/** Plan persistence and plan recommendations: `save_plan` flattens a nested
    plan → modules → lessons object into three collections, and both
    recommendation routes rank the stored plan titles by frequency. */
module Planning {
  import opened Values
  import opened Db
  import opened Web
  import opened Ranking

  // ----- The nested plan a client sends -----

  /** A JSON list the save loop walks: the objects it visits, and whether
      the walk then raises (the value is `null` or not a list, or the next
      element is not an object). An absent list is `Listing([], false)`. */
  datatype Listing<T> = Listing(items: seq<T>, broken: bool)

  /** A module object: its scalar fields and its `lessons` list. */
  datatype ModuleDraft = ModuleDraft(fields: Doc, lessons: Listing<Doc>)

  /** The `plan_data` object: its scalar fields and its `modules` list. */
  datatype PlanDraft = PlanDraft(fields: Doc, modules: Listing<ModuleDraft>)

  // ----- The documents save_plan writes -----

  /** The plan document: owner from the request, three fields copied from the
      plan object (`None` when absent), a creation stamp and status `active`. */
  function PlanDoc(userId: Value, fields: Doc, now: int): (d: Doc)
    ensures d.Keys == {"userId", "plan_title", "difficulty_level", "total_duration_months",
                       "creation_date", "status"}
    ensures d["userId"] == userId && d["status"] == Str("active")
    ensures d["plan_title"] == Get(fields, "plan_title")
    ensures d["difficulty_level"] == Get(fields, "difficulty_level")
    ensures d["total_duration_months"] == Get(fields, "total_duration_months")
  {
    map["userId" := userId,
        "plan_title" := Get(fields, "plan_title"),
        "difficulty_level" := Get(fields, "difficulty_level"),
        "total_duration_months" := Get(fields, "total_duration_months"),
        "creation_date" := Stamp(now),
        "status" := Str("active")]
  }

  /** The module document: its plan, number and title, nothing else. */
  function ModuleDoc(pid: Id, fields: Doc): (d: Doc)
    ensures d.Keys == {"planId", "module_number", "module_title"}
    ensures d["planId"] == Str(pid)
    ensures d["module_number"] == Get(fields, "module_number")
    ensures d["module_title"] == Get(fields, "module_title")
  {
    map["planId" := Str(pid),
        "module_number" := Get(fields, "module_number"),
        "module_title" := Get(fields, "module_title")]
  }

  const Keywords := "Youtube_keywords"

  /** The lesson document `{'moduleId': mid, **lesson}` without
      `Youtube_keywords`: every other field of the lesson copied, and
      `moduleId` set to the module unless the lesson brings its own. */
  function LessonDoc(mid: Id, lesson: Doc): Doc {
    (map["moduleId" := Str(mid)] + lesson) - {Keywords}
  }

  /** The lesson document keeps every field of the lesson but the keywords,
      and names the module unless the lesson brings its own `moduleId`. */
  lemma LessonDocFields(mid: Id, lesson: Doc)
    ensures var d := LessonDoc(mid, lesson);
      && d.Keys == (lesson.Keys + {"moduleId"}) - {Keywords}
      && (forall k :: k in lesson && k != Keywords ==> d[k] == lesson[k])
      && d["moduleId"] == if "moduleId" in lesson then lesson["moduleId"] else Str(mid)
  {
  }

  // ----- The save loops -----

  /** The ids a sequence lists. */
  function IdsOf(ids: seq<Id>): set<Id> {
    set x | x in ids
  }

  lemma IdsOfCons(id: Id, ids: seq<Id>)
    ensures IdsOf([id] + ids) == {id} + IdsOf(ids)
  {
    assert forall x :: x in [id] + ids <==> x == id || x in ids;
  }

  /** `lessons.add(...)` for each lesson in turn: returns the new ids, one
      per lesson in order, and the grown collection. */
  function AddLessons(lessons: Collection, mid: Id, ls: seq<Doc>): (r: (seq<Id>, Collection))
    ensures |r.0| == |ls|
    ensures forall i, j :: 0 <= i < j < |r.0| ==> r.0[i] != r.0[j]
    ensures Extends(r.1, lessons, IdsOf(r.0))
    ensures forall i :: 0 <= i < |ls| ==> r.0[i] in r.1 && r.1[r.0[i]] == LessonDoc(mid, ls[i])
    decreases |ls|
  {
    if |ls| == 0 then ([], lessons)
    else
      var id := FreshId(lessons.Keys);
      var grown := lessons[id := LessonDoc(mid, ls[0])];
      var rest := AddLessons(grown, mid, ls[1..]);
      IdsOfCons(id, rest.0);
      AddLessonsShift(id, mid, ls, rest.0, rest.1);
      ([id] + rest.0, rest.1)
  }

  lemma AddLessonsShift(id: Id, mid: Id, ls: seq<Doc>, ids: seq<Id>, c: Collection)
    requires |ls| > 0 && |ids| == |ls| - 1 && id in c && c[id] == LessonDoc(mid, ls[0])
    requires id !in ids
    requires forall i, j :: 0 <= i < j < |ids| ==> ids[i] != ids[j]
    requires forall i :: 0 <= i < |ids| ==> ids[i] in c && c[ids[i]] == LessonDoc(mid, ls[1..][i])
    ensures forall i, j :: 0 <= i < j < |[id] + ids| ==> ([id] + ids)[i] != ([id] + ids)[j]
    ensures forall i :: 0 <= i < |ls| ==> ([id] + ids)[i] in c && c[([id] + ids)[i]] == LessonDoc(mid, ls[i])
  {
    forall i | 1 <= i < |ls| ensures ([id] + ids)[i] in c && c[([id] + ids)[i]] == LessonDoc(mid, ls[i]) {
      assert ([id] + ids)[i] == ids[i - 1] && ls[1..][i - 1] == ls[i];
    }
  }

  /** What the module loop leaves behind: the store, whether the loop ran
      to its end, and the ids given to each module reached and to each of
      its lessons. */
  datatype Saved = Saved(store: Store, ok: bool, moduleIds: seq<Id>, lessonIds: seq<seq<Id>>)

  /** All the ids of a list of id lists. */
  function AllIds(ls: seq<seq<Id>>): set<Id> {
    if |ls| == 0 then {} else IdsOf(ls[0]) + AllIds(ls[1..])
  }

  /** No lesson object brings its own `moduleId`. */
  predicate NoOwnModuleId(ms: seq<ModuleDraft>) {
    forall i, j :: 0 <= i < |ms| && 0 <= j < |ms[i].lessons.items| ==>
      "moduleId" !in ms[i].lessons.items[j]
  }

  /** Every lesson list of `ms` can be walked to its end. */
  predicate LessonListsWhole(ms: seq<ModuleDraft>) {
    forall i :: 0 <= i < |ms| ==> !ms[i].lessons.broken
  }

  /** One turn of the module loop: the module document under a fresh id,
      then one lesson document per lesson under fresh ids. */
  function SaveModule(s: Store, pid: Id, m: ModuleDraft): (r: (Id, Store, seq<Id>))
    ensures r.1.users == s.users && r.1.plans == s.plans
    ensures r.1.notes == s.notes && r.1.attempts == s.attempts
    ensures Extends(r.1.modules, s.modules, {r.0})
    ensures r.1.modules[r.0] == ModuleDoc(pid, m.fields)
    ensures |r.2| == |m.lessons.items|
    ensures Extends(r.1.lessons, s.lessons, IdsOf(r.2))
    ensures forall j :: 0 <= j < |r.2| ==> r.2[j] in r.1.lessons && r.1.lessons[r.2[j]] == LessonDoc(r.0, m.lessons.items[j])
  {
    var mid := FreshId(s.modules.Keys);
    var added := AddLessons(s.lessons, mid, m.lessons.items);
    (mid, s.(modules := s.modules[mid := ModuleDoc(pid, m.fields)], lessons := added.1), added.0)
  }

  /** `modules.add(...)` for each module, each followed by its lessons; a
      broken lesson list stops the loop with the writes done so far. */
  function SaveModules(s: Store, pid: Id, ms: seq<ModuleDraft>): (r: Saved)
    ensures r.store.users == s.users && r.store.plans == s.plans
    ensures r.store.notes == s.notes && r.store.attempts == s.attempts
    ensures |r.lessonIds| == |r.moduleIds| <= |ms|
    decreases |ms|
  {
    if |ms| == 0 then Saved(s, true, [], [])
    else
      var (mid, s2, lids) := SaveModule(s, pid, ms[0]);
      if ms[0].lessons.broken then Saved(s2, false, [mid], [lids])
      else
        var rest := SaveModules(s2, pid, ms[1..]);
        Saved(rest.store, rest.ok, [mid] + rest.moduleIds, [lids] + rest.lessonIds)
  }

  /** The module loop completes exactly when no lesson list is broken, and
      then it has reached every module. */
  lemma {:induction false} SaveModulesOk(s: Store, pid: Id, ms: seq<ModuleDraft>)
    ensures SaveModules(s, pid, ms).ok <==> LessonListsWhole(ms)
    ensures SaveModules(s, pid, ms).ok ==> |SaveModules(s, pid, ms).moduleIds| == |ms|
    decreases |ms|
  {
    if |ms| > 0 && !ms[0].lessons.broken {
      var (mid, s2, lids) := SaveModule(s, pid, ms[0]);
      SaveModulesOk(s2, pid, ms[1..]);
      assert forall i :: 1 <= i < |ms| ==> ms[i] == ms[1..][i - 1];
    }
  }

  /** The module loop writes one module document per module it reaches, in
      order, under distinct ids no stored module had. */
  lemma {:induction false} SaveModulesWritesModules(s: Store, pid: Id, ms: seq<ModuleDraft>)
    ensures var r := SaveModules(s, pid, ms);
      && (forall i, j :: 0 <= i < j < |r.moduleIds| ==> r.moduleIds[i] != r.moduleIds[j])
      && Extends(r.store.modules, s.modules, IdsOf(r.moduleIds))
      && (forall i :: 0 <= i < |r.moduleIds| ==>
            r.moduleIds[i] in r.store.modules && r.store.modules[r.moduleIds[i]] == ModuleDoc(pid, ms[i].fields))
    decreases |ms|
  {
    var r := SaveModules(s, pid, ms);
    if |ms| > 0 {
      var (mid, s2, lids) := SaveModule(s, pid, ms[0]);
      if !ms[0].lessons.broken {
        var rest := SaveModules(s2, pid, ms[1..]);
        SaveModulesWritesModules(s2, pid, ms[1..]);
        ExtendsTrans(r.store.modules, s2.modules, s.modules, {mid}, IdsOf(rest.moduleIds));
        IdsOfCons(mid, rest.moduleIds);
        ModulesShift(r.store.modules, r.moduleIds, rest.moduleIds, mid, pid, ms);
      } else {
        assert IdsOf(r.moduleIds) == {mid};
      }
    }
  }

  /** The module loop writes, under ids no stored lesson had, one lesson
      document per lesson of each module it reaches, naming that module. */
  lemma {:induction false} SaveModulesWritesLessons(s: Store, pid: Id, ms: seq<ModuleDraft>)
    ensures var r := SaveModules(s, pid, ms);
      && Extends(r.store.lessons, s.lessons, AllIds(r.lessonIds))
      && (forall i :: 0 <= i < |r.lessonIds| ==> |r.lessonIds[i]| == |ms[i].lessons.items|)
      && (forall i, j :: 0 <= i < |r.lessonIds| && 0 <= j < |r.lessonIds[i]| && j < |ms[i].lessons.items| ==>
            r.lessonIds[i][j] in r.store.lessons
            && r.store.lessons[r.lessonIds[i][j]] == LessonDoc(r.moduleIds[i], ms[i].lessons.items[j]))
    decreases |ms|
  {
    var r := SaveModules(s, pid, ms);
    if |ms| > 0 {
      var (mid, s2, lids) := SaveModule(s, pid, ms[0]);
      if !ms[0].lessons.broken {
        var rest := SaveModules(s2, pid, ms[1..]);
        SaveModulesWritesLessons(s2, pid, ms[1..]);
        ExtendsTrans(r.store.lessons, s2.lessons, s.lessons, IdsOf(lids), AllIds(rest.lessonIds));
        SaveModulesShift(r, rest, mid, lids, ms);
      } else {
        assert AllIds(r.lessonIds) == IdsOf(lids);
      }
    }
  }

  /** The index shift of one step of the module loop, for the modules. */
  lemma ModulesShift(c: Collection, ids: seq<Id>, rest: seq<Id>, mid: Id, pid: Id, ms: seq<ModuleDraft>)
    requires |ms| > 0 && |rest| < |ms| && ids == [mid] + rest
    requires mid !in IdsOf(rest)
    requires mid in c && c[mid] == ModuleDoc(pid, ms[0].fields)
    requires forall i, j :: 0 <= i < j < |rest| ==> rest[i] != rest[j]
    requires forall i :: 0 <= i < |rest| ==> rest[i] in c && c[rest[i]] == ModuleDoc(pid, ms[1..][i].fields)
    ensures forall i, j :: 0 <= i < j < |ids| ==> ids[i] != ids[j]
    ensures forall i :: 0 <= i < |ids| ==> ids[i] in c && c[ids[i]] == ModuleDoc(pid, ms[i].fields)
  {
    forall i | 1 <= i < |ids| ensures ids[i] == rest[i - 1] && ms[i] == ms[1..][i - 1] && ids[i] != mid {
      assert rest[i - 1] in IdsOf(rest);
    }
  }

  /** The index shift of one step of the module loop, for the lessons. */
  lemma SaveModulesShift(r: Saved, rest: Saved, mid: Id, lids: seq<Id>, ms: seq<ModuleDraft>)
    requires |ms| > 0 && |rest.lessonIds| == |rest.moduleIds| < |ms|
    requires r.moduleIds == [mid] + rest.moduleIds && r.lessonIds == [lids] + rest.lessonIds
    requires |lids| == |ms[0].lessons.items|
    requires forall j :: 0 <= j < |lids| ==>
      lids[j] in r.store.lessons && r.store.lessons[lids[j]] == LessonDoc(mid, ms[0].lessons.items[j])
    requires forall i :: 0 <= i < |rest.lessonIds| ==> |rest.lessonIds[i]| == |ms[1..][i].lessons.items|
    requires forall i, j :: 0 <= i < |rest.lessonIds| && 0 <= j < |rest.lessonIds[i]| && j < |ms[1..][i].lessons.items| ==>
      rest.lessonIds[i][j] in r.store.lessons
      && r.store.lessons[rest.lessonIds[i][j]] == LessonDoc(rest.moduleIds[i], ms[1..][i].lessons.items[j])
    ensures forall i :: 0 <= i < |r.lessonIds| ==> |r.lessonIds[i]| == |ms[i].lessons.items|
    ensures forall i, j :: 0 <= i < |r.lessonIds| && 0 <= j < |r.lessonIds[i]| && j < |ms[i].lessons.items| ==>
      r.lessonIds[i][j] in r.store.lessons
      && r.store.lessons[r.lessonIds[i][j]] == LessonDoc(r.moduleIds[i], ms[i].lessons.items[j])
  {
    forall i | 1 <= i < |r.lessonIds|
      ensures r.lessonIds[i] == rest.lessonIds[i - 1] && r.moduleIds[i] == rest.moduleIds[i - 1]
      ensures ms[i] == ms[1..][i - 1]
    {
    }
  }

  const SaveError := "A database error occurred."

  /** `save_plan`: the plan document under a fresh id, then the module loop.
      A missing `plan_data` fails before any write; a loop that raises
      leaves its earlier writes in place and answers 500. */
  function SavePlan(session: Session, s: Store, planData: Option<PlanDraft>, userId: Value,
                    now: int): (st: Step<Id>)
    ensures st.session == session
    ensures st.store.users == s.users && st.store.notes == s.notes && st.store.attempts == s.attempts
    ensures session.userId.None? ==> st.reply == Failure(401, AuthRequired) && st.store == s
    ensures session.userId.Some? && planData.None? ==> st.reply == Failure(500, SaveError) && st.store == s
    ensures st.reply.Success? <==>
      session.userId.Some? && planData.Some? && !planData.value.modules.broken
      && LessonListsWhole(planData.value.modules.items)
    ensures session.userId.Some? && planData.Some? ==>
      var pid := FreshId(s.plans.Keys);
      && Extends(st.store.plans, s.plans, {pid})
      && st.store.plans[pid] == PlanDoc(userId, planData.value.fields, now)
      && (st.reply.Success? ==> st.reply.payload == pid)
      && (!st.reply.Success? ==> st.reply == Failure(500, SaveError))
      // the module and lesson documents are those the save loop writes
      // (`SaveModulesWritesModules`, `SaveModulesWritesLessons`)
      && st.store == SaveModules(s.(plans := st.store.plans), pid, planData.value.modules.items).store
  {
    if session.userId.None? then Fail(401, AuthRequired, s, session)
    else if planData.None? then Fail(500, SaveError, s, session)
    else
      var draft := planData.value;
      var pid := FreshId(s.plans.Keys);
      var s1 := s.(plans := s.plans[pid := PlanDoc(userId, draft.fields, now)]);
      var saved := SaveModules(s1, pid, draft.modules.items);
      SaveModulesOk(s1, pid, draft.modules.items);
      if !saved.ok || draft.modules.broken then Step(Failure(500, SaveError), saved.store, session)
      else Step(Success(200, pid), saved.store, session)
  }

  const AuthRequired := "Authentication required."

  // ----- Recommendations -----

  /** The truthy `plan_title` values of the plans, in stream order, each
      counted once. */
  function TitleStream(s: Store, order: seq<Id>): (t: seq<(Value, int)>)
    ensures forall i :: 0 <= i < |t| ==> Truthy(t[i].0) && t[i].1 == 1
  {
    if |order| == 0 then []
    else
      var title := FieldAt(s.plans, order[0], "plan_title");
      (if Truthy(title) then [(title, 1)] else []) + TitleStream(s, order[1..])
  }

  /** The titles in the stream are exactly the truthy titles of the plans
      listed in `order`. */
  lemma {:induction false} TitleStreamTitles(s: Store, order: seq<Id>)
    ensures forall v :: Occurs(TitleStream(s, order), v) <==>
      exists k :: k in order && Truthy(FieldAt(s.plans, k, "plan_title")) && FieldAt(s.plans, k, "plan_title") == v
    ensures |TitleStream(s, order)| == 0 <==> forall k :: k in order ==> !Truthy(FieldAt(s.plans, k, "plan_title"))
  {
    if |order| > 0 {
      var rest := order[1..];
      TitleStreamTitles(s, rest);
      var title := FieldAt(s.plans, order[0], "plan_title");
      var head := if Truthy(title) then [(title, 1)] else [];
      var t := TitleStream(s, order);
      assert t == head + TitleStream(s, rest);
      assert forall k :: k in order <==> k == order[0] || k in rest;
      forall v ensures Occurs(t, v) <==> Occurs(head, v) || Occurs(TitleStream(s, rest), v) {
        if Occurs(t, v) {
          var j :| 0 <= j < |t| && t[j].0 == v;
          if j >= |head| {
            assert TitleStream(s, rest)[j - |head|].0 == v;
          }
        }
        if Occurs(TitleStream(s, rest), v) {
          var j :| 0 <= j < |TitleStream(s, rest)| && TitleStream(s, rest)[j].0 == v;
          assert t[j + |head|].0 == v;
        }
        if Occurs(head, v) {
          assert t[0].0 == v;
        }
      }
      forall v ensures Occurs(head, v) <==> Truthy(title) && title == v {
        if Truthy(title) && title == v {
          assert head[0].0 == v;
        }
      }
    }
  }

  /** `Counter(titles).most_common(5)`, titles only. */
  function MostCommonTitles(s: Store, order: seq<Id>): seq<Value> {
    Keys(Top(TitleStream(s, order), 5))
  }

  /** `a` turns up in the stream before `b` does. */
  ghost predicate SeenBefore<K>(items: seq<(K, int)>, a: K, b: K) {
    exists i :: 0 <= i < |items| && items[i].0 == a && forall j :: 0 <= j <= i ==> items[j].0 != b
  }

  /** The recommendation list: at most five distinct non-empty titles of
      stored plans; a title listed earlier is at least as frequent, and on
      equal counts was met first; and a title left out is no more frequent
      than any listed one. */
  lemma MostCommonTitlesSpec(s: Store, order: seq<Id>)
    ensures var r := MostCommonTitles(s, order);
      var items := TitleStream(s, order);
      && |r| <= 5
      && (forall i :: 0 <= i < |r| ==> Truthy(r[i]) && Occurs(items, r[i]))
      && (forall i, j :: 0 <= i < j < |r| ==> r[i] != r[j])
      && (forall i, j :: 0 <= i < j < |r| ==>
            Total(items, r[i]) > Total(items, r[j])
            || (Total(items, r[i]) == Total(items, r[j]) && SeenBefore(items, r[i], r[j])))
      && (forall j :: 0 <= j < |items| && items[j].0 !in r ==>
            |r| == 5 && forall i :: 0 <= i < |r| ==> Total(items, r[i]) >= Total(items, items[j].0))
  {
    var items := TitleStream(s, order);
    var top := Top(items, 5);
    var r := MostCommonTitles(s, order);
    TopSpec(items, 5);
    forall i | 0 <= i < |r| ensures Truthy(r[i]) && Occurs(items, r[i]) {
      assert IsFirst(items, top[i].key, top[i].first);
    }
    forall i, j | 0 <= i < j < |r|
      ensures Total(items, r[i]) > Total(items, r[j])
              || (Total(items, r[i]) == Total(items, r[j]) && SeenBefore(items, r[i], r[j]))
    {
      assert Before(top[i], top[j]);
      assert IsFirst(items, top[i].key, top[i].first) && IsFirst(items, top[j].key, top[j].first);
      if Total(items, r[i]) == Total(items, r[j]) {
        var fi := top[i].first;
        assert items[fi].0 == r[i];
      }
    }
    forall j | 0 <= j < |items| && items[j].0 !in r
      ensures |r| == 5 && forall i :: 0 <= i < |r| ==> Total(items, r[i]) >= Total(items, items[j].0)
    {
      assert Omitted(top, items[j].0);
    }
  }

  /** Three plans titled Python, Python, Go recommend Python, then Go. */
  lemma MostCommonTitlesExample(s: Store, order: seq<Id>)
    requires |order| == 3
    requires FieldAt(s.plans, order[0], "plan_title") == Str("Python")
    requires FieldAt(s.plans, order[1], "plan_title") == Str("Python")
    requires FieldAt(s.plans, order[2], "plan_title") == Str("Go")
    ensures MostCommonTitles(s, order) == [Str("Python"), Str("Go")]
  {
    var items := [(Str("Python"), 1), (Str("Python"), 1), (Str("Go"), 1)];
    assert order[1..][1..][1..] == [];
    assert TitleStream(s, order[1..][1..]) == [(Str("Go"), 1)];
    assert TitleStream(s, order[1..]) == [(Str("Python"), 1), (Str("Go"), 1)];
    assert TitleStream(s, order) == items;
    assert items[..2][..1] == [(Str("Python"), 1)];
    assert Accumulate(items[..2][..1]) == [Entry(Str("Python"), 1, 0)];
    assert Accumulate(items[..2]) == [Entry(Str("Python"), 2, 0)];
    var a := [Entry(Str("Python"), 2, 0), Entry(Str("Go"), 1, 2)];
    assert IndexOfKey([Entry(Str("Python"), 2, 0)], Str("Go")) == None;
    assert Accumulate(items) == a;
    assert SortDesc(a[1..]) == [Entry(Str("Go"), 1, 2)];
    assert SortDesc(a) == a;
  }

  /** `get_recommendations`, and `recommend_plan`, which does the same but
      for its log text and the message of its (unmodelled) store-error
      reply: after the log-in check, success with the most common titles
      (none for a store without titled plans). */
  function Recommendations(session: Session, s: Store, order: seq<Id>): (st: Step<seq<Value>>)
    requires Enumerates(order, s.plans.Keys)
    ensures st.store == s && st.session == session
    ensures session.userId.None? ==> st.reply == Failure(401, AuthRequired)
    ensures session.userId.Some? ==> st.reply.Success? && st.reply.code == 200
    ensures st.reply.Success? ==> st.reply.payload == MostCommonTitles(s, order)
    ensures st.reply.Success? ==>
      |st.reply.payload| <= 5
      && (|st.reply.payload| == 0 <==> forall k :: k in s.plans ==> !Truthy(FieldAt(s.plans, k, "plan_title")))
      && (forall i :: 0 <= i < |st.reply.payload| ==>
            exists k :: k in s.plans && FieldAt(s.plans, k, "plan_title") == st.reply.payload[i])
  {
    if session.userId.None? then Fail(401, AuthRequired, s, session)
    else
      var r := MostCommonTitles(s, order);
      var items := TitleStream(s, order);
      MostCommonTitlesSpec(s, order);
      TitleStreamTitles(s, order);
      Step(Success(200, r), s, session)
  }

}
