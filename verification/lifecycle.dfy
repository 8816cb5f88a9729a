/** Properties that span several routes: a saved plan is removed without a
    trace by deleting it, and the settings profile update, unlike
    registration, does not keep usernames unique. */
module Lifecycle {
  import opened Values
  import opened Db
  import opened Web
  import Planning
  import Courses
  import Accounts
  import Auth

  /** Every id of `AllIds(ls)` sits at some position of some list. */
  lemma {:induction false} AllIdsMember(ls: seq<seq<Id>>, x: Id)
    requires x in Planning.AllIds(ls)
    ensures exists i, j :: 0 <= i < |ls| && 0 <= j < |ls[i]| && ls[i][j] == x
    decreases |ls|
  {
    if x in Planning.IdsOf(ls[0]) {
      var j :| 0 <= j < |ls[0]| && ls[0][j] == x;
      assert ls[0][j] == x;
    } else {
      AllIdsMember(ls[1..], x);
      var i, j :| 0 <= i < |ls[1..]| && 0 <= j < |ls[1..][i]| && ls[1..][i][j] == x;
      assert ls[i + 1][j] == x;
    }
  }

  /** After fresh documents naming plan `pid` are inserted into modules that
      all name existing plans other than `pid`, the modules naming `pid` are
      exactly the inserted ones. */
  lemma NewModulesOnly(before: Collection, t: Collection, plans: Collection, pid: Id, ids: seq<Id>)
    requires Extends(t, before, Planning.IdsOf(ids)) && pid !in plans
    requires forall m :: m in before ==> RefersInto(before[m], "planId", plans)
    requires forall i :: 0 <= i < |ids| ==> ids[i] in t && "planId" in t[ids[i]] && t[ids[i]]["planId"] == Str(pid)
    ensures Where(t, "planId", Str(pid)) == Planning.IdsOf(ids)
  {
    forall m | m in Planning.IdsOf(ids) ensures m in Where(t, "planId", Str(pid)) {
      var i :| 0 <= i < |ids| && ids[i] == m;
    }
    forall m | m in before ensures m !in Where(t, "planId", Str(pid)) {
      assert t[m] == before[m];
    }
  }

  /** The lessons that name one of the new modules are exactly the inserted
      lessons, when every older lesson names an older module. */
  lemma NewLessonsOnly(before: Collection, t: Collection, modules: Collection, mids: seq<Id>, lids: seq<seq<Id>>)
    requires Extends(t, before, Planning.AllIds(lids)) && |lids| == |mids|
    requires modules.Keys !! Planning.IdsOf(mids)
    requires forall l :: l in before && "moduleId" in before[l] ==> RefersInto(before[l], "moduleId", modules)
    requires forall i, j :: 0 <= i < |lids| && 0 <= j < |lids[i]| ==>
      lids[i][j] in t && "moduleId" in t[lids[i][j]] && t[lids[i][j]]["moduleId"] == Str(mids[i])
    ensures WhereIn(t, "moduleId", Planning.IdsOf(mids)) == Planning.AllIds(lids)
  {
    forall l | l in Planning.AllIds(lids) ensures l in WhereIn(t, "moduleId", Planning.IdsOf(mids)) {
      AllIdsMember(lids, l);
      var i, j :| 0 <= i < |lids| && 0 <= j < |lids[i]| && lids[i][j] == l;
      assert mids[i] in Planning.IdsOf(mids);
    }
    forall l | l in before ensures l !in WhereIn(t, "moduleId", Planning.IdsOf(mids)) {
      assert t[l] == before[l];
    }
  }

  /** The lesson documents the module loop writes name their modules, when
      no lesson brings its own `moduleId`. */
  lemma SavedLessonsNameModules(s1: Store, pid: Id, ms: seq<Planning.ModuleDraft>)
    requires Planning.NoOwnModuleId(ms)
    ensures var r := Planning.SaveModules(s1, pid, ms);
      forall i, j :: 0 <= i < |r.lessonIds| && 0 <= j < |r.lessonIds[i]| ==>
        r.lessonIds[i][j] in r.store.lessons && "moduleId" in r.store.lessons[r.lessonIds[i][j]]
        && r.store.lessons[r.lessonIds[i][j]]["moduleId"] == Str(r.moduleIds[i])
  {
    var r := Planning.SaveModules(s1, pid, ms);
    Planning.SaveModulesWritesLessons(s1, pid, ms);
    forall i, j | 0 <= i < |r.lessonIds| && 0 <= j < |r.lessonIds[i]|
      ensures r.lessonIds[i][j] in r.store.lessons && "moduleId" in r.store.lessons[r.lessonIds[i][j]]
        && r.store.lessons[r.lessonIds[i][j]]["moduleId"] == Str(r.moduleIds[i])
    {
      Planning.LessonDocFields(r.moduleIds[i], ms[i].lessons.items[j]);
    }
  }

  /** The module documents the module loop writes name the plan. */
  lemma SavedModulesNamePlan(s1: Store, pid: Id, ms: seq<Planning.ModuleDraft>)
    ensures var r := Planning.SaveModules(s1, pid, ms);
      forall i :: 0 <= i < |r.moduleIds| ==>
        r.moduleIds[i] in r.store.modules && "planId" in r.store.modules[r.moduleIds[i]]
        && r.store.modules[r.moduleIds[i]]["planId"] == Str(pid)
  {
    var r := Planning.SaveModules(s1, pid, ms);
    Planning.SaveModulesWritesModules(s1, pid, ms);
    forall i | 0 <= i < |r.moduleIds|
      ensures r.moduleIds[i] in r.store.modules && "planId" in r.store.modules[r.moduleIds[i]]
        && r.store.modules[r.moduleIds[i]]["planId"] == Str(pid)
    {
      assert "planId" in Planning.ModuleDoc(pid, ms[i].fields);
    }
  }

  /** The store after the plan document, as the save loop starts. */
  function WithPlan(s: Store, pid: Id, d: Doc): Store {
    s.(plans := s.plans[pid := d])
  }

  /** A complete draft saves as the plan document under the fresh id
      followed by the whole module loop. */
  lemma SavePlanRunsLoop(session: Session, s: Store, draft: Planning.PlanDraft, uid: Value, now: int)
    requires session.userId.Some?
    requires !draft.modules.broken && Planning.LessonListsWhole(draft.modules.items)
    ensures var pid := FreshId(s.plans.Keys);
      var st := Planning.SavePlan(session, s, Some(draft), uid, now);
      && st.reply == Success(200, pid)
      && st.store == Planning.SaveModules(WithPlan(s, pid, Planning.PlanDoc(uid, draft.fields, now)), pid,
                                          draft.modules.items).store
  {
    var pid := FreshId(s.plans.Keys);
    Planning.SaveModulesOk(WithPlan(s, pid, Planning.PlanDoc(uid, draft.fields, now)), pid, draft.modules.items);
  }

  /** The module loop started on a store without orphans adds exactly the
      modules that name the new plan and exactly the lessons that name
      those modules. */
  lemma LoopAddsOnlyItsOwn(s: Store, pid: Id, d: Doc, ms: seq<Planning.ModuleDraft>)
    requires Linked(s) && pid !in s.plans
    requires Planning.NoOwnModuleId(ms)
    ensures var r := Planning.SaveModules(WithPlan(s, pid, d), pid, ms);
      var t := r.store;
      var mids := Where(t.modules, "planId", Str(pid));
      && t.users == s.users && t.notes == s.notes && t.attempts == s.attempts
      && t.plans == s.plans[pid := d]
      && t.modules - mids == s.modules
      && t.lessons - LessonsOf(t, mids) == s.lessons
  {
    var s1 := WithPlan(s, pid, d);
    var r := Planning.SaveModules(s1, pid, ms);
    var t := r.store;
    Planning.SaveModulesOk(s1, pid, ms);
    Planning.SaveModulesWritesModules(s1, pid, ms);
    Planning.SaveModulesWritesLessons(s1, pid, ms);
    SavedModulesNamePlan(s1, pid, ms);
    SavedLessonsNameModules(s1, pid, ms);
    NewModulesOnly(s.modules, t.modules, s.plans, pid, r.moduleIds);
    NewLessonsOnly(s.lessons, t.lessons, s.modules, r.moduleIds, r.lessonIds);
    ExtendsUndone(t.modules, s.modules, Planning.IdsOf(r.moduleIds));
    ExtendsUndone(t.lessons, s.lessons, Planning.AllIds(r.lessonIds));
  }

  /** A plan that did not exist has no notes in a store whose notes all
      name existing plans. */
  lemma FreshPlanHasNoNotes(s: Store, t: Store, pid: Id)
    requires NotesLinked(s) && pid !in s.plans && t.notes == s.notes
    ensures NotesOf(t, pid) == {}
  {
    forall n | n in t.notes ensures n !in NotesOf(t, pid) {
      assert RefersInto(s.notes[n], "planId", s.plans);
    }
  }

  /** Dropping a plan whose documents are exactly the ones added to `s`
      gives back `s`. */
  lemma DropUndoesAdd(s: Store, t: Store, pid: Id, d: Doc)
    requires pid !in s.plans && t.plans == s.plans[pid := d]
    requires t.users == s.users && t.notes == s.notes && t.attempts == s.attempts
    requires t.modules - Where(t.modules, "planId", Str(pid)) == s.modules
    requires t.lessons - LessonsOf(t, Where(t.modules, "planId", Str(pid))) == s.lessons
    requires NotesOf(t, pid) == {}
    ensures Courses.DropPlan(t, pid) == s
  {
    assert t.plans - {pid} == s.plans;
  }

  /** The owner's delete of an existing plan succeeds and drops it. */
  lemma OwnerDeletes(session: Session, t: Store, pid: Id)
    requires ValidDocId(pid) && session.userId.Some? && Courses.Owns(t, session.userId.value, pid)
    ensures Courses.DeletePlan(session, t, pid).reply.Success?
    ensures Courses.DeletePlan(session, t, pid).store == Courses.DropPlan(t, pid)
  {
  }

  /** Saving a plan and then deleting it gives back the store as it was,
      when the store has no orphans and no lesson of the draft brings its
      own `moduleId` (such a lesson would join another module and survive
      the delete). */
  lemma SaveThenDeleteRestores(session: Session, s: Store, draft: Planning.PlanDraft, now: int)
    requires session.userId.Some? && Linked(s) && NotesLinked(s)
    requires !draft.modules.broken && Planning.LessonListsWhole(draft.modules.items)
    requires Planning.NoOwnModuleId(draft.modules.items)
    ensures var st := Planning.SavePlan(session, s, Some(draft), Str(session.userId.value), now);
      && st.reply.Success? && ValidDocId(st.reply.payload)
      && Courses.DeletePlan(session, st.store, st.reply.payload).reply.Success?
      && Courses.DeletePlan(session, st.store, st.reply.payload).store == s
  {
    var uid := session.userId.value;
    var pid := FreshId(s.plans.Keys);
    var d := Planning.PlanDoc(Str(uid), draft.fields, now);
    SavePlanRunsLoop(session, s, draft, Str(uid), now);
    LoopAddsOnlyItsOwn(s, pid, d, draft.modules.items);
    var t := Planning.SavePlan(session, s, Some(draft), Str(uid), now).store;
    FreshPlanHasNoNotes(s, t, pid);
    DropUndoesAdd(s, t, pid, d);
    OwnerDeletes(session, t, pid);
  }

  /** The settings profile update writes the username without looking for
      another user who has it: two accounts can end up sharing one. */
  lemma ProfileUpdateCanDuplicateUsername()
    ensures var s := Store(map["a@x" := map["username" := Str("ann")], "b@x" := map["username" := Str("bob")]],
                           map[], map[], map[], map[], map[]);
      var body := map["username" := Str("ann")];
      var t := Accounts.UpdateProfile(Session(Some("b@x"), None, None), s, Some(body)).store;
      Auth.Unique(s.users, "username") && !Auth.Unique(t.users, "username")
  {
    var s := Store(map["a@x" := map["username" := Str("ann")], "b@x" := map["username" := Str("bob")]],
                   map[], map[], map[], map[], map[]);
    var body := map["username" := Str("ann")];
    var t := Accounts.UpdateProfile(Session(Some("b@x"), None, None), s, Some(body)).store;
    assert Accounts.UserExists(s, "b@x");
    assert t.users["b@x"]["username"] == Str("ann");
    assert t.users["a@x"]["username"] == Str("ann");
  }
}
