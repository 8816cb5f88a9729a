/** The course and progress tracker: the course page and its JSON twin with
    their lesson recount, single-plan deletion, the cached video lookup, lesson
    completion, the transcript fetch and lesson notes. */
module Courses {
  import opened Values
  import opened Db
  import opened Web
  import opened Rounding
  import opened Text

  // ----- Ownership and progress -----

  /** Plan `pid` exists and its `userId` is the session user. */
  predicate Owns(s: Store, uid: Id, pid: Id) {
    pid in s.plans && Get(s.plans[pid], "userId") == Str(uid)
  }

  /** A lesson counts as completed when `is_completed` (default `False`) is truthy. */
  predicate IsDone(lesson: Doc) {
    Truthy(GetOr(lesson, "is_completed", Bool(false)))
  }

  /** The completed lessons among `ls`. */
  function CompletedAmong(s: Store, ls: set<Id>): (r: set<Id>)
    ensures r <= ls
  {
    set l | l in ls && l in s.lessons && IsDone(s.lessons[l])
  }

  /** The lessons the page recount visits: modules of the plan ordered by
      `module_number`, their lessons ordered by `day_of_plan` (so documents
      without those fields are not visited). */
  function PageLessons(s: Store, pid: Id): set<Id> {
    var mids := Having(s.modules, Where(s.modules, "planId", Str(pid)), "module_number");
    Having(s.lessons, LessonsOf(s, mids), "day_of_plan")
  }

  /** The lessons the completion recount visits: every lesson of every
      module whose `planId` equals the request's `plan_id`, unordered. */
  function AllLessons(s: Store, planId: Value): set<Id> {
    LessonsOf(s, Where(s.modules, "planId", planId))
  }

  /** Percentage of the lessons of `ls` that are completed. */
  function ProgressOf(s: Store, ls: set<Id>): (p: int)
    ensures 0 <= p <= 100
    ensures |ls| == 0 ==> p == 0
    ensures |ls| > 0 && CompletedAmong(s, ls) == ls ==> p == 100
    ensures CompletedAmong(s, ls) == {} ==> p == 0
  {
    var done := CompletedAmong(s, ls);
    SubsetSize(done, ls);
    ProgressBounds(|done|, |ls|);
    ProgressEdges(|ls|);
    Progress(|done|, |ls|)
  }

  /** Completing more of the same lessons never lowers the percentage. */
  lemma ProgressOfMonotone(s1: Store, s2: Store, ls: set<Id>)
    requires CompletedAmong(s1, ls) <= CompletedAmong(s2, ls)
    ensures ProgressOf(s1, ls) <= ProgressOf(s2, ls)
  {
    SubsetSize(CompletedAmong(s1, ls), CompletedAmong(s2, ls));
    ProgressMonotone(|CompletedAmong(s1, ls)|, |CompletedAmong(s2, ls)|, |ls|);
  }

  /** The stored `progress` (default 0) equals `p` under Python `==`,
      where `True == 1` and `False == 0`. */
  predicate StoredProgressIs(plan: Doc, p: int) {
    Num(GetOr(plan, "progress", Int(0))) == Some(p)
  }

  // ----- course_details and api_course_details -----

  /** What the course page shows: the plan (with its progress) and the counts. */
  datatype CourseView = CourseView(plan: Doc, total: nat, completed: nat)

  /** The course page: log-in and ownership gates, recount, and a progress
      write only when the stored value differs. */
  function CourseDetails(session: Session, s: Store, pid: Id, now: int): (st: Step<CourseView>)
    requires ValidDocId(pid)
    ensures session.userId.None? ==> st == Step(Redirect(LoginPage), s, session)
    ensures session.userId.Some? && !Owns(s, session.userId.value, pid) ==>
      st == Step(Redirect(CourseListPage), s, session)
    ensures st.session == session
    ensures st.reply.Success? ==> 0 <= st.reply.payload.completed <= st.reply.payload.total
    ensures session.userId.Some? && Owns(s, session.userId.value, pid) ==>
      && st.reply.Success?
      && st.reply.payload.total == |PageLessons(s, pid)|
      && st.reply.payload.completed == |CompletedAmong(s, PageLessons(s, pid))|
      && pid in st.store.plans
      && StoredProgressIs(st.store.plans[pid], ProgressOf(s, PageLessons(s, pid)))
    ensures st.store != s ==>
      && st.reply.Success?
      && !StoredProgressIs(s.plans[pid], ProgressOf(s, PageLessons(s, pid)))
      && st.store == s.(plans := s.plans[pid := s.plans[pid]
           + map["progress" := Int(ProgressOf(s, PageLessons(s, pid))), "last_updated" := Stamp(now)]])
  {
    if session.userId.None? then Step(Redirect(LoginPage), s, session)
    else if !Owns(s, session.userId.value, pid) then Step(Redirect(CourseListPage), s, session)
    else
      var ls := PageLessons(s, pid);
      var done := CompletedAmong(s, ls);
      SubsetSize(done, ls);
      var p := ProgressOf(s, ls);
      var plan := s.plans[pid];
      if !StoredProgressIs(plan, p) then
        var update := map["progress" := Int(p), "last_updated" := Stamp(now)];
        Step(Success(200, CourseView(plan + update, |ls|, |done|)),
             s.(plans := Merge(s.plans, pid, update)), session)
      else
        Step(Success(200, CourseView(plan, |ls|, |done|)), s, session)
  }

  /** The course page writes nothing when the stored progress already
      matches the recount. */
  lemma CourseDetailsKeepsMatchingProgress(session: Session, s: Store, pid: Id, now: int)
    requires ValidDocId(pid) && pid in s.plans
    requires StoredProgressIs(s.plans[pid], ProgressOf(s, PageLessons(s, pid)))
    ensures CourseDetails(session, s, pid, now).store == s
  {
  }

  /** Loading the course page twice writes at most once: the second load
      finds the progress it would write already stored. */
  lemma CourseDetailsSettles(session: Session, s: Store, pid: Id, now1: int, now2: int)
    requires ValidDocId(pid)
    ensures var s1 := CourseDetails(session, s, pid, now1).store;
      CourseDetails(session, s1, pid, now2).store == s1
  {
    var s1 := CourseDetails(session, s, pid, now1).store;
    if s1 != s {
      var p := ProgressOf(s, PageLessons(s, pid));
      var plan := s.plans[pid] + map["progress" := Int(p), "last_updated" := Stamp(now1)];
      assert s1 == s.(plans := s.plans[pid := plan]);
      SameRecount(s, s1, pid);
      assert plan["progress"] == Int(p);
      CourseDetailsKeepsMatchingProgress(session, s1, pid, now2);
    }
  }

  /** Two stores with the same modules and lessons give the same recount. */
  lemma SameRecount(s: Store, t: Store, pid: Id)
    requires s.modules == t.modules && s.lessons == t.lessons
    ensures PageLessons(t, pid) == PageLessons(s, pid)
    ensures ProgressOf(t, PageLessons(t, pid)) == ProgressOf(s, PageLessons(s, pid))
  {
    assert CompletedAmong(t, PageLessons(s, pid)) == CompletedAmong(s, PageLessons(s, pid));
  }

  /** The JSON course view: the same gates answering 404, the same recount,
      and no write. */
  function ApiCourseDetails(session: Session, s: Store, pid: Id): (st: Step<CourseView>)
    requires ValidDocId(pid)
    ensures st.store == s && st.session == session
    ensures session.userId.None? ==> st.reply == Failure(401, Unauthorized)
    ensures session.userId.Some? && !Owns(s, session.userId.value, pid) ==>
      st.reply == Failure(404, "Plan not found or permission denied")
    ensures st.reply.Success? ==> 0 <= st.reply.payload.completed <= st.reply.payload.total
    ensures session.userId.Some? && Owns(s, session.userId.value, pid) ==>
      var ls := PageLessons(s, pid);
      && st.reply.Success?
      && st.reply.payload.total == |ls|
      && st.reply.payload.completed == |CompletedAmong(s, ls)|
      && "progress" in st.reply.payload.plan && "id" in st.reply.payload.plan
      && st.reply.payload.plan["progress"] == Int(ProgressOf(s, ls))
      && st.reply.payload.plan["id"] == Str(pid)
      && forall f :: f in s.plans[pid] && f != "progress" && f != "id" ==>
           f in st.reply.payload.plan && st.reply.payload.plan[f] == s.plans[pid][f]
  {
    if session.userId.None? then Denied(s, session)
    else if !Owns(s, session.userId.value, pid) then
      Fail(404, "Plan not found or permission denied", s, session)
    else
      var ls := PageLessons(s, pid);
      var done := CompletedAmong(s, ls);
      SubsetSize(done, ls);
      var plan := s.plans[pid] + map["progress" := Int(ProgressOf(s, ls)), "id" := Str(pid)];
      Step(Success(200, CourseView(plan, |ls|, |done|)), s, session)
  }

  /** After the course page has been loaded, the JSON view reports exactly
      the progress that is stored. */
  lemma ApiAgreesWithStoredProgress(session: Session, s: Store, pid: Id, now: int)
    requires ValidDocId(pid)
    requires CourseDetails(session, s, pid, now).reply.Success?
    ensures var s1 := CourseDetails(session, s, pid, now).store;
      && ApiCourseDetails(session, s1, pid).reply.Success?
      && Num(ApiCourseDetails(session, s1, pid).reply.payload.plan["progress"])
         == Num(GetOr(s1.plans[pid], "progress", Int(0)))
  {
    var s1 := CourseDetails(session, s, pid, now).store;
    assert s1.modules == s.modules && s1.lessons == s.lessons;
    assert PageLessons(s1, pid) == PageLessons(s, pid);
    assert CompletedAmong(s1, PageLessons(s, pid)) == CompletedAmong(s, PageLessons(s, pid));
    assert Owns(s1, session.userId.value, pid);
  }

  // ----- delete_plan -----

  /** The plan, its modules, those modules' lessons and the plan's notes
      removed; everything else as it was. */
  function DropPlan(s: Store, pid: Id): Store {
    var mids := Where(s.modules, "planId", Str(pid));
    s.(plans := s.plans - {pid},
       modules := s.modules - mids,
       lessons := s.lessons - LessonsOf(s, mids),
       notes := s.notes - NotesOf(s, pid))
  }

  /** Deleting one plan behind the log-in and ownership gates. */
  function DeletePlan(session: Session, s: Store, pid: Id): (st: Step<string>)
    requires ValidDocId(pid)
    ensures st.session == session
    ensures session.userId.None? ==> st.reply == Failure(401, Unauthorized) && st.store == s
    ensures session.userId.Some? && !Owns(s, session.userId.value, pid) ==>
      st.reply == Failure(404, "Plan not found or permission denied.") && st.store == s
    ensures session.userId.Some? && Owns(s, session.userId.value, pid) ==>
      st.reply == Success(200, "Plan deleted successfully.")
    ensures st.reply.Success? ==>
      var t := st.store;
      // the plan is gone, and nothing that pointed into it is left
      && pid !in t.plans
      && (forall m :: m in t.modules ==> Get(t.modules[m], "planId") != Str(pid))
      && (forall n :: n in t.notes ==> Get(t.notes[n], "planId") != Str(pid))
      && (forall l :: l in t.lessons ==>
            (!RefersInto(t.lessons[l], "moduleId", s.modules)
             || Get(s.modules[t.lessons[l]["moduleId"].s], "planId") != Str(pid)))
      // every surviving document is untouched, and only the plan's own were removed
      && t.users == s.users && t.attempts == s.attempts
      && (forall k :: k in t.plans ==> k in s.plans && t.plans[k] == s.plans[k])
      && (forall k :: k in s.plans && k != pid ==> k in t.plans)
      && (forall k :: k in t.modules ==> k in s.modules && t.modules[k] == s.modules[k])
      && (forall k :: k in s.modules && Get(s.modules[k], "planId") != Str(pid) ==> k in t.modules)
      && (forall k :: k in t.lessons ==> k in s.lessons && t.lessons[k] == s.lessons[k])
      && (forall k :: k in s.lessons && k !in LessonsOf(s, Where(s.modules, "planId", Str(pid))) ==>
            k in t.lessons)
      && (forall k :: k in t.notes ==> k in s.notes && t.notes[k] == s.notes[k])
      && (forall k :: k in s.notes && Get(s.notes[k], "planId") != Str(pid) ==> k in t.notes)
  {
    if session.userId.None? then Denied(s, session)
    else if !Owns(s, session.userId.value, pid) then
      Fail(404, "Plan not found or permission denied.", s, session)
    else
      Step(Success(200, "Plan deleted successfully."), DropPlan(s, pid), session)
  }

  /** Deleting a plan keeps the hierarchy and the notes free of orphans. */
  lemma DeletePlanKeepsLinks(session: Session, s: Store, pid: Id)
    requires ValidDocId(pid) && Linked(s) && NotesLinked(s)
    ensures Linked(DeletePlan(session, s, pid).store)
    ensures NotesLinked(DeletePlan(session, s, pid).store)
  {
    var t := DeletePlan(session, s, pid).store;
    if t != s {
      var mids := Where(s.modules, "planId", Str(pid));
      forall m | m in t.modules ensures RefersInto(t.modules[m], "planId", t.plans) {
        assert m !in mids;
      }
      forall l | l in t.lessons && "moduleId" in t.lessons[l]
        ensures RefersInto(t.lessons[l], "moduleId", t.modules)
      {
        assert l !in LessonsOf(s, mids);
      }
      forall n | n in t.notes ensures RefersInto(t.notes[n], "planId", t.plans) {
        assert n !in NotesOf(s, pid);
      }
    }
  }

  // ----- get_semantically_best_video and get_video_for_lesson -----

  /** What the video search answered: a failure (network error, bad status)
      or its result list, each result reduced to its `id.videoId` when
      present. */
  datatype Search = SearchFailed | Results(videoIds: seq<Option<Value>>)

  /** The search phrase: `"<topic> tutorial"`. */
  function SearchQuery(lesson: Doc): string {
    PyStr(GetOr(lesson, "topic", Str(""))) + " tutorial"
  }

  /** Whether a search answer yields a video: a first result with an id. */
  predicate HasFirstVideo(answer: Search) {
    answer.Results? && |answer.videoIds| > 0 && answer.videoIds[0].Some?
  }

  /** The embeddable link of the first search result, or `""` when there
      is no API key, the search fails, it finds nothing, or the first result
      has no id. */
  function BestVideo(keySet: bool, search: string -> Search, lesson: Doc): (url: string)
    ensures url == "" <==> !keySet || !HasFirstVideo(search(SearchQuery(lesson)))
    ensures url != "" ==>
      var id := PyStr(search(SearchQuery(lesson)).videoIds[0].value);
      && EmbedPrefix <= url
      && (!Contains(id, EmbedSep) ==> VideoIdOf(url) == id)
  {
    if !keySet then ""
    else
      var answer := search(SearchQuery(lesson));
      if !HasFirstVideo(answer) then ""
      else
        var id := PyStr(answer.videoIds[0].value);
        EmbedUrlParts(id);
        EmbedUrl(id)
  }

  datatype VideoReply = VideoReply(url: Value, fromCache: bool)

  const StubMessage := "New lesson document created. Please try again."
  const NoVideoMessage := "No suitable video found"

  /** The placeholder written for a lesson id that has no document. */
  function Stub(now: int): Doc {
    map["created_at" := Stamp(now), "status" := Str("Pending"), "youtube_link" := Str("")]
  }

  /** Cache, then search, then merge-write of the found link. */
  function GetVideoForLesson(session: Session, s: Store, lid: Id, keySet: bool,
                             search: string -> Search, now: int): (st: Step<VideoReply>)
    requires ValidDocId(lid)
    ensures st.session == session
    ensures st.store.plans == s.plans && st.store.modules == s.modules && st.store.notes == s.notes
    ensures st.store.users == s.users && st.store.attempts == s.attempts
    ensures session.userId.None? ==> st.reply == Failure(401, Unauthorized) && st.store == s
    ensures session.userId.Some? && lid !in s.lessons ==>
      st.reply == Failure(404, StubMessage) && st.store.lessons == s.lessons[lid := Stub(now)]
    ensures session.userId.Some? && lid in s.lessons && Truthy(Get(s.lessons[lid], "youtube_link")) ==>
      st.reply == Success(200, VideoReply(s.lessons[lid]["youtube_link"], true)) && st.store == s
    ensures session.userId.Some? && lid in s.lessons && !Truthy(Get(s.lessons[lid], "youtube_link")) ==>
      var url := BestVideo(keySet, search, s.lessons[lid]);
      && (url == "" ==> st.reply == Failure(404, NoVideoMessage) && st.store == s)
      && (url != "" ==>
            && st.reply == Success(200, VideoReply(Str(url), false))
            && st.store.lessons == s.lessons[lid := s.lessons[lid]
                 + map["youtube_link" := Str(url), "last_updated" := Stamp(now)]])
    ensures st.reply == Failure(404, NoVideoMessage) ==> st.store == s
    ensures st.reply.Success? && !st.reply.payload.fromCache ==>
      && lid in s.lessons
      && st.reply.payload.url.Str? && st.reply.payload.url.s != ""
      && st.reply.payload.url.s == BestVideo(keySet, search, s.lessons[lid])
      && st.store.lessons == s.lessons[lid := s.lessons[lid]
           + map["youtube_link" := st.reply.payload.url, "last_updated" := Stamp(now)]]
  {
    if session.userId.None? then Denied(s, session)
    else if lid !in s.lessons then
      Step(Failure(404, StubMessage), s.(lessons := s.lessons[lid := Stub(now)]), session)
    else
      var lesson := s.lessons[lid];
      if Truthy(Get(lesson, "youtube_link")) then
        Step(Success(200, VideoReply(lesson["youtube_link"], true)), s, session)
      else
        var url := BestVideo(keySet, search, lesson);
        if url == "" then Fail(404, NoVideoMessage, s, session)
        else
          var update := map["youtube_link" := Str(url), "last_updated" := Stamp(now)];
          Step(Success(200, VideoReply(Str(url), false)), s.(lessons := Merge(s.lessons, lid, update)), session)
  }

  /** A link found by a search is served from the cache on the next call,
      whatever the search would answer then, and nothing is written. */
  lemma VideoIsCachedAfterSearch(session: Session, s: Store, lid: Id, keySet: bool,
                                 search: string -> Search, now: int,
                                 keySet2: bool, search2: string -> Search, now2: int)
    requires ValidDocId(lid)
    requires GetVideoForLesson(session, s, lid, keySet, search, now).reply.Success?
    ensures var st := GetVideoForLesson(session, s, lid, keySet, search, now);
      GetVideoForLesson(session, st.store, lid, keySet2, search2, now2)
        == Step(Success(200, VideoReply(st.reply.payload.url, true)), st.store, session)
  {
  }

  /** A missing lesson gets a stub whose empty link is not a cache hit: the
      call after the stub goes on to the search. */
  lemma StubIsNotCached(session: Session, s: Store, lid: Id, keySet: bool,
                        search: string -> Search, now: int, now2: int)
    requires ValidDocId(lid) && session.userId.Some? && lid !in s.lessons
    ensures var s1 := GetVideoForLesson(session, s, lid, keySet, search, now).store;
      GetVideoForLesson(session, s1, lid, keySet, search, now2).reply
        == (if BestVideo(keySet, search, Stub(now)) == "" then Failure(404, NoVideoMessage)
            else Success(200, VideoReply(Str(BestVideo(keySet, search, Stub(now))), false)))
  {
  }

  // ----- update_lesson_completion -----

  const PlanIdRequired := "Plan ID is required"

  /** Marking a lesson (un)completed, then rewriting the progress of the
      plan named in the request from a full recount. */
  function UpdateLessonCompletion(session: Session, s: Store, lid: Id, body: Doc, now: int): (st: Step<int>)
    requires ValidDocId(lid)
    ensures st.session == session
    ensures st.store.users == s.users && st.store.modules == s.modules
    ensures st.store.notes == s.notes && st.store.attempts == s.attempts
    ensures session.userId.None? ==> st.reply == Failure(401, Unauthorized) && st.store == s
    ensures session.userId.Some? && !Truthy(Get(body, "plan_id")) ==>
      st.reply == Failure(400, PlanIdRequired) && st.store == s
    ensures session.userId.Some? && Truthy(Get(body, "plan_id")) && lid !in s.lessons ==>
      st.reply == Failure(500, ExceptionText) && st.store == s
    ensures session.userId.Some? && Truthy(Get(body, "plan_id")) && lid in s.lessons ==>
      var planId := Get(body, "plan_id");
      && st.store.lessons == s.lessons[lid := s.lessons[lid]
           + map["is_completed" := GetOr(body, "is_completed", Bool(false)), "last_updated" := Stamp(now)]]
      && (st.reply.Success? <==> planId.Str? && ValidDocId(planId.s) && planId.s in s.plans)
      && (!st.reply.Success? ==> st.reply == Failure(500, ExceptionText) && st.store.plans == s.plans)
    ensures st.reply.Failure? && st.store != s ==> st.reply.code == 500
    ensures st.store != s ==>
      && lid in s.lessons
      && st.store.lessons == s.lessons[lid := s.lessons[lid]
           + map["is_completed" := GetOr(body, "is_completed", Bool(false)), "last_updated" := Stamp(now)]]
    ensures st.reply.Success? ==> Get(body, "plan_id").Str?
    ensures st.reply.Success? ==>
      var pid := Get(body, "plan_id").s;
      && 0 <= st.reply.payload <= 100
      && st.reply.payload == ProgressOf(st.store, AllLessons(st.store, Str(pid)))
      && pid in s.plans
      && st.store.plans == s.plans[pid := s.plans[pid]
           + map["progress" := Int(st.reply.payload), "last_updated" := Stamp(now)]]
  {
    if session.userId.None? then Denied(s, session)
    else
      var isCompleted := GetOr(body, "is_completed", Bool(false));
      var planId := Get(body, "plan_id");
      if !Truthy(planId) then Fail(400, PlanIdRequired, s, session)
      else if lid !in s.lessons then Fail(500, ExceptionText, s, session)
      else
        var s1 := s.(lessons := Merge(s.lessons, lid, map["is_completed" := isCompleted, "last_updated" := Stamp(now)]));
        var p := ProgressOf(s1, AllLessons(s1, planId));
        if !planId.Str? || !ValidDocId(planId.s) || planId.s !in s1.plans then
          Step(Failure(500, ExceptionText), s1, session)
        else
          var update := map["progress" := Int(p), "last_updated" := Stamp(now)];
          Step(Success(200, p), s1.(plans := Merge(s1.plans, planId.s, update)), session)
  }

  /** When every module of the plan has a `module_number` and every lesson
      of those modules a `day_of_plan`, the two recounts visit the same
      lessons; so right after a completion update the course page finds the
      stored progress current and writes nothing. */
  lemma CompletionThenPageWritesNothing(session: Session, s: Store, lid: Id, body: Doc,
                                        now: int, now2: int)
    requires ValidDocId(lid)
    requires UpdateLessonCompletion(session, s, lid, body, now).reply.Success?
    requires var pid := Get(body, "plan_id").s;
      var t := UpdateLessonCompletion(session, s, lid, body, now).store;
      && (forall m :: m in Where(t.modules, "planId", Str(pid)) ==> "module_number" in t.modules[m])
      && (forall l :: l in AllLessons(t, Str(pid)) ==> "day_of_plan" in t.lessons[l])
    ensures var pid := Get(body, "plan_id").s;
      var t := UpdateLessonCompletion(session, s, lid, body, now).store;
      CourseDetails(session, t, pid, now2).store == t
  {
    var pid := Get(body, "plan_id").s;
    var t := UpdateLessonCompletion(session, s, lid, body, now).store;
    var mids := Where(t.modules, "planId", Str(pid));
    assert Having(t.modules, mids, "module_number") == mids;
    assert PageLessons(t, pid) == AllLessons(t, Str(pid));
    assert StoredProgressIs(t.plans[pid], ProgressOf(t, PageLessons(t, pid)));
  }

  // ----- get_transcript -----

  /** What the transcript service answered for a video id. */
  datatype TranscriptAnswer = TranscriptsDisabled | NoTranscriptFound | FetchFailed | Segments(texts: seq<string>)

  datatype TranscriptReply = TranscriptReply(transcript: string, videoUrl: string)

  const NoTranscript := "No transcript is available for this video. The owner may have disabled captions."
  const TranscriptServerError := "A server error occurred while trying to fetch the transcript."
  const InvalidUrl := "Invalid YouTube URL for this lesson."

  /** `sep.join(parts)` */
  function Join(parts: seq<string>, sep: string): string {
    if |parts| == 0 then ""
    else if |parts| == 1 then parts[0]
    else parts[0] + sep + Join(parts[1..], sep)
  }

  /** The reply for a transcript answer. */
  function TranscriptOutcome(answer: TranscriptAnswer, url: string): Reply<TranscriptReply> {
    match answer
    case TranscriptsDisabled => Failure(404, NoTranscript)
    case NoTranscriptFound => Failure(404, NoTranscript)
    case FetchFailed => Failure(500, TranscriptServerError)
    case Segments(texts) => Success(200, TranscriptReply(Join(texts, "\n"), url))
  }

  /** The transcript of a lesson's video, fetched for the id cut out of the
      stored embed link. */
  function GetTranscript(session: Session, s: Store, lid: Id,
                         fetch: string -> TranscriptAnswer): (st: Step<TranscriptReply>)
    requires ValidDocId(lid)
    ensures st.store == s && st.session == session
    ensures session.userId.None? ==> st.reply == Failure(401, Unauthorized)
    ensures session.userId.Some? && lid !in s.lessons ==> st.reply == Failure(404, "Lesson not found")
    ensures st.reply == Failure(400, InvalidUrl) <==>
      && session.userId.Some? && lid in s.lessons
      && GetOr(s.lessons[lid], "youtube_link", Str("")).Str?
      && !Contains(GetOr(s.lessons[lid], "youtube_link", Str("")).s, EmbedSep)
    ensures session.userId.Some? && lid in s.lessons
            && !GetOr(s.lessons[lid], "youtube_link", Str("")).Str? ==>
      st.reply == Failure(500, TranscriptServerError)
    ensures st.reply.Success? ==> session.userId.Some? && lid in s.lessons
    ensures session.userId.Some? && lid in s.lessons ==>
      var url := GetOr(s.lessons[lid], "youtube_link", Str(""));
      url.Str? && Contains(url.s, EmbedSep) ==>
        st.reply == TranscriptOutcome(fetch(VideoIdOf(url.s)), url.s)
    ensures st.reply.Success? ==>
      var url := GetOr(s.lessons[lid], "youtube_link", Str(""));
      && url.Str? && Contains(url.s, EmbedSep)
      && st.reply == TranscriptOutcome(fetch(VideoIdOf(url.s)), url.s)
  {
    if session.userId.None? then Denied(s, session)
    else if lid !in s.lessons then Fail(404, "Lesson not found", s, session)
    else
      var link := GetOr(s.lessons[lid], "youtube_link", Str(""));
      if !link.Str? then Fail(500, TranscriptServerError, s, session)
      else if !Contains(link.s, EmbedSep) then Fail(400, InvalidUrl, s, session)
      else Step(TranscriptOutcome(fetch(VideoIdOf(link.s)), link.s), s, session)
  }

  /** A link without `embed/` is turned away before the transcript service
      is asked: the reply does not depend on the service at all. */
  lemma BadLinkNeedsNoFetch(session: Session, s: Store, lid: Id,
                            f1: string -> TranscriptAnswer, f2: string -> TranscriptAnswer)
    requires ValidDocId(lid) && lid in s.lessons
    requires var link := GetOr(s.lessons[lid], "youtube_link", Str(""));
      !link.Str? || !Contains(link.s, EmbedSep)
    ensures GetTranscript(session, s, lid, f1) == GetTranscript(session, s, lid, f2)
  {
  }

  /** A link stored by the video lookup leads the transcript fetch back to
      the very video the search found, when its id contains no `embed/`. */
  lemma TranscriptOfFoundVideo(session: Session, s: Store, lid: Id, keySet: bool,
                               search: string -> Search, now: int,
                               fetch: string -> TranscriptAnswer)
    requires ValidDocId(lid)
    requires var st := GetVideoForLesson(session, s, lid, keySet, search, now);
      st.reply.Success? && !st.reply.payload.fromCache
    requires var id := PyStr(search(SearchQuery(s.lessons[lid])).videoIds[0].value);
      !Contains(id, EmbedSep)
    ensures var st := GetVideoForLesson(session, s, lid, keySet, search, now);
      var id := PyStr(search(SearchQuery(s.lessons[lid])).videoIds[0].value);
      GetTranscript(session, st.store, lid, fetch).reply
        == TranscriptOutcome(fetch(id), EmbedUrl(id))
  {
    var id := PyStr(search(SearchQuery(s.lessons[lid])).videoIds[0].value);
    EmbedRoundTrip(id);
  }

  // ----- add_note -----

  const NoteFieldsRequired := "Title, body, and a linked lesson are required."

  /** The request carries what a note needs: a title and a body that are
      non-empty after stripping, and a truthy lesson id. */
  predicate NoteFieldsOk(body: Doc) {
    && GetOr(body, "title", Str("")).Str? && Strip(GetOr(body, "title", Str("")).s) != ""
    && GetOr(body, "body", Str("")).Str? && Strip(GetOr(body, "body", Str("")).s) != ""
    && Truthy(Get(body, "lessonId"))
  }

  /** A note document holds the user, the plan, the lesson and the given
      title and body. */
  predicate NoteRecords(note: Doc, uid: Id, pid: Id, lessonId: Value, title: string, text: string) {
    && Get(note, "userId") == Str(uid)
    && Get(note, "planId") == Str(pid)
    && Get(note, "lessonId") == lessonId
    && Get(note, "title") == Str(title)
    && Get(note, "body") == Str(text)
  }

  /** Saving a note on a plan: title and body stripped and non-empty, a
      truthy lesson id; the note gets a fresh id. */
  function AddNote(session: Session, s: Store, pid: Id, body: Doc, now: int): (st: Step<Id>)
    ensures st.session == session
    ensures st.reply.Failure? ==> st.store == s
    ensures st.reply.Success? ==> session.userId.Some? && NoteFieldsOk(body)
    ensures session.userId.Some? && NoteFieldsOk(body) ==> st.reply.Success?
    ensures st.reply.Success? ==>
      var id := st.reply.payload;
      && st.store == s.(notes := st.store.notes)
      && Extends(st.store.notes, s.notes, {id})
      && id in st.store.notes
      && NoteFieldsOk(body)
      && NoteRecords(st.store.notes[id], session.userId.value, pid, Get(body, "lessonId"),
                     Strip(GetOr(body, "title", Str("")).s), Strip(GetOr(body, "body", Str("")).s))
  {
    if session.userId.None? then Denied(s, session)
    else
      var title := GetOr(body, "title", Str(""));
      var text := GetOr(body, "body", Str(""));
      if !title.Str? || !text.Str? then Fail(500, ExceptionText, s, session)
      else if !NoteFieldsOk(body) then Fail(400, NoteFieldsRequired, s, session)
      else
        var (id, notes) := SaveNote(s.notes, session.userId.value, pid, Get(body, "lessonId"),
                                    Strip(title.s), Strip(text.s), now);
        Step(Success(200, id), s.(notes := notes), session)
  }

  /** `notes.add(...)`: the note under a fresh id, the other notes kept. */
  function SaveNote(notes: Collection, uid: Id, pid: Id, lessonId: Value, title: string,
                    text: string, now: int): (r: (Id, Collection))
    ensures Extends(r.1, notes, {r.0})
    ensures r.0 in r.1 && NoteRecords(r.1[r.0], uid, pid, lessonId, title, text)
  {
    var id := FreshId(notes.Keys);
    var note := map["userId" := Str(uid), "planId" := Str(pid), "lessonId" := lessonId,
                    "title" := Str(title), "body" := Str(text), "created_at" := Stamp(now)];
    (id, notes[id := note])
  }

  /** A saved note is one of its plan's notes, next to the ones it had. */
  lemma AddNoteJoinsPlan(session: Session, s: Store, pid: Id, body: Doc, now: int)
    requires AddNote(session, s, pid, body, now).reply.Success?
    ensures var st := AddNote(session, s, pid, body, now);
      NotesOf(st.store, pid) == NotesOf(s, pid) + {st.reply.payload}
  {
    var st := AddNote(session, s, pid, body, now);
    var id := st.reply.payload;
    assert "planId" in st.store.notes[id];
    WhereAfterInsert(st.store.notes, s.notes, id, "planId", Str(pid));
  }

  /** After one note is inserted, every note names an existing plan exactly
      when the new one does. */
  lemma NoteJoinsLinks(s: Store, t: Store, id: Id, pid: Id)
    requires NotesLinked(s) && t.plans == s.plans && Extends(t.notes, s.notes, {id})
    requires Get(t.notes[id], "planId") == Str(pid)
    ensures NotesLinked(t) <==> pid in s.plans
  {
    assert "planId" in t.notes[id];
    if pid in s.plans {
      forall n | n in t.notes ensures RefersInto(t.notes[n], "planId", t.plans) {
        if n != id {
          assert t.notes[n] == s.notes[n];
        }
      }
    } else {
      assert !RefersInto(t.notes[id], "planId", t.plans);
    }
  }

  /** A note is accepted for any plan id, so saving one keeps every note
      attached to an existing plan exactly when the plan exists. */
  lemma AddNoteLinksIffPlanExists(session: Session, s: Store, pid: Id, body: Doc, now: int)
    requires NotesLinked(s)
    requires AddNote(session, s, pid, body, now).reply.Success?
    ensures NotesLinked(AddNote(session, s, pid, body, now).store) <==> pid in s.plans
  {
    var st := AddNote(session, s, pid, body, now);
    NoteJoinsLinks(s, st.store, st.reply.payload, pid);
  }
}
