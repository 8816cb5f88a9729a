/** The quiz routes: saving an attempt, and the quizzes page built from the
    attempts — the user's history and statistics, the topics offered again,
    and a leaderboard of total scores over everybody's attempts. */
module Quizzes {
  import opened Values
  import opened Db
  import opened Web
  import opened Rounding
  import opened Ranking

  // ----- One attempt -----

  /** The attempt document `id`, or `{}`. */
  function Attempt(s: Store, id: Id): Doc {
    if id in s.attempts then s.attempts[id] else map[]
  }

  /** `r` is `round(n / d)`: a nearest integer to the exact quotient, the
      even one on a tie. */
  predicate RoundsQuotient(r: int, n: int, d: int)
    requires d != 0
  {
    var dd := if d < 0 then -d else d;
    var nn := if d < 0 then -n else n;
    && dd * (2 * r - 1) <= 2 * nn <= dd * (2 * r + 1)
    && ((2 * nn == dd * (2 * r - 1) || 2 * nn == dd * (2 * r + 1)) ==> r % 2 == 0)
  }

  /** `round((score / total) * 100)`: `None` where Python raises — a
      non-number on either side (`TypeError`) or a zero total. The quotient
      is taken exactly. */
  function Percent(score: Value, total: Value): (r: Option<int>)
    ensures r.Some? <==> Num(score).Some? && Num(total).Some? && Num(total).value != 0
    ensures r.Some? ==> RoundsQuotient(r.value, 100 * Num(score).value, Num(total).value)
  {
    match (Num(score), Num(total))
    case (Some(n), Some(d)) =>
      if d == 0 then None
      else
        RoundDivNearest(100 * n, d);
        Some(RoundDiv(100 * n, d))
    case _ => None
  }

  lemma RoundDivNearest(n: int, d: int)
    requires d != 0
    ensures RoundsQuotient(RoundDiv(n, d), n, d)
  {
    if d < 0 {
      RoundPosNearest(-n, -d);
    } else {
      RoundPosNearest(n, d);
    }
  }

  /** A score between zero and the total gives a percentage between 0 and
      100, and full marks give exactly 100. */
  lemma PercentOfFraction(score: nat, total: nat)
    requires score <= total && total > 0
    ensures var p := Percent(Int(score), Int(total));
      p.Some? && 0 <= p.value <= 100 && (score == total ==> p.value == 100)
  {
    RoundPosMonotone(0, 100 * score, total);
    RoundPosMonotone(100 * score, 100 * total, total);
    RoundPosExact(0, total);
    RoundPosExact(100, total);
    assert 0 * total == 0;
  }

  /** The score of an attempt, as the page reads it (`get('score', 0)`). */
  function ScoreOf(a: Doc): Value {
    GetOr(a, "score", Int(0))
  }

  /** The total of an attempt, as the page reads it (`get('total', 1)`). */
  function TotalOf(a: Doc): Value {
    GetOr(a, "total", Int(1))
  }

  // ----- The history -----

  /** One line of the history. The date text and the "p% (score/total)"
      text are not produced; the line keeps the fields they are made of. */
  datatype HistoryRow = HistoryRow(topic: Value, submittedAt: Value, percent: int,
                                   score: Value, total: Value, lessonId: Value, planId: Value)

  /** `submitted_at` can be written as a date: a timestamp, or a falsy value
      (shown as "N/A"). Any other truthy value has no `strftime` and raises. */
  predicate Datable(v: Value) {
    !Truthy(v) || v.Stamp?
  }

  /** The history line of one attempt, `None` when its percentage or its
      date raises. */
  function RowOf(s: Store, a: Doc): (r: Option<HistoryRow>)
    ensures r.Some? <==> Percent(ScoreOf(a), TotalOf(a)).Some? && Datable(Get(a, "submitted_at"))
    ensures r.Some? ==>
      && r.value.percent == Percent(ScoreOf(a), TotalOf(a)).value
      && r.value.topic == GetOr(Lookup(s.lessons, Get(a, "lessonId")), "topic", Str("Unknown Topic"))
      && r.value.lessonId == Get(a, "lessonId") && r.value.planId == Get(a, "planId")
      && r.value.score == Get(a, "score") && r.value.total == Get(a, "total")
  {
    if !Datable(Get(a, "submitted_at")) then None
    else match Percent(ScoreOf(a), TotalOf(a))
    case None => None
    case Some(p) =>
      var lessonId := Get(a, "lessonId");
      Some(HistoryRow(GetOr(Lookup(s.lessons, lessonId), "topic", Str("Unknown Topic")),
                      Get(a, "submitted_at"), p, Get(a, "score"), Get(a, "total"),
                      lessonId, Get(a, "planId")))
  }

  /** The attempt can be shown in a history: its percentage computes and
      its date can be written. */
  predicate Scorable(a: Doc) {
    Percent(ScoreOf(a), TotalOf(a)).Some? && Datable(Get(a, "submitted_at"))
  }

  /** The history lines of the attempts in `order`, one per attempt, in
      order; `None` as soon as one raises. */
  function HistoryOf(s: Store, order: seq<Id>): (h: Option<seq<HistoryRow>>)
    ensures h.Some? <==> forall i :: 0 <= i < |order| ==> Scorable(Attempt(s, order[i]))
    ensures h.Some? ==> |h.value| == |order|
    ensures h.Some? ==> forall i :: 0 <= i < |order| ==> Some(h.value[i]) == RowOf(s, Attempt(s, order[i]))
  {
    if |order| == 0 then Some([])
    else
      match (RowOf(s, Attempt(s, order[0])), HistoryOf(s, order[1..]))
      case (Some(row), Some(rest)) =>
        assert forall i :: 1 <= i < |order| ==> order[i] == order[1..][i - 1];
        Some([row] + rest)
      case (None, _) => None
      case (_, None) =>
        assert forall i :: 1 <= i < |order| ==> order[i] == order[1..][i - 1];
        None
  }

  // ----- The statistics -----

  datatype Stats = Stats(totalTaken: nat, averageScore: int, highestScore: int, lastAttempt: Value)

  function SumPercent(h: seq<HistoryRow>): int {
    if |h| == 0 then 0 else SumPercent(h[..|h| - 1]) + h[|h| - 1].percent
  }

  /** The running maximum, started at 0. */
  function Highest(h: seq<HistoryRow>): (m: int)
    ensures m >= 0 && forall i :: 0 <= i < |h| ==> h[i].percent <= m
    ensures m == 0 || exists i :: 0 <= i < |h| && h[i].percent == m
  {
    if |h| == 0 then 0
    else
      var m := Highest(h[..|h| - 1]);
      var last := h[|h| - 1].percent;
      assert forall i :: 0 <= i < |h| - 1 ==> h[i] == h[..|h| - 1][i];
      if last > m then last else m
  }

  /** The `stats` object: attempts taken, the rounded mean percentage, the
      best percentage (never below 0), and the topic of the newest attempt. */
  function StatsOf(h: seq<HistoryRow>): (st: Stats)
    ensures st.totalTaken == |h|
    ensures st.highestScore == Highest(h)
    ensures |h| == 0 ==> st.averageScore == 0 && st.lastAttempt == Str("N/A")
    ensures |h| > 0 ==> st.lastAttempt == h[0].topic && RoundsQuotient(st.averageScore, SumPercent(h), |h|)
  {
    if |h| == 0 then Stats(0, 0, Highest(h), Str("N/A"))
    else
      RoundDivNearest(SumPercent(h), |h|);
      Stats(|h|, RoundPos(SumPercent(h), |h|), Highest(h), h[0].topic)
  }

  lemma {:induction false} SumAtMost(h: seq<HistoryRow>, m: int)
    requires forall i :: 0 <= i < |h| ==> h[i].percent <= m
    ensures SumPercent(h) <= |h| * m
  {
    if |h| > 0 {
      assert forall i :: 0 <= i < |h| - 1 ==> h[..|h| - 1][i] == h[i];
      SumAtMost(h[..|h| - 1], m);
    }
  }

  lemma {:induction false} SumAtLeast(h: seq<HistoryRow>, m: int)
    requires forall i :: 0 <= i < |h| ==> h[i].percent >= m
    ensures SumPercent(h) >= |h| * m
  {
    if |h| > 0 {
      assert forall i :: 0 <= i < |h| - 1 ==> h[..|h| - 1][i] == h[i];
      SumAtLeast(h[..|h| - 1], m);
    }
  }

  /** The average never exceeds the highest score, and when every
      percentage lies in 0..100 so does the average. */
  lemma AverageWithinScores(h: seq<HistoryRow>)
    ensures StatsOf(h).averageScore <= StatsOf(h).highestScore
    ensures (forall i :: 0 <= i < |h| ==> 0 <= h[i].percent <= 100) ==> 0 <= StatsOf(h).averageScore <= 100
  {
    if |h| > 0 {
      var m := Highest(h);
      SumAtMost(h, m);
      RoundPosMonotone(SumPercent(h), |h| * m, |h|);
      assert |h| * m == m * |h|;
      RoundPosExact(m, |h|);
      if forall i :: 0 <= i < |h| ==> 0 <= h[i].percent <= 100 {
        SumAtLeast(h, 0);
        SumAtMost(h, 100);
        RoundPosMonotone(0, SumPercent(h), |h|);
        RoundPosMonotone(SumPercent(h), |h| * 100, |h|);
        assert |h| * 100 == 100 * |h| && 0 == 0 * |h|;
        RoundPosExact(0, |h|);
        RoundPosExact(100, |h|);
      }
    }
  }

  // ----- The quizzes offered again -----

  /** Position of the entry with this topic. */
  function TopicIndex(acc: seq<HistoryRow>, topic: Value): (r: Option<nat>)
    ensures r.Some? ==> r.value < |acc| && acc[r.value].topic == topic
    ensures r.None? ==> forall i :: 0 <= i < |acc| ==> acc[i].topic != topic
  {
    if |acc| == 0 then None
    else if acc[0].topic == topic then Some(0)
    else match TopicIndex(acc[1..], topic)
      case None => None
      case Some(p) => Some(p + 1)
  }

  /** `d[row['topic']] = row` on an insertion-ordered dict. */
  function PutTopic(acc: seq<HistoryRow>, row: HistoryRow): seq<HistoryRow> {
    match TopicIndex(acc, row.topic)
    case Some(p) => acc[p := row]
    case None => acc + [row]
  }

  /** `{item['topic']: item for item in history}.values()` */
  function ByTopic(h: seq<HistoryRow>): seq<HistoryRow> {
    if |h| == 0 then [] else PutTopic(ByTopic(h[..|h| - 1]), h[|h| - 1])
  }

  /** `list(...)[:4]` */
  function Available(h: seq<HistoryRow>): seq<HistoryRow> {
    var d := ByTopic(h);
    d[..Min(4, |d|)]
  }

  /** `row` is the line at `j`, and no later line has its topic. */
  ghost predicate LastOfTopic(h: seq<HistoryRow>, row: HistoryRow) {
    exists j :: 0 <= j < |h| && h[j] == row && forall k :: j < k < |h| ==> h[k].topic != row.topic
  }

  /** `a` appears in the history before `b` first does. */
  ghost predicate TopicSeenBefore(h: seq<HistoryRow>, a: Value, b: Value) {
    exists j :: 0 <= j < |h| && h[j].topic == a && forall k :: 0 <= k <= j ==> h[k].topic != b
  }

  ghost predicate HasTopic(acc: seq<HistoryRow>, t: Value) {
    exists i :: 0 <= i < |acc| && acc[i].topic == t
  }

  predicate DistinctTopics(d: seq<HistoryRow>) {
    forall i, j :: 0 <= i < j < |d| ==> d[i].topic != d[j].topic
  }

  ghost predicate AllLatest(d: seq<HistoryRow>, h: seq<HistoryRow>) {
    forall i :: 0 <= i < |d| ==> LastOfTopic(h, d[i])
  }

  ghost predicate CoversTopics(d: seq<HistoryRow>, h: seq<HistoryRow>) {
    forall k :: 0 <= k < |h| ==> HasTopic(d, h[k].topic)
  }

  ghost predicate InFirstSeenOrder(d: seq<HistoryRow>, h: seq<HistoryRow>) {
    forall i, j :: 0 <= i < j < |d| ==> TopicSeenBefore(h, d[i].topic, d[j].topic)
  }

  /** The per-topic dict: one entry per topic of the history, ordered by
      each topic's first appearance, holding that topic's latest line. */
  ghost predicate TopicDict(d: seq<HistoryRow>, h: seq<HistoryRow>) {
    DistinctTopics(d) && AllLatest(d, h) && CoversTopics(d, h) && InFirstSeenOrder(d, h)
  }

  /** Overwriting the entry of a topic already present keeps the dict
      shape for the longer history. */
  lemma PutExistingIsTopicDict(d0: seq<HistoryRow>, h0: seq<HistoryRow>, x: HistoryRow, p: nat)
    requires TopicDict(d0, h0) && p < |d0| && d0[p].topic == x.topic
    ensures TopicDict(d0[p := x], h0 + [x])
  {
    var d := d0[p := x];
    assert DistinctTopics(d) by {
      assert forall i :: 0 <= i < |d| ==> d[i].topic == d0[i].topic;
    }
    PutLatest(d0, h0, x, p);
    assert d[p].topic == x.topic;
    PutCovers(d0, h0, x, d);
    PutKeepsOrder(d0, h0, x, d);
  }

  /** Appending the entry of a new topic keeps the dict shape for the
      longer history. */
  lemma PutNewIsTopicDict(d0: seq<HistoryRow>, h0: seq<HistoryRow>, x: HistoryRow)
    requires TopicDict(d0, h0)
    requires forall i :: 0 <= i < |d0| ==> d0[i].topic != x.topic
    ensures TopicDict(d0 + [x], h0 + [x])
  {
    var d := d0 + [x];
    PutLatest(d0, h0, x, |d0|);
    assert d[|d0|].topic == x.topic;
    PutCovers(d0, h0, x, d);
    NewTopicUnseen(d0, h0, x);
    PutKeepsOrder(d0, h0, x, d0);
    PutNewOrder(d0, h0, x);
  }

  lemma {:induction false} ByTopicIsTopicDict(h: seq<HistoryRow>)
    ensures TopicDict(ByTopic(h), h)
  {
    if |h| > 0 {
      var h0 := h[..|h| - 1];
      var x := h[|h| - 1];
      var d0 := ByTopic(h0);
      ByTopicIsTopicDict(h0);
      assert h == h0 + [x];
      match TopicIndex(d0, x.topic) {
        case Some(p) => PutExistingIsTopicDict(d0, h0, x, p);
        case None => PutNewIsTopicDict(d0, h0, x);
      }
    }
  }

  /** Storing `x` at position `p` (replacing or appending) keeps every
      entry the latest line of its topic. */
  lemma PutLatest(d0: seq<HistoryRow>, h0: seq<HistoryRow>, x: HistoryRow, p: nat)
    requires DistinctTopics(d0) && AllLatest(d0, h0) && p <= |d0|
    requires p < |d0| ==> d0[p].topic == x.topic
    requires p == |d0| ==> forall i :: 0 <= i < |d0| ==> d0[i].topic != x.topic
    ensures AllLatest(if p < |d0| then d0[p := x] else d0 + [x], h0 + [x])
  {
    var h := h0 + [x];
    var d := if p < |d0| then d0[p := x] else d0 + [x];
    forall i | 0 <= i < |d| ensures LastOfTopic(h, d[i]) {
      if i == p {
        assert h[|h0|] == x;
      } else {
        var j :| 0 <= j < |h0| && h0[j] == d0[i] && forall k :: j < k < |h0| ==> h0[k].topic != d0[i].topic;
        assert h[j] == d[i];
      }
    }
  }

  /** After storing `x`, every topic of the longer history has an entry. */
  lemma PutCovers(d0: seq<HistoryRow>, h0: seq<HistoryRow>, x: HistoryRow, d: seq<HistoryRow>)
    requires CoversTopics(d0, h0) && |d| >= |d0|
    requires forall i :: 0 <= i < |d0| ==> d[i].topic == d0[i].topic
    requires HasTopic(d, x.topic)
    ensures CoversTopics(d, h0 + [x])
  {
    var h := h0 + [x];
    forall k | 0 <= k < |h| ensures HasTopic(d, h[k].topic) {
      if k < |h0| {
        var i :| 0 <= i < |d0| && d0[i].topic == h0[k].topic;
        assert d[i].topic == h[k].topic;
      }
    }
  }

  /** Order facts about a history survive appending to it. */
  lemma PutKeepsOrder(d0: seq<HistoryRow>, h0: seq<HistoryRow>, x: HistoryRow, d: seq<HistoryRow>)
    requires InFirstSeenOrder(d0, h0) && |d| == |d0|
    requires forall i :: 0 <= i < |d0| ==> d[i].topic == d0[i].topic
    ensures InFirstSeenOrder(d, h0 + [x])
  {
    var h := h0 + [x];
    forall i, j | 0 <= i < j < |d| ensures TopicSeenBefore(h, d[i].topic, d[j].topic) {
      assert TopicSeenBefore(h0, d0[i].topic, d0[j].topic);
      var w :| 0 <= w < |h0| && h0[w].topic == d0[i].topic && forall k :: 0 <= k <= w ==> h0[k].topic != d0[j].topic;
      assert h[w].topic == d[i].topic;
    }
  }

  /** A topic without an entry does not occur in the history. */
  lemma NewTopicUnseen(d0: seq<HistoryRow>, h0: seq<HistoryRow>, x: HistoryRow)
    requires CoversTopics(d0, h0)
    requires forall i :: 0 <= i < |d0| ==> d0[i].topic != x.topic
    ensures forall k :: 0 <= k < |h0| ==> h0[k].topic != x.topic
  {
    forall k | 0 <= k < |h0| ensures h0[k].topic != x.topic {
      assert HasTopic(d0, h0[k].topic);
    }
  }

  /** An entry appended for a new topic comes after every earlier one. */
  lemma PutNewOrder(d0: seq<HistoryRow>, h0: seq<HistoryRow>, x: HistoryRow)
    requires InFirstSeenOrder(d0, h0 + [x]) && AllLatest(d0, h0)
    requires forall k :: 0 <= k < |h0| ==> h0[k].topic != x.topic
    ensures InFirstSeenOrder(d0 + [x], h0 + [x])
  {
    var h := h0 + [x];
    var d := d0 + [x];
    forall i, j | 0 <= i < j < |d| ensures TopicSeenBefore(h, d[i].topic, d[j].topic) {
      if j < |d0| {
        assert TopicSeenBefore(h, d0[i].topic, d0[j].topic);
      } else {
        var w :| 0 <= w < |h0| && h0[w] == d0[i] && forall k :: w < k < |h0| ==> h0[k].topic != d0[i].topic;
        assert h[w].topic == d[i].topic;
      }
    }
  }

  /** The quizzes offered again: at most four, distinct topics, in order of
      each topic's first appearance in the history, each the latest line of
      its topic; fewer than four only when the history has no other topic. */
  lemma AvailableSpec(h: seq<HistoryRow>)
    ensures var a := Available(h);
      && |a| <= 4
      && DistinctTopics(a)
      && (forall i :: 0 <= i < |a| ==> LastOfTopic(h, a[i]))
      && (forall i, j :: 0 <= i < j < |a| ==> TopicSeenBefore(h, a[i].topic, a[j].topic))
      && (|a| < 4 ==> forall k :: 0 <= k < |h| ==> HasTopic(a, h[k].topic))
  {
    var d := ByTopic(h);
    var a := Available(h);
    ByTopicIsTopicDict(h);
    assert forall i :: 0 <= i < |a| ==> a[i] == d[i];
    if |a| < 4 {
      assert a == d;
    }
  }

  // ----- The leaderboard -----

  /** The `(userId, score)` pairs of all attempts in stream order; `None`
      when a score is not a number (`0 + score` raises). */
  function ScoreStream(s: Store, order: seq<Id>): (r: Option<seq<(Value, int)>>)
    ensures r.Some? <==> forall i :: 0 <= i < |order| ==> Num(ScoreOf(Attempt(s, order[i]))).Some?
    ensures r.Some? ==> |r.value| == |order| && forall i :: 0 <= i < |order| ==>
      r.value[i] == (Get(Attempt(s, order[i]), "userId"), Num(ScoreOf(Attempt(s, order[i]))).value)
  {
    if |order| == 0 then Some([])
    else
      var a := Attempt(s, order[0]);
      var rest := ScoreStream(s, order[1..]);
      assert forall i :: 1 <= i < |order| ==> order[i] == order[1..][i - 1];
      match (Num(ScoreOf(a)), rest)
      case (Some(n), Some(r)) => Some([(Get(a, "userId"), n)] + r)
      case _ => None
  }

  datatype LeaderRow = LeaderRow(rank: nat, name: Value, score: int)

  /** The name shown for a user id. */
  function NameOf(s: Store, uid: Value): Value {
    GetOr(Lookup(s.users, uid), "username", Str("Anonymous User"))
  }

  /** The leaderboard rows for the top entries, ranked from 1. */
  function Rows(s: Store, top: seq<Entry<Value>>, from: nat): (rows: seq<LeaderRow>)
    ensures |rows| == |top|
    ensures forall i :: 0 <= i < |top| ==>
      rows[i] == LeaderRow(from + i + 1, NameOf(s, top[i].key), top[i].weight)
  {
    if |top| == 0 then []
    else [LeaderRow(from + 1, NameOf(s, top[0].key), top[0].weight)] + Rows(s, top[1..], from + 1)
  }

  /** The five users with the highest total score, best first. */
  function Leaderboard(s: Store, scores: seq<(Value, int)>): seq<LeaderRow> {
    Rows(s, Top(scores, 5), 0)
  }

  /** The leaderboard: at most five rows ranked 1, 2, …; each row a
      distinct user with the sum of that user's scores, best first and, on
      a tie, the user who scored first; any user left out scores no more
      than every row and leaves the board full. */
  lemma LeaderboardSpec(s: Store, scores: seq<(Value, int)>)
    ensures var top := Top(scores, 5);
      var rows := Leaderboard(s, scores);
      && |rows| == |top| <= 5
      && (forall i, j :: 0 <= i < j < |top| ==> top[i].key != top[j].key)
      && (forall i :: 0 <= i < |rows| ==>
            rows[i].rank == i + 1 && rows[i].name == NameOf(s, top[i].key)
            && rows[i].score == Total(scores, top[i].key))
      && (forall i, j :: 0 <= i < j < |rows| ==> rows[i].score >= rows[j].score)
      && (forall j :: 0 <= j < |scores| && Omitted(top, scores[j].0) ==>
            |rows| == 5 && forall i :: 0 <= i < |rows| ==> rows[i].score >= Total(scores, scores[j].0))
  {
    var top := Top(scores, 5);
    var rows := Leaderboard(s, scores);
    TopSpec(scores, 5);
    assert rows == Rows(s, top, 0);
    forall i | 0 <= i < |rows|
      ensures rows[i].rank == i + 1 && rows[i].name == NameOf(s, top[i].key)
      ensures rows[i].score == top[i].weight == Total(scores, top[i].key)
    {
    }
    forall i, j | 0 <= i < j < |rows| ensures rows[i].score >= rows[j].score {
      assert Before(top[i], top[j]);
    }
    forall j | 0 <= j < |scores| && Omitted(top, scores[j].0)
      ensures |rows| == 5 && forall i :: 0 <= i < |rows| ==> rows[i].score >= Total(scores, scores[j].0)
    {
    }
  }

  // ----- The page -----

  datatype QuizData = QuizData(stats: Stats, history: seq<HistoryRow>,
                               leaderboard: seq<LeaderRow>, available: seq<HistoryRow>)

  const QuizLoadError := "Could not load quiz data."

  /** The user's attempts with a `submitted_at`, as the ordered query
      returns them. */
  function OwnAttempts(s: Store, uid: Id): set<Id> {
    Having(s.attempts, Where(s.attempts, "userId", Str(uid)), "submitted_at")
  }

  /** `show_quizzes_page`. `own` is the user's attempt stream, newest first;
      `all` is the stream of every attempt. A client asking for JSON gets
      JSON errors, a browser gets redirects. */
  function QuizPage(session: Session, s: Store, wantsJson: bool, own: seq<Id>, all: seq<Id>): (st: Step<QuizData>)
    requires session.userId.Some? ==>
      Enumerates(own, OwnAttempts(s, session.userId.value))
      && Descending(s.attempts, own, "submitted_at")
    requires Enumerates(all, s.attempts.Keys)
    ensures st.store == s && st.session == session
    ensures session.userId.None? ==> st.reply == if wantsJson then Failure(401, Unauthorized) else Redirect(LoginPage)
    ensures st.reply.Success? <==>
      && session.userId.Some?
      && (forall k :: k in OwnAttempts(s, session.userId.value) ==> Scorable(s.attempts[k]))
      && (forall k :: k in s.attempts ==> Num(ScoreOf(s.attempts[k])).Some?)
    ensures session.userId.Some? && !st.reply.Success? ==>
      st.reply == if wantsJson then Failure(500, QuizLoadError) else Redirect(DashboardPage)
    ensures st.reply.Success? ==>
      var d := st.reply.payload;
      && HistoryOf(s, own) == Some(d.history)
      && d.stats == StatsOf(d.history)
      && d.available == Available(d.history)
      && Some(d.leaderboard) == (match ScoreStream(s, all)
                                 case Some(scores) => Some(Leaderboard(s, scores))
                                 case None => None)
  {
    if session.userId.None? then
      if wantsJson then Denied(s, session) else Step(Redirect(LoginPage), s, session)
    else
      var uid := session.userId.value;
      var history := HistoryOf(s, own);
      var scores := ScoreStream(s, all);
      StreamsCover(s, own, OwnAttempts(s, uid), all);
      if history.None? || scores.None? then
        if wantsJson then Fail(500, QuizLoadError, s, session) else Step(Redirect(DashboardPage), s, session)
      else
        var h := history.value;
        Step(Success(200, QuizData(StatsOf(h), h, Leaderboard(s, scores.value), Available(h))), s, session)
  }

  /** A condition on every attempt of a stream is one on every attempt of
      the set it enumerates. */
  lemma StreamsCover(s: Store, own: seq<Id>, ownSet: set<Id>, all: seq<Id>)
    requires Enumerates(own, ownSet) && Enumerates(all, s.attempts.Keys)
    requires ownSet <= s.attempts.Keys
    ensures (forall i :: 0 <= i < |own| ==> Scorable(Attempt(s, own[i])))
      <==> (forall k :: k in ownSet ==> Scorable(s.attempts[k]))
    ensures (forall i :: 0 <= i < |all| ==> Num(ScoreOf(Attempt(s, all[i]))).Some?)
      <==> (forall k :: k in s.attempts ==> Num(ScoreOf(s.attempts[k])).Some?)
  {
    if forall i :: 0 <= i < |own| ==> Scorable(Attempt(s, own[i])) {
      forall k | k in ownSet ensures Scorable(s.attempts[k]) {
        var i :| 0 <= i < |own| && own[i] == k;
      }
    }
    if forall i :: 0 <= i < |all| ==> Num(ScoreOf(Attempt(s, all[i]))).Some? {
      forall k | k in s.attempts ensures Num(ScoreOf(s.attempts[k])).Some? {
        var i :| 0 <= i < |all| && all[i] == k;
      }
    }
  }

  /** The last-attempt topic is that of the user's newest attempt: no other
      attempt of theirs has a later `submitted_at`. */
  lemma LastAttemptIsNewest(session: Session, s: Store, wantsJson: bool, own: seq<Id>, all: seq<Id>)
    requires session.userId.Some?
    requires Enumerates(own, OwnAttempts(s, session.userId.value))
    requires Descending(s.attempts, own, "submitted_at")
    requires Enumerates(all, s.attempts.Keys)
    requires QuizPage(session, s, wantsJson, own, all).reply.Success?
    requires |OwnAttempts(s, session.userId.value)| > 0
    ensures var d := QuizPage(session, s, wantsJson, own, all).reply.payload;
      exists k :: k in OwnAttempts(s, session.userId.value)
        && d.stats.lastAttempt == RowOf(s, s.attempts[k]).value.topic
        && forall k2 :: k2 in OwnAttempts(s, session.userId.value) ==>
             ValueLe(FieldAt(s.attempts, k2, "submitted_at"), FieldAt(s.attempts, k, "submitted_at"))
  {
    var ids := OwnAttempts(s, session.userId.value);
    EnumeratesSize(own, ids);
    DescendingHeadIsGreatest(s.attempts, own, ids, "submitted_at");
    var k := own[0];
    assert k in ids;
  }

  // ----- Saving an attempt -----

  const MissingData := "Missing required data."
  const ScoreSaved := "Score saved!"
  const ServerError := "Server error."

  /** The attempt document saved for a submission. */
  function AttemptDoc(uid: Id, lid: Id, body: Doc, now: int): Doc {
    map["userId" := Str(uid), "lessonId" := Str(lid), "planId" := Get(body, "planId"),
        "score" := Get(body, "score"), "total" := Get(body, "total"), "submitted_at" := Stamp(now)]
  }

  /** The fields `submit_quiz_score` insists on: a score and a total that
      are not `None`, and a truthy plan id. */
  predicate SubmissionPresent(body: Doc) {
    Get(body, "score") != Null && Get(body, "total") != Null && Truthy(Get(body, "planId"))
  }

  /** `submit_quiz_score`: a body that is not JSON raises inside the
      handler (500), a missing field is a 400, otherwise one attempt is
      added under a fresh id and nothing else changes. */
  function SubmitQuizScore(session: Session, s: Store, lid: Id, body: Option<Doc>, now: int): (st: Step<string>)
    requires ValidDocId(lid)
    ensures st.session == session
    ensures session.userId.None? ==> st.reply == Failure(401, Unauthorized)
    ensures session.userId.Some? && body.None? ==> st.reply == Failure(500, ServerError)
    ensures session.userId.Some? && body.Some? && !SubmissionPresent(body.value) ==>
      st.reply == Failure(400, MissingData)
    ensures st.reply.Success? <==> session.userId.Some? && body.Some? && SubmissionPresent(body.value)
    ensures !st.reply.Success? ==> st.store == s
    ensures st.reply.Success? ==>
      && st.reply.payload == ScoreSaved
      && st.store == s.(attempts := st.store.attempts)
      && var id := FreshId(s.attempts.Keys);
         Extends(st.store.attempts, s.attempts, {id})
         && st.store.attempts[id] == AttemptDoc(session.userId.value, lid, body.value, now)
  {
    if session.userId.None? then Denied(s, session)
    else if body.None? then Fail(500, ServerError, s, session)
    else if !SubmissionPresent(body.value) then Fail(400, MissingData, s, session)
    else
      var id := FreshId(s.attempts.Keys);
      var doc := AttemptDoc(session.userId.value, lid, body.value, now);
      Step(Success(200, ScoreSaved), s.(attempts := s.attempts[id := doc]), session)
  }

  /** Every attempt in the store can be scored and summed: what the quizzes
      page needs to load for every user. */
  predicate AttemptsScorable(s: Store) {
    forall k :: k in s.attempts ==> Scorable(s.attempts[k])
  }

  /** The submission carries a numeric score and a numeric, non-zero total. */
  predicate SubmissionScorable(body: Doc) {
    Percent(Get(body, "score"), Get(body, "total")).Some?
  }

  /** `submit_quiz_score` also rejecting a score or total that the quizzes
      page cannot compute with. */
  function SubmitQuizScoreChecked(session: Session, s: Store, lid: Id, body: Option<Doc>, now: int): (st: Step<string>)
    requires ValidDocId(lid)
    ensures st.session == session
    ensures st.reply.Success? <==>
      session.userId.Some? && body.Some? && SubmissionPresent(body.value) && SubmissionScorable(body.value)
    ensures st.reply.Success? ==> st.store == SubmitQuizScore(session, s, lid, body, now).store
    ensures !st.reply.Success? ==> st.store == s
    ensures AttemptsScorable(s) ==> AttemptsScorable(st.store)
  {
    if session.userId.Some? && body.Some? && SubmissionPresent(body.value) && !SubmissionScorable(body.value) then
      Fail(400, MissingData, s, session)
    else
      SubmitAddsItsFields(session, s, lid, body, now);
      SubmitQuizScore(session, s, lid, body, now)
  }

  /** A saved attempt is read back with the submitted score and total. */
  lemma SubmitAddsItsFields(session: Session, s: Store, lid: Id, body: Option<Doc>, now: int)
    requires ValidDocId(lid)
    ensures var st := SubmitQuizScore(session, s, lid, body, now);
      st.reply.Success? ==> forall k :: k in st.store.attempts && k !in s.attempts ==>
        ScoreOf(st.store.attempts[k]) == Get(body.value, "score")
        && TotalOf(st.store.attempts[k]) == Get(body.value, "total")
  {
  }

  /** When every attempt is scorable, the quizzes page loads for any
      logged-in user. */
  lemma ScorableStoreLoads(session: Session, s: Store, wantsJson: bool, own: seq<Id>, all: seq<Id>)
    requires session.userId.Some?
    requires Enumerates(own, OwnAttempts(s, session.userId.value))
    requires Descending(s.attempts, own, "submitted_at")
    requires Enumerates(all, s.attempts.Keys)
    requires AttemptsScorable(s)
    ensures QuizPage(session, s, wantsJson, own, all).reply.Success?
  {
  }

  /** As written, one submission with a non-numeric score is accepted, and
      from then on the quizzes page fails for every user, since the
      leaderboard sums everybody's scores. */
  lemma TextScoreBreaksQuizPage(session: Session, s: Store, lid: Id, body: Doc, now: int,
                                viewer: Session, wantsJson: bool, own: seq<Id>, all: seq<Id>)
    requires ValidDocId(lid) && session.userId.Some?
    requires body == map["score" := Str("ten"), "total" := Int(10), "planId" := Str("p")]
    requires viewer.userId.Some?
    requires var t := SubmitQuizScore(session, s, lid, Some(body), now).store;
      && Enumerates(own, OwnAttempts(t, viewer.userId.value))
      && Descending(t.attempts, own, "submitted_at")
      && Enumerates(all, t.attempts.Keys)
    ensures SubmitQuizScore(session, s, lid, Some(body), now).reply == Success(200, ScoreSaved)
    ensures !QuizPage(viewer, SubmitQuizScore(session, s, lid, Some(body), now).store, wantsJson, own, all).reply.Success?
  {
    var t := SubmitQuizScore(session, s, lid, Some(body), now).store;
    var id := FreshId(s.attempts.Keys);
    assert id in t.attempts && ScoreOf(t.attempts[id]) == Str("ten");
  }
}
