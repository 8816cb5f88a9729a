/** The two language-model helpers and the routes that use them: a model
    reply is searched for its `{...}` span, which is then decoded as a JSON
    object. The model call and the JSON decoder are parameters. */
module Generation {
  import opened Values
  import opened Db
  import opened Web
  import opened Text

  /** The model call: it raised, or it answered with a text. */
  datatype LlmCall = Raised | Replied(text: string)

  /** What a model reply yields: the call failed, no `{...}` span was found,
      the span did not decode, or the decoded object. */
  datatype Extracted<J> = CallFailed | NoObject | Unparsable | Object(data: map<string, J>)

  /** Cut the `{...}` span out of the reply and decode it with `parse`
      (`json.loads`, which answers `None` for text it rejects). */
  function Extract<J>(call: LlmCall, parse: string -> Option<map<string, J>>): (r: Extracted<J>)
    ensures r == CallFailed <==> call.Raised?
    ensures r == NoObject <==> call.Replied? && JsonSpan(call.text).None?
    ensures r.Object? <==>
      call.Replied? && JsonSpan(call.text).Some? && parse(JsonSpan(call.text).value).Some?
    ensures r.Object? ==> Some(r.data) == parse(JsonSpan(call.text).value)
  {
    match call
    case Raised => CallFailed
    case Replied(text) =>
      match JsonSpan(text)
      case None => NoObject
      case Some(span) =>
        match parse(span)
        case None => Unparsable
        case Some(data) => Object(data)
  }

  // ----- generate_summary_and_quiz_from_lesson and its route -----

  const DisabledSummary := "Content generation is disabled by the administrator."
  const FormatSummary := "Failed to generate content in the correct format."
  const ErrorSummary := "An error occurred while generating content."

  /** The generated content: a fixed summary with an empty quiz list, or the
      object the model produced. */
  datatype Content<J> = Placeholder(summary: string) | FromModel(data: map<string, J>)

  /** The summary-and-quiz generator without the stray configuration call:
      the model's object when the key is set and the reply carries a
      decodable `{...}` span, otherwise a placeholder saying why. */
  function GenerateSummaryAndQuiz<J>(keySet: bool, call: LlmCall,
                                     parse: string -> Option<map<string, J>>): (c: Content<J>)
    ensures !keySet ==> c == Placeholder(DisabledSummary)
    ensures keySet && call.Raised? ==> c == Placeholder(ErrorSummary)
    ensures keySet && call.Replied? && JsonSpan(call.text).None? ==> c == Placeholder(FormatSummary)
    ensures keySet && call.Replied? && JsonSpan(call.text).Some? && parse(JsonSpan(call.text).value).None? ==>
      c == Placeholder(ErrorSummary)
    ensures c.FromModel? <==>
      keySet && call.Replied? && JsonSpan(call.text).Some? && parse(JsonSpan(call.text).value).Some?
    ensures c.FromModel? ==> Some(c.data) == parse(JsonSpan(call.text).value)
  {
    if !keySet then Placeholder(DisabledSummary)
    else
      match Extract(call, parse)
      case CallFailed => Placeholder(ErrorSummary)
      case Unparsable => Placeholder(ErrorSummary)
      case NoObject => Placeholder(FormatSummary)
      case Object(data) => FromModel(data)
  }

  /** The generator as written: with the key set it first calls
      `genai.configure`, which the `google.genai` module it imports does not
      define, so the AttributeError escapes before the model is asked
      (`None` here). */
  function GenerateSummaryAndQuizAsWritten<J>(keySet: bool, call: LlmCall,
                                              parse: string -> Option<map<string, J>>): (c: Option<Content<J>>)
    ensures c.None? <==> keySet
    ensures c.Some? ==> c.value == Placeholder(DisabledSummary)
  {
    if !keySet then Some(Placeholder(DisabledSummary))
    else None
  }

  const TitleMissing := "Lesson title is missing."

  /** The lesson the summary route reads: its document, or `{}` when absent. */
  function LessonOrEmpty(s: Store, lid: Id): Doc {
    if lid in s.lessons then s.lessons[lid] else map[]
  }

  /** The summary route with the corrected generator: it asks the model
      about the lesson's topic and description. */
  function SummaryRoute<J>(session: Session, s: Store, lid: Id, keySet: bool,
                           llm: (Value, Value) -> LlmCall,
                           parse: string -> Option<map<string, J>>): (st: Step<Content<J>>)
    requires ValidDocId(lid)
    ensures st.store == s && st.session == session
    ensures session.userId.None? ==> st.reply == Failure(401, Unauthorized)
    ensures session.userId.Some? ==>
      var title := GetOr(LessonOrEmpty(s, lid), "topic", Str(""));
      var description := GetOr(LessonOrEmpty(s, lid), "description", Str(""));
      st.reply == if !Truthy(title) then Failure(400, TitleMissing)
                  else Success(200, GenerateSummaryAndQuiz(keySet, llm(title, description), parse))
  {
    if session.userId.None? then Denied(s, session)
    else
      var lesson := LessonOrEmpty(s, lid);
      var title := GetOr(lesson, "topic", Str(""));
      var description := GetOr(lesson, "description", Str(""));
      if !Truthy(title) then Fail(400, TitleMissing, s, session)
      else Step(Success(200, GenerateSummaryAndQuiz(keySet, llm(title, description), parse)), s, session)
  }

  /** The summary route as written: the escaping AttributeError is caught
      by the route and answered with a 500. */
  function SummaryRouteAsWritten<J>(session: Session, s: Store, lid: Id, keySet: bool,
                                    llm: (Value, Value) -> LlmCall,
                                    parse: string -> Option<map<string, J>>): (st: Step<Content<J>>)
    requires ValidDocId(lid)
    ensures st.store == s && st.session == session
    ensures st.reply.Success? ==> st.reply.payload == Placeholder(DisabledSummary)
  {
    if session.userId.None? then Denied(s, session)
    else
      var lesson := LessonOrEmpty(s, lid);
      var title := GetOr(lesson, "topic", Str(""));
      var description := GetOr(lesson, "description", Str(""));
      if !Truthy(title) then Fail(400, TitleMissing, s, session)
      else
        match GenerateSummaryAndQuizAsWritten(keySet, llm(title, description), parse)
        case None => Fail(500, ExceptionText, s, session)
        case Some(content) => Step(Success(200, content), s, session)
  }

  /** As written, a configured server never returns generated content: for
      a lesson with a title, whatever the model would answer, the reply is a
      500 where the corrected route returns the model's object. */
  lemma ConfigureCallBlocksGeneration<J>(session: Session, s: Store, lid: Id,
                                         llm: (Value, Value) -> LlmCall,
                                         parse: string -> Option<map<string, J>>)
    requires ValidDocId(lid) && session.userId.Some?
    requires Truthy(GetOr(LessonOrEmpty(s, lid), "topic", Str("")))
    ensures SummaryRouteAsWritten(session, s, lid, true, llm, parse).reply == Failure(500, ExceptionText)
    ensures var title := GetOr(LessonOrEmpty(s, lid), "topic", Str(""));
      var description := GetOr(LessonOrEmpty(s, lid), "description", Str(""));
      var call := llm(title, description);
      call.Replied? && JsonSpan(call.text).Some? && parse(JsonSpan(call.text).value).Some? ==>
        SummaryRoute(session, s, lid, true, llm, parse).reply
          == Success(200, FromModel(parse(JsonSpan(call.text).value).value))
  {
  }

  /** With the key set, a model reply that wraps an object in chatter still
      yields that object: the span runs from the first `{` to the last `}`. */
  lemma SummaryFromWrappedReply<J>(prefix: string, body: string, suffix: string,
                                   parse: string -> Option<map<string, J>>)
    requires forall k :: 0 <= k < |prefix| ==> prefix[k] != '{'
    requires forall k :: 0 <= k < |suffix| ==> suffix[k] != '}'
    requires parse("{" + body + "}").Some?
    ensures GenerateSummaryAndQuiz(true, Replied(prefix + "{" + body + "}" + suffix), parse)
      == FromModel(parse("{" + body + "}").value)
  {
    var t := prefix + "{" + body + "}" + suffix;
    var i := |prefix|;
    var e := |prefix| + |body| + 2;
    assert t[i] == '{' && t[e - 1] == '}';
    assert BraceMatch(t, i, e);
    SpanIsLeftmostLongest(t);
    var (i2, e2) := SpanBounds(t).value;
    assert i2 == i;
    assert e2 == e;
    assert t[i..e] == "{" + body + "}";
  }

  // ----- generate_structured_plan_from_gemini and generate_plan -----

  /** The plan generator: the decoded object, or `None` when there is no
      client, the call fails, no span is found or the span does not decode. */
  function GenerateStructuredPlan<J>(clientReady: bool, call: LlmCall,
                                     parse: string -> Option<map<string, J>>): (r: Option<map<string, J>>)
    ensures r.Some? <==>
      clientReady && call.Replied? && JsonSpan(call.text).Some? && parse(JsonSpan(call.text).value).Some?
    ensures r.Some? ==> r == parse(JsonSpan(call.text).value)
  {
    if !clientReady then None
    else
      match Extract(call, parse)
      case Object(data) => Some(data)
      case _ => None
  }

  const AuthRequired := "Authentication required."
  const PlanFailed := "Failed to generate plan from AI."

  /** Flask's answer to an exception the route does not catch. */
  const UncaughtError := "Internal Server Error"

  /** `int(v)`: integers and booleans convert, strings convert when
      `parseInt` accepts them, anything else raises. */
  function IntOf(v: Value, parseInt: string -> Option<int>): Option<int> {
    match v
    case Int(i) => Some(i)
    case Bool(b) => Some(if b then 1 else 0)
    case Str(t) => parseInt(t)
    case _ => None
  }

  /** The plan-generation route: `timeline` must convert with `int()` (an
      exception outside any handler otherwise), and an absent or empty plan
      object is a 500. The route reads and writes nothing in the store. */
  function GeneratePlan<J>(session: Session, s: Store, body: Doc, clientReady: bool,
                           llm: (Value, Value, int) -> LlmCall,
                           parse: string -> Option<map<string, J>>,
                           parseInt: string -> Option<int>): (st: Step<map<string, J>>)
    ensures st.store == s && st.session == session
    ensures session.userId.None? ==> st.reply == Failure(401, AuthRequired)
    ensures session.userId.Some? && IntOf(Get(body, "timeline"), parseInt).None? ==>
      st.reply == Failure(500, UncaughtError)
    ensures session.userId.Some? && IntOf(Get(body, "timeline"), parseInt).Some? ==>
      var months := IntOf(Get(body, "timeline"), parseInt).value;
      var plan := GenerateStructuredPlan(clientReady, llm(Get(body, "topic"), Get(body, "difficulty"), months), parse);
      && (st.reply.Success? <==> plan.Some? && |plan.value| > 0)
      && (!st.reply.Success? ==> st.reply == Failure(500, PlanFailed))
    ensures st.reply.Success? ==>
      var months := IntOf(Get(body, "timeline"), parseInt).value;
      var call := llm(Get(body, "topic"), Get(body, "difficulty"), months);
      && clientReady && call.Replied? && JsonSpan(call.text).Some?
      && parse(JsonSpan(call.text).value) == Some(st.reply.payload)
      && |st.reply.payload| > 0
  {
    if session.userId.None? then Fail(401, AuthRequired, s, session)
    else
      match IntOf(Get(body, "timeline"), parseInt)
      case None => Fail(500, UncaughtError, s, session)
      case Some(months) =>
        var plan := GenerateStructuredPlan(clientReady, llm(Get(body, "topic"), Get(body, "difficulty"), months), parse);
        if plan.None? || |plan.value| == 0 then Fail(500, PlanFailed, s, session)
        else Step(Success(200, plan.value), s, session)
  }

  /** Without a client the route always answers 500, whatever the model
      would say. */
  lemma NoClientNoPlan<J>(session: Session, s: Store, body: Doc,
                          llm: (Value, Value, int) -> LlmCall,
                          parse: string -> Option<map<string, J>>,
                          parseInt: string -> Option<int>)
    requires session.userId.Some?
    ensures GeneratePlan(session, s, body, false, llm, parse, parseInt).reply.Failure?
    ensures GeneratePlan(session, s, body, false, llm, parse, parseInt).reply.code == 500
  {
  }
}
