/** The keyword responder: it answers a request with a canned message chosen by
    the words the request contains, stores the answer, marks the request processed
    and broadcasts both changes. The stores are the ones `DataManager` models; the
    locale-formatted time is a parameter. */
module AutoResponder {
  import opened Wrappers
  import opened Json
  import opened Text
  import opened Http
  import DataManager

  /** The answer categories, in the order they are tried. */
  datatype Kind = Greeting | Thanks | Help | Time | Acknowledgment

  function KindName(k: Kind): string {
    match k
    case Greeting => "greeting"
    case Thanks => "thanks"
    case Help => "help"
    case Time => "time"
    case Acknowledgment => "acknowledgment"
  }

  /** Whether the message contains any of the keywords. */
  predicate AnyOf(m: string, keywords: seq<string>) {
    exists i | 0 <= i < |keywords| :: Contains(m, keywords[i])
  }

  const GreetingWords: seq<string> := ["안녕", "hello", "hi"]
  const ThanksWords: seq<string> := ["감사", "thank"]
  const HelpWords: seq<string> := ["도움", "help"]
  const TimeWords: seq<string> := ["시간", "time"]

  /** The classifier of `generateResponse`, over the lower-cased message. */
  function Classify(m: string): Kind {
    if Contains(m, "안녕") || Contains(m, "hello") || Contains(m, "hi") then Greeting
    else if Contains(m, "감사") || Contains(m, "thank") then Thanks
    else if Contains(m, "도움") || Contains(m, "help") then Help
    else if Contains(m, "시간") || Contains(m, "time") then Time
    else Acknowledgment
  }

  /** The categories with their keywords, in priority order. */
  function Rules(): seq<(Kind, seq<string>)> {
    [(Greeting, GreetingWords), (Thanks, ThanksWords), (Help, HelpWords), (Time, TimeWords)]
  }

  /** Reference reading: the first rule any of whose keywords occurs wins; with
      none, the request is acknowledged. */
  function FirstRule(rules: seq<(Kind, seq<string>)>, m: string): Kind
    decreases |rules|
  {
    if |rules| == 0 then Acknowledgment
    else if AnyOf(m, rules[0].1) then rules[0].0
    else FirstRule(rules[1..], m)
  }

  /** The classifier is the priority-ordered rule list: each category wins exactly
      when one of its keywords occurs and no earlier category's does. */
  lemma ClassifyIsFirstRule(m: string)
    ensures Classify(m) == FirstRule(Rules(), m)
  {
    if Contains(m, "안녕") { assert GreetingWords[0] == "안녕"; }
    if Contains(m, "hello") { assert GreetingWords[1] == "hello"; }
    if Contains(m, "hi") { assert GreetingWords[2] == "hi"; }
    if Contains(m, "감사") { assert ThanksWords[0] == "감사"; }
    if Contains(m, "thank") { assert ThanksWords[1] == "thank"; }
    if Contains(m, "도움") { assert HelpWords[0] == "도움"; }
    if Contains(m, "help") { assert HelpWords[1] == "help"; }
    if Contains(m, "시간") { assert TimeWords[0] == "시간"; }
    if Contains(m, "time") { assert TimeWords[1] == "time"; }
    var rs := Rules();
    assert rs[1..][0] == (Thanks, ThanksWords);
    assert rs[1..][1..][0] == (Help, HelpWords);
    assert rs[1..][1..][1..][0] == (Time, TimeWords);
    assert rs[1..][1..][1..][1..] == [];
  }

  /** Matching is by substring, so "hi" anywhere, inside a word too ("this",
      "which", "nothing"), makes a greeting, whatever else the message says. */
  lemma HiAnywhereGreets(pre: string, post: string)
    ensures Classify(pre + "hi" + post) == Greeting
  {
    ContainsInContext(pre, "hi", post);
  }

  /** A thank-you that says "this" is answered as a greeting. */
  lemma SubstringGreets()
    ensures Classify(ToLower("Thanks, this helps")) == Greeting
  {
    var m := ToLower("Thanks, this helps");
    assert m == m[..9] + "hi" + m[11..];
    HiAnywhereGreets(m[..9], m[11..]);
  }

  /** The answer texts. */
  const GreetingText: string := "안녕하세요! AUTO-DEV Bridge입니다. 무엇을 도와드릴까요? 😊"
  const ThanksText: string := "천만에요! 도움이 되어 기쁩니다. 😄"
  const HelpText: string := "제가 도와드릴 수 있는 것들:\n- 프로젝트 관리\n- 코드 생성\n- 문서 작성\n- 테스트 지원\n무엇을 도와드릴까요?"

  function TimeText(localeTime: string): string {
    "현재 시간은 " + localeTime + "입니다."
  }

  /** The acknowledgment quotes the original message. */
  function AcknowledgmentText(message: string): (t: string)
    ensures Contains(t, message)
  {
    ContainsInContext("\"", message, "\"에 대한 요청을 받았습니다. 처리 중입니다...");
    "\"" + message + "\"에 대한 요청을 받았습니다. 처리 중입니다..."
  }

  function Answer(k: Kind, message: string, localeTime: string): string {
    match k
    case Greeting => GreetingText
    case Thanks => ThanksText
    case Help => HelpText
    case Time => TimeText(localeTime)
    case Acknowledgment => AcknowledgmentText(message)
  }

  /** `{message, type, request_summary}`. */
  function Content(text: string, k: Kind, summary: string): (c: Json)
    ensures Field(c, "message") == Some(Str(text))
    ensures Field(c, "type") == Some(Str(KindName(k)))
    ensures Field(c, "request_summary") == Some(Str(summary))
  {
    var fs := [("message", Str(text)), ("type", Str(KindName(k))), ("request_summary", Str(summary))];
    assert "message"[0] != "type"[0] && "message"[0] != "request_summary"[0] && "type"[0] != "request_summary"[0];
    assert fs[1..][0] == ("type", Str(KindName(k))) && fs[1..][1..][0] == ("request_summary", Str(summary));
    assert Get(fs, "type") == Get(fs[1..], "type");
    assert Get(fs, "request_summary") == Get(fs[1..], "request_summary") == Get(fs[1..][1..], "request_summary");
    Obj(fs)
  }

  /** `generateResponse(request)`: classifies the lower-cased message; the summary
      is the first hundred characters of the message as written. A message that is
      not a string has no `toLowerCase` and throws. */
  function GenerateResponse(request: Json, localeTime: string): (r: Result<Json, string>)
    ensures r.Ok? <==> !request.Null? && Field(request, "message").Some? && Field(request, "message").value.Str?
    ensures r.Ok? ==>
      var m := Field(request, "message").value.s;
      Field(r.value, "type") == Some(Str(KindName(Classify(ToLower(m))))) &&
      Field(r.value, "request_summary") == Some(Str(Take(m, 100))) &&
      Field(r.value, "message") == Some(Str(Answer(Classify(ToLower(m)), m, localeTime)))
  {
    match JsProp(request, "message")
    case Err(e) => Err(e)
    case Ok(Some(Str(m))) =>
      var k := Classify(ToLower(m));
      Ok(Content(Answer(k, m, localeTime), k, Take(m, 100)))
    case Ok(_) => Err("TypeError: request.message.toLowerCase is not a function")
  }

  /** An acknowledged request gets its own words back. */
  lemma AcknowledgmentEchoes(request: Json, localeTime: string)
    requires GenerateResponse(request, localeTime).Ok?
    requires Classify(ToLower(Field(request, "message").value.s)) == Acknowledgment
    ensures Contains(Field(GenerateResponse(request, localeTime).value, "message").value.s, Field(request, "message").value.s)
  {
  }

  // ---------------------------------------------------------------------------
  // processRequest
  // ---------------------------------------------------------------------------

  /** The `response_sent` and `error` events the responder emits. */
  datatype Emitted = ResponseSent(request: Json, response: Json) | Failed(request: Json, error: string)

  /** What `processRequest` did: the response store and request store it wrote,
      what it broadcast and what it emitted. */
  datatype Processed = Processed(responses: Option<DataManager.Store>, requests: Option<DataManager.Store>,
                                 broadcasts: seq<Notice>, emitted: Option<Emitted>)

  /** `{request_id, content, status: 'success', metadata: {auto_generated, processed_at}}`;
      an `undefined` id is dropped when the response is stored. */
  function ResponseData(id: Option<Json>, content: Json, at: string): Json {
    var rid := if id.Some? then [("request_id", id.value)] else [];
    Obj(rid + [("content", content), ("status", Str("success")),
               ("metadata", Obj([("auto_generated", Bool(true)), ("processed_at", Str(at))]))])
  }

  /** `{status: 'processed'}`. */
  const ProcessedUpdate: Json := Obj([("status", Str("processed"))])

  /** `{id, status: 'processed'}`. */
  function UpdatedNotice(id: Option<Json>): Notice {
    var rid := if id.Some? then [("id", id.value)] else [];
    Notice("request_updated", Obj(rid + [("status", Str("processed"))]))
  }

  /** The request store after `updateRequest(id, {status: 'processed'})`: the first
      request with the id is now processed and no other request changed. */
  predicate MarkedInStore(before: seq<Json>, after: seq<Json>, id: Option<Json>) {
    |after| == |before| &&
    exists i | 0 <= i < |before| :: DataManager.FirstMatch(before, "id", id, i) &&
      after == before[i := after[i]] && Field(after[i], "status") == Some(Str("processed"))
  }

  /** A successful status update marks the first request with the id processed. */
  lemma ProcessedInStore(requests: DataManager.File, id: Option<Json>, at: string)
    requires DataManager.UpdateRequest(requests, id, ProcessedUpdate, at).Ok?
    ensures requests.Present? &&
      MarkedInStore(requests.value.items, DataManager.UpdateRequest(requests, id, ProcessedUpdate, at).value.0.items, id)
  {
    var xs := requests.value.items;
    DataManager.FindIndexFirst(xs, "id", id);
    var i := DataManager.FindIndex(xs, "id", id).value.value;
    DataManager.FindIndexAt(xs, "id", id, i);
    DataManager.UpdateRequestEffect(requests, id, ProcessedUpdate, at, i, "status");
    assert Keys(FieldsOf(ProcessedUpdate)) == ["status"];
    assert DataManager.FirstMatch(xs, "id", id, i);
  }

  /** `processRequest(request)`: a no-op unless running; a `null` request throws
      before the `try`. Otherwise it generates and stores the response, marks the
      request processed, then broadcasts both; the first failure stops it and is
      emitted as `error`, keeping whatever was already written. */
  function ProcessRequest(running: bool, request: Json, responses: DataManager.File, requests: DataManager.File,
                          responseId: string, at: string, localeTime: string): (p: Processed)
    ensures !running || request.Null? ==> p == Processed(None, None, [], None)
    ensures p.requests.Some? ==> p.responses.Some?
    ensures p.emitted.Some? && p.emitted.value.ResponseSent? <==> p.requests.Some?
    ensures p.broadcasts != [] <==> p.requests.Some?
    ensures p.responses.Some? ==>
      GenerateResponse(request, localeTime).Ok? &&
      StoredFirst(responses, p.responses.value.items,
                  DataManager.NewResponse(ResponseData(Field(request, "id"), GenerateResponse(request, localeTime).value, at), responseId, at))
    ensures p.requests.Some? ==>
      p.responses.Some? &&
      p.broadcasts == [Notice("response_created", p.responses.value.items[0]), UpdatedNotice(Field(request, "id"))] &&
      p.emitted == Some(ResponseSent(request, p.responses.value.items[0]))
    ensures p.requests.Some? ==> requests.Present? && MarkedInStore(requests.value.items, p.requests.value.items, Field(request, "id"))
  {
    if !running || request.Null? then Processed(None, None, [], None)
    else
      match GenerateResponse(request, localeTime)
      case Err(e) => Processed(None, None, [], Some(Failed(request, e)))
      case Ok(content) => Deliver(request, content, responses, requests, responseId, at)
  }

  /** The response store after `createResponse`: the new response in front of the
      responses that were kept. */
  predicate StoredFirst(before: DataManager.File, after: seq<Json>, response: Json) {
    DataManager.Items(before).Ok? &&
    0 < |after| <= |DataManager.Items(before).value| + 1 &&
    after[0] == response && after[1..] == DataManager.Items(before).value[..|after| - 1]
  }

  /** The part of `processRequest` after the reply is generated. */
  function Deliver(request: Json, content: Json, responses: DataManager.File, requests: DataManager.File,
                   responseId: string, at: string): (p: Processed)
    ensures p.requests.Some? ==> p.responses.Some?
    ensures p.emitted.Some?
    ensures p.emitted.value.ResponseSent? <==> p.requests.Some?
    ensures p.broadcasts != [] <==> p.requests.Some?
    ensures p.responses.Some? ==>
      StoredFirst(responses, p.responses.value.items,
                  DataManager.NewResponse(ResponseData(Field(request, "id"), content, at), responseId, at))
    ensures p.requests.Some? ==>
      p.responses.Some? &&
      p.broadcasts == [Notice("response_created", p.responses.value.items[0]), UpdatedNotice(Field(request, "id"))] &&
      p.emitted == Some(ResponseSent(request, p.responses.value.items[0]))
    ensures p.requests.Some? ==> requests.Present? && MarkedInStore(requests.value.items, p.requests.value.items, Field(request, "id"))
  {
    var id := Field(request, "id");
    match DataManager.CreateResponse(responses, ResponseData(id, content, at), responseId, at)
    case Err(e) => Processed(None, None, [], Some(Failed(request, e)))
    case Ok((rs, response)) =>
      match DataManager.UpdateRequest(requests, id, ProcessedUpdate, at)
      case Err(e) => Processed(Some(rs), None, [], Some(Failed(request, e)))
      case Ok((qs, _)) =>
        ProcessedInStore(requests, id, at);
        Processed(Some(rs), Some(qs), [Notice("response_created", response), UpdatedNotice(id)],
                  Some(ResponseSent(request, response)))
  }

  /** When the reply can be generated, the response store is readable and the
      active store holds the request, the whole sequence completes. */
  lemma ProcessRequestCompletes(request: Json, responses: DataManager.File, requests: DataManager.File,
                                responseId: string, at: string, localeTime: string)
    requires request.Obj? && GenerateResponse(request, localeTime).Ok?
    requires !responses.Unparsable? && requests.Present? && Null !in requests.value.items
    requires DataManager.HoldsId(requests.value.items, Field(request, "id"))
    ensures ProcessRequest(true, request, responses, requests, responseId, at, localeTime).requests.Some?
  {
    var xs := requests.value.items;
    var id := Field(request, "id");
    var j :| 0 <= j < |xs| && StrictEquals(Field(xs[j], "id"), id);
    assert DataManager.Matches(xs[j], "id", id) == Ok(true);
    DataManager.FindIndexFirst(xs, "id", id);
    assert DataManager.UpdateRequest(requests, id, ProcessedUpdate, at).Ok?;
  }

  /** A request the active store does not hold still gets its response stored: the
      update fails afterwards and the response stays. */
  lemma ResponseOutlivesFailedUpdate(request: Json, responses: DataManager.File, requests: DataManager.File,
                                     responseId: string, at: string, localeTime: string)
    requires request.Obj? && GenerateResponse(request, localeTime).Ok?
    requires !responses.Unparsable? && requests.Missing?
    ensures ProcessRequest(true, request, responses, requests, responseId, at, localeTime).responses.Some?
    ensures ProcessRequest(true, request, responses, requests, responseId, at, localeTime).requests.None?
    ensures ProcessRequest(true, request, responses, requests, responseId, at, localeTime).emitted ==
      Some(Failed(request, DataManager.NoActiveFile))
  {
  }
}
