/** The server's last middleware: it turns an error thrown by a route into an
    answer, trying its rules in a fixed order. The clock reading and `NODE_ENV`
    are parameters; the console log it writes is left out. */
module ErrorHandler {
  import opened Wrappers
  import opened Json
  import opened Text
  import opened Http

  /** A thrown `Error` as the handler reads it: `name`, `message`, `code`, `isJoi`,
      `details`, `statusCode` and `stack`. */
  datatype Failure = Failure(name: string, message: string, code: Option<string>, isJoi: bool,
                             details: Option<Json>, statusCode: Option<nat>, stack: string)

  /** `new Error(message)`; its stack starts with the name and message. */
  function Plain(message: string): (e: Failure)
    ensures e.name == "Error" && e.message == message
    ensures e.code.None? && !e.isJoi && e.statusCode.None?
  {
    Failure("Error", message, None, false, None, None, "Error: " + message)
  }

  /** The branches of `errorHandler`, in the order they are tried. */
  datatype Rule = Validation | FileNotFound | FileSystem | JsonParse | NotFound | Explicit | Fallback

  /** When each branch's condition holds. */
  predicate Applies(r: Rule, e: Failure) {
    match r
    case Validation => e.name == "ValidationError" || e.isJoi
    case FileNotFound => e.code == Some("ENOENT")
    case FileSystem => e.code == Some("EACCES") || e.code == Some("EPERM")
    case JsonParse => e.name == "SyntaxError" && Contains(e.message, "JSON")
    case NotFound => e.message != "" && Contains(e.message, "not found")
    case Explicit => e.statusCode.Some? && e.statusCode.value != 0
    case Fallback => true
  }

  /** A branch's position in the `if … else if` chain. */
  function Rank(r: Rule): nat {
    match r
    case Validation => 0
    case FileNotFound => 1
    case FileSystem => 2
    case JsonParse => 3
    case NotFound => 4
    case Explicit => 5
    case Fallback => 6
  }

  /** The branch `errorHandler` takes. */
  function Classify(e: Failure): Rule {
    if e.name == "ValidationError" || e.isJoi then Validation
    else if e.code == Some("ENOENT") then FileNotFound
    else if e.code == Some("EACCES") || e.code == Some("EPERM") then FileSystem
    else if e.name == "SyntaxError" && Contains(e.message, "JSON") then JsonParse
    else if e.message != "" && Contains(e.message, "not found") then NotFound
    else if e.statusCode.Some? && e.statusCode.value != 0 then Explicit
    else Fallback
  }

  /** The branch taken is the first one, in chain order, whose condition holds:
      its own condition holds and no earlier one does. Since ranks are distinct,
      this determines the branch; in particular an explicit `statusCode` is used
      only when none of the five rules before it matches. */
  lemma ClassifyIsFirstApplicable(e: Failure)
    ensures Applies(Classify(e), e)
    ensures forall q: Rule | Rank(q) < Rank(Classify(e)) :: !Applies(q, e)
  {
    forall q: Rule | Rank(q) < Rank(Classify(e))
      ensures !Applies(q, e)
    {
      match q
      case Validation =>
      case FileNotFound =>
      case FileSystem =>
      case JsonParse =>
      case NotFound =>
      case Explicit =>
      case Fallback =>
    }
  }

  /** `{error, message, [details,] timestamp}`, with `stack` added in development. */
  function Body(error: string, message: string, details: Option<Json>, at: string, stack: Option<string>): (b: Json)
    ensures Field(b, "error") == Some(Str(error))
    ensures Field(b, "message") == Some(Str(message))
    ensures Field(b, "details") == details
    ensures Field(b, "timestamp") == Some(Str(at))
    ensures Field(b, "stack").Some? <==> stack.Some?
    ensures stack.Some? ==> Field(b, "stack") == Some(Str(stack.value))
  {
    assert "error"[0] != "message"[0] && "error"[0] != "details"[0] && "error"[0] != "timestamp"[0] && "error"[0] != "stack"[0];
    assert "message"[0] != "details"[0] && "message"[0] != "timestamp"[0] && "message"[0] != "stack"[0];
    Obj(Put("error", Str(error), Put("message", Str(message), Trailer(details, at, stack))))
  }

  /** The properties after `error` and `message`: `details`, `timestamp`, `stack`. */
  function Trailer(details: Option<Json>, at: string, stack: Option<string>): (fs: seq<(string, Json)>)
    ensures Get(fs, "details") == details
    ensures Get(fs, "timestamp") == Some(Str(at))
    ensures Get(fs, "stack").Some? <==> stack.Some?
    ensures stack.Some? ==> Get(fs, "stack") == Some(Str(stack.value))
    ensures forall k | k != "details" && k != "timestamp" && k != "stack" :: Get(fs, k).None?
  {
    assert "details"[0] != "timestamp"[0] && "details"[0] != "stack"[0] && "timestamp"[1] != "stack"[1];
    var trace := if stack.Some? then Some(Str(stack.value)) else None;
    PutOpt("details", details, Put("timestamp", Str(at), PutOpt("stack", trace, [])))
  }

  /** `errorHandler(err, req, res, next)`: the answer for a thrown error. */
  function Handle(e: Failure, at: string, development: bool): (r: Response)
    ensures Field(r.body, "timestamp") == Some(Str(at))
    ensures Field(r.body, "stack").Some? <==> development
    ensures development ==> Field(r.body, "stack") == Some(Str(e.stack))
    ensures Classify(e) == Validation ==>
      r.status == 400 && Field(r.body, "error") == Some(Str("Validation Error")) && Field(r.body, "message") == Some(Str(e.message))
      && Field(r.body, "details") == Some(if e.details.Some? && Truthy(e.details.value) then e.details.value else Null)
    ensures Classify(e) == FileNotFound ==>
      r.status == 404 && Field(r.body, "error") == Some(Str("File Not Found"))
    ensures Classify(e) == FileSystem ==>
      r.status == 500 && Field(r.body, "error") == Some(Str("File System Error"))
    ensures Classify(e) == JsonParse ==>
      r.status == 400 && Field(r.body, "error") == Some(Str("JSON Parse Error"))
    ensures Classify(e) == NotFound ==>
      r.status == 404 && Field(r.body, "error") == Some(Str("Not Found")) && Field(r.body, "message") == Some(Str(e.message))
    ensures Classify(e) == Explicit ==>
      r.status == e.statusCode.value && Field(r.body, "message") == Some(Str(e.message))
      && Field(r.body, "error") == Some(Str(if e.name == "" then "Error" else e.name))
    ensures Classify(e) == Fallback ==>
      r.status == 500 && Field(r.body, "error") == Some(Str("Internal Server Error"))
      && Field(r.body, "message") == Some(Str("An unexpected error occurred"))
    ensures Classify(e) != Validation ==> Field(r.body, "details").None?
  {
    var (status, error, message, details) := Reply(e);
    Response(status, Body(error, message, details, at, if development then Some(e.stack) else None))
  }

  /** The status, `error` title, `message` and `details` of each branch. */
  function Reply(e: Failure): (nat, string, string, Option<Json>) {
    match Classify(e)
    case Validation =>
      (400, "Validation Error", e.message, Some(if e.details.Some? && Truthy(e.details.value) then e.details.value else Null))
    case FileNotFound => (404, "File Not Found", "The requested file or resource was not found", None)
    case FileSystem => (500, "File System Error", "Permission denied accessing file system", None)
    case JsonParse => (400, "JSON Parse Error", "Invalid JSON format in request body", None)
    case NotFound => (404, "Not Found", e.message, None)
    case Explicit => (e.statusCode.value, if e.name == "" then "Error" else e.name, e.message, None)
    case Fallback => (500, "Internal Server Error", "An unexpected error occurred", None)
  }

  /** `notFoundHandler`: the error passed on for a route nobody serves. */
  function RouteNotFound(verb: string, url: string): (e: Failure)
    ensures e.statusCode == Some(404)
    ensures e.name == "Error" && e.code.None? && !e.isJoi
  {
    var message := "Route " + verb + " " + url + " not found";
    Failure("Error", message, None, false, None, Some(404), "Error: " + message)
  }

  /** An unknown route is answered by the `not found` rule, ahead of the
      `statusCode` rule: the answer is `404 Not Found` with the route's message,
      not the error's name. */
  lemma UnknownRouteIsNotFound(verb: string, url: string, at: string, development: bool)
    ensures Classify(RouteNotFound(verb, url)) == NotFound
    ensures Handle(RouteNotFound(verb, url), at, development).status == 404
    ensures Field(Handle(RouteNotFound(verb, url), at, development).body, "error") == Some(Str("Not Found"))
  {
    var e := RouteNotFound(verb, url);
    assert e.message == ("Route " + verb + " " + url + " ") + "not found" + "";
    ContainsInContext("Route " + verb + " " + url + " ", "not found", "");
  }

  /** What a route handler wrapped by `asyncHandler` ends with: an answer it sent
      itself, or an error that reaches `errorHandler`. */
  datatype Outcome = Answered(response: Response) | Thrown(failure: Failure)

  /** `asyncHandler(fn)`: a rejected handler is passed to `next`, so its error is
      answered by `errorHandler`; an answered one is left as it is. */
  function Serve(o: Outcome, at: string, development: bool): (r: Response)
    ensures o.Answered? ==> r == o.response
    ensures o.Thrown? ==> r == Handle(o.failure, at, development)
  {
    match o
    case Answered(res) => res
    case Thrown(e) => Handle(e, at, development)
  }
}
