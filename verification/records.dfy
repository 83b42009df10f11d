/** The tracking file `claude_requests.json` as each reader sees it. The server
    (JavaScript) and the helper scripts (Python) read the same list of entries
    `{request, status, created_at, processed_at?}` but access them with different
    failure behaviour: JavaScript reads a missing property as `undefined` and
    throws only when the object itself is `null` or `undefined`; Python raises on
    a missing key and on subscripting anything but a dict. */
module Records {
  import opened Wrappers
  import opened Json

  /** How a read of a file ends: the file is absent (`ENOENT` /
      `FileNotFoundError`), another read error, or its text with the outcome of
      parsing it (`None` when the parser throws). */
  datatype Read = NoFile | ReadFailed | Content(text: string, parsed: Option<Json>)

  // ---------------------------------------------------------------------------
  // JavaScript access
  // ---------------------------------------------------------------------------

  /** `req.status === 'pending'`. */
  function JsPending(req: Json): (r: Result<bool, string>)
    ensures r.Err? <==> req.Null?
    ensures r == Ok(true) <==> Field(req, "status") == Some(Str("pending"))
  {
    match JsProp(req, "status")
    case Err(e) => Err(e)
    case Ok(s) => Ok(s == Some(Str("pending")))
  }

  /** `req.request && req.request.id` read as a condition: the id when it is
      truthy, `None` when the expression is falsy. */
  function JsRequestId(req: Json): (r: Result<Option<Json>, string>)
    ensures r.Err? <==> req.Null?
    ensures r.Ok? && r.value.Some? ==> Truthy(r.value.value)
  {
    match JsProp(req, "request")
    case Err(e) => Err(e)
    case Ok(rq) =>
      if rq.None? || !Truthy(rq.value) then Ok(None)
      else
        var id := JsProp(rq.value, "id");
        if id.Ok? && id.value.Some? && Truthy(id.value.value) then Ok(Some(id.value.value)) else Ok(None)
  }

  /** `req.request.id === id` for a string `id`, as `findIndex` evaluates it:
      throws when `req` or `req.request` is `null` or `undefined`. */
  function JsIdIs(req: Json, id: string): (r: Result<bool, string>)
    ensures r == Ok(true) ==> req.Obj? && Field(req, "request").Some?
  {
    match JsProp(req, "request")
    case Err(e) => Err(e)
    case Ok(rq) =>
      if rq.None? then Err("TypeError: Cannot read properties of undefined")
      else
        match JsProp(rq.value, "id")
        case Err(e) => Err(e)
        case Ok(v) => Ok(v == Some(Str(id)))
  }

  /** The entry `addRequest` appends. */
  function PendingEntry(request: Json, createdAt: string): (e: Json)
    ensures Field(e, "status") == Some(Str("pending")) && Field(e, "request") == Some(request)
  {
    var fs := [("request", request), ("status", Str("pending")), ("created_at", Str(createdAt))];
    assert "request"[0] != "status"[0];
    assert fs[1..][0] == ("status", Str("pending"));
    assert Get(fs, "status") == Get(fs[1..], "status") == Some(Str("pending"));
    assert Get(fs, "request") == Some(request);
    Obj(fs)
  }

  /** Marking an entry: `status` becomes `processed` and `processed_at` is written;
      every other property keeps its value and position. */
  function MarkProcessed(e: Json, at: string): (r: Json)
    requires e.Obj?
    ensures r.Obj?
    ensures Field(r, "status") == Some(Str("processed"))
    ensures Field(r, "processed_at") == Some(Str(at))
    ensures forall k | k != "status" && k != "processed_at" :: Field(r, k) == Field(e, k)
  {
    Obj(Set(Set(e.fields, "status", Str("processed")), "processed_at", Str(at)))
  }

  /** A processed entry is never pending. */
  lemma MarkedNotPending(e: Json, at: string)
    requires e.Obj?
    ensures JsPending(MarkProcessed(e, at)) == Ok(false)
  {
    assert Str("processed") != Str("pending") by { assert "processed"[1] != "pending"[1]; }
  }

  // ---------------------------------------------------------------------------
  // Python access
  // ---------------------------------------------------------------------------

  /** `for x in j`: a list gives its items, a dict its keys, a string its
      characters; other values are not iterable. */
  function PyIter(j: Json): (r: Result<seq<Json>, string>)
    ensures j.Arr? ==> r == Ok(j.items)
  {
    match j
    case Arr(xs) => Ok(xs)
    case Obj(fs) => Ok(Strs(Keys(fs)))
    case Str(s) => Ok(Chars(s))
    case _ => Err("TypeError: object is not iterable")
  }

  function Strs(ks: seq<string>): (r: seq<Json>)
    ensures |r| == |ks|
  {
    if |ks| == 0 then [] else [Str(ks[0])] + Strs(ks[1..])
  }

  function Chars(s: string): (r: seq<Json>)
    ensures |r| == |s|
  {
    if |s| == 0 then [] else [Str([s[0]])] + Chars(s[1..])
  }

  /** `j[k]` in Python for a string key: a dict gives the value or raises
      `KeyError`; anything else raises `TypeError`. */
  function PySub(j: Json, k: string): (r: Result<Json, string>)
    ensures r.Ok? <==> j.Obj? && Field(j, k).Some?
    ensures r.Ok? ==> Field(j, k) == Some(r.value)
  {
    if !j.Obj? then Err("TypeError: indices must be integers")
    else
      match Get(j.fields, k)
      case None => Err("KeyError")
      case Some(v) => Ok(v)
  }

  /** `j.get(k)`: only dicts have `get`. */
  function PyGet(j: Json, k: string): (r: Result<Option<Json>, string>)
    ensures r.Ok? <==> j.Obj?
    ensures r.Ok? ==> r.value == Field(j, k)
  {
    if j.Obj? then Ok(Get(j.fields, k)) else Err("AttributeError: no attribute 'get'")
  }

  /** `req['status'] == 'pending'`. */
  function PyPending(req: Json): (r: Result<bool, string>)
    ensures r.Ok? <==> req.Obj? && Field(req, "status").Some?
    ensures r == Ok(true) <==> Field(req, "status") == Some(Str("pending"))
  {
    match PySub(req, "status")
    case Err(e) => Err(e)
    case Ok(s) => Ok(s == Str("pending"))
  }

  /** `req['request']['id']`. */
  function PyRequestId(req: Json): (r: Result<Json, string>)
    ensures r.Ok? ==> req.Obj? && Field(req, "request").Some?
  {
    match PySub(req, "request")
    case Err(e) => Err(e)
    case Ok(rq) => PySub(rq, "id")
  }

  /** Values Python can put in a set. */
  predicate Hashable(j: Json) {
    !j.Arr? && !j.Obj?
  }

  /** `json.load(open(path))`: a missing file raises `FileNotFoundError` (here
      `Ok(None)`, for the callers that catch it), any other read error and a parse
      error raise. */
  function PyLoad(read: Read): (r: Result<Option<Json>, string>)
    ensures r == Ok(None) <==> read.NoFile?
    ensures read.Content? && read.parsed.Some? ==> r == Ok(read.parsed)
  {
    match read
    case NoFile => Ok(None)
    case ReadFailed => Err("OSError")
    case Content(_, None) => Err("JSONDecodeError")
    case Content(_, Some(j)) => Ok(Some(j))
  }
}
