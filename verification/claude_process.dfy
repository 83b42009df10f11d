/** The helper script Claude Code runs to work through the tracking file
    `claude_requests.json`: list the pending entries, post a response to the
    server, and mark a request processed. HTTP calls and the temporary files they
    go through are outcomes passed in; the model returns what would be sent and
    written. */
module ClaudeProcess {
  import opened Wrappers
  import opened Json
  import opened Text
  import opened Records
  import ClaudeResponder

  /** `response_type` when the caller gives none. */
  const DefaultResponseType: string := "general"

  /** `[req for req in all_requests if req['status'] == 'pending']`: every entry's
      status is read, so any entry without one raises. */
  function PendingOf(xs: seq<Json>): (r: Result<seq<Json>, string>)
    ensures r.Ok? ==> |r.value| <= |xs|
    decreases |xs|
  {
    if |xs| == 0 then Ok([])
    else
      match PyPending(xs[0])
      case Err(e) => Err(e)
      case Ok(p) =>
        match PendingOf(xs[1..])
        case Err(e) => Err(e)
        case Ok(rest) => Ok(if p then [xs[0]] + rest else rest)
  }

  /** The comprehension fails exactly when some entry has no status, and otherwise
      keeps exactly the pending entries in file order. */
  lemma {:induction false} PendingOfExact(xs: seq<Json>)
    ensures PendingOf(xs).Err? <==> exists j | 0 <= j < |xs| :: PyPending(xs[j]).Err?
    ensures PendingOf(xs).Ok? ==> Subsequence(PendingOf(xs).value, xs)
    ensures PendingOf(xs).Ok? ==> forall x | x in PendingOf(xs).value :: Field(x, "status") == Some(Str("pending"))
    ensures PendingOf(xs).Ok? ==> forall x | x in xs && Field(x, "status") == Some(Str("pending")) :: x in PendingOf(xs).value
    decreases |xs|
  {
    if |xs| > 0 {
      PendingOfExact(xs[1..]);
      if exists j | 0 <= j < |xs[1..]| :: PyPending(xs[1..][j]).Err? {
        var j :| 0 <= j < |xs[1..]| && PyPending(xs[1..][j]).Err?;
        assert xs[j + 1] == xs[1..][j];
      }
      if (exists j | 0 <= j < |xs| :: PyPending(xs[j]).Err?) && PyPending(xs[0]).Ok? {
        var j :| 0 <= j < |xs| && PyPending(xs[j]).Err?;
        assert j > 0 && xs[1..][j - 1] == xs[j];
      }
      if PendingOf(xs).Ok? {
        var rest := PendingOf(xs[1..]).value;
        var r := PendingOf(xs).value;
        SubsequenceCons(rest, xs);
        if PyPending(xs[0]) == Ok(true) {
          assert r == [xs[0]] + rest && r[1..] == rest;
        }
      }
    }
  }

  /** `load_pending_requests()`: a missing file means nothing is pending; every
      other failure propagates to the caller. */
  function LoadPendingRequests(read: Read): (r: Result<seq<Json>, string>)
    ensures read.NoFile? ==> r == Ok([])
    ensures read.ReadFailed? || (read.Content? && read.parsed.None?) ==> r.Err?
    ensures read.Content? && read.parsed.Some? && read.parsed.value.Arr? ==> r == PendingOf(read.parsed.value.items)
  {
    match PyLoad(read)
    case Err(e) => Err(e)
    case Ok(None) => Ok([])
    case Ok(Some(j)) =>
      match PyIter(j)
      case Err(e) => Err(e)
      case Ok(xs) => PendingOf(xs)
  }

  /** `get_pending_count()`. */
  function GetPendingCount(read: Read): (r: Result<nat, string>)
    ensures r.Ok? <==> LoadPendingRequests(read).Ok?
    ensures r.Ok? ==> r.value == |LoadPendingRequests(read).value|
  {
    match LoadPendingRequests(read)
    case Err(e) => Err(e)
    case Ok(xs) => Ok(|xs|)
  }

  /** The script and the server's reminder agree on the number of pending entries
      whenever every entry is an object with a status. */
  lemma {:induction false} CountAgrees(xs: seq<Json>, text: string)
    requires forall j | 0 <= j < |xs| :: xs[j].Obj? && Field(xs[j], "status").Some?
    ensures GetPendingCount(Content(text, Some(Arr(xs)))) == Ok(ClaudeResponder.CountPending(xs))
    decreases |xs|
  {
    if |xs| > 0 {
      CountAgrees(xs[1..], text);
      assert PendingOf(xs[1..]).Ok?;
      assert PyPending(xs[0]).Ok?;
    }
  }

  // ---------------------------------------------------------------------------
  // create_response
  // ---------------------------------------------------------------------------

  /** The body posted to `/api/responses`. */
  function ResponsePayload(requestId: Json, message: Json, kind: string, at: string): (p: Json)
    ensures Field(p, "request_id") == Some(requestId)
    ensures Field(p, "status") == Some(Str("success"))
    ensures Field(p, "content").Some? && Field(p, "content").value.Obj?
    ensures p.Obj? && Keys(p.fields) == ["request_id", "content", "status"]
  {
    var content := Obj([("message", message), ("type", Str(kind)), ("generated_by", Str("Claude Code")), ("timestamp", Str(at))]);
    var fs := [("request_id", requestId), ("content", content), ("status", Str("success"))];
    assert "request_id"[0] != "content"[0] && "request_id"[0] != "status"[0] && "content"[0] != "status"[0];
    assert fs[1..][0] == ("content", content) && fs[1..][1..][0] == ("status", Str("success"));
    assert Get(fs, "content") == Get(fs[1..], "content");
    assert Get(fs, "status") == Get(fs[1..], "status") == Get(fs[1..][1..], "status");
    Obj(fs)
  }

  /** What `create_response` did: the body it posted (when curl ran) and its
      return value. */
  datatype Posted = Posted(body: Option<Json>, result: bool)

  /** `create_response(request_id, message, response_type)`: writes the body to a
      temporary file (`tempOk`), runs curl (exit status `exitCode`), deletes the
      file (`removeOk`) and reports whether curl exited with zero. A failure to
      delete the file raises, so the result is `False` even though the body was
      posted. */
  function CreateResponse(requestId: Json, message: Json, kind: string, at: string, tempOk: bool, exitCode: int, removeOk: bool): (p: Posted)
    ensures p.body.Some? <==> tempOk
    ensures p.body.Some? ==> p.body.value == ResponsePayload(requestId, message, kind, at)
    ensures p.result <==> tempOk && exitCode == 0 && removeOk
  {
    if !tempOk then Posted(None, false)
    else Posted(Some(ResponsePayload(requestId, message, kind, at)), exitCode == 0 && removeOk)
  }

  // ---------------------------------------------------------------------------
  // mark_as_processed
  // ---------------------------------------------------------------------------

  /** The loop of `mark_as_processed`: every entry whose request id equals the
      given one is marked; an entry whose id cannot be read raises and nothing is
      written. */
  function MarkAll(xs: seq<Json>, requestId: Json, at: string): (r: Result<seq<Json>, string>)
    ensures r.Ok? ==> |r.value| == |xs|
    decreases |xs|
  {
    if |xs| == 0 then Ok([])
    else
      match PyRequestId(xs[0])
      case Err(e) => Err(e)
      case Ok(id) =>
        match MarkAll(xs[1..], requestId, at)
        case Err(e) => Err(e)
        case Ok(rest) => Ok([MarkEntry(xs[0], requestId, at)] + rest)
  }

  /** The loop body: an entry for the request is marked, any other kept. */
  function MarkEntry(x: Json, requestId: Json, at: string): Json
    requires PyRequestId(x).Ok?
  {
    if PyRequestId(x).value == requestId then MarkProcessed(x, at) else x
  }

  /** Every entry for the request is marked and every other entry is kept. */
  lemma {:induction false} MarkAllEvery(xs: seq<Json>, requestId: Json, at: string, j: nat)
    requires MarkAll(xs, requestId, at).Ok? && j < |xs|
    ensures PyRequestId(xs[j]).Ok?
    ensures PyRequestId(xs[j]).value == requestId ==> MarkAll(xs, requestId, at).value[j] == MarkProcessed(xs[j], at)
    ensures PyRequestId(xs[j]).value != requestId ==> MarkAll(xs, requestId, at).value[j] == xs[j]
    decreases |xs|
  {
    MarkAllAt(xs, requestId, at, j);
  }

  /** Entry `j` of the marked list is entry `j` passed through the loop body. */
  lemma {:induction false} MarkAllAt(xs: seq<Json>, requestId: Json, at: string, j: nat)
    requires MarkAll(xs, requestId, at).Ok? && j < |xs|
    ensures PyRequestId(xs[j]).Ok?
    ensures MarkAll(xs, requestId, at).value[j] == MarkEntry(xs[j], requestId, at)
    decreases |xs|
  {
    MarkAllStep(xs, requestId, at);
    if j > 0 {
      var tail := xs[1..];
      MarkAllAt(tail, requestId, at, j - 1);
      assert tail[j - 1] == xs[j];
      assert MarkAll(xs, requestId, at).value[j] == MarkAll(xs, requestId, at).value[1..][j - 1];
    }
  }

  /** One step of `MarkAll`: the head is read, the tail marked. */
  lemma MarkAllStep(xs: seq<Json>, requestId: Json, at: string)
    requires MarkAll(xs, requestId, at).Ok? && |xs| > 0
    ensures PyRequestId(xs[0]).Ok? && MarkAll(xs[1..], requestId, at).Ok?
    ensures MarkAll(xs, requestId, at).value[0] == MarkEntry(xs[0], requestId, at)
    ensures MarkAll(xs, requestId, at).value[1..] == MarkAll(xs[1..], requestId, at).value
  {
    var ys := [MarkEntry(xs[0], requestId, at)] + MarkAll(xs[1..], requestId, at).value;
    assert MarkAll(xs, requestId, at).value == ys;
    assert ys[1..] == MarkAll(xs[1..], requestId, at).value;
  }

  /** `update_request_status(request_id, 'processed')`: `PUT /api/requests/<id>`
      with this body. */
  const ProcessedStatus: Json := Obj([("status", Str("processed"))])

  /** A status update sent to the server: the request it is for and its body. */
  datatype StatusUpdate = StatusUpdate(requestId: Json, body: Json)

  /** What `mark_as_processed` did: the document it wrote back, when the write
      succeeded, and the status update it sent for the request. A failed write
      leaves the file unwritten or truncated, which the model does not describe. */
  datatype Marked = Marked(written: Option<Json>, statusUpdate: Option<StatusUpdate>)

  /** `mark_as_processed(request_id)`: every failure, a missing file included, is
      caught and nothing is written or sent. A document that is not a list is
      written back unchanged when iterating it reaches no entry. */
  function MarkAsProcessed(read: Read, requestId: Json, at: string, writeOk: bool): (m: Marked)
    ensures m.statusUpdate.Some? <==> m.written.Some?
    ensures m.written.Some? ==> writeOk
    ensures m.statusUpdate.Some? ==> m.statusUpdate.value == StatusUpdate(requestId, ProcessedStatus)
    ensures !(read.Content? && read.parsed.Some?) ==> m == Marked(None, None)
  {
    match read
    case Content(_, Some(j)) =>
      (match PyIter(j)
       case Err(_) => Marked(None, None)
       case Ok(xs) =>
         match MarkAll(xs, requestId, at)
         case Err(_) => Marked(None, None)
         case Ok(ys) =>
           var doc := if j.Arr? then Arr(ys) else j;
           if writeOk then Marked(Some(doc), Some(StatusUpdate(requestId, ProcessedStatus)))
           else Marked(None, None))
    case _ => Marked(None, None)
  }

  /** The server marks only the first entry for a request; this script marks every
      one. Given two entries for the same request, the second stays pending on the
      server's path and is marked on the script's. */
  lemma MarkingDiverges(xs: seq<Json>, requestId: string, at: string, i: nat, j: nat, text: string)
    requires ClaudeResponder.FindRequest(xs, requestId) == Ok(Some(i))
    requires i < j < |xs| && ClaudeResponder.FindRequest(xs[j..], requestId) == Ok(Some(0))
    requires MarkAll(xs, Str(requestId), at).Ok?
    ensures ClaudeResponder.MarkRequestProcessed(Content(text, Some(Arr(xs))), requestId, at).value[j] == xs[j]
    ensures MarkAsProcessed(Content(text, Some(Arr(xs))), Str(requestId), at, true).written ==
      Some(Arr(MarkAll(xs, Str(requestId), at).value))
    ensures MarkAll(xs, Str(requestId), at).value[j] == MarkProcessed(xs[j], at)
  {
    var x := xs[j];
    assert xs[j..][0] == x;
    assert JsIdIs(x, requestId) == Ok(true);
    ClaudeResponder.MarkThenCheck(xs, text, requestId, at, i);
    JsIdIsPy(x, requestId);
    MarkAllEvery(xs, Str(requestId), at, j);
  }

  /** The two readings of an entry's request id agree where JavaScript finds a
      match. */
  lemma JsIdIsPy(x: Json, requestId: string)
    requires JsIdIs(x, requestId) == Ok(true)
    ensures PyRequestId(x) == Ok(Str(requestId))
  {
    var rq := Field(x, "request").value;
    assert JsProp(rq, "id") == Ok(Some(Str(requestId)));
  }
}
