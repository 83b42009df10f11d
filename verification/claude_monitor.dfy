/** The monitor script: it watches the tracking file and, on every modification,
    lists the pending requests whose ids were not already processed when it
    started. The processed ids are loaded once; nothing the monitor reports is
    remembered, so a pending request is listed again on every later change until
    its status changes. Console output is the list of requests it reports. */
module ClaudeMonitor {
  import opened Wrappers
  import opened Json
  import opened Records
  import ClaudeProcess

  /** `ClaudeRequestHandler`: the watched path and the ids seen processed at start. */
  datatype Handler = Handler(filePath: string, processedIds: set<Json>)

  /** The loop of `load_existing_requests`: ids of entries whose status is
      `processed`; `req.get` raises on a non-dict entry, and an unhashable id
      cannot go into the set. */
  function ProcessedIds(xs: seq<Json>): (r: Result<set<Json>, string>)
    decreases |xs|
  {
    if |xs| == 0 then Ok({})
    else
      match PyGet(xs[0], "status")
      case Err(e) => Err(e)
      case Ok(st) =>
        var own: Result<set<Json>, string> :=
          if st != Some(Str("processed")) then Ok({})
          else
            match PyRequestId(xs[0])
            case Err(e) => Err(e)
            case Ok(id) => if Hashable(id) then Ok({id}) else Err("TypeError: unhashable type");
        match own
        case Err(e) => Err(e)
        case Ok(s) =>
          match ProcessedIds(xs[1..])
          case Err(e) => Err(e)
          case Ok(t) => Ok(s + t)
  }

  /** The loaded set holds exactly the request ids of the processed entries. */
  lemma {:induction false} ProcessedIdsExact(xs: seq<Json>, id: Json)
    requires ProcessedIds(xs).Ok?
    ensures id in ProcessedIds(xs).value <==>
      exists j | 0 <= j < |xs| :: Field(xs[j], "status") == Some(Str("processed")) && PyRequestId(xs[j]) == Ok(id)
    decreases |xs|
  {
    if |xs| > 0 {
      ProcessedIdsExact(xs[1..], id);
      var tail := exists j | 0 <= j < |xs[1..]| :: Field(xs[1..][j], "status") == Some(Str("processed")) && PyRequestId(xs[1..][j]) == Ok(id);
      if tail {
        var j :| 0 <= j < |xs[1..]| && Field(xs[1..][j], "status") == Some(Str("processed")) && PyRequestId(xs[1..][j]) == Ok(id);
        assert xs[j + 1] == xs[1..][j];
      }
      if exists j | 0 <= j < |xs| :: Field(xs[j], "status") == Some(Str("processed")) && PyRequestId(xs[j]) == Ok(id) {
        var j :| 0 <= j < |xs| && Field(xs[j], "status") == Some(Str("processed")) && PyRequestId(xs[j]) == Ok(id);
        if j > 0 {
          assert xs[1..][j - 1] == xs[j];
        }
      }
    }
  }

  /** The constructor (`load_existing_requests`): a missing file gives an empty
      set; any other failure escapes and the monitor does not start. */
  function NewHandler(filePath: string, read: Read): (r: Result<Handler, string>)
    ensures read.NoFile? ==> r == Ok(Handler(filePath, {}))
    ensures r.Ok? ==> r.value.filePath == filePath
    ensures read.ReadFailed? || (read.Content? && read.parsed.None?) ==> r.Err?
  {
    match PyLoad(read)
    case Err(e) => Err(e)
    case Ok(None) => Ok(Handler(filePath, {}))
    case Ok(Some(j)) =>
      match PyIter(j)
      case Err(e) => Err(e)
      case Ok(xs) =>
        match ProcessedIds(xs)
        case Err(e) => Err(e)
        case Ok(ids) => Ok(Handler(filePath, ids))
  }

  /** The loop of `check_new_requests`: the `request` of every pending entry whose
      id was not processed at start. `and` short-circuits, so only pending entries
      need a request id. */
  function NewRequests(xs: seq<Json>, processed: set<Json>): (r: Result<seq<Json>, string>)
    ensures r.Ok? ==> |r.value| <= |xs|
    decreases |xs|
  {
    if |xs| == 0 then Ok([])
    else
      match PyPending(xs[0])
      case Err(e) => Err(e)
      case Ok(p) =>
        var own: Result<seq<Json>, string> :=
          if !p then Ok([])
          else
            match PyRequestId(xs[0])
            case Err(e) => Err(e)
            case Ok(id) =>
              if !Hashable(id) then Err("TypeError: unhashable type")
              else if id in processed then Ok([])
              else Ok([PySub(xs[0], "request").value]);
        match own
        case Err(e) => Err(e)
        case Ok(s) =>
          match NewRequests(xs[1..], processed)
          case Err(e) => Err(e)
          case Ok(t) => Ok(s + t)
  }

  /** A pending entry is reported exactly when its id was not processed at start. */
  predicate Reportable(x: Json, processed: set<Json>) {
    Field(x, "status") == Some(Str("pending")) && PyRequestId(x).Ok? && PyRequestId(x).value !in processed
  }

  /** Every reported request belongs to a reportable entry, and every reportable
      entry is reported. */
  lemma {:induction false} NewRequestsExact(xs: seq<Json>, processed: set<Json>, q: Json)
    requires NewRequests(xs, processed).Ok?
    ensures q in NewRequests(xs, processed).value <==>
      exists j | 0 <= j < |xs| :: Reportable(xs[j], processed) && Field(xs[j], "request") == Some(q)
    decreases |xs|
  {
    if |xs| > 0 {
      NewRequestsStep(xs, processed, q);
      NewRequestsExact(xs[1..], processed, q);
      if exists j | 0 <= j < |xs[1..]| :: Reportable(xs[1..][j], processed) && Field(xs[1..][j], "request") == Some(q) {
        var j :| 0 <= j < |xs[1..]| && Reportable(xs[1..][j], processed) && Field(xs[1..][j], "request") == Some(q);
        assert xs[j + 1] == xs[1..][j];
      }
      if exists j | 0 <= j < |xs| :: Reportable(xs[j], processed) && Field(xs[j], "request") == Some(q) {
        var j :| 0 <= j < |xs| && Reportable(xs[j], processed) && Field(xs[j], "request") == Some(q);
        if j > 0 {
          assert xs[1..][j - 1] == xs[j];
        }
      }
    }
  }

  /** One step of the loop: the first entry contributes its request exactly when it
      is reportable. */
  lemma NewRequestsStep(xs: seq<Json>, processed: set<Json>, q: Json)
    requires |xs| > 0 && NewRequests(xs, processed).Ok?
    ensures NewRequests(xs[1..], processed).Ok?
    ensures q in NewRequests(xs, processed).value <==>
      (Reportable(xs[0], processed) && Field(xs[0], "request") == Some(q)) || q in NewRequests(xs[1..], processed).value
  {
  }

  /** A listed request the print loop can show: `req['id']`, `req['message']`
      and `req['timestamp']` are all there. */
  predicate Printable(q: Json) {
    PySub(q, "id").Ok? && PySub(q, "message").Ok? && PySub(q, "timestamp").Ok?
  }

  predicate AllPrintable(qs: seq<Json>) {
    forall i | 0 <= i < |qs| :: Printable(qs[i])
  }

  /** The print loop over the new requests: it stops at the first request that
      lacks one of the three keys, with that key's error. */
  function PrintAll(qs: seq<Json>): (r: Result<seq<Json>, string>)
    ensures r.Ok? <==> AllPrintable(qs)
    ensures r.Ok? ==> r.value == qs
    decreases |qs|
  {
    if |qs| == 0 then Ok([])
    else
      var q := qs[0];
      if PySub(q, "id").Err? then Err(PySub(q, "id").error)
      else if PySub(q, "message").Err? then Err(PySub(q, "message").error)
      else if PySub(q, "timestamp").Err? then Err(PySub(q, "timestamp").error)
      else
        match PrintAll(qs[1..])
        case Err(e) => Err(e)
        case Ok(t) =>
          assert qs == [q] + qs[1..];
          Ok([q] + t)
  }

  /** `check_new_requests()`: the requests it lists; any failure, a missing file
      included, is printed and nothing is listed. The print loop runs inside the
      same `try`, so a listed request without a message or a timestamp makes the
      whole check fail after the earlier ones were printed. */
  function CheckNewRequests(h: Handler, read: Read): (r: Result<seq<Json>, string>)
    ensures !(read.Content? && read.parsed.Some?) ==> r.Err?
    ensures read.Content? && read.parsed.Some? && PyIter(read.parsed.value).Ok? &&
            NewRequests(PyIter(read.parsed.value).value, h.processedIds).Ok? ==>
      var qs := NewRequests(PyIter(read.parsed.value).value, h.processedIds).value;
      (r.Ok? <==> AllPrintable(qs)) && (r.Ok? ==> r.value == qs)
    ensures r.Ok? ==>
      (read.Content? && read.parsed.Some? && PyIter(read.parsed.value).Ok? &&
       NewRequests(PyIter(read.parsed.value).value, h.processedIds) == r)
  {
    match read
    case Content(_, Some(j)) =>
      (match PyIter(j)
       case Err(e) => Err(e)
       case Ok(xs) =>
         match NewRequests(xs, h.processedIds)
         case Err(e) => Err(e)
         case Ok(qs) => PrintAll(qs))
    case NoFile => Err("FileNotFoundError")
    case ReadFailed => Err("OSError")
    case Content(_, None) => Err("JSONDecodeError")
  }

  /** A new pending request without a message or a timestamp makes the whole
      check fail, so none of the new requests is listed. */
  lemma UnprintableFails(h: Handler, text: string, xs: seq<Json>, j: nat)
    requires NewRequests(xs, h.processedIds).Ok?
    requires j < |xs| && Reportable(xs[j], h.processedIds)
    requires !Printable(Field(xs[j], "request").value)
    ensures CheckNewRequests(h, Content(text, Some(Arr(xs)))).Err?
  {
    var q := Field(xs[j], "request").value;
    NewRequestsExact(xs, h.processedIds, q);
    var qs := NewRequests(xs, h.processedIds).value;
    var i :| 0 <= i < |qs| && qs[i] == q;
    assert !AllPrintable(qs);
  }

  /** `on_modified(event)`: only a change to the watched file triggers a check. */
  function OnModified(h: Handler, srcPath: string, read: Read): (r: Option<Result<seq<Json>, string>>)
    ensures r.Some? <==> srcPath == h.filePath
  {
    if srcPath == h.filePath then Some(CheckNewRequests(h, read)) else None
  }

  /** After the helper script marks a request processed, the monitor no longer
      lists it: every entry for that request has left the pending state. */
  lemma MarkedIsNotReported(xs: seq<Json>, requestId: Json, at: string, processed: set<Json>, j: nat)
    requires ClaudeProcess.MarkAll(xs, requestId, at).Ok?
    requires j < |xs| && PyRequestId(xs[j]) == Ok(requestId)
    ensures !Reportable(ClaudeProcess.MarkAll(xs, requestId, at).value[j], processed)
  {
    ClaudeProcess.MarkAllEvery(xs, requestId, at, j);
    MarkedNotPending(xs[j], at);
  }

  /** The monitor keeps no memory of what it reported: checking twice against the
      same file lists the same requests again. */
  lemma ReportsRepeat(h: Handler, read: Read, q: Json, xs: seq<Json>, text: string)
    requires read == Content(text, Some(Arr(xs)))
    requires CheckNewRequests(h, read).Ok?
    requires exists j | 0 <= j < |xs| :: Reportable(xs[j], h.processedIds) && Field(xs[j], "request") == Some(q)
    ensures q in CheckNewRequests(h, read).value
    ensures OnModified(h, h.filePath, read) == Some(CheckNewRequests(h, read))
  {
    NewRequestsExact(xs, h.processedIds, q);
  }
}
