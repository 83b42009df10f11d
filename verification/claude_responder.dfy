/** The server side of the hand-off to Claude Code: every new request gets a
    command file and a `pending` entry in the tracking file `claude_requests.json`;
    a five-second interval reminds clients over SSE while entries are pending.
    Every failure inside an operation is caught and logged, so an operation either
    completes or stops where it failed; the model reports what it wrote and what it
    broadcast. File reads and the outcome of each write are parameters. */
module ClaudeResponder {
  import opened Wrappers
  import opened Json
  import opened Text
  import opened Records
  import opened Http

  /** The reminder interval. */
  const CheckIntervalMillis: nat := 5000

  /** `start`/`stop` state: the running flag and the host's live intervals. */
  datatype Responder = Responder(running: bool, interval: Option<nat>, live: set<nat>, nextHandle: nat)

  function NewResponder(): (r: Responder)
    ensures !r.running && r.live == {}
  {
    Responder(false, None, {}, 0)
  }

  /** At most one reminder interval is live, and exactly one while running. */
  predicate Valid(r: Responder) {
    (forall h | h in r.live :: h < r.nextHandle) &&
    (r.running ==> r.interval.Some? && r.live == {r.interval.value}) &&
    (!r.running ==> r.live == {})
  }

  /** `start`: a no-op while running; otherwise sets the running flag and a new
      interval. */
  function Start(r: Responder): (r': Responder)
    ensures r'.running
    ensures r.running ==> r' == r
  {
    if r.running then r
    else r.(running := true, interval := Some(r.nextHandle), live := r.live + {r.nextHandle}, nextHandle := r.nextHandle + 1)
  }

  /** `stop`: clears the flag and the interval it last set. The field keeps the
      cleared handle, which is harmless: clearing it again does nothing. */
  function Stop(r: Responder): (r': Responder)
    ensures !r'.running
    ensures r.interval.Some? ==> r.interval.value !in r'.live
  {
    r.(running := false, live := if r.interval.Some? then r.live - {r.interval.value} else r.live)
  }

  lemma NewResponderValid()
    ensures Valid(NewResponder())
  {
  }

  /** Start and stop keep a single interval: starting twice never leaves two
      reminders running, and stopping leaves none. */
  lemma StartStopValid(r: Responder)
    requires Valid(r)
    ensures Valid(Start(r)) && Valid(Stop(r))
    ensures Start(Start(r)) == Start(r)
    ensures Stop(r).live == {}
  {
  }

  // ---------------------------------------------------------------------------
  // The tracking file as the server reads it
  // ---------------------------------------------------------------------------

  /** The list `addRequest` appends to: any read or parse failure is swallowed and
      treated as an empty list; a parsed value other than a list makes `push`
      throw. */
  function Tracked(read: Read): (r: Result<seq<Json>, string>)
    ensures read.NoFile? || read.ReadFailed? || (read.Content? && read.parsed.None?) ==> r == Ok([])
    ensures read.Content? && read.parsed.Some? && read.parsed.value.Arr? ==> r == Ok(read.parsed.value.items)
  {
    match read
    case Content(_, Some(Arr(xs))) => Ok(xs)
    case Content(_, Some(_)) => Err("TypeError: claudeRequests.push is not a function")
    case _ => Ok([])
  }

  /** The list the other two operations work on: here every failure counts. */
  function Parsed(read: Read): (r: Option<seq<Json>>)
    ensures r.Some? <==> read.Content? && read.parsed.Some? && read.parsed.value.Arr?
  {
    match read
    case Content(_, Some(Arr(xs))) => Some(xs)
    case _ => None
  }

  // ---------------------------------------------------------------------------
  // addRequest
  // ---------------------------------------------------------------------------

  /** What `addRequest` did: the command it wrote (id and message), the tracking
      list it wrote, and what it broadcast. A write that fails is not recorded as
      written. */
  datatype Added = Added(command: Option<(Option<Json>, Option<Json>)>, tracking: Option<seq<Json>>, notice: Option<Notice>)

  /** `{request_id, message, queue_length}`; an `undefined` id is dropped when the
      payload is serialised. */
  function QueuedNotice(request: Json, queueLength: nat): Notice {
    var id := if Field(request, "id").Some? then [("request_id", Field(request, "id").value)] else [];
    Notice("claude_request_queued",
      Obj(id + [("message", Str("Request queued for Claude Code processing")), ("queue_length", Num(queueLength))]))
  }

  /** `addRequest(request)`: does nothing unless running; writes the command file
      (`commandOk` says whether that write succeeded), appends a pending entry to
      the tracking list (`writeOk` says whether writing it back succeeded), then
      broadcasts the queue length. A `null` request throws before anything is
      written. */
  function AddRequest(running: bool, request: Json, commandOk: bool, read: Read, writeOk: bool, at: string): (a: Added)
    ensures !running || request.Null? || !commandOk ==> a == Added(None, None, None)
    ensures a.command.Some? <==> running && !request.Null? && commandOk
    ensures a.command.Some? ==> a.command.value == (Field(request, "id"), Field(request, "message"))
    ensures a.tracking.Some? <==> a.command.Some? && Tracked(read).Ok? && writeOk
    ensures a.notice.Some? <==> a.tracking.Some?
    ensures a.tracking.Some? ==> a.tracking.value == Tracked(read).value + [PendingEntry(request, at)]
  {
    if !running || request.Null? || !commandOk then Added(None, None, None)
    else
      var command := Some((Field(request, "id"), Field(request, "message")));
      match Tracked(read)
      case Err(_) => Added(command, None, None)
      case Ok(xs) =>
        var ys := xs + [PendingEntry(request, at)];
        if writeOk then Added(command, Some(ys), Some(QueuedNotice(request, |ys|)))
        else Added(command, None, None)
  }

  /** When everything succeeds the broadcast reports the new length of the list and
      the request's id. */
  lemma AddRequestQueues(request: Json, read: Read, at: string)
    requires request.Obj? && Tracked(read).Ok?
    ensures AddRequest(true, request, true, read, true, at).notice ==
      Some(QueuedNotice(request, |Tracked(read).value| + 1))
    ensures Field(QueuedNotice(request, |Tracked(read).value| + 1).data, "queue_length") == Some(Num(|Tracked(read).value| + 1))
    ensures Field(request, "id").Some? ==>
      Field(QueuedNotice(request, |Tracked(read).value| + 1).data, "request_id") == Field(request, "id")
  {
    var xs := Tracked(read).value;
    var ys := xs + [PendingEntry(request, at)];
    assert |ys| == |xs| + 1;
    assert AddRequest(true, request, true, read, true, at).notice == Some(QueuedNotice(request, |ys|));
    QueuedNoticeFields(request, |xs| + 1);
  }

  /** The queued notice carries the queue length and, when there is one, the id. */
  lemma QueuedNoticeFields(request: Json, n: nat)
    ensures Field(QueuedNotice(request, n).data, "queue_length") == Some(Num(n))
    ensures Field(request, "id").Some? ==> Field(QueuedNotice(request, n).data, "request_id") == Field(request, "id")
  {
    var m := [("message", Str("Request queued for Claude Code processing")), ("queue_length", Num(n))];
    assert "queue_length"[0] != "message"[0] && "queue_length"[0] != "request_id"[0];
    assert Get(m, "queue_length") == Get(m[1..], "queue_length") == Some(Num(n));
    if Field(request, "id").Some? {
      var fs := [("request_id", Field(request, "id").value)] + m;
      assert fs[1..] == m;
      assert Get(fs, "queue_length") == Get(m, "queue_length");
    } else {
      assert [] + m == m;
    }
  }

  // ---------------------------------------------------------------------------
  // checkPendingRequests
  // ---------------------------------------------------------------------------

  /** `claudeRequests.filter(r => r.status === 'pending').length`: throws on a
      `null` entry. */
  function PendingCount(xs: seq<Json>): (r: Result<nat, string>)
    ensures r.Err? <==> Null in xs
    ensures r.Ok? ==> r.value <= |xs|
    decreases |xs|
  {
    if |xs| == 0 then Ok(0)
    else
      match JsPending(xs[0])
      case Err(e) => Err(e)
      case Ok(p) =>
        match PendingCount(xs[1..])
        case Err(e) => Err(e)
        case Ok(n) => Ok(if p then n + 1 else n)
  }

  /** One for a pending entry, zero otherwise. */
  function Bit(x: Json): nat {
    if Field(x, "status") == Some(Str("pending")) then 1 else 0
  }

  /** The count is the number of entries whose status is `pending`. */
  function CountPending(xs: seq<Json>): nat
    decreases |xs|
  {
    if |xs| == 0 then 0 else Bit(xs[0]) + CountPending(xs[1..])
  }

  lemma {:induction false} PendingCountCounts(xs: seq<Json>)
    requires Null !in xs
    ensures PendingCount(xs) == Ok(CountPending(xs))
    decreases |xs|
  {
    if |xs| > 0 {
      PendingCountCounts(xs[1..]);
    }
  }

  lemma {:induction false} CountPendingAppend(xs: seq<Json>, ys: seq<Json>)
    ensures CountPending(xs + ys) == CountPending(xs) + CountPending(ys)
    decreases |xs|
  {
    if |xs| > 0 {
      assert (xs + ys)[1..] == xs[1..] + ys;
      CountPendingAppend(xs[1..], ys);
    } else {
      assert xs + ys == ys;
    }
  }

  /** The reminder text. */
  function PendingMessage(n: nat): string {
    Digits(n) + " requests are waiting for Claude Code to process"
  }

  /** `checkPendingRequests`: broadcasts the number of pending entries when it is
      positive; a missing or broken file, or a `null` entry, ends it quietly. */
  function CheckPending(read: Read): (n: Option<Notice>)
    ensures n.Some? ==> Parsed(read).Some? && PendingCount(Parsed(read).value).Ok? && PendingCount(Parsed(read).value).value > 0
    ensures Parsed(read).Some? && PendingCount(Parsed(read).value).Ok? && PendingCount(Parsed(read).value).value > 0 ==> n.Some?
  {
    match Parsed(read)
    case None => None
    case Some(xs) =>
      match PendingCount(xs)
      case Err(_) => None
      case Ok(c) =>
        if c > 0 then Some(Notice("claude_requests_pending", Obj([("count", Num(c)), ("message", Str(PendingMessage(c)))]))) else None
  }

  /** After a successful `addRequest` the next reminder counts the new entry. */
  lemma AddThenCheck(request: Json, xs: seq<Json>, text: string, at: string)
    requires request.Obj? && Null !in xs
    ensures AddRequest(true, request, true, Content(text, Some(Arr(xs))), true, at).tracking.Some?
    ensures
      var ys := AddRequest(true, request, true, Content(text, Some(Arr(xs))), true, at).tracking.value;
      CheckPending(Content(text, Some(Arr(ys)))) ==
        Some(Notice("claude_requests_pending", Obj([("count", Num(CountPending(xs) + 1)), ("message", Str(PendingMessage(CountPending(xs) + 1)))])))
  {
    var e := PendingEntry(request, at);
    var ys := xs + [e];
    assert AddRequest(true, request, true, Content(text, Some(Arr(xs))), true, at).tracking == Some(ys);
    CountPendingAppend(xs, [e]);
    assert CountPending([e]) == 1 by { assert [e][1..] == []; }
    assert Null !in ys;
    ReminderCounts(ys, text, CountPending(xs) + 1);
  }

  /** A readable list with `n > 0` pending entries gives a reminder with that count. */
  lemma ReminderCounts(xs: seq<Json>, text: string, n: nat)
    requires Null !in xs && CountPending(xs) == n && n > 0
    ensures CheckPending(Content(text, Some(Arr(xs)))) ==
      Some(Notice("claude_requests_pending", Obj([("count", Num(n)), ("message", Str(PendingMessage(n)))])))
  {
    PendingCountCounts(xs);
  }

  // ---------------------------------------------------------------------------
  // markRequestProcessed
  // ---------------------------------------------------------------------------

  /** `claudeRequests.findIndex(r => r.request.id === requestId)`. */
  function FindRequest(xs: seq<Json>, requestId: string): (r: Result<Option<nat>, string>)
    ensures r.Ok? && r.value.Some? ==> r.value.value < |xs| && JsIdIs(xs[r.value.value], requestId) == Ok(true)
    decreases |xs|
  {
    if |xs| == 0 then Ok(None)
    else
      match JsIdIs(xs[0], requestId)
      case Err(e) => Err(e)
      case Ok(true) => Ok(Some(0))
      case Ok(false) =>
        match FindRequest(xs[1..], requestId)
        case Err(e) => Err(e)
        case Ok(None) => Ok(None)
        case Ok(Some(i)) => Ok(Some(i + 1))
  }

  /** Entries before the one found do not carry the id. */
  lemma {:induction false} FindRequestFirst(xs: seq<Json>, requestId: string, j: nat)
    requires FindRequest(xs, requestId).Ok?
    ensures FindRequest(xs, requestId).value.Some? && j < FindRequest(xs, requestId).value.value ==>
      JsIdIs(xs[j], requestId) == Ok(false)
    ensures FindRequest(xs, requestId).value.None? && j < |xs| ==> JsIdIs(xs[j], requestId) == Ok(false)
    decreases |xs|
  {
    if |xs| > 0 && j > 0 && JsIdIs(xs[0], requestId) == Ok(false) {
      FindRequestFirst(xs[1..], requestId, j - 1);
    }
  }

  /** `markRequestProcessed(requestId)`: the tracking list to write back, if any.
      Only the first entry for the request is marked and no entry becomes
      pending; nothing is written when no entry matches or anything fails. */
  function MarkRequestProcessed(read: Read, requestId: string, at: string): (w: Option<seq<Json>>)
    ensures w.Some? ==> Parsed(read).Some? && |w.value| == |Parsed(read).value|
    ensures w.Some? ==> forall j | 0 <= j < |w.value| ::
      JsPending(w.value[j]) == Ok(true) ==> JsPending(Parsed(read).value[j]) == Ok(true)
  {
    match Parsed(read)
    case None => None
    case Some(xs) =>
      match FindRequest(xs, requestId)
      case Ok(Some(i)) => Some(xs[i := MarkProcessed(xs[i], at)])
      case _ => None
  }

  /** Replacing one entry changes the count by the difference of the two bits. */
  lemma CountPendingUpdate(xs: seq<Json>, i: nat, e: Json)
    requires i < |xs|
    ensures CountPending(xs[i := e]) + Bit(xs[i]) == CountPending(xs) + Bit(e)
  {
    var ys := xs[i := e];
    assert xs == xs[..i] + ([xs[i]] + xs[i + 1..]);
    assert ys == xs[..i] + ([e] + xs[i + 1..]);
    CountPendingAppend(xs[..i], [xs[i]] + xs[i + 1..]);
    CountPendingAppend(xs[..i], [e] + xs[i + 1..]);
    assert ([xs[i]] + xs[i + 1..])[1..] == xs[i + 1..];
    assert ([e] + xs[i + 1..])[1..] == xs[i + 1..];
  }

  /** Marking changes exactly the first matching entry, which stops being pending:
      the next reminder counts one fewer when that entry was pending. */
  lemma MarkThenCheck(xs: seq<Json>, text: string, requestId: string, at: string, i: nat)
    requires FindRequest(xs, requestId) == Ok(Some(i))
    ensures MarkRequestProcessed(Content(text, Some(Arr(xs))), requestId, at).Some?
    ensures
      var ys := MarkRequestProcessed(Content(text, Some(Arr(xs))), requestId, at).value;
      ys == xs[i := MarkProcessed(xs[i], at)] &&
      JsPending(ys[i]) == Ok(false) &&
      CountPending(ys) + Bit(xs[i]) == CountPending(xs)
  {
    var e := MarkProcessed(xs[i], at);
    assert Parsed(Content(text, Some(Arr(xs)))) == Some(xs);
    assert MarkRequestProcessed(Content(text, Some(Arr(xs))), requestId, at) == Some(xs[i := e]);
    MarkedNotPending(xs[i], at);
    CountPendingUpdate(xs, i, e);
  }

  // ---------------------------------------------------------------------------
  // The reminder interval
  // ---------------------------------------------------------------------------

  /** The host firing interval `h`: a live interval runs `checkPendingRequests`;
      a cleared one never fires. */
  function Reminder(r: Responder, h: nat, read: Read): (n: Option<Notice>)
    ensures h !in r.live ==> n.None?
  {
    if h in r.live then CheckPending(read) else None
  }

  /** A stopped responder sends no reminders, whatever the file holds. */
  lemma StoppedIsSilent(r: Responder, h: nat, read: Read)
    requires Valid(r)
    ensures Reminder(Stop(r), h, read).None?
  {
    StartStopValid(r);
  }
}
