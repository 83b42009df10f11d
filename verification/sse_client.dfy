/** The browser-side event-stream client (`SSEClient`): a backoff reconnect loop
    around one `EventSource`, plus a listener registry keyed by event type.

    The browser is modelled explicitly: the pending timers (`setTimeout` handles
    and their delays), the `EventSource` object with its own listener registry (an
    `addEventListener` of an already registered listener is ignored), and the calls
    made to listener callbacks, as a log. Events the browser delivers are inputs. */
module SseClient {
  import opened Wrappers
  import opened Json

  /** Upper bound of the reconnect delay, in milliseconds. */
  const MaxDelay := 30000

  datatype Options = Options(reconnectInterval: nat, maxReconnectAttempts: nat)

  /** The constructor's defaults, overridden by whatever the caller passes. */
  function Configure(interval: Option<nat>, maxAttempts: Option<nat>): (o: Options)
    ensures interval.None? ==> o.reconnectInterval == 3000
    ensures maxAttempts.None? ==> o.maxReconnectAttempts == 10
    ensures interval.Some? ==> o.reconnectInterval == interval.value
    ensures maxAttempts.Some? ==> o.maxReconnectAttempts == maxAttempts.value
  {
    Options(if interval.Some? then interval.value else 3000,
            if maxAttempts.Some? then maxAttempts.value else 10)
  }

  /** A callback passed to `on`, identified by its reference. */
  type Listener = nat

  /** What a listener is called with. */
  datatype Arg =
    | OpenEvent
    | ErrorEvent
    | MessageEvent(eventType: string, raw: string)
    | Data(value: Json)
    | ParseError
    | Attempt(n: nat)
    | NoArg

  datatype Call = Call(listener: Listener, arg: Arg)

  /** A listener registered on the `EventSource`: a callback, or the array object
      that `this.listeners` holds for a type (which is not callable). */
  datatype DomListener = Fn(l: Listener) | ListArray(eventType: string)

  datatype ReadyState = Connecting | Open | Closed

  datatype Source = Source(serial: nat, readyState: ReadyState, dom: map<string, seq<DomListener>>)

  /** The client's `reconnectTimer` together with the browser's table of pending
      timers (handle to delay) and the next handle it will hand out. */
  datatype Timers = Timers(reconnectTimer: Option<nat>, pending: map<nat, nat>, nextHandle: nat)

  datatype Agent = Agent(
    options: Options,
    source: Option<Source>,
    sourcesMade: nat,
    reconnectAttempts: nat,
    timer: Timers,
    listeners: map<string, seq<Listener>>,
    isConnected: bool,
    shouldReconnect: bool,
    calls: seq<Call>,
    scheduled: seq<nat>)

  /** `new SSEClient(url, options)`; timer handles start at 1, so every handle is
      truthy. */
  function NewClient(options: Options): Agent {
    Agent(options, None, 0, 0, Timers(None, map[], 1), map[], false, true, [], [])
  }

  /** Which of the two readings of `connect` the client follows. */
  datatype Build = Build(
    rearmOnConnect: bool,   // `connect` leaves reconnection enabled
    attachCallbacks: bool)  // `connect` registers each callback, not the array

  /** The code as written. */
  const AsWritten := Build(false, false)

  /** The evidently intended behaviour. */
  const Corrected := Build(true, true)

  datatype Input =
    | Connect(constructs: bool)            // `connect()`; false when `new EventSource` throws
    | Disconnect                           // `disconnect()`
    | On(eventType: string, l: Listener)   // `on(type, callback)`
    | Off(eventType: string, l: Listener)  // `off(type, callback)`
    | Fire(handle: nat, constructs: bool)  // a timer fires
    | Opened                               // the source opens
    | Failed(fatal: bool)                  // the source reports an error; fatal closes it
    | Event(eventType: string, raw: string, parsed: Option<Json>)  // a server event

  // ---------------------------------------------------------------------------
  // Helpers
  // ---------------------------------------------------------------------------

  function Pow2(k: nat): (p: nat)
    ensures p >= 1
  {
    if k == 0 then 1 else 2 * Pow2(k - 1)
  }

  /** `Math.min(reconnectInterval * 2 ** attempts, 30000)`. */
  function Backoff(interval: nat, attempts: nat): (d: nat)
    ensures d <= MaxDelay
    ensures d <= interval * Pow2(attempts)
    ensures d == MaxDelay || d == interval * Pow2(attempts)
  {
    Min(interval * Pow2(attempts), MaxDelay)
  }

  /** The types `on` keeps off the `EventSource`, because `emit` raises them. */
  predicate Special(t: string) {
    t == "connect" || t == "disconnect" || t == "error" || t == "message" || t == "reconnecting"
  }

  function ListenersOf(a: Agent, t: string): seq<Listener> {
    if t in a.listeners then a.listeners[t] else []
  }

  function CallsTo(ls: seq<Listener>, arg: Arg): (cs: seq<Call>)
    ensures |cs| == |ls|
    ensures forall i | 0 <= i < |ls| :: cs[i] == Call(ls[i], arg)
  {
    if |ls| == 0 then [] else [Call(ls[0], arg)] + CallsTo(ls[1..], arg)
  }

  /** `emit(type, arg)`: every listener of the type, in registration order; a
      listener that throws is caught, so the others are still called. */
  function Emit(a: Agent, t: string, arg: Arg): Agent {
    a.(calls := a.calls + CallsTo(ListenersOf(a, t), arg))
  }

  /** `emit` calls every listener of the type once, in registration order, with the
      same argument, and changes nothing else. */
  lemma EmitCalls(a: Agent, t: string, arg: Arg)
    ensures var r := Emit(a, t, arg);
      && r.(calls := a.calls) == a
      && |r.calls| == |a.calls| + |ListenersOf(a, t)|
      && r.calls[..|a.calls|] == a.calls
      && (forall i | 0 <= i < |ListenersOf(a, t)| :: r.calls[|a.calls| + i] == Call(ListenersOf(a, t)[i], arg))
  {
  }

  /** `addEventListener`: a registration that is already present is ignored. */
  function DomAdd(ls: seq<DomListener>, x: DomListener): (r: seq<DomListener>)
    ensures x in r
    ensures forall y :: y in r <==> y in ls || y == x
  {
    if x in ls then ls else ls + [x]
  }

  /** `removeEventListener`. */
  function DomRemove(ls: seq<DomListener>, x: DomListener): (r: seq<DomListener>)
    ensures forall y :: y in r <==> y in ls && y != x
  {
    if |ls| == 0 then []
    else if ls[0] == x then DomRemove(ls[1..], x)
    else [ls[0]] + DomRemove(ls[1..], x)
  }

  function DomOf(s: Source, t: string): seq<DomListener> {
    if t in s.dom then s.dom[t] else []
  }

  /** Registers each callback once, in order. */
  function AddEach(ls: seq<Listener>, acc: seq<DomListener>): (r: seq<DomListener>)
    ensures forall y :: y in r <==> y in acc || (y.Fn? && y.l in ls)
    decreases |ls|
  {
    if |ls| == 0 then acc else AddEach(ls[1..], DomAdd(acc, Fn(ls[0])))
  }

  /** The `EventSource` listener registry right after `connect`. */
  function Attach(listeners: map<string, seq<Listener>>, b: Build): map<string, seq<DomListener>> {
    if b.attachCallbacks then
      map t | t in listeners && !Special(t) :: AddEach(listeners[t], [])
    else
      map t | t in listeners :: [ListArray(t)]
  }

  /** `array.indexOf(x)` followed by `splice(index, 1)`. */
  function RemoveFirst(ls: seq<Listener>, l: Listener): (r: seq<Listener>)
    ensures l !in ls ==> r == ls
    ensures l in ls ==> |r| == |ls| - 1
    ensures multiset(r) == multiset(ls) - multiset{l}
  {
    if |ls| == 0 then []
    else
      assert ls == [ls[0]] + ls[1..];
      if ls[0] == l then ls[1..]
      else [ls[0]] + RemoveFirst(ls[1..], l)
  }

  // ---------------------------------------------------------------------------
  // Methods of the client
  // ---------------------------------------------------------------------------

  /** `clearTimeout(reconnectTimer)` when one is set; a handle that has already
      fired is no longer pending, so clearing it changes nothing. */
  function CancelReconnect(t: Timers): (r: Timers)
    ensures r.reconnectTimer == t.reconnectTimer && r.nextHandle == t.nextHandle
    ensures t.reconnectTimer.Some? ==> r.pending == t.pending - {t.reconnectTimer.value}
    ensures t.reconnectTimer.None? ==> r.pending == t.pending
  {
    if t.reconnectTimer.Some? then t.(pending := t.pending - {t.reconnectTimer.value}) else t
  }

  /** `reconnectTimer = setTimeout(callback, delay)`. */
  function Arm(t: Timers, delay: nat): (r: Timers)
    ensures r.reconnectTimer == Some(t.nextHandle) && r.nextHandle == t.nextHandle + 1
    ensures r.pending == t.pending[t.nextHandle := delay]
  {
    Timers(Some(t.nextHandle), t.pending[t.nextHandle := delay], t.nextHandle + 1)
  }

  /** `disconnect()`. */
  function DisconnectStep(a: Agent): (r: Agent)
    ensures r.source.None? && !r.isConnected && !r.shouldReconnect && r.timer.reconnectTimer.None?
    ensures r.timer.pending == CancelReconnect(a.timer).pending
    ensures r.calls == a.calls + CallsTo(ListenersOf(a, "disconnect"), NoArg)
    ensures r.listeners == a.listeners && r.reconnectAttempts == a.reconnectAttempts
  {
    var c := CancelReconnect(a.timer);
    var a1 := a.(shouldReconnect := false, timer := c.(reconnectTimer := None), source := None, isConnected := false);
    Emit(a1, "disconnect", NoArg)
  }

  /** `scheduleReconnect()`: cancel the previous timer (a no-op when it has already
      fired), then arm a fresh one with the backoff delay. What that means is
      proved elsewhere: the delay's bounds and growth in `Backoff` and
      `BackoffMonotone`, the single pending timer in `AtMostOneTimer`, and the
      one timer a failure arms in `FailureSchedules`. */
  function ScheduleReconnect(a: Agent): (r: Agent)
    ensures r.timer == Arm(CancelReconnect(a.timer), Backoff(a.options.reconnectInterval, a.reconnectAttempts))
    ensures r.scheduled == a.scheduled + [Backoff(a.options.reconnectInterval, a.reconnectAttempts)]
    ensures r.(timer := a.timer, scheduled := a.scheduled) == a
  {
    var delay := Backoff(a.options.reconnectInterval, a.reconnectAttempts);
    a.(timer := Arm(CancelReconnect(a.timer), delay), scheduled := a.scheduled + [delay])
  }

  /** `connect()`. */
  function ConnectStep(a: Agent, constructs: bool, b: Build): Agent {
    var a1 := if a.source.Some? then DisconnectStep(a) else a;
    var a2 := if b.rearmOnConnect then a1.(shouldReconnect := true) else a1;
    if !constructs then
      var a3 := Emit(a2, "error", ErrorEvent);
      if a3.shouldReconnect then ScheduleReconnect(a3) else a3
    else
      a2.(source := Some(Source(a2.sourcesMade, Connecting, Attach(a2.listeners, b))),
          sourcesMade := a2.sourcesMade + 1)
  }

  /** `on(type, callback)`. */
  function OnStep(a: Agent, t: string, l: Listener): (r: Agent)
    ensures ListenersOf(r, t) == ListenersOf(a, t) + [l]
    ensures forall u | u != t :: ListenersOf(r, u) == ListenersOf(a, u)
  {
    var a1 := a.(listeners := a.listeners[t := ListenersOf(a, t) + [l]]);
    if a1.source.Some? && !Special(t) then
      var s := a1.source.value;
      a1.(source := Some(s.(dom := s.dom[t := DomAdd(DomOf(s, t), Fn(l))])))
    else a1
  }

  /** `off(type, callback)`. */
  function OffStep(a: Agent, t: string, l: Listener): (r: Agent)
    ensures t in a.listeners ==> ListenersOf(r, t) == RemoveFirst(ListenersOf(a, t), l)
    ensures t !in a.listeners ==> r == a
    ensures forall u | u != t :: ListenersOf(r, u) == ListenersOf(a, u)
  {
    if t !in a.listeners then a
    else
      var a1 := a.(listeners := a.listeners[t := RemoveFirst(a.listeners[t], l)]);
      if a1.source.Some? then
        var s := a1.source.value;
        a1.(source := Some(s.(dom := s.dom[t := DomRemove(DomOf(s, t), Fn(l))])))
      else a1
  }

  /** The callbacks the `EventSource` itself calls for an event of type `t`. */
  function DomCalls(ls: seq<DomListener>, arg: Arg): seq<Call> {
    if |ls| == 0 then []
    else (if ls[0].Fn? then [Call(ls[0].l, arg)] else []) + DomCalls(ls[1..], arg)
  }

  /** Which handler property of the source an event type runs. */
  datatype Kind = OpenKind | ErrorKind | MessageKind | OtherKind

  function KindOf(t: string): Kind {
    if t == "open" then OpenKind
    else if t == "error" then ErrorKind
    else if t == "message" then MessageKind
    else OtherKind
  }

  /** `onopen`. */
  function OnOpen(a: Agent, arg: Arg): (r: Agent)
    requires a.source.Some?
    ensures r.timer == a.timer && r.isConnected && r.reconnectAttempts == 0
  {
    Emit(a.(isConnected := true, reconnectAttempts := 0,
            source := Some(a.source.value.(readyState := Open))), "connect", arg)
  }

  /** `onerror`: a fatal error closes the source, any other leaves the browser
      reconnecting it. */
  function OnError(a: Agent, arg: Arg, fatal: bool): (r: Agent)
    requires a.source.Some?
    ensures !r.isConnected && r.reconnectAttempts == a.reconnectAttempts
    ensures r.shouldReconnect == a.shouldReconnect
  {
    var e := Emit(a.(isConnected := false,
                     source := Some(a.source.value.(readyState := if fatal then Closed else Connecting))), "error", arg);
    if e.shouldReconnect && e.reconnectAttempts < e.options.maxReconnectAttempts then ScheduleReconnect(e) else e
  }

  /** `onmessage`: the data is parsed as JSON; a parse failure is reported as an
      `error`. */
  function OnMessage(a: Agent, parsed: Option<Json>): (r: Agent)
    ensures r.timer == a.timer
  {
    match parsed
    case Some(d) => Emit(a, "message", Data(d))
    case None => Emit(a, "error", ParseError)
  }

  /** After the handler property has run, the listeners registered on the source
      for type `t` are called in registration order. */
  function Deliver(a: Agent, s: Source, t: string, arg: Arg): (r: Agent)
    ensures r.(calls := a.calls) == a
  {
    a.(calls := a.calls + DomCalls(DomOf(s, t), arg))
  }

  /** An event of type `t` dispatched at the current source: first the handler
      property the client set for that type, then the listeners registered on
      the source. */
  function Dispatch(a: Agent, t: string, arg: Arg, parsed: Option<Json>, fatal: bool): Agent
    requires a.source.Some?
  {
    var a1 :=
      match KindOf(t)
      case OpenKind => OnOpen(a, arg)
      case ErrorKind => OnError(a, arg, fatal)
      case MessageKind => OnMessage(a, parsed)
      case OtherKind => a;
    Deliver(a1, a.source.value, t, arg)
  }

  /** The first half of the timer callback: the host forgets the timer, the
      attempt counter goes up and the `reconnecting` listeners hear the new count. */
  function Fired(a: Agent, h: nat): (r: Agent)
    ensures r.timer == a.timer.(pending := a.timer.pending - {h})
    ensures r.reconnectAttempts == a.reconnectAttempts + 1
  {
    var a1 := a.(timer := a.timer.(pending := a.timer.pending - {h}), reconnectAttempts := a.reconnectAttempts + 1);
    Emit(a1, "reconnecting", Attempt(a1.reconnectAttempts))
  }

  /** The timer callback of `scheduleReconnect`: a handle that is no longer
      pending (cleared, or already fired) does nothing. */
  function FireStep(a: Agent, h: nat, constructs: bool, b: Build): Agent {
    if h !in a.timer.pending then a else ConnectStep(Fired(a, h), constructs, b)
  }

  /** The source reports that the connection is open. */
  function OpenedStep(a: Agent): Agent {
    if a.source.Some? then Deliver(OnOpen(a, OpenEvent), a.source.value, "open", OpenEvent) else a
  }

  /** The source reports a failure; `fatal` when the browser closed it. */
  function FailedStep(a: Agent, fatal: bool): Agent {
    if a.source.Some? then Deliver(OnError(a, ErrorEvent, fatal), a.source.value, "error", ErrorEvent) else a
  }

  /** The server sends an event of type `t` with data `raw`; `parsed` is the
      outcome of `JSON.parse(raw)`. */
  function EventStep(a: Agent, t: string, raw: string, parsed: Option<Json>): Agent {
    if a.source.Some? then Dispatch(a, t, MessageEvent(t, raw), parsed, false) else a
  }

  /** One step of the client under build `b`. */
  function Apply(a: Agent, i: Input, b: Build): Agent {
    match i
    case Connect(constructs) => ConnectStep(a, constructs, b)
    case Disconnect => DisconnectStep(a)
    case On(t, l) => OnStep(a, t, l)
    case Off(t, l) => OffStep(a, t, l)
    case Fire(h, constructs) => FireStep(a, h, constructs, b)
    case Opened => OpenedStep(a)
    case Failed(fatal) => FailedStep(a, fatal)
    case Event(t, raw, parsed) => EventStep(a, t, raw, parsed)
  }

  function Run(a: Agent, inputs: seq<Input>, b: Build): Agent
    decreases |inputs|
  {
    if |inputs| == 0 then a else Run(Apply(a, inputs[0], b), inputs[1..], b)
  }

  lemma RunStep(a: Agent, i: Input, rest: seq<Input>, b: Build)
    ensures Run(a, [i] + rest, b) == Run(Apply(a, i, b), rest, b)
  {
    assert ([i] + rest)[1..] == rest;
  }

  /** `getConnectionStatus()`. */
  function ConnectionStatus(a: Agent): string {
    match a.source
    case None => "disconnected"
    case Some(s) =>
      match s.readyState
      case Connecting => "connecting"
      case Open => "connected"
      case Closed => "disconnected"
  }

  // ---------------------------------------------------------------------------
  // Backoff
  // ---------------------------------------------------------------------------

  /** With the default interval the delays run 3 s, 6 s, 12 s, 24 s, then stay at
      the 30 s ceiling. */
  lemma DefaultBackoff(k: nat)
    ensures Backoff(3000, 0) == 3000 && Backoff(3000, 1) == 6000
    ensures Backoff(3000, 2) == 12000 && Backoff(3000, 3) == 24000
    ensures k >= 4 ==> Backoff(3000, k) == MaxDelay
  {
    if k >= 4 {
      Pow2Monotone(4, k);
    }
  }

  lemma {:induction false} Pow2Monotone(j: nat, k: nat)
    requires j <= k
    ensures Pow2(j) <= Pow2(k)
    decreases k
  {
    if j < k {
      Pow2Monotone(j, k - 1);
    }
  }

  /** The delay never shrinks as attempts accumulate. */
  lemma BackoffMonotone(interval: nat, j: nat, k: nat)
    requires j <= k
    ensures Backoff(interval, j) <= Backoff(interval, k)
  {
    Pow2Monotone(j, k);
    assert interval * Pow2(j) <= interval * Pow2(k) by {
      MulMonotone(interval, Pow2(j), Pow2(k));
    }
  }

  lemma MulMonotone(a: nat, x: nat, y: nat)
    requires x <= y
    ensures a * x <= a * y
  {
  }

  // ---------------------------------------------------------------------------
  // At most one reconnect pending
  // ---------------------------------------------------------------------------

  /** Every pending timer is the one `reconnectTimer` names, and handles are fresh. */
  ghost predicate TimersOk(t: Timers) {
    && (forall h | h in t.pending :: t.reconnectTimer == Some(h))
    && (t.reconnectTimer.Some? ==> t.reconnectTimer.value < t.nextHandle)
  }

  ghost predicate Valid(a: Agent) {
    TimersOk(a.timer)
  }

  lemma NewClientValid(o: Options)
    ensures Valid(NewClient(o))
  {
  }

  /** Under the invariant at most one reconnect is ever pending. */
  lemma AtMostOneTimer(a: Agent)
    requires Valid(a)
    ensures |a.timer.pending.Keys| <= 1
  {
    var t := a.timer;
    if t.reconnectTimer.Some? && t.reconnectTimer.value in t.pending {
      assert t.pending.Keys == {t.reconnectTimer.value};
    } else {
      assert t.pending.Keys == {};
    }
  }

  lemma ArmOk(t: Timers, delay: nat)
    requires TimersOk(t)
    ensures TimersOk(Arm(CancelReconnect(t), delay))
    ensures Arm(CancelReconnect(t), delay).pending == map[t.nextHandle := delay]
  {
  }

  lemma DropOk(t: Timers, h: nat)
    requires TimersOk(t)
    ensures TimersOk(t.(pending := t.pending - {h}))
  {
  }

  lemma DisconnectValid(a: Agent)
    requires Valid(a)
    ensures Valid(DisconnectStep(a)) && DisconnectStep(a).timer.pending == map[]
  {
  }

  lemma ConnectValid(a: Agent, constructs: bool, b: Build)
    requires Valid(a)
    ensures Valid(ConnectStep(a, constructs, b))
  {
    var a1 := if a.source.Some? then DisconnectStep(a) else a;
    if a.source.Some? {
      DisconnectValid(a);
    }
    ArmOk(a1.timer, Backoff(a1.options.reconnectInterval, a1.reconnectAttempts));
  }

  lemma DispatchValid(a: Agent, t: string, arg: Arg, parsed: Option<Json>, fatal: bool)
    requires Valid(a) && a.source.Some?
    ensures Valid(Dispatch(a, t, arg, parsed, fatal))
  {
    ArmOk(a.timer, Backoff(a.options.reconnectInterval, a.reconnectAttempts));
  }

  lemma FireValid(a: Agent, h: nat, constructs: bool, b: Build)
    requires Valid(a)
    ensures Valid(FireStep(a, h, constructs, b))
  {
    if h in a.timer.pending {
      var a2 := Fired(a, h);
      DropOk(a.timer, h);
      ConnectValid(a2, constructs, b);
    }
  }

  /** Every step of the client keeps at most one reconnect pending. */
  lemma ApplyValid(a: Agent, i: Input, b: Build)
    requires Valid(a)
    ensures Valid(Apply(a, i, b))
  {
    match i
    case Connect(constructs) => ConnectValid(a, constructs, b);
    case Disconnect => DisconnectValid(a);
    case On(t, l) =>
    case Off(t, l) =>
    case Fire(h, constructs) => FireValid(a, h, constructs, b);
    case Opened =>
    case Failed(fatal) =>
      if a.source.Some? {
        ArmOk(a.timer, Backoff(a.options.reconnectInterval, a.reconnectAttempts));
      }
    case Event(t, raw, parsed) =>
      if a.source.Some? {
        DispatchValid(a, t, MessageEvent(t, raw), parsed, false);
      }
  }

  lemma {:induction false} RunValid(a: Agent, inputs: seq<Input>, b: Build)
    requires Valid(a)
    ensures Valid(Run(a, inputs, b))
    decreases |inputs|
  {
    if |inputs| > 0 {
      ApplyValid(a, inputs[0], b);
      RunValid(Apply(a, inputs[0], b), inputs[1..], b);
    }
  }

  /** After `disconnect` nothing is pending, so no timer can bring the client back. */
  lemma DisconnectQuiesces(a: Agent, h: nat, constructs: bool, b: Build)
    requires Valid(a)
    ensures var r := DisconnectStep(a);
      && r.timer.pending == map[] && r.source.None? && !r.isConnected
      && FireStep(r, h, constructs, b) == r
      && ConnectionStatus(r) == "disconnected"
  {
    DisconnectValid(a);
  }

  /** An open event marks the client connected, resets the attempt counter and
      calls the `connect` listeners in order. */
  lemma OpenResets(a: Agent)
    requires a.source.Some?
    ensures var r := OpenedStep(a);
      && r.isConnected && r.reconnectAttempts == 0 && ConnectionStatus(r) == "connected"
      && r.calls[..|a.calls| + |ListenersOf(a, "connect")|] == a.calls + CallsTo(ListenersOf(a, "connect"), OpenEvent)
  {
    var o := OnOpen(a, OpenEvent);
    assert o.calls == a.calls + CallsTo(ListenersOf(a, "connect"), OpenEvent);
  }

  /** An unnamed server event goes to `onmessage`: data that parses reaches every
      `message` listener, in registration order, as the parsed value; data that
      does not parse reaches the `error` listeners instead. Then the listeners on
      the source for `message` run. Nothing but the call log changes, so the
      timers, the flags and the status are as before. */
  lemma MessageReachesListeners(a: Agent, raw: string, parsed: Option<Json>)
    requires a.source.Some?
    ensures var r := EventStep(a, "message", raw, parsed);
      var dom := DomCalls(DomOf(a.source.value, "message"), MessageEvent("message", raw));
      && r.(calls := a.calls) == a
      && ConnectionStatus(r) == ConnectionStatus(a)
      && (parsed.Some? ==> r.calls == a.calls + CallsTo(ListenersOf(a, "message"), Data(parsed.value)) + dom)
      && (parsed.None? ==> r.calls == a.calls + CallsTo(ListenersOf(a, "error"), ParseError) + dom)
  {
    assert KindOf("message") == MessageKind;
  }

  // ---------------------------------------------------------------------------
  // Listener registry
  // ---------------------------------------------------------------------------

  /** `off` undoes `on`: when the callback was not already registered for the type
      the list comes back unchanged; otherwise the same callbacks remain with the
      same multiplicities. Other types are untouched. */
  lemma OnOffRoundTrip(a: Agent, t: string, l: Listener)
    ensures var r := OffStep(OnStep(a, t, l), t, l);
      && multiset(ListenersOf(r, t)) == multiset(ListenersOf(a, t))
      && (forall u | u != t :: ListenersOf(r, u) == ListenersOf(a, u))
      && (l !in ListenersOf(a, t) ==> ListenersOf(r, t) == ListenersOf(a, t))
  {
    var ls := ListenersOf(a, t);
    assert multiset(ls + [l]) == multiset(ls) + multiset{l};
    if l !in ls {
      RemoveFirstAppended(ls, l);
    }
  }

  lemma {:induction false} RemoveFirstAppended(ls: seq<Listener>, l: Listener)
    requires l !in ls
    ensures RemoveFirst(ls + [l], l) == ls
    decreases |ls|
  {
    if |ls| == 0 {
      assert ls + [l] == [l];
    } else {
      assert (ls + [l])[0] == ls[0] && (ls + [l])[1..] == ls[1..] + [l];
      RemoveFirstAppended(ls[1..], l);
      assert ls == [ls[0]] + ls[1..];
    }
  }

  lemma {:induction false} DomCallsReach(ls: seq<DomListener>, l: Listener, arg: Arg)
    requires Fn(l) in ls
    ensures Call(l, arg) in DomCalls(ls, arg)
    decreases |ls|
  {
    if ls[0] != Fn(l) {
      DomCallsReach(ls[1..], l, arg);
    }
  }

  lemma {:induction false} DomCallsNone(ls: seq<DomListener>, arg: Arg)
    requires forall x | x in ls :: x.ListArray?
    ensures DomCalls(ls, arg) == []
    decreases |ls|
  {
    if |ls| > 0 {
      assert ls[0] in ls;
      assert forall x | x in ls[1..] :: x in ls;
      DomCallsNone(ls[1..], arg);
    }
  }

  /** A callback registered with `on` while a source is open reaches that source,
      whichever build. */
  lemma OnWhileConnected(a: Agent, t: string, l: Listener)
    requires a.source.Some? && !Special(t)
    ensures Fn(l) in DomOf(OnStep(a, t, l).source.value, t)
  {
  }

  // ---------------------------------------------------------------------------
  // Finding: connect attaches the listener arrays
  // ---------------------------------------------------------------------------

  /** As written, the source `connect` creates carries only the listener arrays,
      which are not callable: no named event reaches any callback registered before
      the connection was made. */
  lemma AsWrittenSourceIsDeaf(a: Agent, t: string, arg: Arg)
    ensures var s := ConnectStep(a, true, AsWritten).source.value;
      DomCalls(DomOf(s, t), arg) == []
  {
    var a1 := if a.source.Some? then DisconnectStep(a) else a;
    var s := ConnectStep(a, true, AsWritten).source.value;
    assert s.dom == map u | u in a1.listeners :: [ListArray(u)];
    DomCallsNone(DomOf(s, t), arg);
  }

  /** The concrete case: a `request_created` listener registered before `connect`
      is never called when the server sends `request_created`. */
  lemma AsWrittenMissesNamedEvent(raw: string)
    ensures var a := Run(NewClient(Configure(None, None)),
                         [On("request_created", 7), Connect(true), Event("request_created", raw, None)], AsWritten);
      a.calls == []
  {
    var t := "request_created";
    assert t[0] == 'r';
    assert KindOf(t) == OtherKind && !Special(t);
    var a0 := NewClient(Configure(None, None));
    var a1 := Apply(a0, On(t, 7), AsWritten);
    assert a1.calls == [] && a1.source.None?;
    var a2 := Apply(a1, Connect(true), AsWritten);
    assert a2.calls == [];
    AsWrittenSourceIsDeaf(a1, t, MessageEvent(t, raw));
    var a3 := Apply(a2, Event(t, raw, None), AsWritten);
    assert a3.calls == a2.calls + DomCalls(DomOf(a2.source.value, t), MessageEvent(t, raw));
    assert Run(a0, [On(t, 7), Connect(true), Event(t, raw, None)], AsWritten) == Run(a1, [Connect(true), Event(t, raw, None)], AsWritten);
    assert Run(a1, [Connect(true), Event(t, raw, None)], AsWritten) == Run(a2, [Event(t, raw, None)], AsWritten);
    assert Run(a2, [Event(t, raw, None)], AsWritten) == a3;
  }

  lemma AttachCorrected(listeners: map<string, seq<Listener>>, t: string)
    requires t in listeners && !Special(t)
    ensures t in Attach(listeners, Corrected)
    ensures forall l | l in listeners[t] :: Fn(l) in Attach(listeners, Corrected)[t]
  {
  }

  /** Corrected, every callback registered for a server event type before
      `connect` is registered on the new source, so the next such event calls it. */
  lemma CorrectedDeliversNamedEvent(a: Agent, t: string, l: Listener, raw: string)
    requires !Special(t) && t != "open" && l in ListenersOf(a, t)
    ensures var c := ConnectStep(a, true, Corrected);
      && Fn(l) in DomOf(c.source.value, t)
      && Call(l, MessageEvent(t, raw)) in EventStep(c, t, raw, None).calls
  {
    var a1 := if a.source.Some? then DisconnectStep(a) else a;
    assert a1.listeners == a.listeners;
    var c := ConnectStep(a, true, Corrected);
    AttachCorrected(a.listeners, t);
    assert c.source.value.dom == Attach(a.listeners, Corrected);
    var ds := DomOf(c.source.value, t);
    assert Fn(l) in ds;
    DomCallsReach(ds, l, MessageEvent(t, raw));
    assert KindOf(t) == OtherKind;
    assert EventStep(c, t, raw, None).calls == c.calls + DomCalls(ds, MessageEvent(t, raw));
  }

  // ---------------------------------------------------------------------------
  // Finding: connect switches reconnection off for good
  // ---------------------------------------------------------------------------

  /** One failure of the open source followed by the timer it arms. */
  function Cycle(a: Agent, b: Build): Agent {
    FireStep(FailedStep(a, false), a.timer.nextHandle, true, b)
  }

  /** The state the reconnect loop starts each cycle from. */
  predicate Retrying(a: Agent) {
    && a.source.Some? && a.shouldReconnect && a.timer.pending == map[]
    && a.reconnectAttempts < a.options.maxReconnectAttempts
  }

  /** A failure below the attempt cap arms exactly one timer with the backoff delay. */
  lemma FailureSchedules(a: Agent)
    requires Retrying(a)
    ensures var r := FailedStep(a, false);
      && r.timer.pending == map[a.timer.nextHandle := Backoff(a.options.reconnectInterval, a.reconnectAttempts)]
      && r.scheduled == a.scheduled + [Backoff(a.options.reconnectInterval, a.reconnectAttempts)]
      && r.reconnectAttempts == a.reconnectAttempts && r.shouldReconnect && r.options == a.options
      && r.source.Some? && r.listeners == a.listeners
      && r.timer.reconnectTimer == Some(a.timer.nextHandle) && r.timer.nextHandle == a.timer.nextHandle + 1
  {
  }

  /** A failure at the cap, or with reconnection switched off, arms nothing. */
  lemma FailureAtCapIsFinal(a: Agent)
    requires a.source.Some?
    requires !a.shouldReconnect || a.reconnectAttempts >= a.options.maxReconnectAttempts
    ensures var r := FailedStep(a, false);
      r.timer == a.timer && r.scheduled == a.scheduled && !r.isConnected
  {
  }

  /** The reconnect the timer performs. */
  lemma FireReconnects(a: Agent, b: Build)
    requires a.source.Some? && a.timer.reconnectTimer == Some(a.timer.nextHandle - 1)
    requires a.timer.pending.Keys == {a.timer.nextHandle - 1}
    ensures var r := FireStep(a, a.timer.nextHandle - 1, true, b);
      && r.reconnectAttempts == a.reconnectAttempts + 1
      && r.source.Some? && r.timer.pending == map[] && r.options == a.options
      && r.shouldReconnect == b.rearmOnConnect && r.scheduled == a.scheduled
  {
    var h := a.timer.nextHandle - 1;
    var a2 := Fired(a, h);
    assert a2.timer.pending == map[];
  }

  /** When `new EventSource` throws, `connect` reports the error to the `error`
      listeners and, with reconnection on, schedules a reconnect; unlike a failure
      of an open source, it does not compare the attempt count with the cap. */
  lemma ConstructorFailureRetries(a: Agent, b: Build)
    requires a.source.None? && a.shouldReconnect
    ensures var r := ConnectStep(a, false, b);
      && r.calls == a.calls + CallsTo(ListenersOf(a, "error"), ErrorEvent)
      && r.timer == Arm(CancelReconnect(a.timer), Backoff(a.options.reconnectInterval, a.reconnectAttempts))
      && r.scheduled == a.scheduled + [Backoff(a.options.reconnectInterval, a.reconnectAttempts)]
      && r.source.None? && r.shouldReconnect && r.reconnectAttempts == a.reconnectAttempts
  {
  }

  /** `n` timer firings in a row, each of whose reconnects fails to construct
      the source. */
  function FailedFires(a: Agent, n: nat, b: Build): Agent
    decreases n
  {
    if n == 0 || a.timer.reconnectTimer.None? then a
    else FailedFires(FireStep(a, a.timer.reconnectTimer.value, false, b), n - 1, b)
  }

  /** A source that never constructs is retried without end: after any number of
      failed reconnects, past the attempt cap too, a reconnect is still pending. */
  lemma {:induction false} ConstructorFailureNeverStops(a: Agent, n: nat, b: Build)
    requires a.source.None? && a.shouldReconnect
    requires a.timer.reconnectTimer.Some? && a.timer.reconnectTimer.value in a.timer.pending
    ensures var r := FailedFires(a, n, b);
      && r.reconnectAttempts == a.reconnectAttempts + n
      && r.source.None? && r.shouldReconnect && r.options == a.options
      && r.timer.reconnectTimer.Some? && r.timer.reconnectTimer.value in r.timer.pending
    decreases n
  {
    if n > 0 {
      var h := a.timer.reconnectTimer.value;
      var a1 := Fired(a, h);
      ConstructorFailureRetries(a1, b);
      ConstructorFailureNeverStops(ConnectStep(a1, false, b), n - 1, b);
    }
  }

  /** As written, the reconnect that the timer performs calls `disconnect`, which
      clears `shouldReconnect`; the next failure then arms nothing, however far
      below the cap the attempt count is. */
  lemma AsWrittenCycleStops(a: Agent)
    requires Retrying(a)
    ensures var r := Cycle(a, AsWritten);
      && r.reconnectAttempts == a.reconnectAttempts + 1
      && !r.shouldReconnect && r.timer.pending == map[]
      && FailedStep(r, false).scheduled == r.scheduled
  {
    FailureSchedules(a);
    var a1 := FailedStep(a, false);
    FireReconnects(a1, AsWritten);
    FailureAtCapIsFinal(Cycle(a, AsWritten));
  }

  /** The concrete trace with default options: after the first timer-driven
      reconnect fails, one attempt of ten has been used and nothing is pending. */
  lemma AsWrittenGivesUpAfterOneRetry(a0: Agent)
    requires a0 == NewClient(Configure(None, None))
    ensures var a := Run(a0, [Connect(true), Failed(false), Fire(1, true), Failed(false)], AsWritten);
      && a.reconnectAttempts == 1 && a.options.maxReconnectAttempts == 10
      && a.timer.pending == map[] && a.scheduled == [3000]
  {
    var a1 := ConnectStep(a0, true, AsWritten);
    assert a1.source.Some? && a1.shouldReconnect && a1.scheduled == [] && a1.reconnectAttempts == 0;
    assert a1.timer == Timers(None, map[], 1) && a1.options == Options(3000, 10);
    AsWrittenCycleStops(a1);
    DefaultBackoff(0);
    var a2 := FailedStep(a1, false);
    var a3 := FireStep(a2, 1, true, AsWritten);
    assert a3 == Cycle(a1, AsWritten);
    FailureAtCapIsFinal(a3);
    var a4 := FailedStep(a3, false);
    var s3: seq<Input> := [Failed(false)];
    var s2 := [Fire(1, true)] + s3;
    var s1 := [Failed(false)] + s2;
    var s0 := [Connect(true)] + s1;
    assert s0 == [Connect(true), Failed(false), Fire(1, true), Failed(false)];
    RunStep(a3, Failed(false), [], AsWritten);
    assert [Failed(false)] + [] == s3;
    assert Run(a3, s3, AsWritten) == a4;
    RunStep(a2, Fire(1, true), s3, AsWritten);
    assert Run(a2, s2, AsWritten) == a4;
    RunStep(a1, Failed(false), s2, AsWritten);
    assert Run(a1, s1, AsWritten) == a4;
    RunStep(a0, Connect(true), s1, AsWritten);
    assert Run(a0, s0, AsWritten) == a4;
  }

  /** Corrected, a cycle uses one attempt, consumes its timer, and leaves the
      client retrying with a fresh source. */
  lemma CorrectedCycleContinues(a: Agent)
    requires Retrying(a)
    ensures var r := Cycle(a, Corrected);
      && r.reconnectAttempts == a.reconnectAttempts + 1
      && r.shouldReconnect && r.source.Some? && r.timer.pending == map[]
      && r.scheduled == a.scheduled + [Backoff(a.options.reconnectInterval, a.reconnectAttempts)]
      && r.options == a.options
  {
    FailureSchedules(a);
    var a1 := FailedStep(a, false);
    FireReconnects(a1, Corrected);
  }

  /** The delays of `n` consecutive cycles starting at attempt `k`. */
  function Delays(interval: nat, k: nat, n: nat): (ds: seq<nat>)
    ensures |ds| == n
    decreases n
  {
    if n == 0 then [] else [Backoff(interval, k)] + Delays(interval, k + 1, n - 1)
  }

  lemma DelaysStep(s: seq<nat>, interval: nat, k: nat, n: nat)
    requires n > 0
    ensures s + [Backoff(interval, k)] + Delays(interval, k + 1, n - 1) == s + Delays(interval, k, n)
  {
  }

  function Cycles(a: Agent, n: nat, b: Build): Agent
    decreases n
  {
    if n == 0 then a else Cycles(Cycle(a, b), n - 1, b)
  }

  /** Corrected, the client retries up to the cap with the doubling delays. */
  lemma {:induction false} CorrectedRetriesUntilCap(a: Agent, n: nat)
    requires a.source.Some? && a.shouldReconnect && a.timer.pending == map[]
    requires a.reconnectAttempts + n <= a.options.maxReconnectAttempts
    ensures var r := Cycles(a, n, Corrected);
      && r.timer.pending == map[] && r.source.Some? && r.shouldReconnect && r.options == a.options
      && r.reconnectAttempts == a.reconnectAttempts + n
      && r.scheduled == a.scheduled + Delays(a.options.reconnectInterval, a.reconnectAttempts, n)
    decreases n
  {
    var i := a.options.reconnectInterval;
    if n == 0 {
      assert a.scheduled + Delays(i, a.reconnectAttempts, 0) == a.scheduled;
    } else {
      CorrectedCycleContinues(a);
      var a1 := Cycle(a, Corrected);
      CorrectedRetriesUntilCap(a1, n - 1);
      var r := Cycles(a1, n - 1, Corrected);
      assert Cycles(a, n, Corrected) == r;
      var k := a.reconnectAttempts;
      assert a1.options == a.options && a1.reconnectAttempts == k + 1;
      assert r.reconnectAttempts == k + 1 + (n - 1);
      assert r.scheduled == a.scheduled + [Backoff(i, k)] + Delays(i, k + 1, n - 1);
      DelaysStep(a.scheduled, i, k, n);
    }
  }
}
