/** The broadcast registry (`SSEManager`): the live connections in insertion order,
    the per-id backlog of undeliverable messages, the heartbeat switch, and the
    observable effects (frames written, connections ended, `clientConnected` and
    `clientDisconnected` notifications) as append-only logs. */
module SseManager {
  import opened Wrappers
  import opened Json
  import opened Clock
  import opened SseFormat

  /** Messages kept per backlog. */
  const QueueCapacity := 50

  /** Period of the heartbeat broadcast, in milliseconds. */
  const HeartbeatIntervalMillis := 30000

  /** A registered connection; the transport itself is not modelled. */
  datatype Client = Client(id: string, connected: bool, connectedAt: nat)

  /** A message waiting for a connection that is not registered. */
  datatype Queued = Queued(eventType: string, data: Json, timestamp: nat)

  /** What the manager does to a transport. */
  datatype Wire = Write(to: string, frame: Frame) | End(to: string)

  /** What the manager emits to its own listeners. */
  datatype Notice = ClientConnected(id: string) | ClientDisconnected(id: string)

  datatype Manager = Manager(
    clients: seq<Client>,
    queues: map<string, seq<Queued>>,
    heartbeatOn: bool,
    wire: seq<Wire>,
    notices: seq<Notice>)

  /** A freshly constructed manager: nothing registered, heartbeat timer running. */
  const Initial := Manager([], map[], true, [], [])

  // ---------------------------------------------------------------------------
  // The registry as an insertion-ordered map
  // ---------------------------------------------------------------------------

  /** The registered ids in registry order. */
  function Ids(cs: seq<Client>): (ids: seq<string>)
    ensures |ids| == |cs|
  {
    if |cs| == 0 then [] else [cs[0].id] + Ids(cs[1..])
  }

  /** `clients.has(id)`. */
  predicate Has(cs: seq<Client>, id: string)
    decreases |cs|
  {
    |cs| > 0 && (cs[0].id == id || Has(cs[1..], id))
  }

  /** No id is registered twice. */
  predicate Unique(cs: seq<Client>)
    decreases |cs|
  {
    |cs| == 0 || (!Has(cs[1..], cs[0].id) && Unique(cs[1..]))
  }

  predicate AllConnected(cs: seq<Client>)
    decreases |cs|
  {
    |cs| == 0 || (cs[0].connected && AllConnected(cs[1..]))
  }

  /** `clients.get(id)`. */
  function Lookup(cs: seq<Client>, id: string): (r: Option<Client>)
    ensures r.Some? <==> Has(cs, id)
    ensures r.Some? ==> r.value.id == id
    decreases |cs|
  {
    if |cs| == 0 then None
    else if cs[0].id == id then Some(cs[0])
    else Lookup(cs[1..], id)
  }

  /** `clients.set(c.id, c)`: an existing entry is replaced where it stands, a new
      one goes last. */
  function Put(cs: seq<Client>, c: Client): (r: seq<Client>)
    ensures Lookup(r, c.id) == Some(c)
    decreases |cs|
  {
    if |cs| == 0 then [c]
    else if cs[0].id == c.id then [c] + cs[1..]
    else [cs[0]] + Put(cs[1..], c)
  }

  /** The clients whose ids are not listed in `gone`, in registry order. */
  function Without(cs: seq<Client>, gone: seq<string>): (r: seq<Client>)
    ensures |r| <= |cs|
    decreases |cs|
  {
    if |cs| == 0 then []
    else if cs[0].id in gone then Without(cs[1..], gone)
    else [cs[0]] + Without(cs[1..], gone)
  }

  /** `clients.delete(id)`. */
  function Delete(cs: seq<Client>, id: string): seq<Client> {
    Without(cs, [id])
  }

  predicate Registered(m: Manager, id: string) {
    Has(m.clients, id)
  }

  function Backlog(m: Manager, id: string): seq<Queued> {
    if id in m.queues then m.queues[id] else []
  }

  /** The invariant every public operation keeps: ids are unique, every registered
      connection is live, backlogs are non-empty and bounded, and a registered id has
      no backlog. */
  ghost predicate Valid(m: Manager) {
    && Unique(m.clients)
    && AllConnected(m.clients)
    && (forall id | id in m.queues :: 0 < |m.queues[id]| <= QueueCapacity && !Has(m.clients, id))
  }

  lemma InitialValid()
    ensures Valid(Initial)
  {
  }

  // ---------------------------------------------------------------------------
  // Registry lemmas
  // ---------------------------------------------------------------------------

  lemma {:induction false} HasIds(cs: seq<Client>, id: string)
    ensures Has(cs, id) <==> id in Ids(cs)
    decreases |cs|
  {
    if |cs| > 0 {
      HasIds(cs[1..], id);
      assert Ids(cs) == [cs[0].id] + Ids(cs[1..]);
    }
  }

  lemma {:induction false} HasMember(cs: seq<Client>, c: Client)
    requires c in cs
    ensures Has(cs, c.id)
    decreases |cs|
  {
    if cs[0] != c {
      assert c in cs[1..];
      HasMember(cs[1..], c);
    }
  }

  lemma {:induction false} LookupConnected(cs: seq<Client>, id: string)
    requires AllConnected(cs) && Has(cs, id)
    ensures Lookup(cs, id).value.connected
    decreases |cs|
  {
    if cs[0].id != id {
      LookupConnected(cs[1..], id);
    }
  }

  lemma {:induction false} PutHas(cs: seq<Client>, c: Client, x: string)
    ensures Has(Put(cs, c), x) <==> Has(cs, x) || x == c.id
    decreases |cs|
  {
    if |cs| > 0 && cs[0].id != c.id {
      PutHas(cs[1..], c, x);
    }
  }

  lemma {:induction false} PutValid(cs: seq<Client>, c: Client)
    requires Unique(cs) && AllConnected(cs) && c.connected
    ensures Unique(Put(cs, c)) && AllConnected(Put(cs, c))
    decreases |cs|
  {
    if |cs| > 0 {
      if cs[0].id != c.id {
        PutValid(cs[1..], c);
        PutHas(cs[1..], c, cs[0].id);
      }
    }
  }

  /** `Map.set` keeps the key order: a known key stays where it is, a new key goes
      last. */
  lemma {:induction false} PutIds(cs: seq<Client>, c: Client)
    ensures Has(cs, c.id) ==> Ids(Put(cs, c)) == Ids(cs)
    ensures !Has(cs, c.id) ==> Ids(Put(cs, c)) == Ids(cs) + [c.id]
    decreases |cs|
  {
    if |cs| > 0 {
      assert Ids(cs) == [cs[0].id] + Ids(cs[1..]);
      if cs[0].id != c.id {
        PutIds(cs[1..], c);
        assert Ids(Put(cs, c)) == [cs[0].id] + Ids(Put(cs[1..], c));
      } else {
        assert Ids(Put(cs, c)) == [c.id] + Ids(cs[1..]);
      }
    }
  }

  lemma {:induction false} WithoutHas(cs: seq<Client>, gone: seq<string>, x: string)
    ensures Has(Without(cs, gone), x) <==> Has(cs, x) && x !in gone
    decreases |cs|
  {
    if |cs| > 0 {
      WithoutHas(cs[1..], gone, x);
    }
  }

  lemma {:induction false} WithoutMember(cs: seq<Client>, gone: seq<string>, c: Client)
    ensures c in Without(cs, gone) <==> c in cs && c.id !in gone
    decreases |cs|
  {
    if |cs| > 0 {
      WithoutMember(cs[1..], gone, c);
      assert c in cs <==> c == cs[0] || c in cs[1..];
    }
  }

  lemma {:induction false} WithoutValid(cs: seq<Client>, gone: seq<string>)
    requires Unique(cs) && AllConnected(cs)
    ensures Unique(Without(cs, gone)) && AllConnected(Without(cs, gone))
    decreases |cs|
  {
    if |cs| > 0 {
      WithoutValid(cs[1..], gone);
      WithoutHas(cs[1..], gone, cs[0].id);
    }
  }

  lemma {:induction false} WithoutConnected(cs: seq<Client>, gone: seq<string>)
    requires AllConnected(cs)
    ensures AllConnected(Without(cs, gone))
    decreases |cs|
  {
    if |cs| > 0 {
      WithoutConnected(cs[1..], gone);
    }
  }

  lemma {:induction false} WithoutNothing(cs: seq<Client>)
    ensures Without(cs, []) == cs
    decreases |cs|
  {
    if |cs| > 0 {
      WithoutNothing(cs[1..]);
    }
  }

  lemma {:induction false} WithoutWithout(cs: seq<Client>, a: seq<string>, b: seq<string>)
    ensures Without(Without(cs, a), b) == Without(cs, a + b)
    decreases |cs|
  {
    if |cs| > 0 {
      WithoutWithout(cs[1..], a, b);
    }
  }

  lemma {:induction false} DeletePut(cs: seq<Client>, c: Client)
    ensures Delete(Put(cs, c), c.id) == Delete(cs, c.id)
    decreases |cs|
  {
    if |cs| > 0 && cs[0].id != c.id {
      DeletePut(cs[1..], c);
    }
  }

  /** Unregistering any set of ids keeps the invariant. */
  lemma ManagerWithoutValid(m: Manager, gone: seq<string>)
    requires Valid(m)
    ensures Valid(m.(clients := Without(m.clients, gone)))
  {
    WithoutValid(m.clients, gone);
    forall k | k in m.queues
      ensures !Has(Without(m.clients, gone), k)
    {
      WithoutHas(m.clients, gone, k);
    }
  }

  lemma DeleteValid(m: Manager, id: string)
    requires Valid(m)
    ensures Valid(m.(clients := Delete(m.clients, id)))
  {
    ManagerWithoutValid(m, [id]);
  }

  // ---------------------------------------------------------------------------
  // Backlogs
  // ---------------------------------------------------------------------------

  /** The newest `n` entries of `s`, oldest first. */
  function Newest<T>(s: seq<T>, n: nat): seq<T> {
    s[|s| - Min(n, |s|)..]
  }

  /** `queue.push(x)` followed by `queue.splice(0, queue.length - 50)` when the
      queue overflows. */
  function Enqueue(q: seq<Queued>, x: Queued): (r: seq<Queued>)
    ensures |r| <= QueueCapacity
    ensures 0 < |r|
  {
    var q' := q + [x];
    if |q'| > QueueCapacity then q'[|q'| - QueueCapacity..] else q'
  }

  /** A run of `queueMessage` calls, one per element of `xs`. */
  function EnqueueAll(q: seq<Queued>, xs: seq<Queued>): seq<Queued>
    decreases |xs|
  {
    if |xs| == 0 then q else EnqueueAll(Enqueue(q, xs[0]), xs[1..])
  }

  lemma NewestStep(s: seq<Queued>, x: Queued)
    ensures Newest(Newest(s, QueueCapacity) + [x], QueueCapacity) == Newest(s + [x], QueueCapacity)
  {
  }

  /** However many messages arrive for an absent connection, its backlog holds the
      most recent 50 of them (together with what it already held), in arrival order. */
  lemma {:induction false} EnqueueKeepsNewest(q: seq<Queued>, xs: seq<Queued>)
    requires |q| <= QueueCapacity
    ensures EnqueueAll(q, xs) == Newest(q + xs, QueueCapacity)
    ensures |EnqueueAll(q, xs)| == Min(|q| + |xs|, QueueCapacity)
    decreases |xs|
  {
    if |xs| == 0 {
      assert q + xs == q;
    } else {
      var q1 := Enqueue(q, xs[0]);
      assert q1 == Newest(q + [xs[0]], QueueCapacity);
      EnqueueKeepsNewest(q1, xs[1..]);
      NewestTail(q + [xs[0]], xs[1..]);
      assert q + [xs[0]] + xs[1..] == q + xs;
    }
  }

  lemma {:induction false} NewestTail(s: seq<Queued>, xs: seq<Queued>)
    ensures Newest(Newest(s, QueueCapacity) + xs, QueueCapacity) == Newest(s + xs, QueueCapacity)
    decreases |xs|
  {
    if |xs| > 0 {
      var n := Newest(s, QueueCapacity);
      assert n + xs == (n + [xs[0]]) + xs[1..];
      assert s + xs == (s + [xs[0]]) + xs[1..];
      NewestStep(s, xs[0]);
      NewestTail(n + [xs[0]], xs[1..]);
      NewestTail(s + [xs[0]], xs[1..]);
    } else {
      assert Newest(s, QueueCapacity) + xs == Newest(s, QueueCapacity);
      assert s + xs == s;
    }
  }

  /** `queueMessage(id, eventType, data)`. */
  function QueueMessage(m: Manager, id: string, eventType: string, data: Json, at: Instant): (r: Manager)
    ensures r.queues.Keys == m.queues.Keys + {id}
    ensures r.queues[id] == Enqueue(Backlog(m, id), Queued(eventType, data, at.millis))
    ensures forall k | k in m.queues && k != id :: r.queues[k] == m.queues[k]
    ensures r.clients == m.clients && r.wire == m.wire && r.notices == m.notices
    ensures r.heartbeatOn == m.heartbeatOn
  {
    m.(queues := m.queues[id := Enqueue(Backlog(m, id), Queued(eventType, data, at.millis))])
  }

  // ---------------------------------------------------------------------------
  // Transitions
  // ---------------------------------------------------------------------------

  /** `removeClient(id)`; also what the transport's `close` and `error` handlers do. */
  function RemoveClient(m: Manager, id: string): (r: Manager)
    ensures !Registered(r, id)
    ensures Registered(m, id) ==> r.notices == m.notices + [ClientDisconnected(id)]
    ensures !Registered(m, id) ==> r == m
    ensures r.queues == m.queues && r.wire == m.wire && r.heartbeatOn == m.heartbeatOn
  {
    if Registered(m, id) then
      WithoutHas(m.clients, [id], id);
      m.(clients := Delete(m.clients, id), notices := m.notices + [ClientDisconnected(id)])
    else m
  }

  /** `removeClient` is idempotent: a second call changes nothing and emits nothing. */
  lemma RemoveClientIdempotent(m: Manager, id: string)
    ensures RemoveClient(RemoveClient(m, id), id) == RemoveClient(m, id)
  {
  }

  /** `sendToClient(id, eventType, data)`; `failing` is the set of connections whose
      transport throws on write. Answers the manager after the call and whether the
      frame was written. */
  function SendToClient(m: Manager, id: string, eventType: string, data: Json, at: Instant, failing: set<string>): (r: (Manager, bool))
    ensures r.1 <==> Registered(m, id) && Lookup(m.clients, id).value.connected && id !in failing
    ensures r.0.heartbeatOn == m.heartbeatOn
  {
    match Lookup(m.clients, id)
    case None => (QueueMessage(m, id, eventType, data, at), false)
    case Some(c) =>
      if !c.connected then (QueueMessage(m, id, eventType, data, at), false)
      else if id in failing then (RemoveClient(m, id), false)
      else (m.(wire := m.wire + [Write(id, FormatSSEMessage(eventType, data, at))]), true)
  }

  /** Replays a backlog snapshot through `sendToClient`, as `queue.forEach` does. */
  function Replay(m: Manager, id: string, q: seq<Queued>, at: Instant, failing: set<string>): Manager
    decreases |q|
  {
    if |q| == 0 then m
    else Replay(SendToClient(m, id, q[0].eventType, q[0].data, at, failing).0, id, q[1..], at, failing)
  }

  /** `sendQueuedMessages(id)`: replay the backlog, then delete it. */
  function SendQueuedMessages(m: Manager, id: string, at: Instant, failing: set<string>): Manager {
    if id !in m.queues || |m.queues[id]| == 0 then m
    else
      var r := Replay(m, id, m.queues[id], at, failing);
      r.(queues := r.queues - {id})
  }

  /** The payload of the initial `connected` event. */
  function ConnectedData(id: string, at: Instant): Json {
    Obj([("message", Str("Connected to AUTO-DEV Bridge")), ("timestamp", Str(at.iso)), ("clientId", Str(id))])
  }

  /** `addClient(id, res)` at instant `at`. */
  function AddClient(m: Manager, id: string, at: Instant, failing: set<string>): Manager {
    var m1 := m.(clients := Put(m.clients, Client(id, true, at.millis)));
    var m2 := SendToClient(m1, id, "connected", ConnectedData(id, at), at, failing).0;
    var m3 := SendQueuedMessages(m2, id, at, failing);
    m3.(notices := m3.notices + [ClientConnected(id)])
  }

  /** `excludeClient && clientId === excludeClient`: an empty id excludes nobody. */
  predicate Excluded(exclude: Option<string>, id: string) {
    exclude.Some? && exclude.value != "" && id == exclude.value
  }

  /** The loop of `broadcast` over a snapshot of the registered ids. */
  function Visit(m: Manager, ids: seq<string>, eventType: string, data: Json, exclude: Option<string>, at: Instant, failing: set<string>): (Manager, nat)
    decreases |ids|
  {
    if |ids| == 0 then (m, 0)
    else if Excluded(exclude, ids[0]) then Visit(m, ids[1..], eventType, data, exclude, at, failing)
    else
      var (m1, ok) := SendToClient(m, ids[0], eventType, data, at, failing);
      var (m2, n) := Visit(m1, ids[1..], eventType, data, exclude, at, failing);
      (m2, if ok then n + 1 else n)
  }

  /** `broadcast(eventType, data, excludeClient)`: the manager afterwards and the
      number of successful writes. */
  function Broadcast(m: Manager, eventType: string, data: Json, exclude: Option<string>, at: Instant, failing: set<string>): (Manager, nat) {
    Visit(m, Ids(m.clients), eventType, data, exclude, at, failing)
  }

  function HeartbeatData(connected: nat, at: Instant): Json {
    Obj([("message", Str("ping")), ("timestamp", Str(at.iso)), ("connectedClients", Num(connected))])
  }

  /** One tick of the heartbeat timer. */
  function Heartbeat(m: Manager, at: Instant, failing: set<string>): Manager {
    if !m.heartbeatOn then m
    else Broadcast(m, "heartbeat", HeartbeatData(|m.clients|, at), None, at, failing).0
  }

  function ShutdownData(at: Instant): Json {
    Obj([("message", Str("Server is shutting down")), ("timestamp", Str(at.iso))])
  }

  /** `response.end()` for every registered live connection. */
  function Ends(cs: seq<Client>): seq<Wire> {
    if |cs| == 0 then []
    else (if cs[0].connected then [End(cs[0].id)] else []) + Ends(cs[1..])
  }

  /** `shutdown()`: stop the heartbeat, broadcast `shutdown`, end every connection and
      forget all clients and backlogs. */
  function Shutdown(m: Manager, at: Instant, failing: set<string>): Manager {
    var m1 := m.(heartbeatOn := false);
    var m2 := Broadcast(m1, "shutdown", ShutdownData(at), None, at, failing).0;
    m2.(wire := m2.wire + Ends(m2.clients), clients := [], queues := map[])
  }

  // ---------------------------------------------------------------------------
  // Getters
  // ---------------------------------------------------------------------------

  function GetClientCount(m: Manager): nat { |m.clients| }

  function GetConnectedClients(m: Manager): seq<string> { Ids(m.clients) }

  function GetClientInfo(m: Manager, id: string): Option<Client> { Lookup(m.clients, id) }

  /** `getAllClientsInfo()`: later entries overwrite earlier ones, as the loop does. */
  function Info(cs: seq<Client>): map<string, Client>
    decreases |cs|
  {
    if |cs| == 0 then map[] else Info(cs[..|cs| - 1])[cs[|cs| - 1].id := cs[|cs| - 1]]
  }

  function GetAllClientsInfo(m: Manager): map<string, Client> { Info(m.clients) }

  // ---------------------------------------------------------------------------
  // Reference descriptions of a broadcast
  // ---------------------------------------------------------------------------

  /** The ids a broadcast writes to: targets whose transport accepts the write. */
  function Delivered(ids: seq<string>, exclude: Option<string>, failing: set<string>): (r: seq<string>)
    ensures |r| <= |ids|
  {
    if |ids| == 0 then []
    else if !Excluded(exclude, ids[0]) && ids[0] !in failing then [ids[0]] + Delivered(ids[1..], exclude, failing)
    else Delivered(ids[1..], exclude, failing)
  }

  /** The ids a broadcast disconnects: targets whose transport throws. */
  function Dropped(ids: seq<string>, exclude: Option<string>, failing: set<string>): (r: seq<string>)
  {
    if |ids| == 0 then []
    else if !Excluded(exclude, ids[0]) && ids[0] in failing then [ids[0]] + Dropped(ids[1..], exclude, failing)
    else Dropped(ids[1..], exclude, failing)
  }

  lemma {:induction false} DeliveredMembers(ids: seq<string>, exclude: Option<string>, failing: set<string>, x: string)
    ensures x in Delivered(ids, exclude, failing) <==> x in ids && !Excluded(exclude, x) && x !in failing
    decreases |ids|
  {
    if |ids| > 0 {
      DeliveredMembers(ids[1..], exclude, failing, x);
      assert x in ids <==> x == ids[0] || x in ids[1..];
    }
  }

  lemma {:induction false} DroppedMembers(ids: seq<string>, exclude: Option<string>, failing: set<string>, x: string)
    ensures x in Dropped(ids, exclude, failing) <==> x in ids && !Excluded(exclude, x) && x in failing
    decreases |ids|
  {
    if |ids| > 0 {
      DroppedMembers(ids[1..], exclude, failing, x);
      assert x in ids <==> x == ids[0] || x in ids[1..];
    }
  }

  function WritesTo(ids: seq<string>, f: Frame): (r: seq<Wire>)
    ensures |r| == |ids|
  {
    if |ids| == 0 then [] else [Write(ids[0], f)] + WritesTo(ids[1..], f)
  }

  function Disconnects(ids: seq<string>): (r: seq<Notice>)
    ensures |r| == |ids|
  {
    if |ids| == 0 then [] else [ClientDisconnected(ids[0])] + Disconnects(ids[1..])
  }

  /** The frames a successful replay of backlog `q` writes, one per entry, in order,
      each stamped with the replay instant. */
  function ReplayWrites(id: string, q: seq<Queued>, at: Instant): (r: seq<Wire>)
    ensures |r| == |q|
  {
    if |q| == 0 then [] else [Write(id, FormatSSEMessage(q[0].eventType, q[0].data, at))] + ReplayWrites(id, q[1..], at)
  }

  /** Entry `i` of a replayed backlog becomes the `i`-th frame written. */
  lemma {:induction false} ReplayWritesAt(id: string, q: seq<Queued>, at: Instant, i: nat)
    requires i < |q|
    ensures ReplayWrites(id, q, at)[i] == Write(id, FormatSSEMessage(q[i].eventType, q[i].data, at))
    decreases i
  {
    if i > 0 {
      ReplayWritesAt(id, q[1..], at, i - 1);
    }
  }

  // ---------------------------------------------------------------------------
  // Single sends
  // ---------------------------------------------------------------------------

  /** A send to an id that is not registered goes to its backlog and nowhere else. */
  lemma SendAbsent(m: Manager, id: string, eventType: string, data: Json, at: Instant, failing: set<string>)
    requires !Registered(m, id)
    ensures var r := SendToClient(m, id, eventType, data, at, failing).0;
      && r.clients == m.clients && r.wire == m.wire && r.notices == m.notices
      && r.queues.Keys == m.queues.Keys + {id}
      && r.queues[id] == Enqueue(Backlog(m, id), Queued(eventType, data, at.millis))
      && r.queues - {id} == m.queues - {id}
  {
  }

  /** A send whose write throws unregisters the connection and queues nothing. */
  lemma SendDropped(m: Manager, id: string, eventType: string, data: Json, at: Instant, failing: set<string>)
    requires Registered(m, id) && Lookup(m.clients, id).value.connected && id in failing
    ensures SendToClient(m, id, eventType, data, at, failing)
         == (m.(clients := Delete(m.clients, id), notices := m.notices + [ClientDisconnected(id)]), false)
    ensures !Has(Delete(m.clients, id), id)
  {
    WithoutHas(m.clients, [id], id);
  }

  /** A send to a live connection writes exactly one frame and changes nothing else. */
  lemma SendLive(m: Manager, id: string, eventType: string, data: Json, at: Instant, failing: set<string>)
    requires Registered(m, id) && Lookup(m.clients, id).value.connected && id !in failing
    ensures SendToClient(m, id, eventType, data, at, failing)
         == (m.(wire := m.wire + [Write(id, FormatSSEMessage(eventType, data, at))]), true)
  {
  }

  /** Every send keeps the invariant: a send to an absent id only grows its backlog,
      a failed write only unregisters. */
  lemma SendToClientValid(m: Manager, id: string, eventType: string, data: Json, at: Instant, failing: set<string>)
    requires Valid(m)
    ensures Valid(SendToClient(m, id, eventType, data, at, failing).0)
  {
    if !Registered(m, id) {
      SendAbsent(m, id, eventType, data, at, failing);
    } else {
      LookupConnected(m.clients, id);
      if id in failing {
        SendDropped(m, id, eventType, data, at, failing);
        DeleteValid(m, id);
      } else {
        SendLive(m, id, eventType, data, at, failing);
      }
    }
  }

  /** A backlog replayed to a live connection is written out entry by entry, in
      order, and nothing else changes. */
  lemma {:induction false} ReplayDelivers(m: Manager, id: string, q: seq<Queued>, at: Instant, failing: set<string>)
    requires Registered(m, id) && Lookup(m.clients, id).value.connected && id !in failing
    ensures Replay(m, id, q, at, failing) == m.(wire := m.wire + ReplayWrites(id, q, at))
    decreases |q|
  {
    if |q| == 0 {
      assert m.wire + ReplayWrites(id, q, at) == m.wire;
    } else {
      var w := Write(id, FormatSSEMessage(q[0].eventType, q[0].data, at));
      var m1 := m.(wire := m.wire + [w]);
      SendLive(m, id, q[0].eventType, q[0].data, at, failing);
      ReplayDelivers(m1, id, q[1..], at, failing);
      assert ReplayWrites(id, q, at) == [w] + ReplayWrites(id, q[1..], at);
      assert m.wire + [w] + ReplayWrites(id, q[1..], at) == m.wire + ReplayWrites(id, q, at);
    }
  }

  /** Replaying to an id that is not registered only touches that id's backlog. */
  lemma {:induction false} ReplayAbsent(m: Manager, id: string, q: seq<Queued>, at: Instant, failing: set<string>)
    requires !Registered(m, id)
    ensures var r := Replay(m, id, q, at, failing);
      && r.clients == m.clients && r.wire == m.wire && r.notices == m.notices
      && r.heartbeatOn == m.heartbeatOn && r.queues - {id} == m.queues - {id}
    decreases |q|
  {
    if |q| > 0 {
      var m1 := SendToClient(m, id, q[0].eventType, q[0].data, at, failing).0;
      SendAbsent(m, id, q[0].eventType, q[0].data, at, failing);
      ReplayAbsent(m1, id, q[1..], at, failing);
    }
  }

  /** Replaying to a connection whose transport throws unregisters it at the first
      entry and re-queues the rest, so nothing reaches the wire. */
  lemma ReplayFailing(m: Manager, id: string, q: seq<Queued>, at: Instant, failing: set<string>)
    requires Registered(m, id) && Lookup(m.clients, id).value.connected && id in failing
    requires |q| > 0
    ensures var r := Replay(m, id, q, at, failing);
      && r.clients == Delete(m.clients, id) && r.wire == m.wire
      && r.notices == m.notices + [ClientDisconnected(id)]
      && r.heartbeatOn == m.heartbeatOn && r.queues - {id} == m.queues - {id}
  {
    var m1 := SendToClient(m, id, q[0].eventType, q[0].data, at, failing).0;
    SendDropped(m, id, q[0].eventType, q[0].data, at, failing);
    ReplayAbsent(m1, id, q[1..], at, failing);
  }

  // ---------------------------------------------------------------------------
  // Operations on a valid manager
  // ---------------------------------------------------------------------------

  /** `Valid` looks only at the registry and the backlogs. */
  lemma ValidFrame(a: Manager, b: Manager)
    requires Valid(a) && a.clients == b.clients && a.queues == b.queues
    ensures Valid(b)
  {
  }

  /** `addClient` registers the connection (replacing one with the same id in place),
      writes the `connected` event carrying the id, then the backlog in order, and
      deletes the backlog. If the transport throws, the connection is unregistered
      at once and its backlog is dropped. The invariant is kept. */
  lemma AddClientEffect(m: Manager, id: string, at: Instant, failing: set<string>)
    requires Valid(m)
    ensures var r := AddClient(m, id, at, failing);
      && Valid(r)
      && r.queues == m.queues - {id}
      && r.heartbeatOn == m.heartbeatOn
      && (id !in failing ==>
            && r.clients == Put(m.clients, Client(id, true, at.millis))
            && r.wire == m.wire + [Write(id, FormatSSEMessage("connected", ConnectedData(id, at), at))]
                                + ReplayWrites(id, Backlog(m, id), at)
            && r.notices == m.notices + [ClientConnected(id)])
      && (id in failing ==>
            && r.clients == Delete(m.clients, id)
            && r.wire == m.wire
            && r.notices == m.notices + [ClientDisconnected(id), ClientConnected(id)])
  {
    if id !in failing {
      AddClientLive(m, id, at, failing);
    } else {
      AddClientFailing(m, id, at, failing);
    }
  }

  /** The registry right after `clients.set` in `addClient`. */
  lemma AddClientRegisters(m: Manager, id: string, at: Instant)
    requires Valid(m)
    ensures var m1 := m.(clients := Put(m.clients, Client(id, true, at.millis)));
      && Registered(m1, id) && Lookup(m1.clients, id).value.connected
      && Valid(m1.(queues := m.queues - {id}))
  {
    var c := Client(id, true, at.millis);
    PutValid(m.clients, c);
    forall k | k in m.queues && k != id
      ensures !Has(Put(m.clients, c), k)
    {
      PutHas(m.clients, c, k);
    }
  }

  lemma AddClientLive(m: Manager, id: string, at: Instant, failing: set<string>)
    requires Valid(m) && id !in failing
    ensures var r := AddClient(m, id, at, failing);
      && Valid(r)
      && r.queues == m.queues - {id}
      && r.heartbeatOn == m.heartbeatOn
      && r.clients == Put(m.clients, Client(id, true, at.millis))
      && r.wire == m.wire + [Write(id, FormatSSEMessage("connected", ConnectedData(id, at), at))]
                          + ReplayWrites(id, Backlog(m, id), at)
      && r.notices == m.notices + [ClientConnected(id)]
  {
    var c := Client(id, true, at.millis);
    var m1 := m.(clients := Put(m.clients, c));
    AddClientRegisters(m, id, at);
    var w := Write(id, FormatSSEMessage("connected", ConnectedData(id, at), at));
    var m2 := m1.(wire := m.wire + [w]);
    SendLive(m1, id, "connected", ConnectedData(id, at), at, failing);
    var m3 := SendQueuedMessages(m2, id, at, failing);
    if id in m.queues {
      ReplayDelivers(m2, id, m.queues[id], at, failing);
    } else {
      assert ReplayWrites(id, Backlog(m, id), at) == [];
      assert m.queues - {id} == m.queues;
    }
    assert m3 == m2.(wire := m2.wire + ReplayWrites(id, Backlog(m, id), at), queues := m.queues - {id});
    ValidFrame(m1.(queues := m.queues - {id}), AddClient(m, id, at, failing));
  }

  lemma AddClientFailing(m: Manager, id: string, at: Instant, failing: set<string>)
    requires Valid(m) && id in failing
    ensures var r := AddClient(m, id, at, failing);
      && Valid(r)
      && r.queues == m.queues - {id}
      && r.heartbeatOn == m.heartbeatOn
      && r.clients == Delete(m.clients, id)
      && r.wire == m.wire
      && r.notices == m.notices + [ClientDisconnected(id), ClientConnected(id)]
  {
    var c := Client(id, true, at.millis);
    var m1 := m.(clients := Put(m.clients, c));
    AddClientRegisters(m, id, at);
    SendDropped(m1, id, "connected", ConnectedData(id, at), at, failing);
    DeletePut(m.clients, c);
    var m2 := m.(clients := Delete(m.clients, id), notices := m.notices + [ClientDisconnected(id)]);
    var m3 := SendQueuedMessages(m2, id, at, failing);
    if id in m.queues {
      ReplayAbsent(m2, id, m.queues[id], at, failing);
    } else {
      assert m.queues - {id} == m.queues;
    }
    assert m3 == m2.(queues := m.queues - {id});
    DeleteValid(m, id);
    ValidFrame(m.(clients := Delete(m.clients, id)).(queues := m.queues - {id}), AddClient(m, id, at, failing));
  }

  /** `ids` has no repeated entry. */
  predicate NoDup(ids: seq<string>)
    decreases |ids|
  {
    |ids| == 0 || (ids[0] !in ids[1..] && NoDup(ids[1..]))
  }

  /** Every entry of `ids` is registered in `cs`. */
  predicate AllIn(cs: seq<Client>, ids: seq<string>)
    decreases |ids|
  {
    |ids| == 0 || (Has(cs, ids[0]) && AllIn(cs, ids[1..]))
  }

  lemma {:induction false} AllInDelete(cs: seq<Client>, ids: seq<string>, t: string)
    requires AllIn(cs, ids) && t !in ids
    ensures AllIn(Delete(cs, t), ids)
    decreases |ids|
  {
    if |ids| > 0 {
      WithoutHas(cs, [t], ids[0]);
      assert t !in ids[1..];
      AllInDelete(cs, ids[1..], t);
    }
  }

  lemma {:induction false} AllInCons(c: Client, cs: seq<Client>, ids: seq<string>)
    requires AllIn(cs, ids)
    ensures AllIn([c] + cs, ids)
    decreases |ids|
  {
    if |ids| > 0 {
      assert ([c] + cs)[1..] == cs;
      AllInCons(c, cs, ids[1..]);
    }
  }

  /** The snapshot of ids a broadcast visits is duplicate-free and registered. */
  lemma {:induction false} IdsSnapshot(cs: seq<Client>)
    requires Unique(cs)
    ensures NoDup(Ids(cs)) && AllIn(cs, Ids(cs))
    decreases |cs|
  {
    if |cs| > 0 {
      IdsSnapshot(cs[1..]);
      HasIds(cs[1..], cs[0].id);
      assert Ids(cs) == [cs[0].id] + Ids(cs[1..]);
      assert cs == [cs[0]] + cs[1..];
      AllInCons(cs[0], cs[1..], Ids(cs[1..]));
    }
  }

  /** What the broadcast loop over `ids` does, stated without the loop. */
  ghost predicate VisitOk(m: Manager, ids: seq<string>, eventType: string, data: Json, exclude: Option<string>, at: Instant, failing: set<string>) {
    var (r, n) := Visit(m, ids, eventType, data, exclude, at, failing);
    && r.clients == Without(m.clients, Dropped(ids, exclude, failing))
    && r.queues == m.queues && r.heartbeatOn == m.heartbeatOn
    && r.wire == m.wire + WritesTo(Delivered(ids, exclude, failing), FormatSSEMessage(eventType, data, at))
    && r.notices == m.notices + Disconnects(Dropped(ids, exclude, failing))
    && n == |Delivered(ids, exclude, failing)|
  }

  /** The effect of the broadcast loop over distinct registered ids. */
  lemma {:induction false} VisitEffect(m: Manager, ids: seq<string>, eventType: string, data: Json, exclude: Option<string>, at: Instant, failing: set<string>)
    requires AllConnected(m.clients) && NoDup(ids) && AllIn(m.clients, ids)
    ensures VisitOk(m, ids, eventType, data, exclude, at, failing)
    decreases |ids|
  {
    if |ids| == 0 {
      var f := FormatSSEMessage(eventType, data, at);
      assert m.wire + WritesTo([], f) == m.wire;
      assert m.notices + Disconnects([]) == m.notices;
      WithoutNothing(m.clients);
    } else {
      var t := ids[0];
      var rest := ids[1..];
      LookupConnected(m.clients, t);
      if Excluded(exclude, t) {
        VisitEffect(m, rest, eventType, data, exclude, at, failing);
      } else if t !in failing {
        var m1 := m.(wire := m.wire + [Write(t, FormatSSEMessage(eventType, data, at))]);
        VisitEffect(m1, rest, eventType, data, exclude, at, failing);
        VisitDeliverStep(m, ids, eventType, data, exclude, at, failing);
      } else {
        var m1 := m.(clients := Delete(m.clients, t), notices := m.notices + [ClientDisconnected(t)]);
        AllInDelete(m.clients, rest, t);
        WithoutConnected(m.clients, [t]);
        VisitEffect(m1, rest, eventType, data, exclude, at, failing);
        VisitDropStep(m, ids, eventType, data, exclude, at, failing);
      }
    }
  }

  lemma VisitDeliverStep(m: Manager, ids: seq<string>, eventType: string, data: Json, exclude: Option<string>, at: Instant, failing: set<string>)
    requires |ids| > 0 && Registered(m, ids[0]) && Lookup(m.clients, ids[0]).value.connected
    requires !Excluded(exclude, ids[0]) && ids[0] !in failing
    requires VisitOk(m.(wire := m.wire + [Write(ids[0], FormatSSEMessage(eventType, data, at))]),
                     ids[1..], eventType, data, exclude, at, failing)
    ensures VisitOk(m, ids, eventType, data, exclude, at, failing)
  {
    var t := ids[0];
    var f := FormatSSEMessage(eventType, data, at);
    SendLive(m, t, eventType, data, at, failing);
    assert Delivered(ids, exclude, failing) == [t] + Delivered(ids[1..], exclude, failing);
    assert WritesTo(Delivered(ids, exclude, failing), f) == [Write(t, f)] + WritesTo(Delivered(ids[1..], exclude, failing), f);
    assert m.wire + [Write(t, f)] + WritesTo(Delivered(ids[1..], exclude, failing), f)
        == m.wire + WritesTo(Delivered(ids, exclude, failing), f);
  }

  lemma VisitDropStep(m: Manager, ids: seq<string>, eventType: string, data: Json, exclude: Option<string>, at: Instant, failing: set<string>)
    requires |ids| > 0 && Registered(m, ids[0]) && Lookup(m.clients, ids[0]).value.connected
    requires !Excluded(exclude, ids[0]) && ids[0] in failing
    requires VisitOk(m.(clients := Delete(m.clients, ids[0]), notices := m.notices + [ClientDisconnected(ids[0])]),
                     ids[1..], eventType, data, exclude, at, failing)
    ensures VisitOk(m, ids, eventType, data, exclude, at, failing)
  {
    var t := ids[0];
    SendDropped(m, t, eventType, data, at, failing);
    assert Dropped(ids, exclude, failing) == [t] + Dropped(ids[1..], exclude, failing);
    WithoutWithout(m.clients, [t], Dropped(ids[1..], exclude, failing));
    assert Disconnects(Dropped(ids, exclude, failing)) == [ClientDisconnected(t)] + Disconnects(Dropped(ids[1..], exclude, failing));
    assert m.notices + [ClientDisconnected(t)] + Disconnects(Dropped(ids[1..], exclude, failing))
        == m.notices + Disconnects(Dropped(ids, exclude, failing));
  }

  /** `broadcast` writes one frame, with the same payload and id, to every registered
      connection that is not excluded and whose transport accepts it, in registration
      order; it unregisters exactly the targets whose transport throws; it never
      queues; and it answers how many writes succeeded. */
  lemma BroadcastEffect(m: Manager, eventType: string, data: Json, exclude: Option<string>, at: Instant, failing: set<string>)
    requires Valid(m)
    ensures var (r, n) := Broadcast(m, eventType, data, exclude, at, failing);
      var delivered := Delivered(Ids(m.clients), exclude, failing);
      && Valid(r)
      && r.queues == m.queues && r.heartbeatOn == m.heartbeatOn
      && r.clients == Without(m.clients, Dropped(Ids(m.clients), exclude, failing))
      && (forall c | c in r.clients :: c in m.clients)
      && (forall c | c in m.clients :: c in r.clients <==> Excluded(exclude, c.id) || c.id !in failing)
      && r.wire == m.wire + WritesTo(delivered, FormatSSEMessage(eventType, data, at))
      && (forall x :: x in delivered <==> Registered(m, x) && !Excluded(exclude, x) && x !in failing)
      && n == |delivered| && n <= |m.clients|
  {
    var gone := Dropped(Ids(m.clients), exclude, failing);
    IdsSnapshot(m.clients);
    VisitEffect(m, Ids(m.clients), eventType, data, exclude, at, failing);
    ManagerWithoutValid(m, gone);
    forall c | c in m.clients
      ensures c in Without(m.clients, gone) <==> Excluded(exclude, c.id) || c.id !in failing
    {
      HasMember(m.clients, c);
      HasIds(m.clients, c.id);
      DroppedMembers(Ids(m.clients), exclude, failing, c.id);
      WithoutMember(m.clients, gone, c);
    }
    forall c | c in Without(m.clients, gone)
      ensures c in m.clients
    {
      WithoutMember(m.clients, gone, c);
    }
    forall x
      ensures x in Delivered(Ids(m.clients), exclude, failing) <==> Registered(m, x) && !Excluded(exclude, x) && x !in failing
    {
      DeliveredMembers(Ids(m.clients), exclude, failing, x);
      HasIds(m.clients, x);
    }
    ValidFrame(m.(clients := Without(m.clients, gone)), Broadcast(m, eventType, data, exclude, at, failing).0);
  }

  /** The heartbeat reaches every live connection and reports the registry size at
      the moment it fires; it never touches the backlogs. */
  lemma HeartbeatEffect(m: Manager, at: Instant, failing: set<string>)
    requires Valid(m) && m.heartbeatOn
    ensures var r := Heartbeat(m, at, failing);
      && Valid(r)
      && r.queues == m.queues
      && r.wire == m.wire + WritesTo(Delivered(Ids(m.clients), None, failing),
                                     FormatSSEMessage("heartbeat", HeartbeatData(|m.clients|, at), at))
  {
    BroadcastEffect(m, "heartbeat", HeartbeatData(|m.clients|, at), None, at, failing);
  }

  lemma {:induction false} EndsAll(cs: seq<Client>)
    requires AllConnected(cs)
    ensures |Ends(cs)| == |cs|
    ensures forall i | 0 <= i < |cs| :: Ends(cs)[i] == End(cs[i].id)
    decreases |cs|
  {
    if |cs| > 0 {
      EndsAll(cs[1..]);
      assert Ends(cs) == [End(cs[0].id)] + Ends(cs[1..]);
    }
  }

  /** `shutdown` broadcasts `shutdown` to every live connection, then ends every
      connection still registered, in order, and leaves an empty registry, no
      backlogs and no heartbeat. */
  lemma ShutdownEffect(m: Manager, at: Instant, failing: set<string>)
    requires Valid(m)
    ensures var r := Shutdown(m, at, failing);
      var f := FormatSSEMessage("shutdown", ShutdownData(at), at);
      var survivors := Without(m.clients, Dropped(Ids(m.clients), None, failing));
      && Valid(r)
      && r.clients == [] && r.queues == map[] && !r.heartbeatOn
      && r.wire == m.wire + WritesTo(Delivered(Ids(m.clients), None, failing), f) + Ends(survivors)
      && |Ends(survivors)| == |survivors|
      && (forall i | 0 <= i < |survivors| :: Ends(survivors)[i] == End(survivors[i].id))
      && (forall c | c in survivors :: c in m.clients && c.id !in failing)
  {
    var m1 := m.(heartbeatOn := false);
    BroadcastEffect(m1, "shutdown", ShutdownData(at), None, at, failing);
    var survivors := Without(m.clients, Dropped(Ids(m.clients), None, failing));
    WithoutValid(m.clients, Dropped(Ids(m.clients), None, failing));
    EndsAll(survivors);
  }

  /** A heartbeat tick that races with shutdown does nothing. */
  lemma HeartbeatAfterShutdown(m: Manager, at: Instant, later: Instant, failing: set<string>, failing': set<string>)
    ensures Heartbeat(Shutdown(m, at, failing), later, failing') == Shutdown(m, at, failing)
  {
  }

  /** `removeClient` keeps the invariant. */
  lemma RemoveClientValid(m: Manager, id: string)
    requires Valid(m)
    ensures Valid(RemoveClient(m, id))
  {
    if Registered(m, id) {
      DeleteValid(m, id);
    }
  }

  // ---------------------------------------------------------------------------
  // Messages sent while a connection is away
  // ---------------------------------------------------------------------------

  /** A `sendToClient` request issued at instant `at`. */
  datatype Outgoing = Outgoing(eventType: string, data: Json, at: Instant)

  function Parked(os: seq<Outgoing>): (q: seq<Queued>)
    ensures |q| == |os|
  {
    if |os| == 0 then [] else [Queued(os[0].eventType, os[0].data, os[0].at.millis)] + Parked(os[1..])
  }

  /** A run of `sendToClient` calls to one id. */
  function SendAll(m: Manager, id: string, os: seq<Outgoing>, failing: set<string>): Manager
    decreases |os|
  {
    if |os| == 0 then m
    else SendAll(SendToClient(m, id, os[0].eventType, os[0].data, os[0].at, failing).0, id, os[1..], failing)
  }

  /** While an id is not registered, everything sent to it lands in its backlog, in
      order, and the rest of the manager is untouched. */
  lemma {:induction false} SendAllAbsent(m: Manager, id: string, os: seq<Outgoing>, failing: set<string>)
    requires Valid(m) && !Registered(m, id)
    ensures var r := SendAll(m, id, os, failing);
      && Valid(r) && !Registered(r, id)
      && r.clients == m.clients && r.wire == m.wire && r.notices == m.notices
      && r.queues - {id} == m.queues - {id}
      && Backlog(r, id) == EnqueueAll(Backlog(m, id), Parked(os))
    decreases |os|
  {
    if |os| > 0 {
      var m1 := SendToClient(m, id, os[0].eventType, os[0].data, os[0].at, failing).0;
      SendAbsent(m, id, os[0].eventType, os[0].data, os[0].at, failing);
      SendToClientValid(m, id, os[0].eventType, os[0].data, os[0].at, failing);
      SendAllAbsent(m1, id, os[1..], failing);
      assert Parked(os)[1..] == Parked(os[1..]);
    }
  }

  /** The reconnect scenario: messages sent to an id before it connects arrive on
      its connection right after the `connected` event, oldest first, at most the
      newest 50 of them, each stamped with the moment of replay. */
  lemma QueueThenConnect(m: Manager, id: string, os: seq<Outgoing>, at: Instant, failing: set<string>)
    requires Valid(m) && !Registered(m, id) && id !in m.queues && id !in failing
    ensures var r := AddClient(SendAll(m, id, os, failing), id, at, failing);
      && Registered(r, id)
      && r.wire == m.wire + [Write(id, FormatSSEMessage("connected", ConnectedData(id, at), at))]
                          + ReplayWrites(id, Newest(Parked(os), QueueCapacity), at)
      && id !in r.queues
  {
    var m1 := SendAll(m, id, os, failing);
    SendAllAbsent(m, id, os, failing);
    EnqueueKeepsNewest([], Parked(os));
    assert [] + Parked(os) == Parked(os);
    AddClientLive(m1, id, at, failing);
    PutHas(m1.clients, Client(id, true, at.millis), id);
  }

  /** The `connected` event names the connection it was sent on. */
  lemma ConnectedNamesClient(id: string, at: Instant)
    ensures Field(ConnectedData(id, at), "clientId") == Some(Str(id))
    ensures Field(ConnectedData(id, at), "message") == Some(Str("Connected to AUTO-DEV Bridge"))
  {
    var fs := ConnectedData(id, at).fields;
    assert "message"[0] != "clientId"[0] && "timestamp"[0] != "clientId"[0];
    assert Get(fs[2..], "clientId") == Some(Str(id));
    assert Get(fs[1..], "clientId") == Some(Str(id));
  }
}
