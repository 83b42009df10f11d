/** The data-directory watcher (`FileWatcher`): chokidar notifications arrive as
    inputs, each one (re)starts a debounce timer keyed by `type:path`, and a timer
    that fires emits the file event, the general `file` event and, for request and
    response files, the matching server-sent event type. Timers are the host's
    pending-timer table addressed by handles, as in the browser and Node. */
module FileWatcher {
  import opened Wrappers
  import opened Clock
  import opened Text

  /** Debounce window when the caller passes none, in milliseconds. */
  const DefaultDebounceMillis := 100

  /** The three chokidar notifications the watcher subscribes to. */
  datatype FsEvent = Add | Change | Unlink

  function EventName(t: FsEvent): (s: string)
    ensures ':' !in s && |s| > 0
  {
    match t
    case Add => "add"
    case Change => "change"
    case Unlink => "unlink"
  }

  /** The payload every emission carries. */
  datatype FileEvent = FileEvent(eventType: FsEvent, path: string, relativePath: string, timestamp: string)

  /** What the watcher emits to its own listeners, in order. */
  datatype Emission =
    | Specific(e: FileEvent)          // emitted under the chokidar event name
    | AnyFile(e: FileEvent)           // `file`
    | Sse(sseType: string, e: FileEvent) // `sse_event`
    | Stopped
    | Ready
    | WatchError(message: string)

  /** A debounce timer waiting in the host: what it will report when it fires. */
  datatype Pending = Pending(eventType: FsEvent, path: string, relativePath: string, delay: nat)

  datatype Timers = Timers(debounce: map<string, nat>, pending: map<nat, Pending>, nextHandle: nat)

  datatype Watcher = Watcher(
    paths: seq<string>,
    watching: bool,
    debounceMillis: nat,
    timers: Timers,
    out: seq<Emission>)

  /** `new FileWatcher(watchPaths, options)`. */
  function NewWatcher(paths: seq<string>, debounceMillis: Option<nat>): (w: Watcher)
    ensures !w.watching && w.paths == paths && w.timers.debounce == map[] && w.out == []
    ensures w.debounceMillis == (if debounceMillis.Some? then debounceMillis.value else DefaultDebounceMillis)
  {
    Watcher(paths, false, if debounceMillis.Some? then debounceMillis.value else DefaultDebounceMillis,
            Timers(map[], map[], 1), [])
  }

  // ---------------------------------------------------------------------------
  // Debounce keys
  // ---------------------------------------------------------------------------

  /** `${eventType}:${filePath}`. */
  function Key(t: FsEvent, path: string): string {
    EventName(t) + ":" + path
  }

  function KeyOf(p: Pending): string {
    Key(p.eventType, p.path)
  }

  lemma EventNameInjective(t: FsEvent, u: FsEvent)
    requires EventName(t) == EventName(u)
    ensures t == u
  {
  }

  /** Event names contain no colon, so a key names its event type and path
      unambiguously: different types on one path never share a timer. */
  lemma KeyInjective(t: FsEvent, p: string, u: FsEvent, q: string)
    requires Key(t, p) == Key(u, q)
    ensures t == u && p == q
  {
    var s := Key(t, p);
    IndexOfAfterPrefix(EventName(t), ':', p);
    IndexOfAfterPrefix(EventName(u), ':', q);
    assert EventName(t) == s[..|EventName(t)|];
    assert EventName(u) == s[..|EventName(u)|];
    EventNameInjective(t, u);
    assert p == s[|EventName(t)| + 1..];
    assert q == s[|EventName(u)| + 1..];
  }

  // ---------------------------------------------------------------------------
  // Operations
  // ---------------------------------------------------------------------------

  /** `stop()`: close the watcher, clear every debounce timer, empty the map and
      emit `stopped`. */
  function Stop(w: Watcher): (r: Watcher)
    ensures !r.watching && r.timers.debounce == map[] && r.paths == w.paths
    ensures r.out == w.out + [Stopped]
  {
    var cleared := map h | h in w.timers.pending && h !in w.timers.debounce.Values :: w.timers.pending[h];
    w.(watching := false, timers := w.timers.(debounce := map[], pending := cleared), out := w.out + [Stopped])
  }

  /** `start()`: a running watcher is stopped first, then a new one watches the
      paths. */
  function Start(w: Watcher): (r: Watcher)
    ensures r.watching && r.paths == w.paths
    ensures w.watching ==> r.timers.debounce == map[] && r.out == w.out + [Stopped]
    ensures !w.watching ==> r == w.(watching := true)
  {
    var w1 := if w.watching then Stop(w) else w;
    w1.(watching := true)
  }

  /** `handleFileEvent(eventType, filePath)`: clear the timer pending for the key,
      if any, and arm a fresh one. `relativePath` is `path.relative(cwd, filePath)`. */
  function HandleFileEvent(w: Watcher, t: FsEvent, path: string, relativePath: string): (r: Watcher)
    ensures r.timers.debounce == w.timers.debounce[Key(t, path) := w.timers.nextHandle]
    ensures r.timers.nextHandle == w.timers.nextHandle + 1
    ensures w.timers.nextHandle in r.timers.pending
    ensures r.timers.pending[w.timers.nextHandle] == Pending(t, path, relativePath, w.debounceMillis)
    ensures r.(timers := w.timers) == w
  {
    var k := Key(t, path);
    var ts := w.timers;
    var kept := if k in ts.debounce then ts.pending - {ts.debounce[k]} else ts.pending;
    var h := ts.nextHandle;
    w.(timers := Timers(ts.debounce[k := h], kept[h := Pending(t, path, relativePath, w.debounceMillis)], h + 1))
  }

  /** `mapToSSEEvent`: a path mentioning `requests` is a request file, otherwise
      one mentioning `responses` is a response file, otherwise there is no
      server-sent event. */
  function SseType(t: FsEvent, relativePath: string): Option<string> {
    if Contains(relativePath, "requests") then
      Some(if t == Unlink then "request_deleted" else "request_updated")
    else if Contains(relativePath, "responses") then
      Some(if t == Unlink then "response_deleted" else "response_updated")
    else None
  }

  /** The emissions of one fired timer: the specific event, `file`, then the
      server-sent event when there is one. */
  function Emissions(e: FileEvent): (es: seq<Emission>)
    ensures 2 <= |es| <= 3 && es[0] == Specific(e) && es[1] == AnyFile(e)
  {
    var sse := SseType(e.eventType, e.relativePath);
    [Specific(e), AnyFile(e)] + (if sse.Some? then [Sse(sse.value, e)] else [])
  }

  /** The timer callback: delete the key from the map, then emit. A handle that
      is no longer pending does nothing. */
  function Fire(w: Watcher, h: nat, at: Instant): (r: Watcher)
  {
    if h !in w.timers.pending then w
    else
      var p := w.timers.pending[h];
      var e := FileEvent(p.eventType, p.path, p.relativePath, at.iso);
      w.(timers := w.timers.(debounce := w.timers.debounce - {KeyOf(p)}, pending := w.timers.pending - {h}),
         out := w.out + Emissions(e))
  }

  /** `addPath(p)`. */
  function AddPath(w: Watcher, p: string): (r: Watcher)
    ensures r.paths == w.paths + [p] && r.(paths := w.paths) == w
  {
    w.(paths := w.paths + [p])
  }

  /** `watchPaths.filter(q => q !== p)`. */
  function Remove(ps: seq<string>, p: string): (r: seq<string>)
    ensures |r| <= |ps|
    decreases |ps|
  {
    if |ps| == 0 then []
    else if ps[0] == p then Remove(ps[1..], p)
    else [ps[0]] + Remove(ps[1..], p)
  }

  /** `removePath(p)`. */
  function RemovePath(w: Watcher, p: string): (r: Watcher)
    ensures r.(paths := w.paths) == w
  {
    w.(paths := Remove(w.paths, p))
  }

  function IsWatching(w: Watcher): bool {
    w.watching
  }

  /** `getWatchedPaths()`: a copy, so later changes to the result do not reach the watcher. */
  function GetWatchedPaths(w: Watcher): seq<string> {
    w.paths
  }

  /** Notifications from chokidar and calls from the server. */
  datatype Input =
    | FsNotify(t: FsEvent, path: string, relativePath: string)
    | TimerFires(handle: nat, at: Instant)
    | ChokidarReady
    | ChokidarError(message: string)
    | CallStart
    | CallStop
    | CallAddPath(p: string)
    | CallRemovePath(p: string)

  /** One step. chokidar reports only while a watcher is open. */
  function Apply(w: Watcher, i: Input): Watcher {
    match i
    case FsNotify(t, path, rel) => if w.watching then HandleFileEvent(w, t, path, rel) else w
    case TimerFires(h, at) => Fire(w, h, at)
    case ChokidarReady => if w.watching then w.(out := w.out + [Ready]) else w
    case ChokidarError(m) => if w.watching then w.(out := w.out + [WatchError(m)]) else w
    case CallStart => Start(w)
    case CallStop => Stop(w)
    case CallAddPath(p) => AddPath(w, p)
    case CallRemovePath(p) => RemovePath(w, p)
  }

  function Run(w: Watcher, inputs: seq<Input>): Watcher
    decreases |inputs|
  {
    if |inputs| == 0 then w else Run(Apply(w, inputs[0]), inputs[1..])
  }

  // ---------------------------------------------------------------------------
  // One timer per key
  // ---------------------------------------------------------------------------

  /** The debounce map and the host's pending timers describe each other: every
      key names a pending timer for that key, every pending timer is the one its
      key names, and handles are fresh. */
  ghost predicate TimersOk(ts: Timers) {
    && (forall k | k in ts.debounce :: ts.debounce[k] in ts.pending && KeyOf(ts.pending[ts.debounce[k]]) == k)
    && (forall h | h in ts.pending :: KeyOf(ts.pending[h]) in ts.debounce && ts.debounce[KeyOf(ts.pending[h])] == h)
    && (forall h | h in ts.pending :: h < ts.nextHandle)
  }

  ghost predicate Valid(w: Watcher) {
    TimersOk(w.timers)
  }

  lemma NewWatcherValid(paths: seq<string>, d: Option<nat>)
    ensures Valid(NewWatcher(paths, d))
  {
  }

  /** At most one timer is pending per key. */
  lemma OneTimerPerKey(w: Watcher, h1: nat, h2: nat)
    requires Valid(w) && h1 in w.timers.pending && h2 in w.timers.pending
    requires KeyOf(w.timers.pending[h1]) == KeyOf(w.timers.pending[h2])
    ensures h1 == h2
  {
  }

  lemma HandleValid(w: Watcher, t: FsEvent, path: string, rel: string)
    requires Valid(w)
    ensures Valid(HandleFileEvent(w, t, path, rel))
  {
    var ts := w.timers;
    var k := Key(t, path);
    var r := HandleFileEvent(w, t, path, rel).timers;
    var h := ts.nextHandle;
    assert KeyOf(r.pending[h]) == k;
    forall h' | h' in r.pending
      ensures KeyOf(r.pending[h']) in r.debounce && r.debounce[KeyOf(r.pending[h'])] == h'
    {
      if h' != h {
        assert h' in ts.pending && r.pending[h'] == ts.pending[h'];
        if KeyOf(ts.pending[h']) == k {
          assert false;
        }
      }
    }
  }

  lemma FireValid(w: Watcher, h: nat, at: Instant)
    requires Valid(w)
    ensures Valid(Fire(w, h, at))
  {
  }

  lemma StopValid(w: Watcher)
    requires Valid(w)
    ensures Valid(Stop(w)) && Stop(w).timers.pending == map[]
  {
    var ts := w.timers;
    var r := Stop(w).timers;
    forall h | h in ts.pending
      ensures h in ts.debounce.Values
    {
      assert ts.debounce[KeyOf(ts.pending[h])] == h;
    }
    assert r.pending.Keys == {};
  }

  lemma ApplyValid(w: Watcher, i: Input)
    requires Valid(w)
    ensures Valid(Apply(w, i))
  {
    match i
    case FsNotify(t, path, rel) =>
      if w.watching {
        HandleValid(w, t, path, rel);
      }
    case TimerFires(h, at) => FireValid(w, h, at);
    case ChokidarReady =>
    case ChokidarError(m) =>
    case CallStart =>
      if w.watching {
        StopValid(w);
      }
    case CallStop => StopValid(w);
    case CallAddPath(p) =>
    case CallRemovePath(p) =>
  }

  /** Every reachable watcher keeps one timer per key. */
  lemma {:induction false} RunValid(w: Watcher, inputs: seq<Input>)
    requires Valid(w)
    ensures Valid(Run(w, inputs))
    decreases |inputs|
  {
    if |inputs| > 0 {
      ApplyValid(w, inputs[0]);
      RunValid(Apply(w, inputs[0]), inputs[1..]);
    }
  }

  // ---------------------------------------------------------------------------
  // Debouncing
  // ---------------------------------------------------------------------------

  /** The timer for a key is the one armed by the latest event on that key; the
      timers of other keys are untouched. */
  lemma HandleSupersedes(w: Watcher, t: FsEvent, path: string, rel: string)
    requires Valid(w)
    ensures var r := HandleFileEvent(w, t, path, rel);
      && (forall h | h in r.timers.pending && KeyOf(r.timers.pending[h]) == Key(t, path) :: h == w.timers.nextHandle)
      && (forall h | h in w.timers.pending && KeyOf(w.timers.pending[h]) != Key(t, path) ::
            h in r.timers.pending && r.timers.pending[h] == w.timers.pending[h])
  {
    HandleValid(w, t, path, rel);
  }

  /** A burst of notifications for one key. */
  function Burst(w: Watcher, t: FsEvent, path: string, rels: seq<string>): Watcher
    decreases |rels|
  {
    if |rels| == 0 then w else Burst(HandleFileEvent(w, t, path, rels[0]), t, path, rels[1..])
  }

  /** A burst on one key leaves exactly one timer for it, the last one armed,
      carrying the last notification; timers of other keys are untouched. */
  lemma {:induction false} BurstCoalesces(w: Watcher, t: FsEvent, path: string, rels: seq<string>)
    requires Valid(w) && |rels| > 0
    ensures var r := Burst(w, t, path, rels);
      && Valid(r)
      && r.timers.nextHandle == w.timers.nextHandle + |rels|
      && Key(t, path) in r.timers.debounce
      && var h := r.timers.debounce[Key(t, path)];
      && h == r.timers.nextHandle - 1
      && r.timers.pending[h] == Pending(t, path, rels[|rels| - 1], w.debounceMillis)
      && (forall g | g in r.timers.pending && KeyOf(r.timers.pending[g]) == Key(t, path) :: g == h)
      && (forall g | g in w.timers.pending && KeyOf(w.timers.pending[g]) != Key(t, path) ::
            g in r.timers.pending && r.timers.pending[g] == w.timers.pending[g])
      && r.out == w.out
    decreases |rels|
  {
    var w1 := HandleFileEvent(w, t, path, rels[0]);
    HandleValid(w, t, path, rels[0]);
    HandleSupersedes(w, t, path, rels[0]);
    if |rels| > 1 {
      BurstCoalesces(w1, t, path, rels[1..]);
      assert rels[1..][|rels[1..]| - 1] == rels[|rels| - 1];
    }
  }

  /** When the surviving timer of a burst fires, the key leaves the map first and
      the burst is reported once, with the last notification's data. */
  lemma FireReportsOnce(w: Watcher, h: nat, at: Instant)
    requires Valid(w) && h in w.timers.pending
    ensures var p := w.timers.pending[h];
      var r := Fire(w, h, at);
      && KeyOf(p) !in r.timers.debounce
      && h !in r.timers.pending
      && r.out == w.out + Emissions(FileEvent(p.eventType, p.path, p.relativePath, at.iso))
      && Fire(r, h, at) == r
  {
  }

  /** Different event types on one path debounce independently: an event of one
      type leaves the timer of the other in place. */
  lemma TypesIndependent(w: Watcher, t: FsEvent, u: FsEvent, path: string, rel: string)
    requires Valid(w) && t != u && Key(u, path) in w.timers.debounce
    ensures var r := HandleFileEvent(w, t, path, rel);
      && Key(u, path) in r.timers.debounce
      && r.timers.debounce[Key(u, path)] == w.timers.debounce[Key(u, path)]
      && r.timers.debounce[Key(u, path)] in r.timers.pending
  {
    if Key(u, path) == Key(t, path) {
      KeyInjective(u, path, t, path);
    }
    HandleValid(w, t, path, rel);
  }

  /** After `stop` no timer is pending, so nothing more is reported. */
  lemma StopQuiesces(w: Watcher, h: nat, at: Instant)
    requires Valid(w)
    ensures Fire(Stop(w), h, at) == Stop(w)
  {
    StopValid(w);
  }

  // ---------------------------------------------------------------------------
  // Classifier
  // ---------------------------------------------------------------------------

  /** The classifier, both directions: request files win over response files;
      additions and changes are updates, unlinks deletions. */
  lemma SseTypeCases(t: FsEvent, rel: string)
    ensures SseType(t, rel) == Some("request_updated") <==> Contains(rel, "requests") && t != Unlink
    ensures SseType(t, rel) == Some("request_deleted") <==> Contains(rel, "requests") && t == Unlink
    ensures SseType(t, rel) == Some("response_updated") <==>
      !Contains(rel, "requests") && Contains(rel, "responses") && t != Unlink
    ensures SseType(t, rel) == Some("response_deleted") <==>
      !Contains(rel, "requests") && Contains(rel, "responses") && t == Unlink
    ensures SseType(t, rel).None? <==> !Contains(rel, "requests") && !Contains(rel, "responses")
  {
    assert "request_updated" != "request_deleted" by { assert "request_updated"[8] != "request_deleted"[8]; }
    assert "request_updated" != "response_updated" by { assert "request_updated"[3] != "response_updated"[3]; }
    assert "request_updated" != "response_deleted" by { assert "request_updated"[3] != "response_deleted"[3]; }
    assert "request_deleted" != "response_updated" by { assert "request_deleted"[3] != "response_updated"[3]; }
    assert "request_deleted" != "response_deleted" by { assert "request_deleted"[3] != "response_deleted"[3]; }
    assert "response_updated" != "response_deleted" by { assert "response_updated"[9] != "response_deleted"[9]; }
  }

  /** A path under `data/requests/` that also mentions responses is a request file. */
  lemma RequestsWins(t: FsEvent, pre: string, post: string)
    ensures SseType(t, pre + "requests" + post).Some?
    ensures SseType(t, pre + "requests" + post).value in {"request_updated", "request_deleted"}
  {
    ContainsInContext(pre, "requests", post);
  }

  // ---------------------------------------------------------------------------
  // Watched paths
  // ---------------------------------------------------------------------------

  /** `filter` keeps exactly the other paths, in order. */
  lemma {:induction false} RemoveMembers(ps: seq<string>, p: string, q: string)
    ensures q in Remove(ps, p) <==> q in ps && q != p
    decreases |ps|
  {
    if |ps| > 0 {
      RemoveMembers(ps[1..], p, q);
      assert ps == [ps[0]] + ps[1..];
    }
  }

  /** Removing a path that is not watched leaves the list as it is. */
  lemma {:induction false} RemoveAbsent(ps: seq<string>, p: string)
    requires p !in ps
    ensures Remove(ps, p) == ps
    decreases |ps|
  {
    if |ps| > 0 {
      RemoveAbsent(ps[1..], p);
      assert ps == [ps[0]] + ps[1..];
    }
  }

  /** `Remove` distributes over concatenation. */
  lemma {:induction false} RemoveAppend(ps: seq<string>, qs: seq<string>, p: string)
    ensures Remove(ps + qs, p) == Remove(ps, p) + Remove(qs, p)
    decreases |ps|
  {
    if |ps| > 0 {
      assert (ps + qs)[1..] == ps[1..] + qs;
      RemoveAppend(ps[1..], qs, p);
    } else {
      assert ps + qs == qs;
    }
  }

  /** Removing twice is removing once. */
  lemma RemoveIdempotent(ps: seq<string>, p: string)
    ensures Remove(Remove(ps, p), p) == Remove(ps, p)
  {
    forall q ensures q in Remove(ps, p) ==> q != p {
      RemoveMembers(ps, p, q);
    }
    RemoveAbsent(Remove(ps, p), p);
  }

  /** `removePath` undoes `addPath` of a path that was not being watched, and
      removes every copy of one that was. */
  lemma AddThenRemove(w: Watcher, p: string)
    ensures p !in w.paths ==> RemovePath(AddPath(w, p), p) == w
    ensures p !in RemovePath(AddPath(w, p), p).paths
  {
    RemoveAppend(w.paths, [p], p);
    assert Remove([p], p) == [];
    if p !in w.paths {
      RemoveAbsent(w.paths, p);
    }
    RemoveMembers(w.paths + [p], p, p);
  }
}
