/** The poll watcher over the tracking file (`ClaudeFileWatcher`): it remembers the
    last text it read and the ids it has already seen, and on each poll reports
    the pending entries whose id is new. Each read of the file is an input. */
module ClaudeFileWatcher {
  import opened Wrappers
  import opened Json
  import opened Records
  import opened Text

  /** Poll period when the caller passes none, in milliseconds. */
  const DefaultCheckIntervalMillis := 2000

  datatype Poller = Poller(
    checkIntervalMillis: nat,
    lastContent: Option<string>,
    watching: bool,
    polling: bool,
    known: set<Json>,
    reported: seq<seq<Json>>)

  /** `new ClaudeFileWatcher(filePath, checkInterval)`. */
  function NewPoller(checkInterval: Option<nat>): (p: Poller)
    ensures !p.watching && !p.polling && p.known == {} && p.lastContent.None? && p.reported == []
  {
    Poller(if checkInterval.Some? then checkInterval.value else DefaultCheckIntervalMillis, None, false, false, {}, [])
  }

  // ---------------------------------------------------------------------------
  // Folding over the entries
  // ---------------------------------------------------------------------------

  /** `requests.forEach(req => { if (req.request && req.request.id) known.add(id) })`:
      the ids seen and whether the loop ran to the end. A `null` entry throws
      after the earlier ids were added. */
  function LoadIds(xs: seq<Json>, known: set<Json>): (r: (set<Json>, bool))
    ensures known <= r.0
    decreases |xs|
  {
    if |xs| == 0 then (known, true)
    else
      match JsRequestId(xs[0])
      case Err(_) => (known, false)
      case Ok(id) => LoadIds(xs[1..], if id.Some? then known + {id.value} else known)
  }

  /** `knownRequestIds.has(id)` for an id read from a fresh parse: a `Set` finds a
      primitive by value, but an array or object id is a new object that no
      earlier `add` put there. */
  predicate Known(known: set<Json>, id: Json) {
    Primitive(id) && id in known
  }

  /** The outcome of the loop in `checkForChanges`. */
  datatype Scan = Scanned(found: seq<Json>, known: set<Json>) | Aborted(known: set<Json>)

  /** One entry of `checkForChanges`: a pending entry with a truthy id that the
      set does not find is reported and its id is added. */
  function ScanEntries(xs: seq<Json>, known: set<Json>): (r: Scan)
    ensures known <= r.known
    decreases |xs|
  {
    if |xs| == 0 then Scanned([], known)
    else
      match JsPending(xs[0])
      case Err(_) => Aborted(known)
      case Ok(pending) =>
        if !pending then ScanEntries(xs[1..], known)
        else
          match JsRequestId(xs[0])
          case Err(_) => Aborted(known)
          case Ok(id) =>
            if id.None? || Known(known, id.value) then ScanEntries(xs[1..], known)
            else
              match ScanEntries(xs[1..], known + {id.value})
              case Scanned(found, k) => Scanned([xs[0]] + found, k)
              case Aborted(k) => Aborted(k)
  }

  /** `JSON.parse` gave a list the loop can walk; anything else makes `forEach`
      throw before the first entry. */
  function Entries(j: Json): Option<seq<Json>> {
    if j.Arr? then Some(j.items) else None
  }

  // ---------------------------------------------------------------------------
  // Operations
  // ---------------------------------------------------------------------------

  /** `loadInitialContent()`. Any failure leaves `lastContent` null; ids added
      before a failing entry stay known. */
  function LoadInitial(p: Poller, read: Read): (r: Poller)
    ensures p.known <= r.known
    ensures r.(lastContent := p.lastContent, known := p.known) == p
  {
    match read
    case NoFile => p.(lastContent := None)
    case ReadFailed => p.(lastContent := None)
    case Content(text, parsed) =>
      if parsed.None? || Entries(parsed.value).None? then p.(lastContent := None)
      else
        var (k, ok) := LoadIds(Entries(parsed.value).value, p.known);
        p.(lastContent := if ok then Some(text) else None, known := k)
  }

  /** `start()`: a no-op while watching; otherwise load the file and start polling. */
  function Start(p: Poller, read: Read): (r: Poller)
    ensures p.watching ==> r == p
    ensures !p.watching ==> r.watching && r.polling && r == LoadInitial(p, read).(watching := true, polling := true)
  {
    if p.watching then p else LoadInitial(p.(watching := true), read).(polling := true)
  }

  /** `stop()`. */
  function Stop(p: Poller): (r: Poller)
    ensures !r.watching && !r.polling && r.(watching := p.watching, polling := p.polling) == p
  {
    p.(watching := false, polling := false)
  }

  /** `checkForChanges()` with the result of reading the file. */
  function Check(p: Poller, read: Read): (r: Poller)
    ensures r.watching == p.watching && r.polling == p.polling
    ensures r.reported != p.reported ==>
      (&& read.Content? && p.lastContent != Some(read.text)
       && read.parsed.Some? && Entries(read.parsed.value).Some?
       && ScanEntries(Entries(read.parsed.value).value, p.known).Scanned?
       && r.reported == p.reported + [ScanEntries(Entries(read.parsed.value).value, p.known).found])
    ensures (&& read.Content? && p.lastContent != Some(read.text)
             && read.parsed.Some? && Entries(read.parsed.value).Some?
             && ScanEntries(Entries(read.parsed.value).value, p.known).Scanned?
             && |ScanEntries(Entries(read.parsed.value).value, p.known).found| > 0) ==>
      r.reported == p.reported + [ScanEntries(Entries(read.parsed.value).value, p.known).found]
    ensures (&& read.Content? && p.lastContent != Some(read.text)
             && read.parsed.Some? && Entries(read.parsed.value).Some?) ==>
      var s := ScanEntries(Entries(read.parsed.value).value, p.known);
      && r.known == s.known
      && (s.Scanned? ==> r.lastContent == Some(read.text))
      && (s.Aborted? ==> r.lastContent == p.lastContent && r.reported == p.reported)
  {
    match read
    case NoFile => if p.lastContent.Some? then p.(lastContent := None, known := {}) else p
    case ReadFailed => p
    case Content(text, parsed) =>
      if p.lastContent == Some(text) then p
      else if parsed.None? || Entries(parsed.value).None? then p
      else
        match ScanEntries(Entries(parsed.value).value, p.known)
        case Aborted(k) => p.(known := k)
        case Scanned(found, k) =>
          p.(known := k, lastContent := Some(text),
             reported := if |found| > 0 then p.reported + [found] else p.reported)
  }

  /** Start, stop and the ticks of the poll interval, which only run while it is set. */
  datatype Input = CallStart(read: Read) | CallStop | Tick(read: Read)

  function Apply(p: Poller, i: Input): Poller {
    match i
    case CallStart(read) => Start(p, read)
    case CallStop => Stop(p)
    case Tick(read) => if p.polling then Check(p, read) else p
  }

  // ---------------------------------------------------------------------------
  // Properties of the loop
  // ---------------------------------------------------------------------------

  /** An entry the watcher treats as a request notice. */
  predicate Notice(x: Json) {
    JsPending(x) == Ok(true) && JsRequestId(x).Ok? && JsRequestId(x).value.Some?
  }

  function IdOf(x: Json): Json
    requires Notice(x)
  {
    JsRequestId(x).value.value
  }

  /** The ids of a list of notices. */
  function Ids(xs: seq<Json>): set<Json>
    requires forall i | 0 <= i < |xs| :: Notice(xs[i])
    decreases |xs|
  {
    if |xs| == 0 then {} else {IdOf(xs[0])} + Ids(xs[1..])
  }

  /** No two notices share an id the set can find again: a primitive id occurs
      at most once, while array and object ids may repeat. */
  predicate DistinctIds(xs: seq<Json>)
    requires forall i | 0 <= i < |xs| :: Notice(xs[i])
    decreases |xs|
  {
    |xs| == 0 || (!Known(Ids(xs[1..]), IdOf(xs[0])) && DistinctIds(xs[1..]))
  }

  lemma {:induction false} IdsContain(xs: seq<Json>, i: nat)
    requires forall j | 0 <= j < |xs| :: Notice(xs[j])
    requires i < |xs|
    ensures IdOf(xs[i]) in Ids(xs)
    decreases |xs|
  {
    if i > 0 {
      IdsContain(xs[1..], i - 1);
    }
  }

  /** An id in the ids of a list belongs to one of its notices. */
  lemma {:induction false} IdsMember(xs: seq<Json>, id: Json) returns (i: nat)
    requires forall j | 0 <= j < |xs| :: Notice(xs[j])
    requires id in Ids(xs)
    ensures i < |xs| && IdOf(xs[i]) == id
    decreases |xs|
  {
    if IdOf(xs[0]) == id {
      i := 0;
    } else {
      var k := IdsMember(xs[1..], id);
      i := k + 1;
    }
  }

  /** What one scan promises about the entries it reports, relative to the ids
      known before it. */
  ghost predicate ScanOk(found: seq<Json>, known: set<Json>, after: set<Json>) {
    && (forall i | 0 <= i < |found| :: Notice(found[i]) && !Known(known, IdOf(found[i])))
    && DistinctIds(found)
    && after == known + Ids(found)
  }

  lemma ScanOkCons(x: Json, t: seq<Json>, known: set<Json>, after: set<Json>)
    requires Notice(x) && !Known(known, IdOf(x))
    requires ScanOk(t, known + {IdOf(x)}, after)
    ensures ScanOk([x] + t, known, after)
  {
    var r := [x] + t;
    assert r[1..] == t;
    assert r[0] == x;
    if Known(Ids(t), IdOf(x)) {
      var j := IdsMember(t, IdOf(x));
      assert false;
    }
  }

  /** Soundness of one scan: every reported entry is a notice whose id the set
      did not find, no primitive id is reported twice, and the known set grows by
      exactly the reported ids. */
  lemma {:induction false} ScanSound(xs: seq<Json>, known: set<Json>)
    requires ScanEntries(xs, known).Scanned?
    ensures ScanOk(ScanEntries(xs, known).found, known, ScanEntries(xs, known).known)
    decreases |xs|
  {
    if |xs| > 0 {
      var x := xs[0];
      if JsPending(x).value && JsRequestId(x).value.Some? && !Known(known, JsRequestId(x).value.value) {
        var id := JsRequestId(x).value.value;
        ScanSound(xs[1..], known + {id});
        var t := ScanEntries(xs[1..], known + {id});
        ScanOkCons(x, t.found, known, t.known);
      } else {
        ScanSound(xs[1..], known);
      }
    }
  }

  /** The reported entries come in file order. */
  lemma {:induction false} ScanOrdered(xs: seq<Json>, known: set<Json>)
    requires ScanEntries(xs, known).Scanned?
    ensures Subsequence(ScanEntries(xs, known).found, xs)
    decreases |xs|
  {
    if |xs| > 0 {
      var x := xs[0];
      if JsPending(x).value && JsRequestId(x).value.Some? && !Known(known, JsRequestId(x).value.value) {
        var id := JsRequestId(x).value.value;
        ScanOrdered(xs[1..], known + {id});
        var t := ScanEntries(xs[1..], known + {id});
        var r := [x] + t.found;
        assert r[0] == xs[0] && r[1..] == t.found;
      } else {
        ScanOrdered(xs[1..], known);
        var r := ScanEntries(xs[1..], known).found;
        if |r| > 0 {
          assert Subsequence(r, xs[1..]);
        }
      }
    }
  }

  /** Every reported entry's id was one the set did not find. */
  lemma ScanReportsNew(xs: seq<Json>, known: set<Json>, i: nat)
    requires ScanEntries(xs, known).Scanned? && i < |ScanEntries(xs, known).found|
    ensures Notice(ScanEntries(xs, known).found[i])
    ensures !Known(known, IdOf(ScanEntries(xs, known).found[i]))
  {
    ScanSound(xs, known);
  }

  /** Completeness of one scan: every notice's id is in the set afterwards, so
      one with a primitive id is found, and skipped, by every later scan. */
  /** The set the rest of a scan starts from, once its first entry is handled. */
  function NextKnown(x: Json, known: set<Json>): (k: set<Json>)
    requires JsPending(x).Ok? && (JsPending(x).value ==> JsRequestId(x).Ok?)
    ensures known <= k
    ensures Notice(x) ==> IdOf(x) in k
  {
    if JsPending(x).value && JsRequestId(x).value.Some? && !Known(known, JsRequestId(x).value.value)
    then known + {JsRequestId(x).value.value}
    else known
  }

  lemma ScanStep(xs: seq<Json>, known: set<Json>)
    requires |xs| > 0 && ScanEntries(xs, known).Scanned?
    ensures JsPending(xs[0]).Ok? && (JsPending(xs[0]).value ==> JsRequestId(xs[0]).Ok?)
    ensures ScanEntries(xs[1..], NextKnown(xs[0], known)).Scanned?
    ensures ScanEntries(xs, known).known == ScanEntries(xs[1..], NextKnown(xs[0], known)).known
  {
  }

  lemma {:induction false} ScanComplete(xs: seq<Json>, known: set<Json>, i: nat)
    requires ScanEntries(xs, known).Scanned?
    requires i < |xs| && Notice(xs[i])
    ensures IdOf(xs[i]) in ScanEntries(xs, known).known
    ensures Primitive(IdOf(xs[i])) ==> Known(ScanEntries(xs, known).known, IdOf(xs[i]))
    decreases |xs|
  {
    ScanStep(xs, known);
    if i > 0 {
      ScanComplete(xs[1..], NextKnown(xs[0], known), i - 1);
    }
  }

  /** A file read twice with the same text reports nothing the second time. */
  lemma SameContentIsQuiet(p: Poller, text: string, parsed: Option<Json>)
    requires p.lastContent == Some(text)
    ensures Check(p, Content(text, parsed)) == p
  {
  }

  /** A check that walked new content to the end remembers that content, so
      polling the unchanged file again changes nothing and reports nothing. */
  lemma CompletedCheckSettles(p: Poller, text: string, parsed: Json)
    requires p.lastContent != Some(text)
    requires Entries(parsed).Some? && ScanEntries(Entries(parsed).value, p.known).Scanned?
    ensures Check(p, Content(text, Some(parsed))).lastContent == Some(text)
    ensures Check(p, Content(text, Some(parsed))).known == ScanEntries(Entries(parsed).value, p.known).known
    ensures Check(Check(p, Content(text, Some(parsed))), Content(text, Some(parsed))) == Check(p, Content(text, Some(parsed)))
  {
    SameContentIsQuiet(Check(p, Content(text, Some(parsed))), text, Some(parsed));
  }

  /** Ids of every entry are loaded at start, whatever their status. */
  lemma {:induction false} LoadCoversAll(xs: seq<Json>, known: set<Json>, i: nat)
    requires LoadIds(xs, known).1 && i < |xs|
    requires JsRequestId(xs[i]).Ok? && JsRequestId(xs[i]).value.Some?
    ensures JsRequestId(xs[i]).value.value in LoadIds(xs, known).0
    decreases |xs|
  {
    var id := JsRequestId(xs[0]).value;
    var k := if id.Some? then known + {id.value} else known;
    if i > 0 {
      LoadCoversAll(xs[1..], k, i - 1);
    }
  }

  /** A poll emits only a non-empty list, and `lastContent` moves only after the
      whole list was walked. */
  lemma CheckEmits(p: Poller, read: Read)
    ensures var r := Check(p, read);
      && (r.reported == p.reported || (|r.reported| == |p.reported| + 1 && r.reported[..|p.reported|] == p.reported
                                      && |r.reported[|p.reported|]| > 0))
      && (r.lastContent != p.lastContent ==> read.NoFile? || (read.Content? && r.lastContent == Some(read.text)))
  {
  }

  /** A missing file forgets the ids only when something had been read; any
      other failure leaves the poller as it was. */
  lemma CheckFailures(p: Poller)
    ensures Check(p, ReadFailed) == p
    ensures p.lastContent.None? ==> Check(p, NoFile) == p
    ensures p.lastContent.Some? ==> Check(p, NoFile) == p.(lastContent := None, known := {})
  {
  }

  /** Apart from the missing-file reset, the known ids only grow. */
  lemma KnownGrows(p: Poller, i: Input)
    requires !(i.Tick? && i.read.NoFile?)
    ensures p.known <= Apply(p, i).known
  {
  }

  /** The entries after a throwing entry are never looked at, yet the ids seen
      before it stay known: a new request with a primitive id listed before a
      `null` entry is not reported on this poll, nor on a later one that finds
      the file repaired; an array or object id is reported on the later one. */
  lemma AbortedSwallows(request: Json, id: Json, known: set<Json>)
    requires Truthy(id) && id !in known
    requires request == Obj([("id", id)])
    ensures var x := Obj([("status", Str("pending")), ("request", request)]);
      && Notice(x)
      && ScanEntries([x, Null], known) == Aborted(known + {id})
      && (Primitive(id) ==> ScanEntries([x], known + {id}) == Scanned([], known + {id}))
      && (!Primitive(id) ==> ScanEntries([x], known + {id}) == Scanned([x], known + {id}))
  {
    var x := Obj([("status", Str("pending")), ("request", request)]);
    assert "status"[0] != "request"[0];
    assert Get(x.fields, "status") == Some(Str("pending"));
    assert Get(x.fields[1..], "request") == Some(request);
    assert Get(x.fields, "request") == Some(request);
    assert Get(request.fields, "id") == Some(id);
    assert [x, Null][1..] == [Null];
    assert [x][1..] == [];
  }

  /** An entry whose id is an array or an object is never found in the set, so
      every scan that meets it reports it again, whatever was seen before. */
  lemma ObjectIdReportedAgain(x: Json, known: set<Json>)
    requires Notice(x) && !Primitive(IdOf(x))
    ensures ScanEntries([x], known) == Scanned([x], known + {IdOf(x)})
  {
    assert [x][1..] == [];
  }

  /** So each change of the file re-reports such an entry. */
  lemma ObjectIdRepeats(p: Poller, text: string, x: Json)
    requires p.lastContent != Some(text)
    requires Notice(x) && !Primitive(IdOf(x))
    ensures Check(p, Content(text, Some(Arr([x])))).reported == p.reported + [[x]]
  {
    ObjectIdReportedAgain(x, p.known);
  }
}
