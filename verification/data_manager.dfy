/** The server's persistent stores: the active requests (`requests/active.json`),
    the latest responses (`responses/latest.json`) and the history log
    (`history/log.json`). Each file holds one document `{<list>: [...], metadata:
    {...}}`; every operation reads the whole document, changes it and writes it
    back. Ids (`uuidv4()`) and clock readings are parameters. */
module DataManager {
  import opened Wrappers
  import opened Json
  import opened Text

  /** At most this many responses are kept, newest first. */
  const ResponsesCap: nat := 50
  /** At most this many history entries are kept, newest first. */
  const HistoryCap: nat := 1000
  /** `getHistory` without a limit. */
  const DefaultHistoryLimit: nat := 100
  /** `searchHistory` looks at this many of the newest entries ... */
  const SearchWindow: nat := 1000
  /** ... and returns at most this many hits unless told otherwise. */
  const DefaultSearchLimit: nat := 50

  /** One store document: its list (`requests`, `responses` or `entries`) and its
      metadata object. */
  datatype Store = Store(items: seq<Json>, metadata: seq<(string, Json)>)

  /** `readJSON`: an absent file reads as `null`; any other read or parse error is
      thrown. */
  type File = Stored<Store, string>

  /** The document a store starts from when its file is absent. */
  function Fresh(created: string): (s: Store)
    ensures s.items == []
    ensures Get(s.metadata, "created") == Some(Str(created))
    ensures Get(s.metadata, "version") == Some(Str("1.0.0"))
  {
    var fs := [("created", Str(created)), ("version", Str("1.0.0"))];
    assert "created"[0] != "version"[0];
    assert fs[1..][0] == ("version", Str("1.0.0"));
    Store([], fs)
  }

  /** `await this.readJSON(path) || fresh`: the writers start from an empty document
      when the file is absent. */
  function Load(f: File, created: string): (r: Result<Store, string>)
    ensures r.Err? <==> f.Unparsable?
    ensures f.Present? ==> r == Ok(f.value)
    ensures f.Missing? ==> r == Ok(Fresh(created))
  {
    match f
    case Missing => Ok(Fresh(created))
    case Unparsable(e) => Err(e)
    case Present(s) => Ok(s)
  }

  /** `data ? data.<list> : []`: the readers see an absent file as an empty list. */
  function Items(f: File): (r: Result<seq<Json>, string>)
    ensures r.Err? <==> f.Unparsable?
    ensures f.Present? ==> r == Ok(f.value.items)
    ensures f.Missing? ==> r == Ok([])
  {
    match f
    case Missing => Ok([])
    case Unparsable(e) => Err(e)
    case Present(s) => Ok(s.items)
  }

  /** `updateMetadata`: stamps `metadata.last_updated`; the list and every other
      metadata property are kept. */
  function UpdateMetadata(s: Store, now: string): (r: Store)
    ensures r.items == s.items
    ensures Get(r.metadata, "last_updated") == Some(Str(now))
    ensures forall k | k != "last_updated" :: Get(r.metadata, k) == Get(s.metadata, k)
  {
    s.(metadata := Set(s.metadata, "last_updated", Str(now)))
  }

  // ---------------------------------------------------------------------------
  // Object spread
  // ---------------------------------------------------------------------------

  /** `{...fs, ...more}`: each property of `more` is written in turn. */
  function Spread(fs: seq<(string, Json)>, more: seq<(string, Json)>): seq<(string, Json)>
    decreases |more|
  {
    if |more| == 0 then fs else Spread(Set(fs, more[0].0, more[0].1), more[1..])
  }

  /** The value the last occurrence of `k` in `fs` carries: the one a spread leaves. */
  function Last(fs: seq<(string, Json)>, k: string): Json
    requires k in Keys(fs)
    decreases |fs|
  {
    if k in Keys(fs[1..]) then Last(fs[1..], k) else fs[0].1
  }

  /** With each key once, the last occurrence is the only one. */
  lemma {:induction false} LastIsGet(fs: seq<(string, Json)>, k: string)
    requires UniqueKeys(fs) && k in Keys(fs)
    ensures Get(fs, k) == Some(Last(fs, k))
    decreases |fs|
  {
    assert Keys(fs) == [fs[0].0] + Keys(fs[1..]);
    if k != fs[0].0 {
      LastIsGet(fs[1..], k);
    }
  }

  /** A spread property comes from `more` when `more` has it, from `fs` otherwise. */
  lemma {:induction false} SpreadGet(fs: seq<(string, Json)>, more: seq<(string, Json)>, k: string)
    ensures k in Keys(more) ==> Get(Spread(fs, more), k) == Some(Last(more, k))
    ensures k !in Keys(more) ==> Get(Spread(fs, more), k) == Get(fs, k)
    decreases |more|
  {
    if |more| > 0 {
      assert Keys(more) == [more[0].0] + Keys(more[1..]);
      SpreadGet(Set(fs, more[0].0, more[0].1), more[1..], k);
    }
  }

  // ---------------------------------------------------------------------------
  // Searching lists
  // ---------------------------------------------------------------------------

  /** `x[key] === v`: throws when `x` is `null`. */
  function Matches(x: Json, key: string, v: Option<Json>): (r: Result<bool, string>)
    ensures r.Err? <==> x.Null?
    ensures r == Ok(true) <==> !x.Null? && StrictEquals(Field(x, key), v)
  {
    match JsProp(x, key)
    case Err(e) => Err(e)
    case Ok(p) => Ok(StrictEquals(p, v))
  }

  /** `xs.findIndex(x => x[key] === v)`, with `None` for `-1`: the callback runs
      left to right and its exception ends the search. */
  function FindIndex(xs: seq<Json>, key: string, v: Option<Json>): (r: Result<Option<nat>, string>)
    decreases |xs|
  {
    if |xs| == 0 then Ok(None)
    else
      match Matches(xs[0], key, v)
      case Err(e) => Err(e)
      case Ok(true) => Ok(Some(0))
      case Ok(false) =>
        match FindIndex(xs[1..], key, v)
        case Err(e) => Err(e)
        case Ok(None) => Ok(None)
        case Ok(Some(i)) => Ok(Some(i + 1))
  }

  /** `findIndex` finds the first match, reports `-1` only when nothing matches,
      and throws only on a `null` it reaches before any match. */
  lemma FindIndexFirst(xs: seq<Json>, key: string, v: Option<Json>)
    ensures FindIndex(xs, key, v) == Ok(None) <==>
      forall j | 0 <= j < |xs| :: Matches(xs[j], key, v) == Ok(false)
    ensures forall i: nat | FindIndex(xs, key, v) == Ok(Some(i)) ::
      i < |xs| && Matches(xs[i], key, v) == Ok(true) &&
      forall j | 0 <= j < i :: Matches(xs[j], key, v) == Ok(false)
    ensures FindIndex(xs, key, v).Err? ==> Null in xs
    ensures Null !in xs ==> FindIndex(xs, key, v).Ok?
  {
    FindIndexNone(xs, key, v);
    FindIndexNull(xs, key, v);
    forall i: nat | FindIndex(xs, key, v) == Ok(Some(i))
      ensures i < |xs| && Matches(xs[i], key, v) == Ok(true) &&
        forall j | 0 <= j < i :: Matches(xs[j], key, v) == Ok(false)
    {
      FindIndexAt(xs, key, v, i);
    }
  }

  /** The index found matches and nothing before it does. */
  lemma {:induction false} FindIndexAt(xs: seq<Json>, key: string, v: Option<Json>, i: nat)
    requires FindIndex(xs, key, v) == Ok(Some(i))
    ensures i < |xs| && Matches(xs[i], key, v) == Ok(true)
    ensures forall j | 0 <= j < i :: Matches(xs[j], key, v) == Ok(false)
    decreases |xs|
  {
    if i > 0 {
      assert Matches(xs[0], key, v) == Ok(false);
      FindIndexAt(xs[1..], key, v, i - 1);
      assert xs[i] == xs[1..][i - 1];
      forall j | 1 <= j < i ensures Matches(xs[j], key, v) == Ok(false) {
        assert xs[j] == xs[1..][j - 1];
      }
    }
  }

  /** `findIndex` reports `-1` exactly when nothing matches. */
  lemma {:induction false} FindIndexNone(xs: seq<Json>, key: string, v: Option<Json>)
    ensures FindIndex(xs, key, v) == Ok(None) <==>
      forall j | 0 <= j < |xs| :: Matches(xs[j], key, v) == Ok(false)
    decreases |xs|
  {
    if |xs| > 0 {
      FindIndexNone(xs[1..], key, v);
      if Matches(xs[0], key, v) == Ok(false) {
        if FindIndex(xs, key, v) == Ok(None) {
          forall j | 0 <= j < |xs| ensures Matches(xs[j], key, v) == Ok(false) {
            if j > 0 { assert xs[j] == xs[1..][j - 1]; }
          }
        }
        if forall j | 0 <= j < |xs| :: Matches(xs[j], key, v) == Ok(false) {
          forall j | 0 <= j < |xs[1..]| ensures Matches(xs[1..][j], key, v) == Ok(false) {
            assert xs[1..][j] == xs[j + 1];
          }
        }
      }
    }
  }

  /** `findIndex` throws only on a `null` in the list. */
  lemma {:induction false} FindIndexNull(xs: seq<Json>, key: string, v: Option<Json>)
    ensures FindIndex(xs, key, v).Err? ==> Null in xs
    ensures Null !in xs ==> FindIndex(xs, key, v).Ok?
    decreases |xs|
  {
    if |xs| > 0 {
      FindIndexNull(xs[1..], key, v);
      if Null in xs[1..] {
        var j :| 0 <= j < |xs[1..]| && xs[1..][j] == Null;
        assert xs[j + 1] == Null;
      }
    }
  }

  /** `xs[i]` is the first element with `x[key] === v`. */
  predicate FirstMatch(xs: seq<Json>, key: string, v: Option<Json>, i: int) {
    0 <= i < |xs| && Matches(xs[i], key, v) == Ok(true) &&
    forall j | 0 <= j < i :: Matches(xs[j], key, v) == Ok(false)
  }

  /** `xs.find(x => x[key] === v)`: the first element that matches, `undefined`
      exactly when none does, and the exception of a `null` reached first. */
  function Find(xs: seq<Json>, key: string, v: Option<Json>): (r: Result<Option<Json>, string>)
    ensures r.Err? ==> Null in xs
    ensures Null !in xs ==> r.Ok?
    ensures r == Ok(None) <==> forall j | 0 <= j < |xs| :: Matches(xs[j], key, v) == Ok(false)
    ensures r.Ok? && r.value.Some? ==> exists i :: FirstMatch(xs, key, v, i) && r.value.value == xs[i]
  {
    FindIndexFirst(xs, key, v);
    match FindIndex(xs, key, v)
    case Err(e) => Err(e)
    case Ok(None) => Ok(None)
    case Ok(Some(i)) =>
      FindIndexAt(xs, key, v, i);
      assert FirstMatch(xs, key, v, i);
      Ok(Some(xs[i]))
  }

  /** `xs.filter(x => x[key] === v)`. */
  function Filter(xs: seq<Json>, key: string, v: Option<Json>): (r: Result<seq<Json>, string>)
    ensures r.Err? <==> Null in xs
    decreases |xs|
  {
    if |xs| == 0 then Ok([])
    else
      match Matches(xs[0], key, v)
      case Err(e) => Err(e)
      case Ok(b) =>
        match Filter(xs[1..], key, v)
        case Err(e) => Err(e)
        case Ok(rest) => Ok(if b then [xs[0]] + rest else rest)
  }

  /** The filter keeps exactly the matching elements, in their order. */
  lemma {:induction false} FilterExact(xs: seq<Json>, key: string, v: Option<Json>)
    requires Null !in xs
    ensures Subsequence(Filter(xs, key, v).value, xs)
    ensures forall x | x in Filter(xs, key, v).value :: StrictEquals(Field(x, key), v)
    ensures forall x | x in xs && StrictEquals(Field(x, key), v) :: x in Filter(xs, key, v).value
    decreases |xs|
  {
    if |xs| > 0 {
      FilterExact(xs[1..], key, v);
      var rest := Filter(xs[1..], key, v).value;
      var r := Filter(xs, key, v).value;
      SubsequenceCons(rest, xs);
      if StrictEquals(Field(xs[0], key), v) {
        assert r == [xs[0]] + rest && r[1..] == rest;
      }
    }
  }

  // ---------------------------------------------------------------------------
  // Requests
  // ---------------------------------------------------------------------------

  /** `{id, ...requestData, timestamp, status: 'pending'}`. */
  function NewRequest(data: Json, id: string, at: string): Json {
    Obj(Set(Set(Spread([("id", Str(id))], FieldsOf(data)), "timestamp", Str(at)), "status", Str("pending")))
  }

  /** A new request is pending and stamped with the server's time whatever the body
      says; its id is the generated one unless the body carries its own `id`; every
      other property is the body's. */
  lemma NewRequestFields(data: Json, id: string, at: string, k: string)
    ensures Field(NewRequest(data, id, at), "status") == Some(Str("pending"))
    ensures Field(NewRequest(data, id, at), "timestamp") == Some(Str(at))
    ensures Field(NewRequest(data, id, at), "id") ==
      if "id" in Keys(FieldsOf(data)) then Some(Last(FieldsOf(data), "id")) else Some(Str(id))
    ensures k != "status" && k != "timestamp" && k != "id" ==>
      Field(NewRequest(data, id, at), k) ==
        if k in Keys(FieldsOf(data)) then Some(Last(FieldsOf(data), k)) else None
  {
    SpreadGet([("id", Str(id))], FieldsOf(data), k);
    SpreadGet([("id", Str(id))], FieldsOf(data), "id");
    if k != "id" {
      assert Get([("id", Str(id))], k) == Get([("id", Str(id))][1..], k);
    }
  }

  /** When the data has no `id` of its own, the stored request keeps the generated
      id and every other property of the data except the status and timestamp. */
  lemma StoredRequestField(data: Json, id: string, at: string, k: string)
    requires data.Obj? && UniqueKeys(data.fields) && Field(data, "id").None?
    ensures Field(NewRequest(data, id, at), "id") == Some(Str(id))
    ensures k != "status" && k != "timestamp" && k != "id" ==> Field(NewRequest(data, id, at), k) == Field(data, k)
  {
    NewRequestFields(data, id, at, k);
    if k in Keys(data.fields) {
      LastIsGet(data.fields, k);
    }
  }

  /** `createRequest`: appends the new request to the active list (creating the
      document when the file is absent) and stamps the metadata. */
  function CreateRequest(f: File, data: Json, id: string, at: string): (r: Result<(Store, Json), string>)
    ensures r.Err? <==> f.Unparsable?
    ensures r.Ok? ==> r.value.1 == NewRequest(data, id, at)
    ensures r.Ok? && f.Present? ==> r.value.0.items == f.value.items + [r.value.1]
    ensures r.Ok? && f.Missing? ==> r.value.0.items == [r.value.1]
    ensures r.Ok? ==> r.value.0.items == Items(f).value + [r.value.1]
    ensures r.Ok? ==> Get(r.value.0.metadata, "last_updated") == Some(Str(at))
  {
    match Load(f, at)
    case Err(e) => Err(e)
    case Ok(s) =>
      var request := NewRequest(data, id, at);
      assert f.Missing? ==> [] + [request] == [request];
      Ok((UpdateMetadata(s.(items := s.items + [request]), at), request))
  }

  /** `getRequests`. */
  function GetRequests(f: File): Result<seq<Json>, string> {
    Items(f)
  }

  /** `getRequest` and `getResponse`: `list.find(x => x.id === id)` over the list of
      a document. An absent file has nothing to find; otherwise the answer is the
      first element with that id, `undefined` exactly when no element has it, or
      the `TypeError` of a `null` met before a match. */
  function FindById(f: File, id: Option<Json>): (r: Result<Option<Json>, string>)
    ensures f.Missing? ==> r == Ok(None)
    ensures f.Unparsable? ==> r.Err?
    ensures f.Present? && r.Err? ==> Null in f.value.items
    ensures f.Present? && Null !in f.value.items ==> r.Ok?
    ensures f.Present? ==>
      (r == Ok(None) <==> forall j | 0 <= j < |f.value.items| :: Matches(f.value.items[j], "id", id) == Ok(false))
    ensures r.Ok? && r.value.Some? ==>
      f.Present? && exists i :: FirstMatch(f.value.items, "id", id, i) && r.value.value == f.value.items[i]
  {
    match Items(f)
    case Err(e) => Err(e)
    case Ok(xs) => Find(xs, "id", id)
  }

  /** Some record of `xs` has `x.id === id`. */
  predicate HoldsId(xs: seq<Json>, id: Option<Json>) {
    exists j | 0 <= j < |xs| :: StrictEquals(Field(xs[j], "id"), id)
  }

  /** A stored record with the id is found: a list without `null`s that holds a
      record whose `id` is `id` gives the first such record. */
  lemma StoredIdFound(f: File, id: Option<Json>, k: nat)
    requires f.Present? && Null !in f.value.items
    requires k < |f.value.items| && StrictEquals(Field(f.value.items[k], "id"), id)
    ensures FindById(f, id).Ok? && FindById(f, id).value.Some?
    ensures exists i :: (0 <= i <= k && FirstMatch(f.value.items, "id", id, i) &&
                         FindById(f, id).value.value == f.value.items[i])
  {
    var xs := f.value.items;
    assert Matches(xs[k], "id", id) == Ok(true);
    var r := FindById(f, id);
    var i :| FirstMatch(xs, "id", id, i) && r.value.value == xs[i];
  }

  /** `getRequest`: the first request whose id is `id`. */
  function GetRequest(f: File, id: Option<Json>): Result<Option<Json>, string> {
    FindById(f, id)
  }

  /** The error `updateRequest` and `deleteRequest` throw when no document exists. */
  const NoActiveFile: string := "No active requests file found"

  /** The error they throw when no request has the id. */
  function RequestNotFound(id: Option<Json>): string {
    "Request with id " + JsString(id) + " not found"
  }

  /** `{...prev, ...updates, updated_at}`. */
  function Updated(prev: Json, updates: Json, at: string): Json {
    Obj(Set(Spread(FieldsOf(prev), FieldsOf(updates)), "updated_at", Str(at)))
  }

  /** `updateRequest`: overlays the first request with the id. */
  function UpdateRequest(f: File, id: Option<Json>, updates: Json, at: string): (r: Result<(Store, Json), string>)
    ensures f.Missing? ==> r == Err(NoActiveFile)
    ensures f.Present? && FindIndex(f.value.items, "id", id) == Ok(None) ==> r == Err(RequestNotFound(id))
    ensures r.Ok? ==> f.Present? && |r.value.0.items| == |f.value.items|
  {
    match f
    case Missing => Err(NoActiveFile)
    case Unparsable(e) => Err(e)
    case Present(s) =>
      match FindIndex(s.items, "id", id)
      case Err(e) => Err(e)
      case Ok(None) => Err(RequestNotFound(id))
      case Ok(Some(i)) =>
        FindIndexFirst(s.items, "id", id);
        var u := Updated(s.items[i], updates, at);
        Ok((UpdateMetadata(s.(items := s.items[i := u]), at), u))
  }

  /** Exactly the first request with the id changes: it takes every property of
      `updates`, keeps its others and gains `updated_at`. */
  lemma UpdateRequestEffect(f: File, id: Option<Json>, updates: Json, at: string, i: nat, k: string)
    requires f.Present? && FindIndex(f.value.items, "id", id) == Ok(Some(i))
    ensures UpdateRequest(f, id, updates, at).Ok?
    ensures i < |f.value.items|
    ensures UpdateRequest(f, id, updates, at).value.0.items == f.value.items[i := UpdateRequest(f, id, updates, at).value.1]
    ensures Field(UpdateRequest(f, id, updates, at).value.1, "updated_at") == Some(Str(at))
    ensures k != "updated_at" && k in Keys(FieldsOf(updates)) ==>
      Field(UpdateRequest(f, id, updates, at).value.1, k) == Some(Last(FieldsOf(updates), k))
    ensures k != "updated_at" && k !in Keys(FieldsOf(updates)) ==>
      Field(UpdateRequest(f, id, updates, at).value.1, k) == Field(f.value.items[i], k)
  {
    FindIndexFirst(f.value.items, "id", id);
    SpreadGet(FieldsOf(f.value.items[i]), FieldsOf(updates), k);
  }

  /** `deleteRequest`: removes the first request with the id, stamps the metadata
      and returns the removed request. */
  function DeleteRequest(f: File, id: Option<Json>, at: string): (r: Result<(Store, Json), string>)
    ensures f.Missing? ==> r == Err(NoActiveFile)
    ensures f.Present? && FindIndex(f.value.items, "id", id) == Ok(None) ==> r == Err(RequestNotFound(id))
    ensures r.Ok? ==> f.Present? && |r.value.0.items| + 1 == |f.value.items|
    ensures r.Ok? ==> StrictEquals(Field(r.value.1, "id"), id)
    ensures r.Ok? ==> Get(r.value.0.metadata, "last_updated") == Some(Str(at))
  {
    match f
    case Missing => Err(NoActiveFile)
    case Unparsable(e) => Err(e)
    case Present(s) =>
      match FindIndex(s.items, "id", id)
      case Err(e) => Err(e)
      case Ok(None) => Err(RequestNotFound(id))
      case Ok(Some(i)) =>
        FindIndexFirst(s.items, "id", id);
        Ok((UpdateMetadata(s.(items := s.items[..i] + s.items[i + 1..]), at), s.items[i]))
  }

  /** Exactly the first request with the id is removed and returned; the requests
      before and after it keep their order. */
  lemma DeleteRequestEffect(f: File, id: Option<Json>, at: string, i: nat)
    requires f.Present? && FindIndex(f.value.items, "id", id) == Ok(Some(i))
    ensures DeleteRequest(f, id, at).Ok?
    ensures i < |f.value.items|
    ensures DeleteRequest(f, id, at).value.1 == f.value.items[i]
    ensures DeleteRequest(f, id, at).value.0.items == f.value.items[..i] + f.value.items[i + 1..]
    ensures forall j | 0 <= j < i :: Matches(f.value.items[j], "id", id) == Ok(false)
  {
    var s := f.value;
    FindIndexAt(s.items, "id", id, i);
    assert DeleteRequest(f, id, at) == Ok((UpdateMetadata(s.(items := s.items[..i] + s.items[i + 1..]), at), s.items[i]));
  }

  // ---------------------------------------------------------------------------
  // Responses
  // ---------------------------------------------------------------------------

  /** `{id, ...responseData, timestamp}`. */
  function NewResponse(data: Json, id: string, at: string): (r: Json)
    ensures Field(r, "timestamp") == Some(Str(at))
  {
    Obj(Set(Spread([("id", Str(id))], FieldsOf(data)), "timestamp", Str(at)))
  }

  /** A new response is stamped with the server's time; its id is the generated one
      unless the body carries its own `id`; every other property is the body's. */
  lemma NewResponseFields(data: Json, id: string, at: string, k: string)
    ensures Field(NewResponse(data, id, at), "timestamp") == Some(Str(at))
    ensures Field(NewResponse(data, id, at), "id") ==
      if "id" in Keys(FieldsOf(data)) then Some(Last(FieldsOf(data), "id")) else Some(Str(id))
    ensures k != "timestamp" && k != "id" ==>
      Field(NewResponse(data, id, at), k) ==
        if k in Keys(FieldsOf(data)) then Some(Last(FieldsOf(data), k)) else None
  {
    SpreadGet([("id", Str(id))], FieldsOf(data), k);
    SpreadGet([("id", Str(id))], FieldsOf(data), "id");
    if k != "id" {
      assert Get([("id", Str(id))], k) == Get([("id", Str(id))][1..], k);
    }
  }

  /** When the data has no `id` of its own, the stored response keeps the generated
      id and every other property of the data except the timestamp. */
  lemma StoredResponseField(data: Json, id: string, at: string, k: string)
    requires data.Obj? && UniqueKeys(data.fields) && Field(data, "id").None?
    ensures Field(NewResponse(data, id, at), "id") == Some(Str(id))
    ensures k != "timestamp" && k != "id" ==> Field(NewResponse(data, id, at), k) == Field(data, k)
  {
    NewResponseFields(data, id, at, k);
    if k in Keys(data.fields) {
      LastIsGet(data.fields, k);
    }
  }

  /** Puts `x` in front of `xs` and keeps the newest `cap`. */
  function Prepend(x: Json, xs: seq<Json>, cap: nat): (r: seq<Json>)
    requires cap > 0
    ensures |r| == Min(|xs| + 1, cap)
    ensures r[0] == x
    ensures r[1..] == xs[..|r| - 1]
  {
    var r := Take([x] + xs, cap);
    assert r[1..] == ([x] + xs)[1..|r|];
    r
  }

  /** `createResponse`: the new response goes first and the list keeps the newest
      fifty. */
  function CreateResponse(f: File, data: Json, id: string, at: string): (r: Result<(Store, Json), string>)
    ensures r.Err? <==> f.Unparsable?
    ensures r.Ok? ==> r.value.1 == NewResponse(data, id, at)
    ensures r.Ok? && f.Present? ==> r.value.0.items == Prepend(r.value.1, f.value.items, ResponsesCap)
    ensures r.Ok? && f.Missing? ==> r.value.0.items == [r.value.1]
  {
    match Load(f, at)
    case Err(e) => Err(e)
    case Ok(s) =>
      var response := NewResponse(data, id, at);
      Ok((UpdateMetadata(s.(items := Prepend(response, s.items, ResponsesCap)), at), response))
  }

  /** `getResponses`. */
  function GetResponses(f: File): Result<seq<Json>, string> {
    Items(f)
  }

  /** `getResponse`: the first response whose id is `id`. */
  function GetResponse(f: File, id: Option<Json>): Result<Option<Json>, string> {
    FindById(f, id)
  }

  /** `getResponsesByRequestId`: the responses to one request, newest first. */
  function GetResponsesByRequestId(f: File, requestId: Option<Json>): (r: Result<seq<Json>, string>)
    ensures f.Missing? ==> r == Ok([])
    ensures f.Present? ==> (r.Err? <==> Null in f.value.items)
  {
    match Items(f)
    case Err(e) => Err(e)
    case Ok(xs) => Filter(xs, "request_id", requestId)
  }

  /** The responses for a request are exactly the stored ones that name it. */
  lemma ResponsesByRequestIdExact(f: File, requestId: Option<Json>, x: Json)
    requires f.Present? && Null !in f.value.items
    ensures GetResponsesByRequestId(f, requestId).Ok?
    ensures x in GetResponsesByRequestId(f, requestId).value <==>
      x in f.value.items && StrictEquals(Field(x, "request_id"), requestId)
    ensures Subsequence(GetResponsesByRequestId(f, requestId).value, f.value.items)
  {
    FilterExact(f.value.items, "request_id", requestId);
    if x in GetResponsesByRequestId(f, requestId).value {
      SubsequenceIn(GetResponsesByRequestId(f, requestId).value, f.value.items, x);
    }
  }

  // ---------------------------------------------------------------------------
  // History
  // ---------------------------------------------------------------------------

  /** `{id, type, data, timestamp}`. */
  function NewEntry(kind: string, data: Json, id: string, at: string): (e: Json)
    ensures Field(e, "data") == Some(data)
    ensures Field(e, "type") == Some(Str(kind))
  {
    var fs := [("id", Str(id)), ("type", Str(kind)), ("data", data), ("timestamp", Str(at))];
    assert "id"[0] != "type"[0] && "id"[0] != "data"[0] && "type"[0] != "data"[0];
    assert fs[1..][0] == ("type", Str(kind));
    assert fs[1..][1..][0] == ("data", data);
    assert Get(fs, "data") == Get(fs[1..], "data") == Get(fs[1..][1..], "data");
    assert Get(fs, "type") == Get(fs[1..], "type");
    Obj(fs)
  }

  /** `addToHistory`: the entry goes first and the log keeps the newest thousand. */
  function AddToHistory(f: File, kind: string, data: Json, id: string, at: string): (r: Result<(Store, Json), string>)
    ensures r.Err? <==> f.Unparsable?
    ensures r.Ok? ==> r.value.1 == NewEntry(kind, data, id, at)
    ensures r.Ok? && f.Present? ==> r.value.0.items == Prepend(r.value.1, f.value.items, HistoryCap)
    ensures r.Ok? && f.Missing? ==> r.value.0.items == [r.value.1]
  {
    match Load(f, at)
    case Err(e) => Err(e)
    case Ok(s) =>
      var entry := NewEntry(kind, data, id, at);
      Ok((UpdateMetadata(s.(items := Prepend(entry, s.items, HistoryCap)), at), entry))
  }

  /** `getHistory(limit)`: the newest `limit` entries. */
  function GetHistory(f: File, limit: nat): (r: Result<seq<Json>, string>)
    ensures r.Err? <==> f.Unparsable?
    ensures f.Present? ==> r == Ok(f.value.items[..Min(limit, |f.value.items|)])
    ensures f.Missing? ==> r == Ok([])
  {
    match Items(f)
    case Err(e) => Err(e)
    case Ok(xs) => Ok(Take(xs, limit))
  }

  /** Whether an entry's data mentions the query, ignoring ASCII case:
      `JSON.stringify(entry.data).toLowerCase().includes(query.toLowerCase())`.
      Stringifying an entry without `data` gives `undefined`, whose `toLowerCase`
      throws. */
  function Hit(entry: Json, query: string, stringify: Json -> string): (r: Result<bool, string>)
    ensures entry.Obj? && Field(entry, "data").Some? ==>
      r == Ok(Contains(ToLower(stringify(Field(entry, "data").value)), ToLower(query)))
    ensures r.Err? <==> !(entry.Obj? && Field(entry, "data").Some?)
  {
    match JsProp(entry, "data")
    case Err(e) => Err(e)
    case Ok(None) => Err("TypeError: Cannot read properties of undefined")
    case Ok(Some(d)) => Ok(Contains(ToLower(stringify(d)), ToLower(query)))
  }

  /** `history.filter(hit)`. */
  function Hits(xs: seq<Json>, query: string, stringify: Json -> string): (r: Result<seq<Json>, string>)
    decreases |xs|
  {
    if |xs| == 0 then Ok([])
    else
      match Hit(xs[0], query, stringify)
      case Err(e) => Err(e)
      case Ok(b) =>
        match Hits(xs[1..], query, stringify)
        case Err(e) => Err(e)
        case Ok(rest) => Ok(if b then [xs[0]] + rest else rest)
  }

  /** The filter fails exactly when some entry has no data. */
  lemma {:induction false} HitsFail(xs: seq<Json>, query: string, stringify: Json -> string)
    ensures Hits(xs, query, stringify).Err? <==> exists j | 0 <= j < |xs| :: Hit(xs[j], query, stringify).Err?
    decreases |xs|
  {
    if |xs| > 0 {
      HitsFail(xs[1..], query, stringify);
      if exists j | 0 <= j < |xs[1..]| :: Hit(xs[1..][j], query, stringify).Err? {
        var j :| 0 <= j < |xs[1..]| && Hit(xs[1..][j], query, stringify).Err?;
        assert xs[j + 1] == xs[1..][j];
      }
      if (exists j | 0 <= j < |xs| :: Hit(xs[j], query, stringify).Err?) && Hit(xs[0], query, stringify).Ok? {
        var j :| 0 <= j < |xs| && Hit(xs[j], query, stringify).Err?;
        assert j > 0 && xs[1..][j - 1] == xs[j];
      }
    }
  }

  /** Otherwise it keeps exactly the hits, in log order. */
  lemma {:induction false} HitsExact(xs: seq<Json>, query: string, stringify: Json -> string)
    requires Hits(xs, query, stringify).Ok?
    ensures Subsequence(Hits(xs, query, stringify).value, xs)
    ensures forall x | x in xs :: (x in Hits(xs, query, stringify).value <==> Hit(x, query, stringify) == Ok(true))
    decreases |xs|
  {
    if |xs| > 0 {
      HitsExact(xs[1..], query, stringify);
      var rest := Hits(xs[1..], query, stringify).value;
      var r := Hits(xs, query, stringify).value;
      SubsequenceCons(rest, xs);
      if Hit(xs[0], query, stringify) == Ok(true) {
        assert r == [xs[0]] + rest && r[1..] == rest;
      }
      forall x | x in xs ensures x in r <==> Hit(x, query, stringify) == Ok(true) {
        if x !in xs[1..] {
          assert x == xs[0];
          if x in rest {
            SubsequenceIn(rest, xs[1..], x);
          }
        }
      }
    }
  }

  /** `searchHistory(query, limit)`: the first `limit` hits among the newest
      thousand entries. The serialiser `JSON.stringify` is a parameter. */
  function SearchHistory(f: File, query: string, limit: nat, stringify: Json -> string): (r: Result<seq<Json>, string>)
    ensures f.Missing? ==> r == Ok([])
    ensures f.Unparsable? ==> r.Err?
    ensures f.Present? ==> (r.Err? <==> exists j | 0 <= j < Min(SearchWindow, |f.value.items|) :: Hit(f.value.items[j], query, stringify).Err?)
    ensures r.Ok? ==> |r.value| <= limit
  {
    match GetHistory(f, SearchWindow)
    case Err(e) => Err(e)
    case Ok(window) =>
      HitsFail(window, query, stringify);
      match Hits(window, query, stringify)
      case Err(e) => Err(e)
      case Ok(hits) => Ok(Take(hits, limit))
  }

  /** Every hit is an entry among the newest thousand whose data mentions the query. */
  lemma SearchHistorySound(f: File, query: string, limit: nat, stringify: Json -> string, x: Json)
    requires f.Present? && SearchHistory(f, query, limit, stringify).Ok?
    requires x in SearchHistory(f, query, limit, stringify).value
    ensures x in f.value.items[..Min(SearchWindow, |f.value.items|)]
    ensures Hit(x, query, stringify) == Ok(true)
  {
    var window := GetHistory(f, SearchWindow).value;
    HitsExact(window, query, stringify);
    var hits := Hits(window, query, stringify).value;
    assert x in hits;
    SubsequenceIn(hits, window, x);
  }

  /** The search keeps the log's order and returns the earliest hits: its answer is
      the first `limit` of all the hits in the window (all of them when there are
      fewer), and a subsequence of the window. */
  lemma SearchHistoryFirstHits(f: File, query: string, limit: nat, stringify: Json -> string)
    requires f.Present? && SearchHistory(f, query, limit, stringify).Ok?
    ensures var window := f.value.items[..Min(SearchWindow, |f.value.items|)];
      var r := SearchHistory(f, query, limit, stringify).value;
      Hits(window, query, stringify).Ok? &&
      |r| == Min(limit, |Hits(window, query, stringify).value|) &&
      r == Hits(window, query, stringify).value[..|r|] &&
      Subsequence(r, window)
  {
    var window := GetHistory(f, SearchWindow).value;
    HitsExact(window, query, stringify);
    var hits := Hits(window, query, stringify).value;
    SubsequencePrefix(hits, window, Min(limit, |hits|));
  }

  /** When fewer than `limit` entries hit, the search misses none of them. */
  lemma SearchHistoryComplete(f: File, query: string, limit: nat, stringify: Json -> string, x: Json)
    requires f.Present? && SearchHistory(f, query, limit, stringify).Ok?
    requires |SearchHistory(f, query, limit, stringify).value| < limit
    requires x in f.value.items[..Min(SearchWindow, |f.value.items|)] && Hit(x, query, stringify) == Ok(true)
    ensures x in SearchHistory(f, query, limit, stringify).value
  {
    var window := GetHistory(f, SearchWindow).value;
    HitsExact(window, query, stringify);
  }
}
