/** The error a store operation throws, as the route handlers and `errorHandler`
    see it. */
module StoreFailures {
  import opened Wrappers
  import opened Json
  import opened Text
  import opened ErrorHandler
  import DataManager

  /** The `Error` object behind a store failure: `JSON.parse`'s `SyntaxError` when
      the file did not parse, a `TypeError` when the store read a property of a
      non-object, and otherwise the plain `Error` the store raises itself. */
  function AsFailure(f: DataManager.File, e: string): (x: Failure)
    ensures x.code.None? && !x.isJoi && x.statusCode.None?
  {
    if f.Unparsable? then Failure("SyntaxError", f.error, None, false, None, None, "SyntaxError: " + f.error)
    else if StartsWith(e, "TypeError: ") then Failure("TypeError", e[11..], None, false, None, None, e)
    else Plain(e)
  }

  /** A store failure never carries a status of its own, so `errorHandler` answers
      it with 400, 404 or 500 — never with a success. */
  lemma FailureStatus(f: DataManager.File, e: string, at: string, development: bool)
    ensures Handle(AsFailure(f, e), at, development).status in {400, 404, 500}
  {
    var x := AsFailure(f, e);
    assert Classify(x) != Explicit;
  }

  /** A store file that no longer parses is reported as a malformed request body:
      `400 JSON Parse Error`, though the client sent nothing wrong. */
  lemma CorruptStoreIsParseError(f: DataManager.File, e: string, at: string, development: bool)
    requires f.Unparsable? && Contains(f.error, "JSON")
    ensures Handle(AsFailure(f, e), at, development).status == 400
    ensures Field(Handle(AsFailure(f, e), at, development).body, "error") == Some(Str("JSON Parse Error"))
  {
  }

  /** The error a missing requests document raises does not say "not found": the
      lower-case `n` in it comes too late for the phrase to fit. */
  lemma NoActiveFileNotNotFound()
    ensures !Contains(DataManager.NoActiveFile, "not found")
    ensures !StartsWith(DataManager.NoActiveFile, "TypeError: ")
  {
    var s := DataManager.NoActiveFile;
    assert |s| == 29;
    assert s[0] == 'N';
    NotContainsWhenFirstCharAbsent(s, "not found");
  }

  /** So `errorHandler` answers a missing requests document with `500`. */
  lemma NoActiveFileIsServerError(f: DataManager.File, at: string, development: bool)
    requires !f.Unparsable?
    ensures !Contains(AsFailure(f, DataManager.NoActiveFile).message, "not found")
    ensures Handle(AsFailure(f, DataManager.NoActiveFile), at, development).status == 500
    ensures Field(Handle(AsFailure(f, DataManager.NoActiveFile), at, development).body, "error") == Some(Str("Internal Server Error"))
  {
    NoActiveFileNotNotFound();
  }

  /** An unknown id is reported with a message that says "not found". */
  lemma RequestNotFoundSaysSo(f: DataManager.File, id: Option<Json>)
    requires !f.Unparsable?
    ensures AsFailure(f, DataManager.RequestNotFound(id)) == Plain(DataManager.RequestNotFound(id))
    ensures Contains(AsFailure(f, DataManager.RequestNotFound(id)).message, "not found")
  {
    var m := DataManager.RequestNotFound(id);
    assert m == "Request with id " + JsString(id) + " " + "not found" + "";
    ContainsInContext("Request with id " + JsString(id) + " ", "not found", "");
    assert m[0] == 'R';
  }
}

/** The pagination both list routes share: the validated query, the page cut
    from the sorted list, and the answer that describes it. */
module Paging {
  import opened Wrappers
  import opened Json
  import opened Text
  import opened Http
  import opened Validation
  import opened ErrorHandler
  import opened StoreFailures
  import DataManager

  /** `req.query` after validation. */
  datatype PageQuery = PageQuery(limit: int, offset: int, sort: string, order: string)

  function NumberAt(v: Json, k: string): int {
    match Field(v, k)
    case Some(Num(n)) => n
    case _ => 0
  }

  function TextAt(v: Json, k: string): string {
    match Field(v, k)
    case Some(Str(s)) => s
    case _ => ""
  }

  /** `validateQuery(commonSchemas.pagination, { allowUnknown: true })`, then the
      handler's reads of `limit`, `offset`, `sort` and `order`. */
  function ReadQuery(input: Json): (r: Result<PageQuery, Response>)
    ensures r.Ok? <==> Conforms(Pagination, input, ListQuery)
    ensures r.Err? ==> r.error.status == 400 && Field(r.error.body, "error") == Some(Str("Query Validation Error"))
    ensures r.Ok? ==>
      1 <= r.value.limit <= 100 && 0 <= r.value.offset &&
      r.value.sort in ["created", "updated", "priority"] && r.value.order in ["asc", "desc"]
    ensures r.Ok? ==>
      (Field(input, "limit").None? ==> r.value.limit == 20) &&
      (Field(input, "offset").None? ==> r.value.offset == 0) &&
      (Field(input, "sort").None? ==> r.value.sort == "created") &&
      (Field(input, "order").None? ==> r.value.order == "desc")
  {
    match Middleware(Query, Pagination, input, ListQuery)
    case Reject(res) => Err(res)
    case Pass(v) =>
      PaginationValues(input, ListQuery);
      Ok(PageQuery(NumberAt(v, "limit"), NumberAt(v, "offset"), TextAt(v, "sort"), TextAt(v, "order")))
  }

  /** A `slice` bound: a negative one counts from the end; both are clamped to
      the list. */
  function Bound(i: int, n: nat): (b: nat)
    ensures b <= n
    ensures 0 <= i ==> b == Min(i, n)
  {
    if i < 0 then Max(n + i, 0) else Min(i, n)
  }

  /** `xs.slice(start, end)`. */
  function JsSlice<T>(xs: seq<T>, start: int, end: int): (r: seq<T>)
    ensures 0 <= start <= end ==> |r| == Min(end - start, Max(0, |xs| - start))
    ensures 0 <= start ==> forall i | 0 <= i < |r| :: start + i < |xs| && r[i] == xs[start + i]
  {
    Slice(xs, Bound(start, |xs|), Bound(end, |xs|))
  }

  /** A slice from the start is a prefix. */
  lemma SliceFromStart<T>(xs: seq<T>, end: int)
    requires 0 <= end
    ensures JsSlice(xs, 0, end) == xs[..Min(end, |xs|)]
  {
    var r := JsSlice(xs, 0, end);
    assert forall i | 0 <= i < |r| :: r[i] == xs[..Min(end, |xs|)][i];
  }

  /** `sorted.slice(offset, offset + limit)`. */
  function Page<T>(sorted: seq<T>, q: PageQuery): seq<T> {
    JsSlice(sorted, q.offset, q.offset + q.limit)
  }

  /** The query for the page after `q`. */
  function Next(q: PageQuery): PageQuery {
    q.(offset := q.offset + q.limit)
  }

  /** `offset + limit < total`. */
  predicate HasMore(q: PageQuery, total: nat) {
    q.offset + q.limit < total
  }

  /** A page holds the `limit` items from `offset` on, fewer at the end of the
      list and none past it. */
  lemma PageExact<T>(sorted: seq<T>, q: PageQuery)
    requires 0 <= q.offset && 0 <= q.limit
    ensures |Page(sorted, q)| == Min(q.limit, Max(0, |sorted| - q.offset))
    ensures forall i | 0 <= i < |Page(sorted, q)| :: q.offset + i < |sorted| && Page(sorted, q)[i] == sorted[q.offset + i]
  {
  }

  /** `hasMore` is true exactly when the next page is not empty. */
  lemma HasMoreIffNextPage<T>(sorted: seq<T>, q: PageQuery)
    requires 0 <= q.offset && 1 <= q.limit
    ensures HasMore(q, |sorted|) <==> Page(sorted, Next(q)) != []
  {
    PageExact(sorted, Next(q));
  }

  /** Consecutive pages follow on from each other: together they are the slice
      that spans both, so walking the pages skips and repeats nothing. */
  lemma PagesTile<T>(sorted: seq<T>, q: PageQuery)
    requires 0 <= q.offset && 0 <= q.limit
    ensures Page(sorted, q) + Page(sorted, Next(q)) == JsSlice(sorted, q.offset, q.offset + 2 * q.limit)
  {
    var a := Page(sorted, q);
    var b := Page(sorted, Next(q));
    var whole := JsSlice(sorted, q.offset, q.offset + 2 * q.limit);
    PageExact(sorted, q);
    PageExact(sorted, Next(q));
    assert |a + b| == |whole|;
    forall i | 0 <= i < |whole|
      ensures (a + b)[i] == whole[i]
    {
      assert whole[i] == sorted[q.offset + i];
      if i < |a| {
        assert (a + b)[i] == a[i] == sorted[q.offset + i];
      } else {
        assert |a| == q.limit;
        assert (a + b)[i] == b[i - q.limit] == sorted[q.offset + q.limit + (i - q.limit)];
      }
    }
  }

  /** `{<key>: page, pagination: {total, limit, offset, hasMore}}`. */
  function ListBody(key: string, page: seq<Json>, total: nat, q: PageQuery): (b: Json)
    ensures Field(b, key) == Some(Arr(page))
    ensures key != "pagination" ==> Field(b, "pagination").Some?
    ensures key != "pagination" ==>
      var p := Field(b, "pagination").value;
      Field(p, "total") == Some(Num(total)) && Field(p, "limit") == Some(Num(q.limit)) &&
      Field(p, "offset") == Some(Num(q.offset)) && Field(p, "hasMore") == Some(Bool(HasMore(q, total)))
  {
    Obj(Put(key, Arr(page), Put("pagination", PaginationObject(total, q), [])))
  }

  /** `{total, limit, offset, hasMore}`. */
  function PaginationObject(total: nat, q: PageQuery): (p: Json)
    ensures Field(p, "total") == Some(Num(total)) && Field(p, "limit") == Some(Num(q.limit))
    ensures Field(p, "offset") == Some(Num(q.offset)) && Field(p, "hasMore") == Some(Bool(HasMore(q, total)))
  {
    assert "total"[0] != "limit"[0] && "total"[0] != "offset"[0] && "total"[0] != "hasMore"[0];
    assert "limit"[0] != "offset"[0] && "limit"[0] != "hasMore"[0] && "offset"[0] != "hasMore"[0];
    Obj(Put("total", Num(total), Put("limit", Num(q.limit),
      Put("offset", Num(q.offset), Put("hasMore", Bool(HasMore(q, total)), [])))))
  }

  /** The order the comparator puts a list in; `sort` and `order` choose it. The
      comparator never answers "equal", so the order it leaves is the engine's;
      whatever that order is, `Array.prototype.sort` only permutes the list. */
  type Arrange = f: (string, string, seq<Json>) -> seq<Json> | forall s, o, ys :: multiset(f(s, o, ys)) == multiset(ys)
    witness (s: string, o: string, ys: seq<Json>) => ys

  /** The error the comparator throws when it reads `a[sort]` of a `null` entry. */
  function SortFailure(sort: string): string {
    "TypeError: " + SortMessage(sort)
  }

  function SortMessage(sort: string): string {
    "Cannot read properties of null (reading '" + sort + "')"
  }

  /** Whether sorting throws. The comparator reads `a[sort]` and `b[sort]`, and
      reading a property of `null` throws. A list of two or more entries has every
      entry compared at least once, while a shorter one is never compared. */
  predicate SortThrows(xs: seq<Json>) {
    |xs| >= 2 && Null in xs
  }

  /** `GET /` of the request and response lists: validate the query, read the
      list, sort it and answer one page of it. */
  function List(key: string, f: DataManager.File, input: Json, arrange: Arrange, at: string, development: bool): (r: Response)
    ensures !Conforms(Pagination, input, ListQuery) ==> r == ReadQuery(input).error
    ensures Conforms(Pagination, input, ListQuery) && f.Unparsable? ==> r == Handle(AsFailure(f, f.error), at, development)
    ensures Conforms(Pagination, input, ListQuery) && !f.Unparsable? ==>
      var q := ReadQuery(input).value;
      var xs := DataManager.Items(f).value;
      r == if SortThrows(xs) then Handle(AsFailure(f, SortFailure(q.sort)), at, development)
           else Response(200, ListBody(key, Page(arrange(q.sort, q.order, xs), q), |xs|, q))
  {
    match ReadQuery(input)
    case Err(res) => res
    case Ok(q) =>
      var o := match DataManager.Items(f)
        case Err(e) => Thrown(AsFailure(f, e))
        case Ok(xs) =>
          if SortThrows(xs) then Thrown(AsFailure(f, SortFailure(q.sort)))
          else Answered(Response(200, ListBody(key, Page(arrange(q.sort, q.order, xs), q), |xs|, q)));
      Serve(o, at, development)
  }

  /** The comparator's error does not say "not found": its only `f` is the one in
      "of", four characters after an `e`, so the phrase cannot fit. */
  lemma SortMessageNotNotFound(sort: string)
    requires 'f' !in sort
    ensures !Contains(SortMessage(sort), "not found")
  {
    var a := "Cannot read properties o";
    var b := " null (reading '" + sort + "')";
    var s := a + ['f'] + b;
    assert 'f' !in a;
    assert 'f' !in " null (reading '" && 'f' !in "')";
    assert 'f' !in b;
    assert SortMessage(sort) == s;
    forall i | 0 <= i <= |s| - 9
      ensures !OccursAt(s, "not found", i)
    {
      if i + 4 == |a| {
        assert s[i] == 'e';
        assert s[i..i + 9][0] == s[i];
      } else {
        OnlyOnce(a, 'f', b, i + 4);
        assert s[i..i + 9][4] == s[i + 4];
      }
    }
  }

  /** The comparator's `TypeError` is answered by `errorHandler`'s last rule. */
  lemma SortFailureIsFallback(f: DataManager.File, sort: string, at: string, development: bool)
    requires !f.Unparsable? && sort in ["created", "updated", "priority"]
    ensures Classify(AsFailure(f, SortFailure(sort))) == Fallback
    ensures Handle(AsFailure(f, SortFailure(sort)), at, development).status == 500
  {
    var x := AsFailure(f, SortFailure(sort));
    assert SortFailure(sort)[11..] == SortMessage(sort);
    assert 'f' !in sort;
    SortMessageNotNotFound(sort);
  }

  /** A stored `null` among two or more entries makes the sort throw, and
      `errorHandler` answers the `TypeError` with `500`. */
  lemma SortFailureIsServerError(key: string, f: DataManager.File, input: Json, arrange: Arrange, at: string, development: bool)
    ensures Conforms(Pagination, input, ListQuery) && f.Present? && SortThrows(f.value.items) ==>
      var r := List(key, f, input, arrange, at, development);
      r.status == 500 && Field(r.body, "error") == Some(Str("Internal Server Error"))
  {
    if Conforms(Pagination, input, ListQuery) && f.Present? && SortThrows(f.value.items) {
      var q := ReadQuery(input).value;
      SortFailureIsFallback(f, q.sort, at, development);
    }
  }

  /** A page holds no entry more often than the list it is cut from. */
  lemma PageIncluded(sorted: seq<Json>, q: PageQuery)
    requires 0 <= q.offset && 0 <= q.limit
    ensures multiset(Page(sorted, q)) <= multiset(sorted)
  {
    var i := Bound(q.offset, |sorted|);
    var j := Bound(q.offset + q.limit, |sorted|);
    if i < j {
      assert Page(sorted, q) == sorted[i..j];
      assert sorted == sorted[..i] + sorted[i..j] + sorted[j..];
      assert multiset(sorted) == multiset(sorted[..i]) + multiset(sorted[i..j]) + multiset(sorted[j..]);
    } else {
      assert Page(sorted, q) == [];
    }
  }

  /** What a list body says about the stored entries `xs`: the page holds
      `min(limit, total - offset)` of them, none more often than it is stored,
      and `total` is the number stored. */
  predicate PageOf(key: string, b: Json, xs: seq<Json>, q: PageQuery) {
    Field(b, key).Some? && Field(b, key).value.Arr? &&
    |Field(b, key).value.items| == Min(q.limit, Max(0, |xs| - q.offset)) &&
    multiset(Field(b, key).value.items) <= multiset(xs) &&
    Field(b, "pagination").Some? && Field(Field(b, "pagination").value, "total") == Some(Num(|xs|))
  }

  /** Whatever order the sort leaves the entries in, the body describes the
      stored entries. */
  lemma ArrangedPage(key: string, xs: seq<Json>, arrange: Arrange, q: PageQuery)
    requires key != "pagination" && 0 <= q.offset && 1 <= q.limit
    ensures PageOf(key, ListBody(key, Page(arrange(q.sort, q.order, xs), q), |xs|, q), xs, q)
  {
    var sorted := arrange(q.sort, q.order, xs);
    assert multiset(sorted) == multiset(xs);
    assert |sorted| == |multiset(sorted)| == |xs|;
    PageExact(sorted, q);
    PageIncluded(sorted, q);
  }

  /** A list route answers `200` exactly when the query conforms, the store is
      readable and the sort does not throw. */
  lemma ListSucceeds(key: string, f: DataManager.File, input: Json, arrange: Arrange, at: string, development: bool)
    ensures List(key, f, input, arrange, at, development).status == 200 <==>
      Conforms(Pagination, input, ListQuery) && !f.Unparsable? && !SortThrows(DataManager.Items(f).value)
  {
    if !Conforms(Pagination, input, ListQuery) {
    } else if f.Unparsable? {
      FailureStatus(f, f.error, at, development);
    } else if SortThrows(DataManager.Items(f).value) {
      FailureStatus(f, SortFailure(ReadQuery(input).value.sort), at, development);
    }
  }

  /** The page a `200` list answer carries holds `min(limit, total - offset)` of
      the stored entries, none more often than it is stored, and `total` is the
      number stored. */
  lemma ListPage(key: string, f: DataManager.File, input: Json, arrange: Arrange, at: string, development: bool)
    requires key != "pagination"
    ensures Conforms(Pagination, input, ListQuery) && !f.Unparsable? && !SortThrows(DataManager.Items(f).value) ==>
      PageOf(key, List(key, f, input, arrange, at, development).body, DataManager.Items(f).value, ReadQuery(input).value)
  {
    if Conforms(Pagination, input, ListQuery) && !f.Unparsable? && !SortThrows(DataManager.Items(f).value) {
      var q := ReadQuery(input).value;
      var xs := DataManager.Items(f).value;
      assert List(key, f, input, arrange, at, development) == Response(200, ListBody(key, Page(arrange(q.sort, q.order, xs), q), |xs|, q));
      ArrangedPage(key, xs, arrange, q);
    }
  }

  /** What a client of a list route learns from the body `List` answers with:
      the page holds `min(limit, total - offset)` sorted items from `offset` on,
      `total` counts the whole list, and `hasMore` says whether the next page has
      any. */
  lemma PageBody(key: string, sorted: seq<Json>, q: PageQuery)
    requires key != "pagination" && 0 <= q.offset && 1 <= q.limit
    ensures var b := ListBody(key, Page(sorted, q), |sorted|, q);
      Field(b, key).Some? && Field(b, key).value.Arr? &&
      |Field(b, key).value.items| == Min(q.limit, Max(0, |sorted| - q.offset)) &&
      (forall i | 0 <= i < |Field(b, key).value.items| :: Field(b, key).value.items[i] == sorted[q.offset + i]) &&
      Field(Field(b, "pagination").value, "total") == Some(Num(|sorted|)) &&
      (Field(Field(b, "pagination").value, "hasMore") == Some(Bool(true)) <==> Page(sorted, Next(q)) != [])
  {
    PageExact(sorted, q);
    HasMoreIffNextPage(sorted, q);
  }
}

/** The steps every write route shares: the validation middlewares in front of
    it, and the history entry and answer after the store changed. */
module Handlers {
  import opened Wrappers
  import opened Json
  import opened Text
  import opened Http
  import opened Validation
  import opened ErrorHandler
  import opened StoreFailures
  import DataManager

  /** `validateParams(commonSchemas.id)` on a `/:id` path: the id the handler
      reads back is the one in the path; only an empty one is refused. */
  function CheckId(id: string): (r: Result<Option<Json>, Response>)
    ensures r.Ok? <==> id != ""
    ensures r.Ok? ==> r.value == Some(Str(id))
    ensures r.Err? ==> r.error.status == 400
  {
    IdParamsExact(id, Defaults);
    match Middleware(Params, IdParams, Obj([("id", Str(id))]), Defaults)
    case Reject(res) => Err(res)
    case Pass(p) => Ok(Field(p, "id"))
  }

  /** `validate(schema)`: the handler sees the validated body, or the client
      gets the `400` rejection. */
  function CheckBody(schema: Schema, body: Json): (r: Result<Json, Response>)
    ensures r.Ok? <==> Validate(schema, body, Defaults).Ok?
    ensures r.Ok? ==> r.value == Validate(schema, body, Defaults).value
    ensures r.Err? ==> r.error.status == 400 && Field(r.error.body, "error") == Some(Str("Validation Error"))
  {
    match Middleware(Body, schema, body, Defaults)
    case Reject(res) => Err(res)
    case Pass(v) => Ok(v)
  }

  /** `{message, <key>}`. */
  function Done(message: string, key: string, record: Json): (b: Json)
    ensures key != "message" ==> Field(b, key) == Some(record) && Field(b, "message") == Some(Str(message))
  {
    Obj(Put("message", Str(message), Put(key, record, [])))
  }

  /** A handler's own `404 {error: 'Not Found', message}`. */
  function NotFoundAnswer(message: string): (r: Response)
    ensures r.status == 404
    ensures Field(r.body, "error") == Some(Str("Not Found")) && Field(r.body, "message") == Some(Str(message))
  {
    Response(404, ErrorBody("Not Found", message))
  }

  /** The `catch` around an update or a deletion: an error whose message says
      "not found" is answered `404` with that message; any other goes on to
      `errorHandler`. */
  function Caught(x: Failure, at: string, development: bool): (r: Response)
    ensures Contains(x.message, "not found") ==> r == NotFoundAnswer(x.message)
    ensures !Contains(x.message, "not found") ==> r == Handle(x, at, development)
    ensures x.statusCode.None? ==> r.status in {400, 404, 500}
  {
    if Contains(x.message, "not found") then NotFoundAnswer(x.message)
    else
      assert x.statusCode.None? ==> Classify(x) != Explicit;
      Handle(x, at, development)
  }

  /** What is left of a write once the store changed: the history entry for
      `record`, then the answer `status` with `{message, <key>: record}`. A
      history failure is answered through the handler's `catch` when it has one
      (`caught`), otherwise by `errorHandler`; the changed store stays written. */
  datatype Logged = Logged(response: Response, history: Option<DataManager.Store>)

  function Log(status: nat, message: string, key: string, kind: string, record: Json, history: DataManager.File,
               entryId: string, at: string, caught: bool, development: bool): (l: Logged)
    ensures l.history.Some? <==> !history.Unparsable?
    ensures l.history.Some? ==>
      l.response == Response(status, Done(message, key, record)) &&
      |l.history.value.items| > 0 && l.history.value.items[0] == DataManager.NewEntry(kind, record, entryId, at)
    ensures l.history.None? ==> l.response.status in {400, 404, 500}
  {
    match DataManager.AddToHistory(history, kind, record, entryId, at)
    case Err(e) =>
      var x := AsFailure(history, e);
      FailureStatus(history, e, at, development);
      Logged(if caught then Caught(x, at, development) else Handle(x, at, development), None)
    case Ok((hs, _)) =>
      Logged(Response(status, Done(message, key, record)), Some(hs))
  }
}
