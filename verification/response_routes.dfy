
/** The response routes: the list, creation, the newest responses, lookup and
    the responses to one request. */
module ResponseRoutes {
  import opened Wrappers
  import opened Json
  import opened Text
  import opened Http
  import opened Validation
  import opened ErrorHandler
  import opened StoreFailures
  import opened Paging
  import opened Handlers
  import Schemas
  import DataManager

  /** What a handler leaves behind: its answer and the responses and history
      documents it wrote. */
  datatype Served = Served(response: Response, responses: Option<DataManager.Store>, history: Option<DataManager.Store>)

  /** `GET /api/responses`. */
  function ListResponses(f: DataManager.File, input: Json, arrange: Arrange, at: string, development: bool): Response {
    List("responses", f, input, arrange, at, development)
  }

  /** `POST /api/responses`: validate the body, store the response in front of
      the list, log it and answer `201`. */
  function Create(body: Json, responses: DataManager.File, history: DataManager.File, responseId: string,
                  entryId: string, at: string, development: bool): (s: Served)
    ensures Validate(Schemas.ResponseSchema, body, Defaults).Err? ==>
      s.response.status == 400 && s.responses.None? && s.history.None?
    ensures s.response.status == 201 <==>
      Validate(Schemas.ResponseSchema, body, Defaults).Ok? && !responses.Unparsable? && !history.Unparsable?
    ensures s.history.Some? ==> s.responses.Some?
    ensures s.response.status == 201 ==>
      var response := DataManager.NewResponse(Validate(Schemas.ResponseSchema, body, Defaults).value, responseId, at);
      s.response.body == Done("Response created successfully", "response", response) &&
      s.responses.Some? && s.history.Some? &&
      (responses.Present? ==> s.responses.value.items == DataManager.Prepend(response, responses.value.items, DataManager.ResponsesCap)) &&
      (responses.Missing? ==> s.responses.value.items == [response]) &&
      |s.history.value.items| > 0 && s.history.value.items[0] == DataManager.NewEntry("response_created", response, entryId, at)
  {
    match CheckBody(Schemas.ResponseSchema, body)
    case Err(res) => Served(res, None, None)
    case Ok(v) => Store(v, responses, history, responseId, entryId, at, development)
  }

  /** The handler of `POST /api/responses` once the body is validated. */
  function Store(v: Json, responses: DataManager.File, history: DataManager.File, responseId: string,
                 entryId: string, at: string, development: bool): (s: Served)
    ensures s.response.status == 201 <==> !responses.Unparsable? && !history.Unparsable?
    ensures s.history.Some? ==> s.responses.Some?
    ensures s.response.status == 201 ==>
      var response := DataManager.NewResponse(v, responseId, at);
      s.response.body == Done("Response created successfully", "response", response) &&
      s.responses.Some? && s.history.Some? &&
      (responses.Present? ==> s.responses.value.items == DataManager.Prepend(response, responses.value.items, DataManager.ResponsesCap)) &&
      (responses.Missing? ==> s.responses.value.items == [response]) &&
      |s.history.value.items| > 0 && s.history.value.items[0] == DataManager.NewEntry("response_created", response, entryId, at)
  {
    match DataManager.CreateResponse(responses, v, responseId, at)
    case Err(e) =>
      FailureStatus(responses, e, at, development);
      Served(Handle(AsFailure(responses, e), at, development), None, None)
    case Ok((rs, response)) =>
      var l := Log(201, "Response created successfully", "response", "response_created", response, history, entryId, at, false, development);
      Served(l.response, Some(rs), l.history)
  }

  /** A stored response carries the generated id and the server's timestamp,
      names the request it answers, and has a status, `success` unless the body
      chose one: validation strips any `id` the body carried. */
  lemma ResponseSource(body: Json, responseId: string, at: string)
    ensures Validate(Schemas.ResponseSchema, body, Defaults).Ok? ==>
      var response := DataManager.NewResponse(Validate(Schemas.ResponseSchema, body, Defaults).value, responseId, at);
      Field(response, "id") == Some(Str(responseId)) &&
      Field(response, "timestamp") == Some(Str(at)) &&
      Field(response, "request_id") == Field(body, "request_id") &&
      Field(response, "status").Some? && Field(response, "status").value.Str? &&
      Field(response, "status").value.s in Schemas.ResponseStatuses &&
      (Field(body, "status").None? ==> Field(response, "status") == Some(Str("success")))
  {
    if Validate(Schemas.ResponseSchema, body, Defaults).Ok? {
      var v := Validate(Schemas.ResponseSchema, body, Defaults).value;
      Schemas.ResponseBodyValues(body);
      Schemas.ResponseValueShape(body);
      DataManager.StoredResponseField(v, responseId, at, "request_id");
      DataManager.StoredResponseField(v, responseId, at, "status");
    }
  }

  /** `GET /api/responses/latest`: the first `limit` stored responses and the
      count of all of them. */
  function Latest(f: DataManager.File, input: Json, at: string, development: bool): (r: Response)
    ensures !Conforms(Pagination, input, ListQuery) ==> r.status == 400
    ensures Conforms(Pagination, input, ListQuery) && !f.Unparsable? ==>
      var xs := DataManager.Items(f).value;
      var limit := ReadQuery(input).value.limit;
      r.status == 200 &&
      Field(r.body, "responses") == Some(Arr(xs[..Min(limit, |xs|)])) &&
      Field(r.body, "total") == Some(Num(|xs|))
  {
    match ReadQuery(input)
    case Err(res) => res
    case Ok(q) =>
      match DataManager.Items(f)
      case Err(e) => Handle(AsFailure(f, e), at, development)
      case Ok(xs) =>
        SliceFromStart(xs, q.limit);
        Response(200, LatestBody(JsSlice(xs, 0, q.limit), |xs|))
  }

  /** `{responses, total}`. */
  function LatestBody(rs: seq<Json>, total: nat): (b: Json)
    ensures Field(b, "responses") == Some(Arr(rs))
    ensures Field(b, "total") == Some(Num(total))
  {
    assert "responses"[0] != "total"[0];
    Obj(Put("responses", Arr(rs), Put("total", Num(total), [])))
  }

  /** The list is kept newest first, so `/latest` right after a response is
      created starts with that response. */
  lemma LatestStartsWithNewest(body: Json, responses: DataManager.File, history: DataManager.File, responseId: string,
                               entryId: string, at: string, development: bool, input: Json)
    ensures (Create(body, responses, history, responseId, entryId, at, development).response.status == 201 &&
             Conforms(Pagination, input, ListQuery)) ==>
      var s := Create(body, responses, history, responseId, entryId, at, development);
      var r := Latest(Present(s.responses.value), input, at, development);
      r.status == 200 && Field(r.body, "responses").Some? && Field(r.body, "responses").value.Arr? &&
      |Field(r.body, "responses").value.items| > 0 &&
      Field(r.body, "responses").value.items[0] ==
        DataManager.NewResponse(Validate(Schemas.ResponseSchema, body, Defaults).value, responseId, at)
  {
    var s := Create(body, responses, history, responseId, entryId, at, development);
    if s.response.status == 201 && Conforms(Pagination, input, ListQuery) {
      var response := DataManager.NewResponse(Validate(Schemas.ResponseSchema, body, Defaults).value, responseId, at);
      assert |s.responses.value.items| > 0 && s.responses.value.items[0] == response;
      LatestFirst(s.responses.value, input, at, development);
    }
  }

  /** `/latest` on a non-empty list starts with the list's first response. */
  lemma LatestFirst(store: DataManager.Store, input: Json, at: string, development: bool)
    requires |store.items| > 0
    ensures Conforms(Pagination, input, ListQuery) ==>
      var r := Latest(Present(store), input, at, development);
      r.status == 200 && Field(r.body, "responses").Some? && Field(r.body, "responses").value.Arr? &&
      |Field(r.body, "responses").value.items| > 0 &&
      Field(r.body, "responses").value.items[0] == store.items[0]
  {
    if Conforms(Pagination, input, ListQuery) {
      var limit := ReadQuery(input).value.limit;
      assert limit >= 1;
      assert DataManager.Items(Present(store)).value == store.items;
    }
  }

  /** `GET /api/responses/:id`: the response, or the handler's own `404`. */
  function GetOne(id: string, responses: DataManager.File, at: string, development: bool): (r: Response)
    ensures id == "" ==> r.status == 400
    ensures id != "" && responses.Missing? ==> r == NotFoundAnswer("Response with id " + id + " not found")
    ensures id != "" && responses.Present? && Null !in responses.value.items && !DataManager.HoldsId(responses.value.items, Some(Str(id))) ==>
      r == NotFoundAnswer("Response with id " + id + " not found")
    ensures id != "" && responses.Present? && Null !in responses.value.items && DataManager.HoldsId(responses.value.items, Some(Str(id))) ==>
      r.status == 200
    ensures r.status == 200 ==>
      responses.Present? &&
      exists i :: DataManager.FirstMatch(responses.value.items, "id", Some(Str(id)), i) &&
        r.body == Obj([("response", responses.value.items[i])])
  {
    match CheckId(id)
    case Err(res) => res
    case Ok(key) =>
      match DataManager.GetResponse(responses, key)
      case Err(e) =>
        FailureStatus(responses, e, at, development);
        Handle(AsFailure(responses, e), at, development)
      case Ok(None) => NotFoundAnswer("Response with id " + JsString(key) + " not found")
      case Ok(Some(response)) => Response(200, Obj([("response", response)]))
  }

  /** The error `GET /api/responses/request/:requestId` raises before its handler
      runs: its middleware is given a plain object instead of a schema, so
      `schema.validate` is not a function. */
  const NotASchema: Failure :=
    Failure("TypeError", "schema.validate is not a function", None, false, None, None,
            "TypeError: schema.validate is not a function")

  /** The message of that error does not say "not found": its one `f` is not
      four places after an `n`. */
  lemma NotASchemaNotNotFound()
    ensures !Contains(NotASchema.message, "not found")
  {
    forall i | 0 <= i <= |NotASchema.message| - 9
      ensures !OccursAt(NotASchema.message, "not found", i)
    {
      NotASchemaAt(i);
    }
  }

  lemma NotASchemaAt(i: nat)
    requires i <= |NotASchema.message| - 9
    ensures !OccursAt(NotASchema.message, "not found", i)
  {
    var m := NotASchema.message;
    if i == 21 {
      assert m[i..i + 9][0] == m[21] == 't';
    } else {
      NotASchemaSplit();
      OnlyOnce("schema.validate is not a ", 'f', "unction", i + 4);
      assert m[i..i + 9][4] == m[i + 4] != 'f';
    }
  }

  /** The message's one `f` sits between two runs without one. */
  lemma NotASchemaSplit()
    ensures NotASchema.message == "schema.validate is not a " + ['f'] + "unction"
    ensures 'f' !in "schema.validate is not a " && 'f' !in "unction"
  {
  }

  /** `GET /api/responses/request/:requestId` as the route is declared: every call
      fails in the middleware and `errorHandler` answers `500`, whatever the
      store holds. */
  function ByRequestAsWritten(requestId: string, responses: DataManager.File, at: string, development: bool): (r: Response)
    ensures r.status == 500
    ensures Field(r.body, "error") == Some(Str("Internal Server Error"))
    ensures Field(r.body, "responses").None?
  {
    NotASchemaIsFallback();
    Handle(NotASchema, at, development)
  }

  /** No earlier rule of the error handler applies to that error. */
  lemma NotASchemaIsFallback()
    ensures Classify(NotASchema) == Fallback
  {
    NotASchemaNotNotFound();
    assert NotASchema.name[0] != "ValidationError"[0] && NotASchema.name[0] != "SyntaxError"[0];
  }

  /** The route's parameters, as a Joi object schema would state them. */
  const RequestIdParams: Schema := [FieldSpec("requestId", Chars(0, None, false), Required)]

  /** `{responses, request_id, total}`. */
  function ByRequestBody(rs: seq<Json>, requestId: string): (b: Json)
    ensures Field(b, "responses") == Some(Arr(rs))
    ensures Field(b, "request_id") == Some(Str(requestId))
    ensures Field(b, "total") == Some(Num(|rs|))
  {
    assert "responses"[2] != "request_id"[2] && "responses"[0] != "total"[0] && "request_id"[0] != "total"[0];
    Obj(Put("responses", Arr(rs), Put("request_id", Str(requestId), Put("total", Num(|rs|), []))))
  }

  /** The parameter check of the corrected route: any non-empty id passes and
      is handed on unchanged. */
  function CheckRequestId(requestId: string): (r: Result<Option<Json>, Response>)
    ensures r.Ok? <==> requestId != ""
    ensures r.Ok? ==> r.value == Some(Str(requestId))
    ensures r.Err? ==> r.error.status == 400
  {
    ByRequestParams(requestId);
    match Middleware(Params, RequestIdParams, Obj([("requestId", Str(requestId))]), Defaults)
    case Reject(res) => Err(res)
    case Pass(p) => Ok(Field(p, "requestId"))
  }

  /** `GET /api/responses/request/:requestId` with its parameter schema wrapped
      in `Joi.object`: the responses to the request, with their count. */
  function ByRequest(requestId: string, responses: DataManager.File, at: string, development: bool): (r: Response)
    ensures requestId == "" ==> r.status == 400
    ensures requestId != "" && responses.Missing? ==> r == Response(200, ByRequestBody([], requestId))
    ensures requestId != "" && responses.Present? && Null !in responses.value.items ==>
      r == Response(200, ByRequestBody(DataManager.GetResponsesByRequestId(responses, Some(Str(requestId))).value, requestId))
    ensures r.status == 200 <==> requestId != "" && DataManager.GetResponsesByRequestId(responses, Some(Str(requestId))).Ok?
  {
    match CheckRequestId(requestId)
    case Err(res) => res
    case Ok(key) =>
      match DataManager.GetResponsesByRequestId(responses, key)
      case Err(e) =>
        FailureStatus(responses, e, at, development);
        Handle(AsFailure(responses, e), at, development)
      case Ok(rs) => Response(200, ByRequestBody(rs, requestId))
  }

  /** The parameter check passes any non-empty id and hands it on unchanged. */
  lemma ByRequestParams(requestId: string)
    ensures Validate(RequestIdParams, Obj([("requestId", Str(requestId))]), Defaults).Ok? <==> requestId != ""
    ensures requestId != "" ==>
      Field(Validate(RequestIdParams, Obj([("requestId", Str(requestId))]), Defaults).value, "requestId") == Some(Str(requestId))
  {
    var input := Obj([("requestId", Str(requestId))]);
    ValidateExact(RequestIdParams, input, Defaults);
    var fs := [("requestId", Str(requestId))];
    assert Keys(fs) == ["requestId"];
    assert SpecKeys(RequestIdParams) == ["requestId"];
    if requestId != "" {
      FieldValue(RequestIdParams, input, Defaults, 0);
    }
  }

  /** The corrected route answers with exactly the stored responses that name
      the request, in stored order, and `total` is their count; the route as
      declared answers none of them. */
  lemma ByRequestExact(requestId: string, responses: DataManager.File, at: string, development: bool, x: Json)
    requires requestId != "" && responses.Present? && Null !in responses.value.items
    ensures var r := ByRequest(requestId, responses, at, development);
      r.status == 200 && Field(r.body, "responses").Some? && Field(r.body, "responses").value.Arr? &&
      (x in Field(r.body, "responses").value.items <==>
        x in responses.value.items && StrictEquals(Field(x, "request_id"), Some(Str(requestId)))) &&
      Subsequence(Field(r.body, "responses").value.items, responses.value.items) &&
      Field(r.body, "total") == Some(Num(|Field(r.body, "responses").value.items|))
    ensures ByRequestAsWritten(requestId, responses, at, development).status == 500
  {
    DataManager.ResponsesByRequestIdExact(responses, Some(Str(requestId)), x);
    assert !responses.Unparsable?;
  }
}
