
/** The request routes: the list, creation, lookup, update and deletion of the
    active requests. The stores are `DataManager`'s documents; generated ids and
    the clock are parameters, and so is whether a responder is registered with
    the app (the server's entry point registers none). */
module RequestRoutes {
  import opened Wrappers
  import opened Json
  import opened Text
  import opened Http
  import opened Validation
  import opened ErrorHandler
  import opened StoreFailures
  import opened Paging
  import opened Handlers
  import Schemas
  import DataManager

  /** What a handler leaves behind: its answer, the requests and history
      documents it wrote, and the request it queued for the responder. */
  datatype Served = Served(response: Response, requests: Option<DataManager.Store>,
                           history: Option<DataManager.Store>, queued: Option<Json>)

  /** An answer with nothing written. */
  function Only(r: Response): Served {
    Served(r, None, None, None)
  }

  /** `GET /api/requests`. */
  function ListRequests(f: DataManager.File, input: Json, arrange: Arrange, at: string, development: bool): Response {
    List("requests", f, input, arrange, at, development)
  }

  /** `POST /api/requests`: validate the body, store the request, log it, queue
      it for the responder if one is registered, and answer `201`. A history
      failure comes after the request is stored. */
  function Create(body: Json, requests: DataManager.File, history: DataManager.File, requestId: string,
                  entryId: string, at: string, hasResponder: bool, development: bool): (s: Served)
    ensures Validate(Schemas.RequestSchema, body, Defaults).Err? ==>
      s.response.status == 400 && s == Only(s.response)
    ensures s.response.status == 201 <==>
      Validate(Schemas.RequestSchema, body, Defaults).Ok? && !requests.Unparsable? && !history.Unparsable?
    ensures s.history.Some? ==> s.requests.Some?
    ensures s.queued.Some? <==> hasResponder && s.response.status == 201
    ensures s.response.status == 201 ==>
      var request := DataManager.NewRequest(Validate(Schemas.RequestSchema, body, Defaults).value, requestId, at);
      s.response.body == Done("Request created successfully", "request", request) &&
      s.requests.Some? && s.history.Some? &&
      s.requests.value.items == DataManager.Items(requests).value + [request] &&
      |s.history.value.items| > 0 && s.history.value.items[0] == DataManager.NewEntry("request_created", request, entryId, at) &&
      (hasResponder ==> s.queued == Some(request))
  {
    match CheckBody(Schemas.RequestSchema, body)
    case Err(res) => Only(res)
    case Ok(v) => Store(v, requests, history, requestId, entryId, at, hasResponder, development)
  }

  /** The handler of `POST /api/requests` once the body is validated. */
  function Store(v: Json, requests: DataManager.File, history: DataManager.File, requestId: string,
                 entryId: string, at: string, hasResponder: bool, development: bool): (s: Served)
    ensures s.response.status == 201 <==> !requests.Unparsable? && !history.Unparsable?
    ensures s.history.Some? ==> s.requests.Some?
    ensures s.queued.Some? <==> hasResponder && s.response.status == 201
    ensures s.response.status == 201 ==>
      var request := DataManager.NewRequest(v, requestId, at);
      s.response.body == Done("Request created successfully", "request", request) &&
      s.requests.Some? && s.history.Some? &&
      s.requests.value.items == DataManager.Items(requests).value + [request] &&
      |s.history.value.items| > 0 && s.history.value.items[0] == DataManager.NewEntry("request_created", request, entryId, at) &&
      (hasResponder ==> s.queued == Some(request))
  {
    match DataManager.CreateRequest(requests, v, requestId, at)
    case Err(e) =>
      FailureStatus(requests, e, at, development);
      Only(Handle(AsFailure(requests, e), at, development))
    case Ok((rs, request)) =>
      var l := Log(201, "Request created successfully", "request", "request_created", request, history, entryId, at, false, development);
      Served(l.response, Some(rs), l.history, if hasResponder && l.history.Some? then Some(request) else None)
  }

  /** A created request carries the generated id, is pending, and holds the
      trimmed message and a priority, `medium` unless the body chose one:
      validation strips any `id` or `status` the body carried, so they cannot
      override the server's. */
  lemma CreatedRequest(body: Json, requests: DataManager.File, history: DataManager.File, requestId: string,
                       entryId: string, at: string, hasResponder: bool, development: bool)
    ensures Create(body, requests, history, requestId, entryId, at, hasResponder, development).response.status == 201 ==>
      var request := Field(Create(body, requests, history, requestId, entryId, at, hasResponder, development).response.body, "request").value;
      Field(request, "id") == Some(Str(requestId)) &&
      Field(request, "status") == Some(Str("pending")) &&
      Field(request, "timestamp") == Some(Str(at)) &&
      Field(request, "message") == Some(Str(Trim(Field(body, "message").value.s))) &&
      Field(request, "priority").Some? && Field(request, "priority").value.Str? &&
      Field(request, "priority").value.s in Schemas.Priorities &&
      (Field(body, "priority").None? ==> Field(request, "priority") == Some(Str("medium")))
  {
    if Create(body, requests, history, requestId, entryId, at, hasResponder, development).response.status == 201 {
      var v := Validate(Schemas.RequestSchema, body, Defaults).value;
      var request := DataManager.NewRequest(v, requestId, at);
      assert Field(Create(body, requests, history, requestId, entryId, at, hasResponder, development).response.body, "request") == Some(request);
      RequestSource(body, requestId, at);
    }
  }

  /** The stored request's properties come from the validated body. */
  lemma RequestSource(body: Json, requestId: string, at: string)
    ensures Validate(Schemas.RequestSchema, body, Defaults).Ok? ==>
      var request := DataManager.NewRequest(Validate(Schemas.RequestSchema, body, Defaults).value, requestId, at);
      Field(request, "id") == Some(Str(requestId)) &&
      Field(request, "status") == Some(Str("pending")) &&
      Field(request, "timestamp") == Some(Str(at)) &&
      Field(request, "message") == Some(Str(Trim(Field(body, "message").value.s))) &&
      Field(request, "priority").Some? && Field(request, "priority").value.Str? &&
      Field(request, "priority").value.s in Schemas.Priorities &&
      (Field(body, "priority").None? ==> Field(request, "priority") == Some(Str("medium")))
  {
    if Validate(Schemas.RequestSchema, body, Defaults).Ok? {
      var v := Validate(Schemas.RequestSchema, body, Defaults).value;
      Schemas.RequestBodyValues(body);
      Schemas.RequestValueShape(body);
      DataManager.StoredRequestField(v, requestId, at, "message");
      DataManager.StoredRequestField(v, requestId, at, "priority");
    }
  }

  /** `GET /api/requests/:id`: the request, or the handler's own `404`. */
  function GetOne(id: string, requests: DataManager.File, at: string, development: bool): (r: Response)
    ensures id == "" ==> r.status == 400
    ensures id != "" && requests.Missing? ==> r == NotFoundAnswer("Request with id " + id + " not found")
    ensures id != "" && requests.Present? && Null !in requests.value.items && !DataManager.HoldsId(requests.value.items, Some(Str(id))) ==>
      r == NotFoundAnswer("Request with id " + id + " not found")
    ensures id != "" && requests.Present? && Null !in requests.value.items && DataManager.HoldsId(requests.value.items, Some(Str(id))) ==>
      r.status == 200
    ensures r.status == 200 ==>
      requests.Present? &&
      exists i :: DataManager.FirstMatch(requests.value.items, "id", Some(Str(id)), i) &&
        r.body == Obj([("request", requests.value.items[i])])
  {
    match CheckId(id)
    case Err(res) => res
    case Ok(key) =>
      match DataManager.GetRequest(requests, key)
      case Err(e) =>
        FailureStatus(requests, e, at, development);
        Handle(AsFailure(requests, e), at, development)
      case Ok(None) => NotFoundAnswer("Request with id " + JsString(key) + " not found")
      case Ok(Some(request)) => Response(200, Obj([("request", request)]))
  }

  /** `PUT /api/requests/:id`: validate the id and the body, overlay the request,
      log it and answer with the updated request. */
  function Update(id: string, body: Json, requests: DataManager.File, history: DataManager.File,
                  entryId: string, at: string, development: bool): (s: Served)
    ensures id == "" || Validate(Schemas.UpdateRequestSchema, body, Defaults).Err? ==>
      s.response.status == 400 && s == Only(s.response)
    ensures s.response.status == 200 ==>
      s.requests.Some? && s.history.Some? && requests.Present? &&
      Field(s.response.body, "message") == Some(Str("Request updated successfully")) &&
      Field(s.response.body, "request").Some? &&
      |s.history.value.items| > 0 &&
      s.history.value.items[0] == DataManager.NewEntry("request_updated", Field(s.response.body, "request").value, entryId, at)
    ensures s.history.Some? ==> s.requests.Some?
    ensures s.queued.None?
  {
    match CheckId(id)
    case Err(res) => Only(res)
    case Ok(key) =>
      match CheckBody(Schemas.UpdateRequestSchema, body)
      case Err(res) => Only(res)
      case Ok(v) => Overlay(key, v, requests, history, entryId, at, development)
  }

  /** The handler of `PUT /api/requests/:id` once the id and body are validated. */
  function Overlay(key: Option<Json>, v: Json, requests: DataManager.File, history: DataManager.File,
                   entryId: string, at: string, development: bool): (s: Served)
    ensures s.response.status == 200 ==>
      s.requests.Some? && s.history.Some? && requests.Present? &&
      Field(s.response.body, "message") == Some(Str("Request updated successfully")) &&
      Field(s.response.body, "request").Some? &&
      |s.history.value.items| > 0 &&
      s.history.value.items[0] == DataManager.NewEntry("request_updated", Field(s.response.body, "request").value, entryId, at)
    ensures s.history.Some? ==> s.requests.Some?
    ensures s.queued.None?
  {
    match DataManager.UpdateRequest(requests, key, v, at)
    case Err(e) => Only(Caught(AsFailure(requests, e), at, development))
    case Ok((rs, updated)) =>
      var l := Log(200, "Request updated successfully", "request", "request_updated", updated, history, entryId, at, true, development);
      Served(l.response, Some(rs), l.history, None)
  }

  /** `DELETE /api/requests/:id`: remove the request, log it and answer with it. */
  function Delete(id: string, requests: DataManager.File, history: DataManager.File,
                  entryId: string, at: string, development: bool): (s: Served)
    ensures id == "" ==> s.response.status == 400 && s == Only(s.response)
    ensures s.response.status == 200 ==>
      s.requests.Some? && s.history.Some? && requests.Present? &&
      |s.requests.value.items| + 1 == |requests.value.items| &&
      Field(s.response.body, "message") == Some(Str("Request deleted successfully")) &&
      Field(s.response.body, "request").Some? &&
      Field(Field(s.response.body, "request").value, "id") == Some(Str(id)) &&
      |s.history.value.items| > 0 &&
      s.history.value.items[0] == DataManager.NewEntry("request_deleted", Field(s.response.body, "request").value, entryId, at)
    ensures s.history.Some? ==> s.requests.Some?
    ensures s.queued.None?
  {
    match CheckId(id)
    case Err(res) => Only(res)
    case Ok(key) => Remove(key, requests, history, entryId, at, development)
  }

  /** The handler of `DELETE /api/requests/:id` once the id is validated. */
  function Remove(key: Option<Json>, requests: DataManager.File, history: DataManager.File,
                  entryId: string, at: string, development: bool): (s: Served)
    ensures s.response.status == 200 ==>
      s.requests.Some? && s.history.Some? && requests.Present? &&
      |s.requests.value.items| + 1 == |requests.value.items| &&
      Field(s.response.body, "message") == Some(Str("Request deleted successfully")) &&
      Field(s.response.body, "request").Some? &&
      StrictEquals(Field(Field(s.response.body, "request").value, "id"), key) &&
      |s.history.value.items| > 0 &&
      s.history.value.items[0] == DataManager.NewEntry("request_deleted", Field(s.response.body, "request").value, entryId, at)
    ensures s.history.Some? ==> s.requests.Some?
    ensures s.queued.None?
  {
    match DataManager.DeleteRequest(requests, key, at)
    case Err(e) => Only(Caught(AsFailure(requests, e), at, development))
    case Ok((rs, deleted)) =>
      var l := Log(200, "Request deleted successfully", "request", "request_deleted", deleted, history, entryId, at, true, development);
      Served(l.response, Some(rs), l.history, None)
  }

  /** With no requests document at all, updating or deleting any request is a
      server error, not a `404`: the store's message does not say "not found",
      so the handler rethrows it. Nothing is written. */
  lemma NoDocumentIsServerError(id: string, body: Json, history: DataManager.File, entryId: string, at: string, development: bool)
    requires id != ""
    ensures Validate(Schemas.UpdateRequestSchema, body, Defaults).Ok? ==>
      Update(id, body, Missing, history, entryId, at, development).response.status == 500 &&
      Update(id, body, Missing, history, entryId, at, development).requests.None?
    ensures Delete(id, Missing, history, entryId, at, development).response.status == 500
    ensures Delete(id, Missing, history, entryId, at, development).requests.None?
  {
    NoActiveFileIsServerError(Missing, at, development);
  }

  /** An id the document does not hold is the handler's own `404`, whose message
      names the id. Nothing is written. */
  lemma UnknownIdIsNotFound(id: string, body: Json, requests: DataManager.File, history: DataManager.File,
                            entryId: string, at: string, development: bool)
    requires id != "" && requests.Present?
    ensures (DataManager.FindIndex(requests.value.items, "id", Some(Str(id))) == Ok(None) &&
             Validate(Schemas.UpdateRequestSchema, body, Defaults).Ok?) ==>
      Update(id, body, requests, history, entryId, at, development) ==
        Only(NotFoundAnswer("Request with id " + id + " not found"))
    ensures DataManager.FindIndex(requests.value.items, "id", Some(Str(id))) == Ok(None) ==>
      Delete(id, requests, history, entryId, at, development) ==
        Only(NotFoundAnswer("Request with id " + id + " not found"))
  {
    RequestNotFoundSaysSo(requests, Some(Str(id)));
  }

  /** A client cannot mark a request `processed`: such an update is turned away
      with `400` and nothing is written. */
  lemma ProcessedUpdateRejected(id: string, body: Json, requests: DataManager.File, history: DataManager.File,
                                entryId: string, at: string, development: bool)
    requires Field(body, "status") == Some(Str("processed"))
    ensures Update(id, body, requests, history, entryId, at, development).response.status == 400
    ensures Update(id, body, requests, history, entryId, at, development).requests.None?
  {
    Schemas.UpdateRejectsProcessed(body, Defaults);
  }
}
