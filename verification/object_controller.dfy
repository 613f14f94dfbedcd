/** ObjectController: `GET api/Object/get`, behind `[Authorize]`. */
module ObjectController {
  import opened Wrappers
  import opened Exceptions
  import opened Http
  import opened Bson
  import opened DocumentMapping
  import opened RequestParams
  import opened QueryEngine
  import opened BaseApi
  import opened ObjectService

  const ObjectsReturned: string := "Objeto obtenido correctamente"

  /** Route metadata of the listing action: GET, `[Authorize]`, no allow-anonymous marker. */
  const GetEndpoint: Endpoint := Endpoint("GET", "api/Object/get", false, true)

  /** `Get`, given what the service call produced: its value is returned as a 200
      envelope whatever it is, null included; an exception becomes a 400 carrying
      the exception's message. */
  function Get(service: Result<Option<Deferred>, Exception>): (r: ActionResult<Deferred>)
    ensures Consistent(r)
    ensures r.status == Ok200 <==> service.Ok?
    ensures service.Ok? ==> r.body.data == service.value && r.body.message == ObjectsReturned
    ensures service.Err? ==> r.status == BadRequest400 && r.body.message == service.error.message
  {
    match service
    case Ok(data) => OkResponse(data, ObjectsReturned)
    case Err(ex) => BadRequestResponse(ex.message)
  }

  /** The action with the real service, which never throws. */
  function Handle(ctx: Option<RequestContext>, store: Store, parse: string -> Option<Document>): (r: ActionResult<Deferred>)
    ensures r.status == Ok200 && r.body.success
    ensures r.body.data == GetAsync(ctx, store, parse)
  {
    Get(Ok(GetAsync(ctx, store, parse)))
  }

  /** A failed query is reported as a success with no data. */
  lemma FailedQueryReportedAsSuccess(ctx: Option<RequestContext>, store: Store, parse: string -> Option<Document>)
    requires store.fault.Some?
    ensures Handle(ctx, store, parse) == OkResponse(None, ObjectsReturned)
  {
  }

  /** Writing the result: serializing the data enumerates the deferred mapping, so a
      document that does not map fails here, after the action's own exception
      handler has been left. */
  function Render(a: ActionResult<Deferred>): (r: Result<Response, Exception>)
    ensures a.body.data.None? ==> r == Ok(BaseApi.Render(a))
    ensures a.body.data.Some? ==>
      (r.Ok? <==> Enumerate(a.body.data.value).Ok?)
    ensures r.Ok? ==> r.value == BaseApi.Render(a)
    ensures r.Err? ==> r == Err(Enumerate(a.body.data.value).error)
  {
    match a.body.data
    case None => Ok(BaseApi.Render(a))
    case Some(d) =>
      match Enumerate(d)
      case Err(ex) => Err(ex)
      case Ok(_) => Ok(BaseApi.Render(a))
  }

  /** The listing endpoint end to end: a document that does not map escapes as an
      exception (to the exception middleware) instead of the action's 400. */
  lemma UnmappableObjectEscapes(ctx: Option<RequestContext>, store: Store, parse: string -> Option<Document>)
    requires store.fault.None?
    requires GetPaginationParameters(ctx).filter == Some("")
    requires exists i ::
      0 <= i < |Collection(store, ObjectsCollection)| && MapDocument(ObjectSchema, Collection(store, ObjectsCollection)[i]).Err?
    ensures Render(Handle(ctx, store, parse)).Err?
  {
    UnfilteredListsAll(ctx, store, parse);
  }
}
