/** BaseApiController: the `ApiResponse<T>` envelope helpers every controller uses.
    The envelope's `Data` is `None` where the source leaves it null. */
module BaseApi {
  import opened Wrappers
  import opened Http

  const Ok200: int := 200
  const BadRequest400: int := 400
  const Unauthorized401: int := 401
  const NotFound404: int := 404

  const DefaultOkMessage: string := "Operación exitosa"

  datatype ApiResponse<T> = ApiResponse(success: bool, data: Option<T>, message: string)

  /** An `IActionResult` carrying an envelope: the status code and the body. */
  datatype ActionResult<T> = ActionResult(status: int, body: ApiResponse<T>)

  /** The envelope's flag agrees with the status: success exactly on 200. */
  predicate Consistent<T>(a: ActionResult<T>) {
    a.body.success <==> a.status == Ok200
  }

  /** `OkResponse(data, message)`; callers that omit the message pass `DefaultOkMessage`. */
  function OkResponse<T>(data: Option<T>, message: string): (r: ActionResult<T>)
    ensures r.status == Ok200 && Consistent(r)
    ensures r.body.data == data && r.body.message == message
  {
    ActionResult(Ok200, ApiResponse(true, data, message))
  }

  /** `OkResponse(message)`: a success with no data. */
  function OkMessage<T>(message: string): (r: ActionResult<T>)
    ensures r.status == Ok200 && Consistent(r)
    ensures r.body.data.None? && r.body.message == message
  {
    ActionResult(Ok200, ApiResponse(true, None, message))
  }

  /** The failure envelope shared by the 4xx helpers. */
  function Failure<T>(status: int, message: string): ActionResult<T> {
    ActionResult(status, ApiResponse(false, None, message))
  }

  function NotFoundResponse<T>(message: string): (r: ActionResult<T>)
    ensures r.status == NotFound404 && Consistent(r)
    ensures r.body.data.None? && r.body.message == message
  {
    Failure(NotFound404, message)
  }

  function BadRequestResponse<T>(message: string): (r: ActionResult<T>)
    ensures r.status == BadRequest400 && Consistent(r)
    ensures r.body.data.None? && r.body.message == message
  {
    Failure(BadRequest400, message)
  }

  function UnauthorizedResponse<T>(message: string): (r: ActionResult<T>)
    ensures r.status == Unauthorized401 && Consistent(r)
    ensures r.body.data.None? && r.body.message == message
  {
    Failure(Unauthorized401, message)
  }

  /** Writing an envelope to the wire keeps its status, flag and message. */
  function Render<T>(a: ActionResult<T>): (r: Response)
    ensures r.status == a.status && r.contentType == ActionContentType
    ensures r.body == ApiEnvelope(a.body.success, a.body.message)
  {
    Response(a.status, ActionContentType, ApiEnvelope(a.body.success, a.body.message))
  }
}
