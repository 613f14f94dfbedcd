/** The parts of an ASP.NET Core request and response the middleware chain reads and writes. */
module Http {
  import opened Wrappers

  /** Route metadata of the endpoint routing selected for a request. */
  datatype Endpoint = Endpoint(httpMethod: string, route: string, allowAnonymous: bool, authorize: bool)

  /** A buffered request body: its text and the current read position. */
  datatype BodyStream = BodyStream(content: string, position: nat)

  datatype Request = Request(
    httpMethod: string,
    /** `Request.Path.Value`; `None` when the path is null. */
    path: Option<string>,
    /** `Request.QueryString.Value`: empty, or starting with '?'. */
    queryString: string,
    body: BodyStream,
    /** `Connection.RemoteIpAddress?.ToString()`. */
    remoteIp: Option<string>,
    /** `Request.Headers["Authorization"].ToString()`; empty when absent. */
    authorization: string,
    endpoint: Option<Endpoint>)

  datatype Body =
    | NoBody
    | PlainText(text: string)
    /** `{ error, status }` written by the exception middleware. */
    | ErrorJson(error: string, status: int)
    /** `{ success, message, statusCode }` written by the token gate. */
    | AuthJson(success: bool, message: string, statusCode: int)
    /** The `ApiResponse` envelope `{ success, data, message }` a controller returns;
        the serialized data is not represented. */
    | ApiEnvelope(success: bool, message: string)
    /** Whatever an action wrote; its shape is not part of the chain's contract. */
    | ActionBody(text: string)

  datatype Response = Response(status: int, contentType: string, body: Body)

  const JsonContentType: string := "application/json"
  /** The content type of a serialized action result. */
  const ActionContentType: string := "application/json; charset=utf-8"
}
