/** ExceptionMiddleware: the outermost stage, turning any exception that escapes the
    rest of the chain into a JSON error body and a matching status code. */
module ExceptionTranslation {
  import opened Wrappers
  import opened Exceptions
  import opened Http

  const NotFound: int := 404
  const BadRequest: int := 400
  const InternalServerError: int := 500

  /** The status code chosen for an exception kind. */
  function StatusFor(k: ExceptionKind): (code: int)
    ensures code == NotFound <==> k == KeyNotFound
    ensures code == BadRequest <==> IsArgumentException(k)
    ensures code == InternalServerError <==> k != KeyNotFound && !IsArgumentException(k)
  {
    if k == KeyNotFound then NotFound
    else if IsArgumentException(k) then BadRequest
    else InternalServerError
  }

  /** `HandleExceptionAsync`: the response written for a caught exception. */
  function HandleException(ex: Exception): (r: Response)
    ensures r.status in {NotFound, BadRequest, InternalServerError}
    ensures r.status == NotFound <==> ex.kind == KeyNotFound
    ensures r.status == BadRequest <==> IsArgumentException(ex.kind)
    ensures r.body == ErrorJson(ex.message, r.status)
    ensures r.contentType == JsonContentType
  {
    var code := StatusFor(ex.kind);
    Response(code, JsonContentType, ErrorJson(ex.message, code))
  }

  /** `InvokeAsync`: the downstream outcome passes through unless it is an exception. */
  function Invoke(downstream: Result<Response, Exception>): (r: Response)
    ensures downstream.Ok? ==> r == downstream.value
    ensures downstream.Err? ==> r.body == ErrorJson(downstream.error.message, r.status)
    ensures downstream.Err? ==> r.status in {NotFound, BadRequest, InternalServerError}
  {
    match downstream
    case Ok(resp) => resp
    case Err(ex) => HandleException(ex)
  }
}
