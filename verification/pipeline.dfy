/** The middleware chain in registration order: exception translation outermost,
    then the rate limiter, then body-filter extraction, then the token gate, then
    the endpoint. The endpoint is a parameter from the rewritten request to its
    outcome. */
module Pipeline {
  import opened Wrappers
  import opened Exceptions
  import opened Http
  import opened Json
  import RateLimit
  import PaginationExtraction
  import AuthGate
  import ExceptionTranslation
  import AuthController
  import ObjectController

  /** The response, the bucket table afterwards, and whether the endpoint ran. */
  datatype Outcome = Outcome(response: Response, table: RateLimit.Table, endpointCalled: bool)

  /** One request through the whole chain. */
  function Handle(request: Request, table: RateLimit.Table, now: int,
                  parse: string -> Option<Json>, encode: string -> string,
                  endpoint: Request -> Result<Response, Exception>): (r: Outcome)
    // only the rate limiter keeps state, and it is updated on every request
    ensures r.table == RateLimit.Step(table, request.remoteIp, now).table
    // a rejected bucket stops the request before anything else looks at it
    ensures !RateLimit.Step(table, request.remoteIp, now).admitted ==>
      r.response == RateLimit.RejectResponse() && !r.endpointCalled
    // the endpoint sees the rewritten request; the gate decides on the original
    // route data and header, which the rewrite leaves alone
    ensures RateLimit.Step(table, request.remoteIp, now).admitted ==>
      var gate := AuthGate.Invoke(request.path, request.endpoint, request.authorization,
                                  endpoint(PaginationExtraction.Invoke(request, parse, encode)));
      r.endpointCalled == gate.nextCalled && r.response == ExceptionTranslation.Invoke(gate.result)
  {
    var step := RateLimit.Step(table, request.remoteIp, now);
    if !step.admitted then
      Outcome(ExceptionTranslation.Invoke(Ok(RateLimit.RejectResponse())), step.table, false)
    else
      var seen := PaginationExtraction.Invoke(request, parse, encode);
      var gate := AuthGate.Invoke(seen.path, seen.endpoint, seen.authorization, endpoint(seen));
      Outcome(ExceptionTranslation.Invoke(gate.result), step.table, gate.nextCalled)
  }

  /** The rate limiter runs before the token gate: an exhausted client gets 429 even
      with no credentials at all. */
  lemma ExhaustedClientGets429(request: Request, table: RateLimit.Table, now: int,
                               parse: string -> Option<Json>, encode: string -> string,
                               endpoint: Request -> Result<Response, Exception>)
    requires RateLimit.Key(request.remoteIp) in table
    requires RateLimit.Refill(table[RateLimit.Key(request.remoteIp)], now).tokens == 0
    ensures Handle(request, table, now, parse, encode, endpoint).response.status == RateLimit.TooManyRequests
    ensures !Handle(request, table, now, parse, encode, endpoint).endpointCalled
  {
  }

  /** The object listing without an `Authorization` header is a 401 "token not
      provided", and the controller never runs. */
  lemma ListingNeedsHeader(request: Request, table: RateLimit.Table, now: int,
                           parse: string -> Option<Json>, encode: string -> string,
                           endpoint: Request -> Result<Response, Exception>)
    requires request.endpoint == Some(ObjectController.GetEndpoint)
    requires request.path == Some("/api/Object/get")
    requires request.authorization == ""
    requires RateLimit.Step(table, request.remoteIp, now).admitted
    ensures Handle(request, table, now, parse, encode, endpoint).response == AuthGate.Reject(AuthGate.MsgNotProvided)
    ensures !Handle(request, table, now, parse, encode, endpoint).endpointCalled
  {
    assert !AuthGate.IsPublicPath(request.path) by {
      AuthGate.PublicPrefixesAreLoose();
    }
  }

  /** The login action is reached whatever the header, once the rate limiter
      admits the request. */
  lemma LoginIgnoresHeader(request: Request, table: RateLimit.Table, now: int,
                           parse: string -> Option<Json>, encode: string -> string,
                           endpoint: Request -> Result<Response, Exception>)
    requires request.endpoint == Some(AuthController.LoginEndpoint)
    requires RateLimit.Step(table, request.remoteIp, now).admitted
    ensures Handle(request, table, now, parse, encode, endpoint).endpointCalled
  {
  }

  /** An exception from a protected endpoint reaches the exception middleware and
      becomes `{ error, status }` with its mapped status. */
  lemma EndpointFaultTranslated(request: Request, table: RateLimit.Table, now: int,
                                parse: string -> Option<Json>, encode: string -> string,
                                endpoint: Request -> Result<Response, Exception>)
    requires RateLimit.Step(table, request.remoteIp, now).admitted
    requires !AuthGate.AllowsAnonymous(request.endpoint)
    requires AuthGate.IsPublicPath(request.path) || AuthGate.HeaderShape(request.authorization).WellShaped?
    requires endpoint(PaginationExtraction.Invoke(request, parse, encode)).Err?
    ensures Handle(request, table, now, parse, encode, endpoint).response
         == ExceptionTranslation.HandleException(endpoint(PaginationExtraction.Invoke(request, parse, encode)).error)
  {
  }

  /** On an anonymous endpoint a token fault is answered by the gate with a 401 and
      never reaches the exception middleware. */
  lemma AnonymousTokenFaultIs401(request: Request, table: RateLimit.Table, now: int,
                                 parse: string -> Option<Json>, encode: string -> string,
                                 endpoint: Request -> Result<Response, Exception>)
    requires RateLimit.Step(table, request.remoteIp, now).admitted
    requires !AuthGate.IsPublicPath(request.path) && AuthGate.AllowsAnonymous(request.endpoint)
    requires endpoint(PaginationExtraction.Invoke(request, parse, encode)).Err?
    requires IsSecurityTokenException(endpoint(PaginationExtraction.Invoke(request, parse, encode)).error.kind)
    ensures Handle(request, table, now, parse, encode, endpoint).response.status == AuthGate.Unauthorized
  {
  }
}
