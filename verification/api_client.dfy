/** The frontend's `apiService`: every call resolves to one normalised object, built
    from the axios response on success and from the rejection on failure. Values are
    JavaScript values as axios hands them over after parsing the body. */
module ApiClient {
  import opened Wrappers
  import opened Text
  import opened Http
  import ExceptionTranslation
  import Exceptions
  import RateLimit
  import AuthGate

  datatype Js =
    | JUndefined
    | JNull
    | JBool(b: bool)
    | JNum(n: int)
    | JStr(s: string)
    | JArr(items: seq<Js>)
    | JObj(props: map<string, Js>)

  predicate Nullish(v: Js) { v.JUndefined? || v.JNull? }

  /** JavaScript truthiness (NaN and -0 are not modelled). */
  predicate Truthy(v: Js) {
    match v
    case JUndefined => false
    case JNull => false
    case JBool(b) => b
    case JNum(n) => n != 0
    case JStr(s) => s != ""
    case _ => true
  }

  /** `v?.key`: a property of an object; anything else has none of the keys read here. */
  function Prop(v: Js, key: string): Js {
    if v.JObj? && key in v.props then v.props[key] else JUndefined
  }

  /** `a ?? b` */
  function Coalesce(a: Js, b: Js): (r: Js)
    ensures !Nullish(a) ==> r == a
    ensures Nullish(a) ==> r == b
  {
    if Nullish(a) then b else a
  }

  /** `a || b` */
  function Or(a: Js, b: Js): (r: Js)
    ensures Truthy(a) ==> r == a
    ensures !Truthy(a) ==> r == b
  {
    if Truthy(a) then a else b
  }

  const DefaultMessage: string := "Operación exitosa"
  const UnknownError: string := "Error desconocido"

  /** The paging fields copied from a paginated body. */
  datatype Page = Page(totalRecords: Js, pageNumber: Js, pageSize: Js)

  /** The object every call resolves to; `page` is present only for a paginated body. */
  datatype Normalized = Normalized(data: Js, message: Js, success: Js, status: Js, page: Option<Page>)

  /** A body whose `listFind` is an array is a page of results. */
  predicate Paginated(body: Js) {
    body.JObj? && Prop(body, "listFind").JArr?
  }

  /** `normalizeResponse`. */
  function NormalizeResponse(response: Js): (r: Normalized)
    ensures r.page.Some? <==> Paginated(Prop(response, "data"))
    ensures r.page.Some? ==> r.data == Prop(Prop(response, "data"), "listFind") && r.data.JArr?
    ensures r.page.None? ==> !r.data.JUndefined?
    ensures !Nullish(r.message) && !Nullish(r.success) && !Nullish(r.status)
    ensures !Nullish(Prop(Prop(response, "data"), "message")) ==> r.message == Prop(Prop(response, "data"), "message")
    ensures !Nullish(Prop(Prop(response, "data"), "success")) ==> r.success == Prop(Prop(response, "data"), "success")
    ensures !Nullish(Prop(response, "status")) ==> r.status == Prop(response, "status")
    ensures Nullish(Prop(Prop(response, "data"), "message")) ==> r.message == JStr(DefaultMessage)
    ensures Nullish(Prop(Prop(response, "data"), "success")) ==> r.success == JBool(true)
    ensures Nullish(Prop(response, "status")) ==> r.status == JNum(200)
    ensures r.page.Some? ==> r.page.value == Page(Prop(Prop(response, "data"), "totalRecords"),
                                                  Prop(Prop(response, "data"), "pageNumber"),
                                                  Prop(Prop(response, "data"), "pageSize"))
    ensures r.page.None? && !Nullish(Prop(Prop(response, "data"), "data")) ==> r.data == Prop(Prop(response, "data"), "data")
    ensures r.page.None? && Nullish(Prop(Prop(response, "data"), "data")) ==>
      r.data == (if Nullish(Prop(response, "data")) then JNull else Prop(response, "data"))
  {
    var body := Prop(response, "data");
    var message := Coalesce(Prop(body, "message"), JStr(DefaultMessage));
    var success := Coalesce(Prop(body, "success"), JBool(true));
    var status := Coalesce(Prop(response, "status"), JNum(200));
    if Paginated(body) then
      Normalized(Prop(body, "listFind"), message, success, status,
                 Some(Page(Prop(body, "totalRecords"), Prop(body, "pageNumber"), Prop(body, "pageSize"))))
    else
      Normalized(Coalesce(Coalesce(Prop(body, "data"), body), JNull), message, success, status, None)
  }

  /** `normalizeError`; `None` when the rejection value is itself null or undefined, where
      reading `error.response` throws a TypeError. */
  function NormalizeError(error: Js): (r: Option<Normalized>)
    ensures r.None? <==> Nullish(error)
    ensures r.Some? ==> Truthy(r.value.message) && r.value.page.None?
    ensures r.Some? ==> r.value.status == Coalesce(Prop(Prop(error, "response"), "status"), JNum(500))
    ensures r.Some? && Prop(Prop(error, "response"), "data").JStr? && Truthy(Prop(Prop(error, "response"), "data")) ==> r.value == Normalized(JNull, Prop(Prop(error, "response"), "data"), JBool(false), r.value.status, None)
    ensures r.Some? && Truthy(Prop(Prop(error, "response"), "data")) && Truthy(Prop(Prop(Prop(error, "response"), "data"), "error")) ==> r.value.message == Prop(Prop(Prop(error, "response"), "data"), "error") && r.value.success == JBool(false) && r.value.data == JNull
    ensures r.Some? && !Truthy(Prop(Prop(error, "response"), "data")) ==> r.value.data == JNull && r.value.success == JBool(false)
    ensures r.Some? && !Truthy(Prop(Prop(error, "response"), "data")) ==>
      r.value.message == (if Truthy(Prop(error, "message")) then Prop(error, "message") else JStr(UnknownError))
    ensures r.Some? && EnvelopeBody(Prop(Prop(error, "response"), "data")) ==>
      var body := Prop(Prop(error, "response"), "data");
      && r.value.message == (if Truthy(Prop(body, "message")) then Prop(body, "message") else JStr(UnknownError))
      && r.value.data == (if Nullish(Prop(body, "data")) then JNull else Prop(body, "data"))
      && r.value.success == (if Nullish(Prop(body, "success")) then JBool(false) else Prop(body, "success"))
  {
    if Nullish(error) then None
    else
      var response := Prop(error, "response");
      Some(FromErrorBody(Prop(response, "data"), Coalesce(Prop(response, "status"), JNum(500)), Prop(error, "message")))
  }

  /** An error body read as the server's own envelope: truthy, not text, and without
      a truthy `error` field. */
  predicate EnvelopeBody(body: Js) {
    Truthy(body) && !body.JStr? && !Truthy(Prop(body, "error"))
  }

  /** The part of `normalizeError` that reads the response body: a non-empty string body
      is the message, then a truthy `error` field, then the envelope's own fields; with
      a falsy body the error's own message is used. */
  function FromErrorBody(body: Js, status: Js, errorMessage: Js): (r: Normalized)
    ensures Truthy(r.message) && r.status == status && r.page.None?
  {
    if Truthy(body) then
      if body.JStr? then Normalized(JNull, body, JBool(false), status, None)
      else if Truthy(Prop(body, "error")) then Normalized(JNull, Prop(body, "error"), JBool(false), status, None)
      else
        Normalized(Coalesce(Prop(body, "data"), JNull), Or(Prop(body, "message"), JStr(UnknownError)),
                   Coalesce(Prop(body, "success"), JBool(false)), status, None)
    else if Truthy(errorMessage) then Normalized(JNull, errorMessage, JBool(false), status, None)
    else Normalized(JNull, JStr(UnknownError), JBool(false), status, None)
  }

  /** `apiService.get`, `post`, `put` and `delete`: the settled axios promise, resolved with a
      response or rejected with a value, becomes a normalised object; `None` is a rejection
      escaping the call. */
  function Call(settled: Result<Js, Js>): (r: Option<Normalized>)
    ensures r.None? <==> settled.Err? && Nullish(settled.error)
    ensures settled.Ok? ==> r == Some(NormalizeResponse(settled.value))
    ensures settled.Err? ==> r == NormalizeError(settled.error)
  {
    match settled
    case Ok(response) => Some(NormalizeResponse(response))
    case Err(error) => NormalizeError(error)
  }

  /** The body of a server response as the client sees it once axios has parsed it; `data`
      stands for the serialized payload the envelope and an action body carry. The plain
      texts the server writes are not JSON, so they stay strings. */
  function Wire(b: Body, data: Js): Js {
    match b
    case NoBody => JStr("")
    case PlainText(t) => JStr(t)
    case ErrorJson(e, s) => JObj(map["error" := JStr(e), "status" := JNum(s)])
    case AuthJson(ok, m, c) => JObj(map["success" := JBool(ok), "message" := JStr(m), "statusCode" := JNum(c)])
    case ApiEnvelope(ok, m) => JObj(map["success" := JBool(ok), "data" := data, "message" := JStr(m)])
    case ActionBody(_) => data
  }

  /** axios with its default `validateStatus`: a 2xx status resolves with the response,
      any other rejects with an error carrying it. */
  function Receive(resp: Response, data: Js): (r: Result<Js, Js>)
    ensures r.Ok? <==> 200 <= resp.status < 300
    ensures r.Err? ==> !Nullish(r.error) && Prop(Prop(r.error, "response"), "status") == JNum(resp.status)
  {
    var response := JObj(map["data" := Wire(resp.body, data), "status" := JNum(resp.status)]);
    if 200 <= resp.status < 300 then Ok(response)
    else Err(JObj(map["response" := response, "message" := JStr(AxiosMessage(resp.status))]))
  }

  /** The message axios gives a rejection for a status outside 2xx. */
  function AxiosMessage(status: int): string {
    "Request failed with status code " + IntToString(status)
  }

  /** A server response, received and normalised: no call made to this server throws. */
  lemma ServerResponsesNeverThrow(resp: Response, data: Js)
    ensures Call(Receive(resp, data)).Some?
  {
  }

  /** A response outside 2xx is normalised from its body, its status and the axios message. */
  lemma Rejected(resp: Response, data: Js)
    requires !(200 <= resp.status < 300)
    ensures Call(Receive(resp, data)) == Some(FromErrorBody(Wire(resp.body, data), JNum(resp.status), JStr(AxiosMessage(resp.status))))
  {
    var response := JObj(map["data" := Wire(resp.body, data), "status" := JNum(resp.status)]);
    var error := JObj(map["response" := response, "message" := JStr(AxiosMessage(resp.status))]);
    assert Receive(resp, data) == Err(error);
    assert Prop(error, "response") == response;
    assert Prop(error, "message") == JStr(AxiosMessage(resp.status));
    assert Prop(response, "data") == Wire(resp.body, data);
  }

  /** An exception the server translates reaches the caller as its message and status,
      provided the message is not empty. */
  lemma ServerFaultReachesCaller(ex: Exceptions.Exception, data: Js)
    requires ex.message != ""
    ensures Call(Receive(ExceptionTranslation.HandleException(ex), data))
         == Some(Normalized(JNull, JStr(ex.message), JBool(false), JNum(ExceptionTranslation.StatusFor(ex.kind)), None))
  {
    var resp := ExceptionTranslation.HandleException(ex);
    var status := ExceptionTranslation.StatusFor(ex.kind);
    assert resp.status == status && resp.body == ErrorJson(ex.message, status) && !(200 <= status < 300);
    Rejected(resp, data);
    ErrorJsonFields(ex.message, status);
    var body := Wire(resp.body, data);
    assert FromErrorBody(body, JNum(status), JStr(AxiosMessage(status))) == Normalized(JNull, JStr(ex.message), JBool(false), JNum(status), None);
  }

  /** An exception with an empty message is reported as an unknown error. */
  lemma EmptyFaultIsUnknown(ex: Exceptions.Exception, data: Js)
    requires ex.message == ""
    ensures Call(Receive(ExceptionTranslation.HandleException(ex), data))
         == Some(Normalized(JNull, JStr(UnknownError), JBool(false), JNum(ExceptionTranslation.StatusFor(ex.kind)), None))
  {
    var resp := ExceptionTranslation.HandleException(ex);
    var status := ExceptionTranslation.StatusFor(ex.kind);
    assert resp.status == status && resp.body == ErrorJson(ex.message, status) && !(200 <= status < 300);
    Rejected(resp, data);
    ErrorJsonFields(ex.message, status);
    var body := Wire(resp.body, data);
    assert FromErrorBody(body, JNum(status), JStr(AxiosMessage(status))) == Normalized(JNull, JStr(UnknownError), JBool(false), JNum(status), None);
  }

  lemma ErrorJsonFields(e: string, s: int)
    ensures var body := Wire(ErrorJson(e, s), JNull);
      && Prop(body, "error") == JStr(e) && Prop(body, "message") == JUndefined
      && Prop(body, "data") == JUndefined && Prop(body, "success") == JUndefined
  {
  }

  /** A rate-limited call resolves to the limiter's text with status 429. */
  lemma RateLimitedCall(data: Js)
    ensures Call(Receive(RateLimit.RejectResponse(), data))
         == Some(Normalized(JNull, JStr(RateLimit.RejectText), JBool(false), JNum(RateLimit.TooManyRequests), None))
  {
    Rejected(RateLimit.RejectResponse(), data);
  }

  /** A token-gate rejection with a message surfaces that message with status 401. */
  lemma GateRejectionReachesCaller(message: string, data: Js)
    requires message != ""
    ensures Call(Receive(AuthGate.Reject(message), data))
         == Some(Normalized(JNull, JStr(message), JBool(false), JNum(AuthGate.Unauthorized), None))
  {
    Rejected(AuthGate.Reject(message), data);
    AuthJsonFields(false, message, AuthGate.Unauthorized);
  }

  lemma AuthJsonFields(ok: bool, m: string, c: int)
    ensures var body := Wire(AuthJson(ok, m, c), JNull);
      && Prop(body, "error") == JUndefined && Prop(body, "message") == JStr(m)
      && Prop(body, "data") == JUndefined && Prop(body, "success") == JBool(ok)
  {
  }

  /** A successful envelope whose data is present and is not a page comes back field by field. */
  lemma EnvelopeRoundTrip(message: string, status: int, data: Js)
    requires 200 <= status < 300 && !Nullish(data)
    ensures Call(Receive(Response(status, ActionContentType, ApiEnvelope(true, message)), data))
         == Some(Normalized(data, JStr(message), JBool(true), JNum(status), None))
  {
    var body := Wire(ApiEnvelope(true, message), data);
    assert Prop(body, "listFind") == JUndefined;
    assert Prop(body, "data") == data;
    assert Prop(body, "message") == JStr(message);
    assert Prop(body, "success") == JBool(true);
  }

  /** An envelope whose data is null yields the whole envelope as `data`, since
      `body.data ?? body` falls through to the body. */
  lemma NullEnvelopeDataIsEnvelope(message: string, status: int)
    requires 200 <= status < 300
    ensures Call(Receive(Response(status, ActionContentType, ApiEnvelope(true, message)), JNull)).value.data
         == JObj(map["success" := JBool(true), "data" := JNull, "message" := JStr(message)])
  {
    var body := Wire(ApiEnvelope(true, message), JNull);
    assert Prop(body, "listFind") == JUndefined;
    assert Prop(body, "data") == JNull;
  }
}
