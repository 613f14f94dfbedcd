/** JwtValidationMiddleware: decides from the path, the endpoint's allow-anonymous
    marker and the `Authorization` header whether a request goes on or is answered
    with 401. It checks only the header's shape; the token itself is verified
    further down the chain. */
module AuthGate {
  import opened Wrappers
  import opened Text
  import opened Exceptions
  import opened Http

  const PublicPaths: seq<string> := [
    "/swagger",
    "/swagger/v1/swagger.json",
    "/swagger/index.html",
    "/favicon.ico",
    "/health",
    "/health/ready",
    "/health/live"
  ]

  const BearerPrefix: string := "Bearer "
  const Unauthorized: int := 401

  const MsgNotProvided: string := "No autorizado: token no proporcionado"
  const MsgWrongFormat: string := "No autorizado: formato de token incorrecto. Use 'Bearer <token>'"
  const MsgExpired: string := "Token expirado"
  const MsgBadSignature: string := "Token inválido: firma incorrecta"
  const MsgBadIssuer: string := "Token inválido: emisor incorrecto"
  const MsgBadAudience: string := "Token inválido: audiencia incorrecta"
  const MsgInvalid: string := "Token inválido"

  /** The lower-cased path starts with one of the lower-cased public prefixes; a null
      path is never public. Since every listed path extends "/swagger", "/favicon.ico"
      or "/health", those three prefixes alone decide it. */
  function IsPublicPath(path: Option<string>): (r: bool)
    ensures r <==> (path.Some? &&
                    (IsPrefix("/swagger", ToLower(path.value)) || IsPrefix("/favicon.ico", ToLower(path.value))
                     || IsPrefix("/health", ToLower(path.value))))
  {
    if path.None? then false
    else
      AnyPublicPrefix(ToLower(path.value));
      exists i :: 0 <= i < |PublicPaths| && IsPrefix(ToLower(PublicPaths[i]), ToLower(path.value))
  }

  lemma LowerKeeps(s: string)
    requires forall j :: 0 <= j < |s| ==> !('A' <= s[j] <= 'Z')
    ensures ToLower(s) == s
  {
  }

  lemma PrefixOfPrefix(root: string, p: string, x: string)
    requires IsPrefix(root, p) && IsPrefix(p, x)
    ensures IsPrefix(root, x)
  {
    assert x[..|root|] == x[..|p|][..|root|];
  }

  lemma AnyPublicPrefix(x: string)
    ensures (exists i :: 0 <= i < |PublicPaths| && IsPrefix(ToLower(PublicPaths[i]), x))
        <==> IsPrefix("/swagger", x) || IsPrefix("/favicon.ico", x) || IsPrefix("/health", x)
  {
    forall i | 0 <= i < |PublicPaths|
      ensures ToLower(PublicPaths[i]) == PublicPaths[i]
    {
      LowerKeeps(PublicPaths[i]);
    }
    assert IsPrefix("/swagger", PublicPaths[1]) && IsPrefix("/swagger", PublicPaths[2]);
    assert IsPrefix("/health", PublicPaths[5]) && IsPrefix("/health", PublicPaths[6]);
    if exists i :: 0 <= i < |PublicPaths| && IsPrefix(ToLower(PublicPaths[i]), x) {
      var i :| 0 <= i < |PublicPaths| && IsPrefix(ToLower(PublicPaths[i]), x);
      if i <= 2 {
        PrefixOfPrefix("/swagger", PublicPaths[i], x);
      } else if i >= 4 {
        PrefixOfPrefix("/health", PublicPaths[i], x);
      }
    }
    if IsPrefix("/swagger", x) {
      assert IsPrefix(ToLower(PublicPaths[0]), x);
    }
    if IsPrefix("/favicon.ico", x) {
      assert IsPrefix(ToLower(PublicPaths[3]), x);
    }
    if IsPrefix("/health", x) {
      assert IsPrefix(ToLower(PublicPaths[4]), x);
    }
  }

  /** The endpoint carries allow-anonymous metadata; no endpoint means no marker. */
  predicate AllowsAnonymous(endpoint: Option<Endpoint>) {
    endpoint.Some? && endpoint.value.allowAnonymous
  }

  datatype Shape = WellShaped | Malformed(message: string)

  /** The header checks of the protected branch. A header passes exactly when it
      starts with "Bearer " (case-sensitively, before any trimming) and something
      other than white space follows; a blank header and a blank token are "not
      provided", any other header lacking the prefix is "wrong format". */
  function HeaderShape(header: string): (r: Shape)
    ensures r.WellShaped? <==>
      IsPrefix(BearerPrefix, header) && !IsBlank(header[|BearerPrefix|..])
    ensures r == Malformed(MsgNotProvided) <==>
      IsBlank(header) || (IsPrefix(BearerPrefix, header) && IsBlank(header[|BearerPrefix|..]))
    ensures r == Malformed(MsgWrongFormat) <==> !IsBlank(header) && !IsPrefix(BearerPrefix, header)
  {
    if IsBlank(header) then Malformed(MsgNotProvided)
    else if !IsPrefix(BearerPrefix, header) then
      Malformed(MsgWrongFormat)
    else if IsBlank(Trim(header[|BearerPrefix|..])) then Malformed(MsgNotProvided)
    else WellShaped
  }

  /** The message for a token fault raised below an anonymous endpoint, matched most
      specific type first; other exceptions are not caught. */
  function TokenFaultMessage(k: ExceptionKind): (m: Option<string>)
    ensures m.Some? <==> IsSecurityTokenException(k)
    ensures k == TokenExpired ==> m == Some(MsgExpired)
    ensures k == TokenInvalidSignature ==> m == Some(MsgBadSignature)
    ensures k == TokenInvalidIssuer ==> m == Some(MsgBadIssuer)
    ensures k == TokenInvalidAudience ==> m == Some(MsgBadAudience)
    ensures k == TokenOther ==> m == Some(MsgInvalid)
  {
    match k
    case TokenExpired => Some(MsgExpired)
    case TokenInvalidSignature => Some(MsgBadSignature)
    case TokenInvalidIssuer => Some(MsgBadIssuer)
    case TokenInvalidAudience => Some(MsgBadAudience)
    case TokenOther => Some(MsgInvalid)
    case _ => None
  }

  /** `HandleMissingToken`: the 401 JSON answer. */
  function Reject(message: string): (r: Response)
    ensures r.status == Unauthorized
    ensures r.body == AuthJson(false, message, Unauthorized)
  {
    Response(Unauthorized, JsonContentType, AuthJson(false, message, Unauthorized))
  }

  /** What the gate does: whether it called the next stage, and the outcome it
      passes up (a response, or an exception it let through). */
  datatype GateOutcome = GateOutcome(nextCalled: bool, result: Result<Response, Exception>)

  /** `InvokeAsync`, given the outcome the next stage would produce. */
  function Invoke(path: Option<string>, endpoint: Option<Endpoint>, header: string,
                  next: Result<Response, Exception>): (r: GateOutcome)
    // a public path goes straight through, whatever the header
    ensures IsPublicPath(path) ==> r == GateOutcome(true, next)
    // an anonymous endpoint goes through; token faults below it become 401s
    ensures !IsPublicPath(path) && AllowsAnonymous(endpoint) ==>
      && r.nextCalled
      && (next.Ok? ==> r.result == next)
      && (next.Err? && IsSecurityTokenException(next.error.kind) ==>
            r.result == Ok(Reject(TokenFaultMessage(next.error.kind).value)))
      && (next.Err? && !IsSecurityTokenException(next.error.kind) ==> r.result == next)
    // otherwise the header decides: a well-shaped one goes on unverified, any other is a 401
    ensures !IsPublicPath(path) && !AllowsAnonymous(endpoint) ==>
      && (r.nextCalled <==> HeaderShape(header).WellShaped?)
      && (r.nextCalled ==> r.result == next)
      && (!r.nextCalled ==> r.result == Ok(Reject(HeaderShape(header).message)))
    // every rejection the gate writes itself is a 401 from the fixed message set
    ensures r.result.Ok? && (r.result != next) ==>
      r.result.value.status == Unauthorized && r.result.value.body.AuthJson?
  {
    if IsPublicPath(path) then GateOutcome(true, next)
    else if AllowsAnonymous(endpoint) then
      match next
      case Ok(_) => GateOutcome(true, next)
      case Err(ex) =>
        match TokenFaultMessage(ex.kind)
        case Some(m) => GateOutcome(true, Ok(Reject(m)))
        case None => GateOutcome(true, next)
    else
      match HeaderShape(header)
      case WellShaped => GateOutcome(true, next)
      case Malformed(m) => GateOutcome(false, Ok(Reject(m)))
  }

  /** Public prefixes are matched as plain string prefixes after lower-casing, so
      paths that merely extend a public prefix are public too. */
  lemma PublicPrefixesAreLoose()
    ensures IsPublicPath(Some("/swaggerx"))
    ensures IsPublicPath(Some("/healthz"))
    ensures IsPublicPath(Some("/HEALTH/live"))
    ensures !IsPublicPath(Some("/api/Object/get"))
    ensures !IsPublicPath(None)
  {
    assert IsPrefix(ToLower(PublicPaths[0]), ToLower("/swaggerx"));
    assert IsPrefix(ToLower(PublicPaths[4]), ToLower("/healthz"));
    assert IsPrefix(ToLower(PublicPaths[4]), ToLower("/HEALTH/live"));
    forall i | 0 <= i < |PublicPaths|
      ensures !IsPrefix(ToLower(PublicPaths[i]), ToLower("/api/Object/get"))
    {
      assert ToLower(PublicPaths[i])[1] != ToLower("/api/Object/get")[1];
    }
  }
}
