/** AuthController: `POST api/Auth/login`, open to anonymous callers. The service
    is a parameter, so "the service is not called" reads as "the result does not
    depend on it". */
module AuthController {
  import opened Wrappers
  import opened Exceptions
  import opened Http
  import opened BaseApi
  import opened AuthService
  import Text

  const InvalidCredentials: string := "Credenciales inválidas"
  const LoginSucceeded: string := "Inicio de sesión exitoso"

  /** Route metadata of the login action: POST, allow-anonymous, no `[Authorize]`. */
  const LoginEndpoint: Endpoint := Endpoint("POST", "api/Auth/login", true, false)

  /** The bound request body; a member the JSON lacks is null. */
  datatype LoginBody = LoginBody(username: Option<string>, password: Option<string>)

  /** `new { token, user }` */
  datatype LoginData = LoginData(token: Option<Token>, user: Option<Credentials>)

  /** `Login`: null credentials and a failed check are both a 401 with the same
      message; a successful check is a 200 carrying the token and the user; an
      exception from the service propagates. */
  function Login(body: LoginBody, service: Credentials -> Result<LoginOutcome, Exception>): (r: Result<ActionResult<LoginData>, Exception>)
    ensures body.username.None? || body.password.None? ==> r == Ok(UnauthorizedResponse(InvalidCredentials))
    ensures r.Ok? ==> r.value.status in {Ok200, Unauthorized401} && Consistent(r.value)
    ensures r.Ok? && r.value.status == Unauthorized401 ==> r.value.body.message == InvalidCredentials
    ensures (r.Ok? && r.value.status == Ok200) <==>
      && body.username.Some? && body.password.Some?
      && var outcome := service(Credentials(body.username.value, body.password.value));
         outcome.Ok? && outcome.value.success
    ensures r.Ok? && r.value.status == Ok200 ==>
      var outcome := service(Credentials(body.username.value, body.password.value)).value;
      r.value == OkResponse(Some(LoginData(outcome.token, outcome.user)), LoginSucceeded)
    ensures r.Err? <==>
      && body.username.Some? && body.password.Some?
      && service(Credentials(body.username.value, body.password.value)).Err?
  {
    if body.username.None? || body.password.None? then Ok(UnauthorizedResponse(InvalidCredentials))
    else
      var outcome :- service(Credentials(body.username.value, body.password.value));
      if !outcome.success then Ok(UnauthorizedResponse(InvalidCredentials))
      else Ok(OkResponse(Some(LoginData(outcome.token, outcome.user)), LoginSucceeded))
  }

  /** `[Required]` on both members of the bound model, as the automatic model
      validation of `[ApiController]` checks it: a null, empty or white-space-only
      value fails. */
  predicate PassesRequired(body: LoginBody) {
    && body.username.Some? && !Text.IsBlank(body.username.value)
    && body.password.Some? && !Text.IsBlank(body.password.value)
  }

  /** What a login request comes to: the framework's 400 validation problem, or the
      action's own result. */
  datatype LoginDispatch =
    | ValidationProblem
    | Ran(result: Result<ActionResult<LoginData>, Exception>)

  /** The request as the framework handles it: model validation first, the action
      only for a valid body. The action's null check is then dead code, so a 401
      always means the service refused the credentials. */
  function LoginRequest(body: LoginBody, service: Credentials -> Result<LoginOutcome, Exception>): (r: LoginDispatch)
    ensures r.ValidationProblem? <==> !PassesRequired(body)
    ensures r.Ran? ==> r.result == Login(body, service)
    ensures r.Ran? && r.result.Ok? && r.result.value.status == Unauthorized401 ==>
      var outcome := service(Credentials(body.username.value, body.password.value));
      outcome.Ok? && !outcome.value.success
    ensures r.Ran? ==>
      (r.result.Err? <==> service(Credentials(body.username.value, body.password.value)).Err?)
  {
    if !PassesRequired(body) then ValidationProblem
    else Ran(Login(body, service))
  }

  /** Empty credentials never reach the action, whatever the service would say. */
  lemma EmptyCredentialsRejected(service: Credentials -> Result<LoginOutcome, Exception>)
    ensures LoginRequest(LoginBody(Some(""), Some("")), service) == ValidationProblem
    ensures LoginRequest(LoginBody(Some("\""), Some(" ")), service) == ValidationProblem
  {
    assert Text.IsBlank(" ") by {
      assert Text.IsDotNetWhiteSpace(' ');
    }
  }

  /** The action method alone does not reject empty strings: called directly, it
      passes them to the service, whose answer decides the outcome. The framework's
      validation (`LoginRequest`) stops such a request before the action runs. */
  lemma EmptyCredentialsReachService(service: Credentials -> Result<LoginOutcome, Exception>)
    requires service(Credentials("", "")).Ok? && service(Credentials("", "")).value.success
    ensures Login(LoginBody(Some(""), Some("")), service).Ok?
    ensures Login(LoginBody(Some(""), Some("")), service).value.status == Ok200
  {
  }

  /** With the real service, a successful login returns the caller's username, a
      blanked password and a token naming that user. */
  lemma LoginReturnsBlankedUser(body: LoginBody, ctx: Option<RequestParams.RequestContext>, store: QueryEngine.Store,
                                parse: string -> Option<Bson.Document>, config: JwtConfig, now: int)
    requires body.username.Some? && body.password.Some?
    ensures var r := Login(body, c => LoginAsync(c, ctx, store, parse, config, now));
      r.Ok? && r.value.status == Ok200 ==>
        && r.value.body.data.Some?
        && r.value.body.data.value.user == Some(Credentials(body.username.value, ""))
        && r.value.body.data.value.token.Some?
        && r.value.body.data.value.token.value.claims
           == [Claim(NameIdentifierClaim, body.username.value), Claim(RoleClaim, AdminRole)]
  {
  }

  /** The login attack survives the framework's validation: username `"` with any
      non-blank password is a valid body, and the action answers 200 against a
      non-empty, mappable users collection. */
  lemma QuoteUsernameRequestLogsIn(password: string, ctx: Option<RequestParams.RequestContext>,
                                   store: QueryEngine.Store, config: JwtConfig, now: int)
    requires !Text.IsBlank(password)
    requires RequestParams.GetPaginationParameters(ctx).filter == Some("")
    requires store.fault.None? && Signs(config)
    requires |QueryEngine.Collection(store, UsersCollection)| > 0
    requires forall d :: d in QueryEngine.Collection(store, UsersCollection) ==> DocumentMapping.MapDocument(AuthSchema, d).Ok?
    ensures var r := LoginRequest(LoginBody(Some("\""), Some(password)),
                                  c => LoginAsync(c, ctx, store, FlatJson.Parse, config, now));
      r.Ran? && r.result.Ok? && r.result.value.status == Ok200
  {
    assert !Text.IsBlank("\"") by {
      assert !Text.IsDotNetWhiteSpace("\""[0]);
    }
    QuoteUsernameLogsIn(password, ctx, store, config, now);
  }
}
