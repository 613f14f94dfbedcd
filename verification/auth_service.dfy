/** AuthService: credential check against the `users` collection and token issue.

    The signed JWT string is represented by the token's content (issuer, audience,
    claims, expiry); signing itself is not modelled. The configuration and the
    clock are parameters. */
module AuthService {
  import opened Wrappers
  import opened Exceptions
  import opened Bson
  import opened Coercion
  import opened DocumentMapping
  import opened MongoResults
  import opened RequestParams
  import opened QueryEngine
  import FlatJson

  const UsersCollection: string := "users"

  /** `Auth_Model` with both members present (the controller rejects nulls first). */
  datatype Credentials = Credentials(username: string, password: string)

  /** The public properties of `Auth_Model`, in declaration order. */
  const AuthSchema: Schema := [Property("Username", TString), Property("Password", TString)]

  datatype JwtConfig = JwtConfig(key: Option<string>, issuer: Option<string>, audience: Option<string>)

  datatype Claim = Claim(claimType: string, value: string)

  const NameIdentifierClaim: string := "http://schemas.xmlsoap.org/ws/2005/05/identity/claims/nameidentifier"
  const RoleClaim: string := "http://schemas.microsoft.com/ws/2008/06/identity/claims/role"
  const AdminRole: string := "Admin"

  /** Two hours in 100-nanosecond ticks. */
  const TokenLifetimeTicks: int := 2 * 3600 * 10_000_000

  const MissingKeyMessage: string := "JWT Key no está configurada"
  /** The message of the `ArgumentNullException` that `Count()` throws on a null source. */
  const NullSourceMessage: string := "Value cannot be null. (Parameter 'source')"

  datatype Token = Token(issuer: Option<string>, audience: Option<string>, claims: seq<Claim>, expires: int)

  /** `(success, token, user)` */
  datatype LoginOutcome = LoginOutcome(success: bool, token: Option<Token>, user: Option<Credentials>)

  /** The fewest key bytes HS256 signing accepts (256 bits). */
  const MinKeyBytes: nat := 32
  const EmptyKeyMessage: string := "IDX10703: Cannot create a 'SymmetricSecurityKey', key length is zero."
  const ShortKeyMessage: string := "IDX10653: The encryption algorithm 'HS256' requires a key size of at least '256' bits."

  /** The number of bytes `Encoding.UTF8.GetBytes` produces for a string. */
  function Utf8Length(s: string): (n: nat)
    ensures |s| <= n <= 4 * |s|
    ensures (forall i :: 0 <= i < |s| ==> s[i] as int < 0x80) ==> n == |s|
  {
    if |s| == 0 then 0
    else
      var c := s[0] as int;
      (if c < 0x80 then 1 else if c < 0x800 then 2 else if c < 0x1_0000 then 3 else 4) + Utf8Length(s[1..])
  }

  /** A configuration whose key can sign a token. */
  predicate Signs(config: JwtConfig) {
    config.key.Some? && Utf8Length(config.key.value) >= MinKeyBytes
  }

  /** `GenerateJwtToken`: fails without a key (`InvalidOperationException`), with an
      empty key (the key constructor's `ArgumentException`) and with a key under 256
      bits (signing's `ArgumentOutOfRangeException`); otherwise the token names the
      user, grants the Admin role and expires two hours after `now`. */
  function GenerateToken(c: Credentials, config: JwtConfig, now: int): (r: Result<Token, Exception>)
    ensures r.Err? <==> !Signs(config)
    ensures config.key.None? ==> r == Err(Exception(InvalidOperation, MissingKeyMessage))
    ensures config.key == Some("") ==> r.Err? && r.error.kind == Argument
    ensures config.key.Some? && config.key.value != "" && !Signs(config) ==> r.Err? && r.error.kind == ArgumentOutOfRange
    ensures r.Ok? ==>
      && r.value.claims == [Claim(NameIdentifierClaim, c.username), Claim(RoleClaim, AdminRole)]
      && r.value.issuer == config.issuer && r.value.audience == config.audience
      && r.value.expires - now == TokenLifetimeTicks
  {
    if config.key.None? then Err(Exception(InvalidOperation, MissingKeyMessage))
    else if config.key.value == "" then Err(Exception(Argument, EmptyKeyMessage))
    else if Utf8Length(config.key.value) < MinKeyBytes then Err(Exception(ArgumentOutOfRange, ShortKeyMessage))
    else Ok(Token(config.issuer, config.audience,
                  [Claim(NameIdentifierClaim, c.username), Claim(RoleClaim, AdminRole)],
                  now + TokenLifetimeTicks))
  }

  /** For a key written in ASCII, one byte per character: a token is issued exactly
      when the key has at least 32 characters. */
  lemma AsciiKeyNeeds32Chars(c: Credentials, config: JwtConfig, now: int)
    requires config.key.Some? && forall i :: 0 <= i < |config.key.value| ==> config.key.value[i] as int < 0x80
    ensures GenerateToken(c, config, now).Ok? <==> |config.key.value| >= 32
  {
  }

  /** The filter text `LoginAsync` builds, by plain interpolation: nothing in the
      user's input is escaped. For credentials with no quote and no backslash it is
      exactly the escaped filter, so the difference only shows on such input. */
  function LoginFilterText(c: Credentials): (r: string)
    ensures FlatJson.IsPlain(c.username) && FlatJson.IsPlain(c.password) ==> r == EscapedLoginFilterText(c)
  {
    var doc := [("username", c.username), ("password", c.password)];
    var u := FlatJson.RawMember("username", c.username);
    var p := FlatJson.RawMember("password", c.password);
    if FlatJson.IsPlain(c.username) && FlatJson.IsPlain(c.password) then
      FlatJson.PlainMember("username", c.username);
      FlatJson.PlainMember("password", c.password);
      TwoMembers(doc);
      Braces(u, p);
      "{ " + u + ", " + p + " }"
    else
      "{ " + u + ", " + p + " }"
  }

  /** The users query for one filter text, with no sort. */
  function LoginQuery(filterText: string, ctx: Option<RequestContext>, store: Store,
                      parse: string -> Option<Document>): MongoResult<Deferred> {
    Execute(MongoParameters(UsersCollection, Some(filterText), None), ctx, store, parse, AuthSchema)
  }

  /** What the login does once the filter text is fixed: run the query, count the
      mapped users (the count enumerates the mapping, which may throw), and issue a
      token when at least one matched. A failed query leaves `Data` null, and
      counting null throws. */
  function LoginWith(filterText: string, c: Credentials, ctx: Option<RequestContext>, store: Store,
                     parse: string -> Option<Document>, config: JwtConfig, now: int): (r: Result<LoginOutcome, Exception>)
    ensures store.fault.Some? ==> r == Err(Exception(ArgumentNull, NullSourceMessage))
    ensures r.Ok? && r.value.success ==>
      && r.value.token.Some? && r.value.user == Some(Credentials(c.username, ""))
      && r.value.token.value.claims == [Claim(NameIdentifierClaim, c.username), Claim(RoleClaim, AdminRole)]
    ensures r.Ok? && !r.value.success ==> r.value == LoginOutcome(false, None, None)
    ensures store.fault.None? ==>
      var found := LoginQuery(filterText, ctx, store, parse).data.value;
      && (r.Ok? <==> Enumerate(found).Ok? && (|found.docs| == 0 || Signs(config)))
      && (r.Ok? && r.value.success <==> Enumerate(found).Ok? && |found.docs| > 0 && Signs(config))
      && (Enumerate(found).Err? ==> r == Err(Enumerate(found).error))
  {
    var response := LoginQuery(filterText, ctx, store, parse);
    if response.data.None? then Err(Exception(ArgumentNull, NullSourceMessage))
    else
      var users :- Enumerate(response.data.value);
      if |users| == 0 then Ok(LoginOutcome(false, None, None))
      else
        var token :- GenerateToken(c, config, now);
        Ok(LoginOutcome(true, Some(token), Some(Credentials(c.username, ""))))
  }

  /** The ordinary setting of a login: the store answers, the request carries no
      auxiliary filter, every stored user maps, and a signing key is configured. */
  predicate Ready(ctx: Option<RequestContext>, store: Store, config: JwtConfig) {
    && store.fault.None?
    && GetPaginationParameters(ctx).filter == Some("")
    && Signs(config)
    && forall d :: d in Collection(store, UsersCollection) ==> MapDocument(AuthSchema, d).Ok?
  }

  /** A stored user satisfying every equality pair. */
  predicate SomeUserSatisfies(users: seq<Document>, pairs: Document) {
    exists d :: d in users && forall p :: p in pairs ==> EqHolds(p, d)
  }

  /** In the ordinary setting, a login with a non-empty filter text succeeds exactly
      when some stored user satisfies every pair the text parses to; a text that does
      not parse contributes no pair. */
  lemma LoginWithFinds(text: string, c: Credentials, ctx: Option<RequestContext>, store: Store,
                       parse: string -> Option<Document>, config: JwtConfig, now: int)
    requires text != ""
    ensures Ready(ctx, store, config) ==>
      var r := LoginWith(text, c, ctx, store, parse, config, now);
      && r.Ok?
      && (r.value.success <==> SomeUserSatisfies(Collection(store, UsersCollection), Fragment(Some(text), parse)))
  {
    if Ready(ctx, store, config) {
      var users := Collection(store, UsersCollection);
      var pairs := Fragment(Some(text), parse);
      var found := LoginQuery(text, ctx, store, parse).data.value;
      assert Fragment(Some(""), parse) == [];
      assert forall d :: d in found.docs <==> d in users && forall p :: p in pairs ==> EqHolds(p, d);
      MappedWhenAllMap(found.docs, users);
      if SomeUserSatisfies(users, pairs) {
        var d :| d in users && forall p :: p in pairs ==> EqHolds(p, d);
        assert d in found.docs;
      }
      if |found.docs| > 0 {
        assert found.docs[0] in found.docs;
      }
    }
  }

  lemma LoginTextNonEmpty(c: Credentials)
    ensures LoginFilterText(c) != ""
  {
    assert LoginFilterText(c)[0] == '{';
  }

  /** `LoginAsync` as written: the credentials are checked only through what the
      interpolated text parses to. When it parses, login succeeds iff some user
      satisfies every parsed pair (for ordinary credentials, iff a user has both);
      when it does not parse, iff the users collection is non-empty. */
  function LoginAsync(c: Credentials, ctx: Option<RequestContext>, store: Store,
                      parse: string -> Option<Document>, config: JwtConfig, now: int): (r: Result<LoginOutcome, Exception>)
    ensures store.fault.Some? ==> r == Err(Exception(ArgumentNull, NullSourceMessage))
    ensures r.Ok? && r.value.success ==> r.value.user == Some(Credentials(c.username, ""))
    ensures Ready(ctx, store, config) && parse(LoginFilterText(c)).Some? ==>
      && r.Ok?
      && (r.value.success <==> SomeUserSatisfies(Collection(store, UsersCollection), parse(LoginFilterText(c)).value))
    ensures Ready(ctx, store, config) && parse(LoginFilterText(c)).None? ==>
      && r.Ok?
      && (r.value.success <==> |Collection(store, UsersCollection)| > 0)
  {
    LoginTextNonEmpty(c);
    LoginWithFinds(LoginFilterText(c), c, ctx, store, parse, config, now);
    assert parse(LoginFilterText(c)).None? ==> Fragment(Some(LoginFilterText(c)), parse) == [];
    assert |Collection(store, UsersCollection)| > 0 ==> Collection(store, UsersCollection)[0] in Collection(store, UsersCollection);
    LoginWith(LoginFilterText(c), c, ctx, store, parse, config, now)
  }

  /** The filter text with the user's input escaped. */
  function EscapedLoginFilterText(c: Credentials): string {
    FlatJson.Write([("username", c.username), ("password", c.password)])
  }

  /** The escaped filter text reads back as exactly the two members, whatever the
      input. */
  lemma EscapedFilterParses(c: Credentials)
    ensures FlatJson.Parse(EscapedLoginFilterText(c))
         == Some([("username", BString(c.username)), ("password", BString(c.password))])
  {
    FlatJson.RoundTrip([("username", c.username), ("password", c.password)]);
    assert FlatJson.AsBson([("username", c.username), ("password", c.password)])
        == [("username", BString(c.username)), ("password", BString(c.password))];
  }

  /** `LoginAsync` with the filter values escaped. */
  function LoginAsyncEscaped(c: Credentials, ctx: Option<RequestContext>, store: Store,
                             parse: string -> Option<Document>, config: JwtConfig, now: int): (r: Result<LoginOutcome, Exception>)
    ensures r == LoginWith(EscapedLoginFilterText(c), c, ctx, store, parse, config, now)
  {
    LoginWith(EscapedLoginFilterText(c), c, ctx, store, parse, config, now)
  }

  /** A stored user with exactly these credentials. */
  predicate HasUser(users: seq<Document>, c: Credentials) {
    exists d :: d in users
      && EqHolds(("username", BString(c.username)), d)
      && EqHolds(("password", BString(c.password)), d)
  }

  lemma TwoMembers(doc: seq<(string, string)>)
    requires |doc| == 2
    ensures FlatJson.Members(doc)
         == FlatJson.WriteMember(doc[0].0, doc[0].1) + ", " + FlatJson.WriteMember(doc[1].0, doc[1].1)
  {
    assert FlatJson.Members(doc[1..]) == FlatJson.WriteMember(doc[1].0, doc[1].1);
  }

  lemma Braces(u: string, p: string)
    ensures "{ " + (u + ", " + p) + " }" == "{ " + u + ", " + p + " }"
  {
  }

  /** A users query whose filter text parses to a username pair and a password
      pair finds exactly the stored users with both. */
  lemma CredentialQueryFinds(text: string, c: Credentials, ctx: Option<RequestContext>, store: Store,
                             parse: string -> Option<Document>)
    requires text != ""
    requires parse(text) == Some([("username", BString(c.username)), ("password", BString(c.password))])
    requires GetPaginationParameters(ctx).filter == Some("")
    requires store.fault.None?
    ensures forall d ::
      d in LoginQuery(text, ctx, store, parse).data.value.docs
      <==> (d in Collection(store, UsersCollection)
        && EqHolds(("username", BString(c.username)), d)
        && EqHolds(("password", BString(c.password)), d))
  {
    var pairs := [("username", BString(c.username)), ("password", BString(c.password))];
    assert Fragment(Some(text), parse) == pairs;
    assert forall p :: p in pairs <==> p == pairs[0] || p == pairs[1];
  }

  /** The corrected query finds exactly the stored users with both credentials. */
  lemma EscapedQueryFinds(c: Credentials, ctx: Option<RequestContext>, store: Store,
                          parse: string -> Option<Document>)
    requires parse(EscapedLoginFilterText(c)) == FlatJson.Parse(EscapedLoginFilterText(c))
    requires GetPaginationParameters(ctx).filter == Some("")
    requires store.fault.None?
    ensures forall d ::
      d in LoginQuery(EscapedLoginFilterText(c), ctx, store, parse).data.value.docs
      <==> (d in Collection(store, UsersCollection)
        && EqHolds(("username", BString(c.username)), d)
        && EqHolds(("password", BString(c.password)), d))
  {
    var text := EscapedLoginFilterText(c);
    EscapedFilterParses(c);
    assert text != "" by {
      assert text[0] == '{';
    }
    CredentialQueryFinds(text, c, ctx, store, parse);
  }

  /** The corrected login succeeds exactly when a stored user has both the given
      username and the given password (no pagination filter, a reachable store,
      users that map, and a configured key). */
  lemma EscapedLoginChecksPassword(c: Credentials, ctx: Option<RequestContext>, store: Store,
                                   parse: string -> Option<Document>, config: JwtConfig, now: int)
    requires parse(EscapedLoginFilterText(c)) == FlatJson.Parse(EscapedLoginFilterText(c))
    requires GetPaginationParameters(ctx).filter == Some("")
    requires store.fault.None? && Signs(config)
    requires forall d :: d in Collection(store, UsersCollection) ==> MapDocument(AuthSchema, d).Ok?
    ensures LoginAsyncEscaped(c, ctx, store, parse, config, now).Ok?
    ensures LoginAsyncEscaped(c, ctx, store, parse, config, now).value.success
        <==> HasUser(Collection(store, UsersCollection), c)
  {
    EscapedLoginFound(c, ctx, store, parse);
  }

  lemma EscapedLoginFound(c: Credentials, ctx: Option<RequestContext>, store: Store,
                          parse: string -> Option<Document>)
    requires parse(EscapedLoginFilterText(c)) == FlatJson.Parse(EscapedLoginFilterText(c))
    requires GetPaginationParameters(ctx).filter == Some("")
    requires store.fault.None?
    requires forall d :: d in Collection(store, UsersCollection) ==> MapDocument(AuthSchema, d).Ok?
    ensures Enumerate(LoginQuery(EscapedLoginFilterText(c), ctx, store, parse).data.value).Ok?
    ensures |LoginQuery(EscapedLoginFilterText(c), ctx, store, parse).data.value.docs| > 0
        <==> HasUser(Collection(store, UsersCollection), c)
  {
    var found := LoginQuery(EscapedLoginFilterText(c), ctx, store, parse).data.value;
    EscapedQueryFinds(c, ctx, store, parse);
    MappedWhenAllMap(found.docs, Collection(store, UsersCollection));
    NonEmptyIffSome(found.docs, Collection(store, UsersCollection), c);
  }

  /** Documents drawn from a collection whose every document maps, map. */
  lemma MappedWhenAllMap(docs: seq<Document>, users: seq<Document>)
    requires forall d :: d in docs ==> d in users
    requires forall d :: d in users ==> MapDocument(AuthSchema, d).Ok?
    ensures MapDocuments(AuthSchema, docs).Ok?
  {
    assert forall i :: 0 <= i < |docs| ==> docs[i] in docs;
  }

  lemma NonEmptyIffSome(docs: seq<Document>, users: seq<Document>, c: Credentials)
    requires forall d :: d in docs <==>
      (d in users
        && EqHolds(("username", BString(c.username)), d)
        && EqHolds(("password", BString(c.password)), d))
    ensures |docs| > 0 <==> HasUser(users, c)
  {
    if HasUser(users, c) {
      var d :| d in users
        && EqHolds(("username", BString(c.username)), d)
        && EqHolds(("password", BString(c.password)), d);
      assert d in docs;
    }
    if |docs| > 0 {
      assert docs[0] in docs;
    }
  }

  /** For credentials without quotes or backslashes the login as written is sound:
      it succeeds exactly when a stored user has both the username and the password. */
  lemma PlainLoginChecksPassword(c: Credentials, ctx: Option<RequestContext>, store: Store,
                                 config: JwtConfig, now: int)
    requires FlatJson.IsPlain(c.username) && FlatJson.IsPlain(c.password)
    requires Ready(ctx, store, config)
    ensures LoginAsync(c, ctx, store, FlatJson.Parse, config, now).Ok?
    ensures LoginAsync(c, ctx, store, FlatJson.Parse, config, now).value.success
        <==> HasUser(Collection(store, UsersCollection), c)
  {
    EscapedFilterParses(c);
    var pairs := [("username", BString(c.username)), ("password", BString(c.password))];
    assert FlatJson.Parse(LoginFilterText(c)) == Some(pairs);
    assert forall p :: p in pairs <==> p == pairs[0] || p == pairs[1];
    assert SomeUserSatisfies(Collection(store, UsersCollection), pairs) <==> HasUser(Collection(store, UsersCollection), c);
  }

  /** A username of a single quote breaks the interpolated filter text: it no
      longer parses, whatever the password. */
  lemma QuoteBreaksFilter(password: string)
    ensures FlatJson.Parse(LoginFilterText(Credentials("\"", password))) == None
  {
    var tail := QuoteTail(password);
    var member := FlatJson.WriteMember("username", "");
    FlatJson.PlainMember("username", "");
    QuoteSplit(password);
    FlatJson.OpenObject(member + tail);
    FlatJson.MemberRoundTrip("username", "", tail);
    FlatJson.SkipWsNonBlank(tail);
  }

  /** What follows the empty username value when the username is a single quote. */
  function QuoteTail(password: string): string {
    "\"" + ", " + FlatJson.RawMember("password", password) + " }"
  }

  lemma QuoteSplit(password: string)
    ensures LoginFilterText(Credentials("\"", password))
         == "{ " + (FlatJson.RawMember("username", "") + QuoteTail(password))
  {
    var p := FlatJson.RawMember("password", password);
    assert FlatJson.RawMember("username", "\"") == FlatJson.RawMember("username", "") + "\"";
  }

  /** As written, an unparsable filter text is dropped and the query matches every
      user: the login succeeds without checking the password. */
  lemma UnparsableFilterLogsIn(c: Credentials, ctx: Option<RequestContext>, store: Store,
                               parse: string -> Option<Document>, config: JwtConfig, now: int)
    requires parse(LoginFilterText(c)).None?
    requires GetPaginationParameters(ctx).filter == Some("")
    requires store.fault.None? && Signs(config)
    requires |Collection(store, UsersCollection)| > 0
    requires forall d :: d in Collection(store, UsersCollection) ==> MapDocument(AuthSchema, d).Ok?
    ensures LoginAsync(c, ctx, store, parse, config, now).Ok?
    ensures LoginAsync(c, ctx, store, parse, config, now).value.success
  {
    UnparsableFilterMatchesAll(MongoParameters(UsersCollection, Some(LoginFilterText(c)), None), ctx, store, parse, AuthSchema);
  }

  /** The concrete attack at the service: username `"`, any password, at least one
      stored user. Through the controller the password must also be non-blank. */
  lemma QuoteUsernameLogsIn(password: string, ctx: Option<RequestContext>, store: Store,
                            config: JwtConfig, now: int)
    requires GetPaginationParameters(ctx).filter == Some("")
    requires store.fault.None? && Signs(config)
    requires |Collection(store, UsersCollection)| > 0
    requires forall d :: d in Collection(store, UsersCollection) ==> MapDocument(AuthSchema, d).Ok?
    ensures LoginAsync(Credentials("\"", password), ctx, store, FlatJson.Parse, config, now).value.success
  {
    QuoteBreaksFilter(password);
    UnparsableFilterLogsIn(Credentials("\"", password), ctx, store, FlatJson.Parse, config, now);
  }
}
