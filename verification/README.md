# Million — a Dafny model of the request pipeline, query engine and client

Million is a small catalogue application with two parts. The ASP.NET backend
(`MillionApi`) serves MongoDB collections through one generic query routine.
The React frontend (`MillionFrontend`) renders forms and lists. This project
models the core of both parts as pure Dafny functions and proves properties of
them.

Backend, in the order a request meets it (the registration order of
`Program.cs`):

- `ExceptionTranslation`: the outermost stage. It maps an exception thrown
  further in to a status and builds the JSON error body.
- `RateLimit`: the per-client token bucket in `ExceptionMiddleware.cs`. It has
  capacity 100 and refills 10 tokens per second. Time is measured in integer
  ticks, and fractional refills are truncated as the source's `(int)` cast does.
- `PaginationExtraction`: on POST/PUT, copies a string `filter` member of a
  JSON body into the query string and rewinds the body.
- `AuthGate`: the public-path list, the anonymous-endpoint branch with its
  token-fault messages, and the shape check of the `Authorization` header.
- `RequestParams`: reads query and route parameters, including .NET `Int32`
  parsing with overflow and `Nullable<int>`.
- `QueryEngine`, `Bson`, `Coercion`, `DocumentMapping`: `BuildFilter`, the
  equality/AND filter semantics, `Find`, the BSON-to-CLR value conversion, and
  the reflection-based document-to-record mapping.
  - The mapping is LAZY: `EjecutarConsultaAsync` returns a deferred `Select`,
    so a conversion fault surfaces only when the result is enumerated.
  - `MongoResults` is the result envelope.
- `AuthService`, `AuthController`, `ObjectService`, `ObjectController`,
  `BaseApi`: the login flow with its JWT claims, the object listing, and the
  response helpers.
- `Pipeline`: composes the middleware order of `Program.cs`.

Frontend:

- `FormValidation`: `DynamicForm`'s per-field validation, with the
  required/email/max/min precedence, and the submit and blur handlers.
- `ApiClient`: `normalizeResponse` and `normalizeError` under JavaScript's
  `??`, `||` and `?.` semantics. It also models axios' rejection of non-2xx
  statuses, so that every server response shape can be followed end to end.
- `Notifications`: the de-duplicating add and the remove-by-id of
  `NotificationContext`.

Some parts of the original code are parameters of the model:

- JSON and BSON parsing (`parse`) and URL encoding (`encode`).
- The store contents and store fault (`Store`).
- The clock (`now`, in ticks).

The one exception is `FlatJson`: a strict reader and writer for flat
string-valued JSON objects. It is used to reason about the login filter that
`AuthService` builds by string interpolation. It is not all of
`BsonDocument.Parse`: it agrees with it on the texts the login analysis relies
on, and differs elsewhere (see "Left out").

`Bson.EqHolds`, the meaning of an equality filter, is plain equality between
the field's model value and the parsed value. The server reads `{name: value}`
more widely, and the application's own search relies on that. The card list
sends a filter such as `{"name": {"$regex": "...", "$options": "i"}}`
(`MillionFrontend/src/app/shared/components/DynamicCardList.tsx`, lines 116-125).
The server evaluates such an operator document as a case-insensitive regular
expression, while the model compares it as a value. "Left out" lists every
difference.

Where the code and the design description disagree, the model follows the
code:

- A filter string that does not parse is logged and dropped by `BuildFilter`.
  The query therefore matches every document; it does not fail.
  `QueryEngine.UnparsableFilterMatchesAll` states this.
- A failed query's envelope has `Data == null`, not an empty sequence.
  `MongoResults.Failure` states this. `AuthService.LoginAsync` then throws
  `ArgumentNullException` from `Count()`.
- The token-bucket table is updated by a plain read-modify-write. The model
  is sequential, one request per step.
- The public-path check is a case-insensitive `StartsWith`. So `/swaggerx`
  and `/healthz` are public too; `AuthGate.PublicPrefixesAreLoose` shows this.
- `ObjectController.Get` wraps `GetAsync().Data` in `OkResponse`. A failed
  query is therefore reported as HTTP 200 with `success: true` and no data.
  `ObjectController.FailedQueryReportedAsSuccess` states this.

## Model

| member | source | states |
|---|---|---|
| ExceptionTranslation.StatusFor | MillionApi/Security/ExceptionMiddleware.cs:47-53 | 404 exactly for `KeyNotFoundException`, 400 exactly for `ArgumentException` and its subclasses, 500 for everything else |
| ExceptionTranslation.HandleException | MillionApi/Security/ExceptionMiddleware.cs:45-64 | the response is JSON, its status is one of 404/400/500 as classified, and its body carries the exception's message with that same status |
| ExceptionTranslation.Invoke | MillionApi/Security/ExceptionMiddleware.cs:28-38 | a downstream response passes through unchanged; a downstream exception becomes the translated error response |
| RateLimit.RefillAmount | MillionApi/Security/ExceptionMiddleware.cs:98-99 | the refill is the largest whole number of tokens earned in the elapsed time at 10 per second; it is never positive for a clock that went backwards |
| RateLimit.Key | MillionApi/Security/ExceptionMiddleware.cs:94 | a client is keyed by its remote address, and all clients without one share the global key |
| RateLimit.Seed | MillionApi/Security/ExceptionMiddleware.cs:97 | an unseen client starts with a full bucket stamped now; a known client keeps its bucket |
| RateLimit.Refill | MillionApi/Security/ExceptionMiddleware.cs:98-102 | tokens never exceed capacity; the refill timestamp moves to now only when at least one token was earned, otherwise the bucket is untouched |
| RateLimit.Step | MillionApi/Security/ExceptionMiddleware.cs:92-115 | admits iff the refilled bucket has a token and then takes exactly one; only the caller's key changes; a table of valid buckets stays valid |
| RateLimit.RejectResponse | MillionApi/Security/ExceptionMiddleware.cs:110-115 | a rejected request gets 429 with the plain-text rejection message |
| RateLimit.BurstFromSettledBucket | MillionApi/Security/ExceptionMiddleware.cs:97-115 | n requests at one instant against a settled bucket with t tokens: exactly the first t are admitted, and no other client's bucket changes |
| RateLimit.BurstAdmitsRefilledTokens | MillionApi/Security/ExceptionMiddleware.cs:97-115 | n simultaneous requests are admitted exactly as far as the tokens of the seeded and refilled bucket reach |
| RateLimit.FreshClientBurst | MillionApi/Security/ExceptionMiddleware.cs:76-115 | a new client can make exactly 100 requests at one instant before it is refused, and other clients are unaffected |
| AuthGate.HeaderShape | MillionApi/Security/JwtValidationMiddleware.cs:73-93 | a header passes iff it starts with `Bearer ` followed by a non-blank token; a blank header or blank token gets the "not provided" message, a header without the prefix the "wrong format" message |
| AuthGate.TokenFaultMessage | MillionApi/Security/JwtValidationMiddleware.cs:49-68 | exactly the security-token exceptions are caught, each mapped to its own Spanish message; every other exception propagates |
| AuthGate.Reject | MillionApi/Security/JwtValidationMiddleware.cs:100-114 | a rejection is 401 with `{success:false, message, statusCode:401}` |
| AuthGate.Invoke | MillionApi/Security/JwtValidationMiddleware.cs:19-98 | public paths pass untouched; anonymous endpoints run with token faults turned into 401s; other endpoints need a well-shaped header before the next stage runs |
| AuthGate.IsPublicPath | MillionApi/Security/JwtValidationMiddleware.cs:22-38 | a path is public iff it is present and, lower-cased, starts with `/swagger`, `/favicon.ico` or `/health`: the longer listed paths add nothing |
| AuthGate.PublicPrefixesAreLoose | MillionApi/Security/JwtValidationMiddleware.cs:22-40 | the public-path check is a case-insensitive prefix test, so `/swaggerx`, `/healthz` and `/HEALTH/live` are public and the object listing is not |
| PaginationExtraction.ReadRest | MillionApi/Security/PaginationMiddleware.cs:37-38 | reading a rewound body yields the whole content |
| PaginationExtraction.ExtractFilter | MillionApi/Security/PaginationMiddleware.cs:40-52 | a filter is found iff the body parses as a JSON object whose last `filter` member is a string, and it is that string |
| PaginationExtraction.MergeQuery | MillionApi/Security/PaginationMiddleware.cs:57-70 | the encoded filter is appended with `&`, or starts a new query with `?`; the existing query is always a prefix of the result |
| PaginationExtraction.Invoke | MillionApi/Security/PaginationMiddleware.cs:17-81 | only POST and PUT are touched; the query string only ever grows, by the extracted filter; the body is rewound for the endpoint |
| PaginationExtraction.NonStringFilterIgnored | MillionApi/Security/PaginationMiddleware.cs:48-52 | a body whose `filter` is not a string leaves the query unchanged but still rewinds the body |
| Json.LastMemberFound | MillionApi/Security/PaginationMiddleware.cs:48 | a member lookup finds nothing iff no member has the name, and otherwise returns the last member with that name |
| RequestParams.ParseMagnitude | MillionApi/Services/RequestService.cs:72 | digit strings parse iff non-empty, all digits, and within Int32 range with the sign applied; the value is the signed decimal value |
| RequestParams.ParseInt32 | MillionApi/Services/RequestService.cs:72 | a leading `-` negates and a leading `+` is dropped before the digits are read; a successful parse always lies in the Int32 range |
| RequestParams.ParseRendered | MillionApi/Services/RequestService.cs:72 | every Int32 rendered in decimal parses back to itself |
| RequestParams.ChangeTypeInt32 | MillionApi/Services/RequestService.cs:72 | null cannot become an `int` (cast error); a string converts iff it parses as an Int32, to that value |
| RequestParams.ChangeTypeNullable | MillionApi/Services/RequestService.cs:61-73 | a missing value is null for `int?` and a cast error for `int`; a present value converts as `int` does; strings pass through |
| RequestParams.GetParameter | MillionApi/Services/RequestService.cs:30-58 | without a context the default is returned; a usable query value wins over a usable route value, and the default is the fallback |
| RequestParams.GetPaginationParameters | MillionApi/Services/RequestService.cs:18-28 | the filter is always present: the query's `filter` when non-empty, otherwise a non-null route value `filter`, otherwise the empty string |
| MongoResults.Default | MillionApi/Models/MongoResult.cs:13-17 | a fresh envelope is unsuccessful, with empty message and no data or count |
| MongoResults.Failure | MillionApi/Models/MongoResult.cs:19-26 | a failure keeps the exception's message and leaves data and count null |
| Bson.Find | MillionApi/Services/DataBaseService.cs:37-39 | the result is the matching documents in collection order: a subsequence of the collection holding each matching document exactly as often as the collection does, and nothing else |
| Bson.FindDistributes | MillionApi/Services/DataBaseService.cs:37-39 | finding in two concatenated collections is finding in each and concatenating |
| Bson.FindEmptyIsIdentity | MillionApi/Services/DataBaseService.cs:104-105 | the empty filter returns the whole collection in order |
| QueryEngine.Fragment | MillionApi/Services/DataBaseService.cs:68-83 | an absent, empty or unparsable filter contributes no conditions; a parsed one contributes its members in order |
| QueryEngine.Combine | MillionApi/Services/DataBaseService.cs:104-109 | no conditions give the empty filter, one gives that equality, several give their AND; a document matches iff it satisfies every condition |
| QueryEngine.BuildFilter | MillionApi/Services/DataBaseService.cs:63-110 | a document matches iff it satisfies every member of both parsed filters |
| QueryEngine.UnparsableFilterDropped | MillionApi/Services/DataBaseService.cs:79-82 | an unparsable first filter behaves as if no filter was given |
| QueryEngine.Enumerate | MillionApi/Services/DataBaseService.cs:112-130 | enumerating a deferred mapping yields one record per document, and an empty result never faults |
| QueryEngine.Execute | MillionApi/Services/DataBaseService.cs:27-58 | success iff the store does not fault; a fault gives the failure envelope; on success the data are the documents matching both filters, in collection order and with their multiplicity, and the count is their number |
| QueryEngine.UnparsableFilterMatchesAll | MillionApi/Services/DataBaseService.cs:70-105 | when neither filter contributes a condition (each absent, empty or unparsable), the query succeeds and returns the whole collection |
| Coercion.Coerce | MillionApi/Services/DataBaseService.cs:132-154 | null maps to null and an ObjectId to its hex string; `object` and unknown targets get the text form; for the seven named targets a value converts iff it has the target's BSON type (a string that parses as a GUID for `Guid`), and the result fits the target; a wrong BSON type is a cast error (for `DateTime`, not-supported), an unparsable GUID string a format error |
| Coercion.ParseGuid | MillionApi/Services/DataBaseService.cs:151 | a parsed GUID is always 32 lower-case hexadecimal digits |
| Coercion.GuidRoundTrip | MillionApi/Services/DataBaseService.cs:151 | every canonical hyphenated GUID string parses back to its digits |
| Coercion.GuidFormatsAgree | MillionApi/Services/DataBaseService.cs:151 | the bare-digit, braced and parenthesised forms of a GUID parse to the same value as the hyphenated form |
| Coercion.Assign | MillionApi/Services/DataBaseService.cs:125 | setting a property succeeds iff the value fits its type; null sets a value-type property to its default |
| Coercion.CoerceRoundTrip | MillionApi/Services/DataBaseService.cs:143-153 | every CLR value stored in the form the reader expects (a GUID as its hyphenated string) converts back to the same value |
| DocumentMapping.MapProperty | MillionApi/Services/DataBaseService.cs:119-127 | a missing or null field leaves the property at its default; a present field is converted, and the property is set to the converted value iff it fits the property's type, an `ArgumentException` otherwise; a failed conversion is the mapping's error |
| DocumentMapping.MapDocument | MillionApi/Services/DataBaseService.cs:116-129 | a document maps iff every schema property maps, giving one value per property |
| DocumentMapping.MapDocuments | MillionApi/Services/DataBaseService.cs:112-130 | a list maps iff every document maps, giving one record per document in order |
| DocumentMapping.ExtraKeysIgnored | MillionApi/Services/DataBaseService.cs:119-121 | a field the schema does not name does not affect the mapped record |
| DocumentMapping.MappingRoundTrip | MillionApi/Services/DataBaseService.cs:114-129 | a record stored under its schema's names maps back to the same record |
| DocumentMapping.StoredPropertyReadBack | MillionApi/Services/DataBaseService.cs:121-125 | each stored property reads back as its own value |
| FlatJson.RoundTrip | MillionApi/Services/DataBaseService.cs:72 | every flat string-valued object written with escaping parses back to the same members |
| FlatJson.LexEscaped | MillionApi/Services/DataBaseService.cs:72 | an escaped string literal lexes back to the original string, with the rest of the input untouched |
| AuthService.GenerateToken | MillionApi/Services/AuthService.cs:37-58 | a token is issued iff a key is configured whose UTF-8 encoding has at least 32 bytes; a missing key is `InvalidOperationException`, an empty key `ArgumentException`, a short key `ArgumentOutOfRangeException`; a token names the user, carries the Admin role, has the configured issuer and audience, and expires two hours after `now` |
| AuthService.AsciiKeyNeeds32Chars | MillionApi/Services/AuthService.cs:37-39 | for a key written in ASCII, a token is issued iff the key has at least 32 characters |
| AuthService.LoginWith | MillionApi/Services/AuthService.cs:25-34 | a store fault throws `ArgumentNullException`; success iff the query finds a user, with a token and the user's password blanked; failure carries nothing |
| AuthService.LoginFilterText | MillionApi/Services/AuthService.cs:23 | for credentials with no quote and no backslash the interpolated filter is exactly the escaped one |
| AuthService.LoginAsync | MillionApi/Services/AuthService.cs:21-35 | a store fault throws `ArgumentNullException`; a success returns the username with the password blanked; on a ready store, when the interpolated filter parses, login succeeds iff some user satisfies every parsed member, and when it does not parse, iff the users collection is non-empty |
| AuthService.LoginWithFinds | MillionApi/Services/AuthService.cs:23-34 | on a ready store the login for a filter text succeeds iff some user satisfies every condition the text contributes |
| AuthService.PlainLoginChecksPassword | MillionApi/Services/AuthService.cs:21-35 | for credentials with no quote and no backslash the login as written succeeds iff a stored user has that username and password |
| AuthService.EscapedFilterParses | MillionApi/Services/AuthService.cs:23 | the escaped login filter always parses, to exactly the username and password members |
| AuthService.CredentialQueryFinds | MillionApi/Services/AuthService.cs:23-25 | with a filter that parses to the credentials, the query returns exactly the users with that username and password |
| AuthService.EscapedLoginChecksPassword | MillionApi/Services/AuthService.cs:21-35 | with the escaped filter, login succeeds iff a stored user has exactly that username and password |
| AuthService.QuoteBreaksFilter | MillionApi/Services/AuthService.cs:23 | the filter interpolated from the username `"` does not parse |
| AuthService.UnparsableFilterLogsIn | MillionApi/Services/AuthService.cs:23-34 | when the interpolated filter does not parse and the collection is non-empty and mappable, login succeeds whatever the password |
| AuthService.QuoteUsernameLogsIn | MillionApi/Services/AuthService.cs:23-34 | with the username `"`, any password logs in at the service against a non-empty users collection |
| AuthController.QuoteUsernameRequestLogsIn | MillionApi/Controllers/AuthController.cs:21-31 | the same attack passes validation with any non-blank password, and the login request answers 200 |
| BaseApi.OkResponse | MillionApi/Controllers/BaseApiController.cs:10-13 | 200 with success, carrying the given data and message |
| BaseApi.OkMessage | MillionApi/Controllers/BaseApiController.cs:15-18 | 200 with success, the message and no data |
| BaseApi.NotFoundResponse | MillionApi/Controllers/BaseApiController.cs:20-23 | 404, unsuccessful, the message and no data |
| BaseApi.BadRequestResponse | MillionApi/Controllers/BaseApiController.cs:25-28 | 400, unsuccessful, the message and no data |
| BaseApi.UnauthorizedResponse | MillionApi/Controllers/BaseApiController.cs:29-32 | 401, unsuccessful, the message and no data |
| BaseApi.Render | MillionApi/Controllers/BaseApiController.cs:12 | the action result is written with its own status as an `ApiResponse` envelope |
| AuthController.Login | MillionApi/Controllers/AuthController.cs:21-31 | the action method alone: null credentials give 401; otherwise 200 iff the service logs in, with the token and the blanked user, and 401 with the fixed message if not; a service fault propagates |
| AuthController.LoginRequest | MillionApi/Controllers/AuthController.cs:8-24 | a request runs the action iff both credentials are non-null and not blank (`[Required]` in `Auth_Model`), and otherwise is a validation problem; when the action runs, a 401 always means the service refused the credentials, and it faults iff the service does |
| AuthController.EmptyCredentialsRejected | MillionApi/Controllers/AuthController.cs:8-24 | empty or white-space-only credentials are stopped by validation before the action |
| AuthController.EmptyCredentialsReachService | MillionApi/Controllers/AuthController.cs:23 | the action method's own check lets empty strings through to the service, so only the framework's validation stops them |
| AuthController.LoginReturnsBlankedUser | MillionApi/Controllers/AuthController.cs:26-30 | a successful login never returns the password |
| ObjectService.GetAsync | MillionApi/Services/ObjectService.cs:13-18 | no data iff the store faults; otherwise a deferred mapping, under the object schema, of the `objects` documents matching the request filter, in collection order and with their multiplicity |
| ObjectService.UnfilteredListsAll | MillionApi/Services/ObjectService.cs:15 | without a request filter, the whole `objects` collection is listed |
| ObjectService.ObjectIdReadsAsString | MillionApi/Services/DataBaseService.cs:138-141 | a stored ObjectId `_id` reads as its hex string |
| ObjectService.DoublePriceFails | MillionApi/Services/DataBaseService.cs:146 | a price stored as a double cannot be mapped to the `int` property, so the whole object fails to map |
| ObjectController.Get | MillionApi/Controllers/ObjectController.cs:20-35 | a service value gives 200 with that data; a thrown exception gives 400 with its message |
| ObjectController.Handle | MillionApi/Controllers/ObjectController.cs:25-27 | the endpoint always answers 200 with success, carrying the service's data |
| ObjectController.FailedQueryReportedAsSuccess | MillionApi/Services/ObjectService.cs:17 | a store fault is reported as a successful response without data |
| ObjectController.Render | MillionApi/Controllers/ObjectController.cs:27 | serialising the response enumerates the deferred data; it succeeds iff every document maps, and otherwise the conversion fault escapes |
| ObjectController.UnmappableObjectEscapes | MillionApi/Services/DataBaseService.cs:116-129 | an unmappable stored object makes the listing fault during serialisation, after the controller's catch |
| Pipeline.Handle | MillionApi/Program.cs:120-123 | the translator wraps everything; inside it the bucket is charged for every request and refused requests get 429 without going further; admitted ones are rewritten by the pagination stage and then judged by the token gate, which calls the endpoint with the rewritten request |
| Pipeline.ExhaustedClientGets429 | MillionApi/Security/ExceptionMiddleware.cs:104-115 | a client whose refilled bucket is empty gets 429 and the endpoint is not called |
| Pipeline.ListingNeedsHeader | MillionApi/Controllers/ObjectController.cs:9 | the object listing without an `Authorization` header gets the 401 "not provided" response and is not called |
| Pipeline.LoginIgnoresHeader | MillionApi/Controllers/AuthController.cs:19-20 | an admitted login request reaches the endpoint whatever its headers |
| Pipeline.EndpointFaultTranslated | MillionApi/Program.cs:120 | a non-token exception from an endpoint becomes the translator's error response |
| Pipeline.AnonymousTokenFaultIs401 | MillionApi/Security/JwtValidationMiddleware.cs:43-69 | a token fault on an anonymous endpoint is answered 401 by the gate, not 500 by the translator |
| Notifications.Add | MillionFrontend/src/app/shared/contexts/NotificationContext.tsx:29-37 | a message already shown leaves the list unchanged; otherwise the notification is appended |
| Notifications.AddIdempotent | MillionFrontend/src/app/shared/contexts/NotificationContext.tsx:31-33 | adding the same message twice is the same as adding it once |
| Notifications.AddsKeepDistinct | MillionFrontend/src/app/shared/contexts/NotificationContext.tsx:29-37 | any sequence of adds shows each message at most once |
| Notifications.Remove | MillionFrontend/src/app/shared/contexts/NotificationContext.tsx:39-41 | no survivor has the id, and an entry survives iff it was present with a different id; the order of the survivors is `Notifications.RemoveDistributes` |
| Notifications.RemoveKeepsDistinct | MillionFrontend/src/app/shared/contexts/NotificationContext.tsx:39-41 | removal keeps messages distinct |
| Notifications.RemoveDistributes | MillionFrontend/src/app/shared/contexts/NotificationContext.tsx:40 | removing from a concatenation is removing from each part |
| Notifications.RemoveAbsent | MillionFrontend/src/app/shared/contexts/NotificationContext.tsx:40 | removing an id nobody has changes nothing |
| FormValidation.IsEmail | MillionFrontend/src/app/shared/components/DynamicForm.tsx:23 | the scan accepts exactly the strings the email pattern matches: one `@` after a non-empty local part, then a dot with characters on both sides, and no whitespace |
| FormValidation.FieldError | MillionFrontend/src/app/shared/components/DynamicForm.tsx:18-33 | no error iff no check fails; a falsy value yields only the required message; otherwise the later checks override earlier ones: min over max over email |
| FormValidation.Validate | MillionFrontend/src/app/shared/components/DynamicForm.tsx:15-36 | every key of the error map is the name of a field |
| FormValidation.ValidateKeys | MillionFrontend/src/app/shared/components/DynamicForm.tsx:16-34 | a field name has an error iff some field with that name fails on its value |
| FormValidation.ValidateMessage | MillionFrontend/src/app/shared/components/DynamicForm.tsx:17-34 | the error kept for a name is that of the last failing field with the name |
| FormValidation.SubmitsIffNothingFails | MillionFrontend/src/app/shared/components/DynamicForm.tsx:135-143 | the form submits iff no field fails |
| FormValidation.BlurValidatesAll | MillionFrontend/src/app/shared/components/DynamicForm.tsx:129-133 | a blur re-validates the whole form with the blurred value, the same as validating all fields |
| ApiClient.NormalizeResponse | MillionFrontend/src/app/shared/services/apiService.ts:25-49 | paging data is present iff the body has a `listFind` array, which becomes the data, with the body's total, page number and page size; otherwise the data are `body.data`, else the body, else null; the message, success and status are the body's when not nullish and default to "Operación exitosa", true and 200 |
| ApiClient.NormalizeError | MillionFrontend/src/app/shared/services/apiService.ts:51-79 | a nullish rejection throws; otherwise the message is truthy and the status defaults to 500; a text body is the message; an `error` field takes precedence as the message, with null data and success false; an envelope body gives its message or the unknown-error text, its data or null, and its success or false; without a body the message is the error's own when truthy, data is null and success false |
| ApiClient.Call | MillionFrontend/src/app/shared/services/apiService.ts:82-115 | a resolved call is the normalised response; a rejected call is the normalised error, and escapes only when rejected with a nullish value |
| ApiClient.ServerResponsesNeverThrow | MillionFrontend/src/app/shared/services/apiService.ts:82-115 | every response the backend can produce normalises without throwing |
| ApiClient.ServerFaultReachesCaller | MillionFrontend/src/app/shared/services/apiService.ts:57-63 | a translated server exception reaches the caller with its message and status |
| ApiClient.EmptyFaultIsUnknown | MillionFrontend/src/app/shared/services/apiService.ts:64-68 | a server exception with an empty message reaches the caller as the generic unknown-error message |
| ApiClient.RateLimitedCall | MillionFrontend/src/app/shared/services/apiService.ts:58-60 | a refused request reaches the caller as status 429 with the rejection text as message |
| ApiClient.GateRejectionReachesCaller | MillionFrontend/src/app/shared/services/apiService.ts:64-68 | a 401 from the token gate reaches the caller with the gate's message, unsuccessful |
| ApiClient.EnvelopeRoundTrip | MillionFrontend/src/app/shared/services/apiService.ts:43-48 | a 2xx envelope with data comes back as its data, message, success and status |
| ApiClient.NullEnvelopeDataIsEnvelope | MillionFrontend/src/app/shared/services/apiService.ts:44 | an envelope whose data is null comes back with the whole envelope as data |
| Text.Trim | MillionApi/Security/JwtValidationMiddleware.cs:87 | the result is the input with its leading and trailing white space removed: a slice that starts after the leading blanks and leaves only blanks after it; it has no white space at either end, and is empty iff the input was blank |

## Left out

- Concurrency: the bucket table is modelled sequentially, one request per step. The source's unguarded read-modify-write race is not modelled.
- Time: the clock is an integer tick count passed in by the caller. Floating-point `TotalSeconds` is replaced by exact tick arithmetic with the same truncation.
- JWT signing, the cryptographic validation in the authentication handler, and the actual token string are not modelled. A token is its claims and its expiry tick.
- The MongoDB driver is not modelled: connection, wire protocol and the `Sort` of `MongoParameters`. Only the equality/AND filters this code builds are modelled.
- JSON and BSON parsing of request bodies and filter strings are function parameters (`parse`), except for the flat-object parser `FlatJson` used in the login analysis. URL encoding is a parameter (`encode`).
- Culture-sensitive `ToLower` and `StartsWith` are modelled by ASCII case folding.
- Multi-valued query parameters are not modelled: a query maps each name to one string, which stands for `StringValues.ToString()`.
- Of the automatic model validation of `[ApiController]`, only the `[Required]` check on `Auth_Model` is modelled, by `AuthController.LoginRequest`. It turns a null, empty or white-space-only username or password into a 400 validation problem before `Login` runs, so the action's own null check is dead code. The body of the validation problem is not modelled.
- Logging, the "response already started" checks, Swagger, CORS and the rest of `Program.cs` service registration are not modelled.
- The React components' rendering and state hooks are not modelled. Only the pure state transitions are modelled.
- JavaScript numbers are integers here: NaN, -0 and fractions are not modelled. String length counts characters, not UTF-16 code units.
- FormValidation.FieldError: array and `File` values (whose `.length` is an element count) are not modelled. Only strings have a length.
- Notifications: the id is an input instead of `Date.now()`. The auto-dismiss timer is not modelled.
- Coercion.ParseGuid: the "X" format (hexadecimal groups in braces) and `Guid.Parse`'s trimming of surrounding white space are not modelled; such strings are rejected.
- Coercion.CoerceRoundTrip: a `Guid` is stored as its hyphenated string, the form `ConvertBsonValueToType` reads with `AsString`. The driver's default binary encoding of a `Guid` is not modelled; read by this code it would be an `InvalidCastException`.
- Coercion.Coerce: a BSON date outside the range of `DateTime` (an `ArgumentOutOfRangeException` in `ToUniversalTime`) is not modelled; every date converts.
- RateLimit.Refill: the source computes `tokensToAdd` and `tokens + tokensToAdd` in unchecked 32-bit arithmetic. After about 6.8 years without a request (2^31 tokens at 10 per second) the cast goes out of range and a negative token count can be stored. The model uses unbounded integers and does not reproduce this.
- Bson.EqHolds: an equality filter is plain equality of the field's model value with the parsed value. None of the following is modelled:
  - A parsed value that is an operator document (`$regex`, `$gt`, ...) is evaluated by the server as that operator. The model compares it as a value. The regex search the card list sends therefore finds, in the model, only documents whose field holds an equal sub-document, not the matching strings.
  - Documents and arrays are `BOther` values, compared only by their type name.
  - A dotted name (`a.b`) reaches into sub-documents on the server. The model treats it as an ordinary field name.
  - `null` matches a missing field.
  - Numbers compare across BSON numeric types.
  - An array field matches when one element is equal.
- FlatJson.Parse: it rejects the escapes `\n`, `\t`, `\/` and `\uXXXX`, which `BsonDocument.Parse` accepts, and it accepts duplicate member names. It agrees with `BsonDocument.Parse` on the texts `FlatJson.Write` produces and on the login texts reasoned about here.
- RequestParams.ParseInt32: leading or trailing white space is rejected, although `Convert.ChangeType` accepts it.
- AuthService.GenerateToken: states the claims, issuer, audience and expiry, not the signature of the token. The 256-bit minimum key size is the rule of current versions of `Microsoft.IdentityModel.Tokens`; older versions accepted shorter keys.
- ApiClient.Wire: a plain-text response body is delivered as a string; axios' attempt to parse JSON-looking text is not modelled.

## Findings

| source | as written | input that shows it | evidently intended | confidence | as-written member | corrected member |
|---|---|---|---|---|---|---|
| MillionApi/Services/AuthService.cs:23 | the login filter is built by interpolating the raw username and password into a JSON string. A filter that then fails to parse is silently dropped (DataBaseService.cs:79-82), leaving the empty filter that matches every user. | username `"` with any non-blank password, against a non-empty users collection | the credentials are escaped as JSON strings, so the filter always parses to exactly the username and password, and login succeeds only when a stored user has both | not executed | AuthController.QuoteUsernameRequestLogsIn | AuthService.EscapedLoginChecksPassword |
