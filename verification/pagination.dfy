/** PaginationMiddleware: for POST and PUT requests, copies a string `filter` member
    of the JSON body into the query string, then rewinds the body so later stages
    read it whole. Extraction is best effort and never fails the request.

    The JSON parser and the URL encoder used by `QueryString.Add` are parameters. */
module PaginationExtraction {
  import opened Wrappers
  import opened Text
  import opened Json
  import opened Http

  const FilterName: string := "filter"

  /** `Method.Equals("POST" | "PUT", OrdinalIgnoreCase)`, for ASCII letters. */
  predicate RunsExtraction(httpMethod: string) {
    ToLower(httpMethod) == "post" || ToLower(httpMethod) == "put"
  }

  /** `ReadToEndAsync` from the current position. */
  function ReadRest(body: BodyStream): (s: string)
    ensures body.position == 0 ==> s == body.content
  {
    if body.position <= |body.content| then body.content[body.position..] else ""
  }

  /** The filter the body yields: a non-empty string `filter` member of a JSON object
      root. Empty bodies, unparsable bodies, non-object roots (where the source's
      `TryGetProperty` throws and the exception is swallowed) and members of any
      other kind yield nothing. */
  function ExtractFilter(text: string, parse: string -> Option<Json>): (r: Option<string>)
    ensures r.Some? <==>
      && text != ""
      && parse(text).Some?
      && parse(text).value.JObject?
      && LastMember(parse(text).value.members, FilterName).Some?
      && LastMember(parse(text).value.members, FilterName).value.JString?
      && LastMember(parse(text).value.members, FilterName).value.s != ""
    ensures r.Some? ==> r == Some(LastMember(parse(text).value.members, FilterName).value.s)
  {
    if text == "" then None
    else match parse(text)
      case None => None
      case Some(root) =>
        if !root.JObject? then None
        else match LastMember(root.members, FilterName)
          case Some(JString(f)) => if f != "" then Some(f) else None
          case _ => None
  }

  /** The query string after adding `filter=<encoded>`: appended with '&' to a
      non-empty query, or as the whole query otherwise. */
  function MergeQuery(existing: string, filter: string, encode: string -> string): (q: string)
    ensures existing != "" ==> q == existing + "&" + FilterName + "=" + encode(filter)
    ensures existing == "" ==> q == "?" + FilterName + "=" + encode(filter)
    ensures IsPrefix(existing, q)
  {
    var added := FilterName + "=" + encode(filter);
    if existing != "" then existing + "&" + added else "?" + added
  }

  /** `InvokeAsync` up to the call of the next stage: the request that stage sees.
      Only the query string and the body position can change; the body text never
      does, and after extraction the body is rewound on every path. */
  function Invoke(request: Request, parse: string -> Option<Json>, encode: string -> string): (r: Request)
    ensures !RunsExtraction(request.httpMethod) ==> r == request
    ensures RunsExtraction(request.httpMethod) ==>
      && r == request.(queryString := r.queryString, body := BodyStream(request.body.content, 0))
      && (ExtractFilter(ReadRest(request.body), parse).None? ==> r.queryString == request.queryString)
      && (ExtractFilter(ReadRest(request.body), parse).Some? ==>
            r.queryString == MergeQuery(request.queryString, ExtractFilter(ReadRest(request.body), parse).value, encode))
    ensures IsPrefix(request.queryString, r.queryString)
  {
    if !RunsExtraction(request.httpMethod) then request
    else
      var rewound := request.(body := request.body.(position := 0));
      match ExtractFilter(ReadRest(request.body), parse)
      case None => rewound
      case Some(f) => rewound.(queryString := MergeQuery(request.queryString, f, encode))
  }

  /** A `filter` member that is not a JSON string leaves the query untouched. */
  lemma NonStringFilterIgnored(request: Request, parse: string -> Option<Json>, encode: string -> string)
    requires RunsExtraction(request.httpMethod)
    requires parse(ReadRest(request.body)).Some?
    requires var root := parse(ReadRest(request.body)).value;
      root.JObject? && LastMember(root.members, FilterName).Some?
      && !LastMember(root.members, FilterName).value.JString?
    ensures Invoke(request, parse, encode).queryString == request.queryString
    ensures Invoke(request, parse, encode).body.position == 0
  {
  }
}
