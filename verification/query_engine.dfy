/** DataBaseService: the dynamic query engine. It parses an explicit filter and the
    request's auxiliary filter into equality pairs, combines them with AND, runs
    the query against a collection and wraps the mapped documents in an envelope.

    The store is a map from collection names to document lists, plus an optional
    fault standing for a connection or driver failure. `BsonDocument.Parse` is a
    parameter. */
module QueryEngine {
  import opened Wrappers
  import opened Exceptions
  import opened Bson
  import opened Coercion
  import opened DocumentMapping
  import opened MongoResults
  import opened RequestParams

  /** `MongoParameters`: the collection, an optional filter text and an optional
      sort text (which nothing reads). */
  datatype MongoParameters = MongoParameters(collectionName: string, filter: Option<string>, sort: Option<string>)

  datatype Store = Store(collections: map<string, seq<Document>>, fault: Option<Exception>)

  /** The mapped result sequence, not yet enumerated: the `Select` over the
      documents runs only when a consumer enumerates it. */
  datatype Deferred = Deferred(schema: Schema, docs: seq<Document>)

  const SuccessMessage: string := "Operación exitosa"

  /** A collection that was never written reads as empty. */
  function Collection(store: Store, name: string): seq<Document> {
    if name in store.collections then store.collections[name] else []
  }

  /** The equality pairs one filter text contributes: one per top-level element, in
      document order. A null, empty or unparsable text contributes none (the
      source catches the parse exception and goes on). */
  function Fragment(text: Option<string>, parse: string -> Option<Document>): (pairs: Document)
    ensures text.None? || text.value == "" ==> pairs == []
    ensures text.Some? && text.value != "" && parse(text.value).None? ==> pairs == []
    ensures text.Some? && text.value != "" && parse(text.value).Some? ==> pairs == parse(text.value).value
  {
    if text.None? || text.value == "" then []
    else match parse(text.value)
      case None => []
      case Some(doc) => doc
  }

  /** Zero pairs match everything, one pair is used alone, several are joined with
      AND in order; in every case the filter holds of exactly the documents that
      satisfy every pair. */
  function Combine(pairs: Document): (f: Filter)
    ensures |pairs| == 0 ==> f == Empty
    ensures |pairs| == 1 ==> f == Eq(pairs[0].0, pairs[0].1)
    ensures |pairs| >= 2 ==>
      (f.And? && |f.clauses| == |pairs|
       && forall i :: 0 <= i < |pairs| ==> f.clauses[i] == Eq(pairs[i].0, pairs[i].1))
    ensures forall d :: Matches(f, d) <==> forall i :: 0 <= i < |pairs| ==> EqHolds(pairs[i], d)
  {
    if |pairs| == 0 then Empty
    else if |pairs| == 1 then Eq(pairs[0].0, pairs[0].1)
    else And(seq(|pairs|, i requires 0 <= i < |pairs| => Eq(pairs[i].0, pairs[i].1)))
  }

  /** `BuildFilter(filter, filter2)`: the explicit filter's pairs come first, then the
      auxiliary filter's, and the result holds of a document exactly when all of
      them do. */
  function BuildFilter(filter: Option<string>, filter2: Option<string>, parse: string -> Option<Document>): (f: Filter)
    ensures f == Combine(Fragment(filter, parse) + Fragment(filter2, parse))
    ensures forall d :: Matches(f, d) <==>
      (forall p :: p in Fragment(filter, parse) ==> EqHolds(p, d))
      && (forall p :: p in Fragment(filter2, parse) ==> EqHolds(p, d))
  {
    var pairs := Fragment(filter, parse) + Fragment(filter2, parse);
    assert forall p :: p in pairs <==> p in Fragment(filter, parse) || p in Fragment(filter2, parse);
    Combine(pairs)
  }

  /** An unparsable explicit filter is dropped: the query behaves as if only the
      auxiliary filter had been given. */
  lemma UnparsableFilterDropped(filter: string, filter2: Option<string>, parse: string -> Option<Document>)
    requires parse(filter).None?
    ensures BuildFilter(Some(filter), filter2, parse) == BuildFilter(None, filter2, parse)
  {
  }

  /** Enumerating the deferred result: the record mapping runs now, and can throw. */
  function Enumerate(d: Deferred): (r: Result<seq<Record>, Exception>)
    ensures r.Ok? ==> |r.value| == |d.docs|
    ensures |d.docs| == 0 ==> r == Ok([])
  {
    MapDocuments(d.schema, d.docs)
  }

  /** `EjecutarConsultaAsync<T>`: with no store fault, a successful envelope whose data
      is exactly the collection's documents satisfying every pair of both filters
      (in collection order) and whose count is theirs; with a fault, `Failure`. */
  function Execute(parameters: MongoParameters, ctx: Option<RequestContext>, store: Store,
                   parse: string -> Option<Document>, schema: Schema): (r: MongoResult<Deferred>)
    ensures r.isSuccess <==> store.fault.None?
    ensures store.fault.Some? ==> r == Failure(store.fault.value)
    ensures r.isSuccess ==>
      && r.message == SuccessMessage
      && r.data.Some? && r.data.value.schema == schema
      && r.totalRecords == Some(|r.data.value.docs|)
      && |r.data.value.docs| <= |Collection(store, parameters.collectionName)|
    ensures r.isSuccess ==> forall d :: d in r.data.value.docs <==>
      && d in Collection(store, parameters.collectionName)
      && (forall p :: p in Fragment(parameters.filter, parse) ==> EqHolds(p, d))
      && (forall p :: p in Fragment(GetPaginationParameters(ctx).filter, parse) ==> EqHolds(p, d))
    ensures r.isSuccess ==> Subsequence(r.data.value.docs, Collection(store, parameters.collectionName))
    ensures r.isSuccess ==>
      forall d :: multiset(r.data.value.docs)[d]
        == (if (forall p :: p in Fragment(parameters.filter, parse) ==> EqHolds(p, d))
               && (forall p :: p in Fragment(GetPaginationParameters(ctx).filter, parse) ==> EqHolds(p, d))
            then multiset(Collection(store, parameters.collectionName))[d] else 0)
  {
    var paging := GetPaginationParameters(ctx);
    var combined := BuildFilter(parameters.filter, paging.filter, parse);
    match store.fault
    case Some(ex) => Failure(ex)
    case None =>
      var docs := Find(Collection(store, parameters.collectionName), combined);
      MongoResult(Some(Deferred(schema, docs)), true, SuccessMessage, Some(|docs|))
  }

  /** When neither filter contributes a condition (each is absent, empty or
      unparsable), the query returns every document of the collection rather than a
      failure. */
  lemma UnparsableFilterMatchesAll(parameters: MongoParameters, ctx: Option<RequestContext>, store: Store,
                                   parse: string -> Option<Document>, schema: Schema)
    requires Fragment(parameters.filter, parse) == []
    requires Fragment(GetPaginationParameters(ctx).filter, parse) == []
    requires store.fault.None?
    ensures Execute(parameters, ctx, store, parse, schema).isSuccess
    ensures Execute(parameters, ctx, store, parse, schema).data.value.docs
         == Collection(store, parameters.collectionName)
  {
    FindEmptyIsIdentity(Collection(store, parameters.collectionName));
  }
}
