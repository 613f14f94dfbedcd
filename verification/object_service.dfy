/** ObjectService: the property listing. It queries the `objects` collection with no
    filter of its own and hands back only the envelope's data. */
module ObjectService {
  import opened Wrappers
  import opened Exceptions
  import opened Bson
  import opened Coercion
  import opened DocumentMapping
  import opened RequestParams
  import opened QueryEngine

  const ObjectsCollection: string := "objects"

  /** The public properties of `Object_Model`, in declaration order. */
  const ObjectSchema: Schema := [
    Property("_id", TString),
    Property("IdOwner", TInt32),
    Property("Name", TString),
    Property("AddressProperty", TString),
    Property("PriceProperty", TInt32),
    Property("ImgURL", TString)
  ]

  /** `new MongoParameters("objects")`: filter and sort left null. */
  const ListParameters: MongoParameters := MongoParameters(ObjectsCollection, None, None)

  /** `GetAsync`: the envelope's `Data` only. A failed query gives null (`None`), not
      an exception; otherwise the objects satisfying the request's auxiliary filter,
      in collection order, still to be mapped. */
  function GetAsync(ctx: Option<RequestContext>, store: Store, parse: string -> Option<Document>): (r: Option<Deferred>)
    ensures r.None? <==> store.fault.Some?
    ensures r.Some? ==> r.value.schema == ObjectSchema
    ensures r.Some? ==> forall d :: d in r.value.docs <==>
      && d in Collection(store, ObjectsCollection)
      && (forall p :: p in Fragment(GetPaginationParameters(ctx).filter, parse) ==> EqHolds(p, d))
    ensures r.Some? ==> Subsequence(r.value.docs, Collection(store, ObjectsCollection))
    ensures r.Some? ==>
      forall d :: multiset(r.value.docs)[d]
        == (if forall p :: p in Fragment(GetPaginationParameters(ctx).filter, parse) ==> EqHolds(p, d)
            then multiset(Collection(store, ObjectsCollection))[d] else 0)
  {
    Execute(ListParameters, ctx, store, parse, ObjectSchema).data
  }

  /** With no auxiliary filter the listing is the whole collection, in order. */
  lemma UnfilteredListsAll(ctx: Option<RequestContext>, store: Store, parse: string -> Option<Document>)
    requires GetPaginationParameters(ctx).filter == Some("")
    requires store.fault.None?
    ensures GetAsync(ctx, store, parse) == Some(Deferred(ObjectSchema, Collection(store, ObjectsCollection)))
  {
    FindEmptyIsIdentity(Collection(store, ObjectsCollection));
  }

  /** An object id stored as a BSON ObjectId reads back as its hexadecimal string. */
  lemma ObjectIdReadsAsString(doc: Document, hex: string)
    requires Contains(doc, "_id") && Get(doc, "_id") == BObjectId(hex)
    ensures MapProperty(doc, ObjectSchema[0]) == Ok(CString(hex))
  {
  }

  /** A price stored as a BSON double cannot be read into the `int` property: the
      mapping fails with an invalid cast rather than truncating. */
  lemma DoublePriceFails(doc: Document, price: real)
    requires Contains(doc, "PriceProperty") && Get(doc, "PriceProperty") == BDouble(price)
    ensures MapDocument(ObjectSchema, doc).Err?
    ensures MapProperty(doc, ObjectSchema[4]).Err? && MapProperty(doc, ObjectSchema[4]).error.kind == InvalidCast
  {
    var p := ObjectSchema[4];
    assert p == Property("PriceProperty", TInt32);
    assert Coerce(BDouble(price), TInt32) == Err(CastError(TInt32));
    assert MapProperty(doc, p) == Err(CastError(TInt32));
  }
}
