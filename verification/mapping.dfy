/** `ConvertBsonDocumentsToType`: reflecting documents into records of a target
    type. A target type is its list of public properties; a record holds one value
    per property, in the same order. */
module DocumentMapping {
  import opened Wrappers
  import opened Exceptions
  import opened Bson
  import opened Coercion

  datatype Property = Property(name: string, propertyType: TargetType)

  type Schema = seq<Property>
  type Record = seq<ClrValue>

  predicate DistinctNames(schema: Schema) {
    forall i, j :: 0 <= i < j < |schema| ==> schema[i].name != schema[j].name
  }

  predicate IsPropertyName(schema: Schema, name: string) {
    exists j :: 0 <= j < |schema| && schema[j].name == name
  }

  /** One property of a new record: converted and assigned when the document has
      the exact key, otherwise left at its default. */
  function MapProperty(doc: Document, p: Property): (r: Result<ClrValue, Exception>)
    ensures !Contains(doc, p.name) ==> r == Ok(DefaultOf(p.propertyType))
    ensures Contains(doc, p.name) && Get(doc, p.name).BNull? ==> r == Ok(DefaultOf(p.propertyType))
    ensures r.Ok? ==> Fits(r.value, p.propertyType)
    ensures Contains(doc, p.name) && Coerce(Get(doc, p.name), p.propertyType).Err? ==>
      r == Coerce(Get(doc, p.name), p.propertyType).PropagateFailure()
    ensures Contains(doc, p.name) && !Get(doc, p.name).BNull? && Coerce(Get(doc, p.name), p.propertyType).Ok? ==>
      var c := Coerce(Get(doc, p.name), p.propertyType).value;
      && (r.Ok? <==> Fits(c, p.propertyType))
      && (r.Ok? ==> r.value == c)
      && (r.Err? ==> r.error.kind == Argument)
  {
    if !Contains(doc, p.name) then Ok(DefaultOf(p.propertyType))
    else
      var c :- Coerce(Get(doc, p.name), p.propertyType);
      Assign(p.propertyType, c)
  }

  /** The record built from one document, or the first property's failure. */
  function MapDocument(schema: Schema, doc: Document): (r: Result<Record, Exception>)
    ensures r.Ok? <==> forall j :: 0 <= j < |schema| ==> MapProperty(doc, schema[j]).Ok?
    ensures r.Ok? ==> (|r.value| == |schema|
      && forall j :: 0 <= j < |schema| ==> r.value[j] == MapProperty(doc, schema[j]).value)
  {
    if |schema| == 0 then Ok([])
    else
      var head :- MapProperty(doc, schema[0]);
      var tail :- MapDocument(schema[1..], doc);
      Ok([head] + tail)
  }

  /** Enumerating the mapped sequence: one record per document, in document order,
      or the first failure met. */
  function MapDocuments(schema: Schema, docs: seq<Document>): (r: Result<seq<Record>, Exception>)
    ensures r.Ok? <==> forall i :: 0 <= i < |docs| ==> MapDocument(schema, docs[i]).Ok?
    ensures r.Ok? ==> (|r.value| == |docs|
      && forall i :: 0 <= i < |docs| ==> r.value[i] == MapDocument(schema, docs[i]).value)
  {
    if |docs| == 0 then Ok([])
    else
      var head :- MapDocument(schema, docs[0]);
      var tail :- MapDocuments(schema, docs[1..]);
      Ok([head] + tail)
  }

  /** Keys of a document that name no property do not affect the record. */
  lemma ExtraKeysIgnored(schema: Schema, doc: Document, key: string, v: BsonValue)
    requires !IsPropertyName(schema, key)
    ensures MapDocument(schema, doc + [(key, v)]) == MapDocument(schema, doc)
  {
    var doc' := doc + [(key, v)];
    forall j | 0 <= j < |schema|
      ensures MapProperty(doc', schema[j]) == MapProperty(doc, schema[j])
    {
      var n := schema[j].name;
      assert n != key;
      forall i | 0 <= i < |doc| ensures doc'[i] == doc[i] { }
      assert Contains(doc', n) <==> Contains(doc, n);
      if Contains(doc, n) {
        FirstIndexUnique(doc', n, FirstIndex(doc, n));
      }
    }
    MapDocumentPointwise(schema, doc, doc');
  }

  /** Two documents that give every property the same outcome give the same record. */
  lemma MapDocumentPointwise(schema: Schema, doc: Document, doc': Document)
    requires forall j :: 0 <= j < |schema| ==> MapProperty(doc', schema[j]) == MapProperty(doc, schema[j])
    ensures MapDocument(schema, doc') == MapDocument(schema, doc)
  {
    var a := MapDocument(schema, doc);
    var b := MapDocument(schema, doc');
    if a.Ok? && b.Ok? {
      assert a.value == b.value;
    } else if |schema| > 0 {
      MapDocumentPointwise(schema[1..], doc, doc');
    }
  }

  /** The document that stores a record's values under its property names. */
  function ToDocument(schema: Schema, rec: Record): (doc: Document)
    requires |rec| == |schema|
    requires forall j :: 0 <= j < |rec| ==> Storable(rec[j], schema[j].propertyType)
    ensures |doc| == |schema|
  {
    seq(|schema|, j requires 0 <= j < |schema| =>
      assert Storable(rec[j], schema[j].propertyType);
      (schema[j].name, ToBson(rec[j])))
  }

  /** Mapping inverts storing: a record written out under distinct property names
      and read back by the mapping is the same record. */
  lemma MappingRoundTrip(schema: Schema, rec: Record)
    requires DistinctNames(schema)
    requires |rec| == |schema|
    requires forall j :: 0 <= j < |rec| ==> Storable(rec[j], schema[j].propertyType)
    ensures MapDocument(schema, ToDocument(schema, rec)) == Ok(rec)
  {
    var doc := ToDocument(schema, rec);
    forall j | 0 <= j < |schema|
      ensures MapProperty(doc, schema[j]) == Ok(rec[j])
    {
      StoredPropertyReadBack(schema, rec, j);
    }
  }

  lemma StoredPropertyReadBack(schema: Schema, rec: Record, j: nat)
    requires DistinctNames(schema)
    requires |rec| == |schema|
    requires forall j :: 0 <= j < |rec| ==> Storable(rec[j], schema[j].propertyType)
    requires j < |schema|
    ensures MapProperty(ToDocument(schema, rec), schema[j]) == Ok(rec[j])
  {
    var doc := ToDocument(schema, rec);
    var n := schema[j].name;
    assert doc[j] == (n, ToBson(rec[j]));
    assert forall k :: 0 <= k < j ==> doc[k].0 == schema[k].name;
    FirstIndexUnique(doc, n, j);
    assert Get(doc, n) == ToBson(rec[j]);
    CoerceRoundTrip(rec[j], schema[j].propertyType);
  }
}
