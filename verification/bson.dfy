/** BSON values and documents as the query engine sees them, the filter tree the
    engine builds, and a reference meaning for "a document matches a filter". */
module Bson {

  datatype BsonValue =
    | BNull
    /** An ObjectId, by its canonical 24-digit lower-case hexadecimal rendering. */
    | BObjectId(hex: string)
    | BString(s: string)
    | BInt32(i: int)
    | BInt64(i: int)
    | BDouble(d: real)
    | BBoolean(b: bool)
    /** Milliseconds since the Unix epoch, UTC. */
    | BDateTime(millis: int)
    /** Any other BSON type (document, array, binary, decimal, ...), by its type name
        only: two such values are equal exactly when their type names are. */
    | BOther(typeName: string)

  /** A `BsonDocument`: its elements in document order. */
  type Document = seq<(string, BsonValue)>

  predicate Contains(doc: Document, name: string) {
    exists i :: 0 <= i < |doc| && doc[i].0 == name
  }

  /** The position of the first element with that name. */
  function FirstIndex(doc: Document, name: string): (i: nat)
    requires Contains(doc, name)
    ensures i < |doc| && doc[i].0 == name
    ensures forall k :: 0 <= k < i ==> doc[k].0 != name
  {
    if doc[0].0 == name then 0 else 1 + FirstIndex(doc[1..], name)
  }

  /** Any position holding the name with none before it is the first index. */
  lemma FirstIndexUnique(doc: Document, name: string, i: nat)
    requires i < |doc| && doc[i].0 == name
    requires forall k :: 0 <= k < i ==> doc[k].0 != name
    ensures Contains(doc, name) && FirstIndex(doc, name) == i
  {
  }

  /** `doc[name]`: the value of the first element with that name. */
  function Get(doc: Document, name: string): (v: BsonValue)
    requires Contains(doc, name)
    ensures (name, v) in doc
  {
    doc[FirstIndex(doc, name)].1
  }

  /** The filter tree: match-all, one equality, or the conjunction of several. */
  datatype Filter = Empty | Eq(name: string, value: BsonValue) | And(clauses: seq<Filter>)

  /** An equality pair holds of a document when the document has the field with that
      value. This is plain equality of model values, narrower than the server's
      reading of `{name: value}`: an operator document such as `{"$regex": ...}` is
      not evaluated as an operator, and a dotted name is not a path. */
  predicate EqHolds(pair: (string, BsonValue), doc: Document) {
    Contains(doc, pair.0) && Get(doc, pair.0) == pair.1
  }

  /** Reference meaning of a filter on a document. */
  predicate Matches(f: Filter, doc: Document)
    decreases f
  {
    match f
    case Empty => true
    case Eq(n, v) => EqHolds((n, v), doc)
    case And(cs) => forall i :: 0 <= i < |cs| ==> Matches(cs[i], doc)
  }

  /** `r` can be obtained from `s` by deleting elements: it keeps their order. */
  predicate Subsequence<T(==)>(r: seq<T>, s: seq<T>)
    decreases |s|
  {
    if |r| == 0 then true
    else if |s| == 0 then false
    else (r[0] == s[0] && Subsequence(r[1..], s[1..])) || Subsequence(r, s[1..])
  }

  /** `Find(filter).ToListAsync()` on a collection: the matching documents, in
      collection order, each as often as the collection holds it. Keeping order
      and these counts determines the result. */
  function Find(docs: seq<Document>, f: Filter): (r: seq<Document>)
    ensures |r| <= |docs|
    ensures forall d :: d in r <==> d in docs && Matches(f, d)
    ensures Subsequence(r, docs)
    ensures forall d :: multiset(r)[d] == if Matches(f, d) then multiset(docs)[d] else 0
  {
    if |docs| == 0 then []
    else
      var rest := Find(docs[1..], f);
      assert docs == [docs[0]] + docs[1..];
      assert forall d :: d in docs <==> d == docs[0] || d in docs[1..];
      if Matches(f, docs[0]) then
        assert ([docs[0]] + rest)[1..] == rest;
        [docs[0]] + rest
      else
        assert |rest| > 0 ==> Subsequence(rest, docs[1..]);
        rest
  }

  lemma ConsAssoc<T>(x: T, u: seq<T>, v: seq<T>)
    ensures [x] + (u + v) == ([x] + u) + v
  {
  }

  /** Filtering a concatenation filters each part: the result keeps collection
      order across any split of the collection. */
  lemma {:induction false} FindDistributes(a: seq<Document>, b: seq<Document>, f: Filter)
    ensures Find(a + b, f) == Find(a, f) + Find(b, f)
  {
    if |a| == 0 {
      assert a + b == b;
    } else {
      var ab := a + b;
      assert ab[0] == a[0] && ab[1..] == a[1..] + b;
      FindDistributes(a[1..], b, f);
      if Matches(f, a[0]) {
        assert Find(ab, f) == [a[0]] + Find(a[1..] + b, f);
        assert Find(a, f) == [a[0]] + Find(a[1..], f);
        ConsAssoc(a[0], Find(a[1..], f), Find(b, f));
      } else {
        assert Find(ab, f) == Find(a[1..] + b, f);
        assert Find(a, f) == Find(a[1..], f);
      }
    }
  }

  /** The match-all filter returns the whole collection, in order. */
  lemma {:induction false} FindEmptyIsIdentity(docs: seq<Document>)
    ensures Find(docs, Empty) == docs
  {
    if |docs| > 0 {
      FindEmptyIsIdentity(docs[1..]);
      assert [docs[0]] + docs[1..] == docs;
    }
  }
}
