/** `ConvertBsonValueToType`: turning one BSON value into a value of a property's
    declared CLR type. The dispatch is on the target type's name; the named
    conversions succeed only on the matching BSON type and throw otherwise. */
module Coercion {
  import opened Wrappers
  import opened Exceptions
  import opened Bson

  /** The declared type of a target property. `TObject` is `System.Object`;
      `TOther` is any other reference type, named. */
  datatype TargetType =
    | TString | TInt32 | TInt64 | TDouble | TBoolean | TDateTime | TGuid
    | TObject
    | TOther(name: string)

  /** A CLR value held by a property. `CText(v)` is the string `v.ToString()`
      renders; a `CGuid` holds its 32 lower-case hexadecimal digits. */
  datatype ClrValue =
    | CNull
    | CString(s: string)
    | CText(v: BsonValue)
    | CInt32(i: int)
    | CInt64(i: int)
    | CDouble(d: real)
    | CBoolean(b: bool)
    | CDateTime(millis: int)
    | CGuid(digits: string)

  predicate IsHexDigit(c: char) {
    ('0' <= c <= '9') || ('a' <= c <= 'f') || ('A' <= c <= 'F')
  }

  predicate IsLowerHexDigit(c: char) {
    ('0' <= c <= '9') || ('a' <= c <= 'f')
  }

  function LowerHex(c: char): (r: char)
    requires IsHexDigit(c)
    ensures IsLowerHexDigit(r)
    ensures IsLowerHexDigit(c) ==> r == c
  {
    if 'A' <= c <= 'F' then (c as int + 32) as char else c
  }

  predicate AllHex(s: string) {
    forall i :: 0 <= i < |s| ==> IsHexDigit(s[i])
  }

  function LowerAll(s: string): (r: string)
    requires AllHex(s)
    ensures |r| == |s|
    ensures forall i :: 0 <= i < |s| ==> r[i] == LowerHex(s[i])
  {
    seq(|s|, i requires 0 <= i < |s| => LowerHex(s[i]))
  }

  /** The digits of a GUID value. */
  predicate IsGuidDigits(g: string) {
    |g| == 32 && forall i :: 0 <= i < 32 ==> IsLowerHexDigit(g[i])
  }

  /** The 8-4-4-4-12 grouping with hyphens ("D" format). */
  predicate IsHyphenated(s: string) {
    |s| == 36 && s[8] == '-' && s[13] == '-' && s[18] == '-' && s[23] == '-'
    && AllHex(s[..8] + s[9..13] + s[14..18] + s[19..23] + s[24..])
  }

  function Unhyphenate(s: string): (r: string)
    requires IsHyphenated(s)
    ensures AllHex(r) && |r| == 32
  {
    s[..8] + s[9..13] + s[14..18] + s[19..23] + s[24..]
  }

  /** `Guid.Parse` for the "N", "D", "B" and "P" formats. */
  function ParseGuid(s: string): (r: Option<string>)
    ensures r.Some? ==> IsGuidDigits(r.value)
  {
    if |s| == 32 && AllHex(s) then Some(LowerAll(s))
    else if IsHyphenated(s) then Some(LowerAll(Unhyphenate(s)))
    else if |s| == 38 && ((s[0] == '{' && s[37] == '}') || (s[0] == '(' && s[37] == ')'))
         && IsHyphenated(s[1..37]) then
      Some(LowerAll(Unhyphenate(s[1..37])))
    else None
  }

  /** `Guid.ToString()`: the "D" format. */
  function FormatGuid(g: string): (s: string)
    requires IsGuidDigits(g)
    ensures |s| == 36
  {
    g[..8] + "-" + g[8..12] + "-" + g[12..16] + "-" + g[16..20] + "-" + g[20..]
  }

  /** Parsing a formatted GUID gives back the same GUID. */
  lemma GuidRoundTrip(g: string)
    requires IsGuidDigits(g)
    ensures ParseGuid(FormatGuid(g)) == Some(g)
  {
    var s := FormatGuid(g);
    assert s[..8] == g[..8] && s[9..13] == g[8..12] && s[14..18] == g[12..16];
    assert s[19..23] == g[16..20] && s[24..] == g[20..];
    assert g == g[..8] + g[8..12] + g[12..16] + g[16..20] + g[20..];
    assert s[..8] + s[9..13] + s[14..18] + s[19..23] + s[24..] == g;
    assert IsHyphenated(s);
    assert !(|s| == 32);
    assert LowerAll(Unhyphenate(s)) == g;
  }

  /** The bare-digit ("N"), braced ("B") and parenthesised ("P") forms of a GUID
      parse to the same value as its hyphenated form. */
  lemma GuidFormatsAgree(g: string)
    requires IsGuidDigits(g)
    ensures ParseGuid(g) == Some(g)
    ensures ParseGuid("{" + FormatGuid(g) + "}") == Some(g)
    ensures ParseGuid("(" + FormatGuid(g) + ")") == Some(g)
  {
    assert AllHex(g) && LowerAll(g) == g;
    GuidRoundTrip(g);
    var d := FormatGuid(g);
    assert IsHyphenated(d) && LowerAll(Unhyphenate(d)) == g;
    var b := "{" + d + "}";
    assert b[1..37] == d;
    var q := "(" + d + ")";
    assert q[1..37] == d;
  }

  /** One of the seven target types the conversion dispatches on by name. */
  predicate IsNamed(t: TargetType) {
    !t.TObject? && !t.TOther?
  }

  /** The BSON type a named conversion reads: `AsString`, `AsInt32`, `AsInt64`,
      `AsDouble`, `AsBoolean`, a BSON date for `ToUniversalTime`, and a string for
      `Guid.Parse`. */
  predicate NativeType(v: BsonValue, t: TargetType) {
    match t
    case TString => v.BString?
    case TInt32 => v.BInt32?
    case TInt64 => v.BInt64?
    case TDouble => v.BDouble?
    case TBoolean => v.BBoolean?
    case TDateTime => v.BDateTime?
    case TGuid => v.BString?
    case _ => false
  }

  /** The conversion, or the exception it throws. A null value becomes null and an
      ObjectId its hexadecimal string, whatever the target; the seven named types
      convert from their own BSON type only; any other target gets the value's
      text rendering. */
  function Coerce(v: BsonValue, t: TargetType): (r: Result<ClrValue, Exception>)
    ensures v.BNull? ==> r == Ok(CNull)
    ensures v.BObjectId? ==> r == Ok(CString(v.hex))
    ensures !v.BNull? && !v.BObjectId? && (t.TObject? || t.TOther?) ==> r == Ok(CText(v))
    ensures r.Ok? && !v.BNull? && !v.BObjectId? && !t.TOther? ==> Fits(r.value, t)
    ensures !v.BNull? && !v.BObjectId? && IsNamed(t) && !t.TGuid? ==> (r.Ok? <==> NativeType(v, t))
    ensures !v.BNull? && !v.BObjectId? && t.TGuid? ==> (r.Ok? <==> v.BString? && ParseGuid(v.s).Some?)
    ensures r.Err? && !t.TDateTime? && !NativeType(v, t) ==> r.error.kind == InvalidCast
    ensures r.Err? && t.TDateTime? ==> r.error.kind == Other("NotSupportedException")
    ensures r.Err? && NativeType(v, t) ==> r.error.kind == Format
  {
    if v.BNull? then Ok(CNull)
    else if v.BObjectId? then Ok(CString(v.hex))
    else match t
      case TString => if v.BString? then Ok(CString(v.s)) else Err(CastError(t))
      case TInt32 => if v.BInt32? then Ok(CInt32(v.i)) else Err(CastError(t))
      case TInt64 => if v.BInt64? then Ok(CInt64(v.i)) else Err(CastError(t))
      case TDouble => if v.BDouble? then Ok(CDouble(v.d)) else Err(CastError(t))
      case TBoolean => if v.BBoolean? then Ok(CBoolean(v.b)) else Err(CastError(t))
      case TDateTime =>
        if v.BDateTime? then Ok(CDateTime(v.millis))
        else Err(Exception(Other("NotSupportedException"), "The value does not support ToUniversalTime."))
      case TGuid =>
        if !v.BString? then Err(CastError(t))
        else (match ParseGuid(v.s)
          case Some(g) => Ok(CGuid(g))
          case None => Err(Exception(Format, "Unrecognized Guid format.")))
      case _ => Ok(CText(v))
  }

  function CastError(t: TargetType): Exception {
    Exception(InvalidCast, "Unable to cast the BSON value to the target type.")
  }

  /** The runtime type of a non-null value is assignable to a property of type `t`. */
  predicate Fits(c: ClrValue, t: TargetType) {
    match c
    case CNull => true
    case CString(_) => t == TString || t == TObject
    case CText(_) => t == TString || t == TObject
    case CInt32(_) => t == TInt32 || t == TObject
    case CInt64(_) => t == TInt64 || t == TObject
    case CDouble(_) => t == TDouble || t == TObject
    case CBoolean(_) => t == TBoolean || t == TObject
    case CDateTime(_) => t == TDateTime || t == TObject
    case CGuid(_) => t == TGuid || t == TObject
  }

  const DateTimeMinMillis: int := -62135596800000
  const EmptyGuid: string := "00000000000000000000000000000000"

  /** The value a freshly constructed property holds: zero-like for value types,
      null for reference types. */
  function DefaultOf(t: TargetType): (c: ClrValue)
    ensures Fits(c, t)
  {
    match t
    case TInt32 => CInt32(0)
    case TInt64 => CInt64(0)
    case TDouble => CDouble(0.0)
    case TBoolean => CBoolean(false)
    case TDateTime => CDateTime(DateTimeMinMillis)
    case TGuid => CGuid(EmptyGuid)
    case _ => CNull
  }

  predicate IsValueType(t: TargetType) {
    t.TInt32? || t.TInt64? || t.TDouble? || t.TBoolean? || t.TDateTime? || t.TGuid?
  }

  /** `PropertyInfo.SetValue`: null on a value-type property stores its default; a
      value of the wrong runtime type throws `ArgumentException`. */
  function Assign(t: TargetType, c: ClrValue): (r: Result<ClrValue, Exception>)
    ensures r.Ok? <==> Fits(c, t)
    ensures r.Ok? ==> Fits(r.value, t)
    ensures c.CNull? ==> r == Ok(DefaultOf(t))
    ensures r.Ok? && !c.CNull? ==> r.value == c
    ensures r.Err? ==> r.error.kind == Argument
  {
    if c.CNull? then Ok(DefaultOf(t))
    else if Fits(c, t) then Ok(c)
    else Err(Exception(Argument, "Object of the given type cannot be converted to the property type."))
  }

  /** A value of a property of type `t` that the driver stores in that type's own
      BSON form: null only for reference types, a text rendering only in an
      `object` property. */
  predicate Storable(c: ClrValue, t: TargetType) {
    match c
    case CNull => !IsValueType(t)
    case CText(v) => t == TObject && !v.BNull? && !v.BObjectId?
    case CString(_) => t == TString
    case CInt32(_) => t == TInt32
    case CInt64(_) => t == TInt64
    case CDouble(_) => t == TDouble
    case CBoolean(_) => t == TBoolean
    case CDateTime(_) => t == TDateTime
    case CGuid(g) => t == TGuid && IsGuidDigits(g)
  }

  /** A property value stored in the form the reader expects: each primitive as its
      own BSON type, and a GUID as its hyphenated string (not the binary subtype the
      driver writes for a `Guid` by default). */
  function ToBson(c: ClrValue): BsonValue
    requires c.CGuid? ==> IsGuidDigits(c.digits)
  {
    match c
    case CNull => BNull
    case CString(s) => BString(s)
    case CText(v) => v
    case CInt32(i) => BInt32(i)
    case CInt64(i) => BInt64(i)
    case CDouble(d) => BDouble(d)
    case CBoolean(b) => BBoolean(b)
    case CDateTime(ms) => BDateTime(ms)
    case CGuid(g) => BString(FormatGuid(g))
  }

  /** Coercing the stored form of a property value, then assigning it, gives the
      value back: the conversion table inverts `ToBson`. */
  lemma CoerceRoundTrip(c: ClrValue, t: TargetType)
    requires Storable(c, t)
    ensures Coerce(ToBson(c), t).Ok?
    ensures Assign(t, Coerce(ToBson(c), t).value) == Ok(c)
  {
    if c.CGuid? {
      GuidRoundTrip(c.digits);
    }
  }
}
