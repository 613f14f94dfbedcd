/** RequestService: reading a named request parameter, query string first, then
    route values, then a default, converting with `ChangeTypeNullable`. */
module RequestParams {
  import opened Wrappers
  import opened Text
  import opened Exceptions
  import opened Coercion

  /** The current request as the service reads it; absent when there is no HTTP context. */
  datatype RequestContext = RequestContext(
    /** `Request.Query[name].ToString()` for every name present in the query. ASP.NET
        looks query names up case-insensitively, so a key here stands for every
        spelling of that name (`filter` also answers a request's `Filter`). */
    query: map<string, string>,
    /** Route values by name, with `ToString()` applied; `None` is a null value. */
    routeValues: map<string, Option<string>>)

  /** The conversion targets the model covers: `string`, `int` and `int?`. */
  datatype ConversionType = ToString | ToInt32 | ToNullableInt32

  datatype ModelPaginacion = ModelPaginacion(filter: Option<string>)

  const MinInt32: int := -0x8000_0000
  const MaxInt32: int := 0x7FFF_FFFF

  predicate AllDigits(s: string) {
    forall i :: 0 <= i < |s| ==> '0' <= s[i] <= '9'
  }

  function DigitsValue(s: string): (n: nat)
    requires AllDigits(s)
  {
    if |s| == 0 then 0 else 10 * DigitsValue(s[..|s| - 1]) + (s[|s| - 1] as int - '0' as int)
  }

  /** The value of a digit string, negated when it followed a '-'. */
  function SignedValue(digits: string, negative: bool): int
    requires AllDigits(digits)
  {
    var m: int := DigitsValue(digits);
    if negative then -m else m
  }

  /** The digits after an optional sign, negated when the sign was '-'. */
  function ParseMagnitude(digits: string, negative: bool): (r: Result<int, Exception>)
    ensures r.Ok? ==> MinInt32 <= r.value <= MaxInt32
    ensures r.Ok? <==> (|digits| > 0 && AllDigits(digits) &&
      MinInt32 <= SignedValue(digits, negative) <= MaxInt32)
    ensures r.Ok? ==> r.value == SignedValue(digits, negative)
  {
    if |digits| == 0 || !AllDigits(digits) then
      Err(Exception(Format, "The input string was not in a correct format."))
    else
      var v := SignedValue(digits, negative);
      if v < MinInt32 || v > MaxInt32 then
        Err(Exception(Other("OverflowException"), "Value was either too large or too small for an Int32."))
      else Ok(v)
  }

  /** `Int32.Parse` under the invariant culture: an optional sign, then one or more
      decimal digits, within the 32-bit range. */
  function ParseInt32(s: string): (r: Result<int, Exception>)
    ensures r.Ok? ==> MinInt32 <= r.value <= MaxInt32
    ensures |s| > 0 && s[0] == '-' ==> r == ParseMagnitude(s[1..], true)
    ensures |s| > 0 && s[0] == '+' ==> r == ParseMagnitude(s[1..], false)
    ensures |s| == 0 || (s[0] != '-' && s[0] != '+') ==> r == ParseMagnitude(s, false)
  {
    if |s| > 0 && s[0] == '-' then ParseMagnitude(s[1..], true)
    else if |s| > 0 && s[0] == '+' then ParseMagnitude(s[1..], false)
    else ParseMagnitude(s, false)
  }

  lemma {:induction false} DigitsOfNat(n: nat)
    ensures AllDigits(NatToString(n)) && DigitsValue(NatToString(n)) == n
  {
    if n >= 10 {
      DigitsOfNat(n / 10);
      var s := NatToString(n);
      assert s[..|s| - 1] == NatToString(n / 10);
    }
  }

  /** Parsing the decimal rendering of a 32-bit integer gives the integer back. */
  lemma ParseRendered(n: int)
    requires MinInt32 <= n <= MaxInt32
    ensures ParseInt32(IntToString(n)) == Ok(n)
  {
    if n < 0 {
      ParseRenderedNegative(n);
    } else {
      ParseRenderedNatural(n);
    }
  }

  lemma ParseRenderedNegative(n: int)
    requires MinInt32 <= n < 0
    ensures ParseInt32(IntToString(n)) == Ok(n)
  {
    var m: nat := -n;
    var d := NatToString(m);
    DigitsOfNat(m);
    var s := IntToString(n);
    assert s == "-" + d;
    assert s[1..] == d;
    assert SignedValue(d, true) == n by {
      assert AllDigits(d) && DigitsValue(d) == m;
    }
  }

  lemma ParseRenderedNatural(n: int)
    requires 0 <= n <= MaxInt32
    ensures ParseInt32(IntToString(n)) == Ok(n)
  {
    var d := NatToString(n);
    DigitsOfNat(n);
    assert IntToString(n) == d;
    assert d[0] != '-' && d[0] != '+';
    assert SignedValue(d, false) == n;
  }

  /** `Convert.ChangeType(value, typeof(int))`: null throws, text parses. */
  function ChangeTypeInt32(value: Option<string>): (r: Result<ClrValue, Exception>)
    ensures value.None? ==> r.Err? && r.error.kind == InvalidCast
    ensures value.Some? ==> (r.Ok? <==> ParseInt32(value.value).Ok?)
    ensures r.Ok? ==> r.value == CInt32(ParseInt32(value.value).value)
  {
    if value.None? then Err(Exception(InvalidCast, "Null object cannot be converted to a value type."))
    else
      var n :- ParseInt32(value.value);
      Ok(CInt32(n))
  }

  /** `ChangeTypeNullable`: for `int?`, null stays null and anything else converts as
      `int`; `Convert.ChangeType` turns null into null for `string` and throws for `int`. */
  function ChangeTypeNullable(value: Option<string>, t: ConversionType): (r: Result<ClrValue, Exception>)
    ensures t == ToNullableInt32 && value.None? ==> r == Ok(CNull)
    ensures t == ToNullableInt32 && value.Some? ==> r == ChangeTypeInt32(value)
    ensures t == ToInt32 ==> r == ChangeTypeInt32(value)
    ensures t == ToString ==> r == Ok(if value.Some? then CString(value.value) else CNull)
  {
    match t
    case ToNullableInt32 => if value.None? then Ok(CNull) else ChangeTypeInt32(value)
    case ToString => Ok(if value.Some? then CString(value.value) else CNull)
    case ToInt32 => ChangeTypeInt32(value)
  }

  /** The query-string value of a parameter; empty when absent. */
  function QueryValue(ctx: RequestContext, name: string): string {
    if name in ctx.query then ctx.query[name] else ""
  }

  /** The query string supplies a usable value: present, non-empty and convertible. */
  predicate QueryUsable(ctx: RequestContext, name: string, t: ConversionType) {
    QueryValue(ctx, name) != "" && ChangeTypeNullable(Some(QueryValue(ctx, name)), t).Ok?
  }

  /** The route values supply a usable value: present, non-null and convertible. */
  predicate RouteUsable(ctx: RequestContext, name: string, t: ConversionType) {
    name in ctx.routeValues && ctx.routeValues[name].Some?
    && ChangeTypeNullable(ctx.routeValues[name], t).Ok?
  }

  /** `GetParameter`: the first usable source wins, conversion failures fall through
      to the next source, and the default answers when none is usable or there is no
      HTTP context at all. */
  function GetParameter(ctx: Option<RequestContext>, name: string, t: ConversionType, default: ClrValue): (r: ClrValue)
    ensures ctx.None? ==> r == default
    ensures ctx.Some? && QueryUsable(ctx.value, name, t) ==>
      r == ChangeTypeNullable(Some(QueryValue(ctx.value, name)), t).value
    ensures ctx.Some? && !QueryUsable(ctx.value, name, t) && RouteUsable(ctx.value, name, t) ==>
      r == ChangeTypeNullable(ctx.value.routeValues[name], t).value
    ensures ctx.Some? && !QueryUsable(ctx.value, name, t) && !RouteUsable(ctx.value, name, t) ==>
      r == default
  {
    if ctx.None? then default
    else
      var c := ctx.value;
      var q := QueryValue(c, name);
      if q != "" && ChangeTypeNullable(Some(q), t).Ok? then ChangeTypeNullable(Some(q), t).value
      else if name in c.routeValues && c.routeValues[name].Some? && ChangeTypeNullable(c.routeValues[name], t).Ok? then
        ChangeTypeNullable(c.routeValues[name], t).value
      else default
  }

  /** `GetPaginationParameters`: never null, and its filter is the "filter" parameter:
      a non-empty query value, else a non-null route value, else the empty string. */
  function GetPaginationParameters(ctx: Option<RequestContext>): (r: ModelPaginacion)
    ensures r.filter.Some?
    ensures ctx.None? ==> r.filter == Some("")
    ensures ctx.Some? && QueryValue(ctx.value, "filter") != "" ==> r.filter == Some(QueryValue(ctx.value, "filter"))
    ensures ctx.Some? && QueryValue(ctx.value, "filter") == "" ==>
      r.filter == Some(if "filter" in ctx.value.routeValues && ctx.value.routeValues["filter"].Some?
                       then ctx.value.routeValues["filter"].value else "")
  {
    var v := GetParameter(ctx, "filter", ToString, CString(""));
    ModelPaginacion(Some(v.s))
  }
}
