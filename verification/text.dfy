/** Character classes and string helpers shared by the server and client models. */
module Text {

  /** The characters .NET's `char.IsWhiteSpace` accepts in the Basic Multilingual Plane:
      the Unicode space separators, line and paragraph separators, and the control
      characters U+0009..U+000D and U+0085. */
  predicate IsDotNetWhiteSpace(c: char) {
    || ('\U{9}' <= c <= '\U{D}')
    || c == ' ' || c == '\U{85}' || c == '\U{A0}' || c == '\U{1680}'
    || ('\U{2000}' <= c <= '\U{200A}')
    || c == '\U{2028}' || c == '\U{2029}' || c == '\U{202F}' || c == '\U{205F}' || c == '\U{3000}'
  }

  /** The characters JavaScript's regular-expression class `\s` matches: the same
      set without U+0085, plus the byte-order mark U+FEFF. */
  predicate IsJsWhiteSpace(c: char) {
    (IsDotNetWhiteSpace(c) && c != '\U{85}') || c == '\U{FEFF}'
  }

  /** `string.IsNullOrWhiteSpace` on a non-null string: every character is white space. */
  predicate IsBlank(s: string) {
    forall i :: 0 <= i < |s| ==> IsDotNetWhiteSpace(s[i])
  }

  predicate IsPrefix(p: string, s: string) {
    |p| <= |s| && s[..|p|] == p
  }

  /** Lower-cases the ASCII letters of a character and leaves every other character alone. */
  function ToLowerChar(c: char): (r: char)
    ensures 'A' <= c <= 'Z' ==> r as int == c as int + 32
    ensures !('A' <= c <= 'Z') ==> r == c
  {
    if 'A' <= c <= 'Z' then (c as int + 32) as char else c
  }

  function ToLower(s: string): (r: string)
    ensures |r| == |s|
    ensures forall i :: 0 <= i < |s| ==> r[i] == ToLowerChar(s[i])
  {
    seq(|s|, i requires 0 <= i < |s| => ToLowerChar(s[i]))
  }

  /** Number of leading white-space characters of `s`. */
  function LeadingBlank(s: string): (n: nat)
    ensures n <= |s|
    ensures IsBlank(s[..n])
    ensures n < |s| ==> !IsDotNetWhiteSpace(s[n])
  {
    if |s| == 0 || !IsDotNetWhiteSpace(s[0]) then 0
    else
      var n := 1 + LeadingBlank(s[1..]);
      assert s[..n] == [s[0]] + s[1..][..n - 1];
      n
  }

  /** Number of trailing white-space characters of `s`. */
  function TrailingBlank(s: string): (n: nat)
    ensures n <= |s|
    ensures IsBlank(s[|s| - n..])
    ensures n < |s| ==> !IsDotNetWhiteSpace(s[|s| - n - 1])
  {
    if |s| == 0 || !IsDotNetWhiteSpace(s[|s| - 1]) then 0
    else
      var init := s[..|s| - 1];
      var m := TrailingBlank(init);
      forall i | |s| - 1 - m <= i < |s|
        ensures IsDotNetWhiteSpace(s[i])
      {
        if i < |s| - 1 {
          assert s[i] == init[|init| - m..][i - (|s| - 1 - m)];
        }
      }
      1 + m
  }

  /** .NET `string.Trim()`: drops leading and trailing white space. */
  function Trim(s: string): (r: string)
    ensures IsBlank(r) <==> IsBlank(s)
    ensures |r| == 0 <==> IsBlank(s)
    ensures |r| > 0 ==> !IsDotNetWhiteSpace(r[0]) && !IsDotNetWhiteSpace(r[|r| - 1])
    // r is the stretch of s after its leading white space, and only white space follows it
    ensures LeadingBlank(s) + |r| <= |s| && r == s[LeadingBlank(s)..LeadingBlank(s) + |r|]
    ensures IsBlank(s[LeadingBlank(s) + |r|..])
  {
    var lead := LeadingBlank(s);
    var rest := s[lead..];
    var tail := TrailingBlank(rest);
    assert lead == |s| ==> s[..lead] == s;
    assert tail == |rest| ==> rest[|rest| - tail..] == rest;
    assert lead < |s| ==> rest[0] == s[lead];
    rest[..|rest| - tail]
  }

  function DigitChar(d: nat): (c: char)
    requires d < 10
    ensures '0' <= c <= '9'
  {
    "0123456789"[d]
  }

  /** Decimal rendering of a natural number, without leading zeros. */
  function NatToString(n: nat): (r: string)
    ensures |r| > 0
    ensures forall i :: 0 <= i < |r| ==> '0' <= r[i] <= '9'
    ensures n > 0 ==> r[0] != '0'
  {
    if n < 10 then [DigitChar(n)]
    else NatToString(n / 10) + [DigitChar(n % 10)]
  }

  /** Decimal rendering of an integer, with a leading '-' when negative, as string
      interpolation renders an integer in C# and a number in JavaScript. */
  function IntToString(n: int): (r: string)
    ensures |r| > 0
    ensures (r[0] == '-') <==> n < 0
  {
    if n < 0 then "-" + NatToString(-n) else NatToString(n)
  }
}
