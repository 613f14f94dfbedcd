/** A reader and a writer for flat JSON objects whose members are all strings:
    `{ "k": "v", ... }`. Inside a string a backslash escapes a quote or a
    backslash. It is a strict flat-object reader that agrees with
    `BsonDocument.Parse` on the texts `Write` produces and on the login filter
    texts reasoned about here (plain credentials, and a username of one quote);
    it is concrete so that what those texts parse to can be computed rather than
    assumed. It is not `BsonDocument.Parse` in general: the
    other escapes (`\n`, `\t`, `\/`, `\uXXXX`) are rejected here, and a repeated
    member name is accepted here where the driver rejects it. */
module FlatJson {
  import opened Wrappers
  import opened Text
  import opened Bson

  /** Drops leading whitespace. */
  function SkipWs(s: string): (r: string)
    ensures |r| <= |s|
    ensures |r| > 0 ==> !IsDotNetWhiteSpace(r[0])
  {
    if |s| > 0 && IsDotNetWhiteSpace(s[0]) then SkipWs(s[1..]) else s
  }

  /** Reads the body of a string literal whose opening quote is already consumed:
      the unescaped value and what follows the closing quote. */
  function LexString(s: string): (r: Option<(string, string)>)
    ensures r.Some? ==> |r.value.1| < |s|
  {
    if |s| == 0 then None
    else if s[0] == '"' then Some(([], s[1..]))
    else if s[0] == '\\' then
      if |s| >= 2 && (s[1] == '"' || s[1] == '\\') then
        match LexString(s[2..])
        case None => None
        case Some((v, rest)) => Some(([s[1]] + v, rest))
      else None
    else
      match LexString(s[1..])
      case None => None
      case Some((v, rest)) => Some(([s[0]] + v, rest))
  }

  /** Escapes a value for use between quotes. */
  function Escape(s: string): (r: string)
    ensures |r| >= |s|
  {
    if |s| == 0 then []
    else
      var head := if s[0] == '"' || s[0] == '\\' then ['\\', s[0]] else [s[0]];
      head + Escape(s[1..])
  }

  /** Reading back an escaped value recovers it exactly, whatever follows. */
  lemma {:induction false} LexEscaped(s: string, rest: string)
    ensures LexString(Escape(s) + "\"" + rest) == Some((s, rest))
  {
    if |s| == 0 {
      assert Escape(s) + "\"" + rest == "\"" + rest;
    } else {
      LexEscaped(s[1..], rest);
      LexEscapedCons(s, rest);
    }
  }

  lemma LexEscapedCons(s: string, rest: string)
    requires |s| > 0
    requires LexString(Escape(s[1..]) + "\"" + rest) == Some((s[1..], rest))
    ensures LexString(Escape(s) + "\"" + rest) == Some((s, rest))
  {
    var t := Escape(s[1..]) + "\"" + rest;
    if s[0] == '"' || s[0] == '\\' {
      assert Escape(s) + "\"" + rest == ['\\', s[0]] + t;
      LexAfterEscape(s[0], t);
    } else {
      assert Escape(s) + "\"" + rest == [s[0]] + t;
      LexAfterPlain(s[0], t);
    }
    assert [s[0]] + s[1..] == s;
  }

  lemma LexAfterEscape(c: char, t: string)
    requires c == '"' || c == '\\'
    requires LexString(t).Some?
    ensures LexString(['\\', c] + t) == Some(([c] + LexString(t).value.0, LexString(t).value.1))
  {
    assert (['\\', c] + t)[2..] == t;
  }

  lemma LexAfterPlain(c: char, t: string)
    requires c != '"' && c != '\\'
    requires LexString(t).Some?
    ensures LexString([c] + t) == Some(([c] + LexString(t).value.0, LexString(t).value.1))
  {
    assert ([c] + t)[1..] == t;
  }

  /** One `"key" : "value"` member followed by optional whitespace. */
  function ParseMember(s: string): (r: Option<((string, BsonValue), string)>)
    ensures r.Some? ==> |r.value.1| < |s|
  {
    if |s| == 0 || s[0] != '"' then None
    else
      match LexString(s[1..])
      case None => None
      case Some((k, r1)) => ParseColon(k, SkipWs(r1))
  }

  function ParseColon(k: string, s: string): (r: Option<((string, BsonValue), string)>)
    ensures r.Some? ==> |r.value.1| < |s|
  {
    if |s| == 0 || s[0] != ':' then None else ParseValue(k, SkipWs(s[1..]))
  }

  function ParseValue(k: string, s: string): (r: Option<((string, BsonValue), string)>)
    ensures r.Some? ==> |r.value.1| < |s|
  {
    if |s| == 0 || s[0] != '"' then None
    else
      match LexString(s[1..])
      case None => None
      case Some((v, rest)) => Some(((k, BString(v)), SkipWs(rest)))
  }

  /** Members separated by commas up to the closing brace, then only whitespace. */
  function ParseMembers(s: string): (r: Option<Document>)
    ensures r.Some? ==> |r.value| > 0
    decreases |s|
  {
    match ParseMember(s)
    case None => None
    case Some((m, rest)) =>
      if |rest| > 0 && rest[0] == ',' then
        match ParseMembers(SkipWs(rest[1..]))
        case None => None
        case Some(ms) => Some([m] + ms)
      else if |rest| > 0 && rest[0] == '}' && SkipWs(rest[1..]) == [] then Some([m])
      else None
  }

  /** The whole text as one flat object, or `None` when it is not one. */
  function Parse(text: string): (r: Option<Document>)
  {
    var t := SkipWs(text);
    if |t| == 0 || t[0] != '{' then None
    else
      var u := SkipWs(t[1..]);
      if |u| > 0 && u[0] == '}' then (if SkipWs(u[1..]) == [] then Some([]) else None)
      else ParseMembers(u)
  }

  /** Writes a flat object with one space of padding, as the login filter does. */
  function Write(doc: seq<(string, string)>): (text: string)
    ensures |text| >= 4 && text[..2] == "{ " && text[|text| - 2..] == " }"
  {
    "{ " + Members(doc) + " }"
  }

  function Members(doc: seq<(string, string)>): string {
    if |doc| == 0 then []
    else
      var m := WriteMember(doc[0].0, doc[0].1);
      if |doc| == 1 then m else m + ", " + Members(doc[1..])
  }

  function Quote(s: string): string {
    "\"" + Escape(s) + "\""
  }

  /** A member as text, with key and value placed between quotes unchanged. */
  function RawMember(k: string, v: string): string {
    "\"" + k + "\": \"" + v + "\""
  }

  function WriteMember(k: string, v: string): string {
    RawMember(Escape(k), Escape(v))
  }

  lemma OpenBrace(x: string)
    ensures |"{ " + x| > 1 && ("{ " + x)[0] == '{' && ("{ " + x)[1..] == " " + x
  {
  }

  function AsBson(doc: seq<(string, string)>): (r: Document)
    ensures |r| == |doc|
    ensures forall i :: 0 <= i < |doc| ==> r[i] == (doc[i].0, BString(doc[i].1))
  {
    seq(|doc|, i requires 0 <= i < |doc| => (doc[i].0, BString(doc[i].1)))
  }

  lemma SkipWsNonBlank(s: string)
    requires |s| > 0 && !IsDotNetWhiteSpace(s[0])
    ensures SkipWs(s) == s
  {
  }

  lemma {:induction false} SkipBlankPrefix(w: string, s: string)
    requires IsBlank(w)
    ensures SkipWs(w + s) == SkipWs(s)
    decreases |w|
  {
    if |w| > 0 {
      assert (w + s)[0] == w[0];
      assert (w + s)[1..] == w[1..] + s;
      SkipBlankPrefix(w[1..], s);
    } else {
      assert w + s == s;
    }
  }

  /** The last member: its closing brace ends the object. */
  lemma LastMember(text: string, m: (string, BsonValue))
    requires ParseMember(text) == Some((m, "}"))
    ensures ParseMembers(text) == Some([m])
  {
    assert SkipWs("}"[1..]) == [];
  }

  /** The separator the writer puts between members. */
  lemma CommaThenMember(tailText: string)
    requires |tailText| > 0 && tailText[0] == '"'
    ensures var rest := ", " + tailText; |rest| > 0 && rest[0] == ',' && SkipWs(rest[1..]) == tailText
  {
    var rest := ", " + tailText;
    assert rest[1..] == " " + tailText;
    SkipBlankPrefix(" ", tailText);
    SkipWsNonBlank(tailText);
  }

  /** A member followed by a comma, a space and more members. */
  lemma NextMember(text: string, m: (string, BsonValue), tailText: string, ms: Document)
    requires ParseMember(text) == Some((m, ", " + tailText))
    requires |tailText| > 0 && tailText[0] == '"'
    requires ParseMembers(tailText) == Some(ms)
    ensures ParseMembers(text) == Some([m] + ms)
  {
    CommaThenMember(tailText);
  }

  /** One written member reads back as itself; the reader stops after the
      whitespace that follows it. */
  lemma MemberRoundTrip(k: string, v: string, rest: string)
    ensures ParseMember(WriteMember(k, v) + rest) == Some(((k, BString(v)), SkipWs(rest)))
  {
    var valueText := Quote(v) + rest;
    var colonText := ": " + valueText;
    var s := WriteMember(k, v) + rest;
    WrittenMemberShape(k, v, rest);
    LexEscaped(k, colonText);
    MemberStep(s, k, colonText);
    ColonStep(k, valueText);
    ValueRoundTrip(k, v, rest);
  }

  lemma WrittenMemberShape(k: string, v: string, rest: string)
    ensures var s := WriteMember(k, v) + rest;
      |s| > 0 && s[0] == '"' && s[1..] == Escape(k) + "\"" + (": " + (Quote(v) + rest))
  {
    var s := WriteMember(k, v) + rest;
    assert s == "\"" + (Escape(k) + "\"" + (": " + (Quote(v) + rest)));
  }

  /** A key, read up to its closing quote, followed by a colon. */
  lemma MemberStep(s: string, k: string, x: string)
    requires |s| > 0 && s[0] == '"' && LexString(s[1..]) == Some((k, x))
    requires |x| > 0 && x[0] == ':'
    ensures ParseMember(s) == ParseColon(k, x)
  {
    SkipWsNonBlank(x);
  }

  /** The colon and the single space the writer puts before a value. */
  lemma ColonStep(k: string, x: string)
    requires |x| > 0 && x[0] == '"'
    ensures ParseColon(k, ": " + x) == ParseValue(k, x)
  {
    assert (": " + x)[1..] == " " + x;
    SkipBlankPrefix(" ", x);
    SkipWsNonBlank(x);
  }

  lemma ValueRoundTrip(k: string, v: string, rest: string)
    ensures ParseValue(k, Quote(v) + rest) == Some(((k, BString(v)), SkipWs(rest)))
  {
    var s := Quote(v) + rest;
    assert s[1..] == Escape(v) + "\"" + rest;
    LexEscaped(v, rest);
  }

  /** Every object this writer produces reads back as the same members, in order. */
  lemma {:induction false} MembersRoundTrip(doc: seq<(string, string)>)
    requires |doc| > 0
    ensures ParseMembers(Members(doc) + " }") == Some(AsBson(doc))
    decreases |doc|
  {
    if |doc| == 1 {
      SingleMemberRoundTrip(doc);
    } else {
      MembersRoundTrip(doc[1..]);
      MoreMembersRoundTrip(doc);
    }
  }

  lemma SingleMemberRoundTrip(doc: seq<(string, string)>)
    requires |doc| == 1
    ensures ParseMembers(Members(doc) + " }") == Some(AsBson(doc))
  {
    var text := Members(doc) + " }";
    assert text == WriteMember(doc[0].0, doc[0].1) + " }";
    MemberRoundTrip(doc[0].0, doc[0].1, " }");
    SkipBlankPrefix(" ", "}");
    SkipWsNonBlank("}");
    LastMember(text, (doc[0].0, BString(doc[0].1)));
    assert AsBson(doc) == [(doc[0].0, BString(doc[0].1))];
  }

  lemma MoreMembersRoundTrip(doc: seq<(string, string)>)
    requires |doc| > 1
    requires ParseMembers(Members(doc[1..]) + " }") == Some(AsBson(doc[1..]))
    ensures ParseMembers(Members(doc) + " }") == Some(AsBson(doc))
  {
    MembersCons(doc);
    MembersStartWithQuote(doc[1..]);
    ConsMember(doc[0].0, doc[0].1, Members(doc[1..]) + " }", AsBson(doc[1..]));
    AsBsonCons(doc);
  }

  lemma AsBsonCons(doc: seq<(string, string)>)
    requires |doc| > 0
    ensures AsBson(doc) == [(doc[0].0, BString(doc[0].1))] + AsBson(doc[1..])
  {
    var r := [(doc[0].0, BString(doc[0].1))] + AsBson(doc[1..]);
    assert forall i :: 0 <= i < |doc| ==> r[i] == AsBson(doc)[i];
  }

  lemma MembersCons(doc: seq<(string, string)>)
    requires |doc| > 1
    ensures Members(doc) + " }" == WriteMember(doc[0].0, doc[0].1) + (", " + (Members(doc[1..]) + " }"))
  {
  }

  /** A written member in front of a comma and further members. */
  lemma ConsMember(k: string, v: string, tailText: string, ms: Document)
    requires |tailText| > 0 && tailText[0] == '"'
    requires ParseMembers(tailText) == Some(ms)
    ensures ParseMembers(WriteMember(k, v) + (", " + tailText)) == Some([(k, BString(v))] + ms)
  {
    MemberRoundTrip(k, v, ", " + tailText);
    SkipWsNonBlank(", " + tailText);
    NextMember(WriteMember(k, v) + (", " + tailText), (k, BString(v)), tailText, ms);
  }

  lemma MembersStartWithQuote(doc: seq<(string, string)>)
    requires |doc| > 0
    ensures |Members(doc)| > 0 && Members(doc)[0] == '"'
  {
  }

  /** Every object this writer produces reads back as the same members, in order. */
  lemma RoundTrip(doc: seq<(string, string)>)
    ensures Parse(Write(doc)) == Some(AsBson(doc))
  {
    var text := Write(doc);
    SkipWsNonBlank(text);
    if |doc| == 0 {
      assert text == "{  }";
      assert text[1..] == "  " + "}";
      SkipBlankPrefix("  ", "}");
      SkipWsNonBlank("}");
      assert SkipWs("}"[1..]) == [];
    } else {
      assert text[1..] == " " + (Members(doc) + " }");
      MembersStartWithQuote(doc);
      SkipBlankPrefix(" ", Members(doc) + " }");
      SkipWsNonBlank(Members(doc) + " }");
      MembersRoundTrip(doc);
    }
  }

  /** An object opened by a brace and a space, followed by a member. */
  lemma OpenObject(x: string)
    requires |x| > 0 && x[0] == '"'
    ensures Parse("{ " + x) == ParseMembers(x)
  {
    OpenBrace(x);
    SkipWsNonBlank("{ " + x);
    SkipBlankPrefix(" ", x);
    SkipWsNonBlank(x);
  }

  /** No character that escaping would change. */
  predicate IsPlain(s: string) {
    forall i :: 0 <= i < |s| ==> s[i] != '"' && s[i] != '\\'
  }

  lemma PlainMember(k: string, v: string)
    requires IsPlain(k) && IsPlain(v)
    ensures WriteMember(k, v) == RawMember(k, v)
  {
    EscapePlain(k);
    EscapePlain(v);
  }

  /** Text with no quote and no backslash is written unchanged. */
  lemma {:induction false} EscapePlain(s: string)
    requires IsPlain(s)
    ensures Escape(s) == s
  {
    if |s| > 0 {
      EscapePlain(s[1..]);
      assert [s[0]] + s[1..] == s;
    }
  }
}
