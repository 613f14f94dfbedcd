/** DynamicForm: `validate` and the submit gate of `handleSubmit`. Form values are
    JavaScript values; a field absent from the values object reads as `undefined`. */
module FormValidation {
  import opened Wrappers
  import opened Text

  datatype JsValue = Undefined | Null | Bool(b: bool) | Num(n: int) | Str(s: string)

  /** `IFieldConfig`, reduced to what `validate` reads; an absent length limit is `None`. */
  datatype FieldConfig = FieldConfig(name: string, fieldType: string, required: bool,
                                     maxLength: Option<int>, minLength: Option<int>)

  const RequiredMessage: string := "Este campo es obligatorio"
  const EmailMessage: string := "Correo inválido"

  function MaxMessage(n: int): string { "Máximo " + IntToString(n) + " caracteres" }
  function MinMessage(n: int): string { "Mínimo " + IntToString(n) + " caracteres" }

  /** JavaScript falsiness (NaN and -0 are not modelled). */
  predicate Falsy(v: JsValue) {
    v.Undefined? || v.Null? || v == Bool(false) || v == Num(0) || v == Str("")
  }

  /** A length limit is in force when it is present and not zero. */
  predicate LimitSet(limit: Option<int>) {
    limit.Some? && limit.value != 0
  }

  /** `value.length`: only strings have one; comparing `undefined` with a number is false. */
  function Length(v: JsValue): Option<int> {
    if v.Str? then Some(|v.s|) else None
  }

  /** `String(value)`, as `RegExp.test` converts its argument. */
  function ToJsString(v: JsValue): string {
    match v
    case Undefined => "undefined"
    case Null => "null"
    case Bool(b) => if b then "true" else "false"
    case Num(n) => IntToString(n)
    case Str(s) => s
  }

  /** A character `[^\s@]` matches. */
  predicate Plain(c: char) {
    !IsJsWhiteSpace(c) && c != '@'
  }

  /** What `/^[^\s@]+@[^\s@]+\.[^\s@]+$/` accepts: a non-empty local part, one '@',
      then a domain with a '.' that is neither its first nor its last character, and
      no whitespace or second '@' anywhere. */
  predicate EmailShape(s: string) {
    exists at, dot :: 0 < at && at + 1 < dot < |s| - 1 && s[at] == '@' && s[dot] == '.'
      && forall j :: 0 <= j < |s| && j != at ==> Plain(s[j])
  }

  /** One left-to-right scan deciding `EmailShape`. */
  method IsEmail(s: string) returns (ok: bool)
    ensures ok <==> EmailShape(s)
  {
    var at := -1;
    var i := 0;
    while i < |s|
      invariant 0 <= i <= |s|
      invariant forall j :: 0 <= j < i ==> !IsJsWhiteSpace(s[j])
      invariant at == -1 ==> forall j :: 0 <= j < i ==> s[j] != '@'
      invariant at != -1 ==> 0 <= at < i && s[at] == '@' && forall j :: 0 <= j < i && j != at ==> s[j] != '@'
    {
      if IsJsWhiteSpace(s[i]) {
        return false;
      }
      if s[i] == '@' {
        if at != -1 {
          return false;
        }
        at := i;
      }
      i := i + 1;
    }
    if at <= 0 {
      return false;
    }
    var k := at + 2;
    while k < |s| - 1
      invariant at + 2 <= k
      invariant forall j :: at + 2 <= j < k && j < |s| - 1 ==> s[j] != '.'
    {
      if s[k] == '.' {
        assert forall j :: 0 <= j < |s| && j != at ==> Plain(s[j]);
        return true;
      }
      k := k + 1;
    }
    return false;
  }

  /** The four checks `validate` makes of one field, stated independently of their order. */
  predicate MissingRequired(f: FieldConfig, v: JsValue) {
    f.required && Falsy(v)
  }

  predicate BadEmail(f: FieldConfig, v: JsValue) {
    f.fieldType == "email" && !Falsy(v) && !EmailShape(ToJsString(v))
  }

  predicate TooLong(f: FieldConfig, v: JsValue) {
    LimitSet(f.maxLength) && !Falsy(v) && Length(v).Some? && Length(v).value > f.maxLength.value
  }

  predicate TooShort(f: FieldConfig, v: JsValue) {
    LimitSet(f.minLength) && !Falsy(v) && Length(v).Some? && Length(v).value < f.minLength.value
  }

  /** The message one field ends with: each failing check overwrites the one before it. */
  function FieldError(f: FieldConfig, v: JsValue): (r: Option<string>)
    ensures r.None? <==> !MissingRequired(f, v) && !BadEmail(f, v) && !TooLong(f, v) && !TooShort(f, v)
    ensures TooShort(f, v) ==> r == Some(MinMessage(f.minLength.value))
    ensures !TooShort(f, v) && TooLong(f, v) ==> r == Some(MaxMessage(f.maxLength.value))
    ensures !TooShort(f, v) && !TooLong(f, v) && BadEmail(f, v) ==> r == Some(EmailMessage)
    ensures Falsy(v) ==> r == (if f.required then Some(RequiredMessage) else None)
  {
    var required := if f.required && Falsy(v) then Some(RequiredMessage) else None;
    var email := if f.fieldType == "email" && !Falsy(v) && !EmailShape(ToJsString(v)) then Some(EmailMessage) else required;
    var max := if TooLong(f, v) then Some(MaxMessage(f.maxLength.value)) else email;
    if TooShort(f, v) then Some(MinMessage(f.minLength.value)) else max
  }

  /** `values[field.name]`: a missing key reads as `undefined`. */
  function Lookup(values: map<string, JsValue>, name: string): JsValue {
    if name in values then values[name] else Undefined
  }

  /** `validate`: the fields in order, each failing field writing its message under its name. */
  function Validate(fields: seq<FieldConfig>, values: map<string, JsValue>): (r: map<string, string>)
    ensures forall k :: k in r ==> exists i :: 0 <= i < |fields| && fields[i].name == k
  {
    if |fields| == 0 then map[]
    else
      var f := fields[|fields| - 1];
      var before := Validate(fields[..|fields| - 1], values);
      match FieldError(f, Lookup(values, f.name))
      case Some(e) => before[f.name := e]
      case None => before
  }

  predicate Fails(f: FieldConfig, values: map<string, JsValue>) {
    FieldError(f, Lookup(values, f.name)).Some?
  }

  /** A name carries an error exactly when some field of that name fails. */
  lemma {:induction false} ValidateKeys(fields: seq<FieldConfig>, values: map<string, JsValue>, k: string)
    ensures k in Validate(fields, values) <==> exists i :: 0 <= i < |fields| && fields[i].name == k && Fails(fields[i], values)
    decreases |fields|
  {
    if |fields| > 0 {
      var init := fields[..|fields| - 1];
      ValidateKeys(init, values, k);
      if exists i :: 0 <= i < |init| && init[i].name == k && Fails(init[i], values) {
        var i :| 0 <= i < |init| && init[i].name == k && Fails(init[i], values);
        assert fields[i] == init[i];
      }
      if exists i :: 0 <= i < |fields| && fields[i].name == k && Fails(fields[i], values) {
        var i :| 0 <= i < |fields| && fields[i].name == k && Fails(fields[i], values);
        if i < |init| {
          assert init[i] == fields[i];
        }
      }
    }
  }

  /** The message under a name is the one of the last failing field of that name. */
  lemma {:induction false} ValidateMessage(fields: seq<FieldConfig>, values: map<string, JsValue>, i: nat)
    requires i < |fields| && Fails(fields[i], values)
    requires forall j :: i < j < |fields| ==> fields[j].name != fields[i].name || !Fails(fields[j], values)
    ensures fields[i].name in Validate(fields, values)
    ensures Validate(fields, values)[fields[i].name] == FieldError(fields[i], Lookup(values, fields[i].name)).value
    decreases |fields|
  {
    if i < |fields| - 1 {
      var init := fields[..|fields| - 1];
      assert init[i] == fields[i];
      ValidateMessage(init, values, i);
    }
  }

  /** `handleSubmit` calls `onSubmit` only when `validate` returns no key. */
  predicate Submits(fields: seq<FieldConfig>, values: map<string, JsValue>) {
    |Validate(fields, values)| == 0
  }

  /** The form is submitted exactly when no field fails its checks. */
  lemma SubmitsIffNothingFails(fields: seq<FieldConfig>, values: map<string, JsValue>)
    ensures Submits(fields, values) <==> forall i :: 0 <= i < |fields| ==> !Fails(fields[i], values)
  {
    var errors := Validate(fields, values);
    if errors != map[] {
      var k :| k in errors;
      ValidateKeys(fields, values, k);
    } else {
      forall i | 0 <= i < |fields|
        ensures !Fails(fields[i], values)
      {
        ValidateKeys(fields, values, fields[i].name);
      }
    }
  }

  /** `handleBlur` validates `{ ...values, [name]: values[name] }`, which is the same as
      validating `values`: an absent name is written back as `undefined`. */
  lemma BlurValidatesAll(fields: seq<FieldConfig>, values: map<string, JsValue>, name: string)
    ensures Validate(fields, values[name := Lookup(values, name)]) == Validate(fields, values)
  {
    var blurred := values[name := Lookup(values, name)];
    assert forall k :: Lookup(blurred, k) == Lookup(values, k);
    BlurValidatesSame(fields, values, blurred);
  }

  lemma {:induction false} BlurValidatesSame(fields: seq<FieldConfig>, a: map<string, JsValue>, b: map<string, JsValue>)
    requires forall k :: Lookup(a, k) == Lookup(b, k)
    ensures Validate(fields, a) == Validate(fields, b)
    decreases |fields|
  {
    if |fields| > 0 {
      BlurValidatesSame(fields[..|fields| - 1], a, b);
    }
  }
}
