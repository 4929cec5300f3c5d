/** The dynamic values that flow through the pipeline (TypeScript's `any`),
    with the parts of JavaScript's type coercion the pipeline depends on:
    truthiness, conversion to a string (property keys, regular expression
    input) and conversion to a number (relational comparison with a number,
    `Number(...)`). */
module JsValues {
  import opened JsText

  datatype Option<T> = None | Some(value: T)

  /** A computation that either yields a value or throws an error with a message. */
  datatype Result<T> = Ok(value: T) | Err(error: string)

  /** A JavaScript value as read from a form, a configuration or a transform.
      Num holds a finite number; NaN and the infinities do not occur as values. */
  datatype Value =
    | Str(s: string)
    | Num(n: real)
    | Bool(b: bool)
    | Null
    | Undefined
    | Arr(items: seq<Value>)
    | Obj(fields: map<string, Value>)

  /** `v ?? x` falls back to x exactly for these. */
  predicate IsNullish(v: Value) {
    v.Null? || v.Undefined?
  }

  /** JavaScript truthiness (the test of `v ? a : b`). */
  predicate Truthy(v: Value) {
    match v
    case Str(s) => s != ""
    case Num(n) => n != 0.0
    case Bool(b) => b
    case Null => false
    case Undefined => false
    case Arr(_) => true
    case Obj(_) => true
  }

  predicate IsIntegral(x: real) {
    x.Floor as real == x
  }

  /** The string JavaScript prints for a number, where the model computes it:
      integers below 10^21 in magnitude. Other numbers print with a '.' or an
      exponent, which the model does not render. */
  function NumberForm(x: real): (r: Option<string>)
    ensures r.Some? <==> IsIntegral(x) && -1000000000000000000000.0 < x < 1000000000000000000000.0
  {
    if IsIntegral(x) && -1000000000000000000000.0 < x < 1000000000000000000000.0 then
      Some(IntToString(x.Floor))
    else None
  }

  /** String(v): the string a value converts to, used both as a property key
      and as the input of RegExp.prototype.test. None only for the numbers
      NumberForm does not render. An array converts to its elements' strings
      joined by ',', where null and undefined elements give "". */
  function StringForm(v: Value): Option<string>
  {
    match v
    case Str(s) => Some(s)
    case Num(x) => NumberForm(x)
    case Bool(b) => Some(if b then "true" else "false")
    case Null => Some("null")
    case Undefined => Some("undefined")
    case Obj(_) => Some("[object Object]")
    case Arr(items) =>
      var forms := seq(|items|, i requires 0 <= i < |items| =>
        if IsNullish(items[i]) then Some("") else StringForm(items[i]));
      if forall i :: 0 <= i < |forms| ==> forms[i].Some? then
        Some(Join(seq(|forms|, i requires 0 <= i < |forms| => forms[i].value), ','))
      else None
  }

  /** The outcome of JavaScript's ToNumber. */
  datatype Numeric = Finite(x: real) | PosInfinity | NegInfinity | NaN

  function Pow10(k: nat): (r: real)
    ensures r >= 1.0
  {
    if k == 0 then 1.0 else 10.0 * Pow10(k - 1)
  }

  /** The number of leading decimal digits of s. */
  function DigitRun(s: string): (n: nat)
    ensures n <= |s| && AllDigits(s[..n])
    ensures n < |s| ==> !IsDigit(s[n])
  {
    if s != [] && IsDigit(s[0]) then
      var m := DigitRun(s[1..]);
      assert s[..1 + m] == [s[0]] + s[1..][..m];
      1 + m
    else 0
  }

  /** The exponent part of a decimal literal: "" is 0, otherwise e or E, an
      optional sign and at least one digit, up to the end of the string. */
  function ExponentPart(s: string): Option<int>
  {
    if s == [] then Some(0)
    else if s[0] != 'e' && s[0] != 'E' then None
    else
      var rest := s[1..];
      var negative := rest != [] && rest[0] == '-';
      var digits := if rest != [] && (rest[0] == '-' || rest[0] == '+') then rest[1..] else rest;
      if digits != [] && AllDigits(digits) then
        Some(if negative then -(DigitsValue(digits) as int) else DigitsValue(digits) as int)
      else None
  }

  /** An unsigned decimal literal (digits with an optional fraction and
      exponent) spanning all of s. */
  function UnsignedDecimal(s: string): Option<real>
  {
    var a := DigitRun(s);
    var intDigits := s[..a];
    var afterInt := s[a..];
    var hasPoint := afterInt != [] && afterInt[0] == '.';
    var afterPoint := if hasPoint then afterInt[1..] else [];
    var b := DigitRun(afterPoint);
    var fracDigits := if hasPoint then afterPoint[..b] else [];
    var rest := if hasPoint then afterPoint[b..] else afterInt;
    if intDigits == [] && fracDigits == [] then None
    else
      var mantissa := DigitsValue(intDigits) as real
        + DigitsValue(fracDigits) as real / Pow10(|fracDigits|);
      match ExponentPart(rest)
      case None => None
      case Some(e) => Some(if e >= 0 then mantissa * Pow10(e) else mantissa / Pow10(-e))
  }

  /** The value of a digit in base 2, 8 or 16, if c is one. */
  function RadixDigit(c: char, radix: nat): Option<nat>
  {
    var d :=
      if '0' <= c <= '9' then c as int - '0' as int
      else if 'a' <= c <= 'f' then c as int - 'a' as int + 10
      else if 'A' <= c <= 'F' then c as int - 'A' as int + 10
      else 16;
    if d < radix then Some(d) else None
  }

  /** The value of a non-empty string of base-`radix` digits. */
  function RadixValue(s: string, radix: nat): Option<nat>
  {
    if s == [] then None
    else
      var last := RadixDigit(s[|s| - 1], radix);
      if last.None? then None
      else if |s| == 1 then Some(last.value)
      else match RadixValue(s[..|s| - 1], radix)
        case None => None
        case Some(front) => Some(front * radix + last.value)
  }

  /** Number(s) for a string: surrounding whitespace is ignored, the empty
      string is 0, "Infinity" with an optional sign, 0x/0o/0b integers and signed
      decimal literals are read, everything else is NaN. */
  function StringToNumber(s: string): Numeric
  {
    var t := Trim(s);
    if t == "" then Finite(0.0)
    else if t == "Infinity" || t == "+Infinity" then PosInfinity
    else if t == "-Infinity" then NegInfinity
    else if |t| >= 2 && t[0] == '0' && t[1] in "xXoObB" then
      var radix := if t[1] in "xX" then 16 else if t[1] in "oO" then 8 else 2;
      match RadixValue(t[2..], radix)
      case None => NaN
      case Some(n) => Finite(n as real)
    else
      var negative := t[0] == '-';
      var body := if t[0] == '-' || t[0] == '+' then t[1..] else t;
      match UnsignedDecimal(body)
      case None => NaN
      case Some(x) => Finite(if negative then -x else x)
  }

  /** Number(v), also what a relational comparison with a number applies to v.
      An object converts through "[object Object]"; an array through its
      string form, so only an empty or one-element array can be a number. */
  function ToNumber(v: Value): Numeric
  {
    match v
    case Num(x) => Finite(x)
    case Bool(b) => Finite(if b then 1.0 else 0.0)
    case Null => Finite(0.0)
    case Undefined => NaN
    case Str(s) => StringToNumber(s)
    case Obj(_) => NaN
    case Arr(items) =>
      if |items| == 0 then Finite(0.0)
      else if |items| > 1 then NaN
      else if IsNullish(items[0]) then Finite(0.0)
      else if items[0].Bool? then NaN
      else ToNumber(items[0])
  }

  /** trim() leaves a string of digits alone. */
  lemma TrimDigits(s: string)
    requires |s| >= 1 && AllDigits(s)
    ensures Trim(s) == s
  {
    assert IsDigit(s[0]) && IsDigit(s[|s| - 1]);
    TrimUnchanged(s);
  }

  /** A string of digits is none of the special forms Number(...) recognises. */
  lemma NotSpecial(s: string)
    requires |s| >= 1 && AllDigits(s)
    ensures s != "Infinity" && s != "+Infinity" && s != "-Infinity"
    ensures !(|s| >= 2 && s[0] == '0' && s[1] in "xXoObB")
    ensures s[0] != '-' && s[0] != '+'
  {
    assert IsDigit(s[0]);
    if |s| >= 2 { assert IsDigit(s[1]); }
  }

  /** A string of decimal digits converts to the number it spells. */
  lemma DigitStringToNumber(s: string)
    requires |s| >= 1 && AllDigits(s)
    ensures StringToNumber(s) == Finite(DigitsValue(s) as real)
  {
    TrimDigits(s);
    NotSpecial(s);
    UnsignedDecimalOfDigits(s);
  }

  /** A digit string read as an unsigned decimal literal is its value. */
  lemma UnsignedDecimalOfDigits(s: string)
    requires |s| >= 1 && AllDigits(s)
    ensures UnsignedDecimal(s) == Some(DigitsValue(s) as real)
  {
    DigitRunOfDigits(s);
    assert s[..|s|] == s;
    assert s[|s|..] == [];
    assert DigitRun([]) == 0;
    assert ExponentPart([]) == Some(0);
  }

  /** On a string of digits the digit run covers the whole string. */
  lemma {:induction false} DigitRunOfDigits(s: string)
    requires AllDigits(s)
    ensures DigitRun(s) == |s|
  {
    if s != [] {
      DigitRunOfDigits(s[1..]);
    }
  }
}
