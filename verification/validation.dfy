/**
 * The client's form validators that do not delegate to a library. Each
 * returns an error message, or a falsy value when the input passes: the
 * empty string for onlyPositive, undefined for the others.
 */
module Validation {
  import opened Common
  import opened Js

  /** The result of JavaScript's ToNumber: a finite number or NaN. */
  datatype NumberValue = Finite(value: real) | NotANumber

  /** The text a plain object converts to. */
  const ObjectText: string := "[object Object]"

  /**
   * ToNumber. `numberOf` is what Number() makes of a text (decimal parsing,
   * surrounding spaces, exponents); the model leaves that parser abstract.
   */
  function ToNumber(v: JsValue, numberOf: string -> NumberValue): (r: NumberValue)
    ensures v.Num? ==> r == Finite(v.n)
    ensures v.Str? ==> r == numberOf(v.s)
    ensures v.Undefined? || v.NaN? || v.Obj? ==> r == NotANumber
  {
    match v
    case Undefined => NotANumber
    case Null => Finite(0.0)
    case Bool(b) => Finite(if b then 1.0 else 0.0)
    case Num(n) => Finite(n)
    case NaN => NotANumber
    case Str(s) => numberOf(s)
    case Obj(_, _) => NotANumber
  }

  /** ToString, for the values a regular expression test converts. */
  function ToText(v: JsValue): (r: Option<string>)
    ensures v.Str? ==> r == Some(v.s)
    ensures r.None? <==> v.Num?
  {
    match v
    case Undefined => Some("undefined")
    case Null => Some("null")
    case Bool(b) => Some(if b then "true" else "false")
    case Num(_) => None
    case NaN => Some("NaN")
    case Str(s) => Some(s)
    case Obj(_, _) => Some(ObjectText)
  }

  /** The decimal text of an integer, as a template literal prints it. */
  function IntText(i: int): (r: string)
    ensures i >= 0 ==> r == NatToString(i)
    ensures i < 0 ==> r == "-" + NatToString(-i)
  {
    if i >= 0 then NatToString(i) else "-" + NatToString(-i)
  }

  const PositiveMessage: string := "Value must be a positive number"

  /** onlyPositive: '' exactly when Number(value) is a number above 0. */
  function OnlyPositive(value: JsValue, numberOf: string -> NumberValue): (r: JsValue)
    ensures r == Str("") <==> ToNumber(value, numberOf).Finite? && ToNumber(value, numberOf).value > 0.0
    ensures r != Str("") ==> r == Str(PositiveMessage)
  {
    match ToNumber(value, numberOf)
    case NotANumber => Str(PositiveMessage)
    case Finite(n) => if n <= 0.0 then Str(PositiveMessage) else Str("")
  }

  /**
   * isInRange, with the numeric bounds every caller passes: "Must be a
   * number" for NaN, a range message outside [min, max], undefined inside,
   * both bounds included.
   */
  function IsInRange(value: JsValue, min: int, max: int, numberOf: string -> NumberValue): (r: JsValue)
    ensures ToNumber(value, numberOf).NotANumber? ==> r == Str("Must be a number")
    ensures ToNumber(value, numberOf).Finite? ==>
              var n := ToNumber(value, numberOf).value;
              (r == Undefined <==> min as real <= n <= max as real)
              && (r != Undefined ==> r == Str("Must be between " + IntText(min) + " and " + IntText(max)))
  {
    match ToNumber(value, numberOf)
    case NotANumber => Str("Must be a number")
    case Finite(n) =>
      if n < min as real || n > max as real then Str("Must be between " + IntText(min) + " and " + IntText(max))
      else Undefined
  }

  /** JavaScript's \s: the white-space and line-terminator characters. */
  predicate IsSpace(c: char)
  {
    c == '\t' || c == '\n' || c == '\U{000B}' || c == '\U{000C}' || c == '\r' || c == ' '
    || c == '\U{00A0}' || c == '\U{1680}' || '\U{2000}' <= c <= '\U{200A}'
    || c == '\U{2028}' || c == '\U{2029}' || c == '\U{202F}' || c == '\U{205F}'
    || c == '\U{3000}' || c == '\U{FEFF}'
  }

  predicate IsAsciiLetter(c: char)
  {
    'A' <= c <= 'Z' || 'a' <= c <= 'z'
  }

  /** /^[A-Za-z\s]+$/: one or more letters and spaces, nothing else. */
  predicate AlphaWithSpace(s: string)
  {
    |s| > 0 && forall i :: 0 <= i < |s| ==> IsAsciiLetter(s[i]) || IsSpace(s[i])
  }

  /** isAlphaWithSpace: undefined exactly when the value's text is letters and spaces only. */
  function IsAlphaWithSpace(value: JsValue): (r: JsValue)
    ensures r == Undefined <==> ToText(value).Some? && AlphaWithSpace(ToText(value).value)
    ensures r != Undefined ==> r == Str("Only alphabetic characters and spaces are allowed")
  {
    var text := ToText(value);
    if text.Some? && AlphaWithSpace(text.value) then Undefined
    else Str("Only alphabetic characters and spaces are allowed")
  }

  /** A missing value passes: its text is "undefined", which is letters only. */
  lemma MissingValueIsAlpha()
    ensures IsAlphaWithSpace(Undefined) == Undefined
  {
    assert AlphaWithSpace("undefined") by {
      var s := "undefined";
      assert forall i :: 0 <= i < |s| ==> 'a' <= s[i] <= 'z';
    }
  }

  /**
   * ToPrimitive with the number hint: a plain object's valueOf is the object
   * itself, so its toString text is used; primitives are unchanged.
   */
  function ToPrimitive(v: JsValue): (r: JsValue)
    ensures !r.Obj?
    ensures v.Obj? ==> r == Str(ObjectText)
    ensures !v.Obj? ==> r == v
  {
    if v.Obj? then Str(ObjectText) else v
  }

  /**
   * JavaScript's `a > b`: both operands are made primitive first; two texts
   * then compare character by character, any other pair compares as numbers,
   * and NaN is greater than nothing.
   */
  predicate JsGreater(a: JsValue, b: JsValue, numberOf: string -> NumberValue)
  {
    var pa, pb := ToPrimitive(a), ToPrimitive(b);
    if pa.Str? && pb.Str? then JavaCompare(pa.s, pb.s) > 0
    else
      var x, y := ToNumber(pa, numberOf), ToNumber(pb, numberOf);
      x.Finite? && y.Finite? && x.value > y.value
  }

  /** An object against a text compares the object's text "[object Object]" with it. */
  lemma ObjectComparesAsText(fields: seq<(string, JsValue)>, json: string, s: string, numberOf: string -> NumberValue)
    ensures JsGreater(Obj(fields, json), Str(s), numberOf) <==> JavaCompare(ObjectText, s) > 0
    ensures JsGreater(Str(s), Obj(fields, json), numberOf) <==> JavaCompare(s, ObjectText) > 0
  {
  }

  const MinMaxMessage: string := "Correct minimum and maximum values"

  /** greaterThan as written: the message when value1 > value2, equal values passing. */
  function GreaterThan(value1: JsValue, value2: JsValue, numberOf: string -> NumberValue): (r: JsValue)
    ensures r == Str(MinMaxMessage) <==> JsGreater(value1, value2, numberOf)
    ensures r != Str(MinMaxMessage) ==> r == Undefined
  {
    if JsGreater(value1, value2, numberOf) then Str(MinMaxMessage) else Undefined
  }

  /** A minimum equal to its maximum passes: neither is greater than the other. */
  lemma EqualBoundsPass(v: JsValue, numberOf: string -> NumberValue)
    ensures GreaterThan(v, v, numberOf) == Undefined
  {
    var p := ToPrimitive(v);
    if p.Str? {
      JavaCompareZero(p.s, p.s);
    }
  }

  /**
   * The plan form hands greaterThan the text of its number inputs, so a
   * minimum of "9" against a maximum of "10" is compared as text and
   * refused, while "10" against "9" passes.
   */
  lemma GreaterThanComparesText(numberOf: string -> NumberValue)
    ensures GreaterThan(Str("9"), Str("10"), numberOf) == Str(MinMaxMessage)
    ensures GreaterThan(Str("10"), Str("9"), numberOf) == Undefined
  {
    assert JavaCompare("9", "10") == '9' as int - '1' as int;
    assert JavaCompare("10", "9") == '1' as int - '9' as int;
  }

  /** greaterThan as intended: both values converted by Number() before comparing. */
  function GreaterThanNumbers(value1: JsValue, value2: JsValue, numberOf: string -> NumberValue): (r: JsValue)
    ensures r == Str(MinMaxMessage) <==>
              ToNumber(value1, numberOf).Finite? && ToNumber(value2, numberOf).Finite?
              && ToNumber(value1, numberOf).value > ToNumber(value2, numberOf).value
    ensures r != Str(MinMaxMessage) ==> r == Undefined
  {
    var x, y := ToNumber(value1, numberOf), ToNumber(value2, numberOf);
    if x.Finite? && y.Finite? && x.value > y.value then Str(MinMaxMessage) else Undefined
  }

  /**
   * The numeric check refuses a minimum exactly when it exceeds the maximum:
   * "9" against "10" passes; on numbers it agrees with the code as written.
   */
  lemma NumericGreaterThanOrdersNumbers(numberOf: string -> NumberValue, a: real, b: real)
    requires numberOf("9") == Finite(9.0) && numberOf("10") == Finite(10.0)
    ensures GreaterThanNumbers(Str("9"), Str("10"), numberOf) == Undefined
    ensures GreaterThanNumbers(Str("10"), Str("9"), numberOf) == Str(MinMaxMessage)
    ensures GreaterThanNumbers(Num(a), Num(b), numberOf) == GreaterThan(Num(a), Num(b), numberOf)
  {
  }

  /**
   * Both kinds of success are falsy, so in `a || b` a passing first check
   * hands over to the second, and a failing one is what is reported.
   */
  lemma PassingChecksFallThrough(value: JsValue, other: JsValue, numberOf: string -> NumberValue)
    ensures OnlyPositive(value, numberOf) == Str("") ==> Or(OnlyPositive(value, numberOf), other) == other
    ensures OnlyPositive(value, numberOf) != Str("") ==>
              Or(OnlyPositive(value, numberOf), other) == Str(PositiveMessage)
    ensures !Truthy(IsAlphaWithSpace(value)) ==> Or(IsAlphaWithSpace(value), other) == other
  {
  }
}
