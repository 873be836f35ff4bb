/**
 * The few JavaScript value rules the source relies on: truthiness of an
 * optional string (`if (s)`, `s || x`) and `Number(...)` coercion, restricted
 * to integers: the empty or blank string gives 0, a string of decimal digits
 * (with surrounding white space) gives its value, any other string gives NaN.
 */
module Js {
  import opened Wrappers
  import opened Text

  /** A JavaScript number as far as the model needs one: an integer or NaN. */
  datatype Num = Int(value: int) | NaN

  /** A value a JSON request field can hold. */
  datatype Value = Undefined | Null | Bool(b: bool) | Number(n: int) | Str(s: string)

  /** An optional string used as a condition: present and non-empty. */
  predicate Truthy(o: Option<string>) {
    o.Some? && o.value != ""
  }

  /** `o || ""`. */
  function OrEmpty(o: Option<string>): (r: string)
    ensures Truthy(o) ==> r == o.value
    ensures !Truthy(o) ==> r == ""
  {
    if o.Some? then o.value else ""
  }

  /** A number used as a condition: neither 0 nor NaN. */
  predicate TruthyNum(n: Num) {
    n.Int? && n.value != 0
  }

  /** `Number(s)` for a string (see the module comment for the restriction). */
  function StringToNumber(s: string): (n: Num)
    ensures IsBlank(s) ==> n == Int(0)
    ensures Trim(s) != [] && AllDigits(Trim(s)) ==> n == Int(DigitsValue(Trim(s)))
    ensures n.NaN? <==> !IsBlank(s) && !AllDigits(Trim(s))
    ensures n.Int? ==> n.value >= 0
  {
    var t := Trim(s);
    if t == [] then Int(0) else if AllDigits(t) then Int(DigitsValue(t)) else NaN
  }

  /** `Number(v)` for a request value. */
  function ToNumber(v: Value): (n: Num)
    ensures v.Undefined? ==> n == NaN
    ensures v.Null? ==> n == Int(0)
    ensures v.Number? ==> n == Int(v.n)
  {
    match v
    case Undefined => NaN
    case Null => Int(0)
    case Bool(b) => Int(if b then 1 else 0)
    case Number(k) => Int(k)
    case Str(s) => StringToNumber(s)
  }

  /** `Boolean(v)`. */
  function ToBoolean(v: Value): (b: bool)
    ensures v.Undefined? || v.Null? ==> !b
    ensures v.Str? ==> (b <==> v.s != "")
  {
    match v
    case Undefined => false
    case Null => false
    case Bool(x) => x
    case Number(k) => k != 0
    case Str(s) => s != ""
  }

  /** Rendering a number and coercing the text back gives the number. */
  lemma NumberOfRenderedNat(n: nat)
    ensures StringToNumber(NatToString(n)) == Int(n)
  {
    var s := NatToString(n);
    assert !IsSpace(s[0]) && !IsSpace(s[|s| - 1]);
    TrimOfTrimmed(s);
    NatToStringRoundTrip(n);
  }
}
