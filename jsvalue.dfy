/** The JavaScript values that reach the request handlers and components, and the three
    coercions they apply to them: truthiness, `Number(x)` and `String(x)`. Numbers are
    integers here; fractions, exponents and Infinity are not part of this model. */
module JsValue {
  import opened Text

  datatype Option<+T> = None | Some(value: T) {
    /** `x ?? d` for a value that is either present or null/undefined. */
    function GetOr(d: T): T {
      match this
      case Some(v) => v
      case None => d
    }
  }

  /** A scalar JSON field as a handler reads it: absent (`undefined`), `null`, a
      boolean, an integer or a string. */
  datatype Value = Undefined | Null | Bool(b: bool) | Num(n: int) | Str(s: string)

  /** What `Number(x)` gives: NaN, or an integer. */
  datatype Number = NaN | Int(n: int)

  /** `x == null`, which also holds of `undefined`. */
  predicate IsNullish(v: Value) {
    v.Undefined? || v.Null?
  }

  /** The nullish-coalescing operator `v ?? d`. */
  function Coalesce(v: Value, d: Value): (r: Value)
    ensures !IsNullish(v) ==> r == v
    ensures IsNullish(v) ==> r == d
  {
    if IsNullish(v) then d else v
  }

  /** JavaScript truthiness (`if (v)`, `v || d`). */
  predicate Truthy(v: Value) {
    match v
    case Undefined => false
    case Null => false
    case Bool(b) => b
    case Num(n) => n != 0
    case Str(s) => s != ""
  }

  // ---------------------------------------------------------------- decimal digits

  predicate IsDigit(c: char) {
    '0' <= c <= '9'
  }

  predicate AllDigits(s: string) {
    forall i :: 0 <= i < |s| ==> IsDigit(s[i])
  }

  function DigitChar(d: nat): char
    requires d < 10
  {
    ('0' as int + d) as char
  }

  /** The shortest decimal spelling of a natural number. */
  function Digits(n: nat): (r: string)
    decreases n
  {
    if n < 10 then [DigitChar(n)] else Digits(n / 10) + [DigitChar(n % 10)]
  }

  /** The value of a string of decimal digits. */
  function DigitsValue(s: string): nat
    requires AllDigits(s)
  {
    if s == [] then 0 else DigitsValue(s[..|s| - 1]) * 10 + (s[|s| - 1] as int - '0' as int)
  }

  /** `String(n)` for an integer. */
  function DecimalString(n: int): string {
    if n < 0 then "-" + Digits(-n) else Digits(n)
  }

  /** `Number(s)` for a string: surrounding white space is ignored, the empty string is
      0, an optionally signed run of decimal digits is its value, anything else NaN. */
  function StringToNumber(s: string): (r: Number)
    ensures IsBlank(s) ==> r == Int(0)
  {
    var t := Trim(s);
    if t == [] then Int(0)
    else if AllDigits(t) then Int(DigitsValue(t))
    else if |t| > 1 && t[0] == '-' && AllDigits(t[1..]) then Int(-(DigitsValue(t[1..]) as int))
    else if |t| > 1 && t[0] == '+' && AllDigits(t[1..]) then Int(DigitsValue(t[1..]))
    else NaN
  }

  /** `Number(v)`. */
  function ToNumber(v: Value): (r: Number)
    ensures v.Num? ==> r == Int(v.n)
    ensures v.Null? ==> r == Int(0)
    ensures v.Undefined? ==> r == NaN
  {
    match v
    case Undefined => NaN
    case Null => Int(0)
    case Bool(b) => Int(if b then 1 else 0)
    case Num(n) => Int(n)
    case Str(s) => StringToNumber(s)
  }

  /** `String(v)`. */
  function ToString(v: Value): (r: string)
    ensures v.Str? ==> r == v.s
  {
    match v
    case Undefined => "undefined"
    case Null => "null"
    case Bool(b) => if b then "true" else "false"
    case Num(n) => DecimalString(n)
    case Str(s) => s
  }

  lemma {:induction false} DigitsRoundTrip(n: nat)
    ensures AllDigits(Digits(n)) && Digits(n) != []
    ensures DigitsValue(Digits(n)) == n
    decreases n
  {
    if n >= 10 {
      DigitsRoundTrip(n / 10);
      var s := Digits(n);
      assert s[..|s| - 1] == Digits(n / 10);
    }
  }

  /** A decimal spelling is read back as the number it spells: `Number(String(n)) == n`. */
  lemma NumberOfDecimalString(n: int)
    ensures ToNumber(Str(ToString(Num(n)))) == Int(n)
  {
    var s := DecimalString(n);
    var m: nat := if n < 0 then -n else n;
    var d := Digits(m);
    DigitsRoundTrip(m);
    assert !IsSpace(d[0]) && !IsSpace(d[|d| - 1]);
    if n < 0 {
      assert s == "-" + d && s[1..] == d && s[|s| - 1] == d[|d| - 1];
      assert Unpadded(s);
      TrimOfUnpadded(s);
      assert !AllDigits(s) by { assert !IsDigit(s[0]); }
      assert StringToNumber(s) == Int(-(DigitsValue(d) as int));
    } else {
      assert s == d;
      TrimOfUnpadded(s);
      assert StringToNumber(s) == Int(DigitsValue(d));
    }
  }

  /** `Number(" 42 ") == Number("42")`: padding never changes the number a string denotes. */
  lemma NumberIgnoresPadding(a: string, s: string, b: string)
    requires IsBlank(a) && IsBlank(b)
    ensures StringToNumber(a + s + b) == StringToNumber(s)
  {
    TrimIgnoresPadding(a, s, b);
  }
}
