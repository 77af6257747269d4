/** Decimal text and the JavaScript number parsers the core calls:
    `String(n)` for integers, `parseInt(s, 10)` and `parseFloat(s)`.
    Numbers are exact: an integer is an `int`, a `parseFloat` result a
    `real` (IEEE-754 rounding is not modelled). */
module JsNumbers {
  import opened Wrappers
  import Text

  predicate IsDigit(c: char)
  {
    '0' <= c <= '9'
  }

  predicate AllDigits(s: string)
  {
    forall i :: 0 <= i < |s| ==> IsDigit(s[i])
  }

  function DigitChar(d: nat): (c: char)
    requires d < 10
    ensures IsDigit(c)
  {
    ('0' as int + d) as char
  }

  /** Decimal digits of `n`, without leading zeros. */
  function NatText(n: nat): (r: string)
    ensures |r| > 0 && AllDigits(r)
    ensures r[0] == '0' ==> n == 0
  {
    if n < 10 then [DigitChar(n)] else NatText(n / 10) + [DigitChar(n % 10)]
  }

  /** `String(n)` for an integer `n`. */
  function IntText(n: int): string
  {
    if n < 0 then "-" + NatText(-n) else NatText(n)
  }

  /** How many digits `s` starts with. */
  function LeadingDigits(s: string): (k: nat)
    ensures k <= |s|
    ensures forall i :: 0 <= i < k ==> IsDigit(s[i])
    ensures k < |s| ==> !IsDigit(s[k])
  {
    if |s| > 0 && IsDigit(s[0]) then 1 + LeadingDigits(s[1..]) else 0
  }

  /** The value of a string of decimal digits (0 for the empty string). */
  function DigitsValue(d: string): nat
    requires AllDigits(d)
  {
    if |d| == 0 then 0
    else
      assert IsDigit(d[|d| - 1]);
      DigitsValue(d[..|d| - 1]) * 10 + (d[|d| - 1] as int - '0' as int)
  }

  lemma {:induction false} NatTextValue(n: nat)
    ensures DigitsValue(NatText(n)) == n
  {
    if n >= 10 {
      NatTextValue(n / 10);
      var t := NatText(n);
      assert t[..|t| - 1] == NatText(n / 10);
    }
  }

  lemma {:induction false} LeadingDigitsOf(t: string, rest: string)
    requires AllDigits(t)
    requires rest == [] || !IsDigit(rest[0])
    ensures LeadingDigits(t + rest) == |t|
  {
    if |t| > 0 {
      assert (t + rest)[1..] == t[1..] + rest;
      LeadingDigitsOf(t[1..], rest);
    } else {
      assert t + rest == rest;
    }
  }

  // ---------------------------------------------------------------------
  // parseInt(s, 10)

  /** `parseInt(s, 10)`: leading whitespace skipped, an optional sign, then
      the longest run of digits; `None` stands for NaN (no digit). */
  function ParseInt(s: string): (r: Option<int>)
  {
    var t := Text.TrimStart(s);
    var negative := |t| > 0 && t[0] == '-';
    var u := if |t| > 0 && (t[0] == '-' || t[0] == '+') then t[1..] else t;
    var k := LeadingDigits(u);
    if k == 0 then None
    else if negative then Some(-(DigitsValue(u[..k]) as int))
    else Some(DigitsValue(u[..k]))
  }

  /** `parseInt` reads back what `String` writes for an integer. */
  lemma ParseIntOfIntText(n: int)
    ensures ParseInt(IntText(n)) == Some(n)
  {
    var s := IntText(n);
    var m: nat := if n < 0 then -n else n;
    var d := NatText(m);
    NatTextValue(m);
    LeadingDigitsOf(d, "");
    assert d + "" == d && d[..|d|] == d;
    if n < 0 {
      assert s[0] == '-' && s[1..] == d;
      NoLeadingWhitespace(s);
    } else {
      DigitIsNotWhitespace(d[0]);
      NoLeadingWhitespace(s);
    }
  }

  lemma DigitIsNotWhitespace(c: char)
    requires IsDigit(c)
    ensures !Text.IsJsWhitespace(c)
  {
  }

  lemma NoLeadingWhitespace(s: string)
    requires |s| > 0 && (s[0] == '-' || IsDigit(s[0]))
    ensures Text.TrimStart(s) == s
  {
    assert !Text.IsJsWhitespace(s[0]);
  }

  // ---------------------------------------------------------------------
  // parseFloat(s)

  /** A non-NaN number: a finite value or a signed infinity. */
  datatype Num = Finite(value: real) | Infinity(negative: bool)

  /** `x < bound` for a non-NaN number. */
  predicate LessThan(x: Num, bound: real)
  {
    match x
    case Finite(v) => v < bound
    case Infinity(negative) => negative
  }

  function Pow10(k: nat): (r: nat)
    ensures r >= 1
  {
    if k == 0 then 1 else 10 * Pow10(k - 1)
  }

  /** The signed exponent written at position `p` of `u` (`e` or `E`, an
      optional sign, at least one digit), or 0 when there is none. */
  function ExponentAt(u: string, p: nat): int
  {
    if p < |u| && (u[p] == 'e' || u[p] == 'E') then
      var signed := p + 1 < |u| && (u[p + 1] == '+' || u[p + 1] == '-');
      var q := if signed then p + 2 else p + 1;
      if q <= |u| then
        var k := LeadingDigits(u[q..]);
        if k == 0 then 0
        else if signed && u[p + 1] == '-' then -(DigitsValue(u[q..q + k]) as int)
        else DigitsValue(u[q..q + k])
      else 0
    else 0
  }

  function Scale(e: int): (r: real)
    ensures r > 0.0
  {
    if e >= 0 then Pow10(e) as real else 1.0 / Pow10(-e) as real
  }

  /** The value of the longest unsigned decimal literal at the start of
      `u`: digits, an optional fraction and an optional exponent; `None`
      when there is no digit before or after the point. */
  function DecimalPrefix(u: string): Option<real>
  {
    var k1 := LeadingDigits(u);
    var hasPoint := k1 < |u| && u[k1] == '.';
    var k2 := if hasPoint then LeadingDigits(u[k1 + 1..]) else 0;
    if k1 == 0 && k2 == 0 then None
    else
      var whole := DigitsValue(u[..k1]) as real;
      var fraction := if hasPoint then DigitsValue(u[k1 + 1..k1 + 1 + k2]) as real / Pow10(k2) as real else 0.0;
      var p := if hasPoint then k1 + 1 + k2 else k1;
      Some((whole + fraction) * Scale(ExponentAt(u, p)))
  }

  /** `parseFloat(s)`: leading whitespace skipped, an optional sign, then
      `Infinity` or the longest decimal literal; `None` stands for NaN. */
  function ParseFloat(s: string): Option<Num>
  {
    ParseFloatTrimmed(Text.TrimStart(s))
  }

  /** `parseFloat` once the leading whitespace is gone: a `-` negates
      what follows, a `+` is skipped. */
  function ParseFloatTrimmed(t: string): Option<Num>
  {
    if |t| > 0 && t[0] == '-' then Negated(UnsignedFloat(t[1..]))
    else if |t| > 0 && t[0] == '+' then UnsignedFloat(t[1..])
    else UnsignedFloat(t)
  }

  /** `Infinity` or the longest decimal literal, without a sign. */
  function UnsignedFloat(u: string): (r: Option<Num>)
    ensures r.Some? && r.value.Infinity? ==> !r.value.negative
  {
    if |u| >= 8 && u[..8] == "Infinity" then Some(Infinity(false))
    else
      match DecimalPrefix(u)
      case None => None
      case Some(m) => Some(Finite(m))
  }

  function Negated(x: Option<Num>): Option<Num>
  {
    match x
    case None => None
    case Some(Finite(v)) => Some(Finite(-v))
    case Some(Infinity(negative)) => Some(Infinity(!negative))
  }

  /** `parseFloat` reads a plain digit string as its integer value. */
  lemma ParseFloatOfNatText(n: nat)
    ensures ParseFloat(NatText(n)) == Some(Finite(n as real))
  {
    var t := NatText(n);
    NatTextValue(n);
    ParseFloatOfDigits(t);
  }

  lemma ParseFloatOfDigits(t: string)
    requires |t| > 0 && AllDigits(t)
    ensures ParseFloat(t) == Some(Finite(DigitsValue(t) as real))
  {
    DigitIsNotWhitespace(t[0]);
    NoLeadingWhitespace(t);
    DecimalPrefixOfDigits(t);
    NotInfinity(t);
    ParseFloatOfUnsigned(t, DigitsValue(t) as real);
  }

  lemma NotInfinity(u: string)
    requires |u| > 0 && IsDigit(u[0])
    ensures !(|u| >= 8 && u[..8] == "Infinity")
  {
    if |u| >= 8 {
      assert u[..8][0] == u[0];
    }
  }

  lemma ParseFloatOfUnsigned(u: string, m: real)
    requires Text.TrimStart(u) == u && |u| > 0 && IsDigit(u[0])
    requires !(|u| >= 8 && u[..8] == "Infinity")
    requires DecimalPrefix(u) == Some(m)
    ensures ParseFloat(u) == Some(Finite(m))
  {
    assert ParseFloat(u) == ParseFloatTrimmed(u) == UnsignedFloat(u);
  }

  lemma DecimalPrefixOfDigits(u: string)
    requires |u| > 0 && AllDigits(u)
    ensures DecimalPrefix(u) == Some(DigitsValue(u) as real)
  {
    LeadingDigitsOf(u, "");
    assert u + "" == u;
    var k1 := LeadingDigits(u);
    assert k1 == |u| && u[..k1] == u;
    assert ExponentAt(u, k1) == 0;
    ScaleZero();
    NoFraction(DigitsValue(u) as real);
  }

  lemma ScaleZero()
    ensures Scale(0) == 1.0
  {
  }

  lemma NoFraction(w: real)
    ensures (w + 0.0) * 1.0 == w
  {
  }
}
