/** Java's numeric conversions as the game uses them: Integer.parseInt,
    Long.parseLong and Double.parseDouble on decimal text, the truncating and
    saturating `(long)` cast, the bit test `(n & 2^k) != 0`, and just enough
    of IEEE-754 (infinities and NaN) to follow a division by zero. */
module JavaNumbers {
  import opened JavaLang

  const INT_MIN: int := -0x8000_0000
  const INT_MAX: int := 0x7FFF_FFFF
  const LONG_MIN: int := -0x8000_0000_0000_0000
  const LONG_MAX: int := 0x7FFF_FFFF_FFFF_FFFF

  predicate IsDigit(c: char) {
    '0' <= c <= '9'
  }

  predicate AllDigits(s: string) {
    forall i :: 0 <= i < |s| ==> IsDigit(s[i])
  }

  /** The value of a string of decimal digits, most significant first. */
  function DigitsValue(s: string): nat
    requires AllDigits(s)
    decreases |s|
  {
    if s == [] then 0 else 10 * DigitsValue(s[..|s| - 1]) + (s[|s| - 1] as int - '0' as int)
  }

  /** The shortest decimal spelling of a natural number. */
  function Decimal(n: nat): (s: string)
    ensures |s| >= 1 && AllDigits(s)
    decreases n
  {
    if n < 10 then [('0' as int + n) as char]
    else Decimal(n / 10) + [('0' as int + n % 10) as char]
  }

  lemma {:induction false} DigitsOfDecimal(n: nat)
    ensures DigitsValue(Decimal(n)) == n
    decreases n
  {
    if n >= 10 {
      DigitsOfDecimal(n / 10);
      var s := Decimal(n);
      assert s[..|s| - 1] == Decimal(n / 10);
    }
  }

  /** Integer.toString / Long.toString. */
  function Show(n: int): (s: string)
    ensures |s| >= 1
  {
    if n < 0 then "-" + Decimal(-n) else Decimal(n)
  }

  /** Integer.parseInt (bounds of int) and Long.parseLong (bounds of long):
      an optional sign followed by at least one decimal digit, whose value
      lies within `lo..hi`; anything else is a NumberFormatException. */
  function ParseIntegral(s: string, lo: int, hi: int): (r: Result<int>)
    ensures r.Ok? ==> lo <= r.value <= hi
    ensures r.Ok? ==> |s| >= 1 && (IsDigit(s[0]) || ((s[0] == '-' || s[0] == '+') && |s| >= 2))
    ensures r.Ok? ==> AllDigits(s[1..])
    ensures r.Thrown? ==> r.error == NumberFormat
  {
    if |s| == 0 then Thrown(NumberFormat)
    else
      var digits := if s[0] == '-' || s[0] == '+' then s[1..] else s;
      if |digits| == 0 || !AllDigits(digits) then Thrown(NumberFormat)
      else
        var v: int := if s[0] == '-' then -(DigitsValue(digits) as int) else DigitsValue(digits);
        if lo <= v <= hi then Ok(v) else Thrown(NumberFormat)
  }

  function ParseInt(s: string): (r: Result<int>)
    ensures r.Ok? ==> INT_MIN <= r.value <= INT_MAX
  {
    ParseIntegral(s, INT_MIN, INT_MAX)
  }

  function ParseLong(s: string): (r: Result<int>)
    ensures r.Ok? ==> LONG_MIN <= r.value <= LONG_MAX
  {
    ParseIntegral(s, LONG_MIN, LONG_MAX)
  }

  /** Parsing what toString printed gives the number back. */
  lemma {:induction false} ParseShow(n: int, lo: int, hi: int)
    requires lo <= n <= hi
    ensures ParseIntegral(Show(n), lo, hi) == Ok(n)
  {
    var s := Show(n);
    if n < 0 {
      var d := Decimal(-n);
      DigitsOfDecimal(-n);
      assert s[0] == '-' && s[1..] == d;
      assert |d| >= 1 && AllDigits(d);
    } else {
      var d := Decimal(n);
      DigitsOfDecimal(n);
      assert s == d && IsDigit(d[0]);
    }
  }

  /** Position of the first exponent marker `e` or `E`, or the length when none. */
  function ExponentAt(s: string): (k: nat)
    ensures k <= |s|
    ensures forall i :: 0 <= i < k ==> s[i] != 'e' && s[i] != 'E'
    ensures k < |s| ==> s[k] == 'e' || s[k] == 'E'
  {
    if |s| == 0 || s[0] == 'e' || s[0] == 'E' then 0 else 1 + ExponentAt(s[1..])
  }

  function Pow10(n: nat): (p: nat)
    ensures p >= 1
  {
    if n == 0 then 1 else 10 * Pow10(n - 1)
  }

  /** Digits with at most one decimal point and at least one digit. */
  function Mantissa(s: string): (r: Result<real>)
    ensures r.Thrown? ==> r.error == NumberFormat
  {
    var intPart := if '.' in s then s[..IndexOf(s, '.')] else s;
    var fracPart := if '.' in s then s[IndexOf(s, '.') + 1..] else "";
    if !AllDigits(intPart) || !AllDigits(fracPart) || |intPart| + |fracPart| == 0 then Thrown(NumberFormat)
    else Ok(DigitsValue(intPart + fracPart) as real / Pow10(|fracPart|) as real)
  }

  /** An optional sign followed by at least one digit. */
  function Exponent(s: string): (r: Result<int>)
    ensures r.Thrown? ==> r.error == NumberFormat
  {
    var digits := if |s| > 0 && (s[0] == '-' || s[0] == '+') then s[1..] else s;
    if |digits| == 0 || !AllDigits(digits) then Thrown(NumberFormat)
    else
      var v: int := if |s| > 0 && s[0] == '-' then -(DigitsValue(digits) as int) else DigitsValue(digits);
      Ok(v)
  }

  function Scale(m: real, e: int): real {
    if e >= 0 then m * Pow10(e) as real else m / Pow10(-e) as real
  }

  /** The text after an optional leading sign. */
  function Unsigned(t: string): string {
    if |t| > 0 && (t[0] == '-' || t[0] == '+') then t[1..] else t
  }

  /** The text before an optional `f`, `F`, `d` or `D` type suffix. */
  function Unsuffixed(u: string): string {
    if |u| > 0 && u[|u| - 1] in "fFdD" then u[..|u| - 1] else u
  }

  /** A mantissa followed by an optional exponent. */
  function Magnitude(body: string): (r: Result<real>)
    ensures r.Thrown? ==> r.error == NumberFormat
  {
    var k := ExponentAt(body);
    var m :- Mantissa(body[..k]);
    var e :- if k < |body| then Exponent(body[k + 1..]) else Ok(0);
    Ok(Scale(m, e))
  }

  /** Double.parseDouble for decimal notation: surrounding characters up to
      U+0020 are ignored, then an optional sign, a mantissa with an optional
      decimal point, an optional exponent and an optional type suffix. */
  function ParseDouble(s: string): (r: Result<real>)
    ensures r.Thrown? ==> r.error == NumberFormat
  {
    var t := Trim(s);
    var magnitude :- Magnitude(Unsuffixed(Unsigned(t)));
    Ok(if |t| > 0 && t[0] == '-' then -magnitude else magnitude)
  }

  /** A string with no character trim would remove is its own trim. */
  lemma TrimNothing(s: string)
    requires forall i :: 0 <= i < |s| ==> !Trimmable(s[i])
    ensures Trim(s) == s
  {
  }

  lemma {:induction false} NoExponentInDigits(d: string)
    requires AllDigits(d)
    ensures ExponentAt(d) == |d|
  {
    var k := ExponentAt(d);
    assert k < |d| ==> IsDigit(d[k]);
  }

  lemma {:induction false} MantissaOfDigits(d: string)
    requires |d| >= 1 && AllDigits(d)
    ensures Mantissa(d) == Ok(DigitsValue(d) as real)
  {
    assert '.' !in d by {
      forall j | 0 <= j < |d|
        ensures d[j] != '.'
      {
        assert IsDigit(d[j]);
      }
    }
    assert d + "" == d;
    assert Pow10(0) == 1;
  }

  /** parseDouble of a string trim leaves alone, in terms of its parts. */
  lemma ParseDoubleUntrimmed(s: string)
    requires Trim(s) == s
    ensures ParseDouble(s) == match Magnitude(Unsuffixed(Unsigned(s)))
                              case Ok(m) => Ok(if |s| > 0 && s[0] == '-' then -m else m)
                              case Thrown(e) => Thrown(e)
  {
  }

  lemma {:induction false} MagnitudeOfDigits(d: string)
    requires |d| >= 1 && AllDigits(d)
    ensures Magnitude(Unsuffixed(d)) == Ok(DigitsValue(d) as real)
  {
    assert Unsuffixed(d) == d by {
      assert IsDigit(d[|d| - 1]);
    }
    NoExponentInDigits(d);
    assert d[..|d|] == d;
    MantissaOfDigits(d);
    assert Scale(DigitsValue(d) as real, 0) == DigitsValue(d) as real;
  }

  /** The digit strings parseDouble reads as their integer value. */
  lemma {:induction false} ParseDoubleDigits(d: string, negative: bool)
    requires |d| >= 1 && AllDigits(d)
    ensures ParseDouble(if negative then "-" + d else d)
         == Ok(if negative then -(DigitsValue(d) as real) else DigitsValue(d) as real)
  {
    var s := if negative then "-" + d else d;
    assert Trim(s) == s by {
      forall i | 0 <= i < |s|
        ensures !Trimmable(s[i])
      {
        if negative && i > 0 {
          assert s[i] == d[i - 1];
        }
      }
      TrimNothing(s);
    }
    assert Unsigned(s) == d && ((|s| > 0 && s[0] == '-') == negative) by {
      if !negative {
        assert IsDigit(s[0]);
      }
    }
    assert Magnitude(Unsuffixed(d)) == Ok(DigitsValue(d) as real) by {
      MagnitudeOfDigits(d);
    }
    ParseDoubleUntrimmed(s);
  }

  /** Truncation toward zero, the rounding of Java's `(long)` cast. */
  function Truncate(x: real): (n: int)
    ensures x >= 0.0 ==> n as real <= x < n as real + 1.0
    ensures x < 0.0 ==> n as real - 1.0 < x <= n as real
  {
    if x >= 0.0 then x.Floor else -((-x).Floor)
  }

  lemma TruncateMonotone(x: real, y: real)
    requires x <= y
    ensures Truncate(x) <= Truncate(y)
  {
  }

  /** Java's `(long)` cast of a finite double: truncation, saturating at the
      bounds of long. */
  function LongOf(x: real): (n: int)
    ensures LONG_MIN <= n <= LONG_MAX
    ensures LONG_MIN <= Truncate(x) <= LONG_MAX ==> n == Truncate(x)
  {
    var t := Truncate(x);
    if t < LONG_MIN then LONG_MIN else if t > LONG_MAX then LONG_MAX else t
  }

  lemma LongOfMonotone(x: real, y: real)
    requires x <= y
    ensures LongOf(x) <= LongOf(y)
  {
    TruncateMonotone(x, y);
  }

  /** An IEEE double reduced to what a division by zero can produce (signed
      zero is not distinguished). */
  datatype Dbl = Finite(v: real) | Infinity(negative: bool) | NaN

  /** `a / b` on doubles. */
  function Quotient(a: real, b: real): (d: Dbl)
    ensures b != 0.0 ==> d == Finite(a / b)
    ensures b == 0.0 && a == 0.0 ==> d == NaN
    ensures b == 0.0 && a != 0.0 ==> d == Infinity(a < 0.0)
  {
    if b != 0.0 then Finite(a / b)
    else if a == 0.0 then NaN
    else Infinity(a < 0.0)
  }

  /** `d * k` on doubles. */
  function Times(d: Dbl, k: real): Dbl {
    match d
    case Finite(v) => Finite(v * k)
    case Infinity(neg) => if k == 0.0 then NaN else Infinity(neg != (k < 0.0))
    case NaN => NaN
  }

  /** `k + d` on doubles. */
  function Plus(k: real, d: Dbl): Dbl {
    match d
    case Finite(v) => Finite(k + v)
    case _ => d
  }

  /** Java's `(long)` cast of a double: NaN gives 0, infinities the bounds. */
  function LongOfDbl(d: Dbl): (n: int)
    ensures LONG_MIN <= n <= LONG_MAX
  {
    match d
    case Finite(v) => LongOf(v)
    case Infinity(neg) => if neg then LONG_MIN else LONG_MAX
    case NaN => 0
  }

  function Pow2(k: nat): (p: nat)
    ensures p >= 1
  {
    if k == 0 then 1 else 2 * Pow2(k - 1)
  }

  /** `(n & (1 << k)) != 0` on a two's-complement int: bit k of n. */
  predicate Bit(n: int, k: nat) {
    (n / Pow2(k)) % 2 == 1
  }
}
