/** Python's `decimal.Decimal` as the backend uses it: construction from
    text (`Decimal(str(x))`), multiplication, and `quantize(Decimal("0.01"),
    rounding=ROUND_HALF_UP)`. Finite values are exact rationals; the special
    values are kept because the constructor accepts their spellings. */
module Decimals {
  import opened Common
  import opened Text
  import opened PyJson

  /** A decimal value. The sign of a zero is not kept. */
  datatype Decimal = Finite(value: real) | Infinite(negative: bool) | QuietNaN | SignalingNaN

  function Ten(n: nat): (r: nat)
    ensures r >= 1
  {
    if n == 0 then 1 else 10 * Ten(n - 1)
  }

  /** 10 raised to an integer power. */
  function Pow10(e: int): real {
    if e >= 0 then Ten(e) as real else 1.0 / Ten(-e) as real
  }

  function RemoveUnderscores(s: string): (r: string)
    ensures forall k :: 0 <= k < |r| ==> r[k] != '_'
  {
    if s == [] then [] else (if s[0] == '_' then [] else [s[0]]) + RemoveUnderscores(s[1..])
  }

  /** Position of the first exponent indicator `e`/`E`, or `|s|` when there is none. */
  function ExponentAt(s: string): (k: nat)
    ensures k <= |s|
    ensures forall i :: 0 <= i < k ==> s[i] != 'e' && s[i] != 'E'
    ensures k < |s| ==> s[k] == 'e' || s[k] == 'E'
  {
    if s == [] || s[0] == 'e' || s[0] == 'E' then 0 else 1 + ExponentAt(s[1..])
  }

  /** Position of the first `.`, or `|s|` when there is none. */
  function PointAt(s: string): (k: nat)
    ensures k <= |s|
    ensures forall i :: 0 <= i < k ==> s[i] != '.'
    ensures k < |s| ==> s[k] == '.'
  {
    if s == [] || s[0] == '.' then 0 else 1 + PointAt(s[1..])
  }

  /** The decimal part of a numeral: digits, at most one point, at least one
      digit. Gives the digits read as one integer and the number of them
      after the point. */
  function ParseMantissa(m: string): Option<(nat, nat)> {
    var p := PointAt(m);
    var whole := m[..p];
    var fraction := if p < |m| then m[p + 1..] else "";
    if AllDigits(whole) && AllDigits(fraction) && |whole| + |fraction| > 0
    then Some((DigitsValue(whole + fraction), |fraction|))
    else None
  }

  /** The exponent after `e`: an optional sign and at least one digit. */
  function ParseExponent(e: string): Option<int> {
    if |e| > 1 && (e[0] == '+' || e[0] == '-') && AllDigits(e[1..]) then
      Some(if e[0] == '-' then -(DigitsValue(e[1..]) as int) else DigitsValue(e[1..]))
    else if e != [] && AllDigits(e) then Some(DigitsValue(e))
    else None
  }

  /** An unsigned finite numeral, a decimal part and an optional exponent,
      read as a coefficient and a power of ten. */
  function ParseNumeral(body: string): Option<(nat, int)> {
    var k := ExponentAt(body);
    match ParseMantissa(body[..k])
    case None => None
    case Some((coefficient, places)) =>
      if k == |body| then Some((coefficient, -(places as int)))
      else match ParseExponent(body[k + 1..])
        case None => None
        case Some(exponent) => Some((coefficient, exponent - places))
  }

  /** The value `coefficient * 10^exponent`, with a sign. */
  function Scaled(negative: bool, coefficient: nat, exponent: int): real {
    var magnitude := coefficient as real * Pow10(exponent);
    if negative then -magnitude else magnitude
  }

  /** `Decimal(text)`: surrounding whitespace is stripped first and the
      underscores of what remains are dropped; the rest is read by
      `ParseSigned`. `None` stands for the `InvalidOperation`
      (whose text names `ConversionSyntax`) raised on anything else. */
  function ParseDecimal(text: string): Option<Decimal> {
    ParseSigned(RemoveUnderscores(Strip(text)))
  }

  /** An optional sign, then what `ParseUnsigned` reads. */
  function ParseSigned(t: string): Option<Decimal> {
    if t != [] && (t[0] == '+' || t[0] == '-') then ParseUnsigned(t[1..], t[0] == '-')
    else ParseUnsigned(t, false)
  }

  /** A numeral, or the spelling of a special value. */
  function ParseUnsigned(body: string, negative: bool): Option<Decimal> {
    var special := SpecialValue(Lower(body), negative);
    if special.Some? then special
    else
      match ParseNumeral(body)
      case None => None
      case Some((coefficient, exponent)) => Some(Finite(Scaled(negative, coefficient, exponent)))
  }

  /** `inf`/`infinity`, or `nan`/`snan` followed by optional diagnostic
      digits, in lower case. */
  function SpecialValue(lower: string, negative: bool): (r: Option<Decimal>)
    ensures r.Some? ==> lower != [] && lower[0] in {'i', 'n', 's'}
  {
    if lower == "inf" || lower == "infinity" then Some(Infinite(negative))
    else if |lower| >= 3 && lower[..3] == "nan" && AllDigits(lower[3..]) then Some(QuietNaN)
    else if |lower| >= 4 && lower[..4] == "snan" && AllDigits(lower[4..]) then Some(SignalingNaN)
    else None
  }

  /** `Decimal(str(j))` for a value taken from parsed JSON. A float's `str`
      is its shortest `repr`, whose decimal value is the float itself. */
  function FromJson(j: Json): Option<Decimal> {
    match j
    case JFloat(f) => Some(Finite(f))
    case _ => ParseDecimal(PyStr(j))
  }

  /** `a * b`. `None` is the `InvalidOperation` signal, which the default
      context traps: a signalling NaN operand, or an infinity times zero. */
  function Multiply(a: Decimal, b: Decimal): Option<Decimal> {
    if a.SignalingNaN? || b.SignalingNaN? then None
    else if a.QuietNaN? || b.QuietNaN? then Some(QuietNaN)
    else if (a.Infinite? && b == Finite(0.0)) || (b.Infinite? && a == Finite(0.0)) then None
    else if a.Infinite? || b.Infinite? then Some(Infinite(IsNegative(a) != IsNegative(b)))
    else Some(Finite(a.value * b.value))
  }

  predicate IsNegative(d: Decimal) {
    match d
    case Finite(v) => v < 0.0
    case Infinite(negative) => negative
    case _ => false
  }

  /** Round to a multiple of 0.01, ties away from zero (`ROUND_HALF_UP`). */
  function RoundHalfUp(x: real): real {
    if x >= 0.0 then (x * 100.0 + 0.5).Floor as real / 100.0
    else -((-x * 100.0 + 0.5).Floor as real / 100.0)
  }

  /** `d.quantize(Decimal("0.01"), rounding=ROUND_HALF_UP)`. `None` is the
      `InvalidOperation` raised for an infinity or a signalling NaN. */
  function QuantizeCents(d: Decimal): Option<Decimal> {
    match d
    case Finite(v) => Some(Finite(RoundHalfUp(v)))
    case QuietNaN => Some(QuietNaN)
    case _ => None
  }

  function Abs(x: real): real {
    if x < 0.0 then -x else x
  }

  /** A whole number of cents: `r * 100` is an integer. */
  predicate IsCents(r: real) {
    (r * 100.0).Floor as real == r * 100.0
  }

  /** The number of cents half-up rounding lands on, and where it lies
      relative to `x * 100`: within half a cent, the tie going away from zero. */
  lemma RoundedCents(x: real) returns (n: int)
    ensures RoundHalfUp(x) == n as real / 100.0
    ensures x >= 0.0 ==> x * 100.0 - 0.5 < n as real <= x * 100.0 + 0.5
    ensures x < 0.0 ==> x * 100.0 - 0.5 <= n as real < x * 100.0 + 0.5
  {
    if x >= 0.0 {
      n := (x * 100.0 + 0.5).Floor;
    } else {
      var m := (-x * 100.0 + 0.5).Floor;
      n := -m;
    }
  }

  /** Rounding half-up lands on a whole number of cents, at most half a cent
      away, and on a tie it moves away from zero. */
  lemma RoundHalfUpIsCloseCent(x: real)
    ensures IsCents(RoundHalfUp(x))
    ensures Abs(RoundHalfUp(x) - x) <= 0.005
    ensures Abs(RoundHalfUp(x) - x) == 0.005 ==> Abs(RoundHalfUp(x)) > Abs(x)
  {
    var n := RoundedCents(x);
    assert RoundHalfUp(x) * 100.0 == n as real;
  }

  /** For finite `a` and `b`, `r` is their exact product rounded half up
      to cents: a whole number of cents at most half a cent from it. */
  predicate HalfUpProduct(a: Decimal, b: Decimal, r: Decimal) {
    a.Finite? && b.Finite? ==>
      && r == Finite(RoundHalfUp(a.value * b.value))
      && IsCents(r.value)
      && Abs(r.value - a.value * b.value) <= 0.005
  }

  /** `(a * b).quantize(Decimal("0.01"), rounding=ROUND_HALF_UP)` of
      finite operands is the exact product rounded half up to cents. */
  lemma QuantizedProduct(a: Decimal, b: Decimal, product: Decimal, result: Decimal)
    requires Multiply(a, b) == Some(product) && QuantizeCents(product) == Some(result)
    ensures HalfUpProduct(a, b, result)
  {
    if a.Finite? && b.Finite? {
      var exact := a.value * b.value;
      assert product == Finite(exact);
      RoundHalfUpIsCloseCent(exact);
    }
  }

  /** No whole number of cents `k / 100` is nearer to `x` than its rounding. */
  lemma RoundHalfUpIsNearest(x: real, k: int)
    ensures Abs(RoundHalfUp(x) - x) <= Abs(k as real / 100.0 - x)
  {
    var n := RoundedCents(x);
    var y := x * 100.0;
    assert Abs(RoundHalfUp(x) - x) == Abs(n as real - y) / 100.0;
    assert Abs(k as real / 100.0 - x) == Abs(k as real - y) / 100.0;
    if k > n {
      assert k as real >= n as real + 1.0;
    } else if k < n {
      assert k as real <= n as real - 1.0;
    }
  }

  /** Half-up rounding is the only rounding to cents that is within half a
      cent and breaks ties away from zero. */
  lemma RoundHalfUpUnique(x: real, r: real)
    requires IsCents(r)
    requires Abs(r - x) <= 0.005
    requires Abs(r - x) == 0.005 ==> Abs(r) > Abs(x)
    ensures r == RoundHalfUp(x)
  {
    var m := RoundedCents(x);
    var n := (r * 100.0).Floor;
    var y := x * 100.0;
    assert r == n as real / 100.0;
    if n > m {
      assert false;
    } else if n < m {
      assert false;
    }
  }

  /** Rounding is symmetric around zero. */
  lemma RoundHalfUpOdd(x: real)
    ensures RoundHalfUp(-x) == -RoundHalfUp(x)
  {
    if x == 0.0 {
      assert (0.0 * 100.0 + 0.5).Floor == 0;
    }
  }

  /** A value already a whole number of cents is left as it is. */
  lemma RoundHalfUpKeepsCents(x: real)
    requires IsCents(x)
    ensures RoundHalfUp(x) == x
  {
    RoundHalfUpIsCloseCent(x);
    RoundHalfUpUnique(x, x);
  }

  /** The cases that tell half-up from half-even rounding. */
  lemma RoundHalfUpExamples()
    ensures RoundHalfUp(100.0 * 0.85) == 85.0
    ensures RoundHalfUp(100.0 * 0.895) == 89.5
    ensures RoundHalfUp(1.005) == 1.01
    ensures RoundHalfUp(2.675) == 2.68
    ensures RoundHalfUp(-1.005) == -1.01
    ensures RoundHalfUp(0.125) == 0.13
  {
    RoundHalfUpUnique(100.0 * 0.85, 85.0);
    RoundHalfUpUnique(100.0 * 0.895, 89.5);
    RoundHalfUpUnique(1.005, 1.01);
    RoundHalfUpUnique(2.675, 2.68);
    RoundHalfUpUnique(-1.005, -1.01);
    RoundHalfUpUnique(0.125, 0.13);
  }

  /** Text without underscores is left as it is. */
  lemma {:induction false} NoUnderscoresKept(s: string)
    requires forall k :: 0 <= k < |s| ==> s[k] != '_'
    ensures RemoveUnderscores(s) == s
  {
    if s != [] {
      NoUnderscoresKept(s[1..]);
    }
  }

  /** Digits without a point or an exponent are read as the number they denote. */
  lemma DigitsNumeral(n: nat)
    ensures ParseNumeral(NatText(n)) == Some((n, 0))
  {
    var s := NatText(n);
    assert ExponentAt(s) == |s|;
    assert PointAt(s) == |s|;
    assert s[..|s|] == s && s + "" == s;
    NatTextValue(n);
    assert ParseMantissa(s) == Some((n, 0));
  }

  /** Text that starts with a digit is read as a numeral: it cannot spell
      a special value. */
  lemma DigitStartIsNumeral(body: string, negative: bool)
    requires body != [] && IsDigit(body[0])
    ensures ParseUnsigned(body, negative) ==
      match ParseNumeral(body)
      case None => None
      case Some((coefficient, exponent)) => Some(Finite(Scaled(negative, coefficient, exponent)))
  {
    assert Lower(body)[0] == body[0];
  }

  /** A numeral must start with a digit or a point. */
  lemma OddStartNoNumeral(body: string)
    requires body != [] && !IsDigit(body[0]) && body[0] != '.'
    ensures ParseNumeral(body) == None
  {
    var m := body[..ExponentAt(body)];
    if m != [] {
      assert m[0] == body[0];
      assert PointAt(m) > 0;
      assert !AllDigits(m[..PointAt(m)]);
    }
  }

  /** Text that spells no special value and starts with neither a digit
      nor a point is rejected. */
  lemma OddStartRejected(body: string, negative: bool)
    requires body != [] && !IsDigit(body[0]) && body[0] != '.'
    requires SpecialValue(Lower(body), negative).None?
    ensures ParseUnsigned(body, negative) == None
  {
    OddStartNoNumeral(body);
  }

  /** Text with no underscore and no whitespace at either end reaches the
      sign check as it is. */
  lemma CleanTextSigned(t: string)
    requires forall k :: 0 <= k < |t| ==> t[k] != '_'
    requires t != [] ==> !IsSpace(t[0]) && !IsSpace(t[|t| - 1])
    ensures ParseDecimal(t) == ParseSigned(t)
  {
    NoUnderscoresKept(t);
    StripPadded([], t, []);
    assert [] + t + [] == t;
  }

  /** Whitespace is stripped from the ends before underscores are dropped:
      a padded text is read as its core without underscores. */
  lemma StripBeforeUnderscores(pre: string, core: string, post: string)
    requires AllSpace(pre) && AllSpace(post)
    requires core != [] ==> !IsSpace(core[0]) && !IsSpace(core[|core| - 1])
    ensures ParseDecimal(pre + core + post) == ParseSigned(RemoveUnderscores(core))
  {
    StripPadded(pre, core, post);
  }

  /** So an underscore after a space keeps that space inside the text:
      `Decimal("1 _")` is rejected, not read as 1. */
  lemma TrailingUnderscoreKeepsSpace()
    ensures ParseDecimal("1 _") == None
  {
    var t := "1 _";
    StripBeforeUnderscores([], t, []);
    assert [] + t + [] == t;
    var u := RemoveUnderscores(t);
    assert u == "1 " by {
      assert RemoveUnderscores(t[2..]) == [];
      assert RemoveUnderscores(t[1..]) == [' '];
    }
    assert ParseSigned(u) == ParseUnsigned(u, false);
    DigitStartIsNumeral(u, false);
    assert ExponentAt(u) == 2 && PointAt(u) == 2;
    assert u[..2] == u;
    assert !AllDigits(u) by {
      assert !IsDigit(u[1]);
    }
  }

  /** `str(i)` is digits with perhaps a minus sign. */
  lemma IntTextChars(i: int)
    ensures var t := IntText(i);
      forall k :: 0 <= k < |t| ==> IsDigit(t[k]) || t[k] == '-'
  {
  }

  /** The sign of `str(i)` is split off, leaving the digits of `|i|`. */
  lemma IntTextSign(i: int)
    ensures ParseSigned(IntText(i)) == ParseUnsigned(NatText(if i < 0 then -i else i), i < 0)
  {
    if i < 0 {
      assert IntText(i)[1..] == NatText(-i);
    } else {
      assert IsDigit(NatText(i)[0]);
    }
  }

  /** Digits are read as the number they denote, with the sign given. */
  lemma DigitsParse(n: nat, negative: bool)
    ensures ParseUnsigned(NatText(n), negative) == Some(Finite(Scaled(negative, n, 0)))
  {
    assert IsDigit(NatText(n)[0]);
    DigitStartIsNumeral(NatText(n), negative);
    DigitsNumeral(n);
  }

  /** A whole number is its own coefficient with exponent zero. */
  lemma ScaledWhole(i: int)
    ensures Scaled(i < 0, if i < 0 then -i else i, 0) == i as real
  {
  }

  /** `str(i)` needs no cleaning before it is read. */
  lemma IntTextClean(i: int)
    ensures ParseDecimal(IntText(i)) == ParseSigned(IntText(i))
  {
    IntTextChars(i);
    CleanTextSigned(IntText(i));
  }

  /** `str(i)` is read as the digits of `|i|` with the sign of `i`. */
  lemma IntTextSigned(i: int)
    ensures ParseSigned(IntText(i)) == Some(Finite(Scaled(i < 0, if i < 0 then -i else i, 0)))
  {
    IntTextSign(i);
    DigitsParse(if i < 0 then -i else i, i < 0);
  }

  /** `Decimal(str(i))` is exactly the integer `i`: integer amounts and
      rates are read without loss. */
  lemma {:induction false} IntTextParses(i: int)
    ensures ParseDecimal(IntText(i)) == Some(Finite(i as real))
  {
    IntTextClean(i);
    IntTextSigned(i);
    ScaledWhole(i);
  }

  /** An integer taken from JSON is read exactly. */
  lemma JsonIntReadsExactly(i: int)
    ensures FromJson(JInt(i)) == Some(Finite(i as real))
  {
    IntTextParses(i);
  }

  /** Clean text that starts with neither a sign, a digit nor a point, and
      spells no special value, is rejected. */
  lemma WordRejected(t: string)
    requires t != [] && forall k :: 0 <= k < |t| ==> t[k] != '_'
    requires !IsSpace(t[0]) && !IsSpace(t[|t| - 1])
    requires !IsDigit(t[0]) && t[0] !in {'.', '+', '-'}
    requires SpecialValue(Lower(t), false).None?
    ensures ParseDecimal(t) == None
  {
    CleanTextSigned(t);
    OddStartRejected(t, false);
  }

  /** `None`, booleans, lists and dicts are not numbers: their `str()` is
      rejected by the constructor. */
  lemma NonNumbersRejected(j: Json)
    requires j.JNull? || j.JBool? || j.JArr? || j.JObj?
    ensures FromJson(j) == None
  {
    assert FromJson(j) == ParseDecimal(PyStr(j));
    if j.JNull? || j.JBool? {
      LiteralRejected(j);
    } else {
      ContainerRejected(j);
    }
  }

  /** The `str()` placeholder of a list or dict is not a number. */
  lemma ContainerRejected(j: Json)
    requires j.JArr? || j.JObj?
    ensures ParseDecimal(PyStr(j)) == None
  {
    var t := PyStr(j);
    assert t[0] == '<';
    assert t[|t| - 1] == '>';
    WordRejected(t);
  }

  /** `str(None)`, `str(True)` and `str(False)` are words, not numbers. */
  lemma LiteralRejected(j: Json)
    requires j.JNull? || j.JBool?
    ensures ParseDecimal(PyStr(j)) == None
  {
    var t := PyStr(j);
    var lower := Lower(t);
    assert lower[0] in {'n', 't', 'f'};
    assert lower[0] == 'n' ==> lower == "none";
    WordRejected(t);
  }
}
