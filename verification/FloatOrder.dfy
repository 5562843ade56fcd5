/**
  Numbers as the codec sees them: decimals +-0.digits x 10^exp. Their codes (sign, exponent,
  digits, end byte) are ordered exactly as the real numbers they denote.
 */
module FloatOrder {
  import opened Bytes
  import opened DecimalText
  import opened IntCodec

  /** Zero, or +-0.digits x 10^exp. */
  datatype Dec = Zero | Dec(neg: bool, digits: Bytes, exp: int)

  /** What an encoder produces: digits that start with a nonzero one; zeros may trail. */
  predicate WellFormed(d: Dec) { d.Zero? || Canonical(d.digits) }

  /** Without trailing zeros a decimal is the only spelling of its value. */
  predicate Normal(d: Dec) { d.Zero? || (Canonical(d.digits) && NoZeroEnd(d.digits)) }

  predicate NoZeroEnd(t: Bytes) { t != [] ==> t[|t| - 1] != ZERO }

  type Decimal = d: Dec | Normal(d) witness Zero

  /** The code EncodeFloat gives a number. */
  function FloatCode(d: Dec): (code: Bytes)
    ensures code != []
    ensures code[0] == if d.Zero? then ZERO else Sign(d.neg)
  {
    match d
    case Zero => [ZERO]
    case Dec(neg, digits, exp) =>
      [Sign(neg)] + IntCode(if neg then -exp else exp) + Tail(neg, digits)
  }

  /** Digits, complemented when negative, and the end byte of the opposite sign. */
  function Tail(neg: bool, digits: Bytes): Bytes { Signed(neg, digits) + [Sign(!neg)] }

  /** The bytes: sign, exponent, digits and the other sign; 48 for zero. */
  lemma FloatBytes(digits: Bytes, exp: int)
    ensures FloatCode(Zero) == [48]
    ensures FloatCode(Dec(false, digits, exp)) == [62] + IntCode(exp) + (digits + [45])
    ensures FloatCode(Dec(true, digits, exp)) == [45] + IntCode(-exp) + (Complement(digits) + [62])
  {
  }

  // ---- the number a decimal denotes ------------------------------------------------------------

  ghost function Pow10(e: int): (p: real)
    ensures p > 0.0
    decreases if e < 0 then -e else e
  {
    if e == 0 then 1.0 else if e > 0 then 10.0 * Pow10(e - 1) else Pow10(e + 1) / 10.0
  }

  lemma Pow10Next(e: int)
    ensures Pow10(0) == 1.0 && Pow10(e + 1) == 10.0 * Pow10(e)
  {
  }

  /** 0.digits */
  ghost function Frac(digits: Bytes): (f: real)
  {
    if digits == [] then 0.0 else ((digits[0] - ZERO) as real + Frac(digits[1..])) / 10.0
  }

  ghost function Times(x: real, p: real): real { x * p }

  ghost function Magnitude(digits: Bytes, exp: int): real { Times(Frac(digits), Pow10(exp)) }

  ghost function Val(d: Dec): real
  {
    match d
    case Zero => 0.0
    case Dec(neg, digits, exp) => if neg then -Magnitude(digits, exp) else Magnitude(digits, exp)
  }

  lemma {:induction false} PowApart(e: int, f: int)
    requires e < f
    ensures 10.0 * Pow10(e) <= Pow10(f)
    decreases f - e
  {
    if e + 1 < f { PowApart(e + 1, f); }
  }

  lemma {:induction false} FracBounds(t: Bytes)
    requires IsDigits(t)
    ensures 0.0 <= Frac(t) < 1.0
    ensures t != [] && t[0] != ZERO ==> Frac(t) >= 0.1
    ensures t != [] && NoZeroEnd(t) ==> Frac(t) > 0.0
  {
    if t != [] { FracBounds(t[1..]); }
  }

  // ---- digits ----------------------------------------------------------------------------------

  /** `t` comes before `u` as fractions, as positive tails and, turned around, as negative ones. */
  ghost predicate DigitsBefore(t: Bytes, u: Bytes)
  {
    && Frac(t) < Frac(u)
    && Below(Tail(false, t), Tail(false, u))
    && Below(Tail(true, u), Tail(true, t))
  }

  lemma EndBefore(u: Bytes)
    requires u != [] && IsDigits(u) && NoZeroEnd(u)
    ensures DigitsBefore([], u)
  {
    FracBounds(u);
  }

  lemma HeadBefore(t: Bytes, u: Bytes)
    requires t != [] && u != [] && IsDigits(t) && IsDigits(u) && t[0] < u[0]
    ensures DigitsBefore(t, u)
  {
    FracBounds(t[1..]);
    FracBounds(u[1..]);
  }

  lemma TailCons(neg: bool, t: Bytes)
    requires t != []
    ensures Tail(neg, t) == [Signed(neg, t)[0]] + Tail(neg, t[1..])
  {
  }

  lemma ConsBefore(t: Bytes, u: Bytes)
    requires t != [] && u != [] && IsDigits(t) && IsDigits(u) && t[0] == u[0]
    requires DigitsBefore(t[1..], u[1..])
    ensures DigitsBefore(t, u)
  {
    forall neg: bool ensures Tail(neg, t)[1..] == Tail(neg, t[1..])
                     ensures Tail(neg, u)[1..] == Tail(neg, u[1..])
    {
      TailCons(neg, t);
      TailCons(neg, u);
    }
  }

  lemma {:induction false} DigitsApart(t: Bytes, u: Bytes)
    requires IsDigits(t) && IsDigits(u) && NoZeroEnd(t) && NoZeroEnd(u) && t != u
    ensures DigitsBefore(t, u) || DigitsBefore(u, t)
    decreases |t|
  {
    if t == [] {
      EndBefore(u);
    } else if u == [] {
      EndBefore(t);
    } else if t[0] < u[0] {
      HeadBefore(t, u);
    } else if u[0] < t[0] {
      HeadBefore(u, t);
    } else {
      assert t == [t[0]] + t[1..] && u == [u[0]] + u[1..];
      DigitsApart(t[1..], u[1..]);
      if DigitsBefore(t[1..], u[1..]) { ConsBefore(t, u); } else { ConsBefore(u, t); }
    }
  }

  // ---- magnitudes and decimals -----------------------------------------------------------------

  lemma Scale(x: real, y: real, p: real)
    requires p > 0.0 && x < y
    ensures Times(x, p) < Times(y, p)
  {
  }

  lemma LargerFraction(t: Bytes, u: Bytes, e: int)
    requires Frac(t) < Frac(u)
    ensures Magnitude(t, e) < Magnitude(u, e)
  {
    Scale(Frac(t), Frac(u), Pow10(e));
  }

  lemma SmallerExponent(t: Bytes, e: int, u: Bytes, f: int)
    requires Canonical(t) && Canonical(u) && e < f
    ensures Magnitude(t, e) < Magnitude(u, f)
  {
    FracBounds(t);
    FracBounds(u);
    PowApart(e, f);
    Scale(Frac(t), 1.0, Pow10(e));
    if Frac(u) > 0.1 { Scale(0.1, Frac(u), Pow10(f)); }
  }

  lemma MagnitudePositive(t: Bytes, e: int)
    requires Canonical(t)
    ensures Magnitude(t, e) > 0.0
  {
    FracBounds(t);
    Scale(0.0, Frac(t), Pow10(e));
  }

  /** `x` comes before `y` both as a number and as a code. */
  ghost predicate Before(x: Dec, y: Dec)
  {
    Val(x) < Val(y) && Below(FloatCode(x), FloatCode(y))
  }

  lemma ExponentBelow(neg: bool, e: int, f: int, t: Bytes, u: Bytes)
    requires if neg then f < e else e < f
    ensures Below(FloatCode(Dec(neg, t, e)), FloatCode(Dec(neg, u, f)))
  {
    var m, n := if neg then -e else e, if neg then -f else f;
    IntOrder(m, n);
    BelowExtends([Sign(neg)], IntCode(m), IntCode(n), Tail(neg, t), Tail(neg, u));
  }

  lemma ExponentBefore(x: Dec, y: Dec)
    requires x.Dec? && y.Dec? && x.neg == y.neg && Canonical(x.digits) && Canonical(y.digits)
    requires if x.neg then y.exp < x.exp else x.exp < y.exp
    ensures Before(x, y)
  {
    ExponentBelow(x.neg, x.exp, y.exp, x.digits, y.digits);
    if x.neg {
      SmallerExponent(y.digits, y.exp, x.digits, x.exp);
    } else {
      SmallerExponent(x.digits, x.exp, y.digits, y.exp);
    }
  }

  lemma TailBelow(neg: bool, e: int, t: Bytes, u: Bytes)
    requires Below(Tail(neg, t), Tail(neg, u))
    ensures Below(FloatCode(Dec(neg, t, e)), FloatCode(Dec(neg, u, e)))
  {
    var pre := [Sign(neg)] + IntCode(if neg then -e else e);
    BelowPrefixed(pre, Tail(neg, t), Tail(neg, u));
  }

  lemma TailBefore(x: Dec, y: Dec)
    requires x.Dec? && y.Dec? && x.neg == y.neg && x.exp == y.exp
    requires if x.neg then DigitsBefore(y.digits, x.digits) else DigitsBefore(x.digits, y.digits)
    ensures Before(x, y)
  {
    TailBelow(x.neg, x.exp, x.digits, y.digits);
    if x.neg {
      LargerFraction(y.digits, x.digits, x.exp);
    } else {
      LargerFraction(x.digits, y.digits, x.exp);
    }
  }

  lemma SignBefore(x: Dec, y: Dec)
    requires WellFormed(x) && WellFormed(y)
    requires FloatCode(x)[0] < FloatCode(y)[0]
    ensures Before(x, y)
  {
    if x.Dec? { MagnitudePositive(x.digits, x.exp); }
    if y.Dec? { MagnitudePositive(y.digits, y.exp); }
  }

  /** Two different decimals come one before the other, as numbers and as codes alike. */
  lemma DecimalsApart(x: Decimal, y: Decimal)
    requires x != y
    ensures Before(x, y) || Before(y, x)
  {
    if FloatCode(x)[0] < FloatCode(y)[0] {
      SignBefore(x, y);
    } else if FloatCode(y)[0] < FloatCode(x)[0] {
      SignBefore(y, x);
    } else if x.exp != y.exp {
      if (x.exp < y.exp) != x.neg { ExponentBefore(x, y); } else { ExponentBefore(y, x); }
    } else {
      DigitsApart(x.digits, y.digits);
      if DigitsBefore(x.digits, y.digits) != x.neg { TailBefore(x, y); } else { TailBefore(y, x); }
    }
  }

  /**
    The codes of decimals of either sign and zero compare as the real numbers do; they are equal
    only for equal numbers, and none is a prefix of another.
   */
  lemma FloatCodeEmbeds(x: Decimal, y: Decimal)
    ensures Val(x) < Val(y) <==> Compare(FloatCode(x), FloatCode(y)) == -1
    ensures Val(x) < Val(y) <==> Below(FloatCode(x), FloatCode(y))
    ensures Val(x) == Val(y) <==> x == y
    ensures FloatCode(x) == FloatCode(y) <==> x == y
    ensures x != y ==> !(FloatCode(x) <= FloatCode(y))
  {
    if x == y {
      CompareSame(FloatCode(x));
    } else {
      DecimalsApart(x, y);
      var lo, hi := if Before(x, y) then x else y, if Before(x, y) then y else x;
      BelowDecides(FloatCode(lo), FloatCode(hi));
    }
  }
}
