/**
  The exact path of an int64 through the codec: scientific notation on the way in, plain digits
  on the way out, and the numbers that take that path.
 */
module Int64Text {
  import opened Bytes
  import opened DecimalText
  import opened IntCodec
  import opened FloatOrder
  import opened FloatCodec

  const MIN_INT64: int := -0x8000_0000_0000_0000
  const MAX_INT64: int := 0x7fff_ffff_ffff_ffff

  predicate InInt64(v: int) { MIN_INT64 <= v <= MAX_INT64 }

  lemma Int64Range(v: int)
    ensures InInt64(v) <==> -9223372036854775808 <= v < 9223372036854775808
  {
  }

  // ---- trailing zeros ------------------------------------------------------------------------

  /** strings.TrimRight(t, "0"). */
  function TrimZeros(t: Bytes): (r: Bytes)
    ensures r <= t && NoZeroEnd(r)
    ensures t != [] && t[0] != ZERO ==> r != [] && r[0] == t[0]
  {
    if t != [] && t[|t| - 1] == ZERO then TrimZeros(t[..|t| - 1]) else t
  }

  /** strings.Repeat("0", k). */
  function Zeros(k: nat): (r: Bytes)
    ensures |r| == k && IsDigits(r)
  {
    if k == 0 then [] else Zeros(k - 1) + [ZERO]
  }

  lemma {:induction false} TrimThenPad(t: Bytes)
    ensures TrimZeros(t) + Zeros(|t| - |TrimZeros(t)|) == t
  {
    if t != [] && t[|t| - 1] == ZERO {
      var u := t[..|t| - 1];
      TrimThenPad(u);
      assert t == u + [ZERO];
      assert TrimZeros(t) + (Zeros(|u| - |TrimZeros(u)|) + [ZERO]) == u + [ZERO];
    }
  }

  lemma {:induction false} TrimPadded(t: Bytes, k: nat)
    ensures TrimZeros(t + Zeros(k)) == TrimZeros(t)
  {
    if k == 0 {
      assert t + Zeros(k) == t;
    } else {
      TrimPadded(t, k - 1);
      Assoc(t, Zeros(k - 1), [ZERO]);
      TrimSnoc(t + Zeros(k - 1));
    }
  }

  lemma TrimSnoc(t: Bytes)
    ensures TrimZeros(t + [ZERO]) == TrimZeros(t)
  {
    assert (t + [ZERO])[..|t|] == t;
  }

  lemma TrimBehindLead(t: Bytes)
    requires t != [] && t[0] != ZERO
    ensures TrimZeros(t) == [t[0]] + TrimZeros(t[1..])
  {
    TrimCons(t[0], t[1..]);
    assert t == [t[0]] + t[1..];
  }

  lemma TrimCons(a: Byte, u: Bytes)
    requires a != ZERO
    ensures TrimZeros([a] + u) == [a] + TrimZeros(u)
  {
    TrimThenPad(u);
    TrimLead(a, TrimZeros(u), |u| - |TrimZeros(u)|);
  }

  lemma TrimLead(a: Byte, rest: Bytes, k: nat)
    requires a != ZERO && NoZeroEnd(rest)
    ensures TrimZeros([a] + (rest + Zeros(k))) == [a] + rest
  {
    TrimPadded([a] + rest, k);
    Assoc([a], rest, Zeros(k));
  }

  // ---- integers as decimals ------------------------------------------------------------------

  function Abs(v: int): nat { if v < 0 then -v else v }

  /** The normal decimal of an integer. */
  function DecimalOfInt(v: int): (d: Decimal)
  {
    if v == 0 then Zero else Dec(v < 0, TrimZeros(Itoa(Abs(v))), |Itoa(Abs(v))|)
  }

  /** A decimal without digits behind the point. */
  predicate Whole(d: Dec) { d.Dec? && |d.digits| <= d.exp }

  function WholeDigits(d: Dec): (t: Bytes)
    requires Whole(d)
    ensures |t| == d.exp
  {
    d.digits + Zeros(d.exp - |d.digits|)
  }

  function IntOf(d: Dec): int
    requires Whole(d)
  {
    if d.neg then -Atoi(WholeDigits(d)) else Atoi(WholeDigits(d))
  }

  lemma IntOfDecimal(v: int)
    requires v != 0
    ensures Whole(DecimalOfInt(v)) && IntOf(DecimalOfInt(v)) == v
  {
    var t := Itoa(Abs(v));
    TrimThenPad(t);
    AtoiItoa(Abs(v));
  }

  lemma WholeIsItoa(d: Dec)
    requires WellFormed(d) && Whole(d)
    ensures IntOf(d) != 0 && (IntOf(d) < 0 <==> d.neg) && Itoa(Abs(IntOf(d))) == WholeDigits(d)
  {
    CanonicalIsItoa(WholeDigits(d));
  }

  /** Reading a whole decimal as an integer and back only drops its trailing zeros. */
  lemma DecimalOfIntOf(d: Dec)
    requires WellFormed(d) && Whole(d)
    ensures DecimalOfInt(IntOf(d)) == Dec(d.neg, TrimZeros(d.digits), d.exp)
  {
    WholeIsItoa(d);
    TrimPadded(d.digits, d.exp - |d.digits|);
  }

  lemma {:induction false} ZerosConcat(j: nat, k: nat)
    ensures Zeros(j) + Zeros(k) == Zeros(j + k)
  {
    if k > 0 {
      ZerosConcat(j, k - 1);
      assert Zeros(j) + Zeros(k) == Zeros(j) + Zeros(k - 1) + [ZERO];
    } else {
      assert Zeros(j) + [] == Zeros(j);
    }
  }

  // ---- what they denote ------------------------------------------------------------------------

  lemma {:induction false} PowsAgree(k: nat)
    ensures Pow10(k) == Pow(k) as real
  {
    if k > 0 { PowsAgree(k - 1); }
  }

  lemma {:induction false} AtoiCons(a: Byte, t: Bytes)
    ensures Atoi([a] + t) == (a - ZERO) * Pow(|t|) + Atoi(t)
  {
    var u := [a] + t;
    if t == [] {
      assert u[..0] == [];
    } else {
      var init := t[..|t| - 1];
      AtoiCons(a, init);
      assert u[..|u| - 1] == [a] + init;
      TenTimes(a - ZERO, Pow(|init|));
    }
  }

  lemma TenTimes(x: int, p: int)
    ensures x * (10 * p) == 10 * (x * p)
  {
  }

  /** 0.digits x 10^length is the number the digits spell. */
  lemma {:induction false} FracTimesPow(t: Bytes)
    ensures Times(Frac(t), Pow10(|t|)) == Atoi(t) as real
  {
    if t != [] {
      FracTimesPow(t[1..]);
      FracTimesPowStep(t[0], t[1..]);
      assert t == [t[0]] + t[1..];
    }
  }

  lemma FracTimesPowStep(a: Byte, u: Bytes)
    requires Times(Frac(u), Pow10(|u|)) == Atoi(u) as real
    ensures Times(Frac([a] + u), Pow10(|u| + 1)) == Atoi([a] + u) as real
  {
    var m := FirstDigit(a, u);
    FracCons(a, u);
    StepArithmetic((a - ZERO) as real, Frac(u), Pow10(|u|), m, Atoi(u), Frac([a] + u), Pow10(|u| + 1));
  }

  /** What the first digit is worth. */
  lemma FirstDigit(a: Byte, u: Bytes) returns (m: int)
    ensures Atoi([a] + u) == m + Atoi(u) && m as real == Times((a - ZERO) as real, Pow10(|u|))
  {
    AtoiCons(a, u);
    PowsAgree(|u|);
    ProductAsReal(a - ZERO, Pow(|u|));
    m := (a - ZERO) * Pow(|u|);
  }

  lemma FracCons(a: Byte, u: Bytes)
    ensures Frac([a] + u) == ((a - ZERO) as real + Frac(u)) / 10.0
  {
    Behind(a, u);
  }

  lemma StepArithmetic(x: real, f: real, p: real, m: int, n: int, g: real, q: real)
    requires Times(x, p) == m as real && Times(f, p) == n as real
    requires g == (x + f) / 10.0 && q == 10.0 * p
    ensures Times(g, q) == (m + n) as real
  {
    Distribute(x, f, p);
  }

  lemma ProductAsReal(x: int, p: int)
    ensures (x * p) as real == Times(x as real, p as real)
  {
  }

  lemma Distribute(x: real, f: real, p: real)
    ensures Times((x + f) / 10.0, 10.0 * p) == Times(x, p) + Times(f, p)
  {
  }

  lemma {:induction false} FracPadded(t: Bytes, k: nat)
    ensures Frac(t + Zeros(k)) == Frac(t)
    decreases |t|, k
  {
    if t == [] {
      assert t + Zeros(k) == Zeros(k);
      FracOfZeros(k);
    } else {
      FracPadded(t[1..], k);
      Rest(t, Zeros(k));
    }
  }

  lemma {:induction false} FracOfZeros(k: nat)
    ensures Frac(Zeros(k)) == 0.0
  {
    if k > 0 {
      FracOfZeros(k - 1);
      ZerosConcat(1, k - 1);
      assert Zeros(1) == [ZERO] by { assert [] + [ZERO] == [ZERO]; }
      Behind(ZERO, Zeros(k - 1));
    }
  }

  /** A whole decimal denotes exactly the integer it is read as. */
  lemma WholeValue(d: Dec)
    requires Whole(d)
    ensures Val(d) == IntOf(d) as real
  {
    FracPadded(d.digits, d.exp - |d.digits|);
    FracTimesPow(WholeDigits(d));
  }

  // ---- ConvertToScientificNotation -------------------------------------------------------------

  /** strconv.FormatFloat(f, 'e', -1, 64) on a float64 whose shortest decimal is `d`. */
  function FloatSci(d: Decimal): (x: Sci)
    ensures IsSci(x) && DecOf(x) == d
  {
    match d
    case Zero => Sci(false, ZERO, false, [], 0, true)
    case Dec(neg, digits, exp) =>
      assert [digits[0]] + digits[1..] == digits;
      Sci(neg, digits[0], |digits| > 1, digits[1..], exp - 1, true)
  }

  /** The very bytes of it: 0e+00, and d.ddde+xx with two digits of exponent at least. */
  lemma FloatText(neg: bool, digits: Bytes, exp: int)
    requires Canonical(digits) && NoZeroEnd(digits)
    ensures Render(FloatSci(Zero)) == [48, 101, 43, 48, 48]
    ensures Render(FloatSci(Dec(neg, digits, exp)))
         == (if neg then [45] else [])
            + ([digits[0]] + (if |digits| > 1 then [46] else []) + digits[1..] + [101] + ExpText(exp - 1, true))
  {
  }

  /** The notation of an int64 outside the range that float64 represents exactly. */
  function LargeSci(v: int): (x: Sci)
    requires v != 0
    ensures IsSci(x) && DecOf(x) == DecimalOfInt(v)
  {
    var t := Itoa(Abs(v));
    TrimBehindLead(t);
    Sci(v < 0, t[0], true, TrimZeros(t[1..]), |t| - 1, |t| == 1)
  }

  /** The distance of neighbouring float64 values from n on: a float64 has 53 bits. */
  function Spacing(n: nat): (u: nat)
    ensures u > 0
  {
    if n < 0x20_0000_0000_0000 then 1 else 2 * Spacing(n / 2)
  }

  /** How many spacings make n: the nearest number of them, of two the even one. */
  function Units(n: nat, u: nat): nat
    requires u > 0
  {
    if 2 * (n % u) < u || (2 * (n % u) == u && n / u % 2 == 0) then n / u else n / u + 1
  }

  /** float64(v) for an integer. */
  function Float64(v: int): int
  {
    var u := Spacing(Abs(v));
    if v < 0 then -(Units(Abs(v), u) * u) else Units(Abs(v), u) * u
  }

  predicate ExactInFloat64(v: int) { -9007199254740991 < v < 9007199254740991 }

  lemma {:induction false} SpacingIs(n: nat)
    ensures n < 9007199254740992 * Spacing(n)
    ensures Spacing(n) > 1 ==> 4503599627370496 * Spacing(n) <= n
  {
    if n >= 9007199254740992 { SpacingIs(n / 2); }
  }

  /** No other number of spacings is nearer, and of two as near it is the even one. */
  lemma UnitsNearest(n: nat, u: nat)
    requires u > 0
    ensures 2 * Abs(Units(n, u) * u - n) <= u
    ensures 2 * Abs(Units(n, u) * u - n) == u ==> Units(n, u) % 2 == 0
  {
    assert n == n / u * u + n % u && (n / u + 1) * u == n / u * u + u;
  }

  /** No integer of the range is rounded; 2^53 + 1 is. */
  lemma Float64Exact(v: int)
    ensures ExactInFloat64(v) ==> Float64(v) == v
    ensures Float64(0x20_0000_0000_0001) == 0x20_0000_0000_0000
  {
    assert Spacing(0x20_0000_0000_0001) == 2;
  }

  function IntSci(v: int): (x: Sci)
    ensures IsSci(x) && DecOf(x) == DecimalOfInt(v)
  {
    Float64Exact(v);
    if ExactInFloat64(v) then FloatSci(DecimalOfInt(Float64(v))) else LargeSci(v)
  }

  /** The text of an int64 denotes that int64, whichever way it is written. */
  method ConvertToScientificNotation(v: int) returns (text: Bytes)
    requires InInt64(v)
    ensures text == Render(IntSci(v))
  {
    if v < 9007199254740991 && v > -9007199254740991 {
      return Render(FloatSci(DecimalOfInt(Float64(v))));
    }
    var intStr := SignedItoa(v);
    var sign, str := [], intStr;
    if intStr[0] == MINUS || intStr[0] == PLUS { sign, str := intStr[..1], intStr[1..]; }
    assert str == Itoa(Abs(v)) && sign == if v < 0 then [MINUS] else [];
    var first, rem := str[0], str[1..];
    if |rem| == 0 {
      text := [first, DOT, EXP, PLUS, ZERO, ZERO];
    } else {
      text := [first] + [DOT] + TrimZeros(rem) + [EXP] + ([PLUS] + Itoa(|rem|));
    }
    text := sign + text;
  }

  // ---- TryConvertFromScientificNotation ----------------------------------------------------------

  /** strings.Index. */
  function IndexOf(t: Bytes, b: Byte): int
  {
    if t == [] then -1
    else if t[0] == b then 0
    else var i := IndexOf(t[1..], b); if i < 0 then -1 else i + 1
  }

  lemma {:induction false} IndexOfSplit(before: Bytes, b: Byte, after: Bytes)
    requires b !in before
    ensures IndexOf(before + [b] + after, b) == |before|
  {
    if before == [] {
      assert before + [b] + after == [b] + after;
    } else {
      IndexOfSplit(before[1..], b, after);
      assert before[0] in before;
      Assoc(before, [b], after);
      Assoc(before[1..], [b], after);
      Rest(before, [b] + after);
    }
  }

  /** DecodeFloat's text without the plus sign that bytes.TrimLeft takes off. */
  function Unsigned(d: Dec): Bytes
  {
    match d
    case Zero => [ZERO]
    case Dec(neg, digits, exp) => [ZERO] + [DOT] + (digits + [EXP] + DecodedExp(neg, exp))
  }

  function PlainText(d: Dec): Bytes { (if d.Dec? && d.neg then [MINUS] else []) + Unsigned(d) }

  lemma PlainTextSign(d: Dec)
    ensures PlainText(d) != [] && PlainText(d)[0] != PLUS
    ensures PlainText(d)[0] == MINUS <==> d.Dec? && d.neg
    ensures PlainText(d)[0] == MINUS ==> PlainText(d)[..1] == [MINUS] && PlainText(d)[1..] == Unsigned(d)
    ensures PlainText(d)[0] != MINUS ==> PlainText(d) == Unsigned(d)
  {
    Behind(MINUS, Unsigned(d));
    assert [] + Unsigned(d) == Unsigned(d);
  }

  /** bytes.TrimLeft(t, "+"). */
  function TrimPlus(t: Bytes): Bytes { if t != [] && t[0] == PLUS then TrimPlus(t[1..]) else t }

  lemma TrimmedFloat(d: Dec)
    ensures TrimPlus(DecodedFloat(d)) == PlainText(d)
  {
    if d.Dec? {
      UnsignedBody(d.digits, DecodedExp(d.neg, d.exp));
      TrimOnce(Unsigned(d));
    }
  }

  lemma UnsignedBody(digits: Bytes, exp: Bytes)
    ensures [ZERO, DOT] + digits + [EXP] + exp == [ZERO] + [DOT] + (digits + [EXP] + exp)
  {
  }

  lemma TrimOnce(t: Bytes)
    requires t != [] && t[0] != PLUS
    ensures TrimPlus([PLUS] + t) == t
  {
    Behind(PLUS, t);
  }

  lemma DecodedExpReads(neg: bool, exp: int)
    ensures SignedAtoi(DecodedExp(neg, exp)) == exp
  {
    var t := Itoa(Abs(exp));
    CountItoa(Abs(exp));
    Behind(DecodedExp(neg, exp)[0], t);
  }

  lemma WholeTextReads(d: Dec)
    requires WellFormed(d) && Whole(d)
    ensures var text := (if d.neg then [MINUS] else []) + WholeDigits(d);
      SignedAtoi(text) == IntOf(d) && text == SignedItoa(IntOf(d))
  {
    WholeIsItoa(d);
    SignedTextReads(d.neg, WholeDigits(d));
  }

  lemma SignedTextReads(neg: bool, t: Bytes)
    requires Canonical(t)
    ensures SignedAtoi((if neg then [MINUS] else []) + t) == if neg then -Atoi(t) else Atoi(t)
    ensures !neg ==> [] + t == t
  {
    CountDigits(t);
    if neg {
      Behind(MINUS, t);
    } else {
      assert [] + t == t && IsDigit(t[0]);
    }
  }

  /** An int64 has at most nineteen digits, so the cut at exponent 20 turns none away. */
  lemma Int64IsShort(d: Dec)
    requires WellFormed(d) && Whole(d) && InInt64(IntOf(d))
    ensures d.exp <= 19
  {
    AtoiBounds(WholeDigits(d));
    if d.exp > 19 {
      PowGrows(19, d.exp - 1);
      Pow19();
    }
  }

  lemma Pow19()
    ensures Pow(19) == 10_000_000_000_000_000_000
  {
    assert Pow(3) == 1000 && Pow(5) == 100_000;
    assert Pow(7) == 10_000_000 && Pow(9) == 1_000_000_000;
    assert Pow(11) == 100_000_000_000 && Pow(13) == 10_000_000_000_000;
    assert Pow(15) == 1_000_000_000_000_000 && Pow(17) == 100_000_000_000_000_000;
  }

  /** Where the point and the exponent stand in a decoded text. */
  lemma UnsignedParts(d: Dec)
    requires d.Dec? && IsDigits(d.digits)
    ensures var t := Unsigned(d);
      && IndexOf(t, DOT) == 1 && IndexOf(t, EXP) == 2 + |d.digits|
      && |t| >= 3 + |d.digits|
      && t[..1] == [ZERO]
      && t[2..2 + |d.digits|] == d.digits
      && t[3 + |d.digits|..] == DecodedExp(d.neg, d.exp)
  {
    var t, e := Unsigned(d), DecodedExp(d.neg, d.exp);
    IndexOfSplit([ZERO], DOT, d.digits + [EXP] + e);
    var head := [ZERO] + [DOT] + d.digits;
    assert t == head + [EXP] + e;
    IndexOfSplit(head, EXP, e);
  }

  /** Mantissa and exponent of a decoded text; a text without a point makes the slicing panic. */
  method Locate(number: Bytes, ghost d: Dec) returns (ok: bool, mantissa: Bytes, exp: int)
    requires WellFormed(d) && number == Unsigned(d)
    ensures ok <==> d.Dec?
    ensures ok ==> mantissa == d.digits && exp == d.exp
  {
    if d.Dec? {
      UnsignedParts(d);
      DecodedExpReads(d.neg, d.exp);
    } else {
      assert number[1..] == [];
      assert IndexOf(number, DOT) == -1;
    }
    var decimalPos, ePos := IndexOf(number, DOT), IndexOf(number, EXP);
    if decimalPos < 0 || ePos < 0 { return false, [], 0; }
    return true, number[decimalPos + 1..ePos], SignedAtoi(number[ePos + 1..]);
  }

  /** The padded digits of a whole decimal and the integer strconv.ParseInt reads in them. */
  method Expand(sign: Bytes, mantissa: Bytes, exp: int, ghost d: Dec) returns (text: Bytes, v: int)
    requires WellFormed(d) && Whole(d) && mantissa == d.digits && exp == d.exp
    requires sign == if d.neg then [MINUS] else []
    ensures text == SignedItoa(IntOf(d)) && v == IntOf(d)
  {
    var digits := mantissa + Zeros(exp - |mantissa|);
    assert digits == WholeDigits(d);
    text := sign + digits;
    WholeTextReads(d);
    v := SignedAtoi(text);
  }

  /** Exactly the whole decimals in the range of int64 come out as integers, and exactly. */
  method TryConvertFromScientificNotation(val: Bytes, getInt64: bool, ghost d: Dec)
    returns (ret: Bytes, isInt64: bool, i64: int)
    requires WellFormed(d) && val == PlainText(d)
    ensures isInt64 <==> Whole(d) && (if getInt64 then InInt64(IntOf(d)) else d.exp <= 20)
    ensures isInt64 ==> ret == SignedItoa(IntOf(d))
    ensures i64 == if isInt64 && getInt64 then IntOf(d) else 0
    ensures !isInt64 ==> ret == val
  {
    PlainTextSign(d);
    if Whole(d) && InInt64(IntOf(d)) { Int64IsShort(d); }
    var sign, number := [], val;
    if val[0] == MINUS || val[0] == PLUS { sign, number := val[..1], val[1..]; }
    var ok, mantissa, exp := Locate(number, d);
    if !ok || exp > 20 { return val, false, 0; }
    if exp > 0 && exp >= |mantissa| {
      var text, v := Expand(sign, mantissa, exp, d);
      if !getInt64 { return text, true, 0; }
      if !InInt64(v) { return val, false, 0; }  // the error of strconv.ParseInt
      return text, true, v;
    }
    return val, false, 0;
  }

  /**
    Every int64 but zero survives the way into the code and back, flagged as an integer; zero
    comes back as the text of a float.
   */
  method Int64ThroughCode(v: int) returns (code: Bytes, isInt64: bool, back: int)
    requires InInt64(v)
    ensures code == FloatCode(DecimalOfInt(v))
    ensures if v == 0 then !isInt64 else isInt64 && back == v
  {
    var text := ConvertToScientificNotation(v);
    code := EncodeFloat(text, IntSci(v));
    var ts := DecodeFloat(code, DecimalOfInt(v));
    TrimmedFloat(DecimalOfInt(v));
    var ret;
    ret, isInt64, back := TryConvertFromScientificNotation(TrimPlus(ts), true, DecimalOfInt(v));
    if v != 0 { IntOfDecimal(v); }
  }
}
