/**
  Between the texts of numbers and their codes: EncodeFloat on scientific notation and DecodeFloat
  back to text.
 */
module FloatCodec {
  import opened Bytes
  import opened DecimalText
  import opened IntCodec
  import opened FloatOrder

  const EXP: Byte := 101

  // ---- scientific notation -----------------------------------------------------------------------

  /** -l.rest e exp, as strconv.FormatFloat (pad: two exponent digits) or the int64 path writes it. */
  datatype Sci = Sci(neg: bool, lead: Byte, dot: bool, rest: Bytes, exp: int, pad: bool)

  predicate IsSci(x: Sci)
  {
    && IsDigit(x.lead) && IsDigits(x.rest)
    && (x.rest != [] ==> x.dot)
    && (x.lead == ZERO ==> x.rest == [])
  }

  function Mantissa(x: Sci): Bytes { [x.lead] + (if x.dot then [DOT] else []) + x.rest }

  function ExpText(exp: int, pad: bool): Bytes
  {
    var t := Itoa(if exp < 0 then -exp else exp);
    [if exp < 0 then MINUS else PLUS] + (if pad && |t| < 2 then [ZERO] + t else t)
  }

  function Render(x: Sci): Bytes
  {
    (if x.neg then [MINUS] else []) + (Mantissa(x) + [EXP] + ExpText(x.exp, x.pad))
  }

  /** The number the text denotes. */
  function DecOf(x: Sci): Dec
  {
    if x.lead == ZERO then Zero else Dec(x.neg, [x.lead] + x.rest, x.exp + 1)
  }

  /** The bytes: '-', '.', 'e', and a signed exponent, which 'e' formatting pads to two digits. */
  lemma SciBytes(lead: Byte, rest: Bytes, exp: nat)
    ensures Render(Sci(false, lead, false, [], exp, false)) == [lead] + [101, 43] + Itoa(exp)
    ensures Render(Sci(false, lead, true, rest, exp, false)) == [lead] + [46] + rest + [101, 43] + Itoa(exp)
    ensures exp > 0 ==> ExpText(0 - exp, false) == [45] + Itoa(exp)
    ensures exp < 10 ==> ExpText(exp, true) == [43, 48] + Itoa(exp)
    ensures exp >= 10 ==> ExpText(exp, true) == [43] + Itoa(exp)
    ensures Render(Sci(true, lead, true, rest, exp, false))
         == [45] + Render(Sci(false, lead, true, rest, exp, false))
  {
    NothingBehind([lead]);
    SciRegroup([lead], rest, Itoa(exp));
    NothingBefore(Mantissa(Sci(false, lead, true, rest, exp, false)) + [101] + ExpText(exp, false));
    NothingBefore(Mantissa(Sci(false, lead, false, [], exp, false)) + [101] + ExpText(exp, false));
  }

  lemma SciRegroup(lead: Bytes, rest: Bytes, digits: Bytes)
    ensures lead + [46] + rest + [101] + ([43] + digits) == lead + [46] + rest + [101, 43] + digits
    ensures lead + [] + [101] + ([43] + digits) == lead + [101, 43] + digits
  {
  }

  /** strconv.Atoi on a text with an optional sign. */
  function SignedAtoi(t: Bytes): int
  {
    if t == [] then 0
    else if t[0] == MINUS then 0 - Count(t[1..])
    else if t[0] == PLUS then Count(t[1..])
    else Count(t)
  }

  lemma AtoiLeadingZero(t: Bytes)
    requires |t| == 1
    ensures Atoi([ZERO] + t) == Atoi(t)
  {
    var u := [ZERO] + t;
    assert u[..1] == [ZERO] && t[..0] == [];
    assert Atoi([ZERO]) == 0 by { assert [ZERO][..0] == []; }
  }

  lemma CountDigits(t: Bytes)
    ensures Count(t) == if IsDigits(t) then Atoi(t) else 0
  {
    DigitsRead(t);
    if IsDigits(t) { AtoiBounds(t); }
  }

  lemma ExpTextReads(exp: int, pad: bool)
    ensures SignedAtoi(ExpText(exp, pad)) == exp
  {
    var t := Itoa(if exp < 0 then -exp else exp);
    AtoiItoa(if exp < 0 then -exp else exp);
    if pad && |t| < 2 { AtoiLeadingZero(t); }
    var digits := if pad && |t| < 2 then [ZERO] + t else t;
    CountDigits(digits);
    assert ExpText(exp, pad)[1..] == digits;
  }

  // ---- pieces of EncodeFloat -----------------------------------------------------------------------

  /** strconv.ParseFloat(text) == 0, for the texts of float64 and int64 values. */
  predicate ParsesToZero(text: Bytes)
  {
    || text == [] || text[0] == EXP
    || ((text[0] == ZERO || text[0] == DOT || text[0] == PLUS || text[0] == MINUS) && ParsesToZero(text[1..]))
  }

  lemma RenderReads(x: Sci)
    requires IsSci(x)
    ensures ParsesToZero(Render(x)) <==> x.lead == ZERO
    ensures Render(x) != [] && (Render(x)[0] == MINUS <==> x.neg) && Render(x)[0] != PLUS
    ensures x.neg ==> Render(x)[1..] == Mantissa(x) + [EXP] + ExpText(x.exp, x.pad)
    ensures !x.neg ==> Render(x) == Mantissa(x) + [EXP] + ExpText(x.exp, x.pad)
  {
    var body := Mantissa(x) + [EXP] + ExpText(x.exp, x.pad);
    assert body[0] == x.lead;
    assert ParsesToZero(body) <==> x.lead == ZERO by {
      if x.rest == [] {
        var b1 := body[1..];
        assert b1[0] == (if x.dot then DOT else EXP);
        assert x.dot ==> b1[1..][0] == EXP;
        assert x.dot ==> ParsesToZero(b1[1..]);
        assert ParsesToZero(b1);
      }
    }
    if x.neg {
      Rest([MINUS], body);
      assert [MINUS][1..] + body == body;
    } else {
      assert [] + body == body;
    }
  }

  /** signPrefix: the sign byte and the text behind an explicit sign. */
  function SignPrefix(text: Bytes): (Byte, Bytes)
    requires text != []
  {
    if text[0] == PLUS then (GT, text[1..])
    else if text[0] == MINUS then (MINUS, text[1..])
    else (GT, text)
  }

  /** The loops that look for the first `sep`. */
  method Split(text: Bytes, sep: Byte, ghost before: Bytes, ghost after: Bytes) returns (b: Bytes, a: Bytes)
    requires text == before + [sep] + after && sep !in before
    ensures b == before && a == after
  {
    var i := 0;
    while text[i] != sep
      invariant 0 <= i <= |before|
      invariant text[i] == if i < |before| then before[i] else sep
      decreases |before| - i
    {
      i := i + 1;
    }
    b, a := text[..i], text[i + 1..];
  }

  function Undotted(text: Bytes): Bytes
  {
    if text == [] then []
    else Undotted(text[..|text| - 1]) + (if text[|text| - 1] == DOT then [] else [text[|text| - 1]])
  }

  lemma {:induction false} UndottedDigits(t: Bytes)
    requires DOT !in t
    ensures Undotted(t) == t
  {
    if t != [] { UndottedDigits(t[..|t| - 1]); }
  }

  lemma {:induction false} UndottedConcat(t: Bytes, u: Bytes)
    ensures Undotted(t + u) == Undotted(t) + Undotted(u)
  {
    if u == [] {
      assert t + u == t;
    } else {
      UndottedConcat(t, u[..|u| - 1]);
      assert (t + u)[..|t + u| - 1] == t + u[..|u| - 1];
    }
  }

  lemma UndottedMantissa(x: Sci)
    requires IsSci(x)
    ensures Undotted(Mantissa(x)) == [x.lead] + x.rest
  {
    UndottedConcat([x.lead] + (if x.dot then [DOT] else []), x.rest);
    UndottedLead(x.lead, x.dot);
    UndottedDigits(x.rest);
  }

  lemma UndottedLead(lead: Byte, dot: bool)
    requires lead != DOT
    ensures Undotted([lead] + (if dot then [DOT] else [])) == [lead]
  {
    UndottedDigits([lead]);
    var t := [lead] + (if dot then [DOT] else []);
    if dot { assert t[..|t| - 1] == [lead]; } else { assert t == [lead]; }
  }

  method Undot(text: Bytes) returns (r: Bytes)
    ensures r == Undotted(text)
  {
    r := [];
    for i := 0 to |text|
      invariant r == Undotted(text[..i])
    {
      assert text[..i + 1][..i] == text[..i];
      if text[i] != DOT { r := r + [text[i]]; }
    }
    assert text[..|text|] == text;
  }

  /** EncodeSD: sign, the digits behind the point, complemented when negative, and the end byte. */
  method EncodeSD(text: Bytes, ghost neg: bool, ghost before: Bytes, ghost digits: Bytes)
    returns (code: Bytes)
    requires text == before + [DOT] + digits && before != [] && DOT !in before
    requires neg <==> before[0] == MINUS
    ensures code == [Sign(neg)] + Tail(neg, digits)
  {
    ghost var rest := if before[0] == PLUS || before[0] == MINUS then before[1..] else before;
    Parts(before, [DOT], digits);
    var (prefix, body) := SignPrefix(text);
    code := [prefix];
    assert body == rest + [DOT] + digits by {
      if before[0] == PLUS || before[0] == MINUS { assert before[1..] + ([DOT] + digits) == body; }
    }
    var dropped, found := Split(body, DOT, rest, digits);
    if prefix == MINUS { found := Complemented(found); }
    code := code + (found + [if prefix == MINUS then GT else MINUS]);
  }

  /** Sign, digits and exponent of a text in scientific notation. */
  method Dissect(text: Bytes, ghost x: Sci) returns (prefix: Byte, digits: Bytes, exp: int)
    requires IsSci(x) && text == Render(x)
    ensures prefix == Sign(x.neg) && digits == [x.lead] + x.rest && exp == x.exp
  {
    RenderReads(x);
    var signed := SignPrefix(text);
    prefix := signed.0;
    var mant, e := Split(signed.1, EXP, Mantissa(x), ExpText(x.exp, x.pad));
    digits := Undot(mant);
    UndottedMantissa(x);
    exp := SignedAtoi(e);
    ExpTextReads(x.exp, x.pad);
  }

  /** The text of a number becomes the code of that number. */
  method EncodeFloat(text: Bytes, ghost x: Sci) returns (code: Bytes)
    requires IsSci(x) && text == Render(x)
    ensures code == FloatCode(DecOf(x))
  {
    RenderReads(x);
    if ParsesToZero(text) { return [ZERO]; }
    var prefix, digits, exp := Dissect(text, x);
    code := EncodeParts(prefix, digits, exp + 1, x.neg);
  }

  /** The end of EncodeFloat: sign byte, exponent and small decimal, one behind the other. */
  method EncodeParts(prefix: Byte, digits: Bytes, exp: int, ghost neg: bool) returns (code: Bytes)
    requires prefix == Sign(neg)
    ensures code == FloatCode(Dec(neg, digits, exp))
  {
    var n := if prefix == MINUS then -exp else exp;
    code := [prefix];
    assert code[1..] == [];
    var c := EncodeItoa(n, code[1..]);
    NothingBefore(IntCode(n));
    code := code + c;
    var sd := EncodeSD([prefix, ZERO] + [DOT] + digits, neg, [prefix, ZERO], digits);
    Behind(prefix, Tail(neg, digits));
    code := code + sd[1..];
  }

  // ---- DecodeFloat -----------------------------------------------------------------------------------

  function DecodedExp(neg: bool, exp: int): Bytes
  {
    [if exp < 0 || (exp == 0 && neg) then MINUS else PLUS] + Itoa(if exp < 0 then -exp else exp)
  }

  /** The text DecodeFloat writes, +0.digits e exp. */
  function DecodedFloat(d: Dec): Bytes
  {
    match d
    case Zero => [ZERO]
    case Dec(neg, digits, exp) =>
      [if neg then MINUS else PLUS] + ([ZERO, DOT] + digits + [EXP] + DecodedExp(neg, exp))
  }

  method DecodeSD(code: Bytes, ghost neg: bool, ghost digits: Bytes) returns (text: Bytes)
    requires IsDigits(digits) && code == [Sign(neg)] + Tail(neg, digits)
    ensures text == [if neg then MINUS else PLUS, ZERO, DOT] + digits
  {
    var sign := if code[0] == GT then PLUS else MINUS;
    text := [sign, ZERO, DOT];
    var body := code[1..|code| - 1];
    assert body == Signed(neg, digits);
    if code[0] == MINUS { body := Complemented(body); }
    SignedTwice(neg, digits);
    text := text + body;
  }

  lemma FloatCodeRest(d: Dec)
    requires d.Dec?
    ensures FloatCode(d)[1..] == IntCode(if d.neg then -d.exp else d.exp) + Tail(d.neg, d.digits)
  {
  }

  /** The exponent behind the sign byte; a negative number stores it negated. */
  method DecodeExponent(code: Bytes, neg: bool, ghost exp: int, ghost tail: Bytes)
    returns (skip: nat, exponent: Bytes)
    requires code == IntCode(if neg then -exp else exp) + tail
    ensures skip == |IntCode(if neg then -exp else exp)| && exponent == DecodedExp(neg, exp)
  {
    skip, exponent := DecodeInt(code, if neg then -exp else exp, tail);
    if code[0] != MINUS && code[0] != GT { exponent := [PLUS] + exponent; }
    if neg { exponent := [if exponent[0] == PLUS then MINUS else PLUS] + exponent[1..]; }
  }

  lemma Regroup(sign: Byte, digits: Bytes, exponent: Bytes)
    ensures [sign, ZERO, DOT] + digits + [EXP] + exponent
         == [sign] + ([ZERO, DOT] + digits + [EXP] + exponent)
  {
  }

  /** The code of a number becomes the text +-0.digits e exp of that number. */
  method DecodeFloat(code: Bytes, ghost d: Dec) returns (text: Bytes)
    requires WellFormed(d) && code == FloatCode(d)
    ensures text == DecodedFloat(d)
  {
    if |code| == 1 && code[0] == ZERO { return [ZERO]; }
    FloatCodeRest(d);
    var msign := code[0];
    var skip, exponent := DecodeExponent(code[1..], msign == MINUS, d.exp, Tail(d.neg, d.digits));
    Parts([Sign(d.neg)], IntCode(if d.neg then -d.exp else d.exp), Tail(d.neg, d.digits));
    text := DecodeSD([msign] + code[1 + skip..], d.neg, d.digits);
    text := text + [EXP] + exponent;
    Regroup(text[0], d.digits, exponent);
  }
}
