/**
  Self-delimiting, order preserving codes of integers: a sign byte, the code of the text's length
  when the text has more than one digit, and the text itself, complemented for negative numbers.
 */
module IntCodec {
  import opened Bytes
  import opened DecimalText

  // ---- the code ------------------------------------------------------------------------------

  /** negIntLookup on digits. */
  function Nines(b: Byte): Byte { if IsDigit(b) then ZERO + NINE - b else 0 }

  function Complement(text: Bytes): (r: Bytes)
    ensures |r| == |text| && forall i :: 0 <= i < |text| ==> r[i] == Nines(text[i])
  {
    seq(|text|, i requires 0 <= i < |text| => Nines(text[i]))
  }

  function Sign(neg: bool): Byte { if neg then MINUS else GT }

  function Signed(neg: bool, text: Bytes): (r: Bytes)
    ensures |r| == |text|
  {
    if neg then Complement(text) else text
  }

  /** encodePosInt and encodeNegInt: sign, code of the length unless it is one, digits. */
  function SignCode(neg: bool, text: Bytes): (code: Bytes)
    ensures |code| > |text| && code[0] == Sign(neg)
    decreases |text|
  {
    ItoaIsShort(|text|);
    [Sign(neg)] + (if |text| > 1 then SignCode(neg, Itoa(|text|)) else []) + Signed(neg, text)
  }

  /** The code EncodeInt gives an integer. */
  function IntCode(n: int): (code: Bytes)
    ensures code != []
    ensures code[0] == if n > 0 then GT else if n < 0 then MINUS else ZERO
  {
    if n == 0 then [ZERO] else if n > 0 then SignCode(false, Itoa(n)) else SignCode(true, Itoa(-n))
  }

  /** The bytes: 62 or 45 for the sign, 48 for zero, and digits d as 48 + d or, complemented, as 57 - d. */
  lemma IntBytes(n: int)
    ensures IntCode(0) == [48] && forall b: Byte :: Nines(b) == if 48 <= b <= 57 then 105 - b else 0
    ensures 0 < n < 10 ==> IntCode(n) == [62, 48 + n] && IntCode(-n) == [45, 57 - n]
    ensures n >= 10 ==> IntCode(n) == [62] + IntCode(|Itoa(n)|) + Itoa(n)
    ensures n >= 10 ==> IntCode(-n) == [45] + IntCode(-|Itoa(n)|) + Complement(Itoa(n))
    ensures n >= 10 ==> forall i :: 0 <= i < |Itoa(n)| ==> Complement(Itoa(n))[i] == 105 - Itoa(n)[i]
  {
    if 0 < n < 10 {
      NothingBehind([62]);
      NothingBehind([45]);
      assert Itoa(n) == [48 + n] && Complement(Itoa(n)) == [57 - n];
    }
  }

  /** strconv.Itoa on any integer, and the signed text that DecodeInt rebuilds. */
  function SignedItoa(n: int): Bytes { if n < 0 then [MINUS] + Itoa(-n) else Itoa(n) }

  function DecodedText(n: int): Bytes { if n > 0 then [PLUS] + Itoa(n) else SignedItoa(n) }

  /** isZero: the spellings 0, +0 and -0. */
  predicate IsZeroText(text: Bytes)
  {
    text == [ZERO] || (|text| == 2 && (text[0] == PLUS || text[0] == MINUS) && text[1] == ZERO)
  }

  /** EncodeInt on any text. */
  function TextCode(text: Bytes): Bytes
  {
    if text == [] then []
    else if IsZeroText(text) then [ZERO]
    else if text[0] == PLUS then SignCode(false, text[1..])
    else if text[0] == MINUS then SignCode(true, text[1..])
    else SignCode(false, text)
  }

  /** Every spelling of an integer gets that integer's code. */
  lemma TextCodeOfInt(n: int)
    ensures TextCode(SignedItoa(n)) == IntCode(n)
    ensures n >= 0 ==> TextCode([43] + Itoa(n)) == IntCode(n)
    ensures n >= 0 ==> TextCode([45] + Itoa(n)) == IntCode(-n)
  {
    if n == 0 {
      assert Itoa(n) == [48] && [43] + [48] == [43, 48] && [45] + [48] == [45, 48];
    } else if n < 0 {
      TextCodeOfSign(MINUS, Itoa(-n));
    } else if n > 0 {
      TextCodeOfSign(PLUS, Itoa(n));
      TextCodeOfSign(MINUS, Itoa(n));
      TextCodeUnsigned(Itoa(n));
    }
  }

  lemma TextCodeUnsigned(text: Bytes)
    requires text != [] && IsDigit(text[0]) && text[0] != ZERO
    ensures TextCode(text) == SignCode(false, text)
  {
  }

  lemma TextCodeOfSign(sign: Byte, text: Bytes)
    requires sign == PLUS || sign == MINUS
    requires text != [] && text[0] != ZERO
    ensures TextCode([sign] + text) == SignCode(sign == MINUS, text)
  {
    assert ([sign] + text)[1..] == text;
  }

  // ---- order ---------------------------------------------------------------------------------

  lemma SignCodeTail(neg: bool, text: Bytes)
    ensures |text| <= 1 ==> SignCode(neg, text) == [Sign(neg)] + Signed(neg, text)
    ensures |text| > 1 ==>
      SignCode(neg, text) == [Sign(neg)] + (SignCode(neg, Itoa(|text|)) + Signed(neg, text))
  {
    if |text| > 1 {
      Assoc([Sign(neg)], SignCode(neg, Itoa(|text|)), Signed(neg, text));
    } else {
      NothingBehind([Sign(neg)]);
    }
  }

  lemma {:induction false} PosOrder(m: nat, n: nat)
    requires 1 <= m < n
    ensures Below(SignCode(false, Itoa(m)), SignCode(false, Itoa(n)))
    decreases n
  {
    var t, u := Itoa(m), Itoa(n);
    AtoiItoa(m);
    AtoiItoa(n);
    if |u| < |t| { LongerIsLarger(u, t); }
    SignCodeTail(false, t);
    SignCodeTail(false, u);
    if |t| == |u| {
      SameLengthOrder(t, u);
      var pre := [GT] + (if |t| > 1 then SignCode(false, Itoa(|t|)) else []);
      BelowPrefixed(pre, t, u);
      assert pre + t == SignCode(false, t) && pre + u == SignCode(false, u);
    } else if |t| == 1 {
      assert IsDigit(t[0]);
      BelowPrefixed([GT], t, SignCode(false, Itoa(|u|)) + u);
    } else {
      ItoaIsShort(n);
      PosOrder(|t|, |u|);
      var lt, lu := SignCode(false, Itoa(|t|)), SignCode(false, Itoa(|u|));
      BelowExtends([GT], lt, lu, t, u);
      assert [GT] + lt + t == [GT] + (lt + t) && [GT] + lu + u == [GT] + (lu + u);
    }
  }

  /** The exchange of bytes that takes the codes of positive numbers to those of negative ones. */
  function Mirror(b: Byte): Byte { if b == GT then MINUS else Nines(b) }

  function MirrorAll(code: Bytes): (r: Bytes)
    ensures |r| == |code| && forall i :: 0 <= i < |code| ==> r[i] == Mirror(code[i])
  {
    seq(|code|, i requires 0 <= i < |code| => Mirror(code[i]))
  }

  predicate CodeBytes(code: Bytes) { forall i :: 0 <= i < |code| ==> code[i] == GT || IsDigit(code[i]) }

  lemma MirrorSigned(code: Bytes, text: Bytes)
    requires IsDigits(text)
    ensures MirrorAll([GT] + (code + text)) == [MINUS] + (MirrorAll(code) + Complement(text))
  {
  }

  lemma {:induction false} NegIsMirror(text: Bytes)
    requires IsDigits(text)
    ensures CodeBytes(SignCode(false, text))
    ensures SignCode(true, text) == MirrorAll(SignCode(false, text))
    decreases |text|
  {
    SignCodeTail(false, text);
    SignCodeTail(true, text);
    if |text| > 1 {
      ItoaIsShort(|text|);
      NegIsMirror(Itoa(|text|));
      MirrorSigned(SignCode(false, Itoa(|text|)), text);
    } else {
      MirrorSigned([], text);
      assert [] + text == text && MirrorAll([]) + Complement(text) == Complement(text);
    }
  }

  lemma {:induction false} MirrorReverses(a: Bytes, b: Bytes)
    requires CodeBytes(a) && CodeBytes(b) && Below(a, b)
    ensures Below(MirrorAll(b), MirrorAll(a))
  {
    assert MirrorAll(a)[1..] == MirrorAll(a[1..]) && MirrorAll(b)[1..] == MirrorAll(b[1..]);
    if a[0] == b[0] { MirrorReverses(a[1..], b[1..]); }
  }

  lemma NegOrder(m: nat, n: nat)
    requires 1 <= m < n
    ensures Below(SignCode(true, Itoa(n)), SignCode(true, Itoa(m)))
  {
    PosOrder(m, n);
    NegIsMirror(Itoa(m));
    NegIsMirror(Itoa(n));
    MirrorReverses(SignCode(false, Itoa(m)), SignCode(false, Itoa(n)));
  }

  /** EncodeInt embeds the order of the integers: smaller integers part below larger ones. */
  lemma IntOrder(m: int, n: int)
    requires m < n
    ensures Below(IntCode(m), IntCode(n))
  {
    if m > 0 {
      PosIntOrder(m, n);
    } else if n < 0 {
      NegIntOrder(m, n);
    } else {
      FirstBelow(IntCode(m), IntCode(n));
    }
  }

  lemma PosIntOrder(m: int, n: int)
    requires 0 < m < n
    ensures Below(IntCode(m), IntCode(n))
  {
    PosOrder(m, n);
  }

  lemma NegIntOrder(m: int, n: int)
    requires m < n < 0
    ensures Below(IntCode(m), IntCode(n))
  {
    NegOrder(-n, -m);
  }

  /** Whatever follows them, codes compare as the integers do; no code is a prefix of another. */
  lemma IntCodeEmbeds(m: int, n: int, s: Bytes, t: Bytes)
    ensures m < n ==> Compare(IntCode(m) + s, IntCode(n) + t) == -1
    ensures m > n ==> Compare(IntCode(m) + s, IntCode(n) + t) == 1
    ensures IntCode(m) == IntCode(n) <==> m == n
    ensures m != n ==> !(IntCode(m) <= IntCode(n))
  {
    if m != n {
      var lo, hi := if m < n then m else n, if m < n then n else m;
      var x, y := if m < n then s else t, if m < n then t else s;
      IntOrder(lo, hi);
      BelowDecides(IntCode(lo), IntCode(hi));
      BelowSuffixed(IntCode(lo), IntCode(hi), x, y);
      BelowDecides(IntCode(lo) + x, IntCode(hi) + y);
    }
  }

  lemma SignCodeRest(neg: bool, text: Bytes)
    ensures |text| <= 1 ==> SignCode(neg, text)[1..] == Signed(neg, text)
    ensures |text| > 1 ==> SignCode(neg, text)[1..] == SignCode(neg, Itoa(|text|)) + Signed(neg, text)
  {
    SignCodeTail(neg, text);
  }

  lemma SignedTwice(neg: bool, text: Bytes)
    requires IsDigits(text)
    ensures Signed(neg, Signed(neg, text)) == text
  {
  }

  // ---- the operations ------------------------------------------------------------------------

  /** The loops that apply negIntLookup to a text. */
  method Complemented(found: Bytes) returns (text: Bytes)
    ensures text == Complement(found)
  {
    text := found;
    for i := 0 to |text|
      invariant |text| == |found|
      invariant forall j :: 0 <= j < |found| ==> text[j] == if j < i then Nines(found[j]) else found[j]
    {
      text := text[i := Nines(text[i])];
    }
  }

  lemma SignCodeBehind(code: Bytes, neg: bool, text: Bytes)
    ensures |text| <= 1 ==> code + [Sign(neg)] + Signed(neg, text) == code + SignCode(neg, text)
    ensures |text| > 1 ==>
      code + [Sign(neg)] + SignCode(neg, Itoa(|text|)) + Signed(neg, text) == code + SignCode(neg, text)
  {
    if |text| <= 1 {
      SignCodeTail(neg, text);
      Assoc(code, [Sign(neg)], Signed(neg, text));
    } else {
      Assoc4(code, [Sign(neg)], SignCode(neg, Itoa(|text|)), Signed(neg, text));
    }
  }

  method EncodePosInt(text: Bytes, code: Bytes) returns (r: Bytes)
    ensures r == code + SignCode(false, text)
    decreases |text|
  {
    SignCodeBehind(code, false, text);
    r := code + [GT];
    if |text| > 1 {
      ItoaIsShort(|text|);
      var c := EncodePosInt(Itoa(|text|), r[1..]);
      FirstAside(r, SignCode(false, Itoa(|text|)));
      r := r[..1] + c;
    }
    r := r + text;
  }

  method EncodeNegInt(text: Bytes, code: Bytes) returns (r: Bytes)
    ensures r == code + SignCode(true, text)
    decreases |text|
  {
    SignCodeBehind(code, true, text);
    r := code + [MINUS];
    if |text| > 1 {
      ItoaIsShort(|text|);
      var c := EncodeNegInt(Itoa(|text|), r[1..]);
      FirstAside(r, SignCode(true, Itoa(|text|)));
      r := r[..1] + c;
    }
    var digits := Complemented(text);
    r := r + digits;
  }

  method EncodeInt(text: Bytes, code: Bytes) returns (r: Bytes)
    ensures r == code + TextCode(text)
  {
    if |text| == 0 { return code; }
    if IsZeroText(text) { return code + [ZERO]; }
    if text[0] == PLUS {
      r := EncodePosInt(text[1..], code);
    } else if text[0] == MINUS {
      r := EncodeNegInt(text[1..], code);
    } else {
      r := EncodePosInt(text, code);
    }
  }

  /** EncodeInt on strconv.Itoa(n), as lengths and exponents use it. */
  method EncodeItoa(n: int, code: Bytes) returns (r: Bytes)
    ensures r == code + IntCode(n)
  {
    r := EncodeInt(SignedItoa(n), code);
    TextCodeOfInt(n);
  }

  /** Where the pieces of a long text's code stand. */
  lemma LongCodeParts(neg: bool, text: Bytes, suffix: Bytes, code: Bytes)
    requires |text| > 1
    requires code == SignCode(neg, text)[1..] + suffix
    ensures var len, body := SignCode(neg, Itoa(|text|)), Signed(neg, text);
      && |code| >= |len| + |body|
      && code[0] == Sign(neg)
      && code[1..] == len[1..] + (body + suffix)
      && code[|len|..|len| + |body|] == body
      && |SignCode(neg, text)| == 1 + |len| + |body|
  {
    SignCodeRest(neg, text);
    Parts(SignCode(neg, Itoa(|text|)), Signed(neg, text), suffix);
  }

  /** doDecodeInt, behind the first sign byte of a code: the digits as they stand in the code. */
  method DoDecodeInt(code: Bytes, ghost neg: bool, ghost text: Bytes, ghost suffix: Bytes)
    returns (skip: nat, found: Bytes)
    requires text != [] && IsDigits(text)
    requires code == SignCode(neg, text)[1..] + suffix
    ensures skip == |SignCode(neg, text)| - 1 - |text| && found == Signed(neg, text)
    decreases |code|
  {
    if |text| > 1 { LongCodeParts(neg, text, suffix, code); } else { SignCodeTail(neg, text); }
    if code[0] == GT || code[0] == MINUS {
      skip, found := DoDecodeInt(code[1..], neg, Itoa(|text|), Signed(neg, text) + suffix);
      if code[0] == MINUS { found := Complemented(found); }
      SignedTwice(neg, Itoa(|text|));
      CountItoa(|text|);
      var s, l := skip + |found| + 1, Count(found);
      skip, found := s, code[s..s + l];
    } else {
      skip, found := 0, [code[0]];
    }
  }

  /** DecodeInt undoes EncodeInt in front of any bytes and consumes exactly the code. */
  method DecodeInt(code: Bytes, ghost n: int, ghost suffix: Bytes) returns (consumed: nat, text: Bytes)
    requires code == IntCode(n) + suffix
    ensures consumed == |IntCode(n)| && text == DecodedText(n)
  {
    if code[0] == ZERO { return 1, [ZERO]; }
    ghost var digits := Itoa(if n < 0 then -n else n);
    Rest(SignCode(n < 0, digits), suffix);
    var skip, final := DoDecodeInt(code[1..], n < 0, digits, suffix);
    if code[0] == GT {
      text := [PLUS] + final;
    } else {
      final := Complemented(final);
      SignedTwice(true, digits);
      text := [MINUS] + final;
    }
    consumed := skip + |text|;
  }
}
