/**
  FixEncodedInt: encodings of an earlier release kept the trailing zeros of integers; they are
  rewritten, at any nesting, to the one encoding each value has now.
 */
module FixInt {
  import opened Bytes
  import opened DecimalText
  import opened IntCodec
  import opened FloatOrder
  import opened FloatCodec
  import opened Int64Text
  import opened StringCodec
  import opened Collate
  import opened N1qlCodec

  // ---- encodings with zeros kept -------------------------------------------------------------------

  type ScalarValue = v: Value | !v.Number? && !v.Array? && !v.Object? witness Null

  /** A value together with how many trailing zeros each of its numbers kept. */
  datatype Raw =
    | Scalar(v: ScalarValue)
    | Num(d: Decimal, zeros: nat)
    | Arr(elems: seq<Raw>)
    | Obj(props: map<Bytes, Raw>)

  function Padded(d: Decimal, zeros: nat): (r: Dec)
    ensures WellFormed(r)
  {
    match d
    case Zero => Zero
    case Dec(neg, digits, exp) => Dec(neg, digits + Zeros(zeros), exp)
  }

  function NumberCode(d: Dec): Bytes { [TYPE_NUMBER] + FloatCode(d) + [TERMINATOR] }

  /** The bytes of `r` in front of `suffix`. */
  ghost function Spelled(r: Raw, suffix: Bytes): (code: Bytes)
    ensures code != []
    decreases r, 1, 0
  {
    match r
    case Scalar(v) => Code(v) + suffix
    case Num(d, zeros) => NumberCode(Padded(d, zeros)) + suffix
    case Arr(_) => [TYPE_ARRAY] + SpelledElems(r, 0, suffix)
    case Obj(m) => [TYPE_OBJ] + (LengthCode(|m|) + SpelledPairs(r, SortedKeys(m.Keys), 0, suffix))
  }

  ghost function SpelledElems(r: Raw, i: nat, suffix: Bytes): (code: Bytes)
    requires r.Arr? && i <= |r.elems|
    ensures code != []
    decreases r, 0, |r.elems| - i
  {
    if i == |r.elems| then [TERMINATOR] + suffix else Spelled(r.elems[i], SpelledElems(r, i + 1, suffix))
  }

  ghost function SpelledPairs(r: Raw, keys: seq<Bytes>, i: nat, suffix: Bytes): (code: Bytes)
    requires r.Obj? && i <= |keys| && forall k :: k in keys ==> k in r.props
    decreases r, 0, |keys| - i
  {
    if i == |keys| then [TERMINATOR] + suffix
    else
      assert keys[i] in keys;
      KeyCode(keys[i]) + Spelled(r.props[keys[i]], SpelledPairs(r, keys, i + 1, suffix))
  }

  /** The value that `r` spells. */
  ghost function Meant(r: Raw): Value
  {
    match r
    case Scalar(v) => v
    case Num(d, _) => Number(d)
    case Arr(xs) => Array(seq(|xs|, i requires 0 <= i < |xs| => Meant(xs[i])))
    case Obj(m) => Object(map k | k in m :: Meant(m[k]))
  }

  /** The way the present encoder spells a value. */
  ghost function Canonic(v: Value): Raw
  {
    match v
    case Number(d) => Num(d, 0)
    case Array(xs) => Arr(seq(|xs|, i requires 0 <= i < |xs| => Canonic(xs[i])))
    case Object(m) => Obj(map k | k in m :: Canonic(m[k]))
    case _ => Scalar(v)
  }

  lemma {:induction false} CanonicMeans(v: Value)
    ensures Meant(Canonic(v)) == v
  {
    match v
    case Array(xs) =>
      forall i | 0 <= i < |xs| ensures Meant(Canonic(xs[i])) == xs[i] { CanonicMeans(xs[i]); }
    case Object(m) =>
      forall k | k in m ensures Meant(Canonic(m[k])) == m[k] { CanonicMeans(m[k]); }
      assert Meant(Canonic(v)).props == m;
    case _ =>
  }

  /** The canonical spelling is what Code says. */
  lemma {:induction false} CanonicSpelled(v: Value, suffix: Bytes)
    ensures Spelled(Canonic(v), suffix) == Code(v) + suffix
    decreases v, 1, 0
  {
    match v
    case Number(d) => assert d.Dec? ==> d.digits + Zeros(0) == d.digits;
    case Array(xs) =>
      CanonicElems(xs, 0, suffix);
      assert xs[0..] == xs;
      ArrayFrame(CodeSeq(xs), suffix);
    case Object(m) => CanonicObject(v, suffix);
    case _ =>
  }

  lemma CanonicObject(v: Value, suffix: Bytes)
    requires v.Object?
    ensures Spelled(Canonic(v), suffix) == Code(v) + suffix
    decreases v, 0
  {
    var keys := SortedKeys(v.props.Keys);
    CanonicKeys(v);
    CanonicPairs(v, keys, 0, suffix);
    assert keys[0..] == keys;
    ObjectFrame(LengthCode(|v.props|), CodePairs(v, keys), suffix);
    SpelledObject(Canonic(v), suffix);
  }

  lemma SpelledObject(r: Raw, suffix: Bytes)
    requires r.Obj?
    ensures Spelled(r, suffix)
         == [TYPE_OBJ] + (LengthCode(|r.props|) + SpelledPairs(r, SortedKeys(r.props.Keys), 0, suffix))
  {
  }

  lemma CanonicKeys(v: Value)
    requires v.Object?
    ensures Canonic(v).Obj? && Canonic(v).props.Keys == v.props.Keys && |Canonic(v).props| == |v.props|
  {
  }

  lemma ArrayFrame(body: Bytes, suffix: Bytes)
    ensures [TYPE_ARRAY] + (body + ([TERMINATOR] + suffix)) == [TYPE_ARRAY] + (body + [TERMINATOR]) + suffix
  {
  }

  lemma ObjectFrame(len: Bytes, pairs: Bytes, suffix: Bytes)
    ensures [TYPE_OBJ] + (len + (pairs + ([TERMINATOR] + suffix)))
         == [TYPE_OBJ] + len + (pairs + [TERMINATOR]) + suffix
  {
  }

  lemma {:induction false} CanonicElems(xs: seq<Value>, i: nat, suffix: Bytes)
    requires i <= |xs|
    ensures SpelledElems(Canonic(Array(xs)), i, suffix) == CodeSeq(xs[i..]) + ([TERMINATOR] + suffix)
    decreases xs, 0, |xs| - i
  {
    if i == |xs| {
      assert CodeSeq(xs[i..]) == [] && [] + ([TERMINATOR] + suffix) == [TERMINATOR] + suffix;
    } else {
      CanonicElems(xs, i + 1, suffix);
      CanonicSpelled(xs[i], CodeSeq(xs[i + 1..]) + ([TERMINATOR] + suffix));
      CodeSeqStep(xs, i, [TERMINATOR] + suffix);
    }
  }

  lemma {:induction false} CanonicPairs(v: Value, keys: seq<Bytes>, i: nat, suffix: Bytes)
    requires v.Object? && i <= |keys| && forall k :: k in keys ==> k in v.props
    ensures SpelledPairs(Canonic(v), keys, i, suffix) == CodePairs(v, keys[i..]) + ([TERMINATOR] + suffix)
    decreases v, 0, |keys| - i
  {
    if i == |keys| {
      assert CodePairs(v, keys[i..]) == [] && [] + ([TERMINATOR] + suffix) == [TERMINATOR] + suffix;
    } else {
      CanonicPairs(v, keys, i + 1, suffix);
      CodePairsStep(v, keys, i, [TERMINATOR] + suffix);
      CanonicSpelled(v.props[keys[i]], CodePairs(v, keys[i + 1..]) + ([TERMINATOR] + suffix));
    }
  }

  // ---- the integers that kept them -----------------------------------------------------------------

  /** The notation of an earlier release: all digits of the integer. */
  function OldSci(v: int): (x: Sci)
    ensures IsSci(x)
  {
    var t := Itoa(Abs(v));
    if v == 0 then Sci(false, ZERO, true, [], 0, true) else Sci(v < 0, t[0], true, t[1..], |t| - 1, |t| == 1)
  }

  /** How many zeros that leaves standing. */
  function KeptZeros(v: int): nat { |Itoa(Abs(v))| - |TrimZeros(Itoa(Abs(v)))| }

  lemma OldSciDenotes(v: int)
    ensures DecOf(OldSci(v)) == Padded(DecimalOfInt(v), if v == 0 then 0 else KeptZeros(v))
  {
    var t := Itoa(Abs(v));
    TrimThenPad(t);
    assert t == [t[0]] + t[1..];
  }

  /** ConvertToScientificNotation_TestOnly. */
  method ConvertKeepingZeros(v: int) returns (text: Bytes)
    requires InInt64(v)
    ensures text == Render(OldSci(v))
  {
    var intStr := SignedItoa(v);
    var sign, str := [], intStr;
    if intStr[0] == MINUS || intStr[0] == PLUS { sign, str := intStr[..1], intStr[1..]; }
    assert str == Itoa(Abs(v)) && sign == if v < 0 then [MINUS] else [];
    assert v == 0 ==> str == [ZERO];
    var first, rem := str[0], str[1..];
    if |rem| == 0 {
      text := [first, DOT, EXP, PLUS, ZERO, ZERO];
    } else {
      text := [first] + [DOT] + rem + [EXP] + ([PLUS] + Itoa(|rem|));
    }
    text := sign + text;
  }

  /** An int64 as that release encoded it is one of the spellings that get fixed. */
  method EncodeKeepingZeros(v: int, ghost suffix: Bytes) returns (code: Bytes)
    requires InInt64(v)
    ensures code + suffix == Spelled(Num(DecimalOfInt(v), if v == 0 then 0 else KeptZeros(v)), suffix)
  {
    var text := ConvertKeepingZeros(v);
    var cs := EncodeFloat(text, OldSci(v));
    OldSciDenotes(v);
    code := [TYPE_NUMBER] + cs + [TERMINATOR];
  }

  // ---- the rewriting ---------------------------------------------------------------------------------

  lemma PaddedTrims(d: Decimal, zeros: nat)
    requires d.Dec?
    ensures TrimZeros(Padded(d, zeros).digits) == d.digits
  {
    TrimPadded(d.digits, zeros);
    TrimSame(d.digits);
  }

  /** A number is read exactly and written again without its trailing zeros. */
  method FixNumber(code: Bytes, ghost d: Decimal, ghost zeros: nat, ghost suffix: Bytes)
    returns (fixed: Bytes, remaining: Bytes)
    requires code == NumberCode(Padded(d, zeros)) + suffix
    ensures fixed == Code(Number(d)) && remaining == suffix
  {
    ghost var p := Padded(d, zeros);
    FloatCodePlain(p);
    var datum;
    datum, remaining := GetDatum(code, [TYPE_NUMBER] + FloatCode(p), suffix);
    Behind(TYPE_NUMBER, FloatCode(p));
    var ts := DecodeFloat(datum[1..], p);
    TrimmedFloat(p);
    ts := Recode(TrimPlus(ts), d, zeros);
    fixed := [TYPE_NUMBER] + ts + [TERMINATOR];
  }

  /** The text goes through the int64 when it spells one, and through the float64 otherwise. */
  method Recode(text: Bytes, ghost d: Decimal, ghost zeros: nat) returns (code: Bytes)
    requires text == PlainText(Padded(d, zeros))
    ensures code == FloatCode(d)
  {
    ghost var p := Padded(d, zeros);
    if d.Dec? { PaddedTrims(d, zeros); }
    var ts, isInt64, intval := TryConvertFromScientificNotation(text, true, p);
    if isInt64 {
      DecimalOfIntOf(p);
      var intStr := ConvertToScientificNotation(intval);
      code := EncodeFloat(intStr, IntSci(intval));
    } else {
      var val := ParseFloat(ts, p);
      var shortest: Decimal := if val.Zero? then Zero else Dec(val.neg, TrimZeros(val.digits), val.exp);
      code := EncodeFloat(Render(FloatSci(shortest)), FloatSci(shortest));
    }
  }

  /** getStringDatum: everything of a string's code but its last terminator. */
  method GetStringDatum(code: Bytes, ghost s: Bytes, ghost suffix: Bytes) returns (datum: Bytes, remaining: Bytes)
    requires code == KeyCode(s) + suffix
    ensures datum + [TERMINATOR] == KeyCode(s) && remaining == suffix
  {
    Assoc([TYPE_STRING], StringCode(s), suffix);
    Behind(TYPE_STRING, StringCode(s) + suffix);
    var i, done := 1, false;  // the first turn only steps over the type byte
    ghost var rest, mid := s, false;
    while !done
      invariant 1 <= i <= |code|
      invariant if done then i < |code| && code[i] == TERMINATOR && code[i + 1..] == suffix
                else code[i..] == Escape(mid) + (StringCode(rest) + suffix)
      decreases if done then 0 else 1 + |rest|, mid
    {
      i, done, rest, mid := StepDatum(code, i, rest, mid, suffix);
    }
    AllButLast(KeyCode(s), suffix, i);
    datum, remaining := code[..i], code[i + 1..];
  }

  /** The second byte of an escaped 0xFF is stepped over like any other. */
  ghost function Escape(mid: bool): Bytes { if mid then [Not(SUFFIX)] else [] }

  /** One turn of that loop: over a byte, over an escaped zero, or onto the second terminator. */
  method StepDatum(code: Bytes, i: nat, ghost s: Bytes, ghost mid: bool, ghost suffix: Bytes)
    returns (next: nat, done: bool, ghost rest: Bytes, ghost middle: bool)
    requires i <= |code| && code[i..] == Escape(mid) + (StringCode(s) + suffix)
    ensures i < next <= |code|
    ensures if done then next < |code| && code[next] == TERMINATOR && code[next + 1..] == suffix
            else && code[next..] == Escape(middle) + (StringCode(rest) + suffix)
                 && (|rest| < |s| || (rest == s && mid && !middle))
  {
    ghost var c := StringCode(s) + suffix;
    StringCodeHead(s, suffix);
    assert [] + c == c;
    assert code[i..][1..] == code[i + 1..] && (|code| >= i + 2 ==> code[i..][2..] == code[i + 2..]);
    if code[i] == TERMINATOR {
      if code[i + 1] == TERMINATOR { return i + 1, true, s, false; }
      rest, middle := s[1..], false;
      assert [] + (StringCode(rest) + suffix) == StringCode(rest) + suffix;
      return i + 2, false, rest, middle;
    }
    if mid {
      Behind(Not(SUFFIX), c);
      rest, middle := s, false;
    } else {
      rest, middle := s[1..], s[0] == Not(TERMINATOR);
      EscapedRest(c, StringCode(rest) + suffix, middle);
    }
    next, done := i + 1, false;
  }

  lemma EscapedRest(c: Bytes, after: Bytes, middle: bool)
    requires if middle then |c| >= 2 && c[1] == Not(SUFFIX) && c[2..] == after else c != [] && c[1..] == after
    ensures c[1..] == Escape(middle) + after
  {
    if middle { assert c[1..] == [c[1]] + c[2..]; }
  }

  lemma AllButLast(key: Bytes, suffix: Bytes, i: nat)
    requires i < |key + suffix| && (key + suffix)[i] == TERMINATOR && (key + suffix)[i + 1..] == suffix
    ensures (key + suffix)[..i] + [TERMINATOR] == key
  {
  }

  /**
    fixEncodedInt: whatever zeros the numbers kept, the result is the one code of the value, and
    exactly the bytes behind it remain.
   */
  method FixEncodedInt(code: Bytes, ghost r: Raw, ghost suffix: Bytes) returns (fixed: Bytes, remaining: Bytes)
    requires code == Spelled(r, suffix)
    ensures fixed == Code(Meant(r)) && remaining == suffix
    decreases r, 1
  {
    TypeOf(r, suffix);
    if code[0] == TYPE_NUMBER {
      fixed, remaining := FixNumber(code, r.d, r.zeros, suffix);
    } else if code[0] == TYPE_STRING {
      var datum;
      datum, remaining := GetStringDatum(code, r.v.str, suffix);
      fixed := datum + [TERMINATOR];
    } else if code[0] == TYPE_ARRAY {
      fixed, remaining := FixArray(code, r, suffix);
    } else if code[0] == TYPE_OBJ {
      fixed, remaining := FixObject(code, r, suffix);
    } else {
      var datum;
      datum, remaining := GetDatum(code, [TypeByte(r.v)], suffix);
      fixed := datum + [TERMINATOR];
    }
  }

  function RawType(r: Raw): Byte
  {
    match r
    case Scalar(v) => TypeByte(v)
    case Num(_, _) => TYPE_NUMBER
    case Arr(_) => TYPE_ARRAY
    case Obj(_) => TYPE_OBJ
  }

  lemma SpelledType(r: Raw, suffix: Bytes)
    ensures Spelled(r, suffix)[0] == RawType(r)
  {
  }

  lemma MeantType(r: Raw)
    ensures TypeByte(Meant(r)) == RawType(r)
  {
  }

  lemma TypeOf(r: Raw, suffix: Bytes)
    ensures Spelled(r, suffix)[0] == TypeByte(Meant(r))
  {
    SpelledType(r, suffix);
    MeantType(r);
  }

  lemma ElemsEnd(r: Raw, i: nat, suffix: Bytes)
    requires r.Arr? && i <= |r.elems|
    ensures SpelledElems(r, i, suffix)[0] == TERMINATOR <==> i == |r.elems|
    ensures i == |r.elems| ==> SpelledElems(r, i, suffix)[1..] == suffix
  {
    if i < |r.elems| { TypeOf(r.elems[i], SpelledElems(r, i + 1, suffix)); }
  }

  method FixArray(code: Bytes, ghost r: Raw, ghost suffix: Bytes) returns (fixed: Bytes, remaining: Bytes)
    requires r.Arr? && code == Spelled(r, suffix)
    ensures fixed == Code(Meant(r)) && remaining == suffix
    decreases r, 0
  {
    ghost var ys, i := Meant(r).elems, 0;
    fixed := [TYPE_ARRAY];
    var rest := code[1..];
    Behind(TYPE_ARRAY, SpelledElems(r, 0, suffix));
    ElemsEnd(r, 0, suffix);
    assert ys[0..] == ys;
    while rest[0] != TERMINATOR
      invariant 0 <= i <= |ys| && rest == SpelledElems(r, i, suffix)
      invariant rest[0] == TERMINATOR <==> i == |ys|
      invariant fixed + CodeSeq(ys[i..]) == [TYPE_ARRAY] + CodeSeq(ys)
      decreases |ys| - i
    {
      var ts;
      ts, rest := FixEncodedInt(rest, r.elems[i], SpelledElems(r, i + 1, suffix));
      assert ys[i..][0] == ys[i] && ys[i..][1..] == ys[i + 1..];
      Assoc(fixed, ts, CodeSeq(ys[i + 1..]));
      fixed := fixed + ts;
      ElemsEnd(r, i + 1, suffix);
      i := i + 1;
    }
    ElemsEnd(r, i, suffix);
    remaining := rest[1..];
    assert CodeSeq(ys[i..]) == [] && fixed + [] == fixed;
    Assoc([TYPE_ARRAY], CodeSeq(ys), [TERMINATOR]);
    fixed := fixed + [TERMINATOR];
  }

  method FixObject(code: Bytes, ghost r: Raw, ghost suffix: Bytes) returns (fixed: Bytes, remaining: Bytes)
    requires r.Obj? && code == Spelled(r, suffix)
    ensures fixed == Code(Meant(r)) && remaining == suffix
    decreases r, 0
  {
    ghost var w, keys := Meant(r), SortedKeys(r.props.Keys);
    assert w.props.Keys == r.props.Keys;
    Behind(TYPE_OBJ, LengthCode(|r.props|) + SpelledPairs(r, keys, 0, suffix));
    var len, l, rest := FixLength(code[1..], |r.props|, SpelledPairs(r, keys, 0, suffix));
    fixed := [TYPE_OBJ] + len;
    fixed, rest := FixPairs(l, fixed, rest, r, keys, suffix);
    Behind(TERMINATOR, suffix);
    remaining := rest[1..];
    fixed := fixed + [TERMINATOR];
    ObjectCode(w, keys);
  }

  /** The length data is copied, and read for the number of pairs. */
  method FixLength(code: Bytes, ghost n: nat, ghost rest: Bytes) returns (len: Bytes, l: nat, remaining: Bytes)
    requires code == LengthCode(n) + rest
    ensures len == LengthCode(n) && l == n && remaining == rest
  {
    IntCodePlain(n);
    var datum;
    datum, remaining := GetDatum(code, [TYPE_LENGTH] + IntCode(n), rest);
    Behind(TYPE_LENGTH, IntCode(n));
    assert IntCode(n) + [] == IntCode(n);
    var consumed, ts := DecodeInt(datum[1..], n, []);
    DecodedTextReads(n);
    l := SignedAtoi(ts);
    len := datum + [TERMINATOR];
  }

  method FixPairs(l: nat, head: Bytes, code: Bytes, ghost r: Raw, ghost keys: seq<Bytes>, ghost suffix: Bytes)
    returns (fixed: Bytes, rest: Bytes)
    requires r.Obj? && l == |keys| && (forall k :: k in keys ==> k in r.props)
    requires code == SpelledPairs(r, keys, 0, suffix)
    ensures fixed == head + CodePairs(Meant(r), keys) && rest == [TERMINATOR] + suffix
    decreases r, 0, 1
  {
    ghost var w := Meant(r);
    fixed, rest := head, code;
    assert keys[0..] == keys;
    for i := 0 to l
      invariant rest == SpelledPairs(r, keys, i, suffix)
      invariant fixed + CodePairs(w, keys[i..]) == head + CodePairs(w, keys)
    {
      fixed, rest := FixPair(fixed, rest, r, keys, i, suffix);
    }
    assert CodePairs(w, keys[l..]) == [] && fixed + [] == fixed;
  }

  /** One property: its name, a string, and its value. */
  method FixPair(text: Bytes, code: Bytes, ghost r: Raw, ghost keys: seq<Bytes>, ghost i: nat, ghost suffix: Bytes)
    returns (fixed: Bytes, rest: Bytes)
    requires r.Obj? && i < |keys| && (forall k :: k in keys ==> k in r.props)
    requires code == SpelledPairs(r, keys, i, suffix)
    ensures rest == SpelledPairs(r, keys, i + 1, suffix)
    ensures fixed + CodePairs(Meant(r), keys[i + 1..]) == text + CodePairs(Meant(r), keys[i..])
    decreases r, 0, 0
  {
    assert keys[i] in keys && keys[i..][0] == keys[i] && keys[i..][1..] == keys[i + 1..];
    ghost var x, after := r.props[keys[i]], SpelledPairs(r, keys, i + 1, suffix);
    var key, value;
    key, rest := GetStringDatum(code, keys[i], Spelled(x, after));
    key := key + [TERMINATOR];
    value, rest := FixEncodedInt(rest, x, after);
    PairStep(text, key, value, CodePairs(Meant(r), keys[i + 1..]));
    fixed := text + key + value;
  }

  /** On the codes of the present encoder nothing changes. */
  method FixCanonical(code: Bytes, ghost v: Value) returns (fixed: Bytes)
    requires code == Code(v)
    ensures fixed == code
  {
    CanonicSpelled(v, []);
    CanonicMeans(v);
    assert Code(v) + [] == Code(v);
    var rest;
    fixed, rest := FixEncodedInt(code, Canonic(v), []);
  }
}
