/**
  Encoding N1QL values and decoding them back: n1ql2code, code2n1ql and what they call.
 */
module N1qlCodec {
  import opened Common
  import opened Bytes
  import opened DecimalText
  import opened IntCodec
  import opened FloatOrder
  import opened FloatCodec
  import opened Int64Text
  import opened StringCodec
  import opened Collate

  // ---- sortProps -------------------------------------------------------------------------------

  ghost predicate Increasing(keys: seq<Bytes>)
  {
    forall i, j :: 0 <= i < j < |keys| ==> Compare(keys[i], keys[j]) == -1
  }

  ghost predicate Names(r: seq<Bytes>, keys: set<Bytes>) { forall k :: k in r <==> k in keys }

  lemma {:induction false} SortedKeysIncrease(keys: set<Bytes>)
    ensures Increasing(SortedKeys(keys))
  {
    if keys != {} {
      var k := Least(keys);
      var r := SortedKeys(keys - {k});
      SortedKeysIncrease(keys - {k});
      forall j | 0 <= j < |r| ensures Compare(k, r[j]) == -1 {
        assert r[j] in keys - {k};
      }
    }
  }

  /** There is only one increasing list of a set of names. */
  lemma {:induction false} IncreasingIsSorted(r: seq<Bytes>, keys: set<Bytes>)
    requires Increasing(r) && Names(r, keys)
    ensures r == SortedKeys(keys)
  {
    if r == [] {
      assert keys == {};
    } else {
      FirstIsLeast(r, keys);
      RestIncreases(r, keys);
      IncreasingIsSorted(r[1..], keys - {r[0]});
      LeastInFront(r, keys);
    }
  }

  lemma LeastInFront(r: seq<Bytes>, keys: set<Bytes>)
    requires keys != {} && r != [] && r[0] == Least(keys) && r[1..] == SortedKeys(keys - {r[0]})
    ensures r == SortedKeys(keys)
  {
    assert r == [r[0]] + r[1..];
  }

  lemma FirstIsLeast(r: seq<Bytes>, keys: set<Bytes>)
    requires r != [] && Increasing(r) && Names(r, keys)
    ensures keys != {} && r[0] == Least(keys)
  {
    assert r[0] in keys;
    var i :| 0 <= i < |r| && r[i] == Least(keys);
    if i > 0 { CompareTurned(r[0], r[i]); }
  }

  lemma RestIncreases(r: seq<Bytes>, keys: set<Bytes>)
    requires r != [] && Increasing(r) && Names(r, keys)
    ensures Increasing(r[1..]) && Names(r[1..], keys - {r[0]})
  {
    forall x ensures x in r[1..] <==> x in keys - {r[0]} {
      if x in r[1..] {
        var j :| 1 <= j < |r| && r[j] == x;
        CompareSame(x);
        assert x in r;
      }
    }
  }

  /** One insertion of the sort. */
  method Insert(keys: seq<Bytes>, k: Bytes) returns (r: seq<Bytes>)
    requires Increasing(keys) && k !in keys
    ensures Increasing(r) && forall x :: x in r <==> x in keys || x == k
  {
    var p := 0;
    while p < |keys| && Compare(keys[p], k) == -1
      invariant 0 <= p <= |keys|
      invariant forall i :: 0 <= i < p ==> Compare(keys[i], k) == -1
    {
      p := p + 1;
    }
    forall i | p <= i < |keys| ensures Compare(k, keys[i]) == -1 {
      CompareTurned(keys[p], k);
      if i > p { CompareTransitive(k, keys[p], keys[i]); }
    }
    r := keys[..p] + [k] + keys[p..];
    InsertedAt(keys, p, k);
  }

  lemma InsertedAt(keys: seq<Bytes>, p: nat, k: Bytes)
    requires Increasing(keys) && p <= |keys|
    requires (forall i :: 0 <= i < p ==> Compare(keys[i], k) == -1)
          && (forall i :: p <= i < |keys| ==> Compare(k, keys[i]) == -1)
    ensures var r := keys[..p] + [k] + keys[p..];
      Increasing(r) && forall x :: x in r <==> x in keys || x == k
  {
    var r := keys[..p] + [k] + keys[p..];
    forall i, j | 0 <= i < j < |r| ensures Compare(r[i], r[j]) == -1 {
      assert r[i] == if i < p then keys[i] else if i == p then k else keys[i - 1];
      assert r[j] == if j < p then keys[j] else if j == p then k else keys[j - 1];
    }
    assert keys == keys[..p] + keys[p..];
  }

  /** The names of a map in the order in which their properties are encoded. */
  method SortProps(props: map<Bytes, Value>) returns (keys: seq<Bytes>)
    ensures keys == SortedKeys(props.Keys)
  {
    keys := [];
    var left := props.Keys;
    while left != {}
      invariant left <= props.Keys && Increasing(keys) && Names(keys, props.Keys - left)
      decreases left
    {
      var k :| k in left;
      keys := Insert(keys, k);
      left := left - {k};
    }
    IncreasingIsSorted(keys, props.Keys);
  }

  // ---- encoding --------------------------------------------------------------------------------

  /** The numbers that can also come as an int64. */
  predicate FitsInt64(d: Decimal) { d.Zero? || (Whole(d) && InInt64(IntOf(d))) }

  /** Every int64 can. */
  lemma Int64sFit(v: int)
    ensures FitsInt64(DecimalOfInt(v)) <==> -9223372036854775808 <= v < 9223372036854775808
  {
    if v != 0 { IntOfDecimal(v); }
  }

  /**
    A number is the decimal it is written with: of an int64 all digits, of a float64 the shortest
    decimal that reads back as it. The same decimal gets the same code whichever of the two holds it.
   */
  method EncodeNumber(d: Decimal, asInt64: bool) returns (code: Bytes)
    requires asInt64 ==> FitsInt64(d)
    ensures code == Code(Number(d))
  {
    code := [TYPE_NUMBER];
    var cs;
    if asInt64 {
      var v := if d.Zero? then 0 else IntOf(d);
      if d.Dec? {
        DecimalOfIntOf(d);
        TrimSame(d.digits);
      }
      var intStr := ConvertToScientificNotation(v);
      cs := EncodeFloat(intStr, IntSci(v));
    } else {
      cs := EncodeFloat(Render(FloatSci(d)), FloatSci(d));
    }
    code := code + cs;
    code := code + [TERMINATOR];
  }

  /** A float64 written `d` shares the code of the int64 `v` exactly if its shortest decimal denotes v. */
  lemma SharesCode(d: Decimal, v: int)
    ensures Code(Number(d)) == Code(Number(DecimalOfInt(v))) <==> Val(d) == v as real
  {
    FloatCodeEmbeds(d, DecimalOfInt(v));
    ValueOfInt(v);
    Parts([TYPE_NUMBER], FloatCode(d), [TERMINATOR]);
    Parts([TYPE_NUMBER], FloatCode(DecimalOfInt(v)), [TERMINATOR]);
  }

  lemma ValueOfInt(v: int)
    ensures Val(DecimalOfInt(v)) == v as real
  {
    if v != 0 {
      IntOfDecimal(v);
      WholeValue(DecimalOfInt(v));
    }
  }

  /** So equal numbers beyond 2^53 may differ: the float64 2^62 is written 4.611686018427388e+18. */
  lemma TwoTo62()
    ensures Code(Number(DecimalOfInt(4611686018427388000))) != Code(Number(DecimalOfInt(0x4000_0000_0000_0000)))
  {
    SharesCode(DecimalOfInt(4611686018427388000), 0x4000_0000_0000_0000);
    ValueOfInt(4611686018427388000);
  }

  method EncodeString(s: Bytes) returns (code: Bytes)
    ensures code == KeyCode(s)
  {
    code := SuffixEncodeString(s, [TYPE_STRING]);
    code := code + [TERMINATOR];
  }

  method EncodeLength(n: nat) returns (code: Bytes)
    ensures code == LengthCode(n)
  {
    code := EncodeItoa(n, [TYPE_LENGTH]);
    code := code + [TERMINATOR];
  }

  /** n1ql2code. */
  method Encode(v: Value) returns (code: Bytes)
    ensures code == Code(v)
    decreases v, 3
  {
    match v
    case Number(d) =>
      var asInt64: bool := *;
      code := EncodeNumber(d, asInt64 && FitsInt64(d));
    case String(s) => code := EncodeString(s);
    case Array(xs) => code := EncodeArray(xs);
    case Object(_) => code := EncodeObject(v);
    case _ => code := [TypeByte(v), TERMINATOR];
  }

  method EncodeArray(xs: seq<Value>) returns (code: Bytes)
    ensures code == Code(Array(xs))
    decreases xs, 0
  {
    code := [TYPE_ARRAY];
    for i := 0 to |xs|
      invariant code + CodeSeq(xs[i..]) == [TYPE_ARRAY] + CodeSeq(xs)
    {
      var cs := Encode(xs[i]);
      assert xs[i..][0] == xs[i] && xs[i..][1..] == xs[i + 1..];
      Assoc(code, cs, CodeSeq(xs[i + 1..]));
      code := code + cs;
    }
    assert CodeSeq(xs[|xs|..]) == [] && code + [] == code;
    Assoc([TYPE_ARRAY], CodeSeq(xs), [TERMINATOR]);
    code := code + [TERMINATOR];
  }

  method EncodeObject(v: Value) returns (code: Bytes)
    requires v.Object?
    ensures code == Code(v)
    decreases v, 2
  {
    var len := EncodeLength(|v.props|);
    var keys := SortProps(v.props);
    ObjectCode(v, keys);
    code := EncodePairs(v, keys, [TYPE_OBJ] + len);
    code := code + [TERMINATOR];
  }

  lemma ObjectCode(v: Value, keys: seq<Bytes>)
    requires v.Object? && keys == SortedKeys(v.props.Keys)
    ensures Code(v) == [TYPE_OBJ] + LengthCode(|v.props|) + CodePairs(v, keys) + [TERMINATOR]
  {
    Assoc([TYPE_OBJ] + LengthCode(|v.props|), CodePairs(v, keys), [TERMINATOR]);
  }

  /** The loop over the sorted names. */
  method EncodePairs(v: Value, keys: seq<Bytes>, code: Bytes) returns (r: Bytes)
    requires v.Object? && (forall k :: k in keys ==> k in v.props)
    ensures r == code + CodePairs(v, keys)
    decreases v, 1
  {
    r := code;
    assert keys[0..] == keys;
    for i := 0 to |keys|
      invariant r + CodePairs(v, keys[i..]) == code + CodePairs(v, keys)
    {
      r := EncodePair(v, keys, i, r);
    }
    assert CodePairs(v, keys[|keys|..]) == [] && r + [] == r;
  }

  /** One turn of that loop. */
  method EncodePair(v: Value, keys: seq<Bytes>, i: nat, code: Bytes) returns (r: Bytes)
    requires v.Object? && (forall k :: k in keys ==> k in v.props) && i < |keys|
    ensures r + CodePairs(v, keys[i + 1..]) == code + CodePairs(v, keys[i..])
    decreases v, 0
  {
    assert keys[i] in keys && keys[i..][0] == keys[i] && keys[i..][1..] == keys[i + 1..];
    var key := EncodeString(keys[i]);
    var value := Encode(v.props[keys[i]]);
    PairStep(code, key, value, CodePairs(v, keys[i + 1..]));
    r := code + key;
    r := r + value;
  }

  lemma PairStep(code: Bytes, key: Bytes, value: Bytes, rest: Bytes)
    ensures code + (key + value + rest) == code + key + value + rest
  {
  }

  // ---- decoding --------------------------------------------------------------------------------

  /** Bytes of number codes: signs and digits, far from both terminators. */
  predicate Plain(code: Bytes) { forall b :: b in code ==> MINUS <= b <= GT }

  lemma {:induction false} SignCodePlain(neg: bool, text: Bytes)
    requires IsDigits(text)
    ensures Plain(SignCode(neg, text))
    decreases |text|
  {
    ItoaIsShort(|text|);
    if |text| > 1 { SignCodePlain(neg, Itoa(|text|)); }
    SignCodeTail(neg, text);
    SignedPlain(neg, text);
  }

  lemma SignedPlain(neg: bool, text: Bytes)
    requires IsDigits(text)
    ensures Plain(Signed(neg, text))
  {
    forall b | b in Signed(neg, text) ensures MINUS <= b <= GT {
      var i :| 0 <= i < |text| && Signed(neg, text)[i] == b;
      assert IsDigit(text[i]);
    }
  }

  lemma IntCodePlain(n: int)
    ensures Plain(IntCode(n))
  {
    if n != 0 { SignCodePlain(n < 0, Itoa(Abs(n))); }
  }

  lemma FloatCodePlain(d: Dec)
    requires WellFormed(d)
    ensures Plain(FloatCode(d))
  {
    if d.Dec? {
      IntCodePlain(if d.neg then -d.exp else d.exp);
      SignedPlain(d.neg, d.digits);
    }
  }

  /** getDatum: the bytes up to the first terminator, and what follows it. */
  method GetDatum(code: Bytes, ghost datum: Bytes, ghost rest: Bytes) returns (d: Bytes, r: Bytes)
    requires code == datum + [TERMINATOR] + rest && TERMINATOR !in datum
    ensures d == datum && r == rest
  {
    d, r := Split(code, TERMINATOR, datum, rest);
  }

  /** strconv.ParseFloat on a decoded text: the decimal it spells. */
  method ParseFloat(text: Bytes, ghost d: Dec) returns (r: Dec)
    requires WellFormed(d) && text == PlainText(d)
    ensures r == d
  {
    PlainTextSign(d);
    var neg := text[0] == MINUS;
    var ok, mantissa, exp := Locate(if neg then text[1..] else text, d);
    r := if ok then Dec(neg, mantissa, exp) else Zero;
  }

  /** The decimal comes back exactly, as an int64 if it is one. */
  method DecodeNumber(code: Bytes, decode: bool, ghost d: Decimal, ghost suffix: Bytes)
    returns (val: Option<Value>, remaining: Bytes)
    requires code == Code(Number(d)) + suffix
    ensures remaining == suffix && val == if decode then Some(Number(d)) else None
  {
    FloatCodePlain(d);
    var datum;
    datum, remaining := GetDatum(code, [TYPE_NUMBER] + FloatCode(d), suffix);
    if !decode { return None, remaining; }
    Behind(TYPE_NUMBER, FloatCode(d));
    var ts := DecodeFloat(datum[1..], d);
    TrimmedFloat(d);
    var isInt64, i64;
    ts, isInt64, i64 := TryConvertFromScientificNotation(TrimPlus(ts), true, d);
    if isInt64 {
      DecimalOfIntOf(d);
      TrimSame(d.digits);
      val := Some(Number(DecimalOfInt(i64)));
    } else {
      var f := ParseFloat(ts, d);
      val := Some(Number(f));
    }
  }

  lemma TrimSame(t: Bytes)
    requires NoZeroEnd(t)
    ensures TrimZeros(t) == t
  {
  }

  method DecodeString(code: Bytes, ghost s: Bytes, ghost suffix: Bytes) returns (str: Bytes, remaining: Bytes)
    requires code == KeyCode(s) + suffix
    ensures str == s && remaining == suffix
  {
    Assoc([TYPE_STRING], StringCode(s), suffix);
    Behind(TYPE_STRING, StringCode(s) + suffix);
    str, remaining := SuffixDecodeString(code[1..], s, suffix);
  }

  /** The number of properties in front of an object's pairs. */
  method DecodeLength(code: Bytes, ghost n: nat, ghost rest: Bytes) returns (l: nat, remaining: Bytes)
    requires code == LengthCode(n) + rest
    ensures l == n && remaining == rest
  {
    IntCodePlain(n);
    var datum;
    datum, remaining := GetDatum(code, [TYPE_LENGTH] + IntCode(n), rest);
    Behind(TYPE_LENGTH, IntCode(n));
    assert IntCode(n) + [] == IntCode(n);
    var consumed, ts := DecodeInt(datum[1..], n, []);
    DecodedTextReads(n);
    l := SignedAtoi(ts);
  }

  lemma DecodedTextReads(n: nat)
    ensures SignedAtoi(DecodedText(n)) == n
  {
    CountItoa(n);
    if n > 0 { Behind(PLUS, Itoa(n)); } else { assert Itoa(0) == [ZERO]; }
  }

  /**
    code2n1ql: the code of a value in front of any bytes is decoded to that value, and exactly
    those bytes remain; without `decode` the value is only skipped.
   */
  method Decode(code: Bytes, decode: bool, ghost v: Value, ghost suffix: Bytes)
    returns (val: Option<Value>, remaining: Bytes)
    requires code == Code(v) + suffix
    ensures remaining == suffix && val == if decode then Some(v) else None
    decreases |code|, 1
  {
    if code[0] == TYPE_NUMBER {
      val, remaining := DecodeNumber(code, decode, v.num, suffix);
    } else if code[0] == TYPE_STRING {
      var str;
      str, remaining := DecodeString(code, v.str, suffix);
      val := if decode then Some(String(str)) else None;
    } else if code[0] == TYPE_ARRAY {
      val, remaining := DecodeArray(code, decode, v.elems, suffix);
    } else if code[0] == TYPE_OBJ {
      val, remaining := DecodeObject(code, decode, v, suffix);
    } else {
      var datum;
      datum, remaining := GetDatum(code, [TypeByte(v)], suffix);
      if !decode { return None, remaining; }
      val := Some(if code[0] == TYPE_MISSING then Missing else if code[0] == TYPE_NULL then Null
                  else if code[0] == TYPE_TRUE then True else False);
    }
  }

  lemma CodeSeqStep(xs: seq<Value>, i: nat, rest: Bytes)
    requires i < |xs|
    ensures CodeSeq(xs[i..]) + rest == Code(xs[i]) + (CodeSeq(xs[i + 1..]) + rest)
  {
    assert xs[i..][0] == xs[i] && xs[i..][1..] == xs[i + 1..];
    Assoc(Code(xs[i]), CodeSeq(xs[i + 1..]), rest);
  }

  lemma ArrayCodeBody(xs: seq<Value>, suffix: Bytes)
    ensures (Code(Array(xs)) + suffix)[1..] == CodeSeq(xs[0..]) + ([TERMINATOR] + suffix)
  {
    assert xs[0..] == xs;
    ArrayShift(CodeSeq(xs), suffix);
  }

  lemma ArrayShift(body: Bytes, suffix: Bytes)
    ensures ([TYPE_ARRAY] + (body + [TERMINATOR]) + suffix)[1..] == body + ([TERMINATOR] + suffix)
  {
  }

  /** The terminator shows exactly when no element is left. */
  lemma CodeSeqEnds(xs: seq<Value>, i: nat, suffix: Bytes)
    requires i <= |xs|
    ensures var rest := CodeSeq(xs[i..]) + ([TERMINATOR] + suffix);
      && rest != [] && (rest[0] == TERMINATOR <==> i == |xs|)
      && (i == |xs| ==> rest[1..] == suffix)
  {
    var tail := [TERMINATOR] + suffix;
    if i < |xs| {
      CodeSeqStep(xs, i, tail);
      Rest(Code(xs[i]), CodeSeq(xs[i + 1..]) + tail);
    } else {
      assert xs[i..] == [] && [] + tail == tail;
      Behind(TERMINATOR, suffix);
    }
  }

  method DecodeArray(code: Bytes, decode: bool, ghost xs: seq<Value>, ghost suffix: Bytes)
    returns (val: Option<Value>, remaining: Bytes)
    requires code == Code(Array(xs)) + suffix
    ensures remaining == suffix && val == if decode then Some(Array(xs)) else None
    decreases |code|, 0
  {
    var arrval := [];
    var rest := code[1..];
    ArrayCodeBody(xs, suffix);
    ghost var tail, i := [TERMINATOR] + suffix, 0;
    CodeSeqEnds(xs, 0, suffix);
    while rest[0] != TERMINATOR
      invariant 0 <= i <= |xs| && 0 < |rest| < |code|
      invariant rest == CodeSeq(xs[i..]) + tail
      invariant rest[0] == TERMINATOR <==> i == |xs|
      invariant decode ==> arrval == xs[..i]
      decreases |xs| - i
    {
      CodeSeqStep(xs, i, tail);
      CodeSeqEnds(xs, i + 1, suffix);
      var tv;
      tv, rest := Decode(rest, decode, xs[i], CodeSeq(xs[i + 1..]) + tail);
      assert xs[..i + 1] == xs[..i] + [xs[i]];
      if decode { arrval := arrval + [tv.value]; }
      i := i + 1;
    }
    CodeSeqEnds(xs, i, suffix);
    remaining := rest[1..];
    assert xs[..|xs|] == xs;
    val := if decode then Some(Array(arrval)) else None;
  }

  lemma CodePairsStep(v: Value, keys: seq<Bytes>, i: nat, rest: Bytes)
    requires v.Object? && (forall k :: k in keys ==> k in v.props) && i < |keys|
    ensures keys[i] in v.props
    ensures CodePairs(v, keys[i..]) + rest
         == Code(String(keys[i])) + (Code(v.props[keys[i]]) + (CodePairs(v, keys[i + 1..]) + rest))
  {
    assert keys[i] in keys && keys[i..][0] == keys[i] && keys[i..][1..] == keys[i + 1..];
    PairShift(KeyCode(keys[i]), Code(v.props[keys[i]]), CodePairs(v, keys[i + 1..]), rest);
  }

  lemma PairShift(k: Bytes, v: Bytes, pairs: Bytes, rest: Bytes)
    ensures k + v + pairs + rest == k + (v + (pairs + rest))
  {
  }

  lemma ObjectCodeBody(v: Value, suffix: Bytes)
    requires v.Object?
    ensures (Code(v) + suffix)[1..]
         == LengthCode(|v.props|) + (CodePairs(v, SortedKeys(v.props.Keys)[0..]) + ([TERMINATOR] + suffix))
  {
    var keys := SortedKeys(v.props.Keys);
    assert keys[0..] == keys;
    ObjectShift(LengthCode(|v.props|), CodePairs(v, keys), suffix);
  }

  lemma ObjectShift(len: Bytes, pairs: Bytes, suffix: Bytes)
    ensures ([TYPE_OBJ] + len + (pairs + [TERMINATOR]) + suffix)[1..]
         == len + (pairs + ([TERMINATOR] + suffix))
  {
  }

  /** `m` is `props` restricted to the listed names. */
  ghost predicate Holds(m: map<Bytes, Value>, props: map<Bytes, Value>, keys: seq<Bytes>)
  {
    && (forall k :: k in m <==> k in keys)
    && (forall k :: k in m ==> k in props && m[k] == props[k])
  }

  lemma HoldsNext(m: map<Bytes, Value>, props: map<Bytes, Value>, keys: seq<Bytes>, i: nat)
    requires i < |keys| && Holds(m, props, keys[..i]) && keys[i] in props
    ensures Holds(m[keys[i] := props[keys[i]]], props, keys[..i + 1])
  {
    assert keys[..i + 1] == keys[..i] + [keys[i]];
  }

  lemma HoldsAll(m: map<Bytes, Value>, props: map<Bytes, Value>, keys: seq<Bytes>)
    requires Holds(m, props, keys) && forall k :: k in keys <==> k in props
    ensures m == props
  {
    assert m.Keys == props.Keys;
  }

  /** One name and its value. */
  method DecodePair(code: Bytes, decode: bool, ghost v: Value, ghost keys: seq<Bytes>, ghost i: nat, ghost tail: Bytes)
    returns (key: Bytes, value: Option<Value>, remaining: Bytes)
    requires v.Object? && (forall k :: k in keys ==> k in v.props) && i < |keys|
    requires code == CodePairs(v, keys[i..]) + tail
    ensures remaining == CodePairs(v, keys[i + 1..]) + tail && |remaining| < |code|
    ensures keys[i] in v.props
    ensures decode ==> key == keys[i] && value == Some(v.props[keys[i]])
    decreases |code|, 2
  {
    CodePairsStep(v, keys, i, tail);
    ghost var after := CodePairs(v, keys[i + 1..]) + tail;
    assert keys[i] in keys;
    var name;
    name, remaining := Decode(code, decode, String(keys[i]), Code(v.props[keys[i]]) + after);
    value, remaining := Decode(remaining, decode, v.props[keys[i]], after);
    key := if decode then name.value.str else [];
  }

  method DecodeObject(code: Bytes, decode: bool, ghost v: Value, ghost suffix: Bytes)
    returns (val: Option<Value>, remaining: Bytes)
    requires v.Object? && code == Code(v) + suffix
    ensures remaining == suffix && val == if decode then Some(v) else None
    decreases |code|, 0
  {
    ghost var keys, tail := SortedKeys(v.props.Keys), [TERMINATOR] + suffix;
    ObjectCodeBody(v, suffix);
    var l, rest := DecodeLength(code[1..], |v.props|, CodePairs(v, keys[0..]) + tail);
    var objval;
    objval, rest := DecodePairs(rest, decode, l, v, keys, tail);
    remaining := rest[1..];
    if !decode { return None, remaining; }
    HoldsAll(objval, v.props, keys);
    val := Some(Object(objval));
  }

  /** The loop over the names and values. */
  method DecodePairs(code: Bytes, decode: bool, count: nat, ghost v: Value, ghost keys: seq<Bytes>, ghost tail: Bytes)
    returns (objval: map<Bytes, Value>, rest: Bytes)
    requires v.Object? && (forall k :: k in keys ==> k in v.props) && count == |keys|
    requires code == CodePairs(v, keys[0..]) + tail
    ensures rest == tail && (decode ==> Holds(objval, v.props, keys))
    decreases |code|, 3
  {
    objval, rest := map[], code;
    var l := count;
    ghost var i := 0;
    while l > 0
      invariant 0 <= i <= |keys| && l == |keys| - i && |rest| <= |code|
      invariant rest == CodePairs(v, keys[i..]) + tail
      invariant decode ==> Holds(objval, v.props, keys[..i])
    {
      var key, value;
      key, value, rest := DecodePair(rest, decode, v, keys, i, tail);
      if decode {
        HoldsNext(objval, v.props, keys, i);
        objval := objval[key := value.value];
      }
      l, i := l - 1, i + 1;
    }
    assert keys[i..] == [] && [] + tail == tail && keys[..i] == keys;
  }
}
