/**
  Descending index fields: ReverseCollate complements the bytes of chosen fields of an encoded
  composite key in place, and finds the fields again whichever of them are complemented.
 */
module Desc {
  import opened Bytes
  import opened IntCodec
  import opened FloatOrder
  import opened FloatCodec
  import opened StringCodec
  import opened Collate
  import opened N1qlCodec

  // ---- codes with complemented fields ------------------------------------------------------------

  /** The number of fields ReverseCollate can address one by one. */
  function FieldCount(v: Value): nat { if v.Array? then |v.elems| else 0 }

  ghost function FieldsCode(xs: seq<Value>, fs: seq<bool>): (code: Bytes)
    requires |xs| == |fs|
  {
    if xs == [] then [] else FlipIf(fs[0], Code(xs[0])) + FieldsCode(xs[1..], fs[1..])
  }

  /** The code of `v` with its own bytes complemented when `f`, and field i complemented when fs[i]. */
  ghost function FieldCode(v: Value, f: bool, fs: seq<bool>): (code: Bytes)
    requires |fs| == FieldCount(v)
  {
    if v.Array? then FlipIf(f, [TYPE_ARRAY]) + (FieldsCode(v.elems, fs) + FlipIf(f, [TERMINATOR]))
    else FlipIf(f, Code(v))
  }

  function Same(f: bool, n: nat): (fs: seq<bool>)
    ensures |fs| == n && forall i :: 0 <= i < n ==> fs[i] == f
  {
    seq(n, i => f)
  }

  lemma FlipIfConcat(f: bool, a: Bytes, b: Bytes)
    ensures FlipIf(f, a + b) == FlipIf(f, a) + FlipIf(f, b)
  {
    FlipConcat(a, b);
  }

  lemma {:induction false} UniformFields(xs: seq<Value>, f: bool)
    ensures FieldsCode(xs, Same(f, |xs|)) == FlipIf(f, CodeSeq(xs))
  {
    if xs == [] {
      assert FlipIf(f, []) == [];
    } else {
      UniformFields(xs[1..], f);
      assert Same(f, |xs|)[1..] == Same(f, |xs[1..]|);
      FlipIfConcat(f, Code(xs[0]), CodeSeq(xs[1..]));
    }
  }

  /** With every field complemented alike the code is complemented as a whole. */
  lemma UniformCode(v: Value, f: bool)
    ensures FieldCode(v, f, Same(f, FieldCount(v))) == FlipIf(f, Code(v))
  {
    if v.Array? {
      UniformFields(v.elems, f);
      FlipIfConcat(f, [TYPE_ARRAY], CodeSeq(v.elems) + [TERMINATOR]);
      FlipIfConcat(f, CodeSeq(v.elems), [TERMINATOR]);
    }
  }

  // ---- order -------------------------------------------------------------------------------------

  /** Field by field, the descending fields inverted. */
  ghost function DescCollation(xs: seq<Value>, ys: seq<Value>, desc: seq<bool>): int
    requires |xs| == |ys| == |desc|
  {
    if xs == [] then 0
    else
      var c := Collation(xs[0], ys[0]);
      if c == 0 then DescCollation(xs[1..], ys[1..], desc[1..]) else if desc[0] then -c else c
  }

  lemma {:induction false} FieldsCarry(xs: seq<Value>, ys: seq<Value>, fs: seq<bool>, s: Bytes)
    requires |xs| == |ys| == |fs|
    ensures Carries(DescCollation(xs, ys, fs), xs == ys, FieldsCode(xs, fs) + s, FieldsCode(ys, fs) + s)
  {
    if xs != [] {
      var a, b := FlipIf(fs[0], Code(xs[0])), FlipIf(fs[0], Code(ys[0]));
      var t, u := FieldsCode(xs[1..], fs[1..]) + s, FieldsCode(ys[1..], fs[1..]) + s;
      Assoc(a, FieldsCode(xs[1..], fs[1..]), s);
      Assoc(b, FieldsCode(ys[1..], fs[1..]), s);
      ValueCarries(xs[0], ys[0]);
      var c := Collation(xs[0], ys[0]);
      if c != 0 {
        if fs[0] {
          if c < 0 { FlipReverses(Code(xs[0]), Code(ys[0])); } else { FlipReverses(Code(ys[0]), Code(xs[0])); }
        }
        var d := if fs[0] then -c else c;
        CarriesExtends(d, [], a, b, t, u);
        assert [] + a == a && [] + b == b;
      } else {
        FieldsCarry(xs[1..], ys[1..], fs[1..], s);
        CarriesPrefixed(DescCollation(xs[1..], ys[1..], fs[1..]), xs[1..] == ys[1..], a, t, u);
        assert xs == [xs[0]] + xs[1..] && ys == [ys[0]] + ys[1..];
      }
    }
  }

  /**
    Composite keys with the same number of fields and the same descending ones: bytewise order is
    the fieldwise order with the descending fields inverted.
   */
  lemma DescOrder(xs: seq<Value>, ys: seq<Value>, f: bool, desc: seq<bool>)
    requires |xs| == |ys| == |desc|
    ensures var x, y := FieldCode(Array(xs), f, desc), FieldCode(Array(ys), f, desc);
      && (DescCollation(xs, ys, desc) < 0 <==> Compare(x, y) == -1)
      && (DescCollation(xs, ys, desc) > 0 <==> Compare(x, y) == 1)
      && (xs == ys <==> x == y)
  {
    var s := FlipIf(f, [TERMINATOR]);
    var c := DescCollation(xs, ys, desc);
    var x, y := FieldCode(Array(xs), f, desc), FieldCode(Array(ys), f, desc);
    FieldsCarry(xs, ys, desc, s);
    CarriesPrefixed(c, xs == ys, FlipIf(f, [TYPE_ARRAY]), FieldsCode(xs, desc) + s, FieldsCode(ys, desc) + s);
    CompareSame(x);
    if c < 0 { BelowDecides(x, y); } else if c > 0 { BelowDecides(y, x); }
  }

  // ---- bytes in the buffer -------------------------------------------------------------------------

  /** Complements a slice of the buffer in place and touches nothing else. */
  method FlipBits(buf: array<Byte>, lo: nat, hi: nat)
    requires lo <= hi <= buf.Length
    modifies buf
    ensures var was := old(buf[..]); buf[..] == was[..lo] + (Flip(was[lo..hi]) + was[hi..])
  {
    for i := lo to hi
      invariant forall j :: 0 <= j < buf.Length ==>
                  buf[j] == if lo <= j < i then Not(old(buf[j])) else old(buf[j])
    {
      buf[i] := Not(buf[i]);
    }
  }

  /** Go's append when the slice has room in the shared buffer: the bytes are written behind it. */
  method AppendShared(buf: array<Byte>, dst: nat, src: nat, n: nat)
    requires dst <= src && src + n <= buf.Length
    modifies buf
    ensures buf[..] == Moved(old(buf[..]), dst, src, n)
  {
    ghost var was := buf[..];
    for j := 0 to n
      invariant buf[..] == Moved(was, dst, src, j)
    {
      MovedStep(was, dst, src, j);
      buf[dst + j] := buf[src + j];
    }
  }

  /** n bytes at src copied to dst. */
  ghost function Moved(b: Bytes, dst: nat, src: nat, n: nat): (r: Bytes)
    requires dst <= src && src + n <= |b|
    ensures |r| == |b|
  {
    b[..dst] + b[src..src + n] + b[dst + n..]
  }

  lemma MovedStep(b: Bytes, dst: nat, src: nat, n: nat)
    requires dst <= src && src + n < |b|
    ensures var r := Moved(b, dst, src, n); r[dst + n := r[src + n]] == Moved(b, dst, src, n + 1)
  {
    assert b[src..src + n + 1] == b[src..src + n] + [b[src + n]];
    assert b[dst + n..] == [b[dst + n]] + b[dst + n + 1..];
  }

  lemma Middle(a: Bytes, b: Bytes, c: Bytes)
    ensures var s := a + (b + c); s[..|a|] == a && s[|a|..|a| + |b|] == b && s[|a| + |b|..] == c
  {
  }

  /** FlipBits on a buffer whose parts are known. */
  method FlipPart(buf: array<Byte>, lo: nat, hi: nat, ghost a: Bytes, ghost b: Bytes, ghost c: Bytes)
    requires buf[..] == a + (b + c) && lo == |a| && hi == |a| + |b|
    modifies buf
    ensures buf[..] == a + (Flip(b) + c)
  {
    Middle(a, b, c);
    FlipBits(buf, lo, hi);
  }

  /** getEncodedDatum: up to and including the first byte that is a terminator, flipped or not. */
  method GetEncodedDatum(buf: array<Byte>, lo: nat, ghost f: bool, ghost datum: Bytes, ghost suffix: Bytes)
    returns (end: nat)
    requires lo <= buf.Length && buf[lo..] == FlipIf(f, datum + [TERMINATOR]) + suffix
    requires forall b :: b in datum ==> b != TERMINATOR && b != Not(TERMINATOR)
    ensures end == lo + |datum| + 1
  {
    ghost var whole := FlipIf(f, datum + [TERMINATOR]) + suffix;
    var i := lo;
    assert forall j :: 0 <= j < |whole| ==> buf[lo + j] == buf[lo..][j];
    while buf[i] != TERMINATOR && buf[i] != Not(TERMINATOR)
      invariant lo <= i <= lo + |datum| < buf.Length
      invariant buf[i] == FlipIf(f, datum + [TERMINATOR])[i - lo]
      invariant i - lo < |datum| ==> datum[i - lo] in datum
      decreases |datum| - (i - lo)
    {
      i := i + 1;
      assert buf[i] == whole[i - lo];
    }
    end := i + 1;
  }

  /** getEncodedString: steps over escapes and stops behind the second of two terminators. */
  method GetEncodedString(buf: array<Byte>, lo: nat, ghost f: bool, ghost s: Bytes, ghost suffix: Bytes)
    returns (end: nat)
    requires lo <= buf.Length && buf[lo..] == FlipIf(f, KeyCode(s)) + suffix
    ensures end == lo + |KeyCode(s)|
  {
    FlipIfConcat(f, [TYPE_STRING], StringCode(s));
    Assoc(FlipIf(f, [TYPE_STRING]), FlipIf(f, StringCode(s)), suffix);
    assert buf[lo + 1..] == buf[lo..][1..];
    end := lo + 1;  // the first turn steps over the type byte, which is no terminator
    ghost var rest := s;
    var done := false;
    while !done
      invariant lo < end <= buf.Length
      invariant buf[end..] == if done then suffix else FlipIf(f, StringCode(rest)) + suffix
      decreases if done then 0 else 1 + |rest|
    {
      end, done := StepString(buf, end, f, rest, suffix);
      if !done { rest := rest[1..]; }
    }
  }

  /** One turn of that loop: over a byte, over an escape, or over the two terminators. */
  method StepString(buf: array<Byte>, i: nat, ghost f: bool, ghost s: Bytes, ghost suffix: Bytes)
    returns (next: nat, done: bool)
    requires i <= buf.Length && buf[i..] == FlipIf(f, StringCode(s)) + suffix
    ensures i < next <= buf.Length && (done <==> s == [])
    ensures buf[next..] == if done then suffix else FlipIf(f, StringCode(s[1..])) + suffix
  {
    FlippedHead(f, s, suffix);
    assert buf[i..][1..] == buf[i + 1..] && buf[i..][2..] == buf[i + 2..];
    if buf[i] == TERMINATOR {
      if buf[i + 1] == TERMINATOR { return i + 2, true; }
      return i + 2, false;
    }
    if buf[i] == Not(TERMINATOR) {
      if buf[i + 1] == Not(TERMINATOR) { return i + 2, true; }
      return i + 2, false;
    }
    return i + 1, false;
  }

  /** One step through a string's code: an escaped byte, or the end. */
  lemma FlippedHead(f: bool, s: Bytes, suffix: Bytes)
    ensures var c := FlipIf(f, StringCode(s)) + suffix;
      if c[0] != TERMINATOR && c[0] != Not(TERMINATOR) then
        s != [] && c[1..] == FlipIf(f, StringCode(s[1..])) + suffix
      else if c[1] == c[0] then s == [] && c[2..] == suffix
      else s != [] && c[2..] == FlipIf(f, StringCode(s[1..])) + suffix
  {
    if s == [] {
      assert StringCode(s) == [TERMINATOR, TERMINATOR];
    } else {
      FlipIfConcat(f, Escaped(s[0]), StringCode(s[1..]));
      Assoc(FlipIf(f, Escaped(s[0])), FlipIf(f, StringCode(s[1..])), suffix);
    }
  }

  // ---- extractEncodedField -------------------------------------------------------------------------

  /** Bytes of `xs` in front of field i. */
  ghost function Offset(xs: seq<Value>, i: nat): nat
    requires i <= |xs|
  {
    |CodeSeq(xs[..i])|
  }

  lemma {:induction false} CodeSeqLengths(xs: seq<Value>, ys: seq<Value>)
    ensures |CodeSeq(xs + ys)| == |CodeSeq(xs)| + |CodeSeq(ys)|
  {
    if xs == [] {
      assert xs + ys == ys;
    } else {
      CodeSeqLengths(xs[1..], ys);
      FirstValue(xs, ys);
      CodeSeqLength(xs);
      CodeSeqLength(xs + ys);
    }
  }

  lemma CodeSeqLength(xs: seq<Value>)
    requires xs != []
    ensures |CodeSeq(xs)| == |Code(xs[0])| + |CodeSeq(xs[1..])|
  {
  }

  lemma FirstValue(xs: seq<Value>, ys: seq<Value>)
    requires xs != []
    ensures (xs + ys)[0] == xs[0] && (xs + ys)[1..] == xs[1..] + ys
  {
  }

  lemma OffsetNext(xs: seq<Value>, i: nat)
    requires i < |xs|
    ensures Offset(xs, i + 1) == Offset(xs, i) + |Code(xs[i])|
  {
    assert xs[..i + 1] == xs[..i] + [xs[i]];
    CodeSeqLengths(xs[..i], [xs[i]]);
    CodeSeqLength([xs[i]]);
  }

  lemma {:induction false} FieldsCodeLength(xs: seq<Value>, fs: seq<bool>)
    requires |xs| == |fs|
    ensures |FieldsCode(xs, fs)| == |CodeSeq(xs)|
  {
    if xs != [] { FieldsCodeLength(xs[1..], fs[1..]); }
  }

  lemma FieldCodeLength(v: Value, f: bool, fs: seq<bool>)
    requires |fs| == FieldCount(v)
    ensures |FieldCode(v, f, fs)| == |Code(v)|
    ensures FieldCode(v, f, fs) != [] && FieldCode(v, f, fs)[0] == FlipIf(f, [TypeByte(v)])[0]
  {
    if v.Array? { FieldsCodeLength(v.elems, fs); }
  }

  lemma ArrayFieldsBody(xs: seq<Value>, f: bool, fs: seq<bool>, suffix: Bytes)
    requires |xs| == |fs|
    ensures (FieldCode(Array(xs), f, fs) + suffix)[1..]
         == FieldsCode(xs[0..], fs[0..]) + (FlipIf(f, [TERMINATOR]) + suffix)
  {
    assert xs[0..] == xs && fs[0..] == fs;
    FieldsShift(FlipIf(f, [TYPE_ARRAY])[0], FieldsCode(xs, fs), FlipIf(f, [TERMINATOR]), suffix);
    assert FlipIf(f, [TYPE_ARRAY]) == [FlipIf(f, [TYPE_ARRAY])[0]];
  }

  lemma FieldsShift(t: Byte, body: Bytes, end: Bytes, suffix: Bytes)
    ensures ([t] + (body + end) + suffix)[1..] == body + (end + suffix)
  {
  }

  /**
    extractEncodedField, on the buffer from `lo` to its end. Field `fieldPos` of an array is found
    for any mix of complemented fields; otherwise the whole datum is. Every byte of the buffer is
    as before.
   */
  method ExtractEncodedField(buf: array<Byte>, lo: nat, fieldPos: nat,
                             ghost v: Value, ghost f: bool, ghost fs: seq<bool>, ghost suffix: Bytes)
    returns (start: nat, end: nat)
    requires lo <= buf.Length && |fs| == FieldCount(v)
    requires buf[lo..] == FieldCode(v, f, fs) + suffix
    modifies buf
    ensures buf[..] == old(buf[..])
    ensures if 1 <= fieldPos <= FieldCount(v)
            then start == lo + 1 + Offset(v.elems, fieldPos - 1)
              && end == start + |Code(v.elems[fieldPos - 1])| <= buf.Length
              && buf[start..end] == FlipIf(fs[fieldPos - 1], Code(v.elems[fieldPos - 1]))
            else start == lo && end == lo + |Code(v)| <= buf.Length
    decreases buf.Length - lo, 1
  {
    FieldCodeLength(v, f, fs);
    assert buf[lo] == buf[lo..][0];
    var t := buf[lo];
    if t == TYPE_ARRAY || t == Not(TYPE_ARRAY) {
      start, end := ExtractFromArray(buf, lo, fieldPos, v.elems, f, fs, suffix);
    } else {
      start := lo;
      if t == TYPE_OBJ || t == Not(TYPE_OBJ) {
        end := SkipObject(buf, lo, v, f, suffix);
      } else {
        end := GetScalar(buf, lo, v, f, suffix);
      }
    }
  }

  /** The data without parts of their own. */
  method GetScalar(buf: array<Byte>, lo: nat, ghost v: Value, ghost f: bool, ghost suffix: Bytes) returns (end: nat)
    requires lo < buf.Length && !v.Array? && !v.Object?
    requires buf[lo..] == FlipIf(f, Code(v)) + suffix && buf[lo] == FlipIf(f, [TypeByte(v)])[0]
    ensures end == lo + |Code(v)|
  {
    var t := buf[lo];
    TypeShows(v, f, t);
    if t == TYPE_STRING || t == Not(TYPE_STRING) {
      end := GetEncodedString(buf, lo, f, v.str, suffix);
    } else {
      ghost var datum := ScalarDatum(v);
      end := GetEncodedDatum(buf, lo, f, datum, suffix);
    }
  }

  /** Numbers and the types that are their own datum end at the first terminator. */
  lemma ScalarDatum(v: Value) returns (datum: Bytes)
    requires !v.Array? && !v.Object? && !v.String?
    ensures Code(v) == datum + [TERMINATOR]
    ensures forall b :: b in datum ==> b != TERMINATOR && b != Not(TERMINATOR)
  {
    if v.Number? {
      FloatCodePlain(v.num);
      datum := [TYPE_NUMBER] + FloatCode(v.num);
    } else {
      datum := [TypeByte(v)];
    }
  }

  lemma TypeShows(v: Value, f: bool, t: Byte)
    requires t == FlipIf(f, [TypeByte(v)])[0]
    ensures t == TYPE_STRING || t == Not(TYPE_STRING) <==> v.String?
  {
  }

  /** `parts` are the bytes of the fields, one by one. */
  ghost predicate AreParts(parts: seq<Bytes>, xs: seq<Value>, fs: seq<bool>)
  {
    && |parts| == |xs| == |fs|
    && (xs == [] || (parts[0] == FlipIf(fs[0], Code(xs[0])) && AreParts(parts[1..], xs[1..], fs[1..])))
  }

  lemma {:induction false} PartAt(parts: seq<Bytes>, xs: seq<Value>, fs: seq<bool>, i: nat)
    requires AreParts(parts, xs, fs) && i < |xs|
    ensures parts[i] == FlipIf(fs[i], Code(xs[i])) && |parts[i]| == |Code(xs[i])|
  {
    if i > 0 { PartAt(parts[1..], xs[1..], fs[1..], i - 1); }
  }

  lemma {:induction false} PartsExist(xs: seq<Value>, fs: seq<bool>) returns (parts: seq<Bytes>)
    requires |xs| == |fs|
    ensures AreParts(parts, xs, fs) && FieldsCode(xs, fs) == Concat(parts)
  {
    if xs == [] {
      parts := [];
    } else {
      var rest := PartsExist(xs[1..], fs[1..]);
      parts := [FlipIf(fs[0], Code(xs[0]))] + rest;
      assert parts[1..] == rest;
    }
  }

  /** What stands in front of, and from part i on. */
  ghost function Start(parts: seq<Bytes>, i: nat): nat
    requires i <= |parts|
  {
    if i == 0 then 0 else Start(parts, i - 1) + |parts[i - 1]|
  }

  ghost function PartsAfter(parts: seq<Bytes>, i: nat, tail: Bytes): Bytes
    requires i <= |parts|
    decreases |parts| - i
  {
    if i == |parts| then tail else parts[i] + PartsAfter(parts, i + 1, tail)
  }

  lemma {:induction false} PartsAfterIs(parts: seq<Bytes>, i: nat, tail: Bytes)
    requires i <= |parts|
    ensures PartsAfter(parts, i, tail) == Concat(parts[i..]) + tail
    decreases |parts| - i
  {
    if i == |parts| {
      assert [] + tail == tail;
    } else {
      PartsAfterIs(parts, i + 1, tail);
      assert parts[i..][1..] == parts[i + 1..];
      Assoc(parts[i], Concat(parts[i + 1..]), tail);
    }
  }

  lemma {:induction false} StartIs(parts: seq<Bytes>, xs: seq<Value>, fs: seq<bool>, i: nat)
    requires AreParts(parts, xs, fs) && i <= |xs|
    ensures Start(parts, i) == Offset(xs, i)
    decreases i
  {
    if i > 0 {
      StartIs(parts, xs, fs, i - 1);
      PartAt(parts, xs, fs, i - 1);
      OffsetNext(xs, i - 1);
    } else {
      NoOffset(xs);
    }
  }

  lemma NoOffset(xs: seq<Value>)
    ensures Offset(xs, 0) == 0
  {
  }

  /** A terminator shows, complemented or not, exactly when no field is left. */
  lemma PartsEnd(parts: seq<Bytes>, xs: seq<Value>, fs: seq<bool>, i: nat, f: bool, suffix: Bytes)
    requires AreParts(parts, xs, fs) && i <= |xs|
    ensures var rest := PartsAfter(parts, i, FlipIf(f, [TERMINATOR]) + suffix);
      && rest != [] && (rest[0] == TERMINATOR || rest[0] == Not(TERMINATOR) <==> i == |xs|)
  {
    if i < |xs| { PartAt(parts, xs, fs, i); }
  }

  /** At `cur` the buffer holds the parts from i on, the array's terminator and `suffix`. */
  ghost predicate AtPart(b: Bytes, cur: nat, parts: seq<Bytes>, i: nat, f: bool, suffix: Bytes)
  {
    i <= |parts| && cur <= |b| && b[cur..] == PartsAfter(parts, i, FlipIf(f, [TERMINATOR]) + suffix)
  }

  /** The test for a terminator, complemented or not. */
  method AtEnd(buf: array<Byte>, cur: nat, ghost parts: seq<Bytes>, ghost xs: seq<Value>, ghost f: bool,
               ghost fs: seq<bool>, ghost i: nat, ghost suffix: Bytes) returns (end: bool)
    requires AreParts(parts, xs, fs) && AtPart(buf[..], cur, parts, i, f, suffix)
    ensures cur < buf.Length && (end <==> i == |parts|)
  {
    PartsEnd(parts, xs, fs, i, f, suffix);
    ghost var b := buf[..];
    assert |b[cur..]| == |b| - cur && b[cur..][0] == b[cur];
    end := buf[cur] == TERMINATOR || buf[cur] == Not(TERMINATOR);
  }

  /** Steps over field i. */
  method SkipField(buf: array<Byte>, cur: nat, ghost parts: seq<Bytes>, ghost xs: seq<Value>, ghost f: bool,
                   ghost fs: seq<bool>, ghost i: nat, ghost suffix: Bytes) returns (e: nat)
    requires AreParts(parts, xs, fs) && i < |xs| && AtPart(buf[..], cur, parts, i, f, suffix)
    modifies buf
    ensures buf[..] == old(buf[..]) && AtPart(buf[..], e, parts, i + 1, f, suffix)
    ensures e == cur + |parts[i]| <= buf.Length && buf[cur..e] == parts[i]
    decreases buf.Length - cur, 3
  {
    ghost var after := PartsAfter(parts, i + 1, FlipIf(f, [TERMINATOR]) + suffix);
    PartAt(parts, xs, fs, i);
    assert buf[cur..] == buf[..][cur..];
    e := SkipValue(buf, cur, xs[i], fs[i], after);
    assert buf[e..] == buf[..][e..];
  }

  method ExtractFromArray(buf: array<Byte>, lo: nat, fieldPos: nat,
                          ghost xs: seq<Value>, ghost f: bool, ghost fs: seq<bool>, ghost suffix: Bytes)
    returns (start: nat, end: nat)
    requires lo <= buf.Length && |fs| == |xs|
    requires buf[lo..] == FieldCode(Array(xs), f, fs) + suffix
    modifies buf
    ensures buf[..] == old(buf[..])
    ensures if 1 <= fieldPos <= |xs|
            then start == lo + 1 + Offset(xs, fieldPos - 1) && end == start + |Code(xs[fieldPos - 1])| <= buf.Length
              && buf[start..end] == FlipIf(fs[fieldPos - 1], Code(xs[fieldPos - 1]))
            else start == lo && end == lo + |Code(Array(xs))| <= buf.Length
    decreases buf.Length - lo, 0
  {
    ghost var parts := FirstField(buf[..], lo, xs, f, fs, suffix);
    var found;
    found, start, end := FindField(buf, lo + 1, fieldPos, parts, xs, f, fs, suffix);
    if found {
      PartIs(parts, xs, fs, fieldPos - 1);
    } else {
      start := lo;
      PartsLength(parts, xs, fs);
    }
  }

  /** Behind its type byte an array's code starts with the first field. */
  lemma FirstField(b: Bytes, lo: nat, xs: seq<Value>, f: bool, fs: seq<bool>, suffix: Bytes)
    returns (parts: seq<Bytes>)
    requires lo <= |b| && |fs| == |xs| && b[lo..] == FieldCode(Array(xs), f, fs) + suffix
    ensures AreParts(parts, xs, fs) && AtPart(b, lo + 1, parts, 0, f, suffix)
  {
    parts := PartsExist(xs, fs);
    ArrayFieldsBody(xs, f, fs, suffix);
    PartsAfterIs(parts, 0, FlipIf(f, [TERMINATOR]) + suffix);
    assert parts[0..] == parts && xs[0..] == xs && fs[0..] == fs;
    assert b[lo + 1..] == b[lo..][1..];
  }

  lemma PartIs(parts: seq<Bytes>, xs: seq<Value>, fs: seq<bool>, i: nat)
    requires AreParts(parts, xs, fs) && i < |xs|
    ensures Start(parts, i) == Offset(xs, i)
    ensures parts[i] == FlipIf(fs[i], Code(xs[i])) && |parts[i]| == |Code(xs[i])|
  {
    StartIs(parts, xs, fs, i);
    PartAt(parts, xs, fs, i);
  }

  lemma PartsLength(parts: seq<Bytes>, xs: seq<Value>, fs: seq<bool>)
    requires AreParts(parts, xs, fs)
    ensures |Code(Array(xs))| == 2 + Start(parts, |parts|)
  {
    StartIs(parts, xs, fs, |xs|);
    assert xs[..|xs|] == xs;
  }

  /** The loop over the fields, from the first one's bytes on. */
  method FindField(buf: array<Byte>, first: nat, fieldPos: nat, ghost parts: seq<Bytes>,
                   ghost xs: seq<Value>, ghost f: bool, ghost fs: seq<bool>, ghost suffix: Bytes)
    returns (found: bool, start: nat, end: nat)
    requires AreParts(parts, xs, fs) && AtPart(buf[..], first, parts, 0, f, suffix)
    modifies buf
    ensures buf[..] == old(buf[..]) && (found <==> 1 <= fieldPos <= |parts|)
    ensures found ==> start == first + Start(parts, fieldPos - 1) && end == start + |parts[fieldPos - 1]| <= buf.Length
    ensures found ==> buf[start..end] == parts[fieldPos - 1]
    ensures !found ==> end == first + Start(parts, |parts|) + 1 <= buf.Length
    decreases buf.Length - first, 4
  {
    ghost var snap, i := buf[..], 0;
    var currField, cur := 1, first;
    var atEnd := AtEnd(buf, cur, parts, xs, f, fs, i, suffix);
    while !atEnd
      invariant 0 <= i <= |parts| && currField == i + 1 && (fieldPos == 0 || fieldPos > i)
      invariant buf[..] == snap && first <= cur < buf.Length && AtPart(snap, cur, parts, i, f, suffix)
      invariant cur == first + Start(parts, i) && (atEnd <==> i == |parts|)
      decreases |parts| - i
    {
      var e := SkipField(buf, cur, parts, xs, f, fs, i, suffix);
      if currField == fieldPos { return true, cur, e; }
      currField, cur, i := currField + 1, e, i + 1;
      atEnd := AtEnd(buf, cur, parts, xs, f, fs, i, suffix);
    }
    found, start, end := false, first, cur + 1;
  }

  /** extractEncodedField(code, 0): steps over one value, complemented or not. */
  method SkipValue(buf: array<Byte>, cur: nat, ghost v: Value, ghost f: bool, ghost rest: Bytes) returns (e: nat)
    requires cur <= buf.Length && buf[cur..] == FlipIf(f, Code(v)) + rest
    modifies buf
    ensures buf[..] == old(buf[..]) && e == cur + |Code(v)| <= buf.Length
    ensures buf[cur..e] == FlipIf(f, Code(v)) && buf[e..] == rest
    decreases buf.Length - cur, 2
  {
    UniformCode(v, f);
    var s;
    ghost var snap := buf[..];
    assert snap[cur..] == buf[cur..];
    s, e := ExtractEncodedField(buf, cur, 0, v, f, Same(f, FieldCount(v)), rest);
    Sliced(snap, cur, e, FlipIf(f, Code(v)), rest);
    assert buf[cur..e] == snap[cur..e] && buf[e..] == snap[e..];
  }

  // ---- objects -------------------------------------------------------------------------------------

  /** Length data as written: complemented bytes are turned back in place, read and restored. */
  method TurnedBack(buf: array<Byte>, lo: nat, end: nat, ghost f: bool, ghost body: Bytes)
    returns (bytes: Bytes)
    requires lo < end <= buf.Length
    requires buf[lo..end] == FlipIf(f, [TYPE_LENGTH] + body + [TERMINATOR])
    modifies buf
    ensures buf[..] == old(buf[..]) && bytes == body
  {
    ghost var snap, all := buf[..], [TYPE_LENGTH] + body + [TERMINATOR];
    ghost var a, b, c := buf[..lo + 1], FlipIf(f, body + [TERMINATOR]), buf[end..];
    Rejoin(snap, lo, end, f, body);
    var flipped := buf[lo] == Not(TYPE_LENGTH);
    if flipped {
      FlipPart(buf, lo + 1, end, a, b, c);
      FlipTwice(body + [TERMINATOR]);
    }
    bytes := buf[lo + 1..end - 1];
    Inside(a, body, c);
    assert bytes == buf[..][lo + 1..end - 1];
    if flipped { FlipPart(buf, lo + 1, end, a, body + [TERMINATOR], c); }
  }

  lemma Rejoin(snap: Bytes, lo: nat, end: nat, f: bool, body: Bytes)
    requires lo < end <= |snap| && snap[lo..end] == FlipIf(f, [TYPE_LENGTH] + body + [TERMINATOR])
    ensures snap == snap[..lo + 1] + (FlipIf(f, body + [TERMINATOR]) + snap[end..])
    ensures snap[lo] == FlipIf(f, [TYPE_LENGTH])[0] && end == lo + 2 + |body|
  {
    Assoc([TYPE_LENGTH], body, [TERMINATOR]);
    FlipIfConcat(f, [TYPE_LENGTH], body + [TERMINATOR]);
    assert snap[lo] == snap[lo..end][0];
    assert snap[lo + 1..end] == snap[lo..end][1..];
  }

  lemma Inside(a: Bytes, body: Bytes, c: Bytes)
    ensures (a + (body + [TERMINATOR] + c))[|a|..|a| + |body|] == body
  {
  }

  /** The number of properties of an object. */
  method ReadLength(buf: array<Byte>, lo: nat, ghost f: bool, ghost n: nat, ghost suffix: Bytes)
    returns (l: nat, end: nat)
    requires lo <= buf.Length && buf[lo..] == FlipIf(f, LengthCode(n)) + suffix
    modifies buf
    ensures buf[..] == old(buf[..]) && l == n && lo < end <= buf.Length && buf[end..] == suffix
  {
    IntCodePlain(n);
    end := GetEncodedDatum(buf, lo, f, [TYPE_LENGTH] + IntCode(n), suffix);
    ghost var snap := buf[..];
    assert snap[lo..] == buf[lo..] && snap[lo..end] == buf[lo..end] && snap[end..] == buf[end..];
    Sliced(snap, lo, end, FlipIf(f, LengthCode(n)), suffix);
    var bytes := TurnedBack(buf, lo, end, f, IntCode(n));
    l := ParseLength(bytes, n);
  }

  lemma Sliced(b: Bytes, lo: nat, end: nat, part: Bytes, suffix: Bytes)
    requires lo <= |b| && b[lo..] == part + suffix && end == lo + |part|
    ensures end <= |b| && b[lo..end] == part && b[end..] == suffix
  {
    assert b[end..] == b[lo..][|part|..] && b[lo..end] == b[lo..][..|part|];
  }

  method ParseLength(bytes: Bytes, ghost n: nat) returns (l: nat)
    requires bytes == IntCode(n)
    ensures l == n
  {
    assert IntCode(n) + [] == IntCode(n);
    var consumed, ts := DecodeInt(bytes, n, []);
    DecodedTextReads(n);
    l := SignedAtoi(ts);
  }

  lemma ObjectBytes(v: Value, f: bool, keys: seq<Bytes>, suffix: Bytes)
    requires v.Object? && keys == SortedKeys(v.props.Keys)
    ensures (FlipIf(f, Code(v)) + suffix)[1..]
         == FlipIf(f, LengthCode(|v.props|))
            + (FlipIf(f, CodePairs(v, keys[0..])) + (FlipIf(f, [TERMINATOR]) + suffix))
  {
    assert keys[0..] == keys;
    ObjectBytesShift(f, LengthCode(|v.props|), CodePairs(v, keys), suffix);
  }

  lemma ObjectBytesShift(f: bool, len: Bytes, pairs: Bytes, suffix: Bytes)
    ensures (FlipIf(f, [TYPE_OBJ] + len + (pairs + [TERMINATOR])) + suffix)[1..]
         == FlipIf(f, len) + (FlipIf(f, pairs) + (FlipIf(f, [TERMINATOR]) + suffix))
  {
    FlipIfConcat(f, [TYPE_OBJ] + len, pairs + [TERMINATOR]);
    FlipIfConcat(f, [TYPE_OBJ], len);
    FlipIfConcat(f, pairs, [TERMINATOR]);
    HeadOff(FlipIf(f, [TYPE_OBJ]), FlipIf(f, len), FlipIf(f, pairs), FlipIf(f, [TERMINATOR]), suffix);
  }

  lemma HeadOff(t: Bytes, l: Bytes, p: Bytes, e: Bytes, suffix: Bytes)
    requires |t| == 1
    ensures (t + l + (p + e) + suffix)[1..] == l + (p + (e + suffix))
  {
  }

  lemma PairBytes(v: Value, f: bool, keys: seq<Bytes>, i: nat, tail: Bytes)
    requires v.Object? && (forall k :: k in keys ==> k in v.props) && i < |keys|
    ensures keys[i] in v.props
    ensures FlipIf(f, CodePairs(v, keys[i..])) + tail
         == FlipIf(f, KeyCode(keys[i]))
            + (FlipIf(f, Code(v.props[keys[i]])) + (FlipIf(f, CodePairs(v, keys[i + 1..])) + tail))
  {
    assert keys[i] in keys && keys[i..][0] == keys[i] && keys[i..][1..] == keys[i + 1..];
    PairBytesShift(f, KeyCode(keys[i]), Code(v.props[keys[i]]), CodePairs(v, keys[i + 1..]), tail);
  }

  lemma PairBytesShift(f: bool, key: Bytes, value: Bytes, pairs: Bytes, tail: Bytes)
    ensures FlipIf(f, key + value + pairs) + tail
         == FlipIf(f, key) + (FlipIf(f, value) + (FlipIf(f, pairs) + tail))
  {
    FlipIfConcat(f, key + value, pairs);
    FlipIfConcat(f, key, value);
    PairShift(FlipIf(f, key), FlipIf(f, value), FlipIf(f, pairs), tail);
  }

  /** A key and its value, appended to the datum where they stand already. */
  method SkipPair(buf: array<Byte>, cur: nat, ghost v: Value, ghost f: bool, ghost keys: seq<Bytes>, ghost i: nat,
                  ghost tail: Bytes)
    returns (e: nat)
    requires v.Object? && (forall k :: k in keys ==> k in v.props) && i < |keys| && cur <= buf.Length
    requires buf[cur..] == FlipIf(f, CodePairs(v, keys[i..])) + tail
    modifies buf
    ensures buf[..] == old(buf[..]) && cur < e <= buf.Length
    ensures buf[e..] == FlipIf(f, CodePairs(v, keys[i + 1..])) + tail
    decreases buf.Length - cur, 3
  {
    PairBytes(v, f, keys, i, tail);
    ghost var value := v.props[keys[i]];
    ghost var after := FlipIf(f, CodePairs(v, keys[i + 1..])) + tail;
    var k := SkipValue(buf, cur, String(keys[i]), f, FlipIf(f, Code(value)) + after);
    e := SkipValue(buf, k, value, f, after);
    AppendSame(buf, cur, k - cur);
    AppendSame(buf, k, e - k);
  }

  /** Appending to a slice the bytes that follow it in the buffer writes every byte onto itself. */
  method AppendSame(buf: array<Byte>, at: nat, n: nat)
    requires at + n <= buf.Length
    modifies buf
    ensures buf[..] == old(buf[..])
  {
    ghost var snap := buf[..];
    AppendShared(buf, at, at, n);
    assert snap[..at] + snap[at..at + n] + snap[at + n..] == snap;
  }

  method SkipPairs(buf: array<Byte>, start: nat, count: nat,
                   ghost v: Value, ghost f: bool, ghost keys: seq<Bytes>, ghost tail: Bytes)
    returns (cur: nat)
    requires v.Object? && (forall k :: k in keys ==> k in v.props) && count == |keys| && start <= buf.Length
    requires buf[start..] == FlipIf(f, CodePairs(v, keys[0..])) + tail
    modifies buf
    ensures buf[..] == old(buf[..]) && start <= cur <= buf.Length && buf[cur..] == tail
    decreases buf.Length - start, 4
  {
    var l := count;
    cur := start;
    ghost var i := 0;
    while l > 0
      invariant 0 <= i <= |keys| && l == |keys| - i && start <= cur <= buf.Length && buf[..] == old(buf[..])
      invariant buf[cur..] == FlipIf(f, CodePairs(v, keys[i..])) + tail
    {
      cur := SkipPair(buf, cur, v, f, keys, i, tail);
      l, i := l - 1, i + 1;
    }
    assert CodePairs(v, keys[i..]) == [] && FlipIf(f, []) + tail == tail;
  }

  method SkipObject(buf: array<Byte>, lo: nat, ghost v: Value, ghost f: bool, ghost suffix: Bytes)
    returns (end: nat)
    requires lo < buf.Length && v.Object?
    requires buf[lo..] == FlipIf(f, Code(v)) + suffix
    modifies buf
    ensures buf[..] == old(buf[..]) && end == lo + |Code(v)| <= buf.Length
    decreases buf.Length - lo, 0
  {
    ghost var keys, tail := SortedKeys(v.props.Keys), FlipIf(f, [TERMINATOR]) + suffix;
    ghost var pairs := FlipIf(f, CodePairs(v, keys[0..])) + tail;
    ObjectBytes(v, f, keys, suffix);
    assert buf[lo + 1..] == buf[lo..][1..];
    var l, cur := ReadLength(buf, lo + 1, f, |v.props|, pairs);
    cur := SkipPairs(buf, cur, l, v, f, keys, tail);
    end := cur + 1;
  }

  // ---- ReverseCollate --------------------------------------------------------------------------------

  /** Which bytes of a code are complemented: its own, and those of each field. */
  datatype Flags = Flags(own: bool, fields: seq<bool>)

  function Negated(fs: seq<bool>): (r: seq<bool>)
    ensures |r| == |fs| && forall i :: 0 <= i < |fs| ==> r[i] == !fs[i]
  {
    seq(|fs|, i requires 0 <= i < |fs| => !fs[i])
  }

  /** Complementing what extractEncodedField finds at position i: field i, or everything. */
  function Toggle(fl: Flags, i: nat): (r: Flags)
    ensures |r.fields| == |fl.fields|
  {
    if i < |fl.fields| then Flags(fl.own, fl.fields[i := !fl.fields[i]])
    else Flags(!fl.own, Negated(fl.fields))
  }

  /** The loop over the first k entries of a desc vector. */
  function Toggled(fl: Flags, desc: seq<bool>, k: nat): (r: Flags)
    requires k <= |desc|
    ensures |r.fields| == |fl.fields|
  {
    if k == 0 then fl
    else if desc[k - 1] then Toggle(Toggled(fl, desc, k - 1), k - 1)
    else Toggled(fl, desc, k - 1)
  }

  /** Entries beyond the last field: an odd number of them leaves everything complemented. */
  function Overrun(desc: seq<bool>, n: nat, k: nat): bool
    requires k <= |desc|
  {
    if k <= n then false else Overrun(desc, n, k - 1) != desc[k - 1]
  }

  lemma {:induction false} ToggledIs(fl: Flags, desc: seq<bool>, k: nat)
    requires k <= |desc|
    ensures var r, odd := Toggled(fl, desc, k), Overrun(desc, |fl.fields|, k);
      && r.own == (fl.own != odd)
      && forall i :: 0 <= i < |fl.fields| ==> r.fields[i] == (fl.fields[i] != ((i < k && desc[i]) != odd))
  {
    if k > 0 { ToggledIs(fl, desc, k - 1); }
  }

  /** Toggling with the same desc vector a second time undoes the first, whatever its length. */
  lemma ToggledTwice(fl: Flags, desc: seq<bool>)
    ensures Toggled(Toggled(fl, desc, |desc|), desc, |desc|) == fl
  {
    var once := Toggled(fl, desc, |desc|);
    ToggledIs(fl, desc, |desc|);
    ToggledIs(once, desc, |desc|);
    assert Toggled(once, desc, |desc|).fields == fl.fields;
  }

  /** One entry per field: exactly the descending fields of a plain code end up complemented. */
  lemma ToggledPlain(desc: seq<bool>)
    ensures Toggled(Flags(false, Same(false, |desc|)), desc, |desc|) == Flags(false, desc)
  {
    ToggledIs(Flags(false, Same(false, |desc|)), desc, |desc|);
    assert Toggled(Flags(false, Same(false, |desc|)), desc, |desc|).fields == desc;
  }

  /** The code of `v` with the flagged parts complemented. */
  ghost function FlaggedCode(v: Value, fl: Flags): Bytes
    requires |fl.fields| == FieldCount(v)
  {
    FieldCode(v, fl.own, fl.fields)
  }

  lemma {:induction false} FieldsNegated(xs: seq<Value>, fs: seq<bool>)
    requires |xs| == |fs|
    ensures Flip(FieldsCode(xs, fs)) == FieldsCode(xs, Negated(fs))
  {
    if xs != [] {
      FieldsNegated(xs[1..], fs[1..]);
      assert Negated(fs)[1..] == Negated(fs[1..]);
      FlipConcat(FlipIf(fs[0], Code(xs[0])), FieldsCode(xs[1..], fs[1..]));
      FlipTwice(Code(xs[0]));
    }
  }

  lemma CodeNegated(v: Value, f: bool, fs: seq<bool>)
    requires |fs| == FieldCount(v)
    ensures Flip(FieldCode(v, f, fs)) == FieldCode(v, !f, Negated(fs))
  {
    if v.Array? {
      FieldsNegated(v.elems, fs);
      FlipConcat(FlipIf(f, [TYPE_ARRAY]), FieldsCode(v.elems, fs) + FlipIf(f, [TERMINATOR]));
      FlipConcat(FieldsCode(v.elems, fs), FlipIf(f, [TERMINATOR]));
      FlipTwice([TYPE_ARRAY]);
      FlipTwice([TERMINATOR]);
    } else {
      FlipTwice(Code(v));
    }
  }

  lemma Shifted(t: Bytes, a: Bytes, b: Bytes, c: Bytes, e: Bytes, suffix: Bytes)
    ensures t + (a + (b + c) + e) + suffix == (t + a) + (b + (c + e + suffix))
  {
  }

  lemma FlipFirstField(xs: seq<Value>, fs: seq<bool>) returns (b: Bytes, c: Bytes)
    requires |fs| == |xs| > 0
    ensures FieldsCode(xs, fs) == b + c && FieldsCode(xs, fs[0 := !fs[0]]) == Flip(b) + c && |b| == |Code(xs[0])|
  {
    b, c := FlipIf(fs[0], Code(xs[0])), FieldsCode(xs[1..], fs[1..]);
    FlipTwice(Code(xs[0]));
    assert fs[0 := !fs[0]][1..] == fs[1..];
  }

  /** The bytes of field i, and what stands around them; complementing them toggles the field's flag. */
  lemma {:induction false} FlipInFields(xs: seq<Value>, fs: seq<bool>, i: nat) returns (a: Bytes, b: Bytes, c: Bytes)
    requires |fs| == |xs| && i < |xs|
    ensures FieldsCode(xs, fs) == a + (b + c) && FieldsCode(xs, fs[i := !fs[i]]) == a + (Flip(b) + c)
    ensures |a| == Offset(xs, i) && |b| == |Code(xs[i])|
    decreases i
  {
    if i == 0 {
      a := [];
      b, c := FlipFirstField(xs, fs);
      assert xs[..0] == [];
      assert [] + (b + c) == b + c && [] + (Flip(b) + c) == Flip(b) + c;
    } else {
      var head := FlipIf(fs[0], Code(xs[0]));
      a, b, c := FlipInFields(xs[1..], fs[1..], i - 1);
      assert fs[i := !fs[i]][1..] == fs[1..][i - 1 := !fs[i]];
      Assoc(head, a, b + c);
      Assoc(head, a, Flip(b) + c);
      OffsetCons(xs, i);
      a := head + a;
    }
  }

  lemma OffsetCons(xs: seq<Value>, i: nat)
    requires 0 < i <= |xs|
    ensures Offset(xs, i) == |Code(xs[0])| + Offset(xs[1..], i - 1)
  {
    assert xs[..i][1..] == xs[1..][..i - 1];
  }

  lemma FlipOneField(xs: seq<Value>, f: bool, fs: seq<bool>, i: nat, suffix: Bytes)
    returns (a: Bytes, b: Bytes, c: Bytes)
    requires |fs| == |xs| && i < |xs|
    ensures FieldCode(Array(xs), f, fs) + suffix == a + (b + c)
    ensures FieldCode(Array(xs), f, fs[i := !fs[i]]) + suffix == a + (Flip(b) + c)
    ensures |a| == 1 + Offset(xs, i) && |b| == |Code(xs[i])|
  {
    var t, e := FlipIf(f, [TYPE_ARRAY]), FlipIf(f, [TERMINATOR]);
    a, b, c := FlipInFields(xs, fs, i);
    Shifted(t, a, b, c, e, suffix);
    Shifted(t, a, Flip(b), c, e, suffix);
    a, c := t + a, c + e + suffix;
  }

  ghost function FieldStart(v: Value, i: nat): nat
  {
    if i < FieldCount(v) then 1 + Offset(v.elems, i) else 0
  }

  ghost function FieldEnd(v: Value, i: nat): nat
  {
    if i < FieldCount(v) then 1 + Offset(v.elems, i) + |Code(v.elems[i])| else |Code(v)|
  }

  /** The bytes that position i addresses; complementing them is toggling its flag. */
  lemma FlipIsToggle(v: Value, fl: Flags, i: nat, suffix: Bytes) returns (a: Bytes, b: Bytes, c: Bytes)
    requires |fl.fields| == FieldCount(v)
    ensures FlaggedCode(v, fl) + suffix == a + (b + c)
    ensures FlaggedCode(v, Toggle(fl, i)) + suffix == a + (Flip(b) + c)
    ensures |a| == FieldStart(v, i) && |a| + |b| == FieldEnd(v, i)
  {
    if i < FieldCount(v) {
      a, b, c := FlipOneField(v.elems, fl.own, fl.fields, i, suffix);
    } else {
      a, b, c := [], FlaggedCode(v, fl), suffix;
      FieldCodeLength(v, fl.own, fl.fields);
      CodeNegated(v, fl.own, fl.fields);
      assert [] + (b + c) == b + c && [] + (Flip(b) + c) == Flip(b) + c;
    }
  }

  method ReverseField(buf: array<Byte>, i: nat, ghost v: Value, ghost fl: Flags, ghost suffix: Bytes)
    requires |fl.fields| == FieldCount(v)
    requires buf[..] == FlaggedCode(v, fl) + suffix
    modifies buf
    ensures buf[..] == FlaggedCode(v, Toggle(fl, i)) + suffix
  {
    var s, e := LocateField(buf, i, v, fl, suffix);
    ghost var a, b, c := FlipIsToggle(v, fl, i, suffix);
    FlipPart(buf, s, e, a, b, c);
  }

  method LocateField(buf: array<Byte>, i: nat, ghost v: Value, ghost fl: Flags, ghost suffix: Bytes)
    returns (s: nat, e: nat)
    requires |fl.fields| == FieldCount(v)
    requires buf[..] == FlaggedCode(v, fl) + suffix
    modifies buf
    ensures buf[..] == old(buf[..]) && s == FieldStart(v, i) && e == FieldEnd(v, i)
  {
    assert buf[0..] == buf[..];
    s, e := ExtractEncodedField(buf, 0, i + 1, v, fl.own, fl.fields, suffix);
  }

  /**
    ReverseCollate toggles the fields named by `desc`, whichever are complemented already. A true
    entry beyond the last field, or for a value that is no array, toggles the whole code.
   */
  method ReverseCollate(buf: array<Byte>, desc: seq<bool>, ghost v: Value, ghost fl: Flags, ghost suffix: Bytes)
    requires |fl.fields| == FieldCount(v)
    requires buf[..] == FlaggedCode(v, fl) + suffix
    modifies buf
    ensures buf[..] == FlaggedCode(v, Toggled(fl, desc, |desc|)) + suffix
  {
    for i := 0 to |desc|
      invariant buf[..] == FlaggedCode(v, Toggled(fl, desc, i)) + suffix
    {
      if desc[i] { ReverseField(buf, i, v, Toggled(fl, desc, i), suffix); }
    }
  }

  /** Reversing twice with the same desc vector restores every byte of any encoded value. */
  method ReverseTwice(buf: array<Byte>, desc: seq<bool>, ghost v: Value, ghost fl: Flags, ghost suffix: Bytes)
    requires |fl.fields| == FieldCount(v)
    requires buf[..] == FlaggedCode(v, fl) + suffix
    modifies buf
    ensures buf[..] == old(buf[..])
  {
    ReverseCollate(buf, desc, v, fl, suffix);
    ReverseCollate(buf, desc, v, Toggled(fl, desc, |desc|), suffix);
    ToggledTwice(fl, desc);
  }

  /** A plain composite key after ReverseCollate: exactly its descending fields are complemented. */
  method ReversePlain(buf: array<Byte>, desc: seq<bool>, ghost xs: seq<Value>)
    requires |xs| == |desc| && buf[..] == Code(Array(xs))
    modifies buf
    ensures buf[..] == FieldCode(Array(xs), false, desc)
  {
    ghost var plain := Flags(false, Same(false, |desc|));
    UniformCode(Array(xs), false);
    assert Code(Array(xs)) + [] == Code(Array(xs));
    ReverseCollate(buf, desc, Array(xs), plain, []);
    ToggledPlain(desc);
    assert FieldCode(Array(xs), false, desc) + [] == FieldCode(Array(xs), false, desc);
  }

  /** Two composite keys then compare fieldwise, with the descending fields inverted. */
  method ReverseBoth(x: array<Byte>, y: array<Byte>, desc: seq<bool>, ghost xs: seq<Value>, ghost ys: seq<Value>)
    requires x != y && |xs| == |ys| == |desc| && x[..] == Code(Array(xs)) && y[..] == Code(Array(ys))
    modifies x, y
    ensures DescCollation(xs, ys, desc) < 0 <==> Compare(x[..], y[..]) == -1
    ensures DescCollation(xs, ys, desc) > 0 <==> Compare(x[..], y[..]) == 1
    ensures xs == ys <==> x[..] == y[..]
  {
    ReversePlain(x, desc, xs);
    ReversePlain(y, desc, ys);
    DescOrder(xs, ys, false, desc);
  }
}
