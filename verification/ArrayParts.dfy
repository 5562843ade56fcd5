/**
  Taking an encoded array apart into the codes of its elements and joining such codes again.
 */
module ArrayParts {
  import opened Common
  import opened Bytes
  import opened StringCodec
  import opened Collate
  import opened N1qlCodec

  /** The codes of the elements, one by one. */
  ghost function Codes(xs: seq<Value>): (r: seq<Bytes>)
    ensures |r| == |xs| && forall i :: 0 <= i < |xs| ==> r[i] == Code(xs[i])
  {
    seq(|xs|, i requires 0 <= i < |xs| => Code(xs[i]))
  }

  lemma {:induction false} ConcatCodes(xs: seq<Value>)
    ensures Concat(Codes(xs)) == CodeSeq(xs)
  {
    if xs != [] {
      ConcatCodes(xs[1..]);
      assert Codes(xs)[1..] == Codes(xs[1..]);
    }
  }

  /** JoinArray: element codes, one behind the other, in an array's frame. */
  method JoinArray(vals: seq<Bytes>, code: Bytes) returns (arr: Bytes)
    ensures arr == code + ([TYPE_ARRAY] + (Concat(vals) + [TERMINATOR]))
    ensures forall xs :: vals == Codes(xs) ==> arr == code + Code(Array(xs))
  {
    arr := code + [TYPE_ARRAY];
    assert vals[0..] == vals;
    for i := 0 to |vals|
      invariant arr + Concat(vals[i..]) == code + [TYPE_ARRAY] + Concat(vals)
    {
      assert vals[i..][0] == vals[i] && vals[i..][1..] == vals[i + 1..];
      Assoc(arr, vals[i], Concat(vals[i + 1..]));
      arr := arr + vals[i];
    }
    assert Concat(vals[|vals|..]) == [] && arr + [] == arr;
    arr := arr + [TERMINATOR];
    JoinShift(code, Concat(vals));
    forall xs | vals == Codes(xs) ensures arr == code + Code(Array(xs)) {
      ConcatCodes(xs);
    }
  }

  lemma JoinShift(code: Bytes, body: Bytes)
    ensures code + [TYPE_ARRAY] + body + [TERMINATOR] == code + ([TYPE_ARRAY] + (body + [TERMINATOR]))
  {
  }

  /** The part of `rest` in front of `after`. */
  lemma FirstPart(part: Bytes, after: Bytes)
    ensures (part + after)[..|part + after| - |after|] == part
  {
  }

  /** What stands in an array's code from element i on. */
  ghost function After(codes: seq<Bytes>, i: nat, suffix: Bytes): Bytes
    requires i <= |codes|
    decreases |codes| - i
  {
    if i == |codes| then [TERMINATOR] + suffix else codes[i] + After(codes, i + 1, suffix)
  }

  /** The codes of `xs`, from element i on; a recursive form of `Codes` for the loops. */
  ghost predicate AreCodes(codes: seq<Bytes>, xs: seq<Value>, i: nat)
    decreases |xs| - i
  {
    |codes| == |xs| && (i < |xs| ==> codes[i] == Code(xs[i]) && AreCodes(codes, xs, i + 1))
  }

  lemma {:induction false} CodesAre(xs: seq<Value>, i: nat)
    ensures AreCodes(Codes(xs), xs, i)
    decreases |xs| - i
  {
    if i < |xs| { CodesAre(xs, i + 1); }
  }

  lemma {:induction false} CodeAt(codes: seq<Bytes>, xs: seq<Value>, i: nat, j: nat)
    requires AreCodes(codes, xs, i) && i <= j < |xs|
    ensures codes[j] == Code(xs[j])
    decreases j - i
  {
    if i < j { CodeAt(codes, xs, i + 1, j); }
  }

  ghost predicate AtElement(code: Bytes, codes: seq<Bytes>, i: nat, suffix: Bytes)
  {
    i <= |codes| && code == After(codes, i, suffix) && code != [] && (code[0] == TERMINATOR <==> i == |codes|)
  }

  /** The terminator shows exactly when no element is left. */
  lemma AfterEnds(codes: seq<Bytes>, xs: seq<Value>, i: nat, suffix: Bytes)
    requires AreCodes(codes, xs, 0) && i <= |xs|
    ensures AtElement(After(codes, i, suffix), codes, i, suffix)
  {
    if i < |xs| {
      CodeAt(codes, xs, 0, i);
      FirstOf(codes[i], After(codes, i + 1, suffix));
    }
  }

  lemma {:induction false} AfterIs(xs: seq<Value>, i: nat, suffix: Bytes)
    requires i <= |xs|
    ensures After(Codes(xs), i, suffix) == CodeSeq(xs[i..]) + ([TERMINATOR] + suffix)
    decreases |xs| - i
  {
    if i < |xs| {
      AfterIs(xs, i + 1, suffix);
      CodeSeqStep(xs, i, [TERMINATOR] + suffix);
    } else {
      NothingBefore([TERMINATOR] + suffix);
    }
  }

  /** Behind its type byte an array's code starts with the first element. */
  lemma AtFirst(xs: seq<Value>, suffix: Bytes)
    ensures AreCodes(Codes(xs), xs, 0) && AtElement((Code(Array(xs)) + suffix)[1..], Codes(xs), 0, suffix)
  {
    CodesAre(xs, 0);
    ArrayCodeBody(xs, suffix);
    AfterIs(xs, 0, suffix);
    AfterEnds(Codes(xs), xs, 0, suffix);
  }

  /** The element in front: its value when wanted, the length of its code, and what stands behind it. */
  method TakeElement(code: Bytes, decode: bool, ghost codes: seq<Bytes>, ghost xs: seq<Value>, ghost i: nat,
                     ghost suffix: Bytes)
    returns (val: Option<Value>, size: nat, rest: Bytes)
    requires AreCodes(codes, xs, 0) && i < |xs| && AtElement(code, codes, i, suffix)
    ensures val == if decode then Some(xs[i]) else None
    ensures 0 < size <= |code| && code[..size] == codes[i]
    ensures AtElement(rest, codes, i + 1, suffix)
  {
    CodeAt(codes, xs, 0, i);
    AfterEnds(codes, xs, i + 1, suffix);
    FirstPart(codes[i], After(codes, i + 1, suffix));
    val, rest := Decode(code, decode, xs[i], After(codes, i + 1, suffix));
    size := |code| - |rest|;
  }

  /** ExplodeArray4: the codes of all elements; an error when the code is no array. */
  method ExplodeArray4(code: Bytes, ghost v: Value, ghost suffix: Bytes) returns (ok: bool, parts: seq<Bytes>)
    requires code == Code(v) + suffix
    ensures ok <==> v.Array?
    ensures ok ==> parts == Codes(v.elems)
  {
    parts := [];
    if code[0] != TYPE_ARRAY { return false, parts; }
    ok := true;
    ghost var xs, i, codes := v.elems, 0, Codes(v.elems);
    AtFirst(xs, suffix);
    var rest := code[1..];
    var elemBuf := rest;
    while rest[0] != TERMINATOR
      invariant 0 <= i <= |xs| && elemBuf == rest && AtElement(rest, codes, i, suffix)
      invariant parts == codes[..i]
      decreases |xs| - i
    {
      var val, size;
      val, size, rest := TakeElement(rest, false, codes, xs, i, suffix);
      if size > 0 {
        parts := parts + [elemBuf[..size]];
        elemBuf := rest;
      }
      OneMore(codes, i);
      i := i + 1;
    }
  }

  lemma OneMore(codes: seq<Bytes>, i: nat)
    requires i < |codes|
    ensures codes[..i] + [codes[i]] == codes[..i + 1]
    ensures i + 1 == |codes| ==> codes[..i + 1] == codes
  {
  }

  /** Joining the parts of an array gives its code back. */
  method ExplodeThenJoin(code: Bytes, ghost xs: seq<Value>) returns (joined: Bytes)
    requires code == Code(Array(xs))
    ensures joined == code
  {
    assert code + [] == code;
    var ok, parts := ExplodeArray4(code, Array(xs), []);
    joined := JoinArray(parts, []);
    assert [] + code == code;
  }

  /** Taking a joined array apart gives its parts back. */
  method JoinThenExplode(vals: seq<Bytes>, ghost xs: seq<Value>) returns (ok: bool, parts: seq<Bytes>)
    requires vals == Codes(xs)
    ensures ok && parts == vals
  {
    var arr := JoinArray(vals, []);
    assert [] + Code(Array(xs)) == Code(Array(xs)) && arr + [] == arr;
    ok, parts := ExplodeArray4(arr, Array(xs), []);
  }

  // ---- ExplodeArray3 -----------------------------------------------------------------------------

  /** How many elements are visited: up to and including `upto`, but never none. */
  function Visited(n: nat, upto: int): nat
  {
    if n == 0 then 0 else if upto < 0 then 1 else if upto < n then upto + 1 else n
  }

  /** The position is visited. */
  predicate Reached(i: nat, n: nat, upto: int) { i < n && (i == 0 || i <= upto) }

  /** The slots for codes after k elements: filled at the wanted positions, otherwise as they were. */
  function Exploded(was: seq<Bytes>, codes: seq<Bytes>, wanted: seq<bool>, k: nat): (r: seq<Bytes>)
    requires k <= |was| && k <= |codes| && k <= |wanted|
    ensures |r| == |was|
    decreases k
  {
    if k == 0 then was else Placed(Exploded(was, codes, wanted, k - 1), k - 1, codes[k - 1], wanted[k - 1])
  }

  function Placed<T>(was: seq<T>, i: nat, x: T, wanted: bool): (r: seq<T>)
    requires i < |was|
    ensures |r| == |was|
  {
    if wanted then was[i := x] else was
  }

  lemma {:induction false} ExplodedAt(was: seq<Bytes>, codes: seq<Bytes>, wanted: seq<bool>, k: nat, i: nat)
    requires k <= |was| && k <= |codes| && k <= |wanted| && i < |was|
    ensures Exploded(was, codes, wanted, k)[i] == if i < k && wanted[i] then codes[i] else was[i]
    decreases k
  {
    if k > 0 { ExplodedAt(was, codes, wanted, k - 1, i); }
  }

  predicate Asked(decPos: Option<seq<bool>>, i: nat)
  {
    decPos.Some? && i < |decPos.value| && decPos.value[i]
  }

  /** The slots for values after k elements: each is overwritten, with the value only when asked for. */
  function Valued(was: seq<Option<Value>>, xs: seq<Value>, decPos: Option<seq<bool>>, k: nat)
    : (r: seq<Option<Value>>)
    requires k <= |was| && k <= |xs|
    ensures |r| == |was|
    decreases k
  {
    if k == 0 then was else Placed(Valued(was, xs, decPos, k - 1), k - 1, Shown(xs[k - 1], Asked(decPos, k - 1)), true)
  }

  function Shown(x: Value, asked: bool): Option<Value> { if asked then Some(x) else None }

  lemma {:induction false} ValuedAt(was: seq<Option<Value>>, xs: seq<Value>, decPos: Option<seq<bool>>, k: nat, i: nat)
    requires k <= |was| && k <= |xs| && i < |was|
    ensures Valued(was, xs, decPos, k)[i]
         == if i >= k then was[i] else if Asked(decPos, i) then Some(xs[i]) else None
    decreases k
  {
    if k > 0 { ValuedAt(was, xs, decPos, k - 1, i); }
  }

  /** ExplodeArray3: the codes and the values of the positions asked for, up to `upto`. */
  method ExplodeArray3(code: Bytes, cktmp: seq<Bytes>, dktmp: Option<seq<Option<Value>>>,
                       explodePos: seq<bool>, decPos: Option<seq<bool>>, upto: int,
                       ghost v: Value, ghost suffix: Bytes)
    returns (ok: bool, enc: seq<Bytes>, dec: Option<seq<Option<Value>>>)
    requires code == Code(v) + suffix
    requires v.Array? ==> Fits(cktmp, dktmp, explodePos, decPos, Visited(|v.elems|, upto))
    ensures ok <==> v.Array?
    ensures ok ==> |enc| == |cktmp| && forall i :: 0 <= i < |enc| ==>
              enc[i] == if Reached(i, |v.elems|, upto) && explodePos[i] then Code(v.elems[i]) else cktmp[i]
    ensures ok ==> (dec.Some? <==> dktmp.Some?)
    ensures ok && dec.Some? ==> |dec.value| == |dktmp.value| && forall i :: 0 <= i < |dec.value| ==>
              dec.value[i] == if !Reached(i, |v.elems|, upto) then dktmp.value[i]
                              else if decPos.Some? && decPos.value[i] then Some(v.elems[i]) else None
  {
    if code[0] != TYPE_ARRAY { return false, cktmp, dktmp; }
    ok := true;
    AtFirst(v.elems, suffix);
    enc, dec := ExplodeElements(code[1..], cktmp, dktmp, explodePos, decPos, upto, Codes(v.elems), v.elems,
                                Visited(|v.elems|, upto), suffix);
    SlotsOf(enc, dec, cktmp, dktmp, explodePos, decPos, v.elems, upto);
  }

  /** There are slots and wishes for the first k elements. */
  predicate Fits(cktmp: seq<Bytes>, dktmp: Option<seq<Option<Value>>>,
                 explodePos: seq<bool>, decPos: Option<seq<bool>>, k: nat)
  {
    && k <= |cktmp| && k <= |explodePos|
    && (dktmp.Some? ==> k <= |dktmp.value|) && (decPos.Some? ==> k <= |decPos.value|)
  }

  /** The slots after k elements. */
  ghost predicate Filled(enc: seq<Bytes>, dec: Option<seq<Option<Value>>>,
                         cktmp: seq<Bytes>, dktmp: Option<seq<Option<Value>>>, explodePos: seq<bool>,
                         decPos: Option<seq<bool>>, codes: seq<Bytes>, xs: seq<Value>, k: nat)
  {
    && k <= |xs| == |codes| && k <= |cktmp| && k <= |explodePos| && (dec.Some? <==> dktmp.Some?)
    && enc == Exploded(cktmp, codes, explodePos, k)
    && (dec.Some? ==> k <= |dktmp.value| && dec.value == Valued(dktmp.value, xs, decPos, k))
  }

  lemma FilledNext(e: seq<Bytes>, d: Option<seq<Option<Value>>>, enc: seq<Bytes>, dec: Option<seq<Option<Value>>>,
                   cktmp: seq<Bytes>, dktmp: Option<seq<Option<Value>>>, explodePos: seq<bool>,
                   decPos: Option<seq<bool>>, codes: seq<Bytes>, xs: seq<Value>, k: nat)
    requires Filled(e, d, cktmp, dktmp, explodePos, decPos, codes, xs, k)
    requires k < |xs| && Fits(cktmp, dktmp, explodePos, decPos, k + 1) && (dec.Some? <==> d.Some?)
    requires enc == Placed(e, k, codes[k], explodePos[k])
    requires d.Some? ==> dec.value == Placed(d.value, k, Shown(xs[k], Asked(decPos, k)), true)
    ensures Filled(enc, dec, cktmp, dktmp, explodePos, decPos, codes, xs, k + 1)
  {
  }

  /** What the slots hold, position by position. */
  lemma SlotsOf(enc: seq<Bytes>, dec: Option<seq<Option<Value>>>,
                cktmp: seq<Bytes>, dktmp: Option<seq<Option<Value>>>, explodePos: seq<bool>,
                decPos: Option<seq<bool>>, xs: seq<Value>, upto: int)
    requires Fits(cktmp, dktmp, explodePos, decPos, Visited(|xs|, upto))
    requires Filled(enc, dec, cktmp, dktmp, explodePos, decPos, Codes(xs), xs, Visited(|xs|, upto))
    ensures |enc| == |cktmp| && forall i :: 0 <= i < |enc| ==>
              enc[i] == if Reached(i, |xs|, upto) && explodePos[i] then Code(xs[i]) else cktmp[i]
    ensures dec.Some? ==> |dec.value| == |dktmp.value| && forall i :: 0 <= i < |dec.value| ==>
              dec.value[i] == if !Reached(i, |xs|, upto) then dktmp.value[i]
                              else if decPos.Some? && decPos.value[i] then Some(xs[i]) else None
  {
    var k := Visited(|xs|, upto);
    forall i | 0 <= i < |enc|
      ensures enc[i] == if Reached(i, |xs|, upto) && explodePos[i] then Code(xs[i]) else cktmp[i] {
      ExplodedAt(cktmp, Codes(xs), explodePos, k, i);
    }
    if dec.Some? {
      forall i | 0 <= i < |dec.value|
        ensures dec.value[i] == if !Reached(i, |xs|, upto) then dktmp.value[i]
                                else if decPos.Some? && decPos.value[i] then Some(xs[i]) else None {
        ValuedAt(dktmp.value, xs, decPos, k, i);
      }
    }
  }

  /** Its loop over the elements. */
  method ExplodeElements(code: Bytes, cktmp: seq<Bytes>, dktmp: Option<seq<Option<Value>>>,
                         explodePos: seq<bool>, decPos: Option<seq<bool>>, upto: int,
                         ghost codes: seq<Bytes>, ghost xs: seq<Value>, ghost k: nat, ghost suffix: Bytes)
    returns (enc: seq<Bytes>, dec: Option<seq<Option<Value>>>)
    requires AreCodes(codes, xs, 0) && AtElement(code, codes, 0, suffix)
    requires k == Visited(|xs|, upto) && Fits(cktmp, dktmp, explodePos, decPos, k)
    ensures Filled(enc, dec, cktmp, dktmp, explodePos, decPos, codes, xs, k)
  {
    enc, dec := cktmp, dktmp;
    var rest, pos := code, 0;
    while rest[0] != TERMINATOR
      invariant 0 <= pos <= |xs| && (pos == 0 || pos <= upto) && AtElement(rest, codes, pos, suffix)
      invariant Filled(enc, dec, cktmp, dktmp, explodePos, decPos, codes, xs, pos)
      decreases |xs| - pos
    {
      enc, dec, rest := VisitElement(rest, enc, dec, explodePos, decPos, cktmp, dktmp, codes, xs, pos, suffix);
      pos := pos + 1;
      if pos > upto { break; }
    }
    assert pos == k;
  }

  /** One turn of that loop. */
  method VisitElement(code: Bytes, e: seq<Bytes>, d: Option<seq<Option<Value>>>,
                      explodePos: seq<bool>, decPos: Option<seq<bool>>,
                      ghost cktmp: seq<Bytes>, ghost dktmp: Option<seq<Option<Value>>>,
                      ghost codes: seq<Bytes>, ghost xs: seq<Value>, pos: nat, ghost suffix: Bytes)
    returns (enc: seq<Bytes>, dec: Option<seq<Option<Value>>>, rest: Bytes)
    requires AreCodes(codes, xs, 0) && pos < |xs| && AtElement(code, codes, pos, suffix)
    requires Fits(cktmp, dktmp, explodePos, decPos, pos + 1)
    requires Filled(e, d, cktmp, dktmp, explodePos, decPos, codes, xs, pos)
    ensures AtElement(rest, codes, pos + 1, suffix)
    ensures Filled(enc, dec, cktmp, dktmp, explodePos, decPos, codes, xs, pos + 1)
  {
    enc, dec := e, d;
    var decode := decPos.Some? && decPos.value[pos];
    var val, size;
    val, size, rest := TakeElement(code, decode, codes, xs, pos, suffix);
    if dec.Some? { dec := Some(dec.value[pos := val]); }
    if size > 0 {
      if explodePos[pos] { enc := enc[pos := code[..size]]; }
    }
    FilledNext(e, d, enc, dec, cktmp, dktmp, explodePos, decPos, codes, xs, pos);
  }

  /** ExplodeArray3 agrees with ExplodeArray4 at every position asked for and visited. */
  method ExplodeBoth(code: Bytes, cktmp: seq<Bytes>, explodePos: seq<bool>, upto: int, ghost xs: seq<Value>)
    returns (some: seq<Bytes>, all: seq<Bytes>)
    requires code == Code(Array(xs)) && Visited(|xs|, upto) <= |cktmp| && Visited(|xs|, upto) <= |explodePos|
    ensures |some| == |cktmp| && |all| == |xs|
    ensures forall i :: 0 <= i < |some| ==>
              some[i] == if Reached(i, |xs|, upto) && explodePos[i] then all[i] else cktmp[i]
  {
    assert code + [] == code;
    var ok4, ok3, dec;
    ok4, all := ExplodeArray4(code, Array(xs), []);
    ok3, some, dec := ExplodeArray3(code, cktmp, None, explodePos, None, upto, Array(xs), []);
  }
}
