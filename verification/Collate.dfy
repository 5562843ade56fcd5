/**
  N1QL values, the order in which they collate, and the codes that carry that order: bytewise
  comparison of two codes is collation of the two values.
 */
module Collate {
  import opened Bytes
  import opened IntCodec
  import opened FloatOrder
  import opened StringCodec

  datatype Value =
    | Missing
    | Null
    | False
    | True
    | Number(num: Decimal)
    | String(str: Bytes)
    | Array(elems: seq<Value>)
    | Object(props: map<Bytes, Value>)

  const TYPE_MISSING: Byte := 1
  const TYPE_NULL: Byte := 2
  const TYPE_FALSE: Byte := 3
  const TYPE_TRUE: Byte := 4
  const TYPE_NUMBER: Byte := 5
  const TYPE_STRING: Byte := 6
  const TYPE_LENGTH: Byte := 7
  const TYPE_ARRAY: Byte := 8
  const TYPE_OBJ: Byte := 9

  function TypeByte(v: Value): (b: Byte)
    ensures 1 <= b <= 9
  {
    match v
    case Missing => TYPE_MISSING
    case Null => TYPE_NULL
    case False => TYPE_FALSE
    case True => TYPE_TRUE
    case Number(_) => TYPE_NUMBER
    case String(_) => TYPE_STRING
    case Array(_) => TYPE_ARRAY
    case Object(_) => TYPE_OBJ
  }

  // ---- sorted property names -------------------------------------------------------------------

  lemma {:induction false} CompareTransitive(a: Bytes, b: Bytes, c: Bytes)
    requires Compare(a, b) == -1 && Compare(b, c) == -1
    ensures Compare(a, c) == -1
  {
    if a != [] && a[0] == b[0] == c[0] { CompareTransitive(a[1..], b[1..], c[1..]); }
  }

  ghost predicate IsLeast(k: Bytes, keys: set<Bytes>)
  {
    k in keys && forall x :: x in keys && x != k ==> Compare(k, x) == -1
  }

  ghost function Least(keys: set<Bytes>): (k: Bytes)
    requires keys != {}
    ensures IsLeast(k, keys)
  {
    var k :| k in keys;
    if keys == {k} then k
    else
      var m := Least(keys - {k});
      CompareTurned(k, m);
      assert forall x :: x in keys && x != k && x != m && Compare(k, m) == -1 ==> Compare(k, x) == -1 by {
        forall x | x in keys && x != k && x != m && Compare(k, m) == -1 ensures Compare(k, x) == -1 {
          CompareTransitive(k, m, x);
        }
      }
      if Compare(k, m) == -1 then k else m
  }

  /** sortProps: the property names in increasing byte order. */
  ghost function SortedKeys(keys: set<Bytes>): (r: seq<Bytes>)
    ensures |r| == |keys| && forall k :: k in r <==> k in keys
  {
    if keys == {} then [] else [Least(keys)] + SortedKeys(keys - {Least(keys)})
  }

  // ---- the code --------------------------------------------------------------------------------

  function LengthCode(n: nat): Bytes { [TYPE_LENGTH] + IntCode(n) + [TERMINATOR] }

  function KeyCode(k: Bytes): Bytes { [TYPE_STRING] + StringCode(k) }

  /** What n1ql2code appends for a value. */
  ghost function Code(v: Value): (code: Bytes)
    ensures |code| >= 2 && code[0] == TypeByte(v)
    decreases v, 1, 0
  {
    match v
    case Number(d) => [TYPE_NUMBER] + FloatCode(d) + [TERMINATOR]
    case String(s) => KeyCode(s)
    case Array(xs) => [TYPE_ARRAY] + (CodeSeq(xs) + [TERMINATOR])
    case Object(m) => [TYPE_OBJ] + LengthCode(|m|) + (CodePairs(v, SortedKeys(m.Keys)) + [TERMINATOR])
    case _ => [TypeByte(v), TERMINATOR]
  }

  ghost function CodeSeq(xs: seq<Value>): Bytes
    decreases xs, 0, 0
  {
    if xs == [] then [] else Code(xs[0]) + CodeSeq(xs[1..])
  }

  ghost function CodePairs(v: Value, keys: seq<Bytes>): Bytes
    requires v.Object? && forall k :: k in keys ==> k in v.props
    decreases v, 0, |keys|
  {
    if keys == [] then []
    else KeyCode(keys[0]) + Code(v.props[keys[0]]) + CodePairs(v, keys[1..])
  }

  // ---- the order -------------------------------------------------------------------------------

  /** The order of the types in N1QL. */
  function Rank(v: Value): nat
  {
    match v
    case Missing => 0
    case Null => 1
    case False => 2
    case True => 3
    case Number(_) => 4
    case String(_) => 5
    case Array(_) => 6
    case Object(_) => 7
  }

  function SignOf(less: bool, greater: bool): int { if less then -1 else if greater then 1 else 0 }

  /**
    Collation: type first; numbers by value, strings by bytes, arrays element by element with a
    proper prefix first, objects by number of properties and then by sorted name/value pairs.
   */
  ghost function Collation(x: Value, y: Value): int
    decreases x, 1, 0
  {
    if Rank(x) != Rank(y) then SignOf(Rank(x) < Rank(y), true)
    else match x
      case Number(d) => SignOf(Val(d) < Val(y.num), Val(d) > Val(y.num))
      case String(s) => Compare(s, y.str)
      case Array(xs) => CollationSeq(xs, y.elems)
      case Object(m) =>
        if |m| != |y.props| then SignOf(|m| < |y.props|, true)
        else CollationPairs(x, SortedKeys(m.Keys), y, SortedKeys(y.props.Keys))
      case _ => 0
  }

  ghost function CollationSeq(xs: seq<Value>, ys: seq<Value>): int
    decreases xs, 0, 0
  {
    if xs == [] then (if ys == [] then 0 else -1)
    else if ys == [] then 1
    else
      var c := Collation(xs[0], ys[0]);
      if c != 0 then c else CollationSeq(xs[1..], ys[1..])
  }

  ghost function CollationPairs(x: Value, ks: seq<Bytes>, y: Value, ls: seq<Bytes>): int
    requires x.Object? && y.Object? && |ks| == |ls|
    requires (forall k :: k in ks ==> k in x.props) && (forall l :: l in ls ==> l in y.props)
    decreases x, 0, |ks|
  {
    if ks == [] then 0
    else if ks[0] != ls[0] then Compare(ks[0], ls[0])
    else
      var c := Collation(x.props[ks[0]], y.props[ls[0]]);
      if c != 0 then c else CollationPairs(x, ks[1..], y, ls[1..])
  }

  // ---- codes carry the order ---------------------------------------------------------------------

  /** `c` is the order of two things that are equal iff `same` and whose codes are `a` and `b`. */
  ghost predicate Carries(c: int, same: bool, a: Bytes, b: Bytes)
  {
    || (c == 0 && same)
    || (c < 0 && Below(a, b))
    || (c > 0 && Below(b, a))
  }

  lemma CarriesExtends(c: int, pre: Bytes, a: Bytes, b: Bytes, s: Bytes, t: Bytes)
    requires c != 0 && Carries(c, false, a, b)
    ensures Carries(c, false, pre + a + s, pre + b + t)
  {
    if c < 0 { BelowExtends(pre, a, b, s, t); } else { BelowExtends(pre, b, a, t, s); }
  }

  lemma CarriesPrefixed(c: int, same: bool, pre: Bytes, a: Bytes, b: Bytes)
    requires Carries(c, same, a, b)
    ensures Carries(c, same, pre + a, pre + b)
  {
    if c < 0 { BelowPrefixed(pre, a, b); } else if c > 0 { BelowPrefixed(pre, b, a); }
  }

  lemma NumberCarries(d: Decimal, e: Decimal)
    ensures Carries(Collation(Number(d), Number(e)), d == e, Code(Number(d)), Code(Number(e)))
  {
    FloatCodeEmbeds(d, e);
    FloatCodeEmbeds(e, d);
    var c := Collation(Number(d), Number(e));
    if c != 0 {
      CarriesExtends(c, [TYPE_NUMBER], FloatCode(d), FloatCode(e), [TERMINATOR], [TERMINATOR]);
    }
  }

  lemma KeyCarries(s: Bytes, t: Bytes)
    ensures Carries(Compare(s, t), s == t, KeyCode(s), KeyCode(t))
  {
    CompareTurned(s, t);
    if Compare(s, t) == -1 {
      StringOrder(s, t);
      BelowPrefixed([TYPE_STRING], StringCode(s), StringCode(t));
    } else if Compare(s, t) == 1 {
      StringOrder(t, s);
      BelowPrefixed([TYPE_STRING], StringCode(t), StringCode(s));
    }
  }

  lemma {:induction false} SeqCarries(xs: seq<Value>, ys: seq<Value>)
    ensures Carries(CollationSeq(xs, ys), xs == ys, CodeSeq(xs) + [TERMINATOR], CodeSeq(ys) + [TERMINATOR])
    decreases xs, 0, 0
  {
    if xs != [] && ys != [] {
      ValueCarries(xs[0], ys[0]);
      var a, b := Code(xs[0]), Code(ys[0]);
      var s, t := CodeSeq(xs[1..]) + [TERMINATOR], CodeSeq(ys[1..]) + [TERMINATOR];
      Assoc(a, CodeSeq(xs[1..]), [TERMINATOR]);
      Assoc(b, CodeSeq(ys[1..]), [TERMINATOR]);
      var c := Collation(xs[0], ys[0]);
      if c != 0 {
        CarriesExtends(c, [], a, b, s, t);
        assert [] + a == a && [] + b == b;
      } else {
        SeqCarries(xs[1..], ys[1..]);
        CarriesPrefixed(CollationSeq(xs[1..], ys[1..]), xs[1..] == ys[1..], a, s, t);
        assert xs == [xs[0]] + xs[1..] && ys == [ys[0]] + ys[1..];
      }
    }
  }

  ghost predicate SamePairs(x: Value, ks: seq<Bytes>, y: Value, ls: seq<Bytes>)
    requires x.Object? && y.Object?
  {
    ks == ls && forall k :: k in ks ==> k in x.props && k in y.props && x.props[k] == y.props[k]
  }

  lemma {:induction false} PairsCarry(x: Value, ks: seq<Bytes>, y: Value, ls: seq<Bytes>)
    requires x.Object? && y.Object? && |ks| == |ls|
    requires (forall k :: k in ks ==> k in x.props) && (forall l :: l in ls ==> l in y.props)
    ensures Carries(CollationPairs(x, ks, y, ls), SamePairs(x, ks, y, ls),
                    CodePairs(x, ks) + [TERMINATOR], CodePairs(y, ls) + [TERMINATOR])
    decreases x, 0, |ks|
  {
    if ks != [] {
      var kx, ky := KeyCode(ks[0]), KeyCode(ls[0]);
      var vx, vy := Code(x.props[ks[0]]), Code(y.props[ls[0]]);
      var s, t := CodePairs(x, ks[1..]) + [TERMINATOR], CodePairs(y, ls[1..]) + [TERMINATOR];
      PairRegroup(kx, vx, CodePairs(x, ks[1..]));
      PairRegroup(ky, vy, CodePairs(y, ls[1..]));
      if ks[0] != ls[0] {
        KeyCarries(ks[0], ls[0]);
        CarriesExtends(Compare(ks[0], ls[0]), [], kx, ky, vx + s, vy + t);
        assert [] + kx == kx && [] + ky == ky;
      } else {
        ValueCarries(x.props[ks[0]], y.props[ls[0]]);
        var c := Collation(x.props[ks[0]], y.props[ls[0]]);
        if c != 0 {
          CarriesExtends(c, kx, vx, vy, s, t);
          Assoc(kx, vx, s);
          Assoc(ky, vy, t);
        } else {
          PairsCarry(x, ks[1..], y, ls[1..]);
          CarriesPrefixed(CollationPairs(x, ks[1..], y, ls[1..]), SamePairs(x, ks[1..], y, ls[1..]), kx + vx, s, t);
          Assoc(kx, vx, s);
          Assoc(ky, vy, t);
          if SamePairs(x, ks[1..], y, ls[1..]) { assert ks == [ks[0]] + ks[1..] && ls == [ls[0]] + ls[1..]; }
        }
      }
    }
  }

  lemma PairRegroup(k: Bytes, v: Bytes, rest: Bytes)
    ensures k + v + rest + [TERMINATOR] == k + (v + (rest + [TERMINATOR]))
  {
  }

  lemma SamePropsSameObject(x: Value, y: Value)
    requires x.Object? && y.Object?
    requires SamePairs(x, SortedKeys(x.props.Keys), y, SortedKeys(y.props.Keys))
    ensures x == y
  {
    assert x.props.Keys == y.props.Keys;
    assert x.props == y.props;
  }

  lemma LengthCarries(m: nat, n: nat)
    requires m < n
    ensures Below(LengthCode(m), LengthCode(n))
  {
    IntOrder(m, n);
    BelowExtends([TYPE_LENGTH], IntCode(m), IntCode(n), [TERMINATOR], [TERMINATOR]);
  }

  lemma {:induction false} ObjectCarries(x: Value, y: Value)
    requires x.Object? && y.Object?
    ensures Carries(Collation(x, y), x == y, Code(x), Code(y))
    decreases x, 0, |x.props| + 1
  {
    var kx, ky := SortedKeys(x.props.Keys), SortedKeys(y.props.Keys);
    var s, t := CodePairs(x, kx) + [TERMINATOR], CodePairs(y, ky) + [TERMINATOR];
    var m, n := |x.props|, |y.props|;
    if m != n {
      if m < n { LengthCarries(m, n); } else { LengthCarries(n, m); }
      CarriesExtends(Collation(x, y), [TYPE_OBJ], LengthCode(m), LengthCode(n), s, t);
    } else {
      PairsCarry(x, kx, y, ky);
      CarriesPrefixed(CollationPairs(x, kx, y, ky), SamePairs(x, kx, y, ky), [TYPE_OBJ] + LengthCode(m), s, t);
      if SamePairs(x, kx, y, ky) { SamePropsSameObject(x, y); }
    }
  }

  /** Values that collate apart have codes that part the same way; only a value collates equal to itself. */
  lemma {:induction false} ValueCarries(x: Value, y: Value)
    ensures Carries(Collation(x, y), x == y, Code(x), Code(y))
    decreases x, 1, 0
  {
    if Rank(x) == Rank(y) {
      match x
      case Number(d) => NumberCarries(d, y.num);
      case String(s) => KeyCarries(s, y.str);
      case Array(xs) =>
        SeqCarries(xs, y.elems);
        CarriesPrefixed(CollationSeq(xs, y.elems), xs == y.elems, [TYPE_ARRAY],
                        CodeSeq(xs) + [TERMINATOR], CodeSeq(y.elems) + [TERMINATOR]);
      case Object(_) => ObjectCarries(x, y);
      case _ =>
    }
  }

  /** Missing before null, null before false, and so on: the type decides before anything else does. */
  lemma RankDecides(x: Value, y: Value)
    requires Rank(x) < Rank(y)
    ensures Collation(x, y) < 0 && Compare(Code(x), Code(y)) == -1
  {
    ValueCarries(x, y);
    BelowDecides(Code(x), Code(y));
  }

  /** The bytes around the parts of a code. */
  lemma Layout(v: Value)
    ensures v.Missing? ==> Code(v) == [1, 0]
    ensures v.Null? ==> Code(v) == [2, 0]
    ensures v.False? ==> Code(v) == [3, 0]
    ensures v.True? ==> Code(v) == [4, 0]
    ensures v.Number? ==> Code(v) == [5] + FloatCode(v.num) + [0]
    ensures v.String? ==> Code(v) == [6] + StringCode(v.str)
    ensures v.Array? ==> Code(v) == [8] + (CodeSeq(v.elems) + [0])
    ensures v.Object? ==> var keys := SortedKeys(v.props.Keys);
      Code(v) == [9] + ([7] + IntCode(|v.props|) + [0]) + (CodePairs(v, keys) + [0])
  {
  }

  /**
    The promise of the codec: bytes.Compare on codes is collation of values, codes are equal only
    for equal values, and no code is a proper prefix of another.
   */
  lemma CodesCollate(x: Value, y: Value)
    ensures Collation(x, y) < 0 <==> Compare(Code(x), Code(y)) == -1
    ensures Collation(x, y) > 0 <==> Compare(Code(x), Code(y)) == 1
    ensures Collation(x, y) == 0 <==> x == y
    ensures Code(x) == Code(y) <==> x == y
    ensures Code(x) <= Code(y) ==> x == y
  {
    ValueCarries(x, y);
    ValueCarries(x, x);
    CompareSame(Code(x));
    var c := Collation(x, y);
    if c < 0 { BelowDecides(Code(x), Code(y)); } else if c > 0 { BelowDecides(Code(y), Code(x)); }
  }
}
