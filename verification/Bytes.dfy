/**
  Byte strings as the codec compares them: the order of Go's bytes.Compare, and the stronger
  relation `Below` in which the two strings part at a position that both of them have. A code
  whose words are pairwise `Below` is both order preserving and prefix free.
 */
module Bytes {
  type Byte = x: int | 0 <= x < 256
  type Bytes = seq<Byte>

  /** bytes.Compare. */
  function Compare(a: Bytes, b: Bytes): (r: int)
  {
    if a == [] && b == [] then 0
    else if a == [] then -1
    else if b == [] then 1
    else if a[0] < b[0] then -1
    else if b[0] < a[0] then 1
    else Compare(a[1..], b[1..])
  }

  /** `a` is smaller than `b`, decided at a position inside both. */
  predicate Below(a: Bytes, b: Bytes)
  {
    a != [] && b != [] && (a[0] < b[0] || (a[0] == b[0] && Below(a[1..], b[1..])))
  }

  lemma FirstBelow(a: Bytes, b: Bytes)
    requires a != [] && b != [] && a[0] < b[0]
    ensures Below(a, b)
  {
  }

  lemma {:induction false} BelowDecides(a: Bytes, b: Bytes)
    requires Below(a, b)
    ensures Compare(a, b) == -1 && Compare(b, a) == 1
    ensures !(a <= b) && !(b <= a) && !Below(b, a)
  {
    if a[0] == b[0] {
      BelowDecides(a[1..], b[1..]);
      assert a == [a[0]] + a[1..] && b == [b[0]] + b[1..];
    }
  }

  lemma {:induction false} CompareSame(a: Bytes)
    ensures Compare(a, a) == 0 && !Below(a, a)
  {
    if a != [] { CompareSame(a[1..]); }
  }

  lemma {:induction false} BelowPrefixed(pre: Bytes, a: Bytes, b: Bytes)
    requires Below(a, b)
    ensures Below(pre + a, pre + b)
  {
    if pre == [] {
      assert pre + a == a && pre + b == b;
    } else {
      BelowPrefixed(pre[1..], a, b);
      Rest(pre, a);
      Rest(pre, b);
    }
  }

  lemma {:induction false} BelowSuffixed(a: Bytes, b: Bytes, s: Bytes, t: Bytes)
    requires Below(a, b)
    ensures Below(a + s, b + t)
  {
    Rest(a, s);
    Rest(b, t);
    if a[0] == b[0] { BelowSuffixed(a[1..], b[1..], s, t); }
  }

  /** What parts two words also parts whatever extends them. */
  lemma BelowExtends(pre: Bytes, a: Bytes, b: Bytes, s: Bytes, t: Bytes)
    requires Below(a, b)
    ensures Below(pre + a + s, pre + b + t)
  {
    BelowPrefixed(pre, a, b);
    BelowSuffixed(pre + a, pre + b, s, t);
  }

  /** The parts of a concatenation, where they stand. */
  lemma Parts(a: Bytes, b: Bytes, c: Bytes)
    requires a != []
    ensures (a + b + c)[0] == a[0]
    ensures (a + b + c)[1..] == a[1..] + (b + c)
    ensures (a + b + c)[|a|..|a| + |b|] == b
    ensures (a + b + c)[|a| + |b|..] == c
  {
  }

  lemma Rest(a: Bytes, b: Bytes)
    requires a != []
    ensures (a + b)[0] == a[0] && (a + b)[1..] == a[1..] + b
  {
  }

  lemma Behind(b: Byte, t: Bytes)
    ensures ([b] + t)[0] == b && ([b] + t)[1..] == t
  {
  }

  lemma Assoc(a: Bytes, b: Bytes, c: Bytes)
    ensures a + b + c == a + (b + c)
  {
  }

  lemma FirstOf(a: Bytes, b: Bytes)
    requires a != []
    ensures (a + b)[0] == a[0]
  {
  }

  /** One byte handed from the second part to the first. */
  lemma Handed(a: Bytes, b: Bytes)
    requires b != []
    ensures a + [b[0]] + b[1..] == a + b
  {
    assert [b[0]] + b[1..] == b;
    Assoc(a, [b[0]], b[1..]);
  }

  lemma NothingBehind(t: Bytes)
    ensures t + [] == t
  {
  }

  lemma NothingBefore(t: Bytes)
    ensures [] + t == t
  {
  }

  lemma Assoc4(a: Bytes, b: Bytes, c: Bytes, d: Bytes)
    ensures a + b + c + d == a + (b + c + d)
  {
    Assoc(a, b, c);
    Assoc(a, b + c, d);
  }

  /** A first byte kept aside and put back. */
  lemma FirstAside(a: Bytes, b: Bytes)
    requires a != []
    ensures a[..1] + (a[1..] + b) == a + b
  {
    assert a == a[..1] + a[1..];
    Assoc(a[..1], a[1..], b);
  }

  /** ^b on a byte. */
  function Not(b: Byte): Byte { 255 - b }

  function Flip(a: Bytes): (r: Bytes)
    ensures |r| == |a| && forall i :: 0 <= i < |a| ==> r[i] == Not(a[i])
  {
    seq(|a|, i requires 0 <= i < |a| => Not(a[i]))
  }

  lemma FlipTwice(a: Bytes)
    ensures Flip(Flip(a)) == a
  {
  }

  lemma FlipConcat(a: Bytes, b: Bytes)
    ensures Flip(a + b) == Flip(a) + Flip(b)
  {
  }

  /** Complementing every byte turns the order around. */
  lemma {:induction false} FlipReverses(a: Bytes, b: Bytes)
    requires Below(a, b)
    ensures Below(Flip(b), Flip(a))
  {
    assert Flip(a)[1..] == Flip(a[1..]) && Flip(b)[1..] == Flip(b[1..]);
    if a[0] == b[0] { FlipReverses(a[1..], b[1..]); }
  }

  function FlipIf(flip: bool, a: Bytes): (r: Bytes)
    ensures |r| == |a|
  {
    if flip then Flip(a) else a
  }

  function Concat(parts: seq<Bytes>): Bytes
  {
    if parts == [] then [] else parts[0] + Concat(parts[1..])
  }
}
