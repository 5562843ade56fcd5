/**
  Strings in codes: 0x00 and its complement 0xFF are escaped, two terminators end the string.
 */
module StringCodec {
  import opened Bytes

  const TERMINATOR: Byte := 0
  const SUFFIX: Byte := 1

  /** One byte and the suffix that tells it from a terminator, flipped or not. */
  function Escaped(x: Byte): (r: Bytes)
    ensures 1 <= |r| <= 2 && r[0] == x
  {
    if x == TERMINATOR then [x, SUFFIX] else if x == Not(TERMINATOR) then [x, Not(SUFFIX)] else [x]
  }

  /** What suffixEncodeString writes, with the terminator its callers append. */
  function StringCode(s: Bytes): (code: Bytes)
    ensures |code| >= 2
  {
    if s == [] then [TERMINATOR, TERMINATOR] else Escaped(s[0]) + StringCode(s[1..])
  }

  /** The bytes: two zeros at the end, a one behind a zero, 254 behind 255. */
  lemma StringBytes(x: Byte, s: Bytes)
    ensures StringCode([]) == [0, 0]
    ensures StringCode([x] + s) == (if x == 0 then [0, 1] else if x == 255 then [255, 254] else [x]) + StringCode(s)
  {
    Behind(x, s);
  }

  lemma {:induction false} CompareTurned(a: Bytes, b: Bytes)
    ensures Compare(a, b) == -Compare(b, a) && -1 <= Compare(a, b) <= 1
    ensures Compare(a, b) == 0 <==> a == b
  {
    if a != [] && b != [] {
      CompareTurned(a[1..], b[1..]);
      assert a == [a[0]] + a[1..] && b == [b[0]] + b[1..];
    }
  }

  /** Strings that compare as smaller have codes that part below. */
  lemma {:induction false} StringOrder(s: Bytes, t: Bytes)
    requires Compare(s, t) == -1
    ensures Below(StringCode(s), StringCode(t))
  {
    if s == [] {
      assert t[0] == TERMINATOR ==> StringCode(t)[1..][0] == SUFFIX;
    } else if s[0] == t[0] {
      StringOrder(s[1..], t[1..]);
      BelowPrefixed(Escaped(s[0]), StringCode(s[1..]), StringCode(t[1..]));
    } else {
      Rest(Escaped(s[0]), StringCode(s[1..]));
      Rest(Escaped(t[0]), StringCode(t[1..]));
    }
  }

  method SuffixEncodeString(s: Bytes, code: Bytes) returns (r: Bytes)
    ensures r + [TERMINATOR] == code + StringCode(s)
  {
    r := code;
    for i := 0 to |s|
      invariant r + StringCode(s[i..]) == code + StringCode(s)
    {
      ghost var rest := StringCode(s[i + 1..]);
      assert s[i..][1..] == s[i + 1..] && s[i..][0] == s[i];
      ghost var before := r;
      r := r + [s[i]];
      if s[i] == TERMINATOR {
        r := r + [SUFFIX];
      } else if s[i] == Not(TERMINATOR) {
        r := r + [Not(SUFFIX)];
      }
      assert r == before + Escaped(s[i]);
      Assoc(before, Escaped(s[i]), rest);
    }
    assert s[|s|..] == [];
    Assoc(r, [TERMINATOR], [TERMINATOR]);
    r := r + [TERMINATOR];
  }

  /** One unfolding of a code in front of a suffix. */
  lemma StringCodeHead(s: Bytes, suffix: Bytes)
    ensures var c := StringCode(s) + suffix;
      if s == [] then c[0] == TERMINATOR && c[1] == TERMINATOR && c[2..] == suffix
      else
        && c[0] == s[0]
        && (s[0] == TERMINATOR ==> c[1] == SUFFIX && c[2..] == StringCode(s[1..]) + suffix)
        && (s[0] == Not(TERMINATOR) ==> c[1] == Not(SUFFIX) && c[2..] == StringCode(s[1..]) + suffix)
        && (s[0] != TERMINATOR && s[0] != Not(TERMINATOR) ==> c[1..] == StringCode(s[1..]) + suffix)
  {
    if s != [] { Assoc(Escaped(s[0]), StringCode(s[1..]), suffix); }
  }

  /** Decoding a string's code in front of any bytes yields the string and those bytes. */
  method SuffixDecodeString(code: Bytes, ghost s: Bytes, ghost suffix: Bytes)
    returns (text: Bytes, remaining: Bytes)
    requires code == StringCode(s) + suffix
    ensures text == s && remaining == suffix
  {
    text := [];
    var i, done := 0, false;
    ghost var rest := s;
    while !done
      invariant 0 <= i <= |code|
      invariant text + rest == s
      invariant code[i..] == if done then suffix else StringCode(rest) + suffix
      invariant done ==> rest == []
      decreases if done then 0 else 1 + |rest|
    {
      var b;
      i, done, b := StepDecode(code, i, rest, suffix);
      if !done {
        Handed(text, rest);
        text, rest := text + [b], rest[1..];
      }
    }
    remaining := code[i..];
    NothingBehind(text);
  }

  /** One turn of that loop: a byte, an escaped byte, or the two terminators. */
  method StepDecode(code: Bytes, i: nat, ghost s: Bytes, ghost suffix: Bytes) returns (next: nat, done: bool, b: Byte)
    requires i <= |code| && code[i..] == StringCode(s) + suffix
    ensures i < next <= |code| && (done <==> s == [])
    ensures code[next..] == if done then suffix else StringCode(s[1..]) + suffix
    ensures !done ==> b == s[0]
  {
    StringCodeHead(s, suffix);
    assert code[i..][1..] == code[i + 1..] && code[i..][2..] == code[i + 2..];
    if code[i] == TERMINATOR {
      if code[i + 1] == SUFFIX { return i + 2, false, 0; }
      return i + 2, true, 0;
    }
    if code[i] == Not(TERMINATOR) { return i + 2, false, Not(TERMINATOR); }
    return i + 1, false, code[i];
  }
}
