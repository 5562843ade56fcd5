/**
  Names of vbucket streams: fields joined by '#'. The names of the client tell streams apart; those
  of the server do unless an address has a '#' in it.
 */
module StreamNames {
  import opened Bytes
  import opened DecimalText

  const HASH: char := '#'

  /** %v on an unsigned integer. */
  function Decimal(n: nat): (s: string)
    ensures |s| == |Itoa(n)| && forall i :: 0 <= i < |s| ==> s[i] == Itoa(n)[i] as char
  {
    seq(|Itoa(n)|, i requires 0 <= i < |Itoa(n)| => Itoa(n)[i] as char)
  }

  lemma DecimalNoHash(n: nat)
    ensures HASH !in Decimal(n)
  {
    forall i | 0 <= i < |Itoa(n)| ensures Decimal(n)[i] != HASH { assert IsDigit(Itoa(n)[i]); }
  }

  lemma DecimalApart(m: nat, n: nat)
    requires Decimal(m) == Decimal(n)
    ensures m == n
  {
    forall i | 0 <= i < |Itoa(m)| ensures Itoa(m)[i] == Itoa(n)[i] {
      assert Decimal(m)[i] == Decimal(n)[i];
    }
    assert Itoa(m) == Itoa(n);
    AtoiItoa(m);
    AtoiItoa(n);
  }

  function Join(a: string, b: string): string { a + [HASH] + b }

  /** The last '#' parts a joined text uniquely when the second part has none. */
  lemma LastPart(a: string, b: string, c: string, d: string)
    requires Join(a, b) == Join(c, d) && HASH !in b && HASH !in d
    ensures a == c && b == d
  {
    var s := Join(a, b);
    assert b == s[|a| + 1..] && d == s[|c| + 1..];
    LastHash(a, b);
    LastHash(c, d);
    assert a == s[..|a|] && c == s[..|c|];
  }

  /** Where the last '#' is. */
  lemma LastHash(a: string, b: string)
    requires HASH !in b
    ensures Join(a, b)[|a|] == HASH
    ensures forall i :: |a| < i < |Join(a, b)| ==> Join(a, b)[i] != HASH
  {
    forall i | |a| < i < |Join(a, b)| ensures Join(a, b)[i] != HASH { assert Join(a, b)[i] == b[i - |a| - 1]; }
  }

  /** Where the first '#' is. */
  lemma FirstHash(a: string, b: string)
    requires HASH !in a
    ensures Join(a, b)[|a|] == HASH
    ensures forall i :: 0 <= i < |a| ==> Join(a, b)[i] != HASH
  {
    forall i | 0 <= i < |a| ensures Join(a, b)[i] != HASH { assert Join(a, b)[i] == a[i]; }
  }

  /** The first '#' does so when the first part has none. */
  lemma FirstPart(a: string, b: string, c: string, d: string)
    requires Join(a, b) == Join(c, d) && HASH !in a && HASH !in c
    ensures a == c && b == d
  {
    var s := Join(a, b);
    assert b == s[|a| + 1..] && d == s[|c| + 1..];
    FirstHash(a, b);
    FirstHash(c, d);
    assert a == s[..|a|] && c == s[..|c|];
  }

  /** StreamID: keyspace, vbucket and session. */
  function StreamId(keyspaceId: string, vbno: nat, session: nat): string
  {
    Join(Join(keyspaceId, Decimal(vbno)), Decimal(session))
  }

  lemma NamesAre(raddr: string, ks: string, vbno: nat, session: nat)
    ensures StreamId(ks, vbno, session) == ks + "#" + Decimal(vbno) + "#" + Decimal(session)
    ensures ActiveId(raddr, ks, vbno) == raddr + "#" + ks + "#" + Decimal(vbno)
  {
  }

  /** Whatever the keyspace is called, the name gives all three back. */
  lemma StreamIdsApart(k1: string, v1: nat, o1: nat, k2: string, v2: nat, o2: nat)
    requires StreamId(k1, v1, o1) == StreamId(k2, v2, o2)
    ensures k1 == k2 && v1 == v2 && o1 == o2
  {
    DecimalNoHash(o1);
    DecimalNoHash(o2);
    DecimalNoHash(v1);
    DecimalNoHash(v2);
    LastPart(Join(k1, Decimal(v1)), Decimal(o1), Join(k2, Decimal(v2)), Decimal(o2));
    LastPart(k1, Decimal(v1), k2, Decimal(v2));
    DecimalApart(v1, v2);
    DecimalApart(o1, o2);
  }

  /** activeVb.id: remote address, keyspace and vbucket. */
  function ActiveId(raddr: string, keyspaceId: string, vbno: nat): string
  {
    Join(Join(raddr, keyspaceId), Decimal(vbno))
  }

  /** Two streams share a name exactly if their vbuckets and the joined addresses and keyspaces agree. */
  lemma ActiveIdsApart(r1: string, k1: string, v1: nat, r2: string, k2: string, v2: nat)
    ensures ActiveId(r1, k1, v1) == ActiveId(r2, k2, v2) <==> Join(r1, k1) == Join(r2, k2) && v1 == v2
    ensures HASH !in r1 && HASH !in r2 && ActiveId(r1, k1, v1) == ActiveId(r2, k2, v2) ==> r1 == r2 && k1 == k2
    ensures r1 == r2 && ActiveId(r1, k1, v1) == ActiveId(r2, k2, v2) ==> k1 == k2
  {
    DecimalNoHash(v1);
    DecimalNoHash(v2);
    if ActiveId(r1, k1, v1) == ActiveId(r2, k2, v2) {
      LastPart(Join(r1, k1), Decimal(v1), Join(r2, k2), Decimal(v2));
      DecimalApart(v1, v2);
      if HASH !in r1 && HASH !in r2 { FirstPart(r1, k1, r2, k2); }
      if r1 == r2 { assert k1 == Join(r1, k1)[|r1| + 1..] && k2 == Join(r2, k2)[|r2| + 1..]; }
    }
  }

  /** With a '#' in an address two streams of different remotes can share a name. */
  lemma ActiveIdsCollide()
    ensures ActiveId("a", "b#c", 0) == ActiveId("a#b", "c", 0)
  {
    assert Join("a", "b#c") == "a#b#c" == Join("a#b", "c");
  }
}
