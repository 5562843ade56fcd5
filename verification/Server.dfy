/**
  The dataport server's record of active streams: which streams begin and end them, what passes to
  the application, and what an error on a connection takes away.
 */
module Server {
  import opened Common
  import opened StreamNames

  const UINT64: nat := 0x1_0000_0000_0000_0000

  datatype Command = StreamBegin | StreamEnd | Upsert | Deletion | UpsertDeletion | Other

  /** A stream's key-versions as received; only the first command of each matters here. */
  datatype KeyVersions = KeyVersions(commands: seq<Command>, seqno: nat)

  datatype VbKeyVersions = VbKeyVersions(keyspaceId: string, vbucket: nat, session: nat, kvs: seq<KeyVersions>)

  datatype ActiveVb =
    ActiveVb(raddr: string, keyspaceId: string, vbno: nat, session: nat, seqno: nat := 0, kvers: nat := 0)

  type Keeper = map<string, ActiveVb>

  function Id(a: ActiveVb): string { ActiveId(a.raddr, a.keyspaceId, a.vbno) }

  /** The stream a batch from `raddr` speaks for; vbucket numbers are cut to 16 bits. */
  function Source(raddr: string, vb: VbKeyVersions): ActiveVb
  {
    ActiveVb(raddr, vb.keyspaceId, vb.vbucket % 0x1_0000, vb.session)
  }

  /** The stream without its counters. */
  function Bare(a: ActiveVb): ActiveVb { a.(seqno := 0, kvers := 0) }

  // ---- batches -----------------------------------------------------------------------------------

  predicate IsBegin(kv: KeyVersions) { kv.commands != [] && kv.commands[0].StreamBegin? }

  predicate IsEnd(kv: KeyVersions) { kv.commands != [] && kv.commands[0].StreamEnd? }

  predicate IsMutation(kv: KeyVersions)
  {
    kv.commands != [] && (kv.commands[0].Upsert? || kv.commands[0].Deletion? || kv.commands[0].UpsertDeletion?)
  }

  /** A StreamEnd of the session that is active. */
  predicate EndsSession(h: Keeper, a: ActiveVb, kv: KeyVersions)
  {
    IsEnd(kv) && Id(a) in h && h[Id(a)].session == a.session
  }

  /** Addition of two uint64, with wrap-around. */
  function Sum64(m: nat, n: nat): nat { if m + n < UINT64 then m + n else m + n - UINT64 }

  lemma SumWraps(m: nat, n: nat)
    requires m < 18446744073709551616 && n < 18446744073709551616
    ensures Sum64(m, n) == (m + n) % 18446744073709551616
  {
  }

  function Counted(a: ActiveVb, seqno: nat): ActiveVb { a.(seqno := seqno, kvers := Sum64(a.kvers, 1)) }

  /** The loop over a batch holds the record that is in the map; after a StreamEnd it holds one of its own. */
  predicate Attached(h: Keeper, a: ActiveVb, kvs: seq<KeyVersions>)
  {
    if kvs == [] then Id(a) in h
    else
      var kv := kvs[|kvs| - 1];
      IsBegin(kv) || (!IsEnd(kv) && Attached(h, a, kvs[..|kvs| - 1]))
  }

  function AfterKv(h: Keeper, a: ActiveVb, attached: bool, kv: KeyVersions): Keeper
  {
    if IsBegin(kv) then h[Id(a) := a]
    else if EndsSession(h, a, kv) then h - {Id(a)}
    else if IsMutation(kv) && attached && Id(a) in h then h[Id(a) := Counted(h[Id(a)], kv.seqno)]
    else h
  }

  function AfterKvs(h: Keeper, a: ActiveVb, kvs: seq<KeyVersions>): Keeper
  {
    if kvs == [] then h
    else
      var before := kvs[..|kvs| - 1];
      AfterKv(AfterKvs(h, a, before), a, Attached(h, a, before), kvs[|kvs| - 1])
  }

  /** A stream began, or the active session ended, in this batch. */
  predicate Moved(h: Keeper, a: ActiveVb, kvs: seq<KeyVersions>)
  {
    if kvs == [] then false
    else
      var before, kv := kvs[..|kvs| - 1], kvs[|kvs| - 1];
      Moved(h, a, before) || IsBegin(kv) || EndsSession(AfterKvs(h, a, before), a, kv)
  }

  /** The stream of this name was begun from another address. */
  predicate Foreign(h: Keeper, a: ActiveVb) { Id(a) in h && h[Id(a)].raddr != a.raddr }

  function AfterVb(h: Keeper, a: ActiveVb, kvs: seq<KeyVersions>): Keeper
  {
    if Foreign(h, a) then h else AfterKvs(h, a, kvs)
  }

  predicate Keeps(h: Keeper, a: ActiveVb, kvs: seq<KeyVersions>)
  {
    !Foreign(h, a) && (Id(a) in AfterKvs(h, a, kvs) || Moved(h, a, kvs))
  }

  function AfterVbs(h: Keeper, raddr: string, vbs: seq<VbKeyVersions>): Keeper
  {
    if vbs == [] then h
    else
      var vb := vbs[|vbs| - 1];
      AfterVb(AfterVbs(h, raddr, vbs[..|vbs| - 1]), Source(raddr, vb), vb.kvs)
  }

  /** What parseVbs hands to the application. */
  function Kept(h: Keeper, raddr: string, vbs: seq<VbKeyVersions>): seq<VbKeyVersions>
  {
    if vbs == [] then []
    else
      var vb, before := vbs[|vbs| - 1], vbs[..|vbs| - 1];
      Kept(h, raddr, before)
      + (if Keeps(AfterVbs(h, raddr, before), Source(raddr, vb), vb.kvs) then [vb] else [])
  }

  predicate HasBegin(kvs: seq<KeyVersions>) { exists i :: 0 <= i < |kvs| && IsBegin(kvs[i]) }

  predicate HasEnd(kvs: seq<KeyVersions>) { exists i :: 0 <= i < |kvs| && IsEnd(kvs[i]) }

  /** Exactly the batches of streams that are active, or begin in the batch, get through. */
  lemma KeepsExactly(h: Keeper, a: ActiveVb, kvs: seq<KeyVersions>)
    ensures Keeps(h, a, kvs) <==> !Foreign(h, a) && (Id(a) in h || HasBegin(kvs))
  {
    KeptOrMoved(h, a, kvs);
  }

  lemma {:induction false} KeptOrMoved(h: Keeper, a: ActiveVb, kvs: seq<KeyVersions>)
    ensures Id(a) in AfterKvs(h, a, kvs) || Moved(h, a, kvs) <==> Id(a) in h || HasBegin(kvs)
  {
    if kvs != [] {
      var before, kv := kvs[..|kvs| - 1], kvs[|kvs| - 1];
      KeptOrMoved(h, a, before);
      Snoc(before, kv);
      assert before + [kv] == kvs;
    }
  }

  lemma Snoc(kvs: seq<KeyVersions>, kv: KeyVersions)
    ensures HasBegin(kvs + [kv]) <==> HasBegin(kvs) || IsBegin(kv)
    ensures HasEnd(kvs + [kv]) <==> HasEnd(kvs) || IsEnd(kv)
  {
    var all := kvs + [kv];
    assert all[|kvs|] == kv;
    if HasBegin(kvs) {
      var i :| 0 <= i < |kvs| && IsBegin(kvs[i]);
      assert all[i] == kvs[i];
    }
    if HasEnd(kvs) {
      var i :| 0 <= i < |kvs| && IsEnd(kvs[i]);
      assert all[i] == kvs[i];
    }
  }

  // ---- what a batch makes of its stream's record ------------------------------------------------------

  /** What stands behind the last StreamBegin, everything if there is none. */
  function SinceBegin(kvs: seq<KeyVersions>): seq<KeyVersions>
  {
    if kvs == [] || IsBegin(kvs[|kvs| - 1]) then [] else SinceBegin(kvs[..|kvs| - 1]) + [kvs[|kvs| - 1]]
  }

  /** What stands in front of the first StreamEnd. */
  function BeforeEnd(kvs: seq<KeyVersions>): (r: seq<KeyVersions>)
    ensures |r| <= |kvs|
  {
    if kvs != [] && HasEnd(kvs) then BeforeEnd(kvs[..|kvs| - 1]) else kvs
  }

  function Mutated(kvs: seq<KeyVersions>): nat
  {
    if kvs == [] then 0 else Mutated(kvs[..|kvs| - 1]) + if IsMutation(kvs[|kvs| - 1]) then 1 else 0
  }

  /** All mutations counted on a record. */
  function Tallied(x: ActiveVb, kvs: seq<KeyVersions>): ActiveVb
  {
    if kvs == [] then x
    else
      var y, kv := Tallied(x, kvs[..|kvs| - 1]), kvs[|kvs| - 1];
      if IsMutation(kv) then Counted(y, kv.seqno) else y
  }

  lemma {:induction false} TalliedIs(x: ActiveVb, kvs: seq<KeyVersions>)
    requires x.kvers < UINT64 && |kvs| < UINT64
    ensures Mutated(kvs) <= |kvs| && Tallied(x, kvs).kvers == Sum64(x.kvers, Mutated(kvs))
  {
    if kvs != [] { TalliedIs(x, kvs[..|kvs| - 1]); }
  }

  function At(h: Keeper, id: string): Option<ActiveVb> { if id in h then Some(h[id]) else None }

  /** The record that the mutations of a batch are counted on. */
  function Opened(h: Keeper, a: ActiveVb, kvs: seq<KeyVersions>): Option<ActiveVb>
  {
    if HasBegin(kvs) then Some(a) else At(h, Id(a))
  }

  /**
    The stream's record after a batch: none if there was none, or if its own session ended since;
    otherwise what stands between the last StreamBegin and the next StreamEnd, of whatever session, is
    counted on it.
   */
  function RecordAfter(h: Keeper, a: ActiveVb, kvs: seq<KeyVersions>): Option<ActiveVb>
  {
    RecordOf(Opened(h, a, kvs), a, SinceBegin(kvs))
  }

  function RecordOf(x: Option<ActiveVb>, a: ActiveVb, since: seq<KeyVersions>): Option<ActiveVb>
  {
    if x.None? || (HasEnd(since) && x.value.session == a.session) then None
    else Some(Tallied(x.value, BeforeEnd(since)))
  }

  lemma {:induction false} AttachedIs(h: Keeper, a: ActiveVb, kvs: seq<KeyVersions>)
    ensures Attached(h, a, kvs) <==> Opened(h, a, kvs).Some? && !HasEnd(SinceBegin(kvs))
  {
    if kvs != [] {
      var before, kv := kvs[..|kvs| - 1], kvs[|kvs| - 1];
      AttachedIs(h, a, before);
      assert before + [kv] == kvs;
      Snoc(before, kv);
      Snoc(SinceBegin(before), kv);
    }
  }

  lemma {:induction false} TalliedBare(x: ActiveVb, kvs: seq<KeyVersions>)
    ensures Bare(Tallied(x, kvs)) == Bare(x)
  {
    if kvs != [] { TalliedBare(x, kvs[..|kvs| - 1]); }
  }

  lemma BeforeEndSnoc(kvs: seq<KeyVersions>, kv: KeyVersions)
    ensures BeforeEnd(kvs + [kv]) == if HasEnd(kvs) || IsEnd(kv) then BeforeEnd(kvs) else kvs + [kv]
    ensures !HasEnd(kvs) ==> BeforeEnd(kvs) == kvs
  {
    Snoc(kvs, kv);
    assert (kvs + [kv])[..|kvs|] == kvs;
  }

  function RecordStep(r: Option<ActiveVb>, a: ActiveVb, ended: bool, kv: KeyVersions): Option<ActiveVb>
  {
    if r.None? || (IsEnd(kv) && r.value.session == a.session) then None
    else if IsMutation(kv) && !ended then Some(Counted(r.value, kv.seqno))
    else r
  }

  /** One more entry of a batch, from the record before it. */
  lemma RecordNext(h: Keeper, a: ActiveVb, before: seq<KeyVersions>, kv: KeyVersions)
    requires !IsBegin(kv)
    ensures RecordAfter(h, a, before + [kv]) == RecordStep(RecordAfter(h, a, before), a, HasEnd(SinceBegin(before)), kv)
  {
    var kvs := before + [kv];
    assert kvs[..|kvs| - 1] == before;
    Snoc(before, kv);
    RecordOfNext(Opened(h, a, before), a, SinceBegin(before), kv);
  }

  lemma RecordOfNext(x: Option<ActiveVb>, a: ActiveVb, since: seq<KeyVersions>, kv: KeyVersions)
    ensures RecordOf(x, a, since + [kv]) == RecordStep(RecordOf(x, a, since), a, HasEnd(since), kv)
  {
    Snoc(since, kv);
    if x.Some? { TalliedNext(x.value, since, kv); }
  }

  lemma StepAt(h: Keeper, a: ActiveVb, attached: bool, kv: KeyVersions)
    ensures At(AfterKv(h, a, attached, kv), Id(a))
         == if IsBegin(kv) then Some(a) else RecordStep(At(h, Id(a)), a, !attached, kv)
    ensures forall id :: id != Id(a) ==> At(AfterKv(h, a, attached, kv), id) == At(h, id)
  {
  }

  lemma TalliedNext(x: ActiveVb, since: seq<KeyVersions>, kv: KeyVersions)
    ensures Tallied(x, BeforeEnd(since)).session == x.session
    ensures Tallied(x, BeforeEnd(since + [kv]))
         == if IsMutation(kv) && !HasEnd(since) then Counted(Tallied(x, BeforeEnd(since)), kv.seqno)
            else Tallied(x, BeforeEnd(since))
  {
    BeforeEndSnoc(since, kv);
    TalliedBare(x, BeforeEnd(since));
    assert (since + [kv])[..|since|] == since;
  }

  /** The loop over a batch computes that record and leaves all other streams alone. */
  lemma {:induction false} BatchRecord(h: Keeper, a: ActiveVb, kvs: seq<KeyVersions>)
    ensures At(AfterKvs(h, a, kvs), Id(a)) == RecordAfter(h, a, kvs)
    ensures forall id :: id != Id(a) ==> At(AfterKvs(h, a, kvs), id) == At(h, id)
  {
    if kvs != [] {
      var before, kv := kvs[..|kvs| - 1], kvs[|kvs| - 1];
      BatchRecord(h, a, before);
      assert before + [kv] == kvs;
      AttachedIs(h, a, before);
      StepAt(AfterKvs(h, a, before), a, Attached(h, a, before), kv);
      if IsBegin(kv) { Snoc(before, kv); } else { RecordNext(h, a, before, kv); }
    }
  }

  predicate Behind(kvs: seq<KeyVersions>, i: nat, j: nat)
  {
    i < j < |kvs| && IsEnd(kvs[i]) && IsMutation(kvs[j])
  }

  /** A mutation stands behind a StreamEnd. */
  ghost predicate Misses(kvs: seq<KeyVersions>) { exists i: nat, j: nat :: Behind(kvs, i, j) }

  lemma {:induction false} CountedBefore(kvs: seq<KeyVersions>)
    ensures Mutated(BeforeEnd(kvs)) <= Mutated(kvs) <= |kvs|
    ensures Mutated(BeforeEnd(kvs)) < Mutated(kvs) <==> Misses(kvs)
  {
    if kvs != [] {
      var before, kv := kvs[..|kvs| - 1], kvs[|kvs| - 1];
      CountedBefore(before);
      BeforeEndSnoc(before, kv);
      assert before + [kv] == kvs;
      MissesSnoc(before, kv);
    }
  }

  lemma MissesSnoc(kvs: seq<KeyVersions>, kv: KeyVersions)
    ensures Misses(kvs + [kv]) <==> Misses(kvs) || (HasEnd(kvs) && IsMutation(kv))
  {
    var all := kvs + [kv];
    assert forall i :: 0 <= i < |kvs| ==> all[i] == kvs[i];
    if Misses(kvs) {
      var i: nat, j: nat :| Behind(kvs, i, j);
      assert Behind(all, i, j);
    }
    if HasEnd(kvs) && IsMutation(kv) {
      var i :| 0 <= i < |kvs| && IsEnd(kvs[i]);
      assert Behind(all, i, |kvs|);
    }
    if Misses(all) {
      var i: nat, j: nat :| Behind(all, i, j);
      if j < |kvs| { assert Behind(kvs, i, j); }
    }
  }

  /**
    A stream's counter misses mutations that went to the application exactly if they stand behind a
    StreamEnd in their batch, a late one of another session that leaves the stream active.
   */
  lemma CountsAll(h: Keeper, a: ActiveVb, kvs: seq<KeyVersions>)
    requires Id(a) in h && h[Id(a)].kvers < UINT64 && !HasBegin(kvs) && |kvs| < UINT64
    requires h[Id(a)].session != a.session || !HasEnd(kvs)
    ensures var n := At(AfterKvs(h, a, kvs), Id(a));
      n.Some? && Bare(n.value) == Bare(h[Id(a)]) && (CountsTo(n.value, h[Id(a)], kvs) <==> !Misses(kvs))
  {
    StillThere(h, a, kvs);
    TallyCounts(h[Id(a)], kvs);
  }

  /** The counter has grown by the number of all mutations, as a uint64 does. */
  predicate CountsTo(n: ActiveVb, x: ActiveVb, kvs: seq<KeyVersions>)
  {
    n.kvers == Sum64(x.kvers, Mutated(kvs))
  }

  lemma StillThere(h: Keeper, a: ActiveVb, kvs: seq<KeyVersions>)
    requires Id(a) in h && !HasBegin(kvs) && (h[Id(a)].session != a.session || !HasEnd(kvs))
    ensures At(AfterKvs(h, a, kvs), Id(a)) == Some(Tallied(h[Id(a)], BeforeEnd(kvs)))
  {
    BatchRecord(h, a, kvs);
    AllSinceBegin(kvs);
  }

  lemma TallyCounts(x: ActiveVb, kvs: seq<KeyVersions>)
    requires x.kvers < UINT64 && |kvs| < UINT64
    ensures Bare(Tallied(x, BeforeEnd(kvs))) == Bare(x)
    ensures CountsTo(Tallied(x, BeforeEnd(kvs)), x, kvs) <==> !Misses(kvs)
  {
    TalliedBare(x, BeforeEnd(kvs));
    TalliedIs(x, BeforeEnd(kvs));
    CountedBefore(kvs);
  }

  lemma {:induction false} AllSinceBegin(kvs: seq<KeyVersions>)
    requires !HasBegin(kvs)
    ensures SinceBegin(kvs) == kvs
  {
    if kvs != [] {
      var before, kv := kvs[..|kvs| - 1], kvs[|kvs| - 1];
      assert before + [kv] == kvs;
      Snoc(before, kv);
      AllSinceBegin(before);
    }
  }

  // ---- runs ----------------------------------------------------------------------------------------

  datatype State = State(host: Keeper, conns: set<string>)

  datatype Event =
    | NewConnection(raddr: string)
    | VbMap(raddr: string, keyspaceId: string, vbuckets: seq<nat>)
    | Mutations(raddr: string, vbs: seq<VbKeyVersions>)
    | ConnectionFails(raddr: string, err: bool)

  function Mapped(raddr: string, ks: string, vbno: nat): ActiveVb { ActiveVb(raddr, ks, vbno % 0x1_0000, 0) }

  function AfterVbMap(h: Keeper, raddr: string, ks: string, vbs: seq<nat>): Keeper
  {
    if vbs == [] then h
    else
      var a := Mapped(raddr, ks, vbs[|vbs| - 1]);
      AfterVbMap(h, raddr, ks, vbs[..|vbs| - 1])[Id(a) := a]
  }

  function On(h: Keeper, raddr: string): Keeper { map id | id in h && h[id].raddr == raddr :: h[id] }

  function Off(h: Keeper, raddr: string): Keeper { map id | id in h && h[id].raddr != raddr :: h[id] }

  function Next(s: State, e: Event): State
  {
    match e
    case NewConnection(raddr) => s.(conns := s.conns + {raddr})
    case VbMap(raddr, ks, vbs) => s.(host := AfterVbMap(s.host, raddr, ks, vbs))
    case Mutations(raddr, vbs) => s.(host := AfterVbs(s.host, raddr, vbs))
    case ConnectionFails(raddr, err) =>
      if raddr in s.conns && err then State(Off(s.host, raddr), s.conns - {raddr}) else s
  }

  function Run(s: State, es: seq<Event>): State
  {
    if es == [] then s else Next(Run(s, es[..|es| - 1]), es[|es| - 1])
  }

  /** Streams are filed under their own names. */
  ghost predicate Filed(h: Keeper) { forall id :: id in h ==> Id(h[id]) == id }

  lemma FiledKv(h: Keeper, a: ActiveVb, attached: bool, kv: KeyVersions)
    requires Filed(h)
    ensures Filed(AfterKv(h, a, attached, kv))
  {
  }

  lemma {:induction false} FiledKvs(h: Keeper, a: ActiveVb, kvs: seq<KeyVersions>)
    requires Filed(h)
    ensures Filed(AfterKvs(h, a, kvs))
  {
    if kvs != [] {
      FiledKvs(h, a, kvs[..|kvs| - 1]);
      FiledKv(AfterKvs(h, a, kvs[..|kvs| - 1]), a, Attached(h, a, kvs[..|kvs| - 1]), kvs[|kvs| - 1]);
    }
  }

  lemma {:induction false} FiledVbs(h: Keeper, raddr: string, vbs: seq<VbKeyVersions>)
    requires Filed(h)
    ensures Filed(AfterVbs(h, raddr, vbs))
  {
    if vbs != [] {
      var vb := vbs[|vbs| - 1];
      FiledVbs(h, raddr, vbs[..|vbs| - 1]);
      FiledKvs(AfterVbs(h, raddr, vbs[..|vbs| - 1]), Source(raddr, vb), vb.kvs);
    }
  }

  lemma {:induction false} FiledVbMap(h: Keeper, raddr: string, ks: string, vbs: seq<nat>)
    requires Filed(h)
    ensures Filed(AfterVbMap(h, raddr, ks, vbs))
  {
    if vbs != [] { FiledVbMap(h, raddr, ks, vbs[..|vbs| - 1]); }
  }

  lemma {:induction false} AlwaysFiled(s: State, es: seq<Event>)
    requires Filed(s.host)
    ensures Filed(Run(s, es).host)
  {
    if es != [] {
      var p := Run(s, es[..|es| - 1]);
      AlwaysFiled(s, es[..|es| - 1]);
      match es[|es| - 1]
      case Mutations(raddr, vbs) => FiledVbs(p.host, raddr, vbs);
      case VbMap(raddr, ks, vbs) => FiledVbMap(p.host, raddr, ks, vbs);
      case _ =>
    }
  }

  // ---- what takes an active stream away --------------------------------------------------------------

  /** A begin of the stream, whatever the session, or an end of its own session. */
  predicate Speaks(a: ActiveVb, session: nat, kv: KeyVersions)
  {
    IsBegin(kv) || (IsEnd(kv) && session == a.session)
  }

  predicate BatchTouches(a: ActiveVb, session: nat, kvs: seq<KeyVersions>)
  {
    exists i :: 0 <= i < |kvs| && Speaks(a, session, kvs[i])
  }

  /** An event that may replace or remove the stream; vbucket numbers are cut to 16 bits. */
  predicate Touches(a: ActiveVb, e: Event)
  {
    match e
    case NewConnection(_) => false
    case VbMap(raddr, ks, vbs) => exists i :: 0 <= i < |vbs| && ActiveId(raddr, ks, vbs[i] % 0x1_0000) == Id(a)
    case Mutations(raddr, vbs) => exists i :: 0 <= i < |vbs| && VbTouches(a, raddr, vbs[i])
    case ConnectionFails(raddr, err) => err && raddr == a.raddr
  }

  predicate VbTouches(a: ActiveVb, raddr: string, vb: VbKeyVersions)
  {
    ActiveId(raddr, vb.keyspaceId, vb.vbucket % 0x1_0000) == Id(a) && BatchTouches(a, vb.session, vb.kvs)
  }

  /** The stream is active, with whatever counters. */
  predicate Holds(h: Keeper, a: ActiveVb) { Id(a) in h && Bare(h[Id(a)]) == Bare(a) }

  lemma {:induction false} BatchKeeps(h: Keeper, a: ActiveVb, b: ActiveVb, kvs: seq<KeyVersions>)
    requires Holds(h, a) && (Id(b) != Id(a) || !BatchTouches(a, b.session, kvs))
    ensures Holds(AfterKvs(h, b, kvs), a)
  {
    if kvs != [] {
      var before, kv := kvs[..|kvs| - 1], kvs[|kvs| - 1];
      assert Id(b) == Id(a) ==> !Speaks(a, b.session, kv);
      assert forall i :: 0 <= i < |before| ==> before[i] == kvs[i];
      BatchKeeps(h, a, b, before);
    }
  }

  lemma {:induction false} MutationsKeep(h: Keeper, a: ActiveVb, raddr: string, vbs: seq<VbKeyVersions>)
    requires Holds(h, a) && forall i :: 0 <= i < |vbs| ==> !VbTouches(a, raddr, vbs[i])
    ensures Holds(AfterVbs(h, raddr, vbs), a)
  {
    if vbs != [] {
      var before, vb := vbs[..|vbs| - 1], vbs[|vbs| - 1];
      assert forall i :: 0 <= i < |before| ==> before[i] == vbs[i];
      MutationsKeep(h, a, raddr, before);
      BatchKeeps(AfterVbs(h, raddr, before), a, Source(raddr, vb), vb.kvs);
    }
  }

  lemma {:induction false} VbMapKeeps(h: Keeper, a: ActiveVb, raddr: string, ks: string, vbs: seq<nat>)
    requires Holds(h, a)
    requires forall i :: 0 <= i < |vbs| ==> ActiveId(raddr, ks, vbs[i] % 0x1_0000) != Id(a)
    ensures Holds(AfterVbMap(h, raddr, ks, vbs), a)
  {
    if vbs != [] {
      var before := vbs[..|vbs| - 1];
      assert forall i :: 0 <= i < |before| ==> before[i] == vbs[i];
      VbMapKeeps(h, a, raddr, ks, before);
    }
  }

  /** Nothing else takes an active stream away or replaces it. */
  lemma StepKeeps(s: State, e: Event, a: ActiveVb)
    requires Holds(s.host, a) && !Touches(a, e)
    ensures Holds(Next(s, e).host, a)
  {
    match e
    case Mutations(raddr, vbs) => MutationsKeep(s.host, a, raddr, vbs);
    case VbMap(raddr, ks, vbs) => VbMapKeeps(s.host, a, raddr, ks, vbs);
    case _ =>
  }

  /**
    Over any run: a stream stays active until a StreamEnd of its own session, a StreamBegin or
    vbmap that replaces it, or an error on its connection.
   */
  lemma {:induction false} StaysActive(s: State, es: seq<Event>, a: ActiveVb)
    requires Holds(s.host, a) && forall i :: 0 <= i < |es| ==> !Touches(a, es[i])
    ensures Holds(Run(s, es).host, a)
  {
    if es != [] {
      var before := es[..|es| - 1];
      assert forall i :: 0 <= i < |before| ==> before[i] == es[i];
      StaysActive(s, before, a);
      StepKeeps(Run(s, before), es[|es| - 1], a);
    }
  }

  /** A late StreamEnd of another session takes nothing away, however often it comes. */
  lemma {:induction false} LateEndKeeps(h: Keeper, a: ActiveVb, older: nat, kvs: seq<KeyVersions>)
    requires Holds(h, a) && older != a.session && !HasBegin(kvs)
    ensures Holds(AfterKvs(h, a.(session := older), kvs), a)
    ensures forall id :: id != Id(a) ==> At(AfterKvs(h, a.(session := older), kvs), id) == At(h, id)
  {
    var b := a.(session := older);
    assert Id(b) == Id(a);
    BatchRecord(h, b, kvs);
    TalliedBare(h[Id(a)], BeforeEnd(SinceBegin(kvs)));
  }

  // ---- what a message makes of the record, by its fields ---------------------------------------------

  /** What the last batch of a message does, given what those before it have done. */
  lemma LastBatch(s: State, raddr: string, before: seq<VbKeyVersions>, vb: VbKeyVersions)
    ensures var h, n := Next(s, Mutations(raddr, before)).host, Next(s, Mutations(raddr, before + [vb])).host;
      var id := ActiveId(raddr, vb.keyspaceId, vb.vbucket % 0x1_0000);
      if id in h && h[id].raddr != raddr then n == h
      else n == AfterKvs(h, ActiveVb(raddr, vb.keyspaceId, vb.vbucket % 0x1_0000, vb.session, 0, 0), vb.kvs)
  {
    var vbs := before + [vb];
    assert vbs[..|vbs| - 1] == before;
  }

  /**
    A StreamBegin without a StreamEnd behind it leaves the record of its address, keyspace, vbucket and
    session; with one it leaves none.
   */
  lemma BeginLeaves(s: State, raddr: string, before: seq<VbKeyVersions>, vb: VbKeyVersions)
    requires HasBegin(vb.kvs)
    requires var h, id := Next(s, Mutations(raddr, before)).host, ActiveId(raddr, vb.keyspaceId, vb.vbucket % 0x1_0000);
      id in h ==> h[id].raddr == raddr
    ensures var n := Next(s, Mutations(raddr, before + [vb])).host;
      var id := ActiveId(raddr, vb.keyspaceId, vb.vbucket % 0x1_0000);
      && (id in n <==> !HasEnd(SinceBegin(vb.kvs)))
      && (id in n ==> Bare(n[id]) == ActiveVb(raddr, vb.keyspaceId, vb.vbucket % 0x1_0000, vb.session, 0, 0))
      && (id in n && |vb.kvs| < UINT64 ==> n[id].kvers == Mutated(SinceBegin(vb.kvs)))
  {
    var h, a := Next(s, Mutations(raddr, before)).host,
                ActiveVb(raddr, vb.keyspaceId, vb.vbucket % 0x1_0000, vb.session, 0, 0);
    LastBatch(s, raddr, before, vb);
    BatchRecord(h, a, vb.kvs);
    var since := SinceBegin(vb.kvs);
    TalliedBare(a, BeforeEnd(since));
    SinceShorter(vb.kvs);
    if |vb.kvs| < UINT64 && !HasEnd(since) { TalliedIs(a, since); }
  }

  lemma {:induction false} SinceShorter(kvs: seq<KeyVersions>)
    ensures |SinceBegin(kvs)| <= |kvs|
  {
    if kvs != [] { SinceShorter(kvs[..|kvs| - 1]); }
  }

  /**
    A batch without a StreamBegin leaves an active stream active exactly if it has no StreamEnd or is of
    another session than the stream; a stream that is not active stays so, and no other is touched.
   */
  lemma NoBeginLeaves(s: State, raddr: string, before: seq<VbKeyVersions>, vb: VbKeyVersions)
    requires !HasBegin(vb.kvs)
    ensures var h, n := Next(s, Mutations(raddr, before)).host, Next(s, Mutations(raddr, before + [vb])).host;
      var id := ActiveId(raddr, vb.keyspaceId, vb.vbucket % 0x1_0000);
      && (id !in h ==> n == h)
      && (id in h && h[id].raddr == raddr ==>
            && (id in n <==> !HasEnd(vb.kvs) || vb.session != h[id].session)
            && (id in n ==> Bare(n[id]) == Bare(h[id])))
      && forall x :: x != id ==> At(n, x) == At(h, x)
  {
    var h, a := Next(s, Mutations(raddr, before)).host,
                ActiveVb(raddr, vb.keyspaceId, vb.vbucket % 0x1_0000, vb.session, 0, 0);
    LastBatch(s, raddr, before, vb);
    BatchRecord(h, a, vb.kvs);
    AllSinceBegin(vb.kvs);
    if Id(a) in h { TalliedBare(h[Id(a)], BeforeEnd(vb.kvs)); }
    SameAt(h, AfterKvs(h, a, vb.kvs));
  }

  lemma SameAt(h: Keeper, n: Keeper)
    ensures (forall id :: At(n, id) == At(h, id)) <==> n == h
  {
    if forall id :: At(n, id) == At(h, id) {
      assert forall id :: id in n <==> At(n, id).Some?;
      assert forall id :: id in n ==> At(n, id) == At(h, id);
    }
  }

  /** A batch goes to the application exactly if its stream is active or begins, and is not another address's. */
  lemma PassesExactly(s: State, raddr: string, before: seq<VbKeyVersions>, vb: VbKeyVersions)
    ensures var h, id := Next(s, Mutations(raddr, before)).host, ActiveId(raddr, vb.keyspaceId, vb.vbucket % 0x1_0000);
      var passes := if id in h then h[id].raddr == raddr else HasBegin(vb.kvs);
      Kept(s.host, raddr, before + [vb]) == Kept(s.host, raddr, before) + if passes then [vb] else []
  {
    var vbs := before + [vb];
    assert vbs[..|vbs| - 1] == before;
    KeepsExactly(AfterVbs(s.host, raddr, before), Source(raddr, vb), vb.kvs);
  }

  /** A vbmap makes its vbuckets active, in no session and with nothing counted, and touches no other stream. */
  lemma {:induction false} VbMapLeaves(s: State, raddr: string, ks: string, vbs: seq<nat>, id: string)
    ensures var n := Next(s, VbMap(raddr, ks, vbs)).host;
      && (forall i :: 0 <= i < |vbs| ==>
            At(n, ActiveId(raddr, ks, vbs[i] % 0x1_0000)) == Some(ActiveVb(raddr, ks, vbs[i] % 0x1_0000, 0, 0, 0)))
      && ((forall i :: 0 <= i < |vbs| ==> ActiveId(raddr, ks, vbs[i] % 0x1_0000) != id) ==> At(n, id) == At(s.host, id))
    decreases |vbs|
  {
    if vbs != [] {
      var before, vb := vbs[..|vbs| - 1], vbs[|vbs| - 1] % 0x1_0000;
      VbMapLeaves(s, raddr, ks, before, id);
      forall i | 0 <= i < |vbs|
        ensures At(Next(s, VbMap(raddr, ks, vbs)).host, ActiveId(raddr, ks, vbs[i] % 0x1_0000))
             == Some(ActiveVb(raddr, ks, vbs[i] % 0x1_0000, 0, 0, 0)) {
        ActiveIdsApart(raddr, ks, vbs[i] % 0x1_0000, raddr, ks, vb);
        if i < |before| { assert before[i] == vbs[i]; }
      }
      assert forall i :: 0 <= i < |before| ==> before[i] == vbs[i];
    }
  }

  /** Without '#' in addresses no batch is ever foreign. */
  lemma NeverForeign(h: Keeper, a: ActiveVb)
    requires Filed(h) && HASH !in a.raddr && forall id :: id in h ==> HASH !in h[id].raddr
    ensures !Foreign(h, a)
  {
    if Id(a) in h {
      var b := h[Id(a)];
      ActiveIdsApart(a.raddr, a.keyspaceId, a.vbno, b.raddr, b.keyspaceId, b.vbno);
    }
  }

  // ---- streams and connections -----------------------------------------------------------------------

  /** Every active stream's address has a connection. */
  ghost predicate Connected(s: State) { forall id :: id in s.host ==> s.host[id].raddr in s.conns }

  ghost predicate Plain(h: Keeper) { forall id :: id in h ==> HASH !in h[id].raddr }

  /** A message from an address that is gone which, even on an empty record, would leave a stream active. */
  predicate Late(s: State, e: Event)
  {
    match e
    case VbMap(raddr, _, vbs) => raddr !in s.conns && vbs != []
    case Mutations(raddr, vbs) => raddr !in s.conns && AfterVbs(map[], raddr, vbs) != map[]
    case _ => false
  }

  lemma KvApart(h: Keeper, g: Keeper, a: ActiveVb, attached: bool, kv: KeyVersions)
    requires Id(a) !in h
    ensures AfterKv(h + g, a, attached, kv) == h + AfterKv(g, a, attached, kv)
  {
  }

  lemma {:induction false} KvsApart(h: Keeper, g: Keeper, a: ActiveVb, kvs: seq<KeyVersions>)
    requires Id(a) !in h
    ensures AfterKvs(h + g, a, kvs) == h + AfterKvs(g, a, kvs) && Attached(h + g, a, kvs) == Attached(g, a, kvs)
  {
    if kvs != [] {
      var before := kvs[..|kvs| - 1];
      KvsApart(h, g, a, before);
      KvApart(h, AfterKvs(g, a, before), a, Attached(g, a, before), kvs[|kvs| - 1]);
    }
  }

  /** No stream of `h` shares its name with one of `raddr`. */
  ghost predicate Without(h: Keeper, raddr: string) { forall ks, vbno :: ActiveId(raddr, ks, vbno) !in h }

  lemma {:induction false} VbsApart(h: Keeper, raddr: string, vbs: seq<VbKeyVersions>)
    requires Without(h, raddr)
    ensures AfterVbs(h, raddr, vbs) == h + AfterVbs(map[], raddr, vbs)
  {
    if vbs != [] {
      var before, vb := vbs[..|vbs| - 1], vbs[|vbs| - 1];
      VbsApart(h, raddr, before);
      KvsApart(h, AfterVbs(map[], raddr, before), Source(raddr, vb), vb.kvs);
    }
  }

  /** Streams of one address only. */
  ghost predicate AllOf(h: Keeper, raddr: string) { forall id :: id in h ==> h[id].raddr == raddr }

  lemma {:induction false} KvsAllOf(h: Keeper, a: ActiveVb, kvs: seq<KeyVersions>)
    requires AllOf(h, a.raddr)
    ensures AllOf(AfterKvs(h, a, kvs), a.raddr)
  {
    if kvs != [] { KvsAllOf(h, a, kvs[..|kvs| - 1]); }
  }

  lemma {:induction false} VbsAllOf(raddr: string, vbs: seq<VbKeyVersions>)
    ensures AllOf(AfterVbs(map[], raddr, vbs), raddr)
  {
    if vbs != [] {
      var vb := vbs[|vbs| - 1];
      VbsAllOf(raddr, vbs[..|vbs| - 1]);
      KvsAllOf(AfterVbs(map[], raddr, vbs[..|vbs| - 1]), Source(raddr, vb), vb.kvs);
    }
  }

  lemma {:induction false} VbMapAddresses(h: Keeper, raddr: string, ks: string, vbs: seq<nat>)
    ensures forall id :: id in AfterVbMap(h, raddr, ks, vbs) ==>
              var x := AfterVbMap(h, raddr, ks, vbs)[id]; x.raddr == raddr || (id in h && x == h[id])
    ensures vbs != [] ==> exists id :: id in AfterVbMap(h, raddr, ks, vbs)
                                    && AfterVbMap(h, raddr, ks, vbs)[id].raddr == raddr
  {
    if vbs != [] {
      VbMapAddresses(h, raddr, ks, vbs[..|vbs| - 1]);
      assert Id(Mapped(raddr, ks, vbs[|vbs| - 1])) in AfterVbMap(h, raddr, ks, vbs);
    }
  }

  lemma {:induction false} KvsAddresses(h: Keeper, a: ActiveVb, kvs: seq<KeyVersions>)
    ensures forall id :: id in AfterKvs(h, a, kvs) ==>
              var x := AfterKvs(h, a, kvs)[id]; x.raddr == a.raddr || (id in h && x.raddr == h[id].raddr)
  {
    if kvs != [] { KvsAddresses(h, a, kvs[..|kvs| - 1]); }
  }

  lemma {:induction false} VbsAddresses(h: Keeper, raddr: string, vbs: seq<VbKeyVersions>)
    ensures forall id :: id in AfterVbs(h, raddr, vbs) ==>
              var x := AfterVbs(h, raddr, vbs)[id]; x.raddr == raddr || (id in h && x.raddr == h[id].raddr)
  {
    if vbs != [] {
      var before, vb := vbs[..|vbs| - 1], vbs[|vbs| - 1];
      VbsAddresses(h, raddr, before);
      KvsAddresses(AfterVbs(h, raddr, before), Source(raddr, vb), vb.kvs);
    }
  }

  /** Streams of other addresses have other names. */
  lemma GoneIsWithout(s: State, raddr: string)
    requires Filed(s.host) && Plain(s.host) && HASH !in raddr && Connected(s) && raddr !in s.conns
    ensures Without(s.host, raddr)
  {
    forall ks, vbno ensures ActiveId(raddr, ks, vbno) !in s.host {
      NeverForeign(s.host, ActiveVb(raddr, ks, vbno, 0));
    }
  }

  /**
    A step keeps every active stream connected exactly if it is not a late message; the addresses
    have no '#'.
   */
  lemma ConnectedExactly(s: State, e: Event)
    requires Filed(s.host) && Plain(s.host) && HASH !in e.raddr && Connected(s)
    ensures Connected(Next(s, e)) <==> !Late(s, e)
    ensures Plain(Next(s, e).host)
  {
    match e
    case NewConnection(_) =>
    case ConnectionFails(_, _) =>
    case VbMap(raddr, ks, vbs) => VbMapAddresses(s.host, raddr, ks, vbs);
    case Mutations(raddr, vbs) =>
      VbsAddresses(s.host, raddr, vbs);
      if raddr !in s.conns { GoneMutations(s, raddr, vbs); }
  }

  lemma GoneMutations(s: State, raddr: string, vbs: seq<VbKeyVersions>)
    requires Filed(s.host) && Plain(s.host) && HASH !in raddr && Connected(s) && raddr !in s.conns
    ensures Connected(s.(host := AfterVbs(s.host, raddr, vbs))) <==> AfterVbs(map[], raddr, vbs) == map[]
  {
    var g := AfterVbs(map[], raddr, vbs);
    GoneIsWithout(s, raddr);
    VbsApart(s.host, raddr, vbs);
    VbsAllOf(raddr, vbs);
    if g != map[] {
      var id :| id in g;
      assert (s.host + g)[id].raddr == raddr;
    }
  }

  /** Over any run without late messages active streams are connected. */
  lemma {:induction false} AlwaysConnected(s: State, es: seq<Event>)
    requires Filed(s.host) && Plain(s.host) && Connected(s) && forall i :: 0 <= i < |es| ==> HASH !in es[i].raddr
    requires forall i :: 0 <= i < |es| ==> !Late(Run(s, es[..i]), es[i])
    ensures Connected(Run(s, es)) && Plain(Run(s, es).host)
  {
    if es != [] {
      var before := es[..|es| - 1];
      assert forall i :: 0 <= i < |before| ==> before[i] == es[i] && before[..i] == es[..i];
      AlwaysConnected(s, before);
      AlwaysFiled(s, before);
      ConnectedExactly(Run(s, before), es[|es| - 1]);
    }
  }

  /** What a late message leaves active no error on its address takes away. */
  lemma LateStays(s: State, e: Event, err: bool)
    requires Filed(s.host) && Plain(s.host) && HASH !in e.raddr && Connected(s) && Late(s, e)
    ensures var n := Next(s, e);
      && Next(n, ConnectionFails(e.raddr, err)) == n
      && exists id :: id in n.host && n.host[id].raddr == e.raddr
  {
    ConnectedExactly(s, e);
    var n := Next(s, e);
    var id :| id in n.host && n.host[id].raddr !in n.conns;
    match e
    case VbMap(raddr, ks, vbs) => VbMapAddresses(s.host, raddr, ks, vbs);
    case Mutations(raddr, vbs) => VbsAddresses(s.host, raddr, vbs);
  }

  /** Such a message: a StreamBegin still queued when its connection was removed. */
  lemma LateBegin()
    ensures var begin := VbKeyVersions("ks", 7, 1, [KeyVersions([StreamBegin], 0)]);
      Late(State(map[], {}), Mutations("a", [begin]))
  {
    var begin := VbKeyVersions("ks", 7, 1, [KeyVersions([StreamBegin], 0)]);
    var a := Source("a", begin);
    assert [begin][..0] == [] && begin.kvs[..0] == [];
    assert AfterVbs(map[], "a", [begin]) == AfterVb(map[], a, begin.kvs) == map[][Id(a) := a];
    assert Id(a) in AfterVbs(map[], "a", [begin]);
  }

  // ---- what an error reports -------------------------------------------------------------------------

  type Report = map<string, seq<nat>>  // keyspace and its vbuckets

  function Listed(ce: Report, ks: string): seq<nat> { if ks in ce then ce[ks] else [] }

  /** The report names the vbuckets of exactly the streams in `h` with that address, each once. */
  ghost predicate Reports(ce: Report, h: Keeper, raddr: string)
  {
    && (forall ks, vb :: vb in Listed(ce, ks) <==> Holding(h, raddr, ks, vb))
    && (forall ks :: NoDup(Listed(ce, ks)))
  }

  predicate Holding(h: Keeper, raddr: string, ks: string, vb: nat)
  {
    var id := ActiveId(raddr, ks, vb);
    id in h && h[id].raddr == raddr
  }

  function Noted(ce: Report, a: ActiveVb): Report { ce[a.keyspaceId := Listed(ce, a.keyspaceId) + [a.vbno]] }

  /** `added` behind what was there, keyspace by keyspace. */
  ghost predicate Extends(ce: Report, was: Report, added: Report)
  {
    forall ks :: Listed(ce, ks) == Listed(was, ks) + Listed(added, ks)
  }

  lemma ExtendsNext(ce: Report, was: Report, added: Report, a: ActiveVb)
    requires Extends(ce, was, added)
    ensures Extends(Noted(ce, a), was, Noted(added, a))
  {
    var ks := a.keyspaceId;
    assert Listed(was, ks) + Listed(added, ks) + [a.vbno] == Listed(was, ks) + (Listed(added, ks) + [a.vbno]);
  }

  lemma FirstReport(ce: Report, added: Report, h: Keeper, raddr: string)
    requires Extends(ce, map[], added) && Reports(added, h, raddr)
    ensures Reports(ce, h, raddr)
  {
    assert forall ks :: Listed(ce, ks) == Listed(added, ks);
  }

  /** One more stream, on this connection or another. */
  lemma ReportsNext(ce: Report, h: Keeper, raddr: string, id: string, a: ActiveVb)
    requires Reports(ce, h, raddr) && id !in h && Id(a) == id
    ensures Reports(if a.raddr == raddr then Noted(ce, a) else ce, h[id := a], raddr)
  {
    var n := if a.raddr == raddr then Noted(ce, a) else ce;
    forall ks, vb ensures vb in Listed(n, ks) <==> Holding(h[id := a], raddr, ks, vb) {
      ActiveIdsApart(raddr, ks, vb, a.raddr, a.keyspaceId, a.vbno);
      assert vb in Listed(ce, ks) <==> Holding(h, raddr, ks, vb);
    }
    if a.raddr == raddr {
      assert !Holding(h, raddr, a.keyspaceId, a.vbno);
      forall ks ensures NoDup(Listed(n, ks)) {
        assert NoDup(Listed(ce, ks));
        if ks == a.keyspaceId {
          SnocNoDup(Listed(ce, ks), a.vbno);
          assert Listed(n, ks) == Listed(ce, ks) + [a.vbno];
        } else {
          assert Listed(n, ks) == Listed(ce, ks);
        }
      }
    }
  }

  lemma SnocNoDup(xs: seq<nat>, x: nat)
    requires NoDup(xs) && x !in xs
    ensures NoDup(xs + [x])
  {
  }

  function Among(h: Keeper, ids: set<string>): Keeper { map id | id in h && id in ids :: h[id] }

  lemma AmongNext(h: Keeper, left: set<string>, id: string)
    requires left <= h.Keys && id in left
    ensures Among(h, h.Keys - (left - {id})) == Among(h, h.Keys - left)[id := h[id]]
  {
  }

  lemma OnNext(h: Keeper, id: string, a: ActiveVb, raddr: string)
    requires id !in h
    ensures On(h[id := a], raddr) == if a.raddr == raddr then On(h, raddr)[id := a] else On(h, raddr)
  {
  }

  // ---- the server ------------------------------------------------------------------------------------

  lemma ParsedNext(h: Keeper, raddr: string, vbs: seq<VbKeyVersions>, i: nat)
    requires i < |vbs|
    ensures var g, a := AfterVbs(h, raddr, vbs[..i]), Source(raddr, vbs[i]);
      && AfterVbs(h, raddr, vbs[..i + 1]) == AfterVb(g, a, vbs[i].kvs)
      && Kept(h, raddr, vbs[..i + 1])
         == if Keeps(g, a, vbs[i].kvs) then Kept(h, raddr, vbs[..i]) + [vbs[i]] else Kept(h, raddr, vbs[..i])
  {
    assert vbs[..i + 1][..i] == vbs[..i];
    assert Kept(h, raddr, vbs[..i]) + [] == Kept(h, raddr, vbs[..i]);
  }

  /** After i batches: those that passed stand in front, those to come where they were. */
  ghost predicate Pruned(b: seq<VbKeyVersions>, kept: nat, i: nat, all: seq<VbKeyVersions>, raddr: string,
                         h: Keeper, now: Keeper)
  {
    && kept <= i <= |all| == |b| && b[..kept] == Kept(h, raddr, all[..i]) && b[i..] == all[i..]
    && now == AfterVbs(h, raddr, all[..i])
  }

  lemma PrunedNext(b: seq<VbKeyVersions>, kept: nat, i: nat, all: seq<VbKeyVersions>, raddr: string,
                   h: Keeper, now: Keeper)
    requires Pruned(b, kept, i, all, raddr, h, now) && i < |all|
    ensures b[i] == all[i]
    ensures var a, kvs := Source(raddr, all[i]), all[i].kvs;
      if Keeps(now, a, kvs) then Pruned(b[kept := all[i]], kept + 1, i + 1, all, raddr, h, AfterVb(now, a, kvs))
      else Pruned(b, kept, i + 1, all, raddr, h, AfterVb(now, a, kvs))
  {
    ParsedNext(h, raddr, all, i);
    assert b[i..][0] == b[i] && all[i..][0] == all[i];
    MovedUp(b, kept, i, all[i]);
    assert b[i + 1..] == b[i..][1..] && all[i + 1..] == all[i..][1..];
  }

  lemma MovedUp(b: seq<VbKeyVersions>, kept: nat, i: nat, vb: VbKeyVersions)
    requires kept <= i < |b|
    ensures b[kept := vb][..kept + 1] == b[..kept] + [vb] && b[kept := vb][i + 1..] == b[i + 1..]
  {
  }

  class Server {
    var hostUuids: Keeper
    var conns: set<string>

    ghost function Abs(): State
      reads this
    {
      State(hostUuids, conns)
    }

    constructor ()
      ensures Abs() == State(map[], {})
    {
      hostUuids, conns := map[], {};
    }

    /** A second connection from an address is turned away. */
    method NewConnection(raddr: string) returns (accepted: bool)
      modifies this`conns
      ensures accepted <==> raddr !in old(conns)
      ensures conns == old(conns) + {raddr}
      ensures Abs() == Next(old(Abs()), Event.NewConnection(raddr))
    {
      accepted := raddr !in conns;
      conns := conns + {raddr};
    }

    method HandleVbMap(raddr: string, ks: string, vbs: seq<nat>)
      modifies this`hostUuids
      ensures Abs() == Next(old(Abs()), VbMap(raddr, ks, vbs))
    {
      for i := 0 to |vbs|
        invariant hostUuids == AfterVbMap(old(hostUuids), raddr, ks, vbs[..i])
      {
        assert vbs[..i + 1][..i] == vbs[..i];
        var avb := Mapped(raddr, ks, vbs[i]);
        hostUuids := hostUuids[Id(avb) := avb];
      }
      assert vbs[..|vbs|] == vbs;
    }

    /** The key-versions of one batch; `attached` while the loop's record is the one in the map. */
    method ParseKvs(avb: ActiveVb, kvs: seq<KeyVersions>) returns (vbok: bool)
      modifies this`hostUuids
      ensures hostUuids == AfterKvs(old(hostUuids), avb, kvs) && vbok == Moved(old(hostUuids), avb, kvs)
    {
      vbok := false;
      var id := Id(avb);
      var attached := id in hostUuids;
      for i := 0 to |kvs|
        invariant hostUuids == AfterKvs(old(hostUuids), avb, kvs[..i]) && vbok == Moved(old(hostUuids), avb, kvs[..i])
        invariant attached == Attached(old(hostUuids), avb, kvs[..i]) && (attached ==> id in hostUuids)
      {
        assert kvs[..i + 1][..i] == kvs[..i];
        if kvs[i].commands != [] {
          match kvs[i].commands[0] {
            case StreamBegin =>
              hostUuids, attached, vbok := hostUuids[id := avb], true, true;
            case StreamEnd =>
              attached := false;
              if id in hostUuids && avb.session == hostUuids[id].session {
                hostUuids, vbok := hostUuids - {id}, true;
              }
            case Upsert | Deletion | UpsertDeletion =>
              if attached { hostUuids := hostUuids[id := Counted(hostUuids[id], kvs[i].seqno)]; }
            case Other =>
          }
        }
      }
      assert kvs[..|kvs|] == kvs;
    }

    /** One batch: whether it passes. */
    method ParseVb(avb: ActiveVb, kvs: seq<KeyVersions>) returns (pass: bool)
      modifies this`hostUuids
      ensures hostUuids == AfterVb(old(hostUuids), avb, kvs) && pass == Keeps(old(hostUuids), avb, kvs)
    {
      var id := Id(avb);
      if id in hostUuids && avb.raddr != hostUuids[id].raddr { return false; }
      var vbok := ParseKvs(avb, kvs);
      pass := id in hostUuids || vbok;
    }

    /** parseVbs prunes the batches in place: those that pass move to the front, in order. */
    method ParseVbs(raddr: string, vbs: array<VbKeyVersions>) returns (kept: nat)
      modifies this`hostUuids, vbs
      ensures Abs() == Next(old(Abs()), Mutations(raddr, old(vbs[..])))
      ensures kept <= vbs.Length && vbs[..kept] == Kept(old(hostUuids), raddr, old(vbs[..]))
    {
      ghost var all := vbs[..];
      kept := 0;
      for i := 0 to vbs.Length
        invariant Pruned(vbs[..], kept, i, all, raddr, old(hostUuids), hostUuids)
      {
        kept := ParseNext(raddr, vbs, i, kept, all, old(hostUuids));
      }
      assert all[..vbs.Length] == all;
      assert vbs[..][..kept] == vbs[..kept];
    }

    /** One turn of that loop. */
    method ParseNext(raddr: string, vbs: array<VbKeyVersions>, i: nat, kept: nat,
                     ghost all: seq<VbKeyVersions>, ghost h: Keeper) returns (next: nat)
      requires i < vbs.Length && Pruned(vbs[..], kept, i, all, raddr, h, hostUuids)
      modifies this`hostUuids, vbs
      ensures Pruned(vbs[..], next, i + 1, all, raddr, h, hostUuids)
    {
      PrunedNext(vbs[..], kept, i, all, raddr, h, hostUuids);
      var vb := vbs[i];
      var pass := ParseVb(Source(raddr, vb), vb.kvs);
      next := kept;
      if pass {
        vbs[kept] := vb;
        next := kept + 1;
      }
    }

    /** jumboErrorHandler: reports the streams of a failed connection and removes them. */
    method HandleError(raddr: string, err: bool) returns (report: Option<Report>)
      requires Filed(hostUuids)
      modifies this
      ensures Abs() == Next(old(Abs()), ConnectionFails(raddr, err))
      ensures report.Some? <==> raddr in old(conns) && err
      ensures report.Some? ==> Reports(report.value, old(hostUuids), raddr)
      ensures forall id :: id in old(hostUuids) ==>
                (id in hostUuids <==> report.None? || old(hostUuids)[id].raddr != raddr)
      ensures forall id :: id in hostUuids ==> id in old(hostUuids) && hostUuids[id] == old(hostUuids)[id]
      ensures conns == if report.Some? then old(conns) - {raddr} else old(conns)
    {
      if raddr !in conns || !err { return None; }
      var ce, finished;
      ghost var added;
      ce, finished, added := Append(map[], raddr);
      FirstReport(ce, added, hostUuids, raddr);
      DelUuids(finished.Keys);
      conns := conns - {raddr};
      report := Some(ce);
    }

    /** ConnectionError.Append: behind what the report lists already. */
    method Append(was: Report, raddr: string) returns (ce: Report, finished: Keeper, ghost added: Report)
      requires Filed(hostUuids)
      ensures Reports(added, hostUuids, raddr) && finished == On(hostUuids, raddr)
      ensures Extends(ce, was, added)
    {
      ce, finished, added := was, map[], map[];
      var left := hostUuids.Keys;
      assert Among(hostUuids, hostUuids.Keys - left) == map[];
      while left != {}
        invariant left <= hostUuids.Keys && Extends(ce, was, added)
        invariant Reports(added, Among(hostUuids, hostUuids.Keys - left), raddr)
        invariant finished == On(Among(hostUuids, hostUuids.Keys - left), raddr)
        decreases left
      {
        var uuid :| uuid in left;
        var avb := hostUuids[uuid];
        ghost var seen := Among(hostUuids, hostUuids.Keys - left);
        ReportsNext(added, seen, raddr, uuid, avb);
        AmongNext(hostUuids, left, uuid);
        OnNext(seen, uuid, avb, raddr);
        left := left - {uuid};
        if avb.raddr == raddr {
          finished := finished[uuid := avb];
          ExtendsNext(ce, was, added, avb);
          ce, added := Noted(ce, avb), Noted(added, avb);
        }
      }
      assert Among(hostUuids, hostUuids.Keys - {}) == hostUuids;
    }

    method DelUuids(ids: set<string>)
      modifies this`hostUuids
      ensures hostUuids == old(hostUuids) - ids
    {
      var left := ids;
      while left != {}
        invariant left <= ids && hostUuids == old(hostUuids) - (ids - left)
        decreases left
      {
        var x :| x in left;
        if x in hostUuids { hostUuids := hostUuids - {x}; }
        left := left - {x};
      }
    }
  }
}
