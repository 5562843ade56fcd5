/**
  What the replies of the sequence-number worker carry: the sequence numbers, or the error, of the
  fetch they name, as the schedule has it.
 */
module SeqnoReplies {
  import opened Common
  import opened SeqnoWorker
  import opened SeqnoInvariant
  import opened SeqnoRuns

  /** What a fetch returned, and for which collection. */
  datatype Fetch = Fetch(cid: string, seqnos: seq<nat>, failed: bool)

  /** The fetches that have ended, by the step at which they began. */
  type History = map<nat, Fetch>

  ghost function Noted(f: History, s: State, e: Event): History
  {
    if e.EndFetch? && s.fetching.Busy? then f[s.fetching.begun := Fetch(s.fetching.rep.cid, e.seqnos, e.failed)] else f
  }

  /** The history of a schedule that starts in `s` with `f`. */
  ghost function Fetches(s: State, es: seq<Event>, f: History): History
    decreases |es|
  {
    if es == [] || !Enabled(s, es[0]) then f else Fetches(Next(s, es[0]), es[1..], Noted(f, s, es[0]))
  }

  // ---- what every step keeps -----------------------------------------------------------------------

  ghost predicate IsOf(f: History, begun: nat, cid: string, seqnos: seq<nat>, failed: bool)
  {
    begun in f && f[begun] == Fetch(cid, seqnos, failed)
  }

  predicate Past(f: History, fetching: Fetching, clock: nat)
  {
    && (forall b :: b in f ==> b < clock && (fetching.Busy? ==> b < fetching.begun))
    && (fetching.Busy? ==> fetching.begun < clock)
  }

  ghost predicate ResultsOf(f: History, results: seq<Result>)
  {
    forall i :: 0 <= i < |results| ==>
      IsOf(f, results[i].begun, results[i].cid, results[i].seqnos, results[i].failed)
  }

  ghost predicate ReplyOf(f: History, resp: Response)
  {
    resp.Fetched? ==> IsOf(f, resp.begun, resp.cid, resp.seqnos, resp.failed)
  }

  ghost predicate RepliesOf(f: History, m: Inbox)
  {
    forall r, i :: r in m && 0 <= i < |m[r]| ==> ReplyOf(f, m[r][i])
  }

  ghost predicate Sourced(f: History, s: State)
  {
    Past(f, s.fetching, s.clock) && ResultsOf(f, s.internalCh) && RepliesOf(f, s.respCh)
  }

  lemma ReplySourced(f: History, m: Inbox, reqs: seq<Request>, resp: Response)
    requires RepliesOf(f, m) && ReplyOf(f, resp)
    ensures RepliesOf(f, Reply(m, reqs, resp))
  {
  }

  lemma TakeSourced(f: History, s: State, n: State)
    requires Sourced(f, s) && Takes(s, n)
    requires n.respCh == Answered(s) || n.respCh == Reply(Answered(s), Left(s), Closed)
    ensures Sourced(f, n)
  {
    var res := s.internalCh[0];
    assert IsOf(f, res.begun, res.cid, res.seqnos, res.failed);
    ReplySourced(f, s.respCh, Front(Queued(s.workerMap, res.cid), res.numQueued), ResponseOf(res));
    ReplySourced(f, Answered(s), Left(s), Closed);
    forall i | 0 <= i < |n.internalCh|
      ensures IsOf(f, n.internalCh[i].begun, n.internalCh[i].cid, n.internalCh[i].seqnos, n.internalCh[i].failed) {
      assert n.internalCh[i] == s.internalCh[i + 1];
    }
  }

  lemma NotedSourced(f: History, s: State, n: State, seqnos: seq<nat>, failed: bool)
    requires Sourced(f, s) && EndsFetch(s, n, seqnos, failed)
    ensures Sourced(Noted(f, s, EndFetch(seqnos, failed)), n)
  {
    var b, g := s.fetching.begun, Noted(f, s, EndFetch(seqnos, failed));
    assert b !in f;
    forall i | 0 <= i < |n.internalCh|
      ensures IsOf(g, n.internalCh[i].begun, n.internalCh[i].cid, n.internalCh[i].seqnos, n.internalCh[i].failed) {
      if i < |s.internalCh| { assert n.internalCh[i] == s.internalCh[i]; }
    }
    forall r, i | r in n.respCh && 0 <= i < |n.respCh[r]| ensures ReplyOf(g, n.respCh[r][i]) {
      assert ReplyOf(f, s.respCh[r][i]);
    }
  }

  lemma FetchingSourced(f: History, s: State, e: Event)
    requires Sourced(f, s) && Enabled(s, e) && (e.BeginFetch? || e.EndFetch? || e.DrainQueued?)
    ensures Sourced(Noted(f, s, e), Next(s, e))
  {
    match e
    case BeginFetch => BeginIs(s);
    case EndFetch(seqnos, failed) =>
      EndIs(s, seqnos, failed);
      NotedSourced(f, s, Tick(FetchEnded(s, seqnos, failed)), seqnos, failed);
    case DrainQueued =>
      DrainQueueIs(s);
      ReplySourced(f, s.respCh, s.workerQueue[..1], Closed);
  }

  lemma ServingSourced(f: History, s: State, e: Event)
    requires Sourced(f, s) && Enabled(s, e) && (e.Submit? || e.Accept? || e.Handle?)
    ensures Sourced(f, Next(s, e))
  {
    match e
    case Submit(r) =>
    case Accept => AcceptIs(s);
    case Handle =>
      HandleIs(s);
      TakeSourced(f, s, Tick(Handled(s)));
  }

  lemma DrainingSourced(f: History, s: State, e: Event)
    requires Sourced(f, s) && Enabled(s, e) && (e.DrainResult? || e.DrainMap? || e.DrainRequest?)
    ensures Sourced(f, Next(s, e))
  {
    match e
    case DrainResult =>
      RespondIs(s);
      TakeSourced(f, s, Tick(Responded(s, true)));
    case DrainMap => DrainMapIs(s);
    case DrainRequest =>
      DrainRequestIs(s);
      ReplySourced(f, s.respCh, s.reqCh[..1], Closed);
  }

  /** Every step keeps results and replies those of fetches in the history. */
  lemma KeepsSourced(f: History, s: State, e: Event)
    requires Sourced(f, s) && Enabled(s, e)
    ensures Sourced(Noted(f, s, e), Next(s, e))
  {
    if Quiet(e) {
      QuietStep(s, e);
    } else if e.BeginFetch? || e.EndFetch? || e.DrainQueued? {
      FetchingSourced(f, s, e);
    } else if e.Submit? || e.Accept? || e.Handle? {
      ServingSourced(f, s, e);
    } else {
      DrainingSourced(f, s, e);
    }
  }

  lemma {:induction false} KeptSourced(f: History, s: State, es: seq<Event>, t: State)
    requires Sourced(f, s) && Leads(Next, s, es, t)
    ensures Sourced(Fetches(s, es, f), t)
    decreases |es|
  {
    if es != [] {
      KeepsSourced(f, s, es[0]);
      KeptSourced(Noted(f, s, es[0]), Next(s, es[0]), es[1..], t);
    }
  }

  // ---- the history is the schedule's ---------------------------------------------------------------

  /** At step `m` of the schedule a fetch for the collection begins. */
  ghost predicate BeginsAt(s: State, es: seq<Event>, m: nat, cid: string)
  {
    && m < |es| && es[m] == BeginFetch
    && exists p :: Leads(Next, s, es[..m], p) && p.workerQueue != [] && p.workerQueue[0].cid == cid
  }

  /** The first fetch to end behind step `m` ends at step `k`, with that result. */
  ghost predicate EndsAt(es: seq<Event>, m: int, k: nat, seqnos: seq<nat>, failed: bool)
  {
    m < k < |es| && es[k] == EndFetch(seqnos, failed) && forall j: nat :: m < j < k ==> !es[j].EndFetch?
  }

  ghost predicate Ends(es: seq<Event>, m: int, seqnos: seq<nat>, failed: bool)
  {
    exists k: nat :: EndsAt(es, m, k, seqnos, failed)
  }

  /** The fetch begun at step `b` is under way. */
  predicate UnderWay(fetching: Fetching, b: nat, cid: string)
  {
    fetching.Busy? && fetching.begun == b && fetching.rep.cid == cid
  }

  /** A fetch of the history was there before, is under way, or begins in the schedule. */
  ghost predicate Explained(s: State, es: seq<Event>, f: History, b: nat, v: Fetch)
  {
    || (b in f && f[b] == v)
    || (UnderWay(s.fetching, b, v.cid) && Ends(es, -1, v.seqnos, v.failed))
    || (s.clock <= b && BeginsAt(s, es, b - s.clock, v.cid) && Ends(es, b - s.clock, v.seqnos, v.failed))
  }

  lemma FetchingNext(s: State, e: Event)
    requires Enabled(s, e)
    ensures var n := Next(s, e);
      && n.clock == s.clock + 1
      && (n.fetching.Busy? ==>
            !e.EndFetch? && n.fetching == if e.BeginFetch? then Busy(s.workerQueue[0], s.clock) else s.fetching)
  {
    if Quiet(e) { QuietStep(s, e); } else { LoudNext(s, e); }
  }

  lemma LoudNext(s: State, e: Event)
    requires Enabled(s, e) && !Quiet(e)
    ensures Next(s, e).clock == s.clock + 1
    ensures Next(s, e).fetching == if e.BeginFetch? then Busy(s.workerQueue[0], s.clock)
                                   else if e.EndFetch? then Idle else s.fetching
  {
    if e.Accept? {
      AcceptIs(s);
    } else if e.Handle? {
      HandleIs(s);
    } else if e.DrainResult? {
      RespondIs(s);
    }
  }

  lemma BeginsEarlier(s: State, es: seq<Event>, m: nat, cid: string)
    requires es != [] && Enabled(s, es[0]) && BeginsAt(Next(s, es[0]), es[1..], m, cid)
    ensures BeginsAt(s, es, m + 1, cid)
  {
    var p :| Leads(Next, Next(s, es[0]), es[1..][..m], p) && p.workerQueue != [] && p.workerQueue[0].cid == cid;
    assert es[..m + 1][1..] == es[1..][..m];
    assert Leads(Next, s, es[..m + 1], p);
  }

  lemma BeginsNow(s: State, es: seq<Event>)
    requires es != [] && es[0] == BeginFetch && Enabled(s, es[0])
    ensures BeginsAt(s, es, 0, s.workerQueue[0].cid)
  {
    assert Leads(Next, s, es[..0], s);
  }

  lemma EndsEarlier(es: seq<Event>, m: int, seqnos: seq<nat>, failed: bool)
    requires es != [] && Ends(es[1..], m, seqnos, failed) && m >= -1
    ensures Ends(es, m + 1, seqnos, failed)
    ensures m == -1 && !es[0].EndFetch? ==> Ends(es, -1, seqnos, failed)
  {
    var k: nat :| EndsAt(es[1..], m, k, seqnos, failed);
    forall j: nat | m + 1 < j < k + 1 ensures !es[j].EndFetch? { assert es[j] == es[1..][j - 1]; }
    assert EndsAt(es, m + 1, k + 1, seqnos, failed);
    if m == -1 && !es[0].EndFetch? { assert EndsAt(es, -1, k + 1, seqnos, failed); }
  }

  lemma ExplainedEarlier(s: State, es: seq<Event>, f: History, b: nat, v: Fetch)
    requires es != [] && Enabled(s, es[0]) && Past(f, s.fetching, s.clock)
    requires Explained(Next(s, es[0]), es[1..], Noted(f, s, es[0]), b, v)
    ensures Explained(s, es, f, b, v)
  {
    var e, n, g := es[0], Next(s, es[0]), Noted(f, s, es[0]);
    FetchingNext(s, e);
    if b in g && g[b] == v {
      if !(b in f && f[b] == v) { assert EndsAt(es, -1, 0, v.seqnos, v.failed); }
    } else if UnderWay(n.fetching, b, v.cid) && Ends(es[1..], -1, v.seqnos, v.failed) {
      EndsEarlier(es, -1, v.seqnos, v.failed);
      if e == BeginFetch { BeginsNow(s, es); }
    } else {
      BeginsEarlier(s, es, b - n.clock, v.cid);
      EndsEarlier(es, b - n.clock, v.seqnos, v.failed);
    }
  }

  lemma {:induction false} HistoryExplained(s: State, es: seq<Event>, t: State, f: History, b: nat)
    requires Leads(Next, s, es, t) && Sourced(f, s) && b in Fetches(s, es, f)
    ensures Explained(s, es, f, b, Fetches(s, es, f)[b])
    decreases |es|
  {
    if es != [] {
      KeepsSourced(f, s, es[0]);
      HistoryExplained(Next(s, es[0]), es[1..], t, Noted(f, s, es[0]), b);
      ExplainedEarlier(s, es, f, b, Fetches(s, es, f)[b]);
    }
  }

  /**
    In every run a reply with sequence numbers or an error carries those of the fetch it names: at
    step `begun` of the schedule a fetch for its collection begins, and that fetch is the next to
    end, with exactly this result.
   */
  lemma RepliesAreFetched(es: seq<Event>, s: State, r: Request, i: nat) returns (k: nat)
    requires Run(es, s) && r in s.respCh && i < |s.respCh[r]| && s.respCh[r][i].Fetched?
    ensures var reply := s.respCh[r][i];
      && BeginsAt(Start(s.capacity), es, reply.begun, r.cid)
      && EndsAt(es, reply.begun, k, reply.seqnos, reply.failed)
  {
    var reply := s.respCh[r][i];
    NeverStale(es, s, r, i);
    RepliesInHistory(es, s, r, i);
    HistoryOfRun(es, s, reply.begun, Fetch(r.cid, reply.seqnos, reply.failed));
    k :| EndsAt(es, reply.begun, k, reply.seqnos, reply.failed);
  }

  lemma RepliesInHistory(es: seq<Event>, s: State, r: Request, i: nat)
    requires Run(es, s) && r in s.respCh && i < |s.respCh[r]|
    ensures ReplyOf(Fetches(Start(s.capacity), es, map[]), s.respCh[r][i])
  {
    KeptSourced(map[], Start(s.capacity), es, s);
  }

  lemma HistoryOfRun(es: seq<Event>, s: State, b: nat, v: Fetch)
    requires Run(es, s) && IsOf(Fetches(Start(s.capacity), es, map[]), b, v.cid, v.seqnos, v.failed)
    ensures BeginsAt(Start(s.capacity), es, b, v.cid) && Ends(es, b, v.seqnos, v.failed)
  {
    HistoryExplained(Start(s.capacity), es, s, map[], b);
  }

  /**
    Hence, when every fetch that succeeds returns at least what was written before it began, a caller
    sees every write of its collection that preceded the taking of its request.
   */
  lemma SeesEarlierWrites(es: seq<Event>, s: State, r: Request, i: nat, kv: (string, nat, nat) -> nat, vb: nat)
    requires Run(es, s) && r in s.respCh && i < |s.respCh[r]|
    requires s.respCh[r][i].Fetched? && !s.respCh[r][i].failed
    requires forall c: string, t: nat, u: nat :: t <= u ==> kv(c, vb, t) <= kv(c, vb, u)
    requires forall c: string, b: nat, k: nat, seqnos: seq<nat> ::
               BeginsAt(Start(s.capacity), es, b, c) && EndsAt(es, b, k, seqnos, false)
               ==> vb < |seqnos| && kv(c, vb, b) <= seqnos[vb]
    ensures var seqnos := s.respCh[r][i].seqnos;
      r in s.taken && vb < |seqnos| && kv(r.cid, vb, s.taken[r]) <= seqnos[vb]
  {
    NeverStale(es, s, r, i);
    var k := RepliesAreFetched(es, s, r, i);
    assert kv(r.cid, vb, s.taken[r]) <= kv(r.cid, vb, s.respCh[r][i].begun);
  }
}
