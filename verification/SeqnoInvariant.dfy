/**
  Every step of the sequence-number worker keeps its invariant, part by part and step by step.
 */
module SeqnoInvariant {
  import opened Common
  import opened SeqnoWorker

  // ---- one flight for each collection ------------------------------------------------------------

  lemma MatchedAdd(f: seq<string>, cids: set<string>, lost: set<string>, c: string)
    requires Matched(f, cids, lost, true) && c !in cids
    ensures Matched(f + [c], cids + {c}, lost, true)
  {
  }

  lemma MatchedTake(c: string, f: seq<string>, cids: set<string>, lost: set<string>)
    requires Matched([c] + f, cids, lost, true)
    ensures Matched(f, cids - {c}, lost, true) && c in cids && c !in lost
  {
    assert forall x :: x in [c] + f <==> x == c || x in f;
    assert forall i :: 0 <= i < |f| ==> ([c] + f)[i + 1] == f[i];
    assert ([c] + f)[0] == c;
  }

  lemma MatchedCut(a: seq<string>, c: string, b: seq<string>, cids: set<string>, lost: set<string>, live: bool)
    requires Matched(a + [c] + b, cids, lost, live)
    ensures Matched(a + b, cids, lost + {c}, live) && c !in lost
  {
    var f := a + [c] + b;
    assert forall x :: x in f <==> x == c || x in a + b;
    assert forall i :: 0 <= i < |a + b| ==> (a + b)[i] == f[if i < |a| then i else i + 1];
    assert f[|a|] == c;
  }

  lemma QueueSnoc(q: seq<Request>, r: Request)
    ensures QueueCids(q + [r]) == QueueCids(q) + [r.cid]
  {
  }

  lemma QueueCons(q: seq<Request>)
    requires q != []
    ensures QueueCids(q) == [q[0].cid] + QueueCids(q[1..])
  {
  }

  lemma ResultCons(q: seq<Result>)
    requires q != []
    ensures ResultCids(q) == [q[0].cid] + ResultCids(q[1..])
  {
  }

  lemma ResultSnoc(q: seq<Result>, res: Result)
    ensures ResultCids(q + [res]) == ResultCids(q) + [res.cid]
  {
  }

  lemma Assoc(a: seq<string>, b: seq<string>, c: seq<string>)
    ensures a + b + c == a + (b + c)
  {
  }

  lemma NoneBetween(a: seq<string>)
    ensures a + [] == a && [] + a == a
  {
  }

  lemma AcceptOneFlight(s: State, n: State)
    requires OneFlight(s) && Live(s) && Accepts(s, n)
    ensures OneFlight(n)
  {
    var c, busy := s.reqCh[0].cid, if s.fetching.Busy? then [s.fetching.rep.cid] else [];
    assert n.workerMap.Keys == s.workerMap.Keys + {c};
    if c in s.workerMap {
      assert s.workerMap.Keys + {c} == s.workerMap.Keys;
    } else {
      QueueSnoc(s.workerQueue, s.reqCh[0]);
      Assoc(ResultCids(s.internalCh) + busy, QueueCids(s.workerQueue), [c]);
      MatchedAdd(Flights(s), s.workerMap.Keys, LostCids(s.drained), c);
    }
  }

  /** The flight that has landed is the oldest; its collection has no other. */
  lemma Landed(s: State, f: seq<string>)
    requires OneFlight(s) && Live(s) && s.internalCh != []
    requires f == ResultCids(s.internalCh[1..]) + (if s.fetching.Busy? then [s.fetching.rep.cid] else [])
                  + QueueCids(s.workerQueue)
    ensures Matched(f, s.workerMap.Keys - {s.internalCh[0].cid}, LostCids(s.drained), true)
    ensures s.internalCh[0].cid in s.workerMap && s.internalCh[0].cid !in LostCids(s.drained)
  {
    var c, busy := s.internalCh[0].cid, if s.fetching.Busy? then [s.fetching.rep.cid] else [];
    ResultCons(s.internalCh);
    Assoc([c], ResultCids(s.internalCh[1..]), busy);
    Assoc([c], ResultCids(s.internalCh[1..]) + busy, QueueCids(s.workerQueue));
    MatchedTake(c, f, s.workerMap.Keys, LostCids(s.drained));
  }

  lemma RespondOneFlight(s: State, n: State)
    requires OneFlight(s) && Live(s) && Responds(s, n)
    ensures OneFlight(n)
  {
    Landed(s, Flights(n));
  }

  lemma HandleOneFlight(s: State, n: State)
    requires OneFlight(s) && Live(s) && Handles(s, n) && Live(n)
    requires Left(s) != [] ==> Left(s)[|Left(s)| - 1].cid == s.internalCh[0].cid
    ensures OneFlight(n)
  {
    var c, busy := s.internalCh[0].cid, if s.fetching.Busy? then [s.fetching.rep.cid] else [];
    var f := ResultCids(n.internalCh) + busy + QueueCids(s.workerQueue);
    Landed(s, f);
    if Left(s) != [] {
      QueueSnoc(s.workerQueue, Left(s)[|Left(s)| - 1]);
      Assoc(ResultCids(n.internalCh) + busy, QueueCids(s.workerQueue), [c]);
      MatchedAdd(f, s.workerMap.Keys - {c}, LostCids(s.drained), c);
      assert n.workerMap.Keys == s.workerMap.Keys - {c} + {c};
    }
  }

  lemma BeginOneFlight(s: State, n: State)
    requires OneFlight(s) && BeginsFetch(s, n) && !s.fetching.Busy?
    ensures OneFlight(n)
  {
    QueueCons(s.workerQueue);
    NoneBetween(ResultCids(s.internalCh));
    Assoc(ResultCids(s.internalCh), [s.workerQueue[0].cid], QueueCids(n.workerQueue));
  }

  lemma EndOneFlight(s: State, n: State, seqnos: seq<nat>, failed: bool)
    requires OneFlight(s) && EndsFetch(s, n, seqnos, failed)
    ensures OneFlight(n)
  {
    ResultSnoc(s.internalCh, ResultOf(s, seqnos, failed));
    NoneBetween(ResultCids(n.internalCh));
  }

  lemma QueueOneFlight(s: State, n: State)
    requires OneFlight(s) && DrainsQueue(s, n) && !s.fetching.Busy?
    ensures OneFlight(n) && s.workerQueue[0].cid !in LostCids(s.drained)
  {
    var c, q, a := s.workerQueue[0].cid, QueueCids(n.workerQueue), ResultCids(s.internalCh);
    QueueCons(s.workerQueue);
    NoneBetween(a);
    Assoc(a, [c], q);
    MatchedCut(a, c, q, s.workerMap.Keys, LostCids(s.drained), Live(s));
    assert LostCids(n.drained) == LostCids(s.drained) + {c};
  }

  // ---- which requests a flight may answer ----------------------------------------------------------

  lemma CoversGrown(wm: map<string, seq<Request>>, taken: map<Request, nat>, cid: string, n: nat, begun: nat,
                    r: Request, t: nat)
    requires Covers(wm, taken, cid, n, begun) && r !in taken
    ensures Covers(Grown(wm, r), taken[r := t], cid, n, begun)
    ensures Grown(wm, r)[cid][n - 1] == wm[cid][n - 1]
  {
    assert forall i :: 0 <= i < n ==> Grown(wm, r)[cid][i] == wm[cid][i];
  }

  /** Requests that come in later are none of a flight's business. */
  lemma RepGrown(wm: map<string, seq<Request>>, taken: map<Request, nat>, nq: map<Request, nat>, rep: Request,
                 begun: nat, r: Request, t: nat)
    requires IsRep(wm, taken, nq, rep, begun) && r !in taken
    ensures IsRep(Grown(wm, r), taken[r := t], nq, rep, begun)
    ensures IsRep(Grown(wm, r), taken[r := t], nq[r := 1], rep, begun)
  {
    var n := NumQueued(nq, rep);
    assert rep in taken;
    assert NumQueued(nq[r := 1], rep) == n;
    CoversGrown(wm, taken, rep.cid, n, begun, r, t);
  }

  lemma RepLater(wm: map<string, seq<Request>>, taken: map<Request, nat>, nq: map<Request, nat>, rep: Request,
                 begun: nat, later: nat)
    requires IsRep(wm, taken, nq, rep, begun) && begun <= later
    ensures IsRep(wm, taken, nq, rep, later)
  {
  }

  lemma NewRep(wm: map<string, seq<Request>>, taken: map<Request, nat>, nq: map<Request, nat>, r: Request, t: nat)
    requires r.cid !in wm
    ensures IsRep(Grown(wm, r), taken[r := t], nq[r := 1], r, t + 1)
  {
    assert Grown(wm, r)[r.cid] == [r];
  }

  /** A flight that Accept finds keeps what it may answer. */
  lemma AcceptRep(s: State, n: State, rep: Request, begun: nat)
    requires Accepts(s, n) && s.reqCh[0] !in s.taken && IsRep(s.workerMap, s.taken, s.numQueued, rep, begun)
    ensures IsRep(n.workerMap, n.taken, n.numQueued, rep, begun)
  {
    RepGrown(s.workerMap, s.taken, s.numQueued, rep, begun, s.reqCh[0], s.clock);
  }

  lemma AcceptQueue(s: State, n: State, i: nat)
    requires Accepts(s, n) && s.reqCh[0] !in s.taken && i < |n.workerQueue|
    requires i < |s.workerQueue| ==> IsRep(s.workerMap, s.taken, s.numQueued, s.workerQueue[i], s.clock)
    ensures IsRep(n.workerMap, n.taken, n.numQueued, n.workerQueue[i], n.clock)
  {
    if i < |s.workerQueue| {
      RepLater(s.workerMap, s.taken, s.numQueued, s.workerQueue[i], s.clock, n.clock);
      AcceptRep(s, n, s.workerQueue[i], n.clock);
    } else {
      NewRep(s.workerMap, s.taken, s.numQueued, s.reqCh[0], s.clock);
    }
  }

  lemma AcceptCovered(s: State, n: State)
    requires Covered(s) && Accepts(s, n) && s.reqCh[0] !in s.taken
    ensures Covered(n)
  {
    forall i | 0 <= i < |n.workerQueue| ensures IsRep(n.workerMap, n.taken, n.numQueued, n.workerQueue[i], n.clock) {
      AcceptQueue(s, n, i);
    }
    if s.fetching.Busy? { AcceptRep(s, n, s.fetching.rep, s.fetching.begun); }
    forall i | 0 <= i < |s.internalCh|
      ensures Covers(n.workerMap, n.taken, s.internalCh[i].cid, s.internalCh[i].numQueued, s.internalCh[i].begun) {
      CoversGrown(s.workerMap, s.taken, s.internalCh[i].cid, s.internalCh[i].numQueued, s.internalCh[i].begun,
                  s.reqCh[0], s.clock);
    }
  }

  /** The other flights are for other collections. */
  lemma OtherFlights(s: State)
    requires OneFlight(s) && s.internalCh != []
    ensures forall i :: 1 <= i < |s.internalCh| ==> s.internalCh[i].cid != s.internalCh[0].cid
    ensures s.fetching.Busy? ==> s.fetching.rep.cid != s.internalCh[0].cid
    ensures forall i :: 0 <= i < |s.workerQueue| ==> s.workerQueue[i].cid != s.internalCh[0].cid
  {
    var f, c := Flights(s), s.internalCh[0].cid;
    var b := if s.fetching.Busy? then 1 else 0;
    assert f[0] == c;
    forall i | 1 <= i < |s.internalCh| ensures s.internalCh[i].cid != c { assert f[i] == s.internalCh[i].cid; }
    if s.fetching.Busy? { assert f[|s.internalCh|] == s.fetching.rep.cid; }
    forall i | 0 <= i < |s.workerQueue| ensures s.workerQueue[i].cid != c {
      assert f[|s.internalCh| + b + i] == s.workerQueue[i].cid;
    }
  }

  /** Lists and counts of other collections are as they were. */
  ghost predicate Agree(s: State, n: State, c: string)
  {
    && (forall x :: x != c && x in s.workerMap ==> x in n.workerMap && n.workerMap[x] == s.workerMap[x])
    && (forall r: Request :: r.cid != c ==> NumQueued(n.numQueued, r) == NumQueued(s.numQueued, r))
  }

  lemma RepAgrees(s: State, n: State, c: string, rep: Request, begun: nat)
    requires Agree(s, n, c) && n.taken == s.taken && rep.cid != c
    requires IsRep(s.workerMap, s.taken, s.numQueued, rep, begun)
    ensures IsRep(n.workerMap, n.taken, n.numQueued, rep, begun)
  {
  }

  /** After a result has been taken the flights of other collections are covered as before. */
  lemma RestCovered(s: State, n: State)
    requires Covered(s) && OneFlight(s) && Takes(s, n) && Agree(s, n, s.internalCh[0].cid)
    ensures forall i :: 0 <= i < |s.workerQueue| ==>
              IsRep(n.workerMap, n.taken, n.numQueued, s.workerQueue[i], n.clock)
    ensures n.fetching.Busy? ==> IsRep(n.workerMap, n.taken, n.numQueued, n.fetching.rep, n.fetching.begun)
    ensures forall i :: 0 <= i < |n.internalCh| ==>
              Covers(n.workerMap, n.taken, n.internalCh[i].cid, n.internalCh[i].numQueued, n.internalCh[i].begun)
  {
    var c := s.internalCh[0].cid;
    OtherFlights(s);
    forall i | 0 <= i < |s.workerQueue|
      ensures IsRep(n.workerMap, n.taken, n.numQueued, s.workerQueue[i], n.clock) {
      RepLater(s.workerMap, s.taken, s.numQueued, s.workerQueue[i], s.clock, n.clock);
      RepAgrees(s, n, c, s.workerQueue[i], n.clock);
    }
    if s.fetching.Busy? { RepAgrees(s, n, c, s.fetching.rep, s.fetching.begun); }
    forall i | 0 <= i < |n.internalCh|
      ensures Covers(n.workerMap, n.taken, n.internalCh[i].cid, n.internalCh[i].numQueued, n.internalCh[i].begun) {
      assert n.internalCh[i] == s.internalCh[i + 1];
    }
  }

  lemma RespondCovered(s: State, n: State)
    requires Covered(s) && OneFlight(s) && Responds(s, n)
    ensures Covered(n)
  {
    RestCovered(s, n);
  }

  lemma HandleCovered(s: State, n: State)
    requires Covered(s) && OneFlight(s) && Handles(s, n) && LeftIs(s)
    requires Stamped(s.taken, s.respCh.Keys, s.clock)
    ensures Covered(n)
  {
    if Left(s) == [] { RestCovered(s, n); } else { AgainCovered(s, n); }
  }

  lemma AgainCovered(s: State, n: State)
    requires Covered(s) && OneFlight(s) && Handles(s, n) && LeftIs(s) && Left(s) != []
    requires Stamped(s.taken, s.respCh.Keys, s.clock)
    ensures Covered(n)
  {
    RestCovered(s, n);
    AgainRep(s, n);
    SnocCovered(n, s.workerQueue, Left(s)[|Left(s)| - 1]);
  }

  lemma AgainRep(s: State, n: State)
    requires Covered(s) && Handles(s, n) && LeftIs(s) && Left(s) != [] && Stamped(s.taken, s.respCh.Keys, s.clock)
    ensures IsRep(n.workerMap, n.taken, n.numQueued, Left(s)[|Left(s)| - 1], n.clock)
  {
    LeftCovered(s);
  }

  /** The requests left are a flight of their own. */
  lemma LeftCovered(s: State)
    requires Covered(s) && s.internalCh != [] && LeftIs(s) && Left(s) != []
    requires Stamped(s.taken, s.respCh.Keys, s.clock)
    ensures var last := Left(s)[|Left(s)| - 1];
      IsRep((s.workerMap - {s.internalCh[0].cid})[last.cid := Left(s)], s.taken, s.numQueued[last := |Left(s)|],
            last, s.clock + 1)
  {
    var c := s.internalCh[0].cid;
    LastRep(s.workerMap, s.taken, s.numQueued, c, s.internalCh[0].numQueued, s.respCh.Keys, s.clock);
  }

  lemma SnocCovered(n: State, q: seq<Request>, rep: Request)
    requires n.workerQueue == q + [rep]
    requires forall i :: 0 <= i < |q| ==> IsRep(n.workerMap, n.taken, n.numQueued, q[i], n.clock)
    requires IsRep(n.workerMap, n.taken, n.numQueued, rep, n.clock)
    ensures forall i :: 0 <= i < |n.workerQueue| ==>
              IsRep(n.workerMap, n.taken, n.numQueued, n.workerQueue[i], n.clock)
  {
  }

  /** A list at hand, as the rest of the invariant has it. */
  ghost predicate LeftIs(s: State)
    requires s.internalCh != []
  {
    var c := s.internalCh[0].cid;
    && (c in s.workerMap ==> Listed(c, s.workerMap[c], s.taken))
    && (Left(s) != [] ==> Left(s)[|Left(s)| - 1].cid == c)
  }

  lemma LeftListed(s: State)
    requires s.internalCh != [] && Lists(s.workerMap, s.taken)
    ensures LeftIs(s)
  {
    var c := s.internalCh[0].cid;
    if Left(s) != [] {
      assert Listed(c, s.workerMap[c], s.taken);
      assert Left(s)[|Left(s)| - 1] in s.workerMap[c];
    }
  }

  /** The last of the waiting requests represents them all. */
  lemma LastRep(wm: map<string, seq<Request>>, taken: map<Request, nat>, nq: map<Request, nat>, c: string, k: nat,
                known: set<Request>, clock: nat)
    requires c in wm && k < |wm[c]| && Listed(c, wm[c], taken) && Stamped(taken, known, clock)
    ensures var waiting := wm[c][k..];
      var last := waiting[|waiting| - 1];
      IsRep((wm - {c})[c := waiting], taken, nq[last := |waiting|], last, clock + 1)
  {
    var waiting := wm[c][k..];
    var last := waiting[|waiting| - 1];
    assert last in wm[c];
    forall i | 0 <= i < |waiting| ensures waiting[i] in taken && taken[waiting[i]] < clock {
      assert waiting[i] in wm[c];
    }
  }

  lemma SameCovered(s: State, n: State)
    requires Covered(s) && SameMap(s, n)
    requires n.workerQueue == s.workerQueue || (s.workerQueue != [] && n.workerQueue == s.workerQueue[1..])
    requires n.clock == s.clock + 1
    requires n.fetching.Busy? ==> IsRep(s.workerMap, s.taken, s.numQueued, n.fetching.rep, n.fetching.begun)
    requires forall i :: 0 <= i < |n.internalCh| ==>
               Covers(s.workerMap, s.taken, n.internalCh[i].cid, n.internalCh[i].numQueued, n.internalCh[i].begun)
    ensures Covered(n)
  {
    forall i | 0 <= i < |n.workerQueue| ensures IsRep(n.workerMap, n.taken, n.numQueued, n.workerQueue[i], n.clock) {
      var j := if n.workerQueue == s.workerQueue then i else i + 1;
      assert n.workerQueue[i] == s.workerQueue[j];
      RepLater(s.workerMap, s.taken, s.numQueued, s.workerQueue[j], s.clock, n.clock);
    }
  }

  // ---- where requests are --------------------------------------------------------------------------

  lemma AcceptPlaced(s: State, n: State)
    requires Placed(s) && Accepts(s, n)
    ensures Placed(n) && s.reqCh[0] !in s.taken
  {
    AcceptWaiting(s.reqCh, s.respCh.Keys, s.taken, s.clock);
    AcceptLists(s.workerMap, s.taken, s.reqCh[0], s.clock);
    forall x | x in n.workerQueue ensures x in n.taken { assert x in s.workerQueue || x == s.reqCh[0]; }
  }

  lemma AcceptWaiting(reqCh: seq<Request>, known: set<Request>, taken: map<Request, nat>, t: nat)
    requires Waiting(reqCh, known, taken) && reqCh != []
    ensures Waiting(reqCh[1..], known, taken[reqCh[0] := t]) && reqCh[0] in known && reqCh[0] !in taken
  {
  }

  lemma AcceptLists(wm: map<string, seq<Request>>, taken: map<Request, nat>, r: Request, t: nat)
    requires Lists(wm, taken) && r !in taken
    ensures Lists(Grown(wm, r), taken[r := t])
  {
    forall c | c in Grown(wm, r) ensures Listed(c, Grown(wm, r)[c], taken[r := t]) {
      if c == r.cid && c in wm { ListedSnoc(c, wm[c], taken, r, t); }
    }
  }

  lemma ListedSnoc(c: string, list: seq<Request>, taken: map<Request, nat>, r: Request, t: nat)
    requires Listed(c, list, taken) && r !in taken && r.cid == c
    ensures Listed(c, list + [r], taken[r := t])
  {
  }

  lemma HandlePlaced(s: State, n: State)
    requires Placed(s) && Handles(s, n) && LeftIs(s)
    ensures Placed(n)
  {
    HandleLists(s.workerMap, s.taken, s.internalCh[0].cid, s.internalCh[0].numQueued);
    if Left(s) != [] {
      var last := Left(s)[|Left(s)| - 1];
      assert last in s.workerMap[s.internalCh[0].cid];
      forall x | x in n.workerQueue ensures x in n.taken { assert x in s.workerQueue || x == last; }
    }
  }

  lemma HandleLists(wm: map<string, seq<Request>>, taken: map<Request, nat>, c: string, k: nat)
    requires Lists(wm, taken)
    ensures var waiting := Rest(Queued(wm, c), k);
      Lists(if waiting == [] then wm - {c} else (wm - {c})[c := waiting], taken)
  {
    RestOf(Queued(wm, c), k);
  }

  lemma RestOf<T>(xs: seq<T>, n: nat)
    requires NoDup(xs)
    ensures NoDup(Rest(xs, n))
    ensures forall x :: x in xs <==> x in Front(xs, n) || x in Rest(xs, n)
    ensures forall x :: x in Front(xs, n) ==> x !in Rest(xs, n)
  {
    if n <= |xs| { assert xs == xs[..n] + xs[n..]; }
  }

  lemma SamePlaced(s: State, n: State)
    requires Placed(s) && n.taken == s.taken && n.respCh.Keys == s.respCh.Keys && n.clock >= s.clock
    requires n.reqCh == s.reqCh || (s.reqCh != [] && n.reqCh == s.reqCh[1..])
    requires Lists(n.workerMap, s.taken)
    requires forall r :: r in n.drained || r in n.workerQueue ==> r in s.drained || r in s.workerQueue
    ensures Placed(n)
  {
  }

  // ---- how often they are answered -------------------------------------------------------------------

  /** Requests on a list at hand are not waiting to be taken, and none of its collection was drained. */
  lemma ResultAtHand(s: State, r: Request)
    requires Placed(s) && OneFlight(s) && Live(s) && s.internalCh != []
    ensures var c := s.internalCh[0].cid;
      && NoDup(Queued(s.workerMap, c)) && (forall x :: x in Queued(s.workerMap, c) ==> x.cid == c)
      && (r in Queued(s.workerMap, c) ==> r !in s.reqCh) && (r.cid == c ==> r !in s.drained)
  {
    var c := s.internalCh[0].cid;
    Landed(s, ResultCids(s.internalCh[1..]) + (if s.fetching.Busy? then [s.fetching.rep.cid] else [])
              + QueueCids(s.workerQueue));
    assert Listed(c, s.workerMap[c], s.taken);
  }

  /** A request is answered with the list at hand exactly if it is on it and counted. */
  lemma HandleSettled(s: State, n: State, r: Request)
    requires r in s.respCh && Settled(s, r) && Placed(s) && OneFlight(s) && Live(s) && Live(n)
    requires Handles(s, n) && LeftIs(s)
    ensures r in n.respCh && Settled(n, r)
  {
    ResultAtHand(s, r);
    RestOf(Queued(s.workerMap, s.internalCh[0].cid), s.internalCh[0].numQueued);
  }

  lemma ListedOnce(s: State, r: Request)
    requires Placed(s) && OneFlight(s) && Live(s) && s.internalCh != [] && r in s.respCh
    ensures var c := s.internalCh[0].cid;
      |Reply(Answered(s), Left(s), Closed)[r]| == |s.respCh[r]| + if r in Queued(s.workerMap, c) then 1 else 0
  {
    ResultAtHand(s, r);
    RestOf(Queued(s.workerMap, s.internalCh[0].cid), s.internalCh[0].numQueued);
  }

  lemma RespondSettled(s: State, n: State, r: Request)
    requires r in s.respCh && Settled(s, r) && Placed(s) && OneFlight(s) && Live(s) && Responds(s, n)
    ensures r in n.respCh && Settled(n, r)
  {
    ResultAtHand(s, r);
    ListedOnce(s, r);
  }

  lemma AcceptSettled(s: State, n: State, r: Request)
    requires r in s.respCh && Settled(s, r) && Live(s) && Accepts(s, n)
    ensures Settled(n, r)
  {
    assert r in s.reqCh <==> r == s.reqCh[0] || r in s.reqCh[1..];
    var q := Queued(s.workerMap, s.reqCh[0].cid);
    assert r in q + [s.reqCh[0]] <==> r in q || r == s.reqCh[0];
  }

  lemma QueueSettled(s: State, n: State, r: Request)
    requires r in s.respCh && Settled(s, r) && DrainsQueue(s, n) && s.workerQueue[0] !in s.drained
    ensures r in n.respCh && Settled(n, r)
  {
    assert r in s.workerQueue[..1] <==> r == s.workerQueue[0];
  }

  lemma RequestSettled(s: State, n: State, r: Request)
    requires r in s.respCh && Settled(s, r) && Placed(s) && !Answering(s) && DrainsRequest(s, n)
    ensures r in n.respCh && Settled(n, r)
  {
    assert r in s.reqCh[..1] <==> r == s.reqCh[0];
    assert r in s.reqCh <==> r == s.reqCh[0] || r in s.reqCh[1..];
  }

  lemma MapSettled(s: State, n: State, r: Request)
    requires r in s.respCh && Settled(s, r) && Placed(s) && Answering(s) && DrainsMap(s, n)
    ensures r in n.respCh && Settled(n, r)
  {
    if InMap(s.workerMap, r) { assert Listed(r.cid, s.workerMap[r.cid], s.taken); }
  }

  // ---- with what ---------------------------------------------------------------------------------------

  lemma ReplyCurrent(m: Inbox, taken: map<Request, nat>, reqs: seq<Request>, resp: Response)
    requires Current(m, taken) && forall r :: r in reqs ==> Timely(r, resp, taken)
    ensures Current(Reply(m, reqs, resp), taken)
  {
  }

  /** A result is timely for the requests it is counted for. */
  lemma CoveredTimely(s: State, r: Request)
    requires Covered(s) && s.internalCh != [] && LeftIs(s)
    requires r in Front(Queued(s.workerMap, s.internalCh[0].cid), s.internalCh[0].numQueued)
    ensures Timely(r, ResponseOf(s.internalCh[0]), s.taken)
  {
    var res := s.internalCh[0];
    assert Covers(s.workerMap, s.taken, res.cid, res.numQueued, res.begun);
    var i :| 0 <= i < res.numQueued && s.workerMap[res.cid][i] == r;
  }

  lemma AnsweredCurrent(s: State)
    requires Covered(s) && s.internalCh != [] && LeftIs(s) && Current(s.respCh, s.taken)
    ensures Current(Answered(s), s.taken) && Current(Reply(Answered(s), Left(s), Closed), s.taken)
  {
    var res := s.internalCh[0];
    var counted := Front(Queued(s.workerMap, res.cid), res.numQueued);
    forall r | r in counted ensures Timely(r, ResponseOf(res), s.taken) { CoveredTimely(s, r); }
    ReplyCurrent(s.respCh, s.taken, counted, ResponseOf(res));
    ReplyCurrent(Answered(s), s.taken, Left(s), Closed);
  }

  lemma AcceptCurrent(m: Inbox, taken: map<Request, nat>, r: Request, t: nat)
    requires Current(m, taken) && r !in taken
    ensures Current(m, taken[r := t])
  {
  }

  lemma ReplyMapCurrent(m: Inbox, taken: map<Request, nat>, wm: map<string, seq<Request>>)
    requires Current(m, taken)
    ensures Current(ReplyMap(m, wm, Closed), taken)
  {
  }

  lemma SubmitCurrent(m: Inbox, taken: map<Request, nat>, r: Request)
    requires Current(m, taken)
    ensures Current(m[r := []], taken)
  {
  }

  // ---- all of it, step by step -------------------------------------------------------------------------

  lemma SamePhases(s: State, n: State)
    requires Phases(s) && Live(s) && InLoop(n) == InLoop(s) && Live(n) && s.fetching == n.fetching
    requires SameFlags(s, n) && s.drained == n.drained
    ensures Phases(n)
  {
  }

  lemma AcceptKeeps(s: State, n: State)
    requires Inv(s) && s.processing.Serving? && Accepts(s, n)
    ensures Inv(n)
  {
    AcceptPlaced(s, n);
    AcceptOneFlight(s, n);
    AcceptCovered(s, n);
    forall r | r in n.respCh ensures Settled(n, r) { assert Settled(s, r); AcceptSettled(s, n, r); }
    AcceptCurrent(s.respCh, s.taken, s.reqCh[0], s.clock);
    SamePhases(s, n);
  }

  lemma HandleKeeps(s: State, n: State)
    requires Inv(s) && s.processing.Serving? && Handles(s, n)
    ensures Inv(n)
  {
    LeftListed(s);
    HandlePlaced(s, n);
    HandleOneFlight(s, n);
    HandleCovered(s, n);
    forall r | r in n.respCh ensures Settled(n, r) { assert Settled(s, r); HandleSettled(s, n, r); }
    AnsweredCurrent(s);
    SamePhases(s, n);
  }

  lemma RespondKeeps(s: State, n: State)
    requires Inv(s) && s.processing.DrainingResults? && Responds(s, n)
    ensures Inv(n)
  {
    LeftListed(s);
    SamePlaced(s, n);
    RespondOneFlight(s, n);
    RespondCovered(s, n);
    forall r | r in n.respCh ensures Settled(n, r) { assert Settled(s, r); RespondSettled(s, n, r); }
    AnsweredCurrent(s);
    SamePhases(s, n);
  }

  lemma QueueKeeps(s: State, n: State)
    requires Inv(s) && s.fetching.DrainingQueue? && DrainsQueue(s, n)
    ensures Inv(n)
  {
    QueueOneFlight(s, n);
    if Live(s) { SameCovered(s, n); }
    SamePlaced(s, n);
    assert s.workerQueue[0] !in s.drained;
    forall r | r in n.respCh ensures Settled(n, r) { assert Settled(s, r); QueueSettled(s, n, r); }
    ReplyCurrent(s.respCh, s.taken, s.workerQueue[..1], Closed);
  }

  lemma RequestKeeps(s: State, n: State)
    requires Inv(s) && s.processing.DrainingRequests? && DrainsRequest(s, n)
    ensures Inv(n)
  {
    SamePlaced(s, n);
    assert Flights(n) == Flights(s);
    forall r | r in n.respCh ensures Settled(n, r) { assert Settled(s, r); RequestSettled(s, n, r); }
    ReplyCurrent(s.respCh, s.taken, s.reqCh[..1], Closed);
  }

  lemma MapKeeps(s: State, n: State)
    requires Inv(s) && s.processing.DrainingMap? && DrainsMap(s, n)
    ensures Inv(n)
  {
    SamePlaced(s, n);
    assert Flights(n) == Flights(s);
    forall r | r in n.respCh ensures Settled(n, r) { assert Settled(s, r); MapSettled(s, n, r); }
    ReplyMapCurrent(s.respCh, s.taken, s.workerMap);
  }

  lemma SameSettled(s: State, n: State)
    requires Accounted(s) && n.respCh == s.respCh && n.reqCh == s.reqCh && n.workerMap == s.workerMap
    requires n.drained == s.drained && Answering(n) == Answering(s)
    ensures Accounted(n)
  {
    forall r | r in n.respCh ensures Settled(n, r) { assert Settled(s, r); }
  }

  lemma BeginKeeps(s: State, n: State)
    requires Inv(s) && s.fetching.Idle? && BeginsFetch(s, n)
    ensures Inv(n)
  {
    BeginOneFlight(s, n);
    SameCovered(s, n);
    SamePlaced(s, n);
    SameSettled(s, n);
  }

  lemma EndKeeps(s: State, n: State, seqnos: seq<nat>, failed: bool)
    requires Inv(s) && EndsFetch(s, n, seqnos, failed)
    ensures Inv(n)
  {
    EndOneFlight(s, n, seqnos, failed);
    SameCovered(s, n);
    SamePlaced(s, n);
    SameSettled(s, n);
  }

  lemma FlipKeeps(s: State, n: State)
    requires Inv(s) && Flips(s, n) && Phases(n)
    ensures Inv(n)
  {
    assert Flights(n) == Flights(s);
    if Live(n) { SameCovered(s, n); }
    SamePlaced(s, n);
    SameSettled(s, n);
  }

  lemma SubmitKeeps(s: State, n: State, r: Request)
    requires Inv(s) && SameFlags(s, n) && SameMap(s, n) && n.processing == s.processing && n.fetching == s.fetching
    requires n.workerQueue == s.workerQueue && n.internalCh == s.internalCh && n.drained == s.drained
    requires r !in s.respCh && n.reqCh == s.reqCh + [r] && n.respCh == s.respCh[r := []] && !s.reqClosed
    ensures Inv(n)
  {
    assert Flights(n) == Flights(s);
    if Live(n) { SameCovered(s, n); }
    SubmitPlaced(s, n, r);
    forall x | x in n.respCh ensures Settled(n, x) {
      assert x in n.reqCh <==> x in s.reqCh || x == r;
      if x != r { assert Settled(s, x); }
    }
    SubmitCurrent(s.respCh, s.taken, r);
  }

  lemma SubmitPlaced(s: State, n: State, r: Request)
    requires Placed(s) && SameMap(s, n) && n.workerQueue == s.workerQueue && n.drained == s.drained
    requires r !in s.respCh && n.reqCh == s.reqCh + [r] && n.respCh == s.respCh[r := []] && n.clock == s.clock + 1
    ensures Placed(n)
  {
    assert forall x :: x in n.reqCh <==> x in s.reqCh || x == r;
    assert n.respCh.Keys == s.respCh.Keys + {r};
  }

  /** Steps that only flip flags, make or take room, or move on in the code. */
  predicate Quiet(e: Event)
  {
    e.CloseRequests? || e.Shutdown? || e.TakeDone? || e.OthersDone? || e.Report? || e.StopServing? || e.EndResults?
    || e.Finish? || e.StopFetching? || e.EndQueue?
  }

  lemma QuietStep(s: State, e: Event)
    requires Enabled(s, e) && Quiet(e)
    ensures Flips(s, Next(s, e))
  {
    if e.CloseRequests? || e.Shutdown? || e.TakeDone? || e.OthersDone? { OutsideStep(s, e); }
  }

  lemma OutsideStep(s: State, e: Event)
    requires Enabled(s, e) && (e.CloseRequests? || e.Shutdown? || e.TakeDone? || e.OthersDone?)
    ensures Flips(s, Next(s, e))
  {
  }

  lemma QuietPhases(s: State, e: Event)
    requires Phases(s) && Enabled(s, e) && Quiet(e)
    ensures Phases(Next(s, e))
  {
  }

  lemma QuietKeeps(s: State, e: Event)
    requires Inv(s) && Enabled(s, e) && Quiet(e)
    ensures Inv(Next(s, e))
  {
    QuietStep(s, e);
    QuietPhases(s, e);
    FlipKeeps(s, Next(s, e));
  }

  lemma FetchingKeeps(s: State, e: Event)
    requires Inv(s) && Enabled(s, e) && (e.BeginFetch? || e.EndFetch? || e.DrainQueued?)
    ensures Inv(Next(s, e))
  {
    match e
    case BeginFetch =>
      BeginIs(s);
      BeginKeeps(s, Tick(FetchBegun(s)));
    case EndFetch(seqnos, failed) =>
      EndIs(s, seqnos, failed);
      EndKeeps(s, Tick(FetchEnded(s, seqnos, failed)), seqnos, failed);
    case DrainQueued =>
      DrainQueueIs(s);
      QueueKeeps(s, Tick(QueueDrained(s)));
  }

  lemma ServingKeeps(s: State, e: Event)
    requires Inv(s) && Enabled(s, e) && (e.Submit? || e.Accept? || e.Handle?)
    ensures Inv(Next(s, e))
  {
    match e
    case Submit(r) => SubmitKeeps(s, Next(s, e), r);
    case Accept =>
      AcceptIs(s);
      AcceptKeeps(s, Tick(Accepted(s)));
    case Handle =>
      HandleIs(s);
      HandleKeeps(s, Tick(Handled(s)));
  }

  lemma DrainingKeeps(s: State, e: Event)
    requires Inv(s) && Enabled(s, e) && (e.DrainResult? || e.DrainMap? || e.DrainRequest?)
    ensures Inv(Next(s, e))
  {
    match e
    case DrainResult =>
      RespondIs(s);
      RespondKeeps(s, Tick(Responded(s, true)));
    case DrainMap =>
      DrainMapIs(s);
      MapKeeps(s, Tick(MapDrained(s)));
    case DrainRequest =>
      DrainRequestIs(s);
      RequestKeeps(s, Tick(RequestDrained(s)));
  }

  /**
    Every step keeps one flight for each waiting collection with a count within its list and all
    its requests taken before it began, the exact number of replies, and their timeliness.
   */
  lemma KeepsInv(s: State, e: Event)
    requires Inv(s) && Enabled(s, e)
    ensures Inv(Next(s, e))
  {
    if Quiet(e) {
      QuietKeeps(s, e);
    } else if e.BeginFetch? || e.EndFetch? || e.DrainQueued? {
      FetchingKeeps(s, e);
    } else if e.Submit? || e.Accept? || e.Handle? {
      ServingKeeps(s, e);
    } else {
      DrainingKeeps(s, e);
    }
  }
}
