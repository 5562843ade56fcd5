/**
  The code of the sequence-number worker's two goroutines, case by case, and the steps it takes.
 */
module SeqnoCode {
  import opened Common
  import opened SeqnoWorker
  import opened SeqnoInvariant
  import opened SeqnoRuns

  /** What the code that takes a result relies on: no index out of range, nobody answered twice. */
  ghost predicate ResultFits(s: State)
  {
    s.internalCh != [] && ListFits(s.internalCh[0], s.workerMap, s.respCh)
  }

  ghost predicate ListFits(res: Result, wm: map<string, seq<Request>>, m: Inbox)
  {
    && res.cid in wm && res.numQueued <= |wm[res.cid]| && NoDup(wm[res.cid])
    && forall r :: r in wm[res.cid] ==> r in m
  }

  ghost predicate ListsFit(wm: map<string, seq<Request>>, m: Inbox)
  {
    forall c :: c in wm ==> NoDup(wm[c]) && forall r :: r in wm[c] ==> r.cid == c && r in m
  }

  lemma InvFits(s: State)
    requires Inv(s)
    ensures Live(s) && s.internalCh != [] ==> ResultFits(s)
    ensures ListsFit(s.workerMap, s.respCh)
    ensures forall r :: r in s.reqCh || r in s.workerQueue ==> r in s.respCh
  {
    if Live(s) && s.internalCh != [] {
      var res := s.internalCh[0];
      assert Covers(s.workerMap, s.taken, res.cid, res.numQueued, res.begun);
      assert Listed(res.cid, s.workerMap[res.cid], s.taken);
    }
    forall c | c in s.workerMap ensures Listed(c, s.workerMap[c], s.taken) {}
  }

  /** What the code of the steps relies on holds in every state of a run. */
  lemma RunFits(es: seq<Event>, s: State)
    requires Run(es, s)
    ensures Live(s) && s.internalCh != [] ==> ResultFits(s)
    ensures ListsFit(s.workerMap, s.respCh)
    ensures forall r :: r in s.reqCh || r in s.workerQueue ==> r in s.respCh
  {
    Always(es, s);
    InvFits(s);
  }

  lemma ReplyOne(m: Inbox, a: seq<Request>, x: Request, resp: Response)
    requires x in m && x !in a
    ensures var n := Reply(m, a, resp); n[x := n[x] + [resp]] == Reply(m, a + [x], resp)
  {
  }

  lemma ReplyStep(m: Inbox, xs: seq<Request>, i: nat, resp: Response)
    requires NoDup(xs) && i < |xs| && xs[i] in m
    ensures var n := Reply(m, xs[..i], resp); n[xs[i] := n[xs[i]] + [resp]] == Reply(m, xs[..i + 1], resp)
  {
    assert xs[..i + 1] == xs[..i] + [xs[i]];
    ReplyOne(m, xs[..i], xs[i], resp);
  }

  function Only(wm: map<string, seq<Request>>, cids: set<string>): map<string, seq<Request>>
  {
    map c | c in wm && c in cids :: wm[c]
  }

  lemma ReplyMapStep(m: Inbox, wm: map<string, seq<Request>>, cids: set<string>, c: string, resp: Response)
    requires c in wm && c !in cids && forall r :: r in wm[c] ==> r.cid == c
    ensures Reply(ReplyMap(m, Only(wm, cids), resp), wm[c], resp) == ReplyMap(m, Only(wm, cids + {c}), resp)
  {
  }

  class Worker {
    var processing: Processing
    var fetching: Fetching
    var reqCh: seq<Request>
    var reqClosed: bool
    var done: bool
    var workerMap: map<string, seq<Request>>
    var numQueued: map<Request, nat>
    var workerQueue: seq<Request>
    var internalCh: seq<Result>
    const capacity: nat
    var room: nat
    var respCh: Inbox
    var clock: nat
    ghost var taken: map<Request, nat>
    ghost var drained: set<Request>

    /** The fields of the worker are those of `s`. */
    ghost predicate Shows(s: State)
      reads this
    {
      && processing == s.processing && fetching == s.fetching && reqCh == s.reqCh && reqClosed == s.reqClosed
      && done == s.done && workerMap == s.workerMap && numQueued == s.numQueued && workerQueue == s.workerQueue
      && internalCh == s.internalCh && capacity == s.capacity && room == s.room && respCh == s.respCh
      && clock == s.clock && taken == s.taken && drained == s.drained
    }

    constructor (places: nat)
      ensures Shows(Start(places))
    {
      processing, fetching, reqCh, reqClosed, done := Serving, Idle, [], false, false;
      workerMap, numQueued, workerQueue, internalCh, respCh := map[], map[], [], [], map[];
      capacity, room, clock, taken, drained := places, places, 0, map[], {};
    }

    /** The case of processRequest that takes a request. */
    method Accept()
      requires reqCh != []
      modifies this`reqCh, this`taken, this`workerMap, this`numQueued, this`workerQueue, this`clock
      ensures reqCh == old(reqCh)[1..] && taken == old(taken)[old(reqCh)[0] := old(clock)] && clock == old(clock) + 1
      ensures workerMap == Grown(old(workerMap), old(reqCh)[0])
      ensures if old(reqCh)[0].cid in old(workerMap) then numQueued == old(numQueued) && workerQueue == old(workerQueue)
              else numQueued == old(numQueued)[old(reqCh)[0] := 1] && workerQueue == old(workerQueue) + [old(reqCh)[0]]
    {
      var req := reqCh[0];
      reqCh := reqCh[1..];
      taken := taken[req := clock];
      if req.cid in workerMap {
        var queuedReqs := workerMap[req.cid] + [req];
        workerMap := workerMap[req.cid := queuedReqs];
      } else {
        var queuedReqs := [] + [req];
        assert queuedReqs == [req];
        workerMap := workerMap[req.cid := queuedReqs];
        numQueued := numQueued[req := |queuedReqs|];
        workerQueue := workerQueue + [req];
      }
      clock := clock + 1;
    }

    /** Replies to requests one after the other. */
    method ReplyAll(reqs: seq<Request>, resp: Response)
      requires NoDup(reqs) && forall r :: r in reqs ==> r in respCh
      modifies this`respCh
      ensures respCh == Reply(old(respCh), reqs, resp)
    {
      assert Reply(respCh, reqs[..0], resp) == respCh;
      for i := 0 to |reqs|
        invariant respCh == Reply(old(respCh), reqs[..i], resp)
      {
        ReplyStep(old(respCh), reqs, i, resp);
        assert reqs[i] in reqs;
        respCh := respCh[reqs[i] := respCh[reqs[i]] + [resp]];
      }
      assert reqs[..|reqs|] == reqs;
    }

    method ProcessResponse(closed: bool)
      requires internalCh != [] && ListFits(internalCh[0], workerMap, respCh)
      modifies this`internalCh, this`workerMap, this`respCh
      ensures var res := old(internalCh)[0];
        && internalCh == old(internalCh)[1..] && workerMap == old(workerMap) - {res.cid}
        && var response := Fetched(res.seqnos, res.failed, res.cid, res.begun);
           var answered := Reply(old(respCh), old(workerMap)[res.cid][..res.numQueued], response);
           respCh == if closed then Reply(answered, old(workerMap)[res.cid][res.numQueued..], Closed) else answered
    {
      var resp := internalCh[0];
      internalCh := internalCh[1..];
      var queuedReqs := workerMap[resp.cid];
      workerMap := workerMap - {resp.cid};
      RestOf(queuedReqs, resp.numQueued);
      ReplyAll(queuedReqs[..resp.numQueued], Fetched(resp.seqnos, resp.failed, resp.cid, resp.begun));
      if closed { ReplyAll(queuedReqs[resp.numQueued..], Closed); }
    }

    /** The case of processRequest that takes a result. */
    method Handle()
      requires internalCh != [] && ListFits(internalCh[0], workerMap, respCh)
      modifies this`processing, this`internalCh, this`workerMap, this`respCh, this`numQueued, this`workerQueue
      modifies this`clock
      ensures var res := old(internalCh)[0];
        var list := old(workerMap)[res.cid];
        && internalCh == old(internalCh)[1..] && clock == old(clock) + 1
        && respCh == Reply(old(respCh), list[..res.numQueued], Fetched(res.seqnos, res.failed, res.cid, res.begun))
        && var rest := list[res.numQueued..];
           if rest == [] then
             processing == Reporting && workerMap == old(workerMap) - {res.cid}
             && numQueued == old(numQueued) && workerQueue == old(workerQueue)
           else
             var last := rest[|rest| - 1];
             processing == old(processing) && workerMap == (old(workerMap) - {res.cid})[last.cid := rest]
             && numQueued == old(numQueued)[last := |rest|] && workerQueue == old(workerQueue) + [last]
    {
      var resp := internalCh[0];
      var queuedReqs := workerMap[resp.cid];
      ProcessResponse(false);
      var newQueuedReqs := queuedReqs[resp.numQueued..];
      var l := |newQueuedReqs|;
      if l == 0 {
        processing := Reporting;
      } else {
        var lastReq := newQueuedReqs[l - 1];
        workerMap := workerMap[lastReq.cid := newQueuedReqs];
        numQueued := numQueued[lastReq := l];
        workerQueue := workerQueue + [lastReq];
      }
      clock := clock + 1;
    }

    /** The deferred shutdown: results that still arrive. */
    method DrainResult()
      requires internalCh != [] && ListFits(internalCh[0], workerMap, respCh)
      modifies this`internalCh, this`workerMap, this`respCh, this`clock
      ensures var res := old(internalCh)[0];
        && internalCh == old(internalCh)[1..] && workerMap == old(workerMap) - {res.cid} && clock == old(clock) + 1
        && var response := Fetched(res.seqnos, res.failed, res.cid, res.begun);
           var answered := Reply(old(respCh), old(workerMap)[res.cid][..res.numQueued], response);
           respCh == Reply(answered, old(workerMap)[res.cid][res.numQueued..], Closed)
    {
      ProcessResponse(true);
      clock := clock + 1;
    }

    /** The deferred shutdown: the requests of every list still in the map. */
    method DrainMap()
      requires ListsFit(workerMap, respCh)
      modifies this`processing, this`respCh, this`clock
      ensures processing == DrainingRequests && respCh == ReplyMap(old(respCh), workerMap, Closed)
      ensures clock == old(clock) + 1
    {
      var left := workerMap.Keys;
      assert ReplyMap(respCh, Only(workerMap, {}), Closed) == respCh;
      while left != {}
        invariant left <= workerMap.Keys
        invariant respCh == ReplyMap(old(respCh), Only(workerMap, workerMap.Keys - left), Closed)
        modifies this`respCh
        decreases left
      {
        var c :| c in left;
        ReplyMapStep(old(respCh), workerMap, workerMap.Keys - left, c, Closed);
        ReplyAll(workerMap[c], Closed);
        assert workerMap.Keys - left + {c} == workerMap.Keys - (left - {c});
        left := left - {c};
      }
      assert Only(workerMap, workerMap.Keys - {}) == workerMap;
      processing := DrainingRequests;
      clock := clock + 1;
    }

    /** The deferred shutdown: a request that nobody took. */
    method DrainRequest()
      requires reqCh != [] && reqCh[0] in respCh
      modifies this`reqCh, this`respCh, this`clock
      ensures reqCh == old(reqCh)[1..] && respCh == Reply(old(respCh), old(reqCh)[..1], Closed)
      ensures clock == old(clock) + 1
    {
      var req := reqCh[..1];
      ReplyAll(req, Closed);
      reqCh := reqCh[1..];
      clock := clock + 1;
    }

    /** fetchSeqnos takes a request and starts a fetch. */
    method BeginFetch()
      requires workerQueue != []
      modifies this`workerQueue, this`fetching, this`clock
      ensures workerQueue == old(workerQueue)[1..] && fetching == Busy(old(workerQueue)[0], old(clock))
      ensures clock == old(clock) + 1
    {
      var req := workerQueue[0];
      workerQueue := workerQueue[1..];
      fetching := Busy(req, clock);
      clock := clock + 1;
    }

    /** The fetch has returned; the count is read off the request now. */
    method EndFetch(seqnos: seq<nat>, failed: bool)
      requires fetching.Busy?
      modifies this`internalCh, this`fetching, this`clock
      ensures var (rep, begun) := (old(fetching).rep, old(fetching).begun);
        internalCh == old(internalCh) + [Result(rep.cid, seqnos, failed, NumQueued(numQueued, rep), begun)]
      ensures fetching == Idle && clock == old(clock) + 1
    {
      var req := fetching.rep;
      internalCh := internalCh + [Result(req.cid, seqnos, failed, NumQueued(numQueued, req), fetching.begun)];
      fetching := Idle;
      clock := clock + 1;
    }

    /** The deferred shutdown of fetchSeqnos: a request it never fetched for. */
    method DrainQueued()
      requires workerQueue != [] && workerQueue[0] in respCh
      modifies this`workerQueue, this`respCh, this`drained, this`clock
      ensures workerQueue == old(workerQueue)[1..] && respCh == Reply(old(respCh), old(workerQueue)[..1], Closed)
      ensures drained == old(drained) + {old(workerQueue)[0]} && clock == old(clock) + 1
    {
      var req := workerQueue[..1];
      ReplyAll(req, Closed);
      drained := drained + {workerQueue[0]};
      workerQueue := workerQueue[1..];
      clock := clock + 1;
    }

    // Each of these takes the worker from the state a step starts in to the state it leads to.

    method StepAccept(ghost s: State, ghost n: State)
      requires Shows(s) && Accepts(s, n)
      modifies this
      ensures Shows(n)
    {
      Accept();
    }

    method StepHandle(ghost s: State, ghost n: State)
      requires Shows(s) && ResultFits(s) && Handles(s, n)
      modifies this
      ensures Shows(n)
    {
      Handle();
    }

    method StepDrainResult(ghost s: State, ghost n: State)
      requires Shows(s) && ResultFits(s) && Responds(s, n)
      modifies this
      ensures Shows(n)
    {
      DrainResult();
    }

    method StepDrainMap(ghost s: State, ghost n: State)
      requires Shows(s) && ListsFit(s.workerMap, s.respCh) && DrainsMap(s, n)
      modifies this
      ensures Shows(n)
    {
      DrainMap();
    }

    method StepDrainRequest(ghost s: State, ghost n: State)
      requires Shows(s) && DrainsRequest(s, n) && s.reqCh[0] in s.respCh
      modifies this
      ensures Shows(n)
    {
      DrainRequest();
    }

    method StepBeginFetch(ghost s: State, ghost n: State)
      requires Shows(s) && BeginsFetch(s, n)
      modifies this
      ensures Shows(n)
    {
      BeginFetch();
    }

    method StepEndFetch(seqnos: seq<nat>, failed: bool, ghost s: State, ghost n: State)
      requires Shows(s) && EndsFetch(s, n, seqnos, failed)
      modifies this
      ensures Shows(n)
    {
      EndFetch(seqnos, failed);
    }

    method StepDrainQueued(ghost s: State, ghost n: State)
      requires Shows(s) && DrainsQueue(s, n) && s.workerQueue[0] in s.respCh
      modifies this
      ensures Shows(n)
    {
      DrainQueued();
    }
  }
}
