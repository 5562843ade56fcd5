/**
  What holds in every run of the sequence-number worker: who is answered, how often, with what, and
  how its shutdown ends.
 */
module SeqnoRuns {
  import opened Common
  import opened SeqnoWorker
  import opened SeqnoInvariant

  function Start(capacity: nat): State
  {
    State(Serving, Idle, [], false, false, map[], map[], [], [], capacity, capacity, map[], 0, map[], {})
  }

  /** The states of the runs: `es` is a schedule of both goroutines, the reader and other workers. */
  ghost predicate Run(es: seq<Event>, s: State) { Leads(Next, Start(s.capacity), es, s) }

  lemma {:induction false} Kept(s: State, es: seq<Event>, t: State)
    requires Inv(s) && Leads(Next, s, es, t)
    ensures Inv(t)
    decreases |es|
  {
    if es != [] {
      KeepsInv(s, es[0]);
      Kept(Next(s, es[0]), es[1..], t);
    }
  }

  lemma StartInv(capacity: nat)
    ensures Inv(Start(capacity))
  {
  }

  lemma Always(es: seq<Event>, s: State)
    requires Run(es, s)
    ensures Inv(s)
  {
    StartInv(s.capacity);
    Kept(Start(s.capacity), es, s);
  }

  /** The messages a schedule puts into dispatcherCh, and those it takes out. */
  function Puts(es: seq<Event>): nat
  {
    if es == [] then 0 else (if es[0].OthersDone? || es[0].Report? then 1 else 0) + Puts(es[1..])
  }

  function TakesOut(es: seq<Event>): nat
  {
    if es == [] then 0 else (if es[0].TakeDone? then 1 else 0) + TakesOut(es[1..])
  }

  lemma RoomNext(s: State, e: Event)
    requires Enabled(s, e)
    ensures var n := Next(s, e);
      n.capacity == s.capacity && n.room + (if e.OthersDone? || e.Report? then 1 else 0)
                               == s.room + if e.TakeDone? then 1 else 0
  {
    if e.Accept? { AcceptIs(s); } else if e.Handle? { HandleIs(s); } else if e.DrainResult? { RespondIs(s); }
  }

  lemma {:induction false} RoomAfter(s: State, es: seq<Event>, t: State)
    requires Leads(Next, s, es, t)
    ensures t.capacity == s.capacity && t.room + Puts(es) == s.room + TakesOut(es)
    decreases |es|
  {
    if es != [] {
      RoomNext(s, es[0]);
      RoomAfter(Next(s, es[0]), es[1..], t);
    }
  }

  /** dispatcherCh holds what has been put into it and not taken out, and never more than it has places. */
  lemma PlacesCounted(es: seq<Event>, s: State)
    requires Run(es, s)
    ensures TakesOut(es) <= Puts(es) && s.room == s.capacity - (Puts(es) - TakesOut(es))
  {
    Always(es, s);
    RoomAfter(Start(s.capacity), es, s);
  }

  /**
    Sequence numbers delivered to a request come from a fetch for its own collection that began
    after the worker took the request.
   */
  lemma NeverStale(es: seq<Event>, s: State, r: Request, i: nat)
    requires Run(es, s) && r in s.respCh && i < |s.respCh[r]| && s.respCh[r][i].Fetched?
    ensures s.respCh[r][i].cid == r.cid && r in s.taken && s.taken[r] < s.respCh[r][i].begun
  {
    Always(es, s);
    assert Timely(r, s.respCh[r][i], s.taken);
  }

  function CountOf(c: string, xs: seq<string>): nat
  {
    if xs == [] then 0 else (if xs[0] == c then 1 else 0) + CountOf(c, xs[1..])
  }

  lemma {:induction false} CountOnce(c: string, xs: seq<string>)
    requires NoDup(xs)
    ensures CountOf(c, xs) == if c in xs then 1 else 0
  {
    if xs != [] { CountOnce(c, xs[1..]); }
  }

  lemma OneFlightEach(s: State, c: string)
    requires OneFlight(s) && Live(s) && s.drained == {}
    ensures CountOf(c, Flights(s)) == if c in s.workerMap then 1 else 0
  {
    CountOnce(c, Flights(s));
    assert LostCids(s.drained) == {};
  }

  lemma CountsWithin(s: State, c: string)
    requires Covered(s)
    ensures forall i :: 0 <= i < |s.internalCh| && s.internalCh[i].cid == c ==>
              c in s.workerMap && 1 <= s.internalCh[i].numQueued <= |s.workerMap[c]|
    ensures forall i :: 0 <= i < |s.workerQueue| && s.workerQueue[i].cid == c ==>
              c in s.workerMap && 1 <= NumQueued(s.numQueued, s.workerQueue[i]) <= |s.workerMap[c]|
    ensures s.fetching.Busy? && s.fetching.rep.cid == c ==>
              c in s.workerMap && 1 <= NumQueued(s.numQueued, s.fetching.rep) <= |s.workerMap[c]|
  {
    forall i | 0 <= i < |s.workerQueue| && s.workerQueue[i].cid == c
      ensures c in s.workerMap && 1 <= NumQueued(s.numQueued, s.workerQueue[i]) <= |s.workerMap[c]| {
      assert IsRep(s.workerMap, s.taken, s.numQueued, s.workerQueue[i], s.clock);
    }
  }

  /**
    Until shutdown exactly the collections with waiting requests have a flight, and just one; its
    count of requests to answer is at least one and at most their number.
   */
  lemma OneFetchEach(es: seq<Event>, s: State, c: string)
    requires Run(es, s) && !s.done
    ensures CountOf(c, Flights(s)) == if c in s.workerMap then 1 else 0
    ensures forall i :: 0 <= i < |s.internalCh| && s.internalCh[i].cid == c ==>
              c in s.workerMap && 1 <= s.internalCh[i].numQueued <= |s.workerMap[c]|
    ensures forall i :: 0 <= i < |s.workerQueue| && s.workerQueue[i].cid == c ==>
              c in s.workerMap && 1 <= NumQueued(s.numQueued, s.workerQueue[i]) <= |s.workerMap[c]|
    ensures s.fetching.Busy? && s.fetching.rep.cid == c ==>
              c in s.workerMap && 1 <= NumQueued(s.numQueued, s.fetching.rep) <= |s.workerMap[c]|
  {
    Always(es, s);
    OneFlightEach(s, c);
    CountsWithin(s, c);
  }

  /** Until shutdown a request is answered once it no longer waits, and never twice. */
  lemma AnsweredOnce(es: seq<Event>, s: State, r: Request)
    requires Run(es, s) && !s.done && r in s.respCh
    ensures |s.respCh[r]| == if r in s.reqCh || InMap(s.workerMap, r) then 0 else 1
  {
    Always(es, s);
    assert Settled(s, r);
  }

  /**
    When processRequest has finished every request ever sent has been answered, and twice exactly
    if the fetching goroutine found it in workerQueue on shutdown.
   */
  lemma AllAnswered(es: seq<Event>, s: State, r: Request)
    requires Run(es, s) && s.processing.Finished? && r in s.respCh
    ensures |s.respCh[r]| == if r in s.drained then 2 else 1
  {
    Always(es, s);
    assert Settled(s, r);
  }

  /** Nobody is answered more than twice, and twice only out of the queue that shutdown drained. */
  lemma AtMostTwice(es: seq<Event>, s: State, r: Request)
    requires Run(es, s) && r in s.respCh
    ensures |s.respCh[r]| <= 2
    ensures |s.respCh[r]| == 2 ==> r in s.drained && s.done
  {
    Always(es, s);
    assert Settled(s, r);
  }

  // ---- shutdown ends -----------------------------------------------------------------------------------

  ghost function Unanswered(s: State): set<Request> { set r | r in s.respCh && Pending(s, r) }

  function ProcessingLeft(p: Processing): nat
  {
    match p
    case Serving => 4
    case Reporting => 5
    case DrainingResults => 3
    case DrainingMap => 2
    case DrainingRequests => 1
    case Finished => 0
  }

  function FetchingLeft(f: Fetching): nat
  {
    match f
    case Idle => 2
    case Busy(_, _) => 4
    case DrainingQueue => 1
    case Stopped => 0
  }

  function Load(s: State): nat
  {
    4 * |s.reqCh| + 3 * |s.workerQueue| + |s.internalCh| + ProcessingLeft(s.processing) + FetchingLeft(s.fetching)
    + s.room
  }

  /** A bound on the steps that can still be taken without the reader. */
  ghost function Work(s: State): nat { 4 * |Unanswered(s)| + Load(s) }

  /** Steps that do not need the reader. */
  predicate Readerless(e: Event) { !e.Submit? && !e.CloseRequests? && !e.Shutdown? && !e.TakeDone? }

  /** Steps of the two goroutines. */
  predicate OfWorker(e: Event) { Readerless(e) && !e.OthersDone? }

  lemma {:induction false} SmallerSet<T>(a: set<T>, b: set<T>)
    requires a <= b
    ensures |a| <= |b| && (a < b ==> |a| < |b|)
  {
    if a != {} {
      var x :| x in a;
      SmallerSet(a - {x}, b - {x});
    }
  }

  /** Nobody who has been answered waits again. */
  lemma FewerUnanswered(s: State, n: State)
    requires n.respCh.Keys == s.respCh.Keys && forall r :: r in s.respCh && Pending(n, r) ==> Pending(s, r)
    ensures Unanswered(n) <= Unanswered(s) && |Unanswered(n)| <= |Unanswered(s)|
  {
    SmallerSet(Unanswered(n), Unanswered(s));
  }

  lemma AcceptWork(s: State, n: State)
    requires Accepts(s, n) && Live(s)
    ensures Work(n) < Work(s)
  {
    forall r | Pending(n, r) ensures Pending(s, r) {
      var q := Queued(s.workerMap, s.reqCh[0].cid);
      assert r in q + [s.reqCh[0]] <==> r in q || r == s.reqCh[0];
    }
    FewerUnanswered(s, n);
  }

  lemma RespondWork(s: State, n: State)
    requires Responds(s, n)
    ensures Work(n) < Work(s)
  {
    FewerUnanswered(s, n);
  }

  lemma HandleWork(s: State, n: State)
    requires Inv(s) && s.processing.Serving? && Handles(s, n)
    ensures Work(n) < Work(s)
  {
    LeftListed(s);
    HandlePending(s, n);
    FewerUnanswered(s, n);
    FirstAnswered(s, n);
    SmallerSet(Unanswered(n), Unanswered(s));
  }

  lemma HandlePending(s: State, n: State)
    requires Handles(s, n) && LeftIs(s) && Live(s)
    ensures forall r :: Pending(n, r) ==> Pending(s, r)
  {
    var c := s.internalCh[0].cid;
    forall r | Pending(n, r) ensures Pending(s, r) {
      assert r in Left(s) ==> r in Queued(s.workerMap, c);
    }
  }

  /** A result answers at least one request. */
  lemma FirstAnswered(s: State, n: State)
    requires Covered(s) && Placed(s) && Handles(s, n) && LeftIs(s) && Live(s)
    ensures Unanswered(n) != Unanswered(s)
  {
    var res := s.internalCh[0];
    assert Covers(s.workerMap, s.taken, res.cid, res.numQueued, res.begun);
    var list := s.workerMap[res.cid];
    var r := list[0];
    RestOf(list, res.numQueued);
    assert r in list && r in Front(list, res.numQueued);
    assert r in Unanswered(s);
    assert r !in s.reqCh;
  }

  lemma OtherWork(s: State, n: State)
    requires n.respCh.Keys == s.respCh.Keys && n.workerMap == s.workerMap && (Answering(n) ==> Answering(s))
    requires n.reqCh == s.reqCh || (s.reqCh != [] && n.reqCh == s.reqCh[1..])
    requires Load(n) < Load(s)
    ensures Work(n) < Work(s)
  {
    FewerUnanswered(s, n);
  }

  lemma QuietWork(s: State, e: Event)
    requires Enabled(s, e) && Quiet(e) && Readerless(e)
    ensures Work(Next(s, e)) < Work(s)
  {
    OtherWork(s, Next(s, e));
  }

  lemma DrainWork(s: State, e: Event)
    requires Enabled(s, e) && (e.DrainMap? || e.DrainRequest? || e.DrainQueued?)
    ensures Work(Next(s, e)) < Work(s)
  {
    OtherWork(s, Next(s, e));
  }

  lemma FetchWork(s: State, e: Event)
    requires Enabled(s, e) && (e.BeginFetch? || e.EndFetch?)
    ensures Work(Next(s, e)) < Work(s)
  {
    OtherWork(s, Next(s, e));
  }

  /** Every step of either goroutine brings both closer to their ends. */
  lemma WorkShrinks(s: State, e: Event)
    requires Inv(s) && Enabled(s, e) && Readerless(e)
    ensures Work(Next(s, e)) < Work(s)
  {
    match e
    case Accept => AcceptIs(s); AcceptWork(s, Tick(Accepted(s)));
    case Handle => HandleIs(s); HandleWork(s, Tick(Handled(s)));
    case DrainResult => RespondIs(s); RespondWork(s, Tick(Responded(s, true)));
    case DrainMap => DrainWork(s, e);
    case DrainRequest => DrainWork(s, e);
    case DrainQueued => DrainWork(s, e);
    case BeginFetch => FetchWork(s, e);
    case EndFetch(_, _) => FetchWork(s, e);
    case _ => QuietWork(s, e);
  }

  lemma OneStepLess(s: State, e: Event)
    requires Inv(s) && s.reqClosed && Enabled(s, e)
    ensures Inv(Next(s, e)) && Next(s, e).reqClosed && Work(Next(s, e)) < Work(s)
  {
    WorkShrinks(s, e);
    KeepsInv(s, e);
  }

  /** Once reqCh is closed no schedule is longer than the work left. */
  lemma {:induction false} ShutdownEnds(s: State, es: seq<Event>, t: State)
    requires Inv(s) && s.reqClosed && Leads(Next, s, es, t)
    ensures |es| + Work(t) <= Work(s) && Inv(t) && t.reqClosed
    decreases |es|
  {
    if es != [] {
      OneStepLess(s, es[0]);
      ShutdownEnds(Next(s, es[0]), es[1..], t);
    }
  }

  /** Both goroutines have ended. */
  predicate Ended(s: State) { s.processing.Finished? && s.fetching.Stopped? }

  /** processRequest waits for a place in dispatcherCh, and fetchSeqnos for processRequest. */
  predicate HeldUp(s: State)
  {
    s.processing.Reporting? && s.room == 0 && s.fetching.DrainingQueue? && s.workerQueue == []
  }

  /** processRequest can take a step after the close unless it has ended, finds no place, or waits for fetchSeqnos. */
  lemma ProcessingMoves(s: State)
    requires s.reqClosed && s.done
    ensures s.processing.Finished? || (s.processing.Reporting? && s.room == 0)
      || (s.processing.DrainingResults? && s.internalCh == [] && !InternalClosed(s))
      || exists e :: OfWorker(e) && Enabled(s, e)
  {
    match s.processing
    case Serving => assert Enabled(s, StopServing);
    case Reporting => if s.room > 0 { assert Enabled(s, Report); }
    case DrainingResults =>
      if s.internalCh != [] { assert Enabled(s, DrainResult); }
      else if InternalClosed(s) { assert Enabled(s, EndResults); }
    case DrainingMap => assert Enabled(s, DrainMap);
    case DrainingRequests => if s.reqCh == [] { assert Enabled(s, Finish); } else { assert Enabled(s, DrainRequest); }
    case Finished =>
  }

  /** So can fetchSeqnos, unless it has ended or waits for processRequest to close workerQueue. */
  lemma FetchingMoves(s: State)
    requires s.done
    ensures s.fetching.Stopped? || (s.fetching.DrainingQueue? && s.workerQueue == [] && InLoop(s))
      || exists e :: OfWorker(e) && Enabled(s, e)
  {
    match s.fetching
    case Idle => assert Enabled(s, StopFetching);
    case Busy(_, _) => assert Enabled(s, EndFetch([], false));
    case DrainingQueue =>
      if s.workerQueue != [] { assert Enabled(s, DrainQueued); }
      else if !InLoop(s) { assert Enabled(s, EndQueue); }
    case Stopped =>
  }

  lemma NoneMoves(s: State, e: Event)
    requires OfWorker(e) && (Ended(s) || HeldUp(s))
    ensures !Enabled(s, e)
  {
  }

  /** A schedule stops for good exactly when both goroutines have ended or the done message finds no place. */
  lemma StuckExactly(s: State)
    requires Phases(s) && s.reqClosed
    ensures (forall e :: OfWorker(e) ==> !Enabled(s, e)) <==> Ended(s) || HeldUp(s)
  {
    if Ended(s) || HeldUp(s) {
      forall e | OfWorker(e) ensures !Enabled(s, e) { NoneMoves(s, e); }
    } else {
      ProcessingMoves(s);
      FetchingMoves(s);
    }
  }

  /** Once the reader is gone nobody helps a worker that is held up: its requests stay unanswered. */
  lemma {:induction false} HeldUpForever(s: State, es: seq<Event>, t: State)
    requires s.reqClosed && HeldUp(s) && Leads(Next, s, es, t)
    ensures HeldUp(t) && t.respCh == s.respCh
    decreases |es|
  {
    if es != [] { HeldUpForever(Next(s, es[0]), es[1..], t); }
  }

  lemma {:induction false} OthersFill(s: State) returns (es: seq<Event>, t: State)
    ensures Leads(Next, s, es, t) && t == s.(room := 0, clock := s.clock + s.room)
    decreases s.room
  {
    if s.room == 0 {
      es, t := [], s;
    } else {
      es, t := OthersFill(Next(s, OthersDone));
      es := [OthersDone] + es;
    }
  }

  lemma ReaderGone(s: State) returns (es: seq<Event>, t: State)
    requires !s.done && !s.reqClosed && s.fetching.Idle?
    ensures Leads(Next, s, es, t)
    ensures t == s.(done := true, reqClosed := true, fetching := DrainingQueue, clock := s.clock + 3)
  {
    var a := Next(s, Shutdown);
    var b := Next(a, CloseRequests);
    es, t := [Shutdown, CloseRequests, StopFetching], Next(b, StopFetching);
    assert Leads(Next, b, es[2..], t);
    assert Leads(Next, a, es[1..], t);
  }

  /** It does happen: a worker that reports while nothing waits to be fetched can be overtaken by the others. */
  lemma CanBeHeldUp(s: State) returns (es: seq<Event>, t: State)
    requires !s.done && !s.reqClosed && s.processing.Reporting? && s.fetching.Idle? && s.workerQueue == []
    ensures Leads(Next, s, es, t) && t.reqClosed && HeldUp(t) && t.respCh == s.respCh
  {
    var full, u := OthersFill(s);
    var gone, v := ReaderGone(u);
    LeadsOn(Next, s, full, u, gone, v);
    es, t := full + gone, v;
  }
}
