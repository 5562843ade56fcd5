/**
  The batched sequence-number worker: one goroutine takes requests and answers them, the other
  fetches sequence numbers. Requests for a collection that is already being fetched wait for the
  next fetch. The two goroutines and their channels form a step system; a step is what one
  goroutine does between two points at which it waits.
 */
module SeqnoWorker {
  import opened Common

  /** A caller's request; the id tells requests for the same collection apart. */
  datatype Request = Request(id: nat, cid: string)

  /** What a caller receives. `cid` and `begun` are history: they name the fetch. */
  datatype Response = Fetched(seqnos: seq<nat>, failed: bool, cid: string, begun: nat) | Closed

  datatype Result = Result(cid: string, seqnos: seq<nat>, failed: bool, numQueued: nat, begun: nat)

  /** processRequest: its loop, in it the sending of a done message, then the stages of its deferred shutdown. */
  datatype Processing = Serving | Reporting | DrainingResults | DrainingMap | DrainingRequests | Finished

  /** fetchSeqnos: idle, inside a fetch, or in its deferred shutdown. */
  datatype Fetching = Idle | Busy(rep: Request, begun: nat) | DrainingQueue | Stopped

  type Inbox = map<Request, seq<Response>>

  datatype State = State(
    processing: Processing,
    fetching: Fetching,
    reqCh: seq<Request>,
    reqClosed: bool,
    done: bool,
    workerMap: map<string, seq<Request>>,
    numQueued: map<Request, nat>,
    workerQueue: seq<Request>,
    internalCh: seq<Result>,
    capacity: nat,                // of dispatcherCh, on which all workers tell the reader that they are done
    room: nat,                    // places free in it
    respCh: Inbox,                // every request sent so far, and the replies to it
    clock: nat,                   // history: the number of steps taken
    taken: map<Request, nat>,     // history: when the worker took a request from reqCh
    drained: set<Request>)        // history: the requests answered out of workerQueue on shutdown

  // ---- steps -----------------------------------------------------------------------------------

  function Queued(wm: map<string, seq<Request>>, cid: string): seq<Request>
  {
    if cid in wm then wm[cid] else []
  }

  predicate InMap(wm: map<string, seq<Request>>, r: Request) { r in Queued(wm, r.cid) }

  function Front<T>(xs: seq<T>, n: nat): seq<T> { if n <= |xs| then xs[..n] else xs }

  function Rest<T>(xs: seq<T>, n: nat): seq<T> { if n <= |xs| then xs[n..] else [] }

  function Reply(m: Inbox, reqs: seq<Request>, resp: Response): (n: Inbox)
    ensures n.Keys == m.Keys
  {
    map r | r in m :: if r in reqs then m[r] + [resp] else m[r]
  }

  function ReplyMap(m: Inbox, wm: map<string, seq<Request>>, resp: Response): (n: Inbox)
    ensures n.Keys == m.Keys
  {
    map r | r in m :: if InMap(wm, r) then m[r] + [resp] else m[r]
  }

  function ResponseOf(res: Result): Response { Fetched(res.seqnos, res.failed, res.cid, res.begun) }

  function Grown(wm: map<string, seq<Request>>, r: Request): map<string, seq<Request>>
  {
    wm[r.cid := Queued(wm, r.cid) + [r]]
  }

  /** A request behind others of its collection waits; the first one is sent to be fetched. */
  function Accepted(s: State): State
    requires s.reqCh != []
  {
    var r := s.reqCh[0];
    var s1 := s.(reqCh := s.reqCh[1..], taken := s.taken[r := s.clock], workerMap := Grown(s.workerMap, r));
    if r.cid in s.workerMap then s1
    else s1.(numQueued := s.numQueued[r := 1], workerQueue := s.workerQueue + [r])
  }

  /** The requests that a result at the front of internalCh does not answer. */
  function Left(s: State): seq<Request>
    requires s.internalCh != []
  {
    Rest(Queued(s.workerMap, s.internalCh[0].cid), s.internalCh[0].numQueued)
  }

  function Answered(s: State): Inbox
    requires s.internalCh != []
  {
    Reply(s.respCh, Front(Queued(s.workerMap, s.internalCh[0].cid), s.internalCh[0].numQueued),
          ResponseOf(s.internalCh[0]))
  }

  /** processResponse: the counted requests get the result, on shutdown the others an error. */
  function Responded(s: State, closed: bool): State
    requires s.internalCh != []
  {
    s.(internalCh := s.internalCh[1..], workerMap := s.workerMap - {s.internalCh[0].cid},
       respCh := if closed then Reply(Answered(s), Left(s), Closed) else Answered(s))
  }

  /** The requests that came meanwhile are counted and represented by the last; without any, the reader is told. */
  function Handled(s: State): State
    requires s.internalCh != []
  {
    var s1 := Responded(s, false);
    if Left(s) == [] then s1.(processing := Reporting)
    else
      var last := Left(s)[|Left(s)| - 1];
      s1.(workerMap := s1.workerMap[last.cid := Left(s)], numQueued := s.numQueued[last := |Left(s)|],
          workerQueue := s.workerQueue + [last])
  }

  /** The numQueued field of a request; zero until it is set. */
  function NumQueued(nq: map<Request, nat>, r: Request): nat { if r in nq then nq[r] else 0 }

  /** What a fetch tells processRequest; the count is the one found on the request. */
  function ResultOf(s: State, seqnos: seq<nat>, failed: bool): Result
    requires s.fetching.Busy?
  {
    var rep := s.fetching.rep;
    Result(rep.cid, seqnos, failed, NumQueued(s.numQueued, rep), s.fetching.begun)
  }

  function FetchEnded(s: State, seqnos: seq<nat>, failed: bool): State
    requires s.fetching.Busy?
  {
    s.(fetching := Idle, internalCh := s.internalCh + [ResultOf(s, seqnos, failed)])
  }

  function FetchBegun(s: State): State
    requires s.workerQueue != []
  {
    s.(workerQueue := s.workerQueue[1..], fetching := Busy(s.workerQueue[0], s.clock))
  }

  /** Shutdown: everybody in the map, one nobody took, and one nobody fetched for get an error. */
  function MapDrained(s: State): State
  {
    s.(processing := DrainingRequests, respCh := ReplyMap(s.respCh, s.workerMap, Closed))
  }

  function RequestDrained(s: State): State
    requires s.reqCh != []
  {
    s.(reqCh := s.reqCh[1..], respCh := Reply(s.respCh, s.reqCh[..1], Closed))
  }

  function QueueDrained(s: State): State
    requires s.workerQueue != []
  {
    s.(workerQueue := s.workerQueue[1..], respCh := Reply(s.respCh, s.workerQueue[..1], Closed),
       drained := s.drained + {s.workerQueue[0]})
  }

  datatype Event =
    | Submit(r: Request) | CloseRequests | Shutdown | TakeDone                 // the reader
    | OthersDone                                                               // other workers
    | Accept | Handle | Report | StopServing | DrainResult | EndResults | DrainMap
    | DrainRequest | Finish                                                    // processRequest
    | BeginFetch | EndFetch(seqnos: seq<nat>, failed: bool) | StopFetching
    | DrainQueued | EndQueue                                                   // fetchSeqnos

  /** processRequest is still in its loop, and workerQueue open. */
  predicate InLoop(s: State) { s.processing.Serving? || s.processing.Reporting? }

  function InternalClosed(s: State): bool { s.fetching.DrainingQueue? || s.fetching.Stopped? }

  predicate Enabled(s: State, e: Event)
  {
    match e
    case Submit(r) => !s.reqClosed && r !in s.respCh
    case CloseRequests => s.done && !s.reqClosed
    case Shutdown => !s.done
    case TakeDone => !s.reqClosed && s.room < s.capacity
    case OthersDone => s.room > 0
    case Accept => s.processing.Serving? && s.reqCh != []
    case Handle => s.processing.Serving? && s.internalCh != []
    case Report => s.processing.Reporting? && s.room > 0
    case StopServing => s.processing.Serving? && s.done
    case DrainResult => s.processing.DrainingResults? && s.internalCh != []
    case EndResults => s.processing.DrainingResults? && s.internalCh == [] && InternalClosed(s)
    case DrainMap => s.processing.DrainingMap?
    case DrainRequest => s.processing.DrainingRequests? && s.reqCh != []
    case Finish => s.processing.DrainingRequests? && s.reqCh == [] && s.reqClosed
    case BeginFetch => s.fetching.Idle? && s.workerQueue != []
    case EndFetch(_, _) => s.fetching.Busy?
    case StopFetching => s.fetching.Idle? && s.done
    case DrainQueued => s.fetching.DrainingQueue? && s.workerQueue != []
    case EndQueue => s.fetching.DrainingQueue? && s.workerQueue == [] && !InLoop(s)
  }

  function Effect(s: State, e: Event): State
    requires Enabled(s, e)
  {
    match e
    case Submit(r) => s.(reqCh := s.reqCh + [r], respCh := s.respCh[r := []])
    case CloseRequests => s.(reqClosed := true)
    case Shutdown => s.(done := true)
    case TakeDone => s.(room := s.room + 1)
    case OthersDone => s.(room := s.room - 1)
    case Accept => Accepted(s)
    case Handle => Handled(s)
    case Report => s.(processing := Serving, room := s.room - 1)
    case StopServing => s.(processing := DrainingResults)
    case DrainResult => Responded(s, true)
    case EndResults => s.(processing := DrainingMap)
    case DrainMap => MapDrained(s)
    case DrainRequest => RequestDrained(s)
    case Finish => s.(processing := Finished)
    case BeginFetch => FetchBegun(s)
    case EndFetch(seqnos, failed) => FetchEnded(s, seqnos, failed)
    case StopFetching => s.(fetching := DrainingQueue)
    case DrainQueued => QueueDrained(s)
    case EndQueue => s.(fetching := Stopped)
  }

  function Tick(s: State): State { s.(clock := s.clock + 1) }

  function Next(s: State, e: Event): State
    requires Enabled(s, e)
  {
    Tick(Effect(s, e))
  }

  // ---- what every step keeps -------------------------------------------------------------------

  function QueueCids(q: seq<Request>): (r: seq<string>)
    ensures |r| == |q| && forall i :: 0 <= i < |q| ==> r[i] == q[i].cid
  {
    seq(|q|, i requires 0 <= i < |q| => q[i].cid)
  }

  function ResultCids(q: seq<Result>): (r: seq<string>)
    ensures |r| == |q| && forall i :: 0 <= i < |q| ==> r[i] == q[i].cid
  {
    seq(|q|, i requires 0 <= i < |q| => q[i].cid)
  }

  /** The fetches in flight, oldest first: finished, under way, waiting to start. */
  function Flights(s: State): seq<string>
  {
    ResultCids(s.internalCh) + (if s.fetching.Busy? then [s.fetching.rep.cid] else []) + QueueCids(s.workerQueue)
  }

  /** The map is in use: neither it nor the results have been given up. */
  predicate Live(s: State) { InLoop(s) || s.processing.DrainingResults? }

  function LostCids(drained: set<Request>): set<string> { set r | r in drained :: r.cid }

  /** One flight for each collection with waiting requests, unless shutdown took it. */
  ghost predicate Matched(flights: seq<string>, cids: set<string>, lost: set<string>, live: bool)
  {
    && NoDup(flights)
    && (forall c :: c in flights ==> c !in lost)
    && (live ==> forall c :: c in cids <==> c in flights || c in lost)
  }

  ghost predicate OneFlight(s: State)
  {
    Matched(Flights(s), s.workerMap.Keys, LostCids(s.drained), Live(s))
  }

  /** A flight may answer the first `n` requests of its collection: all were taken before `begun`. */
  ghost predicate Covers(wm: map<string, seq<Request>>, taken: map<Request, nat>, cid: string, n: nat, begun: nat)
  {
    && cid in wm && 1 <= n <= |wm[cid]|
    && forall i :: 0 <= i < n ==> wm[cid][i] in taken && taken[wm[cid][i]] < begun
  }

  /** The representative is the last request its flight may answer. */
  ghost predicate IsRep(wm: map<string, seq<Request>>, taken: map<Request, nat>, nq: map<Request, nat>,
                        rep: Request, begun: nat)
  {
    && Covers(wm, taken, rep.cid, NumQueued(nq, rep), begun)
    && wm[rep.cid][NumQueued(nq, rep) - 1] == rep
  }

  ghost predicate Covered(s: State)
  {
    && (forall i :: 0 <= i < |s.workerQueue| ==>
          IsRep(s.workerMap, s.taken, s.numQueued, s.workerQueue[i], s.clock))
    && (s.fetching.Busy? ==> IsRep(s.workerMap, s.taken, s.numQueued, s.fetching.rep, s.fetching.begun))
    && (forall i :: 0 <= i < |s.internalCh| ==>
          Covers(s.workerMap, s.taken, s.internalCh[i].cid, s.internalCh[i].numQueued, s.internalCh[i].begun))
  }

  /** Requests not yet taken: once in reqCh. */
  ghost predicate Waiting(reqCh: seq<Request>, known: set<Request>, taken: map<Request, nat>)
  {
    NoDup(reqCh) && forall r :: r in reqCh ==> r in known && r !in taken
  }

  /** Requests taken and not answered: once in the list of their own collection. */
  ghost predicate Listed(c: string, list: seq<Request>, taken: map<Request, nat>)
  {
    list != [] && NoDup(list) && forall r :: r in list ==> r.cid == c && r in taken
  }

  ghost predicate Lists(wm: map<string, seq<Request>>, taken: map<Request, nat>)
  {
    forall c :: c in wm ==> Listed(c, wm[c], taken)
  }

  ghost predicate Stamped(taken: map<Request, nat>, known: set<Request>, clock: nat)
  {
    forall r :: r in taken ==> r in known && taken[r] < clock
  }

  ghost predicate Placed(s: State)
  {
    && Waiting(s.reqCh, s.respCh.Keys, s.taken)
    && Lists(s.workerMap, s.taken)
    && Stamped(s.taken, s.respCh.Keys, s.clock)
    && (forall r :: r in s.drained || r in s.workerQueue ==> r in s.taken)
  }

  /** Requests in the map have still to be answered. */
  predicate Answering(s: State) { Live(s) || s.processing.DrainingMap? }

  predicate Pending(s: State, r: Request)
  {
    r in s.reqCh || (Answering(s) && InMap(s.workerMap, r))
  }

  /** Exactly one reply to a request that no longer waits, and one more out of the drained queue. */
  ghost predicate Settled(s: State, r: Request)
    requires r in s.respCh
  {
    |s.respCh[r]| == (if Pending(s, r) then 0 else 1) + (if r in s.drained then 1 else 0)
  }

  ghost predicate Accounted(s: State) { forall r :: r in s.respCh ==> Settled(s, r) }

  /** Sequence numbers come from a fetch for the request's collection begun after it was taken. */
  predicate Timely(r: Request, resp: Response, taken: map<Request, nat>)
  {
    resp.Fetched? ==> resp.cid == r.cid && r in taken && taken[r] < resp.begun
  }

  ghost predicate Current(m: Inbox, taken: map<Request, nat>)
  {
    forall r, i :: r in m && 0 <= i < |m[r]| ==> Timely(r, m[r][i], taken)
  }

  ghost predicate Phases(s: State)
  {
    && (!s.done ==> InLoop(s) && !InternalClosed(s))
    && (s.reqClosed ==> s.done)
    && (s.drained != {} ==> InternalClosed(s))
    && (!Live(s) ==> InternalClosed(s) && s.internalCh == [])
    && (s.processing.Finished? ==> s.reqClosed && s.reqCh == [])
    && s.room <= s.capacity && (s.fetching.Stopped? ==> !InLoop(s))
  }

  ghost predicate Inv(s: State)
  {
    OneFlight(s) && (Live(s) ==> Covered(s)) && Placed(s) && Accounted(s)
    && Current(s.respCh, s.taken) && Phases(s)
  }

  // ---- steps, field by field -----------------------------------------------------------------------

  predicate SameFlags(s: State, n: State)
  {
    n.reqClosed == s.reqClosed && n.done == s.done && n.capacity == s.capacity && n.room == s.room
    && n.clock == s.clock + 1
  }

  ghost predicate Accepts(s: State, n: State)
  {
    && s.reqCh != [] && SameFlags(s, n) && n.processing == s.processing && n.fetching == s.fetching
    && n.internalCh == s.internalCh && n.respCh == s.respCh && n.drained == s.drained
    && n.reqCh == s.reqCh[1..] && n.taken == s.taken[s.reqCh[0] := s.clock]
    && n.workerMap == Grown(s.workerMap, s.reqCh[0])
    && (if s.reqCh[0].cid in s.workerMap then n.numQueued == s.numQueued && n.workerQueue == s.workerQueue
        else n.numQueued == s.numQueued[s.reqCh[0] := 1] && n.workerQueue == s.workerQueue + [s.reqCh[0]])
  }

  /** What taking a result changes in any case. */
  ghost predicate Takes(s: State, n: State)
  {
    && s.internalCh != [] && SameFlags(s, n) && n.fetching == s.fetching && n.reqCh == s.reqCh
    && n.drained == s.drained && n.taken == s.taken && n.internalCh == s.internalCh[1..]
  }

  ghost predicate Handles(s: State, n: State)
  {
    && Takes(s, n) && n.respCh == Answered(s)
    && var c := s.internalCh[0].cid;
       if Left(s) == [] then
         n.processing == Reporting && n.workerMap == s.workerMap - {c}
         && n.numQueued == s.numQueued && n.workerQueue == s.workerQueue
       else
         var last := Left(s)[|Left(s)| - 1];
         n.processing == s.processing && n.workerMap == (s.workerMap - {c})[last.cid := Left(s)]
         && n.numQueued == s.numQueued[last := |Left(s)|] && n.workerQueue == s.workerQueue + [last]
  }

  ghost predicate Responds(s: State, n: State)
  {
    && Takes(s, n) && n.respCh == Reply(Answered(s), Left(s), Closed) && n.processing == s.processing
    && n.workerMap == s.workerMap - {s.internalCh[0].cid}
    && n.numQueued == s.numQueued && n.workerQueue == s.workerQueue
  }

  ghost predicate SameMap(s: State, n: State)
  {
    n.workerMap == s.workerMap && n.numQueued == s.numQueued && n.taken == s.taken
  }

  ghost predicate Drains(s: State, n: State)
  {
    SameFlags(s, n) && SameMap(s, n) && n.fetching == s.fetching && n.internalCh == s.internalCh
  }

  ghost predicate DrainsMap(s: State, n: State)
  {
    && Drains(s, n) && n.processing == DrainingRequests && n.reqCh == s.reqCh && n.workerQueue == s.workerQueue
    && n.drained == s.drained && n.respCh == ReplyMap(s.respCh, s.workerMap, Closed)
  }

  ghost predicate DrainsRequest(s: State, n: State)
  {
    && Drains(s, n) && n.processing == s.processing && s.reqCh != [] && n.reqCh == s.reqCh[1..]
    && n.workerQueue == s.workerQueue && n.drained == s.drained && n.respCh == Reply(s.respCh, s.reqCh[..1], Closed)
  }

  ghost predicate DrainsQueue(s: State, n: State)
  {
    && Drains(s, n) && n.processing == s.processing && n.reqCh == s.reqCh && s.workerQueue != []
    && n.workerQueue == s.workerQueue[1..] && n.drained == s.drained + {s.workerQueue[0]}
    && n.respCh == Reply(s.respCh, s.workerQueue[..1], Closed)
  }

  ghost predicate Fetches(s: State, n: State)
  {
    && SameFlags(s, n) && SameMap(s, n) && n.processing == s.processing && n.respCh == s.respCh
    && n.reqCh == s.reqCh && n.drained == s.drained
  }

  ghost predicate BeginsFetch(s: State, n: State)
  {
    && Fetches(s, n) && n.internalCh == s.internalCh && s.workerQueue != [] && n.workerQueue == s.workerQueue[1..]
    && n.fetching == Busy(s.workerQueue[0], s.clock)
  }

  ghost predicate EndsFetch(s: State, n: State, seqnos: seq<nat>, failed: bool)
  {
    && Fetches(s, n) && n.workerQueue == s.workerQueue && s.fetching.Busy? && n.fetching == Idle
    && n.internalCh == s.internalCh + [ResultOf(s, seqnos, failed)]
  }

  /** Only flags, rooms and places in the code change. */
  ghost predicate Flips(s: State, n: State)
  {
    && SameMap(s, n) && n.clock == s.clock + 1 && n.reqCh == s.reqCh && n.respCh == s.respCh && n.drained == s.drained
    && n.workerQueue == s.workerQueue && n.internalCh == s.internalCh
    && (n.fetching == s.fetching || (!n.fetching.Busy? && !s.fetching.Busy?))
    && (Live(n) ==> Live(s)) && Answering(n) == Answering(s)
  }

  lemma AcceptIs(s: State)
    requires s.reqCh != []
    ensures Accepts(s, Tick(Accepted(s)))
  {
  }

  lemma HandleIs(s: State)
    requires s.internalCh != []
    ensures Handles(s, Tick(Handled(s)))
  {
  }

  lemma RespondIs(s: State)
    requires s.internalCh != []
    ensures Responds(s, Tick(Responded(s, true)))
  {
  }

  lemma DrainMapIs(s: State)
    ensures DrainsMap(s, Tick(MapDrained(s)))
  {
  }

  lemma DrainRequestIs(s: State)
    requires s.reqCh != []
    ensures DrainsRequest(s, Tick(RequestDrained(s)))
  {
  }

  lemma DrainQueueIs(s: State)
    requires s.workerQueue != []
    ensures DrainsQueue(s, Tick(QueueDrained(s)))
  {
  }

  lemma BeginIs(s: State)
    requires s.workerQueue != []
    ensures BeginsFetch(s, Tick(FetchBegun(s)))
  {
  }

  lemma EndIs(s: State, seqnos: seq<nat>, failed: bool)
    requires s.fetching.Busy?
    ensures EndsFetch(s, Tick(FetchEnded(s, seqnos, failed)), seqnos, failed)
  {
  }
}
