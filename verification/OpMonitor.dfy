/**
  The operations monitor bounds the operations it watches by an atomic counter beside a channel of
  the same size. Any number of callers, the monitor's goroutine and Close interleave; a step is one
  atomic action on the counter, the lock, the closed flag or the channel.
 */
module OpMonitor {
  import opened Common

  type Op = nat  // one call of AddOperation and its operation

  /** The monitor's goroutine: between operations, holding one, or putting it back under the read lock. */
  datatype Watching = Free | Has(op: Op) | Locked(op: Op) | Again(op: Op)

  /**
    Close: not running, waiting for the write lock, holding it, or past setting the closed flag. A
    waiting writer keeps new readers out.
   */
  datatype Closing = NotClosing | Waiting | WriteLocked | Flagged

  datatype State = State(
    maxOps: nat,
    count: int,            // currOpsCount
    closed: bool,
    operations: seq<Op>,   // the channel
    chanClosed: bool,
    entered: set<Op>,      // in AddOperation, under the read lock
    open: set<Op>,         // and past finding the monitor open
    over: set<Op>,         // and past counting one too many
    admitted: set<Op>,     // and past being counted in, about to send
    watching: Watching,
    closing: Closing,
    dropped: set<Op>)      // history: operations not put back because the monitor was closed

  datatype Event =
    | Enter(op: Op) | FindClosed(op: Op) | FindOpen(op: Op) | Increment(op: Op) | Decrement(op: Op) | Send(op: Op)
    | Receive | Complete | PutBack | PutBackClosed | PutBackOpen | SendAgain
    | Ask | Lock | Flag | CloseChannel | CloseAgain

  /** No reader holds the lock. */
  predicate ReadersOut(s: State)
  {
    s.entered == {} && s.open == {} && s.over == {} && s.admitted == {} && !s.watching.Locked? && !s.watching.Again?
  }

  /** No writer holds the lock or waits for it. */
  predicate WriterOut(s: State) { s.closing.NotClosing? }

  predicate Fresh(s: State, op: Op)
  {
    && op !in s.entered && op !in s.open && op !in s.over && op !in s.admitted && op !in s.dropped
    && op !in s.operations && (s.watching.Free? || s.watching.op != op)
  }

  predicate Enabled(s: State, e: Event)
  {
    match e
    case Enter(op) => WriterOut(s) && Fresh(s, op)
    case FindClosed(op) => op in s.entered && s.closed
    case FindOpen(op) => op in s.entered && !s.closed
    case Increment(op) => op in s.open
    case Decrement(op) => op in s.over
    case Send(op) => op in s.admitted && |s.operations| < s.maxOps
    case Receive => s.watching.Free? && s.operations != []
    case Complete => s.watching.Has?
    case PutBack => s.watching.Has? && WriterOut(s)
    case PutBackClosed => s.watching.Locked? && s.closed
    case PutBackOpen => s.watching.Locked? && !s.closed
    case SendAgain => s.watching.Again? && |s.operations| < s.maxOps
    case Ask => WriterOut(s)
    case Lock => s.closing.Waiting? && ReadersOut(s)
    case Flag => s.closing.WriteLocked? && !s.closed
    case CloseChannel => s.closing.Flagged?
    case CloseAgain => s.closing.WriteLocked? && s.closed
  }

  /** The increment made the count too large, or not. */
  function Over(s: State, op: Op): State
  {
    s.(open := s.open - {op}, over := s.over + {op}, count := s.count + 1)
  }

  function Admit(s: State, op: Op): State
  {
    s.(open := s.open - {op}, admitted := s.admitted + {op}, count := s.count + 1)
  }

  function Next(s: State, e: Event): State
    requires Enabled(s, e)
  {
    match e
    case Enter(op) => s.(entered := s.entered + {op})
    case FindClosed(op) => s.(entered := s.entered - {op})
    case FindOpen(op) => s.(entered := s.entered - {op}, open := s.open + {op})
    case Increment(op) =>
      if s.count + 1 > s.maxOps then Over(s, op) else Admit(s, op)
    case Decrement(op) => s.(over := s.over - {op}, count := s.count - 1)
    case Send(op) => s.(admitted := s.admitted - {op}, operations := s.operations + [op])
    case Receive => s.(watching := Has(s.operations[0]), operations := s.operations[1..])
    case Complete => s.(watching := Free, count := s.count - 1)
    case PutBack => s.(watching := Locked(s.watching.op))
    case PutBackClosed => s.(watching := Free, dropped := s.dropped + {s.watching.op})
    case PutBackOpen => s.(watching := Again(s.watching.op))
    case SendAgain => s.(watching := Free, operations := s.operations + [s.watching.op])
    case Ask => s.(closing := Waiting)
    case Lock => s.(closing := WriteLocked)
    case Flag => s.(closing := Flagged, closed := true)
    case CloseChannel => s.(closing := NotClosing, chanClosed := true)
    case CloseAgain => s.(closing := NotClosing)
  }

  // ---- what every step keeps -------------------------------------------------------------------

  function Held(s: State): nat { if s.watching.Free? then 0 else 1 }

  /** The operations counted in and not completed. */
  function Monitored(s: State): nat { |s.operations| + |s.admitted| + Held(s) + |s.dropped| }

  /** Every operation is in one place. */
  ghost predicate Apart(s: State)
  {
    && s.entered !! s.open !! s.over !! s.admitted !! s.dropped
    && NoDup(s.operations)
    && (forall op :: op in s.operations ==>
          op !in s.entered && op !in s.open && op !in s.over && op !in s.admitted && op !in s.dropped)
    && (!s.watching.Free? ==>
          && s.watching.op !in s.entered && s.watching.op !in s.open && s.watching.op !in s.over
          && s.watching.op !in s.admitted && s.watching.op !in s.dropped && s.watching.op !in s.operations)
  }

  /** The counter is exact but for callers about to take their increment back. */
  ghost predicate Counted(s: State)
  {
    s.count == Monitored(s) + |s.over| && Monitored(s) <= s.maxOps
  }

  /** Who may still send holds the read lock and has seen the monitor open under it. */
  ghost predicate Guarded(s: State)
  {
    && (s.closing.WriteLocked? || s.closing.Flagged? ==> ReadersOut(s))
    && (s.closed ==> s.open == {} && s.over == {} && s.admitted == {} && !s.watching.Again?)
    && (s.chanClosed ==> s.closed) && (s.closing.Flagged? ==> s.closed)
  }

  ghost predicate Inv(s: State) { Apart(s) && Counted(s) && Guarded(s) }

  /** Steps of those inside the read lock. */
  predicate Inside(e: Event)
  {
    e.FindClosed? || e.FindOpen? || e.Increment? || e.Decrement? || e.Send? || e.PutBackClosed? || e.PutBackOpen?
    || e.SendAgain?
  }

  function StepsInside(s: State): nat
  {
    3 * |s.entered| + 2 * |s.open| + |s.over| + |s.admitted|
    + match s.watching { case Locked(_) => 2 case Again(_) => 1 case _ => 0 }
  }

  predicate OfCaller(e: Event)
  {
    e.Enter? || e.FindClosed? || e.FindOpen? || e.Increment? || e.Decrement? || e.Send?
  }

  lemma SendApart(s: State, op: Op)
    requires Apart(s) && Enabled(s, Send(op))
    ensures Apart(Next(s, Send(op)))
  {
  }

  lemma CallerApart(s: State, e: Event)
    requires Apart(s) && Enabled(s, e) && OfCaller(e)
    ensures Apart(Next(s, e))
  {
    if e.Send? { SendApart(s, e.op); }
  }

  lemma KeepsApart(s: State, e: Event)
    requires Apart(s) && Enabled(s, e)
    ensures Apart(Next(s, e))
  {
    if OfCaller(e) { CallerApart(s, e); }
  }

  lemma Moves(a: set<Op>, b: set<Op>, op: Op)
    requires op in a && op !in b
    ensures |a - {op}| == |a| - 1 && |b + {op}| == |b| + 1
  {
  }

  lemma OverCounted(s: State, op: Op)
    requires Counted(s) && op in s.open && op !in s.over
    ensures Counted(Over(s, op)) && StepsInside(Over(s, op)) == StepsInside(s) - 1
  {
    Moves(s.open, s.over, op);
  }

  lemma AdmitCounted(s: State, op: Op)
    requires Counted(s) && op in s.open && op !in s.admitted && s.count < s.maxOps
    ensures Counted(Admit(s, op)) && StepsInside(Admit(s, op)) == StepsInside(s) - 1
  {
    Moves(s.open, s.admitted, op);
  }

  lemma IncrementCounted(s: State, op: Op)
    requires Counted(s) && op in s.open && op !in s.over && op !in s.admitted
    ensures Counted(Next(s, Increment(op)))
    ensures StepsInside(Next(s, Increment(op))) == StepsInside(s) - 1
  {
    if s.count + 1 > s.maxOps { OverCounted(s, op); } else { AdmitCounted(s, op); }
  }

  lemma DecrementCounted(s: State, op: Op)
    requires Counted(s) && op in s.over
    ensures Counted(Next(s, Decrement(op)))
    ensures StepsInside(Next(s, Decrement(op))) == StepsInside(s) - 1
  {
    Moves(s.over, {}, op);
  }

  lemma SendCounted(s: State, op: Op)
    requires Counted(s) && Enabled(s, Send(op))
    ensures Counted(Next(s, Send(op)))
    ensures StepsInside(Next(s, Send(op))) == StepsInside(s) - 1
  {
    Moves(s.admitted, {}, op);
  }

  lemma FindCounted(s: State, op: Op)
    requires Counted(s) && op in s.entered && op !in s.open
    ensures s.closed ==> Counted(Next(s, FindClosed(op))) && StepsInside(Next(s, FindClosed(op))) < StepsInside(s)
    ensures !s.closed ==> Counted(Next(s, FindOpen(op))) && StepsInside(Next(s, FindOpen(op))) < StepsInside(s)
  {
    Moves(s.entered, s.open, op);
  }

  lemma MonitorCounted(s: State, e: Event)
    requires Counted(s) && Enabled(s, e) && !OfCaller(e)
    requires e.PutBackClosed? ==> s.watching.op !in s.dropped
    ensures Counted(Next(s, e))
    ensures Inside(e) ==> StepsInside(Next(s, e)) < StepsInside(s)
  {
  }

  /** The counter stays exact, and a step inside the read lock brings its end nearer. */
  lemma KeepsCounted(s: State, e: Event)
    requires Apart(s) && Counted(s) && Enabled(s, e)
    ensures Counted(Next(s, e))
    ensures Inside(e) ==> StepsInside(Next(s, e)) < StepsInside(s)
  {
    match e
    case Enter(_) =>
    case FindClosed(op) => FindCounted(s, op);
    case FindOpen(op) => FindCounted(s, op);
    case Increment(op) => IncrementCounted(s, op);
    case Decrement(op) => DecrementCounted(s, op);
    case Send(op) => SendCounted(s, op);
    case _ => MonitorCounted(s, e);
  }

  lemma KeepsGuarded(s: State, e: Event)
    requires Guarded(s) && Enabled(s, e)
    ensures Guarded(Next(s, e))
  {
  }

  function Start(maxOps: nat): State
  {
    State(maxOps, 0, false, [], false, {}, {}, {}, {}, Free, NotClosing, {})
  }

  /** The states of the runs: `es` is any interleaving. */
  ghost predicate Run(maxOps: nat, es: seq<Event>, s: State) { Leads(Next, Start(maxOps), es, s) }

  lemma KeepsInv(s: State, e: Event)
    requires Inv(s) && Enabled(s, e)
    ensures Inv(Next(s, e)) && Next(s, e).maxOps == s.maxOps
  {
    KeepsApart(s, e);
    KeepsCounted(s, e);
    KeepsGuarded(s, e);
  }

  lemma {:induction false} Kept(s: State, es: seq<Event>, t: State)
    requires Inv(s) && Leads(Next, s, es, t)
    ensures Inv(t) && t.maxOps == s.maxOps
    decreases |es|
  {
    if es != [] {
      KeepsInv(s, es[0]);
      Kept(Next(s, es[0]), es[1..], t);
    }
  }

  lemma Always(maxOps: nat, es: seq<Event>, s: State)
    requires Run(maxOps, es, s)
    ensures Inv(s) && s.maxOps == maxOps
  {
    Kept(Start(maxOps), es, s);
  }

  /** Never more than maxOps operations are admitted and not completed. */
  lemma Bounded(maxOps: nat, es: seq<Event>, s: State)
    requires Run(maxOps, es, s)
    ensures Monitored(s) <= maxOps && |s.operations| <= maxOps
    ensures s.count == Monitored(s) + |s.over|
  {
    Always(maxOps, es, s);
  }

  /** A send under the read lock finds room in the channel, and the channel open. */
  lemma SendsNeverBlock(maxOps: nat, es: seq<Event>, s: State)
    requires Run(maxOps, es, s)
    ensures forall op :: op in s.admitted ==> Enabled(s, Send(op)) && !s.chanClosed
    ensures s.watching.Again? ==> Enabled(s, SendAgain) && !s.chanClosed
  {
    Always(maxOps, es, s);
  }

  // ---- the lock is given back ------------------------------------------------------------------------

  /** Whoever is inside the lock can always go on. */
  lemma ReadersGoOn(s: State)
    requires Inv(s) && !ReadersOut(s)
    ensures exists e :: Inside(e) && Enabled(s, e)
  {
    if op :| op in s.entered {
      var e := if s.closed then FindClosed(op) else FindOpen(op);
      assert Inside(e) && Enabled(s, e);
    } else if op :| op in s.open {
      assert Inside(Increment(op)) && Enabled(s, Increment(op));
    } else if op :| op in s.over {
      assert Inside(Decrement(op)) && Enabled(s, Decrement(op));
    } else if op :| op in s.admitted {
      assert Inside(Send(op)) && Enabled(s, Send(op));
    } else if s.watching.Locked? {
      var e := if s.closed then PutBackClosed else PutBackOpen;
      assert Inside(e) && Enabled(s, e);
    } else {
      assert Inside(SendAgain) && Enabled(s, SendAgain);
    }
  }

  /** A bound on the steps of everybody else while Close waits. */
  function Ahead(s: State): nat
  {
    4 * StepsInside(s) + 2 * |s.operations| + if s.watching.Has? then 1 else 0
  }

  lemma AheadShrinks(s: State, e: Event)
    requires Inv(s) && s.closing.Waiting? && Enabled(s, e) && !e.Lock?
    ensures Ahead(Next(s, e)) < Ahead(s) && Next(s, e).closing.Waiting?
  {
    if Inside(e) { KeepsCounted(s, e); }
  }

  /** While Close waits for the lock no schedule that does not give it the lock is longer than this. */
  lemma {:induction false} WaitingEnds(s: State, es: seq<Event>, t: State)
    requires Inv(s) && s.closing.Waiting? && Leads(Next, s, es, t) && Lock !in es
    ensures |es| + Ahead(t) <= Ahead(s) && Inv(t) && t.closing.Waiting?
    decreases |es|
  {
    if es != [] {
      AheadShrinks(s, es[0]);
      KeepsInv(s, es[0]);
      WaitingEnds(Next(s, es[0]), es[1..], t);
    }
  }

  /**
    Close gets the lock: in any run in which it waits, the others can take only so many steps, and
    when none of them can take one more the lock is free.
   */
  lemma CloseGetsLock(maxOps: nat, run: seq<Event>, s: State, es: seq<Event>, t: State)
    requires Run(maxOps, run, s) && s.closing.Waiting? && Leads(Next, s, es, t) && Lock !in es
    ensures |es| <= Ahead(s)
    ensures (forall e :: e != Lock ==> !Enabled(t, e)) ==> Enabled(t, Lock)
    ensures ReadersOut(t) <==> Enabled(t, Lock)
  {
    Always(maxOps, run, s);
    WaitingEnds(s, es, t);
    if !ReadersOut(t) { ReadersGoOn(t); }
  }

  /** Once the channel is closed nobody is on the way to sending. */
  lemma NothingSentOnClosed(maxOps: nat, es: seq<Event>, s: State, e: Event)
    requires Run(maxOps, es, s) && s.chanClosed && Enabled(s, e)
    ensures !e.Send? && !e.SendAgain? && |Next(s, e).operations| <= |s.operations|
  {
    Always(maxOps, es, s);
  }

  // ---- who is turned away ------------------------------------------------------------------------------

  /** Exactly when maxOps callers and operations are counted, those being turned away included. */
  lemma TurnedAway(maxOps: nat, es: seq<Event>, s: State, op: Op)
    requires Run(maxOps, es, s) && op in s.open
    ensures op in Next(s, Increment(op)).over <==> Monitored(s) + |s.over| >= maxOps
    ensures op in Next(s, Increment(op)).admitted <==> Monitored(s) + |s.over| < maxOps
  {
    Always(maxOps, es, s);
  }

  /** Hence a caller can be turned away although nothing is monitored. */
  lemma TurnedAwayFromEmpty() returns (es: seq<Event>, s: State)
    ensures Run(1, es, s) && 3 in s.open && Monitored(s) == 0 && 3 in Next(s, Increment(3)).over
  {
    es, s := OneMonitoredOneLeaving();
    es, s := Extended(1, es, s, Receive);
    es, s := Extended(1, es, s, Complete);
    es, s := Extended(1, es, s, Enter(3));
    es, s := Extended(1, es, s, FindOpen(3));
  }

  lemma OneMonitored() returns (es: seq<Event>, s: State)
    ensures Run(1, es, s) && s == Start(1).(count := 1, operations := [1])
  {
    es, s := [], Start(1);
    es, s := Joins(1, es, s, 1);
    es, s := Extended(1, es, s, Send(1));
  }

  lemma OneMonitoredOneLeaving() returns (es: seq<Event>, s: State)
    ensures Run(1, es, s) && s == Start(1).(count := 2, operations := [1], over := {2})
  {
    es, s := OneMonitored();
    es, s := Joins(1, es, s, 2);
  }

  lemma Joins(maxOps: nat, es: seq<Event>, s: State, op: Op) returns (es': seq<Event>, s': State)
    requires Run(maxOps, es, s) && Enabled(s, Enter(op)) && !s.closed
    ensures Run(maxOps, es', s') && es <= es'
    ensures s' == if s.count + 1 > s.maxOps then s.(over := s.over + {op}, count := s.count + 1)
                  else s.(admitted := s.admitted + {op}, count := s.count + 1)
  {
    es', s' := Extended(maxOps, es, s, Enter(op));
    es', s' := Extended(maxOps, es', s', FindOpen(op));
    es', s' := Extended(maxOps, es', s', Increment(op));
    assert s.entered + {op} - {op} == s.entered && s.open + {op} - {op} == s.open;
  }

  lemma Extended(maxOps: nat, es: seq<Event>, s: State, e: Event) returns (es': seq<Event>, s': State)
    requires Run(maxOps, es, s) && Enabled(s, e)
    ensures s' == Next(s, e) && es' == es + [e] && Run(maxOps, es', s')
  {
    es', s' := es + [e], Next(s, e);
    Last(s, e);
    LeadsOn(Next, Start(maxOps), es, s, [e], s');
  }

  // ---- the procedures, each run without interruption -----------------------------------------------------

  class OperationsMonitor {
    const maxOps: nat
    var currOpsCount: int
    var closed: bool
    var operations: seq<Op>
    var chanClosed: bool
    ghost var dropped: set<Op>

    /** The state while no procedure is under way. */
    ghost function Abs(): State
      reads this
    {
      Start(maxOps).(count := currOpsCount, closed := closed, operations := operations, chanClosed := chanClosed,
                     dropped := dropped)
    }

    constructor (max: nat)
      ensures Abs() == Start(max)
    {
      maxOps, currOpsCount, closed, operations, chanClosed, dropped := max, 0, false, [], false, {};
    }

    /** AddOperation: refused when the monitor is closed or full. */
    method AddOperation(op: Op, ghost es: seq<Event>) returns (added: bool, ghost more: seq<Event>)
      requires Run(maxOps, es, Abs()) && Fresh(Abs(), op)
      modifies this`currOpsCount, this`operations
      ensures Run(maxOps, es + more, Abs()) && (added <==> !closed && old(currOpsCount) < maxOps)
      ensures operations == (if added then old(operations) + [op] else old(operations))
    {
      more := RunAdds(maxOps, es, Abs(), op);
      if closed { return false, more; }
      currOpsCount := currOpsCount + 1;
      if currOpsCount > maxOps {
        currOpsCount := currOpsCount - 1;
        return false, more;
      }
      operations := operations + [op];
      return true, more;
    }

    /** One turn of the monitor: the oldest operation is completed or goes to the back. */
    method HandleOperation(isDone: bool, ghost es: seq<Event>) returns (ghost more: seq<Event>)
      requires Run(maxOps, es, Abs()) && operations != []
      modifies this`currOpsCount, this`operations, this`dropped
      ensures Run(maxOps, es + more, Abs())
      ensures currOpsCount == old(currOpsCount) - (if isDone then 1 else 0)
      ensures operations == old(operations)[1..] + (if isDone || closed then [] else [old(operations)[0]])
    {
      more := RunTurns(maxOps, es, Abs(), isDone);
      var op := operations[0];
      operations := operations[1..];
      assert operations + [] == operations;
      if isDone {
        currOpsCount := currOpsCount - 1;
      } else if closed {
        dropped := dropped + {op};
      } else {
        operations := operations + [op];
      }
    }

    /** Close: the flag and the channel, under the write lock; a second call does nothing. */
    method Close(ghost es: seq<Event>) returns (ghost more: seq<Event>)
      requires Run(maxOps, es, Abs())
      modifies this`closed, this`chanClosed
      ensures Run(maxOps, es + more, Abs()) && closed && (old(!closed) ==> chanClosed)
      ensures old(closed) ==> chanClosed == old(chanClosed)
    {
      more := RunCloses(maxOps, es, Abs());
      if !closed { closed, chanClosed := true, true; }
    }
  }

  lemma After(s: State, e: Event, es: seq<Event>, t: State)
    requires Enabled(s, e) && Leads(Next, Next(s, e), es, t)
    ensures Leads(Next, s, [e] + es, t)
  {
    assert ([e] + es)[1..] == es;
  }

  lemma Last(s: State, e: Event)
    requires Enabled(s, e)
    ensures Leads(Next, s, [e], Next(s, e))
  {
    assert [e][1..] == [];
  }

  /** A call of AddOperation on a closed monitor. */
  lemma Refuses(s: State, op: Op) returns (more: seq<Event>)
    requires Enabled(s, Enter(op)) && s.closed
    ensures Leads(Next, s, more, s)
  {
    var s1 := Next(s, Enter(op));
    assert Next(s1, FindClosed(op)).entered == s.entered;
    Last(s1, FindClosed(op));
    After(s, Enter(op), [FindClosed(op)], s);
    more := [Enter(op)] + [FindClosed(op)];
  }

  /** The end of a call of AddOperation that found the monitor open. */
  lemma Counts(s: State, op: Op) returns (more: seq<Event>)
    requires Inv(s) && ReadersOut(s)
    requires !s.closed
    ensures Leads(Next, s.(open := {op}), more, Added(s, op))
  {
    var s1 := s.(open := {op});
    var s2 := Next(s1, Increment(op));
    var e := if s.count + 1 > s.maxOps then Decrement(op) else Send(op);
    assert {op} - {op} == {} && {} + {op} == {op};
    Last(s2, e);
    After(s1, Increment(op), [e], Next(s2, e));
    more := [Increment(op)] + [e];
  }

  /** What a call of AddOperation makes of the state. */
  function Added(s: State, op: Op): State
  {
    if !s.closed && s.count < s.maxOps then s.(count := s.count + 1, operations := s.operations + [op]) else s
  }

  lemma RunAdds(maxOps: nat, es: seq<Event>, s: State, op: Op) returns (more: seq<Event>)
    requires Run(maxOps, es, s) && ReadersOut(s) && Enabled(s, Enter(op))
    ensures Run(maxOps, es + more, Added(s, op))
  {
    Always(maxOps, es, s);
    if s.closed { more := Refuses(s, op); } else { more := Adds(s, op); }
    LeadsOn(Next, Start(maxOps), es, s, more, Added(s, op));
  }

  lemma RunTurns(maxOps: nat, es: seq<Event>, s: State, isDone: bool) returns (more: seq<Event>)
    requires Run(maxOps, es, s) && s.watching.Free? && WriterOut(s) && s.operations != []
    ensures Run(maxOps, es + more, Turned(s, isDone))
  {
    Always(maxOps, es, s);
    more := Turns(s, isDone);
    LeadsOn(Next, Start(maxOps), es, s, more, Turned(s, isDone));
  }

  lemma RunCloses(maxOps: nat, es: seq<Event>, s: State) returns (more: seq<Event>)
    requires Run(maxOps, es, s) && WriterOut(s) && ReadersOut(s)
    ensures Run(maxOps, es + more, if s.closed then s else s.(closed := true, chanClosed := true))
  {
    more := Closes(s);
    LeadsOn(Next, Start(maxOps), es, s, more, if s.closed then s else s.(closed := true, chanClosed := true));
  }

  lemma Adds(s: State, op: Op) returns (more: seq<Event>)
    requires Inv(s) && ReadersOut(s) && Enabled(s, Enter(op)) && !s.closed
    ensures Leads(Next, s, more, Added(s, op))
  {
    var t := Added(s, op);
    var rest := Counts(s, op);
    var s1 := Next(s, Enter(op));
    assert {} + {op} == {op} && {op} - {op} == {};
    assert Next(s1, FindOpen(op)) == s.(open := {op});
    After(s1, FindOpen(op), rest, t);
    After(s, Enter(op), [FindOpen(op)] + rest, t);
    more := [Enter(op)] + ([FindOpen(op)] + rest);
  }

  /** What a turn of the monitor makes of the state. */
  function Turned(s: State, isDone: bool): State
    requires s.operations != []
  {
    var op, rest := s.operations[0], s.operations[1..];
    if isDone then s.(operations := rest, count := s.count - 1)
    else if s.closed then s.(operations := rest, dropped := s.dropped + {op})
    else s.(operations := rest + [op])
  }

  lemma Turns(s: State, isDone: bool) returns (more: seq<Event>)
    requires Counted(s) && s.watching.Free? && WriterOut(s) && s.operations != []
    ensures Leads(Next, s, more, Turned(s, isDone))
  {
    var s1 := Next(s, Receive);
    if isDone {
      Last(s1, Complete);
      After(s, Receive, [Complete], Turned(s, isDone));
      more := [Receive] + [Complete];
    } else {
      var rest := PutsBack(s1);
      After(s, Receive, rest, Turned(s, isDone));
      more := [Receive] + rest;
    }
  }

  lemma PutsBack(s: State) returns (more: seq<Event>)
    requires s.watching.Has? && WriterOut(s) && |s.operations| < s.maxOps
    ensures Leads(Next, s, more,
                  if s.closed then s.(watching := Free, dropped := s.dropped + {s.watching.op})
                  else s.(watching := Free, operations := s.operations + [s.watching.op]))
  {
    var s1 := Next(s, PutBack);
    if s.closed {
      Last(s1, PutBackClosed);
      After(s, PutBack, [PutBackClosed], Next(s1, PutBackClosed));
      more := [PutBack] + [PutBackClosed];
    } else {
      var s2 := Next(s1, PutBackOpen);
      Last(s2, SendAgain);
      After(s1, PutBackOpen, [SendAgain], Next(s2, SendAgain));
      After(s, PutBack, [PutBackOpen] + [SendAgain], Next(s2, SendAgain));
      more := [PutBack] + ([PutBackOpen] + [SendAgain]);
    }
  }

  lemma Closes(s: State) returns (more: seq<Event>)
    requires WriterOut(s) && ReadersOut(s)
    ensures Leads(Next, s, more, if s.closed then s else s.(closed := true, chanClosed := true))
  {
    var s1 := Next(s, Ask);
    var s2 := Next(s1, Lock);
    var rest, t;
    if s.closed {
      Last(s2, CloseAgain);
      rest, t := [CloseAgain], Next(s2, CloseAgain);
    } else {
      var s3 := Next(s2, Flag);
      Last(s3, CloseChannel);
      After(s2, Flag, [CloseChannel], Next(s3, CloseChannel));
      rest, t := [Flag] + [CloseChannel], Next(s3, CloseChannel);
    }
    After(s1, Lock, rest, t);
    After(s, Ask, [Lock] + rest, t);
    more := [Ask] + ([Lock] + rest);
  }
}
