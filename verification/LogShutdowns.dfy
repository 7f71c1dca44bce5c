/** What the log pipeline guarantees: over every run, and when the log task is told to stop. */
module LogShutdowns {
  import opened FifoQueues
  import opened QueueSteps
  import opened LogPipelines

  /**
   * Nothing accepted is ever lost, duplicated or reordered: in every reachable state the accepted
   * messages are those printed, then the one in the log task's hands, then those in the byte queue.
   * No statement ever leaves the buffer, and no read of the eventfd ever finds it empty.
   */
  lemma NothingLost(memory: seq<byte>, itemSize: nat, capacity: nat, threads: nat, start: int, sched: seq<Action>)
    requires |memory| == Offset(itemSize, capacity)
    requires IsRun(Init(memory, itemSize, capacity, threads, start), sched)
    ensures var s := After(Init(memory, itemSize, capacity, threads, start), sched);
      && Shape(s) && !s.fault && Consistent(s.q, Current(s))
      && Bytes(s.accepted) == s.printed + InHand(s) + Stored(s.q, Current(s))
  {
    InitInv(memory, itemSize, capacity, threads, start);
    RunInv(Init(memory, itemSize, capacity, threads, start), sched);
  }

  /**
   * Whenever the lock is free the descriptor is readable exactly when the queue is not empty, and a
   * receive that follows a poll which reported data never comes back empty.
   */
  lemma PollIsExact(memory: seq<byte>, itemSize: nat, capacity: nat, threads: nat, start: int, sched: seq<Action>)
    requires |memory| == Offset(itemSize, capacity)
    requires IsRun(Init(memory, itemSize, capacity, threads, start), sched)
    ensures var s := After(Init(memory, itemSize, capacity, threads, start), sched);
      && Shape(s)
      && (s.lock.None? ==> s.q.Valid() && (s.q.eventFd > 0 <==> s.q.Contents() != []))
      && !(s.log == Receive(true) && s.calls[0].Receiving? && s.calls[0].recvPc == Received(false))
  {
    InitInv(memory, itemSize, capacity, threads, start);
    RunInv(Init(memory, itemSize, capacity, threads, start), sched);
  }

  /** Somebody other than thread t is inside the queue's critical section. */
  ghost predicate OtherInside(s: State, t: nat) {
    exists u :: 0 <= u < |s.calls| && u != t && Inside(s.calls[u])
  }

  lemma LockBlocks(s: State, t: nat)
    requires LockInv(s) && t < |s.calls| && !Inside(s.calls[t])
    ensures s.lock.Some? <==> OtherInside(s, t)
  {
    if s.lock.Some? { InsideIsHolder(s); }
  }

  lemma InsideIsHolder(s: State)
    requires LockInv(s) && s.lock.Some?
    ensures Inside(s.calls[s.lock.value])
  {}

  /**
   * What keeps a thread waiting: logging waits only for somebody else who is inside the queue's critical
   * section, and never for the log task to run or to be stopped; so does the log task until it exits.
   */
  lemma WaitsIff(memory: seq<byte>, itemSize: nat, capacity: nat, threads: nat, start: int, sched: seq<Action>)
    requires |memory| == Offset(itemSize, capacity)
    requires IsRun(Init(memory, itemSize, capacity, threads, start), sched)
    ensures var s := After(Init(memory, itemSize, capacity, threads, start), sched);
      && Shape(s)
      && (forall t: nat, b: Record | 0 < t < |s.calls| && |b| == s.q.itemSize ::
            Enabled(s, Begin(t, b)) <==> s.calls[t].Idle?)
      && (forall t: nat | 0 < t < |s.calls| && !s.calls[t].Idle? ::
            !Enabled(s, Step(t)) <==> s.calls[t].SendLock? && OtherInside(s, t))
      && (forall b: Record, fails: bool | |b| == s.q.itemSize ::
            !Enabled(s, Log(b, fails)) <==>
              s.log.Exited? || ((s.calls[0].SendLock? || s.calls[0].RecvLock?) && OtherInside(s, 0)))
      && (Enabled(s, Stop) <==> !s.stopped) && forall span: nat :: Enabled(s, Tick(span))
  {
    InitInv(memory, itemSize, capacity, threads, start);
    RunInv(Init(memory, itemSize, capacity, threads, start), sched);
    var s := After(Init(memory, itemSize, capacity, threads, start), sched);
    forall t: nat | t < |s.calls| && !Inside(s.calls[t]) ensures s.lock.Some? <==> OtherInside(s, t) { LockBlocks(s, t); }
  }

  // The drain -------------------------------------------------------------------------------------------

  predicate SendersIdle(s: State) {
    forall t | 0 < t < |s.calls| :: s.calls[t].Idle?
  }

  /** The log task has found the queue empty for the last time. */
  predicate DrainOver(s: State) {
    || s.log.Signal? || s.log.Exited?
    || (s.log.Drain? && s.calls != [] && s.calls[0].Receiving? && s.calls[0].recvPc == Received(false))
  }

  /** No thread but the log task starts a message. */
  predicate NoSends(sched: seq<Action>) {
    forall a | a in sched :: !a.Begin?
  }

  ghost predicate QuietInv(s: State) {
    && Inv(s) && SendersIdle(s)
    && (DrainOver(s) ==> s.printed == Bytes(s.accepted))
  }

  /** The receive that finds the queue empty has found every accepted message printed. */
  lemma LastCheck(s: State)
    requires LockInv(s) && StreamInv(s) && ControlInv(s) && s.calls[0].Receiving? && s.calls[0].recvPc.Test?
    requires Receiving(Received(false), s.calls[0].item) == RecvOn(s).calls[0]
    ensures s.printed == Bytes(s.accepted)
  {
    OwnerIs(s, 0);
    RecvSettles(s.q, Test, s.calls[0].item);
  }

  lemma StillOver(s: State, a: Action)
    requires Shape(s) && ControlInv(s) && DrainOver(s) && Enabled(s, a)
    ensures DrainOver(Next(s, a)) && Next(s, a).printed == s.printed && s.accepted <= Next(s, a).accepted
    ensures SendersIdle(s) && !a.Begin? ==> Next(s, a).accepted == s.accepted
  {}

  lemma DrainEnds(s: State, a: Action)
    requires Shape(s) && ControlInv(s) && !DrainOver(s) && Enabled(s, a) && DrainOver(Next(s, a))
    ensures a.Log? && s.log.Drain? && s.calls[0].Receiving? && s.calls[0].recvPc.Test?
    ensures Receiving(Received(false), s.calls[0].item) == RecvOn(s).calls[0]
    ensures Next(s, a).printed == s.printed && Next(s, a).accepted == s.accepted
  {}

  lemma StillIdle(s: State, a: Action)
    requires SendersIdle(s) && Enabled(s, a) && !a.Begin?
    ensures SendersIdle(Next(s, a))
  {
    if a.Log? { LogLeavesIdle(s, a.own, a.fails); }
  }

  lemma LogLeavesIdle(s: State, own: Record, fails: bool)
    requires Enabled(s, Log(own, fails))
    ensures var s' := Next(s, Log(own, fails));
      |s'.calls| == |s.calls| && forall t | 0 < t < |s.calls| :: s'.calls[t] == s.calls[t]
  {
    if s.calls[0].Receiving? {
      ReceiveLeavesIdle(s);
    } else if s.calls[0].Sending? {
      SendLeavesIdle(s);
    }
  }

  lemma ReceiveLeavesIdle(s: State)
    requires s.calls != [] && s.calls[0].Receiving?
    ensures |RecvOn(s).calls| == |s.calls| && forall t | 0 < t < |s.calls| :: RecvOn(s).calls[t] == s.calls[t]
  {}

  lemma SendLeavesIdle(s: State)
    requires s.calls != [] && s.calls[0].Sending?
    ensures |SendOn(s, 0).calls| == |s.calls| && forall t | 0 < t < |s.calls| :: SendOn(s, 0).calls[t] == s.calls[t]
  {}

  lemma QuietNext(s: State, a: Action)
    requires QuietInv(s) && Enabled(s, a) && !a.Begin?
    ensures QuietInv(Next(s, a))
  {
    NextInv(s, a);
    StillIdle(s, a);
    if DrainOver(s) {
      StillOver(s, a);
    } else if DrainOver(Next(s, a)) {
      DrainEnds(s, a);
      LastCheck(s);
    }
  }

  // Progress: the log task is never blocked and counts down ----------------------------------------------

  /** An upper bound on the statements the log task executes until it exits, apart from the queue's content. */
  function Weight(log: LogPc, c: Call): nat {
    match c
    case SendLock(_) => if log.Loop? then 41 else 22
    case Sending(pc, _) =>
      (if log.Loop? then 19 else 0)
      + (match pc case Check => 21 case CopyIn => 20 case MoveHead => 10 case IncCount => 9 case Notify => 8 case Sent(_) => 7)
    case RecvLock => if log.Drain? then 4 else 28
    case Receiving(pc, _) =>
      (if log.Drain? then 0 else 24)
      + (match pc case Test => 3 case CopyOut => 2 case MoveTail => 10 case DecCount => 9 case Consume => 8
         case Received(ok) => if ok then 7 else 2)
    case Idle => match log
      case Hello => 42 case Loop => 25 case Poll => 30 case Receive(_) => 29 case Print => 30
      case SetRunning => 24 case Farewell => 23 case ClearRunning => 6 case Drain => 5 case PrintDrained => 6
      case Signal => 1 case Exited => 0
  }

  /** Nine statements for each message accepted but not taken from the queue, and those of the phase. */
  function Rank(s: State): int
    requires Shape(s)
  {
    9 * (|s.accepted| - |s.printed| - |InHand(s)|) + Weight(s.log, s.calls[0])
  }

  lemma SendRank(s: State)
    requires Shape(s) && ControlInv(s) && Sends(s.calls[0]) && !Proceed(s, 0).fault
    ensures Rank(Proceed(s, 0)) < Rank(s)
  {}

  lemma ReceiveRank(s: State)
    requires Shape(s) && ControlInv(s) && s.stopped && Receives(s.calls[0]) && !Proceed(s, 0).fault
    ensures Rank(Proceed(s, 0)) < Rank(s)
  {}

  lemma LogStepRank(s: State, own: Record, fails: bool)
    requires Shape(s) && ControlInv(s) && s.stopped && s.calls[0].Idle? && !s.log.Exited?
    ensures Rank(LogStep(s, own, fails)) < Rank(s)
  {}

  lemma RankDecreases(s: State, own: Record, fails: bool)
    requires Shape(s) && ControlInv(s) && s.stopped && Enabled(s, Log(own, fails)) && !Next(s, Log(own, fails)).fault
    ensures Shape(Next(s, Log(own, fails))) && Rank(Next(s, Log(own, fails))) < Rank(s)
  {
    if Sends(s.calls[0]) { SendRank(s); }
    else if Receives(s.calls[0]) { ReceiveRank(s); }
    else { LogStepRank(s, own, fails); }
  }

  lemma LogUnblocked(s: State, own: Record, fails: bool)
    requires LockInv(s) && SendersIdle(s) && s.log != Exited && |own| == s.q.itemSize
    ensures Enabled(s, Log(own, fails))
  {
    assert s.lock.Some? ==> Inside(s.calls[s.lock.value]);
  }

  /** The rank counts the queue's content; it is 0 only at the end. */
  lemma RankBounds(s: State)
    requires Shape(s) && StreamInv(s) && ControlInv(s)
    ensures Rank(s) == 9 * |Stored(s.q, Current(s))| + Weight(s.log, s.calls[0])
    ensures 0 <= Rank(s) <= 9 * s.q.capacity + 42
    ensures Rank(s) == 0 ==> s.doneFd == 1
  {
    assert |Bytes(s.accepted)| == |s.accepted|;
  }

  function LogSteps(sched: seq<Action>): nat {
    if sched == [] then 0 else (if sched[0].Log? then 1 else 0) + LogSteps(sched[1..])
  }

  lemma {:induction false} QuietRun(s: State, sched: seq<Action>)
    requires QuietInv(s) && IsRun(s, sched) && NoSends(sched)
    ensures QuietInv(After(s, sched))
    decreases |sched|
  {
    if sched != [] {
      QuietNext(s, sched[0]);
      QuietRun(Next(s, sched[0]), sched[1..]);
    }
  }

  lemma RankOfNext(s: State, a: Action)
    requires Shape(s) && ControlInv(s) && s.stopped && SendersIdle(s) && Enabled(s, a) && !a.Begin? && !Next(s, a).fault
    ensures Next(s, a).stopped && Shape(Next(s, a))
    ensures Rank(Next(s, a)) <= Rank(s) - if a.Log? then 1 else 0
  {
    if a.Log? { RankDecreases(s, a.own, a.fails); }
  }

  lemma {:induction false} RankRun(s: State, sched: seq<Action>)
    requires QuietInv(s) && s.stopped && IsRun(s, sched) && NoSends(sched)
    ensures QuietInv(After(s, sched)) && LogSteps(sched) + Rank(After(s, sched)) <= Rank(s)
    decreases |sched|
  {
    if sched != [] {
      QuietNext(s, sched[0]);
      RankOfNext(s, sched[0]);
      RankRun(Next(s, sched[0]), sched[1..]);
    }
  }

  /**
   * If from some moment before the end of the drain only the log task logs, then by the time it
   * signals completion every accepted message has been printed, in order.
   */
  lemma DrainedWhenDone(memory: seq<byte>, itemSize: nat, capacity: nat, threads: nat, start: int,
                        before: seq<Action>, after: seq<Action>)
    requires |memory| == Offset(itemSize, capacity)
    requires IsRun(Init(memory, itemSize, capacity, threads, start), before)
    requires var s := After(Init(memory, itemSize, capacity, threads, start), before);
      SendersIdle(s) && !DrainOver(s) && IsRun(s, after) && NoSends(after)
    ensures var s := After(After(Init(memory, itemSize, capacity, threads, start), before), after);
      s.doneFd > 0 ==> s.printed == Bytes(s.accepted)
  {
    InitInv(memory, itemSize, capacity, threads, start);
    RunInv(Init(memory, itemSize, capacity, threads, start), before);
    QuietRun(After(Init(memory, itemSize, capacity, threads, start), before), after);
  }

  /**
   * Once log_task_stop has been called and only the log task logs, it signals completion after a
   * number of its own statements bounded by the queue's content, although it sets the flag back to 1
   * and queues a message of its own on the way; until then it always has an enabled statement.
   */
  lemma DrainTerminates(memory: seq<byte>, itemSize: nat, capacity: nat, threads: nat, start: int,
                        before: seq<Action>, after: seq<Action>)
    requires |memory| == Offset(itemSize, capacity)
    requires IsRun(Init(memory, itemSize, capacity, threads, start), before)
    requires var s := After(Init(memory, itemSize, capacity, threads, start), before);
      SendersIdle(s) && s.stopped && !DrainOver(s) && IsRun(s, after) && NoSends(after)
    ensures var s := After(Init(memory, itemSize, capacity, threads, start), before);
      var s' := After(s, after);
      && Shape(s)
      && LogSteps(after) <= Rank(s) <= 9 * s.q.capacity + 42
      && (LogSteps(after) == Rank(s) ==> s'.doneFd == 1 && s'.printed == Bytes(s'.accepted))
      && (s'.doneFd == 0 ==> forall own: Record, fails: bool | |own| == s'.q.itemSize :: Enabled(s', Log(own, fails)))
  {
    InitInv(memory, itemSize, capacity, threads, start);
    RunInv(Init(memory, itemSize, capacity, threads, start), before);
    var s := After(Init(memory, itemSize, capacity, threads, start), before);
    QuietDrains(s, after);
    var s' := After(s, after);
    forall own: Record, fails: bool | s'.doneFd == 0 && |own| == s'.q.itemSize ensures Enabled(s', Log(own, fails)) {
      LogUnblocked(s', own, fails);
    }
  }

  lemma QuietDrains(s: State, after: seq<Action>)
    requires QuietInv(s) && s.stopped && IsRun(s, after) && NoSends(after)
    ensures LogSteps(after) <= Rank(s) <= 9 * s.q.capacity + 42
    ensures LogSteps(after) == Rank(s) ==> After(s, after).doneFd == 1
    ensures After(s, after).doneFd == 1 ==> After(s, after).printed == Bytes(After(s, after).accepted)
    ensures LockInv(After(s, after)) && SendersIdle(After(s, after))
    ensures After(s, after).doneFd == 0 ==> After(s, after).log != Exited
  {
    RankRun(s, after);
    RankBounds(s);
    RankBounds(After(s, after));
  }

  /** Nothing is printed after the drain has found the queue empty. */
  lemma {:induction false} PrintingIsOver(s: State, sched: seq<Action>)
    requires Inv(s) && DrainOver(s) && IsRun(s, sched)
    ensures After(s, sched).printed == s.printed && s.accepted <= After(s, sched).accepted
    decreases |sched|
  {
    if sched != [] {
      NextInv(s, sched[0]);
      StillOver(s, sched[0]);
      PrintingIsOver(Next(s, sched[0]), sched[1..]);
    }
  }

  /**
   * The exact limit of the guarantee: at the drain's last check everything accepted so far has been
   * printed, and whatever happens afterwards, printed and accepted still agree if and only if no
   * message has been accepted since.
   */
  lemma LostExactlyIfLate(s: State, own: Record, fails: bool, after: seq<Action>)
    requires Inv(s) && s.log.Drain? && s.calls[0].Receiving? && s.calls[0].recvPc.Test? && s.q.count == 0
    requires Enabled(s, Log(own, fails)) && IsRun(Next(s, Log(own, fails)), after)
    ensures var s' := After(Next(s, Log(own, fails)), after);
      && s.printed == Bytes(s.accepted)
      && (s'.printed == Bytes(s'.accepted) <==> s'.accepted == s.accepted)
  {
    OwnerIs(s, 0);
    LastCheck(s);
    NextInv(s, Log(own, fails));
    var s1 := Next(s, Log(own, fails));
    assert s1.accepted == s.accepted && s1.printed == s.printed;
    PrintingIsOver(s1, after);
    var s' := After(s1, after);
    assert |Bytes(s'.accepted)| == |s'.accepted| && |Bytes(s.accepted)| == |s.accepted|;
  }

  /**
   * The warning of ALOG: nobody is warned before log_task_stop, everybody is warned once the drain has
   * begun, and the log task, which sets the flag back for that purpose, is not warned when it
   * announces the drain.
   */
  lemma WarnedWhenLate(memory: seq<byte>, itemSize: nat, capacity: nat, threads: nat, start: int,
                       sched: seq<Action>, a: Action)
    requires |memory| == Offset(itemSize, capacity)
    requires IsRun(Init(memory, itemSize, capacity, threads, start), sched)
    requires var s := After(Init(memory, itemSize, capacity, threads, start), sched);
      Enabled(s, a) && (a.Begin? || (a.Log? && s.calls[0].Idle? && s.log.Farewell?))
    ensures var s := After(Init(memory, itemSize, capacity, threads, start), sched);
      var t := if a.Begin? then a.t else 0;
      var c := Next(s, a).calls[t];
      && c.SendLock?
      && (c.entry.warned ==> s.stopped)
      && (s.log.Drain? || s.log.PrintDrained? || s.log.Signal? || s.log.Exited? ==> c.entry.warned)
      && (a.Log? ==> !c.entry.warned)
  {
    InitInv(memory, itemSize, capacity, threads, start);
    RunInv(Init(memory, itemSize, capacity, threads, start), sched);
  }
}
