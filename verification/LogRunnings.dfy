/** The log task while it runs: it prints what is sent, as it comes, and not only when it is told to stop. */
module LogRunnings {
  import opened Prelude
  import opened FifoQueues
  import opened QueueSteps
  import opened LogPipelines
  import opened LogShutdowns
  import O = LogOvertaking

  /** The number of messages in the queue. */
  ghost function Waiting(s: State): nat
    requires Shape(s) && StreamInv(s)
  {
    |Stored(s.q, Current(s))|
  }

  /**
   * The statements of the log task until it is back at the head of its main loop with the queue empty,
   * when m messages wait in the queue: nine for each of them. With its own first message still to be
   * sent it is an upper bound.
   */
  function Distance(log: LogPc, c: Call, m: nat): nat {
    match c
    case SendLock(_) => 9 * m + 22
    case Sending(pc, _) =>
      9 * m
      + (match pc case Check => 21 case CopyIn => 20 case MoveHead => 10 case IncCount => 9 case Notify => 8 case Sent(_) => 7)
    case RecvLock => 9 * m + 3
    case Receiving(pc, _) => (
      match pc
      case Test => 9 * m + 2
      case CopyOut => 9 * m + 1
      case MoveTail => 9 * m + 9
      case DecCount => 9 * m + 8
      case Consume => 9 * m + 7
      case Received(ok) => if ok then 9 * m + 6 else if m == 0 then 1 else 9 * m + 7)
    case Idle => match log
      case Hello => 9 * m + 23
      case Loop => if m == 0 then 0 else 9 * m + 6
      case Poll => if m == 0 then 1 else 9 * m + 5
      case Receive(_) => 9 * m + 4
      case Print => 9 * m + 5
      case _ => 0
  }

  ghost function Ahead(s: State): nat
    requires Shape(s) && StreamInv(s)
  {
    Distance(s.log, s.calls[0], Waiting(s))
  }

  /** The log task runs, and nobody else is logging. */
  ghost predicate Undisturbed(s: State) { Inv(s) && SendersIdle(s) && !s.stopped }

  /** It is in its main loop, after its own first message. */
  predicate InLoop(s: State) {
    && s.calls != [] && !Sends(s.calls[0])
    && (s.log.Loop? || s.log.Poll? || s.log.Receive? || s.log.Print?)
  }

  lemma LockIsFree(s: State)
    requires LockInv(s) && SendersIdle(s) && !Inside(s.calls[0])
    ensures s.lock.None? && Current(s) == Nobody
  {
    forall t | 0 <= t < |s.calls| ensures s.lock != Some(t) {}
  }

  /** Outside its calls the log task comes one statement closer. */
  lemma LoopStep(s: State, own: Record)
    requires Undisturbed(s) && InLoop(s) && s.calls[0].Idle? && Ahead(s) > 0 && |own| == s.q.itemSize
    ensures var s' := LogStep(s, own, false);
      && Shape(s') && StreamInv(s') && Ahead(s') == Ahead(s) - 1 && InLoop(s')
      && s'.accepted == s.accepted && s'.stopped == s.stopped
  {
    LockIsFree(s);
    LogStepQuiet(s, own, false);
    LockIsFree(LogStep(s, own, false));
  }

  lemma LockStep(s: State)
    requires Undisturbed(s) && InLoop(s) && s.calls[0].RecvLock?
    ensures var s' := Proceed(s, 0);
      Shape(s') && StreamInv(s') && Ahead(s') == Ahead(s) - 1 && InLoop(s')
  {
    LockIsFree(s);
    LockTaken(s, 0);
    OwnerIs(Proceed(s, 0), 0);
  }

  lemma ReturnStep(s: State)
    requires Undisturbed(s) && InLoop(s) && s.calls[0].Receiving? && s.calls[0].recvPc.Received?
    ensures var s' := RecvOn(s);
      Shape(s') && StreamInv(s') && Ahead(s') == Ahead(s) - 1 && InLoop(s')
  {
    RecvOnLock(s);
    OwnerIs(s, 0);
    RecvReturns(s);
  }

  lemma ReceiveStep(s: State)
    requires Undisturbed(s) && InLoop(s) && s.calls[0].Receiving? && !s.calls[0].recvPc.Received?
    ensures var s' := RecvOn(s);
      Shape(s') && StreamInv(s') && Ahead(s') == Ahead(s) - 1 && InLoop(s')
  {
    RecvOnLock(s);
    OwnerIs(s, 0);
    RecvMoves(s);
    RecvSettles(s.q, s.calls[0].recvPc, s.calls[0].item);
  }

  /** One statement of the log task in its loop. */
  lemma LapStep(s: State, own: Record)
    requires Undisturbed(s) && InLoop(s) && Ahead(s) > 0 && |own| == s.q.itemSize
    ensures Enabled(s, Log(own, false))
    ensures var s' := Next(s, Log(own, false));
      && Undisturbed(s') && InLoop(s') && Ahead(s') == Ahead(s) - 1
      && s'.accepted == s.accepted && s'.q.itemSize == s.q.itemSize
  {
    var a := Log(own, false);
    LogUnblocked(s, own, false);
    QuietLeaves(s, a);
    if s.calls[0].Idle? { LoopStep(s, own); }
    else if s.calls[0].RecvLock? { LockStep(s); }
    else if s.calls[0].recvPc.Received? { ReturnStep(s); }
    else { ReceiveStep(s); }
  }

  lemma QuietLeaves(s: State, a: Action)
    requires Undisturbed(s) && Enabled(s, a) && !a.Begin? && !a.Stop?
    ensures Undisturbed(Next(s, a)) && Next(s, a).q.itemSize == s.q.itemSize && s.accepted <= Next(s, a).accepted
    ensures !Sends(s.calls[0]) && !s.log.Hello? && !s.log.Farewell? ==> Next(s, a).accepted == s.accepted
  {
    NextInv(s, a);
    StillIdle(s, a);
    if a.Log? { LogLeaves(s, a.own, a.fails); }
  }

  lemma LogLeaves(s: State, own: Record, fails: bool)
    requires Enabled(s, Log(own, fails)) && SendersIdle(s)
    ensures var s' := Next(s, Log(own, fails));
      && s'.stopped == s.stopped && s'.q.itemSize == s.q.itemSize && s.accepted <= s'.accepted
      && (!Sends(s.calls[0]) && !s.log.Hello? && !s.log.Farewell? ==> s'.accepted == s.accepted)
  {
    if s.calls[0].Sending? { SendLeaves(s); } else if s.calls[0].Receiving? { ReceiveLeaves(s); }
  }

  lemma SendLeaves(s: State)
    requires s.calls != [] && s.calls[0].Sending?
    ensures SendOn(s, 0).stopped == s.stopped && SendOn(s, 0).q.itemSize == s.q.itemSize
    ensures s.accepted <= SendOn(s, 0).accepted
  {}

  lemma ReceiveLeaves(s: State)
    requires s.calls != [] && s.calls[0].Receiving?
    ensures RecvOn(s).stopped == s.stopped && RecvOn(s).q.itemSize == s.q.itemSize && RecvOn(s).accepted == s.accepted
  {}

  /** The log task has composed its own first message, or is sending it. */
  lemma HelloStep(s: State, own: Record)
    requires Undisturbed(s) && s.log.Hello? && s.calls[0].Idle? && |own| == s.q.itemSize
    ensures var s' := LogStep(s, own, false);
      Shape(s') && StreamInv(s') && Ahead(s') < Ahead(s)
  {
    LockIsFree(s);
    LogStepQuiet(s, own, false);
    LockIsFree(LogStep(s, own, false));
  }

  lemma TakeStep(s: State)
    requires Undisturbed(s) && s.calls[0].SendLock?
    ensures var s' := Proceed(s, 0); Shape(s') && StreamInv(s') && Ahead(s') < Ahead(s)
  {
    LockIsFree(s);
    LockTaken(s, 0);
    OwnerIs(Proceed(s, 0), 0);
  }

  lemma SendStepCloser(s: State)
    requires Undisturbed(s) && s.calls[0].Sending? && !s.calls[0].sendPc.Sent?
    ensures var s' := SendOn(s, 0); Shape(s') && StreamInv(s') && Ahead(s') < Ahead(s)
  {
    SendOnLock(s, 0);
    OwnerIs(s, 0);
    SendOnStream(s, 0);
    SendSettles(s.q, s.calls[0].sendPc, s.calls[0].entry.bytes);
  }

  lemma SentCloser(s: State)
    requires Undisturbed(s) && s.calls[0].Sending? && s.calls[0].sendPc.Sent?
    ensures var s' := SendOn(s, 0); Shape(s') && StreamInv(s') && Ahead(s') < Ahead(s)
  {
    SendOnLock(s, 0);
    OwnerIs(s, 0);
    SendOnStream(s, 0);
  }

  /** Every statement of the log task brings it closer, until it has caught up. */
  lemma AheadDecreases(s: State, own: Record)
    requires Undisturbed(s) && Ahead(s) > 0 && |own| == s.q.itemSize
    ensures Enabled(s, Log(own, false))
    ensures var s' := Next(s, Log(own, false));
      Undisturbed(s') && Ahead(s') < Ahead(s) && s'.q.itemSize == s.q.itemSize && s.accepted <= s'.accepted
  {
    LogUnblocked(s, own, false);
    QuietLeaves(s, Log(own, false));
    if s.calls[0].Idle? && s.log.Hello? { HelloStep(s, own); }
    else if s.calls[0].SendLock? { TakeStep(s); }
    else if s.calls[0].Sending? {
      if s.calls[0].sendPc.Sent? { SentCloser(s); } else { SendStepCloser(s); }
    }
    else { LapStep(s, own); }
  }

  /** The log task is at the head of its main loop, and everything accepted has been printed. */
  ghost predicate CaughtUp(s: State) {
    s.calls != [] && s.log.Loop? && s.calls[0].Idle? && s.lock.None? && s.printed == Bytes(s.accepted)
  }

  lemma NothingAhead(s: State)
    requires Undisturbed(s)
    ensures Ahead(s) == 0 ==> CaughtUp(s)
    ensures Ahead(s) <= 9 * s.q.capacity + 23
  {
    if Ahead(s) == 0 { LockIsFree(s); }
  }

  /** Nothing but statements of the log task, whose polls do not fail, and the passing of time. */
  predicate OnlyLogs(sched: seq<Action>) {
    forall k | 0 <= k < |sched| :: sched[k].Tick? || (sched[k].Log? && !sched[k].fails)
  }

  lemma TickKeeps(s: State, span: nat)
    requires Undisturbed(s) && Enabled(s, Tick(span))
    ensures Undisturbed(Next(s, Tick(span))) && Ahead(Next(s, Tick(span))) == Ahead(s)
  {
    QuietLeaves(s, Tick(span));
  }

  lemma PrefixStep(s: State, sched: seq<Action>, k: nat)
    requires k < |sched| && Enabled(s, sched[0]) && IsRun(Next(s, sched[0]), sched[1..][..k])
    ensures IsRun(s, sched[..k + 1]) && After(s, sched[..k + 1]) == After(Next(s, sched[0]), sched[1..][..k])
  {
    assert sched[..k + 1][1..] == sched[1..][..k];
  }

  lemma {:induction false} CatchesUp(s: State, sched: seq<Action>) returns (k: nat)
    requires Undisturbed(s) && IsRun(s, sched) && OnlyLogs(sched) && LogSteps(sched) >= Ahead(s)
    ensures k <= |sched| && IsRun(s, sched[..k]) && CaughtUp(After(s, sched[..k]))
    decreases |sched|
  {
    NothingAhead(s);
    if Ahead(s) == 0 {
      k := 0;
      assert sched[..0] == [];
    } else {
      var a := sched[0];
      if a.Tick? { TickKeeps(s, a.span); } else { AheadDecreases(s, a.own); }
      k := CatchesUp(Next(s, a), sched[1..]);
      PrefixStep(s, sched, k);
      k := k + 1;
    }
  }

  /**
   * The log task keeps up while it runs: from every reachable state before log_task_stop in which nobody
   * else is logging, it prints everything accepted and is back at the head of its loop after a number of
   * its own statements bounded by the capacity, provided that its polls do not fail; and until it has
   * exited it always has an enabled statement (LogUnblocked).
   */
  lemma KeepsUp(memory: seq<byte>, itemSize: nat, capacity: nat, threads: nat, start: int,
                before: seq<Action>, after: seq<Action>)
    requires |memory| == Offset(itemSize, capacity)
    requires IsRun(Init(memory, itemSize, capacity, threads, start), before)
    requires var s := After(Init(memory, itemSize, capacity, threads, start), before);
      SendersIdle(s) && !s.stopped && IsRun(s, after) && OnlyLogs(after) && LogSteps(after) >= 9 * s.q.capacity + 23
    ensures var s := After(Init(memory, itemSize, capacity, threads, start), before);
      exists k | 0 <= k <= |after| :: IsRun(s, after[..k]) && CaughtUp(After(s, after[..k]))
  {
    InitInv(memory, itemSize, capacity, threads, start);
    RunInv(Init(memory, itemSize, capacity, threads, start), before);
    var s := After(Init(memory, itemSize, capacity, threads, start), before);
    NothingAhead(s);
    var k := CatchesUp(s, after);
  }

  // One turn of the main loop, exactly -------------------------------------------------------------------

  lemma RepeatLog(s: State, a: Action, n: nat)
    requires n > 0 && Enabled(s, a) && IsRun(Next(s, a), seq(n - 1, _ => a))
    ensures IsRun(s, seq(n, _ => a)) && After(s, seq(n, _ => a)) == After(Next(s, a), seq(n - 1, _ => a))
  {
    assert seq(n, _ => a)[1..] == seq(n - 1, _ => a);
  }

  lemma {:induction false} LapRuns(s: State, own: Record, n: nat)
    requires Undisturbed(s) && InLoop(s) && n == Ahead(s) && |own| == s.q.itemSize
    ensures IsRun(s, seq(n, _ => Log(own, false)))
    ensures CaughtUp(After(s, seq(n, _ => Log(own, false)))) && After(s, seq(n, _ => Log(own, false))).accepted == s.accepted
    decreases n
  {
    NothingAhead(s);
    if n > 0 {
      LapStep(s, own);
      LapRuns(Next(s, Log(own, false)), own, n - 1);
      RepeatLog(s, Log(own, false), n);
    }
  }

  /**
   * One turn of the main loop: with nobody else logging, a poll that finds m messages is followed by
   * exactly 9 * m + 4 statements that print them all and come back; a poll that finds none or fails
   * comes back at once, and changes nothing.
   */
  lemma OneTurn(s: State, own: Record, fails: bool)
    requires Undisturbed(s) && s.log.Loop? && s.calls[0].Idle? && |own| == s.q.itemSize
    ensures var m := Waiting(s);
      var n := if fails || m == 0 then 2 else 9 * m + 6;
      && IsRun(s, seq(n, _ => Log(own, fails)))
      && var s' := After(s, seq(n, _ => Log(own, fails)));
        if fails || m == 0 then s' == s else CaughtUp(s') && s'.accepted == s.accepted && |s'.printed| == |s.printed| + m
  {
    var a := Log(own, fails);
    if fails || Waiting(s) == 0 {
      LockIsFree(s);
      var s1 := s.(log := Poll);
      assert Next(s, a) == s1;
      assert Next(s1, a) == s;
      RepeatLog(s1, a, 1);
      RepeatLog(s, a, 2);
    } else {
      LapRuns(s, own, Ahead(s));
      assert |Bytes(s.accepted)| == |s.accepted|;
      LockIsFree(s);
    }
  }

  /** Some schedule of the log task alone lets it catch up. */
  lemma {:induction false} AheadRuns(s: State, own: Record) returns (sched: seq<Action>)
    requires Undisturbed(s) && |own| == s.q.itemSize
    ensures IsRun(s, sched) && CaughtUp(After(s, sched))
    ensures !After(s, sched).stopped && s.accepted <= After(s, sched).accepted
    decreases Ahead(s)
  {
    NothingAhead(s);
    if Ahead(s) == 0 {
      sched := [];
    } else {
      AheadDecreases(s, own);
      var s' := Next(s, Log(own, false));
      var rest := AheadRuns(s', own);
      O.OneStep(s, Log(own, false), rest, s');
      sched := [Log(own, false)] + rest;
    }
  }

  /** A first message, sent by thread t. */
  lemma FirstSend(memory: seq<byte>, itemSize: nat, capacity: nat, threads: nat, start: int, t: nat)
    returns (sched: seq<Action>)
    requires |memory| == Offset(itemSize, capacity) && capacity >= 1 && 1 <= t <= threads
    ensures IsRun(Init(memory, itemSize, capacity, threads, start), sched)
    ensures var s := After(Init(memory, itemSize, capacity, threads, start), sched);
      Undisturbed(s) && s.q.itemSize == itemSize && |s.accepted| == 1 && s.accepted[0].sender == t
  {
    var s0 := Init(memory, itemSize, capacity, threads, start);
    var b: Record := seq(itemSize, _ => 0);
    InitInv(memory, itemSize, capacity, threads, start);
    var s1 := Compose(s0, t, b);
    O.ComposeQuiet(s0, t, b);
    O.StoredAtMostAccepted(s1);
    O.SendRuns(s1, t, 7);
    O.OneStep(s0, Begin(t, b), seq(7, _ => Step(t)), s1);
    sched := [Begin(t, b)] + seq(7, _ => Step(t));
    RunInv(s0, sched);
  }

  /** A run that prints a message while the log task runs: for any queue that holds one, and any thread. */
  lemma PrintsWhileRunning(memory: seq<byte>, itemSize: nat, capacity: nat, threads: nat, start: int, t: nat)
    requires |memory| == Offset(itemSize, capacity) && capacity >= 1 && 1 <= t <= threads
    ensures exists sched: seq<Action> ::
      && IsRun(Init(memory, itemSize, capacity, threads, start), sched)
      && var s := After(Init(memory, itemSize, capacity, threads, start), sched);
        !s.stopped && CaughtUp(s) && s.accepted != [] && s.accepted[0].sender == t
  {
    var s0 := Init(memory, itemSize, capacity, threads, start);
    var first := FirstSend(memory, itemSize, capacity, threads, start, t);
    var s1 := After(s0, first);
    var second := AheadRuns(s1, seq(itemSize, _ => 0));
    O.RunAppend(s0, first, second);
    assert IsRun(s0, first + second);
  }
}
