/** Messages that are accepted and never printed: a run for every capacity and number of threads. */
module LogLosses {
  import opened Prelude
  import opened FifoQueues
  import opened QueueSteps
  import opened LogPipelines
  import opened LogShutdowns
  import opened LogOvertaking

  /** The log task has signalled, with everything accepted printed and nobody in a call. */
  ghost predicate Finished(s: State) {
    && LockInv(s) && StreamInv(s) && SendersIdle(s) && s.calls[0].Idle? && s.lock.None?
    && s.doneFd == 1 && s.printed == Bytes(s.accepted)
  }

  predicate SameSizes(s: State, s': State) {
    s'.q.itemSize == s.q.itemSize && s'.q.capacity == s.q.capacity && |s'.calls| == |s.calls|
  }

  lemma SendKeepsSizes(s: State, t: nat)
    requires t < |s.calls| && s.calls[t].Sending?
    ensures SameSizes(s, SendOn(s, t))
  {}

  lemma ReceiveKeepsSizes(s: State)
    requires s.calls != [] && s.calls[0].Receiving?
    ensures SameSizes(s, RecvOn(s))
  {}

  lemma LogKeepsSizes(s: State, own: Record)
    requires Enabled(s, Log(own, false))
    ensures SameSizes(s, Next(s, Log(own, false)))
  {
    if s.calls[0].Sending? { SendKeepsSizes(s, 0); } else if s.calls[0].Receiving? { ReceiveKeepsSizes(s); }
  }

  lemma DrainStep(s: State, own: Record)
    requires QuietInv(s) && s.stopped && |own| == s.q.itemSize && !s.log.Exited?
    ensures Enabled(s, Log(own, false))
    ensures var s' := Next(s, Log(own, false)); QuietInv(s') && s'.stopped && 0 <= Rank(s') < Rank(s) && SameSizes(s, s')
  {
    LogUnblocked(s, own, false);
    QuietNext(s, Log(own, false));
    RankDecreases(s, own, false);
    RankBounds(Next(s, Log(own, false)));
    RankOfNext(s, Log(own, false));
    LogKeepsSizes(s, own);
  }

  lemma ExitedIsFinished(s: State)
    requires QuietInv(s) && s.log.Exited?
    ensures Finished(s)
  {
    forall t | 0 <= t < |s.calls| ensures s.lock != Some(t) {}
  }

  /** Some schedule of the log task alone takes it to its end. */
  lemma {:induction false} DrainRuns(s: State, own: Record) returns (sched: seq<Action>)
    requires QuietInv(s) && s.stopped && |own| == s.q.itemSize
    ensures IsRun(s, sched) && Finished(After(s, sched)) && SameSizes(s, After(s, sched))
    ensures forall a | a in sched :: a.Log?
    decreases Rank(s)
  {
    if s.log.Exited? {
      ExitedIsFinished(s);
      sched := [];
    } else {
      DrainStep(s, own);
      var s' := Next(s, Log(own, false));
      var rest := DrainRuns(s', own);
      OneStep(s, Log(own, false), rest, s');
      sched := [Log(own, false)] + rest;
    }
  }

  /** A message sent to the finished log task is accepted into the empty queue, and stays there. */
  lemma LateSend(s: State, t: nat, b: Record)
    requires Finished(s) && 0 < t < |s.calls| && s.q.capacity >= 1 && |b| == s.q.itemSize
    ensures var s1 := Compose(s, t, b);
      && IsRun(s1, seq(7, _ => Step(t)))
      && var s' := After(s1, seq(7, _ => Step(t)));
        s'.doneFd == 1 && s'.printed == Bytes(s.accepted) && s'.lock.None? && |s'.accepted| == |s.accepted| + 1
  {
    LateCompose(s, t, b);
    SendRuns(Compose(s, t, b), t, 7);
  }

  lemma NothingStored(s: State)
    requires Finished(s)
    ensures Stored(s.q, Current(s)) == []
  {}

  lemma LateCompose(s: State, t: nat, b: Record)
    requires Finished(s) && 0 < t < |s.calls| && s.q.capacity >= 1 && |b| == s.q.itemSize
    ensures Succeeds(Compose(s, t, b), t)
  {
    NothingStored(s);
    ComposeQuiet(s, t, b);
  }

  /**
   * For every queue that holds a message and every number of threads from one there is a run in which
   * the log task drains, signals completion and exits, and a message accepted after that is never
   * printed.
   */
  lemma LateMessageLost(memory: seq<byte>, itemSize: nat, capacity: nat, threads: nat, start: int)
    requires |memory| == Offset(itemSize, capacity) && capacity >= 1 && threads >= 1
    ensures exists sched: seq<Action> ::
      && IsRun(Init(memory, itemSize, capacity, threads, start), sched)
      && var s := After(Init(memory, itemSize, capacity, threads, start), sched);
        s.doneFd == 1 && s.lock.None? && |s.accepted| == |s.printed| + 1 && s.printed != Bytes(s.accepted)
  {
    var s0 := Init(memory, itemSize, capacity, threads, start);
    var b: Record := seq(itemSize, _ => 0);
    InitInv(memory, itemSize, capacity, threads, start);
    QuietNext(s0, Stop);
    var s1 := Next(s0, Stop);
    var drain := DrainRuns(s1, b);
    var s2 := After(s1, drain);
    var late := [Begin(1, b)] + seq(7, _ => Step(1));
    LateSend(s2, 1, b);
    OneStep(s2, Begin(1, b), seq(7, _ => Step(1)), Compose(s2, 1, b));
    RunAppend(s1, drain, late);
    OneStep(s0, Stop, drain + late, s1);
    var s := After(s0, [Stop] + (drain + late));
    assert |Bytes(s.accepted)| == |s.accepted| && |Bytes(s2.accepted)| == |s2.accepted|;
  }
}
