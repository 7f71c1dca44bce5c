/** The order and the accounting of each single sender's messages. */
module LogOrders {
  import opened FifoQueues
  import opened QueueSteps
  import opened LogPipelines

  /** The message has been composed but fifo_queue_send has not taken it, or has refused it. */
  predicate Undecided(c: Call) {
    c.SendLock? || (c.Sending? && (c.sendPc.Check? || c.sendPc.CopyIn? || c.sendPc == Sent(false)))
  }

  function CountOf(es: seq<Entry>, t: nat): nat {
    if es == [] then 0 else CountOf(es[..|es| - 1], t) + if es[|es| - 1].sender == t then 1 else 0
  }

  /** A thread's attempts are numbered in order, and their timestamps never decrease. */
  ghost predicate Stamped(s: State) {
    && (forall t, k | 0 <= t < |s.attempts| && 0 <= k < |s.attempts[t]| ::
          s.attempts[t][k].sender == t && s.attempts[t][k].index == k && s.attempts[t][k].stamp <= s.clock)
    && (forall t, k, l | 0 <= t < |s.attempts| && 0 <= k < l < |s.attempts[t]| ::
          s.attempts[t][k].stamp <= s.attempts[t][l].stamp)
  }

  predicate Attempted(s: State, e: Entry) {
    e.sender < |s.attempts| && e.index < |s.attempts[e.sender]| && s.attempts[e.sender][e.index] == e
  }

  ghost predicate Ordered(s: State) {
    && (forall i | 0 <= i < |s.accepted| :: Attempted(s, s.accepted[i]))
    && (forall i, j | 0 <= i < j < |s.accepted| && s.accepted[i].sender == s.accepted[j].sender ::
          s.accepted[i].index < s.accepted[j].index)
  }

  /** A message in a call is its thread's latest attempt, and not accepted while undecided. */
  ghost predicate InCall(s: State)
    requires Shape(s)
  {
    forall t | 0 <= t < |s.calls| && Sends(s.calls[t]) ::
      && |s.attempts[t]| > 0 && s.calls[t].entry == s.attempts[t][|s.attempts[t]| - 1]
      && (Undecided(s.calls[t]) ==>
            forall i | 0 <= i < |s.accepted| && s.accepted[i].sender == t :: s.accepted[i].index < |s.attempts[t]| - 1)
  }

  ghost predicate Accounted(s: State)
    requires Shape(s)
  {
    forall t | 0 <= t < |s.calls| ::
      |s.attempts[t]| == CountOf(s.accepted, t) + CountOf(s.dropped, t) + if Undecided(s.calls[t]) then 1 else 0
  }

  ghost predicate OrderInv(s: State) {
    Shape(s) && Stamped(s) && Ordered(s) && InCall(s) && Accounted(s)
  }

  lemma CountAppend(es: seq<Entry>, e: Entry, t: nat)
    ensures CountOf(es + [e], t) == CountOf(es, t) + if e.sender == t then 1 else 0
  {
    assert (es + [e])[..|es|] == es;
  }

  lemma ComposeKeepsOrder(s: State, t: nat, bytes: Record)
    requires OrderInv(s) && t < |s.calls| && s.calls[t].Idle?
    ensures OrderInv(Compose(s, t, bytes))
  {
    var s' := Compose(s, t, bytes);
    forall i | 0 <= i < |s'.accepted| ensures Attempted(s', s'.accepted[i]) { assert Attempted(s, s.accepted[i]); }
  }

  /** Steps that neither decide nor compose a message. */
  lemma IdleStepKeepsOrder(s: State, s': State, t: nat, c: Call)
    requires OrderInv(s) && t < |s.calls| && s'.calls == s.calls[t := c]
    requires s'.attempts == s.attempts && s'.accepted == s.accepted && s'.dropped == s.dropped && s.clock <= s'.clock
    requires Undecided(c) == Undecided(s.calls[t])
    requires Sends(c) ==> Sends(s.calls[t]) && c.entry == s.calls[t].entry
    ensures OrderInv(s')
  {
    forall i | 0 <= i < |s'.accepted| ensures Attempted(s', s'.accepted[i]) { assert Attempted(s, s.accepted[i]); }
  }

  lemma AcceptKeepsOrdered(s: State, e: Entry)
    requires Stamped(s) && Ordered(s) && Attempted(s, e)
    requires forall i | 0 <= i < |s.accepted| && s.accepted[i].sender == e.sender :: s.accepted[i].index < e.index
    ensures Ordered(s.(accepted := s.accepted + [e]))
  {
    var s' := s.(accepted := s.accepted + [e]);
    forall i | 0 <= i < |s'.accepted| ensures Attempted(s', s'.accepted[i]) {
      assert i < |s.accepted| ==> Attempted(s, s.accepted[i]);
    }
  }

  lemma AcceptKeepsCount(s: State, e: Entry, t: nat, c: Call)
    requires Shape(s) && Accounted(s) && t < |s.calls| && Undecided(s.calls[t]) && !Undecided(c) && e.sender == t
    ensures Accounted(s.(accepted := s.accepted + [e], calls := s.calls[t := c]))
  {
    forall u | 0 <= u < |s.calls| ensures CountOf(s.accepted + [e], u) == CountOf(s.accepted, u) + if u == t then 1 else 0 {
      CountAppend(s.accepted, e, u);
    }
  }

  lemma AcceptKeepsOrder(s: State, s': State, t: nat, c: Call)
    requires OrderInv(s) && t < |s.calls| && Sends(s.calls[t]) && Undecided(s.calls[t])
    requires Sends(c) && !Undecided(c) && c.entry == s.calls[t].entry
    requires s'.calls == s.calls[t := c] && s'.accepted == s.accepted + [c.entry]
    requires s'.attempts == s.attempts && s'.dropped == s.dropped && s'.clock == s.clock
    ensures OrderInv(s')
  {
    AcceptKeepsOrdered(s, c.entry);
    AcceptKeepsCount(s, c.entry, t, c);
    var s1 := s.(accepted := s.accepted + [c.entry]);
    forall i | 0 <= i < |s'.accepted| ensures Attempted(s', s'.accepted[i]) { assert Attempted(s1, s1.accepted[i]); }
  }

  lemma DropKeepsCount(s: State, e: Entry, t: nat)
    requires Shape(s) && Accounted(s) && t < |s.calls| && Undecided(s.calls[t]) && e.sender == t
    ensures Accounted(s.(dropped := s.dropped + [e], calls := s.calls[t := Idle]))
  {
    forall u | 0 <= u < |s.calls| ensures CountOf(s.dropped + [e], u) == CountOf(s.dropped, u) + if u == t then 1 else 0 {
      CountAppend(s.dropped, e, u);
    }
  }

  lemma DropKeepsOrder(s: State, s': State, t: nat, e: Entry)
    requires OrderInv(s) && t < |s.calls| && Sends(s.calls[t]) && Undecided(s.calls[t]) && e == s.calls[t].entry
    requires s'.calls == s.calls[t := Idle] && s'.dropped == s.dropped + [e]
    requires s'.attempts == s.attempts && s'.accepted == s.accepted && s'.clock == s.clock
    ensures OrderInv(s')
  {
    DropKeepsCount(s, e, t);
    forall i | 0 <= i < |s'.accepted| ensures Attempted(s', s'.accepted[i]) { assert Attempted(s, s.accepted[i]); }
  }

  lemma SendOnKeepsOrder(s: State, t: nat)
    requires OrderInv(s) && t < |s.calls| && s.calls[t].Sending? && !SendOn(s, t).fault && !s.fault
    ensures OrderInv(SendOn(s, t))
  {
    var Sending(pc, e) := s.calls[t];
    var s' := SendOn(s, t);
    if pc.CopyIn? {
      AcceptKeepsOrder(s, s', t, Sending(MoveHead, e));
    } else if pc == Sent(false) {
      DropKeepsOrder(s, s', t, e);
    } else {
      IdleStepKeepsOrder(s, s', t, if pc.Sent? then Idle else Sending(SendStep(s.q, pc, e.bytes).value.1, e));
    }
  }

  lemma ProceedKeepsOrder(s: State, t: nat)
    requires OrderInv(s) && t < |s.calls| && !s.calls[t].Idle? && (Receives(s.calls[t]) ==> t == 0)
    requires !s.fault && !Proceed(s, t).fault
    ensures OrderInv(Proceed(s, t))
  {
    match s.calls[t]
    case Sending(_, _) => SendOnKeepsOrder(s, t);
    case SendLock(e) => IdleStepKeepsOrder(s, Proceed(s, t), t, Sending(Check, e));
    case RecvLock => IdleStepKeepsOrder(s, Proceed(s, t), t, Receiving(Test, []));
    case Receiving(_, _) => ReceiveKeepsOrder(s);
  }

  lemma ReceiveKeepsOrder(s: State)
    requires OrderInv(s) && s.calls[0].Receiving? && !s.fault && !RecvOn(s).fault
    ensures OrderInv(RecvOn(s))
  {
    IdleStepKeepsOrder(s, RecvOn(s), 0, RecvOn(s).calls[0]);
  }

  lemma LogStepKeepsOrder(s: State, own: Record, fails: bool)
    requires OrderInv(s) && s.calls[0].Idle?
    ensures OrderInv(LogStep(s, own, fails))
  {
    if s.log.Hello? || s.log.Farewell? {
      LogComposesInOrder(s, own, fails);
    } else {
      LogStepLedger(s, own, fails);
      IdleStepKeepsOrder(s, LogStep(s, own, fails), 0, LogStep(s, own, fails).calls[0]);
    }
  }

  lemma LogComposesInOrder(s: State, own: Record, fails: bool)
    requires OrderInv(s) && s.calls[0].Idle? && (s.log.Hello? || s.log.Farewell?)
    ensures OrderInv(LogStep(s, own, fails))
  {
    ComposeKeepsOrder(s, 0, own);
    SameLedger(Compose(s, 0, own), LogStep(s, own, fails));
  }

  lemma LogStepLedger(s: State, own: Record, fails: bool)
    requires Shape(s) && s.calls[0].Idle? && !s.log.Hello? && !s.log.Farewell?
    ensures var s' := LogStep(s, own, fails);
      && s'.calls == s.calls[0 := s'.calls[0]] && !Sends(s'.calls[0])
      && s'.attempts == s.attempts && s'.accepted == s.accepted && s'.dropped == s.dropped && s'.clock == s.clock
  {
    if s.log.Receive? || s.log.Drain? { LogCalls(s, own, fails); } else { LogStays(s, own, fails); }
  }

  lemma LogCalls(s: State, own: Record, fails: bool)
    requires Shape(s) && (s.log.Receive? || s.log.Drain?)
    ensures LogStep(s, own, fails) == s.(calls := s.calls[0 := RecvLock])
  {}

  lemma LogStays(s: State, own: Record, fails: bool)
    requires Shape(s) && !s.log.Hello? && !s.log.Farewell? && !s.log.Receive? && !s.log.Drain?
    ensures var s' := LogStep(s, own, fails);
      && s'.calls == s.calls
      && s'.attempts == s.attempts && s'.accepted == s.accepted && s'.dropped == s.dropped && s'.clock == s.clock
  {}

  lemma SameLedger(s: State, s': State)
    requires OrderInv(s) && s'.calls == s.calls && s'.attempts == s.attempts && s'.accepted == s.accepted
    requires s'.dropped == s.dropped && s'.clock == s.clock
    ensures OrderInv(s')
  {
    forall i | 0 <= i < |s'.accepted| ensures Attempted(s', s'.accepted[i]) { assert Attempted(s, s.accepted[i]); }
  }

  lemma NextKeepsOrder(s: State, a: Action)
    requires Inv(s) && OrderInv(s) && Enabled(s, a)
    ensures OrderInv(Next(s, a))
  {
    NextInv(s, a);
    match a
    case Begin(t, b) => ComposeKeepsOrder(s, t, b);
    case Step(t) => ProceedKeepsOrder(s, t);
    case Log(b, fails) => if s.calls[0].Idle? { LogStepKeepsOrder(s, b, fails); } else { ProceedKeepsOrder(s, 0); }
    case Stop => IdleStepKeepsOrder(s, Next(s, a), 0, s.calls[0]);
    case Tick(_) => IdleStepKeepsOrder(s, Next(s, a), 0, s.calls[0]);
  }

  lemma {:induction false} RunKeepsOrder(s: State, sched: seq<Action>)
    requires Inv(s) && OrderInv(s) && IsRun(s, sched)
    ensures Inv(After(s, sched)) && OrderInv(After(s, sched))
    decreases |sched|
  {
    if sched != [] {
      NextInv(s, sched[0]);
      NextKeepsOrder(s, sched[0]);
      RunKeepsOrder(Next(s, sched[0]), sched[1..]);
    }
  }

  /**
   * Each thread's printed messages are an in-order subsequence of what it attempted, with timestamps
   * that never decrease, and every attempt that is no longer in progress was accepted or dropped.
   */
  lemma PerSender(memory: seq<byte>, itemSize: nat, capacity: nat, threads: nat, start: int, sched: seq<Action>)
    requires |memory| == Offset(itemSize, capacity)
    requires IsRun(Init(memory, itemSize, capacity, threads, start), sched)
    ensures var s := After(Init(memory, itemSize, capacity, threads, start), sched);
      && Shape(s) && |s.printed| <= |s.accepted|
      && (forall i | 0 <= i < |s.printed| :: s.printed[i] == s.accepted[i].bytes && Attempted(s, s.accepted[i]))
      && (forall i, j | 0 <= i < j < |s.printed| && s.accepted[i].sender == s.accepted[j].sender ::
            s.accepted[i].index < s.accepted[j].index && s.accepted[i].stamp <= s.accepted[j].stamp)
      && (forall t | 0 <= t < |s.calls| && !Undecided(s.calls[t]) ::
            |s.attempts[t]| == CountOf(s.accepted, t) + CountOf(s.dropped, t))
  {
    InitInv(memory, itemSize, capacity, threads, start);
    InitOrder(memory, itemSize, capacity, threads, start);
    RunKeepsOrder(Init(memory, itemSize, capacity, threads, start), sched);
    PrintedInOrder(After(Init(memory, itemSize, capacity, threads, start), sched));
  }

  lemma InitOrder(memory: seq<byte>, itemSize: nat, capacity: nat, threads: nat, start: int)
    ensures OrderInv(Init(memory, itemSize, capacity, threads, start))
  {}

  lemma PrintedInOrder(s: State)
    requires Shape(s) && StreamInv(s) && Stamped(s) && Ordered(s)
    ensures |s.printed| <= |s.accepted|
    ensures forall i | 0 <= i < |s.printed| :: s.printed[i] == s.accepted[i].bytes && Attempted(s, s.accepted[i])
    ensures forall i, j | 0 <= i < j < |s.printed| && s.accepted[i].sender == s.accepted[j].sender ::
      s.accepted[i].index < s.accepted[j].index && s.accepted[i].stamp <= s.accepted[j].stamp
  {
    assert |Bytes(s.accepted)| == |s.accepted|;
    forall i | 0 <= i < |s.printed| ensures s.printed[i] == s.accepted[i].bytes && Attempted(s, s.accepted[i]) {
      assert Bytes(s.accepted)[i] == s.printed[i];
    }
  }
}
