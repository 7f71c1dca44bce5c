/**
 * Across senders the order of the log is that of the lock, not of the timestamps: when the log is
 * chronological, and when it is not.
 */
module LogChronology {
  import opened FifoQueues
  import opened LogPipelines
  import opened LogOrders

  predicate Chronological(es: seq<Entry>) {
    forall i, j | 0 <= i < j < |es| :: es[i].stamp <= es[j].stamp
  }

  /** A message with a later timestamp was accepted while message j was between its timestamp and its copy. */
  predicate Overtaken(es: seq<Entry>, j: nat)
    requires j < |es|
  {
    exists i :: es[j].since <= i < j && es[i].stamp > es[j].stamp
  }

  function Author(a: Action): nat {
    match a case Begin(t, _) => t case Step(t) => t case _ => 0
  }

  predicate Composes(s: State, a: Action) {
    a.Begin? || (a.Log? && s.calls != [] && s.calls[0].Idle? && (s.log.Hello? || s.log.Farewell?))
  }

  predicate Accepts(s: State, a: Action) {
    && (a.Step? || a.Log?) && Author(a) < |s.calls|
    && s.calls[Author(a)].Sending? && s.calls[Author(a)].sendPc.CopyIn?
  }

  lemma ComposeLedger(s: State, a: Action)
    requires Enabled(s, a) && Composes(s, a)
    ensures var s' := Next(s, a);
      var t := Author(a);
      && t < |s.calls| == |s'.calls| && s.calls[t].Idle? && s'.calls[t].SendLock?
      && s'.calls == s.calls[t := s'.calls[t]] && s'.accepted == s.accepted
      && s'.attempts == s.attempts[t := s.attempts[t] + [s'.calls[t].entry]]
      && s'.calls[t].entry.since == |s.accepted| && s'.calls[t].entry.stamp == s.clock
  {}

  lemma SendLedger(s: State, t: nat)
    requires Shape(s) && t < |s.calls| && Sends(s.calls[t]) && !s.fault && !Proceed(s, t).fault
    ensures var s' := Proceed(s, t);
      && s'.attempts == s.attempts && s'.calls == s.calls[t := s'.calls[t]]
      && s'.accepted == (s.accepted + if s.calls[t].Sending? && s.calls[t].sendPc.CopyIn? then [s.calls[t].entry] else [])
      && (Sends(s'.calls[t]) ==> s'.calls[t].entry == s.calls[t].entry)
      && (Undecided(s'.calls[t]) ==> Undecided(s.calls[t]) && s'.accepted == s.accepted)
  {}

  lemma ReceiveLedger(s: State)
    requires Shape(s) && Receives(s.calls[0]) && !s.fault && !Proceed(s, 0).fault
    ensures var s' := Proceed(s, 0);
      s'.attempts == s.attempts && s'.calls == s.calls[0 := s'.calls[0]] && s'.accepted == s.accepted && !Sends(s'.calls[0])
  {}

  /** Any step that does not compose a message accepts at most one, that of the call it advances. */
  lemma NextLedger(s: State, a: Action)
    requires Inv(s) && Enabled(s, a) && !Composes(s, a)
    ensures var s' := Next(s, a);
      var t := Author(a);
      && t < |s.calls| == |s'.calls|
      && s'.attempts == s.attempts && s'.calls == s.calls[t := s'.calls[t]]
      && s'.accepted == (s.accepted + if Accepts(s, a) then [s.calls[t].entry] else [])
      && (Sends(s'.calls[t]) ==> Sends(s.calls[t]) && s'.calls[t].entry == s.calls[t].entry)
      && (Undecided(s'.calls[t]) ==> Undecided(s.calls[t]) && s'.accepted == s.accepted)
  {
    NextInv(s, a);
    match a
    case Step(t) => SendLedger(s, t);
    case Log(b, fails) =>
      if Sends(s.calls[0]) { SendLedger(s, 0); }
      else if Receives(s.calls[0]) { ReceiveLedger(s); }
      else { LogStepLedger(s, b, fails); }
    case _ =>
  }

  /** What had been accepted when a message was composed has no later timestamp. */
  predicate InWindow(e: Entry, accepted: seq<Entry>) {
    e.since <= |accepted| && forall i | 0 <= i < e.since :: accepted[i].stamp <= e.stamp
  }

  ghost predicate WindowInv(s: State) {
    && (forall t | 0 <= t < |s.calls| && Sends(s.calls[t]) :: InWindow(s.calls[t].entry, s.accepted))
    && (forall j | 0 <= j < |s.accepted| :: InWindow(s.accepted[j], s.accepted[..j]))
  }

  lemma ComposeKeepsWindow(s: State, a: Action)
    requires WindowInv(s) && OrderInv(s) && Enabled(s, a) && Composes(s, a)
    ensures WindowInv(Next(s, a))
  {
    ComposeLedger(s, a);
    forall i | 0 <= i < |s.accepted| ensures s.accepted[i].stamp <= s.clock { assert Attempted(s, s.accepted[i]); }
  }

  lemma AcceptKeepsWindow(s: State, e: Entry, j: nat)
    requires WindowInv(s) && InWindow(e, s.accepted) && j <= |s.accepted|
    ensures InWindow((s.accepted + [e])[j], (s.accepted + [e])[..j])
  {
    assert (s.accepted + [e])[..j] == s.accepted[..j] && s.accepted[..|s.accepted|] == s.accepted;
  }

  /** Steps that compose nothing and accept at most the message of the call they advance. */
  lemma LedgerKeepsWindow(s: State, s': State, t: nat, c: Call)
    requires WindowInv(s) && t < |s.calls| && s'.calls == s.calls[t := c]
    requires Sends(c) ==> Sends(s.calls[t]) && c.entry == s.calls[t].entry
    requires s'.accepted == s.accepted || (Sends(s.calls[t]) && s'.accepted == s.accepted + [s.calls[t].entry])
    ensures WindowInv(s')
  {
    if s'.accepted != s.accepted {
      forall j | 0 <= j <= |s.accepted| ensures InWindow(s'.accepted[j], s'.accepted[..j]) {
        AcceptKeepsWindow(s, s.calls[t].entry, j);
      }
    }
  }

  lemma NextKeepsWindow(s: State, a: Action)
    requires Inv(s) && WindowInv(s) && OrderInv(s) && Enabled(s, a)
    ensures WindowInv(Next(s, a))
  {
    if Composes(s, a) {
      ComposeKeepsWindow(s, a);
    } else {
      NextLedger(s, a);
      LedgerKeepsWindow(s, Next(s, a), Author(a), Next(s, a).calls[Author(a)]);
    }
  }

  lemma {:induction false} RunKeepsWindow(s: State, sched: seq<Action>)
    requires Inv(s) && WindowInv(s) && OrderInv(s) && IsRun(s, sched)
    ensures WindowInv(After(s, sched))
    decreases |sched|
  {
    if sched != [] {
      NextInv(s, sched[0]);
      NextKeepsOrder(s, sched[0]);
      NextKeepsWindow(s, sched[0]);
      RunKeepsWindow(Next(s, sched[0]), sched[1..]);
    }
  }

  lemma InitWindow(memory: seq<byte>, itemSize: nat, capacity: nat, threads: nat, start: int)
    ensures WindowInv(Init(memory, itemSize, capacity, threads, start))
  {}

  /**
   * Exactly when the log is chronological: in every run, the first n accepted messages, for example
   * those printed so far, have non-decreasing timestamps if and only if none of them was overtaken
   * between its timestamp and its copy into the queue. Nothing accepted before its timestamp can be at
   * fault.
   */
  lemma ChronologicalIff(memory: seq<byte>, itemSize: nat, capacity: nat, threads: nat, start: int,
                         sched: seq<Action>, n: nat)
    requires |memory| == Offset(itemSize, capacity)
    requires IsRun(Init(memory, itemSize, capacity, threads, start), sched)
    requires n <= |After(Init(memory, itemSize, capacity, threads, start), sched).accepted|
    ensures var es := After(Init(memory, itemSize, capacity, threads, start), sched).accepted;
      Chronological(es[..n]) <==> forall j | 0 <= j < n :: !Overtaken(es, j)
  {
    InitInv(memory, itemSize, capacity, threads, start);
    InitOrder(memory, itemSize, capacity, threads, start);
    InitWindow(memory, itemSize, capacity, threads, start);
    RunKeepsWindow(Init(memory, itemSize, capacity, threads, start), sched);
    OvertakenIffDisordered(After(Init(memory, itemSize, capacity, threads, start), sched), n);
  }

  lemma OvertakenIffDisordered(s: State, n: nat)
    requires WindowInv(s) && n <= |s.accepted|
    ensures Chronological(s.accepted[..n]) <==> forall j | 0 <= j < n :: !Overtaken(s.accepted, j)
  {
    var es := s.accepted;
    if Chronological(es[..n]) {
      forall j | 0 <= j < n ensures !Overtaken(es, j) {
        forall i | es[j].since <= i < j ensures es[i].stamp <= es[j].stamp {
          assert es[..n][i].stamp <= es[..n][j].stamp;
        }
      }
    }
    if forall j | 0 <= j < n :: !Overtaken(es, j) {
      forall i, j | 0 <= i < j < n ensures es[..n][i].stamp <= es[..n][j].stamp {
        assert InWindow(es[j], es[..j]) && !Overtaken(es, j);
        if i < es[j].since { assert es[..j][i].stamp <= es[j].stamp; }
      }
    }
  }

  /** The overtaker is always another thread. */
  lemma OvertakenByAnother(memory: seq<byte>, itemSize: nat, capacity: nat, threads: nat, start: int,
                           sched: seq<Action>, i: nat, j: nat)
    requires |memory| == Offset(itemSize, capacity)
    requires IsRun(Init(memory, itemSize, capacity, threads, start), sched)
    requires var es := After(Init(memory, itemSize, capacity, threads, start), sched).accepted;
      i < j < |es| && es[i].stamp > es[j].stamp
    ensures var es := After(Init(memory, itemSize, capacity, threads, start), sched).accepted;
      es[i].sender != es[j].sender && es[j].since <= i
  {
    var s0 := Init(memory, itemSize, capacity, threads, start);
    InitInv(memory, itemSize, capacity, threads, start);
    InitOrder(memory, itemSize, capacity, threads, start);
    InitWindow(memory, itemSize, capacity, threads, start);
    RunKeepsOrder(s0, sched);
    RunKeepsWindow(s0, sched);
    var s := After(s0, sched);
    assert Attempted(s, s.accepted[i]) && Attempted(s, s.accepted[j]) && InWindow(s.accepted[j], s.accepted[..j]);
    assert s.accepted[..j][i].stamp > s.accepted[j].stamp;
  }

  // One sender at a time -------------------------------------------------------------------------------

  predicate OneSender(s: State) {
    forall t, u | 0 <= t < |s.calls| && 0 <= u < |s.calls| && Sends(s.calls[t]) && Sends(s.calls[u]) :: t == u
  }

  /** In every state of the run at most one thread is inside ALOG, as under a lock around it. */
  predicate OneAtATime(s: State, sched: seq<Action>)
    requires IsRun(s, sched)
    decreases |sched|
  {
    OneSender(s) && (sched == [] || OneAtATime(Next(s, sched[0]), sched[1..]))
  }

  /** Nothing has been accepted since an undecided message was composed. */
  ghost predicate PromptInv(s: State) {
    && (forall t | 0 <= t < |s.calls| && Undecided(s.calls[t]) :: s.calls[t].entry.since == |s.accepted|)
    && (forall j | 0 <= j < |s.accepted| :: s.accepted[j].since == j)
  }

  lemma NextKeepsPrompt(s: State, a: Action)
    requires Inv(s) && PromptInv(s) && OneSender(s) && Enabled(s, a)
    ensures PromptInv(Next(s, a))
  {
    if Composes(s, a) {
      ComposeLedger(s, a);
    } else {
      NextLedger(s, a);
      if Accepts(s, a) {
        forall t | 0 <= t < |s.calls| && t != Author(a) ensures !Undecided(s.calls[t]) {}
      }
    }
  }

  lemma {:induction false} RunKeepsPrompt(s: State, sched: seq<Action>)
    requires Inv(s) && PromptInv(s) && IsRun(s, sched) && OneAtATime(s, sched)
    ensures PromptInv(After(s, sched))
    decreases |sched|
  {
    if sched != [] {
      NextInv(s, sched[0]);
      NextKeepsPrompt(s, sched[0]);
      RunKeepsPrompt(Next(s, sched[0]), sched[1..]);
    }
  }

  /**
   * What a caller can do for the promised order: if ALOG is never entered by a second thread while one
   * is inside it, the log is chronological.
   */
  lemma ChronologicalOneAtATime(memory: seq<byte>, itemSize: nat, capacity: nat, threads: nat, start: int,
                                sched: seq<Action>)
    requires |memory| == Offset(itemSize, capacity)
    requires IsRun(Init(memory, itemSize, capacity, threads, start), sched)
    requires OneAtATime(Init(memory, itemSize, capacity, threads, start), sched)
    ensures Chronological(After(Init(memory, itemSize, capacity, threads, start), sched).accepted)
  {
    var s0 := Init(memory, itemSize, capacity, threads, start);
    InitInv(memory, itemSize, capacity, threads, start);
    RunKeepsPrompt(s0, sched);
    var es := After(s0, sched).accepted;
    ChronologicalIff(memory, itemSize, capacity, threads, start, sched, |es|);
    assert es[..|es|] == es;
  }
}
