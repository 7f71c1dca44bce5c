/** What the shutdown of rtsystem guarantees over every run. */
module ShutdownRuns {
  import opened Prelude
  import opened Shutdowns

  // Locks -----------------------------------------------------------------------------------------------

  /**
   * Locks: in every reachable state of the program no lock has been taken twice by its holder, and no
   * step is about to do so, not even destroying the handles while the array is locked; the array lock
   * is held only by main inside a bulk operation, and whoever holds the log lock next releases it.
   */
  lemma LockOrder(n: nat, mute: set<nat>, sched: seq<Action>, a: Action)
    requires IsRun(Start(n, mute, true), sched) && Enabled(After(Start(n, mute, true), sched), a)
    ensures var s := After(Start(n, mute, true), sched);
      && !s.fault && !Step(s, a).fault
      && s.arrayLock == (if InBulk(s.main) then Some(Main) else None)
      && (s.logLock == Some(Main) <==> s.mainCall.HasLock?)
      && (forall t | 0 <= t < |s.tasks| :: s.logLock == Some(Thread(t)) <==> s.tasks[t].call.HasLock?)
  {
    InitInv(n, mute, true);
    RunInv(Start(n, mute, true), sched);
    FaultIff(After(Start(n, mute, true), sched), a);
  }

  /** Without clearing the handle's array, a run that has not faulted has destroyed no handle. */
  lemma {:induction false} UnclearedRun(s: State, sched: seq<Action>)
    requires Inv(s) && !s.clears && IsRun(s, sched)
    ensures var s' := After(s, sched); SameShape(s, s') && (Inv(s') || (s'.fault && s'.main.Destroy?))
    decreases |sched|
  {
    if sched != [] {
      var s1 := Step(s, sched[0]);
      FaultIff(s, sched[0]);
      StepShape(s, sched[0]);
      if s1.fault {
        assert sched[1..] == [];
      } else {
        StepInv(s, sched[0]);
        UnclearedRun(s1, sched[1..]);
      }
    }
  }

  // Progress --------------------------------------------------------------------------------------------

  function CallRank(call: Call): int { match call case NoCall => 0 case WantLock => 2 case HasLock => 1 }

  /** The statements a task can still execute once g_running is 0. */
  function TaskRank(x: Task): int {
    CallRank(x.call)
    + (match x.pc case Begin => 11 case ReadRunning => 8 case ReadState => 15 case Poll => 14 case Flush => 11
       case Mark => 5 case WriteDone => 4 case Return => 1 case Exited => 0)
  }

  /** The statements main executes after a bulk operation has visited the last slot. */
  function Tail(phase: Phase, n: nat): int {
    match phase
    case DestroyAll => 3
    case JoinAll => 8 * n + 7
    case CancelAll => 12 * n + 11
    case PollAll => 16 * n + 16
    case StopAll => 20 * n + 20
  }

  function PerSlot(phase: Phase): int { if phase.DestroyAll? then 8 else 4 }

  function MainRank(main: MainPc, n: nat): int {
    match main
    case Serve => 24 * n + 25
    case Clear => 24 * n + 24
    case Take(p) => Tail(p, n) + PerSlot(p) * n + 1
    case At(p, k) => Tail(p, n) + PerSlot(p) * (n - k)
    case PollWait => 16 * n + 15
    case Wait(k) => Tail(JoinAll, n) + 4 * (n - k) - 1
    case Unlink(k) => 8 * (n - k)
    case Vacate(k) => 8 * (n - k) - 1
    case Destroy(k) => 8 * (n - k) - 2
    case LogStop => 0
  }

  function Rank(s: State): int {
    MainRank(s.main, |s.tasks|) + CallRank(s.mainCall) + Sum(s.tasks, TaskRank)
  }

  lemma MoveRank(x: Task, input: Input)
    requires x.call.NoCall? && x.pc != Exited
    ensures TaskRank(NextTask(x, false, input)) < TaskRank(x)
  {}

  lemma AdvanceRank(x: Task, input: Input)
    requires x.call.NoCall? ==> x.pc != Exited
    ensures TaskRank(Advance(x, false, input)) < TaskRank(x)
  {
    if x.call.NoCall? { MoveRank(x, input); }
  }

  lemma TaskRankDecreases(s: State, t: nat, input: Input)
    requires Enabled(s, TaskStep(t, input)) && !s.running && !StepTask(s, t, input).fault
    ensures Rank(StepTask(s, t, input)) < Rank(s)
  {
    SumUpdate(s.tasks, t, Advance(s.tasks[t], false, input), TaskRank);
    AdvanceRank(s.tasks[t], input);
  }

  lemma {:induction false} SameTaskRanks(xs: seq<Task>, ys: seq<Task>)
    requires |xs| == |ys| && forall t | 0 <= t < |xs| :: SameForTask(xs[t], ys[t])
    ensures Sum(xs, TaskRank) == Sum(ys, TaskRank)
  {
    if xs != [] {
      assert SameForTask(xs[0], ys[0]);
      forall t | 0 <= t < |xs[1..]| ensures SameForTask(xs[1..][t], ys[1..][t]) {
        assert SameForTask(xs[t + 1], ys[t + 1]);
      }
      SameTaskRanks(xs[1..], ys[1..]);
    }
  }

  lemma MainMoves(s: State, r: PollResult)
    requires MainInv(s) && Enabled(s, MainStep(r)) && !StepMain(s, r).fault
    ensures var s' := StepMain(s, r);
      MainRank(s'.main, |s.tasks|) + CallRank(s'.mainCall) < MainRank(s.main, |s.tasks|) + CallRank(s.mainCall)
  {
    if Visiting(s) { VisitRank(s, s.main.phase, s.main.k); } else if Finishing(s) { FinishRank(s); }
  }

  lemma VisitRank(s: State, p: Phase, k: nat)
    requires k < |s.tasks| && s.main == At(p, k)
    ensures var s' := VisitSlot(s, p, k);
      MainRank(s'.main, |s.tasks|) + CallRank(s'.mainCall) < MainRank(s.main, |s.tasks|)
  {}

  lemma FinishRank(s: State)
    requires Finishing(s) && s.main.task < |s.tasks| && !s.fault && !FinishSlot(s, s.main.task).fault
    ensures var s' := FinishSlot(s, s.main.task);
      MainRank(s'.main, |s.tasks|) + CallRank(s'.mainCall) < MainRank(s.main, |s.tasks|)
  {}

  lemma MainRankDecreases(s: State, r: PollResult)
    requires MainInv(s) && Enabled(s, MainStep(r)) && !StepMain(s, r).fault
    ensures Rank(StepMain(s, r)) < Rank(s)
  {
    MainLeaves(s, r);
    SameTaskRanks(s.tasks, StepMain(s, r).tasks);
    MainMoves(s, r);
  }

  lemma {:induction false} RunRanks(s: State, sched: seq<Action>)
    requires Inv(s) && s.clears && !s.running && IsRun(s, sched)
    ensures Inv(After(s, sched)) && !After(s, sched).running
    ensures |sched| + Rank(After(s, sched)) <= Rank(s)
    decreases |sched|
  {
    if sched != [] {
      StepRank(s, sched[0]);
      RunRanks(Step(s, sched[0]), sched[1..]);
    }
  }

  lemma StepRank(s: State, a: Action)
    requires Inv(s) && s.clears && !s.running && Enabled(s, a)
    ensures Inv(Step(s, a)) && Step(s, a).clears && !Step(s, a).running && Rank(Step(s, a)) < Rank(s)
  {
    FaultIff(s, a);
    StepInv(s, a);
    StepShape(s, a);
    match a
    case TaskStep(t, input) => TaskRankDecreases(s, t, input);
    case MainStep(r) => MainRankDecreases(s, r);
  }

  lemma RankBounds(s: State)
    requires MainInv(s) && !s.running
    ensures 0 <= Rank(s) <= 41 * |s.tasks| + 23
  {
    SumNonNegative(s.tasks, TaskRank);
    forall t | 0 <= t < |s.tasks| ensures TaskRank(s.tasks[t]) <= 17 {}
    SumAtMost(s.tasks, TaskRank, 17);
  }

  lemma {:induction false} SumAtMost(xs: seq<Task>, f: Task -> int, m: int)
    requires forall t | 0 <= t < |xs| :: f(xs[t]) <= m
    ensures Sum(xs, f) <= m * |xs|
  {
    if xs != [] { SumAtMost(xs[1..], f, m); }
  }

  // Results ---------------------------------------------------------------------------------------------

  /**
   * The done descriptor is sticky: each task that the poll of main found done is joined and never
   * skipped; a joined task has returned, and so logs no more; and at the end every task has been joined
   * or skipped.
   */
  lemma PolledTasksAreJoined(n: nat, mute: set<nat>, sched: seq<Action>)
    requires IsRun(Start(n, mute, true), sched)
    ensures var s := After(Start(n, mute, true), sched);
      && |s.tasks| == n
      && (forall t | 0 <= t < n && s.tasks[t].ready :: s.tasks[t].done > 0 && s.tasks[t].outcome != Skipped)
      && (forall t | 0 <= t < n && s.tasks[t].outcome == Joined :: s.tasks[t].pc == Exited && s.tasks[t].call == NoCall)
      && (s.main == LogStop ==> forall t | 0 <= t < n ::
            s.tasks[t].outcome != Open && (s.tasks[t].ready ==> s.tasks[t].outcome == Joined))
      && (s.main == LogStop && (forall t | 0 <= t < n :: s.tasks[t].outcome != Skipped) ==>
            forall t | 0 <= t < n :: s.tasks[t].pc == Exited)
  {
    InitInv(n, mute, true);
    RunInv(Start(n, mute, true), sched);
    var s := After(Start(n, mute, true), sched);
    assert forall t | 0 <= t < n :: TaskOk(s.tasks[t]);
  }

  /**
   * What the poll of main decides: when main is about to stop the log task, every task has been
   * cancelled if the poll timed out, in which case it had found none done, or was interrupted by a
   * second SIGINT; and otherwise none has. If it returned because tasks were done, one of those has been
   * joined; so with a single task, that task has returned.
   */
  lemma CancelledOrJoined(n: nat, mute: set<nat>, sched: seq<Action>)
    requires n >= 1 && IsRun(Start(n, mute, true), sched) && After(Start(n, mute, true), sched).main == LogStop
    ensures var s := After(Start(n, mute, true), sched);
      && |s.tasks| == n && s.polled.Some?
      && (forall t | 0 <= t < n :: s.tasks[t].cancelled <==> s.polled.value.TimedOut? || s.polled.value.Signalled?)
      && (s.polled.value.TimedOut? ==> NoneReady(s.tasks))
      && (s.polled.value.Ready? ==> exists t :: 0 <= t < n && s.tasks[t].ready && s.tasks[t].outcome == Joined)
      && (s.polled.value.Ready? && n == 1 ==> s.tasks[0].outcome == Joined && s.tasks[0].pc == Exited)
  {
    InitInv(n, mute, true);
    RunInv(Start(n, mute, true), sched);
    PolledTasksAreJoined(n, mute, sched);
    var s := After(Start(n, mute, true), sched);
    if s.polled.value.Ready? {
      var t :| 0 <= t < n && s.tasks[t].ready;
      assert s.tasks[t].outcome == Joined;
    }
  }

  /**
   * The stop request is honoured whatever becomes of the state fields: once main has cleared
   * g_running, every run is finite, and it can only end with main about to stop the log task and every
   * task either returned or waiting for the rest of an overlong line. In particular a task whose late
   * write of RUNNING overwrites STOPPING still ends, and no lock or join blocks main for ever, even if
   * no second SIGINT ever comes.
   */
  lemma ShutdownCompletes(n: nat, mute: set<nat>, before: seq<Action>, after: seq<Action>)
    requires IsRun(Start(n, mute, true), before)
    requires var s := After(Start(n, mute, true), before); !s.running && IsRun(s, after)
    ensures |after| <= 41 * n + 23
    ensures var s := After(After(Start(n, mute, true), before), after);
      |s.tasks| == n && (Stuck(s) ==> Final(s))
  {
    InitInv(n, mute, true);
    RunInv(Start(n, mute, true), before);
    var s := After(Start(n, mute, true), before);
    RunInv(s, after);
    RunRanks(s, after);
    RankBounds(s);
    var s' := After(s, after);
    RankBounds(s');
    if Stuck(s') { StuckIsFinished(s'); }
  }

  /** Nothing can happen, unless the poll of main fails or a second SIGINT comes. */
  ghost predicate Stuck(s: State) {
    forall a | a != MainStep(Signalled) && a != MainStep(Failed) :: !Enabled(s, a)
  }

  predicate Final(s: State) {
    && s.main == LogStop && s.mainCall == NoCall && s.logLock == None
    && forall t | 0 <= t < |s.tasks| :: s.tasks[t].pc == Exited || (s.tasks[t].pc == Flush && t in s.mute)
  }

  /** A task that main waits for can always move, until it has returned and lets main move. */
  lemma WaitEnds(s: State)
    requires Inv(s) && s.main.Wait? && s.mainCall.NoCall? && s.logLock.None?
    ensures Enabled(s, MainStep(TimedOut)) || Enabled(s, TaskStep(s.main.task, Quiet))
  {
    assert TaskOk(s.tasks[s.main.task]);
  }

  /** Whoever holds the log lock can release it. */
  lemma HolderMoves(s: State)
    requires LockInv(s) && s.logLock.Some?
    ensures !Stuck(s)
  {
    match s.logLock
    case Some(Main) => assert Enabled(s, MainStep(TimedOut));
    case Some(Thread(t)) => assert Enabled(s, TaskStep(t, Quiet));
  }

  lemma StuckIsFinished(s: State)
    requires Inv(s) && !s.running && Stuck(s)
    ensures Final(s)
  {
    assert !Enabled(s, MainStep(TimedOut)) && !Enabled(s, MainStep(Ready));
    if s.logLock.Some? { HolderMoves(s); }
    forall t | 0 <= t < |s.tasks|
      ensures s.tasks[t].pc == Exited || (s.tasks[t].pc == Flush && t in s.mute)
    {
      assert !Enabled(s, TaskStep(t, Quiet)) && TaskOk(s.tasks[t]);
    }
    if s.main.Wait? {
      WaitEnds(s);
      assert false;
    }
  }
}
