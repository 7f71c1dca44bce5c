/**
 * How many statements main and the tasks execute, log calls included, and what keeps them waiting.
 */
module ShutdownCounts {
  import opened Prelude
  import T = TaskHelpers
  import opened Shutdowns
  import opened ShutdownRuns

  // Main ------------------------------------------------------------------------------------------------

  function Joins(x: Task): int { if x.outcome.Joined? then 1 else 0 }

  predicate HasCancelled(s: State) { s.polled.Some? && Cancels(s.polled.value) }

  /** The statements of main up to task_array_join_all. */
  function ToJoin(n: nat, cancels: bool): int {
    if n == 0 then 10 else if cancels then 7 * n + 17 else 4 * n + 11
  }

  /** The statements of main up to the given one, with n tasks, j of them joined. */
  function Reading(main: MainPc, n: nat, j: int, cancels: bool): int {
    match main
    case Serve => 0
    case Clear => 1
    case Take(StopAll) => 4
    case At(StopAll, k) => 5 + 3 * k
    case Take(PollAll) => 3 * n + 8
    case At(PollAll, k) => 3 * n + 9 + k
    case PollWait => 4 * n + 10
    case Take(CancelAll) => 4 * n + 13
    case At(CancelAll, k) => 4 * n + 14 + 3 * k
    case Take(JoinAll) => ToJoin(n, cancels)
    case At(JoinAll, k) => ToJoin(n, cancels) + 1 + 3 * k + j
    case Wait(k) => ToJoin(n, cancels) + 2 + 3 * k + j
    case Take(DestroyAll) => ToJoin(n, cancels) + 3 * n + 4 + j
    case At(DestroyAll, k) => ToJoin(n, cancels) + 3 * n + 5 + j + 8 * k
    case Unlink(k) => ToJoin(n, cancels) + 3 * n + 8 + j + 8 * k
    case Vacate(k) => ToJoin(n, cancels) + 3 * n + 9 + j + 8 * k
    case Destroy(k) => ToJoin(n, cancels) + 3 * n + 10 + j + 8 * k
    case LogStop => ToJoin(n, cancels) + 11 * n + 8 + j
  }

  /** Of a log call, taking and releasing the lock may still be to come. */
  function Meter(s: State): int {
    Reading(s.main, |s.tasks|, Sum(s.tasks, Joins), HasCancelled(s)) - CallRank(s.mainCall)
  }

  lemma {:induction false} SameJoins(xs: seq<Task>, ys: seq<Task>)
    requires |xs| == |ys| && forall t | 0 <= t < |xs| :: xs[t].outcome == ys[t].outcome
    ensures Sum(xs, Joins) == Sum(ys, Joins)
  {
    if xs != [] { SameJoins(xs[1..], ys[1..]); }
  }

  lemma VisitMeter(s: State)
    requires MainInv(s) && SlotInv(s) && PollInv(s) && Visiting(s)
    ensures Meter(VisitSlot(s, s.main.phase, s.main.k)) == Meter(s) + 1
  {
    var p, k := s.main.phase, s.main.k;
    SumUpdate(s.tasks, k, Visited(s.tasks[k], p), Joins);
  }

  lemma FinishMeter(s: State)
    requires MainInv(s) && Finishing(s) && !FinishSlot(s, s.main.task).fault && !s.fault
    ensures Meter(FinishSlot(s, s.main.task)) == Meter(s) + 1
  {
    FinishJoins(s);
  }

  lemma FinishJoins(s: State)
    requires MainInv(s) && Finishing(s) && !FinishSlot(s, s.main.task).fault && !s.fault
    ensures Sum(FinishSlot(s, s.main.task).tasks, Joins) == Sum(s.tasks, Joins) + if s.main.Wait? then 1 else 0
  {
    var k := s.main.task;
    SumUpdate(s.tasks, k, Finished(s.tasks[k], s.main, s.clears), Joins);
  }

  /** Main polls only if there are tasks. */
  predicate PollsTasks(s: State) { s.main.PollWait? || s.polled.Some? ==> |s.tasks| > 0 }

  lemma EndMeter(s: State)
    requires MainInv(s) && SlotInv(s) && PollInv(s) && PollsTasks(s) && Ending(s)
    ensures Meter(EndPhase(s, s.main.phase)) == Meter(s) + 1
  {
    if |s.tasks| > 0 { assert s.main.phase.PollAll? ==> s.tasks[0].slotted; }
  }

  lemma PollMeter(s: State, r: PollResult)
    requires MainInv(s) && PollInv(s) && Polling(s) && |s.tasks| > 0
    ensures Meter(AfterPoll(s, r)) == Meter(s) + 1
  {
    SameJoins(s.tasks, AfterPoll(s, r).tasks);
  }

  lemma NoneJoined(s: State)
    requires MainInv(s) && Dealt(s.main, |s.tasks|) == 0
    ensures Sum(s.tasks, Joins) == 0
  {
    SumZero(s.tasks, Joins);
  }

  lemma PlainMeter(s: State, r: PollResult)
    requires MainInv(s) && PollInv(s) && Plain(s) && Enabled(s, MainStep(r)) && !StepMain(s, r).fault
    ensures Meter(StepMain(s, r)) == Meter(s) + 1
  {
    if s.mainCall.NoCall? && s.main.Take? { TakeMeter(s, r); }
  }

  lemma TakeMeter(s: State, r: PollResult)
    requires MainInv(s) && PollInv(s) && s.main.Take? && s.mainCall.NoCall? && !s.fault && !StepMain(s, r).fault
    ensures Meter(StepMain(s, r)) == Meter(s) + 1
  {
    if s.main.phase.JoinAll? { NoneJoined(s); }
  }

  lemma MainMeter(s: State, r: PollResult)
    requires Inv(s) && PollsTasks(s) && Enabled(s, MainStep(r)) && !StepMain(s, r).fault
    ensures Meter(StepMain(s, r)) == Meter(s) + 1 && PollsTasks(StepMain(s, r))
  {
    StepShape(s, MainStep(r));
    if Visiting(s) { VisitMeter(s); }
    else if Finishing(s) { FinishMeter(s); }
    else if Ending(s) { EndMeter(s); }
    else if Polling(s) { PollMeter(s, r); }
    else { PlainMeter(s, r); }
    MainPollsTasks(s, r);
  }

  lemma MainPollsTasks(s: State, r: PollResult)
    requires Inv(s) && PollsTasks(s) && Enabled(s, MainStep(r)) && !StepMain(s, r).fault
    ensures PollsTasks(StepMain(s, r))
  {
    StepShape(s, MainStep(r));
    if Visiting(s) { VisitLeaves(s, s.main.phase, s.main.k); }
  }

  lemma TaskMeter(s: State, t: nat, input: Input)
    requires Inv(s) && PollsTasks(s) && Enabled(s, TaskStep(t, input))
    ensures Meter(StepTask(s, t, input)) == Meter(s) && PollsTasks(StepTask(s, t, input))
  {
    TaskTakesFree(s, t, input);
    TaskAdvances(s.tasks[t], s.running, input);
    SameJoins(s.tasks, StepTask(s, t, input).tasks);
  }

  function MainSteps(sched: seq<Action>): nat {
    if sched == [] then 0 else (if sched[0].MainStep? then 1 else 0) + MainSteps(sched[1..])
  }

  lemma {:induction false} RunMeter(s: State, sched: seq<Action>)
    requires Inv(s) && s.clears && PollsTasks(s) && IsRun(s, sched)
    ensures Inv(After(s, sched)) && |After(s, sched).tasks| == |s.tasks| && PollsTasks(After(s, sched))
    ensures Meter(After(s, sched)) == Meter(s) + MainSteps(sched)
    decreases |sched|
  {
    if sched != [] {
      var a := sched[0];
      FaultIff(s, a);
      StepInv(s, a);
      StepShape(s, a);
      match a {
        case TaskStep(t, input) => TaskMeter(s, t, input);
        case MainStep(r) => MainMeter(s, r);
      }
      RunMeter(Step(s, a), sched[1..]);
    }
  }

  /**
   * Main takes no detour: when it is about to stop the log task it has executed exactly 15 statements
   * for each of n tasks and one more for each task joined, with three more for each task and six more if
   * it has cancelled them, and 19 others, the two halves of every log call included.
   */
  lemma MainTakes(n: nat, mute: set<nat>, sched: seq<Action>)
    requires n >= 1 && IsRun(Start(n, mute, true), sched)
    requires var s := After(Start(n, mute, true), sched); s.main.LogStop? && s.mainCall.NoCall?
    ensures var s := After(Start(n, mute, true), sched);
      MainSteps(sched) == 15 * n + 19 + Sum(s.tasks, Joins) + if HasCancelled(s) then 3 * n + 6 else 0
  {
    InitInv(n, mute, true);
    RunMeter(Start(n, mute, true), sched);
  }

  // A task ----------------------------------------------------------------------------------------------

  /** The task after n statements with nobody in its way. */
  function Repeat(x: Task, running: bool, input: Input, n: nat): Task
    decreases n
  {
    if n == 0 then x else Repeat(Advance(x, running, input), running, input, n - 1)
  }

  /** How many log calls it begins in these statements. */
  function LogCalls(x: Task, running: bool, input: Input, n: nat): nat
    decreases n
  {
    if n == 0 then 0
    else (if x.call.WantLock? then 1 else 0) + LogCalls(Advance(x, running, input), running, input, n - 1)
  }

  lemma RepeatSplit(x: Task, running: bool, input: Input, n: nat)
    requires n > 0
    ensures Repeat(x, running, input, n) == Repeat(Advance(x, running, input), running, input, n - 1)
    ensures LogCalls(x, running, input, n) ==
      (if x.call.WantLock? then 1 else 0) + LogCalls(Advance(x, running, input), running, input, n - 1)
  {}

  /** A log call takes three statements, the one that makes it included, and leaves the task where that led. */
  lemma CallTakesTwo(x: Task, running: bool, input: Input, n: nat)
    requires x.call.WantLock? && n >= 2
    ensures Repeat(x, running, input, n) == Repeat(x.(call := NoCall), running, input, n - 2)
    ensures LogCalls(x, running, input, n) == 1 + LogCalls(x.(call := NoCall), running, input, n - 2)
  {
    RepeatSplit(x, running, input, n);
    RepeatSplit(x.(call := HasLock), running, input, n - 1);
  }

  /** The statements of one turn of the loop, and the log calls in it. */
  function Turn(input: Input): nat { match input case Quiet => 3 case Line => 5 case Overlong => 8 }

  function Messages(input: Input): nat { match input case Quiet => 0 case Line => 1 case Overlong => 2 }

  /**
   * One turn of the task's loop leaves the task as it was, and logs not at all without input, once for a
   * line, and twice for a line that overflows its buffer.
   */
  lemma LoopTurns(x: Task, input: Input)
    requires x.pc.ReadRunning? && x.call.NoCall? && x.state.Running?
    ensures Repeat(x, true, input, Turn(input)) == x && LogCalls(x, true, input, Turn(input)) == Messages(input)
  {
    var n := Turn(input);
    RepeatSplit(x, true, input, n);
    RepeatSplit(x.(pc := ReadState), true, input, n - 1);
    RepeatSplit(x.(pc := Poll), true, input, n - 2);
    if input.Line? {
      CallTakesTwo(x.(call := WantLock), true, input, n - 3);
    } else if input.Overlong? {
      OverlongTurns(x, input, n - 3);
    }
  }

  lemma OverlongTurns(x: Task, input: Input, n: nat)
    requires x.pc.ReadRunning? && x.call.NoCall? && x.state.Running? && n == 5
    ensures Repeat(x.(pc := Flush, call := WantLock), true, input, n) == x
    ensures LogCalls(x.(pc := Flush, call := WantLock), true, input, n) == 2
  {
    CallTakesTwo(x.(pc := Flush, call := WantLock), true, input, n);
    RepeatSplit(x.(pc := Flush), true, input, n - 2);
    CallTakesTwo(x.(call := WantLock), true, input, n - 3);
  }

  /** The task is about to find that it should stop: by g_running, or by its state. */
  predicate Leaves(x: Task, running: bool) {
    x.call.NoCall? && ((x.pc.ReadRunning? && !running) || (x.pc.ReadState? && !x.state.Running?))
  }

  /**
   * The end of a task: when it finds g_running cleared or its state not RUNNING it takes eight
   * statements to return, and logs twice in them; it is STOPPED and has raised its done event by one.
   */
  lemma TaskReturns(x: Task, running: bool, input: Input, n: nat)
    requires Leaves(x, running) && n == 8
    ensures Repeat(x, running, input, n) == x.(pc := Exited, state := T.Stopped, done := x.done + 1)
    ensures LogCalls(x, running, input, n) == 2
  {
    RepeatSplit(x, running, input, n);
    CallTakesTwo(x.(pc := Mark, call := WantLock), running, input, n - 1);
    MarksDone(x.(pc := Mark), running, input, n - 3);
  }

  /** A task that starts when g_running has been cleared takes three statements and one log call more. */
  lemma LateTaskReturns(x: Task, input: Input, n: nat)
    requires x.pc.Begin? && x.call.NoCall? && n == 11
    ensures Repeat(x, false, input, n) == x.(pc := Exited, state := T.Stopped, done := x.done + 1)
    ensures LogCalls(x, false, input, n) == 3
  {
    var y := x.(state := T.Running, pc := ReadRunning);
    RepeatSplit(x, false, input, n);
    CallTakesTwo(y.(call := WantLock), false, input, n - 1);
    TaskReturns(y, false, input, n - 3);
  }

  lemma MarksDone(x: Task, running: bool, input: Input, n: nat)
    requires x.pc.Mark? && x.call.NoCall? && n == 5
    ensures Repeat(x, running, input, n) == x.(pc := Exited, state := T.Stopped, done := x.done + 1)
    ensures LogCalls(x, running, input, n) == 1
  {
    RepeatSplit(x, running, input, n);
    Signals(x.(state := T.Stopped, pc := WriteDone), running, input, n - 1);
  }

  lemma Signals(x: Task, running: bool, input: Input, n: nat)
    requires x.pc.WriteDone? && x.call.NoCall? && n == 4
    ensures Repeat(x, running, input, n) == x.(pc := Exited, done := x.done + 1)
    ensures LogCalls(x, running, input, n) == 1
  {
    var y := x.(done := x.done + 1, pc := Return);
    RepeatSplit(x, running, input, n);
    CallTakesTwo(y.(call := WantLock), running, input, n - 1);
    RepeatSplit(y, running, input, n - 3);
  }

  // Waiting ---------------------------------------------------------------------------------------------

  /** Somebody else is inside a log call. */
  ghost predicate OtherLogs(s: State, w: Who) {
    (w != Main && s.mainCall.HasLock?) || exists u :: 0 <= u < |s.tasks| && w != Thread(u) && s.tasks[u].call.HasLock?
  }

  lemma LogLockBlocks(s: State, w: Who)
    requires LockInv(s) && (w.Thread? ==> w.t < |s.tasks|)
    ensures !Free(s.logLock, w) <==> OtherLogs(s, w)
  {
    match s.logLock
    case Some(Thread(u)) => assert s.tasks[u].call.HasLock?;
    case _ =>
  }

  /**
   * What keeps a task waiting: only a log call of somebody else, and the rest of an overlong line that
   * never comes.
   */
  lemma TaskWaitsIff(n: nat, mute: set<nat>, sched: seq<Action>, t: nat, input: Input)
    requires IsRun(Start(n, mute, true), sched) && t < n
    ensures var s := After(Start(n, mute, true), sched);
      && t < |s.tasks|
      && (!Enabled(s, TaskStep(t, input)) <==>
            || s.tasks[t].pc.Exited?
            || (s.tasks[t].call.NoCall? && s.tasks[t].pc.Flush? && t in mute)
            || (s.tasks[t].call.WantLock? && OtherLogs(s, Thread(t))))
  {
    InitInv(n, mute, true);
    RunInv(Start(n, mute, true), sched);
    var s := After(Start(n, mute, true), sched);
    LogLockBlocks(s, Thread(t));
    assert TaskOk(s.tasks[t]);
  }

  /**
   * What keeps main waiting before it stops the log task: a log call of somebody else, a task that it
   * joins, which has marked itself done, until it has returned, and the poll until its time is up.
   */
  lemma MainWaitsIff(n: nat, mute: set<nat>, sched: seq<Action>, r: PollResult)
    requires IsRun(Start(n, mute, true), sched)
    ensures var s := After(Start(n, mute, true), sched);
      && (s.main.Wait? ==> s.main.task < |s.tasks| && s.tasks[s.main.task].done > 0)
      && (!Enabled(s, MainStep(r)) <==>
            || (s.mainCall.NoCall? && s.main.LogStop?)
            || (s.mainCall.WantLock? && OtherLogs(s, Main))
            || (s.mainCall.NoCall? && s.main.Wait? && !s.tasks[s.main.task].pc.Exited?)
            || (s.mainCall.NoCall? && s.main.PollWait? && r == if SomeDone(s.tasks) then TimedOut else Ready))
  {
    InitInv(n, mute, true);
    RunInv(Start(n, mute, true), sched);
    var s := After(Start(n, mute, true), sched);
    LogLockBlocks(s, Main);
  }
}
