/**
 * Runs of the shutdown that show its limits: a skipped task that can still log when main is about to stop
 * the log task, and the lock that main would take twice if it did not unlink the handles first.
 */
module ShutdownWitnesses {
  import opened Prelude
  import T = TaskHelpers
  import opened Shutdowns
  import opened ShutdownRuns

  lemma OneStep(s: State, a: Action, rest: seq<Action>, s': State)
    requires Enabled(s, a) && Step(s, a) == s' && IsRun(s', rest)
    ensures IsRun(s, [a] + rest) && After(s, [a] + rest) == After(s', rest)
  {
    assert ([a] + rest)[1..] == rest;
  }

  /** Only main moves: no task is in a log call, between its done event and its end, or skipped after it. */
  ghost predicate MainAlone(s: State) {
    && Inv(s) && (s.logLock.None? || s.logLock == Some(Main))
    && forall t | 0 <= t < |s.tasks| :: Resting(s.tasks[t])
  }

  predicate Resting(x: Task) {
    x.call.NoCall? && (x.done > 0 ==> x.pc.Exited? && !x.outcome.Skipped?)
  }

  predicate AtLogStop(s: State) { s.main.LogStop? && s.mainCall.NoCall? }

  function Outcome(s: State): PollResult { if SomeDone(s.tasks) then Ready else TimedOut }

  lemma MainCanMove(s: State)
    requires MainAlone(s) && !AtLogStop(s)
    ensures Enabled(s, MainStep(Outcome(s)))
  {
    if s.main.Wait? { assert Resting(s.tasks[s.main.task]); }
  }

  lemma MainKeepsAlone(s: State, r: PollResult)
    requires MainAlone(s) && Enabled(s, MainStep(r)) && !StepMain(s, r).fault
    ensures MainAlone(StepMain(s, r))
  {
    MainStepInv(s, r);
    MainLocks(s, r);
    MainKeepsResting(s, r);
  }

  lemma MainKeepsResting(s: State, r: PollResult)
    requires MainInv(s) && Enabled(s, MainStep(r)) && !StepMain(s, r).fault
    requires forall t | 0 <= t < |s.tasks| :: Resting(s.tasks[t])
    ensures forall t | 0 <= t < |StepMain(s, r).tasks| :: Resting(StepMain(s, r).tasks[t])
  {
    MainLeaves(s, r);
    if Visiting(s) { assert Resting(s.tasks[s.main.k]); }
  }

  lemma MainRankBounds(s: State)
    requires MainInv(s)
    ensures MainRank(s.main, |s.tasks|) >= 0
  {}

  predicate SameTasks(s: State, s': State) {
    |s'.tasks| == |s.tasks| && forall t | 0 <= t < |s.tasks| :: SameForTask(s.tasks[t], s'.tasks[t])
  }

  /** Alone, main comes to log_task_stop, or to a fault if it does not unlink the handles. */
  lemma {:induction false} MainRuns(s: State) returns (sched: seq<Action>)
    requires MainAlone(s)
    ensures IsRun(s, sched)
    ensures var s' := After(s, sched);
      SameTasks(s, s') && if s'.fault then !s.clears else MainAlone(s') && AtLogStop(s')
    decreases MainRank(s.main, |s.tasks|) + CallRank(s.mainCall)
  {
    if AtLogStop(s) {
      sched := [];
    } else {
      var a := MainStep(Outcome(s));
      MainCanMove(s);
      FaultIff(s, a);
      var s1 := Step(s, a);
      var rest := [];
      if !s1.fault {
        MainGoesOn(s, Outcome(s));
        rest := MainRuns(s1);
        assert SameTasks(s, s1) && SameTasks(s1, After(s1, rest));
      }
      OneStep(s, a, rest, s1);
      sched := [a] + rest;
    }
  }

  lemma MainGoesOn(s: State, r: PollResult)
    requires MainAlone(s) && Enabled(s, MainStep(r)) && !StepMain(s, r).fault
    ensures var s' := StepMain(s, r);
      && MainAlone(s') && SameTasks(s, s') && s'.clears == s.clears
      && 0 <= MainRank(s'.main, |s'.tasks|) + CallRank(s'.mainCall) < MainRank(s.main, |s.tasks|) + CallRank(s.mainCall)
  {
    MainKeepsAlone(s, r);
    MainLeaves(s, r);
    MainMoves(s, r);
    MainRankBounds(StepMain(s, r));
    StepShape(s, MainStep(r));
  }

  /**
   * Clearing the handle's array before destroying the handle is what keeps main from locking the array
   * twice: without it, with any number of tasks from one, no run gets past destroying the first handle
   * to log_task_stop, and some run does lock the array twice.
   */
  lemma RelockWithoutClearing(n: nat, mute: set<nat>)
    requires n >= 1
    ensures forall sched | IsRun(Start(n, mute, false), sched) :: After(Start(n, mute, false), sched).main != LogStop
    ensures exists sched :: IsRun(Start(n, mute, false), sched) && After(Start(n, mute, false), sched).fault
  {
    var s := Start(n, mute, false);
    InitInv(n, mute, false);
    forall sched | IsRun(s, sched) ensures After(s, sched).main != LogStop {
      UnclearedRun(s, sched);
    }
    var sched := MainRuns(s);
    assert IsRun(s, sched);
  }

  // A skipped task ---------------------------------------------------------------------------------------

  /** Only task t moves, and it does not wait for input. */
  ghost predicate TaskAlone(s: State, t: nat) {
    && Inv(s) && s.clears && !s.running && t < |s.tasks| && !s.tasks[t].pc.Flush?
    && (s.logLock.None? || s.logLock == Some(Thread(t)))
  }

  /** Nothing but task t has changed. */
  predicate OnlyTask(s: State, s': State, t: nat) {
    && |s'.tasks| == |s.tasks| && s'.main == s.main && s'.mainCall == s.mainCall
    && forall u | 0 <= u < |s.tasks| && u != t :: s'.tasks[u] == s.tasks[u]
  }

  lemma TaskGoesOn(s: State, t: nat)
    requires TaskAlone(s, t) && !s.tasks[t].pc.Exited?
    ensures Enabled(s, TaskStep(t, Quiet))
    ensures var s' := StepTask(s, t, Quiet);
      TaskAlone(s', t) && OnlyTask(s, s', t) && s'.tasks[t].outcome == s.tasks[t].outcome
  {
    TaskTakesFree(s, t, Quiet);
    TaskStepInv(s, t, Quiet);
  }

  lemma TaskRankBounds(x: Task)
    ensures TaskRank(x) >= 0
  {}

  /** Alone, a task returns once g_running is 0. */
  lemma {:induction false} TaskRuns(s: State, t: nat) returns (sched: seq<Action>)
    requires TaskAlone(s, t)
    ensures IsRun(s, sched)
    ensures var s' := After(s, sched);
      && TaskAlone(s', t) && OnlyTask(s, s', t) && s'.tasks[t].pc.Exited? && s'.tasks[t].outcome == s.tasks[t].outcome
    decreases TaskRank(s.tasks[t])
  {
    if s.tasks[t].pc.Exited? {
      sched := [];
    } else {
      TaskGoesOn(s, t);
      var s1 := StepTask(s, t, Quiet);
      AdvanceRank(s.tasks[t], Quiet);
      TaskRankBounds(s1.tasks[t]);
      var rest := TaskRuns(s1, t);
      OneStep(s, TaskStep(t, Quiet), rest, s1);
      sched := [TaskStep(t, Quiet)] + rest;
    }
  }

  /** Task 1 has started, logged, and come to its poll. */
  function Polls(n: nat, mute: set<nat>): State
    requires n >= 2
  {
    var s := Start(n, mute, true);
    s.(tasks := s.tasks[1 := s.tasks[1].(state := T.Running, pc := Poll)])
  }

  lemma StartsPolling(n: nat, mute: set<nat>) returns (sched: seq<Action>)
    requires n >= 2
    ensures IsRun(Start(n, mute, true), sched) && After(Start(n, mute, true), sched) == Polls(n, mute)
  {
    var s0 := Start(n, mute, true);
    var a := TaskStep(1, Quiet);
    var s1 := StepTask(s0, 1, Quiet);
    var s2 := StepTask(s1, 1, Quiet);
    var s3 := StepTask(s2, 1, Quiet);
    var s4 := StepTask(s3, 1, Quiet);
    assert StepTask(s4, 1, Quiet).tasks == Polls(n, mute).tasks;
    OneStep(s4, a, [], Polls(n, mute));
    OneStep(s3, a, [a] + [], s4);
    OneStep(s2, a, [a] + ([a] + []), s3);
    OneStep(s1, a, [a] + ([a] + ([a] + [])), s2);
    OneStep(s0, a, [a] + ([a] + ([a] + ([a] + []))), s1);
    sched := [a] + ([a] + ([a] + ([a] + ([a] + []))));
  }

  /** Then main receives SIGINT and clears g_running. */
  function Clears(n: nat, mute: set<nat>): State
    requires n >= 2
  {
    Polls(n, mute).(running := false, main := Take(StopAll), mainCall := WantLock)
  }

  lemma ClearsRunning(n: nat, mute: set<nat>)
    requires n >= 2
    ensures var sched := [MainStep(Ready)] + ([MainStep(Ready)] + []);
      IsRun(Polls(n, mute), sched) && After(Polls(n, mute), sched) == Clears(n, mute)
  {
    var s := Polls(n, mute).(main := Clear);
    OneStep(s, MainStep(Ready), [], Clears(n, mute));
    OneStep(Polls(n, mute), MainStep(Ready), [MainStep(Ready)] + [], s);
  }

  lemma {:induction false} RunAppend(s: State, first: seq<Action>, second: seq<Action>)
    requires IsRun(s, first) && IsRun(After(s, first), second)
    ensures IsRun(s, first + second) && After(s, first + second) == After(After(s, first), second)
    decreases |first|
  {
    if first == [] {
      assert first + second == second;
    } else {
      assert (first + second)[1..] == first[1..] + second;
      RunAppend(Step(s, first[0]), first[1..], second);
    }
  }

  lemma ClearsInv(n: nat, mute: set<nat>)
    requires n >= 2
    ensures TaskAlone(Clears(n, mute), 0)
  {}

  /** Task 0 has returned, and everybody else rests. */
  lemma ReturnedIsAlone(n: nat, mute: set<nat>, s: State)
    requires n >= 2 && TaskAlone(s, 0) && OnlyTask(Clears(n, mute), s, 0)
    requires s.tasks[0].pc.Exited? && s.tasks[0].outcome.Open?
    ensures MainAlone(s) && s.tasks[1].pc.Poll? && s.tasks[1].call.NoCall?
  {
    var s0 := Clears(n, mute);
    assert TaskOk(s.tasks[0]);
    forall t | 0 <= t < |s.tasks| ensures Resting(s.tasks[t]) {
      if t > 0 { assert s.tasks[t] == s0.tasks[t] && Resting(s0.tasks[t]); }
    }
  }

  /**
   * Main is about to stop the log task, has joined task 0 and skipped task 1, and the next statement of
   * task 1, if it finds a line of input, begins a log call.
   */
  predicate CanLogLate(s: State) {
    && AtLogStop(s) && |s.tasks| >= 2 && s.tasks[0].outcome.Joined? && s.tasks[1].outcome.Skipped?
    && Enabled(s, TaskStep(1, Line)) && s.tasks[1].call.NoCall? && Step(s, TaskStep(1, Line)).tasks[1].call.WantLock?
  }

  lemma JoinedAndSkipped(s: State)
    requires MainAlone(s) && AtLogStop(s) && |s.tasks| >= 2 && s.tasks[0].pc.Exited?
    requires s.tasks[1].pc.Poll? && s.tasks[1].call.NoCall?
    ensures CanLogLate(s)
  {
    assert TaskOk(s.tasks[0]) && TaskOk(s.tasks[1]) && Resting(s.tasks[0]);
  }

  lemma SkippedRun(n: nat, mute: set<nat>) returns (sched: seq<Action>)
    requires n >= 2
    ensures IsRun(Start(n, mute, true), sched)
    ensures CanLogLate(After(Start(n, mute, true), sched)) && MainAlone(After(Start(n, mute, true), sched))
  {
    var s0 := Start(n, mute, true);
    var first := StartsPolling(n, mute);
    var second := [MainStep(Ready)] + ([MainStep(Ready)] + []);
    ClearsRunning(n, mute);
    ClearsInv(n, mute);
    var third := TaskRuns(Clears(n, mute), 0);
    var s := After(Clears(n, mute), third);
    ReturnedIsAlone(n, mute, s);
    var fourth := MainRuns(s);
    var end := After(s, fourth);
    assert SameForTask(s.tasks[0], end.tasks[0]) && SameForTask(s.tasks[1], end.tasks[1]);
    JoinedAndSkipped(end);
    RunAppend(Clears(n, mute), third, fourth);
    RunAppend(Polls(n, mute), second, third + fourth);
    RunAppend(s0, first, second + (third + fourth));
    sched := first + (second + (third + fourth));
  }

  /** A task that is skipped can still log: for any number of tasks from two there is such a run. */
  lemma SkippedCanLog(n: nat, mute: set<nat>)
    requires n >= 2
    ensures exists sched :: IsRun(Start(n, mute, true), sched) && CanLogLate(After(Start(n, mute, true), sched))
  {
    var sched := SkippedRun(n, mute);
  }

  // A task whose input stops ----------------------------------------------------------------------------

  /** The only task has read the beginning of an overlong line, warned about it, and waits for the rest. */
  function Waits(mute: set<nat>): State {
    var s := Start(1, mute, true);
    s.(tasks := s.tasks[0 := s.tasks[0].(state := T.Running, pc := Flush)])
  }

  lemma StartsWaiting(mute: set<nat>) returns (sched: seq<Action>)
    ensures IsRun(Start(1, mute, true), sched) && After(Start(1, mute, true), sched) == Waits(mute)
  {
    var s0 := Start(1, mute, true);
    var a := TaskStep(0, Overlong);
    var s1 := StepTask(s0, 0, Overlong);
    var s2 := StepTask(s1, 0, Overlong);
    var s3 := StepTask(s2, 0, Overlong);
    var s4 := StepTask(s3, 0, Overlong);
    var s5 := StepTask(s4, 0, Overlong);
    var late := PollsOverlong(mute, s5);
    OneStep(s4, a, late, s5);
    OneStep(s3, a, [a] + late, s4);
    OneStep(s2, a, [a] + ([a] + late), s3);
    OneStep(s1, a, [a] + ([a] + ([a] + late)), s2);
    OneStep(s0, a, [a] + ([a] + ([a] + ([a] + late))), s1);
    sched := [a] + ([a] + ([a] + ([a] + ([a] + late))));
  }

  lemma PollsOverlong(mute: set<nat>, s: State) returns (sched: seq<Action>)
    requires s == Waits(mute).(tasks := [Waits(mute).tasks[0].(pc := Poll)])
    ensures IsRun(s, sched) && After(s, sched) == Waits(mute)
  {
    var a := TaskStep(0, Overlong);
    var s1 := StepTask(s, 0, Overlong);
    var s2 := StepTask(s1, 0, Overlong);
    assert StepTask(s2, 0, Overlong).tasks == Waits(mute).tasks;
    OneStep(s2, a, [], Waits(mute));
    OneStep(s1, a, [a] + [], s2);
    OneStep(s, a, [a] + ([a] + []), s1);
    sched := [a] + ([a] + ([a] + []));
  }

  lemma WaitsAndStops(mute: set<nat>)
    ensures var s := Waits(mute).(running := false, main := Take(StopAll), mainCall := WantLock);
      var sched := [MainStep(Ready)] + ([MainStep(Ready)] + []);
      MainAlone(s) && IsRun(Waits(mute), sched) && After(Waits(mute), sched) == s
  {
    var s := Waits(mute).(main := Clear);
    OneStep(s, MainStep(Ready), [], Waits(mute).(running := false, main := Take(StopAll), mainCall := WantLock));
    OneStep(Waits(mute), MainStep(Ready), [MainStep(Ready)] + [], s);
  }

  lemma HangsForEver(s: State)
    requires AtLogStop(s) && |s.tasks| == 1 && s.tasks[0].pc.Flush? && s.tasks[0].call.NoCall? && 0 in s.mute
    ensures Stuck(s)
  {}

  /**
   * A task that reads the beginning of an overlong line whose rest never comes is never heard of again:
   * main skips it, and the shutdown protocol comes to rest with the task still
   * waiting in its read.
   */
  lemma MuteTaskHangs(mute: set<nat>)
    requires 0 in mute
    ensures exists sched ::
      && IsRun(Start(1, mute, true), sched)
      && var s := After(Start(1, mute, true), sched);
        && Stuck(s) && AtLogStop(s) && |s.tasks| == 1
        && s.tasks[0].pc.Flush? && s.tasks[0].outcome.Skipped?
  {
    var first := StartsWaiting(mute);
    var second := [MainStep(Ready)] + ([MainStep(Ready)] + []);
    WaitsAndStops(mute);
    var s := After(Waits(mute), second);
    var third := MainRuns(s);
    var end := After(s, third);
    assert SameForTask(s.tasks[0], end.tasks[0]) && TaskOk(end.tasks[0]);
    RunInv(s, third);
    HangsForEver(end);
    RunAppend(Waits(mute), second, third);
    RunAppend(Start(1, mute, true), first, second + third);
    var sched := first + (second + third);
    assert IsRun(Start(1, mute, true), sched);
  }
}
