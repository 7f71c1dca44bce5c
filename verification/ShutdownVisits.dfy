/**
 * What main does to each task on its way, whatever the tasks do meanwhile: it stops every one of them,
 * joins exactly those that are done when it comes to them, and takes a fixed number of statements.
 */
module ShutdownVisits {
  import T = TaskHelpers
  import opened Shutdowns

  lemma {:induction false} RunClears(s: State, sched: seq<Action>)
    requires Inv(s) && s.clears && IsRun(s, sched)
    ensures Inv(After(s, sched)) && After(s, sched).clears && |After(s, sched).tasks| == |s.tasks|
    decreases |sched|
  {
    if sched != [] {
      StepClears(s, sched[0]);
      RunClears(Step(s, sched[0]), sched[1..]);
    }
  }

  lemma StepClears(s: State, a: Action)
    requires Inv(s) && s.clears && Enabled(s, a)
    ensures Inv(Step(s, a)) && Step(s, a).clears && |Step(s, a).tasks| == |s.tasks| && !Step(s, a).fault
  {
    FaultIff(s, a);
    StepInv(s, a);
    StepShape(s, a);
  }

  // Joining ---------------------------------------------------------------------------------------------

  /** Main is about to look at task t in task_array_join_all. */
  predicate LooksAt(s: State, t: nat) { s.main == At(JoinAll, t) && s.mainCall.NoCall? }

  /** What a statement of main makes of the outcome of task t. */
  predicate Settles(s: State, s': State, t: nat)
    requires t < |s.tasks| && t < |s'.tasks|
  {
    var x, y := s.tasks[t], s'.tasks[t];
    && (!x.outcome.Open? ==> y.outcome == x.outcome)
    && (x.outcome.Open? && y.outcome.Skipped? ==> LooksAt(s, t) && x.done == 0)
    && (x.outcome.Open? && y.outcome.Joined? ==> s.main == Wait(t))
    && (LooksAt(s, t) && x.done == 0 ==> y.outcome.Skipped?)
    && (s'.main == Wait(t) ==> s.main == Wait(t) || LooksAt(s, t))
  }

  lemma VisitSettles(s: State, t: nat)
    requires MainInv(s) && SlotInv(s) && t < |s.tasks| && Visiting(s)
    ensures t < |VisitSlot(s, s.main.phase, s.main.k).tasks| && Settles(s, VisitSlot(s, s.main.phase, s.main.k), t)
  {}

  lemma FinishSettles(s: State, t: nat)
    requires MainInv(s) && t < |s.tasks| && Finishing(s) && !FinishSlot(s, s.main.task).fault && !s.fault
    ensures t < |FinishSlot(s, s.main.task).tasks| && Settles(s, FinishSlot(s, s.main.task), t)
  {}

  lemma MainSettles(s: State, t: nat, r: PollResult)
    requires MainInv(s) && SlotInv(s) && t < |s.tasks| && !s.fault && !StepMain(s, r).fault
    ensures t < |StepMain(s, r).tasks| && Settles(s, StepMain(s, r), t)
  {
    if Visiting(s) { VisitSettles(s, t); } else if Finishing(s) { FinishSettles(s, t); }
  }

  /** An outcome is final, and a task that is done is not skipped any more. */
  lemma StepSettles(s: State, a: Action, t: nat)
    requires Inv(s) && s.clears && t < |s.tasks| && Enabled(s, a)
    ensures t < |Step(s, a).tasks|
    ensures var x, y := s.tasks[t], Step(s, a).tasks[t];
      && y.done >= x.done
      && (!x.outcome.Open? ==> y.outcome == x.outcome)
      && (x.done > 0 && !x.outcome.Skipped? ==> !y.outcome.Skipped?)
      && (x.outcome.Open? && y.outcome.Skipped? ==> a.MainStep? && LooksAt(s, t))
  {
    StepClears(s, a);
    match a
    case TaskStep(u, input) =>
      TaskTakesFree(s, u, input);
      TaskAdvances(s.tasks[u], s.running, input);
    case MainStep(r) =>
      MainLeaves(s, r);
      MainSettles(s, t, r);
      assert SameForTask(s.tasks[t], StepMain(s, r).tasks[t]);
  }

  lemma {:induction false} RunSettles(s: State, sched: seq<Action>, t: nat)
    requires Inv(s) && s.clears && t < |s.tasks| && IsRun(s, sched)
    ensures t < |After(s, sched).tasks|
    ensures var x, y := s.tasks[t], After(s, sched).tasks[t];
      && (!x.outcome.Open? ==> y.outcome == x.outcome)
      && (x.done > 0 && !x.outcome.Skipped? ==> !y.outcome.Skipped?)
    decreases |sched|
  {
    if sched != [] {
      StepSettles(s, sched[0], t);
      StepClears(s, sched[0]);
      RunSettles(Step(s, sched[0]), sched[1..], t);
    }
  }

  lemma PrefixStep(s: State, sched: seq<Action>, k: nat)
    requires sched != [] && k < |sched| && Enabled(s, sched[0]) && IsRun(Step(s, sched[0]), sched[1..][..k])
    ensures IsRun(s, sched[..k + 1]) && After(s, sched[..k + 1]) == After(Step(s, sched[0]), sched[1..][..k])
  {
    assert sched[..k + 1][1..] == sched[1..][..k];
  }

  lemma StillOpen(s: State, a: Action, t: nat)
    requires Inv(s) && s.clears && t < |s.tasks| && Enabled(s, a) && !Step(s, a).fault && t < |Step(s, a).tasks|
    requires s.tasks[t].outcome.Open? && s.main != Wait(t) && !(a.MainStep? && LooksAt(s, t))
    ensures Step(s, a).tasks[t].outcome.Open? && Step(s, a).main != Wait(t)
  {
    if a.MainStep? {
      MainSettles(s, t, a.result);
    } else {
      TaskTakesFree(s, a.t, a.input);
      TaskAdvances(s.tasks[a.t], s.running, a.input);
    }
  }

  lemma {:induction false} FindVisit(s: State, sched: seq<Action>, t: nat) returns (k: nat)
    requires Inv(s) && s.clears && t < |s.tasks| && IsRun(s, sched)
    requires s.tasks[t].outcome.Open? && s.main != Wait(t)
    requires t < |After(s, sched).tasks| && !After(s, sched).tasks[t].outcome.Open?
    ensures k < |sched| && IsRun(s, sched[..k]) && t < |After(s, sched[..k]).tasks|
    ensures LooksAt(After(s, sched[..k]), t) && sched[k].MainStep?
    ensures After(s, sched).tasks[t].outcome == if After(s, sched[..k]).tasks[t].done > 0 then Joined else Skipped
    decreases |sched|
  {
    var a := sched[0];
    var s1 := Step(s, a);
    StepClears(s, a);
    StepSettles(s, a, t);
    RunSettles(s1, sched[1..], t);
    if a.MainStep? && LooksAt(s, t) {
      MainSettles(s, t, a.result);
      k := 0;
      assert sched[..0] == [];
    } else {
      StillOpen(s, a, t);
      k := FindVisit(s1, sched[1..], t);
      PrefixStep(s, sched, k);
      k := k + 1;
    }
  }

  /**
   * Exactly who is joined: each task with an outcome was looked at by main at one moment of the run, and
   * it was joined if its done event had been written by then, whether or not the poll had seen it, and
   * skipped otherwise.
   */
  lemma JoinedIffDone(n: nat, mute: set<nat>, sched: seq<Action>, t: nat)
    requires IsRun(Start(n, mute, true), sched) && t < n
    requires t < |After(Start(n, mute, true), sched).tasks| && After(Start(n, mute, true), sched).tasks[t].outcome != Open
    ensures exists k | 0 <= k < |sched| ::
      && IsRun(Start(n, mute, true), sched[..k])
      && var s := After(Start(n, mute, true), sched[..k]);
        && LooksAt(s, t) && sched[k].MainStep? && t < |s.tasks|
        && (After(Start(n, mute, true), sched).tasks[t].outcome == if s.tasks[t].done > 0 then Joined else Skipped)
  {
    InitInv(n, mute, true);
    var k := FindVisit(Start(n, mute, true), sched, t);
  }

  /** A task that is done before main has looked at it is never skipped. */
  lemma DoneIsNotSkipped(n: nat, mute: set<nat>, before: seq<Action>, after: seq<Action>, t: nat)
    requires IsRun(Start(n, mute, true), before) && IsRun(After(Start(n, mute, true), before), after) && t < n
    requires var s := After(Start(n, mute, true), before); t < |s.tasks| && s.tasks[t].done > 0 && s.tasks[t].outcome == Open
    ensures var s := After(After(Start(n, mute, true), before), after);
      t < |s.tasks| && s.tasks[t].outcome != Skipped && (s.main == LogStop ==> s.tasks[t].outcome == Joined)
  {
    InitInv(n, mute, true);
    RunClears(Start(n, mute, true), before);
    var s := After(Start(n, mute, true), before);
    RunSettles(s, after, t);
    RunClears(s, after);
  }

  // Stopping ---------------------------------------------------------------------------------------------

  /** Main has come past task t in task_array_stop_all. */
  predicate Told(main: MainPc, t: nat) {
    match main
    case Serve => false
    case Clear => false
    case Take(p) => !p.StopAll?
    case At(p, k) => p.StopAll? ==> t < k
    case _ => true
  }

  /** The task is between its own two writes of the state field. */
  predicate InLoop(pc: TaskPc) { pc.ReadRunning? || pc.ReadState? || pc.Poll? || pc.Flush? || pc.Mark? }

  /** What main has last written to the state of task t. */
  function FromMain(s: State, t: nat): T.TaskState {
    if Destroyed(s.main, |s.tasks|) > t then T.Stopped else if Told(s.main, t) then T.Stopping else T.Init
  }

  /** The last of main and the task to write the state field wrote this. */
  predicate StateOk(s: State, t: nat)
    requires t < |s.tasks|
  {
    var x := s.tasks[t];
    && (x.pc.Begin? ==> x.state == FromMain(s, t))
    && (InLoop(x.pc) && !Told(s.main, t) ==> x.state == T.Running)
    && (!x.pc.Begin? && !InLoop(x.pc) && Destroyed(s.main, |s.tasks|) > t ==> x.state == T.Stopped)
  }

  ghost predicate StatesOk(s: State) {
    forall t | 0 <= t < |s.tasks| :: StateOk(s, t)
  }

  /** What a task has become that had started when main came to stop it. */
  predicate HeardStop(s: State, t: nat)
    requires t < |s.tasks|
  {
    var x := s.tasks[t];
    && !x.pc.Begin?
    && (Told(s.main, t) ==> !x.state.Running? && !x.state.Init?)
    && (Told(s.main, t) && InLoop(x.pc) && Destroyed(s.main, |s.tasks|) <= t ==> x.state == T.Stopping)
  }

  lemma StartStates(n: nat, mute: set<nat>)
    ensures StatesOk(Start(n, mute, true))
  {}

  /** How a task moves through its states. */
  predicate Moves(x: Task, y: Task) {
    if y.pc.Begin? then x.pc.Begin? && y.state == x.state
    else if InLoop(y.pc) then
      (InLoop(x.pc) && y.state == x.state) || (x.pc.Begin? && y.state.Running?)
    else
      (!InLoop(x.pc) && !x.pc.Begin? && y.state == x.state) || (InLoop(x.pc) && y.state.Stopped?)
  }

  lemma NextMoves(x: Task, running: bool, input: Input)
    ensures Moves(x, NextTask(x, running, input))
  {}

  lemma AdvanceMoves(x: Task, running: bool, input: Input)
    ensures Moves(x, Advance(x, running, input))
  {
    if x.call.NoCall? { NextMoves(x, running, input); }
  }

  lemma TaskKeepsStates(s: State, t: nat, input: Input)
    requires Inv(s) && StatesOk(s) && Enabled(s, TaskStep(t, input))
    ensures StatesOk(StepTask(s, t, input))
    ensures forall u | 0 <= u < |s.tasks| && HeardStop(s, u) :: HeardStop(StepTask(s, t, input), u)
  {
    TaskTakesFree(s, t, input);
    AdvanceMoves(s.tasks[t], s.running, input);
    var s' := StepTask(s, t, input);
    forall u | 0 <= u < |s.tasks| ensures StateOk(s', u) && (HeardStop(s, u) ==> HeardStop(s', u)) {
      assert StateOk(s, u);
    }
  }

  lemma VisitKeepsStates(s: State, u: nat)
    requires MainInv(s) && SlotInv(s) && Visiting(s) && u < |s.tasks| && StateOk(s, u)
    ensures var s' := VisitSlot(s, s.main.phase, s.main.k);
      u < |s'.tasks| && StateOk(s', u) && (HeardStop(s, u) ==> HeardStop(s', u))
  {}

  lemma FinishKeepsStates(s: State, u: nat)
    requires MainInv(s) && SlotInv(s) && Finishing(s) && u < |s.tasks| && StateOk(s, u)
    requires !FinishSlot(s, s.main.task).fault && !s.fault
    ensures var s' := FinishSlot(s, s.main.task);
      u < |s'.tasks| && StateOk(s', u) && (HeardStop(s, u) ==> HeardStop(s', u))
  {}

  lemma PlainKeepsStates(s: State, r: PollResult, u: nat)
    requires MainInv(s) && SlotInv(s) && !Visiting(s) && !Finishing(s) && u < |s.tasks| && StateOk(s, u)
    requires !StepMain(s, r).fault && !s.fault
    ensures var s' := StepMain(s, r);
      u < |s'.tasks| && StateOk(s', u) && (HeardStop(s, u) ==> HeardStop(s', u))
  {}

  lemma StepKeepsStates(s: State, a: Action)
    requires Inv(s) && s.clears && StatesOk(s) && Enabled(s, a)
    ensures StatesOk(Step(s, a)) && |Step(s, a).tasks| == |s.tasks|
    ensures forall u | 0 <= u < |s.tasks| && HeardStop(s, u) :: HeardStop(Step(s, a), u)
  {
    StepClears(s, a);
    match a
    case TaskStep(t, input) => TaskKeepsStates(s, t, input);
    case MainStep(r) =>
      var s' := StepMain(s, r);
      forall u | 0 <= u < |s.tasks| ensures StateOk(s', u) && (HeardStop(s, u) ==> HeardStop(s', u)) {
        if Visiting(s) { VisitKeepsStates(s, u); }
        else if Finishing(s) { FinishKeepsStates(s, u); }
        else { PlainKeepsStates(s, r, u); }
      }
  }

  lemma {:induction false} RunKeepsStates(s: State, sched: seq<Action>)
    requires Inv(s) && s.clears && StatesOk(s) && IsRun(s, sched)
    ensures StatesOk(After(s, sched)) && |After(s, sched).tasks| == |s.tasks|
    ensures forall u | 0 <= u < |s.tasks| && HeardStop(s, u) :: HeardStop(After(s, sched), u)
    decreases |sched|
  {
    if sched != [] {
      StepClears(s, sched[0]);
      StepKeepsStates(s, sched[0]);
      RunKeepsStates(Step(s, sched[0]), sched[1..]);
    }
  }

  /**
   * The stop request reaches every task: in every reachable state, a task that main has passed in
   * task_array_stop_all and that has not started is STOPPING, until main destroys its handle; and when
   * main is about to stop the log task, every task that has written its done event is STOPPED.
   */
  lemma StopsEveryTask(n: nat, mute: set<nat>, sched: seq<Action>, t: nat)
    requires IsRun(Start(n, mute, true), sched) && t < n
    ensures var s := After(Start(n, mute, true), sched);
      && t < |s.tasks|
      && (s.tasks[t].pc.Begin? && !Told(s.main, t) ==> s.tasks[t].state == T.Init)
      && (s.tasks[t].pc.Begin? && Told(s.main, t) && s.tasks[t].slotted ==> s.tasks[t].state == T.Stopping)
      && (s.main == LogStop && s.tasks[t].done > 0 ==> s.tasks[t].state == T.Stopped)
  {
    InitInv(n, mute, true);
    StartStates(n, mute);
    RunClears(Start(n, mute, true), sched);
    RunKeepsStates(Start(n, mute, true), sched);
    var s := After(Start(n, mute, true), sched);
    assert StateOk(s, t) && TaskOk(s.tasks[t]);
  }

  /**
   * A task that has started before main passes it is told for good: from then on its state is never
   * RUNNING again, and it is STOPPING as long as it is in its loop and its handle is not destroyed.
   */
  lemma StartedTaskHears(n: nat, mute: set<nat>, before: seq<Action>, after: seq<Action>, t: nat)
    requires IsRun(Start(n, mute, true), before) && IsRun(After(Start(n, mute, true), before), after) && t < n
    requires var s := After(Start(n, mute, true), before); t < |s.tasks| && !s.tasks[t].pc.Begin? && !Told(s.main, t)
    ensures var s := After(After(Start(n, mute, true), before), after);
      && t < |s.tasks|
      && (Told(s.main, t) ==> s.tasks[t].state == T.Stopping || s.tasks[t].state == T.Stopped)
      && (Told(s.main, t) && InLoop(s.tasks[t].pc) && s.tasks[t].slotted ==> s.tasks[t].state == T.Stopping)
  {
    InitInv(n, mute, true);
    StartStates(n, mute);
    RunClears(Start(n, mute, true), before);
    RunKeepsStates(Start(n, mute, true), before);
    var s := After(Start(n, mute, true), before);
    RunClears(s, after);
    assert HeardStop(s, t);
    RunKeepsStates(s, after);
    assert HeardStop(After(s, after), t);
  }
}
