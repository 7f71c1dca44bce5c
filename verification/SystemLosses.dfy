/**
 * Every run of the shutdown protocol is realised by the whole program; so a task that was skipped can
 * make the program accept a message that it never prints.
 */
module SystemLosses {
  import opened FifoQueues
  import opened Systems
  import P = LogPipelines
  import L = LogShutdowns
  import S = Shutdowns
  import O = LogOvertaking
  import W = ShutdownWitnesses
  import X = LogLosses

  lemma OneStep(s: State, a: Action, rest: seq<Action>, s': State)
    requires Enabled(s, a) && Next(s, a) == s' && IsRun(s', rest)
    ensures IsRun(s, [a] + rest) && After(s, [a] + rest) == After(s', rest)
  {
    assert ([a] + rest)[1..] == rest;
  }

  lemma {:induction false} RunAppend(s: State, first: seq<Action>, second: seq<Action>)
    requires IsRun(s, first) && IsRun(After(s, first), second)
    ensures IsRun(s, first + second) && After(s, first + second) == After(After(s, first), second)
    decreases |first|
  {
    if first == [] {
      assert first + second == second;
    } else {
      assert (first + second)[1..] == first[1..] + second;
      RunAppend(Next(s, first[0]), first[1..], second);
    }
  }

  function Zeros(n: nat): Record { seq(n, _ => 0) }

  // Realising the shutdown protocol ----------------------------------------------------------------------

  /** The log task has not started, and main has not stopped it. */
  ghost predicate Calm(s: State) {
    Inv(s) && s.pipe.log.Hello? && s.pipe.calls[0].Idle? && !s.pipe.stopped
  }

  predicate SameQueue(s: State, s': State) {
    s'.pipe.q.itemSize == s.pipe.q.itemSize && s'.pipe.q.capacity == s.pipe.q.capacity
  }

  lemma SendKeepsCalm(s: State, w: S.Who)
    requires Calm(s) && Enabled(s, Send(w))
    ensures Calm(Next(s, Send(w))) && SameQueue(s, Next(s, Send(w)))
    ensures O.Remaining(Next(s, Send(w)).pipe.calls[Id(w)]) < O.Remaining(s.pipe.calls[Id(w)])
    ensures !s.pipe.calls[Id(w)].Idle?
  {
    NextInv(s, Send(w));
    assert Matches(CallOf(s.down, w), s.pipe.calls[Id(w)]);
    PipeCalls(s.pipe, Id(w));
    SendCalmly(s.pipe, Id(w));
  }

  lemma SendCalmly(p: P.State, t: nat)
    requires t < |p.calls| && P.Sends(p.calls[t]) && !p.fault && !P.Proceed(p, t).fault
    ensures var p' := P.Proceed(p, t);
      && p'.log == p.log && p'.q.itemSize == p.q.itemSize && p'.q.capacity == p.q.capacity
      && O.Remaining(p'.calls[t]) < O.Remaining(p.calls[t])
  {}

  /** The owner of the log lock finishes its call. */
  lemma {:induction false} Releases(s: State, w: S.Who) returns (sched: seq<Action>)
    requires Calm(s) && Known(s.down, w) && CallOf(s.down, w).HasLock?
    ensures IsRun(s, sched) && Calm(After(s, sched)) && SameQueue(s, After(s, sched))
    ensures After(s, sched).down == Moved(s.down, CallStep(w))
    decreases O.Remaining(s.pipe.calls[Id(w)])
  {
    assert Matches(CallOf(s.down, w), s.pipe.calls[Id(w)]);
    SendKeepsCalm(s, w);
    SendMoves(s, w);
    var s1 := Next(s, Send(w));
    var rest := [];
    if s1.down == s.down { rest := Releases(s1, w); }
    OneStep(s, Send(w), rest, s1);
    sched := [Send(w)] + rest;
  }

  /** With the log task at rest, the queue's lock is held only if the log lock is. */
  lemma LockIsHeld(s: State)
    requires Calm(s) && s.pipe.lock.Some?
    ensures s.down.logLock.Some?
  {
    var t := s.pipe.lock.value;
    var w := if t <= 1 then S.Main else S.Thread(t - 2);
    assert Known(s.down, w) && Matches(CallOf(s.down, w), s.pipe.calls[Id(w)]);
  }

  lemma OwnKeepsCalm(s: State, step: S.Action)
    requires Calm(s) && S.Enabled(s.down, step) && Known(s.down, Actor(step)) && CallOf(s.down, Actor(step)).NoCall?
    ensures var a := Own(step, Zeros(s.pipe.q.itemSize));
      && Enabled(s, a) && Calm(Next(s, a)) && SameQueue(s, Next(s, a)) && Next(s, a).down == S.Step(s.down, step)
  {
    NextInv(s, Own(step, Zeros(s.pipe.q.itemSize)));
  }

  lemma CallStepsAgree(d: S.State, step: S.Action)
    requires S.Enabled(d, step) && Known(d, Actor(step)) && !CallOf(d, Actor(step)).NoCall?
    ensures S.Step(d, step) == Moved(d, CallStep(Actor(step)))
  {}

  lemma Takes(s: State, step: S.Action)
    requires Calm(s) && S.Enabled(s.down, step) && Known(s.down, Actor(step)) && CallOf(s.down, Actor(step)).WantLock?
    ensures var a := Send(Actor(step));
      && Enabled(s, a) && Calm(Next(s, a)) && SameQueue(s, Next(s, a)) && Next(s, a).down == S.Step(s.down, step)
  {
    var w := Actor(step);
    if w.Main? { MainTakesFree(s.down); } else { S.TaskTakesFree(s.down, w.t, step.input); }
    if s.pipe.lock.Some? { LockIsHeld(s); }
    assert Matches(CallOf(s.down, w), s.pipe.calls[Id(w)]);
    SendKeepsCalm(s, w);
    CallStepsAgree(s.down, step);
  }

  lemma MainTakesFree(d: S.State)
    requires S.LockInv(d) && d.mainCall.WantLock? && S.Free(d.logLock, S.Main)
    ensures d.logLock.None?
  {}

  /** Whatever the shutdown protocol does, the program can do. */
  lemma StepRealised(s: State, step: S.Action) returns (sched: seq<Action>)
    requires Calm(s) && S.Enabled(s.down, step)
    ensures IsRun(s, sched) && Calm(After(s, sched)) && SameQueue(s, After(s, sched))
    ensures After(s, sched).down == S.Step(s.down, step)
  {
    var w := Actor(step);
    match CallOf(s.down, w)
    case NoCall =>
      OwnKeepsCalm(s, step);
      var a := Own(step, Zeros(s.pipe.q.itemSize));
      OneStep(s, a, [], Next(s, a));
      sched := [a] + [];
    case WantLock =>
      Takes(s, step);
      OneStep(s, Send(w), [], Next(s, Send(w)));
      sched := [Send(w)] + [];
    case HasLock =>
      CallStepsAgree(s.down, step);
      sched := Releases(s, w);
  }

  lemma {:induction false} RunRealised(s: State, down: seq<S.Action>) returns (sched: seq<Action>)
    requires Calm(s) && S.IsRun(s.down, down)
    ensures IsRun(s, sched) && Calm(After(s, sched)) && SameQueue(s, After(s, sched))
    ensures After(s, sched).down == S.After(s.down, down)
    decreases |down|
  {
    if down == [] {
      sched := [];
    } else {
      var first := StepRealised(s, down[0]);
      var second := RunRealised(After(s, first), down[1..]);
      RunAppend(s, first, second);
      sched := first + second;
    }
  }

  /**
   * Every run of the shutdown protocol is part of a run of the whole program: with Systems.Projects,
   * the simple log lock of the protocol is an exact account of the byte queue's lock.
   */
  lemma Realises(memory: seq<byte>, itemSize: nat, capacity: nat, start: int, n: nat, mute: set<nat>, down: seq<S.Action>)
    requires |memory| == Offset(itemSize, capacity) && S.IsRun(S.Start(n, mute, true), down)
    ensures exists sched: seq<Action> ::
      && IsRun(Init(memory, itemSize, capacity, start, n, mute), sched)
      && After(Init(memory, itemSize, capacity, start, n, mute), sched).down == S.After(S.Start(n, mute, true), down)
  {
    InitInv(memory, itemSize, capacity, start, n, mute);
    var sched := RunRealised(Init(memory, itemSize, capacity, start, n, mute), down);
  }

  // A lost message --------------------------------------------------------------------------------------

  /** The log task runs while everybody else rests. */
  lemma {:induction false} LogsRealised(s: State, pipe: seq<P.Action>) returns (sched: seq<Action>)
    requires Inv(s) && P.IsRun(s.pipe, pipe) && forall a | a in pipe :: a.Log?
    ensures IsRun(s, sched) && After(s, sched) == s.(pipe := P.After(s.pipe, pipe)) && Inv(After(s, sched))
    decreases |pipe|
  {
    if pipe == [] {
      sched := [];
    } else {
      var a := Log(pipe[0].own, pipe[0].fails);
      NextInv(s, a);
      var rest := LogsRealised(Next(s, a), pipe[1..]);
      OneStep(s, a, rest, Next(s, a));
      sched := [a] + rest;
    }
  }

  /** A thread runs through its call of fifo_queue_send. */
  lemma {:induction false} SendsRealised(s: State, w: S.Who, n: nat) returns (sched: seq<Action>)
    requires Inv(s) && Known(s.down, w) && P.IsRun(s.pipe, seq(n, _ => P.Step(Id(w))))
    ensures IsRun(s, sched) && After(s, sched).pipe == P.After(s.pipe, seq(n, _ => P.Step(Id(w))))
    decreases n
  {
    if n == 0 {
      sched := [];
    } else {
      assert Matches(CallOf(s.down, w), s.pipe.calls[Id(w)]);
      NextInv(s, Send(w));
      SendMoves(s, w);
      O.RepeatTail(Id(w), n);
      var rest := SendsRealised(Next(s, Send(w)), w, n - 1);
      OneStep(s, Send(w), rest, Next(s, Send(w)));
      sched := [Send(w)] + rest;
    }
  }

  lemma Resting(s: State)
    requires Calm(s) && W.MainAlone(s.down) && W.AtLogStop(s.down)
    ensures L.SendersIdle(s.pipe)
  {
    forall t | 0 < t < |s.pipe.calls| ensures s.pipe.calls[t].Idle? {
      var w := if t == 1 then S.Main else S.Thread(t - 2);
      assert w.Thread? ==> W.Resting(s.down.tasks[w.t]);
      assert Known(s.down, w) && Matches(CallOf(s.down, w), s.pipe.calls[Id(w)]);
    }
  }

  /** Main stops the log task, which drains the queue. */
  lemma Drains(s: State) returns (sched: seq<Action>)
    requires Calm(s) && W.MainAlone(s.down) && W.AtLogStop(s.down)
    ensures IsRun(s, sched) && After(s, sched).down == s.down && Inv(After(s, sched)) && X.Finished(After(s, sched).pipe)
    ensures SameQueue(s, After(s, sched))
  {
    Resting(s);
    NextInv(s, Stop);
    L.QuietNext(s.pipe, P.Stop);
    var s1 := Next(s, Stop);
    var pipe := X.DrainRuns(s1.pipe, Zeros(s.pipe.q.itemSize));
    var rest := LogsRealised(s1, pipe);
    OneStep(s, Stop, rest, s1);
    sched := [Stop] + rest;
  }

  /** The skipped task logs once more. */
  lemma LogsLate(s: State) returns (sched: seq<Action>)
    requires Inv(s) && X.Finished(s.pipe) && W.CanLogLate(s.down) && s.pipe.q.capacity >= 1
    ensures IsRun(s, sched)
    ensures After(s, sched).pipe.doneFd == 1 && OneLost(After(s, sched).pipe)
  {
    var m := Zeros(s.pipe.q.itemSize);
    var a := Own(S.TaskStep(1, S.Line), m);
    X.LateSend(s.pipe, 3, m);
    NextInv(s, a);
    var s1 := Next(s, a);
    assert s1.pipe == P.Compose(s.pipe, 3, m);
    var rest := SendsRealised(s1, S.Thread(1), 7);
    OneStep(s, a, rest, s1);
    sched := [a] + rest;
    assert |P.Bytes(s.pipe.accepted)| == |s.pipe.accepted|;
  }

  /** One more message has been accepted than printed. */
  predicate OneLost(p: P.State) { |p.accepted| == |p.printed| + 1 }

  /** Main skips a task, and the log task drains the queue and ends. */
  lemma SkipsAndDrains(s: State, n: nat) returns (sched: seq<Action>)
    requires Calm(s) && s.down == S.Start(n, s.down.mute, true) && n >= 2
    ensures IsRun(s, sched) && SameQueue(s, After(s, sched))
    ensures Inv(After(s, sched)) && X.Finished(After(s, sched).pipe) && W.CanLogLate(After(s, sched).down)
  {
    var down := W.SkippedRun(n, s.down.mute);
    var first := RunRealised(s, down);
    var second := Drains(After(s, first));
    RunAppend(s, first, second);
    sched := first + second;
  }

  /**
   * That no task is skipped is needed: with two tasks or more, and any queue that holds a message, there
   * is a run of the whole program in which main skips a task, the log task drains and signals that it is
   * done, and a message of that task is accepted and never printed.
   */
  lemma SkippedTaskLosesMessage(memory: seq<byte>, itemSize: nat, capacity: nat, start: int, n: nat, mute: set<nat>)
    requires |memory| == Offset(itemSize, capacity) && capacity >= 1 && n >= 2
    ensures exists sched: seq<Action> ::
      && IsRun(Init(memory, itemSize, capacity, start, n, mute), sched)
      && var s := After(Init(memory, itemSize, capacity, start, n, mute), sched);
        s.pipe.doneFd == 1 && OneLost(s.pipe)
  {
    var s0 := Init(memory, itemSize, capacity, start, n, mute);
    InitInv(memory, itemSize, capacity, start, n, mute);
    var first := SkipsAndDrains(s0, n);
    var second := LogsLate(After(s0, first));
    RunAppend(s0, first, second);
    assert IsRun(s0, first + second);
  }
}
