/**
 * The whole program: main and the tasks of the shutdown protocol log through the byte queue of the log
 * pipeline, and main stops the log task at the end.
 */
module Systems {
  import opened Prelude
  import opened FifoQueues
  import P = LogPipelines
  import L = LogShutdowns
  import S = Shutdowns
  import R = ShutdownRuns
  import O = LogOvertaking
  import W = ShutdownWitnesses

  datatype State = State(pipe: P.State, down: S.State)

  datatype Action =
    // a statement of main or a task outside fifo_queue_send; message is what it logs, if it logs
    | Own(step: S.Action, message: Record)
    | Send(who: S.Who)                      // a statement of fifo_queue_send
    | Log(own: Record, fails: bool)         // a statement of the log task
    | Stop                                  // main calls log_task_stop
    | Tick(span: nat)                       // time passes

  /** Main is thread 1 of the pipeline, and the tasks follow. */
  function Id(w: S.Who): nat { match w case Main => 1 case Thread(t) => t + 2 }

  function Actor(step: S.Action): S.Who { match step case MainStep(_) => S.Main case TaskStep(t, _) => S.Thread(t) }

  predicate Known(d: S.State, w: S.Who) { w.Thread? ==> w.t < |d.tasks| }

  function CallOf(d: S.State, w: S.Who): S.Call
    requires Known(d, w)
  {
    match w case Main => d.mainCall case Thread(t) => d.tasks[t].call
  }

  function Init(memory: seq<byte>, itemSize: nat, capacity: nat, start: int, n: nat, mute: set<nat>): State {
    State(P.Init(memory, itemSize, capacity, n + 1, start), S.Start(n, mute, true))
  }

  predicate Shaped(s: State) { P.Shape(s.pipe) && |s.pipe.calls| == |s.down.tasks| + 2 }

  predicate Enabled(s: State, a: Action) {
    && Shaped(s)
    && match a {
       case Own(step, m) =>
         && S.Enabled(s.down, step) && Known(s.down, Actor(step)) && CallOf(s.down, Actor(step)).NoCall?
         && |m| == s.pipe.q.itemSize
       case Send(w) => Known(s.down, w) && !CallOf(s.down, w).NoCall? && P.Enabled(s.pipe, P.Step(Id(w)))
       case Log(b, fails) => P.Enabled(s.pipe, P.Log(b, fails))
       case Stop => s.down.main.LogStop? && s.down.mainCall.NoCall? && P.Enabled(s.pipe, P.Stop)
       case Tick(d) => P.Enabled(s.pipe, P.Tick(d))
       }
  }

  /** The two statements of a log call of the shutdown protocol: taking the log lock, and releasing it. */
  function CallStep(w: S.Who): S.Action {
    match w case Main => S.MainStep(S.Ready) case Thread(t) => S.TaskStep(t, S.Quiet)
  }

  function Moved(d: S.State, step: S.Action): S.State
    requires Known(d, Actor(step))
  {
    match step case MainStep(r) => S.StepMain(d, r) case TaskStep(t, input) => S.StepTask(d, t, input)
  }

  lemma MovedKnows(d: S.State, step: S.Action)
    requires Known(d, Actor(step))
    ensures Known(Moved(d, step), Actor(step))
  {}

  /**
   * A statement that enters ALOG composes a message. Sending moves the pipeline by one assignment, and
   * the shutdown protocol when the lock is taken and when it is released.
   */
  function Next(s: State, a: Action): State
    requires Enabled(s, a)
  {
    match a
    case Own(step, m) =>
      MovedKnows(s.down, step);
      var d := Moved(s.down, step);
      State(if CallOf(d, Actor(step)).WantLock? then P.Compose(s.pipe, Id(Actor(step)), m) else s.pipe, d)
    case Send(w) =>
      var p := P.Next(s.pipe, P.Step(Id(w)));
      var ends := Id(w) < |p.calls| && p.calls[Id(w)].Idle?;
      State(p, if CallOf(s.down, w).WantLock? || ends then Moved(s.down, CallStep(w)) else s.down)
    case Log(b, fails) => s.(pipe := P.Next(s.pipe, P.Log(b, fails)))
    case Stop => s.(pipe := P.Next(s.pipe, P.Stop))
    case Tick(d) => s.(pipe := P.Next(s.pipe, P.Tick(d)))
  }

  predicate IsRun(s: State, sched: seq<Action>)
    decreases |sched|
  {
    sched == [] || (Enabled(s, sched[0]) && IsRun(Next(s, sched[0]), sched[1..]))
  }

  function After(s: State, sched: seq<Action>): State
    requires IsRun(s, sched)
    decreases |sched|
  {
    if sched == [] then s else After(Next(s, sched[0]), sched[1..])
  }

  // The invariant ---------------------------------------------------------------------------------------

  predicate Matches(c: S.Call, k: P.Call) {
    match c case NoCall => k.Idle? case WantLock => k.SendLock? case HasLock => k.Sending?
  }

  /** Each thread is at the same point of its log call in both. */
  ghost predicate Coupled(s: State) {
    && Shaped(s)
    && forall w | Known(s.down, w) :: Matches(CallOf(s.down, w), s.pipe.calls[Id(w)])
  }

  predicate AtLogStop(d: S.State) { d.main.LogStop? && d.mainCall.NoCall? }

  predicate NoneSkipped(d: S.State) { forall t | 0 <= t < |d.tasks| :: !d.tasks[t].outcome.Skipped? }

  ghost predicate Inv(s: State) {
    && P.Inv(s.pipe) && S.Inv(s.down) && s.down.clears && Coupled(s)
    && (s.pipe.stopped ==> AtLogStop(s.down))
    && (s.pipe.stopped && NoneSkipped(s.down) ==> L.QuietInv(s.pipe))
  }

  lemma InitInv(memory: seq<byte>, itemSize: nat, capacity: nat, start: int, n: nat, mute: set<nat>)
    requires |memory| == Offset(itemSize, capacity)
    ensures Inv(Init(memory, itemSize, capacity, start, n, mute))
  {
    P.InitInv(memory, itemSize, capacity, n + 1, start);
    S.InitInv(n, mute, true);
  }

  /** With nobody skipped, main is alone with the log task when it is about to stop it. */
  lemma AllReturned(d: S.State)
    requires S.Inv(d) && d.main.LogStop? && NoneSkipped(d)
    ensures forall t | 0 <= t < |d.tasks| :: d.tasks[t].pc.Exited? && d.tasks[t].call.NoCall?
  {
    forall t | 0 <= t < |d.tasks| ensures d.tasks[t].pc.Exited? && d.tasks[t].call.NoCall? {
      assert S.TaskOk(d.tasks[t]) && !d.tasks[t].outcome.Open?;
    }
  }

  // How each machine moves a call -----------------------------------------------------------------------

  /** A call is entered, takes the lock, and releases it. */
  predicate CallMoves(c: S.Call, c': S.Call) {
    match c case NoCall => !c'.HasLock? case WantLock => c'.HasLock? case HasLock => c'.NoCall?
  }

  lemma MainCalls(d: S.State, r: S.PollResult)
    requires S.LockInv(d) && S.MainInv(d) && S.Enabled(d, S.MainStep(r)) && !S.StepMain(d, r).fault
    ensures CallMoves(d.mainCall, S.StepMain(d, r).mainCall)
  {}

  /** A step of one thread moves its own call and no other. */
  lemma DownCalls(d: S.State, step: S.Action)
    requires S.Inv(d) && d.clears && S.Enabled(d, step)
    ensures var d' := S.Step(d, step);
      && S.Inv(d') && d'.clears && |d'.tasks| == |d.tasks|
      && Known(d, Actor(step)) && CallMoves(CallOf(d, Actor(step)), CallOf(d', Actor(step)))
      && forall w | Known(d, w) && w != Actor(step) :: CallOf(d', w) == CallOf(d, w)
  {
    S.FaultIff(d, step);
    S.StepInv(d, step);
    S.StepShape(d, step);
    match step
    case MainStep(r) =>
      MainCalls(d, r);
      S.MainLeaves(d, r);
      forall w | Known(d, w) && w != S.Main ensures CallOf(S.Step(d, step), w) == CallOf(d, w) {
        assert S.SameForTask(d.tasks[w.t], S.StepMain(d, r).tasks[w.t]);
      }
    case TaskStep(t, input) =>
      S.TaskTakesFree(d, t, input);
      S.TaskAdvances(d.tasks[t], d.running, input);
  }

  lemma PipeCalls(p: P.State, t: nat)
    requires P.Shape(p) && t < |p.calls| && P.Sends(p.calls[t]) && !p.fault && !P.Proceed(p, t).fault
    ensures var p' := P.Proceed(p, t);
      && p'.calls == p.calls[t := p'.calls[t]] && p'.stopped == p.stopped
      && if p.calls[t].SendLock? then p'.calls[t].Sending? else p'.calls[t].Sending? || p'.calls[t].Idle?
  {}

  // Preservation ----------------------------------------------------------------------------------------

  lemma Recoupled(s: State, s': State, w: S.Who)
    requires Coupled(s) && Known(s.down, w) && |s'.down.tasks| == |s.down.tasks|
    requires |s'.pipe.calls| == |s.pipe.calls|
    requires s'.pipe.calls == s.pipe.calls[Id(w) := s'.pipe.calls[Id(w)]] && |s'.pipe.attempts| == |s.pipe.attempts|
    requires forall v | Known(s.down, v) && v != w :: CallOf(s'.down, v) == CallOf(s.down, v)
    requires Matches(CallOf(s'.down, w), s'.pipe.calls[Id(w)])
    ensures Coupled(s')
  {
    forall v | Known(s'.down, v) ensures Matches(CallOf(s'.down, v), s'.pipe.calls[Id(v)]) {
      if v != w { assert Matches(CallOf(s.down, v), s.pipe.calls[Id(v)]) && Id(v) != Id(w); }
    }
  }

  /** Once main has stopped the log task and nobody was skipped, main and the tasks are at their ends. */
  lemma NobodyLeft(s: State, step: S.Action)
    requires Inv(s) && s.pipe.stopped && S.Enabled(s.down, step)
    ensures step.TaskStep? && !NoneSkipped(s.down)
  {
    if NoneSkipped(s.down) { AllReturned(s.down); }
  }

  lemma OwnInv(s: State, step: S.Action, m: Record)
    requires Inv(s) && Enabled(s, Own(step, m))
    ensures Inv(Next(s, Own(step, m)))
  {
    var s' := Next(s, Own(step, m));
    var w := Actor(step);
    DownCalls(s.down, step);
    assert Matches(CallOf(s.down, w), s.pipe.calls[Id(w)]);
    if CallOf(s'.down, w).WantLock? {
      P.NextInv(s.pipe, P.Begin(Id(w), m));
      assert s'.pipe == P.Next(s.pipe, P.Begin(Id(w), m));
    } else {
      assert s.pipe.calls == s.pipe.calls[Id(w) := s.pipe.calls[Id(w)]];
    }
    Recoupled(s, s', w);
    if s.pipe.stopped {
      NobodyLeft(s, step);
      StillSkipped(s.down, step);
    }
  }

  lemma StillSkipped(d: S.State, step: S.Action)
    requires S.Inv(d) && S.Enabled(d, step) && step.TaskStep? && !S.Step(d, step).fault
    ensures NoneSkipped(S.Step(d, step)) ==> NoneSkipped(d)
    ensures AtLogStop(d) ==> AtLogStop(S.Step(d, step))
  {
    S.TaskAdvances(d.tasks[step.t], d.running, step.input);
    var d' := S.Step(d, step);
    if NoneSkipped(d') {
      forall t | 0 <= t < |d.tasks| ensures !d.tasks[t].outcome.Skipped? {
        assert !d'.tasks[t].outcome.Skipped?;
      }
    }
  }

  /** The lock of the queue being free, so is the log lock of the shutdown protocol. */
  lemma LocksAgree(s: State, w: S.Who)
    requires P.LockInv(s.pipe) && S.LockInv(s.down) && Coupled(s) && Known(s.down, w)
    requires CallOf(s.down, w).WantLock? && P.Unblocked(s.pipe, Id(w))
    ensures S.Enabled(s.down, CallStep(w))
  {
    assert Matches(CallOf(s.down, w), s.pipe.calls[Id(w)]);
    if s.down.logLock.Some? {
      HolderSends(s);
    }
  }

  lemma HolderSends(s: State)
    requires P.LockInv(s.pipe) && S.LockInv(s.down) && Coupled(s) && s.down.logLock.Some?
    ensures s.pipe.lock.Some?
  {
    var v := s.down.logLock.value;
    assert Known(s.down, v) && CallOf(s.down, v).HasLock?;
    assert Matches(CallOf(s.down, v), s.pipe.calls[Id(v)]);
  }

  ghost predicate DownFollows(s: State, s': State, w: S.Who) {
    && S.Inv(s'.down) && s'.down.clears && |s'.down.tasks| == |s.down.tasks|
    && Known(s.down, w) && Id(w) < |s'.pipe.calls| && Matches(CallOf(s'.down, w), s'.pipe.calls[Id(w)])
    && (forall v | Known(s.down, v) && v != w :: CallOf(s'.down, v) == CallOf(s.down, v))
    && (s'.down == s.down || (S.Enabled(s.down, CallStep(w)) && s'.down == S.Step(s.down, CallStep(w))))
  }

  /** A statement of fifo_queue_send is at most one step of the shutdown protocol, and keeps the two coupled. */
  lemma SendMoves(s: State, w: S.Who)
    requires Inv(s) && Enabled(s, Send(w))
    ensures DownFollows(s, Next(s, Send(w)), w)
  {
    var s' := Next(s, Send(w));
    assert Matches(CallOf(s.down, w), s.pipe.calls[Id(w)]);
    P.NextInv(s.pipe, P.Step(Id(w)));
    PipeCalls(s.pipe, Id(w));
    if CallOf(s.down, w).WantLock? {
      LocksAgree(s, w);
      DownCalls(s.down, CallStep(w));
    } else if s'.pipe.calls[Id(w)].Idle? {
      DownCalls(s.down, CallStep(w));
    }
  }

  /** A message still being sent after the stop is that of a skipped task. */
  lemma SkippedSends(s: State, w: S.Who)
    requires Inv(s) && Enabled(s, Send(w)) && s.pipe.stopped
    ensures w.Thread? && !NoneSkipped(s.down)
  {
    if NoneSkipped(s.down) { AllReturned(s.down); }
  }

  lemma SendInv(s: State, w: S.Who)
    requires Inv(s) && Enabled(s, Send(w))
    ensures Inv(Next(s, Send(w)))
  {
    var s' := Next(s, Send(w));
    assert Matches(CallOf(s.down, w), s.pipe.calls[Id(w)]);
    P.NextInv(s.pipe, P.Step(Id(w)));
    PipeCalls(s.pipe, Id(w));
    SendMoves(s, w);
    Recoupled(s, s', w);
    if s.pipe.stopped {
      SkippedSends(s, w);
      if s'.down != s.down {
        DownCalls(s.down, CallStep(w));
        StillSkipped(s.down, CallStep(w));
      }
    }
  }

  lemma LogLeaves(p: P.State, own: Record, fails: bool)
    requires P.Inv(p) && P.Enabled(p, P.Log(own, fails))
    ensures var p' := P.Next(p, P.Log(own, fails));
      && P.Inv(p') && |p'.calls| == |p.calls| && p'.stopped == p.stopped
      && forall t | 0 < t < |p.calls| :: p'.calls[t] == p.calls[t]
  {
    P.NextInv(p, P.Log(own, fails));
    L.LogLeavesIdle(p, own, fails);
    LogLeavesStop(p, own, fails);
  }

  lemma LogLeavesStop(p: P.State, own: Record, fails: bool)
    requires P.Enabled(p, P.Log(own, fails))
    ensures P.Next(p, P.Log(own, fails)).stopped == p.stopped
  {}

  lemma LogInv(s: State, own: Record, fails: bool)
    requires Inv(s) && Enabled(s, Log(own, fails))
    ensures Inv(Next(s, Log(own, fails)))
  {
    LogLeaves(s.pipe, own, fails);
    var s' := Next(s, Log(own, fails));
    forall w | Known(s'.down, w) ensures Matches(CallOf(s'.down, w), s'.pipe.calls[Id(w)]) {
      assert Matches(CallOf(s.down, w), s.pipe.calls[Id(w)]);
    }
    if s.pipe.stopped && NoneSkipped(s.down) { L.QuietNext(s.pipe, P.Log(own, fails)); }
  }

  /** With nobody skipped, nobody is sending when main stops the log task. */
  lemma QuietAtStop(s: State)
    requires Inv(s) && AtLogStop(s.down) && NoneSkipped(s.down)
    ensures L.SendersIdle(s.pipe)
  {
    AllReturned(s.down);
    forall t | 0 < t < |s.pipe.calls| ensures s.pipe.calls[t].Idle? {
      var w := if t == 1 then S.Main else S.Thread(t - 2);
      assert Known(s.down, w) && Matches(CallOf(s.down, w), s.pipe.calls[Id(w)]);
    }
  }

  lemma StopInv(s: State)
    requires Inv(s) && Enabled(s, Stop)
    ensures Inv(Next(s, Stop))
  {
    P.NextInv(s.pipe, P.Stop);
    var s' := Next(s, Stop);
    forall w | Known(s'.down, w) ensures Matches(CallOf(s'.down, w), s'.pipe.calls[Id(w)]) {
      assert Matches(CallOf(s.down, w), s.pipe.calls[Id(w)]);
    }
    if NoneSkipped(s.down) {
      QuietAtStop(s);
      L.QuietNext(s.pipe, P.Stop);
    }
  }

  lemma TickInv(s: State, span: nat)
    requires Inv(s) && Enabled(s, Tick(span))
    ensures Inv(Next(s, Tick(span)))
  {
    P.NextInv(s.pipe, P.Tick(span));
    var s' := Next(s, Tick(span));
    forall w | Known(s'.down, w) ensures Matches(CallOf(s'.down, w), s'.pipe.calls[Id(w)]) {
      assert Matches(CallOf(s.down, w), s.pipe.calls[Id(w)]);
    }
    if s.pipe.stopped && NoneSkipped(s.down) { L.QuietNext(s.pipe, P.Tick(span)); }
  }

  lemma NextInv(s: State, a: Action)
    requires Inv(s) && Enabled(s, a)
    ensures Inv(Next(s, a))
  {
    match a
    case Own(step, m) => OwnInv(s, step, m);
    case Send(w) => SendInv(s, w);
    case Log(b, fails) => LogInv(s, b, fails);
    case Stop => StopInv(s);
    case Tick(d) => TickInv(s, d);
  }

  lemma {:induction false} RunInv(s: State, sched: seq<Action>)
    requires Inv(s) && IsRun(s, sched)
    ensures Inv(After(s, sched))
    decreases |sched|
  {
    if sched != [] {
      NextInv(s, sched[0]);
      RunInv(Next(s, sched[0]), sched[1..]);
    }
  }

  /**
   * What keeps the program waiting: outside fifo_queue_send a thread waits only for what the shutdown
   * protocol makes it wait for, and inside only for the queue's lock; log_task_stop waits for nothing.
   */
  lemma WaitsIff(s: State, a: Action)
    requires Inv(s)
    ensures a.Own? && |a.message| == s.pipe.q.itemSize
        && Known(s.down, Actor(a.step)) && CallOf(s.down, Actor(a.step)).NoCall?
      ==> (Enabled(s, a) <==> S.Enabled(s.down, a.step))
    ensures a.Send? && Known(s.down, a.who)
      ==> (Enabled(s, a) <==> CallOf(s.down, a.who).HasLock? || (CallOf(s.down, a.who).WantLock? && s.pipe.lock.None?))
    ensures a.Log? && |a.own| == s.pipe.q.itemSize
      ==> (Enabled(s, a) <==> !s.pipe.log.Exited? && P.Unblocked(s.pipe, 0))
    ensures a.Stop? ==> (Enabled(s, a) <==> AtLogStop(s.down) && !s.pipe.stopped)
    ensures a.Tick? ==> Enabled(s, a)
  {
    if a.Send? && Known(s.down, a.who) { assert Matches(CallOf(s.down, a.who), s.pipe.calls[Id(a.who)]); }
  }

  // Results ---------------------------------------------------------------------------------------------

  /**
   * The purpose of stopping the log task last: in every run of the whole program that skips no task,
   * everything accepted into the log queue has been printed when the log task signals that it is done.
   */
  lemma EverythingPrinted(memory: seq<byte>, itemSize: nat, capacity: nat, start: int, n: nat, mute: set<nat>,
                          sched: seq<Action>)
    requires |memory| == Offset(itemSize, capacity) && IsRun(Init(memory, itemSize, capacity, start, n, mute), sched)
    ensures var s := After(Init(memory, itemSize, capacity, start, n, mute), sched);
      s.pipe.doneFd > 0 && NoneSkipped(s.down) ==> s.pipe.printed == P.Bytes(s.pipe.accepted)
  {
    InitInv(memory, itemSize, capacity, start, n, mute);
    RunInv(Init(memory, itemSize, capacity, start, n, mute), sched);
  }

  /** The steps of the two machines that a step of the program amounts to. */
  function PipeStep(s: State, a: Action): seq<P.Action>
    requires Enabled(s, a)
  {
    match a
    case Own(step, m) => (
      MovedKnows(s.down, step);
      if CallOf(Moved(s.down, step), Actor(step)).WantLock? then [P.Begin(Id(Actor(step)), m)] else [])
    case Send(w) => [P.Step(Id(w))]
    case Log(b, fails) => [P.Log(b, fails)]
    case Stop => [P.Stop]
    case Tick(d) => [P.Tick(d)]
  }

  function DownStep(s: State, a: Action): seq<S.Action>
    requires Enabled(s, a)
  {
    match a
    case Own(step, _) => [step]
    case Send(w) => if Next(s, a).down == s.down then [] else [CallStep(w)]
    case _ => []
  }

  lemma PipeProjects(s: State, a: Action, rest: seq<P.Action>)
    requires Inv(s) && Enabled(s, a) && P.IsRun(Next(s, a).pipe, rest)
    ensures P.IsRun(s.pipe, PipeStep(s, a) + rest)
    ensures P.After(s.pipe, PipeStep(s, a) + rest) == P.After(Next(s, a).pipe, rest)
  {
    if PipeStep(s, a) == [] {
      assert [] + rest == rest;
    } else {
      if a.Own? { assert Matches(CallOf(s.down, Actor(a.step)), s.pipe.calls[Id(Actor(a.step))]); }
      O.OneStep(s.pipe, PipeStep(s, a)[0], rest, Next(s, a).pipe);
      assert PipeStep(s, a) == [PipeStep(s, a)[0]];
    }
  }

  lemma DownProjects(s: State, a: Action, rest: seq<S.Action>)
    requires Inv(s) && Enabled(s, a) && S.IsRun(Next(s, a).down, rest)
    ensures S.IsRun(s.down, DownStep(s, a) + rest)
    ensures S.After(s.down, DownStep(s, a) + rest) == S.After(Next(s, a).down, rest)
  {
    if a.Send? { SendMoves(s, a.who); }
    if DownStep(s, a) == [] {
      assert [] + rest == rest;
    } else {
      W.OneStep(s.down, DownStep(s, a)[0], rest, Next(s, a).down);
      assert DownStep(s, a) == [DownStep(s, a)[0]];
    }
  }

  function OwnSteps(sched: seq<Action>): nat {
    if sched == [] then 0 else (if sched[0].Own? then 1 else 0) + OwnSteps(sched[1..])
  }

  /** The runs of the two machines that a run of the program amounts to. */
  lemma {:induction false} Projects(s: State, sched: seq<Action>) returns (pipe: seq<P.Action>, down: seq<S.Action>)
    requires Inv(s) && IsRun(s, sched)
    ensures P.IsRun(s.pipe, pipe) && P.After(s.pipe, pipe) == After(s, sched).pipe
    ensures S.IsRun(s.down, down) && S.After(s.down, down) == After(s, sched).down
    ensures OwnSteps(sched) <= |down|
    decreases |sched|
  {
    if sched == [] {
      pipe, down := [], [];
    } else {
      NextInv(s, sched[0]);
      var pipeRest, downRest := Projects(Next(s, sched[0]), sched[1..]);
      PipeProjects(s, sched[0], pipeRest);
      DownProjects(s, sched[0], downRest);
      pipe, down := PipeStep(s, sched[0]) + pipeRest, DownStep(s, sched[0]) + downRest;
    }
  }

  /**
   * Every run of the program is a run of the log pipeline with n + 1 threads besides the log task, and a
   * run of the shutdown protocol with n tasks, so what they guarantee holds of the program.
   */
  lemma IsBoth(memory: seq<byte>, itemSize: nat, capacity: nat, start: int, n: nat, mute: set<nat>, sched: seq<Action>)
    requires |memory| == Offset(itemSize, capacity) && IsRun(Init(memory, itemSize, capacity, start, n, mute), sched)
    ensures var s := Init(memory, itemSize, capacity, start, n, mute);
      && s.pipe == P.Init(memory, itemSize, capacity, n + 1, start)
      && exists pipe :: P.IsRun(s.pipe, pipe) && P.After(s.pipe, pipe) == After(s, sched).pipe
    ensures exists down ::
      && S.IsRun(S.Start(n, mute, true), down)
      && S.After(S.Start(n, mute, true), down) == After(Init(memory, itemSize, capacity, start, n, mute), sched).down
  {
    InitInv(memory, itemSize, capacity, start, n, mute);
    var pipe, down := Projects(Init(memory, itemSize, capacity, start, n, mute), sched);
  }

  /** Nothing can happen but the passing of time, a failing poll of main and a second SIGINT. */
  ghost predicate Stuck(s: State) {
    forall a | Counts(a) :: !Enabled(s, a)
  }

  predicate Counts(a: Action) {
    !a.Tick? && !(a.Own? && (a.step == S.MainStep(S.Signalled) || a.step == S.MainStep(S.Failed)))
  }

  /** The owner of the queue's lock can always go on. */
  lemma OwnerMoves(s: State, m: Record)
    requires Inv(s) && s.pipe.lock.Some? && |m| == s.pipe.q.itemSize
    ensures !Stuck(s)
  {
    var t := s.pipe.lock.value;
    if t == 0 {
      assert Enabled(s, Log(m, false));
    } else {
      var w := if t == 1 then S.Main else S.Thread(t - 2);
      assert Known(s.down, w) && Matches(CallOf(s.down, w), s.pipe.calls[Id(w)]);
      assert Enabled(s, Send(w));
    }
  }

  /** What the shutdown protocol can do, the program can do, unless it waits for the queue's lock. */
  lemma DownMoves(s: State, step: S.Action, m: Record)
    requires Inv(s) && s.pipe.lock.None? && S.Enabled(s.down, step) && |m| == s.pipe.q.itemSize
    requires step != S.MainStep(S.Signalled) && step != S.MainStep(S.Failed)
    ensures !Stuck(s)
  {
    var w := Actor(step);
    assert Known(s.down, w) && Matches(CallOf(s.down, w), s.pipe.calls[Id(w)]);
    if CallOf(s.down, w).NoCall? {
      assert Enabled(s, Own(step, m));
    } else {
      assert Enabled(s, Send(w));
    }
  }

  /**
   * The program as a whole does not deadlock: once g_running is 0 main and the tasks execute a bounded
   * number of statements outside fifo_queue_send, and the program can only come to rest with main past
   * log_task_stop, the log task finished, and every task returned or waiting for the rest of an
   * overlong line.
   */
  lemma EndsFinished(memory: seq<byte>, itemSize: nat, capacity: nat, start: int, n: nat, mute: set<nat>,
                     before: seq<Action>, after: seq<Action>)
    requires |memory| == Offset(itemSize, capacity) && IsRun(Init(memory, itemSize, capacity, start, n, mute), before)
    requires var s := After(Init(memory, itemSize, capacity, start, n, mute), before); !s.down.running && IsRun(s, after)
    ensures var s := After(Init(memory, itemSize, capacity, start, n, mute), before);
      var s' := After(s, after);
      && OwnSteps(after) <= 41 * n + 23
      && (Stuck(s') ==> R.Final(s'.down) && s'.pipe.stopped && s'.pipe.doneFd == 1)
  {
    InitInv(memory, itemSize, capacity, start, n, mute);
    RunInv(Init(memory, itemSize, capacity, start, n, mute), before);
    var s := After(Init(memory, itemSize, capacity, start, n, mute), before);
    RunInv(s, after);
    var s' := After(s, after);
    var pipe0, down0 := Projects(Init(memory, itemSize, capacity, start, n, mute), before);
    S.InitInv(n, mute, true);
    S.RunInv(S.Start(n, mute, true), down0);
    var pipe, down := Projects(s, after);
    R.RunRanks(s.down, down);
    R.RankBounds(s.down);
    R.RankBounds(s'.down);
    if Stuck(s') { RestIsFinal(s'); }
  }

  lemma RestIsFinal(s: State)
    requires Inv(s) && !s.down.running && Stuck(s)
    ensures R.Final(s.down) && s.pipe.stopped && s.pipe.doneFd == 1
  {
    var m: Record := seq(s.pipe.q.itemSize, _ => 0);
    if s.pipe.lock.Some? { OwnerMoves(s, m); }
    forall step | step != S.MainStep(S.Signalled) && step != S.MainStep(S.Failed) ensures !S.Enabled(s.down, step) {
      if S.Enabled(s.down, step) { DownMoves(s, step, m); }
    }
    R.StuckIsFinished(s.down);
    assert !Enabled(s, Stop) && !Enabled(s, Log(m, false));
  }

  /**
   * The program has one task. If it was done when main polled, it has returned by the time the log task
   * is stopped, and everything that was accepted is printed.
   */
  lemma OneTaskPrinted(memory: seq<byte>, itemSize: nat, capacity: nat, start: int, mute: set<nat>, sched: seq<Action>)
    requires |memory| == Offset(itemSize, capacity) && IsRun(Init(memory, itemSize, capacity, start, 1, mute), sched)
    requires var s := After(Init(memory, itemSize, capacity, start, 1, mute), sched);
      s.pipe.doneFd > 0 && s.down.polled == Some(S.Ready)
    ensures var s := After(Init(memory, itemSize, capacity, start, 1, mute), sched);
      s.pipe.printed == P.Bytes(s.pipe.accepted)
  {
    InitInv(memory, itemSize, capacity, start, 1, mute);
    RunInv(Init(memory, itemSize, capacity, start, 1, mute), sched);
    var pipe, down := Projects(Init(memory, itemSize, capacity, start, 1, mute), sched);
    R.CancelledOrJoined(1, mute, down);
    EverythingPrinted(memory, itemSize, capacity, start, 1, mute, sched);
  }
}
