/**
 * The shutdown of rtsystem: main, any number of registered tasks with the loop of stdin_task, the array
 * lock and the log queue's lock, interleaved by an arbitrary schedule.
 */
module Shutdowns {
  import opened Prelude
  import T = TaskHelpers

  /** A log call: it waits for the log queue's lock, and releases it. */
  datatype Call = NoCall | WantLock | HasLock

  /** The next statement of a task, once it is in no log call. */
  datatype TaskPc = Begin | ReadRunning | ReadState | Poll | Flush | Mark | WriteDone | Return | Exited

  /** What task_array_join_all did with the task. */
  datatype Outcome = Open | Joined | Skipped

  /**
   * done is the counter of done_fd; linked says that the handle points to the array, and slotted that
   * the array's slot points to the handle; ready says that the poll of main found done_fd readable.
   */
  datatype Task = Task(state: T.TaskState, done: nat, linked: bool, slotted: bool, pc: TaskPc, call: Call,
                       ready: bool, cancelled: bool, outcome: Outcome)

  datatype Phase = StopAll | PollAll | CancelAll | JoinAll | DestroyAll

  /**
   * Main serves until SIGINT; each bulk operation takes the array lock and visits the slots in order.
   * The last one clears the handle's array, clears the slot and destroys the handle.
   */
  datatype MainPc =
    | Serve | Clear | Take(phase: Phase) | At(phase: Phase, k: nat) | PollWait | Wait(task: nat)
    | Unlink(task: nat) | Vacate(task: nat) | Destroy(task: nat) | LogStop

  datatype Who = Main | Thread(t: nat)

  /** How the poll of task_array_poll_all returns: a task is done, a second SIGINT, the timeout, or an error. */
  datatype PollResult = Ready | Signalled | TimedOut | Failed

  /**
   * mute holds the tasks whose input stops in the middle of an overlong line. clears is true for the
   * program; without it handles_destroy_all does not clear the handle's array.
   */
  datatype State = State(
    running: bool, tasks: seq<Task>, main: MainPc, mainCall: Call, polled: Option<PollResult>,
    logLock: Option<Who>, arrayLock: Option<Who>, fault: bool, mute: set<nat>, clears: bool)

  /** What the poll of a task finds: nothing, a line, or a line that overflows its buffer. */
  datatype Input = Quiet | Line | Overlong

  datatype Action = MainStep(result: PollResult) | TaskStep(t: nat, input: Input)

  function Start(n: nat, mute: set<nat>, clears: bool): State {
    State(true, seq(n, _ => Task(T.Init, 0, true, true, Begin, NoCall, false, false, Open)),
          Serve, NoCall, None, None, None, false, mute, clears)
  }

  predicate SomeDone(tasks: seq<Task>) { exists t | 0 <= t < |tasks| :: tasks[t].done > 0 }

  /** Only another thread's hold blocks; taking one's own lock again is a step, to a fault. */
  predicate Free(lock: Option<Who>, me: Who) { lock.None? || lock == Some(me) }

  predicate TaskEnabled(s: State, t: nat)
    requires t < |s.tasks|
  {
    match s.tasks[t].call
    case WantLock => Free(s.logLock, Thread(t))
    case HasLock => true
    case NoCall => s.tasks[t].pc != Exited && (s.tasks[t].pc.Flush? ==> t !in s.mute)
  }

  /** The poll of main waits for a done task or a second SIGINT, and times out only without either. */
  predicate MainEnabled(s: State, r: PollResult) {
    match s.mainCall
    case WantLock => Free(s.logLock, Main)
    case HasLock => true
    case NoCall =>
      match s.main
      case LogStop => false
      case Take(_) => Free(s.arrayLock, Main)
      case Wait(k) => k < |s.tasks| && s.tasks[k].pc.Exited?
      case PollWait => r.Signalled? || r.Failed? || (r.Ready? <==> SomeDone(s.tasks))
      case _ => true
  }

  predicate Enabled(s: State, a: Action) {
    && !s.fault
    && match a {
       case TaskStep(t, _) => t < |s.tasks| && TaskEnabled(s, t)
       case MainStep(r) => MainEnabled(s, r)
       }
  }

  function Put(s: State, t: nat, task: Task): State
    requires t < |s.tasks|
  {
    s.(tasks := s.tasks[t := task])
  }

  /** One statement of the thread function of a task, outside its log calls. Only the read of Flush can block. */
  function NextTask(x: Task, running: bool, input: Input): Task {
    match x.pc
    case Begin => x.(state := T.Running, pc := ReadRunning, call := WantLock)
    case ReadRunning => if running then x.(pc := ReadState) else x.(pc := Mark, call := WantLock)
    case ReadState => if x.state.Running? then x.(pc := Poll) else x.(pc := Mark, call := WantLock)
    case Poll => x.(pc := if input.Overlong? then Flush else ReadRunning, call := if input.Quiet? then NoCall else WantLock)
    case Flush => x.(pc := ReadRunning, call := WantLock)
    case Mark => x.(state := T.Stopped, pc := WriteDone)
    case WriteDone => x.(done := x.done + 1, pc := Return, call := WantLock)
    case Return => x.(pc := Exited)
    case Exited => x
  }

  /** The task after its next statement, which takes or releases the log lock or is one of its own. */
  function Advance(x: Task, running: bool, input: Input): Task {
    match x.call
    case WantLock => x.(call := HasLock)
    case HasLock => x.(call := NoCall)
    case NoCall => NextTask(x, running, input)
  }

  /** Taking a lock that is held is a fault. */
  function StepTask(s: State, t: nat, input: Input): State
    requires t < |s.tasks|
  {
    var x := s.tasks[t];
    if x.call.WantLock? && s.logLock.Some? then s.(fault := true)
    else
      Put(s, t, Advance(x, s.running, input))
      .(logLock := match x.call case WantLock => Some(Thread(t)) case HasLock => None case NoCall => s.logLock)
  }

  /** What a bulk operation does first to the task in a slot; it passes over an empty slot. */
  function Visited(x: Task, phase: Phase): Task {
    if !x.slotted then x
    else match phase
      case StopAll => x.(state := T.Stopping)
      case CancelAll => x.(cancelled := true)
      case JoinAll => if x.done > 0 then x else x.(outcome := Skipped)
      case _ => x
  }

  /** Joining and destroying take further statements; polling does not log. */
  function VisitSlot(s: State, phase: Phase, k: nat): State
    requires k < |s.tasks|
  {
    var x := s.tasks[k];
    Put(s, k, Visited(x, phase)).(
      main :=
        if x.slotted && phase.JoinAll? && x.done > 0 then Wait(k)
        else if x.slotted && phase.DestroyAll? then Unlink(k)
        else At(phase, k + 1),
      mainCall :=
        if !x.slotted || phase.PollAll? || (phase.JoinAll? && x.done > 0) then NoCall else WantLock)
  }

  /** The further statements: the join, and destroying the handle. */
  function Finished(x: Task, main: MainPc, clears: bool): Task {
    match main
    case Wait(_) => x.(outcome := Joined)
    case Unlink(_) => x.(linked := x.linked && !clears)
    case Vacate(_) => x.(slotted := false)
    case Destroy(_) => x.(state := T.Stopped, linked := false)
    case _ => x
  }

  /** task_handle_destroy removes a handle that is still registered, which locks its array. */
  function FinishSlot(s: State, k: nat): State
    requires k < |s.tasks|
  {
    var x := s.tasks[k];
    if s.main.Destroy? && x.linked && s.arrayLock.Some? then s.(fault := true)
    else
      Put(s, k, Finished(x, s.main, s.clears)).(
        main := match s.main
          case Wait(_) => At(JoinAll, k + 1)
          case Unlink(_) => Vacate(k)
          case Vacate(_) => Destroy(k)
          case Destroy(_) => At(DestroyAll, k + 1)
          case m => m,
        mainCall := if s.main.Wait? || s.main.Destroy? then WantLock else NoCall)
  }

  /** Where main goes after a bulk operation; task_array_poll_all polls only if a slot is occupied. */
  function NextPhase(s: State, phase: Phase): MainPc {
    match phase
    case StopAll => Take(PollAll)
    case PollAll => if forall t | 0 <= t < |s.tasks| :: !s.tasks[t].slotted then Take(JoinAll) else PollWait
    case CancelAll => Take(JoinAll)
    case JoinAll => Take(DestroyAll)
    case DestroyAll => LogStop
  }

  function EndPhase(s: State, phase: Phase): State {
    s.(arrayLock := None, main := NextPhase(s, phase), mainCall := if phase.PollAll? then NoCall else WantLock)
  }

  function MarkReady(tasks: seq<Task>): seq<Task> {
    seq(|tasks|, t requires 0 <= t < |tasks| => tasks[t].(ready := tasks[t].done > 0))
  }

  /** Only a second SIGINT and the timeout make main cancel the tasks. */
  predicate Cancels(r: PollResult) { r.Signalled? || r.TimedOut? }

  function AfterPoll(s: State, r: PollResult): State {
    s.(tasks := if r.Failed? then s.tasks else MarkReady(s.tasks), polled := Some(r),
       main := if Cancels(r) then Take(CancelAll) else Take(JoinAll),
       mainCall := if Cancels(r) then WantLock else NoCall)
  }

  /** One statement of main. */
  function StepMain(s: State, r: PollResult): State {
    match s.mainCall
    case WantLock => if s.logLock.Some? then s.(fault := true) else s.(mainCall := HasLock, logLock := Some(Main))
    case HasLock => s.(mainCall := NoCall, logLock := None)
    case NoCall =>
      match s.main
      case Serve => s.(main := Clear)
      case Clear => s.(running := false, main := Take(StopAll), mainCall := WantLock)
      case Take(p) => if s.arrayLock.Some? then s.(fault := true) else s.(arrayLock := Some(Main), main := At(p, 0))
      case At(p, k) =>
        if k < |s.tasks| then VisitSlot(s, p, k)
        else EndPhase(s, p)
      case PollWait => AfterPoll(s, r)
      case LogStop => s
      case _ => if s.main.task < |s.tasks| then FinishSlot(s, s.main.task) else s.(fault := true)
  }

  function Step(s: State, a: Action): State
    requires Enabled(s, a)
  {
    match a
    case TaskStep(t, input) => StepTask(s, t, input)
    case MainStep(r) => StepMain(s, r)
  }

  predicate IsRun(s: State, sched: seq<Action>)
    decreases |sched|
  {
    sched == [] || (Enabled(s, sched[0]) && IsRun(Step(s, sched[0]), sched[1..]))
  }

  function After(s: State, sched: seq<Action>): State
    requires IsRun(s, sched)
    decreases |sched|
  {
    if sched == [] then s else After(Step(s, sched[0]), sched[1..])
  }

  // Invariants ------------------------------------------------------------------------------------------

  /** The log lock belongs to whoever is inside a log call, and nobody else is. */
  ghost predicate LockInv(s: State) {
    && !s.fault
    && (s.mainCall.HasLock? <==> s.logLock == Some(Main))
    && (forall t | 0 <= t < |s.tasks| :: s.tasks[t].call.HasLock? <==> s.logLock == Some(Thread(t)))
    && (s.logLock.Some? && s.logLock.value.Thread? ==> s.logLock.value.t < |s.tasks|)
  }

  /** A done descriptor is readable exactly from the task's write on, for ever. */
  predicate TaskOk(x: Task) {
    && (x.done > 0 <==> x.pc.Return? || x.pc.Exited?)
    && (x.pc.Exited? ==> x.call.NoCall?)
    && (x.outcome.Joined? ==> x.pc.Exited?)
    && (x.ready ==> x.done > 0 && !x.outcome.Skipped?)
  }

  ghost predicate DoneInv(s: State) {
    forall t | 0 <= t < |s.tasks| :: TaskOk(s.tasks[t])
  }

  /** Main is inside a bulk operation. */
  predicate InBulk(main: MainPc) {
    main.At? || main.Wait? || main.Unlink? || main.Vacate? || main.Destroy?
  }

  /** How many slots task_array_join_all has dealt with. */
  function Dealt(main: MainPc, n: nat): nat {
    match main
    case At(JoinAll, k) => k
    case Wait(k) => k
    case Take(DestroyAll) => n
    case At(DestroyAll, _) => n
    case Unlink(_) => n
    case Vacate(_) => n
    case Destroy(_) => n
    case LogStop => n
    case _ => 0
  }

  ghost predicate MainInv(s: State) {
    && s.arrayLock == (if InBulk(s.main) then Some(Main) else None)
    && (s.running <==> s.main.Serve? || s.main.Clear?)
    && (s.main.At? ==> s.main.k <= |s.tasks|)
    && (s.main.Wait? || s.main.Unlink? || s.main.Vacate? || s.main.Destroy? ==> s.main.task < |s.tasks|)
    && (s.main.Wait? ==> s.tasks[s.main.task].done > 0)
    && (forall t | 0 <= t < |s.tasks| :: s.tasks[t].outcome.Open? <==> t >= Dealt(s.main, |s.tasks|))
  }

  /** How many handles have been destroyed. */
  function Destroyed(main: MainPc, n: nat): nat {
    match main
    case At(DestroyAll, k) => k
    case Unlink(k) => k
    case Vacate(k) => k
    case Destroy(k) => k
    case LogStop => n
    case _ => 0
  }

  /** Each handle and its slot point to each other until the handle is destroyed. */
  ghost predicate SlotInv(s: State) {
    var d := Destroyed(s.main, |s.tasks|);
    && (forall t | 0 <= t < |s.tasks| :: s.tasks[t].slotted <==> t >= d + if s.main.Destroy? then 1 else 0)
    && (forall t | 0 <= t < |s.tasks| :: s.tasks[t].linked <==>
          t >= d + if s.clears && (s.main.Vacate? || s.main.Destroy?) then 1 else 0)
    && (!s.clears ==> d == 0)
  }

  /** How many tasks task_array_cancel_all has cancelled. */
  function Cancelled(s: State): nat {
    if s.polled.None? || !Cancels(s.polled.value) then 0
    else match s.main
      case Take(CancelAll) => 0
      case At(CancelAll, k) => k
      case _ => |s.tasks|
  }

  predicate BeforePoll(main: MainPc) {
    || main.Serve? || main.Clear? || main.PollWait?
    || ((main.Take? || main.At?) && (main.phase.StopAll? || main.phase.PollAll?))
  }

  predicate NoneReady(tasks: seq<Task>) { forall t | 0 <= t < |tasks| :: !tasks[t].ready }

  /** The tasks cancelled, and those found ready, are those that the result of the poll calls for. */
  ghost predicate PollInv(s: State) {
    && (s.polled.Some? ==> !BeforePoll(s.main))
    && (s.polled.None? ==> BeforePoll(s.main) || |s.tasks| == 0)
    && ((s.main.Take? || s.main.At?) && s.main.phase.CancelAll? ==> s.polled.Some? && Cancels(s.polled.value))
    && (s.polled == Some(Ready) <==> !NoneReady(s.tasks) && s.polled != Some(Signalled))
    && (forall t | 0 <= t < |s.tasks| :: s.tasks[t].cancelled <==> t < Cancelled(s))
  }

  ghost predicate Inv(s: State) { LockInv(s) && DoneInv(s) && MainInv(s) && SlotInv(s) && PollInv(s) }

  // Preservation by a task ---------------------------------------------------------------------------------

  /** What the steps of a task leave for main. */
  predicate SameForMain(x: Task, y: Task) {
    && y.done >= x.done && y.outcome == x.outcome && y.ready == x.ready && y.cancelled == x.cancelled
    && y.linked == x.linked && y.slotted == x.slotted
  }

  lemma TaskMoves(x: Task, running: bool, input: Input)
    requires TaskOk(x) && x.call.NoCall?
    ensures TaskOk(NextTask(x, running, input)) && SameForMain(x, NextTask(x, running, input))
    ensures !NextTask(x, running, input).call.HasLock?
  {}

  lemma TaskAdvances(x: Task, running: bool, input: Input)
    requires TaskOk(x)
    ensures var y := Advance(x, running, input);
      TaskOk(y) && SameForMain(x, y) && (y.call.HasLock? <==> x.call.WantLock?)
  {
    if x.call.NoCall? { TaskMoves(x, running, input); }
  }

  lemma TaskTakesFree(s: State, t: nat, input: Input)
    requires LockInv(s) && Enabled(s, TaskStep(t, input))
    ensures s.tasks[t].call.WantLock? ==> s.logLock.None?
  {}

  lemma TaskKeepsLock(s: State, t: nat, input: Input)
    requires LockInv(s) && DoneInv(s) && Enabled(s, TaskStep(t, input))
    ensures LockInv(StepTask(s, t, input))
  {
    TaskTakesFree(s, t, input);
    TaskAdvances(s.tasks[t], s.running, input);
  }

  lemma TaskStepInv(s: State, t: nat, input: Input)
    requires Inv(s) && Enabled(s, TaskStep(t, input))
    ensures Inv(StepTask(s, t, input))
  {
    TaskKeepsLock(s, t, input);
    TaskTakesFree(s, t, input);
    TaskAdvances(s.tasks[t], s.running, input);
    TaskKeepsRest(s, StepTask(s, t, input), t, Advance(s.tasks[t], s.running, input));
  }

  lemma TaskKeepsRest(s: State, s': State, t: nat, x: Task)
    requires DoneInv(s) && MainInv(s) && SlotInv(s) && PollInv(s) && t < |s.tasks|
    requires s' == s.(tasks := s.tasks[t := x], logLock := s'.logLock) && TaskOk(x) && SameForMain(s.tasks[t], x)
    ensures DoneInv(s') && MainInv(s') && SlotInv(s') && PollInv(s')
  {
    SameReady(s.tasks, s'.tasks);
  }

  lemma SameReady(xs: seq<Task>, ys: seq<Task>)
    requires |xs| == |ys| && forall t | 0 <= t < |xs| :: xs[t].ready == ys[t].ready
    ensures NoneReady(xs) == NoneReady(ys)
  {
    assert forall t | 0 <= t < |xs| :: ys[t].ready == xs[t].ready;
  }

  // Preservation by main -----------------------------------------------------------------------------------

  /** What the steps of main leave for the tasks. */
  predicate SameForTask(x: Task, y: Task) {
    y.pc == x.pc && y.call == x.call && y.done == x.done
  }

  lemma VisitLeaves(s: State, p: Phase, k: nat)
    requires k < |s.tasks|
    ensures SameForTask(s.tasks[k], Visited(s.tasks[k], p))
  {}

  lemma FinishLeaves(x: Task, main: MainPc, clears: bool)
    ensures SameForTask(x, Finished(x, main, clears))
  {}

  /** Main is visiting an occupied slot, or has not finished with it. */
  predicate Visiting(s: State) { s.mainCall.NoCall? && s.main.At? && s.main.k < |s.tasks| }

  predicate Finishing(s: State) {
    s.mainCall.NoCall? && (s.main.Wait? || s.main.Unlink? || s.main.Vacate? || s.main.Destroy?)
  }

  lemma MainLeaves(s: State, r: PollResult)
    requires MainInv(s) && !s.fault && !StepMain(s, r).fault
    ensures var s' := StepMain(s, r);
      |s'.tasks| == |s.tasks| && forall t | 0 <= t < |s.tasks| :: SameForTask(s.tasks[t], s'.tasks[t])
  {
    if Visiting(s) { VisitLeaves(s, s.main.phase, s.main.k); }
    else if Finishing(s) { FinishLeaves(s.tasks[s.main.task], s.main, s.clears); }
  }

  /** Exactly when main faults: it destroys a handle that is still registered in the array it has locked. */
  lemma MainFaultIff(s: State, r: PollResult)
    requires LockInv(s) && MainInv(s) && Enabled(s, MainStep(r))
    ensures StepMain(s, r).fault <==> s.mainCall.NoCall? && s.main.Destroy? && s.tasks[s.main.task].linked
  {
    if Visiting(s) { VisitLeaves(s, s.main.phase, s.main.k); }
  }

  lemma MainLocks(s: State, r: PollResult)
    requires LockInv(s) && MainInv(s) && Enabled(s, MainStep(r)) && !StepMain(s, r).fault
    ensures var s' := StepMain(s, r);
      && (s'.mainCall.HasLock? <==> s'.logLock == Some(Main))
      && (s'.logLock == s.logLock || (s.logLock != Some(Main) && s.logLock.None? && s'.logLock == Some(Main))
          || (s.logLock == Some(Main) && s'.logLock.None?))
  {
    if Visiting(s) { VisitLeaves(s, s.main.phase, s.main.k); }
    else if Finishing(s) { FinishLeaves(s.tasks[s.main.task], s.main, s.clears); }
  }

  lemma MainKeepsLock(s: State, r: PollResult)
    requires LockInv(s) && MainInv(s) && Enabled(s, MainStep(r)) && !StepMain(s, r).fault
    ensures LockInv(StepMain(s, r))
  {
    MainLeaves(s, r);
    MainLocks(s, r);
    assert forall t | 0 <= t < |s.tasks| :: SameForTask(s.tasks[t], StepMain(s, r).tasks[t]);
  }

  lemma MainKeepsDone(s: State, r: PollResult)
    requires DoneInv(s) && MainInv(s) && Enabled(s, MainStep(r)) && !StepMain(s, r).fault
    ensures DoneInv(StepMain(s, r))
  {
    if Visiting(s) { VisitLeaves(s, s.main.phase, s.main.k); }
    else if Finishing(s) { FinishLeaves(s.tasks[s.main.task], s.main, s.clears); }
  }

  lemma VisitKeepsMain(s: State, p: Phase, k: nat)
    requires MainInv(s) && SlotInv(s) && s.main == At(p, k) && k < |s.tasks|
    ensures MainInv(VisitSlot(s, p, k)) && SlotInv(VisitSlot(s, p, k))
  {}

  lemma FinishKeepsMain(s: State)
    requires MainInv(s) && SlotInv(s) && DoneInv(s) && Finishing(s) && !s.fault && !FinishSlot(s, s.main.task).fault
    ensures MainInv(FinishSlot(s, s.main.task)) && SlotInv(FinishSlot(s, s.main.task))
  {}

  lemma EndKeepsMain(s: State, p: Phase)
    requires MainInv(s) && SlotInv(s) && s.main == At(p, |s.tasks|)
    ensures MainInv(EndPhase(s, p)) && SlotInv(EndPhase(s, p))
  {}

  lemma PollKeepsMain(s: State, r: PollResult)
    requires MainInv(s) && SlotInv(s) && s.main.PollWait?
    ensures MainInv(AfterPoll(s, r)) && SlotInv(AfterPoll(s, r))
  {}

  predicate Ending(s: State) { s.mainCall.NoCall? && s.main.At? && s.main.k >= |s.tasks| }

  predicate Polling(s: State) { s.mainCall.NoCall? && s.main.PollWait? }

  /** Serving, taking a lock or releasing it. */
  predicate Plain(s: State) { !Visiting(s) && !Finishing(s) && !Ending(s) && !Polling(s) }

  lemma PlainKeepsMain(s: State, r: PollResult)
    requires MainInv(s) && SlotInv(s) && Plain(s) && !s.fault && !StepMain(s, r).fault
    ensures MainInv(StepMain(s, r)) && SlotInv(StepMain(s, r))
  {}

  lemma MainKeepsMain(s: State, r: PollResult)
    requires DoneInv(s) && MainInv(s) && SlotInv(s) && Enabled(s, MainStep(r)) && !StepMain(s, r).fault
    ensures MainInv(StepMain(s, r)) && SlotInv(StepMain(s, r))
  {
    if Visiting(s) { VisitKeepsMain(s, s.main.phase, s.main.k); }
    else if Finishing(s) { FinishKeepsMain(s); }
    else if Ending(s) { EndKeepsMain(s, s.main.phase); }
    else if Polling(s) { PollKeepsMain(s, r); }
    else { PlainKeepsMain(s, r); }
  }

  lemma VisitKeepsPoll(s: State, p: Phase, k: nat)
    requires PollInv(s) && SlotInv(s) && s.main == At(p, k) && k < |s.tasks|
    ensures PollInv(VisitSlot(s, p, k))
  {
    SameReady(s.tasks, VisitSlot(s, p, k).tasks);
  }

  lemma FinishKeepsPoll(s: State)
    requires PollInv(s) && MainInv(s) && Finishing(s) && !s.fault && !FinishSlot(s, s.main.task).fault
    ensures PollInv(FinishSlot(s, s.main.task))
  {
    SameReady(s.tasks, FinishSlot(s, s.main.task).tasks);
  }

  lemma PollKeepsPoll(s: State, r: PollResult)
    requires PollInv(s) && s.main.PollWait? && s.mainCall.NoCall? && Enabled(s, MainStep(r))
    ensures PollInv(AfterPoll(s, r))
  {
    if SomeDone(s.tasks) && !r.Failed? {
      var t :| 0 <= t < |s.tasks| && s.tasks[t].done > 0;
      assert AfterPoll(s, r).tasks[t].ready;
    }
  }

  lemma EndKeepsPoll(s: State, p: Phase)
    requires PollInv(s) && MainInv(s) && SlotInv(s) && s.main == At(p, |s.tasks|)
    ensures PollInv(EndPhase(s, p))
  {
    if |s.tasks| > 0 && p.PollAll? { assert s.tasks[0].slotted; }
  }

  lemma PlainKeepsPoll(s: State, r: PollResult)
    requires PollInv(s) && MainInv(s) && Plain(s) && !s.fault && !StepMain(s, r).fault
    ensures PollInv(StepMain(s, r))
  {}

  lemma MainKeepsPoll(s: State, r: PollResult)
    requires PollInv(s) && MainInv(s) && SlotInv(s) && Enabled(s, MainStep(r)) && !StepMain(s, r).fault
    ensures PollInv(StepMain(s, r))
  {
    if Visiting(s) { VisitKeepsPoll(s, s.main.phase, s.main.k); }
    else if Finishing(s) { FinishKeepsPoll(s); }
    else if Ending(s) { EndKeepsPoll(s, s.main.phase); }
    else if Polling(s) { PollKeepsPoll(s, r); }
    else { PlainKeepsPoll(s, r); }
  }

  lemma MainStepInv(s: State, r: PollResult)
    requires Inv(s) && Enabled(s, MainStep(r)) && !StepMain(s, r).fault
    ensures Inv(StepMain(s, r))
  {
    MainKeepsLock(s, r);
    MainKeepsDone(s, r);
    MainKeepsMain(s, r);
    MainKeepsPoll(s, r);
  }
  lemma StepInv(s: State, a: Action)
    requires Inv(s) && Enabled(s, a) && !Step(s, a).fault
    ensures Inv(Step(s, a))
  {
    match a
    case TaskStep(t, input) => TaskStepInv(s, t, input);
    case MainStep(r) => MainStepInv(s, r);
  }

  /** Exactly which step takes a lock that its thread already holds. */
  lemma FaultIff(s: State, a: Action)
    requires Inv(s) && Enabled(s, a)
    ensures Step(s, a).fault <==> a.MainStep? && s.mainCall.NoCall? && s.main.Destroy? && s.tasks[s.main.task].linked
    ensures Step(s, a).fault ==> !s.clears
  {
    match a
    case TaskStep(t, input) => TaskTakesFree(s, t, input);
    case MainStep(r) => MainFaultIff(s, r);
  }

  /** What no step changes. */
  predicate SameShape(s: State, s': State) {
    |s'.tasks| == |s.tasks| && s'.mute == s.mute && s'.clears == s.clears
  }

  lemma StepShape(s: State, a: Action)
    requires Enabled(s, a)
    ensures SameShape(s, Step(s, a))
  {}

  lemma {:induction false} RunInv(s: State, sched: seq<Action>)
    requires Inv(s) && s.clears && IsRun(s, sched)
    ensures Inv(After(s, sched)) && SameShape(s, After(s, sched))
    decreases |sched|
  {
    if sched != [] {
      FaultIff(s, sched[0]);
      StepInv(s, sched[0]);
      StepShape(s, sched[0]);
      RunInv(Step(s, sched[0]), sched[1..]);
    }
  }

  lemma InitInv(n: nat, mute: set<nat>, clears: bool)
    ensures Inv(Start(n, mute, clears))
  {}
}
