/**
 * The log pipeline: any number of logging threads, the log task, and the shutdown flag, interleaved by
 * an arbitrary schedule. Sending and receiving are executed one assignment at a time on the byte-level
 * queue, so the lock, the byte ring and the eventfd counter are all visible in between.
 */
module LogPipelines {
  import opened Prelude
  import opened FifoQueues
  import opened QueueSteps

  /**
   * The index-th message composed by a thread, how many messages had been accepted by then, its
   * timestamp, whether the thread was warned that the log task is not running, and the bytes of
   * log_message_t.
   */
  datatype Entry = Entry(sender: nat, index: nat, since: nat, stamp: int, warned: bool, bytes: Record)

  /** The call a thread is in: before its lock, or under the lock until it unlocks with a result. */
  datatype Call =
    | Idle
    | SendLock(entry: Entry) | Sending(sendPc: SendPc, entry: Entry)
    | RecvLock | Receiving(recvPc: RecvPc, item: Record)

  /** The next statement of log_task; first marks the first receive after a successful poll. */
  datatype LogPc =
    | Hello | Loop | Poll | Receive(first: bool) | Print
    | SetRunning | Farewell | ClearRunning | Drain | PrintDrained | Signal | Exited

  /**
   * Thread 0 is the log task. running is g_log_running, stopped says that log_task_stop has been
   * called, doneFd is the counter of g_log_done_fd and hand the message buffer of the log task.
   * attempts, accepted, dropped and printed are histories.
   */
  datatype State = State(
    q: Queue, lock: Option<nat>, calls: seq<Call>,
    log: LogPc, hand: Option<Record>, running: bool, stopped: bool, doneFd: nat, fault: bool, clock: int,
    attempts: seq<seq<Entry>>, accepted: seq<Entry>, dropped: seq<Entry>, printed: seq<Record>)

  datatype Action =
    | Begin(t: nat, bytes: Record)   // a thread enters ALOG: it takes its timestamp and fills the message
    | Step(t: nat)                   // a thread executes one statement of fifo_queue_send
    // the log task executes one statement; own is its message, if it logs, and fails says that its poll fails
    | Log(own: Record, fails: bool)
    | Stop                           // main calls log_task_stop
    | Tick(span: nat)                // time passes

  function Init(memory: seq<byte>, itemSize: nat, capacity: nat, threads: nat, start: int): State {
    State(Queue(memory, itemSize, capacity, 0, 0, 0, 0), None, seq(1 + threads, _ => Idle),
          Hello, None, true, false, 0, false, start, seq(1 + threads, _ => []), [], [], [])
  }

  predicate Sends(c: Call) { c.SendLock? || c.Sending? }

  predicate Receives(c: Call) { c.RecvLock? || c.Receiving? }

  /** The call owns the queue's lock. */
  predicate Inside(c: Call) { c.Sending? || c.Receiving? }

  predicate Shape(s: State) { 0 < |s.calls| == |s.attempts| }

  /** A thread waits only for the queue's lock. */
  predicate Unblocked(s: State, t: nat)
    requires t < |s.calls|
  {
    s.calls[t].SendLock? || s.calls[t].RecvLock? ==> s.lock.None?
  }

  predicate Enabled(s: State, a: Action) {
    && Shape(s) && !s.fault
    && match a {
       case Begin(t, b) => 0 < t < |s.calls| && s.calls[t].Idle? && |b| == s.q.itemSize
       case Step(t) => 0 < t < |s.calls| && Sends(s.calls[t]) && Unblocked(s, t)
       case Log(b, _) => s.log != Exited && Unblocked(s, 0) && |b| == s.q.itemSize
       case Stop => !s.stopped
       case Tick(_) => true
       }
  }

  function Goto(s: State, t: nat, c: Call): State
    requires t < |s.calls|
  {
    s.(calls := s.calls[t := c])
  }

  /** ALOG up to the call of fifo_queue_send: the warning, and the timestamp taken before the lock. */
  function Compose(s: State, t: nat, bytes: Record): State
    requires t < |s.calls| && t < |s.attempts|
  {
    var e := Entry(t, |s.attempts[t]|, |s.accepted|, s.clock, !s.running, bytes);
    Goto(s, t, SendLock(e)).(attempts := s.attempts[t := s.attempts[t] + [e]])
  }

  /** The lock's owner t executes one statement of send; a message is accepted when it is copied. */
  function SendOn(s: State, t: nat): State
    requires t < |s.calls| && s.calls[t].Sending?
  {
    var Sending(pc, e) := s.calls[t];
    if pc.Sent? then Goto(s, t, Idle).(lock := None, dropped := s.dropped + if pc.ok then [] else [e])
    else match SendStep(s.q, pc, e.bytes)
      case None => s.(fault := true)
      case Some((q', pc')) =>
        Goto(s, t, Sending(pc', e)).(q := q', accepted := s.accepted + if pc.CopyIn? then [e] else [])
  }

  /** The log task, owning the lock, executes one statement of receive. */
  function RecvOn(s: State): State
    requires 0 < |s.calls| && s.calls[0].Receiving?
  {
    var Receiving(pc, item) := s.calls[0];
    if pc.Received? then
      Goto(s, 0, Idle).(lock := None, hand := if pc.ok then Some(item) else None,
        log := if s.log.Drain? then (if pc.ok then PrintDrained else Signal) else (if pc.ok then Print else Loop))
    else match RecvStep(s.q, pc, item)
      case None => s.(fault := true)
      case Some((q', pc', item')) => Goto(s, 0, Receiving(pc', item')).(q := q')
  }

  function Proceed(s: State, t: nat): State
    requires t < |s.calls| && (s.calls[t].Idle? || (Receives(s.calls[t]) ==> t == 0))
  {
    match s.calls[t]
    case Idle => s
    case SendLock(e) => Goto(s, t, Sending(Check, e)).(lock := Some(t))
    case Sending(_, _) => SendOn(s, t)
    case RecvLock => Goto(s, t, Receiving(Test, [])).(lock := Some(t))
    case Receiving(_, _) => RecvOn(s)
  }

  /** One statement of log_task outside its calls of send and receive. */
  function LogStep(s: State, own: Record, fails: bool): State
    requires Shape(s)
  {
    var shown := s.printed + if s.hand.Some? then [s.hand.value] else [];
    match s.log
    case Hello => Compose(s, 0, own).(log := Loop)
    case Loop => s.(log := if s.running then Poll else SetRunning)
    case Poll => s.(log := if s.q.eventFd > 0 && !fails then Receive(true) else Loop)
    case Receive(_) => Goto(s, 0, RecvLock)
    case Print => s.(printed := shown, hand := None, log := Receive(false))
    case SetRunning => s.(running := true, log := Farewell)
    case Farewell => Compose(s, 0, own).(log := ClearRunning)
    case ClearRunning => s.(running := false, log := Drain)
    case Drain => Goto(s, 0, RecvLock)
    case PrintDrained => s.(printed := shown, hand := None, log := Drain)
    case Signal => s.(doneFd := s.doneFd + 1, log := Exited)
    case Exited => s
  }

  function Next(s: State, a: Action): State
    requires Enabled(s, a)
  {
    match a
    case Begin(t, b) => Compose(s, t, b)
    case Step(t) => Proceed(s, t)
    case Log(b, fails) => if s.calls[0].Idle? then LogStep(s, b, fails) else Proceed(s, 0)
    case Stop => s.(running := false, stopped := true)
    case Tick(d) => s.(clock := s.clock + d)
  }

  predicate IsRun(s: State, sched: seq<Action>)
    decreases |sched|
  {
    sched == [] || (Enabled(s, sched[0]) && IsRun(Next(s, sched[0]), sched[1..]))
  }

  function After(s: State, sched: seq<Action>): State
    requires IsRun(s, sched)
    decreases |sched|
  {
    if sched == [] then s else After(Next(s, sched[0]), sched[1..])
  }

  // The invariant ---------------------------------------------------------------------------------------

  function AsOwner(c: Call): Owner {
    match c
    case Sending(pc, e) => Sender(pc, e.bytes)
    case Receiving(pc, item) => Receiver(pc, item)
    case _ => Nobody
  }

  function Current(s: State): Owner {
    if s.lock.Some? && s.lock.value < |s.calls| then AsOwner(s.calls[s.lock.value]) else Nobody
  }

  ghost predicate LockInv(s: State) {
    && Shape(s) && !s.fault
    && (s.lock.Some? ==> s.lock.value < |s.calls|)
    && (forall t | 0 <= t < |s.calls| :: s.lock == Some(t) <==> Inside(s.calls[t]))
    && (forall t | 0 <= t < |s.calls| :: Receives(s.calls[t]) ==> t == 0)
    && (forall t | 0 <= t < |s.calls| :: Sends(s.calls[t]) ==> |s.calls[t].entry.bytes| == s.q.itemSize)
  }

  /** The record taken from the queue but not printed yet. */
  function InHand(s: State): seq<Record>
    requires Shape(s)
  {
    if s.hand.Some? then [s.hand.value]
    else match s.calls[0]
      case Receiving(pc, item) =>
        if pc == Test || pc == CopyOut || pc == Received(false) then [] else [item]
      case _ => []
  }

  function Bytes(es: seq<Entry>): (r: seq<Record>) {
    seq(|es|, i requires 0 <= i < |es| => es[i].bytes)
  }

  /** Nothing accepted is lost: printed, then the message in hand, then the queue, in order. */
  ghost predicate StreamInv(s: State)
    requires Shape(s)
  {
    Consistent(s.q, Current(s)) && Bytes(s.accepted) == s.printed + InHand(s) + Stored(s.q, Current(s))
  }

  /** The log task has left its main loop. */
  predicate Closing(log: LogPc) {
    log.SetRunning? || log.Farewell? || log.ClearRunning? || log.Drain? || log.PrintDrained? || log.Signal? || log.Exited?
  }

  ghost predicate ControlInv(s: State)
    requires Shape(s)
  {
    && (s.hand.Some? <==> s.log.Print? || s.log.PrintDrained?)
    && (Receives(s.calls[0]) ==> s.log.Receive? || s.log.Drain?)
    && (Sends(s.calls[0]) ==> s.log.Loop? || s.log.ClearRunning?)
    && (s.stopped ==> !s.running || s.log.Farewell? || s.log.ClearRunning?)
    && (!s.running ==> s.stopped)
    && (Closing(s.log) ==> s.stopped)
    && (s.log.Farewell? ==> s.running)
    && (s.log.Drain? || s.log.PrintDrained? || s.log.Signal? || s.log.Exited? ==> !s.running)
    && s.doneFd == (if s.log.Exited? then 1 else 0)
  }

  /** From a poll that reported data to the check in receive, the counter stays positive. */
  ghost predicate PollInv(s: State)
    requires Shape(s)
  {
    s.log == Receive(true) ==>
      match s.calls[0]
      case Receiving(pc, _) => (pc.Test? ==> s.q.eventFd > 0) && pc != Received(false)
      case _ => s.q.eventFd > 0
  }

  ghost predicate Inv(s: State) {
    LockInv(s) && StreamInv(s) && ControlInv(s) && PollInv(s)
  }

  lemma InitInv(memory: seq<byte>, itemSize: nat, capacity: nat, threads: nat, start: int)
    requires |memory| == Offset(itemSize, capacity)
    ensures Inv(Init(memory, itemSize, capacity, threads, start))
  {
    var s := Init(memory, itemSize, capacity, threads, start);
    assert s.q.AsRing().WellFormed();
  }

  // Preservation ------------------------------------------------------------------------------------------

  /** Locking, unlocking and moving on under the lock keep LockInv. */
  lemma MoveLock(s: State, s': State, t: nat, c: Call)
    requires LockInv(s) && t < |s.calls| && (Inside(s.calls[t]) || s.lock.None?)
    requires !s'.fault && s'.calls == s.calls[t := c] && s'.attempts == s.attempts && s'.q.itemSize == s.q.itemSize
    requires s'.lock == if Inside(c) then Some(t) else None
    requires Receives(c) ==> t == 0
    requires Sends(c) ==> |c.entry.bytes| == s'.q.itemSize
    ensures LockInv(s') && Current(s') == AsOwner(c)
  {}

  lemma OwnerIs(s: State, t: nat)
    requires LockInv(s) && t < |s.calls| && (Inside(s.calls[t]) || s.lock.None?)
    ensures Current(s) == AsOwner(s.calls[t])
  {}

  lemma SendOnLock(s: State, t: nat)
    requires LockInv(s) && StreamInv(s) && t < |s.calls| && s.calls[t].Sending?
    ensures LockInv(SendOn(s, t)) && Current(SendOn(s, t)) == AsOwner(SendOn(s, t).calls[t])
    ensures SendOn(s, t).q.eventFd >= s.q.eventFd
  {
    var Sending(pc, e) := s.calls[t];
    OwnerIs(s, t);
    if pc.Sent? {
      MoveLock(s, SendOn(s, t), t, Idle);
    } else {
      SendSettles(s.q, pc, e.bytes);
      MoveLock(s, SendOn(s, t), t, Sending(SendStep(s.q, pc, e.bytes).value.1, e));
    }
  }

  lemma SendOnStream(s: State, t: nat)
    requires LockInv(s) && StreamInv(s) && t < |s.calls| && s.calls[t].Sending?
    ensures Shape(SendOn(s, t)) && StreamInv(SendOn(s, t))
  {
    SendOnLock(s, t);
    OwnerIs(s, t);
    SendOnHands(s, t);
    SendMoves(s, t);
  }

  lemma SendMoves(s: State, t: nat)
    requires Shape(s) && StreamInv(s) && t < |s.calls| && s.calls[t].Sending? && Current(s) == AsOwner(s.calls[t])
    requires Shape(SendOn(s, t)) && Current(SendOn(s, t)) == AsOwner(SendOn(s, t).calls[t])
    requires InHand(SendOn(s, t)) == InHand(s) && SendOn(s, t).printed == s.printed
    ensures StreamInv(SendOn(s, t))
  {
    var Sending(pc, e) := s.calls[t];
    if !pc.Sent? {
      SendSettles(s.q, pc, e.bytes);
      var (q', pc') := SendStep(s.q, pc, e.bytes).value;
      StreamGrows(s, SendOn(s, t), Sender(pc', e.bytes), e, pc.CopyIn?);
    }
  }

  lemma StreamGrows(s: State, s': State, o: Owner, e: Entry, copies: bool)
    requires Shape(s) && Shape(s') && StreamInv(s) && Current(s') == o && Consistent(s'.q, o)
    requires Stored(s'.q, o) == Stored(s.q, Current(s)) + if copies then [e.bytes] else []
    requires s'.accepted == s.accepted + if copies then [e] else []
    requires InHand(s') == InHand(s) && s'.printed == s.printed
    ensures StreamInv(s')
  {
    if copies { BytesAppend(s.accepted, e); } else { assert s'.accepted == s.accepted; }
  }

  lemma BytesAppend(es: seq<Entry>, e: Entry)
    ensures Bytes(es + [e]) == Bytes(es) + [e.bytes]
  {}

  lemma SendOnHands(s: State, t: nat)
    requires Shape(s) && t < |s.calls| && s.calls[t].Sending?
    ensures InHand(SendOn(s, t)) == InHand(s) && SendOn(s, t).printed == s.printed
  {}

  lemma RecvOnLock(s: State)
    requires LockInv(s) && StreamInv(s) && s.calls[0].Receiving?
    ensures LockInv(RecvOn(s)) && Current(RecvOn(s)) == AsOwner(RecvOn(s).calls[0])
  {
    var Receiving(pc, item) := s.calls[0];
    OwnerIs(s, 0);
    if pc.Received? {
      MoveLock(s, RecvOn(s), 0, Idle);
    } else {
      RecvSettles(s.q, pc, item);
      var (q', pc', item') := RecvStep(s.q, pc, item).value;
      MoveLock(s, RecvOn(s), 0, Receiving(pc', item'));
    }
  }

  lemma RecvOnStream(s: State)
    requires Shape(s) && StreamInv(s) && s.hand.None? && s.calls[0].Receiving? && !s.fault
    requires Current(s) == AsOwner(s.calls[0]) && !RecvOn(s).fault && Current(RecvOn(s)) == AsOwner(RecvOn(s).calls[0])
    ensures StreamInv(RecvOn(s))
  {
    if s.calls[0].recvPc.Received? { RecvReturns(s); } else { RecvMoves(s); }
  }

  lemma RecvReturns(s: State)
    requires Shape(s) && StreamInv(s) && s.hand.None? && s.calls[0].Receiving? && s.calls[0].recvPc.Received?
    requires Current(s) == AsOwner(s.calls[0]) && Current(RecvOn(s)) == Nobody
    ensures StreamInv(RecvOn(s))
  {}

  lemma RecvMoves(s: State)
    requires Shape(s) && StreamInv(s) && s.hand.None? && s.calls[0].Receiving? && !s.calls[0].recvPc.Received? && !s.fault
    requires Current(s) == AsOwner(s.calls[0]) && !RecvOn(s).fault && Current(RecvOn(s)) == AsOwner(RecvOn(s).calls[0])
    ensures StreamInv(RecvOn(s))
  {
    var Receiving(pc, item) := s.calls[0];
    RecvSettles(s.q, pc, item);
    RecvOnHands(s);
    var (q', pc', item') := RecvStep(s.q, pc, item).value;
    StreamKept(s, RecvOn(s), Receiver(pc', item'));
  }

  lemma StreamKept(s: State, s': State, o: Owner)
    requires Shape(s) && Shape(s') && StreamInv(s) && Current(s') == o && Consistent(s'.q, o)
    requires InHand(s') + Stored(s'.q, o) == InHand(s) + Stored(s.q, Current(s))
    requires s'.accepted == s.accepted && s'.printed == s.printed
    ensures StreamInv(s')
  {
    Joined(s.printed, InHand(s), Stored(s.q, Current(s)));
    Joined(s.printed, InHand(s'), Stored(s'.q, o));
  }

  lemma Joined(a: seq<Record>, b: seq<Record>, c: seq<Record>)
    ensures a + b + c == a + (b + c)
  {}

  lemma RecvOnInv(s: State)
    requires LockInv(s) && StreamInv(s) && ControlInv(s) && s.calls[0].Receiving?
    ensures LockInv(RecvOn(s)) && StreamInv(RecvOn(s))
  {
    RecvOnLock(s);
    OwnerIs(s, 0);
    RecvOnStream(s);
  }

  lemma RecvOnHands(s: State)
    requires Shape(s) && s.hand.None? && s.calls[0].Receiving? && !s.fault
    requires s.calls[0].recvPc.Received? || !RecvOn(s).fault
    ensures var s' := RecvOn(s);
      && s'.printed == s.printed && s'.accepted == s.accepted
      && InHand(s') == (if s.calls[0].recvPc.CopyOut? then [s'.calls[0].item] else InHand(s))
      && (s.calls[0].recvPc.CopyOut? ==> InHand(s) == [])
  {}

  lemma RecvOnControl(s: State)
    requires LockInv(s) && StreamInv(s) && ControlInv(s) && PollInv(s) && s.calls[0].Receiving?
    ensures ControlInv(RecvOn(s)) && PollInv(RecvOn(s))
  {
    var Receiving(pc, item) := s.calls[0];
    OwnerIs(s, 0);
    if !pc.Received? { RecvSettles(s.q, pc, item); }
  }

  lemma SendControl(s: State, t: nat)
    requires LockInv(s) && ControlInv(s) && PollInv(s) && t < |s.calls| && Sends(s.calls[t])
    requires Proceed(s, t).q.eventFd >= s.q.eventFd
    ensures ControlInv(Proceed(s, t)) && PollInv(Proceed(s, t))
  {
    if t == 0 { OwnSendControl(s); }
  }

  lemma OwnSendControl(s: State)
    requires Shape(s) && ControlInv(s) && PollInv(s) && Sends(s.calls[0])
    ensures ControlInv(Proceed(s, 0)) && PollInv(Proceed(s, 0))
  {}

  lemma ProceedInv(s: State, t: nat)
    requires Inv(s) && t < |s.calls| && Unblocked(s, t) && !s.calls[t].Idle?
    ensures Inv(Proceed(s, t))
  {
    match s.calls[t]
    case SendLock(e) =>
      LockTaken(s, t);
      SendControl(s, t);
    case Sending(_, _) =>
      SendOnLock(s, t);
      SendOnStream(s, t);
      SendControl(s, t);
    case RecvLock => LockTaken(s, t);
    case Receiving(_, _) =>
      RecvOnInv(s);
      RecvOnControl(s);
  }

  lemma LockTaken(s: State, t: nat)
    requires LockInv(s) && StreamInv(s) && t < |s.calls| && s.lock.None? && (s.calls[t].SendLock? || s.calls[t].RecvLock?)
    ensures LockInv(Proceed(s, t)) && StreamInv(Proceed(s, t))
  {
    OwnerIs(s, t);
    MoveLock(s, Proceed(s, t), t, Proceed(s, t).calls[t]);
  }

  /** Steps that touch neither the lock nor the queue. */
  lemma QuietStep(s: State, s': State, t: nat, c: Call)
    requires LockInv(s) && StreamInv(s) && t < |s.calls| && !Inside(s.calls[t])
    requires !s'.fault && s'.q == s.q && s'.lock == s.lock && |s'.attempts| == |s.attempts|
    requires s'.calls == s.calls[t := c] && !Inside(c)
    requires Receives(c) ==> t == 0
    requires Sends(c) ==> |c.entry.bytes| == s.q.itemSize
    requires s'.accepted == s.accepted && s'.printed + InHand(s') == s.printed + InHand(s)
    ensures LockInv(s') && StreamInv(s')
  {
    assert Current(s') == Current(s);
  }

  lemma LogStepInv(s: State, own: Record, fails: bool)
    requires Inv(s) && s.calls[0].Idle? && |own| == s.q.itemSize
    ensures Inv(LogStep(s, own, fails))
  {
    LogStepControl(s, own, fails);
    LogStepQuiet(s, own, fails);
  }

  /** The steps of log_task that begin a call leave everything else but log alone. */
  lemma LogBegins(s: State, own: Record, fails: bool)
    requires Shape(s) && s.calls[0].Idle? && (s.log.Hello? || s.log.Farewell? || s.log.Receive? || s.log.Drain?)
    ensures var s' := LogStep(s, own, fails);
      && s'.q == s.q && s'.lock == s.lock && s'.accepted == s.accepted && s'.fault == s.fault
      && |s'.attempts| == |s.attempts| && s'.calls == s.calls[0 := s'.calls[0]]
      && (s'.calls[0].RecvLock? || (s'.calls[0].SendLock? && s'.calls[0].entry.bytes == own))
      && s'.printed == s.printed && s'.hand == s.hand
  {}

  /** Its other steps leave the calls alone; printing moves the message out of its hands. */
  lemma LogMoves(s: State, own: Record, fails: bool)
    requires Shape(s) && s.calls[0].Idle? && !s.log.Hello? && !s.log.Farewell? && !s.log.Receive? && !s.log.Drain?
    ensures var s' := LogStep(s, own, fails);
      && s'.q == s.q && s'.lock == s.lock && s'.accepted == s.accepted && s'.fault == s.fault
      && s'.attempts == s.attempts && s'.calls == s.calls
      && s'.printed + InHand(s') == s.printed + InHand(s)
  {
    if s.log.Print? || s.log.PrintDrained? { LogPrints(s, own, fails); }
  }

  lemma LogPrints(s: State, own: Record, fails: bool)
    requires Shape(s) && s.calls[0].Idle? && (s.log.Print? || s.log.PrintDrained?)
    ensures LogStep(s, own, fails).printed == s.printed + InHand(s) && InHand(LogStep(s, own, fails)) == []
  {}

  lemma LogStepQuiet(s: State, own: Record, fails: bool)
    requires LockInv(s) && StreamInv(s) && s.calls[0].Idle? && |own| == s.q.itemSize
    ensures LockInv(LogStep(s, own, fails)) && StreamInv(LogStep(s, own, fails))
  {
    if s.log.Hello? || s.log.Farewell? || s.log.Receive? || s.log.Drain? {
      LogBegins(s, own, fails);
    } else {
      LogMoves(s, own, fails);
    }
    QuietStep(s, LogStep(s, own, fails), 0, LogStep(s, own, fails).calls[0]);
  }

  lemma LogStepControl(s: State, own: Record, fails: bool)
    requires Shape(s) && ControlInv(s) && PollInv(s) && s.calls[0].Idle?
    ensures ControlInv(LogStep(s, own, fails)) && PollInv(LogStep(s, own, fails))
  {}

  lemma NextInv(s: State, a: Action)
    requires Inv(s) && Enabled(s, a)
    ensures Inv(Next(s, a))
  {
    match a
    case Begin(t, b) => QuietStep(s, Next(s, a), t, Next(s, a).calls[t]);
    case Step(t) => ProceedInv(s, t);
    case Log(b, fails) => if s.calls[0].Idle? { LogStepInv(s, b, fails); } else { ProceedInv(s, 0); }
    case Stop =>
    case Tick(_) =>
  }

  lemma {:induction false} RunInv(s: State, sched: seq<Action>)
    requires Inv(s) && IsRun(s, sched)
    ensures Inv(After(s, sched))
    decreases |sched|
  {
    if sched != [] {
      NextInv(s, sched[0]);
      RunInv(Next(s, sched[0]), sched[1..]);
    }
  }
}
