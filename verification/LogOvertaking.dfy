/**
 * The comment in async_log_helper.h promises chronological order. It does not hold across threads: the
 * timestamp is taken before the queue's lock, so a thread can be overtaken in between.
 */
module LogOvertaking {
  import opened Prelude
  import opened FifoQueues
  import opened QueueSteps
  import opened LogPipelines
  import opened LogChronology

  /** The statements until a call of fifo_queue_send that finds room returns. */
  function Remaining(c: Call): nat {
    match c
    case SendLock(_) => 7
    case Sending(pc, _) =>
      (match pc case Check => 6 case CopyIn => 5 case MoveHead => 4 case IncCount => 3 case Notify => 2 case Sent(_) => 1)
    case _ => 0
  }

  /** Thread t is in a call of fifo_queue_send that finds room, and the lock is free for it. */
  ghost predicate Succeeds(s: State, t: nat) {
    && LockInv(s) && StreamInv(s) && 0 < t < |s.calls| && Sends(s.calls[t])
    && (s.lock.None? || s.lock == Some(t))
    && s.calls[t] != Sending(Sent(false), s.calls[t].entry)
    && (Remaining(s.calls[t]) >= 6 ==> |Stored(s.q, Current(s))| < s.q.capacity)
  }

  lemma StoredAtMostAccepted(s: State)
    requires Shape(s) && StreamInv(s)
    ensures |Stored(s.q, Current(s))| <= |s.accepted|
  {
    assert |Bytes(s.accepted)| == |s.accepted|;
  }

  lemma OwnerSucceeds(s: State, t: nat)
    requires Succeeds(s, t) && s.calls[t].Sending?
    ensures var s' := SendOn(s, t);
      && LockInv(s') && StreamInv(s')
      && (Sends(s'.calls[t]) ==> s'.calls[t] != Sending(Sent(false), s.calls[t].entry))
  {
    SendOnLock(s, t);
    SendOnStream(s, t);
    OwnerIs(s, t);
    if !s.calls[t].sendPc.Sent? { SendSettles(s.q, s.calls[t].sendPc, s.calls[t].entry.bytes); }
  }

  lemma StepFrame(s: State, t: nat)
    requires Shape(s) && t < |s.calls| && Sends(s.calls[t]) && !Proceed(s, t).fault
    ensures var s' := Proceed(s, t);
      && s'.calls == s.calls[t := s'.calls[t]] && s'.q.capacity == s.q.capacity && s'.q.itemSize == s.q.itemSize
      && s'.accepted == (s.accepted + if Remaining(s.calls[t]) == 5 then [s.calls[t].entry] else [])
      && s'.printed == s.printed && s'.doneFd == s.doneFd && s'.stopped == s.stopped
  {}

  lemma RemainingDecreases(s: State, t: nat)
    requires t < |s.calls| && Sends(s.calls[t]) && !Proceed(s, t).fault && !s.fault
    ensures var c, c' := s.calls[t], Proceed(s, t).calls[t];
      && (c != Sending(Sent(false), c.entry) && c' != Sending(Sent(false), c.entry) ==> Remaining(c') == Remaining(c) - 1)
      && (Remaining(c) == 1 ==> Proceed(s, t).lock.None? && c'.Idle?)
      && (Remaining(c) > 1 ==>
            Sends(c') && c'.entry == c.entry && Proceed(s, t).lock == if c.SendLock? then Some(t) else s.lock)
  {}

  /** Taking the lock leaves the room there was. */
  lemma LockKeepsRoom(s: State, t: nat)
    requires Succeeds(s, t) && s.calls[t].SendLock?
    ensures var s' := Proceed(s, t);
      LockInv(s') && StreamInv(s') && |Stored(s'.q, Current(s'))| < s'.q.capacity
  {
    LockTaken(s, t);
    OwnerIs(s, t);
    OwnerIs(Proceed(s, t), t);
  }

  lemma StepSucceeds(s: State, t: nat)
    requires Succeeds(s, t)
    ensures LockInv(Proceed(s, t)) && StreamInv(Proceed(s, t))
    ensures Remaining(Proceed(s, t).calls[t]) == Remaining(s.calls[t]) - 1
    ensures if Remaining(s.calls[t]) > 1 then Succeeds(Proceed(s, t), t) && Proceed(s, t).calls[t].entry == s.calls[t].entry
            else Proceed(s, t).lock.None? && Proceed(s, t).calls[t].Idle?
  {
    if s.calls[t].Sending? { OwnerSucceeds(s, t); } else { LockKeepsRoom(s, t); }
    RemainingDecreases(s, t);
    StepFrame(s, t);
  }

  lemma RepeatTail(t: nat, n: nat)
    requires n > 0
    ensures seq(n, _ => Step(t))[1..] == seq(n - 1, _ => Step(t))
  {}

  lemma RepeatStep(s: State, t: nat, n: nat)
    requires n > 0 && Enabled(s, Step(t)) && IsRun(Proceed(s, t), seq(n - 1, _ => Step(t)))
    ensures IsRun(s, seq(n, _ => Step(t)))
    ensures After(s, seq(n, _ => Step(t))) == After(Proceed(s, t), seq(n - 1, _ => Step(t)))
  {
    RepeatTail(t, n);
  }

  /** The call runs to its end; if its message had not been copied yet, it now is the last one accepted. */
  lemma {:induction false} SendRuns(s: State, t: nat, n: nat)
    requires Succeeds(s, t) && n == Remaining(s.calls[t])
    ensures IsRun(s, seq(n, _ => Step(t)))
    ensures var s' := After(s, seq(n, _ => Step(t)));
      && LockInv(s') && StreamInv(s') && s'.lock.None? && s'.calls == s.calls[t := Idle]
      && s'.q.capacity == s.q.capacity && s'.accepted == (s.accepted + if n >= 5 then [s.calls[t].entry] else [])
      && s'.printed == s.printed && s'.doneFd == s.doneFd && s'.stopped == s.stopped
      && s'.q.itemSize == s.q.itemSize
    decreases n
  {
    StepSucceeds(s, t);
    StepFrame(s, t);
    if n > 1 { SendRuns(Proceed(s, t), t, n - 1); }
    RepeatStep(s, t, n);
  }

  lemma {:induction false} RunAppend(s: State, first: seq<Action>, second: seq<Action>)
    requires IsRun(s, first) && IsRun(After(s, first), second)
    ensures IsRun(s, first + second) && After(s, first + second) == After(After(s, first), second)
    decreases |first|
  {
    if first == [] {
      assert first + second == second;
    } else {
      assert (first + second)[1..] == first[1..] + second;
      RunAppend(Next(s, first[0]), first[1..], second);
    }
  }

  /** Thread 1 takes its timestamp, time passes, thread 2 takes its own; then 2 sends, and 1 after it. */
  function Overtaking(b: Record): seq<Action> {
    [Begin(1, b), Tick(1), Begin(2, b)] + (seq(7, _ => Step(2)) + seq(7, _ => Step(1)))
  }

  /** With two threads and room for two messages, some run accepts a later timestamp first. */
  lemma NotChronological(memory: seq<byte>, itemSize: nat, capacity: nat, threads: nat, start: int, b: Record)
    requires |memory| == Offset(itemSize, capacity) && capacity >= 2 && threads >= 2 && |b| == itemSize
    ensures var s := Init(memory, itemSize, capacity, threads, start);
      && IsRun(s, Overtaking(b))
      && After(s, Overtaking(b)).accepted == [Entry(2, 0, 0, start + 1, false, b), Entry(1, 0, 0, start, false, b)]
      && !Chronological(After(s, Overtaking(b)).accepted)
  {
    var s := Init(memory, itemSize, capacity, threads, start);
    var s' := BothComposed(s, b);
    InitInv(memory, itemSize, capacity, threads, start);
    BothCompose(s, b);
    BothComposedInv(s, b);
    BothSend(s');
    RunAppend(s, [Begin(1, b), Tick(1), Begin(2, b)], seq(7, _ => Step(2)) + seq(7, _ => Step(1)));
    var es := After(s, Overtaking(b)).accepted;
    assert es == [Entry(2, 0, 0, start + 1, false, b), Entry(1, 0, 0, start, false, b)];
    assert es[0].stamp > es[1].stamp;
  }

  /** Threads 1 and 2 have composed their messages, one time unit apart, and wait for the lock. */
  function BothComposed(s: State, b: Record): State
    requires Shape(s) && |s.calls| > 2
  {
    Compose(Compose(s, 1, b).(clock := s.clock + 1), 2, b)
  }

  lemma ComposeQuiet(s: State, t: nat, b: Record)
    requires LockInv(s) && StreamInv(s) && 0 < t < |s.calls| && s.calls[t].Idle? && |b| == s.q.itemSize
    ensures LockInv(Compose(s, t, b)) && StreamInv(Compose(s, t, b))
  {
    QuietStep(s, Compose(s, t, b), t, Compose(s, t, b).calls[t]);
  }

  lemma BothComposedInv(s: State, b: Record)
    requires LockInv(s) && StreamInv(s) && |s.calls| > 2 && s.calls[1].Idle? && s.calls[2].Idle? && |b| == s.q.itemSize
    ensures LockInv(BothComposed(s, b)) && StreamInv(BothComposed(s, b))
  {
    FirstComposed(s, b);
    ComposeQuiet(Compose(s, 1, b).(clock := s.clock + 1), 2, b);
  }

  lemma FirstComposed(s: State, b: Record)
    requires LockInv(s) && StreamInv(s) && |s.calls| > 2 && s.calls[1].Idle? && |b| == s.q.itemSize
    ensures LockInv(Compose(s, 1, b).(clock := s.clock + 1)) && StreamInv(Compose(s, 1, b).(clock := s.clock + 1))
  {
    ComposeQuiet(s, 1, b);
    LaterQuiet(Compose(s, 1, b));
  }

  lemma LaterQuiet(s: State)
    requires LockInv(s) && StreamInv(s)
    ensures LockInv(s.(clock := s.clock + 1)) && StreamInv(s.(clock := s.clock + 1))
  {}

  lemma BothCompose(s: State, b: Record)
    requires Shape(s) && !s.fault && |s.calls| > 2 && s.calls[1].Idle? && s.calls[2].Idle? && |b| == s.q.itemSize
    ensures var sched := [Begin(1, b), Tick(1), Begin(2, b)];
      IsRun(s, sched) && After(s, sched) == BothComposed(s, b)
  {
    var s1 := Compose(s, 1, b);
    var s2 := s1.(clock := s.clock + 1);
    OneStep(s2, Begin(2, b), [], BothComposed(s, b));
    OneStep(s1, Tick(1), [Begin(2, b)], s2);
    OneStep(s, Begin(1, b), [Tick(1), Begin(2, b)], s1);
    assert [Begin(1, b)] + [Tick(1), Begin(2, b)] == [Begin(1, b), Tick(1), Begin(2, b)];
    assert [Tick(1)] + [Begin(2, b)] == [Tick(1), Begin(2, b)] && [Begin(2, b)] + [] == [Begin(2, b)];
  }

  lemma OneStep(s: State, a: Action, rest: seq<Action>, s': State)
    requires Enabled(s, a) && Next(s, a) == s' && IsRun(s', rest)
    ensures IsRun(s, [a] + rest) && After(s, [a] + rest) == After(s', rest)
  {
    assert ([a] + rest)[1..] == rest;
  }

  lemma BothSend(s: State)
    requires LockInv(s) && StreamInv(s) && |s.calls| > 2 && s.lock.None? && s.accepted == [] && s.q.capacity >= 2
    requires s.calls[1].SendLock? && s.calls[2].SendLock?
    ensures var sched := seq(7, _ => Step(2)) + seq(7, _ => Step(1));
      IsRun(s, sched) && After(s, sched).accepted == [s.calls[2].entry, s.calls[1].entry]
  {
    StoredAtMostAccepted(s);
    SendRuns(s, 2, 7);
    var s' := After(s, seq(7, _ => Step(2)));
    StoredAtMostAccepted(s');
    SendRuns(s', 1, 7);
    RunAppend(s, seq(7, _ => Step(2)), seq(7, _ => Step(1)));
  }
}
