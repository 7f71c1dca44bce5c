/**
 * The shared counter of the Go program: two goroutines send requests over buffered channels, and main
 * receives them in a select loop and, once both have reported that they are done, drains what is left.
 */
module GoCounters {

  /** left counts the requests still to be sent; signalled says that the done message has been sent. */
  datatype Worker = Worker(left: nat, signalled: bool)

  datatype Main = Select | Draining | Printed(shown: int)

  /** iChan, dChan and doneChan are the numbers of messages buffered in the channels. */
  datatype State = State(i: int, inc: Worker, dec: Worker, iChan: nat, dChan: nat, doneChan: nat, done: int, main: Main)

  /** The capacities of the three channels. */
  datatype Caps = Caps(i: nat, d: nat, done: nat)

  datatype Action = IncSend | IncDone | DecSend | DecDone | RecvI | RecvD | RecvDone | Default

  function Init(start: int, up: nat, down: nat): State {
    State(start, Worker(up, false), Worker(down, false), 0, 0, 0, 2, Select)
  }

  /** A select takes any case that is ready, and its default only when none is. */
  predicate Enabled(s: State, caps: Caps, a: Action) {
    match a
    case IncSend => s.inc.left > 0 && s.iChan < caps.i
    case IncDone => s.inc.left == 0 && !s.inc.signalled && s.doneChan < caps.done
    case DecSend => s.dec.left > 0 && s.dChan < caps.d
    case DecDone => s.dec.left == 0 && !s.dec.signalled && s.doneChan < caps.done
    case RecvI => !s.main.Printed? && s.iChan > 0
    case RecvD => !s.main.Printed? && s.dChan > 0
    case RecvDone => s.main.Select? && s.doneChan > 0
    case Default => s.main.Draining? && s.iChan == 0 && s.dChan == 0
  }

  function Step(s: State, caps: Caps, a: Action): State
    requires Enabled(s, caps, a)
  {
    match a
    case IncSend => s.(inc := s.inc.(left := s.inc.left - 1), iChan := s.iChan + 1)
    case IncDone => s.(inc := s.inc.(signalled := true), doneChan := s.doneChan + 1)
    case DecSend => s.(dec := s.dec.(left := s.dec.left - 1), dChan := s.dChan + 1)
    case DecDone => s.(dec := s.dec.(signalled := true), doneChan := s.doneChan + 1)
    case RecvI => s.(i := s.i + 1, iChan := s.iChan - 1)
    case RecvD => s.(i := s.i - 1, dChan := s.dChan - 1)
    case RecvDone =>
      s.(done := s.done - 1, doneChan := s.doneChan - 1, main := if s.done - 1 == 0 then Draining else Select)
    case Default => s.(main := Printed(s.i))
  }

  predicate IsRun(s: State, caps: Caps, sched: seq<Action>)
    decreases |sched|
  {
    sched == [] || (Enabled(s, caps, sched[0]) && IsRun(Step(s, caps, sched[0]), caps, sched[1..]))
  }

  function After(s: State, caps: Caps, sched: seq<Action>): State
    requires IsRun(s, caps, sched)
    decreases |sched|
  {
    if sched == [] then s else After(Step(s, caps, sched[0]), caps, sched[1..])
  }

  function Flag(b: bool): int { if b then 1 else 0 }

  /**
   * Every request is still to be sent, buffered, or applied; every done message is unsent, buffered or
   * counted, and is sent only after the last request; main drains only when both are counted.
   */
  predicate Inv(s: State, goal: int) {
    && s.i + (s.inc.left + s.iChan) - (s.dec.left + s.dChan) == goal
    && s.done == 2 - Flag(s.inc.signalled) - Flag(s.dec.signalled) + s.doneChan
    && (s.inc.signalled ==> s.inc.left == 0)
    && (s.dec.signalled ==> s.dec.left == 0)
    && (s.done == 0 <==> !s.main.Select?)
    && (s.main.Printed? ==> s.main.shown == s.i && s.iChan == 0 && s.dChan == 0)
  }

  /** The steps that are left: two for each request, two for each done message, one to print. */
  function Left(s: State): int {
    2 * (s.inc.left + s.dec.left) + s.iChan + s.dChan
    + (2 - Flag(s.inc.signalled) - Flag(s.dec.signalled)) + s.done + Flag(!s.main.Printed?)
  }

  lemma StepInv(s: State, caps: Caps, a: Action, goal: int)
    requires Inv(s, goal) && Enabled(s, caps, a)
    ensures Inv(Step(s, caps, a), goal)
  {}

  lemma StepLeft(s: State, caps: Caps, a: Action)
    requires Enabled(s, caps, a)
    ensures Left(Step(s, caps, a)) == Left(s) - 1
  {}

  lemma {:induction false} RunInv(s: State, caps: Caps, sched: seq<Action>, goal: int)
    requires Inv(s, goal) && IsRun(s, caps, sched)
    ensures Inv(After(s, caps, sched), goal) && Left(After(s, caps, sched)) == Left(s) - |sched|
    decreases |sched|
  {
    if sched != [] {
      StepInv(s, caps, sched[0], goal);
      StepLeft(s, caps, sched[0]);
      RunInv(Step(s, caps, sched[0]), caps, sched[1..], goal);
    }
  }

  /** A state in which nobody can move has printed, provided that every channel has a buffer. */
  lemma StuckHasPrinted(s: State, caps: Caps, goal: int)
    requires Inv(s, goal) && caps.i >= 1 && caps.d >= 1 && caps.done >= 1
    requires forall a :: !Enabled(s, caps, a)
    ensures s.main == Printed(goal)
  {
    assert !Enabled(s, caps, RecvI) && !Enabled(s, caps, RecvD) && !Enabled(s, caps, RecvDone);
    assert !Enabled(s, caps, IncSend) && !Enabled(s, caps, DecSend);
    assert !Enabled(s, caps, IncDone) && !Enabled(s, caps, DecDone) && !Enabled(s, caps, Default);
  }

  /**
   * For any numbers of requests and any buffered channels: whatever is printed is the start plus the
   * increments minus the decrements, every run is finite, and the only states without a next step are
   * those after exactly all the steps, with the number printed.
   */
  lemma MagicNumber(start: int, up: nat, down: nat, caps: Caps, sched: seq<Action>)
    requires IsRun(Init(start, up, down), caps, sched)
    ensures var s := After(Init(start, up, down), caps, sched);
      && (s.main.Printed? ==> s.main.shown == start + up - down)
      && |sched| <= 2 * (up + down) + 5
      && (caps.i >= 1 && caps.d >= 1 && caps.done >= 1 && (forall a :: !Enabled(s, caps, a)) ==>
            s.main == Printed(start + up - down) && |sched| == 2 * (up + down) + 5)
  {
    var goal := start + up - down;
    RunInv(Init(start, up, down), caps, sched, goal);
    var s := After(Init(start, up, down), caps, sched);
    if caps.i >= 1 && caps.d >= 1 && caps.done >= 1 && forall a :: !Enabled(s, caps, a) {
      StuckHasPrinted(s, caps, goal);
    }
  }

  /**
   * Why main drains: right after the second done message both channels can still hold requests, and
   * printing i at that moment would be right exactly when as many of each kind are left.
   */
  lemma DrainIsNeeded(start: int, up: nat, down: nat, caps: Caps, sched: seq<Action>)
    requires IsRun(Init(start, up, down), caps, sched)
    requires After(Init(start, up, down), caps, sched).main.Draining?
    ensures var s := After(Init(start, up, down), caps, sched);
      && s.inc.left == 0 && s.dec.left == 0
      && (s.i == start + up - down <==> s.iChan == s.dChan)
  {
    RunInv(Init(start, up, down), caps, sched, start + up - down);
  }

  // Which states are reached ----------------------------------------------------------------------------

  /** Requests and done messages are unsent, buffered or received, no buffer overflows, and main has kept count. */
  predicate Possible(s: State, start: int, up: nat, down: nat, caps: Caps) {
    && s.iChan <= caps.i && s.dChan <= caps.d && s.doneChan <= caps.done
    && s.inc.left + s.iChan <= up && s.dec.left + s.dChan <= down
    && s.i == start + (up - s.inc.left - s.iChan) - (down - s.dec.left - s.dChan)
    && (s.inc.signalled ==> s.inc.left == 0)
    && (s.dec.signalled ==> s.dec.left == 0)
    && 0 <= s.done == 2 - Flag(s.inc.signalled) - Flag(s.dec.signalled) + s.doneChan <= 2
    && (s.main.Select? <==> s.done > 0)
    && (s.main.Printed? ==> s.main.shown == s.i && s.iChan == 0 && s.dChan == 0)
  }

  lemma StepPossible(s: State, start: int, up: nat, down: nat, caps: Caps, a: Action)
    requires Possible(s, start, up, down, caps) && Enabled(s, caps, a)
    ensures Possible(Step(s, caps, a), start, up, down, caps)
  {}

  lemma {:induction false} RunPossible(s: State, start: int, up: nat, down: nat, caps: Caps, sched: seq<Action>)
    requires Possible(s, start, up, down, caps) && IsRun(s, caps, sched)
    ensures Possible(After(s, caps, sched), start, up, down, caps)
    decreases |sched|
  {
    if sched != [] {
      StepPossible(s, start, up, down, caps, sched[0]);
      RunPossible(Step(s, caps, sched[0]), start, up, down, caps, sched[1..]);
    }
  }

  /** The state before main has printed, or has counted a done message. */
  function BeforeMain(s: State): (State, Action) {
    if s.main.Printed? then (s.(main := Draining), Default)
    else (s.(done := s.done + 1, doneChan := s.doneChan + 1, main := Select), RecvDone)
  }

  /** The state before a worker has signalled. */
  function BeforeSignal(s: State): (State, Action)
    requires s.doneChan > 0
  {
    if s.inc.signalled then (s.(inc := s.inc.(signalled := false), doneChan := s.doneChan - 1), IncDone)
    else (s.(dec := s.dec.(signalled := false), doneChan := s.doneChan - 1), DecDone)
  }

  /** The state before a request has been sent, or received. */
  function BeforeRequest(s: State, up: nat): (State, Action) {
    if s.iChan > 0 then (s.(inc := s.inc.(left := s.inc.left + 1), iChan := s.iChan - 1), IncSend)
    else if s.dChan > 0 then (s.(dec := s.dec.(left := s.dec.left + 1), dChan := s.dChan - 1), DecSend)
    else if s.inc.left < up then (s.(i := s.i - 1, iChan := s.iChan + 1), RecvI)
    else (s.(i := s.i + 1, dChan := s.dChan + 1), RecvD)
  }

  function Before(s: State, up: nat): (State, Action) {
    if !s.main.Select? || (s.doneChan == 0 && s.done < 2) then BeforeMain(s)
    else if s.doneChan > 0 then BeforeSignal(s)
    else BeforeRequest(s, up)
  }

  /** Every possible state but the first has a possible predecessor. */
  lemma BeforePossible(s: State, start: int, up: nat, down: nat, caps: Caps)
    requires Possible(s, start, up, down, caps) && s != Init(start, up, down)
    requires caps.i >= 1 && caps.d >= 1 && caps.done >= 1
    ensures var (s0, a) := Before(s, up);
      Possible(s0, start, up, down, caps) && Enabled(s0, caps, a) && Step(s0, caps, a) == s
  {}

  lemma {:induction false} RunAppend(s: State, caps: Caps, first: seq<Action>, a: Action)
    requires IsRun(s, caps, first) && Enabled(After(s, caps, first), caps, a)
    ensures IsRun(s, caps, first + [a]) && After(s, caps, first + [a]) == Step(After(s, caps, first), caps, a)
    decreases |first|
  {
    if first == [] {
      assert (first + [a])[1..] == [];
    } else {
      assert (first + [a])[1..] == first[1..] + [a];
      RunAppend(Step(s, caps, first[0]), caps, first[1..], a);
    }
  }

  lemma {:induction false} Reach(s: State, start: int, up: nat, down: nat, caps: Caps) returns (sched: seq<Action>)
    requires Possible(s, start, up, down, caps) && caps.i >= 1 && caps.d >= 1 && caps.done >= 1
    ensures IsRun(Init(start, up, down), caps, sched) && After(Init(start, up, down), caps, sched) == s
    decreases Left(Init(start, up, down)) - Left(s)
  {
    if s == Init(start, up, down) {
      sched := [];
    } else {
      BeforePossible(s, start, up, down, caps);
      var (s0, a) := Before(s, up);
      StepLeft(s0, caps, a);
      var rest := Reach(s0, start, up, down, caps);
      RunAppend(Init(start, up, down), caps, rest, a);
      sched := rest + [a];
    }
  }

  /** Exactly which states are reached: with buffered channels, all those in which the accounts are right. */
  lemma ReachedIff(s: State, start: int, up: nat, down: nat, caps: Caps)
    requires caps.i >= 1 && caps.d >= 1 && caps.done >= 1
    ensures Possible(s, start, up, down, caps) <==>
      exists sched :: IsRun(Init(start, up, down), caps, sched) && After(Init(start, up, down), caps, sched) == s
  {
    if Possible(s, start, up, down, caps) {
      var sched := Reach(s, start, up, down, caps);
    }
    forall sched | IsRun(Init(start, up, down), caps, sched) && After(Init(start, up, down), caps, sched) == s
      ensures Possible(s, start, up, down, caps)
    {
      RunPossible(Init(start, up, down), start, up, down, caps, sched);
    }
  }

  /**
   * What the drain can find: any numbers of requests that there are and that fit the channels. So with
   * at least one request the counter can be wrong when main has received both done messages.
   */
  lemma LeftToDrain(start: int, up: nat, down: nat, caps: Caps, k: nat, l: nat)
    requires caps.i >= 1 && caps.d >= 1 && caps.done >= 1
    ensures (k <= up && k <= caps.i && l <= down && l <= caps.d) <==>
      exists sched :: IsRun(Init(start, up, down), caps, sched)
        && var s := After(Init(start, up, down), caps, sched); s.main.Draining? && s.iChan == k && s.dChan == l
    ensures k <= up && k <= caps.i && l <= down && l <= caps.d && k != l ==>
      exists sched :: IsRun(Init(start, up, down), caps, sched)
        && var s := After(Init(start, up, down), caps, sched);
          s.main.Draining? && s.iChan == k && s.dChan == l && s.i == start + up - down - k + l != start + up - down
  {
    if k <= up && k <= caps.i && l <= down && l <= caps.d {
      var s := State(start + up - k - (down - l), Worker(0, true), Worker(0, true), k, l, 0, 0, Draining);
      var sched := Reach(s, start, up, down, caps);
    }
    forall sched | IsRun(Init(start, up, down), caps, sched)
      && var s := After(Init(start, up, down), caps, sched); s.main.Draining? && s.iChan == k && s.dChan == l
      ensures k <= up && k <= caps.i && l <= down && l <= caps.d
    {
      RunPossible(Init(start, up, down), start, up, down, caps, sched);
    }
  }

  /**
   * What blocks: a worker only a full channel, and main only empty channels; a select takes a message
   * from any channel that has one, and gives up only when it is draining and there is none.
   */
  lemma BlockedIff(s: State, start: int, up: nat, down: nat, caps: Caps)
    requires Possible(s, start, up, down, caps)
    ensures !Enabled(s, caps, IncSend) && !Enabled(s, caps, IncDone) <==>
      s.inc.signalled || (if s.inc.left > 0 then s.iChan == caps.i else s.doneChan == caps.done)
    ensures !Enabled(s, caps, DecSend) && !Enabled(s, caps, DecDone) <==>
      s.dec.signalled || (if s.dec.left > 0 then s.dChan == caps.d else s.doneChan == caps.done)
    ensures !s.main.Printed? ==>
      (Enabled(s, caps, RecvI) <==> s.iChan > 0) && (Enabled(s, caps, RecvD) <==> s.dChan > 0)
    ensures s.main.Select? ==> (Enabled(s, caps, RecvDone) <==> s.doneChan > 0)
    ensures s.main.Draining? ==>
      (Enabled(s, caps, Default) <==> !Enabled(s, caps, RecvI) && !Enabled(s, caps, RecvD)) && !Enabled(s, caps, RecvDone)
  {}
}
