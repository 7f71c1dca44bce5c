/**
 * The bounded buffer as a buffered Go channel: a send or a receive is one atomic step. The semaphore
 * protocol refines it, and every run of it is a run of the semaphore protocol.
 */
module GoChannels {
  import opened Rings
  import opened BoundedBuffers

  /** sent counts each producer's completed sends; got is what each consumer has received. */
  datatype Chan = Chan(size: nat, queue: seq<int>, work: seq<seq<int>>, sent: seq<nat>, got: seq<seq<int>>)

  function Make(size: nat, work: seq<seq<int>>, consumers: nat): Chan {
    Chan(size, [], work, seq(|work|, _ => 0), seq(consumers, _ => []))
  }

  /** A send blocks while the channel is full, a receive while it is empty. */
  predicate Ready(g: Chan, a: Actor) {
    match a
    case Prod(p) => p < |g.work| && p < |g.sent| && g.sent[p] < |g.work[p]| && |g.queue| < g.size
    case Cons(c) => c < |g.got| && |g.queue| > 0
  }

  function Communicate(g: Chan, a: Actor): Chan
    requires Ready(g, a)
  {
    match a
    case Prod(p) => g.(queue := g.queue + [g.work[p][g.sent[p]]], sent := g.sent[p := g.sent[p] + 1])
    case Cons(c) => g.(queue := g.queue[1..], got := g.got[c := g.got[c] + [g.queue[0]]])
  }

  predicate IsGoRun(g: Chan, sched: seq<Actor>)
    decreases |sched|
  {
    sched == [] || (Ready(g, sched[0]) && IsGoRun(Communicate(g, sched[0]), sched[1..]))
  }

  function GoAfter(g: Chan, sched: seq<Actor>): Chan
    requires IsGoRun(g, sched)
    decreases |sched|
  {
    if sched == [] then g else GoAfter(Communicate(g, sched[0]), sched[1..])
  }

  /** The channel that a state of the semaphore protocol stands for. */
  function Abs(s: State): Chan
    requires s.ring.WellFormed()
  {
    Chan(|s.ring.slots|, s.ring.Contents(),
         seq(|s.prods|, p requires 0 <= p < |s.prods| => s.prods[p].items),
         seq(|s.prods|, p requires 0 <= p < |s.prods| => s.prods[p].Pushed()),
         seq(|s.cons|, c requires 0 <= c < |s.cons| => s.cons[c].got))
  }

  lemma InitAbs(memory: seq<int>, work: seq<seq<int>>, consumers: nat)
    ensures Abs(Init(memory, work, consumers)) == Make(|memory|, work, consumers)
  {
    var s, g := Init(memory, work, consumers), Make(|memory|, work, consumers);
    assert Abs(s).work == g.work && Abs(s).sent == g.sent && Abs(s).got == g.got;
  }

  lemma AbsOfProducerStep(s: State, p: nat)
    requires Inv(s) && Enabled(s, Prod(p)) && Step(s, Prod(p)).ring.WellFormed() && !Step(s, Prod(p)).aborted
    ensures var g := Abs(Step(s, Prod(p)));
      && g.work == Abs(s).work && g.got == Abs(s).got
      && g.sent == if s.prods[p].at.Access? then Abs(s).sent[p := s.prods[p].sent + 1] else Abs(s).sent
  {}

  lemma AbsOfConsumerStep(s: State, c: nat)
    requires Inv(s) && Enabled(s, Cons(c)) && Step(s, Cons(c)).ring.WellFormed()
    requires s.cons[c].at.Access? ==> 0 < s.ring.length
    ensures var g := Abs(Step(s, Cons(c)));
      && g.work == Abs(s).work && g.sent == Abs(s).sent
      && g.got == if s.cons[c].at.Access? then Abs(s).got[c := s.cons[c].got + [s.ring.Oldest()]] else Abs(s).got
  {}

  lemma RingOfStep(s: State, a: Actor)
    requires Inv(s) && Enabled(s, a)
    ensures var s' := Step(s, a);
      && s'.ring.WellFormed() && !s'.aborted && |s'.ring.slots| == |s.ring.slots|
      && if !PhaseOf(s, a).Access? then s'.ring == s.ring
         else match a
           case Prod(p) => s.ring.length < |s.ring.slots|
                           && s'.ring.Contents() == s.ring.Contents() + [s.prods[p].items[s.prods[p].sent]]
           case Cons(c) => 0 < s.ring.length && s.ring.Contents() == [s.ring.Oldest()] + s'.ring.Contents()
  {
    if PhaseOf(s, a).Access? {
      AssertionsHold(s, a);
      match a
      case Prod(p) => PushAppends(s.ring, s.prods[p].items[s.prods[p].sent]);
      case Cons(c) => PopTakesOldest(s.ring);
    }
  }

  /**
   * Every statement but the ring operation is invisible; the ring operation of a producer is exactly
   * one send of its next item, and that of a consumer exactly one receive.
   */
  lemma StepRefines(s: State, a: Actor)
    requires Inv(s) && Enabled(s, a)
    ensures Step(s, a).ring.WellFormed()
    ensures if PhaseOf(s, a).Access? then Ready(Abs(s), a) && Abs(Step(s, a)) == Communicate(Abs(s), a)
            else Abs(Step(s, a)) == Abs(s)
  {
    RingOfStep(s, a);
    match a
    case Prod(p) => AbsOfProducerStep(s, p);
    case Cons(c) => AbsOfConsumerStep(s, c);
  }

  /** The ring operations of a run, in order. */
  function Visible(s: State, sched: seq<Actor>): seq<Actor>
    requires IsRun(s, sched)
    decreases |sched|
  {
    if sched == [] then []
    else (if PhaseOf(s, sched[0]).Access? then [sched[0]] else []) + Visible(Step(s, sched[0]), sched[1..])
  }

  lemma {:induction false} RunRefines(s: State, sched: seq<Actor>)
    requires Inv(s) && IsRun(s, sched)
    ensures After(s, sched).ring.WellFormed()
    ensures IsGoRun(Abs(s), Visible(s, sched))
    ensures GoAfter(Abs(s), Visible(s, sched)) == Abs(After(s, sched))
    decreases |sched|
  {
    if sched != [] {
      var a, s' := sched[0], Step(s, sched[0]);
      StepRefines(s, a);
      StepInv(s, a);
      RunRefines(s', sched[1..]);
      var rest := Visible(s', sched[1..]);
      if PhaseOf(s, a).Access? {
        assert Visible(s, sched)[0] == a && Visible(s, sched)[1..] == rest;
      } else {
        assert Visible(s, sched) == rest;
      }
    }
  }

  /** Refinement: every run of the semaphore protocol is, through its ring operations, a channel run. */
  lemma Refines(memory: seq<int>, work: seq<seq<int>>, consumers: nat, sched: seq<Actor>)
    requires IsRun(Init(memory, work, consumers), sched)
    ensures var s, g := Init(memory, work, consumers), Make(|memory|, work, consumers);
      && After(s, sched).ring.WellFormed()
      && IsGoRun(g, Visible(s, sched))
      && GoAfter(g, Visible(s, sched)) == Abs(After(s, sched))
  {
    InitInv(memory, work, consumers);
    InitAbs(memory, work, consumers);
    RunRefines(Init(memory, work, consumers), sched);
  }

  // The converse: nothing the channel can do is lost --------------------------------------------------

  /** The whole call of buf_push or buf_pop, without interruption. */
  function Call(a: Actor): seq<Actor> { [a, a, a, a, a] }

  function Calls(sched: seq<Actor>): seq<Actor> {
    if sched == [] then [] else Call(sched[0]) + Calls(sched[1..])
  }

  ghost predicate Quiet(s: State) {
    && Inv(s) && s.mutex.None?
    && (forall p | 0 <= p < |s.prods| :: s.prods[p].at.Wait?)
    && (forall c | 0 <= c < |s.cons| :: s.cons[c].at.Wait?)
  }

  /** Only thread a may be inside a call. */
  ghost predicate Alone(s: State, a: Actor) {
    Inv(s) && InRange(s, a) && forall b | InRange(s, b) && b != a :: PhaseOf(s, b).Wait?
  }

  /** The statements left until the call returns. */
  function Rest(at: Phase): nat {
    match at case Wait => 0 case Lock => 4 case Access => 3 case Unlock => 2 case Post => 1
  }

  lemma MutexHolder(s: State, a: Actor)
    requires Alone(s, a)
    ensures s.mutex.None? || (s.mutex.value == a && (PhaseOf(s, a).Access? || PhaseOf(s, a).Unlock?))
  {
    assert s.mutex.None? || InRange(s, s.mutex.value);
  }

  lemma AloneStep(s: State, a: Actor)
    requires Alone(s, a) && (Enabled(s, a) || !PhaseOf(s, a).Wait?)
    ensures Enabled(s, a) && Alone(Step(s, a), a)
    ensures Rest(PhaseOf(Step(s, a), a)) == if PhaseOf(s, a).Wait? then 4 else Rest(PhaseOf(s, a)) - 1
  {
    MutexHolder(s, a);
    StepInv(s, a);
    var s' := Step(s, a);
    forall b | InRange(s', b) && b != a ensures PhaseOf(s', b).Wait? { assert PhaseOf(s, b).Wait?; }
  }

  lemma AloneIsQuiet(s: State, a: Actor)
    requires Alone(s, a) && PhaseOf(s, a).Wait?
    ensures Quiet(s)
  {
    MutexHolder(s, a);
    forall p | 0 <= p < |s.prods| ensures s.prods[p].at.Wait? { assert PhaseOf(s, Prod(p)).Wait?; }
    forall c | 0 <= c < |s.cons| ensures s.cons[c].at.Wait? { assert PhaseOf(s, Cons(c)).Wait?; }
  }

  /** AloneStep and StepRefines together. */
  lemma AloneRefines(s: State, a: Actor)
    requires Alone(s, a) && (Enabled(s, a) || !PhaseOf(s, a).Wait?)
    ensures Enabled(s, a) && Alone(Step(s, a), a)
    ensures Rest(PhaseOf(Step(s, a), a)) == if PhaseOf(s, a).Wait? then 4 else Rest(PhaseOf(s, a)) - 1
    ensures if Rest(PhaseOf(s, a)) == 3 then Ready(Abs(s), a) && Abs(Step(s, a)) == Communicate(Abs(s), a)
            else Abs(Step(s, a)) == Abs(s)
  {
    AloneStep(s, a);
    StepRefines(s, a);
  }

  lemma RestStep(s: State, a: Actor, n: nat)
    requires n > 0 && s.ring.WellFormed() && Enabled(s, a) && IsRun(Step(s, a), seq(n - 1, _ => a))
    ensures IsRun(s, seq(n, _ => a)) && After(s, seq(n, _ => a)) == After(Step(s, a), seq(n - 1, _ => a))
  {
    assert seq(n, _ => a)[1..] == seq(n - 1, _ => a);
  }

  lemma {:induction false} RestRuns(s: State, a: Actor, n: nat)
    requires Alone(s, a) && n == Rest(PhaseOf(s, a))
    ensures IsRun(s, seq(n, _ => a)) && Quiet(After(s, seq(n, _ => a)))
    ensures n >= 3 ==> Ready(Abs(s), a)
    ensures Abs(After(s, seq(n, _ => a))) == if n >= 3 then Communicate(Abs(s), a) else Abs(s)
    decreases n
  {
    if n == 0 {
      AloneIsQuiet(s, a);
    } else {
      AloneRefines(s, a);
      RestRuns(Step(s, a), a, n - 1);
      RestStep(s, a, n);
    }
  }

  lemma CanStart(s: State, a: Actor)
    requires Quiet(s)
    ensures Enabled(s, a) <==> Ready(Abs(s), a)
    ensures InRange(s, a) ==> Alone(s, a) && PhaseOf(s, a).Wait?
  {
    AllWaiting(s);
  }

  /** A call can start exactly when the channel operation is ready, and then amounts to it. */
  lemma CallIsOneOperation(s: State, a: Actor)
    requires Quiet(s)
    ensures Enabled(s, a) <==> Ready(Abs(s), a)
    ensures Ready(Abs(s), a) ==> IsRun(s, Call(a)) && Quiet(After(s, Call(a)))
    ensures Ready(Abs(s), a) ==> Abs(After(s, Call(a))) == Communicate(Abs(s), a)
  {
    CanStart(s, a);
    if Enabled(s, a) {
      AloneRefines(s, a);
      RestRuns(Step(s, a), a, 4);
      assert Call(a)[1..] == seq(4, _ => a);
    }
  }

  lemma {:induction false} RunAppend(s: State, first: seq<Actor>, second: seq<Actor>)
    requires IsRun(s, first) && IsRun(After(s, first), second)
    ensures IsRun(s, first + second) && After(s, first + second) == After(After(s, first), second)
    decreases |first|
  {
    if first == [] {
      assert first + second == second;
    } else {
      assert (first + second)[1..] == first[1..] + second;
      RunAppend(Step(s, first[0]), first[1..], second);
    }
  }

  lemma {:induction false} CallsRun(s: State, sched: seq<Actor>)
    requires Quiet(s) && IsGoRun(Abs(s), sched)
    ensures IsRun(s, Calls(sched)) && Quiet(After(s, Calls(sched)))
    ensures Abs(After(s, Calls(sched))) == GoAfter(Abs(s), sched)
    decreases |sched|
  {
    if sched != [] {
      CallIsOneOperation(s, sched[0]);
      CallsRun(After(s, Call(sched[0])), sched[1..]);
      RunAppend(s, Call(sched[0]), Calls(sched[1..]));
    }
  }

  /** Completeness: every run of the channel is realised by running its operations as whole calls. */
  lemma Realises(memory: seq<int>, work: seq<seq<int>>, consumers: nat, sched: seq<Actor>)
    requires IsGoRun(Make(|memory|, work, consumers), sched)
    ensures var s := Init(memory, work, consumers);
      && IsRun(s, Calls(sched)) && After(s, Calls(sched)).ring.WellFormed()
      && Abs(After(s, Calls(sched))) == GoAfter(Make(|memory|, work, consumers), sched)
  {
    InitInv(memory, work, consumers);
    InitAbs(memory, work, consumers);
    CallsRun(Init(memory, work, consumers), sched);
  }
}
