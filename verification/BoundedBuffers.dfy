/**
 * The semaphore protocol of the bounded buffer: any number of producers and consumers, one step per
 * statement of buf_push and buf_pop, interleaved by an arbitrary schedule.
 */
module BoundedBuffers {
  import opened Prelude
  import opened Rings

  /** The statement of buf_push or buf_pop that a thread executes next. */
  datatype Phase = Wait | Lock | Access | Unlock | Post

  /** sent counts the calls of buf_push that have returned. */
  datatype Producer = Producer(items: seq<int>, sent: nat, at: Phase) {
    function Pushed(): nat { sent + if at.Unlock? || at.Post? then 1 else 0 }
  }

  datatype Consumer = Consumer(got: seq<int>, at: Phase)

  datatype Actor = Prod(p: nat) | Cons(c: nat)

  datatype Event = Event(thread: nat, value: int)

  /** pushed and popped record the critical sections in the order in which they happen. */
  datatype State = State(
    ring: Ring<int>, capacity: nat, numElements: nat, mutex: Option<Actor>, aborted: bool,
    prods: seq<Producer>, cons: seq<Consumer>, pushed: seq<Event>, popped: seq<Event>)

  function Init(memory: seq<int>, work: seq<seq<int>>, consumers: nat): State {
    State(Ring(memory, 0, 0, 0), |memory|, 0, None, false,
          seq(|work|, p requires 0 <= p < |work| => Producer(work[p], 0, Wait)),
          seq(consumers, _ => Consumer([], Wait)), [], [])
  }

  predicate InRange(s: State, a: Actor) {
    match a
    case Prod(p) => p < |s.prods|
    case Cons(c) => c < |s.cons|
  }

  function PhaseOf(s: State, a: Actor): Phase
    requires InRange(s, a)
  {
    match a
    case Prod(p) => s.prods[p].at
    case Cons(c) => s.cons[c].at
  }

  /** A thread is blocked only in sem_wait and in pthread_mutex_lock, or when it has no work left. */
  predicate Enabled(s: State, a: Actor) {
    && InRange(s, a)
    && !s.aborted
    && match PhaseOf(s, a) {
       case Wait => if a.Prod? then s.prods[a.p].sent < |s.prods[a.p].items| && s.capacity > 0
                    else s.numElements > 0
       case Lock => s.mutex.None?
       case Access => a.Prod? ==> s.prods[a.p].sent < |s.prods[a.p].items|
       case Unlock => true
       case Post => true
       }
  }

  /** One statement of buf_push; a failing assertion in rb_push aborts the program. */
  function StepProducer(s: State, p: nat): State
    requires Enabled(s, Prod(p)) && s.ring.WellFormed()
  {
    var t := s.prods[p];
    match t.at
    case Wait => s.(capacity := s.capacity - 1, prods := s.prods[p := t.(at := Lock)])
    case Lock => s.(mutex := Some(Prod(p)), prods := s.prods[p := t.(at := Access)])
    case Access =>
      if s.ring.length < |s.ring.slots| then
        s.(ring := s.ring.Push(t.items[t.sent]), pushed := s.pushed + [Event(p, t.items[t.sent])],
           prods := s.prods[p := t.(at := Unlock)])
      else s.(aborted := true)
    case Unlock => s.(mutex := None, prods := s.prods[p := t.(at := Post)])
    case Post => s.(numElements := s.numElements + 1,
                    prods := s.prods[p := t.(at := Wait, sent := t.sent + 1)])
  }

  /** One statement of buf_pop; a failing assertion in rb_pop aborts the program. */
  function StepConsumer(s: State, c: nat): State
    requires Enabled(s, Cons(c)) && s.ring.WellFormed()
  {
    var t := s.cons[c];
    match t.at
    case Wait => s.(numElements := s.numElements - 1, cons := s.cons[c := t.(at := Lock)])
    case Lock => s.(mutex := Some(Cons(c)), cons := s.cons[c := t.(at := Access)])
    case Access =>
      if s.ring.length > 0 then
        s.(ring := s.ring.Pop(), popped := s.popped + [Event(c, s.ring.Oldest())],
           cons := s.cons[c := t.(at := Unlock, got := t.got + [s.ring.Oldest()])])
      else s.(aborted := true)
    case Unlock => s.(mutex := None, cons := s.cons[c := t.(at := Post)])
    case Post => s.(capacity := s.capacity + 1, cons := s.cons[c := t.(at := Wait)])
  }

  function Step(s: State, a: Actor): State
    requires Enabled(s, a) && s.ring.WellFormed()
  {
    match a
    case Prod(p) => StepProducer(s, p)
    case Cons(c) => StepConsumer(s, c)
  }

  /** sched is an execution from s. */
  predicate IsRun(s: State, sched: seq<Actor>)
    decreases |sched|
  {
    sched == [] || (s.ring.WellFormed() && Enabled(s, sched[0]) && IsRun(Step(s, sched[0]), sched[1..]))
  }

  function After(s: State, sched: seq<Actor>): State
    requires IsRun(s, sched)
    decreases |sched|
  {
    if sched == [] then s else After(Step(s, sched[0]), sched[1..])
  }

  // The counting argument ---------------------------------------------------------------------------

  /** 1 while a thread holds a unit of its first semaphore that the ring does not reflect yet. */
  function Claim(at: Phase): int { if at.Lock? || at.Access? then 1 else 0 }

  /** 1 while the ring has changed but the second semaphore does not reflect it yet. */
  function Owed(at: Phase): int { if at.Unlock? || at.Post? then 1 else 0 }

  function ClaimP(t: Producer): int { Claim(t.at) }
  function OwedP(t: Producer): int { Owed(t.at) }
  function ClaimC(t: Consumer): int { Claim(t.at) }
  function OwedC(t: Consumer): int { Owed(t.at) }
  function PushedP(t: Producer): int { t.Pushed() }
  function GotC(t: Consumer): int { |t.got| }

  ghost predicate Counting(s: State) {
    && |s.ring.slots| == s.ring.length + s.capacity + Sum(s.prods, ClaimP) + Sum(s.cons, OwedC)
    && s.ring.length == s.numElements + Sum(s.cons, ClaimC) + Sum(s.prods, OwedP)
    && |s.pushed| == Sum(s.prods, PushedP)
    && |s.popped| == Sum(s.cons, GotC)
  }

  ghost predicate Exclusion(s: State) {
    forall a | InRange(s, a) :: s.mutex == Some(a) <==> PhaseOf(s, a).Access? || PhaseOf(s, a).Unlock?
  }

  function Values(log: seq<Event>): (r: seq<int>) {
    seq(|log|, k requires 0 <= k < |log| => log[k].value)
  }

  /** The values logged by one thread, in order. */
  function Of(log: seq<Event>, thread: nat): seq<int> {
    if log == [] then []
    else Of(log[..|log| - 1], thread) + if log[|log| - 1].thread == thread then [log[|log| - 1].value] else []
  }

  ghost predicate History(s: State) {
    && s.ring.WellFormed()
    && Values(s.pushed) == Values(s.popped) + s.ring.Contents()
    && (forall p | 0 <= p < |s.prods| :: s.prods[p].Pushed() <= |s.prods[p].items|
                                       && Of(s.pushed, p) == s.prods[p].items[..s.prods[p].Pushed()])
    && (forall c | 0 <= c < |s.cons| :: Of(s.popped, c) == s.cons[c].got)
  }

  ghost predicate Inv(s: State) {
    && !s.aborted
    && (s.mutex.Some? ==> InRange(s, s.mutex.value))
    && (forall p | 0 <= p < |s.prods| && !s.prods[p].at.Wait? :: s.prods[p].sent < |s.prods[p].items|)
    && Exclusion(s)
    && Counting(s)
    && History(s)
  }

  lemma InitInv(memory: seq<int>, work: seq<seq<int>>, consumers: nat)
    ensures Inv(Init(memory, work, consumers))
  {
    var s := Init(memory, work, consumers);
    SumZero(s.prods, ClaimP); SumZero(s.prods, OwedP); SumZero(s.prods, PushedP);
    SumZero(s.cons, ClaimC); SumZero(s.cons, OwedC); SumZero(s.cons, GotC);
  }

  /** The sums over the producers when one producer changes. */
  lemma ProducerSums(ps: seq<Producer>, p: nat, t: Producer)
    requires p < |ps|
    ensures Sum(ps[p := t], ClaimP) == Sum(ps, ClaimP) - Claim(ps[p].at) + Claim(t.at)
    ensures Sum(ps[p := t], OwedP) == Sum(ps, OwedP) - Owed(ps[p].at) + Owed(t.at)
    ensures Sum(ps[p := t], PushedP) == Sum(ps, PushedP) - ps[p].Pushed() + t.Pushed()
    ensures Sum(ps, ClaimP) >= Claim(ps[p].at) && Sum(ps, OwedP) >= Owed(ps[p].at)
  {
    SumUpdate(ps, p, t, ClaimP); SumUpdate(ps, p, t, OwedP); SumUpdate(ps, p, t, PushedP);
    SumAtLeast(ps, p, ClaimP); SumAtLeast(ps, p, OwedP);
  }

  /** The sums over the consumers when one consumer changes. */
  lemma ConsumerSums(cs: seq<Consumer>, c: nat, t: Consumer)
    requires c < |cs|
    ensures Sum(cs[c := t], ClaimC) == Sum(cs, ClaimC) - Claim(cs[c].at) + Claim(t.at)
    ensures Sum(cs[c := t], OwedC) == Sum(cs, OwedC) - Owed(cs[c].at) + Owed(t.at)
    ensures Sum(cs[c := t], GotC) == Sum(cs, GotC) - |cs[c].got| + |t.got|
    ensures Sum(cs, ClaimC) >= Claim(cs[c].at) && Sum(cs, OwedC) >= Owed(cs[c].at)
  {
    SumUpdate(cs, c, t, ClaimC); SumUpdate(cs, c, t, OwedC); SumUpdate(cs, c, t, GotC);
    SumAtLeast(cs, c, ClaimC); SumAtLeast(cs, c, OwedC);
  }

  lemma SumsNonNegative(s: State)
    ensures 0 <= Sum(s.prods, ClaimP) && 0 <= Sum(s.prods, OwedP)
    ensures 0 <= Sum(s.cons, ClaimC) && 0 <= Sum(s.cons, OwedC)
  {
    SumNonNegative(s.prods, ClaimP); SumNonNegative(s.prods, OwedP);
    SumNonNegative(s.cons, ClaimC); SumNonNegative(s.cons, OwedC);
  }

  /** Neither assertion of the ring buffer can fail: the semaphores leave room, or an element. */
  lemma AssertionsHold(s: State, a: Actor)
    requires Inv(s) && Enabled(s, a) && PhaseOf(s, a).Access?
    ensures if a.Prod? then s.ring.length < |s.ring.slots| else 0 < s.ring.length
  {
    SumsNonNegative(s);
    match a
    case Prod(p) => ProducerSums(s.prods, p, s.prods[p]);
    case Cons(c) => ConsumerSums(s.cons, c, s.cons[c]);
  }

  lemma StepCounting(s: State, a: Actor)
    requires Inv(s) && Enabled(s, a)
    ensures Counting(Step(s, a))
  {
    match a
    case Prod(p) => ProducerCounting(s, p);
    case Cons(c) => ConsumerCounting(s, c);
  }

  lemma ProducerCounting(s: State, p: nat)
    requires Inv(s) && Enabled(s, Prod(p))
    ensures Counting(Step(s, Prod(p)))
  {
    if s.prods[p].at.Access? { AssertionsHold(s, Prod(p)); }
    ProducerSums(s.prods, p, Step(s, Prod(p)).prods[p]);
  }

  lemma ConsumerCounting(s: State, c: nat)
    requires Inv(s) && Enabled(s, Cons(c))
    ensures Counting(Step(s, Cons(c)))
  {
    if s.cons[c].at.Access? { AssertionsHold(s, Cons(c)); }
    ConsumerSums(s.cons, c, Step(s, Cons(c)).cons[c]);
  }

  lemma StepExclusion(s: State, a: Actor)
    requires Inv(s) && Enabled(s, a)
    ensures Exclusion(Step(s, a))
  {
    if PhaseOf(s, a).Access? { AssertionsHold(s, a); }
    var s' := Step(s, a);
    forall b | InRange(s', b)
      ensures s'.mutex == Some(b) <==> PhaseOf(s', b).Access? || PhaseOf(s', b).Unlock?
    {
      assert InRange(s, b);
      assert b != a ==> PhaseOf(s', b) == PhaseOf(s, b);
    }
  }

  lemma OfAppend(log: seq<Event>, e: Event, thread: nat)
    ensures Of(log + [e], thread) == Of(log, thread) + if e.thread == thread then [e.value] else []
  {
    assert (log + [e])[..|log|] == log;
  }

  lemma StepHistory(s: State, a: Actor)
    requires Inv(s) && Enabled(s, a)
    ensures History(Step(s, a))
  {
    if PhaseOf(s, a).Access? {
      AssertionsHold(s, a);
      match a
      case Prod(p) => PushHistory(s, p);
      case Cons(c) => PopHistory(s, c);
    }
  }

  lemma PushHistory(s: State, p: nat)
    requires Inv(s) && Enabled(s, Prod(p)) && s.prods[p].at.Access? && s.ring.length < |s.ring.slots|
    ensures History(Step(s, Prod(p)))
  {
    var s', t := Step(s, Prod(p)), s.prods[p];
    var e := Event(p, t.items[t.sent]);
    PushAppends(s.ring, e.value);
    assert Values(s'.pushed) == Values(s.pushed) + [e.value];
    forall q | 0 <= q < |s'.prods| ensures Of(s'.pushed, q) == s'.prods[q].items[..s'.prods[q].Pushed()] {
      OfAppend(s.pushed, e, q);
    }
  }

  lemma PopHistory(s: State, c: nat)
    requires Inv(s) && Enabled(s, Cons(c)) && s.cons[c].at.Access? && 0 < s.ring.length
    ensures History(Step(s, Cons(c)))
  {
    var s' := Step(s, Cons(c));
    var e := Event(c, s.ring.Oldest());
    PopTakesOldest(s.ring);
    assert Values(s'.popped) == Values(s.popped) + [e.value];
    forall d | 0 <= d < |s'.cons| ensures Of(s'.popped, d) == s'.cons[d].got {
      OfAppend(s.popped, e, d);
    }
  }

  lemma StepInv(s: State, a: Actor)
    requires Inv(s) && Enabled(s, a)
    ensures Inv(Step(s, a))
  {
    StepCounting(s, a);
    StepExclusion(s, a);
    StepHistory(s, a);
    if PhaseOf(s, a).Access? { AssertionsHold(s, a); }
  }

  /** What no step changes: the threads, their work and the size of the ring. */
  predicate SameShape(s: State, s': State) {
    && |s'.ring.slots| == |s.ring.slots| && |s'.cons| == |s.cons| && |s'.prods| == |s.prods|
    && forall p | 0 <= p < |s.prods| :: s'.prods[p].items == s.prods[p].items
  }

  lemma {:induction false} RunInv(s: State, sched: seq<Actor>)
    requires Inv(s) && IsRun(s, sched)
    ensures Inv(After(s, sched)) && SameShape(s, After(s, sched))
    decreases |sched|
  {
    if sched != [] {
      StepInv(s, sched[0]);
      StepShape(s, sched[0]);
      RunInv(Step(s, sched[0]), sched[1..]);
      ShapeTransitive(s, Step(s, sched[0]), After(s, sched));
    }
  }

  lemma StepShape(s: State, a: Actor)
    requires Enabled(s, a) && s.ring.WellFormed()
    ensures SameShape(s, Step(s, a))
  {}

  lemma ShapeTransitive(s: State, s': State, s'': State)
    requires SameShape(s, s') && SameShape(s', s'')
    ensures SameShape(s, s'')
  {}

  // Safety ------------------------------------------------------------------------------------------

  /** 1 while a thread has returned from sem_wait and has not called sem_post yet. */
  function PastWaitP(t: Producer): int { if t.at.Wait? then 0 else 1 }
  function PastWaitC(t: Consumer): int { if t.at.Wait? then 0 else 1 }

  /**
   * In every reachable state the two semaphores and the threads between their two semaphore calls
   * account for every slot, the ring's length is numElements plus the operations in flight, no
   * assertion has failed, and at most one thread is in the critical section.
   */
  lemma Conservation(memory: seq<int>, work: seq<seq<int>>, consumers: nat, sched: seq<Actor>)
    requires IsRun(Init(memory, work, consumers), sched)
    ensures var s := After(Init(memory, work, consumers), sched);
      && !s.aborted
      && s.capacity + s.numElements + Sum(s.prods, PastWaitP) + Sum(s.cons, PastWaitC) == |memory|
      && s.ring.length == s.numElements + Sum(s.cons, ClaimC) + Sum(s.prods, OwedP)
      && (forall a, b | InRange(s, a) && InRange(s, b)
                     && PhaseOf(s, a) in {Access, Unlock} && PhaseOf(s, b) in {Access, Unlock} :: a == b)
  {
    InitInv(memory, work, consumers);
    RunInv(Init(memory, work, consumers), sched);
    var s := After(Init(memory, work, consumers), sched);
    SemaphoreTotal(s);
    OneInside(s);
  }

  lemma SemaphoreTotal(s: State)
    requires Counting(s)
    ensures s.capacity + s.numElements + Sum(s.prods, PastWaitP) + Sum(s.cons, PastWaitC) == |s.ring.slots|
  {
    SumPartition(s.prods, PastWaitP, ClaimP, OwedP);
    SumPartition(s.cons, PastWaitC, ClaimC, OwedC);
  }

  lemma OneInside(s: State)
    requires Exclusion(s)
    ensures forall a, b | InRange(s, a) && InRange(s, b)
      && PhaseOf(s, a) in {Access, Unlock} && PhaseOf(s, b) in {Access, Unlock} :: a == b
  {}

  lemma SumPartition<T>(xs: seq<T>, f: T -> int, g: T -> int, h: T -> int)
    requires forall k | 0 <= k < |xs| :: f(xs[k]) == g(xs[k]) + h(xs[k])
    ensures Sum(xs, f) == Sum(xs, g) + Sum(xs, h)
  {
    if xs != [] { SumPartition(xs[1..], f, g, h); }
  }

  /**
   * First in, first out: in every reachable state the values popped, in the order of the critical
   * sections, are a prefix of the values pushed, and what lies between is the content of the ring;
   * every producer's own order and every consumer's own order are kept.
   */
  lemma Fifo(memory: seq<int>, work: seq<seq<int>>, consumers: nat, sched: seq<Actor>)
    requires IsRun(Init(memory, work, consumers), sched)
    ensures var s := After(Init(memory, work, consumers), sched);
      && s.ring.WellFormed()
      && Values(s.popped) + s.ring.Contents() == Values(s.pushed)
      && |s.prods| == |work| && |s.cons| == consumers
      && (forall p | 0 <= p < |work| :: Of(s.pushed, p) <= work[p])
      && (forall c | 0 <= c < consumers :: Of(s.popped, c) == s.cons[c].got)
  {
    InitInv(memory, work, consumers);
    RunInv(Init(memory, work, consumers), sched);
  }

  // Termination and completeness --------------------------------------------------------------------

  /** The number of statements a thread has executed. */
  function StepsP(t: Producer): int {
    5 * t.sent + match t.at case Wait => 0 case Lock => 1 case Access => 2 case Unlock => 3 case Post => 4
  }

  function StepsC(t: Consumer): int {
    5 * |t.got| + match t.at case Wait => 0 case Lock => 1 case Access => 2 case Unlock => -2 case Post => -1
  }

  function Steps(s: State): int { Sum(s.prods, StepsP) + Sum(s.cons, StepsC) }

  function ItemsP(t: Producer): int { |t.items| }

  function TotalItems(work: seq<seq<int>>): int {
    if work == [] then 0 else |work[0]| + TotalItems(work[1..])
  }

  lemma StepCounts(s: State, a: Actor)
    requires Inv(s) && Enabled(s, a)
    ensures Steps(Step(s, a)) == Steps(s) + 1
    ensures Sum(Step(s, a).prods, ItemsP) == Sum(s.prods, ItemsP)
  {
    match a
    case Prod(p) => ProducerCounts(s, p);
    case Cons(c) => ConsumerCounts(s, c);
  }

  lemma ProducerCounts(s: State, p: nat)
    requires Inv(s) && Enabled(s, Prod(p))
    ensures Steps(Step(s, Prod(p))) == Steps(s) + 1
    ensures Sum(Step(s, Prod(p)).prods, ItemsP) == Sum(s.prods, ItemsP)
  {
    if s.prods[p].at.Access? { AssertionsHold(s, Prod(p)); }
    SumUpdate(s.prods, p, Step(s, Prod(p)).prods[p], StepsP);
    SumUpdate(s.prods, p, Step(s, Prod(p)).prods[p], ItemsP);
  }

  lemma ConsumerCounts(s: State, c: nat)
    requires Inv(s) && Enabled(s, Cons(c))
    ensures Steps(Step(s, Cons(c))) == Steps(s) + 1 && Step(s, Cons(c)).prods == s.prods
  {
    if s.cons[c].at.Access? { AssertionsHold(s, Cons(c)); }
    SumUpdate(s.cons, c, Step(s, Cons(c)).cons[c], StepsC);
  }

  lemma {:induction false} RunCounts(s: State, sched: seq<Actor>)
    requires Inv(s) && IsRun(s, sched)
    ensures Steps(After(s, sched)) == Steps(s) + |sched|
    ensures Sum(After(s, sched).prods, ItemsP) == Sum(s.prods, ItemsP)
    decreases |sched|
  {
    if sched != [] {
      StepInv(s, sched[0]);
      StepCounts(s, sched[0]);
      RunCounts(Step(s, sched[0]), sched[1..]);
    }
  }

  function GotC5(t: Consumer): int { 5 * |t.got| }
  function ClaimC5(t: Consumer): int { 5 * Claim(t.at) }
  function ItemsP5(t: Producer): int { 5 * |t.items| }
  function Nothing(t: Producer): int { 0 }

  /** No thread can have executed more than five statements per item. */
  lemma StepsBounded(s: State)
    requires Inv(s)
    ensures Steps(s) <= 10 * Sum(s.prods, ItemsP)
  {
    SumZero(s.prods, Nothing);
    SumDominated(s.prods, StepsP, ItemsP5, Nothing);
    SumScaled(s.prods, ItemsP5, ItemsP, 5);
    SumDominated(s.cons, StepsC, GotC5, ClaimC5);
    SumScaled(s.cons, GotC5, GotC, 5);
    SumScaled(s.cons, ClaimC5, ClaimC, 5);
    SumDominated(s.prods, PushedP, ItemsP, Nothing);
    SumsNonNegative(s);
    assert |Values(s.pushed)| == |Values(s.popped)| + s.ring.length;
  }

  lemma {:induction false} InitItems(ps: seq<Producer>, work: seq<seq<int>>)
    requires |ps| == |work| && forall p | 0 <= p < |ps| :: ps[p] == Producer(work[p], 0, Wait)
    ensures Sum(ps, ItemsP) == TotalItems(work) && Sum(ps, StepsP) == 0
  {
    if ps != [] { InitItems(ps[1..], work[1..]); }
  }

  /** Every run is finite: at most ten steps per item, whatever the schedule. */
  lemma RunsAreFinite(memory: seq<int>, work: seq<seq<int>>, consumers: nat, sched: seq<Actor>)
    requires IsRun(Init(memory, work, consumers), sched)
    ensures |sched| <= 10 * TotalItems(work)
  {
    var s := Init(memory, work, consumers);
    InitInv(memory, work, consumers);
    StartSteps(memory, work, consumers);
    RunInv(s, sched);
    RunCounts(s, sched);
    StepsBounded(After(s, sched));
  }

  lemma StartSteps(memory: seq<int>, work: seq<seq<int>>, consumers: nat)
    ensures Steps(Init(memory, work, consumers)) == 0
    ensures Sum(Init(memory, work, consumers).prods, ItemsP) == TotalItems(work)
  {
    InitItems(Init(memory, work, consumers).prods, work);
    SumZero(Init(memory, work, consumers).cons, StepsC);
  }

  lemma CompletedSteps(s: State)
    requires Inv(s) && s.ring.length == 0
    requires forall a | InRange(s, a) :: PhaseOf(s, a).Wait?
    requires forall p | 0 <= p < |s.prods| :: s.prods[p].sent == |s.prods[p].items|
    ensures Steps(s) == 10 * Sum(s.prods, ItemsP)
  {
    forall p | 0 <= p < |s.prods| ensures s.prods[p].at.Wait? { assert PhaseOf(s, Prod(p)).Wait?; }
    forall c | 0 <= c < |s.cons| ensures s.cons[c].at.Wait? { assert PhaseOf(s, Cons(c)).Wait?; }
    SumScaled(s.prods, StepsP, ItemsP, 5);
    SumScaled(s.prods, PushedP, ItemsP, 1);
    SumScaled(s.cons, StepsC, GotC, 5);
    assert |Values(s.pushed)| == |Values(s.popped)|;
  }

  ghost predicate Stuck(s: State) {
    forall a :: !Enabled(s, a)
  }

  /**
   * With room for one element and at least one consumer, the only stuck state is the completed one:
   * every producer has pushed all its items, everything pushed has been popped, the ring is empty and
   * every consumer waits on numElements. It is reached after exactly ten steps per item.
   */
  lemma StuckMeansComplete(memory: seq<int>, work: seq<seq<int>>, consumers: nat, sched: seq<Actor>)
    requires |memory| >= 1 && consumers >= 1
    requires IsRun(Init(memory, work, consumers), sched)
    requires Stuck(After(Init(memory, work, consumers), sched))
    ensures var s := After(Init(memory, work, consumers), sched);
      && |s.prods| == |work| && |s.cons| == consumers
      && (forall p | 0 <= p < |work| :: s.prods[p] == Producer(work[p], |work[p]|, Wait))
      && (forall c | 0 <= c < consumers :: s.cons[c].at == Wait)
      && s.numElements == 0 && s.ring.length == 0 && s.mutex.None?
      && Values(s.popped) == Values(s.pushed)
      && (forall p | 0 <= p < |work| :: Of(s.pushed, p) == work[p])
      && (forall c | 0 <= c < consumers :: Of(s.popped, c) == s.cons[c].got)
      && |sched| == 10 * TotalItems(work)
  {
    InitInv(memory, work, consumers);
    RunInv(Init(memory, work, consumers), sched);
    var s := After(Init(memory, work, consumers), sched);
    StuckState(s);
    CompletedSteps(s);
    StartSteps(memory, work, consumers);
    RunCounts(Init(memory, work, consumers), sched);
    forall c | 0 <= c < consumers ensures s.cons[c].at == Wait { assert PhaseOf(s, Cons(c)).Wait?; }
    forall p | 0 <= p < |work| ensures s.prods[p].at == Wait { assert PhaseOf(s, Prod(p)).Wait?; }
  }

  lemma StuckState(s: State)
    requires Inv(s) && Stuck(s) && |s.ring.slots| >= 1 && |s.cons| >= 1
    ensures s.mutex.None? && s.numElements == 0 && s.ring.length == 0
    ensures forall a | InRange(s, a) :: PhaseOf(s, a).Wait?
    ensures forall p | 0 <= p < |s.prods| :: s.prods[p].sent == |s.prods[p].items|
  {
    if s.mutex.Some? {
      assert Enabled(s, s.mutex.value);
      assert false;
    }
    forall a | InRange(s, a) ensures PhaseOf(s, a).Wait? {
      assert !Enabled(s, a);
    }
    forall p | 0 <= p < |s.prods| ensures s.prods[p].at.Wait? { assert PhaseOf(s, Prod(p)).Wait?; }
    forall c | 0 <= c < |s.cons| ensures s.cons[c].at.Wait? { assert PhaseOf(s, Cons(c)).Wait?; }
    AllWaiting(s);
    assert !Enabled(s, Cons(0));
    forall p | 0 <= p < |s.prods| ensures s.prods[p].sent == |s.prods[p].items| {
      assert !Enabled(s, Prod(p));
    }
  }

  /** With nobody between two semaphore calls, the semaphores are exact. */
  lemma AllWaiting(s: State)
    requires Inv(s)
    requires forall p | 0 <= p < |s.prods| :: s.prods[p].at.Wait?
    requires forall c | 0 <= c < |s.cons| :: s.cons[c].at.Wait?
    ensures s.numElements == s.ring.length && s.capacity == |s.ring.slots| - s.ring.length
  {
    SumZero(s.prods, ClaimP); SumZero(s.prods, OwedP);
    SumZero(s.cons, ClaimC); SumZero(s.cons, OwedC);
  }

  /** Another thread is inside its critical section. */
  ghost predicate OtherInside(s: State, a: Actor) {
    exists b :: InRange(s, b) && b != a && (PhaseOf(s, b).Access? || PhaseOf(s, b).Unlock?)
  }

  /**
   * What blocks a thread that has work left: at sem_wait a semaphore that is 0, and at the mutex another
   * thread inside its critical section; nothing else.
   */
  lemma BlockedIff(memory: seq<int>, work: seq<seq<int>>, consumers: nat, sched: seq<Actor>, a: Actor)
    requires IsRun(Init(memory, work, consumers), sched) && InRange(Init(memory, work, consumers), a)
    ensures var s := After(Init(memory, work, consumers), sched);
      && InRange(s, a)
      && (!Enabled(s, a) <==>
            || (PhaseOf(s, a).Wait? && a.Prod? && (s.capacity == 0 || s.prods[a.p].sent == |work[a.p]|))
            || (PhaseOf(s, a).Wait? && a.Cons? && s.numElements == 0)
            || (PhaseOf(s, a).Lock? && OtherInside(s, a)))
  {
    InitInv(memory, work, consumers);
    RunInv(Init(memory, work, consumers), sched);
    var s := After(Init(memory, work, consumers), sched);
    if PhaseOf(s, a).Lock? { MutexBlocksIff(s, a); }
    if a.Prod? { assert s.prods[a.p].items == work[a.p]; }
  }

  lemma MutexBlocksIff(s: State, a: Actor)
    requires Inv(s) && InRange(s, a) && PhaseOf(s, a).Lock?
    ensures s.mutex.Some? <==> OtherInside(s, a)
  {
    if s.mutex.Some? { assert InRange(s, s.mutex.value) && s.mutex.value != a; }
  }
}
