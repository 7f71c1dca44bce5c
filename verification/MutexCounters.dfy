/**
 * The shared counter guarded by a mutex: any number of threads, each repeating lock, load, add, store
 * and unlock, interleaved by an arbitrary schedule.
 */
module MutexCounters {
  import opened Prelude

  datatype Pc = Lock | Load | Add | Store | Unlock

  /** A thread adds delta rounds times; done counts its finished rounds, reg is its register. */
  datatype Thread = Thread(delta: int, rounds: nat, done: nat, at: Pc, reg: int)

  datatype State = State(i: int, mutex: Option<nat>, threads: seq<Thread>)

  function Init(start: int, deltas: seq<int>, rounds: seq<nat>): State
    requires |deltas| == |rounds|
  {
    State(start, None, seq(|deltas|, t requires 0 <= t < |deltas| => Thread(deltas[t], rounds[t], 0, Lock, 0)))
  }

  predicate Enabled(s: State, t: nat) {
    t < |s.threads| && s.threads[t].done < s.threads[t].rounds && (s.threads[t].at.Lock? ==> s.mutex.None?)
  }

  function Step(s: State, t: nat): State
    requires Enabled(s, t)
  {
    var th := s.threads[t];
    match th.at
    case Lock => s.(mutex := Some(t), threads := s.threads[t := th.(at := Load)])
    case Load => s.(threads := s.threads[t := th.(at := Add, reg := s.i)])
    case Add => s.(threads := s.threads[t := th.(at := Store, reg := th.reg + th.delta)])
    case Store => s.(i := th.reg, threads := s.threads[t := th.(at := Unlock)])
    case Unlock => s.(mutex := None, threads := s.threads[t := th.(at := Lock, done := th.done + 1)])
  }

  predicate IsRun(s: State, sched: seq<nat>)
    decreases |sched|
  {
    sched == [] || (Enabled(s, sched[0]) && IsRun(Step(s, sched[0]), sched[1..]))
  }

  function After(s: State, sched: seq<nat>): State
    requires IsRun(s, sched)
    decreases |sched|
  {
    if sched == [] then s else After(Step(s, sched[0]), sched[1..])
  }

  /** What a thread has added to the counter so far, and what it will have added in the end. */
  function Added(th: Thread): int { th.delta * th.done + if th.at.Unlock? then th.delta else 0 }
  function Owed(th: Thread): int { th.delta * th.rounds }
  function Steps(th: Thread): int {
    5 * th.done + match th.at case Lock => 0 case Load => 1 case Add => 2 case Store => 3 case Unlock => 4
  }
  function Budget(th: Thread): int { 5 * th.rounds }
  function Rising(th: Thread): int { if th.delta > 0 then Owed(th) else 0 }
  function Falling(th: Thread): int { if th.delta < 0 then Owed(th) else 0 }
  function Nothing(th: Thread): int { 0 }

  ghost predicate Inv(s: State, start: int) {
    && s.i == start + Sum(s.threads, Added)
    && (s.mutex.Some? ==> s.mutex.value < |s.threads|)
    && (forall t | 0 <= t < |s.threads| :: s.mutex == Some(t) <==> !s.threads[t].at.Lock?)
    && (forall t | 0 <= t < |s.threads| :: s.threads[t].done <= s.threads[t].rounds
                                        && (!s.threads[t].at.Lock? ==> s.threads[t].done < s.threads[t].rounds)
                                        && (s.threads[t].at.Add? ==> s.threads[t].reg == s.i)
                                        && (s.threads[t].at.Store? ==> s.threads[t].reg == s.i + s.threads[t].delta))
  }

  predicate SameWork(s: State, s': State) {
    |s'.threads| == |s.threads| && forall t | 0 <= t < |s.threads| ::
      s'.threads[t].delta == s.threads[t].delta && s'.threads[t].rounds == s.threads[t].rounds
  }

  /** A finished round is what had been added and one delta more. */
  lemma OneMoreRound(delta: int, n: nat)
    ensures delta * (n + 1) == delta * n + delta
  {}

  lemma AddedByStep(s: State, t: nat)
    requires Enabled(s, t)
    ensures Added(Step(s, t).threads[t]) == Added(s.threads[t]) + if s.threads[t].at.Store? then s.threads[t].delta else 0
  {
    OneMoreRound(s.threads[t].delta, s.threads[t].done);
  }

  lemma StepSums(s: State, t: nat)
    requires Enabled(s, t) && (s.threads[t].at.Store? ==> s.threads[t].reg == s.i + s.threads[t].delta)
    ensures Step(s, t).i - Sum(Step(s, t).threads, Added) == s.i - Sum(s.threads, Added)
    ensures Sum(Step(s, t).threads, Steps) == Sum(s.threads, Steps) + 1
  {
    AddedByStep(s, t);
    SumUpdate(s.threads, t, Step(s, t).threads[t], Added);
    SumUpdate(s.threads, t, Step(s, t).threads[t], Steps);
  }

  lemma StepInv(s: State, t: nat, start: int)
    requires Inv(s, start) && Enabled(s, t)
    ensures Inv(Step(s, t), start) && SameWork(s, Step(s, t))
    ensures Sum(Step(s, t).threads, Steps) == Sum(s.threads, Steps) + 1
  {
    StepSums(s, t);
  }

  lemma {:induction false} RunInv(s: State, sched: seq<nat>, start: int)
    requires Inv(s, start) && IsRun(s, sched)
    ensures Inv(After(s, sched), start) && SameWork(s, After(s, sched))
    ensures Sum(After(s, sched).threads, Steps) == Sum(s.threads, Steps) + |sched|
    decreases |sched|
  {
    if sched != [] {
      StepInv(s, sched[0], start);
      RunInv(Step(s, sched[0]), sched[1..], start);
    }
  }

  lemma InitInv(start: int, deltas: seq<int>, rounds: seq<nat>)
    requires |deltas| == |rounds|
    ensures Inv(Init(start, deltas, rounds), start)
    ensures Sum(Init(start, deltas, rounds).threads, Steps) == 0
  {
    SumZero(Init(start, deltas, rounds).threads, Added);
    SumZero(Init(start, deltas, rounds).threads, Steps);
  }

  /** The work of threads with the given changes and round counts, and the parts that raise and lower. */
  function Total(deltas: seq<int>, rounds: seq<nat>): int
    requires |deltas| == |rounds|
  {
    Sum(Init(0, deltas, rounds).threads, Owed)
  }
  function Ups(deltas: seq<int>, rounds: seq<nat>): int
    requires |deltas| == |rounds|
  {
    Sum(Init(0, deltas, rounds).threads, Rising)
  }
  function Downs(deltas: seq<int>, rounds: seq<nat>): int
    requires |deltas| == |rounds|
  {
    Sum(Init(0, deltas, rounds).threads, Falling)
  }

  lemma {:induction false} SameSums(xs: seq<Thread>, ys: seq<Thread>)
    requires |xs| == |ys|
    requires forall t | 0 <= t < |xs| :: xs[t].delta == ys[t].delta && xs[t].rounds == ys[t].rounds
    ensures Sum(xs, Owed) == Sum(ys, Owed) && Sum(xs, Rising) == Sum(ys, Rising)
    ensures Sum(xs, Falling) == Sum(ys, Falling) && Sum(xs, Budget) == Sum(ys, Budget)
  {
    if xs != [] { SameSums(xs[1..], ys[1..]); }
  }

  lemma AddedBounds(th: Thread)
    requires th.done <= th.rounds && (th.at.Unlock? ==> th.done < th.rounds)
    ensures Falling(th) <= Added(th) <= Rising(th)
  {
    var n := th.done + if th.at.Unlock? then 1 else 0;
    assert Added(th) == th.delta * n;
    if th.delta > 0 {
      assert th.delta * (th.rounds - n) >= 0;
    } else {
      assert th.delta * (th.rounds - n) <= 0;
    }
  }

  /**
   * Mutual exclusion, and no lost update: in every reachable state at most one thread is between its
   * lock and its unlock, and the counter is the start plus every addition stored so far, which keeps
   * it between start plus all the negative work and start plus all the positive work.
   */
  lemma NoLostUpdate(start: int, deltas: seq<int>, rounds: seq<nat>, sched: seq<nat>)
    requires |deltas| == |rounds| && IsRun(Init(start, deltas, rounds), sched)
    ensures var s := After(Init(start, deltas, rounds), sched);
      && (forall t, u | 0 <= t < |s.threads| && 0 <= u < |s.threads|
                     && !s.threads[t].at.Lock? && !s.threads[u].at.Lock? :: t == u)
      && s.i == start + Sum(s.threads, Added)
      && start + Downs(deltas, rounds) <= s.i <= start + Ups(deltas, rounds)
  {
    InitInv(start, deltas, rounds);
    RunInv(Init(start, deltas, rounds), sched, start);
    var s := After(Init(start, deltas, rounds), sched);
    SameSums(s.threads, Init(0, deltas, rounds).threads);
    forall t | 0 <= t < |s.threads| ensures Falling(s.threads[t]) <= Added(s.threads[t]) <= Rising(s.threads[t]) {
      AddedBounds(s.threads[t]);
    }
    SumZero(s.threads, Nothing);
    SumDominated(s.threads, Added, Rising, Nothing);
    SumDominated(s.threads, Falling, Added, Nothing);
  }

  /**
   * No deadlock, and the right answer: every run is finite, and a state in which no thread can move is
   * one in which every thread has finished, the mutex is free, and the counter has received exactly
   * all the additions.
   */
  lemma EndsWithTotal(start: int, deltas: seq<int>, rounds: seq<nat>, sched: seq<nat>)
    requires |deltas| == |rounds| && IsRun(Init(start, deltas, rounds), sched)
    ensures |sched| <= Sum(Init(start, deltas, rounds).threads, Budget)
    ensures var s := After(Init(start, deltas, rounds), sched);
      (forall t :: !Enabled(s, t)) ==>
        s.mutex.None? && s.i == start + Total(deltas, rounds)
        && |s.threads| == |rounds| && forall t | 0 <= t < |rounds| :: s.threads[t].done == rounds[t]
  {
    InitInv(start, deltas, rounds);
    RunInv(Init(start, deltas, rounds), sched, start);
    var s := After(Init(start, deltas, rounds), sched);
    SameSums(s.threads, Init(0, deltas, rounds).threads);
    SameSums(s.threads, Init(start, deltas, rounds).threads);
    SumZero(s.threads, Nothing);
    SumDominated(s.threads, Steps, Budget, Nothing);
    if forall t :: !Enabled(s, t) {
      StuckIsDone(s, start);
      SumDominated(s.threads, Added, Owed, Nothing);
      SumDominated(s.threads, Owed, Added, Nothing);
    }
  }

  lemma StuckIsDone(s: State, start: int)
    requires Inv(s, start) && forall t :: !Enabled(s, t)
    ensures s.mutex.None?
    ensures forall t | 0 <= t < |s.threads| :: s.threads[t].done == s.threads[t].rounds && s.threads[t].at.Lock?
  {
    assert s.mutex.None? || Enabled(s, s.mutex.value);
    forall t | 0 <= t < |s.threads| ensures s.threads[t].done == s.threads[t].rounds && s.threads[t].at.Lock? {
      assert !Enabled(s, t);
    }
  }

  /** A thread that has work left is blocked only at its lock, and only while another holds the mutex. */
  lemma BlockedIff(start: int, deltas: seq<int>, rounds: seq<nat>, sched: seq<nat>, t: nat)
    requires |deltas| == |rounds| && IsRun(Init(start, deltas, rounds), sched) && t < |rounds|
    ensures var s := After(Init(start, deltas, rounds), sched);
      && |s.threads| == |rounds|
      && (!Enabled(s, t) <==>
            || s.threads[t].done == rounds[t]
            || (s.threads[t].at.Lock? && exists u :: 0 <= u < |s.threads| && u != t && !s.threads[u].at.Lock?))
  {
    InitInv(start, deltas, rounds);
    RunInv(Init(start, deltas, rounds), sched, start);
    var s := After(Init(start, deltas, rounds), sched);
    if s.threads[t].at.Lock? && s.mutex.Some? {
      assert !s.threads[s.mutex.value].at.Lock? && s.mutex.value != t;
    }
  }

  /** The program: one thread adds 1 up times, the other subtracts 1 down times. */
  lemma MagicNumber(start: int, up: nat, down: nat, sched: seq<nat>)
    requires IsRun(Init(start, [1, -1], [up, down]), sched)
    ensures var s := After(Init(start, [1, -1], [up, down]), sched);
      && |sched| <= 5 * (up + down)
      && start - down <= s.i <= start + up
      && ((forall t :: !Enabled(s, t)) ==> s.i == start + up - down)
  {
    NoLostUpdate(start, [1, -1], [up, down], sched);
    EndsWithTotal(start, [1, -1], [up, down], sched);
    var ts := Init(0, [1, -1], [up, down]).threads;
    var us := Init(start, [1, -1], [up, down]).threads;
    assert ts == us == [Thread(1, up, 0, Lock, 0), Thread(-1, down, 0, Lock, 0)];
    SumOfTwo(ts, Owed); SumOfTwo(ts, Rising); SumOfTwo(ts, Falling); SumOfTwo(us, Budget);
  }

  lemma SumOfTwo(ts: seq<Thread>, f: Thread -> int)
    requires |ts| == 2
    ensures Sum(ts, f) == f(ts[0]) + f(ts[1])
  {
    assert ts == [ts[0], ts[1]] && ts[1..] == [ts[1]] && ts[1..][1..] == [];
    assert Sum(ts[1..], f) == f(ts[1]) + Sum(ts[1..][1..], f);
  }
}
