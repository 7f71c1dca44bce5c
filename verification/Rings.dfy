/** The circular index arithmetic shared by ringbuf.c and fifo_queue.c, on values. */
module Rings {

  datatype Ring<T> = Ring(slots: seq<T>, insertIdx: nat, removeIdx: nat, length: nat) {

    /** The slot holding the k-th oldest element. */
    function Index(k: nat): int {
      if removeIdx + k < |slots| then removeIdx + k else removeIdx + k - |slots|
    }

    predicate WellFormed() {
      && length <= |slots|
      && (removeIdx < |slots| || (|slots| == 0 && removeIdx == 0))
      && insertIdx == Index(length)
    }

    /** What a traversal from removeIdx sees: oldest first. */
    function Contents(): (s: seq<T>)
      requires WellFormed()
    {
      seq(length, k requires 0 <= k < length => slots[Index(k)])
    }

    function Push(v: T): Ring<T>
      requires WellFormed() && length < |slots|
    {
      Ring(slots[insertIdx := v], (insertIdx + 1) % |slots|, removeIdx, length + 1)
    }

    function Pop(): Ring<T>
      requires WellFormed() && 0 < length
    {
      Ring(slots, insertIdx, (removeIdx + 1) % |slots|, length - 1)
    }

    function Oldest(): T
      requires WellFormed() && 0 < length
    {
      slots[removeIdx]
    }
  }

  /** The modulus in the code is a single conditional wrap. */
  lemma NextIndex(i: nat, n: nat)
    requires i < n
    ensures (i + 1) % n == if i + 1 == n then 0 else i + 1
  {
    if i + 1 < n {
      assert (i + 1) % n == i + 1;
    }
  }

  lemma PushAppends<T>(r: Ring<T>, v: T)
    requires r.WellFormed() && r.length < |r.slots|
    ensures r.Push(v).WellFormed() && |r.Push(v).slots| == |r.slots|
    ensures r.Push(v).Contents() == r.Contents() + [v]
  {
    NextIndex(r.insertIdx, |r.slots|);
    forall k | 0 <= k < r.length ensures r.Push(v).Contents()[k] == r.Contents()[k] {
      assert r.Index(k) != r.insertIdx;
    }
  }

  lemma PopTakesOldest<T>(r: Ring<T>)
    requires r.WellFormed() && 0 < r.length
    ensures r.Pop().WellFormed() && |r.Pop().slots| == |r.slots|
    ensures r.Contents() == [r.Oldest()] + r.Pop().Contents()
  {
    NextIndex(r.removeIdx, |r.slots|);
  }
}
