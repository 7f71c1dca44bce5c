/** ringbuf.c: the ring of ints behind the bounded buffer, updated in place. */
module RingBuffers {
  import opened Rings

  class RingBuffer {
    var buffer: array<int>
    var capacity: nat
    var insertIdx: nat
    var removeIdx: nat
    var length: nat

    ghost function Fields(): Ring<int>
      reads this, buffer
    {
      Ring(buffer[..], insertIdx, removeIdx, length)
    }

    ghost predicate Valid()
      reads this, buffer
    {
      capacity == buffer.Length && Fields().WellFormed()
    }

    /** rb_new: the memory behind the buffer is not initialised. */
    constructor (size: nat)
      ensures Valid() && fresh(buffer) && capacity == size
      ensures Fields().Contents() == []
    {
      buffer := new int[size];
      capacity, insertIdx, removeIdx, length := size, 0, 0, 0;
    }

    /** rb_push; the precondition is the assertion in the code. */
    method Push(val: int)
      requires Valid() && length < capacity
      modifies this, buffer
      ensures Valid() && buffer == old(buffer) && capacity == old(capacity)
      ensures Fields() == old(Fields()).Push(val)
      ensures Fields().Contents() == old(Fields().Contents()) + [val]
    {
      PushAppends(Fields(), val);
      buffer[insertIdx] := val;
      insertIdx := (insertIdx + 1) % capacity;
      length := length + 1;
    }

    /** rb_pop; the precondition is the assertion in the code. */
    method Pop() returns (val: int)
      requires Valid() && length > 0
      modifies this
      ensures Valid() && buffer == old(buffer) && capacity == old(capacity)
      ensures Fields() == old(Fields()).Pop() && val == old(Fields()).Oldest()
      ensures old(Fields().Contents()) == [val] + Fields().Contents()
    {
      PopTakesOldest(Fields());
      val := buffer[removeIdx];
      removeIdx := (removeIdx + 1) % capacity;
      length := length - 1;
    }

    /** rb_print: the elements in the order in which the traversal visits them. */
    method Print() returns (shown: seq<int>)
      requires Valid()
      ensures shown == Fields().Contents()
    {
      shown := [];
      var elem, idx := 0, removeIdx;
      while elem < length
        invariant 0 <= elem <= length
        invariant elem < length ==> idx == Fields().Index(elem)
        invariant shown == Fields().Contents()[..elem]
      {
        shown := shown + [buffer[idx]];
        NextIndex(idx, capacity);
        elem, idx := elem + 1, (idx + 1) % capacity;
      }
    }
  }
}
