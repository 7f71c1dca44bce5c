/**
 * fifo_queue.c: a ring of fixed-size records in one flat byte buffer, together with an eventfd whose
 * counter mirrors the number of records.
 */
module FifoQueues {
  import opened Rings

  newtype byte = x: int | 0 <= x < 256

  type Record = seq<byte>

  /** The buffer after item has been copied to offset at. */
  function Blit(buffer: seq<byte>, at: nat, item: Record): seq<byte>
    requires at + |item| <= |buffer|
  {
    buffer[..at] + item + buffer[at + |item|..]
  }

  /** The product i * n, as i slots of n bytes laid end to end. */
  function Offset(n: nat, i: nat): (r: nat)
  {
    if i == 0 then 0 else Offset(n, i - 1) + n
  }

  lemma {:induction false} OffsetIsProduct(n: nat, i: nat)
    ensures Offset(n, i) == i * n
  {
    if i > 0 {
      OffsetIsProduct(n, i - 1);
      assert i * n == (i - 1) * n + n;
    }
  }

  /** Slots of n bytes do not overlap: a slot ends before any later one begins. */
  lemma {:induction false} SlotsApart(n: nat, i: nat, j: nat)
    requires i < j
    ensures Offset(n, i) + n <= Offset(n, j)
  {
    if i + 1 < j {
      SlotsApart(n, i, j - 1);
    }
  }

  /** The fields of fifo_queue_t. The functions below are the single assignments of send and receive. */
  datatype Queue = Queue(buffer: seq<byte>, itemSize: nat, capacity: nat,
                         head: nat, tail: nat, count: nat, eventFd: nat) {

    predicate InBounds() {
      |buffer| == Offset(itemSize, capacity) && head < capacity && tail < capacity
    }

    function Slot(i: nat): Record
      requires |buffer| == Offset(itemSize, capacity) && i < capacity
    {
      SlotsApart(itemSize, i, capacity);
      buffer[Offset(itemSize, i)..Offset(itemSize, i) + itemSize]
    }

    /** The queue as a ring of whole records. */
    function AsRing(): (r: Ring<Record>)
      requires |buffer| == Offset(itemSize, capacity)
    {
      Ring(seq(capacity, i requires 0 <= i < capacity => Slot(i)), head, tail, count)
    }

    predicate Valid() {
      && |buffer| == Offset(itemSize, capacity)
      && AsRing().WellFormed()
      && eventFd == count
    }

    function Contents(): seq<Record>
      requires Valid()
    {
      AsRing().Contents()
    }

    function CopyIn(item: Record): (q: Queue)
      requires InBounds() && |item| == itemSize
      ensures q.InBounds()
    {
      SlotsApart(itemSize, head, capacity);
      this.(buffer := Blit(buffer, Offset(itemSize, head), item))
    }

    function CopyOut(): Record
      requires InBounds()
    {
      Slot(tail)
    }

    function AdvanceHead(): Queue requires capacity > 0 { this.(head := (head + 1) % capacity) }
    function AdvanceTail(): Queue requires capacity > 0 { this.(tail := (tail + 1) % capacity) }
    function IncCount(): Queue { this.(count := count + 1) }
    function DecCount(): Queue requires count > 0 { this.(count := count - 1) }
    function Notify(): Queue { this.(eventFd := eventFd + 1) }
    function Consume(): Queue requires eventFd > 0 { this.(eventFd := eventFd - 1) }

    function Send(item: Record): Queue
      requires InBounds() && |item| == itemSize
    {
      CopyIn(item).AdvanceHead().IncCount().Notify()
    }

    function Receive(): Queue
      requires InBounds() && count > 0 && eventFd > 0
    {
      AdvanceTail().DecCount().Consume()
    }
  }

  lemma BlitReads(buffer: seq<byte>, at: nat, item: Record, lo: nat, hi: nat)
    requires at + |item| <= |buffer| && lo <= hi <= |buffer|
    ensures Blit(buffer, at, item)[at..at + |item|] == item
    ensures hi <= at || at + |item| <= lo ==> Blit(buffer, at, item)[lo..hi] == buffer[lo..hi]
  {}

  lemma CopyInSlot(q: Queue, item: Record, i: nat)
    requires q.InBounds() && |item| == q.itemSize && i < q.capacity
    ensures q.CopyIn(item).Slot(i) == if i == q.head then item else q.Slot(i)
  {
    var n := q.itemSize;
    SlotsApart(n, q.head, q.capacity);
    SlotsApart(n, i, q.capacity);
    if i < q.head { SlotsApart(n, i, q.head); }
    if q.head < i { SlotsApart(n, q.head, i); }
    BlitReads(q.buffer, Offset(n, q.head), item, Offset(n, i), Offset(n, i) + n);
  }

  /** A write to one slot is a write to one record: every other record keeps its bytes. */
  lemma CopyInIsSlotUpdate(q: Queue, item: Record)
    requires q.InBounds() && |item| == q.itemSize
    ensures q.CopyIn(item).AsRing() == q.AsRing().(slots := q.AsRing().slots[q.head := item])
  {
    forall i | 0 <= i < q.capacity ensures q.CopyIn(item).Slot(i) == if i == q.head then item else q.Slot(i) {
      CopyInSlot(q, item, i);
    }
    assert q.CopyIn(item).AsRing().slots == q.AsRing().slots[q.head := item];
  }

  /** Sending to a queue that is not full appends the record and keeps the counter in step. */
  lemma SendAppends(q: Queue, item: Record)
    requires q.Valid() && q.count < q.capacity && |item| == q.itemSize
    ensures q.Send(item).Valid() && q.Send(item).Contents() == q.Contents() + [item]
  {
    CopyInIsSlotUpdate(q, item);
    PushAppends(q.AsRing(), item);
    assert q.Send(item).AsRing() == q.AsRing().Push(item);
  }

  /** Receiving from a non-empty queue yields the oldest record, byte for byte, and removes it. */
  lemma ReceiveTakesOldest(q: Queue)
    requires q.Valid() && q.count > 0
    ensures q.Receive().Valid() && q.Contents() == [q.CopyOut()] + q.Receive().Contents()
  {
    PopTakesOldest(q.AsRing());
    assert q.Receive().AsRing() == q.AsRing().Pop();
  }

  lemma BlitOneMore(dst: seq<byte>, at: nat, src: seq<byte>, from: nat, k: nat)
    requires at + k < |dst| && from + k < |src|
    ensures Blit(dst, at, src[from..from + k + 1]) == Blit(dst, at, src[from..from + k])[at + k := src[from + k]]
  {}

  method Memcpy(dst: array<byte>, at: nat, src: array<byte>, from: nat, n: nat)
    requires dst != src && at + n <= dst.Length && from + n <= src.Length
    modifies dst
    ensures dst[..] == Blit(old(dst[..]), at, src[from..from + n])
  {
    var k := 0;
    while k < n
      invariant 0 <= k <= n
      invariant dst[..] == Blit(old(dst[..]), at, src[from..from + k])
    {
      BlitOneMore(old(dst[..]), at, src[..], from, k);
      dst[at + k] := src[from + k];
      k := k + 1;
    }
  }

  /** fifo_queue_t; eventFd is the counter of the eventfd, live and open say that buffer and eventfd exist. */
  class FifoQueue {
    var buffer: array<byte>
    var itemSize: nat
    var capacity: nat
    var head: nat
    var tail: nat
    var count: nat
    var locked: bool
    var eventFd: nat
    var live: bool
    var open: bool

    ghost function Fields(): Queue
      reads this, buffer
    {
      Queue(buffer[..], itemSize, capacity, head, tail, count, eventFd)
    }

    ghost predicate Valid()
      reads this, buffer
    {
      Fields().Valid() && !locked && live && open
    }

    /** A queue that has not been initialised. */
    constructor ()
      ensures !live && !open
    {
      buffer := new byte[0];
      itemSize, capacity, head, tail, count, locked, eventFd := 0, 0, 0, 0, 0, false, 0;
      live, open := false, false;
    }

    /**
     * fifo_queue_init on a queue in whatever state: it fails exactly when malloc or eventfd fails, and
     * then no memory is left behind; otherwise the queue is valid and empty.
     */
    method Init(itemSize: nat, capacity: nat, mallocFails: bool, eventfdFails: bool) returns (r: int)
      modifies this
      ensures r == if mallocFails || eventfdFails then -1 else 0
      ensures r == 0 ==> Valid() && fresh(buffer) && this.itemSize == itemSize && this.capacity == capacity
      ensures r == 0 ==> Fields().Contents() == []
      ensures r == -1 ==> !live && !Valid() && (open ==> mallocFails && old(open))
    {
      live := !mallocFails;
      if mallocFails {
        return -1;
      }
      OffsetIsProduct(itemSize, capacity);
      buffer := new byte[itemSize * capacity];
      this.itemSize, this.capacity := itemSize, capacity;
      head, tail, count, locked := 0, 0, 0, false;
      eventFd, open := 0, !eventfdFails;
      if eventfdFails {
        live := false;
        return -1;
      }
      return 0;
    }

    /** The queue's mutex is not recursive: locking it twice would never return. */
    method Lock()
      requires !locked
      modifies this`locked
      ensures locked
    {
      locked := true;
    }

    method Unlock()
      requires locked
      modifies this`locked
      ensures !locked
    {
      locked := false;
    }

    method Send(item: array<byte>) returns (r: int)
      requires Valid() && item.Length == itemSize && item != buffer
      modifies this, buffer
      ensures Valid() && buffer == old(buffer) && itemSize == old(itemSize) && capacity == old(capacity)
      ensures r == if |old(Fields().Contents())| < capacity then 0 else -1
      ensures r == 0 ==> Fields() == old(Fields()).Send(item[..])
      ensures r == 0 ==> Fields().Contents() == old(Fields().Contents()) + [item[..]]
      ensures r == -1 ==> Fields() == old(Fields())
    {
      Lock();
      if count >= capacity {
        Unlock();
        return -1;
      }
      SlotsApart(itemSize, head, capacity);
      OffsetIsProduct(itemSize, head);
      SendAppends(Fields(), item[..]);
      Memcpy(buffer, head * itemSize, item, 0, itemSize);
      assert item[0..itemSize] == item[..];
      head := (head + 1) % capacity;
      count := count + 1;
      eventFd := eventFd + 1;
      Unlock();
      return 0;
    }

    method Receive(item: array<byte>) returns (r: int)
      requires Valid() && item.Length == itemSize && item != buffer
      modifies this, item
      ensures Valid() && buffer == old(buffer) && itemSize == old(itemSize) && capacity == old(capacity)
      ensures r == if |old(Fields().Contents())| > 0 then 0 else -1
      ensures r == 0 ==> Fields() == old(Fields()).Receive()
      ensures r == 0 ==> old(Fields().Contents()) == [item[..]] + Fields().Contents()
      ensures r == -1 ==> Fields() == old(Fields()) && item[..] == old(item[..])
    {
      Lock();
      if count == 0 {
        Unlock();
        return -1;
      }
      SlotsApart(itemSize, tail, capacity);
      OffsetIsProduct(itemSize, tail);
      ReceiveTakesOldest(Fields());
      Memcpy(item, 0, buffer, tail * itemSize, itemSize);
      assert item[..] == Fields().CopyOut();
      tail := (tail + 1) % capacity;
      count := count - 1;
      eventFd := eventFd - 1;
      Unlock();
      return 0;
    }

    method Count() returns (n: nat)
      requires Valid()
      modifies this`locked
      ensures Valid() && n == |Fields().Contents()|
    {
      Lock();
      n := count;
      Unlock();
    }
  }
}
