/**
 * fifo_queue_send and fifo_queue_receive under the lock, one assignment at a time, and what the queue
 * holds in between.
 */
module QueueSteps {
  import opened Prelude
  import opened FifoQueues

  /** The next statement of fifo_queue_send, and then its result. */
  datatype SendPc = Check | CopyIn | MoveHead | IncCount | Notify | Sent(ok: bool)

  /** The next statement of fifo_queue_receive, and then its result. */
  datatype RecvPc = Test | CopyOut | MoveTail | DecCount | Consume | Received(ok: bool)

  /** What the owner of the lock is doing; item is the record sent, or the record received so far. */
  datatype Owner = Nobody | Sender(sendPc: SendPc, item: Record) | Receiver(recvPc: RecvPc, item: Record)

  /** Leaving the buffer or copying a wrong size is a fault, shown as None. */
  function SendStep(q: Queue, pc: SendPc, item: Record): Option<(Queue, SendPc)>
    requires !pc.Sent?
  {
    match pc
    case Check => Some((q, if q.count >= q.capacity then Sent(false) else CopyIn))
    case CopyIn => if q.InBounds() && |item| == q.itemSize then Some((q.CopyIn(item), MoveHead)) else None
    case MoveHead => if q.capacity > 0 then Some((q.AdvanceHead(), IncCount)) else None
    case IncCount => Some((q.IncCount(), Notify))
    case Notify => Some((q.Notify(), Sent(true)))
  }

  /** Reading an eventfd whose counter is 0, which returns without decrementing, is a fault too. */
  function RecvStep(q: Queue, pc: RecvPc, item: Record): Option<(Queue, RecvPc, Record)>
    requires !pc.Received?
  {
    match pc
    case Test => Some((q, if q.count == 0 then Received(false) else CopyOut, item))
    case CopyOut => if q.InBounds() then Some((q, MoveTail, q.CopyOut())) else None
    case MoveTail => if q.capacity > 0 then Some((q.AdvanceTail(), DecCount, item)) else None
    case DecCount => if q.count > 0 then Some((q.DecCount(), Consume, item)) else None
    case Consume => if q.eventFd > 0 then Some((q.Consume(), Received(true), item)) else None
  }

  /** What the owner of the lock has already established about the queue. */
  predicate Pending(q: Queue, o: Owner) {
    match o
    case Nobody => true
    case Sender(Check, item) => |item| == q.itemSize
    case Sender(CopyIn, item) => q.count < q.capacity && |item| == q.itemSize
    case Sender(MoveHead, _) => q.capacity > 0
    case Sender(_, _) => true
    case Receiver(CopyOut, _) => q.count > 0
    case Receiver(MoveTail, _) => q.capacity > 0 && q.count > 0 && q.eventFd > 0
    case Receiver(DecCount, _) => q.count > 0 && q.eventFd > 0
    case Receiver(Consume, _) => q.eventFd > 0
    case Receiver(_, _) => true
  }

  /** The queue as it will be once the owner has finished its update. */
  function Settle(q: Queue, o: Owner): Queue
    requires Pending(q, o)
  {
    match o
    case Nobody => q
    case Sender(MoveHead, _) => q.AdvanceHead().IncCount().Notify()
    case Sender(IncCount, _) => q.IncCount().Notify()
    case Sender(Notify, _) => q.Notify()
    case Sender(_, _) => q
    case Receiver(MoveTail, _) => q.AdvanceTail().DecCount().Consume()
    case Receiver(DecCount, _) => q.DecCount().Consume()
    case Receiver(Consume, _) => q.Consume()
    case Receiver(_, _) => q
  }

  predicate Consistent(q: Queue, o: Owner) {
    Pending(q, o) && Settle(q, o).Valid()
  }

  /** The records in the queue, counting a half-done update as done. */
  function Stored(q: Queue, o: Owner): seq<Record>
    requires Consistent(q, o)
  {
    Settle(q, o).Contents()
  }

  /**
   * Between two statements the eventfd counter differs from count by at most one, and only in the
   * two windows where one of them has been updated and the other not yet.
   */
  lemma CounterAgreement(q: Queue, o: Owner)
    requires Consistent(q, o)
    ensures q.eventFd == match o
      case Sender(Notify, _) => q.count - 1
      case Receiver(Consume, _) => q.count + 1
      case _ => q.count
  {}

  /** A statement of send never faults; only the copy changes what the queue holds, by appending. */
  lemma SendSettles(q: Queue, pc: SendPc, item: Record)
    requires !pc.Sent? && Consistent(q, Sender(pc, item))
    ensures SendStep(q, pc, item).Some?
    ensures var (q', pc') := SendStep(q, pc, item).value;
      && q'.itemSize == q.itemSize && q'.capacity == q.capacity && q'.eventFd >= q.eventFd
      && (pc' == Sent(false) <==> pc.Check? && |Stored(q, Sender(pc, item))| == q.capacity)
      && Consistent(q', Sender(pc', item))
      && Stored(q', Sender(pc', item)) == Stored(q, Sender(pc, item)) + if pc.CopyIn? then [item] else []
  {
    if pc.CopyIn? {
      SendAppends(q, item);
    } else {
      var (q', pc') := SendStep(q, pc, item).value;
      assert Settle(q', Sender(pc', item)) == Settle(q, Sender(pc, item));
    }
  }

  /** A statement of receive never faults; only the copy changes what the queue holds, at its front. */
  lemma RecvSettles(q: Queue, pc: RecvPc, item: Record)
    requires !pc.Received? && Consistent(q, Receiver(pc, item))
    ensures RecvStep(q, pc, item).Some?
    ensures var (q', pc', item') := RecvStep(q, pc, item).value;
      && q'.itemSize == q.itemSize && q'.capacity == q.capacity
      && (pc' == Received(false) <==> pc.Test? && Stored(q, Receiver(pc, item)) == [])
      && (pc' == Received(false) ==> q.eventFd == 0)
      && Consistent(q', Receiver(pc', item'))
      && if pc.CopyOut? then Stored(q, Receiver(pc, item)) == [item'] + Stored(q', Receiver(pc', item'))
         else item' == item && Stored(q', Receiver(pc', item')) == Stored(q, Receiver(pc, item))
  {
    if pc.CopyOut? {
      ReceiveTakesOldest(q);
    } else {
      var (q', pc', item') := RecvStep(q, pc, item).value;
      assert Settle(q', Receiver(pc', item')) == Settle(q, Receiver(pc, item));
    }
  }
}
