/** The ring buffers of the UART peripheral: 16 slots, and pointers with one bit more than an index,
    which tells a full buffer from an empty one. Each is a queue.
 */
module UartFifo {
  import opened Words

  const FIFO_DEPTH := 16

  type pointer = x: int | 0 <= x < 32

  datatype Fifo = Fifo(mem: seq<byte>, wptr: pointer, rptr: pointer)

  predicate Sized(q: Fifo) { |q.mem| == FIFO_DEPTH }

  predicate Empty(q: Fifo) { q.wptr == q.rptr }

  predicate Full(q: Fifo) { q.wptr / 16 != q.rptr / 16 && q.wptr % 16 == q.rptr % 16 }

  function Head(q: Fifo): byte
    requires Sized(q)
  {
    q.mem[q.rptr % 16]
  }

  function FifoNext(q: Fifo, push: bool, b: byte, pop: bool): (n: Fifo)
    requires Sized(q)
    ensures Sized(n)
  {
    Fifo(if push then q.mem[q.wptr % 16 := b] else q.mem, if push then (q.wptr + 1) % 32 else q.wptr,
         if pop then (q.rptr + 1) % 32 else q.rptr)
  }

  // ------------------------------------------------------------------
  // The queue in the ring
  // ------------------------------------------------------------------

  function QueueNext(queue: seq<byte>, push: bool, b: byte, pop: bool): seq<byte> {
    (if pop && queue != [] then queue[1..] else queue) + if push then [b] else []
  }

  /** The slots from the read pointer on hold the queue. */
  predicate Holds(q: Fifo, queue: seq<byte>) {
    && Sized(q) && |queue| <= FIFO_DEPTH && q.wptr == (q.rptr + |queue|) % 32
    && forall i :: 0 <= i < |queue| ==> q.mem[(q.rptr + i) % 16] == queue[i]
  }

  lemma QueueEnds(q: Fifo, queue: seq<byte>)
    requires Holds(q, queue)
    ensures Sized(q) && |queue| <= FIFO_DEPTH
    ensures Empty(q) <==> queue == []
    ensures Full(q) <==> |queue| == FIFO_DEPTH
    ensures queue != [] ==> Head(q) == queue[0]
  {
    assert queue != [] ==> q.mem[(q.rptr + 0) % 16] == queue[0];
  }

  lemma OtherSlot(p: nat, i: nat, j: nat)
    requires i < j < i + 16
    ensures (p + i) % 16 != (p + j) % 16
  {
  }

  lemma WrappedWrite(r: pointer, n: nat)
    requires n <= FIFO_DEPTH
    ensures ((r + n) % 32) % 16 == (r + n) % 16 && ((r + n) % 32 + 1) % 32 == (r + (n + 1)) % 32
  {
  }

  lemma WrappedRead(r: pointer, i: nat)
    ensures ((r + 1) % 32 + i) % 16 == (r + (i + 1)) % 16
  {
    if r == 31 {
      assert (32 + i) % 16 == i % 16;
    }
  }

  lemma HoldsPush(q: Fifo, queue: seq<byte>, b: byte)
    requires Holds(q, queue) && |queue| < FIFO_DEPTH
    ensures Holds(FifoNext(q, true, b, false), queue + [b])
  {
    var n := FifoNext(q, true, b, false);
    WrappedWrite(q.rptr, |queue|);
    forall i | 0 <= i < |queue| + 1
      ensures n.mem[(q.rptr + i) % 16] == (queue + [b])[i]
    {
      if i < |queue| {
        OtherSlot(q.rptr, i, |queue|);
      }
    }
  }

  lemma PopLength(r: pointer, n: nat)
    ensures (r + (n + 1)) % 32 == ((r + 1) % 32 + n) % 32
  {
  }

  lemma HoldsPop(q: Fifo, queue: seq<byte>)
    requires Holds(q, queue) && queue != []
    ensures Holds(FifoNext(q, false, 0, true), queue[1..])
  {
    var n, rest := FifoNext(q, false, 0, true), queue[1..];
    PopLength(q.rptr, |rest|);
    forall i | 0 <= i < |rest|
      ensures n.mem[(n.rptr + i) % 16] == rest[i]
    {
      WrappedRead(q.rptr, i);
    }
  }

  /** A push into a full buffer is fine if a pop frees the slot in the same cycle. */
  lemma HoldsNext(q: Fifo, queue: seq<byte>, push: bool, b: byte, pop: bool)
    requires Holds(q, queue) && (push ==> |queue| < FIFO_DEPTH || pop) && (pop ==> queue != [])
    ensures Holds(FifoNext(q, push, b, pop), QueueNext(queue, push, b, pop))
  {
    hide Holds;
    if pop {
      HoldsPop(q, queue);
      var popped := FifoNext(q, false, 0, true);
      if push {
        QueueEnds(q, queue);
        HoldsPush(popped, queue[1..], b);
        assert FifoNext(q, push, b, pop) == FifoNext(popped, true, b, false);
      } else {
        assert queue[1..] + [] == queue[1..];
      }
    } else if push {
      HoldsPush(q, queue, b);
    } else {
      assert queue + [] == queue;
    }
  }
}
