/**
 * Thread blocks and the intrusive queue that links them through their own `next`
 * fields (libpi/libc/Q.h).  `items` is the sequence the pointers spell out.
 */
module IntrusiveQueue {
  import opened Scheduler

  class Block {
    var next: Block?
    var tid: nat
    var reason: Reason

    constructor ()
      ensures next == null
    {
      next, tid, reason := null, 0, NONE;
    }
  }

  class Queue {
    var head: Block?
    var tail: Block?
    var cnt: nat
    ghost var items: seq<Block>

    /** `head`, `tail`, `cnt` and the `next` fields describe `items`, which holds no block twice. */
    ghost predicate Valid()
      reads this, items`next
    {
      && cnt == |items|
      && head == At(0) && tail == At(|items| - 1)
      && (forall i, j :: 0 <= i < j < |items| ==> items[i] != items[j])
      && (forall i :: 0 <= i < |items| ==> items[i].next == At(i + 1))
    }

    ghost function At(i: int): Block?
      reads this
    {
      if 0 <= i < |items| then items[i] else null
    }

    ghost function LastOr(e: Block): Block
      reads this
    {
      if tail == null then e else tail
    }

    constructor ()
      ensures Valid() && items == []
    {
      head, tail, cnt, items := null, null, 0, [];
    }

    /** `Q_empty`; its two assertions cannot fail. */
    method Empty() returns (r: bool)
      requires Valid()
      ensures r <==> items == []
      ensures r ==> cnt == 0 && tail == null
    {
      return head == null;
    }

    /** `Q_pop`: the front, or null. */
    method Pop() returns (e: Block?)
      requires Valid()
      modifies this
      ensures Valid()
      ensures if old(items) == [] then e == null && items == [] else e == old(items)[0] && items == old(items)[1..]
    {
      e := head;
      if e == null { return; }
      cnt := cnt - 1;
      head := e.next;
      if head == null { tail := null; }
      items := items[1..];
    }

    /** `Q_append`: a block that is not in the queue goes to its end. */
    method Append(e: Block)
      requires Valid() && e !in items
      modifies this, e`next, LastOr(e)`next
      ensures Valid() && items == old(items) + [e]
    {
      e.next := null;
      cnt := cnt + 1;
      if tail == null {
        head, tail := e, e;
      } else {
        tail.next := e;
        tail := e;
      }
      items := items + [e];
    }

    /** `Q_push`: a block that is not in the queue goes to its front. */
    method Push(e: Block)
      requires Valid() && e !in items
      modifies this, e`next
      ensures Valid() && items == [e] + old(items)
    {
      cnt := cnt + 1;
      e.next := head;
      head := e;
      if tail == null { tail := e; }
      items := [e] + items;
    }
  }

  /** The scheduler's three queues, which link the same kind of block through the same field. */
  class QueueSet {
    const runq: Queue
    const freeq: Queue
    const blockq: Queue

    /** All three are well linked and share no block. */
    ghost predicate Valid()
      reads this, runq, freeq, blockq, runq.items`next, freeq.items`next, blockq.items`next
    {
      && runq != freeq && runq != blockq && freeq != blockq
      && runq.Valid() && freeq.Valid() && blockq.Valid()
      && (forall b :: b in runq.items ==> b !in blockq.items && b !in freeq.items)
      && (forall b :: b in blockq.items ==> b !in freeq.items)
    }

    ghost predicate Holds(b: Block)
      reads this, runq, freeq, blockq
    {
      b in runq.items || b in freeq.items || b in blockq.items
    }

    constructor ()
      ensures Valid() && runq.items == freeq.items == blockq.items == []
      ensures fresh(runq) && fresh(freeq) && fresh(blockq)
    {
      runq := new Queue();
      freeq := new Queue();
      blockq := new Queue();
    }

    /** Appending a block that is in no queue changes one queue only. */
    method Enqueue(q: Queue, b: Block)
      requires Valid() && (q == runq || q == blockq) && !Holds(b)
      modifies q, b`next, q.LastOr(b)`next
      ensures Valid() && q.items == old(q.items) + [b]
    {
      assert q.LastOr(b) == b || q.LastOr(b) in q.items;
      q.Append(b);
    }

    /** So does taking the first block out, which is then in no queue. */
    method Dequeue(q: Queue) returns (b: Block?)
      requires Valid() && (q == runq || q == blockq || q == freeq)
      modifies q
      ensures Valid()
      ensures if old(q.items) == [] then b == null && q.items == []
              else b == old(q.items)[0] && q.items == old(q.items)[1..] && !Holds(b)
    {
      b := q.Pop();
    }

    /** `th_alloc`: the front of the free queue, or a new block. */
    method Alloc() returns (t: Block)
      requires Valid()
      modifies freeq
      ensures Valid() && !Holds(t)
      ensures if old(freeq.items) == [] then fresh(t) && freeq.items == []
              else t == old(freeq.items)[0] && freeq.items == old(freeq.items)[1..]
    {
      var e := Dequeue(freeq);
      if e == null { t := new Block(); } else { t := e; }
    }

    /** `th_free`. */
    method Free(t: Block)
      requires Valid() && !Holds(t)
      modifies freeq, t`next
      ensures Valid() && freeq.items == [t] + old(freeq.items)
    {
      freeq.Push(t);
    }
  }
}
