/**
 * The scheduler as it is written: linked queues, current thread, wait slot, lock word, tid
 * counter and the fields of the thread blocks, updated in place
 * (preemptive-threads/preemptive-thread.c).  Every public method carries out one event of
 * the transition system in `Scheduler` and keeps its invariant.
 */
module Kernels {
  import opened Machine
  import opened Scheduler
  import opened SchedulerRuns
  import opened IntrusiveQueue
  import Ring

  ghost function Maybe(b: Block?): Option<Block> { if b == null then None else var c: Block := b; Some(c) }

  lemma Overwritten<K, V>(m: map<K, V>, k: K, a: V, b: V)
    ensures m[k := a][k := b] == m[k := b]
  {
  }

  class Kernel {
    const qs: QueueSet
    var cur: Block?         // null while the scheduler thread runs
    var waitStdout: Block?
    var lock: nat
    var nextTid: Word
    var putQ: seq<char>
    var sent: seq<char>     // what the UART was given
    ghost var outQ: seq<Glyph>
    ghost var uart: seq<Glyph>
    ghost var th: map<Block, Thread>
    ghost var sections: nat

    ghost function Abs(): State<Block>
      reads this, qs, qs.runq, qs.freeq, qs.blockq
    {
      State(qs.runq.items, qs.blockq.items, qs.freeq.items, Maybe(cur), Maybe(waitStdout), lock, nextTid, outQ, uart,
            th, sections)
    }

    /** The blocks and the character queue hold what the abstract state says. */
    ghost predicate Agrees()
      reads this`putQ, this`outQ, this`th, th.Keys`tid, th.Keys`reason
    {
      && (forall b :: b in th ==> b.tid == th[b].tid && b.reason == th[b].reason)
      && |putQ| == |outQ| && (forall i :: 0 <= i < |putQ| ==> putQ[i] == outQ[i].ch)
    }

    /** Every block in a queue has a record. */
    ghost predicate Known()
      reads this`th, qs, qs.runq, qs.freeq, qs.blockq
    {
      && (forall b :: b in qs.runq.items ==> b in th) && (forall b :: b in qs.freeq.items ==> b in th)
      && (forall b :: b in qs.blockq.items ==> b in th)
    }

    ghost predicate Linked()
      reads this`putQ, this`outQ, this`th, th.Keys`tid, th.Keys`reason
      reads qs, qs.runq, qs.freeq, qs.blockq, qs.runq.items`next, qs.freeq.items`next, qs.blockq.items`next
    {
      qs.Valid() && Agrees() && Known()
    }

    constructor ()
      ensures Valid() && Abs() == Boot()
      ensures fresh(qs) && fresh(qs.runq) && fresh(qs.freeq) && fresh(qs.blockq)
    {
      qs := new QueueSet();
      cur, waitStdout, lock, nextTid, putQ, sent := null, null, 0, 1, [], [];
      outQ, uart, th, sections := [], [], map[], 0;
      new;
      BootKeeps<Block>();
    }

    // ----- moving blocks between the queues -----

    /** A known block that is in no queue goes to the end of one. */
    method Link(q: Queue, b: Block)
      requires Linked() && b in th && !qs.Holds(b) && (q == qs.runq || q == qs.blockq)
      modifies q, b`next, q.LastOr(b)`next
      ensures Linked() && q.items == old(q.items) + [b]
    {
      qs.Enqueue(q, b);
    }

    /** The same; `i` is the record of the block from then on. */
    method Enqueue(q: Queue, b: Block, ghost i: Thread)
      requires Linked() && b in th && !qs.Holds(b) && (q == qs.runq || q == qs.blockq)
      requires b.tid == i.tid && b.reason == i.reason
      modifies this`th, q, b`next, q.LastOr(b)`next
      ensures Linked() && q.items == old(q.items) + [b] && th == old(th)[b := i]
    {
      Link(q, b);
      Note(b, i);
    }

    /** The first block of a queue leaves it. */
    method Dequeue(q: Queue) returns (b: Block)
      requires Linked() && (q == qs.runq || q == qs.blockq) && q.items != []
      modifies q
      ensures Linked() && b == old(q.items)[0] && q.items == old(q.items)[1..] && !qs.Holds(b) && b in th
    {
      assert qs.Holds(q.items[0]);
      b := qs.Dequeue(q);
    }

    /** A known block that is in no queue goes to the front of the free queue. */
    method Release(b: Block, ghost i: Thread)
      requires Linked() && b in th && !qs.Holds(b) && b.tid == i.tid && b.reason == i.reason
      modifies this`th, qs.freeq, b`next
      ensures Linked() && qs.freeq.items == [b] + old(qs.freeq.items) && th == old(th)[b := i]
    {
      qs.Free(b);
      Note(b, i);
    }

    method SetReason(b: Block, r: Reason, ghost i: Thread)
      requires Linked() && b in th && i.tid == b.tid && i.reason == r
      modifies this`th, b`reason
      ensures Linked() && b.reason == r && th == old(th)[b := i]
    {
      b.reason := r;
      th := th[b := i];
    }

    /** The record of a block is brought up to date where the block itself does not change. */
    ghost method Note(b: Block, i: Thread)
      requires Linked() && b in th && b.tid == i.tid && b.reason == i.reason
      modifies this`th
      ensures Linked() && th == old(th)[b := i]
    {
      th := th[b := i];
    }

    // ----- the steps, on blocks known to be in no queue -----

    /** The current thread and the one in the wait slot are known and in no queue. */
    ghost predicate Loose()
      reads this, qs, qs.runq, qs.freeq, qs.blockq
    {
      && (cur != null ==> cur in th && !qs.Holds(cur))
      && (waitStdout != null ==> waitStdout in th && !qs.Holds(waitStdout))
    }

    method TickStep()
      requires Linked() && Loose() && cur != null && Abs().Typed()
      modifies this`cur, this`th, qs.runq, th.Keys`next
      ensures Linked() && Abs() == Ticked(old(Abs()))
    {
      Enqueue(qs.runq, cur, th[cur].(place := Run));
      cur := null;
    }

    /** `th_alloc` and the part of `pre_fork` that concerns scheduling. */
    method ForkStep() returns (t: Block)
      requires Linked()
      modifies this`th, this`nextTid, qs.runq, qs.freeq, th.Keys
      ensures Linked() && CanAlloc(old(Abs()), t) && Abs() == Forked(old(Abs()), t)
      ensures t in old(th) || fresh(t)
    {
      t := NewThread();
    }

    method NewThread() returns (t: Block)
      requires Linked()
      modifies this`th, this`nextTid, qs.runq, qs.freeq, th.Keys
      ensures Linked() && CanAlloc(old(Abs()), t) && (t in old(th) || fresh(t))
      ensures qs.freeq.items == (if old(qs.freeq.items) == [] then [] else old(qs.freeq.items)[1..])
      ensures qs.runq.items == old(qs.runq.items) + [t] && nextTid == Advanced(old(nextTid))
      ensures th == old(th)[t := Thread(old(nextTid), NONE, Outside, 0, Run)]
    {
      t := AllocThread();
      LastIsKnown(qs.runq, t);
      Link(qs.runq, t);
    }

    /** `th_alloc` and the fields that `pre_fork` sets. */
    method AllocThread() returns (t: Block)
      requires Linked()
      modifies this`th, this`nextTid, qs.freeq, th.Keys`tid, th.Keys`reason
      ensures Linked() && CanAlloc(old(Abs()), t) && !qs.Holds(t) && (t in old(th) || fresh(t))
      ensures qs.freeq.items == (if old(qs.freeq.items) == [] then [] else old(qs.freeq.items)[1..])
      ensures nextTid == Advanced(old(nextTid)) && th == old(th)[t := Thread(old(nextTid), NONE, Outside, 0, Run)]
    {
      t := TakeBlock();
      InitBlock(t);
    }

    lemma LastIsKnown(q: Queue, b: Block)
      requires Linked() && (q == qs.runq || q == qs.blockq)
      ensures q.LastOr(b) == b || (q.LastOr(b) in q.items && q.LastOr(b) in th)
    {
    }

    /** The block of `th_alloc`. */
    method TakeBlock() returns (t: Block)
      requires Linked()
      modifies qs.freeq
      ensures Linked() && CanAlloc(old(Abs()), t) && !qs.Holds(t) && (t in th || fresh(t))
      ensures qs.freeq.items == (if old(qs.freeq.items) == [] then [] else old(qs.freeq.items)[1..])
    {
      t := qs.Alloc();
    }

    /** The tid of `th_alloc`, and the reason that `pre_fork` sets. */
    method InitBlock(t: Block)
      requires Linked() && !qs.Holds(t)
      modifies this`th, this`nextTid, t`tid, t`reason
      ensures Linked() && t.tid == old(nextTid) && t.reason == NONE
      ensures nextTid == Advanced(old(nextTid)) && th == old(th)[t := Thread(old(nextTid), NONE, Outside, 0, Run)]
    {
      t.tid, t.reason := nextTid, NONE;
      th := th[t := Thread(nextTid, NONE, Outside, 0, Run)];
      nextTid := Advanced(nextTid);
    }

    ghost method BeginSection(t: Block)
      requires Linked() && t in th
      modifies this`th, this`sections
      ensures Linked() && th == Entered(old(Abs()), t).th && sections == Entered(old(Abs()), t).sections
    {
      if th[t].phase.Outside? || th[t].phase.Requesting? {
        sections := sections + 1;
        Note(t, th[t].(phase := Inside, section := sections));
      }
    }

    method RequestStep()
      requires Linked() && Loose() && cur != null && Abs().Typed()
      modifies this`cur, this`lock, this`th, this`sections, qs.blockq, th.Keys
      ensures Linked() && Abs() == Requested(old(Abs()))
    {
      if StdioIsIdle(cur.tid) { Grant(); } else { BlockCurrent(); }
    }

    method Grant()
      requires Linked() && cur != null && cur in th && Abs().Typed() && Abs().Idle(th[cur].tid)
      modifies this`lock, this`th, this`sections, cur`reason
      ensures Linked() && Abs() == Requested(old(Abs()))
    {
      SetReason(cur, STDIO, th[cur].(reason := STDIO));
      TakeLock(cur);
    }

    method BlockCurrent()
      requires Linked() && Loose() && cur != null && Abs().Typed() && !Abs().Idle(th[cur].tid)
      modifies this`cur, this`th, qs.blockq, th.Keys
      ensures Linked() && Abs() == Requested(old(Abs()))
    {
      BlockOnStdio(cur);
      cur := null;
    }

    method BlockOnStdio(c: Block)
      requires Linked() && c in th && !qs.Holds(c)
      modifies this`th, qs.blockq, th.Keys
      ensures Linked() && qs.blockq.items == old(qs.blockq.items) + [c]
      ensures th == old(th)[c := old(th)[c].(reason := STDIO, phase := Requesting, place := Blk)]
    {
      SetReason(c, STDIO, th[c].(reason := STDIO, phase := Requesting, place := Blk));
      LastIsKnown(qs.blockq, c);
      Link(qs.blockq, c);
    }

    method ForkPrinterStep() returns (t: Block)
      requires Linked()
      modifies this`th, this`nextTid, this`lock, qs.runq, qs.freeq, th.Keys
      ensures Linked() && CanAlloc(old(Abs()), t) && Abs() == ForkedPrinter(old(Abs()), t)
      ensures t in old(th) || fresh(t)
    {
      t := NewPrinter();
    }

    method NewPrinter() returns (t: Block)
      requires Linked()
      modifies this`th, this`nextTid, this`lock, qs.runq, qs.freeq, th.Keys
      ensures Linked() && CanAlloc(old(Abs()), t) && (t in old(th) || fresh(t))
      ensures qs.freeq.items == (if old(qs.freeq.items) == [] then [] else old(qs.freeq.items)[1..])
      ensures qs.runq.items == old(qs.runq.items) + [t] && nextTid == Advanced(old(nextTid)) && lock == old(nextTid)
      ensures th == old(th)[t := Thread(old(nextTid), STDIO, Printer, 0, Run)]
    {
      t := NewThread();
      MakePrinter(t);
      Overwritten(old(th), t, Thread(old(nextTid), NONE, Outside, 0, Run),
                  Thread(old(nextTid), STDIO, Printer, 0, Run));
    }

    /** The thread just forked becomes a printer, which takes the lock at once. */
    method MakePrinter(t: Block)
      requires Linked() && t in th
      modifies this`th, this`lock, t`reason
      ensures Linked() && lock == t.tid && th == old(th)[t := Thread(old(th)[t].tid, STDIO, Printer, 0, Run)]
    {
      SetReason(t, STDIO, Thread(t.tid, STDIO, Printer, 0, Run));
      lock := t.tid;
    }

    method WaitStep() returns (t: Block)
      requires Linked() && Loose() && cur != null && Abs().Typed()
      modifies this, qs.runq, qs.freeq, th.Keys
      ensures Linked() && (old(putQ) != [] ==> CanAlloc(old(Abs()), t)) && Abs() == Waited(old(Abs()), t)
      ensures t in old(th) || fresh(t)
    {
      t := cur;
      if putQ == [] {
        lock := 0;
        SetReason(cur, NONE, th[cur].(reason := NONE, phase := Outside));
      } else {
        FillSlot();
        t := ForkPrinterStep();
      }
    }

    method FillSlot()
      requires Linked() && cur != null && cur in th && Abs().Typed()
      modifies this`cur, this`waitStdout, this`th
      ensures Linked() && waitStdout == old(cur) && cur == null
      ensures th == old(th)[old(cur) := old(th[cur]).(phase := Waiting, place := Slot)]
    {
      waitStdout := cur;
      Note(cur, th[cur].(phase := Waiting, place := Slot));
      cur := null;
    }

    method ExitStep()
      requires Linked() && cur != null && cur in th && !qs.Holds(cur) && Abs().Typed()
      modifies this`cur, this`th, qs.freeq, cur`next
      ensures Linked() && Abs() == Exited(old(Abs()))
    {
      Release(cur, th[cur].(phase := Dead, place := Free));
      cur := null;
    }

    method PutStep(ch: char)
      requires Linked() && cur != null && cur in th
      modifies this`putQ, this`outQ
      ensures Linked() && outQ == old(outQ) + [Glyph(th[cur].section, ch)]
    {
      putQ := putQ + [ch];
      outQ := outQ + [Glyph(th[cur].section, ch)];
    }

    /** The UART takes characters while it has `room` and the queue holds some. */
    method DrainStep(room: nat) returns (n: nat)
      requires Linked()
      modifies this`putQ, this`outQ, this`sent, this`uart
      ensures n == (if room <= |old(putQ)| then room else |old(putQ)|) && n <= |old(outQ)|
      ensures Linked() && Abs() == Drained(old(Abs()), n)
      ensures sent == old(sent) + old(putQ)[..n] && putQ == old(putQ)[n..]
    {
      n := 0;
      ghost var q0, u0 := outQ, uart;
      assert q0 == q0[0..] && u0 == u0 + q0[..0] && putQ == putQ[0..] && sent == sent + putQ[..0];
      while n < room && putQ != []
        invariant n <= room && n <= |q0| == |old(putQ)| && Agrees()
        invariant outQ == q0[n..] && uart == u0 + q0[..n]
        invariant putQ == old(putQ)[n..] && sent == old(sent) + old(putQ)[..n]
      {
        sent, uart := sent + [putQ[0]], uart + [outQ[0]];
        putQ, outQ := putQ[1..], outQ[1..];
        n := n + 1;
      }
    }

    /** What the printer does before it exits. */
    method PrintBody(room: nat) returns (n: nat, t: Block)
      requires Linked() && cur != null && cur in th && !qs.Holds(cur)
      modifies this`lock, this`nextTid, this`putQ, this`outQ, this`sent, this`uart, this`th, qs.runq, qs.freeq, th.Keys
      ensures Linked() && cur in th && !qs.Holds(cur) && n <= |old(outQ)| && (n == room || n == |old(outQ)|)
      ensures (n < |old(outQ)| ==> CanAlloc(old(Abs()), t)) && (t in old(th) || fresh(t))
      ensures Abs() == Printed(old(Abs()), n, t)
      ensures n <= |old(putQ)| && sent == old(sent) + old(putQ)[..n] && putQ == old(putQ)[n..]
    {
      n := DrainAndUnlock(room);
      t := cur;
      if putQ != [] { t := ForkPrinterStep(); }
    }

    method DrainAndUnlock(room: nat) returns (n: nat)
      requires Linked()
      modifies this`lock, this`putQ, this`outQ, this`sent, this`uart
      ensures n == (if room <= |old(putQ)| then room else |old(putQ)|) && n <= |old(outQ)|
      ensures Linked() && Abs() == Drained(old(Abs()), n).(lock := 0)
      ensures n <= |old(putQ)| && sent == old(sent) + old(putQ)[..n] && putQ == old(putQ)[n..]
    {
      n := DrainStep(room);
      lock := 0;
    }

    method PrintStep(room: nat) returns (n: nat, t: Block)
      requires Linked() && Loose() && cur != null && Abs().Typed()
      modifies this, qs.runq, qs.freeq, th.Keys
      ensures Linked() && n <= |old(outQ)| && (n == room || n == |old(outQ)|)
      ensures (n < |old(outQ)| ==> CanAlloc(old(Abs()), t)) && (t in old(th) || fresh(t))
      ensures Printed(old(Abs()), n, t).Typed() && Abs() == Exited(Printed(old(Abs()), n, t))
      ensures n <= |old(putQ)| && sent == old(sent) + old(putQ)[..n] && putQ == old(putQ)[n..]
    {
      n, t := PrintBody(room);
      ExitStep();
    }

    method WakeStep()
      requires Linked() && Loose() && Abs().Typed()
      modifies this`lock, this`th, this`waitStdout, qs.runq, th.Keys
      ensures Linked() && Abs() == Woken(old(Abs())) && th.Keys == old(th.Keys)
    {
      if putQ == [] && waitStdout != null {
        Wake(waitStdout);
        lock := 0;
        waitStdout := null;
      }
    }

    method Wake(w: Block)
      requires Linked() && w in th && !qs.Holds(w)
      modifies this`th, qs.runq, th.Keys
      ensures Linked() && qs.runq.items == old(qs.runq.items) + [w]
      ensures th == old(th)[w := old(th)[w].(reason := NONE, phase := Outside, place := Run)] && th.Keys == old(th.Keys)
    {
      SetReason(w, NONE, th[w].(reason := NONE, phase := Outside, place := Run));
      LastIsKnown(qs.runq, w);
      Link(qs.runq, w);
    }

    method UnblockHead()
      requires Linked() && qs.blockq.items != [] && Abs().Typed()
      modifies this`th, qs.runq, qs.blockq, th.Keys`next
      ensures Linked() && Abs() == UnblockedOne(old(Abs())) && th.Keys == old(th.Keys)
    {
      var b := Dequeue(qs.blockq);
      LastIsKnown(qs.runq, b);
      Enqueue(qs.runq, b, th[b].(place := Run));
    }

    method BlockHead()
      requires Linked() && qs.runq.items != [] && Abs().Typed()
      modifies this`th, qs.runq, qs.blockq, th.Keys`next
      ensures Linked() && Abs() == BlockedOne(old(Abs())) && th.Keys == old(th.Keys)
    {
      var t := Dequeue(qs.runq);
      LastIsKnown(qs.blockq, t);
      Enqueue(qs.blockq, t, th[t].(place := Blk));
    }

    method ResumeHead()
      requires Linked() && qs.runq.items != [] && Abs().Typed()
      modifies this`th, this`cur, this`lock, this`sections, qs.runq
      ensures Linked() && Abs() == Resumed(old(Abs()))
    {
      var t := SwitchToHead();
      if t.reason == STDIO { TakeLock(t); }
    }

    method TakeLock(t: Block)
      requires Linked() && t in th
      modifies this`th, this`lock, this`sections
      ensures Linked() && Abs() == Entered(old(Abs()).(lock := t.tid), t)
    {
      lock := t.tid;
      BeginSection(t);
    }

    method SwitchToHead() returns (t: Block)
      requires Linked() && qs.runq.items != [] && Abs().Typed()
      modifies this`th, this`cur, qs.runq
      ensures Linked() && t == old(qs.runq.items)[0] && t in old(th) && t in th
      ensures t.reason == old(th)[t].reason && t.tid == old(th)[t].tid
      ensures Abs() == Switched(old(Abs()))
    {
      t := TakeHead();
      cur := t;
    }

    method TakeHead() returns (t: Block)
      requires Linked() && qs.runq.items != []
      modifies this`th, qs.runq
      ensures Linked() && t == old(qs.runq.items)[0] && t in old(th)
      ensures t.reason == old(th)[t].reason && t.tid == old(th)[t].tid
      ensures qs.runq.items == old(qs.runq.items)[1..] && th == old(th)[t := old(th)[t].(place := Cur)]
    {
      t := Dequeue(qs.runq);
      Note(t, th[t].(place := Cur));
    }

    predicate StdioIsIdle(tid: nat)
      reads this`lock
    {
      lock == 0 || lock == tid
    }

    /** While the lock is free, blocked threads go back to the run queue. */
    method UnblockStep()
      requires Linked() && Abs().Typed()
      modifies this`th, qs.runq, qs.blockq, th.Keys`next
      ensures Linked() && Abs() == Unblocked(old(Abs())) && th.Keys == old(th.Keys)
    {
      var more := UnblockIfIdle();
      while more
        invariant Linked() && Abs().Typed() && th.Keys == old(th.Keys)
        invariant Unblocked(Abs()) == Unblocked(old(Abs()))
        invariant !more ==> Unblocked(Abs()) == Abs()
        decreases |qs.blockq.items|, more
      {
        more := UnblockIfIdle();
      }
    }

    method UnblockIfIdle() returns (more: bool)
      requires Linked() && Abs().Typed()
      modifies this`th, qs.runq, qs.blockq, th.Keys`next
      ensures Linked() && Abs().Typed() && th.Keys == old(th.Keys)
      ensures more <==> lock == 0 && old(qs.blockq.items != [] && th[qs.blockq.items[0]].reason == STDIO)
      ensures Abs() == if more then UnblockedOne(old(Abs())) else old(Abs())
    {
      more := StdioIsIdle(0) && qs.blockq.head != null && qs.blockq.head.reason == STDIO;
      if qs.blockq.head != null { HeadIsFirst(qs.blockq); }
      if more { UnblockHead(); }
    }

    lemma HeadIsFirst(q: Queue)
      requires Linked() && (q == qs.runq || q == qs.blockq) && q.head != null
      ensures q.items != [] && q.head == q.items[0] && q.head in th
      ensures q.head.tid == th[q.head].tid && q.head.reason == th[q.head].reason
    {
    }

    predicate HeadMustBlock()
      requires qs.runq.head != null
      reads this`lock, qs, qs.runq, qs.runq.head
    {
      !StdioIsIdle(qs.runq.head.tid) && qs.runq.head.reason != NONE
    }

    /** The dispatch loop. */
    method DispatchStep()
      requires Linked() && Abs().Typed()
      modifies this`th, this`cur, this`lock, this`sections, qs.runq, qs.blockq, th.Keys`next
      ensures Linked() && Abs() == Dispatched(old(Abs()))
    {
      BlockLoop();
      if qs.runq.head != null {
        HeadIsFirst(qs.runq);
        ResumeHead();
      }
    }

    method BlockLoop()
      requires Linked() && Abs().Typed()
      modifies this`th, qs.runq, qs.blockq, th.Keys`next
      ensures Linked() && Abs().Typed() && Dispatched(Abs()) == Dispatched(old(Abs()))
      ensures qs.runq.items != [] ==> !MustBlock(Abs())
    {
      var more := BlockIfHeld();
      while more
        invariant Linked() && Abs().Typed() && th.Keys == old(th.Keys)
        invariant Dispatched(Abs()) == Dispatched(old(Abs()))
        invariant !more && qs.runq.items != [] ==> !MustBlock(Abs())
        decreases |qs.runq.items|, more
      {
        more := BlockIfHeld();
      }
    }

    /** The head of the run queue leaves it if it needs the lock and another thread has it. */
    method BlockIfHeld() returns (more: bool)
      requires Linked() && Abs().Typed()
      modifies this`th, qs.runq, qs.blockq, th.Keys`next
      ensures Linked() && Abs().Typed() && th.Keys == old(th.Keys)
      ensures more <==> old(qs.runq.items != [] && MustBlock(Abs()))
      ensures Abs() == if more then BlockedOne(old(Abs())) else old(Abs())
    {
      more := qs.runq.head != null && HeadMustBlock();
      if qs.runq.head != null { HeadIsFirst(qs.runq); }
      if more { BlockHead(); }
    }

    /** One turn of the scheduler loop. */
    method PassStep()
      requires Linked() && Loose() && Abs().Typed()
      modifies this`lock, this`th, this`waitStdout, this`cur, this`sections, qs.runq, qs.blockq, th.Keys
      ensures Linked() && Abs() == Dispatched(Unblocked(Woken(old(Abs()))))
    {
      WakeStep();
      UnblockStep();
      DispatchStep();
    }

    // ----- the events -----

    /** Queues well linked, blocks and records in agreement, and the scheduler invariant. */
    ghost predicate Valid()
      reads this, th.Keys`tid, th.Keys`reason
      reads qs, qs.runq, qs.freeq, qs.blockq, qs.runq.items`next, qs.freeq.items`next, qs.blockq.items`next
    {
      Linked() && Abs().Typed() && Inv(Abs())
    }

    lemma LooseByInv()
      requires Linked() && Placed(Abs())
      ensures Loose()
    {
    }

    lemma Completed(s: State<Block>, e: Event<Block>)
      requires s.Typed() && Inv(s) && Enabled(s, e) && Linked() && Abs() == Next(s, e)
      ensures Valid() && th.Keys <= s.th.Keys + BlockOf(e)
    {
      StepKeeps(s, e);
      StepBlocks(s, e);
    }

    /** At most one thread is in the printing section, the lock has its tid, and the wait slot is empty. */
    lemma InsideIsAlone(t: Block, u: Block)
      requires Valid() && t in th && u in th && th[t].phase == Inside && th[u].phase == Inside
      ensures t == u && lock == t.tid && waitStdout == null
    {
      assert ThreadOk(Abs(), th[t]) && ThreadOk(Abs(), th[u]);
    }

    /** The timer interrupt. */
    method Tick()
      requires Valid() && Enabled(Abs(), Event.Tick)
      modifies this, qs.runq, th.Keys
      ensures Valid() && Abs() == Next(old(Abs()), Event.Tick) && th.Keys <= old(th.Keys)
      ensures qs.runq.items == old(qs.runq.items) + [old(cur)] && cur == null
    {
      ghost var s0 := Abs();
      LooseByInv();
      TickStep();
      Completed(s0, Event.Tick);
    }

    /** `pre_fork`. */
    method Fork() returns (t: Block)
      requires Valid() && !Abs().Current(Printer) && nextTid < TWO32 - 1
      modifies this, qs.runq, qs.freeq, th.Keys
      ensures Valid() && Enabled(old(Abs()), Event.Fork(t)) && Abs() == Next(old(Abs()), Event.Fork(t))
      ensures fresh(th.Keys - old(th.Keys))
    {
      ghost var s0 := Abs();
      t := ForkStep();
      Completed(s0, Event.Fork(t));
    }

    /** REQUEST_STDOUT. */
    method RequestStdout()
      requires Valid() && Enabled(Abs(), Event.Request)
      modifies this, qs.blockq, th.Keys
      ensures Valid() && Abs() == Next(old(Abs()), Event.Request) && th.Keys <= old(th.Keys)
    {
      ghost var s0 := Abs();
      LooseByInv();
      RequestStep();
      Completed(s0, Event.Request);
    }

    /** WAIT_STDOUT; `t` is the printer, if one is needed. */
    method WaitStdout() returns (t: Block)
      requires Valid() && Abs().Current(Inside) && (putQ != [] ==> nextTid < TWO32 - 1)
      modifies this, qs.runq, qs.freeq, th.Keys
      ensures Valid() && Enabled(old(Abs()), Event.Wait(t)) && Abs() == Next(old(Abs()), Event.Wait(t))
      ensures fresh(th.Keys - old(th.Keys))
    {
      ghost var s0 := Abs();
      LooseByInv();
      t := WaitStep();
      Completed(s0, Event.Wait(t));
    }

    /** The current thread prints a character, which is lost if the queue is full. */
    method PutChar(ch: char) returns (ok: bool)
      requires Valid() && Enabled(Abs(), Event.Put(ch))
      modifies this`putQ, this`outQ
      ensures Valid() && (ok <==> |old(putQ)| < 8191)
      ensures Abs() == if ok then Next(old(Abs()), Event.Put(ch)) else old(Abs())
      ensures putQ == old(putQ) + if ok then [ch] else []
    {
      if |putQ| >= Ring.N - 1 { return false; }
      ghost var s0 := Abs();
      PutStep(ch);
      Completed(s0, Event.Put(ch));
      return true;
    }

    /** The UART interrupt takes characters while there is `room`. */
    method UartInterrupt(room: nat) returns (n: nat)
      requires Valid()
      modifies this`putQ, this`outQ, this`sent, this`uart
      ensures n == (if room <= |old(putQ)| then room else |old(putQ)|) && n <= |old(outQ)|
      ensures Valid() && Abs() == Next(old(Abs()), Event.Drain(n))
      ensures n <= |old(putQ)| && sent == old(sent) + old(putQ)[..n] && putQ == old(putQ)[n..]
    {
      ghost var s0 := Abs();
      n := DrainStep(room);
      Completed(s0, Event.Drain(n));
    }

    /** The printer thread, which runs to its end uninterrupted. */
    method RunPrinter(room: nat) returns (n: nat, t: Block)
      requires Valid() && Abs().Current(Printer) && (room < |putQ| ==> nextTid < TWO32 - 1)
      modifies this, qs.runq, qs.freeq, th.Keys
      ensures Valid() && Enabled(old(Abs()), Print(n, t)) && Abs() == Next(old(Abs()), Print(n, t))
      ensures fresh(th.Keys - old(th.Keys))
      ensures n == room || n == |old(putQ)|
      ensures n <= |old(putQ)| && sent == old(sent) + old(putQ)[..n] && putQ == old(putQ)[n..]
    {
      ghost var s0 := Abs();
      LooseByInv();
      n, t := PrintStep(room);
      Completed(s0, Print(n, t));
    }

    /** `pre_exit`. */
    method Exit()
      requires Valid() && Enabled(Abs(), Event.Exit)
      modifies this, qs.freeq, th.Keys`next
      ensures Valid() && Abs() == Next(old(Abs()), Event.Exit) && th.Keys <= old(th.Keys)
      ensures qs.freeq.items == [old(cur)] + old(qs.freeq.items) && cur == null
    {
      ghost var s0 := Abs();
      LooseByInv();
      ExitStep();
      Completed(s0, Event.Exit);
    }

    /** One pass of the scheduler loop. */
    method SchedulerPass()
      requires Valid() && cur == null
      modifies this, qs.runq, qs.blockq, th.Keys
      ensures Valid() && Abs() == Next(old(Abs()), Pass) && th.Keys <= old(th.Keys)
      ensures exists i :: Passed(old(Abs()), Abs(), i)
    {
      ghost var s0 := Abs();
      LooseByInv();
      PassStep();
      Completed(s0, Pass);
      ghost var i := PassMeaning(s0);
    }
  }
}
