/**
 * The preemptive scheduler with its stdio lock as a transition system
 * (preemptive-threads/preemptive-thread.c, preemptive-threads/thread-safe-io.c).
 *
 * `T` is the type of thread blocks.  A state holds the three queues, the current
 * thread (`None` while the scheduler runs), the stdout wait slot, the lock word,
 * the tid counter, the stdout queue and what has gone to the UART, and a record for
 * every block.  The `phase`, `section` and `place` of a record and the count of
 * printing sections are there for the proof: no step of the program reads them.
 */
module Scheduler {
  import opened Machine

  datatype Option<T> = None | Some(value: T)

  datatype Reason = NONE | STDIO

  datatype Place = Run | Blk | Free | Cur | Slot

  /** Outside the REQUEST_STDOUT ... WAIT_STDOUT section, blocked on entry, inside it, or waiting for the drain. */
  datatype Phase = Outside | Requesting | Inside | Waiting | Printer | Dead

  datatype Thread = Thread(tid: nat, reason: Reason, phase: Phase, section: nat, place: Place)

  /** A character, tagged with the number of the printing section that produced it. */
  datatype Glyph = Glyph(section: nat, ch: char)

  datatype State<T(==)> = State(
    run: seq<T>, blk: seq<T>, free: seq<T>, cur: Option<T>, wait: Option<T>,
    lock: nat, nextTid: Word, outQ: seq<Glyph>, uart: seq<Glyph>,
    th: map<T, Thread>, sections: nat)
  {
    predicate Idle(tid: nat) { lock == 0 || lock == tid }

    /** Every block in use has a record. */
    predicate Typed() {
      && (forall i :: 0 <= i < |run| ==> run[i] in th)
      && (forall i :: 0 <= i < |blk| ==> blk[i] in th)
      && (cur.Some? ==> cur.value in th)
      && (wait.Some? ==> wait.value in th)
    }

    /** The phase of the current thread, if a thread is running. */
    predicate Current(p: Phase)
      requires Typed()
    {
      cur.Some? && th[cur.value].phase == p
    }
  }

  /** What can happen: `Fork`, `Wait` and `Print` name the block a fork will use. */
  datatype Event<T> =
    | Fork(t: T) | Tick | Request | Put(ch: char) | Drain(n: nat) | Wait(t: T) | Print(n: nat, t: T) | Exit | Pass

  // ----- the steps -----

  /** The block `th_alloc` gives: the head of the free queue, or a new one. */
  predicate CanAlloc<T(==)>(s: State<T>, t: T) {
    if s.free == [] then t !in s.th else t == s.free[0]
  }

  /** The tid counter is unsigned and wraps. */
  function Advanced(tid: Word): Word { if tid == TWO32 - 1 then 0 else tid + 1 }

  /** A fork that does not use up the last tid. */
  predicate CanFork<T(==)>(s: State<T>, t: T) { CanAlloc(s, t) && s.nextTid < TWO32 - 1 }

  /** `pre_fork`. */
  function Forked<T(==)>(s: State<T>, t: T): State<T> {
    s.(free := if s.free == [] then [] else s.free[1..], run := s.run + [t], nextTid := Advanced(s.nextTid),
       th := s.th[t := Thread(s.nextTid, NONE, Outside, 0, Run)])
  }

  /** A fork of the printer thread, which takes the lock at once. */
  function ForkedPrinter<T(==)>(s: State<T>, t: T): State<T> {
    Forked(s, t).(lock := s.nextTid, th := s.th[t := Thread(s.nextTid, STDIO, Printer, 0, Run)])
  }

  /** Thread `t` has just been given the lock; a printing section starts unless it is already in one, or a printer. */
  function Entered<T(==)>(s: State<T>, t: T): State<T>
    requires t in s.th
  {
    var i := s.th[t];
    if i.phase.Outside? || i.phase.Requesting? then
      s.(th := s.th[t := i.(phase := Inside, section := s.sections + 1)], sections := s.sections + 1)
    else s
  }

  /** REQUEST_STDOUT. */
  function Requested<T(==)>(s: State<T>): State<T>
    requires s.Typed() && s.cur.Some?
  {
    var c := s.cur.value;
    if s.Idle(s.th[c].tid) then Entered(s.(lock := s.th[c].tid, th := s.th[c := s.th[c].(reason := STDIO)]), c)
    else
      s.(blk := s.blk + [c], cur := None,
         th := s.th[c := s.th[c].(reason := STDIO, phase := Requesting, place := Blk)])
  }

  /** WAIT_STDOUT; `t` is the block of the printer, if one is needed. */
  function Waited<T(==)>(s: State<T>, t: T): State<T>
    requires s.Typed() && s.cur.Some?
  {
    var c := s.cur.value;
    if s.outQ == [] then s.(lock := 0, th := s.th[c := s.th[c].(reason := NONE, phase := Outside)])
    else ForkedPrinter(s.(wait := s.cur, cur := None, th := s.th[c := s.th[c].(phase := Waiting, place := Slot)]), t)
  }

  /** `pre_exit`. */
  function Exited<T(==)>(s: State<T>): State<T>
    requires s.Typed() && s.cur.Some?
  {
    var c := s.cur.value;
    s.(free := [c] + s.free, cur := None, th := s.th[c := s.th[c].(phase := Dead, place := Free)])
  }

  /** The first `n` characters of the queue go to the UART. */
  function Drained<T>(s: State<T>, n: nat): State<T>
    requires n <= |s.outQ|
  {
    s.(outQ := s.outQ[n..], uart := s.uart + s.outQ[..n])
  }

  /** The printer thread from its first instruction up to its exit; it cannot be interrupted. */
  function Printed<T(==)>(s: State<T>, n: nat, t: T): State<T>
    requires n <= |s.outQ|
  {
    var d := Drained(s, n);
    if d.outQ == [] then d.(lock := 0) else ForkedPrinter(d, t)
  }

  /** A scheduler pass begins by waking the thread that waits for the drain. */
  function Woken<T(==)>(s: State<T>): State<T>
    requires s.Typed()
  {
    if s.outQ == [] && s.wait.Some? then
      var w := s.wait.value;
      s.(lock := 0, run := s.run + [w], wait := None,
         th := s.th[w := s.th[w].(reason := NONE, phase := Outside, place := Run)])
    else s
  }

  /** The head of the block queue goes back to the run queue. */
  function UnblockedOne<T(==)>(s: State<T>): State<T>
    requires s.Typed() && s.blk != []
  {
    var t := s.blk[0];
    s.(blk := s.blk[1..], run := s.run + [t], th := s.th[t := s.th[t].(place := Run)])
  }

  /** While the lock is free, threads blocked on it go back to the run queue. */
  function Unblocked<T(==)>(s: State<T>): (r: State<T>)
    requires s.Typed()
    ensures r.Typed()
    decreases |s.blk|
  {
    if s.lock == 0 && s.blk != [] && s.th[s.blk[0]].reason == STDIO then Unblocked(UnblockedOne(s)) else s
  }

  /** The head of the run queue needs a lock it cannot have. */
  predicate MustBlock<T(==)>(s: State<T>)
    requires s.Typed() && s.run != []
  {
    !s.Idle(s.th[s.run[0]].tid) && s.th[s.run[0]].reason != NONE
  }

  function BlockedOne<T(==)>(s: State<T>): State<T>
    requires s.Typed() && s.run != []
  {
    var t := s.run[0];
    s.(run := s.run[1..], blk := s.blk + [t], th := s.th[t := s.th[t].(place := Blk)])
  }

  function Switched<T(==)>(s: State<T>): State<T>
    requires s.Typed() && s.run != []
  {
    var t := s.run[0];
    s.(run := s.run[1..], cur := Some(t), th := s.th[t := s.th[t].(place := Cur)])
  }

  /** The head of the run queue runs, with the lock if it needs it. */
  function Resumed<T(==)>(s: State<T>): State<T>
    requires s.Typed() && s.run != []
  {
    var t := s.run[0];
    if s.th[t].reason == STDIO then Entered(Switched(s).(lock := s.th[t].tid), t) else Switched(s)
  }

  /** The dispatch loop. */
  function Dispatched<T(==)>(s: State<T>): (r: State<T>)
    requires s.Typed()
    decreases |s.run|
  {
    if s.run == [] then s else if MustBlock(s) then Dispatched(BlockedOne(s)) else Resumed(s)
  }

  predicate Enabled<T(==)>(s: State<T>, e: Event<T>)
    requires s.Typed()
  {
    match e
    case Fork(t) => CanFork(s, t) && !s.Current(Printer)
    case Tick => s.cur.Some? && !s.Current(Printer)
    case Request => s.Current(Outside) || s.Current(Inside)
    case Put(_) => s.Current(Inside)
    case Drain(n) => n <= |s.outQ|
    case Wait(t) => s.Current(Inside) && (s.outQ != [] ==> CanFork(s, t))
    case Print(n, t) => s.Current(Printer) && n <= |s.outQ| && (n < |s.outQ| ==> CanFork(s, t))
    case Exit => s.Current(Outside)
    case Pass => s.cur.None?
  }

  function Ticked<T(==)>(s: State<T>): State<T>
    requires s.Typed() && s.cur.Some?
  {
    var c := s.cur.value;
    s.(run := s.run + [c], cur := None, th := s.th[c := s.th[c].(place := Run)])
  }

  function Next<T(==)>(s: State<T>, e: Event<T>): State<T>
    requires s.Typed() && Enabled(s, e)
  {
    match e
    case Fork(t) => Forked(s, t)
    case Tick => Ticked(s)
    case Request => Requested(s)
    case Put(ch) => s.(outQ := s.outQ + [Glyph(s.th[s.cur.value].section, ch)])
    case Drain(n) => Drained(s, n)
    case Wait(t) => Waited(s, t)
    case Print(n, t) => Exited(Printed(s, n, t))
    case Exit => Exited(s)
    case Pass => Dispatched(Unblocked(Woken(s)))
  }

  // ----- the invariant -----

  /** Queue `q` holds exactly the blocks whose record says so, each once. */
  ghost predicate QueueOk<T>(q: seq<T>, th: map<T, Thread>, p: Place) {
    && (forall i :: 0 <= i < |q| ==> q[i] in th && th[q[i]].place == p)
    && (forall i, j :: 0 <= i < j < |q| ==> q[i] != q[j])
    && (forall t :: t in th && th[t].place == p ==> t in q)
  }

  ghost predicate SlotOk<T>(o: Option<T>, th: map<T, Thread>, p: Place) {
    && (o.Some? ==> o.value in th && th[o.value].place == p)
    && (forall t :: t in th && th[t].place == p ==> o == Some(t))
  }

  /** Every block is in exactly one place. */
  ghost predicate Placed<T>(s: State<T>) {
    && QueueOk(s.run, s.th, Run) && QueueOk(s.blk, s.th, Blk) && QueueOk(s.free, s.th, Free)
    && SlotOk(s.cur, s.th, Cur) && SlotOk(s.wait, s.th, Slot)
  }

  /** Where a thread may be in each phase, what it is blocked on, and what it knows of the lock. */
  ghost predicate ThreadOk<T>(s: State<T>, i: Thread) {
    && 0 < i.tid < s.nextTid
    && (i.place.Free? <==> i.phase.Dead?) && (i.place.Slot? <==> i.phase.Waiting?)
    && (i.place.Blk? ==> i.phase.Requesting? || i.phase.Printer?)
    && (i.place.Cur? ==> !i.phase.Requesting?)
    && (i.phase.Outside? ==> i.reason == NONE)
    && (i.phase.Requesting? || i.phase.Inside? || i.phase.Printer? ==> i.reason == STDIO)
    && (i.phase.Inside? ==> s.lock == i.tid && i.section == s.sections && s.wait.None?)
    && (i.phase.Printer? && i.place.Cur? ==> s.lock == i.tid)
  }

  ghost predicate ThreadsOk<T>(s: State<T>) {
    && (forall t :: t in s.th ==> ThreadOk(s, s.th[t]))
    && (forall t, u :: t in s.th && u in s.th && s.th[t].tid == s.th[u].tid ==> t == u)
  }

  /** The lock names a thread that is running or in the run queue. */
  ghost predicate Holds<T>(s: State<T>, t: T) {
    && t in s.th && s.th[t].tid == s.lock && (s.th[t].phase.Inside? || s.th[t].phase.Printer?)
    && (s.th[t].place.Run? || s.th[t].place.Cur?)
  }

  ghost predicate LockOk<T>(s: State<T>) {
    && (s.lock != 0 ==> exists t :: t in s.th && Holds(s, t))
    && (s.wait.Some? && s.cur.Some? ==> s.lock != 0)
    && (s.outQ != [] ==> s.lock != 0)
  }

  ghost predicate Sorted(q: seq<Glyph>) { forall i, j :: 0 <= i < j < |q| ==> q[i].section <= q[j].section }

  /** The characters sent and queued are grouped by printing section. */
  ghost predicate StreamOk<T>(s: State<T>) {
    Sorted(s.uart + s.outQ) && forall i :: 0 <= i < |s.uart + s.outQ| ==> (s.uart + s.outQ)[i].section <= s.sections
  }

  ghost predicate Core<T>(s: State<T>) { 0 < s.nextTid && ThreadsOk(s) && LockOk(s) && StreamOk(s) }

  ghost predicate Inv<T>(s: State<T>) { Placed(s) && Core(s) }

  // ----- queues under the three operations -----

  lemma Append<T>(q: seq<T>, th: map<T, Thread>, p: Place, t: T, i: Thread)
    requires QueueOk(q, th, p) && t !in q && i.place == p
    ensures QueueOk(q + [t], th[t := i], p)
  {
  }

  lemma Push<T>(q: seq<T>, th: map<T, Thread>, p: Place, t: T, i: Thread)
    requires QueueOk(q, th, p) && t !in q && i.place == p
    ensures QueueOk([t] + q, th[t := i], p)
  {
  }

  lemma Pop<T>(q: seq<T>, th: map<T, Thread>, p: Place, i: Thread)
    requires q != [] && QueueOk(q, th, p) && i.place != p
    ensures QueueOk(q[1..], th[q[0] := i], p)
  {
  }

  /** A block outside the queue changes, and stays outside. */
  lemma Others<T>(q: seq<T>, th: map<T, Thread>, p: Place, t: T, i: Thread)
    requires QueueOk(q, th, p) && t !in q && i.place != p
    ensures QueueOk(q, th[t := i], p)
  {
  }

  lemma OtherSlot<T>(o: Option<T>, th: map<T, Thread>, p: Place, t: T, i: Thread)
    requires SlotOk(o, th, p) && o != Some(t) && i.place != p
    ensures SlotOk(o, th[t := i], p)
  {
  }

  // ----- every step keeps the invariant -----

  /** The record of `t` becomes `i`; lock, section count and wait slot stay. */
  lemma Quiet<T>(s: State<T>, n: State<T>, t: T, i: Thread)
    requires ThreadsOk(s) && n.th == s.th[t := i] && s.nextTid <= n.nextTid && ThreadOk(n, i)
    requires n.lock == s.lock && n.sections == s.sections && n.wait == s.wait
    requires i.tid >= s.nextTid || (t in s.th && i.tid == s.th[t].tid)
    ensures ThreadsOk(n)
  {
    forall u | u in n.th ensures ThreadOk(n, n.th[u]) { if u != t { assert ThreadOk(s, s.th[u]); } }
    forall u, v | u in n.th && v in n.th && n.th[u].tid == n.th[v].tid ensures u == v {
      if u != t { assert ThreadOk(s, s.th[u]); }
      if v != t { assert ThreadOk(s, s.th[v]); }
    }
  }

  /** No thread but `t` is inside the printing section, and no other is a running printer. */
  ghost predicate Alone<T>(s: State<T>, t: T) {
    forall u :: u in s.th && u != t ==> !s.th[u].phase.Inside? && !(s.th[u].phase.Printer? && s.th[u].place.Cur?)
  }

  /** The record of `t` becomes `i` while nobody else depends on the lock. */
  lemma Takeover<T>(s: State<T>, n: State<T>, t: T, i: Thread)
    requires ThreadsOk(s) && Alone(s, t) && n.th == s.th[t := i] && s.nextTid <= n.nextTid && ThreadOk(n, i)
    requires i.tid >= s.nextTid || (t in s.th && i.tid == s.th[t].tid)
    ensures ThreadsOk(n) && Alone(n, t)
  {
    forall u | u in n.th ensures ThreadOk(n, n.th[u]) { if u != t { assert ThreadOk(s, s.th[u]); } }
    forall u, v | u in n.th && v in n.th && n.th[u].tid == n.th[v].tid ensures u == v {
      if u != t { assert ThreadOk(s, s.th[u]); }
      if v != t { assert ThreadOk(s, s.th[v]); }
    }
  }

  /** The lock is free, or names `t`: nobody else depends on it. */
  lemma OwnerIsAlone<T>(s: State<T>, t: T)
    requires ThreadsOk(s) && t in s.th && s.Idle(s.th[t].tid)
    ensures Alone(s, t)
  {
    forall u | u in s.th && u != t ensures !s.th[u].phase.Inside? && !(s.th[u].phase.Printer? && s.th[u].place.Cur?) {
      assert ThreadOk(s, s.th[u]);
    }
  }

  /** The holder of the lock is not touched. */
  lemma HolderStays<T>(s: State<T>, n: State<T>, t: T, i: Thread)
    requires LockOk(s) && n.lock == s.lock && n.th == s.th[t := i]
    requires !Holds(s, t) || Holds(n, t)
    ensures n.lock != 0 ==> exists u :: u in n.th && Holds(n, u)
  {
    if s.lock != 0 {
      var h :| h in s.th && Holds(s, h);
      assert Holds(n, h);
    }
  }

  // ----- every block stays in exactly one place -----

  lemma ForkPlaces<T>(s: State<T>, t: T, i: Thread)
    requires Placed(s) && CanAlloc(s, t) && i.place == Run
    ensures Placed(Forked(s, t).(th := s.th[t := i]))
    ensures t in s.th ==> s.th[t].place == Free
  {
    if s.free != [] { Pop(s.free, s.th, Free, i); }
    Append(s.run, s.th, Run, t, i);
  }

  lemma TickPlaces<T>(s: State<T>)
    requires Placed(s) && s.cur.Some?
    ensures Placed(Ticked(s))
  {
    Append(s.run, s.th, Run, s.cur.value, s.th[s.cur.value].(place := Run));
  }

  lemma EnterPlaces<T>(s: State<T>, t: T)
    requires Placed(s) && t in s.th
    ensures Placed(Entered(s, t))
  {
  }

  lemma RequestPlaces<T>(s: State<T>)
    requires Placed(s) && s.cur.Some?
    ensures Placed(Requested(s))
  {
    var c := s.cur.value;
    if s.Idle(s.th[c].tid) {
      EnterPlaces(s, c);
      EnterPlaces(s.(lock := s.th[c].tid, th := s.th[c := s.th[c].(reason := STDIO)]), c);
    } else {
      Append(s.blk, s.th, Blk, c, s.th[c].(reason := STDIO, phase := Requesting, place := Blk));
    }
  }

  lemma WaitPlaces<T>(s: State<T>, t: T)
    requires Placed(s) && s.cur.Some? && s.wait.None? && (s.outQ != [] ==> CanAlloc(s, t))
    ensures Placed(Waited(s, t))
  {
    var c := s.cur.value;
    if s.outQ != [] {
      var m := s.(wait := s.cur, cur := None, th := s.th[c := s.th[c].(phase := Waiting, place := Slot)]);
      assert Placed(m);
      ForkPlaces(m, t, Thread(s.nextTid, STDIO, Printer, 0, Run));
    }
  }

  lemma ExitPlaces<T>(s: State<T>)
    requires Placed(s) && s.cur.Some?
    ensures Placed(Exited(s))
  {
    Push(s.free, s.th, Free, s.cur.value, s.th[s.cur.value].(phase := Dead, place := Free));
  }

  lemma WakePlaces<T>(s: State<T>)
    requires Placed(s)
    ensures Placed(Woken(s))
  {
    if s.outQ == [] && s.wait.Some? {
      var w := s.wait.value;
      Append(s.run, s.th, Run, w, s.th[w].(reason := NONE, phase := Outside, place := Run));
    }
  }

  /** A block that moves between run and block queue leaves the other places alone. */
  lemma MovePlaces<T>(s: State<T>, t: T, i: Thread)
    requires Placed(s) && t in s.th && (s.th[t].place.Run? || s.th[t].place.Blk?) && (i.place.Run? || i.place.Blk?)
    ensures QueueOk(s.free, s.th[t := i], Free) && SlotOk(s.cur, s.th[t := i], Cur)
            && SlotOk(s.wait, s.th[t := i], Slot)
    ensures s.th[t].place.Run? <==> t in s.run
    ensures s.th[t].place.Blk? <==> t in s.blk
  {
    Others(s.free, s.th, Free, t, i);
    OtherSlot(s.cur, s.th, Cur, t, i);
    OtherSlot(s.wait, s.th, Slot, t, i);
  }

  lemma UnblockPlaces<T>(s: State<T>)
    requires Placed(s) && s.blk != []
    ensures Placed(UnblockedOne(s))
  {
    var t := s.blk[0];
    MovePlaces(s, t, s.th[t].(place := Run));
    Pop(s.blk, s.th, Blk, s.th[t].(place := Run));
    Append(s.run, s.th, Run, t, s.th[t].(place := Run));
  }

  lemma BlockPlaces<T>(s: State<T>)
    requires Placed(s) && s.run != []
    ensures Placed(BlockedOne(s))
  {
    var t := s.run[0];
    MovePlaces(s, t, s.th[t].(place := Blk));
    Pop(s.run, s.th, Run, s.th[t].(place := Blk));
    Append(s.blk, s.th, Blk, t, s.th[t].(place := Blk));
  }

  lemma ResumePlaces<T>(s: State<T>)
    requires Placed(s) && s.run != [] && s.cur.None?
    ensures Placed(Resumed(s))
  {
    var t := s.run[0];
    var p := s.(run := s.run[1..], cur := Some(t), th := s.th[t := s.th[t].(place := Cur)]);
    Pop(s.run, s.th, Run, s.th[t].(place := Cur));
    assert Placed(p);
    if s.th[t].reason == STDIO { EnterPlaces(p.(lock := s.th[t].tid), t); }
  }

  // ----- what the threads know of the lock stays true -----

  /** What the steps of the current thread need to know of its place. */
  ghost predicate Runs<T>(s: State<T>) { s.cur.Some? && s.cur.value in s.th && s.th[s.cur.value].place == Cur }

  lemma ForkKeeps<T>(s: State<T>, t: T)
    requires Core(s) && (t in s.th ==> s.th[t].place == Free) && s.nextTid < TWO32 - 1
    ensures Core(Forked(s, t))
  {
    var n, i := Forked(s, t), Thread(s.nextTid, NONE, Outside, 0, Run);
    assert t in s.th ==> ThreadOk(s, s.th[t]);
    Quiet(s, n, t, i);
    HolderStays(s, n, t, i);
  }

  lemma TickKeeps<T>(s: State<T>)
    requires Core(s) && s.Typed() && Runs(s) && !s.Current(Printer)
    ensures Core(Ticked(s))
  {
    var c := s.cur.value;
    var n, i := Ticked(s), s.th[c].(place := Run);
    assert ThreadOk(s, s.th[c]);
    Quiet(s, n, c, i);
    HolderStays(s, n, c, i);
  }

  /** A thread that does not own the lock cannot be the one it names. */
  lemma NotTheHolder<T>(s: State<T>, t: T)
    requires Core(s) && t in s.th && s.lock == s.th[t].tid
    ensures Holds(s, t)
  {
    assert ThreadOk(s, s.th[t]);
    var h :| h in s.th && Holds(s, h);
    assert h == t;
  }

  /** The lock is free when a thread is let into the printing section. */
  lemma EnterKeeps<T>(s: State<T>, t: T)
    requires Core(s) && s.lock == 0 && s.wait.None? && t in s.th
    requires s.th[t].place.Cur? && s.th[t].phase.Outside?
    ensures Core(Entered(s.(lock := s.th[t].tid, th := s.th[t := s.th[t].(reason := STDIO)]), t))
  {
    var n := Entered(s.(lock := s.th[t].tid, th := s.th[t := s.th[t].(reason := STDIO)]), t);
    assert ThreadOk(s, s.th[t]);
    OwnerIsAlone(s, t);
    Takeover(s, n, t, n.th[t]);
    assert Holds(n, t);
  }

  lemma RequestKeeps<T>(s: State<T>)
    requires Core(s) && s.Typed() && Runs(s) && (s.Current(Outside) || s.Current(Inside))
    ensures Core(Requested(s))
  {
    var c := s.cur.value;
    assert ThreadOk(s, s.th[c]);
    if s.Current(Inside) {
      assert s.th[c := s.th[c].(reason := STDIO)] == s.th;
    } else if s.lock == s.th[c].tid {
      NotTheHolder(s, c);
      assert false;
    } else if s.lock == 0 {
      EnterKeeps(s, c);
    } else {
      var n := Requested(s);
      Quiet(s, n, c, n.th[c]);
      HolderStays(s, n, c, n.th[c]);
    }
  }

  lemma PutKeeps<T>(s: State<T>, ch: char)
    requires Core(s) && s.Typed() && Runs(s) && s.Current(Inside)
    ensures Core(Next(s, Put(ch)))
  {
    var n := Next(s, Put(ch));
    assert ThreadOk(s, s.th[s.cur.value]);
    assert n.uart + n.outQ == (s.uart + s.outQ) + [Glyph(s.sections, ch)];
    SameLock(s, n);
  }

  lemma SameLock<T>(s: State<T>, n: State<T>)
    requires Core(s) && n.th == s.th && n.lock == s.lock && n.sections == s.sections && n.wait == s.wait
    requires n.nextTid == s.nextTid
    ensures ThreadsOk(n) && (n.lock != 0 ==> exists u :: u in n.th && Holds(n, u))
  {
    forall u | u in n.th ensures ThreadOk(n, n.th[u]) { assert ThreadOk(s, s.th[u]); }
    if s.lock != 0 {
      var h :| h in s.th && Holds(s, h);
      assert Holds(n, h);
    }
  }

  lemma DrainKeeps<T>(s: State<T>, k: nat)
    requires Core(s) && k <= |s.outQ|
    ensures Core(Drained(s, k))
  {
    var n := Drained(s, k);
    assert s.outQ == s.outQ[..k] + s.outQ[k..];
    assert n.uart + n.outQ == s.uart + s.outQ;
    SameLock(s, n);
  }

  /** A printer is forked while nobody depends on the lock. */
  lemma ForkPrinterKeeps<T>(s: State<T>, t: T)
    requires 0 < s.nextTid < TWO32 - 1 && ThreadsOk(s) && StreamOk(s)
    requires Alone(s, t) && (t in s.th ==> s.th[t].place == Free)
    ensures Core(ForkedPrinter(s, t))
  {
    var n := ForkedPrinter(s, t);
    Takeover(s, n, t, n.th[t]);
    assert Holds(n, t);
  }

  lemma WaitKeeps<T>(s: State<T>, t: T)
    requires Core(s) && s.Typed() && Runs(s) && s.Current(Inside)
    requires s.outQ != [] ==> s.nextTid < TWO32 - 1 && (t in s.th ==> s.th[t].place == Free)
    ensures Core(Waited(s, t)) && s.wait.None?
  {
    var c := s.cur.value;
    assert ThreadOk(s, s.th[c]);
    OwnerIsAlone(s, c);
    if s.outQ == [] {
      var n := Waited(s, t);
      Takeover(s, n, c, n.th[c]);
    } else {
      var i := s.th[c].(phase := Waiting, place := Slot);
      var m := s.(wait := s.cur, cur := None, th := s.th[c := i]);
      Takeover(s, m, c, i);
      ForkPrinterKeeps(m, t);
    }
  }

  lemma ExitKeeps<T>(s: State<T>)
    requires Core(s) && s.Typed() && Runs(s) && s.Current(Outside)
    ensures Core(Exited(s))
  {
    var n, c := Exited(s), s.cur.value;
    assert ThreadOk(s, s.th[c]);
    Quiet(s, n, c, n.th[c]);
    HolderStays(s, n, c, n.th[c]);
  }

  lemma PrintKeeps<T>(s: State<T>, k: nat, t: T)
    requires Core(s) && s.Typed() && Runs(s) && s.Current(Printer) && k <= |s.outQ|
    requires k < |s.outQ| ==> s.nextTid < TWO32 - 1 && (t in s.th ==> s.th[t].place == Free)
    ensures Printed(s, k, t).Typed() && Core(Exited(Printed(s, k, t)))
  {
    var c := s.cur.value;
    var i := s.th[c].(phase := Dead, place := Free);
    var d := Drained(s, k);
    var m := d.(lock := 0, cur := None, th := s.th[c := i]);
    DrainKeeps(s, k);
    assert ThreadOk(d, d.th[c]);
    OwnerIsAlone(d, c);
    Takeover(d, m, c, i);
    if d.outQ != [] {
      ForkPrinterKeeps(m, t);
      var n, f := Exited(Printed(s, k, t)), ForkedPrinter(m, t);
      assert n.th == f.th;
      assert n == f.(free := n.free);
      SameLock(f, n);
    } else {
      SameThreads(m, Exited(Printed(s, k, t)));
    }
  }

  lemma SameThreads<T>(m: State<T>, n: State<T>)
    requires 0 < m.nextTid && ThreadsOk(m) && StreamOk(m) && m.lock == 0
             && m.outQ == [] && m.cur.None? && n == m.(free := n.free)
    ensures Core(n)
  {
    forall u | u in n.th ensures ThreadOk(n, n.th[u]) { assert ThreadOk(m, m.th[u]); }
  }

  lemma WakeKeeps<T>(s: State<T>)
    requires Core(s) && s.Typed() && s.cur.None? && SlotOk(s.cur, s.th, Cur) && SlotOk(s.wait, s.th, Slot)
    ensures Core(Woken(s)) && (Woken(s).wait.Some? ==> Woken(s).lock != 0)
  {
    if s.outQ == [] && s.wait.Some? {
      var n, w := Woken(s), s.wait.value;
      assert ThreadOk(s, s.th[w]);
      forall u | u in s.th ensures !s.th[u].phase.Inside? { assert ThreadOk(s, s.th[u]); }
      Takeover(s, n, w, n.th[w]);
    }
  }

  lemma UnblockKeeps<T>(s: State<T>)
    requires Core(s) && s.Typed() && s.blk != [] && s.th[s.blk[0]].place == Blk
    ensures Core(UnblockedOne(s))
  {
    var n, t := UnblockedOne(s), s.blk[0];
    assert ThreadOk(s, s.th[t]);
    Quiet(s, n, t, n.th[t]);
    HolderStays(s, n, t, n.th[t]);
  }

  lemma BlockKeeps<T>(s: State<T>)
    requires Core(s) && s.Typed() && s.run != [] && s.th[s.run[0]].place == Run && MustBlock(s)
    ensures Core(BlockedOne(s))
  {
    var n, t := BlockedOne(s), s.run[0];
    assert ThreadOk(s, s.th[t]);
    Quiet(s, n, t, n.th[t]);
    HolderStays(s, n, t, n.th[t]);
  }

  lemma ResumeKeeps<T>(s: State<T>)
    requires Core(s) && s.Typed() && s.run != [] && s.th[s.run[0]].place == Run && !MustBlock(s)
    requires s.wait.Some? ==> s.lock != 0
    ensures Core(Resumed(s))
  {
    var n, t := Resumed(s), s.run[0];
    var i := s.th[t].(place := Cur);
    var p := s.(run := s.run[1..], cur := Some(t), th := s.th[t := i]);
    assert ThreadOk(s, s.th[t]);
    if s.th[t].reason == NONE || s.lock == s.th[t].tid {
      if s.lock == s.th[t].tid { NotTheHolder(s, t); }
      Quiet(s, p, t, i);
      HolderStays(s, p, t, i);
      assert n == p;
    } else {
      OwnerIsAlone(s, t);
      Takeover(s, n, t, n.th[t]);
      assert Holds(n, t);
    }
  }

  // ----- every run -----

  lemma {:induction false} UnblockedKeeps<T>(s: State<T>)
    requires Inv(s) && s.Typed() && (s.wait.Some? ==> s.lock != 0)
    ensures Inv(Unblocked(s)) && Unblocked(s).cur == s.cur && Unblocked(s).lock == s.lock && Unblocked(s).wait == s.wait
    ensures s.lock == 0 ==> Unblocked(s).blk == []
    decreases |s.blk|
  {
    if s.lock == 0 && s.blk != [] {
      var t := s.blk[0];
      assert ThreadOk(s, s.th[t]);
      UnblockPlaces(s);
      UnblockKeeps(s);
      UnblockedKeeps(UnblockedOne(s));
    }
  }

  lemma {:induction false} DispatchedKeeps<T>(s: State<T>)
    requires Inv(s) && s.Typed() && s.cur.None? && (s.wait.Some? ==> s.lock != 0)
    ensures Inv(Dispatched(s))
    decreases |s.run|
  {
    if s.run != [] {
      if MustBlock(s) {
        BlockPlaces(s);
        BlockKeeps(s);
        DispatchedKeeps(BlockedOne(s));
      } else {
        ResumePlaces(s);
        ResumeKeeps(s);
      }
    }
  }

  lemma StepKeeps<T>(s: State<T>, e: Event<T>)
    requires Inv(s) && s.Typed() && Enabled(s, e)
    ensures Inv(Next(s, e))
  {
    match e
    case Fork(t) => ForkPlaces(s, t, Thread(s.nextTid, NONE, Outside, 0, Run)); ForkKeeps(s, t);
    case Tick => TickPlaces(s); TickKeeps(s);
    case Request => RequestPlaces(s); RequestKeeps(s);
    case Put(ch) => PutKeeps(s, ch);
    case Drain(n) => DrainKeeps(s, n);
    case Wait(t) => WaitStep(s, t);
    case Print(n, t) => PrintStep(s, n, t);
    case Exit => ExitPlaces(s); ExitKeeps(s);
    case Pass => PassStep(s);
  }

  /** The block that a fork in the event uses. */
  function BlockOf<T(==)>(e: Event<T>): set<T> {
    match e case Fork(t) => {t} case Wait(t) => {t} case Print(_, t) => {t} case _ => {}
  }

  lemma {:induction false} UnblockedBlocks<T>(s: State<T>)
    requires s.Typed()
    ensures Unblocked(s).th.Keys == s.th.Keys
    decreases |s.blk|
  {
    if s.lock == 0 && s.blk != [] && s.th[s.blk[0]].reason == STDIO { UnblockedBlocks(UnblockedOne(s)); }
  }

  lemma {:induction false} DispatchedBlocks<T>(s: State<T>)
    requires s.Typed()
    ensures Dispatched(s).th.Keys == s.th.Keys
    decreases |s.run|
  {
    if s.run != [] && MustBlock(s) { DispatchedBlocks(BlockedOne(s)); }
  }

  /** Only forks bring new blocks into use. */
  lemma StepBlocks<T>(s: State<T>, e: Event<T>)
    requires s.Typed() && Enabled(s, e)
    ensures s.th.Keys <= Next(s, e).th.Keys <= s.th.Keys + BlockOf(e)
  {
    if e.Pass? {
      UnblockedBlocks(Woken(s));
      DispatchedBlocks(Unblocked(Woken(s)));
    }
  }

  /** A fork keeps the invariant if and only if it does not use up the last tid: the next thread would have tid 0. */
  lemma ForkKeepsIff<T>(s: State<T>, t: T)
    requires Inv(s) && CanAlloc(s, t)
    ensures Inv(Forked(s, t)) <==> s.nextTid < TWO32 - 1
  {
    if s.nextTid < TWO32 - 1 {
      ForkPlaces(s, t, Thread(s.nextTid, NONE, Outside, 0, Run));
      ForkKeeps(s, t);
    }
  }

  lemma WaitStep<T>(s: State<T>, t: T)
    requires Inv(s) && s.Typed() && Enabled(s, Wait(t))
    ensures Inv(Waited(s, t)) && s.wait.None?
  {
    if s.outQ != [] { ForkPlaces(s, t, Thread(s.nextTid, NONE, Outside, 0, Run)); }
    WaitKeeps(s, t);
    WaitPlaces(s, t);
  }

  lemma PrintStep<T>(s: State<T>, k: nat, t: T)
    requires Inv(s) && s.Typed() && Enabled(s, Print(k, t))
    ensures Inv(Next(s, Print(k, t)))
  {
    if k < |s.outQ| { ForkPlaces(Drained(s, k), t, Thread(s.nextTid, STDIO, Printer, 0, Run)); }
    PrintKeeps(s, k, t);
    ExitPlaces(Printed(s, k, t));
  }

  /** What a pass has reached when it enters the dispatch loop. */
  ghost predicate Settled<T>(s: State<T>) {
    Inv(s) && s.Typed() && s.cur.None? && (s.wait.Some? ==> s.lock != 0) && (s.lock == 0 ==> s.blk == [])
  }

  lemma Settle<T>(s: State<T>)
    requires Inv(s) && s.Typed() && s.cur.None?
    ensures Settled(Unblocked(Woken(s))) && Unblocked(Woken(s)).wait == Woken(s).wait
  {
    WakePlaces(s);
    WakeKeeps(s);
    UnblockedKeeps(Woken(s));
  }

  lemma PassStep<T>(s: State<T>)
    requires Inv(s) && s.Typed() && s.cur.None?
    ensures Inv(Next(s, Pass))
  {
    Settle(s);
    DispatchedKeeps(Unblocked(Woken(s)));
  }

  /** Nothing forked yet. */
  function Boot<T(==)>(): State<T> { State([], [], [], None, None, 0, 1, [], [], map[], 0) }

  /** `ss` are the states of a run in which the events `es` happened. */
  ghost predicate IsRun<T>(ss: seq<State<T>>, es: seq<Event<T>>) {
    && |ss| == |es| + 1 && ss[0] == Boot()
    && forall k :: 0 <= k < |es| ==> ss[k].Typed() && Enabled(ss[k], es[k]) && ss[k + 1] == Next(ss[k], es[k])
  }

  lemma BootKeeps<T>()
    ensures Inv(Boot<T>())
  {
  }

  lemma {:induction false} RunKeeps<T>(ss: seq<State<T>>, es: seq<Event<T>>, k: nat)
    requires IsRun(ss, es) && k < |ss|
    ensures Inv(ss[k])
  {
    if k == 0 {
      BootKeeps<T>();
    } else {
      RunKeeps(ss, es, k - 1);
      StepKeeps(ss[k - 1], es[k - 1]);
    }
  }

  // ----- what the invariant means -----

  /** At most one thread is in the printing section, and the lock has its tid. */
  lemma MutualExclusion<T>(ss: seq<State<T>>, es: seq<Event<T>>, k: nat, t: T, u: T)
    requires IsRun(ss, es) && k < |ss| && t in ss[k].th && u in ss[k].th
    requires ss[k].th[t].phase == Inside && ss[k].th[u].phase == Inside
    ensures t == u && ss[k].lock == ss[k].th[t].tid && ss[k].wait == None
  {
    RunKeeps(ss, es, k);
    assert ThreadOk(ss[k], ss[k].th[t]) && ThreadOk(ss[k], ss[k].th[u]);
  }

  /**
   * The wait slot is never overwritten: no thread can wait while it is taken, and only a pass that found nothing
   * left to print empties it.
   */
  lemma WaitSlotIsKept<T>(ss: seq<State<T>>, es: seq<Event<T>>, k: nat)
    requires IsRun(ss, es) && k < |es| && ss[k].wait.Some?
    ensures !es[k].Wait?
    ensures ss[k + 1].wait == ss[k].wait || (es[k].Pass? && ss[k].outQ == [] && ss[k + 1].wait == None)
  {
    var s, e := ss[k], es[k];
    RunKeeps(ss, es, k);
    if e.Wait? { WaitStep(s, e.t); }
    if e.Pass? {
      Settle(s);
      DispatchedWaits(Unblocked(Woken(s)));
    }
  }

  lemma {:induction false} DispatchedWaits<T>(s: State<T>)
    requires s.Typed()
    ensures Dispatched(s).wait == s.wait
    decreases |s.run|
  {
    if s.run != [] && MustBlock(s) { DispatchedWaits(BlockedOne(s)); }
  }

  /** The characters of one printing section leave the UART in one piece. */
  lemma SectionsAreContiguous<T>(ss: seq<State<T>>, es: seq<Event<T>>, m: nat, i: nat, j: nat, k: nat)
    requires IsRun(ss, es) && m < |ss| && i < j < k < |ss[m].uart| && ss[m].uart[i].section == ss[m].uart[k].section
    ensures ss[m].uart[j].section == ss[m].uart[i].section
  {
    RunKeeps(ss, es, m);
    var q := ss[m].uart + ss[m].outQ;
    assert q[i].section <= q[j].section <= q[k].section;
  }

  /** The character an event prints, with the section of the thread that prints it. */
  function GlyphOf<T(==)>(s: State<T>, e: Event<T>): seq<Glyph>
    requires s.Typed() && Enabled(s, e)
  {
    if e.Put? then [Glyph(s.th[s.cur.value].section, e.ch)] else []
  }

  /** How many characters an event sends to the UART. */
  function Sending<T>(e: Event<T>): nat { match e case Drain(n) => n case Print(n, _) => n case _ => 0 }

  lemma {:induction false} UnblockedOutput<T>(s: State<T>)
    requires s.Typed()
    ensures Unblocked(s).uart == s.uart && Unblocked(s).outQ == s.outQ
    decreases |s.blk|
  {
    if s.lock == 0 && s.blk != [] && s.th[s.blk[0]].reason == STDIO { UnblockedOutput(UnblockedOne(s)); }
  }

  lemma {:induction false} DispatchedOutput<T>(s: State<T>)
    requires s.Typed()
    ensures Dispatched(s).uart == s.uart && Dispatched(s).outQ == s.outQ
    decreases |s.run|
  {
    if s.run != [] && MustBlock(s) { DispatchedOutput(BlockedOne(s)); }
  }

  lemma StepOutput<T>(s: State<T>, e: Event<T>)
    requires s.Typed() && Enabled(s, e)
    ensures Next(s, e).uart + Next(s, e).outQ == s.uart + s.outQ + GlyphOf(s, e)
    ensures |Next(s, e).uart| == |s.uart| + Sending(e)
  {
    var n := Next(s, e);
    match e
    case Pass =>
      UnblockedOutput(Woken(s));
      DispatchedOutput(Unblocked(Woken(s)));
    case Drain(k) => assert s.outQ == s.outQ[..k] + s.outQ[k..];
    case Print(k, _) => assert s.outQ == s.outQ[..k] + s.outQ[k..];
    case _ =>
  }

  /** What the threads have printed in the first `k` events, in order. */
  function PrintedIn<T(==)>(ss: seq<State<T>>, es: seq<Event<T>>, k: nat): seq<Glyph>
    requires IsRun(ss, es) && k <= |es|
  {
    if k == 0 then [] else PrintedIn(ss, es, k - 1) + GlyphOf(ss[k - 1], es[k - 1])
  }

  /** Nothing is lost, invented or reordered: what was sent, followed by what is queued, is what was printed. */
  lemma {:induction false} OutputIsWhatWasPrinted<T>(ss: seq<State<T>>, es: seq<Event<T>>, k: nat)
    requires IsRun(ss, es) && k <= |es|
    ensures ss[k].uart + ss[k].outQ == PrintedIn(ss, es, k)
    ensures k < |es| ==> |ss[k + 1].uart| == |ss[k].uart| + Sending(es[k])
  {
    if k > 0 {
      OutputIsWhatWasPrinted(ss, es, k - 1);
      StepOutput(ss[k - 1], es[k - 1]);
    }
    if k < |es| { StepOutput(ss[k], es[k]); }
  }

  lemma {:induction false} UnblockedSection<T>(s: State<T>, t: T)
    requires s.Typed()
    ensures var n := Unblocked(s);
      n.sections == s.sections && n.th.Keys == s.th.Keys
      && (t in s.th ==> n.th[t].phase == s.th[t].phase && n.th[t].section == s.th[t].section)
    decreases |s.blk|
  {
    if s.lock == 0 && s.blk != [] && s.th[s.blk[0]].reason == STDIO { UnblockedSection(UnblockedOne(s), t); }
  }

  /** Thread `t` is in a section afterwards: the one it was in, or one with a new number. */
  ghost predicate SectionOk<T>(s: State<T>, n: State<T>, t: T) {
    t in n.th && n.th[t].phase.Inside? ==>
      if t in s.th && s.th[t].phase.Inside? then n.th[t].section == s.th[t].section
      else n.th[t].section == n.sections == s.sections + 1
  }

  lemma {:induction false} DispatchedSection<T>(s: State<T>, t: T)
    requires s.Typed()
    ensures SectionOk(s, Dispatched(s), t)
    decreases |s.run|
  {
    if s.run != [] && MustBlock(s) { DispatchedSection(BlockedOne(s), t); }
  }

  lemma StepSection<T>(s: State<T>, e: Event<T>, t: T)
    requires Inv(s) && s.Typed() && Enabled(s, e)
    ensures SectionOk(s, Next(s, e), t)
  {
    if e.Pass? { PassSection(s, t); } else { OtherSection(s, e, t); }
  }

  lemma OtherSection<T>(s: State<T>, e: Event<T>, t: T)
    requires s.Typed() && Enabled(s, e) && !e.Pass?
    ensures SectionOk(s, Next(s, e), t)
  {
  }

  lemma PassSection<T>(s: State<T>, t: T)
    requires Inv(s) && s.Typed() && s.cur.None?
    ensures SectionOk(s, Next(s, Pass), t)
  {
    if s.wait.Some? { assert ThreadOk(s, s.th[s.wait.value]); }
    UnblockedSection(Woken(s), t);
    DispatchedSection(Unblocked(Woken(s)), t);
  }

  /** A thread that gets in starts a section with a new number, and keeps it until it leaves. */
  lemma EnteringStartsASection<T>(ss: seq<State<T>>, es: seq<Event<T>>, k: nat, t: T)
    requires IsRun(ss, es) && k < |es| && t in ss[k + 1].th && ss[k + 1].th[t].phase == Inside
    ensures var s, n := ss[k], ss[k + 1];
      if t in s.th && s.th[t].phase == Inside then n.th[t].section == s.th[t].section
      else forall i :: 0 <= i < |n.uart + n.outQ| ==> (n.uart + n.outQ)[i].section < n.th[t].section
  {
    RunKeeps(ss, es, k);
    StepSection(ss[k], es[k], t);
    StepOutput(ss[k], es[k]);
  }

  /** A lock that is taken names a thread that is running or in the run queue. */
  lemma LockNamesARunnableThread<T>(ss: seq<State<T>>, es: seq<Event<T>>, k: nat)
    requires IsRun(ss, es) && k < |ss| && ss[k].lock != 0
    ensures exists t :: t in ss[k].th && ss[k].th[t].tid == ss[k].lock && (t in ss[k].run || ss[k].cur == Some(t))
  {
    RunKeeps(ss, es, k);
    var t :| t in ss[k].th && Holds(ss[k], t);
  }

  /** A pass with a live thread dispatches one. */
  lemma PassDispatches<T>(ss: seq<State<T>>, es: seq<Event<T>>, k: nat)
    requires IsRun(ss, es) && k < |es| && es[k] == Pass
    requires ss[k].run != [] || ss[k].blk != [] || ss[k].wait.Some?
    ensures ss[k + 1].cur.Some?
  {
    RunKeeps(ss, es, k);
    Settle(ss[k]);
    SettleKeepsLive(ss[k]);
    SettledDispatches(Unblocked(Woken(ss[k])));
  }

  ghost predicate Live<T>(s: State<T>) { s.run != [] || s.blk != [] || s.wait.Some? }

  lemma SettleKeepsLive<T>(s: State<T>)
    requires s.Typed() && Live(s)
    ensures Woken(s).Typed() && Live(Unblocked(Woken(s)))
  {
    UnblockedSize(Woken(s));
  }

  lemma SettledDispatches<T>(s: State<T>)
    requires Settled(s) && Live(s)
    ensures Dispatched(s).cur.Some?
  {
    if s.lock != 0 {
      var h :| h in s.th && Holds(s, h);
      DispatchReaches(s, h);
    }
  }

  lemma {:induction false} UnblockedSize<T>(s: State<T>)
    requires s.Typed()
    ensures |Unblocked(s).run| + |Unblocked(s).blk| == |s.run| + |s.blk| && Unblocked(s).wait == s.wait
    decreases |s.blk|
  {
    if s.lock == 0 && s.blk != [] && s.th[s.blk[0]].reason == STDIO { UnblockedSize(UnblockedOne(s)); }
  }

  /** The dispatch loop stops at the holder of the lock at the latest. */
  lemma {:induction false} DispatchReaches<T>(s: State<T>, h: T)
    requires s.Typed() && s.cur.None? && h in s.run && s.lock == s.th[h].tid
    ensures Dispatched(s).cur.Some?
    decreases |s.run|
  {
    if MustBlock(s) { DispatchReaches(BlockedOne(s), h); }
  }

  /** Thread `t` is at position `i` of the run queue and blocked on nothing. */
  ghost predicate Ready<T>(s: State<T>, t: T, i: nat) {
    i < |s.run| && s.run[i] == t && t in s.th && s.th[t].reason == NONE && s.th[t].place == Run
  }

  lemma {:induction false} DispatchAdvances<T>(s: State<T>, t: T, i: nat)
    requires s.Typed() && Placed(s) && s.cur.None? && Ready(s, t, i)
    ensures Dispatched(s).cur == Some(t) || exists j | 0 <= j < i :: Ready(Dispatched(s), t, j)
    decreases |s.run|
  {
    if i > 0 {
      if MustBlock(s) {
        BlockPlaces(s);
        assert Ready(BlockedOne(s), t, i - 1);
        DispatchAdvances(BlockedOne(s), t, i - 1);
      } else {
        assert Ready(Resumed(s), t, i - 1);
      }
    }
  }

  lemma {:induction false} UnblockedAdvances<T>(s: State<T>, t: T, i: nat)
    requires s.Typed() && Placed(s) && Ready(s, t, i)
    ensures Ready(Unblocked(s), t, i)
    decreases |s.blk|
  {
    if s.lock == 0 && s.blk != [] && s.th[s.blk[0]].reason == STDIO {
      UnblockPlaces(s);
      UnblockedAdvances(UnblockedOne(s), t, i);
    }
  }

  lemma PassAdvances<T>(s: State<T>, t: T, i: nat)
    requires Inv(s) && s.Typed() && s.cur.None? && Ready(s, t, i)
    ensures Next(s, Pass).cur == Some(t) || exists j | 0 <= j < i :: Ready(Next(s, Pass), t, j)
  {
    Settle(s);
    WakeAdvances(s, t, i);
    UnblockedAdvances(Woken(s), t, i);
    DispatchAdvances(Unblocked(Woken(s)), t, i);
  }

  lemma WakeAdvances<T>(s: State<T>, t: T, i: nat)
    requires s.Typed() && Placed(s) && Ready(s, t, i)
    ensures Woken(s).Typed() && Placed(Woken(s)) && Ready(Woken(s), t, i)
  {
    WakePlaces(s);
  }

  lemma OthersAdvance<T>(s: State<T>, e: Event<T>, t: T, i: nat)
    requires Placed(s) && s.Typed() && Enabled(s, e) && !e.Pass? && Ready(s, t, i)
    ensures Ready(Next(s, e), t, i)
  {
    assert s.cur != Some(t) && !CanAlloc(s, t);
    match e
    case Fork(_) | Wait(_) | Print(_, _) => OthersFork(s, e, t, i);
    case _ =>
  }

  lemma OthersFork<T>(s: State<T>, e: Event<T>, t: T, i: nat)
    requires s.Typed() && Enabled(s, e) && (e.Fork? || e.Wait? || e.Print?) && Ready(s, t, i)
    requires s.cur != Some(t) && !CanAlloc(s, t)
    ensures Ready(Next(s, e), t, i)
  {
  }

  function Passes<T>(es: seq<Event<T>>): nat {
    if es == [] then 0 else (if es[0].Pass? then 1 else 0) + Passes(es[1..])
  }

  /** An unblocked thread at position `i` of the run queue runs before `i + 1` passes are over. */
  lemma {:induction false} ReadyThreadsRun<T>(ss: seq<State<T>>, es: seq<Event<T>>, k: nat, m: nat, t: T, i: nat)
    requires IsRun(ss, es) && k <= m <= |es| && Ready(ss[k], t, i) && Passes(es[k..m]) >= i + 1
    ensures exists j | k < j <= m :: ss[j].cur == Some(t)
    decreases m - k
  {
    RunKeeps(ss, es, k);
    assert es[k..m][1..] == es[k + 1..m];
    if es[k].Pass? {
      PassAdvances(ss[k], t, i);
      if ss[k + 1].cur != Some(t) {
        var j :| 0 <= j < i && Ready(ss[k + 1], t, j);
        ReadyThreadsRun(ss, es, k + 1, m, t, j);
      }
    } else {
      OthersAdvance(ss[k], es[k], t, i);
      ReadyThreadsRun(ss, es, k + 1, m, t, i);
    }
  }

  // ----- each block in exactly one place, counted -----

  function Opt<T(==)>(o: Option<T>): multiset<T> {
    match o case None => multiset{} case Some(t) => multiset{t}
  }

  lemma {:induction false} CountOnce<T>(q: seq<T>, t: T)
    requires forall i, j :: 0 <= i < j < |q| ==> q[i] != q[j]
    ensures multiset(q)[t] == if t in q then 1 else 0
  {
    if q != [] {
      var n := |q| - 1;
      CountOnce(q[..n], t);
      assert q == q[..n] + [q[n]];
    }
  }

  /** Run queue, block queue, free queue, current thread and wait slot hold every block once; live tids differ. */
  lemma EveryBlockIsPlacedOnce<T>(ss: seq<State<T>>, es: seq<Event<T>>, k: nat)
    requires IsRun(ss, es) && k < |ss|
    ensures var s := ss[k];
      multiset(s.run) + multiset(s.blk) + multiset(s.free) + Opt(s.cur) + Opt(s.wait) == multiset(s.th.Keys)
    ensures forall t :: t in ss[k].th ==> 0 < ss[k].th[t].tid
    ensures forall t, u :: t in ss[k].th && u in ss[k].th && ss[k].th[t].tid == ss[k].th[u].tid ==> t == u
  {
    var s := ss[k];
    RunKeeps(ss, es, k);
    forall t | t in s.th ensures 0 < s.th[t].tid { assert ThreadOk(s, s.th[t]); }
    var all := multiset(s.run) + multiset(s.blk) + multiset(s.free) + Opt(s.cur) + Opt(s.wait);
    forall t ensures all[t] == multiset(s.th.Keys)[t] {
      PlacedOnce(s, t);
    }
  }

  lemma PlacedOnce<T>(s: State<T>, t: T)
    requires Placed(s)
    ensures var all := multiset(s.run) + multiset(s.blk) + multiset(s.free) + Opt(s.cur) + Opt(s.wait);
      all[t] == if t in s.th then 1 else 0
  {
    CountOnce(s.run, t);
    CountOnce(s.blk, t);
    CountOnce(s.free, t);
    PlaceOf(s, t);
  }

  lemma PlaceOf<T>(s: State<T>, t: T)
    requires Placed(s)
    ensures t in s.run <==> t in s.th && s.th[t].place == Run
    ensures t in s.blk <==> t in s.th && s.th[t].place == Blk
    ensures t in s.free <==> t in s.th && s.th[t].place == Free
    ensures s.cur == Some(t) <==> t in s.th && s.th[t].place == Cur
    ensures s.wait == Some(t) <==> t in s.th && s.th[t].place == Slot
  {
  }
}
