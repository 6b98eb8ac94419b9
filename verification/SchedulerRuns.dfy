/**
 * Particular runs of the scheduler: a requester of the stdio lock that never gets it, with the exact condition for
 * getting it, and what happens once the tids have run out (preemptive-threads/preemptive-thread.c).
 */
module SchedulerRuns {
  import opened Machine
  import opened Scheduler

  /** Thread `b` asks for the lock and does not have it. */
  predicate Requests<T(==)>(s: State<T>, b: T) { b in s.th && s.th[b].phase == Requesting }

  /** `ss` are the states from `start` on in which the events `es` happened. */
  ghost predicate Path<T>(start: State<T>, ss: seq<State<T>>, es: seq<Event<T>>) {
    && |ss| == |es| + 1 && ss[0] == start
    && forall k :: 0 <= k < |es| ==> ss[k].Typed() && Enabled(ss[k], es[k]) && ss[k + 1] == Next(ss[k], es[k])
  }

  /** And `b` asks for the lock from state `from` on. */
  ghost predicate Starves<T>(start: State<T>, ss: seq<State<T>>, es: seq<Event<T>>, b: T, from: nat) {
    Path(start, ss, es) && forall k :: from <= k < |ss| ==> Requests(ss[k], b)
  }

  lemma Extended<T>(start: State<T>, ss: seq<State<T>>, es: seq<Event<T>>, e: Event<T>, n: State<T>, b: T, from: nat)
    returns (ss': seq<State<T>>, es': seq<Event<T>>)
    requires Starves(start, ss, es, b, from) && ss[|es|].Typed() && Enabled(ss[|es|], e) && n == Next(ss[|es|], e)
    requires from <= |ss| ==> Requests(n, b)
    ensures Starves(start, ss', es', b, from) && |ss'| == |ss| + 1 && ss'[|ss|] == n
  {
    ss', es' := ss + [n], es + [e];
    forall k | 0 <= k < |es'|
      ensures ss'[k].Typed() && Enabled(ss'[k], es'[k]) && ss'[k + 1] == Next(ss'[k], es'[k])
    {
      if k < |es| { assert ss'[k] == ss[k] && ss'[k + 1] == ss[k + 1] && es'[k] == es[k]; }
    }
  }

  // ----- what the steps do -----

  /** The effect of each event but a pass on queues, slots, lock and output, in terms of the state before. */
  ghost predicate Did<T>(s: State<T>, e: Event<T>, n: State<T>)
    requires s.Typed() && Enabled(s, e)
  {
    match e
    case Fork(t) =>
      && n.run == s.run + [t] && n.free == (if s.free == [] then [] else s.free[1..]) && n.nextTid == s.nextTid + 1
      && t in n.th && n.th[t].tid == s.nextTid && n.th[t].reason == NONE && n.lock == s.lock && n.cur == s.cur
    case Tick => n.run == s.run + [s.cur.value] && n.cur == None && n.lock == s.lock && n.blk == s.blk
    case Request =>
      var c := s.cur.value;
      && c in n.th && n.th[c].reason == STDIO && n.run == s.run
      && if s.lock == 0 || s.lock == s.th[c].tid then n.lock == s.th[c].tid && n.cur == s.cur && n.blk == s.blk
         else n.lock == s.lock && n.cur == None && n.blk == s.blk + [c]
    case Put(ch) => n == s.(outQ := s.outQ + [Glyph(s.th[s.cur.value].section, ch)])
    case Drain(k) => n == s.(outQ := s.outQ[k..], uart := s.uart + s.outQ[..k])
    case Wait(t) =>
      var c := s.cur.value;
      && c in n.th && n.outQ == s.outQ && n.uart == s.uart
      && if s.outQ == [] then n.lock == 0 && n.cur == s.cur && n.th[c].reason == NONE && n.run == s.run
         else && n.cur == None && n.wait == Some(c) && n.run == s.run + [t] && n.nextTid == s.nextTid + 1
              && t in n.th && n.lock == n.th[t].tid == s.nextTid && n.th[t].reason == STDIO
    case Print(k, t) =>
      && n.uart == s.uart + s.outQ[..k] && n.outQ == s.outQ[k..] && n.cur == None
      && n.free != [] && n.free[0] == s.cur.value
      && if k == |s.outQ| then n.lock == 0 && n.run == s.run && n.free[1..] == s.free
         else n.run == s.run + [t] && t in n.th && n.lock == n.th[t].tid == s.nextTid && n.th[t].reason == STDIO
    case Exit => n.free == [s.cur.value] + s.free && n.cur == None && n.run == s.run && n.lock == s.lock
    case Pass => true
  }

  lemma StepDoes<T>(s: State<T>, e: Event<T>)
    requires Inv(s) && s.Typed() && Enabled(s, e)
    ensures Did(s, e, Next(s, e))
  {
    if e.Wait? && s.outQ != [] { ForkKeepsOther(s, e.t); }
    if e.Print? && e.n < |s.outQ| { ForkKeepsOther(s, e.t); }
  }

  lemma ForkKeepsOther<T>(s: State<T>, t: T)
    requires Placed(s) && CanAlloc(s, t) && s.cur.Some?
    ensures s.cur != Some(t)
  {
  }

  // ----- a requester that never gets the lock -----

  function Three<T(==)>(a: T, i: Thread, b: T, j: Thread, p: T, k: Thread): map<T, Thread> {
    map[a := i, b := j, p := k]
  }

  lemma Updates<T>(a: T, i: Thread, b: T, j: Thread, p: T, k: Thread, x: Thread)
    requires a != b && a != p && b != p
    ensures Three(a, i, b, j, p, k)[a := x] == Three(a, x, b, j, p, k)
    ensures Three(a, i, b, j, p, k)[b := x] == Three(a, i, b, x, p, k)
    ensures Three(a, i, b, j, p, k)[p := x] == Three(a, i, b, j, p, x)
  {
  }

  /** The printer `p` runs, `a` waits for it, and `b` is blocked. */
  function Starving<T(==)>(a: T, b: T, p: T, next: Word, uart: seq<Glyph>, sec: nat): State<T>
    requires next > 0
  {
    State([], [b], [], Some(p), Some(a), next - 1, next, [Glyph(sec, 'x')], uart,
          Three(a, Thread(1, STDIO, Waiting, sec, Slot), b, Thread(2, STDIO, Requesting, 0, Blk),
                p, Thread(next - 1, STDIO, Printer, 0, Cur)), sec)
  }

  /** Nothing is left to print and the printer is gone. */
  function Finished<T(==)>(a: T, b: T, p: T, next: Word, uart: seq<Glyph>, sec: nat): State<T>
    requires next > 0
  {
    State([], [b], [p], None, Some(a), 0, next, [], uart,
          Three(a, Thread(1, STDIO, Waiting, sec, Slot), b, Thread(2, STDIO, Requesting, 0, Blk),
                p, Thread(next - 1, STDIO, Dead, 0, Free)), sec)
  }

  /** `a` runs outside of a section, and the unblocked `b` is behind it. */
  function Ahead<T(==)>(a: T, b: T, p: T, next: Word, uart: seq<Glyph>, sec: nat): State<T>
    requires next > 0
  {
    State([b], [], [p], Some(a), None, 0, next, [], uart,
          Three(a, Thread(1, NONE, Outside, sec, Cur), b, Thread(2, STDIO, Requesting, 0, Run),
                p, Thread(next - 1, STDIO, Dead, 0, Free)), sec)
  }

  /** `a` has the lock again, and has printed `out`. */
  function Again<T(==)>(a: T, b: T, p: T, next: Word, uart: seq<Glyph>, sec: nat, out: seq<Glyph>): State<T>
    requires next > 0
  {
    State([b], [], [p], Some(a), None, 1, next, out, uart,
          Three(a, Thread(1, STDIO, Inside, sec, Cur), b, Thread(2, STDIO, Requesting, 0, Run),
                p, Thread(next - 1, STDIO, Dead, 0, Free)), sec)
  }

  /** `a` waits for a new printer, which is in the run queue behind `b`. */
  function Handed<T(==)>(a: T, b: T, p: T, next: Word, uart: seq<Glyph>, sec: nat): State<T>
    requires next > 0
  {
    State([b, p], [], [], None, Some(a), next - 1, next, [Glyph(sec, 'x')], uart,
          Three(a, Thread(1, STDIO, Waiting, sec, Slot), b, Thread(2, STDIO, Requesting, 0, Run),
                p, Thread(next - 1, STDIO, Printer, 0, Run)), sec)
  }

  lemma PrintIt<T>(a: T, b: T, p: T, next: Word, uart: seq<Glyph>, sec: nat)
    requires a != b && a != p && b != p && next > 3
    ensures var s := Starving(a, b, p, next, uart, sec);
      && s.Typed() && Enabled(s, Print(1, p))
      && Next(s, Print(1, p)) == Finished(a, b, p, next, uart + [Glyph(sec, 'x')], sec)
  {
    var s := Starving(a, b, p, next, uart, sec);
    Updates(a, s.th[a], b, s.th[b], p, s.th[p], Thread(next - 1, STDIO, Dead, 0, Free));
  }

  lemma WakeIt<T>(a: T, b: T, p: T, next: Word, uart: seq<Glyph>, sec: nat)
    requires a != b && a != p && b != p && next > 3
    ensures var s := Finished(a, b, p, next, uart, sec);
      s.Typed() && Enabled(s, Pass) && Next(s, Pass) == Ahead(a, b, p, next, uart, sec)
  {
    var s := Finished(a, b, p, next, uart, sec);
    var woken := Thread(1, NONE, Outside, sec, Run);
    Updates(a, s.th[a], b, s.th[b], p, s.th[p], woken);
    var u := Woken(s);
    assert u.run == [a];
    Updates(a, woken, b, s.th[b], p, s.th[p], Thread(2, STDIO, Requesting, 0, Run));
    var v := UnblockedOne(u);
    assert v.run == [a, b] && v.blk == [] && Unblocked(u) == v;
    Updates(a, woken, b, v.th[b], p, s.th[p], Thread(1, NONE, Outside, sec, Cur));
    assert v.run[1..] == [b] && Dispatched(v) == Switched(v);
  }

  lemma TakeIt<T>(a: T, b: T, p: T, next: Word, uart: seq<Glyph>, sec: nat)
    requires a != b && a != p && b != p && next > 3
    ensures var s := Ahead(a, b, p, next, uart, sec);
      s.Typed() && Enabled(s, Event.Request) && Next(s, Event.Request) == Again(a, b, p, next, uart, sec + 1, [])
  {
    var s := Ahead(a, b, p, next, uart, sec);
    Updates(a, s.th[a], b, s.th[b], p, s.th[p], Thread(1, STDIO, Outside, sec, Cur));
    Updates(a, Thread(1, STDIO, Outside, sec, Cur), b, s.th[b], p, s.th[p], Thread(1, STDIO, Inside, sec + 1, Cur));
  }

  lemma PutIt<T>(a: T, b: T, p: T, next: Word, uart: seq<Glyph>, sec: nat)
    requires a != b && a != p && b != p && next > 3
    ensures var s := Again(a, b, p, next, uart, sec, []);
      && s.Typed() && Enabled(s, Event.Put('x'))
      && Next(s, Event.Put('x')) == Again(a, b, p, next, uart, sec, [Glyph(sec, 'x')])
  {
  }

  lemma HandIt<T>(a: T, b: T, p: T, next: Word, uart: seq<Glyph>, sec: nat)
    requires a != b && a != p && b != p && 3 < next < TWO32 - 1
    ensures var s := Again(a, b, p, next, uart, sec, [Glyph(sec, 'x')]);
      s.Typed() && Enabled(s, Event.Wait(p)) && Next(s, Event.Wait(p)) == Handed(a, b, p, next + 1, uart, sec)
  {
    var s := Again(a, b, p, next, uart, sec, [Glyph(sec, 'x')]);
    var i := Thread(1, STDIO, Waiting, sec, Slot);
    Updates(a, s.th[a], b, s.th[b], p, s.th[p], i);
    Updates(a, i, b, s.th[b], p, s.th[p], Thread(next, STDIO, Printer, 0, Run));
    assert s.free[1..] == [] && s.run + [p] == [b, p];
  }

  lemma BlockIt<T>(a: T, b: T, p: T, next: Word, uart: seq<Glyph>, sec: nat)
    requires a != b && a != p && b != p && next > 3
    ensures var s := Handed(a, b, p, next, uart, sec);
      s.Typed() && Enabled(s, Pass) && Next(s, Pass) == Starving(a, b, p, next, uart, sec)
  {
    var s := Handed(a, b, p, next, uart, sec);
    assert Unblocked(Woken(s)) == s && MustBlock(s);
    var i := Thread(2, STDIO, Requesting, 0, Blk);
    Updates(a, s.th[a], b, s.th[b], p, s.th[p], i);
    var u := BlockedOne(s);
    assert u.run == [p] && u.blk == [b];
    Updates(a, s.th[a], b, i, p, s.th[p], Thread(next - 1, STDIO, Printer, 0, Cur));
    assert u.run[1..] == [] && Dispatched(u) == Resumed(u);
  }

  /** One turn: `a` gets the lock again, and `b` does not. */
  lemma Turn<T>(a: T, b: T, p: T, next: Word, uart: seq<Glyph>, sec: nat, from: nat,
                ss: seq<State<T>>, es: seq<Event<T>>)
    returns (ss': seq<State<T>>, es': seq<Event<T>>)
    requires a != b && a != p && b != p && 3 < next < TWO32 - 1
    requires Starves(Boot(), ss, es, b, from) && ss[|es|] == Starving(a, b, p, next, uart, sec)
    ensures Starves(Boot(), ss', es', b, from) && |es'| == |es| + 6
    ensures ss'[|es'|] == Starving(a, b, p, next + 1, uart + [Glyph(sec, 'x')], sec + 1)
  {
    ss', es' := HalfTurn(a, b, p, next, uart, sec, from, ss, es);
    var u, c := uart + [Glyph(sec, 'x')], sec + 1;
    PutIt(a, b, p, next, u, c);
    ss', es' := Extended(Boot(), ss', es', Event.Put('x'), Again(a, b, p, next, u, c, [Glyph(c, 'x')]), b, from);
    HandIt(a, b, p, next, u, c);
    ss', es' := Extended(Boot(), ss', es', Event.Wait(p), Handed(a, b, p, next + 1, u, c), b, from);
    BlockIt(a, b, p, next + 1, u, c);
    ss', es' := Extended(Boot(), ss', es', Pass, Starving(a, b, p, next + 1, u, c), b, from);
  }

  lemma HalfTurn<T>(a: T, b: T, p: T, next: Word, uart: seq<Glyph>, sec: nat, from: nat,
                    ss: seq<State<T>>, es: seq<Event<T>>)
    returns (ss': seq<State<T>>, es': seq<Event<T>>)
    requires a != b && a != p && b != p && 3 < next < TWO32 - 1
    requires Starves(Boot(), ss, es, b, from) && ss[|es|] == Starving(a, b, p, next, uart, sec)
    ensures Starves(Boot(), ss', es', b, from) && |es'| == |es| + 3
    ensures ss'[|es'|] == Again(a, b, p, next, uart + [Glyph(sec, 'x')], sec + 1, [])
  {
    var u := uart + [Glyph(sec, 'x')];
    PrintIt(a, b, p, next, uart, sec);
    ss', es' := Extended(Boot(), ss, es, Print(1, p), Finished(a, b, p, next, u, sec), b, from);
    WakeIt(a, b, p, next, u, sec);
    ss', es' := Extended(Boot(), ss', es', Pass, Ahead(a, b, p, next, u, sec), b, from);
    TakeIt(a, b, p, next, u, sec);
    ss', es' := Extended(Boot(), ss', es', Event.Request, Again(a, b, p, next, u, sec + 1, []), b, from);
  }

  function Two<T(==)>(a: T, i: Thread, b: T, j: Thread): map<T, Thread> { map[a := i, b := j] }

  lemma Updates2<T>(a: T, i: Thread, b: T, j: Thread, x: Thread)
    requires a != b
    ensures Two(a, i, b, j)[a := x] == Two(a, x, b, j) && Two(a, i, b, j)[b := x] == Two(a, i, b, x)
  {
  }

  /** The two threads are forked, and `a` runs. */
  function Started<T(==)>(a: T, b: T): State<T> {
    State([b], [], [], Some(a), None, 0, 3, [], [],
          Two(a, Thread(1, NONE, Outside, 0, Cur), b, Thread(2, NONE, Outside, 0, Run)), 0)
  }

  lemma Start<T>(a: T, b: T, from: nat) returns (ss: seq<State<T>>, es: seq<Event<T>>)
    requires a != b && from > 3
    ensures Starves(Boot(), ss, es, b, from) && |es| == 3 && ss[3] == Started(a, b)
  {
    var i, j := Thread(1, NONE, Outside, 0, Run), Thread(2, NONE, Outside, 0, Run);
    ss, es := [Boot()], [];
    ss, es := Extended(Boot(), ss, es, Event.Fork(a), Forked(Boot(), a), b, from);
    var s := Forked(Forked(Boot<T>(), a), b);
    ss, es := Extended(Boot(), ss, es, Event.Fork(b), s, b, from);
    assert s.th == Two(a, i, b, j) && s.run == [a, b];
    Updates2(a, i, b, j, i.(place := Cur));
    assert s.run[1..] == [b] && Unblocked(Woken(s)) == s && Dispatched(s) == Switched(s);
    ss, es := Extended(Boot(), ss, es, Pass, Started(a, b), b, from);
  }

  /** `a` has entered its section and printed. */
  function Printing<T(==)>(a: T, b: T, out: seq<Glyph>): State<T> {
    State([b], [], [], Some(a), None, 1, 3, out, [],
          Two(a, Thread(1, STDIO, Inside, 1, Cur), b, Thread(2, NONE, Outside, 0, Run)), 1)
  }

  lemma Enter<T>(a: T, b: T)
    requires a != b
    ensures var s := Started(a, b);
      s.Typed() && Enabled(s, Event.Request) && Next(s, Event.Request) == Printing(a, b, [])
    ensures var s := Printing(a, b, []);
      s.Typed() && Enabled(s, Event.Put('x')) && Next(s, Event.Put('x')) == Printing(a, b, [Glyph(1, 'x')])
  {
    var s := Started(a, b);
    Updates2(a, s.th[a], b, s.th[b], Thread(1, STDIO, Outside, 0, Cur));
    Updates2(a, Thread(1, STDIO, Outside, 0, Cur), b, s.th[b], Thread(1, STDIO, Inside, 1, Cur));
  }

  /** `a` waits for the printer; `run`, `blk` and `cur` say where `b` is, `i` its record. */
  function Queued<T(==)>(a: T, b: T, p: T, run: seq<T>, blk: seq<T>, cur: Option<T>, i: Thread): State<T> {
    State(run, blk, [], cur, Some(a), 3, 4, [Glyph(1, 'x')], [],
          Three(a, Thread(1, STDIO, Waiting, 1, Slot), b, i, p, Thread(3, STDIO, Printer, 0, Run)), 1)
  }

  lemma FirstWait<T>(a: T, b: T, p: T)
    requires a != b && a != p && b != p
    ensures var s := Printing(a, b, [Glyph(1, 'x')]);
      && s.Typed() && Enabled(s, Event.Wait(p))
      && Next(s, Event.Wait(p)) == Queued(a, b, p, [b, p], [], None, Thread(2, NONE, Outside, 0, Run))
  {
    var s := Printing(a, b, [Glyph(1, 'x')]);
    Updates2(a, s.th[a], b, s.th[b], Thread(1, STDIO, Waiting, 1, Slot));
    assert s.run + [p] == [b, p];
  }

  lemma FirstRequest<T>(a: T, b: T, p: T)
    requires a != b && a != p && b != p
    ensures var s := Queued(a, b, p, [b, p], [], None, Thread(2, NONE, Outside, 0, Run));
      && s.Typed() && Enabled(s, Pass)
      && Next(s, Pass) == Queued(a, b, p, [p], [], Some(b), Thread(2, NONE, Outside, 0, Cur))
    ensures var s := Queued(a, b, p, [p], [], Some(b), Thread(2, NONE, Outside, 0, Cur));
      && s.Typed() && Enabled(s, Event.Request)
      && Next(s, Event.Request) == Queued(a, b, p, [p], [b], None, Thread(2, STDIO, Requesting, 0, Blk))
  {
    var s := Queued(a, b, p, [b, p], [], None, Thread(2, NONE, Outside, 0, Run));
    Updates(a, s.th[a], b, s.th[b], p, s.th[p], Thread(2, NONE, Outside, 0, Cur));
    assert s.run[1..] == [p] && Unblocked(Woken(s)) == s && Dispatched(s) == Switched(s);
    Updates(a, s.th[a], b, Thread(2, NONE, Outside, 0, Cur), p, s.th[p], Thread(2, STDIO, Requesting, 0, Blk));
  }

  lemma FirstPrinter<T>(a: T, b: T, p: T)
    requires a != b && a != p && b != p
    ensures var s := Queued(a, b, p, [p], [b], None, Thread(2, STDIO, Requesting, 0, Blk));
      s.Typed() && Enabled(s, Pass) && Next(s, Pass) == Starving(a, b, p, 4, [], 1)
  {
    var s := Queued(a, b, p, [p], [b], None, Thread(2, STDIO, Requesting, 0, Blk));
    Updates(a, s.th[a], b, s.th[b], p, s.th[p], Thread(3, STDIO, Printer, 0, Cur));
    assert s.run[1..] == [] && Unblocked(Woken(s)) == s && Dispatched(s) == Resumed(s);
  }

  lemma FirstTurn<T>(a: T, b: T, p: T) returns (ss: seq<State<T>>, es: seq<Event<T>>)
    requires a != b && a != p && b != p
    ensures Starves(Boot(), ss, es, b, 8) && |es| == 9 && ss[9] == Starving(a, b, p, 4, [], 1)
  {
    ss, es := Start(a, b, 8);
    Enter(a, b);
    ss, es := Extended(Boot(), ss, es, Event.Request, Printing(a, b, []), b, 8);
    ss, es := Extended(Boot(), ss, es, Event.Put('x'), Printing(a, b, [Glyph(1, 'x')]), b, 8);
    FirstWait(a, b, p);
    ss, es := Extended(Boot(), ss, es, Event.Wait(p),
                       Queued(a, b, p, [b, p], [], None, Thread(2, NONE, Outside, 0, Run)), b, 8);
    FirstRequest(a, b, p);
    ss, es := Extended(Boot(), ss, es, Pass, Queued(a, b, p, [p], [], Some(b), Thread(2, NONE, Outside, 0, Cur)), b, 8);
    ss, es := Extended(Boot(), ss, es, Event.Request,
                       Queued(a, b, p, [p], [b], None, Thread(2, STDIO, Requesting, 0, Blk)), b, 8);
    FirstPrinter(a, b, p);
    ss, es := Extended(Boot(), ss, es, Pass, Starving(a, b, p, 4, [], 1), b, 8);
  }

  /**
   * No fairness: there are runs of any length, up to the number of tids, in which one thread prints `n + 1`
   * sections while another asks for the lock all the time.
   */
  lemma {:induction false} RequestersCanStarve<T>(a: T, b: T, p: T, n: nat)
    returns (ss: seq<State<T>>, es: seq<Event<T>>)
    requires a != b && a != p && b != p && n < TWO32 - 5
    ensures IsRun(ss, es) && |es| == 9 + 6 * n && forall k :: 8 <= k < |ss| ==> Requests(ss[k], b)
    ensures ss[|es|].sections == n + 1
  {
    var uart;
    ss, es, uart := Turns(a, b, p, n);
  }

  lemma {:induction false} Turns<T>(a: T, b: T, p: T, n: nat)
    returns (ss: seq<State<T>>, es: seq<Event<T>>, uart: seq<Glyph>)
    requires a != b && a != p && b != p && n < TWO32 - 5
    ensures Starves(Boot(), ss, es, b, 8) && |es| == 9 + 6 * n && ss[|es|] == Starving(a, b, p, 4 + n, uart, n + 1)
  {
    if n == 0 {
      ss, es := FirstTurn(a, b, p);
      uart := [];
    } else {
      ss, es, uart := Turns(a, b, p, n - 1);
      ss, es := Turn(a, b, p, 3 + n, uart, n, 8, ss, es);
      uart := uart + [Glyph(n, 'x')];
    }
  }

  // ----- when a requester gets the lock -----

  /** Unblocking moves records only; with a free lock it empties the block queue. */
  lemma {:induction false} UnblockMoves<T>(s: State<T>, b: T)
    requires s.Typed() && b in s.th && forall i :: 0 <= i < |s.blk| ==> s.th[s.blk[i]].reason == STDIO
    ensures var u := Unblocked(s); u.lock == s.lock && b in u.th && u.th[b] == s.th[b].(place := u.th[b].place)
    ensures s.lock == 0 ==> Unblocked(s).run == s.run + s.blk
    decreases |s.blk|
  {
    if s.lock == 0 && s.blk != [] {
      var n := UnblockedOne(s);
      forall i | 0 <= i < |n.blk| ensures n.th[n.blk[i]].reason == STDIO { assert n.blk[i] == s.blk[i + 1]; }
      UnblockMoves(n, b);
      assert n.run + n.blk == s.run + s.blk;
    }
  }

  /** Without `th`, unblocking changes the two queues, and these only if the lock is free. */
  lemma {:induction false} UnblockFrame<T>(s: State<T>)
    requires s.Typed() && forall i :: 0 <= i < |s.blk| ==> s.th[s.blk[i]].reason == STDIO
    ensures var u := Unblocked(s);
      u == s.(th := u.th, run := s.run + (if s.lock == 0 then s.blk else []), blk := if s.lock == 0 then [] else s.blk)
    ensures forall t :: t in s.th ==> t in Unblocked(s).th && SameThread(s.th[t], Unblocked(s).th[t])
    decreases |s.blk|
  {
    if s.lock == 0 && s.blk != [] {
      var n := UnblockedOne(s);
      forall i | 0 <= i < |n.blk| ensures n.th[n.blk[i]].reason == STDIO { assert n.blk[i] == s.blk[i + 1]; }
      UnblockFrame(n);
      assert n.run + n.blk == s.run + s.blk;
    }
  }

  /** Tid and block reason are the same. */
  predicate SameThread(i: Thread, j: Thread) { i.tid == j.tid && i.reason == j.reason }

  /** The thread may run: it does not need the lock, or can have it. */
  predicate MayRun(i: Thread, lock: nat) { i.reason == NONE || lock == 0 || lock == i.tid }

  /** Dispatching blocks the threads in front of the first that may run, in order, and runs that one. */
  ghost predicate Dispatches<T>(s: State<T>, n: State<T>, i: nat)
    requires s.Typed()
  {
    && i <= |s.run| && (forall j :: 0 <= j < i ==> !MayRun(s.th[s.run[j]], s.lock))
    && n.blk == s.blk + s.run[..i] && n.wait == s.wait && n.free == s.free && n.nextTid == s.nextTid
    && if i == |s.run| then n.cur == s.cur && n.run == [] && n.lock == s.lock
       else var i0 := s.th[s.run[i]];
         MayRun(i0, s.lock) && n.cur == Some(s.run[i]) && n.run == s.run[i + 1..]
         && n.lock == if i0.reason == STDIO then i0.tid else s.lock
  }

  lemma {:induction false} DispatchMeaning<T>(s: State<T>) returns (i: nat)
    requires s.Typed()
    ensures Dispatches(s, Dispatched(s), i)
    decreases |s.run|
  {
    if s.run == [] || !MustBlock(s) {
      i := 0;
    } else {
      var k := DispatchMeaning(BlockedOne(s));
      i := k + 1;
      DispatchesOneMore(s, BlockedOne(s), Dispatched(s), k);
    }
  }

  lemma DispatchesOneMore<T>(s: State<T>, u: State<T>, n: State<T>, k: nat)
    requires s.Typed() && s.run != [] && MustBlock(s) && u == BlockedOne(s) && Dispatches(u, n, k)
    ensures Dispatches(s, n, k + 1)
  {
    forall j | 0 <= j < |u.run| ensures u.run[j] == s.run[j + 1] && SameThread(u.th[u.run[j]], s.th[s.run[j + 1]]) {}
    forall j | 0 <= j < k + 1 ensures !MayRun(s.th[s.run[j]], s.lock) {
      if j > 0 { assert !MayRun(u.th[u.run[j - 1]], u.lock); }
    }
    assert s.blk + [s.run[0]] + u.run[..k] == s.blk + s.run[..k + 1];
    if k < |u.run| { assert u.run[k + 1..] == s.run[k + 2..]; }
  }

  /** What a pass does, from the state before it: the waiting thread is woken once everything is sent. */
  ghost predicate Passed<T>(s: State<T>, n: State<T>, i: nat)
    requires s.Typed()
  {
    var woken := s.outQ == [] && s.wait.Some?;
    var lock := if woken then 0 else s.lock;
    var ready := s.run + (if woken then [s.wait.value] else []) + (if lock == 0 then s.blk else []);
    && i <= |ready| && (forall j :: 0 <= j < i ==> !MayRun(s.th[ready[j]], lock))
    && n.wait == (if woken then None else s.wait) && n.free == s.free && n.nextTid == s.nextTid
    && n.blk == (if lock == 0 then [] else s.blk) + ready[..i]
    && if i == |ready| then n.cur == None && n.run == [] && n.lock == lock
       else var t := ready[i];
         MayRun(s.th[t], lock) && n.cur == Some(t) && n.run == ready[i + 1..]
         && n.lock == if s.th[t].reason == STDIO && !(woken && Some(t) == s.wait) then s.th[t].tid else lock
  }

  /** A pass wakes, unblocks, blocks the threads that need a lock they cannot have, and runs the first other one. */
  lemma PassMeaning<T>(s: State<T>) returns (i: nat)
    requires Inv(s) && s.Typed() && s.cur.None?
    ensures Passed(s, Next(s, Pass), i)
  {
    var w := Woken(s);
    forall i | 0 <= i < |w.blk| ensures w.th[w.blk[i]].reason == STDIO { WokenBlock(s, i); }
    UnblockFrame(w);
    i := DispatchMeaning(Unblocked(w));
    PassedIs(s, w, Unblocked(w), Next(s, Pass), i);
  }

  lemma WokenBlock<T>(s: State<T>, i: nat)
    requires Placed(s) && ThreadsOk(s) && s.Typed() && i < |s.blk|
    ensures Woken(s).Typed() && Woken(s).blk == s.blk && Woken(s).th[s.blk[i]].reason == STDIO
  {
    assert ThreadOk(s, s.th[s.blk[i]]);
  }

  lemma PassedIs<T>(s: State<T>, w: State<T>, u: State<T>, n: State<T>, i: nat)
    requires s.Typed() && s.cur.None? && w == Woken(s) && u.Typed() && Dispatches(u, n, i)
    requires u == w.(th := u.th, run := w.run + (if w.lock == 0 then w.blk else []),
                     blk := if w.lock == 0 then [] else w.blk)
    requires forall t :: t in w.th ==> t in u.th && SameThread(w.th[t], u.th[t])
    ensures Passed(s, n, i)
  {
    if u.lock != 0 {
      forall j | 0 <= j < i ensures !MayRun(s.th[u.run[j]], u.lock) {
        assert !MayRun(u.th[u.run[j]], u.lock) && SameThread(w.th[u.run[j]], u.th[u.run[j]]);
      }
    } else {
      FreeLockStopsNobody(u, n, i);
    }
  }

  lemma FreeLockStopsNobody<T>(s: State<T>, n: State<T>, i: nat)
    requires s.Typed() && s.lock == 0 && Dispatches(s, n, i)
    ensures i == 0
  {
    assert s.run != [] ==> MayRun(s.th[s.run[0]], s.lock);
  }

  /** While the lock is taken by another thread, dispatching does not let a requester in. */
  lemma {:induction false} DispatchRefuses<T>(s: State<T>, b: T)
    requires s.Typed() && s.lock != 0 && Requests(s, b) && s.th[b].reason == STDIO && s.th[b].tid != s.lock
    ensures Requests(Dispatched(s), b)
    decreases |s.run|
  {
    if s.run != [] && MustBlock(s) { DispatchRefuses(BlockedOne(s), b); }
  }

  lemma WokenBlocks<T>(s: State<T>, b: T)
    requires Placed(s) && ThreadsOk(s) && s.Typed() && s.cur.None? && Requests(s, b)
    ensures var w := Woken(s);
      && w.Typed() && w.blk == s.blk && b in w.th && w.th[b] == s.th[b] && s.th[b].reason == STDIO
      && forall i :: 0 <= i < |w.blk| ==> w.th[w.blk[i]].reason == STDIO
  {
    assert ThreadOk(s, s.th[b]);
    if s.wait.Some? { assert ThreadOk(s, s.th[s.wait.value]); }
    forall i | 0 <= i < |s.blk| ensures Woken(s).th[s.blk[i]].reason == STDIO { assert ThreadOk(s, s.th[s.blk[i]]); }
  }

  lemma OtherHasLock<T>(s: State<T>, b: T)
    requires LockOk(s) && ThreadsOk(s) && s.lock != 0 && Requests(s, b)
    ensures s.th[b].tid != s.lock
  {
    var t :| t in s.th && Holds(s, t);
  }

  lemma DispatchGrantsIff<T>(s: State<T>, b: T)
    requires s.Typed() && Requests(s, b) && s.th[b].reason == STDIO && (s.lock != 0 ==> s.th[b].tid != s.lock)
    ensures var n := Dispatched(s);
      && b in n.th && (n.th[b].phase == Inside || Requests(n, b))
      && (n.th[b].phase == Inside <==> s.lock == 0 && s.run != [] && s.run[0] == b)
  {
    if s.lock != 0 { DispatchRefuses(s, b); }
  }

  /** A pass lets in exactly the requester that is first of all waiting threads when the lock is free. */
  lemma PassGrantsIff<T>(s: State<T>, b: T)
    requires Inv(s) && s.Typed() && s.cur.None? && Requests(s, b)
    ensures b in Next(s, Pass).th && (Next(s, Pass).th[b].phase == Inside || Requests(Next(s, Pass), b))
    ensures Next(s, Pass).th[b].phase == Inside
       <==> Woken(s).lock == 0 && Woken(s).run + s.blk != [] && (Woken(s).run + s.blk)[0] == b
  {
    WokenBlocks(s, b);
    UnblockMoves(Woken(s), b);
    SettledRequester(s, b);
    DispatchGrantsIff(Unblocked(Woken(s)), b);
  }

  lemma SettledRequester<T>(s: State<T>, b: T)
    requires Inv(s) && s.Typed() && s.cur.None? && Requests(Unblocked(Woken(s)), b)
    ensures var u := Unblocked(Woken(s)); u.Typed() && (u.lock != 0 ==> u.th[b].tid != u.lock)
  {
    Settle(s);
    var u := Unblocked(Woken(s));
    if u.lock != 0 { OtherHasLock(u, b); }
  }

  /** Nothing else lets a requester in, or makes it stop asking. */
  lemma OnlyPassGrants<T>(s: State<T>, e: Event<T>, b: T)
    requires Inv(s) && s.Typed() && Enabled(s, e) && !e.Pass? && Requests(s, b)
    ensures Requests(Next(s, e), b)
  {
    assert ThreadOk(s, s.th[b]);
    assert s.cur != Some(b) && !CanAlloc(s, b);
    match e
    case Fork(_) =>
    case Wait(_) =>
    case Print(_, _) =>
    case _ =>
  }

  // ----- when the tids have run out -----

  /** Thread block `a` was used `n` times, and is free. */
  function Used<T(==)>(a: T, n: nat): State<T>
    requires n < TWO32 - 1
  {
    if n == 0 then Boot()
    else State([], [], [a], None, None, 0, n + 1, [], [], map[a := Thread(n, NONE, Dead, 0, Free)], 0)
  }

  /** It is in use again. */
  function Alive<T(==)>(a: T, n: nat, run: seq<T>, cur: Option<T>, place: Place): State<T>
    requires n < TWO32 - 1
  {
    State(run, [], [], cur, None, 0, n + 1, [], [], map[a := Thread(n, NONE, Outside, 0, place)], 0)
  }

  lemma UseOnce<T>(a: T, n: nat)
    requires 0 < n < TWO32 - 1
    ensures var s := Used(a, n - 1);
      s.Typed() && Enabled(s, Event.Fork(a)) && Next(s, Event.Fork(a)) == Alive(a, n, [a], None, Run)
    ensures var s := Alive(a, n, [a], None, Run);
      s.Typed() && Enabled(s, Pass) && Next(s, Pass) == Alive(a, n, [], Some(a), Cur)
    ensures var s := Alive(a, n, [], Some(a), Cur);
      s.Typed() && Enabled(s, Event.Exit) && Next(s, Event.Exit) == Used(a, n)
  {
    var s := Alive(a, n, [a], None, Run);
    assert Forked(Used(a, n - 1), a).th == s.th;
    assert s.run[1..] == [] && Unblocked(Woken(s)) == s && Dispatched(s) == Switched(s);
    assert Switched(s).th == Alive(a, n, [], Some(a), Cur).th;
    assert Exited(Switched(s)).th == Used(a, n).th;
  }

  /** A thread that is forked, runs and exits uses up a tid. */
  lemma {:induction false} UseUp<T>(a: T, n: nat, from: nat) returns (ss: seq<State<T>>, es: seq<Event<T>>)
    requires n < TWO32 - 1 && from > 3 * n
    ensures Starves(Boot(), ss, es, a, from) && |es| == 3 * n && ss[|es|] == Used(a, n)
  {
    if n == 0 {
      ss, es := [Boot()], [];
    } else {
      ss, es := UseUp(a, n - 1, from);
      ss, es := UseAgain(a, n, from, ss, es);
    }
  }

  lemma UseAgain<T>(a: T, n: nat, from: nat, ss: seq<State<T>>, es: seq<Event<T>>)
    returns (ss': seq<State<T>>, es': seq<Event<T>>)
    requires 0 < n < TWO32 - 1 && Starves(Boot(), ss, es, a, from) && ss[|es|] == Used(a, n - 1) && from > |es| + 3
    ensures Starves(Boot(), ss', es', a, from) && |es'| == |es| + 3 && ss'[|es'|] == Used(a, n)
  {
    UseOnce(a, n);
    ss', es' := Extended(Boot(), ss, es, Event.Fork(a), Alive(a, n, [a], None, Run), a, from);
    ss', es' := Extended(Boot(), ss', es', Pass, Alive(a, n, [], Some(a), Cur), a, from);
    ss', es' := Extended(Boot(), ss', es', Event.Exit, Used(a, n), a, from);
  }

  const LAST: Word := 0xFFFF_FFFF

  function Pair<T(==)>(a: T, i: Thread, b: T, j: Thread, run: seq<T>, cur: Option<T>, lock: nat, sec: nat): State<T> {
    State(run, [], [], cur, None, lock, 1, [], [], Two(a, i, b, j), sec)
  }

  lemma RunHead<T>(a: T, i: Thread, b: T, j: Thread, x: T, y: T, sec: nat)
    requires a != b && ((x == a && y == b && i.reason == NONE) || (x == b && y == a && j.reason == NONE))
    ensures var s := Pair(a, i, b, j, [x, y], None, 0, sec);
      && s.Typed() && Enabled(s, Pass)
      && Next(s, Pass) == if x == a then Pair(a, i.(place := Cur), b, j, [b], Some(a), 0, sec)
                          else Pair(a, i, b, j.(place := Cur), [a], Some(b), 0, sec)
  {
    var s := Pair(a, i, b, j, [x, y], None, 0, sec);
    Updates2(a, i, b, j, s.th[x].(place := Cur));
    assert s.run[1..] == [y] && Unblocked(Woken(s)) == s && Dispatched(s) == Switched(s);
  }

  lemma TickIt<T>(a: T, i: Thread, b: T, j: Thread, x: T, y: T, sec: nat)
    requires a != b && ((x == a && y == b && i.phase != Printer) || (x == b && y == a && j.phase != Printer))
    ensures var s := Pair(a, i, b, j, [y], Some(x), 0, sec);
      && s.Typed() && Enabled(s, Event.Tick)
      && Next(s, Event.Tick) == if x == a then Pair(a, i.(place := Run), b, j, [b, a], None, 0, sec)
                                else Pair(a, i, b, j.(place := Run), [a, b], None, 0, sec)
  {
    var s := Pair(a, i, b, j, [y], Some(x), 0, sec);
    Updates2(a, i, b, j, s.th[x].(place := Run));
    assert s.run + [x] == [y, x];
  }

  lemma RequestIt<T>(a: T, i: Thread, b: T, j: Thread, x: T, y: T, sec: nat)
    requires a != b && ((x == a && y == b && i.phase == Outside) || (x == b && y == a && j.phase == Outside))
    ensures var s := Pair(a, i, b, j, [y], Some(x), 0, sec);
      && s.Typed() && Enabled(s, Event.Request)
      && Next(s, Event.Request) ==
         if x == a then
           Pair(a, i.(reason := STDIO, phase := Inside, section := sec + 1), b, j, [b], Some(a), i.tid, sec + 1)
         else
           Pair(a, i, b, j.(reason := STDIO, phase := Inside, section := sec + 1), [a], Some(b), j.tid, sec + 1)
  {
    var s := Pair(a, i, b, j, [y], Some(x), 0, sec);
    var k := s.th[x].(reason := STDIO);
    Updates2(a, i, b, j, k);
    if x == a { Updates2(a, k, b, j, k.(phase := Inside, section := sec + 1)); }
    else { Updates2(a, i, b, k, k.(phase := Inside, section := sec + 1)); }
  }

  /**
   * The fork that uses the last tid leaves 0 for the next one, and the lock cannot name a thread with tid 0: there
   * is a run from boot after which two forks lead to two threads in the printing section.
   */
  lemma TidZeroBreaksTheLock<T>(a: T, b: T)
    returns (ss: seq<State<T>>, es: seq<Event<T>>, ts: seq<State<T>>, fs: seq<Event<T>>)
    requires a != b
    ensures IsRun(ss, es) && CanAlloc(ss[|es|], a) && CanAlloc(Forked(ss[|es|], a), b)
    ensures Path(Forked(Forked(ss[|es|], a), b), ts, fs)
    ensures var s := ts[|fs|];
      a in s.th && b in s.th && s.th[a].phase == Inside && s.th[b].phase == Inside && s.th[b].tid == 0
  {
    ss, es := UseUp(a, TWO32 - 2, 3 * TWO32);
    var i, j := Thread(LAST, NONE, Outside, 0, Run), Thread(0, NONE, Outside, 0, Run);
    var s := Pair(a, i, b, j, [a, b], None, 0, 0);
    assert Forked(Forked(ss[|es|], a), b) == s by { assert Forked(Forked(ss[|es|], a), b).th == s.th; }
    ts, fs := ZeroTid(a, b, i, j);
  }

  lemma ZeroTid<T>(a: T, b: T, i: Thread, j: Thread) returns (ts: seq<State<T>>, fs: seq<Event<T>>)
    requires a != b && i == Thread(LAST, NONE, Outside, 0, Run) && j == Thread(0, NONE, Outside, 0, Run)
    ensures Path(Pair(a, i, b, j, [a, b], None, 0, 0), ts, fs)
    ensures var s := ts[|fs|];
      a in s.th && b in s.th && s.th[a].phase == Inside && s.th[b].phase == Inside && s.th[b].tid == 0
  {
    var s := Pair(a, i, b, j, [a, b], None, 0, 0);
    var ic, jc := i.(place := Cur), j.(place := Cur);
    ts, fs := [s], [];
    RunHead(a, i, b, j, a, b, 0);
    ts, fs := Extended(s, ts, fs, Pass, Pair(a, ic, b, j, [b], Some(a), 0, 0), b, 9);
    TickIt(a, ic, b, j, a, b, 0);
    ts, fs := Extended(s, ts, fs, Event.Tick, Pair(a, i, b, j, [b, a], None, 0, 0), b, 9);
    RunHead(a, i, b, j, b, a, 0);
    ts, fs := Extended(s, ts, fs, Pass, Pair(a, i, b, jc, [a], Some(b), 0, 0), b, 9);
    RequestIt(a, i, b, jc, b, a, 0);
    var k := Thread(0, STDIO, Inside, 1, Cur);
    ts, fs := Extended(s, ts, fs, Event.Request, Pair(a, i, b, k, [a], Some(b), 0, 1), b, 9);
    TickIt(a, i, b, k, b, a, 1);
    var kr := k.(place := Run);
    ts, fs := Extended(s, ts, fs, Event.Tick, Pair(a, i, b, kr, [a, b], None, 0, 1), b, 9);
    RunHead(a, i, b, kr, a, b, 1);
    ts, fs := Extended(s, ts, fs, Pass, Pair(a, ic, b, kr, [b], Some(a), 0, 1), b, 9);
    RequestIt(a, ic, b, kr, a, b, 1);
    ts, fs := Extended(s, ts, fs, Event.Request,
                       Pair(a, Thread(LAST, STDIO, Inside, 2, Cur), b, kr, [b], Some(a), LAST, 2), b, 9);
  }
}
