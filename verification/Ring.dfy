/**
 * The lock-free single-producer single-consumer ring (libpi/libc/circular.h) at the
 * granularity of its memory accesses: the test, the slot access and the index update of
 * a push or a pop are separate steps, and the two sides interleave freely.
 */
module Ring {
  import opened Machine

  const N: nat := 8192  // CQ_N

  datatype Producer<E> = Resting | Tested(x: E, head: Word) | Stored(x: E, head: Word)

  datatype Consumer<E> = Waiting | Ready(tail: Word) | Loaded(tail: Word, e: E)

  /** `pushed` and `popped` are the items published and consumed so far. */
  datatype State<E> = State(buf: seq<E>, head: Word, tail: Word, prod: Producer<E>, cons: Consumer<E>,
                            pushed: seq<E>, popped: seq<E>)

  /** The steps of `cq_push` and of `cq_pop_nonblock`. */
  datatype Event<E> = TestFull(x: E) | StoreSlot | Publish | TestEmpty | LoadSlot | Consume

  // ----- the read-only operations -----

  predicate IsEmpty(head: Word, tail: Word) { head == tail }

  predicate IsFull(head: Word, tail: Word) { Wrap(head + 1) % N == tail }

  /** `cq_nelem`: the difference wraps to 32 bits before it is reduced. */
  function NElem(head: Word, tail: Word): nat { Wrap(head - tail) % N }

  function NSpace(head: Word, tail: Word): Word { Wrap(N - 1 - NElem(head, tail)) }

  function Next(i: Word): Word { Wrap(i + 1) % N }

  /** The unread items, as the indices and the buffer describe them. */
  function Contents<E>(buf: seq<E>, head: Word, tail: Word): seq<E>
    requires |buf| == N
  {
    seq(NElem(head, tail), i requires i >= 0 => buf[(tail + i) % N])
  }

  // ----- the steps -----

  predicate Enabled<E>(s: State<E>, e: Event<E>) {
    match e
    case TestFull(_) => s.prod.Resting?
    case StoreSlot => s.prod.Tested? && s.prod.head < |s.buf|
    case Publish => s.prod.Stored?
    case TestEmpty => s.cons.Waiting?
    case LoadSlot => s.cons.Ready? && s.cons.tail < |s.buf|
    case Consume => s.cons.Loaded?
  }

  function Step<E>(s: State<E>, e: Event<E>): State<E>
    requires Enabled(s, e)
  {
    match e
    case TestFull(x) => if IsFull(s.head, s.tail) then s else s.(prod := Tested(x, s.head))
    case StoreSlot => s.(buf := s.buf[s.prod.head := s.prod.x], prod := Stored(s.prod.x, s.prod.head))
    case Publish => s.(head := Next(s.prod.head), prod := Resting, pushed := s.pushed + [s.prod.x])
    case TestEmpty => if IsEmpty(s.head, s.tail) then s else s.(cons := Ready(s.tail))
    case LoadSlot => s.(cons := Loaded(s.cons.tail, s.buf[s.cons.tail]))
    case Consume => s.(tail := Next(s.cons.tail), cons := Waiting, popped := s.popped + [s.cons.e])
  }

  // ----- the invariant -----

  /** Item number `i` lives in slot `i % N`. */
  ghost predicate Slots<E>(s: State<E>) {
    && |s.buf| == N && |s.popped| <= |s.pushed| <= |s.popped| + N - 1
    && s.head == |s.pushed| % N && s.tail == |s.popped| % N
    && s.popped == s.pushed[..|s.popped|]
    && (forall i :: |s.popped| <= i < |s.pushed| ==> s.buf[i % N] == s.pushed[i])
  }

  ghost predicate Sides<E>(s: State<E>) {
    && |s.buf| == N
    && (!s.prod.Resting? ==> s.prod.head == s.head < N && |s.pushed| < |s.popped| + N - 1)
    && (s.prod.Stored? ==> s.buf[s.head] == s.prod.x)
    && (!s.cons.Waiting? ==> s.cons.tail == s.tail && |s.popped| < |s.pushed|)
    && (s.cons.Loaded? ==> s.cons.e == s.pushed[|s.popped|])
  }

  ghost predicate Inv<E>(s: State<E>) { Slots(s) && Sides(s) }

  /** Positions less than N apart have different slots. */
  lemma SlotsDiffer(i: nat, j: nat)
    requires i < j < i + N
    ensures i % N != j % N
  {
  }

  lemma CountIsExact(p: nat, c: nat)
    requires c <= p < c + N
    ensures NElem(p % N, c % N) == p - c
    ensures IsEmpty(p % N, c % N) <==> p == c
    ensures IsFull(p % N, c % N) <==> p == c + N - 1
  {
    assert (p % N - c % N) % N == (p - c) % N;
  }

  lemma NextSlot(i: nat)
    ensures Next(i % N) == (i + 1) % N
  {
  }

  lemma StoreKeeps<E>(s: State<E>)
    requires Inv(s) && Enabled(s, StoreSlot)
    ensures Inv(Step(s, StoreSlot))
  {
    var n := Step(s, StoreSlot);
    forall i | |s.popped| <= i < |s.pushed| ensures n.buf[i % N] == s.pushed[i] { SlotsDiffer(i, |s.pushed|); }
  }

  lemma PublishKeeps<E>(s: State<E>)
    requires Inv(s) && Enabled(s, Publish)
    ensures Inv(Step(s, Publish))
  {
    NextSlot(|s.pushed|);
  }

  lemma ConsumeKeeps<E>(s: State<E>)
    requires Inv(s) && Enabled(s, Consume)
    ensures Inv(Step(s, Consume))
  {
    NextSlot(|s.popped|);
  }

  lemma StepKeeps<E>(s: State<E>, e: Event<E>)
    requires Inv(s) && Enabled(s, e)
    ensures Inv(Step(s, e))
  {
    match e
    case StoreSlot => StoreKeeps(s);
    case Publish => PublishKeeps(s);
    case Consume => ConsumeKeeps(s);
    case LoadSlot =>
    case _ => CountIsExact(|s.pushed|, |s.popped|);
  }

  /** An empty ring at rest, with any bytes in the buffer. */
  ghost predicate Init<E>(s: State<E>) {
    |s.buf| == N && s.head == s.tail == 0 && s.prod.Resting? && s.cons.Waiting? && s.pushed == s.popped == []
  }

  ghost predicate IsRun<E>(ss: seq<State<E>>, es: seq<Event<E>>) {
    && |ss| == |es| + 1 && Init(ss[0])
    && forall k :: 0 <= k < |es| ==> Enabled(ss[k], es[k]) && ss[k + 1] == Step(ss[k], es[k])
  }

  lemma {:induction false} RunKeeps<E>(ss: seq<State<E>>, es: seq<Event<E>>, k: nat)
    requires IsRun(ss, es) && k < |ss|
    ensures Inv(ss[k])
  {
    if k > 0 {
      RunKeeps(ss, es, k - 1);
      StepKeeps(ss[k - 1], es[k - 1]);
    }
  }

  lemma SlotOf(tail: nat, p: nat, i: nat)
    requires tail == p % N
    ensures (tail + i) % N == (p + i) % N
  {
  }

  /** What was popped, followed by what the ring holds, is what was pushed; and the ring's count is exact. */
  lemma ContentsAreUnread<E>(s: State<E>)
    requires Inv(s)
    ensures s.popped + Contents(s.buf, s.head, s.tail) == s.pushed
    ensures |Contents(s.buf, s.head, s.tail)| == |s.pushed| - |s.popped| <= N - 1
  {
    CountIsExact(|s.pushed|, |s.popped|);
    var c, p := Contents(s.buf, s.head, s.tail), |s.popped|;
    forall i | 0 <= i < |c| ensures c[i] == s.pushed[p + i] {
      SlotOf(s.tail, p, i);
      assert s.buf[(p + i) % N] == s.pushed[p + i];
    }
    assert s.popped + c == s.pushed;
  }

  lemma RingIsFifo<E>(ss: seq<State<E>>, es: seq<Event<E>>, k: nat)
    requires IsRun(ss, es) && k < |ss|
    ensures |ss[k].buf| == N && ss[k].popped + Contents(ss[k].buf, ss[k].head, ss[k].tail) == ss[k].pushed
    ensures NElem(ss[k].head, ss[k].tail) == |ss[k].pushed| - |ss[k].popped| <= 8191
  {
    RunKeeps(ss, es, k);
    ContentsAreUnread(ss[k]);
  }

  /**
   * Every run of steps is a run of an atomic queue: a push takes effect when it publishes, a pop when it
   * consumes, a push fails exactly when the queue is full, a pop exactly when it is empty, and no other
   * step changes the queue.
   */
  lemma RingIsLinearizable<E>(ss: seq<State<E>>, es: seq<Event<E>>, k: nat)
    requires IsRun(ss, es) && k < |es|
    ensures |ss[k].buf| == |ss[k + 1].buf| == N
    ensures var q, q' := Contents(ss[k].buf, ss[k].head, ss[k].tail),
                         Contents(ss[k + 1].buf, ss[k + 1].head, ss[k + 1].tail);
      match es[k]
      case Publish => q' == q + [ss[k].prod.x]
      case Consume => q == [ss[k].cons.e] + q'
      case TestFull(_) => q' == q && (ss[k + 1].prod.Resting? <==> |q| == 8191)
      case TestEmpty => q' == q && (ss[k + 1].cons.Waiting? <==> q == [])
      case _ => q' == q
  {
    var s, n := ss[k], ss[k + 1];
    RunKeeps(ss, es, k);
    RunKeeps(ss, es, k + 1);
    ContentsAreUnread(s);
    ContentsAreUnread(n);
    CountIsExact(|s.pushed|, |s.popped|);
    AfterPrefix(s.pushed, |s.popped|, s.popped, Contents(s.buf, s.head, s.tail));
    AfterPrefix(n.pushed, |n.popped|, n.popped, Contents(n.buf, n.head, n.tail));
  }

  lemma AfterPrefix<E>(all: seq<E>, k: nat, done: seq<E>, rest: seq<E>)
    requires all == done + rest && |done| == k
    ensures rest == all[k..]
  {
  }

  /** The items that pushes began with in the first `k` events and that found room, in order. */
  function Offered<E>(ss: seq<State<E>>, es: seq<Event<E>>, k: nat): seq<E>
    requires k <= |es| < |ss|
  {
    if k == 0 then []
    else
      var s, e := ss[k - 1], es[k - 1];
      Offered(ss, es, k - 1) + if e.TestFull? && |s.pushed| - |s.popped| < 8191 then [e.x] else []
  }

  /** What is pushed is what was offered, without loss, change or reordering; the last item may be on its way. */
  lemma {:induction false} PushedIsOffered<E>(ss: seq<State<E>>, es: seq<Event<E>>, k: nat)
    requires IsRun(ss, es) && k <= |es|
    ensures ss[k].pushed + (if ss[k].prod.Resting? then [] else [ss[k].prod.x]) == Offered(ss, es, k)
  {
    if k > 0 {
      PushedIsOffered(ss, es, k - 1);
      RunKeeps(ss, es, k - 1);
      CountIsExact(|ss[k - 1].pushed|, |ss[k - 1].popped|);
    }
  }

  /** A slot is never overwritten before it was consumed, and never read before it was published. */
  lemma SlotsAreSafe<E>(ss: seq<State<E>>, es: seq<Event<E>>, k: nat)
    requires IsRun(ss, es) && k < |es|
    ensures es[k].StoreSlot? ==> forall i :: |ss[k].popped| <= i < |ss[k].pushed| ==> i % N != ss[k].prod.head
    ensures es[k].LoadSlot? ==> |ss[k].popped| < |ss[k].pushed| && ss[k + 1].cons.e == ss[k].pushed[|ss[k].popped|]
  {
    var s := ss[k];
    RunKeeps(ss, es, k);
    if es[k].StoreSlot? {
      forall i | |s.popped| <= i < |s.pushed| ensures i % N != s.prod.head { SlotsDiffer(i, |s.pushed|); }
    }
  }
}
