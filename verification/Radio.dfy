/**
 * The ring as an object (libpi/libc/circular.h) and the packet framing of the radio
 * driver on top of it (network/nrf-interrupt.c, network/nrf-public.c).
 */
module Radio {
  import opened Machine
  import opened Ring

  lemma CountOf(head: Word, tail: Word)
    requires head < N && tail < N
    ensures NElem(head, tail) == if head >= tail then head - tail else head - tail + N
  {
    if head < tail { assert Wrap(head - tail) == (head - tail + N) + 524287 * N; }
  }

  lemma NextOf(i: Word)
    requires i < N
    ensures Next(i) == if i == N - 1 then 0 else i + 1
  {
  }

  /** The tests agree with the count, and the index updates change it by one. */
  lemma CountMoves(head: Word, tail: Word)
    requires head < N && tail < N
    ensures IsFull(head, tail) <==> NElem(head, tail) == N - 1
    ensures IsEmpty(head, tail) <==> NElem(head, tail) == 0
    ensures !IsFull(head, tail) ==> NElem(Next(head), tail) == NElem(head, tail) + 1
    ensures !IsEmpty(head, tail) ==> NElem(head, Next(tail)) == NElem(head, tail) - 1
  {
    CountOf(head, tail);
    NextOf(head);
    NextOf(tail);
    CountOf(Next(head), tail);
    CountOf(head, Next(tail));
  }

  /** A slot offset needs at most one subtraction. */
  lemma Fold(i: nat)
    requires i < 2 * N
    ensures i % N == if i < N then i else i - N
  {
  }

  lemma PushContents<E>(buf: seq<E>, head: Word, tail: Word, x: E)
    requires |buf| == N && head < N && tail < N && !IsFull(head, tail)
    ensures Contents(buf[head := x], Next(head), tail) == Contents(buf, head, tail) + [x]
  {
    CountMoves(head, tail);
    CountOf(head, tail);
    var n := NElem(head, tail);
    var a, b := Contents(buf, head, tail), Contents(buf[head := x], Next(head), tail);
    forall i | 0 <= i <= n ensures b[i] == if i < n then a[i] else x { Fold(tail + i); }
  }

  lemma PopContents<E>(buf: seq<E>, head: Word, tail: Word)
    requires |buf| == N && head < N && tail < N && !IsEmpty(head, tail)
    ensures Contents(buf, head, tail) == [buf[tail]] + Contents(buf, head, Next(tail))
  {
    CountMoves(head, tail);
    NextOf(tail);
    var a, b := Contents(buf, head, tail), Contents(buf, head, Next(tail));
    Fold(tail);
    assert a[0] == buf[tail];
    forall i | 0 <= i < |b| ensures a[i + 1] == b[i] {
      CountOf(head, tail);
      Fold(tail + (i + 1));
      Fold(Next(tail) + i);
    }
  }

  class CircularQueue {
    const buf: array<Byte>
    var head: Word
    var tail: Word
    ghost var items: seq<Byte>   // the unread bytes, oldest first

    ghost predicate Valid()
      reads this, buf
    {
      buf.Length == N && head < N && tail < N && items == Contents(buf[..], head, tail) && |items| <= N - 1
    }

    constructor ()
      ensures Valid() && items == [] && fresh(buf)
    {
      buf := new Byte[N](_ => 0);
      head, tail, items := 0, 0, [];
    }

    /** `cq_nelem`. */
    method Count() returns (n: nat)
      requires Valid()
      ensures n == |items|
    {
      return NElem(head, tail);
    }

    /** `cq_nspace`. */
    method Space() returns (n: nat)
      requires Valid()
      ensures n == 8191 - |items|
    {
      return NSpace(head, tail);
    }

    /** `cq_push`. */
    method Push(x: Byte) returns (ok: bool)
      requires Valid()
      modifies this`head, this`items, buf
      ensures Valid() && (ok <==> |old(items)| < 8191)
      ensures items == if ok then old(items) + [x] else old(items)
    {
      CountMoves(head, tail);
      NextOf(head);
      if IsFull(head, tail) { return false; }
      PushContents(buf[..], head, tail, x);
      ghost var b0 := buf[..];
      buf[head] := x;
      assert buf[..] == b0[head := x];
      head, items := Next(head), items + [x];
      return true;
    }

    /** `cq_empty`. */
    method Empty() returns (empty: bool)
      requires Valid()
      ensures empty <==> items == []
    {
      CountMoves(head, tail);
      return head == tail;
    }

    /** The slot that a pop reads, by the copy `t` of the tail index. */
    method Load(t: Word) returns (e: Byte)
      requires Valid() && t == tail && items != []
      ensures e == items[0]
    {
      CountMoves(head, tail);
      PopContents(buf[..], head, tail);
      return buf[t];
    }

    /** The index update that ends a pop. */
    method Drop(t: Word)
      requires Valid() && t == tail && items != []
      modifies this`tail, this`items
      ensures Valid() && items == old(items)[1..]
    {
      CountMoves(head, tail);
      NextOf(tail);
      PopContents(buf[..], head, tail);
      tail, items := Next(t), items[1..];
    }

    /** `cq_pop_nonblock`, undisturbed. */
    method PopNonblock() returns (ok: bool, e: Byte)
      requires Valid()
      modifies this`tail, this`items
      ensures Valid() && (ok <==> old(items) != [])
      ensures if ok then old(items) == [e] + items else items == old(items)
    {
      var empty := Empty();
      if empty { return false, 0; }
      var t := tail;
      e := Load(t);
      Drop(t);
      return true, e;
    }

    /** `cq_push_n`: all of the bytes or none of them; the panic inside cannot be reached. */
    method PushN(data: seq<Byte>) returns (ok: bool)
      requires Valid() && 0 < |data| < TWO32
      modifies this`head, this`items, buf
      ensures Valid() && (ok <==> |old(items)| + |data| <= 8191)
      ensures items == if ok then old(items) + data else old(items)
    {
      var space := Space();
      if space < |data| { return false; }
      ghost var q0 := items;
      var i := 0;
      assert q0 + data[..0] == q0;
      while i < |data|
        invariant 0 <= i <= |data| && Valid() && items == q0 + data[..i]
      {
        var pushed := Push(data[i]);
        assert pushed;
        assert q0 + data[..i] + [data[i]] == q0 + data[..i + 1];
        i := i + 1;
      }
      assert data[..i] == data;
      return true;
    }
  }

  type Packet = seq<Byte>

  lemma FlatIsLong(n: nat, ps: seq<Packet>)
    requires forall i :: 0 <= i < |ps| ==> |ps[i]| == n
    ensures ps != [] ==> |Flat(ps)| >= n
    ensures ps == [] ==> Flat(ps) == []
  {
  }

  lemma Associate(a: seq<Byte>, b: seq<Byte>, c: seq<Byte>)
    ensures a + b + c == a + (b + c)
  {
  }

  lemma MorePackets(part: seq<Byte>, a: seq<Packet>, d: nat, kept: seq<Packet>)
    requires d <= |a|
    ensures part + Flat(a[d..]) + Flat(kept) == part + Flat((a + kept)[d..])
  {
    FlatConcat(a[d..], kept);
    assert (a + kept)[d..] == a[d..] + kept;
    Associate(part, Flat(a[d..]), Flat(kept));
  }

  lemma SplitHead(part: seq<Byte>, rest: seq<Byte>, b: Byte, q: seq<Byte>)
    requires part != [] && part + rest == [b] + q
    ensures b == part[0] && q == part[1..] + rest
  {
    assert b == (part + rest)[0];
    assert q == ([b] + q)[1..];
    assert (part + rest)[1..] == part[1..] + rest;
  }

  /** One of the bursts holds the packet. */
  ghost predicate Arrived(fifo: nat -> seq<Packet>, p: Packet) { exists i :: p in fifo(i) }

  /** Packets that arrived were added behind those accepted before. */
  ghost predicate Grown(a: seq<Packet>, b: seq<Packet>, fifo: nat -> seq<Packet>) {
    a <= b && forall j :: |a| <= j < |b| ==> Arrived(fifo, b[j])
  }

  lemma GrownBy(a: seq<Packet>, fifo: nat -> seq<Packet>, i: nat, k: nat)
    requires k <= |fifo(i)|
    ensures Grown(a, a + fifo(i)[..k], fifo)
  {
    forall j | |a| <= j < |a| + k ensures Arrived(fifo, (a + fifo(i)[..k])[j]) {
      assert (a + fifo(i)[..k])[j] == fifo(i)[j - |a|];
    }
  }

  datatype Received = Nothing | Message(bytes: Packet)

  class Nic {
    const nbytes: nat
    const recvq: CircularQueue
    ghost var accepted: seq<Packet>   // the packets the queue took, in arrival order
    ghost var delivered: nat          // how many of them have been read

    ghost predicate Sized(ps: seq<Packet>) { forall i :: 0 <= i < |ps| ==> |ps[i]| == nbytes }

    ghost predicate Base()
      reads this, recvq, recvq.buf
    {
      0 < nbytes < TWO32 && recvq.Valid() && delivered <= |accepted| && Sized(accepted)
    }

    /** Between two reads the queue holds whole packets: those accepted and not yet read. */
    ghost predicate Valid()
      reads this, recvq, recvq.buf
    {
      Base() && recvq.items == Flat(accepted[delivered..])
    }

    constructor (n: nat)
      requires 0 < n < TWO32
      ensures Valid() && nbytes == n && accepted == [] && delivered == 0 && fresh(recvq) && fresh(recvq.buf)
    {
      nbytes := n;
      recvq := new CircularQueue();
      accepted, delivered := [], 0;
    }

    /** One packet from the hardware FIFO goes to the queue if there is room for all of it. */
    method TakePacket(p: Packet) returns (ok: bool)
      requires Base() && |p| == nbytes
      modifies this`accepted, recvq`head, recvq`items, recvq.buf
      ensures Base() && (ok <==> |old(recvq.items)| + |p| <= 8191)
      ensures accepted == old(accepted) + if ok then [p] else []
      ensures recvq.items == old(recvq.items) + if ok then p else []
    {
      ok := recvq.PushN(p);
      if ok { accepted := accepted + [p]; }
    }

    /** The receive loop of the interrupt handler: the first `k` packets fit whole, the others leave no trace. */
    method HandleInterrupt(fifo: seq<Packet>) returns (ghost k: nat)
      requires Base() && Sized(fifo)
      modifies this`accepted, recvq`head, recvq`items, recvq.buf
      ensures Base() && k <= |fifo| && |recvq.items| <= 8191 && (k < |fifo| ==> |recvq.items| + nbytes > 8191)
      ensures accepted == old(accepted) + fifo[..k] && recvq.items == old(recvq.items) + Flat(fifo[..k])
    {
      k := 0;
      var i := 0;
      while i < |fifo|
        invariant k <= i <= |fifo| && Base() && (k < i ==> |recvq.items| + nbytes > 8191)
        invariant accepted == old(accepted) + fifo[..k] && recvq.items == old(recvq.items) + Flat(fifo[..k])
      {
        ghost var q := recvq.items;
        var ok := TakePacket(fifo[i]);
        if ok {
          assert k == i;
          FlatSnoc(fifo, k);
          Associate(old(recvq.items), Flat(fifo[..k]), fifo[k]);
          assert old(accepted) + fifo[..k] + [fifo[k]] == old(accepted) + fifo[..k + 1];
          k := k + 1;
        }
        i := i + 1;
      }
    }

    /** An interrupt between two reads: the queue holds whole packets before and after. */
    method Interrupt(fifo: seq<Packet>) returns (ghost k: nat)
      requires Valid() && Sized(fifo)
      modifies this`accepted, recvq`head, recvq`items, recvq.buf
      ensures Valid() && k <= |fifo| && accepted == old(accepted) + fifo[..k]
      ensures k < |fifo| ==> |recvq.items| + nbytes > 8191
    {
      ghost var a := accepted;
      k := HandleInterrupt(fifo);
      FlatConcat(a[delivered..], fifo[..k]);
      assert accepted[delivered..] == a[delivered..] + fifo[..k];
    }

    /**
     * `nrf_read_exact_noblk` for one packet.  Interrupts strike before the test, and before each of the four
     * memory accesses that pop a byte; `fifo(i)` are the packets the i-th of them finds.  Whatever arrives, the
     * oldest packet comes out undamaged: one accepted before, or else the first that the first interrupt finds.
     */
    method ReadExact(fifo: nat -> seq<Packet>) returns (r: Received)
      requires Valid() && forall i :: Sized(fifo(i))
      modifies this, recvq, recvq.buf
      ensures Valid() && Grown(old(accepted), accepted, fifo)
      ensures r.Message? ==> delivered == old(delivered) + 1 && r.bytes == accepted[old(delivered)]
      ensures r.Message? && old(delivered) < |old(accepted)| ==> r.bytes == old(accepted)[old(delivered)]
      ensures r.Message? && old(delivered) == |old(accepted)| ==> fifo(0) != [] && r.bytes == fifo(0)[0]
      ensures r.Nothing? ==> delivered == old(delivered) == |accepted|
      ensures r.Nothing? <==> old(delivered) == |old(accepted)| && (fifo(0) == [] || nbytes > 8191)
    {
      ghost var k := Interrupt(fifo(0));
      GrownBy(old(accepted), fifo, 0, k);
      FlatIsLong(nbytes, accepted[delivered..]);
      var n := recvq.Count();
      if n < nbytes {
        return Nothing;
      }
      r := ReadBytes(fifo);
    }

    /** `part` of the packet that is being read is still in the queue, and whole packets behind it. */
    ghost predicate Reading(part: seq<Byte>)
      reads this, recvq, recvq.buf
    {
      Base() && delivered < |accepted| && part != [] && recvq.items == part + Flat(accepted[delivered + 1..])
    }

    /** An interrupt in the middle of a packet. */
    method Disturb(fifo: nat -> seq<Packet>, i: nat, ghost part: seq<Byte>)
      requires Reading(part) && Sized(fifo(i))
      modifies this`accepted, recvq`head, recvq`items, recvq.buf
      ensures Reading(part) && Grown(old(accepted), accepted, fifo)
    {
      ghost var a := accepted;
      ghost var k := HandleInterrupt(fifo(i));
      MorePackets(part, a, delivered + 1, fifo(i)[..k]);
      GrownBy(a, fifo, i, k);
    }

    /** The four accesses of a pop, each behind an interrupt. */
    method ReadByte(fifo: nat -> seq<Packet>, k: nat, ghost part: seq<Byte>) returns (b: Byte)
      requires Reading(part) && forall i :: Sized(fifo(i))
      modifies this`accepted, recvq, recvq.buf
      ensures Base() && Grown(old(accepted), accepted, fifo)
      ensures b == part[0] && recvq.items == part[1..] + Flat(accepted[delivered + 1..])
    {
      var t := FindTail(fifo, 4 * k + 1, part);
      b := LoadByte(fifo, 4 * k + 3, t, part);
      DropByte(t, part);
    }

    method DropByte(t: Word, ghost part: seq<Byte>)
      requires Reading(part) && t == recvq.tail
      modifies recvq`tail, recvq`items
      ensures Base() && recvq.items == part[1..] + Flat(accepted[delivered + 1..])
    {
      ghost var q := recvq.items;
      recvq.Drop(t);
      SplitHead(part, Flat(accepted[delivered + 1..]), q[0], recvq.items);
    }

    /** The test, which cannot fail, and the copy of the tail index. */
    method FindTail(fifo: nat -> seq<Packet>, i: nat, ghost part: seq<Byte>) returns (t: Word)
      requires Reading(part) && Sized(fifo(i)) && Sized(fifo(i + 1))
      modifies this`accepted, recvq`head, recvq`items, recvq.buf
      ensures Reading(part) && Grown(old(accepted), accepted, fifo) && t == recvq.tail
    {
      Disturb(fifo, i, part);
      var empty := recvq.Empty();
      assert !empty;
      Disturb(fifo, i + 1, part);
      return recvq.tail;
    }

    method LoadByte(fifo: nat -> seq<Packet>, i: nat, t: Word, ghost part: seq<Byte>) returns (b: Byte)
      requires Reading(part) && Sized(fifo(i)) && Sized(fifo(i + 1)) && t == recvq.tail
      modifies this`accepted, recvq`head, recvq`items, recvq.buf
      ensures Reading(part) && Grown(old(accepted), accepted, fifo) && b == part[0]
    {
      Disturb(fifo, i, part);
      b := recvq.Load(t);
      Disturb(fifo, i + 1, part);
    }

    /** The byte loop. */
    method ReadBytes(fifo: nat -> seq<Packet>) returns (r: Received)
      requires Valid() && delivered < |accepted| && forall i :: Sized(fifo(i))
      modifies this, recvq, recvq.buf
      ensures Valid() && Grown(old(accepted), accepted, fifo) && delivered == old(delivered) + 1
      ensures r == Message(accepted[old(delivered)])
    {
      ghost var p := accepted[delivered];
      var msg: Packet := [];
      FlatHead(accepted[delivered..]);
      assert accepted[delivered..][1..] == accepted[delivered + 1..] && p[0..] == p;
      while |msg| < nbytes
        invariant |msg| <= nbytes && Base() && delivered == old(delivered) < |accepted|
        invariant Grown(old(accepted), accepted, fifo)
        invariant accepted[delivered] == p && msg == p[..|msg|]
        invariant recvq.items == p[|msg|..] + Flat(accepted[delivered + 1..])
      {
        var b := ReadByte(fifo, |msg|, p[|msg|..]);
        assert p[|msg|..][1..] == p[|msg| + 1..] && p[..|msg|] + [b] == p[..|msg| + 1];
        msg := msg + [b];
      }
      assert msg == p && p[|msg|..] == [];
      delivered := delivered + 1;
      return Message(msg);
    }
  }
}
