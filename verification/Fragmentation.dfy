/**
 * Fragmentation and reassembly of chunk data in packets of sixteen bytes, on the client
 * and on the chunkserver (dfs/dfs-client.c, dfs/dfs-chunkserver.c).
 */
module Fragmentation {
  import opened Machine

  const PKT: nat := 16           // CHUNK_SERVER_PKT_SIZE
  const CHUNK_SIZE: nat := 1024

  datatype Op = WR | END_WR | RD | END_RD

  datatype Packet = Packet(op: Op, chunk: Word, offset: Word, data: seq<Byte>)

  /** The data field: the bytes sent, and zeros behind them. */
  function Pad(b: seq<Byte>): (d: seq<Byte>)
    requires |b| <= PKT
    ensures |d| == PKT
  {
    b + Zeros(PKT - |b|)
  }

  /** The packets for `bytes`, which start at `base`: all but the last are marked `more`, and offsets wrap. */
  function Fragments(chunk: Word, base: Word, bytes: seq<Byte>, more: Op, last: Op): seq<Packet>
    decreases |bytes|
  {
    if bytes == [] then []
    else if |bytes| <= PKT then [Packet(last, chunk, base, Pad(bytes))]
    else [Packet(more, chunk, base, Pad(bytes[..PKT]))] + Fragments(chunk, Wrap(base + PKT), bytes[PKT..], more, last)
  }

  /** The data fields of the packets, one behind the other. */
  function Joined(ps: seq<Packet>): seq<Byte> { Flat(Fields(ps)) }

  function Fields(ps: seq<Packet>): seq<seq<Byte>> { seq(|ps|, i requires 0 <= i < |ps| => ps[i].data) }

  lemma JoinedHead(ps: seq<Packet>)
    requires ps != []
    ensures Joined(ps) == ps[0].data + Joined(ps[1..])
  {
    FlatHead(Fields(ps));
    assert Fields(ps)[1..] == Fields(ps[1..]);
  }

  /** A data field as a string: the bytes up to the first NUL. */
  function Text(d: seq<Byte>): (t: seq<Byte>)
    ensures t <= d && 0 !in t
    ensures |t| < |d| ==> d[|t|] == 0
  {
    if d == [] || d[0] == 0 then [] else [d[0]] + Text(d[1..])
  }

  lemma {:induction false} TextIs(d: seq<Byte>, n: nat)
    requires n <= |d| && (forall i :: 0 <= i < n ==> d[i] != 0) && (n < |d| ==> d[n] == 0)
    ensures Text(d) == d[..n]
  {
    if n > 0 {
      TextIs(d[1..], n - 1);
      assert d[..n] == [d[0]] + d[1..][..n - 1];
    }
  }

  lemma {:induction false} TextOfPad(b: seq<Byte>, k: nat)
    requires 0 !in b
    ensures Text(b + Zeros(k)) == b
  {
    if b != [] {
      TextOfPad(b[1..], k);
      assert (b + Zeros(k))[1..] == b[1..] + Zeros(k);
    }
  }

  /** Exactly one packet carries the end mark, and it is the last. */
  lemma {:induction false} EndPacketIsLast(chunk: Word, base: Word, bytes: seq<Byte>, more: Op, last: Op, i: nat)
    requires more != last && i < |Fragments(chunk, base, bytes, more, last)|
    ensures var ps := Fragments(chunk, base, bytes, more, last);
      ps[i].op == (if i == |ps| - 1 then last else more) && ps[i].chunk == chunk && |ps[i].data| == 16
      && ps[i].offset == Wrap(base + 16 * i)
    decreases |bytes|
  {
    if |bytes| > PKT && i > 0 { EndPacketIsLast(chunk, Wrap(base + PKT), bytes[PKT..], more, last, i - 1); }
  }

  /** As many packets as sixteen-byte pieces. */
  lemma {:induction false} FragmentCount(chunk: Word, base: Word, bytes: seq<Byte>, more: Op, last: Op)
    ensures |Fragments(chunk, base, bytes, more, last)| == (|bytes| + PKT - 1) / PKT
    decreases |bytes|
  {
    if |bytes| > PKT { FragmentCount(chunk, Wrap(base + PKT), bytes[PKT..], more, last); }
  }

  /** Reassembly gives the bytes back, with zeros up to the end of the last packet. */
  lemma {:induction false} JoinUndoesFragment(chunk: Word, base: Word, bytes: seq<Byte>, more: Op, last: Op)
    ensures var ps := Fragments(chunk, base, bytes, more, last);
      |bytes| <= 16 * |ps| && Joined(ps) == bytes + Zeros(16 * |ps| - |bytes|)
    decreases |bytes|
  {
    if |bytes| > PKT {
      JoinUndoesFragment(chunk, Wrap(base + PKT), bytes[PKT..], more, last);
      JoinedHead(Fragments(chunk, base, bytes, more, last));
      assert bytes == bytes[..PKT] + bytes[PKT..];
    } else if bytes != [] {
      var ps := Fragments(chunk, base, bytes, more, last);
      JoinedHead(ps);
    }
  }

  /** How many of `total` bytes the first `k` packets carry. */
  function Carried(k: nat, total: nat): (n: nat)
    ensures n <= total
  {
    if PKT * k <= total then PKT * k else total
  }

  /** A chunk that held `bytes`, after the first `k` packets of the write `w`. */
  function After(bytes: seq<Byte>, w: seq<Byte>, k: nat): seq<Byte> { bytes + w[..Carried(k, |w|)] }

  lemma AfterAll(bytes: seq<Byte>, w: seq<Byte>, k: nat)
    requires Carried(k, |w|) == |w|
    ensures After(bytes, w, 0) == bytes && After(bytes, w, k) == bytes + w
  {
    assert w[..|w|] == w;
  }

  lemma SliceOfTail(s: seq<Byte>, a: nat, b: nat, c: nat)
    requires a <= |s| && b <= c <= |s| - a
    ensures s[a..][b..c] == s[a + b..a + c]
  {
  }

  /** Packet `k` holds the `k`-th piece of sixteen bytes. */
  lemma {:induction false} PieceOf(chunk: Word, base: Word, bytes: seq<Byte>, more: Op, last: Op, k: nat)
    requires k < |Fragments(chunk, base, bytes, more, last)|
    ensures PKT * k < |bytes|
    ensures Fragments(chunk, base, bytes, more, last)[k].data == Pad(bytes[PKT * k..Carried(k + 1, |bytes|)])
    decreases |bytes|
  {
    if |bytes| > PKT && k > 0 {
      PieceOf(chunk, Wrap(base + PKT), bytes[PKT..], more, last, k - 1);
      SliceOfTail(bytes, PKT, PKT * (k - 1), Carried(k, |bytes| - PKT));
    } else if |bytes| <= PKT {
      assert bytes[0..|bytes|] == bytes;
    }
  }

  /** Packet `k` of the write `w`: it carries the next piece as a string, and the last one the end mark. */
  ghost predicate PacketOk(ps: seq<Packet>, id: Word, w: seq<Byte>, k: nat)
    requires k < |ps|
  {
    && ps[k].chunk == id && |ps[k].data| == PKT
    && (ps[k].op == END_WR <==> k == |ps| - 1) && (ps[k].offset == 0 <==> k == 0)
    && Text(ps[k].data) == w[Carried(k, |w|)..Carried(k + 1, |w|)]
  }

  ghost predicate IsWrite(ps: seq<Packet>, id: Word, w: seq<Byte>) {
    Carried(|ps|, |w|) == |w| && forall k :: 0 <= k < |ps| ==> PacketOk(ps, id, w, k)
  }

  lemma FragmentsAreAWrite(id: Word, w: seq<Byte>)
    requires |w| < TWO32 && 0 !in w
    ensures IsWrite(Fragments(id, 0, w, WR, END_WR), id, w)
  {
    var ps := Fragments(id, 0, w, WR, END_WR);
    FragmentCount(id, 0, w, WR, END_WR);
    forall k | 0 <= k < |ps| ensures PacketOk(ps, id, w, k) {
      EndPacketIsLast(id, 0, w, WR, END_WR, k);
      PieceOf(id, 0, w, WR, END_WR, k);
      TextOfPad(w[PKT * k..Carried(k + 1, |w|)], PKT - (Carried(k + 1, |w|) - PKT * k));
    }
  }

  lemma NextPiece(bytes: seq<Byte>, w: seq<Byte>, k: nat)
    ensures After(bytes, w, k) + w[Carried(k, |w|)..Carried(k + 1, |w|)] == After(bytes, w, k + 1)
    ensures |After(bytes, w, k)| <= |bytes| + |w|
  {
  }

  /** The packets that are left when `sent` bytes are done. */
  function Left(chunk: Word, base: Word, bytes: seq<Byte>, more: Op, last: Op, sent: nat): seq<Packet>
  {
    if sent < |bytes| then Fragments(chunk, Wrap(base + sent), bytes[sent..], more, last) else []
  }

  lemma LeftStep(chunk: Word, base: Word, bytes: seq<Byte>, more: Op, last: Op, sent: nat, n: nat)
    requires sent < |bytes| && n == (if |bytes| - sent <= PKT then |bytes| - sent else PKT)
    ensures Left(chunk, base, bytes, more, last, sent)
         == [Packet(if |bytes| - sent <= PKT then last else more, chunk, Wrap(base + sent), Pad(bytes[sent..sent + n]))]
            + Left(chunk, base, bytes, more, last, sent + PKT)
  {
    var left := bytes[sent..];
    assert bytes[sent..sent + n] == left[..n];
    if |left| > PKT { assert left[PKT..] == bytes[sent + PKT..]; } else { assert left[..n] == left; }
  }

  lemma Shift(ps: seq<Packet>, p: Packet, left: seq<Packet>)
    ensures ps + ([p] + left) == ps + [p] + left
  {
  }

  /** The send loop: of the client with base 0, of the chunkserver with the offset of the query. */
  method SendLoop(chunk: Word, base: Word, bytes: seq<Byte>, more: Op, last: Op) returns (ps: seq<Packet>)
    requires |bytes| <= TWO32 - PKT
    ensures ps == Fragments(chunk, base, bytes, more, last)
  {
    ps := [];
    var sent: Word := 0;
    assert bytes[0..] == bytes;
    while sent < |bytes|
      invariant sent < |bytes| + PKT
      invariant Fragments(chunk, base, bytes, more, last) == ps + Left(chunk, base, bytes, more, last, sent)
    {
      var op, n := more, PKT;
      if |bytes| - sent <= PKT { n, op := |bytes| - sent, last; }
      LeftStep(chunk, base, bytes, more, last, sent, n);
      var p := Packet(op, chunk, Wrap(base + sent), Pad(bytes[sent..sent + n]));
      Shift(ps, p, Left(chunk, base, bytes, more, last, sent + PKT));
      ps := ps + [p];
      sent := sent + PKT;
    }
  }

  /** The receive loop of the client: packets are copied one behind the other until the end packet. */
  method ReceiveLoop(ps: seq<Packet>, chunkData: array<Byte>) returns (n: nat)
    requires ps != [] && ps[|ps| - 1].op == END_RD && PKT * |ps| <= chunkData.Length
    requires forall i :: 0 <= i < |ps| ==> |ps[i].data| == PKT && (i < |ps| - 1 ==> ps[i].op == RD)
    modifies chunkData
    ensures n == |ps| && |Joined(ps)| == 16 * n && chunkData[..16 * n] == Joined(ps)
    ensures forall j :: 16 * n <= j < chunkData.Length ==> chunkData[j] == old(chunkData[j])
  {
    n := 0;
    var cnt := 0;
    assert ps[0..] == ps;
    while true
      invariant n < |ps| && cnt == PKT * n
      invariant |Joined(ps[..n])| == cnt && chunkData[..cnt] == Joined(ps[..n])
      invariant forall j :: cnt <= j < chunkData.Length ==> chunkData[j] == old(chunkData[j])
      decreases |ps| - n
    {
      CopyPacket(chunkData, cnt, ps[n].data);
      JoinedSnoc(ps, n);
      n := n + 1;
      if ps[n - 1].op == END_RD { break; }
      cnt := cnt + PKT;
    }
    assert ps[..n] == ps;
  }

  lemma JoinedSnoc(ps: seq<Packet>, n: nat)
    requires n < |ps|
    ensures Joined(ps[..n + 1]) == Joined(ps[..n]) + ps[n].data
  {
    assert Fields(ps[..n + 1])[..n] == Fields(ps[..n]);
  }

  method CopyPacket(buf: array<Byte>, at: nat, data: seq<Byte>)
    requires |data| == PKT && at + PKT <= buf.Length
    modifies buf
    ensures buf[..at + PKT] == old(buf[..at]) + data
    ensures forall j :: at + PKT <= j < buf.Length ==> buf[j] == old(buf[j])
  {
    for i := 0 to PKT
      invariant buf[..at + i] == old(buf[..at]) + data[..i]
      invariant forall j :: at + i <= j < buf.Length ==> buf[j] == old(buf[j])
    {
      buf[at + i] := data[i];
    }
  }
}
