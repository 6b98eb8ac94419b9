/**
 * The chunkserver's write and read cases over the FAT32 volume (dfs/dfs-chunkserver.c,
 * dfs/dfs-chunk-fat.c), and whole transfers between client and chunkserver over a link
 * that delivers every packet once and in order.
 */
module ChunkServer {
  import opened Machine
  import opened Names
  import opened ChainStore
  import opened FatTable
  import opened Catalog
  import opened DiskLayout
  import opened Volumes
  import opened FileApi
  import opened Fragmentation

  /** The file of chunk `id` holds `bytes`, none of them NUL. */
  ghost predicate ChunkHolds(v: Volume, dir: Word, id: Word, bytes: seq<Byte>)
    reads v, v.fat
  {
    0 !in bytes && FileHolds(v, dir, ChunkName(id), bytes)
  }

  /** A chunk that was never written has no file, but the directory has room for it. */
  ghost predicate ChunkMissing(v: Volume, dir: Word, id: Word)
    reads v, v.fat
  {
    v.Valid() && HasRoom(v.cat, dir, ChunkName(id)) && !FileAt(v.cat, dir, ChunkName(id))
  }

  ghost predicate OtherChunksHold(v: Volume, c0: Catalog, d0: seq<Block>, dir: Word, id: Word)
    reads v
  {
    && v.geo.Ok() && v.geo.Fits(v.disk) && ValidName(ChunkName(id))
    && OthersHold(c0, d0, v.cat, v.Data(), dir, ChunkName(id))
  }

  /** `strlen` finds the end of the string in a data field. */
  method StringIn(data: seq<Byte>) returns (t: seq<Byte>)
    ensures t == Text(data)
  {
    var n := 0;
    while n < |data| && data[n] != 0
      invariant n <= |data| && forall i :: 0 <= i < n ==> data[i] != 0
    {
      n := n + 1;
    }
    TextIs(data, n);
    return data[..n];
  }

  lemma NameOfChunk(id: Word)
    requires 1 <= id < 100_000_000
    ensures ValidName(ChunkName(id)) && DOT in ChunkName(id) && 0 !in ChunkName(id)
  {
    ChunkNameValidIff(id);
    var s := ChunkName(id);
    assert s[|s| - 4] == DOT;
  }

  /** The memory behind an allocation is at least a cluster, and clusters are below 4 GB less two chunks. */
  ghost predicate Ready(v: Volume, behind: seq<Byte>) {
    PKT <= v.geo.ClusterBytes() <= |behind| && v.geo.ClusterBytes() <= TWO32 - 2 * CHUNK_SIZE
  }

  /** A packet with offset 0 creates the chunk if it is missing. */
  method CreateOnFirst(v: Volume, dir: Word, p: Packet, name: seq<Byte>, ghost bytes: seq<Byte>)
    requires 1 <= p.chunk < 100_000_000 && name == ChunkName(p.chunk) && v.geo.ClusterBytes() <= TWO32
    requires ChunkHolds(v, dir, p.chunk, bytes) || (p.offset == 0 && bytes == [] && ChunkMissing(v, dir, p.chunk))
    modifies v, v.fat
    ensures ChunkHolds(v, dir, p.chunk, bytes) && OtherChunksHold(v, old(v.cat), old(v.Data()), dir, p.chunk)
    ensures v.fat[..] == old(v.fat[..])
  {
    NameOfChunk(p.chunk);
    OthersHoldAlready(v.fat[..], v.cat, v.Data(), dir, name);
    if p.offset == 0 {
      var _ := CreateFile(v, dir, name);
    }
  }

  /**
   * The DFS_WR and DFS_END_WR cases: the string in the packet is appended to the chunk; an end packet is acknowledged.
   */
  method HandleWrite(v: Volume, dir: Word, p: Packet, behind: seq<Byte>, ghost bytes: seq<Byte>)
    returns (r: Outcome<bool>)
    requires |p.data| == PKT && 1 <= p.chunk < 100_000_000 && |bytes| <= CHUNK_SIZE && Ready(v, behind)
    requires ChunkHolds(v, dir, p.chunk, bytes) || (p.offset == 0 && bytes == [] && ChunkMissing(v, dir, p.chunk))
    modifies v, v.fat
    ensures r.Panicked? ==> FirstFree(v.fat[..], 3) == v.geo.n
    ensures Accounted(v, |bytes + Text(p.data)|, old(Capacity(v, |bytes|)), r.Panicked?)
    ensures r.Returned? ==> ChunkHolds(v, dir, p.chunk, bytes + Text(p.data)) && (r.value <==> p.op == END_WR)
    ensures r.Returned? ==> OtherChunksHold(v, old(v.cat), old(v.Data()), dir, p.chunk)
  {
    NameOfChunk(p.chunk);
    var name := FileNameOf(p.chunk);
    CreateOnFirst(v, dir, p, name, bytes);
    ghost var c1, d1 := v.cat, v.Data();
    var done := AppendText(v, dir, p, name, behind, bytes);
    if done.Panicked? { return Panicked; }
    OthersHoldTwice(old(v.cat), old(v.Data()), c1, d1, v.cat, v.Data(), dir, name);
    return Returned(p.op == END_WR);
  }

  method FileNameOf(id: Word) returns (name: seq<Byte>)
    ensures name == ChunkName(id)
  {
    var res, len := IntToFilename(id, false);
    return res[..len];
  }

  /** `chunkserver_append_chunk` with the data field of a packet. */
  method AppendText(v: Volume, dir: Word, p: Packet, name: seq<Byte>, behind: seq<Byte>, ghost bytes: seq<Byte>)
    returns (r: Outcome<bool>)
    requires |p.data| == PKT && 1 <= p.chunk < 100_000_000 && |bytes| <= CHUNK_SIZE && Ready(v, behind)
    requires name == ChunkName(p.chunk) && ChunkHolds(v, dir, p.chunk, bytes)
    modifies v, v.fat
    ensures r.Panicked? ==> FirstFree(v.fat[..], 3) == v.geo.n
    ensures Accounted(v, |bytes + Text(p.data)|, old(Capacity(v, |bytes|)), r.Panicked?)
    ensures r.Returned? ==> ChunkHolds(v, dir, p.chunk, bytes + Text(p.data))
    ensures r.Returned? ==> OtherChunksHold(v, old(v.cat), old(v.Data()), dir, p.chunk)
  {
    NameOfChunk(p.chunk);
    var text := StringIn(p.data);
    r := Append(v, dir, name, text, behind, bytes);
  }

  /** The chunk as it is before or after any number of writes. */
  ghost predicate ChunkIs(v: Volume, dir: Word, id: Word, bytes: seq<Byte>)
    reads v, v.fat
  {
    ChunkHolds(v, dir, id, bytes) || (bytes == [] && ChunkMissing(v, dir, id))
  }

  /** One write of the client, packet by packet; it ends with exactly one acknowledgement. */
  method WriteChunk(v: Volume, dir: Word, id: Word, w: seq<Byte>, behind: seq<Byte>, ghost bytes: seq<Byte>,
                    ghost total: seq<Byte>,
                    ghost c0: Catalog, ghost d0: seq<Block>)
    returns (r: Outcome<nat>)
    requires 1 <= id < 100_000_000 && Ready(v, behind) && ChunkIs(v, dir, id, bytes)
             && OtherChunksHold(v, c0, d0, dir, id)
    requires w != [] && 0 !in w && total == bytes + w && |total| <= CHUNK_SIZE
    modifies v, v.fat
    ensures r.Panicked? ==> FirstFree(v.fat[..], 3) == v.geo.n
    ensures Accounted(v, |total|, old(Capacity(v, |bytes|)), r.Panicked?)
    ensures r.Returned? ==> ChunkHolds(v, dir, id, total) && r.value == 1 && OtherChunksHold(v, c0, d0, dir, id)
  {
    var ps := SendWrite(id, w, bytes, total);
    var ack := FirstPacket(v, dir, id, w, ps, behind, bytes, c0, d0);
    GrownBlocks(|After(bytes, w, 1)|, |total|, v.geo.ClusterBytes());
    if ack.Panicked? { return Panicked; }
    r := MorePackets(v, dir, id, w, ps, 1, behind, bytes, c0, d0);
    if r.Returned? && ack.value { r := Returned(r.value + 1); }
  }

  /** `dfs_client_write_chunk_data` on the sending side. */
  method SendWrite(id: Word, w: seq<Byte>, ghost bytes: seq<Byte>, ghost total: seq<Byte>) returns (ps: seq<Packet>)
    requires |w| <= CHUNK_SIZE && 0 !in w && total == bytes + w
    ensures IsWrite(ps, id, w) && After(bytes, w, |ps|) == total && (w != [] ==> ps != [])
  {
    ps := SendLoop(id, 0, w, WR, END_WR);
    FragmentsAreAWrite(id, w);
    AfterAll(bytes, w, |ps|);
    FragmentCount(id, 0, w, WR, END_WR);
  }

  method FirstPacket(v: Volume, dir: Word, id: Word, ghost w: seq<Byte>, ps: seq<Packet>, behind: seq<Byte>,
                     ghost bytes: seq<Byte>,
                     ghost c0: Catalog, ghost d0: seq<Block>)
    returns (r: Outcome<bool>)
    requires 1 <= id < 100_000_000 && Ready(v, behind) && ChunkIs(v, dir, id, bytes) && |bytes| + |w| <= CHUNK_SIZE
    requires IsWrite(ps, id, w) && 0 < |ps| && OtherChunksHold(v, c0, d0, dir, id)
    modifies v, v.fat
    ensures r.Panicked? ==> FirstFree(v.fat[..], 3) == v.geo.n
    ensures Accounted(v, |After(bytes, w, 1)|, old(Capacity(v, |bytes|)), r.Panicked?)
    ensures r.Returned? ==> (r.value <==> 1 == |ps|) && ChunkHolds(v, dir, id, After(bytes, w, 1))
    ensures r.Returned? ==> OtherChunksHold(v, c0, d0, dir, id)
  {
    assert PacketOk(ps, id, w, 0);
    NextPiece(bytes, w, 0);
    AfterAll(bytes, w, |ps|);
    ghost var c1, d1 := v.cat, v.Data();
    r := HandleWrite(v, dir, ps[0], behind, bytes);
    if r.Returned? { OthersHoldTwice(c0, d0, c1, d1, v.cat, v.Data(), dir, ChunkName(id)); }
  }

  /** The link hands the packets from number `k` on to the chunkserver, and counts its acknowledgements. */
  method MorePackets(v: Volume, dir: Word, id: Word, ghost w: seq<Byte>, ps: seq<Packet>, k: nat, behind: seq<Byte>,
                     ghost bytes: seq<Byte>, ghost c0: Catalog, ghost d0: seq<Block>)
    returns (r: Outcome<nat>)
    requires 1 <= id < 100_000_000 && Ready(v, behind) && |bytes| + |w| <= CHUNK_SIZE
             && OtherChunksHold(v, c0, d0, dir, id)
    requires IsWrite(ps, id, w) && 0 < k <= |ps| && ChunkHolds(v, dir, id, After(bytes, w, k))
    modifies v, v.fat
    ensures r.Panicked? ==> FirstFree(v.fat[..], 3) == v.geo.n
    ensures Accounted(v, |After(bytes, w, |ps|)|, old(Capacity(v, |After(bytes, w, k)|)), r.Panicked?)
    ensures r.Returned? ==> r.value == (if k < |ps| then 1 else 0) && ChunkHolds(v, dir, id, After(bytes, w, |ps|))
    ensures r.Returned? ==> OtherChunksHold(v, c0, d0, dir, id)
    decreases |ps| - k
  {
    if k == |ps| { return Returned(0); }
    assert PacketOk(ps, id, w, k);
    NextPiece(bytes, w, k);
    ghost var c1, d1 := v.cat, v.Data();
    var ack := HandleWrite(v, dir, ps[k], behind, After(bytes, w, k));
    GrownBlocks(|After(bytes, w, k + 1)|, |After(bytes, w, |ps|)|, v.geo.ClusterBytes());
    if ack.Panicked? { return Panicked; }
    OthersHoldTwice(c0, d0, c1, d1, v.cat, v.Data(), dir, ChunkName(id));
    r := MorePackets(v, dir, id, w, ps, k + 1, behind, bytes, c0, d0);
    if r.Returned? && ack.value { r := Returned(r.value + 1); }
  }

  // ----- several writes, then a read -----

  /** Each write is a non-empty string without NUL. */
  ghost predicate Strings(ws: seq<seq<Byte>>) { forall i :: 0 <= i < |ws| ==> ws[i] != [] && 0 !in ws[i] }

  lemma NextWrite(bytes: seq<Byte>, ws: seq<seq<Byte>>, total: seq<Byte>) returns (mid: seq<Byte>)
    requires ws != [] && Strings(ws) && total == bytes + Flat(ws)
    ensures ws[0] != [] && 0 !in ws[0] && mid == bytes + ws[0] && |mid| <= |total|
    ensures |ws| == 1 ==> total == mid
    ensures Strings(ws[1..]) && total == mid + Flat(ws[1..])
  {
    mid := bytes + ws[0];
    FlatHead(ws);
  }

  /** A chunk that takes several writes holds them one behind the other, and acknowledges each once. */
  method WriteAll(v: Volume, dir: Word, id: Word, ws: seq<seq<Byte>>, behind: seq<Byte>, ghost bytes: seq<Byte>,
                  ghost total: seq<Byte>,
                  ghost c0: Catalog, ghost d0: seq<Block>)
    returns (r: Outcome<nat>)
    requires 1 <= id < 100_000_000 && Ready(v, behind) && ChunkIs(v, dir, id, bytes)
             && OtherChunksHold(v, c0, d0, dir, id)
    requires ws != [] && Strings(ws) && total == bytes + Flat(ws) && |total| <= CHUNK_SIZE
    modifies v, v.fat
    ensures r.Panicked? ==> FirstFree(v.fat[..], 3) == v.geo.n
    ensures Accounted(v, |total|, old(Capacity(v, |bytes|)), r.Panicked?)
    ensures r.Returned? ==> ChunkHolds(v, dir, id, total) && r.value == |ws| && OtherChunksHold(v, c0, d0, dir, id)
    decreases |ws|
  {
    ghost var mid := NextWrite(bytes, ws, total);
    r := WriteChunk(v, dir, id, ws[0], behind, bytes, mid, c0, d0);
    GrownBlocks(|mid|, |total|, v.geo.ClusterBytes());
    if r.Returned? && |ws| > 1 {
      r := WriteAll(v, dir, id, ws[1..], behind, mid, total, c0, d0);
      if r.Returned? { r := Returned(r.value + 1); }
    }
  }

  // ----- answering a query -----

  const MAX_CONN: nat := 4  // DFS_MAX_CONN

  /** What the DFS_RD case does: nothing for a bad port, a list of packets, or sending that never stops. */
  datatype Answer = Ignored | Packets(ps: seq<Packet>) | Endless

  /** `bytes_to_send`: clamped to the chunk's `n` bytes only if the offset is inside, by a sum that wraps. */
  function ToSend(offset: Word, nbytes: Word, n: Word): Word {
    if offset >= n then nbytes else if Wrap(offset + nbytes) > n then n - offset else nbytes
  }

  function Address(offset: Word, i: nat): Word { Wrap(offset + i) }

  /** Memory as seen from the start of the buffer: the bytes read, then what lies behind them. */
  function Memory(data: seq<Byte>, behind: Word -> Byte): Word -> Byte {
    (a: Word) => if a < |data| then data[a] else behind(a)
  }

  function Window(mem: Word -> Byte, offset: Word, m: nat): (w: seq<Byte>)
    ensures |w| == m && forall i :: 0 <= i < m ==> w[i] == mem(Address(offset, i))
  {
    seq<Byte>(m, i requires 0 <= i < m => mem(Address(offset, i)))
  }

  function AnswerTo(port: Byte, id: Word, offset: Word, nbytes: Word, mem: Word -> Byte, n: Word): Answer {
    if port >= MAX_CONN then Ignored
    else if ToSend(offset, nbytes, n) > TWO32 - PKT then Endless
    else Packets(Fragments(id, offset, Window(mem, offset, ToSend(offset, nbytes, n)), RD, END_RD))
  }

  /** `bytes_sent` after `k` packets. */
  function Sent(k: nat): Word { if k == 0 then 0 else Wrap(Sent(k - 1) + PKT) }

  lemma {:induction false} SentIs(k: nat)
    ensures Sent(k) % PKT == 0 && Sent(k) <= TWO32 - PKT && (PKT * k < TWO32 ==> Sent(k) == PKT * k)
  {
    if k > 0 { SentIs(k - 1); }
  }

  /** The counter of the send loop wraps before it reaches the bytes to send exactly above 2^32 - 16. */
  lemma SendingNeverEndsIff(m: Word)
    ensures (forall k :: Sent(k) < m) <==> m > 0x1_0000_0000 - 16
  {
    if m > TWO32 - PKT {
      forall k ensures Sent(k) < m { SentIs(k); }
    } else {
      var k := (m + PKT - 1) / PKT;
      SentIs(k);
      assert Sent(k) >= m;
    }
  }

  ghost predicate StaysInside(offset: Word, m: nat, n: Word) { forall i: nat :: i < m ==> Address(offset, i) < n }

  /** A query reads bytes of the chunk only, exactly if it asks for none, or starts inside and its end does not wrap. */
  lemma AnswerStaysInsideIff(offset: Word, nbytes: Word, n: Word)
    ensures StaysInside(offset, ToSend(offset, nbytes, n), n)
       <==> nbytes == 0 || (offset < n && offset + nbytes < TWO32)
  {
    var m := ToSend(offset, nbytes, n);
    if nbytes == 0 {
    } else if offset >= n {
      assert Address(offset, 0) == offset;
    } else if offset + nbytes >= TWO32 {
      assert Address(offset, n - offset) == n && n - offset < m;
    }
  }

  /** An offset at the end of a non-empty chunk is not refused: the byte behind the chunk is sent. */
  lemma OffsetBehindTheChunk(mem: Word -> Byte)
    ensures AnswerTo(0, 1, 1, 1, mem, 1) == Packets([Packet(END_RD, 1, 1, Pad([mem(1)]))])
    ensures !StaysInside(1, ToSend(1, 1, 1), 1)
  {
    AnswerStaysInsideIff(1, 1, 1);
    assert Window(mem, 1, 1) == [mem(Address(1, 0))];
  }

  /** The sum of offset 1 and 2^32 - 1 bytes wraps to 0: the request is not clamped and never done. */
  lemma LengthThatWraps(mem: Word -> Byte)
    ensures AnswerTo(0, 1, 1, 0xFFFF_FFFF, mem, 2) == Endless && !StaysInside(1, ToSend(1, 0xFFFF_FFFF, 2), 2)
  {
    AnswerStaysInsideIff(1, 0xFFFF_FFFF, 2);
  }

  /** What a query inside the chunk asks for: no more than the chunk has. */
  function Wanted(bytes: seq<Byte>, offset: nat, nbytes: nat): (r: seq<Byte>)
    requires offset < |bytes|
    ensures offset + |r| <= |bytes|
  {
    if offset + nbytes > |bytes| then bytes[offset..] else bytes[offset..offset + nbytes]
  }

  lemma WindowInside(data: seq<Byte>, behind: Word -> Byte, offset: Word, m: nat)
    requires offset + m <= |data| && offset + m < TWO32
    ensures Window(Memory(data, behind), offset, m) == data[offset..offset + m]
  {
    var w := Window(Memory(data, behind), offset, m);
    forall i | 0 <= i < m ensures w[i] == data[offset + i] { assert Address(offset, i) == offset + i; }
  }

  /** The answer to a query inside the chunk is the bytes asked for, whatever lies behind the buffer. */
  lemma AnswerInside(port: Byte, id: Word, offset: Word, nbytes: Word, data: seq<Byte>, behind: Word -> Byte,
                     bytes: seq<Byte>)
    requires port < MAX_CONN && bytes <= data && offset < |bytes| < TWO32 - PKT && offset + nbytes < TWO32
    ensures AnswerTo(port, id, offset, nbytes, Memory(data, behind), |bytes|)
         == Packets(Fragments(id, offset, Wanted(bytes, offset, nbytes), RD, END_RD))
  {
    var m := ToSend(offset, nbytes, |bytes|);
    WindowInside(data, behind, offset, m);
    assert data[offset..offset + m] == bytes[offset..offset + m] == Wanted(bytes, offset, nbytes);
  }

  /** The DFS_RD case.  `data` is the buffer with the chunk, `behind` the memory that follows it. */
  method HandleRead(v: Volume, dir: Word, port: Byte, id: Word, offset: Word, nbytes: Word, behind: Word -> Byte,
                    ghost bytes: seq<Byte>)
    returns (r: Answer, data: seq<Byte>)
    requires 1 <= id < 100_000_000 && ChunkHolds(v, dir, id, bytes)
    ensures port < MAX_CONN ==> bytes <= data && (bytes == [] ==> data == [])
    ensures r == AnswerTo(port, id, offset, nbytes, Memory(data, behind), |bytes|) && (r.Ignored? <==> port >= 4)
  {
    if port >= MAX_CONN { return Ignored, []; }
    var name := FileNameOf(id);
    var n;
    data, n := ReadFile(v, dir, name, bytes);
    r := SendData(id, offset, nbytes, Memory(data, behind), n);
  }

  method SendData(id: Word, offset: Word, nbytes: Word, mem: Word -> Byte, n: Word) returns (r: Answer)
    ensures r == AnswerTo(0, id, offset, nbytes, mem, n)
  {
    var toSend := nbytes;
    if offset < n && Wrap(offset + nbytes) > n { toSend := n - offset; }
    if toSend > TWO32 - PKT { return Endless; }
    var ps := SendLoop(id, offset, Window(mem, offset, toSend), RD, END_RD);
    return Packets(ps);
  }

  /** The client's buffer begins with the bytes sent, and the last packet ends in zeros. */
  ghost predicate Fetched(buf: array<Byte>, n: nat, bytes: seq<Byte>)
    reads buf
  {
    && |bytes| <= 16 * n < |bytes| + 16 && 16 * n <= buf.Length
    && buf[..16 * n] == bytes + Zeros(16 * n - |bytes|)
  }

  /** `dfs_client_query_chunk_data` on the receiving side. */
  method Receive(id: Word, ps: seq<Packet>, chunkData: array<Byte>, ghost bytes: seq<Byte>) returns (n: nat)
    requires 0 < |bytes| <= CHUNK_SIZE == chunkData.Length && ps == Fragments(id, 0, bytes, RD, END_RD)
    modifies chunkData
    ensures Fetched(chunkData, n, bytes)
  {
    ReadPackets(id, bytes);
    n := ReceiveLoop(ps, chunkData);
  }

  /** A whole query: the client asks for the chunk from its start; an empty chunk yields the memory behind it. */
  method FetchChunk(v: Volume, dir: Word, port: Byte, id: Word, memory: Word -> Byte, chunkData: array<Byte>,
                    ghost bytes: seq<Byte>)
    returns (n: nat)
    requires port < MAX_CONN && 1 <= id < 100_000_000 && ChunkHolds(v, dir, id, bytes)
    requires |bytes| <= 1024 == chunkData.Length
    modifies chunkData
    ensures Fetched(chunkData, n, if bytes == [] then Window(memory, 0, 1024) else bytes)
  {
    var r, data := HandleRead(v, dir, port, id, 0, CHUNK_SIZE, memory, bytes);
    ghost var sent := if bytes == [] then Window(memory, 0, CHUNK_SIZE) else bytes;
    AnswerToClient(port, id, data, memory, bytes, sent);
    n := Receive(id, r.ps, chunkData, sent);
  }

  lemma AnswerToClient(port: Byte, id: Word, data: seq<Byte>, behind: Word -> Byte, bytes: seq<Byte>, sent: seq<Byte>)
    requires port < MAX_CONN && |bytes| <= CHUNK_SIZE && bytes <= data && (bytes == [] ==> data == [])
    requires sent == if bytes == [] then Window(behind, 0, CHUNK_SIZE) else bytes
    ensures AnswerTo(port, id, 0, CHUNK_SIZE, Memory(data, behind), |bytes|)
         == Packets(Fragments(id, 0, sent, RD, END_RD))
  {
    if bytes == [] {
      var w := Window(Memory(data, behind), 0, CHUNK_SIZE);
      forall i | 0 <= i < CHUNK_SIZE ensures w[i] == sent[i] {}
      assert w == sent;
    } else {
      AnswerInside(port, id, 0, CHUNK_SIZE, data, behind, bytes);
      assert Wanted(bytes, 0, CHUNK_SIZE) == bytes;
    }
  }

  lemma ReadPackets(id: Word, bytes: seq<Byte>)
    requires 0 < |bytes| <= CHUNK_SIZE
    ensures var ps := Fragments(id, 0, bytes, RD, END_RD);
      && ps != [] && ps[|ps| - 1].op == END_RD && |bytes| <= PKT * |ps| < |bytes| + PKT && PKT * |ps| <= CHUNK_SIZE
      && (forall i :: 0 <= i < |ps| ==> |ps[i].data| == PKT && (i < |ps| - 1 ==> ps[i].op == RD))
      && Joined(ps) == bytes + Zeros(PKT * |ps| - |bytes|)
  {
    var ps := Fragments(id, 0, bytes, RD, END_RD);
    FragmentCount(id, 0, bytes, RD, END_RD);
    JoinUndoesFragment(id, 0, bytes, RD, END_RD);
    forall i | 0 <= i < |ps| ensures |ps[i].data| == PKT && ps[i].op == if i < |ps| - 1 then RD else END_RD {
      EndPacketIsLast(id, 0, bytes, RD, END_RD, i);
    }
  }

  /**
   * End to end: a fresh chunk, any writes of at most 1024 bytes in all, and a read that returns their concatenation.
   */
  method StoreAndFetch(v: Volume, dir: Word, port: Byte, id: Word, ws: seq<seq<Byte>>, behind: seq<Byte>,
                       memory: Word -> Byte, chunkData: array<Byte>)
    returns (r: Outcome<nat>)
    requires port < MAX_CONN && 1 <= id < 100_000_000 && Ready(v, behind) && ChunkMissing(v, dir, id)
    requires ws != [] && Strings(ws) && |Flat(ws)| <= 1024 == chunkData.Length
    modifies v, v.fat, chunkData
    ensures r.Panicked? ==> FirstFree(v.fat[..], 3) == v.geo.n
    ensures r.Panicked? <==> NumBlocks(|Flat(ws)|, v.geo.ClusterBytes()) > old(|FreeSet(v.fat[..])|)
    ensures r.Returned? ==> Fetched(chunkData, r.value, Flat(ws))
    ensures r.Returned? ==> OtherChunksHold(v, old(v.cat), old(v.Data()), dir, id)
  {
    ghost var total := Flat(ws);
    var acks := StoreAll(v, dir, id, ws, behind, total);
    if acks.Panicked? { return Panicked; }
    var n := FetchChunk(v, dir, port, id, memory, chunkData, total);
    return Returned(n);
  }

  method StoreAll(v: Volume, dir: Word, id: Word, ws: seq<seq<Byte>>, behind: seq<Byte>, ghost total: seq<Byte>)
    returns (r: Outcome<nat>)
    requires 1 <= id < 100_000_000 && Ready(v, behind) && ChunkMissing(v, dir, id)
    requires ws != [] && Strings(ws) && total == Flat(ws) && |total| <= CHUNK_SIZE
    modifies v, v.fat
    ensures r.Panicked? <==> NumBlocks(|total|, v.geo.ClusterBytes()) > old(|FreeSet(v.fat[..])|)
    ensures r.Panicked? ==> FirstFree(v.fat[..], 3) == v.geo.n
    ensures r.Returned? ==> ChunkHolds(v, dir, id, total) && total != []
    ensures r.Returned? ==> OtherChunksHold(v, old(v.cat), old(v.Data()), dir, id)
  {
    NameOfChunk(id);
    OthersHoldAlready(v.fat[..], v.cat, v.Data(), dir, ChunkName(id));
    assert total == [] + Flat(ws);
    ghost var _ := NextWrite([], ws, total);
    NumBlocksBound(0, v.geo.ClusterBytes(), 0);
    r := WriteAll(v, dir, id, ws, behind, [], total, v.cat, v.Data());
  }
}
