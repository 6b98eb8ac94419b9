/**
 The FAT32 driver: an object with the in-memory table and the card, and the methods that
 walk, allocate, free and rewrite chains and directory entries in place.
 */
module Volumes {
  import opened Machine
  import opened FatTable
  import opened ChainStore
  import opened Names
  import opened Directory
  import opened Catalog
  import opened DiskLayout

  /** The table while the first `i` clusters of `ch` are rewritten and `m` of them are kept. */
  ghost function CutUpTo(f: seq<Word>, ch: seq<Word>, m: nat, i: nat): (r: seq<Word>)
    requires Within(ch, |f|) && i <= |ch|
    ensures |r| == |f|
  {
    if i == 0 then f
    else
      var g := CutUpTo(f, ch, m, i - 1);
      if m >= |ch| || i < m then g else g[ch[i - 1] := if i == m then END_MARK else 0]
  }

  lemma {:induction false} CutUpToAt(f: seq<Word>, ch: seq<Word>, m: nat, i: nat, c: nat)
    requires Within(ch, |f|) && Distinct(ch) && i <= |ch| && c < |f|
    ensures CutUpTo(f, ch, m, i)[c] ==
            if m >= |ch| || i < m then f[c] else if c in ch[m..i] then 0
            else if 0 < m && c == ch[m - 1] then END_MARK else f[c]
  {
    if i > 0 {
      CutUpToAt(f, ch, m, i - 1, c);
      if m < i { assert ch[m..i] == ch[m..i - 1] + [ch[i - 1]]; }
    }
  }

  lemma {:induction false} CutComplete(f: seq<Word>, ch: seq<Word>, m: nat)
    requires Within(ch, |f|) && Distinct(ch)
    ensures CutUpTo(f, ch, m, |ch|) == if m < |ch| then Cut(f, ch, m) else f
  {
    forall c | 0 <= c < |f| ensures CutUpTo(f, ch, m, |ch|)[c] == (if m < |ch| then Cut(f, ch, m) else f)[c] {
      CutUpToAt(f, ch, m, |ch|, c);
      if m < |ch| { assert ch[m..|ch|] == ch[m..]; }
    }
  }

  /** The byte offset of `k` clusters, as the loop adds it up. */
  ghost function Off(k: nat, size: nat): nat { if k == 0 then 0 else Off(k - 1, size) + size }

  lemma {:induction false} OffIsProduct(k: nat, size: nat)
    ensures Off(k, size) == k * size
  {
    if k > 0 { OffIsProduct(k - 1, size); }
  }

  /** What happens to the table at the cluster numbered `count` (from 1). */
  lemma {:induction false} CutCases(f: seq<Word>, ch: seq<Word>, m: nat, count: nat)
    requires Within(ch, |f|) && Distinct(ch) && 0 < count <= |ch|
    ensures var c, g, h := ch[count - 1], CutUpTo(f, ch, m, count - 1), CutUpTo(f, ch, m, count);
      && g[c] == f[c]
      && (m < count ==> h == g[c := 0])
      && (m >= count && count == |ch| ==> h == g)
      && (m == count && count < |ch| ==> h == g[c := END_MARK])
      && (m > count ==> h == g)
  {
    CutUpToAt(f, ch, m, count - 1, ch[count - 1]);
  }

  /** The fields of the boot sector that `fat32_mk` uses. */
  datatype BootSector = BootSector(
    reservedSecs: nat, nfats: nat, nsecPerFat: nat, secPerCluster: nat, bytesPerSec: nat, firstCluster: Word)
  {
    function Geo(lbaStart: nat): Geometry {
      var fatBegin := lbaStart + reservedSecs;
      Geometry(fatBegin, fatBegin + nfats * nsecPerFat, secPerCluster, firstCluster, nsecPerFat * bytesPerSec / 4)
    }

    /** The words of the first copy of the table. */
    function ReadTable(lbaStart: nat, card: seq<Byte>): (words: seq<Word>)
      requires bytesPerSec == SECTOR && Geo(lbaStart).Ok() && Geo(lbaStart).Fits(card)
      ensures words == ToWords(TableBytes(card, Geo(lbaStart))) && |words| == Geo(lbaStart).n
    {
      var g := Geo(lbaStart);
      ClusterRange(g, 2);
      ToWords(card[SECTOR * g.fatBegin..SECTOR * g.fatBegin + SECTOR * nsecPerFat])
    }
  }

  /** What `fat32_create` returns: NULL, the entry that exists already, or the new entry. */
  datatype CreateResult = InvalidName | Existing(e: Entry) | NewEntry(e: Entry)

  datatype Outcome<T> = Panicked | Returned(value: T)

  /** `fat32_mk`: the geometry from the boot sector, and the table read from its first copy. */
  method Mount(lbaStart: nat, boot: BootSector, card: seq<Byte>, ghost c: Catalog) returns (v: Volume)
    requires boot.bytesPerSec == SECTOR && boot.nfats == 2
    requires boot.Geo(lbaStart).Ok() && boot.Geo(lbaStart).Fits(card)
    requires var g := boot.Geo(lbaStart);
             Consistent(Store(ToWords(TableBytes(card, g)), Clusters(card, g)), c, g.root, 16 * g.spc)
    ensures fresh(v) && fresh(v.fat) && v.Valid() && v.disk == card && v.cat == c && v.geo == boot.Geo(lbaStart)
    ensures v.fat[..] == ToWords(TableBytes(card, v.geo)) && v.fat.Length == 128 * boot.nsecPerFat
    ensures v.geo.root == boot.firstCluster && v.geo.spc == boot.secPerCluster
  {
    var words := boot.ReadTable(lbaStart, card);
    var table := ArrayOf(words);
    v := new Volume(boot.Geo(lbaStart), table, card, c);
    v.MountedIsValid();
  }

  /** Where cluster `c` lies on the card, by the fields of the boot sector. */
  lemma ClusterPlace(lbaStart: nat, boot: BootSector, card: seq<Byte>, c: nat, at: nat)
    requires boot.Geo(lbaStart).Ok() && boot.Geo(lbaStart).Fits(card) && 2 <= c < boot.Geo(lbaStart).n
    requires at == lbaStart + boot.reservedSecs + boot.nfats * boot.nsecPerFat + (c - 2) * boot.secPerCluster
    ensures 512 * at + 512 * boot.secPerCluster <= |card|
    ensures Clusters(card, boot.Geo(lbaStart))[c] == card[512 * at..512 * at + 512 * boot.secPerCluster]
  {
    ClusterRange(boot.Geo(lbaStart), c);
  }

  /** Where word `i` of the table lies: low byte first, in the first copy. */
  lemma TableWordPlace(lbaStart: nat, boot: BootSector, card: seq<Byte>, i: nat, at: nat)
    requires boot.bytesPerSec == 512 && boot.Geo(lbaStart).Ok() && boot.Geo(lbaStart).Fits(card)
    requires i < 128 * boot.nsecPerFat && at == 512 * (lbaStart + boot.reservedSecs) + 4 * i
    ensures at + 4 <= |card| && |ToWords(TableBytes(card, boot.Geo(lbaStart)))| == 128 * boot.nsecPerFat
    ensures var w: int := ToWords(TableBytes(card, boot.Geo(lbaStart)))[i];
      && w % 0x100 == card[at] && w / 0x100 % 0x100 == card[at + 1]
      && w / 0x1_0000 % 0x100 == card[at + 2] && w / 0x100_0000 == card[at + 3]
  {
    var g := boot.Geo(lbaStart);
    ClusterRange(g, 2);
    assert g.n == 128 * boot.nsecPerFat;
    Le32Value(card[at], card[at + 1], card[at + 2], card[at + 3]);
  }

  method ArrayOf(words: seq<Word>) returns (table: array<Word>)
    ensures fresh(table) && table.Length == |words| && table[..] == words
  {
    table := new Word[|words|](i requires 0 <= i < |words| => words[i]);
  }

  class Volume {
    const geo: Geometry
    const fat: array<Word>
    var disk: seq<Byte>
    ghost var cat: Catalog

    /** The object is usable: table and card have the sizes of the geometry. */
    ghost predicate Mounted()
      reads this, fat
    {
      geo.Ok() && fat.Length == geo.n && geo.Fits(disk) && Readable(fat[..])
    }

    ghost function Data(): (data: seq<Block>)
      requires geo.Ok() && geo.Fits(disk)
      reads this
      ensures |data| == geo.n
    {
      Clusters(disk, geo)
    }

    ghost function St(): (st: Store)
      requires Mounted()
      reads this, fat
    {
      Store(fat[..], Data())
    }

    constructor (g: Geometry, table: array<Word>, card: seq<Byte>, ghost c: Catalog)
      ensures geo == g && fat == table && disk == card && cat == c
    {
      geo, fat, disk, cat := g, table, card, c;
    }

    /** A consistent card whose table is in memory makes the volume valid. */
    lemma MountedIsValid()
      requires geo.Ok() && geo.Fits(disk) && fat.Length == geo.n && fat[..] == ToWords(TableBytes(disk, geo))
      requires Consistent(Store(fat[..], Clusters(disk, geo)), cat, geo.root, 16 * geo.spc)
      ensures Valid()
    {
      BytesOfWords(TableBytes(disk, geo));
      assert St() == Store(fat[..], Clusters(disk, geo));
    }

    // ------------------------------------------------------------- the card

    /** `pi_sec_read` of one cluster. */
    method SecRead(c: Word) returns (b: Block)
      requires geo.Ok() && geo.Fits(disk) && 2 <= c < geo.n
      ensures b == Data()[c] && |b| == geo.ClusterBytes()
    {
      ClusterRange(geo, c);
      var lba := ClusterToLba(c);
      b := disk[SECTOR * lba..SECTOR * lba + SECTOR * geo.spc];
    }

    /** `cluster_to_lba`: the 32-bit arithmetic does not wrap. */
    method ClusterToLba(c: Word) returns (lba: Word)
      requires geo.Ok() && 2 <= c < geo.n
      ensures lba == geo.Lba(c) && geo.fatBegin + geo.n / 128 <= lba
    {
      ClusterRange(geo, c);
      lba := Wrap(geo.clusterBegin + (c - 2) * geo.spc);
    }

    /** `pi_sd_write` of one cluster. */
    method SdWrite(b: Block, c: Word)
      requires geo.Ok() && geo.Fits(disk) && 2 <= c < geo.n && |b| == geo.ClusterBytes()
      modifies this`disk
      ensures geo.Fits(disk) && Data() == old(Data())[c := b]
      ensures TableBytes(disk, geo) == old(TableBytes(disk, geo))
    {
      WritingACluster(disk, geo, c, b);
      var lba := ClusterToLba(c);
      disk := Splice(disk, SECTOR * lba, b);
    }

    /** `write_fat_to_disk`: the flush covers the first copy of the table and nothing else. */
    method FlushTable()
      requires Mounted()
      modifies this`disk
      ensures Mounted() && Data() == old(Data())
      ensures TableBytes(disk, geo) == ToBytes(fat[..])
    {
      var sectors := fat.Length / 128;
      var bytes := ToBytes(fat[..]);
      WritingTheTable(disk, geo, bytes[..SECTOR * sectors]);
      assert bytes[..SECTOR * sectors] == bytes;
      disk := Splice(disk, SECTOR * geo.fatBegin, bytes[..SECTOR * sectors]);
    }

    // ----------------------------------------------------------- chain walks

    /** `get_cluster_chain_length`; a chain has fewer clusters than the table has entries. */
    method ChainLength(start: Word, ghost ch: seq<Word>) returns (count: nat)
      requires Mounted() && IsChain(fat[..], start, ch)
      ensures count == |ch| <= geo.n
    {
      ChainIsShort(fat[..], start, ch);
      if start == 0 {
        return 0;
      }
      count := 0;
      var cluster := start;
      while true
        invariant count < |ch| && cluster == ch[count]
        decreases |ch| - count
      {
        assert LinkOk(fat[..], ch, count);
        count := count + 1;
        cluster := fat[cluster];
        if IsLast(cluster) {
          break;
        }
      }
    }

    /** `read_cluster_chain`: the clusters of the chain, end to end. */
    method ReadChain(start: Word, ghost ch: seq<Word>) returns (buf: seq<Byte>)
      requires Mounted() && IsChain(fat[..], start, ch) && Within(ch, geo.n)
      ensures buf == Flat(Blocks(Data(), ch))
    {
      buf := [];
      if start == 0 {
        return;
      }
      var cluster := start;
      ghost var i := 0;
      while true
        invariant i < |ch| && cluster == ch[i]
        invariant buf == Flat(Blocks(Data(), ch)[..i])
        decreases |ch| - i
      {
        assert LinkOk(fat[..], ch, i);
        ghost var bs := Blocks(Data(), ch);
        assert bs[..i + 1][..i] == bs[..i];
        var block := SecRead(cluster);
        cluster := fat[cluster];
        buf := buf + block;
        i := i + 1;
        if IsLast(cluster) {
          break;
        }
      }
      assert Blocks(Data(), ch)[..i] == Blocks(Data(), ch);
    }

    /** `find_free_cluster`: the least free cluster from `from` (at least 3) on, or a panic. */
    method FindFree(from: Word) returns (r: Outcome<Word>)
      requires Mounted()
      ensures from <= 3 ==> r == if FirstFree(fat[..], 3) < geo.n then Returned(FirstFree(fat[..], 3)) else Panicked
      ensures r.Returned? ==> 3 <= r.value < geo.n && from <= r.value && fat[r.value] % 0x1000_0000 == 0
      ensures forall c :: 3 <= c < (if r.Returned? then r.value else geo.n) && from <= c ==> fat[c] % 0x1000_0000 != 0
    {
      var cluster: nat := if from < 3 then 3 else from;
      ghost var first := cluster;
      if cluster > fat.Length {
        return Panicked;
      }
      while cluster < fat.Length && EntryTypeOf(fat[cluster]) != FreeCluster
        invariant first <= cluster <= fat.Length
        invariant FirstFree(fat[..], first) == FirstFree(fat[..], cluster)
      {
        cluster := cluster + 1;
      }
      if cluster < fat.Length {
        return Returned(cluster);
      }
      return Panicked;
    }

    // ---------------------------------------------------- writing a chain

    /** The block of the buffer at `dataIndex`, and the offset behind it. */
    method NextBlock(data: seq<Byte>, dataIndex: Word, ghost nbytes: Word, ghost i: nat, ghost bs: seq<Block>)
      returns (b: Block, dataIndex': Word)
      requires geo.Ok() && Cuts(geo, data, nbytes, bs) && i < |bs| && dataIndex == i * geo.ClusterBytes()
      ensures b == bs[i] && |b| == geo.ClusterBytes() && dataIndex' == (i + 1) * geo.ClusterBytes()
    {
      var size := SECTOR * geo.spc;
      ChopAt(data, size, |bs|, i);
      TotalBytes(nbytes, size, i, |bs|);
      assert (i + 1) * size == i * size + size;
      b := data[dataIndex..dataIndex + size];
      dataIndex' := dataIndex + size;
    }

    /** Writes the block that belongs in the cluster numbered `i` (from 0) of the chain. */
    method StoreBlock(cluster: Word, dataIndex: Word, data: seq<Byte>, ghost nbytes: Word, ghost i: nat,
                      ghost d: seq<Block>, ghost ch: seq<Word>, ghost bs: seq<Block>)
      requires geo.Ok() && geo.Fits(disk) && |d| == geo.n && Within(ch, geo.n) && Distinct(ch)
      requires i < |ch| && 2 <= cluster == ch[i] && i < |bs|
      requires Cuts(geo, data, nbytes, bs) && dataIndex == Off(i, geo.ClusterBytes())
      requires Data() == PutUpTo(d, ch, bs, i)
      modifies this`disk
      ensures geo.Fits(disk) && TableBytes(disk, geo) == old(TableBytes(disk, geo))
      ensures Data() == PutUpTo(d, ch, bs, i + 1)
    {
      OffIsProduct(i, geo.ClusterBytes());
      var b, _ := NextBlock(data, dataIndex, nbytes, i, bs);
      SdWrite(b, cluster);
    }

    /**
     * The first `count` clusters of `ch` are rewritten: table, contents and the offset in the buffer; `tb` is the copy
     * on the card.
     */
    ghost predicate Rewriting(f: seq<Word>, d: seq<Block>, tb: seq<Byte>, ch: seq<Word>, bs: seq<Block>, count: nat,
                              dataIndex: Word)
      reads this, fat
    {
      && geo.Ok() && geo.Fits(disk) && fat.Length == geo.n == |f| == |d|
      && Within(ch, geo.n) && Distinct(ch) && count <= |ch|
      && fat[..] == CutUpTo(f, ch, |bs|, count) && Data() == PutUpTo(d, ch, bs, count) && TableBytes(disk, geo) == tb
      && (count <= |bs| ==> dataIndex == Off(count, geo.ClusterBytes()))
    }

    /**
     One pass of the first loop of `write_cluster_chain`: the cluster numbered `count` (from 1) is
     cleared when no bytes are left for it; else it is overwritten, and ends the chain when it takes
     the last bytes.  `next` is its old entry.
     */
    method OverwriteCluster(cluster: Word, count: nat, dataIndex: Word, data: seq<Byte>, nbytes: Word,
                            ghost f: seq<Word>, ghost d: seq<Block>, ghost tb: seq<Byte>,
                            ghost ch: seq<Word>, ghost bs: seq<Block>)
      returns (next: Word, cleared: bool, more: bool, dataIndex': Word)
      requires count > 0 && Rewriting(f, d, tb, ch, bs, count - 1, dataIndex)
      requires count <= |ch| && LinkOk(f, ch, count - 1) && cluster == ch[count - 1]
      requires Off(|ch|, geo.ClusterBytes()) < TWO32 && Cuts(geo, data, nbytes, bs)
      modifies this`disk, fat
      ensures Rewriting(f, d, tb, ch, bs, count, dataIndex')
      ensures next == f[ch[count - 1]] && cleared == (|bs| < count) && more == (count == |ch| < |bs|)
    {
      ghost var g := fat[..];
      CutCases(f, ch, |bs|, count);
      more, dataIndex' := false, dataIndex;
      next := fat[cluster];
      var before := Offset(count - 1, count, nbytes, |ch|);
      var after := Offset(count, count, nbytes, |ch|);
      cleared := nbytes <= before;
      if cleared {
        fat[cluster] := 0;
        assert fat[..] == g[cluster := 0];
      } else {
        StoreBlock(cluster, dataIndex, data, nbytes, count - 1, d, ch, bs);
        dataIndex' := dataIndex + SECTOR * geo.spc;
        if IsLast(next) {
          more := nbytes > after;
        } else if nbytes <= after {
          fat[cluster] := END_MARK;
          assert fat[..] == g[cluster := END_MARK];
        }
      }
    }

    /** A byte offset of whole clusters, in 32-bit arithmetic. */
    method Offset(clusters: nat, ghost count: nat, ghost nbytes: Word, ghost k: nat) returns (offset: Word)
      requires geo.Ok() && 0 < count <= k && Off(k, geo.ClusterBytes()) < TWO32
               && (clusters == count || clusters == count - 1)
      ensures offset == Off(clusters, geo.ClusterBytes())
      ensures nbytes <= offset <==> NumBlocks(nbytes, geo.ClusterBytes()) <= clusters
    {
      OffIsProduct(k, geo.ClusterBytes());
      OffIsProduct(clusters, geo.ClusterBytes());
      Offsets(nbytes, geo.ClusterBytes(), count, k);
      assert clusters * SECTOR * geo.spc == clusters * geo.ClusterBytes();
      offset := Wrap(clusters * SECTOR * geo.spc);
    }

    /** The first loop of `write_cluster_chain`: overwrite, cut or clear the clusters the chain has. */
    method OverwriteChain(start: Word, data: seq<Byte>, nbytes: Word, ghost ch: seq<Word>, ghost bs: seq<Block>)
      returns (start': Word, cluster: Word, dataIndex: Word, needMore: bool)
      requires Mounted() && IsChain(fat[..], start, ch) && Within(ch, geo.n) && Distinct(ch)
      requires |ch| * geo.ClusterBytes() < TWO32 && Cuts(geo, data, nbytes, bs)
      modifies this`disk, fat
      ensures geo.Fits(disk) && TableBytes(disk, geo) == old(TableBytes(disk, geo))
      ensures |bs| < |ch| ==>
                && start' == 0 && !needMore
                && fat[..] == Cut(old(fat[..]), ch, |bs|) && Data() == Put(old(Data()), ch[..|bs|], bs)
      ensures |bs| >= |ch| ==>
                && start' == start && needMore == (|bs| > |ch|) && cluster == Tail(ch)
                && dataIndex == |ch| * geo.ClusterBytes()
                && fat[..] == old(fat[..]) && Data() == Put(old(Data()), ch, bs[..|ch|])
    {
      if start == 0 {
        start', cluster, dataIndex := start, start, 0;
        needMore := AnyBytes(data, nbytes, bs);
        return;
      }
      ghost var f, d, tb := fat[..], Data(), TableBytes(disk, geo);
      OffIsProduct(|ch|, geo.ClusterBytes());
      start', cluster, dataIndex, needMore := OverwriteLoop(start, data, nbytes, f, d, tb, ch, bs);
      Completed(f, d, ch, bs);
    }

    /** A file without clusters needs some exactly when there are bytes to write. */
    method AnyBytes(ghost data: seq<Byte>, nbytes: Word, ghost bs: seq<Block>) returns (needMore: bool)
      requires geo.Ok() && Cuts(geo, data, nbytes, bs)
      ensures needMore <==> |bs| > 0
    {
      NumBlocksBound(nbytes, geo.ClusterBytes(), 0);
      needMore := nbytes > 0;
    }

    method OverwriteLoop(start: Word, data: seq<Byte>, nbytes: Word, ghost f: seq<Word>, ghost d: seq<Block>,
                         ghost tb: seq<Byte>, ghost ch: seq<Word>, ghost bs: seq<Block>)
      returns (start': Word, cluster: Word, dataIndex: Word, needMore: bool)
      requires Rewriting(f, d, tb, ch, bs, 0, 0) && IsChain(f, start, ch) && start != 0
      requires Off(|ch|, geo.ClusterBytes()) < TWO32 && Cuts(geo, data, nbytes, bs)
      modifies this`disk, fat
      ensures Rewriting(f, d, tb, ch, bs, |ch|, dataIndex)
      ensures start' == (if |bs| < |ch| then 0 else start) && needMore == (|bs| > |ch|) && cluster == Tail(ch)
    {
      start', cluster, dataIndex := start, start, 0;
      StartsAt(f, start, ch);
      var count := 0;
      while true
        invariant count < |ch| && cluster == ch[count] && start' == start
        invariant Rewriting(f, d, tb, ch, bs, count, dataIndex)
        decreases |ch| - count
      {
        var last, cleared;
        last, cleared, needMore, cluster, dataIndex :=
          OverwriteNext(cluster, count, dataIndex, data, nbytes, f, d, tb, start, ch, bs);
        count := count + 1;
        if last {
          if cleared {
            start' := 0;
          }
          break;
        }
      }
    }

    /** One pass with the step to the next cluster, if there is one. */
    method OverwriteNext(cluster: Word, count: nat, dataIndex: Word, data: seq<Byte>, nbytes: Word,
                         ghost f: seq<Word>, ghost d: seq<Block>, ghost tb: seq<Byte>, ghost start: Word,
                         ghost ch: seq<Word>, ghost bs: seq<Block>)
      returns (last: bool, cleared: bool, more: bool, cluster': Word, dataIndex': Word)
      requires count < |ch| && Rewriting(f, d, tb, ch, bs, count, dataIndex) && cluster == ch[count]
      requires IsChain(f, start, ch) && start != 0 && Off(|ch|, geo.ClusterBytes()) < TWO32
               && Cuts(geo, data, nbytes, bs)
      modifies this`disk, fat
      ensures Rewriting(f, d, tb, ch, bs, count + 1, dataIndex')
      ensures last == (count + 1 == |ch|) && cluster' == (if last then cluster else ch[count + 1])
      ensures cleared == (|bs| < count + 1) && more == (count + 1 == |ch| < |bs|)
    {
      NextLink(f, start, ch, count);
      var next;
      next, cleared, more, dataIndex' :=
        OverwriteCluster(cluster, count + 1, dataIndex, data, nbytes, f, d, tb, ch, bs);
      last := IsLast(next);
      cluster' := if last then cluster else next;
    }

    /** The second loop of `write_cluster_chain`: link and fill free clusters until all bytes are stored. */
    method GrowChain(start: Word, tail: Word, data: seq<Byte>, nbytes: Word, filled: Word, ghost i0: nat,
                     ghost bs: seq<Block>)
      returns (r: Outcome<Word>)
      requires Mounted() && (start != 0 ==> tail < geo.n)
      requires Cuts(geo, data, nbytes, bs)
      requires i0 < |bs| && filled == i0 * geo.ClusterBytes()
      modifies this`disk, fat
      ensures geo.Fits(disk) && TableBytes(disk, geo) == old(TableBytes(disk, geo))
      ensures var w := Grow(old(St()), start, tail, bs[i0..]);
              if w.DiskFull? then r.Panicked? else r == Returned(w.start) && Store(fat[..], Data()) == w.st
      ensures r.Panicked? ==> FirstFree(fat[..], 3) == geo.n
    {
      var start': Word, cluster: Word, dataIndex: Word := start, tail, filled;
      ghost var i := i0;
      ghost var w := Grow(St(), start, tail, bs[i0..]);
      while true
        invariant i0 <= i < |bs| && dataIndex == i * geo.ClusterBytes()
        invariant Mounted() && TableBytes(disk, geo) == old(TableBytes(disk, geo))
        invariant start' != 0 ==> cluster < geo.n
        invariant Grow(St(), start', cluster, bs[i..]) == w
        decreases |bs| - i
      {
        var done;
        done, r, start', cluster, dataIndex := GrowOnce(start', cluster, data, nbytes, dataIndex, i, bs);
        if done {
          return;
        }
        i := i + 1;
      }
    }

    /** One pass of that loop. */
    method GrowOnce(start: Word, tail: Word, data: seq<Byte>, nbytes: Word, filled: Word, ghost i: nat,
                    ghost bs: seq<Block>)
      returns (done: bool, r: Outcome<Word>, start': Word, cluster: Word, dataIndex: Word)
      requires Mounted() && (start != 0 ==> tail < geo.n)
      requires Cuts(geo, data, nbytes, bs) && i < |bs| && filled == i * geo.ClusterBytes()
      modifies this`disk, fat
      ensures geo.Fits(disk) && TableBytes(disk, geo) == old(TableBytes(disk, geo))
      ensures var w := Grow(old(St()), start, tail, bs[i..]);
              if done then
                if w.DiskFull? then r.Panicked? else r == Returned(w.start) && Store(fat[..], Data()) == w.st
              else
                && Mounted() && i + 1 < |bs| && dataIndex == (i + 1) * geo.ClusterBytes()
                && start' != 0 && cluster < geo.n && Grow(St(), start', cluster, bs[i + 1..]) == w
      ensures done && r.Panicked? ==> FirstFree(fat[..], 3) == geo.n
    {
      start', cluster, dataIndex := start, tail, filled;
      var free := FindFree(3);
      if free.Panicked? {
        return true, Panicked, start, tail, filled;
      }
      r := Panicked;
      ghost var st := St();
      GrowStep(st, start, tail, bs, i);
      TotalBytes(nbytes, geo.ClusterBytes(), i, |bs|);
      start', dataIndex := LinkAndFill(start', cluster, free.value, data, dataIndex, nbytes, i, bs);
      cluster := free.value;
      done := nbytes <= dataIndex;
      if done {
        fat[cluster] := END_MARK;
        r := Returned(start');
      }
    }

    /** One pass of that loop up to the test for the end: link the free cluster and store a block in it. */
    method LinkAndFill(start: Word, cluster: Word, free: Word, data: seq<Byte>, dataIndex: Word,
                       ghost nbytes: Word, ghost i: nat, ghost bs: seq<Block>)
      returns (start': Word, dataIndex': Word)
      requires Mounted() && 3 <= free < geo.n && (start != 0 ==> cluster < geo.n)
      requires Cuts(geo, data, nbytes, bs) && i < |bs| && dataIndex == i * geo.ClusterBytes()
      modifies this`disk, fat
      ensures Mounted() && TableBytes(disk, geo) == old(TableBytes(disk, geo))
      ensures start' == (if start == 0 then free else start) && dataIndex' == (i + 1) * geo.ClusterBytes()
      ensures fat[..] == (if start == 0 then old(fat[..]) else old(fat[..])[cluster := free])
      ensures Data() == old(Data())[free := bs[i]]
    {
      start' := start;
      if start == 0 {
        start' := free;
      } else {
        fat[cluster] := free;
      }
      var b;
      b, dataIndex' := NextBlock(data, dataIndex, nbytes, i, bs);
      SdWrite(b, free);
    }

    /**
     `write_cluster_chain`, for every chain and every number of bytes; the clusters the last block
     covers beyond `nbytes` are read from behind the buffer's end.
     */
    method WriteClusterChain(start: Word, data: seq<Byte>, nbytes: Word, ghost ch: seq<Word>, ghost bs: seq<Block>)
      returns (r: Outcome<Word>)
      requires Mounted() && IsChain(fat[..], start, ch) && Within(ch, geo.n) && Distinct(ch)
      requires |ch| * geo.ClusterBytes() < TWO32 && Cuts(geo, data, nbytes, bs)
      modifies this`disk, fat
      ensures geo.Fits(disk) && TableBytes(disk, geo) == old(TableBytes(disk, geo))
      ensures var w := WriteChain(old(St()), start, ch, bs);
              if w.DiskFull? then r.Panicked? else r == Returned(w.start) && Store(fat[..], Data()) == w.st
      ensures r.Panicked? ==> FirstFree(fat[..], 3) == geo.n
    {
      var start', cluster, filled, needMore := OverwriteChain(start, data, nbytes, ch, bs);
      if !needMore {
        return Returned(start');
      }
      TailIsAllocated(old(fat[..]), start, ch);
      r := GrowChain(start', cluster, data, nbytes, filled, |ch|, bs);
    }

    // ------------------------------------------------------ directories

    ghost function PerCluster(): nat {
      16 * geo.spc
    }

    /** Table, card and the given catalog agree; the links and the copy on the card may be under change. */
    ghost predicate Holds(c: Catalog)
      reads this, fat
    {
      Mounted() && Physical(St(), c, PerCluster())
    }

    /** The first copy of the table on the card is the table in memory. */
    ghost predicate Synced()
      requires geo.Ok() && geo.Fits(disk)
      reads this, fat
    {
      TableBytes(disk, geo) == ToBytes(fat[..])
    }

    /** The state between operations. */
    ghost predicate Valid()
      reads this, fat
    {
      Holds(cat) && LinksOk(cat, geo.root) && Synced()
    }

    /** Between operations, mounting the card again would read the table that is in memory. */
    lemma RemountReadsSameTable()
      requires Valid()
      ensures ToWords(TableBytes(disk, geo)) == fat[..]
    {
      WordsOfBytes(fat[..]);
    }

    /** The bytes stored along the chain of a start cluster. */
    ghost function Content(c: Catalog, s: Word): seq<Byte>
      requires Mounted() && Within(ChainOf(c, s), geo.n)
      reads this, fat
    {
      Flat(Blocks(Data(), ChainOf(c, s)))
    }

    /** `get_dirents`. */
    method GetDirents(dir: Word) returns (es: seq<Entry>)
      requires Holds(cat) && dir in cat.dirs
      ensures es == cat.dirs[dir]
    {
      ChainOfIsChain(fat[..], cat, dir);
      var buf := ReadChain(dir, cat.chains[dir]);
      es := Entries(buf);
    }

    /** The walk to the cluster that holds a directory entry. */
    method WalkTo(dir: Word, steps: nat, ghost ch: seq<Word>) returns (cluster: Word)
      requires Mounted() && IsChain(fat[..], dir, ch) && steps < |ch|
      ensures cluster == ch[steps] && 2 <= cluster < geo.n
    {
      cluster := dir;
      var count := 0;
      while count < steps
        invariant count <= steps && cluster == ch[count]
      {
        assert LinkOk(fat[..], ch, count);
        count := count + 1;
        cluster := fat[cluster];
      }
      assert LinkOk(fat[..], ch, count);
    }

    /** `fat32_write_dirent`: read, patch and write back the cluster that holds the entry. */
    method WriteDirent(dir: Word, idx: nat, e: Entry, ghost c: Catalog)
      requires Holds(c) && dir in c.dirs && idx < |c.dirs[dir]|
      modifies this`disk
      ensures Holds(WithEntry(c, dir, idx, e))
      ensures TableBytes(disk, geo) == old(TableBytes(disk, geo))
      ensures forall x :: 0 <= x < geo.n && x !in c.chains[dir] ==> Data()[x] == old(Data())[x]
    {
      ghost var ch := c.chains[dir];
      ChainOfIsChain(fat[..], c, dir);
      ChainBlocksSized(fat[..], Data(), PerCluster(), dir, ch);
      ghost var c0, at0 := EntryCluster(Data(), ch, PerCluster(), idx);
      var steps, rest := EntryIndex(idx, 16 * geo.spc);
      var cluster := WalkTo(dir, steps, ch);
      PatchCluster(cluster, 32 * rest, e, dir, idx, c);
    }

    method PatchCluster(cluster: Word, at: nat, e: Entry, ghost dir: Word, ghost idx: nat, ghost c: Catalog)
      requires Holds(c) && dir in c.dirs && idx < |c.dirs[dir]|
      requires cluster in c.chains[dir] && 2 <= cluster < geo.n && at + 32 <= |Data()[cluster]|
      requires Within(c.chains[dir], geo.n)
      requires DirEntries(Data()[cluster := Splice(Data()[cluster], at, e)], c.chains[dir]) == c.dirs[dir][idx := e]
      modifies this`disk
      ensures Holds(WithEntry(c, dir, idx, e))
      ensures TableBytes(disk, geo) == old(TableBytes(disk, geo))
      ensures forall x :: 0 <= x < geo.n && x !in c.chains[dir] ==> Data()[x] == old(Data())[x]
    {
      var block := SecRead(cluster);
      ghost var st := St();
      PatchKeepsPhysical(st, c, PerCluster(), dir, idx, e, cluster, Splice(block, at, e));
      SdWrite(Splice(block, at, e), cluster);
      assert St() == Store(st.fat, st.data[cluster := Splice(block, at, e)]);
    }

    // ------------------------------------------------------- file operations

    /**
     `write_cluster_chain` on a catalogued file, inside its useful domain: nothing to write, the same
     number of clusters, or one more.
     */
    method WriteFileChain(s: Word, data: seq<Byte>, nbytes: Word, ghost bs: seq<Block>)
      returns (r: Outcome<Word>, ghost ch': seq<Word>)
      requires Holds(cat) && (s == 0 || s in cat.chains) && s !in cat.dirs
      requires Cuts(geo, data, nbytes, bs) && |ChainOf(cat, s)| * geo.ClusterBytes() < TWO32
      requires |bs| == 0 || |ChainOf(cat, s)| <= |bs| <= |ChainOf(cat, s)| + 1
      modifies this`disk, fat
      ensures geo.Fits(disk) && TableBytes(disk, geo) == old(TableBytes(disk, geo))
      ensures r.Panicked? <==> |bs| > |ChainOf(cat, s)| && FirstFree(old(fat[..]), 3) == geo.n
      ensures r.Panicked? ==> FirstFree(fat[..], 3) == geo.n
      ensures r.Returned? ==>
                Mounted() && FileReplaced(old(St()), cat, PerCluster(), s, bs, St(), r.value, ch')
    {
      CutsAreSized(geo, data, nbytes, bs, PerCluster());
      ch' := WriteReplacesFile(St(), cat, PerCluster(), s, bs);
      r := WriteClusterChain(s, data, nbytes, ChainOf(cat, s), bs);
    }

    /** What a successful write leaves: the entry, the file's bytes, and everything else as it was. */
    ghost predicate WriteEffect(c0: Catalog, d0: seq<Block>, dir: Word, i: nat, bytes: seq<Byte>, nData: Word)
      reads this, fat
    {
      Valid() && Rewrote(geo, c0, d0, cat, Data(), dir, i, bytes, nData)
    }

    /** `fat32_write`, for a file and a size inside the useful domain. */
    method Write(dir: Word, name: seq<Byte>, data: seq<Byte>, nData: Word, nAlloc: Word, ghost bs: seq<Block>)
      returns (r: Outcome<bool>)
      requires Valid() && dir in cat.dirs && 0 !in name
      requires Cuts(geo, data, nAlloc, bs) && nAlloc <= |data|
      requires var i := Lookup(cat.dirs[dir], name, 0);
               i >= 0 ==> var e := cat.dirs[dir][i];
                          && !IsDir(e) && |ChainOf(cat, StartOf(e))| * geo.ClusterBytes() < TWO32
                          && (|bs| == 0 || |ChainOf(cat, StartOf(e))| <= |bs| <= |ChainOf(cat, StartOf(e))| + 1)
      modifies this, fat
      ensures var i := Lookup(old(cat).dirs[dir], name, 0);
              if i < 0 then
                r == Returned(false) && cat == old(cat) && disk == old(disk) && fat[..] == old(fat[..])
              else
                && (r.Panicked? <==>
                    |bs| > |ChainOf(old(cat), StartOf(old(cat).dirs[dir][i]))| && FirstFree(old(fat[..]), 3) == geo.n)
                && (r.Returned? ==> r.value && WriteEffect(old(cat), old(Data()), dir, i, data[..nAlloc], nData))
                && var ch := ChainOf(old(cat), StartOf(old(cat).dirs[dir][i]));
                   r.Returned? ==> Conserved(old(fat[..]), |ch|, fat[..], |bs|)
      ensures r.Panicked? ==> FirstFree(fat[..], 3) == geo.n
    {
      var es := GetDirents(dir);
      LegalArePrintable(es);
      var i := FindDirent(es, name);
      if i == -1 {
        return Returned(false);
      }
      LiveIsNamed(es[i]);
      r := RewriteFile(dir, i, es[i], data, nData, nAlloc, bs);
    }

    /** The part of `fat32_write` behind the look-up. */
    method RewriteFile(dir: Word, i: nat, e: Entry, data: seq<Byte>, nData: Word, nAlloc: Word, ghost bs: seq<Block>)
      returns (r: Outcome<bool>)
      requires Valid() && dir in cat.dirs && i < |cat.dirs[dir]| && e == cat.dirs[dir][i] && Named(e) && !IsDir(e)
      requires Cuts(geo, data, nAlloc, bs) && nAlloc <= |data|
               && |ChainOf(cat, StartOf(e))| * geo.ClusterBytes() < TWO32
      requires |bs| == 0 || |ChainOf(cat, StartOf(e))| <= |bs| <= |ChainOf(cat, StartOf(e))| + 1
      modifies this, fat
      ensures r.Panicked? <==> |bs| > |ChainOf(old(cat), StartOf(e))| && FirstFree(old(fat[..]), 3) == geo.n
      ensures r.Panicked? ==> FirstFree(fat[..], 3) == geo.n
      ensures r.Returned? ==> r.value && WriteEffect(old(cat), old(Data()), dir, i, data[..nAlloc], nData)
      ensures r.Returned? ==> Conserved(old(fat[..]), |ChainOf(old(cat), StartOf(e))|, fat[..], |bs|)
    {
      ghost var c0, d0 := cat, Data();
      var s := StartOf(e);
      FileEntry(cat, geo.root, dir, i);
      var w, ch' := WriteFileChain(s, data, nAlloc, bs);
      if w.Panicked? {
        return Panicked;
      }
      var s' := w.value;
      var e' := WithSize(WithStart(e, s'), nData);
      ghost var c2 := RewritePlan(c0, geo.root, dir, i, s', fat[..], ch', e', nData);
      BytesStored(geo, data, nAlloc, bs, Data(), ch');
      CommitRewrite(dir, i, e', c0, d0, ch', Rechain(c0, s, s', ch'), c2, data[..nAlloc]);
      return Returned(true);
    }

    /** The end of a write: entry and table go to the card. */
    method CommitRewrite(dir: Word, i: nat, e': Entry, ghost c0: Catalog, ghost d0: seq<Block>, ghost ch': seq<Word>,
                         ghost c1: Catalog, ghost c2: Catalog, ghost bytes: seq<Byte>)
      requires Holds(c1) && RewritePlanned(c0, dir, i, e', ch', c1, c2) && |d0| == geo.n
      requires KeptBut(c0, d0, dir, i, c1, Data()) && ChainHolds(geo, Data(), ch', bytes)
      modifies this
      ensures Holds(c2) && Synced() && cat == c2 && Rewrote(geo, c0, d0, c2, Data(), dir, i, bytes, SizeOf(e'))
    {
      ghost var d1 := Data();
      CommitEntry(dir, i, e', c1, c2);
      RewriteResult(geo, fat[..], c0, d0, dir, i, e', ch', c1, d1, c2, Data(), bytes);
    }

    /** The end of an operation: write the entry, flush the table; `c2` is the catalog with the entry in place. */
    method CommitEntry(dir: Word, i: nat, e: Entry, ghost c1: Catalog, ghost c2: Catalog)
      requires Holds(c1) && dir in c1.dirs && i < |c1.dirs[dir]|
      requires c2.chains == c1.chains && c2.owner == c1.owner && c2.dirs == WithEntry(c1, dir, i, e).dirs
      modifies this
      ensures Holds(c2) && Synced() && cat == c2
      ensures forall x :: 0 <= x < geo.n && x !in c1.chains[dir] ==> Data()[x] == old(Data())[x]
    {
      WriteDirent(dir, i, e, c1);
      ghost var st := St();
      FlushTable();
      assert St() == st;
      SetCatalog(WithEntry(c1, dir, i, e), c2);
    }

    /** The loop of `fat32_delete` that clears the entries of a chain. */
    method FreeChain(start: Word, ghost ch: seq<Word>)
      requires Mounted() && IsChain(fat[..], start, ch) && Distinct(ch) && Within(ch, geo.n)
      modifies fat
      ensures fat[..] == Cut(old(fat[..]), ch, 0)
    {
      ghost var f := fat[..];
      if start == 0 {
        return;
      }
      var cluster := start;
      ghost var i := 0;
      while true
        invariant i < |ch| && cluster == ch[i]
        invariant fat[..] == CutUpTo(f, ch, 0, i)
        decreases |ch| - i
      {
        assert LinkOk(f, ch, i);
        CutCases(f, ch, 0, i + 1);
        var next := fat[cluster];
        fat[cluster] := 0;
        i := i + 1;
        if IsLast(next) {
          break;
        }
        cluster := next;
      }
      CutComplete(f, ch, 0);
    }

    /** What a successful delete leaves: the entry is unused, its chain is free, everything else is as it was. */
    ghost predicate DeleteEffect(c0: Catalog, d0: seq<Block>, dir: Word, i: nat)
      reads this, fat
    {
      Holds(cat) && Synced() && Removed(c0, d0, cat, Data(), dir, i)
    }

    /**
     `fat32_delete`.  Table, card and catalog agree afterwards in any case; no chain is orphaned, and the volume
     is valid again, exactly if a deleted directory referred to nothing.
     */
    method Delete(dir: Word, name: seq<Byte>) returns (ok: bool)
      requires Valid() && dir in cat.dirs && 0 !in name
      modifies this, fat
      ensures ok <==> ValidName(name) && Lookup(old(cat).dirs[dir], name, 0) >= 0
      ensures !ok ==> cat == old(cat) && disk == old(disk) && fat[..] == old(fat[..])
      ensures ok ==> DeleteEffect(old(cat), old(Data()), dir, Lookup(old(cat).dirs[dir], name, 0))
      ensures ok ==> Lookup(cat.dirs[dir], name, 0) == -1
      ensures ok ==>
        var s := StartOf(old(cat).dirs[dir][Lookup(old(cat).dirs[dir], name, 0)]);
        && fat[..] == Cut(old(fat[..]), ChainOf(old(cat), s), 0)
        && (NoOrphan(cat, geo.root) <==> Forgettable(old(cat), s)) && (Valid() <==> Forgettable(old(cat), s))
    {
      var valid := IsValidName(name);
      if !valid {
        return false;
      }
      var es := GetDirents(dir);
      LegalArePrintable(es);
      var i := FindDirent(es, name);
      if i == -1 {
        return false;
      }
      LiveIsNamed(es[i]);
      ghost var c1, c2 := DeletePlan(St(), cat, geo.root, PerCluster(), dir, i);
      RemoveEntry(dir, i, es[i], c1, c2);
      DeletedIsGone(es, name, i, Tombstone(es[i]));
      return true;
    }

    /** The part of `fat32_delete` behind the look-up; the catalogs are those of DeletePlan. */
    method RemoveEntry(dir: Word, i: nat, e: Entry, ghost c1: Catalog, ghost c2: Catalog)
      requires Holds(cat) && dir in cat.dirs && i < |cat.dirs[dir]| && e == cat.dirs[dir][i]
      requires DeletePlanned(St(), cat, PerCluster(), dir, i, c1, c2)
      modifies this, fat
      ensures Holds(c2) && Synced() && cat == c2 && Removed(old(cat), old(Data()), c2, Data(), dir, i)
      ensures fat[..] == Cut(old(fat[..]), ChainOf(old(cat), StartOf(e)), 0)
    {
      ghost var c0, st := cat, St();
      var s := StartOf(e);
      FreeChain(s, ChainOf(c0, s));
      assert fat[..] == Cut(st.fat, ChainOf(c0, s), 0) && Data() == st.data;
      CommitEntry(dir, i, Tombstone(e), c1, c2);
      RemoveResult(fat[..], c0, st.data, dir, i, s, Tombstone(e), c1, c2, Data());
    }

    /** `fat32_read`, for a name whose entry the search finds. */
    method Read(dir: Word, name: seq<Byte>) returns (data: seq<Byte>, nData: Word)
      requires Valid() && dir in cat.dirs && |cat.dirs[dir]| > 0
      requires var e := cat.dirs[dir][ReadLookup(cat.dirs[dir], name, 0)];
               Named(e) && |ChainOf(cat, StartOf(e))| * geo.ClusterBytes() < TWO32
      ensures var e := cat.dirs[dir][ReadLookup(cat.dirs[dir], name, 0)];
              && Within(ChainOf(cat, StartOf(e)), geo.n) && data == Content(cat, StartOf(e))
              && nData == if ChainOf(cat, StartOf(e)) == [] then 0 else SizeOf(e)
    {
      var es := GetDirents(dir);
      LegalArePrintable(es);
      var idx := FindForRead(es, name);
      data, nData := ReadEntry(dir, idx, es[idx]);
    }

    /** The part of `fat32_read` behind the search. */
    method ReadEntry(ghost dir: Word, ghost idx: nat, e: Entry) returns (data: seq<Byte>, nData: Word)
      requires Valid() && dir in cat.dirs && idx < |cat.dirs[dir]| && e == cat.dirs[dir][idx] && Named(e)
      requires |ChainOf(cat, StartOf(e))| * geo.ClusterBytes() < TWO32
      ensures Within(ChainOf(cat, StartOf(e)), geo.n) && data == Content(cat, StartOf(e))
      ensures nData == if ChainOf(cat, StartOf(e)) == [] then 0 else SizeOf(e)
    {
      NamedEntry(cat, geo.root, dir, idx);
      data, nData := ReadFile(StartOf(e), SizeOf(e));
    }

    method ReadFile(s: Word, size: Word) returns (data: seq<Byte>, nData: Word)
      requires Holds(cat) && (s == 0 || s in cat.chains) && |ChainOf(cat, s)| * geo.ClusterBytes() < TWO32
      ensures Within(ChainOf(cat, s), geo.n) && data == Content(cat, s)
      ensures nData == if ChainOf(cat, s) == [] then 0 else size
    {
      ghost var ch := ChainOf(cat, s);
      ChainOfIsChain(fat[..], cat, s);
      var length := ChainLength(s, ch);
      var nAlloc := AllocatedBytes(length);
      if nAlloc == 0 {
        return [], 0;
      }
      data := ReadChain(s, ch);
      nData := size;
    }

    /** Bytes of a chain of `length` clusters, in 32-bit arithmetic. */
    method AllocatedBytes(length: nat) returns (nAlloc: Word)
      requires geo.Ok() && length * geo.ClusterBytes() < TWO32
      ensures nAlloc == length * geo.ClusterBytes() && (nAlloc == 0 <==> length == 0)
    {
      assert geo.spc * SECTOR * length == length * geo.ClusterBytes();
      if length > 0 {
        MulMono(1, length, geo.ClusterBytes());
      }
      nAlloc := Wrap(geo.spc * SECTOR * length);
    }

    /** The part of `fat32_create` for directories: mark the cluster, flush the table, clear the cluster. */
    method MakeDirectory(c: Word, ghost zeros: Block, ghost c1: Catalog)
      requires Mounted() && 3 <= c < geo.n && zeros == Zeros(32 * PerCluster())
      requires Physical(Store(fat[..][c := END_MARK], Data()[c := zeros]), c1, PerCluster())
      modifies this`disk, fat
      ensures Holds(c1) && Synced()
      ensures fat[..] == old(fat[..])[c := END_MARK] && Data() == old(Data())[c := zeros]
    {
      fat[c] := END_MARK;
      FlushTable();
      var block := SecRead(c);
      SdWrite(Zeros(|block|), c);
      assert St() == Store(old(fat[..])[c := END_MARK], old(Data())[c := zeros]);
    }

    /** The end of `fat32_create`: write the new entry and, behind it, the end mark. */
    method PutEntries(dir: Word, i: nat, e: Entry, end: bool, next: Entry, ghost c1: Catalog, ghost c2: Catalog)
      requires Holds(c1) && dir in c1.dirs && i < |c1.dirs[dir]| && (end ==> i + 1 < |c1.dirs[dir]|)
      requires EntriesPut(c1, dir, i, e, end, next, c2)
      modifies this
      ensures Holds(c2) && cat == c2 && TableBytes(disk, geo) == old(TableBytes(disk, geo))
      ensures forall x :: 0 <= x < geo.n && x !in c1.chains[dir] ==> Data()[x] == old(Data())[x]
    {
      if end {
        WriteDirent(dir, i, e, c1);
        PutLast(dir, i + 1, next, WithEntry(c1, dir, i, e), c2);
      } else {
        PutLast(dir, i, e, c1, c2);
      }
    }

    /** Writes the last entry of an operation whose table is on the card already. */
    method PutLast(dir: Word, i: nat, e: Entry, ghost ca: Catalog, ghost c2: Catalog)
      requires Holds(ca) && dir in ca.dirs && i < |ca.dirs[dir]|
      requires c2.chains == ca.chains && c2.owner == ca.owner && c2.dirs == WithEntry(ca, dir, i, e).dirs
      modifies this
      ensures Holds(c2) && cat == c2 && TableBytes(disk, geo) == old(TableBytes(disk, geo))
      ensures forall x :: 0 <= x < geo.n && x !in ca.chains[dir] ==> Data()[x] == old(Data())[x]
    {
      WriteDirent(dir, i, e, ca);
      SetCatalog(WithEntry(ca, dir, i, e), c2);
    }

    /** Records the catalog at the end of an operation; the card and the table do not change. */
    ghost method SetCatalog(ca: Catalog, c2: Catalog)
      requires Holds(ca) && ca.chains == c2.chains && ca.owner == c2.owner && ca.dirs == c2.dirs
      modifies this`cat
      ensures Holds(c2) && cat == c2
    {
      PhysicalDepends(St(), ca, c2, PerCluster());
      ghost var st := St();
      cat := c2;
      assert St() == st;
    }

    /** `fat32_create`, for a directory with an unused slot and a name that no hidden entry has. */
    method Create(dir: Word, name: seq<Byte>, isDir: bool) returns (r: Outcome<CreateResult>)
      requires Valid() && dir in cat.dirs && 0 !in name
      requires ValidName(name) && Lookup(cat.dirs[dir], name, 0) < 0 ==>
                 && FirstUnused(cat.dirs[dir], 0) < |cat.dirs[dir]|
                 && forall j :: 0 <= j < |cat.dirs[dir]| && Named(cat.dirs[dir][j]) ==>
                      Raw(cat.dirs[dir][j]) != Key(name)
      modifies this, fat
      ensures var es := old(cat).dirs[dir];
              var i, k := FirstUnused(es, 0), Lookup(es, name, 0);
              if !ValidName(name) || k >= 0 then
                && r == Returned(if !ValidName(name) then InvalidName else Existing(es[k]))
                && cat == old(cat) && disk == old(disk) && fat[..] == old(fat[..])
              else if (es[i][0] == 0 && i == |es| - 1) || (isDir && FirstFree(old(fat[..]), 3) == geo.n) then
                r.Panicked?
              else
                && Valid() && r.Returned? && r.value.NewEntry?
                && Added(old(cat), old(Data()), cat, Data(), dir, i, r.value.e, es[i][0] == 0)
                && IsNewEntry(r.value.e, name, isDir, if isDir then FirstFree(old(fat[..]), 3) else 0)
                && Lookup(cat.dirs[dir], name, 0) == i
                && fat[..] == (if isDir then old(fat[..])[FirstFree(old(fat[..]), 3) := END_MARK] else old(fat[..]))
    {
      var valid := IsValidName(name);
      if !valid {
        return Returned(InvalidName);
      }
      var es := GetDirents(dir);
      LegalArePrintable(es);
      var k := FindDirent(es, name);
      if k != -1 {
        return Returned(Existing(es[k]));
      }
      var i, end := FindSlot(es);
      if end && i == |es| - 1 {
        return Panicked;
      }
      r := AddEntry(dir, es, i, end, name, isDir);
    }

    /** The part of `fat32_create` behind the search for a slot. */
    method AddEntry(dir: Word, es: seq<Entry>, i: nat, end: bool, name: seq<Byte>, isDir: bool)
      returns (r: Outcome<CreateResult>)
      requires Valid() && dir in cat.dirs && es == cat.dirs[dir] && SlotFor(es, i, end, name)
      modifies this, fat
      ensures r.Panicked? <==> isDir && FirstFree(old(fat[..]), 3) == geo.n
      ensures r.Returned? ==>
                && Valid() && r.value.NewEntry?
                && Added(old(cat), old(Data()), cat, Data(), dir, i, r.value.e, end)
                && IsNewEntry(r.value.e, name, isDir, if isDir then FirstFree(old(fat[..]), 3) else 0)
                && Lookup(cat.dirs[dir], name, 0) == i
                && fat[..] == (if isDir then old(fat[..])[FirstFree(old(fat[..]), 3) := END_MARK] else old(fat[..]))
    {
      if isDir {
        var free := FindFree(3);
        if free.Panicked? {
          return Panicked;
        }
        var e := NewDirectory(dir, es, i, end, name, free.value);
        return Returned(NewEntry(e));
      } else {
        var e := NewFile(dir, es, i, end, name);
        return Returned(NewEntry(e));
      }
    }

    method NewFile(dir: Word, es: seq<Entry>, i: nat, end: bool, name: seq<Byte>) returns (e: Entry)
      requires Valid() && dir in cat.dirs && es == cat.dirs[dir] && SlotFor(es, i, end, name)
      modifies this
      ensures Valid() && Added(old(cat), old(Data()), cat, Data(), dir, i, e, end)
              && Lookup(cat.dirs[dir], name, 0) == i
      ensures IsNewEntry(e, name, false, 0)
    {
      e := FillEntry(es[i], name, 0x20, 0, 0);
      PutFile(dir, es, i, e, end, name);
    }

    method NewDirectory(dir: Word, es: seq<Entry>, i: nat, end: bool, name: seq<Byte>, c: Word) returns (e: Entry)
      requires Valid() && dir in cat.dirs && es == cat.dirs[dir] && SlotFor(es, i, end, name)
      requires 3 <= c < geo.n && IsFree(fat[c])
      modifies this, fat
      ensures Valid() && Added(old(cat), old(Data()), cat, Data(), dir, i, e, end)
              && Lookup(cat.dirs[dir], name, 0) == i
      ensures IsNewEntry(e, name, true, c) && fat[..] == old(fat[..])[c := END_MARK]
    {
      e := FillEntry(es[i], name, 0x10, c, 4096);
      PutDirectory(dir, es, i, e, end, c, name);
    }

    method PutFile(dir: Word, es: seq<Entry>, i: nat, e: Entry, end: bool, ghost name: seq<Byte>)
      requires Valid() && dir in cat.dirs && es == cat.dirs[dir]
      requires Creatable(es, i, name, e, end) && e[11] == 0x20 && StartOf(e) == 0
      modifies this
      ensures Valid() && Added(old(cat), old(Data()), cat, Data(), dir, i, e, end)
              && Lookup(cat.dirs[dir], name, 0) == i
    {
      ghost var c1, c2 := CreateFilePlan(St(), cat, geo.root, PerCluster(), dir, i, name, e, end);
      NewIsFound(c2, geo.root, dir, i, name, es, e, end);
      AddFile(dir, i, e, end, es, c1, c2);
    }

    method PutDirectory(dir: Word, es: seq<Entry>, i: nat, e: Entry, end: bool, c: Word, ghost name: seq<Byte>)
      requires Valid() && dir in cat.dirs && es == cat.dirs[dir]
      requires Creatable(es, i, name, e, end) && e[11] == 0x10 && StartOf(e) == c && 3 <= c < geo.n && IsFree(fat[c])
      modifies this, fat
      ensures Valid() && Added(old(cat), old(Data()), cat, Data(), dir, i, e, end)
              && Lookup(cat.dirs[dir], name, 0) == i
      ensures fat[..] == old(fat[..])[c := END_MARK]
    {
      ghost var zeros := Zeros(32 * PerCluster());
      ghost var c1, c2 := CreateDirPlan(St(), cat, geo.root, PerCluster(), dir, i, c, zeros, name, e, end);
      NewIsFound(c2, geo.root, dir, i, name, es, e, end);
      AddDirectory(dir, i, e, end, es, c, zeros, c1, c2);
    }

    /** The writes of a create without a new directory; the catalogs are those of CreateFilePlan. */
    method AddFile(dir: Word, i: nat, e: Entry, end: bool, es: seq<Entry>, ghost c1: Catalog, ghost c2: Catalog)
      requires Holds(cat) && Synced() && dir in cat.dirs && es == cat.dirs[dir] && StartOf(e) == 0
      requires CreateFilePlanned(St(), cat, dir, i, e, end, c1, c2)
      modifies this
      ensures Holds(c2) && Synced() && cat == c2 && Added(old(cat), old(Data()), c2, Data(), dir, i, e, end)
    {
      PlaceEntries(dir, i, e, end, es, cat, Data(), [], c1, c2);
    }

    /** The writes of a create with a new directory; the catalogs are those of CreateDirPlan. */
    method AddDirectory(dir: Word, i: nat, e: Entry, end: bool, es: seq<Entry>, c: Word,
                        ghost zeros: Block, ghost c1: Catalog, ghost c2: Catalog)
      requires Holds(cat) && Synced() && dir in cat.dirs && es == cat.dirs[dir] && StartOf(e) == c && 3 <= c < geo.n
      requires CreateDirPlanned(St(), cat, PerCluster(), dir, i, c, zeros, e, end, c1, c2)
      requires zeros == Zeros(32 * PerCluster())
      modifies this, fat
      ensures Holds(c2) && Synced() && cat == c2 && Added(old(cat), old(Data()), c2, Data(), dir, i, e, end)
      ensures fat[..] == old(fat[..])[c := END_MARK]
    {
      ghost var c0, d0 := cat, Data();
      assert Placeable(c0, d0, dir, i, e, end, zeros, c1, d0[c := zeros], c2);
      MakeDirectory(c, zeros, c1);
      PlaceEntries(dir, i, e, end, es, c0, d0, zeros, c1, c2);
    }

    method PlaceEntries(dir: Word, i: nat, e: Entry, end: bool, es: seq<Entry>, ghost c0: Catalog, ghost d0: seq<Block>,
                        ghost zeros: Block, ghost c1: Catalog, ghost c2: Catalog)
      requires Holds(c1) && Synced() && |d0| == geo.n
      requires dir in c0.dirs && es == c0.dirs[dir] && Placeable(c0, d0, dir, i, e, end, zeros, c1, Data(), c2)
      modifies this
      ensures Holds(c2) && Synced() && cat == c2 && Added(c0, d0, c2, Data(), dir, i, e, end)
    {
      ghost var d1 := Data();
      PutEntries(dir, i, e, end, if end then EndMark(es[i + 1]) else es[i], c1, c2);
      AddResult(fat[..], c0, d0, dir, i, e, end, zeros, c1, d1, c2, Data());
    }
  }

  /** Slot `i` is free for `name`, which no named entry has; `end` says that it was the end of the directory. */
  ghost predicate SlotFor(es: seq<Entry>, i: nat, end: bool, name: seq<Byte>) {
    && ValidName(name) && i == FirstUnused(es, 0) < |es| && end == (es[i][0] == 0) && (end ==> i + 1 < |es|)
    && forall j :: 0 <= j < |es| && Named(es[j]) ==> Raw(es[j]) != Key(name)
  }

  /** Name, attribute, size and start cluster of a created entry. */
  ghost predicate IsNewEntry(e: Entry, name: seq<Byte>, isDir: bool, start: Word) {
    && ValidName(name) && Raw(e) == Key(name) && e[11] == (if isDir then 0x10 else 0x20)
    && SizeOf(e) == (if isDir then 4096 else 0) && StartOf(e) == start
  }

  /** `c2` is `c1` with the entries of a create in place; homes may differ. */
  ghost predicate EntriesPut(c1: Catalog, dir: Word, i: nat, e: Entry, end: bool, next: Entry, c2: Catalog) {
    && dir in c1.dirs && i < |c1.dirs[dir]| && (end ==> i + 1 < |c1.dirs[dir]|)
    && c2.chains == c1.chains && c2.owner == c1.owner
    && c2.dirs == if end then WithEntry(WithEntry(c1, dir, i, e), dir, i + 1, next).dirs
                  else WithEntry(c1, dir, i, e).dirs
  }

  /** The effect of a create on values. */
  ghost predicate Added(c0: Catalog, d0: seq<Block>, c: Catalog, data: seq<Block>, dir: Word, i: nat, e: Entry,
                        end: bool)
  {
    && dir in c0.dirs && dir in c.dirs && i < |c0.dirs[dir]| && (end ==> i + 1 < |c0.dirs[dir]|)
    && c.dirs[dir] == WithNew(c0.dirs[dir], i, e, end)
    && (forall t :: t in c0.dirs && t != dir ==> t in c.dirs && c.dirs[t] == c0.dirs[t])
    && (StartOf(e) != 0 ==> StartOf(e) !in c0.chains && StartOf(e) in c.chains && c.chains[StartOf(e)] == [StartOf(e)]
                            && StartOf(e) in c.dirs && NoneNamed(c.dirs[StartOf(e)]))
    && Kept(c0, d0, 0, dir, c, data)
  }

  /** The new entry in its slot, and the end mark behind it, keep the directory and the links well formed. */
  lemma CreateDirOk(es: seq<Entry>, i: nat, name: seq<Byte>, e: Entry)
    requires DirOk(es) && ValidName(name) && i == FirstUnused(es, 0) < |es|
    requires Raw(e) == Key(name) && e[0] == Key(name)[0] && (e[11] == 0x10 || e[11] == 0x20)
    requires forall j :: 0 <= j < |es| && Named(es[j]) ==> Raw(es[j]) != Key(name)
    ensures DirOk(es[i := e]) && Named(e) && Live(e) && !Named(es[i]) && (IsDir(e) <==> e[11] == 0x10)
    ensures es[i][0] == 0 ==> forall j :: i < j < |es| ==> Unused(es[j])
  {
    KeyIsLegal(name);
    CreatedDirOk(es, i, e);
  }

  /** Slot `i` is the first unused one and `e` carries a name no named entry has. */
  ghost predicate Creatable(es: seq<Entry>, i: nat, name: seq<Byte>, e: Entry, end: bool) {
    SlotFor(es, i, end, name) && Raw(e) == Key(name) && e[0] == Key(name)[0]
  }

  ghost function Behind(es: seq<Entry>, i: nat, end: bool): Entry
    requires i < |es| && (end ==> i + 1 < |es|)
  {
    if end then EndMark(es[i + 1]) else es[i]
  }

  ghost predicate CreateFilePlanned(st: Store, c0: Catalog, dir: Word, i: nat, e: Entry, end: bool, c1: Catalog,
                                    c2: Catalog)
  {
    && dir in c0.dirs && i < |c0.dirs[dir]| && (end ==> i + 1 < |c0.dirs[dir]|)
    && c1 == c0 && dir in c1.chains && EntriesPut(c1, dir, i, e, end, Behind(c0.dirs[dir], i, end), c2)
    && Kept(c0, st.data, 0, 0, c1, st.data)
  }

  /** The catalogs of a create without a new directory. */
  lemma CreateFilePlan(st: Store, c0: Catalog, root: Word, perCluster: nat, dir: Word, i: nat, name: seq<Byte>,
                       e: Entry,
                       end: bool) returns (c1: Catalog, c2: Catalog)
    requires Physical(st, c0, perCluster) && LinksOk(c0, root) && dir in c0.dirs
    requires Creatable(c0.dirs[dir], i, name, e, end) && e[11] == 0x20 && StartOf(e) == 0
    ensures CreateFilePlanned(st, c0, dir, i, e, end, c1, c2) && LinksOk(c2, root) && Live(e)
  {
    CreateDirOk(c0.dirs[dir], i, name, e);
    CreateFileKeepsLinks(c0, root, dir, i, e);
    c1 := c0;
    c2 := EndMarkPlan(WithEntry(c0, dir, i, e), c0, root, dir, i, e, end, Behind(c0.dirs[dir], i, end));
    KeptSelf(st, c0);
  }

  /** `c1`, `d1` are ready for the entries of a create, which lead to `c2`. */
  ghost predicate Placeable(c0: Catalog, d0: seq<Block>, dir: Word, i: nat, e: Entry, end: bool, zeros: Block,
                            c1: Catalog, d1: seq<Block>, c2: Catalog)
  {
    && dir in c0.dirs && i < |c0.dirs[dir]| && (end ==> i + 1 < |c0.dirs[dir]|)
    && c1 == (if StartOf(e) == 0 then c0 else WithNewDir(c0, StartOf(e), zeros)) && NoneNamed(Entries(zeros))
    && (StartOf(e) != 0 ==> StartOf(e) !in c0.chains && StartOf(e) != dir && StartOf(e) !in c0.dirs)
    && dir in c1.chains && EntriesPut(c1, dir, i, e, end, Behind(c0.dirs[dir], i, end), c2)
    && Kept(c0, d0, 0, 0, c1, d1)
  }

  ghost predicate CreateDirPlanned(st: Store, c0: Catalog, perCluster: nat, dir: Word, i: nat, c: Word, zeros: Block,
                                   e: Entry, end: bool, c1: Catalog, c2: Catalog)
  {
    && dir in c0.dirs && i < |c0.dirs[dir]| && (end ==> i + 1 < |c0.dirs[dir]|)
    && dir != c && c != 0 && c < |st.data| && c < |st.fat|
    && c1 == WithNewDir(c0, c, zeros) && c !in c0.chains && c !in c0.dirs && NoneNamed(Entries(zeros))
    && Physical(Store(st.fat[c := END_MARK], st.data[c := zeros]), c1, perCluster)
    && Kept(c0, st.data, 0, 0, c1, st.data[c := zeros])
    && dir in c1.chains && EntriesPut(c1, dir, i, e, end, Behind(c0.dirs[dir], i, end), c2)
  }

  /** The catalogs of a create with a new directory in cluster `c`. */
  lemma CreateDirPlan(st: Store, c0: Catalog, root: Word, perCluster: nat, dir: Word, i: nat, c: Word, zeros: Block,
                      name: seq<Byte>, e: Entry, end: bool)
    returns (c1: Catalog, c2: Catalog)
    requires Physical(st, c0, perCluster) && LinksOk(c0, root) && dir in c0.dirs
    requires Creatable(c0.dirs[dir], i, name, e, end) && e[11] == 0x10 && StartOf(e) == c
    requires 3 <= c < |st.fat| && IsFree(st.fat[c]) && zeros == Zeros(32 * perCluster)
    ensures CreateDirPlanned(st, c0, perCluster, dir, i, c, zeros, e, end, c1, c2) && LinksOk(c2, root) && Live(e)
  {
    CreateDirOk(c0.dirs[dir], i, name, e);
    MkdirKeepsPhysical(st, c0, perCluster, c, zeros);
    NewDirBytes(st.data, c, zeros);
    CreateDirKeepsLinks(c0, root, dir, i, c, zeros, e);
    c1 := WithNewDir(c0, c, zeros);
    c2 := EndMarkPlan(CreatedDir(c0, dir, i, c, zeros, e), c1, root, dir, i, e, end, Behind(c0.dirs[dir], i, end));
  }

  lemma NewIsFound(c: Catalog, root: Word, dir: Word, i: nat, name: seq<Byte>, es: seq<Entry>, e: Entry, end: bool)
    requires LinksOk(c, root) && Creatable(es, i, name, e, end) && Live(e)
    ensures dir in c.dirs && c.dirs[dir] == WithNew(es, i, e, end) ==> Lookup(c.dirs[dir], name, 0) == i
  {
    if dir in c.dirs && c.dirs[dir] == WithNew(es, i, e, end) { LookupFindsEntry(c.dirs[dir], name, i); }
  }

  lemma EndMarkPlan(ca: Catalog, c1: Catalog, root: Word, dir: Word, i: nat, e: Entry, end: bool, next: Entry)
    returns (c2: Catalog)
    requires LinksOk(ca, root) && 0 !in ca.chains && dir in c1.dirs && i < |c1.dirs[dir]|
    requires ca.chains == c1.chains && ca.owner == c1.owner && ca.dirs == WithEntry(c1, dir, i, e).dirs
    requires end ==>
               i + 1 < |c1.dirs[dir]| && next[0] == 0 && forall j :: i < j < |c1.dirs[dir]| ==> Unused(c1.dirs[dir][j])
    ensures EntriesPut(c1, dir, i, e, end, next, c2) && LinksOk(c2, root)
  {
    c2 := ca;
    if end {
      EndMarkKeepsLinks(ca, root, dir, i + 1, next);
      c2 := WithEntry(ca, dir, i + 1, next);
    }
  }

  lemma KeptSelf(st: Store, c0: Catalog)
    requires |st.fat| == |st.data| && ChainsOk(st.fat, c0)
    ensures Kept(c0, st.data, 0, 0, c0, st.data)
  {
    forall t | t in c0.chains && t != 0 ensures KeptChain(c0, st.data, c0, st.data, t) {
      ChainOfIsChain(st.fat, c0, t);
    }
  }

  lemma AddResult(f: seq<Word>, c0: Catalog, d0: seq<Block>, dir: Word, i: nat, e: Entry, end: bool,
                  zeros: Block, c1: Catalog, d1: seq<Block>, c2: Catalog, d2: seq<Block>)
    requires Placeable(c0, d0, dir, i, e, end, zeros, c1, d1, c2) && |f| == |d1| == |d2| && ChainsOk(f, c1)
    requires forall x :: 0 <= x < |d1| && x !in c1.chains[dir] ==> d2[x] == d1[x]
    ensures Added(c0, d0, c2, d2, dir, i, e, end)
  {
    PatchKeeps(f, c0, d0, 0, c1, d1, d2, dir);
    KeptDepends(c0, d0, 0, dir, c1, c2, d2);
  }

  /** Deleting the entry of `s` orphans no chain. */
  ghost predicate Forgettable(c: Catalog, s: Word) { s in c.dirs ==> NoRefs(c.dirs[s]) }

  ghost predicate DeletePlanned(st: Store, c0: Catalog, perCluster: nat, dir: Word, i: nat, c1: Catalog, c2: Catalog) {
    && dir in c0.dirs && i < |c0.dirs[dir]|
    && var e := c0.dirs[dir][i];
       var s, ch := StartOf(e), ChainOf(c0, StartOf(e));
       && IsChain(st.fat, s, ch) && Within(ch, |st.fat|) && Distinct(ch) && dir != s
       && Physical(Store(Cut(st.fat, ch, 0), st.data), c1, perCluster)
       && Kept(c0, st.data, s, s, c1, st.data)
       && c1.dirs == ForgetDir(c0, s).dirs && dir in c1.dirs && dir in c1.chains && s !in c1.chains
       && c2.chains == c1.chains && c2.owner == c1.owner && c2.dirs == WithEntry(c1, dir, i, Tombstone(e)).dirs
  }

  /** The catalogs of a delete: `c1` once the chain is free, `c2` once the entry is unused too. */
  lemma DeletePlan(st: Store, c0: Catalog, root: Word, perCluster: nat, dir: Word, i: nat)
    returns (c1: Catalog, c2: Catalog)
    requires Physical(st, c0, perCluster) && LinksOk(c0, root) && dir in c0.dirs && i < |c0.dirs[dir]|
    requires Named(c0.dirs[dir][i])
    ensures DeletePlanned(st, c0, perCluster, dir, i, c1, c2)
    ensures LinksOk(c2, root) <==> Forgettable(c0, StartOf(c0.dirs[dir][i]))
    ensures NoOrphan(c2, root) <==> Forgettable(c0, StartOf(c0.dirs[dir][i]))
  {
    var e := c0.dirs[dir][i];
    var s := StartOf(e);
    NamedEntry(c0, root, dir, i);
    ChainOfIsChain(st.fat, c0, s);
    DeleteKeepsPhysical(st, c0, perCluster, s);
    DeleteOrphansNothingIff(c0, root, dir, i, s, Tombstone(e));
    if Forgettable(c0, s) { DeleteKeepsLinks(c0, root, dir, i, s, Tombstone(e)); }
    c1 := Rechain(ForgetDir(c0, s), s, 0, []);
    c2 := Relink(c1, dir, i, s, 0, Tombstone(e));
    if LinksOk(c2, root) { LinkedIsReferenced(c2, root); }
  }

  /** The effect of a delete on values. */
  ghost predicate Removed(c0: Catalog, d0: seq<Block>, c: Catalog, data: seq<Block>, dir: Word, i: nat) {
    && dir in c0.dirs && i < |c0.dirs[dir]|
    && var e := c0.dirs[dir][i];
       && dir != StartOf(e) && dir in c.dirs && StartOf(e) !in c.chains
       && c.dirs == ForgetDir(WithEntry(c0, dir, i, Tombstone(e)), StartOf(e)).dirs
       && Kept(c0, d0, StartOf(e), dir, c, data)
  }

  lemma RemoveResult(f: seq<Word>, c0: Catalog, d0: seq<Block>, dir: Word, i: nat, s: Word, e': Entry,
                     c1: Catalog, c2: Catalog, d2: seq<Block>)
    requires dir in c0.dirs && i < |c0.dirs[dir]| && s == StartOf(c0.dirs[dir][i]) && dir != s
    requires e' == Tombstone(c0.dirs[dir][i])
    requires dir in c1.chains && s !in c1.chains && c2.chains == c1.chains && dir in c1.dirs && i < |c1.dirs[dir]|
    requires c1.dirs == ForgetDir(c0, s).dirs && c2.dirs == WithEntry(c1, dir, i, e').dirs
    requires |f| == |d0| == |d2| && ChainsOk(f, c1) && Kept(c0, d0, s, s, c1, d0)
    requires forall x :: 0 <= x < |d0| && x !in c1.chains[dir] ==> d2[x] == d0[x]
    ensures Removed(c0, d0, c2, d2, dir, i)
  {
    PatchKeeps(f, c0, d0, s, c1, d0, d2, dir);
    KeptDepends(c0, d0, s, dir, c1, c2, d2);
  }

  /** A named entry refers to nothing or to a chain, and not to its own directory. */
  lemma NamedEntry(cat: Catalog, root: Word, d: Word, i: nat)
    requires LinksOk(cat, root) && 0 !in cat.chains && d in cat.dirs && i < |cat.dirs[d]|
    requires Named(cat.dirs[d][i])
    ensures var s := StartOf(cat.dirs[d][i]); (s == 0 || s in cat.chains) && d in cat.chains && s != d
  {
    assert EntryOk(cat, d, i, cat.dirs[d][i]);
  }

  /** After a delete the name is not found any more. */
  lemma DeletedIsGone(es: seq<Entry>, n: seq<Byte>, i: nat, e': Entry)
    requires DirOk(es) && ValidName(n) && Lookup(es, n, 0) == i && e'[0] == 0xE5
    ensures Lookup(es[i := e'], n, 0) == -1
  {
    LookupFindsKey(es, n, i);
    var k := Lookup(es[i := e'], n, 0);
    if k >= 0 {
      DeletedDirOk(es, i, e');
      FoundHasKey(es[i := e'], n, k);
    }
  }

  /** Agreement with table and clusters does not depend on the homes. */
  lemma PhysicalDepends(st: Store, a: Catalog, b: Catalog, perCluster: nat)
    requires Physical(st, a, perCluster) && a.chains == b.chains && a.owner == b.owner && a.dirs == b.dirs
    ensures Physical(st, b, perCluster)
  {
  }

  /** The catalogs of a write: `c1` once the chain is rewritten, `c2` once the entry is too. */
  ghost predicate RewritePlanned(c0: Catalog, dir: Word, i: nat, e': Entry, ch': seq<Word>, c1: Catalog, c2: Catalog) {
    && dir in c0.dirs && i < |c0.dirs[dir]|
    && c1.dirs == c0.dirs && c2.chains == c1.chains && c2.owner == c1.owner && c2.dirs == WithEntry(c0, dir, i, e').dirs
    && e'[..12] == c0.dirs[dir][i][..12] && dir in c1.chains
    && var s' := StartOf(e');
       s' != dir && (if s' == 0 then ch' == [] && s' !in c1.chains else s' in c1.chains && c1.chains[s'] == ch')
  }

  lemma RewritePlan(c0: Catalog, root: Word, dir: Word, i: nat, s': Word, g: seq<Word>, ch': seq<Word>, e': Entry,
                    nData: Word)
    returns (c2: Catalog)
    requires LinksOk(c0, root) && 0 !in c0.chains && dir in c0.dirs && i < |c0.dirs[dir]|
    requires Named(c0.dirs[dir][i]) && !IsDir(c0.dirs[dir][i]) && e' == WithSize(WithStart(c0.dirs[dir][i], s'), nData)
    requires (s' == StartOf(c0.dirs[dir][i]) || s' !in c0.chains) && IsChain(g, s', ch')
    ensures RewritePlanned(c0, dir, i, e', ch', Rechain(c0, StartOf(c0.dirs[dir][i]), s', ch'), c2) && LinksOk(c2, root)
  {
    var s := StartOf(c0.dirs[dir][i]);
    FileEntry(c0, root, dir, i);
    RewriteShape(c0, dir, i, s, s', ch', e', nData);
    WriteKeepsLinks(c0, root, dir, i, s, s', ch', e');
    c2 := Relink(Rechain(c0, s, s', ch'), dir, i, s, s', e');
  }

  lemma RewriteShape(c0: Catalog, dir: Word, i: nat, s: Word, s': Word, ch': seq<Word>, e': Entry, nData: Word)
    requires 0 !in c0.chains && dir in c0.dirs && i < |c0.dirs[dir]| && dir in c0.chains
    requires s == StartOf(c0.dirs[dir][i]) && s != dir && (s' == s || s' !in c0.chains) && (s' == 0 ==> ch' == [])
    requires e' == WithSize(WithStart(c0.dirs[dir][i], s'), nData)
    ensures var c1 := Rechain(c0, s, s', ch');
      && c1.dirs == c0.dirs && e'[..12] == c0.dirs[dir][i][..12] && StartOf(e') == s'
      && RewritePlanned(c0, dir, i, e', ch', c1, Relink(c1, dir, i, s, s', e'))
  {
  }

  /** The effect of a write on values: `c0`, `d0` before, `c`, `data` after. */
  ghost predicate Rewrote(g: Geometry, c0: Catalog, d0: seq<Block>, c: Catalog, data: seq<Block>,
                          dir: Word, i: nat, bytes: seq<Byte>, nData: Word)
  {
    && dir in c0.dirs && i < |c0.dirs[dir]| && dir in c.dirs && i < |c.dirs[dir]| && g.ClusterBytes() > 0
    && var e, e' := c0.dirs[dir][i], c.dirs[dir][i];
       && e'[..12] == e[..12] && SizeOf(e') == nData
       && c.dirs == WithEntry(c0, dir, i, e').dirs
       && HasContent(g, c, data, StartOf(e'), bytes)
       && Kept(c0, d0, StartOf(e), dir, c, data)
  }

  /** The chain is as long as `bytes` needs, and begins with `bytes`. */
  ghost predicate ChainHolds(g: Geometry, data: seq<Block>, ch: seq<Word>, bytes: seq<Byte>) {
    && Within(ch, |data|) && g.ClusterBytes() > 0 && |ch| == NumBlocks(|bytes|, g.ClusterBytes())
    && bytes <= Flat(Blocks(data, ch))
  }

  ghost predicate HasContent(g: Geometry, c: Catalog, data: seq<Block>, s: Word, bytes: seq<Byte>) {
    ChainHolds(g, data, ChainOf(c, s), bytes)
  }

  /** Every chain but that of entry `i` of `dir` is kept. */
  ghost predicate KeptBut(c0: Catalog, d0: seq<Block>, dir: Word, i: nat, c: Catalog, data: seq<Block>)
    requires dir in c0.dirs && i < |c0.dirs[dir]|
  {
    var s := StartOf(c0.dirs[dir][i]);
    Kept(c0, d0, s, s, c, data)
  }

  /** All sectors of cluster `c` are on a card of `size` bytes. */
  predicate OnCard(g: Geometry, c: nat, size: nat) { SECTOR * (g.Lba(c) + g.spc) <= size }

  /**
   * A table may have more entries than the card has clusters.  The search for a free cluster then leaves the card
   * exactly when it finds a cluster and no free one is on the card.
   */
  lemma SearchLeavesCardIff(g: Geometry, f: seq<Word>, size: nat)
    requires 3 <= |f|
    ensures FirstFree(f, 3) < |f| && !OnCard(g, FirstFree(f, 3), size)
       <==> FreeSet(f) != {} && forall c :: c in FreeSet(f) ==> !OnCard(g, c, size)
  {
    var first := FirstFree(f, 3);
    SomeFree(f);
    if first < |f| {
      assert first in FreeSet(f);
      forall c | c in FreeSet(f) && OnCard(g, c, size) ensures OnCard(g, first, size) {
        MulMono(first - 2, c - 2, g.spc);
      }
    }
  }

  lemma CutsAreSized(g: Geometry, data: seq<Byte>, nbytes: nat, bs: seq<Block>, perCluster: nat)
    requires Cuts(g, data, nbytes, bs) && perCluster == 16 * g.spc
    ensures Sized(bs, 32 * perCluster)
  {
    ChopMeaning(data, g.ClusterBytes(), |bs|);
  }

  lemma BytesStored(g: Geometry, data: seq<Byte>, nbytes: nat, bs: seq<Block>, blocks: seq<Block>, ch: seq<Word>)
    requires Cuts(g, data, nbytes, bs) && nbytes <= |data| && Within(ch, |blocks|) && Blocks(blocks, ch) == bs
    ensures ChainHolds(g, blocks, ch, data[..nbytes])
  {
    var size := g.ClusterBytes();
    ChopMeaning(data, size, |bs|);
    NumBlocksBound(nbytes, size, |bs|);
    assert data[..nbytes] <= data[..|bs| * size];
  }

  lemma RewriteResult(g: Geometry, f: seq<Word>, c0: Catalog, d0: seq<Block>, dir: Word, i: nat, e': Entry,
                      ch': seq<Word>,
                      c1: Catalog, d1: seq<Block>, c2: Catalog, d2: seq<Block>, bytes: seq<Byte>)
    requires RewritePlanned(c0, dir, i, e', ch', c1, c2) && KeptBut(c0, d0, dir, i, c1, d1)
             && ChainHolds(g, d1, ch', bytes)
    requires |f| == |d1| == |d2| && ChainsOk(f, c1)
    requires forall x :: 0 <= x < |d1| && x !in c1.chains[dir] ==> d2[x] == d1[x]
    ensures Rewrote(g, c0, d0, c2, d2, dir, i, bytes, SizeOf(e'))
  {
    var s := StartOf(c0.dirs[dir][i]);
    PatchKeeps(f, c0, d0, s, c1, d1, d2, dir);
    KeptDepends(c0, d0, s, dir, c1, c2, d2);
    FileUntouched(f, c1, d1, d2, dir, StartOf(e'), ch');
    assert HasContent(g, c2, d2, StartOf(e'), bytes);
  }

  /** Rewriting a directory's cluster leaves a file's bytes alone. */
  lemma FileUntouched(f: seq<Word>, c1: Catalog, d1: seq<Block>, d2: seq<Block>, dir: Word, s': Word, ch': seq<Word>)
    requires |f| == |d1| == |d2| && ChainsOk(f, c1) && dir in c1.chains && s' != dir && Within(ch', |d1|)
    requires s' == 0 ==> ch' == []
    requires s' != 0 ==> s' in c1.chains && c1.chains[s'] == ch'
    requires forall x :: 0 <= x < |d1| && x !in c1.chains[dir] ==> d2[x] == d1[x]
    ensures Blocks(d2, ch') == Blocks(d1, ch')
  {
    if s' != 0 {
      ChainsAreDisjoint(f, c1, s', dir);
      forall j | 0 <= j < |ch'| ensures d2[ch'[j]] == d1[ch'[j]] {
        assert ch'[j] in ch';
      }
    }
  }

  lemma KeptDepends(c0: Catalog, d0: seq<Block>, s: Word, dir: Word, c1: Catalog, c2: Catalog, data: seq<Block>)
    requires Kept(c0, d0, s, dir, c1, data) && c2.chains == c1.chains
    ensures Kept(c0, d0, s, dir, c2, data)
  {
    forall t | t in c0.chains && t != s && t != dir ensures KeptChain(c0, d0, c2, data, t) {
      assert KeptChain(c0, d0, c1, data, t);
    }
  }

  /** A named file entry refers to no directory. */
  lemma FileEntry(cat: Catalog, root: Word, d: Word, i: nat)
    requires LinksOk(cat, root) && 0 !in cat.chains && d in cat.dirs && i < |cat.dirs[d]|
    requires Named(cat.dirs[d][i]) && !IsDir(cat.dirs[d][i])
    ensures var s := StartOf(cat.dirs[d][i]);
            (s == 0 || s in cat.chains) && s !in cat.dirs && d in cat.chains && s != d
  {
    assert EntryOk(cat, d, i, cat.dirs[d][i]);
  }

  /** One pass of the growth loop on values. */
  lemma GrowStep(st: Store, start: Word, tail: Word, bs: seq<Block>, i: nat)
    requires st.Shaped() && i < |bs| && (start != 0 ==> tail < |st.fat|) && FirstFree(st.fat, 3) < |st.fat|
    ensures var c := FirstFree(st.fat, 3);
            var st1 := Store(if start == 0 then st.fat else st.fat[tail := c], st.data[c := bs[i]]);
            var start1 := if start == 0 then c else start;
            Grow(st, start, tail, bs[i..]) ==
            if i + 1 == |bs| then Wrote(start1, Store(st1.fat[c := END_MARK], st1.data))
            else Grow(st1, start1, c, bs[i + 1..])
  {
    assert bs[i..][0] == bs[i] && bs[i..][1..] == bs[i + 1..];
  }

  lemma TotalBytes(nbytes: Word, size: nat, i: nat, m: nat)
    requires size > 0 && m == NumBlocks(nbytes, size) && i < m && nbytes + size <= TWO32
    ensures (i + 1) * size < TWO32
    ensures nbytes <= (i + 1) * size <==> i + 1 == m
  {
    NumBlocksBound(nbytes, size, i + 1);
    MulMono(i + 1, m, size);
  }

  /** Number of whole clusters before entry `idx`, and its index in its own cluster. */
  method EntryIndex(idx: nat, perCluster: nat) returns (steps: nat, rest: nat)
    requires perCluster > 0
    ensures steps == idx / perCluster && rest == idx % perCluster
    ensures idx == steps * perCluster + rest && rest < perCluster
  {
    steps, rest := idx / perCluster, idx % perCluster;
  }

  function Min(a: nat, b: nat): nat {
    if a < b then a else b
  }

  /** The clusters' contents while the first `i` clusters of `ch` are rewritten. */
  ghost function PutUpTo(data: seq<Block>, ch: seq<Word>, bs: seq<Block>, i: nat): (r: seq<Block>)
    requires Within(ch, |data|) && i <= |ch|
    ensures |r| == |data|
  {
    if i == 0 then data
    else
      var p := PutUpTo(data, ch, bs, i - 1);
      if i <= |bs| then p[ch[i - 1] := bs[i - 1]] else p
  }

  lemma {:induction false} PutUpToIsPut(data: seq<Block>, ch: seq<Word>, bs: seq<Block>, i: nat, k: nat, cs: seq<Word>,
                                        ds: seq<Block>)
    requires Distinct(ch) && Within(ch, |data|) && i <= |ch| && k == Min(i, |bs|) && cs == ch[..k] && ds == bs[..k]
    ensures PutUpTo(data, ch, bs, i) == Put(data, cs, ds)
  {
    if i > 0 {
      var k1 := Min(i - 1, |bs|);
      PutUpToIsPut(data, ch, bs, i - 1, k1, ch[..k1], bs[..k1]);
      if i <= |bs| { StoreStep(data, ch, bs, i - 1); }
    }
  }

  /** Byte offsets stay below 2^32, and compare with `nbytes` as numbers of clusters do. */
  lemma Offsets(nbytes: Word, size: nat, count: nat, k: nat)
    requires size > 0 && 0 < count <= k && k * size < TWO32
    ensures 0 <= (count - 1) * size < TWO32 && 0 <= count * size < TWO32 && (count - 1) * size + size == count * size
    ensures nbytes <= (count - 1) * size <==> NumBlocks(nbytes, size) < count
    ensures nbytes <= count * size <==> NumBlocks(nbytes, size) <= count
  {
    NumBlocksBound(nbytes, size, count - 1);
    NumBlocksBound(nbytes, size, count);
    MulMono(count, k, size);
  }

  lemma StartsAt(f: seq<Word>, start: Word, ch: seq<Word>)
    requires IsChain(f, start, ch) && start != 0
    ensures ch != [] && ch[0] == start
  {
  }

  lemma NextLink(f: seq<Word>, start: Word, ch: seq<Word>, i: nat)
    requires IsChain(f, start, ch) && start != 0 && i < |ch|
    ensures LinkOk(f, ch, i) && (IsLast(f[ch[i]]) <==> i == |ch| - 1) && (i + 1 < |ch| ==> f[ch[i]] == ch[i + 1])
  {
    assert LinkOk(f, ch, i);
  }

  lemma {:induction false} Completed(f: seq<Word>, data: seq<Block>, ch: seq<Word>, bs: seq<Block>)
    requires Distinct(ch) && Within(ch, |data|) && |f| == |data|
    ensures |bs| < |ch| ==>
              CutUpTo(f, ch, |bs|, |ch|) == Cut(f, ch, |bs|) && PutUpTo(data, ch, bs, |ch|) == Put(data, ch[..|bs|], bs)
    ensures |bs| >= |ch| ==> CutUpTo(f, ch, |bs|, |ch|) == f && PutUpTo(data, ch, bs, |ch|) == Put(data, ch, bs[..|ch|])
  {
    CutComplete(f, ch, |bs|);
    if |bs| < |ch| {
      PutUpToIsPut(data, ch, bs, |ch|, |bs|, ch[..|bs|], bs);
    } else {
      PutUpToIsPut(data, ch, bs, |ch|, |ch|, ch, bs[..|ch|]);
    }
  }

  lemma StoreStep(data: seq<Block>, ch: seq<Word>, bs: seq<Block>, i: nat)
    requires Distinct(ch) && Within(ch, |data|) && i < |ch| && i < |bs|
    ensures Put(data, ch[..i + 1], bs[..i + 1]) == Put(data, ch[..i], bs[..i])[ch[i] := bs[i]]
  {
    assert ch[..i + 1] == ch[..i] + [ch[i]] && bs[..i + 1] == bs[..i] + [bs[i]];
    PutSnoc(data, ch[..i], bs[..i], ch[i], bs[i]);
  }
}
