/**
 Where the table and the clusters lie on the card, the table as little-endian words, and
 why writing a cluster and flushing the table never disturb each other.
 */
module DiskLayout {
  import opened Machine
  import opened ChainStore
  import opened Directory

  const SECTOR: nat := 512

  /** The geometry `fat32_mk` computes; `n` is the number of table entries. */
  datatype Geometry = Geometry(fatBegin: nat, clusterBegin: nat, spc: nat, root: Word, n: nat) {
    /** Two copies of the table precede the clusters, and sector numbers fit in 32 bits. */
    ghost predicate Ok() {
      && 128 <= n <= 0xFFF_FFF0 && n % 128 == 0 && spc > 0
      && fatBegin + n / 128 + n / 128 <= clusterBegin
      && Lba(n) <= TWO32
    }

    /** First sector of a cluster. */
    function Lba(c: nat): int {
      clusterBegin + (c - 2) * spc
    }

    function ClusterBytes(): nat {
      SECTOR * spc
    }

    /** The card is large enough for every cluster the table can name. */
    ghost predicate Fits(disk: seq<Byte>) {
      SECTOR * Lba(n) <= |disk|
    }
  }

  /** Clusters follow each other without overlap, behind the table. */
  lemma ClusterRange(g: Geometry, c: nat)
    requires g.Ok() && 2 <= c < g.n
    ensures g.Lba(c + 1) == g.Lba(c) + g.spc && g.Lba(c + 1) <= g.Lba(g.n)
    ensures g.fatBegin + g.n / 128 <= g.Lba(c)
  {
    assert (c + 1 - 2) * g.spc == (c - 2) * g.spc + g.spc;
    MulMono(c + 1 - 2, g.n - 2, g.spc);
  }

  /** Sector ranges of different clusters are disjoint. */
  lemma ClustersApart(g: Geometry, c: nat, d: nat)
    requires g.Ok() && 2 <= c < d < g.n
    ensures g.Lba(c) + g.spc <= g.Lba(d)
  {
    ClusterRange(g, c);
    MulMono(c + 1 - 2, d - 2, g.spc);
  }

  ghost function ClusterAt(disk: seq<Byte>, g: Geometry, c: nat): (b: Block)
    requires g.Ok() && g.Fits(disk) && 2 <= c < g.n
    ensures |b| == g.ClusterBytes()
  {
    ClusterRange(g, c);
    disk[SECTOR * g.Lba(c)..SECTOR * g.Lba(c) + g.ClusterBytes()]
  }

  /** The content of every cluster; clusters 0 and 1 do not exist. */
  ghost function Clusters(disk: seq<Byte>, g: Geometry): (data: seq<Block>)
    requires g.Ok() && g.Fits(disk)
    ensures |data| == g.n
    ensures forall c :: 2 <= c < g.n ==> data[c] == ClusterAt(disk, g, c)
  {
    seq(g.n, c requires 0 <= c < g.n => if c < 2 then [] else ClusterAt(disk, g, c))
  }

  /** The bytes of the first copy of the table. */
  ghost function TableBytes(disk: seq<Byte>, g: Geometry): (b: seq<Byte>)
    requires g.Ok() && g.Fits(disk)
    ensures |b| == 4 * g.n
  {
    ClusterRange(g, 2);
    disk[SECTOR * g.fatBegin..SECTOR * g.fatBegin + 4 * g.n]
  }

  lemma SliceOfSplice(s: seq<Byte>, at: nat, x: seq<Byte>, lo: nat, hi: nat)
    requires at + |x| <= |s| && lo <= hi <= |s| && (hi <= at || at + |x| <= lo)
    ensures Splice(s, at, x)[lo..hi] == s[lo..hi]
  {
    var r := Splice(s, at, x);
    forall i | lo <= i < hi ensures r[i] == s[i] {
    }
  }

  lemma SpliceReadsBack(s: seq<Byte>, at: nat, x: seq<Byte>)
    requires at + |x| <= |s|
    ensures Splice(s, at, x)[at..at + |x|] == x
  {
  }

  /** Writing one cluster changes that cluster, no other cluster, and not the table. */
  lemma WritingACluster(disk: seq<Byte>, g: Geometry, c: nat, b: Block)
    requires g.Ok() && g.Fits(disk) && 2 <= c < g.n && |b| == g.ClusterBytes()
    ensures SECTOR * g.Lba(c) + |b| <= |disk| && 0 <= g.Lba(c)
    ensures var disk' := Splice(disk, SECTOR * g.Lba(c), b);
            && g.Fits(disk')
            && Clusters(disk', g) == Clusters(disk, g)[c := b]
            && TableBytes(disk', g) == TableBytes(disk, g)
  {
    ClusterRange(g, c);
    var at := SECTOR * g.Lba(c);
    var disk' := Splice(disk, at, b);
    SpliceReadsBack(disk, at, b);
    forall d | 2 <= d < g.n && d != c ensures ClusterAt(disk', g, d) == ClusterAt(disk, g, d) {
      ClusterRange(g, d);
      if d < c { ClustersApart(g, d, c); } else { ClustersApart(g, c, d); }
      SliceOfSplice(disk, at, b, SECTOR * g.Lba(d), SECTOR * g.Lba(d) + g.ClusterBytes());
    }
    SliceOfSplice(disk, at, b, SECTOR * g.fatBegin, SECTOR * g.fatBegin + 4 * g.n);
  }

  /** Writing `n / 128` sectors at the table's place replaces exactly the first copy. */
  lemma WritingTheTable(disk: seq<Byte>, g: Geometry, b: seq<Byte>)
    requires g.Ok() && g.Fits(disk) && |b| == SECTOR * (g.n / 128)
    ensures SECTOR * g.fatBegin + |b| <= |disk|
    ensures var disk' := Splice(disk, SECTOR * g.fatBegin, b);
            && g.Fits(disk')
            && Clusters(disk', g) == Clusters(disk, g)
            && TableBytes(disk', g) == b
  {
    ClusterRange(g, 2);
    var at := SECTOR * g.fatBegin;
    var disk' := Splice(disk, at, b);
    assert |b| == 4 * g.n;
    SpliceReadsBack(disk, at, b);
    forall d | 2 <= d < g.n ensures ClusterAt(disk', g, d) == ClusterAt(disk, g, d) {
      ClusterRange(g, d);
      SliceOfSplice(disk, at, b, SECTOR * g.Lba(d), SECTOR * g.Lba(d) + g.ClusterBytes());
    }
  }

  // ------------------------------------------------------ words and bytes

  function ToBytes(f: seq<Word>): (b: seq<Byte>)
    ensures |b| == 4 * |f|
  {
    seq(4 * |f|, i requires 0 <= i < 4 * |f| => ByteAt(f[i / 4], i % 4))
  }

  function ToWords(b: seq<Byte>): (f: seq<Word>)
    ensures |f| == |b| / 4
  {
    seq(|b| / 4, i requires 0 <= i < |b| / 4 => Le32(b[4 * i], b[4 * i + 1], b[4 * i + 2], b[4 * i + 3]))
  }

  /** Reading the table back gives the words that were flushed. */
  lemma WordsOfBytes(f: seq<Word>)
    ensures ToWords(ToBytes(f)) == f
  {
    forall i | 0 <= i < |f| ensures ToWords(ToBytes(f))[i] == f[i] {
      WordOfBytes(f, i);
    }
  }

  lemma ByteOfWord(f: seq<Word>, i: nat, j: nat)
    requires i < |f| && j < 4
    ensures ToBytes(f)[4 * i + j] == ByteAt(f[i], j)
  {
    assert (4 * i + j) / 4 == i && (4 * i + j) % 4 == j;
  }

  lemma WordOfBytes(f: seq<Word>, i: nat)
    requires i < |f|
    ensures ToWords(ToBytes(f))[i] == f[i]
  {
    ByteOfWord(f, i, 0);
    ByteOfWord(f, i, 1);
    ByteOfWord(f, i, 2);
    ByteOfWord(f, i, 3);
    Le32OfBytes(f[i]);
  }

  /** And the other way round. */
  lemma BytesOfWords(b: seq<Byte>)
    requires |b| % 4 == 0
    ensures ToBytes(ToWords(b)) == b
  {
    var f := ToWords(b);
    forall i | 0 <= i < |b| ensures ToBytes(f)[i] == b[i] {
      var q := i / 4;
      assert i == 4 * q + i % 4;
      BytesOfLe32(b[4 * q], b[4 * q + 1], b[4 * q + 2], b[4 * q + 3]);
    }
  }

  lemma BytesOfLe32(b0: Byte, b1: Byte, b2: Byte, b3: Byte)
    ensures var w := Le32(b0, b1, b2, b3);
            ByteAt(w, 0) == b0 && ByteAt(w, 1) == b1 && ByteAt(w, 2) == b2 && ByteAt(w, 3) == b3
  {
    var w := Le32(b0, b1, b2, b3);
    var w1 := b1 + 0x100 * b2 + 0x1_0000 * b3;
    assert w == b0 + 0x100 * w1;
    assert w / 0x100 == w1 && w % 0x100 == b0;
    var w2 := b2 + 0x100 * b3;
    assert w1 == b1 + 0x100 * w2;
    assert w1 / 0x100 == w2 && w1 % 0x100 == b1;
    assert w / 0x1_0000 == w1 / 0x100;
    assert w / 0x100_0000 == w2 / 0x100;
  }

  // ----------------------------------------------------- cutting a buffer

  /** Number of clusters for `nbytes` bytes. */
  function NumBlocks(nbytes: nat, size: nat): nat
    requires size > 0
  {
    (nbytes + size - 1) / size
  }

  lemma NumBlocksBound(nbytes: nat, size: nat, j: nat)
    requires size > 0
    ensures nbytes <= j * size <==> NumBlocks(nbytes, size) <= j
  {
    var m := NumBlocks(nbytes, size);
    assert m * size <= nbytes + size - 1 < m * size + size;
    if m <= j {
      MulMono(m, j, size);
    } else {
      MulMono(j + 1, m, size);
      assert (j + 1) * size == j * size + size;
    }
  }

  /** The buffer cut into `m` cluster-sized blocks. */
  function Chop(data: seq<Byte>, size: nat, m: nat): (bs: seq<Block>)
    requires m * size <= |data|
    ensures |bs| == m
    decreases m
  {
    if m == 0 then []
    else
      assert (m - 1) * size + size == m * size;
      Chop(data, size, m - 1) + [data[(m - 1) * size..m * size]]
  }

  /** `bs` is the buffer of `nbytes` bytes cut into clusters; sizes do not wrap in 32 bits. */
  ghost predicate Cuts(g: Geometry, data: seq<Byte>, nbytes: nat, bs: seq<Block>) {
    var size := g.ClusterBytes();
    && size > 0 && nbytes + size <= TWO32 && |bs| == NumBlocks(nbytes, size)
    && |bs| * size <= |data| && bs == Chop(data, size, |bs|)
  }

  lemma {:induction false} ChopMeaning(data: seq<Byte>, size: nat, m: nat)
    requires m * size <= |data|
    ensures Sized(Chop(data, size, m), size)
    ensures Flat(Chop(data, size, m)) == data[..m * size]
    decreases m
  {
    if m > 0 {
      assert (m - 1) * size + size == m * size;
      ChopMeaning(data, size, m - 1);
      var bs := Chop(data, size, m);
      assert bs[..m - 1] == Chop(data, size, m - 1);
    }
  }

  lemma {:induction false} ChopAt(data: seq<Byte>, size: nat, m: nat, i: nat)
    requires m * size <= |data| && i < m
    ensures i * size + size <= m * size && Chop(data, size, m)[i] == data[i * size..i * size + size]
    decreases m
  {
    assert (m - 1) * size + size == m * size;
    if i < m - 1 {
      ChopAt(data, size, m - 1, i);
    }
  }
}
