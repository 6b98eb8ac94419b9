/**
 The file interface above the driver: writing, reading and appending by name, as the chunk
 store uses them.
 */
module FileApi {
  import opened Machine
  import opened FatTable
  import opened ChainStore
  import opened Names
  import opened Directory
  import opened Catalog
  import opened DiskLayout
  import opened Volumes

  /** `name` is a dotted valid name that a live file entry of `dir` has. */
  ghost predicate FileAt(c: Catalog, dir: Word, name: seq<Byte>) {
    && ValidName(name) && DOT in name && dir in c.dirs && Lookup(c.dirs[dir], name, 0) >= 0
    && !IsDir(FileEntryOf(c, dir, name))
  }

  ghost function FileEntryOf(c: Catalog, dir: Word, name: seq<Byte>): Entry
    requires dir in c.dirs && Lookup(c.dirs[dir], name, 0) >= 0
  {
    c.dirs[dir][Lookup(c.dirs[dir], name, 0)]
  }

  ghost function FileStart(c: Catalog, dir: Word, name: seq<Byte>): Word
    requires FileAt(c, dir, name)
  {
    StartOf(FileEntryOf(c, dir, name))
  }

  ghost function FileSize(c: Catalog, dir: Word, name: seq<Byte>): Word
    requires FileAt(c, dir, name)
  {
    SizeOf(FileEntryOf(c, dir, name))
  }

  /** The file has exactly the clusters its size needs, below 4 GB. */
  ghost predicate Snug(v: Volume, dir: Word, name: seq<Byte>)
    requires v.geo.Ok() && FileAt(v.cat, dir, name)
    reads v
  {
    var n := FileSize(v.cat, dir, name);
    && n + v.geo.ClusterBytes() <= TWO32
    && |ChainOf(v.cat, FileStart(v.cat, dir, name))| == NumBlocks(n, v.geo.ClusterBytes())
  }

  /** File `name` of directory `dir` holds `bytes`: as many as its size says, in no more clusters than they need. */
  ghost predicate FileIn(g: Geometry, c: Catalog, data: seq<Block>, dir: Word, name: seq<Byte>, bytes: seq<Byte>) {
    && FileAt(c, dir, name) && g.Ok() && |bytes| + g.ClusterBytes() <= TWO32
    && FileSize(c, dir, name) == |bytes| && HasContent(g, c, data, FileStart(c, dir, name), bytes)
  }

  ghost predicate FileHolds(v: Volume, dir: Word, name: seq<Byte>, bytes: seq<Byte>)
    reads v, v.fat
  {
    v.Valid() && FileIn(v.geo, v.cat, v.Data(), dir, name, bytes)
  }

  /** Entry `j` of directory `d2` has the same 32 bytes and its chain the same clusters with the same contents. */
  ghost predicate EntryKept(c0: Catalog, d0: seq<Block>, c: Catalog, data: seq<Block>, dir: Word, d2: Word, j: nat)
    requires d2 in c0.dirs && j < |c0.dirs[d2]|
  {
    && d2 in c.dirs && j < |c.dirs[d2]| && c.dirs[d2][j] == c0.dirs[d2][j]
    && var t := StartOf(c0.dirs[d2][j]);
       t in c0.chains && t != dir ==> KeptChain(c0, d0, c, data, t)
  }

  /** Entry `j` of directory `d2` is in use and not the one of file `name` of `dir`. */
  ghost predicate IsOther(c: Catalog, dir: Word, name: seq<Byte>, d2: Word, j: nat)
    requires ValidName(name)
  {
    && d2 in c.dirs && j < |c.dirs[d2]| && Named(c.dirs[d2][j])
    && (d2 != dir || Raw(c.dirs[d2][j]) != Key(name))
  }

  /**
   Everything but file `name` of `dir` is as it was: every other named entry of every directory, and the
   contents it refers to, the clusters of directory `dir` itself excepted.
   */
  ghost predicate OthersHold(c0: Catalog, d0: seq<Block>, c: Catalog, data: seq<Block>, dir: Word, name: seq<Byte>)
    requires ValidName(name)
  {
    forall d2: Word, j: nat :: IsOther(c0, dir, name, d2, j) ==> EntryKept(c0, d0, c, data, dir, d2, j)
  }

  lemma OthersHoldAlready(f: seq<Word>, c: Catalog, data: seq<Block>, dir: Word, name: seq<Byte>)
    requires ValidName(name) && ChainsOk(f, c) && |f| == |data|
    ensures OthersHold(c, data, c, data, dir, name)
  {
    forall d2: Word, j: nat | IsOther(c, dir, name, d2, j) ensures EntryKept(c, data, c, data, dir, d2, j) {
      var t := StartOf(c.dirs[d2][j]);
      if t in c.chains { ChainOfIsChain(f, c, t); }
    }
  }

  lemma OthersHoldTwice(c0: Catalog, d0: seq<Block>, c1: Catalog, d1: seq<Block>, c2: Catalog, d2: seq<Block>,
                        dir: Word, name: seq<Byte>)
    requires ValidName(name) && OthersHold(c0, d0, c1, d1, dir, name) && OthersHold(c1, d1, c2, d2, dir, name)
    ensures OthersHold(c0, d0, c2, d2, dir, name)
  {
    forall d: Word, j: nat | IsOther(c0, dir, name, d, j)
      ensures EntryKept(c0, d0, c2, d2, dir, d, j)
    {
      assert EntryKept(c0, d0, c1, d1, dir, d, j) && EntryKept(c1, d1, c2, d2, dir, d, j);
    }
  }

  /** In particular every other file holds what it held. */
  lemma OtherFileHolds(g: Geometry, root: Word, c0: Catalog, d0: seq<Block>, c: Catalog, data: seq<Block>,
                       dir: Word, name: seq<Byte>, d2: Word, n2: seq<Byte>, b2: seq<Byte>)
    requires LinksOk(c0, root) && LinksOk(c, root) && 0 !in c0.chains && 0 !in c.chains && dir in c0.dirs
    requires ValidName(name) && OthersHold(c0, d0, c, data, dir, name)
    requires FileIn(g, c0, d0, d2, n2, b2) && (d2 != dir || Key(n2) != Key(name))
    ensures FileIn(g, c, data, d2, n2, b2)
  {
    var j := Lookup(c0.dirs[d2], n2, 0);
    LookupFindsKey(c0.dirs[d2], n2, j);
    assert EntryKept(c0, d0, c, data, dir, d2, j);
    LookupFindsEntry(c.dirs[d2], n2, j);
    FileEntry(c0, root, d2, j);
    assert EntryOk(c0, d2, j, c0.dirs[d2][j]);
  }

  lemma WriteKeepsOthers(g: Geometry, root: Word, c0: Catalog, d0: seq<Block>, c: Catalog, data: seq<Block>,
                         dir: Word, name: seq<Byte>, i: nat, bytes: seq<Byte>, nData: Word)
    requires LinksOk(c0, root) && 0 !in c0.chains && Rewrote(g, c0, d0, c, data, dir, i, bytes, nData)
    requires FileAt(c0, dir, name) && i == Lookup(c0.dirs[dir], name, 0)
    ensures OthersHold(c0, d0, c, data, dir, name)
  {
    LookupFindsKey(c0.dirs[dir], name, i);
    forall d2: Word, j: nat | IsOther(c0, dir, name, d2, j) ensures EntryKept(c0, d0, c, data, dir, d2, j) {
      WriteKeepsOther(c0, d0, c, data, dir, i, d2, j);
    }
  }

  lemma WriteKeepsOther(c0: Catalog, d0: seq<Block>, c: Catalog, data: seq<Block>,
                        dir: Word, i: nat, d2: Word, j: nat)
    requires EntriesOk(c0) && 0 !in c0.chains && dir in c0.dirs && i < |c0.dirs[dir]| && Named(c0.dirs[dir][i])
    requires d2 in c0.dirs && j < |c0.dirs[d2]| && Named(c0.dirs[d2][j]) && (d2 != dir || j != i)
    requires dir in c.dirs && |c.dirs[dir]| > i && c.dirs == c0.dirs[dir := c0.dirs[dir][i := c.dirs[dir][i]]]
    requires Kept(c0, d0, StartOf(c0.dirs[dir][i]), dir, c, data)
    ensures EntryKept(c0, d0, c, data, dir, d2, j)
  {
    var t := StartOf(c0.dirs[d2][j]);
    StartsDiffer(c0, dir, i, d2, j);
    assert c.dirs[d2][j] == c0.dirs[d2][j];
    if t in c0.chains && t != dir { assert KeptChain(c0, d0, c, data, t); }
  }

  lemma StartsDiffer(c: Catalog, dir: Word, i: nat, d2: Word, j: nat)
    requires EntriesOk(c) && 0 !in c.chains && dir in c.dirs && i < |c.dirs[dir]| && Named(c.dirs[dir][i])
    requires d2 in c.dirs && j < |c.dirs[d2]| && Named(c.dirs[d2][j]) && (d2 != dir || j != i)
    ensures StartOf(c.dirs[d2][j]) in c.chains ==> StartOf(c.dirs[d2][j]) != StartOf(c.dirs[dir][i])
  {
    assert EntryOk(c, d2, j, c.dirs[d2][j]) && EntryOk(c, dir, i, c.dirs[dir][i]);
  }

  lemma CreateKeepsOthers(root: Word, c0: Catalog, d0: seq<Block>, c: Catalog, data: seq<Block>,
                          dir: Word, name: seq<Byte>, i: nat, e: Entry)
    requires LinksOk(c0, root) && 0 !in c0.chains && ValidName(name)
    requires dir in c0.dirs && i == FirstUnused(c0.dirs[dir], 0) < |c0.dirs[dir]|
    requires Added(c0, d0, c, data, dir, i, e, c0.dirs[dir][i][0] == 0)
    ensures OthersHold(c0, d0, c, data, dir, name)
  {
    forall d2: Word, j: nat | IsOther(c0, dir, name, d2, j)
      ensures EntryKept(c0, d0, c, data, dir, d2, j)
    {
      assert DirOk(c0.dirs[d2]);
    }
  }

  /** After a write the name still finds the rewritten entry. */
  lemma RewrittenIsFound(es: seq<Entry>, name: seq<Byte>, i: nat, e': Entry)
    requires DirOk(es) && ValidName(name) && Lookup(es, name, 0) == i && e'[..12] == es[i][..12]
    ensures Lookup(es[i := e'], name, 0) == i
    ensures e'[11] == es[i][11]
  {
    LookupFindsKey(es, name, i);
    SameHeadBytes(e', es[i]);
    LiveIsNamed(e');
    SameKeysDirOk(es, i, e');
    LookupFindsEntry(es[i := e'], name, i);
  }

  /** What a write leaves: the file holds the bytes, the others hold theirs. */
  lemma WroteFile(g: Geometry, root: Word, c0: Catalog, d0: seq<Block>, c: Catalog, data: seq<Block>,
                  dir: Word, name: seq<Byte>, i: nat, bytes: seq<Byte>, n: Word)
    requires LinksOk(c0, root) && LinksOk(c, root) && 0 !in c0.chains && 0 !in c.chains
    requires g.Ok() && n == |bytes| && n + g.ClusterBytes() <= TWO32
    requires Rewrote(g, c0, d0, c, data, dir, i, bytes, n) && FileAt(c0, dir, name)
             && i == Lookup(c0.dirs[dir], name, 0)
    ensures FileIn(g, c, data, dir, name, bytes) && OthersHold(c0, d0, c, data, dir, name)
  {
    RewrittenIsFound(c0.dirs[dir], name, i, c.dirs[dir][i]);
    WriteKeepsOthers(g, root, c0, d0, c, data, dir, name, i, bytes, n);
  }

  lemma AllocationFits(n: nat, size: nat)
    requires size > 0 && n + size <= TWO32
    ensures NumBlocks(n, size) * size < TWO32
  {
  }

  /** `fs_write`: the file holds exactly the bytes given; every other file is untouched. */
  method WriteFile(v: Volume, dir: Word, name: seq<Byte>, data: seq<Byte>, nbytes: Word, ghost bs: seq<Block>)
    returns (r: Outcome<bool>)
    requires v.Valid() && FileAt(v.cat, dir, name) && 0 !in name && Snug(v, dir, name)
    requires Cuts(v.geo, data, nbytes, bs) && nbytes <= |data|
    requires |bs| == 0 || |ChainOf(v.cat, FileStart(v.cat, dir, name))|
             <= |bs| <= |ChainOf(v.cat, FileStart(v.cat, dir, name))| + 1
    modifies v, v.fat
    ensures r.Returned? ==> r.value && FileHolds(v, dir, name, data[..nbytes])
    ensures r.Returned? ==> OthersHold(old(v.cat), old(v.Data()), v.cat, v.Data(), dir, name)
    ensures r.Panicked? <==>
                |bs| > old(|ChainOf(v.cat, FileStart(v.cat, dir, name))|) && FirstFree(old(v.fat[..]), 3) == v.geo.n
    ensures r.Panicked? ==> FirstFree(v.fat[..], 3) == v.geo.n
    ensures r.Returned? ==>
              Conserved(old(v.fat[..]), old(|ChainOf(v.cat, FileStart(v.cat, dir, name))|), v.fat[..], |bs|)
  {
    ghost var i := Lookup(v.cat.dirs[dir], name, 0);
    AllocationFits(FileSize(v.cat, dir, name), v.geo.ClusterBytes());
    r := v.Write(dir, name, data, nbytes, nbytes, bs);
    if r.Returned? {
      WroteFile(v.geo, v.geo.root, old(v.cat), old(v.Data()), v.cat, v.Data(), dir, name, i, data[..nbytes], nbytes);
    }
  }

  /**
   * A slot for `name` can be found: the directory has an unused one that is not its very last, and no hidden entry has
   * the name.
   */
  ghost predicate HasRoom(c: Catalog, dir: Word, name: seq<Byte>) {
    && ValidName(name) && dir in c.dirs
    && var es, i := c.dirs[dir], FirstUnused(c.dirs[dir], 0);
       && i < |es| && !(es[i][0] == 0 && i == |es| - 1)
       && forall j :: 0 <= j < |es| && Named(es[j]) ==> Raw(es[j]) != Key(name)
  }

  lemma RoomMeansMissing(c: Catalog, root: Word, dir: Word, name: seq<Byte>)
    requires LinksOk(c, root) && HasRoom(c, dir, name)
    ensures Lookup(c.dirs[dir], name, 0) < 0 && !FileAt(c, dir, name)
  {
    var k := Lookup(c.dirs[dir], name, 0);
    if k >= 0 { LookupFindsKey(c.dirs[dir], name, k); }
  }

  lemma NewFileIsEmpty(g: Geometry, c: Catalog, data: seq<Block>, dir: Word, name: seq<Byte>, i: nat, e: Entry)
    requires 0 !in c.chains && DOT in name && g.Ok() && dir in c.dirs && i < |c.dirs[dir]| && c.dirs[dir][i] == e
    requires IsNewEntry(e, name, false, 0) && Lookup(c.dirs[dir], name, 0) == i && g.ClusterBytes() <= TWO32
    ensures FileIn(g, c, data, dir, name, [])
  {
    NumBlocksBound(0, g.ClusterBytes(), 0);
  }

  lemma CreatedFile(g: Geometry, root: Word, c0: Catalog, d0: seq<Block>, c: Catalog, data: seq<Block>,
                    dir: Word, name: seq<Byte>, i: nat, e: Entry, end: bool)
    requires LinksOk(c0, root) && LinksOk(c, root) && 0 !in c0.chains && 0 !in c.chains && DOT in name
    requires g.Ok() && g.ClusterBytes() <= TWO32 && ValidName(name)
             && dir in c0.dirs && i == FirstUnused(c0.dirs[dir], 0) < |c0.dirs[dir]|
    requires end == (c0.dirs[dir][i][0] == 0) && Added(c0, d0, c, data, dir, i, e, end)
    requires IsNewEntry(e, name, false, 0) && Lookup(c.dirs[dir], name, 0) == i
    ensures FileIn(g, c, data, dir, name, []) && OthersHold(c0, d0, c, data, dir, name)
  {
    CreateKeepsOthers(root, c0, d0, c, data, dir, name, i, e);
    NewFileIsEmpty(g, c, data, dir, name, i, e);
  }

  /** `fs_create` of a file: a new file is empty, a file that exists is left as it is. */
  method CreateFile(v: Volume, dir: Word, name: seq<Byte>) returns (r: Outcome<CreateResult>)
    requires v.Valid() && DOT in name && 0 !in name && v.geo.ClusterBytes() <= TWO32
    requires FileAt(v.cat, dir, name) || HasRoom(v.cat, dir, name)
    modifies v, v.fat
    ensures v.Valid() && r.Returned?
    ensures if old(FileAt(v.cat, dir, name)) then v.cat == old(v.cat) && v.Data() == old(v.Data())
            else FileHolds(v, dir, name, [])
    ensures OthersHold(old(v.cat), old(v.Data()), v.cat, v.Data(), dir, name) && v.fat[..] == old(v.fat[..])
  {
    ghost var es := v.cat.dirs[dir];
    OthersHoldAlready(v.fat[..], v.cat, v.Data(), dir, name);
    if !FileAt(v.cat, dir, name) { RoomMeansMissing(v.cat, v.geo.root, dir, name); }
    r := v.Create(dir, name, false);
    if Lookup(es, name, 0) < 0 {
      ghost var i := FirstUnused(es, 0);
      CreatedFile(v.geo, v.geo.root, old(v.cat), old(v.Data()),
                  v.cat, v.Data(), dir, name, i, r.value.e, es[i][0] == 0);
    }
  }

  /** `fs_read`: exactly the bytes the file holds. */
  method ReadFile(v: Volume, dir: Word, name: seq<Byte>, ghost bytes: seq<Byte>) returns (data: seq<Byte>, nbytes: Word)
    requires FileHolds(v, dir, name, bytes)
    ensures nbytes == |bytes| && bytes <= data && (bytes == [] ==> data == [])
  {
    ghost var es := v.cat.dirs[dir];
    LookupsAgree(es, name);
    LookupFindsKey(es, name, Lookup(es, name, 0));
    AllocationFits(FileSize(v.cat, dir, name), v.geo.ClusterBytes());
    data, nbytes := v.Read(dir, name);
    EmptyContent(v.geo, v.cat, v.Data(), FileStart(v.cat, dir, name), bytes);
  }

  /** An empty file has no clusters. */
  lemma EmptyContent(g: Geometry, c: Catalog, data: seq<Block>, s: Word, bytes: seq<Byte>)
    requires HasContent(g, c, data, s, bytes)
    ensures bytes <= Flat(Blocks(data, ChainOf(c, s))) && (bytes == [] <==> ChainOf(c, s) == [])
    ensures bytes == [] ==> Flat(Blocks(data, ChainOf(c, s))) == []
  {
    NumBlocksBound(|bytes|, g.ClusterBytes(), 0);
    NumBlocksBound(|bytes|, g.ClusterBytes(), NumBlocks(|bytes|, g.ClusterBytes()));
  }

  /** `strlen` of a buffer that starts with the string `s` and its NUL. */
  method StrLen(buf: seq<Byte>, ghost s: seq<Byte>) returns (n: nat)
    requires s + [0] <= buf && 0 !in s
    ensures n == |s|
  {
    n := 0;
    while buf[n] != 0
      invariant n <= |s|
      decreases |s| - n
    {
      assert buf[n] == (s + [0])[n];
      n := n + 1;
    }
  }

  /** Appending at most one cluster of bytes stays inside the useful domain of the write. */
  lemma AppendInDomain(n: nat, len: nat, size: nat)
    requires size > 0 && len <= size
    ensures NumBlocks(n, size) <= NumBlocks(n + len, size) <= NumBlocks(n, size) + 1
  {
    var k := NumBlocks(n, size);
    NumBlocksBound(n, size, k);
    assert (k + 1) * size == k * size + size;
    NumBlocksBound(n + len, size, k + 1);
    NumBlocksBound(n, size, NumBlocks(n + len, size));
    NumBlocksBound(n + len, size, NumBlocks(n + len, size));
  }

  lemma CutBuffer(g: Geometry, buf: seq<Byte>, n: nat) returns (bs: seq<Block>)
    requires g.Ok() && n + g.ClusterBytes() <= TWO32 && n + g.ClusterBytes() <= |buf|
    ensures Cuts(g, buf, n, bs) && |bs| == NumBlocks(n, g.ClusterBytes())
  {
    bs := Chop(buf, g.ClusterBytes(), NumBlocks(n, g.ClusterBytes()));
  }

  /** The number of clusters a file of `n` bytes can have, if it takes all that are free. */
  ghost function Capacity(v: Volume, n: nat): nat
    requires v.geo.Ok()
    reads v, v.fat
  {
    |FreeSet(v.fat[..])| + NumBlocks(n, v.geo.ClusterBytes())
  }

  /** A file that could have `cap` clusters has grown to `n` bytes; or that needs more, and there was a panic. */
  ghost predicate Accounted(v: Volume, n: nat, cap: nat, panicked: bool)
    requires v.geo.Ok()
    reads v, v.fat
  {
    if panicked then NumBlocks(n, v.geo.ClusterBytes()) > cap else Capacity(v, n) == cap
  }

  lemma GrownBlocks(a: nat, b: nat, size: nat)
    requires size > 0 && a <= b
    ensures NumBlocks(a, size) <= NumBlocks(b, size)
  {
    NumBlocksBound(b, size, NumBlocks(b, size));
    NumBlocksBound(a, size, NumBlocks(b, size));
  }

  /**
   `fs_append`: read the file, copy its bytes and the string into a new buffer, and write the buffer
   up to its first NUL.  `behind` is the memory that follows the buffer.
   */
  method Append(v: Volume, dir: Word, name: seq<Byte>, s: seq<Byte>, behind: seq<Byte>, ghost bytes: seq<Byte>)
    returns (r: Outcome<bool>)
    requires FileHolds(v, dir, name, bytes) && 0 !in name && 0 !in bytes && 0 !in s
    requires |s| <= v.geo.ClusterBytes() <= |behind| && |bytes| + |s| + v.geo.ClusterBytes() <= TWO32
    modifies v, v.fat
    ensures r.Returned? ==> r.value && FileHolds(v, dir, name, bytes + s)
    ensures r.Returned? ==> OthersHold(old(v.cat), old(v.Data()), v.cat, v.Data(), dir, name)
    ensures r.Panicked? ==> FirstFree(v.fat[..], 3) == v.geo.n
    ensures Accounted(v, |bytes + s|, old(Capacity(v, |bytes|)), r.Panicked?)
  {
    var file, n := ReadFile(v, dir, name, bytes);
    var buf, len := JoinBuffers(file, n, s, behind, bytes);
    ghost var size := v.geo.ClusterBytes();
    ghost var bs := CutBuffer(v.geo, buf, len);
    ghost var k := |ChainOf(v.cat, FileStart(v.cat, dir, name))|;
    AppendDomain(k, FileSize(v.cat, dir, name), |bytes|, |s|, len, |bs|, size);
    r := WriteFile(v, dir, name, buf, len, bs);
    AppendAccount(old(v.fat[..]), k, v.fat[..], |bs|, r.Panicked?);
  }

  lemma AppendAccount(f: seq<Word>, k: nat, g: seq<Word>, m: nat, panicked: bool)
    requires 3 <= |f| && k <= m <= k + 1 && (panicked <==> m > k && FirstFree(f, 3) == |f|)
    requires !panicked ==> Conserved(f, k, g, m)
    ensures if panicked then m > |FreeSet(f)| + k else |FreeSet(g)| + m == |FreeSet(f)| + k
  {
    SomeFree(f);
  }

  lemma AppendDomain(k: nat, size0: nat, n: nat, len: nat, total: nat, m: nat, size: nat)
    requires size > 0 && len <= size && size0 == n && total == n + len
    requires k == NumBlocks(size0, size) && m == NumBlocks(total, size)
    ensures k <= m <= k + 1 && k == NumBlocks(n, size) && m == NumBlocks(n + len, size)
  {
    AppendInDomain(n, len, size);
  }

  /** The buffer that `fs_append` builds and its `strlen`. */
  method JoinBuffers(file: seq<Byte>, n: Word, s: seq<Byte>, behind: seq<Byte>, ghost bytes: seq<Byte>)
    returns (buf: seq<Byte>, len: nat)
    requires n == |bytes| && n <= |file| && file[..n] == bytes && 0 !in bytes && 0 !in s
    ensures len == |bytes| + |s| && len + |behind| < |buf| && buf[..len] == bytes + s
  {
    buf := if n > 0 then file[..n] + s + [0] + behind else s + [0] + behind;
    assert buf == (bytes + s) + [0] + behind;
    len := StrLen(buf, bytes + s);
  }
}
