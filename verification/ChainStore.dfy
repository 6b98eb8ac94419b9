/**
 What `write_cluster_chain` computes, as functions on the table and the cluster
 contents, and what its result means as a chain: for every old chain length and
 every number of clusters to write, inside the useful domain and outside it.
 */
module ChainStore {
  import opened Machine
  import opened FatTable

  type Block = seq<Byte>

  /** The table and, at the same index, the content of each cluster. */
  datatype Store = Store(fat: seq<Word>, data: seq<Block>) {
    ghost predicate Shaped() {
      |fat| == |data| && 3 <= |fat| && Readable(fat)
    }
  }

  datatype WriteResult = DiskFull | Wrote(start: Word, st: Store)

  ghost predicate Within(ch: seq<Word>, n: nat) {
    forall i :: 0 <= i < |ch| ==> ch[i] < n
  }

  /** The clusters of a chain, in order. */
  ghost function Blocks(data: seq<Block>, ch: seq<Word>): (bs: seq<Block>)
    requires Within(ch, |data|)
    ensures |bs| == |ch|
    ensures forall i :: 0 <= i < |ch| ==> bs[i] == data[ch[i]]
  {
    seq(|ch|, i requires 0 <= i < |ch| => data[ch[i]])
  }

  /** `data` with block `bs[i]` stored in cluster `cs[i]`. */
  ghost function Put(data: seq<Block>, cs: seq<Word>, bs: seq<Block>): (r: seq<Block>)
    requires |cs| == |bs| && Distinct(cs) && Within(cs, |data|)
    ensures |r| == |data|
    ensures forall i :: 0 <= i < |cs| ==> r[cs[i]] == bs[i]
    ensures forall c :: 0 <= c < |data| && c !in cs ==> r[c] == data[c]
  {
    seq(|data|, c requires 0 <= c < |data| =>
      if c in cs then var i :| 0 <= i < |cs| && cs[i] == c; bs[i] else data[c])
  }

  /** Storing one more block behind the others. */
  lemma PutSnoc(data: seq<Block>, cs: seq<Word>, bs: seq<Block>, c: Word, b: Block)
    requires |cs| == |bs| && Within(cs, |data|) && c < |data| && Distinct(cs + [c])
    ensures Distinct(cs) && Put(data, cs + [c], bs + [b]) == Put(data, cs, bs)[c := b]
  {
    var cs', bs' := cs + [c], bs + [b];
    assert forall i :: 0 <= i < |cs| ==> cs[i] == cs'[i];
    assert cs'[|cs|] == c;
    var l, r := Put(data, cs', bs'), Put(data, cs, bs)[c := b];
    forall d | 0 <= d < |data| ensures l[d] == r[d] {
      if d in cs' {
        var i :| 0 <= i < |cs'| && cs'[i] == d;
        assert l[cs'[i]] == bs'[i];
      } else {
        assert d !in cs;
      }
    }
  }

  /** The table after a shortening write that keeps `m` of the clusters of `ch`: the tail is cleared. */
  function Cut(f: seq<Word>, ch: seq<Word>, m: nat): (r: seq<Word>)
    requires m <= |ch|
    ensures |r| == |f|
  {
    seq(|f|, c requires 0 <= c < |f| =>
      if c in ch[m..] then 0 else if 0 < m < |ch| && c == ch[m - 1] then END_MARK else f[c])
  }

  /**
   The growth loop, one block a pass: it links the first free cluster behind `cluster`, stores the
   block there, and writes the end mark only after the last block.
   */
  function Grow(st: Store, start: Word, cluster: Word, blocks: seq<Block>): (r: WriteResult)
    requires |st.fat| == |st.data| && 3 <= |st.fat| <= 0xFFF_FFF0
    requires blocks != [] && (start != 0 ==> cluster < |st.fat|)
    ensures r.Wrote? ==> |r.st.fat| == |r.st.data| == |st.fat|
    decreases |blocks|
  {
    var c := FirstFree(st.fat, 3);
    if c == |st.fat| then DiskFull
    else
      var fat1 := if start == 0 then st.fat else st.fat[cluster := c];
      var start1 := if start == 0 then c else start;
      var data1 := st.data[c := blocks[0]];
      if |blocks| == 1 then Wrote(start1, Store(fat1[c := END_MARK], data1))
      else Grow(Store(fat1, data1), start1, c, blocks[1..])
  }

  /** Number of new clusters the growth loop really takes for `n` blocks: each is taken on two passes. */
  function Taken(n: nat): nat {
    (n + 1) / 2
  }

  /** Of `n` blocks, the one left in the `i`-th new cluster. */
  function Survivor(n: nat, i: nat): nat
    requires i < Taken(n)
  {
    if 2 * i + 1 < n then 2 * i + 1 else n - 1
  }

  /** The growth loop linked exactly the fresh clusters `ns` behind `cluster`. */
  ghost predicate GrewFat(f: seq<Word>, start: Word, cluster: Word, g: seq<Word>, ns: seq<Word>) {
    && |g| == |f|
    && ns != [] && Distinct(ns)
    && (forall i :: 0 <= i < |ns| ==> ns[i] in FreeSet(f))
    && IsChain(g, ns[0], ns)
    && (start != 0 ==> cluster < |f| && cluster !in ns && g[cluster] == ns[0])
    && forall c :: 0 <= c < |f| && c !in ns && (start == 0 || c != cluster) ==> g[c] == f[c]
  }

  /** Each of the fresh clusters holds the last block stored in it, and no other cluster changed. */
  ghost predicate GrewData(data: seq<Block>, blocks: seq<Block>, data': seq<Block>, ns: seq<Word>) {
    && |data'| == |data| && Within(ns, |data|)
    && |ns| == Taken(|blocks|)
    && (forall i :: 0 <= i < |ns| ==> data'[ns[i]] == blocks[Survivor(|blocks|, i)])
    && forall c :: 0 <= c < |data| && c !in ns ==> data'[c] == data[c]
  }

  ghost predicate Grew(st: Store, start: Word, cluster: Word, blocks: seq<Block>, r: WriteResult, ns: seq<Word>) {
    && r.Wrote?
    && GrewFat(st.fat, start, cluster, r.st.fat, ns)
    && GrewData(st.data, blocks, r.st.data, ns)
    && r.start == (if start == 0 then ns[0] else start)
  }

  lemma FirstFreeIs(f: seq<Word>, c: nat)
    requires 3 <= c < |f| && IsFree(f[c])
    requires forall d :: 3 <= d < c ==> !IsFree(f[d])
    ensures FirstFree(f, 3) == c
  {
  }

  lemma SomeFree(f: seq<Word>)
    requires 3 <= |f|
    ensures FirstFree(f, 3) < |f| <==> FreeSet(f) != {}
  {
    if FirstFree(f, 3) < |f| {
      assert FirstFree(f, 3) in FreeSet(f);
    }
  }

  /** The state after two passes of the growth loop: the same cluster is found twice. */
  function TwoPasses(st: Store, start: Word, cluster: Word, blocks: seq<Block>): Store
    requires |st.fat| == |st.data| && 3 <= |st.fat| <= 0xFFF_FFF0
    requires FirstFree(st.fat, 3) < |st.fat|
    requires |blocks| >= 2 && (start != 0 ==> cluster < |st.fat|)
  {
    var c := FirstFree(st.fat, 3);
    var fat1 := if start == 0 then st.fat else st.fat[cluster := c];
    Store(fat1[c := c], st.data[c := blocks[1]])
  }

  lemma GrowTwice(st: Store, start: Word, cluster: Word, blocks: seq<Block>)
    requires st.Shaped() && |blocks| >= 2 && FirstFree(st.fat, 3) < |st.fat|
    requires start != 0 ==> cluster < |st.fat| && !IsFree(st.fat[cluster])
    ensures var c := FirstFree(st.fat, 3);
            var start1 := if start == 0 then c else start;
            var st2 := TwoPasses(st, start, cluster, blocks);
            && st2.Shaped() && FreeSet(st2.fat) == FreeSet(st.fat) - {c} && c in FreeSet(st.fat)
            && Grow(st, start, cluster, blocks) ==
               if |blocks| == 2 then Wrote(start1, Store(st2.fat[c := END_MARK], st2.data))
               else Grow(st2, start1, c, blocks[2..])
  {
    var c := FirstFree(st.fat, 3);
    var fat1 := if start == 0 then st.fat else st.fat[cluster := c];
    FirstFreeIs(fat1, c);
    assert blocks[1..][1..] == blocks[2..];
    assert st.data[c := blocks[0]][c := blocks[1]] == st.data[c := blocks[1]];
  }

  /** What the growth loop does, for every number of blocks that fits. */
  lemma {:induction false} GrowMeaning(st: Store, start: Word, cluster: Word, blocks: seq<Block>)
    returns (ns: seq<Word>)
    requires st.Shaped() && blocks != []
    requires start != 0 ==> cluster < |st.fat| && !IsFree(st.fat[cluster])
    requires |FreeSet(st.fat)| >= Taken(|blocks|)
    ensures Grew(st, start, cluster, blocks, Grow(st, start, cluster, blocks), ns)
    decreases |blocks|
  {
    SomeFree(st.fat);
    var c: Word := FirstFree(st.fat, 3);
    if |blocks| == 1 {
      ns := [c];
      GrewFatOne(st.fat, start, cluster, c);
      GrewDataOne(st.data, blocks, c);
    } else {
      GrowTwice(st, start, cluster, blocks);
      if |blocks| == 2 {
        ns := [c];
        GrewFatOne(st.fat, start, cluster, c);
        GrewDataOne(st.data, blocks, c);
        var fat1: seq<Word> := if start == 0 then st.fat else st.fat[cluster := c];
        assert fat1[c := c][c := END_MARK] == fat1[c := END_MARK];
      } else {
        var st2 := TwoPasses(st, start, cluster, blocks);
        var rest := GrowMeaning(st2, if start == 0 then c else start, c, blocks[2..]);
        ns := [c] + rest;
        GrewCons(st, start, cluster, blocks, rest);
      }
    }
  }

  lemma GrewCons(st: Store, start: Word, cluster: Word, blocks: seq<Block>, rest: seq<Word>)
    requires st.Shaped() && |blocks| > 2 && FirstFree(st.fat, 3) < |st.fat|
    requires start != 0 ==> cluster < |st.fat| && !IsFree(st.fat[cluster])
    requires var c := FirstFree(st.fat, 3);
             Grew(TwoPasses(st, start, cluster, blocks), if start == 0 then c else start, c, blocks[2..],
                  Grow(st, start, cluster, blocks), rest)
    ensures Grew(st, start, cluster, blocks, Grow(st, start, cluster, blocks), [FirstFree(st.fat, 3)] + rest)
  {
    var c := FirstFree(st.fat, 3);
    var st2 := TwoPasses(st, start, cluster, blocks);
    var r := Grow(st, start, cluster, blocks);
    var fat1 := if start == 0 then st.fat else st.fat[cluster := c];
    GrewFatCons(st.fat, start, cluster, c, fat1[c := c], r.st.fat, rest);
    GrewDataCons(st.data, blocks, c, r.st.data, rest);
  }

  lemma GrewFatOne(f: seq<Word>, start: Word, cluster: Word, c: Word)
    requires 3 <= c < |f| && IsFree(f[c])
    requires start != 0 ==> cluster < |f| && !IsFree(f[cluster])
    ensures GrewFat(f, start, cluster, (if start == 0 then f else f[cluster := c])[c := END_MARK], [c])
  {
    var g := (if start == 0 then f else f[cluster := c])[c := END_MARK];
    assert LinkOk(g, [c], 0);
  }

  lemma GrewDataOne(data: seq<Block>, blocks: seq<Block>, c: Word)
    requires c < |data| && 1 <= |blocks| <= 2
    ensures GrewData(data, blocks, data[c := blocks[|blocks| - 1]], [c])
  {
    assert Survivor(|blocks|, 0) == |blocks| - 1;
  }

  lemma GrewFatCons(f: seq<Word>, start: Word, cluster: Word, c: Word, f2: seq<Word>, g: seq<Word>, rest: seq<Word>)
    requires 3 <= c < |f| <= 0xFFF_FFF0 && IsFree(f[c])
    requires start != 0 ==> cluster < |f| && !IsFree(f[cluster])
    requires f2 == (if start == 0 then f else f[cluster := c])[c := c]
    requires GrewFat(f2, c, c, g, rest)
    ensures GrewFat(f, start, cluster, g, [c] + rest)
  {
    var ns := [c] + rest;
    assert forall i :: 1 <= i < |ns| ==> ns[i] == rest[i - 1];
    assert forall d :: d in ns <==> d == c || d in rest;
    assert forall i :: 0 <= i < |rest| ==> rest[i] in FreeSet(f2) && rest[i] != c;
    assert forall i :: 0 <= i < |rest| ==> rest[i] in FreeSet(f) && (start == 0 || rest[i] != cluster);
    ChainCons(g, c, rest);
  }

  lemma GrewDataCons(data: seq<Block>, blocks: seq<Block>, c: Word, data': seq<Block>, rest: seq<Word>)
    requires c < |data| && c !in rest && |blocks| > 2
    requires GrewData(data[c := blocks[1]], blocks[2..], data', rest)
    ensures GrewData(data, blocks, data', [c] + rest)
  {
    var ns := [c] + rest;
    assert forall d :: d in ns <==> d == c || d in rest;
    forall i | 0 <= i < |ns| ensures data'[ns[i]] == blocks[Survivor(|blocks|, i)] {
      if i > 0 {
        assert ns[i] == rest[i - 1];
      }
    }
  }

  lemma ChainCons(f: seq<Word>, c: Word, rest: seq<Word>)
    requires rest != [] && IsChain(f, rest[0], rest) && 3 <= c < |f| <= 0xFFF_FFF0 && f[c] == rest[0]
    ensures IsChain(f, c, [c] + rest)
  {
    var ch := [c] + rest;
    forall i | 0 <= i < |ch| ensures LinkOk(f, ch, i) {
      assert LinkOk(f, rest, 0);
      if i > 0 {
        assert LinkOk(f, rest, i - 1);
      }
    }
  }

  /** The growth loop runs out of clusters exactly when fewer are free than it takes. */
  lemma {:induction false} GrowFull(st: Store, start: Word, cluster: Word, blocks: seq<Block>)
    requires st.Shaped() && blocks != []
    requires start != 0 ==> cluster < |st.fat| && !IsFree(st.fat[cluster])
    requires |FreeSet(st.fat)| < Taken(|blocks|)
    ensures Grow(st, start, cluster, blocks).DiskFull?
    decreases |blocks|
  {
    SomeFree(st.fat);
    var c := FirstFree(st.fat, 3);
    if c < |st.fat| {
      assert |FreeSet(st.fat)| > 0;
      GrowTwice(st, start, cluster, blocks);
      GrowFull(TwoPasses(st, start, cluster, blocks), if start == 0 then c else start, c, blocks[2..]);
    }
  }

  // ------------------------------------------------------ the whole write

  /**
   `write_cluster_chain` on the chain `ch` with `blocks` cut from the buffer, one block a cluster.
   A non-empty buffer that needs fewer clusters than the chain has returns start cluster 0.
   */
  ghost function WriteChain(st: Store, start: Word, ch: seq<Word>, blocks: seq<Block>): WriteResult
    requires st.Shaped() && IsChain(st.fat, start, ch) && Within(ch, |st.data|) && Distinct(ch)
  {
    var k, m := |ch|, |blocks|;
    if m < k then Wrote(0, Store(Cut(st.fat, ch, m), Put(st.data, ch[..m], blocks)))
    else
      var st1 := Store(st.fat, Put(st.data, ch, blocks[..k]));
      if m == k then Wrote(start, st1)
      else Grow(st1, start, Tail(ch), blocks[k..])
  }

  /** The cluster behind which a chain grows; irrelevant for the empty chain. */
  function Tail(ch: seq<Word>): Word {
    if ch == [] then 0 else ch[|ch| - 1]
  }

  /** Enough free clusters for the growth loop. */
  ghost predicate Fits(st: Store, ch: seq<Word>, blocks: seq<Block>) {
    |blocks| <= |ch| || |FreeSet(st.fat)| >= Taken(|blocks| - |ch|)
  }

  lemma ChainWithin(f: seq<Word>, start: Word, ch: seq<Word>)
    requires IsChain(f, start, ch)
    ensures Within(ch, |f|)
  {
    forall i | 0 <= i < |ch| ensures ch[i] < |f| {
      assert LinkOk(f, ch, i);
    }
  }

  lemma ChainAppend(f: seq<Word>, start: Word, ch: seq<Word>, g: seq<Word>, ns: seq<Word>)
    requires ch != [] && IsChain(f, start, ch) && |f| <= 0xFFF_FFF0
    requires GrewFat(f, start, Tail(ch), g, ns)
    ensures IsChain(g, start, ch + ns)
  {
    var all, k := ch + ns, |ch|;
    ChainIsAcyclic(f, start, ch);
    forall i | 0 <= i < |all| ensures LinkOk(g, all, i) {
      if i < k {
        assert LinkOk(f, ch, i) && all[i] == ch[i];
        assert ch[i] !in ns;
        if i < k - 1 {
          assert all[i + 1] == ch[i + 1];
        } else {
          assert ns[0] in FreeSet(f);
          assert all[i + 1] == ns[0];
        }
      } else {
        assert LinkOk(g, ns, i - k);
        assert all[i] == ns[i - k];
        if i < |all| - 1 {
          assert all[i + 1] == ns[i + 1 - k];
        }
      }
    }
  }

  /** A growing write extends the chain by the clusters the growth loop takes, and keeps the old ones. */
  lemma WriteChainGrows(st: Store, start: Word, ch: seq<Word>, blocks: seq<Block>) returns (ns: seq<Word>)
    requires st.Shaped() && IsChain(st.fat, start, ch) && Within(ch, |st.data|) && Distinct(ch)
    requires |ch| < |blocks| && Fits(st, ch, blocks)
    ensures var r := WriteChain(st, start, ch, blocks);
            && r.Wrote? && IsChain(r.st.fat, r.start, ch + ns)
            && GrewFat(st.fat, start, Tail(ch), r.st.fat, ns)
            && GrewData(Put(st.data, ch, blocks[..|ch|]), blocks[|ch|..], r.st.data, ns)
  {
    var st1 := Store(st.fat, Put(st.data, ch, blocks[..|ch|]));
    TailIsAllocated(st.fat, start, ch);
    ns := GrowMeaning(st1, start, Tail(ch), blocks[|ch|..]);
    if ch == [] {
      assert ch + ns == ns;
    } else {
      ChainAppend(st.fat, start, ch, WriteChain(st, start, ch, blocks).st.fat, ns);
    }
  }

  lemma TailIsAllocated(f: seq<Word>, start: Word, ch: seq<Word>)
    requires IsChain(f, start, ch)
    ensures start != 0 ==> Tail(ch) < |f| && !IsFree(f[Tail(ch)])
  {
    if ch != [] {
      assert LinkOk(f, ch, |ch| - 1);
    }
  }

  /** The write is out of clusters exactly when it does not fit. */
  lemma WriteChainFullIff(st: Store, start: Word, ch: seq<Word>, blocks: seq<Block>)
    requires st.Shaped() && IsChain(st.fat, start, ch) && Within(ch, |st.data|) && Distinct(ch)
    ensures WriteChain(st, start, ch, blocks).DiskFull? <==> !Fits(st, ch, blocks)
  {
    var k := |ch|;
    if |blocks| > k {
      if Fits(st, ch, blocks) {
        var ns := WriteChainGrows(st, start, ch, blocks);
      } else {
        TailIsAllocated(st.fat, start, ch);
        GrowFull(Store(st.fat, Put(st.data, ch, blocks[..k])), start, Tail(ch), blocks[k..]);
      }
    }
  }

  /**
   `write_cluster_chain` leaves a chain with one cluster for each block if and only if there is
   nothing to write, or the chain keeps its length, or it grows by one cluster.
   */
  lemma WriteHasRightLengthIff(st: Store, start: Word, ch: seq<Word>, blocks: seq<Block>)
    requires st.Shaped() && IsChain(st.fat, start, ch) && Within(ch, |st.data|) && Distinct(ch) && Fits(st, ch, blocks)
    ensures var r := WriteChain(st, start, ch, blocks);
            r.Wrote? &&
            ((exists ch' :: IsChain(r.st.fat, r.start, ch') && |ch'| == |blocks|)
             <==> (|blocks| == 0 || |ch| <= |blocks| <= |ch| + 1))
  {
    var r := WriteChain(st, start, ch, blocks);
    WriteChainFullIff(st, start, ch, blocks);
    if |blocks| < |ch| {
      assert IsChain(r.st.fat, 0, []);
    } else if |blocks| == |ch| {
      assert IsChain(r.st.fat, r.start, ch);
    } else {
      var ns := WriteChainGrows(st, start, ch, blocks);
      assert IsChain(r.st.fat, r.start, ch + ns);
      forall ch' | IsChain(r.st.fat, r.start, ch') ensures ch' == ch + ns {
        ChainIsUnique(r.st.fat, r.start, ch', ch + ns);
      }
    }
  }

  lemma CutChain(f: seq<Word>, start: Word, ch: seq<Word>, m: nat)
    requires IsChain(f, start, ch) && 0 < m < |ch|
    ensures IsChain(Cut(f, ch, m), start, ch[..m])
  {
    var g, kept := Cut(f, ch, m), ch[..m];
    ChainIsAcyclic(f, start, ch);
    forall i | 0 <= i < m ensures LinkOk(g, kept, i) {
      assert LinkOk(f, ch, i);
      assert kept[i] == ch[i] && ch[i] !in ch[m..];
      if i < m - 1 {
        assert g[ch[i]] == f[ch[i]];
        assert kept[i + 1] == ch[i + 1];
      } else {
        assert g[ch[i]] == END_MARK;
      }
    }
  }

  /** A shortening write loses the file: start cluster 0 comes back while the kept prefix stays allocated. */
  lemma ShrinkingWriteLeaks(st: Store, start: Word, ch: seq<Word>, blocks: seq<Block>)
    requires st.Shaped() && IsChain(st.fat, start, ch) && Within(ch, |st.data|) && Distinct(ch)
    requires 0 < |blocks| < |ch|
    ensures var r := WriteChain(st, start, ch, blocks);
            && r.Wrote? && r.start == 0
            && IsChain(r.st.fat, start, ch[..|blocks|])
            && Blocks(r.st.data, ch[..|blocks|]) == blocks
            && forall c :: |blocks| <= c < |ch| ==> r.st.fat[ch[c]] == 0
  {
    var m := |blocks|;
    CutChain(st.fat, start, ch, m);
    assert forall c :: m <= c < |ch| ==> ch[c] == ch[m..][c - m];
  }

  /** The table after a write inside the useful domain: `ch'` replaces `ch` and nothing else changes. */
  ghost predicate Rechained(f: seq<Word>, ch: seq<Word>, g: seq<Word>, start': Word, ch': seq<Word>) {
    && |g| == |f| && Readable(g)
    && IsChain(g, start', ch')
    && (ch <= ch' || ch' == [])
    && (forall i :: 0 <= i < |ch'| ==> ch'[i] in ch || ch'[i] in FreeSet(f))
    && (forall c :: 0 <= c < |f| && c in ch && c !in ch' ==> g[c] == 0)
    && (forall c :: 0 <= c < |f| && c !in ch && c !in ch' ==> g[c] == f[c])
  }

  /** The cluster contents after such a write: `blocks` along `ch'`, every other cluster as before. */
  ghost predicate Stored(data: seq<Block>, ch': seq<Word>, blocks: seq<Block>, data': seq<Block>) {
    && |data'| == |data| && Within(ch', |data|)
    && Blocks(data', ch') == blocks
    && forall c :: 0 <= c < |data| && c !in ch' ==> data'[c] == data[c]
  }

  /** Inside the useful domain the blocks are stored in order along the returned chain. */
  lemma WriteChainStores(st: Store, start: Word, ch: seq<Word>, blocks: seq<Block>) returns (ch': seq<Word>)
    requires st.Shaped() && IsChain(st.fat, start, ch) && Within(ch, |st.data|) && Distinct(ch) && Fits(st, ch, blocks)
    requires |blocks| == 0 || |ch| <= |blocks| <= |ch| + 1
    ensures var r := WriteChain(st, start, ch, blocks);
            && r.Wrote?
            && Rechained(st.fat, ch, r.st.fat, r.start, ch')
            && Stored(st.data, ch', blocks, r.st.data)
  {
    var r := WriteChain(st, start, ch, blocks);
    if |blocks| == 0 {
      ch' := [];
      assert ch[0..] == ch;
    } else if |blocks| == |ch| {
      ch' := ch;
      assert blocks[..|ch|] == blocks;
    } else {
      var ns := WriteChainGrows(st, start, ch, blocks);
      ch' := ch + ns;
      GrowthRechains(st.fat, start, ch, r.st.fat, r.start, ns);
      GrowthStores(st.data, ch, blocks, r.st.data, ns);
    }
  }

  lemma GrowthRechains(f: seq<Word>, start: Word, ch: seq<Word>, g: seq<Word>, start': Word, ns: seq<Word>)
    requires Readable(f) && IsChain(f, start, ch) && IsChain(g, start', ch + ns)
    requires GrewFat(f, start, Tail(ch), g, ns)
    ensures Rechained(f, ch, g, start', ch + ns)
    ensures forall i :: 0 <= i < |ch| ==> ch[i] !in ns
  {
    var ch' := ch + ns;
    assert forall c :: c in ch' <==> c in ch || c in ns;
    forall c | 0 <= c < |f| ensures !EntryTypeOf(g[c]).Panics? {
      if c in ch' {
        var i :| 0 <= i < |ch'| && ch'[i] == c;
        assert LinkOk(g, ch', i);
      }
    }
    forall i | 0 <= i < |ch| ensures ch[i] !in ns {
      assert LinkOk(f, ch, i);
    }
  }

  lemma GrowthStores(data: seq<Block>, ch: seq<Word>, blocks: seq<Block>, data': seq<Block>, ns: seq<Word>)
    requires Distinct(ch) && Within(ch, |data|) && |blocks| == |ch| + 1
    requires forall i :: 0 <= i < |ch| ==> ch[i] !in ns
    requires GrewData(Put(data, ch, blocks[..|ch|]), blocks[|ch|..], data', ns)
    ensures Stored(data, ch + ns, blocks, data')
  {
    var c := ns[0];
    assert ns == [c];
    assert data'[c] == blocks[|ch|..][0] == blocks[|ch|];
    assert data' == Put(data, ch, blocks[..|ch|])[c := blocks[|ch|]];
    forall i | 0 <= i < |ch| ensures ch[i] != c {
      assert ch[i] !in ns;
    }
    OneMoreStored(data, ch, blocks, data', c);
  }

  lemma OneMoreStored(data: seq<Block>, ch: seq<Word>, blocks: seq<Block>, data': seq<Block>, c: Word)
    requires Distinct(ch) && Within(ch, |data|) && |blocks| == |ch| + 1 && c < |data|
    requires forall i :: 0 <= i < |ch| ==> ch[i] != c
    requires data' == Put(data, ch, blocks[..|ch|])[c := blocks[|ch|]]
    ensures Stored(data, ch + [c], blocks, data')
  {
    var all, k := ch + [c], |ch|;
    assert Distinct(all);
    PutSnoc(data, ch, blocks[..k], c, blocks[k]);
    assert blocks == blocks[..k] + [blocks[k]];
  }

  /** A file goes from `k` to `m` clusters and the others are free as before; growth takes those the search finds. */
  ghost predicate Conserved(f: seq<Word>, k: nat, g: seq<Word>, m: nat) {
    && |FreeClusters(g)| + m == |FreeClusters(f)| + k
    && (k <= m ==> |FreeSet(g)| + m == |FreeSet(f)| + k)
  }

  /** Conservation: free clusters plus clusters of the file are the same before and after. */
  lemma WriteConservesClusters(f: seq<Word>, start: Word, ch: seq<Word>, g: seq<Word>, start': Word, ch': seq<Word>)
    requires IsChain(f, start, ch) && Rechained(f, ch, g, start', ch')
    ensures Conserved(f, |ch|, g, |ch'|)
  {
    if |ch| <= |ch'| { GrowthConserves(f, start, ch, g, start', ch'); }
    ChainIsAcyclic(f, start, ch);
    ChainIsAcyclic(g, start', ch');
    DistinctSize(ch);
    DistinctSize(ch');
    forall c | c in ch ensures 2 <= c < |f| && !IsFree(f[c]) {
      ChainIsAllocated(f, start, ch, c);
    }
    forall c | c in ch' ensures 2 <= c < |f| && !IsFree(g[c]) && (c in ch || c in FreeClusters(f)) {
      ChainIsAllocated(g, start', ch', c);
    }
    FreeClustersAfter(f, ch, g, ch');
  }

  lemma GrowthConserves(f: seq<Word>, start: Word, ch: seq<Word>, g: seq<Word>, start': Word, ch': seq<Word>)
    requires IsChain(f, start, ch) && Rechained(f, ch, g, start', ch') && |ch| <= |ch'|
    ensures |FreeSet(g)| + |ch'| == |FreeSet(f)| + |ch|
  {
    ChainIsAcyclic(f, start, ch);
    ChainIsAcyclic(g, start', ch');
    DistinctSize(ch);
    DistinctSize(ch');
    forall c | c in ch ensures 0 <= c < |f| && c in ch' && !IsFree(f[c]) {
      var i :| 0 <= i < |ch| && ch[i] == c;
      assert ch'[i] == c;
      ChainIsAllocated(f, start, ch, c);
    }
    forall c | c in ch' ensures 0 <= c < |f| && !IsFree(g[c]) && (c in ch || c in FreeSet(f)) {
      ChainIsAllocated(g, start', ch', c);
    }
    FreeSetAfter(f, ch, g, ch');
  }

  lemma FreeSetAfter(f: seq<Word>, ch: seq<Word>, g: seq<Word>, ch': seq<Word>)
    requires |g| == |f|
    requires forall c :: c in ch ==> 0 <= c < |f| && c in ch' && !IsFree(f[c])
    requires forall c :: c in ch' ==> 0 <= c < |f| && !IsFree(g[c]) && (c in ch || c in FreeSet(f))
    requires forall c :: 0 <= c < |f| && c !in ch && c !in ch' ==> g[c] == f[c]
    ensures |FreeSet(g)| + |Elements(ch')| == |FreeSet(f)| + |Elements(ch)|
  {
    assert FreeSet(g) + Elements(ch') == FreeSet(f) + Elements(ch);
    assert FreeSet(g) !! Elements(ch');
    assert FreeSet(f) !! Elements(ch);
  }

  lemma FreeClustersAfter(f: seq<Word>, ch: seq<Word>, g: seq<Word>, ch': seq<Word>)
    requires |g| == |f|
    requires forall c :: c in ch ==> 2 <= c < |f| && !IsFree(f[c])
    requires forall c :: c in ch' ==> 2 <= c < |f| && !IsFree(g[c]) && (c in ch || c in FreeClusters(f))
    requires forall c :: 0 <= c < |f| && c in ch && c !in ch' ==> g[c] == 0
    requires forall c :: 0 <= c < |f| && c !in ch && c !in ch' ==> g[c] == f[c]
    ensures |FreeClusters(g)| + |Elements(ch')| == |FreeClusters(f)| + |Elements(ch)|
  {
    assert FreeClusters(g) + Elements(ch') == FreeClusters(f) + Elements(ch);
    assert FreeClusters(g) !! Elements(ch');
    assert FreeClusters(f) !! Elements(ch);
  }
}
