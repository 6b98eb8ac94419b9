/**
 The in-memory File Allocation Table: entry classification, cluster chains as
 sequences, and first-free search.  Entry values follow the section "FAT Data
 Structure" of Microsoft's FAT specification, version 1.03.
 */
module FatTable {
  import opened Machine

  datatype EntryType = FreeCluster | ReservedCluster | BadCluster | UsedCluster | LastCluster | Panics

  /** The end mark that the driver writes. */
  const END_MARK: Word := 0xFFFF_FFFF

  /** Classifies an entry by its low 28 bits; `Panics` stands for the call to panic on a reserved value. */
  function EntryTypeOf(x: Word): EntryType {
    var y := x % 0x1000_0000;
    if y == 0 then FreeCluster
    else if y == 1 then ReservedCluster
    else if y == 0xFFF_FFF7 then BadCluster
    else if y <= 0xFFF_FFEF then UsedCluster
    else if y <= 0xFFF_FFF6 then Panics
    else LastCluster
  }

  predicate IsFree(x: Word) { EntryTypeOf(x) == FreeCluster }
  predicate IsLast(x: Word) { EntryTypeOf(x) == LastCluster }
  predicate IsUsed(x: Word) { EntryTypeOf(x) == UsedCluster }

  /** The classes by value: the driver's end mark has all bits set, and the upper four bits of an entry are ignored. */
  lemma EntryTypes(x: Word)
    ensures IsFree(x) <==> x % 0x1000_0000 == 0
    ensures IsUsed(x) <==> 2 <= x % 0x1000_0000 <= 0xFFF_FFEF
    ensures IsLast(x) <==> x % 0x1000_0000 >= 0xFFF_FFF8
    ensures EntryTypeOf(x) == ReservedCluster <==> x % 0x1000_0000 == 1
    ensures EntryTypeOf(x) == BadCluster <==> x % 0x1000_0000 == 0xFFF_FFF7
    ensures EntryTypeOf(x) == Panics <==> 0xFFF_FFF0 <= x % 0x1000_0000 <= 0xFFF_FFF6
    ensures END_MARK == 0xFFFF_FFFF && IsLast(END_MARK)
  {
    assert 0xFFFF_FFFF % 0x1000_0000 == 0xFFF_FFFF;
  }

  /** A table is readable when no entry makes the classification panic and cluster numbers fit in 28 bits. */
  ghost predicate Readable(f: seq<Word>) {
    && |f| <= 0xFFF_FFF0
    && forall c :: 0 <= c < |f| ==> !EntryTypeOf(f[c]).Panics?
  }

  // ------------------------------------------------------------------ chains

  /** Cluster `ch[i]` points at `ch[i + 1]`, and the final one carries an end mark. */
  ghost predicate LinkOk(f: seq<Word>, ch: seq<Word>, i: nat)
    requires i < |ch|
  {
    && 2 <= ch[i] < |f|
    && if i == |ch| - 1 then IsLast(f[ch[i]]) else IsUsed(f[ch[i]]) && f[ch[i]] == ch[i + 1]
  }

  /** `ch` lists, in order, the clusters reached from `start`; start cluster 0 is the empty file. */
  ghost predicate IsChain(f: seq<Word>, start: Word, ch: seq<Word>) {
    && (start == 0 <==> ch == [])
    && (ch != [] ==> ch[0] == start)
    && forall i :: 0 <= i < |ch| ==> LinkOk(f, ch, i)
  }

  ghost predicate Distinct(s: seq<Word>) {
    forall i, j :: 0 <= i < j < |s| ==> s[i] != s[j]
  }

  /** Two positions of a chain that hold the same cluster would stay equal up to the end mark. */
  lemma {:induction false} EqualPositionsAdvance(f: seq<Word>, start: Word, ch: seq<Word>, i: nat, j: nat, n: nat)
    requires IsChain(f, start, ch) && i < j && j + n < |ch| && ch[i] == ch[j]
    ensures ch[i + n] == ch[j + n]
  {
    if n > 0 {
      EqualPositionsAdvance(f, start, ch, i, j, n - 1);
      assert LinkOk(f, ch, i + n - 1) && LinkOk(f, ch, j + n - 1);
    }
  }

  /** A chain never visits a cluster twice: acyclicity is a consequence of ending in an end mark. */
  lemma ChainIsAcyclic(f: seq<Word>, start: Word, ch: seq<Word>)
    requires IsChain(f, start, ch)
    ensures Distinct(ch)
  {
    forall i, j | 0 <= i < j < |ch| ensures ch[i] != ch[j] {
      var n := |ch| - 1 - j;
      assert LinkOk(f, ch, i + n) && LinkOk(f, ch, j + n);
      if ch[i] == ch[j] {
        EqualPositionsAdvance(f, start, ch, i, j, n);
      }
    }
  }

  /** The start cluster determines the chain. */
  lemma ChainIsUnique(f: seq<Word>, start: Word, a: seq<Word>, b: seq<Word>)
    requires IsChain(f, start, a) && IsChain(f, start, b)
    ensures a == b
  {
    if a != [] {
      var n := if |a| <= |b| then |a| else |b|;
      PrefixAgrees(f, start, a, b, n);
      assert LinkOk(f, a, n - 1) && LinkOk(f, b, n - 1);
    }
  }

  lemma {:induction false} PrefixAgrees(f: seq<Word>, start: Word, a: seq<Word>, b: seq<Word>, n: nat)
    requires IsChain(f, start, a) && IsChain(f, start, b) && n <= |a| && n <= |b|
    ensures a[..n] == b[..n]
  {
    if n > 1 {
      PrefixAgrees(f, start, a, b, n - 1);
      assert a[n - 2] == a[..n - 1][n - 2] == b[..n - 1][n - 2] == b[n - 2];
      assert LinkOk(f, a, n - 2) && LinkOk(f, b, n - 2);
    }
  }

  /** Pigeonhole: a chain has at most as many clusters as the table has data entries. */
  lemma ChainIsShort(f: seq<Word>, start: Word, ch: seq<Word>)
    requires IsChain(f, start, ch)
    ensures ch == [] || |ch| <= |f| - 2
  {
    if ch != [] {
      ChainIsAcyclic(f, start, ch);
      assert LinkOk(f, ch, 0);
      forall c | c in ch ensures 2 <= c < |f| {
        ChainIsAllocated(f, start, ch, c);
      }
      DistinctSize(ch);
      SubsetSize(Elements(ch), Range(2, |f|));
    }
  }

  /** The integers from `lo` up to but excluding `hi`. */
  ghost function Range(lo: int, hi: int): (s: set<int>)
    requires lo <= hi
    ensures forall c :: c in s <==> lo <= c < hi
    ensures |s| == hi - lo
    decreases hi - lo
  {
    if lo == hi then {} else Range(lo, hi - 1) + {hi - 1}
  }

  ghost function Elements(s: seq<Word>): set<int> {
    set c: Word | c in s
  }

  lemma {:induction false} DistinctSize(s: seq<Word>)
    requires Distinct(s)
    ensures |Elements(s)| == |s|
  {
    if s != [] {
      var n := |s| - 1;
      DistinctSize(s[..n]);
      assert s == s[..n] + [s[n]];
      assert Elements(s) == Elements(s[..n]) + {s[n]};
    }
  }

  lemma {:induction false} SubsetSize<T>(a: set<T>, b: set<T>)
    requires a <= b
    ensures |a| <= |b|
  {
    if a != {} {
      var x :| x in a;
      SubsetSize(a - {x}, b - {x});
    }
  }

  /** A chain only depends on the entries of its own clusters. */
  lemma ChainFrame(f: seq<Word>, g: seq<Word>, start: Word, ch: seq<Word>)
    requires IsChain(f, start, ch) && |g| == |f|
    requires forall c :: c in ch && c < |f| ==> g[c] == f[c]
    ensures IsChain(g, start, ch)
  {
    forall i | 0 <= i < |ch| ensures LinkOk(g, ch, i) {
      assert LinkOk(f, ch, i);
      assert ch[i] in ch;
    }
  }

  /** No cluster of a chain is free. */
  lemma ChainIsAllocated(f: seq<Word>, start: Word, ch: seq<Word>, c: Word)
    requires IsChain(f, start, ch) && c in ch
    ensures 2 <= c < |f| && !IsFree(f[c])
  {
    var i :| 0 <= i < |ch| && ch[i] == c;
    assert LinkOk(f, ch, i);
  }

  // -------------------------------------------------------- free clusters

  /** Free clusters that the first-free search can return (it starts at cluster 3). */
  ghost function FreeSet(f: seq<Word>): set<int> {
    set c: int | 3 <= c < |f| && IsFree(f[c])
  }

  /** All free clusters; cluster 2 may be free without ever being found. */
  ghost function FreeClusters(f: seq<Word>): set<int> {
    set c: int | 2 <= c < |f| && IsFree(f[c])
  }

  /** Least free cluster at or after `from`, or `|f|` when there is none. */
  function FirstFree(f: seq<Word>, from: nat): (c: nat)
    requires from <= |f|
    ensures from <= c <= |f|
    ensures c < |f| ==> IsFree(f[c])
    ensures forall d :: from <= d < c ==> !IsFree(f[d])
    decreases |f| - from
  {
    if from == |f| || IsFree(f[from]) then from else FirstFree(f, from + 1)
  }
}
