/**
 The state of a whole volume: which chains exist, which cluster belongs to which chain,
 what the directories contain, and which entry refers to which chain.  Each file
 operation is one or two of the changes below; each change keeps the volume consistent.
 */
module Catalog {
  import opened Machine
  import opened FatTable
  import opened ChainStore
  import opened Names
  import opened Directory

  /** Entry `idx` of the directory that starts at cluster `dir`. */
  datatype Slot = Slot(dir: Word, idx: nat)

  /**
   `chains`: the chain of each start cluster; `owner`: the start cluster of the chain that holds a
   cluster; `dirs`: the entries of each directory; `home`: the entry that refers to a chain.
   */
  datatype Catalog = Catalog(chains: map<Word, seq<Word>>, owner: map<int, Word>, dirs: map<Word, seq<Entry>>,
                             home: map<Word, Slot>)

  // ------------------------------------------------------------ consistency

  ghost predicate HeadsOk(f: seq<Word>, chains: map<Word, seq<Word>>) {
    forall s :: s in chains ==> s != 0 && IsChain(f, s, chains[s])
  }

  ghost predicate OwnersOk(chains: map<Word, seq<Word>>, owner: map<int, Word>) {
    && (forall s, c :: s in chains && c in chains[s] ==> c in owner && owner[c] == s)
    && (forall c :: c in owner ==> owner[c] in chains && c in chains[owner[c]])
  }

  ghost predicate NoLeak(f: seq<Word>, owner: map<int, Word>) {
    forall c :: 2 <= c < |f| && (IsUsed(f[c]) || IsLast(f[c])) ==> c in owner
  }

  /** Every start cluster heads a chain, no cluster is in two chains, and no allocated cluster is in none. */
  ghost predicate ChainsOk(f: seq<Word>, cat: Catalog) {
    HeadsOk(f, cat.chains) && OwnersOk(cat.chains, cat.owner) && NoLeak(f, cat.owner)
  }

  ghost predicate BlocksSized(data: seq<Block>, perCluster: nat) {
    forall c :: 2 <= c < |data| ==> |data[c]| == 32 * perCluster
  }

  /** The catalogued directories are the bytes stored along their chains. */
  ghost predicate DirsMatch(data: seq<Block>, chains: map<Word, seq<Word>>, dirs: map<Word, seq<Entry>>) {
    forall d :: d in dirs ==> d in chains && Within(chains[d], |data|) && dirs[d] == DirEntries(data, chains[d])
  }

  ghost predicate DirsOk(data: seq<Block>, cat: Catalog) {
    DirsMatch(data, cat.chains, cat.dirs)
  }

  /** A named entry is an empty file, or refers to a chain other than its directory's that no other entry refers to. */
  ghost predicate EntryOk(cat: Catalog, d: Word, i: nat, e: Entry) {
    var s := StartOf(e);
    if s == 0 then !IsDir(e)
    else s in cat.chains && s != d && s in cat.home && cat.home[s] == Slot(d, i) && (IsDir(e) <==> s in cat.dirs)
  }

  ghost predicate EntriesOk(cat: Catalog) {
    forall d, i :: d in cat.dirs && 0 <= i < |cat.dirs[d]| && Named(cat.dirs[d][i]) ==>
      EntryOk(cat, d, i, cat.dirs[d][i])
  }

  ghost predicate HomeOk(cat: Catalog, s: Word)
    requires s in cat.home
  {
    var h := cat.home[s];
    s in cat.chains && h.dir in cat.dirs && h.idx < |cat.dirs[h.dir]|
    && Named(cat.dirs[h.dir][h.idx]) && StartOf(cat.dirs[h.dir][h.idx]) == s
  }

  /** Every chain but the root directory is referred to by exactly one named entry. */
  ghost predicate HomesOk(cat: Catalog, root: Word) {
    && root !in cat.home
    && (forall s :: s in cat.chains && s != root ==> s in cat.home)
    && (forall s :: s in cat.home ==> HomeOk(cat, s))
  }

  ghost predicate LinksOk(cat: Catalog, root: Word) {
    && root in cat.dirs
    && (forall d :: d in cat.dirs ==> d in cat.chains && DirOk(cat.dirs[d]))
    && EntriesOk(cat)
    && HomesOk(cat, root)
  }

  /** Table, cluster contents and catalog agree. */
  ghost predicate Physical(st: Store, cat: Catalog, perCluster: nat) {
    && st.Shaped() && perCluster > 0 && BlocksSized(st.data, perCluster)
    && ChainsOk(st.fat, cat) && DirsOk(st.data, cat)
  }

  /** The whole-volume invariant. */
  ghost predicate Consistent(st: Store, cat: Catalog, root: Word, perCluster: nat) {
    Physical(st, cat, perCluster) && LinksOk(cat, root)
  }

  /** Chain of a start cluster; start cluster 0 has the empty chain. */
  function ChainOf(cat: Catalog, s: Word): seq<Word> {
    if s in cat.chains then cat.chains[s] else []
  }

  lemma ChainOfIsChain(f: seq<Word>, cat: Catalog, s: Word)
    requires ChainsOk(f, cat) && (s == 0 || s in cat.chains)
    ensures IsChain(f, s, ChainOf(cat, s)) && Within(ChainOf(cat, s), |f|) && Distinct(ChainOf(cat, s))
  {
    if s != 0 {
      ChainWithin(f, s, cat.chains[s]);
      ChainIsAcyclic(f, s, cat.chains[s]);
    }
  }

  /** Two start clusters never share a cluster. */
  lemma ChainsAreDisjoint(f: seq<Word>, cat: Catalog, s: Word, t: Word)
    requires ChainsOk(f, cat) && s in cat.chains && t in cat.chains && s != t
    ensures forall c :: c in cat.chains[s] ==> c !in cat.chains[t]
  {
    forall c | c in cat.chains[s] ensures c !in cat.chains[t] {
      assert cat.owner[c] == s;
    }
  }

  // ----------------------------------------------- replacing one chain

  /** The catalog after the chain of `s` becomes the chain `ch'` of `s'`; 0 stands for no chain. */
  ghost function Rechain(cat: Catalog, s: Word, s': Word, ch': seq<Word>): Catalog {
    var chains := cat.chains - {s};
    var kept := cat.owner - Elements(ChainOf(cat, s));
    Catalog(if s' == 0 then chains else chains[s' := ch'],
            map c | c in kept.Keys + Elements(ch') :: if c in Elements(ch') then s' else kept[c],
            cat.dirs, cat.home)
  }

  /** A chain other than the replaced one shares no cluster with the old or the new chain. */
  lemma OtherChainApart(f: seq<Word>, cat: Catalog, s: Word, g: seq<Word>, s': Word, ch': seq<Word>, t: Word, c: Word)
    requires ChainsOk(f, cat) && (s == 0 || s in cat.chains)
    requires Rechained(f, ChainOf(cat, s), g, s', ch')
    requires t in cat.chains && t != s && c in cat.chains[t]
    ensures c !in ChainOf(cat, s) && c !in ch' && c < |f| && g[c] == f[c]
  {
    ChainIsAllocated(f, t, cat.chains[t], c);
    if s != 0 {
      ChainsAreDisjoint(f, cat, t, s);
    }
  }

  /** A new start cluster is not the start of any other chain. */
  lemma NewStartIsNew(f: seq<Word>, cat: Catalog, s: Word, g: seq<Word>, s': Word, ch': seq<Word>)
    requires ChainsOk(f, cat) && (s == 0 || s in cat.chains)
    requires Rechained(f, ChainOf(cat, s), g, s', ch') && s' != s
    ensures s' !in cat.chains
  {
    if s' in cat.chains {
      ChainOfIsChain(f, cat, s');
      assert cat.chains[s'][0] == s';
      OtherChainApart(f, cat, s, g, s', ch', s', s');
    }
  }

  lemma RechainKeepsChains(f: seq<Word>, cat: Catalog, s: Word, g: seq<Word>, s': Word, ch': seq<Word>)
    requires ChainsOk(f, cat) && (s == 0 || s in cat.chains)
    requires Rechained(f, ChainOf(cat, s), g, s', ch')
    ensures ChainsOk(g, Rechain(cat, s, s', ch'))
    ensures s' == s || s' !in cat.chains
  {
    if s' != s {
      NewStartIsNew(f, cat, s, g, s', ch');
    }
    RechainHeads(f, cat, s, g, s', ch');
    RechainOwners(f, cat, s, g, s', ch');
    RechainNoLeak(f, cat, s, g, s', ch');
  }

  lemma RechainHeads(f: seq<Word>, cat: Catalog, s: Word, g: seq<Word>, s': Word, ch': seq<Word>)
    requires ChainsOk(f, cat) && (s == 0 || s in cat.chains)
    requires Rechained(f, ChainOf(cat, s), g, s', ch')
    ensures HeadsOk(g, Rechain(cat, s, s', ch').chains)
  {
    var cat' := Rechain(cat, s, s', ch');
    forall t | t in cat'.chains ensures t != 0 && IsChain(g, t, cat'.chains[t]) {
      if t != s' {
        OtherChainStays(f, cat, s, g, s', ch', t);
      }
    }
  }

  lemma OtherChainStays(f: seq<Word>, cat: Catalog, s: Word, g: seq<Word>, s': Word, ch': seq<Word>, t: Word)
    requires ChainsOk(f, cat) && (s == 0 || s in cat.chains)
    requires Rechained(f, ChainOf(cat, s), g, s', ch')
    requires t in cat.chains && t != s
    ensures IsChain(g, t, cat.chains[t])
  {
    forall c | c in cat.chains[t] ensures c < |f| && g[c] == f[c] {
      OtherChainApart(f, cat, s, g, s', ch', t, c);
    }
    ChainFrame(f, g, t, cat.chains[t]);
  }

  lemma RechainNoLeak(f: seq<Word>, cat: Catalog, s: Word, g: seq<Word>, s': Word, ch': seq<Word>)
    requires NoLeak(f, cat.owner) && Rechained(f, ChainOf(cat, s), g, s', ch')
    ensures NoLeak(g, Rechain(cat, s, s', ch').owner)
  {
    var cat', ch := Rechain(cat, s, s', ch'), ChainOf(cat, s);
    forall c | 2 <= c < |g| && (IsUsed(g[c]) || IsLast(g[c])) ensures c in cat'.owner {
      if c !in ch' {
        assert c !in ch && c in cat.owner;
      }
    }
  }

  lemma RechainOwners(f: seq<Word>, cat: Catalog, s: Word, g: seq<Word>, s': Word, ch': seq<Word>)
    requires ChainsOk(f, cat) && (s == 0 || s in cat.chains)
    requires Rechained(f, ChainOf(cat, s), g, s', ch')
    requires s' == s || s' !in cat.chains
    ensures OwnersOk(Rechain(cat, s, s', ch').chains, Rechain(cat, s, s', ch').owner)
  {
    var cat' := Rechain(cat, s, s', ch');
    forall t, c | t in cat'.chains && c in cat'.chains[t] ensures c in cat'.owner && cat'.owner[c] == t {
      RechainOwned(f, cat, s, g, s', ch', t, c);
    }
    forall c | c in cat'.owner ensures cat'.owner[c] in cat'.chains && c in cat'.chains[cat'.owner[c]] {
      RechainOwner(f, cat, s, s', ch', c);
    }
  }

  lemma RechainOwned(f: seq<Word>, cat: Catalog, s: Word, g: seq<Word>, s': Word, ch': seq<Word>, t: Word, c: Word)
    requires ChainsOk(f, cat) && (s == 0 || s in cat.chains)
    requires Rechained(f, ChainOf(cat, s), g, s', ch')
    requires t in Rechain(cat, s, s', ch').chains && c in Rechain(cat, s, s', ch').chains[t]
    ensures c in Rechain(cat, s, s', ch').owner && Rechain(cat, s, s', ch').owner[c] == t
  {
    if t != s' {
      OtherChainApart(f, cat, s, g, s', ch', t, c);
    }
  }

  lemma RechainOwner(f: seq<Word>, cat: Catalog, s: Word, s': Word, ch': seq<Word>, c: int)
    requires OwnersOk(cat.chains, cat.owner) && (s == 0 || s in cat.chains) && (s' == 0 <==> ch' == [])
    requires s' == s || s' !in cat.chains
    requires c in Rechain(cat, s, s', ch').owner
    ensures var cat' := Rechain(cat, s, s', ch');
            cat'.owner[c] in cat'.chains && c in cat'.chains[cat'.owner[c]]
  {
    if c !in ch' {
      assert c in cat.owner && c !in ChainOf(cat, s);
      assert cat.owner[c] != s;
    }
  }

  /** Directories other than the replaced chain keep their bytes. */
  lemma RechainKeepsDirs(f: seq<Word>, data: seq<Block>, cat: Catalog, s: Word, g: seq<Word>, s': Word, ch': seq<Word>,
                         blocks: seq<Block>, data': seq<Block>)
    requires |f| == |data| && ChainsOk(f, cat) && DirsOk(data, cat) && (s == 0 || s in cat.chains) && s !in cat.dirs
    requires Rechained(f, ChainOf(cat, s), g, s', ch') && Stored(data, ch', blocks, data')
    ensures DirsOk(data', Rechain(cat, s, s', ch'))
  {
    RechainKeepsChains(f, cat, s, g, s', ch');
    var cat' := Rechain(cat, s, s', ch');
    forall d | d in cat'.dirs
      ensures d in cat'.chains && cat'.chains[d] == cat.chains[d]
      ensures cat'.dirs[d] == DirEntries(data', cat.chains[d])
    {
      forall i | 0 <= i < |cat.chains[d]| ensures data'[cat.chains[d][i]] == data[cat.chains[d][i]] {
        OtherChainApart(f, cat, s, g, s', ch', d, cat.chains[d][i]);
      }
      assert Blocks(data', cat.chains[d]) == Blocks(data, cat.chains[d]);
    }
  }

  // ------------------------------------------ rewriting one directory entry

  ghost function WithEntry(cat: Catalog, d: Word, i: nat, e: Entry): Catalog
    requires d in cat.dirs && i < |cat.dirs[d]|
  {
    var es: seq<Entry> := cat.dirs[d][i := e];
    cat.(dirs := cat.dirs[d := es])
  }

  /** Rewriting an entry inside its cluster changes the catalog by that entry only. */
  lemma PatchKeepsDirs(f: seq<Word>, data: seq<Block>, cat: Catalog, d: Word, i: nat, e: Entry, c: Word, b: Block)
    requires |f| == |data| && ChainsOk(f, cat) && DirsOk(data, cat)
    requires d in cat.dirs && i < |cat.dirs[d]| && c in cat.chains[d] && c < |data|
    requires DirEntries(data[c := b], cat.chains[d]) == cat.dirs[d][i := e]
    ensures DirsOk(data[c := b], WithEntry(cat, d, i, e))
  {
    var cat' := WithEntry(cat, d, i, e);
    forall t | t in cat'.dirs && t != d ensures DirEntries(data[c := b], cat.chains[t]) == cat'.dirs[t] {
      ChainsAreDisjoint(f, cat, d, t);
      ApartFromCluster(data, cat.chains[t], c, b);
    }
  }

  lemma PatchKeepsPhysical(st: Store, cat: Catalog, perCluster: nat, d: Word, i: nat, e: Entry, c: Word, b: Block)
    requires Physical(st, cat, perCluster) && d in cat.dirs && i < |cat.dirs[d]|
    requires c in cat.chains[d] && c < |st.data| && |b| == 32 * perCluster
    requires DirEntries(st.data[c := b], cat.chains[d]) == cat.dirs[d][i := e]
    ensures Physical(Store(st.fat, st.data[c := b]), WithEntry(cat, d, i, e), perCluster)
  {
    PatchKeepsDirs(st.fat, st.data, cat, d, i, e, c, b);
  }

  lemma ChainBlocksSized(f: seq<Word>, data: seq<Block>, perCluster: nat, s: Word, ch: seq<Word>)
    requires |f| == |data| && IsChain(f, s, ch) && Within(ch, |data|) && BlocksSized(data, perCluster)
    ensures Sized(Blocks(data, ch), 32 * perCluster)
    ensures |DirEntries(data, ch)| == |ch| * perCluster
  {
    forall j | 0 <= j < |ch| ensures |Blocks(data, ch)[j]| == 32 * perCluster {
      assert LinkOk(f, ch, j);
    }
    DirLength(data, ch, perCluster);
  }

  lemma ApartFromCluster(data: seq<Block>, ch: seq<Word>, c: Word, b: Block)
    requires Within(ch, |data|) && c < |data| && c !in ch
    ensures Blocks(data[c := b], ch) == Blocks(data, ch)
  {
  }

  // -------------------------------------------------------- changes of links

  ghost predicate NoneNamed(es: seq<Entry>) {
    forall i :: 0 <= i < |es| ==> !Named(es[i])
  }

  /** Start cluster an entry refers to; unused and unnamed entries refer to nothing. */
  function RefOf(e: Entry): Word {
    if Named(e) then StartOf(e) else 0
  }

  /** A directory all of whose files are empty. */
  ghost predicate NoRefs(es: seq<Entry>) { forall j :: 0 <= j < |es| ==> RefOf(es[j]) == 0 }

  ghost predicate RelinkedDirs(cat: Catalog, cat': Catalog, d: Word, i: nat, s: Word, s': Word, e: Entry) {
    && d in cat.dirs && i < |cat.dirs[d]| && d in cat'.dirs && cat'.dirs[d] == cat.dirs[d][i := e]
    && (forall t :: t in cat'.dirs && t != d && t in cat.dirs ==> cat'.dirs[t] == cat.dirs[t])
    && (forall t :: t in cat'.dirs && t !in cat.dirs ==> t == s' != 0 && NoneNamed(cat'.dirs[t]))
    && (forall t :: t in cat.dirs && t !in cat'.dirs ==> t == s && s != s' && NoRefs(cat.dirs[t]))
    && (s != 0 && s != s' ==> s !in cat'.dirs)
  }

  ghost predicate RelinkedHomes(cat: Catalog, cat': Catalog, d: Word, i: nat, s: Word, s': Word) {
    && (forall t :: t in cat'.chains <==> (t == s' && t != 0) || (t in cat.chains && t != s))
    && (forall t :: t in cat'.home <==> (t == s' && t != 0) || (t in cat.home && t != s))
    && (forall t :: t in cat'.home ==> cat'.home[t] == if t == s' then Slot(d, i) else cat.home[t])
  }

  /**
   `cat'` is `cat` after entry `i` of directory `d` became `e`, which refers to `s'` where the old
   entry referred to `s`.  A directory may appear at `s'` without named entries, or vanish at `s`, if
   it refers to nothing.
   */
  ghost predicate Relinked(cat: Catalog, cat': Catalog, d: Word, i: nat, s: Word, s': Word, e: Entry) {
    && RelinkedDirs(cat, cat', d, i, s, s', e)
    && RelinkedHomes(cat, cat', d, i, s, s')
    && s == RefOf(cat.dirs[d][i]) && s' == RefOf(e)
    && (s' == s || s' !in cat.chains)
    && (Named(e) ==> (IsDir(e) <==> s' in cat'.dirs) && (s' == 0 ==> !IsDir(e)))
  }

  /** Every such change keeps the links consistent, as long as the directories stay well formed. */
  lemma RelinkKeepsLinks(cat: Catalog, cat': Catalog, root: Word, d: Word, i: nat, s: Word, s': Word, e: Entry)
    requires LinksOk(cat, root) && 0 !in cat.chains && Relinked(cat, cat', d, i, s, s', e)
    requires DirOk(cat'.dirs[d]) && forall t :: t in cat'.dirs && t !in cat.dirs ==> DirOk(cat'.dirs[t])
    ensures LinksOk(cat', root)
  {
    OldEntryOk(cat, root, d, i);
    forall d2, j | d2 in cat'.dirs && 0 <= j < |cat'.dirs[d2]| && Named(cat'.dirs[d2][j])
      ensures EntryOk(cat', d2, j, cat'.dirs[d2][j])
    {
      if d2 != d || j != i {
        OtherEntryOk(cat, cat', root, d, i, s, s', e, d2, j);
      }
    }
    forall t | t in cat'.home ensures HomeOk(cat', t) {
      if t != s' {
        OtherHomeOk(cat, cat', root, d, i, s, s', e, t);
      }
    }
    RelinkKeepsDirs(cat, cat', root, d, i, s, s', e);
  }

  lemma OldEntryOk(cat: Catalog, root: Word, d: Word, i: nat)
    requires LinksOk(cat, root) && d in cat.dirs && i < |cat.dirs[d]|
    ensures var s := RefOf(cat.dirs[d][i]);
            s != 0 ==> s in cat.home && cat.home[s] == Slot(d, i) && s != root
  {
    if Named(cat.dirs[d][i]) {
      assert EntryOk(cat, d, i, cat.dirs[d][i]);
    }
  }

  lemma RelinkKeepsDirs(cat: Catalog, cat': Catalog, root: Word, d: Word, i: nat, s: Word, s': Word, e: Entry)
    requires LinksOk(cat, root) && 0 !in cat.chains && Relinked(cat, cat', d, i, s, s', e)
    requires DirOk(cat'.dirs[d]) && forall t :: t in cat'.dirs && t !in cat.dirs ==> DirOk(cat'.dirs[t])
    ensures root in cat'.dirs && root !in cat'.home
    ensures forall t :: t in cat'.dirs ==> t in cat'.chains && DirOk(cat'.dirs[t])
  {
    OldEntryOk(cat, root, d, i);
    forall t | t in cat'.dirs ensures t in cat'.chains {
      if t in cat.dirs {
        assert t in cat.chains;
      }
    }
  }

  /** An entry other than the changed one keeps its chain. */
  lemma OtherEntryOk(cat: Catalog, cat': Catalog, root: Word, d: Word, i: nat, s: Word, s': Word, e: Entry, d2: Word,
                     j: nat)
    requires LinksOk(cat, root) && Relinked(cat, cat', d, i, s, s', e)
    requires d2 in cat'.dirs && j < |cat'.dirs[d2]| && Named(cat'.dirs[d2][j]) && (d2 != d || j != i)
    ensures EntryOk(cat', d2, j, cat'.dirs[d2][j])
  {
    assert d2 in cat.dirs;
    assert cat'.dirs[d2][j] == cat.dirs[d2][j];
    assert EntryOk(cat, d2, j, cat.dirs[d2][j]);
    OldEntryOk(cat, root, d, i);
  }

  /** A chain other than the changed one keeps its home. */
  lemma OtherHomeOk(cat: Catalog, cat': Catalog, root: Word, d: Word, i: nat, s: Word, s': Word, e: Entry, t: Word)
    requires LinksOk(cat, root) && 0 !in cat.chains && Relinked(cat, cat', d, i, s, s', e)
    requires t in cat'.home && t != s'
    ensures HomeOk(cat', t)
  {
    assert t in cat.home && t != s && HomeOk(cat, t);
    var h := cat.home[t];
    assert h != Slot(d, i);
    assert RefOf(cat.dirs[h.dir][h.idx]) == t != 0;
    assert h.dir in cat'.dirs;
    assert cat'.dirs[h.dir][h.idx] == cat.dirs[h.dir][h.idx];
  }

  // -------------------------------------------------- the file operations

  /** Replacing a file's chain, the step shared by write, delete and mkdir, keeps everything else. */
  lemma RechainKeepsPhysical(st: Store, cat: Catalog, perCluster: nat, s: Word, st': Store, s': Word, ch': seq<Word>,
                             blocks: seq<Block>)
    requires Physical(st, cat, perCluster) && (s == 0 || s in cat.chains) && s !in cat.dirs
    requires Rechained(st.fat, ChainOf(cat, s), st'.fat, s', ch') && Stored(st.data, ch', blocks, st'.data)
    requires Sized(blocks, 32 * perCluster)
    ensures Physical(st', Rechain(cat, s, s', ch'), perCluster)
    ensures s' == s || s' !in cat.chains
  {
    RechainKeepsChains(st.fat, cat, s, st'.fat, s', ch');
    RechainKeepsDirs(st.fat, st.data, cat, s, st'.fat, s', ch', blocks, st'.data);
    StoredSized(st.data, perCluster, ch', blocks, st'.data);
  }

  lemma StoredSized(data: seq<Block>, perCluster: nat, ch': seq<Word>, blocks: seq<Block>, data': seq<Block>)
    requires BlocksSized(data, perCluster) && Stored(data, ch', blocks, data') && Sized(blocks, 32 * perCluster)
    ensures BlocksSized(data', perCluster)
  {
    forall c | 2 <= c < |data'| ensures |data'[c]| == 32 * perCluster {
      if c in ch' {
        var i :| 0 <= i < |ch'| && ch'[i] == c;
        assert data'[c] == Blocks(data', ch')[i] == blocks[i];
      }
    }
  }

  /** Files and directories other than the rewritten file keep their chains and bytes. */
  lemma RechainKeepsOthers(st: Store, cat: Catalog, s: Word, st': Store, s': Word, ch': seq<Word>, blocks: seq<Block>,
                           t: Word)
    requires |st.fat| == |st.data| && ChainsOk(st.fat, cat) && (s == 0 || s in cat.chains)
    requires Rechained(st.fat, ChainOf(cat, s), st'.fat, s', ch') && Stored(st.data, ch', blocks, st'.data)
    requires t in cat.chains && t != s && Within(cat.chains[t], |st.data|)
    ensures t in Rechain(cat, s, s', ch').chains && Rechain(cat, s, s', ch').chains[t] == cat.chains[t]
    ensures Blocks(st'.data, cat.chains[t]) == Blocks(st.data, cat.chains[t])
  {
    if s' != s {
      NewStartIsNew(st.fat, cat, s, st'.fat, s', ch');
    }
    forall i | 0 <= i < |cat.chains[t]| ensures st'.data[cat.chains[t][i]] == st.data[cat.chains[t][i]] {
      OtherChainApart(st.fat, cat, s, st'.fat, s', ch', t, cat.chains[t][i]);
    }
  }

  /** Every chain of `c0` but those of `s` and `dir` is a chain of `c` with the same bytes. */
  ghost predicate Kept(c0: Catalog, d0: seq<Block>, s: Word, dir: Word, c: Catalog, data: seq<Block>) {
    forall t :: t in c0.chains && t != s && t != dir ==> KeptChain(c0, d0, c, data, t)
  }

  ghost predicate KeptChain(c0: Catalog, d0: seq<Block>, c: Catalog, data: seq<Block>, t: Word)
    requires t in c0.chains
  {
    && t in c.chains && c.chains[t] == c0.chains[t]
    && Within(c0.chains[t], |d0|)
    && Within(c0.chains[t], |data|) && Blocks(data, c0.chains[t]) == Blocks(d0, c0.chains[t])
  }

  lemma RechainKeeps(st: Store, cat: Catalog, s: Word, st': Store, s': Word, ch': seq<Word>, blocks: seq<Block>)
    requires |st.fat| == |st.data| && ChainsOk(st.fat, cat) && (s == 0 || s in cat.chains)
    requires Rechained(st.fat, ChainOf(cat, s), st'.fat, s', ch') && Stored(st.data, ch', blocks, st'.data)
    ensures Kept(cat, st.data, s, s, Rechain(cat, s, s', ch'), st'.data)
  {
    forall t | t in cat.chains && t != s ensures KeptChain(cat, st.data, Rechain(cat, s, s', ch'), st'.data, t) {
      ChainOfIsChain(st.fat, cat, t);
      RechainKeepsOthers(st, cat, s, st', s', ch', blocks, t);
    }
  }

  /** What a chain write does to a catalogued file: `ch'` from `s'` on holds `blocks`, and everything else stays. */
  ghost predicate FileReplaced(st: Store, cat: Catalog, perCluster: nat, s: Word, blocks: seq<Block>,
                               st': Store, s': Word, ch': seq<Word>)
  {
    && Physical(st', Rechain(cat, s, s', ch'), perCluster) && (s' == s || s' !in cat.chains)
    && Rechained(st.fat, ChainOf(cat, s), st'.fat, s', ch')
    && Within(ch', |st'.data|) && Blocks(st'.data, ch') == blocks
    && Kept(cat, st.data, s, s, Rechain(cat, s, s', ch'), st'.data)
    && Conserved(st.fat, |ChainOf(cat, s)|, st'.fat, |blocks|)
  }

  /** Inside its useful domain a chain write replaces the file, unless it needs a cluster and none is free. */
  lemma WriteReplacesFile(st: Store, cat: Catalog, perCluster: nat, s: Word, blocks: seq<Block>)
    returns (ch': seq<Word>)
    requires Physical(st, cat, perCluster) && (s == 0 || s in cat.chains) && s !in cat.dirs
    requires Sized(blocks, 32 * perCluster)
    requires |blocks| == 0 || |ChainOf(cat, s)| <= |blocks| <= |ChainOf(cat, s)| + 1
    ensures Within(ChainOf(cat, s), |st.data|) && Distinct(ChainOf(cat, s)) && IsChain(st.fat, s, ChainOf(cat, s))
    ensures var r := WriteChain(st, s, ChainOf(cat, s), blocks);
            if |blocks| > |ChainOf(cat, s)| && FirstFree(st.fat, 3) == |st.fat| then r.DiskFull?
            else r.Wrote? && FileReplaced(st, cat, perCluster, s, blocks, r.st, r.start, ch')
  {
    var ch := ChainOf(cat, s);
    ChainOfIsChain(st.fat, cat, s);
    SomeFree(st.fat);
    WriteChainFullIff(st, s, ch, blocks);
    ch' := [];
    if Fits(st, ch, blocks) {
      var r := WriteChain(st, s, ch, blocks);
      ch' := WriteChainStores(st, s, ch, blocks);
      RechainKeepsPhysical(st, cat, perCluster, s, r.st, r.start, ch', blocks);
      RechainKeeps(st, cat, s, r.st, r.start, ch', blocks);
      WriteConservesClusters(st.fat, s, ch, r.st.fat, r.start, ch');
    }
  }

  /** Rewriting a cluster of a directory keeps every chain's bytes but the directory's. */
  lemma PatchKeeps(f: seq<Word>, c0: Catalog, d0: seq<Block>, s: Word, c1: Catalog, d1: seq<Block>, d2: seq<Block>,
                   dir: Word)
    requires |f| == |d1| == |d2| && ChainsOk(f, c1) && Kept(c0, d0, s, s, c1, d1) && dir in c1.chains
    requires forall x :: 0 <= x < |d1| && x !in c1.chains[dir] ==> d2[x] == d1[x]
    ensures Kept(c0, d0, s, dir, c1, d2)
  {
    forall t | t in c0.chains && t != s && t != dir ensures KeptChain(c0, d0, c1, d2, t) {
      assert KeptChain(c0, d0, c1, d1, t);
      ChainsAreDisjoint(f, c1, t, dir);
      var ch := c0.chains[t];
      forall i | 0 <= i < |ch| ensures d2[ch[i]] == d1[ch[i]] {
        assert ch[i] in ch;
      }
      assert Blocks(d2, ch) == Blocks(d1, ch);
    }
  }

  /**
   * The catalog after entry `i` of `d` becomes `e`, which refers to `s'`, and the chain of the old entry is replaced.
   */
  ghost function Relink(cat: Catalog, d: Word, i: nat, s: Word, s': Word, e: Entry): Catalog
    requires d in cat.dirs && i < |cat.dirs[d]|
  {
    var home := cat.home - {s};
    WithEntry(cat, d, i, e).(home := if s' == 0 then home else home[s' := Slot(d, i)])
  }

  lemma SameKeysDirOk(es: seq<Entry>, i: nat, e: Entry)
    requires DirOk(es) && i < |es| && Raw(e) == Raw(es[i]) && e[0] == es[i][0] && Named(e) == Named(es[i])
    ensures DirOk(es[i := e])
  {
  }

  lemma WriteRelinks(cat: Catalog, d: Word, i: nat, s: Word, s': Word, ch': seq<Word>, e': Entry)
    requires d in cat.dirs && i < |cat.dirs[d]| && s == RefOf(cat.dirs[d][i]) && s' == RefOf(e')
    requires s !in cat.dirs && (s' == s || s' !in cat.chains) && s' !in cat.dirs && (Named(e') ==> !IsDir(e'))
    requires 0 !in cat.home
    ensures Relinked(cat, Relink(Rechain(cat, s, s', ch'), d, i, s, s', e'), d, i, s, s', e')
  {
  }

  /** A write keeps the links: the file's entry keeps its name and refers to the new chain. */
  lemma WriteKeepsLinks(cat: Catalog, root: Word, d: Word, i: nat, s: Word, s': Word, ch': seq<Word>, e': Entry)
    requires LinksOk(cat, root) && 0 !in cat.chains && d in cat.dirs && i < |cat.dirs[d]|
    requires var e := cat.dirs[d][i];
             && Named(e) && !IsDir(e) && s == StartOf(e) && e'[..12] == e[..12] && StartOf(e') == s'
    requires s' == s || s' !in cat.chains
    ensures LinksOk(Relink(Rechain(cat, s, s', ch'), d, i, s, s', e'), root)
  {
    var e := cat.dirs[d][i];
    assert EntryOk(cat, d, i, e);
    SameHeadBytes(e', e);
    SameKeysDirOk(cat.dirs[d], i, e');
    NotADir(cat, root, s, s');
    NoHome(cat, root, 0);
    WriteRelinks(cat, d, i, s, s', ch', e');
    RelinkKeepsLinks(cat, Relink(Rechain(cat, s, s', ch'), d, i, s, s', e'), root, d, i, s, s', e');
  }

  lemma NotADir(cat: Catalog, root: Word, s: Word, s': Word)
    requires LinksOk(cat, root) && 0 !in cat.chains && (s == 0 || s !in cat.dirs) && (s' == s || s' !in cat.chains)
    ensures s !in cat.dirs && s' !in cat.dirs
  {
  }

  lemma DeletedDirOk(es: seq<Entry>, i: nat, e: Entry)
    requires DirOk(es) && i < |es| && es[i][0] != 0 && e[0] == 0xE5
    ensures DirOk(es[i := e])
  {
  }

  /** The catalog without the directory `s`, if `s` is one. */
  ghost function ForgetDir(cat: Catalog, s: Word): Catalog {
    cat.(dirs := cat.dirs - {s})
  }

  /** Freeing a whole chain, seen as replacing it by the empty chain. */
  lemma FreedIsRechained(f: seq<Word>, s: Word, ch: seq<Word>)
    requires Readable(f) && IsChain(f, s, ch)
    ensures Rechained(f, ch, Cut(f, ch, 0), 0, [])
  {
    assert ch[0..] == ch;
  }

  lemma ForgetKeepsPhysical(st: Store, cat: Catalog, perCluster: nat, s: Word)
    requires Physical(st, cat, perCluster)
    ensures Physical(st, ForgetDir(cat, s), perCluster)
  {
  }

  /** Freeing the chain of a deleted entry keeps everything else. */
  lemma DeleteKeepsPhysical(st: Store, cat: Catalog, perCluster: nat, s: Word)
    requires Physical(st, cat, perCluster) && (s == 0 || s in cat.chains)
    ensures var c1 := Rechain(ForgetDir(cat, s), s, 0, []);
            && Physical(Store(Cut(st.fat, ChainOf(cat, s), 0), st.data), c1, perCluster)
            && Kept(cat, st.data, s, s, c1, st.data)
  {
    var c := ForgetDir(cat, s);
    var st' := Store(Cut(st.fat, ChainOf(cat, s), 0), st.data);
    ChainOfIsChain(st.fat, cat, s);
    FreedIsRechained(st.fat, s, ChainOf(cat, s));
    ForgetKeepsPhysical(st, cat, perCluster, s);
    assert Stored(st.data, [], [], st.data);
    RechainKeepsPhysical(st, c, perCluster, s, st', 0, [], []);
    RechainKeeps(st, c, s, st', 0, [], []);
    KeptFrom(cat, c, st.data, s, Rechain(c, s, 0, []), st.data);
  }

  lemma KeptFrom(a: Catalog, b: Catalog, d0: seq<Block>, s: Word, c: Catalog, data: seq<Block>)
    requires Kept(b, d0, s, s, c, data) && a.chains == b.chains
    ensures Kept(a, d0, s, s, c, data)
  {
    forall t | t in a.chains && t != s ensures KeptChain(a, d0, c, data, t) {
      assert KeptChain(b, d0, c, data, t);
    }
  }

  lemma DeleteRelinks(cat: Catalog, d: Word, i: nat, s: Word, e': Entry)
    requires d in cat.dirs && i < |cat.dirs[d]| && s == RefOf(cat.dirs[d][i]) && !Named(e') && d != s
    requires 0 !in cat.chains && 0 !in cat.home && 0 !in cat.dirs && (s in cat.dirs ==> NoRefs(cat.dirs[s]))
    ensures Relinked(cat, Relink(Rechain(ForgetDir(cat, s), s, 0, []), d, i, s, 0, e'), d, i, s, 0, e')
  {
  }

  /** Deleting an entry keeps the links, provided that a deleted directory refers to nothing. */
  lemma DeleteKeepsLinks(cat: Catalog, root: Word, d: Word, i: nat, s: Word, e': Entry)
    requires LinksOk(cat, root) && 0 !in cat.chains && d in cat.dirs && i < |cat.dirs[d]|
    requires Named(cat.dirs[d][i]) && s == StartOf(cat.dirs[d][i]) && e'[0] == 0xE5
    requires s in cat.dirs ==> NoRefs(cat.dirs[s])
    ensures d in ForgetDir(cat, s).dirs
    ensures LinksOk(Relink(Rechain(ForgetDir(cat, s), s, 0, []), d, i, s, 0, e'), root)
  {
    assert RefOf(cat.dirs[d][i]) == s && d != s;
    DeletedDirOk(cat.dirs[d], i, e');
    NoHome(cat, root, 0);
    DeleteRelinks(cat, d, i, s, e');
    RelinkKeepsLinks(cat, Relink(Rechain(ForgetDir(cat, s), s, 0, []), d, i, s, 0, e'), root, d, i, s, 0, e');
  }

  /** Some entry of a directory refers to `t`. */
  ghost predicate Referenced(dirs: map<Word, seq<Entry>>, t: Word) {
    exists d, j :: d in dirs && 0 <= j < |dirs[d]| && RefOf(dirs[d][j]) == t
  }

  /** Every chain but the root directory is referred to. */
  ghost predicate NoOrphan(cat: Catalog, root: Word) {
    forall t :: t in cat.chains && t != root ==> Referenced(cat.dirs, t)
  }

  /** A delete leaves no orphaned chain exactly when the entry is a file or a directory that refers to nothing. */
  lemma DeleteOrphansNothingIff(cat: Catalog, root: Word, d: Word, i: nat, s: Word, e': Entry)
    requires LinksOk(cat, root) && 0 !in cat.chains && d in cat.dirs && i < |cat.dirs[d]|
    requires Named(cat.dirs[d][i]) && s == StartOf(cat.dirs[d][i]) && e'[0] == 0xE5
    ensures d in ForgetDir(cat, s).dirs
    ensures NoOrphan(Relink(Rechain(ForgetDir(cat, s), s, 0, []), d, i, s, 0, e'), root)
       <==> (s in cat.dirs ==> NoRefs(cat.dirs[s]))
  {
    assert EntryOk(cat, d, i, cat.dirs[d][i]);
    var c := Relink(Rechain(ForgetDir(cat, s), s, 0, []), d, i, s, 0, e');
    if s in cat.dirs && !NoRefs(cat.dirs[s]) {
      var j :| 0 <= j < |cat.dirs[s]| && RefOf(cat.dirs[s][j]) != 0;
      OrphanOf(cat, root, d, i, s, e', j);
    } else {
      DeleteKeepsLinks(cat, root, d, i, s, e');
      LinkedIsReferenced(c, root);
    }
  }

  lemma LinkedIsReferenced(c: Catalog, root: Word)
    requires LinksOk(c, root)
    ensures NoOrphan(c, root)
  {
    forall t | t in c.chains && t != root ensures Referenced(c.dirs, t) {
      var h := c.home[t];
      assert HomeOk(c, t) && RefOf(c.dirs[h.dir][h.idx]) == t;
    }
  }

  /** What entry `j` of a deleted directory refers to is referred to by nothing else. */
  lemma OrphanOf(cat: Catalog, root: Word, d: Word, i: nat, s: Word, e': Entry, j: nat)
    requires LinksOk(cat, root) && 0 !in cat.chains && d in cat.dirs && i < |cat.dirs[d]| && d != s
    requires Named(cat.dirs[d][i]) && s == StartOf(cat.dirs[d][i]) && e'[0] == 0xE5
    requires s in cat.dirs && j < |cat.dirs[s]| && RefOf(cat.dirs[s][j]) != 0
    ensures d in ForgetDir(cat, s).dirs
    ensures !NoOrphan(Relink(Rechain(ForgetDir(cat, s), s, 0, []), d, i, s, 0, e'), root)
  {
    var c := Relink(Rechain(ForgetDir(cat, s), s, 0, []), d, i, s, 0, e');
    var t := RefOf(cat.dirs[s][j]);
    assert EntryOk(cat, s, j, cat.dirs[s][j]) && EntryOk(cat, d, i, cat.dirs[d][i]);
    assert t in c.chains && t != root;
    forall d2, k | d2 in c.dirs && 0 <= k < |c.dirs[d2]| ensures RefOf(c.dirs[d2][k]) != t {
      if (d2 != d || k != i) && Named(c.dirs[d2][k]) {
        assert c.dirs[d2][k] == cat.dirs[d2][k] && EntryOk(cat, d2, k, cat.dirs[d2][k]);
      }
    }
  }

  /** A new entry in the first unused slot keeps the directory well formed. */
  lemma CreatedDirOk(es: seq<Entry>, i: nat, e: Entry)
    requires DirOk(es) && i < |es| && Named(e) && LegalKey(Raw(e)) && e[0] != 0
    requires forall j :: 0 <= j < i ==> !Unused(es[j])
    requires forall j :: 0 <= j < |es| && Named(es[j]) ==> Raw(es[j]) != Raw(e)
    requires es[i][0] == 0 ==> forall j :: i < j < |es| ==> Unused(es[j])
    ensures DirOk(es[i := e])
  {
  }

  /**
   * That is exactly when no named entry has the new one's key; the look-up before a create overlooks hidden entries.
   */
  lemma CreatedDirOkIff(es: seq<Entry>, i: nat, e: Entry)
    requires DirOk(es) && i < |es| && Unused(es[i]) && Named(e) && LegalKey(Raw(e)) && e[0] != 0
    requires forall j :: 0 <= j < i ==> !Unused(es[j])
    ensures DirOk(es[i := e]) <==> forall j :: 0 <= j < |es| && Named(es[j]) ==> Raw(es[j]) != Raw(e)
  {
    if forall j :: 0 <= j < |es| && Named(es[j]) ==> Raw(es[j]) != Raw(e) {
      CreatedDirOk(es, i, e);
    } else {
      var j :| 0 <= j < |es| && Named(es[j]) && Raw(es[j]) == Raw(e);
      assert j != i && es[i := e][j] == es[j] && es[i := e][i] == e;
      assert !DistinctKeys(es[i := e]);
    }
  }

  /** The catalog after `e` is created in slot `i` for the new directory in cluster `c`. */
  ghost function CreatedDir(cat: Catalog, d: Word, i: nat, c: Word, zeros: Block, e: Entry): Catalog
    requires d in cat.dirs && i < |cat.dirs[d]| && c != d
  {
    Relink(WithNewDir(cat, c, zeros), d, i, 0, c, e)
  }

  /** Taking one free cluster, seen as growing the empty chain. */
  lemma TakenIsRechained(f: seq<Word>, c: Word)
    requires Readable(f) && 3 <= c < |f| && IsFree(f[c])
    ensures Rechained(f, [], f[c := END_MARK], c, [c])
  {
    var g := f[c := END_MARK];
    assert LinkOk(g, [c], 0);
    assert c in FreeSet(f);
    assert [] <= [c];
  }

  lemma NewDirBytes(data: seq<Block>, c: Word, zeros: Block)
    requires c < |data| && forall j :: 0 <= j < |zeros| ==> zeros[j] == 0
    ensures DirEntries(data[c := zeros], [c]) == Entries(zeros)
    ensures NoneNamed(Entries(zeros)) && DirOk(Entries(zeros))
  {
    var bs := Blocks(data[c := zeros], [c]);
    assert bs == [zeros] && bs[..0] == [];
    assert Flat(bs) == [] + zeros == zeros;
    forall i | 0 <= i < |zeros| / 32 ensures Entries(zeros)[i][0] == 0 {
      assert Entries(zeros)[i] == zeros[32 * i..32 * i + 32];
    }
  }

  /** The catalog once cluster `c` is an empty directory that no entry refers to yet. */
  ghost function WithNewDir(cat: Catalog, c: Word, zeros: Block): Catalog {
    Rechain(cat, 0, c, [c]).(dirs := cat.dirs[c := Entries(zeros)])
  }

  lemma MkdirKeepsPhysical(st: Store, cat: Catalog, perCluster: nat, c: Word, zeros: Block)
    requires Physical(st, cat, perCluster) && 3 <= c < |st.fat| && IsFree(st.fat[c])
    requires |zeros| == 32 * perCluster && forall j :: 0 <= j < |zeros| ==> zeros[j] == 0
    ensures var st' := Store(st.fat[c := END_MARK], st.data[c := zeros]);
            && Physical(st', WithNewDir(cat, c, zeros), perCluster)
            && Kept(cat, st.data, 0, 0, WithNewDir(cat, c, zeros), st'.data)
            && c !in cat.chains
  {
    var st' := Store(st.fat[c := END_MARK], st.data[c := zeros]);
    var c1 := Rechain(cat, 0, c, [c]);
    assert 0 !in cat.chains && 0 !in cat.dirs;
    TakenIsRechained(st.fat, c);
    assert Blocks(st'.data, [c]) == [zeros];
    assert Stored(st.data, [c], [zeros], st'.data);
    RechainKeepsPhysical(st, cat, perCluster, 0, st', c, [c], [zeros]);
    RechainKeeps(st, cat, 0, st', c, [c], [zeros]);
    NewDirBytes(st.data, c, zeros);
    AddDirPhysical(st', c1, perCluster, c, Entries(zeros));
    KeptThrough(cat, st.data, c1, WithNewDir(cat, c, zeros), st'.data);
  }

  lemma AddDirPhysical(st: Store, cat: Catalog, perCluster: nat, c: Word, es: seq<Entry>)
    requires Physical(st, cat, perCluster) && c in cat.chains && Within(cat.chains[c], |st.data|)
    requires DirEntries(st.data, cat.chains[c]) == es
    ensures Physical(st, cat.(dirs := cat.dirs[c := es]), perCluster)
  {
  }

  lemma KeptThrough(c0: Catalog, d0: seq<Block>, c1: Catalog, c2: Catalog, data: seq<Block>)
    requires Kept(c0, d0, 0, 0, c1, data) && c2.chains == c1.chains
    ensures Kept(c0, d0, 0, 0, c2, data)
  {
    forall t | t in c0.chains && t != 0 ensures KeptChain(c0, d0, c2, data, t) {
      assert KeptChain(c0, d0, c1, data, t);
    }
  }

  lemma CreateFileKeepsLinks(cat: Catalog, root: Word, d: Word, i: nat, e: Entry)
    requires LinksOk(cat, root) && 0 !in cat.chains && d in cat.dirs && i < |cat.dirs[d]|
    requires !Named(cat.dirs[d][i]) && Named(e) && StartOf(e) == 0 && !IsDir(e) && DirOk(cat.dirs[d][i := e])
    ensures LinksOk(WithEntry(cat, d, i, e), root)
  {
    NoHome(cat, root, 0);
    FileRelinks(cat, d, i, e);
    RelinkKeepsLinks(cat, WithEntry(cat, d, i, e), root, d, i, 0, 0, e);
  }

  lemma FileRelinks(cat: Catalog, d: Word, i: nat, e: Entry)
    requires 0 !in cat.chains && 0 !in cat.home && 0 !in cat.dirs && d in cat.dirs && i < |cat.dirs[d]|
    requires !Named(cat.dirs[d][i]) && Named(e) && StartOf(e) == 0 && !IsDir(e)
    ensures Relinked(cat, WithEntry(cat, d, i, e), d, i, 0, 0, e)
  {
  }

  lemma CreateDirKeepsLinks(cat: Catalog, root: Word, d: Word, i: nat, c: Word, zeros: Block, e: Entry)
    requires LinksOk(cat, root) && 0 !in cat.chains && c != 0 && c !in cat.chains && d in cat.dirs && i < |cat.dirs[d]|
    requires !Named(cat.dirs[d][i]) && Named(e) && StartOf(e) == c && IsDir(e) && DirOk(cat.dirs[d][i := e])
    requires DirOk(Entries(zeros)) && NoneNamed(Entries(zeros))
    ensures c != d && LinksOk(CreatedDir(cat, d, i, c, zeros, e), root)
  {
    assert d in cat.chains && c !in cat.dirs;
    NoHome(cat, root, 0);
    DirRelinks(cat, d, i, c, zeros, e);
    RelinkKeepsLinks(cat, CreatedDir(cat, d, i, c, zeros, e), root, d, i, 0, c, e);
  }

  lemma DirRelinks(cat: Catalog, d: Word, i: nat, c: Word, zeros: Block, e: Entry)
    requires 0 !in cat.chains && 0 !in cat.home && c != 0 && c !in cat.chains && c !in cat.dirs
    requires d in cat.dirs && i < |cat.dirs[d]| && d != c
    requires !Named(cat.dirs[d][i]) && Named(e) && StartOf(e) == c && IsDir(e) && NoneNamed(Entries(zeros))
    ensures Relinked(cat, CreatedDir(cat, d, i, c, zeros, e), d, i, 0, c, e)
  {
  }

  lemma NoHome(cat: Catalog, root: Word, s: Word)
    requires LinksOk(cat, root) && s !in cat.chains
    ensures s !in cat.home
  {
  }

  lemma EndMarkRelinks(cat: Catalog, d: Word, i: nat, e: Entry)
    requires 0 !in cat.chains && 0 !in cat.home && d in cat.dirs && i < |cat.dirs[d]|
    requires !Named(cat.dirs[d][i]) && e[0] == 0
    ensures Relinked(cat, WithEntry(cat, d, i, e), d, i, 0, 0, e)
  {
  }

  /** Marking the entry behind a created one as the end changes no link. */
  lemma EndMarkKeepsLinks(cat: Catalog, root: Word, d: Word, i: nat, e: Entry)
    requires LinksOk(cat, root) && 0 !in cat.chains && d in cat.dirs && i < |cat.dirs[d]|
    requires e[0] == 0 && forall j :: i <= j < |cat.dirs[d]| ==> Unused(cat.dirs[d][j])
    ensures LinksOk(WithEntry(cat, d, i, e), root)
  {
    NoHome(cat, root, 0);
    EndMarkDirOk(cat.dirs[d], i, e);
    EndMarkRelinks(cat, d, i, e);
    RelinkKeepsLinks(cat, WithEntry(cat, d, i, e), root, d, i, 0, 0, e);
  }

  lemma EndMarkDirOk(es: seq<Entry>, i: nat, e: Entry)
    requires DirOk(es) && i < |es| && e[0] == 0 && forall j :: i <= j < |es| ==> Unused(es[j])
    ensures DirOk(es[i := e])
  {
  }

  // ---------------------------------------------------- conservation

  /** Deleting gives back as many free clusters as the chain had. */
  lemma DeleteFreesClusters(f: seq<Word>, s: Word, ch: seq<Word>)
    requires Readable(f) && IsChain(f, s, ch)
    ensures |FreeClusters(Cut(f, ch, 0))| == |FreeClusters(f)| + |ch|
  {
    FreedIsRechained(f, s, ch);
    WriteConservesClusters(f, s, ch, Cut(f, ch, 0), 0, []);
  }

  /** Making a directory takes one free cluster. */
  lemma MkdirTakesOneCluster(f: seq<Word>, c: Word)
    requires Readable(f) && 3 <= c < |f| && IsFree(f[c])
    ensures |FreeClusters(f[c := END_MARK])| + 1 == |FreeClusters(f)|
  {
    TakenIsRechained(f, c);
    WriteConservesClusters(f, 0, [], f[c := END_MARK], c, [c]);
  }

  /** Number of clusters in all chains. */
  ghost function TotalLength(chains: map<Word, seq<Word>>): nat {
    if chains == map[] then 0 else var s :| s in chains; |chains[s]| + TotalLength(chains - {s})
  }

  ghost function AllClusters(chains: map<Word, seq<Word>>): set<int> {
    set s, c | s in chains && c in Elements(chains[s]) :: c
  }

  ghost function Allocated(f: seq<Word>): set<int> {
    set c: int | 2 <= c < |f| && (IsUsed(f[c]) || IsLast(f[c]))
  }

  /** The allocated clusters are exactly those of the chains, and there are as many as the chains are long. */
  lemma AllocatedIsSumOfChains(f: seq<Word>, cat: Catalog)
    requires ChainsOk(f, cat)
    ensures AllClusters(cat.chains) == Allocated(f)
    ensures |Allocated(f)| == TotalLength(cat.chains)
  {
    forall c | c in AllClusters(cat.chains) ensures c in Allocated(f) {
      var s :| s in cat.chains && c in Elements(cat.chains[s]);
      var i :| 0 <= i < |cat.chains[s]| && cat.chains[s][i] == c;
      assert LinkOk(f, cat.chains[s], i);
    }
    forall c | c in Allocated(f) ensures c in AllClusters(cat.chains) {
      assert cat.owner[c] in cat.chains && c in Elements(cat.chains[cat.owner[c]]);
    }
    forall s | s in cat.chains ensures Distinct(cat.chains[s]) {
      ChainIsAcyclic(f, s, cat.chains[s]);
    }
    forall s, t | s in cat.chains && t in cat.chains && s != t
      ensures Elements(cat.chains[s]) !! Elements(cat.chains[t]) {
      ChainsAreDisjoint(f, cat, s, t);
    }
    SumOfDisjoint(cat.chains);
  }

  lemma {:induction false} SumOfDisjoint(chains: map<Word, seq<Word>>)
    requires forall s :: s in chains ==> Distinct(chains[s])
    requires forall s, t :: s in chains && t in chains && s != t ==> Elements(chains[s]) !! Elements(chains[t])
    ensures |AllClusters(chains)| == TotalLength(chains)
    decreases |chains|
  {
    if chains == map[] {
      assert AllClusters(chains) == {};
    } else {
      var s :| s in chains && TotalLength(chains) == |chains[s]| + TotalLength(chains - {s});
      var rest := chains - {s};
      assert rest.Keys == chains.Keys - {s};
      assert |rest.Keys| < |chains.Keys|;
      SumOfDisjoint(rest);
      DistinctSize(chains[s]);
      SplitClusters(chains, s);
    }
  }

  lemma SplitClusters(chains: map<Word, seq<Word>>, s: Word)
    requires s in chains
    requires forall t :: t in chains && s != t ==> Elements(chains[s]) !! Elements(chains[t])
    ensures AllClusters(chains) == Elements(chains[s]) + AllClusters(chains - {s})
    ensures Elements(chains[s]) !! AllClusters(chains - {s})
  {
    var rest := chains - {s};
    forall c | c in AllClusters(chains) ensures c in Elements(chains[s]) + AllClusters(rest) {
      var t :| t in chains && c in Elements(chains[t]);
      if t != s {
        assert t in rest && c in Elements(rest[t]);
      }
    }
    forall c | c in AllClusters(rest) ensures c in AllClusters(chains) && c !in Elements(chains[s]) {
      var t :| t in rest && c in Elements(rest[t]);
      assert t in chains && chains[t] == rest[t];
    }
    forall c | c in Elements(chains[s]) ensures c in AllClusters(chains) {
    }
  }

  // ------------------------------------------------------------ a fresh volume

  /** The table of a freshly formatted volume: the root directory has one cluster, everything else is free. */
  function FormattedTable(n: nat, root: Word): (f: seq<Word>)
    ensures |f| == n
  {
    seq(n, i requires i >= 0 => if i < 2 || i == root then END_MARK else 0)
  }

  function FormattedCatalog(root: Word, zeros: Block): Catalog {
    Catalog(map[root := [root]], map[root as int := root], map[root := Entries(zeros)], map[])
  }

  /** Consistent volumes exist: a formatted one is, whatever its size. */
  lemma FormattedIsConsistent(n: nat, root: Word, perCluster: nat, zeros: Block, data: seq<Block>)
    requires 2 <= root < n <= 0xFFF_FFF0 && 3 <= n && perCluster > 0
    requires |zeros| == 32 * perCluster && (forall j :: 0 <= j < |zeros| ==> zeros[j] == 0)
    requires |data| == n && BlocksSized(data, perCluster) && data[root] == zeros
    ensures Consistent(Store(FormattedTable(n, root), data), FormattedCatalog(root, zeros), root, perCluster)
  {
    var f, cat := FormattedTable(n, root), FormattedCatalog(root, zeros);
    assert LinkOk(f, [root], 0);
    assert data == data[root := zeros];
    NewDirBytes(data, root, zeros);
  }
}
