/**
 Directories as bytes: 32-byte entries, the fields the driver reads and writes, and
 what patching one entry in one cluster does to the whole directory.  Field offsets
 follow the section "FAT Directory Structure" of Microsoft's FAT specification,
 version 1.03.
 */
module Directory {
  import opened Machine
  import opened Names
  import opened ChainStore

  type Entry = e: seq<Byte> | |e| == 32 witness seq(32, _ => 0)

  // ------------------------------------------------------------- fields

  predicate Unused(e: Entry) { e[0] == 0 || e[0] == 0xE5 }

  /** Entries the look-up for writing considers: in use, no attribute bit among the low four. */
  predicate Live(e: Entry) { !Unused(e) && e[11] % 16 == 0 }

  /** Entries the look-up for reading considers: in use, neither a volume label nor part of a long name. */
  predicate Named(e: Entry) { !Unused(e) && e[11] / 8 % 2 == 0 }

  lemma LiveIsNamed(e: Entry)
    requires Live(e)
    ensures Named(e)
  {
  }

  predicate IsDir(e: Entry) { e[11] / 16 % 2 == 1 }

  function Raw(e: Entry): seq<Byte> { e[..11] }

  /** The fields at their places: start cluster in bytes 26, 27, 20, 21, size in 28 to 31, attributes in 11. */
  lemma EntryFields(e: Entry)
    ensures var s: int := StartOf(e);
      && s % 0x100 == e[26] && s / 0x100 % 0x100 == e[27] && s / 0x1_0000 % 0x100 == e[20] && s / 0x100_0000 == e[21]
    ensures var n: int := SizeOf(e);
      && n % 0x100 == e[28] && n / 0x100 % 0x100 == e[29] && n / 0x1_0000 % 0x100 == e[30] && n / 0x100_0000 == e[31]
    ensures Unused(e) <==> e[0] == 0 || e[0] == 0xE5
    ensures Live(e) <==> e[0] != 0 && e[0] != 0xE5 && e[11] % 16 == 0
    ensures Named(e) <==> e[0] != 0 && e[0] != 0xE5 && e[11] / 8 % 2 == 0
    ensures IsDir(e) <==> e[11] / 16 % 2 == 1
  {
    Le32Value(e[26], e[27], e[20], e[21]);
    Le32Value(e[28], e[29], e[30], e[31]);
  }

  /** hi_start << 16 | lo_start, both stored low byte first. */
  function StartOf(e: Entry): Word {
    Le32(e[26], e[27], e[20], e[21])
  }

  function SizeOf(e: Entry): Word {
    Le32(e[28], e[29], e[30], e[31])
  }

  function WithStart(e: Entry, s: Word): (r: Entry)
    ensures StartOf(r) == s && SizeOf(r) == SizeOf(e) && r[..12] == e[..12]
    ensures r[..20] == e[..20] && r[22..26] == e[22..26] && r[28..] == e[28..]
  {
    Le32OfBytes(s);
    e[26 := ByteAt(s, 0)][27 := ByteAt(s, 1)][20 := ByteAt(s, 2)][21 := ByteAt(s, 3)]
  }

  function WithSize(e: Entry, n: Word): (r: Entry)
    ensures SizeOf(r) == n && StartOf(r) == StartOf(e) && r[..12] == e[..12] && r[..28] == e[..28]
  {
    Le32OfBytes(n);
    e[28 := ByteAt(n, 0)][29 := ByteAt(n, 1)][30 := ByteAt(n, 2)][31 := ByteAt(n, 3)]
  }

  /** The entry marked as deleted. */
  function Tombstone(e: Entry): (r: Entry)
    ensures r[0] == 0xE5 && r[1..] == e[1..]
  {
    e[0 := 0xE5]
  }

  // ---------------------------------------------------------- contents

  ghost predicate Sized(bs: seq<Block>, size: nat) {
    forall i :: 0 <= i < |bs| ==> |bs[i]| == size
  }

  lemma {:induction false} FlatLength(bs: seq<Block>, size: nat)
    requires Sized(bs, size)
    ensures |Flat(bs)| == |bs| * size
  {
    if bs != [] {
      FlatLength(bs[..|bs| - 1], size);
      assert (|bs| - 1) * size + size == |bs| * size;
    }
  }

  function Splice(s: seq<Byte>, at: nat, x: seq<Byte>): (r: seq<Byte>)
    requires at + |x| <= |s|
    ensures |r| == |s|
  {
    s[..at] + x + s[at + |x|..]
  }

  lemma SpliceLeft(a: seq<Byte>, b: seq<Byte>, at: nat, x: seq<Byte>)
    requires at + |x| <= |a|
    ensures Splice(a + b, at, x) == Splice(a, at, x) + b
  {
  }

  lemma SpliceRight(a: seq<Byte>, b: seq<Byte>, at: nat, x: seq<Byte>)
    requires at + |x| <= |b|
    ensures Splice(a + b, |a| + at, x) == a + Splice(b, at, x)
  {
    assert (a + b)[..|a| + at] == a + b[..at];
    assert (a + b)[|a| + at + |x|..] == b[at + |x|..];
  }

  /** Patching bytes of one block patches the same bytes of the whole. */
  lemma {:induction false} FlatSplice(bs: seq<Block>, size: nat, j: nat, at: nat, x: seq<Byte>)
    requires Sized(bs, size) && j < |bs| && at + |x| <= size
    ensures |Flat(bs)| == |bs| * size && j * size + at + |x| <= |Flat(bs)|
    ensures Flat(bs[j := Splice(bs[j], at, x)]) == Splice(Flat(bs), j * size + at, x)
  {
    var n := |bs| - 1;
    var b := Splice(bs[j], at, x);
    var bs' := bs[j := b];
    FlatLength(bs, size);
    FlatLength(bs[..n], size);
    assert n * size + size == |bs| * size;
    if j == n {
      assert bs'[..n] == bs[..n];
      SpliceRight(Flat(bs[..n]), bs[n], at, x);
    } else {
      FlatSplice(bs[..n], size, j, at, x);
      assert bs'[..n] == bs[..n][j := b];
      SpliceLeft(Flat(bs[..n]), bs[n], j * size + at, x);
    }
  }

  /** The entries of a directory read into one buffer. */
  function Entries(buf: seq<Byte>): (es: seq<Entry>)
    ensures |es| == |buf| / 32
  {
    seq(|buf| / 32, i requires 0 <= i < |buf| / 32 => buf[32 * i..32 * i + 32])
  }

  lemma EntriesAt(buf: seq<Byte>, i: nat)
    requires 32 * i + 32 <= |buf|
    ensures Entries(buf)[i] == buf[32 * i..32 * i + 32]
  {
  }

  lemma EntriesSplice(buf: seq<Byte>, idx: nat, e: Entry)
    requires 32 * idx + 32 <= |buf|
    ensures Entries(Splice(buf, 32 * idx, e)) == Entries(buf)[idx := e]
  {
    var b := Splice(buf, 32 * idx, e);
    var l, r := Entries(b), Entries(buf)[idx := e];
    forall i | 0 <= i < |buf| / 32 ensures l[i] == r[i] {
      if i == idx {
        assert b[32 * i..32 * i + 32] == e;
      } else if i < idx {
        assert b[32 * i..32 * i + 32] == buf[32 * i..32 * i + 32];
      } else {
        assert b[32 * i..32 * i + 32] == buf[32 * i..32 * i + 32];
      }
    }
  }

  /** The directory stored along a chain. */
  ghost function DirEntries(data: seq<Block>, ch: seq<Word>): seq<Entry>
    requires Within(ch, |data|)
  {
    Entries(Flat(Blocks(data, ch)))
  }

  /** Position of entry `idx`: cluster `idx / perCluster` of the chain, entry `idx % perCluster` of it. */
  lemma EntryPosition(idx: nat, perCluster: nat, n: nat)
    requires perCluster > 0 && idx < n * perCluster
    ensures idx / perCluster < n
    ensures 32 * (idx % perCluster) + 32 <= 32 * perCluster
    ensures idx / perCluster * (32 * perCluster) + 32 * (idx % perCluster) == 32 * idx
  {
    var q, r := idx / perCluster, idx % perCluster;
    assert idx == q * perCluster + r;
    if q >= n {
      MulMono(n, q, perCluster);
    }
    assert q * (32 * perCluster) == 32 * (q * perCluster);
  }

  lemma MulMono(a: nat, b: nat, m: nat)
    requires a <= b
    ensures a * m <= b * m
  {
  }

  lemma DirLength(data: seq<Block>, ch: seq<Word>, perCluster: nat)
    requires Within(ch, |data|) && Sized(Blocks(data, ch), 32 * perCluster)
    ensures |Flat(Blocks(data, ch))| == 32 * (|ch| * perCluster)
    ensures |DirEntries(data, ch)| == |ch| * perCluster
  {
    FlatLength(Blocks(data, ch), 32 * perCluster);
    assert |ch| * (32 * perCluster) == 32 * (|ch| * perCluster);
  }

  /** Rewriting one entry inside its cluster replaces that entry of the directory and no other. */
  lemma PatchEntry(data: seq<Block>, ch: seq<Word>, perCluster: nat, idx: nat, e: Entry)
    requires Within(ch, |data|) && FatTable.Distinct(ch) && Sized(Blocks(data, ch), 32 * perCluster)
    requires perCluster > 0 && idx < |ch| * perCluster
    ensures idx / perCluster < |ch|
    ensures var c := ch[idx / perCluster];
            && |DirEntries(data, ch)| == |ch| * perCluster
            && |data[c]| == 32 * perCluster && 32 * (idx % perCluster) + 32 <= |data[c]|
            && DirEntries(data[c := Splice(data[c], 32 * (idx % perCluster), e)], ch) == DirEntries(data, ch)[idx := e]
  {
    EntryPosition(idx, perCluster, |ch|);
    DirLength(data, ch, perCluster);
    var j, at := idx / perCluster, 32 * (idx % perCluster);
    var c := ch[j];
    var bs := Blocks(data, ch);
    var b := Splice(data[c], at, e);
    assert bs[j] == data[c];
    assert Blocks(data[c := b], ch) == bs[j := b];
    FlatSplice(bs, 32 * perCluster, j, at, e);
    EntriesSplice(Flat(bs), idx, e);
  }

  /** The cluster and the offset in it where entry `idx` is stored, for every new value of the entry. */
  lemma EntryCluster(data: seq<Block>, ch: seq<Word>, perCluster: nat, idx: nat) returns (c: Word, at: nat)
    requires Within(ch, |data|) && FatTable.Distinct(ch) && Sized(Blocks(data, ch), 32 * perCluster)
    requires perCluster > 0 && idx < |DirEntries(data, ch)|
    ensures idx / perCluster < |ch| && c == ch[idx / perCluster]
            && at == 32 * (idx % perCluster) && at + 32 <= |data[c]|
    ensures forall e: Entry :: DirEntries(data[c := Splice(data[c], at, e)], ch) == DirEntries(data, ch)[idx := e]
  {
    DirLength(data, ch, perCluster);
    EntryPosition(idx, perCluster, |ch|);
    c, at := ch[idx / perCluster], 32 * (idx % perCluster);
    assert data[c] == Blocks(data, ch)[idx / perCluster];
    forall e: Entry ensures DirEntries(data[c := Splice(data[c], at, e)], ch) == DirEntries(data, ch)[idx := e] {
      PatchEntry(data, ch, perCluster, idx, e);
    }
  }

  // ------------------------------------------------ well-formed directories

  ghost predicate LegalKeys(es: seq<Entry>) {
    forall i :: 0 <= i < |es| && Named(es[i]) ==> LegalKey(Raw(es[i]))
  }

  ghost predicate PrintableKeys(es: seq<Entry>) {
    forall i :: 0 <= i < |es| && Named(es[i]) ==> Printable(Raw(es[i]))
  }

  lemma LegalArePrintable(es: seq<Entry>)
    requires LegalKeys(es)
    ensures PrintableKeys(es)
  {
    forall i | 0 <= i < |es| && Named(es[i]) ensures Printable(Raw(es[i])) { LegalIsPrintable(Raw(es[i])); }
  }

  ghost predicate DistinctKeys(es: seq<Entry>) {
    forall i, j :: 0 <= i < j < |es| && Named(es[i]) && Named(es[j]) ==> Raw(es[i]) != Raw(es[j])
  }

  ghost predicate Terminated(es: seq<Entry>) {
    forall i, j :: 0 <= i < j < |es| && es[i][0] == 0 ==> Unused(es[j])
  }

  /** No two named entries share a key, keys are legal, and nothing is in use behind an end entry. */
  ghost predicate DirOk(es: seq<Entry>) {
    LegalKeys(es) && DistinctKeys(es) && Terminated(es)
  }

  predicate EntryMatches(e: Entry, n: seq<Byte>) {
    Live(e) && NameMatches(Printed(Raw(e)), n)
  }

  /** Index of the first entry that the look-up for writing accepts, or -1. */
  function Lookup(es: seq<Entry>, n: seq<Byte>, from: nat): (i: int)
    requires from <= |es|
    ensures i == -1 || from <= i < |es|
    ensures i >= 0 ==> EntryMatches(es[i], n)
    ensures forall j :: from <= j < (if i < 0 then |es| else i) ==> !EntryMatches(es[j], n)
    decreases |es| - from
  {
    if from == |es| then -1 else if EntryMatches(es[from], n) then from else Lookup(es, n, from + 1)
  }

  method FindDirent(es: seq<Entry>, n: seq<Byte>) returns (idx: int)
    requires PrintableKeys(es) && 0 !in n
    ensures idx == Lookup(es, n, 0)
  {
    var i := 0;
    while i < |es|
      invariant i <= |es|
      invariant Lookup(es, n, i) == Lookup(es, n, 0)
    {
      if Live(es[i]) {
        assert Named(es[i]);
        var tmp, len, _ := FormatName(Raw(es[i]));
        PrintedHasNoNul(Raw(es[i]));
        var same := CompareName(tmp, len, n);
        if same {
          return i;
        }
      }
      i := i + 1;
    }
    return -1;
  }

  lemma PrintedHasNoNul(raw: seq<Byte>)
    requires Printable(raw)
    ensures 0 !in Printed(raw)
  {
  }

  /** Index of the first live entry with the given 11 bytes, or -1. */
  function FirstByKey(es: seq<Entry>, key: seq<Byte>, from: nat): int
    requires from <= |es|
    decreases |es| - from
  {
    if from == |es| then -1 else if Live(es[from]) && Raw(es[from]) == key then from else FirstByKey(es, key, from + 1)
  }

  /** Looking up a valid name by its printed form finds the first live entry whose raw name is the key. */
  lemma {:induction false} LookupIsFirstByKey(es: seq<Entry>, n: seq<Byte>, from: nat)
    requires LegalKeys(es) && ValidName(n) && from <= |es|
    ensures Lookup(es, n, from) == FirstByKey(es, Key(n), from)
    decreases |es| - from
  {
    if from < |es| {
      LookupIsFirstByKey(es, n, from + 1);
      if Live(es[from]) {
        LiveIsNamed(es[from]);
        MatchesByKey(es[from], n);
      }
    }
  }

  /** For a valid name the look-up finds the one named entry with that key. */
  lemma LookupFindsKey(es: seq<Entry>, n: seq<Byte>, i: nat)
    requires DirOk(es) && ValidName(n) && Lookup(es, n, 0) == i
    ensures Live(es[i]) && Named(es[i]) && Raw(es[i]) == Key(n)
    ensures forall j :: 0 <= j < |es| && Named(es[j]) && j != i ==> Raw(es[j]) != Key(n)
  {
    FoundHasKey(es, n, i);
    OthersDiffer(es, i, Key(n));
  }

  lemma FoundHasKey(es: seq<Entry>, n: seq<Byte>, i: nat)
    requires LegalKeys(es) && ValidName(n) && Lookup(es, n, 0) == i
    ensures Live(es[i]) && Named(es[i]) && Raw(es[i]) == Key(n)
  {
    var e := es[i];
    assert EntryMatches(e, n) && Named(e);
    MatchesByKey(e, n);
  }

  lemma OthersDiffer(es: seq<Entry>, i: nat, key: seq<Byte>)
    requires DistinctKeys(es) && i < |es| && Named(es[i]) && Raw(es[i]) == key
    ensures forall j :: 0 <= j < |es| && Named(es[j]) && j != i ==> Raw(es[j]) != key
  {
  }

  lemma MatchesByKey(e: Entry, n: seq<Byte>)
    requires Live(e) && LegalKey(Raw(e)) && ValidName(n)
    ensures Named(e) && (EntryMatches(e, n) <==> Raw(e) == Key(n))
  {
    MatchIsKeyEquality(Raw(e), n);
  }

  /** Index that `fat32_read` uses: the first named entry whose printed form is the name, else 0. */
  function ReadLookup(es: seq<Entry>, n: seq<Byte>, from: nat): (i: nat)
    requires from <= |es|
    ensures i == 0 || i < |es|
    decreases |es| - from
  {
    if from == |es| then 0
    else if Named(es[from]) && Printed(Raw(es[from])) == n then from
    else ReadLookup(es, n, from + 1)
  }

  predicate Hit(e: Entry, n: seq<Byte>) { Named(e) && Printed(Raw(e)) == n }

  /** The search loop of `fat32_read`. */
  method FindForRead(es: seq<Entry>, n: seq<Byte>) returns (idx: nat)
    requires PrintableKeys(es)
    ensures idx == ReadLookup(es, n, 0)
    ensures (exists j :: 0 <= j < |es| && Hit(es[j], n)) ==> idx < |es| && Hit(es[idx], n)
    ensures if idx < |es| && Hit(es[idx], n) then forall j :: 0 <= j < idx ==> !Hit(es[j], n) else idx == 0
  {
    var i := 0;
    while i < |es|
      invariant i <= |es| && forall j :: 0 <= j < i ==> !Hit(es[j], n)
      invariant ReadLookup(es, n, i) == ReadLookup(es, n, 0)
    {
      if Named(es[i]) {
        var tmp, len, _ := FormatName(Raw(es[i]));
        if tmp[..len] == n {
          return i;
        }
      }
      i := i + 1;
    }
    return 0;
  }

  lemma {:induction false} ReadLookupFinds(es: seq<Entry>, n: seq<Byte>, from: nat, i: nat)
    requires from <= i < |es| && Named(es[i]) && Printed(Raw(es[i])) == n
    requires forall j :: 0 <= j < |es| && Named(es[j]) && Printed(Raw(es[j])) == n ==> j == i
    ensures ReadLookup(es, n, from) == i
    decreases i - from
  {
    if from < i {
      ReadLookupFinds(es, n, from + 1, i);
    }
  }

  /** Reading and writing a dotted name that exists use the same entry. */
  lemma LookupsAgree(es: seq<Entry>, n: seq<Byte>)
    requires DirOk(es) && ValidName(n) && DOT in n && Lookup(es, n, 0) >= 0
    ensures ReadLookup(es, n, 0) == Lookup(es, n, 0)
  {
    var i := Lookup(es, n, 0);
    LookupFindsKey(es, n, i);
    forall j | 0 <= j < |es| && Named(es[j]) ensures Printed(Raw(es[j])) == n <==> Raw(es[j]) == Key(n) {
      ReadMatchIsKeyEquality(Raw(es[j]), n);
    }
    ReadLookupFinds(es, n, 0, i);
  }

  // ------------------------------------------------------------ new entries

  /** Index of the first unused entry, or the length. */
  function FirstUnused(es: seq<Entry>, from: nat): (i: nat)
    requires from <= |es|
    ensures from <= i <= |es| && (i < |es| ==> Unused(es[i]))
    ensures forall j :: from <= j < i ==> !Unused(es[j])
    decreases |es| - from
  {
    if from == |es| || Unused(es[from]) then from else FirstUnused(es, from + 1)
  }

  /** The search for a slot in `fat32_create`; `end` says that the slot was the end of the directory. */
  method FindSlot(es: seq<Entry>) returns (i: nat, end: bool)
    ensures i == FirstUnused(es, 0) && (i < |es| ==> end == (es[i][0] == 0))
    ensures i <= |es| && (i < |es| ==> es[i][0] == 0 || es[i][0] == 0xE5)
    ensures forall j :: 0 <= j < i ==> es[j][0] != 0 && es[j][0] != 0xE5
  {
    i, end := 0, false;
    while i < |es|
      invariant i <= |es| && !end && FirstUnused(es, i) == FirstUnused(es, 0)
    {
      if es[i][0] == 0xE5 {
        return;
      }
      if es[i][0] == 0 {
        end := true;
        return;
      }
      i := i + 1;
    }
  }

  /** Name, attributes, start cluster and size of a new entry, over the bytes the slot had. */
  method FillEntry(slot: Entry, name: seq<Byte>, attr: Byte, start: Word, size: Word) returns (e: Entry)
    requires ValidName(name)
    ensures Raw(e) == Key(name) && e[0] == Key(name)[0] && e[11] == attr && StartOf(e) == start && SizeOf(e) == size
  {
    var d := new Byte[32](j requires 0 <= j < 32 => slot[j]);
    SetName(d, name);
    d[11] := attr;
    var filled: Entry := d[..];
    assert filled[..11] == Key(name) && filled[0] == filled[..11][0];
    e := WithSize(WithStart(filled, start), size);
    SameHeadBytes(e, filled);
  }

  lemma SameHeadBytes(e: Entry, x: Entry)
    requires e[..12] == x[..12]
    ensures Raw(e) == Raw(x) && e[0] == x[0] && e[11] == x[11]
  {
    assert e[0] == e[..12][0] == x[..12][0] && e[11] == e[..12][11] == x[..12][11];
    assert Raw(e) == e[..12][..11] == x[..12][..11];
  }

  /** The entry as an end mark. */
  function EndMark(e: Entry): (r: Entry)
    ensures r[0] == 0 && Unused(r) && r[1..] == e[1..]
  {
    e[0 := 0]
  }

  /** The directory with a new entry in slot `i` and, when the slot was the end, the end mark behind it. */
  function WithNew(es: seq<Entry>, i: nat, e: Entry, end: bool): (r: seq<Entry>)
    requires i < |es| && (end ==> i + 1 < |es|)
    ensures |r| == |es|
  {
    var added: seq<Entry> := es[i := e];
    if end then added[i + 1 := EndMark(es[i + 1])] else added
  }

  /** The look-up finds an entry by its key. */
  lemma LookupFindsEntry(es: seq<Entry>, n: seq<Byte>, i: nat)
    requires DirOk(es) && ValidName(n) && i < |es| && Live(es[i]) && Raw(es[i]) == Key(n)
    ensures Lookup(es, n, 0) == i
  {
    LiveIsNamed(es[i]);
    MatchesByKey(es[i], n);
    FoundHasKey(es, n, Lookup(es, n, 0));
  }
}
