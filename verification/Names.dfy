/**
 File names: validation, the padded 11-byte key of a directory entry, its printed
 form, the comparison that looks a printed form up, and the names of chunks.
 Strings are their bytes, without the terminating NUL.
 */
module Names {
  import opened Machine

  const DOT: Byte := 46
  const SPACE: Byte := 32

  /** 'A' to 'Z' or '0' to '9'. */
  predicate NameChar(b: Byte) {
    65 <= b <= 90 || 48 <= b <= 57
  }

  /** The names the driver accepts: 1 to 8 characters, or a base of 1 to 8 and an extension of exactly 3. */
  predicate ValidName(n: seq<Byte>) {
    if DOT in n then
      5 <= |n| <= 12 && n[|n| - 4] == DOT && forall i :: 0 <= i < |n| && i != |n| - 4 ==> NameChar(n[i])
    else
      1 <= |n| <= 8 && forall i :: 0 <= i < |n| ==> NameChar(n[i])
  }

  method HasDot(n: seq<Byte>) returns (dot: bool)
    ensures dot <==> DOT in n
  {
    dot := false;
    for i := 0 to |n|
      invariant dot <==> DOT in n[..i]
    {
      if n[i] == DOT {
        dot := true;
      }
    }
    assert n[..|n|] == n;
  }

  method IsValidName(n: seq<Byte>) returns (ok: bool)
    ensures ok <==> ValidName(n)
  {
    var dot := HasDot(n);
    if dot {
      if |n| > 12 || |n| < 5 || n[|n| - 4] != DOT {
        return false;
      }
      for i := 0 to |n|
        invariant forall j :: 0 <= j < i && j != |n| - 4 ==> NameChar(n[j])
      {
        if !NameChar(n[i]) && i != |n| - 4 {
          return false;
        }
      }
    } else {
      if |n| > 8 || |n| < 1 {
        return false;
      }
      for i := 0 to |n|
        invariant forall j :: 0 <= j < i ==> NameChar(n[j])
      {
        if !NameChar(n[i]) {
          return false;
        }
      }
    }
    return true;
  }

  /** Upper-case letters and digits by code. */
  predicate Plain(b: Byte) { 48 <= b <= 57 || 65 <= b <= 90 }

  /** The names by code and length: a base of one to eight, and a dot and three more or nothing. */
  lemma ValidNameMeans(n: seq<Byte>)
    ensures ValidName(n) <==>
      || (1 <= |n| <= 8 && forall i :: 0 <= i < |n| ==> Plain(n[i]))
      || (5 <= |n| <= 12 && n[|n| - 4] == 46 && forall i :: 0 <= i < |n| && i != |n| - 4 ==> Plain(n[i]))
  {
    if 5 <= |n| <= 12 && n[|n| - 4] == 46 { assert DOT in n; }
    if DOT in n {
      var d :| 0 <= d < |n| && n[d] == DOT;
      assert !Plain(n[d]);
    }
    forall i | 0 <= i < |n| ensures Plain(n[i]) <==> NameChar(n[i]) {}
  }

  /** The key byte by byte. */
  lemma KeyBytes(n: seq<Byte>)
    requires ValidName(n)
    ensures var b := if 46 in n then |n| - 4 else |n|;
      && 1 <= b <= 8
      && (forall i :: 0 <= i < 8 ==> Key(n)[i] == if i < b then n[i] else 32)
      && Key(n)[8..] == if 46 in n then n[b + 1..] else [32, 32, 32]
  {
  }

  function Spaces(n: nat): (s: seq<Byte>)
    ensures |s| == n && forall i :: 0 <= i < n ==> s[i] == SPACE
  {
    seq(n, _ => SPACE)
  }

  /** The 11-byte key of a name: base padded to 8 bytes, extension padded to 3. */
  function Key(n: seq<Byte>): (k: seq<Byte>)
    requires ValidName(n)
    ensures |k| == 11
  {
    if DOT in n then n[..|n| - 4] + Spaces(12 - |n|) + n[|n| - 3..] else n + Spaces(11 - |n|)
  }

  /** Fills the name field of a directory entry in place. */
  method SetName(d: array<Byte>, n: seq<Byte>)
    requires d.Length == 32 && ValidName(n)
    modifies d
    ensures d[..11] == Key(n)
    ensures d[11..] == old(d[11..])
  {
    var dot := HasDot(n);
    forall i | 0 <= i < 11 { d[i] := SPACE; }
    if dot {
      forall i | 0 <= i < |n| - 4 { d[i] := n[i]; }
      forall i | 0 <= i < 3 { d[8 + i] := n[|n| - 3 + i]; }
    } else {
      forall i | 0 <= i < |n| { d[i] := n[i]; }
    }
  }

  /** Length of the first `i` bytes without trailing spaces. */
  function TrimLen(raw: seq<Byte>, i: nat): (t: nat)
    requires i <= |raw|
    ensures t <= i
    ensures t > 0 ==> raw[t - 1] != SPACE
    ensures forall j :: t <= j < i ==> raw[j] == SPACE
  {
    if i == 0 || raw[i - 1] != SPACE then i else TrimLen(raw, i - 1)
  }

  /** The printed form: trimmed base, a dot, and all three extension bytes. */
  function Printed(raw: seq<Byte>): (s: seq<Byte>)
    requires |raw| == 11
  {
    raw[..TrimLen(raw, 8)] + [DOT] + raw[8..]
  }

  /**
   The printed form, built in a 14-byte buffer; the returned length excludes the NUL.  If the base is all
   spaces, the dot goes to the byte in front of the buffer, and the buffer gets the extension only.
   */
  method FormatName(raw: seq<Byte>) returns (s: array<Byte>, len: nat, inFront: bool)
    requires |raw| == 11
    ensures fresh(s) && s.Length == 14 && len < 14 && s[len] == 0
    ensures inFront <==> raw[..8] == Spaces(8)
    ensures s[..len] == if inFront then raw[8..] else Printed(raw)
  {
    s := new Byte[14];
    forall j | 0 <= j < 8 { s[j] := raw[j]; }
    var i := 7;
    while i >= 0
      invariant -1 <= i <= 7
      invariant s[..8] == raw[..8]
      invariant TrimLen(raw, i + 1) == TrimLen(raw, 8)
    {
      if s[i] != SPACE {
        i := i + 1;
        break;
      }
      i := i - 1;
    }
    inFront := i < 0;
    AllSpaces(raw);
    if !inFront {
      assert i == TrimLen(raw, 8) && s[..i] == raw[..i];
      s[i] := DOT;
    }
    i := i + 1;
    s[i], s[i + 1], s[i + 2] := raw[8], raw[9], raw[10];
    i := i + 3;
    s[i] := 0;
    len := i;
    assert s[..len] == if inFront then raw[8..] else Printed(raw);
  }

  lemma AllSpaces(raw: seq<Byte>)
    requires |raw| == 11
    ensures raw[..8] == Spaces(8) <==> TrimLen(raw, 8) == 0
  {
    var t := TrimLen(raw, 8);
    if t > 0 { assert raw[..8][t - 1] != SPACE; }
  }

  /** The printed form byte by byte. */
  lemma PrintedBytes(raw: seq<Byte>)
    requires |raw| == 11
    ensures var t := |Printed(raw)| - 4;
      && 0 <= t <= 8 && Printed(raw)[..t] == raw[..t] && Printed(raw)[t] == 46 && Printed(raw)[t + 1..] == raw[8..]
      && (t > 0 ==> raw[t - 1] != 32) && (forall i :: t <= i < 8 ==> raw[i] == 32)
  {
  }

  /** Printing the key of a name gives the name back; without an extension a dot and padding follow. */
  lemma PrintedKey(n: seq<Byte>)
    requires ValidName(n)
    ensures Printed(Key(n)) == if DOT in n then n else n + [DOT] + Spaces(3)
  {
    var k := Key(n);
    var b := if DOT in n then |n| - 4 else |n|;
    assert k[b - 1] == n[b - 1];
    assert forall j :: b <= j < 8 ==> k[j] == SPACE;
    assert TrimLen(k, 8) == b;
    assert k[..b] == n[..b];
    if DOT in n {
      assert k[8..] == n[|n| - 3..];
      assert n == n[..b] + [DOT] + n[|n| - 3..];
    }
  }

  /** Different names have different keys. */
  lemma KeysAreDistinct(a: seq<Byte>, b: seq<Byte>)
    requires ValidName(a) && ValidName(b) && Key(a) == Key(b)
    ensures a == b
  {
    PrintedKey(a);
    PrintedKey(b);
    assert Key(a)[10] == SPACE <==> DOT !in a;
    assert Key(b)[10] == SPACE <==> DOT !in b;
    if DOT !in a {
      assert Printed(Key(a))[..|a|] == a;
      assert |a| == |b|;
      assert Printed(Key(b))[..|b|] == b;
    }
  }

  // ------------------------------------------------------------- look-up

  /** Keys as the FAT specification allows them: no dot or NUL, no leading space, extension left-justified. */
  predicate LegalKey(raw: seq<Byte>) {
    && |raw| == 11 && raw[0] != SPACE && DOT !in raw && 0 !in raw
    && (raw[8] == SPACE ==> raw[9] == SPACE && raw[10] == SPACE)
  }

  /** A key that prints as a string: its base is not all spaces, and it has no NUL. */
  ghost predicate Printable(raw: seq<Byte>) { |raw| == 11 && raw[..8] != Spaces(8) && 0 !in raw }

  lemma LegalIsPrintable(raw: seq<Byte>)
    requires LegalKey(raw)
    ensures Printable(raw)
  {
    assert raw[..8][0] != SPACE;
  }

  lemma KeyIsLegal(n: seq<Byte>)
    requires ValidName(n)
    ensures LegalKey(Key(n)) && NameChar(Key(n)[0])
  {
    var k := Key(n);
    assert k[0] == n[0];
    forall i | 0 <= i < 11 ensures k[i] == SPACE || NameChar(k[i]) {
      if DOT in n && i >= 8 {
        assert k[i] == n[|n| - 11 + i];
      }
    }
  }

  /** The comparison of a printed form `tmp` with a file name, as the look-up for writing makes it. */
  predicate NameMatches(tmp: seq<Byte>, n: seq<Byte>) {
    n <= tmp &&
    if DOT in n then |n| == |tmp| || tmp[|n|] == SPACE || |n| == 11
    else |n| >= 10 || (|n| < |tmp| && tmp[|n|] == DOT && (|n| + 1 == |tmp| || tmp[|n| + 1] == SPACE))
  }

  /** That comparison as the scanning loop performs it; `tmp[..len]` is NUL-free and `tmp[len]` is NUL. */
  method CompareName(tmp: array<Byte>, len: nat, n: seq<Byte>) returns (same: bool)
    requires len < tmp.Length && tmp[len] == 0 && 0 !in tmp[..len] && 0 !in n
    ensures same <==> NameMatches(tmp[..len], n)
  {
    var idx, dot := 0, false;
    while idx < |n|
      invariant idx <= |n| && idx <= len && n[..idx] == tmp[..idx]
      invariant dot <==> DOT in n[..idx]
    {
      if n[idx] == DOT {
        dot := true;
      }
      if n[idx] != tmp[idx] {
        assert n[idx] in n;
        assert idx < len ==> tmp[..len][idx] != n[idx];
        return false;
      }
      assert n[idx] in n;
      idx := idx + 1;
    }
    assert n[..idx] == n && tmp[..len][..idx] == tmp[..idx];
    if idx < len {
      assert tmp[..len][idx] in tmp[..len];
    }
    if dot {
      return tmp[idx] == SPACE || tmp[idx] == 0 || idx == 11;
    } else {
      return idx >= 10 || (tmp[idx] == DOT && (tmp[idx + 1] == SPACE || tmp[idx + 1] == 0));
    }
  }

  /** The look-up for writing is equality of keys. */
  lemma MatchIsKeyEquality(raw: seq<Byte>, n: seq<Byte>)
    requires LegalKey(raw) && ValidName(n)
    ensures NameMatches(Printed(raw), n) <==> raw == Key(n)
  {
    if raw == Key(n) {
      KeyGivesMatch(n);
    }
    if NameMatches(Printed(raw), n) {
      MatchGivesKey(raw, n);
    }
  }

  lemma KeyGivesMatch(n: seq<Byte>)
    requires ValidName(n)
    ensures NameMatches(Printed(Key(n)), n)
  {
    PrintedKey(n);
    var tmp := Printed(Key(n));
    if DOT !in n {
      assert tmp[|n|] == DOT && tmp[|n| + 1] == SPACE;
    }
  }

  lemma MatchGivesKey(raw: seq<Byte>, n: seq<Byte>)
    requires LegalKey(raw) && ValidName(n) && NameMatches(Printed(raw), n)
    ensures raw == Key(n)
  {
    if DOT in n {
      DottedMatch(raw, n);
    } else {
      PlainMatch(raw, n);
    }
  }

  lemma DottedMatch(raw: seq<Byte>, n: seq<Byte>)
    requires LegalKey(raw) && ValidName(n) && DOT in n && n <= Printed(raw)
    ensures raw == Key(n)
  {
    var b, tmp := |n| - 4, Printed(raw);
    FirstDot(raw);
    assert tmp[b] == n[b] == DOT;
    assert TrimLen(raw, 8) == b;
    SameBase(raw, n, b);
    assert raw[8] == tmp[b + 1] == n[b + 1];
    assert raw[9] == tmp[b + 2] == n[b + 2];
    assert raw[10] == tmp[b + 3] == n[b + 3];
    assert raw[8..] == n[|n| - 3..];
    assert raw == raw[..8] + raw[8..];
  }

  lemma PlainMatch(raw: seq<Byte>, n: seq<Byte>)
    requires LegalKey(raw) && ValidName(n) && DOT !in n && NameMatches(Printed(raw), n)
    ensures raw == Key(n)
  {
    var b, tmp := |n|, Printed(raw);
    FirstDot(raw);
    assert tmp[b] == DOT;
    assert forall i :: 0 <= i < b ==> tmp[i] == n[i] != DOT;
    assert TrimLen(raw, 8) == b;
    SameBase(raw, n, b);
    assert raw[8] == tmp[b + 1] == SPACE;
    assert raw[8..] == Spaces(3);
    assert raw == raw[..8] + raw[8..];
  }

  /** The dot of a printed form stands behind the trimmed base and nowhere else. */
  lemma FirstDot(raw: seq<Byte>)
    requires LegalKey(raw)
    ensures var t := TrimLen(raw, 8);
            |Printed(raw)| == t + 4 && forall i :: 0 <= i < t + 4 ==> (Printed(raw)[i] == DOT <==> i == t)
  {
    var t := TrimLen(raw, 8);
    forall i | 0 <= i < t + 4 ensures Printed(raw)[i] == DOT <==> i == t {
      if i != t {
        assert Printed(raw)[i] == raw[if i < t then i else i - t + 7];
      }
    }
  }

  lemma SameBase(raw: seq<Byte>, n: seq<Byte>, b: nat)
    requires |raw| == 11 && TrimLen(raw, 8) == b <= |n| && b <= 8 && n[..b] == Printed(raw)[..b]
    ensures raw[..8] == n[..b] + Spaces(8 - b)
  {
    assert Printed(raw)[..b] == raw[..b];
  }

  /** The look-up for reading compares whole strings: key equality for dotted names, never for others. */
  lemma ReadMatchIsKeyEquality(raw: seq<Byte>, n: seq<Byte>)
    requires LegalKey(raw) && ValidName(n)
    ensures Printed(raw) == n <==> (DOT in n && raw == Key(n))
  {
    if DOT in n {
      MatchIsKeyEquality(raw, n);
      PrintedKey(n);
    } else {
      assert Printed(raw)[TrimLen(raw, 8)] == DOT;
    }
  }

  // ---------------------------------------------------------- chunk names

  /** Decimal digits, least significant first; none for 0. */
  function Digits(n: nat): (s: seq<Byte>)
    ensures forall i :: 0 <= i < |s| ==> 48 <= s[i] <= 57
  {
    if n == 0 then [] else [48 + n % 10] + Digits(n / 10)
  }

  function ChunkName(n: nat): (s: seq<Byte>) {
    Digits(n) + [DOT, 84, 88, 84]
  }

  function DirName(n: nat): (s: seq<Byte>) {
    Digits(n)
  }

  /** `int_to_filename`: digits are stored in reverse in a 32-byte buffer. */
  method IntToFilename(n: Word, isDir: bool) returns (res: array<Byte>, len: nat)
    ensures fresh(res) && res.Length == 32 && len < 32 && res[len] == 0
    ensures res[..len] == if isDir then DirName(n) else ChunkName(n)
  {
    res := new Byte[32];
    res[0] := 48;
    len := PutDigits(res, n);
    if isDir {
      res[len] := 0;
    } else {
      ghost var ds := res[..len];
      res[len], res[len + 1], res[len + 2], res[len + 3], res[len + 4] := DOT, 84, 88, 84, 0;
      len := len + 4;
      assert res[..len] == ds + [DOT, 84, 88, 84];
    }
  }

  method PutDigits(res: array<Byte>, n: Word) returns (i: nat)
    requires res.Length == 32
    modifies res
    ensures i <= 10 && res[..i] == Digits(n)
  {
    i := 0;
    var rest := n;
    DigitsBound(n, 10, 10_000_000_000);
    while rest > 0
      invariant 0 <= rest && i + |Digits(rest)| == |Digits(n)|
      invariant i <= 10 && res[..i] == Digits(n)[..i] && Digits(rest) == Digits(n)[i..]
      decreases rest
    {
      res[i] := 48 + rest % 10;
      assert Digits(n)[i..][0] == res[i] && Digits(n)[i..][1..] == Digits(n)[i + 1..];
      i := i + 1;
      rest := rest / 10;
    }
  }

  /** `n` has at most `d` digits exactly when it is below `bound`, the `d`-th power of ten. */
  lemma {:induction false} DigitsBound(n: nat, d: nat, bound: nat)
    requires d <= 10
             && bound == [1, 10, 100, 1000, 10000, 100000, 1000000, 10000000, 100000000, 1000000000, 10000000000][d]
    ensures |Digits(n)| <= d <==> n < bound
    decreases d
  {
    if n > 0 && d > 0 {
      DigitsBound(n / 10, d - 1, bound / 10);
    }
  }

  /** A chunk name is accepted exactly for the ids 1 to 10^8 - 1. */
  lemma ChunkNameValidIff(n: nat)
    ensures ValidName(ChunkName(n)) <==> 1 <= n < 100_000_000
  {
    var s := ChunkName(n);
    assert s[|s| - 4] == DOT;
    DigitsBound(n, 8, 100_000_000);
    assert forall i :: 0 <= i < |Digits(n)| ==> s[i] == Digits(n)[i] && NameChar(s[i]);
    assert s[|s| - 3] == 84 && s[|s| - 2] == 88 && s[|s| - 1] == 84;
  }

  lemma {:induction false} DigitsInjective(a: nat, b: nat)
    requires Digits(a) == Digits(b)
    ensures a == b
  {
    if a > 0 && b > 0 {
      assert Digits(a)[0] == Digits(b)[0] && Digits(a)[1..] == Digits(b)[1..];
      assert Digits(a)[1..] == Digits(a / 10) && Digits(b)[1..] == Digits(b / 10);
      DigitsInjective(a / 10, b / 10);
    }
  }

  /** The number of which these are the decimal digits, least significant first. */
  function ReverseValue(s: seq<Byte>): int { if s == [] then 0 else (s[0] as int - 48) + 10 * ReverseValue(s[1..]) }

  lemma {:induction false} DigitsValue(n: nat)
    ensures ReverseValue(Digits(n)) == n && (n > 0 ==> Digits(n) != [] && Digits(n)[|Digits(n)| - 1] != 48)
  {
    if n > 0 {
      DigitsValue(n / 10);
      assert Digits(n)[1..] == Digits(n / 10);
      assert n / 10 > 0 ==> Digits(n)[|Digits(n)| - 1] == Digits(n / 10)[|Digits(n / 10)| - 1];
    }
  }

  /** A chunk's name: its decimal digits backwards, without superfluous zeros, and .TXT. */
  lemma ChunkNameMeans(n: nat)
    ensures var s := ChunkName(n); var k := |s| - 4;
      && k >= 0 && s[k..] == [46, 84, 88, 84] && (forall i :: 0 <= i < k ==> 48 <= s[i] <= 57)
      && ReverseValue(s[..k]) == n && (n > 0 ==> k > 0 && s[k - 1] != 48) && DirName(n) == s[..k]
  {
    DigitsValue(n);
    var s := ChunkName(n);
    assert s[..|s| - 4] == Digits(n);
  }

  /** Different chunks are stored under different keys. */
  lemma ChunkKeysAreDistinct(a: nat, b: nat)
    requires 1 <= a < 100_000_000 && 1 <= b < 100_000_000 && a != b
    ensures ValidName(ChunkName(a)) && ValidName(ChunkName(b)) && Key(ChunkName(a)) != Key(ChunkName(b))
  {
    ChunkNameValidIff(a);
    ChunkNameValidIff(b);
    if Key(ChunkName(a)) == Key(ChunkName(b)) {
      KeysAreDistinct(ChunkName(a), ChunkName(b));
      var x, y := ChunkName(a), ChunkName(b);
      assert x[..|x| - 4] == Digits(a) && y[..|y| - 4] == Digits(b);
      DigitsInjective(a, b);
    }
  }
}
