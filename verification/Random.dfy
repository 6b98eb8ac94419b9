/**
 * The additive-feedback random generator (libpi/libc/random.c): a circular table of words
 * with a front and a rear index, seeding by a Lehmer generator, and switching between
 * state arrays.
 */
module Random {
  import opened Machine

  const M: int := 2147483647

  function Degree(kind: nat): nat
    requires kind < 5
  {
    if kind == 0 then 0 else if kind == 1 then 7 else if kind == 2 then 15 else if kind == 3 then 31 else 63
  }

  function Separation(kind: nat): nat
    requires kind < 5
  {
    if kind == 0 then 0 else if kind == 1 || kind == 3 then 3 else 1
  }

  lemma Trinomials(kind: nat)
    requires 0 < kind < 5
    ensures 0 < Separation(kind) < Degree(kind) && 7 <= Degree(kind) <= 63
  {
  }

  function Add(a: int, b: int): Word { Wrap(a + b) }

  // ----- the recurrence -----

  /** The last `deg` values, oldest first, and the next one: y[n + deg] = y[n] + y[n + deg - sep] mod 2^32. */
  function Fed(w: seq<Word>, sep: nat): (v: Word)
    requires 0 < sep < |w|
  {
    Add(w[0], w[|w| - sep])
  }

  function Shifted(w: seq<Word>, sep: nat): (r: seq<Word>)
    requires 0 < sep < |w|
    ensures |r| == |w|
  {
    w[1..] + [Fed(w, sep)]
  }

  /** The whole series: the first `deg` values and `n` more. */
  ghost predicate IsSeries(y: seq<Word>, deg: nat, sep: nat) {
    && 0 < sep < deg <= |y|
    && forall n :: 0 <= n < |y| - deg ==> y[n + deg] == Add(y[n], y[n + deg - sep])
  }

  /** The table read from the front index on, around the end. */
  function Window(table: seq<Word>, f: nat): (w: seq<Word>)
    requires f <= |table|
    ensures |w| == |table|
  {
    table[f..] + table[..f]
  }

  /** Front is `sep` ahead of rear, around the end of the table. */
  predicate Apart(f: nat, r: nat, deg: nat, sep: nat) {
    0 < sep < deg && r < deg && f == if r + sep < deg then r + sep else r + sep - deg
  }

  /** Adding the rear word into the front word and moving on is one step of the recurrence. */
  lemma TableStep(table: seq<Word>, f: nat, r: nat, sep: nat)
    requires Apart(f, r, |table|, sep)
    ensures Fed(Window(table, f), sep) == Add(table[f], table[r])
    ensures Window(table[f := Add(table[f], table[r])], if f + 1 == |table| then 0 else f + 1)
         == Shifted(Window(table, f), sep)
  {
    var w, v := Window(table, f), Add(table[f], table[r]);
    assert w[0] == table[f];
    assert w[|table| - sep] == table[r] by { if f < sep { assert |table| - sep < |table[f..]|; } }
    var t := table[f := v];
    assert t[f + 1..] == table[f + 1..] && t[..f + 1] == table[..f] + [v];
    assert w[1..] == table[f + 1..] + table[..f];
    assert f + 1 == |table| ==> Window(t, 0) == Window(t, f + 1);
  }

  // ----- generators as values -----

  /** `kind` 0 is a linear congruential generator with one word of state. */
  datatype Gen = Gen(kind: nat, w: seq<Word>)

  predicate GenOk(g: Gen) { g.kind < 5 && |g.w| == if g.kind == 0 then 1 else Degree(g.kind) }

  function Congruential(x: int): Word { (x * 1103515245 + 12345) % 0x8000_0000 }

  function Advance(g: Gen): (n: Gen)
    requires GenOk(g)
    ensures GenOk(n) && n.kind == g.kind
  {
    if g.kind == 0 then Gen(0, [Congruential(g.w[0])])
    else
      Trinomials(g.kind);
      Gen(g.kind, Shifted(g.w, Separation(g.kind)))
  }

  /** The number drawn by the step that led to `g`: 31 bits. */
  function Output(g: Gen): Word
    requires GenOk(g)
  {
    if g.kind == 0 then g.w[0] else g.w[|g.w| - 1] / 2
  }

  function AdvanceBy(g: Gen, n: nat): (r: Gen)
    requires GenOk(g)
    ensures GenOk(r) && r.kind == g.kind
  {
    if n == 0 then g else Advance(AdvanceBy(g, n - 1))
  }

  /** The first `n` numbers drawn from `g`. */
  function Outputs(g: Gen, n: nat): (out: seq<Word>)
    requires GenOk(g)
    ensures |out| == n
  {
    if n == 0 then [] else Outputs(g, n - 1) + [Output(AdvanceBy(g, n))]
  }

  lemma {:induction false} OutputAt(g: Gen, n: nat, i: nat)
    requires GenOk(g) && i < n
    ensures Outputs(g, n)[i] == Output(AdvanceBy(g, i + 1))
  {
    if i < n - 1 { OutputAt(g, n - 1, i); }
  }

  lemma DrawnStep(g: Gen, cur: Gen, out: seq<Word>, x: Word)
    requires GenOk(g) && cur == AdvanceBy(g, |out|) && out == Outputs(g, |out|) && x == Output(Advance(cur))
    ensures Advance(cur) == AdvanceBy(g, |out + [x]|) && out + [x] == Outputs(g, |out + [x]|)
  {
  }

  /** The first values and `n` more, by the recurrence. */
  function Series(w: seq<Word>, sep: nat, n: nat): (y: seq<Word>)
    requires 0 < sep < |w|
    ensures |y| == |w| + n
  {
    if n == 0 then w
    else
      var p := Series(w, sep, n - 1);
      p + [Add(p[n - 1], p[n - 1 + |w| - sep])]
  }

  lemma {:induction false} SeriesIsSeries(w: seq<Word>, sep: nat, n: nat)
    requires 0 < sep < |w|
    ensures IsSeries(Series(w, sep, n), |w|, sep) && Series(w, sep, n)[..|w|] == w
  {
    if n > 0 { SeriesIsSeries(w, sep, n - 1); }
  }

  lemma {:induction false} SeriesPrefix(w: seq<Word>, sep: nat, i: nat, n: nat)
    requires 0 < sep < |w| && i <= n
    ensures Series(w, sep, n)[..|w| + i] == Series(w, sep, i)
  {
    if i < n { SeriesPrefix(w, sep, i, n - 1); }
  }

  lemma ShiftedTail(p: seq<Word>, d: nat, sep: nat, n: nat)
    requires 0 < sep < d && |p| == d + n
    ensures Shifted(p[n..], sep) == (p + [Add(p[n], p[n + d - sep])])[n + 1..]
  {
    var w := p[n..];
    assert w[0] == p[n] && w[d - sep] == p[n + d - sep] && w[1..] == p[n + 1..];
  }

  /** The state after `n` steps is the end of the series. */
  lemma {:induction false} StepsFollowTheSeries(g: Gen, n: nat)
    requires GenOk(g) && g.kind != 0
    ensures 0 < Separation(g.kind) < |g.w| && AdvanceBy(g, n).w == Series(g.w, Separation(g.kind), n)[n..]
  {
    Trinomials(g.kind);
    if n > 0 {
      StepsFollowTheSeries(g, n - 1);
      ShiftedTail(Series(g.w, Separation(g.kind), n - 1), |g.w|, Separation(g.kind), n - 1);
    }
  }

  /** Every number drawn is a value of one series that satisfies the recurrence, without its lowest bit. */
  lemma OutputsFollowTheRecurrence(g: Gen, n: nat) returns (y: seq<Word>)
    requires GenOk(g) && g.kind != 0
    ensures |y| == Degree(g.kind) + n && IsSeries(y, Degree(g.kind), Separation(g.kind)) && y[..Degree(g.kind)] == g.w
    ensures forall i :: 0 <= i < n ==> Outputs(g, n)[i] == y[Degree(g.kind) + i] / 2
  {
    var d, sep := Degree(g.kind), Separation(g.kind);
    Trinomials(g.kind);
    y := Series(g.w, sep, n);
    SeriesIsSeries(g.w, sep, n);
    forall i | 0 <= i < n ensures Outputs(g, n)[i] == y[d + i] / 2 {
      OutputAt(g, n, i);
      LastOfSeries(g, i + 1);
      SeriesPrefix(g.w, sep, i + 1, n);
      assert y[..d + i + 1][d + i] == y[d + i];
    }
  }

  /** A number drawn comes from the word `d` places on, which is the sum of the word and the one `d - sep` places on. */
  ghost predicate Drawing(y: seq<Word>, d: nat, b: nat, out: seq<Word>, i: nat)
    requires i < |out| && i + d < |y| && b < d
  {
    var p: int, q: int := y[i], y[i + b];
    y[i + d] == (p + q) % 0x1_0000_0000 && out[i] == y[i + d] / 2
  }

  /** The four trinomials by number: x^7 + x^3 + 1, x^15 + x + 1, x^31 + x^3 + 1 and x^63 + x + 1. */
  lemma Recurrences(g: Gen, n: nat) returns (y: seq<Word>)
    requires GenOk(g) && g.kind != 0
    ensures |g.w| < |y| + 1 && y[..|g.w|] == g.w && |y| == |g.w| + n
    ensures g.kind == 1 ==> |g.w| == 7 && forall i :: 0 <= i < n ==> Drawing(y, 7, 4, Outputs(g, n), i)
    ensures g.kind == 2 ==> |g.w| == 15 && forall i :: 0 <= i < n ==> Drawing(y, 15, 14, Outputs(g, n), i)
    ensures g.kind == 3 ==> |g.w| == 31 && forall i :: 0 <= i < n ==> Drawing(y, 31, 28, Outputs(g, n), i)
    ensures g.kind == 4 ==> |g.w| == 63 && forall i :: 0 <= i < n ==> Drawing(y, 63, 62, Outputs(g, n), i)
  {
    y := OutputsFollowTheRecurrence(g, n);
    var d, b, out := Degree(g.kind), Degree(g.kind) - Separation(g.kind), Outputs(g, n);
    forall i | 0 <= i < n ensures Drawing(y, d, b, out, i) {
      assert out[i] == y[d + i] / 2 && y[i + d] == Add(y[i], y[i + d - Separation(g.kind)]);
    }
  }

  lemma LastOfSeries(g: Gen, n: nat)
    requires GenOk(g) && g.kind != 0 && n > 0
    ensures 0 < Separation(g.kind) < |g.w| == Degree(g.kind)
    ensures Output(AdvanceBy(g, n)) == Series(g.w, Separation(g.kind), n)[|g.w| + n - 1] / 2
  {
    StepsFollowTheSeries(g, n);
    var y := Series(g.w, Separation(g.kind), n);
    assert y[n..][|g.w| - 1] == y[|g.w| + n - 1];
  }

  // ----- the seeding step -----

  /** Division and remainder of signed integers truncate. */
  function Quot(a: int, b: int): int
    requires b > 0
  {
    if a >= 0 then a / b else -((-a) / b)
  }

  function Rem(a: int, b: int): int
    requires b > 0
  {
    a - b * Quot(a, b)
  }

  predicate Int32(x: int) { -0x8000_0000 <= x < 0x8000_0000 }

  function Signed(w: Word): (x: int)
    ensures Int32(x)
  {
    if w < 0x8000_0000 then w else w - TWO32
  }

  /** The difference of the split step. */
  function Split(word: int): int { 16807 * Rem(word, 127773) - 2836 * Quot(word, 127773) }

  /** One step of the seeding loop. */
  function Lehmer(word: int): int { if Split(word) < 0 then Split(word) + M else Split(word) }

  /** The split computes 16807 * word mod M for every 32-bit word, and nothing in it overflows. */
  lemma LehmerIsExact(word: int)
    requires Int32(word)
    ensures Int32(16807 * Rem(word, 127773)) && Int32(2836 * Quot(word, 127773))
            && Int32(Split(word)) && Int32(Lehmer(word))
    ensures Lehmer(word) == (16807 * word) % 2147483647 && 0 <= Lehmer(word) < M
  {
    var hi, lo := Quot(word, 127773), Rem(word, 127773);
    assert -16808 < hi < 16808 && -127773 < lo < 127773;
    assert 16807 * word == M * hi + Split(word);
    ModOf(16807 * word, if Split(word) < 0 then hi - 1 else hi, Lehmer(word));
  }

  lemma ModOf(x: int, q: int, r: int)
    requires x == M * q + r && 0 <= r < M
    ensures x % M == r
  {
  }

  function Pow(b: nat, n: nat): nat { if n == 0 then 1 else b * Pow(b, n - 1) }

  /** The seeded table: the seed itself, then the powers of 16807 times the seed, modulo M. */
  function Filled(seed: Word, deg: nat): (t: seq<Word>)
    requires deg > 0
    ensures |t| == deg
  {
    seq(deg, i requires i >= 0 => if i == 0 then seed else Power(seed, i))
  }

  function Power(seed: Word, i: nat): Word { (Pow(16807, i) * Signed(seed)) % M }

  lemma MulMod(x: int)
    ensures (16807 * (x % M)) % M == (16807 * x) % M
  {
    var q, r := x / M, x % M;
    ModOf(16807 * r, (16807 * r) / M, (16807 * r) % M);
    assert 16807 * x == M * (16807 * q + (16807 * r) / M) + (16807 * r) % M;
    ModOf(16807 * x, 16807 * q + (16807 * r) / M, (16807 * r) % M);
  }

  lemma PowMul(p: int, s: int)
    ensures (16807 * p) * s == 16807 * (p * s)
  {
  }

  /** The loop computes the powers one from the other. */
  lemma PowerStep(seed: Word, i: nat, word: int)
    requires word == if i == 0 then Signed(seed) else Power(seed, i)
    ensures Int32(word) && Lehmer(word) == Power(seed, i + 1)
  {
    LehmerIsExact(word);
    var x := Pow(16807, i) * Signed(seed);
    PowMul(Pow(16807, i), Signed(seed));
    if i > 0 { MulMod(x); } else { assert Pow(16807, 0) == 1; }
  }

  /** The words of the table follow from one another by a factor of 16807. */
  lemma FilledFollows(seed: Word, deg: nat, i: nat)
    requires 0 < i < deg
    ensures Filled(seed, deg)[0] == seed
    ensures Filled(seed, deg)[i] == 16807 * Signed(Filled(seed, deg)[i - 1]) % 2147483647
  {
    PowerStep(seed, i - 1, if i == 1 then Signed(seed) else Power(seed, i - 1));
    LehmerIsExact(if i == 1 then Signed(seed) else Power(seed, i - 1));
  }

  /** 16807 has an inverse modulo M, so multiplying by it keeps non-zero residues non-zero. */
  lemma NoZeroDivisor(x: int)
    ensures (16807 * x) % M == 0 <==> x % M == 0
  {
    if (16807 * x) % M == 0 {
      var k := (16807 * x) / M;
      assert 16807 * x == M * k;
      assert 16807 * 1407677000 == M * 11017 + 1;
      assert x == M * (1407677000 * k - 11017 * x);
      ModOf(x, 1407677000 * k - 11017 * x, 0);
    } else if x % M == 0 {
      ModOf(16807 * x, 16807 * (x / M), 0);
    }
  }

  lemma {:induction false} PowersVanish(seed: Word, i: nat)
    ensures (Pow(16807, i) * Signed(seed)) % M == 0 <==> Signed(seed) % M == 0
  {
    if i > 0 {
      var x := Pow(16807, i - 1) * Signed(seed);
      PowersVanish(seed, i - 1);
      PowMul(Pow(16807, i - 1), Signed(seed));
      NoZeroDivisor(x);
    } else {
      assert Pow(16807, 0) * Signed(seed) == Signed(seed);
    }
  }

  /** All generated words lie strictly between 0 and M exactly when the seed is not M or M + 2 (0 is replaced by 1). */
  lemma SeedRange(seed: Word, deg: nat)
    requires deg >= 2 && seed != 0
    ensures (forall i :: 0 < i < deg ==> 0 < Filled(seed, deg)[i] < M) <==> seed != 2147483647 && seed != 2147483649
  {
    assert Signed(seed) % M == 0 <==> seed == 2147483647 || seed == 2147483649;
    forall i | 0 < i < deg ensures Filled(seed, deg)[i] == 0 <==> Signed(seed) % M == 0 { PowersVanish(seed, i); }
    assert Filled(seed, deg)[1] == 0 <==> Signed(seed) % M == 0;
  }

  // ----- state arrays -----

  /** The kind in an info word; negative if the word is negative and no multiple of 5. */
  function KindIn(info: Word): int { Rem(Signed(info), 5) }

  function RearIn(info: Word): int { Quot(Signed(info), 5) }

  /** The state array describes a generator: word 0 is 5 * rear + kind, the table follows. */
  ghost predicate SavedOk(a: seq<Word>) {
    && |a| >= 2 && 0 <= KindIn(a[0]) < 5
    && |a| > Degree(KindIn(a[0])) && (KindIn(a[0]) != 0 ==> 0 <= RearIn(a[0]) < Degree(KindIn(a[0])))
  }

  ghost function Saved(a: seq<Word>): Gen
    requires SavedOk(a)
  {
    Described(a, KindIn(a[0]), if KindIn(a[0]) == 0 then 0 else Front(KindIn(a[0]), RearIn(a[0])))
  }

  function Front(kind: nat, rear: nat): nat
    requires kind < 5
  {
    if kind == 0 then 0 else (rear + Separation(kind)) % Degree(kind)
  }

  ghost function Described(a: seq<Word>, kind: nat, f: nat): Gen
    requires kind < 5 && |a| >= 2 && |a| > Degree(kind) && f <= Degree(kind)
  {
    if kind == 0 then Gen(0, [a[1]]) else Gen(kind, Window(a[1..Degree(kind) + 1], f))
  }

  /** What one additive step makes of the array and the front index. */
  lemma FeedMeaning(a: seq<Word>, kind: nat, f: nat, r: nat)
    requires 0 < kind < 5 && |a| > Degree(kind) && Apart(f, r, Degree(kind), Separation(kind))
    ensures var v := Add(a[1 + f], a[1 + r]);
      var n := Described(a[1 + f := v], kind, if f + 1 == Degree(kind) then 0 else f + 1);
      n == Advance(Described(a, kind, f)) && Output(n) == v / 2
  {
    var d, v := Degree(kind), Add(a[1 + f], a[1 + r]);
    var table := a[1..d + 1];
    TableStep(table, f, r, Separation(kind));
    assert a[1 + f := v][1..d + 1] == table[f := v];
    var w := Window(table, f);
    assert Shifted(w, Separation(kind))[d - 1] == Fed(w, Separation(kind));
  }

  lemma FrontIsApart(kind: nat, rear: nat)
    requires 0 < kind < 5 && rear < Degree(kind)
    ensures Apart(Front(kind, rear), rear, Degree(kind), Separation(kind))
  {
    Trinomials(kind);
  }

  lemma InfoWord(kind: nat, rear: nat)
    requires kind < 5 && rear < 63
    ensures KindIn(5 * rear + kind) == kind && RearIn(5 * rear + kind) == rear
  {
  }

  /** An index of a table of `d` words moves on. */
  function Around(i: nat, d: nat): nat { if i + 1 == d then 0 else i + 1 }

  function AroundBy(i: nat, n: nat, d: nat): nat { if n == 0 then i else Around(AroundBy(i, n - 1, d), d) }

  /** The index is back exactly after whole rounds. */
  lemma {:induction false} ComesBackIff(i: nat, n: nat, d: nat)
    requires i < d
    ensures AroundBy(i, n, d) == (if i + n % d < d then i + n % d else i + n % d - d)
    ensures AroundBy(i, n, d) == i <==> n % d == 0
  {
    if n > 0 {
      ComesBackIff(i, n - 1, d);
      NextRemainder(n - 1, d);
    }
  }

  lemma NextRemainder(n: nat, d: nat)
    requires d > 0
    ensures (n + 1) % d == Around(n % d, d)
  {
    var q, q' := n / d, (n + 1) / d;
    assert (q' - q) * d == n % d + 1 - (n + 1) % d;
    SmallMultiple(q' - q, d, n % d + 1 - (n + 1) % d);
  }

  lemma SmallMultiple(e: int, d: int, x: int)
    requires e * d == x && -d < x <= d
    ensures x == d || x == 0
  {
    if e >= 2 { Multiples(2, e, d); } else if e < 0 { Multiples(e, -1, d); }
  }

  lemma Multiples(a: int, b: int, d: int)
    requires a <= b && d >= 0
    ensures a * d <= b * d
  {
  }

  /** `k` places on in a table of `d` words. */
  function Place(i: nat, k: nat, d: nat): (j: nat)
    requires i < d && k <= d
    ensures j < d
  {
    if i + k < d then i + k else i + k - d
  }

  ghost predicate Repeats(w: seq<Word>, k: nat, i: nat)
    requires k <= |w| && i < |w|
  {
    w[i] == w[Place(i, k, |w|)]
  }

  /** The words repeat `k` places on, around the end. */
  ghost predicate Periodic(w: seq<Word>, k: nat)
    requires k <= |w|
  {
    forall i :: 0 <= i < |w| ==> Repeats(w, k, i)
  }

  lemma WindowAt(w: seq<Word>, f: nat, i: nat)
    requires f <= |w| && i < |w|
    ensures Window(w, f)[i] == w[Place(i, f, |w|)]
  {
  }

  lemma TurnedIff(w: seq<Word>, k: nat)
    requires k <= |w|
    ensures Window(w, k) == w <==> Periodic(w, k)
  {
    forall i | 0 <= i < |w| ensures Window(w, k)[i] == w[i] <==> Repeats(w, k, i) { WindowAt(w, k, i); }
  }

  /** A table read from two fronts. */
  lemma TwoWindows(table: seq<Word>, f: nat, k: nat, f': nat)
    requires f < |table| && k <= |table| && f' < |table| && (f' == f + k || f' == f + k - |table|)
    ensures Window(Window(table, f), k) == Window(table, f')
  {
    var w, t := Window(Window(table, f), k), Window(table, f');
    forall i | 0 <= i < |table| ensures w[i] == t[i] {
      WindowAt(Window(table, f), k, i);
      WindowAt(table, f, Place(i, k, |table|));
      WindowAt(table, f', i);
    }
  }

  lemma FrontTurns(kind: nat, r: nat, n: nat)
    requires 0 < kind < 5 && r < Degree(kind)
    ensures var d, r' := Degree(kind), AroundBy(r, n, Degree(kind));
      && r' < d && Front(kind, r) < d && Front(kind, r') < d
      && (Front(kind, r') + (d - n % d) == Front(kind, r) || Front(kind, r') + (d - n % d) == Front(kind, r) + d)
  {
    var d := Degree(kind);
    ComesBackIff(r, n, d);
    FrontIsApart(kind, r);
    FrontIsApart(kind, AroundBy(r, n, d));
  }

  /** What an array describes whose info word is `n` draws old. */
  lemma StaleInfo(a: seq<Word>, kind: nat, r: nat, n: nat)
    requires SavedOk(a) && kind == KindIn(a[0]) != 0 && r == RearIn(a[0])
    ensures var d, r' := Degree(kind), AroundBy(r, n, Degree(kind));
      && 0 <= Front(kind, r') < d
      && var now := Described(a, kind, Front(kind, r'));
         && Saved(a).w == Window(now.w, d - n % d)
         && (Saved(a) == now <==> Periodic(now.w, d - n % d))
  {
    var d := Degree(kind);
    FrontTurns(kind, r, n);
    var f' := Front(kind, AroundBy(r, n, d));
    TwoWindows(a[1..d + 1], f', d - n % d, Front(kind, r));
    TurnedIff(Window(a[1..d + 1], f'), d - n % d);
  }

  /** Kind 1 with rear index 0: one draw before the array is left loses the stream if the outer words differ. */
  lemma StreamIsLost(a: seq<Word>)
    requires |a| >= 8 && a[0] == 1 && a[1] != a[7]
    ensures SavedOk(a) && Saved(a).kind == 1 && |Advance(Saved(a)).w| == 7 && !Periodic(Advance(Saved(a)).w, 6)
  {
    var w := Saved(a).w;
    var t := a[1..8];
    assert w == Window(t, 3);
    WindowAt(t, 3, 3);
    WindowAt(t, 3, 4);
    var n := Shifted(w, 3);
    assert n[2] == w[3] && n[3] == w[4];
    assert !Repeats(n, 6, 3);
  }

  class RandomData {
    var state: array<Word>   // word 0 is the one at index -1 in the source
    var kind: nat
    var deg: nat
    var sep: nat
    var f: nat
    var r: nat

    /** Front and rear stay `sep` apart, inside the table. */
    ghost predicate Valid()
      reads this
    {
      && kind < 5 && deg == Degree(kind) && sep == Separation(kind) && state.Length >= 2 && state.Length > deg
      && (kind != 0 ==> Apart(f, r, deg, sep))
    }

    ghost function Cur(): (g: Gen)
      requires Valid()
      reads this, state
      ensures GenOk(g) && g.kind == kind
    {
      Described(state[..], kind, if kind == 0 then 0 else f)
    }

    constructor (a: array<Word>)
      requires a.Length >= 2
      ensures Valid() && state == a && kind == 0
    {
      state := a;
      kind, deg, sep, f, r := 0, 0, 0, 0, 0;
    }

    /** `random_r`. */
    method Random() returns (result: Word)
      requires Valid()
      modifies this`f, this`r, state
      ensures Valid() && Cur() == Advance(old(Cur())) && result == Output(Cur()) && state[0] == old(state[0])
      ensures kind != 0 ==> r == Around(old(r), deg)
      ensures kind == 0 ==> var p: int := old(state[1]); result == state[1] == (1103515245 * p + 12345) % 0x8000_0000
      ensures kind != 0 ==> var p: int, q: int := old(state[1 + f]), old(state[1 + r]);
                            result == (p + q) % 0x1_0000_0000 / 2
    {
      if kind == 0 {
        state[1] := Congruential(state[1]);
        return state[1];
      }
      result := Feed();
    }

    /** The additive step: front and rear never wrap in the same call. */
    method Feed() returns (result: Word)
      requires Valid() && kind != 0
      modifies this`f, this`r, state
      ensures Valid() && Cur() == Advance(old(Cur())) && result == Output(Cur()) && state[0] == old(state[0])
      ensures r == Around(old(r), deg) && result == Add(old(state[1 + f]), old(state[1 + r])) / 2
    {
      ghost var a := state[..];
      FeedMeaning(a, kind, f, r);
      var val := AddRear();
      MoveOn();
      result := val / 2;
    }

    method AddRear() returns (val: Word)
      requires Valid() && kind != 0
      modifies state
      ensures val == Add(old(state[1 + f]), old(state[1 + r])) && state[..] == old(state[..])[1 + f := val]
    {
      val := Add(state[1 + f], state[1 + r]);
      state[1 + f] := val;
    }

    /** Both indices move on around the table; the rear one is not tested when the front one wraps. */
    method MoveOn()
      requires Valid() && kind != 0
      modifies this`f, this`r
      ensures Valid() && f == Around(old(f), deg) && r == Around(old(r), deg)
    {
      f := f + 1;
      if f >= deg {
        f := 0;
        r := r + 1;
      } else {
        r := r + 1;
        if r >= deg { r := 0; }
      }
    }

    /** Any number of draws. */
    method Draw(n: nat) returns (out: seq<Word>)
      requires Valid()
      modifies this`f, this`r, state
      ensures Valid() && Cur() == AdvanceBy(old(Cur()), n) && state[0] == old(state[0])
      ensures out == Outputs(old(Cur()), n) && (kind != 0 ==> r == AroundBy(old(r), n, deg))
    {
      out := [];
      ghost var g := Cur();
      while |out| < n
        invariant |out| <= n && Valid() && state[0] == old(state[0]) && Drawn(g, old(r), out)
      {
        var x := DrawOne(g, old(r), out);
        out := out + [x];
      }
    }

    method DrawOne(ghost g: Gen, ghost r0: nat, ghost out: seq<Word>) returns (x: Word)
      requires Valid() && GenOk(g) && Drawn(g, r0, out)
      modifies this`f, this`r, state
      ensures Valid() && Drawn(g, r0, out + [x]) && state[0] == old(state[0])
    {
      ghost var cur := Cur();
      x := Random();
      DrawnStep(g, cur, out, x);
    }

    /** The values drawn so far, and where the generator and its rear index are. */
    ghost predicate Drawn(g: Gen, r0: nat, out: seq<Word>)
      requires Valid() && GenOk(g)
      reads this, state
    {
      && Cur() == AdvanceBy(g, |out|) && out == Outputs(g, |out|)
      && (kind != 0 ==> r == AroundBy(r0, |out|, deg))
    }

    /** `srandom_r`: fill the table, set the indices `sep` apart, and discard ten times the degree of values. */
    method SRandom(seed: Word)
      requires kind < 5 && deg == Degree(kind) && sep == Separation(kind) && state.Length >= 2 && state.Length > deg
      modifies this`f, this`r, state
      ensures Valid()
      ensures var s: Word := if seed == 0 then 1 else seed;
        Cur() == if kind == 0 then Gen(0, [s])
                 else AdvanceBy(Gen(kind, Window(Filled(s, Degree(kind)), Separation(kind))), 10 * deg)
    {
      var s: Word := if seed == 0 then 1 else seed;
      state[1] := s;
      if kind == 0 { return; }
      Trinomials(kind);
      Fill(s);
      f, r := sep, 0;
      var _ := Draw(10 * deg);
    }

    /** The seeding loop. */
    method Fill(seed: Word)
      requires 0 < deg < state.Length && state[1] == seed
      modifies state
      ensures state[1..deg + 1] == Filled(seed, deg) && state[0] == old(state[0])
    {
      var word := Signed(seed);
      var i := 1;
      while i < deg
        invariant 1 <= i <= deg && word == (if i == 1 then Signed(seed) else Power(seed, i - 1))
        invariant state[0] == old(state[0]) && forall k :: 0 <= k < i ==> state[1 + k] == Filled(seed, deg)[k]
      {
        PowerStep(seed, i - 1, word);
        word := Lehmer(word);
        state[1 + i] := word;
        i := i + 1;
      }
    }

    /** `initstate_r`: the kind follows from the size; fewer than eight bytes are refused. */
    method InitState(seed: Word, a: array<Word>, nbytes: nat) returns (ok: bool)
      requires nbytes <= 4 * a.Length && Valid()
      modifies this, a
      ensures ok <==> nbytes >= 8
      ensures ok ==> Valid() && state == a && SavedOk(a[..]) && Saved(a[..]) == Cur()
      ensures ok ==> kind == if nbytes < 32 then 0 else if nbytes < 64 then 1
                             else if nbytes < 128 then 2 else if nbytes < 256 then 3 else 4
      ensures !ok ==> a[..] == old(a[..]) && unchanged(this)
      ensures a != old(state) ==> old(state)[..] == old(state[..])
    {
      if nbytes < 8 { return false; }
      kind := if nbytes >= 128 then (if nbytes < 256 then 3 else 4)
              else if nbytes < 32 then 0 else if nbytes < 64 then 1 else 2;
      deg, sep, state := Degree(kind), Separation(kind), a;
      SRandom(seed);
      SaveInfo();
      return true;
    }

    /** The info word makes the array describe the current generator. */
    method SaveInfo()
      requires Valid()
      modifies state
      ensures SavedOk(state[..]) && Saved(state[..]) == Cur() == old(Cur())
      ensures state[0] == if kind == 0 then 0 else 5 * r + kind
    {
      ghost var table := state[1..deg + 1];
      InfoWord(kind, if kind == 0 then 0 else r);
      if kind != 0 { FrontIsApart(kind, r); }
      state[0] := if kind == 0 then 0 else 5 * r + kind;
      assert state[1..deg + 1] == table;
    }

    /**
     * `setstate_r`: the old generator goes to its array, the new one comes from its own; an info word with a
     * negative kind is refused, after the old generator was saved.
     */
    method SetState(a: array<Word>) returns (ok: bool)
      requires Valid() && a.Length >= 2 && (a != state ==> SavedOk(a[..]) || KindIn(a[0]) < 0)
      modifies this, state
      ensures Valid() && SavedOk(old(state)[..]) && Saved(old(state)[..]) == old(Cur())
      ensures ok <==> a == old(state) || old(SavedOk(a[..]))
      ensures if !ok then unchanged(this) && Cur() == old(Cur())
              else state == a && Cur() == if a == old(state) then old(Cur()) else old(Saved(a[..]))
      ensures ok && a != old(state) && kind != 0 ==> r == RearIn(old(a[0]))
      ensures a != old(state) ==> old(state)[0] == if old(kind) == 0 then 0 else 5 * old(r) + old(kind)
      ensures ok && a != old(state) && old(a[0]) < 0x8000_0000 ==>
                kind == old(a[0]) % 5 && (kind != 0 ==> r == old(a[0]) / 5)
    {
      SaveInfo();
      if KindIn(a[0]) < 0 { return false; }
      Restore(a);
      return true;
    }

    method Restore(a: array<Word>)
      requires SavedOk(a[..])
      modifies this
      ensures Valid() && state == a && Cur() == Saved(a[..])
      ensures kind == KindIn(a[0]) && (kind != 0 ==> r == RearIn(a[0]))
    {
      kind := KindIn(a[0]);
      deg, sep := Degree(kind), Separation(kind);
      if kind != 0 {
        r := RearIn(a[0]);
        f := (r + sep) % deg;
        FrontIsApart(kind, r);
      }
      state := a;
    }

    /**
     * `initstate_r` does not save the old generator, although its comment says so: an array left `n` draws after
     * its info word was written goes on with the indices of then, so its table is read turned back by `n` places.
     * The stream goes on as if never interrupted exactly if that makes no difference.
     */
    method LeftByInitState(b: array<Word>, seed: Word, nbytes: nat, n: nat)
      requires Valid() && b != state && 8 <= nbytes <= 4 * b.Length
      requires KindIn(state[0]) == kind && (kind != 0 ==> RearIn(state[0]) == r)
      modifies this, state, b
      ensures Valid() && state == old(state) && kind == old(kind) && (kind != 0 ==> r == old(r))
      ensures kind != 0 ==> Cur().w == Window(AdvanceBy(old(Cur()), n).w, deg - n % deg)
      ensures Cur() == AdvanceBy(old(Cur()), n) <==> kind == 0 || Periodic(AdvanceBy(old(Cur()), n).w, deg - n % deg)
    {
      var a := state;
      var _ := Draw(n);
      if kind != 0 {
        FrontIsApart(kind, r);
        StaleInfo(state[..], kind, old(r), n);
      }
      LeaveFor(b, seed, nbytes);
      var _ := SetState(a);
    }

    /** The array left behind describes the old generator exactly as well as its info word does. */
    method LeaveFor(b: array<Word>, seed: Word, nbytes: nat)
      requires Valid() && b != state && 8 <= nbytes <= 4 * b.Length
      requires KindIn(state[0]) == kind && (kind != 0 ==> 0 <= RearIn(state[0]) < deg)
      modifies this, b
      ensures Valid() && state == b && old(state)[..] == old(state[..]) && SavedOk(old(state)[..])
      ensures (old(kind) != 0 ==> RearIn(old(state)[0]) == old(r)) ==> Saved(old(state)[..]) == old(Cur())
    {
      if kind != 0 { FrontIsApart(kind, r); }
      var _ := InitState(seed, b, nbytes);
    }

    /** Switching to another array, drawing from it and switching back: the stream goes on as if never interrupted. */
    method Excursion(b: array<Word>, n: nat)
      requires Valid() && b != state && SavedOk(b[..])
      modifies this, state, b
      ensures Valid() && state == old(state) && Cur() == old(Cur())
      ensures SavedOk(b[..]) && Saved(b[..]) == AdvanceBy(old(Saved(b[..])), n)
    {
      var a := state;
      var _ := SetState(b);
      var _ := Draw(n);
      var _ := SetState(a);
    }
  }
}
