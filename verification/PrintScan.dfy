/**
 * The number printer (libpi/libc/printk.c) and the number scanner (libpi/src/scank.c):
 * scanning undoes printing.
 */
module PrintScan {
  import opened Machine

  // ----- numerals -----

  predicate Base(b: nat) { b == 2 || b == 10 || b == 16 }

  function DigitChar(d: nat): char
    requires d < 16
  {
    if d < 10 then '0' + d as char else 'a' + (d - 10) as char
  }

  /** `is_digit`: the value of a digit, or -1; hexadecimal digits may be upper case. */
  function DigitValue(c: char, base: nat): (v: int)
    requires Base(base)
    ensures -1 <= v < base
  {
    if '0' <= c <= '9' && (base != 2 || c <= '1') then c as int - '0' as int
    else if base == 16 && 'a' <= c <= 'f' then c as int - 'a' as int + 10
    else if base == 16 && 'A' <= c <= 'F' then c as int - 'A' as int + 10
    else -1
  }

  lemma DigitRoundTrip(d: nat, base: nat)
    requires Base(base) && d < base
    ensures DigitValue(DigitChar(d), base) == d
  {
  }

  /** The digits of `u`, most significant first. */
  function Numeral(u: nat, base: nat): (s: string)
    requires Base(base)
    ensures |s| > 0
  {
    if u < base then [DigitChar(u)] else Numeral(u / base, base) + [DigitChar(u % base)]
  }

  predicate AllDigits(s: string, base: nat)
    requires Base(base)
  {
    forall i :: 0 <= i < |s| ==> DigitValue(s[i], base) >= 0
  }

  /** The value of a digit string as the scanner accumulates it, in 32 bits. */
  function Value(s: string, base: nat): Word
    requires Base(base) && AllDigits(s, base)
  {
    if s == [] then 0 else Wrap(Value(s[..|s| - 1], base) * base + DigitValue(s[|s| - 1], base))
  }

  lemma {:induction false} NumeralIsDigits(u: nat, base: nat)
    requires Base(base)
    ensures AllDigits(Numeral(u, base), base)
  {
    if u < base {
      DigitRoundTrip(u, base);
    } else {
      NumeralIsDigits(u / base, base);
      DigitRoundTrip(u % base, base);
    }
  }

  /** The value of the numeral of a word is that word: nothing overflows on the way. */
  lemma {:induction false} ValueOfNumeral(u: Word, base: nat)
    requires Base(base)
    ensures AllDigits(Numeral(u, base), base) && Value(Numeral(u, base), base) == u
  {
    NumeralIsDigits(u, base);
    var s := Numeral(u, base);
    DigitRoundTrip(u % base, base);
    if u >= base {
      ValueOfNumeral(u / base, base);
      assert s[..|s| - 1] == Numeral(u / base, base);
      assert u / base * base + u % base == u;
    }
  }

  /** A word has at most 32 digits in any base, so the buffer of 33 is never full. */
  lemma {:induction false} NumeralLength(u: nat, base: nat, k: nat)
    requires Base(base) && 1 <= k <= 32 && u < Two(k)
    ensures |Numeral(u, base)| <= k
  {
    if u >= base {
      NumeralLength(u / base, base, k - 1);
    }
  }

  function Two(k: nat): nat { if k == 0 then 1 else 2 * Two(k - 1) }

  lemma TwoTo32()
    ensures Two(32) == TWO32
  {
    assert Two(8) == 0x100;
    assert Two(16) == 0x1_0000;
    assert Two(24) == 0x100_0000;
  }

  /** The digits of `u`, least significant first, as they are buffered; none for 0. */
  function Buffered(u: nat, base: nat): string
    requires Base(base)
  {
    if u == 0 then [] else [DigitChar(u % base)] + Buffered(u / base, base)
  }

  /** The first digit is stored before the test for 0. */
  function FirstBuffered(u: nat, base: nat): string
    requires Base(base)
  {
    [DigitChar(u % base)] + Buffered(u / base, base)
  }

  lemma FirstBufferedLength(u: Word, base: nat)
    requires Base(base)
    ensures |FirstBuffered(u, base)| <= 32
  {
    TwoTo32();
    NumeralLength(u, base, 32);
    BufferedIsReversed(u, base);
  }

  lemma Regroup(a: string, x: string, b: string)
    ensures a + (x + b) == a + x + b
  {
  }

  /** The buffer holds the numeral backwards. */
  lemma {:induction false} BufferedIsReversed(u: nat, base: nat)
    requires Base(base)
    ensures var s, t := Numeral(u, base), FirstBuffered(u, base);
      |s| == |t| && forall i :: 0 <= i < |t| ==> t[i] == s[|s| - 1 - i]
  {
    if u < base {
      assert u % base == u && u / base == 0;
    } else {
      BufferedIsReversed(u / base, base);
    }
  }

  function Negated(w: Word): Word { Wrap(TWO32 - w) }

  // ----- formats -----

  predicate Conversion(c: char) { c == 'b' || c == 'u' || c == 'd' || c == 'x' || c == 'p' }

  function BaseOf(c: char): (b: nat)
    ensures Base(b)
  {
    if c == 'b' then 2 else if c == 'x' || c == 'p' then 16 else 10
  }

  /** The format holds number conversions only, one for each argument. */
  predicate Fits(fmt: string, args: seq<Word>) {
    if fmt == [] then args == []
    else if fmt[0] != '%' then Fits(fmt[1..], args)
    else |fmt| >= 2 && Conversion(fmt[1]) && args != [] && Fits(fmt[2..], args[1..])
  }

  /** A number as one conversion prints it. */
  function Shown(conv: char, w: Word): string {
    if conv == 'd' then (if w >= 0x8000_0000 then "-" + Numeral(Negated(w), 10) else Numeral(w, 10))
    else if conv == 'x' || conv == 'p' then "0x" + Numeral(w, 16)
    else Numeral(w, BaseOf(conv))
  }

  function Shows(fmt: string, args: seq<Word>): string
    requires Fits(fmt, args)
  {
    if fmt == [] then []
    else if fmt[0] != '%' then [fmt[0]] + Shows(fmt[1..], args)
    else Shown(fmt[1], args[0]) + Shows(fmt[2..], args[1..])
  }

  /** The place value of a string of lower-case digits, written without the printer's digits or bases. */
  function Weight(s: string, base: nat): int {
    if s == [] then 0
    else
      var c := s[|s| - 1] as int;
      Weight(s[..|s| - 1], base) * base + if c < 58 then c - 48 else c - 87
  }

  /** Lower-case digits below `base`, without a leading zero. */
  predicate Canonical(s: string, base: nat) {
    && s != [] && (|s| > 1 ==> s[0] != '0')
    && forall i :: 0 <= i < |s| ==> var c := s[i] as int; (48 <= c < 58 && c < 48 + base) || 97 <= c < 87 + base
  }

  lemma {:induction false} NumeralWeight(u: nat, base: nat)
    requires Base(base)
    ensures Weight(Numeral(u, base), base) == u && Canonical(Numeral(u, base), base)
    ensures u > 0 ==> Numeral(u, base)[0] != '0'
  {
    var s := Numeral(u, base);
    if u >= base {
      NumeralWeight(u / base, base);
      assert s[..|s| - 1] == Numeral(u / base, base);
      assert u / base * base + u % base == u && u / base > 0;
    }
  }

  /** `%u` prints in base 10, `%b` in base 2. */
  lemma UnsignedShown(w: Word)
    ensures Weight(Shown('u', w), 10) == w && Canonical(Shown('u', w), 10)
    ensures Weight(Shown('b', w), 2) == w && Canonical(Shown('b', w), 2)
  {
    NumeralWeight(w, 10);
    NumeralWeight(w, 2);
  }

  /** `%x` and `%p` print in base 16, behind 0x. */
  lemma {:induction false} HexShown(w: Word)
    ensures var s := Shown('x', w);
      && s == Shown('p', w) && |s| > 2 && s[0] == '0' && s[1] == 'x'
      && Weight(s[2..], 16) == w && Canonical(s[2..], 16)
  {
    NumeralWeight(w, 16);
    assert ("0x" + Numeral(w, 16))[2..] == Numeral(w, 16);
  }

  /** `%d` prints the 32-bit two's complement value in base 10, the most negative one included. */
  lemma {:induction false} SignedShown(w: Word)
    ensures var s := Shown('d', w);
      if w < 0x8000_0000 then Weight(s, 10) == w && Canonical(s, 10)
      else |s| > 1 && s[0] == '-' && Weight(s[1..], 10) == 0x1_0000_0000 - w && Canonical(s[1..], 10)
  {
    if w < 0x8000_0000 {
      NumeralWeight(w, 10);
    } else {
      var u := 0x1_0000_0000 - w;
      assert Negated(w) == u;
      NumeralWeight(u, 10);
      assert ("-" + Numeral(u, 10))[1..] == Numeral(u, 10);
    }
  }

  /** The text of a format is the texts of its parts: a literal stands for itself, a conversion for its argument. */
  lemma {:induction false} ShowsParts(fmt: string, args: seq<Word>, c: char, w: Word)
    requires Fits(fmt, args)
    ensures c != '%' ==> Fits([c] + fmt, args) && Shows([c] + fmt, args) == [c] + Shows(fmt, args)
    ensures Conversion(c) ==>
              Fits(['%', c] + fmt, [w] + args) && Shows(['%', c] + fmt, [w] + args) == Shown(c, w) + Shows(fmt, args)
  {
    assert ([c] + fmt)[1..] == fmt && (['%', c] + fmt)[2..] == fmt && ([w] + args)[1..] == args;
  }

  /** One step along the format at position `i`, with argument `a` next. */
  lemma ShowsStep(fmt: string, args: seq<Word>, i: nat, a: nat)
    requires i < |fmt| && a <= |args| && Fits(fmt[i..], args[a..])
    ensures fmt[i] != '%' ==>
              Fits(fmt[i + 1..], args[a..]) && Shows(fmt[i..], args[a..]) == [fmt[i]] + Shows(fmt[i + 1..], args[a..])
    ensures fmt[i] == '%' ==>
      && i + 1 < |fmt| && Conversion(fmt[i + 1]) && a < |args| && Fits(fmt[i + 2..], args[a + 1..])
      && Shows(fmt[i..], args[a..]) == Shown(fmt[i + 1], args[a]) + Shows(fmt[i + 2..], args[a + 1..])
  {
    assert fmt[i..][1..] == fmt[i + 1..];
    if fmt[i] == '%' { assert fmt[i..][2..] == fmt[i + 2..] && args[a..][1..] == args[a + 1..]; }
  }

  /** Each conversion is followed by a literal that ends the number, or by nothing. */
  predicate Scannable(fmt: string) {
    if fmt == [] then true
    else if fmt[0] != '%' then Scannable(fmt[1..])
    else |fmt| >= 2 && Conversion(fmt[1]) && (|fmt| > 2 ==> Ends(fmt[1], fmt[2])) && Scannable(fmt[2..])
  }

  predicate Ends(conv: char, l: char) { l != '%' && l != '\n' && DigitValue(l, BaseOf(conv)) < 0 }

  // ----- printing -----

  class Printer {
    var out: string

    /** `emit_val`: the digits are buffered in reverse and emitted backwards. */
    method EmitVal(base: nat, u: Word)
      requires Base(base)
      modifies this
      ensures out == old(out) + Numeral(u, base)
    {
      var num := new char[33];
      var n := BufferDigits(num, base, u);
      BufferedIsReversed(u, base);
      ghost var all := Numeral(u, base);
      assert forall i :: 0 <= i < n ==> num[i] == num[..n][i];
      var p := n;
      assert all[..0] == [];
      while p > 0
        invariant 0 <= p <= n == |all| && out == old(out) + all[..n - p]
        invariant forall i :: 0 <= i < n ==> num[i] == all[n - 1 - i]
      {
        p := p - 1;
        out := out + [num[p]];
        assert all[..n - p] == all[..n - p - 1] + [num[p]];
      }
      assert all[..n] == all;
    }

    /** The digit loop; 32 places of the 33 are enough. */
    method BufferDigits(num: array<char>, base: nat, u: Word) returns (n: nat)
      requires Base(base) && num.Length == 33
      modifies num
      ensures n <= 32 && num[..n] == FirstBuffered(u, base)
    {
      FirstBufferedLength(u, base);
      ghost var all := FirstBuffered(u, base);
      var d, rest := CutDigit(u, base);
      num[0] := d;
      n := 1;
      while rest != 0
        invariant 1 <= n <= |all| && num[..n] + Buffered(rest, base) == all
        decreases rest
      {
        ghost var done := num[..n];
        var d, q := CutDigit(rest, base);
        Regroup(done, [d], Buffered(q, base));
        num[n] := d;
        assert num[..n + 1] == done + [d];
        rest := q;
        n := n + 1;
      }
      assert num[..n] + [] == num[..n];
    }

    method CutDigit(u: nat, base: nat) returns (d: char, q: nat)
      requires Base(base)
      ensures FirstBuffered(u, base) == [d] + Buffered(q, base)
      ensures u > 0 ==> q < u && Buffered(u, base) == [d] + Buffered(q, base)
    {
      return DigitChar(u % base), u / base;
    }

    /** `vprintk` on number conversions. */
    method VPrintk(fmt: string, args: seq<Word>)
      requires Fits(fmt, args)
      modifies this
      ensures out == old(out) + Shows(fmt, args)
    {
      var i, a := 0, 0;
      ghost var all := Shows(fmt, args);
      assert fmt[0..] == fmt && args[0..] == args;
      while i < |fmt|
        invariant 0 <= i <= |fmt| && 0 <= a <= |args| && Fits(fmt[i..], args[a..])
        invariant old(out) + all == out + Shows(fmt[i..], args[a..])
      {
        ShowsStep(fmt, args, i, a);
        ghost var o := out;
        if fmt[i] != '%' {
          out := out + [fmt[i]];
          Regroup(o, [fmt[i]], Shows(fmt[i + 1..], args[a..]));
        } else {
          i := i + 1;
          PrintOne(fmt[i], args[a]);
          a := a + 1;
          Regroup(o, Shown(fmt[i], args[a - 1]), Shows(fmt[i + 1..], args[a..]));
        }
        i := i + 1;
      }
    }

    method PrintOne(conv: char, w: Word)
      requires Conversion(conv)
      modifies this
      ensures out == old(out) + Shown(conv, w)
    {
      if conv == 'd' {
        if w >= 0x8000_0000 {
          out := out + "-";
          EmitVal(10, Negated(w));
          assert old(out) + "-" + Numeral(Negated(w), 10) == old(out) + ("-" + Numeral(Negated(w), 10));
        } else {
          EmitVal(10, w);
        }
      } else {
        if conv == 'x' || conv == 'p' { out := out + "0x"; }
        EmitVal(BaseOf(conv), w);
        assert old(out) + "0x" + Numeral(w, 16) == old(out) + ("0x" + Numeral(w, 16));
      }
    }
  }

  // ----- scanning -----

  datatype Look = Empty | Char(c: char)

  datatype Scanned = Number(v: Word) | LineEnded | Hangs

  lemma SignedText(w: Word, u: Word, t: char, rest: string)
    requires u == if w >= 0x8000_0000 then Negated(w) else w
    ensures var s := Shown('d', w) + [t] + rest; var n := Numeral(u, 10);
      && AllDigits(n, 10) && (s[0] == '-' <==> w >= 0x8000_0000) && s[0] != '\n' && s[0] != '+'
      && (if w >= 0x8000_0000 then s[1..] == n + [t] + rest else s == n + [t] + rest)
      && (w >= 0x8000_0000 ==> Negated(u) == w)
  {
    NumeralIsDigits(u, 10);
    var n := Numeral(u, 10);
    assert DigitValue(n[0], 10) >= 0;
    if w >= 0x8000_0000 { assert (("-" + n) + [t] + rest)[1..] == n + [t] + rest; }
  }

  lemma HexText(w: Word, t: char, rest: string)
    ensures var s := Shown('x', w) + [t] + rest;
              s[0] == '0' && s[1] == 'x' && s[1..][1..] == Numeral(w, 16) + [t] + rest
  {
    var n := Numeral(w, 16);
    assert ("0x" + n + [t] + rest)[1..] == "x" + n + [t] + rest;
    assert ("x" + n + [t] + rest)[1..] == n + [t] + rest;
  }

  lemma ScannableStep(fmt: string, i: nat)
    requires i < |fmt| && Scannable(fmt[i..])
    ensures fmt[i] != '%' ==> Scannable(fmt[i + 1..])
    ensures fmt[i] == '%' ==>
              i + 1 < |fmt| && Scannable(fmt[i + 2..]) && (i + 2 < |fmt| ==> Ends(fmt[i + 1], fmt[i + 2]))
  {
    assert fmt[i..][1..] == fmt[i + 1..];
    if fmt[i] == '%' { assert fmt[i..][2..] == fmt[i + 2..]; }
  }

  lemma LiteralText(l: char, more: string, tail: string)
    ensures ([l] + more + "\n" + tail)[0] == l && ([l] + more + "\n" + tail)[1..] == more + "\n" + tail
  {
    assert [l] + more + "\n" + tail == [l] + (more + "\n" + tail);
  }

  /** Behind the number of a conversion stands a character that ends it. */
  lemma ConversionText(fmt: string, args: seq<Word>, i: nat, a: nat, tail: string)
    requires 0 < i < |fmt| && fmt[i - 1] == '%' && a < |args| && Conversion(fmt[i])
    requires Fits(fmt[i + 1..], args[a + 1..]) && (i + 1 < |fmt| ==> Ends(fmt[i], fmt[i + 1]))
    ensures var left := Shows(fmt[i + 1..], args[a + 1..]) + "\n" + tail;
      && DigitValue(left[0], BaseOf(fmt[i])) < 0 && (i + 1 < |fmt| ==> left[0] == fmt[i + 1])
      && Shown(fmt[i], args[a]) + Shows(fmt[i + 1..], args[a + 1..]) + "\n" + tail
           == Shown(fmt[i], args[a]) + [left[0]] + left[1..]
  {
    var more := Shows(fmt[i + 1..], args[a + 1..]);
    var left := more + "\n" + tail;
    assert left == [left[0]] + left[1..];
    if i + 1 < |fmt| { assert fmt[i + 1..][0] == fmt[i + 1]; } else { assert fmt[i + 1..] == []; }
  }

  class Scanner {
    var input: string   // what is still to be read
    var look: Look      // the one character of lookahead

    ghost function Stream(): string
      reads this
    {
      (if look.Char? then [look.c] else []) + input
    }

    constructor (text: string)
      ensures Stream() == text && look == Empty
    {
      input, look := text, Empty;
    }

    /** `getchar`; it waits when there is nothing to read. */
    method GetChar() returns (c: char)
      requires input != []
      modifies this`input
      ensures old(input) == [c] + input
    {
      c := input[0];
      input := input[1..];
    }

    /** `match`: a matching character is consumed, another one stays as lookahead. */
    method Match(target: char) returns (r: bool)
      requires Stream() != []
      modifies this
      ensures r <==> old(Stream())[0] == target
      ensures if r then look == Empty && Stream() == old(Stream())[1..]
              else Stream() == old(Stream()) && look == Char(Stream()[0])
    {
      if look == Empty {
        var c := GetChar();
        look := Char(c);
      }
      if look.c == target {
        look := Empty;
        return true;
      }
      return false;
    }

    /**
     * The loops for the leading `0x`: a character that neither matches nor ends the line is never consumed, so they
     * hang on it.
     */
    method SkipTo(target: char) returns (hangs: bool)
      requires Stream() != []
      modifies this
      ensures hangs <==> old(Stream())[0] != target && old(Stream())[0] != '\n'
      ensures if old(Stream())[0] == target then look == Empty && Stream() == old(Stream())[1..]
              else Stream() == old(Stream()) && look == Char(Stream()[0])
    {
      var m := Match(target);
      return !m && look != Char('\n');
    }

    /** `absorb_val`: the digits up to the first other character, which stays as lookahead. */
    method AbsorbVal(base: nat, ghost ds: string, ghost t: char, ghost rest: string) returns (u: Word)
      requires Base(base) && AllDigits(ds, base) && DigitValue(t, base) < 0 && Stream() == ds + [t] + rest
      modifies this
      ensures u == Value(ds, base) && look == Char(t) && input == rest
    {
      u := 0;
      var c;
      if look == Empty { c := GetChar(); } else { c := look.c; }
      ghost var n := 0;
      assert ds[..0] == [] && ds[0..] == ds;
      while DigitValue(c, base) >= 0
        invariant n <= |ds| && u == Value(ds[..n], base) && [c] + input == ds[n..] + [t] + rest
        decreases |ds| - n
      {
        AbsorbStep(c, input, ds, n, t, rest, base);
        u := Accumulated(u, c, base);
        c := GetChar();
        n := n + 1;
      }
      AbsorbStep(c, input, ds, n, t, rest, base);
      look := Char(c);
    }

    /** %d: an optional sign, then the digits. */
    method ScanSigned(ghost w: Word, ghost t: char, ghost rest: string) returns (r: Scanned)
      requires look == Empty && Stream() == Shown('d', w) + [t] + rest && DigitValue(t, 10) < 0
      modifies this
      ensures r == Number(w) && look == Char(t) && input == rest
    {
      ghost var u: Word := if w >= 0x8000_0000 then Negated(w) else w;
      ValueOfNumeral(u, 10);
      SignedText(w, u, t, rest);
      var minus := Match('-');
      if look == Char('\n') { return LineEnded; }
      if look == Char('+') || look == Char('-') { look := Empty; }
      var v := AbsorbVal(10, Numeral(u, 10), t, rest);
      return Number(if minus then Negated(v) else v);
    }

    /** %x: the prefix, then the digits. */
    method ScanHex(ghost w: Word, ghost t: char, ghost rest: string) returns (r: Scanned)
      requires look == Empty && Stream() == Shown('x', w) + [t] + rest && DigitValue(t, 16) < 0
      modifies this
      ensures r == Number(w) && look == Char(t) && input == rest
    {
      ValueOfNumeral(w, 16);
      HexText(w, t, rest);
      var h := SkipTo('0');
      if h { return Hangs; }
      h := SkipTo('x');
      if h { return Hangs; }
      var v := AbsorbVal(16, Numeral(w, 16), t, rest);
      return Number(v);
    }

    /** One conversion reads back what it printed. */
    method ScanOne(conv: char, ghost w: Word, ghost t: char, ghost rest: string) returns (r: Scanned)
      requires Conversion(conv) && look == Empty
               && Stream() == Shown(conv, w) + [t] + rest && DigitValue(t, BaseOf(conv)) < 0
      modifies this
      ensures r == Number(w) && look == Char(t) && input == rest
    {
      if conv == 'd' {
        r := ScanSigned(w, t, rest);
      } else if conv == 'x' || conv == 'p' {
        r := ScanHex(w, t, rest);
      } else {
        ValueOfNumeral(w, BaseOf(conv));
        var v := AbsorbVal(BaseOf(conv), Numeral(w, BaseOf(conv)), t, rest);
        r := Number(v);
      }
    }

    /** The scanner stands before place `i` of the format, and `k` arguments are recovered. */
    ghost predicate Scanning(fmt: string, args: seq<Word>, i: nat, k: nat, tail: string)
      reads this
    {
      && i <= |fmt| && k <= |args| && Fits(fmt[i..], args[k..]) && Scannable(fmt[i..])
      && Stream() == Shows(fmt[i..], args[k..]) + "\n" + tail
      && (look.Char? && i < |fmt| ==> fmt[i] != '%' && look != Char('\n'))
    }

    method ScanLiteral(fmt: string, i: nat, ghost args: seq<Word>, ghost k: nat, ghost tail: string)
      requires i < |fmt| && fmt[i] != '%' && Scanning(fmt, args, i, k, tail)
      modifies this
      ensures Scanning(fmt, args, i + 1, k, tail)
    {
      ShowsStep(fmt, args, i, k);
      ScannableStep(fmt, i);
      LiteralText(fmt[i], Shows(fmt[i + 1..], args[k..]), tail);
      if look != Char('\n') { var _ := Match(fmt[i]); }
    }

    method ScanConversion(fmt: string, i: nat, ghost args: seq<Word>, ghost k: nat, ghost tail: string)
      returns (v: Word)
      requires i < |fmt| && fmt[i] == '%' && Scanning(fmt, args, i, k, tail)
      modifies this
      ensures i + 2 <= |fmt| && k < |args| && v == args[k] && Scanning(fmt, args, i + 2, k + 1, tail)
    {
      ShowsStep(fmt, args, i, k);
      ScannableStep(fmt, i);
      ghost var left := Shows(fmt[i + 2..], args[k + 1..]) + "\n" + tail;
      ConversionText(fmt, args, i + 1, k, tail);
      var r := ScanOne(fmt[i + 1], args[k], left[0], left[1..]);
      return r.v;
    }

    /** `vscank` on the text that `vprintk` made of the same format, ended by a newline, recovers every argument. */
    method VScank(fmt: string, ghost args: seq<Word>, ghost tail: string) returns (vals: seq<Word>)
      requires Fits(fmt, args) && Scannable(fmt) && look == Empty && Stream() == Shows(fmt, args) + "\n" + tail
      modifies this
      ensures vals == args && Stream() == "\n" + tail
    {
      vals := [];
      var i := 0;
      assert fmt[0..] == fmt && args[0..] == args;
      while i < |fmt|
        invariant Scanning(fmt, args, i, |vals|, tail) && vals <= args
      {
        if fmt[i] != '%' {
          ScanLiteral(fmt, i, args, |vals|, tail);
          i := i + 1;
        } else {
          var v := ScanConversion(fmt, i, args, |vals|, tail);
          vals := vals + [v];
          i := i + 2;
        }
      }
    }
  }

  function Accumulated(u: Word, c: char, base: nat): Word
    requires Base(base)
  {
    var v: int := u;
    Wrap(v * base + DigitValue(c, base))
  }

  /** What the character in hand tells about the rest of the input. */
  lemma AbsorbStep(c: char, input: string, ds: string, n: nat, t: char, rest: string, base: nat)
    requires Base(base) && AllDigits(ds, base) && DigitValue(t, base) < 0
    requires n <= |ds| && [c] + input == ds[n..] + [t] + rest
    ensures if DigitValue(c, base) >= 0 then
        n < |ds| && c == ds[n] && input == ds[n + 1..] + [t] + rest && input != []
        && Value(ds[..n + 1], base) == Accumulated(Value(ds[..n], base), c, base)
      else n == |ds| && c == t && input == rest && ds[..n] == ds
  {
    assert c == ([c] + input)[0] && input == ([c] + input)[1..];
    if n < |ds| {
      assert ds[n..] == [ds[n]] + ds[n + 1..];
      assert (ds[n..] + [t] + rest)[1..] == ds[n + 1..] + [t] + rest;
      assert ds[..n + 1][..n] == ds[..n];
    } else {
      assert ds[n..] + [t] + rest == [t] + rest;
      assert ([t] + rest)[1..] == rest;
    }
  }
}
