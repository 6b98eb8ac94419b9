/** Machine integers of the 32-bit ARM target, as bounded mathematical integers. */
module Machine {
  const TWO32: int := 0x1_0000_0000

  type Byte = x: int | 0 <= x < 256
  type Word = x: int | 0 <= x < 0x1_0000_0000

  /** An unsigned 32-bit result: the mathematical value modulo 2^32. */
  function Wrap(x: int): (w: Word)
    ensures 0 <= x < TWO32 ==> w == x
  {
    x % TWO32
  }

  /** Four bytes, low byte first. */
  function Le32(b0: int, b1: int, b2: int, b3: int): (w: Word)
    requires 0 <= b0 < 256 && 0 <= b1 < 256 && 0 <= b2 < 256 && 0 <= b3 < 256
  {
    b0 + 0x100 * b1 + 0x1_0000 * b2 + 0x100_0000 * b3
  }

  function ByteAt(w: Word, i: nat): (b: Byte)
    requires i < 4
  {
    if i == 0 then w % 0x100
    else if i == 1 then w / 0x100 % 0x100
    else if i == 2 then w / 0x1_0000 % 0x100
    else w / 0x100_0000
  }

  /** The value of the four bytes, and each byte from the value. */
  lemma Le32Value(b0: Byte, b1: Byte, b2: Byte, b3: Byte)
    ensures var w: int := Le32(b0, b1, b2, b3);
      && w % 0x100 == b0 && w / 0x100 % 0x100 == b1 && w / 0x1_0000 % 0x100 == b2 && w / 0x100_0000 == b3
  {
    var w: int := Le32(b0, b1, b2, b3);
    assert w / 0x100 == b1 + 0x100 * b2 + 0x1_0000 * b3;
    assert w / 0x1_0000 == b2 + 0x100 * b3;
  }

  lemma Le32OfBytes(w: Word)
    ensures Le32(ByteAt(w, 0), ByteAt(w, 1), ByteAt(w, 2), ByteAt(w, 3)) == w
  {
    assert w / 0x1_0000 == w / 0x100 / 0x100;
    assert w / 0x100_0000 == w / 0x1_0000 / 0x100;
  }

  function Zeros(n: nat): (z: seq<Byte>)
    ensures |z| == n && forall j :: 0 <= j < n ==> z[j] == 0
  {
    seq(n, _ => 0)
  }

  /** Byte strings one behind the other. */
  function Flat(ss: seq<seq<Byte>>): seq<Byte> {
    if ss == [] then [] else Flat(ss[..|ss| - 1]) + ss[|ss| - 1]
  }

  lemma {:induction false} FlatConcat(a: seq<seq<Byte>>, b: seq<seq<Byte>>)
    ensures Flat(a + b) == Flat(a) + Flat(b)
  {
    if b == [] {
      assert a + b == a;
    } else {
      var n := |b| - 1;
      FlatConcat(a, b[..n]);
      assert (a + b)[..|a| + n] == a + b[..n];
      assert Flat(a) + Flat(b[..n]) + b[n] == Flat(a) + (Flat(b[..n]) + b[n]);
    }
  }

  lemma FlatHead(ss: seq<seq<Byte>>)
    requires ss != []
    ensures Flat(ss) == ss[0] + Flat(ss[1..]) && Flat(ss[..1]) == ss[0]
  {
    assert ss == ss[..1] + ss[1..] && ss[..1][..0] == [];
    FlatConcat(ss[..1], ss[1..]);
  }

  lemma FlatSnoc(ss: seq<seq<Byte>>, k: nat)
    requires k < |ss|
    ensures Flat(ss[..k + 1]) == Flat(ss[..k]) + ss[k]
  {
    assert ss[..k + 1][..k] == ss[..k];
  }
}
