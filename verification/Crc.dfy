/**
 * The table-driven CRC-32 (libpi/libc/crc.c) against the bit-serial CRC of section 8 of
 * RFC 1952: polynomial 0xEDB88320 in reflected form, bits of a byte least significant first.
 */

/** Shift registers over any kind of word. */
module ShiftRegister {
  /** Addition of words, one step of the register, the lowest bit of a word, and a word without it. */
  datatype Ops<!W> = Ops(xor: (W, W) -> W, step: W -> W, low: W -> W, shift: W -> W)

  /** One bit of the message enters at the low end. */
  function Feed<W>(o: Ops<W>, c: W, bit: W): W { o.step(o.xor(c, bit)) }

  /** The lowest `n` bits of a word, least significant first. */
  function Bits<W>(o: Ops<W>, w: W, n: nat): seq<W> {
    if n == 0 then [] else [o.low(w)] + Bits(o, o.shift(w), n - 1)
  }

  /** The bit-serial register: the bits enter one by one. */
  function Serial<W>(o: Ops<W>, c: W, bits: seq<W>): W
    decreases |bits|
  {
    if bits == [] then c else Serial(o, Feed(o, c, bits[0]), bits[1..])
  }

  function Steps<W>(o: Ops<W>, c: W, n: nat): W
    decreases n
  {
    if n == 0 then c else Steps(o, o.step(c), n - 1)
  }

  function Shifts<W>(o: Ops<W>, w: W, n: nat): W
    decreases n
  {
    if n == 0 then w else Shifts(o, o.shift(w), n - 1)
  }

  ghost predicate Linear<W(!new)>(o: Ops<W>) {
    forall a, b :: o.step(o.xor(a, b)) == o.xor(o.step(a), o.step(b))
  }

  /** Of a word in the register the lowest bit acts as if fed; the others wait, one place further. */
  ghost predicate Splits<W(!new)>(o: Ops<W>) {
    forall c, w :: o.step(o.xor(c, w)) == o.xor(Feed(o, c, o.low(w)), o.shift(w))
  }

  lemma {:induction false} StepsAreLinear<W(!new)>(o: Ops<W>, a: W, b: W, n: nat)
    requires Linear(o)
    ensures Steps(o, o.xor(a, b), n) == o.xor(Steps(o, a, n), Steps(o, b, n))
    decreases n
  {
    if n > 0 { StepsAreLinear(o, o.step(a), o.step(b), n - 1); }
  }

  /** Feeding `n` bits one by one is the same as `n` steps with all of them in the register. */
  lemma {:induction false} SerialIsSteps<W(!new)>(o: Ops<W>, c: W, w: W, n: nat)
    requires Splits(o)
    ensures Steps(o, o.xor(c, w), n) == o.xor(Serial(o, c, Bits(o, w, n)), Shifts(o, w, n))
    decreases n
  {
    if n > 0 {
      SerialIsSteps(o, Feed(o, c, o.low(w)), o.shift(w), n - 1);
      assert Bits(o, w, n)[1..] == Bits(o, o.shift(w), n - 1);
    }
  }

  lemma {:induction false} SerialConcat<W>(o: Ops<W>, c: W, a: seq<W>, b: seq<W>)
    ensures Serial(o, c, a + b) == Serial(o, Serial(o, c, a), b)
    decreases |a|
  {
    if a == [] {
      assert a + b == b;
    } else {
      SerialConcat(o, Feed(o, c, a[0]), a[1..], b);
      assert (a + b)[1..] == a[1..] + b;
    }
  }

  lemma EightSteps<W>(o: Ops<W>, c: W)
    ensures Steps(o, c, 8) == o.step(o.step(o.step(o.step(o.step(o.step(o.step(o.step(c))))))))
  {
    var c4 := o.step(o.step(o.step(o.step(c))));
    assert Steps(o, c, 8) == Steps(o, c4, 4);
  }

  lemma EightShifts<W>(o: Ops<W>, w: W)
    ensures Shifts(o, w, 8) == o.shift(o.shift(o.shift(o.shift(o.shift(o.shift(o.shift(o.shift(w))))))))
  {
    var w4 := o.shift(o.shift(o.shift(o.shift(w))));
    assert Shifts(o, w, 8) == Shifts(o, w4, 4);
  }

  /** The bits of a whole buffer, `k` for each element. */
  function Message<W>(o: Ops<W>, buf: seq<W>, k: nat): seq<W> {
    if buf == [] then [] else Bits(o, buf[0], k) + Message(o, buf[1..], k)
  }

  lemma {:induction false} SerialOfOne<W>(o: Ops<W>, c: W, b: W, k: nat)
    ensures Serial(o, c, Message(o, [b], k)) == Serial(o, c, Bits(o, b, k)) && Serial(o, c, Message(o, [], k)) == c
  {
    assert [b][1..] == [] && Bits(o, b, k) + [] == Bits(o, b, k);
  }

  lemma {:induction false} MessageConcat<W>(o: Ops<W>, a: seq<W>, b: seq<W>, k: nat)
    ensures Message(o, a + b, k) == Message(o, a, k) + Message(o, b, k)
  {
    if a == [] {
      assert a + b == b;
    } else {
      MessageConcat(o, a[1..], b, k);
      assert (a + b)[1..] == a[1..] + b && (a + b)[0] == a[0];
    }
  }

  /** One more element: its bits enter behind those of the others. */
  lemma NextElement<W>(o: Ops<W>, c: W, buf: seq<W>, n: nat, k: nat)
    requires n < |buf|
    ensures Serial(o, c, Message(o, buf[..n + 1], k))
         == Serial(o, Serial(o, c, Message(o, buf[..n], k)), Bits(o, buf[n], k))
  {
    assert buf[..n + 1] == buf[..n] + [buf[n]];
    MessageConcat(o, buf[..n], [buf[n]], k);
    assert Message(o, [buf[n]], k) == Bits(o, buf[n], k) + [] == Bits(o, buf[n], k);
    SerialConcat(o, c, Message(o, buf[..n], k), Bits(o, buf[n], k));
  }
}

module Crc {
  import opened ShiftRegister

  // ----- the table -----

  function Row0(l: bv32): bv32 {
    if l == 0 then 0x00000000 else if l == 1 then 0x77073096 else
    if l == 2 then 0xEE0E612C else if l == 3 then 0x990951BA else
    if l == 4 then 0x076DC419 else if l == 5 then 0x706AF48F else
    if l == 6 then 0xE963A535 else if l == 7 then 0x9E6495A3 else
    if l == 8 then 0x0EDB8832 else if l == 9 then 0x79DCB8A4 else
    if l == 10 then 0xE0D5E91E else if l == 11 then 0x97D2D988 else
    if l == 12 then 0x09B64C2B else if l == 13 then 0x7EB17CBD else
    if l == 14 then 0xE7B82D07 else 0x90BF1D91
  }

  function Row1(l: bv32): bv32 {
    if l == 0 then 0x1DB71064 else if l == 1 then 0x6AB020F2 else
    if l == 2 then 0xF3B97148 else if l == 3 then 0x84BE41DE else
    if l == 4 then 0x1ADAD47D else if l == 5 then 0x6DDDE4EB else
    if l == 6 then 0xF4D4B551 else if l == 7 then 0x83D385C7 else
    if l == 8 then 0x136C9856 else if l == 9 then 0x646BA8C0 else
    if l == 10 then 0xFD62F97A else if l == 11 then 0x8A65C9EC else
    if l == 12 then 0x14015C4F else if l == 13 then 0x63066CD9 else
    if l == 14 then 0xFA0F3D63 else 0x8D080DF5
  }

  function Row2(l: bv32): bv32 {
    if l == 0 then 0x3B6E20C8 else if l == 1 then 0x4C69105E else
    if l == 2 then 0xD56041E4 else if l == 3 then 0xA2677172 else
    if l == 4 then 0x3C03E4D1 else if l == 5 then 0x4B04D447 else
    if l == 6 then 0xD20D85FD else if l == 7 then 0xA50AB56B else
    if l == 8 then 0x35B5A8FA else if l == 9 then 0x42B2986C else
    if l == 10 then 0xDBBBC9D6 else if l == 11 then 0xACBCF940 else
    if l == 12 then 0x32D86CE3 else if l == 13 then 0x45DF5C75 else
    if l == 14 then 0xDCD60DCF else 0xABD13D59
  }

  function Row3(l: bv32): bv32 {
    if l == 0 then 0x26D930AC else if l == 1 then 0x51DE003A else
    if l == 2 then 0xC8D75180 else if l == 3 then 0xBFD06116 else
    if l == 4 then 0x21B4F4B5 else if l == 5 then 0x56B3C423 else
    if l == 6 then 0xCFBA9599 else if l == 7 then 0xB8BDA50F else
    if l == 8 then 0x2802B89E else if l == 9 then 0x5F058808 else
    if l == 10 then 0xC60CD9B2 else if l == 11 then 0xB10BE924 else
    if l == 12 then 0x2F6F7C87 else if l == 13 then 0x58684C11 else
    if l == 14 then 0xC1611DAB else 0xB6662D3D
  }

  function Row4(l: bv32): bv32 {
    if l == 0 then 0x76DC4190 else if l == 1 then 0x01DB7106 else
    if l == 2 then 0x98D220BC else if l == 3 then 0xEFD5102A else
    if l == 4 then 0x71B18589 else if l == 5 then 0x06B6B51F else
    if l == 6 then 0x9FBFE4A5 else if l == 7 then 0xE8B8D433 else
    if l == 8 then 0x7807C9A2 else if l == 9 then 0x0F00F934 else
    if l == 10 then 0x9609A88E else if l == 11 then 0xE10E9818 else
    if l == 12 then 0x7F6A0DBB else if l == 13 then 0x086D3D2D else
    if l == 14 then 0x91646C97 else 0xE6635C01
  }

  function Row5(l: bv32): bv32 {
    if l == 0 then 0x6B6B51F4 else if l == 1 then 0x1C6C6162 else
    if l == 2 then 0x856530D8 else if l == 3 then 0xF262004E else
    if l == 4 then 0x6C0695ED else if l == 5 then 0x1B01A57B else
    if l == 6 then 0x8208F4C1 else if l == 7 then 0xF50FC457 else
    if l == 8 then 0x65B0D9C6 else if l == 9 then 0x12B7E950 else
    if l == 10 then 0x8BBEB8EA else if l == 11 then 0xFCB9887C else
    if l == 12 then 0x62DD1DDF else if l == 13 then 0x15DA2D49 else
    if l == 14 then 0x8CD37CF3 else 0xFBD44C65
  }

  function Row6(l: bv32): bv32 {
    if l == 0 then 0x4DB26158 else if l == 1 then 0x3AB551CE else
    if l == 2 then 0xA3BC0074 else if l == 3 then 0xD4BB30E2 else
    if l == 4 then 0x4ADFA541 else if l == 5 then 0x3DD895D7 else
    if l == 6 then 0xA4D1C46D else if l == 7 then 0xD3D6F4FB else
    if l == 8 then 0x4369E96A else if l == 9 then 0x346ED9FC else
    if l == 10 then 0xAD678846 else if l == 11 then 0xDA60B8D0 else
    if l == 12 then 0x44042D73 else if l == 13 then 0x33031DE5 else
    if l == 14 then 0xAA0A4C5F else 0xDD0D7CC9
  }

  function Row7(l: bv32): bv32 {
    if l == 0 then 0x5005713C else if l == 1 then 0x270241AA else
    if l == 2 then 0xBE0B1010 else if l == 3 then 0xC90C2086 else
    if l == 4 then 0x5768B525 else if l == 5 then 0x206F85B3 else
    if l == 6 then 0xB966D409 else if l == 7 then 0xCE61E49F else
    if l == 8 then 0x5EDEF90E else if l == 9 then 0x29D9C998 else
    if l == 10 then 0xB0D09822 else if l == 11 then 0xC7D7A8B4 else
    if l == 12 then 0x59B33D17 else if l == 13 then 0x2EB40D81 else
    if l == 14 then 0xB7BD5C3B else 0xC0BA6CAD
  }

  function Row8(l: bv32): bv32 {
    if l == 0 then 0xEDB88320 else if l == 1 then 0x9ABFB3B6 else
    if l == 2 then 0x03B6E20C else if l == 3 then 0x74B1D29A else
    if l == 4 then 0xEAD54739 else if l == 5 then 0x9DD277AF else
    if l == 6 then 0x04DB2615 else if l == 7 then 0x73DC1683 else
    if l == 8 then 0xE3630B12 else if l == 9 then 0x94643B84 else
    if l == 10 then 0x0D6D6A3E else if l == 11 then 0x7A6A5AA8 else
    if l == 12 then 0xE40ECF0B else if l == 13 then 0x9309FF9D else
    if l == 14 then 0x0A00AE27 else 0x7D079EB1
  }

  function Row9(l: bv32): bv32 {
    if l == 0 then 0xF00F9344 else if l == 1 then 0x8708A3D2 else
    if l == 2 then 0x1E01F268 else if l == 3 then 0x6906C2FE else
    if l == 4 then 0xF762575D else if l == 5 then 0x806567CB else
    if l == 6 then 0x196C3671 else if l == 7 then 0x6E6B06E7 else
    if l == 8 then 0xFED41B76 else if l == 9 then 0x89D32BE0 else
    if l == 10 then 0x10DA7A5A else if l == 11 then 0x67DD4ACC else
    if l == 12 then 0xF9B9DF6F else if l == 13 then 0x8EBEEFF9 else
    if l == 14 then 0x17B7BE43 else 0x60B08ED5
  }

  function RowA(l: bv32): bv32 {
    if l == 0 then 0xD6D6A3E8 else if l == 1 then 0xA1D1937E else
    if l == 2 then 0x38D8C2C4 else if l == 3 then 0x4FDFF252 else
    if l == 4 then 0xD1BB67F1 else if l == 5 then 0xA6BC5767 else
    if l == 6 then 0x3FB506DD else if l == 7 then 0x48B2364B else
    if l == 8 then 0xD80D2BDA else if l == 9 then 0xAF0A1B4C else
    if l == 10 then 0x36034AF6 else if l == 11 then 0x41047A60 else
    if l == 12 then 0xDF60EFC3 else if l == 13 then 0xA867DF55 else
    if l == 14 then 0x316E8EEF else 0x4669BE79
  }

  function RowB(l: bv32): bv32 {
    if l == 0 then 0xCB61B38C else if l == 1 then 0xBC66831A else
    if l == 2 then 0x256FD2A0 else if l == 3 then 0x5268E236 else
    if l == 4 then 0xCC0C7795 else if l == 5 then 0xBB0B4703 else
    if l == 6 then 0x220216B9 else if l == 7 then 0x5505262F else
    if l == 8 then 0xC5BA3BBE else if l == 9 then 0xB2BD0B28 else
    if l == 10 then 0x2BB45A92 else if l == 11 then 0x5CB36A04 else
    if l == 12 then 0xC2D7FFA7 else if l == 13 then 0xB5D0CF31 else
    if l == 14 then 0x2CD99E8B else 0x5BDEAE1D
  }

  function RowC(l: bv32): bv32 {
    if l == 0 then 0x9B64C2B0 else if l == 1 then 0xEC63F226 else
    if l == 2 then 0x756AA39C else if l == 3 then 0x026D930A else
    if l == 4 then 0x9C0906A9 else if l == 5 then 0xEB0E363F else
    if l == 6 then 0x72076785 else if l == 7 then 0x05005713 else
    if l == 8 then 0x95BF4A82 else if l == 9 then 0xE2B87A14 else
    if l == 10 then 0x7BB12BAE else if l == 11 then 0x0CB61B38 else
    if l == 12 then 0x92D28E9B else if l == 13 then 0xE5D5BE0D else
    if l == 14 then 0x7CDCEFB7 else 0x0BDBDF21
  }

  function RowD(l: bv32): bv32 {
    if l == 0 then 0x86D3D2D4 else if l == 1 then 0xF1D4E242 else
    if l == 2 then 0x68DDB3F8 else if l == 3 then 0x1FDA836E else
    if l == 4 then 0x81BE16CD else if l == 5 then 0xF6B9265B else
    if l == 6 then 0x6FB077E1 else if l == 7 then 0x18B74777 else
    if l == 8 then 0x88085AE6 else if l == 9 then 0xFF0F6A70 else
    if l == 10 then 0x66063BCA else if l == 11 then 0x11010B5C else
    if l == 12 then 0x8F659EFF else if l == 13 then 0xF862AE69 else
    if l == 14 then 0x616BFFD3 else 0x166CCF45
  }

  function RowE(l: bv32): bv32 {
    if l == 0 then 0xA00AE278 else if l == 1 then 0xD70DD2EE else
    if l == 2 then 0x4E048354 else if l == 3 then 0x3903B3C2 else
    if l == 4 then 0xA7672661 else if l == 5 then 0xD06016F7 else
    if l == 6 then 0x4969474D else if l == 7 then 0x3E6E77DB else
    if l == 8 then 0xAED16A4A else if l == 9 then 0xD9D65ADC else
    if l == 10 then 0x40DF0B66 else if l == 11 then 0x37D83BF0 else
    if l == 12 then 0xA9BCAE53 else if l == 13 then 0xDEBB9EC5 else
    if l == 14 then 0x47B2CF7F else 0x30B5FFE9
  }

  function RowF(l: bv32): bv32 {
    if l == 0 then 0xBDBDF21C else if l == 1 then 0xCABAC28A else
    if l == 2 then 0x53B39330 else if l == 3 then 0x24B4A3A6 else
    if l == 4 then 0xBAD03605 else if l == 5 then 0xCDD70693 else
    if l == 6 then 0x54DE5729 else if l == 7 then 0x23D967BF else
    if l == 8 then 0xB3667A2E else if l == 9 then 0xC4614AB8 else
    if l == 10 then 0x5D681B02 else if l == 11 then 0x2A6F2B94 else
    if l == 12 then 0xB40BBE37 else if l == 13 then 0xC30C8EA1 else
    if l == 14 then 0x5A05DF1B else 0x2D02EF8D
  }

  /** A byte, widened to a word as C does. */
  type Octet = b: bv32 | b < 0x100

  /** `crc32_tab`. */
  function Table(i: Octet): bv32 {
    var h, l := i >> 4, i & 0xF;
    if h == 0 then Row0(l) else if h == 1 then Row1(l) else if h == 2 then Row2(l) else if h == 3 then Row3(l) else
    if h == 4 then Row4(l) else if h == 5 then Row5(l) else if h == 6 then Row6(l) else if h == 7 then Row7(l) else
    if h == 8 then Row8(l) else if h == 9 then Row9(l) else if h == 10 then RowA(l) else if h == 11 then RowB(l) else
    if h == 12 then RowC(l) else if h == 13 then RowD(l) else if h == 14 then RowE(l) else RowF(l)
  }


  // ----- the register -----

  /** The register moves one bit; a bit that falls out feeds the polynomial back. */
  function Step(c: bv32): bv32 { if c & 1 == 1 then (c >> 1) ^ 0xEDB88320 else c >> 1 }

  function Xor(a: bv32, b: bv32): bv32 { a ^ b }

  function Low(w: bv32): bv32 { w & 1 }

  function Shift(w: bv32): bv32 { w >> 1 }

  const CRC: Ops<bv32> := Ops(Xor, Step, Low, Shift)

  /** The CRC of a buffer, continuing from the CRC of what came before (0 for nothing). */
  function Crc32(crc: bv32, buf: seq<Octet>): bv32 {
    Serial(CRC, crc ^ 0xFFFF_FFFF, Message(CRC, buf, 8)) ^ 0xFFFF_FFFF
  }

  // ----- what the word operations are -----

  lemma XorShift(a: bv32, b: bv32)
    ensures (a ^ b) >> 1 == (a >> 1) ^ (b >> 1)
  {
  }

  lemma XorLow(a: bv32, b: bv32)
    ensures (a ^ b) & 1 == (a & 1) ^ (b & 1)
  {
  }

  lemma LowBit(a: bv32)
    ensures a & 1 == 0 || a & 1 == 1
  {
  }

  lemma XorMoves(x: bv32, y: bv32, p: bv32)
    ensures (x ^ p) ^ (y ^ p) == x ^ y && (x ^ p) ^ y == (x ^ y) ^ p && x ^ (y ^ p) == (x ^ y) ^ p
  {
  }

  /** A step is linear. */
  lemma StepXor(a: bv32, b: bv32)
    ensures Step(Xor(a, b)) == Xor(Step(a), Step(b))
  {
    XorShift(a, b);
    XorLow(a, b);
    LowBit(a);
    LowBit(b);
    XorMoves(a >> 1, b >> 1, 0xEDB88320);
  }

  lemma CrcIsLinear()
    ensures Linear(CRC)
  {
    forall a, b ensures CRC.step(CRC.xor(a, b)) == CRC.xor(CRC.step(a), CRC.step(b)) { StepXor(a, b); }
  }

  lemma SameLow(c: bv32, w: bv32)
    ensures (c ^ w) & 1 == (c ^ (w & 1)) & 1 && (c ^ (w & 1)) >> 1 == c >> 1
  {
  }

  lemma FeedLow(c: bv32, w: bv32)
    ensures Step(Xor(c, w)) == Xor(Step(Xor(c, Low(w))), Shift(w))
  {
    SameLow(c, w);
    XorShift(c, w);
    LowBit(c ^ w);
    XorMoves(c >> 1, w >> 1, 0xEDB88320);
  }

  lemma CrcSplits()
    ensures Splits(CRC)
  {
    forall c, w ensures CRC.step(CRC.xor(c, w)) == CRC.xor(Feed(CRC, c, CRC.low(w)), CRC.shift(w)) { FeedLow(c, w); }
  }

  // ----- a byte at a time -----

  function Step8(c: bv32): bv32 { Step(Step(Step(Step(Step(Step(Step(Step(c)))))))) }

  lemma FirstRow(i: Octet)
    requires i < 0x10
    ensures Table(i) == Step8(i)
  {
  }

  lemma SecondRow(i: Octet)
    requires 0x10 <= i < 0x20
    ensures Table(i) == Step8(i)
  {
  }

  lemma Rows2To3(i: Octet)
    requires 0x20 <= i < 0x40
    ensures Table(i) == Step8(i)
  {
  }

  lemma Rows4To7(i: Octet)
    requires 0x40 <= i < 0x80
    ensures Table(i) == Step8(i)
  {
  }

  lemma Rows8ToB(i: Octet)
    requires 0x80 <= i < 0xC0
    ensures Table(i) == Step8(i)
  {
  }

  lemma RowsCToF(i: Octet)
    requires 0xC0 <= i
    ensures Table(i) == Step8(i)
  {
  }

  /** Every entry of the table is what eight steps make of its index. */
  lemma TableIsEightSteps(i: Octet)
    ensures Table(i) == Steps(CRC, i, 8)
  {
    if i < 0x10 {
      FirstRow(i);
    } else if i < 0x20 {
      SecondRow(i);
    } else if i < 0x40 {
      Rows2To3(i);
    } else if i < 0x80 {
      Rows4To7(i);
    } else if i < 0xC0 {
      Rows8ToB(i);
    } else {
      RowsCToF(i);
    }
    EightSteps(CRC, i);
  }

  /** Zeros fall out without a trace. */
  lemma EvenStep(x: bv32)
    requires x & 1 == 0
    ensures Step(x) == x >> 1
  {
  }

  lemma ShiftsAdd(x: bv32)
    ensures (x >> 1) >> 1 == x >> 2 && (x >> 2) >> 1 == x >> 3 && (x >> 3) >> 1 == x >> 4 && (x >> 4) >> 1 == x >> 5
    ensures (x >> 5) >> 1 == x >> 6 && (x >> 6) >> 1 == x >> 7 && (x >> 7) >> 1 == x >> 8
  {
  }

  lemma LowZeros(x: bv32)
    requires x & 0xFF == 0
    ensures x & 1 == 0 && (x >> 1) & 1 == 0 && (x >> 2) & 1 == 0 && (x >> 3) & 1 == 0
    ensures (x >> 4) & 1 == 0 && (x >> 5) & 1 == 0 && (x >> 6) & 1 == 0 && (x >> 7) & 1 == 0
  {
  }

  lemma ZerosFallOut(x: bv32)
    requires x & 0xFF == 0
    ensures Steps(CRC, x, 8) == x >> 8
  {
    LowZeros(x);
    ShiftsAdd(x);
    EvenStep(x);
    EvenStep(x >> 1);
    EvenStep(x >> 2);
    EvenStep(x >> 3);
    EvenStep(x >> 4);
    EvenStep(x >> 5);
    EvenStep(x >> 6);
    EvenStep(x >> 7);
    EightSteps(CRC, x);
  }

  lemma SplitByte(c: bv32)
    ensures Xor(c & 0xFF, c & 0xFFFF_FF00) == c && (c & 0xFFFF_FF00) & 0xFF == 0 && (c & 0xFFFF_FF00) >> 8 == c >> 8
  {
  }

  /** The body of the loop is eight steps. */
  lemma ByteStep(c: bv32)
    ensures Xor(Table(c & 0xFF), c >> 8) == Steps(CRC, c, 8)
  {
    SplitByte(c);
    TableIsEightSteps(c & 0xFF);
    ZerosFallOut(c & 0xFFFF_FF00);
    CrcIsLinear();
    StepsAreLinear(CRC, c & 0xFF, c & 0xFFFF_FF00, 8);
  }

  lemma ByteShiftsOut(w: Octet)
    ensures Shifts(CRC, w, 8) == 0
  {
    ShiftsAdd(w);
    EightShifts(CRC, w);
    OctetIsSmall(w);
  }

  lemma OctetIsSmall(w: Octet)
    ensures w >> 8 == 0
  {
  }

  /** Feeding the bits of a byte is adding it and taking eight steps. */
  lemma FeedByte(c: bv32, b: Octet)
    ensures Serial(CRC, c, Bits(CRC, b, 8)) == Steps(CRC, Xor(c, b), 8)
  {
    CrcSplits();
    SerialIsSteps(CRC, c, b, 8);
    ByteShiftsOut(b);
    assert Xor(Serial(CRC, c, Bits(CRC, b, 8)), 0) == Serial(CRC, c, Bits(CRC, b, 8));
  }

  lemma ShiftByte(c: bv32, b: Octet)
    ensures Xor(c, b) >> 8 == c >> 8
  {
  }

  /** One pass of the loop takes the bits of one byte. */
  lemma LoopBody(c: bv32, b: Octet)
    ensures Xor(Table(Xor(c, b) & 0xFF), c >> 8) == Serial(CRC, c, Bits(CRC, b, 8))
  {
    FeedByte(c, b);
    ByteStep(Xor(c, b));
    ShiftByte(c, b);
  }

  /** `our_crc32_inc`. */
  method Crc32Inc(buf: seq<Octet>, crc: bv32) returns (r: bv32)
    ensures r == Crc32(crc, buf)
  {
    r := crc ^ 0xFFFF_FFFF;
    ghost var c := r;
    for n := 0 to |buf|
      invariant r == Serial(CRC, c, Message(CRC, buf[..n], 8))
    {
      NextElement<bv32>(CRC, c, buf, n, 8);
      LoopBody(r, buf[n]);
      r := Xor(Table(Xor(r, buf[n]) & 0xFF), r >> 8);
    }
    assert buf[..|buf|] == buf;
    r := r ^ 0xFFFF_FFFF;
  }

  lemma XorTwice(s: bv32)
    ensures (s ^ 0xFFFF_FFFF) ^ 0xFFFF_FFFF == s
  {
  }

  /** Continuing from the CRC of a first buffer gives the CRC of both. */
  lemma CrcOfConcat(crc: bv32, a: seq<Octet>, b: seq<Octet>)
    ensures Crc32(Crc32(crc, a), b) == Crc32(crc, a + b)
  {
    MessageConcat<bv32>(CRC, a, b, 8);
    SerialConcat(CRC, crc ^ 0xFFFF_FFFF, Message(CRC, a, 8), Message(CRC, b, 8));
    XorTwice(Serial(CRC, crc ^ 0xFFFF_FFFF, Message(CRC, a, 8)));
  }

  lemma CrcOfNothing(crc: bv32)
    ensures Crc32(crc, []) == crc
  {
    SerialOfOne<bv32>(CRC, crc ^ 0xFFFF_FFFF, 0, 8);
    XorTwice(crc);
  }

  lemma TableAt9E()
    ensures Xor(Table(Xor(0xFFFF_FFFF, 0x61) & 0xFF), 0xFFFF_FFFF >> 8) == 0x1748_41BC
  {
    assert Xor(0xFFFF_FFFF, 0x61) & 0xFF == 0x9E;
    assert Table(0x9E) == 0x17B7_BE43;
  }

  /** The CRC of the letter a. */
  lemma CheckValue()
    ensures Crc32(0, [0x61]) == 0xE8B7_BE43
  {
    SerialOfOne<bv32>(CRC, 0xFFFF_FFFF, 0x61, 8);
    LoopBody(0xFFFF_FFFF, 0x61);
    TableAt9E();
  }
}
