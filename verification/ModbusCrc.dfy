/** rtu_serial.cpp, dev_object.cpp and rtu_read.cpp: the CRC of MODBUS frames.  The code shifts a
    whole byte at a time; the laws are about the same register fed bit by bit, least significant
    bit of each byte first. */
module ModbusCrc {

  const POLYNOMIAL: bv16 := 0xa001
  const PRESET: bv16 := 0xffff

  /** One turn of the loop of calccrc. */
  function Shift(crc: bv16): bv16 {
    if crc & 1 == 1 then (crc >> 1) ^ 0xa001 else crc >> 1
  }

  function Shifts(crc: bv16, n: nat): bv16
    decreases n
  {
    if n == 0 then crc else Shifts(Shift(crc), n - 1)
  }

  function Xor16(a: bv16, b: bv16): bv16 {
    a ^ b
  }

  /** calccrc. */
  function ByteStep(crc: bv16, b: bv8): bv16 {
    Shifts(Xor16(crc, b as bv16), 8)
  }

  function CrcFrom(crc: bv16, m: seq<bv8>): bv16
    decreases m
  {
    if m == [] then crc else CrcFrom(ByteStep(crc, m[0]), m[1..])
  }

  function Crc(m: seq<bv8>): bv16 {
    CrcFrom(PRESET, m)
  }

  function LowByte(w: bv16): bv8 {
    (w & 0xff) as bv8
  }

  function HighByte(w: bv16): bv8 {
    (w >> 8) as bv8
  }

  function Word(high: bv8, low: bv8): bv16 {
    ((high as bv16) << 8) | (low as bv16)
  }

  /** A frame whose last two bytes are the CRC of the others, low byte first. */
  predicate Accepted(frame: seq<bv8>) {
    |frame| >= 2 && Word(frame[|frame| - 1], frame[|frame| - 2]) == Crc(frame[..|frame| - 2])
  }

  /** A frame with its CRC behind it, as every builder ends. */
  function WithCrc(m: seq<bv8>): seq<bv8> {
    m + [LowByte(Crc(m)), HighByte(Crc(m))]
  }

  // ---------------------------------------------------------------------------------------------
  // The code.
  // ---------------------------------------------------------------------------------------------

  lemma ShiftIsTheLoopBody(crc: bv16)
    ensures Shift(crc) == if crc & 1 == 1 then ((crc >> 1) & 0x7fff) ^ 0xa001 else (crc >> 1) & 0x7fff
  {
  }

  method CalcCrc(crc0: bv16, crcbuf: bv8) returns (crc: bv16)
    ensures crc == ByteStep(crc0, crcbuf)
  {
    hide Shift, Xor16;
    crc := Xor16(crc0, crcbuf as bv16);
    for x := 0 to 8
      invariant Shifts(crc, 8 - x) == ByteStep(crc0, crcbuf)
    {
      ShiftIsTheLoopBody(crc);
      var kkk := crc & 1;
      crc := (crc >> 1) & 0x7fff;
      if kkk == 1 {
        crc := crc ^ 0xa001;
      }
    }
  }

  lemma {:induction false} CrcAppend(crc: bv16, m: seq<bv8>, b: bv8)
    ensures CrcFrom(crc, m + [b]) == ByteStep(CrcFrom(crc, m), b)
    decreases m
  {
    hide ByteStep;
    if m == [] {
      assert m + [b] == [b] && [b][1..] == [];
    } else {
      assert (m + [b])[1..] == m[1..] + [b];
      CrcAppend(ByteStep(crc, m[0]), m[1..], b);
    }
  }

  method RtuCrc(buf: array<bv8>, len: nat) returns (crc: bv16)
    requires len <= buf.Length
    ensures crc == Crc(buf[..len])
  {
    hide ByteStep;
    crc := 0xffff;
    for i := 0 to len
      invariant crc == Crc(buf[..i])
    {
      assert buf[..i + 1] == buf[..i] + [buf[i]];
      CrcAppend(PRESET, buf[..i], buf[i]);
      crc := CalcCrc(crc, buf[i]);
    }
  }

  method RtuRecvCrc(buf: array<bv8>, len: nat) returns (ret: bool)
    requires len <= buf.Length
    ensures ret <==> Accepted(buf[..len])
  {
    hide Word, Crc;
    if len < 2 {
      return false;
    }
    var crc := Word(buf[len - 1], buf[len - 2]);
    var res := RtuCrc(buf, len - 2);
    assert buf[..len][..len - 2] == buf[..len - 2];
    return crc == res;
  }

  // ---------------------------------------------------------------------------------------------
  // Bit by bit.
  // ---------------------------------------------------------------------------------------------

  function BitWord(bit: bool): bv16 {
    if bit then 1 else 0
  }

  function BitStep(crc: bv16, bit: bool): bv16 {
    Shift(Xor16(crc, BitWord(bit)))
  }

  function CrcBits(crc: bv16, bits: seq<bool>): bv16
    decreases bits
  {
    if bits == [] then crc else CrcBits(BitStep(crc, bits[0]), bits[1..])
  }

  function IsOdd(w: bv16): bool {
    w & 1 == 1
  }

  function Half(w: bv16): bv16 {
    w >> 1
  }

  /** The n low bits of w, least significant first. */
  function BitsOf(w: bv16, n: nat): (bits: seq<bool>)
    ensures |bits| == n
    decreases n
  {
    if n == 0 then [] else [IsOdd(w)] + BitsOf(Half(w), n - 1)
  }

  /** Xoring a word in at once and xoring its lowest bit now and the others after the shift. */
  lemma ShiftOfXor(c: bv16, w: bv16)
    ensures Shift(Xor16(c, w)) == Xor16(BitStep(c, IsOdd(w)), Half(w))
  {
    hide Shift, Half, Xor16;
    if IsOdd(w) {
      SplitOdd(c, w);
      ShiftOfEvenXor(Xor16(c, 1), w ^ 1);
    } else {
      XorNothing(c);
      ShiftOfEvenXor(c, w);
    }
  }

  lemma SplitOdd(c: bv16, w: bv16)
    requires IsOdd(w)
    ensures Xor16(c, w) == Xor16(Xor16(c, 1), w ^ 1)
    ensures !IsOdd(w ^ 1) && Half(w ^ 1) == Half(w)
  {
  }

  /** Bit zero and the other bits of an exclusive or. */
  lemma XorByBits(z: bv16, y: bv16)
    ensures IsOdd(Xor16(z, y)) == (IsOdd(z) != IsOdd(y)) && Half(Xor16(z, y)) == Xor16(Half(z), Half(y))
  {
  }

  lemma ShiftOfEvenXor(z: bv16, y: bv16)
    requires !IsOdd(y)
    ensures Shift(Xor16(z, y)) == Xor16(Shift(z), Half(y))
  {
    hide Shift, Half, IsOdd, Xor16;
    XorByBits(z, y);
    if IsOdd(z) {
      OddShifts(z);
      OddShifts(Xor16(z, y));
      XorAssociates(Half(z), Half(y), POLYNOMIAL);
      XorSwaps(Half(y), POLYNOMIAL);
      XorAssociates(Half(z), POLYNOMIAL, Half(y));
    } else {
      EvenShifts(z);
      EvenShifts(Xor16(z, y));
    }
  }

  /** n shifts of a register into which an n-bit word was xored feed the word bit by bit. */
  lemma {:induction false} ShiftsFeedBits(c: bv16, w: bv16, n: nat)
    requires n <= 16 && Halves(w, n) == 0
    ensures Shifts(Xor16(c, w), n) == CrcBits(c, BitsOf(w, n))
    decreases n
  {
    hide Shift, Xor16, IsOdd, Half;
    if n > 0 {
      ShiftOfXor(c, w);
      ShiftsFeedBits(BitStep(c, IsOdd(w)), Half(w), n - 1);
      assert BitsOf(w, n)[1..] == BitsOf(Half(w), n - 1);
    } else {
      XorNothing(c);
    }
  }

  function Halves(w: bv16, n: nat): bv16
    decreases n
  {
    if n == 0 then w else Halves(Half(w), n - 1)
  }

  lemma XorNothing(c: bv16)
    ensures Xor16(c, 0) == c
  {
  }

  lemma ByteHasEightBits(b: bv8)
    ensures Halves(b as bv16, 8) == 0
  {
    var w := b as bv16;
    assert Halves(w, 8) == Halves(Half(Half(Half(Half(w)))), 4);
    assert Halves(Half(Half(Half(Half(w)))), 4) == Half(Half(Half(Half(Half(Half(Half(Half(w))))))));
    EightHalves(w);
  }

  lemma EightHalves(w: bv16)
    requires w < 256
    ensures Half(Half(Half(Half(Half(Half(Half(Half(w)))))))) == 0
  {
  }

  function ByteBits(b: bv8): seq<bool> {
    BitsOf(b as bv16, 8)
  }

  /** The bits of a frame in the order they go over the line. */
  function FrameBits(m: seq<bv8>): (bits: seq<bool>)
    ensures |bits| == 8 * |m|
  {
    if m == [] then [] else ByteBits(m[0]) + FrameBits(m[1..])
  }

  lemma {:induction false} CrcBitsAppend(c: bv16, a: seq<bool>, b: seq<bool>)
    ensures CrcBits(c, a + b) == CrcBits(CrcBits(c, a), b)
    decreases a
  {
    hide BitStep;
    if a == [] {
      assert a + b == b;
    } else {
      assert (a + b)[1..] == a[1..] + b;
      CrcBitsAppend(BitStep(c, a[0]), a[1..], b);
    }
  }

  /** The byte-wise CRC is the bit-wise one. */
  lemma {:induction false} CrcIsBitwise(c: bv16, m: seq<bv8>)
    ensures CrcFrom(c, m) == CrcBits(c, FrameBits(m))
    decreases m
  {
    hide Shifts, BitsOf, Xor16;
    if m != [] {
      ByteHasEightBits(m[0]);
      ShiftsFeedBits(c, m[0] as bv16, 8);
      CrcBitsAppend(c, ByteBits(m[0]), FrameBits(m[1..]));
      CrcIsBitwise(ByteStep(c, m[0]), m[1..]);
    }
  }

  // ---------------------------------------------------------------------------------------------
  // A frame is accepted exactly when the CRC of all of it, CRC included, is zero.
  // ---------------------------------------------------------------------------------------------

  lemma ShiftZero(c: bv16)
    ensures Shift(c) == 0 <==> c == 0
  {
  }

  lemma {:induction false} ShiftsZero(c: bv16, n: nat)
    ensures Shifts(c, n) == 0 <==> c == 0
    decreases n
  {
    hide Shift;
    if n > 0 {
      ShiftZero(c);
      ShiftsZero(Shift(c), n - 1);
    }
  }

  lemma {:induction false} ShiftsAdd(c: bv16, n: nat, k: nat)
    ensures Shifts(c, n + k) == Shifts(Shifts(c, n), k)
    decreases n
  {
    hide Shift;
    if n > 0 {
      ShiftsAdd(Shift(c), n - 1, k);
    }
  }

  /** Two bytes at once: the register takes the sixteen-bit word with the first byte low. */
  lemma TwoBytes(c: bv16, low: bv8, high: bv8)
    ensures ByteStep(ByteStep(c, low), high) == Shifts(Xor16(c, Word(high, low)), 16)
  {
    hide Shift, Xor16;
    EightShiftsOfHigh(Xor16(c, low as bv16), high);
    XorWord(c, low, high);
    ShiftsAdd(Xor16(c, Word(high, low)), 8, 8);
  }

  lemma XorWord(c: bv16, low: bv8, high: bv8)
    ensures Xor16(c, Word(high, low)) == Xor16(Xor16(c, low as bv16), (high as bv16) << 8)
  {
  }

  /** Bits above the ones being shifted out just move down. */
  lemma {:induction false} ShiftsOfHighBits(z: bv16, y: bv16, n: nat)
    requires LowZeros(y, n)
    ensures Shifts(Xor16(z, y), n) == Xor16(Shifts(z, n), Halves(y, n))
    decreases n
  {
    hide Shift, Half;
    if n > 0 {
      ShiftOfEvenXor(z, y);
      ShiftsOfHighBits(Shift(z), Half(y), n - 1);
    }
  }

  predicate LowZeros(y: bv16, n: nat)
    decreases n
  {
    n == 0 || (!IsOdd(y) && LowZeros(Half(y), n - 1))
  }

  lemma EightShiftsOfHigh(z: bv16, high: bv8)
    ensures Shifts(Xor16(z, (high as bv16) << 8), 8) == Xor16(Shifts(z, 8), high as bv16)
  {
    hide Shift, Xor16;
    var y := (high as bv16) << 8;
    HighByteAbove(high);
    ShiftsOfHighBits(z, y, 8);
  }

  lemma HighByteAbove(high: bv8)
    ensures LowZeros((high as bv16) << 8, 8) && Halves((high as bv16) << 8, 8) == high as bv16
  {
    hide Half, IsOdd;
    var h := high as bv16;
    HalvesOfShifted(h);
    assert LowZeros(h << 4, 4) && Halves(h << 4, 4) == h;
  }

  lemma HalvesOfShifted(h: bv16)
    requires h < 256
    ensures Half(h << 8) == h << 7 && Half(h << 7) == h << 6 && Half(h << 6) == h << 5 && Half(h << 5) == h << 4
    ensures Half(h << 4) == h << 3 && Half(h << 3) == h << 2 && Half(h << 2) == h << 1 && Half(h << 1) == h
    ensures !IsOdd(h << 8) && !IsOdd(h << 7) && !IsOdd(h << 6) && !IsOdd(h << 5)
    ensures !IsOdd(h << 4) && !IsOdd(h << 3) && !IsOdd(h << 2) && !IsOdd(h << 1)
  {
  }

  lemma XorSelf(a: bv16)
    ensures Xor16(a, a) == 0
  {
  }

  lemma XorBack(a: bv16, b: bv16)
    ensures Xor16(Xor16(a, b), b) == a
  {
  }

  lemma NothingXor(b: bv16)
    ensures Xor16(0, b) == b
  {
  }

  lemma XorZero(a: bv16, b: bv16)
    ensures Xor16(a, b) == 0 <==> a == b
  {
    hide Xor16;
    XorSelf(a);
    XorBack(a, b);
    NothingXor(b);
  }

  /** rtuRecvCrc accepts a frame exactly when running the CRC over all of it leaves zero. */
  lemma AcceptedIffZero(frame: seq<bv8>)
    requires |frame| >= 2
    ensures Accepted(frame) <==> Crc(frame) == 0
  {
    hide ByteStep, Shifts, Xor16, Word;
    var n := |frame| - 2;
    var m, low, high := frame[..n], frame[n], frame[n + 1];
    CrcAppend(PRESET, m, low);
    CrcAppend(PRESET, m + [low], high);
    assert frame == m + [low] + [high];
    TwoBytes(Crc(m), low, high);
    ShiftsZero(Xor16(Crc(m), Word(high, low)), 16);
    XorZero(Crc(m), Word(high, low));
  }

  // ---------------------------------------------------------------------------------------------
  // Two different accepted frames of equal length differ in more than sixteen consecutive bits.
  // ---------------------------------------------------------------------------------------------

  /** Where two bit strings differ. */
  function Difference(a: seq<bool>, b: seq<bool>): (d: seq<bool>)
    requires |a| == |b|
    ensures |d| == |a|
  {
    seq(|a|, i requires 0 <= i < |a| => a[i] != b[i])
  }

  lemma XorSwaps(a: bv16, b: bv16)
    ensures Xor16(a, b) == Xor16(b, a)
  {
  }

  lemma XorRegroups(a: bv16, b: bv16, c: bv16, d: bv16)
    ensures Xor16(Xor16(a, b), Xor16(c, d)) == Xor16(Xor16(a, c), Xor16(b, d))
  {
    hide Xor16;
    XorAssociates(a, b, Xor16(c, d));
    XorAssociates(b, c, d);
    XorSwaps(b, c);
    XorAssociates(c, b, d);
    XorAssociates(a, c, Xor16(b, d));
  }

  lemma XorAssociates(a: bv16, b: bv16, c: bv16)
    ensures Xor16(Xor16(a, b), c) == Xor16(a, Xor16(b, c))
  {
  }

  lemma XorOfOdds(p: bv16, q: bv16)
    requires IsOdd(p) && IsOdd(q)
    ensures !IsOdd(Xor16(p, q)) && Half(Xor16(p, q)) == Xor16(Half(p), Half(q))
  {
  }

  lemma OddShifts(x: bv16)
    requires IsOdd(x)
    ensures Shift(x) == Xor16(Half(x), POLYNOMIAL)
  {
  }

  lemma ShiftIsLinear(p: bv16, q: bv16)
    ensures Shift(Xor16(p, q)) == Xor16(Shift(p), Shift(q))
  {
    hide Shift, Half, IsOdd, Xor16;
    if !IsOdd(q) {
      ShiftOfEvenXor(p, q);
      EvenShifts(q);
    } else if !IsOdd(p) {
      XorSwaps(p, q);
      ShiftOfEvenXor(q, p);
      EvenShifts(p);
      XorSwaps(Half(p), Shift(q));
    } else {
      XorOfOdds(p, q);
      EvenShifts(Xor16(p, q));
      OddShifts(p);
      OddShifts(q);
      XorRegroups(Half(p), POLYNOMIAL, Half(q), POLYNOMIAL);
      XorSelf(POLYNOMIAL);
      XorNothing(Xor16(Half(p), Half(q)));
    }
  }

  lemma XorOfBits(x: bool, y: bool)
    ensures Xor16(BitWord(x), BitWord(y)) == BitWord(x != y)
  {
  }

  lemma BitStepIsLinear(c: bv16, c': bv16, x: bool, y: bool)
    ensures Xor16(BitStep(c, x), BitStep(c', y)) == BitStep(Xor16(c, c'), x != y)
  {
    hide Shift, Xor16, BitWord;
    ShiftIsLinear(Xor16(c, BitWord(x)), Xor16(c', BitWord(y)));
    XorRegroups(c, BitWord(x), c', BitWord(y));
    XorOfBits(x, y);
  }

  /** The difference of two runs is the run over the difference. */
  lemma {:induction false} CrcIsLinear(c: bv16, c': bv16, a: seq<bool>, b: seq<bool>)
    requires |a| == |b|
    ensures Xor16(CrcBits(c, a), CrcBits(c', b)) == CrcBits(Xor16(c, c'), Difference(a, b))
    decreases a
  {
    hide Xor16, BitStep;
    if a != [] {
      BitStepIsLinear(c, c', a[0], b[0]);
      CrcIsLinear(BitStep(c, a[0]), BitStep(c', b[0]), a[1..], b[1..]);
      assert Difference(a, b)[1..] == Difference(a[1..], b[1..]);
    }
  }

  predicate BitSet(w: bv16, j: nat)
    decreases j
  {
    if j == 0 then IsOdd(w) else BitSet(Half(w), j - 1)
  }

  lemma {:induction false} NoBitsAbove(w: bv16, k: nat, j: nat)
    requires k <= j && Halves(w, k) == 0
    ensures !BitSet(w, j)
    decreases j
  {
    hide Half, IsOdd;
    ZeroHasNoBits();
    if k > 0 {
      NoBitsAbove(Half(w), k - 1, j - 1);
    } else if j > 0 {
      NoBitsAbove(Half(w), 0, j - 1);
    }
  }

  lemma ZeroHasNoBits()
    ensures Half(0) == 0 && !IsOdd(0)
  {
  }

  /** Shifting an odd register sets its top bit. */
  lemma OddSetsTop(x: bv16)
    requires IsOdd(x)
    ensures BitSet(Shift(x), 15)
  {
    var w := Shift(x);
    var h := Half(Half(Half(Half(Half(w)))));
    assert BitSet(w, 15) == BitSet(h, 10);
    var i := Half(Half(Half(Half(Half(h)))));
    assert BitSet(h, 10) == BitSet(i, 5);
    var j := Half(Half(Half(Half(Half(i)))));
    assert BitSet(i, 5) == IsOdd(j);
    TopIsFifteenth(w);
  }

  lemma TopIsFifteenth(w: bv16)
    requires w & 0x8000 == 0x8000
    ensures
      var h := Half(Half(Half(Half(Half(w)))));
      var i := Half(Half(Half(Half(Half(h)))));
      IsOdd(Half(Half(Half(Half(Half(i))))))
  {
  }

  lemma EvenShifts(x: bv16)
    requires !IsOdd(x)
    ensures Shift(x) == Half(x)
  {
  }

  lemma LowBitOnly(d: bv16, e: bool)
    requires !IsOdd(Xor16(d, BitWord(e)))
    ensures Half(Xor16(d, BitWord(e))) == Half(d) && IsOdd(d) == e
  {
  }

  /** A run over at most sixteen bits that ends in zero began below 2 to the number of bits. */
  lemma {:induction false} EndsInZero(d: bv16, es: seq<bool>)
    requires |es| <= 16 && CrcBits(d, es) == 0
    ensures Halves(d, |es|) == 0
    decreases es
  {
    hide Shift, Half, IsOdd, Xor16;
    if es != [] {
      EndsInZero(BitStep(d, es[0]), es[1..]);
      FirstBitIsLow(d, es);
      LowBitOnly(d, es[0]);
      EvenShifts(Xor16(d, BitWord(es[0])));
    }
  }

  lemma FirstBitIsLow(d: bv16, es: seq<bool>)
    requires 0 < |es| <= 16 && Halves(BitStep(d, es[0]), |es| - 1) == 0
    ensures !IsOdd(Xor16(d, BitWord(es[0])))
  {
    hide Shift, Half, IsOdd, Xor16;
    var x := Xor16(d, BitWord(es[0]));
    NoBitsAbove(Shift(x), |es| - 1, 15);
    if IsOdd(x) {
      OddSetsTop(x);
    }
  }

  /** A run over at most sixteen bits from zero to zero read only zeros. */
  lemma {:induction false} ZeroToZero(es: seq<bool>)
    requires |es| <= 16 && CrcBits(0, es) == 0
    ensures forall i :: 0 <= i < |es| ==> !es[i]
    decreases es
  {
    hide Shift, Half, IsOdd, Xor16;
    if es != [] {
      EndsInZero(BitStep(0, es[0]), es[1..]);
      FirstBitIsLow(0, es);
      LowBitOnly(0, es[0]);
      ZeroHasNoBits();
      XorNothing(0);
      ShiftZero(0);
      ZeroToZero(es[1..]);
    }
  }

  lemma {:induction false} ZerosKeepZero(d: bv16, es: seq<bool>)
    requires forall i :: 0 <= i < |es| ==> !es[i]
    ensures CrcBits(d, es) == 0 <==> d == 0
    decreases es
  {
    hide Shift, Xor16;
    if es != [] {
      XorNothing(d);
      ShiftZero(d);
      ZerosKeepZero(Shift(d), es[1..]);
    }
  }

  lemma BurstIsSeen(es: seq<bool>, start: nat)
    requires forall i :: 0 <= i < |es| && es[i] ==> start <= i < start + 16
    requires CrcBits(0, es) == 0
    ensures forall i :: 0 <= i < |es| ==> !es[i]
  {
    hide CrcBits;
    var a := if start <= |es| then start else |es|;
    var b := if start + 16 <= |es| then start + 16 else |es|;
    var before, window, after := es[..a], es[a..b], es[b..];
    assert es == before + window + after;
    CrcBitsAppend(0, before + window, after);
    CrcBitsAppend(0, before, window);
    ZerosKeepZero(0, before);
    ZerosKeepZero(CrcBits(0, before + window), after);
    ZeroToZero(window);
    forall i | 0 <= i < |es|
      ensures !es[i]
    {
      if a <= i < b {
        assert es[i] == window[i - a];
      }
    }
  }

  lemma {:induction false} BitsDetermineWord(w: bv16, w': bv16, n: nat)
    requires BitsOf(w, n) == BitsOf(w', n) && Halves(w, n) == Halves(w', n)
    ensures w == w'
    decreases n
  {
    hide Half, IsOdd;
    if n > 0 {
      assert BitsOf(w, n)[0] == BitsOf(w', n)[0] && BitsOf(w, n)[1..] == BitsOf(w', n)[1..];
      BitsDetermineWord(Half(w), Half(w'), n - 1);
      HalfAndLowBit(w, w');
    }
  }

  lemma HalfAndLowBit(w: bv16, w': bv16)
    requires Half(w) == Half(w') && IsOdd(w) == IsOdd(w')
    ensures w == w'
  {
  }

  lemma {:induction false} BitsDetermineFrame(f: seq<bv8>, g: seq<bv8>)
    requires |f| == |g| && FrameBits(f) == FrameBits(g)
    ensures f == g
    decreases f
  {
    hide BitsOf;
    if f != [] {
      assert FrameBits(f)[..8] == ByteBits(f[0]) && FrameBits(g)[..8] == ByteBits(g[0]);
      assert FrameBits(f)[8..] == FrameBits(f[1..]) && FrameBits(g)[8..] == FrameBits(g[1..]);
      ByteHasEightBits(f[0]);
      ByteHasEightBits(g[0]);
      BitsDetermineWord(f[0] as bv16, g[0] as bv16, 8);
      BitsDetermineFrame(f[1..], g[1..]);
    }
  }

  /** Two frames of equal length whose bits differ only inside one window of sixteen are never both
      accepted, unless they are the same frame. */
  lemma BurstsAreRejected(f: seq<bv8>, g: seq<bv8>, start: nat)
    requires |f| == |g| && Accepted(f) && Accepted(g)
    requires forall i :: 0 <= i < 8 * |f| && FrameBits(f)[i] != FrameBits(g)[i] ==> start <= i < start + 16
    ensures f == g
  {
    hide CrcFrom, CrcBits, FrameBits, Xor16;
    AcceptedIffZero(f);
    AcceptedIffZero(g);
    CrcIsBitwise(PRESET, f);
    CrcIsBitwise(PRESET, g);
    CrcIsLinear(PRESET, PRESET, FrameBits(f), FrameBits(g));
    XorSelf(PRESET);
    XorSelf(0);
    BurstIsSeen(Difference(FrameBits(f), FrameBits(g)), start);
    forall i | 0 <= i < 8 * |f|
      ensures FrameBits(f)[i] == FrameBits(g)[i]
    {
      assert !Difference(FrameBits(f), FrameBits(g))[i];
    }
    BitsDetermineFrame(f, g);
  }

  lemma {:induction false} FrameBitsAt(m: seq<bv8>, k: nat, j: nat)
    requires k < |m| && j < 8
    ensures FrameBits(m)[8 * k + j] == ByteBits(m[k])[j]
  {
    hide ByteBits;
    if k > 0 {
      FrameBitsAt(m[1..], k - 1, j);
    }
  }

  /** In particular, two different accepted frames differ in more than two neighbouring bytes. */
  lemma TwoBadBytesAreRejected(f: seq<bv8>, g: seq<bv8>, k: nat)
    requires |f| == |g| && Accepted(f) && Accepted(g)
    requires forall i :: 0 <= i < |f| && f[i] != g[i] ==> i == k || i == k + 1
    ensures f == g
  {
    hide Accepted, FrameBits, ByteBits;
    forall i | 0 <= i < 8 * |f| && FrameBits(f)[i] != FrameBits(g)[i]
      ensures 8 * k <= i < 8 * k + 16
    {
      FrameBitsAt(f, i / 8, i % 8);
      FrameBitsAt(g, i / 8, i % 8);
    }
    BurstsAreRejected(f, g, 8 * k);
  }

  lemma WithCrcAccepted(m: seq<bv8>)
    ensures Accepted(WithCrc(m))
  {
    hide Crc;
    assert WithCrc(m)[..|m|] == m;
    BytesOfWord(Crc(m));
  }

  lemma BytesOfWord(w: bv16)
    ensures Word(HighByte(w), LowByte(w)) == w
  {
  }

  // ---------------------------------------------------------------------------------------------
  // What the polynomial and the preset are for.
  // ---------------------------------------------------------------------------------------------

  /** The generator of CRC-16, x^16 + x^15 + x^2 + 1, the highest power first. */
  const GENERATOR: seq<bool> := [
    true, true, false, false, false, false, false, false, false, false, false, false, false, false, true, false, true]

  lemma {:induction false} ZeroBitsShift(c: bv16, n: nat)
    ensures CrcBits(c, seq(n, i => false)) == Shifts(c, n)
    decreases n
  {
    hide Shift, Xor16;
    if n > 0 {
      XorNothing(c);
      assert seq(n, i => false)[1..] == seq(n - 1, i => false);
      ZeroBitsShift(Shift(c), n - 1);
    }
  }

  /** The register divides by the generator: fed with it, it comes back to zero. */
  lemma GeneratorLeavesZero()
    ensures CrcBits(0, GENERATOR) == 0
  {
    var first, last := [true, true], [true, false, true];
    var zeros := seq(12, i => false);
    assert GENERATOR == first + (zeros + last);
    CrcBitsAppend(0, first, zeros + last);
    CrcBitsAppend(0x5000, zeros, last);
    ZeroBitsShift(0x5000, 12);
    GeneratorEnds();
  }

  lemma GeneratorEnds()
    ensures CrcBits(0, [true, true]) == 0x5000
    ensures Shifts(0x5000, 12) == 5
    ensures CrcBits(5, [true, false, true]) == 0
  {
    assert CrcBits(0xa001, [true]) == 0x5000;
    assert CrcBits(2, [false, true]) == CrcBits(1, [true]) == 0;
  }

  /** From a register that is not zero, zeros lead to no zero. */
  lemma {:induction false} ZerosKeepNonzero(c: bv16, n: nat)
    requires c != 0
    ensures CrcFrom(c, seq(n, i => 0)) != 0
    decreases n
  {
    hide Shifts, Xor16;
    if n > 0 {
      XorNoByte(c);
      ShiftsZero(c, 8);
      assert seq(n, i => 0 as bv8)[1..] == seq(n - 1, i => 0 as bv8);
      ZerosKeepNonzero(ByteStep(c, 0), n - 1);
    }
  }

  lemma XorNoByte(c: bv16)
    ensures Xor16(c, (0 as bv8) as bv16) == c
  {
  }

  /** With the preset, no frame of zeros is accepted, however long: a silent line is not a frame. */
  lemma ZerosAreRejected(n: nat)
    ensures !Accepted(seq(n, i => 0))
  {
    hide CrcFrom;
    if n >= 2 {
      AcceptedIffZero(seq(n, i => 0));
      ZerosKeepNonzero(PRESET, n);
    }
  }

  /** The worked example of section 6.2.2 of the MODBUS over Serial Line Specification. */
  lemma CrcOfExample()
    ensures Crc([0x02, 0x07]) == 0x1241
  {
  }
}
