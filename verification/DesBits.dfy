/** The bits of 32-bit words, counted from the lowest, and how the word operations of the cipher move
    them. */
module DesBits {
  import opened DesWords

  function IsOdd(w: bv32): bool {
    w & 1 != 0
  }

  function Half(w: bv32): bv32 {
    w >> 1
  }

  function BitAt(w: bv32, p: nat): bool
    decreases p
  {
    if p == 0 then IsOdd(w) else BitAt(Half(w), p - 1)
  }

  function WordBits(w: bv32): (bits: seq<bool>)
    ensures |bits| == 32
  {
    seq(32, p requires 0 <= p < 32 => BitAt(w, p))
  }

  // ---------------------------------------------------------------------------------------------
  // Bits and masks.
  // ---------------------------------------------------------------------------------------------

  lemma LowMasks(w: bv32)
    ensures BitAt(w, 0) == (w & 0x01 != 0)
    ensures BitAt(w, 1) == (w & 0x02 != 0)
    ensures BitAt(w, 2) == (w & 0x04 != 0)
    ensures BitAt(w, 3) == (w & 0x08 != 0)
    ensures BitAt(w, 4) == (w & 0x10 != 0)
    ensures BitAt(w, 5) == (w & 0x20 != 0)
    ensures BitAt(w, 6) == (w & 0x40 != 0)
    ensures BitAt(w, 7) == (w & 0x80 != 0)
  {
    hide IsOdd, Half;
    HalvesAreShifts(w);
    LowBits(w);
  }

  lemma HalvesAreShifts(w: bv32)
    ensures Half(w) == w >> 1
    ensures Half(w >> 1) == w >> 2
    ensures Half(w >> 2) == w >> 3
    ensures Half(w >> 3) == w >> 4
    ensures Half(w >> 4) == w >> 5
    ensures Half(w >> 5) == w >> 6
    ensures Half(w >> 6) == w >> 7
    ensures Half(w >> 7) == w >> 8
  {
  }

  lemma LowBits(w: bv32)
    ensures IsOdd(w) == (w & 0x01 != 0)
    ensures IsOdd(w >> 1) == (w & 0x02 != 0)
    ensures IsOdd(w >> 2) == (w & 0x04 != 0)
    ensures IsOdd(w >> 3) == (w & 0x08 != 0)
    ensures IsOdd(w >> 4) == (w & 0x10 != 0)
    ensures IsOdd(w >> 5) == (w & 0x20 != 0)
    ensures IsOdd(w >> 6) == (w & 0x40 != 0)
    ensures IsOdd(w >> 7) == (w & 0x80 != 0)
  {
  }

  lemma FourOn(w: bv32, p: nat)
    ensures BitAt(w, p + 4) == BitAt(Half(Half(Half(Half(w)))), p)
  {
    hide IsOdd, Half;
    assert BitAt(w, p + 4) == BitAt(Half(w), p + 3);
    assert BitAt(Half(w), p + 3) == BitAt(Half(Half(w)), p + 2);
    assert BitAt(Half(Half(w)), p + 2) == BitAt(Half(Half(Half(w))), p + 1);
  }

  lemma EightOn(w: bv32, p: nat)
    ensures BitAt(w, p + 8) == BitAt(w >> 8, p)
  {
    hide IsOdd, Half, BitAt;
    FourOn(w, p + 4);
    FourOn(Half(Half(Half(Half(w)))), p);
    HalvesAreShifts(w);
  }

  lemma Masks1(w: bv32)
    ensures BitAt(w, 8) == (w & 0x00000100 != 0)
    ensures BitAt(w, 9) == (w & 0x00000200 != 0)
    ensures BitAt(w, 10) == (w & 0x00000400 != 0)
    ensures BitAt(w, 11) == (w & 0x00000800 != 0)
    ensures BitAt(w, 12) == (w & 0x00001000 != 0)
    ensures BitAt(w, 13) == (w & 0x00002000 != 0)
    ensures BitAt(w, 14) == (w & 0x00004000 != 0)
    ensures BitAt(w, 15) == (w & 0x00008000 != 0)
  {
    hide BitAt;
    EightOn(w, 0);
    EightOn(w, 1);
    EightOn(w, 2);
    EightOn(w, 3);
    EightOn(w, 4);
    EightOn(w, 5);
    EightOn(w, 6);
    EightOn(w, 7);
    LowMasks(w >> 8);
  }

  lemma Masks2(w: bv32)
    ensures BitAt(w, 16) == (w & 0x00010000 != 0)
    ensures BitAt(w, 17) == (w & 0x00020000 != 0)
    ensures BitAt(w, 18) == (w & 0x00040000 != 0)
    ensures BitAt(w, 19) == (w & 0x00080000 != 0)
    ensures BitAt(w, 20) == (w & 0x00100000 != 0)
    ensures BitAt(w, 21) == (w & 0x00200000 != 0)
    ensures BitAt(w, 22) == (w & 0x00400000 != 0)
    ensures BitAt(w, 23) == (w & 0x00800000 != 0)
  {
    hide BitAt;
    EightOn(w, 8);
    EightOn(w, 9);
    EightOn(w, 10);
    EightOn(w, 11);
    EightOn(w, 12);
    EightOn(w, 13);
    EightOn(w, 14);
    EightOn(w, 15);
    Masks1(w >> 8);
  }

  lemma Masks3(w: bv32)
    ensures BitAt(w, 24) == (w & 0x01000000 != 0)
    ensures BitAt(w, 25) == (w & 0x02000000 != 0)
    ensures BitAt(w, 26) == (w & 0x04000000 != 0)
    ensures BitAt(w, 27) == (w & 0x08000000 != 0)
    ensures BitAt(w, 28) == (w & 0x10000000 != 0)
    ensures BitAt(w, 29) == (w & 0x20000000 != 0)
    ensures BitAt(w, 30) == (w & 0x40000000 != 0)
    ensures BitAt(w, 31) == (w & 0x80000000 != 0)
  {
    hide BitAt;
    EightOn(w, 16);
    EightOn(w, 17);
    EightOn(w, 18);
    EightOn(w, 19);
    EightOn(w, 20);
    EightOn(w, 21);
    EightOn(w, 22);
    EightOn(w, 23);
    Masks2(w >> 8);
  }

  // ---------------------------------------------------------------------------------------------
  // Exclusive or and rotation.
  // ---------------------------------------------------------------------------------------------

  lemma XorLowBit(v: bv32, w: bv32)
    ensures IsOdd(Xor(v, w)) == (IsOdd(v) != IsOdd(w)) && Half(Xor(v, w)) == Xor(Half(v), Half(w))
  {
  }

  lemma {:induction false} BitOfXor(v: bv32, w: bv32, p: nat)
    ensures BitAt(Xor(v, w), p) == (BitAt(v, p) != BitAt(w, p))
    decreases p
  {
    hide IsOdd, Half, Xor;
    XorLowBit(v, w);
    if p > 0 {
      BitOfXor(Half(v), Half(w), p - 1);
    }
  }

  lemma RotatedBits0(w: bv32)
    ensures BitAt(Rotate3(w), 0) == BitAt(w, 3)
    ensures BitAt(Rotate3(w), 1) == BitAt(w, 4)
    ensures BitAt(Rotate3(w), 2) == BitAt(w, 5)
    ensures BitAt(Rotate3(w), 3) == BitAt(w, 6)
    ensures BitAt(Rotate3(w), 4) == BitAt(w, 7)
    ensures BitAt(Rotate3(w), 5) == BitAt(w, 8)
    ensures BitAt(Rotate3(w), 6) == BitAt(w, 9)
    ensures BitAt(Rotate3(w), 7) == BitAt(w, 10)
  {
    hide BitAt;
    LowMasks(Rotate3(w));
    LowMasks(w);
    Masks1(w);
  }

  lemma RotatedBits1(w: bv32)
    ensures BitAt(Rotate3(w), 8) == BitAt(w, 11)
    ensures BitAt(Rotate3(w), 9) == BitAt(w, 12)
    ensures BitAt(Rotate3(w), 10) == BitAt(w, 13)
    ensures BitAt(Rotate3(w), 11) == BitAt(w, 14)
    ensures BitAt(Rotate3(w), 12) == BitAt(w, 15)
    ensures BitAt(Rotate3(w), 13) == BitAt(w, 16)
    ensures BitAt(Rotate3(w), 14) == BitAt(w, 17)
    ensures BitAt(Rotate3(w), 15) == BitAt(w, 18)
  {
    hide BitAt;
    Masks1(Rotate3(w));
    Masks1(w);
    Masks2(w);
  }

  lemma RotatedBits2(w: bv32)
    ensures BitAt(Rotate3(w), 16) == BitAt(w, 19)
    ensures BitAt(Rotate3(w), 17) == BitAt(w, 20)
    ensures BitAt(Rotate3(w), 18) == BitAt(w, 21)
    ensures BitAt(Rotate3(w), 19) == BitAt(w, 22)
    ensures BitAt(Rotate3(w), 20) == BitAt(w, 23)
    ensures BitAt(Rotate3(w), 21) == BitAt(w, 24)
    ensures BitAt(Rotate3(w), 22) == BitAt(w, 25)
    ensures BitAt(Rotate3(w), 23) == BitAt(w, 26)
  {
    hide BitAt;
    Masks2(Rotate3(w));
    Masks2(w);
    Masks3(w);
  }

  lemma RotatedBits3(w: bv32)
    ensures BitAt(Rotate3(w), 24) == BitAt(w, 27)
    ensures BitAt(Rotate3(w), 25) == BitAt(w, 28)
    ensures BitAt(Rotate3(w), 26) == BitAt(w, 29)
    ensures BitAt(Rotate3(w), 27) == BitAt(w, 30)
    ensures BitAt(Rotate3(w), 28) == BitAt(w, 31)
    ensures BitAt(Rotate3(w), 29) == BitAt(w, 0)
    ensures BitAt(Rotate3(w), 30) == BitAt(w, 1)
    ensures BitAt(Rotate3(w), 31) == BitAt(w, 2)
  {
    hide BitAt;
    Masks3(Rotate3(w));
    Masks3(w);
    LowMasks(w);
  }

}
