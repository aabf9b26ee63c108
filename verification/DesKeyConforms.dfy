/** des_set_key makes the key schedule of FIPS PUB 46-3: PC1 by exchanges of bits, PC2 by tables. */
module DesKeyConforms {
  import opened DesWords
  import opened DesBits
  import opened DesPermutations
  import opened DesBlockCipher
  import opened DesKeyTables
  import opened DesKeySchedule
  import Fips = FipsDes

  function HalfBits(w: bv32): (bits: Fips.Half) {
    seq(28, p requires 0 <= p < 28 => BitAt(w, p))
  }

  lemma SevenSelected(bits: Fips.Bits, row: seq<nat>, out: Fips.Bits)
    requires |row| == 7 && |out| == 7
    requires out[0] == Fips.Bit(bits, row[0]) && out[1] == Fips.Bit(bits, row[1])
    requires out[2] == Fips.Bit(bits, row[2]) && out[3] == Fips.Bit(bits, row[3])
    requires out[4] == Fips.Bit(bits, row[4]) && out[5] == Fips.Bit(bits, row[5])
    requires out[6] == Fips.Bit(bits, row[6])
    ensures out == Fips.SelectRow(bits, row)
  {
  }

  // ---------------------------------------------------------------------------------------------
  // PC1, row by row of its table.
  // ---------------------------------------------------------------------------------------------

  lemma Pc1Row0(b: Block)
    ensures HalfBits(Pc1(b.w0, b.w1).c)[0..7] == Fips.SelectRow(BlockBits(b), Fips.PC1[0])
  {
    hide BitAt, BlockBits;
    LowMasks(Pc1(b.w0, b.w1).c);
    Masks1(b.w0);
    Masks2(b.w0);
    Masks3(b.w0);
    LowMasks(b.w1);
    Masks1(b.w1);
    Masks2(b.w1);
    Masks3(b.w1);
    BlockBit(b, 7, 0);
    BlockBit(b, 6, 0);
    BlockBit(b, 5, 0);
    BlockBit(b, 4, 0);
    BlockBit(b, 3, 0);
    BlockBit(b, 2, 0);
    BlockBit(b, 1, 0);
    SevenSelected(BlockBits(b), Fips.PC1[0], HalfBits(Pc1(b.w0, b.w1).c)[0..7]);
  }

  lemma Pc1Row1(b: Block)
    ensures HalfBits(Pc1(b.w0, b.w1).c)[7..14] == Fips.SelectRow(BlockBits(b), Fips.PC1[1])
  {
    hide BitAt, BlockBits;
    LowMasks(Pc1(b.w0, b.w1).c);
    Masks1(Pc1(b.w0, b.w1).c);
    LowMasks(b.w0);
    Masks2(b.w0);
    Masks3(b.w0);
    LowMasks(b.w1);
    Masks1(b.w1);
    Masks2(b.w1);
    Masks3(b.w1);
    BlockBit(b, 0, 0);
    BlockBit(b, 7, 1);
    BlockBit(b, 6, 1);
    BlockBit(b, 5, 1);
    BlockBit(b, 4, 1);
    BlockBit(b, 3, 1);
    BlockBit(b, 2, 1);
    SevenSelected(BlockBits(b), Fips.PC1[1], HalfBits(Pc1(b.w0, b.w1).c)[7..14]);
  }

  lemma Pc1Row2(b: Block)
    ensures HalfBits(Pc1(b.w0, b.w1).c)[14..21] == Fips.SelectRow(BlockBits(b), Fips.PC1[2])
  {
    hide BitAt, BlockBits;
    Masks1(Pc1(b.w0, b.w1).c);
    Masks2(Pc1(b.w0, b.w1).c);
    LowMasks(b.w0);
    Masks1(b.w0);
    Masks3(b.w0);
    LowMasks(b.w1);
    Masks1(b.w1);
    Masks2(b.w1);
    Masks3(b.w1);
    BlockBit(b, 1, 1);
    BlockBit(b, 0, 1);
    BlockBit(b, 7, 2);
    BlockBit(b, 6, 2);
    BlockBit(b, 5, 2);
    BlockBit(b, 4, 2);
    BlockBit(b, 3, 2);
    SevenSelected(BlockBits(b), Fips.PC1[2], HalfBits(Pc1(b.w0, b.w1).c)[14..21]);
  }

  lemma Pc1Row3(b: Block)
    ensures HalfBits(Pc1(b.w0, b.w1).c)[21..28] == Fips.SelectRow(BlockBits(b), Fips.PC1[3])
  {
    hide BitAt, BlockBits;
    Masks2(Pc1(b.w0, b.w1).c);
    Masks3(Pc1(b.w0, b.w1).c);
    LowMasks(b.w0);
    Masks1(b.w0);
    Masks2(b.w0);
    LowMasks(b.w1);
    Masks1(b.w1);
    Masks2(b.w1);
    Masks3(b.w1);
    BlockBit(b, 2, 2);
    BlockBit(b, 1, 2);
    BlockBit(b, 0, 2);
    BlockBit(b, 7, 3);
    BlockBit(b, 6, 3);
    BlockBit(b, 5, 3);
    BlockBit(b, 4, 3);
    SevenSelected(BlockBits(b), Fips.PC1[3], HalfBits(Pc1(b.w0, b.w1).c)[21..28]);
  }

  lemma Pc1Row4(b: Block)
    ensures HalfBits(Pc1(b.w0, b.w1).d)[0..7] == Fips.SelectRow(BlockBits(b), Fips.PC1[4])
  {
    hide BitAt, BlockBits;
    LowMasks(Pc1(b.w0, b.w1).d);
    Masks1(b.w0);
    Masks2(b.w0);
    Masks3(b.w0);
    LowMasks(b.w1);
    Masks1(b.w1);
    Masks2(b.w1);
    Masks3(b.w1);
    BlockBit(b, 7, 6);
    BlockBit(b, 6, 6);
    BlockBit(b, 5, 6);
    BlockBit(b, 4, 6);
    BlockBit(b, 3, 6);
    BlockBit(b, 2, 6);
    BlockBit(b, 1, 6);
    SevenSelected(BlockBits(b), Fips.PC1[4], HalfBits(Pc1(b.w0, b.w1).d)[0..7]);
  }

  lemma Pc1Row5(b: Block)
    ensures HalfBits(Pc1(b.w0, b.w1).d)[7..14] == Fips.SelectRow(BlockBits(b), Fips.PC1[5])
  {
    hide BitAt, BlockBits;
    LowMasks(Pc1(b.w0, b.w1).d);
    Masks1(Pc1(b.w0, b.w1).d);
    LowMasks(b.w0);
    Masks2(b.w0);
    Masks3(b.w0);
    LowMasks(b.w1);
    Masks1(b.w1);
    Masks2(b.w1);
    Masks3(b.w1);
    BlockBit(b, 0, 6);
    BlockBit(b, 7, 5);
    BlockBit(b, 6, 5);
    BlockBit(b, 5, 5);
    BlockBit(b, 4, 5);
    BlockBit(b, 3, 5);
    BlockBit(b, 2, 5);
    SevenSelected(BlockBits(b), Fips.PC1[5], HalfBits(Pc1(b.w0, b.w1).d)[7..14]);
  }

  lemma Pc1Row6(b: Block)
    ensures HalfBits(Pc1(b.w0, b.w1).d)[14..21] == Fips.SelectRow(BlockBits(b), Fips.PC1[6])
  {
    hide BitAt, BlockBits;
    Masks1(Pc1(b.w0, b.w1).d);
    Masks2(Pc1(b.w0, b.w1).d);
    LowMasks(b.w0);
    Masks1(b.w0);
    Masks3(b.w0);
    LowMasks(b.w1);
    Masks1(b.w1);
    Masks2(b.w1);
    Masks3(b.w1);
    BlockBit(b, 1, 5);
    BlockBit(b, 0, 5);
    BlockBit(b, 7, 4);
    BlockBit(b, 6, 4);
    BlockBit(b, 5, 4);
    BlockBit(b, 4, 4);
    BlockBit(b, 3, 4);
    SevenSelected(BlockBits(b), Fips.PC1[6], HalfBits(Pc1(b.w0, b.w1).d)[14..21]);
  }

  lemma Pc1Row7(b: Block)
    ensures HalfBits(Pc1(b.w0, b.w1).d)[21..28] == Fips.SelectRow(BlockBits(b), Fips.PC1[7])
  {
    hide BitAt, BlockBits;
    Masks2(Pc1(b.w0, b.w1).d);
    Masks3(Pc1(b.w0, b.w1).d);
    LowMasks(b.w0);
    Masks1(b.w0);
    Masks2(b.w0);
    Masks3(b.w0);
    BlockBit(b, 2, 4);
    BlockBit(b, 1, 4);
    BlockBit(b, 0, 4);
    BlockBit(b, 3, 3);
    BlockBit(b, 2, 3);
    BlockBit(b, 1, 3);
    BlockBit(b, 0, 3);
    SevenSelected(BlockBits(b), Fips.PC1[7], HalfBits(Pc1(b.w0, b.w1).d)[21..28]);
  }

  lemma Pc1Selects(b: Block)
    ensures HalfBits(Pc1(b.w0, b.w1).c) + HalfBits(Pc1(b.w0, b.w1).d) == Fips.Select(BlockBits(b), Fips.PC1)
  {
    hide Pc1, BlockBits, HalfBits, Fips.SelectRow;
    Pc1Row0(b);
    Pc1Row1(b);
    Pc1Row2(b);
    Pc1Row3(b);
    Pc1Row4(b);
    Pc1Row5(b);
    Pc1Row6(b);
    Pc1Row7(b);
    FourSevens(HalfBits(Pc1(b.w0, b.w1).c));
    FourSevens(HalfBits(Pc1(b.w0, b.w1).d));
  }

  lemma FourSevens(s: Fips.Bits)
    requires |s| == 28
    ensures s == s[..7] + s[7..14] + s[14..21] + s[21..28]
  {
  }

  // ---------------------------------------------------------------------------------------------
  // The shifts.
  // ---------------------------------------------------------------------------------------------

  lemma SameEight(a: Fips.Bits, b: Fips.Bits)
    requires |a| == |b| == 8
    requires a[0] == b[0] && a[1] == b[1] && a[2] == b[2] && a[3] == b[3]
    requires a[4] == b[4] && a[5] == b[5] && a[6] == b[6] && a[7] == b[7]
    ensures a == b
  {
  }

  lemma ShiftedBit(half: Fips.Bits, n: nat, p: nat)
    requires n <= |half| && p < |half|
    ensures Fips.LeftShift(half, n)[p] == half[if p + n < |half| then p + n else p + n - |half|]
  {
  }

  lemma SameFour(a: Fips.Bits, b: Fips.Bits)
    requires |a| == |b| == 4
    requires a[0] == b[0] && a[1] == b[1] && a[2] == b[2] && a[3] == b[3]
    ensures a == b
  {
  }

  lemma ShiftOneRow0(h: bv32)
    requires IsHalf(h)
    ensures HalfBits(ShiftOne(h))[0..8] == Fips.LeftShift(HalfBits(h), 1)[0..8]
  {
    hide BitAt, Fips.LeftShift;
    LowMasks(ShiftOne(h));
    LowMasks(h);
    Masks1(h);
    ShiftedBit(HalfBits(h), 1, 0);
    ShiftedBit(HalfBits(h), 1, 1);
    ShiftedBit(HalfBits(h), 1, 2);
    ShiftedBit(HalfBits(h), 1, 3);
    ShiftedBit(HalfBits(h), 1, 4);
    ShiftedBit(HalfBits(h), 1, 5);
    ShiftedBit(HalfBits(h), 1, 6);
    ShiftedBit(HalfBits(h), 1, 7);
    SameEight(HalfBits(ShiftOne(h))[0..8], Fips.LeftShift(HalfBits(h), 1)[0..8]);
  }

  lemma ShiftOneRow1(h: bv32)
    requires IsHalf(h)
    ensures HalfBits(ShiftOne(h))[8..16] == Fips.LeftShift(HalfBits(h), 1)[8..16]
  {
    hide BitAt, Fips.LeftShift;
    Masks1(ShiftOne(h));
    Masks1(h);
    Masks2(h);
    ShiftedBit(HalfBits(h), 1, 8);
    ShiftedBit(HalfBits(h), 1, 9);
    ShiftedBit(HalfBits(h), 1, 10);
    ShiftedBit(HalfBits(h), 1, 11);
    ShiftedBit(HalfBits(h), 1, 12);
    ShiftedBit(HalfBits(h), 1, 13);
    ShiftedBit(HalfBits(h), 1, 14);
    ShiftedBit(HalfBits(h), 1, 15);
    SameEight(HalfBits(ShiftOne(h))[8..16], Fips.LeftShift(HalfBits(h), 1)[8..16]);
  }

  lemma ShiftOneRow2(h: bv32)
    requires IsHalf(h)
    ensures HalfBits(ShiftOne(h))[16..24] == Fips.LeftShift(HalfBits(h), 1)[16..24]
  {
    hide BitAt, Fips.LeftShift;
    Masks2(ShiftOne(h));
    Masks2(h);
    Masks3(h);
    ShiftedBit(HalfBits(h), 1, 16);
    ShiftedBit(HalfBits(h), 1, 17);
    ShiftedBit(HalfBits(h), 1, 18);
    ShiftedBit(HalfBits(h), 1, 19);
    ShiftedBit(HalfBits(h), 1, 20);
    ShiftedBit(HalfBits(h), 1, 21);
    ShiftedBit(HalfBits(h), 1, 22);
    ShiftedBit(HalfBits(h), 1, 23);
    SameEight(HalfBits(ShiftOne(h))[16..24], Fips.LeftShift(HalfBits(h), 1)[16..24]);
  }

  lemma ShiftOneRow3(h: bv32)
    requires IsHalf(h)
    ensures HalfBits(ShiftOne(h))[24..28] == Fips.LeftShift(HalfBits(h), 1)[24..28]
  {
    hide BitAt, Fips.LeftShift;
    Masks3(ShiftOne(h));
    LowMasks(h);
    Masks3(h);
    ShiftedBit(HalfBits(h), 1, 24);
    ShiftedBit(HalfBits(h), 1, 25);
    ShiftedBit(HalfBits(h), 1, 26);
    ShiftedBit(HalfBits(h), 1, 27);
    SameFour(HalfBits(ShiftOne(h))[24..28], Fips.LeftShift(HalfBits(h), 1)[24..28]);
  }

  lemma ShiftOneBits(h: bv32)
    requires IsHalf(h)
    ensures HalfBits(ShiftOne(h)) == Fips.LeftShift(HalfBits(h), 1)
  {
    hide ShiftOne, IsHalf, HalfBits, Fips.LeftShift;
    ShiftOneRow0(h);
    ShiftOneRow1(h);
    ShiftOneRow2(h);
    ShiftOneRow3(h);
    FourRows28(HalfBits(ShiftOne(h)));
    FourRows28(Fips.LeftShift(HalfBits(h), 1));
  }

  lemma ShiftTwoRow0(h: bv32)
    requires IsHalf(h)
    ensures HalfBits(ShiftTwo(h))[0..8] == Fips.LeftShift(HalfBits(h), 2)[0..8]
  {
    hide BitAt, Fips.LeftShift;
    LowMasks(ShiftTwo(h));
    LowMasks(h);
    Masks1(h);
    ShiftedBit(HalfBits(h), 2, 0);
    ShiftedBit(HalfBits(h), 2, 1);
    ShiftedBit(HalfBits(h), 2, 2);
    ShiftedBit(HalfBits(h), 2, 3);
    ShiftedBit(HalfBits(h), 2, 4);
    ShiftedBit(HalfBits(h), 2, 5);
    ShiftedBit(HalfBits(h), 2, 6);
    ShiftedBit(HalfBits(h), 2, 7);
    SameEight(HalfBits(ShiftTwo(h))[0..8], Fips.LeftShift(HalfBits(h), 2)[0..8]);
  }

  lemma ShiftTwoRow1(h: bv32)
    requires IsHalf(h)
    ensures HalfBits(ShiftTwo(h))[8..16] == Fips.LeftShift(HalfBits(h), 2)[8..16]
  {
    hide BitAt, Fips.LeftShift;
    Masks1(ShiftTwo(h));
    Masks1(h);
    Masks2(h);
    ShiftedBit(HalfBits(h), 2, 8);
    ShiftedBit(HalfBits(h), 2, 9);
    ShiftedBit(HalfBits(h), 2, 10);
    ShiftedBit(HalfBits(h), 2, 11);
    ShiftedBit(HalfBits(h), 2, 12);
    ShiftedBit(HalfBits(h), 2, 13);
    ShiftedBit(HalfBits(h), 2, 14);
    ShiftedBit(HalfBits(h), 2, 15);
    SameEight(HalfBits(ShiftTwo(h))[8..16], Fips.LeftShift(HalfBits(h), 2)[8..16]);
  }

  lemma ShiftTwoRow2(h: bv32)
    requires IsHalf(h)
    ensures HalfBits(ShiftTwo(h))[16..24] == Fips.LeftShift(HalfBits(h), 2)[16..24]
  {
    hide BitAt, Fips.LeftShift;
    Masks2(ShiftTwo(h));
    Masks2(h);
    Masks3(h);
    ShiftedBit(HalfBits(h), 2, 16);
    ShiftedBit(HalfBits(h), 2, 17);
    ShiftedBit(HalfBits(h), 2, 18);
    ShiftedBit(HalfBits(h), 2, 19);
    ShiftedBit(HalfBits(h), 2, 20);
    ShiftedBit(HalfBits(h), 2, 21);
    ShiftedBit(HalfBits(h), 2, 22);
    ShiftedBit(HalfBits(h), 2, 23);
    SameEight(HalfBits(ShiftTwo(h))[16..24], Fips.LeftShift(HalfBits(h), 2)[16..24]);
  }

  lemma ShiftTwoRow3(h: bv32)
    requires IsHalf(h)
    ensures HalfBits(ShiftTwo(h))[24..28] == Fips.LeftShift(HalfBits(h), 2)[24..28]
  {
    hide BitAt, Fips.LeftShift;
    Masks3(ShiftTwo(h));
    LowMasks(h);
    Masks3(h);
    ShiftedBit(HalfBits(h), 2, 24);
    ShiftedBit(HalfBits(h), 2, 25);
    ShiftedBit(HalfBits(h), 2, 26);
    ShiftedBit(HalfBits(h), 2, 27);
    SameFour(HalfBits(ShiftTwo(h))[24..28], Fips.LeftShift(HalfBits(h), 2)[24..28]);
  }

  lemma ShiftTwoBits(h: bv32)
    requires IsHalf(h)
    ensures HalfBits(ShiftTwo(h)) == Fips.LeftShift(HalfBits(h), 2)
  {
    hide ShiftTwo, IsHalf, HalfBits, Fips.LeftShift;
    ShiftTwoRow0(h);
    ShiftTwoRow1(h);
    ShiftTwoRow2(h);
    ShiftTwoRow3(h);
    FourRows28(HalfBits(ShiftTwo(h)));
    FourRows28(Fips.LeftShift(HalfBits(h), 2));
  }

  lemma FourRows28(s: Fips.Bits)
    requires |s| == 28
    ensures s == s[..8] + s[8..16] + s[16..24] + s[24..28]
  {
  }

  /** The halves after n turns are C and D after n shifts. */
  lemma {:induction false} HalvesShift(key: Key, n: nat)
    requires n <= ROUNDS
    ensures
      var h, s := HalvesAfter(KeyStart(key), n), Fips.Shifted(BlockBits(KeyBlock(key)), n);
      AreHalves(h) && HalfBits(h.c) == s.c && HalfBits(h.d) == s.d
  {
    hide Pc1, ShiftOne, ShiftTwo, HalfBits, BlockBits, IsHalf, Fips.LeftShift, LoadWord, Fips.Select;
    if n == 0 {
      var b := KeyBlock(key);
      Pc1Selects(b);
      Pc1Halves(b.w0, b.w1);
    } else {
      HalvesShift(key, n - 1);
      var h := HalvesAfter(KeyStart(key), n - 1);
      ShiftIsHalf(h.c);
      ShiftIsHalf(h.d);
      ShiftAmounts(n - 1);
      if SHIFTS2[n - 1] {
        ShiftTwoBits(h.c);
        ShiftTwoBits(h.d);
      } else {
        ShiftOneBits(h.c);
        ShiftOneBits(h.d);
      }
    }
  }

  lemma ShiftAmounts(i: nat)
    requires i < 16
    ensures Fips.LEFT_SHIFTS[i] == if SHIFTS2[i] then 2 else 1
  {
  }

  /** The eight bytes of a key as c2l loads them. */
  function KeyBlock(key: Key): Block {
    Block(LoadWord(key[0], key[1], key[2], key[3]), LoadWord(key[4], key[5], key[6], key[7]))
  }

  // ---------------------------------------------------------------------------------------------
  // The tables: every bit of an index appears at one place of an entry.
  // ---------------------------------------------------------------------------------------------

  lemma Skb0Spreads(x: bv6)
    ensures (SKB0.At(x) & 0x00000010 != 0) == (x & 1 != 0)
    ensures (SKB0.At(x) & 0x20000000 != 0) == (x & 2 != 0)
    ensures (SKB0.At(x) & 0x00010000 != 0) == (x & 4 != 0)
    ensures (SKB0.At(x) & 0x00000800 != 0) == (x & 8 != 0)
    ensures (SKB0.At(x) & 0x00000020 != 0) == (x & 16 != 0)
    ensures (SKB0.At(x) & 0x00080000 != 0) == (x & 32 != 0)
    ensures SKB0.At(x) & 0xdff6f7cf == 0
  {
  }

  lemma Skb1Spreads(x: bv6)
    ensures (SKB1.At(x) & 0x02000000 != 0) == (x & 1 != 0)
    ensures (SKB1.At(x) & 0x00002000 != 0) == (x & 2 != 0)
    ensures (SKB1.At(x) & 0x00200000 != 0) == (x & 4 != 0)
    ensures (SKB1.At(x) & 0x00000004 != 0) == (x & 8 != 0)
    ensures (SKB1.At(x) & 0x00000400 != 0) == (x & 16 != 0)
    ensures (SKB1.At(x) & 0x10000000 != 0) == (x & 32 != 0)
    ensures SKB1.At(x) & 0xeddfdbfb == 0
  {
  }

  lemma Skb2Spreads(x: bv6)
    ensures (SKB2.At(x) & 0x00000001 != 0) == (x & 1 != 0)
    ensures (SKB2.At(x) & 0x00040000 != 0) == (x & 2 != 0)
    ensures (SKB2.At(x) & 0x01000000 != 0) == (x & 4 != 0)
    ensures (SKB2.At(x) & 0x00000002 != 0) == (x & 8 != 0)
    ensures (SKB2.At(x) & 0x00000200 != 0) == (x & 16 != 0)
    ensures (SKB2.At(x) & 0x08000000 != 0) == (x & 32 != 0)
    ensures SKB2.At(x) & 0xf6fbfdfc == 0
  {
  }

  lemma Skb3Spreads(x: bv6)
    ensures (SKB3.At(x) & 0x00100000 != 0) == (x & 1 != 0)
    ensures (SKB3.At(x) & 0x00000100 != 0) == (x & 2 != 0)
    ensures (SKB3.At(x) & 0x00000008 != 0) == (x & 4 != 0)
    ensures (SKB3.At(x) & 0x00001000 != 0) == (x & 8 != 0)
    ensures (SKB3.At(x) & 0x04000000 != 0) == (x & 16 != 0)
    ensures (SKB3.At(x) & 0x00020000 != 0) == (x & 32 != 0)
    ensures SKB3.At(x) & 0xfbedeef7 == 0
  {
  }

  lemma Skb4Spreads(x: bv6)
    ensures (SKB4.At(x) & 0x10000000 != 0) == (x & 1 != 0)
    ensures (SKB4.At(x) & 0x00010000 != 0) == (x & 2 != 0)
    ensures (SKB4.At(x) & 0x00000004 != 0) == (x & 4 != 0)
    ensures (SKB4.At(x) & 0x20000000 != 0) == (x & 8 != 0)
    ensures (SKB4.At(x) & 0x00100000 != 0) == (x & 16 != 0)
    ensures (SKB4.At(x) & 0x00001000 != 0) == (x & 32 != 0)
    ensures SKB4.At(x) & 0xcfeeeffb == 0
  {
  }

  lemma Skb5Spreads(x: bv6)
    ensures (SKB5.At(x) & 0x08000000 != 0) == (x & 1 != 0)
    ensures (SKB5.At(x) & 0x00000008 != 0) == (x & 2 != 0)
    ensures (SKB5.At(x) & 0x00000400 != 0) == (x & 4 != 0)
    ensures (SKB5.At(x) & 0x00020000 != 0) == (x & 8 != 0)
    ensures (SKB5.At(x) & 0x00000001 != 0) == (x & 16 != 0)
    ensures (SKB5.At(x) & 0x02000000 != 0) == (x & 32 != 0)
    ensures SKB5.At(x) & 0xf5fdfbf6 == 0
  {
  }

  lemma Skb6Spreads(x: bv6)
    ensures (SKB6.At(x) & 0x00000100 != 0) == (x & 1 != 0)
    ensures (SKB6.At(x) & 0x00080000 != 0) == (x & 2 != 0)
    ensures (SKB6.At(x) & 0x01000000 != 0) == (x & 4 != 0)
    ensures (SKB6.At(x) & 0x00000010 != 0) == (x & 8 != 0)
    ensures (SKB6.At(x) & 0x00200000 != 0) == (x & 16 != 0)
    ensures (SKB6.At(x) & 0x00000200 != 0) == (x & 32 != 0)
    ensures SKB6.At(x) & 0xfed7fcef == 0
  {
  }

  lemma Skb7Spreads(x: bv6)
    ensures (SKB7.At(x) & 0x04000000 != 0) == (x & 1 != 0)
    ensures (SKB7.At(x) & 0x00040000 != 0) == (x & 2 != 0)
    ensures (SKB7.At(x) & 0x00000002 != 0) == (x & 4 != 0)
    ensures (SKB7.At(x) & 0x00002000 != 0) == (x & 8 != 0)
    ensures (SKB7.At(x) & 0x00000020 != 0) == (x & 16 != 0)
    ensures (SKB7.At(x) & 0x00000800 != 0) == (x & 32 != 0)
    ensures SKB7.At(x) & 0xfbfbd7dd == 0
  {
  }

  lemma SpreadCBits0(c: bv32)
    ensures (SpreadC(c) & 0x00000010 != 0) == (c & 0x00000001 != 0)
    ensures (SpreadC(c) & 0x20000000 != 0) == (c & 0x00000002 != 0)
    ensures (SpreadC(c) & 0x00010000 != 0) == (c & 0x00000004 != 0)
    ensures (SpreadC(c) & 0x00000800 != 0) == (c & 0x00000008 != 0)
    ensures (SpreadC(c) & 0x00000020 != 0) == (c & 0x00000010 != 0)
    ensures (SpreadC(c) & 0x00080000 != 0) == (c & 0x00000020 != 0)
  {
    hide Table.At;
    Skb0Spreads(Skb0Index(c));
    Skb1Spreads(Skb1Index(c));
    Skb2Spreads(Skb2Index(c));
    Skb3Spreads(Skb3Index(c));
  }

  lemma SpreadCBits1(c: bv32)
    ensures (SpreadC(c) & 0x02000000 != 0) == (c & 0x00000040 != 0)
    ensures (SpreadC(c) & 0x00002000 != 0) == (c & 0x00000080 != 0)
    ensures (SpreadC(c) & 0x00200000 != 0) == (c & 0x00000200 != 0)
    ensures (SpreadC(c) & 0x00000004 != 0) == (c & 0x00000400 != 0)
    ensures (SpreadC(c) & 0x00000400 != 0) == (c & 0x00000800 != 0)
    ensures (SpreadC(c) & 0x10000000 != 0) == (c & 0x00001000 != 0)
  {
    hide Table.At;
    Skb0Spreads(Skb0Index(c));
    Skb1Spreads(Skb1Index(c));
    Skb2Spreads(Skb2Index(c));
    Skb3Spreads(Skb3Index(c));
  }

  lemma SpreadCBits2(c: bv32)
    ensures (SpreadC(c) & 0x00000001 != 0) == (c & 0x00002000 != 0)
    ensures (SpreadC(c) & 0x00040000 != 0) == (c & 0x00004000 != 0)
    ensures (SpreadC(c) & 0x01000000 != 0) == (c & 0x00008000 != 0)
    ensures (SpreadC(c) & 0x00000002 != 0) == (c & 0x00010000 != 0)
    ensures (SpreadC(c) & 0x00000200 != 0) == (c & 0x00040000 != 0)
    ensures (SpreadC(c) & 0x08000000 != 0) == (c & 0x00080000 != 0)
  {
    hide Table.At;
    Skb0Spreads(Skb0Index(c));
    Skb1Spreads(Skb1Index(c));
    Skb2Spreads(Skb2Index(c));
    Skb3Spreads(Skb3Index(c));
  }

  lemma SpreadCBits3(c: bv32)
    ensures (SpreadC(c) & 0x00100000 != 0) == (c & 0x00100000 != 0)
    ensures (SpreadC(c) & 0x00000100 != 0) == (c & 0x00400000 != 0)
    ensures (SpreadC(c) & 0x00000008 != 0) == (c & 0x00800000 != 0)
    ensures (SpreadC(c) & 0x00001000 != 0) == (c & 0x02000000 != 0)
    ensures (SpreadC(c) & 0x04000000 != 0) == (c & 0x04000000 != 0)
    ensures (SpreadC(c) & 0x00020000 != 0) == (c & 0x08000000 != 0)
  {
    hide Table.At;
    Skb0Spreads(Skb0Index(c));
    Skb1Spreads(Skb1Index(c));
    Skb2Spreads(Skb2Index(c));
    Skb3Spreads(Skb3Index(c));
  }

  lemma SpreadDBits0(d: bv32)
    ensures (SpreadD(d) & 0x10000000 != 0) == (d & 0x00000001 != 0)
    ensures (SpreadD(d) & 0x00010000 != 0) == (d & 0x00000002 != 0)
    ensures (SpreadD(d) & 0x00000004 != 0) == (d & 0x00000004 != 0)
    ensures (SpreadD(d) & 0x20000000 != 0) == (d & 0x00000008 != 0)
    ensures (SpreadD(d) & 0x00100000 != 0) == (d & 0x00000010 != 0)
    ensures (SpreadD(d) & 0x00001000 != 0) == (d & 0x00000020 != 0)
  {
    hide Table.At;
    Skb4Spreads(Skb0Index(d));
    Skb5Spreads(Skb5Index(d));
    Skb6Spreads(Skb6Index(d));
    Skb7Spreads(Skb7Index(d));
  }

  lemma SpreadDBits1(d: bv32)
    ensures (SpreadD(d) & 0x08000000 != 0) == (d & 0x00000080 != 0)
    ensures (SpreadD(d) & 0x00000008 != 0) == (d & 0x00000100 != 0)
    ensures (SpreadD(d) & 0x00000400 != 0) == (d & 0x00000400 != 0)
    ensures (SpreadD(d) & 0x00020000 != 0) == (d & 0x00000800 != 0)
    ensures (SpreadD(d) & 0x00000001 != 0) == (d & 0x00001000 != 0)
    ensures (SpreadD(d) & 0x02000000 != 0) == (d & 0x00002000 != 0)
  {
    hide Table.At;
    Skb4Spreads(Skb0Index(d));
    Skb5Spreads(Skb5Index(d));
    Skb6Spreads(Skb6Index(d));
    Skb7Spreads(Skb7Index(d));
  }

  lemma SpreadDBits2(d: bv32)
    ensures (SpreadD(d) & 0x00000100 != 0) == (d & 0x00008000 != 0)
    ensures (SpreadD(d) & 0x00080000 != 0) == (d & 0x00010000 != 0)
    ensures (SpreadD(d) & 0x01000000 != 0) == (d & 0x00020000 != 0)
    ensures (SpreadD(d) & 0x00000010 != 0) == (d & 0x00040000 != 0)
    ensures (SpreadD(d) & 0x00200000 != 0) == (d & 0x00080000 != 0)
    ensures (SpreadD(d) & 0x00000200 != 0) == (d & 0x00100000 != 0)
  {
    hide Table.At;
    Skb4Spreads(Skb0Index(d));
    Skb5Spreads(Skb5Index(d));
    Skb6Spreads(Skb6Index(d));
    Skb7Spreads(Skb7Index(d));
  }

  lemma SpreadDBits3(d: bv32)
    ensures (SpreadD(d) & 0x04000000 != 0) == (d & 0x00200000 != 0)
    ensures (SpreadD(d) & 0x00040000 != 0) == (d & 0x00400000 != 0)
    ensures (SpreadD(d) & 0x00000002 != 0) == (d & 0x00800000 != 0)
    ensures (SpreadD(d) & 0x00002000 != 0) == (d & 0x01000000 != 0)
    ensures (SpreadD(d) & 0x00000020 != 0) == (d & 0x04000000 != 0)
    ensures (SpreadD(d) & 0x00000800 != 0) == (d & 0x08000000 != 0)
  {
    hide Table.At;
    Skb4Spreads(Skb0Index(d));
    Skb5Spreads(Skb5Index(d));
    Skb6Spreads(Skb6Index(d));
    Skb7Spreads(Skb7Index(d));
  }

  // ---------------------------------------------------------------------------------------------
  // PC2: box i takes six bits from place 4i + 2 on, round the end of the word, of the first subkey
  // word if i is even and of the second if it is odd.
  // ---------------------------------------------------------------------------------------------

  /** Six bits of a word. */
  function Six(w: bv32, p: nat): (bits: Fips.Bits)
    ensures |bits| == 6
  {
    [BitAt(w, p % 32), BitAt(w, (p + 1) % 32), BitAt(w, (p + 2) % 32),
     BitAt(w, (p + 3) % 32), BitAt(w, (p + 4) % 32), BitAt(w, (p + 5) % 32)]
  }

  lemma SixSelected(bits: Fips.Bits, row: seq<nat>, out: Fips.Bits)
    requires |row| == 6 && |out| == 6
    requires out[0] == Fips.Bit(bits, row[0]) && out[1] == Fips.Bit(bits, row[1])
    requires out[2] == Fips.Bit(bits, row[2]) && out[3] == Fips.Bit(bits, row[3])
    requires out[4] == Fips.Bit(bits, row[4]) && out[5] == Fips.Bit(bits, row[5])
    ensures out == Fips.SelectRow(bits, row)
  {
  }

  /** The forty-eight bits of a subkey. */
  function KeyBits(k: SubKey): (bits: Fips.Key48) {
    Six(k.k0, 2) + Six(k.k1, 6) + Six(k.k0, 10) + Six(k.k1, 14) +
    Six(k.k0, 18) + Six(k.k1, 22) + Six(k.k0, 26) + Six(k.k1, 30)
  }

  lemma KeyMoves0(h: KeyHalves)
    ensures BitAt(SubKeyOf(h).k0, 2) == BitAt(h.c, 13)
    ensures BitAt(SubKeyOf(h).k0, 3) == BitAt(h.c, 16)
    ensures BitAt(SubKeyOf(h).k0, 4) == BitAt(h.c, 10)
    ensures BitAt(SubKeyOf(h).k0, 5) == BitAt(h.c, 23)
    ensures BitAt(SubKeyOf(h).k0, 6) == BitAt(h.c, 0)
    ensures BitAt(SubKeyOf(h).k0, 7) == BitAt(h.c, 4)
  {
    hide BitAt, SpreadC, SpreadD;
    SpreadCBits0(h.c);
    SpreadCBits1(h.c);
    SpreadCBits2(h.c);
    SpreadCBits3(h.c);
    LowMasks(SubKeyOf(h).k0);
    LowMasks(h.c);
    Masks1(h.c);
    Masks2(h.c);
  }

  lemma KeyRow0(h: KeyHalves)
    ensures Six(SubKeyOf(h).k0, 2) == Fips.SelectRow(HalfBits(h.c) + HalfBits(h.d), Fips.PC2[0])
  {
    hide BitAt, SubKeyOf;
    KeyMoves0(h);
    SixSelected(HalfBits(h.c) + HalfBits(h.d), Fips.PC2[0], Six(SubKeyOf(h).k0, 2));
  }

  lemma KeyMoves1(h: KeyHalves)
    ensures BitAt(SubKeyOf(h).k1, 6) == BitAt(h.c, 2)
    ensures BitAt(SubKeyOf(h).k1, 7) == BitAt(h.c, 27)
    ensures BitAt(SubKeyOf(h).k1, 8) == BitAt(h.c, 14)
    ensures BitAt(SubKeyOf(h).k1, 9) == BitAt(h.c, 5)
    ensures BitAt(SubKeyOf(h).k1, 10) == BitAt(h.c, 20)
    ensures BitAt(SubKeyOf(h).k1, 11) == BitAt(h.c, 9)
  {
    hide BitAt, SpreadC, SpreadD;
    SpreadCBits0(h.c);
    SpreadCBits1(h.c);
    SpreadCBits2(h.c);
    SpreadCBits3(h.c);
    LowMasks(SubKeyOf(h).k1);
    Masks1(SubKeyOf(h).k1);
    LowMasks(h.c);
    Masks1(h.c);
    Masks2(h.c);
    Masks3(h.c);
  }

  lemma KeyRow1(h: KeyHalves)
    ensures Six(SubKeyOf(h).k1, 6) == Fips.SelectRow(HalfBits(h.c) + HalfBits(h.d), Fips.PC2[1])
  {
    hide BitAt, SubKeyOf;
    KeyMoves1(h);
    SixSelected(HalfBits(h.c) + HalfBits(h.d), Fips.PC2[1], Six(SubKeyOf(h).k1, 6));
  }

  lemma KeyMoves2(h: KeyHalves)
    ensures BitAt(SubKeyOf(h).k0, 10) == BitAt(h.c, 22)
    ensures BitAt(SubKeyOf(h).k0, 11) == BitAt(h.c, 18)
    ensures BitAt(SubKeyOf(h).k0, 12) == BitAt(h.c, 11)
    ensures BitAt(SubKeyOf(h).k0, 13) == BitAt(h.c, 3)
    ensures BitAt(SubKeyOf(h).k0, 14) == BitAt(h.c, 25)
    ensures BitAt(SubKeyOf(h).k0, 15) == BitAt(h.c, 7)
  {
    hide BitAt, SpreadC, SpreadD;
    SpreadCBits0(h.c);
    SpreadCBits1(h.c);
    SpreadCBits2(h.c);
    SpreadCBits3(h.c);
    Masks1(SubKeyOf(h).k0);
    LowMasks(h.c);
    Masks1(h.c);
    Masks2(h.c);
    Masks3(h.c);
  }

  lemma KeyRow2(h: KeyHalves)
    ensures Six(SubKeyOf(h).k0, 10) == Fips.SelectRow(HalfBits(h.c) + HalfBits(h.d), Fips.PC2[2])
  {
    hide BitAt, SubKeyOf;
    KeyMoves2(h);
    SixSelected(HalfBits(h.c) + HalfBits(h.d), Fips.PC2[2], Six(SubKeyOf(h).k0, 10));
  }

  lemma KeyMoves3(h: KeyHalves)
    ensures BitAt(SubKeyOf(h).k1, 14) == BitAt(h.c, 15)
    ensures BitAt(SubKeyOf(h).k1, 15) == BitAt(h.c, 6)
    ensures BitAt(SubKeyOf(h).k1, 16) == BitAt(h.c, 26)
    ensures BitAt(SubKeyOf(h).k1, 17) == BitAt(h.c, 19)
    ensures BitAt(SubKeyOf(h).k1, 18) == BitAt(h.c, 12)
    ensures BitAt(SubKeyOf(h).k1, 19) == BitAt(h.c, 1)
  {
    hide BitAt, SpreadC, SpreadD;
    SpreadCBits0(h.c);
    SpreadCBits1(h.c);
    SpreadCBits2(h.c);
    SpreadCBits3(h.c);
    Masks1(SubKeyOf(h).k1);
    Masks2(SubKeyOf(h).k1);
    LowMasks(h.c);
    Masks1(h.c);
    Masks2(h.c);
    Masks3(h.c);
  }

  lemma KeyRow3(h: KeyHalves)
    ensures Six(SubKeyOf(h).k1, 14) == Fips.SelectRow(HalfBits(h.c) + HalfBits(h.d), Fips.PC2[3])
  {
    hide BitAt, SubKeyOf;
    KeyMoves3(h);
    SixSelected(HalfBits(h.c) + HalfBits(h.d), Fips.PC2[3], Six(SubKeyOf(h).k1, 14));
  }

  lemma KeyMoves4(h: KeyHalves)
    ensures BitAt(SubKeyOf(h).k0, 18) == BitAt(h.d, 12)
    ensures BitAt(SubKeyOf(h).k0, 19) == BitAt(h.d, 23)
    ensures BitAt(SubKeyOf(h).k0, 20) == BitAt(h.d, 2)
    ensures BitAt(SubKeyOf(h).k0, 21) == BitAt(h.d, 8)
    ensures BitAt(SubKeyOf(h).k0, 22) == BitAt(h.d, 18)
    ensures BitAt(SubKeyOf(h).k0, 23) == BitAt(h.d, 26)
  {
    hide BitAt, SpreadC, SpreadD;
    SpreadDBits0(h.d);
    SpreadDBits1(h.d);
    SpreadDBits2(h.d);
    SpreadDBits3(h.d);
    Masks2(SubKeyOf(h).k0);
    LowMasks(h.d);
    Masks1(h.d);
    Masks2(h.d);
    Masks3(h.d);
  }

  lemma KeyRow4(h: KeyHalves)
    ensures Six(SubKeyOf(h).k0, 18) == Fips.SelectRow(HalfBits(h.c) + HalfBits(h.d), Fips.PC2[4])
  {
    hide BitAt, SubKeyOf;
    KeyMoves4(h);
    SixSelected(HalfBits(h.c) + HalfBits(h.d), Fips.PC2[4], Six(SubKeyOf(h).k0, 18));
  }

  lemma KeyMoves5(h: KeyHalves)
    ensures BitAt(SubKeyOf(h).k1, 22) == BitAt(h.d, 1)
    ensures BitAt(SubKeyOf(h).k1, 23) == BitAt(h.d, 11)
    ensures BitAt(SubKeyOf(h).k1, 24) == BitAt(h.d, 22)
    ensures BitAt(SubKeyOf(h).k1, 25) == BitAt(h.d, 16)
    ensures BitAt(SubKeyOf(h).k1, 26) == BitAt(h.d, 4)
    ensures BitAt(SubKeyOf(h).k1, 27) == BitAt(h.d, 19)
  {
    hide BitAt, SpreadC, SpreadD;
    SpreadDBits0(h.d);
    SpreadDBits1(h.d);
    SpreadDBits2(h.d);
    SpreadDBits3(h.d);
    Masks2(SubKeyOf(h).k1);
    Masks3(SubKeyOf(h).k1);
    LowMasks(h.d);
    Masks1(h.d);
    Masks2(h.d);
  }

  lemma KeyRow5(h: KeyHalves)
    ensures Six(SubKeyOf(h).k1, 22) == Fips.SelectRow(HalfBits(h.c) + HalfBits(h.d), Fips.PC2[5])
  {
    hide BitAt, SubKeyOf;
    KeyMoves5(h);
    SixSelected(HalfBits(h.c) + HalfBits(h.d), Fips.PC2[5], Six(SubKeyOf(h).k1, 22));
  }

  lemma KeyMoves6(h: KeyHalves)
    ensures BitAt(SubKeyOf(h).k0, 26) == BitAt(h.d, 15)
    ensures BitAt(SubKeyOf(h).k0, 27) == BitAt(h.d, 20)
    ensures BitAt(SubKeyOf(h).k0, 28) == BitAt(h.d, 10)
    ensures BitAt(SubKeyOf(h).k0, 29) == BitAt(h.d, 27)
    ensures BitAt(SubKeyOf(h).k0, 30) == BitAt(h.d, 5)
    ensures BitAt(SubKeyOf(h).k0, 31) == BitAt(h.d, 24)
  {
    hide BitAt, SpreadC, SpreadD;
    SpreadDBits0(h.d);
    SpreadDBits1(h.d);
    SpreadDBits2(h.d);
    SpreadDBits3(h.d);
    Masks3(SubKeyOf(h).k0);
    LowMasks(h.d);
    Masks1(h.d);
    Masks2(h.d);
    Masks3(h.d);
  }

  lemma KeyRow6(h: KeyHalves)
    ensures Six(SubKeyOf(h).k0, 26) == Fips.SelectRow(HalfBits(h.c) + HalfBits(h.d), Fips.PC2[6])
  {
    hide BitAt, SubKeyOf;
    KeyMoves6(h);
    SixSelected(HalfBits(h.c) + HalfBits(h.d), Fips.PC2[6], Six(SubKeyOf(h).k0, 26));
  }

  lemma KeyMoves7(h: KeyHalves)
    ensures BitAt(SubKeyOf(h).k1, 30) == BitAt(h.d, 17)
    ensures BitAt(SubKeyOf(h).k1, 31) == BitAt(h.d, 13)
    ensures BitAt(SubKeyOf(h).k1, 0) == BitAt(h.d, 21)
    ensures BitAt(SubKeyOf(h).k1, 1) == BitAt(h.d, 7)
    ensures BitAt(SubKeyOf(h).k1, 2) == BitAt(h.d, 0)
    ensures BitAt(SubKeyOf(h).k1, 3) == BitAt(h.d, 3)
  {
    hide BitAt, SpreadC, SpreadD;
    SpreadDBits0(h.d);
    SpreadDBits1(h.d);
    SpreadDBits2(h.d);
    SpreadDBits3(h.d);
    LowMasks(SubKeyOf(h).k1);
    Masks3(SubKeyOf(h).k1);
    LowMasks(h.d);
    Masks1(h.d);
    Masks2(h.d);
  }

  lemma KeyRow7(h: KeyHalves)
    ensures Six(SubKeyOf(h).k1, 30) == Fips.SelectRow(HalfBits(h.c) + HalfBits(h.d), Fips.PC2[7])
  {
    hide BitAt, SubKeyOf;
    KeyMoves7(h);
    SixSelected(HalfBits(h.c) + HalfBits(h.d), Fips.PC2[7], Six(SubKeyOf(h).k1, 30));
  }

  lemma Pc2Selects(h: KeyHalves)
    ensures KeyBits(SubKeyOf(h)) == Fips.Select(HalfBits(h.c) + HalfBits(h.d), Fips.PC2)
  {
    hide SubKeyOf, Six, HalfBits, Fips.SelectRow;
    KeyRow0(h);
    KeyRow1(h);
    KeyRow2(h);
    KeyRow3(h);
    KeyRow4(h);
    KeyRow5(h);
    KeyRow6(h);
    KeyRow7(h);
  }

  function ScheduleBits(ks: seq<SubKey>): (bits: seq<Fips.Key48>)
    ensures |bits| == |ks|
  {
    seq(|ks|, i requires 0 <= i < |ks| => KeyBits(ks[i]))
  }

  /** des_set_key makes K1 to K16. */
  lemma ScheduleConforms(key: Key)
    ensures ScheduleBits(SubKeys(Schedule(key))) == Fips.KeySchedule(BlockBits(KeyBlock(key)))
  {
    hide Schedule, SubKeys, SubKeyOf, HalvesAfter, KeyStart, KeyBits, KeyBlock, BlockBits, HalfBits, Fips.Select,
        Fips.Shifted;
    forall i | 0 <= i < ROUNDS
      ensures ScheduleBits(SubKeys(Schedule(key)))[i] == Fips.KeySchedule(BlockBits(KeyBlock(key)))[i]
    {
      ScheduleSubKeys(key, i);
      HalvesShift(key, i + 1);
      Pc2Selects(HalvesAfter(KeyStart(key), i + 1));
    }
  }
}
