/** The first and last permutations of the cipher are those of FIPS PUB 46-3. */
module DesPermutations {
  import opened DesWords
  import opened DesBits
  import Fips = FipsDes

  /** The eight bits of a byte of a word, highest first. */
  function ByteBits(w: bv32, k: nat): (bits: Fips.Bits)
    requires k < 4
    ensures |bits| == 8
  {
    seq(8, j requires 0 <= j < 8 => BitAt(w, 8 * k + 7 - j))
  }

  /** The bits of a block as FIPS PUB 46-3 numbers them: byte after byte, the highest bit first; c2l
      puts the first byte lowest. */
  function BlockBits(b: Block): (bits: Fips.Bits)
    ensures |bits| == 64
  {
    ByteBits(b.w0, 0) + ByteBits(b.w0, 1) + ByteBits(b.w0, 2) + ByteBits(b.w0, 3) +
    ByteBits(b.w1, 0) + ByteBits(b.w1, 1) + ByteBits(b.w1, 2) + ByteBits(b.w1, 3)
  }

  lemma BlockBit(b: Block, k: nat, j: nat)
    requires k < 8 && j < 8
    ensures Fips.Bit(BlockBits(b), 8 * k + j + 1) == BitAt(if k < 4 then b.w0 else b.w1, 8 * (k % 4) + 7 - j)
  {
    hide BitAt, BlockBits;
    BlockByte(b, k);
    assert BlockBits(b)[8 * k + j] == BlockBits(b)[8 * k..8 * k + 8][j];
  }

  lemma BlockByte(b: Block, k: nat)
    requires k < 8
    ensures BlockBits(b)[8 * k..8 * k + 8] == ByteBits(if k < 4 then b.w0 else b.w1, k % 4)
  {
    hide ByteBits;
  }

  lemma EightSelected(bits: Fips.Bits, row: seq<nat>, out: Fips.Bits)
    requires |row| == 8 && |out| == 8
    requires out[0] == Fips.Bit(bits, row[0]) && out[1] == Fips.Bit(bits, row[1])
    requires out[2] == Fips.Bit(bits, row[2]) && out[3] == Fips.Bit(bits, row[3])
    requires out[4] == Fips.Bit(bits, row[4]) && out[5] == Fips.Bit(bits, row[5])
    requires out[6] == Fips.Bit(bits, row[6]) && out[7] == Fips.Bit(bits, row[7])
    ensures out == Fips.SelectRow(bits, row)
  {
  }

  // ---------------------------------------------------------------------------------------------
  // IP, row by row of its table.
  // ---------------------------------------------------------------------------------------------

  lemma IpRow0(b: Block)
    ensures WordBits(Ip(b).w1)[0..8] == Fips.SelectRow(BlockBits(b), Fips.IP[0])
  {
    hide BitAt, BlockBits;
    LowMasks(Ip(b).w1);
    LowMasks(b.w0);
    Masks1(b.w0);
    Masks2(b.w0);
    Masks3(b.w0);
    LowMasks(b.w1);
    Masks1(b.w1);
    Masks2(b.w1);
    Masks3(b.w1);
    BlockBit(b, 7, 1);
    BlockBit(b, 6, 1);
    BlockBit(b, 5, 1);
    BlockBit(b, 4, 1);
    BlockBit(b, 3, 1);
    BlockBit(b, 2, 1);
    BlockBit(b, 1, 1);
    BlockBit(b, 0, 1);
    EightSelected(BlockBits(b), Fips.IP[0], WordBits(Ip(b).w1)[0..8]);
  }

  lemma IpRow1(b: Block)
    ensures WordBits(Ip(b).w1)[8..16] == Fips.SelectRow(BlockBits(b), Fips.IP[1])
  {
    hide BitAt, BlockBits;
    Masks1(Ip(b).w1);
    LowMasks(b.w0);
    Masks1(b.w0);
    Masks2(b.w0);
    Masks3(b.w0);
    LowMasks(b.w1);
    Masks1(b.w1);
    Masks2(b.w1);
    Masks3(b.w1);
    BlockBit(b, 7, 3);
    BlockBit(b, 6, 3);
    BlockBit(b, 5, 3);
    BlockBit(b, 4, 3);
    BlockBit(b, 3, 3);
    BlockBit(b, 2, 3);
    BlockBit(b, 1, 3);
    BlockBit(b, 0, 3);
    EightSelected(BlockBits(b), Fips.IP[1], WordBits(Ip(b).w1)[8..16]);
  }

  lemma IpRow2(b: Block)
    ensures WordBits(Ip(b).w1)[16..24] == Fips.SelectRow(BlockBits(b), Fips.IP[2])
  {
    hide BitAt, BlockBits;
    Masks2(Ip(b).w1);
    LowMasks(b.w0);
    Masks1(b.w0);
    Masks2(b.w0);
    Masks3(b.w0);
    LowMasks(b.w1);
    Masks1(b.w1);
    Masks2(b.w1);
    Masks3(b.w1);
    BlockBit(b, 7, 5);
    BlockBit(b, 6, 5);
    BlockBit(b, 5, 5);
    BlockBit(b, 4, 5);
    BlockBit(b, 3, 5);
    BlockBit(b, 2, 5);
    BlockBit(b, 1, 5);
    BlockBit(b, 0, 5);
    EightSelected(BlockBits(b), Fips.IP[2], WordBits(Ip(b).w1)[16..24]);
  }

  lemma IpRow3(b: Block)
    ensures WordBits(Ip(b).w1)[24..32] == Fips.SelectRow(BlockBits(b), Fips.IP[3])
  {
    hide BitAt, BlockBits;
    Masks3(Ip(b).w1);
    LowMasks(b.w0);
    Masks1(b.w0);
    Masks2(b.w0);
    Masks3(b.w0);
    LowMasks(b.w1);
    Masks1(b.w1);
    Masks2(b.w1);
    Masks3(b.w1);
    BlockBit(b, 7, 7);
    BlockBit(b, 6, 7);
    BlockBit(b, 5, 7);
    BlockBit(b, 4, 7);
    BlockBit(b, 3, 7);
    BlockBit(b, 2, 7);
    BlockBit(b, 1, 7);
    BlockBit(b, 0, 7);
    EightSelected(BlockBits(b), Fips.IP[3], WordBits(Ip(b).w1)[24..32]);
  }

  lemma IpRow4(b: Block)
    ensures WordBits(Ip(b).w0)[0..8] == Fips.SelectRow(BlockBits(b), Fips.IP[4])
  {
    hide BitAt, BlockBits;
    LowMasks(Ip(b).w0);
    LowMasks(b.w0);
    Masks1(b.w0);
    Masks2(b.w0);
    Masks3(b.w0);
    LowMasks(b.w1);
    Masks1(b.w1);
    Masks2(b.w1);
    Masks3(b.w1);
    BlockBit(b, 7, 0);
    BlockBit(b, 6, 0);
    BlockBit(b, 5, 0);
    BlockBit(b, 4, 0);
    BlockBit(b, 3, 0);
    BlockBit(b, 2, 0);
    BlockBit(b, 1, 0);
    BlockBit(b, 0, 0);
    EightSelected(BlockBits(b), Fips.IP[4], WordBits(Ip(b).w0)[0..8]);
  }

  lemma IpRow5(b: Block)
    ensures WordBits(Ip(b).w0)[8..16] == Fips.SelectRow(BlockBits(b), Fips.IP[5])
  {
    hide BitAt, BlockBits;
    Masks1(Ip(b).w0);
    LowMasks(b.w0);
    Masks1(b.w0);
    Masks2(b.w0);
    Masks3(b.w0);
    LowMasks(b.w1);
    Masks1(b.w1);
    Masks2(b.w1);
    Masks3(b.w1);
    BlockBit(b, 7, 2);
    BlockBit(b, 6, 2);
    BlockBit(b, 5, 2);
    BlockBit(b, 4, 2);
    BlockBit(b, 3, 2);
    BlockBit(b, 2, 2);
    BlockBit(b, 1, 2);
    BlockBit(b, 0, 2);
    EightSelected(BlockBits(b), Fips.IP[5], WordBits(Ip(b).w0)[8..16]);
  }

  lemma IpRow6(b: Block)
    ensures WordBits(Ip(b).w0)[16..24] == Fips.SelectRow(BlockBits(b), Fips.IP[6])
  {
    hide BitAt, BlockBits;
    Masks2(Ip(b).w0);
    LowMasks(b.w0);
    Masks1(b.w0);
    Masks2(b.w0);
    Masks3(b.w0);
    LowMasks(b.w1);
    Masks1(b.w1);
    Masks2(b.w1);
    Masks3(b.w1);
    BlockBit(b, 7, 4);
    BlockBit(b, 6, 4);
    BlockBit(b, 5, 4);
    BlockBit(b, 4, 4);
    BlockBit(b, 3, 4);
    BlockBit(b, 2, 4);
    BlockBit(b, 1, 4);
    BlockBit(b, 0, 4);
    EightSelected(BlockBits(b), Fips.IP[6], WordBits(Ip(b).w0)[16..24]);
  }

  lemma IpRow7(b: Block)
    ensures WordBits(Ip(b).w0)[24..32] == Fips.SelectRow(BlockBits(b), Fips.IP[7])
  {
    hide BitAt, BlockBits;
    Masks3(Ip(b).w0);
    LowMasks(b.w0);
    Masks1(b.w0);
    Masks2(b.w0);
    Masks3(b.w0);
    LowMasks(b.w1);
    Masks1(b.w1);
    Masks2(b.w1);
    Masks3(b.w1);
    BlockBit(b, 7, 6);
    BlockBit(b, 6, 6);
    BlockBit(b, 5, 6);
    BlockBit(b, 4, 6);
    BlockBit(b, 3, 6);
    BlockBit(b, 2, 6);
    BlockBit(b, 1, 6);
    BlockBit(b, 0, 6);
    EightSelected(BlockBits(b), Fips.IP[7], WordBits(Ip(b).w0)[24..32]);
  }

  /** IP(l, r) leaves the first half of the selected bits in r and the second half in l. */
  lemma IpSelects(b: Block)
    ensures WordBits(Ip(b).w1) + WordBits(Ip(b).w0) == Fips.Select(BlockBits(b), Fips.IP)
  {
    hide Ip, BlockBits, WordBits, Fips.SelectRow;
    IpRow0(b);
    IpRow1(b);
    IpRow2(b);
    IpRow3(b);
    IpRow4(b);
    IpRow5(b);
    IpRow6(b);
    IpRow7(b);
    FourRows(WordBits(Ip(b).w1));
    FourRows(WordBits(Ip(b).w0));
  }

  lemma FourRows(s: Fips.Bits)
    requires |s| == 32
    ensures s == s[..8] + s[8..16] + s[16..24] + s[24..32]
  {
  }

  // ---------------------------------------------------------------------------------------------
  // FP.
  // ---------------------------------------------------------------------------------------------

  lemma SelectedRow(bits: Fips.Bits, table: Fips.Table, r: nat)
    requires r < 8 && |table[0]| == 8
    ensures Fips.Select(bits, table)[8 * r..8 * r + 8] == Fips.SelectRow(bits, table[r])
  {
    hide Fips.SelectRow;
  }

  lemma SelectedBit(bits: Fips.Bits, table: Fips.Table, r: nat, c: nat)
    requires r < 8 && c < 8 && |table[0]| == 8
    ensures Fips.Bit(Fips.Select(bits, table), 8 * r + c + 1) == Fips.Bit(bits, table[r][c])
  {
    hide Fips.Select;
    SelectedRow(bits, table, r);
    assert Fips.Select(bits, table)[8 * r + c] == Fips.Select(bits, table)[8 * r..8 * r + 8][c];
  }

  // The two tables undo each other, row by row.

  lemma InverseRow0(bits: Fips.Bits)
    requires |bits| == 64
    ensures Fips.SelectRow(Fips.Select(bits, Fips.IP), Fips.IP_INVERSE[0]) == bits[0..8]
  {
    hide Fips.Select;
    SelectedBit(bits, Fips.IP, 4, 7);
    SelectedBit(bits, Fips.IP, 0, 7);
    SelectedBit(bits, Fips.IP, 5, 7);
    SelectedBit(bits, Fips.IP, 1, 7);
    SelectedBit(bits, Fips.IP, 6, 7);
    SelectedBit(bits, Fips.IP, 2, 7);
    SelectedBit(bits, Fips.IP, 7, 7);
    SelectedBit(bits, Fips.IP, 3, 7);
    EightSelected(Fips.Select(bits, Fips.IP), Fips.IP_INVERSE[0], bits[0..8]);
  }

  lemma InverseRow1(bits: Fips.Bits)
    requires |bits| == 64
    ensures Fips.SelectRow(Fips.Select(bits, Fips.IP), Fips.IP_INVERSE[1]) == bits[8..16]
  {
    hide Fips.Select;
    SelectedBit(bits, Fips.IP, 4, 6);
    SelectedBit(bits, Fips.IP, 0, 6);
    SelectedBit(bits, Fips.IP, 5, 6);
    SelectedBit(bits, Fips.IP, 1, 6);
    SelectedBit(bits, Fips.IP, 6, 6);
    SelectedBit(bits, Fips.IP, 2, 6);
    SelectedBit(bits, Fips.IP, 7, 6);
    SelectedBit(bits, Fips.IP, 3, 6);
    EightSelected(Fips.Select(bits, Fips.IP), Fips.IP_INVERSE[1], bits[8..16]);
  }

  lemma InverseRow2(bits: Fips.Bits)
    requires |bits| == 64
    ensures Fips.SelectRow(Fips.Select(bits, Fips.IP), Fips.IP_INVERSE[2]) == bits[16..24]
  {
    hide Fips.Select;
    SelectedBit(bits, Fips.IP, 4, 5);
    SelectedBit(bits, Fips.IP, 0, 5);
    SelectedBit(bits, Fips.IP, 5, 5);
    SelectedBit(bits, Fips.IP, 1, 5);
    SelectedBit(bits, Fips.IP, 6, 5);
    SelectedBit(bits, Fips.IP, 2, 5);
    SelectedBit(bits, Fips.IP, 7, 5);
    SelectedBit(bits, Fips.IP, 3, 5);
    EightSelected(Fips.Select(bits, Fips.IP), Fips.IP_INVERSE[2], bits[16..24]);
  }

  lemma InverseRow3(bits: Fips.Bits)
    requires |bits| == 64
    ensures Fips.SelectRow(Fips.Select(bits, Fips.IP), Fips.IP_INVERSE[3]) == bits[24..32]
  {
    hide Fips.Select;
    SelectedBit(bits, Fips.IP, 4, 4);
    SelectedBit(bits, Fips.IP, 0, 4);
    SelectedBit(bits, Fips.IP, 5, 4);
    SelectedBit(bits, Fips.IP, 1, 4);
    SelectedBit(bits, Fips.IP, 6, 4);
    SelectedBit(bits, Fips.IP, 2, 4);
    SelectedBit(bits, Fips.IP, 7, 4);
    SelectedBit(bits, Fips.IP, 3, 4);
    EightSelected(Fips.Select(bits, Fips.IP), Fips.IP_INVERSE[3], bits[24..32]);
  }

  lemma InverseRow4(bits: Fips.Bits)
    requires |bits| == 64
    ensures Fips.SelectRow(Fips.Select(bits, Fips.IP), Fips.IP_INVERSE[4]) == bits[32..40]
  {
    hide Fips.Select;
    SelectedBit(bits, Fips.IP, 4, 3);
    SelectedBit(bits, Fips.IP, 0, 3);
    SelectedBit(bits, Fips.IP, 5, 3);
    SelectedBit(bits, Fips.IP, 1, 3);
    SelectedBit(bits, Fips.IP, 6, 3);
    SelectedBit(bits, Fips.IP, 2, 3);
    SelectedBit(bits, Fips.IP, 7, 3);
    SelectedBit(bits, Fips.IP, 3, 3);
    EightSelected(Fips.Select(bits, Fips.IP), Fips.IP_INVERSE[4], bits[32..40]);
  }

  lemma InverseRow5(bits: Fips.Bits)
    requires |bits| == 64
    ensures Fips.SelectRow(Fips.Select(bits, Fips.IP), Fips.IP_INVERSE[5]) == bits[40..48]
  {
    hide Fips.Select;
    SelectedBit(bits, Fips.IP, 4, 2);
    SelectedBit(bits, Fips.IP, 0, 2);
    SelectedBit(bits, Fips.IP, 5, 2);
    SelectedBit(bits, Fips.IP, 1, 2);
    SelectedBit(bits, Fips.IP, 6, 2);
    SelectedBit(bits, Fips.IP, 2, 2);
    SelectedBit(bits, Fips.IP, 7, 2);
    SelectedBit(bits, Fips.IP, 3, 2);
    EightSelected(Fips.Select(bits, Fips.IP), Fips.IP_INVERSE[5], bits[40..48]);
  }

  lemma InverseRow6(bits: Fips.Bits)
    requires |bits| == 64
    ensures Fips.SelectRow(Fips.Select(bits, Fips.IP), Fips.IP_INVERSE[6]) == bits[48..56]
  {
    hide Fips.Select;
    SelectedBit(bits, Fips.IP, 4, 1);
    SelectedBit(bits, Fips.IP, 0, 1);
    SelectedBit(bits, Fips.IP, 5, 1);
    SelectedBit(bits, Fips.IP, 1, 1);
    SelectedBit(bits, Fips.IP, 6, 1);
    SelectedBit(bits, Fips.IP, 2, 1);
    SelectedBit(bits, Fips.IP, 7, 1);
    SelectedBit(bits, Fips.IP, 3, 1);
    EightSelected(Fips.Select(bits, Fips.IP), Fips.IP_INVERSE[6], bits[48..56]);
  }

  lemma InverseRow7(bits: Fips.Bits)
    requires |bits| == 64
    ensures Fips.SelectRow(Fips.Select(bits, Fips.IP), Fips.IP_INVERSE[7]) == bits[56..64]
  {
    hide Fips.Select;
    SelectedBit(bits, Fips.IP, 4, 0);
    SelectedBit(bits, Fips.IP, 0, 0);
    SelectedBit(bits, Fips.IP, 5, 0);
    SelectedBit(bits, Fips.IP, 1, 0);
    SelectedBit(bits, Fips.IP, 6, 0);
    SelectedBit(bits, Fips.IP, 2, 0);
    SelectedBit(bits, Fips.IP, 7, 0);
    SelectedBit(bits, Fips.IP, 3, 0);
    EightSelected(Fips.Select(bits, Fips.IP), Fips.IP_INVERSE[7], bits[56..64]);
  }

  lemma InverseSelects(bits: Fips.Bits)
    requires |bits| == 64
    ensures Fips.Select(Fips.Select(bits, Fips.IP), Fips.IP_INVERSE) == bits
  {
    hide Fips.SelectRow;
    InverseRow0(bits);
    InverseRow1(bits);
    InverseRow2(bits);
    InverseRow3(bits);
    InverseRow4(bits);
    InverseRow5(bits);
    InverseRow6(bits);
    InverseRow7(bits);
    assert bits == bits[..8] + bits[8..16] + bits[16..24] + bits[24..32] +
                   bits[32..40] + bits[40..48] + bits[48..56] + bits[56..64];
  }

  /** FP, with its arguments exchanged as the callers have them, selects by the inverse table. */
  lemma FpSelects(b: Block)
    ensures BlockBits(Fp(b.Swap()).Swap()) == Fips.Select(WordBits(b.w1) + WordBits(b.w0), Fips.IP_INVERSE)
  {
    hide Fp, Ip, BlockBits, WordBits, Fips.Select;
    var y := Fp(b.Swap()).Swap();
    IpUndoesFp(b);
    IpSelects(y);
    InverseSelects(BlockBits(y));
  }
}
