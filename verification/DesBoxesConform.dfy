/** des_SPtrans is the boxes and the permutation P of the standard, entry by entry, each word rotated;
    with it the code is the data encryption algorithm. */
module DesBoxesConform {
  import opened Sequences
  import opened DesWords
  import opened DesBits
  import opened DesPermutations
  import opened DesKeyTables
  import opened DesBlockCipher
  import opened DesKeySchedule
  import opened DesBytes
  import opened DesKeyConforms
  import opened DesConforms
  import opened DesSpTrans
  import opened FipsBoxes
  import Fips = FipsDes

  /** The number a box gives for an index, whose lowest bit comes first. */
  function Entry(box: SBox, x: bv6): bv4 {
    box.At(x & 1 != 0, x & 2 != 0, x & 4 != 0, x & 8 != 0, x & 16 != 0, x & 32 != 0)
  }

  /** Four bits, each at its own place of a word. */
  function Spread(v: bv4, m1: bv32, m2: bv32, m3: bv32, m4: bv32): bv32 {
    (if v & 8 != 0 then m1 else 0) | (if v & 4 != 0 then m2 else 0) |
    (if v & 2 != 0 then m3 else 0) | (if v & 1 != 0 then m4 else 0)
  }

  /** Four words of which each has its own byte. */
  function Joined(a: bv32, b: bv32, c: bv32, d: bv32): bv32 {
    a | b | c | d
  }

  ghost predicate OwnBytes(a: bv32, b: bv32, c: bv32, d: bv32) {
    a & 0xffffff00 == 0 && b & 0xffff00ff == 0 && c & 0xff00ffff == 0 && d & 0x00ffffff == 0
  }

  function Permuted0(w: bv32): bv32 {
    (if w & 0x00008000 != 0 then 0x00000001 else 0) | (if w & 0x00000040 != 0 then 0x00000002 else 0) |
    (if w & 0x00080000 != 0 then 0x00000004 else 0) | (if w & 0x00100000 != 0 then 0x00000008 else 0) |
    (if w & 0x10000000 != 0 then 0x00000010 else 0) | (if w & 0x00000800 != 0 then 0x00000020 else 0) |
    (if w & 0x08000000 != 0 then 0x00000040 else 0) | (if w & 0x00010000 != 0 then 0x00000080 else 0)
  }

  function Permuted1(w: bv32): bv32 {
    (if w & 0x00000001 != 0 then 0x00000100 else 0) | (if w & 0x00004000 != 0 then 0x00000200 else 0) |
    (if w & 0x00400000 != 0 then 0x00000400 else 0) | (if w & 0x02000000 != 0 then 0x00000800 else 0) |
    (if w & 0x00000010 != 0 then 0x00001000 else 0) | (if w & 0x00020000 != 0 then 0x00002000 else 0) |
    (if w & 0x40000000 != 0 then 0x00004000 else 0) | (if w & 0x00000200 != 0 then 0x00008000 else 0)
  }

  function Permuted2(w: bv32): bv32 {
    (if w & 0x00000002 != 0 then 0x00010000 else 0) | (if w & 0x00000080 != 0 then 0x00020000 else 0) |
    (if w & 0x00800000 != 0 then 0x00040000 else 0) | (if w & 0x00002000 != 0 then 0x00080000 else 0) |
    (if w & 0x80000000 != 0 then 0x00100000 else 0) | (if w & 0x04000000 != 0 then 0x00200000 else 0) |
    (if w & 0x00000004 != 0 then 0x00400000 else 0) | (if w & 0x00000100 != 0 then 0x00800000 else 0)
  }

  function Permuted3(w: bv32): bv32 {
    (if w & 0x00040000 != 0 then 0x01000000 else 0) | (if w & 0x00001000 != 0 then 0x02000000 else 0) |
    (if w & 0x20000000 != 0 then 0x04000000 else 0) | (if w & 0x00000020 != 0 then 0x08000000 else 0) |
    (if w & 0x00200000 != 0 then 0x10000000 else 0) | (if w & 0x00000400 != 0 then 0x20000000 else 0) |
    (if w & 0x00000008 != 0 then 0x40000000 else 0) | (if w & 0x01000000 != 0 then 0x80000000 else 0)
  }

  /** P on words. */
  function Permuted(w: bv32): bv32 {
    Joined(Permuted0(w), Permuted1(w), Permuted2(w), Permuted3(w))
  }

  lemma JoinedBytes(a: bv32, b: bv32, c: bv32, d: bv32)
    requires OwnBytes(a, b, c, d)
    ensures Joined(a, b, c, d) & 0x000000ff == a
    ensures Joined(a, b, c, d) & 0x0000ff00 == b
    ensures Joined(a, b, c, d) & 0x00ff0000 == c
    ensures Joined(a, b, c, d) & 0xff000000 == d
  {
  }

  // A bit of a word is that of its byte.

  lemma BitsOfByte0(w: bv32)
    ensures w & 0x000000ff & 0x00000001 == w & 0x00000001
    ensures w & 0x000000ff & 0x00000002 == w & 0x00000002
    ensures w & 0x000000ff & 0x00000004 == w & 0x00000004
    ensures w & 0x000000ff & 0x00000008 == w & 0x00000008
    ensures w & 0x000000ff & 0x00000010 == w & 0x00000010
    ensures w & 0x000000ff & 0x00000020 == w & 0x00000020
    ensures w & 0x000000ff & 0x00000040 == w & 0x00000040
    ensures w & 0x000000ff & 0x00000080 == w & 0x00000080
  {
  }

  lemma BitsOfByte1(w: bv32)
    ensures w & 0x0000ff00 & 0x00000100 == w & 0x00000100
    ensures w & 0x0000ff00 & 0x00000200 == w & 0x00000200
    ensures w & 0x0000ff00 & 0x00000400 == w & 0x00000400
    ensures w & 0x0000ff00 & 0x00000800 == w & 0x00000800
    ensures w & 0x0000ff00 & 0x00001000 == w & 0x00001000
    ensures w & 0x0000ff00 & 0x00002000 == w & 0x00002000
    ensures w & 0x0000ff00 & 0x00004000 == w & 0x00004000
    ensures w & 0x0000ff00 & 0x00008000 == w & 0x00008000
  {
  }

  lemma BitsOfByte2(w: bv32)
    ensures w & 0x00ff0000 & 0x00010000 == w & 0x00010000
    ensures w & 0x00ff0000 & 0x00020000 == w & 0x00020000
    ensures w & 0x00ff0000 & 0x00040000 == w & 0x00040000
    ensures w & 0x00ff0000 & 0x00080000 == w & 0x00080000
    ensures w & 0x00ff0000 & 0x00100000 == w & 0x00100000
    ensures w & 0x00ff0000 & 0x00200000 == w & 0x00200000
    ensures w & 0x00ff0000 & 0x00400000 == w & 0x00400000
    ensures w & 0x00ff0000 & 0x00800000 == w & 0x00800000
  {
  }

  lemma BitsOfByte3(w: bv32)
    ensures w & 0xff000000 & 0x01000000 == w & 0x01000000
    ensures w & 0xff000000 & 0x02000000 == w & 0x02000000
    ensures w & 0xff000000 & 0x04000000 == w & 0x04000000
    ensures w & 0xff000000 & 0x08000000 == w & 0x08000000
    ensures w & 0xff000000 & 0x10000000 == w & 0x10000000
    ensures w & 0xff000000 & 0x20000000 == w & 0x20000000
    ensures w & 0xff000000 & 0x40000000 == w & 0x40000000
    ensures w & 0xff000000 & 0x80000000 == w & 0x80000000
  {
  }

  lemma PermutedBytes(w: bv32)
    ensures OwnBytes(Permuted0(w), Permuted1(w), Permuted2(w), Permuted3(w))
  {
  }

  // ---------------------------------------------------------------------------------------------
  // P, two rows of its table at a time.
  // ---------------------------------------------------------------------------------------------

  lemma EightPermuted(bits: Fips.Bits, row: seq<nat>, next: seq<nat>, out: Fips.Bits)
    requires |row| == |next| == 4 && |out| == 8
    requires out[0] == Fips.Bit(bits, row[0]) && out[1] == Fips.Bit(bits, row[1])
    requires out[2] == Fips.Bit(bits, row[2]) && out[3] == Fips.Bit(bits, row[3])
    requires out[4] == Fips.Bit(bits, next[0]) && out[5] == Fips.Bit(bits, next[1])
    requires out[6] == Fips.Bit(bits, next[2]) && out[7] == Fips.Bit(bits, next[3])
    ensures out == Fips.SelectRow(bits, row) + Fips.SelectRow(bits, next)
  {
  }

  lemma PermutedByte0(w: bv32)
    ensures (Permuted0(w) & 0x00000001 != 0) == (w & 0x00008000 != 0)
    ensures (Permuted0(w) & 0x00000002 != 0) == (w & 0x00000040 != 0)
    ensures (Permuted0(w) & 0x00000004 != 0) == (w & 0x00080000 != 0)
    ensures (Permuted0(w) & 0x00000008 != 0) == (w & 0x00100000 != 0)
    ensures (Permuted0(w) & 0x00000010 != 0) == (w & 0x10000000 != 0)
    ensures (Permuted0(w) & 0x00000020 != 0) == (w & 0x00000800 != 0)
    ensures (Permuted0(w) & 0x00000040 != 0) == (w & 0x08000000 != 0)
    ensures (Permuted0(w) & 0x00000080 != 0) == (w & 0x00010000 != 0)
  {
  }

  lemma PermutedMasks0(w: bv32)
    ensures (Permuted(w) & 0x00000001 != 0) == (w & 0x00008000 != 0)
    ensures (Permuted(w) & 0x00000002 != 0) == (w & 0x00000040 != 0)
    ensures (Permuted(w) & 0x00000004 != 0) == (w & 0x00080000 != 0)
    ensures (Permuted(w) & 0x00000008 != 0) == (w & 0x00100000 != 0)
    ensures (Permuted(w) & 0x00000010 != 0) == (w & 0x10000000 != 0)
    ensures (Permuted(w) & 0x00000020 != 0) == (w & 0x00000800 != 0)
    ensures (Permuted(w) & 0x00000040 != 0) == (w & 0x08000000 != 0)
    ensures (Permuted(w) & 0x00000080 != 0) == (w & 0x00010000 != 0)
  {
    hide Permuted0, Permuted1, Permuted2, Permuted3, Joined, OwnBytes;
    PermutedBytes(w);
    JoinedBytes(Permuted0(w), Permuted1(w), Permuted2(w), Permuted3(w));
    BitsOfByte0(Permuted(w));
    PermutedByte0(w);
  }

  lemma PRows0(w: bv32)
    ensures WordBits(Permuted(w))[0..8] ==
            Fips.SelectRow(WordBits(w), P[0]) + Fips.SelectRow(WordBits(w), P[1])
  {
    hide BitAt, Permuted;
    LowMasks(Permuted(w));
    LowMasks(w);
    Masks1(w);
    Masks2(w);
    Masks3(w);
    PermutedMasks0(w);
    EightPermuted(WordBits(w), P[0], P[1], WordBits(Permuted(w))[0..8]);
  }

  lemma PermutedByte1(w: bv32)
    ensures (Permuted1(w) & 0x00000100 != 0) == (w & 0x00000001 != 0)
    ensures (Permuted1(w) & 0x00000200 != 0) == (w & 0x00004000 != 0)
    ensures (Permuted1(w) & 0x00000400 != 0) == (w & 0x00400000 != 0)
    ensures (Permuted1(w) & 0x00000800 != 0) == (w & 0x02000000 != 0)
    ensures (Permuted1(w) & 0x00001000 != 0) == (w & 0x00000010 != 0)
    ensures (Permuted1(w) & 0x00002000 != 0) == (w & 0x00020000 != 0)
    ensures (Permuted1(w) & 0x00004000 != 0) == (w & 0x40000000 != 0)
    ensures (Permuted1(w) & 0x00008000 != 0) == (w & 0x00000200 != 0)
  {
  }

  lemma PermutedMasks1(w: bv32)
    ensures (Permuted(w) & 0x00000100 != 0) == (w & 0x00000001 != 0)
    ensures (Permuted(w) & 0x00000200 != 0) == (w & 0x00004000 != 0)
    ensures (Permuted(w) & 0x00000400 != 0) == (w & 0x00400000 != 0)
    ensures (Permuted(w) & 0x00000800 != 0) == (w & 0x02000000 != 0)
    ensures (Permuted(w) & 0x00001000 != 0) == (w & 0x00000010 != 0)
    ensures (Permuted(w) & 0x00002000 != 0) == (w & 0x00020000 != 0)
    ensures (Permuted(w) & 0x00004000 != 0) == (w & 0x40000000 != 0)
    ensures (Permuted(w) & 0x00008000 != 0) == (w & 0x00000200 != 0)
  {
    hide Permuted0, Permuted1, Permuted2, Permuted3, Joined, OwnBytes;
    PermutedBytes(w);
    JoinedBytes(Permuted0(w), Permuted1(w), Permuted2(w), Permuted3(w));
    BitsOfByte1(Permuted(w));
    PermutedByte1(w);
  }

  lemma PRows1(w: bv32)
    ensures WordBits(Permuted(w))[8..16] ==
            Fips.SelectRow(WordBits(w), P[2]) + Fips.SelectRow(WordBits(w), P[3])
  {
    hide BitAt, Permuted;
    Masks1(Permuted(w));
    LowMasks(w);
    Masks1(w);
    Masks2(w);
    Masks3(w);
    PermutedMasks1(w);
    EightPermuted(WordBits(w), P[2], P[3], WordBits(Permuted(w))[8..16]);
  }

  lemma PermutedByte2(w: bv32)
    ensures (Permuted2(w) & 0x00010000 != 0) == (w & 0x00000002 != 0)
    ensures (Permuted2(w) & 0x00020000 != 0) == (w & 0x00000080 != 0)
    ensures (Permuted2(w) & 0x00040000 != 0) == (w & 0x00800000 != 0)
    ensures (Permuted2(w) & 0x00080000 != 0) == (w & 0x00002000 != 0)
    ensures (Permuted2(w) & 0x00100000 != 0) == (w & 0x80000000 != 0)
    ensures (Permuted2(w) & 0x00200000 != 0) == (w & 0x04000000 != 0)
    ensures (Permuted2(w) & 0x00400000 != 0) == (w & 0x00000004 != 0)
    ensures (Permuted2(w) & 0x00800000 != 0) == (w & 0x00000100 != 0)
  {
  }

  lemma PermutedMasks2(w: bv32)
    ensures (Permuted(w) & 0x00010000 != 0) == (w & 0x00000002 != 0)
    ensures (Permuted(w) & 0x00020000 != 0) == (w & 0x00000080 != 0)
    ensures (Permuted(w) & 0x00040000 != 0) == (w & 0x00800000 != 0)
    ensures (Permuted(w) & 0x00080000 != 0) == (w & 0x00002000 != 0)
    ensures (Permuted(w) & 0x00100000 != 0) == (w & 0x80000000 != 0)
    ensures (Permuted(w) & 0x00200000 != 0) == (w & 0x04000000 != 0)
    ensures (Permuted(w) & 0x00400000 != 0) == (w & 0x00000004 != 0)
    ensures (Permuted(w) & 0x00800000 != 0) == (w & 0x00000100 != 0)
  {
    hide Permuted0, Permuted1, Permuted2, Permuted3, Joined, OwnBytes;
    PermutedBytes(w);
    JoinedBytes(Permuted0(w), Permuted1(w), Permuted2(w), Permuted3(w));
    BitsOfByte2(Permuted(w));
    PermutedByte2(w);
  }

  lemma PRows2(w: bv32)
    ensures WordBits(Permuted(w))[16..24] ==
            Fips.SelectRow(WordBits(w), P[4]) + Fips.SelectRow(WordBits(w), P[5])
  {
    hide BitAt, Permuted;
    Masks2(Permuted(w));
    LowMasks(w);
    Masks1(w);
    Masks2(w);
    Masks3(w);
    PermutedMasks2(w);
    EightPermuted(WordBits(w), P[4], P[5], WordBits(Permuted(w))[16..24]);
  }

  lemma PermutedByte3(w: bv32)
    ensures (Permuted3(w) & 0x01000000 != 0) == (w & 0x00040000 != 0)
    ensures (Permuted3(w) & 0x02000000 != 0) == (w & 0x00001000 != 0)
    ensures (Permuted3(w) & 0x04000000 != 0) == (w & 0x20000000 != 0)
    ensures (Permuted3(w) & 0x08000000 != 0) == (w & 0x00000020 != 0)
    ensures (Permuted3(w) & 0x10000000 != 0) == (w & 0x00200000 != 0)
    ensures (Permuted3(w) & 0x20000000 != 0) == (w & 0x00000400 != 0)
    ensures (Permuted3(w) & 0x40000000 != 0) == (w & 0x00000008 != 0)
    ensures (Permuted3(w) & 0x80000000 != 0) == (w & 0x01000000 != 0)
  {
  }

  lemma PermutedMasks3(w: bv32)
    ensures (Permuted(w) & 0x01000000 != 0) == (w & 0x00040000 != 0)
    ensures (Permuted(w) & 0x02000000 != 0) == (w & 0x00001000 != 0)
    ensures (Permuted(w) & 0x04000000 != 0) == (w & 0x20000000 != 0)
    ensures (Permuted(w) & 0x08000000 != 0) == (w & 0x00000020 != 0)
    ensures (Permuted(w) & 0x10000000 != 0) == (w & 0x00200000 != 0)
    ensures (Permuted(w) & 0x20000000 != 0) == (w & 0x00000400 != 0)
    ensures (Permuted(w) & 0x40000000 != 0) == (w & 0x00000008 != 0)
    ensures (Permuted(w) & 0x80000000 != 0) == (w & 0x01000000 != 0)
  {
    hide Permuted0, Permuted1, Permuted2, Permuted3, Joined, OwnBytes;
    PermutedBytes(w);
    JoinedBytes(Permuted0(w), Permuted1(w), Permuted2(w), Permuted3(w));
    BitsOfByte3(Permuted(w));
    PermutedByte3(w);
  }

  lemma PRows3(w: bv32)
    ensures WordBits(Permuted(w))[24..32] ==
            Fips.SelectRow(WordBits(w), P[6]) + Fips.SelectRow(WordBits(w), P[7])
  {
    hide BitAt, Permuted;
    Masks3(Permuted(w));
    LowMasks(w);
    Masks1(w);
    Masks2(w);
    Masks3(w);
    PermutedMasks3(w);
    EightPermuted(WordBits(w), P[6], P[7], WordBits(Permuted(w))[24..32]);
  }

  lemma PermutedSelects(w: bv32)
    ensures WordBits(Permuted(w)) == Fips.Select(WordBits(w), P)
  {
    hide Permuted, WordBits, Fips.SelectRow;
    PRows0(w);
    PRows1(w);
    PRows2(w);
    PRows3(w);
    FourRows(WordBits(Permuted(w)));
  }

  // ---------------------------------------------------------------------------------------------
  // The outputs.
  // ---------------------------------------------------------------------------------------------

  function Outputs0(v: bv4, w: bv4): bv32 {
    Spread(v, 0x00000001, 0x00000002, 0x00000004, 0x00000008) |
    Spread(w, 0x00000010, 0x00000020, 0x00000040, 0x00000080)
  }

  function Outputs1(v: bv4, w: bv4): bv32 {
    Spread(v, 0x00000100, 0x00000200, 0x00000400, 0x00000800) |
    Spread(w, 0x00001000, 0x00002000, 0x00004000, 0x00008000)
  }

  function Outputs2(v: bv4, w: bv4): bv32 {
    Spread(v, 0x00010000, 0x00020000, 0x00040000, 0x00080000) |
    Spread(w, 0x00100000, 0x00200000, 0x00400000, 0x00800000)
  }

  function Outputs3(v: bv4, w: bv4): bv32 {
    Spread(v, 0x01000000, 0x02000000, 0x04000000, 0x08000000) |
    Spread(w, 0x10000000, 0x20000000, 0x40000000, 0x80000000)
  }

  /** The outputs of the eight boxes in one word. */
  function Outputs(v0: bv4, v1: bv4, v2: bv4, v3: bv4, v4: bv4, v5: bv4, v6: bv4, v7: bv4): bv32 {
    Joined(Outputs0(v0, v1), Outputs1(v2, v3), Outputs2(v4, v5), Outputs3(v6, v7))
  }

  lemma OutputsBytes(v0: bv4, v1: bv4, v2: bv4, v3: bv4, v4: bv4, v5: bv4, v6: bv4, v7: bv4)
    ensures OwnBytes(Outputs0(v0, v1), Outputs1(v2, v3), Outputs2(v4, v5), Outputs3(v6, v7))
  {
  }

  lemma OutputPair0(v: bv4, w: bv4)
    ensures (Outputs0(v, w) & 0x00000001 != 0) == (v & 8 != 0)
    ensures (Outputs0(v, w) & 0x00000002 != 0) == (v & 4 != 0)
    ensures (Outputs0(v, w) & 0x00000004 != 0) == (v & 2 != 0)
    ensures (Outputs0(v, w) & 0x00000008 != 0) == (v & 1 != 0)
    ensures (Outputs0(v, w) & 0x00000010 != 0) == (w & 8 != 0)
    ensures (Outputs0(v, w) & 0x00000020 != 0) == (w & 4 != 0)
    ensures (Outputs0(v, w) & 0x00000040 != 0) == (w & 2 != 0)
    ensures (Outputs0(v, w) & 0x00000080 != 0) == (w & 1 != 0)
  {
  }

  lemma OutputMasks0(v0: bv4, v1: bv4, v2: bv4, v3: bv4, v4: bv4, v5: bv4, v6: bv4, v7: bv4)
    ensures (Outputs(v0, v1, v2, v3, v4, v5, v6, v7) & 0x00000001 != 0) == (v0 & 8 != 0)
    ensures (Outputs(v0, v1, v2, v3, v4, v5, v6, v7) & 0x00000002 != 0) == (v0 & 4 != 0)
    ensures (Outputs(v0, v1, v2, v3, v4, v5, v6, v7) & 0x00000004 != 0) == (v0 & 2 != 0)
    ensures (Outputs(v0, v1, v2, v3, v4, v5, v6, v7) & 0x00000008 != 0) == (v0 & 1 != 0)
    ensures (Outputs(v0, v1, v2, v3, v4, v5, v6, v7) & 0x00000010 != 0) == (v1 & 8 != 0)
    ensures (Outputs(v0, v1, v2, v3, v4, v5, v6, v7) & 0x00000020 != 0) == (v1 & 4 != 0)
    ensures (Outputs(v0, v1, v2, v3, v4, v5, v6, v7) & 0x00000040 != 0) == (v1 & 2 != 0)
    ensures (Outputs(v0, v1, v2, v3, v4, v5, v6, v7) & 0x00000080 != 0) == (v1 & 1 != 0)
  {
    hide Outputs0, Outputs1, Outputs2, Outputs3, Joined, OwnBytes;
    OutputsBytes(v0, v1, v2, v3, v4, v5, v6, v7);
    JoinedBytes(Outputs0(v0, v1), Outputs1(v2, v3), Outputs2(v4, v5), Outputs3(v6, v7));
    BitsOfByte0(Outputs(v0, v1, v2, v3, v4, v5, v6, v7));
    OutputPair0(v0, v1);
  }

  lemma OutputByte0(v0: bv4, v1: bv4, v2: bv4, v3: bv4, v4: bv4, v5: bv4, v6: bv4, v7: bv4)
    ensures WordBits(Outputs(v0, v1, v2, v3, v4, v5, v6, v7))[0..8] == Four(v0) + Four(v1)
  {
    hide BitAt, Outputs;
    LowMasks(Outputs(v0, v1, v2, v3, v4, v5, v6, v7));
    OutputMasks0(v0, v1, v2, v3, v4, v5, v6, v7);
    SameEight(WordBits(Outputs(v0, v1, v2, v3, v4, v5, v6, v7))[0..8], Four(v0) + Four(v1));
  }

  lemma OutputPair1(v: bv4, w: bv4)
    ensures (Outputs1(v, w) & 0x00000100 != 0) == (v & 8 != 0)
    ensures (Outputs1(v, w) & 0x00000200 != 0) == (v & 4 != 0)
    ensures (Outputs1(v, w) & 0x00000400 != 0) == (v & 2 != 0)
    ensures (Outputs1(v, w) & 0x00000800 != 0) == (v & 1 != 0)
    ensures (Outputs1(v, w) & 0x00001000 != 0) == (w & 8 != 0)
    ensures (Outputs1(v, w) & 0x00002000 != 0) == (w & 4 != 0)
    ensures (Outputs1(v, w) & 0x00004000 != 0) == (w & 2 != 0)
    ensures (Outputs1(v, w) & 0x00008000 != 0) == (w & 1 != 0)
  {
  }

  lemma OutputMasks1(v0: bv4, v1: bv4, v2: bv4, v3: bv4, v4: bv4, v5: bv4, v6: bv4, v7: bv4)
    ensures (Outputs(v0, v1, v2, v3, v4, v5, v6, v7) & 0x00000100 != 0) == (v2 & 8 != 0)
    ensures (Outputs(v0, v1, v2, v3, v4, v5, v6, v7) & 0x00000200 != 0) == (v2 & 4 != 0)
    ensures (Outputs(v0, v1, v2, v3, v4, v5, v6, v7) & 0x00000400 != 0) == (v2 & 2 != 0)
    ensures (Outputs(v0, v1, v2, v3, v4, v5, v6, v7) & 0x00000800 != 0) == (v2 & 1 != 0)
    ensures (Outputs(v0, v1, v2, v3, v4, v5, v6, v7) & 0x00001000 != 0) == (v3 & 8 != 0)
    ensures (Outputs(v0, v1, v2, v3, v4, v5, v6, v7) & 0x00002000 != 0) == (v3 & 4 != 0)
    ensures (Outputs(v0, v1, v2, v3, v4, v5, v6, v7) & 0x00004000 != 0) == (v3 & 2 != 0)
    ensures (Outputs(v0, v1, v2, v3, v4, v5, v6, v7) & 0x00008000 != 0) == (v3 & 1 != 0)
  {
    hide Outputs0, Outputs1, Outputs2, Outputs3, Joined, OwnBytes;
    OutputsBytes(v0, v1, v2, v3, v4, v5, v6, v7);
    JoinedBytes(Outputs0(v0, v1), Outputs1(v2, v3), Outputs2(v4, v5), Outputs3(v6, v7));
    BitsOfByte1(Outputs(v0, v1, v2, v3, v4, v5, v6, v7));
    OutputPair1(v2, v3);
  }

  lemma OutputByte1(v0: bv4, v1: bv4, v2: bv4, v3: bv4, v4: bv4, v5: bv4, v6: bv4, v7: bv4)
    ensures WordBits(Outputs(v0, v1, v2, v3, v4, v5, v6, v7))[8..16] == Four(v2) + Four(v3)
  {
    hide BitAt, Outputs;
    Masks1(Outputs(v0, v1, v2, v3, v4, v5, v6, v7));
    OutputMasks1(v0, v1, v2, v3, v4, v5, v6, v7);
    SameEight(WordBits(Outputs(v0, v1, v2, v3, v4, v5, v6, v7))[8..16], Four(v2) + Four(v3));
  }

  lemma OutputPair2(v: bv4, w: bv4)
    ensures (Outputs2(v, w) & 0x00010000 != 0) == (v & 8 != 0)
    ensures (Outputs2(v, w) & 0x00020000 != 0) == (v & 4 != 0)
    ensures (Outputs2(v, w) & 0x00040000 != 0) == (v & 2 != 0)
    ensures (Outputs2(v, w) & 0x00080000 != 0) == (v & 1 != 0)
    ensures (Outputs2(v, w) & 0x00100000 != 0) == (w & 8 != 0)
    ensures (Outputs2(v, w) & 0x00200000 != 0) == (w & 4 != 0)
    ensures (Outputs2(v, w) & 0x00400000 != 0) == (w & 2 != 0)
    ensures (Outputs2(v, w) & 0x00800000 != 0) == (w & 1 != 0)
  {
  }

  lemma OutputMasks2(v0: bv4, v1: bv4, v2: bv4, v3: bv4, v4: bv4, v5: bv4, v6: bv4, v7: bv4)
    ensures (Outputs(v0, v1, v2, v3, v4, v5, v6, v7) & 0x00010000 != 0) == (v4 & 8 != 0)
    ensures (Outputs(v0, v1, v2, v3, v4, v5, v6, v7) & 0x00020000 != 0) == (v4 & 4 != 0)
    ensures (Outputs(v0, v1, v2, v3, v4, v5, v6, v7) & 0x00040000 != 0) == (v4 & 2 != 0)
    ensures (Outputs(v0, v1, v2, v3, v4, v5, v6, v7) & 0x00080000 != 0) == (v4 & 1 != 0)
    ensures (Outputs(v0, v1, v2, v3, v4, v5, v6, v7) & 0x00100000 != 0) == (v5 & 8 != 0)
    ensures (Outputs(v0, v1, v2, v3, v4, v5, v6, v7) & 0x00200000 != 0) == (v5 & 4 != 0)
    ensures (Outputs(v0, v1, v2, v3, v4, v5, v6, v7) & 0x00400000 != 0) == (v5 & 2 != 0)
    ensures (Outputs(v0, v1, v2, v3, v4, v5, v6, v7) & 0x00800000 != 0) == (v5 & 1 != 0)
  {
    hide Outputs0, Outputs1, Outputs2, Outputs3, Joined, OwnBytes;
    OutputsBytes(v0, v1, v2, v3, v4, v5, v6, v7);
    JoinedBytes(Outputs0(v0, v1), Outputs1(v2, v3), Outputs2(v4, v5), Outputs3(v6, v7));
    BitsOfByte2(Outputs(v0, v1, v2, v3, v4, v5, v6, v7));
    OutputPair2(v4, v5);
  }

  lemma OutputByte2(v0: bv4, v1: bv4, v2: bv4, v3: bv4, v4: bv4, v5: bv4, v6: bv4, v7: bv4)
    ensures WordBits(Outputs(v0, v1, v2, v3, v4, v5, v6, v7))[16..24] == Four(v4) + Four(v5)
  {
    hide BitAt, Outputs;
    Masks2(Outputs(v0, v1, v2, v3, v4, v5, v6, v7));
    OutputMasks2(v0, v1, v2, v3, v4, v5, v6, v7);
    SameEight(WordBits(Outputs(v0, v1, v2, v3, v4, v5, v6, v7))[16..24], Four(v4) + Four(v5));
  }

  lemma OutputPair3(v: bv4, w: bv4)
    ensures (Outputs3(v, w) & 0x01000000 != 0) == (v & 8 != 0)
    ensures (Outputs3(v, w) & 0x02000000 != 0) == (v & 4 != 0)
    ensures (Outputs3(v, w) & 0x04000000 != 0) == (v & 2 != 0)
    ensures (Outputs3(v, w) & 0x08000000 != 0) == (v & 1 != 0)
    ensures (Outputs3(v, w) & 0x10000000 != 0) == (w & 8 != 0)
    ensures (Outputs3(v, w) & 0x20000000 != 0) == (w & 4 != 0)
    ensures (Outputs3(v, w) & 0x40000000 != 0) == (w & 2 != 0)
    ensures (Outputs3(v, w) & 0x80000000 != 0) == (w & 1 != 0)
  {
  }

  lemma OutputMasks3(v0: bv4, v1: bv4, v2: bv4, v3: bv4, v4: bv4, v5: bv4, v6: bv4, v7: bv4)
    ensures (Outputs(v0, v1, v2, v3, v4, v5, v6, v7) & 0x01000000 != 0) == (v6 & 8 != 0)
    ensures (Outputs(v0, v1, v2, v3, v4, v5, v6, v7) & 0x02000000 != 0) == (v6 & 4 != 0)
    ensures (Outputs(v0, v1, v2, v3, v4, v5, v6, v7) & 0x04000000 != 0) == (v6 & 2 != 0)
    ensures (Outputs(v0, v1, v2, v3, v4, v5, v6, v7) & 0x08000000 != 0) == (v6 & 1 != 0)
    ensures (Outputs(v0, v1, v2, v3, v4, v5, v6, v7) & 0x10000000 != 0) == (v7 & 8 != 0)
    ensures (Outputs(v0, v1, v2, v3, v4, v5, v6, v7) & 0x20000000 != 0) == (v7 & 4 != 0)
    ensures (Outputs(v0, v1, v2, v3, v4, v5, v6, v7) & 0x40000000 != 0) == (v7 & 2 != 0)
    ensures (Outputs(v0, v1, v2, v3, v4, v5, v6, v7) & 0x80000000 != 0) == (v7 & 1 != 0)
  {
    hide Outputs0, Outputs1, Outputs2, Outputs3, Joined, OwnBytes;
    OutputsBytes(v0, v1, v2, v3, v4, v5, v6, v7);
    JoinedBytes(Outputs0(v0, v1), Outputs1(v2, v3), Outputs2(v4, v5), Outputs3(v6, v7));
    BitsOfByte3(Outputs(v0, v1, v2, v3, v4, v5, v6, v7));
    OutputPair3(v6, v7);
  }

  lemma OutputByte3(v0: bv4, v1: bv4, v2: bv4, v3: bv4, v4: bv4, v5: bv4, v6: bv4, v7: bv4)
    ensures WordBits(Outputs(v0, v1, v2, v3, v4, v5, v6, v7))[24..32] == Four(v6) + Four(v7)
  {
    hide BitAt, Outputs;
    Masks3(Outputs(v0, v1, v2, v3, v4, v5, v6, v7));
    OutputMasks3(v0, v1, v2, v3, v4, v5, v6, v7);
    SameEight(WordBits(Outputs(v0, v1, v2, v3, v4, v5, v6, v7))[24..32], Four(v6) + Four(v7));
  }

  function Part(i: nat, v: bv4, j: nat): bv4 {
    if i == j then v else 0
  }

  /** The output of one box, all others zero. */
  function Output(i: nat, v: bv4): bv32 {
    Outputs(Part(i, v, 0), Part(i, v, 1), Part(i, v, 2), Part(i, v, 3),
            Part(i, v, 4), Part(i, v, 5), Part(i, v, 6), Part(i, v, 7))
  }

  lemma OutputByte(i: nat, v: bv4, k: nat)
    requires k < 4
    ensures WordBits(Output(i, v))[8 * k..8 * k + 8] == Four(Part(i, v, 2 * k)) + Four(Part(i, v, 2 * k + 1))
  {
    hide Part, Outputs, WordBits, Four;
    var v0, v1, v2, v3 := Part(i, v, 0), Part(i, v, 1), Part(i, v, 2), Part(i, v, 3);
    var v4, v5, v6, v7 := Part(i, v, 4), Part(i, v, 5), Part(i, v, 6), Part(i, v, 7);
    if k == 0 {
      OutputByte0(v0, v1, v2, v3, v4, v5, v6, v7);
    } else if k == 1 {
      OutputByte1(v0, v1, v2, v3, v4, v5, v6, v7);
    } else if k == 2 {
      OutputByte2(v0, v1, v2, v3, v4, v5, v6, v7);
    } else {
      OutputByte3(v0, v1, v2, v3, v4, v5, v6, v7);
    }
  }

  lemma OutputIsPlaced(i: nat, v: bv4)
    requires i < 8
    ensures WordBits(Output(i, v)) == Placed(i, Four(v))
  {
    hide Output, WordBits;
    forall q: nat | q < 32
      ensures WordBits(Output(i, v))[q] == Placed(i, Four(v))[q]
    {
      OutputByte(i, v, q / 8);
      assert WordBits(Output(i, v))[q] == WordBits(Output(i, v))[8 * (q / 8)..8 * (q / 8) + 8][q % 8];
      PlacedAt(i, v, q);
    }
  }

  lemma PlacedAt(i: nat, v: bv4, q: nat)
    requires i < 8 && q < 32
    ensures
      var k := q / 8;
      Placed(i, Four(v))[q] == (Four(Part(i, v, 2 * k)) + Four(Part(i, v, 2 * k + 1)))[q % 8]
  {
    hide Four;
    FourOfZero();
  }

  lemma FourOfZero()
    ensures Four(0) == [false, false, false, false]
  {
  }

  // ---------------------------------------------------------------------------------------------
  // The tables.
  // ---------------------------------------------------------------------------------------------

  lemma Output0Spreads(v: bv4)
    ensures Output(0, v) == Spread(v, 0x00000001, 0x00000002, 0x00000004, 0x00000008)
  {
  }

  lemma Permuted0Spreads(v: bv4)
    ensures Rotate29(Permuted(Spread(v, 0x00000001, 0x00000002, 0x00000004, 0x00000008))) ==
            Spread(v, 0x00000800, 0x00080000, 0x02000000, 0x00000002)
  {
  }

  lemma Nibble0Spreads(x: bv6)
    ensures NIBBLE0.At(x) == Spread(Entry(S1, x), 0x00000800, 0x00080000, 0x02000000, 0x00000002)
  {
  }

  lemma Nibble0Is(x: bv6)
    ensures NIBBLE0.At(x) == Rotate29(Permuted(Output(0, Entry(S1, x))))
  {
    hide Spread, Entry, Table.At, Output, Permuted, Rotate29;
    Nibble0Spreads(x);
    Permuted0Spreads(Entry(S1, x));
    Output0Spreads(Entry(S1, x));
  }

  lemma Output1Spreads(v: bv4)
    ensures Output(1, v) == Spread(v, 0x00000010, 0x00000020, 0x00000040, 0x00000080)
  {
  }

  lemma Permuted1Spreads(v: bv4)
    ensures Rotate29(Permuted(Spread(v, 0x00000010, 0x00000020, 0x00000040, 0x00000080))) ==
            Spread(v, 0x00008000, 0x40000000, 0x00000010, 0x00100000)
  {
  }

  lemma Nibble1Spreads(x: bv6)
    ensures NIBBLE1.At(x) == Spread(Entry(S2, x), 0x00008000, 0x40000000, 0x00000010, 0x00100000)
  {
  }

  lemma Nibble1Is(x: bv6)
    ensures NIBBLE1.At(x) == Rotate29(Permuted(Output(1, Entry(S2, x))))
  {
    hide Spread, Entry, Table.At, Output, Permuted, Rotate29;
    Nibble1Spreads(x);
    Permuted1Spreads(Entry(S2, x));
    Output1Spreads(Entry(S2, x));
  }

  lemma Output2Spreads(v: bv4)
    ensures Output(2, v) == Spread(v, 0x00000100, 0x00000200, 0x00000400, 0x00000800)
  {
  }

  lemma Permuted2Spreads(v: bv4)
    ensures Rotate29(Permuted(Spread(v, 0x00000100, 0x00000200, 0x00000400, 0x00000800))) ==
            Spread(v, 0x04000000, 0x00040000, 0x00000001, 0x00000100)
  {
  }

  lemma Nibble2Spreads(x: bv6)
    ensures NIBBLE2.At(x) == Spread(Entry(S3, x), 0x04000000, 0x00040000, 0x00000001, 0x00000100)
  {
  }

  lemma Nibble2Is(x: bv6)
    ensures NIBBLE2.At(x) == Rotate29(Permuted(Output(2, Entry(S3, x))))
  {
    hide Spread, Entry, Table.At, Output, Permuted, Rotate29;
    Nibble2Spreads(x);
    Permuted2Spreads(Entry(S3, x));
    Output2Spreads(Entry(S3, x));
  }

  lemma Output3Spreads(v: bv4)
    ensures Output(3, v) == Spread(v, 0x00001000, 0x00002000, 0x00004000, 0x00008000)
  {
  }

  lemma Permuted3Spreads(v: bv4)
    ensures Rotate29(Permuted(Spread(v, 0x00001000, 0x00002000, 0x00004000, 0x00008000))) ==
            Spread(v, 0x10000000, 0x00400000, 0x00001000, 0x00000008)
  {
  }

  lemma Nibble3Spreads(x: bv6)
    ensures NIBBLE3.At(x) == Spread(Entry(S4, x), 0x10000000, 0x00400000, 0x00001000, 0x00000008)
  {
  }

  lemma Nibble3Is(x: bv6)
    ensures NIBBLE3.At(x) == Rotate29(Permuted(Output(3, Entry(S4, x))))
  {
    hide Spread, Entry, Table.At, Output, Permuted, Rotate29;
    Nibble3Spreads(x);
    Permuted3Spreads(Entry(S4, x));
    Output3Spreads(Entry(S4, x));
  }

  lemma Output4Spreads(v: bv4)
    ensures Output(4, v) == Spread(v, 0x00010000, 0x00020000, 0x00040000, 0x00080000)
  {
  }

  lemma Permuted4Spreads(v: bv4)
    ensures Rotate29(Permuted(Spread(v, 0x00010000, 0x00020000, 0x00040000, 0x00080000))) ==
            Spread(v, 0x00000400, 0x00010000, 0x08000000, 0x00000020)
  {
  }

  lemma Nibble4Spreads(x: bv6)
    ensures NIBBLE4.At(x) == Spread(Entry(S5, x), 0x00000400, 0x00010000, 0x08000000, 0x00000020)
  {
  }

  lemma Nibble4Is(x: bv6)
    ensures NIBBLE4.At(x) == Rotate29(Permuted(Output(4, Entry(S5, x))))
  {
    hide Spread, Entry, Table.At, Output, Permuted, Rotate29;
    Nibble4Spreads(x);
    Permuted4Spreads(Entry(S5, x));
    Output4Spreads(Entry(S5, x));
  }

  lemma Output5Spreads(v: bv4)
    ensures Output(5, v) == Spread(v, 0x00100000, 0x00200000, 0x00400000, 0x00800000)
  {
  }

  lemma Permuted5Spreads(v: bv4)
    ensures Rotate29(Permuted(Spread(v, 0x00100000, 0x00200000, 0x00400000, 0x00800000))) ==
            Spread(v, 0x00000040, 0x80000000, 0x00002000, 0x00200000)
  {
  }

  lemma Nibble5Spreads(x: bv6)
    ensures NIBBLE5.At(x) == Spread(Entry(S6, x), 0x00000040, 0x80000000, 0x00002000, 0x00200000)
  {
  }

  lemma Nibble5Is(x: bv6)
    ensures NIBBLE5.At(x) == Rotate29(Permuted(Output(5, Entry(S6, x))))
  {
    hide Spread, Entry, Table.At, Output, Permuted, Rotate29;
    Nibble5Spreads(x);
    Permuted5Spreads(Entry(S6, x));
    Output5Spreads(Entry(S6, x));
  }

  lemma Output6Spreads(v: bv4)
    ensures Output(6, v) == Spread(v, 0x01000000, 0x02000000, 0x04000000, 0x08000000)
  {
  }

  lemma Permuted6Spreads(v: bv4)
    ensures Rotate29(Permuted(Spread(v, 0x01000000, 0x02000000, 0x04000000, 0x08000000))) ==
            Spread(v, 0x00000004, 0x00004000, 0x01000000, 0x00000200)
  {
  }

  lemma Nibble6Spreads(x: bv6)
    ensures NIBBLE6.At(x) == Spread(Entry(S7, x), 0x00000004, 0x00004000, 0x01000000, 0x00000200)
  {
  }

  lemma Nibble6Is(x: bv6)
    ensures NIBBLE6.At(x) == Rotate29(Permuted(Output(6, Entry(S7, x))))
  {
    hide Spread, Entry, Table.At, Output, Permuted, Rotate29;
    Nibble6Spreads(x);
    Permuted6Spreads(Entry(S7, x));
    Output6Spreads(Entry(S7, x));
  }

  lemma Output7Spreads(v: bv4)
    ensures Output(7, v) == Spread(v, 0x10000000, 0x20000000, 0x40000000, 0x80000000)
  {
  }

  lemma Permuted7Spreads(v: bv4)
    ensures Rotate29(Permuted(Spread(v, 0x10000000, 0x20000000, 0x40000000, 0x80000000))) ==
            Spread(v, 0x00000080, 0x20000000, 0x00020000, 0x00800000)
  {
  }

  lemma Nibble7Spreads(x: bv6)
    ensures NIBBLE7.At(x) == Spread(Entry(S8, x), 0x00000080, 0x20000000, 0x00020000, 0x00800000)
  {
  }

  lemma Nibble7Is(x: bv6)
    ensures NIBBLE7.At(x) == Rotate29(Permuted(Output(7, Entry(S8, x))))
  {
    hide Spread, Entry, Table.At, Output, Permuted, Rotate29;
    Nibble7Spreads(x);
    Permuted7Spreads(Entry(S8, x));
    Output7Spreads(Entry(S8, x));
  }

  lemma NibblesAre(i: nat, x: bv6)
    requires i < 8
    ensures NIBBLES[i].At(x) == Rotate29(Permuted(Output(i, Entry(S[i], x))))
  {
    hide Rotate29, Permuted, Output, Entry, Table.At;
    if i < 4 {
      if i == 0 {
        Nibble0Is(x);
      } else if i == 1 {
        Nibble1Is(x);
      } else if i == 2 {
        Nibble2Is(x);
      } else {
        Nibble3Is(x);
      }
    } else if i == 4 {
      Nibble4Is(x);
    } else if i == 5 {
      Nibble5Is(x);
    } else if i == 6 {
      Nibble6Is(x);
    } else {
      Nibble7Is(x);
    }
  }

  /** The bits of an index. */
  lemma IndexBits(n: nat)
    requires n < 64
    ensures
      var x := n as bv6;
      SixBits(n) == [x & 1 != 0, x & 2 != 0, x & 4 != 0, x & 8 != 0, x & 16 != 0, x & 32 != 0]
  {
    var x := n as bv6;
    var six := [x & 1 != 0, x & 2 != 0, x & 4 != 0, x & 8 != 0, x & 16 != 0, x & 32 != 0];
    SixNumber(x);
    SixBitsOfNumber(six);
  }

  lemma SixNumber(x: bv6)
    ensures Fips.Number([x & 1 != 0, x & 2 != 0, x & 4 != 0, x & 8 != 0, x & 16 != 0, x & 32 != 0]) == x as nat
  {
  }

  /** One word of des_SPtrans. */
  lemma WordConforms(i: nat, n: nat)
    requires i < 8 && n < 64
    ensures HalfOf(DES_SPTRANS[i][n]) == StandardBox(i, SixBits(n))
  {
    hide Words, Rotate29, Rotate3, Permuted, Output, Table.At, WordBits, Placed, Four, Fips.Select;
    var x := n as bv6;
    WordAt(i, n);
    IndexBits(n);
    NibblesAre(i, x);
    var w := Output(i, Entry(S[i], x));
    RotationsCancel(Permuted(w));
    PermutedSelects(w);
    OutputIsPlaced(i, Entry(S[i], x));
  }

  /** The boxes that des_SPtrans stands for are those of the standard. */
  lemma SpTransConforms()
    ensures BoxesOf(DES_SPTRANS) == StandardBoxes()
  {
    hide HalfOf, StandardBox, SixBits;
    forall i: nat, n: nat | i < 8 && n < 64
      ensures BoxesOf(DES_SPTRANS)[i][n] == StandardBoxes()[i][n]
    {
      WordConforms(i, n);
    }
    forall i: nat | i < 8
      ensures BoxesOf(DES_SPTRANS)[i] == StandardBoxes()[i]
    {
    }
  }

  /** D_ENCRYPT with des_SPtrans computes f(R, K) as the standard defines it. */
  lemma RoundFunctionIsF(k: SubKey, r: bv32)
    ensures HalfOf(RoundFunction(DES_SPTRANS, k, r)) == StandardF(HalfOf(r), KeyBits(k))
  {
    hide RoundFunction, HalfOf, KeyBits, BoxesOf, StandardBoxes, Fips.F, StandardF;
    RoundFunctionConforms(DES_SPTRANS, k, r);
    SpTransConforms();
    StandardFIsSum(HalfOf(r), KeyBits(k));
  }

  /** des_encrypt with des_SPtrans, from octets to octets, is the data encryption algorithm in both
      directions. */
  lemma OctetsAreStandard(key: Key, encrypt: bool, m: seq<bv8>)
    requires |m| == 8
    ensures Octets(DesOctets(DES_SPTRANS, key, encrypt, m)) == StandardCipher(KeysInOrder(key, encrypt), Octets(m))
  {
    hide DesOctets, BoxesOf, Octets, KeysInOrder, Fips.Cipher, StandardBoxes, StandardCipher;
    OctetsConform(DES_SPTRANS, key, encrypt, m);
    SpTransConforms();
    StandardCipherIsCipher(KeysInOrder(key, encrypt), Octets(m));
  }
}
