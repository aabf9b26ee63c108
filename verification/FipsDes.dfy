/** The data encryption algorithm as FIPS PUB 46-3 states it: on strings of bits, numbered from one,
    by selection tables.  A substitution box is any map from six bits to the thirty-two that its
    output, permuted by P, contributes. */
module FipsDes {

  type Bits = seq<bool>

  const IP: Table := [
    [58, 50, 42, 34, 26, 18, 10, 2],
    [60, 52, 44, 36, 28, 20, 12, 4],
    [62, 54, 46, 38, 30, 22, 14, 6],
    [64, 56, 48, 40, 32, 24, 16, 8],
    [57, 49, 41, 33, 25, 17, 9, 1],
    [59, 51, 43, 35, 27, 19, 11, 3],
    [61, 53, 45, 37, 29, 21, 13, 5],
    [63, 55, 47, 39, 31, 23, 15, 7]]

  const IP_INVERSE: Table := [
    [40, 8, 48, 16, 56, 24, 64, 32],
    [39, 7, 47, 15, 55, 23, 63, 31],
    [38, 6, 46, 14, 54, 22, 62, 30],
    [37, 5, 45, 13, 53, 21, 61, 29],
    [36, 4, 44, 12, 52, 20, 60, 28],
    [35, 3, 43, 11, 51, 19, 59, 27],
    [34, 2, 42, 10, 50, 18, 58, 26],
    [33, 1, 41, 9, 49, 17, 57, 25]]

  const E: Table := [
    [32, 1, 2, 3, 4, 5],
    [4, 5, 6, 7, 8, 9],
    [8, 9, 10, 11, 12, 13],
    [12, 13, 14, 15, 16, 17],
    [16, 17, 18, 19, 20, 21],
    [20, 21, 22, 23, 24, 25],
    [24, 25, 26, 27, 28, 29],
    [28, 29, 30, 31, 32, 1]]

  const PC1: Table := [
    [57, 49, 41, 33, 25, 17, 9],
    [1, 58, 50, 42, 34, 26, 18],
    [10, 2, 59, 51, 43, 35, 27],
    [19, 11, 3, 60, 52, 44, 36],
    [63, 55, 47, 39, 31, 23, 15],
    [7, 62, 54, 46, 38, 30, 22],
    [14, 6, 61, 53, 45, 37, 29],
    [21, 13, 5, 28, 20, 12, 4]]

  const PC2: Table := [
    [14, 17, 11, 24, 1, 5],
    [3, 28, 15, 6, 21, 10],
    [23, 19, 12, 4, 26, 8],
    [16, 7, 27, 20, 13, 2],
    [41, 52, 31, 37, 47, 55],
    [30, 40, 51, 45, 33, 48],
    [44, 49, 39, 56, 34, 53],
    [46, 42, 50, 36, 29, 32]]

  const LEFT_SHIFTS: seq<nat> := [1, 1, 2, 2, 2, 2, 2, 2, 1, 2, 2, 2, 2, 2, 2, 1]

  /** Bit n of a string, counted from one. */
  function Bit(bits: Bits, n: nat): bool {
    0 < n <= |bits| && bits[n - 1]
  }

  function SelectRow(bits: Bits, row: seq<nat>): (s: Bits)
    ensures |s| == |row|
  {
    seq(|row|, j requires 0 <= j < |row| => Bit(bits, row[j]))
  }

  /** A table of eight rows of one width. */
  type Table = t: seq<seq<nat>> | |t| == 8 && forall i :: 0 <= i < 8 ==> |t[i]| == |t[0]|
    witness seq(8, i => [])

  /** The bits that a table selects, row by row. */
  function Select(bits: Bits, table: Table): (s: Bits)
    ensures |s| == 8 * |table[0]|
  {
    SelectRow(bits, table[0]) + SelectRow(bits, table[1]) + SelectRow(bits, table[2]) + SelectRow(bits, table[3]) +
    SelectRow(bits, table[4]) + SelectRow(bits, table[5]) + SelectRow(bits, table[6]) + SelectRow(bits, table[7])
  }

  function Plus(a: Bits, b: Bits): (c: Bits)
    requires |a| == |b|
    ensures |c| == |a|
  {
    seq(|a|, i requires 0 <= i < |a| => a[i] != b[i])
  }

  function LeftShift(half: Bits, n: nat): (s: Bits)
    requires n <= |half|
    ensures |s| == |half|
  {
    half[n..] + half[..n]
  }

  // ---------------------------------------------------------------------------------------------
  // The cipher.
  // ---------------------------------------------------------------------------------------------

  type Word = w: Bits | |w| == 32 witness seq(32, i => false)

  type Boxes = t: seq<seq<Word>> | |t| == 8 && forall i :: 0 <= i < 8 ==> |t[i]| == 64
    witness seq(8, i => seq(64, j => seq(32, k => false)))

  /** The number of six bits, the first one lowest: the order in which a box lists its values. */
  function Number(six: Bits): (n: nat)
    requires |six| == 6
    ensures n < 64
  {
    One(six[0]) + 2 * One(six[1]) + 4 * One(six[2]) + 8 * One(six[3]) + 16 * One(six[4]) + 32 * One(six[5])
  }

  function One(b: bool): (n: nat)
    ensures n < 2
  {
    if b then 1 else 0
  }

  /** What the first n boxes contribute to f(R, K). */
  function Contributions(boxes: Boxes, x: Bits, n: nat): Word
    requires |x| == 48 && n <= 8
  {
    if n == 0 then seq(32, i => false)
    else Plus(Contributions(boxes, x, n - 1), boxes[n - 1][Number(x[6 * (n - 1)..6 * n])])
  }

  function F(boxes: Boxes, r: Word, k: Bits): Word
    requires |k| == 48
  {
    Contributions(boxes, Plus(Select(r, E), k), 8)
  }

  type Key48 = k: Bits | |k| == 48 witness seq(48, i => false)

  datatype Halves = Halves(l: Word, r: Word)

  function Round(boxes: Boxes, k: Key48, s: Halves): Halves {
    Halves(s.r, Plus(s.l, F(boxes, s.r, k)))
  }

  function Rounds(boxes: Boxes, ks: seq<Key48>, s: Halves): Halves {
    if ks == [] then s else Rounds(boxes, ks[1..], Round(boxes, ks[0], s))
  }

  /** The block under the keys, used in the order given. */
  function Cipher(boxes: Boxes, ks: seq<Key48>, block: Bits): (c: Bits)
    requires |block| == 64
    ensures |c| == 64
  {
    var p := Select(block, IP);
    var s := Rounds(boxes, ks, Halves(p[..32], p[32..]));
    Select(s.r + s.l, IP_INVERSE)
  }

  // ---------------------------------------------------------------------------------------------
  // The key schedule.
  // ---------------------------------------------------------------------------------------------

  type Half = h: Bits | |h| == 28 witness seq(28, i => false)

  datatype CD = CD(c: Half, d: Half)

  /** C and D after n shifts. */
  function Shifted(key: Bits, n: nat): CD
    requires |key| == 64 && n <= 16
  {
    if n == 0 then
      var p := Select(key, PC1);
      CD(p[..28], p[28..])
    else
      var h := Shifted(key, n - 1);
      CD(LeftShift(h.c, LEFT_SHIFTS[n - 1]), LeftShift(h.d, LEFT_SHIFTS[n - 1]))
  }

  /** K1 to K16. */
  function KeySchedule(key: Bits): (ks: seq<Key48>)
    requires |key| == 64
    ensures |ks| == 16
  {
    seq(16, i requires 0 <= i < 16 => var h := Shifted(key, i + 1); Select(h.c + h.d, PC2))
  }
}
