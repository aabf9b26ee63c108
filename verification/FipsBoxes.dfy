/** The substitution boxes and the permutation P of FIPS PUB 46-3, and f(R, K) as the standard states
    it: P of the outputs of S1 to S8. */
module FipsBoxes {
  import opened FipsDes

  /** A row of a box, sixteen numbers of four bits. */
  datatype Row = Row(
    e0: bv4, e1: bv4, e2: bv4, e3: bv4, e4: bv4, e5: bv4, e6: bv4, e7: bv4,
    e8: bv4, e9: bv4, e10: bv4, e11: bv4, e12: bv4, e13: bv4, e14: bv4, e15: bv4)
  {
    /** The entry whose column has these bits, the highest first. */
    function At(b3: bool, b2: bool, b1: bool, b0: bool): bv4 {
      if !b3 then
        if !b2 then
          if !b1 then if !b0 then e0 else e1 else if !b0 then e2 else e3
        else
          if !b1 then if !b0 then e4 else e5 else if !b0 then e6 else e7
      else
        if !b2 then
          if !b1 then if !b0 then e8 else e9 else if !b0 then e10 else e11
        else
          if !b1 then if !b0 then e12 else e13 else if !b0 then e14 else e15
    }
  }

  /** The outer two of six bits number the row, the inner four the column. */
  datatype SBox = SBox(r0: Row, r1: Row, r2: Row, r3: Row) {
    function At(b1: bool, b2: bool, b3: bool, b4: bool, b5: bool, b6: bool): bv4 {
      var row := if !b1 then if !b6 then r0 else r1 else if !b6 then r2 else r3;
      row.At(b2, b3, b4, b5)
    }
  }

  const S1 := SBox(
    Row(14, 4, 13, 1, 2, 15, 11, 8, 3, 10, 6, 12, 5, 9, 0, 7),
    Row(0, 15, 7, 4, 14, 2, 13, 1, 10, 6, 12, 11, 9, 5, 3, 8),
    Row(4, 1, 14, 8, 13, 6, 2, 11, 15, 12, 9, 7, 3, 10, 5, 0),
    Row(15, 12, 8, 2, 4, 9, 1, 7, 5, 11, 3, 14, 10, 0, 6, 13))

  const S2 := SBox(
    Row(15, 1, 8, 14, 6, 11, 3, 4, 9, 7, 2, 13, 12, 0, 5, 10),
    Row(3, 13, 4, 7, 15, 2, 8, 14, 12, 0, 1, 10, 6, 9, 11, 5),
    Row(0, 14, 7, 11, 10, 4, 13, 1, 5, 8, 12, 6, 9, 3, 2, 15),
    Row(13, 8, 10, 1, 3, 15, 4, 2, 11, 6, 7, 12, 0, 5, 14, 9))

  const S3 := SBox(
    Row(10, 0, 9, 14, 6, 3, 15, 5, 1, 13, 12, 7, 11, 4, 2, 8),
    Row(13, 7, 0, 9, 3, 4, 6, 10, 2, 8, 5, 14, 12, 11, 15, 1),
    Row(13, 6, 4, 9, 8, 15, 3, 0, 11, 1, 2, 12, 5, 10, 14, 7),
    Row(1, 10, 13, 0, 6, 9, 8, 7, 4, 15, 14, 3, 11, 5, 2, 12))

  const S4 := SBox(
    Row(7, 13, 14, 3, 0, 6, 9, 10, 1, 2, 8, 5, 11, 12, 4, 15),
    Row(13, 8, 11, 5, 6, 15, 0, 3, 4, 7, 2, 12, 1, 10, 14, 9),
    Row(10, 6, 9, 0, 12, 11, 7, 13, 15, 1, 3, 14, 5, 2, 8, 4),
    Row(3, 15, 0, 6, 10, 1, 13, 8, 9, 4, 5, 11, 12, 7, 2, 14))

  const S5 := SBox(
    Row(2, 12, 4, 1, 7, 10, 11, 6, 8, 5, 3, 15, 13, 0, 14, 9),
    Row(14, 11, 2, 12, 4, 7, 13, 1, 5, 0, 15, 10, 3, 9, 8, 6),
    Row(4, 2, 1, 11, 10, 13, 7, 8, 15, 9, 12, 5, 6, 3, 0, 14),
    Row(11, 8, 12, 7, 1, 14, 2, 13, 6, 15, 0, 9, 10, 4, 5, 3))

  const S6 := SBox(
    Row(12, 1, 10, 15, 9, 2, 6, 8, 0, 13, 3, 4, 14, 7, 5, 11),
    Row(10, 15, 4, 2, 7, 12, 9, 5, 6, 1, 13, 14, 0, 11, 3, 8),
    Row(9, 14, 15, 5, 2, 8, 12, 3, 7, 0, 4, 10, 1, 13, 11, 6),
    Row(4, 3, 2, 12, 9, 5, 15, 10, 11, 14, 1, 7, 6, 0, 8, 13))

  const S7 := SBox(
    Row(4, 11, 2, 14, 15, 0, 8, 13, 3, 12, 9, 7, 5, 10, 6, 1),
    Row(13, 0, 11, 7, 4, 9, 1, 10, 14, 3, 5, 12, 2, 15, 8, 6),
    Row(1, 4, 11, 13, 12, 3, 7, 14, 10, 15, 6, 8, 0, 5, 9, 2),
    Row(6, 11, 13, 8, 1, 4, 10, 7, 9, 5, 0, 15, 14, 2, 3, 12))

  const S8 := SBox(
    Row(13, 2, 8, 4, 6, 15, 11, 1, 10, 9, 3, 14, 5, 0, 12, 7),
    Row(1, 15, 13, 8, 10, 3, 7, 4, 12, 5, 6, 11, 0, 14, 9, 2),
    Row(7, 11, 4, 1, 9, 12, 14, 2, 0, 6, 10, 13, 15, 3, 5, 8),
    Row(2, 1, 14, 7, 4, 10, 8, 13, 15, 12, 9, 0, 3, 5, 6, 11))

  const S: seq<SBox> := [S1, S2, S3, S4, S5, S6, S7, S8]

  const P: Table := [
    [16, 7, 20, 21],
    [29, 12, 28, 17],
    [1, 15, 23, 26],
    [5, 18, 31, 10],
    [2, 8, 24, 14],
    [32, 27, 3, 9],
    [19, 13, 30, 6],
    [22, 11, 4, 25]]

  /** The number a box gives for six bits. */
  function Value(box: SBox, six: Bits): bv4
    requires |six| == 6
  {
    box.At(six[0], six[1], six[2], six[3], six[4], six[5])
  }

  function Four(v: bv4): (bits: Bits)
    ensures |bits| == 4
  {
    [v & 8 != 0, v & 4 != 0, v & 2 != 0, v & 1 != 0]
  }

  /** S1(B1) to Sn(Bn), one after the other. */
  function Substituted(x: Bits, n: nat): (bits: Bits)
    requires |x| == 48 && n <= 8
    ensures |bits| == 4 * n
  {
    if n == 0 then [] else Substituted(x, n - 1) + Four(Value(S[n - 1], x[6 * (n - 1)..6 * n]))
  }

  /** f(R, K). */
  function StandardF(r: Word, k: Key48): Word {
    Select(Substituted(Plus(Select(r, E), k), 8), P)
  }

  // ---------------------------------------------------------------------------------------------
  // The same, as a sum of what each box contributes.
  // ---------------------------------------------------------------------------------------------

  /** The six bits of a number, the lowest first. */
  function SixBits(n: nat): (six: Bits)
    ensures |six| == 6
  {
    [n % 2 == 1, n / 2 % 2 == 1, n / 4 % 2 == 1, n / 8 % 2 == 1, n / 16 % 2 == 1, n / 32 % 2 == 1]
  }

  lemma SixBitsOfNumber(six: Bits)
    requires |six| == 6
    ensures SixBits(Number(six)) == six
  {
    hide One;
    OneOf(six);
    SixDigits(One(six[0]), One(six[1]), One(six[2]), One(six[3]), One(six[4]), One(six[5]));
  }

  lemma SixDigits(b0: nat, b1: nat, b2: nat, b3: nat, b4: nat, b5: nat)
    requires b0 < 2 && b1 < 2 && b2 < 2 && b3 < 2 && b4 < 2 && b5 < 2
    ensures
      var n := b0 + 2 * b1 + 4 * b2 + 8 * b3 + 16 * b4 + 32 * b5;
      && n % 2 == b0 && n / 2 % 2 == b1 && n / 4 % 2 == b2
      && n / 8 % 2 == b3 && n / 16 % 2 == b4 && n / 32 % 2 == b5
  {
    var n := b0 + 2 * b1 + 4 * b2 + 8 * b3 + 16 * b4 + 32 * b5;
    assert n / 2 == b1 + 2 * b2 + 4 * b3 + 8 * b4 + 16 * b5;
    assert n / 4 == b2 + 2 * b3 + 4 * b4 + 8 * b5;
    assert n / 8 == b3 + 2 * b4 + 4 * b5;
    assert n / 16 == b4 + 2 * b5;
    assert n / 32 == b5;
  }

  lemma OneOf(bits: Bits)
    ensures forall i :: 0 <= i < |bits| ==> (bits[i] <==> One(bits[i]) == 1)
  {
  }

  /** Four bits of box i among the 32 outputs, and zeros elsewhere. */
  function Placed(i: nat, four: Bits): (bits: Word)
    requires |four| == 4
  {
    seq(32, q requires 0 <= q < 32 => q / 4 == i && four[q % 4])
  }

  function StandardBox(i: nat, six: Bits): Word
    requires i < 8 && |six| == 6
  {
    Select(Placed(i, Four(Value(S[i], six))), P)
  }

  function StandardBoxes(): Boxes {
    seq(8, i requires 0 <= i < 8 => seq(64, x requires 0 <= x < 64 => StandardBox(i, SixBits(x))))
  }

  /** The outputs of the first n boxes, and zeros for the others. */
  function Padded(bits: Bits): (w: Word)
    requires |bits| <= 32
  {
    bits + seq(32 - |bits|, q => false)
  }

  lemma PaddedNext(x: Bits, n: nat)
    requires |x| == 48 && n < 8
    ensures Padded(Substituted(x, n + 1)) ==
            Plus(Padded(Substituted(x, n)), Placed(n, Four(Value(S[n], x[6 * n..6 * n + 6]))))
  {
    hide Four, Value;
  }

  lemma PermutedBit(bits: Word, r: nat, c: nat)
    requires r < 8 && c < 4
    ensures Select(bits, P)[4 * r + c] == Bit(bits, P[r][c])
  {
    hide SelectRow, Bit;
    PermutedRow(bits, r);
    assert Select(bits, P)[4 * r + c] == Select(bits, P)[4 * r..4 * r + 4][c];
    SelectedFrom(bits, P[r], c);
  }

  lemma PermutedRow(bits: Word, r: nat)
    requires r < 8
    ensures Select(bits, P)[4 * r..4 * r + 4] == SelectRow(bits, P[r])
  {
    hide SelectRow;
  }

  lemma SelectedFrom(bits: Bits, row: seq<nat>, c: nat)
    requires c < |row|
    ensures SelectRow(bits, row)[c] == Bit(bits, row[c])
  {
  }

  lemma BitOfPlus(a: Bits, b: Bits, n: nat)
    requires |a| == |b|
    ensures Bit(Plus(a, b), n) == (Bit(a, n) != Bit(b, n))
  {
  }

  /** Permuting a sum is adding what is permuted. */
  lemma PermutedSum(a: Word, b: Word)
    ensures Select(Plus(a, b), P) == Plus(Select(a, P), Select(b, P))
  {
    hide Select, Bit;
    forall p | 0 <= p < 32
      ensures Select(Plus(a, b), P)[p] == (Select(a, P)[p] != Select(b, P)[p])
    {
      var r, c := p / 4, p % 4;
      PermutedBit(Plus(a, b), r, c);
      PermutedBit(a, r, c);
      PermutedBit(b, r, c);
      BitOfPlus(a, b, P[r][c]);
    }
  }

  lemma PermutedZeros()
    ensures Select(Padded([]), P) == seq(32, i => false)
  {
    hide Select;
    forall p | 0 <= p < 32
      ensures !Select(Padded([]), P)[p]
    {
      PermutedBit(Padded([]), p / 4, p % 4);
    }
  }

  lemma StandardBoxAt(i: nat, six: Bits)
    requires i < 8 && |six| == 6
    ensures StandardBoxes()[i][Number(six)] == Select(Placed(i, Four(Value(S[i], six))), P)
  {
    hide Select, Number, SixBits, Placed, Four, Value;
    SixBitsOfNumber(six);
  }

  /** The sum of the contributions of n boxes. */
  lemma {:induction false} ContributionsArePermuted(x: Bits, n: nat)
    requires |x| == 48 && n <= 8
    ensures Contributions(StandardBoxes(), x, n) == Select(Padded(Substituted(x, n)), P)
  {
    hide Select, Contributions, StandardBoxes, Padded, Substituted;
    if n == 0 {
      NoContributions(x);
    } else {
      ContributionsArePermuted(x, n - 1);
      OneMoreContribution(x, n - 1);
    }
  }

  lemma OneMoreContribution(x: Bits, n: nat)
    requires |x| == 48 && n < 8
    requires Contributions(StandardBoxes(), x, n) == Select(Padded(Substituted(x, n)), P)
    ensures Contributions(StandardBoxes(), x, n + 1) == Select(Padded(Substituted(x, n + 1)), P)
  {
    hide Select, Contributions, Number, StandardBoxes, Plus, Padded, Placed, Four, Value, Substituted;
    var six := x[6 * n..6 * n + 6];
    NextContribution(StandardBoxes(), x, n);
    PaddedNext(x, n);
    StandardBoxAt(n, six);
    PermutedSum(Padded(Substituted(x, n)), Placed(n, Four(Value(S[n], six))));
  }

  lemma NextContribution(boxes: Boxes, x: Bits, n: nat)
    requires |x| == 48 && n < 8
    ensures Contributions(boxes, x, n + 1) ==
            Plus(Contributions(boxes, x, n), boxes[n][Number(x[6 * n..6 * n + 6])])
  {
    hide Number, Plus;
  }

  lemma NoContributions(x: Bits)
    requires |x| == 48
    ensures Contributions(StandardBoxes(), x, 0) == Select(Padded(Substituted(x, 0)), P)
  {
    hide Select, StandardBoxes;
    PermutedZeros();
  }

  /** With its boxes, the sum of contributions is f(R, K) of the standard. */
  lemma StandardFIsSum(r: Word, k: Key48)
    ensures F(StandardBoxes(), r, k) == StandardF(r, k)
  {
    hide Select, Contributions, Plus, Substituted;
    var x := Plus(Select(r, E), k);
    ContributionsArePermuted(x, 8);
    assert Padded(Substituted(x, 8)) == Substituted(x, 8);
  }

  // ---------------------------------------------------------------------------------------------
  // The cipher with f(R, K).
  // ---------------------------------------------------------------------------------------------

  function StandardRounds(ks: seq<Key48>, s: Halves): Halves {
    if ks == [] then s else StandardRounds(ks[1..], Halves(s.r, Plus(s.l, StandardF(s.r, ks[0]))))
  }

  /** The data encryption algorithm under the keys, used in the order given. */
  function StandardCipher(ks: seq<Key48>, block: Bits): (c: Bits)
    requires |block| == 64
    ensures |c| == 64
  {
    var p := Select(block, IP);
    var s := StandardRounds(ks, Halves(p[..32], p[32..]));
    Select(s.r + s.l, IP_INVERSE)
  }

  lemma {:induction false} StandardRoundsAreRounds(ks: seq<Key48>, s: Halves)
    ensures StandardRounds(ks, s) == Rounds(StandardBoxes(), ks, s)
  {
    hide F, StandardF, StandardBoxes, Plus;
    if ks != [] {
      StandardFIsSum(s.r, ks[0]);
      StandardRoundsAreRounds(ks[1..], Halves(s.r, Plus(s.l, StandardF(s.r, ks[0]))));
    }
  }

  lemma StandardCipherIsCipher(ks: seq<Key48>, block: Bits)
    requires |block| == 64
    ensures StandardCipher(ks, block) == Cipher(StandardBoxes(), ks, block)
  {
    hide Select, Rounds, StandardRounds, StandardBoxes;
    var p := Select(block, IP);
    StandardRoundsAreRounds(ks, Halves(p[..32], p[32..]));
  }
}
