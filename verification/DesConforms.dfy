/** des_encrypt is the cipher of FIPS PUB 46-3, whatever its substitution boxes are: a block of the
    code is a block of the standard, and a half that the code keeps rotated by three places is a
    half of the standard. */
module DesConforms {
  import opened Sequences
  import opened DesWords
  import opened DesBits
  import opened DesPermutations
  import opened DesBlockCipher
  import opened DesKeySchedule
  import opened DesKeyConforms
  import opened DesBytes
  import Fips = FipsDes

  /** The boxes of the standard that a table stands for: its words, rotated back. */
  function BoxesOf(sp: SpTables): Fips.Boxes {
    seq(8, i requires 0 <= i < 8 => seq(64, x requires 0 <= x < 64 => HalfOf(sp[i][x])))
  }

  /** A rotated word as a half of the standard. */
  function HalfOf(w: bv32): Fips.Word {
    WordBits(Rotate3(w))
  }

  function HalvesOf(s: Halves): Fips.Halves {
    Fips.Halves(HalfOf(s.l), HalfOf(s.r))
  }

  lemma RotateXor(v: bv32, w: bv32)
    ensures Rotate3(Xor(v, w)) == Xor(Rotate3(v), Rotate3(w))
  {
  }

  lemma HalfOfXor(v: bv32, w: bv32)
    ensures HalfOf(Xor(v, w)) == Fips.Plus(HalfOf(v), HalfOf(w))
  {
    hide BitAt, Rotate3, Xor;
    RotateXor(v, w);
    forall p | 0 <= p < 32
      ensures HalfOf(Xor(v, w))[p] == Fips.Plus(HalfOf(v), HalfOf(w))[p]
    {
      BitOfXor(Rotate3(v), Rotate3(w), p);
    }
  }

  lemma SixOfXor(v: bv32, w: bv32, p: nat)
    ensures Six(Xor(v, w), p) == Fips.Plus(Six(v, p), Six(w, p))
  {
    hide BitAt, Xor, Six;
    forall j | 0 <= j < 6
      ensures Six(Xor(v, w), p)[j] == (Six(v, p)[j] != Six(w, p)[j])
    {
      SixAt(Xor(v, w), p, j);
      SixAt(v, p, j);
      SixAt(w, p, j);
      BitOfXor(v, w, (p + j) % 32);
    }
  }

  lemma SixAt(w: bv32, p: nat, j: nat)
    requires j < 6
    ensures Six(w, p)[j] == BitAt(w, (p + j) % 32)
  {
    hide BitAt;
  }

  // ---------------------------------------------------------------------------------------------
  // E: the rows of its table are the windows that D_ENCRYPT indexes its tables by.
  // ---------------------------------------------------------------------------------------------

  lemma ERow0(r: bv32)
    ensures Six(r, 2) == Fips.SelectRow(HalfOf(r), Fips.E[0])
  {
    hide BitAt, Rotate3;
    RotatedBits0(r);
    RotatedBits3(r);
    SixSelected(HalfOf(r), Fips.E[0], Six(r, 2));
  }

  lemma ERow1(r: bv32)
    ensures Six(r, 6) == Fips.SelectRow(HalfOf(r), Fips.E[1])
  {
    hide BitAt, Rotate3;
    RotatedBits0(r);
    RotatedBits1(r);
    SixSelected(HalfOf(r), Fips.E[1], Six(r, 6));
  }

  lemma ERow2(r: bv32)
    ensures Six(r, 10) == Fips.SelectRow(HalfOf(r), Fips.E[2])
  {
    hide BitAt, Rotate3;
    RotatedBits0(r);
    RotatedBits1(r);
    SixSelected(HalfOf(r), Fips.E[2], Six(r, 10));
  }

  lemma ERow3(r: bv32)
    ensures Six(r, 14) == Fips.SelectRow(HalfOf(r), Fips.E[3])
  {
    hide BitAt, Rotate3;
    RotatedBits1(r);
    RotatedBits2(r);
    SixSelected(HalfOf(r), Fips.E[3], Six(r, 14));
  }

  lemma ERow4(r: bv32)
    ensures Six(r, 18) == Fips.SelectRow(HalfOf(r), Fips.E[4])
  {
    hide BitAt, Rotate3;
    RotatedBits1(r);
    RotatedBits2(r);
    SixSelected(HalfOf(r), Fips.E[4], Six(r, 18));
  }

  lemma ERow5(r: bv32)
    ensures Six(r, 22) == Fips.SelectRow(HalfOf(r), Fips.E[5])
  {
    hide BitAt, Rotate3;
    RotatedBits2(r);
    RotatedBits3(r);
    SixSelected(HalfOf(r), Fips.E[5], Six(r, 22));
  }

  lemma ERow6(r: bv32)
    ensures Six(r, 26) == Fips.SelectRow(HalfOf(r), Fips.E[6])
  {
    hide BitAt, Rotate3;
    RotatedBits2(r);
    RotatedBits3(r);
    SixSelected(HalfOf(r), Fips.E[6], Six(r, 26));
  }

  lemma ERow7(r: bv32)
    ensures Six(r, 30) == Fips.SelectRow(HalfOf(r), Fips.E[7])
  {
    hide BitAt, Rotate3;
    RotatedBits0(r);
    RotatedBits3(r);
    SixSelected(HalfOf(r), Fips.E[7], Six(r, 30));
  }

  // ---------------------------------------------------------------------------------------------
  // The table indices.
  // ---------------------------------------------------------------------------------------------

  lemma SixBitNumber(y: bv32)
    ensures (y & 0x3f) as int ==
            Fips.One(y & 0x01 != 0) + 2 * Fips.One(y & 0x02 != 0) + 4 * Fips.One(y & 0x04 != 0) +
            8 * Fips.One(y & 0x08 != 0) + 16 * Fips.One(y & 0x10 != 0) + 32 * Fips.One(y & 0x20 != 0)
  {
  }

  lemma Lookup2(sp: SpTables, box: nat, w: bv32)
    requires box < 8
    ensures Lookup(sp, box, Index2(w)) == sp[box][Fips.Number(Six(w, 2))]
  {
    hide BitAt;
    SixBitNumber(Index2(w));
    LowMasks(w);
  }

  lemma Lookup10(sp: SpTables, box: nat, w: bv32)
    requires box < 8
    ensures Lookup(sp, box, Index10(w)) == sp[box][Fips.Number(Six(w, 10))]
  {
    hide BitAt;
    SixBitNumber(Index10(w));
    Masks1(w);
  }

  lemma Lookup18(sp: SpTables, box: nat, w: bv32)
    requires box < 8
    ensures Lookup(sp, box, Index18(w)) == sp[box][Fips.Number(Six(w, 18))]
  {
    hide BitAt;
    SixBitNumber(Index18(w));
    Masks2(w);
  }

  lemma Lookup26(sp: SpTables, box: nat, w: bv32)
    requires box < 8
    ensures Lookup(sp, box, Index26(w)) == sp[box][Fips.Number(Six(w, 26))]
  {
    hide BitAt;
    SixBitNumber(Index26(w));
    Masks3(w);
  }

  lemma Window2(w: bv32)
    ensures Six(Rotate4(w), 2) == Six(w, 6)
  {
    hide BitAt;
    LowMasks(Rotate4(w));
    LowMasks(w);
    Masks1(w);
  }

  lemma Window10(w: bv32)
    ensures Six(Rotate4(w), 10) == Six(w, 14)
  {
    hide BitAt;
    Masks1(Rotate4(w));
    Masks1(w);
    Masks2(w);
  }

  lemma Window18(w: bv32)
    ensures Six(Rotate4(w), 18) == Six(w, 22)
  {
    hide BitAt;
    Masks2(Rotate4(w));
    Masks2(w);
    Masks3(w);
  }

  lemma Window26(w: bv32)
    ensures Six(Rotate4(w), 26) == Six(w, 30)
  {
    hide BitAt;
    Masks3(Rotate4(w));
    LowMasks(w);
    Masks3(w);
  }

  // ---------------------------------------------------------------------------------------------
  // The round function.
  // ---------------------------------------------------------------------------------------------

  /** The word that box i contributes, with u = R^s[S] and v = R^s[S+1]. */
  function Contribution(sp: SpTables, u: bv32, v: bv32, i: nat): bv32
    requires i < 8
  {
    sp[i][Fips.Number(Six(if i % 2 == 0 then u else v, 4 * i + 2))]
  }

  function ContributionsTo(sp: SpTables, u: bv32, v: bv32, n: nat): bv32
    requires n <= 8
  {
    if n == 0 then 0 else Xor(ContributionsTo(sp, u, v, n - 1), Contribution(sp, u, v, n - 1))
  }

  lemma Box0(sp: SpTables, u: bv32, v: bv32)
    ensures Lookup(sp, 0, Index2(u)) == Contribution(sp, u, v, 0)
  {
    hide Lookup, Index2, Six, Fips.Number;
    Lookup2(sp, 0, u);
  }

  lemma Box1(sp: SpTables, u: bv32, v: bv32)
    ensures Lookup(sp, 1, Index2(Rotate4(v))) == Contribution(sp, u, v, 1)
  {
    hide Lookup, Index2, Six, Rotate4, Fips.Number;
    Window2(v);
    Lookup2(sp, 1, Rotate4(v));
  }

  lemma Box2(sp: SpTables, u: bv32, v: bv32)
    ensures Lookup(sp, 2, Index10(u)) == Contribution(sp, u, v, 2)
  {
    hide Lookup, Index10, Six, Fips.Number;
    Lookup10(sp, 2, u);
  }

  lemma Box3(sp: SpTables, u: bv32, v: bv32)
    ensures Lookup(sp, 3, Index10(Rotate4(v))) == Contribution(sp, u, v, 3)
  {
    hide Lookup, Index10, Six, Rotate4, Fips.Number;
    Window10(v);
    Lookup10(sp, 3, Rotate4(v));
  }

  lemma Box4(sp: SpTables, u: bv32, v: bv32)
    ensures Lookup(sp, 4, Index18(u)) == Contribution(sp, u, v, 4)
  {
    hide Lookup, Index18, Six, Fips.Number;
    Lookup18(sp, 4, u);
  }

  lemma Box5(sp: SpTables, u: bv32, v: bv32)
    ensures Lookup(sp, 5, Index18(Rotate4(v))) == Contribution(sp, u, v, 5)
  {
    hide Lookup, Index18, Six, Rotate4, Fips.Number;
    Window18(v);
    Lookup18(sp, 5, Rotate4(v));
  }

  lemma Box6(sp: SpTables, u: bv32, v: bv32)
    ensures Lookup(sp, 6, Index26(u)) == Contribution(sp, u, v, 6)
  {
    hide Lookup, Index26, Six, Fips.Number;
    Lookup26(sp, 6, u);
  }

  lemma Box7(sp: SpTables, u: bv32, v: bv32)
    ensures Lookup(sp, 7, Index26(Rotate4(v))) == Contribution(sp, u, v, 7)
  {
    hide Lookup, Index26, Six, Rotate4, Fips.Number;
    Window26(v);
    Lookup26(sp, 7, Rotate4(v));
  }

  lemma XorAssociates(a: bv32, b: bv32, c: bv32)
    ensures Xor(Xor(a, b), c) == Xor(a, Xor(b, c))
  {
  }

  lemma XorSwaps(a: bv32, b: bv32)
    ensures Xor(a, b) == Xor(b, a)
  {
  }

  lemma XorPair(a: bv32, b: bv32, c: bv32, d: bv32)
    ensures Xor(Xor(a, c), Xor(b, d)) == Xor(Xor(Xor(a, b), c), d)
  {
    hide Xor;
    XorAssociates(Xor(a, c), b, d);
    XorAssociates(a, c, b);
    XorAssociates(a, b, c);
    XorSwaps(b, c);
  }

  lemma XorZeroFirst(a: bv32, b: bv32)
    ensures Xor(a, b) == Xor(Xor(0, a), b)
  {
  }

  /** Even boxes first, then odd boxes, or one after the other: the sum is the same. */
  lemma XorInOrder(w0: bv32, w1: bv32, w2: bv32, w3: bv32, w4: bv32, w5: bv32, w6: bv32, w7: bv32)
    ensures Xor(Xor(Xor(Xor(w0, w2), w4), w6), Xor(Xor(Xor(w1, w3), w5), w7)) ==
            Xor(Xor(Xor(Xor(Xor(Xor(Xor(Xor(0, w0), w1), w2), w3), w4), w5), w6), w7)
  {
    hide Xor;
    XorPair(Xor(Xor(w0, w2), w4), Xor(Xor(w1, w3), w5), w6, w7);
    XorPair(Xor(w0, w2), Xor(w1, w3), w4, w5);
    XorPair(w0, w1, w2, w3);
    XorZeroFirst(w0, w1);
  }

  lemma AllContributions(sp: SpTables, u: bv32, v: bv32)
    ensures ContributionsTo(sp, u, v, 8) ==
      Xor(Xor(Xor(Xor(Xor(Xor(Xor(Xor(0,
        Contribution(sp, u, v, 0)), Contribution(sp, u, v, 1)), Contribution(sp, u, v, 2)), Contribution(sp, u, v, 3)),
        Contribution(sp, u, v, 4)), Contribution(sp, u, v, 5)), Contribution(sp, u, v, 6)), Contribution(sp, u, v, 7))
  {
    hide Contribution, Xor;
    assert ContributionsTo(sp, u, v, 1) == Xor(0, Contribution(sp, u, v, 0));
    assert ContributionsTo(sp, u, v, 3) ==
      Xor(Xor(ContributionsTo(sp, u, v, 1), Contribution(sp, u, v, 1)), Contribution(sp, u, v, 2));
    assert ContributionsTo(sp, u, v, 5) ==
      Xor(Xor(ContributionsTo(sp, u, v, 3), Contribution(sp, u, v, 3)), Contribution(sp, u, v, 4));
    assert ContributionsTo(sp, u, v, 7) ==
      Xor(Xor(ContributionsTo(sp, u, v, 5), Contribution(sp, u, v, 5)), Contribution(sp, u, v, 6));
  }

  lemma SubstituteContributes(sp: SpTables, u: bv32, v: bv32)
    ensures Substitute(sp, u, Rotate4(v)) == ContributionsTo(sp, u, v, 8)
  {
    hide Lookup, Contribution, ContributionsTo, Xor, Rotate4, Index2, Index10, Index18, Index26;
    Box0(sp, u, v);
    Box1(sp, u, v);
    Box2(sp, u, v);
    Box3(sp, u, v);
    Box4(sp, u, v);
    Box5(sp, u, v);
    Box6(sp, u, v);
    Box7(sp, u, v);
    XorInOrder(
      Contribution(sp, u, v, 0), Contribution(sp, u, v, 1), Contribution(sp, u, v, 2), Contribution(sp, u, v, 3),
      Contribution(sp, u, v, 4), Contribution(sp, u, v, 5), Contribution(sp, u, v, 6), Contribution(sp, u, v, 7));
    AllContributions(sp, u, v);
  }

  /** Box i reads the i-th six bits of E(R) plus K. */
  lemma SixOfExpanded(r: bv32, k: SubKey, i: nat)
    requires i < 8
    ensures
      var x := Fips.Plus(Fips.Select(HalfOf(r), Fips.E), KeyBits(k));
      x[6 * i..6 * i + 6] == Six(if i % 2 == 0 then Xor(r, k.k0) else Xor(r, k.k1), 4 * i + 2)
  {
    hide Six, Xor, HalfOf, KeyBits, Fips.Select, Fips.Plus;
    var w := if i % 2 == 0 then k.k0 else k.k1;
    SixOfXor(r, w, 4 * i + 2);
    ERow(r, i);
    KeyRow(k, i);
    PlusOfPart(Fips.Select(HalfOf(r), Fips.E), KeyBits(k), 6 * i, 6 * i + 6);
  }

  lemma PlusOfPart(a: Fips.Bits, b: Fips.Bits, from: nat, to: nat)
    requires |a| == |b| && from <= to <= |a|
    ensures Fips.Plus(a, b)[from..to] == Fips.Plus(a[from..to], b[from..to])
  {
  }

  lemma ERow(r: bv32, i: nat)
    requires i < 8
    ensures Fips.Select(HalfOf(r), Fips.E)[6 * i..6 * i + 6] == Six(r, 4 * i + 2)
  {
    hide Six, HalfOf, Fips.SelectRow;
    ERow0(r);
    ERow1(r);
    ERow2(r);
    ERow3(r);
    ERow4(r);
    ERow5(r);
    ERow6(r);
    ERow7(r);
  }

  lemma KeyRow(k: SubKey, i: nat)
    requires i < 8
    ensures KeyBits(k)[6 * i..6 * i + 6] == Six(if i % 2 == 0 then k.k0 else k.k1, 4 * i + 2)
  {
    hide Six;
  }

  lemma ZeroHalf()
    ensures HalfOf(0) == seq(32, i => false)
  {
    hide BitAt;
    assert Rotate3(0) == 0;
    forall p: nat | p < 32
      ensures !BitAt(0, p)
    {
      ZeroBits(p);
    }
  }

  lemma {:induction false} ZeroBits(p: nat)
    ensures !BitAt(0, p)
    decreases p
  {
    if p > 0 {
      assert Half(0) == 0;
      ZeroBits(p - 1);
    }
  }

  /** Tables indexed by the parts of x contribute what the boxes contribute. */
  lemma {:induction false} ContributionsConform(sp: SpTables, u: bv32, v: bv32, x: Fips.Bits, n: nat)
    requires n <= 8 && |x| == 48
    requires forall i :: 0 <= i < 8 ==> x[6 * i..6 * i + 6] == Six(if i % 2 == 0 then u else v, 4 * i + 2)
    ensures HalfOf(ContributionsTo(sp, u, v, n)) == Fips.Contributions(BoxesOf(sp), x, n)
  {
    hide Six, Xor, HalfOf, Fips.Number, Fips.Plus;
    if n == 0 {
      ZeroHalf();
    } else {
      ContributionsConform(sp, u, v, x, n - 1);
      HalfOfXor(ContributionsTo(sp, u, v, n - 1), Contribution(sp, u, v, n - 1));
    }
  }

  lemma RoundFunctionConforms(sp: SpTables, k: SubKey, r: bv32)
    ensures HalfOf(RoundFunction(sp, k, r)) == Fips.F(BoxesOf(sp), HalfOf(r), KeyBits(k))
  {
    hide Substitute, ContributionsTo, Six, Xor, HalfOf, KeyBits, BoxesOf, Fips.Select, Fips.Contributions, Fips.Plus;
    SubstituteContributes(sp, Xor(r, k.k0), Xor(r, k.k1));
    var x := Fips.Plus(Fips.Select(HalfOf(r), Fips.E), KeyBits(k));
    forall i: nat | i < 8
      ensures x[6 * i..6 * i + 6] == Six(if i % 2 == 0 then Xor(r, k.k0) else Xor(r, k.k1), 4 * i + 2)
    {
      SixOfExpanded(r, k, i);
    }
    ContributionsConform(sp, Xor(r, k.k0), Xor(r, k.k1), x, 8);
  }

  /** D_ENCRYPT, with the exchange of halves, is a round of the standard. */
  lemma RoundConforms(sp: SpTables, k: SubKey, s: Halves)
    ensures HalvesOf(Round(sp, k, s)) == Fips.Round(BoxesOf(sp), KeyBits(k), HalvesOf(s))
  {
    hide RoundFunction, Xor, HalfOf, KeyBits, BoxesOf, Fips.F, Fips.Plus;
    RoundFunctionConforms(sp, k, s.r);
    HalfOfXor(s.l, RoundFunction(sp, k, s.r));
  }

  lemma {:induction false} RoundsConform(sp: SpTables, ks: seq<SubKey>, s: Halves)
    ensures HalvesOf(Rounds(sp, ks, s)) == Fips.Rounds(BoxesOf(sp), ScheduleBits(ks), HalvesOf(s))
    decreases ks
  {
    hide Round, HalvesOf, KeyBits, BoxesOf, Fips.Round;
    if ks != [] {
      RoundConforms(sp, ks[0], s);
      RoundsConform(sp, ks[1..], Round(sp, ks[0], s));
      assert ScheduleBits(ks)[1..] == ScheduleBits(ks[1..]);
    }
  }

  // ---------------------------------------------------------------------------------------------
  // The cipher.
  // ---------------------------------------------------------------------------------------------

  lemma CoreConforms(sp: SpTables, ks: seq<SubKey>, b: Block)
    ensures BlockBits(Final(Core(sp, ks, Ip(b)))) == Fips.Cipher(BoxesOf(sp), ScheduleBits(ks), BlockBits(b))
  {
    hide Ip, Fp, Rounds, Rotate3, Rotate29, WordBits, BlockBits, ScheduleBits, BoxesOf, Fips.Select, Fips.Rounds;
    var p := Ip(b);
    var s := Halves(Rotate29(p.w1), Rotate29(p.w0));
    IpSelects(b);
    RotationsCancel(p.w1);
    RotationsCancel(p.w0);
    RoundsConform(sp, ks, s);
    var e := Rounds(sp, ks, s);
    FpSelects(Block(Rotate3(e.l), Rotate3(e.r)));
  }

  /** Encryption under a key, for every table of boxes, every key and every block. */
  lemma EncryptionConforms(sp: SpTables, key: Key, b: Block)
    ensures BlockBits(Des(sp, Schedule(key), true, b)) ==
            Fips.Cipher(BoxesOf(sp), Fips.KeySchedule(BlockBits(KeyBlock(key))), BlockBits(b))
  {
    hide Ip, Core, Schedule, SubKeys, BlockBits, KeyBlock, BoxesOf, Fips.Cipher, Fips.KeySchedule, ScheduleBits;
    CoreConforms(sp, SubKeys(Schedule(key)), b);
    ScheduleConforms(key);
  }

  /** Decryption is the same under the keys in the opposite order. */
  lemma DecryptionConforms(sp: SpTables, key: Key, b: Block)
    ensures BlockBits(Des(sp, Schedule(key), false, b)) ==
            Fips.Cipher(BoxesOf(sp), Reverse(Fips.KeySchedule(BlockBits(KeyBlock(key)))), BlockBits(b))
  {
    hide Ip, Core, Schedule, SubKeys, BlockBits, KeyBlock, BoxesOf, KeyBits, Fips.Cipher, Fips.KeySchedule;
    var ks := SubKeys(Schedule(key));
    CoreConforms(sp, Reverse(ks), b);
    ScheduleConforms(key);
    assert ScheduleBits(Reverse(ks)) == Reverse(ScheduleBits(ks));
  }

  // ---------------------------------------------------------------------------------------------
  // Bytes: the blocks and keys of the standard are octets, written one after the other.
  // ---------------------------------------------------------------------------------------------

  function OctetBits(b: bv8): (bits: Fips.Bits)
    ensures |bits| == 8
  {
    [b & 0x80 != 0, b & 0x40 != 0, b & 0x20 != 0, b & 0x10 != 0, b & 0x08 != 0, b & 0x04 != 0, b & 0x02 != 0,
        b & 0x01 != 0]
  }

  lemma LoadedByte0(b0: bv8, b1: bv8, b2: bv8, b3: bv8)
    ensures ByteBits(LoadWord(b0, b1, b2, b3), 0) == OctetBits(b0)
  {
    hide BitAt;
    LowMasks(LoadWord(b0, b1, b2, b3));
  }

  lemma LoadedByte1(b0: bv8, b1: bv8, b2: bv8, b3: bv8)
    ensures ByteBits(LoadWord(b0, b1, b2, b3), 1) == OctetBits(b1)
  {
    hide BitAt;
    Masks1(LoadWord(b0, b1, b2, b3));
  }

  lemma LoadedByte2(b0: bv8, b1: bv8, b2: bv8, b3: bv8)
    ensures ByteBits(LoadWord(b0, b1, b2, b3), 2) == OctetBits(b2)
  {
    hide BitAt;
    Masks2(LoadWord(b0, b1, b2, b3));
  }

  lemma LoadedByte3(b0: bv8, b1: bv8, b2: bv8, b3: bv8)
    ensures ByteBits(LoadWord(b0, b1, b2, b3), 3) == OctetBits(b3)
  {
    hide BitAt;
    Masks3(LoadWord(b0, b1, b2, b3));
  }

  /** The bits of eight octets, one octet after the other. */
  function Octets(m: seq<bv8>): (bits: Fips.Bits)
    requires |m| == 8
    ensures |bits| == 64
  {
    OctetBits(m[0]) + OctetBits(m[1]) + OctetBits(m[2]) + OctetBits(m[3]) +
    OctetBits(m[4]) + OctetBits(m[5]) + OctetBits(m[6]) + OctetBits(m[7])
  }

  lemma OctetAt(m: seq<bv8>, k: nat)
    requires |m| == 8 && k < 8
    ensures Octets(m)[8 * k..8 * k + 8] == OctetBits(m[k])
  {
    hide OctetBits;
  }

  function IsOn(b: bv8, mask: bv8): bool {
    b & mask != 0
  }

  lemma OctetBitAt(b: bv8)
    ensures OctetBits(b)[0] == IsOn(b, 0x80)
    ensures OctetBits(b)[1] == IsOn(b, 0x40)
    ensures OctetBits(b)[2] == IsOn(b, 0x20)
    ensures OctetBits(b)[3] == IsOn(b, 0x10)
    ensures OctetBits(b)[4] == IsOn(b, 0x08)
    ensures OctetBits(b)[5] == IsOn(b, 0x04)
    ensures OctetBits(b)[6] == IsOn(b, 0x02)
    ensures OctetBits(b)[7] == IsOn(b, 0x01)
  {
  }

  /** The bits of a loaded block are those of its bytes. */
  lemma LoadedBits(m: seq<bv8>, i: nat)
    requires i + 8 <= |m|
    ensures BlockBits(LoadAt(m, i)) == Octets(m[i..i + 8])
  {
    hide ByteBits, OctetBits, LoadWord;
    LoadedByte0(m[i], m[i + 1], m[i + 2], m[i + 3]);
    LoadedByte1(m[i], m[i + 1], m[i + 2], m[i + 3]);
    LoadedByte2(m[i], m[i + 1], m[i + 2], m[i + 3]);
    LoadedByte3(m[i], m[i + 1], m[i + 2], m[i + 3]);
    LoadedByte0(m[i + 4], m[i + 5], m[i + 6], m[i + 7]);
    LoadedByte1(m[i + 4], m[i + 5], m[i + 6], m[i + 7]);
    LoadedByte2(m[i + 4], m[i + 5], m[i + 6], m[i + 7]);
    LoadedByte3(m[i + 4], m[i + 5], m[i + 6], m[i + 7]);
  }

  /** The bits of a key are those of its eight bytes. */
  lemma KeyOctets(key: Key)
    ensures BlockBits(KeyBlock(key)) == Octets(key)
  {
    hide BlockBits, Octets, LoadWord;
    LoadedBits(key, 0);
    assert key[0..8] == key;
    assert LoadAt(key, 0) == KeyBlock(key);
  }

  /** A stored block has the bits of the block. */
  lemma StoredBits(b: Block)
    ensures Octets(Store(b)) == BlockBits(b)
  {
    hide BlockBits, Octets, LoadAt, Store;
    LoadOfStore(b);
    LoadedBits(Store(b), 0);
    assert Store(b)[0..8] == Store(b);
  }

  /** Eight octets through des_encrypt. */
  function DesOctets(sp: SpTables, key: Key, encrypt: bool, m: seq<bv8>): (c: seq<bv8>)
    requires |m| == 8
    ensures |c| == 8
  {
    Store(Des(sp, Schedule(key), encrypt, LoadAt(m, 0)))
  }

  /** The standard's keys in the order of the direction. */
  function KeysInOrder(key: Key, encrypt: bool): seq<Fips.Key48> {
    var ks := Fips.KeySchedule(Octets(key));
    if encrypt then ks else Reverse(ks)
  }

  /** From octets to octets: the eight that are stored are the standard's cipher of the eight that were
      loaded, under the eight of the key. */
  lemma OctetsConform(sp: SpTables, key: Key, encrypt: bool, m: seq<bv8>)
    requires |m| == 8
    ensures Octets(DesOctets(sp, key, encrypt, m)) == Fips.Cipher(BoxesOf(sp), KeysInOrder(key, encrypt), Octets(m))
  {
    hide Des, Schedule, BlockBits, KeyBlock, BoxesOf, LoadAt, Store, Octets, Fips.Cipher, Fips.KeySchedule;
    var b := LoadAt(m, 0);
    if encrypt {
      EncryptionConforms(sp, key, b);
    } else {
      DecryptionConforms(sp, key, b);
    }
    KeyOctets(key);
    assert m[0..8] == m;
    LoadedBits(m, 0);
    StoredBits(Des(sp, Schedule(key), encrypt, b));
  }
}
