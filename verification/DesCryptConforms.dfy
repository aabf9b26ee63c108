/** fcrypt_body for every salt: crypt() is the cipher of FIPS PUB 46-3 with pairs of its expanded bits
    exchanged.  The code never expands; it exchanges bits between the halves of R before the subkey
    is added, under two masks that only reach the windows concerned. */
module DesCryptConforms {
  import opened DesWords
  import opened DesBits
  import opened DesPermutations
  import opened DesBlockCipher
  import opened DesKeySchedule
  import opened DesKeyConforms
  import opened DesConforms
  import opened DesCrypt
  import opened DesFcrypt
  import opened FipsBoxes
  import Fips = FipsDes

  // ---------------------------------------------------------------------------------------------
  // The cipher with a salt of twelve bits.
  // ---------------------------------------------------------------------------------------------

  type Salt = s: Fips.Bits | |s| == 12 witness seq(12, i => false)

  /** The expanded bits i and i + 24 exchanged wherever bit i of the salt is set. */
  function Exchanged(x: Fips.Bits, salt: Salt): (y: Fips.Bits)
    requires |x| == 48
    ensures |y| == 48
  {
    seq(48, i requires 0 <= i < 48 =>
      if i < 12 && salt[i] then x[i + 24] else if 24 <= i < 36 && salt[i - 24] then x[i - 24] else x[i])
  }

  function SaltedF(boxes: Fips.Boxes, salt: Salt, r: Fips.Word, k: Fips.Key48): Fips.Word {
    Fips.Contributions(boxes, Fips.Plus(Exchanged(Fips.Select(r, Fips.E), salt), k), 8)
  }

  function FipsSaltedRounds(boxes: Fips.Boxes, salt: Salt, ks: seq<Fips.Key48>, s: Fips.Halves): Fips.Halves {
    if ks == [] then s
    else FipsSaltedRounds(boxes, salt, ks[1..], Fips.Halves(s.r, Fips.Plus(s.l, SaltedF(boxes, salt, s.r, ks[0]))))
  }

  function SaltedCipher(boxes: Fips.Boxes, salt: Salt, ks: seq<Fips.Key48>, block: Fips.Bits): (c: Fips.Bits)
    requires |block| == 64
    ensures |c| == 64
  {
    var p := Fips.Select(block, Fips.IP);
    var s := FipsSaltedRounds(boxes, salt, ks, Fips.Halves(p[..32], p[32..]));
    Fips.Select(s.r + s.l, Fips.IP_INVERSE)
  }

  /** n encryptions of 64 zeros, one after the other. */
  function SaltedIterations(boxes: Fips.Boxes, salt: Salt, ks: seq<Fips.Key48>, n: nat): (c: Fips.Bits)
    ensures |c| == 64
  {
    if n == 0 then seq(64, i => false) else SaltedCipher(boxes, salt, ks, SaltedIterations(boxes, salt, ks, n - 1))
  }

  // ---------------------------------------------------------------------------------------------
  // The masks.
  // ---------------------------------------------------------------------------------------------

  /** The masks des_fcrypt makes: eight bits from place 2 on, and eight from place 6 on. */
  predicate IsMask0(e: bv32) {
    e & 0xfffffc03 == 0
  }

  predicate IsMask1(e: bv32) {
    e & 0xffffc03f == 0
  }

  /** The salt of two masks; what they hold above six bits is never looked at. */
  function SaltOf(e0: bv32, e1: bv32): Salt {
    Six(e0, 2) + Six(e1, 6)
  }

  /** R with bits exchanged between its halves under e. */
  function Mixed(r: bv32, e: bv32): bv32 {
    var u := (r ^ (r >> 16)) & e;
    r ^ u ^ (u << 16)
  }

  lemma LoadIsMixed(r: bv32, k: bv32, e: bv32)
    ensures SaltedLoad(r, k, e) == Xor(Mixed(r, e), k)
  {
  }

  // What the eight windows of a mixed word are.

  lemma MixedBits0(r: bv32, e: bv32)
    requires IsMask0(e)
    ensures BitAt(Mixed(r, e), 2) == Either(BitAt(e, 2), BitAt(r, 18), BitAt(r, 2))
    ensures BitAt(Mixed(r, e), 3) == Either(BitAt(e, 3), BitAt(r, 19), BitAt(r, 3))
    ensures BitAt(Mixed(r, e), 4) == Either(BitAt(e, 4), BitAt(r, 20), BitAt(r, 4))
    ensures BitAt(Mixed(r, e), 5) == Either(BitAt(e, 5), BitAt(r, 21), BitAt(r, 5))
    ensures BitAt(Mixed(r, e), 6) == Either(BitAt(e, 6), BitAt(r, 22), BitAt(r, 6))
    ensures BitAt(Mixed(r, e), 7) == Either(BitAt(e, 7), BitAt(r, 23), BitAt(r, 7))
  {
    hide BitAt;
    LowMasks(Mixed(r, e));
    LowMasks(e);
    LowMasks(r);
    Masks2(r);
  }

  lemma MixedBit0(r: bv32, e: bv32, j: nat)
    requires IsMask0(e) && j < 6
    ensures BitAt(Mixed(r, e), 2 + j) == Either(BitAt(e, 2 + j), BitAt(r, 18 + j), BitAt(r, 2 + j))
  {
    hide BitAt, Mixed, Either, IsMask0, IsMask1;
    MixedBits0(r, e);
    if j < 3 {
      assert j == 0 || j == 1 || j == 2;
    } else {
      assert j == 3 || j == 4 || j == 5;
    }
  }

  lemma MixedWindow0(r: bv32, e: bv32)
    requires IsMask0(e)
    ensures Six(Mixed(r, e), 2) == Choice(Six(e, 2), Six(r, 18), Six(r, 2))
  {
    hide BitAt, Six, Mixed, Either, IsMask0, IsMask1;
    forall j: nat | j < 6
      ensures Six(Mixed(r, e), 2)[j] == Either(Six(e, 2)[j], Six(r, 18)[j], Six(r, 2)[j])
    {
      MixedBit0(r, e, j);
      SixInside(Mixed(r, e), 2, j);
      SixInside(e, 2, j);
      SixInside(r, 18, j);
      SixInside(r, 2, j);
    }
  }

  lemma MixedBits1(r: bv32, e: bv32)
    requires IsMask1(e)
    ensures BitAt(Mixed(r, e), 6) == Either(BitAt(e, 6), BitAt(r, 22), BitAt(r, 6))
    ensures BitAt(Mixed(r, e), 7) == Either(BitAt(e, 7), BitAt(r, 23), BitAt(r, 7))
    ensures BitAt(Mixed(r, e), 8) == Either(BitAt(e, 8), BitAt(r, 24), BitAt(r, 8))
    ensures BitAt(Mixed(r, e), 9) == Either(BitAt(e, 9), BitAt(r, 25), BitAt(r, 9))
    ensures BitAt(Mixed(r, e), 10) == Either(BitAt(e, 10), BitAt(r, 26), BitAt(r, 10))
    ensures BitAt(Mixed(r, e), 11) == Either(BitAt(e, 11), BitAt(r, 27), BitAt(r, 11))
  {
    hide BitAt;
    LowMasks(Mixed(r, e));
    Masks1(Mixed(r, e));
    LowMasks(e);
    Masks1(e);
    LowMasks(r);
    Masks1(r);
    Masks2(r);
    Masks3(r);
  }

  lemma MixedBit1(r: bv32, e: bv32, j: nat)
    requires IsMask1(e) && j < 6
    ensures BitAt(Mixed(r, e), 6 + j) == Either(BitAt(e, 6 + j), BitAt(r, 22 + j), BitAt(r, 6 + j))
  {
    hide BitAt, Mixed, Either, IsMask0, IsMask1;
    MixedBits1(r, e);
    if j < 3 {
      assert j == 0 || j == 1 || j == 2;
    } else {
      assert j == 3 || j == 4 || j == 5;
    }
  }

  lemma MixedWindow1(r: bv32, e: bv32)
    requires IsMask1(e)
    ensures Six(Mixed(r, e), 6) == Choice(Six(e, 6), Six(r, 22), Six(r, 6))
  {
    hide BitAt, Six, Mixed, Either, IsMask0, IsMask1;
    forall j: nat | j < 6
      ensures Six(Mixed(r, e), 6)[j] == Either(Six(e, 6)[j], Six(r, 22)[j], Six(r, 6)[j])
    {
      MixedBit1(r, e, j);
      SixInside(Mixed(r, e), 6, j);
      SixInside(e, 6, j);
      SixInside(r, 22, j);
      SixInside(r, 6, j);
    }
  }

  lemma MixedWindow2(r: bv32, e: bv32)
    requires IsMask0(e)
    ensures Six(Mixed(r, e), 10) == Six(r, 10)
  {
    hide BitAt;
    Masks1(Mixed(r, e));
    Masks1(r);
    SameSix(Six(Mixed(r, e), 10), Six(r, 10));
  }

  lemma MixedWindow3(r: bv32, e: bv32)
    requires IsMask1(e)
    ensures Six(Mixed(r, e), 14) == Six(r, 14)
  {
    hide BitAt;
    Masks1(Mixed(r, e));
    Masks2(Mixed(r, e));
    Masks1(r);
    Masks2(r);
    SameSix(Six(Mixed(r, e), 14), Six(r, 14));
  }

  lemma MixedBits4(r: bv32, e: bv32)
    requires IsMask0(e)
    ensures BitAt(Mixed(r, e), 18) == Either(BitAt(e, 2), BitAt(r, 2), BitAt(r, 18))
    ensures BitAt(Mixed(r, e), 19) == Either(BitAt(e, 3), BitAt(r, 3), BitAt(r, 19))
    ensures BitAt(Mixed(r, e), 20) == Either(BitAt(e, 4), BitAt(r, 4), BitAt(r, 20))
    ensures BitAt(Mixed(r, e), 21) == Either(BitAt(e, 5), BitAt(r, 5), BitAt(r, 21))
    ensures BitAt(Mixed(r, e), 22) == Either(BitAt(e, 6), BitAt(r, 6), BitAt(r, 22))
    ensures BitAt(Mixed(r, e), 23) == Either(BitAt(e, 7), BitAt(r, 7), BitAt(r, 23))
  {
    hide BitAt;
    Masks2(Mixed(r, e));
    LowMasks(e);
    LowMasks(r);
    Masks2(r);
  }

  lemma MixedBit4(r: bv32, e: bv32, j: nat)
    requires IsMask0(e) && j < 6
    ensures BitAt(Mixed(r, e), 18 + j) == Either(BitAt(e, 2 + j), BitAt(r, 2 + j), BitAt(r, 18 + j))
  {
    hide BitAt, Mixed, Either, IsMask0, IsMask1;
    MixedBits4(r, e);
    if j < 3 {
      assert j == 0 || j == 1 || j == 2;
    } else {
      assert j == 3 || j == 4 || j == 5;
    }
  }

  lemma MixedWindow4(r: bv32, e: bv32)
    requires IsMask0(e)
    ensures Six(Mixed(r, e), 18) == Choice(Six(e, 2), Six(r, 2), Six(r, 18))
  {
    hide BitAt, Six, Mixed, Either, IsMask0, IsMask1;
    forall j: nat | j < 6
      ensures Six(Mixed(r, e), 18)[j] == Either(Six(e, 2)[j], Six(r, 2)[j], Six(r, 18)[j])
    {
      MixedBit4(r, e, j);
      SixInside(Mixed(r, e), 18, j);
      SixInside(e, 2, j);
      SixInside(r, 2, j);
      SixInside(r, 18, j);
    }
  }

  lemma MixedBits5(r: bv32, e: bv32)
    requires IsMask1(e)
    ensures BitAt(Mixed(r, e), 22) == Either(BitAt(e, 6), BitAt(r, 6), BitAt(r, 22))
    ensures BitAt(Mixed(r, e), 23) == Either(BitAt(e, 7), BitAt(r, 7), BitAt(r, 23))
    ensures BitAt(Mixed(r, e), 24) == Either(BitAt(e, 8), BitAt(r, 8), BitAt(r, 24))
    ensures BitAt(Mixed(r, e), 25) == Either(BitAt(e, 9), BitAt(r, 9), BitAt(r, 25))
    ensures BitAt(Mixed(r, e), 26) == Either(BitAt(e, 10), BitAt(r, 10), BitAt(r, 26))
    ensures BitAt(Mixed(r, e), 27) == Either(BitAt(e, 11), BitAt(r, 11), BitAt(r, 27))
  {
    hide BitAt;
    Masks2(Mixed(r, e));
    Masks3(Mixed(r, e));
    LowMasks(e);
    Masks1(e);
    LowMasks(r);
    Masks1(r);
    Masks2(r);
    Masks3(r);
  }

  lemma MixedBit5(r: bv32, e: bv32, j: nat)
    requires IsMask1(e) && j < 6
    ensures BitAt(Mixed(r, e), 22 + j) == Either(BitAt(e, 6 + j), BitAt(r, 6 + j), BitAt(r, 22 + j))
  {
    hide BitAt, Mixed, Either, IsMask0, IsMask1;
    MixedBits5(r, e);
    if j < 3 {
      assert j == 0 || j == 1 || j == 2;
    } else {
      assert j == 3 || j == 4 || j == 5;
    }
  }

  lemma MixedWindow5(r: bv32, e: bv32)
    requires IsMask1(e)
    ensures Six(Mixed(r, e), 22) == Choice(Six(e, 6), Six(r, 6), Six(r, 22))
  {
    hide BitAt, Six, Mixed, Either, IsMask0, IsMask1;
    forall j: nat | j < 6
      ensures Six(Mixed(r, e), 22)[j] == Either(Six(e, 6)[j], Six(r, 6)[j], Six(r, 22)[j])
    {
      MixedBit5(r, e, j);
      SixInside(Mixed(r, e), 22, j);
      SixInside(e, 6, j);
      SixInside(r, 6, j);
      SixInside(r, 22, j);
    }
  }

  lemma MixedWindow6(r: bv32, e: bv32)
    requires IsMask0(e)
    ensures Six(Mixed(r, e), 26) == Six(r, 26)
  {
    hide BitAt;
    Masks3(Mixed(r, e));
    Masks3(r);
    SameSix(Six(Mixed(r, e), 26), Six(r, 26));
  }

  lemma MixedWindow7(r: bv32, e: bv32)
    requires IsMask1(e)
    ensures Six(Mixed(r, e), 30) == Six(r, 30)
  {
    hide BitAt;
    LowMasks(Mixed(r, e));
    Masks3(Mixed(r, e));
    LowMasks(r);
    Masks3(r);
    SameSix(Six(Mixed(r, e), 30), Six(r, 30));
  }

  lemma SameSix(a: Fips.Bits, b: Fips.Bits)
    requires |a| == |b| == 6 && a[0] == b[0] && a[1] == b[1] && a[2] == b[2]
    requires a[3] == b[3] && a[4] == b[4] && a[5] == b[5]
    ensures a == b
  {
  }

  /** Box i reads the i-th six bits of the exchanged expansion. */
  lemma SixOfMixed(r: bv32, e0: bv32, e1: bv32, i: nat)
    requires i < 8 && IsMask0(e0) && IsMask1(e1)
    ensures Exchanged(Fips.Select(HalfOf(r), Fips.E), SaltOf(e0, e1))[6 * i..6 * i + 6] ==
            Six(Mixed(r, if i % 2 == 0 then e0 else e1), 4 * i + 2)
  {
    hide Six, Choice, HalfOf, Mixed, Exchanged, SaltOf, IsMask0, IsMask1, Fips.Select;
    var x := Fips.Select(HalfOf(r), Fips.E);
    ERow(r, i);
    if i < 2 {
      ERow(r, i + 4);
      ExchangedLow(x, SaltOf(e0, e1), i);
    } else if 4 <= i < 6 {
      ERow(r, i - 4);
      ExchangedHigh(x, SaltOf(e0, e1), i);
    } else {
      ExchangedNot(x, SaltOf(e0, e1), i);
    }
    SaltParts(e0, e1);
    if i == 0 {
      MixedWindow0(r, e0);
    } else if i == 1 {
      MixedWindow1(r, e1);
    } else if i == 2 {
      MixedWindow2(r, e0);
    } else if i == 3 {
      MixedWindow3(r, e1);
    } else if i == 4 {
      MixedWindow4(r, e0);
    } else if i == 5 {
      MixedWindow5(r, e1);
    } else if i == 6 {
      MixedWindow6(r, e0);
    } else {
      MixedWindow7(r, e1);
    }
  }

  lemma SaltParts(e0: bv32, e1: bv32)
    ensures SaltOf(e0, e1)[0..6] == Six(e0, 2) && SaltOf(e0, e1)[6..12] == Six(e1, 6)
  {
    hide Six;
  }

  function Choice(salt: Fips.Bits, a: Fips.Bits, b: Fips.Bits): (c: Fips.Bits)
    requires |salt| == |a| == |b| == 6
    ensures |c| == 6
  {
    seq(6, j requires 0 <= j < 6 => Either(salt[j], a[j], b[j]))
  }

  lemma SixInside(w: bv32, p: nat, j: nat)
    requires j < 6 && p + j < 32
    ensures Six(w, p)[j] == BitAt(w, p + j)
  {
    hide Six, BitAt;
    SixAt(w, p, j);
  }

  function Either(s: bool, a: bool, b: bool): bool {
    if s then a else b
  }

  lemma ExchangedLow(x: Fips.Bits, salt: Salt, i: nat)
    requires |x| == 48 && i < 2
    ensures Exchanged(x, salt)[6 * i..6 * i + 6] ==
            Choice(salt[6 * i..6 * i + 6], x[6 * i + 24..6 * i + 30], x[6 * i..6 * i + 6])
  {
  }

  lemma ExchangedHigh(x: Fips.Bits, salt: Salt, i: nat)
    requires |x| == 48 && 4 <= i < 6
    ensures Exchanged(x, salt)[6 * i..6 * i + 6] ==
            Choice(salt[6 * i - 24..6 * i - 18], x[6 * i - 24..6 * i - 18], x[6 * i..6 * i + 6])
  {
  }

  lemma ExchangedNot(x: Fips.Bits, salt: Salt, i: nat)
    requires |x| == 48 && (2 <= i < 4 || 6 <= i < 8)
    ensures Exchanged(x, salt)[6 * i..6 * i + 6] == x[6 * i..6 * i + 6]
  {
  }

  // ---------------------------------------------------------------------------------------------
  // The rounds and the iterations.
  // ---------------------------------------------------------------------------------------------

  lemma SixOfSalted(r: bv32, k: SubKey, e0: bv32, e1: bv32, i: nat)
    requires i < 8 && IsMask0(e0) && IsMask1(e1)
    ensures
      var x := Fips.Plus(Exchanged(Fips.Select(HalfOf(r), Fips.E), SaltOf(e0, e1)), KeyBits(k));
      x[6 * i..6 * i + 6] == Six(if i % 2 == 0 then SaltedLoad(r, k.k0, e0) else SaltedLoad(r, k.k1, e1), 4 * i + 2)
  {
    hide Six, Xor, HalfOf, KeyBits, Mixed, SaltedLoad, Exchanged, SaltOf, IsMask0, IsMask1, Fips.Select, Fips.Plus;
    var w, e := if i % 2 == 0 then k.k0 else k.k1, if i % 2 == 0 then e0 else e1;
    LoadIsMixed(r, w, e);
    SixOfXor(Mixed(r, e), w, 4 * i + 2);
    SixOfMixed(r, e0, e1, i);
    KeyRow(k, i);
    PlusOfPart(Exchanged(Fips.Select(HalfOf(r), Fips.E), SaltOf(e0, e1)), KeyBits(k), 6 * i, 6 * i + 6);
  }

  /** What D_ENCRYPT xors into its left half, salted. */
  lemma SaltedFConforms(sp: SpTables, k: SubKey, e0: bv32, e1: bv32, r: bv32)
    requires IsMask0(e0) && IsMask1(e1)
    ensures HalfOf(Substitute(sp, SaltedLoad(r, k.k0, e0), Rotate4(SaltedLoad(r, k.k1, e1)))) ==
            SaltedF(BoxesOf(sp), SaltOf(e0, e1), HalfOf(r), KeyBits(k))
  {
    hide Substitute, ContributionsTo, Six, Rotate4, SaltedLoad, HalfOf, KeyBits, BoxesOf, Exchanged, SaltOf, IsMask0,
        IsMask1,
      Fips.Select, Fips.Contributions, Fips.Plus;
    var u, v := SaltedLoad(r, k.k0, e0), SaltedLoad(r, k.k1, e1);
    SubstituteContributes(sp, u, v);
    var x := Fips.Plus(Exchanged(Fips.Select(HalfOf(r), Fips.E), SaltOf(e0, e1)), KeyBits(k));
    forall i: nat | i < 8
      ensures x[6 * i..6 * i + 6] == Six(if i % 2 == 0 then u else v, 4 * i + 2)
    {
      SixOfSalted(r, k, e0, e1, i);
    }
    ContributionsConform(sp, u, v, x, 8);
  }

  lemma {:induction false} SaltedRoundsConform(sp: SpTables, ks: seq<SubKey>, e0: bv32, e1: bv32, s: Halves)
    requires IsMask0(e0) && IsMask1(e1)
    ensures HalvesOf(SaltedRounds(sp, ks, e0, e1, s)) ==
            FipsSaltedRounds(BoxesOf(sp), SaltOf(e0, e1), ScheduleBits(ks), HalvesOf(s))
    decreases ks
  {
    hide Substitute, SaltedLoad, Xor, Rotate4, HalfOf, KeyBits, BoxesOf, SaltOf, IsMask0, IsMask1, SaltedF, Fips.Plus;
    if ks != [] {
      SaltedFConforms(sp, ks[0], e0, e1, s.r);
      HalfOfXor(s.l, Substitute(sp, SaltedLoad(s.r, ks[0].k0, e0), Rotate4(SaltedLoad(s.r, ks[0].k1, e1))));
      SaltedRoundsConform(sp, ks[1..], e0, e1, Halves(s.r, SaltedDEncrypt(sp, s.l, s.r, ks[0], e0, e1)));
      assert ScheduleBits(ks)[1..] == ScheduleBits(ks[1..]);
    }
  }

  lemma SaltedDesConforms(sp: SpTables, ks: seq<SubKey>, e0: bv32, e1: bv32, b: Block)
    requires IsMask0(e0) && IsMask1(e1)
    ensures BlockBits(SaltedDes(sp, ks, e0, e1, b)) ==
            SaltedCipher(BoxesOf(sp), SaltOf(e0, e1), ScheduleBits(ks), BlockBits(b))
  {
    hide Ip, Fp, SaltedRounds, FipsSaltedRounds, Rotate3, Rotate29, WordBits, BlockBits, ScheduleBits, BoxesOf, SaltOf,
      IsMask0, IsMask1, Fips.Select;
    var p := Ip(b);
    var s := Halves(Rotate29(p.w1), Rotate29(p.w0));
    IpSelects(b);
    RotationsCancel(p.w1);
    RotationsCancel(p.w0);
    SaltedRoundsConform(sp, ks, e0, e1, s);
    var e := SaltedRounds(sp, ks, e0, e1, s);
    FpSelects(Block(Rotate3(e.l), Rotate3(e.r)));
  }

  lemma ZeroBlockBits()
    ensures BlockBits(ZERO_BLOCK) == seq(64, i => false)
  {
    hide BitAt;
    forall p: nat
      ensures !BitAt(0, p)
    {
      ZeroBits(p);
    }
    forall k: nat | k < 8
      ensures BlockBits(ZERO_BLOCK)[8 * k..8 * k + 8] == seq(8, i => false)
    {
      BlockByte(ZERO_BLOCK, k);
    }
    forall i | 0 <= i < 64
      ensures !BlockBits(ZERO_BLOCK)[i]
    {
      assert BlockBits(ZERO_BLOCK)[8 * (i / 8)..8 * (i / 8) + 8][i % 8] == BlockBits(ZERO_BLOCK)[i];
    }
  }

  lemma {:induction false} IterationsConform(sp: SpTables, ks: seq<SubKey>, e0: bv32, e1: bv32, n: nat)
    requires IsMask0(e0) && IsMask1(e1)
    ensures BlockBits(Iterated(sp, ks, e0, e1, n)) ==
            SaltedIterations(BoxesOf(sp), SaltOf(e0, e1), ScheduleBits(ks), n)
  {
    hide SaltedDes, SaltedCipher, BlockBits, ScheduleBits, BoxesOf, SaltOf, IsMask0, IsMask1;
    if n == 0 {
      ZeroBlockBits();
    } else {
      IterationsConform(sp, ks, e0, e1, n - 1);
      SaltedDesConforms(sp, ks, e0, e1, Iterated(sp, ks, e0, e1, n - 1));
    }
  }

  // ---------------------------------------------------------------------------------------------
  // The salt characters.
  // ---------------------------------------------------------------------------------------------

  lemma MaskOfByte(b: bv32)
    requires b < 256
    ensures IsMask0(b << 2) && IsMask1(b << 6)
  {
  }

  lemma MasksAreMasks(c: Char)
    ensures IsMask0(Eswap0(c)) && IsMask1(Eswap1(c))
  {
    hide IsMask0, IsMask1, ConSalt;
    var b := ConSalt(c) as bv32;
    MaskOfByte(b);
  }

  lemma SixShifted(b: bv32)
    requires b < 256
    ensures Six(b << 2, 2) == Six(b, 0) && Six(b << 6, 6) == Six(b, 0)
  {
    hide BitAt;
    LowMasks(b);
    LowMasks(b << 2);
    LowMasks(b << 6);
    Masks1(b << 6);
    SameSix(Six(b << 2, 2), Six(b, 0));
    SameSix(Six(b << 6, 6), Six(b, 0));
  }

  /** The salt is six bits of the table entry for each character, the lowest first. */
  lemma SaltOfCharacters(c0: Char, c1: Char)
    ensures SaltOf(Eswap0(c0), Eswap1(c1)) == Six(ConSalt(c0) as bv32, 0) + Six(ConSalt(c1) as bv32, 0)
  {
    hide Six, ConSalt;
    SixShifted(ConSalt(c0) as bv32);
    SixShifted(ConSalt(c1) as bv32);
  }

  /** What con_salt holds: the place of a character among the letters of a result, counting on through
      the characters that are no letters. */
  function SaltNumber(c: Char): nat {
    if c < 58 then (c + 210) % 256 else if c < 91 then c - 53 else c - 59
  }

  lemma ConSaltNumber(c: Char)
    ensures ConSalt(c) == SaltNumber(c)
  {
    hide ConSalt;
    if c < 46 {
      LowConSalt(c);
    } else {
      ConSaltIs(c);
    }
  }

  lemma LowConSalt(c: Char)
    requires c < 46
    ensures ConSalt(c) == c + 210
  {
  }

  /** The six salt bits of a character, the lowest first. */
  function SaltBits(c: Char): (bits: Fips.Bits)
    ensures |bits| == 6
  {
    SixBits(SaltNumber(c))
  }

  /** The number of the lowest byte. */
  function LowByte(y: bv32): nat {
    (y & 0xff) as int
  }

  lemma ByteNumber(y: bv32)
    ensures LowByte(y) ==
            Fips.One(y & 0x01 != 0) + 2 * Fips.One(y & 0x02 != 0) + 4 * Fips.One(y & 0x04 != 0) +
            8 * Fips.One(y & 0x08 != 0) + 16 * Fips.One(y & 0x10 != 0) + 32 * Fips.One(y & 0x20 != 0) +
            64 * Fips.One(y & 0x40 != 0) + 128 * Fips.One(y & 0x80 != 0)
  {
  }

  lemma ByteOnly(y: bv32)
    requires y as int < 256
    ensures y & 0xff == y
  {
  }

  /** What is above six bits does not show in them. */
  lemma SixBitsModulo(m: nat, q: nat)
    ensures SixBits(m + 64 * q) == SixBits(m)
  {
    var n := m + 64 * q;
    assert n / 2 == m / 2 + 2 * (16 * q);
    assert n / 4 == m / 4 + 2 * (8 * q);
    assert n / 8 == m / 8 + 2 * (4 * q);
    assert n / 16 == m / 16 + 2 * (2 * q);
    assert n / 32 == m / 32 + 2 * q;
    EvenMore(m, 32 * q);
    EvenMore(m / 2, 16 * q);
    EvenMore(m / 4, 8 * q);
    EvenMore(m / 8, 4 * q);
    EvenMore(m / 16, 2 * q);
    EvenMore(m / 32, q);
  }

  lemma EvenMore(m: nat, k: nat)
    ensures (m + 2 * k) % 2 == m % 2
  {
  }

  lemma SixLow(y: bv32)
    ensures Six(y, 0) == [y & 0x01 != 0, y & 0x02 != 0, y & 0x04 != 0, y & 0x08 != 0, y & 0x10 != 0, y & 0x20 != 0]
    ensures BitAt(y, 6) == (y & 0x40 != 0) && BitAt(y, 7) == (y & 0x80 != 0)
  {
    hide BitAt;
    LowMasks(y);
  }

  lemma NumberOfSix(six: Fips.Bits, b0: bool, b1: bool, b2: bool, b3: bool, b4: bool, b5: bool)
    requires six == [b0, b1, b2, b3, b4, b5]
    ensures Fips.Number(six) == Fips.One(b0) + 2 * Fips.One(b1) + 4 * Fips.One(b2) + 8 * Fips.One(b3) +
            16 * Fips.One(b4) + 32 * Fips.One(b5)
  {
  }

  lemma NumberOfByte(y: bv32)
    ensures LowByte(y) == Fips.Number(Six(y, 0)) + 64 * Fips.One(BitAt(y, 6)) + 128 * Fips.One(BitAt(y, 7))
  {
    hide BitAt, Six, LowByte, Fips.One, Fips.Number;
    SixLow(y);
    NumberOfSix(Six(y, 0), y & 0x01 != 0, y & 0x02 != 0, y & 0x04 != 0, y & 0x08 != 0, y & 0x10 != 0, y & 0x20 != 0);
    ByteNumber(y);
  }

  lemma SixBitsOfByte(y: bv32)
    ensures Six(y, 0) == SixBits(LowByte(y))
  {
    hide BitAt, LowByte, Six, SixBits, Fips.One, Fips.Number;
    var low, q := Fips.Number(Six(y, 0)), Fips.One(BitAt(y, 6)) + 2 * Fips.One(BitAt(y, 7));
    NumberOfByte(y);
    SixBitsModulo(low, q);
    SixBitsOfNumber(Six(y, 0));
  }

  lemma WordBack(b: bv32)
    ensures b as int as bv32 == b
  {
  }

  lemma NextWord(b: bv32)
    requires b as int < 255
    ensures (b + 1) as int == b as int + 1
  {
  }

  /** The word of a number, counted up to. */
  ghost function WordOf(n: nat): (b: bv32)
    requires n < 256
    ensures b as int == n
  {
    if n == 0 then 0 else
      var c := WordOf(n - 1);
      NextWord(c);
      c + 1
  }

  lemma SixBitsOfSalt(n: Byte)
    ensures Six(n as bv32, 0) == SixBits(n)
  {
    hide Six, SixBits;
    var y := WordOf(n);
    WordBack(y);
    ByteOnly(y);
    SixBitsOfByte(y);
  }

  // ---------------------------------------------------------------------------------------------
  // The password.
  // ---------------------------------------------------------------------------------------------

  /** The key bits of a character: its low seven, the highest first, and a zero for the parity. */
  function CharBits(c: bv8): (bits: Fips.Bits)
    ensures |bits| == 8
  {
    OctetBits(c)[1..] + [false]
  }

  /** The key of a password: eight characters, NUL from its end on. */
  function PasswordBits(buf: seq<bv8>): (bits: Fips.Bits)
    ensures |bits| == 64
  {
    CharBits(PasswordChar(buf, 0)) + CharBits(PasswordChar(buf, 1)) + CharBits(PasswordChar(buf, 2)) +
    CharBits(PasswordChar(buf, 3)) + CharBits(PasswordChar(buf, 4)) + CharBits(PasswordChar(buf, 5)) +
    CharBits(PasswordChar(buf, 6)) + CharBits(PasswordChar(buf, 7))
  }

  lemma DoubledBits(c: bv8)
    ensures OctetBits(Doubled(c)) == CharBits(c)
  {
    hide OctetBits, Doubled, IsOn;
    DoubledMasks(c);
    OctetBitAt(c);
    OctetBitAt(Doubled(c));
    SameEight(OctetBits(Doubled(c)), CharBits(c));
  }

  lemma DoubledMasks(c: bv8)
    ensures IsOn(Doubled(c), 0x80) == IsOn(c, 0x40)
    ensures IsOn(Doubled(c), 0x40) == IsOn(c, 0x20)
    ensures IsOn(Doubled(c), 0x20) == IsOn(c, 0x10)
    ensures IsOn(Doubled(c), 0x10) == IsOn(c, 0x08)
    ensures IsOn(Doubled(c), 0x08) == IsOn(c, 0x04)
    ensures IsOn(Doubled(c), 0x04) == IsOn(c, 0x02)
    ensures IsOn(Doubled(c), 0x02) == IsOn(c, 0x01)
    ensures !IsOn(Doubled(c), 0x01)
  {
  }

  lemma PasswordKeyBits(buf: seq<bv8>)
    ensures BlockBits(KeyBlock(PackedKey(buf))) == PasswordBits(buf)
  {
    hide PasswordChar, Doubled, OctetBits, CharBits, BlockBits, KeyBlock;
    var key := PackedKey(buf);
    KeyOctets(key);
    DoubledBits(PasswordChar(buf, 0));
    DoubledBits(PasswordChar(buf, 1));
    DoubledBits(PasswordChar(buf, 2));
    DoubledBits(PasswordChar(buf, 3));
    DoubledBits(PasswordChar(buf, 4));
    DoubledBits(PasswordChar(buf, 5));
    DoubledBits(PasswordChar(buf, 6));
    DoubledBits(PasswordChar(buf, 7));
  }

  /** The salt of two characters; a NUL counts as an A. */
  function CryptSalt(salt0: Char, salt1: Char): Salt {
    SaltBits(if salt0 == 0 then 0x41 else salt0) + SaltBits(if salt1 == 0 then 0x41 else salt1)
  }

  /** crypt() for every password, salt and table of boxes: twenty-five encryptions of 64 zeros under
      K1 to K16 of the password's key, with the expanded bits exchanged as the salt says. */
  lemma CryptConforms(sp: SpTables, buf: seq<bv8>, salt0: Char, salt1: Char)
    ensures BlockBits(CryptBlock(sp, buf, salt0, salt1)) ==
            SaltedIterations(BoxesOf(sp), CryptSalt(salt0, salt1), Fips.KeySchedule(PasswordBits(buf)), 25)
  {
    hide PackedKey, Schedule, SubKeys, Iterated, SaltedIterations, BlockBits, KeyBlock, BoxesOf, SaltOf, Eswap0, Eswap1,
      ScheduleBits, IsMask0, IsMask1, PasswordBits, SixBits, Six, ConSalt, Fips.KeySchedule;
    var c0, c1 := SaltChar(salt0), SaltChar(salt1);
    MasksAreMasks(c0);
    MasksAreMasks(c1);
    IterationsConform(sp, SubKeys(Schedule(PackedKey(buf))), Eswap0(c0), Eswap1(c1), ITERATIONS);
    ScheduleConforms(PackedKey(buf));
    PasswordKeyBits(buf);
    SaltOfCharacters(c0, c1);
    ConSaltNumber(c0);
    ConSaltNumber(c1);
    SixBitsOfSalt(ConSalt(c0));
    SixBitsOfSalt(ConSalt(c1));
  }
}
