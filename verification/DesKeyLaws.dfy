/** Laws of the key schedule and of DES under it: complementation, independence of the parity bits,
    return of the key halves, and keys whose halves are constant. */
module DesKeyLaws {
  import opened DesWords
  import opened DesBlockCipher
  import opened DesKeyTables
  import opened DesKeySchedule
  import opened DesParity

  // ---------------------------------------------------------------------------------------------
  // Complementation.
  // ---------------------------------------------------------------------------------------------

  function Not28(h: bv32): bv32 {
    !h & 0x0fffffff
  }

  function NotHalves(h: KeyHalves): KeyHalves {
    KeyHalves(Not28(h.c), Not28(h.d))
  }

  function NotKey(key: Key): Key {
    seq(8, i requires 0 <= i < 8 => !key[i])
  }

  lemma LoadWordNot(b0: bv8, b1: bv8, b2: bv8, b3: bv8)
    ensures LoadWord(!b0, !b1, !b2, !b3) == !LoadWord(b0, b1, b2, b3)
  {
  }

  lemma Pc1Not(c: bv32, d: bv32)
    ensures Pc1(!c, !d).c == Not28(Pc1(c, d).c)
    ensures Pc1(!c, !d).d == Not28(Pc1(c, d).d)
  {
  }

  lemma ShiftTwoNot(h: bv32)
    requires IsHalf(h)
    ensures IsHalf(ShiftTwo(h))
    ensures ShiftTwo(Not28(h)) == Not28(ShiftTwo(h))
  {
  }

  lemma ShiftOneNot(h: bv32)
    requires IsHalf(h)
    ensures IsHalf(ShiftOne(h))
    ensures ShiftOne(Not28(h)) == Not28(ShiftOne(h))
  {
  }

  lemma ShiftNot(h: bv32, two: bool)
    requires IsHalf(h)
    ensures IsHalf(Shift(h, two))
    ensures Shift(Not28(h), two) == Not28(Shift(h, two))
  {
    hide IsHalf, Not28, ShiftOne, ShiftTwo;
    ShiftTwoNot(h);
    ShiftOneNot(h);
  }

  lemma {:induction false} HalvesAfterNot(h: KeyHalves, n: nat)
    requires AreHalves(h) && n <= ROUNDS
    ensures AreHalves(HalvesAfter(h, n))
    ensures HalvesAfter(NotHalves(h), n) == NotHalves(HalvesAfter(h, n))
  {
    hide IsHalf, Not28, Shift;
    if n > 0 {
      HalvesAfterNot(h, n - 1);
      ShiftNot(HalvesAfter(h, n - 1).c, SHIFTS2[n - 1]);
      ShiftNot(HalvesAfter(h, n - 1).d, SHIFTS2[n - 1]);
    }
  }

  /** Four words with disjoint supports, each complemented inside its own. */
  lemma UnionC(w: bv32, x: bv32, y: bv32, z: bv32)
    requires w & !0x20090830 == 0 && x & !0x12202404 == 0 && y & !0x09040203 == 0 && z & !0x04121108 == 0
    ensures (w ^ 0x20090830) | (x ^ 0x12202404) | (y ^ 0x09040203) | (z ^ 0x04121108) == (w | x | y | z) ^ 0x3f3f3f3f
  {
  }

  lemma UnionD(w: bv32, x: bv32, y: bv32, z: bv32)
    requires w & !0x30111004 == 0 && x & !0x0a020409 == 0 && y & !0x01280310 == 0 && z & !0x04042822 == 0
    ensures (w ^ 0x30111004) | (x ^ 0x0a020409) | (y ^ 0x01280310) | (z ^ 0x04042822) == (w | x | y | z) ^ 0x3f3f3f3f
  {
  }

  /** An index takes its bits from the half, so complementing the half complements the index. */
  lemma IndicesCNot(h: bv32)
    ensures Skb1Index(Not28(h)) == !Skb1Index(h)
    ensures Skb2Index(Not28(h)) == !Skb2Index(h)
    ensures Skb3Index(Not28(h)) == !Skb3Index(h)
  {
  }

  lemma IndicesDNot(h: bv32)
    ensures Skb5Index(Not28(h)) == !Skb5Index(h)
    ensures Skb6Index(Not28(h)) == !Skb6Index(h)
    ensures Skb7Index(Not28(h)) == !Skb7Index(h)
  {
  }

  lemma Index0Not(h: bv32)
    ensures Skb0Index(Not28(h)) == !Skb0Index(h)
  {
  }

  lemma SpreadCNot(c: bv32)
    ensures SpreadC(Not28(c)) == SpreadC(c) ^ 0x3f3f3f3f
  {
    hide Table.At, Skb0Index, Skb1Index, Skb2Index, Skb3Index, Not28;
    Index0Not(c);
    IndicesCNot(c);
    Skb0Complements(Skb0Index(c));
    Skb1Complements(Skb1Index(c));
    Skb2Complements(Skb2Index(c));
    Skb3Complements(Skb3Index(c));
    UnionC(SKB0.At(Skb0Index(c)), SKB1.At(Skb1Index(c)), SKB2.At(Skb2Index(c)), SKB3.At(Skb3Index(c)));
  }

  lemma SpreadDNot(d: bv32)
    ensures SpreadD(Not28(d)) == SpreadD(d) ^ 0x3f3f3f3f
  {
    hide Table.At, Skb0Index, Skb5Index, Skb6Index, Skb7Index, Not28;
    Index0Not(d);
    IndicesDNot(d);
    Skb4Complements(Skb0Index(d));
    Skb5Complements(Skb5Index(d));
    Skb6Complements(Skb6Index(d));
    Skb7Complements(Skb7Index(d));
    UnionD(SKB4.At(Skb0Index(d)), SKB5.At(Skb5Index(d)), SKB6.At(Skb6Index(d)), SKB7.At(Skb7Index(d)));
  }

  /** What complementing the key does to a subkey: it flips the forty-eight bits a round uses. */
  function MaskedSubKey(k: SubKey): SubKey {
    SubKey(k.k0 ^ 0xfcfcfcfc, k.k1 ^ 0xcfcfcfcf)
  }

  lemma RotateMask30(x: bv32)
    ensures Rotate30(x ^ 0x3f3f3f3f) == Rotate30(x) ^ 0xfcfcfcfc
  {
  }

  lemma RotateMask26(x: bv32)
    ensures Rotate26(x ^ 0x3f3f3f3f) == Rotate26(x) ^ 0xcfcfcfcf
  {
  }

  lemma JoinMask(s: bv32, t: bv32)
    ensures ((t ^ 0x3f3f3f3f) << 16) | ((s ^ 0x3f3f3f3f) & 0x0000ffff) == ((t << 16) | (s & 0x0000ffff)) ^ 0x3f3f3f3f
    ensures ((s ^ 0x3f3f3f3f) >> 16) | ((t ^ 0x3f3f3f3f) & 0xffff0000) == ((s >> 16) | (t & 0xffff0000)) ^ 0x3f3f3f3f
  {
  }

  lemma AssembleNot(s: bv32, t: bv32)
    ensures Assemble(s ^ 0x3f3f3f3f, t ^ 0x3f3f3f3f) == MaskedSubKey(Assemble(s, t))
  {
    hide Rotate30, Rotate26;
    JoinMask(s, t);
    RotateMask30((t << 16) | (s & 0x0000ffff));
    RotateMask26((s >> 16) | (t & 0xffff0000));
  }

  lemma SubKeyOfNot(h: KeyHalves)
    ensures SubKeyOf(NotHalves(h)) == MaskedSubKey(SubKeyOf(h))
  {
    hide SpreadC, SpreadD, Assemble, Not28, MaskedSubKey;
    SpreadCNot(h.c);
    SpreadDNot(h.d);
    AssembleNot(SpreadC(h.c), SpreadD(h.d));
  }

  lemma KeyStartNot(key: Key)
    ensures KeyStart(NotKey(key)) == NotHalves(KeyStart(key))
    ensures AreHalves(KeyStart(key))
  {
    hide LoadWord, Pc1, Not28, IsHalf;
    LoadWordNot(key[0], key[1], key[2], key[3]);
    LoadWordNot(key[4], key[5], key[6], key[7]);
    var c := LoadWord(key[0], key[1], key[2], key[3]);
    var d := LoadWord(key[4], key[5], key[6], key[7]);
    Pc1Not(c, d);
    Pc1Halves(c, d);
  }

  function MaskedSubKeys(ks: seq<SubKey>): seq<SubKey> {
    seq(|ks|, i requires 0 <= i < |ks| => MaskedSubKey(ks[i]))
  }

  lemma ScheduleNot(key: Key)
    ensures SubKeys(Schedule(NotKey(key))) == MaskedSubKeys(SubKeys(Schedule(key)))
  {
    hide SubKeyOf, NotHalves, MaskedSubKey, KeyStart, Schedule, NotKey, AreHalves;
    KeyStartNot(key);
    forall i | 0 <= i < ROUNDS
      ensures SubKeys(Schedule(NotKey(key)))[i] == MaskedSubKey(SubKeys(Schedule(key))[i])
    {
      ScheduleSubKeys(key, i);
      ScheduleSubKeys(NotKey(key), i);
      HalvesAfterNot(KeyStart(key), i + 1);
      SubKeyOfNot(HalvesAfter(KeyStart(key), i + 1));
    }
  }

  // The bits of u that no table index reads, and where they are in t before its rotation.

  function FlipUnread(x: bv32): bv32 {
    x ^ 0x03030303
  }

  function FlipUnreadBefore(x: bv32): bv32 {
    x ^ 0x30303030
  }

  lemma IndicesSkip(x: bv32)
    ensures Index2(FlipUnread(x)) == Index2(x)
    ensures Index10(FlipUnread(x)) == Index10(x)
    ensures Index18(FlipUnread(x)) == Index18(x)
    ensures Index26(FlipUnread(x)) == Index26(x)
  {
  }

  lemma LookupFourSkips(sp: SpTables, first: nat, x: bv32)
    requires first < 2
    ensures LookupFour(sp, first, FlipUnread(x)) == LookupFour(sp, first, x)
  {
    hide Lookup, Index2, Index10, Index18, Index26, FlipUnread;
    IndicesSkip(x);
  }

  /** Complemented data and a masked key differ from the originals in the unread bits only. */
  lemma MasksMeet(r: bv32, k: SubKey)
    ensures Xor(Flip(r), MaskedSubKey(k).k0) == FlipUnread(Xor(r, k.k0))
    ensures Xor(Flip(r), MaskedSubKey(k).k1) == FlipUnreadBefore(Xor(r, k.k1))
  {
  }

  lemma Rotate4UnreadBits(x: bv32)
    ensures Rotate4(x ^ 0x30303030) == Rotate4(x) ^ 0x03030303
  {
  }

  lemma Rotate4Unread(x: bv32)
    ensures Rotate4(FlipUnreadBefore(x)) == FlipUnread(Rotate4(x))
  {
    hide Rotate4;
    Rotate4UnreadBits(x);
  }

  lemma SubstituteSkips(sp: SpTables, u: bv32, t: bv32)
    ensures Substitute(sp, FlipUnread(u), FlipUnread(t)) == Substitute(sp, u, t)
  {
    hide LookupFour, Xor, FlipUnread;
    LookupFourSkips(sp, 0, u);
    LookupFourSkips(sp, 1, t);
  }

  lemma RoundFunctionNot(sp: SpTables, k: SubKey, r: bv32)
    ensures RoundFunction(sp, MaskedSubKey(k), Flip(r)) == RoundFunction(sp, k, r)
  {
    hide Substitute, Rotate4, Flip, MaskedSubKey, Xor, FlipUnread, FlipUnreadBefore;
    MasksMeet(r, k);
    Rotate4Unread(Xor(r, k.k1));
    SubstituteSkips(sp, Xor(r, k.k0), Rotate4(Xor(r, k.k1)));
  }

  lemma NotXor(a: bv32, b: bv32)
    ensures Xor(Flip(a), b) == Flip(Xor(a, b))
  {
  }

  lemma DEncryptNot(sp: SpTables, l: bv32, r: bv32, k: SubKey)
    ensures DEncrypt(sp, Flip(l), Flip(r), MaskedSubKey(k)) == Flip(DEncrypt(sp, l, r, k))
  {
    hide RoundFunction, MaskedSubKey, Flip, Xor;
    RoundFunctionNot(sp, k, r);
    NotXor(l, RoundFunction(sp, k, r));
  }

  function NotState(s: Halves): Halves {
    Halves(Flip(s.l), Flip(s.r))
  }

  lemma RoundNot(sp: SpTables, k: SubKey, s: Halves)
    ensures Round(sp, MaskedSubKey(k), NotState(s)) == NotState(Round(sp, k, s))
  {
    hide DEncrypt, MaskedSubKey, Flip;
    DEncryptNot(sp, s.l, s.r, k);
  }

  lemma {:induction false} RoundsNot(sp: SpTables, ks: seq<SubKey>, s: Halves)
    ensures Rounds(sp, MaskedSubKeys(ks), NotState(s)) == NotState(Rounds(sp, ks, s))
  {
    hide Round, MaskedSubKey, NotState;
    if ks != [] {
      RoundNot(sp, ks[0], s);
      assert MaskedSubKeys(ks)[1..] == MaskedSubKeys(ks[1..]);
      RoundsNot(sp, ks[1..], Round(sp, ks[0], s));
    }
  }

  lemma CoreNot(sp: SpTables, ks: seq<SubKey>, b: Block)
    ensures Core(sp, MaskedSubKeys(ks), b.Not()) == Core(sp, ks, b).Not()
  {
    hide Rotate29, Rotate3, Rounds, MaskedSubKeys, Flip, Block.Not;
    NotOnWords(b.w0, b.w1);
    RotateNot(b.w0);
    RotateNot(b.w1);
    var s := Halves(Rotate29(b.w1), Rotate29(b.w0));
    RoundsNot(sp, ks, s);
    var e := Rounds(sp, ks, s);
    RotateNot(e.l);
    RotateNot(e.r);
    NotOnWords(Rotate3(e.l), Rotate3(e.r));
  }

  lemma KeyOrderNot(key: Key, encrypt: bool)
    ensures KeyOrder(Schedule(NotKey(key)), encrypt) == MaskedSubKeys(KeyOrder(Schedule(key), encrypt))
  {
    hide SubKeys, Schedule, MaskedSubKey;
    ScheduleNot(key);
  }

  lemma FinalNot(b: Block)
    ensures Final(b.Not()) == Final(b).Not()
  {
    hide Fp, Block.Not, Block.Swap;
    SwapNot(b);
    FpNot(b.Swap());
    SwapNot(Fp(b.Swap()));
  }

  /** The complementation property: complementing every bit of the key and of the block complements
      every bit of the result, in either direction. */
  lemma Complementation(sp: SpTables, key: Key, encrypt: bool, b: Block)
    ensures Des(sp, Schedule(NotKey(key)), encrypt, b.Not()) == Des(sp, Schedule(key), encrypt, b).Not()
  {
    hide Ip, Final, Core, KeyOrder, Schedule, NotKey, MaskedSubKeys, Block.Not;
    var ks := KeyOrder(Schedule(key), encrypt);
    KeyOrderNot(key, encrypt);
    IpNot(b);
    CoreNot(sp, ks, Ip(b));
    FinalNot(Core(sp, ks, Ip(b)));
  }

  // ---------------------------------------------------------------------------------------------
  // Parity.
  // ---------------------------------------------------------------------------------------------

  lemma Pc1IgnoresParity(c: bv32, d: bv32, c': bv32, d': bv32)
    requires c & 0xfefefefe == c' & 0xfefefefe && d & 0xfefefefe == d' & 0xfefefefe
    ensures Pc1(c, d).c == Pc1(c', d').c
    ensures Pc1(c, d).d == Pc1(c', d').d
  {
  }

  lemma LoadWordUpperBits(b0: bv8, b1: bv8, b2: bv8, b3: bv8, a0: bv8, a1: bv8, a2: bv8, a3: bv8)
    requires b0 & 0xfe == a0 & 0xfe && b1 & 0xfe == a1 & 0xfe && b2 & 0xfe == a2 & 0xfe && b3 & 0xfe == a3 & 0xfe
    ensures LoadWord(b0, b1, b2, b3) & 0xfefefefe == LoadWord(a0, a1, a2, a3) & 0xfefefefe
  {
  }

  ghost predicate SameUpToParity(key: Key, key': Key) {
    forall i :: 0 <= i < 8 ==> key[i] & 0xfe == key'[i] & 0xfe
  }

  /** The schedule depends on the upper seven bits of every key byte only. */
  lemma ScheduleIgnoresParity(key: Key, key': Key)
    requires SameUpToParity(key, key')
    ensures Schedule(key) == Schedule(key')
  {
    hide Pc1, LoadWord, SubKeyOf, HalvesAfter;
    LoadWordUpperBits(key[0], key[1], key[2], key[3], key'[0], key'[1], key'[2], key'[3]);
    LoadWordUpperBits(key[4], key[5], key[6], key[7], key'[4], key'[5], key'[6], key'[7]);
    Pc1IgnoresParity(
      LoadWord(key[0], key[1], key[2], key[3]), LoadWord(key[4], key[5], key[6], key[7]),
      LoadWord(key'[0], key'[1], key'[2], key'[3]), LoadWord(key'[4], key'[5], key'[6], key'[7]));
    assert KeyStart(key) == KeyStart(key');
  }

  function WithOddParity(key: Key): Key {
    seq(8, i requires 0 <= i < 8 => OddParity(key[i]))
  }

  /** des_set_odd_parity changes no schedule, and check_parity accepts its result. */
  lemma OddParityKeepsSchedule(key: Key)
    ensures Schedule(WithOddParity(key)) == Schedule(key)
    ensures forall i :: 0 <= i < 8 ==> Parity(WithOddParity(key)[i]) == 1
  {
    hide OddParity, Schedule, Parity;
    forall i | 0 <= i < 8
      ensures WithOddParity(key)[i] & 0xfe == key[i] & 0xfe && Parity(WithOddParity(key)[i]) == 1
    {
      OddParityIsOdd(key[i]);
    }
    ScheduleIgnoresParity(WithOddParity(key), key);
  }

  // ---------------------------------------------------------------------------------------------
  // The rotations.
  // ---------------------------------------------------------------------------------------------

  /** The sixteen rotations add up to twenty-eight places. */
  lemma ShiftsClose(h: bv32)
    requires IsHalf(h)
    ensures
      var a := ShiftOne(ShiftOne(h));
      var b := ShiftTwo(ShiftTwo(ShiftTwo(ShiftTwo(ShiftTwo(ShiftTwo(a))))));
      var c := ShiftOne(b);
      var d := ShiftTwo(ShiftTwo(ShiftTwo(ShiftTwo(ShiftTwo(ShiftTwo(c))))));
      ShiftOne(d) == h
  {
  }

  lemma ShiftBothClose(h: KeyHalves)
    requires AreHalves(h)
    ensures
      var a := ShiftBoth(ShiftBoth(h, false), false);
      var b := ShiftBoth(ShiftBoth(ShiftBoth(ShiftBoth(ShiftBoth(ShiftBoth(a, true), true), true), true), true), true);
      var c := ShiftBoth(b, false);
      var d := ShiftBoth(ShiftBoth(ShiftBoth(ShiftBoth(ShiftBoth(ShiftBoth(c, true), true), true), true), true), true);
      ShiftBoth(d, false) == h
  {
    hide ShiftOne, ShiftTwo, IsHalf;
    ShiftsClose(h.c);
    ShiftsClose(h.d);
  }

  lemma OneStep(h: KeyHalves, n: nat)
    requires n < ROUNDS
    ensures HalvesAfter(h, n + 1) == ShiftBoth(HalvesAfter(h, n), SHIFTS2[n])
  {
  }

  lemma ThreeSteps(h: KeyHalves, n: nat)
    requires n + 2 < ROUNDS && SHIFTS2[n] && SHIFTS2[n + 1] && SHIFTS2[n + 2]
    ensures HalvesAfter(h, n + 3) == ShiftBoth(ShiftBoth(ShiftBoth(HalvesAfter(h, n), true), true), true)
  {
    hide ShiftBoth, HalvesAfter;
    OneStep(h, n);
    OneStep(h, n + 1);
    OneStep(h, n + 2);
  }

  /** After the last subkey both halves are back where they started. */
  lemma HalvesReturn(h: KeyHalves)
    requires AreHalves(h)
    ensures HalvesAfter(h, ROUNDS) == h
  {
    hide ShiftBoth, AreHalves;
    OneStep(h, 0);
    OneStep(h, 1);
    ThreeSteps(h, 2);
    ThreeSteps(h, 5);
    OneStep(h, 8);
    ThreeSteps(h, 9);
    ThreeSteps(h, 12);
    OneStep(h, 15);
    ShiftBothClose(h);
  }

  lemma KeyHalvesReturn(key: Key)
    ensures HalvesAfter(KeyStart(key), ROUNDS) == KeyStart(key)
  {
    hide KeyStart, HalvesAfter, AreHalves;
    KeyStartNot(key);
    HalvesReturn(KeyStart(key));
  }

  // ---------------------------------------------------------------------------------------------
  // Keys with constant halves.
  // ---------------------------------------------------------------------------------------------

  ghost predicate Constant(h: bv32) {
    h == 0 || h == 0x0fffffff
  }

  lemma ShiftConstant(h: bv32, two: bool)
    requires Constant(h)
    ensures Shift(h, two) == h
  {
  }

  lemma {:induction false} HalvesAfterConstant(h: KeyHalves, n: nat)
    requires Constant(h.c) && Constant(h.d) && n <= ROUNDS
    ensures HalvesAfter(h, n) == h
  {
    hide Shift, Constant;
    if n > 0 {
      HalvesAfterConstant(h, n - 1);
      ShiftConstant(h.c, SHIFTS2[n - 1]);
      ShiftConstant(h.d, SHIFTS2[n - 1]);
    }
  }

  ghost predicate SelfDual(key: Key) {
    Constant(KeyStart(key).c) && Constant(KeyStart(key).d)
  }

  lemma SelfDualSubKeys(key: Key, i: nat)
    requires SelfDual(key) && i < ROUNDS
    ensures SubKeys(Schedule(key))[i] == SubKeyOf(KeyStart(key))
  {
    hide SubKeyOf, KeyStart, Schedule, SubKeys, Constant;
    ScheduleSubKeys(key, i);
    HalvesAfterConstant(KeyStart(key), i + 1);
  }

  lemma SelfDualOrder(key: Key)
    requires SelfDual(key)
    ensures KeyOrder(Schedule(key), true) == KeyOrder(Schedule(key), false)
  {
    hide SelfDual, KeyStart, Schedule, SubKeyOf;
    forall i | 0 <= i < ROUNDS
      ensures SubKeys(Schedule(key))[i] == SubKeyOf(KeyStart(key))
    {
      SelfDualSubKeys(key, i);
    }
  }

  /** A key whose halves are each all zeros or all ones encrypts and decrypts alike: encrypting
      twice gives the block back. */
  lemma SelfDualKeysInvolve(sp: SpTables, key: Key, b: Block)
    requires SelfDual(key)
    ensures Des(sp, Schedule(key), true, Des(sp, Schedule(key), true, b)) == b
    ensures Des(sp, Schedule(key), true, b) == Des(sp, Schedule(key), false, b)
  {
    hide SelfDual, Schedule, Core, Ip, Final, KeyOrder;
    SelfDualOrder(key);
    DesInverts(sp, Schedule(key), true, b);
  }
}
