/** fcrypt.c: the twenty-five salted encryptions behind crypt().  The code never leaves the network:
    it keeps the two halves rotated, exchanges them between encryptions, and applies the final
    permutation once at the end.  The specification is iterated encryption of the zero block. */
module DesCrypt {
  import opened DesWords
  import opened DesBlockCipher

  const ITERATIONS := 25

  /** LOAD_DATA under DES_FCRYPT: r^k, with the bits of e exchanged between the halves of r. */
  function SaltedLoad(r: bv32, k: bv32, e: bv32): bv32 {
    var u := (r ^ (r >> 16)) & e;
    u ^ (r ^ k) ^ (u << 16)
  }

  /** D_ENCRYPT under DES_FCRYPT. */
  function SaltedDEncrypt(sp: SpTables, ll: bv32, r: bv32, k: SubKey, e0: bv32, e1: bv32): bv32 {
    Xor(ll, Substitute(sp, SaltedLoad(r, k.k0, e0), Rotate4(SaltedLoad(r, k.k1, e1))))
  }

  function SaltedRounds(sp: SpTables, ks: seq<SubKey>, e0: bv32, e1: bv32, s: Halves): Halves {
    if ks == [] then s
    else SaltedRounds(sp, ks[1..], e0, e1, Halves(s.r, SaltedDEncrypt(sp, s.l, s.r, ks[0], e0, e1)))
  }

  /** One whole encryption with salted rounds. */
  function SaltedDes(sp: SpTables, ks: seq<SubKey>, e0: bv32, e1: bv32, b: Block): Block {
    var p := Ip(b);
    var s := SaltedRounds(sp, ks, e0, e1, Halves(Rotate29(p.w1), Rotate29(p.w0)));
    Final(Block(Rotate3(s.l), Rotate3(s.r)))
  }

  /** n encryptions of the zero block, one after the other. */
  function Iterated(sp: SpTables, ks: seq<SubKey>, e0: bv32, e1: bv32, n: nat): Block {
    if n == 0 then ZERO_BLOCK else SaltedDes(sp, ks, e0, e1, Iterated(sp, ks, e0, e1, n - 1))
  }

  // ---------------------------------------------------------------------------------------------
  // The code.
  // ---------------------------------------------------------------------------------------------

  /** The halves l and r of fcrypt_body after n iterations. */
  function BodyState(sp: SpTables, ks: seq<SubKey>, e0: bv32, e1: bv32, n: nat): Halves {
    if n == 0 then Halves(0, 0)
    else SaltedRounds(sp, ks, e0, e1, BodyState(sp, ks, e0, e1, n - 1)).Swap()
  }

  ghost function SaltedFrom(sp: SpTables, schedule: seq<bv32>, e0: bv32, e1: bv32, n: nat, l: bv32, r: bv32): Halves
    requires |schedule| == SCHEDULE_WORDS && n <= ROUNDS
  {
    SaltedRounds(sp, SubKeys(schedule)[n..], e0, e1, Halves(l, r))
  }

  lemma OneSaltedRound(sp: SpTables, schedule: seq<bv32>, e0: bv32, e1: bv32, n: nat, l: bv32, r: bv32)
    requires |schedule| == SCHEDULE_WORDS && n < ROUNDS
    ensures SaltedFrom(sp, schedule, e0, e1, n, l, r) ==
            SaltedFrom(sp, schedule, e0, e1, n + 1, r, SaltedDEncrypt(sp, l, r, SubKeyAt(schedule, 2 * n), e0, e1))
  {
    hide SaltedDEncrypt;
    var ks := SubKeys(schedule);
    assert ks[n..][1..] == ks[n + 1..];
  }

  lemma NoSaltedRounds(sp: SpTables, schedule: seq<bv32>, e0: bv32, e1: bv32, l: bv32, r: bv32)
    requires |schedule| == SCHEDULE_WORDS
    ensures SaltedFrom(sp, schedule, e0, e1, ROUNDS, l, r) == Halves(l, r)
    ensures SaltedFrom(sp, schedule, e0, e1, 0, l, r) == SaltedRounds(sp, SubKeys(schedule), e0, e1, Halves(l, r))
  {
    assert SubKeys(schedule)[0..] == SubKeys(schedule);
  }

  /** The sixteen D_ENCRYPTs of one iteration, two to a turn with l and r exchanging roles. */
  method RunSalted(sp: SpTables, schedule: seq<bv32>, e0: bv32, e1: bv32, l0: bv32, r0: bv32)
    returns (l: bv32, r: bv32)
    requires |schedule| == SCHEDULE_WORDS
    ensures Halves(l, r) == SaltedRounds(sp, SubKeys(schedule), e0, e1, Halves(l0, r0))
  {
    hide SaltedDEncrypt, SaltedFrom, SubKeys;
    l, r := l0, r0;
    NoSaltedRounds(sp, schedule, e0, e1, l, r);
    var i := 0;
    while i < 32
      invariant 0 <= i <= 32 && i % 4 == 0
      invariant SaltedFrom(sp, schedule, e0, e1, i / 2, l, r) == SaltedFrom(sp, schedule, e0, e1, 0, l0, r0)
    {
      OneSaltedRound(sp, schedule, e0, e1, i / 2, l, r);
      l := SaltedDEncrypt(sp, l, r, SubKeyAt(schedule, i), e0, e1);
      OneSaltedRound(sp, schedule, e0, e1, i / 2 + 1, r, l);
      r := SaltedDEncrypt(sp, r, l, SubKeyAt(schedule, i + 2), e0, e1);
      i := i + 4;
    }
    NoSaltedRounds(sp, schedule, e0, e1, l, r);
  }

  method FcryptBody(sp: SpTables, schedule: seq<bv32>, eswap0: bv32, eswap1: bv32)
    returns (out0: bv32, out1: bv32)
    requires |schedule| == SCHEDULE_WORDS
    ensures Block(out0, out1) == Iterated(sp, SubKeys(schedule), eswap0, eswap1, ITERATIONS)
  {
    hide SaltedRounds, SubKeys, Rotate3, Fp, Iterated;
    var l: bv32, r: bv32 := 0, 0;
    for j := 0 to 25
      invariant Halves(l, r) == BodyState(sp, SubKeys(schedule), eswap0, eswap1, j)
    {
      l, r := RunSalted(sp, schedule, eswap0, eswap1, l, r);
      l, r := r, l;
    }
    l, r := Rotate3(l), Rotate3(r);
    var fp := Fp(Block(l, r));
    l, r := fp.w0, fp.w1;
    out0, out1 := r, l;
    BodyIterates(sp, SubKeys(schedule), eswap0, eswap1, 25);
  }

  // ---------------------------------------------------------------------------------------------
  // Refinement.
  // ---------------------------------------------------------------------------------------------

  lemma ZeroStaysZero()
    ensures Final(ZERO_BLOCK) == ZERO_BLOCK && Rotate3(0) == 0
  {
  }

  /** Staying inside the network between encryptions changes nothing: the final permutation and
      rotation of one encryption meet the initial ones of the next. */
  lemma {:induction false} BodyIterates(sp: SpTables, ks: seq<SubKey>, e0: bv32, e1: bv32, n: nat)
    ensures
      var s := BodyState(sp, ks, e0, e1, n);
      Iterated(sp, ks, e0, e1, n) == Final(Block(Rotate3(s.r), Rotate3(s.l)))
  {
    if n == 0 {
      ZeroStaysZero();
    } else {
      hide SaltedRounds, Ip, Fp, Rotate3, Rotate29;
      BodyIterates(sp, ks, e0, e1, n - 1);
      var s := BodyState(sp, ks, e0, e1, n - 1);
      IpUndoesFp(Block(Rotate3(s.r), Rotate3(s.l)));
      RotationsCancel(s.l);
      RotationsCancel(s.r);
    }
  }

  lemma SaltedLoadZeroBits(r: bv32, k: bv32, e: bv32)
    requires e == 0
    ensures SaltedLoad(r, k, e) == r ^ k
  {
  }

  lemma SaltedLoadZero(r: bv32, k: bv32)
    ensures SaltedLoad(r, k, 0) == Xor(r, k)
  {
    hide SaltedLoad;
    SaltedLoadZeroBits(r, k, 0);
  }

  lemma {:induction false} SaltedRoundsZero(sp: SpTables, ks: seq<SubKey>, s: Halves)
    ensures SaltedRounds(sp, ks, 0, 0, s) == Rounds(sp, ks, s)
  {
    hide SaltedLoad, Xor, Substitute, Rotate4;
    if ks != [] {
      SaltedLoadZero(s.r, ks[0].k0);
      SaltedLoadZero(s.r, ks[0].k1);
      SaltedRoundsZero(sp, ks[1..], Round(sp, ks[0], s));
    }
  }

  /** n encryptions of the zero block by des_encrypt. */
  function IteratedDes(sp: SpTables, schedule: seq<bv32>, n: nat): Block
    requires |schedule| == SCHEDULE_WORDS
  {
    if n == 0 then ZERO_BLOCK else Des(sp, schedule, true, IteratedDes(sp, schedule, n - 1))
  }

  /** With both salt masks zero, crypt is DES iterated on the zero block. */
  lemma {:induction false} UnsaltedIsIteratedDes(sp: SpTables, schedule: seq<bv32>, n: nat)
    requires |schedule| == SCHEDULE_WORDS
    ensures Iterated(sp, SubKeys(schedule), 0, 0, n) == IteratedDes(sp, schedule, n)
  {
    hide SaltedRounds, Rounds, Ip, Final, Rotate3, Rotate29, SubKeys;
    if n > 0 {
      UnsaltedIsIteratedDes(sp, schedule, n - 1);
      var p := Ip(IteratedDes(sp, schedule, n - 1));
      SaltedRoundsZero(sp, SubKeys(schedule), Halves(Rotate29(p.w1), Rotate29(p.w0)));
    }
  }
}
