/** des_enc.c: the sixteen rounds over one block.  The specification is the Feistel network of
    FIPS PUB 46-3 (section "Enciphering"), with its exchange of halves after every round; the code
    never exchanges halves, it alternates the roles of l and r, rolls four rounds into one loop
    body and hoists the initial rotation out of the rounds. */
module DesBlockCipher {
  import opened Sequences
  import opened DesWords

  /** des_SPtrans: any eight tables of sixty-four words. */
  type SpTables = t: seq<seq<bv32>> | |t| == 8 && forall i :: 0 <= i < 8 ==> |t[i]| == 64
    witness seq(8, i => seq(64, j => 0))

  /** The two schedule words one round uses. */
  datatype SubKey = SubKey(k0: bv32, k1: bv32)

  const SCHEDULE_WORDS := 32
  const ROUNDS := 16

  function Lookup(sp: SpTables, box: nat, x: bv32): bv32
    requires box < 8
  {
    sp[box][(x & 0x3f) as int]
  }

  // The six-bit table indices D_ENCRYPT takes from a word.

  function Index2(x: bv32): bv32 {
    (x >> 2) & 0x3f
  }

  function Index10(x: bv32): bv32 {
    (x >> 10) & 0x3f
  }

  function Index18(x: bv32): bv32 {
    (x >> 18) & 0x3f
  }

  function Index26(x: bv32): bv32 {
    (x >> 26) & 0x3f
  }

  /** The tables 0, 2, 4 and 6 are indexed by u, the tables 1, 3, 5 and 7 by t. */
  function LookupFour(sp: SpTables, first: nat, x: bv32): bv32
    requires first < 2
  {
    Xor(Xor(Xor(Lookup(sp, first, Index2(x)), Lookup(sp, first + 2, Index10(x))),
            Lookup(sp, first + 4, Index18(x))), Lookup(sp, first + 6, Index26(x)))
  }

  /** The word D_ENCRYPT(LL, R, S) xors into LL, given u = R^s[S] and t = R^s[S+1] rotated. */
  function Substitute(sp: SpTables, u: bv32, t: bv32): bv32 {
    Xor(LookupFour(sp, 0, u), LookupFour(sp, 1, t))
  }

  function RoundFunction(sp: SpTables, k: SubKey, r: bv32): bv32 {
    Substitute(sp, Xor(r, k.k0), Rotate4(Xor(r, k.k1)))
  }

  /** D_ENCRYPT(LL, R, S) with the two words of k at s[S]: the new value of LL. */
  function DEncrypt(sp: SpTables, ll: bv32, r: bv32, k: SubKey): bv32 {
    Xor(ll, RoundFunction(sp, k, r))
  }

  /** The halves of the network's state. */
  datatype Halves = Halves(l: bv32, r: bv32) {
    function Swap(): Halves {
      Halves(r, l)
    }
  }

  /** One round: the right half moves left, the left half is masked by the round function. */
  function Round(sp: SpTables, k: SubKey, s: Halves): Halves {
    Halves(s.r, DEncrypt(sp, s.l, s.r, k))
  }

  /** The rounds under ks, ks[0] first. */
  function Rounds(sp: SpTables, ks: seq<SubKey>, s: Halves): Halves {
    if ks == [] then s else Rounds(sp, ks[1..], Round(sp, ks[0], s))
  }

  function SubKeys(schedule: seq<bv32>): (ks: seq<SubKey>)
    requires |schedule| == SCHEDULE_WORDS
    ensures |ks| == ROUNDS
  {
    seq(ROUNDS, i requires 0 <= i < ROUNDS => SubKey(schedule[2 * i], schedule[2 * i + 1]))
  }

  /** Encryption takes the subkeys in order, decryption in the opposite order. */
  function KeyOrder(schedule: seq<bv32>, encrypt: bool): (ks: seq<SubKey>)
    requires |schedule| == SCHEDULE_WORDS
    ensures |ks| == ROUNDS
  {
    if encrypt then SubKeys(schedule) else Reverse(SubKeys(schedule))
  }

  /** The rounds between the rotations: what des_encrypt2 computes. */
  function Core(sp: SpTables, ks: seq<SubKey>, b: Block): Block {
    var s := Rounds(sp, ks, Halves(Rotate29(b.w1), Rotate29(b.w0)));
    Block(Rotate3(s.l), Rotate3(s.r))
  }

  /** The final permutation as its callers use it. */
  function Final(b: Block): Block {
    Fp(b.Swap()).Swap()
  }

  /** DES on one block. */
  function Des(sp: SpTables, schedule: seq<bv32>, encrypt: bool, b: Block): Block
    requires |schedule| == SCHEDULE_WORDS
  {
    Final(Core(sp, KeyOrder(schedule, encrypt), Ip(b)))
  }

  /** Triple DES in the encrypt-decrypt-encrypt order. */
  function Des3(sp: SpTables, s1: seq<bv32>, s2: seq<bv32>, s3: seq<bv32>, b: Block): Block
    requires |s1| == |s2| == |s3| == SCHEDULE_WORDS
  {
    Final(Core(sp, KeyOrder(s3, true), Core(sp, KeyOrder(s2, false), Core(sp, KeyOrder(s1, true), Ip(b)))))
  }

  function Des3Inverse(sp: SpTables, s1: seq<bv32>, s2: seq<bv32>, s3: seq<bv32>, b: Block): Block
    requires |s1| == |s2| == |s3| == SCHEDULE_WORDS
  {
    Final(Core(sp, KeyOrder(s1, false), Core(sp, KeyOrder(s2, true), Core(sp, KeyOrder(s3, false), Ip(b)))))
  }

  // ---------------------------------------------------------------------------------------------
  // The code.
  // ---------------------------------------------------------------------------------------------

  /** The schedule index of the n-th round's subkey. */
  function WordIndex(n: nat, encrypt: bool): nat
    requires n < ROUNDS
  {
    if encrypt then 2 * n else 30 - 2 * n
  }

  function SubKeyAt(schedule: seq<bv32>, i: nat): SubKey
    requires i + 1 < |schedule|
  {
    SubKey(schedule[i], schedule[i + 1])
  }

  /** The state after the rounds from the n-th on. */
  ghost function RoundsFrom(sp: SpTables, schedule: seq<bv32>, encrypt: bool, n: nat, l: bv32, r: bv32): Halves
    requires |schedule| == SCHEDULE_WORDS && n <= ROUNDS
  {
    Rounds(sp, KeyOrder(schedule, encrypt)[n..], Halves(l, r))
  }

  lemma OneRound(sp: SpTables, schedule: seq<bv32>, encrypt: bool, n: nat, l: bv32, r: bv32)
    requires |schedule| == SCHEDULE_WORDS && n < ROUNDS
    ensures
      var l' := DEncrypt(sp, l, r, SubKeyAt(schedule, WordIndex(n, encrypt)));
      RoundsFrom(sp, schedule, encrypt, n, l, r) == RoundsFrom(sp, schedule, encrypt, n + 1, r, l')
  {
    hide DEncrypt;
    var ks := KeyOrder(schedule, encrypt);
    assert ks[n..][1..] == ks[n + 1..];
  }

  /** Two D_ENCRYPTs with exchanged arguments are two rounds of the network. */
  lemma TwoRounds(sp: SpTables, schedule: seq<bv32>, encrypt: bool, n: nat, l: bv32, r: bv32)
    requires |schedule| == SCHEDULE_WORDS && n + 1 < ROUNDS
    ensures
      var l' := DEncrypt(sp, l, r, SubKeyAt(schedule, WordIndex(n, encrypt)));
      var r' := DEncrypt(sp, r, l', SubKeyAt(schedule, WordIndex(n + 1, encrypt)));
      RoundsFrom(sp, schedule, encrypt, n, l, r) == RoundsFrom(sp, schedule, encrypt, n + 2, l', r')
  {
    hide DEncrypt, RoundsFrom;
    OneRound(sp, schedule, encrypt, n, l, r);
    OneRound(sp, schedule, encrypt, n + 1, r, DEncrypt(sp, l, r, SubKeyAt(schedule, WordIndex(n, encrypt))));
  }

  lemma NoRounds(sp: SpTables, schedule: seq<bv32>, encrypt: bool, l: bv32, r: bv32)
    requires |schedule| == SCHEDULE_WORDS
    ensures RoundsFrom(sp, schedule, encrypt, ROUNDS, l, r) == Halves(l, r)
    ensures RoundsFrom(sp, schedule, encrypt, 0, l, r) == Rounds(sp, KeyOrder(schedule, encrypt), Halves(l, r))
  {
    assert KeyOrder(schedule, encrypt)[0..] == KeyOrder(schedule, encrypt);
  }

  /** The loop of the encrypting branch. */
  method RunForward(sp: SpTables, schedule: seq<bv32>, l0: bv32, r0: bv32) returns (l: bv32, r: bv32)
    requires |schedule| == SCHEDULE_WORDS
    ensures Halves(l, r) == Rounds(sp, KeyOrder(schedule, true), Halves(l0, r0))
  {
    hide DEncrypt, RoundsFrom, KeyOrder;
    l, r := l0, r0;
    NoRounds(sp, schedule, true, l, r);
    var i := 0;
    ghost var n := 0;
    while i < 32
      invariant 0 <= n <= ROUNDS && i == 2 * n && n % 4 == 0
      invariant RoundsFrom(sp, schedule, true, n, l, r) == RoundsFrom(sp, schedule, true, 0, l0, r0)
    {
      TwoRounds(sp, schedule, true, n, l, r);
      l := DEncrypt(sp, l, r, SubKeyAt(schedule, i + 0));
      r := DEncrypt(sp, r, l, SubKeyAt(schedule, i + 2));
      TwoRounds(sp, schedule, true, n + 2, l, r);
      l := DEncrypt(sp, l, r, SubKeyAt(schedule, i + 4));
      r := DEncrypt(sp, r, l, SubKeyAt(schedule, i + 6));
      i, n := i + 8, n + 4;
    }
    NoRounds(sp, schedule, true, l, r);
  }

  /** The loop of the decrypting branch. */
  method RunBackward(sp: SpTables, schedule: seq<bv32>, l0: bv32, r0: bv32) returns (l: bv32, r: bv32)
    requires |schedule| == SCHEDULE_WORDS
    ensures Halves(l, r) == Rounds(sp, KeyOrder(schedule, false), Halves(l0, r0))
  {
    hide DEncrypt, RoundsFrom, KeyOrder;
    l, r := l0, r0;
    NoRounds(sp, schedule, false, l, r);
    var i := 30;
    ghost var n := 0;
    while i > 0
      invariant 0 <= n <= ROUNDS && i == 30 - 2 * n && n % 4 == 0
      invariant RoundsFrom(sp, schedule, false, n, l, r) == RoundsFrom(sp, schedule, false, 0, l0, r0)
    {
      TwoRounds(sp, schedule, false, n, l, r);
      l := DEncrypt(sp, l, r, SubKeyAt(schedule, i - 0));
      r := DEncrypt(sp, r, l, SubKeyAt(schedule, i - 2));
      TwoRounds(sp, schedule, false, n + 2, l, r);
      l := DEncrypt(sp, l, r, SubKeyAt(schedule, i - 4));
      r := DEncrypt(sp, r, l, SubKeyAt(schedule, i - 6));
      i, n := i - 8, n + 4;
    }
    NoRounds(sp, schedule, false, l, r);
  }

  method EncryptBlock2(sp: SpTables, data: array<bv32>, schedule: seq<bv32>, encrypt: bool)
    requires data.Length == 2 && |schedule| == SCHEDULE_WORDS
    modifies data
    ensures Block(data[0], data[1]) ==
            Core(sp, KeyOrder(schedule, encrypt), Block(old(data[0]), old(data[1])))
  {
    hide Rotate29, Rotate3, Rounds, KeyOrder;
    var r, l := Rotate29(data[0]), Rotate29(data[1]);
    if encrypt {
      l, r := RunForward(sp, schedule, l, r);
    } else {
      l, r := RunBackward(sp, schedule, l, r);
    }
    data[0], data[1] := Rotate3(l), Rotate3(r);
  }

  method EncryptBlock(sp: SpTables, data: array<bv32>, schedule: seq<bv32>, encrypt: bool)
    requires data.Length == 2 && |schedule| == SCHEDULE_WORDS
    modifies data
    ensures Block(data[0], data[1]) == Des(sp, schedule, encrypt, Block(old(data[0]), old(data[1])))
  {
    hide Rotate29, Rotate3, Rounds, KeyOrder, Ip, Fp;
    var ip := Ip(Block(data[0], data[1]));
    var r, l := ip.w0, ip.w1;
    r, l := Rotate29(r), Rotate29(l);
    if encrypt {
      l, r := RunForward(sp, schedule, l, r);
    } else {
      l, r := RunBackward(sp, schedule, l, r);
    }
    l, r := Rotate3(l), Rotate3(r);
    var fp := Fp(Block(r, l));
    r, l := fp.w0, fp.w1;
    data[0], data[1] := l, r;
  }

  method EncryptBlock3(sp: SpTables, data: array<bv32>, ks1: seq<bv32>, ks2: seq<bv32>, ks3: seq<bv32>)
    requires data.Length == 2 && |ks1| == |ks2| == |ks3| == SCHEDULE_WORDS
    modifies data
    ensures Block(data[0], data[1]) == Des3(sp, ks1, ks2, ks3, Block(old(data[0]), old(data[1])))
  {
    hide Ip, Fp, Core, KeyOrder;
    var ip := Ip(Block(data[0], data[1]));
    data[0], data[1] := ip.w0, ip.w1;
    EncryptBlock2(sp, data, ks1, true);
    EncryptBlock2(sp, data, ks2, false);
    EncryptBlock2(sp, data, ks3, true);
    var fp := Fp(Block(data[1], data[0]));
    data[0], data[1] := fp.w1, fp.w0;
  }

  method DecryptBlock3(sp: SpTables, data: array<bv32>, ks1: seq<bv32>, ks2: seq<bv32>, ks3: seq<bv32>)
    requires data.Length == 2 && |ks1| == |ks2| == |ks3| == SCHEDULE_WORDS
    modifies data
    ensures Block(data[0], data[1]) == Des3Inverse(sp, ks1, ks2, ks3, Block(old(data[0]), old(data[1])))
  {
    hide Ip, Fp, Core, KeyOrder;
    var ip := Ip(Block(data[0], data[1]));
    data[0], data[1] := ip.w0, ip.w1;
    EncryptBlock2(sp, data, ks3, false);
    EncryptBlock2(sp, data, ks2, true);
    EncryptBlock2(sp, data, ks1, false);
    var fp := Fp(Block(data[1], data[0]));
    data[0], data[1] := fp.w1, fp.w0;
  }

  // ---------------------------------------------------------------------------------------------
  // Inversion.
  // ---------------------------------------------------------------------------------------------

  lemma {:induction false} RoundsAppend(sp: SpTables, ks: seq<SubKey>, k: SubKey, s: Halves)
    ensures Rounds(sp, ks + [k], s) == Round(sp, k, Rounds(sp, ks, s))
  {
    if ks == [] {
      assert ks + [k] == [k] && [k][1..] == [];
    } else {
      assert (ks + [k])[1..] == ks[1..] + [k];
      RoundsAppend(sp, ks[1..], k, Round(sp, ks[0], s));
    }
  }

  lemma RoundInverts(sp: SpTables, k: SubKey, s: Halves)
    ensures Round(sp, k, Round(sp, k, s).Swap()) == s.Swap()
  {
    hide RoundFunction, Xor;
    XorCancels(s.l, RoundFunction(sp, k, s.r));
  }

  lemma XorCancels(a: bv32, b: bv32)
    ensures Xor(Xor(a, b), b) == a
  {
  }

  /** The rounds in the opposite order undo the rounds, on exchanged halves. */
  lemma {:induction false} RoundsInvert(sp: SpTables, ks: seq<SubKey>, s: Halves)
    ensures Rounds(sp, Reverse(ks), Rounds(sp, ks, s).Swap()) == s.Swap()
  {
    if ks == [] {
    } else {
      hide Round;
      var s' := Round(sp, ks[0], s);
      RoundInverts(sp, ks[0], s);
      RoundsInvert(sp, ks[1..], s');
      assert Reverse(ks) == Reverse(ks[1..]) + [ks[0]];
      RoundsAppend(sp, Reverse(ks[1..]), ks[0], Rounds(sp, ks[1..], s').Swap());
    }
  }

  /** The rounds of one direction, rotations included, undo those of the other. */
  lemma CoreInverts(sp: SpTables, ks: seq<SubKey>, b: Block)
    ensures Core(sp, Reverse(ks), Core(sp, ks, b)) == b
  {
    hide Rotate29, Rotate3, Rounds, Reverse;
    var s := Halves(Rotate29(b.w1), Rotate29(b.w0));
    var e := Rounds(sp, ks, s);
    RotationsCancel(e.l);
    RotationsCancel(e.r);
    RotationsCancel(b.w0);
    RotationsCancel(b.w1);
    RoundsInvert(sp, ks, s);
  }

  lemma ReverseTwice(ks: seq<SubKey>)
    ensures Reverse(Reverse(ks)) == ks
  {
  }

  lemma CoreUndo(sp: SpTables, schedule: seq<bv32>, encrypt: bool, b: Block)
    requires |schedule| == SCHEDULE_WORDS
    ensures Core(sp, KeyOrder(schedule, !encrypt), Core(sp, KeyOrder(schedule, encrypt), b)) == b
  {
    hide Core;
    ReverseTwice(SubKeys(schedule));
    CoreInverts(sp, KeyOrder(schedule, encrypt), b);
  }

  /** Each direction of des_encrypt undoes the other, for every table, schedule and block. */
  lemma DesInverts(sp: SpTables, schedule: seq<bv32>, encrypt: bool, b: Block)
    requires |schedule| == SCHEDULE_WORDS
    ensures Des(sp, schedule, !encrypt, Des(sp, schedule, encrypt, b)) == b
  {
    hide Ip, Fp, Core, KeyOrder;
    IpUndoesFp(Core(sp, KeyOrder(schedule, encrypt), Ip(b)));
    CoreUndo(sp, schedule, encrypt, Ip(b));
    FpUndoesIp(b);
  }

  /** Three passes of Core, undone last first. */
  lemma ThreePassesUndo(sp: SpTables, s1: seq<bv32>, s2: seq<bv32>, s3: seq<bv32>, encrypt: bool, b: Block)
    requires |s1| == |s2| == |s3| == SCHEDULE_WORDS
    ensures
      var e := Core(sp, KeyOrder(s3, encrypt), Core(sp, KeyOrder(s2, !encrypt), Core(sp, KeyOrder(s1, encrypt), b)));
      Core(sp, KeyOrder(s1, !encrypt), Core(sp, KeyOrder(s2, encrypt), Core(sp, KeyOrder(s3, !encrypt), e))) == b
  {
    hide Core, KeyOrder;
    var b1 := Core(sp, KeyOrder(s1, encrypt), b);
    var b2 := Core(sp, KeyOrder(s2, !encrypt), b1);
    CoreUndo(sp, s3, encrypt, b2);
    CoreUndo(sp, s2, !encrypt, b1);
    CoreUndo(sp, s1, encrypt, b);
  }

  /** des_decrypt3 undoes des_encrypt3. */
  lemma Des3Inverts(sp: SpTables, s1: seq<bv32>, s2: seq<bv32>, s3: seq<bv32>, b: Block)
    requires |s1| == |s2| == |s3| == SCHEDULE_WORDS
    ensures Des3Inverse(sp, s1, s2, s3, Des3(sp, s1, s2, s3, b)) == b
  {
    hide Ip, Fp, Core, KeyOrder;
    IpUndoesFp(Core(sp, KeyOrder(s3, true), Core(sp, KeyOrder(s2, false), Core(sp, KeyOrder(s1, true), Ip(b)))));
    ThreePassesUndo(sp, s1, s2, s3, true, Ip(b));
    FpUndoesIp(b);
  }

  /** des_encrypt3 undoes des_decrypt3. */
  lemma Des3InverseInverts(sp: SpTables, s1: seq<bv32>, s2: seq<bv32>, s3: seq<bv32>, b: Block)
    requires |s1| == |s2| == |s3| == SCHEDULE_WORDS
    ensures Des3(sp, s1, s2, s3, Des3Inverse(sp, s1, s2, s3, b)) == b
  {
    hide Ip, Fp, Core, KeyOrder;
    IpUndoesFp(Core(sp, KeyOrder(s1, false), Core(sp, KeyOrder(s2, true), Core(sp, KeyOrder(s3, false), Ip(b)))));
    ThreePassesUndo(sp, s3, s2, s1, false, Ip(b));
    FpUndoesIp(b);
  }

  /** Permuting only once is three whole applications of DES, in the order encrypt, decrypt, encrypt;
      and the inverse, decrypt, encrypt, decrypt under the keys in the opposite order. */
  lemma Des3IsThree(sp: SpTables, s1: seq<bv32>, s2: seq<bv32>, s3: seq<bv32>, b: Block)
    requires |s1| == |s2| == |s3| == SCHEDULE_WORDS
    ensures Des3(sp, s1, s2, s3, b) == Des(sp, s3, true, Des(sp, s2, false, Des(sp, s1, true, b)))
    ensures Des3Inverse(sp, s1, s2, s3, b) == Des(sp, s1, false, Des(sp, s2, true, Des(sp, s3, false, b)))
  {
    hide Ip, Fp, Core, KeyOrder;
    var p := Core(sp, KeyOrder(s1, true), Ip(b));
    IpUndoesFp(p);
    IpUndoesFp(Core(sp, KeyOrder(s2, false), p));
    var q := Core(sp, KeyOrder(s3, false), Ip(b));
    IpUndoesFp(q);
    IpUndoesFp(Core(sp, KeyOrder(s2, true), q));
  }

  /** With two neighbouring schedules equal, triple DES is single DES under the third one. */
  lemma Des3Collapses(sp: SpTables, s: seq<bv32>, s': seq<bv32>, b: Block)
    requires |s| == |s'| == SCHEDULE_WORDS
    ensures Des3(sp, s, s, s', b) == Des(sp, s', true, b)
    ensures Des3(sp, s', s, s, b) == Des(sp, s', true, b)
  {
    hide Ip, Fp, Core, KeyOrder;
    CoreUndo(sp, s, true, Ip(b));
    CoreUndo(sp, s, false, Core(sp, KeyOrder(s', true), Ip(b)));
  }
}
