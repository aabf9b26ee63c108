/** The other twelve keys of the list: six pairs, in each of which one key decrypts what the other
    encrypts. */
module DesSemiWeakKeys {
  import opened Sequences
  import opened DesWords
  import opened DesBlockCipher
  import opened DesKeySchedule
  import opened DesWeakKeys

  /** A half that rotating by two places leaves as it is: zeros, ones, or zeros and ones in turn. */
  ghost predicate IsTurning(h: bv32) {
    h == 0 || h == 0x0fffffff || h == 0x05555555 || h == 0x0aaaaaaa
  }

  lemma TurningHalf(h: bv32)
    requires IsTurning(h)
    ensures ShiftTwo(h) == h && ShiftOne(ShiftOne(h)) == h && IsTurning(ShiftOne(h))
  {
  }

  function Turned(h: KeyHalves): KeyHalves {
    KeyHalves(ShiftOne(h.c), ShiftOne(h.d))
  }

  ghost predicate AreTurning(h: KeyHalves) {
    IsTurning(h.c) && IsTurning(h.d)
  }

  /** After the first turn, and from the ninth to the fifteenth, the halves have gone an odd number of places. */
  predicate IsOddTurn(n: nat) {
    n == 1 || 9 <= n <= 15
  }

  lemma {:induction false} TurningHalves(h: KeyHalves, n: nat)
    requires AreTurning(h) && n <= ROUNDS
    ensures HalvesAfter(h, n) == if IsOddTurn(n) then Turned(h) else h
  {
    hide ShiftOne, ShiftTwo, IsTurning;
    if n > 0 {
      TurningHalves(h, n - 1);
      TurningHalf(h.c);
      TurningHalf(h.d);
      TurningHalf(ShiftOne(h.c));
      TurningHalf(ShiftOne(h.d));
      ShiftsOdd(n);
    }
  }

  lemma ShiftsOdd(n: nat)
    requires 0 < n <= ROUNDS
    ensures !SHIFTS2[n - 1] <==> IsOddTurn(n) != IsOddTurn(n - 1)
  {
  }

  /** One key starts where the other is after its first turn. */
  ghost predicate ArePair(a: Key, b: Key) {
    AreTurning(KeyStart(a)) && KeyStart(b) == Turned(KeyStart(a))
  }

  lemma PairTurns(a: Key, b: Key, n: nat)
    requires ArePair(a, b) && n <= ROUNDS
    ensures HalvesAfter(KeyStart(b), n) == if IsOddTurn(n) then KeyStart(a) else KeyStart(b)
    ensures HalvesAfter(KeyStart(a), n) == if IsOddTurn(n) then KeyStart(b) else KeyStart(a)
  {
    hide KeyStart, ShiftOne, ShiftTwo, IsTurning;
    TurningHalf(KeyStart(a).c);
    TurningHalf(KeyStart(a).d);
    TurningHalves(KeyStart(a), n);
    TurningHalves(KeyStart(b), n);
  }

  /** Their subkeys come in opposite orders. */
  lemma PairOrder(a: Key, b: Key)
    requires ArePair(a, b)
    ensures KeyOrder(Schedule(a), true) == KeyOrder(Schedule(b), false)
  {
    hide ArePair, KeyStart, Schedule, SubKeyOf, SubKeys, HalvesAfter;
    forall i: nat | i < ROUNDS
      ensures SubKeys(Schedule(a))[i] == SubKeys(Schedule(b))[15 - i]
    {
      ScheduleSubKeys(a, i);
      ScheduleSubKeys(b, 15 - i);
      PairTurns(a, b, i + 1);
      PairTurns(a, b, 16 - i);
    }
  }

  /** Encrypting with one is decrypting with the other. */
  lemma PairsUndo(sp: SpTables, a: Key, b: Key, x: Block)
    requires ArePair(a, b)
    ensures Des(sp, Schedule(a), true, x) == Des(sp, Schedule(b), false, x)
    ensures Des(sp, Schedule(b), true, Des(sp, Schedule(a), true, x)) == x
  {
    hide ArePair, Schedule, Core, Ip, Final, KeyOrder;
    PairOrder(a, b);
    DesInverts(sp, Schedule(b), false, x);
  }

  // ---------------------------------------------------------------------------------------------
  // The list.
  // ---------------------------------------------------------------------------------------------

  lemma Pair0()
    ensures ArePair(WEAK_KEYS[4], WEAK_KEYS[5])
  {
  }

  lemma Pair1()
    ensures ArePair(WEAK_KEYS[6], WEAK_KEYS[7])
  {
  }

  lemma Pair2()
    ensures ArePair(WEAK_KEYS[8], WEAK_KEYS[9])
  {
  }

  lemma Pair3()
    ensures ArePair(WEAK_KEYS[10], WEAK_KEYS[11])
  {
  }

  lemma Pair4()
    ensures ArePair(WEAK_KEYS[12], WEAK_KEYS[13])
  {
  }

  lemma Pair5()
    ensures ArePair(WEAK_KEYS[14], WEAK_KEYS[15])
  {
  }

  /** From the fifth entry on, the list holds such pairs. */
  lemma SemiWeakKeysUndo(sp: SpTables, j: nat, x: Block)
    requires 2 <= j < NUM_WEAK_KEY / 2
    ensures |WEAK_KEYS[2 * j]| == |WEAK_KEYS[2 * j + 1]| == 8
    ensures
      var a: Key, b: Key := WEAK_KEYS[2 * j], WEAK_KEYS[2 * j + 1];
      && Des(sp, Schedule(a), true, x) == Des(sp, Schedule(b), false, x)
      && Des(sp, Schedule(b), true, Des(sp, Schedule(a), true, x)) == x
  {
    hide ArePair, Schedule, Des;
    RowsAreKeys(2 * j);
    RowsAreKeys(2 * j + 1);
    if j == 2 {
      Pair0();
    } else if j == 3 {
      Pair1();
    } else if j == 4 {
      Pair2();
    } else if j == 5 {
      Pair3();
    } else if j == 6 {
      Pair4();
    } else {
      Pair5();
    }
    PairsUndo(sp, WEAK_KEYS[2 * j], WEAK_KEYS[2 * j + 1], x);
  }

  lemma RowsAreKeys(i: nat)
    requires i < NUM_WEAK_KEY
    ensures |WEAK_KEYS[i]| == 8
  {
  }
}
