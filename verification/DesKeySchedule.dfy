/** set_key.c: from an 8-byte key to the thirty-two schedule words. */
module DesKeySchedule {
  import opened DesWords
  import opened DesBlockCipher
  import opened DesKeyTables
  import DesParity
  import DesWeakKeys

  /** c2l: four bytes, least significant first. */
  function LoadWord(b0: bv8, b1: bv8, b2: bv8, b3: bv8): bv32 {
    (b0 as bv32) | ((b1 as bv32) << 8) | ((b2 as bv32) << 16) | ((b3 as bv32) << 24)
  }

  /** The two key halves c and d. */
  datatype KeyHalves = KeyHalves(c: bv32, d: bv32)

  /** PC1 in 47 operations: PERM_OPs between the words, HPERM_OPs inside one, and a byte shuffle
      that leaves twenty-eight bits in each half. */
  function Pc1(c0: bv32, d0: bv32): KeyHalves {
    var t := ((d0 >> 4) ^ c0) & 0x0f0f0f0f;
    var c, d := c0 ^ t, d0 ^ (t << 4);
    var t := ((c << 18) ^ c) & 0xcccc0000;
    var c := c ^ t ^ (t >> 18);
    var t := ((d << 18) ^ d) & 0xcccc0000;
    var d := d ^ t ^ (t >> 18);
    var t := ((d >> 1) ^ c) & 0x55555555;
    var c, d := c ^ t, d ^ (t << 1);
    var t := ((c >> 8) ^ d) & 0x00ff00ff;
    var c, d := c ^ (t << 8), d ^ t;
    var t := ((d >> 1) ^ c) & 0x55555555;
    var c, d := c ^ t, d ^ (t << 1);
    KeyHalves(
      c & 0x0fffffff,
      ((d & 0x000000ff) << 16) | (d & 0x0000ff00) | ((d & 0x00ff0000) >> 16) | ((c & 0xf0000000) >> 4))
  }

  function ShiftTwo(h: bv32): bv32 {
    ((h >> 2) | (h << 26)) & 0x0fffffff
  }

  function ShiftOne(h: bv32): bv32 {
    ((h >> 1) | (h << 27)) & 0x0fffffff
  }

  /** One rotation of a 28-bit half, by two places or by one. */
  function Shift(h: bv32, two: bool): bv32 {
    if two then ShiftTwo(h) else ShiftOne(h)
  }

  /** A half of twenty-eight bits: nothing above them. */
  ghost predicate IsHalf(w: bv32) {
    w & 0xf0000000 == 0
  }

  ghost predicate AreHalves(h: KeyHalves) {
    IsHalf(h.c) && IsHalf(h.d)
  }

  lemma Pc1Halves(c0: bv32, d0: bv32)
    ensures AreHalves(Pc1(c0, d0))
  {
  }

  lemma ShiftIsHalf(h: bv32)
    ensures IsHalf(ShiftOne(h)) && IsHalf(ShiftTwo(h))
  {
  }

  const SHIFTS2: seq<bool> := [
    false, false, true, true, true, true, true, true,
    false, true, true, true, true, true, true, false]

  function ShiftBoth(h: KeyHalves, two: bool): KeyHalves {
    KeyHalves(Shift(h.c, two), Shift(h.d, two))
  }

  // The table indices: six bits of a half each, four of the twenty-eight bits dropped.

  function Skb0Index(c: bv32): bv6 {
    (c & 0x3f) as bv6
  }

  function Skb1Index(c: bv32): bv6 {
    (((c >> 6) & 0x03) | ((c >> 7) & 0x3c)) as bv6
  }

  function Skb2Index(c: bv32): bv6 {
    (((c >> 13) & 0x0f) | ((c >> 14) & 0x30)) as bv6
  }

  function Skb3Index(c: bv32): bv6 {
    (((c >> 20) & 0x01) | ((c >> 21) & 0x06) | ((c >> 22) & 0x38)) as bv6
  }

  function Skb5Index(d: bv32): bv6 {
    (((d >> 7) & 0x03) | ((d >> 8) & 0x3c)) as bv6
  }

  function Skb6Index(d: bv32): bv6 {
    ((d >> 15) & 0x3f) as bv6
  }

  function Skb7Index(d: bv32): bv6 {
    (((d >> 21) & 0x0f) | ((d >> 22) & 0x30)) as bv6
  }

  function SpreadC(c: bv32): bv32 {
    SKB0.At(Skb0Index(c)) | SKB1.At(Skb1Index(c)) | SKB2.At(Skb2Index(c)) | SKB3.At(Skb3Index(c))
  }

  function SpreadD(d: bv32): bv32 {
    SKB4.At(Skb0Index(d)) | SKB5.At(Skb5Index(d)) | SKB6.At(Skb6Index(d)) | SKB7.At(Skb7Index(d))
  }

  /** The two schedule words of a round, from the spread halves s and t. */
  function Assemble(s: bv32, t: bv32): SubKey {
    SubKey(Rotate30((t << 16) | (s & 0x0000ffff)), Rotate26((s >> 16) | (t & 0xffff0000)))
  }

  function SubKeyOf(h: KeyHalves): SubKey {
    Assemble(SpreadC(h.c), SpreadD(h.d))
  }

  /** The halves after the first n rotations. */
  function HalvesAfter(h: KeyHalves, n: nat): KeyHalves
    requires n <= ROUNDS
  {
    if n == 0 then h else ShiftBoth(HalvesAfter(h, n - 1), SHIFTS2[n - 1])
  }

  type Key = k: seq<bv8> | |k| == 8 witness [0, 0, 0, 0, 0, 0, 0, 0]

  function KeyStart(key: Key): KeyHalves {
    Pc1(LoadWord(key[0], key[1], key[2], key[3]), LoadWord(key[4], key[5], key[6], key[7]))
  }

  /** The schedule des_set_key writes. */
  function Schedule(key: Key): (s: seq<bv32>)
    ensures |s| == SCHEDULE_WORDS
  {
    seq(SCHEDULE_WORDS, j requires 0 <= j < SCHEDULE_WORDS =>
      var k := SubKeyOf(HalvesAfter(KeyStart(key), j / 2 + 1));
      if j % 2 == 0 then k.k0 else k.k1)
  }

  lemma ScheduleAt(key: Key, i: nat)
    requires i < ROUNDS
    ensures Schedule(key)[2 * i] == SubKeyOf(HalvesAfter(KeyStart(key), i + 1)).k0
    ensures Schedule(key)[2 * i + 1] == SubKeyOf(HalvesAfter(KeyStart(key), i + 1)).k1
  {
    hide SubKeyOf, KeyStart, HalvesAfter;
  }

  /** The i-th round's subkey is assembled from the halves after i + 1 rotations. */
  lemma ScheduleSubKeys(key: Key, i: nat)
    requires i < ROUNDS
    ensures SubKeys(Schedule(key))[i] == SubKeyOf(HalvesAfter(KeyStart(key), i + 1))
  {
    hide SubKeyOf, KeyStart, HalvesAfter, Schedule;
    ScheduleAt(key, i);
  }

  lemma StartOfKey(key: Key)
    ensures HalvesAfter(KeyStart(key), 0) ==
            Pc1(LoadWord(key[0], key[1], key[2], key[3]), LoadWord(key[4], key[5], key[6], key[7]))
  {
  }

  lemma NextHalves(h: KeyHalves, i: nat)
    requires i < ROUNDS
    ensures HalvesAfter(h, i + 1) == ShiftBoth(HalvesAfter(h, i), SHIFTS2[i])
  {
  }

  method WriteSchedule(key: array<bv8>, schedule: array<bv32>)
    requires key.Length == 8 && schedule.Length == SCHEDULE_WORDS
    modifies schedule
    ensures schedule[..] == Schedule(old(key[..]))
  {
    hide Pc1, LoadWord, ShiftBoth, SubKeyOf, Schedule, KeyStart, HalvesAfter;
    ghost var key0 := key[..];
    var h := Pc1(LoadWord(key[0], key[1], key[2], key[3]), LoadWord(key[4], key[5], key[6], key[7]));
    StartOfKey(key0);
    var k := 0;
    for i := 0 to 16
      invariant k == 2 * i
      invariant h == HalvesAfter(KeyStart(key0), i)
      invariant forall j :: 0 <= j < k ==> schedule[j] == Schedule(key0)[j]
    {
      NextHalves(KeyStart(key0), i);
      h := ShiftBoth(h, SHIFTS2[i]);
      var w := SubKeyOf(h);
      ScheduleAt(key0, i);
      schedule[k] := w.k0;
      k := k + 1;
      schedule[k] := w.k1;
      k := k + 1;
    }
  }

  /** des_set_key: with des_check_key set, keys of wrong parity and keys found in the list of weak keys
      are refused and the schedule stays as it was. */
  method SetKey(key: array<bv8>, schedule: array<bv32>, checkKey: bool, width: DesWeakKeys.Width) returns (ret: int)
    requires key.Length == 8 && schedule.Length == SCHEDULE_WORDS
    modifies schedule
    ensures ret == -1 <==> checkKey && exists i :: 0 <= i < 8 && DesParity.Parity(key[i]) != 1
    ensures ret == -2 <==>
            && checkKey && DesWeakKeys.Listed(key[..], width)
            && forall i :: 0 <= i < 8 ==> DesParity.Parity(key[i]) == 1
    ensures ret == 0 || ret == -1 || ret == -2
    ensures schedule[..] == if ret == 0 then Schedule(key[..]) else old(schedule[..])
  {
    hide DesParity.Parity, Schedule, DesWeakKeys.Listed;
    if checkKey {
      var ok := DesParity.CheckParity(key);
      if !ok {
        return -1;
      }
      var weak := DesWeakKeys.IsWeakKey(key, width);
      if weak {
        return -2;
      }
    }
    WriteSchedule(key, schedule);
    return 0;
  }
}
