/** Which keys are self-dual, and which of them the list of weak keys finds.  The list has two entries
    wrong, and the lookup compares as many bytes as a pointer has: with pointers of eight bytes two of
    the four self-dual keys are not found. */
module DesWeakKeyLaws {
  import opened DesWords
  import opened DesParity
  import opened DesKeySchedule
  import opened DesWeakKeys
  import opened DesKeyLaws

  /** A key that check_parity accepts. */
  ghost predicate IsOddKey(key: Key) {
    forall i :: 0 <= i < 8 ==> Parity(key[i]) == 1
  }

  /** The key of odd parity whose half c is all ones or all zeros, and d likewise. */
  function SelfDualKey(c: bool, d: bool): Key {
    var first: bv8 := if c then (if d then 0xfe else 0xe0) else if d then 0x1f else 0x01;
    var last: bv8 := if c then (if d then 0xfe else 0xf1) else if d then 0x0e else 0x01;
    [first, first, first, first, last, last, last, last]
  }

  // ---------------------------------------------------------------------------------------------
  // Constant halves, by the bits of the key that PC1 sends to them.
  // ---------------------------------------------------------------------------------------------

  lemma HalfCIsConstant(w0: bv32, w1: bv32)
    ensures Pc1(w0, w1).c == 0 <==> w0 & 0xe0e0e0e0 == 0 && w1 & 0xf0f0f0f0 == 0
    ensures Pc1(w0, w1).c == 0x0fffffff <==> w0 & 0xe0e0e0e0 == 0xe0e0e0e0 && w1 & 0xf0f0f0f0 == 0xf0f0f0f0
  {
  }

  lemma HalfDIsConstant(w0: bv32, w1: bv32)
    ensures Pc1(w0, w1).d == 0 <==> w0 & 0x1e1e1e1e == 0 && w1 & 0x0e0e0e0e == 0
    ensures Pc1(w0, w1).d == 0x0fffffff <==> w0 & 0x1e1e1e1e == 0x1e1e1e1e && w1 & 0x0e0e0e0e == 0x0e0e0e0e
  {
  }

  /** One bit pattern in all four bytes of a word. */
  lemma WordMasks(b0: bv8, b1: bv8, b2: bv8, b3: bv8)
    ensures
      var w := LoadWord(b0, b1, b2, b3);
      && (w & 0xe0e0e0e0 == 0 <==> b0 & 0xe0 == 0 && b1 & 0xe0 == 0 && b2 & 0xe0 == 0 && b3 & 0xe0 == 0)
      && (w & 0xf0f0f0f0 == 0 <==> b0 & 0xf0 == 0 && b1 & 0xf0 == 0 && b2 & 0xf0 == 0 && b3 & 0xf0 == 0)
      && (w & 0x1e1e1e1e == 0 <==> b0 & 0x1e == 0 && b1 & 0x1e == 0 && b2 & 0x1e == 0 && b3 & 0x1e == 0)
      && (w & 0x0e0e0e0e == 0 <==> b0 & 0x0e == 0 && b1 & 0x0e == 0 && b2 & 0x0e == 0 && b3 & 0x0e == 0)
  {
  }

  lemma FullWordMasks(b0: bv8, b1: bv8, b2: bv8, b3: bv8)
    ensures
      var w := LoadWord(b0, b1, b2, b3);
      && (w & 0xe0e0e0e0 == 0xe0e0e0e0 <==>
        b0 & 0xe0 == 0xe0 && b1 & 0xe0 == 0xe0 && b2 & 0xe0 == 0xe0 && b3 & 0xe0 == 0xe0)
      && (w & 0xf0f0f0f0 == 0xf0f0f0f0 <==>
        b0 & 0xf0 == 0xf0 && b1 & 0xf0 == 0xf0 && b2 & 0xf0 == 0xf0 && b3 & 0xf0 == 0xf0)
      && (w & 0x1e1e1e1e == 0x1e1e1e1e <==>
        b0 & 0x1e == 0x1e && b1 & 0x1e == 0x1e && b2 & 0x1e == 0x1e && b3 & 0x1e == 0x1e)
      && (w & 0x0e0e0e0e == 0x0e0e0e0e <==>
        b0 & 0x0e == 0x0e && b1 & 0x0e == 0x0e && b2 & 0x0e == 0x0e && b3 & 0x0e == 0x0e)
  {
  }

  /** A byte whose bits for c are all like c and whose bits for d are all like d. */
  ghost predicate FirstByte(b: bv8, c: bool, d: bool) {
    b & 0xe0 == (if c then 0xe0 else 0) && b & 0x1e == (if d then 0x1e else 0)
  }

  ghost predicate LastByte(b: bv8, c: bool, d: bool) {
    b & 0xf0 == (if c then 0xf0 else 0) && b & 0x0e == (if d then 0x0e else 0)
  }

  lemma OddFirstByte(b: bv8, c: bool, d: bool)
    requires Parity(b) == 1
    ensures FirstByte(b, c, d) <==> b == SelfDualKey(c, d)[0]
  {
  }

  lemma OddLastByte(b: bv8, c: bool, d: bool)
    requires Parity(b) == 1
    ensures LastByte(b, c, d) <==> b == SelfDualKey(c, d)[4]
  {
  }

  /** Both halves constant, in terms of the bytes. */
  lemma HalvesByBytes(key: Key, c: bool, d: bool)
    ensures
      KeyStart(key) == KeyHalves(if c then 0x0fffffff else 0, if d then 0x0fffffff else 0) <==>
      && FirstByte(key[0], c, d) && FirstByte(key[1], c, d) && FirstByte(key[2], c, d) && FirstByte(key[3], c, d)
      && LastByte(key[4], c, d) && LastByte(key[5], c, d) && LastByte(key[6], c, d) && LastByte(key[7], c, d)
  {
    hide Pc1, LoadWord;
    var w0, w1 := LoadWord(key[0], key[1], key[2], key[3]), LoadWord(key[4], key[5], key[6], key[7]);
    HalfCIsConstant(w0, w1);
    HalfDIsConstant(w0, w1);
    WordMasks(key[0], key[1], key[2], key[3]);
    WordMasks(key[4], key[5], key[6], key[7]);
    FullWordMasks(key[0], key[1], key[2], key[3]);
    FullWordMasks(key[4], key[5], key[6], key[7]);
  }

  lemma KeyByHalves(key: Key, c: bool, d: bool)
    requires IsOddKey(key)
    ensures KeyStart(key) == KeyHalves(if c then 0x0fffffff else 0, if d then 0x0fffffff else 0) <==>
            key == SelfDualKey(c, d)
  {
    hide KeyStart, FirstByte, LastByte, Parity;
    HalvesByBytes(key, c, d);
    OddFirstByte(key[0], c, d);
    OddFirstByte(key[1], c, d);
    OddFirstByte(key[2], c, d);
    OddFirstByte(key[3], c, d);
    OddLastByte(key[4], c, d);
    OddLastByte(key[5], c, d);
    OddLastByte(key[6], c, d);
    OddLastByte(key[7], c, d);
  }

  /** Among the keys of odd parity exactly four have constant halves. */
  lemma SelfDualKeys(key: Key)
    requires IsOddKey(key)
    ensures SelfDual(key) <==>
            || key == SelfDualKey(false, false) || key == SelfDualKey(false, true)
            || key == SelfDualKey(true, false) || key == SelfDualKey(true, true)
  {
    hide KeyStart, SelfDualKey;
    KeyByHalves(key, false, false);
    KeyByHalves(key, false, true);
    KeyByHalves(key, true, false);
    KeyByHalves(key, true, true);
  }

  // ---------------------------------------------------------------------------------------------
  // What the list finds.
  // ---------------------------------------------------------------------------------------------

  lemma ListedByRow(key: Key, width: Width, i: nat)
    requires i < NUM_WEAK_KEY && WEAK_KEYS[i][..width] == key[..width]
    ensures Listed(key, width)
  {
  }

  /** No row has the first byte of the key four times and then its last byte four times. */
  lemma MixedRowsAreMissing(key: Key, first: bv8, last: bv8)
    requires key == [first, first, first, first, last, last, last, last] && first != last
    ensures !Listed(key, 8)
  {
    forall i | 0 <= i < NUM_WEAK_KEY
      ensures WEAK_KEYS[i][..8] != key[..8]
    {
      RowsDiffer(i);
      assert key[..8][0] == key[..8][1] == first && key[..8][3] == first && key[..8][4] == last;
      assert WEAK_KEYS[i][..8][0] == WEAK_KEYS[i][0] && WEAK_KEYS[i][..8][1] == WEAK_KEYS[i][1];
      assert WEAK_KEYS[i][..8][3] == WEAK_KEYS[i][3] && WEAK_KEYS[i][..8][4] == WEAK_KEYS[i][4];
    }
  }

  lemma RowsDiffer(i: nat)
    requires i < NUM_WEAK_KEY
    ensures if i < 4 then WEAK_KEYS[i][3] == WEAK_KEYS[i][4] else WEAK_KEYS[i][0] != WEAK_KEYS[i][1]
  {
  }

  /** des_is_weak_key finds a self-dual key exactly if pointers have four bytes, or if the two halves
      of the key are the same. */
  lemma SelfDualKeysFound(key: Key, width: Width)
    requires IsOddKey(key) && SelfDual(key)
    ensures Listed(key, width) <==> width == 4 || key[..4] == key[4..]
  {
    hide SelfDual, Listed;
    SelfDualKeys(key);
    if key == SelfDualKey(false, false) {
      SameRow(key, width, 0);
    } else if key == SelfDualKey(true, true) {
      SameRow(key, width, 1);
    } else if key == SelfDualKey(false, true) {
      MixedKeyFound(key, 0x1f, 0x0e, width, 2);
    } else {
      MixedKeyFound(key, 0xe0, 0xf1, width, 3);
    }
  }

  lemma SameRow(key: Key, width: Width, i: nat)
    requires i < 2 && key == WEAK_KEYS[i]
    ensures Listed(key, width) && key[..4] == key[4..]
  {
    ListedByRow(key, width, i);
  }

  lemma MixedKeyFound(key: Key, first: bv8, last: bv8, width: Width, i: nat)
    requires key == [first, first, first, first, last, last, last, last] && first != last
    requires i < 4 && WEAK_KEYS[i][..4] == [first, first, first, first]
    ensures Listed(key, width) <==> width == 4
    ensures key[..4] != key[4..]
  {
    hide Listed;
    assert key[..4][0] == first && key[4..][0] == last;
    if width == 4 {
      assert key[..4] == [first, first, first, first];
      ListedByRow(key, 4, i);
    } else {
      MixedRowsAreMissing(key, first, last);
    }
  }

  /** With pointers of eight bytes this key passes every check, though encrypting twice with it gives
      the block back; and the key that the list has in its place is not self-dual. */
  lemma SelfDualKeyNotFound()
    ensures
      var key: Key := [0x1f, 0x1f, 0x1f, 0x1f, 0x0e, 0x0e, 0x0e, 0x0e];
      var entry: Key := [0x1f, 0x1f, 0x1f, 0x1f, 0x1f, 0x1f, 0x1f, 0x1f];
      && IsOddKey(key) && SelfDual(key) && !Listed(key, 8)
      && IsOddKey(entry) && !SelfDual(entry) && Listed(entry, 8)
  {
    hide SelfDual, Listed, Parity;
    var key: Key := [0x1f, 0x1f, 0x1f, 0x1f, 0x0e, 0x0e, 0x0e, 0x0e];
    var entry: Key := [0x1f, 0x1f, 0x1f, 0x1f, 0x1f, 0x1f, 0x1f, 0x1f];
    TwoOddBytes();
    SelfDualKeys(key);
    SelfDualKeys(entry);
    MixedRowsAreMissing(key, 0x1f, 0x0e);
    ListedByRow(entry, 8, 2);
  }

  lemma TwoOddBytes()
    ensures Parity(0x1f) == 1 && Parity(0x0e) == 1
  {
  }
}
