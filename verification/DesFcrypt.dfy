/** fcrypt.c: des_fcrypt around the salted encryptions: a password packed into a key, two salt
    characters turned into masks, and the resulting block written as eleven characters of six bits
    each. */
module DesFcrypt {
  import opened DesWords
  import opened DesBlockCipher
  import opened DesKeySchedule
  import opened DesBytes
  import opened DesCrypt

  type Char = n: nat | n < 128
  type Byte = n: nat | n < 256

  // The two tables, sixteen entries to a row.

  const CON_SALT: seq<seq<Byte>> := [
    [0xD2, 0xD3, 0xD4, 0xD5, 0xD6, 0xD7, 0xD8, 0xD9, 0xDA, 0xDB, 0xDC, 0xDD, 0xDE, 0xDF, 0xE0, 0xE1],
    [0xE2, 0xE3, 0xE4, 0xE5, 0xE6, 0xE7, 0xE8, 0xE9, 0xEA, 0xEB, 0xEC, 0xED, 0xEE, 0xEF, 0xF0, 0xF1],
    [0xF2, 0xF3, 0xF4, 0xF5, 0xF6, 0xF7, 0xF8, 0xF9, 0xFA, 0xFB, 0xFC, 0xFD, 0xFE, 0xFF, 0x00, 0x01],
    [0x02, 0x03, 0x04, 0x05, 0x06, 0x07, 0x08, 0x09, 0x0A, 0x0B, 0x05, 0x06, 0x07, 0x08, 0x09, 0x0A],
    [0x0B, 0x0C, 0x0D, 0x0E, 0x0F, 0x10, 0x11, 0x12, 0x13, 0x14, 0x15, 0x16, 0x17, 0x18, 0x19, 0x1A],
    [0x1B, 0x1C, 0x1D, 0x1E, 0x1F, 0x20, 0x21, 0x22, 0x23, 0x24, 0x25, 0x20, 0x21, 0x22, 0x23, 0x24],
    [0x25, 0x26, 0x27, 0x28, 0x29, 0x2A, 0x2B, 0x2C, 0x2D, 0x2E, 0x2F, 0x30, 0x31, 0x32, 0x33, 0x34],
    [0x35, 0x36, 0x37, 0x38, 0x39, 0x3A, 0x3B, 0x3C, 0x3D, 0x3E, 0x3F, 0x40, 0x41, 0x42, 0x43, 0x44]]

  const COV_2CHAR: seq<seq<Char>> := [
    [0x2E, 0x2F, 0x30, 0x31, 0x32, 0x33, 0x34, 0x35, 0x36, 0x37, 0x38, 0x39, 0x41, 0x42, 0x43, 0x44],
    [0x45, 0x46, 0x47, 0x48, 0x49, 0x4A, 0x4B, 0x4C, 0x4D, 0x4E, 0x4F, 0x50, 0x51, 0x52, 0x53, 0x54],
    [0x55, 0x56, 0x57, 0x58, 0x59, 0x5A, 0x61, 0x62, 0x63, 0x64, 0x65, 0x66, 0x67, 0x68, 0x69, 0x6A],
    [0x6B, 0x6C, 0x6D, 0x6E, 0x6F, 0x70, 0x71, 0x72, 0x73, 0x74, 0x75, 0x76, 0x77, 0x78, 0x79, 0x7A]]

  function ConSalt(x: Char): Byte {
    CON_SALT[x / 16][x % 16]
  }

  function Cov2Char(c: nat): Char
    requires c < 64
  {
    COV_2CHAR[c / 16][c % 16]
  }

  lemma ConSaltIs(x: Char)
    requires 46 <= x
    ensures ConSalt(x) == if x < 58 then x - 46 else if x < 91 then x - 53 else x - 59
  {
  }

  lemma Cov2CharIs(c: nat)
    requires c < 64
    ensures Cov2Char(c) == if c < 12 then c + 46 else if c < 38 then c + 53 else c + 59
  {
  }

  /** The salt table undoes the other: a character of a result means its six bits. */
  lemma SaltUndoesChar(c: nat)
    requires c < 64
    ensures ConSalt(Cov2Char(c)) == c
  {
    hide ConSalt, Cov2Char;
    Cov2CharIs(c);
    ConSaltIs(Cov2Char(c));
  }

  // ---------------------------------------------------------------------------------------------
  // The password.
  // ---------------------------------------------------------------------------------------------

  /** Character i of a password, NUL from its end on, however it is marked. */
  function PasswordChar(buf: seq<bv8>, i: nat): bv8 {
    if i >= |buf| || 0 in buf[..i] then 0 else buf[i]
  }

  function Doubled(c: bv8): bv8 {
    c << 1
  }

  function PackedKey(buf: seq<bv8>): Key {
    seq(8, i requires 0 <= i < 8 => Doubled(PasswordChar(buf, i)))
  }

  lemma DoubledNul()
    ensures Doubled(0) == 0
  {
  }

  /** The loops that pack a password into a key. */
  method PackKey(buf: seq<bv8>) returns (key: array<bv8>)
    ensures fresh(key) && key.Length == 8 && key[..] == PackedKey(buf)
  {
    hide Doubled;
    DoubledNul();
    key := new bv8[8];
    var i := 0;
    while i < 8
      invariant 0 <= i <= 8 && i <= |buf| && 0 !in buf[..i]
      invariant forall j :: 0 <= j < i ==> key[j] == Doubled(buf[j])
    {
      if i == |buf| || buf[i] == 0 {
        break;
      }
      key[i] := Doubled(buf[i]);
      i := i + 1;
    }
    ghost var used := i;
    while i < 8
      invariant used <= i <= 8
      invariant forall j :: 0 <= j < used ==> key[j] == Doubled(buf[j])
      invariant forall j :: used <= j < i ==> key[j] == 0
    {
      key[i] := 0;
      i := i + 1;
    }
    forall j | 0 <= j < 8
      ensures key[j] == Doubled(PasswordChar(buf, j))
    {
      PrefixHasNoNul(buf, used, j);
    }
  }

  lemma PrefixHasNoNul(buf: seq<bv8>, used: nat, j: nat)
    requires used <= |buf| && 0 !in buf[..used] && (used == 8 || used == |buf| || buf[used] == 0) && j < 8
    ensures PasswordChar(buf, j) == if j < used then buf[j] else 0
  {
    if j < used {
      assert forall k :: 0 <= k < j ==> buf[..j][k] == buf[..used][k];
    } else if used < j < |buf| {
      assert buf[..j][used] == 0;
    }
  }

  /** Two characters make the same byte of a key exactly if they have the same low seven bits. */
  lemma SevenBits(a: bv8, b: bv8)
    ensures Doubled(a) == Doubled(b) <==> a & 0x7f == b & 0x7f
  {
  }

  /** Nothing but the low seven bits of the first eight characters of a password counts. */
  lemma EightCharactersCount(p: seq<bv8>, q: seq<bv8>)
    ensures PackedKey(p) == PackedKey(q) <==>
            forall i :: 0 <= i < 8 ==> PasswordChar(p, i) & 0x7f == PasswordChar(q, i) & 0x7f
  {
    hide Doubled, PasswordChar;
    forall i | 0 <= i < 8
      ensures PackedKey(p)[i] == PackedKey(q)[i] <==> PasswordChar(p, i) & 0x7f == PasswordChar(q, i) & 0x7f
    {
      SevenBits(PasswordChar(p, i), PasswordChar(q, i));
    }
  }

  // ---------------------------------------------------------------------------------------------
  // The salt.
  // ---------------------------------------------------------------------------------------------

  function SaltChar(c: Char): Char {
    if c == 0 then 0x41 else c
  }

  function Eswap0(c: Char): bv32 {
    (ConSalt(c) as bv32) << 2
  }

  function Eswap1(c: Char): bv32 {
    (ConSalt(c) as bv32) << 6
  }

  lemma NoMask()
    ensures Eswap0(0x2e) == 0 && Eswap1(0x2e) == 0
  {
    ConSaltIs(0x2e);
  }

  // ---------------------------------------------------------------------------------------------
  // Six bits to a character.
  // ---------------------------------------------------------------------------------------------

  function Mask(j: nat): bv8 {
    if j == 0 then 0x80 else NextMask(Mask(j - 1))
  }

  function NextMask(u: bv8): bv8 {
    u >> 1
  }

  function Masked(b: bv8, u: bv8): nat {
    if b & u != 0 then 1 else 0
  }

  /** Bit n of a string of bytes, the highest bit of each byte first; zero behind its end. */
  function Bit(bytes: seq<bv8>, n: nat): (b: nat) {
    if n / 8 < |bytes| then Masked(bytes[n / 8], Mask(n % 8)) else 0
  }

  /** The number that the k bits from n on stand for. */
  function Bits(bytes: seq<bv8>, n: nat, k: nat): (c: nat)
    ensures c < Two(k)
  {
    if k == 0 then 0 else 2 * Bits(bytes, n, k - 1) + Bit(bytes, n + k - 1)
  }

  function Two(k: nat): (p: nat)
    ensures p > 0
  {
    if k == 0 then 1 else 2 * Two(k - 1)
  }

  lemma BelowSixtyFour(bytes: seq<bv8>, n: nat)
    ensures Bits(bytes, n, 6) < 64
  {
    assert Two(6) == 2 * (2 * (2 * Two(3)));
  }

  function Character(bytes: seq<bv8>, i: nat): Char {
    BelowSixtyFour(bytes, 6 * i);
    Cov2Char(Bits(bytes, 6 * i, 6))
  }

  /** Eleven characters for eight bytes: 64 bits, and two more that are zero. */
  function Encoded(bytes: seq<bv8>): (s: seq<Char>)
    requires |bytes| == 8
    ensures |s| == 11
  {
    seq(11, i requires 0 <= i < 11 => Character(bytes, i))
  }

  lemma MaskTurns(j: nat)
    requires j < 8
    ensures NextMask(Mask(j)) == 0 <==> j == 7
    ensures j < 7 ==> NextMask(Mask(j)) == Mask(j + 1)
  {
    assert Mask(3) == 0x10 by {
      assert Mask(1) == 0x40;
      assert Mask(2) == 0x20;
    }
    if j < 3 {
    } else {
      assert Mask(4) == 0x08;
      assert Mask(5) == 0x04;
      assert Mask(6) == 0x02;
      assert Mask(7) == 0x01;
    }
  }

  /** The loops that write the characters, with a mask that moves through the bytes. */
  method Encode(out0: bv32, out1: bv32) returns (ret: seq<Char>)
    ensures ret == Encoded(Store(Block(out0, out1)))
  {
    hide Store, Character, Mask, Cov2Char;
    ghost var bytes := Store(Block(out0, out1));
    var bb := Store(Block(out0, out1)) + [0];
    var y, u := 0, 0x80;
    FirstMask();
    ret := [];
    for i := 0 to 11
      invariant ret == Encoded(bytes)[..i]
      invariant y == 6 * i / 8 && u == Mask(6 * i % 8)
    {
      var c;
      c, y, u := EncodeSix(bb, 6 * i, y, u);
      CharacterIs(bytes, i);
      ret := ret + [Cov2Char(c)];
    }
  }

  lemma CharacterIs(bytes: seq<bv8>, i: nat)
    requires |bytes| == 8 && i < 11
    ensures Bits(bytes + [0], 6 * i, 6) < 64 && Character(bytes, i) == Cov2Char(Bits(bytes + [0], 6 * i, 6))
  {
    hide Cov2Char, Bit;
    BitsOfPadded(bytes, 6 * i, 6);
    BelowSixtyFour(bytes, 6 * i);
  }

  lemma {:induction false} BitsOfPadded(bytes: seq<bv8>, n: nat, k: nat)
    requires |bytes| == 8 && n + k <= 72
    ensures Bits(bytes + [0], n, k) == Bits(bytes, n, k)
  {
    if k > 0 {
      BitsOfPadded(bytes, n, k - 1);
      PaddedBit(bytes, n + k - 1);
    }
  }

  /** One character: six bits, with the mask moving on to the next byte where it falls out. */
  method EncodeSix(bb: seq<bv8>, n: nat, y0: nat, u0: bv8) returns (c: nat, y: nat, u: bv8)
    requires |bb| == 9 && n <= 60 && y0 == n / 8 && u0 == Mask(n % 8)
    ensures c == Bits(bb, n, 6) && y == (n + 6) / 8 && u == Mask((n + 6) % 8)
  {
    hide Mask, NextMask, Masked, Bits;
    FirstMask();
    NoBits(bb, n);
    c, y, u := 0, y0, u0;
    for j := 0 to 6
      invariant c == Bits(bb, n, j)
      invariant y == (n + j) / 8 && u == Mask((n + j) % 8)
    {
      MaskTurns((n + j) % 8);
      NextPlace(n + j);
      OneMoreBit(bb, n, j);
      c := 2 * c + Masked(bb[y], u);
      u := NextMask(u);
      if u == 0 {
        y := y + 1;
        u := 0x80;
      }
    }
  }

  lemma NoBits(bytes: seq<bv8>, n: nat)
    ensures Bits(bytes, n, 0) == 0
  {
  }

  lemma OneMoreBit(bytes: seq<bv8>, n: nat, j: nat)
    requires n + j < 8 * |bytes|
    ensures Bits(bytes, n, j + 1) == 2 * Bits(bytes, n, j) + Masked(bytes[(n + j) / 8], Mask((n + j) % 8))
  {
    hide Mask, Masked;
  }

  lemma NextPlace(n: nat)
    ensures if n % 8 == 7 then (n + 1) / 8 == n / 8 + 1 && (n + 1) % 8 == 0
            else (n + 1) / 8 == n / 8 && (n + 1) % 8 == n % 8 + 1
  {
  }

  lemma FirstMask()
    ensures Mask(0) == 0x80
  {
  }

  lemma PaddedBit(bytes: seq<bv8>, n: nat)
    requires |bytes| == 8 && n < 72
    ensures Bit(bytes + [0], n) == Bit(bytes, n)
  {
    hide Mask, Masked;
    NothingMasked(Mask(n % 8));
  }

  lemma NothingMasked(u: bv8)
    ensures Masked(0, u) == 0
  {
  }

  // ---------------------------------------------------------------------------------------------
  // Reading the characters back.
  // ---------------------------------------------------------------------------------------------

  lemma {:induction false} BitsDetermine(a: seq<bv8>, b: seq<bv8>, n: nat, k: nat)
    requires Bits(a, n, k) == Bits(b, n, k)
    ensures forall j :: n <= j < n + k ==> Bit(a, j) == Bit(b, j)
  {
    hide Bit;
    if k > 0 {
      BitIsSmall(a, n + k - 1);
      BitIsSmall(b, n + k - 1);
      BitsDetermine(a, b, n, k - 1);
    }
  }

  lemma BitIsSmall(bytes: seq<bv8>, n: nat)
    ensures Bit(bytes, n) < 2
  {
  }

  lemma EightMasks()
    ensures Mask(0) == 0x80 && Mask(1) == 0x40 && Mask(2) == 0x20 && Mask(3) == 0x10
    ensures Mask(4) == 0x08 && Mask(5) == 0x04 && Mask(6) == 0x02 && Mask(7) == 0x01
  {
    assert Mask(1) == 0x40;
    assert Mask(2) == 0x20;
    assert Mask(3) == 0x10;
    assert Mask(4) == 0x08;
    assert Mask(5) == 0x04;
    assert Mask(6) == 0x02;
  }

  lemma MasksDetermineByte(a: bv8, b: bv8)
    requires Masked(a, 0x80) == Masked(b, 0x80) && Masked(a, 0x40) == Masked(b, 0x40)
    requires Masked(a, 0x20) == Masked(b, 0x20) && Masked(a, 0x10) == Masked(b, 0x10)
    requires Masked(a, 0x08) == Masked(b, 0x08) && Masked(a, 0x04) == Masked(b, 0x04)
    requires Masked(a, 0x02) == Masked(b, 0x02) && Masked(a, 0x01) == Masked(b, 0x01)
    ensures a == b
  {
  }

  /** Different bytes make different characters. */
  lemma EncodedDetermines(a: seq<bv8>, b: seq<bv8>)
    requires |a| == |b| == 8 && Encoded(a) == Encoded(b)
    ensures a == b
  {
    hide Cov2Char, ConSalt, Bits, Bit;
    forall n: nat | n < 64
      ensures Bit(a, n) == Bit(b, n)
    {
      var i := n / 6;
      assert Encoded(a)[i] == Encoded(b)[i];
      BelowSixtyFour(a, 6 * i);
      BelowSixtyFour(b, 6 * i);
      SaltUndoesChar(Bits(a, 6 * i, 6));
      SaltUndoesChar(Bits(b, 6 * i, 6));
      BitsDetermine(a, b, 6 * i, 6);
    }
    forall k: nat | k < 8
      ensures a[k] == b[k]
    {
      ByteFromBits(a, b, k);
    }
  }

  lemma ByteFromBits(a: seq<bv8>, b: seq<bv8>, k: nat)
    requires k < |a| == |b| && forall n: nat :: 8 * k <= n < 8 * k + 8 ==> Bit(a, n) == Bit(b, n)
    ensures a[k] == b[k]
  {
    hide Bit, Mask, Masked;
    BitOfByte(a, k);
    BitOfByte(b, k);
    EightMasks();
    forall j: nat | j < 8
      ensures Masked(a[k], Mask(j)) == Masked(b[k], Mask(j))
    {
      assert Bit(a, 8 * k + j) == Bit(b, 8 * k + j);
    }
    MasksDetermineByte(a[k], b[k]);
  }

  lemma BitOfByte(bytes: seq<bv8>, k: nat)
    requires k < |bytes|
    ensures forall j: nat :: j < 8 ==> Bit(bytes, 8 * k + j) == Masked(bytes[k], Mask(j))
  {
    hide Mask, Masked;
    forall j: nat | j < 8
      ensures Bit(bytes, 8 * k + j) == Masked(bytes[k], Mask(j))
    {
      assert (8 * k + j) / 8 == k && (8 * k + j) % 8 == j;
    }
  }

  // ---------------------------------------------------------------------------------------------
  // crypt.
  // ---------------------------------------------------------------------------------------------

  /** The block behind a result. */
  function CryptBlock(sp: SpTables, buf: seq<bv8>, salt0: Char, salt1: Char): Block {
    Iterated(sp, SubKeys(Schedule(PackedKey(buf))), Eswap0(SaltChar(salt0)), Eswap1(SaltChar(salt1)), ITERATIONS)
  }

  function Crypt(sp: SpTables, buf: seq<bv8>, salt0: Char, salt1: Char): (ret: seq<Char>)
    ensures |ret| == 13
  {
    [SaltChar(salt0), SaltChar(salt1)] + Encoded(Store(CryptBlock(sp, buf, salt0, salt1)))
  }

  /** des_fcrypt; its keys are not checked, and the closing NUL is left out. */
  method DesFcrypt(sp: SpTables, buf: seq<bv8>, salt0: Char, salt1: Char) returns (ret: seq<Char>)
    ensures ret == Crypt(sp, buf, salt0, salt1)
  {
    hide PackedKey, Schedule, Iterated, SubKeys, Store, Encoded, Eswap0, Eswap1;
    var key := PackKey(buf);
    var ks := new bv32[SCHEDULE_WORDS];
    var ok := SetKey(key, ks, false, 8);
    var out0, out1 := FcryptBody(sp, ks[..], Eswap0(SaltChar(salt0)), Eswap1(SaltChar(salt1)));
    var tail := Encode(out0, out1);
    ret := [SaltChar(salt0), SaltChar(salt1)] + tail;
  }

  /** Under one salt, two results are equal exactly if the blocks behind them are. */
  lemma CryptShowsBlock(sp: SpTables, p: seq<bv8>, q: seq<bv8>, salt0: Char, salt1: Char)
    ensures Crypt(sp, p, salt0, salt1) == Crypt(sp, q, salt0, salt1) <==>
            CryptBlock(sp, p, salt0, salt1) == CryptBlock(sp, q, salt0, salt1)
  {
    hide CryptBlock, Store, Encoded, SaltChar;
    var a, b := CryptBlock(sp, p, salt0, salt1), CryptBlock(sp, q, salt0, salt1);
    if Crypt(sp, p, salt0, salt1) == Crypt(sp, q, salt0, salt1) {
      assert Encoded(Store(a)) == Crypt(sp, p, salt0, salt1)[2..];
      assert Encoded(Store(b)) == Crypt(sp, q, salt0, salt1)[2..];
      EncodedDetermines(Store(a), Store(b));
      LoadOfStore(a);
      LoadOfStore(b);
    }
  }

  /** Passwords that agree in the low seven bits of their first eight characters have one result. */
  lemma SameEightCharacters(sp: SpTables, p: seq<bv8>, q: seq<bv8>, salt0: Char, salt1: Char)
    requires forall i :: 0 <= i < 8 ==> PasswordChar(p, i) & 0x7f == PasswordChar(q, i) & 0x7f
    ensures Crypt(sp, p, salt0, salt1) == Crypt(sp, q, salt0, salt1)
  {
    hide PackedKey, CryptBlock;
    EightCharactersCount(p, q);
    CryptOfKey(sp, p, q, salt0, salt1);
  }

  lemma CryptOfKey(sp: SpTables, p: seq<bv8>, q: seq<bv8>, salt0: Char, salt1: Char)
    requires PackedKey(p) == PackedKey(q)
    ensures CryptBlock(sp, p, salt0, salt1) == CryptBlock(sp, q, salt0, salt1)
  {
    hide PackedKey, Schedule, Iterated, SubKeys, Eswap0, Eswap1;
  }

  /** The salt "..": DES iterated twenty-five times on the zero block, under the password's key. */
  lemma DotsAreIteratedDes(sp: SpTables, buf: seq<bv8>)
    ensures CryptBlock(sp, buf, 0x2e, 0x2e) == IteratedDes(sp, Schedule(PackedKey(buf)), ITERATIONS)
  {
    hide PackedKey, Schedule, Iterated, SubKeys, Eswap0, Eswap1, IteratedDes;
    NoMask();
    UnsaltedIsIteratedDes(sp, Schedule(PackedKey(buf)), ITERATIONS);
  }
}
