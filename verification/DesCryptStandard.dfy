/** crypt() from characters to characters: with des_SPtrans, every result is the salt, and the letters of
    twenty-five encryptions by the cipher of FIPS PUB 46-3 with a salted expansion. */
module DesCryptStandard {
  import opened DesBlockCipher
  import opened DesKeySchedule
  import opened DesBytes
  import opened DesCrypt
  import opened DesFcrypt
  import opened DesConforms
  import opened DesCryptConforms
  import opened DesSpTrans
  import opened DesBoxesConform
  import opened FipsBoxes
  import Fips = FipsDes

  // ---------------------------------------------------------------------------------------------
  // The salted cipher with the boxes of the standard.
  // ---------------------------------------------------------------------------------------------

  /** f(R, K) with the expanded bits exchanged. */
  function StandardSaltedF(salt: Salt, r: Fips.Word, k: Fips.Key48): Fips.Word {
    Fips.Select(Substituted(Fips.Plus(Exchanged(Fips.Select(r, Fips.E), salt), k), 8), P)
  }

  function StandardSaltedRounds(salt: Salt, ks: seq<Fips.Key48>, s: Fips.Halves): Fips.Halves {
    if ks == [] then s
    else StandardSaltedRounds(salt, ks[1..], Fips.Halves(s.r, Fips.Plus(s.l, StandardSaltedF(salt, s.r, ks[0]))))
  }

  function StandardSaltedCipher(salt: Salt, ks: seq<Fips.Key48>, block: Fips.Bits): (c: Fips.Bits)
    requires |block| == 64
    ensures |c| == 64
  {
    var p := Fips.Select(block, Fips.IP);
    var s := StandardSaltedRounds(salt, ks, Fips.Halves(p[..32], p[32..]));
    Fips.Select(s.r + s.l, Fips.IP_INVERSE)
  }

  /** n encryptions of 64 zeros, one after the other. */
  function StandardIterations(salt: Salt, ks: seq<Fips.Key48>, n: nat): (c: Fips.Bits)
    ensures |c| == 64
  {
    if n == 0 then seq(64, i => false) else StandardSaltedCipher(salt, ks, StandardIterations(salt, ks, n - 1))
  }

  lemma SaltedFIsStandard(salt: Salt, r: Fips.Word, k: Fips.Key48)
    ensures SaltedF(StandardBoxes(), salt, r, k) == StandardSaltedF(salt, r, k)
  {
    hide Exchanged, Substituted, Fips.Select, Fips.Contributions, Fips.Plus;
    var x := Fips.Plus(Exchanged(Fips.Select(r, Fips.E), salt), k);
    ContributionsArePermuted(x, 8);
    assert Padded(Substituted(x, 8)) == Substituted(x, 8);
  }

  lemma {:induction false} SaltedRoundsAreStandard(salt: Salt, ks: seq<Fips.Key48>, s: Fips.Halves)
    ensures FipsSaltedRounds(StandardBoxes(), salt, ks, s) == StandardSaltedRounds(salt, ks, s)
    decreases ks
  {
    hide SaltedF, StandardSaltedF, StandardBoxes, Fips.Plus;
    if ks != [] {
      SaltedFIsStandard(salt, s.r, ks[0]);
      SaltedRoundsAreStandard(
        salt, ks[1..], Fips.Halves(s.r, Fips.Plus(s.l, StandardSaltedF(salt, s.r, ks[0]))));
    }
  }

  lemma SaltedCipherIsStandard(salt: Salt, ks: seq<Fips.Key48>, block: Fips.Bits)
    requires |block| == 64
    ensures SaltedCipher(StandardBoxes(), salt, ks, block) == StandardSaltedCipher(salt, ks, block)
  {
    hide FipsSaltedRounds, StandardSaltedRounds, StandardBoxes, Fips.Select;
    var p := Fips.Select(block, Fips.IP);
    SaltedRoundsAreStandard(salt, ks, Fips.Halves(p[..32], p[32..]));
  }

  lemma {:induction false} IterationsAreStandard(salt: Salt, ks: seq<Fips.Key48>, n: nat)
    ensures SaltedIterations(StandardBoxes(), salt, ks, n) == StandardIterations(salt, ks, n)
  {
    hide SaltedCipher, StandardSaltedCipher, StandardBoxes;
    if n > 0 {
      IterationsAreStandard(salt, ks, n - 1);
      SaltedCipherIsStandard(salt, ks, StandardIterations(salt, ks, n - 1));
    }
  }

  // ---------------------------------------------------------------------------------------------
  // The letters.
  // ---------------------------------------------------------------------------------------------

  /** The letters of a result in their order: full stop, slash, digits, capitals, small letters. */
  function Letter(n: nat): Char
    requires n < 64
  {
    if n < 12 then n + 46 else if n < 38 then n - 12 + 65 else n - 38 + 97
  }

  /** Six bits as a number, the first one highest. */
  function HighFirst(six: Fips.Bits): (n: nat)
    requires |six| == 6
    ensures n < 64
  {
    32 * Fips.One(six[0]) + 16 * Fips.One(six[1]) + 8 * Fips.One(six[2]) + 4 * Fips.One(six[3]) +
    2 * Fips.One(six[4]) + Fips.One(six[5])
  }

  /** 64 bits and two zeros, six to a letter. */
  function Letters(bits: Fips.Bits): (s: seq<Char>)
    requires |bits| == 66
    ensures |s| == 11
  {
    seq(11, i requires 0 <= i < 11 => Letter(HighFirst(bits[6 * i..6 * i + 6])))
  }

  lemma BitOfOctets(bytes: seq<bv8>, n: nat)
    requires |bytes| == 8 && n < 64
    ensures Bit(bytes, n) == Fips.One(Octets(bytes)[n])
  {
    hide Octets, OctetBits, Mask, Masked, IsOn;
    var k, j := n / 8, n % 8;
    OctetAt(bytes, k);
    assert Octets(bytes)[n] == Octets(bytes)[8 * k..8 * k + 8][j];
    BitOfOctet(bytes[k], j);
  }

  lemma BitOfOctet(b: bv8, j: nat)
    requires j < 8
    ensures Masked(b, Mask(j)) == Fips.One(OctetBits(b)[j])
  {
    hide OctetBits, Mask, IsOn;
    EightMasks();
    OctetBitAt(b);
    MaskedIsOn(b, Mask(j));
  }

  lemma MaskedIsOn(b: bv8, mask: bv8)
    ensures Masked(b, mask) == Fips.One(IsOn(b, mask))
  {
  }

  /** The bits of eight bytes, and zeros behind them. */
  lemma BitOfPadded(bytes: seq<bv8>, n: nat)
    requires |bytes| == 8 && n < 66
    ensures Bit(bytes, n) == Fips.One((Octets(bytes) + [false, false])[n])
  {
    hide Octets;
    if n < 64 {
      BitOfOctets(bytes, n);
    }
  }

  lemma SixBitsAre(bytes: seq<bv8>, n: nat)
    ensures Bits(bytes, n, 6) ==
            32 * Bit(bytes, n) + 16 * Bit(bytes, n + 1) + 8 * Bit(bytes, n + 2) + 4 * Bit(bytes, n + 3) +
            2 * Bit(bytes, n + 4) + Bit(bytes, n + 5)
  {
    hide Bit;
    assert Bits(bytes, n, 1) == Bit(bytes, n);
    assert Bits(bytes, n, 3) == 2 * (2 * Bits(bytes, n, 1) + Bit(bytes, n + 1)) + Bit(bytes, n + 2);
    assert Bits(bytes, n, 5) == 2 * (2 * Bits(bytes, n, 3) + Bit(bytes, n + 3)) + Bit(bytes, n + 4);
  }

  lemma CharacterIsLetter(bytes: seq<bv8>, i: nat)
    requires |bytes| == 8 && i < 11
    ensures Character(bytes, i) == Letter(HighFirst((Octets(bytes) + [false, false])[6 * i..6 * i + 6]))
  {
    hide Octets, Bit, Bits, Cov2Char, Fips.One;
    var n := 6 * i;
    BelowSixtyFour(bytes, n);
    SixBitsAre(bytes, n);
    BitOfPadded(bytes, n);
    BitOfPadded(bytes, n + 1);
    BitOfPadded(bytes, n + 2);
    BitOfPadded(bytes, n + 3);
    BitOfPadded(bytes, n + 4);
    BitOfPadded(bytes, n + 5);
    Cov2CharIs(Bits(bytes, n, 6));
  }

  lemma EncodedIsLetters(bytes: seq<bv8>)
    requires |bytes| == 8
    ensures Encoded(bytes) == Letters(Octets(bytes) + [false, false])
  {
    hide Octets, Character, Letter, HighFirst;
    forall i | 0 <= i < 11
      ensures Encoded(bytes)[i] == Letters(Octets(bytes) + [false, false])[i]
    {
      CharacterIsLetter(bytes, i);
    }
  }

  // ---------------------------------------------------------------------------------------------
  // crypt.
  // ---------------------------------------------------------------------------------------------

  /** The salt characters of a result are those given, with an A for a NUL. */
  lemma CryptShowsSalt(sp: SpTables, buf: seq<bv8>, salt0: Char, salt1: Char)
    ensures
      var ret := Crypt(sp, buf, salt0, salt1);
      && ret[0] == (if salt0 == 0 then 0x41 else salt0) && ret[1] == (if salt1 == 0 then 0x41 else salt1)
      && (salt0 != 0 && salt1 != 0 <==> ret[..2] == [salt0, salt1])
  {
    hide Encoded, Store, CryptBlock;
  }

  /** What crypt() is used for: a password is checked by encrypting it under the salt its result begins with. */
  lemma CryptOfResult(sp: SpTables, buf: seq<bv8>, salt0: Char, salt1: Char)
    ensures
      var ret := Crypt(sp, buf, salt0, salt1);
      Crypt(sp, buf, ret[0], ret[1]) == ret
  {
    hide Encoded, Store, Iterated, SubKeys, Schedule, PackedKey, Eswap0, Eswap1;
  }

  /** The block behind the letters. */
  function StandardBlock(buf: seq<bv8>, salt: Salt): (c: Fips.Bits)
    ensures |c| == 64
  {
    StandardIterations(salt, Fips.KeySchedule(PasswordBits(buf)), 25)
  }

  function Given(c: Char): Char {
    if c == 0 then 0x41 else c
  }

  /** The result of crypt(), character by character. */
  function StandardCrypt(buf: seq<bv8>, salt0: Char, salt1: Char): seq<Char> {
    [Given(salt0), Given(salt1)] + Letters(StandardBlock(buf, CryptSalt(salt0, salt1)) + [false, false])
  }

  lemma CryptIsStandard(buf: seq<bv8>, salt0: Char, salt1: Char)
    ensures Crypt(DES_SPTRANS, buf, salt0, salt1) == StandardCrypt(buf, salt0, salt1)
  {
    hide CryptBlock, CryptSalt, PasswordBits, BoxesOf, Encoded, Letters, Store, Octets, StandardBoxes, SaltedIterations,
      StandardIterations, Fips.KeySchedule;
    var b := CryptBlock(DES_SPTRANS, buf, salt0, salt1);
    var salt, ks := CryptSalt(salt0, salt1), Fips.KeySchedule(PasswordBits(buf));
    CryptConforms(DES_SPTRANS, buf, salt0, salt1);
    SpTransConforms();
    IterationsAreStandard(salt, ks, 25);
    StoredBits(b);
    EncodedIsLetters(Store(b));
  }
}
