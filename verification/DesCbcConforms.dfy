/** Cipher block chaining by the standards: what the buffers hold after des_ncbc_encrypt and
    des_ede3_cbc_encrypt with des_SPtrans, in terms of octets, exclusive or, and the data encryption
    algorithm (FIPS PUB 46-3, section 6.2 of NIST SP 800-38A). */
module DesCbcConforms {
  import opened Sequences
  import opened DesWords
  import opened DesBlockCipher
  import opened DesKeySchedule
  import opened DesBytes
  import opened DesCbc
  import opened DesKeyConforms
  import opened DesConforms
  import opened DesSpTrans
  import opened DesBoxesConform
  import opened FipsBoxes
  import Fips = FipsDes

  type Octet8 = m: seq<bv8> | |m| == 8 witness [0, 0, 0, 0, 0, 0, 0, 0]

  // ---------------------------------------------------------------------------------------------
  // Exclusive or, byte by byte.
  // ---------------------------------------------------------------------------------------------

  lemma StoredXor0(v: bv32, w: bv32)
    ensures StoredByte(Xor(v, w), 0) == StoredByte(v, 0) ^ StoredByte(w, 0)
  {
  }

  lemma StoredXor1(v: bv32, w: bv32)
    ensures StoredByte(Xor(v, w), 1) == StoredByte(v, 1) ^ StoredByte(w, 1)
  {
  }

  lemma StoredXor2(v: bv32, w: bv32)
    ensures StoredByte(Xor(v, w), 2) == StoredByte(v, 2) ^ StoredByte(w, 2)
  {
  }

  lemma StoredXor3(v: bv32, w: bv32)
    ensures StoredByte(Xor(v, w), 3) == StoredByte(v, 3) ^ StoredByte(w, 3)
  {
  }

  lemma StoredXor(v: bv32, w: bv32, k: nat)
    requires k < 4
    ensures StoredByte(Xor(v, w), k) == StoredByte(v, k) ^ StoredByte(w, k)
  {
    hide StoredByte, Xor;
    if k == 0 {
      StoredXor0(v, w);
    } else if k == 1 {
      StoredXor1(v, w);
    } else if k == 2 {
      StoredXor2(v, w);
    } else {
      StoredXor3(v, w);
    }
  }

  lemma StoredAt(b: Block, k: nat)
    requires k < 8
    ensures Store(b)[k] == if k < 4 then StoredByte(b.w0, k) else StoredByte(b.w1, k - 4)
  {
    hide StoredByte;
  }

  lemma XorBlockBytes(a: Block, b: Block, k: nat)
    requires k < 8
    ensures Store(XorBlock(a, b))[k] == Store(a)[k] ^ Store(b)[k]
  {
    hide StoredByte, Store, Xor;
    StoredAt(a, k);
    StoredAt(b, k);
    StoredAt(XorBlock(a, b), k);
    if k < 4 {
      StoredXor(a.w0, b.w0, k);
    } else {
      StoredXor(a.w1, b.w1, k - 4);
    }
  }

  lemma SameStored(a: Block, b: Block)
    requires forall k: nat :: k < 8 ==> Store(a)[k] == Store(b)[k]
    ensures a == b
  {
    hide LoadAt, Store;
    LoadOfStore(a);
    LoadOfStore(b);
    assert Store(a) == Store(b);
  }

  /** Byte i of a message that is padded with zeros. */
  function Padded(m: seq<bv8>, i: nat): bv8 {
    if i < |m| then m[i] else 0
  }

  /** What byte k of block j is xored with: the vector, or the ciphertext block before it. */
  function Before(iv: Block, cipher: seq<bv8>, j: nat, k: nat): bv8
    requires k < 8 && 8 * j <= |cipher|
  {
    if j == 0 then Store(iv)[k] else cipher[8 * (j - 1) + k]
  }

  lemma ChainedByte(iv: Block, cipher: seq<bv8>, j: nat, k: nat)
    requires k < 8 && 8 * j <= |cipher|
    ensures Store(Chained(iv, cipher, j))[k] == Before(iv, cipher, j, k)
  {
    hide Store, LoadAt;
    if j > 0 {
      StoreOfLoad(cipher, 8 * (j - 1), k);
    }
  }

  /** Block j of a ciphertext, decrypted, is the padded plaintext xored with what is before it. */
  ghost predicate IsEncryptedBlock(c: Cipher, iv: Block, m: seq<bv8>, out: seq<bv8>, j: nat)
    requires 8 * j + 8 <= |out|
  {
    forall k: nat :: k < 8 ==>
      Store(Apply(c, false, BlockAt(out, j)))[k] == Padded(m, 8 * j + k) ^ Before(iv, out, j, k)
  }

  lemma EncryptedBlock(c: Cipher, iv: Block, m: seq<bv8>, out: seq<bv8>, j: nat)
    requires 8 * j + 8 <= |out|
    ensures BlockAt(out, j) == Apply(c, true, XorBlock(BlockAt(m, j), Chained(iv, out, j))) <==>
            IsEncryptedBlock(c, iv, m, out, j)
  {
    hide Apply, XorBlock, Store, LoadAt, Chained, Before, Padded, BlockAt;
    var x := XorBlock(BlockAt(m, j), Chained(iv, out, j));
    var y := Apply(c, false, BlockAt(out, j));
    forall k: nat | k < 8
      ensures Store(x)[k] == Padded(m, 8 * j + k) ^ Before(iv, out, j, k)
    {
      XorBlockBytes(BlockAt(m, j), Chained(iv, out, j), k);
      ChainedByte(iv, out, j, k);
      PaddedByte(m, j, k);
    }
    ApplyInverts(c, true, x);
    ApplyInverts(c, false, BlockAt(out, j));
    if IsEncryptedBlock(c, iv, m, out, j) {
      SameStored(x, y);
    }
  }

  lemma PaddedByte(m: seq<bv8>, j: nat, k: nat)
    requires k < 8
    ensures Store(BlockAt(m, j))[k] == Padded(m, 8 * j + k)
  {
    hide Store, LoadAt;
    StoreOfLoad(m, 8 * j, k);
  }

  /** Encryption, byte by byte. */
  lemma EncryptionByBytes(c: Cipher, iv: Block, m: seq<bv8>, out: seq<bv8>)
    ensures IsEncryption(c, iv, m, out) <==>
      |out| == (|m| + 7) / 8 * 8 && forall j: nat :: j < |out| / 8 ==> IsEncryptedBlock(c, iv, m, out, j)
  {
    hide Apply, XorBlock, BlockAt, Chained, IsEncryptedBlock;
    if |out| == 8 * BlockCount(|m|) {
      forall j: nat | j < BlockCount(|m|)
        ensures BlockAt(out, j) == Apply(c, true, XorBlock(BlockAt(m, j), Chained(iv, out, j))) <==>
                IsEncryptedBlock(c, iv, m, out, j)
      {
        EncryptedBlock(c, iv, m, out, j);
      }
    }
  }

  /** Decryption, byte by byte. */
  lemma DecryptionByBytes(c: Cipher, iv: Block, cipher: seq<bv8>, out: seq<bv8>)
    ensures IsDecryption(c, iv, cipher, out) <==>
      && |cipher| == (|out| + 7) / 8 * 8
      && forall i: nat :: i < |out| ==>
           out[i] == Store(Apply(c, false, BlockAt(cipher, i / 8)))[i % 8] ^ Before(iv, cipher, i / 8, i % 8)
  {
    hide Apply, XorBlock, BlockAt, Chained, Store, Before;
    if |cipher| == 8 * BlockCount(|out|) {
      forall i: nat | i < |out|
        ensures Store(XorBlock(Apply(c, false, BlockAt(cipher, i / 8)), Chained(iv, cipher, i / 8)))[i % 8] ==
                Store(Apply(c, false, BlockAt(cipher, i / 8)))[i % 8] ^ Before(iv, cipher, i / 8, i % 8)
      {
        XorBlockBytes(Apply(c, false, BlockAt(cipher, i / 8)), Chained(iv, cipher, i / 8), i % 8);
        ChainedByte(iv, cipher, i / 8, i % 8);
      }
    }
  }

  // ---------------------------------------------------------------------------------------------
  // The block ciphers.
  // ---------------------------------------------------------------------------------------------

  /** One key, or the three of the triple algorithm. */
  datatype Keys = One(k: Key) | Three(k1: Key, k2: Key, k3: Key)

  /** The cipher that the code chains for them. */
  function CipherOf(sp: SpTables, keys: Keys): Cipher {
    if keys.One? then Single(sp, Schedule(keys.k))
    else Triple(sp, Schedule(keys.k1), Schedule(keys.k2), Schedule(keys.k3))
  }

  /** Forward and inverse cipher function of the standards: DES, or encrypt, decrypt, encrypt. */
  function Forward(keys: Keys, block: Fips.Bits): (c: Fips.Bits)
    requires |block| == 64
    ensures |c| == 64
  {
    if keys.One? then StandardCipher(KeysInOrder(keys.k, true), block)
    else
      StandardCipher(KeysInOrder(keys.k3, true),
        StandardCipher(KeysInOrder(keys.k2, false), StandardCipher(KeysInOrder(keys.k1, true), block)))
  }

  function Inverse(keys: Keys, block: Fips.Bits): (c: Fips.Bits)
    requires |block| == 64
    ensures |c| == 64
  {
    if keys.One? then StandardCipher(KeysInOrder(keys.k, false), block)
    else
      StandardCipher(KeysInOrder(keys.k1, false),
        StandardCipher(KeysInOrder(keys.k2, true), StandardCipher(KeysInOrder(keys.k3, false), block)))
  }

  lemma DesOfBlock(key: Key, encrypt: bool, b: Block)
    ensures Octets(Store(Des(DES_SPTRANS, Schedule(key), encrypt, b))) ==
            StandardCipher(KeysInOrder(key, encrypt), Octets(Store(b)))
  {
    hide Des, Schedule, LoadAt, Store, Octets, KeysInOrder, StandardCipher;
    LoadOfStore(b);
    OctetsAreStandard(key, encrypt, Store(b));
  }

  /** The chained cipher is the standards', in both directions. */
  lemma ApplyConforms(keys: Keys, b: Block)
    ensures Octets(Store(Apply(CipherOf(DES_SPTRANS, keys), true, b))) == Forward(keys, Octets(Store(b)))
    ensures Octets(Store(Apply(CipherOf(DES_SPTRANS, keys), false, b))) == Inverse(keys, Octets(Store(b)))
  {
    hide Des, Des3, Des3Inverse, Schedule, Store, Octets, KeysInOrder, StandardCipher;
    if keys.One? {
      DesOfBlock(keys.k, true, b);
      DesOfBlock(keys.k, false, b);
    } else {
      var s1, s2, s3 := Schedule(keys.k1), Schedule(keys.k2), Schedule(keys.k3);
      Des3IsThree(DES_SPTRANS, s1, s2, s3, b);
      DesOfBlock(keys.k1, true, b);
      DesOfBlock(keys.k2, false, Des(DES_SPTRANS, s1, true, b));
      DesOfBlock(keys.k3, true, Des(DES_SPTRANS, s2, false, Des(DES_SPTRANS, s1, true, b)));
      DesOfBlock(keys.k3, false, b);
      DesOfBlock(keys.k2, true, Des(DES_SPTRANS, s3, false, b));
      DesOfBlock(keys.k1, false, Des(DES_SPTRANS, s2, true, Des(DES_SPTRANS, s3, false, b)));
    }
  }

  // ---------------------------------------------------------------------------------------------
  // The chaining.
  // ---------------------------------------------------------------------------------------------

  function XorByte(a: bv8, b: bv8): bv8 {
    a ^ b
  }

  lemma BitsOfXor(a: bv8, b: bv8)
    ensures IsOn(XorByte(a, b), 0x80) == (IsOn(a, 0x80) != IsOn(b, 0x80))
    ensures IsOn(XorByte(a, b), 0x40) == (IsOn(a, 0x40) != IsOn(b, 0x40))
    ensures IsOn(XorByte(a, b), 0x20) == (IsOn(a, 0x20) != IsOn(b, 0x20))
    ensures IsOn(XorByte(a, b), 0x10) == (IsOn(a, 0x10) != IsOn(b, 0x10))
    ensures IsOn(XorByte(a, b), 0x08) == (IsOn(a, 0x08) != IsOn(b, 0x08))
    ensures IsOn(XorByte(a, b), 0x04) == (IsOn(a, 0x04) != IsOn(b, 0x04))
    ensures IsOn(XorByte(a, b), 0x02) == (IsOn(a, 0x02) != IsOn(b, 0x02))
    ensures IsOn(XorByte(a, b), 0x01) == (IsOn(a, 0x01) != IsOn(b, 0x01))
  {
  }

  lemma OctetBitsOfXor(a: bv8, b: bv8)
    ensures OctetBits(XorByte(a, b)) == Fips.Plus(OctetBits(a), OctetBits(b))
  {
    hide OctetBits, XorByte, IsOn;
    BitsOfXor(a, b);
    OctetBitAt(a);
    OctetBitAt(b);
    OctetBitAt(XorByte(a, b));
    SameEight(OctetBits(XorByte(a, b)), Fips.Plus(OctetBits(a), OctetBits(b)));
  }

  lemma OctetsOfXor(a: Octet8, b: Octet8, c: Octet8)
    requires forall k: nat :: k < 8 ==> c[k] == a[k] ^ b[k]
    ensures Octets(c) == Fips.Plus(Octets(a), Octets(b))
  {
    hide Octets, OctetBits, Fips.Plus;
    forall k: nat | k < 8
      ensures Octets(c)[8 * k..8 * k + 8] == Fips.Plus(Octets(a), Octets(b))[8 * k..8 * k + 8]
    {
      OctetAt(a, k);
      OctetAt(b, k);
      OctetAt(c, k);
      OctetBitsOfXor(a[k], b[k]);
      PlusOfPart(Octets(a), Octets(b), 8 * k, 8 * k + 8);
    }
    SameByEights(Octets(c), Fips.Plus(Octets(a), Octets(b)));
  }

  lemma SameByEights(s: Fips.Bits, t: Fips.Bits)
    requires |s| == |t| == 64 && forall k: nat :: k < 8 ==> s[8 * k..8 * k + 8] == t[8 * k..8 * k + 8]
    ensures s == t
  {
    forall i | 0 <= i < 64
      ensures s[i] == t[i]
    {
      assert s[i] == s[8 * (i / 8)..8 * (i / 8) + 8][i % 8];
      assert t[i] == t[8 * (i / 8)..8 * (i / 8) + 8][i % 8];
    }
  }

  lemma OctetsDetermine(a: Octet8, b: Octet8)
    requires Octets(a) == Octets(b)
    ensures a == b
  {
    hide Octets, OctetBits;
    forall k: nat | k < 8
      ensures a[k] == b[k]
    {
      OctetAt(a, k);
      OctetAt(b, k);
      OctetBitsDetermine(a[k], b[k]);
    }
  }

  lemma OctetBitsDetermine(a: bv8, b: bv8)
    requires OctetBits(a) == OctetBits(b)
    ensures a == b
  {
    assert a & 0x80 == b & 0x80 && a & 0x40 == b & 0x40 && a & 0x20 == b & 0x20 && a & 0x10 == b & 0x10 by {
      assert OctetBits(a)[0] == OctetBits(b)[0] && OctetBits(a)[1] == OctetBits(b)[1];
      assert OctetBits(a)[2] == OctetBits(b)[2] && OctetBits(a)[3] == OctetBits(b)[3];
    }
    assert a & 0x08 == b & 0x08 && a & 0x04 == b & 0x04 && a & 0x02 == b & 0x02 && a & 0x01 == b & 0x01 by {
      assert OctetBits(a)[4] == OctetBits(b)[4] && OctetBits(a)[5] == OctetBits(b)[5];
      assert OctetBits(a)[6] == OctetBits(b)[6] && OctetBits(a)[7] == OctetBits(b)[7];
    }
  }

  /** Eight octets from block j of a message on, padded with zeros. */
  function PaddedBlock(m: seq<bv8>, j: nat): Octet8 {
    seq(8, k requires 0 <= k < 8 => Padded(m, 8 * j + k))
  }

  /** The octets before block j. */
  function OctetsBefore(ivec: Octet8, cipher: seq<bv8>, j: nat): Octet8
    requires 8 * j <= |cipher|
  {
    if j == 0 then ivec else cipher[8 * j - 8..8 * j]
  }

  lemma VectorBytes(ivec: Octet8)
    ensures Store(VectorOf(ivec)) == ivec
  {
    hide LoadAt, Store;
    forall k: nat | k < 8
      ensures Store(VectorOf(ivec))[k] == ivec[k]
    {
      StoreOfLoad(ivec, 0, k);
    }
  }

  lemma BlockBytes(m: seq<bv8>, j: nat)
    ensures Store(BlockAt(m, j)) == PaddedBlock(m, j)
    ensures 8 * j + 8 <= |m| ==> Store(BlockAt(m, j)) == m[8 * j..8 * j + 8]
  {
    hide BlockAt, Store;
    forall k: nat | k < 8
      ensures Store(BlockAt(m, j))[k] == PaddedBlock(m, j)[k]
      ensures 8 * j + 8 <= |m| ==> Store(BlockAt(m, j))[k] == m[8 * j..8 * j + 8][k]
    {
      PaddedByte(m, j, k);
    }
  }

  lemma ChainedBytes(ivec: Octet8, cipher: seq<bv8>, j: nat)
    requires 8 * j <= |cipher|
    ensures Store(Chained(VectorOf(ivec), cipher, j)) == OctetsBefore(ivec, cipher, j)
  {
    hide BlockAt, Store, VectorOf;
    VectorBytes(ivec);
    if j > 0 {
      BlockBytes(cipher, j - 1);
    }
  }

  /** The octets of the exclusive or of two blocks. */
  lemma XorOctets(a: Block, b: Block)
    ensures Octets(Store(XorBlock(a, b))) == Fips.Plus(Octets(Store(a)), Octets(Store(b)))
  {
    hide XorBlock, Store, Octets;
    forall k: nat | k < 8
      ensures Store(XorBlock(a, b))[k] == Store(a)[k] ^ Store(b)[k]
    {
      XorBlockBytes(a, b, k);
    }
    OctetsOfXor(Store(a), Store(b), Store(XorBlock(a, b)));
  }

  /** A ciphertext block is the forward cipher of the plaintext block plus what is before it. */
  ghost predicate IsForwardBlock(keys: Keys, ivec: Octet8, m: seq<bv8>, out: seq<bv8>, j: nat)
    requires 8 * j + 8 <= |out|
  {
    Octets(out[8 * j..8 * j + 8]) ==
    Forward(keys, Fips.Plus(Octets(PaddedBlock(m, j)), Octets(OctetsBefore(ivec, out, j))))
  }

  lemma ForwardBlock(keys: Keys, ivec: Octet8, m: seq<bv8>, out: seq<bv8>, j: nat)
    requires 8 * j + 8 <= |out|
    ensures
      BlockAt(out, j) == Apply(CipherOf(DES_SPTRANS, keys), true, XorBlock(BlockAt(m, j),
          Chained(VectorOf(ivec), out, j))) <==>
      IsForwardBlock(keys, ivec, m, out, j)
  {
    hide Apply, CipherOf, XorBlock, BlockAt, Chained, VectorOf, Store, Octets, Forward, PaddedBlock, OctetsBefore,
      Fips.Plus;
    var x := XorBlock(BlockAt(m, j), Chained(VectorOf(ivec), out, j));
    var y := Apply(CipherOf(DES_SPTRANS, keys), true, x);
    ApplyConforms(keys, x);
    XorOctets(BlockAt(m, j), Chained(VectorOf(ivec), out, j));
    BlockBytes(m, j);
    BlockBytes(out, j);
    ChainedBytes(ivec, out, j);
    if IsForwardBlock(keys, ivec, m, out, j) {
      OctetsDetermine(Store(BlockAt(out, j)), Store(y));
      SameStored(BlockAt(out, j), y);
    }
  }

  /** The encrypting branches compute the CBC mode of the standard cipher and nothing else does: for any
      keys, vector and message, of any length. */
  lemma CbcEncryptionConforms(keys: Keys, ivec: Octet8, m: seq<bv8>, out: seq<bv8>)
    ensures IsEncryption(CipherOf(DES_SPTRANS, keys), VectorOf(ivec), m, out) <==>
      |out| == (|m| + 7) / 8 * 8 && forall j: nat :: j < |out| / 8 ==> IsForwardBlock(keys, ivec, m, out, j)
  {
    hide Apply, CipherOf, XorBlock, BlockAt, Chained, VectorOf, IsForwardBlock;
    if |out| == 8 * BlockCount(|m|) {
      forall j: nat | j < BlockCount(|m|)
        ensures
          BlockAt(out, j) == Apply(CipherOf(DES_SPTRANS, keys), true, XorBlock(BlockAt(m, j),
          Chained(VectorOf(ivec), out, j))) <==>
          IsForwardBlock(keys, ivec, m, out, j)
      {
        ForwardBlock(keys, ivec, m, out, j);
      }
    }
  }

  /** Octet k of eight, by its bits. */
  function PartOf(bits: Fips.Bits, k: nat): Fips.Bits
    requires |bits| == 64 && k < 8
  {
    bits[8 * k..8 * k + 8]
  }

  /** The inverse cipher of block j plus what is before it. */
  function InverseOf(keys: Keys, ivec: Octet8, cipher: seq<bv8>, j: nat): (p: Fips.Bits)
    requires 8 * j + 8 <= |cipher|
    ensures |p| == 64
  {
    Fips.Plus(Inverse(keys, Octets(cipher[8 * j..8 * j + 8])), Octets(OctetsBefore(ivec, cipher, j)))
  }

  /** A plaintext octet is its part of the inverse cipher of the block plus what is before it. */
  ghost predicate IsInverseOctet(keys: Keys, ivec: Octet8, cipher: seq<bv8>, out: seq<bv8>, i: nat)
    requires i < |out| && 8 * (i / 8) + 8 <= |cipher|
  {
    OctetBits(out[i]) == PartOf(InverseOf(keys, ivec, cipher, i / 8), i % 8)
  }

  lemma InverseBlock(keys: Keys, ivec: Octet8, cipher: seq<bv8>, j: nat)
    requires 8 * j + 8 <= |cipher|
    ensures
      Octets(Store(XorBlock(Apply(CipherOf(DES_SPTRANS, keys), false, BlockAt(cipher, j)),
          Chained(VectorOf(ivec), cipher, j)))) == InverseOf(keys, ivec, cipher, j)
  {
    hide Apply, CipherOf, XorBlock, BlockAt, Chained, VectorOf, Store, Octets, Inverse, PaddedBlock, OctetsBefore,
      Fips.Plus;
    ApplyConforms(keys, BlockAt(cipher, j));
    XorOctets(Apply(CipherOf(DES_SPTRANS, keys), false, BlockAt(cipher, j)), Chained(VectorOf(ivec), cipher, j));
    BlockBytes(cipher, j);
    ChainedBytes(ivec, cipher, j);
  }

  lemma InverseOctet(keys: Keys, ivec: Octet8, cipher: seq<bv8>, out: seq<bv8>, i: nat)
    requires i < |out| && 8 * (i / 8) + 8 <= |cipher|
    ensures
      out[i] == Store(XorBlock(Apply(CipherOf(DES_SPTRANS, keys), false, BlockAt(cipher, i / 8)),
          Chained(VectorOf(ivec), cipher, i / 8)))[i % 8] <==>
      IsInverseOctet(keys, ivec, cipher, out, i)
  {
    hide Apply, CipherOf, XorBlock, BlockAt, Chained, VectorOf, Store, Octets, OctetBits, InverseOf;
    var j, k := i / 8, i % 8;
    var x := XorBlock(Apply(CipherOf(DES_SPTRANS, keys), false, BlockAt(cipher, j)),
        Chained(VectorOf(ivec), cipher, j));
    InverseBlock(keys, ivec, cipher, j);
    OctetAt(Store(x), k);
    if IsInverseOctet(keys, ivec, cipher, out, i) {
      OctetBitsDetermine(out[i], Store(x)[k]);
    }
  }

  /** The decrypting branches likewise, the last block cut to the length asked for. */
  lemma CbcDecryptionConforms(keys: Keys, ivec: Octet8, cipher: seq<bv8>, out: seq<bv8>)
    ensures IsDecryption(CipherOf(DES_SPTRANS, keys), VectorOf(ivec), cipher, out) <==>
      |cipher| == (|out| + 7) / 8 * 8 && forall i: nat :: i < |out| ==> IsInverseOctet(keys, ivec, cipher, out, i)
  {
    hide Apply, CipherOf, XorBlock, BlockAt, Chained, VectorOf, Store, IsInverseOctet;
    if |cipher| == 8 * BlockCount(|out|) {
      forall i: nat | i < |out|
        ensures
          out[i] == Store(XorBlock(Apply(CipherOf(DES_SPTRANS, keys), false, BlockAt(cipher, i / 8)),
              Chained(VectorOf(ivec), cipher, i / 8)))[i % 8] <==>
          IsInverseOctet(keys, ivec, cipher, out, i)
      {
        InverseOctet(keys, ivec, cipher, out, i);
      }
    }
  }

  /** The vector that is left for the next call: the last eight octets of the ciphertext. */
  lemma LastBlockBytes(ivec: Octet8, cipher: seq<bv8>, last: Octet8)
    requires |cipher| % 8 == 0 && VectorOf(last) == LastBlock(VectorOf(ivec), cipher)
    ensures last == if cipher == [] then ivec else cipher[|cipher| - 8..]
  {
    hide Store, VectorOf, Chained;
    VectorBytes(last);
    ChainedBytes(ivec, cipher, |cipher| / 8);
  }
}
