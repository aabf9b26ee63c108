/** ncbc_enc.c, cbc_enc.c and ede_enc.c: cipher block chaining over buffers of any length.  What a
    buffer must hold afterwards is stated as in section 6.2 of NIST SP 800-38A: every ciphertext
    block is the encryption of its plaintext block xored with the ciphertext block before it. */
module DesCbc {
  import opened DesWords
  import opened DesBlockCipher
  import opened DesBytes

  type Words = s: seq<bv32> | |s| == SCHEDULE_WORDS witness seq(SCHEDULE_WORDS, i => 0)

  /** The two block ciphers that are chained: des_encrypt, and des_encrypt3 with des_decrypt3. */
  datatype Cipher =
    | Single(sp: SpTables, s: Words)
    | Triple(sp: SpTables, s1: Words, s2: Words, s3: Words)

  function Apply(c: Cipher, encrypt: bool, b: Block): Block {
    match c
    case Single(sp, s) => Des(sp, s, encrypt, b)
    case Triple(sp, s1, s2, s3) => if encrypt then Des3(sp, s1, s2, s3, b) else Des3Inverse(sp, s1, s2, s3, b)
  }

  lemma ApplyInverts(c: Cipher, encrypt: bool, b: Block)
    ensures Apply(c, !encrypt, Apply(c, encrypt, b)) == b
  {
    hide Des, Des3, Des3Inverse;
    match c
    case Single(sp, s) =>
      DesInverts(sp, s, encrypt, b);
    case Triple(sp, s1, s2, s3) =>
      Des3Inverts(sp, s1, s2, s3, b);
      Des3InverseInverts(sp, s1, s2, s3, b);
  }

  function XorBlock(a: Block, b: Block): Block {
    Block(Xor(a.w0, b.w0), Xor(a.w1, b.w1))
  }

  lemma XorBlockCancels(a: Block, b: Block)
    ensures XorBlock(XorBlock(a, b), b) == a
  {
    hide Xor;
    XorCancels(a.w0, b.w0);
    XorCancels(a.w1, b.w1);
  }

  /** The number of blocks, whole or cut short, in n bytes. */
  function BlockCount(n: nat): nat {
    (n + 7) / 8
  }

  function BlockAt(m: seq<bv8>, j: nat): Block {
    LoadAt(m, 8 * j)
  }

  /** What block j is chained to: the ciphertext block before it, or the initial vector. */
  function Chained(iv: Block, cipher: seq<bv8>, j: nat): Block {
    if j == 0 then iv else BlockAt(cipher, j - 1)
  }

  /** out is the encryption of m: whole blocks, the last plaintext block padded with zeros. */
  ghost predicate IsEncryption(c: Cipher, iv: Block, m: seq<bv8>, out: seq<bv8>) {
    && |out| == 8 * BlockCount(|m|)
    && forall j :: 0 <= j < BlockCount(|m|) ==>
         BlockAt(out, j) == Apply(c, true, XorBlock(BlockAt(m, j), Chained(iv, out, j)))
  }

  /** out is the first |out| bytes of the decryption of the whole blocks in cipher. */
  ghost predicate IsDecryption(c: Cipher, iv: Block, cipher: seq<bv8>, out: seq<bv8>) {
    && |cipher| == 8 * BlockCount(|out|)
    && forall i :: 0 <= i < |out| ==>
         out[i] == Store(XorBlock(Apply(c, false, BlockAt(cipher, i / 8)), Chained(iv, cipher, i / 8)))[i % 8]
  }

  // ---------------------------------------------------------------------------------------------
  // Round trip.
  // ---------------------------------------------------------------------------------------------

  /** Decrypting an encryption, truncated to the plaintext's length, gives the plaintext back. */
  lemma RoundTrip(c: Cipher, iv: Block, m: seq<bv8>, cipher: seq<bv8>, out: seq<bv8>)
    requires IsEncryption(c, iv, m, cipher)
    requires |out| == |m| && IsDecryption(c, iv, cipher, out)
    ensures out == m
  {
    hide Apply, XorBlock, Store, LoadAt;
    forall i | 0 <= i < |m|
      ensures out[i] == m[i]
    {
      var j := i / 8;
      var x := Chained(iv, cipher, j);
      ApplyInverts(c, true, XorBlock(BlockAt(m, j), x));
      XorBlockCancels(BlockAt(m, j), x);
      StoreOfLoad(m, 8 * j, i % 8);
    }
  }

  /** An encryption is determined by cipher, initial vector and message. */
  lemma EncryptionUnique(c: Cipher, iv: Block, m: seq<bv8>, out: seq<bv8>, out': seq<bv8>)
    requires IsEncryption(c, iv, m, out) && IsEncryption(c, iv, m, out')
    ensures out == out'
  {
    hide Apply, XorBlock, LoadAt, Store;
    forall i | 0 <= i < |out|
      ensures out[i] == out'[i]
    {
      SameBlocks(c, iv, m, out, out', i / 8);
      StoreOfLoad(out, 8 * (i / 8), i % 8);
      StoreOfLoad(out', 8 * (i / 8), i % 8);
    }
  }

  lemma {:induction false} SameBlocks(c: Cipher, iv: Block, m: seq<bv8>, out: seq<bv8>, out': seq<bv8>, j: nat)
    requires IsEncryption(c, iv, m, out) && IsEncryption(c, iv, m, out')
    requires j < BlockCount(|m|)
    ensures BlockAt(out, j) == BlockAt(out', j)
  {
    hide Apply, XorBlock, BlockAt;
    if j > 0 {
      SameBlocks(c, iv, m, out, out', j - 1);
    }
  }

  // ---------------------------------------------------------------------------------------------
  // Chaining.
  // ---------------------------------------------------------------------------------------------

  /** The value left in ivec: the last ciphertext block. */
  function LastBlock(iv: Block, cipher: seq<bv8>): Block {
    Chained(iv, cipher, |cipher| / 8)
  }

  lemma BlockOfPrefix(a: seq<bv8>, b: seq<bv8>, j: nat)
    requires 8 * j + 8 <= |a|
    ensures BlockAt(a + b, j) == BlockAt(a, j)
  {
    hide LoadAt;
    LoadOfPrefix(a, b, 8 * j);
  }

  lemma BlockOfSuffix(a: seq<bv8>, b: seq<bv8>, j: nat)
    requires |a| % 8 == 0
    ensures BlockAt(a + b, |a| / 8 + j) == BlockAt(b, j)
  {
    hide LoadAt;
    LoadOfAppended(a, b, 8 * j);
  }

  lemma ChainedOfSuffix(iv: Block, a: seq<bv8>, b: seq<bv8>, j: nat)
    requires |a| % 8 == 0
    ensures Chained(iv, a + b, |a| / 8 + j) == Chained(LastBlock(iv, a), b, j)
  {
    hide BlockAt;
    if j > 0 {
      BlockOfSuffix(a, b, j - 1);
    } else if a != [] {
      BlockOfPrefix(a, b, |a| / 8 - 1);
    }
  }

  lemma CountOfWhole(n: nat, k: nat)
    ensures BlockCount(8 * n + k) == n + BlockCount(k) && BlockCount(0) == 0
  {
  }

  /** Two calls that share ivec encrypt like one, when the first ends on a block boundary. */
  lemma EncryptionsChain(c: Cipher, iv: Block, m: seq<bv8>, out: seq<bv8>, m': seq<bv8>, out': seq<bv8>)
    requires |m| % 8 == 0 && IsEncryption(c, iv, m, out)
    requires IsEncryption(c, LastBlock(iv, out), m', out')
    ensures IsEncryption(c, iv, m + m', out + out')
    ensures LastBlock(iv, out + out') == LastBlock(LastBlock(iv, out), out')
  {
    hide Apply, XorBlock, BlockAt, Chained, BlockCount;
    var n := |m| / 8;
    CountOfWhole(n, 0);
    CountOfWhole(n, |m'|);
    forall j | 0 <= j < BlockCount(|m + m'|)
      ensures BlockAt(out + out', j) == Apply(c, true, XorBlock(BlockAt(m + m', j), Chained(iv, out + out', j)))
    {
      if j < n {
        BlockOfPrefix(m, m', j);
        BlockOfPrefix(out, out', j);
        ChainedOfPrefix(iv, out, out', j);
      } else {
        BlockOfSuffix(m, m', j - n);
        BlockOfSuffix(out, out', j - n);
        ChainedOfSuffix(iv, out, out', j - n);
      }
    }
    ChainedOfSuffix(iv, out, out', |out'| / 8);
  }

  /** However a message is split on a block boundary, the calls produce what one call produces. */
  lemma SplitCallsAgree(
      c: Cipher, iv: Block, m: seq<bv8>, out: seq<bv8>, m': seq<bv8>, out': seq<bv8>, whole: seq<bv8>)
    requires |m| % 8 == 0 && IsEncryption(c, iv, m, out)
    requires IsEncryption(c, LastBlock(iv, out), m', out')
    requires IsEncryption(c, iv, m + m', whole)
    ensures whole == out + out'
    ensures LastBlock(iv, whole) == LastBlock(LastBlock(iv, out), out')
  {
    hide IsEncryption, LastBlock;
    EncryptionsChain(c, iv, m, out, m', out');
    EncryptionUnique(c, iv, m + m', whole, out + out');
  }

  lemma ChainedOfPrefix(iv: Block, a: seq<bv8>, b: seq<bv8>, j: nat)
    requires 8 * j <= |a|
    ensures Chained(iv, a + b, j) == Chained(iv, a, j)
  {
    hide BlockAt;
    if j > 0 {
      BlockOfPrefix(a, b, j - 1);
    }
  }

  /** The same for decryption. */
  lemma DecryptionsChain(c: Cipher, iv: Block, cipher: seq<bv8>, out: seq<bv8>, cipher': seq<bv8>, out': seq<bv8>)
    requires |out| % 8 == 0 && IsDecryption(c, iv, cipher, out)
    requires IsDecryption(c, LastBlock(iv, cipher), cipher', out')
    ensures IsDecryption(c, iv, cipher + cipher', out + out')
    ensures LastBlock(iv, cipher + cipher') == LastBlock(LastBlock(iv, cipher), cipher')
  {
    hide Apply, XorBlock, BlockAt, Chained, Store;
    var n := |out| / 8;
    forall i | 0 <= i < |out + out'|
      ensures (out + out')[i] == Store(XorBlock(Apply(c, false, BlockAt(cipher + cipher', i / 8)),
          Chained(iv, cipher + cipher', i / 8)))[i % 8]
    {
      if i < |out| {
        BlockOfPrefix(cipher, cipher', i / 8);
        ChainedOfPrefix(iv, cipher, cipher', i / 8);
      } else {
        BlockOfSuffix(cipher, cipher', i / 8 - n);
        ChainedOfSuffix(iv, cipher, cipher', i / 8 - n);
        assert (i - |out|) / 8 == i / 8 - n && (i - |out|) % 8 == i % 8;
      }
    }
    ChainedOfSuffix(iv, cipher, cipher', |cipher'| / 8);
  }

  /** The equations of decryption have one solution. */
  lemma DecryptionUnique(c: Cipher, iv: Block, cipher: seq<bv8>, out: seq<bv8>, out': seq<bv8>)
    requires IsDecryption(c, iv, cipher, out) && IsDecryption(c, iv, cipher, out') && |out| == |out'|
    ensures out == out'
  {
    hide Apply, XorBlock, BlockAt, Chained, Store;
    forall i | 0 <= i < |out|
      ensures out[i] == out'[i]
    {
    }
  }

  /** Two calls that share ivec decrypt like one, when the first ends on a block boundary. */
  lemma SplitDecryptionsAgree(
      c: Cipher, iv: Block, cipher: seq<bv8>, out: seq<bv8>, cipher': seq<bv8>, out': seq<bv8>, whole: seq<bv8>)
    requires |out| % 8 == 0 && IsDecryption(c, iv, cipher, out)
    requires IsDecryption(c, LastBlock(iv, cipher), cipher', out')
    requires IsDecryption(c, iv, cipher + cipher', whole) && |whole| == |out| + |out'|
    ensures whole == out + out'
    ensures LastBlock(iv, cipher + cipher') == LastBlock(LastBlock(iv, cipher), cipher')
  {
    hide IsDecryption, LastBlock;
    DecryptionsChain(c, iv, cipher, out, cipher', out');
    DecryptionUnique(c, iv, cipher + cipher', whole, out + out');
  }

  /** One block, whole or cut short. */
  lemma EncryptionOfOneBlock(c: Cipher, iv: Block, t: seq<bv8>)
    requires 0 < |t| <= 8
    ensures IsEncryption(c, iv, t, Store(Apply(c, true, XorBlock(LoadAt(t, 0), iv))))
    ensures LastBlock(iv, Store(Apply(c, true, XorBlock(LoadAt(t, 0), iv)))) ==
        Apply(c, true, XorBlock(LoadAt(t, 0), iv))
  {
    hide Apply, XorBlock, LoadAt, Store;
    LoadOfStore(Apply(c, true, XorBlock(LoadAt(t, 0), iv)));
  }

  lemma DecryptionOfOneBlock(c: Cipher, iv: Block, t: seq<bv8>, n: nat)
    requires |t| == 8 && 0 < n <= 8
    ensures IsDecryption(c, iv, t, Store(XorBlock(Apply(c, false, LoadAt(t, 0)), iv))[..n])
    ensures LastBlock(iv, t) == LoadAt(t, 0)
  {
    hide Apply, XorBlock, LoadAt, Store;
  }

  // ---------------------------------------------------------------------------------------------
  // The code.
  // ---------------------------------------------------------------------------------------------

  /** The call on tin: des_encrypt, des_encrypt3 or des_decrypt3. */
  method Transform(c: Cipher, tin: array<bv32>, encrypt: bool)
    requires tin.Length == 2
    modifies tin
    ensures Block(tin[0], tin[1]) == Apply(c, encrypt, Block(old(tin[0]), old(tin[1])))
  {
    hide Des, Des3, Des3Inverse;
    match c {
      case Single(sp, s) =>
        EncryptBlock(sp, tin, s, encrypt);
      case Triple(sp, s1, s2, s3) =>
        if encrypt {
          EncryptBlock3(sp, tin, s1, s2, s3);
        } else {
          DecryptBlock3(sp, tin, s1, s2, s3);
        }
    }
  }

  /** One encrypted block: tin is xored with the chaining value and transformed. */
  method EncryptChained(c: Cipher, b: Block, prev: Block) returns (out: Block)
    ensures out == Apply(c, true, XorBlock(b, prev))
  {
    hide Apply, Xor;
    var tin := new bv32[2];
    tin[0], tin[1] := Xor(b.w0, prev.w0), Xor(b.w1, prev.w1);
    Transform(c, tin, true);
    out := Block(tin[0], tin[1]);
  }

  /** One decrypted block: tin is transformed and xored with the chaining value. */
  method DecryptChained(c: Cipher, b: Block, prev: Block) returns (out: Block)
    ensures out == XorBlock(Apply(c, false, b), prev)
  {
    hide Apply, Xor;
    var tin := new bv32[2];
    tin[0], tin[1] := b.w0, b.w1;
    Transform(c, tin, false);
    out := Block(Xor(tin[0], prev.w0), Xor(tin[1], prev.w1));
  }

  /** The first n bytes of start are encrypted into out; tout is the last ciphertext block. */
  ghost predicate EncryptedUpTo(c: Cipher, iv: Block, start: seq<bv8>, out: seq<bv8>, n: nat, tout: Block) {
    && n <= |start| && 8 * BlockCount(n) <= |out|
    && IsEncryption(c, iv, start[..n], out[..8 * BlockCount(n)])
    && tout == LastBlock(iv, out[..8 * BlockCount(n)])
  }

  /** The first n bytes of out are decrypted from start; xor is the last ciphertext block. */
  ghost predicate DecryptedUpTo(c: Cipher, iv: Block, start: seq<bv8>, out: seq<bv8>, n: nat, xor: Block) {
    && 8 * BlockCount(n) <= |start| && n <= |out|
    && IsDecryption(c, iv, start[..8 * BlockCount(n)], out[..n])
    && xor == LastBlock(iv, start[..8 * BlockCount(n)])
  }

  ghost predicate SameFrom(a: seq<bv8>, b: seq<bv8>, i: nat) {
    |a| == |b| && i <= |a| && a[i..] == b[i..]
  }

  lemma SameFromGrows(a: seq<bv8>, b: seq<bv8>, a': seq<bv8>, i: nat, k: nat)
    requires SameFrom(a, b, i) && SameFrom(a', a, i + k)
    ensures SameFrom(a', b, i + k)
  {
    assert a[i..][k..] == a[i + k..] && b[i..][k..] == b[i + k..];
  }

  lemma SameSlice(a: seq<bv8>, b: seq<bv8>, i: nat, k: nat)
    requires SameFrom(a, b, i) && i + k <= |a|
    ensures a[i..i + k] == b[i..i + k]
  {
    assert a[i..][..k] == a[i..i + k] && b[i..][..k] == b[i..i + k];
  }

  lemma NothingDone(c: Cipher, iv: Block, start: seq<bv8>, out: seq<bv8>)
    ensures EncryptedUpTo(c, iv, start, out, 0, iv)
    ensures DecryptedUpTo(c, iv, start, out, 0, iv)
    ensures SameFrom(start, start, 0) && SameFrom(out, out, 0)
  {
  }

  /** What a turn of the encrypting loop adds. */
  lemma EncryptionGrows(
      c: Cipher, iv: Block, start: seq<bv8>, pos: nat, n: nat, out: seq<bv8>, prev: Block, out': seq<bv8>, tout: Block)
    requires pos % 8 == 0 && EncryptedUpTo(c, iv, start, out, pos, prev)
    requires 0 < n <= 8 && pos + n <= |start| && pos + 8 <= |out'|
    requires tout == Apply(c, true, XorBlock(LoadAt(start[pos..pos + n], 0), prev))
    requires out'[..pos + 8] == out[..pos] + Store(tout)
    ensures EncryptedUpTo(c, iv, start, out', pos + n, tout)
  {
    hide Apply, XorBlock, LoadAt, Store, IsEncryption, LastBlock;
    var t := start[pos..pos + n];
    EncryptionOfOneBlock(c, prev, t);
    EncryptionsChain(c, iv, start[..pos], out[..pos], t, Store(tout));
    assert start[..pos] + t == start[..pos + n];
  }

  /** What a turn of the decrypting loop adds. */
  lemma DecryptionGrows(
      c: Cipher, iv: Block, start: seq<bv8>, pos: nat, n: nat, out: seq<bv8>, prev: Block, out': seq<bv8>, tout: Block)
    requires pos % 8 == 0 && DecryptedUpTo(c, iv, start, out, pos, prev)
    requires 0 < n <= 8 && pos + 8 <= |start| && pos + n <= |out'|
    requires tout == XorBlock(Apply(c, false, LoadAt(start[pos..pos + 8], 0)), prev)
    requires out'[..pos + n] == out[..pos] + Store(tout)[..n]
    ensures DecryptedUpTo(c, iv, start, out', pos + n, LoadAt(start[pos..pos + 8], 0))
  {
    hide Apply, XorBlock, LoadAt, Store, IsDecryption, LastBlock;
    var t := start[pos..pos + 8];
    DecryptionOfOneBlock(c, prev, t, n);
    DecryptionsChain(c, iv, start[..pos], out[..pos], t, Store(tout)[..n]);
    assert start[..pos] + t == start[..pos + 8];
  }

  /** One turn on n bytes, where a short last block is read by c2ln. */
  method EncryptTurn(c: Cipher, input: array<bv8>, output: array<bv8>, pos: nat, n: nat,
      prev: Block) returns (tout: Block)
    requires 0 < n <= 8 && pos + n <= input.Length && pos + 8 <= output.Length
    modifies output
    ensures tout == Apply(c, true, XorBlock(LoadAt(old(input[pos..pos + n]), 0), prev))
    ensures output[..pos + 8] == old(output[..pos]) + Store(tout)
    ensures SameFrom(output[..], old(output[..]), pos + 8)
    ensures n == 8 ==> SameFrom(input[..], old(input[..]), pos + 8)
  {
    hide Apply, XorBlock, LoadAt, Store;
    var b: Block;
    if n == 8 {
      b := C2l(input, pos);
    } else {
      b := C2ln(input, pos, n);
    }
    tout := EncryptChained(c, b, prev);
    L2c(tout, output, pos);
  }

  /** One turn writing n bytes, where a short last block is written by l2cn. */
  method DecryptTurn(c: Cipher, input: array<bv8>, output: array<bv8>, pos: nat, n: nat,
      prev: Block) returns (tin: Block, ghost tout: Block)
    requires 0 < n <= 8 && pos + 8 <= input.Length && pos + n <= output.Length
    modifies output
    ensures tin == LoadAt(old(input[pos..pos + 8]), 0)
    ensures tout == XorBlock(Apply(c, false, tin), prev)
    ensures output[..pos + n] == old(output[..pos]) + Store(tout)[..n]
    ensures SameFrom(output[..], old(output[..]), pos + n)
    ensures n == 8 ==> SameFrom(input[..], old(input[..]), pos + 8)
  {
    hide Apply, XorBlock, LoadAt, Store;
    tin := C2l(input, pos);
    var out := DecryptChained(c, tin, prev);
    tout := out;
    if n == 8 {
      L2c(out, output, pos);
      assert Store(out)[..8] == Store(out);
    } else {
      L2cn(out, output, pos, n);
    }
  }

  /** The same turn, with what has been done before it: start and before are the buffers of the first. */
  method EncryptNext(
      c: Cipher, input: array<bv8>, output: array<bv8>, pos: nat, n: nat, prev: Block,
      ghost iv: Block, ghost start: seq<bv8>, ghost before: seq<bv8>)
    returns (tout: Block)
    requires 0 < n <= 8 && pos % 8 == 0 && pos + n <= input.Length && pos + 8 <= output.Length
    requires EncryptedUpTo(c, iv, start, output[..], pos, prev)
    requires SameFrom(input[..], start, pos) && SameFrom(output[..], before, pos)
    modifies output
    ensures EncryptedUpTo(c, iv, start, output[..], pos + n, tout)
    ensures SameFrom(output[..], before, pos + 8) && (n == 8 ==> SameFrom(input[..], start, pos + 8))
  {
    hide Apply, XorBlock, LoadAt, Store, EncryptedUpTo, SameFrom;
    ghost var was, wasInput := output[..], input[..];
    SameLength(wasInput, start, pos);
    SameSlice(wasInput, start, pos, n);
    tout := EncryptTurn(c, input, output, pos, n, prev);
    EncryptionGrows(c, iv, start, pos, n, was, prev, output[..], tout);
    SameFromGrows(was, before, output[..], pos, 8);
    if n == 8 {
      SameFromGrows(wasInput, start, input[..], pos, 8);
    }
  }

  method DecryptNext(
      c: Cipher, input: array<bv8>, output: array<bv8>, pos: nat, n: nat, prev: Block,
      ghost iv: Block, ghost start: seq<bv8>, ghost before: seq<bv8>)
    returns (tin: Block)
    requires 0 < n <= 8 && pos % 8 == 0 && pos + 8 <= input.Length && pos + n <= output.Length
    requires DecryptedUpTo(c, iv, start, output[..], pos, prev)
    requires SameFrom(input[..], start, pos) && SameFrom(output[..], before, pos)
    modifies output
    ensures DecryptedUpTo(c, iv, start, output[..], pos + n, tin)
    ensures SameFrom(output[..], before, pos + n) && (n == 8 ==> SameFrom(input[..], start, pos + 8))
  {
    hide Apply, XorBlock, LoadAt, Store, DecryptedUpTo, SameFrom;
    ghost var was, wasInput := output[..], input[..];
    SameLength(wasInput, start, pos);
    SameSlice(wasInput, start, pos, 8);
    ghost var tout;
    tin, tout := DecryptTurn(c, input, output, pos, n, prev);
    DecryptionGrows(c, iv, start, pos, n, was, prev, output[..], tout);
    SameFromGrows(was, before, output[..], pos, n);
    if n == 8 {
      SameFromGrows(wasInput, start, input[..], pos, 8);
    }
  }

  lemma SameLength(a: seq<bv8>, b: seq<bv8>, i: nat)
    requires SameFrom(a, b, i)
    ensures |a| == |b|
  {
  }

  /** The encrypting branch.  input and output may be the same buffer. */
  method EncryptBuffer(c: Cipher, input: array<bv8>, output: array<bv8>, length: nat, iv: Block) returns (tout: Block)
    requires length <= input.Length && 8 * BlockCount(length) <= output.Length
    modifies output
    ensures EncryptedUpTo(c, iv, old(input[..]), output[..], length, tout)
    ensures SameFrom(output[..], old(output[..]), 8 * BlockCount(length))
  {
    hide EncryptedUpTo, SameFrom;
    ghost var start, before := input[..], output[..];
    tout := iv;
    NothingDone(c, iv, start, before);
    var pos := 0;
    var l := length - 8;
    while l >= 0
      invariant pos % 8 == 0 && 0 <= pos <= length && l == length - pos - 8
      invariant EncryptedUpTo(c, iv, start, output[..], pos, tout)
      invariant SameFrom(input[..], start, pos) && SameFrom(output[..], before, pos)
    {
      tout := EncryptNext(c, input, output, pos, 8, tout, iv, start, before);
      pos := pos + 8;
      l := l - 8;
    }
    if l != -8 {
      tout := EncryptNext(c, input, output, pos, l + 8, tout, iv, start, before);
    }
  }

  /** The decrypting branch: whole blocks are read, the last one is written only as far as the
      length goes.  input and output may be the same buffer. */
  method DecryptBuffer(c: Cipher, input: array<bv8>, output: array<bv8>, length: nat, iv: Block) returns (xor: Block)
    requires 8 * BlockCount(length) <= input.Length && length <= output.Length
    modifies output
    ensures DecryptedUpTo(c, iv, old(input[..]), output[..], length, xor)
    ensures SameFrom(output[..], old(output[..]), length)
  {
    hide DecryptedUpTo, SameFrom;
    ghost var start, before := input[..], output[..];
    xor := iv;
    NothingDone(c, iv, start, before);
    var pos := 0;
    var l := length - 8;
    while l >= 0
      invariant pos % 8 == 0 && 0 <= pos <= length && l == length - pos - 8
      invariant DecryptedUpTo(c, iv, start, output[..], pos, xor)
      invariant SameFrom(input[..], start, pos) && SameFrom(output[..], before, pos)
    {
      xor := DecryptNext(c, input, output, pos, 8, xor, iv, start, before);
      pos := pos + 8;
      l := l - 8;
    }
    if l != -8 {
      xor := DecryptNext(c, input, output, pos, l + 8, xor, iv, start, before);
    }
  }

  /** The initial vector a buffer holds. */
  function VectorOf(ivec: seq<bv8>): Block
    requires |ivec| == 8
  {
    LoadAt(ivec, 0)
  }

  /** des_cbc_encrypt: the initial vector is left alone. */
  method CbcEncrypt(c: Cipher, input: array<bv8>, output: array<bv8>, length: nat, ivec: array<bv8>, encrypt: bool)
    requires c.Single? && ivec.Length == 8 && ivec != output
    requires encrypt ==> length <= input.Length && 8 * BlockCount(length) <= output.Length
    requires !encrypt ==> 8 * BlockCount(length) <= input.Length && length <= output.Length
    modifies output
    ensures encrypt ==>
      && IsEncryption(c, VectorOf(ivec[..]), old(input[..length]), output[..8 * BlockCount(length)])
      && SameFrom(output[..], old(output[..]), 8 * BlockCount(length))
    ensures !encrypt ==>
      && IsDecryption(c, VectorOf(ivec[..]), old(input[..8 * BlockCount(length)]), output[..length])
      && SameFrom(output[..], old(output[..]), length)
  {
    hide LoadAt, IsEncryption, IsDecryption, LastBlock;
    var iv := C2l(ivec, 0);
    assert ivec[0..8] == ivec[..];
    if encrypt {
      var _ := EncryptBuffer(c, input, output, length, iv);
      assert old(input[..])[..length] == old(input[..length]);
    } else {
      var _ := DecryptBuffer(c, input, output, length, iv);
      assert old(input[..])[..8 * BlockCount(length)] == old(input[..8 * BlockCount(length)]);
    }
  }

  /** des_ncbc_encrypt and des_ede3_cbc_encrypt: the last ciphertext block is written back to the
      initial vector, ready for the next call. */
  method NcbcEncrypt(c: Cipher, input: array<bv8>, output: array<bv8>, length: nat, ivec: array<bv8>, encrypt: bool)
    requires ivec.Length == 8 && ivec != output && ivec != input
    requires encrypt ==> length <= input.Length && 8 * BlockCount(length) <= output.Length
    requires !encrypt ==> 8 * BlockCount(length) <= input.Length && length <= output.Length
    modifies output, ivec
    ensures encrypt ==>
      && IsEncryption(c, VectorOf(old(ivec[..])), old(input[..length]), output[..8 * BlockCount(length)])
      && VectorOf(ivec[..]) == LastBlock(VectorOf(old(ivec[..])), output[..8 * BlockCount(length)])
      && SameFrom(output[..], old(output[..]), 8 * BlockCount(length))
    ensures !encrypt ==>
      && IsDecryption(c, VectorOf(old(ivec[..])), old(input[..8 * BlockCount(length)]), output[..length])
      && VectorOf(ivec[..]) == LastBlock(VectorOf(old(ivec[..])), old(input[..8 * BlockCount(length)]))
      && SameFrom(output[..], old(output[..]), length)
  {
    hide LoadAt, Store, IsEncryption, IsDecryption, LastBlock;
    var iv := C2l(ivec, 0);
    assert ivec[0..8] == ivec[..];
    var last: Block;
    if encrypt {
      last := EncryptBuffer(c, input, output, length, iv);
      assert old(input[..])[..length] == old(input[..length]);
    } else {
      last := DecryptBuffer(c, input, output, length, iv);
      assert old(input[..])[..8 * BlockCount(length)] == old(input[..8 * BlockCount(length)]);
    }
    L2c(last, ivec, 0);
    assert ivec[..] == ivec[..8] == Store(last);
    LoadOfStore(last);
  }

  /** Encrypting and then decrypting with equal initial vectors, in place in one buffer. */
  method RoundTripInPlace(c: Cipher, buf: array<bv8>, length: nat, ivec: array<bv8>, ivec': array<bv8>)
    requires 8 * BlockCount(length) <= buf.Length && ivec.Length == ivec'.Length == 8
    requires ivec[..] == ivec'[..] && ivec != buf && ivec' != buf && ivec != ivec'
    modifies buf, ivec, ivec'
    ensures buf[..length] == old(buf[..length])
    ensures VectorOf(ivec[..]) == VectorOf(ivec'[..])
  {
    hide LoadAt, Store, IsEncryption, IsDecryption, LastBlock, VectorOf;
    NcbcEncrypt(c, buf, buf, length, ivec, true);
    ghost var cipher := buf[..8 * BlockCount(length)];
    assert ivec'[..] == old(ivec'[..]);
    NcbcEncrypt(c, buf, buf, length, ivec', false);
    RoundTrip(c, VectorOf(old(ivec[..])), old(buf[..length]), cipher, buf[..length]);
  }
}
