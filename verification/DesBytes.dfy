/** The byte macros of des_locl.h on buffers: c2l and c2ln load a block, l2c and l2cn store one. */
module DesBytes {
  import opened DesWords
  import opened DesKeySchedule

  /** The i-th byte of m, zero past its end: c2ln leaves the missing bytes of a short block zero. */
  function ByteAt(m: seq<bv8>, i: nat): bv8 {
    if i < |m| then m[i] else 0
  }

  /** The eight bytes of m from position i on, as a block. */
  function LoadAt(m: seq<bv8>, i: nat): Block {
    Block(
      LoadWord(ByteAt(m, i), ByteAt(m, i + 1), ByteAt(m, i + 2), ByteAt(m, i + 3)),
      LoadWord(ByteAt(m, i + 4), ByteAt(m, i + 5), ByteAt(m, i + 6), ByteAt(m, i + 7)))
  }

  /** The k-th byte l2c stores for the word w. */
  function StoredByte(w: bv32, k: nat): bv8
    requires k < 4
  {
    if k == 0 then (w & 0xff) as bv8
    else if k == 1 then ((w >> 8) & 0xff) as bv8
    else if k == 2 then ((w >> 16) & 0xff) as bv8
    else ((w >> 24) & 0xff) as bv8
  }

  /** The bytes l2c stores for a block. */
  function Store(b: Block): (s: seq<bv8>)
    ensures |s| == 8
  {
    [StoredByte(b.w0, 0), StoredByte(b.w0, 1), StoredByte(b.w0, 2), StoredByte(b.w0, 3),
     StoredByte(b.w1, 0), StoredByte(b.w1, 1), StoredByte(b.w1, 2), StoredByte(b.w1, 3)]
  }

  lemma StoredByteOfLoad(b0: bv8, b1: bv8, b2: bv8, b3: bv8)
    ensures StoredByte(LoadWord(b0, b1, b2, b3), 0) == b0
    ensures StoredByte(LoadWord(b0, b1, b2, b3), 1) == b1
    ensures StoredByte(LoadWord(b0, b1, b2, b3), 2) == b2
    ensures StoredByte(LoadWord(b0, b1, b2, b3), 3) == b3
  {
  }

  lemma LoadOfStoredBytes(w: bv32)
    ensures LoadWord(StoredByte(w, 0), StoredByte(w, 1), StoredByte(w, 2), StoredByte(w, 3)) == w
  {
  }

  /** Storing a loaded block gives its bytes back. */
  lemma StoreOfLoad(m: seq<bv8>, i: nat, k: nat)
    requires k < 8
    ensures Store(LoadAt(m, i))[k] == ByteAt(m, i + k)
  {
    hide StoredByte, LoadWord, ByteAt;
    StoredByteOfLoad(ByteAt(m, i), ByteAt(m, i + 1), ByteAt(m, i + 2), ByteAt(m, i + 3));
    StoredByteOfLoad(ByteAt(m, i + 4), ByteAt(m, i + 5), ByteAt(m, i + 6), ByteAt(m, i + 7));
  }

  /** Loading a stored block gives its words back. */
  lemma LoadOfStore(b: Block)
    ensures LoadAt(Store(b), 0) == b
  {
    hide StoredByte, LoadWord;
    LoadOfStoredBytes(b.w0);
    LoadOfStoredBytes(b.w1);
  }

  /** A block depends on its eight bytes only. */
  lemma LoadShift(m: seq<bv8>, i: nat, m': seq<bv8>, i': nat)
    requires forall j :: i <= j < i + 8 ==> ByteAt(m, j) == ByteAt(m', j - i + i')
    ensures LoadAt(m, i) == LoadAt(m', i')
  {
    hide LoadWord, ByteAt;
  }

  lemma LoadOfAppended(m: seq<bv8>, t: seq<bv8>, i: nat)
    ensures LoadAt(m + t, |m| + i) == LoadAt(t, i)
  {
    hide LoadAt;
    LoadShift(m + t, |m| + i, t, i);
  }

  lemma LoadOfPrefix(m: seq<bv8>, t: seq<bv8>, i: nat)
    requires i + 8 <= |m|
    ensures LoadAt(m + t, i) == LoadAt(m, i)
  {
    hide LoadAt;
    LoadShift(m + t, i, m, i);
  }

  // ---------------------------------------------------------------------------------------------
  // The macros on buffers.
  // ---------------------------------------------------------------------------------------------

  /** c2l twice. */
  method C2l(buf: array<bv8>, pos: nat) returns (b: Block)
    requires pos + 8 <= buf.Length
    ensures b == LoadAt(buf[pos..pos + 8], 0)
  {
    hide LoadWord;
    b := Block(
      LoadWord(buf[pos], buf[pos + 1], buf[pos + 2], buf[pos + 3]),
      LoadWord(buf[pos + 4], buf[pos + 5], buf[pos + 6], buf[pos + 7]));
  }

  /** l2c twice. */
  method L2c(b: Block, buf: array<bv8>, pos: nat)
    requires pos + 8 <= buf.Length
    modifies buf
    ensures buf[..pos + 8] == old(buf[..pos]) + Store(b)
    ensures buf[pos + 8..] == old(buf[pos + 8..])
  {
    hide StoredByte;
    var s := Store(b);
    for k := 0 to 8
      invariant forall i :: 0 <= i < pos ==> buf[i] == old(buf[i])
      invariant forall i :: 0 <= i < k ==> buf[pos + i] == s[i]
      invariant forall i :: pos + 8 <= i < buf.Length ==> buf[i] == old(buf[i])
    {
      buf[pos + k] := s[k];
    }
  }

  /** l2cn: the first n bytes of the block only, last byte first. */
  method L2cn(b: Block, buf: array<bv8>, pos: nat, n: nat)
    requires n <= 8 && pos + n <= buf.Length
    modifies buf
    ensures buf[..pos + n] == old(buf[..pos]) + Store(b)[..n]
    ensures buf[pos + n..] == old(buf[pos + n..])
  {
    hide StoredByte;
    var s := Store(b);
    for k := n downto 0
      invariant forall i :: 0 <= i < pos ==> buf[i] == old(buf[i])
      invariant forall i :: k <= i < n ==> buf[pos + i] == s[i]
      invariant forall i :: pos + n <= i < buf.Length ==> buf[i] == old(buf[i])
    {
      buf[pos + k] := s[k];
    }
  }

  /** A word gathered from its highest byte down. */
  function FromTheTop(b3: bv8, b2: bv8, b1: bv8, b0: bv8): bv32 {
    var w := (b3 as bv32) << 24;
    var w := w | ((b2 as bv32) << 16);
    var w := w | ((b1 as bv32) << 8);
    w | (b0 as bv32)
  }

  lemma OrFromTheTop(b0: bv8, b1: bv8, b2: bv8, b3: bv8)
    ensures FromTheTop(b3, b2, b1, b0) == LoadWord(b0, b1, b2, b3)
  {
  }

  /** One word of c2ln: the bytes a switch with fall-through reaches for a word of which n bytes
      are left, the others staying zero. */
  method C2lnWord(buf: array<bv8>, pos: nat, n: nat) returns (w: bv32)
    requires n <= 4 && pos + n <= buf.Length
    ensures var t := buf[pos..pos + n]; w == LoadWord(ByteAt(t, 0), ByteAt(t, 1), ByteAt(t, 2), ByteAt(t, 3))
  {
    var b3: bv8 := if n >= 4 then buf[pos + 3] else 0;
    var b2: bv8 := if n >= 3 then buf[pos + 2] else 0;
    var b1: bv8 := if n >= 2 then buf[pos + 1] else 0;
    var b0: bv8 := if n >= 1 then buf[pos] else 0;
    hide LoadWord, FromTheTop;
    w := FromTheTop(b3, b2, b1, b0);
    OrFromTheTop(b0, b1, b2, b3);
  }

  /** c2ln: a block of which n bytes are left in the buffer. */
  method C2ln(buf: array<bv8>, pos: nat, n: nat) returns (b: Block)
    requires n <= 8 && pos + n <= buf.Length
    ensures b == LoadAt(buf[pos..pos + n], 0)
  {
    hide LoadWord;
    var w0 := C2lnWord(buf, pos, if n <= 4 then n else 4);
    var w1 := C2lnWord(buf, if n <= 4 then pos else pos + 4, if n <= 4 then 0 else n - 4);
    b := Block(w0, w1);
  }
}
