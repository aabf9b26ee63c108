/** The word and byte operations of des_locl.h on 32-bit words: the bit swaps IP and FP, the
    rotations, and the little-endian byte loads and stores.  The macros are expanded in place, as
    the C preprocessor does. */
module DesWords {

  /** All thirty-two bits exchanged. */
  function Flip(x: bv32): bv32 {
    !x
  }

  function Xor(x: bv32, y: bv32): bv32 {
    x ^ y
  }

  /** The two words of a block, in memory order: data[0] and data[1]. */
  datatype Block = Block(w0: bv32, w1: bv32) {
    function Not(): Block {
      Block(!w0, !w1)
    }

    function Swap(): Block {
      Block(w1, w0)
    }
  }

  lemma NotOnWords(w0: bv32, w1: bv32)
    ensures Block(w0, w1).Not() == Block(Flip(w0), Flip(w1))
  {
  }

  lemma SwapNot(b: Block)
    ensures b.Not().Swap() == b.Swap().Not()
  {
  }

  const ZERO_BLOCK := Block(0, 0)

  // PERM_OP(a, b, t, n, m) exchanges the bits of b under m with those of a n places higher.  These
  // are its five instances in IP(l, r), with l = b.w0 and r = b.w1.

  function Exchange4(b: Block): Block {
    var t := ((b.w1 >> 4) ^ b.w0) & 0x0f0f0f0f;
    Block(b.w0 ^ t, b.w1 ^ (t << 4))
  }

  function Exchange16(b: Block): Block {
    var t := ((b.w0 >> 16) ^ b.w1) & 0x0000ffff;
    Block(b.w0 ^ (t << 16), b.w1 ^ t)
  }

  function Exchange2(b: Block): Block {
    var t := ((b.w1 >> 2) ^ b.w0) & 0x33333333;
    Block(b.w0 ^ t, b.w1 ^ (t << 2))
  }

  function Exchange8(b: Block): Block {
    var t := ((b.w0 >> 8) ^ b.w1) & 0x00ff00ff;
    Block(b.w0 ^ (t << 8), b.w1 ^ t)
  }

  function Exchange1(b: Block): Block {
    var t := ((b.w1 >> 1) ^ b.w0) & 0x55555555;
    Block(b.w0 ^ t, b.w1 ^ (t << 1))
  }

  /** IP(l, r) with l = b.w0 and r = b.w1. */
  function Ip(b: Block): Block {
    Exchange1(Exchange8(Exchange2(Exchange16(Exchange4(b)))))
  }

  /** FP(l, r) with l = b.w0 and r = b.w1: the same PERM_OPs, last first, on exchanged arguments. */
  function Fp(b: Block): Block {
    Exchange4(Exchange16(Exchange2(Exchange8(Exchange1(b.Swap()))))).Swap()
  }

  // Exchanging twice restores the block; exchanging commutes with complementing it.

  lemma Exchange4Twice(b: Block)
    ensures Exchange4(Exchange4(b)) == b
  {
  }

  lemma Exchange4Not0(b: Block)
    ensures Exchange4(b.Not()).w0 == Exchange4(b).Not().w0
  {
  }

  lemma Exchange4Not1(b: Block)
    ensures Exchange4(b.Not()).w1 == Exchange4(b).Not().w1
  {
  }

  lemma Exchange4Not(b: Block)
    ensures Exchange4(b.Not()) == Exchange4(b).Not()
  {
    hide Exchange4, Block.Not;
    Exchange4Not0(b);
    Exchange4Not1(b);
  }

  lemma Exchange16Twice(b: Block)
    ensures Exchange16(Exchange16(b)) == b
  {
  }

  lemma Exchange16Not0(b: Block)
    ensures Exchange16(b.Not()).w0 == Exchange16(b).Not().w0
  {
  }

  lemma Exchange16Not1(b: Block)
    ensures Exchange16(b.Not()).w1 == Exchange16(b).Not().w1
  {
  }

  lemma Exchange16Not(b: Block)
    ensures Exchange16(b.Not()) == Exchange16(b).Not()
  {
    hide Exchange16, Block.Not;
    Exchange16Not0(b);
    Exchange16Not1(b);
  }

  lemma Exchange2Twice(b: Block)
    ensures Exchange2(Exchange2(b)) == b
  {
  }

  lemma Exchange2Not0(b: Block)
    ensures Exchange2(b.Not()).w0 == Exchange2(b).Not().w0
  {
  }

  lemma Exchange2Not1(b: Block)
    ensures Exchange2(b.Not()).w1 == Exchange2(b).Not().w1
  {
  }

  lemma Exchange2Not(b: Block)
    ensures Exchange2(b.Not()) == Exchange2(b).Not()
  {
    hide Exchange2, Block.Not;
    Exchange2Not0(b);
    Exchange2Not1(b);
  }

  lemma Exchange8Twice(b: Block)
    ensures Exchange8(Exchange8(b)) == b
  {
  }

  lemma Exchange8Not0(b: Block)
    ensures Exchange8(b.Not()).w0 == Exchange8(b).Not().w0
  {
  }

  lemma Exchange8Not1(b: Block)
    ensures Exchange8(b.Not()).w1 == Exchange8(b).Not().w1
  {
  }

  lemma Exchange8Not(b: Block)
    ensures Exchange8(b.Not()) == Exchange8(b).Not()
  {
    hide Exchange8, Block.Not;
    Exchange8Not0(b);
    Exchange8Not1(b);
  }

  lemma Exchange1Twice(b: Block)
    ensures Exchange1(Exchange1(b)) == b
  {
  }

  lemma Exchange1Not0(b: Block)
    ensures Exchange1(b.Not()).w0 == Exchange1(b).Not().w0
  {
  }

  lemma Exchange1Not1(b: Block)
    ensures Exchange1(b.Not()).w1 == Exchange1(b).Not().w1
  {
  }

  lemma Exchange1Not(b: Block)
    ensures Exchange1(b.Not()) == Exchange1(b).Not()
  {
    hide Exchange1, Block.Not;
    Exchange1Not0(b);
    Exchange1Not1(b);
  }

  /** FP with its arguments exchanged undoes IP: every caller of FP writes FP(r, l). */
  lemma FpUndoesIp(b: Block)
    ensures Fp(Ip(b).Swap()).Swap() == b
  {
    hide Exchange1, Exchange2, Exchange4, Exchange8, Exchange16;
    Exchange1Twice(Exchange8(Exchange2(Exchange16(Exchange4(b)))));
    Exchange8Twice(Exchange2(Exchange16(Exchange4(b))));
    Exchange2Twice(Exchange16(Exchange4(b)));
    Exchange16Twice(Exchange4(b));
    Exchange4Twice(b);
  }

  lemma IpUndoesFp(b: Block)
    ensures Ip(Fp(b.Swap()).Swap()) == b
  {
    hide Exchange1, Exchange2, Exchange4, Exchange8, Exchange16;
    Exchange4Twice(Exchange16(Exchange2(Exchange8(Exchange1(b)))));
    Exchange16Twice(Exchange2(Exchange8(Exchange1(b))));
    Exchange2Twice(Exchange8(Exchange1(b)));
    Exchange8Twice(Exchange1(b));
    Exchange1Twice(b);
  }

  lemma IpNot(b: Block)
    ensures Ip(b.Not()) == Ip(b).Not()
  {
    hide Exchange1, Exchange2, Exchange4, Exchange8, Exchange16, Block.Not;
    Exchange4Not(b);
    Exchange16Not(Exchange4(b));
    Exchange2Not(Exchange16(Exchange4(b)));
    Exchange8Not(Exchange2(Exchange16(Exchange4(b))));
    Exchange1Not(Exchange8(Exchange2(Exchange16(Exchange4(b)))));
  }

  lemma FpNot(b: Block)
    ensures Fp(b.Not()) == Fp(b).Not()
  {
    hide Exchange1, Exchange2, Exchange4, Exchange8, Exchange16, Block.Not, Block.Swap;
    var s := b.Swap();
    SwapNot(b);
    Exchange1Not(s);
    Exchange8Not(Exchange1(s));
    Exchange2Not(Exchange8(Exchange1(s)));
    Exchange16Not(Exchange2(Exchange8(Exchange1(s))));
    Exchange4Not(Exchange16(Exchange2(Exchange8(Exchange1(s)))));
    SwapNot(Exchange4(Exchange16(Exchange2(Exchange8(Exchange1(s))))));
  }

  // ROTATE(a, n) for the counts the library uses.

  function Rotate29(a: bv32): bv32 {
    (a >> 29) + (a << 3)
  }

  function Rotate3(a: bv32): bv32 {
    (a >> 3) + (a << 29)
  }

  function Rotate4(a: bv32): bv32 {
    (a >> 4) + (a << 28)
  }

  function Rotate30(a: bv32): bv32 {
    (a >> 30) + (a << 2)
  }

  function Rotate26(a: bv32): bv32 {
    (a >> 26) + (a << 6)
  }

  lemma RotationsCancel(a: bv32)
    ensures Rotate3(Rotate29(a)) == a
    ensures Rotate29(Rotate3(a)) == a
  {
  }

  lemma Rotate29NotBits(a: bv32)
    ensures Rotate29(!a) == !Rotate29(a)
  {
  }

  lemma Rotate3NotBits(a: bv32)
    ensures Rotate3(!a) == !Rotate3(a)
  {
  }

  lemma RotateNot(a: bv32)
    ensures Rotate29(Flip(a)) == Flip(Rotate29(a))
    ensures Rotate3(Flip(a)) == Flip(Rotate3(a))
  {
    hide Rotate29, Rotate3;
    Rotate29NotBits(a);
    Rotate3NotBits(a);
  }
}
