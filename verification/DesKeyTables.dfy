/** sk.h: the eight tables that spread 28-bit key halves over the subkey words, and the one law of
    them that the complementation property needs.  A table is laid out as in the source, eight
    entries to a line. */
module DesKeyTables {

  datatype Eight = Eight(e0: bv32, e1: bv32, e2: bv32, e3: bv32, e4: bv32, e5: bv32, e6: bv32, e7: bv32) {
    function At(x: bv6): bv32 {
      if x & 7 == 0 then e0 else if x & 7 == 1 then e1 else if x & 7 == 2 then e2 else if x & 7 == 3 then e3
      else if x & 7 == 4 then e4 else if x & 7 == 5 then e5 else if x & 7 == 6 then e6 else e7
    }
  }

  datatype Table = Table(r0: Eight, r1: Eight, r2: Eight, r3: Eight, r4: Eight, r5: Eight, r6: Eight, r7: Eight) {
    function At(x: bv6): bv32 {
      if x >> 3 == 0 then r0.At(x) else if x >> 3 == 1 then r1.At(x) else if x >> 3 == 2 then r2.At(x)
      else if x >> 3 == 3 then r3.At(x) else if x >> 3 == 4 then r4.At(x) else if x >> 3 == 5 then r5.At(x)
      else if x >> 3 == 6 then r6.At(x) else r7.At(x)
    }
  }

  // C bits 1 2 3 4 5 6 (numbered as in FIPS PUB 46-3)
  const SKB0 := Table(
    Eight(0x00000000, 0x00000010, 0x20000000, 0x20000010, 0x00010000, 0x00010010, 0x20010000, 0x20010010),
    Eight(0x00000800, 0x00000810, 0x20000800, 0x20000810, 0x00010800, 0x00010810, 0x20010800, 0x20010810),
    Eight(0x00000020, 0x00000030, 0x20000020, 0x20000030, 0x00010020, 0x00010030, 0x20010020, 0x20010030),
    Eight(0x00000820, 0x00000830, 0x20000820, 0x20000830, 0x00010820, 0x00010830, 0x20010820, 0x20010830),
    Eight(0x00080000, 0x00080010, 0x20080000, 0x20080010, 0x00090000, 0x00090010, 0x20090000, 0x20090010),
    Eight(0x00080800, 0x00080810, 0x20080800, 0x20080810, 0x00090800, 0x00090810, 0x20090800, 0x20090810),
    Eight(0x00080020, 0x00080030, 0x20080020, 0x20080030, 0x00090020, 0x00090030, 0x20090020, 0x20090030),
    Eight(0x00080820, 0x00080830, 0x20080820, 0x20080830, 0x00090820, 0x00090830, 0x20090820, 0x20090830))

  // C bits 7 8 10 11 12 13 (numbered as in FIPS PUB 46-3)
  const SKB1 := Table(
    Eight(0x00000000, 0x02000000, 0x00002000, 0x02002000, 0x00200000, 0x02200000, 0x00202000, 0x02202000),
    Eight(0x00000004, 0x02000004, 0x00002004, 0x02002004, 0x00200004, 0x02200004, 0x00202004, 0x02202004),
    Eight(0x00000400, 0x02000400, 0x00002400, 0x02002400, 0x00200400, 0x02200400, 0x00202400, 0x02202400),
    Eight(0x00000404, 0x02000404, 0x00002404, 0x02002404, 0x00200404, 0x02200404, 0x00202404, 0x02202404),
    Eight(0x10000000, 0x12000000, 0x10002000, 0x12002000, 0x10200000, 0x12200000, 0x10202000, 0x12202000),
    Eight(0x10000004, 0x12000004, 0x10002004, 0x12002004, 0x10200004, 0x12200004, 0x10202004, 0x12202004),
    Eight(0x10000400, 0x12000400, 0x10002400, 0x12002400, 0x10200400, 0x12200400, 0x10202400, 0x12202400),
    Eight(0x10000404, 0x12000404, 0x10002404, 0x12002404, 0x10200404, 0x12200404, 0x10202404, 0x12202404))

  // C bits 14 15 16 17 19 20 (numbered as in FIPS PUB 46-3)
  const SKB2 := Table(
    Eight(0x00000000, 0x00000001, 0x00040000, 0x00040001, 0x01000000, 0x01000001, 0x01040000, 0x01040001),
    Eight(0x00000002, 0x00000003, 0x00040002, 0x00040003, 0x01000002, 0x01000003, 0x01040002, 0x01040003),
    Eight(0x00000200, 0x00000201, 0x00040200, 0x00040201, 0x01000200, 0x01000201, 0x01040200, 0x01040201),
    Eight(0x00000202, 0x00000203, 0x00040202, 0x00040203, 0x01000202, 0x01000203, 0x01040202, 0x01040203),
    Eight(0x08000000, 0x08000001, 0x08040000, 0x08040001, 0x09000000, 0x09000001, 0x09040000, 0x09040001),
    Eight(0x08000002, 0x08000003, 0x08040002, 0x08040003, 0x09000002, 0x09000003, 0x09040002, 0x09040003),
    Eight(0x08000200, 0x08000201, 0x08040200, 0x08040201, 0x09000200, 0x09000201, 0x09040200, 0x09040201),
    Eight(0x08000202, 0x08000203, 0x08040202, 0x08040203, 0x09000202, 0x09000203, 0x09040202, 0x09040203))

  // C bits 21 23 24 26 27 28 (numbered as in FIPS PUB 46-3)
  const SKB3 := Table(
    Eight(0x00000000, 0x00100000, 0x00000100, 0x00100100, 0x00000008, 0x00100008, 0x00000108, 0x00100108),
    Eight(0x00001000, 0x00101000, 0x00001100, 0x00101100, 0x00001008, 0x00101008, 0x00001108, 0x00101108),
    Eight(0x04000000, 0x04100000, 0x04000100, 0x04100100, 0x04000008, 0x04100008, 0x04000108, 0x04100108),
    Eight(0x04001000, 0x04101000, 0x04001100, 0x04101100, 0x04001008, 0x04101008, 0x04001108, 0x04101108),
    Eight(0x00020000, 0x00120000, 0x00020100, 0x00120100, 0x00020008, 0x00120008, 0x00020108, 0x00120108),
    Eight(0x00021000, 0x00121000, 0x00021100, 0x00121100, 0x00021008, 0x00121008, 0x00021108, 0x00121108),
    Eight(0x04020000, 0x04120000, 0x04020100, 0x04120100, 0x04020008, 0x04120008, 0x04020108, 0x04120108),
    Eight(0x04021000, 0x04121000, 0x04021100, 0x04121100, 0x04021008, 0x04121008, 0x04021108, 0x04121108))

  // D bits 1 2 3 4 5 6 (numbered as in FIPS PUB 46-3)
  const SKB4 := Table(
    Eight(0x00000000, 0x10000000, 0x00010000, 0x10010000, 0x00000004, 0x10000004, 0x00010004, 0x10010004),
    Eight(0x20000000, 0x30000000, 0x20010000, 0x30010000, 0x20000004, 0x30000004, 0x20010004, 0x30010004),
    Eight(0x00100000, 0x10100000, 0x00110000, 0x10110000, 0x00100004, 0x10100004, 0x00110004, 0x10110004),
    Eight(0x20100000, 0x30100000, 0x20110000, 0x30110000, 0x20100004, 0x30100004, 0x20110004, 0x30110004),
    Eight(0x00001000, 0x10001000, 0x00011000, 0x10011000, 0x00001004, 0x10001004, 0x00011004, 0x10011004),
    Eight(0x20001000, 0x30001000, 0x20011000, 0x30011000, 0x20001004, 0x30001004, 0x20011004, 0x30011004),
    Eight(0x00101000, 0x10101000, 0x00111000, 0x10111000, 0x00101004, 0x10101004, 0x00111004, 0x10111004),
    Eight(0x20101000, 0x30101000, 0x20111000, 0x30111000, 0x20101004, 0x30101004, 0x20111004, 0x30111004))

  // D bits 8 9 11 12 13 14 (numbered as in FIPS PUB 46-3)
  const SKB5 := Table(
    Eight(0x00000000, 0x08000000, 0x00000008, 0x08000008, 0x00000400, 0x08000400, 0x00000408, 0x08000408),
    Eight(0x00020000, 0x08020000, 0x00020008, 0x08020008, 0x00020400, 0x08020400, 0x00020408, 0x08020408),
    Eight(0x00000001, 0x08000001, 0x00000009, 0x08000009, 0x00000401, 0x08000401, 0x00000409, 0x08000409),
    Eight(0x00020001, 0x08020001, 0x00020009, 0x08020009, 0x00020401, 0x08020401, 0x00020409, 0x08020409),
    Eight(0x02000000, 0x0a000000, 0x02000008, 0x0a000008, 0x02000400, 0x0a000400, 0x02000408, 0x0a000408),
    Eight(0x02020000, 0x0a020000, 0x02020008, 0x0a020008, 0x02020400, 0x0a020400, 0x02020408, 0x0a020408),
    Eight(0x02000001, 0x0a000001, 0x02000009, 0x0a000009, 0x02000401, 0x0a000401, 0x02000409, 0x0a000409),
    Eight(0x02020001, 0x0a020001, 0x02020009, 0x0a020009, 0x02020401, 0x0a020401, 0x02020409, 0x0a020409))

  // D bits 16 17 18 19 20 21 (numbered as in FIPS PUB 46-3)
  const SKB6 := Table(
    Eight(0x00000000, 0x00000100, 0x00080000, 0x00080100, 0x01000000, 0x01000100, 0x01080000, 0x01080100),
    Eight(0x00000010, 0x00000110, 0x00080010, 0x00080110, 0x01000010, 0x01000110, 0x01080010, 0x01080110),
    Eight(0x00200000, 0x00200100, 0x00280000, 0x00280100, 0x01200000, 0x01200100, 0x01280000, 0x01280100),
    Eight(0x00200010, 0x00200110, 0x00280010, 0x00280110, 0x01200010, 0x01200110, 0x01280010, 0x01280110),
    Eight(0x00000200, 0x00000300, 0x00080200, 0x00080300, 0x01000200, 0x01000300, 0x01080200, 0x01080300),
    Eight(0x00000210, 0x00000310, 0x00080210, 0x00080310, 0x01000210, 0x01000310, 0x01080210, 0x01080310),
    Eight(0x00200200, 0x00200300, 0x00280200, 0x00280300, 0x01200200, 0x01200300, 0x01280200, 0x01280300),
    Eight(0x00200210, 0x00200310, 0x00280210, 0x00280310, 0x01200210, 0x01200310, 0x01280210, 0x01280310))

  // D bits 22 23 24 25 27 28 (numbered as in FIPS PUB 46-3)
  const SKB7 := Table(
    Eight(0x00000000, 0x04000000, 0x00040000, 0x04040000, 0x00000002, 0x04000002, 0x00040002, 0x04040002),
    Eight(0x00002000, 0x04002000, 0x00042000, 0x04042000, 0x00002002, 0x04002002, 0x00042002, 0x04042002),
    Eight(0x00000020, 0x04000020, 0x00040020, 0x04040020, 0x00000022, 0x04000022, 0x00040022, 0x04040022),
    Eight(0x00002020, 0x04002020, 0x00042020, 0x04042020, 0x00002022, 0x04002022, 0x00042022, 0x04042022),
    Eight(0x00000800, 0x04000800, 0x00040800, 0x04040800, 0x00000802, 0x04000802, 0x00040802, 0x04040802),
    Eight(0x00002800, 0x04002800, 0x00042800, 0x04042800, 0x00002802, 0x04002802, 0x00042802, 0x04042802),
    Eight(0x00000820, 0x04000820, 0x00040820, 0x04040820, 0x00000822, 0x04000822, 0x00040822, 0x04040822),
    Eight(0x00002820, 0x04002820, 0x00042820, 0x04042820, 0x00002822, 0x04002822, 0x00042822, 0x04042822))

  /** A table whose entries stay inside the bits of its last entry, and whose entry at the
      complement of an index is the complement of the entry inside those bits. */
  ghost predicate Complements(t: Table, mask: bv32, x: bv6) {
    t.At(!x) == t.At(x) ^ mask && t.At(x) & !mask == 0
  }

  lemma Skb0Complements(x: bv6)
    ensures Complements(SKB0, 0x20090830, x)
  {
  }

  lemma Skb1Complements(x: bv6)
    ensures Complements(SKB1, 0x12202404, x)
  {
  }

  lemma Skb2Complements(x: bv6)
    ensures Complements(SKB2, 0x09040203, x)
  {
  }

  lemma Skb3Complements(x: bv6)
    ensures Complements(SKB3, 0x04121108, x)
  {
  }

  lemma Skb4Complements(x: bv6)
    ensures Complements(SKB4, 0x30111004, x)
  {
  }

  lemma Skb5Complements(x: bv6)
    ensures Complements(SKB5, 0x0a020409, x)
  {
  }

  lemma Skb6Complements(x: bv6)
    ensures Complements(SKB6, 0x01280310, x)
  {
  }

  lemma Skb7Complements(x: bv6)
    ensures Complements(SKB7, 0x04042822, x)
  {
  }
}
