/** rtu_write.cpp, dev_sictrl.cpp and rtu_read.cpp: the frames that go to a box.  The device at the
    other end is a table of registers that obeys "Write Multiple registers", section 6.12 of the
    MODBUS Application Protocol Specification V1.1b3. */
module RtuFrames {
  import opened ModbusCrc

  const REGISTERS := 350

  type Ushort = n: nat | n < 0x10000

  /** The bytes of a value, as the builders take them apart. */
  function Hi(n: Ushort): bv8 {
    (n / 256) as bv8
  }

  function Lo(n: Ushort): bv8 {
    (n % 256) as bv8
  }

  /** The value of two bytes, as the readers put them together. */
  function U16(high: bv8, low: bv8): Ushort {
    high as int * 256 + low as int
  }

  lemma ByteBack(b: bv8)
    ensures b as int as bv8 == b
  {
  }

  lemma NextByte(b: bv8)
    requires b as int < 255
    ensures (b + 1) as int == b as int + 1
  {
  }

  /** The byte of a value, counted up to. */
  ghost function ByteOf(n: nat): (b: bv8)
    requires n < 256
    ensures b as int == n
  {
    if n == 0 then 0 else
      var c := ByteOf(n - 1);
      NextByte(c);
      c + 1
  }

  lemma ByteValue(n: nat)
    requires n < 256
    ensures n as bv8 as int == n
  {
    ByteBack(ByteOf(n));
  }

  lemma U16OfBytes(n: Ushort)
    ensures U16(Hi(n), Lo(n)) == n
  {
    ByteValue(n / 256);
    ByteValue(n % 256);
  }

  /** The bytes of register values, high byte first. */
  function Payload(vals: seq<Ushort>): (m: seq<bv8>)
    ensures |m| == 2 * |vals|
  {
    seq(2 * |vals|, k requires 0 <= k < 2 * |vals| => if k % 2 == 0 then Hi(vals[k / 2]) else Lo(vals[k / 2]))
  }

  function Header(addr: bv8, fn: bv8, reg: Ushort, num: Ushort): seq<bv8> {
    [addr, fn, Hi(reg), Lo(reg), Hi(num), Lo(num), Lo(num * 2 % 0x10000)]
  }

  /** A write request: address, function, first register, count, byte count, values, CRC. */
  function WriteFrame(addr: bv8, fn: bv8, reg: Ushort, num: Ushort, vals: seq<Ushort>): (f: seq<bv8>)
    ensures |f| == 9 + 2 * |vals|
  {
    WithCrc(Header(addr, fn, reg, num) + Payload(vals))
  }

  // ---------------------------------------------------------------------------------------------
  // The frame builders.
  // ---------------------------------------------------------------------------------------------

  /** The end of every builder: the CRC of the first n bytes behind them. */
  method PutCrc(buf: array<bv8>, n: nat)
    requires n + 2 <= buf.Length
    modifies buf
    ensures buf[..n + 2] == WithCrc(old(buf[..n]))
    ensures buf[n + 2..] == old(buf[n + 2..])
  {
    hide Crc, LowByte, HighByte;
    var crc := RtuCrc(buf, n);
    ghost var m := buf[..n];
    buf[n] := LowByte(crc);
    buf[n + 1] := HighByte(crc);
    assert buf[..n + 2] == m + [LowByte(crc), HighByte(crc)];
  }

  /** The bytes every write request starts with. */
  method PutHeader(buf: array<bv8>, addr: bv8, fn: bv8, reg: Ushort, num: Ushort)
    requires buf.Length >= 7
    modifies buf
    ensures buf[..7] == Header(addr, fn, reg, num)
    ensures buf[7..] == old(buf[7..])
  {
    hide Lo, Hi;
    buf[0] := addr;
    buf[1] := fn;
    buf[2] := Hi(reg);
    buf[3] := Lo(reg);
    buf[4] := Hi(num);
    buf[5] := Lo(num);
    buf[6] := Lo(num * 2 % 0x10000);
  }

  /** One value, high byte first. */
  method PutWord(buf: array<bv8>, pos: nat, val: Ushort)
    requires pos + 2 <= buf.Length
    modifies buf
    ensures buf[..pos + 2] == old(buf[..pos]) + [Hi(val), Lo(val)]
    ensures buf[pos + 2..] == old(buf[pos + 2..])
  {
    hide Lo, Hi;
    buf[pos] := Hi(val);
    buf[pos + 1] := Lo(val);
  }

  lemma OneWord(v: Ushort)
    ensures Payload([v]) == [Hi(v), Lo(v)]
  {
    hide Lo, Hi;
  }

  /** rtu_write_packet. */
  method BuildSingle(buf: array<bv8>, addr: bv8, fn: bv8, reg: Ushort, num: Ushort, val: Ushort) returns (len: nat)
    requires buf.Length >= 11
    modifies buf
    ensures len == 11 && buf[..len] == WriteFrame(addr, fn, reg, num, [val])
  {
    hide Lo, Hi, Crc, Payload, Header, WithCrc;
    PutHeader(buf, addr, fn, reg, num);
    PutWord(buf, 7, val);
    OneWord(val);
    assert buf[..9] == Header(addr, fn, reg, num) + Payload([val]);
    PutCrc(buf, 9);
    len := 11;
  }

  /** rtu_sent_packet_ushort_V3. */
  method BuildUshort(buf: array<bv8>, addr: bv8, fn: bv8, reg: Ushort, num: Ushort, val1: Ushort, val2: Ushort)
    returns (len: nat)
    requires buf.Length >= 13
    modifies buf
    ensures len == 13 && buf[..len] == WriteFrame(addr, fn, reg, num, [val1, val2])
  {
    hide Lo, Hi, Crc, Payload, Header, WithCrc;
    PutHeader(buf, addr, fn, reg, num);
    PutWord(buf, 7, val1);
    PutWord(buf, 9, val2);
    TwoWords(val1, val2);
    assert buf[..11] == Header(addr, fn, reg, num) + Payload([val1, val2]);
    PutCrc(buf, 11);
    len := 13;
  }

  lemma TwoWords(v1: Ushort, v2: Ushort)
    ensures Payload([v1, v2]) == [Hi(v1), Lo(v1)] + [Hi(v2), Lo(v2)]
  {
    hide Lo, Hi;
  }

  /** rtu_sent_packet_uint_V3. */
  method BuildUint(
      buf: array<bv8>, addr: bv8, fn: bv8, reg: Ushort, num: Ushort, val1: Ushort, val2: Ushort, val3: Ushort,
          val4: Ushort)
    returns (len: nat)
    requires buf.Length >= 17
    modifies buf
    ensures len == 17 && buf[..len] == WriteFrame(addr, fn, reg, num, [val1, val2, val3, val4])
  {
    hide Lo, Hi, Crc, Payload, Header, WithCrc;
    PutHeader(buf, addr, fn, reg, num);
    PutWord(buf, 7, val1);
    PutWord(buf, 9, val2);
    PutWord(buf, 11, val3);
    PutWord(buf, 13, val4);
    FourWords(val1, val2, val3, val4);
    assert buf[..15] == Header(addr, fn, reg, num) + Payload([val1, val2, val3, val4]);
    PutCrc(buf, 15);
    len := 17;
  }

  lemma FourWords(v1: Ushort, v2: Ushort, v3: Ushort, v4: Ushort)
    ensures Payload([v1, v2, v3, v4]) ==
            [Hi(v1), Lo(v1)] + [Hi(v2), Lo(v2)] + [Hi(v3), Lo(v3)] +
            [Hi(v4), Lo(v4)]
  {
    hide Lo, Hi;
  }

  // ---------------------------------------------------------------------------------------------
  // The device.
  // ---------------------------------------------------------------------------------------------

  function WordAt(m: seq<bv8>, p: nat): Ushort
    requires p + 1 < |m|
  {
    U16(m[p], m[p + 1])
  }

  /** The address that every device takes for its own, section 2.2 of the MODBUS over Serial Line
      Specification V1.02. */
  const BROADCAST: bv8 := 0

  /** A request the device at box obeys: its own address or that of all, correct CRC, function 0x10,
      consistent counts, registers it has. */
  predicate Obeyed(box: bv8, registers: nat, frame: seq<bv8>) {
    && |frame| >= 9 && (frame[0] == box || frame[0] == BROADCAST) && Accepted(frame) && frame[1] == 0x10
    && var num := WordAt(frame, 4);
       && num > 0 && |frame| == 9 + 2 * num && frame[6] as int == 2 * num
       && WordAt(frame, 2) + num <= registers
  }

  function RegisterAfter(box: bv8, regs: seq<Ushort>, frame: seq<bv8>, r: nat): Ushort
    requires Obeyed(box, |regs|, frame) && r < |regs|
  {
    var first, num := WordAt(frame, 2), WordAt(frame, 4);
    if first <= r < first + num then WordAt(frame, 7 + 2 * (r - first)) else regs[r]
  }

  /** The registers of the device at box after a request on the line. */
  function Apply(box: bv8, regs: seq<Ushort>, frame: seq<bv8>): (out: seq<Ushort>)
    ensures |out| == |regs|
  {
    if !Obeyed(box, |regs|, frame) then regs
    else seq(|regs|, r requires 0 <= r < |regs| => RegisterAfter(box, regs, frame, r))
  }

  /** regs with vals stored from register first on. */
  function Stored(regs: seq<Ushort>, first: nat, vals: seq<Ushort>): seq<Ushort>
    requires first + |vals| <= |regs|
  {
    regs[..first] + vals + regs[first + |vals|..]
  }

  lemma StoredAt(regs: seq<Ushort>, first: nat, vals: seq<Ushort>, r: nat)
    requires first + |vals| <= |regs| && r < |regs|
    ensures |Stored(regs, first, vals)| == |regs|
    ensures Stored(regs, first, vals)[r] == if first <= r < first + |vals| then vals[r - first] else regs[r]
  {
  }

  lemma PayloadWord(vals: seq<Ushort>, r: nat)
    requires r < |vals|
    ensures WordAt(Payload(vals), 2 * r) == vals[r]
  {
    hide U16, Hi, Lo;
    U16OfBytes(vals[r]);
  }

  /** The parts of a write frame. */
  lemma WriteFrameParts(addr: bv8, fn: bv8, first: Ushort, vals: seq<Ushort>)
    requires |vals| < 128
    ensures
      var f := WriteFrame(addr, fn, first, |vals|, vals);
      && Accepted(f) && f[0] == addr && f[1] == fn && WordAt(f, 2) == first && WordAt(f, 4) == |vals|
      && f[6] as int == 2 * |vals|
      && forall r: nat :: r < |vals| ==> WordAt(f, 7 + 2 * r) == vals[r]
  {
    hide Header, Payload, U16, Crc, Accepted;
    var h, p := Header(addr, fn, first, |vals|), Payload(vals);
    HeaderParts(addr, fn, first, |vals|);
    var f := WithCrc(h + p);
    WithCrcAccepted(h + p);
    assert forall k :: 0 <= k < 7 ==> f[k] == h[k];
    assert forall k :: 0 <= k < |p| ==> f[7 + k] == p[k];
    forall r: nat | r < |vals|
      ensures WordAt(f, 7 + 2 * r) == vals[r]
    {
      PayloadWord(vals, r);
    }
  }

  /** The bytes of a write frame: every word high byte first, but the CRC low byte first. */
  lemma WriteFrameBytes(addr: bv8, fn: bv8, first: Ushort, vals: seq<Ushort>)
    requires |vals| < 128
    ensures
      var f := WriteFrame(addr, fn, first, |vals|, vals);
      && |f| == 9 + 2 * |vals| && f[0] == addr && f[1] == fn
      && 256 * (f[2] as int) + f[3] as int == first && 256 * (f[4] as int) + f[5] as int == |vals|
      && f[6] as int == 2 * |vals|
      && (forall r: nat :: r < |vals| ==> 256 * (f[7 + 2 * r] as int) + f[8 + 2 * r] as int == vals[r])
      && (f[|f| - 1] as bv16 << 8) | f[|f| - 2] as bv16 == Crc(f[..|f| - 2])
  {
    hide WriteFrame, Crc;
    var f := WriteFrame(addr, fn, first, |vals|, vals);
    WriteFrameParts(addr, fn, first, vals);
    forall r: nat | r < |vals|
      ensures 256 * (f[7 + 2 * r] as int) + f[8 + 2 * r] as int == vals[r]
    {
      assert WordAt(f, 7 + 2 * r) == vals[r];
    }
  }

  lemma HeaderParts(addr: bv8, fn: bv8, first: Ushort, num: Ushort)
    requires num < 128
    ensures
      var h := Header(addr, fn, first, num);
      && |h| == 7 && h[0] == addr && h[1] == fn && U16(h[2], h[3]) == first && U16(h[4], h[5]) == num
      && h[6] as int == 2 * num
  {
    hide Hi, Lo, U16;
    U16OfBytes(first);
    U16OfBytes(num);
    LowOfCount(2 * num);
  }

  lemma LowOfCount(n: nat)
    requires n < 256
    ensures Lo(n) as int == n
  {
    ByteValue(n);
  }

  /** The device obeys a write frame that is for it: the values are in the addressed registers and no
      other register has changed. */
  lemma WriteIsObeyed(box: bv8, regs: seq<Ushort>, addr: bv8, first: Ushort, vals: seq<Ushort>)
    requires 0 < |vals| < 128 && first + |vals| <= |regs| && (addr == box || addr == BROADCAST)
    ensures Apply(box, regs, WriteFrame(addr, 0x10, first, |vals|, vals)) == Stored(regs, first, vals)
  {
    hide WriteFrame, WordAt, Accepted, Stored;
    WriteFrameParts(addr, 0x10, first, vals);
    var f := WriteFrame(addr, 0x10, first, |vals|, vals);
    StoredAt(regs, first, vals, first);
    forall r: nat | r < |regs|
      ensures RegisterAfter(box, regs, f, r) == Stored(regs, first, vals)[r]
    {
      StoredAt(regs, first, vals, r);
    }
  }

  /** On a line with several boxes a write frame changes the one it is addressed to and no other. */
  lemma OtherBoxesStay(box: bv8, regs: seq<Ushort>, addr: bv8, fn: bv8, first: Ushort, vals: seq<Ushort>)
    requires |vals| < 128 && addr != box && addr != BROADCAST
    ensures Apply(box, regs, WriteFrame(addr, fn, first, |vals|, vals)) == regs
  {
    hide WriteFrame, WordAt, Accepted;
    WriteFrameParts(addr, fn, first, vals);
  }

  /** Sending a write frame again, as a retry does, changes nothing more. */
  lemma RetriesAreHarmless(box: bv8, regs: seq<Ushort>, addr: bv8, first: Ushort, vals: seq<Ushort>)
    requires 0 < |vals| < 128 && first + |vals| <= |regs|
    ensures
      var f := WriteFrame(addr, 0x10, first, |vals|, vals);
      Apply(box, Apply(box, regs, f), f) == Apply(box, regs, f)
  {
    hide WriteFrame, Apply;
    if addr == box || addr == BROADCAST {
      WriteIsObeyed(box, regs, addr, first, vals);
      WriteIsObeyed(box, Stored(regs, first, vals), addr, first, vals);
    } else {
      OtherBoxesStay(box, regs, addr, 0x10, first, vals);
    }
  }

  // ---------------------------------------------------------------------------------------------
  // The commands: a register address and values, sent until an attempt succeeds.
  // ---------------------------------------------------------------------------------------------

  /** sentRtuCmd, rtu_sent_ushortV3_buff and rtu_sent_uintV3_buff send up to three times; outcome
      says whether the device answers each attempt. */
  method SendWithRetries(frame: seq<bv8>, outcome: seq<bool>) returns (ret: bool, sent: seq<seq<bv8>>)
    requires |outcome| == 3
    ensures 1 <= |sent| <= 3 && forall i :: 0 <= i < |sent| ==> sent[i] == frame
    ensures ret == outcome[|sent| - 1]
    ensures forall i :: 0 <= i < |sent| - 1 ==> !outcome[i]
    ensures ret || |sent| == 3
  {
    sent := [];
    ret := true;
    for i := 0 to 3
      invariant |sent| == i && forall k :: 0 <= k < i ==> sent[k] == frame && !outcome[k]
      invariant i > 0 ==> !ret
    {
      sent := sent + [frame];
      ret := outcome[i];
      if ret {
        break;
      }
    }
  }

  /** What the registers are after frames that all reached the device. */
  function ApplyAll(box: bv8, regs: seq<Ushort>, frames: seq<seq<bv8>>): (out: seq<Ushort>)
    ensures |out| == |regs|
    decreases frames
  {
    if frames == [] then regs else ApplyAll(box, Apply(box, regs, frames[0]), frames[1..])
  }

  /** However many attempts reach the device, as long as one does, the result is the same. */
  lemma {:induction false} AnyAttemptsStore(
      box: bv8, regs: seq<Ushort>, first: Ushort, vals: seq<Ushort>, frames: seq<seq<bv8>>)
    requires 0 < |vals| < 128 && first + |vals| <= |regs| && frames != []
    requires forall i :: 0 <= i < |frames| ==> frames[i] == WriteFrame(box, 0x10, first, |vals|, vals)
    ensures ApplyAll(box, regs, frames) == Stored(regs, first, vals)
    decreases frames
  {
    hide WriteFrame, Apply;
    WriteIsObeyed(box, regs, box, first, vals);
    if |frames| > 1 {
      AnyAttemptsStore(box, Stored(regs, first, vals), first, vals, frames[1..]);
    }
  }
}
