/** dev_sictrl.cpp against dev_sirtu.cpp: what a command writes is what the next reply shows, in the
    addressed loop, sensor or line and nowhere else.  The commands compute a register address from
    the register map, the parser walks the reply with a pointer; the two meet only here. */
module RtuReadBack {
  import opened ModbusCrc
  import opened RtuFrames
  import opened RtuReply

  type Registers = regs: seq<Ushort> | |regs| == REGISTERS witness seq(REGISTERS, i => 0)

  /** The reply of a box to a request for all its registers. */
  function ReplyOf(addr: bv8, regs: Registers): (b: Reply) {
    WithCrc([addr, 0x03, 0x02, 0xbc] + Payload(regs))
  }

  // An int argument, as it arrives in the unsigned fields of a frame.

  function ToUshort(val: int): Ushort {
    val % 0x10000
  }

  function ToUint(val: int): Uint {
    val % 0x1_0000_0000
  }

  /** An int arrives exactly if it fits; otherwise it arrives modulo the width of the field. */
  lemma UshortFits(val: int)
    ensures ToUshort(val) == val <==> 0 <= val < 0x10000
    ensures (val - ToUshort(val)) % 0x10000 == 0
  {
  }

  lemma UintFits(val: int)
    ensures ToUint(val) == val <==> 0 <= val < 0x1_0000_0000
    ensures (val - ToUint(val)) % 0x1_0000_0000 == 0
  {
  }

  function High(w: Uint): Ushort {
    w / 0x10000
  }

  function Low(w: Uint): Ushort {
    w % 0x10000
  }

  // The commands.

  function SentUshort(addr: bv8, reg: Ushort, val1: int, val2: int): seq<bv8> {
    WriteFrame(addr, 0x10, reg, 2, [ToUshort(val1), ToUshort(val2)])
  }

  function SentUint(addr: bv8, reg: Ushort, val1: int, val2: int): seq<bv8> {
    WriteFrame(addr, 0x10, reg, 4, [High(ToUint(val1)), Low(ToUint(val1)), High(ToUint(val2)), Low(ToUint(val2))])
  }

  /** rtu_sent_ushortV3_buff: outcome says which of the three attempts the box answers. */
  method RtuSentUshortV3Buff(addr: bv8, reg: Ushort, val1: int, val2: int, outcome: seq<bool>)
    returns (ret: bool, sent: seq<seq<bv8>>)
    requires |outcome| == 3
    ensures 1 <= |sent| <= 3 && forall i :: 0 <= i < |sent| ==> sent[i] == SentUshort(addr, reg, val1, val2)
    ensures ret == outcome[|sent| - 1] && forall i :: 0 <= i < |sent| - 1 ==> !outcome[i]
    ensures ret || |sent| == 3
  {
    hide WriteFrame, ToUshort;
    var buf := new bv8[32];
    var len := BuildUshort(buf, addr, 0x10, reg, 2, ToUshort(val1), ToUshort(val2));
    ret, sent := SendWithRetries(buf[..len], outcome);
  }

  /** rtu_sent_uintV3_buff. */
  method RtuSentUintV3Buff(addr: bv8, reg: Ushort, val1: int, val2: int, outcome: seq<bool>)
    returns (ret: bool, sent: seq<seq<bv8>>)
    requires |outcome| == 3
    ensures 1 <= |sent| <= 3 && forall i :: 0 <= i < |sent| ==> sent[i] == SentUint(addr, reg, val1, val2)
    ensures ret == outcome[|sent| - 1] && forall i :: 0 <= i < |sent| - 1 ==> !outcome[i]
    ensures ret || |sent| == 3
  {
    hide WriteFrame, ToUint;
    var w1, w2 := ToUint(val1), ToUint(val2);
    var buf := new bv8[32];
    var len := BuildUint(buf, addr, 0x10, reg, 4, High(w1), Low(w1), High(w2), Low(w2));
    ret, sent := SendWithRetries(buf[..len], outcome);
  }

  /** sentRtuCmd with its default function: one register. */
  function SentSingle(addr: bv8, reg: Ushort, val: int): seq<bv8> {
    WriteFrame(addr, 0x10, reg, 1, [ToUshort(val)])
  }

  method SentRtuCmd(addr: bv8, reg: Ushort, val: int, outcome: seq<bool>) returns (ret: bool, sent: seq<seq<bv8>>)
    requires |outcome| == 3
    ensures 1 <= |sent| <= 3 && forall i :: 0 <= i < |sent| ==> sent[i] == SentSingle(addr, reg, val)
    ensures ret == outcome[|sent| - 1] && forall i :: 0 <= i < |sent| - 1 ==> !outcome[i]
    ensures ret || |sent| == 3
  {
    hide WriteFrame, ToUshort;
    var buf := new bv8[32];
    var len := BuildSingle(buf, addr, 0x10, reg, 1, ToUshort(val));
    ret, sent := SendWithRetries(buf[..len], outcome);
  }

  type LoopIndex = n: int | 1 <= n <= LOOPS witness 1
  type SensorIndex = n: int | 1 <= n <= SENSORS witness 1
  type LineIndex = n: int | 1 <= n <= LINES witness 1

  function SetBusbarInsertVol(addr: bv8, index: LoopIndex, val1: int, val2: int): seq<bv8> {
    SentUshort(addr, PLUG_VOLTAGE_MIN_L1 + (index - 1) * 8, val1, val2)
  }

  function SetBusbarInsertCur(addr: bv8, index: LoopIndex, val1: int, val2: int): seq<bv8> {
    SentUshort(addr, PLUG_CURRENT_MIN_L1 + (index - 1) * 8, val1, val2)
  }

  function SetBusbarInsertPow(addr: bv8, index: LoopIndex, val1: int, val2: int): seq<bv8> {
    SentUint(addr, PLUG_POWER_MIN_L1 + (index - 1) * 8, val1, val2)
  }

  function SetBusbarInsertTem(addr: bv8, index: SensorIndex, val1: int, val2: int): seq<bv8> {
    SentUshort(addr, PLUG_TEMPERATURE_MIN_1 + (index - 1) * 2, val1, val2)
  }

  function SetBusbarInsertZeroLine(addr: bv8, val1: int, val2: int): seq<bv8> {
    SentUshort(addr, PLUG_ZERO_LINE_MIN, val1, val2)
  }

  function SetBusbarStartLineVol(addr: bv8, index: LineIndex, val1: int, val2: int): seq<bv8> {
    SentUshort(addr, START_LINE_VOLTAGE_MIN_L1 + (index - 1) * 10, val1, val2)
  }

  function SetBusbarStartPow(addr: bv8, val1: int, val2: int): seq<bv8> {
    SentUint(addr, START_TOTAL_POW_MIN_1, val1, val2)
  }

  function SetBusbarInsertBaud(addr: bv8, val: int): seq<bv8> {
    SentSingle(addr, PLUG_BAUD_RATE, val)
  }

  function SetBusbarInsertiOF(addr: bv8, val: int): seq<bv8> {
    SentSingle(addr, SET_PLUG_IOF, val)
  }

  function SetBusbarInsertBuzzer(addr: bv8, val: int): seq<bv8> {
    SentSingle(addr, SET_PLUG_BUZZER, val)
  }

  function SetBusbarInsertFilter(addr: bv8, val: int): seq<bv8> {
    SentSingle(addr, SET_PLUG_ALARM_TIME, val)
  }

  // ---------------------------------------------------------------------------------------------
  // Registers and the reply.
  // ---------------------------------------------------------------------------------------------

  /** The parser accepts the reply, and the word for register r is the value of register r. */
  lemma ReplyShowsRegisters(addr: bv8, regs: Registers)
    ensures LengthsAgree(ReplyOf(addr, regs)) && Accepted(ReplyOf(addr, regs))
    ensures ReplyOf(addr, regs)[0] == addr
    ensures forall r: nat :: r < REGISTERS ==> Reg(ReplyOf(addr, regs), r) == regs[r]
  {
    hide Hi, Lo, U16, Crc, Accepted, Payload;
    var h, p := [addr, 0x03, 0x02, 0xbc], Payload(regs);
    var b := ReplyOf(addr, regs);
    WithCrcAccepted(h + p);
    assert forall k :: 0 <= k < 4 ==> b[k] == h[k];
    assert forall k :: 0 <= k < |p| ==> b[4 + k] == p[k];
    LengthField();
    forall r: nat | r < REGISTERS
      ensures Reg(b, r) == regs[r]
    {
      PayloadWord(regs, r);
    }
  }

  /** The bytes of a reply: every word high byte first. */
  lemma ReplyBytes(addr: bv8, regs: Registers)
    ensures
      var b := ReplyOf(addr, regs);
      && b[0] == addr && b[1] == 3 && 256 * (b[2] as int) + b[3] as int == 700
      && forall r: nat :: r < REGISTERS ==> 256 * (b[4 + 2 * r] as int) + b[5 + 2 * r] as int == regs[r]
  {
    hide ReplyOf;
    var b := ReplyOf(addr, regs);
    ReplyShowsRegisters(addr, regs);
    ReplyFunction(addr, regs);
    forall r: nat | r < REGISTERS
      ensures 256 * (b[4 + 2 * r] as int) + b[5 + 2 * r] as int == regs[r]
    {
      assert Reg(b, r) == regs[r];
    }
  }

  lemma ReplyFunction(addr: bv8, regs: Registers)
    ensures ReplyOf(addr, regs)[1] == 3
  {
    hide Payload, Crc;
  }

  lemma LengthField()
    ensures U16(0x02, 0xbc) == 2 * REGISTERS
  {
  }

  /** b2 shows vals from register first on, and elsewhere what b1 shows. */
  ghost predicate Shows(b1: Reply, b2: Reply, first: nat, vals: seq<Ushort>)
    requires first + |vals| <= REGISTERS
  {
    && b2[..4] == b1[..4]
    && forall r: nat :: r < REGISTERS ==>
         Reg(b2, r) == if first <= r < first + |vals| then vals[r - first] else Reg(b1, r)
  }

  lemma WriteShows(addr: bv8, regs: Registers, first: Ushort, vals: seq<Ushort>)
    requires 0 < |vals| < 128 && first + |vals| <= REGISTERS
    ensures Shows(ReplyOf(addr, regs), ReplyOf(addr, Apply(addr, regs, WriteFrame(addr, 0x10, first, |vals|, vals))),
        first, vals)
  {
    hide ReplyOf, Reg, Apply, WriteFrame;
    WriteIsObeyed(addr, regs, addr, first, vals);
    var after := Stored(regs, first, vals);
    ReplyShowsRegisters(addr, regs);
    ReplyShowsRegisters(addr, after);
    ReplyHeads(addr, regs, after);
  }

  lemma ReplyHeads(addr: bv8, regs: Registers, after: Registers)
    ensures ReplyOf(addr, after)[..4] == ReplyOf(addr, regs)[..4]
  {
    hide Payload, Crc;
  }

  // ---------------------------------------------------------------------------------------------
  // Plug boxes.
  // ---------------------------------------------------------------------------------------------

  /** Nothing but the thresholds is read from register 165 on. */
  lemma ValuesStay(b1: Reply, b2: Reply, first: nat, vals: seq<Ushort>, v: Packet)
    requires v.Valid() && 165 <= first && first + |vals| <= REGISTERS && Shows(b1, b2, first, vals)
    ensures PlugSetup(b2, v) == PlugSetup(b1, v)
    ensures Loops(b2, v.data, LOOPS) == Loops(b1, v.data, LOOPS)
    ensures Words(b2, 151, v.thd, LINES) == Words(b1, 151, v.thd, LINES)
    ensures CutWords(b2, 154, v.pl, LINES) == CutWords(b1, 154, v.pl, LINES)
    ensures Sensors(b2, 157, v.env, SENSORS) == Sensors(b1, 157, v.env, SENSORS)
  {
    hide Reg;
  }

  lemma HeadStays(b1: Reply, b2: Reply, v: Packet)
    requires b2[..4] == b1[..4]
    ensures Head(b2, v) == Head(b1, v)
  {
    hide U16;
    assert forall k :: 0 <= k < 4 ==> b2[k] == b2[..4][k] && b1[k] == b1[..4][k];
  }

  /** What a plug box shows after a write at or above its first threshold. */
  lemma PlugAfter(b1: Reply, b2: Reply, first: nat, vals: seq<Ushort>, v: Packet, data: seq<Line>, env: seq<Env>)
    requires v.Valid() && 165 <= first && first + |vals| <= REGISTERS && Shows(b1, b2, first, vals) && b1[0] != 1
    requires |data| == LOOPS && |env| == SENSORS
    requires forall i :: 0 <= i < LOOPS ==> PlugLoopLimits(b2, i, Loops(b1, v.data, LOOPS)[i]) == data[i]
    requires forall i :: 0 <= i < SENSORS ==>
               EnvLimits(b2, PLUG_TEMPERATURE_MIN_1, i, Sensors(b1, 157, v.env, SENSORS)[i]) == env[i]
    ensures Parsed(b2, v) == Parsed(b1, v).(crc := Parsed(b2, v).crc, data := data, env := env)
  {
    hide Reg, PlugLoopLimits, EnvLimits, Loops, Sensors, Words, CutWords, PlugSetup, StartBox, Word;
    HeadStays(b1, b2, v);
    ValuesStay(b1, b2, first, vals, Head(b1, v));
    assert LoopLimits(b2, Loops(b1, v.data, LOOPS), LOOPS) == data;
    assert SensorLimits(b2, PLUG_TEMPERATURE_MIN_1, Sensors(b1, 157, v.env, SENSORS), SENSORS) == env;
  }

  /** How a plug box fills the fields that hold thresholds. */
  lemma ParsedLimits(b: Reply, v: Packet)
    requires v.Valid() && b[0] != 1
    ensures Parsed(b, v).data == LoopLimits(b, Loops(b, v.data, LOOPS), LOOPS)
    ensures Parsed(b, v).env == SensorLimits(b, PLUG_TEMPERATURE_MIN_1, Sensors(b, 157, v.env, SENSORS), SENSORS)
  {
    hide LoopLimits, Loops, SensorLimits, Sensors, PlugSetup, Words, CutWords, Reg, Word;
  }

  // The commands of a plug box that write two limits of a loop.

  lemma VolShown(b1: Reply, b2: Reply, index: LoopIndex, lowest: Ushort, highest: Ushort, i: nat, p: Line)
    requires i < LOOPS && Shows(b1, b2, PLUG_VOLTAGE_MIN_L1 + (index - 1) * 8, [lowest, highest])
    ensures
      var line := PlugLoopLimits(b1, i, p);
      PlugLoopLimits(b2, i, p) ==
        if i == index - 1 then line.(vol := line.vol.(smin := lowest, smax := highest)) else line
  {
    hide Reg;
  }

  lemma VolReadsBack(addr: bv8, regs: Registers, index: LoopIndex, val1: int, val2: int, v: Packet)
    requires v.Valid() && addr != 1
    ensures
      var before := Parsed(ReplyOf(addr, regs), v);
      var after := Parsed(ReplyOf(addr, Apply(addr, regs, SetBusbarInsertVol(addr, index, val1, val2))), v);
      var line := before.data[index - 1];
      && after == before.(crc := after.crc, data :=
           before.data[index - 1 := line.(vol := line.vol.(smin := ToUshort(val1), smax := ToUshort(val2)))])
      && (after.data[index - 1].vol.smin == val1 <==> 0 <= val1 < 0x10000)
      && (after.data[index - 1].vol.smax == val2 <==> 0 <= val2 < 0x10000)
  {
    hide Reg, ReplyOf, Apply, WriteFrame, Parsed, Loops, Sensors, PlugLoopLimits, ToUshort;
    var b1, b2 := ReplyOf(addr, regs), ReplyOf(addr, Apply(addr, regs, SetBusbarInsertVol(addr, index, val1, val2)));
    var w1, w2 := ToUshort(val1), ToUshort(val2);
    var first, vals := PLUG_VOLTAGE_MIN_L1 + (index - 1) * 8, [w1, w2];
    ReplyShowsRegisters(addr, regs);
    WriteShows(addr, regs, first, vals);
    ParsedLimits(b1, v);
    var data := Parsed(b1, v).data;
    var line := data[index - 1];
    forall i: nat | i < LOOPS
      ensures PlugLoopLimits(b2, i, Loops(b1, v.data, LOOPS)[i]) ==
              if i == index - 1 then line.(vol := line.vol.(smin := w1, smax := w2)) else data[i]
    {
      VolShown(b1, b2, index, w1, w2, i, Loops(b1, v.data, LOOPS)[i]);
    }
    PlugAfter(b1, b2, first, vals, v, data[index - 1 := line.(vol := line.vol.(smin := w1, smax := w2))],
              Parsed(b1, v).env);
    UshortFits(val1);
    UshortFits(val2);
  }

  lemma CurShown(b1: Reply, b2: Reply, index: LoopIndex, lowest: Ushort, highest: Ushort, i: nat, p: Line)
    requires i < LOOPS && Shows(b1, b2, PLUG_CURRENT_MIN_L1 + (index - 1) * 8, [lowest, highest])
    ensures
      var line := PlugLoopLimits(b1, i, p);
      PlugLoopLimits(b2, i, p) ==
        if i == index - 1 then line.(cur := line.cur.(smin := lowest, smax := highest)) else line
  {
    hide Reg;
  }

  lemma CurReadsBack(addr: bv8, regs: Registers, index: LoopIndex, val1: int, val2: int, v: Packet)
    requires v.Valid() && addr != 1
    ensures
      var before := Parsed(ReplyOf(addr, regs), v);
      var after := Parsed(ReplyOf(addr, Apply(addr, regs, SetBusbarInsertCur(addr, index, val1, val2))), v);
      var line := before.data[index - 1];
      && after == before.(crc := after.crc, data :=
           before.data[index - 1 := line.(cur := line.cur.(smin := ToUshort(val1), smax := ToUshort(val2)))])
      && (after.data[index - 1].cur.smin == val1 <==> 0 <= val1 < 0x10000)
      && (after.data[index - 1].cur.smax == val2 <==> 0 <= val2 < 0x10000)
  {
    hide Reg, ReplyOf, Apply, WriteFrame, Parsed, Loops, Sensors, PlugLoopLimits, ToUshort;
    var b1, b2 := ReplyOf(addr, regs), ReplyOf(addr, Apply(addr, regs, SetBusbarInsertCur(addr, index, val1, val2)));
    var w1, w2 := ToUshort(val1), ToUshort(val2);
    var first, vals := PLUG_CURRENT_MIN_L1 + (index - 1) * 8, [w1, w2];
    ReplyShowsRegisters(addr, regs);
    WriteShows(addr, regs, first, vals);
    ParsedLimits(b1, v);
    var data := Parsed(b1, v).data;
    var line := data[index - 1];
    forall i: nat | i < LOOPS
      ensures PlugLoopLimits(b2, i, Loops(b1, v.data, LOOPS)[i]) ==
              if i == index - 1 then line.(cur := line.cur.(smin := w1, smax := w2)) else data[i]
    {
      CurShown(b1, b2, index, w1, w2, i, Loops(b1, v.data, LOOPS)[i]);
    }
    PlugAfter(b1, b2, first, vals, v, data[index - 1 := line.(cur := line.cur.(smin := w1, smax := w2))],
              Parsed(b1, v).env);
    UshortFits(val1);
    UshortFits(val2);
  }

  lemma PowShown(b1: Reply, b2: Reply, index: LoopIndex, lowest: Uint, highest: Uint, i: nat, p: Line)
    requires i < LOOPS && Shows(b1, b2, PLUG_POWER_MIN_L1 + (index - 1) * 8,
        [High(lowest), Low(lowest), High(highest), Low(highest)])
    ensures
      var line := PlugLoopLimits(b1, i, p);
      PlugLoopLimits(b2, i, p) ==
        if i == index - 1 then line.(pow := line.pow.(imin := lowest, imax := highest)) else line
  {
    hide Reg;
  }

  lemma PowReadsBack(addr: bv8, regs: Registers, index: LoopIndex, val1: int, val2: int, v: Packet)
    requires v.Valid() && addr != 1
    ensures
      var before := Parsed(ReplyOf(addr, regs), v);
      var after := Parsed(ReplyOf(addr, Apply(addr, regs, SetBusbarInsertPow(addr, index, val1, val2))), v);
      var line := before.data[index - 1];
      && after == before.(crc := after.crc, data :=
           before.data[index - 1 := line.(pow := line.pow.(imin := ToUint(val1), imax := ToUint(val2)))])
      && (after.data[index - 1].pow.imin == val1 <==> 0 <= val1 < 0x1_0000_0000)
      && (after.data[index - 1].pow.imax == val2 <==> 0 <= val2 < 0x1_0000_0000)
  {
    hide Reg, ReplyOf, Apply, WriteFrame, Parsed, Loops, Sensors, PlugLoopLimits, ToUint, High, Low;
    var b1, b2 := ReplyOf(addr, regs), ReplyOf(addr, Apply(addr, regs, SetBusbarInsertPow(addr, index, val1, val2)));
    var w1, w2 := ToUint(val1), ToUint(val2);
    var first, vals := PLUG_POWER_MIN_L1 + (index - 1) * 8, [High(w1), Low(w1), High(w2), Low(w2)];
    ReplyShowsRegisters(addr, regs);
    WriteShows(addr, regs, first, vals);
    ParsedLimits(b1, v);
    var data := Parsed(b1, v).data;
    var line := data[index - 1];
    forall i: nat | i < LOOPS
      ensures PlugLoopLimits(b2, i, Loops(b1, v.data, LOOPS)[i]) ==
              if i == index - 1 then line.(pow := line.pow.(imin := w1, imax := w2)) else data[i]
    {
      PowShown(b1, b2, index, w1, w2, i, Loops(b1, v.data, LOOPS)[i]);
    }
    PlugAfter(b1, b2, first, vals, v, data[index - 1 := line.(pow := line.pow.(imin := w1, imax := w2))],
              Parsed(b1, v).env);
    UintFits(val1);
    UintFits(val2);
  }

  lemma TemReadsBack(addr: bv8, regs: Registers, index: SensorIndex, val1: int, val2: int, v: Packet)
    requires v.Valid() && addr != 1
    ensures
      var before := Parsed(ReplyOf(addr, regs), v);
      var after := Parsed(ReplyOf(addr, Apply(addr, regs, SetBusbarInsertTem(addr, index, val1, val2))), v);
      var sensor := before.env[index - 1].(min := ToUshort(val1), max := ToUshort(val2));
      && after == before.(crc := after.crc, env := before.env[index - 1 := sensor])
      && (after.env[index - 1].min == val1 <==> 0 <= val1 < 0x10000)
      && (after.env[index - 1].max == val2 <==> 0 <= val2 < 0x10000)
  {
    hide Reg, ReplyOf, Apply, WriteFrame, Parsed, Loops, Sensors;
    var b1, b2 := ReplyOf(addr, regs), ReplyOf(addr, Apply(addr, regs, SetBusbarInsertTem(addr, index, val1, val2)));
    var first, vals := PLUG_TEMPERATURE_MIN_1 + (index - 1) * 2, [ToUshort(val1), ToUshort(val2)];
    ReplyShowsRegisters(addr, regs);
    WriteShows(addr, regs, first, vals);
    ParsedLimits(b1, v);
    var sensor := Parsed(b1, v).env[index - 1].(min := ToUshort(val1), max := ToUshort(val2));
    PlugAfter(b1, b2, first, vals, v, Parsed(b1, v).data, Parsed(b1, v).env[index - 1 := sensor]);
    UshortFits(val1);
    UshortFits(val2);
  }

  /** The limits of the zero line are written, but the parser never gets to their registers: the
      reply shows nothing of them. */
  lemma ZeroLineIsNotReadBack(addr: bv8, regs: Registers, val1: int, val2: int, v: Packet)
    requires v.Valid() && addr != 1
    ensures
      var before := Parsed(ReplyOf(addr, regs), v);
      var after := Parsed(ReplyOf(addr, Apply(addr, regs, SetBusbarInsertZeroLine(addr, val1, val2))), v);
      after == before.(crc := after.crc)
  {
    hide Reg, ReplyOf, Apply, WriteFrame, Parsed, Loops, Sensors;
    var b1, b2 := ReplyOf(addr, regs), ReplyOf(addr, Apply(addr, regs, SetBusbarInsertZeroLine(addr, val1, val2)));
    var vals := [ToUshort(val1), ToUshort(val2)];
    ReplyShowsRegisters(addr, regs);
    WriteShows(addr, regs, PLUG_ZERO_LINE_MIN, vals);
    ParsedLimits(b1, v);
    PlugAfter(b1, b2, PLUG_ZERO_LINE_MIN, vals, v, Parsed(b1, v).data, Parsed(b1, v).env);
  }

  // The commands of a plug box that write one register.  The parser keeps its low byte.

  /** A write among the first nine registers changes nothing but what is set up from them. */
  lemma SetupAfter(b1: Reply, b2: Reply, first: nat, vals: seq<Ushort>, v: Packet)
    requires v.Valid() && first + |vals| <= 9 && Shows(b1, b2, first, vals) && b1[0] != 1
    ensures
      var p, s := Parsed(b1, v), PlugSetup(b2, Head(b1, v));
      Parsed(b2, v) == p.(
        crc := Parsed(b2, v).crc, version := s.version, proNum := s.proNum, lineNum := s.lineNum,
            baudRate := s.baudRate,
        iOF := s.iOF, buzzerStatus := s.buzzerStatus, alarmTime := s.alarmTime, boxType := s.boxType)
  {
    hide Reg, Loops, LoopLimits, Sensors, SensorLimits, Words, CutWords, Word, StartBox;
    HeadStays(b1, b2, v);
    RestStays(b1, b2, first, vals, Head(b1, v));
  }

  lemma RestStays(b1: Reply, b2: Reply, first: nat, vals: seq<Ushort>, v: Packet)
    requires v.Valid() && first + |vals| <= 9 && Shows(b1, b2, first, vals)
    ensures Words(b2, 151, v.thd, LINES) == Words(b1, 151, v.thd, LINES)
    ensures CutWords(b2, 154, v.pl, LINES) == CutWords(b1, 154, v.pl, LINES)
    ensures LoopLimits(b2, Loops(b2, v.data, LOOPS), LOOPS) == LoopLimits(b1, Loops(b1, v.data, LOOPS), LOOPS)
    ensures SensorLimits(b2, PLUG_TEMPERATURE_MIN_1, Sensors(b2, 157, v.env, SENSORS), SENSORS) ==
            SensorLimits(b1, PLUG_TEMPERATURE_MIN_1, Sensors(b1, 157, v.env, SENSORS), SENSORS)
  {
    hide Reg;
    assert Loops(b2, v.data, LOOPS) == Loops(b1, v.data, LOOPS);
    assert Sensors(b2, 157, v.env, SENSORS) == Sensors(b1, 157, v.env, SENSORS);
  }

  lemma SetupShown(b1: Reply, b2: Reply, reg: nat, val: Ushort, v: Packet)
    requires 4 <= reg < 8 && Shows(b1, b2, reg, [val])
    ensures
      var s := PlugSetup(b1, v);
      PlugSetup(b2, v) ==
        if reg == 4 then s.(baudRate := Cut(val)) else if reg == 5 then s.(iOF := Cut(val))
        else if reg == 6 then s.(buzzerStatus := Cut(val)) else s.(alarmTime := Cut(val))
  {
    hide Reg;
  }

  /** How a plug box fills the fields of the first registers. */
  lemma ParsedSetup(b: Reply, v: Packet)
    requires v.Valid() && b[0] != 1
    ensures
      var p, s := Parsed(b, v), PlugSetup(b, Head(b, v));
      && p.version == s.version && p.proNum == s.proNum && p.lineNum == s.lineNum && p.baudRate == s.baudRate
      && p.iOF == s.iOF && p.buzzerStatus == s.buzzerStatus && p.alarmTime == s.alarmTime && p.boxType == s.boxType
  {
    hide LoopLimits, Loops, SensorLimits, Sensors, PlugSetup, Words, CutWords, Reg, Word, StartBox;
  }

  /** An int comes back exactly if it fits a byte. */
  lemma ReadsBackExactly(val: int)
    ensures Cut(ToUshort(val)) == val <==> 0 <= val < 0x100
  {
  }

  lemma BaudReadsBack(addr: bv8, regs: Registers, val: int, v: Packet)
    requires v.Valid() && addr != 1
    ensures
      var before := Parsed(ReplyOf(addr, regs), v);
      var after := Parsed(ReplyOf(addr, Apply(addr, regs, SetBusbarInsertBaud(addr, val))), v);
      && after == before.(crc := after.crc, baudRate := Cut(ToUshort(val)))
      && (after.baudRate == val <==> 0 <= val < 0x100)
  {
    hide Reg, ReplyOf, Apply, WriteFrame, Parsed, PlugSetup, ToUshort;
    var b1, b2 := ReplyOf(addr, regs), ReplyOf(addr, Apply(addr, regs, SetBusbarInsertBaud(addr, val)));
    ReplyShowsRegisters(addr, regs);
    WriteShows(addr, regs, PLUG_BAUD_RATE, [ToUshort(val)]);
    SetupAfter(b1, b2, PLUG_BAUD_RATE, [ToUshort(val)], v);
    SetupShown(b1, b2, PLUG_BAUD_RATE, ToUshort(val), Head(b1, v));
    ParsedSetup(b1, v);
    ReadsBackExactly(val);
  }

  lemma IOFReadsBack(addr: bv8, regs: Registers, val: int, v: Packet)
    requires v.Valid() && addr != 1
    ensures
      var before := Parsed(ReplyOf(addr, regs), v);
      var after := Parsed(ReplyOf(addr, Apply(addr, regs, SetBusbarInsertiOF(addr, val))), v);
      && after == before.(crc := after.crc, iOF := Cut(ToUshort(val)))
      && (after.iOF == val <==> 0 <= val < 0x100)
  {
    hide Reg, ReplyOf, Apply, WriteFrame, Parsed, PlugSetup, ToUshort;
    var b1, b2 := ReplyOf(addr, regs), ReplyOf(addr, Apply(addr, regs, SetBusbarInsertiOF(addr, val)));
    ReplyShowsRegisters(addr, regs);
    WriteShows(addr, regs, SET_PLUG_IOF, [ToUshort(val)]);
    SetupAfter(b1, b2, SET_PLUG_IOF, [ToUshort(val)], v);
    SetupShown(b1, b2, SET_PLUG_IOF, ToUshort(val), Head(b1, v));
    ParsedSetup(b1, v);
    ReadsBackExactly(val);
  }

  lemma BuzzerReadsBack(addr: bv8, regs: Registers, val: int, v: Packet)
    requires v.Valid() && addr != 1
    ensures
      var before := Parsed(ReplyOf(addr, regs), v);
      var after := Parsed(ReplyOf(addr, Apply(addr, regs, SetBusbarInsertBuzzer(addr, val))), v);
      && after == before.(crc := after.crc, buzzerStatus := Cut(ToUshort(val)))
      && (after.buzzerStatus == val <==> 0 <= val < 0x100)
  {
    hide Reg, ReplyOf, Apply, WriteFrame, Parsed, PlugSetup, ToUshort;
    var b1, b2 := ReplyOf(addr, regs), ReplyOf(addr, Apply(addr, regs, SetBusbarInsertBuzzer(addr, val)));
    ReplyShowsRegisters(addr, regs);
    WriteShows(addr, regs, SET_PLUG_BUZZER, [ToUshort(val)]);
    SetupAfter(b1, b2, SET_PLUG_BUZZER, [ToUshort(val)], v);
    SetupShown(b1, b2, SET_PLUG_BUZZER, ToUshort(val), Head(b1, v));
    ParsedSetup(b1, v);
    ReadsBackExactly(val);
  }

  lemma FilterReadsBack(addr: bv8, regs: Registers, val: int, v: Packet)
    requires v.Valid() && addr != 1
    ensures
      var before := Parsed(ReplyOf(addr, regs), v);
      var after := Parsed(ReplyOf(addr, Apply(addr, regs, SetBusbarInsertFilter(addr, val))), v);
      && after == before.(crc := after.crc, alarmTime := Cut(ToUshort(val)))
      && (after.alarmTime == val <==> 0 <= val < 0x100)
  {
    hide Reg, ReplyOf, Apply, WriteFrame, Parsed, PlugSetup, ToUshort;
    var b1, b2 := ReplyOf(addr, regs), ReplyOf(addr, Apply(addr, regs, SetBusbarInsertFilter(addr, val)));
    ReplyShowsRegisters(addr, regs);
    WriteShows(addr, regs, SET_PLUG_ALARM_TIME, [ToUshort(val)]);
    SetupAfter(b1, b2, SET_PLUG_ALARM_TIME, [ToUshort(val)], v);
    SetupShown(b1, b2, SET_PLUG_ALARM_TIME, ToUshort(val), Head(b1, v));
    ParsedSetup(b1, v);
    ReadsBackExactly(val);
  }

  // ---------------------------------------------------------------------------------------------
  // The start box.
  // ---------------------------------------------------------------------------------------------

  /** What does not depend on the thresholds of a start box. */
  function StartValues(b: Reply, v: Packet): (p: Packet)
    requires v.Valid()
    ensures p.Valid() && p.data == Lines(b, v.data, LINES)
  {
    StartTotals(b, StartSetup(b, Head(b, v))).(
      data := Lines(b, v.data, LINES), pl := LinePl(b, v.pl, LINES), env := Sensors(b, 84, v.env, SENSORS),
      volThd := VolThd(b, v.volThd, LINES), curThd := CurThd(b, v.curThd, LINES), lineNum := 3)
  }

  function Switch(b: Reply): Uchar {
    if Cut(Reg(b, 81)) == 1 then 0 else 1
  }

  lemma ParsedStart(b: Reply, v: Packet)
    requires v.Valid() && b[0] == 1
    ensures Parsed(b, v) == StartLimits(b, StartValues(b, v)).(
              data := Switched(LineLimits(b, Lines(b, v.data, LINES), LINES), Switch(b), LINES),
              env := SensorLimits(b, START_TEMPERATURE_MIN_1, Sensors(b, 84, v.env, SENSORS), SENSORS),
              crc := Parsed(b, v).crc)
  {
    hide Reg, LineLimits, Lines, Sensors, SensorLimits, VolThd, CurThd, LinePl, Switched, StartSetup, StartTotals,
        Word, PlugBox;
  }

  /** Nothing but the thresholds is read from register 284 on. */
  lemma StartValuesStay(b1: Reply, b2: Reply, first: nat, vals: seq<Ushort>, v: Packet)
    requires v.Valid() && 284 <= first && first + |vals| <= REGISTERS && Shows(b1, b2, first, vals)
    ensures StartValues(b2, v) == StartValues(b1, v) && Switch(b2) == Switch(b1)
  {
    hide Reg, Lines, LinePl, Sensors, VolThd, CurThd, StartSetup, StartTotals;
    HeadStays(b1, b2, v);
    StartSetupStays(b1, b2, first, vals, Head(b1, v));
    LinesStay(b1, b2, first, vals, v);
    ThdStays(b1, b2, first, vals, v);
  }

  lemma StartSetupStays(b1: Reply, b2: Reply, first: nat, vals: seq<Ushort>, v: Packet)
    requires 284 <= first && first + |vals| <= REGISTERS && Shows(b1, b2, first, vals)
    ensures StartTotals(b2, StartSetup(b2, v)) == StartTotals(b1, StartSetup(b1, v))
  {
    hide Reg;
  }

  lemma LinesStay(b1: Reply, b2: Reply, first: nat, vals: seq<Ushort>, v: Packet)
    requires v.Valid() && 284 <= first && first + |vals| <= REGISTERS && Shows(b1, b2, first, vals)
    ensures Lines(b2, v.data, LINES) == Lines(b1, v.data, LINES)
    ensures LinePl(b2, v.pl, LINES) == LinePl(b1, v.pl, LINES)
    ensures Sensors(b2, 84, v.env, SENSORS) == Sensors(b1, 84, v.env, SENSORS)
  {
    hide Reg;
  }

  lemma ThdStays(b1: Reply, b2: Reply, first: nat, vals: seq<Ushort>, v: Packet)
    requires v.Valid() && 284 <= first && first + |vals| <= REGISTERS && Shows(b1, b2, first, vals)
    ensures VolThd(b2, v.volThd, LINES) == VolThd(b1, v.volThd, LINES)
    ensures CurThd(b2, v.curThd, LINES) == CurThd(b1, v.curThd, LINES)
  {
    hide Words, Shows;
    forall i: nat | i < LINES
      ensures Words(b2, 92 + 64 * i, v.volThd[i], HARMONICS) == Words(b1, 92 + 64 * i, v.volThd[i], HARMONICS)
      ensures Words(b2, 124 + 64 * i, v.curThd[i], HARMONICS) == Words(b1, 124 + 64 * i, v.curThd[i], HARMONICS)
    {
      WordsStay(b1, b2, first, vals, 92 + 64 * i, v.volThd[i]);
      WordsStay(b1, b2, first, vals, 124 + 64 * i, v.curThd[i]);
    }
  }

  lemma WordsStay(b1: Reply, b2: Reply, first: nat, vals: seq<Ushort>, base: nat, words: seq<Ushort>)
    requires base + HARMONICS <= first && first + |vals| <= REGISTERS && Shows(b1, b2, first, vals) && |words| == 40
    ensures Words(b2, base, words, HARMONICS) == Words(b1, base, words, HARMONICS)
  {
    hide Reg;
  }

  lemma SensorLimitsStay(b1: Reply, b2: Reply, first: nat, vals: seq<Ushort>, env: seq<Env>)
    requires 292 <= first && first + |vals| <= REGISTERS && Shows(b1, b2, first, vals) && |env| == SENSORS
    ensures SensorLimits(b2, START_TEMPERATURE_MIN_1, env, SENSORS) == SensorLimits(b1, START_TEMPERATURE_MIN_1, env,
        SENSORS)
  {
    hide Reg;
  }

  lemma StartLineVolReadsBack(addr: bv8, regs: Registers, index: LineIndex, val1: int, val2: int, v: Packet)
    requires v.Valid() && addr == 1
    ensures
      var before := Parsed(ReplyOf(addr, regs), v);
      var after := Parsed(ReplyOf(addr, Apply(addr, regs, SetBusbarStartLineVol(addr, index, val1, val2))), v);
      var line := before.data[index - 1];
      && after == before.(crc := after.crc, data :=
           before.data[index - 1 := line.(lineVol := line.lineVol.(smin := ToUshort(val1), smax := ToUshort(val2)))])
      && (after.data[index - 1].lineVol.smin == val1 <==> 0 <= val1 < 0x10000)
      && (after.data[index - 1].lineVol.smax == val2 <==> 0 <= val2 < 0x10000)
  {
    hide Reg, ReplyOf, Apply, WriteFrame, Parsed, Lines, Sensors, SensorLimits, StartLimits, StartValues, LineLimits,
        Switched;
    var b1, b2 := ReplyOf(addr, regs), ReplyOf(addr, Apply(addr, regs, SetBusbarStartLineVol(addr, index, val1, val2)));
    var first, vals := START_LINE_VOLTAGE_MIN_L1 + (index - 1) * 10, [ToUshort(val1), ToUshort(val2)];
    ReplyShowsRegisters(addr, regs);
    WriteShows(addr, regs, first, vals);
    assert b2[0] == b2[..4][0];
    ParsedStart(b1, v);
    ParsedStart(b2, v);
    StartValuesStay(b1, b2, first, vals, v);
    LinesStay(b1, b2, first, vals, v);
    StartLimitsStay(b1, b2, first, vals, StartValues(b1, v));
    SensorLimitsStay(b1, b2, first, vals, Sensors(b1, 84, v.env, SENSORS));
    LineVolShown(b1, b2, index, val1, val2, Lines(b1, v.data, LINES), Switch(b1));
    UshortFits(val1);
    UshortFits(val2);
  }

  lemma StartLimitsStay(b1: Reply, b2: Reply, first: nat, vals: seq<Ushort>, p: Packet)
    requires 301 <= first && first + |vals| <= REGISTERS && Shows(b1, b2, first, vals)
    ensures StartLimits(b2, p) == StartLimits(b1, p)
  {
    hide Reg;
  }

  lemma LineVolShown(b1: Reply, b2: Reply, index: LineIndex, val1: int, val2: int, data: seq<Line>, sw: Uchar)
    requires |data| == LOOPS
    requires Shows(b1, b2, START_LINE_VOLTAGE_MIN_L1 + (index - 1) * 10, [ToUshort(val1), ToUshort(val2)])
    ensures
      var before, after := Switched(LineLimits(b1, data, LINES), sw, LINES),
          Switched(LineLimits(b2, data, LINES), sw, LINES);
      var line := before[index - 1];
      after == before[index - 1 := line.(lineVol := line.lineVol.(smin := ToUshort(val1), smax := ToUshort(val2)))]
  {
    hide Reg, ToUshort;
  }

  lemma StartPowReadsBack(addr: bv8, regs: Registers, val1: int, val2: int, v: Packet)
    requires v.Valid() && addr == 1
    ensures
      var before := Parsed(ReplyOf(addr, regs), v);
      var after := Parsed(ReplyOf(addr, Apply(addr, regs, SetBusbarStartPow(addr, val1, val2))), v);
      && after == before.(crc := after.crc, totalPow := before.totalPow.(imin := ToUint(val1), imax := ToUint(val2)))
      && (after.totalPow.imin == val1 <==> 0 <= val1 < 0x1_0000_0000)
      && (after.totalPow.imax == val2 <==> 0 <= val2 < 0x1_0000_0000)
  {
    hide Reg, ReplyOf, Apply, WriteFrame, Parsed, Lines, Sensors, SensorLimits, StartLimits, StartValues, LineLimits,
        Switched;
    var b1, b2 := ReplyOf(addr, regs), ReplyOf(addr, Apply(addr, regs, SetBusbarStartPow(addr, val1, val2)));
    var first := START_TOTAL_POW_MIN_1;
    var vals := [High(ToUint(val1)), Low(ToUint(val1)), High(ToUint(val2)), Low(ToUint(val2))];
    ReplyShowsRegisters(addr, regs);
    WriteShows(addr, regs, first, vals);
    assert b2[0] == b2[..4][0];
    ParsedStart(b1, v);
    ParsedStart(b2, v);
    StartValuesStay(b1, b2, first, vals, v);
    LinesStay(b1, b2, first, vals, v);
    SensorLimitsStay(b1, b2, first, vals, Sensors(b1, 84, v.env, SENSORS));
    TotalPowShown(b1, b2, ToUint(val1), ToUint(val2), StartValues(b1, v));
    LineLimitsStay(b1, b2, vals, Lines(b1, v.data, LINES));
    UintFits(val1);
    UintFits(val2);
  }

  lemma TotalPowShown(b1: Reply, b2: Reply, min: Uint, max: Uint, p: Packet)
    requires Shows(b1, b2, START_TOTAL_POW_MIN_1, [High(min), Low(min), High(max), Low(max)])
    ensures
      var q := StartLimits(b1, p);
      StartLimits(b2, p) == q.(totalPow := q.totalPow.(imin := min, imax := max))
  {
    hide Reg;
  }

  lemma LineLimitsStay(b1: Reply, b2: Reply, vals: seq<Ushort>, data: seq<Line>)
    requires |data| == LOOPS && |vals| == 4 && Shows(b1, b2, START_TOTAL_POW_MIN_1, vals)
    ensures LineLimits(b2, data, LINES) == LineLimits(b1, data, LINES)
  {
    hide Reg;
  }
}
