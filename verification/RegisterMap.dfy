/** The register map, by the numbers: which register, or pair of registers with the high word first,
    every measured value of a reply comes from, in the parsed packet and in the record of the box. */
module RegisterMap {
  import opened ModbusCrc
  import opened RtuFrames
  import opened RtuReply
  import opened RtuReadBack
  import opened BoxData
  import opened BoxReadBack

  /** Registers r and r + 1 as one number. */
  function Pair(regs: Registers, r: nat): nat
    requires r + 1 < REGISTERS
  {
    var high: int := regs[r];
    0x10000 * high + regs[r + 1]
  }

  lemma PairIs(b: Reply, regs: Registers, r: nat)
    requires r + 1 < REGISTERS && Reg(b, r) == regs[r] && Reg(b, r + 1) == regs[r + 1]
    ensures Reg2(b, r) == Pair(regs, r)
  {
    hide Reg;
  }

  // ---------------------------------------------------------------------------------------------
  // Plug boxes.
  // ---------------------------------------------------------------------------------------------

  /** A plug box sends the state of a switch one too high. */
  function SentSwitch(sw: Uchar): nat {
    var state: int := sw;
    (state + 1) % 0x100
  }

  /** Loop i + 1 of a plug box: fifteen registers of values from 16 on, eight of limits from 173 on. */
  ghost predicate IsPlugLoop(regs: Registers, i: nat, p: Line)
    requires i < LOOPS
  {
    var r, l := 16 + 15 * i, 173 + 8 * i;
    && p.vol == UshortUnit(regs[r], regs[l], regs[l + 1], regs[r + 1] % 0x100)
    && p.cur == UshortUnit(regs[r + 2], regs[l + 2], regs[l + 3], regs[r + 3] % 0x100)
    && p.pow == UintUnit(Pair(regs, r + 4), Pair(regs, l + 4), Pair(regs, l + 6), regs[r + 6] % 0x100)
    && p.reactivePower == Pair(regs, r + 7) && p.apPow == Pair(regs, r + 9) && p.pf == regs[r + 11] % 0x100
    && SentSwitch(p.sw) == regs[r + 12] % 0x100 && p.ele == Pair(regs, r + 13)
  }

  lemma PlugLoopParsed(addr: bv8, regs: Registers, v: Packet, i: nat)
    requires v.Valid() && addr != 1 && i < LOOPS
    ensures IsPlugLoop(regs, i, Parsed(ReplyOf(addr, regs), v).data[i])
  {
    hide Reg, ReplyOf, Parsed, PlugLoopLimits, PlugLoopValues, IsPlugLoop;
    var b := ReplyOf(addr, regs);
    ReplyShowsRegisters(addr, regs);
    ParsedLimits(b, v);
    PlugLoopByRegisters(b, regs, i, v.data[i]);
  }

  lemma PlugLoopByRegisters(b: Reply, regs: Registers, i: nat, p: Line)
    requires i < LOOPS && forall r: nat :: r < REGISTERS ==> Reg(b, r) == regs[r]
    ensures IsPlugLoop(regs, i, PlugLoopLimits(b, i, PlugLoopValues(b, i, p)))
  {
    hide Reg, Reg2, Pair;
    var r, l := 16 + 15 * i, 173 + 8 * i;
    PairIs(b, regs, r + 4);
    PairIs(b, regs, r + 7);
    PairIs(b, regs, r + 9);
    PairIs(b, regs, r + 13);
    PairIs(b, regs, l + 4);
    PairIs(b, regs, l + 6);
  }

  /** Sensor i + 1: value and alarm from register base on, limits from register limits on. */
  ghost predicate IsSensor(regs: Registers, base: nat, limits: nat, i: nat, e: Env)
    requires i < SENSORS && base + 2 * SENSORS <= limits && limits + 2 * SENSORS <= REGISTERS
  {
    && e.value == regs[base + 2 * i] && e.alarm == regs[base + 2 * i + 1] % 0x100
    && e.min == regs[limits + 2 * i] && e.max == regs[limits + 2 * i + 1]
  }

  lemma PlugSensorParsed(addr: bv8, regs: Registers, v: Packet, i: nat)
    requires v.Valid() && addr != 1 && i < SENSORS
    ensures IsSensor(regs, 157, 165, i, Parsed(ReplyOf(addr, regs), v).env[i])
  {
    hide Reg, ReplyOf, Parsed;
    ReplyShowsRegisters(addr, regs);
    ParsedLimits(ReplyOf(addr, regs), v);
  }

  /** What a plug box says of itself, and its load. */
  ghost predicate IsPlugSetup(addr: bv8, regs: Registers, p: Packet) {
    && p.addr == addr as int && p.fn == 3 && p.len == 700
    && p.version == regs[0] % 0x100 && p.proNum == regs[1] % 0x100 && p.lineNum == regs[2] % 0x100
    && p.baudRate == regs[4] % 0x100 && p.iOF == regs[5] % 0x100 && p.buzzerStatus == regs[6] % 0x100
    && p.alarmTime == regs[7] % 0x100 && p.boxType == regs[8] % 0x100
  }

  lemma PlugSetupParsed(addr: bv8, regs: Registers, v: Packet)
    requires v.Valid() && addr != 1
    ensures IsPlugSetup(addr, regs, Parsed(ReplyOf(addr, regs), v))
  {
    hide Reg, ReplyOf, Parsed, LengthsAgree;
    var b := ReplyOf(addr, regs);
    ReplyShowsRegisters(addr, regs);
    ParsedSetup(b, v);
    ParsedHead(addr, regs, v);
  }

  lemma ParsedHead(addr: bv8, regs: Registers, v: Packet)
    requires v.Valid()
    ensures
      var p := Parsed(ReplyOf(addr, regs), v);
      p.addr == addr as int && p.fn == 3 && p.len == 700
  {
    hide ReplyOf, Parsed, Reg, WordAt;
    ReplyShowsRegisters(addr, regs);
    ReplyFunction(addr, regs);
    HeadIsKept(ReplyOf(addr, regs), v);
  }

  lemma HeadIsKept(b: Reply, v: Packet)
    requires v.Valid()
    ensures
      var p := Parsed(b, v);
      p.addr == b[0] as int && p.fn == b[1] as int && p.len == WordAt(b, 2)
  {
    hide PlugBox, StartBox, Word, WordAt;
    PlugKeepsHead(b, Head(b, v));
    StartKeepsHead(b, Head(b, v));
  }

  lemma PlugKeepsHead(b: Reply, h: Packet)
    requires h.Valid()
    ensures PlugBox(b, h).addr == h.addr && PlugBox(b, h).fn == h.fn && PlugBox(b, h).len == h.len
  {
    hide Reg, Loops, LoopLimits, Sensors, SensorLimits, Words, CutWords;
  }

  lemma StartKeepsHead(b: Reply, h: Packet)
    requires h.Valid()
    ensures StartBox(b, h).addr == h.addr && StartBox(b, h).fn == h.fn && StartBox(b, h).len == h.len
  {
    hide Reg, Lines, LineLimits, Switched, Sensors, SensorLimits, VolThd, CurThd, LinePl;
  }

  /** The harmonics and the load of the three phases of a plug box. */
  lemma PlugLoadParsed(addr: bv8, regs: Registers, v: Packet, i: nat)
    requires v.Valid() && addr != 1 && i < LINES
    ensures Parsed(ReplyOf(addr, regs), v).thd[i] == regs[151 + i]
    ensures Parsed(ReplyOf(addr, regs), v).pl[i] == regs[154 + i] % 0x100
  {
    hide Reg, ReplyOf, Loops, LoopLimits, Sensors, SensorLimits, PlugSetup, StartBox;
    ReplyShowsRegisters(addr, regs);
  }

  // ---------------------------------------------------------------------------------------------
  // The start box.
  // ---------------------------------------------------------------------------------------------

  /** Line i + 1 of a start box: seventeen registers of values from 19 on, ten of limits from 301 on.
      The breaker is the switch of every line. */
  ghost predicate IsStartLine(regs: Registers, i: nat, p: Line)
    requires i < LINES
  {
    var r, l := 19 + 17 * i, 301 + 10 * i;
    && p.lineVol == UshortUnit(regs[r], regs[l], regs[l + 1], regs[r + 1] % 0x100)
    && p.vol == UshortUnit(regs[r + 2], regs[l + 2], regs[l + 3], regs[r + 3] % 0x100)
    && p.cur == UshortUnit(regs[r + 4], regs[l + 4], regs[l + 5], regs[r + 5] % 0x100)
    && p.pow == UintUnit(Pair(regs, r + 6), Pair(regs, l + 6), Pair(regs, l + 8), regs[r + 8] % 0x100)
    && p.reactivePower == Pair(regs, r + 9) && p.apPow == Pair(regs, r + 11) && p.pf == regs[r + 13] % 0x100
    && p.ele == Pair(regs, r + 14) && p.sw == (if regs[81] % 0x100 == 1 then 0 else 1)
  }

  lemma StartLineParsed(regs: Registers, v: Packet, i: nat)
    requires v.Valid() && i < LINES
    ensures IsStartLine(regs, i, Parsed(ReplyOf(1, regs), v).data[i])
  {
    hide Reg, ReplyOf, Parsed, StartLineLimits, StartLineValues, IsStartLine, Switch;
    var b := ReplyOf(1, regs);
    ReplyShowsRegisters(1, regs);
    LineOfStart(b, v, i);
    StartLineByRegisters(b, regs, i, v.data[i]);
  }

  lemma LineOfStart(b: Reply, v: Packet, i: nat)
    requires v.Valid() && b[0] == 1 && i < LINES
    ensures Parsed(b, v).data[i] == StartLineLimits(b, i, StartLineValues(b, i, v.data[i])).(sw := Switch(b))
  {
    hide Reg, Parsed, StartValues, StartLimits, SensorLimits, Sensors, StartLineLimits, StartLineValues, Switch;
    ParsedStart(b, v);
  }

  lemma StartLineByRegisters(b: Reply, regs: Registers, i: nat, p: Line)
    requires i < LINES && forall r: nat :: r < REGISTERS ==> Reg(b, r) == regs[r]
    ensures IsStartLine(regs, i, StartLineLimits(b, i, StartLineValues(b, i, p)).(sw := Switch(b)))
  {
    hide Reg, Reg2, Pair;
    var r, l := 19 + 17 * i, 301 + 10 * i;
    PairIs(b, regs, r + 6);
    PairIs(b, regs, r + 9);
    PairIs(b, regs, r + 11);
    PairIs(b, regs, r + 14);
    PairIs(b, regs, l + 6);
    PairIs(b, regs, l + 8);
  }

  lemma StartSensorParsed(regs: Registers, v: Packet, i: nat)
    requires v.Valid() && i < SENSORS
    ensures IsSensor(regs, 84, 284, i, Parsed(ReplyOf(1, regs), v).env[i])
  {
    hide Reg, ReplyOf, Parsed, StartValues, StartLimits, LineLimits, Lines, Switched;
    ReplyShowsRegisters(1, regs);
    ParsedStart(ReplyOf(1, regs), v);
  }

  /** What a start box says of itself: it always has three lines. */
  ghost predicate IsStartSetup(regs: Registers, p: Packet) {
    && p.addr == 1 && p.fn == 3 && p.len == 700 && p.lineNum == 3
    && p.proNum == regs[0] % 0x100 && p.version == regs[1] % 0x100 && (p.dc == 0 <==> regs[2] % 0x100 != 0)
    && p.dc < 2 && p.curSpecification == regs[3] % 0x100 && p.workMode == regs[4] % 0x100
    && p.baudRate == regs[5] % 0x100 && p.buzzerStatus == regs[6] % 0x100 && p.alarmTime == regs[7] % 0x100
    && p.lightning == regs[8] % 0x100 && p.iOF == regs[9] % 0x100 && p.isd == regs[10] % 0x100
    && p.shuntRelease == regs[11] % 0x100 && p.reState == regs[12] % 0x100 && p.lpsState == regs[13] % 0x100
  }

  /** What it measures of the whole; of the residual current the limits are never sent, and its alarm is
      the one in register 292. */
  ghost predicate IsStartTotal(regs: Registers, v: Packet, p: Packet) {
    && p.totalApPow == Pair(regs, 70)
    && p.totalPow == UintUnit(Pair(regs, 72), Pair(regs, 295), Pair(regs, 297), regs[74] % 0x100)
    && p.reCur == UshortUnit(regs[75], v.reCur.smin, v.reCur.smax, regs[292] % 0x100)
    && p.zeroLineCur == UshortUnit(regs[77], regs[293], regs[294], regs[78] % 0x100)
    && p.volUnbalance == regs[79] % 0x100 && p.curUnbalance == regs[80] % 0x100 && p.breaker == regs[81] % 0x100
    && p.rate == UshortUnit(regs[82], regs[299], regs[300], regs[83] % 0x100)
  }

  lemma StartParsed(regs: Registers, v: Packet)
    requires v.Valid()
    ensures IsStartSetup(regs, Parsed(ReplyOf(1, regs), v)) && IsStartTotal(regs, v, Parsed(ReplyOf(1, regs), v))
  {
    hide Reg, ReplyOf, Parsed, LineLimits, Lines, Switched, SensorLimits, Sensors, VolThd, CurThd, LinePl,
      LengthsAgree;
    ReplyShowsRegisters(1, regs);
    ParsedStart(ReplyOf(1, regs), v);
    ParsedHead(1, regs, v);
  }

  /** The harmonics and the load of line i + 1 of a start box. */
  lemma StartLoadParsed(regs: Registers, v: Packet, i: nat, k: nat)
    requires v.Valid() && i < LINES && k < HARMONICS
    ensures
      var p := Parsed(ReplyOf(1, regs), v);
      && p.volThd[i][k] == regs[92 + 64 * i + k] && p.curThd[i][k] == regs[124 + 64 * i + k]
      && p.pl[i] == regs[35 + 17 * i] % 0x100
  {
    hide Reg, ReplyOf, Parsed, LineLimits, Lines, Switched, SensorLimits, Sensors, StartSetup, StartTotals;
    ReplyShowsRegisters(1, regs);
    ParsedStart(ReplyOf(1, regs), v);
  }

  // ---------------------------------------------------------------------------------------------
  // The record: what it keeps of a reading, in which register it was sent.
  // ---------------------------------------------------------------------------------------------

  /** Row i of the record of a plug box; every limit is kept twice. */
  ghost predicate IsPlugRow(regs: Registers, i: nat, d: ObjectData)
    requires i < LOOPS && d.Valid()
  {
    var r, l := 16 + 15 * i, 173 + 8 * i;
    && d.vol.value[i] == regs[r] && d.vol.upalarm[i] == regs[r + 1] % 0x100
    && d.vol.min[i] == d.vol.crMin[i] == regs[l] && d.vol.max[i] == d.vol.crMax[i] == regs[l + 1]
    && d.cur.value[i] == regs[r + 2] && d.cur.upalarm[i] == regs[r + 3] % 0x100
    && d.cur.min[i] == d.cur.crMin[i] == regs[l + 2] && d.cur.max[i] == d.cur.crMax[i] == regs[l + 3]
    && d.pow.value[i] == Pair(regs, r + 4) && d.pow.upalarm[i] == regs[r + 6] % 0x100
    && d.pow.min[i] == d.pow.crMin[i] == Pair(regs, l + 4) && d.pow.max[i] == d.pow.crMax[i] == Pair(regs, l + 6)
    && d.reactivePower[i] == Pair(regs, r + 7) && d.apPow[i] == Pair(regs, r + 9)
    && d.pf[i] == regs[r + 11] % 0x100 && SentSwitch(d.sw[i]) == regs[r + 12] % 0x100
    && d.ele[i] == Pair(regs, r + 13)
  }

  ghost predicate IsStartRow(regs: Registers, i: nat, d: ObjectData)
    requires i < LINES && d.Valid()
  {
    var r, l := 19 + 17 * i, 301 + 10 * i;
    && d.vol.value[i] == regs[r + 2] && d.vol.upalarm[i] == regs[r + 3] % 0x100
    && d.vol.min[i] == d.vol.crMin[i] == regs[l + 2] && d.vol.max[i] == d.vol.crMax[i] == regs[l + 3]
    && d.cur.value[i] == regs[r + 4] && d.cur.upalarm[i] == regs[r + 5] % 0x100
    && d.cur.min[i] == d.cur.crMin[i] == regs[l + 4] && d.cur.max[i] == d.cur.crMax[i] == regs[l + 5]
    && d.pow.value[i] == Pair(regs, r + 6) && d.pow.upalarm[i] == regs[r + 8] % 0x100
    && d.pow.min[i] == d.pow.crMin[i] == Pair(regs, l + 6) && d.pow.max[i] == d.pow.crMax[i] == Pair(regs, l + 8)
    && d.reactivePower[i] == Pair(regs, r + 9) && d.apPow[i] == Pair(regs, r + 11)
    && d.pf[i] == regs[r + 13] % 0x100 && d.ele[i] == Pair(regs, r + 14)
    && d.sw[i] == (if regs[81] % 0x100 == 1 then 0 else 1)
  }

  lemma PlugLoopRecorded(addr: bv8, regs: Registers, v: Packet, b: Record, c: Record, i: nat)
    requires addr != 1 && Reads(addr, regs, v, b, c) && i < c.loopNum
    ensures c.loopNum == c.data.lineNum == regs[2] % 0x100 && IsPlugRow(regs, i, c.data)
  {
    hide Parsed, ReplyOf, Sensed, IsPlugLoop, IsPlugRow, ShowsLine;
    PlugLoopParsed(addr, regs, v, i);
    PlugSetupParsed(addr, regs, v);
    LineIsShown(b.data, c.data, Parsed(ReplyOf(addr, regs), v), i);
    PlugRowByLine(regs, i, c.data, Parsed(ReplyOf(addr, regs), v).data[i]);
  }

  lemma PlugRowByLine(regs: Registers, i: nat, d: ObjectData, p: Line)
    requires i < LOOPS && d.Valid() && ShowsLine(d, i, p) && IsPlugLoop(regs, i, p)
    ensures IsPlugRow(regs, i, d)
  {
    hide Pair;
  }

  lemma StartLineRecorded(regs: Registers, v: Packet, b: Record, c: Record, i: nat)
    requires Reads(1, regs, v, b, c) && i < LINES
    ensures c.loopNum == c.data.lineNum == 3 && IsStartRow(regs, i, c.data)
  {
    hide Parsed, ReplyOf, Sensed, IsStartLine, IsStartRow, IsStartTotal, ShowsLine;
    StartLineParsed(regs, v, i);
    StartParsed(regs, v);
    LineIsShown(b.data, c.data, Parsed(ReplyOf(1, regs), v), i);
    StartRowByLine(regs, i, c.data, Parsed(ReplyOf(1, regs), v).data[i]);
  }

  lemma StartRowByLine(regs: Registers, i: nat, d: ObjectData, p: Line)
    requires i < LINES && d.Valid() && ShowsLine(d, i, p) && IsStartLine(regs, i, p)
    ensures IsStartRow(regs, i, d)
  {
    hide Pair;
  }

  lemma SensorRecorded(addr: bv8, regs: Registers, v: Packet, b: Record, c: Record, i: nat)
    requires Reads(addr, regs, v, b, c) && i < SENSORS
    ensures
      var d, r, l := c.tem, (if addr == 1 then 84 else 157) + 2 * i, (if addr == 1 then 284 else 165) + 2 * i;
      && d.value[i] == regs[r] && d.upalarm[i] == v.env[i].upalarm
      && d.min[i] == d.crMin[i] == regs[l] && d.max[i] == d.crMax[i] == regs[l + 1]
  {
    hide Parsed, ReplyOf, Filled;
    var p := Parsed(ReplyOf(addr, regs), v);
    if addr == 1 {
      StartSensorParsed(regs, v, i);
    } else {
      PlugSensorParsed(addr, regs, v, i);
    }
    UpalarmStays(ReplyOf(addr, regs), v, i);
    assert Holds(c.tem, i, SensorUnit(p.env[i]));
  }

  /** The settings of a plug box; what it does not send is what the reader's packet held. */
  ghost predicate ArePlugSettings(regs: Registers, v: Packet, s: Settings) {
    && s.version == regs[0] % 0x100 && s.proNum == regs[1] % 0x100 && s.baudRate == regs[4] % 0x100
    && s.iOF == regs[5] % 0x100 && s.buzzerStatus == regs[6] % 0x100 && s.alarmTime == regs[7] % 0x100
    && s.boxType == regs[8] % 0x100 && s.dc == v.dc && s.lightning == v.lightning && s.lpsState == v.lpsState
    && s.curSpecification == v.curSpecification && s.workMode == v.workMode && s.isd == v.isd
    && s.reState == v.reState
  }

  lemma PlugSettingsRecorded(addr: bv8, regs: Registers, v: Packet, b: Record, c: Record)
    requires addr != 1 && Reads(addr, regs, v, b, c)
    ensures ArePlugSettings(regs, v, c.settings)
  {
    hide Parsed, ReplyOf, Filled, Sensed, Reg, LengthsAgree;
    PlugSetupParsed(addr, regs, v);
    ReplyShowsRegisters(addr, regs);
    OtherSettingsStay(ReplyOf(addr, regs), v);
  }

  lemma OtherSettingsStay(plug: Reply, v: Packet)
    requires v.Valid() && plug[0] != 1
    ensures
      var p := Parsed(plug, v);
      && p.dc == v.dc && p.lightning == v.lightning && p.lpsState == v.lpsState
      && p.curSpecification == v.curSpecification && p.workMode == v.workMode && p.isd == v.isd
      && p.reState == v.reState
  {
    hide StartBox, LoopLimits, Loops, SensorLimits, Sensors, Words, CutWords, Reg, Word;
  }

  /** The settings of a start box, which does not send a type. */
  ghost predicate AreStartSettings(regs: Registers, v: Packet, s: Settings) {
    && s.proNum == regs[0] % 0x100 && s.version == regs[1] % 0x100 && (s.dc == 0 <==> regs[2] % 0x100 != 0)
    && s.curSpecification == regs[3] % 0x100 && s.workMode == regs[4] % 0x100 && s.baudRate == regs[5] % 0x100
    && s.buzzerStatus == regs[6] % 0x100 && s.alarmTime == regs[7] % 0x100 && s.lightning == regs[8] % 0x100
    && s.iOF == regs[9] % 0x100 && s.isd == regs[10] % 0x100 && s.reState == regs[12] % 0x100
    && s.lpsState == regs[13] % 0x100 && s.boxType == v.boxType
  }

  ghost predicate AreStartTotals(regs: Registers, v: Packet, c: Record) {
    && c.totalPow.value == Pair(regs, 72) && c.totalPow.min == Pair(regs, 295) && c.totalPow.max == Pair(regs, 297)
    && c.reCur == UshortUnit(regs[75], v.reCur.smin, v.reCur.smax, regs[292] % 0x100)
    && c.zeroLineCur == UshortUnit(regs[77], regs[293], regs[294], regs[78] % 0x100)
    && c.rate == UshortUnit(regs[82], regs[299], regs[300], regs[83] % 0x100)
    && c.volUnbalance == regs[79] % 0x100 && c.curUnbalance == regs[80] % 0x100
  }

  lemma StartRecorded(regs: Registers, v: Packet, b: Record, c: Record)
    requires Reads(1, regs, v, b, c)
    ensures AreStartSettings(regs, v, c.settings) && AreStartTotals(regs, v, c)
  {
    hide Parsed, ReplyOf, Filled, Sensed, Pair;
    StartParsed(regs, v);
    BoxTypeStays(regs, v);
  }

  lemma BoxTypeStays(regs: Registers, v: Packet)
    requires v.Valid()
    ensures Parsed(ReplyOf(1, regs), v).boxType == v.boxType
  {
    hide Reg, ReplyOf, LineLimits, Lines, Switched, SensorLimits, Sensors, VolThd, CurThd, LinePl, PlugBox;
    ReplyShowsRegisters(1, regs);
  }
}
