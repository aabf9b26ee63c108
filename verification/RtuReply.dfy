/** dev_sirtu.cpp and datapacket.h: the reply of a box, 706 bytes that hold 350 registers, and the
    fields a reader must find in them, stated by register number as in the register map. */
module RtuReply {
  import opened ModbusCrc
  import opened RtuFrames

  const LINES := 3
  const LOOPS := 9
  const SENSORS := 4
  const HARMONICS := 32
  const REPLY_SIZE := 2 * REGISTERS + 6

  // The register map, sSetStartType and sSetPlugType.
  const START_ELE_1 := 34
  const START_TEMPERATURE_MIN_1 := 284
  const START_RE_CUR_ALARM := 292
  const START_ZONE_CUR_MIN := 293
  const START_TOTAL_POW_MIN_1 := 295
  const START_TOTAL_POW_MAX_1 := 297
  const START_SET_HZ_MIN := 299
  const START_LINE_VOLTAGE_MIN_L1 := 301
  const START_VOLTAGE_MIN_L1 := 303
  const START_CURRENT_MIN_L1 := 305
  const START_POWER_MIN_L1 := 307
  const START_POWER_MAX_L1 := 309
  const PLUG_BAUD_RATE := 4
  const SET_PLUG_IOF := 5
  const SET_PLUG_BUZZER := 6
  const SET_PLUG_ALARM_TIME := 7
  const PLUG_ELE_1 := 30
  const PLUG_TEMPERATURE_MIN_1 := 165
  const PLUG_VOLTAGE_MIN_L1 := 173
  const PLUG_CURRENT_MIN_L1 := 175
  const PLUG_POWER_MIN_L1 := 177
  const PLUG_POWER_MAX_L1 := 179
  const PLUG_ZERO_LINE_MIN := 247

  type Uchar = n: nat | n < 0x100
  type Uint = n: nat | n < 0x1_0000_0000

  datatype UshortUnit = UshortUnit(svalue: Ushort, smin: Ushort, smax: Ushort, supalarm: Uchar)
  datatype UintUnit = UintUnit(ivalue: Uint, imin: Uint, imax: Uint, iupalarm: Uchar)
  datatype Line = Line(
    vol: UshortUnit, cur: UshortUnit, lineVol: UshortUnit, pow: UintUnit,
    apPow: Uint, ele: Uint, reactivePower: Uint, pf: Uchar, sw: Uchar)
  datatype Env = Env(value: Ushort, min: Ushort, max: Ushort, upalarm: Uchar, alarm: Uchar)

  /** Rtu_recv. */
  datatype Packet = Packet(
    addr: Uchar, fn: Uchar, len: Ushort, crc: bv16,
    version: Uchar, proNum: Uchar, dc: Uchar, curSpecification: Uchar, workMode: Uchar, baudRate: Uchar,
    buzzerStatus: Uchar, alarmTime: Uchar, lightning: Uchar, iOF: Uchar, isd: Uchar, shuntRelease: Uchar,
    reState: Uchar, lpsState: Uchar, lineNum: Uchar, boxType: Uchar, breaker: Uchar,
    volUnbalance: Uchar, curUnbalance: Uchar,
    data: seq<Line>, env: seq<Env>, totalApPow: Uint, totalPow: UintUnit,
    reCur: UshortUnit, zeroLineCur: UshortUnit, rate: UshortUnit,
    volThd: seq<seq<Ushort>>, curThd: seq<seq<Ushort>>, thd: seq<Ushort>, pl: seq<Uchar>)
  {
    /** The sizes of the arrays. */
    predicate Valid() {
      && |data| == LOOPS && |env| == SENSORS && |volThd| == |curThd| == 4 && |thd| == 40 && |pl| == 3
      && forall i :: 0 <= i < 4 ==> |volThd[i]| == 40 && |curThd[i]| == 40
    }
  }

  /** A ushort assigned to a uchar field. */
  function Cut(n: Ushort): Uchar {
    n % 0x100
  }

  /** Two registers read as one value, high word first. */
  function Join(high: Ushort, low: Ushort): Uint {
    high * 0x10000 + low
  }

  /** Register r of a reply: the big-endian word at byte 4 + 2r. */
  function Reg(buf: seq<bv8>, r: nat): Ushort
    requires |buf| == REPLY_SIZE && r < REGISTERS
  {
    WordAt(buf, 4 + 2 * r)
  }

  function Reg2(buf: seq<bv8>, r: nat): Uint
    requires |buf| == REPLY_SIZE && r + 1 < REGISTERS
  {
    Join(Reg(buf, r), Reg(buf, r + 1))
  }

  type Reply = b: seq<bv8> | |b| == REPLY_SIZE witness seq(REPLY_SIZE, i => 0)

  // ---------------------------------------------------------------------------------------------
  // What the fields of a box are, register by register.
  // ---------------------------------------------------------------------------------------------

  /** The measured values of loop i of a plug box: fifteen registers each. */
  function PlugLoopValues(buf: Reply, i: nat, p: Line): Line
    requires i < LOOPS
  {
    var r := 16 + 15 * i;
    p.(vol := p.vol.(svalue := Reg(buf, r), supalarm := Cut(Reg(buf, r + 1))),
       cur := p.cur.(svalue := Reg(buf, r + 2), supalarm := Cut(Reg(buf, r + 3))),
       pow := p.pow.(ivalue := Reg2(buf, r + 4), iupalarm := Cut(Reg(buf, r + 6))),
       reactivePower := Reg2(buf, r + 7), apPow := Reg2(buf, r + 9), pf := Cut(Reg(buf, r + 11)),
       sw := (Reg(buf, r + 12) + 0xff) % 0x100,
       ele := Reg2(buf, PLUG_ELE_1 - 1 + 15 * i))
  }

  /** The thresholds of loop i of a plug box: eight registers each. */
  function PlugLoopLimits(buf: Reply, i: nat, p: Line): Line
    requires i < LOOPS
  {
    p.(vol := p.vol.(smin := Reg(buf, PLUG_VOLTAGE_MIN_L1 + 8 * i), smax := Reg(buf, PLUG_VOLTAGE_MIN_L1 + 8 * i + 1)),
       cur := p.cur.(smin := Reg(buf, PLUG_CURRENT_MIN_L1 + 8 * i), smax := Reg(buf, PLUG_CURRENT_MIN_L1 + 8 * i + 1)),
       pow := p.pow.(imin := Reg2(buf, PLUG_POWER_MIN_L1 + 8 * i), imax := Reg2(buf, PLUG_POWER_MAX_L1 + 8 * i)))
  }

  function EnvValues(buf: Reply, base: nat, i: nat, e: Env): Env
    requires i < SENSORS && base + 2 * SENSORS <= REGISTERS
  {
    e.(value := Reg(buf, base + 2 * i), alarm := Cut(Reg(buf, base + 2 * i + 1)))
  }

  function EnvLimits(buf: Reply, base: nat, i: nat, e: Env): Env
    requires i < SENSORS && base + 2 * SENSORS <= REGISTERS
  {
    e.(min := Reg(buf, base + 2 * i), max := Reg(buf, base + 2 * i + 1))
  }

  /** The measured values of line i of a start box: seventeen registers each, the last one in pl. */
  function StartLineValues(buf: Reply, i: nat, p: Line): Line
    requires i < LINES
  {
    var r := 19 + 17 * i;
    p.(lineVol := p.lineVol.(svalue := Reg(buf, r), supalarm := Cut(Reg(buf, r + 1))),
       vol := p.vol.(svalue := Reg(buf, r + 2), supalarm := Cut(Reg(buf, r + 3))),
       cur := p.cur.(svalue := Reg(buf, r + 4), supalarm := Cut(Reg(buf, r + 5))),
       pow := p.pow.(ivalue := Reg2(buf, r + 6), iupalarm := Cut(Reg(buf, r + 8))),
       reactivePower := Reg2(buf, r + 9), apPow := Reg2(buf, r + 11), pf := Cut(Reg(buf, r + 13)),
       ele := Reg2(buf, START_ELE_1 - 1 + 17 * i))
  }

  /** The thresholds of line i of a start box: ten registers each. */
  function StartLineLimits(buf: Reply, i: nat, p: Line): Line
    requires i < LINES
  {
    p.(lineVol := p.lineVol.(smin := Reg(buf, START_LINE_VOLTAGE_MIN_L1 + 10 * i),
                             smax := Reg(buf, START_LINE_VOLTAGE_MIN_L1 + 10 * i + 1)),
       vol := p.vol.(smin := Reg(buf, START_VOLTAGE_MIN_L1 + 10 * i), smax := Reg(buf,
           START_VOLTAGE_MIN_L1 + 10 * i + 1)),
       cur := p.cur.(smin := Reg(buf, START_CURRENT_MIN_L1 + 10 * i), smax := Reg(buf,
           START_CURRENT_MIN_L1 + 10 * i + 1)),
       pow := p.pow.(imin := Reg2(buf, START_POWER_MIN_L1 + 10 * i), imax := Reg2(buf, START_POWER_MAX_L1 + 10 * i)))
  }

  function PlugSetup(buf: Reply, v: Packet): Packet {
    v.(version := Cut(Reg(buf, 0)), proNum := Cut(Reg(buf, 1)), lineNum := Cut(Reg(buf, 2)),
       baudRate := Cut(Reg(buf, 4)), iOF := Cut(Reg(buf, 5)), buzzerStatus := Cut(Reg(buf, 6)),
       alarmTime := Cut(Reg(buf, 7)), boxType := Cut(Reg(buf, 8)))
  }

  function StartSetup(buf: Reply, v: Packet): Packet {
    v.(proNum := Cut(Reg(buf, 0)), version := Cut(Reg(buf, 1)), dc := if Cut(Reg(buf, 2)) != 0 then 0 else 1,
       curSpecification := Cut(Reg(buf, 3)), workMode := Cut(Reg(buf, 4)), baudRate := Cut(Reg(buf, 5)),
       buzzerStatus := Cut(Reg(buf, 6)), alarmTime := Cut(Reg(buf, 7)), lightning := Cut(Reg(buf, 8)),
       iOF := Cut(Reg(buf, 9)), isd := Cut(Reg(buf, 10)), shuntRelease := Cut(Reg(buf, 11)),
       reState := Cut(Reg(buf, 12)), lpsState := Cut(Reg(buf, 13)))
  }

  function StartTotals(buf: Reply, v: Packet): Packet {
    v.(totalApPow := Reg2(buf, 70),
       totalPow := v.totalPow.(ivalue := Reg2(buf, 72), iupalarm := Cut(Reg(buf, 74))),
       reCur := v.reCur.(svalue := Reg(buf, 75), supalarm := Cut(Reg(buf, 76))),
       zeroLineCur := v.zeroLineCur.(svalue := Reg(buf, 77), supalarm := Cut(Reg(buf, 78))),
       volUnbalance := Cut(Reg(buf, 79)), curUnbalance := Cut(Reg(buf, 80)), breaker := Cut(Reg(buf, 81)),
       rate := v.rate.(svalue := Reg(buf, 82), supalarm := Cut(Reg(buf, 83))))
  }

  /** The limits of a start box that belong to no line; the alarm of the residual current is read
      here a second time, from its own register. */
  function StartLimits(buf: Reply, v: Packet): Packet {
    v.(reCur := v.reCur.(supalarm := Cut(Reg(buf, START_RE_CUR_ALARM))),
       zeroLineCur := v.zeroLineCur.(smin := Reg(buf, START_ZONE_CUR_MIN), smax := Reg(buf, START_ZONE_CUR_MIN + 1)),
       totalPow := v.totalPow.(imin := Reg2(buf, START_TOTAL_POW_MIN_1), imax := Reg2(buf, START_TOTAL_POW_MAX_1)),
       rate := v.rate.(smin := Reg(buf, START_SET_HZ_MIN), smax := Reg(buf, START_SET_HZ_MIN + 1)))
  }

  // Arrays of the packet, with their first n elements replaced.

  function Loops(buf: Reply, data: seq<Line>, n: nat): (d: seq<Line>)
    requires n <= LOOPS <= |data|
    ensures |d| == |data|
  {
    seq(|data|, i requires 0 <= i < |data| => if i < n then PlugLoopValues(buf, i, data[i]) else data[i])
  }

  function LoopLimits(buf: Reply, data: seq<Line>, n: nat): (d: seq<Line>)
    requires n <= LOOPS <= |data|
    ensures |d| == |data|
  {
    seq(|data|, i requires 0 <= i < |data| => if i < n then PlugLoopLimits(buf, i, data[i]) else data[i])
  }

  function Sensors(buf: Reply, base: nat, env: seq<Env>, n: nat): (e: seq<Env>)
    requires n <= SENSORS <= |env| && base + 2 * SENSORS <= REGISTERS
    ensures |e| == |env|
  {
    seq(|env|, i requires 0 <= i < |env| => if i < n then EnvValues(buf, base, i, env[i]) else env[i])
  }

  function SensorLimits(buf: Reply, base: nat, env: seq<Env>, n: nat): (e: seq<Env>)
    requires n <= SENSORS <= |env| && base + 2 * SENSORS <= REGISTERS
    ensures |e| == |env|
  {
    seq(|env|, i requires 0 <= i < |env| => if i < n then EnvLimits(buf, base, i, env[i]) else env[i])
  }

  function Lines(buf: Reply, data: seq<Line>, n: nat): (d: seq<Line>)
    requires n <= LINES <= |data|
    ensures |d| == |data|
  {
    seq(|data|, i requires 0 <= i < |data| => if i < n then StartLineValues(buf, i, data[i]) else data[i])
  }

  function LineLimits(buf: Reply, data: seq<Line>, n: nat): (d: seq<Line>)
    requires n <= LINES <= |data|
    ensures |d| == |data|
  {
    seq(|data|, i requires 0 <= i < |data| => if i < n then StartLineLimits(buf, i, data[i]) else data[i])
  }

  /** n registers from base on, as an array whose further elements stay. */
  function Words(buf: Reply, base: nat, old': seq<Ushort>, n: nat): (w: seq<Ushort>)
    requires n <= |old'| && base + n <= REGISTERS
    ensures |w| == |old'|
  {
    seq(|old'|, i requires 0 <= i < |old'| => WordOr(buf, base, old', n, i))
  }

  function WordOr(buf: Reply, base: nat, old': seq<Ushort>, n: nat, i: nat): Ushort
    requires i < |old'| && base + n <= REGISTERS
  {
    if i < n then Reg(buf, base + i) else old'[i]
  }

  /** The same for an array of bytes. */
  function CutWords(buf: Reply, base: nat, old': seq<Uchar>, n: nat): (w: seq<Uchar>)
    requires n <= |old'| && base + n <= REGISTERS
    ensures |w| == |old'|
  {
    seq(|old'|, i requires 0 <= i < |old'| => CutWordOr(buf, base, old', n, i))
  }

  function CutWordOr(buf: Reply, base: nat, old': seq<Uchar>, n: nat, i: nat): Uchar
    requires i < |old'| && base + n <= REGISTERS
  {
    if i < n then Cut(Reg(buf, base + i)) else old'[i]
  }

  /** Lists of rows of the harmonics, from register 92 on: 32 of voltage, then 32 of current. */
  function VolThd(buf: Reply, rows: seq<seq<Ushort>>, n: nat): (w: seq<seq<Ushort>>)
    requires n <= LINES <= |rows| && forall i :: 0 <= i < |rows| ==> |rows[i]| == 40
    ensures |w| == |rows| && forall i :: 0 <= i < |w| ==> |w[i]| == 40
  {
    seq(|rows|, i requires 0 <= i < |rows| => if i < n then Words(buf, 92 + 64 * i, rows[i], HARMONICS) else rows[i])
  }

  function CurThd(buf: Reply, rows: seq<seq<Ushort>>, n: nat): (w: seq<seq<Ushort>>)
    requires n <= LINES <= |rows| && forall i :: 0 <= i < |rows| ==> |rows[i]| == 40
    ensures |w| == |rows| && forall i :: 0 <= i < |w| ==> |w[i]| == 40
  {
    seq(|rows|, i requires 0 <= i < |rows| => if i < n then Words(buf, 124 + 64 * i, rows[i], HARMONICS) else rows[i])
  }

  /** The load percentages of a start box: one at the end of each line's registers. */
  function LinePl(buf: Reply, pl: seq<Uchar>, n: nat): (w: seq<Uchar>)
    requires n <= LINES <= |pl|
    ensures |w| == |pl|
  {
    seq(|pl|, i requires 0 <= i < |pl| => PlOr(buf, pl, n, i))
  }

  function PlOr(buf: Reply, pl: seq<Uchar>, n: nat, i: nat): Uchar
    requires i < |pl| && n <= LINES
  {
    if i < n then Cut(Reg(buf, 35 + 17 * i)) else pl[i]
  }

  /** The breaker of a start box is the switch of each of its lines. */
  function Switched(data: seq<Line>, sw: Uchar, n: nat): (d: seq<Line>)
    requires n <= |data|
    ensures |d| == |data|
  {
    seq(|data|, i requires 0 <= i < |data| => if i < n then data[i].(sw := sw) else data[i])
  }

  function PlugBox(buf: Reply, v: Packet): (p: Packet)
    requires v.Valid()
    ensures p.Valid()
  {
    PlugSetup(buf, v).(
      data := LoopLimits(buf, Loops(buf, v.data, LOOPS), LOOPS),
      thd := Words(buf, 151, v.thd, LINES),
      pl := CutWords(buf, 154, v.pl, LINES),
      env := SensorLimits(buf, PLUG_TEMPERATURE_MIN_1, Sensors(buf, 157, v.env, SENSORS), SENSORS))
  }

  function StartBox(buf: Reply, v: Packet): (p: Packet)
    requires v.Valid()
    ensures p.Valid()
  {
    StartLimits(buf, StartTotals(buf, StartSetup(buf, v))).(
      data := Switched(LineLimits(buf, Lines(buf, v.data, LINES), LINES), if Cut(Reg(buf, 81)) == 1 then 0 else 1,
          LINES),
      pl := LinePl(buf, v.pl, LINES),
      env := SensorLimits(buf, START_TEMPERATURE_MIN_1, Sensors(buf, 84, v.env, SENSORS), SENSORS),
      volThd := VolThd(buf, v.volThd, LINES),
      curThd := CurThd(buf, v.curThd, LINES),
      lineNum := 3)
  }

  function Head(buf: Reply, v: Packet): Packet {
    v.(addr := buf[0] as int, fn := buf[1] as int, len := WordAt(buf, 2))
  }

  /** A reply the parser takes apart: the right number of bytes, and a length field that says so. */
  predicate LengthsAgree(b: seq<bv8>) {
    |b| == REPLY_SIZE && WordAt(b, 2) == 2 * REGISTERS
  }

  /** The packet after a reply. */
  function Parsed(buf: Reply, v: Packet): (p: Packet)
    requires v.Valid()
    ensures p.Valid()
  {
    var h := Head(buf, v);
    (if h.addr == 1 then StartBox(buf, h) else PlugBox(buf, h)).(crc := Word(buf[REPLY_SIZE - 1], buf[REPLY_SIZE - 2]))
  }

  /** The packet after several replies, one written over the other. */
  function ParsedAll(replies: seq<Reply>, v: Packet): (p: Packet)
    requires v.Valid()
    ensures p.Valid()
    decreases replies
  {
    if replies == [] then v else ParsedAll(replies[1..], Parsed(replies[0], v))
  }

  lemma UpalarmStays(buf: Reply, v: Packet, i: nat)
    requires v.Valid() && i < SENSORS
    ensures Parsed(buf, v).env[i].upalarm == v.env[i].upalarm
  {
    hide Reg, Word, PlugSetup, StartSetup, StartTotals, StartLimits, Loops, LoopLimits, Lines, LineLimits, Switched,
      Words, CutWords, VolThd, CurThd, LinePl;
  }

  /** No reply of any box ever sets the alarm of a sensor that goes into the records: it stays what it
      was before the first reply. */
  lemma {:induction false} UpalarmIsNeverParsed(replies: seq<Reply>, v: Packet, i: nat)
    requires v.Valid() && i < SENSORS
    ensures ParsedAll(replies, v).env[i].upalarm == v.env[i].upalarm
    decreases replies
  {
    hide Parsed;
    if replies != [] {
      UpalarmStays(replies[0], v, i);
      UpalarmIsNeverParsed(replies[1..], Parsed(replies[0], v), i);
    }
  }

  lemma PlugLeavesStartFields(plug: Reply, v: Packet)
    requires v.Valid() && plug[0] != 1
    ensures
      var p := Parsed(plug, v);
      && p.rate == v.rate && p.reCur == v.reCur && p.zeroLineCur == v.zeroLineCur && p.totalPow == v.totalPow
      && p.volUnbalance == v.volUnbalance && p.curUnbalance == v.curUnbalance
  {
    hide StartBox, LoopLimits, Loops, SensorLimits, Sensors, Words, CutWords, Reg, Word;
  }

  /** However many plug boxes reply, the fields that only a start box sends stay what they were. */
  lemma {:induction false} PlugsLeaveStartFields(plugs: seq<Reply>, v: Packet)
    requires v.Valid() && forall i :: 0 <= i < |plugs| ==> plugs[i][0] != 1
    ensures
      var p := ParsedAll(plugs, v);
      && p.rate == v.rate && p.reCur == v.reCur && p.zeroLineCur == v.zeroLineCur && p.totalPow == v.totalPow
      && p.volUnbalance == v.volUnbalance && p.curUnbalance == v.curUnbalance
    decreases plugs
  {
    hide Parsed;
    if plugs != [] {
      PlugLeavesStartFields(plugs[0], v);
      PlugsLeaveStartFields(plugs[1..], Parsed(plugs[0], v));
    }
  }
}
