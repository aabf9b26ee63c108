/** dev_sirtu.cpp: the parser of a reply.  It only ever advances a pointer; every method says which
    registers it has consumed, and Next cannot be asked for a register beyond the last one, so no
    field is ever read from the CRC. */
module DevSiRtu {
  import opened ModbusCrc
  import opened RtuFrames
  import opened RtuReply

  // Reading through an advancing pointer.  The ghost r is the register it points at.

  /** Two bytes at the pointer; the pointer moves on. */
  method Next(buf: array<bv8>, ptr: nat, ghost r: nat) returns (w: Ushort, next: nat)
    requires buf.Length >= REPLY_SIZE && ptr == 4 + 2 * r && r < REGISTERS
    ensures w == Reg(buf[..REPLY_SIZE], r) && next == 4 + 2 * (r + 1)
  {
    w := buf[ptr] as int * 256 + buf[ptr + 1] as int;
    next := ptr + 2;
  }

  /** Four bytes at the pointer: a word, shifted up, and another added. */
  method NextLong(buf: array<bv8>, ptr: nat, ghost r: nat) returns (w: Uint, next: nat)
    requires buf.Length >= REPLY_SIZE && ptr == 4 + 2 * r && r + 1 < REGISTERS
    ensures w == Reg2(buf[..REPLY_SIZE], r) && next == 4 + 2 * (r + 2)
  {
    hide Reg;
    var high, low;
    high, next := Next(buf, ptr, r);
    low, next := Next(buf, next, r + 1);
    w := Join(high, low);
  }

  method PlugRecvLoopData(buf: array<bv8>, start: nat, i: nat, line: Line) returns (p: Line, ptr: nat)
    requires buf.Length >= REPLY_SIZE && i < LOOPS && start == 4 + 2 * (16 + 15 * i)
    ensures p == PlugLoopValues(buf[..REPLY_SIZE], i, line) && ptr == 4 + 2 * (16 + 15 * (i + 1))
  {
    hide Reg, Reg2, Cut;
    ghost var r := 16 + 15 * i;
    var w: Ushort, l: Uint;
    p := line;
    w, ptr := Next(buf, start, r);
    p := p.(vol := p.vol.(svalue := w));
    w, ptr := Next(buf, ptr, r + 1);
    p := p.(vol := p.vol.(supalarm := Cut(w)));
    w, ptr := Next(buf, ptr, r + 2);
    p := p.(cur := p.cur.(svalue := w));
    w, ptr := Next(buf, ptr, r + 3);
    p := p.(cur := p.cur.(supalarm := Cut(w)));
    l, ptr := NextLong(buf, ptr, r + 4);
    p := p.(pow := p.pow.(ivalue := l));
    w, ptr := Next(buf, ptr, r + 6);
    p := p.(pow := p.pow.(iupalarm := Cut(w)));
    l, ptr := NextLong(buf, ptr, r + 7);
    p := p.(reactivePower := l);
    l, ptr := NextLong(buf, ptr, r + 9);
    p := p.(apPow := l);
    w, ptr := Next(buf, ptr, r + 11);
    p := p.(pf := Cut(w));
    w, ptr := Next(buf, ptr, r + 12);
    p := p.(sw := (w + 0xff) % 0x100);
    l, ptr := NextLong(buf, ptr, r + 13);
    p := p.(ele := l);
  }

  method PlugRecvLoopAlarmData(buf: array<bv8>, start: nat, i: nat, line: Line) returns (p: Line, ptr: nat)
    requires buf.Length >= REPLY_SIZE && i < LOOPS && start == 4 + 2 * (173 + 8 * i)
    ensures p == PlugLoopLimits(buf[..REPLY_SIZE], i, line) && ptr == 4 + 2 * (173 + 8 * (i + 1))
  {
    hide Reg, Reg2;
    ghost var r := 173 + 8 * i;
    var w: Ushort, l: Uint;
    p := line;
    w, ptr := Next(buf, start, r);
    p := p.(vol := p.vol.(smin := w));
    w, ptr := Next(buf, ptr, r + 1);
    p := p.(vol := p.vol.(smax := w));
    w, ptr := Next(buf, ptr, r + 2);
    p := p.(cur := p.cur.(smin := w));
    w, ptr := Next(buf, ptr, r + 3);
    p := p.(cur := p.cur.(smax := w));
    l, ptr := NextLong(buf, ptr, r + 4);
    p := p.(pow := p.pow.(imin := l));
    l, ptr := NextLong(buf, ptr, r + 6);
    p := p.(pow := p.pow.(imax := l));
  }

  method StartRecvLineData(buf: array<bv8>, start: nat, i: nat, line: Line) returns (p: Line, pl: Uchar, ptr: nat)
    requires buf.Length >= REPLY_SIZE && i < LINES && start == 4 + 2 * (19 + 17 * i)
    ensures p == StartLineValues(buf[..REPLY_SIZE], i, line) && pl == Cut(Reg(buf[..REPLY_SIZE], 35 + 17 * i))
    ensures ptr == 4 + 2 * (19 + 17 * (i + 1))
  {
    hide Reg, Reg2, Cut;
    ghost var r := 19 + 17 * i;
    var w: Ushort, l: Uint;
    p := line;
    w, ptr := Next(buf, start, r);
    p := p.(lineVol := p.lineVol.(svalue := w));
    w, ptr := Next(buf, ptr, r + 1);
    p := p.(lineVol := p.lineVol.(supalarm := Cut(w)));
    w, ptr := Next(buf, ptr, r + 2);
    p := p.(vol := p.vol.(svalue := w));
    w, ptr := Next(buf, ptr, r + 3);
    p := p.(vol := p.vol.(supalarm := Cut(w)));
    w, ptr := Next(buf, ptr, r + 4);
    p := p.(cur := p.cur.(svalue := w));
    w, ptr := Next(buf, ptr, r + 5);
    p := p.(cur := p.cur.(supalarm := Cut(w)));
    l, ptr := NextLong(buf, ptr, r + 6);
    p := p.(pow := p.pow.(ivalue := l));
    w, ptr := Next(buf, ptr, r + 8);
    p := p.(pow := p.pow.(iupalarm := Cut(w)));
    l, ptr := NextLong(buf, ptr, r + 9);
    p := p.(reactivePower := l);
    l, ptr := NextLong(buf, ptr, r + 11);
    p := p.(apPow := l);
    w, ptr := Next(buf, ptr, r + 13);
    p := p.(pf := Cut(w));
    l, ptr := NextLong(buf, ptr, r + 14);
    p := p.(ele := l);
    w, ptr := Next(buf, ptr, r + 16);
    pl := Cut(w);
  }

  method StartRecvLastAlarmData(buf: array<bv8>, start: nat, i: nat, line: Line) returns (p: Line, ptr: nat)
    requires buf.Length >= REPLY_SIZE && i < LINES && start == 4 + 2 * (301 + 10 * i)
    ensures p == StartLineLimits(buf[..REPLY_SIZE], i, line) && ptr == 4 + 2 * (301 + 10 * (i + 1))
  {
    hide Reg, Reg2;
    ghost var r := 301 + 10 * i;
    var w: Ushort, l: Uint;
    p := line;
    w, ptr := Next(buf, start, r);
    p := p.(lineVol := p.lineVol.(smin := w));
    w, ptr := Next(buf, ptr, r + 1);
    p := p.(lineVol := p.lineVol.(smax := w));
    w, ptr := Next(buf, ptr, r + 2);
    p := p.(vol := p.vol.(smin := w));
    w, ptr := Next(buf, ptr, r + 3);
    p := p.(vol := p.vol.(smax := w));
    w, ptr := Next(buf, ptr, r + 4);
    p := p.(cur := p.cur.(smin := w));
    w, ptr := Next(buf, ptr, r + 5);
    p := p.(cur := p.cur.(smax := w));
    l, ptr := NextLong(buf, ptr, r + 6);
    p := p.(pow := p.pow.(imin := l));
    l, ptr := NextLong(buf, ptr, r + 8);
    p := p.(pow := p.pow.(imax := l));
  }

  /** The registers from one pointer to the next as an array. */
  method RecvWords(buf: array<bv8>, start: nat, ghost base: nat, words: seq<Ushort>, n: nat)
    returns (w: seq<Ushort>, ptr: nat)
    requires buf.Length >= REPLY_SIZE && start == 4 + 2 * base && base + n <= REGISTERS && n <= |words|
    ensures w == Words(buf[..REPLY_SIZE], base, words, n) && ptr == 4 + 2 * (base + n)
  {
    hide Reg;
    w, ptr := words, start;
    for i := 0 to n
      invariant w == Words(buf[..REPLY_SIZE], base, words, i) && ptr == 4 + 2 * (base + i)
    {
      var v;
      v, ptr := Next(buf, ptr, base + i);
      w := w[i := v];
    }
  }

  method RecvCutWords(buf: array<bv8>, start: nat, ghost base: nat, words: seq<Uchar>, n: nat)
    returns (w: seq<Uchar>, ptr: nat)
    requires buf.Length >= REPLY_SIZE && start == 4 + 2 * base && base + n <= REGISTERS && n <= |words|
    ensures w == CutWords(buf[..REPLY_SIZE], base, words, n) && ptr == 4 + 2 * (base + n)
  {
    hide Reg, Cut;
    w, ptr := words, start;
    for i := 0 to n
      invariant w == CutWords(buf[..REPLY_SIZE], base, words, i) && ptr == 4 + 2 * (base + i)
    {
      var v;
      v, ptr := Next(buf, ptr, base + i);
      w := w[i := Cut(v)];
    }
  }

  method RecvEnvData(buf: array<bv8>, start: nat, ghost base: nat, env: seq<Env>) returns (e: seq<Env>, ptr: nat)
    requires buf.Length >= REPLY_SIZE && start == 4 + 2 * base && base + 2 * SENSORS <= REGISTERS && |env| == SENSORS
    ensures e == Sensors(buf[..REPLY_SIZE], base, env, SENSORS) && ptr == 4 + 2 * (base + 2 * SENSORS)
  {
    hide Reg, Cut;
    e, ptr := env, start;
    for i := 0 to SENSORS
      invariant e == Sensors(buf[..REPLY_SIZE], base, env, i) && ptr == 4 + 2 * (base + 2 * i)
    {
      var w: Ushort;
      w, ptr := Next(buf, ptr, base + 2 * i);
      e := e[i := e[i].(value := w)];
      w, ptr := Next(buf, ptr, base + 2 * i + 1);
      e := e[i := e[i].(alarm := Cut(w))];
    }
  }

  method RecvEnvAlarmData(buf: array<bv8>, start: nat, ghost base: nat, env: seq<Env>) returns (e: seq<Env>, ptr: nat)
    requires buf.Length >= REPLY_SIZE && start == 4 + 2 * base && base + 2 * SENSORS <= REGISTERS && |env| == SENSORS
    ensures e == SensorLimits(buf[..REPLY_SIZE], base, env, SENSORS) && ptr == 4 + 2 * (base + 2 * SENSORS)
  {
    hide Reg;
    e, ptr := env, start;
    for i := 0 to SENSORS
      invariant e == SensorLimits(buf[..REPLY_SIZE], base, env, i) && ptr == 4 + 2 * (base + 2 * i)
    {
      var w: Ushort;
      w, ptr := Next(buf, ptr, base + 2 * i);
      e := e[i := e[i].(min := w)];
      w, ptr := Next(buf, ptr, base + 2 * i + 1);
      e := e[i := e[i].(max := w)];
    }
  }

  /** Dev_SiRtu, with the packet that every reply is written over. */
  class Dev_SiRtu {
    var pkt: Packet

    constructor (v: Packet)
      ensures pkt == v
    {
      pkt := v;
    }

    method RtuRecvHead(buf: array<bv8>) returns (ptr: nat)
      requires buf.Length >= REPLY_SIZE
      modifies this
      ensures pkt == Head(buf[..REPLY_SIZE], old(pkt)) && ptr == 4 + 2 * 0
    {
      hide U16;
      pkt := pkt.(addr := buf[0] as int);
      pkt := pkt.(fn := buf[1] as int);
      pkt := pkt.(len := U16(buf[2], buf[3]));
      ptr := 4;
    }

    method RtuPlugRecvInit(buf: array<bv8>, start: nat) returns (ptr: nat)
      requires buf.Length >= REPLY_SIZE && start == 4 + 2 * 0
      modifies this
      ensures pkt == PlugSetup(buf[..REPLY_SIZE], old(pkt)) && ptr == 4 + 2 * 9
    {
      hide Reg, Cut;
      var msg, w: Ushort := pkt, 0;
      w, ptr := Next(buf, start, 0);
      msg := msg.(version := Cut(w));
      w, ptr := Next(buf, ptr, 1);
      msg := msg.(proNum := Cut(w));
      w, ptr := Next(buf, ptr, 2);
      msg := msg.(lineNum := Cut(w));
      ptr := ptr + 2;
      w, ptr := Next(buf, ptr, 4);
      msg := msg.(baudRate := Cut(w));
      w, ptr := Next(buf, ptr, 5);
      msg := msg.(iOF := Cut(w));
      w, ptr := Next(buf, ptr, 6);
      msg := msg.(buzzerStatus := Cut(w));
      w, ptr := Next(buf, ptr, 7);
      msg := msg.(alarmTime := Cut(w));
      w, ptr := Next(buf, ptr, 8);
      msg := msg.(boxType := Cut(w));
      pkt := msg;
    }

    method RtuStartRecvInit(buf: array<bv8>, start: nat) returns (ptr: nat)
      requires buf.Length >= REPLY_SIZE && start == 4 + 2 * 0
      modifies this
      ensures pkt == StartSetup(buf[..REPLY_SIZE], old(pkt)) && ptr == 4 + 2 * 14
    {
      hide Reg, Cut;
      var msg, w: Ushort := pkt, 0;
      w, ptr := Next(buf, start, 0);
      msg := msg.(proNum := Cut(w));
      w, ptr := Next(buf, ptr, 1);
      msg := msg.(version := Cut(w));
      w, ptr := Next(buf, ptr, 2);
      msg := msg.(dc := Cut(w));
      msg := msg.(dc := if msg.dc != 0 then 0 else 1);
      w, ptr := Next(buf, ptr, 3);
      msg := msg.(curSpecification := Cut(w));
      w, ptr := Next(buf, ptr, 4);
      msg := msg.(workMode := Cut(w));
      w, ptr := Next(buf, ptr, 5);
      msg := msg.(baudRate := Cut(w));
      w, ptr := Next(buf, ptr, 6);
      msg := msg.(buzzerStatus := Cut(w));
      w, ptr := Next(buf, ptr, 7);
      msg := msg.(alarmTime := Cut(w));
      w, ptr := Next(buf, ptr, 8);
      msg := msg.(lightning := Cut(w));
      w, ptr := Next(buf, ptr, 9);
      msg := msg.(iOF := Cut(w));
      w, ptr := Next(buf, ptr, 10);
      msg := msg.(isd := Cut(w));
      w, ptr := Next(buf, ptr, 11);
      msg := msg.(shuntRelease := Cut(w));
      w, ptr := Next(buf, ptr, 12);
      msg := msg.(reState := Cut(w));
      w, ptr := Next(buf, ptr, 13);
      msg := msg.(lpsState := Cut(w));
      pkt := msg;
    }

    method RtuStartRecvOtherData(buf: array<bv8>, start: nat) returns (ptr: nat)
      requires buf.Length >= REPLY_SIZE && start == 4 + 2 * 70
      modifies this
      ensures pkt == StartTotals(buf[..REPLY_SIZE], old(pkt)) && ptr == 4 + 2 * 84
    {
      hide Reg, Reg2, Cut;
      var msg, w: Ushort, l: Uint := pkt, 0, 0;
      l, ptr := NextLong(buf, start, 70);
      msg := msg.(totalApPow := l);
      l, ptr := NextLong(buf, ptr, 72);
      msg := msg.(totalPow := msg.totalPow.(ivalue := l));
      w, ptr := Next(buf, ptr, 74);
      msg := msg.(totalPow := msg.totalPow.(iupalarm := Cut(w)));
      w, ptr := Next(buf, ptr, 75);
      msg := msg.(reCur := msg.reCur.(svalue := w));
      w, ptr := Next(buf, ptr, 76);
      msg := msg.(reCur := msg.reCur.(supalarm := Cut(w)));
      w, ptr := Next(buf, ptr, 77);
      msg := msg.(zeroLineCur := msg.zeroLineCur.(svalue := w));
      w, ptr := Next(buf, ptr, 78);
      msg := msg.(zeroLineCur := msg.zeroLineCur.(supalarm := Cut(w)));
      w, ptr := Next(buf, ptr, 79);
      msg := msg.(volUnbalance := Cut(w));
      w, ptr := Next(buf, ptr, 80);
      msg := msg.(curUnbalance := Cut(w));
      w, ptr := Next(buf, ptr, 81);
      msg := msg.(breaker := Cut(w));
      w, ptr := Next(buf, ptr, 82);
      msg := msg.(rate := msg.rate.(svalue := w));
      w, ptr := Next(buf, ptr, 83);
      msg := msg.(rate := msg.rate.(supalarm := Cut(w)));
      pkt := msg;
    }

    method RtuStartRecvSomeAlarmData(buf: array<bv8>, start: nat) returns (ptr: nat)
      requires buf.Length >= REPLY_SIZE && start == 4 + 2 * 284 && |pkt.env| == SENSORS
      modifies this
      ensures ptr == 4 + 2 * 301
      ensures pkt == StartLimits(buf[..REPLY_SIZE], old(pkt)).(
                       env := SensorLimits(buf[..REPLY_SIZE], START_TEMPERATURE_MIN_1, old(pkt.env), SENSORS))
    {
      hide Reg, Reg2, Cut, SensorLimits;
      var w: Ushort, l: Uint, e;
      e, ptr := RecvEnvAlarmData(buf, start, 284, pkt.env);
      pkt := pkt.(env := e);
      w, ptr := Next(buf, ptr, 292);
      pkt := pkt.(reCur := pkt.reCur.(supalarm := Cut(w)));
      w, ptr := Next(buf, ptr, 293);
      pkt := pkt.(zeroLineCur := pkt.zeroLineCur.(smin := w));
      w, ptr := Next(buf, ptr, 294);
      pkt := pkt.(zeroLineCur := pkt.zeroLineCur.(smax := w));
      l, ptr := NextLong(buf, ptr, 295);
      pkt := pkt.(totalPow := pkt.totalPow.(imin := l));
      l, ptr := NextLong(buf, ptr, 297);
      pkt := pkt.(totalPow := pkt.totalPow.(imax := l));
      w, ptr := Next(buf, ptr, 299);
      pkt := pkt.(rate := pkt.rate.(smin := w));
      w, ptr := Next(buf, ptr, 300);
      pkt := pkt.(rate := pkt.rate.(smax := w));
    }

    /** The fields of a plug box; the pointer ends behind register 244. */
    method PlugFields(buf: array<bv8>, start: nat) returns (ptr: nat)
      requires buf.Length >= REPLY_SIZE && start == 4 && pkt.Valid()
      modifies this
      ensures pkt == PlugBox(buf[..REPLY_SIZE], old(pkt)) && ptr == 4 + 2 * 245
    {
      hide PlugSetup, PlugLoopValues, PlugLoopLimits, Words, CutWords, Sensors, SensorLimits;
      ghost var v, b := pkt, buf[..REPLY_SIZE];
      ptr := RtuPlugRecvInit(buf, start);
      PlugSetupKeeps(b, v);
      ptr := ptr + 7 * 2;
      for i := 0 to LOOPS
        invariant ptr == 4 + 2 * (16 + 15 * i)
        invariant pkt == PlugSetup(b, v).(data := Loops(b, v.data, i))
      {
        var p;
        p, ptr := PlugRecvLoopData(buf, ptr, i, pkt.data[i]);
        pkt := pkt.(data := pkt.data[i := p]);
      }
      ghost var data := pkt.data;
      var thd, pl, env;
      thd, ptr := RecvWords(buf, ptr, 151, pkt.thd, LINES);
      pkt := pkt.(thd := thd);
      pl, ptr := RecvCutWords(buf, ptr, 154, pkt.pl, LINES);
      pkt := pkt.(pl := pl);
      env, ptr := RecvEnvData(buf, ptr, 157, pkt.env);
      pkt := pkt.(env := env);
      env, ptr := RecvEnvAlarmData(buf, ptr, 165, pkt.env);
      pkt := pkt.(env := env);
      ghost var w := pkt;
      for i := 0 to LOOPS
        invariant ptr == 4 + 2 * (173 + 8 * i)
        invariant pkt == w.(data := LoopLimits(b, data, i))
      {
        var p;
        p, ptr := PlugRecvLoopAlarmData(buf, ptr, i, pkt.data[i]);
        pkt := pkt.(data := pkt.data[i := p]);
      }
    }

    /** The fields of a start box; the pointer ends behind register 330. */
    method StartFields(buf: array<bv8>, start: nat) returns (ptr: nat)
      requires buf.Length >= REPLY_SIZE && start == 4 && pkt.Valid()
      modifies this
      ensures pkt == StartBox(buf[..REPLY_SIZE], old(pkt)) && ptr == 4 + 2 * 331
    {
      hide StartSetup, StartTotals, Lines, LineLimits, LinePl, Sensors, SensorLimits, VolThd, CurThd, Reg, Reg2;
      StartSetupKeeps(buf[..REPLY_SIZE], pkt);
      StartTotalsKeepsAll(buf[..REPLY_SIZE], StartSetup(buf[..REPLY_SIZE], pkt));
      ptr := StartValues(buf, start);
      ptr := StartThd(buf, ptr);
      ptr := StartAlarms(buf, ptr);
      var state := 1;
      if pkt.breaker == 1 {
        state := 0;
      }
      ghost var w := pkt;
      for i := 0 to LINES
        invariant pkt == w.(data := Switched(w.data, state, i))
      {
        pkt := pkt.(data := pkt.data[i := pkt.data[i].(sw := state)]);
      }
      pkt := pkt.(lineNum := 3);
    }

    method StartValues(buf: array<bv8>, start: nat) returns (ptr: nat)
      requires buf.Length >= REPLY_SIZE && start == 4 && pkt.Valid()
      modifies this
      ensures ptr == 4 + 2 * 92
      ensures var b, v := buf[..REPLY_SIZE], old(pkt);
              pkt == StartTotals(b, StartSetup(b, v)).(
                data := Lines(b, v.data, LINES), pl := LinePl(b, v.pl, LINES), env := Sensors(b, 84, v.env, SENSORS))
    {
      hide StartSetup, StartTotals, StartLineValues, Sensors, Reg;
      ghost var v, b := pkt, buf[..REPLY_SIZE];
      ptr := RtuStartRecvInit(buf, start);
      StartSetupKeeps(b, v);
      ptr := ptr + 5 * 2;
      for i := 0 to LINES
        invariant ptr == 4 + 2 * (19 + 17 * i)
        invariant pkt == StartSetup(b, v).(data := Lines(b, v.data, i), pl := LinePl(b, v.pl, i))
      {
        var p, pl;
        p, pl, ptr := StartRecvLineData(buf, ptr, i, pkt.data[i]);
        pkt := pkt.(data := pkt.data[i := p], pl := pkt.pl[i := pl]);
      }
      StartTotalsKeeps(b, StartSetup(b, v), pkt);
      ptr := RtuStartRecvOtherData(buf, ptr);
      var env;
      env, ptr := RecvEnvData(buf, ptr, 84, pkt.env);
      pkt := pkt.(env := env);
    }

    method StartThd(buf: array<bv8>, start: nat) returns (ptr: nat)
      requires buf.Length >= REPLY_SIZE && start == 4 + 2 * 92 && pkt.Valid()
      modifies this
      ensures pkt == old(pkt).(volThd := VolThd(buf[..REPLY_SIZE], old(pkt.volThd), LINES),
                               curThd := CurThd(buf[..REPLY_SIZE], old(pkt.curThd), LINES))
      ensures ptr == 4 + 2 * 284
    {
      hide Words;
      ghost var v, b := pkt, buf[..REPLY_SIZE];
      ptr := start;
      for i := 0 to LINES
        invariant ptr == 4 + 2 * (92 + 64 * i)
        invariant pkt == v.(volThd := pkt.volThd, curThd := pkt.curThd)
        invariant pkt.volThd == VolThd(b, v.volThd, i)
        invariant pkt.curThd == CurThd(b, v.curThd, i)
      {
        var w;
        w, ptr := RecvWords(buf, ptr, 92 + 64 * i, pkt.volThd[i], 32);
        pkt := pkt.(volThd := pkt.volThd[i := w]);
        w, ptr := RecvWords(buf, ptr, 124 + 64 * i, pkt.curThd[i], 32);
        pkt := pkt.(curThd := pkt.curThd[i := w]);
      }
    }

    method StartAlarms(buf: array<bv8>, start: nat) returns (ptr: nat)
      requires buf.Length >= REPLY_SIZE && start == 4 + 2 * 284 && pkt.Valid()
      modifies this
      ensures ptr == 4 + 2 * 331
      ensures var b, v := buf[..REPLY_SIZE], old(pkt);
              pkt == StartLimits(b, v).(
                env := SensorLimits(b, START_TEMPERATURE_MIN_1, v.env, SENSORS), data := LineLimits(b, v.data, LINES))
    {
      hide StartLimits, StartLineLimits, SensorLimits;
      ptr := RtuStartRecvSomeAlarmData(buf, start);
      ghost var w, b := pkt, buf[..REPLY_SIZE];
      StartLimitsKeeps(b, old(pkt));
      for i := 0 to LINES
        invariant ptr == 4 + 2 * (301 + 10 * i)
        invariant pkt == w.(data := LineLimits(b, w.data, i))
      {
        var p;
        p, ptr := StartRecvLastAlarmData(buf, ptr, i, pkt.data[i]);
        pkt := pkt.(data := pkt.data[i := p]);
      }
    }

    /** rtu_recv_packetV3: true exactly for a reply of the right length whose CRC is right.  A reply
        with a wrong CRC is written over the packet all the same; one of a wrong length is not. */
    method RtuRecvPacketV3(buf: array<bv8>, len: nat) returns (ret: bool)
      requires len <= buf.Length && pkt.Valid()
      modifies this
      ensures pkt.Valid()
      ensures ret <==> LengthsAgree(buf[..len]) && Accepted(buf[..len])
      ensures pkt == if LengthsAgree(buf[..len]) then Parsed(buf[..len], old(pkt)) else old(pkt)
    {
      hide StartBox, PlugBox, Word, Crc;
      assert len == REPLY_SIZE ==> buf[..len][..len - 2] == buf[..len - 2];
      ret := false;
      var rtn := RtuRecvLen(buf, len, REPLY_SIZE);
      if rtn == 0 {
        var ptr := RtuRecvHead(buf);
        if pkt.addr == 1 {
          ptr := StartFields(buf, ptr);
        } else {
          ptr := PlugFields(buf, ptr);
        }
        pkt := pkt.(crc := Word(buf[REPLY_SIZE - 1], buf[REPLY_SIZE - 2]));
        ret := RtuRecvCrcField(buf, len, pkt.crc);
      }
    }
  }

  /** rtu_recv_len: zero exactly for a reply whose number of bytes and length field are those of rtn
      bytes; the other results tell which of the two is wrong. */
  method RtuRecvLen(buf: array<bv8>, len: nat, rtn: nat) returns (ret: int)
    requires len <= buf.Length && rtn >= 6
    ensures ret == if len < rtn then -1 else if len > rtn then -2 else if WordAt(buf[..len], 2) != rtn - 6
        then -3 else 0
    ensures rtn == REPLY_SIZE ==> (ret == 0 <==> LengthsAgree(buf[..len]))
  {
    hide U16;
    ret := 0;
    if len < rtn {
      ret := -1;
    } else if len > rtn {
      ret := -2;
    } else {
      var l := U16(buf[2], buf[3]);
      if l != rtn - 6 {
        ret := -3;
      }
    }
  }

  /** rtu_recv_crc. */
  method RtuRecvCrcField(buf: array<bv8>, len: nat, field: bv16) returns (ret: bool)
    requires 2 <= len <= buf.Length
    ensures ret <==> field == Crc(buf[..len - 2])
  {
    var crc := RtuCrc(buf, len - 2);
    ret := crc == field;
  }

  lemma PlugSetupKeeps(buf: Reply, v: Packet)
    ensures var p := PlugSetup(buf, v);
            p.data == v.data && p.thd == v.thd && p.pl == v.pl && p.env == v.env
  {
  }

  lemma StartSetupKeeps(buf: Reply, v: Packet)
    ensures var p := StartSetup(buf, v);
            && p.data == v.data && p.pl == v.pl && p.env == v.env && p.volThd == v.volThd && p.curThd == v.curThd
            && p.thd == v.thd
  {
  }

  /** The totals do not touch the arrays, nor the arrays the totals. */
  lemma StartTotalsKeeps(buf: Reply, v: Packet, w: Packet)
    requires w == v.(data := w.data, pl := w.pl)
    ensures StartTotals(buf, w) == StartTotals(buf, v).(data := w.data, pl := w.pl)
    ensures StartTotals(buf, w).env == v.env
  {
  }

  lemma StartLimitsKeeps(buf: Reply, v: Packet)
    ensures StartLimits(buf, v).data == v.data
  {
  }

  lemma StartTotalsKeepsAll(buf: Reply, v: Packet)
    ensures var p := StartTotals(buf, v);
            && p.data == v.data && p.pl == v.pl && p.volThd == v.volThd && p.curThd == v.curThd && p.thd == v.thd
            && p.breaker == Cut(Reg(buf, 81))
  {
  }
}
