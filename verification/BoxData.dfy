/** dev_sirtu.cpp: from a packet to the record of its box, and from a command to that record.  The
    packet lists one record per loop; the box keeps one column per quantity, each limit twice. */
module BoxData {
  import opened ModbusCrc
  import opened RtuFrames
  import opened RtuReply
  import opened RtuReadBack
  import opened DevSiRtu

  /** sDataValue, one entry for each loop or sensor. */
  datatype DataValue = DataValue(
    value: seq<Ushort>, min: seq<Ushort>, max: seq<Ushort>, crMin: seq<Ushort>, crMax: seq<Ushort>, upalarm: seq<Uchar>)
  {
    predicate Valid() {
      |value| == |min| == |max| == |crMin| == |crMax| == |upalarm| == LOOPS
    }

    /** Entry i becomes a unit. */
    function With(i: nat, u: UshortUnit): (d: DataValue)
      requires Valid() && i < LOOPS
      ensures d.Valid()
    {
      DataValue(value[i := u.svalue], min[i := u.smin], max[i := u.smax], crMin[i := u.smin], crMax[i := u.smax],
                upalarm[i := u.supalarm])
    }

    /** Entry i gets other limits, in both places that keep them. */
    function WithLimits(i: nat, lowest: Ushort, highest: Ushort): (d: DataValue)
      requires Valid() && i < LOOPS
      ensures d.Valid()
    {
      this.(min := min[i := lowest], max := max[i := highest], crMin := crMin[i := lowest],
          crMax := crMax[i := highest])
    }
  }

  /** sDataPowUnit. */
  datatype PowUnit = PowUnit(
    value: seq<Uint>, min: seq<Uint>, max: seq<Uint>, crMin: seq<Uint>, crMax: seq<Uint>, upalarm: seq<Uchar>)
  {
    predicate Valid() {
      |value| == |min| == |max| == |crMin| == |crMax| == |upalarm| == LOOPS
    }

    function WithLimits(i: nat, lowest: Uint, highest: Uint): (d: PowUnit)
      requires Valid() && i < LOOPS
      ensures d.Valid()
    {
      this.(min := min[i := lowest], max := max[i := highest], crMin := crMin[i := lowest],
          crMax := crMax[i := highest])
    }
  }

  /** sObjectData: the columns of the loops. */
  datatype ObjectData = ObjectData(
    lineNum: Uchar, vol: DataValue, cur: DataValue, lineVol: DataValue, pow: PowUnit,
    ele: seq<Uint>, pf: seq<Ushort>, sw: seq<Uchar>, apPow: seq<Uint>, reactivePower: seq<Uint>)
  {
    predicate Valid() {
      && vol.Valid() && cur.Valid() && lineVol.Valid() && pow.Valid()
      && |ele| == |pf| == |sw| == |apPow| == |reactivePower| == LOOPS
    }
  }

  /** The first entry of the box's total power. */
  datatype Total = Total(value: Uint, min: Uint, max: Uint)

  /** What initData copies. */
  datatype Settings = Settings(
    dc: Uchar, version: Uchar, lightning: Uchar, lpsState: Uchar, proNum: Uchar, curSpecification: Uchar,
    workMode: Uchar, baudRate: Uchar, buzzerStatus: Uchar, alarmTime: Uchar, iOF: Uchar, isd: Uchar, reState: Uchar,
    boxType: Uchar)

  /** sBoxData. */
  datatype Record = Record(
    offLine: nat, loopNum: Uchar, data: ObjectData, tem: DataValue, settings: Settings, totalPow: Total,
    rate: UshortUnit, reCur: UshortUnit, zeroLineCur: UshortUnit, volUnbalance: Uint, curUnbalance: Uint)
  {
    predicate Valid() {
      data.Valid() && tem.Valid()
    }
  }

  // ---------------------------------------------------------------------------------------------
  // What a record must hold.
  // ---------------------------------------------------------------------------------------------

  /** Entry i of a column pair holds a unit, both copies of its limits agreeing. */
  ghost predicate Holds(d: DataValue, i: nat, u: UshortUnit)
    requires d.Valid() && i < LOOPS
  {
    && d.value[i] == u.svalue && d.min[i] == d.crMin[i] == u.smin && d.max[i] == d.crMax[i] == u.smax
    && d.upalarm[i] == u.supalarm
  }

  ghost predicate HoldsPow(d: PowUnit, i: nat, u: UintUnit)
    requires d.Valid() && i < LOOPS
  {
    && d.value[i] == u.ivalue && d.min[i] == d.crMin[i] == u.imin && d.max[i] == d.crMax[i] == u.imax
    && d.upalarm[i] == u.iupalarm
  }

  ghost predicate SameEntry(d: DataValue, e: DataValue, i: nat)
    requires d.Valid() && e.Valid() && i < LOOPS
  {
    && d.value[i] == e.value[i] && d.min[i] == e.min[i] && d.crMin[i] == e.crMin[i] && d.max[i] == e.max[i]
    && d.crMax[i] == e.crMax[i] && d.upalarm[i] == e.upalarm[i]
  }

  ghost predicate SamePow(d: PowUnit, e: PowUnit, i: nat)
    requires d.Valid() && e.Valid() && i < LOOPS
  {
    && d.value[i] == e.value[i] && d.min[i] == e.min[i] && d.crMin[i] == e.crMin[i] && d.max[i] == e.max[i]
    && d.crMax[i] == e.crMax[i] && d.upalarm[i] == e.upalarm[i]
  }

  /** Row i of the columns is line p of a packet. */
  ghost predicate ShowsLine(o: ObjectData, i: nat, p: Line)
    requires o.Valid() && i < LOOPS
  {
    && Holds(o.vol, i, p.vol) && Holds(o.cur, i, p.cur) && HoldsPow(o.pow, i, p.pow)
    && o.ele[i] == p.ele && o.pf[i] == p.pf && o.sw[i] == p.sw
    && o.apPow[i] == p.apPow && o.reactivePower[i] == p.reactivePower
  }

  ghost predicate SameRow(o: ObjectData, q: ObjectData, i: nat)
    requires o.Valid() && q.Valid() && i < LOOPS
  {
    && SameEntry(o.vol, q.vol, i) && SameEntry(o.cur, q.cur, i) && SamePow(o.pow, q.pow, i)
    && o.ele[i] == q.ele[i] && o.pf[i] == q.pf[i] && o.sw[i] == q.sw[i]
    && o.apPow[i] == q.apPow[i] && o.reactivePower[i] == q.reactivePower[i]
  }

  /** q is o after the lines of a packet have been copied; the line voltages are not copied. */
  ghost predicate Filled(o: ObjectData, q: ObjectData, p: Packet)
    requires o.Valid() && q.Valid() && p.Valid() && p.lineNum <= LOOPS
  {
    && q.lineNum == p.lineNum && q.lineVol == o.lineVol
    && (forall i: nat :: i < p.lineNum ==> ShowsLine(q, i, p.data[i]))
    && (forall i: nat :: p.lineNum <= i < LOOPS ==> SameRow(q, o, i))
  }

  /** What is kept of a sensor: its alarm is the one that no reply sets. */
  function SensorUnit(e: Env): UshortUnit {
    UshortUnit(e.value, e.min, e.max, e.upalarm)
  }

  /** t is d after the sensors of a packet have been copied. */
  ghost predicate Sensed(d: DataValue, t: DataValue, p: Packet)
    requires d.Valid() && t.Valid() && p.Valid()
  {
    && (forall i: nat :: i < SENSORS ==> Holds(t, i, SensorUnit(p.env[i])))
    && (forall i: nat :: SENSORS <= i < LOOPS ==> SameEntry(t, d, i))
  }

  function SettingsOf(p: Packet): Settings {
    Settings(p.dc, p.version, p.lightning, p.lpsState, p.proNum, p.curSpecification, p.workMode, p.baudRate,
             p.buzzerStatus, p.alarmTime, p.iOF, p.isd, p.reState, p.boxType)
  }

  /** c is b after a packet of its box has been copied. */
  ghost predicate Refreshed(b: Record, c: Record, p: Packet) {
    && b.Valid() && c.Valid() && p.Valid() && p.lineNum <= LOOPS
    && c.loopNum == p.lineNum && c.offLine == 4
    && Filled(b.data, c.data, p) && Sensed(b.tem, c.tem, p)
    && c.settings == SettingsOf(p) && c.totalPow == Total(p.totalPow.ivalue, p.totalPow.imin, p.totalPow.imax)
    && c.rate == p.rate && c.reCur == p.reCur && c.zeroLineCur == p.zeroLineCur
    && c.volUnbalance == p.volUnbalance && c.curUnbalance == p.curUnbalance
  }

  // ---------------------------------------------------------------------------------------------
  // The code.
  // ---------------------------------------------------------------------------------------------

  class Box {
    var b: Record

    constructor (r: Record)
      ensures b == r
    {
      b := r;
    }

    /** loopObjData. */
    method LoopObjData(id: nat, data: Line)
      requires b.Valid() && id < LOOPS
      modifies this
      ensures b.Valid() && b == old(b).(data := b.data) && ShowsLine(b.data, id, data)
      ensures forall i: nat :: i < LOOPS && i != id ==> SameRow(b.data, old(b.data), i)
      ensures b.data.lineNum == old(b.data.lineNum) && b.data.lineVol == old(b.data.lineVol)
    {
      var loop := b.data;
      loop := loop.(vol := loop.vol.With(id, data.vol));
      loop := loop.(cur := loop.cur.With(id, data.cur));
      var pow := loop.pow;
      pow := pow.(value := pow.value[id := data.pow.ivalue]);
      pow := pow.(min := pow.min[id := data.pow.imin], crMin := pow.crMin[id := data.pow.imin]);
      pow := pow.(max := pow.max[id := data.pow.imax], crMax := pow.crMax[id := data.pow.imax]);
      pow := pow.(upalarm := pow.upalarm[id := data.pow.iupalarm]);
      loop := loop.(pow := pow);
      loop := loop.(ele := loop.ele[id := data.ele], pf := loop.pf[id := data.pf], sw := loop.sw[id := data.sw]);
      loop := loop.(apPow := loop.apPow[id := data.apPow]);
      loop := loop.(reactivePower := loop.reactivePower[id := data.reactivePower]);
      b := b.(data := loop);
    }

    /** loopData. */
    method LoopData(pkt: Packet)
      requires b.Valid() && pkt.Valid() && pkt.lineNum <= LOOPS
      modifies this
      ensures b.Valid() && b == old(b).(data := b.data, loopNum := pkt.lineNum) && Filled(old(b.data), b.data, pkt)
    {
      hide Holds, HoldsPow, SameEntry, SamePow;
      b := b.(loopNum := pkt.lineNum, data := b.data.(lineNum := pkt.lineNum));
      ghost var start := b.data;
      for n := 0 to pkt.lineNum
        invariant b.Valid() && b == old(b).(data := b.data, loopNum := pkt.lineNum)
        invariant b.data.lineNum == pkt.lineNum && b.data.lineVol == start.lineVol
        invariant forall i: nat :: i < n ==> ShowsLine(b.data, i, pkt.data[i])
        invariant n > 0 ==> forall i: nat :: n <= i < LOOPS ==> SameRow(b.data, start, i)
        invariant n == 0 ==> b.data == start
      {
        ghost var before := b.data;
        RowsOfItself(start);
        LoopObjData(n, pkt.data[n]);
        RowsCarry(start, before, b.data, pkt, n);
      }
      RowsOfItself(start);
      SameRowsAsOld(old(b.data), start, b.data, pkt.lineNum);
    }

    /** envData: the temperatures, with an alarm that the parser leaves as it is. */
    method EnvData(pkt: Packet)
      requires b.Valid() && pkt.Valid()
      modifies this
      ensures b.Valid() && b == old(b).(tem := b.tem) && Sensed(old(b.tem), b.tem, pkt)
    {
      for n := 0 to SENSORS
        invariant b.Valid() && b == old(b).(tem := b.tem)
        invariant forall i: nat :: i < n ==> Holds(b.tem, i, SensorUnit(pkt.env[i]))
        invariant forall i: nat :: n <= i < LOOPS ==> SameEntry(b.tem, old(b.tem), i)
      {
        EntriesCarry(old(b.tem), b.tem, n, SensorUnit(pkt.env[n]));
        b := b.(tem := b.tem.With(n, SensorUnit(pkt.env[n])));
      }
    }
  }

  lemma RowsOfItself(o: ObjectData)
    requires o.Valid()
    ensures forall i: nat :: i < LOOPS ==> SameRow(o, o, i)
  {
  }

  /** Rows that stay when another row is written. */
  lemma RowsCarry(start: ObjectData, before: ObjectData, after: ObjectData, pkt: Packet, n: nat)
    requires start.Valid() && before.Valid() && after.Valid() && pkt.Valid() && n < LOOPS
    requires forall i: nat :: i < LOOPS && i != n ==> SameRow(after, before, i)
    requires forall i: nat :: i < n ==> ShowsLine(before, i, pkt.data[i])
    requires forall i: nat :: n <= i < LOOPS ==> SameRow(before, start, i)
    ensures forall i: nat :: i < n ==> ShowsLine(after, i, pkt.data[i])
    ensures forall i: nat :: n < i < LOOPS ==> SameRow(after, start, i)
  {
    forall i: nat | i < n
      ensures ShowsLine(after, i, pkt.data[i])
    {
      assert SameRow(after, before, i);
    }
    forall i: nat | n < i < LOOPS
      ensures SameRow(after, start, i)
    {
      assert SameRow(after, before, i) && SameRow(before, start, i);
    }
  }

  /** The same for the entries of one column. */
  lemma EntriesCarry(start: DataValue, before: DataValue, n: nat, u: UshortUnit)
    requires start.Valid() && before.Valid() && n < LOOPS
    requires forall i: nat :: n <= i < LOOPS ==> SameEntry(before, start, i)
    ensures forall i: nat :: n < i < LOOPS ==> SameEntry(before.With(n, u), start, i)
  {
    forall i: nat | n < i < LOOPS
      ensures SameEntry(before.With(n, u), start, i)
    {
      assert SameEntry(before, start, i);
    }
  }

  lemma SameRowsAsOld(o: ObjectData, start: ObjectData, after: ObjectData, n: nat)
    requires o.Valid() && after.Valid() && start == o.(lineNum := start.lineNum)
    requires forall i: nat :: n <= i < LOOPS ==> SameRow(after, start, i)
    ensures forall i: nat :: n <= i < LOOPS ==> SameRow(after, o, i)
  {
    forall i: nat | n <= i < LOOPS
      ensures SameRow(after, o, i)
    {
      assert SameRow(after, start, i);
    }
  }

  /** readPduData, from the bytes the port delivered on.  The result is that of the CRC alone: a
      reply of another box is accepted too, but the record of the box asked is not touched. */
  method ReadPduData(dev: Dev_SiRtu, box: Box, recv: array<bv8>, len: nat, addr: Uchar) returns (ret: bool)
    requires len <= recv.Length && dev.pkt.Valid() && box.b.Valid()
    requires LengthsAgree(recv[..len]) && Parsed(recv[..len], dev.pkt).addr == addr ==>
               Parsed(recv[..len], dev.pkt).lineNum <= LOOPS
    modifies dev, box
    ensures dev.pkt.Valid() && box.b.Valid()
    ensures ret <==> LengthsAgree(recv[..len]) && Accepted(recv[..len])
    ensures dev.pkt == if LengthsAgree(recv[..len]) then Parsed(recv[..len], old(dev.pkt)) else old(dev.pkt)
    ensures if ret && dev.pkt.addr == addr then Refreshed(old(box.b), box.b, dev.pkt)
            else box.b == old(box.b).(offLine := if old(box.b.offLine) > 0 then old(box.b.offLine) - 1 else 0)
  {
    hide Filled, Sensed, SettingsOf, LengthsAgree, Accepted, Parsed;
    ret := dev.RtuRecvPacketV3(recv, len);
    if ret && addr == dev.pkt.addr {
      box.b := box.b.(offLine := 4);
      box.LoopData(dev.pkt);
      box.EnvData(dev.pkt);
      box.b := box.b.(settings := SettingsOf(dev.pkt));
      box.b := box.b.(rate := dev.pkt.rate, reCur := dev.pkt.reCur, zeroLineCur := dev.pkt.zeroLineCur,
                      volUnbalance := dev.pkt.volUnbalance, curUnbalance := dev.pkt.curUnbalance);
      var total := dev.pkt.totalPow;
      box.b := box.b.(totalPow := Total(total.ivalue, total.imin, total.imax));
    } else if box.b.offLine > 0 {
      box.b := box.b.(offLine := box.b.offLine - 1);
    }
  }

  // ---------------------------------------------------------------------------------------------
  // A record is determined by its rows and entries.
  // ---------------------------------------------------------------------------------------------

  lemma EntriesDetermine(d: DataValue, e: DataValue)
    requires d.Valid() && e.Valid() && forall i: nat :: i < LOOPS ==> SameEntry(d, e, i)
    ensures d == e
  {
    forall i: nat | i < LOOPS
      ensures d.value[i] == e.value[i] && d.min[i] == e.min[i] && d.max[i] == e.max[i]
      ensures d.crMin[i] == e.crMin[i] && d.crMax[i] == e.crMax[i] && d.upalarm[i] == e.upalarm[i]
    {
      assert SameEntry(d, e, i);
    }
  }

  lemma PowsDetermine(d: PowUnit, e: PowUnit)
    requires d.Valid() && e.Valid() && forall i: nat :: i < LOOPS ==> SamePow(d, e, i)
    ensures d == e
  {
    forall i: nat | i < LOOPS
      ensures d.value[i] == e.value[i] && d.min[i] == e.min[i] && d.max[i] == e.max[i]
      ensures d.crMin[i] == e.crMin[i] && d.crMax[i] == e.crMax[i] && d.upalarm[i] == e.upalarm[i]
    {
      assert SamePow(d, e, i);
    }
  }

  lemma RowsDetermine(o: ObjectData, q: ObjectData)
    requires o.Valid() && q.Valid() && o.lineNum == q.lineNum && o.lineVol == q.lineVol
    requires forall i: nat :: i < LOOPS ==> SameRow(o, q, i)
    ensures o == q
  {
    hide SameEntry, SamePow;
    forall i: nat | i < LOOPS
      ensures SameEntry(o.vol, q.vol, i) && SameEntry(o.cur, q.cur, i) && SamePow(o.pow, q.pow, i)
      ensures o.ele[i] == q.ele[i] && o.pf[i] == q.pf[i] && o.sw[i] == q.sw[i]
      ensures o.apPow[i] == q.apPow[i] && o.reactivePower[i] == q.reactivePower[i]
    {
      assert SameRow(o, q, i);
    }
    EntriesDetermine(o.vol, q.vol);
    EntriesDetermine(o.cur, q.cur);
    PowsDetermine(o.pow, q.pow);
  }

  /** Two packets that differ in one line fill rows that differ in that one, if the box reports so many
      lines, and otherwise the same rows. */
  lemma OneLineMore(o: ObjectData, q1: ObjectData, q2: ObjectData, p1: Packet, p2: Packet, k: nat, line: Line)
    requires o.Valid() && q1.Valid() && q2.Valid() && p1.Valid() && p2.Valid() && p1.lineNum <= LOOPS && k < LOOPS
    requires p2.lineNum == p1.lineNum && p2.data == p1.data[k := line]
    requires Filled(o, q1, p1) && Filled(o, q2, p2)
    ensures if k < p1.lineNum then ShowsLine(q2, k, line) else SameRow(q2, q1, k)
    ensures forall i: nat :: i < LOOPS && i != k ==> SameRow(q2, q1, i)
  {
    assert p2.data[k] == line;
    assert k < p2.lineNum ==> ShowsLine(q2, k, p2.data[k]);
    forall i: nat | i < LOOPS && (i != k || p1.lineNum <= k)
      ensures SameRow(q2, q1, i)
    {
      if i < p1.lineNum {
        assert p2.data[i] == p1.data[i];
        assert ShowsLine(q1, i, p1.data[i]) && ShowsLine(q2, i, p2.data[i]);
      } else {
        assert SameRow(q1, o, i) && SameRow(q2, o, i);
      }
    }
  }

  /** The columns filled from such a packet are any columns that have that row and otherwise the rows
      filled from the other. */
  lemma FilledWithLine(
      o: ObjectData, q1: ObjectData, q2: ObjectData, p1: Packet, p2: Packet, k: nat, line: Line, e: ObjectData)
    requires o.Valid() && q1.Valid() && q2.Valid() && p1.Valid() && p2.Valid() && p1.lineNum <= LOOPS && k < LOOPS
    requires p2.lineNum == p1.lineNum && p2.data == p1.data[k := line]
    requires Filled(o, q1, p1) && Filled(o, q2, p2)
    requires e.Valid() && e.lineNum == q1.lineNum && e.lineVol == q1.lineVol
    requires if k < p1.lineNum then ShowsLine(e, k, line) else e == q1
    requires forall i: nat :: i < LOOPS && i != k ==> SameRow(e, q1, i)
    ensures q2 == e
  {
    hide Holds, HoldsPow, SameEntry, SamePow, SameRow, ShowsLine;
    OneLineMore(o, q1, q2, p1, p2, k, line);
    forall i: nat | i < LOOPS
      ensures SameRow(q2, e, i)
    {
      SameAsOther(q2, q1, e, i, k, line, p1.lineNum);
    }
    RowsDetermine(q2, e);
  }

  lemma SameAsOther(q2: ObjectData, q1: ObjectData, e: ObjectData, i: nat, k: nat, line: Line, lineNum: nat)
    requires q1.Valid() && q2.Valid() && e.Valid() && i < LOOPS && k < LOOPS
    requires if k < lineNum then ShowsLine(q2, k, line) && ShowsLine(e, k, line) else SameRow(q2, q1, k) && e == q1
    requires i != k ==> SameRow(q2, q1, i) && SameRow(e, q1, i)
    ensures SameRow(q2, e, i)
  {
  }

  lemma SensedOnce(d: DataValue, t1: DataValue, t2: DataValue, p: Packet)
    requires d.Valid() && t1.Valid() && t2.Valid() && p.Valid() && Sensed(d, t1, p) && Sensed(d, t2, p)
    ensures t1 == t2
  {
    forall i: nat | i < LOOPS
      ensures SameEntry(t1, t2, i)
    {
      if i < SENSORS {
        assert Holds(t1, i, SensorUnit(p.env[i])) && Holds(t2, i, SensorUnit(p.env[i]));
      } else {
        assert SameEntry(t1, d, i) && SameEntry(t2, d, i);
      }
    }
    EntriesDetermine(t1, t2);
  }

  lemma FilledOnce(o: ObjectData, q1: ObjectData, q2: ObjectData, p: Packet)
    requires o.Valid() && q1.Valid() && q2.Valid() && p.Valid() && p.lineNum <= LOOPS
    requires Filled(o, q1, p) && Filled(o, q2, p)
    ensures q1 == q2
  {
    forall i: nat | i < LOOPS
      ensures SameRow(q1, q2, i)
    {
      if i < p.lineNum {
        assert ShowsLine(q1, i, p.data[i]) && ShowsLine(q2, i, p.data[i]);
      } else {
        assert SameRow(q1, o, i) && SameRow(q2, o, i);
      }
    }
    RowsDetermine(q1, q2);
  }

  /** A packet makes one record. */
  lemma RefreshedOnce(b: Record, c1: Record, c2: Record, p: Packet)
    requires Refreshed(b, c1, p) && Refreshed(b, c2, p)
    ensures c1 == c2
  {
    hide Filled, Sensed;
    FilledOnce(b.data, c1.data, c2.data, p);
    SensedOnce(b.tem, c1.tem, c2.tem, p);
  }
}
