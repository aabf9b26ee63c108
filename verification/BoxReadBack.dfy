/** dev_sictrl.cpp to dev_sirtu.cpp, all the way: with c1 the record of a box as a reading makes it, and
    c2 the record as the same reading makes it after a command, every lemma says what c2 is in terms of
    c1.  What it does not name is the same in both. */
module BoxReadBack {
  import opened RtuFrames
  import opened RtuReply
  import opened RtuReadBack
  import opened BoxData

  /** c is the record b after a reading of a box at addr with registers regs; v is what the reader's
      packet held before. */
  ghost predicate Reads(addr: bv8, regs: Registers, v: Packet, b: Record, c: Record) {
    v.Valid() && Refreshed(b, c, Parsed(ReplyOf(addr, regs), v))
  }

  lemma LimitsAt(d: DataValue, i: nat, lowest: Ushort, highest: Ushort)
    requires d.Valid() && i < LOOPS
    ensures
      var e := d.WithLimits(i, lowest, highest);
      e.min[i] == e.crMin[i] == lowest && e.max[i] == e.crMax[i] == highest
  {
  }

  lemma PowLimitsAt(d: PowUnit, i: nat, lowest: Uint, highest: Uint)
    requires d.Valid() && i < LOOPS
    ensures
      var e := d.WithLimits(i, lowest, highest);
      e.min[i] == e.crMin[i] == lowest && e.max[i] == e.crMax[i] == highest
  {
  }

  // Rows whose limits are replaced.

  lemma VolLimitsShown(o: ObjectData, k: nat, p: Line, lowest: Ushort, highest: Ushort)
    requires o.Valid() && k < LOOPS
    ensures
      var e := o.(vol := o.vol.WithLimits(k, lowest, highest));
      && e.Valid() && (forall i: nat :: i < LOOPS && i != k ==> SameRow(e, o, i))
      && (ShowsLine(o, k, p) ==> ShowsLine(e, k, p.(vol := p.vol.(smin := lowest, smax := highest))))
  {
  }

  lemma CurLimitsShown(o: ObjectData, k: nat, p: Line, lowest: Ushort, highest: Ushort)
    requires o.Valid() && k < LOOPS
    ensures
      var e := o.(cur := o.cur.WithLimits(k, lowest, highest));
      && e.Valid() && (forall i: nat :: i < LOOPS && i != k ==> SameRow(e, o, i))
      && (ShowsLine(o, k, p) ==> ShowsLine(e, k, p.(cur := p.cur.(smin := lowest, smax := highest))))
  {
  }

  lemma PowLimitsShown(o: ObjectData, k: nat, p: Line, lowest: Uint, highest: Uint)
    requires o.Valid() && k < LOOPS
    ensures
      var e := o.(pow := o.pow.WithLimits(k, lowest, highest));
      && e.Valid() && (forall i: nat :: i < LOOPS && i != k ==> SameRow(e, o, i))
      && (ShowsLine(o, k, p) ==> ShowsLine(e, k, p.(pow := p.pow.(imin := lowest, imax := highest))))
  {
  }

  /** Records filled from packets that differ in one line. */
  lemma RecordWithLine(b: Record, c1: Record, c2: Record, p1: Packet, p2: Packet, k: nat, line: Line, e: ObjectData)
    requires Refreshed(b, c1, p1) && Refreshed(b, c2, p2) && k < LOOPS
    requires p2 == p1.(crc := p2.crc, data := p1.data[k := line])
    requires e.Valid() && e.lineNum == c1.data.lineNum && e.lineVol == c1.data.lineVol
    requires if k < p1.lineNum then ShowsLine(e, k, line) else e == c1.data
    requires forall i: nat :: i < LOOPS && i != k ==> SameRow(e, c1.data, i)
    ensures c2 == c1.(data := e)
  {
    hide Filled, Sensed, ShowsLine, SameRow;
    FilledWithLine(b.data, c1.data, c2.data, p1, p2, k, line, e);
    SensedAlone(b.tem, c2.tem, p2, p1);
    SensedOnce(b.tem, c1.tem, c2.tem, p1);
  }

  lemma SensedAlone(d: DataValue, t: DataValue, p: Packet, q: Packet)
    requires d.Valid() && t.Valid() && p.Valid() && q.Valid() && Sensed(d, t, p) && p.env == q.env
    ensures Sensed(d, t, q)
  {
  }

  lemma FilledAlone(o: ObjectData, q: ObjectData, p: Packet, r: Packet)
    requires o.Valid() && q.Valid() && p.Valid() && r.Valid() && p.lineNum <= LOOPS && Filled(o, q, p)
    requires p.lineNum == r.lineNum
    requires forall i: nat :: i < p.lineNum ==> p.data[i].(lineVol := r.data[i].lineVol) == r.data[i]
    ensures Filled(o, q, r)
  {
    hide Holds, HoldsPow, SameRow;
    forall i: nat | i < r.lineNum
      ensures ShowsLine(q, i, r.data[i])
    {
      assert ShowsLine(q, i, p.data[i]);
    }
  }

  // ---------------------------------------------------------------------------------------------
  // The commands of a plug box.
  // ---------------------------------------------------------------------------------------------

  lemma LineIsShown(o: ObjectData, q: ObjectData, p: Packet, k: nat)
    requires o.Valid() && q.Valid() && p.Valid() && k < p.lineNum <= LOOPS && Filled(o, q, p)
    ensures ShowsLine(q, k, p.data[k])
  {
  }

  /** setBusbarInsertVol: the limits are in both places of the addressed row if the box reports that loop, and
      nothing else differs; if it reports fewer loops, nothing differs at all. */
  lemma InsertVolArrives(
      addr: bv8, regs: Registers, index: LoopIndex, val1: int, val2: int, v: Packet, b: Record, c1: Record, c2: Record)
    requires addr != 1 && Reads(addr, regs, v, b, c1)
    requires Reads(addr, Apply(addr, regs, SetBusbarInsertVol(addr, index, val1, val2)), v, b, c2)
    ensures c2 ==
      if index <= c1.loopNum then
        c1.(data := c1.data.(vol := c1.data.vol.WithLimits(index - 1, ToUshort(val1), ToUshort(val2))))
      else c1
    ensures index <= c1.loopNum ==> (c2.data.vol.min[index - 1] == val1 <==> 0 <= val1 < 0x10000)
    ensures index <= c1.loopNum ==> (c2.data.vol.max[index - 1] == val2 <==> 0 <= val2 < 0x10000)
  {
    hide Parsed, ReplyOf, Apply, SetBusbarInsertVol, ToUshort, Filled, Sensed, ShowsLine, SameRow,
        DataValue.WithLimits, PowUnit.WithLimits;
    var p1 := Parsed(ReplyOf(addr, regs), v);
    var p2 := Parsed(ReplyOf(addr, Apply(addr, regs, SetBusbarInsertVol(addr, index, val1, val2))), v);
    var k := index - 1;
    var line := p1.data[k].(vol := p1.data[k].vol.(smin := ToUshort(val1), smax := ToUshort(val2)));
    VolReadsBack(addr, regs, index, val1, val2, v);
    VolLimitsShown(c1.data, k, p1.data[k], ToUshort(val1), ToUshort(val2));
    if k < p1.lineNum {
      LineIsShown(b.data, c1.data, p1, k);
      RecordWithLine(b, c1, c2, p1, p2, k, line, c1.data.(vol := c1.data.vol.WithLimits(k, ToUshort(val1),
          ToUshort(val2))));
    } else {
      RowsOfItself(c1.data);
      RecordWithLine(b, c1, c2, p1, p2, k, line, c1.data);
    }
    LimitsAt(c1.data.vol, k, ToUshort(val1), ToUshort(val2));
    UshortFits(val1);
    UshortFits(val2);
  }

  /** setBusbarInsertCur: the limits are in both places of the addressed row if the box reports that loop, and
      nothing else differs; if it reports fewer loops, nothing differs at all. */
  lemma InsertCurArrives(
      addr: bv8, regs: Registers, index: LoopIndex, val1: int, val2: int, v: Packet, b: Record, c1: Record, c2: Record)
    requires addr != 1 && Reads(addr, regs, v, b, c1)
    requires Reads(addr, Apply(addr, regs, SetBusbarInsertCur(addr, index, val1, val2)), v, b, c2)
    ensures c2 ==
      if index <= c1.loopNum then
        c1.(data := c1.data.(cur := c1.data.cur.WithLimits(index - 1, ToUshort(val1), ToUshort(val2))))
      else c1
    ensures index <= c1.loopNum ==> (c2.data.cur.min[index - 1] == val1 <==> 0 <= val1 < 0x10000)
    ensures index <= c1.loopNum ==> (c2.data.cur.max[index - 1] == val2 <==> 0 <= val2 < 0x10000)
  {
    hide Parsed, ReplyOf, Apply, SetBusbarInsertCur, ToUshort, Filled, Sensed, ShowsLine, SameRow,
        DataValue.WithLimits, PowUnit.WithLimits;
    var p1 := Parsed(ReplyOf(addr, regs), v);
    var p2 := Parsed(ReplyOf(addr, Apply(addr, regs, SetBusbarInsertCur(addr, index, val1, val2))), v);
    var k := index - 1;
    var line := p1.data[k].(cur := p1.data[k].cur.(smin := ToUshort(val1), smax := ToUshort(val2)));
    CurReadsBack(addr, regs, index, val1, val2, v);
    CurLimitsShown(c1.data, k, p1.data[k], ToUshort(val1), ToUshort(val2));
    if k < p1.lineNum {
      LineIsShown(b.data, c1.data, p1, k);
      RecordWithLine(b, c1, c2, p1, p2, k, line, c1.data.(cur := c1.data.cur.WithLimits(k, ToUshort(val1),
          ToUshort(val2))));
    } else {
      RowsOfItself(c1.data);
      RecordWithLine(b, c1, c2, p1, p2, k, line, c1.data);
    }
    LimitsAt(c1.data.cur, k, ToUshort(val1), ToUshort(val2));
    UshortFits(val1);
    UshortFits(val2);
  }

  /** setBusbarInsertPow: the limits are in both places of the addressed row if the box reports that loop, and
      nothing else differs; if it reports fewer loops, nothing differs at all. */
  lemma InsertPowArrives(
      addr: bv8, regs: Registers, index: LoopIndex, val1: int, val2: int, v: Packet, b: Record, c1: Record, c2: Record)
    requires addr != 1 && Reads(addr, regs, v, b, c1)
    requires Reads(addr, Apply(addr, regs, SetBusbarInsertPow(addr, index, val1, val2)), v, b, c2)
    ensures c2 ==
      if index <= c1.loopNum then
        c1.(data := c1.data.(pow := c1.data.pow.WithLimits(index - 1, ToUint(val1), ToUint(val2))))
      else c1
    ensures index <= c1.loopNum ==> (c2.data.pow.min[index - 1] == val1 <==> 0 <= val1 < 0x1_0000_0000)
    ensures index <= c1.loopNum ==> (c2.data.pow.max[index - 1] == val2 <==> 0 <= val2 < 0x1_0000_0000)
  {
    hide Parsed, ReplyOf, Apply, SetBusbarInsertPow, ToUint, Filled, Sensed, ShowsLine, SameRow,
        DataValue.WithLimits, PowUnit.WithLimits;
    var p1 := Parsed(ReplyOf(addr, regs), v);
    var p2 := Parsed(ReplyOf(addr, Apply(addr, regs, SetBusbarInsertPow(addr, index, val1, val2))), v);
    var k := index - 1;
    var line := p1.data[k].(pow := p1.data[k].pow.(imin := ToUint(val1), imax := ToUint(val2)));
    PowReadsBack(addr, regs, index, val1, val2, v);
    PowLimitsShown(c1.data, k, p1.data[k], ToUint(val1), ToUint(val2));
    if k < p1.lineNum {
      LineIsShown(b.data, c1.data, p1, k);
      RecordWithLine(b, c1, c2, p1, p2, k, line, c1.data.(pow := c1.data.pow.WithLimits(k, ToUint(val1),
          ToUint(val2))));
    } else {
      RowsOfItself(c1.data);
      RecordWithLine(b, c1, c2, p1, p2, k, line, c1.data);
    }
    PowLimitsAt(c1.data.pow, k, ToUint(val1), ToUint(val2));
    UintFits(val1);
    UintFits(val2);
  }

  /** setBusbarInsertTem: the limits are in both places of the addressed sensor, whatever the number of
      loops, and nothing else differs. */
  lemma InsertTemArrives(
      addr: bv8, regs: Registers, index: SensorIndex, val1: int, val2: int, v: Packet, b: Record, c1: Record,
          c2: Record)
    requires addr != 1 && Reads(addr, regs, v, b, c1)
    requires Reads(addr, Apply(addr, regs, SetBusbarInsertTem(addr, index, val1, val2)), v, b, c2)
    ensures c2 == c1.(tem := c1.tem.WithLimits(index - 1, ToUshort(val1), ToUshort(val2)))
    ensures c2.tem.min[index - 1] == val1 <==> 0 <= val1 < 0x10000
    ensures c2.tem.max[index - 1] == val2 <==> 0 <= val2 < 0x10000
  {
    hide Parsed, ReplyOf, Apply, SetBusbarInsertTem, ToUshort, Filled, Sensed, DataValue.WithLimits;
    var p1 := Parsed(ReplyOf(addr, regs), v);
    var p2 := Parsed(ReplyOf(addr, Apply(addr, regs, SetBusbarInsertTem(addr, index, val1, val2))), v);
    var k := index - 1;
    TemReadsBack(addr, regs, index, val1, val2, v);
    var e := p1.env[k].(min := ToUshort(val1), max := ToUshort(val2));
    FilledAlone(b.data, c2.data, p2, p1);
    FilledOnce(b.data, c1.data, c2.data, p1);
    SensedLimits(b.tem, c1.tem, p1, p2, k, ToUshort(val1), ToUshort(val2));
    SensedOnce(b.tem, c2.tem, c1.tem.WithLimits(k, ToUshort(val1), ToUshort(val2)), p2);
    LimitsAt(c1.tem, k, ToUshort(val1), ToUshort(val2));
    UshortFits(val1);
    UshortFits(val2);
  }

  lemma SensedLimits(d: DataValue, t: DataValue, p1: Packet, p2: Packet, k: nat, lowest: Ushort, highest: Ushort)
    requires d.Valid() && t.Valid() && p1.Valid() && p2.Valid() && k < SENSORS && Sensed(d, t, p1)
    requires p2.env == p1.env[k := p1.env[k].(min := lowest, max := highest)]
    ensures Sensed(d, t.WithLimits(k, lowest, highest), p2)
  {
    var u := t.WithLimits(k, lowest, highest);
    forall i: nat | i < SENSORS
      ensures Holds(u, i, SensorUnit(p2.env[i]))
    {
      assert Holds(t, i, SensorUnit(p1.env[i]));
    }
    forall i: nat | SENSORS <= i < LOOPS
      ensures SameEntry(u, d, i)
    {
      assert SameEntry(t, d, i);
    }
  }

  /** Packets that differ in nothing a record takes. */
  lemma SameRecord(b: Record, c1: Record, c2: Record, p1: Packet, p2: Packet)
    requires Refreshed(b, c1, p1) && Refreshed(b, c2, p2)
    requires p2 == p1.(crc := p2.crc, data := p2.data)
    requires forall i: nat :: i < LOOPS ==> p2.data[i].(lineVol := p1.data[i].lineVol) == p1.data[i]
    ensures c2 == c1
  {
    hide Filled, Sensed;
    FilledAlone(b.data, c2.data, p2, p1);
    FilledOnce(b.data, c1.data, c2.data, p1);
    SensedAlone(b.tem, c2.tem, p2, p1);
    SensedOnce(b.tem, c1.tem, c2.tem, p1);
  }

  /** setBusbarInsertZeroLine leaves no trace in the record. */
  lemma InsertZeroLineDoesNotArrive(
      addr: bv8, regs: Registers, val1: int, val2: int, v: Packet, b: Record, c1: Record, c2: Record)
    requires addr != 1 && Reads(addr, regs, v, b, c1)
    requires Reads(addr, Apply(addr, regs, SetBusbarInsertZeroLine(addr, val1, val2)), v, b, c2)
    ensures c2 == c1
  {
    hide Parsed, ReplyOf, Apply, SetBusbarInsertZeroLine, Filled, Sensed;
    ZeroLineIsNotReadBack(addr, regs, val1, val2, v);
    SameRecord(b, c1, c2, Parsed(ReplyOf(addr, regs), v),
               Parsed(ReplyOf(addr, Apply(addr, regs, SetBusbarInsertZeroLine(addr, val1, val2))), v));
  }

  /** Records of packets that differ in their settings. */
  lemma RecordWithSettings(b: Record, c1: Record, c2: Record, p1: Packet, p2: Packet)
    requires Refreshed(b, c1, p1) && Refreshed(b, c2, p2)
    requires p2 == p1.(crc := p2.crc, baudRate := p2.baudRate, iOF := p2.iOF, buzzerStatus := p2.buzzerStatus,
                       alarmTime := p2.alarmTime)
    ensures c2 == c1.(settings := SettingsOf(p2))
  {
    hide Filled, Sensed;
    FilledAlone(b.data, c2.data, p2, p1);
    FilledOnce(b.data, c1.data, c2.data, p1);
    SensedAlone(b.tem, c2.tem, p2, p1);
    SensedOnce(b.tem, c1.tem, c2.tem, p1);
  }

  // The settings: an int arrives exactly if it fits a byte, and nothing else differs.

  lemma InsertBaudArrives(addr: bv8, regs: Registers, val: int, v: Packet, b: Record, c1: Record, c2: Record)
    requires addr != 1 && Reads(addr, regs, v, b, c1)
    requires Reads(addr, Apply(addr, regs, SetBusbarInsertBaud(addr, val)), v, b, c2)
    ensures c2 == c1.(settings := c1.settings.(baudRate := Cut(ToUshort(val))))
    ensures c2.settings.baudRate == val <==> 0 <= val < 0x100
  {
    hide Parsed, ReplyOf, Apply, SetBusbarInsertBaud, Cut, ToUshort, Filled, Sensed;
    BaudReadsBack(addr, regs, val, v);
    RecordWithSettings(b, c1, c2, Parsed(ReplyOf(addr, regs), v),
                       Parsed(ReplyOf(addr, Apply(addr, regs, SetBusbarInsertBaud(addr, val))), v));
  }

  lemma InsertiOFArrives(addr: bv8, regs: Registers, val: int, v: Packet, b: Record, c1: Record, c2: Record)
    requires addr != 1 && Reads(addr, regs, v, b, c1)
    requires Reads(addr, Apply(addr, regs, SetBusbarInsertiOF(addr, val)), v, b, c2)
    ensures c2 == c1.(settings := c1.settings.(iOF := Cut(ToUshort(val))))
    ensures c2.settings.iOF == val <==> 0 <= val < 0x100
  {
    hide Parsed, ReplyOf, Apply, SetBusbarInsertiOF, Cut, ToUshort, Filled, Sensed;
    IOFReadsBack(addr, regs, val, v);
    RecordWithSettings(b, c1, c2, Parsed(ReplyOf(addr, regs), v),
                       Parsed(ReplyOf(addr, Apply(addr, regs, SetBusbarInsertiOF(addr, val))), v));
  }

  lemma InsertBuzzerArrives(addr: bv8, regs: Registers, val: int, v: Packet, b: Record, c1: Record, c2: Record)
    requires addr != 1 && Reads(addr, regs, v, b, c1)
    requires Reads(addr, Apply(addr, regs, SetBusbarInsertBuzzer(addr, val)), v, b, c2)
    ensures c2 == c1.(settings := c1.settings.(buzzerStatus := Cut(ToUshort(val))))
    ensures c2.settings.buzzerStatus == val <==> 0 <= val < 0x100
  {
    hide Parsed, ReplyOf, Apply, SetBusbarInsertBuzzer, Cut, ToUshort, Filled, Sensed;
    BuzzerReadsBack(addr, regs, val, v);
    RecordWithSettings(b, c1, c2, Parsed(ReplyOf(addr, regs), v),
                       Parsed(ReplyOf(addr, Apply(addr, regs, SetBusbarInsertBuzzer(addr, val))), v));
  }

  lemma InsertFilterArrives(addr: bv8, regs: Registers, val: int, v: Packet, b: Record, c1: Record, c2: Record)
    requires addr != 1 && Reads(addr, regs, v, b, c1)
    requires Reads(addr, Apply(addr, regs, SetBusbarInsertFilter(addr, val)), v, b, c2)
    ensures c2 == c1.(settings := c1.settings.(alarmTime := Cut(ToUshort(val))))
    ensures c2.settings.alarmTime == val <==> 0 <= val < 0x100
  {
    hide Parsed, ReplyOf, Apply, SetBusbarInsertFilter, Cut, ToUshort, Filled, Sensed;
    FilterReadsBack(addr, regs, val, v);
    RecordWithSettings(b, c1, c2, Parsed(ReplyOf(addr, regs), v),
                       Parsed(ReplyOf(addr, Apply(addr, regs, SetBusbarInsertFilter(addr, val))), v));
  }

  // ---------------------------------------------------------------------------------------------
  // The commands of the start box.
  // ---------------------------------------------------------------------------------------------

  /** setBusbarStartPow: the limits of the total power, and nothing else. */
  lemma StartPowArrives(regs: Registers, val1: int, val2: int, v: Packet, b: Record, c1: Record, c2: Record)
    requires Reads(1, regs, v, b, c1)
    requires Reads(1, Apply(1, regs, SetBusbarStartPow(1, val1, val2)), v, b, c2)
    ensures c2 == c1.(totalPow := c1.totalPow.(min := ToUint(val1), max := ToUint(val2)))
    ensures c2.totalPow.min == val1 <==> 0 <= val1 < 0x1_0000_0000
    ensures c2.totalPow.max == val2 <==> 0 <= val2 < 0x1_0000_0000
  {
    hide Parsed, ReplyOf, Apply, SetBusbarStartPow, ToUint, Filled, Sensed;
    var p1 := Parsed(ReplyOf(1, regs), v);
    var p2 := Parsed(ReplyOf(1, Apply(1, regs, SetBusbarStartPow(1, val1, val2))), v);
    StartPowReadsBack(1, regs, val1, val2, v);
    FilledAlone(b.data, c2.data, p2, p1);
    FilledOnce(b.data, c1.data, c2.data, p1);
    SensedAlone(b.tem, c2.tem, p2, p1);
    SensedOnce(b.tem, c1.tem, c2.tem, p1);
    UintFits(val1);
    UintFits(val2);
  }

  /** setBusbarStartLineVol is read back into the packet, but it leaves no trace in the record: the
      line voltages are not copied. */
  lemma StartLineVolDoesNotArrive(
      regs: Registers, index: LineIndex, val1: int, val2: int, v: Packet, b: Record, c1: Record, c2: Record)
    requires Reads(1, regs, v, b, c1)
    requires Reads(1, Apply(1, regs, SetBusbarStartLineVol(1, index, val1, val2)), v, b, c2)
    ensures c2 == c1
  {
    hide Parsed, ReplyOf, Apply, SetBusbarStartLineVol, ToUshort, Filled, Sensed;
    StartLineVolReadsBack(1, regs, index, val1, val2, v);
    SameRecord(b, c1, c2, Parsed(ReplyOf(1, regs), v),
               Parsed(ReplyOf(1, Apply(1, regs, SetBusbarStartLineVol(1, index, val1, val2))), v));
  }

  // ---------------------------------------------------------------------------------------------
  // What records show that their boxes did not send.
  // ---------------------------------------------------------------------------------------------

  /** A plug box sends no frequency, residual current, zero line current, total power or unbalance.
      After a start box has replied, and then any number of plug boxes, the record of the last of
      them shows those of the start box. */
  lemma PlugRecordShowsTheStartBox(start: Reply, plugs: seq<Reply>, v: Packet, b: Record, c: Record)
    requires v.Valid() && start[0] == 1 && forall i :: 0 <= i < |plugs| ==> plugs[i][0] != 1
    requires Refreshed(b, c, ParsedAll(plugs, Parsed(start, v)))
    ensures
      var s := Parsed(start, v);
      && c.rate == s.rate && c.reCur == s.reCur && c.zeroLineCur == s.zeroLineCur
      && c.totalPow == Total(s.totalPow.ivalue, s.totalPow.imin, s.totalPow.imax)
      && c.volUnbalance == s.volUnbalance && c.curUnbalance == s.curUnbalance
  {
    hide Parsed, Filled, Sensed;
    PlugsLeaveStartFields(plugs, Parsed(start, v));
  }

  /** After any number of replies of any boxes, the alarms kept with the temperatures are those the
      reader's packet held before the first of them. */
  lemma SensorAlarmsAreOld(replies: seq<Reply>, v: Packet, b: Record, c: Record, i: nat)
    requires v.Valid() && i < SENSORS && Refreshed(b, c, ParsedAll(replies, v))
    ensures c.tem.upalarm[i] == v.env[i].upalarm
  {
    hide Parsed, Filled;
    UpalarmIsNeverParsed(replies, v, i);
    assert Holds(c.tem, i, SensorUnit(ParsedAll(replies, v).env[i]));
  }
}
