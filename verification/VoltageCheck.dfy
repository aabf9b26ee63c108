/** ad_resulting.cpp: the voltage check, a loop over the lines that goes back to the first line and
    takes a new reading whenever a line is out of range. */
module VoltageCheck {

  const TEST_FAIL := 2
  const TEST_PASS := 1
  const RETRIES := 5

  /** err, a product divided by 1000.0 and cut to an int: neither factor is negative. */
  function Tolerance(vol: nat, curErr: nat): nat {
    vol * curErr / 1000
  }

  predicate InRange(vol: nat, curErr: nat, value: nat) {
    vol - Tolerance(vol, curErr) <= value <= vol + Tolerance(vol, curErr)
  }

  /** In range means off by no more than curErr thousandths of the voltage asked for. */
  lemma InRangeByThousandths(vol: nat, curErr: nat, value: nat)
    ensures InRange(vol, curErr, value) <==>
            1000 * (if value < vol then vol - value else value - vol) <= vol * curErr
  {
    var product := vol * curErr;
    assert Tolerance(vol, curErr) == product / 1000;
  }

  /** The first line of a reading from i on that is out of range, or the number of lines. */
  function FirstBad(vol: nat, curErr: nat, reading: seq<nat>, i: nat): (n: nat)
    requires i <= |reading|
    ensures i <= n <= |reading|
    ensures forall j :: i <= j < n ==> InRange(vol, curErr, reading[j])
    ensures n < |reading| ==> !InRange(vol, curErr, reading[n])
    decreases |reading| - i
  {
    if i == |reading| || !InRange(vol, curErr, reading[i]) then i else FirstBad(vol, curErr, reading, i + 1)
  }

  /** The lines below this one were found in range in one of the first k readings. */
  function Furthest(vol: nat, curErr: nat, readings: seq<seq<nat>>): (n: nat)
    ensures forall r :: 0 <= r < |readings| ==> FirstBad(vol, curErr, readings[r], 0) <= n
    ensures readings != [] ==> exists r :: 0 <= r < |readings| && FirstBad(vol, curErr, readings[r], 0) == n
  {
    if readings == [] then 0
    else
      var before := Furthest(vol, curErr, readings[..|readings| - 1]);
      var last := FirstBad(vol, curErr, readings[|readings| - 1], 0);
      if last > before then last else before
  }

  lemma InRangeMeansFurther(vol: nat, curErr: nat, reading: seq<nat>, i: nat)
    requires i < |reading| && i <= FirstBad(vol, curErr, reading, 0) && InRange(vol, curErr, reading[i])
    ensures i < FirstBad(vol, curErr, reading, 0)
  {
  }

  /** What the result says of the readings taken. */
  ghost predicate CheckedBy(vol: nat, curErr: nat, size: nat, seen: seq<seq<nat>>, ret: bool) {
    && 0 < |seen| <= 6
    && (forall r :: 0 <= r < |seen| - 1 ==> FirstBad(vol, curErr, seen[r], 0) < size)
    && (ret <==> FirstBad(vol, curErr, seen[|seen| - 1], 0) == size)
    && (!ret ==> |seen| == 6)
  }

  /** The marks of the lines before i, and of every line below one that a reading got to, are passes;
      the others are as they were. */
  ghost predicate MarkedUpTo(vol: nat, curErr: nat, seen: seq<seq<nat>>, i: nat, marks: seq<int>, status: seq<int>) {
    && |status| == |marks|
    && forall j :: 0 <= j < |marks| ==>
         status[j] == if j < i || j < Furthest(vol, curErr, seen) then TEST_PASS else marks[j]
  }

  /** The marks in the end: a pass for every line that any reading got beyond, and a failure where
      the last reading stopped. */
  ghost predicate MarkedBy(vol: nat, curErr: nat, seen: seq<seq<nat>>, ret: bool, marks: seq<int>, status: seq<int>)
    requires seen != []
  {
    && |status| == |marks|
    && forall j :: 0 <= j < |marks| ==>
         status[j] ==
           if !ret && j == FirstBad(vol, curErr, seen[|seen| - 1], 0) then TEST_FAIL
           else if j < Furthest(vol, curErr, seen) then TEST_PASS else marks[j]
  }

  lemma FurthestOfOneMore(vol: nat, curErr: nat, seen: seq<seq<nat>>, value: seq<nat>)
    ensures
      var before, last := Furthest(vol, curErr, seen), FirstBad(vol, curErr, value, 0);
      Furthest(vol, curErr, seen + [value]) == if last > before then last else before
  {
    assert (seen + [value])[..|seen|] == seen;
  }

  /** The marks after another reading stopped at line i. */
  lemma MarkedByOneMore(
      vol: nat, curErr: nat, seen: seq<seq<nat>>, value: seq<nat>, i: nat, marks: seq<int>, status: seq<int>)
    requires MarkedUpTo(vol, curErr, seen, i, marks, status) && i == FirstBad(vol, curErr, value, 0)
    ensures MarkedUpTo(vol, curErr, seen + [value], 0, marks, status)
    ensures i == |value| ==> MarkedBy(vol, curErr, seen + [value], true, marks, status)
    ensures i < |value| && i < |status| ==> MarkedBy(vol, curErr, seen + [value], false, marks, status[i := TEST_FAIL])
  {
    hide FirstBad, Furthest;
    FurthestOfOneMore(vol, curErr, seen, value);
  }

  /** The readings from one on. */
  function Readings(reports: nat -> (seq<nat>, bool), start: nat, n: nat): (s: seq<seq<nat>>)
    ensures |s| == n
  {
    seq(n, r requires 0 <= r < n => reports(start + r).0)
  }

  lemma OneMoreReading(reports: nat -> (seq<nat>, bool), start: nat, n: nat)
    ensures Readings(reports, start, n + 1) == Readings(reports, start, n) + [reports(start + n).0]
  {
  }

  class AdResulting {
    const vol: nat
    const curErr: nat
    const size: nat
    /** What the box will report: for each reading one voltage a line, and whether the reading itself
        succeeds. */
    const reports: nat -> (seq<nat>, bool)
    var taken: nat
    var value: seq<nat>
    var status: array<int>

    constructor (vol: nat, curErr: nat, size: nat, reports: nat -> (seq<nat>, bool), value: seq<nat>,
        status: array<int>)
      ensures this.vol == vol && this.curErr == curErr && this.size == size && this.reports == reports
      ensures taken == 0 && this.value == value && this.status == status
    {
      this.vol, this.curErr, this.size, this.reports := vol, curErr, size, reports;
      this.taken, this.value, this.status := 0, value, status;
    }

    ghost predicate Valid()
      reads this
    {
      && size <= status.Length
      && (forall r :: |reports(r).0| == size)
      && |value| == size
    }

    method ReadPduData() returns (ret: bool)
      requires Valid()
      modifies this`taken, this`value
      ensures Valid() && taken == old(taken) + 1
      ensures value == reports(old(taken)).0 && ret == reports(old(taken)).1
    {
      value, ret := reports(taken).0, reports(taken).1;
      taken := taken + 1;
    }

    method VolErrRangeByID(i: nat) returns (ret: bool)
      requires Valid() && i < size
      modifies status
      ensures ret <==> InRange(vol, curErr, value[i])
      ensures status[..] == if ret then old(status[..])[i := TEST_PASS] else old(status[..])
    {
      ret := true;
      var err := vol * curErr / 1000;
      var v := value[i];
      var min, max := vol - err, vol + err;
      if v >= min && v <= max {
        status[i] := TEST_PASS;
      } else {
        ret := false;
      }
    }

    /** volErrRange.  At most six readings are taken.  The result is true exactly if the last one, and
        none before it, has every line in range; after a result of false all six had a line out of
        range.  With no line at all it is the result of the one reading. */
    method VolErrRange() returns (ret: bool)
      requires Valid()
      modifies this`taken, this`value, status
      ensures Valid() && old(taken) < taken <= old(taken) + 6
      ensures size == 0 ==> taken == old(taken) + 1 && ret == reports(old(taken)).1 && status[..] == old(status[..])
      ensures size > 0 ==>
        var seen := Readings(reports, old(taken), taken - old(taken));
        CheckedBy(vol, curErr, size, seen, ret) && MarkedBy(vol, curErr, seen, ret, old(status[..]), status[..])
    {
      hide FirstBad, Furthest, InRange, MarkedUpTo, MarkedBy, Readings;
      ghost var start, marks := taken, status[..];
      var k := 0;
      ret := ReadPduData();
      var i := 0;
      ghost var seen := [];
      assert Readings(reports, start, 0) == [];
      NothingMarked(vol, curErr, marks);
      while i < size
        invariant Valid() && 0 <= k <= RETRIES && 0 <= i <= size && taken == start + 1 + k
        invariant seen == Readings(reports, start, k) && value == reports(start + k).0
        invariant i > 0 ==> ret
        invariant size == 0 ==> k == 0 && ret == reports(start).1 && status[..] == marks
        invariant i <= FirstBad(vol, curErr, value, 0)
        invariant forall r :: 0 <= r < k ==> FirstBad(vol, curErr, seen[r], 0) < size
        invariant MarkedUpTo(vol, curErr, seen, i, marks, status[..])
        decreases RETRIES - k, size - i
      {
        ghost var before := status[..];
        ret := VolErrRangeByID(i);
        if ret {
          InRangeMeansFurther(vol, curErr, value, i);
          OneMoreMark(vol, curErr, seen, i, marks, before);
        } else {
          StopsHere(vol, curErr, value, i);
          MarkedByOneMore(vol, curErr, seen, value, i, marks, before);
          OneMoreReading(reports, start, k);
          if k < RETRIES {
            seen := seen + [value];
            k := k + 1;
            i := -1;
            var again := ReadPduData();
          } else {
            ret := false;
            status[i] := TEST_FAIL;
            assert status[..] == before[i := TEST_FAIL];
            return;
          }
        }
        i := i + 1;
      }
      if size > 0 {
        MarkedByOneMore(vol, curErr, seen, value, i, marks, status[..]);
        OneMoreReading(reports, start, k);
      }
    }
  }

  lemma NothingMarked(vol: nat, curErr: nat, marks: seq<int>)
    ensures MarkedUpTo(vol, curErr, [], 0, marks, marks)
  {
  }

  lemma OneMoreMark(vol: nat, curErr: nat, seen: seq<seq<nat>>, i: nat, marks: seq<int>, status: seq<int>)
    requires MarkedUpTo(vol, curErr, seen, i, marks, status) && i < |status|
    ensures MarkedUpTo(vol, curErr, seen, i + 1, marks, status[i := TEST_PASS])
  {
    hide Furthest;
  }

  lemma StopsHere(vol: nat, curErr: nat, reading: seq<nat>, i: nat)
    requires i < |reading| && i <= FirstBad(vol, curErr, reading, 0) && !InRange(vol, curErr, reading[i])
    ensures i == FirstBad(vol, curErr, reading, 0)
  {
  }
}
