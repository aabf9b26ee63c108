/** What the file lock is for, in every reachable state: writers exclude everybody, results are true,
    and the system cannot deadlock. */
module LockedFileLaws {
  import opened LockedFile
  import opened LockedFileSteps

  // ---------------------------------------------------------------------------------------------
  // Runs.
  // ---------------------------------------------------------------------------------------------

  datatype Move = Move(p: Pid, e: Event)

  /** The states of a run: from no processes at all, one step after the other. */
  ghost predicate IsRun(states: seq<Sys>, moves: seq<Move>) {
    && |states| == |moves| + 1
    && states[0] == INITIAL
    && forall i | 0 <= i < |moves| ::
         Enabled(states[i], moves[i].p, moves[i].e) && states[i + 1] == Step(states[i], moves[i].p, moves[i].e)
  }

  ghost predicate Reachable(s: Sys) {
    exists states, moves :: IsRun(states, moves) && states[|moves|] == s
  }

  lemma {:induction false} RunKeeps(states: seq<Sys>, moves: seq<Move>, i: nat)
    requires IsRun(states, moves) && i < |states|
    ensures Inv(states[i])
  {
    hide Inv, Step, Enabled;
    if i == 0 {
      InitialInv();
    } else {
      RunKeeps(states, moves, i - 1);
      StepKeeps(states[i - 1], moves[i - 1].p, moves[i - 1].e);
    }
  }

  lemma InitialInv()
    ensures Inv(INITIAL)
  {
  }

  lemma ReachableInv(s: Sys)
    requires Reachable(s)
    ensures Inv(s)
  {
    hide Inv;
    var states, moves :| IsRun(states, moves) && states[|moves|] == s;
    RunKeeps(states, moves, |moves|);
  }

  // ---------------------------------------------------------------------------------------------
  // Safety.
  // ---------------------------------------------------------------------------------------------

  lemma WriterExcludesAllIn(s: Sys, p: Pid, r: Pid)
    requires Inv(s) && p in s.procs && r in s.procs
    requires Locked(s.procs[p]) && s.procs[p].mode == WriteLock && Locked(s.procs[r])
    ensures r == p
  {
    var n := if s.procs[r].mode == WriteLock then Writer else Slot(s.procs[r].rmutex.value);
    assert ShouldOwn(s.procs[r], n) && Owns(s.owner, n, r);
    if n.Slot? {
      OwnedExists(s, n);
      assert ShouldOwn(s.procs[p], n);
    } else {
      assert ShouldOwn(s.procs[p], n);
    }
    assert Owns(s.owner, n, p);
  }

  /** A process that has the file locked for writing is the only one that has it locked at all. */
  lemma WriterExcludesAll(s: Sys, p: Pid, r: Pid)
    requires Reachable(s) && p in s.procs && r in s.procs
    requires Locked(s.procs[p]) && s.procs[p].mode == WriteLock && Locked(s.procs[r])
    ensures r == p
  {
    ReachableInv(s);
    WriterExcludesAllIn(s, p, r);
  }

  /** Two readers never own the same slot. */
  lemma ReadersHaveTheirOwnSlots(s: Sys, p: Pid, r: Pid)
    requires Reachable(s) && p in s.procs && r in s.procs && p != r
    requires Locked(s.procs[p]) && s.procs[p].mode == ReadLock && Locked(s.procs[r]) && s.procs[r].mode == ReadLock
    ensures s.procs[p].rmutex.Some? && s.procs[r].rmutex.Some?
    ensures s.procs[p].rmutex.value < MAX_READERS && s.procs[p].rmutex != s.procs[r].rmutex
  {
    ReachableInv(s);
    var n, m := Slot(s.procs[p].rmutex.value), Slot(s.procs[r].rmutex.value);
    assert ShouldOwn(s.procs[p], n) && Owns(s.owner, n, p);
    assert ShouldOwn(s.procs[r], m) && Owns(s.owner, m, r);
  }

  /** A process outside lock() and unlock() that does not have the file locked owns no mutex. */
  lemma UnlockedOwnsNothing(s: Sys, p: Pid, n: Name)
    requires Reachable(s) && p in s.procs && s.procs[p].pc.Outside? && s.procs[p].mode == NoLock
    ensures !Owns(s.owner, n, p)
  {
    ReachableInv(s);
    assert !ShouldOwn(s.procs[p], n);
  }

  /** What lock() and unlock() say by their results: true means that the file is now locked as asked, or
      not locked where that was asked.  So the documented meaning of the result of lock(), true if and
      only if the file is then locked, holds exactly for the calls that ask for a lock. */
  lemma ResultsAreTrue(s: Sys, p: Pid)
    requires Reachable(s) && p in s.procs && s.procs[p].pc.Outside?
    ensures s.procs[p].asked != NoLock ==> (s.procs[p].ret <==> s.procs[p].mode == s.procs[p].asked)
    ensures s.procs[p].asked != NoLock && !s.procs[p].ret ==> !Locked(s.procs[p])
    ensures s.procs[p].asked == NoLock ==> s.procs[p].ret && !Locked(s.procs[p])
    ensures (s.procs[p].ret <==> Locked(s.procs[p])) <==> s.procs[p].asked != NoLock
  {
    ReachableInv(s);
  }

  // ---------------------------------------------------------------------------------------------
  // Progress.
  // ---------------------------------------------------------------------------------------------

  /** p's next system call blocks on a mutex that r owns. */
  ghost predicate WaitsFor(s: Sys, p: Pid, r: Pid) {
    && p in s.procs && Blocked(s, p)
    && var q := s.procs[p];
       if q.pc.WaitWriter? then Owns(s.owner, Writer, r) else exists i :: i in q.rmutexes && Owns(s.owner, Slot(i), r)
  }

  /** How long a chain of waits can start at a process. */
  function Rank(q: Proc): nat {
    if q.pc.WaitWriter? then 2 else if q.pc.WaitAll? then 1 else 0
  }

  /** Waiting goes down in rank: processes wait for the owner of the writer mutex, who waits for
      slot owners, who wait for nobody.  So the waits-for relation has no cycle. */
  lemma WaitsDescend(s: Sys, p: Pid, r: Pid)
    requires Reachable(s) && WaitsFor(s, p, r)
    ensures r in s.procs && Rank(s.procs[r]) < Rank(s.procs[p])
  {
    ReachableInv(s);
    var q := s.procs[p];
    if q.pc.WaitWriter? {
      assert ShouldOwn(s.procs[r], Writer);
    } else {
      var i :| i in q.rmutexes && Owns(s.owner, Slot(i), r);
      assert ShouldOwn(s.procs[r], Slot(i));
    }
  }

  /** Every blocked process waits for some process. */
  lemma BlockedWaits(s: Sys, p: Pid)
    requires p in s.procs && Blocked(s, p)
    ensures exists r :: WaitsFor(s, p, r)
  {
    var q := s.procs[p];
    if q.pc.WaitWriter? {
      assert Owns(s.owner, Writer, s.owner[Writer]) && WaitsFor(s, p, s.owner[Writer]);
    } else {
      var i :| i in q.rmutexes && !Free(s, Slot(i));
      assert Owns(s.owner, Slot(i), s.owner[Slot(i)]) && WaitsFor(s, p, s.owner[Slot(i)]);
    }
  }

  /** A chain of waits from p to r. */
  ghost predicate WaitsChain(s: Sys, chain: seq<Pid>, p: Pid, r: Pid) {
    && |chain| > 0 && chain[0] == p && chain[|chain| - 1] == r
    && forall i | 0 <= i < |chain| - 1 :: WaitsFor(s, chain[i], chain[i + 1])
  }

  /** Behind every blocked process there is one that is not blocked: the system cannot deadlock. */
  lemma {:induction false} NoDeadlock(s: Sys, p: Pid) returns (chain: seq<Pid>, r: Pid)
    requires Reachable(s) && p in s.procs
    ensures WaitsChain(s, chain, p, r) && r in s.procs && !Blocked(s, r)
    decreases Rank(s.procs[p])
  {
    hide Reachable, Blocked, WaitsFor, Rank;
    if !Blocked(s, p) {
      chain, r := [p], p;
    } else {
      BlockedWaits(s, p);
      var next :| WaitsFor(s, p, next);
      WaitsDescend(s, p, next);
      var rest;
      rest, r := NoDeadlock(s, next);
      chain := [p] + rest;
    }
  }

  /** A process inside lock() or unlock() that is not blocked can make its next system call. */
  lemma UnblockedCanGo(s: Sys, p: Pid)
    requires p in s.procs && !s.procs[p].pc.Outside? && !Blocked(s, p)
    ensures exists choice :: Enabled(s, p, Go(false, choice))
  {
    var slots := s.procs[p].rmutexes;
    if slots != {} {
      var choice :| choice in slots;
      assert Enabled(s, p, Go(false, choice));
    } else {
      assert Enabled(s, p, Go(false, 0));
    }
  }

  /** A reader that has created a slot acquires it: the failure branch after the creation of a slot
      is never taken. */
  lemma CreatedSlotIsTaken(s: Sys, p: Pid, fail: bool, choice: nat)
    requires Reachable(s) && Enabled(s, p, Go(fail, choice)) && s.procs[p].pc.TryCreated?
    ensures
      var q := Step(s, p, Go(fail, choice)).procs[p];
      q.pc == EndScan(true) && Owns(Step(s, p, Go(fail, choice)).owner, Slot(s.procs[p].pc.idx), p)
  {
    ReachableInv(s);
    assert SlotFact(s, s.procs[p]);
  }

  /** Non-blocking acquisition of the writer mutex fails only while another process owns it. */
  lemma RefusedOnlyByAnother(s: Sys, p: Pid, fail: bool, choice: nat)
    requires Reachable(s) && Enabled(s, p, Go(fail, choice)) && s.procs[p].pc.WaitWriter?
    requires Step(s, p, Go(fail, choice)).procs[p].pc.Outside?
    ensures exists r :: r in s.procs && r != p && Owns(s.owner, Writer, r)
  {
    ReachableInv(s);
    var r := s.owner[Writer];
    assert Owns(s.owner, Writer, r);
    assert ShouldOwn(s.procs[r], Writer);
  }
}
