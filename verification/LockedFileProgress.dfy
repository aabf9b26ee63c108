/** What the file lock achieves: every call is short, and a lock is granted exactly when nobody else
    stands in the way. */
module LockedFileProgress {
  import opened LockedFile
  import opened LockedFileSteps
  import opened LockedFileLaws

  // ---------------------------------------------------------------------------------------------
  // Every call is short.
  // ---------------------------------------------------------------------------------------------

  /** The slots from idx on. */
  function Rest(idx: nat): nat {
    if idx < MAX_READERS then MAX_READERS - idx else 0
  }

  /** The system calls that may follow unlock(). */
  function After(goal: Goal): nat {
    match goal
    case Return(_) => 0
    case Acquire(_, _) => 3 * MAX_READERS + 7
  }

  /** The system calls a process has left, at most, until its call returns. */
  function Left(q: Proc): nat {
    match q.pc
    case Outside => 0
    case CreateWriter(_, _) => 3 * MAX_READERS + 7
    case WaitWriter(_, _) => 3 * MAX_READERS + 6
    case OpenSlot(idx) => 3 * Rest(idx) + 5
    case TrySlot(idx) => 3 * Rest(idx) + 4
    case CloseBusySlot(idx) => 3 * Rest(idx) + 3
    case CreateSlot(_) => 4
    case TryCreated(_) => 3
    case CloseCreated(_) => 2
    case EndScan(_) => 1
    case Collect(idx, _) => 3 * Rest(idx) + 2 * |q.rmutexes| + 5
    case WaitAll(_) => 2 * |q.rmutexes| + 4
    case ReleaseSlot(goal) => 2 + After(goal)
    case CloseSlot(goal) => 1 + After(goal)
    case ReleaseCollected(_, goal) => 2 * |q.rmutexes| + 2 + After(goal)
    case CloseCollected(_, _, goal) => 2 * |q.rmutexes| + 1 + After(goal)
    case ReleaseWriter(goal) => 1 + After(goal)
  }

  /** The place a system call leads to. */
  ghost function Next(s: Sys, p: Pid, fail: bool, choice: nat): Proc
    requires Enabled(s, p, Go(fail, choice))
  {
    Call(s, p, fail, choice).procs[p]
  }

  ghost predicate IsScan(pc: Pc) {
    pc.CreateWriter? || pc.WaitWriter? || pc.OpenSlot? || pc.TrySlot? || pc.CloseBusySlot? || pc.CreateSlot? ||
    pc.TryCreated? || pc.EndScan?
  }

  lemma ScanGoesOn(s: Sys, p: Pid, fail: bool, choice: nat)
    requires Enabled(s, p, Go(fail, choice)) && LocalInv(s.procs[p]) && IsScan(s.procs[p].pc)
    ensures Left(Next(s, p, fail, choice)) < Left(s.procs[p])
  {
    hide AddHandle, CloseHandle, Take, TakeAll, Release, Free, Exists, Blocked;
  }

  lemma OneMore(slots: set<nat>, i: nat)
    ensures |slots + {i}| <= |slots| + 1
    ensures i in slots ==> |slots - {i}| == |slots| - 1
  {
    if i in slots {
      assert slots + {i} == slots;
    }
  }

  /** What a step of the collection makes of the process. */
  lemma CollectStep(s: Sys, p: Pid, fail: bool, choice: nat)
    requires Enabled(s, p, Go(fail, choice)) && s.procs[p].pc.Collect?
    ensures
      var q, q' := s.procs[p], Next(s, p, fail, choice);
      if q.pc.idx < MAX_READERS then
        && q'.pc == Collect(q.pc.idx + 1, q.pc.block)
        && (q'.rmutexes == q.rmutexes || q'.rmutexes == q.rmutexes + {q.pc.idx})
      else
        if q.rmutexes == {} then q'.pc == Outside else q'.pc == WaitAll(q.pc.block) && q'.rmutexes == q.rmutexes
  {
    hide LocalInv, AddHandle, Exists, Blocked;
  }

  lemma CollectGoesOn(s: Sys, p: Pid, fail: bool, choice: nat)
    requires Enabled(s, p, Go(fail, choice)) && s.procs[p].pc.Collect?
    ensures Left(Next(s, p, fail, choice)) < Left(s.procs[p])
  {
    hide LocalInv, Blocked, Next;
    CollectStep(s, p, fail, choice);
    OneMore(s.procs[p].rmutexes, s.procs[p].pc.idx);
  }

  lemma WaitAllGoesOn(s: Sys, p: Pid, fail: bool, choice: nat)
    requires Enabled(s, p, Go(fail, choice)) && s.procs[p].pc.WaitAll?
    ensures Left(Next(s, p, fail, choice)) < Left(s.procs[p])
  {
    hide LocalInv, AddHandle, CloseHandle, Take, TakeAll, Release, Free, Exists, Blocked, Rest;
  }

  lemma ReleaseGoesOn(s: Sys, p: Pid, fail: bool, choice: nat)
    requires Enabled(s, p, Go(fail, choice)) && (s.procs[p].pc.ReleaseSlot? || s.procs[p].pc.CloseSlot?)
    requires s.procs[p].rmutex.Some?
    ensures Left(Next(s, p, fail, choice)) < Left(s.procs[p])
  {
    hide LocalInv, AddHandle, CloseHandle, Take, TakeAll, Release, Free, Exists, Blocked, Rest;
  }

  lemma ReleaseAllGoesOn(s: Sys, p: Pid, fail: bool, choice: nat)
    requires Enabled(s, p, Go(fail, choice)) && (s.procs[p].pc.ReleaseCollected? || s.procs[p].pc.ReleaseWriter?)
    ensures Left(Next(s, p, fail, choice)) < Left(s.procs[p])
  {
    hide LocalInv, AddHandle, CloseHandle, Take, TakeAll, Release, Free, Exists, Blocked, Rest;
  }

  lemma CloseAllGoesOn(s: Sys, p: Pid, fail: bool, choice: nat)
    requires Enabled(s, p, Go(fail, choice)) && s.procs[p].pc.CloseCollected?
    requires s.procs[p].pc.idx in s.procs[p].rmutexes
    ensures Left(Next(s, p, fail, choice)) < Left(s.procs[p])
  {
    hide LocalInv, AddHandle, CloseHandle, Take, TakeAll, Release, Free, Exists, Blocked, Rest, After;
    OneMore(s.procs[p].rmutexes, s.procs[p].pc.idx);
  }

  /** Every system call of a process brings its lock() or unlock() nearer to the end, whatever the others
      do in between. */
  lemma CallsGoOn(s: Sys, p: Pid, fail: bool, choice: nat)
    requires Inv(s) && Enabled(s, p, Go(fail, choice))
    ensures Left(Next(s, p, fail, choice)) < Left(s.procs[p])
  {
    hide Inv, Blocked, Left, Next;
    LocalFacts(s, p);
    var pc := s.procs[p].pc;
    if IsScan(pc) {
      ScanGoesOn(s, p, fail, choice);
    } else if pc.Collect? {
      CollectGoesOn(s, p, fail, choice);
    } else if pc.WaitAll? {
      WaitAllGoesOn(s, p, fail, choice);
    } else if pc.ReleaseSlot? || pc.CloseSlot? {
      ReleaseGoesOn(s, p, fail, choice);
    } else if pc.CloseCollected? {
      CloseAllGoesOn(s, p, fail, choice);
    } else {
      ReleaseAllGoesOn(s, p, fail, choice);
    }
  }

  lemma SmallSet(slots: set<nat>, n: nat)
    requires forall i | i in slots :: i < n
    ensures |slots| <= n
    decreases n
  {
    if n > 0 {
      SmallSet(slots - {n - 1}, n - 1);
      assert slots <= (slots - {n - 1}) + {n - 1};
      if n - 1 in slots {
        assert |slots| == |slots - {n - 1}| + 1;
      } else {
        assert slots == slots - {n - 1};
      }
    } else {
      assert slots == {};
    }
  }

  /** No call of lock() or unlock() makes more than 329 system calls. */
  lemma CallsAreShort(s: Sys, p: Pid)
    requires Reachable(s) && p in s.procs
    ensures Left(s.procs[p]) <= 329
  {
    ReachableInv(s);
    LocalFacts(s, p);
    SmallSet(s.procs[p].rmutexes, MAX_READERS);
  }

  // ---------------------------------------------------------------------------------------------
  // What every system call leaves as it is.
  // ---------------------------------------------------------------------------------------------

  /** Where a process is that may have to wait. */
  predicate MayBlock(pc: Pc) {
    match pc
    case CreateWriter(_, block) => block
    case WaitWriter(_, block) => block
    case Collect(_, block) => block
    case WaitAll(block) => block
    case ReleaseSlot(goal) => GoalMayBlock(goal)
    case CloseSlot(goal) => GoalMayBlock(goal)
    case ReleaseCollected(_, goal) => GoalMayBlock(goal)
    case CloseCollected(_, _, goal) => GoalMayBlock(goal)
    case ReleaseWriter(goal) => GoalMayBlock(goal)
    case _ => false
  }

  predicate GoalMayBlock(goal: Goal) {
    goal.Acquire? && goal.block
  }

  /** How many slots a scanning reader has passed over. */
  function Passed(pc: Pc): nat {
    match pc
    case OpenSlot(idx) => idx
    case TrySlot(idx) => idx
    case CloseBusySlot(idx) => idx + 1
    case _ => 0
  }

  /** A call changes nothing of the others, nor what was asked; who may not block, may not later; and only a
      scan passes slots over and comes to its end. */
  ghost predicate Quiet(s: Sys, p: Pid, s': Sys) {
    && p in s.procs && p in s'.procs && s'.procs == s.procs[p := s'.procs[p]]
    && s'.procs[p].asked == s.procs[p].asked && (MayBlock(s'.procs[p].pc) ==> MayBlock(s.procs[p].pc))
    && (IsScan(s.procs[p].pc) || Passed(s'.procs[p].pc) == 0)
    && (IsScan(s.procs[p].pc) || s.procs[p].pc.CloseCreated? || !s'.procs[p].pc.EndScan?)
  }

  lemma ScanFacts(s: Sys, p: Pid, fail: bool, choice: nat)
    requires Enabled(s, p, Go(fail, choice)) && IsScan(s.procs[p].pc)
    ensures Quiet(s, p, Call(s, p, fail, choice))
  {
    hide Blocked, AddHandle, CloseHandle, Take, TakeAll, Release, Free, Exists;
  }

  lemma CollectFacts(s: Sys, p: Pid, fail: bool, choice: nat)
    requires Enabled(s, p, Go(fail, choice)) && (s.procs[p].pc.Collect? || s.procs[p].pc.CloseCreated?)
    ensures Quiet(s, p, Call(s, p, fail, choice))
  {
    hide Blocked, AddHandle, CloseHandle, Take, TakeAll, Release, Free, Exists;
  }

  lemma WaitAllFacts(s: Sys, p: Pid, fail: bool, choice: nat)
    requires Enabled(s, p, Go(fail, choice)) && s.procs[p].pc.WaitAll?
    ensures Quiet(s, p, Call(s, p, fail, choice))
  {
    hide Blocked, AddHandle, CloseHandle, Take, TakeAll, Release, Free, Exists;
  }

  lemma ReleaseFacts(s: Sys, p: Pid, fail: bool, choice: nat)
    requires Enabled(s, p, Go(fail, choice)) && (s.procs[p].pc.ReleaseSlot? || s.procs[p].pc.CloseSlot?)
    ensures Quiet(s, p, Call(s, p, fail, choice))
  {
    hide Blocked, AddHandle, CloseHandle, Take, TakeAll, Release, Free, Exists;
  }

  lemma ReleaseAllFacts(s: Sys, p: Pid, fail: bool, choice: nat)
    requires Enabled(s, p, Go(fail, choice))
    requires s.procs[p].pc.ReleaseCollected? || s.procs[p].pc.CloseCollected? || s.procs[p].pc.ReleaseWriter?
    ensures Quiet(s, p, Call(s, p, fail, choice))
  {
    hide Blocked, AddHandle, CloseHandle, Take, TakeAll, Release, Free, Exists;
  }

  lemma CallFacts(s: Sys, p: Pid, fail: bool, choice: nat)
    requires Enabled(s, p, Go(fail, choice))
    ensures Quiet(s, p, Call(s, p, fail, choice))
  {
    hide Blocked, Call, Quiet;
    var pc := s.procs[p].pc;
    if IsScan(pc) {
      ScanFacts(s, p, fail, choice);
    } else if pc.ReleaseSlot? || pc.CloseSlot? {
      ReleaseFacts(s, p, fail, choice);
    } else if pc.ReleaseCollected? || pc.CloseCollected? || pc.ReleaseWriter? {
      ReleaseAllFacts(s, p, fail, choice);
    } else if pc.WaitAll? {
      WaitAllFacts(s, p, fail, choice);
    } else {
      CollectFacts(s, p, fail, choice);
    }
  }

  // ---------------------------------------------------------------------------------------------
  // What the others own.
  // ---------------------------------------------------------------------------------------------

  /** Another process owns the mutex. */
  predicate Other(o: Owners, p: Pid, n: Name) {
    n in o && o[n] != p
  }

  ghost predicate SameOthers(o: Owners, o': Owners, p: Pid) {
    forall n :: Other(o', p, n) <==> Other(o, p, n)
  }

  lemma TakeKeepsOthers(o: Owners, n: Name, p: Pid)
    requires n !in o
    ensures SameOthers(o, Take(o, n, p), p)
  {
  }

  lemma TakeAllKeepsOthers(o: Owners, slots: set<nat>, p: Pid)
    requires forall i | i in slots :: Slot(i) !in o
    ensures SameOthers(o, TakeAll(o, slots, p), p)
  {
  }

  lemma ReleaseKeepsOthers(o: Owners, n: Name, p: Pid)
    ensures SameOthers(o, Release(o, n, p), p)
  {
  }

  predicate Takes(pc: Pc) {
    pc.WaitWriter? || pc.TrySlot? || pc.TryCreated?
  }

  predicate Releases(pc: Pc) {
    pc.EndScan? || pc.ReleaseSlot? || pc.ReleaseCollected? || pc.ReleaseWriter?
  }

  lemma TakeOwners(s: Sys, p: Pid, fail: bool, choice: nat)
    requires Enabled(s, p, Go(fail, choice)) && Takes(s.procs[p].pc)
    ensures SameOthers(s.owner, Call(s, p, fail, choice).owner, p)
  {
    hide SameOthers, Take, Blocked, LocalInv;
    var n := if s.procs[p].pc.WaitWriter? then Writer else Slot(s.procs[p].pc.idx);
    SameAsBefore(s.owner, p);
    if Free(s, n) {
      TakeKeepsOthers(s.owner, n, p);
    }
  }

  lemma SameAsBefore(o: Owners, p: Pid)
    ensures SameOthers(o, o, p)
  {
  }

  lemma TakeAllOwners(s: Sys, p: Pid, fail: bool, choice: nat)
    requires Enabled(s, p, Go(fail, choice)) && s.procs[p].pc.WaitAll?
    ensures SameOthers(s.owner, Call(s, p, fail, choice).owner, p)
  {
    hide SameOthers, TakeAll, Blocked, LocalInv;
    SameAsBefore(s.owner, p);
    if forall i | i in s.procs[p].rmutexes :: Free(s, Slot(i)) {
      TakeAllKeepsOthers(s.owner, s.procs[p].rmutexes, p);
    }
  }

  lemma ReleaseOwners(s: Sys, p: Pid, fail: bool, choice: nat)
    requires Enabled(s, p, Go(fail, choice)) && Releases(s.procs[p].pc)
    ensures SameOthers(s.owner, Call(s, p, fail, choice).owner, p)
  {
    hide SameOthers, Release, Blocked, LocalInv;
    var q := s.procs[p];
    SameAsBefore(s.owner, p);
    ReleaseKeepsOthers(s.owner, Writer, p);
    ReleaseKeepsOthers(s.owner, Slot(choice), p);
    if q.rmutex.Some? {
      ReleaseKeepsOthers(s.owner, Slot(q.rmutex.value), p);
    }
  }

  lemma QuietOwners(s: Sys, p: Pid, fail: bool, choice: nat)
    requires Enabled(s, p, Go(fail, choice))
    requires !Takes(s.procs[p].pc) && !Releases(s.procs[p].pc) && !s.procs[p].pc.WaitAll?
    ensures SameOthers(s.owner, Call(s, p, fail, choice).owner, p)
  {
    hide SameOthers, Blocked, LocalInv, AddHandle, CloseHandle;
    SameAsBefore(s.owner, p);
  }

  /** A system call of p takes nothing from the others and gives them nothing. */
  lemma CallKeepsOthers(s: Sys, p: Pid, fail: bool, choice: nat)
    requires Enabled(s, p, Go(fail, choice))
    ensures SameOthers(s.owner, Call(s, p, fail, choice).owner, p)
  {
    hide SameOthers, Blocked, Call;
    var pc := s.procs[p].pc;
    if Takes(pc) {
      TakeOwners(s, p, fail, choice);
    } else if Releases(pc) {
      ReleaseOwners(s, p, fail, choice);
    } else if pc.WaitAll? {
      TakeAllOwners(s, p, fail, choice);
    } else {
      QuietOwners(s, p, fail, choice);
    }
  }

  // ---------------------------------------------------------------------------------------------
  // When a call will be granted the lock.
  // ---------------------------------------------------------------------------------------------

  /** Some slot from idx on is not owned by another. */
  ghost predicate SlotLeft(o: Owners, p: Pid, idx: nat) {
    exists i: nat :: idx <= i < MAX_READERS && !Other(o, p, Slot(i))
  }

  /** No slot is owned by another. */
  ghost predicate NoReader(o: Owners, p: Pid) {
    forall i: nat :: i < MAX_READERS ==> !Other(o, p, Slot(i))
  }

  /** Nobody else stands in the way: no other process has the writer mutex, and for reading there is a slot
      left, for writing no other process has a slot. */
  ghost predicate Grantable(o: Owners, p: Pid, want: Mode) {
    !Other(o, p, Writer) && if want == ReadLock then SlotLeft(o, p, 0) else NoReader(o, p)
  }

  /** The same, from where the process is. */
  ghost predicate WillLock(s: Sys, p: Pid)
    requires p in s.procs
  {
    var q := s.procs[p];
    match q.pc
    case Outside => q.ret && q.mode == q.asked
    case CreateWriter(want, _) => Grantable(s.owner, p, want)
    case WaitWriter(want, _) => Grantable(s.owner, p, want)
    case OpenSlot(idx) => SlotLeft(s.owner, p, idx)
    case TrySlot(idx) => SlotLeft(s.owner, p, idx)
    case CloseBusySlot(idx) => SlotLeft(s.owner, p, idx + 1)
    case CreateSlot(_) => true
    case TryCreated(_) => true
    case CloseCreated(_) => false
    case EndScan(ok) => ok
    case Collect(_, _) => NoReader(s.owner, p)
    case WaitAll(_) => NoReader(s.owner, p)
    case ReleaseSlot(goal) => GoalGrantable(s.owner, p, goal)
    case CloseSlot(goal) => GoalGrantable(s.owner, p, goal)
    case ReleaseCollected(_, goal) => GoalGrantable(s.owner, p, goal)
    case CloseCollected(_, _, goal) => GoalGrantable(s.owner, p, goal)
    case ReleaseWriter(goal) => GoalGrantable(s.owner, p, goal)
  }

  ghost predicate GoalGrantable(o: Owners, p: Pid, goal: Goal) {
    goal.Acquire? && Grantable(o, p, goal.want)
  }

  lemma OthersDecide(o: Owners, o': Owners, p: Pid)
    requires SameOthers(o, o', p)
    ensures forall idx :: SlotLeft(o', p, idx) <==> SlotLeft(o, p, idx)
    ensures NoReader(o', p) <==> NoReader(o, p)
    ensures forall want :: Grantable(o', p, want) <==> Grantable(o, p, want)
    ensures forall goal :: GoalGrantable(o', p, goal) <==> GoalGrantable(o, p, goal)
  {
    hide Other;
  }

  /** A mutex that p does not own is free, or another owns it. */
  lemma FreeOrOther(s: Sys, p: Pid, n: Name)
    requires Inv(s) && p in s.procs && !ShouldOwn(s.procs[p], n)
    ensures Free(s, n) <==> !Other(s.owner, p, n)
  {
    assert !Owns(s.owner, n, p);
  }

  lemma WaitWriterDecides(s: Sys, p: Pid, choice: nat)
    requires Inv(s) && Enabled(s, p, Go(false, choice)) && s.procs[p].pc.WaitWriter? && s.procs[p].asked != NoLock
    ensures WillLock(Call(s, p, false, choice), p) <==> WillLock(s, p)
  {
    hide ProcsInv, HandlesInv, OwnersInv, Take, SameOthers, SlotLeft, NoReader, Other;
    LocalFacts(s, p);
    CallKeepsOthers(s, p, false, choice);
    OthersDecide(s.owner, Call(s, p, false, choice).owner, p);
    FreeOrOther(s, p, Writer);
  }

  lemma OpenSlotDecides(s: Sys, p: Pid, choice: nat)
    requires Inv(s) && Enabled(s, p, Go(false, choice)) && s.procs[p].pc.OpenSlot?
    ensures WillLock(Call(s, p, false, choice), p) <==> WillLock(s, p)
  {
    hide ProcsInv, HandlesInv, OwnersInv, AddHandle;
    LocalFacts(s, p);
    var n := Slot(s.procs[p].pc.idx);
    if n in s.owner {
      OwnedExists(s, n);
    }
  }

  lemma TrySlotDecides(s: Sys, p: Pid, choice: nat)
    requires Inv(s) && Enabled(s, p, Go(false, choice)) && s.procs[p].pc.TrySlot?
    ensures WillLock(Call(s, p, false, choice), p) <==> WillLock(s, p)
  {
    hide ProcsInv, HandlesInv, OwnersInv, Take, Other;
    LocalFacts(s, p);
    FreeOrOther(s, p, Slot(s.procs[p].pc.idx));
  }

  lemma ScanDecides(s: Sys, p: Pid, choice: nat)
    requires Inv(s) && Enabled(s, p, Go(false, choice))
    requires
      var pc := s.procs[p].pc;
      pc.CreateWriter? || pc.CloseBusySlot? || pc.CreateSlot? || pc.TryCreated? || pc.EndScan?
    ensures WillLock(Call(s, p, false, choice), p) <==> WillLock(s, p)
  {
    hide ProcsInv, HandlesInv, OwnersInv, AddHandle, CloseHandle, Take, Release, SlotLeft, Grantable;
    LocalFacts(s, p);
  }

  lemma CollectDecides(s: Sys, p: Pid, choice: nat)
    requires Inv(s) && Enabled(s, p, Go(false, choice)) && s.procs[p].pc.Collect?
    ensures WillLock(Call(s, p, false, choice), p) <==> WillLock(s, p)
  {
    hide ProcsInv, HandlesInv, OwnersInv, AddHandle;
    LocalFacts(s, p);
    forall i: nat | i < MAX_READERS && Slot(i) in s.owner
      ensures Exists(s, Slot(i))
    {
      OwnedExists(s, Slot(i));
    }
  }

  lemma WaitAllDecides(s: Sys, p: Pid, choice: nat)
    requires Inv(s) && Enabled(s, p, Go(false, choice)) && s.procs[p].pc.WaitAll?
    ensures WillLock(Call(s, p, false, choice), p) <==> WillLock(s, p)
  {
    hide ProcsInv, HandlesInv, OwnersInv, TakeAll, Other;
    LocalFacts(s, p);
    CollectedDecide(s, p);
  }

  /** The collected slots are free exactly if no slot is owned by another. */
  lemma CollectedDecide(s: Sys, p: Pid)
    requires Inv(s) && p in s.procs && s.procs[p].pc.WaitAll?
    ensures (forall i | i in s.procs[p].rmutexes :: Free(s, Slot(i))) <==> NoReader(s.owner, p)
  {
    hide ProcsInv, HandlesInv, OwnersInv, Other;
    LocalFacts(s, p);
    forall i: nat | i < MAX_READERS
      ensures Free(s, Slot(i)) <==> !Other(s.owner, p, Slot(i))
      ensures i !in s.procs[p].rmutexes ==> Free(s, Slot(i))
    {
      FreeOrOther(s, p, Slot(i));
      if Slot(i) in s.owner {
        OwnedExists(s, Slot(i));
      }
    }
  }

  lemma UnlockDecides(s: Sys, p: Pid, choice: nat)
    requires Inv(s) && Enabled(s, p, Go(false, choice)) && s.procs[p].asked != NoLock
    requires
      var pc := s.procs[p].pc;
      pc.ReleaseSlot? || pc.CloseSlot? || pc.ReleaseCollected? || pc.CloseCollected? || pc.ReleaseWriter?
    ensures WillLock(Call(s, p, false, choice), p) <==> WillLock(s, p)
  {
    hide ProcsInv, HandlesInv, OwnersInv, CloseHandle, Release, SameOthers, Grantable, Blocked;
    LocalFacts(s, p);
    CallKeepsOthers(s, p, false, choice);
    OthersDecide(s.owner, Call(s, p, false, choice).owner, p);
  }

  /** Whether a call will be granted the lock is not changed by its own system calls, if CreateMutex does
      not fail. */
  lemma CallDecides(s: Sys, p: Pid, choice: nat)
    requires Inv(s) && Enabled(s, p, Go(false, choice)) && s.procs[p].asked != NoLock
    ensures WillLock(Call(s, p, false, choice), p) <==> WillLock(s, p)
    ensures Call(s, p, false, choice).procs[p].asked == s.procs[p].asked
  {
    hide Inv, Blocked, WillLock;
    LocalFacts(s, p);
    CallFacts(s, p, false, choice);
    var pc := s.procs[p].pc;
    if pc.WaitWriter? {
      WaitWriterDecides(s, p, choice);
    } else if pc.OpenSlot? {
      OpenSlotDecides(s, p, choice);
    } else if pc.TrySlot? {
      TrySlotDecides(s, p, choice);
    } else if pc.Collect? {
      CollectDecides(s, p, choice);
    } else if pc.WaitAll? {
      WaitAllDecides(s, p, choice);
    } else if pc.CreateWriter? || pc.CloseBusySlot? || pc.CreateSlot? || pc.TryCreated? || pc.EndScan? {
      ScanDecides(s, p, choice);
    } else {
      UnlockDecides(s, p, choice);
    }
  }

  // ---------------------------------------------------------------------------------------------
  // A process on its own.
  // ---------------------------------------------------------------------------------------------

  lemma OneCallAlone(s: Sys, p: Pid, choice: nat)
    requires Inv(s) && Enabled(s, p, Go(false, choice))
    ensures Inv(Call(s, p, false, choice)) && p in Call(s, p, false, choice).procs
    ensures Left(Call(s, p, false, choice).procs[p]) < Left(s.procs[p])
  {
    hide Inv, Enabled, Left;
    StepKeeps(s, p, Go(false, choice));
    CallsGoOn(s, p, false, choice);
  }

  /** Some next system call of a process that can go on. */
  ghost function Choice(s: Sys, p: Pid): (choice: nat)
    requires p in s.procs && !s.procs[p].pc.Outside? && !Blocked(s, p)
    ensures Enabled(s, p, Go(false, choice))
  {
    UnblockedCanGo(s, p);
    var choice :| Enabled(s, p, Go(false, choice));
    choice
  }

  /** The system after p has made its system calls until its call returns or blocks, none of them failing,
      while the others do nothing. */
  ghost function Alone(s: Sys, p: Pid): (e: Sys)
    requires Inv(s) && p in s.procs
    ensures Inv(e) && p in e.procs && (e.procs[p].pc.Outside? || Blocked(e, p))
    decreases Left(s.procs[p])
  {
    if s.procs[p].pc.Outside? || Blocked(s, p) then s
    else
      OneCallAlone(s, p, Choice(s, p));
      Alone(Call(s, p, false, Choice(s, p)), p)
  }

  lemma {:induction false} AloneDecides(s: Sys, p: Pid)
    requires Inv(s) && p in s.procs && s.procs[p].asked != NoLock
    ensures WillLock(Alone(s, p), p) <==> WillLock(s, p)
    ensures Alone(s, p).procs[p].asked == s.procs[p].asked
    decreases Left(s.procs[p])
  {
    hide Inv, Blocked, Left, WillLock, Call, Choice;
    if !s.procs[p].pc.Outside? && !Blocked(s, p) {
      var choice := Choice(s, p);
      OneCallAlone(s, p, choice);
      CallDecides(s, p, choice);
      AloneDecides(Call(s, p, false, choice), p);
    }
  }

  lemma {:induction false} AloneKeepsOthers(s: Sys, p: Pid)
    requires Inv(s) && p in s.procs
    ensures SameOthers(s.owner, Alone(s, p).owner, p) && Alone(s, p).procs[p].asked == s.procs[p].asked
    decreases Left(s.procs[p])
  {
    hide Inv, Blocked, Left, Call, Choice, Other;
    if !s.procs[p].pc.Outside? && !Blocked(s, p) {
      var choice := Choice(s, p);
      OneCallAlone(s, p, choice);
      CallKeepsOthers(s, p, false, choice);
      CallFacts(s, p, false, choice);
      AloneKeepsOthers(Call(s, p, false, choice), p);
    }
  }

  lemma {:induction false} AloneMayNotBlock(s: Sys, p: Pid)
    requires Inv(s) && p in s.procs && !MayBlock(s.procs[p].pc)
    ensures Alone(s, p).procs[p].pc.Outside?
    decreases Left(s.procs[p])
  {
    hide Inv, Left, Call, Choice;
    if !s.procs[p].pc.Outside? {
      var choice := Choice(s, p);
      OneCallAlone(s, p, choice);
      CallFacts(s, p, false, choice);
      AloneMayNotBlock(Call(s, p, false, choice), p);
    }
  }

  /** A process that is blocked will not be granted the lock as things are. */
  lemma BlockedWillNot(s: Sys, p: Pid)
    requires Inv(s) && p in s.procs && Blocked(s, p)
    ensures !WillLock(s, p)
  {
    hide ProcsInv, HandlesInv, OwnersInv, SlotLeft, NoReader, Other;
    if s.procs[p].pc.WaitWriter? {
      FreeOrOther(s, p, Writer);
    } else {
      CollectedDecide(s, p);
    }
  }

  lemma LockStarts(s: Sys, p: Pid, want: Mode, block: bool)
    requires Enabled(s, p, CallLock(want, block)) && want != NoLock && want != s.procs[p].mode
    ensures
      var s' := Step(s, p, CallLock(want, block));
      && p in s'.procs && s'.procs[p].asked == want && (WillLock(s', p) <==> Grantable(s.owner, p, want))
      && (MayBlock(s'.procs[p].pc) <==> block)
  {
    hide Grantable;
  }

  /** lock(want, block) while the others do nothing and CreateMutex does not fail: the file is then locked as
      asked if and only if nobody else stands in the way; otherwise it is not locked at all, and a call
      that must not block has returned false. */
  lemma LockAlone(s: Sys, p: Pid, want: Mode, block: bool)
    requires Inv(s) && Enabled(s, p, CallLock(want, block)) && want != NoLock && want != s.procs[p].mode
    ensures Inv(Step(s, p, CallLock(want, block))) && p in Step(s, p, CallLock(want, block)).procs
    ensures
      var q := Alone(Step(s, p, CallLock(want, block)), p).procs[p];
      && (Grantable(s.owner, p, want) <==> Locked(q) && q.mode == want && q.ret)
      && (!Grantable(s.owner, p, want) ==> !Locked(q))
      && (!Grantable(s.owner, p, want) && !block ==> q.pc.Outside? && !q.ret)
  {
    hide ProcsInv, HandlesInv, OwnersInv, Grantable, Step, Alone, Blocked;
    StepKeeps(s, p, CallLock(want, block));
    LockStarts(s, p, want, block);
    var s' := Step(s, p, CallLock(want, block));
    var e := Alone(s', p);
    AloneDecides(s', p);
    LocalFacts(e, p);
    if Blocked(e, p) {
      BlockedWillNot(e, p);
    }
    if !block {
      AloneMayNotBlock(s', p);
    }
  }

  /** unlock() while the others do nothing: it returns true, and the mutexes that are owned then are those of
      the others. */
  lemma UnlockAlone(s: Sys, p: Pid)
    requires Inv(s) && Enabled(s, p, CallUnlock)
    ensures Inv(Step(s, p, CallUnlock)) && p in Step(s, p, CallUnlock).procs
    ensures
      var e := Alone(Step(s, p, CallUnlock), p);
      && e.procs[p].pc.Outside? && e.procs[p].mode == NoLock && e.procs[p].ret
      && forall n :: n in e.owner <==> Other(s.owner, p, n)
  {
    hide ProcsInv, HandlesInv, Alone, Other;
    StepKeeps(s, p, CallUnlock);
    var s' := Step(s, p, CallUnlock);
    var e := Alone(s', p);
    AloneKeepsOthers(s', p);
    LocalFacts(e, p);
    forall n
      ensures n in e.owner <==> Other(s.owner, p, n)
    {
      FreeOrOther(e, p, n);
    }
  }

  // ---------------------------------------------------------------------------------------------
  // A process among others.
  // ---------------------------------------------------------------------------------------------

  /** A reader gives up only if CreateMutex fails or it has been through all slots. */
  lemma ScanFailsOnlyThen(s: Sys, p: Pid, fail: bool, choice: nat)
    requires Reachable(s) && Enabled(s, p, Go(fail, choice)) && !s.procs[p].pc.EndScan?
    requires Next(s, p, fail, choice).pc == EndScan(false)
    ensures
      var pc := s.procs[p].pc;
      (pc.CreateSlot? && fail) || (pc.OpenSlot? && pc.idx >= MAX_READERS)
  {
    hide Reachable, Inv, Blocked, Next;
    ReachableInv(s);
    LocalFacts(s, p);
    FailsFrom(s, p, fail, choice);
  }

  lemma FailsFrom(s: Sys, p: Pid, fail: bool, choice: nat)
    requires Enabled(s, p, Go(fail, choice)) && Next(s, p, fail, choice).pc == EndScan(false)
    ensures
      var pc := s.procs[p].pc;
      (pc.CreateSlot? && fail) || (pc.OpenSlot? && pc.idx >= MAX_READERS) || pc.CloseCreated?
  {
    hide Blocked, Call;
    CallFacts(s, p, fail, choice);
    if IsScan(s.procs[p].pc) {
      ScanFailsFrom(s, p, fail, choice);
    }
  }

  lemma ScanFailsFrom(s: Sys, p: Pid, fail: bool, choice: nat)
    requires Enabled(s, p, Go(fail, choice)) && IsScan(s.procs[p].pc)
    requires Next(s, p, fail, choice).pc == EndScan(false)
    ensures
      var pc := s.procs[p].pc;
      (pc.CreateSlot? && fail) || (pc.OpenSlot? && pc.idx >= MAX_READERS)
  {
    hide Blocked, AddHandle, CloseHandle, Take, TakeAll, Release, Free, Exists;
  }

  /** It passes a slot over only while another live process owns it. */
  lemma PassedOverOnlyThen(s: Sys, p: Pid, fail: bool, choice: nat, i: nat)
    requires Reachable(s) && Enabled(s, p, Go(fail, choice))
    requires Next(s, p, fail, choice).pc == CloseBusySlot(i)
    ensures Other(s.owner, p, Slot(i)) && s.owner[Slot(i)] in s.procs
  {
    ReachableInv(s);
    LocalFacts(s, p);
    PassedFrom(s, p, fail, choice, i);
    FreeOrOther(s, p, Slot(i));
    assert Owns(s.owner, Slot(i), s.owner[Slot(i)]);
  }

  lemma PassedFrom(s: Sys, p: Pid, fail: bool, choice: nat, i: nat)
    requires Enabled(s, p, Go(fail, choice)) && Next(s, p, fail, choice).pc == CloseBusySlot(i)
    ensures s.procs[p].pc == TrySlot(i) && !Free(s, Slot(i))
  {
    hide Blocked, AddHandle, CloseHandle, Take, TakeAll, Release, Exists;
  }

  /** In some state of the run up to j another process owned the slot. */
  ghost predicate SeenBusy(states: seq<Sys>, j: nat, p: Pid, i: nat) {
    exists k: nat :: k <= j && k < |states| && Other(states[k].owner, p, Slot(i))
  }

  lemma ScanPasses(s: Sys, p: Pid, fail: bool, choice: nat)
    requires Enabled(s, p, Go(fail, choice)) && IsScan(s.procs[p].pc)
    ensures
      var pc := Next(s, p, fail, choice).pc;
      Passed(pc) <= Passed(s.procs[p].pc) || pc == CloseBusySlot(Passed(s.procs[p].pc))
  {
    hide Blocked, AddHandle, CloseHandle, Take, TakeAll, Release, Free, Exists;
  }

  lemma PassedGrows(s: Sys, p: Pid, fail: bool, choice: nat)
    requires Enabled(s, p, Go(fail, choice))
    ensures
      var pc := Next(s, p, fail, choice).pc;
      Passed(pc) <= Passed(s.procs[p].pc) || pc == CloseBusySlot(Passed(s.procs[p].pc))
  {
    hide Blocked, Call, Passed;
    if IsScan(s.procs[p].pc) {
      ScanPasses(s, p, fail, choice);
    } else {
      CallFacts(s, p, fail, choice);
    }
  }

  /** A step of p other than a system call leaves it outside a scan; a step of another leaves it alone. */
  lemma OtherStepsDoNotPass(s: Sys, p: Pid, r: Pid, e: Event)
    requires Enabled(s, r, e) && (r == p ==> !e.Go?) && p in Step(s, r, e).procs
    ensures r == p ==> Passed(Step(s, r, e).procs[p].pc) == 0
    ensures r != p ==> p in s.procs && Step(s, r, e).procs[p] == s.procs[p]
  {
    hide Blocked, AddHandle, CloseHandle, Take, TakeAll, Release, Free, Exists;
    if r != p && e.Go? {
      CallFacts(s, r, e.fail, e.choice);
    }
  }

  /** A reader that has come to a slot has seen every slot below it owned by another process: in every
      run, whatever the others did in between. */
  lemma {:induction false} ScanSawBusy(states: seq<Sys>, moves: seq<Move>, j: nat, p: Pid, i: nat)
    requires IsRun(states, moves) && j < |states| && p in states[j].procs && i < Passed(states[j].procs[p].pc)
    ensures SeenBusy(states, j, p, i)
    decreases j
  {
    hide Step, Enabled, Passed, Other;
    if j > 0 {
      var s, m := states[j - 1], moves[j - 1];
      RunKeeps(states, moves, j - 1);
      if m.p == p && m.e.Go? {
        GoIsOfProcess(s, p, m.e);
        if i < Passed(s.procs[p].pc) {
          ScanSawBusy(states, moves, j - 1, p, i);
        }
        ScanStep(states, moves, j, p, i);
      } else {
        OtherStepsDoNotPass(s, p, m.p, m.e);
        ScanSawBusy(states, moves, j - 1, p, i);
      }
    }
  }

  lemma GoIsOfProcess(s: Sys, p: Pid, e: Event)
    requires Enabled(s, p, e) && e.Go?
    ensures p in s.procs
  {
  }

  lemma ScanStep(states: seq<Sys>, moves: seq<Move>, j: nat, p: Pid, i: nat)
    requires IsRun(states, moves) && 0 < j < |states| && Inv(states[j - 1])
    requires moves[j - 1].p == p && moves[j - 1].e.Go? && p in states[j - 1].procs && p in states[j].procs
    requires i < Passed(states[j].procs[p].pc)
    requires i < Passed(states[j - 1].procs[p].pc) ==> SeenBusy(states, j - 1, p, i)
    ensures SeenBusy(states, j, p, i)
  {
    hide Inv, Enabled, Call, Other;
    var s, e := states[j - 1], moves[j - 1].e;
    assert Enabled(s, p, e) && states[j] == Step(s, p, e);
    PassedGrows(s, p, e.fail, e.choice);
    if i >= Passed(s.procs[p].pc) {
      PassedFrom(s, p, e.fail, e.choice, i);
      FreeOrOther(s, p, Slot(i));
      assert Other(states[j - 1].owner, p, Slot(i));
    }
  }

  // ---------------------------------------------------------------------------------------------
  // A process that has the writer mutex cannot be deprived of the lock any more.
  // ---------------------------------------------------------------------------------------------

  /** Between the acquisition of the writer mutex and the end of lock(). */
  predicate Acquiring(pc: Pc) {
    pc.OpenSlot? || pc.TrySlot? || pc.CloseBusySlot? || pc.CreateSlot? || pc.TryCreated? || pc.EndScan? ||
    pc.Collect? || pc.WaitAll?
  }

  /** A step of a process without the writer mutex takes no slot. */
  ghost predicate NoSlotTaken(o: Owners, o': Owners) {
    forall i: nat :: Slot(i) in o' ==> Slot(i) in o && o'[Slot(i)] == o[Slot(i)]
  }

  lemma ReleaseTakesNoSlot(s: Sys, r: Pid, fail: bool, choice: nat)
    requires Enabled(s, r, Go(fail, choice)) && Releases(s.procs[r].pc)
    ensures NoSlotTaken(s.owner, Call(s, r, fail, choice).owner)
  {
    hide Blocked, CloseHandle, Finish;
  }

  lemma QuietTakesNoSlot(s: Sys, r: Pid, fail: bool, choice: nat)
    requires Enabled(s, r, Go(fail, choice))
    requires !Takes(s.procs[r].pc) && !Releases(s.procs[r].pc) && !s.procs[r].pc.WaitAll?
    ensures Call(s, r, fail, choice).owner == s.owner
  {
    hide Blocked, AddHandle, CloseHandle, Finish, Exists;
  }

  lemma WaitWriterTakesNoSlot(s: Sys, r: Pid, fail: bool, choice: nat)
    requires Enabled(s, r, Go(fail, choice)) && s.procs[r].pc.WaitWriter?
    ensures NoSlotTaken(s.owner, Call(s, r, fail, choice).owner)
  {
    hide Blocked;
  }

  lemma OthersTakeNoSlot(s: Sys, p: Pid, r: Pid, e: Event)
    requires Inv(s) && Enabled(s, r, e) && r != p && p in s.procs && OwnsWriter(s.procs[p])
    ensures NoSlotTaken(s.owner, Step(s, r, e).owner)
  {
    hide Inv, Blocked, Call;
    WriterOwned(s, p);
    if e.Go? {
      var pc := s.procs[r].pc;
      if pc.WaitWriter? {
        WaitWriterTakesNoSlot(s, r, e.fail, e.choice);
      } else if Releases(pc) {
        ReleaseTakesNoSlot(s, r, e.fail, e.choice);
      } else if Takes(pc) || pc.WaitAll? {
        WriterOwned(s, r);
        assert false;
      } else {
        QuietTakesNoSlot(s, r, e.fail, e.choice);
      }
    }
  }

  /** So a reader that has a slot left keeps it left, and a writer that finds no reader finds none later. */
  lemma OthersLetWin(s: Sys, p: Pid, r: Pid, e: Event)
    requires Inv(s) && Enabled(s, r, e) && r != p && p in s.procs
    requires Acquiring(s.procs[p].pc) && WillLock(s, p)
    ensures p in Step(s, r, e).procs && Step(s, r, e).procs[p] == s.procs[p] && WillLock(Step(s, r, e), p)
  {
    hide Inv, Step, Enabled;
    OthersTakeNoSlot(s, p, r, e);
    OthersLeave(s, p, r, e);
    assert forall i: nat :: Other(Step(s, r, e).owner, p, Slot(i)) ==> Other(s.owner, p, Slot(i));
  }

  lemma OthersLeave(s: Sys, p: Pid, r: Pid, e: Event)
    requires Enabled(s, r, e) && r != p && p in s.procs
    ensures p in Step(s, r, e).procs && Step(s, r, e).procs[p] == s.procs[p]
  {
    hide Blocked, Call;
    if e.Go? {
      CallFacts(s, r, e.fail, e.choice);
    }
  }

  /** Its own calls lead on, and it never blocks. */
  lemma WinnerGoesOn(s: Sys, p: Pid, choice: nat)
    requires Inv(s) && Enabled(s, p, Go(false, choice)) && Acquiring(s.procs[p].pc) && WillLock(s, p)
    ensures var pc := Next(s, p, false, choice).pc; Acquiring(pc) || pc.Outside?
  {
    hide Inv, Blocked, AddHandle, CloseHandle, Take, TakeAll, Release, Exists;
    LocalFacts(s, p);
    if s.procs[p].pc.WaitAll? {
      CollectedDecide(s, p);
    }
  }

  lemma WinnerIsNotBlocked(s: Sys, p: Pid)
    requires Inv(s) && p in s.procs && Acquiring(s.procs[p].pc) && WillLock(s, p)
    ensures !Blocked(s, p)
  {
    hide Inv, WillLock;
    if Blocked(s, p) {
      BlockedWillNot(s, p);
    }
  }

  /** The moves of p. */
  function Own(moves: seq<Move>, p: Pid): nat {
    if moves == [] then 0
    else Own(moves[..|moves| - 1], p) + if moves[|moves| - 1].p == p then 1 else 0
  }

  /** p makes nothing but system calls that do not fail. */
  ghost predicate GoesOn(moves: seq<Move>, p: Pid) {
    forall k :: 0 <= k < |moves| && moves[k].p == p ==> moves[k].e.Go? && !moves[k].e.fail
  }

  /** In every run: once p has the writer mutex and nobody else stands in the way, nothing the others do,
      dying included, keeps the lock from it.  It is never blocked, and after as many calls of its own as
      Left says, or before, it has the file locked as asked. */
  lemma {:induction false} WinnerLocks(states: seq<Sys>, moves: seq<Move>, i: nat, j: nat, p: Pid)
    requires IsRun(states, moves) && i <= j < |states| && p in states[i].procs
    requires Acquiring(states[i].procs[p].pc) && WillLock(states[i], p) && GoesOn(moves[i..j], p)
    ensures p in states[j].procs && states[j].procs[p].asked == states[i].procs[p].asked
    ensures
      var q := states[j].procs[p];
      && (if Acquiring(q.pc) then WillLock(states[j], p) && !Blocked(states[j], p)
          else Locked(q) && q.mode == q.asked && q.ret)
      && Left(q) + Own(moves[i..j], p) <= Left(states[i].procs[p])
    decreases j
  {
    hide WillLock, Left, Step, Enabled, Inv, Blocked, LocalInv;
    RunKeeps(states, moves, i);
    if i == j {
      WinnerIsNotBlocked(states[i], p);
    } else {
      var m := moves[j - 1];
      assert moves[i..j][..j - 1 - i] == moves[i..j - 1] && moves[i..j][j - 1 - i] == m;
      RunKeeps(states, moves, j - 1);
      WinnerLocks(states, moves, i, j - 1, p);
      WinnerStep(states[j - 1], p, m.p, m.e);
    }
  }

  lemma WinnerStep(s: Sys, p: Pid, r: Pid, e: Event)
    requires Inv(s) && p in s.procs && Enabled(s, r, e) && (r == p ==> e.Go? && !e.fail)
    requires
      var q := s.procs[p];
      if Acquiring(q.pc) then WillLock(s, p) else Locked(q) && q.mode == q.asked && q.ret
    ensures p in Step(s, r, e).procs
    ensures
      var s' := Step(s, r, e);
      var q := s'.procs[p];
      && q.asked == s.procs[p].asked
      && (if Acquiring(q.pc) then WillLock(s', p) && !Blocked(s', p) else Locked(q) && q.mode == q.asked && q.ret)
      && Left(q) + (if r == p then 1 else 0) <= Left(s.procs[p])
  {
    hide Inv, Left, Call, Blocked;
    StepKeeps(s, r, e);
    var s' := Step(s, r, e);
    if r != p {
      OthersLeave(s, p, r, e);
      if Acquiring(s.procs[p].pc) {
        OthersLetWin(s, p, r, e);
        WinnerIsNotBlocked(s', p);
      }
    } else {
      LocalFacts(s, p);
      OneCallAlone(s, p, e.choice);
      CallFacts(s, p, false, e.choice);
      CallDecides(s, p, e.choice);
      WinnerGoesOn(s, p, e.choice);
      LocalFacts(s', p);
      if Acquiring(s'.procs[p].pc) {
        WinnerIsNotBlocked(s', p);
      }
    }
  }
}
