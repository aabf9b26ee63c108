/** Every step of the file lock keeps its invariant: one lemma for every place before a system call. */
module LockedFileSteps {
  import opened LockedFile

  // ---------------------------------------------------------------------------------------------
  // What a step of one process may do to the tables.
  // ---------------------------------------------------------------------------------------------

  /** p's step to s' gives p what its new place demands and takes nothing from the others. */
  ghost predicate OwnersStep(s: Sys, p: Pid, q: Proc, s': Sys) {
    && (forall n, r | r != p :: Owns(s'.owner, n, r) <==> Owns(s.owner, n, r))
    && (forall n :: Owns(s'.owner, n, p) <==> ShouldOwn(q, n))
  }

  ghost predicate HandlesStep(s: Sys, p: Pid, q: Proc, s': Sys) {
    && (forall n, r | r != p :: HasHandle(s'.handles, n, r) <==> HasHandle(s.handles, n, r))
    && (forall n :: HasHandle(s'.handles, n, p) <==> ShouldOpen(q, n))
    && NoneEmpty(s'.handles)
  }

  /** The step brings a slot into being, or takes one, only when p owns the writer mutex. */
  ghost predicate SlotsStep(s: Sys, p: Pid, s': Sys) {
    Owns(s.owner, Writer, p) ||
    forall i: nat :: (Exists(s', Slot(i)) ==> Exists(s, Slot(i))) && (Free(s, Slot(i)) ==> Free(s', Slot(i)))
  }

  lemma TablesStep(s: Sys, p: Pid, q: Proc, s': Sys)
    requires Inv(s) && s'.procs == s.procs[p := q]
    requires LocalInv(q) && SlotFact(s', q)
    requires OwnersStep(s, p, q, s') && HandlesStep(s, p, q, s') && SlotsStep(s, p, s')
    ensures Inv(s')
  {
    forall r | r in s'.procs && r != p
      ensures SlotFact(s', s'.procs[r])
    {
      OthersSlotFact(s, p, s', r);
    }
  }

  lemma OthersSlotFact(s: Sys, p: Pid, s': Sys, r: Pid)
    requires Inv(s) && SlotsStep(s, p, s') && r != p && r in s.procs
    ensures SlotFact(s', s.procs[r])
  {
    var q := s.procs[r];
    assert SlotFact(s, q);
    if OwnsWriter(q) {
      assert ShouldOwn(q, Writer) && Owns(s.owner, Writer, r);
    }
  }

  /** A step that leaves the tables alone. */
  lemma QuietStep(s: Sys, p: Pid, q: Proc)
    requires Inv(s) && p in s.procs && LocalInv(q) && SlotFact(s, q)
    requires OwnsWriter(q) == OwnsWriter(s.procs[p]) && OwnedSlots(q) == OwnedSlots(s.procs[p])
    requires q.wmutex == s.procs[p].wmutex && OpenSlots(q) == OpenSlots(s.procs[p])
    ensures Inv(Put(s, p, q))
  {
    hide LocalInv, OwnsWriter, OwnedSlots, OpenSlots, SlotFact;
    var s' := Put(s, p, q);
    forall r | r in s.procs
      ensures SlotFact(s', s.procs[r]) && SlotFact(s', q)
    {
      SlotFactOnTables(s, s', s.procs[r]);
      SlotFactOnTables(s, s', q);
    }
  }

  lemma SlotFactOnTables(s: Sys, s': Sys, q: Proc)
    requires SlotFact(s, q) && s'.handles == s.handles && s'.owner == s.owner
    ensures SlotFact(s', q)
  {
  }

  // A step that changes one table leaves the other fitting.

  lemma SameHandles(s: Sys, p: Pid, q: Proc, s': Sys)
    requires Inv(s) && p in s.procs && s'.handles == s.handles
    requires q.wmutex == s.procs[p].wmutex && OpenSlots(q) == OpenSlots(s.procs[p])
    ensures HandlesStep(s, p, q, s')
  {
    hide ProcsInv, OwnersInv, OpenSlots;
  }

  lemma SameOwners(s: Sys, p: Pid, q: Proc, s': Sys)
    requires Inv(s) && p in s.procs && s'.owner == s.owner
    requires OwnsWriter(q) == OwnsWriter(s.procs[p]) && OwnedSlots(q) == OwnedSlots(s.procs[p])
    ensures OwnersStep(s, p, q, s')
  {
    hide ProcsInv, HandlesInv, OwnsWriter, OwnedSlots;
  }

  // The effect of each system call on its table.

  lemma AddHandleEffect(h: Handles, n: Name, p: Pid)
    requires NoneEmpty(h)
    ensures forall m, r :: HasHandle(AddHandle(h, n, p), m, r) <==> HasHandle(h, m, r) || (m == n && r == p)
    ensures NoneEmpty(AddHandle(h, n, p))
  {
  }

  lemma CloseHandleEffect(h: Handles, n: Name, p: Pid)
    requires NoneEmpty(h)
    ensures forall m, r :: HasHandle(CloseHandle(h, n, p), m, r) <==> HasHandle(h, m, r) && !(m == n && r == p)
    ensures NoneEmpty(CloseHandle(h, n, p)) && CloseHandle(h, n, p).Keys <= h.Keys
  {
    if n in h {
      assert forall r | r in h[n] :: r == p || r in h[n] - {p};
    }
  }

  lemma TakeEffect(o: Owners, n: Name, p: Pid)
    requires n !in o
    ensures forall m, r :: Owns(Take(o, n, p), m, r) <==> Owns(o, m, r) || (m == n && r == p)
  {
  }

  lemma TakeAllEffect(o: Owners, slots: set<nat>, p: Pid)
    requires forall i | i in slots :: Slot(i) !in o
    ensures forall m, r :: Owns(TakeAll(o, slots, p), m, r) <==> Owns(o, m, r) || (m.Slot? && m.i in slots && r == p)
  {
  }

  lemma ReleaseEffect(o: Owners, n: Name, p: Pid)
    ensures forall m, r :: Owns(Release(o, n, p), m, r) <==> Owns(o, m, r) && !(m == n && r == p)
    ensures Release(o, n, p).Keys <= o.Keys
  {
  }

  // What a system call makes of its table fits the place it leads to.

  lemma FitsAfterAddHandle(s: Sys, p: Pid, q: Proc, s': Sys, n: Name)
    requires Inv(s) && p in s.procs && s'.handles == AddHandle(s.handles, n, p)
    requires forall m :: ShouldOpen(q, m) <==> ShouldOpen(s.procs[p], m) || m == n
    ensures HandlesStep(s, p, q, s')
  {
    hide ProcsInv, OwnersInv, ShouldOpen, AddHandle, HasHandle;
    AddHandleEffect(s.handles, n, p);
  }

  lemma FitsAfterCloseHandle(s: Sys, p: Pid, q: Proc, s': Sys, n: Name)
    requires Inv(s) && p in s.procs && s'.handles == CloseHandle(s.handles, n, p)
    requires forall m :: ShouldOpen(q, m) <==> ShouldOpen(s.procs[p], m) && m != n
    ensures HandlesStep(s, p, q, s')
  {
    hide ProcsInv, OwnersInv, ShouldOpen, CloseHandle, HasHandle;
    CloseHandleEffect(s.handles, n, p);
  }

  lemma FitsAfterTake(s: Sys, p: Pid, q: Proc, s': Sys, n: Name)
    requires Inv(s) && p in s.procs && Free(s, n) && s'.owner == Take(s.owner, n, p)
    requires forall m :: ShouldOwn(q, m) <==> ShouldOwn(s.procs[p], m) || m == n
    ensures OwnersStep(s, p, q, s')
  {
    hide ProcsInv, HandlesInv, ShouldOwn, Take, Owns;
    TakeEffect(s.owner, n, p);
  }

  lemma FitsAfterTakeAll(s: Sys, p: Pid, q: Proc, s': Sys, slots: set<nat>)
    requires Inv(s) && p in s.procs && s'.owner == TakeAll(s.owner, slots, p)
    requires forall i | i in slots :: Free(s, Slot(i))
    requires forall m :: ShouldOwn(q, m) <==> ShouldOwn(s.procs[p], m) || (m.Slot? && m.i in slots)
    ensures OwnersStep(s, p, q, s')
  {
    hide ProcsInv, HandlesInv, ShouldOwn, TakeAll, Owns;
    TakeAllEffect(s.owner, slots, p);
  }

  lemma FitsAfterRelease(s: Sys, p: Pid, q: Proc, s': Sys, n: Name)
    requires Inv(s) && p in s.procs && s'.owner == Release(s.owner, n, p)
    requires forall m :: ShouldOwn(q, m) <==> ShouldOwn(s.procs[p], m) && m != n
    ensures OwnersStep(s, p, q, s')
  {
    hide ProcsInv, HandlesInv, ShouldOwn, Release, Owns;
    ReleaseEffect(s.owner, n, p);
  }

  // What a step may do to the slots.

  lemma WriterOwned(s: Sys, p: Pid)
    requires Inv(s) && p in s.procs && OwnsWriter(s.procs[p])
    ensures Owns(s.owner, Writer, p)
  {
    assert ShouldOwn(s.procs[p], Writer);
  }

  lemma SlotsAfterRelease(s: Sys, p: Pid, s': Sys, n: Name)
    requires s'.handles == s.handles && s'.owner == Release(s.owner, n, p)
    ensures SlotsStep(s, p, s')
  {
  }

  lemma SlotsAfterCloseHandle(s: Sys, p: Pid, s': Sys, n: Name)
    requires Inv(s) && s'.handles == CloseHandle(s.handles, n, p) && s'.owner == s.owner
    ensures SlotsStep(s, p, s')
  {
    CloseHandleEffect(s.handles, n, p);
  }

  lemma OwnersMove(s: Sys, p: Pid, q: Proc, s': Sys)
    requires Inv(s) && p in s.procs && s'.procs == s.procs[p := q] && s'.handles == s.handles
    requires q.wmutex == s.procs[p].wmutex && OpenSlots(q) == OpenSlots(s.procs[p])
    requires LocalInv(q) && SlotFact(s', q) && OwnersStep(s, p, q, s') && SlotsStep(s, p, s')
    ensures Inv(s')
  {
    hide Inv, LocalInv, SlotFact, OwnersStep, HandlesStep, SlotsStep, OpenSlots;
    SameHandles(s, p, q, s');
    TablesStep(s, p, q, s');
  }

  lemma HandlesMove(s: Sys, p: Pid, q: Proc, s': Sys)
    requires Inv(s) && p in s.procs && s'.procs == s.procs[p := q] && s'.owner == s.owner
    requires OwnsWriter(q) == OwnsWriter(s.procs[p]) && OwnedSlots(q) == OwnedSlots(s.procs[p])
    requires LocalInv(q) && SlotFact(s', q) && HandlesStep(s, p, q, s') && SlotsStep(s, p, s')
    ensures Inv(s')
  {
    hide Inv, LocalInv, SlotFact, OwnersStep, HandlesStep, SlotsStep, OwnsWriter, OwnedSlots;
    SameOwners(s, p, q, s');
    TablesStep(s, p, q, s');
  }

  lemma LocalFacts(s: Sys, p: Pid)
    requires Inv(s) && p in s.procs
    ensures LocalInv(s.procs[p]) && SlotFact(s, s.procs[p])
  {
  }

  // ---------------------------------------------------------------------------------------------
  // Every step keeps the invariant.
  // ---------------------------------------------------------------------------------------------

  lemma CreateWriterKeeps(s: Sys, p: Pid, fail: bool, choice: nat)
    requires Inv(s) && Enabled(s, p, Go(fail, choice)) && s.procs[p].pc.CreateWriter?
    ensures Inv(Call(s, p, fail, choice))
  {
    hide Inv, HandlesStep;
    LocalFacts(s, p);
    var s' := Call(s, p, fail, choice);
    var q := s'.procs[p];
    if s.procs[p].wmutex || fail {
      QuietStep(s, p, q);
    } else {
      FitsAfterAddHandle(s, p, q, s', Writer);
      HandlesMove(s, p, q, s');
    }
  }

  lemma WaitWriterKeeps(s: Sys, p: Pid, fail: bool, choice: nat)
    requires Inv(s) && Enabled(s, p, Go(fail, choice)) && s.procs[p].pc.WaitWriter?
    ensures Inv(Call(s, p, fail, choice))
  {
    hide Inv, OwnersStep;
    LocalFacts(s, p);
    var s' := Call(s, p, fail, choice);
    var q := s'.procs[p];
    if Free(s, Writer) {
      FitsAfterTake(s, p, q, s', Writer);
      OwnersMove(s, p, q, s');
    } else {
      QuietStep(s, p, q);
    }
  }

  lemma OpenSlotKeeps(s: Sys, p: Pid, fail: bool, choice: nat)
    requires Inv(s) && Enabled(s, p, Go(fail, choice)) && s.procs[p].pc.OpenSlot?
    ensures Inv(Call(s, p, fail, choice))
  {
    hide Inv, HandlesStep;
    LocalFacts(s, p);
    WriterOwned(s, p);
    var s' := Call(s, p, fail, choice);
    var q := s'.procs[p];
    var idx := s.procs[p].pc.idx;
    if idx < MAX_READERS && Exists(s, Slot(idx)) {
      FitsAfterAddHandle(s, p, q, s', Slot(idx));
      HandlesMove(s, p, q, s');
    } else {
      QuietStep(s, p, q);
    }
  }

  lemma TrySlotKeeps(s: Sys, p: Pid, fail: bool, choice: nat)
    requires Inv(s) && Enabled(s, p, Go(fail, choice)) && (s.procs[p].pc.TrySlot? || s.procs[p].pc.TryCreated?)
    ensures Inv(Call(s, p, fail, choice))
  {
    hide Inv, OwnersStep;
    LocalFacts(s, p);
    WriterOwned(s, p);
    var s' := Call(s, p, fail, choice);
    var q := s'.procs[p];
    var n := Slot(s.procs[p].pc.idx);
    if Free(s, n) {
      FitsAfterTake(s, p, q, s', n);
      OwnersMove(s, p, q, s');
    } else {
      QuietStep(s, p, q);
    }
  }

  lemma CloseBusySlotKeeps(s: Sys, p: Pid, fail: bool, choice: nat)
    requires Inv(s) && Enabled(s, p, Go(fail, choice)) && s.procs[p].pc.CloseBusySlot?
    ensures Inv(Call(s, p, fail, choice))
  {
    hide Inv, HandlesStep, SlotsStep;
    LocalFacts(s, p);
    var s' := Call(s, p, fail, choice);
    var q, n := s'.procs[p], Slot(s.procs[p].pc.idx);
    FitsAfterCloseHandle(s, p, q, s', n);
    SlotsAfterCloseHandle(s, p, s', n);
    HandlesMove(s, p, q, s');
  }

  /** Whoever owns a mutex has a handle to it. */
  lemma OwnedExists(s: Sys, n: Name)
    requires Inv(s) && n in s.owner
    ensures Exists(s, n)
  {
    var r := s.owner[n];
    assert Owns(s.owner, n, r);
    assert ShouldOpen(s.procs[r], n);
    assert HasHandle(s.handles, n, r);
  }

  lemma CreateSlotKeeps(s: Sys, p: Pid, fail: bool, choice: nat)
    requires Inv(s) && Enabled(s, p, Go(fail, choice)) && s.procs[p].pc.CreateSlot?
    ensures Inv(Call(s, p, fail, choice))
  {
    hide Inv, HandlesStep;
    LocalFacts(s, p);
    WriterOwned(s, p);
    var s' := Call(s, p, fail, choice);
    var q, n := s'.procs[p], Slot(s.procs[p].pc.idx);
    if fail {
      QuietStep(s, p, q);
    } else {
      if n in s.owner {
        OwnedExists(s, n);
      }
      FitsAfterAddHandle(s, p, q, s', n);
      HandlesMove(s, p, q, s');
    }
  }

  lemma EndScanKeeps(s: Sys, p: Pid, fail: bool, choice: nat)
    requires Inv(s) && Enabled(s, p, Go(fail, choice)) && s.procs[p].pc.EndScan?
    ensures Inv(Call(s, p, fail, choice))
  {
    hide Inv, OwnersStep, SlotsStep;
    LocalFacts(s, p);
    var s' := Call(s, p, fail, choice);
    var q := s'.procs[p];
    FitsAfterRelease(s, p, q, s', Writer);
    SlotsAfterRelease(s, p, s', Writer);
    OwnersMove(s, p, q, s');
  }

  lemma CollectKeeps(s: Sys, p: Pid, fail: bool, choice: nat)
    requires Inv(s) && Enabled(s, p, Go(fail, choice)) && s.procs[p].pc.Collect?
    ensures Inv(Call(s, p, fail, choice))
  {
    hide Inv, HandlesStep;
    LocalFacts(s, p);
    WriterOwned(s, p);
    var s' := Call(s, p, fail, choice);
    var q := s'.procs[p];
    var idx := s.procs[p].pc.idx;
    if idx < MAX_READERS && Exists(s, Slot(idx)) {
      FitsAfterAddHandle(s, p, q, s', Slot(idx));
      HandlesMove(s, p, q, s');
    } else {
      QuietStep(s, p, q);
    }
  }

  lemma WaitAllKeeps(s: Sys, p: Pid, fail: bool, choice: nat)
    requires Inv(s) && Enabled(s, p, Go(fail, choice)) && s.procs[p].pc.WaitAll?
    ensures Inv(Call(s, p, fail, choice))
  {
    hide Inv, OwnersStep;
    LocalFacts(s, p);
    WriterOwned(s, p);
    var s' := Call(s, p, fail, choice);
    var q := s'.procs[p];
    var slots := s.procs[p].rmutexes;
    if forall i | i in slots :: Free(s, Slot(i)) {
      FitsAfterTakeAll(s, p, q, s', slots);
      OwnersMove(s, p, q, s');
    } else {
      QuietStep(s, p, q);
    }
  }

  lemma ReleaseSlotKeeps(s: Sys, p: Pid, fail: bool, choice: nat)
    requires Inv(s) && Enabled(s, p, Go(fail, choice)) && s.procs[p].pc.ReleaseSlot?
    ensures Inv(Call(s, p, fail, choice))
  {
    hide Inv, OwnersStep, SlotsStep;
    LocalFacts(s, p);
    var s' := Call(s, p, fail, choice);
    var q, n := s'.procs[p], Slot(s.procs[p].rmutex.value);
    FitsAfterRelease(s, p, q, s', n);
    SlotsAfterRelease(s, p, s', n);
    OwnersMove(s, p, q, s');
  }

  lemma CloseSlotKeeps(s: Sys, p: Pid, fail: bool, choice: nat)
    requires Inv(s) && Enabled(s, p, Go(fail, choice)) && s.procs[p].pc.CloseSlot?
    ensures Inv(Call(s, p, fail, choice))
  {
    hide Inv, HandlesStep, SlotsStep;
    LocalFacts(s, p);
    var s' := Call(s, p, fail, choice);
    var q, n := s'.procs[p], Slot(s.procs[p].rmutex.value);
    FitsAfterCloseHandle(s, p, q, s', n);
    SlotsAfterCloseHandle(s, p, s', n);
    HandlesMove(s, p, q, s');
  }

  lemma ReleaseCollectedKeeps(s: Sys, p: Pid, fail: bool, choice: nat)
    requires Inv(s) && Enabled(s, p, Go(fail, choice)) && s.procs[p].pc.ReleaseCollected?
    ensures Inv(Call(s, p, fail, choice))
  {
    hide Inv, OwnersStep, SlotsStep;
    LocalFacts(s, p);
    var s' := Call(s, p, fail, choice);
    var q := s'.procs[p];
    if s.procs[p].rmutexes == {} {
      QuietStep(s, p, q);
    } else {
      FitsAfterRelease(s, p, q, s', Slot(choice));
      SlotsAfterRelease(s, p, s', Slot(choice));
      OwnersMove(s, p, q, s');
    }
  }

  lemma CloseCollectedKeeps(s: Sys, p: Pid, fail: bool, choice: nat)
    requires Inv(s) && Enabled(s, p, Go(fail, choice)) && s.procs[p].pc.CloseCollected?
    ensures Inv(Call(s, p, fail, choice))
  {
    hide Inv, HandlesStep, SlotsStep;
    LocalFacts(s, p);
    var s' := Call(s, p, fail, choice);
    var q, n := s'.procs[p], Slot(s.procs[p].pc.idx);
    FitsAfterCloseHandle(s, p, q, s', n);
    SlotsAfterCloseHandle(s, p, s', n);
    HandlesMove(s, p, q, s');
  }

  lemma ReleaseWriterKeeps(s: Sys, p: Pid, fail: bool, choice: nat)
    requires Inv(s) && Enabled(s, p, Go(fail, choice)) && s.procs[p].pc.ReleaseWriter?
    ensures Inv(Call(s, p, fail, choice))
  {
    hide Inv, OwnersStep, SlotsStep;
    LocalFacts(s, p);
    var s' := Call(s, p, fail, choice);
    var q := s'.procs[p];
    FitsAfterRelease(s, p, q, s', Writer);
    SlotsAfterRelease(s, p, s', Writer);
    OwnersMove(s, p, q, s');
  }

  lemma CallKeeps(s: Sys, p: Pid, fail: bool, choice: nat)
    requires Inv(s) && Enabled(s, p, Go(fail, choice))
    ensures Inv(Call(s, p, fail, choice))
  {
    hide Call;
    match s.procs[p].pc
    case Outside =>
    case CreateWriter(_, _) => CreateWriterKeeps(s, p, fail, choice);
    case WaitWriter(_, _) => WaitWriterKeeps(s, p, fail, choice);
    case OpenSlot(_) => OpenSlotKeeps(s, p, fail, choice);
    case TrySlot(_) => TrySlotKeeps(s, p, fail, choice);
    case CloseBusySlot(_) => CloseBusySlotKeeps(s, p, fail, choice);
    case CreateSlot(_) => CreateSlotKeeps(s, p, fail, choice);
    case TryCreated(_) => TrySlotKeeps(s, p, fail, choice);
    case CloseCreated(_) =>
    case EndScan(_) => EndScanKeeps(s, p, fail, choice);
    case Collect(_, _) => CollectKeeps(s, p, fail, choice);
    case WaitAll(_) => WaitAllKeeps(s, p, fail, choice);
    case ReleaseSlot(_) => ReleaseSlotKeeps(s, p, fail, choice);
    case CloseSlot(_) => CloseSlotKeeps(s, p, fail, choice);
    case ReleaseCollected(_, _) => ReleaseCollectedKeeps(s, p, fail, choice);
    case CloseCollected(_, _, _) => CloseCollectedKeeps(s, p, fail, choice);
    case ReleaseWriter(_) => ReleaseWriterKeeps(s, p, fail, choice);
  }

  lemma CallLockKeeps(s: Sys, p: Pid, want: Mode, block: bool)
    requires Inv(s) && Enabled(s, p, CallLock(want, block))
    ensures Inv(Step(s, p, CallLock(want, block)))
  {
    hide Inv;
    var q := s.procs[p].(asked := want);
    LocalFacts(s, p);
    QuietStep(s, p, EnterLock(q, want, block));
  }

  lemma CallUnlockKeeps(s: Sys, p: Pid)
    requires Inv(s) && Enabled(s, p, CallUnlock)
    ensures Inv(Step(s, p, CallUnlock))
  {
    hide Inv;
    var q := s.procs[p].(asked := NoLock);
    LocalFacts(s, p);
    QuietStep(s, p, EnterUnlock(q, Return(true)));
  }

  lemma StartKeeps(s: Sys, p: Pid)
    requires Inv(s) && Enabled(s, p, Start)
    ensures Inv(Step(s, p, Start))
  {
    var s' := Step(s, p, Start);
    TablesStep(s, p, s'.procs[p], s');
  }

  lemma CrashKeeps(s: Sys, p: Pid)
    requires Inv(s) && Enabled(s, p, Crash)
    ensures Inv(Step(s, p, Crash))
  {
    var s' := Step(s, p, Crash);
    assert forall n, r :: Owns(s'.owner, n, r) <==> Owns(s.owner, n, r) && r != p;
    forall n, r
      ensures HasHandle(s'.handles, n, r) <==> HasHandle(s.handles, n, r) && r != p
    {
      if HasHandle(s.handles, n, r) && r != p {
        assert r in s.handles[n] - {p};
      }
    }
    forall r | r in s'.procs
      ensures SlotFact(s', s'.procs[r])
    {
      assert SlotFact(s, s.procs[r]);
    }
  }

  lemma StepKeeps(s: Sys, p: Pid, e: Event)
    requires Inv(s) && Enabled(s, p, e)
    ensures Inv(Step(s, p, e))
  {
    hide Inv, Call, Die;
    match e
    case Start => StartKeeps(s, p);
    case Crash => CrashKeeps(s, p);
    case CallLock(want, block) => CallLockKeeps(s, p, want, block);
    case CallUnlock => CallUnlockKeeps(s, p);
    case Go(fail, choice) => CallKeeps(s, p, fail, choice);
  }
}
