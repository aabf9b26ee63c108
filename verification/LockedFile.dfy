/** qtlockedfile_win.cpp: a reader/writer lock on a file, shared by any number of processes and built
    from named mutexes.  One writer mutex serialises the acquisitions; every reader owns one of
    MAX_READERS slot mutexes, which exist only while somebody has a handle to them.

    A step of a process is one system call.  Processes may start and die at any moment; when one
    dies the system closes its handles and abandons the mutexes it owns. */
module LockedFile {

  type Pid = nat

  const MAX_READERS := 64

  datatype Option<T> = None | Some(value: T)

  datatype Mode = NoLock | ReadLock | WriteLock

  /** The names of the mutexes: the file's, and the file's with a slot number behind it. */
  datatype Name = Writer | Slot(i: nat)

  /** What follows a call of unlock(): return to the caller, or go on acquiring. */
  datatype Goal = Return(ret: bool) | Acquire(want: Mode, block: bool)

  /** Where a process is; every label but Outside stands before one system call. */
  datatype Pc =
    | Outside
    // lock()
    | CreateWriter(want: Mode, block: bool)
    | WaitWriter(want: Mode, block: bool)
    | OpenSlot(idx: nat)
    | TrySlot(idx: nat)
    | CloseBusySlot(idx: nat)
    | CreateSlot(idx: nat)
    | TryCreated(idx: nat)
    | CloseCreated(idx: nat)
    | EndScan(ok: bool)
    | Collect(idx: nat, block: bool)
    | WaitAll(block: bool)
    // unlock()
    | ReleaseSlot(goal: Goal)
    | CloseSlot(goal: Goal)
    | ReleaseCollected(held: bool, goal: Goal)
    | CloseCollected(idx: nat, held: bool, goal: Goal)
    | ReleaseWriter(goal: Goal)

  /** One process with its lock object.  asked is the mode of the latest call of lock(), NoLock for
      unlock(); ret is what the latest finished call returned. */
  datatype Proc = Proc(
    pc: Pc, mode: Mode, wmutex: bool, rmutex: Option<nat>, rmutexes: set<nat>, asked: Mode, ret: bool)

  /** The processes, and the system's table of mutexes: who has a handle, and who owns. */
  datatype Sys = Sys(procs: map<Pid, Proc>, handles: map<Name, set<Pid>>, owner: map<Name, Pid>)

  const INITIAL := Sys(map[], map[], map[])

  // ---------------------------------------------------------------------------------------------
  // The system calls.
  // ---------------------------------------------------------------------------------------------

  type Handles = map<Name, set<Pid>>
  type Owners = map<Name, Pid>

  predicate Exists(s: Sys, n: Name) {
    n in s.handles
  }

  predicate Free(s: Sys, n: Name) {
    n !in s.owner
  }

  /** CreateMutex, or OpenMutex on an existing mutex. */
  function AddHandle(h: Handles, n: Name, p: Pid): Handles {
    h[n := (if n in h then h[n] else {}) + {p}]
  }

  /** CloseHandle: the mutex vanishes with its last handle. */
  function CloseHandle(h: Handles, n: Name, p: Pid): Handles {
    if n !in h then h else if h[n] - {p} == {} then h - {n} else h[n := h[n] - {p}]
  }

  /** A wait that succeeds. */
  function Take(o: Owners, n: Name, p: Pid): Owners {
    o[n := p]
  }

  /** A wait for all of several mutexes that succeeds. */
  function TakeAll(o: Owners, slots: set<nat>, p: Pid): Owners {
    map n | n in o.Keys + SlotNames(slots) :: if n in SlotNames(slots) then p else o[n]
  }

  function SlotNames(slots: set<nat>): set<Name> {
    set i | i in slots :: Slot(i)
  }

  /** ReleaseMutex: fails without effect when the caller does not own the mutex. */
  function Release(o: Owners, n: Name, p: Pid): Owners {
    if n in o && o[n] == p then o - {n} else o
  }

  /** The death of a process. */
  function Die(s: Sys, p: Pid): Sys {
    Sys(
      s.procs - {p},
      map n | n in s.handles && s.handles[n] - {p} != {} :: s.handles[n] - {p},
      map n | n in s.owner && s.owner[n] != p :: s.owner[n])
  }

  // ---------------------------------------------------------------------------------------------
  // The steps.
  // ---------------------------------------------------------------------------------------------

  datatype Event =
    | Start
    | Crash
    | CallLock(want: Mode, block: bool)
    | CallUnlock
    // the next system call; fail: CreateMutex fails, or a wait for several mutexes acquires them but names an
    // abandoned one other than the first, which the code takes for a failure; choice: which collected mutex
    // is released next
    | Go(fail: bool, choice: nat)

  function Put(s: Sys, p: Pid, q: Proc): Sys {
    Sys(s.procs[p := q], s.handles, s.owner)
  }

  function PutHandles(s: Sys, p: Pid, q: Proc, handles: Handles): Sys {
    Sys(s.procs[p := q], handles, s.owner)
  }

  function PutOwners(s: Sys, p: Pid, q: Proc, owner: Owners): Sys {
    Sys(s.procs[p := q], s.handles, owner)
  }

  /** The end of unlock(). */
  function Finish(q: Proc, goal: Goal): Proc {
    match goal
    case Return(ret) => q.(pc := Outside, mode := NoLock, ret := ret)
    case Acquire(want, block) => q.(pc := CreateWriter(want, block), mode := NoLock)
  }

  /** unlock() up to its first system call. */
  function EnterUnlock(q: Proc, goal: Goal): Proc {
    match q.mode
    case NoLock => Finish(q, goal)
    case ReadLock => q.(pc := ReleaseSlot(goal))
    case WriteLock => q.(pc := ReleaseCollected(true, goal))
  }

  /** lock(want, block) up to its first system call. */
  function EnterLock(q: Proc, want: Mode, block: bool): Proc {
    if want == NoLock then EnterUnlock(q, Return(true))
    else if want == q.mode then q.(ret := true)
    else EnterUnlock(q, Acquire(want, block))
  }

  /** A process whose next system call would block. */
  predicate Blocked(s: Sys, p: Pid)
    requires p in s.procs
  {
    var q := s.procs[p];
    || (q.pc.WaitWriter? && q.pc.block && !Free(s, Writer))
    || (q.pc.WaitAll? && q.pc.block && !forall i | i in q.rmutexes :: Free(s, Slot(i)))
  }

  predicate Enabled(s: Sys, p: Pid, e: Event) {
    match e
    case Start => p !in s.procs
    case Crash => p in s.procs
    case CallLock(_, _) => p in s.procs && s.procs[p].pc.Outside?
    case CallUnlock => p in s.procs && s.procs[p].pc.Outside?
    case Go(fail, choice) =>
      && p in s.procs && !s.procs[p].pc.Outside? && !Blocked(s, p)
      && (s.procs[p].pc.ReleaseCollected? && s.procs[p].rmutexes != {} ==> choice in s.procs[p].rmutexes)
  }

  /** The system call a process stands before. */
  function Call(s: Sys, p: Pid, fail: bool, choice: nat): (s': Sys)
    requires Enabled(s, p, Go(fail, choice))
    ensures p in s'.procs
  {
    var q := s.procs[p];
    match q.pc
    case Outside => s
    case CreateWriter(want, block) =>
      if q.wmutex then Put(s, p, q.(pc := WaitWriter(want, block)))
      else if fail then Put(s, p, q.(pc := Outside, ret := false))
      else PutHandles(s, p, q.(pc := WaitWriter(want, block), wmutex := true), AddHandle(s.handles, Writer, p))
    case WaitWriter(want, block) =>
      if !Free(s, Writer) then Put(s, p, q.(pc := Outside, ret := false))
      else
        PutOwners(s, p, q.(pc := if want == ReadLock then OpenSlot(0) else Collect(0, block)), Take(s.owner, Writer, p))
    case OpenSlot(idx) =>
      if idx >= MAX_READERS then Put(s, p, q.(pc := EndScan(false), rmutex := None))
      else if Exists(s, Slot(idx)) then
        PutHandles(s, p, q.(pc := TrySlot(idx), rmutex := Some(idx)), AddHandle(s.handles, Slot(idx), p))
      else Put(s, p, q.(pc := CreateSlot(idx), rmutex := None))
    case TrySlot(idx) =>
      if Free(s, Slot(idx)) then PutOwners(s, p, q.(pc := EndScan(true)), Take(s.owner, Slot(idx), p))
      else Put(s, p, q.(pc := CloseBusySlot(idx)))
    case CloseBusySlot(idx) =>
      PutHandles(s, p, q.(pc := OpenSlot(idx + 1)), CloseHandle(s.handles, Slot(idx), p))
    case CreateSlot(idx) =>
      if fail then Put(s, p, q.(pc := EndScan(false)))
      else PutHandles(s, p, q.(pc := TryCreated(idx), rmutex := Some(idx)), AddHandle(s.handles, Slot(idx), p))
    case TryCreated(idx) =>
      if Free(s, Slot(idx)) then PutOwners(s, p, q.(pc := EndScan(true)), Take(s.owner, Slot(idx), p))
      else Put(s, p, q.(pc := CloseCreated(idx)))
    case CloseCreated(idx) =>
      PutHandles(s, p, q.(pc := EndScan(false), rmutex := None), CloseHandle(s.handles, Slot(idx), p))
    case EndScan(ok) =>
      PutOwners(s, p, q.(pc := Outside, mode := if ok then ReadLock else NoLock, ret := ok),
                Release(s.owner, Writer, p))
    case Collect(idx, block) =>
      if idx < MAX_READERS then
        if Exists(s, Slot(idx)) then
          PutHandles(s, p, q.(pc := Collect(idx + 1, block), rmutexes := q.rmutexes + {idx}),
                     AddHandle(s.handles, Slot(idx), p))
        else Put(s, p, q.(pc := Collect(idx + 1, block)))
      else if q.rmutexes == {} then Put(s, p, q.(pc := Outside, mode := WriteLock, ret := true))
      else Put(s, p, q.(pc := WaitAll(block)))
    case WaitAll(block) =>
      if forall i | i in q.rmutexes :: Free(s, Slot(i)) then
        if fail then
          PutOwners(s, p, q.(pc := ReleaseCollected(true, Return(false)), mode := WriteLock),
                    TakeAll(s.owner, q.rmutexes, p))
        else PutOwners(s, p, q.(pc := Outside, mode := WriteLock, ret := true), TakeAll(s.owner, q.rmutexes, p))
      else Put(s, p, q.(pc := ReleaseCollected(false, Return(false)), mode := WriteLock))
    case ReleaseSlot(goal) =>
      if q.rmutex == None then s
      else PutOwners(s, p, q.(pc := CloseSlot(goal)), Release(s.owner, Slot(q.rmutex.value), p))
    case CloseSlot(goal) =>
      if q.rmutex == None then s
      else PutHandles(s, p, Finish(q.(rmutex := None), goal), CloseHandle(s.handles, Slot(q.rmutex.value), p))
    case ReleaseCollected(held, goal) =>
      if q.rmutexes == {} then Put(s, p, q.(pc := ReleaseWriter(goal)))
      else PutOwners(s, p, q.(pc := CloseCollected(choice, held, goal)), Release(s.owner, Slot(choice), p))
    case CloseCollected(idx, held, goal) =>
      PutHandles(s, p, q.(pc := ReleaseCollected(held, goal), rmutexes := q.rmutexes - {idx}),
                 CloseHandle(s.handles, Slot(idx), p))
    case ReleaseWriter(goal) =>
      PutOwners(s, p, Finish(q, goal), Release(s.owner, Writer, p))
  }

  function Step(s: Sys, p: Pid, e: Event): Sys
    requires Enabled(s, p, e)
  {
    match e
    case Start => Put(s, p, Proc(Outside, NoLock, false, None, {}, NoLock, true))
    case Crash => Die(s, p)
    case CallLock(want, block) => Put(s, p, EnterLock(s.procs[p].(asked := want), want, block))
    case CallUnlock => Put(s, p, EnterUnlock(s.procs[p].(asked := NoLock), Return(true)))
    case Go(fail, choice) => Call(s, p, fail, choice)
  }

  // ---------------------------------------------------------------------------------------------
  // The invariant.
  // ---------------------------------------------------------------------------------------------

  /** A process between a successful lock() and the start of the matching unlock(). */
  predicate Locked(q: Proc) {
    q.pc.Outside? && q.mode != NoLock
  }

  /** Whether the code has the process own the writer mutex. */
  predicate OwnsWriter(q: Proc) {
    match q.pc
    case Outside => q.mode == WriteLock
    case CreateWriter(_, _) => false
    case WaitWriter(_, _) => false
    case ReleaseSlot(_) => false
    case CloseSlot(_) => false
    case _ => true
  }

  /** The slots the code has the process own. */
  function OwnedSlots(q: Proc): set<nat> {
    match q.pc
    case Outside => if q.mode == WriteLock then q.rmutexes else if q.mode == ReadLock && q.rmutex.Some?
        then {q.rmutex.value} else {}
    case EndScan(ok) => if ok && q.rmutex.Some? then {q.rmutex.value} else {}
    case ReleaseSlot(_) => if q.rmutex.Some? then {q.rmutex.value} else {}
    case ReleaseCollected(held, _) => if held then q.rmutexes else {}
    case CloseCollected(idx, held, _) => if held then q.rmutexes - {idx} else {}
    case _ => {}
  }

  /** The slots the process has a handle to. */
  function OpenSlots(q: Proc): set<nat> {
    q.rmutexes + if q.rmutex.Some? && !q.pc.OpenSlot? then {q.rmutex.value} else {}
  }

  /** What follows unlock() fits the call that is under way. */
  predicate GoalOk(q: Proc, goal: Goal) {
    match goal
    case Acquire(want, _) => want != NoLock && q.asked == want
    case Return(ret) => ret <==> q.asked == NoLock
  }

  /** The file is locked as asked exactly when the call returned true, and otherwise not at all; a call
      that asks for no lock returns true. */
  predicate Reported(q: Proc) {
    if q.asked != NoLock then (if q.ret then q.mode == q.asked else q.mode == NoLock)
    else q.ret && q.mode == NoLock
  }

  /** The fields agree with the place in the code. */
  predicate LocalInv(q: Proc) {
    && (forall i | i in q.rmutexes :: i < MAX_READERS)
    && (q.rmutex.Some? && !q.pc.OpenSlot? ==> q.rmutex.value < MAX_READERS)
    && (OwnsWriter(q) || q.pc.WaitWriter? ==> q.wmutex)
    && match q.pc
       case Outside => (q.mode != WriteLock ==> q.rmutexes == {}) && (q.rmutex.Some? <==> q.mode == ReadLock)
           && Reported(q)
       case CreateWriter(want, _) => q.mode == NoLock && q.rmutex == None && q.rmutexes == {} && want != NoLock
           && q.asked == want
       case WaitWriter(want, _) => q.mode == NoLock && q.rmutex == None && q.rmutexes == {} && want != NoLock
           && q.asked == want
       case OpenSlot(idx) => q.asked == ReadLock && q.mode == NoLock && q.rmutexes == {}
       case TrySlot(idx) => q.asked == ReadLock && q.mode == NoLock && q.rmutex == Some(idx) && q.rmutexes == {}
       case CloseBusySlot(idx) => q.asked == ReadLock && q.mode == NoLock && q.rmutex == Some(idx) && q.rmutexes == {}
       case CreateSlot(idx) => q.asked == ReadLock && q.mode == NoLock && q.rmutex == None && q.rmutexes == {}
           && idx < MAX_READERS
       case TryCreated(idx) => q.asked == ReadLock && q.mode == NoLock && q.rmutex == Some(idx) && q.rmutexes == {}
       case CloseCreated(idx) => false
       case EndScan(ok) => q.asked == ReadLock && q.mode == NoLock && (q.rmutex.Some? <==> ok) && q.rmutexes == {}
       case Collect(idx, _) => q.asked == WriteLock && q.mode == NoLock && q.rmutex == None && idx <= MAX_READERS
       case WaitAll(_) => q.asked == WriteLock && q.mode == NoLock && q.rmutex == None
       case ReleaseSlot(goal) => GoalOk(q, goal) && q.mode == ReadLock && q.rmutex.Some? && q.rmutexes == {}
       case CloseSlot(goal) => GoalOk(q, goal) && q.mode == ReadLock && q.rmutex.Some? && q.rmutexes == {}
       case ReleaseCollected(_, goal) => GoalOk(q, goal) && q.mode == WriteLock && q.rmutex == None
       case CloseCollected(idx, _, goal) => GoalOk(q, goal) && q.mode == WriteLock && q.rmutex == None
           && idx in q.rmutexes
       case ReleaseWriter(goal) => GoalOk(q, goal) && q.mode == WriteLock && q.rmutex == None && q.rmutexes == {}
  }

  /** What the code has the process own, and have a handle to. */
  predicate ShouldOwn(q: Proc, n: Name) {
    match n
    case Writer => OwnsWriter(q)
    case Slot(i) => i in OwnedSlots(q)
  }

  predicate ShouldOpen(q: Proc, n: Name) {
    match n
    case Writer => q.wmutex
    case Slot(i) => i in OpenSlots(q)
  }

  predicate Owns(o: Owners, n: Name, p: Pid) {
    n in o && o[n] == p
  }

  predicate HasHandle(h: Handles, n: Name, p: Pid) {
    n in h && p in h[n]
  }

  /** The owner table says what the code believes. */
  ghost predicate OwnersInv(s: Sys) {
    forall n, p :: Owns(s.owner, n, p) <==> p in s.procs && ShouldOwn(s.procs[p], n)
  }

  /** A mutex that exists has a handle. */
  ghost predicate NoneEmpty(h: Handles) {
    forall n | n in h :: h[n] != {}
  }

  /** The handle table says what the code believes; only mutexes with a handle exist. */
  ghost predicate HandlesInv(s: Sys) {
    && (forall n, p :: HasHandle(s.handles, n, p) <==> p in s.procs && ShouldOpen(s.procs[p], n))
    && NoneEmpty(s.handles)
  }

  /** Every existing slot below n is among the process's collected ones. */
  ghost predicate Collected(s: Sys, q: Proc, n: nat) {
    forall i: nat | i < n && Exists(s, Slot(i)) :: i in q.rmutexes
  }

  /** What the owner of the writer mutex knows about the slots.  A collecting writer has every slot
      it has passed, for no slot can appear while it owns the writer mutex; a slot that a reader is
      about to create does not exist, and one it has just created is free. */
  ghost predicate SlotFact(s: Sys, q: Proc) {
    match q.pc
    case Outside => q.mode == WriteLock ==> Collected(s, q, MAX_READERS)
    case Collect(idx, _) => Collected(s, q, idx)
    case WaitAll(_) => Collected(s, q, MAX_READERS)
    case CreateSlot(idx) => !Exists(s, Slot(idx))
    case TryCreated(idx) => Free(s, Slot(idx))
    case _ => true
  }

  ghost predicate ProcsInv(s: Sys) {
    forall p | p in s.procs :: LocalInv(s.procs[p]) && SlotFact(s, s.procs[p])
  }

  ghost predicate Inv(s: Sys) {
    ProcsInv(s) && OwnersInv(s) && HandlesInv(s)
  }
}
