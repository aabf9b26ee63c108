/** qtlocalpeer.cpp: isClient() on top of the file lock.  The first instance of an application to
    ask gets the write lock and becomes the server; all others are clients. */
module LocalPeer {
  import opened LockedFile
  import opened LockedFileSteps
  import opened LockedFileLaws

  /** The lock system of an application all of whose processes only ever ask isClient();
      servers are the live processes that some call has answered with false. */
  datatype Peers = Peers(sys: Sys, servers: set<Pid>)

  datatype PeerEvent = Begin | End | Ask | Proceed(fail: bool)

  predicate PeerEnabled(s: Peers, p: Pid, e: PeerEvent) {
    match e
    case Begin => Enabled(s.sys, p, Start)
    case End => Enabled(s.sys, p, Crash)
    case Ask => p in s.sys.procs && s.sys.procs[p].pc.Outside?
    case Proceed(fail) => Enabled(s.sys, p, Go(fail, 0))
  }

  /** isClient() returns false at once when the file is locked already; otherwise it returns whether
      the non-blocking write lock is refused. */
  function PeerStep(s: Peers, p: Pid, e: PeerEvent): Peers
    requires PeerEnabled(s, p, e)
  {
    match e
    case Begin => s.(sys := Step(s.sys, p, Start))
    case End => Peers(Step(s.sys, p, Crash), s.servers - {p})
    case Ask =>
      if Locked(s.sys.procs[p]) then s.(servers := s.servers + {p})
      else s.(sys := Step(s.sys, p, CallLock(WriteLock, false)))
    case Proceed(fail) =>
      var sys := Step(s.sys, p, Go(fail, 0));
      var answered := p in sys.procs && sys.procs[p].pc.Outside?;
      Peers(sys, if answered && sys.procs[p].ret then s.servers + {p} else s.servers)
  }

  datatype PeerMove = PeerMove(p: Pid, e: PeerEvent)

  ghost predicate IsPeerRun(states: seq<Peers>, moves: seq<PeerMove>) {
    && |states| == |moves| + 1
    && states[0] == Peers(INITIAL, {})
    && forall i | 0 <= i < |moves| ::
         PeerEnabled(states[i], moves[i].p, moves[i].e) && states[i + 1] == PeerStep(states[i], moves[i].p, moves[i].e)
  }

  /** A process that only asks is outside, on its way to the writer mutex, or collecting nothing. */
  predicate AsksOnly(q: Proc) {
    && q.rmutexes == {} && q.mode != ReadLock
    && match q.pc
       case Outside => true
       case CreateWriter(want, block) => want == WriteLock && !block
       case WaitWriter(want, block) => want == WriteLock && !block
       case Collect(_, _) => true
       case _ => false
  }

  /** No slot ever comes into being, and the servers have the write lock. */
  ghost predicate PeerInv(s: Peers) {
    && Inv(s.sys)
    && (forall p | p in s.sys.procs :: AsksOnly(s.sys.procs[p]))
    && (forall i: nat :: !Exists(s.sys, Slot(i)))
    && (forall p | p in s.servers :: p in s.sys.procs && Locked(s.sys.procs[p]))
  }

  /** What a step from s to s' may do to the other processes and to the slots. */
  ghost predicate StepShape(s: Sys, p: Pid, s': Sys) {
    && (forall r | r in s'.procs && r != p :: r in s.procs && s'.procs[r] == s.procs[r])
    && (forall r | r in s.procs && r != p :: r in s'.procs)
    && (forall i: nat :: !Exists(s', Slot(i)))
    && (p in s'.procs ==> AsksOnly(s'.procs[p]))
  }

  /** Of a system call of p: nothing changes but p, and at most the writer mutex gets a handle. */
  ghost predicate IsAsking(s: Sys, p: Pid, s': Sys) {
    && p in s.procs && p in s'.procs && s'.procs == s.procs[p := s'.procs[p]] && AsksOnly(s'.procs[p])
    && (s'.handles == s.handles || s'.handles == AddHandle(s.handles, Writer, p))
  }

  lemma CreateAsksOnly(s: Sys, p: Pid, fail: bool)
    requires Enabled(s, p, Go(fail, 0)) && AsksOnly(s.procs[p]) && forall i: nat :: !Exists(s, Slot(i))
    requires s.procs[p].pc.CreateWriter?
    ensures IsAsking(s, p, Call(s, p, fail, 0))
  {
    hide Blocked, AddHandle, CloseHandle, Take, TakeAll, Release, Free;
  }

  lemma WaitAsksOnly(s: Sys, p: Pid, fail: bool)
    requires Enabled(s, p, Go(fail, 0)) && AsksOnly(s.procs[p]) && forall i: nat :: !Exists(s, Slot(i))
    requires s.procs[p].pc.WaitWriter?
    ensures IsAsking(s, p, Call(s, p, fail, 0))
  {
    hide Blocked, AddHandle, CloseHandle, Take, TakeAll, Release, Free;
  }

  lemma CollectAsksOnly(s: Sys, p: Pid, fail: bool)
    requires Enabled(s, p, Go(fail, 0)) && AsksOnly(s.procs[p]) && forall i: nat :: !Exists(s, Slot(i))
    requires s.procs[p].pc.Collect?
    ensures IsAsking(s, p, Call(s, p, fail, 0))
  {
    hide Blocked, AddHandle, CloseHandle, Take, TakeAll, Release, Free;
  }

  lemma CallAsksOnly(s: Sys, p: Pid, fail: bool)
    requires Enabled(s, p, Go(fail, 0)) && AsksOnly(s.procs[p]) && forall i: nat :: !Exists(s, Slot(i))
    ensures IsAsking(s, p, Call(s, p, fail, 0))
  {
    hide Blocked, Call, IsAsking;
    var pc := s.procs[p].pc;
    if pc.CreateWriter? {
      CreateAsksOnly(s, p, fail);
    } else if pc.WaitWriter? {
      WaitAsksOnly(s, p, fail);
    } else {
      CollectAsksOnly(s, p, fail);
    }
  }

  lemma ProceedShape(s: Peers, p: Pid, fail: bool)
    requires PeerInv(s) && PeerEnabled(s, p, Proceed(fail))
    ensures StepShape(s.sys, p, PeerStep(s, p, Proceed(fail)).sys)
  {
    hide Inv, AsksOnly, Call;
    CallAsksOnly(s.sys, p, fail);
  }

  lemma PeerStepShape(s: Peers, p: Pid, e: PeerEvent)
    requires PeerInv(s) && PeerEnabled(s, p, e)
    ensures StepShape(s.sys, p, PeerStep(s, p, e).sys)
  {
    hide Inv, Call;
    if e.Proceed? {
      ProceedShape(s, p, e.fail);
    }
  }

  lemma PeerStepServers(s: Peers, p: Pid, e: PeerEvent)
    requires PeerInv(s) && PeerEnabled(s, p, e)
    ensures p in PeerStep(s, p, e).servers ==>
              p in PeerStep(s, p, e).sys.procs && Locked(PeerStep(s, p, e).sys.procs[p])
  {
    hide Inv;
    if e.Proceed? {
      CallKeeps(s.sys, p, e.fail, 0);
    }
  }

  lemma PeerStepKeeps(s: Peers, p: Pid, e: PeerEvent)
    requires PeerInv(s) && PeerEnabled(s, p, e)
    ensures PeerInv(PeerStep(s, p, e))
  {
    hide Inv, AsksOnly, Step, Locked;
    PeerStepShape(s, p, e);
    PeerStepServers(s, p, e);
    match e
    case Begin => StepKeeps(s.sys, p, Start);
    case End => StepKeeps(s.sys, p, Crash);
    case Ask =>
      if !Locked(s.sys.procs[p]) {
        StepKeeps(s.sys, p, CallLock(WriteLock, false));
      }
    case Proceed(fail) => StepKeeps(s.sys, p, Go(fail, 0));
  }

  lemma {:induction false} PeerRunKeeps(states: seq<Peers>, moves: seq<PeerMove>, i: nat)
    requires IsPeerRun(states, moves) && i < |states|
    ensures PeerInv(states[i])
  {
    hide PeerInv, PeerStep, PeerEnabled;
    if i == 0 {
      NoPeers();
    } else {
      PeerRunKeeps(states, moves, i - 1);
      PeerStepKeeps(states[i - 1], moves[i - 1].p, moves[i - 1].e);
    }
  }

  lemma NoPeers()
    ensures PeerInv(Peers(INITIAL, {}))
  {
    InitialInv();
  }

  ghost predicate PeerReachable(s: Peers) {
    exists states, moves :: IsPeerRun(states, moves) && states[|moves|] == s
  }

  lemma PeerReachableInv(s: Peers)
    requires PeerReachable(s)
    ensures PeerInv(s)
  {
    hide PeerInv;
    var states, moves :| IsPeerRun(states, moves) && states[|moves|] == s;
    PeerRunKeeps(states, moves, |moves|);
  }

  /** At every moment of every run at most one live process is the server. */
  lemma OneServer(s: Peers, p: Pid, r: Pid)
    requires PeerReachable(s) && p in s.servers && r in s.servers
    ensures p == r
  {
    hide Inv, PeerReachable;
    PeerReachableInv(s);
    WriterExcludesAllIn(s.sys, p, r);
  }

  /** isClient() answers true only if the writer mutex could not be created, or because another live
      process is the server or is past the writer mutex on its way to becoming it. */
  lemma ClientOnlyBehindAnother(s: Peers, p: Pid, fail: bool)
    requires PeerReachable(s) && PeerEnabled(s, p, Proceed(fail))
    ensures
      var s' := PeerStep(s, p, Proceed(fail));
      p in s'.sys.procs && s'.sys.procs[p].pc.Outside? && !s'.sys.procs[p].ret ==>
        || (s.sys.procs[p].pc.CreateWriter? && fail)
        || exists r :: r != p && r in s.sys.procs && OwnsWriter(s.sys.procs[r])
  {
    hide PeerReachable;
    PeerReachableInv(s);
    assert AsksOnly(s.sys.procs[p]);
    if s.sys.procs[p].pc.WaitWriter? && !Free(s.sys, Writer) {
      var r := s.sys.owner[Writer];
      assert Owns(s.sys.owner, Writer, r);
      assert ShouldOwn(s.sys.procs[r], Writer);
    }
  }

  /** The owner of the writer mutex is never turned back: each of its calls brings it nearer to
      being the server, and the last one makes it so. */
  lemma OwnerBecomesServer(s: Peers, p: Pid, fail: bool)
    requires PeerReachable(s) && p in s.sys.procs
    requires OwnsWriter(s.sys.procs[p]) && !s.sys.procs[p].pc.Outside?
    ensures s.sys.procs[p].pc.Collect? && PeerEnabled(s, p, Proceed(fail))
    ensures
      var s' := PeerStep(s, p, Proceed(fail));
      var pc := s.sys.procs[p].pc;
      && p in s'.sys.procs
      && if pc.idx < MAX_READERS then s'.sys.procs[p].pc == Collect(pc.idx + 1, pc.block) else p in s'.servers
  {
    hide Inv, PeerReachable;
    PeerReachableInv(s);
    assert AsksOnly(s.sys.procs[p]);
  }
}
