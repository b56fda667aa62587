/**
 The process life cycle of kernel/proc.c and the sleep locks of
 kernel/sleeplock.c, as a machine whose steps lie between acquiring and
 releasing a lock. wait_lock, the spinlock inside one sleep lock and every
 p->lock that is held across a context switch are explicit; a section that
 takes and drops one p->lock is one step, enabled while that lock is free.
 */
module Proc {
  import opened Options

  const NPROC: nat := 64
  /** initproc is the first slot that allocproc hands out. */
  const INIT: nat := 0

  datatype ProcState = UNUSED | USED | SLEEPING | RUNNABLE | RUNNING | ZOMBIE

  /** The lock passed to sleep: wait_lock, the spinlock inside the sleep lock, or any other. */
  datatype Lk = WaitLock | InnerLock | OtherLock(c: nat)

  datatype Chan = NoChan | OfProc(i: nat) | OfLock | OfOther(c: nat)

  /** sleep(p, &wait_lock), sleep(lk, &lk->lk), or any other sleep */
  function ChanOf(i: nat, lk: Lk): Chan {
    match lk
    case WaitLock => OfProc(i)
    case InnerLock => OfLock
    case OtherLock(c) => OfOther(c)
  }

  /** Where the kernel thread of a process is. */
  datatype Pc =
    | NoThread
    | Fresh                                     // set up by allocproc to start in forkret
    | User                                      // anywhere outside the code below
    | Forking(np: nat) | Forked(np: nat)        // fork: before and after np->parent = p
    | Reparent(k: nat, status: int)             // exit: loop of reparent
    | ReparentWake(k: nat, j: nat, status: int) // exit: wakeup(initproc) inside reparent
    | ExitWake(j: nat, status: int)             // exit: wakeup(p->parent)
    | Exiting                                   // exit: a zombie on its way to sched
    | Dead
    | Scan(k: nat, kids: bool)                  // wait: loop over the table
    | ToSleep                                   // wait: found nothing, about to call sleep
    | SleepA(lk: Lk)                            // sleep: holds p->lock and lk
    | SleepB(lk: Lk)                            // sleep: lk released
    | SleepC(lk: Lk)                            // sleep: state set, about to switch
    | Asleep(lk: Lk)                            // sleep: switched away
    | Woken(lk: Lk)                             // sleep: back, still holding p->lock
    | Reacquire(lk: Lk)                         // sleep: about to take lk again
    | YieldA(at: Pc) | Yielded(at: Pc)          // yield: before and after the switch, where the thread was interrupted
    | Resumed(at: Pc)                           // back from the switch, still holding p->lock
    | Acquiring                                 // acquiresleep: about to test locked
    | RelWake(j: nat)                           // releasesleep: wakeup(lk)

  /** Where a thread is once it is back from yield. */
  function Base(pc: Pc): Pc {
    match pc
    case YieldA(b) => b
    case Yielded(b) => b
    case Resumed(b) => b
    case _ => pc
  }

  /** Where a thread holds no spinlock, so that interrupts are on and a timer interrupt may make it yield. */
  predicate Preemptible(pc: Pc) { pc.User? || pc.Forking? || pc.Forked? || pc.Reacquire? }

  /** has: the process is past acquiresleep and not yet in releasesleep. */
  datatype Proc = Proc(state: ProcState, parent: Option<nat>, chan: Chan, killed: bool, xstate: int, pid: nat,
                       pc: Pc, locked: bool, onCpu: bool, has: bool)

  const FREE: Proc := Proc(UNUSED, None, NoChan, false, 0, 0, NoThread, false, false, false)

  /** The sleep lock's own fields. */
  datatype SleepLock = SleepLock(locked: bool, pid: nat)

  /** exits and reaps are history: which pid called exit and was returned by wait, with which status. */
  datatype Kernel = Kernel(procs: seq<Proc>, waitLock: Option<nat>, inner: Option<nat>, sl: SleepLock, nextpid: nat,
                           exits: map<nat, int>, reaps: map<nat, int>)

  function P(ps: seq<Proc>, i: nat): Proc { if i < |ps| then ps[i] else FREE }

  function Put(ps: seq<Proc>, i: nat, x: Proc): seq<Proc> { if i < |ps| then ps[i := x] else ps }

  // ----- steps -----

  /**
   p is the process whose thread takes the step; for Run, Kill, MarkKilled and WakeOther
   it is the process acted on.
   */
  datatype Event =
    | ForkAlloc(p: nat, np: nat) | ForkFail(p: nat, np: nat) | ForkParent(p: nat) | ForkReady(p: nat)
    | ExitStart(p: nat, status: int) | ReparentStep(p: nat) | WakeStep(p: nat) | WakeDone(p: nat) | ExitZombie(p: nat)
    | WaitStart(p: nat) | ScanStep(p: nat) | Reap(p: nat) | ReapFault(p: nat) | ScanGiveUp(p: nat) | ScanCheck(p: nat)
    | WaitSleep(p: nat) | OtherSleep(p: nat, c: nat) | SleepRelease(p: nat) | SleepState(p: nat)
    | Switch(p: nat) | Run(p: nat) | Resume(p: nat) | Retake(p: nat) | Yield(p: nat)
    | Kill(p: nat, pid: nat) | MarkKilled(p: nat) | WakeOther(p: nat, c: nat)
    | AcqStart(p: nat) | AcqTest(p: nat) | RelStart(p: nat) | RelDone(p: nat)

  /** The slot that a scanning thread looks at. */
  function Cursor(pc: Pc): nat {
    match pc
    case Forking(np) => np
    case Forked(np) => np
    case Reparent(k, _) => k
    case ReparentWake(_, j, _) => j
    case ExitWake(j, _) => j
    case Scan(k, _) => k
    case RelWake(j) => j
    case _ => 0
  }

  predicate Waking(pc: Pc) { pc.ReparentWake? || pc.ExitWake? || pc.RelWake? }

  predicate Switching(pc: Pc) { pc.SleepC? || pc.YieldA? || pc.Exiting? }

  predicate LockFree(k: Kernel, lk: Lk) {
    match lk
    case WaitLock => k.waitLock.None?
    case InnerLock => k.inner.None?
    case OtherLock(_) => true
  }

  /** The child that a scan in wait looks at belongs to the waiting process and its lock is free. */
  predicate AtChild(k: Kernel, p: nat) {
    var c := Cursor(P(k.procs, p).pc);
    c < NPROC && P(k.procs, c).parent == Some(p) && !P(k.procs, c).locked
  }

  predicate Enabled(k: Kernel, e: Event) {
    var x := P(k.procs, e.p);
    var c := Cursor(x.pc);
    e.p < NPROC &&
    match e
    case ForkAlloc(_, np) => x.pc.User? && np < NPROC && P(k.procs, np).state.UNUSED? && !P(k.procs, np).locked
    case ForkFail(_, np) => x.pc.User? && np < NPROC && P(k.procs, np).state.UNUSED? && !P(k.procs, np).locked
    case ForkParent(_) => x.pc.Forking? && k.waitLock.None?
    case ForkReady(_) => x.pc.Forked? && !P(k.procs, c).locked
    case ExitStart(p, _) => x.pc.User? && p != INIT && !x.has && k.waitLock.None?
    case ReparentStep(_) => x.pc.Reparent?
    case WakeStep(p) => Waking(x.pc) && c < NPROC && (c == p || !P(k.procs, c).locked)
    case WakeDone(_) => x.pc.ReparentWake? && c >= NPROC
    case ExitZombie(_) => x.pc.ExitWake? && c >= NPROC && !x.locked
    case WaitStart(_) => x.pc.User? && k.waitLock.None?
    case ScanStep(p) => x.pc.Scan? && c < NPROC &&
      (P(k.procs, c).parent == Some(p) ==> !P(k.procs, c).locked && !P(k.procs, c).state.ZOMBIE?)
    case Reap(p) => x.pc.Scan? && AtChild(k, p) && P(k.procs, c).state.ZOMBIE?
    case ReapFault(p) => x.pc.Scan? && AtChild(k, p) && P(k.procs, c).state.ZOMBIE?
    case ScanGiveUp(_) => x.pc.Scan? && c >= NPROC && !x.locked && (!x.pc.kids || x.killed)
    case ScanCheck(_) => x.pc.Scan? && c >= NPROC && !x.locked && x.pc.kids && !x.killed
    case WaitSleep(_) => x.pc.ToSleep? && !x.locked
    case OtherSleep(_, _) => x.pc.User? && !x.locked
    case SleepRelease(_) => x.pc.SleepA?
    case SleepState(_) => x.pc.SleepB?
    case Switch(_) => Switching(x.pc)
    case Run(_) => x.state.RUNNABLE? && !x.locked
    case Resume(_) => x.pc.Woken? || x.pc.Resumed?
    case Retake(_) => x.pc.Reacquire? && LockFree(k, x.pc.lk)
    case Yield(_) => Preemptible(x.pc) && !x.locked
    case Kill(_, pid) => !x.locked && x.pid == pid
    case MarkKilled(_) => x.pc.User? && !x.locked
    case WakeOther(_, _) => !x.locked
    case AcqStart(_) => x.pc.User? && k.inner.None?
    case AcqTest(_) => x.pc.Acquiring? && (k.sl.locked ==> !x.locked)
    case RelStart(_) => x.pc.User? && x.has && k.inner.None?
    case RelDone(_) => x.pc.RelWake? && c >= NPROC
  }

  /** The second process a step changes; the actor itself if there is none. */
  function Target(k: Kernel, e: Event): nat {
    var c := Cursor(P(k.procs, e.p).pc);
    match e
    case ForkAlloc(_, np) => np
    case ForkFail(_, np) => np
    case ForkParent(_) => c
    case ForkReady(_) => c
    case ReparentStep(_) => c
    case WakeStep(_) => c
    case Reap(_) => c
    case _ => e.p
  }

  /** wakeup's body for one process */
  function Wake(x: Proc, chan: Chan): Proc {
    if x.state.SLEEPING? && x.chan == chan then x.(state := RUNNABLE) else x
  }

  /** The channel a scanning thread wakes. */
  function WakeChan(x: Proc): Chan {
    match x.pc
    case ReparentWake(_, _, _) => OfProc(INIT)
    case ExitWake(_, _) => if x.parent.Some? then OfProc(x.parent.value) else NoChan
    case _ => OfLock
  }

  /** The target after the step. */
  function NewT(k: Kernel, e: Event): Proc {
    var t := P(k.procs, Target(k, e));
    match e
    case ForkAlloc(_, _) => t.(state := USED, pid := k.nextpid)
    case ForkFail(_, _) => t.(killed := false)  // allocproc, then freeproc
    case ForkParent(p) => t.(parent := Some(p))
    case ForkReady(_) => t.(state := RUNNABLE, pc := Fresh)
    case ReparentStep(p) => if t.parent == Some(p) then t.(parent := Some(INIT)) else t
    case WakeStep(p) => Wake(t, WakeChan(P(k.procs, p)))
    case Reap(_) => FREE
    case _ => t
  }

  /** The pc after one process of a wakeup scan. */
  function WakeNext(pc: Pc): Pc {
    match pc
    case ReparentWake(k, j, s) => ReparentWake(k, j + 1, s)
    case ExitWake(j, s) => ExitWake(j + 1, s)
    case RelWake(j) => RelWake(j + 1)
    case _ => pc
  }

  /** Where a thread continues when the scheduler switches to it. */
  function RunPc(pc: Pc): Pc {
    if pc.Asleep? then Woken(pc.lk) else if pc.Yielded? then Resumed(pc.at) else Resumed(User)
  }

  function SwitchPc(pc: Pc): Pc {
    match pc
    case SleepC(lk) => Asleep(lk)
    case YieldA(b) => Yielded(b)
    case _ => Dead
  }

  function RetakePc(lk: Lk): Pc {
    match lk
    case WaitLock => Scan(0, false)
    case InnerLock => Acquiring
    case OtherLock(_) => User
  }

  function ReparentPc(k: Kernel, p: nat, pc: Pc): Pc
    requires pc.Reparent?
  {
    if pc.k >= NPROC then ExitWake(0, pc.status)
    else if P(k.procs, pc.k).parent == Some(p) then ReparentWake(pc.k, 0, pc.status)
    else Reparent(pc.k + 1, pc.status)
  }

  /** The actor after the step. */
  function NewA(k: Kernel, e: Event): Proc
    requires Enabled(k, e)
  {
    var x := P(k.procs, e.p);
    match e
    case ForkAlloc(_, np) => x.(pc := Forking(np))
    case ForkFail(_, _) => x
    case ForkParent(_) => x.(pc := Forked(x.pc.np))
    case ForkReady(_) => x.(pc := User)
    case ExitStart(_, s) => x.(pc := Reparent(0, s))
    case ReparentStep(p) => x.(pc := ReparentPc(k, p, x.pc))
    case WakeStep(_) => x.(pc := WakeNext(x.pc))
    case WakeDone(_) => x.(pc := Reparent(x.pc.k + 1, x.pc.status))
    case ExitZombie(_) => x.(pc := Exiting, state := ZOMBIE, xstate := x.pc.status, locked := true)
    case WaitStart(_) => x.(pc := Scan(0, false))
    case ScanStep(p) => x.(pc := Scan(x.pc.k + 1, x.pc.kids || P(k.procs, x.pc.k).parent == Some(p)))
    case Reap(_) => x.(pc := User)
    case ReapFault(_) => x.(pc := User)
    case ScanGiveUp(_) => x.(pc := User)
    case ScanCheck(_) => x.(pc := ToSleep)
    case WaitSleep(_) => x.(pc := SleepA(WaitLock), locked := true)
    case OtherSleep(_, c) => x.(pc := SleepA(OtherLock(c)), locked := true)
    case SleepRelease(_) => x.(pc := SleepB(x.pc.lk))
    case SleepState(p) => x.(pc := SleepC(x.pc.lk), chan := ChanOf(p, x.pc.lk), state := SLEEPING)
    case Switch(_) => x.(pc := SwitchPc(x.pc), onCpu := false, locked := false)
    case Run(_) => x.(pc := RunPc(x.pc), state := RUNNING, onCpu := true, locked := true)
    case Resume(_) => if x.pc.Woken? then x.(pc := Reacquire(x.pc.lk), chan := NoChan, locked := false)
      else x.(pc := Base(x.pc), locked := false)
    case Retake(_) => x.(pc := RetakePc(x.pc.lk))
    case Yield(_) => x.(pc := YieldA(x.pc), state := RUNNABLE, locked := true)
    case Kill(_, _) => x.(killed := true, state := if x.state.SLEEPING? then RUNNABLE else x.state)
    case MarkKilled(_) => x.(killed := true)
    case WakeOther(_, c) => Wake(x, OfOther(c))
    case AcqStart(_) => x.(pc := Acquiring)
    case AcqTest(_) => if k.sl.locked then x.(pc := SleepA(InnerLock), locked := true) else x.(pc := User, has := true)
    case RelStart(_) => x.(pc := RelWake(0), has := false)
    case RelDone(_) => x.(pc := User)
  }

  function NewWait(k: Kernel, e: Event): Option<nat>
    requires Enabled(k, e)
  {
    var x := P(k.procs, e.p);
    match e
    case ExitStart(p, _) => Some(p)
    case ExitZombie(_) => None
    case WaitStart(p) => Some(p)
    case Reap(_) => None
    case ReapFault(_) => None
    case ScanGiveUp(_) => None
    case SleepRelease(_) => if x.pc.lk.WaitLock? then None else k.waitLock
    case Retake(p) => if x.pc.lk.WaitLock? then Some(p) else k.waitLock
    case _ => k.waitLock
  }

  function NewInner(k: Kernel, e: Event): Option<nat>
    requires Enabled(k, e)
  {
    var x := P(k.procs, e.p);
    match e
    case SleepRelease(_) => if x.pc.lk.InnerLock? then None else k.inner
    case Retake(p) => if x.pc.lk.InnerLock? then Some(p) else k.inner
    case AcqStart(p) => Some(p)
    case AcqTest(_) => if k.sl.locked then k.inner else None
    case RelStart(p) => Some(p)
    case RelDone(_) => None
    case _ => k.inner
  }

  function NewSl(k: Kernel, e: Event): SleepLock {
    match e
    case AcqTest(p) => if k.sl.locked then k.sl else SleepLock(true, P(k.procs, p).pid)
    case RelStart(_) => SleepLock(false, 0)
    case _ => k.sl
  }

  function NewExits(k: Kernel, e: Event): map<nat, int>
    requires Enabled(k, e)
  {
    if e.ExitZombie? then k.exits[P(k.procs, e.p).pid := P(k.procs, e.p).pc.status] else k.exits
  }

  function NewReaps(k: Kernel, e: Event): map<nat, int> {
    if e.Reap? then k.reaps[P(k.procs, Target(k, e)).pid := P(k.procs, Target(k, e)).xstate] else k.reaps
  }

  function Next(k: Kernel, e: Event): Kernel
    requires Enabled(k, e)
  {
    Kernel(Put(Put(k.procs, Target(k, e), NewT(k, e)), e.p, NewA(k, e)), NewWait(k, e), NewInner(k, e), NewSl(k, e),
           if e.ForkAlloc? || e.ForkFail? then k.nextpid + 1 else k.nextpid, NewExits(k, e), NewReaps(k, e))
  }

  /** userinit: the first process is ready to run. */
  function Boot(): Kernel {
    Kernel(seq(NPROC, i => if i == INIT then FREE.(state := RUNNABLE, pid := 1, pc := Fresh) else FREE),
           None, None, SleepLock(false, 0), 2, map[], map[])
  }

  predicate Legal(evs: seq<Event>)
    decreases |evs|, 0
  {
    evs == [] || (Legal(evs[..|evs| - 1]) && Enabled(RunAll(evs[..|evs| - 1]), evs[|evs| - 1]))
  }

  function RunAll(evs: seq<Event>): Kernel
    requires Legal(evs)
    decreases |evs|, 1
  {
    if evs == [] then Boot() else Next(RunAll(evs[..|evs| - 1]), evs[|evs| - 1])
  }

  // ----- the invariant -----

  predicate Running(pc: Pc) {
    pc.User? || pc.Forking? || pc.Forked? || pc.Reparent? || Waking(pc) || pc.Scan? ||
      pc.ToSleep? || pc.Reacquire? || pc.Acquiring?
  }

  /** What the pc of a process says about its state, its lock, and whether a CPU runs it. */
  predicate Local(x: Proc, i: nat) {
    && (x.pc.NoThread? ==>
          (x.state.UNUSED? || x.state.USED?) && !x.locked && !x.onCpu && !x.has && (x.state.UNUSED? ==> x.parent.None?))
    && (Running(x.pc) ==> x.state.RUNNING? && !x.locked && x.onCpu)
    && (x.pc.SleepA? || x.pc.SleepB? || x.pc.Woken? || x.pc.Resumed? ==> x.state.RUNNING? && x.locked && x.onCpu)
    && (x.pc.SleepC? ==> x.state.SLEEPING? && x.locked && x.onCpu && x.chan == ChanOf(i, x.pc.lk))
    && (x.pc.Asleep? ==>
          (x.state.SLEEPING? || x.state.RUNNABLE?) && !x.locked && !x.onCpu && x.chan == ChanOf(i, x.pc.lk))
    && (x.pc.YieldA? ==> x.state.RUNNABLE? && x.locked && x.onCpu)
    && (x.pc.Yielded? || x.pc.Fresh? ==> x.state.RUNNABLE? && !x.locked && !x.onCpu)
    && (x.pc.Exiting? ==> x.state.ZOMBIE? && x.locked && x.onCpu)
    && (x.pc.Dead? ==> x.state.ZOMBIE? && !x.locked && !x.onCpu)
    && (x.pc.YieldA? || x.pc.Yielded? || x.pc.Resumed? ==> Preemptible(x.pc.at))
    && (Ending(x.pc) ==> !x.has && i != INIT)
    && (!x.pc.NoThread? && i != INIT ==> x.parent.Some?)
  }

  /** In exit, past the point of no return. */
  predicate Ending(pc: Pc) { pc.Reparent? || pc.ReparentWake? || pc.ExitWake? || pc.Exiting? || pc.Dead? }

  ghost predicate Locals(ps: seq<Proc>) {
    forall i: nat :: i < NPROC ==> Local(P(ps, i), i)
  }

  predicate HoldsWait(pc: Pc) {
    pc.Reparent? || pc.ReparentWake? || pc.ExitWake? || pc.Scan? || pc.ToSleep? || pc == SleepA(WaitLock)
  }

  predicate HoldsInner(pc: Pc) { pc.Acquiring? || pc.RelWake? || pc == SleepA(InnerLock) }

  /** Each lock is held by exactly the thread that is in its critical section. */
  ghost predicate Holders(ps: seq<Proc>, waitLock: Option<nat>, inner: Option<nat>) {
    && (forall i: nat :: i < NPROC ==> (HoldsWait(P(ps, i).pc) <==> waitLock == Some(i)))
    && (forall i: nat :: i < NPROC ==> (HoldsInner(P(ps, i).pc) <==> inner == Some(i)))
    && (waitLock.Some? ==> waitLock.value < NPROC) && (inner.Some? ==> inner.value < NPROC)
  }

  /** A parent is a process that has not exited. */
  predicate Alive(pc: Pc) { !pc.NoThread? && !pc.Exiting? && !pc.Dead? }

  ghost predicate Tree(ps: seq<Proc>) {
    && !P(ps, INIT).pc.NoThread? && P(ps, INIT).parent.None?
    && (forall i: nat :: i < NPROC && P(ps, i).parent.Some? ==> GoodParent(ps, i, P(ps, i).parent.value))
  }

  predicate GoodParent(ps: seq<Proc>, i: nat, r: nat) { r < NPROC && r != i && Alive(P(ps, r).pc) }

  /** In exit: slot z has been passed by reparent. */
  predicate Passed(pc: Pc, z: nat) {
    (pc.Reparent? && z < pc.k) || (pc.ReparentWake? && z <= pc.k) || pc.ExitWake? || pc.Exiting? || pc.Dead?
  }

  ghost predicate Orphans(ps: seq<Proc>) {
    forall e: nat, z: nat :: e < NPROC && z < NPROC && Passed(P(ps, e).pc, z) ==> P(ps, z).parent != Some(e)
  }

  predicate Forks(pc: Pc) { Base(pc).Forking? || Base(pc).Forked? }

  /** The child that a fork is making. */
  function Np(pc: Pc): nat { match Base(pc) case Forking(np) => np case Forked(np) => np case _ => 0 }

  /** A child under construction belongs to one fork. */
  ghost predicate Children(ps: seq<Proc>) {
    && (forall p: nat :: p < NPROC && Forks(P(ps, p).pc) ==> UnderWay(ps, p, Np(P(ps, p).pc)))
    && (forall p: nat, q: nat ::
          p < NPROC && q < NPROC && Forks(P(ps, p).pc) && Forks(P(ps, q).pc) && Np(P(ps, p).pc) == Np(P(ps, q).pc) ==>
            p == q)
  }

  predicate UnderWay(ps: seq<Proc>, p: nat, np: nat) {
    && np < NPROC && P(ps, np).pc.NoThread? && P(ps, np).state.USED?
    && P(ps, np).parent == if Base(P(ps, p).pc).Forked? then Some(p) else None
  }

  /** In wait: slot z has been passed by the scan. */
  predicate Scanned(pc: Pc, z: nat) { (pc.Scan? && z < pc.k) || pc.ToSleep? }

  ghost predicate Scans(ps: seq<Proc>) {
    forall q: nat, z: nat :: q < NPROC && z < NPROC && Scanned(P(ps, q).pc, z) && P(ps, z).parent == Some(q) ==>
      !P(ps, z).state.ZOMBIE? && (P(ps, q).pc.Scan? ==> P(ps, q).pc.kids)
  }

  /** Asleep on lk, or past the point where only a wakeup will bring it back. */
  predicate Committed(x: Proc, lk: Lk) {
    x.pc == SleepA(lk) || x.pc == SleepB(lk) || x.pc == SleepC(lk) || (x.pc == Asleep(lk) && x.state.SLEEPING?)
  }

  /** The holder of wait_lock has given init a child and is yet to wake it. */
  predicate Excused(ps: seq<Proc>, waitLock: Option<nat>, q: nat) {
    waitLock.Some? && q == INIT && P(ps, waitLock.value).pc.ReparentWake? && P(ps, waitLock.value).pc.j <= q
  }

  ghost predicate Waits(ps: seq<Proc>, waitLock: Option<nat>) {
    forall q: nat, z: nat ::
      q < NPROC && z < NPROC && Committed(P(ps, q), WaitLock) &&
        P(ps, z).parent == Some(q) && P(ps, z).state.ZOMBIE? ==>
      Excused(ps, waitLock, q)
  }

  /** In exit: the wakeup of the parent has passed the parent. */
  ghost predicate ParentWoken(ps: seq<Proc>) {
    forall e: nat, q: nat ::
      e < NPROC && q < NPROC && P(ps, e).pc.ExitWake? && P(ps, e).parent == Some(q) && q < P(ps, e).pc.j ==>
      !Committed(P(ps, q), WaitLock)
  }

  ghost predicate Pids(ps: seq<Proc>, nextpid: nat) {
    && 0 < nextpid
    && (forall i: nat :: i < NPROC && !P(ps, i).state.UNUSED? ==> 0 < P(ps, i).pid < nextpid)
    && (forall i: nat, j: nat ::
          i < NPROC && j < NPROC && i != j && !P(ps, i).state.UNUSED? && !P(ps, j).state.UNUSED? ==>
            P(ps, i).pid != P(ps, j).pid)
  }

  /** The zombie that stands for a pid. */
  predicate Stands(x: Proc, pid: nat, status: int) { x.state.ZOMBIE? && x.pid == pid && x.xstate == status }

  ghost predicate Accounted(ps: seq<Proc>, pid: nat, status: int) {
    exists z: nat :: z < NPROC && Stands(P(ps, z), pid, status)
  }

  ghost predicate History(ps: seq<Proc>, nextpid: nat, exits: map<nat, int>, reaps: map<nat, int>) {
    && (forall i: nat :: i < NPROC && P(ps, i).state.ZOMBIE? ==>
          P(ps, i).pid in exits && exits[P(ps, i).pid] == P(ps, i).xstate && P(ps, i).pid !in reaps)
    && (forall i: nat :: i < NPROC && !P(ps, i).state.ZOMBIE? && !P(ps, i).state.UNUSED? ==> P(ps, i).pid !in exits)
    && (forall pid: nat :: pid in exits ==> pid < nextpid && (pid in reaps || Accounted(ps, pid, exits[pid])))
    && (forall pid: nat :: pid in reaps ==> pid in exits && exits[pid] == reaps[pid])
  }

  /** The holder of the inner lock has cleared locked and is yet to reach p in its wakeup. */
  predicate ExcusedL(ps: seq<Proc>, inner: Option<nat>, p: nat) {
    inner.Some? && P(ps, inner.value).pc.RelWake? && P(ps, inner.value).pc.j <= p
  }

  ghost predicate Sleepers(ps: seq<Proc>, inner: Option<nat>, sl: SleepLock) {
    forall p: nat :: p < NPROC && Committed(P(ps, p), InnerLock) ==> sl.locked || ExcusedL(ps, inner, p)
  }

  /** locked is set exactly while one process is between acquiresleep and releasesleep. */
  ghost predicate Holding(ps: seq<Proc>, sl: SleepLock) {
    && (forall p: nat :: p < NPROC && P(ps, p).has ==> sl.locked && sl.pid == P(ps, p).pid && !P(ps, p).pc.NoThread?)
    && (forall p: nat, q: nat :: p < NPROC && q < NPROC && P(ps, p).has && P(ps, q).has ==> p == q)
    && (sl.locked ==> exists p: nat :: p < NPROC && P(ps, p).has)
  }

  ghost predicate Inv(k: Kernel) {
    && |k.procs| == NPROC && Locals(k.procs) && Holders(k.procs, k.waitLock, k.inner)
    && Tree(k.procs) && Orphans(k.procs) && Children(k.procs)
    && Scans(k.procs) && Waits(k.procs, k.waitLock) && ParentWoken(k.procs)
    && Pids(k.procs, k.nextpid) && History(k.procs, k.nextpid, k.exits, k.reaps)
    && Sleepers(k.procs, k.inner, k.sl) && Holding(k.procs, k.sl)
  }

  // ----- every step keeps it -----

  /** Process j after the step. */
  function At(k: Kernel, e: Event, j: nat): Proc
    requires Enabled(k, e)
  {
    if j == e.p then NewA(k, e) else if j == Target(k, e) then NewT(k, e) else P(k.procs, j)
  }

  lemma {:induction false} NextAt(k: Kernel, e: Event)
    requires |k.procs| == NPROC && Enabled(k, e)
    ensures |Next(k, e).procs| == NPROC && e.p < NPROC
    ensures forall j: nat :: j < NPROC ==> P(Next(k, e).procs, j) == At(k, e, j)
  {
    assert e.p < NPROC;
    hide NewA, NewT, Target, Enabled;
  }

  /** Steps of the scheduler and of a thread on its way to it and back. */
  predicate Sched(e: Event) { e.Run? || e.Resume? || e.Switch? || e.Yield? }

  lemma {:induction false} LocalSched(k: Kernel, e: Event)
    requires Sched(e) && Enabled(k, e) && Local(P(k.procs, e.p), e.p)
    ensures Local(NewA(k, e), e.p)
  {
    hide P;
  }

  lemma {:induction false} LocalRest(k: Kernel, e: Event)
    requires !Sched(e) && Enabled(k, e) && Local(P(k.procs, e.p), e.p)
    ensures Local(NewA(k, e), e.p)
  {
    hide P;
  }

  lemma {:induction false} LocalA(k: Kernel, e: Event)
    requires Enabled(k, e) && Local(P(k.procs, e.p), e.p)
    ensures Local(NewA(k, e), e.p)
  {
    hide P, Enabled, Local, NewA;
    if Sched(e) { LocalSched(k, e); } else { LocalRest(k, e); }
  }

  lemma {:induction false} LocalT(k: Kernel, e: Event)
    requires Enabled(k, e) && Local(P(k.procs, Target(k, e)), Target(k, e))
    requires Target(k, e) != e.p && Target(k, e) < NPROC
    requires Forks(P(k.procs, e.p).pc) ==> UnderWay(k.procs, e.p, Np(P(k.procs, e.p).pc))
    ensures Local(NewT(k, e), Target(k, e))
  {
    hide P;
  }

  lemma {:induction false} KeepLocals(k: Kernel, e: Event)
    requires Inv(k) && Enabled(k, e)
    ensures Locals(Next(k, e).procs)
  {
    hide P, Next, Holders, Orphans, Scans, Waits, ParentWoken, Pids, History, Sleepers, Holding, Tree, Enabled,
      Local, NewA, NewT, Target;
    NextAt(k, e);
    forall j: nat | j < NPROC ensures Local(P(Next(k, e).procs, j), j) {
      assert Local(P(k.procs, j), j);
      if j == e.p {
        LocalA(k, e);
      } else if j == Target(k, e) {
        LocalT(k, e);
      }
    }
  }

  /** The parts of Local that the other proofs use. */
  predicate Kind(x: Proc, i: nat) {
    && (x.state.ZOMBIE? <==> x.pc.Exiting? || x.pc.Dead?)
    && (x.state.UNUSED? || x.state.USED? <==> x.pc.NoThread?)
    && (x.state.RUNNABLE? && !x.locked ==> x.pc.Asleep? || x.pc.Yielded? || x.pc.Fresh?)
    && (x.state.UNUSED? ==> x.parent.None?)
    && (x.pc.YieldA? || x.pc.Yielded? || x.pc.Resumed? ==> Preemptible(x.pc.at))
    && (Ending(x.pc) ==> i != INIT)
  }

  lemma {:induction false} KindOf(ps: seq<Proc>, i: nat)
    requires Locals(ps) && i < NPROC
    ensures Kind(P(ps, i), i)
  {
    assert Local(P(ps, i), i);
    hide P, Locals;
  }

  // What a step does to its actor and to its target, as far as the invariant looks.

  predicate Guard(k: Kernel, e: Event) {
    var x, t := P(k.procs, e.p), P(k.procs, Target(k, e));
    && e.p < NPROC
    && (e.ForkAlloc? || e.ForkFail? ==> x.pc.User? && e.np < NPROC && Target(k, e) == e.np && t.state.UNUSED?)
    && (e.ForkParent? ==> x.pc.Forking? && Target(k, e) == x.pc.np && k.waitLock.None?)
    && (e.ForkReady? ==> x.pc.Forked? && Target(k, e) == x.pc.np)
    && (e.ReparentStep? ==> x.pc.Reparent? && Target(k, e) == x.pc.k)
    && (e.ExitZombie? ==> x.pc.ExitWake? && x.pc.j >= NPROC)
    && (e.Reap? ==> x.pc.Scan? && Target(k, e) == x.pc.k < NPROC && t.state.ZOMBIE? && t.parent == Some(e.p))
    && (e.WaitSleep? ==> x.pc.ToSleep?)
    && (e.Kill? ==> x.pid == e.pid) && (e.MarkKilled? ==> x.pc.User?)
    && (e.ScanStep? ==>
          x.pc.Scan? && x.pc.k < NPROC &&
            (P(k.procs, x.pc.k).parent == Some(e.p) ==> !P(k.procs, x.pc.k).state.ZOMBIE?))
    && (e.ScanCheck? ==> x.pc.Scan? && x.pc.k >= NPROC)
    && (e.WakeStep? ==> Waking(x.pc) && Target(k, e) == Cursor(x.pc) < NPROC && (Target(k, e) == e.p || !t.locked))
  }

  lemma {:induction false} Guards(k: Kernel, e: Event)
    requires Enabled(k, e)
    ensures Guard(k, e)
  {
    hide P;
  }

  predicate EffectT(k: Kernel, e: Event) {
    var t, t' := P(k.procs, Target(k, e)), NewT(k, e);
    && t'.pc == (if e.Reap? then NoThread else if e.ForkReady? then Fresh else t.pc)
    && t'.parent == (if e.Reap? then None
                     else if e.ForkParent? then Some(e.p)
                     else if e.ReparentStep? && t.parent == Some(e.p) then Some(INIT)
                     else t.parent)
    && t'.pid == (if e.Reap? then 0 else if e.ForkAlloc? then k.nextpid else t.pid)
    && (t'.state.ZOMBIE? <==> t.state.ZOMBIE? && !e.Reap? && !e.ForkAlloc? && !e.ForkReady?)
    && (t'.state.UNUSED? <==> e.Reap? || (t.state.UNUSED? && !e.ForkAlloc? && !e.ForkReady?))
    && (t'.state.USED? <==> e.ForkAlloc? || (t.state.USED? && !e.Reap? && !e.ForkReady?))
    && t'.xstate == (if e.Reap? then 0 else t.xstate)
    && t'.has == (!e.Reap? && t.has)
    && (t'.state.SLEEPING? ==> t.state.SLEEPING?)
  }

  lemma {:induction false} EffectsT(k: Kernel, e: Event)
    ensures EffectT(k, e)
  {
    hide P;
  }

  predicate EffectA(k: Kernel, e: Event)
    requires Enabled(k, e)
  {
    EffectPc(k, e) && EffectState(k, e) && EffectSleep(k, e)
  }

  predicate EffectPc(k: Kernel, e: Event)
    requires Enabled(k, e)
  {
    var x, x' := P(k.procs, e.p), NewA(k, e);
    && (Alive(x.pc) ==> Alive(x'.pc) || e.ExitZombie?)
    && (x.pc.NoThread? <==> x'.pc.NoThread?)
    && (Forks(x'.pc) ==>
          Base(x'.pc) == (if e.ForkAlloc? then Forking(e.np)
            else if e.ForkParent? then Forked(Np(x.pc)) else Base(x.pc)))
    && (e.ForkReady? ==> !Forks(x'.pc))
  }

  predicate EffectState(k: Kernel, e: Event)
    requires Enabled(k, e)
  {
    var x, x' := P(k.procs, e.p), NewA(k, e);
    && x'.parent == x.parent && x'.pid == x.pid
    && (x'.state.ZOMBIE? <==> x.state.ZOMBIE? || e.ExitZombie?)
    && x'.xstate == (if e.ExitZombie? then x.pc.status else x.xstate)
    && (x'.state.UNUSED? <==> x.state.UNUSED?)
    && (x'.state.USED? <==> x.state.USED?)
  }

  /** Only a process that just found no zombie, or found the lock taken, commits itself to sleep. */
  predicate EffectSleep(k: Kernel, e: Event)
    requires Enabled(k, e)
  {
    && (Committed(NewA(k, e), WaitLock) ==> Committed(P(k.procs, e.p), WaitLock) || e.WaitSleep?)
    && (Committed(NewA(k, e), InnerLock) ==> Committed(P(k.procs, e.p), InnerLock) || (e.AcqTest? && k.sl.locked))
  }

  lemma {:induction false} EffectWaitSleep(k: Kernel, e: Event)
    requires Enabled(k, e) && Kind(P(k.procs, e.p), e.p) && Committed(NewA(k, e), WaitLock)
    ensures Committed(P(k.procs, e.p), WaitLock) || e.WaitSleep?
  {
    hide P, AtChild, LockFree, ChanOf;
  }

  lemma {:induction false} EffectLockSleep(k: Kernel, e: Event)
    requires Enabled(k, e) && Kind(P(k.procs, e.p), e.p) && Committed(NewA(k, e), InnerLock)
    ensures Committed(P(k.procs, e.p), InnerLock) || (e.AcqTest? && k.sl.locked)
  {
    hide P, AtChild, LockFree, ChanOf;
  }

  lemma {:induction false} EffectsPcSched(k: Kernel, e: Event)
    requires Sched(e) && Enabled(k, e) && Kind(P(k.procs, e.p), e.p)
    ensures EffectPc(k, e)
  {
    hide P;
  }

  lemma {:induction false} EffectsPcRest(k: Kernel, e: Event)
    requires !Sched(e) && Enabled(k, e) && Kind(P(k.procs, e.p), e.p)
    ensures EffectPc(k, e)
  {
    hide P, AtChild, LockFree, ChanOf;
  }

  lemma {:induction false} EffectsPc(k: Kernel, e: Event)
    requires Enabled(k, e) && Kind(P(k.procs, e.p), e.p)
    ensures EffectPc(k, e)
  {
    hide P, Enabled, Kind, EffectPc;
    if Sched(e) { EffectsPcSched(k, e); } else { EffectsPcRest(k, e); }
  }

  lemma {:induction false} EffectsState(k: Kernel, e: Event)
    requires Enabled(k, e) && Kind(P(k.procs, e.p), e.p)
    ensures EffectState(k, e)
  {
    hide P;
  }

  lemma {:induction false} EffectsSleep(k: Kernel, e: Event)
    requires Enabled(k, e) && Kind(P(k.procs, e.p), e.p)
    ensures EffectSleep(k, e)
  {
    hide P, NewA, Enabled, Committed, Kind;
    if Committed(NewA(k, e), WaitLock) { EffectWaitSleep(k, e); }
    if Committed(NewA(k, e), InnerLock) { EffectLockSleep(k, e); }
  }

  lemma {:induction false} Facts(k: Kernel, e: Event)
    requires Locals(k.procs) && Enabled(k, e)
    ensures Guard(k, e) && EffectT(k, e) && EffectA(k, e)
  {
    assert e.p < NPROC;
    hide P, Locals, Enabled, Guard, EffectPc, EffectState, EffectSleep, EffectT;
    KindOf(k.procs, e.p);
    Guards(k, e);
    EffectsT(k, e);
    EffectsPc(k, e);
    EffectsState(k, e);
    EffectsSleep(k, e);
  }

  lemma {:induction false} WaitHolderSched(k: Kernel, e: Event)
    requires Sched(e) && Enabled(k, e) && Kind(P(k.procs, e.p), e.p)
    requires HoldsWait(P(k.procs, e.p).pc) <==> k.waitLock == Some(e.p)
    ensures HoldsWait(NewA(k, e).pc) <==> NewWait(k, e) == Some(e.p)
  {
    hide P;
  }

  lemma {:induction false} WaitHolderRest(k: Kernel, e: Event)
    requires !Sched(e) && Enabled(k, e)
    requires HoldsWait(P(k.procs, e.p).pc) <==> k.waitLock == Some(e.p)
    ensures HoldsWait(NewA(k, e).pc) <==> NewWait(k, e) == Some(e.p)
  {
    hide P, AtChild, ChanOf;
  }

  lemma {:induction false} WaitHolderA(k: Kernel, e: Event)
    requires Enabled(k, e) && Kind(P(k.procs, e.p), e.p)
    requires HoldsWait(P(k.procs, e.p).pc) <==> k.waitLock == Some(e.p)
    ensures HoldsWait(NewA(k, e).pc) <==> NewWait(k, e) == Some(e.p)
  {
    hide P, Enabled, NewA, NewWait, Kind, HoldsWait;
    if Sched(e) { WaitHolderSched(k, e); } else { WaitHolderRest(k, e); }
  }

  lemma {:induction false} InnerHolderSched(k: Kernel, e: Event)
    requires Sched(e) && Enabled(k, e) && Kind(P(k.procs, e.p), e.p)
    requires HoldsInner(P(k.procs, e.p).pc) <==> k.inner == Some(e.p)
    ensures HoldsInner(NewA(k, e).pc) <==> NewInner(k, e) == Some(e.p)
  {
    hide P;
  }

  lemma {:induction false} InnerHolderRest(k: Kernel, e: Event)
    requires !Sched(e) && Enabled(k, e)
    requires HoldsInner(P(k.procs, e.p).pc) <==> k.inner == Some(e.p)
    ensures HoldsInner(NewA(k, e).pc) <==> NewInner(k, e) == Some(e.p)
  {
    hide P, AtChild, ChanOf;
  }

  lemma {:induction false} InnerHolderA(k: Kernel, e: Event)
    requires Enabled(k, e) && Kind(P(k.procs, e.p), e.p)
    requires HoldsInner(P(k.procs, e.p).pc) <==> k.inner == Some(e.p)
    ensures HoldsInner(NewA(k, e).pc) <==> NewInner(k, e) == Some(e.p)
  {
    hide P, Enabled, NewA, NewInner, Kind, HoldsInner;
    if Sched(e) { InnerHolderSched(k, e); } else { InnerHolderRest(k, e); }
  }

  /** A step takes or drops a lock for its actor only. */
  lemma {:induction false} HolderOther(k: Kernel, e: Event, i: nat)
    requires Enabled(k, e) && i != e.p
    requires HoldsWait(P(k.procs, e.p).pc) <==> k.waitLock == Some(e.p)
    requires HoldsInner(P(k.procs, e.p).pc) <==> k.inner == Some(e.p)
    ensures k.waitLock == Some(i) <==> NewWait(k, e) == Some(i)
    ensures k.inner == Some(i) <==> NewInner(k, e) == Some(i)
  {
    hide P;
  }

  lemma {:induction false} KeepHolders(k: Kernel, e: Event)
    requires Inv(k) && Enabled(k, e)
    ensures Holders(Next(k, e).procs, Next(k, e).waitLock, Next(k, e).inner)
  {
    hide P, Locals, Enabled, NewA, NewT, Target, Tree, Orphans, Scans, Waits, ParentWoken, Pids, History, Sleepers,
      Holding, HoldsWait, HoldsInner;
    NextAt(k, e);
    Facts(k, e);
    assert Next(k, e).waitLock == NewWait(k, e) && Next(k, e).inner == NewInner(k, e);
    hide Next;
    HoldRange(k, e);
    forall i: nat | i < NPROC
      ensures HoldsWait(P(Next(k, e).procs, i).pc) <==> NewWait(k, e) == Some(i)
      ensures HoldsInner(P(Next(k, e).procs, i).pc) <==> NewInner(k, e) == Some(i)
    {
      if i == e.p {
        KindOf(k.procs, i);
        WaitHolderA(k, e);
        InnerHolderA(k, e);
      } else {
        HolderOther(k, e, i);
        KindOf(k.procs, i);
        if i == Target(k, e) { HolderT(k, e); }
      }
    }
  }

  lemma {:induction false} HolderT(k: Kernel, e: Event)
    requires Guard(k, e) && EffectT(k, e) && Target(k, e) < NPROC && Kind(P(k.procs, Target(k, e)), Target(k, e))
    requires Children(k.procs)
    ensures HoldsWait(NewT(k, e).pc) <==> HoldsWait(P(k.procs, Target(k, e)).pc)
    ensures HoldsInner(NewT(k, e).pc) <==> HoldsInner(P(k.procs, Target(k, e)).pc)
  {
    hide P, NewT, Target;
    assert Forks(P(k.procs, e.p).pc) ==> UnderWay(k.procs, e.p, Np(P(k.procs, e.p).pc));
    hide Children;
  }

  lemma {:induction false} HoldRange(k: Kernel, e: Event)
    requires Enabled(k, e) && (k.waitLock.Some? ==> k.waitLock.value < NPROC)
    requires (k.inner.Some? ==> k.inner.value < NPROC)
    ensures NewWait(k, e).Some? ==> NewWait(k, e).value < NPROC
    ensures NewInner(k, e).Some? ==> NewInner(k, e).value < NPROC
  {
    hide P;
  }

  lemma {:induction false} PassedA(k: Kernel, e: Event, z: nat)
    requires Enabled(k, e) && Kind(P(k.procs, e.p), e.p) && z < NPROC && Passed(NewA(k, e).pc, z)
    ensures Passed(P(k.procs, e.p).pc, z) || (e.ReparentStep? && z == Cursor(P(k.procs, e.p).pc))
  {
    hide P, AtChild, LockFree, ChanOf;
  }

  lemma {:induction false} OrphansPair(k: Kernel, e: Event, i: nat, z: nat)
    requires Locals(k.procs) && Tree(k.procs) && Orphans(k.procs) && Enabled(k, e)
    requires i < NPROC && z < NPROC && Passed(At(k, e, i).pc, z)
    ensures At(k, e, z).parent != Some(i)
  {
    hide P, Locals, Enabled, NewA, NewT, Target;
    Facts(k, e);
    KindOf(k.procs, i);
    assert P(k.procs, e.p).parent != Some(e.p) by {
      assert P(k.procs, e.p).parent.Some? ==> GoodParent(k.procs, e.p, P(k.procs, e.p).parent.value);
    }
    assert Passed(P(k.procs, i).pc, z) ==> P(k.procs, z).parent != Some(i);
    hide Orphans, Tree;
    if i == e.p { PassedA(k, e, z); }
  }

  lemma {:induction false} KeepOrphans(k: Kernel, e: Event)
    requires Inv(k) && Enabled(k, e)
    ensures Orphans(Next(k, e).procs)
  {
    hide P, Locals, Enabled, At, Tree, Holders, Children, Scans, Waits, ParentWoken, Pids, History, Sleepers, Holding;
    NextAt(k, e);
    hide Next;
    forall i: nat, z: nat | i < NPROC && z < NPROC && Passed(P(Next(k, e).procs, i).pc, z)
      ensures P(Next(k, e).procs, z).parent != Some(i)
    {
      OrphansPair(k, e, i, z);
    }
  }

  lemma {:induction false} TreeOne(k: Kernel, e: Event, i: nat)
    requires Locals(k.procs) && Tree(k.procs) && Orphans(k.procs) && Children(k.procs)
    requires Enabled(k, e) && i < NPROC && At(k, e, i).parent.Some?
    ensures At(k, e, i).parent.value < NPROC && At(k, e, i).parent.value != i
    ensures Alive(At(k, e, At(k, e, i).parent.value).pc)
  {
    hide P, Locals, Enabled, NewA, NewT, Target;
    Facts(k, e);
    KindOf(k.procs, INIT);
    KindOf(k.procs, e.p);
    if Target(k, e) < NPROC { KindOf(k.procs, Target(k, e)); }
    assert Forks(P(k.procs, e.p).pc) ==> UnderWay(k.procs, e.p, Np(P(k.procs, e.p).pc));
    assert P(k.procs, i).parent.Some? ==> GoodParent(k.procs, i, P(k.procs, i).parent.value);
    assert Passed(P(k.procs, e.p).pc, i) ==> P(k.procs, i).parent != Some(e.p);
    assert !P(k.procs, INIT).pc.NoThread? && P(k.procs, INIT).parent.None?;
    hide Orphans, Tree, Children;
  }

  lemma {:induction false} InitStays(k: Kernel, e: Event)
    requires Locals(k.procs) && Tree(k.procs) && Children(k.procs) && Enabled(k, e)
    ensures !At(k, e, INIT).pc.NoThread? && At(k, e, INIT).parent.None?
  {
    hide P, Locals, Enabled, NewA, NewT, Target;
    Facts(k, e);
    KindOf(k.procs, INIT);
    assert Forks(P(k.procs, e.p).pc) ==> UnderWay(k.procs, e.p, Np(P(k.procs, e.p).pc));
    assert !P(k.procs, INIT).pc.NoThread? && P(k.procs, INIT).parent.None?;
    hide Tree, Children;
  }

  lemma {:induction false} KeepTree(k: Kernel, e: Event)
    requires Inv(k) && Enabled(k, e)
    ensures Tree(Next(k, e).procs)
  {
    hide P, Locals, Enabled, At, Holders, Children, Orphans, Scans, Waits, ParentWoken, Pids, History, Sleepers,
      Holding;
    NextAt(k, e);
    hide Next;
    InitStays(k, e);
    forall i: nat | i < NPROC && P(Next(k, e).procs, i).parent.Some?
      ensures GoodParent(Next(k, e).procs, i, P(Next(k, e).procs, i).parent.value)
    {
      TreeOne(k, e, i);
      hide Tree;
    }
  }

  lemma {:induction false} ChildOne(k: Kernel, e: Event, i: nat)
    requires Locals(k.procs) && Children(k.procs) && Enabled(k, e) && i < NPROC && Forks(At(k, e, i).pc)
    ensures Np(At(k, e, i).pc) < NPROC && At(k, e, Np(At(k, e, i).pc)).pc.NoThread?
    ensures At(k, e, Np(At(k, e, i).pc)).state.USED?
    ensures At(k, e, Np(At(k, e, i).pc)).parent == if Base(At(k, e, i).pc).Forked? then Some(i) else None
  {
    hide P, Locals, Enabled, NewA, NewT, Target;
    Facts(k, e);
    KindOf(k.procs, e.p);
    if Target(k, e) < NPROC { KindOf(k.procs, Target(k, e)); }
    assert Forks(P(k.procs, e.p).pc) ==> UnderWay(k.procs, e.p, Np(P(k.procs, e.p).pc));
    assert Forks(P(k.procs, i).pc) ==> UnderWay(k.procs, i, Np(P(k.procs, i).pc));
    assert Forks(P(k.procs, e.p).pc) && Forks(P(k.procs, i).pc) && Np(P(k.procs, e.p).pc) == Np(P(k.procs, i).pc) ==>
      i == e.p;
    hide Children;
  }

  lemma {:induction false} ChildPair(k: Kernel, e: Event, i: nat, q: nat)
    requires Locals(k.procs) && Children(k.procs) && Enabled(k, e) && i < NPROC && q < NPROC
    requires Forks(At(k, e, i).pc) && Forks(At(k, e, q).pc) && Np(At(k, e, i).pc) == Np(At(k, e, q).pc)
    ensures i == q
  {
    hide P, Locals, Enabled, NewA, NewT, Target;
    Facts(k, e);
    assert Forks(P(k.procs, i).pc) ==> UnderWay(k.procs, i, Np(P(k.procs, i).pc));
    assert Forks(P(k.procs, q).pc) ==> UnderWay(k.procs, q, Np(P(k.procs, q).pc));
    assert Forks(P(k.procs, q).pc) && Forks(P(k.procs, i).pc) && Np(P(k.procs, q).pc) == Np(P(k.procs, i).pc) ==>
      i == q;
    hide Children;
  }

  lemma {:induction false} KeepChildren(k: Kernel, e: Event)
    requires Inv(k) && Enabled(k, e)
    ensures Children(Next(k, e).procs)
  {
    hide P, Locals, Enabled, At, Holders, Tree, Orphans, Scans, Waits, ParentWoken, Pids, History, Sleepers, Holding;
    NextAt(k, e);
    hide Next;
    forall i: nat | i < NPROC && Forks(P(Next(k, e).procs, i).pc)
      ensures UnderWay(Next(k, e).procs, i, Np(P(Next(k, e).procs, i).pc))
    {
      ChildOne(k, e, i);
      hide Children;
    }
    forall i: nat, q: nat | i < NPROC && q < NPROC && Forks(P(Next(k, e).procs, i).pc) &&
      Forks(P(Next(k, e).procs, q).pc) && Np(P(Next(k, e).procs, i).pc) == Np(P(Next(k, e).procs, q).pc)
      ensures i == q
    {
      ChildPair(k, e, i, q);
    }
  }

  lemma {:induction false} ScannedA(k: Kernel, e: Event, z: nat)
    requires Enabled(k, e) && Kind(P(k.procs, e.p), e.p) && z < NPROC && Scanned(NewA(k, e).pc, z)
    ensures Scanned(P(k.procs, e.p).pc, z) || (e.ScanStep? && z == Cursor(P(k.procs, e.p).pc))
    ensures P(k.procs, e.p).pc.Scan? && P(k.procs, e.p).pc.kids && NewA(k, e).pc.Scan? ==> NewA(k, e).pc.kids
    ensures e.ScanStep? && P(k.procs, z).parent == Some(e.p) && z == Cursor(P(k.procs, e.p).pc) ==>
      NewA(k, e).pc == Scan(z + 1, true)
    ensures NewA(k, e).pc.Scan? ==> P(k.procs, e.p).pc.Scan?
  {
    hide P, AtChild, LockFree, ChanOf;
  }

  lemma {:induction false} ScansPair(k: Kernel, e: Event, q: nat, z: nat)
    requires Locals(k.procs) && Holders(k.procs, k.waitLock, k.inner)
    requires Scans(k.procs) && Enabled(k, e) && q < NPROC && z < NPROC
    requires Scanned(At(k, e, q).pc, z) && At(k, e, z).parent == Some(q)
    ensures !At(k, e, z).state.ZOMBIE? && (At(k, e, q).pc.Scan? ==> At(k, e, q).pc.kids)
  {
    hide P, Locals, Enabled, NewA, NewT, Target;
    Facts(k, e);
    assert HoldsWait(P(k.procs, e.p).pc) <==> k.waitLock == Some(e.p);
    assert HoldsWait(P(k.procs, q).pc) <==> k.waitLock == Some(q);
    assert Scanned(P(k.procs, q).pc, z) && P(k.procs, z).parent == Some(q) ==>
      !P(k.procs, z).state.ZOMBIE? && (P(k.procs, q).pc.Scan? ==> P(k.procs, q).pc.kids);
    hide Holders, Scans;
    if q == e.p {
      KindOf(k.procs, q);
      ScannedA(k, e, z);
    }
  }

  lemma {:induction false} KeepScans(k: Kernel, e: Event)
    requires Inv(k) && Enabled(k, e)
    ensures Scans(Next(k, e).procs)
  {
    hide P, Locals, Enabled, At, Tree, Orphans, Waits, ParentWoken, Pids, History, Sleepers, Holding, Children, Holders;
    NextAt(k, e);
    hide Next;
    forall q: nat, z: nat | q < NPROC && z < NPROC && Scanned(P(Next(k, e).procs, q).pc, z) &&
      P(Next(k, e).procs, z).parent == Some(q)
      ensures !P(Next(k, e).procs, z).state.ZOMBIE?
      ensures (P(Next(k, e).procs, q).pc.Scan? ==> P(Next(k, e).procs, q).pc.kids)
    {
      ScansPair(k, e, q, z);
    }
  }

  /** A wakeup that reaches a process which sleeps on its channel leaves it awake. */
  lemma {:induction false} WakeReaches(k: Kernel, e: Event, q: nat, lk: Lk)
    requires e.WakeStep? && Enabled(k, e) && Target(k, e) == q && q != e.p && q < NPROC && Locals(k.procs)
    requires WakeChan(P(k.procs, e.p)) == ChanOf(q, lk)
    ensures !Committed(NewT(k, e), lk)
  {
    assert Local(P(k.procs, q), q);
    hide P, Locals;
  }

  lemma {:induction false} CommitAt(k: Kernel, e: Event, q: nat, lk: Lk)
    requires EffectT(k, e) && Enabled(k, e) && EffectA(k, e) && (lk.WaitLock? || lk.InnerLock?)
    ensures Committed(At(k, e, q), lk) ==> Committed(P(k.procs, q), lk) || (q == e.p && (e.WaitSleep? || e.AcqTest?))
  {
    hide P, NewA, NewT, Target, Enabled;
  }

  /** The premise of Waits for q and z, before the step. */
  predicate Neglected(k: Kernel, q: nat, z: nat) {
    Committed(P(k.procs, q), WaitLock) && P(k.procs, z).parent == Some(q) && P(k.procs, z).state.ZOMBIE?
  }

  /** If a sleeper in wait has a zombie child after a step, then it had one before, or reparent just gave it to init. */
  lemma {:induction false} NeglectedBefore(k: Kernel, e: Event, q: nat, z: nat)
    requires Inv(k) && Enabled(k, e) && q < NPROC && z < NPROC
    requires Committed(At(k, e, q), WaitLock) && At(k, e, z).parent == Some(q) && At(k, e, z).state.ZOMBIE?
    ensures Neglected(k, q, z) ||
      (q == INIT && e.ReparentStep? && z == Target(k, e) && P(k.procs, z).parent == Some(e.p))
  {
    hide P, Locals, Enabled, NewA, NewT, Target, Tree, Orphans, Pids, History, Sleepers, Holding, Waits;
    Facts(k, e);
    CommitAt(k, e, q, WaitLock);
    KindOf(k.procs, e.p);
    if Target(k, e) < NPROC { KindOf(k.procs, Target(k, e)); }
    assert HoldsWait(P(k.procs, e.p).pc) <==> k.waitLock == Some(e.p);
    assert Forks(P(k.procs, e.p).pc) ==> UnderWay(k.procs, e.p, Np(P(k.procs, e.p).pc));
    assert Scanned(P(k.procs, q).pc, z) && P(k.procs, z).parent == Some(q) ==> !P(k.procs, z).state.ZOMBIE?;
    assert P(k.procs, e.p).pc.ExitWake? && P(k.procs, e.p).parent == Some(q) && q < P(k.procs, e.p).pc.j ==>
      !Committed(P(k.procs, q), WaitLock);
    hide Holders, Children, Scans, ParentWoken;
  }

  lemma {:induction false} ReparentGives(k: Kernel, e: Event)
    requires e.ReparentStep? && Enabled(k, e) && Target(k, e) < NPROC && P(k.procs, Target(k, e)).parent == Some(e.p)
    ensures NewA(k, e).pc.ReparentWake? && NewA(k, e).pc.j == 0 && NewWait(k, e) == k.waitLock
  {
    hide P;
  }

  /** While a wakeup of init is on its way, it stays so until it has reached init. */
  lemma {:induction false} ReparentWaits(k: Kernel, e: Event)
    requires Enabled(k, e) && P(k.procs, e.p).pc.ReparentWake?
    requires P(k.procs, e.p).pc.j <= INIT && Kind(P(k.procs, e.p), e.p)
    ensures NewWait(k, e) == k.waitLock
    ensures NewA(k, e).pc == P(k.procs, e.p).pc || (e.WakeStep? && Target(k, e) == INIT)
  {
    hide P;
  }

  /** The excuse lasts, or the sleeper is woken. */
  lemma {:induction false} ExcuseLasts(k: Kernel, e: Event)
    requires Inv(k) && Enabled(k, e) && Excused(k.procs, k.waitLock, INIT)
    ensures !Committed(At(k, e, INIT), WaitLock) ||
      (NewWait(k, e).Some? && At(k, e, NewWait(k, e).value).pc.ReparentWake? &&
        At(k, e, NewWait(k, e).value).pc.j <= INIT)
  {
    hide P, Locals, Enabled, NewA, NewT, Target, Tree, Orphans, Pids, History, Sleepers, Holding, Waits,
      ParentWoken, NewWait, NewInner;
    var h := k.waitLock.value;
    Facts(k, e);
    KindOf(k.procs, h);
    assert HoldsWait(P(k.procs, e.p).pc) <==> k.waitLock == Some(e.p);
    assert HoldsInner(P(k.procs, e.p).pc) <==> k.inner == Some(e.p);
    hide Holders, Children;
    if e.p == h {
      ReparentWaits(k, e);
      if e.WakeStep? && Target(k, e) == INIT {
        WakeReaches(k, e, INIT, WaitLock);
      }
    } else {
      HolderOther(k, e, h);
    }
  }

  lemma {:induction false} KeepWaits(k: Kernel, e: Event)
    requires Inv(k) && Enabled(k, e)
    ensures Waits(Next(k, e).procs, Next(k, e).waitLock)
  {
    hide P, Locals, Enabled, At, NewA, NewWait, Tree, Orphans, Children, Scans, ParentWoken, Pids, History,
      Sleepers, Holding, Committed;
    NextAt(k, e);
    var k' := Next(k, e);
    assert k'.waitLock == NewWait(k, e);
    assert HoldsWait(P(k.procs, e.p).pc) <==> k.waitLock == Some(e.p);
    KeepHolders(k, e);
    assert k'.waitLock.Some? ==> k'.waitLock.value < NPROC;
    hide Next, Holders;
    forall q: nat, z: nat | q < NPROC && z < NPROC && Committed(P(k'.procs, q), WaitLock) &&
      P(k'.procs, z).parent == Some(q) && P(k'.procs, z).state.ZOMBIE?
      ensures Excused(k'.procs, k'.waitLock, q)
    {
      NeglectedBefore(k, e, q, z);
      if Neglected(k, q, z) {
        assert Excused(k.procs, k.waitLock, q);
        ExcuseLasts(k, e);
      } else {
        WaitsGiven(k, e);
      }
    }
  }

  lemma {:induction false} WaitsGiven(k: Kernel, e: Event)
    requires Inv(k) && Enabled(k, e) && e.ReparentStep? && Target(k, e) < NPROC
    requires P(k.procs, Target(k, e)).parent == Some(e.p)
    ensures NewWait(k, e) == Some(e.p) && At(k, e, e.p).pc.ReparentWake? && At(k, e, e.p).pc.j == 0
  {
    hide P, Locals, NewA, NewT, NewWait, Target, Tree, Orphans, Children, Scans, ParentWoken, Pids, History,
      Sleepers, Holding, Waits;
    ReparentGives(k, e);
    assert HoldsWait(P(k.procs, e.p).pc) <==> k.waitLock == Some(e.p);
    hide Holders;
  }

  lemma {:induction false} ExitWakeA(k: Kernel, e: Event)
    requires Enabled(k, e) && Kind(P(k.procs, e.p), e.p) && NewA(k, e).pc.ExitWake?
    ensures NewA(k, e).pc.j == 0 || (P(k.procs, e.p).pc.ExitWake? &&
      (NewA(k, e).pc.j == P(k.procs, e.p).pc.j ||
        (e.WakeStep? && NewA(k, e).pc.j == P(k.procs, e.p).pc.j + 1 && Target(k, e) == P(k.procs, e.p).pc.j)))
  {
    hide P;
  }

  lemma {:induction false} ParentWokenPair(k: Kernel, e: Event, i: nat, q: nat)
    requires Inv(k) && Enabled(k, e) && i < NPROC && q < NPROC
    requires At(k, e, i).pc.ExitWake? && At(k, e, i).parent == Some(q) && q < At(k, e, i).pc.j
    ensures !Committed(At(k, e, q), WaitLock)
  {
    hide P, Locals, Enabled, NewA, NewT, Target, Orphans, Children, Scans, Waits, Pids, History, Sleepers, Holding;
    Facts(k, e);
    KindOf(k.procs, e.p);
    CommitAt(k, e, q, WaitLock);
    assert HoldsWait(P(k.procs, e.p).pc) <==> k.waitLock == Some(e.p);
    assert HoldsWait(P(k.procs, i).pc) <==> k.waitLock == Some(i);
    assert P(k.procs, i).parent.Some? ==> GoodParent(k.procs, i, P(k.procs, i).parent.value);
    assert P(k.procs, i).pc.ExitWake? && P(k.procs, i).parent == Some(q) && q < P(k.procs, i).pc.j ==>
      !Committed(P(k.procs, q), WaitLock);
    hide Holders, ParentWoken, Tree;
    if i == e.p {
      ExitWakeA(k, e);
      if e.WakeStep? && Target(k, e) == q {
        WakeReaches(k, e, q, WaitLock);
      }
    }
  }

  lemma {:induction false} KeepParentWoken(k: Kernel, e: Event)
    requires Inv(k) && Enabled(k, e)
    ensures ParentWoken(Next(k, e).procs)
  {
    hide P, Locals, Enabled, At, Holders, Tree, Children, Orphans, Scans, Waits, Pids, History, Sleepers, Holding,
      Committed;
    NextAt(k, e);
    hide Next;
    var ps' := Next(k, e).procs;
    forall i: nat, q: nat | i < NPROC && q < NPROC && P(ps', i).pc.ExitWake? &&
      P(ps', i).parent == Some(q) && q < P(ps', i).pc.j
      ensures !Committed(P(ps', q), WaitLock)
    {
      ParentWokenPair(k, e, i, q);
      hide ParentWoken;
    }
  }

  /** The child that fork makes ready is a used slot. */
  lemma {:induction false} ReadyUsed(k: Kernel, e: Event)
    requires Children(k.procs) && Guard(k, e)
    ensures e.ForkReady? ==> Target(k, e) < NPROC && P(k.procs, Target(k, e)).state.USED?
  {
    hide P, Target;
    assert Forks(P(k.procs, e.p).pc) ==> UnderWay(k.procs, e.p, Np(P(k.procs, e.p).pc));
    hide Children;
  }

  lemma {:induction false} PidsPair(k: Kernel, e: Event, i: nat, j: nat)
    requires Inv(k) && Enabled(k, e) && i < NPROC && j < NPROC
    ensures !At(k, e, i).state.UNUSED? ==>
      0 < At(k, e, i).pid < k.nextpid || (e.ForkAlloc? && At(k, e, i).pid == k.nextpid && i == Target(k, e))
    ensures i != j && !At(k, e, i).state.UNUSED? && !At(k, e, j).state.UNUSED? ==> At(k, e, i).pid != At(k, e, j).pid
  {
    hide P, Locals, Enabled, NewA, NewT, Target, Holders, Tree, Children, Orphans, Scans, Waits, ParentWoken,
      History, Sleepers, Holding;
    Facts(k, e);
    ReadyUsed(k, e);
    assert !P(k.procs, i).state.UNUSED? ==> 0 < P(k.procs, i).pid < k.nextpid;
    assert !P(k.procs, j).state.UNUSED? ==> 0 < P(k.procs, j).pid < k.nextpid;
    assert i != j && !P(k.procs, i).state.UNUSED? && !P(k.procs, j).state.UNUSED? ==>
      P(k.procs, i).pid != P(k.procs, j).pid;
    hide Pids;
  }

  lemma {:induction false} KeepPids(k: Kernel, e: Event)
    requires Inv(k) && Enabled(k, e)
    ensures Pids(Next(k, e).procs, Next(k, e).nextpid)
  {
    hide P, Locals, Enabled, At, Target, Holders, Tree, Children, Orphans, Scans, Waits, ParentWoken, History,
      Sleepers, Holding;
    NextAt(k, e);
    var ps', n' := Next(k, e).procs, Next(k, e).nextpid;
    assert n' == if e.ForkAlloc? || e.ForkFail? then k.nextpid + 1 else k.nextpid;
    hide Next;
    forall i: nat | i < NPROC && !P(ps', i).state.UNUSED? ensures 0 < P(ps', i).pid < n' {
      PidsPair(k, e, i, i);
    }
    forall i: nat, j: nat | i < NPROC && j < NPROC && i != j && !P(ps', i).state.UNUSED? && !P(ps', j).state.UNUSED?
      ensures P(ps', i).pid != P(ps', j).pid
    {
      PidsPair(k, e, i, j);
    }
  }

  lemma {:induction false} HistoryOne(k: Kernel, e: Event, i: nat)
    requires Inv(k) && Enabled(k, e) && i < NPROC
    ensures At(k, e, i).state.ZOMBIE? ==>
      At(k, e, i).pid in NewExits(k, e) && NewExits(k, e)[At(k, e, i).pid] == At(k, e, i).xstate &&
        At(k, e, i).pid !in NewReaps(k, e)
    ensures !At(k, e, i).state.ZOMBIE? && !At(k, e, i).state.UNUSED? ==> At(k, e, i).pid !in NewExits(k, e)
  {
    hide P, Locals, Enabled, NewA, NewT, Target, Holders, Tree, Children, Orphans, Scans, Waits, ParentWoken,
      Sleepers, Holding;
    Facts(k, e);
    ReadyUsed(k, e);
    KindOf(k.procs, e.p);
    if Target(k, e) < NPROC { KindOf(k.procs, Target(k, e)); }
  }

  /** A pid that exited keeps its zombie until it is reaped. */
  lemma {:induction false} ZombieStays(k: Kernel, e: Event, z: nat, pid: nat, status: int)
    requires Inv(k) && Enabled(k, e) && z < NPROC && Stands(P(k.procs, z), pid, status)
    ensures Stands(At(k, e, z), pid, status) || (e.Reap? && Target(k, e) == z)
  {
    hide P, Locals, Enabled, NewA, NewT, Target, Holders, Tree, Children, Orphans, Scans, Waits, ParentWoken,
      History, Sleepers, Holding, Pids;
    Facts(k, e);
    ReadyUsed(k, e);
    KindOf(k.procs, e.p);
  }

  lemma {:induction false} ZombieMade(k: Kernel, e: Event)
    requires Inv(k) && Enabled(k, e) && e.ExitZombie?
    ensures Stands(At(k, e, e.p), P(k.procs, e.p).pid, P(k.procs, e.p).pc.status) && P(k.procs, e.p).pid < k.nextpid
  {
    hide P, Locals, NewA, NewT, Target, Holders, Tree, Children, Orphans, Scans, Waits, ParentWoken, History,
      Sleepers, Holding;
    Facts(k, e);
    KindOf(k.procs, e.p);
    assert !P(k.procs, e.p).state.UNUSED? ==> P(k.procs, e.p).pid < k.nextpid;
    hide Enabled;
  }

  lemma {:induction false} AccountedNext(k: Kernel, e: Event, pid: nat)
    requires Inv(k) && Enabled(k, e) && pid in NewExits(k, e)
    ensures pid < k.nextpid && (pid in NewReaps(k, e) || Accounted(Next(k, e).procs, pid, NewExits(k, e)[pid]))
  {
    hide P, Locals, Enabled, NewA, NewT, At, Target, Holders, Tree, Children, Orphans, Scans, Waits, ParentWoken,
      Sleepers, Holding, Pids;
    NextAt(k, e);
    hide Next;
    if e.ExitZombie? && pid == P(k.procs, e.p).pid {
      ZombieMade(k, e);
    } else {
      assert pid in k.exits && NewExits(k, e)[pid] == k.exits[pid];
      if pid !in k.reaps {
        var z: nat :| z < NPROC && Stands(P(k.procs, z), pid, k.exits[pid]);
        ZombieStays(k, e, z, pid, k.exits[pid]);
        hide History;
      }
    }
  }

  lemma {:induction false} KeepHistory(k: Kernel, e: Event)
    requires Inv(k) && Enabled(k, e)
    ensures History(Next(k, e).procs, Next(k, e).nextpid, Next(k, e).exits, Next(k, e).reaps)
  {
    hide P, Locals, Enabled, At, Holders, Tree, Children, Orphans, Scans, Waits, ParentWoken, Sleepers, Holding,
      Pids, Accounted, NewExits, NewReaps;
    NextAt(k, e);
    var k' := Next(k, e);
    assert k'.exits == NewExits(k, e) && k'.reaps == NewReaps(k, e) && k'.nextpid >= k.nextpid;
    ReapsKept(k, e);
    hide Next, History;
    forall i: nat | i < NPROC
      ensures P(k'.procs, i).state.ZOMBIE? ==> P(k'.procs, i).pid in k'.exits
      ensures P(k'.procs, i).state.ZOMBIE? ==> k'.exits[P(k'.procs, i).pid] == P(k'.procs, i).xstate
      ensures P(k'.procs, i).state.ZOMBIE? ==> P(k'.procs, i).pid !in k'.reaps
      ensures !P(k'.procs, i).state.ZOMBIE? && !P(k'.procs, i).state.UNUSED? ==> P(k'.procs, i).pid !in k'.exits
    {
      HistoryOne(k, e, i);
    }
    forall pid: nat | pid in k'.exits
      ensures pid < k'.nextpid && (pid in k'.reaps || Accounted(k'.procs, pid, k'.exits[pid]))
    {
      AccountedNext(k, e, pid);
    }
    assert History(k'.procs, k'.nextpid, k'.exits, k'.reaps) by {
      HistoryJoin(k'.procs, k'.nextpid, k'.exits, k'.reaps);
    }
  }

  lemma {:induction false} HistoryJoin(ps: seq<Proc>, n: nat, exits: map<nat, int>, reaps: map<nat, int>)
    requires forall i: nat :: i < NPROC && P(ps, i).state.ZOMBIE? ==>
      P(ps, i).pid in exits && exits[P(ps, i).pid] == P(ps, i).xstate && P(ps, i).pid !in reaps
    requires forall i: nat :: i < NPROC && !P(ps, i).state.ZOMBIE? && !P(ps, i).state.UNUSED? ==> P(ps, i).pid !in exits
    requires forall pid: nat :: pid in exits ==> pid < n && (pid in reaps || Accounted(ps, pid, exits[pid]))
    requires forall pid: nat :: pid in reaps ==> pid in exits && exits[pid] == reaps[pid]
    ensures History(ps, n, exits, reaps)
  {
    hide P, Accounted;
  }

  lemma {:induction false} ReapsKept(k: Kernel, e: Event)
    requires Inv(k) && Enabled(k, e)
    ensures forall pid: nat ::
      pid in NewReaps(k, e) ==> pid in NewExits(k, e) && NewExits(k, e)[pid] == NewReaps(k, e)[pid]
  {
    hide P, Locals, Enabled, Target, Holders, Tree, Children, Orphans, Scans, Waits, ParentWoken, Sleepers, Holding,
      Pids, Accounted;
    Facts(k, e);
    KindOf(k.procs, e.p);
    assert e.ExitZombie? ==> P(k.procs, e.p).pid !in k.exits;
  }

  // ----- the sleep lock -----

  predicate EffectLock(k: Kernel, e: Event)
    requires Enabled(k, e)
  {
    var x, x' := P(k.procs, e.p), NewA(k, e);
    && x'.has == ((e.AcqTest? && !k.sl.locked) || (x.has && !e.RelStart?))
    && (e.AcqTest? || e.RelStart? ==> !x.pc.NoThread?)
    && (e.RelStart? ==> x.has && x'.pc == RelWake(0) && NewInner(k, e) == Some(e.p))
    && (x.pc.RelWake? && x.pc.j < NPROC ==>
          NewInner(k, e) == k.inner &&
            (x'.pc == x.pc || (e.WakeStep? && x'.pc == RelWake(x.pc.j + 1) && Target(k, e) == x.pc.j)))
  }

  lemma {:induction false} EffectsLock(k: Kernel, e: Event)
    requires Enabled(k, e) && Kind(P(k.procs, e.p), e.p)
    ensures EffectLock(k, e)
  {
    hide P;
  }

  lemma {:induction false} HasAt(k: Kernel, e: Event, i: nat)
    requires Inv(k) && Enabled(k, e) && i < NPROC
    ensures At(k, e, i).has == if i == e.p then (e.AcqTest? && !k.sl.locked) || (P(k.procs, i).has && !e.RelStart?)
      else P(k.procs, i).has
    ensures At(k, e, i).has ==> At(k, e, i).pid == P(k.procs, i).pid && !At(k, e, i).pc.NoThread?
  {
    hide P, Enabled, NewA, NewT, Target, Holders, Tree, Children, Orphans, Scans, Waits, ParentWoken, History,
      Sleepers, Pids;
    Facts(k, e);
    KindOf(k.procs, e.p);
    EffectsLock(k, e);
    ReadyUsed(k, e);
    assert Local(P(k.procs, i), i);
    assert P(k.procs, i).has ==> !P(k.procs, i).pc.NoThread?;
    hide Holding, Locals;
  }

  predicate HasNext(x: Proc, x': Proc, acq: bool, rel: bool) {
    x'.has == (acq || (x.has && !rel)) && (x'.has ==> x'.pid == x.pid && !x'.pc.NoThread?)
  }

  lemma {:induction false} HoldingJoin(ps: seq<Proc>, ps': seq<Proc>, sl: SleepLock, p: nat, acq: bool, rel: bool)
    requires Holding(ps, sl) && p < NPROC && (acq ==> !sl.locked && !rel) && (rel ==> P(ps, p).has)
    requires forall i: nat :: i < NPROC ==> HasNext(P(ps, i), P(ps', i), acq && i == p, rel && i == p)
    ensures Holding(ps', if acq then SleepLock(true, P(ps, p).pid) else if rel then SleepLock(false, 0) else sl)
  {
    hide P;
    if acq {
      assert P(ps', p).has;
    } else if sl.locked && !rel {
      var h: nat :| h < NPROC && P(ps, h).has;
      assert P(ps', h).has;
    }
  }

  lemma {:induction false} KeepHolding(k: Kernel, e: Event)
    requires Inv(k) && Enabled(k, e)
    ensures Holding(Next(k, e).procs, Next(k, e).sl)
  {
    assert Next(k, e).sl == NewSl(k, e) && (e.RelStart? ==> P(k.procs, e.p).has);
    hide P, Locals, Enabled, At, Holders, Tree, Children, Orphans, Scans, Waits, ParentWoken, History, Sleepers, Pids;
    NextAt(k, e);
    hide Next, Holding;
    var acq, rel := e.AcqTest? && !k.sl.locked, e.RelStart?;
    forall i: nat | i < NPROC ensures HasNext(P(k.procs, i), P(Next(k, e).procs, i), acq && i == e.p, rel && i == e.p) {
      HasAt(k, e, i);
    }
    HoldingJoin(k.procs, Next(k, e).procs, k.sl, e.p, acq, rel);
  }

  /** A releasesleep that has not reached p yet will, or it wakes p now. */
  lemma {:induction false} ReleaseLasts(k: Kernel, e: Event, p: nat)
    requires Inv(k) && Enabled(k, e) && p < NPROC && ExcusedL(k.procs, k.inner, p)
    ensures !Committed(At(k, e, p), InnerLock) ||
      (NewInner(k, e).Some? && At(k, e, NewInner(k, e).value).pc.RelWake? && At(k, e, NewInner(k, e).value).pc.j <= p)
  {
    hide P, Locals, Enabled, NewA, NewT, Target, Tree, Orphans, Pids, History, Sleepers, Holding, Waits,
      ParentWoken, NewWait, NewInner;
    var h := k.inner.value;
    Facts(k, e);
    KindOf(k.procs, h);
    KindOf(k.procs, e.p);
    EffectsLock(k, e);
    assert HoldsWait(P(k.procs, e.p).pc) <==> k.waitLock == Some(e.p);
    assert HoldsInner(P(k.procs, e.p).pc) <==> k.inner == Some(e.p);
    hide Holders, Children;
    if e.p == h {
      if e.WakeStep? && Target(k, e) == p && p != h {
        WakeReaches(k, e, p, InnerLock);
      }
      CommitAt(k, e, p, InnerLock);
    } else {
      HolderOther(k, e, h);
    }
  }

  lemma {:induction false} SleepersOne(k: Kernel, e: Event, p: nat)
    requires Inv(k) && Enabled(k, e) && p < NPROC && Committed(At(k, e, p), InnerLock)
    ensures NewSl(k, e).locked ||
      (NewInner(k, e).Some? && At(k, e, NewInner(k, e).value).pc.RelWake? && At(k, e, NewInner(k, e).value).pc.j <= p)
  {
    hide P, Locals, Enabled, NewA, NewT, Target, Tree, Orphans, Children, Scans, Pids, History, Holding, Waits,
      ParentWoken, Holders, NewInner, Committed;
    Facts(k, e);
    KindOf(k.procs, e.p);
    EffectsLock(k, e);
    if Committed(P(k.procs, p), InnerLock) {
      assert k.sl.locked || ExcusedL(k.procs, k.inner, p);
      hide Sleepers;
      if !k.sl.locked { ReleaseLasts(k, e, p); }
    } else {
      CommitInner(k, e, p);
    }
  }

  lemma {:induction false} CommitInner(k: Kernel, e: Event, q: nat)
    requires EffectT(k, e) && Enabled(k, e) && EffectA(k, e)
    requires !Committed(P(k.procs, q), InnerLock) && Committed(At(k, e, q), InnerLock)
    ensures e.AcqTest? && k.sl.locked
  {
    hide P, NewA, NewT, Target, Enabled;
  }

  lemma {:induction false} KeepSleepers(k: Kernel, e: Event)
    requires Inv(k) && Enabled(k, e)
    ensures Sleepers(Next(k, e).procs, Next(k, e).inner, Next(k, e).sl)
  {
    hide P, Locals, Enabled, At, NewInner, NewSl, Tree, Children, Orphans, Scans, Waits, ParentWoken, History,
      Sleepers, Pids, Holding, Committed;
    NextAt(k, e);
    KeepHolders(k, e);
    var k' := Next(k, e);
    assert k'.inner == NewInner(k, e) && k'.sl == NewSl(k, e) && (k'.inner.Some? ==> k'.inner.value < NPROC);
    hide Next, Holders;
    forall p: nat | p < NPROC && Committed(P(k'.procs, p), InnerLock)
      ensures k'.sl.locked || ExcusedL(k'.procs, k'.inner, p)
    {
      SleepersOne(k, e, p);
    }
    SleepersJoin(k'.procs, k'.inner, k'.sl);
  }

  lemma {:induction false} SleepersJoin(ps: seq<Proc>, inner: Option<nat>, sl: SleepLock)
    requires forall p: nat :: p < NPROC && Committed(P(ps, p), InnerLock) ==> sl.locked || ExcusedL(ps, inner, p)
    ensures Sleepers(ps, inner, sl)
  {
    hide P, Committed;
  }

  // ----- every run -----

  lemma {:induction false} NextInv(k: Kernel, e: Event)
    requires Inv(k) && Enabled(k, e)
    ensures Inv(Next(k, e))
  {
    hide Locals, Enabled, Next, Holders, Tree, Children, Orphans, Scans, Waits, ParentWoken, History, Sleepers,
      Pids, Holding, P;
    NextAt(k, e);
    KeepLocals(k, e);
    KeepHolders(k, e);
    KeepTree(k, e);
    KeepOrphans(k, e);
    KeepChildren(k, e);
    KeepScans(k, e);
    KeepWaits(k, e);
    KeepParentWoken(k, e);
    KeepPids(k, e);
    KeepHistory(k, e);
    KeepSleepers(k, e);
    KeepHolding(k, e);
  }

  /** Slot i at boot. */
  function AtBoot(i: nat): Proc { if i == INIT then FREE.(state := RUNNABLE, pid := 1, pc := Fresh) else FREE }

  lemma {:induction false} BootAt()
    ensures |Boot().procs| == NPROC && forall i: nat :: i < NPROC ==> P(Boot().procs, i) == AtBoot(i)
  {
  }

  lemma {:induction false} BootTree(ps: seq<Proc>)
    requires forall i: nat :: i < NPROC ==> P(ps, i) == AtBoot(i)
    ensures Locals(ps) && Holders(ps, None, None) && Tree(ps) && Orphans(ps) && Children(ps)
  {
    hide P;
  }

  lemma {:induction false} BootRest(ps: seq<Proc>)
    requires forall i: nat :: i < NPROC ==> P(ps, i) == AtBoot(i)
    ensures Scans(ps) && Waits(ps, None) && ParentWoken(ps) && Pids(ps, 2) && History(ps, 2, map[], map[])
    ensures Sleepers(ps, None, SleepLock(false, 0)) && Holding(ps, SleepLock(false, 0))
  {
    hide P;
  }

  lemma {:induction false} BootInv()
    ensures Inv(Boot())
  {
    BootAt();
    hide P, Locals, Holders, Tree, Children, Orphans, Scans, Waits, ParentWoken, History, Sleepers, Pids, Holding,
      AtBoot;
    BootTree(Boot().procs);
    BootRest(Boot().procs);
  }

  lemma {:induction false} RunInv(evs: seq<Event>)
    requires Legal(evs)
    ensures Inv(RunAll(evs))
    decreases |evs|
  {
    hide Inv, Next, Enabled;
    if evs == [] {
      BootInv();
    } else {
      RunInv(evs[..|evs| - 1]);
      NextInv(RunAll(evs[..|evs| - 1]), evs[|evs| - 1]);
    }
  }

  /**
   In every run: a parent is a process that has not exited, and every process but init
   that has begun to run has one.
   */
  lemma {:induction false} NoDeadParent(evs: seq<Event>, i: nat)
    requires Legal(evs) && i < NPROC
    ensures var ps := RunAll(evs).procs;
      && (P(ps, i).parent.Some? ==> P(ps, i).parent.value < NPROC && P(ps, i).parent.value != i)
      && (P(ps, i).parent.Some? ==>
            !P(ps, P(ps, i).parent.value).state.UNUSED? && !P(ps, P(ps, i).parent.value).state.USED? &&
              !P(ps, P(ps, i).parent.value).state.ZOMBIE?)
      && (!P(ps, i).state.UNUSED? && !P(ps, i).state.USED? && i != INIT ==> P(ps, i).parent.Some?)
  {
    hide P, Legal, RunAll, Holders, Children, Orphans, Scans, Waits, ParentWoken, History, Sleepers, Pids, Holding;
    RunInv(evs);
    var ps := RunAll(evs).procs;
    assert P(ps, i).parent.Some? ==> GoodParent(ps, i, P(ps, i).parent.value);
    KindOf(ps, i);
    if P(ps, i).parent.Some? { KindOf(ps, P(ps, i).parent.value); }
    assert Local(P(ps, i), i);
    hide Tree, Locals;
  }

  /** In every run: while wait_lock is free, no process that sleeps in wait, or is bound to, has a zombie child. */
  lemma {:induction false} NoZombieMissed(evs: seq<Event>, q: nat, z: nat)
    requires Legal(evs) && q < NPROC && z < NPROC && RunAll(evs).waitLock.None?
    requires Committed(P(RunAll(evs).procs, q), WaitLock) && P(RunAll(evs).procs, z).parent == Some(q)
    ensures !P(RunAll(evs).procs, z).state.ZOMBIE?
  {
    hide P, Legal, RunAll, Locals, Tree, Holders, Children, Orphans, Scans, ParentWoken, History, Sleepers, Pids,
      Holding, Committed;
    RunInv(evs);
  }

  /** What wait reaps is off every CPU, was never reaped before, and yields the status its process gave to exit. */
  lemma {:induction false} ReapSafe(evs: seq<Event>, p: nat)
    requires Legal(evs) && Enabled(RunAll(evs), Reap(p))
    ensures var k := RunAll(evs);
      var z := P(k.procs, Target(k, Reap(p)));
      && z.parent == Some(p) && !z.onCpu && z.pc.Dead?
      && z.pid !in k.reaps && z.pid in k.exits && k.exits[z.pid] == z.xstate
      && Next(k, Reap(p)).reaps == k.reaps[z.pid := z.xstate]
  {
    hide P, Legal, RunAll, Tree, Holders, Children, Orphans, Scans, Waits, ParentWoken, Sleepers, Pids, Holding;
    RunInv(evs);
    var k := RunAll(evs);
    assert Local(P(k.procs, Target(k, Reap(p))), Target(k, Reap(p)));
    hide Locals;
  }

  /** No exit is lost: until its pid is reaped, a zombie with its status and a living parent stands in the table. */
  lemma {:induction false} NoExitLost(evs: seq<Event>, pid: nat)
    requires Legal(evs) && pid in RunAll(evs).exits && pid !in RunAll(evs).reaps
    ensures exists z: nat ::
      z < NPROC && Stands(P(RunAll(evs).procs, z), pid, RunAll(evs).exits[pid]) && P(RunAll(evs).procs, z).parent.Some?
  {
    hide P, Legal, RunAll, Tree, Holders, Children, Orphans, Scans, Waits, ParentWoken, Sleepers, Pids, Holding;
    RunInv(evs);
    var k := RunAll(evs);
    var z: nat :| z < NPROC && Stands(P(k.procs, z), pid, k.exits[pid]);
    assert Local(P(k.procs, z), z);
    hide Locals, History;
  }

  /** wait returns -1 for want of children only if there are none. */
  lemma {:induction false} NoChildren(evs: seq<Event>, p: nat, z: nat)
    requires Legal(evs) && p < NPROC && z < NPROC
    requires Enabled(RunAll(evs), ScanGiveUp(p)) && !P(RunAll(evs).procs, p).killed
    ensures P(RunAll(evs).procs, z).parent != Some(p)
  {
    hide P, Legal, RunAll, Tree, Holders, Children, Orphans, Waits, ParentWoken, Sleepers, Pids, Holding, Locals,
      History;
    RunInv(evs);
    var ps := RunAll(evs).procs;
    assert Scanned(P(ps, p).pc, z);
  }

  /**
   No wakeup of the sleep lock is lost: with the inner lock free, whoever sleeps on it or
   is bound to finds it held.
   */
  lemma {:induction false} NoLostWakeup(evs: seq<Event>, p: nat)
    requires Legal(evs) && p < NPROC && RunAll(evs).inner.None? && Committed(P(RunAll(evs).procs, p), InnerLock)
    ensures RunAll(evs).sl.locked && exists h: nat :: h < NPROC && P(RunAll(evs).procs, h).has
  {
    hide P, Legal, RunAll, Tree, Holders, Children, Orphans, Scans, Waits, ParentWoken, Pids, Locals, History,
      Committed;
    RunInv(evs);
  }

  /** At most one process is between acquiresleep and releasesleep, and it is the one the lock names. */
  lemma {:induction false} MutualExclusion(evs: seq<Event>, p: nat, q: nat)
    requires Legal(evs) && p < NPROC && q < NPROC && P(RunAll(evs).procs, p).has
    ensures RunAll(evs).sl == SleepLock(true, P(RunAll(evs).procs, p).pid)
    ensures P(RunAll(evs).procs, q).has ==> q == p
  {
    hide P, Legal, RunAll, Tree, Holders, Children, Orphans, Scans, Waits, ParentWoken, Pids, Locals, History, Sleepers;
    RunInv(evs);
  }

  /**
   The scheduler never picks a process that is still on a CPU, and none of sched's panics
   about the process can fire.
   */
  lemma {:induction false} OneCpu(evs: seq<Event>, p: nat)
    requires Legal(evs)
    ensures Enabled(RunAll(evs), Run(p)) ==> !P(RunAll(evs).procs, p).onCpu
    ensures Enabled(RunAll(evs), Switch(p)) ==> P(RunAll(evs).procs, p).onCpu && P(RunAll(evs).procs, p).locked
    ensures Enabled(RunAll(evs), Switch(p)) ==> !P(RunAll(evs).procs, p).state.RUNNING?
  {
    hide P, Legal, RunAll, Tree, Holders, Children, Orphans, Scans, Waits, ParentWoken, Pids, History, Sleepers,
      Holding;
    RunInv(evs);
    assert p < NPROC ==> Local(P(RunAll(evs).procs, p), p);
    hide Locals;
  }

  /** No two processes share a pid, and none has pid 0: a pid names at most one process. */
  lemma {:induction false} UniquePids(evs: seq<Event>, i: nat, j: nat)
    requires Legal(evs) && i < NPROC && j < NPROC && i != j && !P(RunAll(evs).procs, i).state.UNUSED?
    ensures P(RunAll(evs).procs, i).pid != 0
    ensures !P(RunAll(evs).procs, j).state.UNUSED? ==> P(RunAll(evs).procs, i).pid != P(RunAll(evs).procs, j).pid
  {
    hide P, Legal, RunAll, Tree, Holders, Children, Orphans, Scans, Waits, ParentWoken, History, Sleepers, Holding,
      Locals;
    RunInv(evs);
  }

  // ----- who is marked killed -----

  /** The step ends with freeproc on slot z: in wait, or in a fork that failed. */
  predicate Frees(k: Kernel, e: Event, z: nat) { (e.Reap? || e.ForkFail?) && Target(k, e) == z }

  /** Since slot z was last freed, kill has hit it or its process has marked itself. */
  predicate Struck(evs: seq<Event>, z: nat)
    requires Legal(evs)
  {
    evs != [] && (
      var front, e := evs[..|evs| - 1], evs[|evs| - 1];
      if Frees(RunAll(front), e, z) then false
      else ((e.Kill? || e.MarkKilled?) && e.p == z) || Struck(front, z))
  }

  /** Since slot z was last freed, kill(0) has hit it. */
  predicate ZeroStruck(evs: seq<Event>, z: nat)
    requires Legal(evs)
  {
    evs != [] && (
      var front, e := evs[..|evs| - 1], evs[|evs| - 1];
      if Frees(RunAll(front), e, z) then false else e == Kill(z, 0) || ZeroStruck(front, z))
  }

  lemma {:induction false} KilledA(k: Kernel, e: Event)
    requires Enabled(k, e)
    ensures NewA(k, e).killed == (e.Kill? || e.MarkKilled? || P(k.procs, e.p).killed)
  {
    hide P;
  }

  lemma {:induction false} KilledT(k: Kernel, e: Event)
    ensures NewT(k, e).killed == (!e.Reap? && !e.ForkFail? && P(k.procs, Target(k, e)).killed)
    ensures e.Kill? || e.MarkKilled? ==> Target(k, e) == e.p
  {
    hide P;
  }

  lemma {:induction false} KilledStep(k: Kernel, e: Event, z: nat)
    requires Inv(k) && Enabled(k, e) && z < NPROC
    ensures At(k, e, z).killed ==
      (!Frees(k, e, z) && (((e.Kill? || e.MarkKilled?) && e.p == z) || P(k.procs, z).killed))
  {
    hide P, Locals, Holders, Children, Orphans, Scans, Waits, ParentWoken, History, Sleepers, Pids, Holding,
      Enabled, NewA, NewT, Target;
    assert P(k.procs, z).parent.Some? ==> GoodParent(k.procs, z, P(k.procs, z).parent.value);
    hide Tree;
    Guards(k, e);
    KindOf(k.procs, e.p);
    KilledA(k, e);
    KilledT(k, e);
  }

  /** In every run: exactly the slots that were struck since they were last freed are marked. */
  lemma {:induction false} KilledExactly(evs: seq<Event>, z: nat)
    requires Legal(evs) && z < NPROC
    ensures P(RunAll(evs).procs, z).killed <==> Struck(evs, z)
    decreases |evs|
  {
    if evs == [] {
      BootAt();
    } else {
      hide Enabled, Next, Inv, P;
      var front, e := evs[..|evs| - 1], evs[|evs| - 1];
      KilledExactly(front, z);
      RunInv(front);
      InvSize(RunAll(front));
      NextAt(RunAll(front), e);
      KilledStep(RunAll(front), e, z);
      hide At, Frees;
    }
  }

  lemma {:induction false} InvSize(k: Kernel)
    requires Inv(k)
    ensures |k.procs| == NPROC
  {
  }

  lemma {:induction false} UnusedStep(k: Kernel, e: Event, z: nat)
    requires Inv(k) && Enabled(k, e) && z < NPROC && At(k, e, z).state.UNUSED?
    requires P(k.procs, z).state.UNUSED? ==> P(k.procs, z).pid == 0
    ensures At(k, e, z).pid == 0
    ensures Frees(k, e, z) || (P(k.procs, z).state.UNUSED? &&
      ((e.Kill? || e.MarkKilled?) && e.p == z ==> e == Kill(z, 0)))
  {
    hide P, Holders, Children, Orphans, Scans, Waits, ParentWoken, History, Sleepers, Pids, Holding, Tree,
      Locals, Enabled, NewA, NewT, Target;
    Facts(k, e);
    KindOf(k.procs, z);
  }

  /**
   In every run: a slot that is not in use has pid 0, and it is marked exactly if kill(0)
   hit it since it was last freed.
   */
  lemma {:induction false} UnusedMarked(evs: seq<Event>, z: nat)
    requires Legal(evs) && z < NPROC && P(RunAll(evs).procs, z).state.UNUSED?
    ensures P(RunAll(evs).procs, z).pid == 0
    ensures P(RunAll(evs).procs, z).killed <==> ZeroStruck(evs, z)
  {
    KilledExactly(evs, z);
    UnusedStruck(evs, z);
  }

  lemma {:induction false} UnusedStruck(evs: seq<Event>, z: nat)
    requires Legal(evs) && z < NPROC && P(RunAll(evs).procs, z).state.UNUSED?
    ensures P(RunAll(evs).procs, z).pid == 0 && (Struck(evs, z) <==> ZeroStruck(evs, z))
    decreases |evs|
  {
    if evs == [] {
      BootAt();
    } else {
      hide Enabled, Next, Inv, P;
      var front, e := evs[..|evs| - 1], evs[|evs| - 1];
      if P(RunAll(front).procs, z).state.UNUSED? { UnusedStruck(front, z); }
      RunInv(front);
      InvSize(RunAll(front));
      NextAt(RunAll(front), e);
      UnusedStep(RunAll(front), e, z);
      hide At, Frees;
    }
  }

  /** A process starts killed exactly if kill(0) hit its slot since the slot was last freed. */
  lemma {:induction false} BornKilled(evs: seq<Event>, p: nat, np: nat)
    requires Legal(evs) && Enabled(RunAll(evs), ForkAlloc(p, np))
    ensures P(Next(RunAll(evs), ForkAlloc(p, np)).procs, np).killed <==> ZeroStruck(evs, np)
    ensures (forall i :: 0 <= i < |evs| ==> !(evs[i].Kill? && evs[i].pid == 0)) ==>
      !P(Next(RunAll(evs), ForkAlloc(p, np)).procs, np).killed
  {
    var k, e := RunAll(evs), ForkAlloc(p, np);
    UnusedMarked(evs, np);
    RunInv(evs);
    InvSize(k);
    NextAt(k, e);
    KilledStep(k, e, np);
    if forall i :: 0 <= i < |evs| ==> !(evs[i].Kill? && evs[i].pid == 0) { NeverZero(evs, np); }
    hide RunAll, Legal, Inv, P;
  }

  lemma {:induction false} NeverZero(evs: seq<Event>, z: nat)
    requires Legal(evs) && forall i :: 0 <= i < |evs| ==> !(evs[i].Kill? && evs[i].pid == 0)
    ensures !ZeroStruck(evs, z)
  {
    if evs != [] {
      NeverZero(evs[..|evs| - 1], z);
      hide Enabled, Next;
      assert !(evs[|evs| - 1].Kill? && evs[|evs| - 1].pid == 0);
    }
  }

  const KILLZERO: seq<Event> := [Run(INIT), Resume(INIT), Kill(1, 0),
    ForkAlloc(INIT, 1), ForkParent(INIT), ForkReady(INIT)]

  lemma {:induction false} Extend(evs: seq<Event>, e: Event)
    requires Legal(evs) && Enabled(RunAll(evs), e)
    ensures Legal(evs + [e]) && RunAll(evs + [e]) == Next(RunAll(evs), e)
  {
    hide Enabled, Next;
    assert (evs + [e])[..|evs + [e]| - 1] == evs;
  }

  /** A kernel whose first two slots hold x and y, with wait_lock free. */
  predicate Pair(k: Kernel, x: Proc, y: Proc, n: nat) {
    |k.procs| == NPROC && P(k.procs, 0) == x && P(k.procs, 1) == y && k.waitLock.None? && k.nextpid == n
  }

  lemma {:induction false} PairStep(evs: seq<Event>, e: Event, x: Proc, y: Proc, n: nat, x': Proc, y': Proc, n': nat)
    requires Legal(evs) && Pair(RunAll(evs), x, y, n) && Enabled(RunAll(evs), e)
    requires At(RunAll(evs), e, 0) == x' && At(RunAll(evs), e, 1) == y' && NewWait(RunAll(evs), e).None?
    requires n' == if e.ForkAlloc? || e.ForkFail? then n + 1 else n
    ensures Legal(evs + [e]) && Pair(RunAll(evs + [e]), x', y', n')
  {
    var k := RunAll(evs);
    Extend(evs, e);
    hide Legal, RunAll, Enabled, At, P;
    NextAt(k, e);
  }

  const BORN: Proc := FREE.(state := USED, pid := 2, killed := true)
  const AWAKE: Proc := FREE.(state := RUNNING, pid := 1, pc := User, onCpu := true)

  lemma {:induction false} KillZeroHits()
    ensures Legal(KILLZERO[..3]) && Pair(RunAll(KILLZERO[..3]), AWAKE, FREE.(killed := true), 2)
  {
    var x0 := AtBoot(INIT);
    var x1 := AWAKE.(pc := Resumed(User), locked := true);
    BootAt();
    assert Pair(RunAll([]), x0, FREE, 2);
    hide Legal, RunAll;
    PairStep([], Run(INIT), x0, FREE, 2, x1, FREE, 2);
    var a := [] + [Run(INIT)];
    PairStep(a, Resume(INIT), x1, FREE, 2, AWAKE, FREE, 2);
    var b := a + [Resume(INIT)];
    PairStep(b, Kill(1, 0), AWAKE, FREE, 2, AWAKE, FREE.(killed := true), 2);
    assert b + [Kill(1, 0)] == KILLZERO[..3];
  }

  /**
   kill(0) succeeds on the first unused slot, and the next process to get the slot is
   ready to run and already killed.
   */
  lemma {:induction false} KillZeroStrikes()
    ensures Legal(KILLZERO)
    ensures var x := P(RunAll(KILLZERO).procs, 1); x.state.RUNNABLE? && x.pc.Fresh? && x.pid == 2 && x.killed
  {
    hide Legal, RunAll;
    KillZeroHits();
    var a := KILLZERO[..3];
    PairStep(a, ForkAlloc(INIT, 1), AWAKE, FREE.(killed := true), 2, AWAKE.(pc := Forking(1)), BORN, 3);
    var b := a + [ForkAlloc(INIT, 1)];
    var y := BORN.(parent := Some(INIT));
    PairStep(b, ForkParent(INIT), AWAKE.(pc := Forking(1)), BORN, 3, AWAKE.(pc := Forked(1)), y, 3);
    var c := b + [ForkParent(INIT)];
    PairStep(c, ForkReady(INIT), AWAKE.(pc := Forked(1)), y, 3, AWAKE, y.(state := RUNNABLE, pc := Fresh), 3);
    assert c + [ForkReady(INIT)] == KILLZERO;
  }
}
