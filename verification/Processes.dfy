/** The process protocol of kernel/proc.c and kernel/sleeplock.c as a step
    relation: process threads, per-CPU schedulers and interrupt handlers interleave
    at every lock operation and every context switch. */
module Processes {
  datatype Opt<T> = None | Some(v: T)

  datatype PState = UNUSED | USED | SLEEPING | RUNNABLE | RUNNING | ZOMBIE

  /** Sleep channels: a process (used by `kwait`), or one of the addresses that
      belong to a kernel object and are guarded by its lock. */
  datatype Chan = ProcChan(p: nat) | Obj(c: nat, key: nat)

  datatype Lock = WaitLock | ProcLock(p: nat) | CondLock(c: nat)

  /** The condition lock that all sleepers on a channel use; one lock may serve many channels. */
  function LockOf(ch: Chan): Lock {
    if ch.ProcChan? then WaitLock else CondLock(ch.c)
  }

  /** What a thread that holds CondLock(c) is about to do. */
  datatype Use = Acquiring | Releasing | Done | Generic

  /** Where `wakeup` returns to. */
  datatype Ret = ToReparent(status: int, j: nat) | ToExitLock(status: int) | ToCond(c: nat)

  /** Where a thread without spinlocks can be when the timer makes it yield. */
  datatype Point = InUser | InForkMade(np: nat) | InForkLinked(np: nat) | InSleepBack(ch: Chan)

  /** Where the kernel thread of a process is. */
  datatype Pc =
    | Nothing                                  // no thread
    | ForkRet | Yielded(at: Point) | Asleep(ch: Chan) // in swtch, or just switched to
    | Dead                                     // in swtch for ever
    | User                                     // holds no spinlock
    | YieldHas(at: Point)                      // yield: p->lock held
    | ForkHas(np: nat)                         // allocproc: np->lock held
    | ForkMade(np: nat)                        // np is USED, its lock released
    | ForkParent(np: nat)                      // wait_lock held
    | ForkLinked(np: nat)                      // parent set, wait_lock released
    | ForkRun(np: nat)                         // np->lock held again
    | Reparent(status: int, j: nat)            // kexit: wait_lock held, at table entry j
    | ExitLock(status: int)                    // about to acquire p->lock
    | ExitSet(status: int)                     // both locks held
    | ExitRel                                  // ZOMBIE, about to release wait_lock
    | ExitSched                                // about to call sched
    | WaitScan(j: nat, kids: bool)             // kwait: wait_lock held, at table entry j
    | WaitHas(j: nat, kids: bool)              // and holds the lock of child j
    | WaitEnd                                  // about to release wait_lock and return
    | SleepStart(ch: Chan)                     // sleep: lk held
    | SleepRel(ch: Chan)                       // lk and p->lock held
    | SleepSet(ch: Chan)                       // p->lock held, lk released
    | SleepBack(ch: Chan)                      // awake, about to acquire lk
    | Wake(ch: Chan, k: nat, ret: Ret)         // wakeup at table entry k, lk held
    | WakeHas(ch: Chan, k: nat, ret: Ret)      // and holds the lock of process k
    | Cond(c: nat, u: Use)                     // holds CondLock(c)
    | KillHas(j: nat)                          // kkill: holds the lock of process j

  /** `on` is the CPU that runs the thread, `mine` the sleep-locks it holds, and
      `maker` the process that is forking it. */
  datatype Proc = Proc(state: PState, chan: Opt<Chan>, pid: nat, parent: Opt<nat>, xstate: int,
                       pc: Pc, on: Opt<nat>, mine: set<nat>, maker: Opt<nat>)

  /** A CPU in its scheduler or running a process, or the interrupt handlers of a
      CPU: holding CondLock(c), in `wakeup` at a table entry, holding the lock of
      that process as well. */
  datatype Cpu = Idle | Looking(p: nat) | Running(p: nat) | Back(p: nat)
               | Handling(c: nat) | HandlerWakes(ch: Chan, k: nat) | HandlerHas(ch: Chan, k: nat)

  /** The status of a process that called `kexit`, and its table entry. */
  datatype Exited = Exited(status: int, slot: nat)

  /** `held` gives the CPU that holds a spinlock. Sleep-locks are the objects
      below `nsl`; `exits` and `reaps` record the process ids that called `kexit`
      and the status that `kwait` returned for each. */
  datatype Sys = Sys(procs: seq<Proc>, cpus: seq<Cpu>, held: map<Lock, nat>, nextpid: nat,
                     nsl: nat, locked: seq<bool>, lkpid: seq<nat>,
                     exits: map<nat, Exited>, reaps: map<nat, int>)

  const INIT: nat := 0

  const Unused := Proc(UNUSED, None, 0, None, 0, Nothing, None, {}, None)

  /** After `userinit`, before any CPU has entered its scheduler loop. */
  ghost predicate Start(s: Sys) {
    && |s.procs| > 0 && s.procs[INIT] == Proc(RUNNABLE, None, 1, None, 0, ForkRet, None, {}, None)
    && (forall i :: 0 < i < |s.procs| ==> s.procs[i] == Unused)
    && (forall c :: 0 <= c < |s.cpus| ==> s.cpus[c] == Idle)
    && s.held == map[] && s.nextpid == 2 && |s.locked| == |s.lkpid| == s.nsl
    && (forall c :: 0 <= c < s.nsl ==> !s.locked[c] && s.lkpid[c] == 0)
    && s.exits == map[] && s.reaps == map[]
  }

  // ---- elementary updates

  function Put(s: Sys, i: nat, p: Proc): Sys
    requires i < |s.procs|
  {
    s.(procs := s.procs[i := p])
  }

  function Go(s: Sys, i: nat, pc: Pc): Sys
    requires i < |s.procs|
  {
    Put(s, i, s.procs[i].(pc := pc))
  }

  function Acquire(s: Sys, i: nat, l: Lock, pc: Pc): Sys
    requires i < |s.procs| && s.procs[i].on.Some?
  {
    Go(s.(held := s.held[l := s.procs[i].on.v]), i, pc)
  }

  function Release(s: Sys, i: nat, l: Lock, pc: Pc): Sys
    requires i < |s.procs|
  {
    Go(s.(held := s.held - {l}), i, pc)
  }

  /** `sched`: the thread stops and its CPU is back in the scheduler, which holds p->lock. */
  function Switch(s: Sys, i: nat, p: Proc): Sys
    requires i < |s.procs| && s.procs[i].on.Some? && s.procs[i].on.v < |s.cpus|
  {
    Put(s.(cpus := s.cpus[s.procs[i].on.v := Back(i)]), i, p.(on := None))
  }

  // ---- the steps of a process thread

  datatype Act = Continue | Fail | Yield | Fork(np: nat) | Exit(status: int) | Wait | Use(c: nat, u: Use) | Kill(j: nat) | Sleep(key: nat) | WakeUp(key: nat)

  function AfterWake(s: Sys, ret: Ret): Pc {
    match ret
    case ToReparent(st, j) => Reparent(st, j)
    case ToExitLock(st) => ExitLock(st)
    case ToCond(c) => Cond(c, if c < s.nsl then Done else Generic)
  }

  function AfterSleep(s: Sys, ch: Chan): Pc {
    if ch.ProcChan? then WaitScan(0, false) else Cond(ch.c, if ch.c < s.nsl then Acquiring else Generic)
  }

  /** The kernel stack of a thread with interrupts on, which the timer may take off its CPU. */
  predicate LockFree(pc: Pc) {
    pc.User? || pc.ForkMade? || pc.ForkLinked? || pc.SleepBack?
  }

  function PointOf(pc: Pc): Point
    requires LockFree(pc)
  {
    match pc
    case User => InUser
    case ForkMade(np) => InForkMade(np)
    case ForkLinked(np) => InForkLinked(np)
    case SleepBack(ch) => InSleepBack(ch)
  }

  function Resume(at: Point): (pc: Pc)
    ensures LockFree(pc) && PointOf(pc) == at
  {
    match at
    case InUser => User
    case InForkMade(np) => ForkMade(np)
    case InForkLinked(np) => ForkLinked(np)
    case InSleepBack(ch) => SleepBack(ch)
  }

  /** The lock that the next step of process `i` has to wait for, if any. */
  function Wants(s: Sys, i: nat, a: Act): Opt<Lock>
    requires i < |s.procs|
  {
    if a == Yield && LockFree(s.procs[i].pc) then Some(ProcLock(i)) else
    match s.procs[i].pc
    case User =>
      (match a
       case Fork(np) => Some(ProcLock(np))
       case Exit(_) => Some(WaitLock)
       case Wait => Some(WaitLock)
       case Use(c, _) => Some(CondLock(c))
       case Kill(j) => Some(ProcLock(j))
       case _ => None)
    case ForkMade(_) => Some(WaitLock)
    case ForkLinked(np) => Some(ProcLock(np))
    case ExitLock(_) => Some(ProcLock(i))
    case WaitScan(j, _) => if j < |s.procs| && s.procs[j].parent == Some(i) then Some(ProcLock(j)) else None
    case SleepStart(_) => Some(ProcLock(i))
    case SleepBack(ch) => Some(LockOf(ch))
    case Wake(_, k, _) => if k < |s.procs| && k != i then Some(ProcLock(k)) else None
    case _ => None
  }

  /** The lock that the next step of process `i` only drops, if it is such a step. */
  function Drops(pc: Pc, i: nat): Opt<Lock> {
    match pc
    case ForkRet => Some(ProcLock(i))
    case Yielded(_) => Some(ProcLock(i))
    case ExitRel => Some(WaitLock)
    case WaitEnd => Some(WaitLock)
    case SleepRel(ch) => Some(LockOf(ch))
    case _ => None
  }

  /** What a thread without spinlocks starts to do, once it has the lock for it. */
  function Entry(a: Act): Pc {
    match a
    case Fork(np) => ForkHas(np)
    case Exit(st) => Reparent(st, 0)
    case Wait => WaitScan(0, false)
    case Use(c, u) => Cond(c, u)
    case Kill(j) => KillHas(j)
    case _ => User
  }

  /** The program counter after a step that only takes or drops a lock. */
  function NextPc(s: Sys, pc: Pc, a: Act): Pc {
    if a == Yield && LockFree(pc) then YieldHas(PointOf(pc)) else
    match pc
    case Yielded(at) => Resume(at)
    case User => Entry(a)
    case ForkMade(np) => ForkParent(np)
    case ForkLinked(np) => ForkRun(np)
    case ExitLock(st) => ExitSet(st)
    case WaitScan(j, kids) => WaitHas(j, kids)
    case SleepStart(ch) => SleepRel(ch)
    case SleepBack(ch) => AfterSleep(s, ch)
    case Wake(ch, k, ret) => WakeHas(ch, k, ret)
    case ExitRel => ExitSched
    case SleepRel(ch) => SleepSet(ch)
    case _ => User
  }

  /** What a thread without spinlocks can start to do. */
  predicate CanStart(s: Sys, i: nat, a: Act)
    requires i < |s.procs|
  {
    match a
    case Yield => true
    case Fork(np) => np < |s.procs|
    case Exit(_) => i != INIT
    case Wait => true
    case Use(c, u) => if c < s.nsl then u in {Acquiring, Done} || (u == Releasing && c in s.procs[i].mine) else u == Generic
    case Kill(j) => j < |s.procs|
    case _ => false
  }

  /** Process `i` can take step `a`. */
  predicate Can(s: Sys, i: nat, a: Act) {
    && i < |s.procs| && s.procs[i].on.Some? && s.procs[i].on.v < |s.cpus|
    && (Wants(s, i, a).Some? ==> Wants(s, i, a).v !in s.held)
    && match s.procs[i].pc
       case Nothing => false
       case Dead => false
       case User => CanStart(s, i, a)
       case ForkHas(np) => np < |s.procs| && (a == Continue ==> np != i && s.procs[np].state == UNUSED)
       case ForkMade(np) => np < |s.procs|
       case ForkParent(np) => np < |s.procs| && np != i
       case ForkLinked(np) => np < |s.procs|
       case ForkRun(np) => np < |s.procs| && np != i
       case WaitHas(j, _) => j < |s.procs| && j != i
       case WakeHas(_, k, _) => k < |s.procs| && k != i
       case Cond(c, u) => c < s.nsl ==> |s.locked| == |s.lkpid| == s.nsl
       case KillHas(j) => j < |s.procs|
       case _ => true
  }

  /** `allocproc`, all under np->lock: np is in use, or memory runs out and np is freed again, or np is made. */
  function ForkHasStep(s: Sys, i: nat, np: nat, a: Act): Sys
    requires i < |s.procs| && np < |s.procs|
  {
    var q := s.procs[np];
    var s1 := if q.state == UNUSED then s.(nextpid := s.nextpid + 1) else s;
    if a == Continue then
      Release(Put(s1, np, q.(state := USED, pid := s.nextpid, maker := Some(i))), i, ProcLock(np), ForkMade(np))
    else Release(s1, i, ProcLock(np), User)
  }

  function ForkRunStep(s: Sys, i: nat, np: nat): Sys
    requires i < |s.procs| && np < |s.procs|
  {
    Release(Put(s, np, s.procs[np].(state := RUNNABLE, pc := ForkRet, maker := None)), i, ProcLock(np), User)
  }

  /** One round of the loop of `reparent`, and after the last one the wakeup of the parent. */
  function ReparentStep(s: Sys, i: nat, st: int, j: nat): Sys
    requires i < |s.procs|
  {
    if j < |s.procs| then
      if s.procs[j].parent == Some(i) then
        Go(Put(s, j, s.procs[j].(parent := Some(INIT))), i, Wake(ProcChan(INIT), 0, ToReparent(st, j + 1)))
      else Go(s, i, Reparent(st, j + 1))
    else if s.procs[i].parent.Some? then Go(s, i, Wake(ProcChan(s.procs[i].parent.v), 0, ToExitLock(st)))
    else Go(s, i, ExitLock(st))
  }

  function ExitSetStep(s: Sys, i: nat, st: int): Sys
    requires i < |s.procs|
  {
    var p := s.procs[i];
    Put(s.(exits := s.exits[p.pid := Exited(st, i)]), i, p.(state := ZOMBIE, xstate := st, pc := ExitRel))
  }

  /** The loop of `kwait` at an entry that is no child, or at the end of the table. */
  function WaitScanStep(s: Sys, i: nat, j: nat, kids: bool, a: Act): Sys
    requires i < |s.procs|
  {
    if j < |s.procs| then Go(s, i, WaitScan(j + 1, kids))
    else if !kids || a == Fail then Go(s, i, WaitEnd) // no children, or killed
    else Go(s, i, SleepStart(ProcChan(i)))
  }

  function FreeProc(p: Proc): Proc {
    p.(state := UNUSED, chan := None, pid := 0, parent := None, xstate := 0, pc := Nothing, mine := {}, maker := None)
  }

  function WaitHasStep(s: Sys, i: nat, j: nat, kids: bool, a: Act): Sys
    requires i < |s.procs| && j < |s.procs|
  {
    var q := s.procs[j];
    if q.state != ZOMBIE then Release(s, i, ProcLock(j), WaitScan(j + 1, true))
    else if a == Fail then Release(s, i, ProcLock(j), WaitEnd) // copyout failed
    else Release(Put(s.(reaps := s.reaps[q.pid := q.xstate]), j, FreeProc(q)), i, ProcLock(j), WaitEnd)
  }

  /** The loop of `wakeup` at the caller itself, or at the end of the table. */
  function WakeStep(s: Sys, i: nat, ch: Chan, k: nat, ret: Ret): Sys
    requires i < |s.procs|
  {
    Go(s, i, if k >= |s.procs| then AfterWake(s, ret) else Wake(ch, k + 1, ret))
  }

  function Roused(p: Proc, ch: Chan): Proc {
    if p.state == SLEEPING && p.chan == Some(ch) then p.(state := RUNNABLE) else p
  }

  function WakeHasStep(s: Sys, i: nat, ch: Chan, k: nat, ret: Ret): Sys
    requires i < |s.procs| && k < |s.procs|
  {
    Release(Put(s, k, Roused(s.procs[k], ch)), i, ProcLock(k), Wake(ch, k + 1, ret))
  }

  function KillStep(s: Sys, i: nat, j: nat, a: Act): Sys
    requires i < |s.procs| && j < |s.procs|
  {
    var q := s.procs[j];
    var q' := if q.state == SLEEPING && a != Fail then q.(state := RUNNABLE) else q;
    Release(Put(s, j, q'), i, ProcLock(j), User)
  }

  /** A thread that holds the condition lock of an object which is no sleep-lock
      sleeps, wakes others, or lets go; `acquiresleep` and `releasesleep` test and
      set the sleep-lock. */
  function CondStep(s: Sys, i: nat, c: nat, u: Use, a: Act): Sys
    requires i < |s.procs| && (c < s.nsl ==> |s.locked| == |s.lkpid| == s.nsl)
  {
    var p := s.procs[i];
    if c >= s.nsl then
      if a.Sleep? then Go(s, i, SleepStart(Obj(c, a.key)))
      else if a.WakeUp? then Go(s, i, Wake(Obj(c, a.key), 0, ToCond(c)))
      else Release(s, i, CondLock(c), User)
    else if u == Acquiring then
      if s.locked[c] then Go(s, i, SleepStart(Obj(c, 0)))
      else Put(s.(locked := s.locked[c := true], lkpid := s.lkpid[c := p.pid]), i, p.(mine := p.mine + {c}, pc := Cond(c, Done)))
    else if u == Releasing then
      Put(s.(locked := s.locked[c := false], lkpid := s.lkpid[c := 0]), i, p.(mine := p.mine - {c}, pc := Wake(Obj(c, 0), 0, ToCond(c))))
    else Release(s, i, CondLock(c), User)
  }

  function Do(s: Sys, i: nat, a: Act): Sys
    requires Can(s, i, a)
  {
    var p := s.procs[i];
    if Wants(s, i, a).Some? then Acquire(s, i, Wants(s, i, a).v, NextPc(s, p.pc, a))
    else if Drops(p.pc, i).Some? then Release(s, i, Drops(p.pc, i).v, NextPc(s, p.pc, a))
    else
      match p.pc
      case Asleep(ch) => Release(Put(s, i, p.(chan := None)), i, ProcLock(i), SleepBack(ch))
      case YieldHas(at) => Switch(s, i, p.(state := RUNNABLE, pc := Yielded(at)))
      case ForkHas(np) => ForkHasStep(s, i, np, a)
      case ForkParent(np) => Release(Put(s, np, s.procs[np].(parent := Some(i))), i, WaitLock, ForkLinked(np))
      case ForkRun(np) => ForkRunStep(s, i, np)
      case Reparent(st, j) => ReparentStep(s, i, st, j)
      case ExitSet(st) => ExitSetStep(s, i, st)
      case ExitSched => Switch(s, i, p.(pc := Dead))
      case WaitScan(j, kids) => WaitScanStep(s, i, j, kids, a)
      case WaitHas(j, kids) => WaitHasStep(s, i, j, kids, a)
      case SleepSet(ch) => Switch(s, i, p.(chan := Some(ch), state := SLEEPING, pc := Asleep(ch)))
      case Wake(ch, k, ret) => WakeStep(s, i, ch, k, ret)
      case WakeHas(ch, k, ret) => WakeHasStep(s, i, ch, k, ret)
      case Cond(c, u) => CondStep(s, i, c, u, a)
      case KillHas(j) => KillStep(s, i, j, a)
      case _ => s
  }

  // ---- the steps of a scheduler

  datatype Pick = Pick(p: nat)

  predicate CanSchedule(s: Sys, c: nat, k: Pick) {
    && c < |s.cpus|
    && match s.cpus[c]
       case Idle => k.p < |s.procs| && ProcLock(k.p) !in s.held
       case Looking(p) => p < |s.procs|
       case Back(_) => true
       case _ => false
  }

  function Schedule(s: Sys, c: nat, k: Pick): Sys
    requires CanSchedule(s, c, k)
  {
    match s.cpus[c]
    case Idle => s.(cpus := s.cpus[c := Looking(k.p)], held := s.held[ProcLock(k.p) := c])
    case Looking(p) =>
      if s.procs[p].state == RUNNABLE then
        Put(s.(cpus := s.cpus[c := Running(p)]), p, s.procs[p].(state := RUNNING, on := Some(c)))
      else s.(cpus := s.cpus[c := Idle], held := s.held - {ProcLock(p)})
    case Back(p) => s.(cpus := s.cpus[c := Idle], held := s.held - {ProcLock(p)})
    case _ => s
  }

  // ---- the steps of an interrupt handler

  datatype Irq = Enter(c: nat) | WakeUp(key: nat) | Leave

  /** An interrupt handler takes the lock of an object that is no sleep-lock, wakes
      sleepers on any of its channels, and leaves. It runs on a CPU that holds no
      spinlock. One that interrupts a process has an entry in `cpus` of its own:
      it touches nothing of that process, which merely takes no step meanwhile. */
  predicate CanHandle(s: Sys, c: nat, q: Irq) {
    && c < |s.cpus|
    && match s.cpus[c]
       case Idle => q.Enter? && q.c >= s.nsl && CondLock(q.c) !in s.held
       case Handling(_) => !q.Enter?
       case HandlerWakes(_, k) => k < |s.procs| ==> ProcLock(k) !in s.held
       case HandlerHas(_, k) => k < |s.procs|
       case _ => false
  }

  function Handle(s: Sys, c: nat, q: Irq): Sys
    requires CanHandle(s, c, q)
  {
    match s.cpus[c]
    case Idle => s.(cpus := s.cpus[c := Handling(q.c)], held := s.held[CondLock(q.c) := c])
    case Handling(o) =>
      if q.WakeUp? then s.(cpus := s.cpus[c := HandlerWakes(Obj(o, q.key), 0)])
      else s.(cpus := s.cpus[c := Idle], held := s.held - {CondLock(o)})
    case HandlerWakes(ch, k) =>
      if k < |s.procs| then s.(cpus := s.cpus[c := HandlerHas(ch, k)], held := s.held[ProcLock(k) := c])
      else s.(cpus := s.cpus[c := Handling(if ch.Obj? then ch.c else 0)])
    case HandlerHas(ch, k) =>
      Put(s.(cpus := s.cpus[c := HandlerWakes(ch, k + 1)], held := s.held - {ProcLock(k)}), k, Roused(s.procs[k], ch))
    case _ => s
  }

  ghost predicate Step(s: Sys, s': Sys) {
    || (exists i, a :: Can(s, i, a) && s' == Do(s, i, a))
    || (exists c, k :: CanSchedule(s, c, k) && s' == Schedule(s, c, k))
    || (exists c, q :: CanHandle(s, c, q) && s' == Handle(s, c, q))
  }
}
