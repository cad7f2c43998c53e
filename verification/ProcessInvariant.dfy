/** The invariant of the process protocol. */
module ProcessInvariant {
  import opened Processes

  // ---- who holds which spinlock

  function PcLocks(pc: Pc, i: nat): set<Lock> {
    match pc
    case ForkRet => {ProcLock(i)}
    case Yielded(_) => {ProcLock(i)}
    case Asleep(_) => {ProcLock(i)}
    case YieldHas(_) => {ProcLock(i)}
    case ForkHas(np) => {ProcLock(np)}
    case ForkParent(_) => {WaitLock}
    case ForkRun(np) => {ProcLock(np)}
    case Reparent(_, _) => {WaitLock}
    case ExitLock(_) => {WaitLock}
    case ExitSet(_) => {WaitLock, ProcLock(i)}
    case ExitRel => {WaitLock, ProcLock(i)}
    case ExitSched => {ProcLock(i)}
    case WaitScan(_, _) => {WaitLock}
    case WaitHas(j, _) => {WaitLock, ProcLock(j)}
    case WaitEnd => {WaitLock}
    case SleepStart(ch) => {LockOf(ch)}
    case SleepRel(ch) => {LockOf(ch), ProcLock(i)}
    case SleepSet(_) => {ProcLock(i)}
    case Wake(ch, _, _) => {LockOf(ch)}
    case WakeHas(ch, k, _) => {LockOf(ch), ProcLock(k)}
    case Cond(c, _) => {CondLock(c)}
    case KillHas(j) => {ProcLock(j)}
    case _ => {}
  }

  function CpuLocks(s: Sys, c: nat): set<Lock>
    requires c < |s.cpus|
  {
    match s.cpus[c]
    case Idle => {}
    case Looking(p) => {ProcLock(p)}
    case Back(p) => {ProcLock(p)}
    case Running(p) => if p < |s.procs| then PcLocks(s.procs[p].pc, p) else {}
    case Handling(o) => {CondLock(o)}
    case HandlerWakes(ch, _) => {LockOf(ch)}
    case HandlerHas(ch, k) => {LockOf(ch), ProcLock(k)}
  }

  predicate CpuBound(s: Sys, c: nat)
    requires c < |s.cpus|
  {
    match s.cpus[c]
    case Idle => true
    case Looking(p) => p < |s.procs|
    case Running(p) => p < |s.procs| && s.procs[p].on == Some(c)
    case Back(p) => p < |s.procs| && s.procs[p].on == None && s.procs[p].pc != Nothing
    case Handling(o) => o >= s.nsl
    case HandlerWakes(ch, _) => ch.Obj? && ch.c >= s.nsl
    case HandlerHas(ch, k) => ch.Obj? && ch.c >= s.nsl && k < |s.procs|
  }

  predicate OnBound(s: Sys, i: nat)
    requires i < |s.procs|
  {
    s.procs[i].on.Some? ==> s.procs[i].on.v < |s.cpus| && s.cpus[s.procs[i].on.v] == Running(i)
  }

  /** A process runs on at most one CPU, and CPU and process agree about it. */
  ghost predicate Bound(s: Sys) {
    && (forall c :: 0 <= c < |s.cpus| ==> CpuBound(s, c))
    && (forall i :: 0 <= i < |s.procs| ==> OnBound(s, i))
  }

  predicate HeldOk(s: Sys, l: Lock) {
    l in s.held ==> s.held[l] < |s.cpus| && l in CpuLocks(s, s.held[l])
  }

  predicate CpuHolds(s: Sys, c: nat)
    requires c < |s.cpus|
  {
    forall l :: l in CpuLocks(s, c) ==> l in s.held && s.held[l] == c
  }

  /** The spinlocks held are exactly those that the program counters say. */
  ghost predicate LocksOk(s: Sys) {
    && (forall l :: HeldOk(s, l))
    && (forall c :: 0 <= c < |s.cpus| ==> CpuHolds(s, c))
  }

  // ---- processes

  predicate Alive(st: PState) {
    st == SLEEPING || st == RUNNABLE || st == RUNNING
  }

  predicate StateFits(p: Proc) {
    if p.on.Some? then
      p.pc != Nothing && p.pc != Dead && p.state == if p.pc.ExitRel? || p.pc.ExitSched? then ZOMBIE else RUNNING
    else
      match p.pc
      case Nothing => p.state == UNUSED || p.state == USED
      case ForkRet => p.state == RUNNABLE
      case Yielded(_) => p.state == RUNNABLE
      case Asleep(_) => p.state == SLEEPING || p.state == RUNNABLE
      case Dead => p.state == ZOMBIE
      case _ => false
  }

  /** Where a thread is, looking through a `yield`. */
  function Doing(pc: Pc): Pc {
    if pc.YieldHas? || pc.Yielded? then Resume(pc.at) else pc
  }

  predicate OwnChan(pc: Pc, i: nat) {
    var at := Doing(pc);
    (at.Asleep? || at.SleepStart? || at.SleepRel? || at.SleepSet? || at.SleepBack?) && at.ch.ProcChan? ==> at.ch.p == i
  }

  predicate Local(s: Sys, i: nat)
    requires i < |s.procs|
  {
    var p := s.procs[i];
    && StateFits(p) && OwnChan(p.pc, i)
    && p.chan == (if p.pc.Asleep? then Some(p.pc.ch) else None)
    && (p.state == UNUSED ==> p.parent == None && p.pid == 0 && p.mine == {})
    && (p.state == USED <==> p.maker.Some?)
    && (p.state != UNUSED ==> 0 < p.pid < s.nextpid)
    && (if i == INIT then Alive(p.state) && p.parent == None
        else p.state != UNUSED && p.state != USED ==> p.parent.Some?)
  }

  predicate ParentOk(s: Sys, i: nat)
    requires i < |s.procs|
  {
    s.procs[i].parent.Some? ==>
      var q := s.procs[i].parent.v; q < |s.procs| && q != i && Alive(s.procs[q].state)
  }

  predicate Makes(pc: Pc) {
    var at := Doing(pc);
    at.ForkMade? || at.ForkParent? || at.ForkLinked? || at.ForkRun?
  }

  predicate IsForking(pc: Pc, np: nat) {
    Makes(pc) && Doing(pc).np == np
  }

  /** A process that is being made has a maker that is at it. */
  predicate MakerOk(s: Sys, i: nat)
    requires i < |s.procs|
  {
    s.procs[i].state == USED ==>
      && s.procs[i].maker.Some?
      && var m := s.procs[i].maker.v;
         m < |s.procs| && IsForking(s.procs[m].pc, i) && (s.procs[i].parent == None || s.procs[i].parent == Some(m))
  }

  /** Process `q` is asleep on `ch`, or has given up its condition lock to go to sleep. */
  predicate Dozing(s: Sys, q: nat, ch: Chan) {
    && q < |s.procs|
    && (s.procs[q].pc == SleepSet(ch) || (s.procs[q].pc == Asleep(ch) && s.procs[q].state == SLEEPING))
  }

  predicate NoKids(s: Sys, i: nat, n: nat) {
    forall z :: 0 <= z < n && z < |s.procs| ==> s.procs[z].parent != Some(i)
  }

  predicate ZombieOf(s: Sys, z: nat, q: nat) {
    z < |s.procs| && s.procs[z].state == ZOMBIE && s.procs[z].parent == Some(q)
  }

  predicate NoZombies(s: Sys, i: nat, n: nat) {
    forall z :: 0 <= z < n && z < |s.procs| ==> !ZombieOf(s, z, i)
  }

  predicate PassedBy(s: Sys, i: nat, ch: Chan, k: nat) {
    forall q :: 0 <= q < k && q < |s.procs| && q != i ==> !Dozing(s, q, ch)
  }

  predicate Forking(s: Sys, i: nat, np: nat, parent: Opt<nat>) {
    np < |s.procs| && np != i && s.procs[np].state == USED && s.procs[np].maker == Some(i) && s.procs[np].parent == parent
  }

  /** Nothing that a sleeper on `ch` waits for has happened. */
  predicate Calm(s: Sys, ch: Chan) {
    match ch
    case ProcChan(i) => NoZombies(s, i, |s.procs|)
    case Obj(c, _) => c < s.nsl ==> c < |s.locked| && s.locked[c]
  }

  predicate RetOk(s: Sys, i: nat, ch: Chan, ret: Ret)
    requires i < |s.procs|
  {
    match ret
    case ToReparent(_, j) => i != INIT && ch == ProcChan(INIT) && NoKids(s, i, j)
    case ToExitLock(_) => i != INIT && ch.ProcChan? && s.procs[i].parent == Some(ch.p) && NoKids(s, i, |s.procs|)
    case ToCond(c) => ch.Obj? && ch.c == c
  }

  predicate LateExit(s: Sys, i: nat)
    requires i < |s.procs|
  {
    && i != INIT && NoKids(s, i, |s.procs|)
    && s.procs[i].parent.Some? && !Dozing(s, s.procs[i].parent.v, ProcChan(s.procs[i].parent.v))
  }

  /** What the thread of process `i` knows at its program counter. */
  predicate PcOk(s: Sys, i: nat)
    requires i < |s.procs|
  {
    match Doing(s.procs[i].pc)
    case ForkHas(np) => np < |s.procs|
    case ForkMade(np) => Forking(s, i, np, None)
    case ForkParent(np) => Forking(s, i, np, None)
    case ForkLinked(np) => Forking(s, i, np, Some(i))
    case ForkRun(np) => Forking(s, i, np, Some(i))
    case Reparent(_, j) => i != INIT && NoKids(s, i, j)
    case ExitLock(_) => LateExit(s, i)
    case ExitSet(_) => LateExit(s, i)
    case ExitRel => i != INIT
    case ExitSched => i != INIT
    case WaitScan(j, kids) => NoZombies(s, i, j) && (kids <==> !NoKids(s, i, j))
    case WaitHas(j, kids) => j < |s.procs| && s.procs[j].parent == Some(i) && NoZombies(s, i, j) && (kids <==> !NoKids(s, i, j))
    case SleepStart(ch) => Calm(s, ch)
    case SleepRel(ch) => Calm(s, ch)
    case Wake(ch, k, ret) => PassedBy(s, i, ch, k) && RetOk(s, i, ch, ret)
    case WakeHas(ch, k, ret) => k < |s.procs| && k != i && PassedBy(s, i, ch, k) && RetOk(s, i, ch, ret)
    case Cond(c, u) => if c < s.nsl then u != Generic && (u == Releasing ==> c in s.procs[i].mine) else u == Generic
    case KillHas(j) => j < |s.procs|
    case _ => true
  }

  predicate Coming(pc: Pc, ch: Chan, q: nat) {
    (pc.Wake? || pc.WakeHas?) && pc.ch == ch && pc.k <= q
  }

  /** The holder of the condition lock of `ch` is in `wakeup` and has yet to reach process `q`. */
  predicate BeingWoken(s: Sys, ch: Chan, q: nat) {
    && LockOf(ch) in s.held && s.held[LockOf(ch)] < |s.cpus| && s.cpus[s.held[LockOf(ch)]].Running?
    && var h := s.cpus[s.held[LockOf(ch)]].p;
       h < |s.procs| && Coming(s.procs[h].pc, ch, q)
  }

  /** A parent that sleeps in `kwait` while it has a zombie child is just being woken. */
  ghost predicate ParentsWoken(s: Sys) {
    forall z, q :: ZombieOf(s, z, q) && Dozing(s, q, ProcChan(q)) ==> BeingWoken(s, ProcChan(q), q)
  }

  /** So is whoever sleeps for a sleep-lock that is free. */
  ghost predicate LockersWoken(s: Sys) {
    forall c, q :: 0 <= c < s.nsl && c < |s.locked| && !s.locked[c] && Dozing(s, q, Obj(c, 0)) ==> BeingWoken(s, Obj(c, 0), q)
  }

  /** An interrupt handler in `wakeup` leaves no sleeper on its channel behind. */
  predicate HandlerOk(s: Sys, c: nat)
    requires c < |s.cpus|
  {
    s.cpus[c].HandlerWakes? || s.cpus[c].HandlerHas? ==>
      forall q :: 0 <= q < s.cpus[c].k && q < |s.procs| ==> !Dozing(s, q, s.cpus[c].ch)
  }

  ghost predicate HandlersOk(s: Sys) {
    forall c :: 0 <= c < |s.cpus| ==> HandlerOk(s, c)
  }

  // ---- sleep-locks, process ids and exit statuses

  predicate MineOk(s: Sys, i: nat)
    requires i < |s.procs|
  {
    && (forall c :: c in s.procs[i].mine ==>
          c < s.nsl && c < |s.locked| && c < |s.lkpid| && s.locked[c] && s.lkpid[c] == s.procs[i].pid)
    && (forall c :: 0 <= c < s.nsl && c < |s.locked| && c < |s.lkpid| && s.locked[c] && s.lkpid[c] == s.procs[i].pid ==>
          c in s.procs[i].mine)
  }

  ghost predicate SleeplocksOk(s: Sys) {
    && |s.locked| == |s.lkpid| == s.nsl
    && (forall c :: 0 <= c < s.nsl ==> if s.locked[c] then 0 < s.lkpid[c] < s.nextpid else s.lkpid[c] == 0)
    && (forall i :: 0 <= i < |s.procs| ==> MineOk(s, i))
  }

  ghost predicate PidsDiffer(s: Sys) {
    forall i, j :: 0 <= i < |s.procs| && 0 <= j < |s.procs| && i != j && s.procs[i].state != UNUSED ==>
                     s.procs[i].pid != s.procs[j].pid
  }

  predicate ExitOk(s: Sys, i: nat)
    requires i < |s.procs|
  {
    var p := s.procs[i];
    if p.state == ZOMBIE then p.pid in s.exits && s.exits[p.pid] == Exited(p.xstate, i) && p.pid !in s.reaps
    else p.state != UNUSED ==> p.pid !in s.exits
  }

  predicate RecordOk(s: Sys, pid: nat) {
    && (pid in s.exits ==>
          && pid < s.nextpid
          && (pid !in s.reaps ==>
                var e := s.exits[pid];
                e.slot < |s.procs| && s.procs[e.slot].state == ZOMBIE && s.procs[e.slot].pid == pid))
    && (pid in s.reaps ==> pid in s.exits && s.reaps[pid] == s.exits[pid].status)
  }

  ghost predicate RecordsOk(s: Sys) {
    && (forall i :: 0 <= i < |s.procs| ==> ExitOk(s, i))
    && (forall pid :: RecordOk(s, pid))
  }

  ghost predicate Family(s: Sys) {
    && |s.procs| > 0
    && (forall i :: 0 <= i < |s.procs| ==> Local(s, i))
    && (forall i :: 0 <= i < |s.procs| ==> ParentOk(s, i))
    && (forall i :: 0 <= i < |s.procs| ==> MakerOk(s, i))
  }

  ghost predicate Knowledge(s: Sys) {
    forall i :: 0 <= i < |s.procs| ==> PcOk(s, i)
  }

  ghost predicate Inv(s: Sys) {
    && Bound(s) && LocksOk(s) && Family(s) && Knowledge(s)
    && ParentsWoken(s) && LockersWoken(s) && HandlersOk(s) && SleeplocksOk(s) && PidsDiffer(s) && RecordsOk(s)
  }
}
