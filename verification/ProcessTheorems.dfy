/** What holds in every reachable state of the process protocol. */
module ProcessTheorems {
  import opened Processes
  import opened ProcessInvariant
  import opened ProcessProofs
  import opened ProcessKnowledge
  import opened ProcessSteps
  import opened ProcessBooks

  // ---- the invariant over one step

  lemma InvParts(s: Sys)
    ensures Inv(s) <==> Cpus(s) && Family(s) && Aware(s) && Books(s)
  {
    hide Bound, LocksOk, Family, Knowledge, ParentsWoken, LockersWoken, HandlersOk, SleeplocksOk, PidsDiffer, RecordsOk;
  }

  lemma DoAware(s: Sys, i: nat, a: Act)
    requires Cpus(s) && Family(s) && Aware(s) && |s.locked| == |s.lkpid| == s.nsl && Can(s, i, a) && PcOk(s, i) && Cpus(Do(s, i, a))
    ensures Good(s, Do(s, i, a), i)
  {
    hide Cpus, Family, Aware, Good, Acquire, Release, Switch, Put, Go, ForkHasStep, ForkRunStep, ReparentStep, ExitSetStep, WaitScanStep, WaitHasStep,
         WakeStep, WakeHasStep, KillStep, CondStep, NoKids, NoZombies, Calm, LateExit, PassedBy, PcLocks, Forking, NextPc;
    var p := s.procs[i];
    if p.pc.Wake? {
      WakeGood(s, i, a);
    } else if Plain(s, i, a) {
      if p.pc.SleepRel? {
        SleepRelStep(s, i, a);
      } else {
        PlainGood(s, i, a);
      }
    } else {
      match p.pc
      case Asleep(ch) => AsleepGood(s, i, ch);
      case YieldHas(at) => SwitchGood(s, i, p.(state := RUNNABLE, pc := Yielded(at)));
      case ForkHas(np) => ForkHasGood(s, i, np, a);
      case ForkParent(np) => ForkParentGood(s, i, np);
      case ForkRun(np) => ForkRunGood(s, i, np);
      case Reparent(st, j) => ReparentAware(s, i, st, j);
      case ExitSet(st) => ExitSetGood(s, i, st);
      case ExitSched => SwitchGood(s, i, p.(pc := Dead));
      case WaitScan(j, kids) => WaitScanGood(s, i, j, kids, a);
      case WaitHas(j, kids) => WaitHasAware(s, i, j, kids, a);
      case SleepSet(ch) => SwitchGood(s, i, p.(chan := Some(ch), state := SLEEPING, pc := Asleep(ch)));
      case WakeHas(ch, k, ret) => WakeHasGood(s, i, ch, k, ret);
      case Cond(c, u) => CondAware(s, i, c, u, a);
      case KillHas(j) => KillGood(s, i, j, a);
      case _ =>
    }
  }

  lemma SleepRelStep(s: Sys, i: nat, a: Act)
    requires Family(s) && |s.locked| == s.nsl && Can(s, i, a) && PcOk(s, i) && s.procs[i].pc.SleepRel?
    ensures Good(s, Do(s, i, a), i)
  {
    hide Family, Good, Calm;
    SleepRelGood(s, i, s.procs[i].pc.ch);
  }

  lemma ReparentAware(s: Sys, i: nat, st: int, j: nat)
    requires Family(s) && i < |s.procs| && s.procs[i].on.Some? && s.procs[i].pc == Reparent(st, j) && PcOk(s, i) && Cpus(ReparentStep(s, i, st, j))
    ensures Good(s, ReparentStep(s, i, st, j), i)
  {
    hide Family, Good, NoKids, Cpus;
    if j < |s.procs| && s.procs[j].parent == Some(i) {
      Locals(s, j);
      NotUsedChild(s, i, j);
      ReparentGood(s, i, st, j);
    } else {
      ReparentOnGood(s, i, st, j);
    }
  }

  lemma WaitHasAware(s: Sys, i: nat, j: nat, kids: bool, a: Act)
    requires Cpus(s) && Family(s) && i < |s.procs| && s.procs[i].on.Some? && j < |s.procs| && j != i && s.procs[i].pc == WaitHas(j, kids) && PcOk(s, i)
    ensures Good(s, WaitHasStep(s, i, j, kids, a), i)
  {
    hide Family, Good, NoZombies, Cpus;
    ChildOff(s, i, j);
    if s.procs[j].state == ZOMBIE && a != Fail {
      ReapGood(s, i, j, kids, a);
    } else {
      WaitKeepGood(s, i, j, kids, a);
    }
  }

  lemma CondAware(s: Sys, i: nat, c: nat, u: Use, a: Act)
    requires Family(s) && i < |s.procs| && s.procs[i].on.Some? && s.procs[i].pc == Cond(c, u) && PcOk(s, i) && |s.locked| == |s.lkpid| == s.nsl
    requires Cpus(CondStep(s, i, c, u, a))
    ensures Good(s, CondStep(s, i, c, u, a), i)
  {
    hide Family, Good, Cpus;
    if c < s.nsl && (u == Releasing || (u == Acquiring && !s.locked[c])) {
      CondSetGood(s, i, c, u, a);
    } else {
      CondQuietGood(s, i, c, u, a);
    }
  }

  lemma PlainBooks(s: Sys, i: nat, a: Act)
    requires Books(s) && Can(s, i, a) && Plain(s, i, a)
    ensures Books(Do(s, i, a))
  {
    hide Books, Can, Plain, Do;
    PlainShape(s, i, a);
    BooksSame(s, Do(s, i, a));
  }

  lemma DoBooks(s: Sys, i: nat, a: Act)
    requires Cpus(s) && Family(s) && Books(s) && Can(s, i, a) && PcOk(s, i)
    ensures Books(Do(s, i, a))
  {
    hide Cpus, Family, Books, Acquire, ForkHasStep, ExitSetStep, WaitHasStep, CondStep,
         NoKids, NoZombies, Calm, LateExit, PassedBy, NextPc, PcLocks, Local, ParentOk, MakerOk;
    var p := s.procs[i];
    var t := Do(s, i, a);
    if Plain(s, i, a) {
      PlainBooks(s, i, a);
    } else if p.pc.ForkHas? {
      ForkBooks(s, i, p.pc.np, a);
    } else if p.pc.ExitSet? {
      ExitBooks(s, i, p.pc.status);
    } else if p.pc.WaitHas? {
      WaitBooks(s, i, p.pc.j, p.pc.kids, a);
    } else if p.pc.Cond? {
      CondBooks(s, i, p.pc.c, p.pc.u, a);
    } else {
      OtherBooks(s, i, a);
    }
  }

  ghost predicate SameEntries(s: Sys, t: Sys) {
    |t.procs| == |s.procs| && forall q :: 0 <= q < |s.procs| ==> SameEntry(s, t, q)
  }

  lemma OtherBooks(s: Sys, i: nat, a: Act)
    requires Family(s) && Books(s) && Can(s, i, a) && PcOk(s, i) && !Plain(s, i, a)
    requires var pc := s.procs[i].pc; !pc.ForkHas? && !pc.ExitSet? && !pc.WaitHas? && !pc.Cond?
    ensures Books(Do(s, i, a)) && SameEntries(s, Do(s, i, a))
  {
    hide Family, Books, NoKids, NoZombies, Calm, LateExit, PassedBy, PcLocks, ParentOk, MakerOk, OwnChan, Local,
         ForkRunStep, ReparentStep, WaitScanStep, WakeStep, WakeHasStep, KillStep, RetOk, Switch, Release, Put;
    StateOf(s, i);
    var p := s.procs[i];
    match p.pc
    case Asleep(ch) => AsleepBooks(s, i, ch);
    case YieldHas(at) => SwitchBooks(s, i, p.(state := RUNNABLE, pc := Yielded(at)));
    case ForkParent(np) => ForkParentBooks(s, i, np);
    case ForkRun(np) => ForkRunBooks(s, i, np);
    case Reparent(st, j) => ReparentBooks(s, i, st, j);
    case ExitSched => SwitchBooks(s, i, p.(pc := Dead));
    case WaitScan(j, kids) => WaitScanBooks(s, i, j, kids, a);
    case SleepSet(ch) => SwitchBooks(s, i, p.(chan := Some(ch), state := SLEEPING, pc := Asleep(ch)));
    case Wake(ch, k, ret) => WakeBooks(s, i, ch, k, ret);
    case WakeHas(ch, k, ret) => WakeHasBooks(s, i, ch, k, ret);
    case KillHas(j) => KillBooks(s, i, j, a);
    case _ =>
  }

  lemma AsleepBooks(s: Sys, i: nat, ch: Chan)
    requires Books(s) && i < |s.procs|
    ensures Books(Release(Put(s, i, s.procs[i].(chan := None)), i, ProcLock(i), SleepBack(ch))) && SameEntries(s, Release(Put(s, i, s.procs[i].(chan := None)), i, ProcLock(i), SleepBack(ch)))
  {
    hide Books;
    BooksSame(s, Release(Put(s, i, s.procs[i].(chan := None)), i, ProcLock(i), SleepBack(ch)));
  }

  lemma SwitchBooks(s: Sys, i: nat, p: Proc)
    requires Books(s) && i < |s.procs| && s.procs[i].on.Some? && s.procs[i].on.v < |s.cpus|
    requires p == s.procs[i].(state := p.state, pc := p.pc, chan := p.chan)
    requires if s.procs[i].state == ZOMBIE then p.state == ZOMBIE else s.procs[i].state == RUNNING && Alive(p.state)
    ensures Books(Switch(s, i, p)) && SameEntries(s, Switch(s, i, p))
  {
    hide Books;
    BooksSame(s, Switch(s, i, p));
  }

  lemma ForkParentBooks(s: Sys, i: nat, np: nat)
    requires Books(s) && i < |s.procs| && np < |s.procs|
    ensures Books(Release(Put(s, np, s.procs[np].(parent := Some(i))), i, WaitLock, ForkLinked(np))) && SameEntries(s, Release(Put(s, np, s.procs[np].(parent := Some(i))), i, WaitLock, ForkLinked(np)))
  {
    hide Books;
    BooksSame(s, Release(Put(s, np, s.procs[np].(parent := Some(i))), i, WaitLock, ForkLinked(np)));
  }

  lemma ForkRunBooks(s: Sys, i: nat, np: nat)
    requires Books(s) && i < |s.procs| && np < |s.procs| && s.procs[np].state == USED
    ensures Books(ForkRunStep(s, i, np)) && SameEntries(s, ForkRunStep(s, i, np))
  {
    hide Books;
    BooksSame(s, ForkRunStep(s, i, np));
  }

  lemma ReparentBooks(s: Sys, i: nat, st: int, j: nat)
    requires Books(s) && i < |s.procs|
    ensures Books(ReparentStep(s, i, st, j)) && SameEntries(s, ReparentStep(s, i, st, j))
  {
    hide Books;
    BooksSame(s, ReparentStep(s, i, st, j));
  }

  lemma WaitScanBooks(s: Sys, i: nat, j: nat, kids: bool, a: Act)
    requires Books(s) && i < |s.procs|
    ensures Books(WaitScanStep(s, i, j, kids, a)) && SameEntries(s, WaitScanStep(s, i, j, kids, a))
  {
    hide Books;
    BooksSame(s, WaitScanStep(s, i, j, kids, a));
  }

  lemma WakeBooks(s: Sys, i: nat, ch: Chan, k: nat, ret: Ret)
    requires Books(s) && i < |s.procs|
    ensures Books(WakeStep(s, i, ch, k, ret)) && SameEntries(s, WakeStep(s, i, ch, k, ret))
  {
    hide Books;
    BooksSame(s, WakeStep(s, i, ch, k, ret));
  }

  lemma WakeHasBooks(s: Sys, i: nat, ch: Chan, k: nat, ret: Ret)
    requires Books(s) && i < |s.procs| && k < |s.procs|
    ensures Books(WakeHasStep(s, i, ch, k, ret)) && SameEntries(s, WakeHasStep(s, i, ch, k, ret))
  {
    hide Books;
    BooksSame(s, WakeHasStep(s, i, ch, k, ret));
  }

  lemma KillBooks(s: Sys, i: nat, j: nat, a: Act)
    requires Books(s) && i < |s.procs| && j < |s.procs|
    ensures Books(KillStep(s, i, j, a)) && SameEntries(s, KillStep(s, i, j, a))
  {
    hide Books;
    BooksSame(s, KillStep(s, i, j, a));
  }

  lemma StateOf(s: Sys, i: nat)
    requires Family(s) && i < |s.procs|
    ensures s.procs[i].on.Some? ==> s.procs[i].state == if s.procs[i].pc.ExitRel? || s.procs[i].pc.ExitSched? then ZOMBIE else RUNNING
  {
    Locals(s, i);
  }

  lemma ForkBooks(s: Sys, i: nat, np: nat, a: Act)
    requires Family(s) && Books(s) && i < |s.procs| && np < |s.procs| && s.procs[i].on.Some? && s.procs[i].pc == ForkHas(np)
    requires a == Continue ==> np != i && s.procs[np].state == UNUSED
    ensures Books(ForkHasStep(s, i, np, a))
  {
    hide Books, Family;
    var t := ForkHasStep(s, i, np, a);
    if a == Continue {
      NewPid(s, t, np);
    } else {
      BooksSame(s, t);
    }
  }

  lemma WaitBooks(s: Sys, i: nat, j: nat, kids: bool, a: Act)
    requires Family(s) && Books(s) && i < |s.procs| && s.procs[i].on.Some? && j < |s.procs| && j != i && s.procs[i].pc == WaitHas(j, kids)
    ensures Books(WaitHasStep(s, i, j, kids, a))
  {
    hide Family, Books, Local, ParentOk, MakerOk;
    AllPids(s);
    Locals(s, i);
    if s.procs[j].state == ZOMBIE && a != Fail {
      ReapBooks(s, i, j, kids, a);
    } else {
      BooksSame(s, WaitHasStep(s, i, j, kids, a));
    }
  }

  /** A step of any process thread keeps the invariant. */
  lemma DoKeeps(s: Sys, i: nat, a: Act)
    requires Inv(s) && Can(s, i, a)
    ensures Inv(Do(s, i, a))
  {
    hide Inv, Cpus, Family, Books, Can, Do, PcOk;
    InvParts(s);
    InvParts(Do(s, i, a));
    KnowsAt(s, i, a);
    DoCpus(s, i, a);
    DoFamily(s, i, a);
    DoAware(s, i, a);
    GoodStep(s, Do(s, i, a), i);
    DoBooks(s, i, a);
  }

  lemma KnowsAt(s: Sys, i: nat, a: Act)
    requires Can(s, i, a) && Aware(s) && Books(s)
    ensures i < |s.procs| && PcOk(s, i) && |s.locked| == |s.lkpid| == s.nsl
  {
  }

  // ---- schedulers

  lemma ScheduleAware(s: Sys, c: nat, k: Pick)
    requires Cpus(s) && Family(s) && Aware(s) && CanSchedule(s, c, k)
    ensures Aware(Schedule(s, c, k))
  {
    var t := Schedule(s, c, k);
    SchedulePicture(s, c, k);
    hide Cpus, Family, Schedule, CanSchedule, PcOk, Dozing, BeingWoken, PcLocks;
    forall q | 0 <= q < |t.procs| ensures PcOk(t, q) {
      PcKept(s, t, q);
    }
    forall z: nat, q: nat | ZombieOf(t, z, q) && Dozing(t, q, ProcChan(q)) ensures BeingWoken(t, ProcChan(q), q) {
      assert ZombieOf(s, z, q) && Dozing(s, q, ProcChan(q));
    }
    forall d, q: nat | 0 <= d < t.nsl && d < |t.locked| && !t.locked[d] && Dozing(t, q, Obj(d, 0)) ensures BeingWoken(t, Obj(d, 0), q) {
      assert Dozing(s, q, Obj(d, 0));
    }
    forall d | 0 <= d < |t.cpus| ensures HandlerOk(t, d) {
      assert HandlerOk(s, d);
    }
  }

  /** A sleeper has become runnable, or a runnable process runs. */
  predicate Onward(p: Proc, p': Proc) {
    && p' == p.(state := p'.state, on := p'.on)
    && (p'.state == p.state || (p.state == RUNNABLE && p'.state == RUNNING) || (p.state == SLEEPING && p'.state == RUNNABLE))
  }

  /** A scheduler step as the process threads see it. */
  lemma SchedulePicture(s: Sys, c: nat, k: Pick)
    requires Cpus(s) && Family(s) && CanSchedule(s, c, k)
    ensures var t := Schedule(s, c, k);
            && |t.procs| == |s.procs| && t.nsl == s.nsl && t.locked == s.locked
            && (forall q :: 0 <= q < |s.procs| ==> Onward(s.procs[q], t.procs[q]))
            && (forall q: nat, ch :: Dozing(t, q, ch) ==> Dozing(s, q, ch))
            && (forall q: nat, ch :: BeingWoken(s, ch, q) ==> BeingWoken(t, ch, q))
            && |t.cpus| == |s.cpus|
            && (forall d :: 0 <= d < |s.cpus| ==> t.cpus[d] == s.cpus[d] || !(t.cpus[d].HandlerWakes? || t.cpus[d].HandlerHas?))
  {
    hide PcLocks;
    var t := Schedule(s, c, k);
    assert CpuBound(s, c) && CpuHolds(s, c);
    forall q: nat, ch | BeingWoken(s, ch, q) ensures BeingWoken(t, ch, q) {
      assert HeldOk(s, LockOf(ch)) && CpuBound(s, s.held[LockOf(ch)]);
      assert s.held[LockOf(ch)] != c;
    }
  }

  lemma PcKept(s: Sys, t: Sys, q: nat)
    requires q < |s.procs| == |t.procs| && t.nsl == s.nsl && t.locked == s.locked && PcOk(s, q)
    requires forall x :: 0 <= x < |s.procs| ==> Onward(s.procs[x], t.procs[x])
    requires forall x: nat, ch :: Dozing(t, x, ch) ==> Dozing(s, x, ch)
    ensures PcOk(t, q)
  {
    hide Dozing;
    forall x: nat | x < |s.procs| ensures SameParent(s, t, x) {
    }
    ParentFacts(s, t, q);
    forall i: nat, n: nat | NoZombies(s, i, n) ensures NoZombies(t, i, n) {
      forall z | 0 <= z < n && z < |t.procs| ensures !ZombieOf(t, z, i) {
        assert !ZombieOf(s, z, i);
      }
    }
  }

  lemma ScheduleKeeps(s: Sys, c: nat, k: Pick)
    requires Inv(s) && CanSchedule(s, c, k)
    ensures Inv(Schedule(s, c, k))
  {
    hide Inv, Cpus, Family, Books, Aware;
    InvParts(s);
    InvParts(Schedule(s, c, k));
    ScheduleCpus(s, c, k);
    ScheduleFamily(s, c, k);
    ScheduleAware(s, c, k);
    BooksSame(s, Schedule(s, c, k));
  }

  // ---- interrupt handlers

  /** A handler step as the process threads see it. */
  lemma HandlePicture(s: Sys, c: nat, x: Irq)
    requires Cpus(s) && Family(s) && CanHandle(s, c, x)
    ensures var t := Handle(s, c, x);
            && |t.procs| == |s.procs| && t.nsl == s.nsl && t.locked == s.locked
            && (forall q :: 0 <= q < |s.procs| ==> Onward(s.procs[q], t.procs[q]))
            && (forall q: nat, ch :: Dozing(t, q, ch) ==> Dozing(s, q, ch))
            && (forall q: nat, ch :: BeingWoken(s, ch, q) ==> BeingWoken(t, ch, q))
  {
    hide PcLocks;
    var t := Handle(s, c, x);
    HandleShape(s, c, x);
    hide Handle, CanHandle;
    assert CpuBound(s, c) && CpuHolds(s, c);
    forall q: nat, ch | BeingWoken(s, ch, q) ensures BeingWoken(t, ch, q) {
      assert HeldOk(s, LockOf(ch)) && CpuBound(s, s.held[LockOf(ch)]);
      assert s.held[LockOf(ch)] != c;
    }
  }

  /** The process that a handler has locked does not sleep on the channel after its step. */
  lemma HandledAwake(s: Sys, c: nat, x: Irq)
    requires Cpus(s) && Family(s) && CanHandle(s, c, x) && s.cpus[c].HandlerHas?
    ensures s.cpus[c].k < |s.procs| && !Dozing(Handle(s, c, x), s.cpus[c].k, s.cpus[c].ch)
  {
    var ch, k := s.cpus[c].ch, s.cpus[c].k;
    Locals(s, k);
    CpuHoldsLock(s, c, ProcLock(k));
    if s.procs[k].pc == SleepSet(ch) {
      Holds(s, k, ProcLock(k));
    }
  }

  lemma HandleAware(s: Sys, c: nat, x: Irq)
    requires Cpus(s) && Family(s) && Aware(s) && CanHandle(s, c, x)
    ensures Aware(Handle(s, c, x))
  {
    var t := Handle(s, c, x);
    HandlePicture(s, c, x);
    hide Cpus, Family, PcOk, Dozing, BeingWoken, PcLocks;
    forall q | 0 <= q < |t.procs| ensures PcOk(t, q) {
      PcKept(s, t, q);
    }
    forall z: nat, q: nat | ZombieOf(t, z, q) && Dozing(t, q, ProcChan(q)) ensures BeingWoken(t, ProcChan(q), q) {
      assert ZombieOf(s, z, q) && Dozing(s, q, ProcChan(q));
    }
    forall d, q: nat | 0 <= d < t.nsl && d < |t.locked| && !t.locked[d] && Dozing(t, q, Obj(d, 0)) ensures BeingWoken(t, Obj(d, 0), q) {
      assert Dozing(s, q, Obj(d, 0));
    }
    forall d | 0 <= d < |t.cpus| ensures HandlerOk(t, d) {
      assert HandlerOk(s, d);
      if d == c && s.cpus[c].HandlerHas? {
        HandledAwake(s, c, x);
      }
    }
  }

  lemma HandleKeeps(s: Sys, c: nat, x: Irq)
    requires Inv(s) && CanHandle(s, c, x)
    ensures Inv(Handle(s, c, x))
  {
    hide Inv, Cpus, Family, Books, Aware, CanHandle, Handle;
    InvParts(s);
    InvParts(Handle(s, c, x));
    HandleCpus(s, c, x);
    HandleFamily(s, c, x);
    HandleAware(s, c, x);
    HandleBooks(s, c, x);
  }

  lemma HandleBooks(s: Sys, c: nat, x: Irq)
    requires Books(s) && CanHandle(s, c, x)
    ensures Books(Handle(s, c, x))
  {
    hide Books;
    BooksSame(s, Handle(s, c, x));
  }

  lemma StepKeeps(s: Sys, t: Sys)
    requires Inv(s) && Step(s, t)
    ensures Inv(t)
  {
    hide Inv, Can, Do, CanSchedule, Schedule, CanHandle, Handle;
    if i, a :| Can(s, i, a) && t == Do(s, i, a) {
      DoKeeps(s, i, a);
    } else if c, k :| CanSchedule(s, c, k) && t == Schedule(s, c, k) {
      ScheduleKeeps(s, c, k);
    } else {
      var c, q :| CanHandle(s, c, q) && t == Handle(s, c, q);
      HandleKeeps(s, c, q);
    }
  }

  lemma StartOk(s: Sys)
    requires Start(s)
    ensures Inv(s)
  {
    assert forall i :: 0 <= i < |s.procs| ==> s.procs[i].parent == None && s.procs[i].on == None;
  }

  // ---- every reachable state

  /** A run from the initial state. */
  ghost predicate Run(r: seq<Sys>) {
    |r| > 0 && Start(r[0]) && forall n :: 0 <= n < |r| - 1 ==> Step(r[n], r[n + 1])
  }

  lemma {:induction false} RunsKeep(r: seq<Sys>, n: nat)
    requires Run(r) && n < |r|
    ensures Inv(r[n])
  {
    hide Inv, Step, Start;
    if n == 0 {
      StartOk(r[0]);
    } else {
      RunsKeep(r, n - 1);
      assert Step(r[n - 1], r[n - 1 + 1]);
      StepKeeps(r[n - 1], r[n]);
    }
  }

  /** CPU `c` executes on the kernel stack of process `i`, or is just leaving it. */
  predicate OnCpu(s: Sys, c: nat, i: nat) {
    c < |s.cpus| && (s.cpus[c] == Running(i) || s.cpus[c] == Back(i))
  }

  /** No process runs on two CPUs, and one is only freed after its CPU has left its kernel stack. */
  lemma OneCpu(r: seq<Sys>, n: nat, i: nat)
    requires Run(r) && n < |r| && i < |r[n].procs|
    ensures forall c, d :: OnCpu(r[n], c, i) && OnCpu(r[n], d, i) ==> c == d
    ensures forall c :: OnCpu(r[n], c, i) ==> r[n].procs[i].state != UNUSED && r[n].procs[i].state != USED
    ensures r[n].procs[i].state == RUNNING ==> exists c :: 0 <= c < |r[n].cpus| && r[n].cpus[c] == Running(i)
  {
    RunsKeep(r, n);
    var s := r[n];
    InvParts(s);
    Locals(s, i);
    assert OnBound(s, i);
    hide Inv, Family, PcLocks;
    forall c: nat, d: nat | OnCpu(s, c, i) && OnCpu(s, d, i) ensures c == d {
      assert CpuBound(s, c) && CpuBound(s, d) && CpuHolds(s, c) && CpuHolds(s, d);
      if s.cpus[c] == Back(i) && s.cpus[d] == Back(i) {
        CpuHoldsLock(s, c, ProcLock(i));
        CpuHoldsLock(s, d, ProcLock(i));
      }
    }
    forall c: nat | OnCpu(s, c, i) ensures s.procs[i].state != UNUSED && s.procs[i].state != USED {
      assert CpuBound(s, c);
    }
  }

  /** No process has a parent that is a zombie or freed; every process but init
      that has started has a parent. */
  lemma LivingParents(r: seq<Sys>, n: nat, i: nat)
    requires Run(r) && n < |r| && i < |r[n].procs|
    ensures r[n].procs[i].parent.Some? ==>
              && r[n].procs[i].parent.v < |r[n].procs|
              && r[n].procs[r[n].procs[i].parent.v].state in {RUNNABLE, RUNNING, SLEEPING}
    ensures i != INIT && r[n].procs[i].state in {RUNNABLE, RUNNING, SLEEPING, ZOMBIE} ==> r[n].procs[i].parent.Some?
  {
    RunsKeep(r, n);
    Locals(r[n], i);
  }

  /** While wait_lock is free, no parent sleeps in `kwait` with a zombie child. */
  lemma NoSleepingParent(r: seq<Sys>, n: nat, z: nat, q: nat)
    requires Run(r) && n < |r| && z < |r[n].procs| && q < |r[n].procs| && WaitLock !in r[n].held
    requires r[n].procs[z].state == ZOMBIE && r[n].procs[z].parent == Some(q)
    ensures !(r[n].procs[q].state == SLEEPING && r[n].procs[q].chan == Some(ProcChan(q)))
  {
    RunsKeep(r, n);
    Locals(r[n], q);
    assert ZombieOf(r[n], z, q);
    assert Dozing(r[n], q, ProcChan(q)) ==> BeingWoken(r[n], ProcChan(q), q);
  }

  /** No lost wakeup: when `wakeup(ch)` is done, with the condition lock of `ch`
      still held, no other process sleeps on `ch` or is about to without that lock. */
  lemma NoLostWakeup(r: seq<Sys>, n: nat, i: nat, q: nat)
    requires Run(r) && n < |r| && i < |r[n].procs| && q < |r[n].procs| && q != i
    requires r[n].procs[i].pc.Wake? && r[n].procs[i].pc.k >= |r[n].procs|
    ensures !Dozing(r[n], q, r[n].procs[i].pc.ch)
    ensures !(r[n].procs[q].state == SLEEPING && r[n].procs[q].chan == Some(r[n].procs[i].pc.ch))
  {
    RunsKeep(r, n);
    Locals(r[n], q);
    assert PcOk(r[n], i);
  }

  /** The same for a `wakeup` in an interrupt handler. */
  lemma NoLostInterrupt(r: seq<Sys>, n: nat, c: nat, q: nat)
    requires Run(r) && n < |r| && c < |r[n].cpus| && q < |r[n].procs|
    requires r[n].cpus[c].HandlerWakes? && r[n].cpus[c].k >= |r[n].procs|
    ensures !Dozing(r[n], q, r[n].cpus[c].ch)
    ensures !(r[n].procs[q].state == SLEEPING && r[n].procs[q].chan == Some(r[n].cpus[c].ch))
  {
    RunsKeep(r, n);
    Locals(r[n], q);
    assert HandlerOk(r[n], c);
  }

  /** A sleep-lock has at most one holder, `holdingsleep` tells exactly the holder, and
      while it and its spinlock are free nobody sleeps for it. */
  lemma SleeplockSafe(r: seq<Sys>, n: nat, c: nat, i: nat, j: nat)
    requires Run(r) && n < |r| && c < r[n].nsl && i < |r[n].procs| && j < |r[n].procs|
    ensures c in r[n].procs[i].mine && c in r[n].procs[j].mine ==> i == j
    ensures c < |r[n].locked| && c < |r[n].lkpid|
    ensures r[n].procs[i].state != UNUSED ==>
              (c in r[n].procs[i].mine <==> r[n].locked[c] && r[n].lkpid[c] == r[n].procs[i].pid)
    ensures !r[n].locked[c] && CondLock(c) !in r[n].held ==> !(r[n].procs[i].state == SLEEPING && r[n].procs[i].chan == Some(Obj(c, 0)))
  {
    RunsKeep(r, n);
    var s := r[n];
    Locals(s, i);
    assert MineOk(s, i) && MineOk(s, j);
    assert i != j && s.procs[i].state != UNUSED ==> s.procs[i].pid != s.procs[j].pid;
    assert !s.locked[c] && Dozing(s, i, Obj(c, 0)) ==> BeingWoken(s, Obj(c, 0), i);
  }

  /** Every exit is reaped at most once and with its own status: what `kwait`
      returned for a process id is what that process passed to `kexit`, and an
      exited process that was not reaped is still there as a zombie. */
  lemma ReapedOnce(r: seq<Sys>, n: nat, pid: nat)
    requires Run(r) && n < |r|
    ensures pid in r[n].reaps ==> pid in r[n].exits && r[n].reaps[pid] == r[n].exits[pid].status
    ensures pid in r[n].exits && pid !in r[n].reaps ==>
              exists z :: 0 <= z < |r[n].procs| && r[n].procs[z].state == ZOMBIE && r[n].procs[z].pid == pid && r[n].procs[z].xstate == r[n].exits[pid].status
    ensures pid in r[n].reaps ==> forall z :: 0 <= z < |r[n].procs| && r[n].procs[z].state != UNUSED ==> r[n].procs[z].pid != pid
  {
    RunsKeep(r, n);
    var s := r[n];
    assert RecordOk(s, pid);
    if pid in s.exits && pid !in s.reaps {
      assert ExitOk(s, s.exits[pid].slot);
    }
    forall z | 0 <= z < |s.procs| && s.procs[z].state != UNUSED && pid in s.reaps ensures s.procs[z].pid != pid {
      assert ExitOk(s, z);
    }
  }

  /** At the end of its scan `kwait` returns at once exactly when the process has no
      children; otherwise, unless it was killed, it goes to sleep. */
  lemma ChildlessWait(r: seq<Sys>, n: nat, i: nat, a: Act)
    requires Run(r) && n < |r| && Can(r[n], i, a) && a != Fail
    requires r[n].procs[i].pc.WaitScan? && r[n].procs[i].pc.j >= |r[n].procs|
    ensures Do(r[n], i, a).procs[i].pc == if NoKids(r[n], i, |r[n].procs|) then WaitEnd else SleepStart(ProcChan(i))
  {
    RunsKeep(r, n);
    assert PcOk(r[n], i);
    hide Inv;
  }

  /** Only the current parent frees a zombie. */
  lemma FreedByParent(r: seq<Sys>, n: nat, z: nat)
    requires Run(r) && n + 1 < |r| && z < |r[n].procs|
    requires r[n].procs[z].state == ZOMBIE && (z >= |r[n + 1].procs| || r[n + 1].procs[z].state != ZOMBIE)
    ensures exists q, kids :: 0 <= q < |r[n].procs| && r[n].procs[z].parent == Some(q) && r[n].procs[q].pc == WaitHas(z, kids)
  {
    hide Inv, Can, Do, CanSchedule, Schedule, CanHandle, Handle, PcOk;
    RunsKeep(r, n);
    var s, t := r[n], r[n + 1];
    assert Step(s, t);
    ScheduleSpares(s, z);
    HandleSpares(s, z);
    var i, a :| Can(s, i, a) && t == Do(s, i, a);
    ZombieFreed(s, i, a, z);
    WaitsForChild(s, i);
  }

  lemma WaitsForChild(s: Sys, i: nat)
    requires i < |s.procs| && s.procs[i].pc.WaitHas? && PcOk(s, i)
    ensures s.procs[i].pc.j < |s.procs| && s.procs[s.procs[i].pc.j].parent == Some(i)
    ensures s.procs[i].pc == WaitHas(s.procs[i].pc.j, s.procs[i].pc.kids)
  {
  }

  lemma HandleSpares(s: Sys, z: nat)
    requires z < |s.procs| && s.procs[z].state == ZOMBIE
    ensures forall c, k :: CanHandle(s, c, k) ==> z < |Handle(s, c, k).procs| && Handle(s, c, k).procs[z].state == ZOMBIE
  {
  }

  lemma ScheduleSpares(s: Sys, z: nat)
    requires z < |s.procs| && s.procs[z].state == ZOMBIE
    ensures forall c, k :: CanSchedule(s, c, k) ==> z < |Schedule(s, c, k).procs| && Schedule(s, c, k).procs[z].state == ZOMBIE
  {
  }

  lemma ZombieFreed(s: Sys, i: nat, a: Act, z: nat)
    requires Inv(s) && Can(s, i, a) && z < |s.procs| && s.procs[z].state == ZOMBIE
    requires z >= |Do(s, i, a).procs| || Do(s, i, a).procs[z].state != ZOMBIE
    ensures i < |s.procs| && s.procs[i].pc.WaitHas? && s.procs[i].pc.j == z && PcOk(s, i)
  {
    hide Inv, Can, Do, Family, Books, Aware, Cpus, PcOk, Plain, Local, ParentOk, MakerOk;
    InvParts(s);
    KnowsAt(s, i, a);
    Locals(s, i);
    var t := Do(s, i, a);
    var pc := s.procs[i].pc;
    if Plain(s, i, a) {
      PlainShape(s, i, a);
    } else if pc.ForkHas? || pc.ExitSet? || pc.WaitHas? || pc.Cond? {
      FewFree(s, i, a, z);
    } else {
      OtherBooks(s, i, a);
      EntryOf(s, t, z);
    }
  }

  lemma EntryOf(s: Sys, t: Sys, z: nat)
    requires SameEntries(s, t) && z < |s.procs|
    ensures |t.procs| == |s.procs| && (t.procs[z].state == ZOMBIE <==> s.procs[z].state == ZOMBIE)
  {
    assert SameEntry(s, t, z);
  }

  lemma FewFree(s: Sys, i: nat, a: Act, z: nat)
    requires Can(s, i, a) && z < |s.procs| && s.procs[z].state == ZOMBIE && !Plain(s, i, a)
    requires var pc := s.procs[i].pc; pc.ForkHas? || pc.ExitSet? || pc.WaitHas? || pc.Cond?
    ensures z < |Do(s, i, a).procs| && (Do(s, i, a).procs[z].state == ZOMBIE || (s.procs[i].pc.WaitHas? && s.procs[i].pc.j == z))
  {
    hide ForkHasStep, ExitSetStep, WaitHasStep, CondStep;
    match s.procs[i].pc
    case ForkHas(np) => ForkSpares(s, i, np, a, z);
    case ExitSet(st) =>
      assert ExitSetStep(s, i, st) == Do(s, i, a);
      ExitSpares(s, i, st, z);
    case WaitHas(j, kids) =>
      if z != j {
        WaitSpares(s, i, j, kids, a, z);
      } else {
        WaitLength(s, i, j, kids, a);
      }
    case Cond(c, u) => CondShape(s, i, c, u, a);
  }

  lemma ForkSpares(s: Sys, i: nat, np: nat, a: Act, z: nat)
    requires i < |s.procs| && np < |s.procs| && z < |s.procs| && s.procs[z].state == ZOMBIE && (a == Continue ==> s.procs[np].state == UNUSED)
    ensures var t := ForkHasStep(s, i, np, a); |t.procs| == |s.procs| && t.procs[z].state == ZOMBIE
  {
  }

  lemma ExitSpares(s: Sys, i: nat, st: int, z: nat)
    requires i < |s.procs| && z < |s.procs| && s.procs[z].state == ZOMBIE
    ensures var t := ExitSetStep(s, i, st); |t.procs| == |s.procs| && t.procs[z].state == ZOMBIE
  {
  }

  lemma WaitLength(s: Sys, i: nat, j: nat, kids: bool, a: Act)
    requires i < |s.procs| && j < |s.procs|
    ensures |WaitHasStep(s, i, j, kids, a).procs| == |s.procs|
  {
  }

  lemma WaitSpares(s: Sys, i: nat, j: nat, kids: bool, a: Act, z: nat)
    requires i < |s.procs| && j < |s.procs| && z < |s.procs| && s.procs[z].state == ZOMBIE && z != j
    ensures var t := WaitHasStep(s, i, j, kids, a); |t.procs| == |s.procs| && t.procs[z].state == ZOMBIE
  {
  }

  predicate CallsSched(pc: Pc) {
    pc.YieldHas? || pc.ExitSched? || pc.SleepSet?
  }

  /** `sched` never panics: its caller holds p->lock and nothing else, and is no longer RUNNING. */
  lemma SchedOk(r: seq<Sys>, n: nat, c: nat, i: nat)
    requires Run(r) && n < |r| && c < |r[n].cpus| && r[n].cpus[c] == Running(i)
    ensures i < |r[n].procs|
    ensures CallsSched(r[n].procs[i].pc) ==>
              forall l :: l in r[n].held && r[n].held[l] == c <==> l == ProcLock(i)
  {
    RunsKeep(r, n);
    var s := r[n];
    InvParts(s);
    assert CpuBound(s, c) && CpuHolds(s, c) && OnBound(s, i);
    SwitchLocks(s.procs[i].pc, i);
    assert CpuLocks(s, c) == PcLocks(s.procs[i].pc, i);
    if CallsSched(s.procs[i].pc) {
      forall l ensures l in s.held && s.held[l] == c <==> l == ProcLock(i) {
        assert HeldOk(s, l);
        assert l in CpuLocks(s, c) <==> l == ProcLock(i);
      }
    }
  }

  /** The lock it waits for is the only thing that can stop a running process. */
  lemma OnlyLocksBlock(r: seq<Sys>, n: nat, i: nat)
    requires Run(r) && n < |r| && i < |r[n].procs| && r[n].procs[i].on.Some? && !r[n].procs[i].pc.User?
    requires Wants(r[n], i, Fail).Some? ==> Wants(r[n], i, Fail).v !in r[n].held
    ensures Can(r[n], i, Fail)
  {
    RunsKeep(r, n);
    var s := r[n];
    Locals(s, i);
    assert OnBound(s, i) && PcOk(s, i);
    assert s.procs[i].pc.WaitHas? ==> ParentOk(s, s.procs[i].pc.j);
  }
}
