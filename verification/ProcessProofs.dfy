/** Every step of the process protocol keeps the invariant. */
module ProcessProofs {
  import opened Processes
  import opened ProcessInvariant

  // ---- spinlocks and CPUs

  ghost predicate Cpus(s: Sys) {
    Bound(s) && LocksOk(s)
  }

  /** Two threads never hold the same spinlock. */
  lemma Exclusive(s: Sys, i: nat, j: nat, l: Lock)
    requires Cpus(s) && i < |s.procs| && j < |s.procs| && s.procs[i].on.Some? && s.procs[j].on.Some?
    requires l in PcLocks(s.procs[i].pc, i) && l in PcLocks(s.procs[j].pc, j)
    ensures i == j
  {
    hide PcLocks;
    Holds(s, i, l);
    Holds(s, j, l);
  }

  lemma Holds(s: Sys, i: nat, l: Lock)
    requires Cpus(s) && i < |s.procs| && s.procs[i].on.Some? && l in PcLocks(s.procs[i].pc, i)
    ensures OnBound(s, i) && s.procs[i].on.v < |s.cpus| && l in s.held && s.held[l] == s.procs[i].on.v && s.cpus[s.procs[i].on.v] == Running(i)
  {
    hide PcLocks;
    assert OnBound(s, i);
    assert CpuHolds(s, s.procs[i].on.v);
  }

  lemma CpuHoldsLock(s: Sys, c: nat, l: Lock)
    requires Cpus(s) && c < |s.cpus| && l in CpuLocks(s, c)
    ensures l in s.held && s.held[l] == c && CpuBound(s, c)
  {
    assert CpuHolds(s, c);
  }

  lemma OtherLocks(s: Sys, t: Sys, c: nat)
    requires c < |s.cpus| && t.cpus == s.cpus && |t.procs| == |s.procs|
    requires forall i :: 0 <= i < |s.procs| && s.cpus[c] == Running(i) ==> t.procs[i].pc == s.procs[i].pc
    ensures CpuLocks(t, c) == CpuLocks(s, c)
  {
  }

  lemma AcquireCpus(s: Sys, i: nat, l: Lock, pc: Pc)
    requires Cpus(s) && i < |s.procs| && s.procs[i].on.Some? && l !in s.held && pc != Nothing
    requires PcLocks(pc, i) == PcLocks(s.procs[i].pc, i) + {l}
    ensures Cpus(Acquire(s, i, l, pc))
  {
    hide PcLocks;
    var t := Acquire(s, i, l, pc);
    assert OnBound(s, i);
    var me := s.procs[i].on.v;
    forall c | 0 <= c < |t.cpus| ensures CpuBound(t, c) && CpuHolds(t, c) {
      assert CpuBound(s, c) && CpuHolds(s, c);
      if c != me {
        OtherLocks(s, t, c);
      }
    }
    forall j | 0 <= j < |t.procs| ensures OnBound(t, j) {
      assert OnBound(s, j);
    }
    forall l' ensures HeldOk(t, l') {
      assert HeldOk(s, l');
      if l' != l && l' in s.held && s.held[l'] != me {
        assert CpuBound(s, s.held[l']);
        OtherLocks(s, t, s.held[l']);
      }
    }
  }

  lemma ReleaseCpus(s: Sys, i: nat, l: Lock, pc: Pc)
    requires Cpus(s) && i < |s.procs| && s.procs[i].on.Some? && pc != Nothing
    requires l in PcLocks(s.procs[i].pc, i) && PcLocks(pc, i) == PcLocks(s.procs[i].pc, i) - {l}
    ensures Cpus(Release(s, i, l, pc))
  {
    hide PcLocks;
    var t := Release(s, i, l, pc);
    Holds(s, i, l);
    var me := s.procs[i].on.v;
    forall c | 0 <= c < |t.cpus| ensures CpuBound(t, c) && CpuHolds(t, c) {
      assert CpuBound(s, c) && CpuHolds(s, c);
      if c != me {
        OtherLocks(s, t, c);
      }
    }
    forall j | 0 <= j < |t.procs| ensures OnBound(t, j) {
      assert OnBound(s, j);
    }
    forall l' ensures HeldOk(t, l') {
      assert HeldOk(s, l');
      if l' in t.held && s.held[l'] != me {
        assert CpuBound(s, s.held[l']);
        OtherLocks(s, t, s.held[l']);
      }
    }
  }

  /** Changing what a thread does without touching spinlocks. */
  lemma PutCpus(s: Sys, i: nat, p: Proc)
    requires Cpus(s) && i < |s.procs| && p.on == s.procs[i].on
    requires p.pc == s.procs[i].pc || (p.pc != Nothing && PcLocks(p.pc, i) == PcLocks(s.procs[i].pc, i)) ||
             (s.procs[i].on.None? && (p.pc != Nothing || forall c :: 0 <= c < |s.cpus| ==> s.cpus[c] != Back(i)))
    ensures Cpus(Put(s, i, p))
  {
    hide PcLocks;
    var t := Put(s, i, p);
    forall c | 0 <= c < |t.cpus| ensures CpuBound(t, c) && CpuHolds(t, c) && CpuLocks(t, c) == CpuLocks(s, c) {
      assert CpuBound(s, c) && CpuHolds(s, c);
      assert OnBound(s, i);
    }
    forall j | 0 <= j < |t.procs| ensures OnBound(t, j) {
      assert OnBound(s, j);
    }
    forall l ensures HeldOk(t, l) {
      assert HeldOk(s, l);
    }
  }

  lemma SwitchCpus(s: Sys, i: nat, p: Proc)
    requires Cpus(s) && i < |s.procs| && s.procs[i].on.Some? && p.pc != Nothing
    requires PcLocks(s.procs[i].pc, i) == {ProcLock(i)}
    ensures s.procs[i].on.v < |s.cpus| && Cpus(Switch(s, i, p))
  {
    hide PcLocks;
    Holds(s, i, ProcLock(i));
    var t := Switch(s, i, p);
    var me := s.procs[i].on.v;
    forall c | 0 <= c < |t.cpus| ensures CpuBound(t, c) && CpuHolds(t, c) {
      assert CpuBound(s, c) && CpuHolds(s, c);
    }
    forall j | 0 <= j < |t.procs| ensures OnBound(t, j) {
      assert OnBound(s, j);
    }
    forall l ensures HeldOk(t, l) {
      assert HeldOk(s, l);
    }
  }

  lemma ScheduleCpus(s: Sys, c: nat, k: Pick)
    requires Cpus(s) && Family(s) && CanSchedule(s, c, k)
    ensures Cpus(Schedule(s, c, k))
  {
    hide PcLocks;
    var t := Schedule(s, c, k);
    assert CpuBound(s, c) && CpuHolds(s, c);
    var p := if s.cpus[c].Idle? then k.p else s.cpus[c].p;
    assert Local(s, p) && OnBound(s, p);
    forall d | 0 <= d < |t.cpus| ensures CpuBound(t, d) && CpuHolds(t, d) {
      assert CpuBound(s, d) && CpuHolds(s, d);
      if d != c && s.cpus[c].Looking? && s.cpus[d] == Back(p) {
        CpuHoldsLock(s, d, ProcLock(p));
      }
      OffLocks(s.procs[p], p);
    }
    forall j | 0 <= j < |t.procs| ensures OnBound(t, j) {
      assert OnBound(s, j);
    }
    forall l ensures HeldOk(t, l) {
      assert HeldOk(s, l);
      OffLocks(s.procs[p], p);
    }
  }

  lemma OffLocks(p: Proc, i: nat)
    requires StateFits(p)
    ensures p.state == RUNNABLE ==> p.on == None && PcLocks(p.pc, i) == {ProcLock(i)}
  {
  }

  lemma SameCpus(s: Sys, t: Sys)
    requires Cpus(s) && t.procs == s.procs && t.cpus == s.cpus && t.held == s.held && t.nsl == s.nsl
    ensures Cpus(t)
  {
    hide PcLocks;
    forall c | 0 <= c < |t.cpus| ensures CpuBound(t, c) && CpuHolds(t, c) {
      assert CpuBound(s, c) && CpuHolds(s, c) && CpuLocks(t, c) == CpuLocks(s, c);
    }
    forall j | 0 <= j < |t.procs| ensures OnBound(t, j) {
      assert OnBound(s, j);
    }
    forall l ensures HeldOk(t, l) {
      assert HeldOk(s, l);
    }
  }

  /** A step of an interrupt handler. */
  lemma HandleCpus(s: Sys, c: nat, q: Irq)
    requires Cpus(s) && CanHandle(s, c, q)
    ensures Cpus(Handle(s, c, q))
  {
    hide PcLocks;
    var t := Handle(s, c, q);
    HandleShape(s, c, q);
    hide Handle, CanHandle;
    assert CpuBound(s, c) && CpuHolds(s, c);
    forall d | 0 <= d < |t.cpus| ensures CpuBound(t, d) && CpuHolds(t, d) {
      assert CpuBound(s, d) && CpuHolds(s, d);
      if d != c {
        SameLocks(s, t, d);
      }
    }
    forall j | 0 <= j < |t.procs| ensures OnBound(t, j) {
      assert OnBound(s, j);
    }
    forall l ensures HeldOk(t, l) {
      assert HeldOk(s, l);
      if l in t.held && t.held[l] != c {
        assert CpuBound(s, s.held[l]);
        SameLocks(s, t, s.held[l]);
      }
    }
  }

  lemma SameLocks(s: Sys, t: Sys, c: nat)
    requires c < |s.cpus| == |t.cpus| && t.cpus[c] == s.cpus[c] && |t.procs| == |s.procs|
    requires forall i :: 0 <= i < |s.procs| ==> t.procs[i].pc == s.procs[i].pc
    ensures CpuLocks(t, c) == CpuLocks(s, c)
  {
  }

  /** A handler step changes its own CPU, takes or drops at most one lock, and
      makes at most a sleeper runnable. */
  lemma HandleShape(s: Sys, c: nat, q: Irq)
    requires Cpus(s) && CanHandle(s, c, q)
    ensures var t := Handle(s, c, q);
            && |t.procs| == |s.procs| && |t.cpus| == |s.cpus|
            && t == s.(procs := t.procs, cpus := s.cpus[c := t.cpus[c]], held := t.held)
            && (forall i :: 0 <= i < |s.procs| ==> t.procs[i] == s.procs[i] || (s.procs[i].state == SLEEPING && t.procs[i] == s.procs[i].(state := RUNNABLE)))
            && CpuBound(t, c) && !t.cpus[c].Running? && !s.cpus[c].Running?
            && ((exists l :: l !in s.held && t.held == s.held[l := c] && CpuLocks(t, c) == CpuLocks(s, c) + {l}) ||
                (exists l :: l in CpuLocks(s, c) && t.held == s.held - {l} && CpuLocks(t, c) == CpuLocks(s, c) - {l}) ||
                (t.held == s.held && CpuLocks(t, c) == CpuLocks(s, c)))
  {
    hide PcLocks;
    assert CpuBound(s, c);
    var t := Handle(s, c, q);
    match s.cpus[c]
    case Idle => assert t.held == s.held[CondLock(q.c) := c] && CpuLocks(t, c) == CpuLocks(s, c) + {CondLock(q.c)};
    case Handling(o) =>
      if q.Leave? {
        assert t.held == s.held - {CondLock(o)} && CpuLocks(t, c) == CpuLocks(s, c) - {CondLock(o)};
      }
    case HandlerWakes(ch, k) =>
      if k < |s.procs| {
        assert t.held == s.held[ProcLock(k) := c] && CpuLocks(t, c) == CpuLocks(s, c) + {ProcLock(k)};
      }
    case HandlerHas(ch, k) => assert t.held == s.held - {ProcLock(k)} && CpuLocks(t, c) == CpuLocks(s, c) - {ProcLock(k)};
    case _ =>
  }

  /** A process whose lock a thread holds is on no CPU, unless it is running for itself. */
  lemma OffCpu(s: Sys, i: nat, j: nat)
    requires Cpus(s) && Family(s) && i < |s.procs| && j < |s.procs| && i != j && s.procs[i].on.Some?
    requires ProcLock(j) in PcLocks(s.procs[i].pc, i)
    ensures s.procs[j].state == ZOMBIE ==> s.procs[j].on == None
    ensures forall c :: 0 <= c < |s.cpus| ==> s.cpus[c] != Back(j) && s.cpus[c] != Looking(j)
  {
    assert Local(s, j);
    if s.procs[j].state == ZOMBIE && s.procs[j].on.Some? {
      Exclusive(s, i, j, ProcLock(j));
    }
    Holds(s, i, ProcLock(j));
    forall c | 0 <= c < |s.cpus| ensures s.cpus[c] != Back(j) && s.cpus[c] != Looking(j) {
      assert CpuHolds(s, c);
      assert CpuLocks(s, c) == {ProcLock(j)} ==> ProcLock(j) in CpuLocks(s, c);
    }
  }

  // One lemma for each step that does more than take or drop a lock.

  lemma ForkHasCpus(s: Sys, i: nat, np: nat, a: Act)
    requires Cpus(s) && i < |s.procs| && s.procs[i].on.Some? && np < |s.procs| && s.procs[i].pc == ForkHas(np) && (a == Continue ==> np != i)
    ensures Cpus(ForkHasStep(s, i, np, a))
  {
    hide Cpus;
    var q := s.procs[np];
    var s1 := if q.state == UNUSED then s.(nextpid := s.nextpid + 1) else s;
    SameCpus(s, s1);
    var q' := if a == Continue then q.(state := USED, pid := s.nextpid, maker := Some(i)) else q;
    PutCpus(s1, np, q');
    assert a != Continue ==> Put(s1, np, q') == s1;
    ReleaseCpus(Put(s1, np, q'), i, ProcLock(np), if a == Continue then ForkMade(np) else User);
  }

  lemma ForkRunCpus(s: Sys, i: nat, np: nat)
    requires Cpus(s) && i < |s.procs| && s.procs[i].on.Some? && np < |s.procs| && np != i && s.procs[i].pc == ForkRun(np)
    requires s.procs[np].on.None?
    ensures Cpus(ForkRunStep(s, i, np))
  {
    hide Cpus;
    var q := s.procs[np].(state := RUNNABLE, pc := ForkRet, maker := None);
    PutCpus(s, np, q);
    ReleaseCpus(Put(s, np, q), i, ProcLock(np), User);
  }

  lemma ReparentCpus(s: Sys, i: nat, st: int, j: nat)
    requires Cpus(s) && i < |s.procs| && s.procs[i].on.Some? && s.procs[i].pc == Reparent(st, j)
    ensures Cpus(ReparentStep(s, i, st, j))
  {
    hide Cpus;
    var t := ReparentStep(s, i, st, j);
    if j < |s.procs| && s.procs[j].parent == Some(i) {
      var q := s.procs[j].(parent := Some(INIT));
      PutCpus(s, j, q);
      PutCpus(Put(s, j, q), i, t.procs[i]);
    } else {
      PutCpus(s, i, t.procs[i]);
    }
  }

  lemma ExitSetCpus(s: Sys, i: nat, st: int)
    requires Cpus(s) && i < |s.procs| && s.procs[i].on.Some? && s.procs[i].pc == ExitSet(st)
    ensures Cpus(ExitSetStep(s, i, st))
  {
    hide Cpus;
    var s1 := s.(exits := s.exits[s.procs[i].pid := Exited(st, i)]);
    SameCpus(s, s1);
    PutCpus(s1, i, s1.procs[i].(state := ZOMBIE, xstate := st, pc := ExitRel));
  }

  lemma WaitScanCpus(s: Sys, i: nat, j: nat, kids: bool, a: Act)
    requires Cpus(s) && i < |s.procs| && s.procs[i].on.Some? && s.procs[i].pc == WaitScan(j, kids)
    ensures Cpus(WaitScanStep(s, i, j, kids, a))
  {
    hide Cpus;
    PutCpus(s, i, WaitScanStep(s, i, j, kids, a).procs[i]);
  }

  lemma WaitHasCpus(s: Sys, i: nat, j: nat, kids: bool, a: Act)
    requires Cpus(s) && Family(s) && i < |s.procs| && s.procs[i].on.Some? && j < |s.procs| && j != i && s.procs[i].pc == WaitHas(j, kids)
    ensures Cpus(WaitHasStep(s, i, j, kids, a))
  {
    var q := s.procs[j];
    OffCpu(s, i, j);
    hide Cpus, Family;
    if q.state != ZOMBIE {
      ReleaseCpus(s, i, ProcLock(j), WaitScan(j + 1, true));
    } else if a == Fail {
      ReleaseCpus(s, i, ProcLock(j), WaitEnd);
    } else {
      var s1 := s.(reaps := s.reaps[q.pid := q.xstate]);
      SameCpus(s, s1);
      PutCpus(s1, j, FreeProc(q));
      ReleaseCpus(Put(s1, j, FreeProc(q)), i, ProcLock(j), WaitEnd);
    }
  }

  lemma WakeCpus(s: Sys, i: nat, ch: Chan, k: nat, ret: Ret)
    requires Cpus(s) && i < |s.procs| && s.procs[i].on.Some? && s.procs[i].pc == Wake(ch, k, ret)
    requires RetOk(s, i, ch, ret)
    ensures Cpus(WakeStep(s, i, ch, k, ret))
  {
    hide Cpus;
    PutCpus(s, i, WakeStep(s, i, ch, k, ret).procs[i]);
  }

  lemma WakeHasCpus(s: Sys, i: nat, ch: Chan, k: nat, ret: Ret)
    requires Cpus(s) && i < |s.procs| && s.procs[i].on.Some? && k < |s.procs| && k != i && s.procs[i].pc == WakeHas(ch, k, ret)
    ensures Cpus(WakeHasStep(s, i, ch, k, ret))
  {
    hide Cpus;
    var q := s.procs[k];
    var q' := if q.state == SLEEPING && q.chan == Some(ch) then q.(state := RUNNABLE) else q;
    PutCpus(s, k, q');
    ReleaseCpus(Put(s, k, q'), i, ProcLock(k), Wake(ch, k + 1, ret));
  }

  lemma KillCpus(s: Sys, i: nat, j: nat, a: Act)
    requires Cpus(s) && i < |s.procs| && s.procs[i].on.Some? && j < |s.procs| && s.procs[i].pc == KillHas(j)
    ensures Cpus(KillStep(s, i, j, a))
  {
    hide Cpus;
    var q := s.procs[j];
    var q' := if q.state == SLEEPING && a != Fail then q.(state := RUNNABLE) else q;
    PutCpus(s, j, q');
    ReleaseCpus(Put(s, j, q'), i, ProcLock(j), User);
  }

  predicate CondNext(pc: Pc, c: nat) {
    match pc
    case User => true
    case SleepStart(ch) => ch.Obj? && ch.c == c
    case Wake(ch, k, ret) => ch.Obj? && ch.c == c && k == 0 && ret == ToCond(c)
    case _ => pc == Cond(c, Done)
  }

  /** What a step that holds only a condition lock can change. */
  lemma CondShape(s: Sys, i: nat, c: nat, u: Use, a: Act)
    requires i < |s.procs| && (c < s.nsl ==> |s.locked| == |s.lkpid| == s.nsl)
    ensures var t := CondStep(s, i, c, u, a);
            && |t.procs| == |s.procs|
            && t == s.(procs := s.procs[i := s.procs[i].(pc := t.procs[i].pc, mine := t.procs[i].mine)], held := t.held, locked := t.locked, lkpid := t.lkpid)
            && t.held == (if t.procs[i].pc == User then s.held - {CondLock(c)} else s.held)
            && CondNext(t.procs[i].pc, c)
  {
  }

  lemma CondCpus(s: Sys, i: nat, c: nat, u: Use, a: Act)
    requires Cpus(s) && i < |s.procs| && s.procs[i].on.Some? && s.procs[i].pc == Cond(c, u) && (c < s.nsl ==> |s.locked| == |s.lkpid| == s.nsl)
    ensures Cpus(CondStep(s, i, c, u, a))
  {
    hide Cpus, CondStep;
    var t := CondStep(s, i, c, u, a);
    CondShape(s, i, c, u, a);
    var s1 := s.(locked := t.locked, lkpid := t.lkpid);
    SameCpus(s, s1);
    var s2 := Put(s1, i, s.procs[i].(mine := t.procs[i].mine));
    PutCpus(s1, i, s.procs[i].(mine := t.procs[i].mine));
    if t.procs[i].pc == User {
      ReleaseCpus(s2, i, CondLock(c), User);
      assert t == Release(s2, i, CondLock(c), User);
    } else {
      PutCpus(s2, i, t.procs[i]);
      assert t == Put(s2, i, t.procs[i]);
    }
  }

  lemma AsleepCpus(s: Sys, i: nat, ch: Chan)
    requires Cpus(s) && i < |s.procs| && s.procs[i].on.Some? && s.procs[i].pc == Asleep(ch)
    ensures Cpus(Release(Put(s, i, s.procs[i].(chan := None)), i, ProcLock(i), SleepBack(ch)))
  {
    hide Cpus;
    PutCpus(s, i, s.procs[i].(chan := None));
    ReleaseCpus(Put(s, i, s.procs[i].(chan := None)), i, ProcLock(i), SleepBack(ch));
  }

  lemma ForkParentCpus(s: Sys, i: nat, np: nat)
    requires Cpus(s) && i < |s.procs| && s.procs[i].on.Some? && np < |s.procs| && np != i && s.procs[i].pc == ForkParent(np)
    ensures Cpus(Release(Put(s, np, s.procs[np].(parent := Some(i))), i, WaitLock, ForkLinked(np)))
  {
    hide Cpus;
    var q := s.procs[np].(parent := Some(i));
    PutCpus(s, np, q);
    ReleaseCpus(Put(s, np, q), i, WaitLock, ForkLinked(np));
  }

  /** Steps that only take or drop one spinlock. */
  predicate Plain(s: Sys, i: nat, a: Act)
    requires i < |s.procs|
  {
    Wants(s, i, a).Some? || Drops(s.procs[i].pc, i).Some?
  }

  lemma PlainLocks(s: Sys, i: nat, a: Act)
    requires Can(s, i, a) && Plain(s, i, a)
    ensures var pc, pc' := s.procs[i].pc, NextPc(s, s.procs[i].pc, a);
            && (Wants(s, i, a).Some? ==> PcLocks(pc', i) == PcLocks(pc, i) + {Wants(s, i, a).v})
            && (Wants(s, i, a).None? ==> Drops(pc, i).v in PcLocks(pc, i) && PcLocks(pc', i) == PcLocks(pc, i) - {Drops(pc, i).v})
            && pc' != Nothing && pc' != Dead && !pc'.Asleep? && !pc'.ExitRel? && (pc'.ExitSched? <==> pc.ExitRel?)
            && (OwnChan(pc, i) ==> OwnChan(pc', i))
  {
  }

  lemma PlainCpus(s: Sys, i: nat, a: Act)
    requires Cpus(s) && Can(s, i, a) && Plain(s, i, a)
    ensures Cpus(Do(s, i, a))
  {
    hide Cpus, Family, Acquire, Release, Switch, Put, Go, ForkHasStep, ForkRunStep, ReparentStep, ExitSetStep, WaitScanStep, WaitHasStep,
         WakeStep, WakeHasStep, KillStep, CondStep, NoKids, NoZombies, Calm, LateExit, PassedBy, PcLocks;
    PlainLocks(s, i, a);
    if Wants(s, i, a).Some? {
      AcquireCpus(s, i, Wants(s, i, a).v, NextPc(s, s.procs[i].pc, a));
    } else {
      ReleaseCpus(s, i, Drops(s.procs[i].pc, i).v, NextPc(s, s.procs[i].pc, a));
    }
  }

  lemma DoCpus(s: Sys, i: nat, a: Act)
    requires Cpus(s) && Family(s) && Can(s, i, a) && PcOk(s, i)
    ensures Cpus(Do(s, i, a))
  {
    hide Cpus, Family, Acquire, Release, Switch, Put, Go, ForkHasStep, ForkRunStep, ReparentStep, ExitSetStep, WaitScanStep, WaitHasStep,
         WakeStep, WakeHasStep, KillStep, CondStep, NoKids, NoZombies, Calm, LateExit, PassedBy, PcLocks;
    if Plain(s, i, a) {
      PlainCpus(s, i, a);
      return;
    }
    SwitchLocks(s.procs[i].pc, i);
    match s.procs[i].pc
    case Asleep(ch) => AsleepCpus(s, i, ch);
    case YieldHas(at) => SwitchCpus(s, i, s.procs[i].(state := RUNNABLE, pc := Yielded(at)));
    case ForkHas(np) => ForkHasCpus(s, i, np, a);
    case ForkParent(np) => ForkParentCpus(s, i, np);
    case ForkRun(np) =>
      UsedIsOff(s, np);
      ForkRunCpus(s, i, np);
    case Reparent(st, j) => ReparentCpus(s, i, st, j);
    case ExitSet(st) => ExitSetCpus(s, i, st);
    case ExitSched => SwitchCpus(s, i, s.procs[i].(pc := Dead));
    case WaitScan(j, kids) => WaitScanCpus(s, i, j, kids, a);
    case WaitHas(j, kids) => WaitHasCpus(s, i, j, kids, a);
    case SleepSet(ch) => SwitchCpus(s, i, s.procs[i].(chan := Some(ch), state := SLEEPING, pc := Asleep(ch)));
    case Wake(ch, k, ret) => WakeCpus(s, i, ch, k, ret);
    case WakeHas(ch, k, ret) => WakeHasCpus(s, i, ch, k, ret);
    case Cond(c, u) => CondCpus(s, i, c, u, a);
    case KillHas(j) => KillCpus(s, i, j, a);
    case _ =>
  }

  /** `sched` is only called with exactly p->lock held. */
  lemma SwitchLocks(pc: Pc, i: nat)
    ensures pc.YieldHas? || pc.SleepSet? || pc.ExitSched? ==> PcLocks(pc, i) == {ProcLock(i)}
  {
  }

  lemma UsedIsOff(s: Sys, np: nat)
    requires Family(s) && np < |s.procs| && s.procs[np].state == USED
    ensures s.procs[np].on.None? && s.procs[np].pc == Nothing
  {
    assert Local(s, np);
  }

  // ---- states, channels and parents

  lemma FamilyPut(s: Sys, t: Sys, i: nat)
    requires Family(s) && i < |s.procs| == |t.procs| && t.procs == s.procs[i := t.procs[i]] && t.nextpid >= s.nextpid
    requires Local(t, i) && ParentOk(t, i)
    requires Alive(s.procs[i].state) && !Alive(t.procs[i].state) ==> NoKids(s, i, |s.procs|)
    requires t.procs[i].state == USED ==> MakerOk(t, i)
    requires t.procs[i].pc == s.procs[i].pc || !Makes(s.procs[i].pc) || StillForking(s, i, t.procs[i].pc)
    ensures Family(t)
  {
    hide StateFits, OwnChan, Makes;
    forall q | 0 <= q < |t.procs| ensures Local(t, q) && ParentOk(t, q) && MakerOk(t, q) {
      assert Local(s, q) && ParentOk(s, q) && MakerOk(s, q);
    }
  }

  /** Whatever process `i` is making, it is still at it at program counter `pc`. */
  ghost predicate StillForking(s: Sys, i: nat, pc: Pc) {
    forall q :: 0 <= q < |s.procs| && s.procs[q].state == USED && s.procs[q].maker == Some(i) ==> IsForking(pc, q)
  }

  /** Only the program counter of a thread changes. */
  lemma FamilyPc(s: Sys, t: Sys, i: nat)
    requires Family(s) && i < |s.procs| == |t.procs| && t.procs == s.procs[i := s.procs[i].(pc := t.procs[i].pc)] && t.nextpid >= s.nextpid
    requires s.procs[i].on.Some? && s.procs[i].state == RUNNING && !s.procs[i].pc.Asleep?
    requires var pc := t.procs[i].pc; pc != Nothing && pc != Dead && !pc.ExitRel? && !pc.ExitSched? && !pc.Asleep? && OwnChan(pc, i)
    requires !Makes(s.procs[i].pc) || StillForking(s, i, t.procs[i].pc)
    ensures Family(t)
  {
    hide IsForking, StillForking, Makes;
    assert Local(s, i) && ParentOk(s, i) && MakerOk(s, i);
    FamilyPut(s, t, i);
  }

  lemma ForkHasFamily(s: Sys, i: nat, np: nat, a: Act)
    requires Family(s) && i < |s.procs| && s.procs[i].on.Some? && np < |s.procs| && s.procs[i].pc == ForkHas(np) && (a == Continue ==> np != i && s.procs[np].state == UNUSED)
    ensures Family(ForkHasStep(s, i, np, a))
  {
    hide Family, StillForking, MakerOk, NoKids;
    Locals(s, i);
    var q := s.procs[np];
    var s1 := if q.state == UNUSED then s.(nextpid := s.nextpid + 1) else s;
    FamilyPc(s, Go(s1, i, if a == Continue then ForkMade(np) else User), i);
    if a == Continue {
      ForkMadeFamily(Go(s1, i, ForkMade(np)), ForkHasStep(s, i, np, a), i, np, s.nextpid);
    } else {
      SameFamily(Go(s1, i, User), ForkHasStep(s, i, np, a));
    }
  }

  lemma ForkMadeFamily(s: Sys, t: Sys, i: nat, np: nat, pid: nat)
    requires Family(s) && i < |s.procs| && np < |s.procs| && i != np && s.procs[i].pc == ForkMade(np) && s.procs[np].state == UNUSED
    requires t.procs == s.procs[np := s.procs[np].(state := USED, pid := pid, maker := Some(i))] && 0 < pid < s.nextpid <= t.nextpid
    ensures Family(t)
  {
    Locals(s, np);
    hide Family, NoKids;
    FamilyPut(s, t, np);
  }

  lemma SameFamily(s: Sys, t: Sys)
    requires Family(s) && t.procs == s.procs && t.nextpid >= s.nextpid
    ensures Family(t)
  {
    forall q | 0 <= q < |t.procs| ensures Local(t, q) && ParentOk(t, q) && MakerOk(t, q) {
      assert Local(s, q) && ParentOk(s, q) && MakerOk(s, q);
    }
  }

  lemma Locals(s: Sys, i: nat)
    requires Family(s) && i < |s.procs|
    ensures Local(s, i) && ParentOk(s, i) && MakerOk(s, i)
    ensures s.procs[i].on.Some? && !s.procs[i].pc.ExitRel? && !s.procs[i].pc.ExitSched? ==> s.procs[i].state == RUNNING
  {
  }

  lemma ForkRunFamily(s: Sys, i: nat, np: nat)
    requires Family(s) && i < |s.procs| && s.procs[i].on.Some? && s.procs[i].pc == ForkRun(np) && Forking(s, i, np, Some(i))
    ensures Family(ForkRunStep(s, i, np))
  {
    hide Family, StillForking, MakerOk, NoKids;
    Locals(s, i);
    Locals(s, np);
    var t := Put(s, np, s.procs[np].(state := RUNNABLE, pc := ForkRet, maker := None));
    FamilyPut(s, t, np);
    MakesOnly(s, i, np);
    MakesNone(s, t, i, np);
    FamilyPc(t, ForkRunStep(s, i, np), i);
  }

  lemma MakesOnly(s: Sys, i: nat, np: nat)
    requires Family(s) && i < |s.procs| && Makes(s.procs[i].pc) && Doing(s.procs[i].pc).np == np
    ensures forall q :: 0 <= q < |s.procs| && s.procs[q].state == USED && s.procs[q].maker == Some(i) ==> q == np
  {
    forall q | 0 <= q < |s.procs| && s.procs[q].state == USED && s.procs[q].maker == Some(i) ensures q == np {
      assert MakerOk(s, q);
    }
  }

  lemma MakesNone(s: Sys, t: Sys, i: nat, np: nat)
    requires np < |s.procs| == |t.procs| && t.procs == s.procs[np := t.procs[np]] && t.procs[np].state != USED
    requires forall q :: 0 <= q < |s.procs| && s.procs[q].state == USED && s.procs[q].maker == Some(i) ==> q == np
    ensures forall pc :: StillForking(t, i, pc)
  {
  }

  lemma MakesStill(s: Sys, t: Sys, i: nat, np: nat, pc: Pc)
    requires |s.procs| == |t.procs| && Makes(pc) && Doing(pc).np == np
    requires forall q :: 0 <= q < |s.procs| && s.procs[q].state == USED && s.procs[q].maker == Some(i) ==> q == np
    requires forall q :: 0 <= q < |s.procs| ==> t.procs[q].state == s.procs[q].state && t.procs[q].maker == s.procs[q].maker
    ensures StillForking(t, i, pc)
  {
  }

  lemma MakerLinked(s: Sys, t: Sys, i: nat, np: nat)
    requires i < |s.procs| && np < |s.procs| && i != np && s.procs[i].pc == ForkParent(np) && s.procs[np].maker == Some(i)
    requires t.procs == s.procs[np := s.procs[np].(parent := Some(i))]
    ensures MakerOk(t, np)
  {
  }

  lemma NotUsedChild(s: Sys, i: nat, j: nat)
    requires Family(s) && i < |s.procs| && j < |s.procs| && s.procs[j].parent == Some(i) && !Makes(s.procs[i].pc)
    ensures s.procs[j].state != USED
  {
    assert MakerOk(s, j);
  }

  lemma ForkParentFamily(s: Sys, i: nat, np: nat)
    requires Family(s) && i < |s.procs| && s.procs[i].on.Some? && s.procs[i].pc == ForkParent(np) && Forking(s, i, np, None)
    ensures Family(Release(Put(s, np, s.procs[np].(parent := Some(i))), i, WaitLock, ForkLinked(np)))
  {
    hide Family, StillForking, MakerOk, NoKids;
    Locals(s, i);
    Locals(s, np);
    Locals(s, INIT);
    var t := Put(s, np, s.procs[np].(parent := Some(i)));
    MakerLinked(s, t, i, np);
    FamilyPut(s, t, np);
    MakesOnly(s, i, np);
    MakesStill(s, t, i, np, ForkLinked(np));
    FamilyPc(t, Release(t, i, WaitLock, ForkLinked(np)), i);
  }

  lemma ReparentFamily(s: Sys, i: nat, st: int, j: nat)
    requires Family(s) && i < |s.procs| && s.procs[i].on.Some? && s.procs[i].pc == Reparent(st, j) && i != INIT
    ensures Family(ReparentStep(s, i, st, j))
  {
    hide Family, StillForking, MakerOk, NoKids;
    Locals(s, i);
    Locals(s, INIT);
    var t := ReparentStep(s, i, st, j);
    if j < |s.procs| && s.procs[j].parent == Some(i) {
      Locals(s, j);
      NotUsedChild(s, i, j);
      var s1 := Put(s, j, s.procs[j].(parent := Some(INIT)));
      FamilyPut(s, s1, j);
      FamilyPc(s1, t, i);
    } else {
      FamilyPc(s, t, i);
    }
  }

  lemma ExitSetFamily(s: Sys, i: nat, st: int)
    requires Family(s) && i < |s.procs| && s.procs[i].on.Some? && s.procs[i].pc == ExitSet(st) && LateExit(s, i)
    ensures Family(ExitSetStep(s, i, st))
  {
    hide Family, StillForking, MakerOk, NoKids, Dozing;
    Locals(s, i);
    FamilyPut(s, ExitSetStep(s, i, st), i);
  }

  lemma ChildOff(s: Sys, i: nat, j: nat)
    requires Family(s) && Cpus(s) && i < |s.procs| && s.procs[i].on.Some? && j < |s.procs| && j != i && s.procs[i].pc.WaitHas? && s.procs[i].pc.j == j
    ensures s.procs[j].state == ZOMBIE ==> s.procs[j].on == None
  {
    OffCpu(s, i, j);
  }

  lemma WaitHasFamily(s: Sys, i: nat, j: nat, kids: bool, a: Act)
    requires Family(s) && i < |s.procs| && s.procs[i].on.Some? && j < |s.procs| && j != i && s.procs[i].pc == WaitHas(j, kids)
    requires s.procs[j].state == ZOMBIE ==> s.procs[j].on == None
    ensures Family(WaitHasStep(s, i, j, kids, a))
  {
    hide Family, StillForking, MakerOk, NoKids, Local, ParentOk;
    Locals(s, i);
    var q := s.procs[j];
    var t := WaitHasStep(s, i, j, kids, a);
    if q.state != ZOMBIE || a == Fail {
      FamilyPc(s, t, i);
    } else {
      ReapFamily(s, j);
      FamilyPc(Put(s, j, FreeProc(q)), t, i);
    }
  }

  lemma ReapFamily(s: Sys, j: nat)
    requires Family(s) && j < |s.procs| && s.procs[j].state == ZOMBIE && s.procs[j].on == None
    ensures Family(Put(s, j, FreeProc(s.procs[j])))
  {
    hide Family, StillForking, MakerOk, NoKids;
    Locals(s, j);
    FamilyPut(s, Put(s, j, FreeProc(s.procs[j])), j);
  }

  lemma WaitScanFamily(s: Sys, i: nat, j: nat, kids: bool, a: Act)
    requires Family(s) && i < |s.procs| && s.procs[i].on.Some? && s.procs[i].pc == WaitScan(j, kids)
    ensures Family(WaitScanStep(s, i, j, kids, a))
  {
    hide Family, StillForking, MakerOk;
    Locals(s, i);
    FamilyPc(s, WaitScanStep(s, i, j, kids, a), i);
  }

  lemma WakeFamily(s: Sys, i: nat, ch: Chan, k: nat, ret: Ret)
    requires Family(s) && i < |s.procs| && s.procs[i].on.Some? && s.procs[i].pc == Wake(ch, k, ret)
    ensures Family(WakeStep(s, i, ch, k, ret))
  {
    hide Family, StillForking, MakerOk;
    Locals(s, i);
    FamilyPc(s, WakeStep(s, i, ch, k, ret), i);
  }

  /** `wakeup` and `kkill`: a sleeper becomes runnable. */
  lemma RouseFamily(s: Sys, k: nat)
    requires Family(s) && k < |s.procs| && s.procs[k].state == SLEEPING
    ensures Family(Put(s, k, s.procs[k].(state := RUNNABLE)))
  {
    hide Family, StillForking, MakerOk, NoKids;
    Locals(s, k);
    FamilyPut(s, Put(s, k, s.procs[k].(state := RUNNABLE)), k);
  }

  lemma WakeHasFamily(s: Sys, i: nat, ch: Chan, k: nat, ret: Ret)
    requires Family(s) && i < |s.procs| && s.procs[i].on.Some? && k < |s.procs| && k != i && s.procs[i].pc == WakeHas(ch, k, ret)
    ensures Family(WakeHasStep(s, i, ch, k, ret))
  {
    hide Family, StillForking, MakerOk;
    Locals(s, i);
    var q := s.procs[k];
    var wake := q.state == SLEEPING && q.chan == Some(ch);
    if wake {
      RouseFamily(s, k);
    }
    FamilyPc(if wake then Put(s, k, q.(state := RUNNABLE)) else s, WakeHasStep(s, i, ch, k, ret), i);
  }

  lemma KillFamily(s: Sys, i: nat, j: nat, a: Act)
    requires Family(s) && i < |s.procs| && s.procs[i].on.Some? && j < |s.procs| && s.procs[i].pc == KillHas(j)
    ensures Family(KillStep(s, i, j, a))
  {
    hide Family, StillForking, MakerOk;
    Locals(s, i);
    var q := s.procs[j];
    var wake := q.state == SLEEPING && a != Fail;
    if wake {
      RouseFamily(s, j);
    }
    FamilyPc(if wake then Put(s, j, q.(state := RUNNABLE)) else s, KillStep(s, i, j, a), i);
  }

  lemma CondFamily(s: Sys, i: nat, c: nat, u: Use, a: Act)
    requires Family(s) && i < |s.procs| && s.procs[i].on.Some? && s.procs[i].pc == Cond(c, u) && (c < s.nsl ==> |s.locked| == |s.lkpid| == s.nsl)
    ensures Family(CondStep(s, i, c, u, a))
  {
    hide Family, StillForking, MakerOk, NoKids, CondStep;
    Locals(s, i);
    CondShape(s, i, c, u, a);
    FamilyPut(s, CondStep(s, i, c, u, a), i);
  }

  lemma SameMaking(s: Sys, i: nat, pc: Pc)
    requires Family(s) && i < |s.procs| && Doing(pc) == Doing(s.procs[i].pc)
    ensures StillForking(s, i, pc)
  {
    forall q | 0 <= q < |s.procs| && s.procs[q].state == USED && s.procs[q].maker == Some(i) ensures IsForking(pc, q) {
      assert MakerOk(s, q);
    }
  }

  /** Going off the CPU in `sched`. */
  lemma SwitchFamily(s: Sys, i: nat, p: Proc)
    requires Family(s) && i < |s.procs| && s.procs[i].on.Some? && s.procs[i].on.v < |s.cpus| && !s.procs[i].pc.Asleep?
    requires !Makes(s.procs[i].pc) || p.pc.Yielded?
    requires if p.pc.Dead? then s.procs[i].pc == ExitSched && p == s.procs[i].(pc := Dead)
             else
               && !s.procs[i].pc.ExitRel? && !s.procs[i].pc.ExitSched?
               && ((s.procs[i].pc.YieldHas? && p == s.procs[i].(state := RUNNABLE, pc := Yielded(s.procs[i].pc.at))) ||
                   (p.pc.Asleep? && p == s.procs[i].(state := SLEEPING, chan := Some(p.pc.ch), pc := p.pc) && OwnChan(p.pc, i)))
    ensures Family(Switch(s, i, p))
  {
    hide Family, StillForking, MakerOk, NoKids;
    Locals(s, i);
    if p.pc.Yielded? {
      SameMaking(s, i, p.pc);
    }
    FamilyPut(s, Switch(s, i, p), i);
  }

  lemma PlainMaking(s: Sys, i: nat, a: Act)
    requires Family(s) && Can(s, i, a) && Plain(s, i, a)
    ensures Makes(s.procs[i].pc) ==> StillForking(s, i, NextPc(s, s.procs[i].pc, a))
  {
    forall q | 0 <= q < |s.procs| && s.procs[q].state == USED && s.procs[q].maker == Some(i) ensures IsForking(s.procs[i].pc, q) {
      assert MakerOk(s, q);
    }
  }

  lemma PlainFamily(s: Sys, i: nat, a: Act)
    requires Family(s) && Can(s, i, a) && Plain(s, i, a) && PcOk(s, i)
    ensures Family(Do(s, i, a))
  {
    hide Family, StillForking, MakerOk, NoKids, NextPc, NoZombies, Calm, LateExit, PassedBy, PcLocks;
    Locals(s, i);
    PlainLocks(s, i, a);
    PlainMaking(s, i, a);
    var t := Do(s, i, a);
    if s.procs[i].pc.ExitRel? {
      FamilyPut(s, t, i);
    } else if s.procs[i].pc.ForkRet? || s.procs[i].pc.Yielded? {
      FamilyPut(s, t, i);
    } else {
      FamilyPc(s, t, i);
    }
  }

  lemma AsleepFamily(s: Sys, i: nat, ch: Chan)
    requires Family(s) && i < |s.procs| && s.procs[i].on.Some? && s.procs[i].pc == Asleep(ch)
    ensures Family(Release(Put(s, i, s.procs[i].(chan := None)), i, ProcLock(i), SleepBack(ch)))
  {
    hide Family, StillForking, MakerOk, NoKids;
    Locals(s, i);
    FamilyPut(s, Release(Put(s, i, s.procs[i].(chan := None)), i, ProcLock(i), SleepBack(ch)), i);
  }

  lemma DoFamily(s: Sys, i: nat, a: Act)
    requires Cpus(s) && Family(s) && Can(s, i, a) && PcOk(s, i)
    ensures Family(Do(s, i, a))
  {
    hide Cpus, Family, Acquire, Release, Switch, Put, Go, ForkHasStep, ForkRunStep, ReparentStep, ExitSetStep, WaitScanStep, WaitHasStep,
         WakeStep, WakeHasStep, KillStep, CondStep, NoKids, NoZombies, Calm, LateExit, PassedBy, PcLocks;
    if Plain(s, i, a) {
      PlainFamily(s, i, a);
      return;
    }
    Locals(s, i);
    match s.procs[i].pc
    case Asleep(ch) => AsleepFamily(s, i, ch);
    case YieldHas(at) => SwitchFamily(s, i, s.procs[i].(state := RUNNABLE, pc := Yielded(at)));
    case ForkHas(np) => ForkHasFamily(s, i, np, a);
    case ForkParent(np) => ForkParentFamily(s, i, np);
    case ForkRun(np) => ForkRunFamily(s, i, np);
    case Reparent(st, j) => ReparentFamily(s, i, st, j);
    case ExitSet(st) => ExitSetFamily(s, i, st);
    case ExitSched => SwitchFamily(s, i, s.procs[i].(pc := Dead));
    case WaitScan(j, kids) => WaitScanFamily(s, i, j, kids, a);
    case WaitHas(j, kids) =>
      ChildOff(s, i, j);
      WaitHasFamily(s, i, j, kids, a);
    case SleepSet(ch) => SwitchFamily(s, i, s.procs[i].(chan := Some(ch), state := SLEEPING, pc := Asleep(ch)));
    case Wake(ch, k, ret) => WakeFamily(s, i, ch, k, ret);
    case WakeHas(ch, k, ret) => WakeHasFamily(s, i, ch, k, ret);
    case Cond(c, u) => CondFamily(s, i, c, u, a);
    case KillHas(j) => KillFamily(s, i, j, a);
    case _ =>
  }

  lemma ScheduleFamily(s: Sys, c: nat, k: Pick)
    requires Cpus(s) && Family(s) && CanSchedule(s, c, k)
    ensures Family(Schedule(s, c, k))
  {
    hide Family, StillForking, MakerOk, NoKids, Cpus;
    var t := Schedule(s, c, k);
    if s.cpus[c].Looking? && s.procs[s.cpus[c].p].state == RUNNABLE {
      Locals(s, s.cpus[c].p);
      FamilyPut(s, t, s.cpus[c].p);
    } else {
      Locals0(s);
      Locals(s, 0);
      FamilyPut(s, t, 0);
    }
  }

  lemma HandleFamily(s: Sys, c: nat, q: Irq)
    requires Family(s) && CanHandle(s, c, q)
    ensures Family(Handle(s, c, q))
  {
    hide Family;
    var t := Handle(s, c, q);
    if s.cpus[c].HandlerHas? && Roused(s.procs[s.cpus[c].k], s.cpus[c].ch) != s.procs[s.cpus[c].k] {
      RouseFamily(s, s.cpus[c].k);
      SameFamily(Put(s, s.cpus[c].k, s.procs[s.cpus[c].k].(state := RUNNABLE)), t);
    } else {
      SameFamily(s, t);
    }
  }

  lemma Locals0(s: Sys)
    requires Family(s)
    ensures |s.procs| > 0
  {
  }
}
