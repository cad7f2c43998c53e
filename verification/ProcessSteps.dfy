/** What each step of a thread does to the knowledge of the others. */
module ProcessSteps {
  import opened Processes
  import opened ProcessInvariant
  import opened ProcessProofs
  import opened ProcessKnowledge

  lemma SwitchMild(s: Sys, i: nat, p: Proc)
    requires Cpus(s) && i < |s.procs| && s.procs[i].on.Some? && s.procs[i].on.v < |s.cpus|
    ensures Mild(s, Switch(s, i, p), i)
  {
    hide PcLocks;
  }

  /** Steps after which the thread knows nothing in particular. */
  lemma QuietGood(s: Sys, t: Sys, i: nat, j: nat)
    requires Mild(s, t, i) && j < |s.procs| && t.locked == s.locked && i < |t.procs|
    requires forall q :: 0 <= q < |s.procs| && q != i && q != j ==> t.procs[q] == s.procs[q]
    requires CalmChange(s, t, i, i) && CalmChange(s, t, i, j) && (j != i ==> SamePc(s, t, j))
    requires !s.procs[i].pc.Wake? && !s.procs[i].pc.WakeHas? && PcOk(t, i)
    ensures Good(s, t, i)
  {
    hide Effects, News, PcOk;
    QuietStep(s, t, i, j);
  }

  lemma AsleepGood(s: Sys, i: nat, ch: Chan)
    requires Family(s) && i < |s.procs| && s.procs[i].on.Some? && s.procs[i].pc == Asleep(ch)
    ensures Good(s, Release(Put(s, i, s.procs[i].(chan := None)), i, ProcLock(i), SleepBack(ch)), i)
  {
    hide Family, Mild, Good;
    var t := Release(Put(s, i, s.procs[i].(chan := None)), i, ProcLock(i), SleepBack(ch));
    Locals(s, i);
    ReleaseMild(s, t, i, ProcLock(i));
    QuietGood(s, t, i, i);
  }

  lemma SwitchGood(s: Sys, i: nat, p: Proc)
    requires Cpus(s) && Family(s) && i < |s.procs| && s.procs[i].on.Some? && s.procs[i].on.v < |s.cpus|
    requires if p.pc.Dead? then s.procs[i].pc == ExitSched && p == s.procs[i].(pc := Dead)
             else
               && !s.procs[i].pc.ExitRel? && !s.procs[i].pc.ExitSched?
               && ((s.procs[i].pc.YieldHas? && PcOk(s, i) && p == s.procs[i].(state := RUNNABLE, pc := Yielded(s.procs[i].pc.at))) ||
                   (p.pc.Asleep? && s.procs[i].pc == SleepSet(p.pc.ch) && p == s.procs[i].(state := SLEEPING, chan := Some(p.pc.ch), pc := p.pc)))
    ensures Good(s, Switch(s, i, p), i)
  {
    hide Family, Mild, Good, Cpus;
    Locals(s, i);
    SwitchMild(s, i, p);
    QuietGood(s, Switch(s, i, p), i, i);
  }

  lemma ForkHasGood(s: Sys, i: nat, np: nat, a: Act)
    requires Family(s) && i < |s.procs| && s.procs[i].on.Some? && np < |s.procs| && s.procs[i].pc == ForkHas(np)
    requires a == Continue ==> np != i && s.procs[np].state == UNUSED
    ensures Good(s, ForkHasStep(s, i, np, a), i)
  {
    hide Family, Mild, Good;
    var t := ForkHasStep(s, i, np, a);
    Locals(s, i);
    Locals(s, np);
    ReleaseMild(s, t, i, ProcLock(np));
    QuietGood(s, t, i, np);
  }

  lemma ForkRunGood(s: Sys, i: nat, np: nat)
    requires Family(s) && i < |s.procs| && s.procs[i].on.Some? && s.procs[i].pc == ForkRun(np) && Forking(s, i, np, Some(i))
    ensures Good(s, ForkRunStep(s, i, np), i)
  {
    hide Family, Mild, Good;
    var t := ForkRunStep(s, i, np);
    Locals(s, i);
    Locals(s, np);
    ReleaseMild(s, t, i, ProcLock(np));
    QuietGood(s, t, i, np);
  }

  lemma WaitScanGood(s: Sys, i: nat, j: nat, kids: bool, a: Act)
    requires Family(s) && i < |s.procs| && s.procs[i].on.Some? && s.procs[i].pc == WaitScan(j, kids) && NoZombies(s, i, j) && (kids <==> !NoKids(s, i, j))
    requires j < |s.procs| ==> s.procs[j].parent != Some(i)
    ensures Good(s, WaitScanStep(s, i, j, kids, a), i)
  {
    hide Family, Good, PcLocks;
    var t := WaitScanStep(s, i, j, kids, a);
    Locals(s, i);
    ScannedOn(s, t, i, j);
    QuietGood(s, t, i, i);
  }

  lemma ScannedOn(s: Sys, t: Sys, i: nat, j: nat)
    requires i < |s.procs| == |t.procs| && NoZombies(s, i, j) && (j < |s.procs| ==> !ZombieOf(s, j, i))
    requires t.procs == s.procs[i := s.procs[i].(pc := t.procs[i].pc)]
    ensures NoZombies(t, i, j + 1) && (j >= |s.procs| ==> NoZombies(t, i, |t.procs|))
    ensures j < |s.procs| ==> (NoKids(t, i, j + 1) <==> NoKids(s, i, j) && s.procs[j].parent != Some(i))
  {
    forall z | 0 <= z < j + 1 && z < |t.procs| ensures !ZombieOf(t, z, i) {
      assert !ZombieOf(s, z, i);
    }
    assert forall z :: 0 <= z < |s.procs| ==> t.procs[z].parent == s.procs[z].parent;
    if j < |s.procs| && NoKids(t, i, j + 1) {
      assert t.procs[j].parent != Some(i);
    }
  }

  lemma WaitKeepGood(s: Sys, i: nat, j: nat, kids: bool, a: Act)
    requires Family(s) && i < |s.procs| && s.procs[i].on.Some? && j < |s.procs| && j != i && s.procs[i].pc == WaitHas(j, kids) && NoZombies(s, i, j) && s.procs[j].parent == Some(i)
    requires s.procs[j].state != ZOMBIE || a == Fail
    ensures Good(s, WaitHasStep(s, i, j, kids, a), i)
  {
    hide Family, Good, Mild;
    var t := WaitHasStep(s, i, j, kids, a);
    Locals(s, i);
    ReleaseMild(s, t, i, ProcLock(j));
    if s.procs[j].state != ZOMBIE {
      ScannedOn(s, t, i, j);
    }
    QuietGood(s, t, i, i);
  }

  lemma KillGood(s: Sys, i: nat, j: nat, a: Act)
    requires Family(s) && i < |s.procs| && s.procs[i].on.Some? && j < |s.procs| && s.procs[i].pc == KillHas(j)
    ensures Good(s, KillStep(s, i, j, a), i)
  {
    hide Family, Good, Mild;
    var t := KillStep(s, i, j, a);
    Locals(s, i);
    Locals(s, j);
    ReleaseMild(s, t, i, ProcLock(j));
    QuietGood(s, t, i, j);
  }

  // ---- wakeup

  /** The wakeups that a thread inside `wakeup` has yet to do. */
  lemma OwnWake(t: Sys, i: nat, ch: Chan, q: nat)
    requires Cpus(t) && i < |t.procs| && t.procs[i].on.Some? && Coming(t.procs[i].pc, ch, q)
    ensures BeingWoken(t, ch, q)
  {
    Holds(t, i, LockOf(ch));
  }

  /** A thread in `wakeup` moves on past process `k`, which is not dozing on its channel any more. */
  lemma WakeMoves(s: Sys, t: Sys, i: nat, j: nat)
    requires Mild(s, t, i) && j < |s.procs| && t.locked == s.locked && i < |t.procs| && Cpus(t) && t.procs[i].on.Some?
    requires forall q :: 0 <= q < |s.procs| && q != i && q != j ==> t.procs[q] == s.procs[q]
    requires CalmChange(s, t, i, i) && CalmChange(s, t, i, j) && (j != i ==> SamePc(s, t, j))
    requires PcOk(t, i)
    requires forall q, ch :: Coming(s.procs[i].pc, ch, q) && Dozing(t, q, ch) ==> Coming(t.procs[i].pc, ch, q)
    ensures Good(s, t, i)
  {
    hide PcOk, Cpus, Coming, Dozing, BeingWoken, CalmChange, PcLocks, SamePc;
    QuietStep(s, t, i, j);
    forall q: nat, ch | Coming(s.procs[i].pc, ch, q) && Dozing(t, q, ch) ensures BeingWoken(t, ch, q) {
      OwnWake(t, i, ch, q);
    }
  }

  lemma WakeGood(s: Sys, i: nat, a: Act)
    requires Cpus(s) && Family(s) && Can(s, i, a) && s.procs[i].pc.Wake? && PcOk(s, i) && Cpus(Do(s, i, a))
    ensures Good(s, Do(s, i, a), i)
  {
    var p := s.procs[i];
    var ch, k, ret := p.pc.ch, p.pc.k, p.pc.ret;
    var t := Do(s, i, a);
    WakeShape(s, i, a);
    WakeKnows(s, t, i);
    hide Do, Can, Cpus, Family, Good, PcOk, Mild;
    Locals(s, i);
    WakeMoves(s, t, i, i);
  }

  lemma WakeShape(s: Sys, i: nat, a: Act)
    requires Can(s, i, a) && s.procs[i].pc.Wake?
    ensures var t := Do(s, i, a);
            var ch, k, ret := s.procs[i].pc.ch, s.procs[i].pc.k, s.procs[i].pc.ret;
            && Mild(s, t, i) && |t.procs| == |s.procs|
            && t == s.(procs := s.procs[i := s.procs[i].(pc := t.procs[i].pc)], held := t.held)
            && t.procs[i].pc == if k >= |s.procs| then AfterWake(s, ret) else if k == i then Wake(ch, k + 1, ret) else WakeHas(ch, k, ret)
  {
    hide PcLocks;
  }

  lemma WakeKnows(s: Sys, t: Sys, i: nat)
    requires Family(s) && i < |s.procs| == |t.procs| && s.procs[i].pc.Wake? && PcOk(s, i)
    requires t == s.(procs := s.procs[i := s.procs[i].(pc := t.procs[i].pc)], held := t.held)
    requires var ch, k, ret := s.procs[i].pc.ch, s.procs[i].pc.k, s.procs[i].pc.ret;
             t.procs[i].pc == if k >= |s.procs| then AfterWake(s, ret) else if k == i then Wake(ch, k + 1, ret) else WakeHas(ch, k, ret)
    ensures PcOk(t, i)
    ensures forall q, ch :: Coming(s.procs[i].pc, ch, q) && Dozing(t, q, ch) ==> Coming(t.procs[i].pc, ch, q)
    ensures !t.procs[i].pc.SleepSet? && !t.procs[i].pc.Asleep?
  {
    Locals(s, i);
    MovesOn(s, t, i);
    assert !Dozing(t, i, s.procs[i].pc.ch);
    hide Family, NoKids, Local;
  }

  lemma WakeHasGood(s: Sys, i: nat, ch: Chan, k: nat, ret: Ret)
    requires Cpus(s) && Family(s) && i < |s.procs| && s.procs[i].on.Some? && k < |s.procs| && k != i && s.procs[i].pc == WakeHas(ch, k, ret) && PcOk(s, i)
    requires Cpus(WakeHasStep(s, i, ch, k, ret))
    ensures Good(s, WakeHasStep(s, i, ch, k, ret), i)
  {
    var t := WakeHasStep(s, i, ch, k, ret);
    ReleaseMild(s, t, i, ProcLock(k));
    WakeHasKnows(s, i, ch, k, ret);
    Locals(s, i);
    Locals(s, k);
    hide Cpus, Family, Good, PcOk, Mild;
    WakeMoves(s, t, i, k);
  }

  lemma WakeHasKnows(s: Sys, i: nat, ch: Chan, k: nat, ret: Ret)
    requires Cpus(s) && Family(s) && i < |s.procs| && s.procs[i].on.Some? && k < |s.procs| && k != i && s.procs[i].pc == WakeHas(ch, k, ret) && PcOk(s, i)
    ensures var t := WakeHasStep(s, i, ch, k, ret);
            && PcOk(t, i)
            && forall q, ch :: Coming(s.procs[i].pc, ch, q) && Dozing(t, q, ch) ==> Coming(t.procs[i].pc, ch, q)
  {
    var t := WakeHasStep(s, i, ch, k, ret);
    Locals(s, k);
    assert !Dozing(t, k, ch) by {
      if s.procs[k].pc == SleepSet(ch) {
        Exclusive(s, i, k, ProcLock(k));
      }
    }
    forall q: nat | q < k && q < |t.procs| && q != i ensures !Dozing(t, q, ch) {
      assert !Dozing(s, q, ch);
    }
    assert NoKids(s, i, if ret.ToReparent? then ret.j else |s.procs|) ==> NoKids(t, i, if ret.ToReparent? then ret.j else |s.procs|);
  }

  // ---- steps that others may have to hear of

  predicate DozesUnder(s: Sys, t: Sys, i: nat, x: nat)
    requires x < |s.procs| == |t.procs| && i < |s.procs|
  {
    (t.procs[x].pc.SleepSet? || (t.procs[x].pc.Asleep? && t.procs[x].state == SLEEPING)) ==>
      Dozing(s, x, t.procs[x].pc.ch) || LockOf(t.procs[x].pc.ch) in PcLocks(s.procs[i].pc, i)
  }

  lemma LoudEffects(s: Sys, t: Sys, i: nat, j: nat)
    requires Mild(s, t, i) && j < |s.procs|
    requires forall q :: 0 <= q < |s.procs| && q != i && q != j ==> t.procs[q] == s.procs[q]
    requires WaitLock in PcLocks(s.procs[i].pc, i) || (SameParent(s, t, i) && SameParent(s, t, j))
    requires UsedKept(s, t, i, i) && UsedKept(s, t, i, j) && DozesUnder(s, t, i, i) && DozesUnder(s, t, i, j) && (j != i ==> SamePc(s, t, j))
    requires forall c :: 0 <= c < |s.locked| ==> t.locked[c] == s.locked[c] || CondLock(c) in PcLocks(s.procs[i].pc, i)
    ensures Effects(s, t, i)
  {
    hide PcLocks;
    forall z | 0 <= z < |s.procs| ensures UsedKept(s, t, i, z) {
    }
    forall x: nat, ch | Dozing(t, x, ch) ensures Dozing(s, x, ch) || LockOf(ch) in PcLocks(s.procs[i].pc, i) {
      assert x == i || x == j || t.procs[x] == s.procs[x];
    }
    if SameParent(s, t, i) && SameParent(s, t, j) {
      forall z | 0 <= z < |s.procs| ensures SameParent(s, t, z) {
      }
    }
  }

  /** Going to sleep without a reason to be woken. */
  lemma SleepRelGood(s: Sys, i: nat, ch: Chan)
    requires Family(s) && i < |s.procs| && s.procs[i].on.Some? && s.procs[i].pc == SleepRel(ch) && Calm(s, ch) && |s.locked| == s.nsl
    ensures Good(s, Release(s, i, LockOf(ch), SleepSet(ch)), i)
  {
    hide Family;
    var t := Release(s, i, LockOf(ch), SleepSet(ch));
    Locals(s, i);
    ReleaseMild(s, t, i, LockOf(ch));
    LoudEffects(s, t, i, i);
    forall z: nat, q: nat | ZombieOf(t, z, q) && Dozing(t, q, ProcChan(q)) ensures ZombieOf(s, z, q) && Dozing(s, q, ProcChan(q)) {
      assert ZombieOf(s, z, q);
    }
  }

  lemma ForkParentGood(s: Sys, i: nat, np: nat)
    requires Family(s) && i < |s.procs| && s.procs[i].on.Some? && s.procs[i].pc == ForkParent(np) && Forking(s, i, np, None)
    ensures Good(s, Release(Put(s, np, s.procs[np].(parent := Some(i))), i, WaitLock, ForkLinked(np)), i)
  {
    hide Family;
    var t := Release(Put(s, np, s.procs[np].(parent := Some(i))), i, WaitLock, ForkLinked(np));
    Locals(s, i);
    Locals(s, np);
    ReleaseMild(s, t, i, WaitLock);
    LoudEffects(s, t, i, np);
    forall z, q | ZombieOf(t, z, q) ensures ZombieOf(s, z, q) {
    }
  }

  /** One round of `reparent`: init gets a child, and is woken next. */
  lemma ReparentGood(s: Sys, i: nat, st: int, j: nat)
    requires Family(s) && i < |s.procs| && s.procs[i].on.Some? && j < |s.procs| && s.procs[j].parent == Some(i) && j != i
    requires s.procs[i].pc == Reparent(st, j) && i != INIT && NoKids(s, i, j) && s.procs[j].state != USED
    requires Cpus(ReparentStep(s, i, st, j))
    ensures Good(s, ReparentStep(s, i, st, j), i)
  {
    hide Family, Cpus;
    var t := ReparentStep(s, i, st, j);
    Locals(s, i);
    Locals(s, j);
    LoudEffects(s, t, i, j);
    OwnWake(t, i, ProcChan(INIT), INIT);
    forall z: nat, q: nat | ZombieOf(t, z, q) && q != INIT ensures ZombieOf(s, z, q) {
    }
    assert forall q: nat, ch :: Dozing(t, q, ch) ==> Dozing(s, q, ch);
    assert NoKids(t, i, j + 1);
  }

  lemma ReparentOnGood(s: Sys, i: nat, st: int, j: nat)
    requires Family(s) && i < |s.procs| && s.procs[i].on.Some? && (j < |s.procs| ==> s.procs[j].parent != Some(i))
    requires s.procs[i].pc == Reparent(st, j) && i != INIT && NoKids(s, i, j)
    ensures Good(s, ReparentStep(s, i, st, j), i)
  {
    hide Family, Good, Dozing;
    var t := ReparentStep(s, i, st, j);
    Locals(s, i);
    assert NoKids(t, i, j + 1) && (j >= |s.procs| ==> NoKids(t, i, |t.procs|));
    QuietGood(s, t, i, i);
  }

  /** The exiting process becomes a zombie; its parent has just been woken. */
  lemma ExitSetGood(s: Sys, i: nat, st: int)
    requires Family(s) && i < |s.procs| && s.procs[i].on.Some? && s.procs[i].pc == ExitSet(st) && LateExit(s, i)
    ensures Good(s, ExitSetStep(s, i, st), i)
  {
    hide Family, NoKids;
    var t := ExitSetStep(s, i, st);
    Locals(s, i);
    LoudEffects(s, t, i, i);
    forall z: nat, q: nat | ZombieOf(t, z, q) && Dozing(t, q, ProcChan(q)) ensures ZombieOf(s, z, q) && Dozing(s, q, ProcChan(q)) {
      assert z != i ==> ZombieOf(s, z, q);
    }
  }

  /** A zombie is freed. */
  lemma ReapGood(s: Sys, i: nat, j: nat, kids: bool, a: Act)
    requires Family(s) && i < |s.procs| && s.procs[i].on.Some? && j < |s.procs| && j != i && s.procs[i].pc == WaitHas(j, kids)
    requires s.procs[j].state == ZOMBIE && s.procs[j].on == None && a != Fail
    ensures Good(s, WaitHasStep(s, i, j, kids, a), i)
  {
    hide Family;
    var t := WaitHasStep(s, i, j, kids, a);
    Locals(s, i);
    Locals(s, j);
    ReleaseMild(s, t, i, ProcLock(j));
    LoudEffects(s, t, i, j);
    forall z, q | ZombieOf(t, z, q) ensures ZombieOf(s, z, q) {
    }
    assert forall q: nat, ch :: Dozing(t, q, ch) ==> Dozing(s, q, ch);
  }

  lemma CondQuietGood(s: Sys, i: nat, c: nat, u: Use, a: Act)
    requires Family(s) && i < |s.procs| && s.procs[i].on.Some? && s.procs[i].pc == Cond(c, u) && |s.locked| == |s.lkpid| == s.nsl
    requires PcOk(s, i) && (c < s.nsl ==> u == Done || (u == Acquiring && s.locked[c]))
    ensures Good(s, CondStep(s, i, c, u, a), i)
  {
    hide Family, Good, Mild;
    var t := CondStep(s, i, c, u, a);
    Locals(s, i);
    if t.procs[i].pc == User {
      ReleaseMild(s, t, i, CondLock(c));
    } else {
      GoMild(s, i, t.procs[i].pc);
    }
    QuietGood(s, t, i, i);
  }

  lemma GoMild(s: Sys, i: nat, pc: Pc)
    requires i < |s.procs| && s.procs[i].on.Some?
    ensures Mild(s, Go(s, i, pc), i)
  {
    hide PcLocks;
  }

  /** `acquiresleep` and `releasesleep` set the lock; whoever waits for it is woken next. */
  lemma CondSetGood(s: Sys, i: nat, c: nat, u: Use, a: Act)
    requires Family(s) && i < |s.procs| && s.procs[i].on.Some? && s.procs[i].pc == Cond(c, u) && |s.locked| == |s.lkpid| == s.nsl
    requires c < s.nsl && (u == Releasing || (u == Acquiring && !s.locked[c])) && Cpus(CondStep(s, i, c, u, a))
    ensures Good(s, CondStep(s, i, c, u, a), i)
  {
    hide Family, Cpus;
    var t := CondStep(s, i, c, u, a);
    Locals(s, i);
    LoudEffects(s, t, i, i);
    forall q: nat | u == Releasing ensures BeingWoken(t, Obj(c, 0), q) {
      OwnWake(t, i, Obj(c, 0), q);
    }
    forall z, q | ZombieOf(t, z, q) ensures ZombieOf(s, z, q) {
    }
    assert forall q: nat, ch :: Dozing(t, q, ch) ==> Dozing(s, q, ch);
  }
}
