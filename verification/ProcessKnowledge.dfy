/** What the threads know at their program counters, and the pending wakeups,
    survive every step of every other thread. */
module ProcessKnowledge {
  import opened Processes
  import opened ProcessInvariant
  import opened ProcessProofs

  predicate SameParent(s: Sys, t: Sys, z: nat)
    requires z < |s.procs| && z < |t.procs|
  {
    t.procs[z].parent == s.procs[z].parent && (t.procs[z].state == ZOMBIE <==> s.procs[z].state == ZOMBIE)
  }

  ghost predicate SameParents(s: Sys, t: Sys)
    requires |t.procs| == |s.procs|
  {
    forall z :: 0 <= z < |s.procs| ==> SameParent(s, t, z)
  }

  /** A process being forked is only touched by its maker. */
  predicate UsedKept(s: Sys, t: Sys, i: nat, np: nat)
    requires np < |s.procs| && np < |t.procs|
  {
    s.procs[np].state == USED && s.procs[np].maker != Some(i) ==>
      t.procs[np].state == USED && t.procs[np].maker == s.procs[np].maker && t.procs[np].parent == s.procs[np].parent
  }

  predicate SamePc(s: Sys, t: Sys, q: nat)
    requires q < |s.procs| && q < |t.procs|
  {
    if s.procs[q].pc == Nothing || s.procs[q].pc == Dead then t.procs[q].pc in {Nothing, Dead, ForkRet}
    else t.procs[q].pc == s.procs[q].pc && t.procs[q].mine == s.procs[q].mine
  }

  /** What a step of process `i` may do at most. */
  ghost predicate Effects(s: Sys, t: Sys, i: nat) {
    && i < |s.procs| == |t.procs| && t.nsl == s.nsl && |t.locked| == |s.locked| && |t.cpus| == |s.cpus| && s.procs[i].on.Some?
    && (forall q :: 0 <= q < |s.procs| && q != i ==> SamePc(s, t, q))
    && (WaitLock in PcLocks(s.procs[i].pc, i) || SameParents(s, t))
    && (forall np :: 0 <= np < |s.procs| ==> UsedKept(s, t, i, np))
    && (forall x, ch :: Dozing(t, x, ch) ==> Dozing(s, x, ch) || LockOf(ch) in PcLocks(s.procs[i].pc, i))
    && (forall c :: 0 <= c < |s.locked| ==> t.locked[c] == s.locked[c] || CondLock(c) in PcLocks(s.procs[i].pc, i))
    && (forall l :: l in s.held && l !in PcLocks(s.procs[i].pc, i) ==> l in t.held && t.held[l] == s.held[l])
    && (forall c :: 0 <= c < |s.cpus| ==> t.cpus[c] == s.cpus[c] || (c == s.procs[i].on.v && t.cpus[c].Back?))
  }

  /** A fact of thread `q` stays true if what it is about stays the same. */
  lemma PcKeep(s: Sys, t: Sys, i: nat, q: nat)
    requires q < |s.procs| == |t.procs| && q != i && t.nsl == s.nsl && |t.locked| == |s.locked|
    requires t.procs[q].pc == s.procs[q].pc && t.procs[q].mine == s.procs[q].mine
    requires WaitLock in PcLocks(s.procs[q].pc, q) ==> SameParents(s, t)
    requires forall np :: 0 <= np < |s.procs| ==> UsedKept(s, t, i, np)
    requires forall x, ch :: Dozing(t, x, ch) && LockOf(ch) in PcLocks(s.procs[q].pc, q) ==> Dozing(s, x, ch)
    requires forall c :: 0 <= c < |s.locked| && CondLock(c) in PcLocks(s.procs[q].pc, q) ==> t.locked[c] == s.locked[c]
    requires PcOk(s, q) && OwnChan(s.procs[q].pc, q)
    ensures PcOk(t, q)
  {
    hide Dozing;
    if WaitLock in PcLocks(s.procs[q].pc, q) {
      ParentFacts(s, t, q);
    }
    PassedKeep(s, t, q);
    match Doing(s.procs[q].pc)
    case ForkMade(np) => assert UsedKept(s, t, i, np);
    case ForkParent(np) => assert UsedKept(s, t, i, np);
    case ForkLinked(np) => assert UsedKept(s, t, i, np);
    case ForkRun(np) => assert UsedKept(s, t, i, np);
    case ExitLock(_) => LateKeep(s, t, q);
    case ExitSet(_) => LateKeep(s, t, q);
    case SleepStart(ch) => assert ch.Obj? ==> CondLock(ch.c) in PcLocks(s.procs[q].pc, q);
    case SleepRel(ch) => assert ch.Obj? ==> CondLock(ch.c) in PcLocks(s.procs[q].pc, q);
    case Wake(ch, k, ret) => assert LockOf(ch) in PcLocks(s.procs[q].pc, q);
    case WakeHas(ch, k, ret) => assert LockOf(ch) in PcLocks(s.procs[q].pc, q);
    case _ =>
  }

  lemma LateKeep(s: Sys, t: Sys, q: nat)
    requires q < |s.procs| == |t.procs| && SameParents(s, t) && LateExit(s, q) && WaitLock in PcLocks(s.procs[q].pc, q)
    requires forall x, ch :: Dozing(t, x, ch) && LockOf(ch) in PcLocks(s.procs[q].pc, q) ==> Dozing(s, x, ch)
    ensures LateExit(t, q)
  {
    hide Dozing, PcLocks;
    ParentFacts(s, t, q);
    assert LockOf(ProcChan(s.procs[q].parent.v)) == WaitLock;
  }

  lemma ParentFacts(s: Sys, t: Sys, q: nat)
    requires q < |s.procs| == |t.procs| && SameParents(s, t)
    ensures forall n: nat :: NoKids(s, q, n) <==> NoKids(t, q, n)
    ensures forall n: nat :: NoZombies(s, q, n) ==> NoZombies(t, q, n)
    ensures forall z: nat :: z < |s.procs| ==> t.procs[z].parent == s.procs[z].parent
  {
    forall n: nat ensures NoKids(s, q, n) <==> NoKids(t, q, n) {
      forall z | 0 <= z < n && z < |t.procs| ensures t.procs[z].parent == s.procs[z].parent {
        assert SameParent(s, t, z);
      }
    }
    forall n: nat | NoZombies(s, q, n) ensures NoZombies(t, q, n) {
      forall z | 0 <= z < n && z < |t.procs| ensures !ZombieOf(t, z, q) {
        assert SameParent(s, t, z) && !ZombieOf(s, z, q);
      }
    }
    forall z: nat | z < |s.procs| ensures t.procs[z].parent == s.procs[z].parent {
      assert SameParent(s, t, z);
    }
  }

  lemma PassedKeep(s: Sys, t: Sys, q: nat)
    requires q < |s.procs| == |t.procs|
    requires forall x, ch :: Dozing(t, x, ch) && LockOf(ch) in PcLocks(s.procs[q].pc, q) ==> Dozing(s, x, ch)
    ensures forall ch, k: nat :: LockOf(ch) in PcLocks(s.procs[q].pc, q) && PassedBy(s, q, ch, k) ==> PassedBy(t, q, ch, k)
  {
    hide Dozing, PcLocks;
    forall ch, k: nat | LockOf(ch) in PcLocks(s.procs[q].pc, q) && PassedBy(s, q, ch, k) ensures PassedBy(t, q, ch, k) {
    }
  }

  lemma OthersKnow(s: Sys, t: Sys, i: nat, q: nat)
    requires Cpus(s) && Family(s) && Effects(s, t, i) && q < |s.procs| && q != i && PcOk(s, q)
    ensures PcOk(t, q)
  {
    hide Cpus, Family, PcOk, PcLocks, Dozing;
    assert SamePc(s, t, q);
    Locals(s, q);
    if s.procs[q].pc == Nothing || s.procs[q].pc == Dead {
      QuietOk(t, q);
    } else if s.procs[q].on.Some? {
      forall l ensures !(l in PcLocks(s.procs[q].pc, q) && l in PcLocks(s.procs[i].pc, i)) {
        if l in PcLocks(s.procs[q].pc, q) && l in PcLocks(s.procs[i].pc, i) {
          Exclusive(s, i, q, l);
        }
      }
      PcKeep(s, t, i, q);
    } else if s.procs[q].pc.Yielded? {
      YieldLocks(s.procs[q].pc, q);
      PcKeep(s, t, i, q);
    } else {
      QuietOk(t, q);
    }
  }

  lemma YieldLocks(pc: Pc, q: nat)
    requires pc.Yielded?
    ensures PcLocks(pc, q) == {ProcLock(q)}
  {
  }

  lemma QuietOk(t: Sys, q: nat)
    requires q < |t.procs|
    requires var pc := t.procs[q].pc; pc.Nothing? || pc.ForkRet? || pc.Asleep? || pc.Dead?
    ensures PcOk(t, q)
  {
  }

  // ---- pending wakeups

  /** The wakeups that other threads are about to do are still to come. */
  lemma OthersWake(s: Sys, t: Sys, i: nat, ch: Chan, q: nat)
    requires Cpus(s) && Effects(s, t, i) && BeingWoken(s, ch, q)
    ensures BeingWoken(t, ch, q) || Coming(s.procs[i].pc, ch, q)
  {
    hide PcLocks, Dozing;
    var c := s.held[LockOf(ch)];
    var h := s.cpus[c].p;
    assert CpuBound(s, c) && HeldOk(s, LockOf(ch)) && OnBound(s, i);
    if h != i {
      assert c != s.procs[i].on.v;
      if LockOf(ch) in PcLocks(s.procs[i].pc, i) {
        Holds(s, i, LockOf(ch));
      }
      assert SamePc(s, t, h);
    }
  }

  lemma ParentsStayWoken(s: Sys, t: Sys, i: nat)
    requires Cpus(s) && Effects(s, t, i) && ParentsWoken(s)
    requires forall z, q :: ZombieOf(t, z, q) && Dozing(t, q, ProcChan(q)) && !(ZombieOf(s, z, q) && Dozing(s, q, ProcChan(q))) ==>
                              BeingWoken(t, ProcChan(q), q)
    requires forall q, ch :: Coming(s.procs[i].pc, ch, q) && Dozing(t, q, ch) ==> BeingWoken(t, ch, q)
    ensures ParentsWoken(t)
  {
    hide Dozing, ZombieOf, Coming, BeingWoken, Cpus, Effects;
    forall z, q | ZombieOf(t, z, q) && Dozing(t, q, ProcChan(q)) ensures BeingWoken(t, ProcChan(q), q) {
      if ZombieOf(s, z, q) && Dozing(s, q, ProcChan(q)) {
        OthersWake(s, t, i, ProcChan(q), q);
      }
    }
  }

  predicate FreeLock(s: Sys, c: nat) {
    c < s.nsl && c < |s.locked| && !s.locked[c]
  }

  lemma LockersStayWoken(s: Sys, t: Sys, i: nat)
    requires Cpus(s) && Effects(s, t, i) && LockersWoken(s)
    requires forall c, q :: FreeLock(t, c) && Dozing(t, q, Obj(c, 0)) && !(FreeLock(s, c) && Dozing(s, q, Obj(c, 0))) ==> BeingWoken(t, Obj(c, 0), q)
    requires forall q, ch :: Coming(s.procs[i].pc, ch, q) && Dozing(t, q, ch) ==> BeingWoken(t, ch, q)
    ensures LockersWoken(t)
  {
    hide Dozing, Coming, BeingWoken, Cpus, Effects;
    forall c, q | 0 <= c < t.nsl && c < |t.locked| && !t.locked[c] && Dozing(t, q, Obj(c, 0)) ensures BeingWoken(t, Obj(c, 0), q) {
      assert FreeLock(t, c);
      if FreeLock(s, c) && Dozing(s, q, Obj(c, 0)) {
        OthersWake(s, t, i, Obj(c, 0), q);
      }
    }
  }

  // ---- one step of a thread

  /** Whatever now has to be woken is just being woken. */
  ghost predicate News(s: Sys, t: Sys, i: nat)
    requires i < |s.procs|
  {
    && (forall z, q :: ZombieOf(t, z, q) && Dozing(t, q, ProcChan(q)) && !(ZombieOf(s, z, q) && Dozing(s, q, ProcChan(q))) ==>
                         BeingWoken(t, ProcChan(q), q))
    && (forall c, q :: FreeLock(t, c) && Dozing(t, q, Obj(c, 0)) && !(FreeLock(s, c) && Dozing(s, q, Obj(c, 0))) ==> BeingWoken(t, Obj(c, 0), q))
    && (forall q, ch :: Coming(s.procs[i].pc, ch, q) && Dozing(t, q, ch) ==> BeingWoken(t, ch, q))
  }

  ghost predicate Good(s: Sys, t: Sys, i: nat) {
    Effects(s, t, i) && PcOk(t, i) && News(s, t, i)
  }

  ghost predicate Aware(s: Sys) {
    Knowledge(s) && ParentsWoken(s) && LockersWoken(s) && HandlersOk(s)
  }

  lemma GoodStep(s: Sys, t: Sys, i: nat)
    requires Cpus(s) && Family(s) && Aware(s) && Good(s, t, i)
    ensures Aware(t)
  {
    hide Cpus, Family, PcOk, Dozing, Coming, BeingWoken, ZombieOf;
    forall q | 0 <= q < |t.procs| ensures PcOk(t, q) {
      if q != i {
        OthersKnow(s, t, i, q);
      }
    }
    ParentsStayWoken(s, t, i);
    LockersStayWoken(s, t, i);
    HandlersStay(s, t, i);
  }

  /** No thread goes to sleep behind the back of a handler, which holds its condition lock. */
  lemma HandlersStay(s: Sys, t: Sys, i: nat)
    requires Cpus(s) && Effects(s, t, i) && HandlersOk(s)
    ensures HandlersOk(t)
  {
    hide PcLocks, Dozing, Cpus;
    forall c | 0 <= c < |t.cpus| ensures HandlerOk(t, c) {
      assert HandlerOk(s, c);
      if t.cpus[c].HandlerWakes? || t.cpus[c].HandlerHas? {
        var ch := t.cpus[c].ch;
        CpuHoldsLock(s, c, LockOf(ch));
        if LockOf(ch) in PcLocks(s.procs[i].pc, i) {
          Holds(s, i, LockOf(ch));
        }
        forall q | 0 <= q < t.cpus[c].k && q < |t.procs| ensures !Dozing(t, q, ch) {
          assert !Dozing(s, q, ch);
        }
      }
    }
  }

  /** Locks and CPUs of other threads. */
  ghost predicate Mild(s: Sys, t: Sys, i: nat) {
    && i < |s.procs| == |t.procs| && s.procs[i].on.Some?
    && t.nsl == s.nsl && |t.locked| == |s.locked| && |t.cpus| == |s.cpus|
    && (forall l :: l in s.held && l !in PcLocks(s.procs[i].pc, i) ==> l in t.held && t.held[l] == s.held[l])
    && (forall c :: 0 <= c < |s.cpus| ==> t.cpus[c] == s.cpus[c] || (c == s.procs[i].on.v && t.cpus[c].Back?))
  }

  predicate CalmChange(s: Sys, t: Sys, i: nat, x: nat)
    requires x < |s.procs| == |t.procs|
  {
    && SameParent(s, t, x) && UsedKept(s, t, i, x)
    && (t.procs[x].pc.SleepSet? || (t.procs[x].pc.Asleep? && t.procs[x].state == SLEEPING) ==> Dozing(s, x, t.procs[x].pc.ch))
  }

  /** Only processes `i` and `j` change, and nobody gets anything new to wait for. */
  lemma QuietStep(s: Sys, t: Sys, i: nat, j: nat)
    requires Mild(s, t, i) && j < |s.procs| && t.locked == s.locked
    requires forall q :: 0 <= q < |s.procs| && q != i && q != j ==> t.procs[q] == s.procs[q]
    requires CalmChange(s, t, i, i) && CalmChange(s, t, i, j) && (j != i ==> SamePc(s, t, j))
    ensures Effects(s, t, i)
    ensures !s.procs[i].pc.Wake? && !s.procs[i].pc.WakeHas? ==> News(s, t, i)
    ensures forall z, q :: ZombieOf(t, z, q) ==> ZombieOf(s, z, q)
    ensures forall x, ch :: Dozing(t, x, ch) ==> Dozing(s, x, ch)
  {
    hide PcLocks;
    forall z | 0 <= z < |s.procs| ensures SameParent(s, t, z) && UsedKept(s, t, i, z) {
    }
    forall z, q | ZombieOf(t, z, q) ensures ZombieOf(s, z, q) {
      assert SameParent(s, t, z);
    }
    forall x: nat, ch | Dozing(t, x, ch) ensures Dozing(s, x, ch) {
      assert x == i || x == j || t.procs[x] == s.procs[x];
    }
  }

  lemma AcquireMild(s: Sys, i: nat, l: Lock, pc: Pc)
    requires i < |s.procs| && s.procs[i].on.Some? && l !in s.held
    ensures Mild(s, Acquire(s, i, l, pc), i)
  {
    hide PcLocks;
  }

  lemma ReleaseMild(s: Sys, t: Sys, i: nat, l: Lock)
    requires i < |s.procs| == |t.procs| && s.procs[i].on.Some? && l in PcLocks(s.procs[i].pc, i)
    requires t.held == s.held - {l} && t.cpus == s.cpus && t.nsl == s.nsl && |t.locked| == |s.locked|
    ensures Mild(s, t, i)
  {
    hide PcLocks;
  }

  lemma PlainGood(s: Sys, i: nat, a: Act)
    requires Cpus(s) && Family(s) && Can(s, i, a) && Plain(s, i, a) && PcOk(s, i) && !s.procs[i].pc.SleepRel? && !s.procs[i].pc.Wake?
    requires |s.locked| == |s.lkpid| == s.nsl
    ensures Good(s, Do(s, i, a), i)
  {
    var t := Do(s, i, a);
    PlainNext(s, i, a);
    hide Cpus, Family, PcOk, NextPc, Dozing, Effects, News;
    if Wants(s, i, a).Some? {
      AcquireMild(s, i, Wants(s, i, a).v, NextPc(s, s.procs[i].pc, a));
    } else {
      PlainLocks(s, i, a);
      ReleaseMild(s, t, i, Drops(s.procs[i].pc, i).v);
    }
    Locals(s, i);
    QuietStep(s, t, i, i);
  }

  /** What was known about the processes is still so when one thread moves on. */
  lemma MovesOn(s: Sys, t: Sys, i: nat)
    requires i < |s.procs| == |t.procs| && t.procs == s.procs[i := s.procs[i].(pc := t.procs[i].pc)] && t.nsl == s.nsl && t.locked == s.locked
    ensures forall n: nat :: NoKids(s, i, n) <==> NoKids(t, i, n)
    ensures forall n: nat :: NoZombies(s, i, n) ==> NoZombies(t, i, n)
    ensures forall np, p :: Forking(s, i, np, p) ==> Forking(t, i, np, p)
    ensures forall q: nat, ch :: q != i ==> Dozing(t, q, ch) == Dozing(s, q, ch)
    ensures forall ch, k: nat :: PassedBy(s, i, ch, k) ==> PassedBy(t, i, ch, k)
    ensures forall ch :: Calm(s, ch) && (ch.ProcChan? ==> ch.p == i) ==> Calm(t, ch)
    ensures LateExit(s, i) && s.procs[i].parent != Some(i) ==> LateExit(t, i)
  {
    forall z: nat | z < |s.procs| ensures SameParent(s, t, z) {
    }
    hide Dozing;
    ParentFacts(s, t, i);
    forall q: nat, ch | q != i ensures Dozing(t, q, ch) == Dozing(s, q, ch) {
      DozingLocal(s, t, q, ch);
    }
  }

  lemma DozingLocal(s: Sys, t: Sys, q: nat, ch: Chan)
    requires |t.procs| == |s.procs| && (q < |s.procs| ==> t.procs[q] == s.procs[q])
    ensures Dozing(t, q, ch) == Dozing(s, q, ch)
  {
  }

  /** What a thread knows after a step that only takes or drops a lock. */
  lemma PlainNext(s: Sys, i: nat, a: Act)
    requires Family(s) && Can(s, i, a) && Plain(s, i, a) && PcOk(s, i) && !s.procs[i].pc.Wake?
    requires |s.locked| == |s.lkpid| == s.nsl
    ensures PcOk(Do(s, i, a), i)
    ensures var pc := NextPc(s, s.procs[i].pc, a); !pc.Asleep? && (pc.SleepSet? ==> s.procs[i].pc.SleepRel?)
  {
    var t := Do(s, i, a);
    Locals(s, i);
    PlainShape(s, i, a);
    hide Can, Do;
    MovesOn(s, t, i);
    hide Family, Dozing, LateExit, NoKids, NoZombies, Forking, Calm, PassedBy, Local;
    FreshFacts(t, i);
    if Yields(s.procs[i].pc, a) {
      YieldKnows(s, t, i, a);
    } else {
      LockKnows(s, t, i, a);
    }
  }

  /** A thread takes its lock in order to yield, or comes back from it. */
  predicate Yields(pc: Pc, a: Act) {
    (a == Yield && LockFree(pc)) || pc.Yielded?
  }

  /** A thread that yields, or comes back from it, is where it was. */
  lemma YieldKnows(s: Sys, t: Sys, i: nat, a: Act)
    requires i < |s.procs| == |t.procs| && Yields(s.procs[i].pc, a) && PcOk(s, i)
    requires t.procs[i].pc == NextPc(s, s.procs[i].pc, a)
    requires forall np, p :: Forking(s, i, np, p) ==> Forking(t, i, np, p)
    ensures PcOk(t, i) && !t.procs[i].pc.Asleep? && !t.procs[i].pc.SleepSet?
  {
    hide Forking;
    assert Doing(t.procs[i].pc) == Doing(s.procs[i].pc) && LockFree(Doing(s.procs[i].pc));
  }

  lemma LockKnows(s: Sys, t: Sys, i: nat, a: Act)
    requires i < |s.procs| && Plain(s, i, a) && PcOk(s, i) && !s.procs[i].pc.Wake? && !Yields(s.procs[i].pc, a)
    requires |t.procs| == |s.procs| && t.nsl == s.nsl && t.procs[i] == s.procs[i].(pc := NextPc(s, s.procs[i].pc, a))
    requires s.procs[i].pc.User? ==> CanStart(s, i, a)
    requires NoKids(t, i, 0) && NoZombies(t, i, 0)
    requires forall z: nat :: z < |s.procs| && s.procs[z].parent == Some(i) ==> t.procs[z].parent == Some(i)
    requires forall n: nat :: NoZombies(s, i, n) ==> NoZombies(t, i, n)
    requires forall n: nat :: NoKids(s, i, n) <==> NoKids(t, i, n)
    requires forall np, p :: Forking(s, i, np, p) ==> Forking(t, i, np, p)
    requires forall ch :: Calm(s, ch) && (ch.ProcChan? ==> ch.p == i) ==> Calm(t, ch)
    requires LateExit(s, i) ==> LateExit(t, i)
    requires OwnChan(s.procs[i].pc, i)
    ensures PcOk(t, i) && var pc := t.procs[i].pc; !pc.Asleep? && (pc.SleepSet? ==> s.procs[i].pc.SleepRel?)
  {
    hide LateExit, NoKids, NoZombies, Forking, Calm, PassedBy;
  }

  lemma PlainShape(s: Sys, i: nat, a: Act)
    requires Can(s, i, a) && Plain(s, i, a)
    ensures var t := Do(s, i, a);
            && |t.procs| == |s.procs| && t == s.(procs := s.procs[i := s.procs[i].(pc := NextPc(s, s.procs[i].pc, a))], held := t.held)
    ensures s.procs[i].pc.User? ==> CanStart(s, i, a)
  {
    hide NextPc;
  }

  lemma FreshFacts(t: Sys, i: nat)
    ensures NoKids(t, i, 0) && NoZombies(t, i, 0)
  {
  }
}
