/** The status that a process passes to `kexit` is the one its parent gets. */
module ProcessStatus {
  import opened Processes
  import opened ProcessInvariant
  import opened ProcessProofs
  import opened ProcessKnowledge
  import opened ProcessTheorems

  /** The status that a thread inside `kexit` carries. */
  function Carried(pc: Pc): Opt<int> {
    match pc
    case Reparent(st, _) => Some(st)
    case Wake(_, _, ret) => RetStatus(ret)
    case WakeHas(_, _, ret) => RetStatus(ret)
    case ExitLock(st) => Some(st)
    case ExitSet(st) => Some(st)
    case _ => None
  }

  function RetStatus(ret: Ret): Opt<int> {
    match ret
    case ToReparent(st, _) => Some(st)
    case ToExitLock(st) => Some(st)
    case ToCond(_) => None
  }

  /** Thread `j` carries only what it carried before, or has just been given by `kexit`. */
  predicate SameStatus(s: Sys, t: Sys, i: nat, a: Act, j: nat)
    requires j < |s.procs| && j < |t.procs|
  {
    Carried(t.procs[j].pc).Some? ==>
      && t.procs[j].pid == s.procs[j].pid
      && (Carried(t.procs[j].pc) == Carried(s.procs[j].pc) || (j == i && s.procs[i].pc == User && a == Exit(Carried(t.procs[i].pc).v)))
  }

  predicate SameExit(s: Sys, t: Sys, i: nat, pid: nat)
    requires i < |s.procs|
  {
    pid in t.exits ==>
      || (pid in s.exits && t.exits[pid] == s.exits[pid])
      || (s.procs[i].pid == pid && Carried(s.procs[i].pc) == Some(t.exits[pid].status))
  }

  ghost predicate StatusKept(s: Sys, t: Sys, i: nat, a: Act) {
    && i < |s.procs| == |t.procs|
    && (forall j :: 0 <= j < |s.procs| ==> SameStatus(s, t, i, a, j))
    && (forall pid :: SameExit(s, t, i, pid))
  }

  lemma NextStatus(s: Sys, i: nat, a: Act)
    requires i < |s.procs| && Plain(s, i, a) && Can(s, i, a)
    ensures var pc, pc' := s.procs[i].pc, NextPc(s, s.procs[i].pc, a);
            Carried(pc').Some? ==> Carried(pc') == Carried(pc) || (pc == User && a == Exit(Carried(pc').v))
  {
  }

  /** Only threads `i` and `k` change; `k` carries nothing afterwards, or is where it was. */
  lemma FewStatus(s: Sys, t: Sys, i: nat, a: Act, k: nat)
    requires i < |s.procs| == |t.procs| && k < |s.procs| && t.exits == s.exits
    requires forall j :: 0 <= j < |s.procs| && j != i && j != k ==> t.procs[j] == s.procs[j]
    requires SameStatus(s, t, i, a, i)
    requires k != i ==> Carried(t.procs[k].pc) == None || (t.procs[k].pc == s.procs[k].pc && t.procs[k].pid == s.procs[k].pid)
    ensures StatusKept(s, t, i, a)
  {
  }

  lemma StepStatus(s: Sys, i: nat, a: Act)
    requires Inv(s) && Can(s, i, a)
    ensures StatusKept(s, Do(s, i, a), i, a)
  {
    hide Inv, Cpus, Family, Aware, NoKids, NoZombies, Calm, LateExit, PassedBy, NextPc, PcLocks, Local, ParentOk, MakerOk, StatusKept,
         ForkHasStep, ForkRunStep, ReparentStep, ExitSetStep, WaitScanStep, WaitHasStep, WakeStep, WakeHasStep, KillStep, CondStep, Release, Switch, Put;
    var p := s.procs[i];
    if Plain(s, i, a) {
      PlainStatus(s, i, a);
    } else {
      match p.pc
      case Asleep(ch) => ReleaseStatus(s, i, p.(chan := None), ProcLock(i), SleepBack(ch), i, a);
      case YieldHas(at) => SwitchStatus(s, i, p.(state := RUNNABLE, pc := Yielded(at)), a);
      case ForkHas(np) => ForkStatus(s, i, np, a);
      case ForkParent(np) => ReleaseStatus(s, np, s.procs[np].(parent := Some(i)), WaitLock, ForkLinked(np), i, a);
      case ForkRun(np) => RunStatus(s, i, np, a);
      case Reparent(st, j) => ReparentStatus(s, i, st, j, a);
      case ExitSet(st) => ExitStatus(s, i, st, a);
      case ExitSched => SwitchStatus(s, i, p.(pc := Dead), a);
      case WaitScan(j, kids) => WaitScanStatus(s, i, j, kids, a);
      case WaitHas(j, kids) => WaitHasStatus(s, i, j, kids, a);
      case SleepSet(ch) => SwitchStatus(s, i, p.(chan := Some(ch), state := SLEEPING, pc := Asleep(ch)), a);
      case Wake(ch, k, ret) => WakeStatus(s, i, ch, k, ret, a);
      case WakeHas(ch, k, ret) => WakeHasStatus(s, i, ch, k, ret, a);
      case Cond(c, u) => CondStatus(s, i, c, u, a);
      case KillHas(j) => KillStatus(s, i, j, a);
      case _ =>
    }
  }

  lemma PlainStatus(s: Sys, i: nat, a: Act)
    requires Can(s, i, a) && Plain(s, i, a)
    ensures StatusKept(s, Do(s, i, a), i, a)
  {
    PlainShape(s, i, a);
    NextStatus(s, i, a);
    hide Can, Plain, Do, NextPc, StatusKept, Carried;
    FewStatus(s, Do(s, i, a), i, a, i);
  }

  lemma ReleaseStatus(s: Sys, k: nat, p: Proc, l: Lock, pc: Pc, i: nat, a: Act)
    requires i < |s.procs| && k < |s.procs| && p.pc == s.procs[k].pc && p.pid == s.procs[k].pid && Carried(pc) == None
    ensures StatusKept(s, Release(Put(s, k, p), i, l, pc), i, a)
  {
    hide StatusKept, Carried;
    FewStatus(s, Release(Put(s, k, p), i, l, pc), i, a, k);
  }

  lemma SwitchStatus(s: Sys, i: nat, p: Proc, a: Act)
    requires i < |s.procs| && s.procs[i].on.Some? && s.procs[i].on.v < |s.cpus| && Carried(p.pc) == None
    ensures StatusKept(s, Switch(s, i, p), i, a)
  {
    hide StatusKept, Carried;
    FewStatus(s, Switch(s, i, p), i, a, i);
  }

  lemma ForkStatus(s: Sys, i: nat, np: nat, a: Act)
    requires Inv(s) && i < |s.procs| && np < |s.procs| && s.procs[i].on.Some? && s.procs[i].pc == ForkHas(np) && (a == Continue ==> np != i && s.procs[np].state == UNUSED)
    ensures StatusKept(s, ForkHasStep(s, i, np, a), i, a)
  {
    hide StatusKept;
    InvParts(s);
    Locals(s, np);
    hide Inv;
    FewStatus(s, ForkHasStep(s, i, np, a), i, a, np);
  }

  lemma RunStatus(s: Sys, i: nat, np: nat, a: Act)
    requires i < |s.procs| && np < |s.procs|
    ensures StatusKept(s, ForkRunStep(s, i, np), i, a)
  {
    hide StatusKept;
    FewStatus(s, ForkRunStep(s, i, np), i, a, np);
  }

  lemma ReparentStatus(s: Sys, i: nat, st: int, j: nat, a: Act)
    requires i < |s.procs| && s.procs[i].pc == Reparent(st, j)
    ensures StatusKept(s, ReparentStep(s, i, st, j), i, a)
  {
    hide StatusKept;
    FewStatus(s, ReparentStep(s, i, st, j), i, a, if j < |s.procs| then j else i);
  }

  lemma ExitStatus(s: Sys, i: nat, st: int, a: Act)
    requires i < |s.procs| && s.procs[i].pc == ExitSet(st)
    ensures StatusKept(s, ExitSetStep(s, i, st), i, a)
  {
  }

  lemma WaitScanStatus(s: Sys, i: nat, j: nat, kids: bool, a: Act)
    requires i < |s.procs|
    ensures StatusKept(s, WaitScanStep(s, i, j, kids, a), i, a)
  {
    hide StatusKept;
    FewStatus(s, WaitScanStep(s, i, j, kids, a), i, a, i);
  }

  lemma WaitHasStatus(s: Sys, i: nat, j: nat, kids: bool, a: Act)
    requires i < |s.procs| && j < |s.procs|
    ensures StatusKept(s, WaitHasStep(s, i, j, kids, a), i, a)
  {
    hide StatusKept;
    FewStatus(s, WaitHasStep(s, i, j, kids, a), i, a, j);
  }

  lemma WakeStatus(s: Sys, i: nat, ch: Chan, k: nat, ret: Ret, a: Act)
    requires i < |s.procs| && s.procs[i].pc == Wake(ch, k, ret)
    ensures StatusKept(s, WakeStep(s, i, ch, k, ret), i, a)
  {
    hide StatusKept;
    FewStatus(s, WakeStep(s, i, ch, k, ret), i, a, i);
  }

  lemma WakeHasStatus(s: Sys, i: nat, ch: Chan, k: nat, ret: Ret, a: Act)
    requires i < |s.procs| && k < |s.procs| && k != i && s.procs[i].pc == WakeHas(ch, k, ret)
    ensures StatusKept(s, WakeHasStep(s, i, ch, k, ret), i, a)
  {
    hide StatusKept;
    FewStatus(s, WakeHasStep(s, i, ch, k, ret), i, a, k);
  }

  lemma CondStatus(s: Sys, i: nat, c: nat, u: Use, a: Act)
    requires i < |s.procs| && (c < s.nsl ==> |s.locked| == |s.lkpid| == s.nsl)
    ensures StatusKept(s, CondStep(s, i, c, u, a), i, a)
  {
    hide StatusKept;
    CondShape(s, i, c, u, a);
    FewStatus(s, CondStep(s, i, c, u, a), i, a, i);
  }

  lemma KillStatus(s: Sys, i: nat, j: nat, a: Act)
    requires i < |s.procs| && j < |s.procs|
    ensures StatusKept(s, KillStep(s, i, j, a), i, a)
  {
    hide StatusKept;
    FewStatus(s, KillStep(s, i, j, a), i, a, j);
  }

  // ---- over runs

  /** Before state `n` the process `pid` has called `kexit(st)`. */
  ghost predicate Asked(r: seq<Sys>, n: nat, pid: nat, st: int) {
    exists m, i :: 0 <= m < n && AskedIn(r, m, i, pid, st)
  }

  /** Step `m` is the call of `kexit` by process `i`. */
  ghost predicate AskedIn(r: seq<Sys>, m: nat, i: nat, pid: nat, st: int) {
    && m + 1 < |r| && i < |r[m].procs| && r[m].procs[i].pid == pid && r[m].procs[i].pc == User
    && Can(r[m], i, Exit(st)) && r[m + 1] == Do(r[m], i, Exit(st))
  }

  /** Every status inside `kexit`, and every recorded one, was asked for. */
  ghost predicate AllAsked(r: seq<Sys>, n: nat)
    requires n < |r|
  {
    && (forall i :: 0 <= i < |r[n].procs| && Carried(r[n].procs[i].pc).Some? ==> Asked(r, n, r[n].procs[i].pid, Carried(r[n].procs[i].pc).v))
    && (forall pid :: pid in r[n].exits ==> Asked(r, n, pid, r[n].exits[pid].status))
  }

  lemma AskedLater(r: seq<Sys>, n: nat)
    ensures forall pid, st :: Asked(r, n, pid, st) ==> Asked(r, n + 1, pid, st)
  {
  }

  lemma QuietSteps(s: Sys)
    ensures forall c, k :: CanSchedule(s, c, k) ==> SameCalls(s, Schedule(s, c, k))
    ensures forall c, q :: CanHandle(s, c, q) ==> SameCalls(s, Handle(s, c, q))
  {
  }

  ghost predicate SameCalls(s: Sys, t: Sys) {
    && |t.procs| == |s.procs| && t.exits == s.exits
    && forall i :: 0 <= i < |s.procs| ==> t.procs[i].pc == s.procs[i].pc && t.procs[i].pid == s.procs[i].pid
  }

  lemma {:induction false} RunAsked(r: seq<Sys>, n: nat)
    requires Run(r) && n < |r|
    ensures AllAsked(r, n)
  {
    hide Inv, Can, Do, CanSchedule, Schedule, CanHandle, Handle, Asked, StatusKept, SameCalls, Run;
    if n == 0 {
      StartAsked(r);
    } else {
      RunAsked(r, n - 1);
      RunsKeep(r, n - 1);
      RunStep(r, n - 1);
      var s, t := r[n - 1], r[n];
      QuietSteps(s);
      if i, a :| Can(s, i, a) && t == Do(s, i, a) {
        StepStatus(s, i, a);
        StepAsked(r, n - 1, i, a);
      } else {
        CallsAsked(r, n - 1);
      }
    }
  }

  lemma StartAsked(r: seq<Sys>)
    requires Run(r)
    ensures AllAsked(r, 0)
  {
  }

  lemma RunStep(r: seq<Sys>, n: nat)
    requires Run(r) && n + 1 < |r|
    ensures Step(r[n], r[n + 1])
  {
  }

  lemma CallsAsked(r: seq<Sys>, n: nat)
    requires n + 1 < |r| && AllAsked(r, n) && SameCalls(r[n], r[n + 1])
    ensures AllAsked(r, n + 1)
  {
    hide Asked;
    AskedLater(r, n);
  }

  lemma StepAsked(r: seq<Sys>, n: nat, i: nat, a: Act)
    requires n + 1 < |r| && AllAsked(r, n) && Can(r[n], i, a) && r[n + 1] == Do(r[n], i, a) && StatusKept(r[n], r[n + 1], i, a)
    ensures AllAsked(r, n + 1)
  {
    hide Can, Do, Asked;
    var s, t := r[n], r[n + 1];
    AskedLater(r, n);
    forall j | 0 <= j < |t.procs| && Carried(t.procs[j].pc).Some? ensures Asked(r, n + 1, t.procs[j].pid, Carried(t.procs[j].pc).v) {
      assert SameStatus(s, t, i, a, j);
      if Carried(t.procs[j].pc) != Carried(s.procs[j].pc) {
        AsksNow(r, n, i, a);
      }
    }
    forall pid | pid in t.exits ensures Asked(r, n + 1, pid, t.exits[pid].status) {
      assert SameExit(s, t, i, pid);
    }
  }

  lemma AsksNow(r: seq<Sys>, n: nat, i: nat, a: Act)
    requires n + 1 < |r| && i < |r[n].procs| && r[n].procs[i].pc == User && a.Exit? && Can(r[n], i, a) && r[n + 1] == Do(r[n], i, a)
    ensures Asked(r, n + 1, r[n].procs[i].pid, a.status)
  {
    hide Can, Do;
    assert AskedIn(r, n, i, r[n].procs[i].pid, a.status);
  }

  /** What `kwait` reports for a process id is the status that this process has
      passed to `kexit`, once; and an exited process that was not reaped is still
      there with that status. */
  lemma ReapsAsked(r: seq<Sys>, n: nat, pid: nat)
    requires Run(r) && n < |r|
    ensures pid in r[n].reaps ==> Asked(r, n, pid, r[n].reaps[pid])
    ensures pid in r[n].exits && pid !in r[n].reaps ==>
              exists z :: 0 <= z < |r[n].procs| && r[n].procs[z].state == ZOMBIE && r[n].procs[z].pid == pid && Asked(r, n, pid, r[n].procs[z].xstate)
  {
    hide Asked, Inv, Run;
    RunAsked(r, n);
    ReapedOnce(r, n, pid);
  }
}
