/** Process ids, sleep-locks and exit statuses over every step. */
module ProcessBooks {
  import opened Processes
  import opened ProcessInvariant
  import opened ProcessProofs

  ghost predicate Books(s: Sys) {
    SleeplocksOk(s) && PidsDiffer(s) && RecordsOk(s)
  }

  predicate SameEntry(s: Sys, t: Sys, q: nat)
    requires q < |s.procs| == |t.procs|
  {
    var p, p' := s.procs[q], t.procs[q];
    && p'.pid == p.pid && p'.mine == p.mine && p'.xstate == p.xstate
    && (p'.state == ZOMBIE <==> p.state == ZOMBIE) && (p'.state == UNUSED <==> p.state == UNUSED)
  }

  lemma BooksSame(s: Sys, t: Sys)
    requires Books(s) && |t.procs| == |s.procs| && t.nextpid >= s.nextpid
    requires t.nsl == s.nsl && t.locked == s.locked && t.lkpid == s.lkpid && t.exits == s.exits && t.reaps == s.reaps
    requires forall q :: 0 <= q < |s.procs| ==> SameEntry(s, t, q)
    ensures Books(t)
  {
    forall i | 0 <= i < |t.procs| ensures MineOk(t, i) && ExitOk(t, i) {
      assert SameEntry(s, t, i) && MineOk(s, i) && ExitOk(s, i);
    }
    forall i, j | 0 <= i < |t.procs| && 0 <= j < |t.procs| && i != j && t.procs[i].state != UNUSED ensures t.procs[i].pid != t.procs[j].pid {
      assert SameEntry(s, t, i) && SameEntry(s, t, j);
    }
    forall pid ensures RecordOk(t, pid) {
      assert RecordOk(s, pid);
      assert pid in s.exits && s.exits[pid].slot < |s.procs| ==> SameEntry(s, t, s.exits[pid].slot);
    }
  }

  lemma NewPid(s: Sys, t: Sys, np: nat)
    requires Books(s) && Family(s) && np < |s.procs| == |t.procs| && s.procs[np].state == UNUSED
    requires t.procs[np].pid == s.nextpid && t.nextpid == s.nextpid + 1 && t.procs[np].state == USED && t.procs[np].mine == s.procs[np].mine
    requires t.nsl == s.nsl && t.locked == s.locked && t.lkpid == s.lkpid && t.exits == s.exits && t.reaps == s.reaps
    requires forall q :: 0 <= q < |s.procs| && q != np ==> SameEntry(s, t, q)
    ensures Books(t)
  {
    assert Local(s, INIT);
    forall q | 0 <= q < |s.procs| ensures s.procs[q].pid < s.nextpid && Local(s, q) {
      assert Local(s, q);
    }
    forall i | 0 <= i < |t.procs| ensures MineOk(t, i) && ExitOk(t, i) {
      assert MineOk(s, i) && ExitOk(s, i) && (i != np ==> SameEntry(s, t, i)) && RecordOk(s, s.nextpid);
    }
    forall i, j | 0 <= i < |t.procs| && 0 <= j < |t.procs| && i != j && t.procs[i].state != UNUSED ensures t.procs[i].pid != t.procs[j].pid {
      assert (i != np ==> SameEntry(s, t, i)) && (j != np ==> SameEntry(s, t, j));
    }
    forall pid ensures RecordOk(t, pid) {
      assert RecordOk(s, pid);
      assert pid in s.exits && s.exits[pid].slot < |s.procs| && s.exits[pid].slot != np ==> SameEntry(s, t, s.exits[pid].slot);
    }
  }

  lemma ExitBooks(s: Sys, i: nat, st: int)
    requires Books(s) && Family(s) && i < |s.procs| && s.procs[i].on.Some? && s.procs[i].pc == ExitSet(st)
    ensures Books(ExitSetStep(s, i, st))
  {
    hide Family;
    Locals(s, i);
    hide Local, ParentOk, MakerOk;
    var t := ExitSetStep(s, i, st);
    forall j | 0 <= j < |t.procs| ensures MineOk(t, j) && ExitOk(t, j) {
      assert MineOk(s, j) && ExitOk(s, j) && RecordOk(s, s.procs[i].pid);
    }
    forall pid ensures RecordOk(t, pid) {
      assert RecordOk(s, pid) && ExitOk(s, i);
    }
  }

  lemma ReapBooks(s: Sys, i: nat, j: nat, kids: bool, a: Act)
    requires Books(s) && i < |s.procs| && j < |s.procs| && j != i && s.procs[j].state == ZOMBIE && a != Fail && s.procs[j].pid > 0
    requires s.procs[i].state == RUNNING && forall q :: 0 <= q < |s.procs| && s.procs[q].state == UNUSED ==> s.procs[q].pid == 0
    requires forall q :: 0 <= q < |s.procs| && s.procs[q].state != UNUSED ==> s.procs[q].pid > 0
    ensures Books(WaitHasStep(s, i, j, kids, a))
  {
    var t := WaitHasStep(s, i, j, kids, a);
    forall q | 0 <= q < |t.procs| ensures MineOk(t, q) && ExitOk(t, q) {
      assert MineOk(s, q) && ExitOk(s, q) && ExitOk(s, j);
    }
    forall pid ensures RecordOk(t, pid) {
      assert RecordOk(s, pid) && ExitOk(s, j);
    }
  }

  lemma CondBooks(s: Sys, i: nat, c: nat, u: Use, a: Act)
    requires Books(s) && Family(s) && i < |s.procs| && s.procs[i].on.Some? && s.procs[i].pc == Cond(c, u) && (u == Releasing && c < s.nsl ==> c in s.procs[i].mine)
    ensures Books(CondStep(s, i, c, u, a))
  {
    hide Family;
    Locals(s, i);
    AllPids(s);
    hide Local, ParentOk, MakerOk;
    var t := CondStep(s, i, c, u, a);
    if t.locked == s.locked && t.lkpid == s.lkpid && t.procs[i].mine == s.procs[i].mine {
      BooksSame(s, t);
    } else {
      forall q | 0 <= q < |t.procs| ensures MineOk(t, q) && ExitOk(t, q) {
        assert MineOk(s, q) && ExitOk(s, q) && MineOk(s, i);
        assert q != i ==> s.procs[q].pid != s.procs[i].pid;
      }
      forall pid ensures RecordOk(t, pid) {
        assert RecordOk(s, pid);
      }
    }
  }

  lemma AllPids(s: Sys)
    requires Family(s)
    ensures forall q :: 0 <= q < |s.procs| ==> if s.procs[q].state == UNUSED then s.procs[q].pid == 0 && s.procs[q].mine == {} else 0 < s.procs[q].pid < s.nextpid
  {
    forall q | 0 <= q < |s.procs| ensures if s.procs[q].state == UNUSED then s.procs[q].pid == 0 && s.procs[q].mine == {} else 0 < s.procs[q].pid < s.nextpid {
      assert Local(s, q);
    }
  }
}
