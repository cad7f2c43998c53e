/** Group commit (`begin_op`, `log_write`, `end_op` of kernel/log.c) as a state
    machine whose steps interleave freely: every step is one critical section
    under `log.lock`, one block write of `commit`, or a crash. */
module GroupCommit {
  import opened Disk
  import opened Recovery
  import opened DistinctElements

  /** `Committing(base, k)`: the commit that started from disk `base` has issued `k` block writes. */
  datatype Phase = Idle | Committing(base: seq<Block>, k: nat)

  /** `cache` holds the pinned buffers, `ops[i]` counts the blocks operation `i`
      has added to the log, and `snaps` records the logical contents at every
      moment an operation ended with no other outstanding (and at every boot). */
  datatype Sys = Sys(disk: seq<Block>, cache: map<nat, Block>, lh: seq<nat>,
                     ops: seq<nat>, phase: Phase, snaps: seq<seq<Block>>)

  datatype Event =
    | Begin
    | LogWrite(op: nat, b: nat, data: Block)
    | End(op: nat)
    | CommitWrite
    | CommitDone
    | Crash(ks: seq<nat>, left: seq<Block>)

  /** What a reader of the buffer cache sees. */
  function View(disk: seq<Block>, cache: map<nat, Block>): (v: seq<Block>)
    ensures |v| == |disk|
    ensures forall x :: 0 <= x < |disk| ==> v[x] == if x in cache then cache[x] else disk[x]
  {
    seq(|disk|, x requires 0 <= x < |disk| => if x in cache then cache[x] else disk[x])
  }

  function Contents(lh: seq<nat>, cache: map<nat, Block>): (data: seq<Block>)
    requires forall b :: b in lh ==> b in cache
    ensures |data| == |lh| && forall i :: 0 <= i < |lh| ==> data[i] == cache[lh[i]]
  {
    seq(|lh|, i requires 0 <= i < |lh| => cache[lh[i]])
  }

  /** Log space that the outstanding operations may still claim. */
  function Reserved(ops: seq<nat>): int {
    if ops == [] then 0 else Reserved(ops[..|ops| - 1]) + MAXOPBLOCKS - ops[|ops| - 1]
  }

  function Remove<T>(s: seq<T>, i: nat): seq<T>
    requires i < |s|
  {
    s[..i] + s[i + 1..]
  }

  /** `begin_op` goes to sleep unless this holds. */
  predicate MayBegin(s: Sys) {
    s.phase.Idle? && |s.lh| + (|s.ops| + 1) * MAXOPBLOCKS <= LOGBLOCKS
  }

  /** `log_write` panics with "too big a transaction". The test comes before the
      search for an absorbing entry. */
  predicate LogWritePanics(s: Sys) {
    |s.lh| >= LOGBLOCKS
  }

  function Absorb(lh: seq<nat>, b: nat): seq<nat> {
    if b in lh then lh else lh + [b]
  }

  ghost predicate Step(start: nat, s: Sys, e: Event, t: Sys) {
    match e
    case Begin =>
      MayBegin(s) && t == s.(ops := s.ops + [0])
    case LogWrite(i, b, data) =>
      && i < |s.ops| && s.ops[i] < MAXOPBLOCKS && s.phase.Idle?
      && b < |s.disk| && !InLog(start, b) && !LogWritePanics(s)
      && t == s.(cache := s.cache[b := data], lh := Absorb(s.lh, b),
                 ops := if b in s.lh then s.ops else s.ops[i := s.ops[i] + 1])
    case End(i) =>
      && i < |s.ops|
      && t == if |s.ops| > 1 then s.(ops := Remove(s.ops, i))
              else s.(ops := [], phase := Committing(s.disk, 0), snaps := s.snaps + [View(s.disk, s.cache)])
    case CommitWrite =>
      && s.phase.Committing? && Pinned(s) && Layout(s.phase.base, start) && |s.lh| <= LOGBLOCKS
      && var ws := CommitWrites(start, s.phase.base[start], s.lh, Contents(s.lh, s.cache));
      && s.phase.k < |ws| && ws[s.phase.k].blockno < |s.disk|
      && t == s.(disk := s.disk[ws[s.phase.k].blockno := ws[s.phase.k].data], phase := Committing(s.phase.base, s.phase.k + 1))
    case CommitDone =>
      && s.phase.Committing? && s.phase.k == (if s.lh == [] then 0 else 2 * |s.lh| + 2)
      && t == s.(cache := map[], lh := [], phase := Idle)
    case Crash(ks, left) =>
      && AfterCrashes(s.disk, start, ks, left) && Recoverable(left, start)
      && t == Sys(Recover(left, start), map[], [], [], Idle, s.snaps + [Recover(left, start)])
  }

  ghost predicate Pinned(s: Sys) {
    forall b :: b in s.lh <==> b in s.cache
  }

  /** The header in memory: distinct home blocks, all of them pinned, within the reservation. */
  ghost predicate HeaderOk(start: nat, s: Sys) {
    && Pinned(s)
    && Distinct(s.lh)
    && (forall i :: 0 <= i < |s.lh| ==> s.lh[i] < |s.disk| && !InLog(start, s.lh[i]))
    && (forall i :: 0 <= i < |s.ops| ==> s.ops[i] <= MAXOPBLOCKS)
    && |s.lh| + Reserved(s.ops) <= LOGBLOCKS
  }

  ghost predicate CommitOk(start: nat, s: Sys)
    requires HeaderOk(start, s) && s.phase.Committing? && |s.lh| <= LOGBLOCKS && |s.snaps| > 1
  {
    var base, k := s.phase.base, s.phase.k;
    && s.ops == []
    && Clean(base, start) && |base| == |s.disk|
    && var data := Contents(s.lh, s.cache);
       var ws := CommitWrites(start, base[start], s.lh, data);
       && k <= |ws| && InRange(|base|, ws[..k]) && s.disk == Apply(base, ws[..k])
       && SameHome(View(base, s.cache), s.snaps[|s.snaps| - 1], start)
       && (k <= |s.lh| ==> SameHome(base, s.snaps[|s.snaps| - 2], start))
  }

  ghost predicate Inv(start: nat, s: Sys) {
    && Layout(s.disk, start)
    && HeaderOk(start, s)
    && |s.snaps| > 0
    && (s.phase.Idle? ==> Clean(s.disk, start) && SameHome(s.disk, s.snaps[|s.snaps| - 1], start))
    && (s.phase.Committing? ==> |s.lh| <= LOGBLOCKS && |s.snaps| > 1 && CommitOk(start, s))
  }

  /** Boot state after recovery. */
  ghost predicate Init(start: nat, s: Sys) {
    Clean(s.disk, start) && s == Sys(s.disk, map[], [], [], Idle, [s.disk])
  }

  // ---- the reservation

  lemma {:induction false} ReservedUpdate(ops: seq<nat>, i: nat, v: nat)
    requires i < |ops|
    ensures Reserved(ops[i := v]) == Reserved(ops) + ops[i] - v
  {
    var k := |ops| - 1;
    if i < k {
      ReservedUpdate(ops[..k], i, v);
      assert ops[i := v][..k] == ops[..k][i := v];
    } else {
      assert ops[i := v][..k] == ops[..k];
    }
  }

  lemma {:induction false} ReservedRemove(ops: seq<nat>, i: nat)
    requires i < |ops|
    ensures Reserved(Remove(ops, i)) == Reserved(ops) - MAXOPBLOCKS + ops[i]
  {
    var k := |ops| - 1;
    if i < k {
      ReservedRemove(ops[..k], i);
      assert Remove(ops, i)[..k - 1] == Remove(ops[..k], i);
    } else {
      assert Remove(ops, i) == ops[..k];
    }
  }

  lemma {:induction false} ReservedBounds(ops: seq<nat>)
    requires forall i :: 0 <= i < |ops| ==> ops[i] <= MAXOPBLOCKS
    ensures 0 <= Reserved(ops) <= |ops| * MAXOPBLOCKS
  {
    if ops != [] {
      ReservedBounds(ops[..|ops| - 1]);
    }
  }

  lemma {:induction false} ReservedRoom(ops: seq<nat>, i: nat)
    requires i < |ops| && forall j :: 0 <= j < |ops| ==> ops[j] <= MAXOPBLOCKS
    ensures Reserved(ops) >= MAXOPBLOCKS - ops[i]
  {
    var k := |ops| - 1;
    ReservedBounds(ops[..k]);
    if i < k {
      ReservedRoom(ops[..k], i);
    }
  }

  /** The panic of `log_write` is unreachable for an operation that has so far
      added fewer than MAXOPBLOCKS blocks, whatever the other operations did. */
  lemma LogNeverFull(start: nat, s: Sys, i: nat)
    requires Inv(start, s) && i < |s.ops| && s.ops[i] < MAXOPBLOCKS
    ensures s.phase.Idle? && !LogWritePanics(s)
  {
    ReservedRoom(s.ops, i);
  }

  /** While a commit runs no operation is outstanding, so the header cannot change under it. */
  lemma CommitIsAlone(start: nat, s: Sys, e: Event, t: Sys)
    requires Inv(start, s) && s.phase.Committing? && Step(start, s, e, t) && !e.Crash?
    ensures s.ops == [] && (e.CommitWrite? || e.CommitDone?)
    ensures e.CommitWrite? ==> t.lh == s.lh && t.cache == s.cache && t.ops == []
  {
  }

  // ---- preservation

  lemma HeaderBegin(start: nat, s: Sys)
    requires HeaderOk(start, s) && MayBegin(s)
    ensures HeaderOk(start, s.(ops := s.ops + [0]))
  {
    ReservedBounds(s.ops);
    assert (s.ops + [0])[..|s.ops|] == s.ops;
  }

  lemma BeginKeeps(start: nat, s: Sys, t: Sys)
    requires Inv(start, s) && Step(start, s, Begin, t)
    ensures Inv(start, t)
  {
    HeaderBegin(start, s);
  }

  lemma LogWriteKeeps(start: nat, s: Sys, e: Event, t: Sys)
    requires Inv(start, s) && e.LogWrite? && Step(start, s, e, t)
    ensures Inv(start, t)
  {
    ReservedUpdate(s.ops, e.op, s.ops[e.op] + 1);
  }

  lemma HeaderEnd(start: nat, s: Sys, i: nat)
    requires HeaderOk(start, s) && i < |s.ops|
    ensures HeaderOk(start, s.(ops := Remove(s.ops, i)))
    ensures |s.ops| == 1 ==> Remove(s.ops, i) == []
  {
    ReservedRemove(s.ops, i);
  }

  lemma EndKeeps(start: nat, s: Sys, e: Event, t: Sys)
    requires Inv(start, s) && e.End? && Step(start, s, e, t)
    ensures Inv(start, t)
  {
    LogBounded(start, s);
    HeaderEnd(start, s, e.op);
    if |s.ops| == 1 {
      assert CommitWrites(start, s.disk[start], s.lh, Contents(s.lh, s.cache))[..0] == [];
    }
  }

  lemma LogBounded(start: nat, s: Sys)
    requires HeaderOk(start, s)
    ensures |s.lh| <= LOGBLOCKS
  {
    ReservedBounds(s.ops);
  }

  /** Whatever a commit writes over the header block is a header. */
  lemma HeaderStaysHeader(start: nat, head: Block, bs: seq<nat>, data: seq<Block>, k: nat)
    requires |head| == WORDS && |bs| == |data| <= LOGBLOCKS && k < |CommitWrites(start, head, bs, data)|
    requires forall i :: 0 <= i < |bs| ==> !InLog(start, bs[i])
    ensures var w := CommitWrites(start, head, bs, data)[k]; w.blockno == start ==> |w.data| == WORDS
  {
    var n := |bs| + 1;
    assert CommitWrites(start, head, bs, data)[k] ==
           if k < n then LogPhase(start, head, bs, data)[k]
           else InstallPhase(start, EncodeHead(head, bs), bs, data)[k - n];
  }

  lemma CommitWriteKeeps(start: nat, s: Sys, t: Sys)
    requires Inv(start, s) && Step(start, s, CommitWrite, t)
    ensures Inv(start, t)
  {
    hide Apply, SameHome, View, CommitWrites, Contents, Reserved, Distinct, InLog;
    var data := Contents(s.lh, s.cache);
    var ws := CommitWrites(start, s.phase.base[start], s.lh, data);
    var k := s.phase.k;
    HeaderStaysHeader(start, s.phase.base[start], s.lh, data, k);
    assert HeaderOk(start, t);
    assert ws[..k + 1] == ws[..k] + [ws[k]];
    ApplySnoc(s.phase.base, ws[..k], ws[k]);
  }

  lemma CommittedView(start: nat, s: Sys)
    requires Inv(start, s) && s.phase.Committing?
    ensures Transaction(|s.disk|, start, s.lh, Contents(s.lh, s.cache))
    ensures Layout(s.phase.base, start) && |s.phase.base| == |s.disk|
    ensures SameHome(Installed(s.phase.base, start, s.lh, Contents(s.lh, s.cache)), View(s.phase.base, s.cache), start)
  {
    var data := Contents(s.lh, s.cache);
    var p, v := Installed(s.phase.base, start, s.lh, data), View(s.phase.base, s.cache);
    InstalledAt(s.phase.base, start, s.lh, data);
    forall x | 0 <= x < |p| && !InLog(start, x) ensures p[x] == v[x] {
      if x in s.lh {
        var i :| 0 <= i < |s.lh| && s.lh[i] == x;
        assert p[s.lh[i]] == data[i];
      }
    }
  }

  lemma CommitDoneKeeps(start: nat, s: Sys, t: Sys)
    requires Inv(start, s) && Step(start, s, CommitDone, t)
    ensures Inv(start, t)
  {
    hide Apply, CommitWrites, Contents, InLog, View, Installed;
    var data := Contents(s.lh, s.cache);
    var base := s.phase.base;
    var ws := CommitWrites(start, base[start], s.lh, data);
    CommittedView(start, s);
    assert ws[..s.phase.k] == ws;
    if s.lh == [] {
      assert s.cache == map[];
      assert View(base, s.cache) == base;
      assert ws == [];
      ApplyNothing(base);
    } else {
      CommitFinishes(base, start, s.lh, data);
    }
  }

  lemma CommitFinishes(base: seq<Block>, start: nat, lh: seq<nat>, data: seq<Block>)
    requires Clean(base, start) && Transaction(|base|, start, lh, data) && lh != []
    ensures var ws := CommitWrites(start, base[start], lh, data);
            && InRange(|base|, ws) && Clean(Apply(base, ws), start)
            && SameHome(Apply(base, ws), Installed(base, start, lh, data), start)
  {
    hide Apply, Committed, Installed;
    var done := LogPhase(start, base[start], lh, data);
    var head := EncodeHead(base[start], lh);
    AfterHeader(base, start, lh, data);
    ClearFinishes(Apply(base, done), start, lh, data, Installed(base, start, lh, data), head);
    ApplyConcat(base, done, InstallPhase(start, head, lh, data));
  }

  /** What the disk promises in every reachable state: the logical contents at
      the end of the last group of whole operations, or, during a commit whose
      header has not been written, at the end of the group before it. */
  ghost function Durable(s: Sys): (home: seq<Block>)
    requires |s.snaps| > 0 && (s.phase.Committing? ==> |s.snaps| > 1)
  {
    var n := |s.snaps|;
    if s.phase.Committing? && s.lh != [] && s.phase.k <= |s.lh| then s.snaps[n - 2] else s.snaps[n - 1]
  }

  lemma PromisesSame(d: seq<Block>, start: nat, home: seq<Block>, home': seq<Block>)
    requires Promises(d, start, home) && SameHome(home, home', start)
    ensures Promises(d, start, home')
  {
    if !(Clean(d, start) && SameHome(d, home, start)) {
      var bs, data :| Committed(d, start, bs, data, home);
      assert Committed(d, start, bs, data, home');
    }
  }

  lemma DiskPromises(start: nat, s: Sys)
    requires Inv(start, s)
    ensures Promises(s.disk, start, Durable(s))
  {
    if s.phase.Committing? {
      var base, k := s.phase.base, s.phase.k;
      var data := Contents(s.lh, s.cache);
      CommittedView(start, s);
      CommitPrefix(base, start, s.lh, data, k);
      if s.lh == [] || k <= |s.lh| {
        PromisesSame(s.disk, start, base, Durable(s));
      } else {
        PromisesSame(s.disk, start, Installed(base, start, s.lh, data), Durable(s));
      }
    }
  }

  /** Whatever sequence of crashes hits a reachable state, recovery restores the
      logical contents of a moment when no operation was in progress. */
  lemma CrashSafe(start: nat, s: Sys, ks: seq<nat>, left: seq<Block>)
    requires Inv(start, s) && AfterCrashes(s.disk, start, ks, left)
    ensures Recoverable(left, start) && Clean(Recover(left, start), start)
    ensures SameHome(Recover(left, start), Durable(s), start)
  {
    DiskPromises(start, s);
    CrashesKeep(s.disk, start, Durable(s), ks, left);
    RecoveryDelivers(left, start, Durable(s));
  }

  lemma StepKeeps(start: nat, s: Sys, e: Event, t: Sys)
    requires Inv(start, s) && Step(start, s, e, t)
    ensures Inv(start, t)
  {
    match e
    case Begin => BeginKeeps(start, s, t);
    case LogWrite(_, _, _) => LogWriteKeeps(start, s, e, t);
    case End(_) => EndKeeps(start, s, e, t);
    case CommitWrite => CommitWriteKeeps(start, s, t);
    case CommitDone => CommitDoneKeeps(start, s, t);
    case Crash(ks, left) =>
      CrashSafe(start, s, ks, left);
  }

  ghost predicate Run(start: nat, s: Sys, es: seq<Event>, ts: seq<Sys>)
    decreases |es|
  {
    && |ts| == |es|
    && (es != [] ==> Step(start, s, es[0], ts[0]) && Run(start, ts[0], es[1..], ts[1..]))
  }

  /** Every interleaving of operations, commits and crashes, from any boot. */
  lemma {:induction false} RunsAreSafe(start: nat, s: Sys, es: seq<Event>, ts: seq<Sys>)
    requires Inv(start, s) && Run(start, s, es, ts)
    ensures forall i :: 0 <= i < |ts| ==> Inv(start, ts[i])
    decreases |es|
  {
    if es != [] {
      StepKeeps(start, s, es[0], ts[0]);
      RunsAreSafe(start, ts[0], es[1..], ts[1..]);
      assert ts == [ts[0]] + ts[1..];
    }
  }

  // ---- what the blocks hold

  /** Blocks that one write of a commit goes to: the log, or a block that is pinned. */
  lemma CommitTargets(start: nat, head: Block, bs: seq<nat>, data: seq<Block>, k: nat)
    requires |head| == WORDS && |bs| == |data| <= LOGBLOCKS && k < |CommitWrites(start, head, bs, data)|
    ensures var b := CommitWrites(start, head, bs, data)[k].blockno; InLog(start, b) || b in bs
  {
    var n := |bs| + 1;
    assert CommitWrites(start, head, bs, data)[k] ==
           if k < n then LogPhase(start, head, bs, data)[k]
           else InstallPhase(start, EncodeHead(head, bs), bs, data)[k - n];
  }

  /** What a reader sees changes by `log_write` alone, to exactly what was
      written, and by a crash. */
  lemma StepView(start: nat, s: Sys, e: Event, t: Sys)
    requires Inv(start, s) && Step(start, s, e, t)
    ensures |t.disk| == |s.disk|
    ensures e.LogWrite? ==> e.b < |s.disk| && View(t.disk, t.cache) == View(s.disk, s.cache)[e.b := e.data]
    ensures !e.LogWrite? && !e.Crash? ==> SameHome(View(t.disk, t.cache), View(s.disk, s.cache), start)
  {
    hide Inv, CommitWrites, Contents, Apply, Recover;
    match e
    case CommitWrite => WriteView(start, s, t);
    case CommitDone => DoneView(start, s);
    case Crash(ks, left) => assert |t.disk| == |left|; CrashedSize(s.disk, start, ks, left);
    case _ =>
  }

  lemma {:induction false} CrashedSize(d: seq<Block>, start: nat, ks: seq<nat>, e: seq<Block>)
    requires AfterCrashes(d, start, ks, e)
    ensures |e| == |d|
    decreases |ks|
  {
    hide Apply;
    if ks != [] {
      CrashedSize(CrashedRecovery(d, start, ks[0]), start, ks[1..], e);
    }
  }

  lemma WriteView(start: nat, s: Sys, t: Sys)
    requires Step(start, s, CommitWrite, t)
    ensures |t.disk| == |s.disk| && SameHome(View(t.disk, t.cache), View(s.disk, s.cache), start)
  {
    hide CommitWrites, Contents;
    CommitTargets(start, s.phase.base[start], s.lh, Contents(s.lh, s.cache), s.phase.k);
  }

  /** When the commit is done the disk itself holds what the pinned buffers hold. */
  lemma DoneView(start: nat, s: Sys)
    requires Inv(start, s) && s.phase.Committing? && s.phase.k == (if s.lh == [] then 0 else 2 * |s.lh| + 2)
    ensures SameHome(s.disk, View(s.disk, s.cache), start)
  {
    hide Apply, CommitWrites, Contents, Installed;
    var data, base := Contents(s.lh, s.cache), s.phase.base;
    var ws := CommitWrites(start, base[start], s.lh, data);
    CommittedView(start, s);
    assert ws[..s.phase.k] == ws;
    if s.lh != [] {
      CommitFinishes(base, start, s.lh, data);
      forall x | 0 <= x < |s.disk| && !InLog(start, x) && x in s.cache ensures s.disk[x] == s.cache[x] {
        assert View(base, s.cache)[x] == s.cache[x];
      }
    }
  }

  /** The contents that a run is meant to have, from its events alone: `cur` after
      all logged writes, `n` operations in progress, and `quiet` the contents at boot
      and at every moment an operation ended with no other in progress. */
  datatype Plan = Plan(cur: seq<Block>, n: nat, quiet: seq<seq<Block>>)

  ghost function PlanStep(start: nat, p: Plan, e: Event): Plan {
    match e
    case Begin => p.(n := p.n + 1)
    case LogWrite(_, b, data) => if b < |p.cur| then p.(cur := p.cur[b := data]) else p
    case End(_) => if p.n == 1 then Plan(p.cur, 0, p.quiet + [p.cur]) else p.(n := if p.n > 0 then p.n - 1 else 0)
    case Crash(_, left) => if Recoverable(left, start) then Plan(Recover(left, start), 0, p.quiet + [Recover(left, start)]) else p
    case _ => p
  }

  ghost function Planned(start: nat, p: Plan, es: seq<Event>): Plan
    decreases |es|
  {
    if es == [] then p else Planned(start, PlanStep(start, p, es[0]), es[1..])
  }

  predicate WritesTo(e: Event, x: nat) {
    e.LogWrite? && e.b == x
  }

  /** Between crashes a block is meant to hold what was logged for it last. */
  lemma {:induction false} NewestWrite(start: nat, p: Plan, es: seq<Event>, x: nat)
    requires x < |p.cur| && forall j :: 0 <= j < |es| ==> !es[j].Crash?
    ensures |Planned(start, p, es).cur| == |p.cur|
    ensures (forall j :: 0 <= j < |es| ==> !WritesTo(es[j], x)) ==> Planned(start, p, es).cur[x] == p.cur[x]
    ensures forall j :: 0 <= j < |es| && WritesTo(es[j], x) && (forall k :: j < k < |es| ==> !WritesTo(es[k], x)) ==>
                          Planned(start, p, es).cur[x] == es[j].data
    decreases |es|
  {
    if es != [] {
      var q := PlanStep(start, p, es[0]);
      NewestWrite(start, q, es[1..], x);
      forall j | 0 <= j < |es| && WritesTo(es[j], x) && (forall k :: j < k < |es| ==> !WritesTo(es[k], x))
        ensures Planned(start, p, es).cur[x] == es[j].data
      {
        if j == 0 {
          assert forall k :: 0 <= k < |es| - 1 ==> es[1..][k] == es[k + 1] && !WritesTo(es[k + 1], x);
        } else {
          assert es[1..][j - 1] == es[j];
          forall k | j - 1 < k < |es| - 1 ensures !WritesTo(es[1..][k], x) {
            assert es[1..][k] == es[k + 1];
          }
        }
      }
    }
  }

  /** The state shows its readers what is planned, and has recorded the quiet moments. */
  ghost predicate Follows(start: nat, s: Sys, p: Plan) {
    && |p.cur| == |s.disk| && SameHome(View(s.disk, s.cache), p.cur, start) && |s.ops| == p.n
    && |s.snaps| == |p.quiet| && forall j :: 0 <= j < |s.snaps| ==> SameHome(s.snaps[j], p.quiet[j], start)
  }

  lemma StepFollows(start: nat, s: Sys, e: Event, t: Sys, p: Plan)
    requires Inv(start, s) && Step(start, s, e, t) && Follows(start, s, p)
    ensures Follows(start, t, PlanStep(start, p, e))
  {
    hide Inv, CommitWrites, Apply, Recover, Contents;
    StepView(start, s, e, t);
    var q := PlanStep(start, p, e);
    match e
    case Crash(ks, left) => assert View(t.disk, t.cache) == t.disk;
    case _ =>
  }

  /** The state after a run. */
  function Last(s: Sys, ts: seq<Sys>): Sys {
    if ts == [] then s else ts[|ts| - 1]
  }

  lemma {:induction false} RunFollows(start: nat, s: Sys, es: seq<Event>, ts: seq<Sys>, p: Plan)
    requires Inv(start, s) && Run(start, s, es, ts) && Follows(start, s, p)
    ensures Inv(start, Last(s, ts)) && Follows(start, Last(s, ts), Planned(start, p, es))
    decreases |es|
  {
    hide Inv, Step, Follows, PlanStep;
    if es != [] {
      StepKeeps(start, s, es[0], ts[0]);
      StepFollows(start, s, es[0], ts[0], p);
      RunFollows(start, ts[0], es[1..], ts[1..], PlanStep(start, p, es[0]));
      assert Last(s, ts) == Last(ts[0], ts[1..]);
    }
  }

  /** In every reachable state a reader sees what was logged last, committed or not. */
  lemma ReadersSeeLogged(start: nat, s: Sys, es: seq<Event>, ts: seq<Sys>)
    requires Init(start, s) && Run(start, s, es, ts)
    ensures var t := Last(s, ts);
            SameHome(View(t.disk, t.cache), Planned(start, Plan(s.disk, 0, [s.disk]), es).cur, start)
  {
    hide Inv, Run, Init, Planned;
    BootFollows(start, s);
    RunFollows(start, s, es, ts, Plan(s.disk, 0, [s.disk]));
  }

  /** From boot, after any run, any crashes and one complete recovery, the home
      blocks are those that the logged writes give at a moment at which no
      operation was in progress: the last such moment, or, while its commit has
      not written the header yet, the one before it. */
  lemma WholeOperationsSurvive(start: nat, s: Sys, es: seq<Event>, ts: seq<Sys>, ks: seq<nat>, left: seq<Block>)
    requires Init(start, s) && Run(start, s, es, ts)
    requires AfterCrashes(Last(s, ts).disk, start, ks, left)
    ensures Recoverable(left, start)
    ensures var quiet, t := Planned(start, Plan(s.disk, 0, [s.disk]), es).quiet, Last(s, ts);
            var behind := t.phase.Committing? && t.lh != [] && t.phase.k <= |t.lh|;
            && |quiet| > (if behind then 1 else 0)
            && SameHome(Recover(left, start), quiet[|quiet| - if behind then 2 else 1], start)
  {
    hide Inv, Follows, Planned, Run, Init, Recover;
    var p := Plan(s.disk, 0, [s.disk]);
    BootFollows(start, s);
    RunFollows(start, s, es, ts, p);
    RecoversPlan(start, Last(s, ts), Planned(start, p, es), ks, left);
  }

  lemma BootFollows(start: nat, s: Sys)
    requires Init(start, s)
    ensures Inv(start, s) && Follows(start, s, Plan(s.disk, 0, [s.disk]))
  {
  }

  lemma RecoversPlan(start: nat, t: Sys, p: Plan, ks: seq<nat>, left: seq<Block>)
    requires Inv(start, t) && Follows(start, t, p) && AfterCrashes(t.disk, start, ks, left)
    ensures Recoverable(left, start)
    ensures var behind := t.phase.Committing? && t.lh != [] && t.phase.k <= |t.lh|;
            && |p.quiet| > (if behind then 1 else 0)
            && SameHome(Recover(left, start), p.quiet[|p.quiet| - if behind then 2 else 1], start)
  {
    hide CommitOk, HeaderOk, Recover;
    CrashSafe(start, t, ks, left);
  }

  /** The effect of a whole `commit()` on the state and on the trace of block writes. */
  ghost predicate CommitEffect(start: nat, s: Sys, t0: seq<Write>, t: Sys, t1: seq<Write>) {
    && Layout(s.disk, start) && Pinned(s) && |s.lh| <= LOGBLOCKS
    && var ws := CommitWrites(start, s.disk[start], s.lh, Contents(s.lh, s.cache));
    && t1 == t0 + ws && InRange(|s.disk|, ws) && t.disk == Apply(s.disk, ws)
    && t.lh == [] && t.cache == map[] && t.ops == s.ops
  }

  lemma HeaderLogged(start: nat, s: Sys, i: nat, b: nat, data: Block)
    requires HeaderOk(start, s) && i < |s.ops| && s.ops[i] < MAXOPBLOCKS && b < |s.disk| && !InLog(start, b)
    ensures !LogWritePanics(s)
    ensures var t := s.(cache := s.cache[b := data], lh := Absorb(s.lh, b), ops := if b in s.lh then s.ops else s.ops[i := s.ops[i] + 1]);
            HeaderOk(start, t) && (s.phase.Idle? ==> Step(start, s, LogWrite(i, b, data), t))
  {
    ReservedRoom(s.ops, i);
    ReservedUpdate(s.ops, i, s.ops[i] + 1);
  }

  lemma HeaderPhase(start: nat, s: Sys, t: Sys)
    requires HeaderOk(start, s) && t == s.(phase := t.phase)
    ensures HeaderOk(start, t)
  {
  }

  lemma EffectPhase(start: nat, s: Sys, t0: seq<Write>, t: Sys, t1: seq<Write>)
    ensures forall p, q :: CommitEffect(start, s.(phase := p), t0, t.(phase := q), t1) ==> CommitEffect(start, s, t0, t, t1)
  {
    hide CommitWrites, Apply, Contents;
  }

  lemma NoPins(d: seq<Block>)
    ensures View(d, map[]) == d
  {
  }

  lemma HeaderNone(start: nat, s: Sys)
    requires s.lh == [] && s.cache == map[] && s.ops == []
    ensures HeaderOk(start, s)
  {
  }

  /** It puts on the disk what readers saw before. */
  lemma EffectHome(start: nat, s: Sys, t0: seq<Write>, t: Sys, t1: seq<Write>)
    requires CommitEffect(start, s, t0, t, t1) && HeaderOk(start, s) && Clean(s.disk, start)
    ensures SameHome(t.disk, View(s.disk, s.cache), start)
  {
    hide Apply, CommitWrites, Contents;
    var data := Contents(s.lh, s.cache);
    if s.lh == [] {
      assert CommitWrites(start, s.disk[start], s.lh, data) == [];
      ApplyNothing(s.disk);
    } else {
      CommitFinishes(s.disk, start, s.lh, data);
      InstalledAt(s.disk, start, s.lh, data);
      forall x | 0 <= x < |s.disk| && !InLog(start, x) ensures t.disk[x] == View(s.disk, s.cache)[x] {
        if x in s.lh {
          var i :| 0 <= i < |s.lh| && s.lh[i] == x;
          assert Installed(s.disk, start, s.lh, data)[s.lh[i]] == data[i];
        }
      }
    }
  }
}
