/** The logging layer of kernel/log.c in its own, imperative form. The buffer
    cache appears as the contents of the pinned buffers; `trace` records every
    block write in the order it reaches the disk. */
module Log {
  import opened Disk
  import opened Recovery
  import opened DistinctElements
  import opened GroupCommit

  class Journal {
    const start: nat
    var disk: seq<Block>
    var cache: map<nat, Block>
    var lh: seq<nat>          // lh.block[0 .. lh.n)
    var outstanding: nat
    var committing: bool
    var pins: nat                 // references held by `bpin`
    ghost var ops: seq<nat>       // blocks added so far by each outstanding operation
    ghost var trace: seq<Write>

    ghost predicate Ready()
      reads this
    {
      && Layout(disk, start)
      && HeaderOk(start, State())
      && outstanding == |ops| && pins == |lh|
    }

    /** Between two critical sections, with no commit in progress. */
    ghost predicate Valid()
      reads this
    {
      Ready() && !committing && Clean(disk, start)
    }

    ghost function State(): Sys
      reads this
    {
      Sys(disk, cache, lh, ops, if committing then Committing(disk, 0) else Idle, [])
    }

    /** `initlog`: boot from whatever a crash left on the disk. */
    constructor (d: seq<Block>, start: nat)
      requires Recoverable(d, start)
      requires forall i :: 1 <= i <= d[start][0] ==> !InLog(start, d[start][i])
      ensures Valid() && this.start == start && lh == [] && cache == map[] && ops == []
      ensures disk == Recover(d, start)
      ensures forall home :: Promises(d, start, home) ==> SameHome(disk, home, start)
    {
      this.start := start;
      disk, cache, lh, outstanding, committing, pins := d, map[], [], 0, false, 0;
      ops, trace := [], [];
      new;
      RecoverFromLog();
      ReservedBounds([]);
      forall home | Promises(d, start, home) ensures SameHome(disk, home, start) {
        RecoveryDelivers(d, start, home);
      }
    }

    function Bread(b: nat): Block
      requires b < |disk|
      reads this
    {
      if b in cache then cache[b] else disk[b]
    }

    method Bwrite(b: nat, data: Block)
      requires b < |disk|
      modifies this`disk, this`trace, this`cache
      ensures disk == old(disk)[b := data] && trace == old(trace) + [Write(b, data)]
      ensures cache == if b in old(cache) then old(cache)[b := data] else old(cache)
      ensures cache.Keys == old(cache).Keys
    {
      disk := disk[b := data];
      if b in cache {
        cache := cache[b := data];
      }
      trace := trace + [Write(b, data)];
    }

    method ReadHead()
      requires start < |disk| && start !in cache && GoodHead(disk[start])
      modifies this`lh
      ensures lh == DecodeHead(disk[start])
    {
      var buf := Bread(start);
      lh := [];
      var i := 0;
      while i < buf[0]
        invariant 0 <= i <= buf[0] && lh == DecodeHead(buf)[..i]
      {
        lh := lh + [buf[1 + i]];
        i := i + 1;
      }
    }

    method WriteHead()
      requires start < |disk| && |disk[start]| == WORDS && start !in cache && |lh| <= LOGBLOCKS
      modifies this`disk, this`trace, this`cache
      ensures trace == old(trace) + [Write(start, EncodeHead(old(disk)[start], lh))]
      ensures disk == old(disk)[start := EncodeHead(old(disk)[start], lh)] && cache == old(cache)
    {
      var buf := Bread(start);
      ghost var prev := disk[start];
      buf := buf[0 := |lh|];
      var i := 0;
      while i < |lh|
        invariant 0 <= i <= |lh| && |buf| == WORDS && buf[0] == |lh|
        invariant forall j :: 0 <= j < i ==> buf[1 + j] == lh[j]
        invariant forall j :: i < j < WORDS ==> buf[j] == prev[j]
      {
        buf := buf[1 + i := lh[i]];
        i := i + 1;
      }
      assert buf == EncodeHead(prev, lh) by {
        forall j | 0 <= j < WORDS ensures buf[j] == EncodeHead(prev, lh)[j] {
          if 1 <= j <= |lh| {
            assert buf[1 + (j - 1)] == lh[j - 1];
          }
        }
      }
      Bwrite(start, buf);
    }

    /** Copies log blocks home, unpinning each buffer unless recovering. */
    method InstallTrans(recovering: bool)
      requires Layout(disk, start) && |lh| <= LOGBLOCKS && (!recovering ==> pins == |lh|)
      requires forall i :: 0 <= i < |lh| ==> lh[i] < |disk| && !InLog(start, lh[i])
      requires forall b :: b in cache ==> !InLog(start, b)
      modifies this`disk, this`trace, this`cache, this`pins
      ensures var ws := HomeCopies(lh, Logged(old(disk), start, |lh|));
              && trace == old(trace) + ws
              && InRange(|old(disk)|, ws) && disk == Apply(old(disk), ws)
      ensures cache.Keys == old(cache).Keys && pins == if recovering then old(pins) else 0
    {
      ghost var d0, t0 := disk, trace;
      ghost var ws := HomeCopies(lh, Logged(d0, start, |lh|));
      hide Issued;
      IssuedNone(disk, trace, ws);
      var tail := 0;
      while tail < |lh|
        invariant 0 <= tail <= |lh| && |disk| == |d0|
        invariant Issued(d0, t0, ws, tail, disk, trace)
        invariant forall x :: start <= x <= start + LOGBLOCKS ==> disk[x] == d0[x]
        invariant cache.Keys == old(cache).Keys && pins == old(pins) - if recovering then 0 else tail
      {
        var lbuf := Bread(start + tail + 1);
        IssuedNext(d0, t0, ws, tail, disk, trace);
        Bwrite(lh[tail], lbuf);
        if !recovering {
          pins := pins - 1; // bunpin
        }
        tail := tail + 1;
      }
      IssuedAll(d0, t0, ws, disk, trace);
    }

    method RecoverFromLog()
      requires Recoverable(disk, start) && cache == map[]
      requires forall i :: 1 <= i <= disk[start][0] ==> !InLog(start, disk[start][i])
      modifies this`disk, this`trace, this`cache, this`lh, this`pins
      ensures pins == old(pins) && trace == old(trace) + RecoverWrites(old(disk), start)
      ensures disk == Recover(old(disk), start) && Layout(disk, start) && disk[start][0] == 0
      ensures lh == [] && cache == map[]
    {
      hide Apply;
      ghost var d0 := disk;
      ReadHead();
      ghost var bs, data := lh, Logged(d0, start, |lh|);
      assert forall i :: 0 <= i < |bs| ==> bs[i] == d0[start][1 + i];
      InstallPhaseEnds(d0, start, bs, data);
      InstallTrans(true);
      lh := [];
      WriteHead();
    }

    /** One pass of the loop in `begin_op`; `ok == false` means the caller sleeps and retries. */
    method TryBeginOp() returns (ok: bool)
      requires Ready()
      modifies this`outstanding, this`ops
      ensures Ready() && ok == MayBegin(old(State()))
      ensures ok ==> Step(start, old(State()), Begin, State())
      ensures !ok ==> State() == old(State())
    {
      hide HeaderOk;
      if committing || |lh| + (outstanding + 1) * MAXOPBLOCKS > LOGBLOCKS {
        return false;
      }
      HeaderBegin(start, State());
      outstanding := outstanding + 1;
      ops := ops + [0];
      return true;
    }

    /** `log_write`: `i` is the calling operation, `data` the modified buffer. */
    method LogWrite(ghost i: nat, b: nat, data: Block)
      requires Valid() && i < |ops| && ops[i] < MAXOPBLOCKS
      requires b < |disk| && !InLog(start, b)
      modifies this`cache, this`lh, this`ops, this`pins
      ensures Valid() && Step(start, old(State()), Event.LogWrite(i, b, data), State())
      ensures disk == old(disk) && Bread(b) == data && forall x :: 0 <= x < |disk| && x != b ==> Bread(x) == old(Bread(x))
    {
      HeaderLogged(start, State(), i, b, data);
      hide HeaderOk, Step, Layout, Clean, InLog;
      ghost var s := State();
      ghost var t := s.(cache := s.cache[b := data], lh := Absorb(s.lh, b), ops := if b in s.lh then s.ops else s.ops[i := s.ops[i] + 1]);
      assert |lh| < LOGBLOCKS && outstanding >= 1; // neither panic
      var j := Entry(b);
      cache := cache[b := data];
      if j == |lh| {
        lh, pins := lh + [b], pins + 1;
        ops := ops[i := ops[i] + 1];
      } else {
        lh := lh[j := b];
        assert lh == s.lh;
      }
      assert State() == t;
    }

    /** The search for an entry that absorbs the write. */
    method Entry(b: nat) returns (j: nat)
      ensures j <= |lh| && (if j < |lh| then lh[j] == b else b !in lh)
    {
      j := 0;
      while j < |lh|
        invariant 0 <= j <= |lh| && forall m :: 0 <= m < j ==> lh[m] != b
      {
        if lh[j] == b {
          break;
        }
        j := j + 1;
      }
    }

    method WriteLog()
      requires Ready() && |lh| <= LOGBLOCKS
      modifies this`disk, this`trace, this`cache
      ensures cache == old(cache)
      ensures var ws := LogCopies(start, Contents(lh, cache));
              && trace == old(trace) + ws
              && InRange(|old(disk)|, ws) && disk == Apply(old(disk), ws)
    {
      ghost var d0, t0 := disk, trace;
      ghost var ws := LogCopies(start, Contents(lh, cache));
      assert forall i :: 0 <= i < |lh| ==> lh[i] < start || start + LOGBLOCKS < lh[i];
      hide Distinct, InLog, Issued;
      IssuedNone(disk, trace, ws);
      var tail := 0;
      while tail < |lh|
        invariant 0 <= tail <= |lh| && |disk| == |d0| && cache == old(cache)
        invariant Issued(d0, t0, ws, tail, disk, trace)
      {
        var from := Bread(lh[tail]);
        IssuedNext(d0, t0, ws, tail, disk, trace);
        assert start + tail + 1 !in lh;
        Bwrite(start + tail + 1, from);
        tail := tail + 1;
      }
      IssuedAll(d0, t0, ws, disk, trace);
    }

    /** Issues exactly the block writes analysed in module Recovery. */
    method Commit()
      requires Ready() && Clean(disk, start) && |lh| <= LOGBLOCKS
      modifies this`disk, this`trace, this`cache, this`lh, this`pins
      ensures pins == 0 && CommitEffect(start, old(State()), old(trace), State(), trace)
      ensures Clean(disk, start) && lh == [] && cache == map[]
    {
      hide Apply, Contents, EncodeHead, LogCopies, HomeCopies, Logged, Reserved, View, Distinct, InRange;
      if |lh| > 0 {
        ghost var d0, bs, data := disk, lh, Contents(lh, cache);
        assert Transaction(|d0|, start, bs, data);
        LogPhaseEnds(d0, start, bs, data);
        WriteLog();
        WriteHead();
        ghost var d2 := disk;
        InstallPhaseEnds(d2, start, bs, data);
        InstallTrans(false);
        lh, cache := [], map[]; // no pins left: every cached copy is also on the disk
        WriteHead();
        ApplyConcat(d0, LogPhase(start, d0[start], bs, data), InstallPhase(start, d2[start], bs, data));
      } else {
        ApplyNothing(disk);
      }
    }

    /** `end_op`: the last operation out commits the whole group. */
    method EndOp(ghost i: nat)
      requires Valid() && i < |ops|
      modifies this
      ensures Valid()
      ensures |old(ops)| > 1 ==> Step(start, old(State()), End(i), State()) && trace == old(trace)
      ensures |old(ops)| == 1 ==> CommitEffect(start, old(State()).(ops := []), old(trace), State(), trace)
      ensures SameHome(View(disk, cache), old(View(disk, cache)), start)
      ensures |old(ops)| == 1 ==> SameHome(disk, old(View(disk, cache)), start)
    {
      LogBounded(start, State());
      HeaderEnd(start, State(), i);
      hide CommitEffect, HeaderOk, View, Recover;
      outstanding := outstanding - 1;
      ops := Remove(ops, i);
      if outstanding == 0 {
        CommitGroup();
      }
    }

    /** The part of `end_op` that is left to the last operation. */
    method CommitGroup()
      requires Valid() && ops == [] && |lh| <= LOGBLOCKS
      modifies this
      ensures Valid() && ops == []
      ensures CommitEffect(start, old(State()), old(trace), State(), trace)
      ensures SameHome(View(disk, cache), old(View(disk, cache)), start) && SameHome(disk, old(View(disk, cache)), start)
    {
      hide CommitEffect, HeaderOk, View, Recover;
      ghost var s0, t0 := State(), trace;
      committing := true;
      HeaderPhase(start, s0, State());
      Commit();
      HeaderNone(start, State());
      committing := false;
      HeaderNone(start, State());
      EffectPhase(start, s0, t0, State(), trace);
      EffectHome(start, s0, t0, State(), trace);
      NoPins(disk);
    }
  }
}
