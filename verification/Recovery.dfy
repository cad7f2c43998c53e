/** Crash atomicity of the redo log of kernel/log.c: the sequence of block
    writes issued by `commit` and by `recover_from_log`, and what any crash
    during either leaves behind. */
module Recovery {
  import opened Disk
  import opened DistinctElements

  const LOGBLOCKS: nat := 30
  const MAXOPBLOCKS: nat := 10

  /** Blocks [start, start + LOGBLOCKS] hold the header and the log. */
  predicate InLog(start: nat, b: nat) {
    start <= b <= start + LOGBLOCKS
  }

  ghost predicate Layout(d: seq<Block>, start: nat) {
    start + LOGBLOCKS < |d| && |d[start]| == WORDS
  }

  /** A transaction: distinct home blocks outside the log, one content each. */
  ghost predicate Transaction(n: nat, start: nat, bs: seq<nat>, data: seq<Block>) {
    && |bs| == |data| <= LOGBLOCKS
    && Distinct(bs)
    && forall i :: 0 <= i < |bs| ==> bs[i] < n && !InLog(start, bs[i])
  }

  /** `write_head` overwrites only the count and the first |bs| slots of the
      header block; the tail keeps whatever an earlier header left there. */
  function EncodeHead(prev: Block, bs: seq<nat>): (r: Block)
    requires |prev| == WORDS && |bs| <= LOGBLOCKS
    ensures |r| == WORDS && r[0] == |bs| && (forall i :: 0 <= i < |bs| ==> r[1 + i] == bs[i])
    ensures forall i :: |bs| < i < WORDS ==> r[i] == prev[i]
  {
    seq(WORDS, i requires 0 <= i < WORDS => if i == 0 then |bs| else if i <= |bs| then bs[i - 1] else prev[i])
  }

  /** A header block that `read_head` can decode. */
  predicate GoodHead(b: Block) {
    |b| == WORDS && 0 <= b[0] <= LOGBLOCKS && forall i :: 1 <= i <= b[0] ==> 0 <= b[i]
  }

  function DecodeHead(b: Block): (bs: seq<nat>)
    requires GoodHead(b)
    ensures |bs| == b[0] && forall i :: 0 <= i < |bs| ==> bs[i] == b[1 + i]
  {
    seq(b[0], i requires 0 <= i < b[0] => b[1 + i])
  }

  function LogCopies(start: nat, data: seq<Block>): (ws: seq<Write>)
    ensures |ws| == |data|
    ensures forall i :: 0 <= i < |ws| ==> ws[i] == Write(start + 1 + i, data[i])
  {
    seq(|data|, i requires 0 <= i < |data| => Write(start + 1 + i, data[i]))
  }

  function HomeCopies(bs: seq<nat>, data: seq<Block>): (ws: seq<Write>)
    requires |bs| == |data|
    ensures |ws| == |data|
    ensures forall i :: 0 <= i < |ws| ==> ws[i] == Write(bs[i], data[i])
  {
    seq(|data|, i requires 0 <= i < |data| => Write(bs[i], data[i]))
  }

  /** `write_log` and the first `write_head` of a commit. */
  function LogPhase(start: nat, head: Block, bs: seq<nat>, data: seq<Block>): (ws: seq<Write>)
    requires |head| == WORDS && |bs| == |data| <= LOGBLOCKS
    ensures |ws| == |bs| + 1
  {
    LogCopies(start, data) + [Write(start, EncodeHead(head, bs))]
  }

  /** `install_trans` and the `write_head` that empties the log. */
  function InstallPhase(start: nat, head: Block, bs: seq<nat>, data: seq<Block>): (ws: seq<Write>)
    requires |head| == WORDS && |bs| == |data|
    ensures |ws| == |bs| + 1
  {
    HomeCopies(bs, data) + [Write(start, EncodeHead(head, []))]
  }

  /** The block writes of one `commit()`, in the order they are issued. */
  function CommitWrites(start: nat, head: Block, bs: seq<nat>, data: seq<Block>): (ws: seq<Write>)
    requires |head| == WORDS && |bs| == |data| <= LOGBLOCKS
    ensures |ws| == if bs == [] then 0 else 2 * |bs| + 2
  {
    if bs == [] then []
    else LogPhase(start, head, bs, data) + InstallPhase(start, EncodeHead(head, bs), bs, data)
  }

  /** The contents of the log blocks named by the header. */
  function Logged(d: seq<Block>, start: nat, n: nat): (data: seq<Block>)
    requires start + n < |d|
    ensures |data| == n && forall i :: 0 <= i < n ==> data[i] == d[start + 1 + i]
  {
    seq(n, i requires 0 <= i < n => d[start + 1 + i])
  }

  /** What `recover_from_log` needs of the disk in order to run at all. */
  ghost predicate Recoverable(d: seq<Block>, start: nat) {
    && Layout(d, start)
    && GoodHead(d[start])
    && forall i :: 1 <= i <= d[start][0] ==> d[start][i] < |d|
  }

  /** The block writes of one complete `recover_from_log()`. */
  ghost function RecoverWrites(d: seq<Block>, start: nat): (ws: seq<Write>)
    requires Recoverable(d, start)
    ensures InRange(|d|, ws)
  {
    var bs := DecodeHead(d[start]);
    assert forall i :: 0 <= i < |bs| ==> bs[i] == d[start][1 + i] < |d|;
    InstallPhase(start, d[start], bs, Logged(d, start, |bs|))
  }

  ghost function Recover(d: seq<Block>, start: nat): (r: seq<Block>)
    requires Recoverable(d, start)
    ensures |r| == |d|
  {
    Apply(d, RecoverWrites(d, start))
  }

  /** A recovery that itself crashes after `k` of its writes. */
  ghost function CrashedRecovery(d: seq<Block>, start: nat, k: nat): (r: seq<Block>)
    requires Recoverable(d, start)
    ensures |r| == |d|
  {
    var ws := RecoverWrites(d, start);
    Apply(d, if k <= |ws| then ws[..k] else ws)
  }

  /** Equal everywhere outside the log area. */
  ghost predicate SameHome(d: seq<Block>, e: seq<Block>, start: nat) {
    |d| == |e| && forall x :: 0 <= x < |d| && !InLog(start, x) ==> d[x] == e[x]
  }

  /** The empty log: recovery has nothing to replay. */
  ghost predicate Clean(d: seq<Block>, start: nat) {
    Layout(d, start) && d[start][0] == 0
  }

  /** The header and the log blocks hold the transaction. */
  ghost predicate HoldsLog(d: seq<Block>, start: nat, bs: seq<nat>, data: seq<Block>)
    requires Layout(d, start) && |bs| == |data| <= LOGBLOCKS
  {
    && d[start][0] == |bs|
    && (forall i :: 0 <= i < |bs| ==> d[start][1 + i] == bs[i])
    && (forall i :: 0 <= i < |bs| ==> d[start + 1 + i] == data[i])
  }

  /** A committed transaction is in the log, and replaying it gives `home`. */
  ghost predicate Committed(d: seq<Block>, start: nat, bs: seq<nat>, data: seq<Block>, home: seq<Block>) {
    && Layout(d, start) && |home| == |d|
    && Transaction(|d|, start, bs, data)
    && HoldsLog(d, start, bs, data)
    && (forall i :: 0 <= i < |bs| ==> home[bs[i]] == data[i])
    && (forall x :: 0 <= x < |d| && !InLog(start, x) && x !in bs ==> d[x] == home[x])
  }

  /** A disk whose recovery is bound to end with home blocks `home`. */
  ghost predicate Promises(d: seq<Block>, start: nat, home: seq<Block>) {
    || (Clean(d, start) && SameHome(d, home, start))
    || exists bs, data :: Committed(d, start, bs, data, home)
  }

  lemma PromisesRecoverable(d: seq<Block>, start: nat, home: seq<Block>)
    requires Promises(d, start, home)
    ensures Recoverable(d, start)
  {
    if !Clean(d, start) {
      var bs, data :| Committed(d, start, bs, data, home);
      forall i | 1 <= i <= d[start][0]
        ensures 0 <= d[start][i] < |d|
      {
        assert d[start][1 + (i - 1)] == bs[i - 1];
      }
    }
  }

  lemma CommittedReplay(d: seq<Block>, start: nat, bs: seq<nat>, data: seq<Block>, home: seq<Block>)
    requires Committed(d, start, bs, data, home)
    ensures Recoverable(d, start)
    ensures DecodeHead(d[start]) == bs && Logged(d, start, |bs|) == data
  {
    assert Promises(d, start, home);
    PromisesRecoverable(d, start, home);
  }

  /** Part of the home copies: the named blocks are replaced, all others stay. */
  lemma PartialInstall(d: seq<Block>, start: nat, bs: seq<nat>, data: seq<Block>, k: nat)
    requires Layout(d, start) && Transaction(|d|, start, bs, data) && k <= |bs|
    ensures InRange(|d|, HomeCopies(bs, data)[..k])
    ensures var e := Apply(d, HomeCopies(bs, data)[..k]);
            && (forall i :: 0 <= i < k ==> e[bs[i]] == data[i])
            && (forall x :: 0 <= x < |d| && x !in bs[..k] ==> e[x] == d[x])
  {
    var ws := HomeCopies(bs, data)[..k];
    forall i | 0 <= i < k
      ensures Apply(d, ws)[bs[i]] == data[i]
    {
      ApplyAt(d, ws, i);
    }
    forall x | 0 <= x < |d| && x !in bs[..k]
      ensures Apply(d, ws)[x] == d[x]
    {
      forall i | 0 <= i < |ws| ensures ws[i].blockno != x {
        assert bs[..k][i] == bs[i];
      }
      ApplyUntouched(d, ws, x);
    }
  }

  /** A crash while the home copies are being made loses nothing. */
  lemma InstallKeepsCommitted(d: seq<Block>, start: nat, bs: seq<nat>, data: seq<Block>, home: seq<Block>, k: nat)
    requires Committed(d, start, bs, data, home) && k <= |bs|
    ensures InRange(|d|, HomeCopies(bs, data)[..k])
    ensures Committed(Apply(d, HomeCopies(bs, data)[..k]), start, bs, data, home)
  {
    PartialInstall(d, start, bs, data, k);
    var e := Apply(d, HomeCopies(bs, data)[..k]);
    assert HoldsLog(e, start, bs, data) by {
      forall x: nat | InLog(start, x) ensures e[x] == d[x] {
        assert x !in bs[..k];
      }
      assert e[start] == d[start];
    }
    forall x | 0 <= x < |d| && !InLog(start, x) && x !in bs ensures e[x] == home[x] {
      assert x !in bs[..k];
    }
  }

  /** Clearing the header after all home copies yields the empty log over `home`. */
  lemma ClearFinishes(d: seq<Block>, start: nat, bs: seq<nat>, data: seq<Block>, home: seq<Block>, head: Block)
    requires Committed(d, start, bs, data, home) && |head| == WORDS
    ensures var ws := InstallPhase(start, head, bs, data);
            InRange(|d|, ws) && Clean(Apply(d, ws), start) && SameHome(Apply(d, ws), home, start)
  {
    var hs := HomeCopies(bs, data);
    assert hs[..|bs|] == hs;
    InstallKeepsCommitted(d, start, bs, data, home, |bs|);
    PartialInstall(d, start, bs, data, |bs|);
    assert bs[..|bs|] == bs;
    ApplySnoc(d, hs, Write(start, EncodeHead(head, [])));
  }

  /** The installing part of a commit or of a recovery may stop anywhere. */
  lemma InstallPrefix(d: seq<Block>, start: nat, bs: seq<nat>, data: seq<Block>, home: seq<Block>, head: Block, j: nat)
    requires Committed(d, start, bs, data, home) && |head| == WORDS && j <= |bs| + 1
    ensures var ws := InstallPhase(start, head, bs, data)[..j];
            InRange(|d|, ws) && Promises(Apply(d, ws), start, home)
  {
    var all := InstallPhase(start, head, bs, data);
    if j <= |bs| {
      InstallKeepsCommitted(d, start, bs, data, home, j);
      assert all[..j] == HomeCopies(bs, data)[..j];
    } else {
      ClearFinishes(d, start, bs, data, home, head);
      assert all[..j] == all;
    }
  }

  /** One crashed recovery keeps the promise. */
  lemma CrashedRecoveryKeeps(d: seq<Block>, start: nat, home: seq<Block>, k: nat)
    requires Promises(d, start, home)
    ensures Recoverable(d, start)
    ensures Promises(CrashedRecovery(d, start, k), start, home)
  {
    PromisesRecoverable(d, start, home);
    var ws := RecoverWrites(d, start);
    if Clean(d, start) && SameHome(d, home, start) {
      var w := Write(start, EncodeHead(d[start], []));
      assert ws == [w];
      ApplySnoc(d, [], w);
      assert [] + [w] == ws;
      assert k == 0 ==> ws[..k] == [];
      assert k == 1 ==> ws[..k] == ws;
    } else {
      var bs, data :| Committed(d, start, bs, data, home);
      CommittedReplay(d, start, bs, data, home);
      InstallPrefix(d, start, bs, data, home, d[start], if k <= |ws| then k else |ws|);
      assert ws[..|ws|] == ws;
    }
  }

  /** A complete recovery delivers exactly the promised home blocks and an empty log. */
  lemma RecoveryDelivers(d: seq<Block>, start: nat, home: seq<Block>)
    requires Promises(d, start, home)
    ensures Recoverable(d, start)
    ensures Clean(Recover(d, start), start) && SameHome(Recover(d, start), home, start)
  {
    PromisesRecoverable(d, start, home);
    if Clean(d, start) && SameHome(d, home, start) {
      var w := Write(start, EncodeHead(d[start], []));
      ApplySnoc(d, [], w);
      assert [] + [w] == RecoverWrites(d, start);
    } else {
      var bs, data :| Committed(d, start, bs, data, home);
      CommittedReplay(d, start, bs, data, home);
      ClearFinishes(d, start, bs, data, home, d[start]);
    }
  }

  /** The disks that can be left after any number of crashed recoveries. */
  ghost predicate AfterCrashes(d: seq<Block>, start: nat, ks: seq<nat>, e: seq<Block>)
    decreases |ks|
  {
    if ks == [] then e == d
    else Recoverable(d, start) && AfterCrashes(CrashedRecovery(d, start, ks[0]), start, ks[1..], e)
  }

  lemma {:induction false} CrashesKeep(d: seq<Block>, start: nat, home: seq<Block>, ks: seq<nat>, e: seq<Block>)
    requires Promises(d, start, home) && AfterCrashes(d, start, ks, e)
    ensures Promises(e, start, home)
    decreases |ks|
  {
    if ks != [] {
      CrashedRecoveryKeeps(d, start, home, ks[0]);
      CrashesKeep(CrashedRecovery(d, start, ks[0]), start, home, ks[1..], e);
    }
  }

  /** The home blocks once the transaction is installed. */
  ghost function Installed(d: seq<Block>, start: nat, bs: seq<nat>, data: seq<Block>): (r: seq<Block>)
    requires Layout(d, start) && Transaction(|d|, start, bs, data)
    ensures |r| == |d|
  {
    Apply(d, HomeCopies(bs, data))
  }

  lemma InstalledAt(d: seq<Block>, start: nat, bs: seq<nat>, data: seq<Block>)
    requires Layout(d, start) && Transaction(|d|, start, bs, data)
    ensures var p := Installed(d, start, bs, data);
            && (forall i :: 0 <= i < |bs| ==> p[bs[i]] == data[i])
            && (forall x :: 0 <= x < |d| && x !in bs ==> p[x] == d[x])
  {
    var hs := HomeCopies(bs, data);
    assert hs[..|bs|] == hs && bs[..|bs|] == bs;
    PartialInstall(d, start, bs, data, |bs|);
  }

  lemma LogWritten(d: seq<Block>, start: nat, data: seq<Block>)
    requires Layout(d, start) && |data| <= LOGBLOCKS
    ensures InRange(|d|, LogCopies(start, data))
    ensures var e := Apply(d, LogCopies(start, data));
            && (forall i :: 0 <= i < |data| ==> e[start + 1 + i] == data[i])
            && (forall x :: 0 <= x < |d| && !(start < x <= start + LOGBLOCKS) ==> e[x] == d[x])
  {
    var ls := LogCopies(start, data);
    var e := Apply(d, ls);
    forall i | 0 <= i < |data| ensures e[start + 1 + i] == data[i] {
      LogWrittenAt(d, start, data, i);
    }
    forall x | 0 <= x < |d| && !(start < x <= start + LOGBLOCKS) ensures e[x] == d[x] {
      ApplyUntouched(d, ls, x);
    }
  }

  lemma LogWrittenAt(d: seq<Block>, start: nat, data: seq<Block>, i: nat)
    requires Layout(d, start) && |data| <= LOGBLOCKS && i < |data|
    ensures InRange(|d|, LogCopies(start, data))
    ensures Apply(d, LogCopies(start, data))[start + 1 + i] == data[i]
  {
    var ls := LogCopies(start, data);
    hide Apply;
    assert ls[i] == Write(start + 1 + i, data[i]);
    ApplyAt(d, ls, i);
  }

  /** The header write is the commit point: the disk after all log copies and the header. */
  lemma AfterHeader(d: seq<Block>, start: nat, bs: seq<nat>, data: seq<Block>)
    requires Clean(d, start) && Transaction(|d|, start, bs, data)
    ensures var ws := LogPhase(start, d[start], bs, data);
            InRange(|d|, ws) && Committed(Apply(d, ws), start, bs, data, Installed(d, start, bs, data))
  {
    hide Apply;
    LogWritten(d, start, data);
    var w := Write(start, EncodeHead(d[start], bs));
    ApplySnoc(d, LogCopies(start, data), w);
    var e := Apply(d, LogCopies(start, data));
    assert HoldsLog(e[start := w.data], start, bs, data);
    InstalledAt(d, start, bs, data);
  }

  /** The log phase in terms of its last write. */
  lemma LogPhaseEnds(d: seq<Block>, start: nat, bs: seq<nat>, data: seq<Block>)
    requires Layout(d, start) && |bs| == |data| <= LOGBLOCKS
    ensures InRange(|d|, LogCopies(start, data)) && InRange(|d|, LogPhase(start, d[start], bs, data))
    ensures var e := Apply(d, LogPhase(start, d[start], bs, data));
            && e == Apply(d, LogCopies(start, data))[start := EncodeHead(d[start], bs)]
            && Apply(d, LogCopies(start, data))[start] == d[start]
            && Logged(e, start, |bs|) == data
  {
    hide Apply;
    LogWritten(d, start, data);
    ApplySnoc(d, LogCopies(start, data), Write(start, EncodeHead(d[start], bs)));
    var e := Apply(d, LogPhase(start, d[start], bs, data));
    forall i | 0 <= i < |bs| ensures Logged(e, start, |bs|)[i] == data[i] {
      assert e[start + 1 + i] == data[i];
    }
  }

  /** The installing phase in terms of its last write. */
  lemma InstallPhaseEnds(d: seq<Block>, start: nat, bs: seq<nat>, data: seq<Block>)
    requires Layout(d, start) && |bs| == |data| <= LOGBLOCKS
    requires forall i :: 0 <= i < |bs| ==> bs[i] < |d| && !InLog(start, bs[i])
    ensures InRange(|d|, HomeCopies(bs, data)) && InRange(|d|, InstallPhase(start, d[start], bs, data))
    ensures var e := Apply(d, InstallPhase(start, d[start], bs, data));
            && e == Apply(d, HomeCopies(bs, data))[start := EncodeHead(d[start], [])]
            && Apply(d, HomeCopies(bs, data))[start] == d[start]
  {
    hide Apply;
    var hs := HomeCopies(bs, data);
    forall i | 0 <= i < |hs| ensures hs[i].blockno != start {
      assert hs[i].blockno == bs[i];
    }
    ApplyUntouched(d, hs, start);
    ApplySnoc(d, hs, Write(start, EncodeHead(d[start], [])));
  }

  lemma BeforeHeader(d: seq<Block>, start: nat, bs: seq<nat>, data: seq<Block>, k: nat)
    requires Clean(d, start) && Transaction(|d|, start, bs, data) && k <= |bs|
    ensures |CommitWrites(start, d[start], bs, data)| >= k
    ensures var ws := CommitWrites(start, d[start], bs, data)[..k];
            InRange(|d|, ws) && Clean(Apply(d, ws), start) && SameHome(Apply(d, ws), d, start)
  {
    var ls := LogCopies(start, data);
    var ws := CommitWrites(start, d[start], bs, data)[..k];
    assert ws == ls[..k];
    forall x | 0 <= x < |d| && !(start < x <= start + LOGBLOCKS) ensures Apply(d, ws)[x] == d[x] {
      ApplyUntouched(d, ws, x);
    }
  }

  lemma TakeConcat<T>(xs: seq<T>, ys: seq<T>, k: nat)
    requires |xs| <= k <= |xs| + |ys|
    ensures (xs + ys)[..k] == xs + ys[..k - |xs|]
  {
  }

  lemma FromHeader(d: seq<Block>, start: nat, bs: seq<nat>, data: seq<Block>, k: nat)
    requires Clean(d, start) && Transaction(|d|, start, bs, data)
    requires |bs| < k <= |CommitWrites(start, d[start], bs, data)|
    ensures var ws := CommitWrites(start, d[start], bs, data)[..k];
            InRange(|d|, ws) && Promises(Apply(d, ws), start, Installed(d, start, bs, data))
  {
    hide Apply, Committed, Promises;
    var done := LogPhase(start, d[start], bs, data);
    var head := EncodeHead(d[start], bs);
    var j := k - |done|;
    AfterHeader(d, start, bs, data);
    InstallPrefix(Apply(d, done), start, bs, data, Installed(d, start, bs, data), head, j);
    TakeConcat(done, InstallPhase(start, head, bs, data), k);
    ApplyConcat(d, done, InstallPhase(start, head, bs, data)[..j]);
  }

  /** A crash after `k` writes of a commit: the old home blocks are promised up
      to and including the last log copy, the new ones from the header on. */
  lemma CommitPrefix(d: seq<Block>, start: nat, bs: seq<nat>, data: seq<Block>, k: nat)
    requires Clean(d, start) && Transaction(|d|, start, bs, data)
    requires k <= |CommitWrites(start, d[start], bs, data)|
    ensures var ws := CommitWrites(start, d[start], bs, data)[..k];
            && InRange(|d|, ws)
            && (k <= |bs| ==> Clean(Apply(d, ws), start))
            && Promises(Apply(d, ws), start, if k <= |bs| then d else Installed(d, start, bs, data))
  {
    if k <= |bs| {
      BeforeHeader(d, start, bs, data, k);
    } else {
      FromHeader(d, start, bs, data, k);
    }
  }

  /** Crash atomicity. A commit over an empty log crashes after `k` of its
      writes; recovery then crashes any number of times, each time anywhere; the
      first complete recovery leaves the home blocks exactly as before the
      transaction when the header write had not been issued, and exactly as
      after it from the header write on. */
  lemma CrashAtomicity(d: seq<Block>, start: nat, bs: seq<nat>, data: seq<Block>,
                       k: nat, ks: seq<nat>, e: seq<Block>)
    requires Clean(d, start) && Transaction(|d|, start, bs, data)
    requires k <= |CommitWrites(start, d[start], bs, data)|
    requires InRange(|d|, CommitWrites(start, d[start], bs, data)[..k])
    requires AfterCrashes(Apply(d, CommitWrites(start, d[start], bs, data)[..k]), start, ks, e)
    ensures Recoverable(e, start) && Clean(Recover(e, start), start)
    ensures SameHome(Recover(e, start), if k <= |bs| then d else Installed(d, start, bs, data), start)
  {
    CommitPrefix(d, start, bs, data, k);
    var home := if k <= |bs| then d else Installed(d, start, bs, data);
    CrashesKeep(Apply(d, CommitWrites(start, d[start], bs, data)[..k]), start, home, ks, e);
    RecoveryDelivers(e, start, home);
  }
}
