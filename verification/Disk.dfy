/** The disk as an array of blocks. Each `bwrite` of kernel/bio.c reaches it as
    one atomic step, so a crash leaves exactly the effect of a prefix of the
    writes that were issued. */
module Disk {
  const WORDS: nat := 256 // BSIZE / sizeof(int)

  /** Contents of a block, as words. Only the log header is ever decoded. */
  type Block = seq<int>

  datatype Write = Write(blockno: nat, data: Block)

  ghost predicate InRange(n: nat, ws: seq<Write>) {
    forall i :: 0 <= i < |ws| ==> ws[i].blockno < n
  }

  /** The disk after the writes `ws`, issued in order. */
  ghost function Apply(d: seq<Block>, ws: seq<Write>): (r: seq<Block>)
    requires InRange(|d|, ws)
    ensures |r| == |d|
  {
    if ws == [] then d
    else
      var last := |ws| - 1;
      Apply(d, ws[..last])[ws[last].blockno := ws[last].data]
  }

  lemma ApplyNothing(d: seq<Block>)
    ensures InRange(|d|, []) && Apply(d, []) == d
  {
  }

  lemma ApplySnoc(d: seq<Block>, ws: seq<Write>, w: Write)
    requires InRange(|d|, ws) && w.blockno < |d|
    ensures InRange(|d|, ws + [w])
    ensures Apply(d, ws + [w]) == Apply(d, ws)[w.blockno := w.data]
  {
    assert (ws + [w])[..|ws|] == ws;
  }

  lemma {:induction false} ApplyConcat(d: seq<Block>, xs: seq<Write>, ys: seq<Write>)
    requires InRange(|d|, xs) && InRange(|d|, ys)
    ensures InRange(|d|, xs + ys)
    ensures Apply(d, xs + ys) == Apply(Apply(d, xs), ys)
    decreases |ys|
  {
    if ys == [] {
      assert xs + ys == xs;
    } else {
      var k := |ys| - 1;
      ApplyConcat(d, xs, ys[..k]);
      assert xs + ys == (xs + ys[..k]) + [ys[k]];
      ApplySnoc(d, xs + ys[..k], ys[k]);
    }
  }

  /** A block that no write names keeps its contents. */
  lemma {:induction false} ApplyUntouched(d: seq<Block>, ws: seq<Write>, x: nat)
    requires InRange(|d|, ws) && x < |d|
    requires forall i :: 0 <= i < |ws| ==> ws[i].blockno != x
    ensures Apply(d, ws)[x] == d[x]
  {
    if ws != [] {
      ApplyUntouched(d, ws[..|ws| - 1], x);
    }
  }

  /** A block named by exactly one write ends with that write's data. */
  lemma {:induction false} ApplyAt(d: seq<Block>, ws: seq<Write>, i: nat)
    requires InRange(|d|, ws) && i < |ws|
    requires forall j :: 0 <= j < |ws| && j != i ==> ws[j].blockno != ws[i].blockno
    ensures Apply(d, ws)[ws[i].blockno] == ws[i].data
  {
    var last := |ws| - 1;
    if i < last {
      ApplyAt(d, ws[..last], i);
    }
  }

  /** The first `k` of the writes `ws` have been issued from disk `d0` and trace `t0`. */
  ghost predicate Issued(d0: seq<Block>, t0: seq<Write>, ws: seq<Write>, k: nat, d: seq<Block>, t: seq<Write>) {
    && k <= |ws| && InRange(|d0|, ws[..k])
    && d == Apply(d0, ws[..k]) && t == t0 + ws[..k]
  }

  lemma IssuedNone(d: seq<Block>, t: seq<Write>, ws: seq<Write>)
    ensures Issued(d, t, ws, 0, d, t)
  {
  }

  lemma IssuedNext(d0: seq<Block>, t0: seq<Write>, ws: seq<Write>, k: nat, d: seq<Block>, t: seq<Write>)
    requires Issued(d0, t0, ws, k, d, t) && k < |ws| && ws[k].blockno < |d|
    ensures |d| == |d0|
    ensures Issued(d0, t0, ws, k + 1, d[ws[k].blockno := ws[k].data], t + [ws[k]])
  {
    ApplySnoc(d0, ws[..k], ws[k]);
    assert ws[..k + 1] == ws[..k] + [ws[k]];
  }

  lemma IssuedAll(d0: seq<Block>, t0: seq<Write>, ws: seq<Write>, d: seq<Block>, t: seq<Write>)
    requires Issued(d0, t0, ws, |ws|, d, t)
    ensures InRange(|d0|, ws) && d == Apply(d0, ws) && t == t0 + ws
  {
    assert ws[..|ws|] == ws;
  }
}
