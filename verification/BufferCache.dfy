/** The buffer cache of kernel/bio.c: a doubly linked list in order of last
    release, reference counts, and contents that are never stale. */
module BufferCache {
  import opened DistinctElements

  type Data = seq<int>

  /** `struct buf`; `next` and `prev` are kept apart. */
  datatype Buf = Buf(dev: nat, blockno: nat, valid: bool, refcnt: int, data: Data)

  // ---- the list

  predicate LinkAt(next: seq<nat>, prev: seq<nat>, c: seq<nat>, p: nat)
    requires p + 1 < |c| && (forall k :: 0 <= k < |c| ==> c[k] < |next|) && |prev| == |next|
  {
    next[c[p]] == c[p + 1] && prev[c[p + 1]] == c[p]
  }

  /** The list as a walk from the head back to the head, which is entry `h`. */
  function Walk(h: nat, order: seq<nat>): (c: seq<nat>)
    ensures |c| == |order| + 2 && c[0] == h && c[|order| + 1] == h && forall k :: 0 <= k < |order| ==> c[k + 1] == order[k]
  {
    [h] + order + [h]
  }

  /** The links run through all buffers in the given order. */
  ghost predicate Ring(next: seq<nat>, prev: seq<nat>, order: seq<nat>) {
    && |next| == |prev| == |order| + 1 && Distinct(order)
    && (forall k :: 0 <= k < |order| ==> order[k] < |order|)
    && forall p :: 0 <= p <= |order| ==> LinkAt(next, prev, Walk(|order|, order), p)
  }

  /** The order once buffer order[p] has moved to the front. */
  function Front(order: seq<nat>, p: nat): seq<nat>
    requires p < |order|
  {
    [order[p]] + order[..p] + order[p + 1..]
  }

  /** A circular walk over distinct entries, each with its own links. */
  ghost predicate Cycle(next: seq<nat>, prev: seq<nat>, c: seq<nat>) {
    && |c| >= 2 && |prev| == |next| && c[|c| - 1] == c[0] && (forall k :: 0 <= k < |c| ==> c[k] < |next|)
    && (forall i, j :: 0 <= i < j < |c| - 1 ==> c[i] != c[j])
    && forall p :: 0 <= p < |c| - 1 ==> LinkAt(next, prev, c, p)
  }

  /** Unlinking the entry at `p`. */
  lemma Unlink(next: seq<nat>, prev: seq<nat>, c: seq<nat>, p: nat)
    requires Cycle(next, prev, c) && 1 <= p < |c| - 1
    ensures var b := c[p];
            && b < |next| && prev[b] < |next| && next[b] < |next| && next[b] != b && prev[b] != b
            && Cycle(next[prev[b] := next[b]], prev[next[b] := prev[b]], c[..p] + c[p + 1..])
  {
    var b := c[p];
    assert LinkAt(next, prev, c, p - 1) && LinkAt(next, prev, c, p);
    assert c[p - 1] != b && (p + 1 < |c| - 1 ==> c[p + 1] != b) && c[0] != b;
    var c' := c[..p] + c[p + 1..];
    var n', p' := next[prev[b] := next[b]], prev[next[b] := prev[b]];
    forall k | 0 <= k < |c'| ensures c'[k] == c[if k < p then k else k + 1] {
    }
    forall q | 0 <= q < |c'| - 1 ensures LinkAt(n', p', c', q) {
      if q < p - 1 {
        assert LinkAt(next, prev, c, q);
        assert c[q] != c[p - 1];
        assert c[q + 1] != c[p + 1] by {
          if p + 1 == |c| - 1 {
            assert c[q + 1] != c[0];
          }
        }
      } else if q >= p {
        assert LinkAt(next, prev, c, q + 1);
        assert c[q + 1] != c[p - 1];
        if q + 2 == |c| - 1 {
          assert c[p + 1] != c[0];
        }
      }
    }
  }

  /** Linking entry `b`, which is not in the walk, behind its start. */
  lemma Link(next: seq<nat>, prev: seq<nat>, c: seq<nat>, b: nat)
    requires Cycle(next, prev, c) && b < |next| && forall k :: 0 <= k < |c| ==> c[k] != b
    ensures var h := c[0];
            var n1, p1 := next[b := next[h]], prev[b := h];
            && h < |next| && n1[h] < |next|
            && Cycle(n1[h := b], p1[n1[h] := b], [h, b] + c[1..])
  {
    var h := c[0];
    assert LinkAt(next, prev, c, 0);
    var n1, p1 := next[b := next[h]], prev[b := h];
    var n2, p2 := n1[h := b], p1[n1[h] := b];
    var c' := [h, b] + c[1..];
    forall k | 2 <= k < |c'| ensures c'[k] == c[k - 1] {
    }
    forall q | 0 <= q < |c'| - 1 ensures LinkAt(n2, p2, c', q) {
      if q >= 2 {
        assert LinkAt(next, prev, c, q - 1);
        assert c[q - 1] != c[0];
        assert q < |c| - 1 ==> c[q] != c[1];
      }
    }
  }

  lemma RingCycle(next: seq<nat>, prev: seq<nat>, order: seq<nat>)
    requires Ring(next, prev, order)
    ensures Cycle(next, prev, Walk(|order|, order))
  {
    var c := Walk(|order|, order);
    forall i, j | 0 <= i < j < |c| - 1 ensures c[i] != c[j] {
      if i > 0 {
        assert order[i - 1] != order[j - 1];
      } else {
        assert order[j - 1] < |order|;
      }
    }
  }

  /** What `brelse` does to the list: the buffer goes to the front. */
  lemma MoveFront(next: seq<nat>, prev: seq<nat>, order: seq<nat>, p: nat)
    requires Ring(next, prev, order) && p < |order|
    ensures var b, h := order[p], |order|;
            && b < |next| && h < |next| && prev[b] < |next| && next[b] < |next| && next[b] != b && prev[b] != b
            && var n1, p1 := next[prev[b] := next[b]], prev[next[b] := prev[b]];
               var n2, p2 := n1[b := n1[h]], p1[b := h];
               n2[h] < |next| && Ring(n2[h := b], p2[n2[h] := b], Front(order, p))
  {
    hide Cycle, Ring, Walk, Front;
    var b, h := order[p], |order|;
    var c := Walk(h, order);
    RingCycle(next, prev, order);
    Unlink(next, prev, c, p + 1);
    var n1, p1 := next[prev[b] := next[b]], prev[next[b] := prev[b]];
    CutOut(next, prev, c, p + 1);
    Link(n1, p1, c[..p + 1] + c[p + 2..], b);
    FrontWalk(order, p);
    Sizes(next, prev, order);
    FrontBound(order, p);
    CycleRing(n1[b := n1[h]][h := b], p1[b := h][n1[b := n1[h]][h] := b], Front(order, p), order);
  }

  lemma CutOut(next: seq<nat>, prev: seq<nat>, c: seq<nat>, p: nat)
    requires Cycle(next, prev, c) && 1 <= p < |c| - 1
    ensures var c1 := c[..p] + c[p + 1..];
            c[p] < |next| && c1[0] == c[0] && forall k :: 0 <= k < |c1| ==> c1[k] != c[p]
  {
    var c1 := c[..p] + c[p + 1..];
    forall k | 0 <= k < |c1| ensures c1[k] != c[p] {
      assert c1[k] == c[if k < p then k else k + 1];
      assert k + 1 == |c| - 1 ==> c[0] != c[p];
    }
  }

  lemma FrontWalk(order: seq<nat>, p: nat)
    requires p < |order|
    ensures var c := Walk(|order|, order);
            [|order|, order[p]] + (c[..p + 1] + c[p + 2..])[1..] == Walk(|order|, Front(order, p))
  {
    hide Walk, Front;
    var h, b := |order|, order[p];
    var x, y := order[..p], order[p + 1..];
    WalkParts(order, p);
    Halves([h] + x, b, y + [h]);
    Tail(h, x, y + [h]);
    Regroup(h, b, x, y);
  }

  lemma WalkParts(order: seq<nat>, p: nat)
    requires p < |order|
    ensures Walk(|order|, order) == ([|order|] + order[..p]) + [order[p]] + (order[p + 1..] + [|order|])
    ensures Walk(|order|, Front(order, p)) == [|order|] + ([order[p]] + order[..p] + order[p + 1..]) + [|order|]
  {
    assert order == order[..p] + [order[p]] + order[p + 1..];
  }

  lemma Halves(u: seq<nat>, b: nat, v: seq<nat>)
    ensures (u + [b] + v)[..|u|] == u && (u + [b] + v)[|u| + 1..] == v
  {
  }

  lemma Tail(h: nat, x: seq<nat>, v: seq<nat>)
    ensures ([h] + x + v)[1..] == x + v
  {
  }

  lemma Regroup(h: nat, b: nat, x: seq<nat>, y: seq<nat>)
    ensures [h, b] + (x + (y + [h])) == [h] + ([b] + x + y) + [h]
  {
  }

  lemma Sizes(next: seq<nat>, prev: seq<nat>, order: seq<nat>)
    requires Ring(next, prev, order)
    ensures |next| == |prev| == |order| + 1 && forall k :: 0 <= k < |order| ==> order[k] < |order|
  {
  }

  lemma FrontBound(order: seq<nat>, p: nat)
    requires p < |order| && forall k :: 0 <= k < |order| ==> order[k] < |order|
    ensures |Front(order, p)| == |order| && forall k :: 0 <= k < |order| ==> Front(order, p)[k] < |order|
  {
  }

  lemma CycleRing(next: seq<nat>, prev: seq<nat>, order: seq<nat>, was: seq<nat>)
    requires |order| == |was| && |next| == |order| + 1 && Cycle(next, prev, Walk(|order|, order))
    requires forall k :: 0 <= k < |order| ==> order[k] < |order|
    ensures Ring(next, prev, order)
  {
    var c := Walk(|order|, order);
    forall i, j | 0 <= i < j < |order| ensures order[i] != order[j] {
      assert c[i + 1] != c[j + 1];
    }
  }

  // ---- the cache

  const NBUF: nat := 30

  /** A block of a device; device 0 is nobody's. */
  datatype Key = Key(dev: nat, blockno: nat)

  function KeyOf(b: Buf): Key {
    Key(b.dev, b.blockno)
  }

  /** Buffers ever released come in the order of their last release. */
  ghost predicate Sorted(order: seq<nat>, stamp: seq<nat>, clock: nat) {
    && |stamp| == |order| && (forall k :: 0 <= k < |order| ==> order[k] < |order|)
    && (forall i, j :: 0 <= i < j < |order| ==> stamp[order[i]] > stamp[order[j]])
    && (forall i :: 0 <= i < |stamp| ==> stamp[i] < clock)
  }

  /** At most one buffer caches a given block. */
  ghost predicate Unique(buf: seq<Buf>) {
    forall i, j :: 0 <= i < |buf| && 0 <= j < |buf| && i != j && buf[i].dev != 0 ==> KeyOf(buf[i]) != KeyOf(buf[j])
  }

  /** References are threads from `bget` to the end of `brelse`, counted in `users`, and pins. */
  predicate CountOk(b: Buf, users: nat, pins: nat) {
    b.refcnt == users + pins
  }

  /** A buffer whose contents differ from the disk is locked or pinned. */
  predicate DirtyKept(b: Buf, disk: map<Key, Data>, locked: bool, pins: nat) {
    b.valid && b.dev != 0 ==> KeyOf(b) in disk && (b.data != disk[KeyOf(b)] ==> locked || pins > 0)
  }

  /** The newest contents of a block: those of its buffer, if it has a valid one, or those on disk. */
  ghost predicate NewestOk(buf: seq<Buf>, disk: map<Key, Data>, newest: map<Key, Data>) {
    && disk.Keys == newest.Keys && (forall k :: k in newest ==> k.dev != 0)
    && (forall i :: 0 <= i < |buf| && buf[i].valid && buf[i].dev != 0 && KeyOf(buf[i]) in newest ==> newest[KeyOf(buf[i])] == buf[i].data)
    && (forall k :: k in newest && (forall i :: 0 <= i < |buf| && buf[i].valid ==> KeyOf(buf[i]) != k) ==> newest[k] == disk[k])
  }

  class Cache {
    var buf: seq<Buf>
    var next: seq<nat>
    var prev: seq<nat>
    var disk: map<Key, Data>
    var locked: seq<bool>           // the sleep-locks of the buffers
    ghost var order: seq<nat>
    ghost var stamp: seq<nat>
    ghost var clock: nat
    ghost var users: seq<nat>       // per buffer, threads between bget and the end of brelse
    ghost var leaving: seq<nat>     // those of them that have released the sleep-lock
    ghost var pins: seq<nat>
    ghost var newest: map<Key, Data>

    ghost predicate Valid()
      reads this
    {
      && |buf| == |locked| == |users| == |leaving| == |pins| == |order| == NBUF
      && Ring(next, prev, order) && Sorted(order, stamp, clock) && Unique(buf) && NewestOk(buf, disk, newest)
      && (forall i :: 0 <= i < NBUF ==> CountOk(buf[i], users[i], pins[i]) && DirtyKept(buf[i], disk, locked[i], pins[i]))
      && (forall i :: 0 <= i < NBUF ==> users[i] >= leaving[i] + if locked[i] then 1 else 0)
    }

    /** `binit`: every buffer goes behind the head in turn. */
    constructor (disk0: map<Key, Data>)
      requires forall k :: k in disk0 ==> k.dev != 0
      ensures Valid() && newest == disk0 == disk && forall i :: 0 <= i < NBUF ==> buf[i].refcnt == 0 && !buf[i].valid
    {
      buf := seq(NBUF, k => Buf(0, 0, false, 0, []));
      disk, newest := disk0, disk0;
      locked, users, leaving, pins := seq(NBUF, k => false), seq(NBUF, k => 0), seq(NBUF, k => 0), seq(NBUF, k => 0);
      var n, p;
      ghost var o;
      n, p, o := Linked();
      next, prev := n, p;
      order, stamp, clock := o, seq(NBUF, k => k), NBUF;
      new;
      assert Unique(buf);
    }

    /** The loop of `binit`. */
    static method Linked() returns (n: seq<nat>, p: seq<nat>, ghost o: seq<nat>)
      ensures Ring(n, p, o) && |o| == NBUF && forall k :: 0 <= k < NBUF ==> o[k] == NBUF - 1 - k
    {
      hide Cycle, Ring, Walk;
      n, p, o := seq(NBUF + 1, k => NBUF), seq(NBUF + 1, k => NBUF), [];
      HeadAlone(n, p);
      var b := 0;
      while b < NBUF
        invariant 0 <= b <= NBUF && |n| == |p| == NBUF + 1 && |o| == b
        invariant forall k :: 0 <= k < b ==> o[k] == b - 1 - k
        invariant Cycle(n, p, Walk(NBUF, o))
      {
        NewInWalk(o, b);
        Link(n, p, Walk(NBUF, o), b);
        var n1, p1 := n[b := n[NBUF]], p[b := NBUF];
        p := p1[n1[NBUF] := b];
        n := n1[NBUF := b];
        o := [b] + o;
        b := b + 1;
      }
      CycleRing(n, p, o, o);
    }

    static lemma HeadAlone(n: seq<nat>, p: seq<nat>)
      requires |n| == |p| == NBUF + 1 && n[NBUF] == NBUF == p[NBUF]
      ensures Cycle(n, p, Walk(NBUF, []))
    {
      assert Walk(NBUF, []) == [NBUF, NBUF];
    }

    static lemma NewInWalk(o: seq<nat>, b: nat)
      requires |o| == b < NBUF && forall k :: 0 <= k < b ==> o[k] == b - 1 - k
      ensures (forall k :: 0 <= k < |Walk(NBUF, o)| ==> Walk(NBUF, o)[k] != b) && Walk(NBUF, o)[0] == NBUF && |Walk(NBUF, o)| >= 1
      ensures [NBUF, b] + Walk(NBUF, o)[1..] == Walk(NBUF, [b] + o)
    {
      forall k | 0 <= k < |Walk(NBUF, o)| ensures Walk(NBUF, o)[k] != b {
        assert 0 < k < |o| + 1 ==> Walk(NBUF, o)[k - 1 + 1] == o[k - 1];
      }
      assert [NBUF, b] + (o + [NBUF]) == [NBUF] + ([b] + o) + [NBUF];
    }

    /** The first half of `bget`, under bcache.lock: a reference to the buffer of
        the block, the least recently released unused one if none caches it.
        NBUF stands for the panic. */
    method Bget(dev: nat, blockno: nat) returns (i: nat)
      requires Valid() && dev != 0 && Key(dev, blockno) in disk
      modifies this`buf, this`users
      ensures Valid()
      ensures i == NBUF ==> buf == old(buf) && users == old(users) && forall j :: 0 <= j < NBUF ==> KeyOf(buf[j]) != Key(dev, blockno) && buf[j].refcnt != 0
      ensures i != NBUF ==> i < NBUF && KeyOf(buf[i]) == Key(dev, blockno) && users == old(users)[i := old(users)[i] + 1] && buf == old(buf)[i := buf[i]]
      ensures i < NBUF && KeyOf(old(buf)[i]) == Key(dev, blockno) ==> buf[i] == old(buf)[i].(refcnt := old(buf)[i].refcnt + 1)
      ensures i < NBUF && KeyOf(old(buf)[i]) != Key(dev, blockno) ==>
                && (forall j :: 0 <= j < NBUF ==> KeyOf(old(buf)[j]) != Key(dev, blockno))
                && old(buf)[i].refcnt == 0 && buf[i].refcnt == 1 && !buf[i].valid
                && forall j :: 0 <= j < NBUF && old(buf)[j].refcnt == 0 ==> stamp[i] <= stamp[j]
    {
      hide Ring, Sorted, NewestOk, Unique;
      i := Find(dev, blockno);
      if i != NBUF {
        Referenced(buf, disk, newest, i, buf[i].refcnt + 1);
        buf := buf[i := buf[i].(refcnt := buf[i].refcnt + 1)];
        users := users[i := users[i] + 1];
        return;
      }
      i := FindUnused();
      ghost var b0 := buf;
      if i != NBUF {
        Recycles(buf, disk, newest, locked, users, leaving, pins, i, Buf(dev, blockno, false, 1, buf[i].data));
        buf := buf[i := buf[i].(dev := dev, blockno := blockno)];
        buf := buf[i := buf[i].(valid := false)];
        buf := buf[i := buf[i].(refcnt := 1)];
        users := users[i := 1];
        assert buf == b0[i := Buf(dev, blockno, false, 1, b0[i].data)];
      }
    }

    /** The forward loop of `bget`. */
    method Find(dev: nat, blockno: nat) returns (b: nat)
      requires Valid()
      ensures b < NBUF ==> KeyOf(buf[b]) == Key(dev, blockno)
      ensures b == NBUF ==> forall j :: 0 <= j < NBUF ==> KeyOf(buf[j]) != Key(dev, blockno)
      ensures b <= NBUF
    {
      hide Ring, Sorted, NewestOk, Unique, Walk, DirtyKept, CountOk;
      RingEnds(next, prev, order);
      ghost var p := 0;
      b := next[NBUF];
      while b != NBUF
        invariant 0 <= p <= NBUF && b == Walk(NBUF, order)[p + 1]
        invariant forall j :: 0 <= j < p ==> order[j] < NBUF && KeyOf(buf[order[j]]) != Key(dev, blockno)
        decreases NBUF - p
      {
        OnWay(next, prev, order, p);
        if buf[b].dev == dev && buf[b].blockno == blockno {
          return;
        }
        b := next[b];
        p := p + 1;
      }
      WholeWay(next, prev, order, p);
      NotCached(order, buf, Key(dev, blockno));
    }

    /** The backward loop of `bget`. */
    method FindUnused() returns (b: nat)
      requires Valid()
      ensures b < NBUF ==> buf[b].refcnt == 0 && forall j :: 0 <= j < NBUF && buf[j].refcnt == 0 ==> stamp[b] <= stamp[j]
      ensures b == NBUF ==> forall j :: 0 <= j < NBUF ==> buf[j].refcnt != 0
      ensures b <= NBUF
    {
      hide Ring, NewestOk, Unique;
      RingEnds(next, prev, order);
      ghost var p := NBUF;
      b := prev[NBUF];
      while b != NBUF
        invariant 0 <= p <= NBUF && b == Walk(NBUF, order)[p]
        invariant forall j :: p <= j < NBUF ==> order[j] < NBUF && buf[order[j]].refcnt != 0
        decreases p
      {
        BackWay(next, prev, order, p);
        if buf[b].refcnt == 0 {
          Everyone(next, prev, order);
          Oldest(order, stamp, clock, buf, p - 1);
          return;
        }
        b := prev[b];
        p := p - 1;
      }
      WholeBack(next, prev, order, p);
      NoneFree(order, buf);
    }

    /** Reference counts do not matter to what is cached. */
    static lemma Referenced(buf: seq<Buf>, disk: map<Key, Data>, newest: map<Key, Data>, i: nat, n: int)
      requires i < |buf| && Unique(buf) && NewestOk(buf, disk, newest)
      ensures Unique(buf[i := buf[i].(refcnt := n)]) && NewestOk(buf[i := buf[i].(refcnt := n)], disk, newest)
    {
      var buf' := buf[i := buf[i].(refcnt := n)];
      forall k | k in newest && (forall j :: 0 <= j < |buf'| && buf'[j].valid ==> KeyOf(buf'[j]) != k) ensures newest[k] == disk[k] {
        forall j | 0 <= j < |buf| && buf[j].valid ensures KeyOf(buf[j]) != k {
          assert KeyOf(buf'[j]) == KeyOf(buf[j]) && buf'[j].valid;
        }
      }
    }

    static lemma RingEnds(next: seq<nat>, prev: seq<nat>, order: seq<nat>)
      requires Ring(next, prev, order)
      ensures |next| == |prev| == |order| + 1
      ensures next[|order|] == Walk(|order|, order)[1] && prev[|order|] == Walk(|order|, order)[|order|]
    {
      assert LinkAt(next, prev, Walk(|order|, order), 0) && LinkAt(next, prev, Walk(|order|, order), |order|);
    }

    static lemma OnWay(next: seq<nat>, prev: seq<nat>, order: seq<nat>, p: nat)
      requires Ring(next, prev, order) && p <= |order| && Walk(|order|, order)[p + 1] != |order|
      ensures p < |order| && Walk(|order|, order)[p + 1] == order[p] < |order| && |next| == |order| + 1 && next[order[p]] == Walk(|order|, order)[p + 2]
    {
      assert LinkAt(next, prev, Walk(|order|, order), p + 1);
    }

    static lemma BackWay(next: seq<nat>, prev: seq<nat>, order: seq<nat>, p: nat)
      requires Ring(next, prev, order) && p <= |order| && Walk(|order|, order)[p] != |order|
      ensures 0 < p && Walk(|order|, order)[p] == order[p - 1] < |order| && |prev| == |order| + 1 && prev[order[p - 1]] == Walk(|order|, order)[p - 1]
    {
      assert LinkAt(next, prev, Walk(|order|, order), p - 1);
    }

    static lemma WholeWay(next: seq<nat>, prev: seq<nat>, order: seq<nat>, p: nat)
      requires Ring(next, prev, order) && p <= |order| && Walk(|order|, order)[p + 1] == |order|
      ensures p == |order| && forall i: nat :: i < |order| ==> i in order
    {
      Everyone(next, prev, order);
      if p < |order| {
        AtWalk(order, p);
      }
    }

    static lemma AtWalk(order: seq<nat>, p: nat)
      requires p < |order|
      ensures Walk(|order|, order)[p + 1] == order[p]
    {
    }

    static lemma WholeBack(next: seq<nat>, prev: seq<nat>, order: seq<nat>, p: nat)
      requires Ring(next, prev, order) && p <= |order| && Walk(|order|, order)[p] == |order|
      ensures p == 0 && forall i: nat :: i < |order| ==> i in order
    {
      Everyone(next, prev, order);
    }

    static lemma Everyone(next: seq<nat>, prev: seq<nat>, order: seq<nat>)
      requires Ring(next, prev, order)
      ensures forall i: nat :: i < |order| ==> i in order
    {
      forall i: nat | i < |order| ensures i in order {
        AllIn(order, |order|, i);
      }
    }

    /** Distinct numbers below `n`, `n` of them, are all of them. */
    static lemma {:induction false} AllIn(s: seq<nat>, n: nat, i: nat)
      requires Distinct(s) && |s| == n && (forall k :: 0 <= k < |s| ==> s[k] < n) && i < n
      ensures i in s
    {
      if i !in s {
        var t := seq(n, k requires 0 <= k < n => if s[k] == n - 1 then i else s[k]);
        FewBelow(t, n - 1);
      }
    }

    static lemma NotCached(order: seq<nat>, buf: seq<Buf>, key: Key)
      requires |order| == |buf| && (forall i: nat :: i < |order| ==> i in order) && forall j :: 0 <= j < |order| ==> order[j] < |buf| && KeyOf(buf[order[j]]) != key
      ensures forall i :: 0 <= i < |buf| ==> KeyOf(buf[i]) != key
    {
      forall i: nat | i < |buf| ensures KeyOf(buf[i]) != key {
        assert i in order;
      }
    }

    static lemma NoneFree(order: seq<nat>, buf: seq<Buf>)
      requires |order| == |buf| && (forall i: nat :: i < |order| ==> i in order) && forall j :: 0 <= j < |order| ==> order[j] < |buf| && buf[order[j]].refcnt != 0
      ensures forall i :: 0 <= i < |buf| ==> buf[i].refcnt != 0
    {
      forall i: nat | i < |buf| ensures buf[i].refcnt != 0 {
        assert i in order;
      }
    }

    /** The last unused buffer of the list is the one released longest ago. */
    static lemma Oldest(order: seq<nat>, stamp: seq<nat>, clock: nat, buf: seq<Buf>, p: nat)
      requires Sorted(order, stamp, clock) && |buf| == |order| && p < |order| && (forall i: nat :: i < |order| ==> i in order)
      requires forall j :: p < j < |order| ==> buf[order[j]].refcnt != 0
      ensures forall j :: 0 <= j < |buf| && buf[j].refcnt == 0 ==> stamp[order[p]] <= stamp[j]
    {
      forall j | 0 <= j < |buf| && buf[j].refcnt == 0 ensures stamp[order[p]] <= stamp[j] {
        assert j in order;
        var k :| 0 <= k < |order| && order[k] == j;
      }
    }

    /** An unused buffer is clean, so recycling it loses nothing. */
    static lemma Recycles(buf: seq<Buf>, disk: map<Key, Data>, newest: map<Key, Data>, locked: seq<bool>, users: seq<nat>, leaving: seq<nat>, pins: seq<nat>, b: nat, nb: Buf)
      requires |buf| == |locked| == |users| == |leaving| == |pins| && b < |buf| && users[b] >= leaving[b] + (if locked[b] then 1 else 0) && Unique(buf) && NewestOk(buf, disk, newest)
      requires forall i :: 0 <= i < |buf| ==> CountOk(buf[i], users[i], pins[i]) && DirtyKept(buf[i], disk, locked[i], pins[i])
      requires buf[b].refcnt == 0 && !nb.valid && nb.dev != 0 && KeyOf(nb) in disk && forall i :: 0 <= i < |buf| ==> KeyOf(buf[i]) != KeyOf(nb)
      ensures Unique(buf[b := nb]) && NewestOk(buf[b := nb], disk, newest)
      ensures users[b] == 0 && pins[b] == 0
    {
      var buf' := buf[b := nb];
      assert CountOk(buf[b], users[b], pins[b]) && DirtyKept(buf[b], disk, locked[b], pins[b]);
      forall k | k in newest && (forall i :: 0 <= i < |buf'| && buf'[i].valid ==> KeyOf(buf'[i]) != k) ensures newest[k] == disk[k] {
        if buf[b].valid && KeyOf(buf[b]) == k {
          assert buf[b].dev != 0 ==> newest[k] == buf[b].data;
        } else {
          forall i | 0 <= i < |buf| && buf[i].valid ensures KeyOf(buf[i]) != k {
            assert i != b ==> buf'[i] == buf[i];
          }
        }
      }
    }

    /** The second half of `bget`: the sleep-lock, once it is free. */
    method Acquiresleep(i: nat)
      requires Valid() && i < NBUF && users[i] > leaving[i] && !locked[i]
      modifies this`locked
      ensures Valid() && locked == old(locked)[i := true]
    {
      locked := locked[i := true];
    }

    /** The rest of `bread`: afterwards the buffer holds the newest contents of its block. */
    method Fill(i: nat)
      requires Valid() && i < NBUF && locked[i] && buf[i].dev != 0 && KeyOf(buf[i]) in disk
      modifies this`buf
      ensures Valid() && buf[i].valid && KeyOf(buf[i]) in newest && buf[i].data == newest[KeyOf(buf[i])]
      ensures buf == old(buf)[i := buf[i]] && KeyOf(buf[i]) == KeyOf(old(buf)[i]) && buf[i].refcnt == old(buf)[i].refcnt
      ensures old(buf)[i].valid ==> buf == old(buf)
    {
      hide Ring, Sorted;
      if !buf[i].valid {
        ReadsNewest(buf, disk, newest, i);
        buf := buf[i := buf[i].(data := disk[KeyOf(buf[i])], valid := true)];
      }
    }

    /** What is read from the disk is the newest version, as no other buffer has the block. */
    static lemma ReadsNewest(buf: seq<Buf>, disk: map<Key, Data>, newest: map<Key, Data>, i: nat)
      requires i < |buf| && Unique(buf) && NewestOk(buf, disk, newest) && !buf[i].valid && buf[i].dev != 0 && KeyOf(buf[i]) in disk
      ensures newest[KeyOf(buf[i])] == disk[KeyOf(buf[i])]
      ensures var buf' := buf[i := buf[i].(data := disk[KeyOf(buf[i])], valid := true)];
              Unique(buf') && NewestOk(buf', disk, newest)
    {
      var key := KeyOf(buf[i]);
      forall j | 0 <= j < |buf| && buf[j].valid ensures KeyOf(buf[j]) != key {
        assert j != i ==> KeyOf(buf[i]) != KeyOf(buf[j]);
      }
      var buf' := buf[i := buf[i].(data := disk[key], valid := true)];
      forall k | k in newest && (forall j :: 0 <= j < |buf'| && buf'[j].valid ==> KeyOf(buf'[j]) != k) ensures newest[k] == disk[k] {
        forall j | 0 <= j < |buf| && buf[j].valid ensures KeyOf(buf[j]) != k {
          assert buf'[j].valid && KeyOf(buf'[j]) == KeyOf(buf[j]);
        }
      }
    }

    /** The holder of the lock changes the contents. */
    method Modify(i: nat, data: Data)
      requires Valid() && i < NBUF && locked[i] && buf[i].valid && buf[i].dev != 0 && KeyOf(buf[i]) in disk
      modifies this`buf, this`newest
      ensures Valid() && buf == old(buf)[i := old(buf)[i].(data := data)] && newest == old(newest)[KeyOf(buf[i]) := data]
    {
      hide Ring, Sorted;
      Changed(buf, disk, newest, i, data);
      buf := buf[i := buf[i].(data := data)];
      newest := newest[KeyOf(buf[i]) := data];
    }

    static lemma Changed(buf: seq<Buf>, disk: map<Key, Data>, newest: map<Key, Data>, i: nat, data: Data)
      requires i < |buf| && Unique(buf) && NewestOk(buf, disk, newest) && buf[i].valid && buf[i].dev != 0 && KeyOf(buf[i]) in disk
      ensures var buf' := buf[i := buf[i].(data := data)];
              Unique(buf') && NewestOk(buf', disk, newest[KeyOf(buf[i]) := data])
    {
      var key := KeyOf(buf[i]);
      var buf', newest' := buf[i := buf[i].(data := data)], newest[key := data];
      forall j | 0 <= j < |buf'| && buf'[j].valid && buf'[j].dev != 0 && KeyOf(buf'[j]) in newest' ensures newest'[KeyOf(buf'[j])] == buf'[j].data {
        assert j != i ==> KeyOf(buf[i]) != KeyOf(buf[j]);
      }
      forall k | k in newest' && (forall j :: 0 <= j < |buf'| && buf'[j].valid ==> KeyOf(buf'[j]) != k) ensures newest'[k] == disk[k] {
        assert buf'[i].valid && KeyOf(buf'[i]) == key;
        forall j | 0 <= j < |buf| && buf[j].valid ensures KeyOf(buf[j]) != k {
          assert buf'[j].valid && KeyOf(buf'[j]) == KeyOf(buf[j]);
        }
      }
    }

    /** `bwrite`. */
    method Bwrite(i: nat)
      requires Valid() && i < NBUF && locked[i] && buf[i].valid && buf[i].dev != 0 && KeyOf(buf[i]) in disk
      modifies this`disk
      ensures Valid() && disk == old(disk)[KeyOf(buf[i]) := buf[i].data]
    {
      hide Ring, Sorted;
      Written(buf, disk, newest, locked, pins, i);
      disk := disk[KeyOf(buf[i]) := buf[i].data];
    }

    static lemma Written(buf: seq<Buf>, disk: map<Key, Data>, newest: map<Key, Data>, locked: seq<bool>, pins: seq<nat>, i: nat)
      requires |buf| == |locked| == |pins| && i < |buf| && Unique(buf) && NewestOk(buf, disk, newest) && buf[i].valid && buf[i].dev != 0 && KeyOf(buf[i]) in disk
      requires forall j :: 0 <= j < |buf| ==> DirtyKept(buf[j], disk, locked[j], pins[j])
      ensures var disk' := disk[KeyOf(buf[i]) := buf[i].data];
              NewestOk(buf, disk', newest) && forall j :: 0 <= j < |buf| ==> DirtyKept(buf[j], disk', locked[j], pins[j])
    {
      var disk' := disk[KeyOf(buf[i]) := buf[i].data];
      forall j | 0 <= j < |buf| ensures DirtyKept(buf[j], disk', locked[j], pins[j]) {
        assert DirtyKept(buf[j], disk, locked[j], pins[j]);
        assert j != i ==> KeyOf(buf[i]) != KeyOf(buf[j]);
      }
    }

    /** `bpin`. */
    method Bpin(i: nat)
      requires Valid() && i < NBUF
      modifies this`buf, this`pins
      ensures Valid() && buf == old(buf)[i := old(buf)[i].(refcnt := old(buf)[i].refcnt + 1)] && pins == old(pins)[i := old(pins)[i] + 1]
    {
      hide Ring, Sorted, NewestOk, Unique;
      Referenced(buf, disk, newest, i, buf[i].refcnt + 1);
      buf := buf[i := buf[i].(refcnt := buf[i].refcnt + 1)];
      pins := pins[i := pins[i] + 1];
    }

    /** The buffer has nothing that the disk does not have, or something else keeps it. */
    ghost predicate MayLetGo(i: nat)
      reads this
      requires i < |buf|
    {
      buf[i].valid && buf[i].dev != 0 && KeyOf(buf[i]) in disk ==> buf[i].data == disk[KeyOf(buf[i])]
    }

    /** `bunpin`. */
    method Bunpin(i: nat)
      requires Valid() && i < NBUF && pins[i] > 0 && (MayLetGo(i) || locked[i] || pins[i] > 1)
      modifies this`buf, this`pins
      ensures Valid() && buf == old(buf)[i := old(buf)[i].(refcnt := old(buf)[i].refcnt - 1)] && pins == old(pins)[i := old(pins)[i] - 1]
    {
      hide Ring, Sorted, NewestOk, Unique;
      Referenced(buf, disk, newest, i, buf[i].refcnt - 1);
      buf := buf[i := buf[i].(refcnt := buf[i].refcnt - 1)];
      pins := pins[i := pins[i] - 1];
    }

    /** `brelse` up to the release of the sleep-lock, under the rule that changes are
        logged (which pins the buffer) or written first. */
    method Releasesleep(i: nat)
      requires Valid() && i < NBUF && locked[i] && (MayLetGo(i) || pins[i] > 0)
      modifies this`locked, this`leaving
      ensures Valid() && locked == old(locked)[i := false] && leaving == old(leaving)[i := old(leaving)[i] + 1]
    {
      hide Ring, Sorted, NewestOk, Unique;
      locked := locked[i := false];
      leaving := leaving[i := leaving[i] + 1];
    }

    /** The rest of `brelse`, under bcache.lock; others may have used the buffer in
        between. A buffer nobody refers to any more goes to the front. */
    method Brelse(i: nat)
      requires Valid() && i < NBUF && leaving[i] > 0
      modifies this`buf, this`users, this`leaving, this`next, this`prev, this`order, this`stamp, this`clock
      ensures Valid() && users == old(users)[i := old(users)[i] - 1] && leaving == old(leaving)[i := old(leaving)[i] - 1]
      ensures buf == old(buf)[i := old(buf)[i].(refcnt := old(buf)[i].refcnt - 1)]
      ensures buf[i].refcnt != 0 ==> order == old(order) && stamp == old(stamp)
      ensures buf[i].refcnt == 0 ==>
                && MayLetGo(i) && !locked[i]
                && |order| == NBUF && order[0] == i && (exists p :: 0 <= p < |old(order)| && old(order)[p] == i && order == Front(old(order), p))
                && (forall j :: 0 <= j < NBUF && j != i ==> stamp[j] == old(stamp)[j] && stamp[j] < stamp[i])
    {
      hide Ring, Sorted, NewestOk, Unique, Front;
      Referenced(buf, disk, newest, i, buf[i].refcnt - 1);
      buf := buf[i := buf[i].(refcnt := buf[i].refcnt - 1)];
      users := users[i := users[i] - 1];
      leaving := leaving[i := leaving[i] - 1];
      if buf[i].refcnt == 0 {
        ToFront(i);
      }
    }

    /** The list part of `brelse`. */
    method ToFront(i: nat)
      requires Ring(next, prev, order) && Sorted(order, stamp, clock) && |order| == NBUF && i < NBUF
      modifies this`next, this`prev, this`order, this`stamp, this`clock
      ensures Ring(next, prev, order) && Sorted(order, stamp, clock) && |order| == NBUF && order[0] == i
      ensures exists p :: 0 <= p < |old(order)| && old(order)[p] == i && order == Front(old(order), p)
      ensures |stamp| == |old(stamp)| == NBUF && forall j :: 0 <= j < NBUF && j != i ==> stamp[j] == old(stamp)[j] && stamp[j] < stamp[i]
    {
      hide Ring, Front, Walk, Cycle;
      Everyone(next, prev, order);
      assert i in order;
      ghost var p :| 0 <= p < |order| && order[p] == i;
      Sizes(next, prev, order);
      MoveFront(next, prev, order, p);
      SortedFront(order, stamp, clock, p);
      prev := prev[next[i] := prev[i]];
      next := next[prev[i] := next[i]];
      next := next[i := next[NBUF]];
      prev := prev[i := NBUF];
      prev := prev[next[NBUF] := i];
      next := next[NBUF := i];
      order := Front(order, p);
      stamp := stamp[i := clock];
      clock := clock + 1;
    }

    static lemma SortedFront(order: seq<nat>, stamp: seq<nat>, clock: nat, p: nat)
      requires Sorted(order, stamp, clock) && p < |order|
      ensures Sorted(Front(order, p), stamp[order[p] := clock], clock + 1) && Front(order, p)[0] == order[p] && |Front(order, p)| == |order|
    {
      var f := Front(order, p);
      forall k | 0 <= k < |f| ensures f[k] == (if k == 0 then order[p] else if k <= p then order[k - 1] else order[k]) {
      }
    }
  }
}
