/** The circular, address-ordered free list threaded through the headers. */
module FreeList {
  import opened Tiles

  datatype Header = Header(ptr: int, size: int)

  /** `hdr` is memory as the allocator sees it; `ring` lists the free list in
      address order, `base` first; `tiles` is what the headers stand for.
      Addresses count header-sized units, and `base` is the static list head. */
  datatype Heap = Heap(base: int, hdr: map<int, Header>, ring: seq<int>, tiles: Tiles)

  ghost predicate Increasing(s: seq<int>) {
    forall i, j :: 0 <= i < j < |s| ==> s[i] < s[j]
  }

  /** Exactly the free blocks are listed, in address order. */
  ghost predicate Listed(h: Heap) {
    && |h.ring| > 0 && h.ring[0] == h.base
    && Increasing(h.ring)
    && (forall i :: 0 < i < |h.ring| ==> h.ring[i] in h.tiles.free)
    && (forall b :: b in h.tiles.free ==> b in h.ring && b > h.base)
    && (forall b :: b in h.tiles.live ==> b > h.base)
  }

  function SizeOf(h: Heap, b: int): int {
    if b in h.tiles.free then h.tiles.free[b] else 0
  }

  function Next(ring: seq<int>, i: nat): int
    requires i < |ring|
  {
    if i + 1 < |ring| then ring[i + 1] else ring[0]
  }

  /** The header at position `i` has its size and points to the next position, circularly. */
  ghost predicate LinkAt(h: Heap, i: nat)
    requires i < |h.ring|
  {
    h.ring[i] in h.hdr && h.hdr[h.ring[i]] == Header(Next(h.ring, i), SizeOf(h, h.ring[i]))
  }

  ghost predicate Linked(h: Heap) {
    && (forall i :: 0 <= i < |h.ring| ==> LinkAt(h, i))
    && (forall b :: b in h.tiles.live ==> b in h.hdr && h.hdr[b].size == h.tiles.live[b])
  }

  ghost predicate Wf(h: Heap) {
    Tiled(h.tiles) && Listed(h) && Linked(h)
  }

  /** Listed blocks `i` and `i + 1` touch. */
  ghost predicate Touch(h: Heap, i: nat)
    requires i + 1 < |h.ring|
  {
    h.ring[i] + SizeOf(h, h.ring[i]) == h.ring[i + 1]
  }

  ghost predicate Coalesced(h: Heap) {
    forall i :: 0 < i < |h.ring| - 1 ==> !Touch(h, i)
  }

  lemma LiveNotListed(h: Heap, b: int)
    requires Wf(h) && b in h.tiles.live
    ensures b !in h.ring && b !in h.tiles.free && b > h.base
  {
    assert LiveOk(h.tiles, b);
    assert b in h.tiles.free ==> FreeOk(h.tiles, b);
    BlocksDisjoint(h.tiles, b, b, b);
  }

  /** The gap of the ring into which address `b` falls. */
  ghost predicate IsGap(ring: seq<int>, b: int, t: nat) {
    t < |ring| && ring[t] < b && (t + 1 < |ring| ==> b < ring[t + 1])
  }

  lemma {:induction false} GapExists(h: Heap, b: int, n: nat) returns (t: nat)
    requires Wf(h) && b in h.tiles.live && 0 < n <= |h.ring|
    requires n < |h.ring| ==> b < h.ring[n]
    ensures IsGap(h.ring, b, t)
  {
    LiveNotListed(h, b);
    if h.ring[n - 1] < b {
      t := n - 1;
    } else {
      t := GapExists(h, b, n - 1);
    }
  }

  function InsertAt(s: seq<int>, t: nat, b: int): (r: seq<int>)
    requires t < |s|
    ensures |r| == |s| + 1
    ensures forall i {:trigger r[i]} :: 0 <= i < |r| ==> r[i] == if i <= t then s[i] else if i == t + 1 then b else s[i - 1]
  {
    s[..t + 1] + [b] + s[t + 1..]
  }

  function RemoveAt(s: seq<int>, k: nat): (r: seq<int>)
    requires k < |s|
    ensures |r| == |s| - 1
    ensures forall i {:trigger r[i]} :: 0 <= i < |r| ==> r[i] == if i < k then s[i] else s[i + 1]
  {
    s[..k] + s[k + 1..]
  }

  lemma InsertMembers(s: seq<int>, t: nat, b: int, x: int)
    requires Increasing(s) && IsGap(s, b, t)
    ensures Increasing(InsertAt(s, t, b))
    ensures x in InsertAt(s, t, b) <==> x in s || x == b
  {
    hide InsertAt;
    var r := InsertAt(s, t, b);
    if x == b {
      assert r[t + 1] == b;
    } else if x in s {
      var i :| 0 <= i < |s| && s[i] == x;
      assert r[if i <= t then i else i + 1] == x;
    }
  }

  lemma RemoveMembers(s: seq<int>, k: nat, x: int)
    requires Increasing(s) && k < |s|
    ensures x in RemoveAt(s, k) <==> x in s && x != s[k]
    ensures Increasing(RemoveAt(s, k))
  {
    hide RemoveAt;
    var r := RemoveAt(s, k);
    if x in s && x != s[k] {
      var i :| 0 <= i < |s| && s[i] == x;
      assert r[if i < k then i else i - 1] == x;
    }
  }

  // ---- the list operations

  /** Links the live block `b` in after position `t`. */
  ghost function Insert(h: Heap, t: nat, b: int): Heap
    requires t < |h.ring| && h.ring[t] in h.hdr && b in h.tiles.live
  {
    var p := h.ring[t];
    Heap(h.base,
         h.hdr[b := Header(h.hdr[p].ptr, h.tiles.live[b])][p := Header(b, h.hdr[p].size)],
         InsertAt(h.ring, t, b), Release(h.tiles, b))
  }

  /** Merges the block after position `k` into the one at `k`. */
  ghost function Merge(h: Heap, k: nat): Heap
    requires k + 1 < |h.ring| && h.ring[k + 1] in h.hdr
    requires h.ring[k] in h.tiles.free && h.ring[k + 1] in h.tiles.free
  {
    var p, q := h.ring[k], h.ring[k + 1];
    Heap(h.base, h.hdr[p := Header(h.hdr[q].ptr, h.tiles.free[p] + h.tiles.free[q])],
         RemoveAt(h.ring, k + 1), Join(h.tiles, p, q))
  }

  /** Hands out the last `n` units of the block at `k`, unlinking it when nothing is left. */
  ghost function Take(h: Heap, k: nat, n: int): Heap
    requires 0 < k < |h.ring| && h.ring[k - 1] in h.hdr && h.ring[k] in h.hdr && h.ring[k] in h.tiles.free
  {
    var p, prev := h.ring[k], h.ring[k - 1];
    var rest := h.tiles.free[p] - n;
    if rest == 0 then
      Heap(h.base, h.hdr[prev := Header(h.hdr[p].ptr, h.hdr[prev].size)], RemoveAt(h.ring, k), Hand(h.tiles, p, n))
    else
      var old_q := if p + rest in h.hdr then h.hdr[p + rest].ptr else 0;
      Heap(h.base, h.hdr[p := Header(h.hdr[p].ptr, rest)][p + rest := Header(old_q, n)], h.ring, Hand(h.tiles, p, n))
  }

  lemma LinksAt(h: Heap, i: nat)
    requires Linked(h) && i < |h.ring|
    ensures LinkAt(h, i) && h.ring[i] in h.hdr && h.hdr[h.ring[i]].ptr == Next(h.ring, i)
  {
    assert LinkAt(h, i);
  }

  lemma Ascending(h: Heap, i: nat, k: nat)
    requires Listed(h) && i < k < |h.ring|
    ensures h.ring[i] < h.ring[k]
  {
  }

  lemma InsertListed(h: Heap, t: nat, b: int)
    requires Wf(h) && b in h.tiles.live && IsGap(h.ring, b, t)
    ensures LinkAt(h, t) && Listed(Insert(h, t, b))
  {
    hide Tiled, InsertAt, Retag, Increasing, LinkAt;
    LiveNotListed(h, b);
    LinksAt(h, t);
    var g := Insert(h, t, b);
    InsertMembers(h.ring, t, b, b);
    forall x | x in g.tiles.free ensures x in g.ring {
      InsertMembers(h.ring, t, b, x);
    }
  }

  lemma InsertLinkAt(h: Heap, t: nat, b: int, i: nat)
    requires Listed(h) && Linked(h) && b in h.tiles.live && IsGap(h.ring, b, t) && i <= |h.ring|
    requires b !in h.ring && b !in h.tiles.free && LinkAt(h, t)
    ensures LinkAt(Insert(h, t, b), i)
  {
    hide InsertAt, Retag, Listed;
    var g := Insert(h, t, b);
    assert Increasing(h.ring) by {
      ListedIncreasing(h);
    }
    if i != t + 1 {
      var j := if i <= t then i else i - 1;
      assert LinkAt(h, j);
      assert h.ring[j] != b;
    }
  }

  lemma ListedIncreasing(h: Heap)
    requires Listed(h)
    ensures Increasing(h.ring) && |h.ring| > 0 && h.ring[0] == h.base
  {
  }

  lemma InsertLinked(h: Heap, t: nat, b: int)
    requires Wf(h) && b in h.tiles.live && IsGap(h.ring, b, t)
    ensures LinkAt(h, t) && Linked(Insert(h, t, b))
  {
    hide Tiled, InsertAt, Retag;
    LiveNotListed(h, b);
    assert LinkAt(h, t);
    var g := Insert(h, t, b);
    forall x | x in g.tiles.live ensures g.hdr[x].size == g.tiles.live[x] {
      LiveNotListed(h, x);
    }
    forall i | 0 <= i < |g.ring| ensures LinkAt(g, i) {
      InsertLinkAt(h, t, b, i);
    }
  }

  lemma InsertWf(h: Heap, t: nat, b: int)
    requires Wf(h) && b in h.tiles.live && IsGap(h.ring, b, t)
    ensures LinkAt(h, t) && Wf(Insert(h, t, b))
  {
    InsertListed(h, t, b);
    InsertLinked(h, t, b);
    ReleaseTiled(h.tiles, b);
  }

  lemma MergeListed(h: Heap, k: nat)
    requires Wf(h) && 0 < k && k + 1 < |h.ring|
    ensures LinkAt(h, k) && LinkAt(h, k + 1) && Listed(Merge(h, k))
  {
    hide Tiled, RemoveAt, Retag, Increasing, LinkAt;
    LinksAt(h, k);
    LinksAt(h, k + 1);
    Ascending(h, k, k + 1);
    var g := Merge(h, k);
    RemoveMembers(h.ring, k + 1, h.ring[k]);
    forall i | 0 < i < |g.ring| ensures g.ring[i] in g.tiles.free {
      RemoveMembers(h.ring, k + 1, g.ring[i]);
    }
    forall x | x in g.tiles.free ensures x in g.ring {
      RemoveMembers(h.ring, k + 1, x);
    }
  }

  lemma MergeLinkAt(h: Heap, k: nat, i: nat)
    requires Listed(h) && Linked(h) && 0 < k && k + 1 < |h.ring| && i + 1 < |h.ring|
    requires LinkAt(h, k) && LinkAt(h, k + 1)
    ensures LinkAt(Merge(h, k), i)
  {
    hide RemoveAt, Retag, Listed;
    ListedIncreasing(h);
    MergeDefined(h, k);
    var g := Merge(h, k);
    var j := if i <= k then i else i + 1;
    assert LinkAt(h, j);
    assert h.ring[j] != h.ring[k + 1] && (j == k || h.ring[j] != h.ring[k]);
  }

  lemma MergeDefined(h: Heap, k: nat)
    requires Listed(h) && 0 < k && k + 1 < |h.ring|
    ensures h.ring[k] in h.tiles.free && h.ring[k + 1] in h.tiles.free
  {
  }

  lemma MergeLinked(h: Heap, k: nat)
    requires Wf(h) && 0 < k && k + 1 < |h.ring|
    ensures LinkAt(h, k) && LinkAt(h, k + 1) && Linked(Merge(h, k))
  {
    hide Tiled, RemoveAt, Retag;
    assert LinkAt(h, k) && LinkAt(h, k + 1);
    var g := Merge(h, k);
    forall x | x in g.tiles.live ensures x in g.hdr && g.hdr[x].size == g.tiles.live[x] {
      LiveNotListed(h, x);
    }
    forall i | 0 <= i < |g.ring| ensures LinkAt(g, i) {
      MergeLinkAt(h, k, i);
    }
  }

  lemma MergeWf(h: Heap, k: nat)
    requires Wf(h) && 0 < k && k + 1 < |h.ring| && Touch(h, k)
    ensures LinkAt(h, k) && LinkAt(h, k + 1) && Wf(Merge(h, k))
  {
    MergeListed(h, k);
    MergeLinked(h, k);
    JoinTiled(h.tiles, h.ring[k], h.ring[k + 1]);
  }

  lemma TakeListed(h: Heap, k: nat, n: int)
    requires Wf(h) && 0 < k < |h.ring| && 1 <= n <= SizeOf(h, h.ring[k])
    ensures LinkAt(h, k - 1) && LinkAt(h, k) && Listed(Take(h, k, n))
  {
    hide Tiled, RemoveAt, Retag, Increasing, LinkAt;
    Ascending(h, 0, k);
    LinksAt(h, k - 1);
    LinksAt(h, k);
    var g := Take(h, k, n);
    RemoveMembers(h.ring, k, h.base);
    if n == SizeOf(h, h.ring[k]) {
      forall i | 0 < i < |g.ring| ensures g.ring[i] in g.tiles.free {
        RemoveMembers(h.ring, k, g.ring[i]);
      }
      forall x | x in g.tiles.free ensures x in g.ring {
        RemoveMembers(h.ring, k, x);
      }
    }
  }

  lemma TakeLinkAt(h: Heap, k: nat, n: int, i: nat)
    requires Listed(h) && Linked(h) && 0 < k < |h.ring| && 1 <= n <= SizeOf(h, h.ring[k])
    requires LinkAt(h, k - 1) && LinkAt(h, k)
    requires n < SizeOf(h, h.ring[k]) ==> h.ring[k] + SizeOf(h, h.ring[k]) - n !in h.ring
    requires i < |Take(h, k, n).ring|
    ensures LinkAt(Take(h, k, n), i)
  {
    hide RemoveAt, Retag, Listed;
    ListedIncreasing(h);
    var g := Take(h, k, n);
    var p := h.ring[k];
    var j := if n == SizeOf(h, p) && i >= k then i + 1 else i;
    assert LinkAt(h, j);
    assert j == k || h.ring[j] != p;
    assert j == k - 1 || h.ring[j] != h.ring[k - 1];
  }

  lemma TakeLinked(h: Heap, k: nat, n: int)
    requires Wf(h) && 0 < k < |h.ring| && 1 <= n <= SizeOf(h, h.ring[k])
    ensures LinkAt(h, k - 1) && LinkAt(h, k) && Linked(Take(h, k, n))
  {
    hide RemoveAt, Retag, Tiled;
    assert LinkAt(h, k - 1) && LinkAt(h, k);
    var p := h.ring[k];
    var q := p + h.tiles.free[p] - n;
    var g := Take(h, k, n);
    forall x | x in g.tiles.live ensures x in g.hdr && g.hdr[x].size == g.tiles.live[x] {
      if x != q {
        LiveNotListed(h, x);
      }
    }
    if q != p {
      TailNotListed(h, k, n);
    }
    forall i | 0 <= i < |g.ring| ensures LinkAt(g, i) {
      TakeLinkAt(h, k, n, i);
    }
  }

  lemma TailNotListed(h: Heap, k: nat, n: int)
    requires Wf(h) && 0 < k < |h.ring| && 1 <= n < SizeOf(h, h.ring[k])
    ensures h.ring[k] + SizeOf(h, h.ring[k]) - n !in h.ring
  {
    var p := h.ring[k];
    var q := p + h.tiles.free[p] - n;
    assert FreeOk(h.tiles, p);
    assert q in h.tiles.free ==> FreeOk(h.tiles, q);
    BlocksDisjoint(h.tiles, p, q, q);
  }

  lemma TakeWf(h: Heap, k: nat, n: int)
    requires Wf(h) && 0 < k < |h.ring| && 1 <= n <= SizeOf(h, h.ring[k])
    ensures LinkAt(h, k - 1) && LinkAt(h, k) && Wf(Take(h, k, n))
  {
    TakeListed(h, k, n);
    TakeLinked(h, k, n);
    HandTiled(h.tiles, h.ring[k], n);
  }

  // ---- coalescing

  /** The effect of `free` on a list whose gap for block `b` is `t`. */
  ghost function Freed(h: Heap, t: nat, b: int): Heap
    requires Wf(h) && b in h.tiles.live && IsGap(h.ring, b, t)
  {
    InsertWf(h, t, b);
    MergeBelow(MergeAbove(Insert(h, t, b), t + 1), t)
  }

  ghost function MergeAbove(h: Heap, k: nat): (r: Heap)
    requires Wf(h) && 0 < k < |h.ring|
    ensures Wf(r) && k < |r.ring| && r.base == h.base && r.ring[..k + 1] == h.ring[..k + 1]
    ensures r.tiles.live == h.tiles.live && r.tiles.cell.Keys == h.tiles.cell.Keys
    ensures SizeOf(r, h.ring[k]) >= SizeOf(h, h.ring[k])
  {
    if k + 1 < |h.ring| && Touch(h, k) then MergeWf(h, k); Merge(h, k) else h
  }

  ghost function MergeBelow(h: Heap, t: nat): (r: Heap)
    requires Wf(h) && t + 1 < |h.ring|
    ensures Wf(r) && r.base == h.base && t < |r.ring| && r.ring[t] == h.ring[t]
    ensures r.tiles.live == h.tiles.live && r.tiles.cell.Keys == h.tiles.cell.Keys
    ensures || SizeOf(r, r.ring[t]) >= SizeOf(h, h.ring[t + 1])
            || (t + 1 < |r.ring| && r.ring[t + 1] == h.ring[t + 1] && SizeOf(r, r.ring[t + 1]) >= SizeOf(h, h.ring[t + 1]))
  {
    if t > 0 && Touch(h, t) then MergeWf(h, t); Merge(h, t) else h
  }

  /** At most the neighbours of position `k` touch. */
  ghost predicate CoalescedBut(h: Heap, k: nat) {
    forall i :: 0 < i < |h.ring| - 1 && i != k && i != k - 1 ==> !Touch(h, i)
  }

  lemma InsertCoalesced(h: Heap, t: nat, b: int)
    requires Wf(h) && Coalesced(h) && b in h.tiles.live && IsGap(h.ring, b, t)
    ensures LinkAt(h, t) && CoalescedBut(Insert(h, t, b), t + 1)
  {
    LiveNotListed(h, b);
    assert LinkAt(h, t);
    hide Tiled, Linked, InsertAt, Retag;
    var g := Insert(h, t, b);
    forall i | 0 < i < |g.ring| - 1 && i != t && i != t + 1 ensures !Touch(g, i) {
      var j := if i < t then i else i - 1;
      assert !Touch(h, j);
      assert g.ring[i] == h.ring[j] && g.ring[i + 1] == h.ring[j + 1] && h.ring[j] != b;
    }
  }

  /** Merging two touching blocks shifts the other adjacencies and keeps the outer ones. */
  lemma MergeTouch(h: Heap, k: nat, i: nat)
    requires Wf(h) && 0 < k && k + 1 < |h.ring| && Touch(h, k) && 0 < i && i + 2 < |h.ring|
    ensures LinkAt(h, k) && LinkAt(h, k + 1)
    ensures Touch(Merge(h, k), i) == Touch(h, if i < k then i else i + 1)
  {
    assert LinkAt(h, k) && LinkAt(h, k + 1);
    hide Tiled, Linked, Retag;
    var g := Merge(h, k);
    var j := if i < k then i else i + 1;
    assert g.ring[i] == h.ring[if i <= k then i else i + 1];
    assert g.ring[i + 1] == h.ring[j + 1];
  }

  lemma MergeAboveCoalesced(h: Heap, k: nat)
    requires Wf(h) && 0 < k < |h.ring| && CoalescedBut(h, k)
    ensures var g := MergeAbove(h, k);
            forall i :: 0 < i < |g.ring| - 1 && i != k - 1 ==> !Touch(g, i)
  {
    hide Wf, Touch, Merge;
    var g := MergeAbove(h, k);
    if k + 1 < |h.ring| && Touch(h, k) {
      forall i | 0 < i < |g.ring| - 1 && i != k - 1 ensures !Touch(g, i) {
        MergeSize(h, k);
        MergeTouch(h, k, i);
      }
    }
  }

  lemma MergeSize(h: Heap, k: nat)
    requires Wf(h) && 0 < k && k + 1 < |h.ring|
    ensures LinkAt(h, k) && LinkAt(h, k + 1) && |Merge(h, k).ring| == |h.ring| - 1
  {
    assert LinkAt(h, k) && LinkAt(h, k + 1);
  }

  lemma MergeBelowCoalesced(h: Heap, t: nat)
    requires Wf(h) && t + 1 < |h.ring|
    requires forall i :: 0 < i < |h.ring| - 1 && i != t ==> !Touch(h, i)
    ensures Coalesced(MergeBelow(h, t))
  {
    hide Wf, Touch, Merge;
    var g := MergeBelow(h, t);
    if t > 0 && Touch(h, t) {
      forall i | 0 < i < |g.ring| - 1 ensures !Touch(g, i) {
        MergeSize(h, t);
        MergeTouch(h, t, i);
      }
    }
  }

  /** `free` leaves no two free blocks adjacent, loses no unit and only releases its argument. */
  lemma FreedOk(h: Heap, t: nat, b: int)
    requires Wf(h) && Coalesced(h) && b in h.tiles.live && IsGap(h.ring, b, t)
    ensures var g := Freed(h, t, b);
            && Wf(g) && Coalesced(g) && g.base == h.base
            && g.tiles.live == h.tiles.live - {b} && g.tiles.cell.Keys == h.tiles.cell.Keys
  {
    InsertWf(h, t, b);
    InsertCoalesced(h, t, b);
    hide Wf, Touch, Coalesced, CoalescedBut, MergeAbove, MergeBelow, LinkAt;
    var g := Insert(h, t, b);
    MergeAboveCoalesced(g, t + 1);
    MergeBelowCoalesced(MergeAbove(g, t + 1), t);
  }

  /** After `free`, the block that holds the freed units is at the returned position or next to it. */
  lemma FreedFits(h: Heap, t: nat, b: int)
    requires Wf(h) && b in h.tiles.live && IsGap(h.ring, b, t)
    ensures var g := Freed(h, t, b);
            && t < |g.ring| && g.ring[t] == h.ring[t]
            && (SizeOf(g, g.ring[t]) >= h.tiles.live[b]
                || (t + 1 < |g.ring| && SizeOf(g, g.ring[t + 1]) >= h.tiles.live[b]))
  {
    InsertWf(h, t, b);
    var g := Insert(h, t, b);
    var g1 := MergeAbove(g, t + 1);
    assert g1.ring[t] == g1.ring[..t + 2][t] == g.ring[t] == h.ring[t];
    assert g1.ring[t + 1] == g1.ring[..t + 2][t + 1] == g.ring[t + 1] == b;
    assert SizeOf(g, b) == h.tiles.live[b];
  }

  lemma FreeNoOverlap(h: Heap, i: nat)
    requires Wf(h) && i + 1 < |h.ring|
    ensures h.ring[i] + SizeOf(h, h.ring[i]) <= h.ring[i + 1]
  {
    if h.ring[i] in h.tiles.free {
      assert FreeOk(h.tiles, h.ring[i]) && FreeOk(h.tiles, h.ring[i + 1]);
      BlocksDisjoint(h.tiles, h.ring[i], h.ring[i + 1], h.ring[i + 1]);
    }
  }

  lemma TakeTouch(h: Heap, k: nat, n: int, i: nat)
    requires Listed(h) && Linked(h) && 0 < k < |h.ring| && 1 <= n <= SizeOf(h, h.ring[k])
    requires LinkAt(h, k - 1) && LinkAt(h, k) && 0 < i && i + 1 < |Take(h, k, n).ring|
    requires h.ring[k - 1] + SizeOf(h, h.ring[k - 1]) <= h.ring[k]
    requires k + 1 < |h.ring| ==> h.ring[k] + SizeOf(h, h.ring[k]) <= h.ring[k + 1]
    requires var j := if n == SizeOf(h, h.ring[k]) && i >= k then i + 1 else i; !Touch(h, j)
    ensures !Touch(Take(h, k, n), i)
  {
    hide RemoveAt, Retag, Listed, Linked;
    ListedIncreasing(h);
    var g := Take(h, k, n);
    var all := n == SizeOf(h, h.ring[k]);
    var j := if all && i >= k then i + 1 else i;
    assert g.ring[i] == h.ring[j] && (j == k || h.ring[j] != h.ring[k]);
    if all && i == k - 1 {
      assert g.ring[i + 1] == h.ring[k + 1];
    } else {
      assert g.ring[i + 1] == h.ring[j + 1];
    }
  }

  lemma TakeCoalesced(h: Heap, k: nat, n: int)
    requires Wf(h) && Coalesced(h) && 0 < k < |h.ring| && 1 <= n <= SizeOf(h, h.ring[k])
    ensures LinkAt(h, k - 1) && LinkAt(h, k) && Coalesced(Take(h, k, n))
  {
    hide Tiled, Retag, RemoveAt, Touch, Listed;
    assert LinkAt(h, k - 1) && LinkAt(h, k);
    FreeNoOverlap(h, k - 1);
    if k + 1 < |h.ring| {
      FreeNoOverlap(h, k);
    }
    var g := Take(h, k, n);
    forall i | 0 < i < |g.ring| - 1 ensures !Touch(g, i) {
      TakeTouch(h, k, n, i);
    }
  }

  lemma MergeHeaders(h: Heap, k: nat)
    requires Wf(h) && 0 < k && k + 1 < |h.ring|
    ensures var p, q := h.ring[k], h.ring[k + 1];
            && LinkAt(h, k) && LinkAt(h, k + 1) && p in h.tiles.free && q in h.tiles.free
            && Merge(h, k).hdr == h.hdr[p := Header(h.hdr[q].ptr, h.hdr[p].size + h.hdr[q].size)]
  {
    assert LinkAt(h, k) && LinkAt(h, k + 1);
  }

  /** What `free` writes into the header of `b`, whose successor is to be `next`. */
  function LinkUp(hdr: map<int, Header>, b: int, next: int): map<int, Header>
    requires b in hdr && next in hdr
  {
    if b + hdr[b].size == next then hdr[b := Header(hdr[next].ptr, hdr[b].size + hdr[next].size)]
    else hdr[b := Header(next, hdr[b].size)]
  }

  /** What `free` then writes into the header of the predecessor `p`. */
  function LinkDown(hdr: map<int, Header>, p: int, b: int): map<int, Header>
    requires p in hdr && b in hdr
  {
    if p + hdr[p].size == b then hdr[p := Header(hdr[b].ptr, hdr[p].size + hdr[b].size)]
    else hdr[p := Header(b, hdr[p].size)]
  }

  lemma InsertGap(h: Heap, t: nat, b: int) returns (next: int)
    requires Wf(h) && b in h.tiles.live && IsGap(h.ring, b, t)
    ensures LinkAt(h, t) && h.ring[t] in h.hdr && b in h.hdr && h.hdr[b].size == h.tiles.live[b] && h.ring[t] != b
    ensures h.hdr[b].size >= 1
    ensures next == h.hdr[h.ring[t]].ptr && next in h.hdr && next != b
    ensures var g := Insert(h, t, b);
            && Wf(g) && |g.ring| == |h.ring| + 1
            && g.ring[t] == h.ring[t] && g.ring[t + 1] == b && SizeOf(g, b) == h.hdr[b].size
            && (t + 2 < |g.ring| ==> g.ring[t + 2] == next && next != h.ring[t])
            && (t + 2 == |g.ring| ==> next < b)
            && SizeOf(g, h.ring[t]) == h.hdr[h.ring[t]].size
            && g.hdr == h.hdr[b := Header(next, h.hdr[b].size)][h.ring[t] := Header(b, h.hdr[h.ring[t]].size)]
    ensures t == 0 ==> h.hdr[h.ring[t]].size == 0 && h.ring[t] < b
  {
    LiveNotListed(h, b);
    InsertWf(h, t, b);
    assert LiveOk(h.tiles, b);
    assert LinkAt(h, t);
    assert LinkAt(h, if t + 1 < |h.ring| then t + 1 else 0);
    next := h.hdr[h.ring[t]].ptr;
  }

  lemma AboveHeaders(h: Heap, t: nat, b: int)
    requires Wf(h) && b in h.tiles.live && IsGap(h.ring, b, t)
    ensures h.ring[t] in h.hdr && b in h.hdr && Wf(Insert(h, t, b)) && h.hdr[h.ring[t]].ptr in h.hdr && h.ring[t] != b
    ensures MergeAbove(Insert(h, t, b), t + 1).hdr
            == LinkUp(h.hdr, b, h.hdr[h.ring[t]].ptr)[h.ring[t] := Header(b, h.hdr[h.ring[t]].size)]
  {
    hide Wf, Release, Join, InsertAt, Merge, LinkAt, Insert;
    var next := InsertGap(h, t, b);
    var g := Insert(h, t, b);
    var p := h.ring[t];
    var r := LinkUp(h.hdr, b, next)[p := Header(b, h.hdr[p].size)];
    if t + 2 < |g.ring| && Touch(g, t + 1) {
      MergeHeaders(g, t + 1);
      assert Merge(g, t + 1).hdr == r;
    } else {
      assert g.hdr == r;
    }
  }

  /** The headers that `free` leaves, in the terms of its own code. */
  lemma FreedHeaders(h: Heap, t: nat, b: int)
    requires Wf(h) && b in h.tiles.live && IsGap(h.ring, b, t)
    ensures h.ring[t] in h.hdr && b in h.hdr && h.hdr[h.ring[t]].ptr in h.hdr && h.ring[t] != b
    ensures Freed(h, t, b).hdr == LinkDown(LinkUp(h.hdr, b, h.hdr[h.ring[t]].ptr), h.ring[t], b)
  {
    hide Wf, Insert, MergeAbove, Merge, LinkAt;
    AboveHeaders(h, t, b);
    var next := InsertGap(h, t, b);
    var p := h.ring[t];
    var up := LinkUp(h.hdr, b, next);
    var g := MergeAbove(Insert(h, t, b), t + 1);
    AbovePosition(h, t, b);
    assert g.hdr == up[p := Header(b, h.hdr[p].size)];
    var r := LinkDown(up, p, b);
    if t > 0 && Touch(g, t) {
      MergeHeaders(g, t);
      assert Merge(g, t).hdr == r;
    } else {
      assert g.hdr == r;
    }
  }

  lemma AbovePosition(h: Heap, t: nat, b: int)
    requires Wf(h) && b in h.tiles.live && IsGap(h.ring, b, t)
    ensures h.ring[t] in h.hdr && Wf(Insert(h, t, b))
    ensures var g := MergeAbove(Insert(h, t, b), t + 1);
            && g.ring[t] == h.ring[t] && g.ring[t + 1] == b && SizeOf(g, h.ring[t]) == h.hdr[h.ring[t]].size
  {
    var next := InsertGap(h, t, b);
    var i := Insert(h, t, b);
    var g := MergeAbove(i, t + 1);
    assert g.ring[t] == g.ring[..t + 2][t] == i.ring[t];
    assert g.ring[t + 1] == g.ring[..t + 2][t + 1] == i.ring[t + 1];
    assert i.ring[t] < i.ring[t + 1];
  }

  // ---- growing and carving

  /** `n` fresh units at `b` appear as a live block. */
  ghost function Grown(h: Heap, b: int, n: int): Heap {
    Heap(h.base, h.hdr[b := Header(if b in h.hdr then h.hdr[b].ptr else 0, n)], h.ring, Grow(h.tiles, b, n))
  }

  lemma FreshBlock(h: Heap, b: int)
    requires Wf(h) && (forall u :: u in h.tiles.cell ==> u < b)
    ensures b !in h.tiles.live && b !in h.tiles.free
  {
    assert b !in h.tiles.cell;
    assert b in h.tiles.live ==> LiveOk(h.tiles, b);
    assert b in h.tiles.free ==> FreeOk(h.tiles, b);
  }

  lemma GrownOk(h: Heap, b: int, n: int)
    requires Wf(h) && Coalesced(h) && n >= 1 && b > h.base && (forall u :: u in h.tiles.cell ==> u < b)
    ensures b !in h.tiles.live && Wf(Grown(h, b, n)) && Coalesced(Grown(h, b, n))
    ensures Grown(h, b, n).tiles.live == h.tiles.live[b := n] && h.tiles.live[b := n] - {b} == h.tiles.live
    ensures Grown(h, b, n).tiles.cell.Keys == h.tiles.cell.Keys + Range(b, n)
  {
    hide Tiled, Fresh, Range;
    FreshBlock(h, b);
    GrowTiled(h.tiles, b, n);
    var g := Grown(h, b, n);
    FreshKeys(b, n);
    forall i | 0 <= i < |h.ring| ensures LinkAt(g, i) {
      assert LinkAt(h, i);
    }
    forall i | 0 < i < |h.ring| - 1 ensures !Touch(g, i) {
      assert !Touch(h, i);
    }
  }

  /** The headers and the accounting after `malloc` carves from position `k`. */
  lemma CarveOk(h: Heap, k: nat, n: int)
    requires Wf(h) && Coalesced(h) && 0 < k < |h.ring| && 1 <= n <= SizeOf(h, h.ring[k])
    ensures h.ring[k - 1] in h.hdr && h.ring[k] in h.hdr && h.ring[k] in h.tiles.free
    ensures h.hdr[h.ring[k]].size == h.tiles.free[h.ring[k]]
    ensures var g := Take(h, k, n);
            var q := h.ring[k] + h.tiles.free[h.ring[k]] - n;
            && Wf(g) && Coalesced(g) && g.base == h.base && h.ring[k - 1] in g.ring
            && q !in h.tiles.live && q >= h.base && g.tiles.live == h.tiles.live[q := n]
            && g.tiles.cell.Keys == h.tiles.cell.Keys
  {
    hide Coalesced, Touch, Retag;
    TakeWf(h, k, n);
    TakeCoalesced(h, k, n);
    assert LinkAt(h, k) && FreeOk(h.tiles, h.ring[k]);
    var q := h.ring[k] + h.tiles.free[h.ring[k]] - n;
    assert q in h.tiles.live ==> LiveOk(h.tiles, q);
    BlocksDisjoint(h.tiles, h.ring[k], q, q);
    assert Take(h, k, n).ring[k - 1] == h.ring[k - 1];
  }

  /** A list holding only the static head. */
  lemma EmptyListOk(base: int, hdr: map<int, Header>)
    ensures var h := Heap(base, hdr[base := Header(base, 0)], [base], Tiles(map[], map[], map[]));
            Wf(h) && Coalesced(h)
  {
    var h := Heap(base, hdr[base := Header(base, 0)], [base], Tiles(map[], map[], map[]));
    assert h.ring[0] == base;
    assert LinkAt(h, 0);
    assert Tiled(h.tiles);
  }
}
