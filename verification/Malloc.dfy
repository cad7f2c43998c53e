/** `malloc`, `free` and `morecore` of user/umalloc.c, relinking headers in place. */
module Malloc {
  import opened Tiles
  import opened FreeList

  const HEADER: nat := 16       // sizeof(Header)
  const MINCORE: nat := 4096

  /** `nunits` of `malloc`; sizeof is 64 bits wide, so the sum does not wrap. */
  function NUnits(nbytes: nat): nat {
    (nbytes + HEADER - 1) / HEADER + 1
  }

  function CoreUnits(nu: nat): nat {
    if nu < MINCORE then MINCORE else nu
  }

  /** The argument that `sbrk(int)` receives. */
  function SbrkArgument(nu: nat): int {
    var w := (CoreUnits(nu) * HEADER) % 0x1_0000_0000;
    if w < 0x8000_0000 then w else w - 0x1_0000_0000
  }

  /** The block holds the request and its header, and less than one unit is wasted. */
  lemma NUnitsFits(nbytes: nat)
    ensures (NUnits(nbytes) - 1) * HEADER >= nbytes
    ensures (NUnits(nbytes) - 1) * HEADER < nbytes + HEADER
  {
  }

  /** `sbrk` is asked for the intended amount exactly when it fits an int. */
  lemma SbrkArgumentFits(nu: nat)
    ensures SbrkArgument(nu) == CoreUnits(nu) * HEADER <==> nu < 0x800_0000
  {
  }

  /** A request that gives the first block too large: sbrk is asked to shrink the process by 2 GB. */
  lemma SbrkShrinks()
    ensures NUnits(0x7fff_fff0) == 0x800_0000 && SbrkArgument(NUnits(0x7fff_fff0)) == -0x8000_0000
  {
  }

  /** A block, the null pointer, or a call of `sbrk` that gets none of the memory
      that `morecore` then links into the list. */
  datatype Outcome = Block(p: int) | Null | WildSbrk

  class Allocator {
    const base: int
    var hdr: map<int, Header>
    var freep: int                 // 0 before the first call
    ghost var ring: seq<int>
    ghost var tiles: Tiles
    ghost var top: int             // no unit obtained so far lies at or above

    ghost function State(): Heap
      reads this
    {
      Heap(base, hdr, ring, tiles)
    }

    ghost predicate Valid()
      reads this
    {
      && 0 < base < top
      && (forall u :: u in tiles.cell ==> u < top)
      && (freep == 0 ==> tiles == Tiles(map[], map[], map[]))
      && (freep != 0 ==> Wf(State()) && Coalesced(State()) && freep in ring)
    }

    constructor (base: int)
      requires 0 < base
      ensures Valid() && this.base == base && tiles == Tiles(map[], map[], map[])
    {
      this.base, hdr, freep, ring, tiles, top := base, map[], 0, [], Tiles(map[], map[], map[]), base + 1;
    }

    ghost function Index(p: int): (i: nat)
      requires p in ring
      reads this
      ensures i < |ring| && ring[i] == p
    {
      var i :| 0 <= i < |ring| && ring[i] == p;
      i
    }

    /** Steps around the ring from position `i` to position `t`. */
    static function Steps(n: nat, i: nat, t: nat): nat
      requires i < n && t < n
    {
      if i <= t then t - i else t + n - i
    }

    /** `free((void*)(bp + 1))`: the search starts anywhere in the ring and ends at the gap of `bp`. */
    method Free(bp: int) returns (ghost t: nat)
      requires Valid() && freep != 0 && bp in tiles.live
      modifies this`hdr, this`freep, this`ring, this`tiles
      ensures Valid() && freep != 0
      ensures IsGap(old(ring), bp, t) && State() == Freed(old(State()), t, bp) && freep == old(ring)[t]
      ensures tiles.live == old(tiles).live - {bp} && tiles.cell.Keys == old(tiles).cell.Keys
    {
      hide Wf, Coalesced, Freed, LinkAt, IsGap, LinkUp, LinkDown;
      ghost var h := State();
      t := GapOf(bp);
      ghost var g := Freed(h, t, bp);
      ghost var up := LinkUp(hdr, bp, hdr[ring[t]].ptr);
      var p := FindGap(bp, t);
      var next := hdr[p].ptr;
      if bp + hdr[bp].size == next {
        hdr := hdr[bp := Header(hdr[next].ptr, hdr[bp].size + hdr[next].size)];
      } else {
        hdr := hdr[bp := Header(next, hdr[bp].size)];
      }
      assert hdr == up by {
        LinkUpIs(old(hdr), bp, next);
      }
      if p + hdr[p].size == bp {
        hdr := hdr[p := Header(hdr[bp].ptr, hdr[p].size + hdr[bp].size)];
      } else {
        hdr := hdr[p := Header(bp, hdr[p].size)];
      }
      freep := p;
      ring, tiles := g.ring, g.tiles;
      assert hdr == LinkDown(up, p, bp) by {
        LinkDownIs(up, p, bp);
      }
      assert State() == g;
    }

    lemma GapOf(bp: int) returns (t: nat)
      requires Valid() && freep != 0 && bp in tiles.live
      ensures IsGap(ring, bp, t) && bp in hdr && ring[t] in hdr && ring[t] != bp && hdr[ring[t]].ptr in hdr && bp > base
      ensures var g := Freed(State(), t, bp);
              && g.hdr == LinkDown(LinkUp(hdr, bp, hdr[ring[t]].ptr), ring[t], bp)
              && Wf(g) && Coalesced(g) && g.base == base && ring[t] in g.ring && ring[t] != 0
              && g.tiles.live == tiles.live - {bp} && g.tiles.cell.Keys == tiles.cell.Keys
    {
      LiveNotListed(State(), bp);
      t := GapExists(State(), bp, |ring|);
      FreedOk(State(), t, bp);
      FreedHeaders(State(), t, bp);
      FreedFits(State(), t, bp);
      assert LinkAt(State(), t);
      assert ring[t] >= base;
    }

    static lemma LinkUpIs(m: map<int, Header>, b: int, next: int)
      requires b in m && next in m
      ensures b + m[b].size == next ==> LinkUp(m, b, next) == m[b := Header(m[next].ptr, m[b].size + m[next].size)]
      ensures b + m[b].size != next ==> LinkUp(m, b, next) == m[b := Header(next, m[b].size)]
      ensures LinkUp(m, b, next).Keys == m.Keys
    {
    }

    static lemma LinkDownIs(m: map<int, Header>, p: int, b: int)
      requires b in m && p in m
      ensures p + m[p].size == b ==> LinkDown(m, p, b) == m[p := Header(m[b].ptr, m[p].size + m[b].size)]
      ensures p + m[p].size != b ==> LinkDown(m, p, b) == m[p := Header(b, m[p].size)]
    {
    }

    /** The search loop of `free`. */
    method FindGap(bp: int, ghost t: nat) returns (p: int)
      requires Valid() && freep != 0 && IsGap(ring, bp, t) && bp > base
      ensures t < |ring| && p == ring[t]
    {
      p := freep;
      ghost var i := Index(p);
      assert LinkAt(State(), i);
      while !(bp > p && bp < hdr[p].ptr)
        invariant 0 <= i < |ring| && p == ring[i] && LinkAt(State(), i)
        decreases Steps(|ring|, i, t)
      {
        if p >= hdr[p].ptr && (bp > p || bp < hdr[p].ptr) {
          break;
        }
        p := hdr[p].ptr;
        i := if i + 1 < |ring| then i + 1 else 0;
        assert LinkAt(State(), i);
      }
    }

    /** `morecore`: `region` is what sbrk returns (0 for SBRK_ERROR), in units. */
    method MoreCore(nu: nat, region: int) returns (p: int)
      requires Valid() && freep != 0 && nu >= 1 && (SbrkArgument(nu) == CoreUnits(nu) * HEADER || region == 0)
      requires region == 0 || region >= top
      modifies this
      ensures Valid() && freep != 0
      ensures region == 0 ==> p == 0 && State() == old(State()) && freep == old(freep) && top == old(top)
      ensures region != 0 ==>
                && p == freep && tiles.live == old(tiles).live
                && tiles.cell.Keys == old(tiles).cell.Keys + Range(region, CoreUnits(nu))
                && FitsSomewhere(nu)
    {
      hide Wf, Coalesced, Freed, Grown, IsGap, Range, Grow;
      if region == 0 {
        return 0;
      }
      var n := CoreUnits(nu);
      GrownOk(State(), region, n);
      GrownHeaders(State(), region, n);
      hdr := hdr[region := Header(if region in hdr then hdr[region].ptr else 0, n)];
      tiles := Grow(tiles, region, n);
      top := region + n;
      RangeBelow(region, n);
      ghost var h := State();
      ghost var t := Free(region);
      FreedFits(h, t, region);
      assert FitsNext(nu, t);
      p := freep;
    }

    static lemma GrownHeaders(h: Heap, b: int, n: int)
      ensures Grown(h, b, n) == Heap(h.base, h.hdr[b := Header(if b in h.hdr then h.hdr[b].ptr else 0, n)], h.ring, Grow(h.tiles, b, n))
    {
    }

    static lemma RangeBelow(b: int, n: int)
      ensures forall u :: u in Range(b, n) ==> u < b + n
    {
    }

    /** A block of at least `nu` units is where freep points or right after it. */
    ghost predicate FitsNext(nu: nat, f: nat)
      requires f < |ring|
      reads this
    {
      SizeOf(State(), ring[f]) >= nu || SizeOf(State(), Next(ring, f)) >= nu
    }

    /** The branch of `malloc` that has found block `p`, the successor of `prevp`. */
    method Carve(prevp: int, p: int, nunits: nat, ghost k: nat) returns (q: int)
      requires Valid() && freep != 0 && 0 < k < |ring| && p == ring[k] && prevp == ring[k - 1]
      requires 1 <= nunits <= SizeOf(State(), p)
      modifies this`hdr, this`freep, this`ring, this`tiles
      ensures Valid() && freep == prevp != 0
      ensures q !in old(tiles).live && q >= base && tiles.live == old(tiles).live[q := nunits]
      ensures tiles.cell.Keys == old(tiles).cell.Keys
    {
      hide Wf, Coalesced;
      ghost var h := State();
      CarveOk(h, k, nunits);
      ghost var g := Take(h, k, nunits);
      RingAboveBase(h, k - 1);
      if hdr[p].size == nunits {
        hdr := hdr[prevp := Header(hdr[p].ptr, hdr[prevp].size)];
        q := p;
      } else {
        hdr := hdr[p := Header(hdr[p].ptr, hdr[p].size - nunits)];
        q := p + hdr[p].size;
        hdr := hdr[q := Header(if q in hdr then hdr[q].ptr else 0, nunits)];
      }
      freep := prevp;
      ring, tiles := g.ring, g.tiles;
      assert State() == g;
    }

    static lemma RingAboveBase(h: Heap, i: nat)
      requires Wf(h) && i < |h.ring|
      ensures h.ring[i] >= h.base
    {
    }

    /** Ring facts the search loop of `malloc` uses at position `k`. */
    lemma AtPosition(k: nat)
      requires Valid() && freep != 0 && k < |ring|
      ensures ring[k] in hdr && hdr[ring[k]] == Header(Next(ring, k), SizeOf(State(), ring[k]))
      ensures ring[0] == base && SizeOf(State(), base) == 0
      ensures forall j :: 0 <= j < |ring| && ring[j] == ring[k] ==> j == k
    {
      assert LinkAt(State(), k) && LinkAt(State(), 0);
      assert base !in tiles.free;
    }

    /** Only a free block has a positive size. */
    lemma HoldsBlock(k: nat, n: nat)
      requires Valid() && freep != 0 && k < |ring| && 1 <= n <= SizeOf(State(), ring[k])
      ensures ring[k] in tiles.free && tiles.free[ring[k]] >= n
    {
    }

    lemma AllSmall(n: nat, f: nat)
      requires Valid() && freep != 0 && f < |ring|
      requires forall d :: 0 <= d < |ring| ==> SizeOf(State(), ring[Visited(|ring|, f, d)]) < n
      ensures forall b :: b in tiles.free ==> tiles.free[b] < n
    {
      forall b | b in tiles.free ensures tiles.free[b] < n {
        var k :| 0 <= k < |ring| && ring[k] == b;
        var d := if k > f then k - f - 1 else k + |ring| - f - 1;
        assert Visited(|ring|, f, d) == k;
      }
    }

    /** The position visited `d` steps after the one following position `f`. */
    static function Visited(n: nat, f: nat, d: nat): (k: nat)
      requires f < n && d < n
      ensures k < n
    {
      if f + 1 + d < n then f + 1 + d else f + 1 + d - n
    }

    static function Pred(n: nat, k: nat): (j: nat)
      requires k < n
      ensures j < n
    {
      if k == 0 then n - 1 else k - 1
    }

    /** `malloc`: next fit from freep. `region` is what sbrk would return if it
        were called. The block handed out begins at its address plus one. */
    method Malloc(nbytes: nat, region: int) returns (r: Outcome)
      requires Valid()
      requires region == 0 || region >= top
      modifies this
      ensures Valid()
      ensures r.Null? ==> region == 0 && tiles == old(tiles) && forall b :: b in tiles.free ==> tiles.free[b] < NUnits(nbytes)
      ensures r.Block? ==> r.p - 1 !in old(tiles).live && tiles.live == old(tiles).live[r.p - 1 := NUnits(nbytes)]
      ensures r.WildSbrk? <==>
                && SbrkArgument(NUnits(nbytes)) != CoreUnits(NUnits(nbytes)) * HEADER && region != 0
                && forall b :: b in old(tiles).free ==> old(tiles).free[b] < NUnits(nbytes)
      ensures r.WildSbrk? ==> tiles == old(tiles)
      ensures || tiles.cell.Keys == old(tiles).cell.Keys
              || (region != 0 && tiles.cell.Keys == old(tiles).cell.Keys + Range(region, CoreUnits(NUnits(nbytes)))
                  && forall b :: b in old(tiles).free ==> old(tiles).free[b] < NUnits(nbytes))
    {
      hide Wf, Coalesced, Range, LinkAt, Next;
      var nunits := NUnits(nbytes);
      var prevp := freep;
      if prevp == 0 {
        EmptyListOk(base, hdr);
        hdr := hdr[base := Header(base, 0)];
        freep, prevp, ring := base, base, [base];
      }
      ghost var f: nat := Index(freep);
      ghost var c: nat, grown := 0, false;
      AtPosition(f);
      var p := hdr[prevp].ptr;
      NextVisited(ring, f);
      while true
        invariant Valid() && freep != 0
        invariant f < |ring| && c < |ring| && ring[f] == freep
        invariant p == ring[Visited(|ring|, f, c)] && prevp == ring[Pred(|ring|, Visited(|ring|, f, c))]
        invariant forall d :: 0 <= d < c ==> SizeOf(State(), ring[Visited(|ring|, f, d)]) < nunits
        invariant !grown ==> tiles == old(tiles) && top == old(top)
        invariant grown ==> SbrkArgument(nunits) == CoreUnits(nunits) * HEADER && region != 0 && tiles.live == old(tiles).live && FitsNext(nunits, f)
        invariant grown ==> forall b :: b in old(tiles).free ==> old(tiles).free[b] < nunits
        invariant grown ==> tiles.cell.Keys == old(tiles).cell.Keys + Range(region, CoreUnits(nunits))
        decreases !grown, |ring| - c
      {
        ghost var k := Visited(|ring|, f, c);
        AtPosition(k);
        if hdr[p].size >= nunits {
          HoldsBlock(k, nunits);
          var q := Carve(prevp, p, nunits, k);
          return Block(q + 1);
        }
        if p == freep {
          assert k == f && c == |ring| - 1;
          NextVisited(ring, f);
          assert !grown; // a second pass always finds the block that sbrk gave
          AllSmall(nunits, f);
          SbrkArgumentFits(nunits);
          if nunits >= 0x800_0000 && region != 0 {
            return WildSbrk;            // the program goes on with memory it does not have
          }
          p := MoreCore(nunits, region);
          if p == 0 {
            return Null;
          }
          grown, c := true, 0;
          f := FitPosition(nunits);
          AtPosition(f);
          NextVisited(ring, f);
        } else {
          NextVisited(ring, k);
          c := c + 1;
        }
        prevp := p;
        p := hdr[p].ptr;
      }
    }

    static lemma NextVisited(ring: seq<int>, f: nat)
      requires f < |ring|
      ensures Next(ring, f) == ring[Visited(|ring|, f, 0)] && Pred(|ring|, Visited(|ring|, f, 0)) == f
    {
    }

    lemma FitPosition(nu: nat) returns (f: nat)
      requires FitsSomewhere(nu)
      ensures f < |ring| && ring[f] == freep && FitsNext(nu, f)
    {
      f :| 0 <= f < |ring| && ring[f] == freep && FitsNext(nu, f);
    }

    ghost predicate FitsSomewhere(nu: nat)
      reads this
    {
      exists f :: 0 <= f < |ring| && ring[f] == freep && FitsNext(nu, f)
    }
  }
}
