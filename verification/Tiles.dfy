/** The units of memory that the allocator of user/umalloc.c has obtained from
    sbrk, tiled by free blocks and blocks handed out. */
module Tiles {
  datatype Cell = Free(block: int) | Live(block: int)

  /** Sizes of the free and of the live blocks by address, and for every unit
      ever obtained the block that holds it. */
  datatype Tiles = Tiles(free: map<int, int>, live: map<int, int>, cell: map<int, Cell>)

  ghost predicate CellOk(t: Tiles, u: int)
    requires u in t.cell
  {
    match t.cell[u]
    case Free(b) => b in t.free && b <= u < b + t.free[b]
    case Live(b) => b in t.live && b <= u < b + t.live[b]
  }

  ghost predicate FreeOk(t: Tiles, b: int)
    requires b in t.free
  {
    t.free[b] >= 1 && forall u :: b <= u < b + t.free[b] ==> u in t.cell && t.cell[u] == Free(b)
  }

  ghost predicate LiveOk(t: Tiles, b: int)
    requires b in t.live
  {
    t.live[b] >= 1 && forall u :: b <= u < b + t.live[b] ==> u in t.cell && t.cell[u] == Live(b)
  }

  /** Every unit obtained lies in exactly one block and every block is made of such units. */
  ghost predicate Tiled(t: Tiles) {
    && (forall u :: u in t.cell ==> CellOk(t, u))
    && (forall b :: b in t.free ==> FreeOk(t, b))
    && (forall b :: b in t.live ==> LiveOk(t, b))
  }

  lemma BlocksDisjoint(t: Tiles, a: int, b: int, u: int)
    requires Tiled(t)
    ensures a in t.free && b in t.free && a <= u < a + t.free[a] && b <= u < b + t.free[b] ==> a == b
    ensures a in t.live && b in t.live && a <= u < a + t.live[a] && b <= u < b + t.live[b] ==> a == b
    ensures !(a in t.free && b in t.live && a <= u < a + t.free[a] && b <= u < b + t.live[b])
  {
    if u in t.cell {
      assert CellOk(t, u);
    }
  }

  function Retag(cell: map<int, Cell>, lo: int, n: int, c: Cell): (r: map<int, Cell>)
    ensures r.Keys == cell.Keys
    ensures forall u :: u in cell ==> r[u] == if lo <= u < lo + n then c else cell[u]
  {
    map u | u in cell :: if lo <= u < lo + n then c else cell[u]
  }

  function Range(b: int, n: int): (r: set<int>)
    ensures forall u :: u in r <==> b <= u < b + n
    decreases n
  {
    if n <= 0 then {} else Range(b, n - 1) + {b + n - 1}
  }

  function Fresh(b: int, n: int): (r: map<int, Cell>)
    ensures forall u :: u in r <==> b <= u < b + n
    ensures forall u :: u in r ==> r[u] == Live(b)
  {
    map u | u in Range(b, n) :: Live(b)
  }

  lemma FreshKeys(b: int, n: int)
    ensures Fresh(b, n).Keys == Range(b, n)
  {
  }

  /** `n` fresh units at `b` become a live block. */
  function Grow(t: Tiles, b: int, n: int): Tiles {
    Tiles(t.free, t.live[b := n], t.cell + Fresh(b, n))
  }

  function Release(t: Tiles, b: int): Tiles
    requires b in t.live
  {
    Tiles(t.free[b := t.live[b]], t.live - {b}, Retag(t.cell, b, t.live[b], Free(b)))
  }

  function Join(t: Tiles, p: int, q: int): Tiles
    requires p in t.free && q in t.free
  {
    Tiles((t.free - {q})[p := t.free[p] + t.free[q]], t.live, Retag(t.cell, q, t.free[q], Free(p)))
  }

  /** Hands out the last `n` units of free block `p`. */
  function Hand(t: Tiles, p: int, n: int): Tiles
    requires p in t.free
  {
    var q := p + t.free[p] - n;
    Tiles(if q == p then t.free - {p} else t.free[p := t.free[p] - n], t.live[q := n], Retag(t.cell, q, n, Live(q)))
  }

  lemma GrowTiled(t: Tiles, b: int, n: int)
    requires Tiled(t) && n >= 1 && forall u :: b <= u < b + n ==> u !in t.cell
    ensures Tiled(Grow(t, b, n))
  {
    var r := Grow(t, b, n);
    assert b !in t.cell;
    assert b in t.live ==> LiveOk(t, b);
    assert b !in t.live;
    forall x | x in r.live ensures LiveOk(r, x) {
      assert x != b ==> LiveOk(t, x);
    }
    forall x | x in r.free ensures FreeOk(r, x) {
      assert FreeOk(t, x);
    }
    forall u | u in r.cell ensures CellOk(r, u) {
      if u in t.cell {
        assert CellOk(t, u);
      }
    }
  }

  lemma ReleaseTiled(t: Tiles, b: int)
    requires Tiled(t) && b in t.live
    ensures Tiled(Release(t, b))
  {
    var r := Release(t, b);
    assert LiveOk(t, b);
    forall x | x in r.free ensures FreeOk(r, x) {
      if x != b {
        assert FreeOk(t, x);
      }
    }
    forall x | x in r.live ensures LiveOk(r, x) {
      assert LiveOk(t, x);
    }
    forall u | u in r.cell ensures CellOk(r, u) {
      assert CellOk(t, u);
      if b in t.free {
        assert FreeOk(t, b) && t.cell[b] == Free(b);
      }
    }
  }

  lemma JoinTiled(t: Tiles, p: int, q: int)
    requires Tiled(t) && p in t.free && q in t.free && p + t.free[p] == q
    ensures Tiled(Join(t, p, q))
  {
    var r := Join(t, p, q);
    assert FreeOk(t, p) && FreeOk(t, q);
    forall x | x in r.free ensures FreeOk(r, x) {
      assert FreeOk(t, x);
    }
    forall x | x in r.live ensures LiveOk(r, x) {
      assert LiveOk(t, x);
    }
    forall u | u in r.cell ensures CellOk(r, u) {
      assert CellOk(t, u);
    }
  }

  lemma HandFree(t: Tiles, p: int, n: int, x: int)
    requires Tiled(t) && p in t.free && 1 <= n <= t.free[p] && x in Hand(t, p, n).free
    ensures FreeOk(Hand(t, p, n), x)
  {
    var r := Hand(t, p, n);
    var q := p + t.free[p] - n;
    assert FreeOk(t, x) && FreeOk(t, p);
    forall u | x <= u < x + r.free[x] ensures u in r.cell && r.cell[u] == Free(x) {
      assert t.cell[u] == Free(x);
      BlocksDisjoint(t, p, x, u);
    }
  }

  lemma HandTiled(t: Tiles, p: int, n: int)
    requires Tiled(t) && p in t.free && 1 <= n <= t.free[p]
    ensures Tiled(Hand(t, p, n))
  {
    var r := Hand(t, p, n);
    var q := p + t.free[p] - n;
    assert FreeOk(t, p) && t.cell[q] == Free(p);
    assert q in t.live ==> LiveOk(t, q);
    assert q in t.free ==> FreeOk(t, q);
    forall x | x in r.free ensures FreeOk(r, x) {
      HandFree(t, p, n, x);
    }
    forall x | x in r.live ensures LiveOk(r, x) {
      assert x != q ==> LiveOk(t, x);
    }
    forall u | u in r.cell ensures CellOk(r, u) {
      assert CellOk(t, u);
    }
  }
}
