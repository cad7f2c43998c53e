/** The three-level page tables of kernel/vm.c over physical pages, and which
    page table, process or free list each physical page belongs to. */
module PageTable {
  import opened DistinctElements

  const PGSIZE: nat := 4096
  const TRAMPOLINE: nat := 0x3ff_ffff    // page number of the highest page below MAXVA
  const TRAPFRAME: nat := 0x3ff_fffe
  const MAXVPN: nat := 0x400_0000        // MAXVA / PGSIZE

  /** A page table entry: physical page number and the low ten bits. */
  datatype Pte = Pte(ppn: nat, flags: bv10)

  predicate IsValid(f: bv10) { f & 1 != 0 }

  /** Some of R, W, X is set. */
  predicate IsLeaf(f: bv10) { f & 14 != 0 }

  predicate IsWritable(f: bv10) { f & 4 != 0 }

  predicate IsUser(f: bv10) { f & 16 != 0 }

  const NoPte := Pte(0, 0)

  /** What a physical page holds. */
  datatype Page = Table(ptes: seq<Pte>) | Bytes(bytes: seq<int>)

  function ZeroTable(): (p: Page)
    ensures p.Table? && |p.ptes| == 512 && forall k :: 0 <= k < 512 ==> p.ptes[k] == NoPte
  {
    Table(seq(512, k => NoPte))
  }

  function Filled(x: int): (p: Page)
    ensures p.Bytes? && |p.bytes| == 4096 && forall k :: 0 <= k < 4096 ==> p.bytes[k] == x
  {
    Bytes(seq(4096, k => x))
  }

  /** Physical memory from page `lo` on is allocatable; page 0 stands for a null pointer.
      Address space `a` has its top table at root[a] and its trapframe at frame[a]. */
  datatype Mem = Mem(lo: nat, pages: seq<Page>, root: seq<nat>, frame: seq<nat>)

  /** Position in the tree of address space `a`: depth 0 is the top table, depth
      3 a mapped page, and `i` the page-number prefix that leads there. */
  datatype Loc = Loc(a: nat, d: nat, i: nat) | Frame(a: nat)

  predicate Shape(m: Mem) {
    0 < m.lo <= |m.pages| && |m.root| == |m.frame|
  }

  function Width(d: nat): nat
    requires d <= 3
  {
    [1, 512, 0x4_0000, 0x800_0000][d]
  }

  predicate InTree(m: Mem, l: Loc) {
    l.Loc? && l.a < |m.root| && l.d <= 3 && l.i < Width(l.d)
  }

  predicate Special(l: Loc) {
    l.Loc? && l.d == 3 && (l.i == TRAMPOLINE || l.i == TRAPFRAME)
  }

  /** Positions that own the page found there. */
  predicate Ownable(m: Mem, l: Loc) {
    if l.Frame? then l.a < |m.frame| else InTree(m, l) && !Special(l)
  }

  function Parent(l: Loc): Loc
    requires l.Loc? && l.d > 0
  {
    Loc(l.a, l.d - 1, l.i / 512)
  }

  function Child(l: Loc, k: nat): Loc
    requires l.Loc?
  {
    Loc(l.a, l.d + 1, l.i * 512 + k)
  }

  lemma ParentChild(m: Mem, l: Loc, k: nat)
    requires l.Loc? && k < 512
    ensures Parent(Child(l, k)) == l && Child(l, k).i % 512 == k
    ensures l.d < 3 && InTree(m, l) ==> InTree(m, Child(l, k)) && !Special(l) && Ownable(m, l)
  {
  }

  lemma ChildParent(m: Mem, l: Loc)
    requires l.Loc? && l.d > 0
    ensures Child(Parent(l), l.i % 512) == l
    ensures InTree(m, l) ==> InTree(m, Parent(l)) && Ownable(m, Parent(l))
  {
  }

  function Entry(m: Mem, t: nat, k: nat): Pte {
    if t < |m.pages| && m.pages[t].Table? && k < |m.pages[t].ptes| then m.pages[t].ptes[k] else NoPte
  }

  function Next(e: Pte): nat {
    if IsValid(e.flags) then e.ppn else 0
  }

  /** The physical page at a position of the tree; 0 if the path does not exist. */
  function At(m: Mem, l: Loc): nat
    requires Shape(m) && (InTree(m, l) || Ownable(m, l))
    decreases if l.Frame? then 0 else l.d, 1
  {
    if l.Frame? then m.frame[l.a]
    else if l.d == 0 then m.root[l.a]
    else Next(PteAt(m, l))
  }

  /** The entry that leads to a position, NoPte if the table for it does not exist. */
  function PteAt(m: Mem, l: Loc): Pte
    requires Shape(m) && InTree(m, l) && l.d > 0
    decreases l.d, 0
  {
    ChildParent(m, l);
    if At(m, Parent(l)) == 0 then NoPte else Entry(m, At(m, Parent(l)), l.i % 512)
  }

  /** The entry for virtual page `vpn` of address space `a`: the finite map that the tree implements. */
  function Lookup(m: Mem, a: nat, vpn: nat): Pte
    requires Shape(m) && a < |m.root| && vpn < MAXVPN
  {
    PteAt(m, Loc(a, 3, vpn))
  }

  lemma LeafEntry(m: Mem, a: nat, vpn: nat)
    requires Shape(m) && a < |m.root| && vpn < MAXVPN
    ensures InTree(m, Loc(a, 2, vpn / 512)) && InTree(m, Loc(a, 3, vpn))
    ensures var t := At(m, Loc(a, 2, vpn / 512));
            && Lookup(m, a, vpn) == (if t == 0 then NoPte else Entry(m, t, vpn % 512))
            && At(m, Loc(a, 3, vpn)) == Next(Lookup(m, a, vpn))
            && Child(Loc(a, 2, vpn / 512), vpn % 512) == Loc(a, 3, vpn)
  {
    assert Parent(Loc(a, 3, vpn)) == Loc(a, 2, vpn / 512);
  }

  // ---- ownership

  predicate LocOwned(m: Mem, o: map<nat, Loc>, l: Loc)
    requires Shape(m) && Ownable(m, l)
  {
    At(m, l) != 0 ==> At(m, l) in o && o[At(m, l)] == l
  }

  ghost predicate LocsOwned(m: Mem, o: map<nat, Loc>)
    requires Shape(m)
  {
    forall l :: Ownable(m, l) ==> LocOwned(m, o, l)
  }

  /** Page `p` holds what its role says. */
  predicate PageOk(m: Mem, l: Loc, p: nat)
    requires p < |m.pages|
  {
    if l.Loc? && l.d < 3 then
      && m.pages[p].Table? && |m.pages[p].ptes| == 512
      && forall k :: 0 <= k < 512 && IsValid(m.pages[p].ptes[k].flags) ==>
                       m.pages[p].ptes[k].ppn != 0 && (IsLeaf(m.pages[p].ptes[k].flags) <==> l.d == 2)
    else m.pages[p].Bytes? && |m.pages[p].bytes| == 4096
  }

  ghost predicate OwnersHold(m: Mem, o: map<nat, Loc>)
    requires Shape(m)
  {
    forall p :: p in o ==>
                  m.lo <= p < |m.pages| && Ownable(m, o[p]) && At(m, o[p]) == p && PageOk(m, o[p], p)
  }

  /** Each allocatable page is either free, or owned by one position, or in `pend`:
      allocated but not linked anywhere yet. */
  ghost predicate FreeOk(m: Mem, o: map<nat, Loc>, free: seq<nat>, pend: set<nat>) {
    && Distinct(free)
    && (forall p :: p in free ==> m.lo <= p < |m.pages|)
    && (forall p :: m.lo <= p < |m.pages| ==> (p in free <==> p !in o && p !in pend))
    && (forall p :: p in pend ==> p !in o && m.lo <= p < |m.pages|)
  }

  /** The two pages at the top of the address space are not for the user, and
      nothing is mapped from MAXVA on. */
  ghost predicate TopOk(m: Mem)
    requires Shape(m)
  {
    && (forall l :: InTree(m, l) && l.d == 3 && l.i >= MAXVPN ==> At(m, l) == 0)
    && forall a :: 0 <= a < |m.root| ==> !IsUser(Lookup(m, a, TRAMPOLINE).flags) && !IsUser(Lookup(m, a, TRAPFRAME).flags)
  }

  ghost predicate Owned(m: Mem, o: map<nat, Loc>, free: seq<nat>, pend: set<nat>) {
    Shape(m) && LocsOwned(m, o) && OwnersHold(m, o) && FreeOk(m, o, free, pend)
  }

  /** Every allocatable page is in exactly one place: the free list, one page-table
      tree (as a node), one user mapping, or one trapframe. */
  lemma OnePlace(m: Mem, o: map<nat, Loc>, free: seq<nat>, p: nat)
    requires Owned(m, o, free, {}) && m.lo <= p < |m.pages|
    ensures p !in free <==> exists l :: Ownable(m, l) && At(m, l) == p
    ensures forall l, l' :: Ownable(m, l) && At(m, l) == p && Ownable(m, l') && At(m, l') == p ==> l == l'
    ensures forall i, j :: 0 <= i < j < |free| ==> free[i] != free[j]
  {
    hide At;
    if p !in free {
      assert Ownable(m, o[p]) && At(m, o[p]) == p;
    }
    forall l, l' | Ownable(m, l) && At(m, l) == p && Ownable(m, l') && At(m, l') == p ensures l == l' {
      assert LocOwned(m, o, l) && LocOwned(m, o, l');
    }
    forall l | Ownable(m, l) && At(m, l) == p ensures p !in free {
      assert LocOwned(m, o, l);
    }
  }

  /** Distinct virtual pages use distinct entries: of the same table with different
      indices, or of different tables. */
  lemma DistinctEntries(m: Mem, o: map<nat, Loc>, a: nat, vpn: nat, b: nat, vpn': nat)
    requires Shape(m) && LocsOwned(m, o) && a < |m.root| && b < |m.root| && vpn < MAXVPN && vpn' < MAXVPN && (a, vpn) != (b, vpn')
    requires InTree(m, Loc(a, 2, vpn / 512)) && InTree(m, Loc(b, 2, vpn' / 512))
    requires At(m, Loc(a, 2, vpn / 512)) != 0 && At(m, Loc(b, 2, vpn' / 512)) != 0
    ensures At(m, Loc(a, 2, vpn / 512)) != At(m, Loc(b, 2, vpn' / 512)) || vpn % 512 != vpn' % 512
  {
    hide At;
    assert LocOwned(m, o, Loc(a, 2, vpn / 512)) && LocOwned(m, o, Loc(b, 2, vpn' / 512));
    assert vpn == vpn / 512 * 512 + vpn % 512 && vpn' == vpn' / 512 * 512 + vpn' % 512;
  }

  // ---- writing one entry

  function SetEntry(m: Mem, t: nat, k: nat, e: Pte): Mem
    requires t < |m.pages| && m.pages[t].Table? && k < |m.pages[t].ptes|
  {
    m.(pages := m.pages[t := Table(m.pages[t].ptes[k := e])])
  }

  lemma EntryAfterSet(m: Mem, t: nat, k: nat, e: Pte, t': nat, k': nat)
    requires t < |m.pages| && m.pages[t].Table? && k < |m.pages[t].ptes|
    ensures Entry(SetEntry(m, t, k, e), t', k') == if t' == t && k' == k then e else Entry(m, t', k')
  {
  }

  /** No page is reached through the entry that is about to be written, and none after it. */
  predicate Childless(m: Mem, t: nat, k: nat, e: Pte) {
    && Next(Entry(m, t, k)) == 0
    && (Next(e) != 0 ==> e.ppn != t && e.ppn < |m.pages| && m.pages[e.ppn] == ZeroTable())
  }

  /** Writing entry `k` of the table at `o[t]` changes that one position of the tree and no other. */
  lemma {:induction false} AfterSet(m: Mem, o: map<nat, Loc>, t: nat, k: nat, e: Pte, l: Loc)
    requires Shape(m) && LocsOwned(m, o) && OwnersHold(m, o) && t in o && o[t].Loc? && o[t].d < 3 && k < 512
    requires o[t].d == 2 || Childless(m, t, k, e)
    requires InTree(m, l) || Ownable(m, l)
    ensures Shape(SetEntry(m, t, k, e))
    ensures var m' := SetEntry(m, t, k, e);
            && (l != Child(o[t], k) ==> At(m', l) == At(m, l))
            && (l != Child(o[t], k) && l.Loc? && l.d > 0 ==> PteAt(m', l) == PteAt(m, l))
            && (l == Child(o[t], k) ==> PteAt(m', l) == e && At(m', l) == Next(e))
    decreases if l.Frame? then 0 else l.d
  {
    hide IsValid, Entry;
    var m' := SetEntry(m, t, k, e);
    var c := Child(o[t], k);
    ParentChild(m, o[t], k);
    if l.Loc? && l.d > 0 {
      var p := Parent(l);
      ChildParent(m, l);
      AfterSet(m, o, t, k, e, p);
      EntryAfterSet(m, t, k, e, At(m, p), l.i % 512);
      if p == c {
        AfterSet(m, o, t, k, e, o[t]);
        BelowEmpty(m, t, k, e, o[t], l);
      } else {
        assert At(m', p) == At(m, p);
        assert LocOwned(m, o, p);
      }
    }
  }

  lemma BelowEmpty(m: Mem, t: nat, k: nat, e: Pte, l0: Loc, l: Loc)
    requires Shape(m) && t < |m.pages| && t != 0 && m.pages[t].Table? && k < |m.pages[t].ptes|
    requires InTree(m, l0) && At(m, l0) == t && l0.d < 3 && k < 512 && Childless(m, t, k, e)
    requires InTree(m, l) && l.d > 0 && Parent(l) == Child(l0, k)
    requires Shape(SetEntry(m, t, k, e)) && At(SetEntry(m, t, k, e), l0) == t
    ensures PteAt(m, l) == NoPte == PteAt(SetEntry(m, t, k, e), l)
  {
    hide IsValid;
    var m' := SetEntry(m, t, k, e);
    var c := Child(l0, k);
    ParentChild(m, l0, k);
    assert PteAt(m, c) == Entry(m, t, k);
    assert PteAt(m', c) == Entry(m', t, k) == e;
  }

  // ---- writing a page that is no table

  function PutPage(m: Mem, p: nat, x: Page): Mem
    requires p < |m.pages|
  {
    m.(pages := m.pages[p := x])
  }

  predicate NoTable(o: map<nat, Loc>, p: nat) {
    p in o ==> o[p].Frame? || o[p].d >= 3
  }

  lemma {:induction false} AfterWrite(m: Mem, o: map<nat, Loc>, p: nat, x: Page, l: Loc)
    requires Shape(m) && LocsOwned(m, o) && 0 < p < |m.pages| && NoTable(o, p)
    requires InTree(m, l) || Ownable(m, l)
    ensures Shape(PutPage(m, p, x)) && At(PutPage(m, p, x), l) == At(m, l)
    ensures l.Loc? && l.d > 0 ==> PteAt(PutPage(m, p, x), l) == PteAt(m, l)
    decreases if l.Frame? then 0 else l.d
  {
    hide IsValid;
    if l.Loc? && l.d > 0 {
      ChildParent(m, l);
      AfterWrite(m, o, p, x, Parent(l));
      assert LocOwned(m, o, Parent(l));
    }
  }

  /** New bytes for a mapped page or trapframe. */
  lemma BytesOwned(m: Mem, o: map<nat, Loc>, free: seq<nat>, pend: set<nat>, p: nat, x: Page)
    requires Owned(m, o, free, pend) && p in o && (o[p].Frame? || o[p].d >= 3) && x.Bytes? && |x.bytes| == 4096
    ensures p < |m.pages| && Owned(PutPage(m, p, x), o, free, pend)
  {
    hide At;
    var m' := PutPage(m, p, x);
    forall l | InTree(m, l) || Ownable(m, l) ensures Shape(m') && At(m', l) == At(m, l) {
      AfterWrite(m, o, p, x, l);
    }
    forall l | Ownable(m', l) ensures LocOwned(m', o, l) {
      assert LocOwned(m, o, l);
    }
  }

  /** `kalloc` takes the head of the free list. */
  lemma AllocOwned(m: Mem, o: map<nat, Loc>, free: seq<nat>, pend: set<nat>, b: nat, x: Page)
    requires Owned(m, o, [b] + free, pend)
    ensures b < |m.pages| && b != 0 && b !in o && b !in pend && Owned(PutPage(m, b, x), o, free, pend + {b})
  {
    hide At;
    assert ([b] + free)[0] == b && ([b] + free)[1..] == free;
    assert b in [b] + free;
    var m' := PutPage(m, b, x);
    forall l | InTree(m, l) || Ownable(m, l) ensures Shape(m') && At(m', l) == At(m, l) {
      AfterWrite(m, o, b, x, l);
    }
    forall l | Ownable(m', l) ensures LocOwned(m', o, l) {
      assert LocOwned(m, o, l);
    }
    assert Distinct(free) by {
      forall i, j | 0 <= i < j < |free| ensures free[i] != free[j] {
        assert ([b] + free)[i + 1] == free[i] && ([b] + free)[j + 1] == free[j];
      }
    }
    assert b !in free by {
      forall i | 0 <= i < |free| ensures free[i] != b {
        assert ([b] + free)[i + 1] == free[i];
      }
    }
    assert PagesKept(m, m', {b});
    assert forall p :: p in free ==> p in [b] + free;
  }

  ghost predicate PagesKept(m: Mem, m': Mem, except: set<nat>) {
    |m'.pages| == |m.pages| && forall p :: 0 <= p < |m.pages| && p !in except ==> m'.pages[p] == m.pages[p]
  }

  lemma DistinctCons(b: nat, free: seq<nat>)
    requires Distinct(free) && b !in free
    ensures Distinct([b] + free)
  {
  }

  /** `kfree` of a page that was allocated and linked nowhere. */
  lemma FreeOwned(m: Mem, o: map<nat, Loc>, free: seq<nat>, pend: set<nat>, b: nat, x: Page)
    requires Owned(m, o, free, pend + {b}) && b !in pend
    ensures m.lo <= b < |m.pages| && b !in free && Owned(PutPage(m, b, x), o, [b] + free, pend)
  {
    hide At;
    var m' := PutPage(m, b, x);
    forall l | InTree(m, l) || Ownable(m, l) ensures Shape(m') && At(m', l) == At(m, l) {
      AfterWrite(m, o, b, x, l);
    }
    forall l | Ownable(m', l) ensures LocOwned(m', o, l) {
      assert LocOwned(m, o, l);
    }
    DistinctCons(b, free);
  }

  // ---- linking and unlinking pages

  /** A fresh page is linked into an empty entry: a zeroed table above the last
      level, a page of bytes on the last. */
  lemma LinkOwned(m: Mem, o: map<nat, Loc>, free: seq<nat>, pend: set<nat>, t: nat, k: nat, b: nat, e: Pte)
    requires Owned(m, o, free, pend + {b}) && b !in pend && t in o && o[t].Loc? && o[t].d < 3 && k < 512 && b < |m.pages|
    requires e.ppn == b && IsValid(e.flags) && (IsLeaf(e.flags) <==> o[t].d == 2) && Next(Entry(m, t, k)) == 0
    requires if o[t].d < 2 then m.pages[b] == ZeroTable()
             else !Special(Child(o[t], k)) && m.pages[b].Bytes? && |m.pages[b].bytes| == 4096
    ensures t < |m.pages| && m.pages[t].Table? && k < |m.pages[t].ptes|
    ensures Owned(SetEntry(m, t, k, e), o[b := Child(o[t], k)], free, pend)
  {
    hide At, IsValid, IsLeaf;
    var c := Child(o[t], k);
    var m', o' := SetEntry(m, t, k, e), o[b := c];
    ParentChild(m, o[t], k);
    forall l | InTree(m, l) || Ownable(m, l)
      ensures Shape(m') && At(m', l) == if l == c then b else At(m, l)
    {
      AfterSet(m, o, t, k, e, l);
    }
    AfterSet(m, o, t, k, e, c);
    forall l | Ownable(m', l) ensures LocOwned(m', o', l) {
      if l != c {
        assert LocOwned(m, o, l);
      }
    }
    WasEmpty(m, o[t], k);
    PageOkSet(m, t, k, e, o[t]);
    forall p | p in o' ensures m.lo <= p < |m.pages| && Ownable(m', o'[p]) && At(m', o'[p]) == p && PageOk(m', o'[p], p) {
      hide PageOk;
      assert p in o ==> o[p] != c;
      assert p in o ==> PageOk(m, o[p], p);
      if p != t {
        PageOkKept(m, m', o'[p], p);
      }
      NewPageOk(m', c, b);
    }
  }

  lemma PageOkSet(m: Mem, t: nat, k: nat, e: Pte, l: Loc)
    requires t < |m.pages| && PageOk(m, l, t) && l.Loc? && l.d < 3 && k < 512
    requires IsValid(e.flags) ==> e.ppn != 0 && (IsLeaf(e.flags) <==> l.d == 2)
    ensures PageOk(SetEntry(m, t, k, e), l, t)
  {
    hide IsValid, IsLeaf;
  }

  lemma PageOkKept(m: Mem, m': Mem, l: Loc, p: nat)
    requires p < |m.pages| && p < |m'.pages| && m'.pages[p] == m.pages[p]
    ensures PageOk(m', l, p) == PageOk(m, l, p)
  {
  }

  lemma NewPageOk(m: Mem, l: Loc, b: nat)
    requires b < |m.pages| && l.Loc?
    requires if l.d < 3 then m.pages[b] == ZeroTable() else m.pages[b].Bytes? && |m.pages[b].bytes| == 4096
    ensures PageOk(m, l, b)
  {
  }

  lemma WasEmpty(m: Mem, l: Loc, k: nat)
    requires Shape(m) && InTree(m, l) && l.d < 3 && k < 512 && At(m, l) != 0 && Next(Entry(m, At(m, l), k)) == 0
    ensures InTree(m, Child(l, k)) && PteAt(m, Child(l, k)) == Entry(m, At(m, l), k) && At(m, Child(l, k)) == 0
  {
    ParentChild(m, l, k);
  }

  lemma PteOfEntry(m: Mem, l: Loc, k: nat)
    requires Shape(m) && InTree(m, l) && l.d < 3 && k < 512 && At(m, l) != 0
    ensures InTree(m, Child(l, k)) && PteAt(m, Child(l, k)) == Entry(m, At(m, l), k)
    ensures At(m, Child(l, k)) == Next(Entry(m, At(m, l), k))
  {
    ParentChild(m, l, k);
  }

  /** The entry of one of the two shared pages is set or cleared. */
  lemma SpecialOwned(m: Mem, o: map<nat, Loc>, free: seq<nat>, pend: set<nat>, t: nat, k: nat, e: Pte)
    requires Owned(m, o, free, pend) && t in o && o[t].Loc? && o[t].d == 2 && k < 512 && Special(Child(o[t], k))
    requires IsValid(e.flags) ==> e.ppn != 0 && IsLeaf(e.flags)
    ensures t < |m.pages| && m.pages[t].Table? && k < |m.pages[t].ptes|
    ensures Owned(SetEntry(m, t, k, e), o, free, pend)
  {
    hide At, IsValid, IsLeaf;
    var m' := SetEntry(m, t, k, e);
    forall l | Ownable(m, l) ensures Shape(m') && At(m', l) == At(m, l) {
      AfterSet(m, o, t, k, e, l);
    }
    forall l | Ownable(m', l) ensures LocOwned(m', o, l) {
      assert LocOwned(m, o, l);
    }
    assert Shape(m') by {
      AfterSet(m, o, t, k, e, o[t]);
    }
  }

  /** A mapped page is freed and its entry cleared, in the order of the code. */
  lemma UnlinkOwned(m: Mem, o: map<nat, Loc>, free: seq<nat>, pend: set<nat>, t: nat, k: nat, p: nat, x: Page)
    requires Owned(m, o, free, pend) && t in o && o[t].Loc? && o[t].d == 2 && k < 512 && !Special(Child(o[t], k))
    requires p == Next(Entry(m, t, k)) && p != 0 && x.Bytes? && |x.bytes| == 4096
    ensures p in o && o[p] == Child(o[t], k) && m.lo <= p < |m.pages| && p !in free && t != p
    ensures t < |m.pages| && m.pages[t].Table? && k < |m.pages[t].ptes|
    ensures Owned(SetEntry(PutPage(m, p, x), t, k, NoPte), o - {p}, [p] + free, pend)
  {
    hide At, IsValid, IsLeaf;
    var c := Child(o[t], k);
    PteOfEntry(m, o[t], k);
    ParentChild(m, o[t], k);
    assert LocOwned(m, o, c);
    BytesOwned(m, o, free, pend, p, x);
    var m1 := PutPage(m, p, x);
    var m', o' := SetEntry(m1, t, k, NoPte), o - {p};
    IsNotValid();
    forall l | InTree(m, l) || Ownable(m, l)
      ensures Shape(m') && At(m', l) == if l == c then 0 else At(m1, l)
    {
      AfterSet(m1, o, t, k, NoPte, l);
    }
    forall l | Ownable(m', l) ensures LocOwned(m', o', l) {
      assert LocOwned(m1, o, l);
    }
    AfterSet(m1, o, t, k, NoPte, c);
    DistinctCons(p, free);
  }

  lemma IsNotValid()
    ensures !IsValid(0) && !IsUser(0) && Next(NoPte) == 0
  {
  }

  // ---- what stays visible

  /** The mapping at leaf position `l`, and the bytes of its page, are the same. */
  predicate LeafKept(m: Mem, m': Mem, l: Loc)
    requires Shape(m) && Shape(m') && InTree(m, l) && InTree(m', l) && l.Loc? && l.d == 3
  {
    && PteAt(m', l) == PteAt(m, l)
    && (At(m, l) != 0 && !Special(l) ==>
          At(m, l) < |m.pages| && At(m, l) < |m'.pages| && m'.pages[At(m, l)] == m.pages[At(m, l)])
  }

  predicate FrameKept(m: Mem, m': Mem, a: nat)
    requires Shape(m) && Shape(m') && a < |m.frame| && a < |m'.frame|
  {
    m.frame[a] != 0 ==>
      && m'.frame[a] == m.frame[a] && m.frame[a] < |m.pages| && m.frame[a] < |m'.pages|
      && m'.pages[m.frame[a]] == m.pages[m.frame[a]]
  }

  /** All mappings and trapframes are the same, except for virtual pages
      [from, to) of address space `a`. */
  ghost predicate KeptBut(m: Mem, m': Mem, a: nat, from: nat, to: nat) {
    && Shape(m) && Shape(m') && |m'.root| == |m.root| && |m'.pages| == |m.pages| && m'.lo == m.lo
    && (forall l :: InTree(m, l) && l.d == 3 && !(l.a == a && from <= l.i < to) ==> LeafKept(m, m', l))
    && (forall b :: 0 <= b < |m.frame| ==> FrameKept(m, m', b))
  }

  ghost predicate Kept(m: Mem, m': Mem) {
    KeptBut(m, m', 0, 0, 0)
  }

  lemma KeptTrans(m: Mem, m1: Mem, m2: Mem, a: nat, from: nat, to: nat, a1: nat, from1: nat, to1: nat, a2: nat, from2: nat, to2: nat)
    requires KeptBut(m, m1, a1, from1, to1) && (from1 >= to1 || (a1 == a && from <= from1 && to1 <= to))
    requires KeptBut(m1, m2, a2, from2, to2) && (from2 >= to2 || (a2 == a && from <= from2 && to2 <= to))
    ensures KeptBut(m, m2, a, from, to)
  {
    hide PteAt;
    forall l | InTree(m, l) && l.d == 3 && !(l.a == a && from <= l.i < to) ensures LeafKept(m, m2, l) {
      assert LeafKept(m, m1, l) && LeafKept(m1, m2, l);
    }
    forall b | 0 <= b < |m.frame| ensures FrameKept(m, m2, b) {
      assert FrameKept(m, m1, b) && FrameKept(m1, m2, b);
    }
  }

  lemma KeptBoth(m: Mem, m1: Mem, m2: Mem)
    requires Kept(m, m1) && Kept(m1, m2)
    ensures Kept(m, m2)
  {
    KeptTrans(m, m1, m2, 0, 0, 0, 0, 0, 0, 0, 0, 0);
  }

  /** Nothing outside the range changes, then nothing at all. */
  lemma KeptThen(m: Mem, m1: Mem, m2: Mem, a: nat, from: nat, to: nat)
    requires KeptBut(m, m1, a, from, to) && Kept(m1, m2)
    ensures KeptBut(m, m2, a, from, to)
  {
    KeptTrans(m, m1, m2, a, from, to, a, from, to, 0, 0, 0);
  }

  lemma KeptWide(m: Mem, m1: Mem, a: nat, from: nat, to: nat)
    requires Kept(m, m1)
    ensures KeptBut(m, m1, a, from, to)
  {
    forall l | InTree(m, l) && l.d == 3 ensures LeafKept(m, m1, l) {
    }
  }

  lemma KeptSelf(m: Mem, o: map<nat, Loc>)
    requires Shape(m) && LocsOwned(m, o) && OwnersHold(m, o)
    ensures Kept(m, m)
  {
    hide PteAt;
    forall l | Ownable(m, l) ensures At(m, l) != 0 ==> At(m, l) < |m.pages| {
      assert LocOwned(m, o, l);
    }
    forall b | 0 <= b < |m.frame| ensures FrameKept(m, m, b) {
      assert At(m, Frame(b)) == m.frame[b];
    }
  }

  lemma TopKept(m: Mem, m': Mem, a: nat, from: nat, to: nat)
    requires KeptBut(m, m', a, from, to) && TopOk(m) && (to <= TRAPFRAME || from >= to)
    requires m'.frame == m.frame
    ensures TopOk(m')
  {
    hide PteAt;
    forall l | InTree(m', l) && l.d == 3 && l.i >= MAXVPN ensures At(m', l) == 0 {
      assert LeafKept(m, m', l);
    }
    forall b | 0 <= b < |m.root|
      ensures Lookup(m', b, TRAMPOLINE) == Lookup(m, b, TRAMPOLINE) && Lookup(m', b, TRAPFRAME) == Lookup(m, b, TRAPFRAME)
    {
      assert LeafKept(m, m', Loc(b, 3, TRAMPOLINE)) && LeafKept(m, m', Loc(b, 3, TRAPFRAME));
    }
  }

  /** Writing a page that nothing refers to is invisible. */
  lemma WriteKept(m: Mem, o: map<nat, Loc>, p: nat, x: Page)
    requires Shape(m) && LocsOwned(m, o) && OwnersHold(m, o) && 0 < p < |m.pages| && p !in o
    ensures Kept(m, PutPage(m, p, x))
  {
    hide PteAt, At;
    var m' := PutPage(m, p, x);
    assert Shape(m');
    forall l | InTree(m, l) && l.d == 3 ensures LeafKept(m, m', l) {
      AfterWrite(m, o, p, x, l);
      assert Ownable(m, l) ==> LocOwned(m, o, l);
    }
    FramesOwned(m, o);
  }

  lemma FramesOwned(m: Mem, o: map<nat, Loc>)
    requires Shape(m) && LocsOwned(m, o)
    ensures forall b :: 0 <= b < |m.frame| && m.frame[b] != 0 ==> m.frame[b] in o && o[m.frame[b]] == Frame(b)
  {
    forall b | 0 <= b < |m.frame| && m.frame[b] != 0 ensures m.frame[b] in o && o[m.frame[b]] == Frame(b) {
      assert LocOwned(m, o, Frame(b));
    }
  }

  /** Writing entry `k` of a table shows at most at the one position below it. */
  lemma SetKept(m: Mem, o: map<nat, Loc>, t: nat, k: nat, e: Pte)
    requires Shape(m) && LocsOwned(m, o) && OwnersHold(m, o) && t in o && o[t].Loc? && o[t].d < 3 && k < 512
    requires o[t].d == 2 || Childless(m, t, k, e)
    ensures var m' := SetEntry(m, t, k, e);
            if o[t].d == 2 then KeptBut(m, m', o[t].a, Child(o[t], k).i, Child(o[t], k).i + 1) else Kept(m, m')
  {
    hide PteAt, At, IsValid;
    var m' := SetEntry(m, t, k, e);
    forall l | InTree(m, l) && l.d == 3 && !(o[t].d == 2 && l.a == o[t].a && l.i == Child(o[t], k).i)
      ensures Shape(m') && LeafKept(m, m', l)
    {
      AfterSet(m, o, t, k, e, l);
      assert Ownable(m, l) ==> LocOwned(m, o, l);
    }
    AfterSet(m, o, t, k, e, o[t]);
    FramesOwned(m, o);
  }

  /** Writing a mapped page shows at its one position only. */
  lemma WriteShows(m: Mem, o: map<nat, Loc>, p: nat, x: Page)
    requires Shape(m) && LocsOwned(m, o) && OwnersHold(m, o) && p in o && o[p].Loc? && o[p].d == 3
    ensures p < |m.pages| && KeptBut(m, PutPage(m, p, x), o[p].a, o[p].i, o[p].i + 1)
  {
    hide PteAt, At;
    var m' := PutPage(m, p, x);
    assert Shape(m');
    forall l | InTree(m, l) && l.d == 3 && l != o[p] ensures LeafKept(m, m', l) {
      AfterWrite(m, o, p, x, l);
      assert Ownable(m, l) ==> LocOwned(m, o, l);
    }
    FramesOwned(m, o);
  }

  // ---- dropping a whole tree

  /** Table position `x` is `l` or lies below it. */
  predicate Below(x: Loc, l: Loc) {
    && x.Loc? && l.Loc? && x.a == l.a && l.d <= x.d <= 2
    && (x.d == l.d ==> x.i == l.i)
    && (x.d == l.d + 1 ==> x.i / 512 == l.i)
    && (x.d == l.d + 2 ==> x.i / 512 / 512 == l.i)
  }

  ghost function Sub(o: map<nat, Loc>, l: Loc): set<nat> {
    set p | p in o && Below(o[p], l)
  }

  /** Which entry of the table at `l` leads towards `x`. */
  function Towards(x: Loc, l: Loc): nat
    requires Below(x, l)
  {
    if x.d == l.d + 1 then x.i % 512 else x.i / 512 % 512
  }

  /** The tables below the first `k` entries of the table at `l`. */
  ghost function SubUpTo(o: map<nat, Loc>, l: Loc, k: nat): set<nat> {
    set p | p in o && Below(o[p], l) && o[p] != l && Towards(o[p], l) < k
  }

  lemma SubNext(m: Mem, o: map<nat, Loc>, l: Loc, k: nat)
    requires InTree(m, l) && l.d <= 1 && k < 512
    ensures SubUpTo(o, l, k + 1) == SubUpTo(o, l, k) + Sub(o, Child(l, k))
    ensures SubUpTo(o, l, k) !! Sub(o, Child(l, k)) && Sub(o, Child(l, k)) <= Sub(o, l) && SubUpTo(o, l, k) <= Sub(o, l)
    ensures forall p :: p in o && o[p] == l ==> p !in Sub(o, Child(l, k)) && p !in SubUpTo(o, l, k)
  {
    forall p | p in o
      ensures Below(o[p], Child(l, k)) <==> Below(o[p], l) && o[p] != l && Towards(o[p], l) == k
    {
      BelowChild(o[p], l, k);
    }
  }

  lemma BelowChild(x: Loc, l: Loc, k: nat)
    requires l.Loc? && l.d <= 1 && k < 512
    ensures Below(x, Child(l, k)) <==> Below(x, l) && x != l && Towards(x, l) == k
  {
    if x.Loc? && x.d == l.d + 1 {
      assert x.i == x.i / 512 * 512 + x.i % 512;
    } else if x.Loc? && x.d == l.d + 2 {
      assert x.i / 512 == x.i / 512 / 512 * 512 + x.i / 512 % 512;
    }
  }

  lemma SubAll(m: Mem, o: map<nat, Loc>, l: Loc)
    requires Shape(m) && OwnersHold(m, o) && InTree(m, l) && l.d <= 2 && At(m, l) in o && o[At(m, l)] == l
    ensures Sub(o, l) == SubUpTo(o, l, 512) + {At(m, l)} && At(m, l) !in SubUpTo(o, l, 512)
    ensures l.d == 2 ==> SubUpTo(o, l, 512) == {}
  {
    hide At;
    forall p | p in o && o[p] == l ensures p == At(m, l) {
    }
  }

  lemma SubNone(o: map<nat, Loc>, l: Loc)
    ensures SubUpTo(o, l, 0) == {}
    ensures l.Loc? && l.d == 2 ==> forall k :: SubUpTo(o, l, k) == {}
  {
  }

  /** No table hangs below an empty entry. */
  lemma {:induction false} EmptyAbove(m: Mem, x: Loc, c: Loc)
    requires Shape(m) && InTree(m, x) && Below(x, c) && InTree(m, c) && At(m, c) == 0
    ensures At(m, x) == 0
    decreases x.d
  {
    IsNotValid();
    if x.d > c.d {
      ChildParent(m, x);
      BelowParent(x, c);
      EmptyAbove(m, Parent(x), c);
    }
  }

  lemma BelowParent(x: Loc, c: Loc)
    requires Below(x, c) && x.d > c.d
    ensures Below(Parent(x), c)
  {
  }

  /** No page is mapped in address space `a`. */
  ghost predicate NoLeaf(m: Mem, a: nat)
    requires Shape(m)
  {
    a < |m.root| && forall i :: 0 <= i < 0x800_0000 ==> At(m, Loc(a, 3, i)) == 0
  }

  /** In a tree without mapped pages every valid entry leads to a table. */
  lemma OnlyTables(m: Mem, o: map<nat, Loc>, l: Loc, k: nat)
    requires Shape(m) && LocsOwned(m, o) && OwnersHold(m, o) && InTree(m, l) && l.d <= 2 && NoLeaf(m, l.a) && At(m, l) != 0 && k < 512
    ensures At(m, l) in o && o[At(m, l)] == l && At(m, l) < |m.pages| && m.pages[At(m, l)].Table? && |m.pages[At(m, l)].ptes| == 512
    ensures var e := m.pages[At(m, l)].ptes[k];
            && (IsValid(e.flags) ==>
                  && l.d <= 1 && !IsLeaf(e.flags) && InTree(m, Child(l, k)) && At(m, Child(l, k)) == e.ppn
                  && e.ppn in o && o[e.ppn] == Child(l, k) && e.ppn != 0)
            && (!IsValid(e.flags) && l.d <= 1 ==> Sub(o, Child(l, k)) == {})
  {
    hide At, PteAt, IsValid, IsLeaf;
    assert LocOwned(m, o, l);
    var t := At(m, l);
    assert PageOk(m, o[t], t);
    PteOfEntry(m, l, k);
    ParentChild(m, l, k);
    var e := m.pages[t].ptes[k];
    if IsValid(e.flags) {
      assert At(m, Child(l, k)) == e.ppn;
      assert LocOwned(m, o, Child(l, k));
    } else if l.d <= 1 {
      forall p | p in o ensures p !in Sub(o, Child(l, k)) {
        if Below(o[p], Child(l, k)) {
          EmptyAbove(m, o[p], Child(l, k));
        }
      }
    }
  }

  /** The memory after the tree of address space `a` has been freed page by page. */
  ghost function WithoutSpace(o: map<nat, Loc>, a: nat): map<nat, Loc> {
    map p | p in o && !(o[p].Loc? && o[p].a == a) :: o[p]
  }

  lemma {:induction false} OtherTree(m: Mem, m': Mem, o: map<nat, Loc>, a: nat, l: Loc)
    requires Shape(m) && Shape(m') && LocsOwned(m, o) && OwnersHold(m, o) && a < |m.root|
    requires m' == m.(pages := m'.pages, root := m.root[a := 0]) && PagesKept(m, m', Sub(o, Loc(a, 0, 0)))
    requires InTree(m, l) || Ownable(m, l)
    ensures l.Loc? && l.a == a ==> At(m', l) == 0
    ensures l.Frame? || l.a != a ==> At(m', l) == At(m, l) && (l.Loc? && l.d > 0 ==> PteAt(m', l) == PteAt(m, l))
    decreases if l.Frame? then 0 else l.d
  {
    hide IsValid;
    if l.Loc? && l.d > 0 {
      ChildParent(m, l);
      OtherTree(m, m', o, a, Parent(l));
      assert LocOwned(m, o, Parent(l));
      IsNotValid();
    }
  }

  lemma DropSpace(m: Mem, m': Mem, o: map<nat, Loc>, free: seq<nat>, free': seq<nat>, a: nat)
    requires Owned(m, o, free, {}) && Shape(m') && NoLeaf(m, a)
    requires m' == m.(pages := m'.pages, root := m.root[a := 0]) && PagesKept(m, m', Sub(o, Loc(a, 0, 0)))
    requires Distinct(free') && forall p :: p in free' <==> p in free || p in Sub(o, Loc(a, 0, 0))
    ensures Owned(m', WithoutSpace(o, a), free', {}) && KeptBut(m, m', a, 0, 0x800_0000)
  {
    hide At, PteAt, Sub, PageOk, FreeOk;
    DropSpaceKept(m, m', o, a);
    var o' := WithoutSpace(o, a);
    forall l | InTree(m, l) || Ownable(m, l)
      ensures l.Loc? && l.a == a ==> At(m', l) == 0
      ensures l.Frame? || l.a != a ==> At(m', l) == At(m, l)
    {
      OtherTree(m, m', o, a, l);
    }
    forall l | Ownable(m', l) ensures LocOwned(m', o', l) {
      assert LocOwned(m, o, l);
    }
    SpacePages(m, o, a);
    forall p | p in o' ensures PageOk(m', o'[p], p) {
      PageOkKept(m, m', o'[p], p);
    }
    FreeSpace(m, m', o, free, free', a);
  }

  lemma FreeSpace(m: Mem, m': Mem, o: map<nat, Loc>, free: seq<nat>, free': seq<nat>, a: nat)
    requires FreeOk(m, o, free, {}) && |m'.pages| == |m.pages| && m'.lo == m.lo
    requires Distinct(free') && forall p :: p in free' <==> p in free || p in Sub(o, Loc(a, 0, 0))
    requires forall p :: p in o && o[p].Loc? && o[p].a == a <==> p in Sub(o, Loc(a, 0, 0))
    requires forall p :: p in o ==> m.lo <= p < |m.pages|
    ensures FreeOk(m', WithoutSpace(o, a), free', {})
  {
    hide Sub;
  }

  lemma SpacePages(m: Mem, o: map<nat, Loc>, a: nat)
    requires Shape(m) && OwnersHold(m, o) && NoLeaf(m, a)
    ensures forall p :: p in o && o[p].Loc? && o[p].a == a <==> p in Sub(o, Loc(a, 0, 0))
    ensures forall p :: p in o ==> m.lo <= p < |m.pages|
  {
    hide At;
    forall p | p in o && o[p].Loc? && o[p].a == a ensures p in Sub(o, Loc(a, 0, 0)) {
      assert Ownable(m, o[p]) && At(m, o[p]) == p;
      TopCovers(m, o[p], a);
    }
  }

  lemma DropSpaceKept(m: Mem, m': Mem, o: map<nat, Loc>, a: nat)
    requires Shape(m) && LocsOwned(m, o) && OwnersHold(m, o) && Shape(m') && a < |m.root|
    requires m' == m.(pages := m'.pages, root := m.root[a := 0]) && PagesKept(m, m', Sub(o, Loc(a, 0, 0)))
    ensures KeptBut(m, m', a, 0, 0x800_0000)
  {
    hide At, PteAt;
    forall l | InTree(m, l) && l.d == 3 && l.a != a ensures LeafKept(m, m', l) {
      OtherTree(m, m', o, a, l);
      assert Ownable(m, l) ==> LocOwned(m, o, l);
    }
    FramesOwned(m, o);
  }

  lemma TopCovers(m: Mem, x: Loc, a: nat)
    requires InTree(m, x) && x.d <= 2 && x.a == a
    ensures Below(x, Loc(a, 0, 0))
  {
  }
}
