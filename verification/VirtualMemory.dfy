/** The operations of kernel/vm.c and kernel/kalloc.c, and the page-table part of
    kernel/proc.c, updating physical pages and the free list in place. */
module VirtualMemory {
  import opened PageTable
  import opened DistinctElements
  import opened UserMemory
  import opened AddressSpaces

  const MAXVA: nat := 0x40_0000_0000
  const PTE_V: bv10 := 1
  const PTE_R: bv10 := 2
  const PTE_W: bv10 := 4
  const PTE_X: bv10 := 8
  const PTE_U: bv10 := 16

  function PGROUNDUP(sz: nat): nat {
    (sz + 4095) / 4096 * 4096
  }

  function PGROUNDDOWN(a: nat): nat {
    a / 4096 * 4096
  }

  /** The nine bits of `va` that index a table at `level`. */
  function PX(level: nat, va: nat): nat
    requires level <= 2
  {
    va / [0x1000, 0x20_0000, 0x4000_0000][level] % 512
  }

  /** The prefix of virtual page `vpn` that leads to a table at depth `d`. */
  function Prefix(d: nat, vpn: nat): nat
    requires d <= 3
  {
    vpn / [0x800_0000, 0x4_0000, 512, 1][d]
  }

  lemma Indices(va: nat, level: nat)
    requires va < MAXVA && level <= 2
    ensures PX(level, va) == Prefix(3 - level, va / 4096) % 512
    ensures Prefix(3 - level, va / 4096) / 512 == Prefix(2 - level, va / 4096)
    ensures Prefix(3 - level, va / 4096) < Width(3 - level)
    ensures Prefix(0, va / 4096) == 0 && Prefix(3, va / 4096) == va / 4096 < MAXVPN
  {
    var vpn := va / 4096;
    assert va / 0x20_0000 == vpn / 512;
    assert va / 0x4000_0000 == vpn / 512 / 512;
    assert vpn / 0x4_0000 == vpn / 512 / 512;
    assert vpn / 0x800_0000 == 0 == vpn / 512 / 512 / 512;
    assert level == 0 || level == 1 || level == 2;
  }

  datatype Proc = Proc(pagetable: nat, trapframe: nat, sz: nat)

  class Vm {
    const lo: nat
    var pages: seq<Page>
    var free: seq<nat>              // kmem.freelist, head first
    var proc: seq<Proc>             // address space `a` belongs to proc[a]
    ghost var root: seq<nat>
    ghost var frame: seq<nat>
    ghost var owner: map<nat, Loc>

    ghost function M(): Mem
      reads this
    {
      Mem(lo, pages, root, frame)
    }

    ghost predicate Ok(pend: set<nat>)
      reads this
    {
      Owned(M(), owner, free, pend) && TopOk(M())
    }

    static ghost predicate PendSame(m: Mem, m': Mem, pend: set<nat>) {
      forall p :: p in pend ==> p < |m'.pages| && p < |m.pages| && m'.pages[p] == m.pages[p]
    }

    // ---- kalloc.c

    method Kalloc(ghost pend: set<nat>) returns (p: nat)
      requires Ok(pend)
      modifies this`pages, this`free
      ensures p == 0 ==> free == old(free) == [] && pages == old(pages) && Ok(pend)
      ensures p != 0 ==>
                && old(free) == [p] + free && lo <= p < |old(pages)| && pages == old(pages)[p := Filled(5)]
                && p !in owner && p !in pend && Ok(pend + {p})
      ensures Kept(old(M()), M()) && PendSame(old(M()), M(), pend)
    {
      hide At, PteAt, LocsOwned, OwnersHold, TopOk, FreeOk, KeptBut, Lookup;
      KeptSelf(M(), owner);
      PendRange(M(), owner, free, pend);
      if free == [] {
        return 0;
      }
      p := free[0];
      ghost var m := M();
      assert free == [p] + free[1..];
      AllocOwned(m, owner, free[1..], pend, p, Filled(5));
      PendRange(PutPage(m, p, Filled(5)), owner, free[1..], pend + {p});
      WriteKept(m, owner, p, Filled(5));
      TopKept(m, PutPage(m, p, Filled(5)), 0, 0, 0);
      free := free[1..];
      pages := pages[p := Filled(5)];
      assert M() == PutPage(m, p, Filled(5));
    }

    static lemma PendRange(m: Mem, o: map<nat, Loc>, free: seq<nat>, pend: set<nat>)
      requires FreeOk(m, o, free, pend)
      ensures forall p :: p in pend ==> m.lo <= p < |m.pages| && p !in o && p !in free
    {
    }

    /** The requirement rules out freeing a page twice, or one that is not allocatable. */
    method Kfree(p: nat)
      requires lo <= p < |pages| && p !in free
      modifies this`pages, this`free
      ensures free == [p] + old(free) && pages == old(pages)[p := Filled(1)]
    {
      pages := pages[p := Filled(1)];
      free := [p] + free;
    }

    /** `kfree` of a page that was allocated and used for nothing. */
    method KfreeUnused(p: nat, ghost pend: set<nat>)
      requires Ok(pend + {p}) && p !in pend
      modifies this`pages, this`free
      ensures Ok(pend) && free == [p] + old(free) && Kept(old(M()), M()) && PendSame(old(M()), M(), pend) && |pages| == |old(pages)|
    {
      hide At, PteAt, LocsOwned, OwnersHold, TopOk, FreeOk, KeptBut, Lookup;
      ghost var m := M();
      FreeOwned(m, owner, free, pend, p, Filled(1));
      PendRange(m, owner, free, pend + {p});
      WriteKept(m, owner, p, Filled(1));
      TopKept(m, PutPage(m, p, Filled(1)), 0, 0, 0);
      Kfree(p);
      assert M() == PutPage(m, p, Filled(1));
    }

    /** `memset` or `memmove` into a page that is not linked anywhere yet. */
    static lemma FillOwned(m: Mem, o: map<nat, Loc>, free: seq<nat>, pend: set<nat>, p: nat, x: Page)
      requires Owned(m, o, free, pend) && TopOk(m) && p in pend
      ensures m.lo <= p < |m.pages| && Owned(PutPage(m, p, x), o, free, pend) && TopOk(PutPage(m, p, x))
      ensures Kept(m, PutPage(m, p, x))
    {
      hide At, PteAt, TopOk;
      var m' := PutPage(m, p, x);
      forall l | InTree(m, l) || Ownable(m, l) ensures Shape(m') && At(m', l) == At(m, l) {
        AfterWrite(m, o, p, x, l);
      }
      forall l | Ownable(m', l) ensures LocOwned(m', o, l) {
        assert LocOwned(m, o, l);
      }
      WriteKept(m, o, p, x);
      TopKept(m, m', 0, 0, 0);
    }

    // ---- walk

    static lemma TableIs(m: Mem, o: map<nat, Loc>, l: Loc)
      requires Shape(m) && LocsOwned(m, o) && OwnersHold(m, o) && InTree(m, l) && l.d < 3 && At(m, l) != 0
      ensures At(m, l) in o && o[At(m, l)] == l && At(m, l) < |m.pages|
      ensures m.pages[At(m, l)].Table? && |m.pages[At(m, l)].ptes| == 512
      ensures forall k :: 0 <= k < 512 && IsValid(m.pages[At(m, l)].ptes[k].flags) ==> m.pages[At(m, l)].ptes[k].ppn != 0
    {
      hide At;
      assert LocOwned(m, o, l);
    }

    /** The branch of `walk` that makes a new table, from an allocated page. */
    method LinkTable(t: nat, k: nat, b: nat, ghost pend: set<nat>)
      requires Ok(pend + {b}) && b !in pend && t in owner && owner[t].Loc? && owner[t].d < 2 && k < 512
      requires b < |pages| && Next(Entry(M(), t, k)) == 0
      modifies this`pages, this`owner
      ensures t in old(owner) && |pages| == |old(pages)| && Ok(pend) && Kept(old(M()), M()) && PendSame(old(M()), M(), pend)
      ensures owner == old(owner)[b := Child(old(owner)[t], k)] && At(M(), Child(old(owner)[t], k)) == b
    {
      hide At, PteAt, LocsOwned, OwnersHold, TopOk, FreeOk, KeptBut, Lookup, IsValid, IsLeaf;
      ghost var m := M();
      PendRange(m, owner, free, pend + {b});
      FillOwned(m, owner, free, pend + {b}, b, ZeroTable());
      pages := pages[b := ZeroTable()];
      ghost var m1 := M();
      assert m1 == PutPage(m, b, ZeroTable());
      LinkTableSteps(m1, owner, free, pend, t, k, b);
      AfterWriteEntry(m, owner, t, k, b);
      pages := pages[t := Table(pages[t].ptes[k := Pte(b, PTE_V)])];
      assert M() == SetEntry(m1, t, k, Pte(b, PTE_V));
      AfterSet(m1, owner, t, k, Pte(b, PTE_V), Child(owner[t], k));
      owner := owner[b := Child(owner[t], k)];
      TopKept(m1, M(), 0, 0, 0);
      KeptBoth(m, m1, M());
    }

    static lemma LinkTableSteps(m: Mem, o: map<nat, Loc>, free: seq<nat>, pend: set<nat>, t: nat, k: nat, b: nat)
      requires Owned(m, o, free, pend + {b}) && b !in pend && t in o && o[t].Loc? && o[t].d < 2 && k < 512
      requires b < |m.pages| && Next(Entry(m, t, k)) == 0 && m.pages[b] == ZeroTable()
      ensures t < |m.pages| && m.pages[t].Table? && k < |m.pages[t].ptes| && t !in pend && t != b && Childless(m, t, k, Pte(b, PTE_V))
      ensures Next(Pte(b, PTE_V)) == b && InTree(m, Child(o[t], k))
      ensures var m' := SetEntry(m, t, k, Pte(b, PTE_V));
              Owned(m', o[b := Child(o[t], k)], free, pend) && Kept(m, m')
    {
      hide At, PteAt;
      ParentChild(m, o[t], k);
      LinkOwned(m, o, free, pend, t, k, b, Pte(b, PTE_V));
      SetKept(m, o, t, k, Pte(b, PTE_V));
    }

    static lemma AfterWriteEntry(m: Mem, o: map<nat, Loc>, t: nat, k: nat, b: nat)
      requires t in o && b !in o && b < |m.pages|
      ensures Entry(PutPage(m, b, ZeroTable()), t, k) == Entry(m, t, k)
    {
    }

    /** The tables that an allocating walk may still have to make for `vpn`. */
    static function Missing(m: Mem, a: nat, vpn: nat): (n: nat)
      requires Shape(m) && a < |m.root| && vpn < MAXVPN
      ensures n <= 2
    {
      if At(m, Loc(a, 2, vpn / 512)) != 0 then 0 else 2
    }

    /** A mapped page has its tables, and so have its neighbours. */
    static lemma NothingMissing(m: Mem, a: nat, vpn: nat, vpn': nat)
      requires Shape(m) && a < |m.root| && vpn < MAXVPN && vpn' < MAXVPN && vpn / 512 == vpn' / 512 && IsValid(Lookup(m, a, vpn).flags)
      ensures Missing(m, a, vpn') == 0
    {
      LeafEntry(m, a, vpn);
      NoPteInvalid();
      hide At, PteAt, IsValid;
    }

    static lemma NoPteInvalid()
      ensures !IsValid(NoPte.flags)
    {
    }

    static lemma SameMissing(m: Mem, a: nat, vpn: nat, vpn': nat)
      requires Shape(m) && a < |m.root| && vpn < MAXVPN && vpn' < MAXVPN && vpn / 512 == vpn' / 512
      ensures Missing(m, a, vpn') == Missing(m, a, vpn)
    {
    }

    /** `walk`: the table that holds the entry for `va`, which is entry
        PX(0, va) of it; 0 if there is none and none was, or could be, made. */
    method Walk(pt: nat, va: nat, alloc: bool, ghost a: nat, ghost pend: set<nat>) returns (t: nat)
      requires Ok(pend) && a < |root| && root[a] == pt && pt != 0 && va < MAXVA
      modifies this`pages, this`free, this`owner
      ensures Ok(pend) && Kept(old(M()), M()) && PendSame(old(M()), M(), pend)
      ensures !alloc ==> pages == old(pages) && free == old(free) && owner == old(owner)
      ensures t == At(M(), Loc(a, 2, va / 4096 / 512))
      ensures t == 0 && alloc ==> free == [] && |old(free)| < Missing(old(M()), a, va / 4096)
      ensures |free| + 2 >= |old(free)| >= |free| && |pages| == |old(pages)|
      ensures |free| + Missing(old(M()), a, va / 4096) >= |old(free)|
      ensures t != 0 ==> t in owner && owner[t] == Loc(a, 2, va / 4096 / 512) && t < |pages| && pages[t].Table? && |pages[t].ptes| == 512
    {
      hide At, PteAt, LocsOwned, OwnersHold, TopOk, FreeOk, KeptBut, Lookup, IsValid, IsLeaf, PX, Prefix, Width;
      KeptSelf(M(), owner);
      PendRange(M(), owner, free, pend);
      ghost var m0, vpn, made := M(), va / 4096, false;
      t := pt;
      var level := 2;
      RootAt(m0, a, va);
      LastLevel(va);
      LeafEntry(m0, a, vpn);
      while level > 0
        invariant 0 <= level <= 2 && Ok(pend) && Kept(m0, M()) && PendSame(m0, M(), pend)
        invariant t != 0 && InTree(M(), Loc(a, 2 - level, Prefix(2 - level, vpn))) && t == At(M(), Loc(a, 2 - level, Prefix(2 - level, vpn)))
        invariant !alloc ==> pages == m0.pages && free == old(free) && owner == old(owner)
        invariant |free| + 2 - level >= |old(free)| >= |free| && |pages| == |m0.pages|
        invariant if made then At(m0, Loc(a, 2, vpn / 512)) == 0 else M() == m0 && free == old(free)
      {
        ghost var l := Loc(a, 2 - level, Prefix(2 - level, vpn));
        TableIs(M(), owner, l);
        var k := PX(level, va);
        DownOne(M(), l, va, level);
        var e := pages[t].ptes[k];
        if IsValid(e.flags) {
          t := e.ppn;
        } else {
          if !alloc {
            NoneBelow(M(), a, va, level);
            return 0;
          }
          ghost var m1 := M();
          if !made {
            NoneBelow(m1, a, va, level);
            made := true;
          }
          var b := Kalloc(pend);
          KeptBoth(m0, m1, M());
          if b == 0 {
            NoneBelow(M(), a, va, level);
            return 0;
          }
          ghost var m2 := M();
          LinkTable(t, k, b, pend);
          KeptBoth(m0, m2, M());
          t := b;
        }
        level := level - 1;
      }
      LastLevel(va);
      TableIs(M(), owner, Loc(a, 2, Prefix(2, vpn)));
    }

    static lemma RootAt(m: Mem, a: nat, va: nat)
      requires Shape(m) && a < |m.root| && va < MAXVA
      ensures InTree(m, Loc(a, 0, Prefix(0, va / 4096))) && At(m, Loc(a, 0, Prefix(0, va / 4096))) == m.root[a]
    {
      Indices(va, 2);
    }

    static lemma LastLevel(va: nat)
      requires va < MAXVA
      ensures Prefix(2, va / 4096) == va / 4096 / 512
    {
    }

    static lemma DownOne(m: Mem, l: Loc, va: nat, level: nat)
      requires Shape(m) && InTree(m, l) && 1 <= level <= 2 && va < MAXVA
      requires l.d == 2 - level && l.i == Prefix(2 - level, va / 4096) && At(m, l) != 0
      ensures PX(level, va) < 512
      ensures var l' := Loc(l.a, 3 - level, Prefix(3 - level, va / 4096));
              && l' == Child(l, PX(level, va)) && InTree(m, l') && PteAt(m, l') == Entry(m, At(m, l), PX(level, va))
              && At(m, l') == Next(PteAt(m, l'))
    {
      hide PX, Prefix;
      Indices(va, level);
      var l' := Loc(l.a, 3 - level, Prefix(3 - level, va / 4096));
      assert Parent(l') == l;
      PteOfEntry(m, l, PX(level, va));
    }

    static lemma NoneBelow(m: Mem, a: nat, va: nat, level: nat)
      requires Shape(m) && a < |m.root| && 1 <= level <= 2 && va < MAXVA
      requires InTree(m, Loc(a, 3 - level, Prefix(3 - level, va / 4096))) && At(m, Loc(a, 3 - level, Prefix(3 - level, va / 4096))) == 0
      ensures InTree(m, Loc(a, 2, va / 4096 / 512)) && At(m, Loc(a, 2, va / 4096 / 512)) == 0
    {
      Indices(va, 1);
      LastLevel(va);
    }

    // ---- mappages

    static function Range(p: nat, n: nat): (r: set<nat>)
      ensures forall i :: i in r <==> p <= i < p + n
    {
      if n == 0 then {} else Range(p, n - 1) + {p + n - 1}
    }

    static predicate UserRange(vpn: nat, n: nat) {
      vpn + n <= TRAPFRAME
    }

    /** The trampoline and the trapframe, which the page table shares with others. */
    static ghost predicate TopPage(vpn: nat, ppn: nat, perm: bv10) {
      ppn != 0 && !IsUser(perm | PTE_V) && (vpn == TRAMPOLINE || vpn == TRAPFRAME)
    }

    static predicate IsBytes(m: Mem, p: nat) {
      p < |m.pages| && m.pages[p].Bytes? && |m.pages[p].bytes| == 4096
    }

    /** What may be mapped: pages that are allocated and unused, or one shared page. */
    static ghost predicate Mappable(m: Mem, a: nat, vpn: nat, n: nat, ppn: nat, perm: bv10, pend: set<nat>) {
      && IsLeaf(perm) && a < |m.root|
      && if UserRange(vpn, n) then Range(ppn, n) <= pend && forall p :: p in Range(ppn, n) ==> IsBytes(m, p)
         else n == 1 && TopPage(vpn, ppn, perm)
    }

    static lemma MappableNext(m0: Mem, m: Mem, a: nat, vpn: nat, n: nat, ppn: nat, perm: bv10, pend: set<nat>, done: nat)
      requires Mappable(m0, a, vpn, n, ppn, perm, pend) && done < n
      requires PendSame(m0, m, Left(pend, vpn, n, ppn, done)) && m.frame == m0.frame && m.root == m0.root
      ensures Mappable(m, a, vpn + done, 1, ppn + done, perm, Left(pend, vpn, n, ppn, done))
      ensures UserRange(vpn + done, 1) <==> UserRange(vpn, n)
      ensures vpn + done < TRAPFRAME ==>
                ppn + done < |m0.pages| && ppn + done < |m.pages| && m0.pages[ppn + done] == m.pages[ppn + done]
      ensures UserRange(vpn, n) ==> ppn + done in Left(pend, vpn, n, ppn, done)
    {
      if UserRange(vpn, n) {
        LeftHas(pend, vpn, n, ppn, done);
        assert Range(ppn + done, 1) == {ppn + done};
        assert ppn + done in Range(ppn, n);
      } else {
        assert TopPage(vpn, ppn, perm);
      }
    }

    static lemma UnmappedNext(m0: Mem, m: Mem, a: nat, vpn: nat, n: nat, done: nat)
      requires Unmapped(m0, a, vpn, n) && done < n && KeptBut(m0, m, a, vpn, vpn + done)
      ensures Unmapped(m, a, vpn + done, 1)
    {
      hide Lookup, IsValid;
      LookupKept(m0, m, a, vpn, vpn + done);
    }

    static lemma FlagBits(perm: bv10)
      ensures IsValid(perm | PTE_V) && (IsLeaf(perm | PTE_V) == IsLeaf(perm)) && IsUser(perm | PTE_V) == IsUser(perm)
      ensures IsWritable(perm | PTE_V) == IsWritable(perm) && (IsValid(perm) ==> perm | PTE_V == perm)
    {
    }

    /** Storing one entry in `mappages`. */
    method StoreEntry(t: nat, vpn: nat, b: nat, perm: bv10, ghost a: nat, ghost pend: set<nat>)
      requires Ok(pend) && vpn < MAXVPN && Mappable(M(), a, vpn, 1, b, perm, pend)
      requires t in owner && owner[t] == Loc(a, 2, vpn / 512)
      requires t < |pages| && pages[t].Table? && |pages[t].ptes| == 512 && !IsValid(pages[t].ptes[vpn % 512].flags)
      modifies this`pages, this`owner
      ensures Ok(if UserRange(vpn, 1) then pend - {b} else pend)
      ensures KeptBut(old(M()), M(), a, vpn, vpn + 1) && PendSame(old(M()), M(), pend) && |pages| == |old(pages)|
      ensures Lookup(M(), a, vpn) == Pte(b, perm | PTE_V)
    {
      hide At, PteAt, LocsOwned, OwnersHold, TopOk, FreeOk, KeptBut, IsValid, IsLeaf, IsUser, Special;
      ghost var m, k, e := M(), vpn % 512, Pte(b, perm | PTE_V);
      FlagBits(perm);
      PendRange(m, owner, free, pend);
      LeafEntry(m, a, vpn);
      SpecialRange(a, vpn);
      if UserRange(vpn, 1) {
        assert b in Range(b, 1);
        LinkUser(m, owner, free, pend, t, k, b, e);
      } else {
        SpecialOwned(m, owner, free, pend, t, k, e);
      }
      SetKept(m, owner, t, k, e);
      AfterSet(m, owner, t, k, e, Loc(a, 3, vpn));
      if UserRange(vpn, 1) {
        TopKept(m, SetEntry(m, t, k, e), a, vpn, vpn + 1);
        owner := owner[b := Loc(a, 3, vpn)];
      } else {
        TopSet(m, SetEntry(m, t, k, e), a, vpn);
      }
      pages := pages[t := Table(pages[t].ptes[vpn % 512 := Pte(b, perm | PTE_V)])];
      assert M() == SetEntry(m, t, k, e);
    }

    static lemma SpecialRange(a: nat, vpn: nat)
      requires vpn < MAXVPN
      ensures Special(Loc(a, 3, vpn)) <==> !UserRange(vpn, 1)
      ensures UserRange(vpn, 1) <==> vpn < TRAPFRAME
    {
    }

    static lemma LinkUser(m: Mem, o: map<nat, Loc>, free: seq<nat>, pend: set<nat>, t: nat, k: nat, b: nat, e: Pte)
      requires Owned(m, o, free, pend) && b in pend && t in o && o[t].Loc? && o[t].d == 2 && k < 512 && b < |m.pages|
      requires e.ppn == b && IsValid(e.flags) && IsLeaf(e.flags) && Next(Entry(m, t, k)) == 0
      requires !Special(Child(o[t], k)) && m.pages[b].Bytes? && |m.pages[b].bytes| == 4096
      ensures t < |m.pages| && m.pages[t].Table? && k < |m.pages[t].ptes|
      ensures Owned(SetEntry(m, t, k, e), o[b := Child(o[t], k)], free, pend - {b})
    {
      hide At, PteAt, LocsOwned, OwnersHold, FreeOk, IsValid, IsLeaf;
      assert pend - {b} + {b} == pend;
      LinkOwned(m, o, free, pend - {b}, t, k, b, e);
    }

    static lemma TopSet(m: Mem, m': Mem, a: nat, vpn: nat)
      requires KeptBut(m, m', a, vpn, vpn + 1) && TopOk(m) && m'.frame == m.frame && a < |m.root|
      requires vpn == TRAMPOLINE || vpn == TRAPFRAME
      requires !IsUser(Lookup(m', a, vpn).flags)
      ensures TopOk(m')
    {
      hide PteAt;
      forall l | InTree(m', l) && l.d == 3 && l.i >= MAXVPN ensures At(m', l) == 0 {
        assert LeafKept(m, m', l);
      }
      forall b | 0 <= b < |m.root|
        ensures b != a || vpn != TRAMPOLINE ==> Lookup(m', b, TRAMPOLINE) == Lookup(m, b, TRAMPOLINE)
        ensures b != a || vpn != TRAPFRAME ==> Lookup(m', b, TRAPFRAME) == Lookup(m, b, TRAPFRAME)
      {
        assert b != a || vpn != TRAMPOLINE ==> LeafKept(m, m', Loc(b, 3, TRAMPOLINE));
        assert b != a || vpn != TRAPFRAME ==> LeafKept(m, m', Loc(b, 3, TRAPFRAME));
      }
    }

    /** The `pend` pages that are left when `n` of them have been mapped. */
    static function Left(pend: set<nat>, vpn: nat, n: nat, ppn: nat, done: nat): set<nat> {
      if UserRange(vpn, n) then pend - Range(ppn, done) else pend
    }

    static lemma LookupKept(m: Mem, m': Mem, a: nat, from: nat, to: nat)
      requires KeptBut(m, m', a, from, to)
      ensures forall b, vpn :: 0 <= b < |m.root| && 0 <= vpn < MAXVPN && !(b == a && from <= vpn < to) ==>
                Lookup(m', b, vpn) == Lookup(m, b, vpn)
    {
      hide PteAt;
      forall b, vpn | 0 <= b < |m.root| && 0 <= vpn < MAXVPN && !(b == a && from <= vpn < to)
        ensures Lookup(m', b, vpn) == Lookup(m, b, vpn)
      {
        assert LeafKept(m, m', Loc(b, 3, vpn));
      }
    }

    /** No entry of virtual pages [vpn, vpn + n) is valid. */
    static ghost predicate Unmapped(m: Mem, a: nat, vpn: nat, n: nat) {
      && Shape(m) && a < |m.root| && vpn + n <= MAXVPN
      && forall i :: vpn <= i < vpn + n ==> !IsValid(Lookup(m, a, i).flags)
    }

    /** Virtual pages [vpn, vpn + n) are mapped to the physical pages `d` further on, which read as in `m0`. */
    static ghost predicate Linked(m0: Mem, m: Mem, a: nat, vpn: nat, n: nat, d: int, perm: bv10)
    {
      && Shape(m) && a < |m.root| && vpn + n <= MAXVPN
      && forall i :: vpn <= i < vpn + n ==> LinkedPage(m0, m, a, i, d, perm)
    }

    static lemma LinkedStays(m0: Mem, m: Mem, m': Mem, b: nat, from: nat, to: nat, a: nat, vpn: nat, n: nat, d: int, perm: bv10)
      requires KeptBut(m, m', b, from, to) && Linked(m0, m, a, vpn, n, d, perm)
      requires from >= to || b != a || from >= vpn + n || to <= vpn
      ensures Linked(m0, m', a, vpn, n, d, perm)
    {
      hide LinkedPage;
      forall i | vpn <= i < vpn + n ensures LinkedPage(m0, m', a, i, d, perm) {
        LinkedKept(m0, m, m', b, from, to, a, i, d, perm);
      }
    }

    static lemma LinkedNone(m: Mem, a: nat, vpn: nat, d: int, perm: bv10)
      requires Shape(m) && a < |m.root| && vpn <= MAXVPN
      ensures Linked(m, m, a, vpn, 0, d, perm)
    {
    }

    static lemma LinkedSnoc(m0: Mem, m: Mem, a: nat, vpn: nat, n: nat, d: int, perm: bv10)
      requires Linked(m0, m, a, vpn, n, d, perm) && vpn + n < MAXVPN && LinkedPage(m0, m, a, vpn + n, d, perm)
      ensures Linked(m0, m, a, vpn, n + 1, d, perm)
    {
    }

    /** Virtual page `vpn` is mapped to physical page `vpn + d`. */
    static predicate LinkedPage(m0: Mem, m: Mem, a: nat, vpn: nat, d: int, perm: bv10)
      requires Shape(m) && a < |m.root| && vpn < MAXVPN
    {
      var p := vpn + d;
      && 0 < p && Lookup(m, a, vpn) == Pte(p, perm | PTE_V)
      && (vpn < TRAPFRAME ==> p < |m.pages| && p < |m0.pages| && m.pages[p] == m0.pages[p])
    }

    static lemma LinkedKept(m0: Mem, m: Mem, m': Mem, b: nat, from: nat, to: nat, a: nat, vpn: nat, d: int, perm: bv10)
      requires KeptBut(m, m', b, from, to) && a < |m.root| && vpn < MAXVPN && !(a == b && from <= vpn < to)
      requires LinkedPage(m0, m, a, vpn, d, perm)
      ensures LinkedPage(m0, m', a, vpn, d, perm)
    {
      FlagBits(perm);
      LeafEntry(m, a, vpn);
      hide IsValid, PteAt;
      assert LeafKept(m, m', Loc(a, 3, vpn));
      assert vpn < TRAPFRAME ==> !Special(Loc(a, 3, vpn));
    }

    /** One round of the loop of `mappages`. */
    method MapPage(pt: nat, va: nat, ppn: nat, perm: bv10, ghost a: nat, ghost pend: set<nat>) returns (ok: bool)
      requires Ok(pend) && a < |root| && root[a] == pt && pt != 0 && va % 4096 == 0
      requires Unmapped(M(), a, va / 4096, 1) && Mappable(M(), a, va / 4096, 1, ppn, perm, pend)
      modifies this`pages, this`free, this`owner
      ensures PendSame(old(M()), M(), pend) && |pages| == |old(pages)|
      ensures !ok ==> free == [] && Ok(pend) && Kept(old(M()), M())
      ensures ok ==>
                && Ok(if UserRange(va / 4096, 1) then pend - {ppn} else pend)
                && KeptBut(old(M()), M(), a, va / 4096, va / 4096 + 1)
                && LinkedPage(old(M()), M(), a, va / 4096, ppn - va / 4096, perm)
      ensures |free| + 2 >= |old(free)| >= |free|
      ensures |free| + Missing(old(M()), a, va / 4096) >= |old(free)| && (!ok ==> |old(free)| < Missing(old(M()), a, va / 4096))
    {
      hide At, PteAt, LocsOwned, OwnersHold, TopOk, FreeOk, KeptBut, IsValid, IsLeaf, IsUser, Special, Lookup, PX, Owned;
      ghost var m0, vpn := M(), va / 4096;
      WholeShape(m0, owner, free, pend);
      PendRange(m0, owner, free, pend);
      var t := Walk(pt, va, true, a, pend);
      ghost var m1 := M();
      WholeShape(m1, owner, free, pend);
      LookupKept(m0, m1, 0, 0, 0);
      if t == 0 {
        return false;
      }
      LeafEntry(m1, a, vpn);
      assert ppn in Range(ppn, 1);
      OneRange(ppn);
      StoreEntry(t, va / 4096, ppn, perm, a, pend);
      KeptTrans(m0, m1, M(), a, vpn, vpn + 1, 0, 0, 0, a, vpn, vpn + 1);
      ok := true;
    }

    /** `mappages`: `done` pages are mapped, all of them on success; the
        requirements rule out its four panics. */
    method Mappages(pt: nat, va: nat, size: nat, ppn: nat, perm: bv10, ghost a: nat, ghost pend: set<nat>)
      returns (ok: bool, ghost done: nat)
      requires Ok(pend) && a < |root| && root[a] == pt && pt != 0
      requires va % 4096 == 0 && size % 4096 == 0 && size > 0
      requires Unmapped(M(), a, va / 4096, size / 4096) && Mappable(M(), a, va / 4096, size / 4096, ppn, perm, pend)
      modifies this`pages, this`free, this`owner
      ensures |pages| == |old(pages)| && done <= size / 4096 && (ok <==> done == size / 4096)
      ensures Ok(Left(pend, va / 4096, size / 4096, ppn, done))
      ensures KeptBut(old(M()), M(), a, va / 4096, va / 4096 + done)
      ensures PendSame(old(M()), M(), Left(pend, va / 4096, size / 4096, ppn, done))
      ensures Linked(old(M()), M(), a, va / 4096, done, ppn - va / 4096, perm)
      ensures !ok ==> free == []
      ensures |free| + 2 * size / 4096 >= |old(free)| >= |free|
      ensures size == 4096 ==> |free| + Missing(old(M()), a, va / 4096) >= |old(free)| && (!ok ==> |old(free)| < Missing(old(M()), a, va / 4096))
    {
      hide At, PteAt, LocsOwned, OwnersHold, TopOk, FreeOk, KeptBut, IsValid, IsLeaf, IsUser, Lookup, Owned, Range, LinkedPage, Linked, Special, Mappable, UserRange;
      WholeShape(M(), owner, free, pend);
      LinkedNone(M(), a, va / 4096, ppn - va / 4096, perm);
      KeptSelf(M(), owner);
      ghost var m0, vpn, n := M(), va / 4096, size / 4096;
      ghost var d := ppn - vpn;
      KeptWide(m0, m0, a, vpn, vpn);
      PendRange(m0, owner, free, pend);
      done := 0;
      var a1, last, p := va, va + size - 4096, ppn;
      assert Left(pend, vpn, n, ppn, 0) == pend;
      while true
        invariant a1 == va + done * 4096 && done < n && p == ppn + done && |pages| == |m0.pages|
        invariant Ok(Left(pend, vpn, n, ppn, done)) && PendSame(m0, M(), Left(pend, vpn, n, ppn, done))
        invariant KeptBut(m0, M(), a, vpn, vpn + done)
        invariant Linked(m0, M(), a, vpn, done, d, perm)
        invariant |free| + 2 * done >= |old(free)| >= |free| && (done == 0 ==> M() == m0 && free == old(free))
        decreases n - done
      {
        ghost var pend1, m1 := Left(pend, vpn, n, ppn, done), M();
        PageOf(va, done, a1);
        UnmappedNext(m0, m1, a, vpn, n, done);
        MappableNext(m0, m1, a, vpn, n, ppn, perm, pend, done);
        var r := MapPage(pt, a1, p, perm, a, pend1);
        ghost var m2 := M();
        if !r {
          LinkedStays(m0, m1, m2, 0, 0, 0, a, vpn, done, d, perm);
          KeptThen(m0, m1, m2, a, vpn, vpn + done);
          return false, done;
        }
        LinkedStays(m0, m1, m2, a, vpn + done, vpn + done + 1, a, vpn, done, d, perm);
        KeptTrans(m0, m1, m2, a, vpn, vpn + done + 1, a, vpn, vpn + done, a, vpn + done, vpn + done + 1);
        LeftOne(pend, vpn, n, ppn, done);
        LinkedFrom(m0, m1, m2, a, vpn + done, d, perm);
        LinkedSnoc(m0, m2, a, vpn, done, d, perm);
        done := done + 1;
        if a1 == last {
          break;
        }
        a1 := a1 + 4096;
        p := p + 1;
      }
      ok := true;
    }

    static lemma LinkedFrom(m0: Mem, m1: Mem, m2: Mem, a: nat, vpn: nat, d: int, perm: bv10)
      requires Shape(m2) && a < |m2.root| && vpn < MAXVPN && LinkedPage(m1, m2, a, vpn, d, perm)
      requires vpn < TRAPFRAME ==> 0 <= vpn + d < |m0.pages| && vpn + d < |m1.pages| && m0.pages[vpn + d] == m1.pages[vpn + d]
      ensures LinkedPage(m0, m2, a, vpn, d, perm)
    {
    }

    static lemma PageOf(va: nat, done: nat, a: nat)
      requires va % 4096 == 0 && a == va + done * 4096
      ensures a / 4096 == va / 4096 + done
    {
    }

    static lemma LeftHas(pend: set<nat>, vpn: nat, n: nat, ppn: nat, done: nat)
      requires done < n && Range(ppn, n) <= pend
      ensures ppn + done in pend && ppn + done in Left(pend, vpn, n, ppn, done)
    {
      assert ppn + done in Range(ppn, n);
    }

    static lemma OneRange(p: nat)
      ensures Range(p, 1) == {p}
    {
    }

    static lemma LeftOne(pend: set<nat>, vpn: nat, n: nat, ppn: nat, done: nat)
      requires done < n
      ensures UserRange(vpn, n) ==> Left(pend, vpn, n, ppn, done + 1) == Left(pend, vpn, n, ppn, done) - {ppn + done}
      ensures !UserRange(vpn, n) ==> Left(pend, vpn, n, ppn, done + 1) == pend
    {
    }

    static lemma WholeShape(m: Mem, o: map<nat, Loc>, free: seq<nat>, pend: set<nat>)
      requires Owned(m, o, free, pend)
      ensures Shape(m) && LocsOwned(m, o) && OwnersHold(m, o) && FreeOk(m, o, free, pend)
    {
    }

    // ---- uvmunmap

    /** What is left when the mapped pages [vpn, vpn + n) of address space `a` are given up. */
    static ghost function Without(o: map<nat, Loc>, a: nat, vpn: nat, n: nat): map<nat, Loc> {
      map p | p in o && !(o[p].Loc? && o[p].d == 3 && o[p].a == a && vpn <= o[p].i < vpn + n) :: o[p]
    }

    /** One round of the loop of `uvmunmap`. */
    method UnmapPage(pt: nat, va: nat, doFree: bool, ghost a: nat)
      requires Ok({}) && a < |root| && root[a] == pt && pt != 0 && va % 4096 == 0 && va < MAXVA
      requires doFree <==> va / 4096 < TRAPFRAME
      modifies this`pages, this`free, this`owner
      ensures Ok({}) && KeptBut(old(M()), M(), a, va / 4096, va / 4096 + 1) && Unmapped(M(), a, va / 4096, 1)
      ensures owner == Without(old(owner), a, va / 4096, 1) && |pages| == |old(pages)|
      ensures !doFree ==> free == old(free)
    {
      hide At, PteAt, LocsOwned, OwnersHold, TopOk, FreeOk, KeptBut, IsValid, IsLeaf, IsUser, PX, Owned, Special;
      ghost var m, vpn := M(), va / 4096;
      ghost var k := vpn % 512;
      WholeShape(m, owner, free, {});
      KeptSelf(m, owner);
      KeptWide(m, m, a, vpn, vpn + 1);
      LeafEntry(m, a, vpn);
      IsNotValid();
      var t := Walk(pt, va, false, a, {});
      if t == 0 {
        NothingThere(m, owner, a, vpn);
        return;
      }
      assert PX(0, va) == va / 4096 % 512 by { LastIndex(va); }
      var e := pages[t].ptes[PX(0, va)];
      if !IsValid(e.flags) {
        NothingThere(m, owner, a, vpn);
        return;
      }
      ghost var o := owner;
      SpecialRange(a, vpn);
      TableIs(m, o, o[t]);
      if doFree {
        UnlinkPage(m, o, free, t, k, e.ppn);
        TopKept(m, SetEntry(PutPage(m, e.ppn, Filled(1)), t, k, NoPte), a, vpn, vpn + 1);
        Kfree(e.ppn);
        owner := owner - {e.ppn};
        WithoutOne(m, o, a, vpn, e.ppn);
      } else {
        SpecialOwned(m, o, free, {}, t, k, NoPte);
        SetKept(m, o, t, k, NoPte);
        AfterSet(m, o, t, k, NoPte, Loc(a, 3, vpn));
        TopSet(m, SetEntry(m, t, k, NoPte), a, vpn);
        NotOwnedThere(m, o, a, vpn);
      }
      pages := pages[t := Table(pages[t].ptes[PX(0, va) := NoPte])];
      LeafEntry(M(), a, vpn);
      assert M() == if doFree then SetEntry(PutPage(m, e.ppn, Filled(1)), t, k, NoPte) else SetEntry(m, t, k, NoPte);
    }

    static lemma LastIndex(va: nat)
      ensures PX(0, va) == va / 4096 % 512
    {
    }

    static lemma NothingThere(m: Mem, o: map<nat, Loc>, a: nat, vpn: nat)
      requires Shape(m) && OwnersHold(m, o) && a < |m.root| && vpn < MAXVPN && InTree(m, Loc(a, 3, vpn)) && At(m, Loc(a, 3, vpn)) == 0
      ensures Without(o, a, vpn, 1) == o
    {
      hide At;
      forall p | p in o ensures p in Without(o, a, vpn, 1) {
        assert At(m, o[p]) == p;
      }
      assert Without(o, a, vpn, 1).Keys == o.Keys;
    }

    static lemma WithoutOne(m: Mem, o: map<nat, Loc>, a: nat, vpn: nat, p: nat)
      requires Shape(m) && OwnersHold(m, o) && p in o && o[p] == Loc(a, 3, vpn)
      ensures Without(o, a, vpn, 1) == o - {p}
    {
      hide At;
      forall q | q in o && q != p ensures q in Without(o, a, vpn, 1) {
        assert At(m, o[q]) == q && At(m, o[p]) == p;
      }
    }

    static lemma NotOwnedThere(m: Mem, o: map<nat, Loc>, a: nat, vpn: nat)
      requires Shape(m) && OwnersHold(m, o) && TRAPFRAME <= vpn < MAXVPN
      ensures Without(o, a, vpn, 1) == o
    {
      hide At;
      forall p | p in o ensures p in Without(o, a, vpn, 1) {
        assert Ownable(m, o[p]);
      }
      assert Without(o, a, vpn, 1).Keys == o.Keys;
    }

    static lemma UnlinkPage(m: Mem, o: map<nat, Loc>, free: seq<nat>, t: nat, k: nat, p: nat)
      requires Owned(m, o, free, {}) && t in o && o[t].Loc? && o[t].d == 2 && k < 512 && !Special(Child(o[t], k))
      requires Next(Entry(m, t, k)) == p && p != 0
      ensures p in o && o[p] == Child(o[t], k) && m.lo <= p < |m.pages| && p !in free && t != p
      ensures t < |m.pages| && m.pages[t].Table? && |m.pages[t].ptes| == 512
      ensures var m' := SetEntry(PutPage(m, p, Filled(1)), t, k, NoPte);
              && Owned(m', o - {p}, [p] + free, {})
              && KeptBut(m, m', o[p].a, o[p].i, o[p].i + 1)
              && InTree(m', o[p]) && PteAt(m', o[p]) == NoPte
    {
      hide At, PteAt, IsValid, IsLeaf;
      UnlinkOwned(m, o, free, {}, t, k, p, Filled(1));
      WriteShows(m, o, p, Filled(1));
      BytesOwned(m, o, free, {}, p, Filled(1));
      var m1 := PutPage(m, p, Filled(1));
      SetKept(m1, o, t, k, NoPte);
      AfterSet(m1, o, t, k, NoPte, o[p]);
      KeptTrans(m, m1, SetEntry(m1, t, k, NoPte), o[p].a, o[p].i, o[p].i + 1, o[p].a, o[p].i, o[p].i + 1, o[p].a, o[p].i, o[p].i + 1);
    }

    /** `uvmunmap`: the range is unmapped, its pages are free if `doFree`, and nothing else changes. */
    method Uvmunmap(pt: nat, va: nat, npages: nat, doFree: bool, ghost a: nat)
      requires Ok({}) && a < |root| && root[a] == pt && pt != 0 && va % 4096 == 0 && va + npages * 4096 <= MAXVA
      requires if doFree then UserRange(va / 4096, npages) else va / 4096 >= TRAPFRAME
      modifies this`pages, this`free, this`owner
      ensures Ok({}) && KeptBut(old(M()), M(), a, va / 4096, va / 4096 + npages) && Unmapped(M(), a, va / 4096, npages)
      ensures owner == Without(old(owner), a, va / 4096, npages) && |pages| == |old(pages)|
      ensures !doFree ==> free == old(free)
    {
      hide At, PteAt, LocsOwned, OwnersHold, TopOk, FreeOk, KeptBut, IsValid, IsLeaf, IsUser, Lookup, PX, Owned, Special, Without;
      ghost var m0, vpn, o0 := M(), va / 4096, owner;
      WholeShape(m0, owner, free, {});
      KeptSelf(m0, owner);
      KeptWide(m0, m0, a, vpn, vpn);
      WithoutNone(o0, a, vpn);
      var a1 := va;
      ghost var n := 0;
      while a1 < va + npages * 4096
        invariant a1 == va + n * 4096 && n <= npages && |pages| == |m0.pages|
        invariant Ok({}) && KeptBut(m0, M(), a, vpn, vpn + n) && Unmapped(M(), a, vpn, n)
        invariant owner == Without(o0, a, vpn, n)
        invariant !doFree ==> free == old(free)
      {
        ghost var m1, o1 := M(), owner;
        PageOf(va, n, a1);
        UnmapPage(pt, a1, doFree, a);
        KeptTrans(m0, m1, M(), a, vpn, vpn + n + 1, a, vpn, vpn + n, a, vpn + n, vpn + n + 1);
        LookupKept(m1, M(), a, vpn + n, vpn + n + 1);
        WithoutSnoc(o0, a, vpn, n);
        a1 := a1 + 4096;
        n := n + 1;
      }
    }

    static lemma WithoutNone(o: map<nat, Loc>, a: nat, vpn: nat)
      ensures Without(o, a, vpn, 0) == o
    {
      assert Without(o, a, vpn, 0).Keys == o.Keys;
    }

    static lemma WithoutSnoc(o: map<nat, Loc>, a: nat, vpn: nat, n: nat)
      ensures Without(Without(o, a, vpn, n), a, vpn + n, 1) == Without(o, a, vpn, n + 1)
    {
    }

    // ---- uvmalloc and uvmdealloc

    /** Virtual page `vpn` is mapped with `flags` to a page that holds `x`. */
    static predicate Holds(m: Mem, a: nat, vpn: nat, flags: bv10, x: Page)
      requires Shape(m) && a < |m.root| && vpn < MAXVPN
    {
      var e := Lookup(m, a, vpn);
      e.flags == flags && IsValid(flags) && 0 < e.ppn < |m.pages| && m.pages[e.ppn] == x
    }

    static lemma HoldsKept(m: Mem, m': Mem, b: nat, from: nat, to: nat, a: nat, vpn: nat, flags: bv10, x: Page)
      requires KeptBut(m, m', b, from, to) && a < |m.root| && vpn < TRAPFRAME && !(a == b && from <= vpn < to)
      requires Holds(m, a, vpn, flags, x)
      ensures Holds(m', a, vpn, flags, x)
    {
      LeafEntry(m, a, vpn);
      hide IsValid, PteAt;
      assert LeafKept(m, m', Loc(a, 3, vpn));
    }

    /** `kalloc`, a new content `x`, `mappages`, and `kfree` if that fails: the
        part that `uvmalloc`, `uvmcopy` and `vmfault` have in common. */
    method AddPage(pt: nat, va: nat, x: Page, perm: bv10, ghost a: nat) returns (mem: nat)
      requires Ok({}) && a < |root| && root[a] == pt && pt != 0 && va % 4096 == 0 && va / 4096 < TRAPFRAME
      requires Unmapped(M(), a, va / 4096, 1) && IsLeaf(perm) && x.Bytes? && |x.bytes| == 4096
      modifies this`pages, this`free, this`owner
      ensures Ok({}) && |pages| == |old(pages)|
      ensures mem == 0 ==> Kept(old(M()), M()) && |free| <= 1 && |old(free)| < 1 + Missing(old(M()), a, va / 4096)
      ensures mem != 0 ==> |free| + 1 + Missing(old(M()), a, va / 4096) >= |old(free)|
      ensures mem != 0 ==>
                && KeptBut(old(M()), M(), a, va / 4096, va / 4096 + 1) && Holds(M(), a, va / 4096, perm | PTE_V, x)
                && Lookup(M(), a, va / 4096).ppn == mem && IsValid(Lookup(M(), a, va / 4096).flags)
    {
      hide At, PteAt, LocsOwned, OwnersHold, TopOk, FreeOk, KeptBut, IsValid, IsLeaf, IsUser, Lookup, Owned, Special, Linked, Unmapped, Missing;
      ghost var m0, vpn := M(), va / 4096;
      WholeShape(m0, owner, free, {});
      mem := Kalloc({});
      if mem == 0 {
        return;
      }
      ghost var m1 := M();
      assert {} + {mem} == {mem};
      FillOwned(m1, owner, free, {mem}, mem, x);
      pages := pages[mem := x];
      ghost var m2 := M();
      assert m2 == PutPage(m1, mem, x);
      KeptBoth(m0, m1, m2);
      FreshMissing(m0, owner, mem, Filled(5), x, a, vpn);
      UnmappedKept(m0, m2, a, vpn, 1);
      OneRange(mem);
      var ok, done := Mappages(pt, va, 4096, mem, perm, a, {mem});
      ghost var m3 := M();
      if !ok {
        KeptEmpty(m2, m3, a, vpn);
        NoneLeft(mem, vpn);
        KeptBoth(m0, m2, m3);
        KfreeUnused(mem, {});
        KeptBoth(m0, m3, M());
        mem := 0;
      } else {
        AllLeft(mem, vpn);
        KeptTrans(m0, m2, m3, a, vpn, vpn + 1, 0, 0, 0, a, vpn, vpn + 1);
        FlagBits(perm);
        LinkedHolds(m2, m3, a, vpn, mem - vpn, perm);
      }
    }

    static lemma FreshMissing(m: Mem, o: map<nat, Loc>, p: nat, x: Page, y: Page, a: nat, vpn: nat)
      requires Shape(m) && LocsOwned(m, o) && 0 < p < |m.pages| && p !in o && a < |m.root| && vpn < MAXVPN
      ensures var m' := PutPage(PutPage(m, p, x), p, y); Shape(m') && Missing(m', a, vpn) == Missing(m, a, vpn)
    {
      assert PutPage(PutPage(m, p, x), p, y) == PutPage(m, p, y);
      LeafEntry(m, a, vpn);
      AfterWrite(m, o, p, y, Loc(a, 2, vpn / 512));
    }

    static lemma LinkedHolds(m0: Mem, m: Mem, a: nat, vpn: nat, d: int, perm: bv10)
      requires Linked(m0, m, a, vpn, 1, d, perm) && vpn < TRAPFRAME
      ensures 0 < vpn + d < |m.pages| && vpn + d < |m0.pages| && Lookup(m, a, vpn) == Pte(vpn + d, perm | PTE_V)
      ensures m.pages[vpn + d] == m0.pages[vpn + d] && Holds(m, a, vpn, perm | PTE_V, m0.pages[vpn + d])
    {
      FlagBits(perm);
      assert LinkedPage(m0, m, a, vpn, d, perm);
    }

    static lemma NoneLeft(p: nat, vpn: nat)
      requires vpn < TRAPFRAME
      ensures Left({p}, vpn, 1, p, 0) == {p} == {} + {p}
    {
    }

    static lemma AllLeft(p: nat, vpn: nat)
      requires vpn < TRAPFRAME
      ensures Left({p}, vpn, 1, p, 1) == {}
    {
      assert p in Range(p, 1);
    }

    static lemma KeptEmpty(m: Mem, m': Mem, a: nat, vpn: nat)
      requires KeptBut(m, m', a, vpn, vpn)
      ensures Kept(m, m')
    {
      forall l | InTree(m, l) && l.d == 3 ensures LeafKept(m, m', l) {
      }
    }

    static lemma UnmappedKept(m: Mem, m': Mem, a: nat, vpn: nat, n: nat)
      requires Unmapped(m, a, vpn, n) && Kept(m, m')
      ensures Unmapped(m', a, vpn, n)
    {
      hide Lookup, IsValid;
      LookupKept(m, m', 0, 0, 0);
    }

    /** `uvmdealloc`. */
    method Uvmdealloc(pt: nat, oldsz: nat, newsz: nat, ghost a: nat) returns (r: nat)
      requires Ok({}) && a < |root| && root[a] == pt && pt != 0 && oldsz <= TRAPFRAME * 4096
      modifies this`pages, this`free, this`owner
      ensures Ok({}) && r == if newsz < oldsz then newsz else oldsz
      ensures newsz >= oldsz ==> M() == old(M()) && free == old(free) && owner == old(owner)
      ensures newsz < oldsz ==>
                var from, n := Pages(newsz), Pages(oldsz) - Pages(newsz);
                && KeptBut(old(M()), M(), a, from, from + n) && Unmapped(M(), a, from, n)
                && owner == Without(old(owner), a, from, n) && |pages| == |old(pages)|
    {
      hide At, PteAt, LocsOwned, OwnersHold, TopOk, FreeOk, KeptBut, IsValid, IsLeaf, IsUser, Lookup, Owned, Special, Without;
      if newsz >= oldsz {
        return oldsz;
      }
      PageBounds(newsz);
      PageBounds(oldsz);
      if PGROUNDUP(newsz) < PGROUNDUP(oldsz) {
        var npages := (PGROUNDUP(oldsz) - PGROUNDUP(newsz)) / 4096;
        Uvmunmap(pt, PGROUNDUP(newsz), npages, true, a);
      } else {
        WholeShape(M(), owner, free, {});
        KeptSelf(M(), owner);
        KeptWide(M(), M(), a, Pages(newsz), Pages(newsz));
        WithoutNone(owner, a, Pages(newsz));
      }
      r := newsz;
    }

    /** The number of pages that `sz` bytes lie in. */
    static function Pages(sz: nat): nat {
      (sz + 4095) / 4096
    }

    static lemma PageBounds(sz: nat)
      ensures PGROUNDUP(sz) == Pages(sz) * 4096 && sz <= Pages(sz) * 4096 < sz + 4096
      ensures sz <= TRAPFRAME * 4096 ==> Pages(sz) <= TRAPFRAME
      ensures PGROUNDUP(sz) / 4096 == Pages(sz) && PGROUNDUP(sz) % 4096 == 0
    {
    }

    /** Virtual pages [from, to) are zero-filled and mapped with `flags`. */
    static ghost predicate Zeroed(m: Mem, a: nat, from: nat, to: nat, flags: bv10) {
      && Shape(m) && a < |m.root| && to <= MAXVPN
      && forall i :: from <= i < to ==> Holds(m, a, i, flags, Filled(0))
    }

    static lemma ZeroedSnoc(m: Mem, m': Mem, a: nat, from: nat, to: nat, flags: bv10)
      requires Zeroed(m, a, from, to, flags) && to < TRAPFRAME && KeptBut(m, m', a, to, to + 1) && Holds(m', a, to, flags, Filled(0))
      ensures Zeroed(m', a, from, to + 1, flags)
    {
      hide Holds;
      forall i | from <= i < to + 1 ensures Holds(m', a, i, flags, Filled(0)) {
        if i < to {
          HoldsKept(m, m', a, to, to + 1, a, i, flags, Filled(0));
        }
      }
    }

    /** The last-level tables that pages [from, to) lie in. */
    static function Groups(from: nat, to: nat): nat {
      if from >= to then 0 else (to - 1) / 512 - from / 512 + 1
    }

    /** Free pages that are enough to map new pages at [from, to): the pages, a
        last-level table for every 512 of them, and a table above each. */
    static function Need(from: nat, to: nat): nat {
      if from >= to then 0 else to - from + 2 * Groups(from, to)
    }

    static lemma NeedStep(from: nat, n: nat)
      requires from <= n
      ensures Need(from, n + 1) == Need(from, n) + 1 + if n > from && (n - 1) / 512 == n / 512 then 0 else 2
      ensures Need(from, from) == 0
    {
    }

    static lemma NeedMono(from: nat, n: nat, to: nat)
      requires from <= n <= to
      ensures Need(from, n) <= Need(from, to)
    {
    }

    /** A page behind one that is mapped has its tables when it shares them. */
    static lemma NextMissing(m: Mem, a: nat, from: nat, n: nat, flags: bv10)
      requires Zeroed(m, a, from, n, flags) && from <= n < TRAPFRAME
      ensures Missing(m, a, n) <= if n > from && (n - 1) / 512 == n / 512 then 0 else 2
    {
      hide Lookup, IsValid;
      if n > from && (n - 1) / 512 == n / 512 {
        assert Holds(m, a, n - 1, flags, Filled(0));
        NothingMissing(m, a, n - 1, n);
      }
    }

    /** `uvmalloc`: the new pages are all mapped and zero, or, when memory runs
        out, none of them is and all pages taken for them are free again. */
    method Uvmalloc(pt: nat, oldsz: nat, newsz: nat, xperm: bv10, ghost a: nat) returns (r: nat)
      requires Ok({}) && a < |root| && root[a] == pt && pt != 0 && newsz <= TRAPFRAME * 4096
      requires newsz >= oldsz ==> Unmapped(M(), a, Pages(oldsz), Pages(newsz) - Pages(oldsz))
      modifies this`pages, this`free, this`owner
      ensures Ok({}) && |pages| == |old(pages)|
      ensures newsz < oldsz ==> r == oldsz && M() == old(M()) && free == old(free) && owner == old(owner)
      ensures newsz >= oldsz ==>
                && KeptBut(old(M()), M(), a, Pages(oldsz), Pages(newsz)) && r in {0, newsz}
                && (r != 0 ==> Zeroed(M(), a, Pages(oldsz), Pages(newsz), PTE_R | PTE_U | xperm | PTE_V))
                && (r == 0 && newsz > 0 ==> Unmapped(M(), a, Pages(oldsz), Pages(newsz) - Pages(oldsz)))
                && (r == 0 && newsz > 0 ==> |old(free)| < Need(Pages(oldsz), Pages(newsz)))
    {
      hide At, PteAt, LocsOwned, OwnersHold, TopOk, FreeOk, KeptBut, IsValid, IsUser, IsWritable, Lookup, Owned, Special, Without, Unmapped, Holds, Zeroed, Missing, Need;
      if newsz < oldsz {
        return oldsz;
      }
      ghost var m0, from, to := M(), Pages(oldsz), Pages(newsz);
      PageBounds(newsz);
      PageBounds(oldsz);
      WholeShape(m0, owner, free, {});
      KeptSelf(m0, owner);
      KeptWide(m0, m0, a, from, from);
      var old1 := PGROUNDUP(oldsz);
      var a1 := old1;
      ghost var n := from;
      NeedStep(from, from);
      NoneZeroed(m0, a, from, PTE_R | PTE_U | xperm | PTE_V);
      while a1 < newsz
        invariant a1 == n * 4096 && from <= n <= to && |pages| == |m0.pages|
        invariant Ok({}) && KeptBut(m0, M(), a, from, n)
        invariant Zeroed(M(), a, from, n, PTE_R | PTE_U | xperm | PTE_V)
        invariant |free| + Need(from, n) >= |old(free)|
      {
        ghost var m1 := M();
        NextMissing(m1, a, from, n, PTE_R | PTE_U | xperm | PTE_V);
        NeedStep(from, n);
        NeedMono(from, n + 1, to);
        UnmappedRest(m0, m1, a, from, n, to);
        UnmappedOne(m1, a, n, to - n);
        UserLeaf(xperm);
        var mem := AddPage(pt, a1, Filled(0), PTE_R | PTE_U | xperm, a);
        ghost var m2 := M();
        if mem == 0 {
          KeptThen(m0, m1, m2, a, from, n);
          UnmappedKept(m1, m2, a, n, to - n);
          r := Uvmdealloc(pt, a1, old1, a);
          if from < n {
            KeptTrans(m0, m2, M(), a, from, to, a, from, n, a, from, n);
          } else {
            WholeShape(m2, owner, free, {});
            KeptSelf(m2, owner);
            KeptTrans(m0, m2, m2, a, from, to, a, from, n, 0, 0, 0);
          }
          UnmappedJoin(m0, m2, M(), a, from, n, to);
          return 0;
        }
        KeptTrans(m0, m1, m2, a, from, n + 1, a, from, n, a, n, n + 1);
        ZeroedSnoc(m1, m2, a, from, n, PTE_R | PTE_U | xperm | PTE_V);
        a1 := a1 + 4096;
        n := n + 1;
      }
      r := newsz;
    }

    static lemma UserLeaf(xperm: bv10)
      ensures IsLeaf(PTE_R | PTE_U | xperm)
    {
    }

    static lemma NoneZeroed(m: Mem, a: nat, from: nat, flags: bv10)
      requires Shape(m) && a < |m.root| && from <= MAXVPN
      ensures Zeroed(m, a, from, from, flags)
    {
    }

    static lemma UnmappedRest(m0: Mem, m: Mem, a: nat, from: nat, n: nat, to: nat)
      requires from <= n <= to && Unmapped(m0, a, from, to - from) && KeptBut(m0, m, a, from, n)
      ensures Unmapped(m, a, n, to - n)
    {
      hide Lookup, IsValid;
      LookupKept(m0, m, a, from, n);
    }

    static lemma UnmappedOne(m: Mem, a: nat, vpn: nat, n: nat)
      requires Unmapped(m, a, vpn, n) && n > 0
      ensures Unmapped(m, a, vpn, 1)
    {
    }

    static lemma UnmappedJoin(m0: Mem, m1: Mem, m2: Mem, a: nat, from: nat, n: nat, to: nat)
      requires from <= n <= to && Unmapped(m1, a, n, to - n)
      requires if from < n then Unmapped(m2, a, from, n - from) && KeptBut(m1, m2, a, from, n) else m2 == m1
      ensures Unmapped(m2, a, from, to - from)
    {
      if from < n {
        hide Lookup, IsValid;
        LookupKept(m1, m2, a, from, n);
      }
    }

    // ---- uvmcopy

    /** Page `i` of `b` is a copy of that of `a`, with the same permissions; both may be unmapped. */
    static predicate CopiedPage(m: Mem, a: nat, b: nat, i: nat)
      requires Shape(m) && a < |m.root| && b < |m.root| && i < MAXVPN
    {
      var e := Lookup(m, a, i);
      if IsValid(e.flags) then 0 < e.ppn < |m.pages| && Holds(m, b, i, e.flags, m.pages[e.ppn])
      else !IsValid(Lookup(m, b, i).flags)
    }

    static ghost predicate Copied(m: Mem, a: nat, b: nat, n: nat) {
      && Shape(m) && a < |m.root| && b < |m.root| && n <= TRAPFRAME
      && forall i :: 0 <= i < n ==> CopiedPage(m, a, b, i)
    }

    /** The copies hold while something else of address space `b` changes. */
    static lemma CopiedSnoc(m: Mem, m': Mem, a: nat, b: nat, n: nat)
      requires Copied(m, a, b, n) && n < TRAPFRAME && a != b && KeptBut(m, m', b, n, n + 1) && CopiedPage(m', a, b, n)
      ensures Copied(m', a, b, n + 1)
    {
      hide IsValid, Lookup;
      LookupKept(m, m', b, n, n + 1);
      forall i | 0 <= i < n ensures CopiedPage(m', a, b, i) {
        assert CopiedPage(m, a, b, i);
        var e := Lookup(m, a, i);
        if IsValid(e.flags) {
          LeafEntry(m, a, i);
          assert LeafKept(m, m', Loc(a, 3, i));
          SpecialRange(a, i);
          HoldsKept(m, m', b, n, n + 1, b, i, e.flags, m.pages[e.ppn]);
        }
      }
    }

    static lemma CopiedMapped(m0: Mem, m: Mem, a: nat, b: nat, i: nat)
      requires Shape(m0) && a < |m0.root| && b < |m0.root| && i < TRAPFRAME && a != b && KeptBut(m0, m, b, i, i + 1)
      requires var e := Lookup(m0, a, i); IsValid(e.flags) && e.ppn != 0 && e.ppn < |m0.pages| && Holds(m, b, i, e.flags, m0.pages[e.ppn])
      ensures CopiedPage(m, a, b, i)
    {
      LeafEntry(m0, a, i);
      SpecialRange(a, i);
      hide IsValid, PteAt;
      assert LeafKept(m0, m, Loc(a, 3, i));
    }

    /** `uvmcopy`: on success every page below `sz` is copied or unmapped in both;
        on failure nothing stays mapped in the new address space. */
    method Uvmcopy(oldpt: nat, newpt: nat, sz: nat, ghost a: nat, ghost b: nat) returns (r: int)
      requires Ok({}) && a < |root| && b < |root| && a != b && root[a] == oldpt && root[b] == newpt && oldpt != 0 && newpt != 0
      requires sz <= TRAPFRAME * 4096 && Unmapped(M(), b, 0, Pages(sz))
      modifies this`pages, this`free, this`owner
      ensures Ok({}) && KeptBut(old(M()), M(), b, 0, Pages(sz)) && |pages| == |old(pages)| && r in {0, -1}
      ensures r == 0 ==> Copied(M(), a, b, Pages(sz))
      ensures r == -1 ==> Unmapped(M(), b, 0, Pages(sz)) && |old(free)| < Need(0, Pages(sz))
    {
      hide At, PteAt, LocsOwned, OwnersHold, TopOk, FreeOk, KeptBut, IsValid, IsLeaf, IsUser, IsWritable, Lookup, Owned, Special, Without, Unmapped, Holds, Copied, CopiedPage, PX, Missing, Need, Paid;
      ghost var m0, to := M(), Pages(sz);
      PageBounds(sz);
      WholeShape(m0, owner, free, {});
      KeptSelf(m0, owner);
      KeptWide(m0, m0, b, 0, 0);
      NoneCopied(m0, a, b);
      NothingPaid(m0, b, free);
      var i := 0;
      ghost var n := 0;
      while i < sz
        invariant i == n * 4096 && n <= to && |pages| == |m0.pages|
        invariant Ok({}) && KeptBut(m0, M(), b, 0, n) && Copied(M(), a, b, n)
        invariant n < MAXVPN && Paid(M(), b, n, |free|, |old(free)|)
      {
        ghost var m1 := M();
        NeedMono(0, n + 1, to);
        WholeShape(m1, owner, free, {});
        UnmappedRest(m0, m1, b, 0, n, to);
        UnmappedOne(m1, b, n, to - n);
        var done := CopyPage(oldpt, newpt, i, a, b, n, |old(free)|);
        ghost var m2 := M();
        if !done {
          KeptThen(m0, m1, m2, b, 0, n);
          UnmappedKept(m1, m2, b, n, to - n);
          Uvmunmap(newpt, 0, i / 4096, true, b);
          KeptTrans(m0, m2, M(), b, 0, to, b, 0, n, b, 0, n);
          UnmappedAll(m2, M(), b, n, to);
          return -1;
        }
        KeptTrans(m0, m1, m2, b, 0, n + 1, b, 0, n, b, n, n + 1);
        CopiedSnoc(m1, m2, a, b, n);
        i := i + 4096;
        n := n + 1;
      }
      r := 0;
    }

    /** One round of the loop of `uvmcopy`. */
    method CopyPage(oldpt: nat, newpt: nat, i: nat, ghost a: nat, ghost b: nat, ghost n: nat, ghost all: nat) returns (done: bool)
      requires Ok({}) && a < |root| && b < |root| && a != b && root[a] == oldpt && root[b] == newpt && oldpt != 0 && newpt != 0
      requires i == n * 4096 && n < TRAPFRAME && Unmapped(M(), b, n, 1) && Paid(M(), b, n, |free|, all)
      modifies this`pages, this`free, this`owner
      ensures Ok({}) && |pages| == |old(pages)|
      ensures done ==> KeptBut(old(M()), M(), b, n, n + 1) && CopiedPage(M(), a, b, n) && Paid(M(), b, n + 1, |free|, all)
      ensures !done ==> Kept(old(M()), M()) && all < Need(0, n + 1)
    {
      hide At, PteAt, LocsOwned, OwnersHold, TopOk, FreeOk, KeptBut, IsValid, IsLeaf, IsUser, IsWritable, Lookup, Owned, Special, Without, Unmapped, Holds, PX, Missing, Need, Paid;
      ghost var m1, left := M(), |free|;
      WholeShape(m1, owner, free, {});
      LeafEntry(m1, a, n);
      IsNotValid();
      LastIndex(i);
      var t := Walk(oldpt, i, false, a, {});
      if t != 0 && IsValid(pages[t].ptes[PX(0, i)].flags) {
        var e := pages[t].ptes[PX(0, i)];
        assert e == Lookup(m1, a, n);
        MappedPage(m1, owner, a, n);
        var mem := AddPage(newpt, i, pages[e.ppn], e.flags, b);
        FlagBits(e.flags);
        done := mem != 0;
        if done {
          CopiedMapped(m1, M(), a, b, n);
          PaidPage(m1, M(), b, n, left, |free|, all);
        } else {
          PaidShort(m1, b, n, left, all);
        }
      } else {
        done := true;
        KeptSelf(m1, owner);
        KeptWide(m1, m1, b, n, n + 1);
        CopiedUnmapped(m1, a, b, n);
        PaidNothing(m1, b, n, left, all);
      }
    }

    /** Of `all` free pages `left` are left after `n` pages; the tables that page
        `n` shares with its predecessor are made, or still to be paid for. */
    static predicate Paid(m: Mem, b: nat, n: nat, left: nat, all: nat)
      requires Shape(m) && b < |m.root| && n < MAXVPN
    {
      left + Need(0, n) >= all + if n > 0 && (n - 1) / 512 == n / 512 then Missing(m, b, n) else 0
    }

    static lemma NothingPaid(m: Mem, b: nat, free: seq<nat>)
      requires Shape(m) && b < |m.root|
      ensures Paid(m, b, 0, |free|, |free|)
    {
    }

    static lemma PaidNothing(m: Mem, b: nat, n: nat, left: nat, all: nat)
      requires Shape(m) && b < |m.root| && n < TRAPFRAME && Paid(m, b, n, left, all)
      ensures Paid(m, b, n + 1, left, all)
    {
      hide At;
      NeedStep(0, n);
      if n / 512 == (n + 1) / 512 {
        SameMissing(m, b, n, n + 1);
      }
    }

    static lemma PaidPage(m: Mem, m': Mem, b: nat, n: nat, left: nat, left': nat, all: nat)
      requires Shape(m) && b < |m.root| && n < TRAPFRAME && Paid(m, b, n, left, all)
      requires left' + 1 + Missing(m, b, n) >= left && Shape(m') && b < |m'.root| && IsValid(Lookup(m', b, n).flags)
      ensures Paid(m', b, n + 1, left', all)
    {
      hide At, Lookup, IsValid;
      NeedStep(0, n);
      if n / 512 == (n + 1) / 512 {
        NothingMissing(m', b, n, n + 1);
      }
    }

    static lemma PaidShort(m: Mem, b: nat, n: nat, left: nat, all: nat)
      requires Shape(m) && b < |m.root| && n < TRAPFRAME && Paid(m, b, n, left, all) && left < 1 + Missing(m, b, n)
      ensures all < Need(0, n + 1)
    {
      hide At;
      NeedStep(0, n);
    }

    static lemma NoneCopied(m: Mem, a: nat, b: nat)
      requires Shape(m) && a < |m.root| && b < |m.root|
      ensures Copied(m, a, b, 0)
    {
    }

    static lemma CopiedUnmapped(m: Mem, a: nat, b: nat, i: nat)
      requires Unmapped(m, b, i, 1) && a < |m.root| && !IsValid(Lookup(m, a, i).flags)
      ensures CopiedPage(m, a, b, i)
    {
    }

    static lemma UnmappedAll(m: Mem, m': Mem, b: nat, n: nat, to: nat)
      requires n <= to && Unmapped(m, b, n, to - n) && Unmapped(m', b, 0, n) && KeptBut(m, m', b, 0, n)
      ensures Unmapped(m', b, 0, to)
    {
      hide Lookup, IsValid;
      LookupKept(m, m', b, 0, n);
    }

    /** Distinct user mappings never share a physical page. */
    static lemma NoSharing(m: Mem, o: map<nat, Loc>, free: seq<nat>, a: nat, vpn: nat, b: nat, vpn': nat)
      requires Owned(m, o, free, {}) && a < |m.root| && b < |m.root| && vpn < TRAPFRAME && vpn' < TRAPFRAME && (a, vpn) != (b, vpn')
      requires IsValid(Lookup(m, a, vpn).flags) && IsValid(Lookup(m, b, vpn').flags)
      ensures Lookup(m, a, vpn).ppn != Lookup(m, b, vpn').ppn && Lookup(m, a, vpn).ppn !in free
    {
      hide At, PteAt, IsValid;
      MappedPage(m, o, a, vpn);
      MappedPage(m, o, b, vpn');
    }

    // ---- freewalk and uvmfree

    /** Only pages of `s` changed since `m`, and they are all free now, each once. */
    ghost predicate Freed(m: Mem, free0: seq<nat>, s: set<nat>)
      reads this
    {
      && |pages| == |m.pages| && PagesKept(m, M(), s)
      && Distinct(free) && forall p :: p in free <==> p in free0 || p in s
    }

    /** `freewalk` of the table at position `l` of a tree `m0` without mapped
        pages, so that "freewalk: leaf" is unreachable: exactly its tables become free. */
    method Freewalk(t: nat, ghost m0: Mem, ghost o: map<nat, Loc>, ghost l: Loc)
      requires Shape(m0) && m0.lo == lo && LocsOwned(m0, o) && OwnersHold(m0, o) && InTree(m0, l) && l.d <= 2 && NoLeaf(m0, l.a)
      requires At(m0, l) == t && t != 0 && |pages| == |m0.pages|
      requires Distinct(free) && forall p :: p in Sub(o, l) ==> p < |pages| && pages[p] == m0.pages[p] && p !in free
      modifies this`pages, this`free
      ensures Freed(old(M()), old(free), Sub(o, l))
      decreases 2 - l.d
    {
      hide At, PteAt, LocsOwned, OwnersHold, NoLeaf, IsValid, IsLeaf, Below, Towards, Sub, SubUpTo;
      ghost var m, free0 := M(), free;
      OnlyTables(m0, o, l, 0);
      SubAll(m0, o, l);
      SubNone(o, l);
      OwnedRange(m0, o, l);
      var i := 0;
      while i < 512
        invariant 0 <= i <= 512 && |pages| == |m.pages| && Distinct(free)
        invariant forall p :: p in free <==> p in free0 || p in SubUpTo(o, l, i)
        invariant forall p :: 0 <= p < |pages| && p !in SubUpTo(o, l, i) && p != t ==> pages[p] == m.pages[p]
        invariant t < |pages| && pages[t].Table? && |pages[t].ptes| == 512
        invariant forall k :: i <= k < 512 ==> pages[t].ptes[k] == m0.pages[t].ptes[k]
      {
        OnlyTables(m0, o, l, i);
        SubStep(m0, o, l, i);
        var pte := pages[t].ptes[i];
        if IsValid(pte.flags) && !IsLeaf(pte.flags) {
          var child := pte.ppn;
          ghost var m1 := M();
          Freewalk(child, m0, o, Child(l, i));
          assert pages[t] == m1.pages[t];
          pages := pages[t := Table(pages[t].ptes[i := NoPte])];
        } else if IsValid(pte.flags) {
          assert false; // panic: leaf
        }
        i := i + 1;
      }
      Kfree(t);
      DistinctCons(t, free[1..]);
    }

    static lemma OwnedRange(m: Mem, o: map<nat, Loc>, l: Loc)
      requires Shape(m) && OwnersHold(m, o)
      ensures forall p :: p in Sub(o, l) ==> m.lo <= p < |m.pages| && p in o
    {
    }

    static lemma SubStep(m: Mem, o: map<nat, Loc>, l: Loc, k: nat)
      requires InTree(m, l) && l.d <= 2 && k < 512
      ensures l.d <= 1 ==>
                && SubUpTo(o, l, k + 1) == SubUpTo(o, l, k) + Sub(o, Child(l, k))
                && SubUpTo(o, l, k) !! Sub(o, Child(l, k)) && Sub(o, Child(l, k)) <= Sub(o, l)
                && forall p :: p in o && o[p] == l ==> p !in Sub(o, Child(l, k)) && p !in SubUpTo(o, l, k)
      ensures l.d == 2 ==> SubUpTo(o, l, k + 1) == {} == SubUpTo(o, l, k)
    {
      hide Below, Towards;
      if l.d <= 1 {
        SubNext(m, o, l, k);
      } else {
        SubNone(o, l);
      }
    }

    /** `uvmfree`: every page and table of the address space is free again. */
    method Uvmfree(pt: nat, sz: nat, ghost a: nat)
      requires Ok({}) && a < |root| && root[a] == pt && pt != 0 && sz <= TRAPFRAME * 4096
      requires Unmapped(M(), a, Pages(sz), MAXVPN - Pages(sz))
      modifies this`pages, this`free, this`owner, this`root
      ensures Ok({}) && root == old(root)[a := 0] && KeptBut(old(M()), M(), a, 0, 0x800_0000)
      ensures owner == WithoutSpace(old(owner), a) && |pages| == |old(pages)|
    {
      hide At, PteAt, LocsOwned, OwnersHold, TopOk, FreeOk, KeptBut, IsValid, IsLeaf, IsUser, Lookup, Owned, Special, Without, Unmapped, Sub, WithoutSpace;
      ghost var m0, o0 := M(), owner;
      PageBounds(sz);
      WholeShape(m0, o0, free, {});
      KeptSelf(m0, o0);
      KeptWide(m0, m0, a, 0, 0);
      if sz > 0 {
        Uvmunmap(pt, 0, PGROUNDUP(sz) / 4096, true, a);
      } else {
        WithoutNone(o0, a, 0);
        NoneUnmapped(m0, a);
      }
      ghost var m1, free1 := M(), free;
      WholeShape(m1, owner, free, {});
      UnmappedTree(m0, m1, a, Pages(sz));
      SpaceFree(m1, owner, free, a);
      Freewalk(pt, m1, owner, Loc(a, 0, 0));
      root := root[a := 0];
      DropSpace(m1, M(), owner, free1, free, a);
      TopDropped(m1, M(), a);
      KeptTrans(m0, m1, M(), a, 0, 0x800_0000, a, 0, Pages(sz), a, 0, 0x800_0000);
      owner := WithoutSpace(owner, a);
      WithoutBoth(o0, a, Pages(sz));
    }

    static lemma NoneUnmapped(m: Mem, a: nat)
      requires Shape(m) && a < |m.root|
      ensures Unmapped(m, a, 0, 0)
    {
    }

    static lemma UnmappedTree(m0: Mem, m: Mem, a: nat, n: nat)
      requires Shape(m) && n <= TRAPFRAME && Unmapped(m0, a, n, MAXVPN - n) && Unmapped(m, a, 0, n) && KeptBut(m0, m, a, 0, n)
      requires TopOk(m)
      ensures NoLeaf(m, a)
    {
      hide PteAt, IsValid, Lookup;
      LookupKept(m0, m, a, 0, n);
      forall i | 0 <= i < 0x800_0000 ensures At(m, Loc(a, 3, i)) == 0 {
        assert InTree(m, Loc(a, 3, i));
        if i < MAXVPN {
          LeafEntry(m, a, i);
          assert Lookup(m, a, i) == if i < n then Lookup(m, a, i) else Lookup(m0, a, i);
        }
      }
    }

    static lemma SpaceFree(m: Mem, o: map<nat, Loc>, free: seq<nat>, a: nat)
      requires Owned(m, o, free, {}) && a < |m.root|
      ensures At(m, Loc(a, 0, 0)) == m.root[a] && Distinct(free)
      ensures forall p :: p in Sub(o, Loc(a, 0, 0)) ==> p < |m.pages| && p !in free
    {
      hide Below;
    }

    static lemma TopDropped(m: Mem, m': Mem, a: nat)
      requires Shape(m) && TopOk(m) && KeptBut(m, m', a, 0, 0x800_0000) && a < |m.root| && m'.root[a] == 0 && m'.frame == m.frame
      ensures TopOk(m')
    {
      hide PteAt, IsValid, IsUser;
      IsNotValid();
      forall l | InTree(m', l) && l.d == 3 ensures PteAt(m', l) == if l.a == a then NoPte else PteAt(m, l) {
        if l.a == a {
          EmptySpace(m', l);
        } else {
          assert LeafKept(m, m', l);
        }
      }
      forall b | 0 <= b < |m.root|
        ensures Lookup(m', b, TRAMPOLINE) == if b == a then NoPte else Lookup(m, b, TRAMPOLINE)
        ensures Lookup(m', b, TRAPFRAME) == if b == a then NoPte else Lookup(m, b, TRAPFRAME)
      {
        assert InTree(m', Loc(b, 3, TRAMPOLINE)) && InTree(m', Loc(b, 3, TRAPFRAME));
      }
    }

    static lemma EmptySpace(m: Mem, l: Loc)
      requires Shape(m) && InTree(m, l) && m.root[l.a] == 0
      ensures At(m, l) == 0 && (l.d > 0 ==> PteAt(m, l) == NoPte)
      decreases l.d
    {
      IsNotValid();
      if l.d > 0 {
        ChildParent(m, l);
        EmptySpace(m, Parent(l));
      }
    }

    static lemma WithoutBoth(o: map<nat, Loc>, a: nat, n: nat)
      ensures WithoutSpace(Without(o, a, 0, n), a) == WithoutSpace(o, a)
    {
      assert WithoutSpace(Without(o, a, 0, n), a).Keys == WithoutSpace(o, a).Keys;
    }

    // ---- vmfault, copyin and copyout

    /** `walkaddr`: the physical page of a user mapping, or 0. */
    method Walkaddr(pt: nat, va: nat, ghost a: nat) returns (p: nat)
      requires Ok({}) && a < |root| && root[a] == pt && pt != 0
      modifies this`pages, this`free, this`owner
      ensures M() == old(M()) && free == old(free) && owner == old(owner)
      ensures p != 0 <==> va < MAXVA && IsValid(Lookup(M(), a, va / 4096).flags) && IsUser(Lookup(M(), a, va / 4096).flags)
      ensures p != 0 ==> va / 4096 < TRAPFRAME && p == Lookup(M(), a, va / 4096).ppn
    {
      hide At, PteAt, LocsOwned, OwnersHold, KeptBut, IsValid, IsLeaf, IsUser, Owned, Special, PX;
      if va >= MAXVA {
        return 0;
      }
      WholeShape(M(), owner, free, {});
      ghost var m := M();
      LeafEntry(m, a, va / 4096);
      IsNotValid();
      var t := Walk(pt, va, false, a, {});
      assert M() == m;
      if t == 0 {
        return 0;
      }
      LastIndex(va);
      var e := pages[t].ptes[PX(0, va)];
      if !IsValid(e.flags) {
        return 0;
      }
      if !IsUser(e.flags) {
        return 0;
      }
      assert va / 4096 < TRAPFRAME;
      MappedPage(m, owner, a, va / 4096);
      PoolNotNull(m);
      p := e.ppn;
    }

    static lemma PoolNotNull(m: Mem)
      requires Shape(m)
      ensures m.lo > 0
    {
    }

    /** `ismapped`. */
    method IsMapped(pt: nat, va: nat, ghost a: nat) returns (r: bool)
      requires Ok({}) && a < |root| && root[a] == pt && pt != 0 && va < MAXVA
      modifies this`pages, this`free, this`owner
      ensures M() == old(M()) && free == old(free) && owner == old(owner)
      ensures r == IsValid(Lookup(M(), a, va / 4096).flags)
    {
      hide At, PteAt, LocsOwned, OwnersHold, KeptBut, IsValid, IsLeaf, IsUser, Owned, Special, PX;
      WholeShape(M(), owner, free, {});
      ghost var m := M();
      LeafEntry(m, a, va / 4096);
      IsNotValid();
      var t := Walk(pt, va, false, a, {});
      assert M() == m;
      if t == 0 {
        return false;
      }
      LastIndex(va);
      r := IsValid(pages[t].ptes[PX(0, va)].flags);
    }

    /** `vmfault` for the process whose page table is `pt` and whose size is `sz`:
        a lazily allocated page gets its zero page; what the user sees stays the same. */
    method Vmfault(pt: nat, sz: nat, va: nat, ghost a: nat) returns (mem: nat)
      requires Ok({}) && a < |root| && root[a] == pt && pt != 0 && sz <= TRAPFRAME * 4096
      modifies this`pages, this`free, this`owner
      ensures Ok({}) && |pages| == |old(pages)| && KeptBut(old(M()), M(), a, va / 4096, va / 4096 + 1)
      ensures Wrote(old(M()), M(), a, 0, [])
      ensures mem == 0 ==> va >= sz || IsValid(Lookup(old(M()), a, va / 4096).flags) || (|free| <= 1 && |old(free)| < 3)
      ensures mem == 0 ==> Kept(old(M()), M())
      ensures mem != 0 ==>
                && va < sz && !IsValid(Lookup(old(M()), a, va / 4096).flags)
                && Lookup(M(), a, va / 4096) == Pte(mem, PTE_W | PTE_U | PTE_R | PTE_V)
    {
      hide At, PteAt, LocsOwned, OwnersHold, TopOk, KeptBut, IsValid, IsUser, IsWritable, Owned, Special, Lookup;
      ghost var m, o := M(), owner;
      WholeShape(m, o, free, {});
      KeptSelf(m, o);
      KeptWide(m, m, a, va / 4096, va / 4096 + 1);
      KeptWrote(m, o, m, a, 0);
      if va >= sz {
        return 0;
      }
      var va0 := PGROUNDDOWN(va);
      assert va0 / 4096 == va / 4096 < TRAPFRAME;
      var mapped := IsMapped(pt, va0, a);
      if mapped {
        return 0;
      }
      FaultFlags();
      mem := AddPage(pt, va0, Filled(0), PTE_W | PTE_U | PTE_R, a);
      if mem == 0 {
        KeptWide(m, M(), a, va / 4096, va / 4096 + 1);
        KeptWrote(m, o, M(), a, 0);
      } else {
        FaultWrote(m, o, M(), a, 0, va / 4096);
      }
    }

    static lemma FaultFlags()
      ensures IsLeaf(PTE_W | PTE_U | PTE_R)
      ensures var f := PTE_W | PTE_U | PTE_R | PTE_V; IsValid(f) && IsUser(f) && IsWritable(f)
    {
    }

    /** The user may read, or write, the byte at `v`. */
    static predicate UserMay(m: Mem, a: nat, v: nat, write: bool)
      requires Shape(m) && a < |m.root|
    {
      v / 4096 < TRAPFRAME && var e := Lookup(m, a, v / 4096); IsValid(e.flags) && IsUser(e.flags) && (write ==> IsWritable(e.flags))
    }

    static ghost predicate Accessible(m: Mem, a: nat, at: nat, n: nat, write: bool) {
      Shape(m) && a < |m.root| && forall v :: at <= v < at + n ==> UserMay(m, a, v, write)
    }

    static lemma NothingAccessed(m: Mem, a: nat, at: nat, write: bool)
      requires Shape(m) && a < |m.root|
      ensures Accessible(m, a, at, 0, write)
    {
    }

    /** A page that was not mapped may change. */
    static lemma StillAccessible(m: Mem, m': Mem, a: nat, at: nat, n: nat, write: bool, vpn: nat)
      requires Accessible(m, a, at, n, write) && vpn < MAXVPN && (Kept(m, m') || (KeptBut(m, m', a, vpn, vpn + 1) && !IsValid(Lookup(m, a, vpn).flags)))
      ensures Accessible(m', a, at, n, write)
    {
      hide Lookup, IsValid;
      if Kept(m, m') {
        LookupKept(m, m', 0, 0, 0);
      } else {
        LookupKept(m, m', a, vpn, vpn + 1);
      }
      forall v: nat | at <= v < at + n ensures UserMay(m', a, v, write) {
        assert UserMay(m, a, v, write);
      }
    }

    static lemma ChunkAccessible(m: Mem, m': Mem, a: nat, at: nat, n: nat, k: nat, write: bool)
      requires Accessible(m, a, at, n, write) && Shape(m') && a < |m'.root| && (at + n) % 4096 + k <= 4096
      requires UserMay(m, a, at + n, write) && forall vpn :: 0 <= vpn < MAXVPN ==> Lookup(m', a, vpn) == Lookup(m, a, vpn)
      ensures Accessible(m', a, at, n + k, write)
    {
      hide Lookup, IsValid, IsUser, IsWritable;
      forall v: nat | at <= v < at + (n + k) ensures UserMay(m', a, v, write) {
        if v < at + n {
          assert UserMay(m, a, v, write);
        } else {
          assert v / 4096 == (at + n) / 4096;
        }
      }
    }

    /** Why a copy stops at page address `va`. */
    static ghost predicate CannotCopy(m: Mem, free: seq<nat>, a: nat, sz: nat, va: nat, write: bool) {
      || va >= MAXVA || !Shape(m) || a >= |m.root|
      || var e := Lookup(m, a, va / 4096);
         if IsValid(e.flags) then !IsUser(e.flags) || (write && !IsWritable(e.flags)) else va >= sz || |free| <= 1
    }

    /** `walkaddr`, and `vmfault` if that finds nothing: the page for `va0`, or 0 when
        there is a reason to stop. What was accessible so far stays so. */
    method UserPage(pt: nat, sz: nat, va0: nat, ghost a: nat, ghost at: nat, ghost n: nat, ghost write: bool) returns (pa0: nat)
      requires Ok({}) && a < |root| && root[a] == pt && pt != 0 && sz <= TRAPFRAME * 4096 && Accessible(M(), a, at, n, write)
      modifies this`pages, this`free, this`owner
      ensures Ok({}) && |pages| == |old(pages)| && Wrote(old(M()), M(), a, 0, []) && Accessible(M(), a, at, n, write)
      ensures pa0 == 0 ==> CannotCopy(M(), free, a, sz, va0, write)
      ensures pa0 != 0 ==>
                && va0 / 4096 < TRAPFRAME && Lookup(M(), a, va0 / 4096).ppn == pa0
                && IsValid(Lookup(M(), a, va0 / 4096).flags) && IsUser(Lookup(M(), a, va0 / 4096).flags)
    {
      hide At, PteAt, LocsOwned, OwnersHold, TopOk, KeptBut, IsValid, IsUser, IsWritable, Owned, Special, Lookup, Wrote, Shape, Accessible, CannotCopy;
      ghost var m1 := M();
      WholeShape(m1, owner, free, {});
      KeptSelf(m1, owner);
      KeptWrote(m1, owner, m1, a, 0);
      pa0 := Walkaddr(pt, va0, a);
      if pa0 == 0 {
        pa0 := Vmfault(pt, sz, va0, a);
        WholeShape(M(), owner, free, {});
        FaultAccess(m1, M(), a, at, n, write, va0, pa0);
        if pa0 == 0 {
          CopyStops(m1, M(), free, a, sz, va0, write);
        }
        FaultFlags();
      }
    }

    /** `copyin` for the process with page table `pt` and size `sz`: on success
        the bytes that the user memory shows at `srcva`; user memory stays the same. */
    method Copyin(pt: nat, sz: nat, srcva: nat, len: nat, ghost a: nat) returns (ok: bool, data: seq<int>)
      requires Ok({}) && a < |root| && root[a] == pt && pt != 0 && sz <= TRAPFRAME * 4096
      modifies this`pages, this`free, this`owner
      ensures Ok({}) && |pages| == |old(pages)| && Wrote(old(M()), M(), a, 0, [])
      ensures ok ==> |data| == len && Shows(old(M()), a, srcva, data)
      ensures Accessible(M(), a, srcva, |data|, false)
      ensures !ok ==> |data| < len && CannotCopy(M(), free, a, sz, (srcva + |data|) / 4096 * 4096, false)
    {
      hide At, PteAt, LocsOwned, OwnersHold, TopOk, KeptBut, IsValid, IsUser, IsWritable, Owned, Special, Lookup, Wrote, Shows, Shape, Accessible;
      ghost var m0 := M();
      WholeShape(m0, owner, free, {});
      KeptSelf(m0, owner);
      KeptWrote(m0, owner, m0, a, 0);
      data := [];
      var left, src := len, srcva;
      ShowsNothing(m0, a, srcva);
      NothingAccessed(m0, a, srcva, false);
      while left > 0
        invariant left >= 0 && left + |data| == len && src == srcva + |data| && |pages| == |m0.pages|
        invariant Ok({}) && Wrote(m0, M(), a, 0, []) && Shows(M(), a, srcva, data)
        invariant Accessible(M(), a, srcva, |data|, false)
      {
        ghost var m1 := M();
        WholeShape(m1, owner, free, {});
        var va0 := PGROUNDDOWN(src);
        assert va0 / 4096 == src / 4096;
        var pa0 := UserPage(pt, sz, va0, a, srcva, |data|, false);
        WroteNothing(m0, m1, M(), a, 0, []);
        ShowsSame(m1, M(), a, srcva, data, a, 0);
        if pa0 == 0 {
          return false, data;
        }
        ghost var m2 := M();
        WholeShape(m2, owner, free, {});
        var n := 4096 - (src - va0);
        if n > left {
          n := left;
        }
        ShowsChunk(m2, owner, a, srcva, data, n);
        ChunkAccessible(m2, m2, a, srcva, |data|, n, false);
        data := data + pages[pa0].bytes[src - va0..src - va0 + n];
        left := left - n;
        src := src + n;
      }
      ShowsBack(m0, M(), a, srcva, data);
      ok := true;
    }

    static lemma FaultAccess(m: Mem, m': Mem, a: nat, at: nat, n: nat, write: bool, va: nat, mem: nat)
      requires Accessible(m, a, at, n, write) && (mem == 0 ==> Kept(m, m'))
      requires mem != 0 ==> va / 4096 < MAXVPN && KeptBut(m, m', a, va / 4096, va / 4096 + 1) && !IsValid(Lookup(m, a, va / 4096).flags)
      ensures Accessible(m', a, at, n, write)
    {
      hide Lookup, IsValid, Accessible, KeptBut;
      StillAccessible(m, m', a, at, n, write, if mem == 0 then 0 else va / 4096);
    }

    static lemma ShowsNothing(m: Mem, a: nat, at: nat)
      requires Shape(m) && a < |m.root|
      ensures Shows(m, a, at, [])
    {
    }

    static lemma ShowsBack(m: Mem, m': Mem, a: nat, at: nat, d: seq<int>)
      requires Wrote(m, m', a, 0, []) && Shows(m', a, at, d)
      ensures Shows(m, a, at, d)
    {
      hide UserByte;
    }

    static lemma CopyStops(m1: Mem, m: Mem, free: seq<nat>, a: nat, sz: nat, va: nat, write: bool)
      requires Shape(m1) && Shape(m) && a < |m1.root| && Kept(m1, m)
      requires va >= sz || va >= MAXVA || IsValid(Lookup(m1, a, va / 4096).flags) || |free| <= 1
      requires va < MAXVA ==> !(IsValid(Lookup(m1, a, va / 4096).flags) && IsUser(Lookup(m1, a, va / 4096).flags))
      ensures CannotCopy(m, free, a, sz, va, write)
    {
      hide Lookup, IsValid;
      LookupKept(m1, m, 0, 0, 0);
    }

    /** `memmove` into the page `p` that is mapped at `at`. */
    method PutBytes(p: nat, at: nat, d: seq<int>, ghost a: nat)
      requires Ok({}) && a < |root| && at / 4096 < TRAPFRAME && at % 4096 + |d| <= 4096
      requires IsValid(Lookup(M(), a, at / 4096).flags) && Lookup(M(), a, at / 4096).ppn == p
      modifies this`pages
      ensures Ok({}) && |pages| == |old(pages)| && Wrote(old(M()), M(), a, at, d)
      ensures forall vpn :: 0 <= vpn < MAXVPN ==> Lookup(M(), a, vpn) == Lookup(old(M()), a, vpn)
    {
      hide At, PteAt, LocsOwned, OwnersHold, TopOk, KeptBut, IsValid, IsUser, Owned, Lookup, Wrote, Shape, UserMemory.Patch;
      ghost var m := M();
      WholeShape(m, owner, free, {});
      PutWrote(m, owner, a, at, d);
      var x := Bytes(UserMemory.Patch(pages[p].bytes, at % 4096, d));
      BytesOwned(m, owner, free, {}, p, x);
      TopKept(m, PutPage(m, p, x), a, at / 4096, at / 4096 + 1);
      LookupKept(m, PutPage(m, p, x), a, at / 4096, at / 4096 + 1);
      pages := pages[p := x];
      assert M() == PutPage(m, p, x);
    }

    /** `copyout`: the bytes of `src` show up at `dstva` and no other user byte of
        any process changes; on failure this holds for the part `src[..w]`. */
    method Copyout(pt: nat, sz: nat, dstva: nat, src: seq<int>, ghost a: nat) returns (ok: bool, ghost w: nat)
      requires Ok({}) && a < |root| && root[a] == pt && pt != 0 && sz <= TRAPFRAME * 4096
      modifies this`pages, this`free, this`owner
      ensures Ok({}) && |pages| == |old(pages)| && w <= |src| && (ok <==> w == |src|)
      ensures Wrote(old(M()), M(), a, dstva, src[..w]) && Accessible(M(), a, dstva, w, true)
      ensures !ok ==> CannotCopy(M(), free, a, sz, (dstva + w) / 4096 * 4096, true)
    {
      hide At, PteAt, LocsOwned, OwnersHold, TopOk, KeptBut, IsValid, IsUser, IsWritable, Owned, Special, Lookup, Wrote, Shape, PX, UserMemory.Patch, Accessible;
      ghost var m0 := M();
      WholeShape(m0, owner, free, {});
      KeptSelf(m0, owner);
      KeptWrote(m0, owner, m0, a, dstva);
      w := 0;
      var i, dst := 0, dstva;
      assert src[..0] == [];
      NothingAccessed(m0, a, dstva, true);
      while i < |src|
        invariant i <= |src| && w == i && dst == dstva + i && |pages| == |m0.pages|
        invariant Ok({}) && Wrote(m0, M(), a, dstva, src[..i]) && Accessible(M(), a, dstva, i, true)
      {
        ghost var m1 := M();
        WholeShape(m1, owner, free, {});
        var va0 := PGROUNDDOWN(dst);
        assert va0 / 4096 == dst / 4096;
        if va0 >= MAXVA {
          return false, w;
        }
        var pa0 := UserPage(pt, sz, va0, a, dstva, i, true);
        WroteNothing(m0, m1, M(), a, dstva, src[..i]);
        if pa0 == 0 {
          return false, w;
        }
        ghost var m2 := M();
        WholeShape(m2, owner, free, {});
        LeafEntry(m2, a, dst / 4096);
        LastIndex(va0);
        IsNotValid();
        var t := Walk(pt, va0, false, a, {});
        assert M() == m2;
        if !IsWritable(pages[t].ptes[PX(0, va0)].flags) {
          ReadOnly(m2, free, a, sz, va0);
          return false, w;
        }
        var n := 4096 - (dst - va0);
        if n > |src| - i {
          n := |src| - i;
        }
        PutBytes(pa0, dst, src[i..i + n], a);
        WholeShape(M(), owner, free, {});
        ChunkAccessible(m2, M(), a, dstva, i, n, true);
        WroteTrans(m0, m2, M(), a, dstva, src[..i], src[i..i + n]);
        assert src[..i] + src[i..i + n] == src[..i + n];
        i := i + n;
        dst := dst + n;
        w := i;
      }
      ok := true;
    }

    static lemma ReadOnly(m: Mem, free: seq<nat>, a: nat, sz: nat, va: nat)
      requires Shape(m) && a < |m.root| && va < MAXVA && IsValid(Lookup(m, a, va / 4096).flags) && !IsWritable(Lookup(m, a, va / 4096).flags)
      ensures CannotCopy(m, free, a, sz, va, true)
    {
    }

    static lemma WroteNothing(m0: Mem, m1: Mem, m2: Mem, a: nat, at: nat, d: seq<int>)
      requires Wrote(m0, m1, a, at, d) && Wrote(m1, m2, a, 0, [])
      ensures Wrote(m0, m2, a, at, d)
    {
      hide UserByte;
    }

    // ---- the page tables of processes

    const trampoline: nat           // the physical page of the trampoline code

    /** The page table of process `a` maps the two top pages and, of the user range, only pages below its size. */
    static ghost predicate SpaceOk(m: Mem, tramp: nat, a: nat, p: Proc) {
      && Shape(m) && a < |m.root| && p.pagetable == m.root[a] && p.trapframe == m.frame[a] && p.sz <= TRAPFRAME * 4096
      && if p.pagetable == 0 then p.trapframe == 0 && p.sz == 0
         else
           && p.trapframe != 0 && TopMapped(m, tramp, a, p.trapframe)
           && Unmapped(m, a, Pages(p.sz), TRAPFRAME - Pages(p.sz))
    }

    static ghost predicate TopMapped(m: Mem, tramp: nat, a: nat, trapframe: nat)
      requires Shape(m) && a < |m.root|
    {
      && Lookup(m, a, TRAMPOLINE) == Pte(tramp, PTE_R | PTE_X | PTE_V)
      && Lookup(m, a, TRAPFRAME) == Pte(trapframe, PTE_R | PTE_W | PTE_V)
    }

    /** Between system calls. */
    ghost predicate Valid()
      reads this
    {
      Ok({}) && trampoline != 0 && |proc| == |root| && forall a :: 0 <= a < |proc| ==> SpaceOk(M(), trampoline, a, proc[a])
    }

    /** `kinit`: `freerange` frees every page from the end of the kernel on, whatever
        it holds; no process has memory yet. */
    constructor (end: nat, mem: seq<Page>, tramp: nat, nproc: nat)
      requires 0 < end <= |mem| && tramp != 0
      ensures Valid() && lo == end && |pages| == |mem| && trampoline == tramp && |proc| == nproc
      ensures |free| == |mem| - end && forall k :: 0 <= k < |free| ==> free[k] == |mem| - 1 - k
      ensures forall p :: 0 <= p < |mem| ==> pages[p] == if p < end then mem[p] else Filled(1)
    {
      lo, pages, free, trampoline := end, mem, [], tramp;
      proc := seq(nproc, a => Proc(0, 0, 0));
      root, frame, owner := seq(nproc, a => 0), seq(nproc, a => 0), map[];
      new;
      var p := end;
      while p + 1 <= |mem|
        invariant lo == end <= p <= |mem| == |pages| && trampoline == tramp
        invariant |free| == p - end && forall k :: 0 <= k < |free| ==> free[k] == p - 1 - k
        invariant forall q :: 0 <= q < |mem| ==> pages[q] == if end <= q < p then Filled(1) else mem[q]
        invariant proc == seq(nproc, a => Proc(0, 0, 0)) && root == seq(nproc, a => 0) && frame == root && owner == map[]
      {
        Kfree(p);
        p := p + 1;
      }
      AllFree(M(), free);
    }

    /** Memory right after boot: all allocatable pages are free, and no process has any. */
    static lemma AllFree(m: Mem, free: seq<nat>)
      requires Shape(m) && (forall a :: 0 <= a < |m.root| ==> m.root[a] == 0 && m.frame[a] == 0)
      requires |free| == |m.pages| - m.lo && forall k :: 0 <= k < |free| ==> free[k] == |m.pages| - 1 - k
      ensures Owned(m, map[], free, {}) && TopOk(m)
    {
      forall l | InTree(m, l) || Ownable(m, l) ensures At(m, l) == 0 {
        NoneAt(m, l);
      }
      forall a | 0 <= a < |m.root| ensures Lookup(m, a, TRAMPOLINE) == NoPte && Lookup(m, a, TRAPFRAME) == NoPte {
        assert At(m, Parent(Loc(a, 3, TRAMPOLINE))) == 0 && At(m, Parent(Loc(a, 3, TRAPFRAME))) == 0;
      }
      assert !IsUser(NoPte.flags);
      forall p | m.lo <= p < |m.pages| ensures p in free {
        assert free[|m.pages| - 1 - p] == p;
      }
    }

    static lemma {:induction false} NoneAt(m: Mem, l: Loc)
      requires Shape(m) && (forall a :: 0 <= a < |m.root| ==> m.root[a] == 0 && m.frame[a] == 0)
      requires InTree(m, l) || Ownable(m, l)
      ensures At(m, l) == 0
      decreases if l.Frame? then 0 else l.d
    {
      if l.Loc? && l.d > 0 {
        ChildParent(m, l);
        NoneAt(m, Parent(l));
        assert PteAt(m, l) == NoPte && !IsValid(NoPte.flags);
      }
    }

    static lemma SpaceApart(m: Mem, m': Mem, tramp: nat, a: nat, b: nat, p: Proc)
      requires SpaceOk(m, tramp, b, p) && KeptApart(m, m', a) && a != b
      ensures SpaceOk(m', tramp, b, p)
    {
      hide PteAt, IsValid, Pages;
      PageBounds(p.sz);
      forall vpn | 0 <= vpn < MAXVPN ensures Lookup(m', b, vpn) == Lookup(m, b, vpn) {
        assert InTree(m, Loc(b, 3, vpn)) && LeafKept(m, m', Loc(b, 3, vpn));
      }
    }

    static lemma UserFlags()
      ensures IsLeaf(PTE_R | PTE_X) && !IsUser(PTE_R | PTE_X | PTE_V) && IsLeaf(PTE_R | PTE_W) && !IsUser(PTE_R | PTE_W | PTE_V)
    {
    }

    /** `uvmcreate`: an empty address space, or 0 when memory is out. */
    method Uvmcreate(ghost a: nat) returns (pt: nat)
      requires Ok({}) && a < |root| && root[a] == 0
      modifies this`pages, this`free, this`owner, this`root
      ensures Ok({}) && root == old(root)[a := pt] && |pages| == |old(pages)|
      ensures KeptBut(old(M()), M(), a, 0, 0x800_0000)
      ensures pt == 0 ==> free == old(free) == []
      ensures pt != 0 ==> Unmapped(M(), a, 0, MAXVPN) && |free| + 1 == |old(free)|
    {
      hide At, PteAt, LocsOwned, OwnersHold, TopOk, FreeOk, KeptBut, IsValid, IsLeaf, IsUser, Lookup, Owned, Special;
      ghost var m0 := M();
      pt := Kalloc({});
      ghost var m1 := M();
      KeptWide(m0, m1, a, 0, 0x800_0000);
      if pt == 0 {
        assert root == root[a := 0];
        return;
      }
      assert {} + {pt} == {pt};
      WholeShape(m1, owner, free, {pt});
      FillOwned(m1, owner, free, {pt}, pt, ZeroTable());
      pages := pages[pt := ZeroTable()];
      ghost var m2 := M();
      assert m2 == PutPage(m1, pt, ZeroTable());
      NewSpace(m2, owner, free, pt, a);
      root := root[a := pt];
      owner := owner[pt := Loc(a, 0, 0)];
      assert M() == m2.(root := m2.root[a := pt]);
      KeptBoth(m0, m1, m2);
      KeptTrans(m0, m2, M(), a, 0, 0x800_0000, 0, 0, 0, a, 0, 0x800_0000);
      IsNotValid();
    }

    /** Mapping one of the two top pages. */
    method MapTop(pt: nat, vpn: nat, ppn: nat, perm: bv10, ghost a: nat) returns (ok: bool)
      requires Ok({}) && a < |root| && root[a] == pt && pt != 0 && (vpn == TRAMPOLINE || vpn == TRAPFRAME)
      requires ppn != 0 && IsLeaf(perm) && !IsUser(perm | PTE_V) && Unmapped(M(), a, vpn, 1)
      modifies this`pages, this`free, this`owner
      ensures Ok({}) && |pages| == |old(pages)| && KeptBut(old(M()), M(), a, vpn, vpn + 1)
      ensures ok ==> Lookup(M(), a, vpn) == Pte(ppn, perm | PTE_V)
      ensures !ok ==> Unmapped(M(), a, vpn, 1) && free == [] && |old(free)| < Missing(old(M()), a, vpn)
      ensures |free| + Missing(old(M()), a, vpn) >= |old(free)|
    {
      hide At, PteAt, LocsOwned, OwnersHold, TopOk, FreeOk, KeptBut, IsValid, IsLeaf, IsUser, Lookup, Owned, Special, Linked, Unmapped;
      ghost var m := M();
      assert vpn * 4096 / 4096 == vpn;
      ghost var done;
      ok, done := Mappages(pt, vpn * 4096, 4096, ppn, perm, a, {});
      if ok {
        OneLinked(m, M(), a, vpn, ppn - vpn, perm);
      } else {
        KeptEmpty(m, M(), a, vpn);
        KeptWide(m, M(), a, vpn, vpn + 1);
        UnmappedKept(m, M(), a, vpn, 1);
      }
    }

    static lemma OneLinked(m0: Mem, m: Mem, a: nat, vpn: nat, d: int, perm: bv10)
      requires Linked(m0, m, a, vpn, 1, d, perm)
      ensures 0 < vpn + d && Lookup(m, a, vpn) == Pte(vpn + d, perm | PTE_V)
    {
      assert LinkedPage(m0, m, a, vpn, d, perm);
    }

    /** `proc_pagetable`: a page table with only the two top pages, or none at all. */
    method ProcPagetable(trapframe: nat, ghost a: nat) returns (pt: nat)
      requires Ok({}) && a < |root| && root[a] == 0 && trapframe != 0 && trampoline != 0
      modifies this`pages, this`free, this`owner, this`root
      ensures Ok({}) && root == old(root)[a := pt] && |pages| == |old(pages)|
      ensures KeptBut(old(M()), M(), a, 0, 0x800_0000)
      ensures pt != 0 ==> Unmapped(M(), a, 0, TRAPFRAME) && TopMapped(M(), trampoline, a, trapframe) && |free| + 3 >= |old(free)|
      ensures pt == 0 ==> |old(free)| < 5
    {
      hide At, PteAt, LocsOwned, OwnersHold, TopOk, FreeOk, KeptBut, IsValid, IsLeaf, IsUser, Lookup, Owned, Special, Unmapped, WithoutSpace, Without, Missing;
      ghost var m0, all := M(), 0x800_0000;
      UserFlags();
      pt := Uvmcreate(a);
      if pt == 0 {
        return;
      }
      ghost var m1 := M();
      UnmappedPart(m1, a, 0, MAXVPN, TRAMPOLINE, 1);
      var ok := MapTop(pt, TRAMPOLINE, trampoline, PTE_R | PTE_X, a);
      ghost var m2 := M();
      KeptTrans(m0, m1, m2, a, 0, all, a, 0, all, a, TRAMPOLINE, TRAMPOLINE + 1);
      UnmappedBut(m1, m2, a, TRAMPOLINE);
      if !ok {
        UnmappedTop(m2, a);
        Uvmfree(pt, 0, a);
        KeptTrans(m0, m2, M(), a, 0, all, a, 0, all, a, 0, all);
        return 0;
      }
      UnmappedPart(m2, a, 0, TRAMPOLINE, TRAPFRAME, 1);
      ok := MapTop(pt, TRAPFRAME, trapframe, PTE_R | PTE_W, a);
      ghost var m3 := M();
      KeptTrans(m0, m2, m3, a, 0, all, a, 0, all, a, TRAPFRAME, TRAPFRAME + 1);
      UnmappedBut2(m2, m3, a);
      if !ok {
        Uvmunmap(pt, TRAMPOLINE * 4096, 1, false, a);
        ghost var m4 := M();
        KeptTrans(m0, m3, m4, a, 0, all, a, 0, all, a, TRAMPOLINE, TRAMPOLINE + 1);
        UnmappedAgain(m3, m4, a);
        Uvmfree(pt, 0, a);
        KeptTrans(m0, m4, M(), a, 0, all, a, 0, all, a, 0, all);
        return 0;
      }
      LookupKept(m2, m3, a, TRAPFRAME, TRAPFRAME + 1);
      TopFlags();
      NothingMissing(m2, a, TRAMPOLINE, TRAPFRAME);
    }

    static lemma TopFlags()
      ensures IsValid(PTE_R | PTE_X | PTE_V)
    {
    }

    static lemma UnmappedPart(m: Mem, a: nat, vpn: nat, n: nat, vpn': nat, n': nat)
      requires Unmapped(m, a, vpn, n) && vpn <= vpn' && vpn' + n' <= vpn + n
      ensures Unmapped(m, a, vpn', n')
    {
    }

    static lemma UnmappedBut(m: Mem, m': Mem, a: nat, vpn: nat)
      requires Unmapped(m, a, 0, MAXVPN) && vpn == TRAMPOLINE && KeptBut(m, m', a, vpn, vpn + 1)
      ensures Unmapped(m', a, 0, TRAMPOLINE)
    {
      hide Lookup, IsValid;
      LookupKept(m, m', a, vpn, vpn + 1);
    }

    static lemma UnmappedTop(m: Mem, a: nat)
      requires Unmapped(m, a, 0, TRAMPOLINE) && Unmapped(m, a, TRAMPOLINE, 1)
      ensures Unmapped(m, a, Pages(0), MAXVPN - Pages(0))
    {
      hide Lookup, IsValid;
    }

    static lemma UnmappedBut2(m: Mem, m': Mem, a: nat)
      requires Unmapped(m, a, 0, TRAMPOLINE) && KeptBut(m, m', a, TRAPFRAME, TRAPFRAME + 1)
      ensures Unmapped(m', a, 0, TRAPFRAME)
    {
      hide Lookup, IsValid;
      LookupKept(m, m', a, TRAPFRAME, TRAPFRAME + 1);
    }

    static lemma UnmappedAgain(m: Mem, m': Mem, a: nat)
      requires Unmapped(m, a, 0, TRAPFRAME) && Unmapped(m, a, TRAPFRAME, 1) && Unmapped(m', a, TRAMPOLINE, 1)
      requires KeptBut(m, m', a, TRAMPOLINE, TRAMPOLINE + 1)
      ensures Unmapped(m', a, Pages(0), MAXVPN - Pages(0))
    {
      hide Lookup, IsValid;
      LookupKept(m, m', a, TRAMPOLINE, TRAMPOLINE + 1);
    }

    /** `proc_freepagetable`. */
    method ProcFreepagetable(pt: nat, sz: nat, ghost a: nat)
      requires Ok({}) && a < |root| && root[a] == pt && pt != 0 && sz <= TRAPFRAME * 4096
      requires Unmapped(M(), a, Pages(sz), TRAPFRAME - Pages(sz))
      modifies this`pages, this`free, this`owner, this`root
      ensures Ok({}) && root == old(root)[a := 0] && |pages| == |old(pages)|
      ensures KeptBut(old(M()), M(), a, 0, 0x800_0000) && owner == WithoutSpace(old(owner), a)
    {
      hide At, PteAt, LocsOwned, OwnersHold, TopOk, FreeOk, KeptBut, IsValid, IsLeaf, IsUser, Lookup, Owned, Special, Unmapped, WithoutSpace, Without;
      ghost var m0, all, o0 := M(), 0x800_0000, owner;
      PageBounds(sz);
      Uvmunmap(pt, TRAMPOLINE * 4096, 1, false, a);
      ghost var m1 := M();
      ghost var o1 := owner;
      Uvmunmap(pt, TRAPFRAME * 4096, 1, false, a);
      ghost var m2 := M();
      KeptTrans(m0, m1, m2, a, 0, all, a, TRAMPOLINE, TRAMPOLINE + 1, a, TRAPFRAME, TRAPFRAME + 1);
      UnmappedThree(m0, m1, m2, a, Pages(sz));
      WithoutTops(o0, a);
      Uvmfree(pt, sz, a);
      KeptTrans(m0, m2, M(), a, 0, all, a, 0, all, a, 0, all);
    }

    static lemma UnmappedThree(m0: Mem, m1: Mem, m2: Mem, a: nat, n: nat)
      requires n <= TRAPFRAME && Unmapped(m0, a, n, TRAPFRAME - n) && Unmapped(m1, a, TRAMPOLINE, 1) && Unmapped(m2, a, TRAPFRAME, 1)
      requires KeptBut(m0, m1, a, TRAMPOLINE, TRAMPOLINE + 1) && KeptBut(m1, m2, a, TRAPFRAME, TRAPFRAME + 1)
      ensures Unmapped(m2, a, n, MAXVPN - n)
    {
      hide Lookup, IsValid;
      LookupKept(m0, m1, a, TRAMPOLINE, TRAMPOLINE + 1);
      LookupKept(m1, m2, a, TRAPFRAME, TRAPFRAME + 1);
    }

    static lemma WithoutTops(o: map<nat, Loc>, a: nat)
      ensures WithoutSpace(Without(Without(o, a, TRAMPOLINE, 1), a, TRAPFRAME, 1), a) == WithoutSpace(o, a)
    {
      assert WithoutSpace(Without(Without(o, a, TRAMPOLINE, 1), a, TRAPFRAME, 1), a).Keys == WithoutSpace(o, a).Keys;
    }

    /** Every process but `a` keeps its memory and page table. */
    ghost predicate OthersOk(a: nat)
      reads this
    {
      Ok({}) && trampoline != 0 && |proc| == |root| && forall b :: 0 <= b < |proc| && b != a ==> SpaceOk(M(), trampoline, b, proc[b])
    }

    static lemma OthersApart(m: Mem, m': Mem, tramp: nat, a: nat, procs: seq<Proc>)
      requires KeptApart(m, m', a) && |procs| == |m.root|
      requires forall b :: 0 <= b < |procs| && b != a ==> SpaceOk(m, tramp, b, procs[b])
      ensures forall b :: 0 <= b < |procs| && b != a ==> SpaceOk(m', tramp, b, procs[b])
    {
      hide SpaceOk, KeptApart;
      forall b | 0 <= b < |procs| && b != a ensures SpaceOk(m', tramp, b, procs[b]) {
        SpaceApart(m, m', tramp, a, b, procs[b]);
      }
    }

    /** The part of `freeproc` that gives back memory. */
    method Freeproc(a: nat)
      requires OthersOk(a) && a < |proc| && proc[a].pagetable == root[a] && proc[a].trapframe == frame[a] && proc[a].sz <= TRAPFRAME * 4096
      requires root[a] != 0 ==> Unmapped(M(), a, Pages(proc[a].sz), TRAPFRAME - Pages(proc[a].sz))
      modifies this`pages, this`free, this`owner, this`root, this`frame, this`proc
      ensures Valid() && proc == old(proc)[a := Proc(0, 0, 0)] && KeptApart(old(M()), M(), a)
    {
      hide At, PteAt, LocsOwned, OwnersHold, TopOk, FreeOk, KeptBut, IsValid, IsLeaf, IsUser, Lookup, Owned, Special, Unmapped, WithoutSpace, KeptApart, SpaceOk, Pages;
      ghost var m0 := M();
      WholeShape(m0, owner, free, {});
      KeptSelf(m0, owner);
      KeptIsApart(m0, m0, a, 0, 0, 0);
      if proc[a].trapframe != 0 {
        DropFrame(m0, owner, free, a, Filled(1));
        Kfree(proc[a].trapframe);
        owner := owner - {frame[a]};
        frame := frame[a := 0];
        assert M() == PutPage(m0, m0.frame[a], Filled(1)).(frame := m0.frame[a := 0]);
      } else {
        assert frame[a := 0] == frame;
      }
      ghost var m1 := M();
      if proc[a].pagetable != 0 {
        PageBounds(proc[a].sz);
        UnmappedSame(m0, m1, a, Pages(proc[a].sz));
        ProcFreepagetable(proc[a].pagetable, proc[a].sz, a);
        KeptIsApart(m1, M(), a, a, 0, 0x800_0000);
        ApartTrans(m0, m1, M(), a);
      } else {
        assert root[a := 0] == root;
      }
      OthersApart(m0, M(), trampoline, a, proc);
      proc := proc[a := Proc(0, 0, 0)];
      NoSpace(M(), trampoline, a);
    }

    static lemma UnmappedSame(m: Mem, m': Mem, a: nat, n: nat)
      requires n <= TRAPFRAME && Unmapped(m, a, n, TRAPFRAME - n) && Shape(m') && |m'.root| == |m.root|
      requires m' == m || forall vpn :: 0 <= vpn < MAXVPN ==> Lookup(m', a, vpn) == Lookup(m, a, vpn)
      ensures Unmapped(m', a, n, TRAPFRAME - n)
    {
      hide Lookup, IsValid;
    }

    static lemma NoSpace(m: Mem, tramp: nat, a: nat)
      requires Shape(m) && a < |m.root| && m.root[a] == 0 && m.frame[a] == 0
      ensures SpaceOk(m, tramp, a, Proc(0, 0, 0))
    {
    }

    /** The part of `allocproc` that takes memory, for an unused process. */
    method Allocproc(a: nat) returns (ok: bool)
      requires Valid() && a < |proc| && proc[a] == Proc(0, 0, 0)
      modifies this`pages, this`free, this`owner, this`root, this`frame, this`proc
      ensures Valid() && |proc| == |old(proc)| && proc == old(proc)[a := proc[a]] && KeptApart(old(M()), M(), a)
      ensures !ok ==> proc == old(proc) && |old(free)| < 6
      ensures ok ==> proc[a].pagetable != 0 && proc[a].sz == 0 && |free| + 4 >= |old(free)|
    {
      hide At, PteAt, LocsOwned, OwnersHold, TopOk, FreeOk, KeptBut, IsValid, IsLeaf, IsUser, Lookup, Owned, Special, Unmapped, KeptApart, TopMapped;
      ghost var m0 := M();
      WholeShape(m0, owner, free, {});
      assert SpaceOk(m0, trampoline, a, proc[a]);
      assert root[a] == 0 && frame[a] == 0;
      var tf := Kalloc({});
      ghost var m1 := M();
      KeptIsApart(m0, m1, a, 0, 0, 0);
      hide SpaceOk, Pages;
      OthersApart(m0, m1, trampoline, a, proc);
      if tf == 0 {
        Freeproc(a);
        ApartTrans(m0, m1, M(), a);
        assert proc == old(proc);
        return false;
      }
      assert {} + {tf} == {tf};
      NewFrame(m1, owner, free, tf, a);
      frame := frame[a := tf];
      owner := owner[tf := Frame(a)];
      proc := proc[a := proc[a].(trapframe := tf)];
      ghost var m2 := M();
      assert m2 == m1.(frame := m1.frame[a := tf]);
      ApartTrans(m0, m1, m2, a);
      OthersApart(m1, m2, trampoline, a, old(proc));
      assert forall b :: 0 <= b < |proc| && b != a ==> proc[b] == old(proc)[b];
      var pt := ProcPagetable(tf, a);
      ghost var m3 := M();
      KeptIsApart(m2, m3, a, a, 0, 0x800_0000);
      ApartTrans(m0, m2, m3, a);
      OthersApart(m2, m3, trampoline, a, proc);
      proc := proc[a := proc[a].(pagetable := pt)];
      if pt == 0 {
        Freeproc(a);
        ApartTrans(m0, m3, M(), a);
        assert proc == old(proc);
        return false;
      }
      NewSpaceOk(m3, trampoline, a, proc[a]);
      ok := true;
    }

    static lemma NewSpaceOk(m: Mem, tramp: nat, a: nat, p: Proc)
      requires Shape(m) && a < |m.root| && p == Proc(m.root[a], m.frame[a], 0) && p.pagetable != 0 && p.trapframe != 0
      requires TopMapped(m, tramp, a, p.trapframe) && Unmapped(m, a, 0, TRAPFRAME)
      ensures SpaceOk(m, tramp, a, p)
    {
    }

    /** `growproc` by `n` bytes: what the user sees below the smaller of the two
        sizes stays, and what lies above it reads as zero; the page tables of
        all processes keep their shape, so that "remap" is unreachable. */
    method Growproc(a: nat, n: int) returns (r: int)
      requires Valid() && a < |proc| && proc[a].pagetable != 0 && -0x8000_0000 <= n < 0x8000_0000
      modifies this`pages, this`free, this`owner, this`proc
      ensures Valid() && KeptApart(old(M()), M(), a) && r in {0, -1}
      ensures proc == old(proc)[a := old(proc)[a].(sz := GrownSize(old(proc)[a].sz, n, r))]
      ensures r == -1 ==>
                n > 0 && (old(proc)[a].sz + n > TRAPFRAME * 4096 || |old(free)| < Need(Pages(old(proc)[a].sz), Pages(old(proc)[a].sz + n)))
      ensures n > 0 && old(proc)[a].sz + n > TRAPFRAME * 4096 ==> r == -1
      ensures n >= 0 ==> Wrote(old(M()), M(), a, 0, [])
      ensures r == 0 && n > 0 ==> Zeroed(M(), a, Pages(old(proc)[a].sz), Pages(proc[a].sz), PTE_R | PTE_U | PTE_W | PTE_V)
      ensures n < 0 ==> KeptBut(old(M()), M(), a, Pages(proc[a].sz), TRAPFRAME) && Unmapped(M(), a, Pages(proc[a].sz), TRAPFRAME - Pages(proc[a].sz))
    {
      hide At, PteAt, LocsOwned, OwnersHold, TopOk, FreeOk, KeptBut, IsValid, IsLeaf, IsUser, Lookup, Owned, Special, Unmapped, KeptApart, TopMapped, Wrote, Pages, Zeroed, Without, Need;
      ghost var m0, o0 := M(), owner;
      var sz := proc[a].sz;
      SpaceParts(m0, trampoline, a, proc[a]);
      PageBounds(sz);
      WholeShape(m0, o0, free, {});
      KeptSelf(m0, o0);
      KeptWide(m0, m0, a, Pages(sz), TRAPFRAME);
      KeptWrote(m0, o0, m0, a, 0);
      KeptIsApart(m0, m0, a, 0, 0, 0);
      hide SpaceOk;
      assert proc[a := proc[a].(sz := sz)] == proc;
      if n > 0 {
        if sz + n > TRAPFRAME * 4096 {
          return -1;
        }
        PageBounds(sz + n);
        UnmappedGrow(m0, a, sz, sz + n);
        var r1 := Uvmalloc(proc[a].pagetable, sz, sz + n, PTE_W, a);
        GrowFlags();
        KeptIsApart(m0, M(), a, a, Pages(sz), Pages(sz + n));
        OthersApart(m0, M(), trampoline, a, proc);
        GrewSpace(m0, o0, M(), trampoline, a, proc[a], sz + n, r1);
        if r1 == 0 {
          return -1;
        }
        sz := r1;
      } else if n < 0 {
        ghost var sz0 := sz;
        sz := Uvmdealloc(proc[a].pagetable, sz, (sz + n) % 0x1_0000_0000_0000_0000, a);
        assert sz == GrownSize(sz0, n, 0);
        PagesMono(sz, sz0);
        ShrunkSpace(m0, M(), trampoline, a, proc[a], sz);
        OthersApart(m0, M(), trampoline, a, proc);
      }
      proc := proc[a := proc[a].(sz := sz)];
      r := 0;
    }

    /** The size after `growproc` by `n` returned `r`; shrinking below 0 changes nothing. */
    static function GrownSize(sz: nat, n: int, r: int): nat {
      if r != 0 || sz + n < 0 then sz else sz + n
    }

    static lemma PagesMono(x: nat, y: nat)
      requires x <= y
      ensures Pages(x) <= Pages(y)
    {
    }

    static lemma SpaceParts(m: Mem, tramp: nat, a: nat, p: Proc)
      requires SpaceOk(m, tramp, a, p) && p.pagetable != 0
      ensures a < |m.root| && m.root[a] == p.pagetable && p.sz <= TRAPFRAME * 4096 && Unmapped(m, a, Pages(p.sz), TRAPFRAME - Pages(p.sz))
    {
    }

    static lemma GrowFlags()
      ensures IsValid(PTE_R | PTE_U | PTE_W | PTE_V)
    {
    }

    static lemma UnmappedGrow(m: Mem, a: nat, sz: nat, newsz: nat)
      requires sz <= newsz <= TRAPFRAME * 4096 && Pages(sz) <= TRAPFRAME && Unmapped(m, a, Pages(sz), TRAPFRAME - Pages(sz))
      ensures Pages(sz) <= Pages(newsz) <= TRAPFRAME && Unmapped(m, a, Pages(sz), Pages(newsz) - Pages(sz))
    {
      hide Lookup, IsValid;
    }

    static lemma GrewSpace(m0: Mem, o0: map<nat, Loc>, m: Mem, tramp: nat, a: nat, p: Proc, newsz: nat, r: nat)
      requires SpaceOk(m0, tramp, a, p) && p.pagetable != 0 && p.sz <= newsz <= TRAPFRAME * 4096 && newsz > 0
      requires LocsOwned(m0, o0) && OwnersHold(m0, o0) && m.root == m0.root && m.frame == m0.frame
      requires KeptBut(m0, m, a, Pages(p.sz), Pages(newsz)) && Pages(p.sz) <= Pages(newsz) <= TRAPFRAME && r in {0, newsz}
      requires r != 0 ==> Zeroed(m, a, Pages(p.sz), Pages(newsz), PTE_R | PTE_U | PTE_W | PTE_V)
      requires r == 0 ==> Unmapped(m, a, Pages(p.sz), Pages(newsz) - Pages(p.sz))
      ensures SpaceOk(m, tramp, a, if r == 0 then p else p.(sz := newsz)) && Wrote(m0, m, a, 0, [])
    {
      hide PteAt, IsValid, Pages, Lookup, At, UserByte;
      LookupKept(m0, m, a, Pages(p.sz), Pages(newsz));
      forall b, v | 0 <= b < |m0.root| && 0 <= v && v / 4096 < TRAPFRAME ensures UserByte(m, b, v) == UserByte(m0, b, v) {
        var vpn := v / 4096;
        if b == a && Pages(p.sz) <= vpn < Pages(newsz) {
          NewByte(m0, m, a, p.sz, newsz, v, r);
        } else {
          assert InTree(m0, Loc(b, 3, vpn)) && LeafKept(m0, m, Loc(b, 3, vpn));
          SameByte(m0, o0, m, b, v);
        }
      }
    }

    static lemma NewByte(m0: Mem, m: Mem, a: nat, sz: nat, newsz: nat, v: nat, r: nat)
      requires Shape(m0) && Shape(m) && a < |m0.root| == |m.root| && v / 4096 < TRAPFRAME
      requires Pages(sz) <= v / 4096 < Pages(newsz) <= TRAPFRAME && Unmapped(m0, a, Pages(sz), TRAPFRAME - Pages(sz))
      requires r != 0 ==> Zeroed(m, a, Pages(sz), Pages(newsz), PTE_R | PTE_U | PTE_W | PTE_V)
      requires r == 0 ==> Unmapped(m, a, Pages(sz), Pages(newsz) - Pages(sz))
      ensures UserByte(m, a, v) == UserByte(m0, a, v)
    {
      hide PteAt, IsValid, Pages, Lookup;
      var vpn := v / 4096;
      assert !IsValid(Lookup(m0, a, vpn).flags);
      if r != 0 {
        assert Holds(m, a, vpn, PTE_R | PTE_U | PTE_W | PTE_V, Filled(0));
      }
    }

    static lemma ShrunkSpace(m0: Mem, m: Mem, tramp: nat, a: nat, p: Proc, newsz: nat)
      requires SpaceOk(m0, tramp, a, p) && p.pagetable != 0 && newsz <= p.sz && m.root == m0.root && m.frame == m0.frame
      requires if newsz < p.sz then Pages(newsz) <= Pages(p.sz) && KeptBut(m0, m, a, Pages(newsz), Pages(p.sz)) && Unmapped(m, a, Pages(newsz), Pages(p.sz) - Pages(newsz))
               else m == m0
      requires KeptApart(m0, m0, a) && KeptBut(m0, m0, a, Pages(p.sz), TRAPFRAME)
      ensures SpaceOk(m, tramp, a, p.(sz := newsz)) && KeptApart(m0, m, a)
      ensures KeptBut(m0, m, a, Pages(newsz), TRAPFRAME) && Pages(newsz) <= TRAPFRAME && Unmapped(m, a, Pages(newsz), TRAPFRAME - Pages(newsz))
    {
      hide PteAt, IsValid, Lookup, LeafKept, FrameKept;
      PageBounds(p.sz);
      if newsz < p.sz {
        LookupKept(m0, m, a, Pages(newsz), Pages(p.sz));
        KeptIsApart(m0, m, a, a, Pages(newsz), Pages(p.sz));
      }
    }

    /** `sys_sbrk`: eager growth, or lazy growth that only moves the size. */
    method SysSbrk(a: nat, n: int, eager: bool) returns (r: int)
      requires Valid() && a < |proc| && proc[a].pagetable != 0 && -0x8000_0000 <= n < 0x8000_0000
      modifies this`pages, this`free, this`owner, this`proc
      ensures Valid() && KeptApart(old(M()), M(), a) && (r == -1 || r == old(proc)[a].sz)
      ensures r == -1 ==> proc == old(proc)
      ensures r == -1 ==>
                && n > 0
                && (old(proc)[a].sz + n > TRAPFRAME * 4096 || (eager && |old(free)| < Need(Pages(old(proc)[a].sz), Pages(old(proc)[a].sz + n))))
      ensures r != -1 ==> proc == old(proc)[a := old(proc)[a].(sz := GrownSize(old(proc)[a].sz, n, 0))]
      ensures n >= 0 ==> Wrote(old(M()), M(), a, 0, [])
    {
      hide At, PteAt, LocsOwned, OwnersHold, TopOk, FreeOk, KeptBut, IsValid, IsLeaf, IsUser, Lookup, Owned, Special, Unmapped, KeptApart, TopMapped, Wrote, Pages, Zeroed, Need;
      ghost var m0 := M();
      WholeShape(m0, owner, free, {});
      KeptSelf(m0, owner);
      KeptWrote(m0, owner, m0, a, 0);
      KeptIsApart(m0, m0, a, 0, 0, 0);
      var addr := proc[a].sz;
      if eager || n < 0 {
        r := Growproc(a, n);
        if r < 0 {
          assert proc == old(proc);
          return -1;
        }
      } else {
        if addr + n > TRAPFRAME * 4096 {
          return -1;
        }
        LazySpace(m0, trampoline, a, proc[a], addr + n);
        hide SpaceOk;
        proc := proc[a := proc[a].(sz := addr + n)];
      }
      r := addr;
    }

    static lemma LazySpace(m: Mem, tramp: nat, a: nat, p: Proc, newsz: nat)
      requires SpaceOk(m, tramp, a, p) && p.pagetable != 0 && p.sz <= newsz <= TRAPFRAME * 4096
      ensures SpaceOk(m, tramp, a, p.(sz := newsz))
    {
      hide Lookup, IsValid;
      PageBounds(newsz);
      PageBounds(p.sz);
    }

    // ---- kfork

    /** The user memory of `b` reads like that of `a`. */
    static ghost predicate SameMemory(m: Mem, m': Mem, a: nat, b: nat) {
      && Shape(m) && Shape(m') && |m.root| == |m'.root| && a < |m.root| && b < |m.root|
      && forall v :: 0 <= v && v / 4096 < TRAPFRAME ==> UserByte(m', b, v) == UserByte(m, a, v)
    }

    static lemma CopiedMemory(m0: Mem, o0: map<nat, Loc>, m: Mem, a: nat, b: nat, n: nat)
      requires Shape(m0) && LocsOwned(m0, o0) && OwnersHold(m0, o0) && a < |m0.root| && b < |m0.root| && a != b
      requires KeptBut(m0, m, b, 0, n) && Copied(m, a, b, n) && n <= TRAPFRAME
      requires Unmapped(m0, a, n, TRAPFRAME - n) && Unmapped(m0, b, 0, TRAPFRAME)
      ensures SameMemory(m0, m, a, b) && SameMemory(m0, m, a, a)
    {
      hide PteAt, IsValid, Lookup;
      LookupKept(m0, m, b, 0, n);
      forall v | 0 <= v && v / 4096 < TRAPFRAME ensures UserByte(m, b, v) == UserByte(m0, a, v) == UserByte(m, a, v) {
        var vpn := v / 4096;
        assert InTree(m0, Loc(a, 3, vpn)) && LeafKept(m0, m, Loc(a, 3, vpn));
        SameByte(m0, o0, m, a, v);
        if vpn < n {
          assert CopiedPage(m, a, b, vpn);
        }
      }
    }

    static lemma EmptyUser(m: Mem, b: nat, sz: nat)
      requires Unmapped(m, b, Pages(0), TRAPFRAME - Pages(0)) && sz <= TRAPFRAME * 4096
      ensures Unmapped(m, b, 0, TRAPFRAME) && Unmapped(m, b, 0, Pages(sz))
    {
      hide Lookup, IsValid;
    }

    static lemma EmptyAfter(m1: Mem, m2: Mem, b: nat, n: nat)
      requires n <= TRAPFRAME && Unmapped(m1, b, 0, TRAPFRAME) && KeptBut(m1, m2, b, 0, n)
      ensures Unmapped(m2, b, n, TRAPFRAME - n)
      ensures Unmapped(m2, b, 0, n) ==> Unmapped(m2, b, Pages(0), TRAPFRAME - Pages(0))
    {
      hide Lookup, IsValid;
      LookupKept(m1, m2, b, 0, n);
    }

    static lemma SameMemoryApart(m0: Mem, o0: map<nat, Loc>, m1: Mem, m2: Mem, a: nat, b: nat)
      requires Shape(m0) && LocsOwned(m0, o0) && OwnersHold(m0, o0) && KeptApart(m0, m1, b) && a != b
      requires SameMemory(m1, m2, a, b)
      ensures SameMemory(m0, m2, a, b)
    {
      hide PteAt, UserByte;
      forall v | 0 <= v && v / 4096 < TRAPFRAME ensures UserByte(m2, b, v) == UserByte(m0, a, v) {
        assert InTree(m0, Loc(a, 3, v / 4096)) && LeafKept(m0, m1, Loc(a, 3, v / 4096));
        SameByte(m0, o0, m1, a, v);
      }
    }

    static lemma ChildSpace(m1: Mem, m2: Mem, tramp: nat, b: nat, p: Proc, sz: nat)
      requires SpaceOk(m1, tramp, b, p) && p.pagetable != 0 && sz <= TRAPFRAME * 4096 && Pages(sz) <= TRAPFRAME
      requires KeptBut(m1, m2, b, 0, Pages(sz)) && m2.root == m1.root && m2.frame == m1.frame
      requires Unmapped(m2, b, Pages(sz), TRAPFRAME - Pages(sz))
      ensures SpaceOk(m2, tramp, b, p.(sz := sz))
    {
      hide Lookup, IsValid, Pages;
      LookupKept(m1, m2, b, 0, Pages(sz));
    }

    /** The child's trapframe is its parent's, but for register a0, which is 0. */
    static predicate SameFrame(m: Mem, from: nat, to: nat) {
      && IsBytes(m, from) && IsBytes(m, to)
      && m.pages[to].bytes == UserMemory.Patch(m.pages[from].bytes, 112, [0, 0, 0, 0, 0, 0, 0, 0])
    }

    static lemma FramesDiffer(m: Mem, o: map<nat, Loc>, a: nat, b: nat)
      requires Shape(m) && LocsOwned(m, o) && OwnersHold(m, o) && a < |m.frame| && b < |m.frame| && a != b && m.frame[a] != 0 && m.frame[b] != 0
      ensures m.frame[a] != m.frame[b] && IsBytes(m, m.frame[a]) && IsBytes(m, m.frame[b])
      ensures m.frame[b] in o && o[m.frame[b]] == Frame(b)
    {
      FramesOwned(m, o);
    }

    static lemma FrameWritten(m: Mem, o: map<nat, Loc>, free: seq<nat>, b: nat, x: Page)
      requires Owned(m, o, free, {}) && TopOk(m) && b < |m.frame| && m.frame[b] != 0 && x.Bytes? && |x.bytes| == 4096
      ensures m.frame[b] < |m.pages|
      ensures var m' := PutPage(m, m.frame[b], x);
              && Owned(m', o, free, {}) && TopOk(m') && KeptApart(m, m', b) && Wrote(m, m', b, 0, [])
              && forall vpn :: 0 <= vpn < MAXVPN ==> Lookup(m', b, vpn) == Lookup(m, b, vpn)
    {
      hide PteAt, At;
      FramesOwned(m, o);
      var p := m.frame[b];
      BytesOwned(m, o, free, {}, p, x);
      var m' := PutPage(m, p, x);
      forall l | InTree(m, l) || Ownable(m, l)
        ensures At(m', l) == At(m, l) && (l.Loc? && l.d > 0 ==> PteAt(m', l) == PteAt(m, l))
      {
        AfterWrite(m, o, p, x, l);
      }
      SameTrees(m, o, m', b);
      TopSame(m, m');
      forall c, v | 0 <= c < |m.root| && 0 <= v && v / 4096 < TRAPFRAME ensures UserByte(m', c, v) == UserByte(m, c, v) {
        var l := Loc(c, 3, v / 4096);
        assert InTree(m, l) && Ownable(m, l) && LocOwned(m, o, l);
        assert LeafKept(m, m', l);
        SameByte(m, o, m', c, v);
      }
    }

    static lemma SpaceFrame(m: Mem, m': Mem, tramp: nat, b: nat, p: Proc)
      requires SpaceOk(m, tramp, b, p) && Shape(m') && m'.root == m.root && m'.frame == m.frame
      requires forall vpn :: 0 <= vpn < MAXVPN ==> Lookup(m', b, vpn) == Lookup(m, b, vpn)
      ensures SpaceOk(m', tramp, b, p)
    {
      hide Lookup, IsValid;
      PageBounds(p.sz);
    }

    /** Copying the trapframe in `kfork`. */
    method CopyFrame(a: nat, b: nat)
      requires Valid() && a < |proc| && b < |proc| && a != b && proc[a].pagetable != 0 && proc[b].pagetable != 0
      modifies this`pages
      ensures Valid() && KeptApart(old(M()), M(), b) && Wrote(old(M()), M(), b, 0, [])
      ensures SameFrame(M(), proc[a].trapframe, proc[b].trapframe)
    {
      ghost var m := M();
      assert SpaceOk(m, trampoline, a, proc[a]) && SpaceOk(m, trampoline, b, proc[b]);
      hide At, PteAt, LocsOwned, OwnersHold, TopOk, FreeOk, KeptBut, IsValid, IsLeaf, IsUser, Lookup, Owned, Special, Unmapped, KeptApart, TopMapped, Wrote, Pages, SpaceOk;
      WholeShape(m, owner, free, {});
      FramesDiffer(m, owner, a, b);
      var x := Bytes(UserMemory.Patch(pages[proc[a].trapframe].bytes, 112, [0, 0, 0, 0, 0, 0, 0, 0]));
      FrameWritten(m, owner, free, b, x);
      pages := pages[proc[b].trapframe := x];
      assert M() == PutPage(m, m.frame[b], x);
      OthersApart(m, M(), trampoline, b, proc);
      SpaceFrame(m, M(), trampoline, b, proc[b]);
    }

    static lemma SameMemoryWrote(m0: Mem, m1: Mem, m2: Mem, a: nat, b: nat)
      requires SameMemory(m0, m1, a, b) && Wrote(m1, m2, b, 0, [])
      ensures SameMemory(m0, m2, a, b)
    {
      hide UserByte;
    }

    /** The memory part of `kfork`: the child `b` gets a full copy of the memory
        and registers of `a`, in pages of its own, or nothing at all. */
    method Kfork(a: nat, b: nat) returns (r: int)
      requires Valid() && a < |proc| && b < |proc| && a != b && proc[a].pagetable != 0 && proc[b] == Proc(0, 0, 0)
      modifies this`pages, this`free, this`owner, this`root, this`frame, this`proc
      ensures Valid() && r in {0, -1} && KeptApart(old(M()), M(), b)
      ensures r == -1 ==> proc == old(proc) && (|old(free)| < 6 || |old(free)| < 4 + Need(0, Pages(old(proc)[a].sz)))
      ensures r == 0 ==>
                && |proc| == |old(proc)| && proc == old(proc)[b := proc[b]] && proc[b].sz == proc[a].sz && proc[b].pagetable != 0
                && SameMemory(old(M()), M(), a, b) && SameFrame(M(), proc[a].trapframe, proc[b].trapframe)
    {
      hide At, PteAt, LocsOwned, OwnersHold, TopOk, FreeOk, KeptBut, IsValid, IsLeaf, IsUser, Lookup, Owned, Special, Unmapped, KeptApart, TopMapped, Wrote, Pages, Zeroed, SameMemory, Copied, SameFrame, Need;
      ghost var m0, o0 := M(), owner;
      WholeShape(m0, o0, free, {});
      SpaceParts(m0, trampoline, a, proc[a]);
      var ok := Allocproc(b);
      if !ok {
        return -1;
      }
      ghost var m1, o1 := M(), owner;
      WholeShape(m1, o1, free, {});
      assert proc[a] == old(proc)[a];
      SpaceParts(m1, trampoline, a, proc[a]);
      SpaceParts(m1, trampoline, b, proc[b]);
      EmptyUser(m1, b, proc[a].sz);
      r := Uvmcopy(proc[a].pagetable, proc[b].pagetable, proc[a].sz, a, b);
      ghost var m2 := M();
      KeptIsApart(m1, m2, b, b, 0, Pages(proc[a].sz));
      ApartTrans(m0, m1, m2, b);
      OthersApart(m1, m2, trampoline, b, proc);
      PageBounds(proc[a].sz);
      EmptyAfter(m1, m2, b, Pages(proc[a].sz));
      if r < 0 {
        hide SpaceOk;
        Freeproc(b);
        ApartTrans(m0, m2, M(), b);
        assert proc == old(proc);
        return -1;
      }
      CopiedMemory(m1, o1, m2, a, b, Pages(proc[a].sz));
      SameMemoryApart(m0, o0, m1, m2, a, b);
      ChildSpace(m1, m2, trampoline, b, proc[b], proc[a].sz);
      hide SpaceOk;
      proc := proc[b := proc[b].(sz := proc[a].sz)];
      CopyFrame(a, b);
      SameMemoryWrote(m0, m2, M(), a, b);
      ApartTrans(m0, m2, M(), b);
    }
  }
}
