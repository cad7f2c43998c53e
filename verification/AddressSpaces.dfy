/** Creating and dropping address spaces and trapframes, and what that leaves
    alone: the steps that kernel/proc.c puts together. */
module AddressSpaces {
  import opened PageTable
  import opened DistinctElements
  import opened UserMemory

  /** Nothing of any address space but `a` changes. */
  ghost predicate KeptApart(m: Mem, m': Mem, a: nat) {
    && Shape(m) && Shape(m') && |m'.root| == |m.root| && |m'.pages| == |m.pages| && m'.lo == m.lo
    && (forall b :: 0 <= b < |m.root| && b != a ==> m'.root[b] == m.root[b] && m'.frame[b] == m.frame[b])
    && (forall l :: InTree(m, l) && l.d == 3 && l.a != a ==> LeafKept(m, m', l))
    && (forall b :: 0 <= b < |m.frame| && b != a ==> FrameKept(m, m', b))
  }

  lemma ApartTrans(m: Mem, m1: Mem, m2: Mem, a: nat)
    requires KeptApart(m, m1, a) && KeptApart(m1, m2, a)
    ensures KeptApart(m, m2, a)
  {
    hide PteAt;
    forall l | InTree(m, l) && l.d == 3 && l.a != a ensures LeafKept(m, m2, l) {
      assert LeafKept(m, m1, l) && LeafKept(m1, m2, l);
    }
    forall b | 0 <= b < |m.frame| && b != a ensures FrameKept(m, m2, b) {
      assert FrameKept(m, m1, b) && FrameKept(m1, m2, b);
    }
  }

  lemma KeptIsApart(m: Mem, m': Mem, a: nat, b: nat, from: nat, to: nat)
    requires KeptBut(m, m', b, from, to) && (b == a || from >= to)
    requires forall c :: 0 <= c < |m.root| && c != a ==> m'.root[c] == m.root[c] && m'.frame[c] == m.frame[c]
    ensures KeptApart(m, m', a)
  {
    hide LeafKept, FrameKept;
  }

  /** A zeroed page becomes the top table of an address space that had none. */
  lemma NewSpace(m: Mem, o: map<nat, Loc>, free: seq<nat>, b: nat, a: nat)
    requires Owned(m, o, free, {b}) && TopOk(m) && a < |m.root| && m.root[a] == 0 && b < |m.pages| && m.pages[b] == ZeroTable()
    ensures var m' := m.(root := m.root[a := b]);
            && Owned(m', o[b := Loc(a, 0, 0)], free, {}) && TopOk(m') && KeptBut(m, m', a, 0, 0x800_0000)
            && forall vpn :: 0 <= vpn < MAXVPN ==> Lookup(m', a, vpn) == NoPte
  {
    hide PageOk, At, PteAt, IsValid, IsUser;
    var m', o' := m.(root := m.root[a := b]), o[b := Loc(a, 0, 0)];
    forall l | InTree(m, l) || Ownable(m, l)
      ensures Shape(m') && At(m', l) == if l == Loc(a, 0, 0) then b else At(m, l)
      ensures l.Loc? && l.d > 0 ==> PteAt(m', l) == PteAt(m, l) && (l.a == a ==> PteAt(m', l) == NoPte)
    {
      AfterNewRoot(m, b, a, l);
    }
    forall l | Ownable(m', l) ensures LocOwned(m', o', l) {
      assert LocOwned(m, o, l);
    }
    forall p | p in o' ensures PageOk(m', o'[p], p) {
      NewPageOk(m', Loc(a, 0, 0), b);
      if p != b {
        PageOkKept(m, m', o[p], p);
      }
    }
    forall p | p in o ensures o[p] != Loc(a, 0, 0) {
      assert At(m, o[p]) == p;
      RootAtZero(m, a);
    }
    forall l | InTree(m, l) && l.d == 3 && l.a != a ensures LeafKept(m, m', l) {
      assert Ownable(m, l) ==> LocOwned(m, o, l);
    }
    FramesOwned(m, o);
    forall vpn | 0 <= vpn < MAXVPN ensures Lookup(m', a, vpn) == NoPte {
      assert InTree(m, Loc(a, 3, vpn));
    }
    TopSame(m, m');
  }

  lemma TopSame(m: Mem, m': Mem)
    requires Shape(m) && Shape(m') && |m'.root| == |m.root| && TopOk(m)
    requires forall l :: InTree(m, l) && l.d == 3 ==> PteAt(m', l) == PteAt(m, l)
    ensures TopOk(m')
  {
    hide PteAt, IsUser, IsValid;
    forall l | InTree(m', l) && l.d == 3 && l.i >= MAXVPN ensures At(m', l) == 0 {
      assert InTree(m, l) && At(m, l) == 0;
    }
    forall b | 0 <= b < |m.root|
      ensures Lookup(m', b, TRAMPOLINE) == Lookup(m, b, TRAMPOLINE) && Lookup(m', b, TRAPFRAME) == Lookup(m, b, TRAPFRAME)
    {
      assert InTree(m, Loc(b, 3, TRAMPOLINE)) && InTree(m, Loc(b, 3, TRAPFRAME));
    }
  }

  lemma RootAtZero(m: Mem, a: nat)
    requires Shape(m) && a < |m.root|
    ensures At(m, Loc(a, 0, 0)) == m.root[a]
  {
  }

  lemma {:induction false} AfterNewRoot(m: Mem, b: nat, a: nat, l: Loc)
    requires Shape(m) && a < |m.root| && m.root[a] == 0 && 0 < b < |m.pages| && m.pages[b] == ZeroTable()
    requires InTree(m, l) || Ownable(m, l)
    ensures var m' := m.(root := m.root[a := b]);
            && At(m', l) == (if l == Loc(a, 0, 0) then b else At(m, l))
            && (l.Loc? && l.d > 0 ==> PteAt(m', l) == PteAt(m, l) && (l.a == a ==> PteAt(m', l) == NoPte))
    decreases if l.Frame? then 0 else l.d
  {
    IsNotValid();
    if l.Loc? && l.d > 0 {
      ChildParent(m, l);
      AfterNewRoot(m, b, a, Parent(l));
      var m' := m.(root := m.root[a := b]);
      assert At(m', l) == Next(PteAt(m', l)) && At(m, l) == Next(PteAt(m, l));
      if l.d == 1 && l.a == a {
        assert Parent(l) == Loc(a, 0, 0);
        RootAtZero(m, a);
        assert PteAt(m', l) == Entry(m', b, l.i % 512) == NoPte;
        assert PteAt(m, l) == NoPte;
      }
    }
  }

  /** Page tables do not depend on the trapframes. */
  lemma {:induction false} OtherFrame(m: Mem, a: nat, b: nat, l: Loc)
    requires Shape(m) && a < |m.frame| && (InTree(m, l) || Ownable(m, l))
    ensures var m' := m.(frame := m.frame[a := b]);
            && At(m', l) == (if l == Frame(a) then b else At(m, l))
            && (l.Loc? && l.d > 0 ==> PteAt(m', l) == PteAt(m, l))
    decreases if l.Frame? then 0 else l.d
  {
    if l.Loc? && l.d > 0 {
      ChildParent(m, l);
      OtherFrame(m, a, b, Parent(l));
    }
  }

  /** An allocated page becomes the trapframe of a process that had none. */
  lemma NewFrame(m: Mem, o: map<nat, Loc>, free: seq<nat>, b: nat, a: nat)
    requires Owned(m, o, free, {b}) && TopOk(m) && a < |m.root| && m.frame[a] == 0
    requires b < |m.pages| && m.pages[b].Bytes? && |m.pages[b].bytes| == 4096
    ensures var m' := m.(frame := m.frame[a := b]);
            && Owned(m', o[b := Frame(a)], free, {}) && TopOk(m') && KeptApart(m, m', a)
            && (forall vpn :: 0 <= vpn < MAXVPN ==> Lookup(m', a, vpn) == Lookup(m, a, vpn))
  {
    hide PageOk, At, PteAt, IsValid, IsUser;
    var m', o' := m.(frame := m.frame[a := b]), o[b := Frame(a)];
    FrameAt(m, a);
    forall l | InTree(m, l) || Ownable(m, l)
      ensures Shape(m') && At(m', l) == if l == Frame(a) then b else At(m, l)
      ensures l.Loc? && l.d > 0 ==> PteAt(m', l) == PteAt(m, l)
    {
      OtherFrame(m, a, b, l);
    }
    forall l | Ownable(m', l) ensures LocOwned(m', o', l) {
      assert LocOwned(m, o, l);
    }
    forall p | p in o ensures o[p] != Frame(a) {
      assert At(m, o[p]) == p;
    }
    forall p | p in o' ensures PageOk(m', o'[p], p) {
      FramePageOk(m', a, b);
      if p != b {
        PageOkKept(m, m', o[p], p);
      }
    }
    SameTrees(m, o, m', a);
    TopSame(m, m');
  }

  lemma FrameAt(m: Mem, a: nat)
    requires Shape(m) && a < |m.frame|
    ensures At(m, Frame(a)) == m.frame[a]
  {
  }

  lemma FramePageOk(m: Mem, a: nat, b: nat)
    requires b < |m.pages| && m.pages[b].Bytes? && |m.pages[b].bytes| == 4096
    ensures PageOk(m, Frame(a), b)
  {
  }

  lemma SameTrees(m: Mem, o: map<nat, Loc>, m': Mem, a: nat)
    requires Shape(m) && Shape(m') && LocsOwned(m, o) && OwnersHold(m, o) && a < |m.frame|
    requires m' == m.(frame := m'.frame, pages := m'.pages) && m'.frame == m.frame[a := m'.frame[a]]
    requires PagesKept(m, m', {m.frame[a]}) || m'.pages == m.pages
    requires forall l :: InTree(m, l) && l.d == 3 ==> PteAt(m', l) == PteAt(m, l)
    ensures KeptApart(m, m', a) && forall vpn :: 0 <= vpn < MAXVPN ==> Lookup(m', a, vpn) == Lookup(m, a, vpn)
  {
    hide PteAt, At;
    FramesOwned(m, o);
    forall l | InTree(m, l) && l.d == 3 && l.a != a ensures LeafKept(m, m', l) {
      assert Ownable(m, l) ==> LocOwned(m, o, l);
    }
    forall vpn | 0 <= vpn < MAXVPN ensures Lookup(m', a, vpn) == Lookup(m, a, vpn) {
      assert InTree(m, Loc(a, 3, vpn));
    }
  }

  /** The trapframe page goes back to the free list. */
  lemma DropFrame(m: Mem, o: map<nat, Loc>, free: seq<nat>, a: nat, x: Page)
    requires Owned(m, o, free, {}) && TopOk(m) && a < |m.root| && m.frame[a] != 0 && x.Bytes? && |x.bytes| == 4096
    ensures var b := m.frame[a];
            && m.lo <= b < |m.pages| && b !in free && b in o
            && var m' := PutPage(m, b, x).(frame := m.frame[a := 0]);
               && Owned(m', o - {b}, [b] + free, {}) && TopOk(m') && KeptApart(m, m', a)
               && (forall vpn :: 0 <= vpn < MAXVPN ==> Lookup(m', a, vpn) == Lookup(m, a, vpn))
  {
    hide PageOk, At, PteAt, IsValid, IsUser;
    var b := m.frame[a];
    FramesOwned(m, o);
    BytesOwned(m, o, free, {}, b, x);
    var m1 := PutPage(m, b, x);
    var m', o' := m1.(frame := m.frame[a := 0]), o - {b};
    FrameAt(m1, a);
    forall l | InTree(m, l) || Ownable(m, l)
      ensures Shape(m') && At(m', l) == if l == Frame(a) then 0 else At(m1, l)
      ensures l.Loc? && l.d > 0 ==> PteAt(m', l) == PteAt(m, l)
    {
      AfterWrite(m, o, b, x, l);
      OtherFrame(m1, a, 0, l);
    }
    forall l | Ownable(m', l) ensures LocOwned(m', o', l) {
      assert LocOwned(m1, o, l);
    }
    forall p | p in o' ensures PageOk(m', o'[p], p) {
      PageOkKept(m1, m', o[p], p);
    }
    DistinctCons(b, free);
    SameTrees(m, o, m', a);
    TopSame(m, m');
  }
}
