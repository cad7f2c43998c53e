/** The bytes that a user address space shows, as kernel/vm.c reads and writes them. */
module UserMemory {
  import opened PageTable

  /** Byte `v` of the user memory of address space `a`; what is not mapped yet reads as zero. */
  function UserByte(m: Mem, a: nat, v: nat): int
    requires Shape(m) && a < |m.root| && v / 4096 < TRAPFRAME
  {
    var e := Lookup(m, a, v / 4096);
    if IsValid(e.flags) then PageByte(m, e.ppn, v % 4096) else 0
  }

  function PageByte(m: Mem, p: nat, k: nat): int {
    if p < |m.pages| && m.pages[p].Bytes? && k < |m.pages[p].bytes| then m.pages[p].bytes[k] else 0
  }

  /** From `m` to `m'`, the bytes `d` were put at `at` in address space `a`, and
      no other user byte of any address space changed. */
  ghost predicate Wrote(m: Mem, m': Mem, a: nat, at: nat, d: seq<int>) {
    && Shape(m) && Shape(m') && |m'.root| == |m.root|
    && forall b, v :: 0 <= b < |m.root| && 0 <= v && v / 4096 < TRAPFRAME ==>
                        UserByte(m', b, v) == if b == a && at <= v < at + |d| then d[v - at] else UserByte(m, b, v)
  }

  lemma WroteTrans(m: Mem, m1: Mem, m2: Mem, a: nat, at: nat, d: seq<int>, e: seq<int>)
    requires Wrote(m, m1, a, at, d) && Wrote(m1, m2, a, at + |d|, e)
    ensures Wrote(m, m2, a, at, d + e)
  {
    hide UserByte;
  }

  /** A user mapping below the top pages leads to a page of bytes that only it owns. */
  lemma MappedPage(m: Mem, o: map<nat, Loc>, a: nat, vpn: nat)
    requires Shape(m) && LocsOwned(m, o) && OwnersHold(m, o) && a < |m.root| && vpn < TRAPFRAME && IsValid(Lookup(m, a, vpn).flags)
    ensures var e := Lookup(m, a, vpn);
            && e.ppn in o && o[e.ppn] == Loc(a, 3, vpn) && m.lo <= e.ppn < |m.pages|
            && IsLeaf(e.flags) && m.pages[e.ppn].Bytes? && |m.pages[e.ppn].bytes| == 4096
  {
    hide At, PteAt, IsValid, IsLeaf;
    LeafEntry(m, a, vpn);
    var l2 := Loc(a, 2, vpn / 512);
    IsNotValid();
    assert At(m, l2) != 0;
    assert LocOwned(m, o, l2);
    assert PageOk(m, l2, At(m, l2));
    var l := Loc(a, 3, vpn);
    assert Ownable(m, l) && LocOwned(m, o, l);
    assert At(m, l) in o && PageOk(m, l, At(m, l));
  }

  /** What changes no mapping changes no byte. */
  lemma KeptWrote(m: Mem, o: map<nat, Loc>, m': Mem, a: nat, at: nat)
    requires Shape(m) && LocsOwned(m, o) && OwnersHold(m, o) && Kept(m, m')
    ensures Wrote(m, m', a, at, [])
  {
    hide At, PteAt, IsValid;
    forall b, v | 0 <= b < |m.root| && 0 <= v && v / 4096 < TRAPFRAME ensures UserByte(m', b, v) == UserByte(m, b, v) {
      SameByte(m, o, m', b, v);
    }
  }

  lemma SameByte(m: Mem, o: map<nat, Loc>, m': Mem, b: nat, v: nat)
    requires Shape(m) && Shape(m') && LocsOwned(m, o) && OwnersHold(m, o)
    requires b < |m.root| == |m'.root| && v / 4096 < TRAPFRAME && LeafKept(m, m', Loc(b, 3, v / 4096))
    ensures UserByte(m', b, v) == UserByte(m, b, v)
  {
    hide PteAt, IsValid;
    var vpn := v / 4096;
    LeafEntry(m, b, vpn);
    if IsValid(Lookup(m, b, vpn).flags) {
      MappedPage(m, o, b, vpn);
    }
  }

  /** Mapping a zero page where nothing was mapped changes no byte. */
  lemma FaultWrote(m: Mem, o: map<nat, Loc>, m': Mem, a: nat, at: nat, vpn: nat)
    requires Shape(m) && LocsOwned(m, o) && OwnersHold(m, o) && a < |m.root| && vpn < TRAPFRAME && KeptBut(m, m', a, vpn, vpn + 1)
    requires !IsValid(Lookup(m, a, vpn).flags)
    requires var e := Lookup(m', a, vpn); IsValid(e.flags) && e.ppn < |m'.pages| && m'.pages[e.ppn] == Filled(0)
    ensures Wrote(m, m', a, at, [])
  {
    hide At, PteAt, IsValid;
    forall b, v | 0 <= b < |m.root| && 0 <= v && v / 4096 < TRAPFRAME ensures UserByte(m', b, v) == UserByte(m, b, v) {
      if b != a || v / 4096 != vpn {
        assert LeafKept(m, m', Loc(b, 3, v / 4096));
        SameByte(m, o, m', b, v);
      }
    }
  }

  /** `d` in place of the bytes of `x` from `r` on. */
  function Patch(x: seq<int>, r: nat, d: seq<int>): (p: seq<int>)
    requires r + |d| <= |x|
    ensures |p| == |x|
    ensures forall k {:trigger p[k]} :: 0 <= k < |p| ==> p[k] == if r <= k < r + |d| then d[k - r] else x[k]
  {
    x[..r] + d + x[r + |d|..]
  }

  /** Writing into a mapped page is seen at its one address and nowhere else. */
  lemma PutWrote(m: Mem, o: map<nat, Loc>, a: nat, at: nat, d: seq<int>)
    requires Shape(m) && LocsOwned(m, o) && OwnersHold(m, o) && a < |m.root|
    requires at / 4096 < TRAPFRAME && at % 4096 + |d| <= 4096 && IsValid(Lookup(m, a, at / 4096).flags)
    ensures var p := Lookup(m, a, at / 4096).ppn;
            && p in o && o[p] == Loc(a, 3, at / 4096) && p < |m.pages| && m.pages[p].Bytes? && |m.pages[p].bytes| == 4096
            && var m' := PutPage(m, p, Bytes(Patch(m.pages[p].bytes, at % 4096, d)));
               Wrote(m, m', a, at, d) && KeptBut(m, m', a, at / 4096, at / 4096 + 1) && Lookup(m', a, at / 4096) == Lookup(m, a, at / 4096)
  {
    hide At, PteAt, IsValid, Patch;
    var vpn := at / 4096;
    MappedPage(m, o, a, vpn);
    var p := Lookup(m, a, vpn).ppn;
    var x := Bytes(Patch(m.pages[p].bytes, at % 4096, d));
    var m' := PutPage(m, p, x);
    WriteShows(m, o, p, x);
    AfterWrite(m, o, p, x, Loc(a, 3, vpn));
    forall b, v | 0 <= b < |m.root| && 0 <= v && v / 4096 < TRAPFRAME
      ensures UserByte(m', b, v) == if b == a && at <= v < at + |d| then d[v - at] else UserByte(m, b, v)
    {
      if b != a || v / 4096 != vpn {
        assert LeafKept(m, m', Loc(b, 3, v / 4096));
        SameByte(m, o, m', b, v);
      } else {
        assert v == vpn * 4096 + v % 4096 && at == vpn * 4096 + at % 4096;
      }
    }
  }

  /** `d` is what the user memory shows from `at` on. */
  ghost predicate Shows(m: Mem, a: nat, at: nat, d: seq<int>) {
    && Shape(m) && a < |m.root|
    && forall v :: at <= v < at + |d| ==> v / 4096 < TRAPFRAME && d[v - at] == UserByte(m, a, v)
  }

  lemma ShowsSame(m: Mem, m': Mem, a: nat, at: nat, d: seq<int>, b: nat, at': nat)
    requires Shows(m, a, at, d) && Wrote(m, m', b, at', [])
    ensures Shows(m', a, at, d)
  {
    hide UserByte;
  }

  lemma ShowsChunk(m: Mem, o: map<nat, Loc>, a: nat, at: nat, d: seq<int>, n: nat)
    requires Shape(m) && LocsOwned(m, o) && OwnersHold(m, o) && a < |m.root| && Shows(m, a, at, d)
    requires var v := at + |d|; v / 4096 < TRAPFRAME && v % 4096 + n <= 4096 && IsValid(Lookup(m, a, v / 4096).flags)
    ensures var v := at + |d|;
            var p := Lookup(m, a, v / 4096).ppn;
            && p < |m.pages| && m.pages[p].Bytes? && |m.pages[p].bytes| == 4096
            && Shows(m, a, at, d + m.pages[p].bytes[v % 4096..v % 4096 + n])
  {
    hide PteAt, IsValid;
    var v := at + |d|;
    MappedPage(m, o, a, v / 4096);
    var p := Lookup(m, a, v / 4096).ppn;
    var d' := d + m.pages[p].bytes[v % 4096..v % 4096 + n];
    forall w | at <= w < at + |d'| ensures w / 4096 < TRAPFRAME && d'[w - at] == UserByte(m, a, w) {
      if w >= v {
        assert w / 4096 == v / 4096 && w % 4096 == v % 4096 + (w - v);
      }
    }
  }

  /** Bytes copied out and then read back are the same bytes. */
  lemma CopyRoundTrip(m: Mem, m1: Mem, m2: Mem, a: nat, at: nat, src: seq<int>, data: seq<int>)
    requires Wrote(m, m1, a, at, src) && Wrote(m1, m2, a, at, []) && Shows(m2, a, at, data) && |data| == |src|
    ensures data == src
  {
    hide UserByte;
    forall k | 0 <= k < |src| ensures data[k] == src[k] {
      assert at <= at + k < at + |data|;
      assert data[at + k - at] == UserByte(m2, a, at + k);
    }
  }
}
