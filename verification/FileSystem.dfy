/** The block allocator and the inode contents layer of kernel/fs.c, and the
    chunked write of kernel/file.c, updating the (cached) disk in place. */
module FileSystem {
  import opened Blocks
  import opened Ownership
  import opened FileData

  const BPB: nat := 8192            // bits in a bitmap block
  const IPB: nat := 16              // inodes in a block
  const MAXOPBLOCKS: nat := 10
  const UINT: nat := 0x1_0000_0000
  const MAXWRITE: nat := (MAXOPBLOCKS - 1 - 1 - 2) / 2 * 1024

  /** Blocks handed to `log_write`. */
  datatype Touch = MapBlk(n: nat) | InodeBlk(n: nat) | Data(b: int)

  /** `struct file` of type FD_INODE. */
  class OpenFile {
    var ip: nat
    var off: nat
  }

  class Volume {
    const nmeta: nat
    var bitmap: seq<bv8>
    var blocks: seq<Block>
    var inodes: seq<Inode>          // in-memory inodes
    var dinodes: seq<Inode>         // inodes on disk
    ghost var owner: map<int, Loc>
    ghost var touched: set<Touch>   // logged by the current transaction

    ghost function State(): Fs
      reads this
    {
      Fs(nmeta, bitmap, blocks, inodes)
    }

    /** A free inode holds no blocks, so allocating it leaks none. */
    ghost predicate FreeInodesEmpty()
      reads this
    {
      forall i :: 0 <= i < |inodes| && inodes[i].kind == 0 ==> Empty(inodes[i])
    }

    /** Between file system operations. */
    ghost predicate Valid()
      reads this
    {
      && Owned(State(), owner, {}, {})
      && FilesOk(State())
      && FreeInodesEmpty()
      && dinodes == inodes
    }

    /** What the kernel relies on when it mounts a disk. */
    static ghost predicate Mountable(f: Fs, o: map<int, Loc>) {
      Owned(f, o, {}, {}) && FilesOk(f) && forall i :: 0 <= i < |f.inodes| && f.inodes[i].kind == 0 ==> Empty(f.inodes[i])
    }

    constructor (f: Fs, ghost o: map<int, Loc>)
      requires Mountable(f, o)
      ensures Valid() && State() == f && owner == o && touched == {}
    {
      nmeta, bitmap, blocks, inodes, dinodes := f.nmeta, f.bitmap, f.blocks, f.inodes, f.inodes;
      owner, touched := o, {};
    }

    static ghost predicate FilesOk(f: Fs)
      requires Shape(f)
    {
      forall i :: 0 <= i < |f.inodes| ==> FileOk(f, i)
    }

    static predicate Empty(ip: Inode) {
      ip.size == 0 && forall s :: 0 <= s < |ip.addrs| ==> ip.addrs[s] == 0
    }

    static ghost predicate Full(f: Fs) {
      |f.blocks| <= 8 * |f.bitmap| && forall b :: 0 <= b < |f.blocks| ==> Bit(f.bitmap, b)
    }

    // ---- what is handed to log_write

    /** Between `f` and `g` only blocks in `t` have changed: data blocks and tables,
        bytes of the free map, and inodes on disk. */
    static ghost predicate Logged(f: Fs, d: seq<Inode>, g: Fs, e: seq<Inode>, t: set<Touch>) {
      && |g.blocks| == |f.blocks| && |g.bitmap| == |f.bitmap| && |e| == |d|
      && (forall b :: 0 <= b < |f.blocks| && g.blocks[b] != f.blocks[b] ==> Data(b) in t)
      && (forall k :: 0 <= k < |f.bitmap| && g.bitmap[k] != f.bitmap[k] ==> MapBlk(k / 1024) in t)
      && (forall j :: 0 <= j < |d| && e[j] != d[j] ==> InodeBlk(j / IPB) in t)
    }

    /** The transaction has logged every block that differs from state `f`, inodes
        `d`, and nothing that it had logged is forgotten. */
    ghost predicate LoggedSince(f: Fs, d: seq<Inode>, t: set<Touch>)
      reads this
    {
      t <= touched && Logged(f, d, State(), dinodes, touched)
    }

    static lemma LoggedSelf(f: Fs, d: seq<Inode>, t: set<Touch>)
      ensures Logged(f, d, f, d, t)
    {
    }

    static lemma LoggedTrans(f: Fs, d: seq<Inode>, g: Fs, e: seq<Inode>, t: set<Touch>, h: Fs, c: seq<Inode>, u: set<Touch>)
      requires Logged(f, d, g, e, t) && t <= u && Logged(g, e, h, c, u)
      ensures Logged(f, d, h, c, u)
    {
    }

    static lemma MarkLogged(f: Fs, d: seq<Inode>, b: nat, t: set<Touch>)
      requires b < |f.blocks| <= 8 * |f.bitmap| && MapBlk(b / BPB) in t && Data(b) in t
      ensures Logged(f, d, MarkZero(f, b), d, t)
    {
      assert b / 8 / 1024 == b / BPB;
    }

    static lemma UnmarkLogged(f: Fs, d: seq<Inode>, b: nat, t: set<Touch>)
      requires b < 8 * |f.bitmap| && MapBlk(b / BPB) in t
      ensures Logged(f, d, Unmark(f, b), d, t)
    {
      assert b / 8 / 1024 == b / BPB;
    }

    /** The inodes in memory do not matter here, and one block may change that is logged. */
    static lemma BlockLogged(f: Fs, d: seq<Inode>, g: Fs, b: nat, t: set<Touch>)
      requires g.bitmap == f.bitmap && (g.blocks == f.blocks || (b < |f.blocks| == |g.blocks| && g.blocks == f.blocks[b := g.blocks[b]] && Data(b) in t))
      ensures Logged(f, d, g, d, t)
    {
    }

    static lemma InodeLogged(f: Fs, d: seq<Inode>, g: Fs, i: nat, ip: Inode, t: set<Touch>)
      requires g.bitmap == f.bitmap && g.blocks == f.blocks && i < |d| && InodeBlk(i / IPB) in t
      ensures Logged(f, d, g, d[i := ip], t)
    {
    }

    method Balloc() returns (r: nat)
      requires Owned(State(), owner, {}, {})
      modifies this`bitmap, this`blocks, this`touched
      ensures r == 0 ==> Full(State()) && State() == old(State()) && touched == old(touched)
      ensures r != 0 ==>
                && nmeta <= r < |old(blocks)| && r !in owner && !Bit(old(bitmap), r)
                && (forall b :: 0 <= b < r ==> Bit(old(bitmap), b))
                && State() == MarkZero(old(State()), r) && Owned(State(), owner, {r}, {})
                && touched == old(touched) + {MapBlk(r / BPB), Data(r)}
      ensures LoggedSince(old(State()), old(dinodes), old(touched))
    {
      hide Bit, SlotsOwned, OwnersHold, Logged;
      LoggedSelf(State(), dinodes, touched);
      var b := 0;
      while b < |blocks|
        invariant 0 <= b && State() == old(State()) && touched == old(touched)
        invariant forall x :: 0 <= x < b && x < |blocks| ==> Bit(bitmap, x)
      {
        var bi := 0;
        while bi < BPB && b + bi < |blocks|
          invariant 0 <= bi <= BPB && State() == old(State()) && touched == old(touched)
          invariant forall x :: 0 <= x < b + bi && x < |blocks| ==> Bit(bitmap, x)
        {
          if !Bit(bitmap, b + bi) {
            MarkOwned(State(), owner, b + bi);
            MarkLogged(State(), dinodes, b + bi, touched + {MapBlk((b + bi) / BPB)} + {Data(b + bi)});
            bitmap := SetBit(bitmap, b + bi);
            touched := touched + {MapBlk((b + bi) / BPB)};
            blocks := blocks[b + bi := Zero()];
            touched := touched + {Data(b + bi)};
            return b + bi;
          }
          bi := bi + 1;
        }
        b := b + BPB;
      }
      return 0;
    }

    /** `bfree`; the requirement is what rules out "freeing free block". */
    method Bfree(b: nat)
      requires b < 8 * |bitmap| && Bit(bitmap, b)
      modifies this`bitmap, this`touched
      ensures State() == Unmark(old(State()), b) && touched == old(touched) + {MapBlk(b / BPB)}
      ensures LoggedSince(old(State()), old(dinodes), old(touched))
    {
      hide Logged;
      UnmarkLogged(State(), dinodes, b, touched + {MapBlk(b / BPB)});
      bitmap := ClearBit(bitmap, b);
      touched := touched + {MapBlk(b / BPB)};
    }

    /** What the table block of inode `i` adds to a transaction. */
    static ghost function TableTouch(f: Fs, i: nat): set<Touch>
      requires Shape(f) && i < |f.inodes|
    {
      if Table(f, i) == 0 then {} else {Data(Table(f, i))}
    }

    static ghost function DataTouch(r: int): set<Touch> {
      if r == 0 then {} else {Data(r)}
    }

    static ghost predicate OnlyInode(f: Fs, g: Fs, i: nat) {
      |f.inodes| == |g.inodes| && forall j :: 0 <= j < |f.inodes| && j != i ==> g.inodes[j] == f.inodes[j]
    }

    /** The effect of `bmap` for file block `bn`, when it returns `r`. */
    ghost predicate Mapped(f: Fs, t: set<Touch>, i: nat, bn: nat, r: int)
      reads this
    {
      var g := State();
      && Owned(g, owner, {}, {})
      && KeepsFiles(f, g) && OnlyInode(f, g, i) && i < |f.inodes| && bn < MAXFILE
      && |g.blocks| == |f.blocks|
      && (r == 0 ==> Full(g))
      && (r != 0 ==> FBlock(g, i, bn) == r)
      && (FBlock(f, i, bn) != 0 ==> g == f && touched == t && r == FBlock(f, i, bn))
      && (Table(f, i) != 0 ==> Table(g, i) == Table(f, i))
      && LoggedSince(f, dinodes, t)
      && (|f.blocks| <= BPB ==> touched <= t + {MapBlk(0)} + TableTouch(g, i) + DataTouch(r))
    }

    /** `bmap`: the disk block of file block `bn`, allocated if necessary; 0 when the disk is full. */
    method Bmap(i: nat, bn: nat) returns (r: nat)
      requires Owned(State(), owner, {}, {}) && i < |inodes| && bn < MAXFILE
      modifies this`bitmap, this`blocks, this`inodes, this`owner, this`touched
      ensures Mapped(old(State()), old(touched), i, bn, r)
      ensures FBlock(old(State()), i, bn) != 0 ==> owner == old(owner)
    {
      hide Slot, Bit, SlotsOwned, OwnersHold, Marked, KeepsBlock, Logged;
      KeepsSelf(State());
      LoggedSelf(State(), dinodes, touched);
      if bn < 12 {
        AddrIs(State(), i, bn);
        r := inodes[i].addrs[bn];
        if r == 0 {
          r := TakeAddr(i, bn);
        }
        return;
      }
      var j := bn - 12;
      AddrIs(State(), i, 12);
      if Table(State(), i) == 0 {
        NoTableNoEntries(State(), i, bn + 1);
      }
      var addr := inodes[i].addrs[12];
      if addr == 0 {
        addr := TakeAddr(i, 12);
        if addr == 0 {
          return 0;
        }
        AddrIs(State(), i, 12);
      }
      ghost var mid, t := State(), touched;
      r := TakeEntry(i, j);
      KeepsTrans(old(State()), mid, State());
      LoggedTrans(old(State()), dinodes, mid, dinodes, t, State(), dinodes, touched);
    }

    static lemma AddrIs(f: Fs, i: nat, s: nat)
      requires Shape(f) && i < |f.inodes| && s <= 12
      ensures Slot(f, i, s) == f.inodes[i].addrs[s]
    {
    }

    /** The branch of `bmap` that fills a direct slot or the table slot. */
    method TakeAddr(i: nat, s: nat) returns (r: nat)
      requires Owned(State(), owner, {}, {}) && i < |inodes| && s <= 12 && Slot(State(), i, s) == 0
      modifies this`bitmap, this`blocks, this`inodes, this`owner, this`touched
      ensures Owned(State(), owner, {}, {}) && KeepsFiles(old(State()), State()) && OnlyInode(old(State()), State(), i)
      ensures r == 0 ==> Full(State()) && State() == old(State()) && touched == old(touched)
      ensures r != 0 ==> Slot(State(), i, s) == r && inodes[i].addrs == old(inodes[i].addrs)[s := r]
      ensures |blocks| == |old(blocks)|
      ensures |blocks| <= BPB ==> touched <= old(touched) + {MapBlk(0)} + DataTouch(r)
      ensures LoggedSince(old(State()), old(dinodes), old(touched))
    {
      hide Slot, Bit, SlotsOwned, OwnersHold, Marked, KeepsBlock, Logged;
      ghost var f := State();
      KeepsSelf(f);
      r := Balloc();
      if r != 0 {
        ghost var g := State();
        SlotAfterFree(f, owner, r, i, s);
        MarkKeeps(f, owner, r);
        PlaceAddr(g, owner, i, s, r);
        PlaceAddrKeeps(g, i, s, r);
        SlotAfterAddr(g, i, s, r, i, s);
        KeepsTrans(f, g, PutAddr(g, i, s, r));
        inodes := inodes[i := inodes[i].(addrs := inodes[i].addrs[s := r])];
        owner := owner[r as int := Loc(i, s)];
        assert State() == PutAddr(g, i, s, r);
        BlockLogged(g, dinodes, State(), 0, touched);
        LoggedTrans(f, dinodes, g, dinodes, touched, State(), dinodes, touched);
      }
    }

    static lemma SlotAfterFree(f: Fs, o: map<int, Loc>, b: nat, i: nat, s: nat)
      requires Shape(f) && SlotsOwned(f, o) && b < |f.blocks| && b !in o && i < |f.inodes| && s < SLOTS
      ensures Shape(MarkZero(f, b)) && Slot(MarkZero(f, b), i, s) == Slot(f, i, s)
    {
      NotTableOf(f, o, b);
      SlotAfterMark(f, b, i, s);
    }

    /** The part of `bmap` that looks into the indirect table. */
    method TakeEntry(i: nat, j: nat) returns (r: nat)
      requires Owned(State(), owner, {}, {}) && i < |inodes| && j < 256 && inodes[i].addrs[12] != 0
      modifies this`bitmap, this`blocks, this`inodes, this`owner, this`touched
      ensures Owned(State(), owner, {}, {}) && KeepsFiles(old(State()), State()) && inodes == old(inodes)
      ensures r == 0 ==> Full(State())
      ensures r != 0 ==> Slot(State(), i, 13 + j) == r
      ensures Slot(old(State()), i, 13 + j) != 0 ==> r == Slot(old(State()), i, 13 + j) && State() == old(State()) && touched == old(touched) && owner == old(owner)
      ensures |blocks| == |old(blocks)|
      ensures |blocks| <= BPB ==> touched <= old(touched) + {MapBlk(0), Data(inodes[i].addrs[12])} + DataTouch(r)
      ensures LoggedSince(old(State()), old(dinodes), old(touched))
    {
      hide Slot, Bit, SlotsOwned, OwnersHold, Marked, KeepsBlock, WordAt, PutWord, Logged;
      ghost var f := State();
      LoggedSelf(f, dinodes, touched);
      KeepsSelf(f);
      var addr := inodes[i].addrs[12];
      EntryIs(f, owner, i, j);
      r := WordAt(blocks[addr], j);
      if r == 0 {
        r := Balloc();
        if r != 0 {
          ghost var g := State();
          SlotAfterFree(f, owner, r, i, 13 + j);
          MarkKeeps(f, owner, r);
          EntryIs(g, owner, i, j);
          PlaceEntry(g, owner, i, j, r);
          PlaceEntryKeeps(g, owner, i, j, r);
          EntryPlaced(g, owner, i, j, r);
          KeepsTrans(f, g, PutEntry(g, i, j, r));
          ghost var t := touched;
          blocks := blocks[addr := PutWord(blocks[addr], j, r)];
          touched := touched + {Data(addr)};
          owner := owner[r as int := Loc(i, 13 + j)];
          assert State() == PutEntry(g, i, j, r);
          BlockLogged(g, dinodes, State(), addr, touched);
          LoggedTrans(f, dinodes, g, dinodes, t, State(), dinodes, touched);
        }
      }
    }

    static lemma EntryIs(f: Fs, o: map<int, Loc>, i: nat, j: nat)
      requires Shape(f) && SlotsOwned(f, o) && OwnersHold(f, o) && i < |f.inodes| && j < 256 && Table(f, i) != 0
      ensures Table(f, i) < |f.blocks| && Slot(f, i, 13 + j) == WordAt(f.blocks[Table(f, i)], j) >= 0
    {
      hide WordAt;
      TableOwned(f, o, i);
      if Slot(f, i, 13 + j) != 0 {
        assert Slot(f, i, 13 + j) in o;
      }
    }

    static lemma EntryPlaced(f: Fs, o: map<int, Loc>, i: nat, j: nat, b: nat)
      requires Owned(f, o, {b}, {}) && i < |f.inodes| && j < 256 && Table(f, i) != 0
      ensures Table(f, i) < |f.blocks| && b < |f.blocks| && Shape(PutEntry(f, i, j, b)) && Slot(PutEntry(f, i, j, b), i, 13 + j) == b
    {
      TableOwned(f, o, i);
      SlotAfterEntry(f, i, j, b, i, 13 + j);
    }

    // ---- truncation

    /** What is left of the ownership map when slots below `k` of inode `i` are dropped. */
    static ghost function Without(o: map<int, Loc>, i: nat, k: nat): map<int, Loc> {
      map b | b in o && !(o[b].i == i && o[b].s < k) :: o[b]
    }

    /** `itrunc`: exactly the blocks of inode `i` become free, and no other file changes. */
    method Itrunc(i: nat)
      requires Owned(State(), owner, {}, {}) && i < |inodes| && |dinodes| == |inodes|
      modifies this`bitmap, this`inodes, this`dinodes, this`owner, this`touched
      ensures Owned(State(), owner, {}, {}) && owner == Without(old(owner), i, SLOTS)
      ensures KeepsAllBut(old(State()), State(), i)
      ensures Empty(inodes[i]) && inodes[i].kind == old(inodes)[i].kind && inodes[i].nlink == old(inodes)[i].nlink
      ensures dinodes == old(dinodes)[i := inodes[i]]
      ensures |blocks| <= BPB ==> touched <= old(touched) + {MapBlk(0), InodeBlk(i / IPB)}
      ensures LoggedSince(old(State()), old(dinodes), old(touched))
    {
      hide Slot, Bit, SlotsOwned, OwnersHold, Marked, KeepsBlock, Logged;
      ghost var d, t0 := dinodes, touched;
      ghost var f0 := State();
      OwnerRange(f0, owner);
      FreeDirect(i);
      ghost var f1, t1 := State(), touched;
      FreeIndirect(i);
      ghost var f2, t2 := State(), touched;
      LoggedTrans(f0, d, f1, d, t1, f2, d, t2);
      KeepsAllButTrans(f0, f1, f2, i);
      inodes := inodes[i := inodes[i].(size := 0)];
      SizeKeeps(f2, State(), owner, i);
      KeepsAllButTrans(f0, f2, State(), i);
      WithoutAll(old(owner), i);
      dinodes := dinodes[i := inodes[i]]; // iupdate
      touched := touched + {InodeBlk(i / IPB)};
      InodeLogged(f2, d, State(), i, inodes[i], touched);
      LoggedTrans(f0, d, f2, d, t2, State(), dinodes, touched);
    }

    static lemma OwnerRange(f: Fs, o: map<int, Loc>)
      requires Owned(f, o, {}, {})
      ensures forall b :: b in o ==> o[b].s < SLOTS
    {
    }

    static lemma WithoutAll(o: map<int, Loc>, i: nat)
      requires forall b :: b in o ==> o[b].s < SLOTS
      ensures Without(o, i, 12) - IndirectBlocks(Without(o, i, 12), i) == Without(o, i, SLOTS)
    {
      var l, r := Without(o, i, 12) - IndirectBlocks(Without(o, i, 12), i), Without(o, i, SLOTS);
      forall b | b in o ensures b in l <==> b in r {
      }
      assert l.Keys == r.Keys;
    }

    static lemma SizeKeeps(f: Fs, g: Fs, o: map<int, Loc>, i: nat)
      requires Owned(f, o, {}, {}) && i < |f.inodes|
      requires exists z, k :: g == f.(inodes := f.inodes[i := f.inodes[i].(size := z, kind := k)])
      ensures Owned(g, o, {}, {}) && KeepsAllBut(f, g, i) && (forall b :: b in o ==> o[b].s < SLOTS)
    {
      hide Slot, Bit;
      assert Shape(g);
      forall j, s | 0 <= j < |f.inodes| && 0 <= s < SLOTS ensures Slot(g, j, s) == Slot(f, j, s) {
        SameAddrsSlot(f, g, j, s);
      }
    }

    static lemma SameAddrsSlot(f: Fs, g: Fs, j: nat, s: nat)
      requires Shape(f) && Shape(g) && g.blocks == f.blocks && j < |f.inodes| == |g.inodes| && s < SLOTS
      requires g.inodes[j].addrs == f.inodes[j].addrs
      ensures Slot(g, j, s) == Slot(f, j, s)
    {
      hide WordAt;
    }

    method FreeDirect(i: nat)
      requires Owned(State(), owner, {}, {}) && i < |inodes|
      modifies this`bitmap, this`inodes, this`owner, this`touched
      ensures Owned(State(), owner, {}, {}) && owner == Without(old(owner), i, 12)
      ensures KeepsAllBut(old(State()), State(), i)
      ensures |inodes[i].addrs| == 13 && forall s :: 0 <= s < 12 ==> inodes[i].addrs[s] == 0
      ensures inodes[i].addrs[12] == old(inodes)[i].addrs[12]
      ensures inodes[i].kind == old(inodes)[i].kind && inodes[i].nlink == old(inodes)[i].nlink
      ensures |blocks| <= BPB ==> touched <= old(touched) + {MapBlk(0)}
      ensures LoggedSince(old(State()), old(dinodes), old(touched))
    {
      hide Slot, Bit, SlotsOwned, OwnersHold, Marked, KeepsBlock, Logged;
      ghost var f0, o0, d := State(), owner, dinodes;
      LoggedSelf(f0, d, touched);
      KeepsAllButSelf(f0, i);
      WithoutNone(o0, i);
      var s := 0;
      while s < 12
        invariant 0 <= s <= 12 && i < |inodes| && Owned(State(), owner, {}, {}) && owner == Without(o0, i, s)
        invariant KeepsAllBut(f0, State(), i)
        invariant |inodes[i].addrs| == 13 && forall x :: 0 <= x < s ==> inodes[i].addrs[x] == 0
        invariant inodes[i].addrs[12] == f0.inodes[i].addrs[12]
        invariant inodes[i].kind == f0.inodes[i].kind && inodes[i].nlink == f0.inodes[i].nlink
        invariant |blocks| <= BPB ==> touched <= old(touched) + {MapBlk(0)}
        invariant LoggedSince(f0, d, old(touched))
      {
        AddrIs(State(), i, s);
        var b := inodes[i].addrs[s];
        ghost var f, t := State(), touched;
        WithoutNext(f, o0, owner, i, s);
        if b != 0 {
          DropAddr(f, owner, i, s, b);
          UnmarkKeeps(f, b, i);
          ClearAddrKeeps(Unmark(f, b), i, s);
          Bfree(b);
          inodes := inodes[i := inodes[i].(addrs := inodes[i].addrs[s := 0])];
          owner := owner - {b as int};
          assert State() == PutAddr(Unmark(f, b), i, s, 0);
          KeepsAllButTrans(f0, f, Unmark(f, b), i);
          KeepsAllButTrans(f0, Unmark(f, b), State(), i);
          UnmarkedSince(f0, d, f, t, b, State(), touched);
        }
        s := s + 1;
      }
    }

    static lemma UnmarkedSince(f0: Fs, d: seq<Inode>, f: Fs, t: set<Touch>, b: nat, g: Fs, u: set<Touch>)
      requires Logged(f0, d, f, d, t) && b < 8 * |f.bitmap| && u == t + {MapBlk(b / BPB)}
      requires g.bitmap == Unmark(f, b).bitmap && g.blocks == f.blocks
      ensures Logged(f0, d, g, d, u)
    {
      UnmarkLogged(f, d, b, u);
    }

    static lemma KeepsAllButSelf(f: Fs, i: nat)
      requires Shape(f)
      ensures KeepsAllBut(f, f, i)
    {
    }

    static lemma WithoutNone(o: map<int, Loc>, i: nat)
      ensures Without(o, i, 0) == o
    {
      forall x | x in o ensures x in Without(o, i, 0) {
        var l := o[x];
        assert l.s >= 0;
      }
      assert Without(o, i, 0).Keys == o.Keys;
    }

    static lemma WithoutNext(f: Fs, o0: map<int, Loc>, o: map<int, Loc>, i: nat, s: nat)
      requires Owned(f, o, {}, {}) && o == Without(o0, i, s) && i < |f.inodes| && s < SLOTS
      ensures Without(o0, i, s + 1) == if Slot(f, i, s) == 0 then o else o - {Slot(f, i, s)}
    {
      hide Slot, Bit;
      var b := Slot(f, i, s);
      if b != 0 {
        assert b in o && o[b] == Loc(i, s);
      }
      forall x | x in o && x != b ensures o[x] != Loc(i, s) {
        assert Slot(f, o[x].i, o[x].s) == x;
      }
    }

    /** The indirect blocks freed after `j` table entries have been looked at. */
    static ghost function FreedEntries(o: map<int, Loc>, i: nat, j: nat): set<int> {
      set b | b in o && o[b].i == i && 13 <= o[b].s < 13 + j
    }

    method FreeIndirect(i: nat)
      requires Owned(State(), owner, {}, {}) && i < |inodes| && |inodes[i].addrs| == 13
      modifies this`bitmap, this`inodes, this`owner, this`touched
      ensures Owned(State(), owner, {}, {}) && owner == old(owner) - IndirectBlocks(old(owner), i)
      ensures KeepsAllBut(old(State()), State(), i)
      ensures inodes == old(inodes)[i := old(inodes)[i].(addrs := old(inodes)[i].addrs[12 := 0])]
      ensures |blocks| <= BPB ==> touched <= old(touched) + {MapBlk(0)}
      ensures LoggedSince(old(State()), old(dinodes), old(touched))
    {
      hide Slot, Bit, SlotsOwned, OwnersHold, Marked, KeepsBlock, WordAt, Logged;
      ghost var f0, d := State(), dinodes;
      LoggedSelf(f0, d, touched);
      KeepsAllButSelf(f0, i);
      AddrIs(f0, i, 12);
      var table := inodes[i].addrs[12];
      if table == 0 {
        NoIndirect(f0, owner, i);
        assert inodes[i].addrs == inodes[i].addrs[12 := 0];
        return;
      }
      TableOwned(f0, owner, i);
      var j := 0;
      NoneFreed(owner, i);
      while j < 256
        invariant 0 <= j <= 256 && blocks == f0.blocks && inodes == f0.inodes && owner == old(owner)
        invariant Owned(State(), owner, {}, FreedEntries(owner, i, j))
        invariant KeepsAllBut(f0, State(), i)
        invariant |blocks| <= BPB ==> touched <= old(touched) + {MapBlk(0)}
        invariant LoggedSince(f0, d, old(touched))
      {
        ghost var f, t := State(), touched;
        EntryIs(f, owner, i, j);
        NextFreed(f, owner, i, j);
        var b := WordAt(blocks[table], j);
        if b != 0 {
          FreeOwned(f, owner, FreedEntries(owner, i, j), b);
          UnmarkKeeps(f, b, i);
          Bfree(b);
          KeepsAllButTrans(f0, f, State(), i);
          UnmarkedSince(f0, d, f, t, b, State(), touched);
        }
        j := j + 1;
      }
      ghost var f1, t1 := State(), touched;
      AllFreed(f1, owner, i);
      FreeOwned(f1, owner, FreedEntries(owner, i, 256), table);
      UnmarkKeeps(f1, table, i);
      Bfree(table);
      ghost var f2 := State();
      DropTable(f2, owner, i);
      ClearAddrKeeps(f2, i, 12);
      inodes := inodes[i := inodes[i].(addrs := inodes[i].addrs[12 := 0])];
      owner := owner - IndirectBlocks(owner, i);
      assert State() == PutAddr(f2, i, 12, 0);
      UnmarkedSince(f0, d, f1, t1, table, State(), touched);
      KeepsAllButTrans(f0, f1, f2, i);
      KeepsAllButTrans(f0, f2, State(), i);
    }

    static lemma NoIndirect(f: Fs, o: map<int, Loc>, i: nat)
      requires Shape(f) && OwnersHold(f, o) && i < |f.inodes| && Table(f, i) == 0 && 0 < f.nmeta
      ensures IndirectBlocks(o, i) == {}
    {
      forall b | b in o ensures !(o[b].i == i && o[b].s >= 12) {
        assert Slot(f, o[b].i, o[b].s) == b;
      }
    }

    static lemma NoneFreed(o: map<int, Loc>, i: nat)
      ensures FreedEntries(o, i, 0) == {}
    {
    }

    static lemma NextFreed(f: Fs, o: map<int, Loc>, i: nat, j: nat)
      requires Shape(f) && SlotsOwned(f, o) && OwnersHold(f, o) && i < |f.inodes| && j < 256
      ensures var b := Slot(f, i, 13 + j);
              && FreedEntries(o, i, j + 1) == (if b == 0 then FreedEntries(o, i, j) else FreedEntries(o, i, j) + {b})
              && (b != 0 ==> b in o && b !in FreedEntries(o, i, j))
    {
      hide Slot;
      var b := Slot(f, i, 13 + j);
      if b != 0 {
        assert b in o && o[b] == Loc(i, 13 + j);
      }
      forall x | x in o && o[x] == Loc(i, 13 + j) ensures x == b {
        assert Slot(f, o[x].i, o[x].s) == x;
      }
    }

    static lemma AllFreed(f: Fs, o: map<int, Loc>, i: nat)
      requires Shape(f) && SlotsOwned(f, o) && OwnersHold(f, o) && i < |f.inodes| && Table(f, i) != 0
      ensures FreedEntries(o, i, 256) + {Table(f, i)} == IndirectBlocks(o, i) && Table(f, i) !in FreedEntries(o, i, 256)
      ensures Table(f, i) in o
    {
      TableOwned(f, o, i);
      forall x | x in o && o[x] == Loc(i, 12) ensures x == Table(f, i) {
        assert Slot(f, o[x].i, o[x].s) == x;
      }
    }

    /** The free-and-mark-unallocated part of `iput`, for an inode with no links
        and no other references: its blocks and the inode itself become free. */
    method FreeInode(i: nat)
      requires Valid() && i < |inodes| && inodes[i].nlink == 0
      modifies this`bitmap, this`inodes, this`dinodes, this`owner, this`touched
      ensures Valid() && Survive(old(State()), State(), i)
      ensures inodes[i].kind == 0 && owner == Without(old(owner), i, SLOTS)
      ensures |blocks| <= BPB ==> touched <= old(touched) + {MapBlk(0), InodeBlk(i / IPB)}
      ensures LoggedSince(old(State()), old(dinodes), old(touched))
    {
      hide Slot, Bit, SlotsOwned, OwnersHold, Marked, KeepsBlock, Contents, FileOk, Logged;
      ghost var f0, d0 := State(), dinodes;
      Itrunc(i);
      ghost var f1, d1, t1 := State(), dinodes, touched;
      inodes := inodes[i := inodes[i].(kind := 0)];
      KindKeeps(f1, State(), owner, i);
      dinodes := dinodes[i := inodes[i]]; // iupdate
      touched := touched + {InodeBlk(i / IPB)};
      InodeLogged(f1, d1, State(), i, inodes[i], touched);
      LoggedTrans(f0, d0, f1, d1, t1, State(), dinodes, touched);
      KeepsAllButTrans(f0, f1, State(), i);
      OthersSurvive(f0, State(), i);
      EmptyOk(State(), i);
    }

    static lemma KindKeeps(f: Fs, g: Fs, o: map<int, Loc>, i: nat)
      requires Owned(f, o, {}, {}) && i < |f.inodes|
      requires exists k :: g == f.(inodes := f.inodes[i := f.inodes[i].(kind := k)])
      ensures Owned(g, o, {}, {}) && KeepsAllBut(f, g, i)
    {
      var k :| g == f.(inodes := f.inodes[i := f.inodes[i].(kind := k)]);
      assert f.inodes[i].(kind := k) == f.inodes[i].(size := f.inodes[i].size, kind := k);
      SizeKeeps(f, g, o, i);
    }

    static lemma EmptyOk(f: Fs, i: nat)
      requires Shape(f) && i < |f.inodes| && f.inodes[i].size == 0
      ensures FileOk(f, i)
    {
    }

    /** `ialloc`: the first inode of kind 0 is zeroed and given the kind. */
    method Ialloc(kind: int) returns (inum: nat)
      requires Valid() && kind != 0
      modifies this`inodes, this`dinodes, this`touched
      ensures Valid() && owner == old(owner) && blocks == old(blocks) && bitmap == old(bitmap)
      ensures inum == 0 ==> inodes == old(inodes) && forall j :: 1 <= j < |inodes| ==> inodes[j].kind != 0
      ensures inum != 0 ==>
                && inum < |old(inodes)| && old(inodes)[inum].kind == 0 && (forall j :: 1 <= j < inum ==> old(inodes)[j].kind != 0)
                && inodes == old(inodes)[inum := Inode(kind, 0, 0, seq(13, k => 0))]
                && Survive(old(State()), State(), inum)
      ensures LoggedSince(old(State()), old(dinodes), old(touched))
      ensures touched <= old(touched) + if inum == 0 then {} else {InodeBlk(inum / IPB)}
    {
      hide Slot, Bit, SlotsOwned, OwnersHold, Marked, KeepsBlock, Contents, Logged;
      LoggedSelf(State(), dinodes, touched);
      inum := 1;
      while inum < |inodes|
        invariant 1 <= inum && forall j :: 1 <= j < inum && j < |inodes| ==> inodes[j].kind != 0
      {
        if inodes[inum].kind == 0 {
          ghost var f := State();
          inodes := inodes[inum := Inode(kind, 0, 0, seq(13, k => 0))];
          assert inodes[inum].addrs == f.inodes[inum].addrs;
          dinodes := dinodes[inum := inodes[inum]];
          touched := touched + {InodeBlk(inum / IPB)};
          InodeLogged(f, old(dinodes), State(), inum, inodes[inum], touched);
          ZeroedKeeps(f, State(), owner, inum);
          OthersSurvive(f, State(), inum);
          EmptyOk(State(), inum);
          return;
        }
        inum := inum + 1;
      }
      return 0;
    }

    static lemma ZeroedKeeps(f: Fs, g: Fs, o: map<int, Loc>, i: nat)
      requires Owned(f, o, {}, {}) && i < |f.inodes| && |g.inodes| == |f.inodes|
      requires g == f.(inodes := f.inodes[i := g.inodes[i]]) && g.inodes[i].addrs == f.inodes[i].addrs
      ensures Owned(g, o, {}, {}) && KeepsAllBut(f, g, i)
    {
      hide Slot, Bit;
      assert Shape(g);
      forall j, s | 0 <= j < |f.inodes| && 0 <= s < SLOTS ensures Slot(g, j, s) == Slot(f, j, s) {
        SameAddrsSlot(f, g, j, s);
      }
    }

    // ---- reading and writing

    /** An inode in use that no directory names. */
    static predicate Orphan(ip: Inode) {
      ip.kind != 0 && ip.nlink == 0
    }

    /** The blocks of all inodes but the orphans below `n`. */
    static ghost function WithoutOrphans(o: map<int, Loc>, ips: seq<Inode>, n: nat): map<int, Loc> {
      map b | b in o && !(1 <= o[b].i < n && o[b].i < |ips| && Orphan(ips[o[b].i])) :: o[b]
    }

    /** Every file but the orphans below `n` is as before. */
    static ghost predicate Spared(f: Fs, g: Fs, n: nat) {
      && Shape(f) && Shape(g) && |f.inodes| == |g.inodes| && |f.blocks| == |g.blocks|
      && forall j :: 0 <= j < |f.inodes| && !(1 <= j < n && Orphan(f.inodes[j])) ==>
                       && g.inodes[j].kind == f.inodes[j].kind && g.inodes[j].nlink == f.inodes[j].nlink
                       && (FileOk(f, j) ==> FileOk(g, j) && Contents(g, j) == Contents(f, j))
    }

    static lemma NextOrphan(g: Fs, o: map<int, Loc>, ips: seq<Inode>, now: map<int, Loc>, n: nat)
      requires Owned(g, now, {}, {}) && now == WithoutOrphans(o, ips, n) && 1 <= n < |ips| && Orphan(ips[n])
      ensures Without(now, n, SLOTS) == WithoutOrphans(o, ips, n + 1)
    {
      hide Slot, Bit, SlotsOwned, Marked;
      var l, r := Without(now, n, SLOTS), WithoutOrphans(o, ips, n + 1);
      forall b | b in o ensures b in l <==> b in r {
        if b in now {
          assert o[b].s < SLOTS;
        }
      }
      assert l.Keys == r.Keys;
    }

    /** `ireclaim`, at boot: exactly the orphans and their blocks become free. */
    method Ireclaim()
      requires Valid()
      modifies this`bitmap, this`inodes, this`dinodes, this`owner, this`touched
      ensures Valid() && Spared(old(State()), State(), |inodes|)
      ensures owner == WithoutOrphans(old(owner), old(inodes), |inodes|)
      ensures forall j :: 1 <= j < |inodes| ==> !Orphan(inodes[j]) && (Orphan(old(inodes)[j]) ==> inodes[j].kind == 0)
    {
      hide Slot, Bit, SlotsOwned, OwnersHold, Marked, Contents, FileOk;
      ghost var f := State();
      ghost var o := owner;
      var inum := 1;
      assert WithoutOrphans(o, f.inodes, 1) == o;
      while inum < |inodes|
        invariant Valid() && 1 <= inum && Spared(f, State(), inum) && owner == WithoutOrphans(o, f.inodes, inum)
        invariant forall j :: 1 <= j < inum && j < |inodes| && Orphan(f.inodes[j]) ==> inodes[j].kind == 0
      {
        ghost var g := State();
        if inodes[inum].kind != 0 && inodes[inum].nlink == 0 {
          assert 1 <= inum && Orphan(f.inodes[inum]);
          touched := {};                // begin_op
          NextOrphan(g, o, f.inodes, owner, inum);
          FreeInode(inum);
        }
        inum := inum + 1;
      }
    }

    /** `either_copyin`/`either_copyout` of a chunk: the user memory is accessible up to `avail` bytes. */
    static predicate Copies(upto: nat, avail: nat) {
      upto <= avail
    }

    static function Min(a: nat, b: nat): nat {
      if a < b then a else b
    }

    /** `off + n` in uint arithmetic is below `off`. */
    static predicate Wraps(off: nat, n: nat) {
      (off + n) % UINT < off
    }

    /** `readi`: the bytes of the file from `off`, at most `n`; nothing is allocated. */
    method Readi(i: nat, off: nat, n: nat, avail: nat) returns (r: int, data: seq<int>)
      requires Valid() && i < |inodes| && off < UINT && n < UINT
      modifies this`bitmap, this`blocks, this`inodes, this`owner, this`touched
      ensures State() == old(State()) && owner == old(owner) && touched == old(touched) && Valid()
      ensures off > inodes[i].size || Wraps(off, n) ==> r == 0
      ensures off <= inodes[i].size && !Wraps(off, n) ==>
                var m := Min(n, inodes[i].size - off);
                && (avail >= m ==> r == m && FileOk(State(), i) && data == Contents(State(), i)[off..off + m])
                && (avail < m ==> r == -1)
    {
      hide Slot, Bit, SlotsOwned, OwnersHold, Marked, KeepsBlock, FBlock, Contents;
      r, data := 0, [];
      if off > inodes[i].size || (off + n) % UINT < off {
        return;
      }
      ghost var f := State();
      assert FileOk(f, i);
      NoHolesBound(f, i, inodes[i].size);
      var m := if (off + n) % UINT > inodes[i].size then inodes[i].size - off else n;
      assert m == Min(n, inodes[i].size - off);
      var tot := 0;
      assert Reads(f, i, off, data);
      hide Reads, FileByte;
      while tot < m
        invariant 0 <= tot <= m && tot <= avail && State() == f && owner == old(owner) && touched == old(touched)
        invariant |data| == tot && Reads(f, i, off, data)
      {
        var cur := off + tot;
        ReadBlock(f, owner, i, cur);
        var addr := Bmap(i, cur / 1024);
        if addr == 0 {
          break;
        }
        var c := Min(m - tot, 1024 - cur % 1024);
        if !Copies(tot + c, avail) {
          return -1, [];
        }
        ReadChunk(f, i, off, data, c);
        data := data + blocks[addr][cur % 1024..cur % 1024 + c];
        tot := tot + c;
      }
      r := tot;
      ReadsAll(f, i, off, data);
    }

    static lemma ReadBlock(f: Fs, o: map<int, Loc>, i: nat, k: nat)
      requires Owned(f, o, {}, {}) && i < |f.inodes| && FileOk(f, i) && k < f.inodes[i].size
      ensures k / 1024 < MAXFILE && 0 < FBlock(f, i, k / 1024) < |f.blocks|
    {
      hide FBlock;
    }

    /** `d` is what file `i` holds from `off`. */
    static ghost predicate Reads(f: Fs, i: nat, off: nat, d: seq<int>)
      requires Shape(f) && i < |f.inodes|
    {
      off + |d| <= MAXFILE * 1024 && forall k :: 0 <= k < |d| ==> d[k] == FileByte(f, i, off + k)
    }

    static lemma ReadsAll(f: Fs, i: nat, off: nat, d: seq<int>)
      requires Shape(f) && i < |f.inodes| && FileOk(f, i) && off + |d| <= f.inodes[i].size && Reads(f, i, off, d)
      ensures d == Contents(f, i)[off..off + |d|]
    {
    }

    static lemma ReadChunk(f: Fs, i: nat, off: nat, d: seq<int>, c: nat)
      requires Shape(f) && i < |f.inodes| && Reads(f, i, off, d)
      requires var cur := off + |d|;
               cur + c <= MAXFILE * 1024 && 1 <= c <= 1024 - cur % 1024 && 0 < FBlock(f, i, cur / 1024) < |f.blocks|
      ensures var cur := off + |d|;
              Reads(f, i, off, d + f.blocks[FBlock(f, i, cur / 1024)][cur % 1024..cur % 1024 + c])
    {
      hide FBlock, FileByte;
      var cur := off + |d|;
      var e := f.blocks[FBlock(f, i, cur / 1024)][cur % 1024..cur % 1024 + c];
      forall k | 0 <= k < |d + e| ensures (d + e)[k] == FileByte(f, i, off + k) {
        if k >= |d| {
          ReadByte(f, i, cur, k - |d|);
        }
      }
    }

    static lemma ReadByte(f: Fs, i: nat, k: nat, d: nat)
      requires Shape(f) && i < |f.inodes| && k / 1024 < MAXFILE && 0 < FBlock(f, i, k / 1024) < |f.blocks|
      requires k % 1024 + d < 1024
      ensures FileByte(f, i, k + d) == f.blocks[FBlock(f, i, k / 1024)][k % 1024 + d]
    {
      hide FBlock;
      assert (k + d) / 1024 == k / 1024 && (k + d) % 1024 == k % 1024 + d;
    }

    /** The number of file blocks that bytes [off, off + n) lie in. */
    static function Chunks(off: nat, n: nat): nat {
      if n == 0 then 0 else (off + n - 1) / 1024 - off / 1024 + 1
    }

    /** `c` blocks are behind a write that has placed `tot` bytes and will go on. */
    static ghost predicate ChunksDone(off: nat, tot: nat, c: nat) {
      (tot == 0 || (off + tot) % 1024 == 0) && c <= Chunks(off, tot)
    }

    static lemma FirstChunk(off: nat)
      ensures ChunksDone(off, 0, 0) && forall n: nat :: 0 <= Chunks(off, n)
    {
    }

    static lemma FewChunks(off: nat, tot: nat, n: nat, c: nat)
      requires tot < n && ChunksDone(off, tot, c)
      ensures c <= Chunks(off, n)
    {
    }

    static lemma NextChunk(off: nat, tot: nat, n: nat, c: nat, c': nat)
      requires tot < n && ChunksDone(off, tot, c) && c' <= c + 1
      ensures c' <= Chunks(off, n)
      ensures var m := Min(n - tot, 1024 - (off + tot) % 1024); tot + m < n ==> ChunksDone(off, tot + m, c')
    {
    }

    static lemma PutChunk(f0: Fs, g: Fs, o: map<int, Loc>, i: nat, off: nat, src: seq<int>, tot: nat, m: nat)
      requires Owned(g, o, {}, {}) && tot + m <= |src| && Written(f0, g, i, off, src[..tot])
      requires var cur := off + tot;
               cur + m <= MAXFILE * 1024 && 1 <= m <= 1024 - cur % 1024 && FBlock(g, i, cur / 1024) != 0
      ensures 0 < FBlock(g, i, (off + tot) / 1024) < |g.blocks| && |g.blocks[FBlock(g, i, (off + tot) / 1024)]| == 1024
      ensures var b := FBlock(g, i, (off + tot) / 1024);
              var h := PutData(g, b, Patch(g.blocks[b], (off + tot) % 1024, src[tot..tot + m]));
              Owned(h, o, {}, {}) && Written(f0, h, i, off, src[..tot + m])
    {
      hide Slot, Bit, Marked, FBlock, Patch;
      WrittenChunk(f0, g, o, i, off, src[..tot], src[tot..tot + m]);
      DataBlockOwner(g, o, i, (off + tot) / 1024);
      var b := FBlock(g, i, (off + tot) / 1024);
      DataOwned(g, o, b, Patch(g.blocks[b], (off + tot) % 1024, src[tot..tot + m]));
      assert src[..tot] + src[tot..tot + m] == src[..tot + m];
    }

    static lemma WritableShape(f: Fs, o: map<int, Loc>, i: nat)
      requires Owned(f, o, {}, {})
      ensures Shape(f)
    {
    }

    /** The size update at the end of `writei`. */
    static lemma FinishWrite(f0: Fs, f: Fs, o: map<int, Loc>, i: nat, off: nat, d: seq<int>)
      requires Owned(f, o, {}, {}) && Written(f0, f, i, off, d)
      ensures var len := if off + |d| > f.inodes[i].size then off + |d| else f.inodes[i].size;
              var g := f.(inodes := f.inodes[i := f.inodes[i].(size := len)]);
              && Owned(g, o, {}, {}) && Shape(g) && Spliced(f0, g, i, off, d)
              && |g.inodes| == |f0.inodes| && |g.blocks| == |f0.blocks|
              && g.inodes[i].kind == f0.inodes[i].kind && (FilesOk(f0) ==> FilesOk(g))
    {
      hide Slot, Bit;
      WrittenContents(f0, f, i, off, d);
      var len := if off + |d| > f0.inodes[i].size then off + |d| else f0.inodes[i].size;
      assert f.inodes[i].(size := len) == f.inodes[i].(size := len, kind := f.inodes[i].kind);
      SizeKeeps(f, f.(inodes := f.inodes[i := f.inodes[i].(size := len)]), o, i);
    }

    /** The user memory does not reach to the end of the next chunk. */
    static predicate Faults(off: nat, n: nat, tot: nat, avail: nat) {
      tot < n && avail < tot + Min(n - tot, 1024 - (off + tot) % 1024)
    }

    /** `writei`: splices as many bytes of `src` into the file as could be
        placed, grows the size accordingly and writes the inode back. */
    method Writei(i: nat, off: nat, src: seq<int>, avail: nat) returns (r: int, ghost data: set<Touch>)
      requires Valid() && i < |inodes| && inodes[i].kind != 0 && off < UINT && |src| < UINT
      modifies this`bitmap, this`blocks, this`inodes, this`dinodes, this`owner, this`touched
      ensures Valid() && |blocks| == |old(blocks)| && OnlyInode(old(State()), State(), i)
      ensures off > old(inodes)[i].size || Wraps(off, |src|) || off + |src| > MAXFILE * 1024 <==> r == -1
      ensures r == -1 ==> State() == old(State()) && owner == old(owner) && touched == old(touched)
      ensures r != -1 ==>
                && 0 <= r <= Min(|src|, avail) && Spliced(old(State()), State(), i, off, src[..r])
                && (r < |src| ==> Full(State()) || Faults(off, |src|, r, avail))
      ensures LoggedSince(old(State()), old(dinodes), old(touched))
      ensures |blocks| <= BPB && r != -1 ==>
                && touched <= old(touched) + {MapBlk(0), InodeBlk(i / IPB)} + TableTouch(State(), i) + data
                && |data| <= Chunks(off, |src|)
    {
      hide Slot, Bit, Owned, Written, KeepsFiles, FBlock, Patch, Spliced, Chunks, FileOk, ChunksDone, Logged;
      r, data := -1, {};
      LoggedSelf(State(), dinodes, touched);
      ghost var f0 := State();
      WritableShape(f0, owner, i);
      if off > inodes[i].size || (off + |src|) % UINT < off || (off + |src|) % UINT > MAXFILE * 1024 {
        return;
      }
      WrittenNothing(f0, i, off);
      assert src[..0] == [];
      FirstChunk(off);
      var tot, m := 0, 1;
      while tot < |src| && m > 0
        invariant 0 <= tot <= |src| && tot <= avail && 0 <= m && i < |inodes|
        invariant dinodes == f0.inodes
        invariant Writing(f0, old(touched), i, off, src[..tot], data)
        invariant m == 0 ==> tot < |src| && (Full(State()) || Faults(off, |src|, tot, avail))
        invariant tot < |src| && m > 0 ==> ChunksDone(off, tot, |data|)
        invariant |data| <= Chunks(off, |src|)
        decreases |src| - tot, m
      {
        m, data := WriteBlock(f0, old(touched), i, off, src, tot, avail, data);
        tot := tot + m;
      }
      FinishWrite(f0, State(), owner, i, off, src[..tot]);
      ghost var f1, t1 := State(), touched;
      ghost var len := if off + tot > inodes[i].size then off + tot else inodes[i].size;
      ghost var g := State().(inodes := inodes[i := inodes[i].(size := len)]);
      if off + tot > inodes[i].size {
        inodes := inodes[i := inodes[i].(size := off + tot)];
      }
      assert State() == g;
      dinodes := dinodes[i := inodes[i]]; // iupdate
      assert dinodes == inodes;
      touched := touched + {InodeBlk(i / IPB)};
      InodeLogged(f1, f0.inodes, State(), i, inodes[i], touched);
      LoggedTrans(f0, f0.inodes, f1, f0.inodes, t1, State(), dinodes, touched);
      r := tot;
    }

    /** The state of a write that has placed `d`. */
    ghost predicate Writing(f0: Fs, t0: set<Touch>, i: nat, off: nat, d: seq<int>, data: set<Touch>)
      reads this
    {
      && Owned(State(), owner, {}, {}) && Written(f0, State(), i, off, d) && OnlyInode(f0, State(), i)
      && LoggedSince(f0, dinodes, t0)
      && (|blocks| <= BPB ==> i < |inodes| && touched <= t0 + {MapBlk(0)} + TableTouch(State(), i) + data)
    }

    /** One round of the loop of `writei`: the number of bytes placed, or 0 to leave the loop. */
    method WriteBlock(ghost f0: Fs, ghost t0: set<Touch>, i: nat, off: nat, src: seq<int>, tot: nat, avail: nat, ghost data: set<Touch>)
      returns (m: nat, ghost data': set<Touch>)
      requires i < |f0.inodes| && tot < |src| && tot <= avail && off + |src| <= MAXFILE * 1024
      requires Writing(f0, t0, i, off, src[..tot], data) && ChunksDone(off, tot, |data|)
      modifies this`bitmap, this`blocks, this`inodes, this`owner, this`touched
      ensures tot + m <= |src| && tot + m <= avail && Writing(f0, t0, i, off, src[..tot + m], data')
      ensures m == 0 ==> Full(State()) || Faults(off, |src|, tot, avail)
      ensures |data'| <= Chunks(off, |src|)
      ensures m > 0 && tot + m < |src| ==> ChunksDone(off, tot + m, |data'|)
    {
      hide Slot, Bit, Owned, Written, KeepsFiles, Full, FBlock, Patch, Chunks, ChunksDone, Logged;
      data' := data;
      var cur := off + tot;
      ghost var f, t := State(), touched;
      FewChunks(off, tot, |src|, |data|);
      WritableShape(f, owner, i);
      var addr := Bmap(i, cur / 1024);
      ghost var g, u := State(), touched;
      WritableShape(g, owner, i);
      WrittenKeeps(f0, f, g, i, off, src[..tot]);
      LoggedTrans(f0, dinodes, f, dinodes, t, g, dinodes, u);
      if addr == 0 {
        return 0, data;
      }
      data' := data + {Data(addr)};
      NextChunk(off, tot, |src|, |data|, |data'|);
      m := Min(|src| - tot, 1024 - cur % 1024);
      if !Copies(tot + m, avail) {
        return 0, data';
      }
      PutChunk(f0, g, owner, i, off, src, tot, m);
      blocks := blocks[addr := Patch(blocks[addr], cur % 1024, src[tot..tot + m])];
      touched := touched + {Data(addr)};
      BlockLogged(g, dinodes, State(), addr, touched);
      LoggedTrans(f0, dinodes, g, dinodes, u, State(), dinodes, touched);
    }

    /** One transaction of `filewrite`, which logs all that it changes. */
    method WriteOp(i: nat, off: nat, src: seq<int>, avail: nat) returns (r: int, ghost logged: nat)
      requires Valid() && i < |inodes| && inodes[i].kind != 0 && off < UINT && |src| <= MAXWRITE
      modifies this`bitmap, this`blocks, this`inodes, this`dinodes, this`owner, this`touched
      ensures Valid() && |blocks| == |old(blocks)| && OnlyInode(old(State()), State(), i) && inodes[i].kind != 0
      ensures off > old(inodes)[i].size || Wraps(off, |src|) || off + |src| > MAXFILE * 1024 <==> r == -1
      ensures r == -1 ==> State() == old(State())
      ensures r != -1 ==>
                && 0 <= r <= Min(|src|, avail) && Spliced(old(State()), State(), i, off, src[..r])
                && (r < |src| ==> Full(State()) || Faults(off, |src|, r, avail))
      ensures logged == |touched| && (|blocks| <= BPB ==> logged <= 7)
      ensures Logged(old(State()), old(dinodes), State(), dinodes, touched)
    {
      hide Slot, Bit, Owned, FBlock, FileOk, Full, Chunks, Survive, Logged;
      touched := {}; // begin_op
      ghost var data;
      r, data := Writei(i, off, src, avail);
      logged := |touched|;
      WritableShape(State(), owner, i);
      if |blocks| <= BPB && r != -1 {
        FewTouched(State(), i, touched, data, off, |src|);
      }
    }

    /** `filewrite` on an inode: one transaction a chunk. `w` bytes get into
        the file; `most` is the largest number of blocks one transaction logged. */
    method Filewrite(f: OpenFile, src: seq<int>, avail: nat) returns (ret: int, ghost w: nat, ghost most: nat)
      requires Valid() && f.ip < |inodes| && inodes[f.ip].kind != 0 && f.off < UINT && |src| < UINT / 2
      modifies f`off, this`bitmap, this`blocks, this`inodes, this`dinodes, this`owner, this`touched
      ensures Valid() && w <= Min(|src|, avail) && f.off == old(f.off) + w && ret == if w == |src| then |src| else -1
      ensures w > 0 || old(f.off) <= old(inodes)[f.ip].size ==> Spliced(old(State()), State(), f.ip, old(f.off), src[..w])
      ensures w == 0 && old(f.off) > old(inodes)[f.ip].size ==> State() == old(State())
      ensures w < |src| ==>
                || Full(State()) || (avail < |src| && avail < w + 1024)
                || old(f.off) > old(inodes)[f.ip].size || old(f.off) + |src| > MAXFILE * 1024
      ensures |blocks| == |old(blocks)| && (|blocks| <= BPB ==> most <= 7)
    {
      hide Slot, Bit, Owned, FBlock, Spliced, FileOk, Full, Shape, Empty;
      ghost var f0 := State();
      var off0, ip := f.off, f.ip;
      w, most := 0, 0;
      var i, stop := 0, false;
      WritableShape(f0, owner, ip);
      UnwrittenSpliced(f0, ip, off0);
      assert src[..0] == [];
      while i < |src| && !stop
        invariant 0 <= i <= |src| && w == i && f.off == off0 + i && f.off <= UINT + i && f.ip == ip
        invariant Valid() && ip < |inodes| == |f0.inodes| && inodes[ip].kind != 0 && |blocks| == |f0.blocks|
        invariant i > 0 || off0 <= f0.inodes[ip].size ==> Spliced(f0, State(), ip, off0, src[..i]) && off0 + i <= MAXFILE * 1024
        invariant i == 0 && off0 > f0.inodes[ip].size ==> State() == f0
        invariant stop ==>
                    || Full(State()) || (avail < |src| && avail < w + 1024)
                    || off0 > f0.inodes[ip].size || off0 + |src| > MAXFILE * 1024
        invariant |blocks| <= BPB ==> most <= 7
        invariant i <= avail
        decreases |src| - i, if stop then 0 else 1
      {
        var n1 := |src| - i;
        if n1 > MAXWRITE {
          n1 := MAXWRITE;
        }
        ghost var g := State();
        assert src[i..i + n1][..n1] == src[i..i + n1];
        if i > 0 || off0 <= f0.inodes[ip].size {
          SplicedSize(f0, g, ip, off0, src[..i]);
        }
        var r, logged := WriteOp(ip, f.off, src[i..i + n1], avail - i);
        most := if logged > most then logged else most;
        if r >= 0 {
          assert src[i..i + n1][..r] == src[i..i + r];
          ChunkSpliced(f0, g, State(), ip, off0, src, i, r);
          w := w + r;
        }
        if r > 0 {
          f.off := f.off + r;
          i := i + r;
        }
        if r != n1 {
          stop := true;
        }
      }
      ret := if i == |src| then |src| else -1;
    }

    static lemma ChunkSpliced(f: Fs, g: Fs, h: Fs, ip: nat, off: nat, src: seq<int>, i: nat, r: nat)
      requires i + r <= |src| && Shape(f) && ip < |f.inodes|
      requires if i == 0 && off > f.inodes[ip].size then g == f else Spliced(f, g, ip, off, src[..i])
      requires Spliced(g, h, ip, off + i, src[i..i + r])
      ensures Spliced(f, h, ip, off, src[..i + r]) && off + i + r <= MAXFILE * 1024
    {
      hide FBlock, Contents, NoHoles;
      SplicedTwice(f, g, h, ip, off, src[..i], src[i..i + r]);
      assert src[..i] + src[i..i + r] == src[..i + r];
      NoHolesBound(h, ip, h.inodes[ip].size);
    }

    static lemma SplicedSize(f: Fs, g: Fs, i: nat, off: nat, d: seq<int>)
      requires Spliced(f, g, i, off, d)
      ensures off + |d| <= g.inodes[i].size && |g.inodes| == |f.inodes|
    {
    }

    static lemma FewTouched(f: Fs, i: nat, t: set<Touch>, data: set<Touch>, off: nat, n: nat)
      requires Shape(f) && i < |f.inodes| && n <= MAXWRITE && |f.blocks| <= BPB
      requires t <= {MapBlk(0), InodeBlk(i / IPB)} + TableTouch(f, i) + data && |data| <= Chunks(off, n)
      ensures |t| <= 7
    {
      var a, b, c := {MapBlk(0)}, {InodeBlk(i / IPB)}, TableTouch(f, i);
      Bounded(a + b, c);
      Bounded(a + b + c, data);
      Subset(t, a + b + c + data);
    }

    static lemma Bounded<T>(x: set<T>, y: set<T>)
      ensures |x + y| <= |x| + |y|
    {
    }

    static lemma Subset<T>(x: set<T>, y: set<T>)
      requires x <= y
      ensures |x| <= |y|
    {
      assert y == x + (y - x);
    }

    static lemma UnwrittenSpliced(f: Fs, i: nat, off: nat)
      requires Shape(f) && FilesOk(f) && i < |f.inodes|
      ensures off <= f.inodes[i].size ==> Spliced(f, f, i, off, []) && off <= MAXFILE * 1024
    {
    }
  }
}
