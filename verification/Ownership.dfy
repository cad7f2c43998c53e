/** Who owns each disk block: the global invariant that ties the free map of
    kernel/fs.c to the direct, indirect and indirect-table slots of all inodes. */
module Ownership {
  import opened Blocks

  const NDIRECT: nat := 12
  const SLOTS: nat := 269       // 12 direct, the table, 256 indirect entries

  datatype Inode = Inode(kind: int, nlink: int, size: nat, addrs: seq<nat>)

  /** The disk as the cache shows it; blocks below `nmeta` hold metadata. */
  datatype Fs = Fs(nmeta: nat, bitmap: seq<bv8>, blocks: seq<Block>, inodes: seq<Inode>)

  /** Slot `s` of inode `i`: 0..11 direct, 12 the indirect table, 13.. its entries. */
  datatype Loc = Loc(i: nat, s: nat)

  ghost predicate Shape(f: Fs) {
    && 0 < f.nmeta <= |f.blocks| <= 8 * |f.bitmap|
    && |f.blocks| < 0x1_0000_0000
    && (forall i :: 0 <= i < |f.inodes| ==> |f.inodes[i].addrs| == 13)
    && (forall b :: 0 <= b < |f.blocks| ==> |f.blocks[b]| == 1024)
  }

  function Table(f: Fs, i: nat): nat
    requires i < |f.inodes| && |f.inodes[i].addrs| == 13
  {
    f.inodes[i].addrs[12]
  }

  /** The block number held by a slot; 0 means none. */
  function Slot(f: Fs, i: nat, s: nat): int
    requires Shape(f) && i < |f.inodes| && s < SLOTS
  {
    if s <= 12 then f.inodes[i].addrs[s]
    else if Table(f, i) == 0 || Table(f, i) >= |f.blocks| then 0
    else WordAt(f.blocks[Table(f, i)], s - 13)
  }

  /** Every nonzero slot holds a block that is owned by exactly this slot. */
  ghost predicate SlotsOwned(f: Fs, o: map<int, Loc>)
    requires Shape(f)
  {
    forall i, s :: 0 <= i < |f.inodes| && 0 <= s < SLOTS && Slot(f, i, s) != 0 ==>
                     Slot(f, i, s) in o && o[Slot(f, i, s)] == Loc(i, s)
  }

  /** Every owned block is a data block, and its owner really holds it. */
  ghost predicate OwnersHold(f: Fs, o: map<int, Loc>)
    requires Shape(f)
  {
    forall b :: b in o ==>
                  f.nmeta <= b < |f.blocks| && o[b].i < |f.inodes| && o[b].s < SLOTS && Slot(f, o[b].i, o[b].s) == b
  }

  /** The free map marks exactly the metadata, the owned blocks but those in
      `freed`, and the blocks of `pend`, which are allocated but not yet placed. */
  ghost predicate Marked(f: Fs, o: map<int, Loc>, pend: set<int>, freed: set<int>)
    requires Shape(f)
  {
    && (forall b :: 0 <= b < |f.blocks| ==>
          Bit(f.bitmap, b) == (b < f.nmeta || (b in o && b !in freed) || b in pend))
    && (forall b :: b in pend ==> b !in o && f.nmeta <= b < |f.blocks|)
  }

  ghost predicate Owned(f: Fs, o: map<int, Loc>, pend: set<int>, freed: set<int>) {
    Shape(f) && SlotsOwned(f, o) && OwnersHold(f, o) && Marked(f, o, pend, freed)
  }

  /** A bit is set exactly when the block is metadata or in exactly one slot of exactly one inode. */
  lemma BitMeansOneOwner(f: Fs, o: map<int, Loc>, b: nat)
    requires Owned(f, o, {}, {}) && f.nmeta <= b < |f.blocks|
    ensures Bit(f.bitmap, b) <==>
            exists i, s :: 0 <= i < |f.inodes| && 0 <= s < SLOTS && Slot(f, i, s) == b
    ensures forall i, s, i', s' ::
              && 0 <= i < |f.inodes| && 0 <= s < SLOTS && Slot(f, i, s) == b
              && 0 <= i' < |f.inodes| && 0 <= s' < SLOTS && Slot(f, i', s') == b
              ==> i == i' && s == s'
  {
    hide Slot, Bit;
    if b in o {
      assert Slot(f, o[b].i, o[b].s) == b;
    }
  }

  // ---- the elementary updates

  /** `balloc`: set the bit and zero the block. */
  function MarkZero(f: Fs, b: nat): Fs
    requires b < |f.blocks| <= 8 * |f.bitmap|
  {
    f.(bitmap := SetBit(f.bitmap, b), blocks := f.blocks[b := Zero()])
  }

  /** `bfree`. */
  function Unmark(f: Fs, b: nat): Fs
    requires b < 8 * |f.bitmap|
  {
    f.(bitmap := ClearBit(f.bitmap, b))
  }

  function PutAddr(f: Fs, i: nat, s: nat, b: nat): Fs
    requires i < |f.inodes| && s < |f.inodes[i].addrs|
  {
    f.(inodes := f.inodes[i := f.inodes[i].(addrs := f.inodes[i].addrs[s := b])])
  }

  function PutEntry(f: Fs, i: nat, j: nat, b: nat): Fs
    requires i < |f.inodes| && |f.inodes[i].addrs| == 13 && Table(f, i) < |f.blocks| && |f.blocks[Table(f, i)]| == 1024 && j < 256
  {
    f.(blocks := f.blocks[Table(f, i) := PutWord(f.blocks[Table(f, i)], j, b)])
  }

  /** New contents for a block that holds file data. */
  function PutData(f: Fs, b: nat, data: Block): Fs
    requires b < |f.blocks|
  {
    f.(blocks := f.blocks[b := data])
  }

  /** Block `b` is nobody's indirect table. */
  ghost predicate NotTable(f: Fs, b: int)
    requires Shape(f)
  {
    forall i :: 0 <= i < |f.inodes| ==> Table(f, i) != b || b == 0
  }

  lemma NotTableOf(f: Fs, o: map<int, Loc>, b: int)
    requires Shape(f) && SlotsOwned(f, o) && (b in o ==> o[b].s != 12)
    ensures NotTable(f, b)
  {
    forall i | 0 <= i < |f.inodes| ensures Table(f, i) != b || b == 0 {
      assert Slot(f, i, 12) == Table(f, i);
    }
  }

  /** Only a table's own contents matter to the slots. */
  lemma SlotAfterData(f: Fs, b: nat, data: Block, i: nat, s: nat)
    requires Shape(f) && b < |f.blocks| && |data| == 1024 && NotTable(f, b) && i < |f.inodes| && s < SLOTS
    ensures Shape(PutData(f, b, data)) && Slot(PutData(f, b, data), i, s) == Slot(f, i, s)
  {
    hide WordAt;
    assert Table(f, i) != b || b == 0;
  }

  lemma SlotAfterMark(f: Fs, b: nat, i: nat, s: nat)
    requires Shape(f) && b < |f.blocks| && NotTable(f, b) && i < |f.inodes| && s < SLOTS
    ensures Shape(MarkZero(f, b)) && Slot(MarkZero(f, b), i, s) == Slot(f, i, s)
  {
    hide WordAt, SetBit;
    SlotAfterData(f, b, Zero(), i, s);
  }

  lemma SlotAfterAddr(f: Fs, i0: nat, s0: nat, b: nat, i: nat, s: nat)
    requires Shape(f) && i0 < |f.inodes| && s0 <= 12 && i < |f.inodes| && s < SLOTS
    ensures Shape(PutAddr(f, i0, s0, b))
    ensures i != i0 || (s <= 12 && s != s0) || (s > 12 && s0 != 12) ==> Slot(PutAddr(f, i0, s0, b), i, s) == Slot(f, i, s)
    ensures i == i0 && s == s0 ==> Slot(PutAddr(f, i0, s0, b), i, s) == b
    ensures i == i0 && s > 12 && s0 == 12 ==>
              Slot(PutAddr(f, i0, s0, b), i, s) ==
              if b == 0 || b >= |f.blocks| then 0 else WordAt(f.blocks[b], s - 13)
  {
    hide WordAt;
  }

  lemma SlotAfterEntry(f: Fs, i0: nat, j: nat, b: nat, i: nat, s: nat)
    requires Shape(f) && i0 < |f.inodes| && j < 256 && 0 < Table(f, i0) < |f.blocks| && b < |f.blocks|
    requires i < |f.inodes| && s < SLOTS
    requires i != i0 ==> Table(f, i) != Table(f, i0)
    ensures Shape(PutEntry(f, i0, j, b))
    ensures Slot(PutEntry(f, i0, j, b), i, s) == if i == i0 && s == 13 + j then b else Slot(f, i, s)
  {
    hide WordAt, PutWord;
    if i == i0 && s >= 13 {
      PutWordAt(f.blocks[Table(f, i0)], j, b, s - 13);
    }
  }

  // ---- what they do to ownership

  lemma MarkOwned(f: Fs, o: map<int, Loc>, b: nat)
    requires Owned(f, o, {}, {}) && b < |f.blocks| && !Bit(f.bitmap, b)
    ensures f.nmeta <= b && b !in o && Owned(MarkZero(f, b), o, {b}, {})
  {
    hide Slot, Bit, SetBit, NotTable;
    var g := MarkZero(f, b);
    NotTableOf(f, o, b);
    assert Shape(g);
    forall i, s | 0 <= i < |f.inodes| && 0 <= s < SLOTS ensures Slot(g, i, s) == Slot(f, i, s) {
      SlotAfterMark(f, b, i, s);
    }
    forall x | 0 <= x < |f.blocks| ensures Bit(g.bitmap, x) == (x == b || Bit(f.bitmap, x)) {
      SetBitAt(f.bitmap, b, x);
    }
  }

  /** A direct slot or an empty table takes the pending block. */
  lemma PlaceAddr(f: Fs, o: map<int, Loc>, i: nat, s: nat, b: nat)
    requires Owned(f, o, {b}, {}) && i < |f.inodes| && s <= 12 && Slot(f, i, s) == 0
    requires s == 12 ==> f.blocks[b] == Zero()
    ensures Owned(PutAddr(f, i, s, b), o[b := Loc(i, s)], {}, {})
  {
    hide Slot, Bit;
    var g, p := PutAddr(f, i, s, b), o[b := Loc(i, s)];
    SlotAfterAddr(f, i, s, b, i, s);
    forall i', s' | 0 <= i' < |f.inodes| && 0 <= s' < SLOTS
      ensures Slot(g, i', s') == if i' == i && s' == s then b else Slot(f, i', s')
    {
      SlotAfterAddr(f, i, s, b, i', s');
      if s == 12 && i' == i && s' > 12 {
        ZeroWord(s' - 13);
        NoTableNoEntries(f, i, s');
      }
    }
    assert b > 0;
  }

  lemma NoTableNoEntries(f: Fs, i: nat, s: nat)
    requires Shape(f) && i < |f.inodes| && 12 < s < SLOTS && Slot(f, i, 12) == 0
    ensures Slot(f, i, s) == 0
  {
  }

  lemma TablesDiffer(f: Fs, o: map<int, Loc>, i: nat, i': nat)
    requires Shape(f) && SlotsOwned(f, o) && i < |f.inodes| && i' < |f.inodes| && i != i' && Table(f, i) != 0
    ensures Table(f, i) in o && o[Table(f, i)] == Loc(i, 12) && Table(f, i) != Table(f, i')
  {
    assert Slot(f, i, 12) == Table(f, i) && Slot(f, i', 12) == Table(f, i');
  }

  lemma TableOwned(f: Fs, o: map<int, Loc>, i: nat)
    requires Shape(f) && SlotsOwned(f, o) && OwnersHold(f, o) && i < |f.inodes| && Table(f, i) != 0
    ensures Table(f, i) in o && o[Table(f, i)] == Loc(i, 12) && f.nmeta <= Table(f, i) < |f.blocks|
  {
    assert Slot(f, i, 12) == Table(f, i);
  }

  lemma PlaceEntry(f: Fs, o: map<int, Loc>, i: nat, j: nat, b: nat)
    requires Owned(f, o, {b}, {}) && i < |f.inodes| && j < 256 && Table(f, i) != 0 && Slot(f, i, 13 + j) == 0
    ensures Table(f, i) < |f.blocks| && Owned(PutEntry(f, i, j, b), o[b := Loc(i, 13 + j)], {}, {})
  {
    hide Slot, Bit, Table, PutWord;
    TableOwned(f, o, i);
    var g := PutEntry(f, i, j, b);
    forall i', s' | 0 <= i' < |f.inodes| && 0 <= s' < SLOTS
      ensures Slot(g, i', s') == if i' == i && s' == 13 + j then b else Slot(f, i', s')
    {
      if i' != i {
        TablesDiffer(f, o, i, i');
      }
      SlotAfterEntry(f, i, j, b, i', s');
    }
  }

  /** `itrunc` frees a direct block and clears its slot. */
  lemma DropAddr(f: Fs, o: map<int, Loc>, i: nat, s: nat, b: nat)
    requires Owned(f, o, {}, {}) && i < |f.inodes| && s < 12 && Slot(f, i, s) == b != 0
    ensures b < |f.blocks| && Bit(f.bitmap, b)
    ensures Owned(PutAddr(Unmark(f, b), i, s, 0), o - {b}, {}, {})
  {
    hide Slot, Bit, ClearBit;
    assert b in o && o[b] == Loc(i, s);
    var g, p := PutAddr(Unmark(f, b), i, s, 0), o - {b};
    forall i', s' | 0 <= i' < |f.inodes| && 0 <= s' < SLOTS
      ensures Shape(g) && Slot(g, i', s') == if i' == i && s' == s then 0 else Slot(f, i', s')
    {
      SlotAfterUnmark(f, b, i', s');
      SlotAfterAddr(Unmark(f, b), i, s, 0, i', s');
    }
    forall x | 0 <= x < |f.blocks| ensures Bit(g.bitmap, x) == (x != b && Bit(f.bitmap, x)) {
      ClearBitAt(f.bitmap, b, x);
    }
  }

  lemma SlotAfterUnmark(f: Fs, b: nat, i: nat, s: nat)
    requires Shape(f) && b < 8 * |f.bitmap| && i < |f.inodes| && s < SLOTS
    ensures Shape(Unmark(f, b)) && Slot(Unmark(f, b), i, s) == Slot(f, i, s)
  {
    hide ClearBit, WordAt;
  }

  /** `bfree` of an owned block; "freeing free block" cannot happen. */
  lemma FreeOwned(f: Fs, o: map<int, Loc>, freed: set<int>, b: nat)
    requires Owned(f, o, {}, freed) && b in o && b !in freed
    ensures b < |f.blocks| && Bit(f.bitmap, b) && Owned(Unmark(f, b), o, {}, freed + {b})
  {
    hide Slot, Bit, ClearBit;
    var g := Unmark(f, b);
    forall i, s | 0 <= i < |f.inodes| && 0 <= s < SLOTS ensures Shape(g) && Slot(g, i, s) == Slot(f, i, s) {
      SlotAfterUnmark(f, b, i, s);
    }
    forall x | 0 <= x < |f.blocks| ensures Bit(g.bitmap, x) == (x != b && Bit(f.bitmap, x)) {
      ClearBitAt(f.bitmap, b, x);
    }
    assert Shape(g);
  }

  /** The blocks that the indirect slots of inode `i` own. */
  ghost function IndirectBlocks(o: map<int, Loc>, i: nat): set<int> {
    set b | b in o && o[b].i == i && o[b].s >= 12
  }

  /** Clearing the table slot after its blocks have been freed. */
  lemma DropTable(f: Fs, o: map<int, Loc>, i: nat)
    requires Owned(f, o, {}, IndirectBlocks(o, i)) && i < |f.inodes|
    ensures Owned(PutAddr(f, i, 12, 0), o - IndirectBlocks(o, i), {}, {})
  {
    hide Slot, Bit;
    var g, p := PutAddr(f, i, 12, 0), o - IndirectBlocks(o, i);
    forall i', s' | 0 <= i' < |f.inodes| && 0 <= s' < SLOTS
      ensures Shape(g) && Slot(g, i', s') == if i' == i && s' >= 12 then 0 else Slot(f, i', s')
    {
      SlotAfterAddr(f, i, 12, 0, i', s');
    }
    assert Shape(g);
  }

  /** Overwriting file data leaves ownership alone. */
  lemma DataOwned(f: Fs, o: map<int, Loc>, b: nat, data: Block)
    requires Owned(f, o, {}, {}) && b in o && o[b].s != 12 && |data| == 1024
    ensures b < |f.blocks| && Owned(PutData(f, b, data), o, {}, {})
  {
    hide Slot, Bit, NotTable;
    NotTableOf(f, o, b);
    var g := PutData(f, b, data);
    forall i, s | 0 <= i < |f.inodes| && 0 <= s < SLOTS ensures Shape(g) && Slot(g, i, s) == Slot(f, i, s) {
      SlotAfterData(f, b, data, i, s);
    }
    assert Shape(g);
  }
}
