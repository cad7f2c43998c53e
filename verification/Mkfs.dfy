/** The image that mkfs/mkfs.c builds: it hands out blocks in order, gives up when
    one lies beyond the end of the image, and writes the free map at the end. */
module Mkfs {
  import opened Blocks
  import opened Ownership
  import opened FileData
  import S = FileSystem

  const BPB: nat := 8192
  const FSSIZE: nat := 2000
  const DIRSIZ: nat := 14
  const ROOTINO: nat := 1

  /** The bitmap block that `balloc` writes: the first `used` bits. */
  function BitsBelow(used: nat): (m: seq<bv8>)
    requires used <= BPB
    ensures |m| == 1024
  {
    if used == 0 then seq(1024, k => 0) else SetBit(BitsBelow(used - 1), used - 1)
  }

  lemma {:induction false} BitsBelowAt(used: nat, k: nat)
    requires used <= BPB && k < BPB
    ensures Bit(BitsBelow(used), k) <==> k < used
  {
    if used > 0 {
      BitsBelowAt(used - 1, k);
      SetBitAt(BitsBelow(used - 1), used - 1, k);
    } else {
      NoBits(k);
    }
  }

  lemma NoBits(k: nat)
    requires k < BPB
    ensures !Bit(BitsBelow(0), k)
  {
    assert BitsBelow(0)[k / 8] == 0;
  }

  // ---- what lies behind the end of a file

  /** The first byte of the file that a data slot holds. */
  function Start(s: nat): int {
    (if s < 12 then s else s - 1) * 1024
  }

  /** Data block `b` of `l` begins before `end`, and is zero from there on. */
  predicate TailOk(blocks: seq<Block>, b: int, l: Loc, end: nat) {
    && 0 <= b < |blocks| && |blocks[b]| == 1024 && Start(l.s) < end
    && forall r :: 0 <= r < 1024 && Start(l.s) + r >= end ==> blocks[b][r] == 0
  }

  /** No file has blocks, or bytes but zeros, behind its end. */
  ghost predicate Tails(blocks: seq<Block>, o: map<int, Loc>, ends: seq<nat>) {
    forall b :: b in o && o[b].s != 12 ==> o[b].i < |ends| && TailOk(blocks, b, o[b], ends[o[b].i])
  }

  function Sizes(ips: seq<Inode>): (e: seq<nat>)
    ensures |e| == |ips| && forall i :: 0 <= i < |e| ==> e[i] == ips[i].size
  {
    seq(|ips|, i requires 0 <= i < |ips| => ips[i].size)
  }

  lemma TailsGrow(blocks: seq<Block>, o: map<int, Loc>, ends: seq<nat>, i: nat, end: nat)
    requires Tails(blocks, o, ends) && i < |ends| && ends[i] <= end
    ensures Tails(blocks, o, ends[i := end])
  {
    forall b | b in o && o[b].s != 12 ensures o[b].i < |ends| && TailOk(blocks, b, o[b], ends[i := end][o[b].i]) {
      assert TailOk(blocks, b, o[b], ends[o[b].i]);
    }
  }

  lemma TailsBlock(blocks: seq<Block>, o: map<int, Loc>, ends: seq<nat>, b: int, l: Loc)
    requires Tails(blocks, o, ends) && 0 <= b < |blocks| && blocks[b] == Zero() && l.i < |ends| && (l.s != 12 ==> Start(l.s) < ends[l.i])
    ensures Tails(blocks, o[b := l], ends)
  {
    var p := o[b := l];
    forall x | x in p && p[x].s != 12 ensures p[x].i < |ends| && TailOk(blocks, x, p[x], ends[p[x].i]) {
      assert x != b ==> TailOk(blocks, x, o[x], ends[o[x].i]);
    }
  }

  lemma TailsTable(blocks: seq<Block>, o: map<int, Loc>, ends: seq<nat>, t: nat, data: Block)
    requires Tails(blocks, o, ends) && t < |blocks| && (t in o ==> o[t].s == 12)
    ensures Tails(blocks[t := data], o, ends)
  {
    forall x | x in o && o[x].s != 12 ensures o[x].i < |ends| && TailOk(blocks[t := data], x, o[x], ends[o[x].i]) {
      assert TailOk(blocks, x, o[x], ends[o[x].i]);
    }
  }

  /** Bytes written before the end leave what lies behind it zero. */
  lemma TailsData(blocks: seq<Block>, o: map<int, Loc>, ends: seq<nat>, b: nat, r: nat, data: seq<int>)
    requires Tails(blocks, o, ends) && b < |blocks| && |blocks[b]| == 1024 && r + |data| <= 1024
    requires b in o && o[b].s != 12 && o[b].i < |ends| && Start(o[b].s) + r + |data| <= ends[o[b].i]
    ensures Tails(blocks[b := FileData.Patch(blocks[b], r, data)], o, ends)
  {
    var blocks' := blocks[b := FileData.Patch(blocks[b], r, data)];
    forall x | x in o && o[x].s != 12 ensures o[x].i < |ends| && TailOk(blocks', x, o[x], ends[o[x].i]) {
      assert TailOk(blocks, x, o[x], ends[o[x].i]);
    }
  }

  // ---- the contents of the image

  const T_DIR: int := 1
  const T_FILE: int := 2

  /** A file to put into the image: its name, and what each `read` of it gives. */
  datatype File = File(name: seq<int>, chunks: seq<seq<int>>)

  function Zeros(n: nat): (z: seq<int>)
    ensures |z| == n && forall k :: 0 <= k < n ==> z[k] == 0
  {
    seq(n, k => 0)
  }

  /** `struct dirent`: a 16-bit number and a name as strncpy puts it. */
  function Entry(inum: nat, name: seq<int>): (e: seq<int>)
    ensures |e| == 16
  {
    [inum % 256, inum / 256 % 256] + if |name| <= DIRSIZ then name + Zeros(DIRSIZ - |name|) else name[..DIRSIZ]
  }

  /** The root directory after `n` files; 46 is a dot. */
  function Entries(files: seq<File>, n: nat): seq<int>
    requires n <= |files|
  {
    if n == 0 then Entry(ROOTINO, [46]) + Entry(ROOTINO, [46, 46])
    else Entries(files, n - 1) + Entry(n + 1, files[n - 1].name)
  }

  function Flat(chunks: seq<seq<int>>): seq<int> {
    if chunks == [] then [] else Flat(chunks[..|chunks| - 1]) + chunks[|chunks| - 1]
  }

  function RootSize(off: nat): nat {
    (off / 1024 + 1) * 1024
  }

  class Image {
    const nmeta: nat
    ghost var bitmap: seq<bv8>
    var blocks: seq<Block>
    var inodes: seq<Inode>
    var freeblock: nat
    var freeinode: nat
    ghost var owner: map<int, Loc>

    ghost function F(): Fs
      reads this
    {
      Fs(nmeta, bitmap, blocks, inodes)
    }

    ghost predicate Fresh(pend: set<int>)
      reads this
    {
      && nmeta <= freeblock <= FSSIZE == |blocks| && bitmap == BitsBelow(freeblock) && |inodes| > 1
      && (forall b :: freeblock <= b < |blocks| ==> blocks[b] == Zero())
      && Owned(F(), owner, pend, {})
    }

    ghost predicate Valid()
      reads this
    {
      && Fresh({}) && S.Volume.FilesOk(F()) && Tails(blocks, owner, Sizes(inodes)) && 1 <= freeinode <= |inodes|
      && Unused(inodes, freeinode)
    }

    /** All sectors are zero, and nothing is allocated but the metadata. */
    constructor (nmeta0: nat, ninodes: nat)
      requires 0 < nmeta0 <= FSSIZE && ninodes > 1
      ensures Valid() && nmeta == nmeta0 && freeblock == nmeta0 && freeinode == 1 && owner == map[] && |inodes| == ninodes
    {
      nmeta := nmeta0;
      bitmap := BitsBelow(nmeta0);
      blocks := seq(FSSIZE, k => Zero());
      inodes := seq(ninodes, k => Inode(0, 0, 0, seq(13, j => 0)));
      freeblock := nmeta0;
      freeinode := 1;
      owner := map[];
      new;
      NothingOwned(F());
    }

    static lemma NothingOwned(f: Fs)
      requires 0 < f.nmeta <= FSSIZE == |f.blocks| && f.bitmap == BitsBelow(f.nmeta)
      requires forall i :: 0 <= i < |f.inodes| ==> f.inodes[i] == Inode(0, 0, 0, seq(13, j => 0))
      requires forall b :: 0 <= b < |f.blocks| ==> f.blocks[b] == Zero()
      ensures Owned(f, map[], {}, {}) && S.Volume.FilesOk(f)
    {
      hide Bit;
      assert Shape(f);
      forall b | 0 <= b < |f.blocks| ensures Bit(f.bitmap, b) == (b < f.nmeta) {
        BitsBelowAt(f.nmeta, b);
      }
    }

    /** `freeblock++`; the block is zero already. */
    method Alloc() returns (b: nat)
      requires Fresh({}) && freeblock < FSSIZE
      modifies this`freeblock, this`bitmap
      ensures b == old(freeblock) && freeblock == b + 1 && blocks[b] == Zero() && Fresh({b}) && F() == MarkZero(old(F()), b)
      ensures b !in owner && nmeta <= b < |blocks|
    {
      hide Bit, SlotsOwned, OwnersHold, SetBit;
      b := freeblock;
      BitsBelowAt(b, b);
      MarkOwned(F(), owner, b);
      ghost var f := F();
      bitmap := SetBit(bitmap, b);
      freeblock := freeblock + 1;
      assert blocks[b := Zero()] == blocks;
      assert F() == MarkZero(f, b);
    }

    /** The block for file block `fbn` of inode `i`, allocated if there is none;
        mkfs dies when it cannot read the block back, beyond the end of the image. */
    method BlockFor(i: nat, fbn: nat, ghost ends: seq<nat>) returns (ok: bool, x: int)
      requires Fresh({}) && i < |inodes| && fbn < MAXFILE
      requires Tails(blocks, owner, ends) && i < |ends| && fbn * 1024 < ends[i]
      modifies this`freeblock, this`bitmap, this`blocks, this`inodes, this`owner
      ensures ok ==> Fresh({}) && KeepsFiles(old(F()), F()) && FBlock(F(), i, fbn) == x != 0
      ensures |inodes| == |old(inodes)| && S.Volume.OnlyInode(old(F()), F(), i)
      ensures ok ==> Tails(blocks, owner, ends)
      ensures old(freeblock) <= freeblock <= old(freeblock) + 2
      ensures !ok ==> freeblock == FSSIZE
    {
      hide Slot, Bit, SlotsOwned, OwnersHold, Marked, KeepsBlock, WordAt, PutWord, Tails;
      ghost var f0 := F();
      KeepsSelf(f0);
      if fbn < 12 {
        S.Volume.AddrIs(f0, i, fbn);
        if inodes[i].addrs[fbn] == 0 {
          if freeblock == FSSIZE {
            return false, 0;
          }
          SetAddr(i, fbn, ends);
        }
        S.Volume.AddrIs(F(), i, fbn);
        return true, inodes[i].addrs[fbn];
      }
      S.Volume.AddrIs(f0, i, 12);
      if inodes[i].addrs[12] == 0 {
        if freeblock == FSSIZE {
          return false, 0;
        }
        SetAddr(i, 12, ends);
        S.Volume.AddrIs(F(), i, 12);
      }
      ghost var f1 := F();
      var j := fbn - 12;
      S.Volume.EntryIs(f1, owner, i, j);
      var table := inodes[i].addrs[12];
      if WordAt(blocks[table], j) == 0 {
        if freeblock == FSSIZE {
          return false, 0;
        }
        SetEntry(i, j, ends);
        KeepsTrans(f0, f1, F());
        S.Volume.EntryIs(F(), owner, i, j);
      }
      return true, WordAt(blocks[table], j);
    }

    method SetAddr(i: nat, s: nat, ghost ends: seq<nat>)
      requires Tails(blocks, owner, ends) && i < |ends| && (s != 12 ==> Start(s) < ends[i])
      requires Fresh({}) && i < |inodes| && s <= 12 && Slot(F(), i, s) == 0 && freeblock < FSSIZE
      modifies this`freeblock, this`bitmap, this`inodes, this`owner
      ensures Fresh({}) && KeepsFiles(old(F()), F()) && S.Volume.OnlyInode(old(F()), F(), i) && Slot(F(), i, s) == inodes[i].addrs[s] == old(freeblock)
      ensures freeblock == old(freeblock) + 1 && |inodes| == |old(inodes)| && Tails(blocks, owner, ends)
    {
      hide Tails, Slot, Bit, SlotsOwned, OwnersHold, Marked, KeepsBlock, BitsBelow;
      ghost var f := F();
      var b := Alloc();
      ghost var g := F();
      FreeSlot(f, owner, b, i, s);
      MarkKeeps(f, owner, b);
      PlaceAddr(g, owner, i, s, b);
      PlaceAddrKeeps(g, i, s, b);
      SlotAfterAddr(g, i, s, b, i, s);
      KeepsTrans(f, g, PutAddr(g, i, s, b));
      inodes := inodes[i := inodes[i].(addrs := inodes[i].addrs[s := b])];
      TailsBlock(blocks, owner, ends, b, Loc(i, s));
      owner := owner[b as int := Loc(i, s)];
      assert F() == PutAddr(g, i, s, b);
    }

    static lemma FreeSlot(f: Fs, o: map<int, Loc>, b: nat, i: nat, s: nat)
      requires Owned(f, o, {}, {}) && b < |f.blocks| && b !in o && i < |f.inodes| && s < SLOTS
      ensures Shape(MarkZero(f, b)) && Slot(MarkZero(f, b), i, s) == Slot(f, i, s)
    {
      hide Slot;
      S.Volume.SlotAfterFree(f, o, b, i, s);
    }

    method SetEntry(i: nat, j: nat, ghost ends: seq<nat>)
      requires Tails(blocks, owner, ends) && i < |ends| && Start(13 + j) < ends[i]
      requires Fresh({}) && i < |inodes| && j < 256 && |inodes[i].addrs| == 13 && inodes[i].addrs[12] != 0 && Slot(F(), i, 13 + j) == 0 && freeblock < FSSIZE
      modifies this`freeblock, this`bitmap, this`blocks, this`owner
      ensures Fresh({}) && KeepsFiles(old(F()), F()) && inodes == old(inodes) && Slot(F(), i, 13 + j) == old(freeblock)
      ensures freeblock == old(freeblock) + 1 && Tails(blocks, owner, ends)
    {
      hide Tails, Slot, Bit, SlotsOwned, OwnersHold, Marked, KeepsBlock, WordAt, PutWord, BitsBelow;
      ghost var f := F();
      var b := Alloc();
      ghost var g := F();
      var addr := inodes[i].addrs[12];
      FreeSlot(f, owner, b, i, 13 + j);
      MarkKeeps(f, owner, b);
      S.Volume.EntryIs(g, owner, i, j);
      PlaceEntry(g, owner, i, j, b);
      PlaceEntryKeeps(g, owner, i, j, b);
      S.Volume.EntryPlaced(g, owner, i, j, b);
      KeepsTrans(f, g, PutEntry(g, i, j, b));
      TableBelow(g, owner, {b as int}, i, freeblock);
      TailsBlock(blocks, owner, ends, b, Loc(i, 13 + j));
      TableSlot(g, owner, i);
      TailsTable(blocks, owner[b as int := Loc(i, 13 + j)], ends, addr, PutWord(blocks[addr], j, b));
      blocks := blocks[addr := PutWord(blocks[addr], j, b)];
      owner := owner[b as int := Loc(i, 13 + j)];
      assert F() == PutEntry(g, i, j, b);
    }

    static lemma TableSlot(f: Fs, o: map<int, Loc>, i: nat)
      requires Shape(f) && SlotsOwned(f, o) && OwnersHold(f, o) && i < |f.inodes| && Table(f, i) != 0
      ensures Table(f, i) in o && o[Table(f, i)].s == 12
    {
      TableOwned(f, o, i);
    }

    /** Blocks in use lie below `freeblock`. */
    static lemma TableBelow(f: Fs, o: map<int, Loc>, pend: set<int>, i: nat, freeblock: nat)
      requires Owned(f, o, pend, {}) && i < |f.inodes| && Table(f, i) != 0 && freeblock <= FSSIZE == |f.blocks| && f.bitmap == BitsBelow(freeblock)
      ensures Table(f, i) < freeblock
    {
      hide Bit, Slot;
      TableOwned(f, o, i);
      BitsBelowAt(freeblock, Table(f, i));
    }

    static function Min(a: nat, b: nat): nat {
      if a < b then a else b
    }

    /** The most that `freeblock` moves on while a file grows from `off` to `end`. */
    static function Growth(off: nat, end: nat): int {
      2 * ((end + 1023) / 1024 - off / 1024)
    }

    /** `iappend`: the bytes go to the end of the file; false where mkfs gives up,
        because the file would become too large or the image is full. */
    method Iappend(i: nat, data: seq<int>) returns (ok: bool)
      requires Valid() && 0 < i < freeinode && i < |inodes|
      modifies this`freeblock, this`bitmap, this`blocks, this`inodes, this`owner
      ensures ok ==> Valid() && Spliced(old(F()), F(), i, old(inodes)[i].size, data)
      ensures ok ==> S.Volume.OnlyInode(old(F()), F(), i) && |inodes| == |old(inodes)|
      ensures old(freeblock) <= freeblock <= old(freeblock) + Growth(old(inodes)[i].size, old(inodes)[i].size + |data|)
      ensures !ok ==> old(inodes)[i].size + |data| > MAXFILE * 1024 || freeblock == FSSIZE
    {
      hide Slot, Bit, Owned, Written, KeepsFiles, FBlock, Spliced, FileOk, BitsBelow, Tails, Growth, Unused, S.Volume.OnlyInode, S.Volume.FilesOk, Sizes;
      ghost var f0 := F();
      S.Volume.WritableShape(f0, owner, i);
      var off0 := inodes[i].size;
      ghost var ends: seq<nat> := Sizes(inodes);
      FileEnds(f0, i);
      WrittenNothing(f0, i, off0);
      assert data[..0] == [];
      assert ends[i := off0] == ends;
      NoGrowth(f0, i, off0);
      var tot := 0;
      while tot < |data|
        invariant 0 <= tot <= |data| && |inodes| == |f0.inodes| && |f0.blocks| == FSSIZE
        invariant old(freeblock) <= freeblock <= old(freeblock) + Growth(off0, off0 + tot)
        invariant tot == 0 ==> freeblock == old(freeblock)
        invariant tot == 0 || tot == |data| || (off0 + tot) % 1024 == 0
        invariant Fresh({}) && Written(f0, F(), i, off0, data[..tot]) && S.Volume.OnlyInode(f0, F(), i)
        invariant Tails(blocks, owner, ends[i := off0 + tot])
      {
        var off := off0 + tot;
        if off / 1024 >= MAXFILE {
          GrowsOn(off0, off, off0 + |data|);
          return false;
        }
        ghost var n := Min(|data| - tot, (off / 1024 + 1) * 1024 - off);
        GrowthStep(off0, off, n, |data| - tot);
        GrowsOn(off0, off + n, off0 + |data|);
        ghost var f1 := F();
        var more, n1 := Chunk(f0, i, off0, data, tot, ends);
        if !more {
          return false;
        }
        OnlyTrans(f0, f1, F(), i);
        tot := tot + n1;
      }
      assert data[..tot] == data;
      ghost var g := F();
      S.Volume.WritableShape(g, owner, i);
      S.Volume.FinishWrite(f0, g, owner, i, off0, data);
      WrittenSize(f0, g, i, off0, data);
      inodes := inodes[i := inodes[i].(size := off0 + tot)];
      SizeSet(f0, g, i, off0 + tot);
      UnusedKept(f0.inodes, g.inodes, inodes, i, freeinode);
      ok := true;
    }

    static predicate Unused(ips: seq<Inode>, freeinode: nat) {
      forall i :: 0 <= i < |ips| ==>
                    if i == 0 || freeinode <= i then ips[i] == Inode(0, 0, 0, seq(13, k => 0)) else ips[i].kind != 0
    }

    static lemma UnusedKept(a: seq<Inode>, b: seq<Inode>, c: seq<Inode>, i: nat, freeinode: nat)
      requires Unused(a, freeinode) && 0 < i < freeinode && |a| == |b| == |c| && i < |a|
      requires c == b[i := c[i]] && c[i].kind == a[i].kind && forall j :: 0 <= j < |a| && j != i ==> b[j] == a[j]
      ensures Unused(c, freeinode)
    {
    }

    static lemma NoGrowth(f: Fs, i: nat, off: nat)
      ensures S.Volume.OnlyInode(f, f, i) && Growth(off, off) >= 0
    {
    }

    static lemma GrowsOn(off0: nat, off: nat, end: nat)
      requires off <= end
      ensures Growth(off0, off) <= Growth(off0, end)
    {
    }

    static lemma SizeSet(f: Fs, g: Fs, i: nat, end: nat)
      requires S.Volume.OnlyInode(f, g, i) && i < |f.inodes|
      ensures forall j :: 0 <= j < |f.inodes| && j != i ==> g.inodes[j] == f.inodes[j]
      ensures var h := g.(inodes := g.inodes[i := g.inodes[i].(size := end)]);
              S.Volume.OnlyInode(f, h, i) && Sizes(h.inodes) == Sizes(f.inodes)[i := end]
    {
    }

    /** One round of the loop of `iappend`. */
    method Chunk(ghost f0: Fs, i: nat, off0: nat, data: seq<int>, tot: nat, ghost ends: seq<nat>) returns (more: bool, n1: nat)
      requires Fresh({}) && i < |inodes| && tot < |data| && (off0 + tot) / 1024 < MAXFILE && Written(f0, F(), i, off0, data[..tot])
      requires i < |ends| && Tails(blocks, owner, ends[i := off0 + tot])
      modifies this`freeblock, this`bitmap, this`blocks, this`inodes, this`owner
      ensures n1 == Min(|data| - tot, ((off0 + tot) / 1024 + 1) * 1024 - (off0 + tot))
      ensures old(freeblock) <= freeblock <= old(freeblock) + 2
      ensures !more ==> freeblock == FSSIZE
      ensures more ==> Fresh({}) && Written(f0, F(), i, off0, data[..tot + n1]) && S.Volume.OnlyInode(old(F()), F(), i)
      ensures more ==> Tails(blocks, owner, ends[i := off0 + tot + n1])
    {
      hide Slot, Bit, Owned, Written, KeepsFiles, FBlock, FileData.Patch, BitsBelow, Tails;
      var off, fbn := off0 + tot, (off0 + tot) / 1024;
      n1 := Min(|data| - tot, (fbn + 1) * 1024 - off);
      ghost var f1 := F();
      ChunkPlace(off, n1, |data| - tot);
      TailsGrow(blocks, owner, ends[i := off], i, off + n1);
      assert (ends[i := off])[i := off + n1] == ends[i := off + n1];
      var x;
      more, x := BlockFor(i, fbn, ends[i := off + n1]);
      if !more {
        return;
      }
      ghost var g := F();
      WrittenKeeps(f0, f1, g, i, off0, data[..tot]);
      S.Volume.PutChunk(f0, g, owner, i, off0, data, tot, n1);
      InUse(g, owner, i, fbn, freeblock);
      TailsData(blocks, owner, ends[i := off + n1], x, off % 1024, data[tot..tot + n1]);
      blocks := blocks[x := FileData.Patch(blocks[x], off % 1024, data[tot..tot + n1])];
    }

    static lemma OnlyTrans(f: Fs, g: Fs, h: Fs, i: nat)
      requires S.Volume.OnlyInode(f, g, i) && S.Volume.OnlyInode(g, h, i)
      ensures S.Volume.OnlyInode(f, h, i)
    {
    }

    static lemma ChunkPlace(off: nat, n1: nat, rest: nat)
      requires 1 <= rest && n1 == Min(rest, (off / 1024 + 1) * 1024 - off) && off / 1024 < MAXFILE
      ensures 1 <= n1 <= 1024 - off % 1024 && off + n1 <= MAXFILE * 1024
      ensures Start(FileSlot(off / 1024)) == off / 1024 * 1024 < off + n1 && Start(FileSlot(off / 1024)) + off % 1024 + n1 == off + n1
    {
    }

    /** A chunk that ends the block or the data. */
    static lemma GrowthStep(off0: nat, off: nat, n1: nat, rest: nat)
      requires off0 <= off && 1 <= rest && n1 == Min(rest, (off / 1024 + 1) * 1024 - off) && (off == off0 || off % 1024 == 0)
      ensures 1 <= n1 <= 1024 - off % 1024 && (n1 == rest || (off + n1) % 1024 == 0)
      ensures Growth(off0, off) + (if off == off0 && off % 1024 != 0 then 0 else 2) == Growth(off0, off + n1)
      ensures off == off0 && off % 1024 != 0 ==> Growth(off0, off) == 2
    {
    }

    static lemma FileEnds(f: Fs, i: nat)
      requires Shape(f) && S.Volume.FilesOk(f) && i < |f.inodes|
      ensures FileOk(f, i) && f.inodes[i].size <= MAXFILE * 1024
    {
      assert FileOk(f, i);
      NoHolesBound(f, i, f.inodes[i].size);
    }

    static lemma WrittenSize(f0: Fs, f: Fs, i: nat, off: nat, d: seq<int>)
      requires Written(f0, f, i, off, d)
      ensures f.inodes[i].size == f0.inodes[i].size && f.inodes[i].kind == f0.inodes[i].kind
    {
    }

    /** A block of a file lies below `freeblock`. */
    static lemma InUse(f: Fs, o: map<int, Loc>, i: nat, n: nat, freeblock: nat)
      requires Owned(f, o, {}, {}) && i < |f.inodes| && n < MAXFILE && FBlock(f, i, n) != 0 && freeblock <= FSSIZE == |f.blocks| && f.bitmap == BitsBelow(freeblock)
      ensures 0 < FBlock(f, i, n) < freeblock && FBlock(f, i, n) in o && o[FBlock(f, i, n)] == Loc(i, FileSlot(n))
    {
      hide Bit, Slot;
      DataBlockOwner(f, o, i, n);
      BitsBelowAt(freeblock, FBlock(f, i, n));
    }

    /** `ialloc`; false where mkfs would write behind the inode blocks. */
    method Ialloc(kind: int) returns (ok: bool, inum: nat)
      requires Valid() && kind != 0
      modifies this`inodes, this`freeinode
      ensures ok <==> old(freeinode) < |old(inodes)|
      ensures !ok ==> inodes == old(inodes) && freeinode == old(freeinode)
      ensures ok ==> Valid() && inum == old(freeinode) && freeinode == inum + 1
      ensures ok ==> inodes == old(inodes)[inum := Inode(kind, 1, 0, seq(13, k => 0))]
      ensures ok ==> Survive(old(F()), F(), inum)
    {
      hide Slot, Bit, SlotsOwned, OwnersHold, Marked, KeepsBlock, Contents, FileOk, BitsBelow, Tails;
      if freeinode >= |inodes| {
        return false, 0;
      }
      inum := freeinode;
      freeinode := freeinode + 1;
      ghost var f := F();
      inodes := inodes[inum := Inode(kind, 1, 0, seq(13, k => 0))];
      assert inodes[inum].addrs == f.inodes[inum].addrs;
      S.Volume.ZeroedKeeps(f, F(), owner, inum);
      OthersSurvive(f, F(), inum);
      S.Volume.EmptyOk(F(), inum);
      assert Sizes(inodes) == Sizes(f.inodes);
      ok := true;
    }

    /** `balloc`: the free map that goes to disk is the one the image needs. */
    method Balloc() returns (buf: array<bv8>)
      requires Fresh({})
      ensures fresh(buf) && buf[..] == bitmap
    {
      hide Owned, BitsBelow, SetBit;
      buf := new bv8[1024](k => 0);
      BitsStep(0, buf[..]);
      var i := 0;
      while i < freeblock
        invariant 0 <= i <= freeblock && fresh(buf) && buf.Length == 1024 && buf[..] == BitsBelow(i)
      {
        BitsStep(i, buf[..]);
        buf[i / 8] := buf[i / 8] | Mask(i);
        i := i + 1;
      }
    }

    static lemma BitsStep(i: nat, m: seq<bv8>)
      requires i < FSSIZE && |m| == 1024
      ensures i == 0 && (forall k :: 0 <= k < 1024 ==> m[k] == 0) ==> m == BitsBelow(0)
      ensures m == BitsBelow(i) ==> BitsBelow(i + 1) == m[i / 8 := m[i / 8] | Mask(i)]
    {
    }

    // ---- the whole image

    /** The size of the root directory, which reads as `d`, is rounded up, by a whole
        block if it is a multiple of a block already. */
    method FixRoot(ghost d: seq<int>)
      requires Valid() && ROOTINO < freeinode && Is(F(), ROOTINO, T_DIR, d)
      modifies this`inodes
      ensures Fresh({}) && inodes == old(inodes)[ROOTINO := old(inodes)[ROOTINO].(size := RootSize(|d|))]
      ensures Others(old(F()), F(), ROOTINO)
      ensures S.Volume.Mountable(F(), owner) <==> |d| % 1024 != 0
      ensures |d| % 1024 != 0 ==> Is(F(), ROOTINO, T_DIR, d + Zeros(RootSize(|d|) - |d|))
    {
      hide Slot, Bit, BitsBelow, SlotsOwned, OwnersHold, Marked, Tails, Contents, FBlock, Others;
      ghost var f := F();
      var off := inodes[ROOTINO].size;
      RootHoleIff(f, owner, ROOTINO, off);
      inodes := inodes[ROOTINO := inodes[ROOTINO].(size := (off / 1024 + 1) * 1024)];
      Resized(f, F(), owner, ROOTINO);
      SurviveOthers(f, F(), ROOTINO);
      if off % 1024 != 0 {
        Padded(f, F(), owner, ROOTINO);
      }
    }

    lemma FreshOwned()
      requires Fresh({})
      ensures Owned(F(), owner, {}, {})
    {
    }

    static lemma SurviveOthers(f: Fs, g: Fs, i: nat)
      requires Survive(f, g, i)
      ensures Others(f, g, i)
    {
    }

    /** Files that an operation on another file leaves alone. */
    static lemma FilesKept(f: Fs, g: Fs, i: nat, files: seq<File>, n: nat)
      requires n <= |files| && Others(f, g, i) && FilesBuilt(f, files, n) && !(2 <= i < 2 + n)
      ensures FilesBuilt(g, files, n)
    {
      hide Is;
      forall k | 0 <= k < n ensures Is(g, 2 + k, T_FILE, Flat(files[k].chunks)) {
        assert Is(f, 2 + k, T_FILE, Flat(files[k].chunks));
      }
    }

    static lemma OneMore(f: Fs, files: seq<File>, n: nat)
      requires n < |files| && FilesBuilt(f, files, n) && Is(f, 2 + n, T_FILE, Flat(files[n].chunks))
      ensures FilesBuilt(f, files, n + 1)
    {
      hide Is;
    }

    static lemma Kept(f: Fs, g: Fs, i: nat, j: nat, kind: int, c: seq<int>)
      requires Others(f, g, i) && Is(f, j, kind, c) && j != i
      ensures Is(g, j, kind, c)
    {
    }

    static lemma Resized(f: Fs, g: Fs, o: map<int, Loc>, i: nat)
      requires Owned(f, o, {}, {}) && S.Volume.FilesOk(f) && i < |f.inodes| && |g.inodes| == |f.inodes|
      requires g == f.(inodes := f.inodes[i := f.inodes[i].(size := g.inodes[i].size)])
      ensures Owned(g, o, {}, {}) && Survive(f, g, i) && (S.Volume.FilesOk(g) <==> NoHoles(f, i, g.inodes[i].size))
    {
      hide Slot, Bit, SlotsOwned, OwnersHold, Marked;
      assert f.inodes[i].(size := g.inodes[i].size) == f.inodes[i].(size := g.inodes[i].size, kind := f.inodes[i].kind);
      S.Volume.SizeKeeps(f, g, o, i);
      OthersSurvive(f, g, i);
      forall n | 0 <= n < MAXFILE ensures FBlock(g, i, n) == FBlock(f, i, n) {
        SizeOnly(f, g, i, n);
      }
      hide FBlock;
      forall j | 0 <= j < |f.inodes| && j != i ensures FileOk(g, j) {
        assert FileOk(f, j);
      }
      assert FileOk(g, i) <==> NoHoles(f, i, g.inodes[i].size);
    }

    /** What shows behind the old end is zero. */
    static lemma Padded(f: Fs, g: Fs, o: map<int, Loc>, i: nat)
      requires Owned(f, o, {}, {}) && i < |f.inodes| && FileOk(f, i) && f.inodes[i].size % 1024 != 0 && |g.inodes| == |f.inodes|
      requires Tails(f.blocks, o, Sizes(f.inodes)) && Shape(g) && FileOk(g, i)
      requires g == f.(inodes := f.inodes[i := f.inodes[i].(size := RootSize(f.inodes[i].size))])
      ensures var c := Contents(f, i);
              Contents(g, i) == c + Zeros(RootSize(|c|) - |c|)
    {
      hide FBlock;
      var c, off := Contents(f, i), f.inodes[i].size;
      forall k | 0 <= k < RootSize(off) ensures Contents(g, i)[k] == (c + Zeros(RootSize(off) - off))[k] {
        SizeOnlyByte(f, g, i, k);
        if k >= off {
          BehindEnd(f, o, i, k);
        }
      }
    }

    static lemma BehindEnd(f: Fs, o: map<int, Loc>, i: nat, k: nat)
      requires Owned(f, o, {}, {}) && i < |f.inodes| && Tails(f.blocks, o, Sizes(f.inodes)) && f.inodes[i].size <= k < MAXFILE * 1024
      ensures FileByte(f, i, k) == 0
      ensures k % 1024 == 0 ==> FBlock(f, i, k / 1024) == 0
    {
      hide Slot, Bit, Marked;
      var n := k / 1024;
      if FBlock(f, i, n) != 0 {
        DataBlockOwner(f, o, i, n);
        assert TailOk(f.blocks, FBlock(f, i, n), Loc(i, FileSlot(n)), Sizes(f.inodes)[i]);
      }
    }

    /** `main` after the superblock: the root directory, the files, the size of the
        root directory, and the free map. */
    method Build(files: seq<File>) returns (ok: bool, bits: array<bv8>)
      requires Valid() && freeinode == ROOTINO
      modifies this`freeblock, this`bitmap, this`blocks, this`inodes, this`owner, this`freeinode
      ensures !ok ==> freeinode == |inodes| || freeblock == FSSIZE || TooLarge(files)
      ensures ok ==> freeinode == |files| + 2 && fresh(bits) && bits[..] == bitmap && Owned(F(), owner, {}, {})
      ensures ok ==> (S.Volume.Mountable(F(), owner) <==> (|files| + 2) * 16 % 1024 != 0)
      ensures ok ==> FilesBuilt(F(), files, |files|)
      ensures ok && (|files| + 2) * 16 % 1024 != 0 ==>
                var d := Entries(files, |files|);
                Is(F(), ROOTINO, T_DIR, d + Zeros(RootSize(|d|) - |d|))
    {
      hide Is, Others, Valid, Entries, TooLarge, Flat, Fresh, Owned, S.Volume.Mountable;
      bits := new bv8[0];
      var root;
      ok, root := Create(T_DIR);
      if !ok {
        return;
      }
      ok := Append(root, T_DIR, Entry(ROOTINO, [46]), []);
      if !ok {
        return;
      }
      ok := Append(root, T_DIR, Entry(ROOTINO, [46, 46]), [] + Entry(ROOTINO, [46]));
      if !ok {
        return;
      }
      FirstEntries(files);
      var n := 0;
      while n < |files|
        invariant 0 <= n <= |files| && Valid() && freeinode == n + 2 && Is(F(), ROOTINO, T_DIR, Entries(files, n)) && FilesBuilt(F(), files, n)
      {
        if |files[n].name| > DIRSIZ {
          LongName(files, n);
          return false, bits;
        }
        ok := AddFile(files, n);
        if !ok {
          return;
        }
        n := n + 1;
      }
      hide FilesBuilt;
      EntriesSize(files, n);
      ghost var f := F();
      FixRoot(Entries(files, n));
      FilesKept(f, F(), ROOTINO, files, n);
      FreshOwned();
      bits := Balloc();
    }

    /** The file, with its entry in the root directory. */
    method AddFile(files: seq<File>, n: nat) returns (ok: bool)
      requires Valid() && freeinode == n + 2 && n < |files| && Is(F(), ROOTINO, T_DIR, Entries(files, n)) && FilesBuilt(F(), files, n)
      modifies this`freeblock, this`bitmap, this`blocks, this`inodes, this`owner, this`freeinode
      ensures ok ==> Valid() && freeinode == n + 3 && Is(F(), ROOTINO, T_DIR, Entries(files, n + 1)) && FilesBuilt(F(), files, n + 1)
      ensures !ok ==> freeinode == |inodes| || freeblock == FSSIZE || TooLarge(files)
    {
      hide Is, Others, Valid, Entries, TooLarge, Flat, FilesBuilt;
      ghost var f := F();
      var inum;
      ok, inum := Create(T_FILE);
      if !ok {
        return;
      }
      ghost var g := F();
      FilesKept(f, g, inum, files, n);
      Kept(f, g, inum, ROOTINO, T_DIR, Entries(files, n));
      EntriesStep(files, n);
      ok := Append(ROOTINO, T_DIR, Entry(inum, files[n].name), Entries(files, n));
      if !ok {
        return;
      }
      FilesKept(g, F(), ROOTINO, files, n);
      Kept(g, F(), ROOTINO, inum, T_FILE, []);
      var m := 0;
      NoChunks(files[n].chunks);
      while m < |files[n].chunks|
        invariant 0 <= m <= |files[n].chunks| && Valid() && freeinode == n + 3
        invariant Is(F(), inum, T_FILE, Flat(files[n].chunks[..m]))
        invariant Is(F(), ROOTINO, T_DIR, Entries(files, n + 1)) && FilesBuilt(F(), files, n)
      {
        ghost var h := F();
        ChunkStep(files, n, m);
        ok := Append(inum, T_FILE, files[n].chunks[m], Flat(files[n].chunks[..m]));
        if !ok {
          return;
        }
        FilesKept(h, F(), inum, files, n);
        Kept(h, F(), inum, ROOTINO, T_DIR, Entries(files, n + 1));
        m := m + 1;
      }
      assert files[n].chunks[..m] == files[n].chunks;
      OneMore(F(), files, n);
      ok := true;
    }

    method Create(kind: int) returns (ok: bool, i: nat)
      requires Valid() && kind != 0
      modifies this`inodes, this`freeinode
      ensures !ok ==> freeinode == |inodes|
      ensures ok <==> old(freeinode) < |old(inodes)|
      ensures ok ==> Valid() && i == old(freeinode) && freeinode == i + 1 && Is(F(), i, kind, []) && Others(old(F()), F(), i)
    {
      ghost var f := F();
      ok, i := Ialloc(kind);
      if ok {
        CreatedIs(f, F(), i, kind);
      }
    }

    static lemma CreatedIs(f: Fs, g: Fs, i: nat, kind: int)
      requires Survive(f, g, i) && i < |f.inodes| && g.inodes[i] == Inode(kind, 1, 0, seq(13, k => 0))
      ensures Is(g, i, kind, []) && Others(f, g, i)
    {
    }

    /** An append, by what the files hold. */
    method Append(i: nat, kind: int, data: seq<int>, ghost c: seq<int>) returns (ok: bool)
      requires Valid() && 0 < i < freeinode && Is(F(), i, kind, c)
      modifies this`freeblock, this`bitmap, this`blocks, this`inodes, this`owner
      ensures ok ==> Valid() && Is(F(), i, kind, c + data) && Others(old(F()), F(), i)
      ensures !ok ==> |c| + |data| > MAXFILE * 1024 || freeblock == FSSIZE
      ensures old(freeblock) <= freeblock <= old(freeblock) + Growth(|c|, |c| + |data|)
    {
      ghost var f := F();
      IsSize(f, i, kind, c);
      hide Is, Others, Spliced, Fresh, Tails, Unused, S.Volume.FilesOk;
      ok := Iappend(i, data);
      if ok {
        Appended(f, F(), i, kind, c, data);
      }
    }

    static lemma IsSize(f: Fs, i: nat, kind: int, c: seq<int>)
      requires Is(f, i, kind, c)
      ensures i < |f.inodes| && f.inodes[i].size == |c|
    {
    }

    static lemma Appended(f: Fs, g: Fs, i: nat, kind: int, c: seq<int>, data: seq<int>)
      requires Is(f, i, kind, c) && Spliced(f, g, i, |c|, data)
      ensures Is(g, i, kind, c + data) && Others(f, g, i)
    {
      assert Splice(c, |c|, data) == c + data;
    }
  }

  // ---- what the files hold

  /** Inode `i` has the kind, one link, and reads as `c`. */
  ghost predicate Is(f: Fs, i: nat, kind: int, c: seq<int>) {
    Shape(f) && i < |f.inodes| && f.inodes[i].kind == kind && f.inodes[i].nlink == 1 && FileOk(f, i) && Contents(f, i) == c
  }

  /** All other files are as before. */
  ghost predicate Others(f: Fs, g: Fs, i: nat) {
    forall j, kind, c :: j != i && Is(f, j, kind, c) ==> Is(g, j, kind, c)
  }

  /** The first `n` files are in the image. */
  ghost predicate FilesBuilt(f: Fs, files: seq<File>, n: nat)
    requires n <= |files|
  {
    forall k :: 0 <= k < n ==> Is(f, 2 + k, T_FILE, Flat(files[k].chunks))
  }

  /** A name, the root directory or a file is longer than mkfs allows. */
  ghost predicate TooLarge(files: seq<File>) {
    || (exists k :: 0 <= k < |files| && |files[k].name| > DIRSIZ)
    || (exists k :: 0 <= k < |files| && |Flat(files[k].chunks)| > MAXFILE * 1024)
    || (|files| + 2) * 16 > MAXFILE * 1024
  }

  lemma LongName(files: seq<File>, n: nat)
    requires n < |files| && |files[n].name| > DIRSIZ
    ensures TooLarge(files)
  {
  }

  lemma FirstEntries(files: seq<File>)
    ensures [] + Entry(ROOTINO, [46]) + Entry(ROOTINO, [46, 46]) == Entries(files, 0)
    ensures 32 <= MAXFILE * 1024
  {
  }

  lemma {:induction false} EntriesSize(files: seq<File>, n: nat)
    requires n <= |files|
    ensures |Entries(files, n)| == (n + 2) * 16
  {
    if n > 0 {
      EntriesSize(files, n - 1);
    }
  }

  lemma EntriesStep(files: seq<File>, n: nat)
    requires n < |files|
    ensures Entries(files, n + 1) == Entries(files, n) + Entry(n + 2, files[n].name)
    ensures |Entries(files, n)| + 16 > MAXFILE * 1024 ==> TooLarge(files)
  {
    EntriesSize(files, n);
  }

  lemma NoChunks(chunks: seq<seq<int>>)
    ensures chunks[..0] == [] && Flat(chunks[..0]) == []
  {
  }

  lemma ChunkStep(files: seq<File>, n: nat, m: nat)
    requires n < |files| && m < |files[n].chunks|
    ensures var cs := files[n].chunks;
            && Flat(cs[..m + 1]) == Flat(cs[..m]) + cs[m]
            && (|Flat(cs[..m])| + |cs[m]| > MAXFILE * 1024 ==> TooLarge(files))
  {
    var cs := files[n].chunks;
    assert cs[..m + 1][..m] == cs[..m];
    FlatGrows(cs, m + 1);
  }

  lemma {:induction false} FlatGrows(chunks: seq<seq<int>>, m: nat)
    requires m <= |chunks|
    ensures |Flat(chunks[..m])| <= |Flat(chunks)|
    decreases |chunks|
  {
    if m == |chunks| {
      assert chunks[..m] == chunks;
    } else {
      var rest := chunks[..|chunks| - 1];
      assert rest[..m] == chunks[..m];
      FlatGrows(rest, m);
    }
  }

  // ---- the size of the root directory

  /** The root directory has no hole after its size was rounded up exactly when its
      entries do not fill whole blocks. */
  lemma RootHoleIff(f: Fs, o: map<int, Loc>, i: nat, off: nat)
    requires Owned(f, o, {}, {}) && i < |f.inodes| && f.inodes[i].size == off && FileOk(f, i) && Tails(f.blocks, o, Sizes(f.inodes))
    ensures NoHoles(f, i, RootSize(off)) <==> off % 1024 != 0
  {
    hide FBlock, Owned;
    OwnedShape(f, o);
    NoHolesBound(f, i, off);
    if off % 1024 == 0 {
      if off < MAXFILE * 1024 {
        Image.BehindEnd(f, o, i, off);
      }
    } else {
      assert RootSize(off) <= MAXFILE * 1024;
      forall n | 0 <= n < MAXFILE && n * 1024 < RootSize(off) ensures 0 < FBlock(f, i, n) < |f.blocks| {
        assert n <= off / 1024;
      }
    }
  }

  lemma OwnedShape(f: Fs, o: map<int, Loc>)
    requires Owned(f, o, {}, {})
    ensures Shape(f)
  {
  }

  /** 62 files give such a root directory: 64 entries fill one block, and the
      finished image has a hole that the kernel takes for directory entries. */
  method SixtyTwoFiles() returns (image: Image)
    ensures fresh(image) && image.Fresh({}) && image.inodes[ROOTINO].size == 2048 && !S.Volume.Mountable(image.F(), image.owner)
  {
    hide Is, Others, Entries, Image.Unused, Owned, S.Volume.Mountable, S.Volume.FilesOk;
    image := new Image(46, 200);
    var files := seq(62, k => File([], []));
    EntriesSize(files, 62);
    var ok, root := image.Create(T_DIR);
    ghost var f := image.F();
    Image.IsSize(f, root, T_DIR, []);
    ok := image.Append(root, T_DIR, Entries(files, 62), []);
    image.FixRoot([] + Entries(files, 62));
  }
}
