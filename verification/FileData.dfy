/** The bytes of a file as kernel/fs.c finds them through the block slots of its
    inode, and what allocation and data writes do to the bytes of all files. */
module FileData {
  import opened Blocks
  import opened Ownership

  const MAXFILE: nat := 268     // NDIRECT + NINDIRECT

  function FileSlot(n: nat): nat {
    if n < 12 then n else n + 1
  }

  /** The disk block of file block `n`; 0 means a hole. */
  function FBlock(f: Fs, i: nat, n: nat): int
    requires Shape(f) && i < |f.inodes| && n < MAXFILE
  {
    Slot(f, i, FileSlot(n))
  }

  /** Every file block that starts below `len` exists. */
  ghost predicate NoHoles(f: Fs, i: nat, len: nat)
    requires Shape(f) && i < |f.inodes|
  {
    && len <= MAXFILE * 1024
    && forall n :: 0 <= n < MAXFILE && n * 1024 < len ==> 0 < FBlock(f, i, n) < |f.blocks|
  }

  /** Byte `r` of file block `n` (0 in a hole, which no readable byte lies in). */
  function BlockByte(f: Fs, i: nat, n: nat, r: nat): int
    requires Shape(f) && i < |f.inodes| && n < MAXFILE && r < 1024
  {
    if 0 < FBlock(f, i, n) < |f.blocks| then f.blocks[FBlock(f, i, n)][r] else 0
  }

  function FileByte(f: Fs, i: nat, k: nat): int
    requires Shape(f) && i < |f.inodes| && k < MAXFILE * 1024
  {
    BlockByte(f, i, k / 1024, k % 1024)
  }

  ghost predicate FileOk(f: Fs, i: nat)
    requires Shape(f) && i < |f.inodes|
  {
    NoHoles(f, i, f.inodes[i].size)
  }

  function Contents(f: Fs, i: nat): (c: seq<int>)
    requires Shape(f) && i < |f.inodes| && f.inodes[i].size <= MAXFILE * 1024
    ensures |c| == f.inodes[i].size
    ensures forall k {:trigger c[k]} :: 0 <= k < |c| ==> c[k] == FileByte(f, i, k)
  {
    seq(f.inodes[i].size, k requires 0 <= k < f.inodes[i].size => FileByte(f, i, k))
  }

  /** Overwriting `d` at `off`, growing the sequence when `d` runs past its end. */
  function Splice(c: seq<int>, off: nat, d: seq<int>): (r: seq<int>)
    requires off <= |c|
    ensures |r| == if off + |d| > |c| then off + |d| else |c|
    ensures forall k {:trigger r[k]} :: 0 <= k < |r| ==> r[k] == if off <= k < off + |d| then d[k - off] else c[k]
  {
    c[..off] + d + if off + |d| < |c| then c[off + |d|..] else []
  }

  // ---- keeping the files that exist

  ghost predicate SameMeta(f: Fs, g: Fs) {
    && |f.inodes| == |g.inodes| && |f.blocks| == |g.blocks| && f.nmeta == g.nmeta
    && forall i :: 0 <= i < |f.inodes| ==>
                     && g.inodes[i].size == f.inodes[i].size && g.inodes[i].kind == f.inodes[i].kind
                     && g.inodes[i].nlink == f.inodes[i].nlink
  }

  /** File block (i, n) of `f` is still there, with the same contents. */
  ghost predicate KeepsBlock(f: Fs, g: Fs, i: nat, n: nat)
    requires Shape(f) && Shape(g) && i < |f.inodes| && i < |g.inodes| && n < MAXFILE
  {
    0 < FBlock(f, i, n) < |f.blocks| == |g.blocks| ==>
      FBlock(g, i, n) == FBlock(f, i, n) && g.blocks[FBlock(f, i, n)] == f.blocks[FBlock(f, i, n)]
  }

  ghost predicate KeepsFiles(f: Fs, g: Fs) {
    && Shape(f) && Shape(g) && SameMeta(f, g)
    && forall i, n :: 0 <= i < |f.inodes| && 0 <= n < MAXFILE ==> KeepsBlock(f, g, i, n)
  }

  lemma KeepsTrans(f: Fs, g: Fs, h: Fs)
    requires KeepsFiles(f, g) && KeepsFiles(g, h)
    ensures KeepsFiles(f, h)
  {
    hide FBlock;
    forall i, n | 0 <= i < |f.inodes| && 0 <= n < MAXFILE ensures KeepsBlock(f, h, i, n) {
      assert KeepsBlock(f, g, i, n) && KeepsBlock(g, h, i, n);
    }
  }

  lemma KeepsSelf(f: Fs)
    requires Shape(f)
    ensures KeepsFiles(f, f)
  {
  }

  /** File data keeps its bytes as long as its blocks are kept. */
  lemma KeptBytes(f: Fs, g: Fs, i: nat, len: nat)
    requires KeepsFiles(f, g) && i < |f.inodes| && NoHoles(f, i, len)
    ensures NoHoles(g, i, len)
    ensures forall k :: 0 <= k < len ==> FileByte(g, i, k) == FileByte(f, i, k)
  {
    hide FBlock;
    forall n | 0 <= n < MAXFILE && n * 1024 < len ensures 0 < FBlock(g, i, n) < |g.blocks| {
      assert KeepsBlock(f, g, i, n);
    }
    forall k | 0 <= k < len ensures FileByte(g, i, k) == FileByte(f, i, k) {
      assert KeepsBlock(f, g, i, k / 1024);
    }
  }

  lemma NoHolesBound(f: Fs, i: nat, len: nat)
    requires Shape(f) && i < |f.inodes| && NoHoles(f, i, len)
    ensures len <= MAXFILE * 1024
  {
  }

  lemma DataBlockOwner(f: Fs, o: map<int, Loc>, i: nat, n: nat)
    requires Shape(f) && SlotsOwned(f, o) && OwnersHold(f, o) && i < |f.inodes| && n < MAXFILE && FBlock(f, i, n) != 0
    ensures FBlock(f, i, n) in o && o[FBlock(f, i, n)] == Loc(i, FileSlot(n)) && f.nmeta <= FBlock(f, i, n) < |f.blocks|
  {
    hide Slot;
  }

  lemma MarkKeeps(f: Fs, o: map<int, Loc>, b: nat)
    requires Owned(f, o, {}, {}) && b < |f.blocks| && b !in o
    ensures KeepsFiles(f, MarkZero(f, b))
  {
    hide Slot, Marked, SetBit, NotTable;
    var g := MarkZero(f, b);
    NotTableOf(f, o, b);
    assert Shape(g);
    forall i, n | 0 <= i < |f.inodes| && 0 <= n < MAXFILE ensures KeepsBlock(f, g, i, n) {
      SlotAfterMark(f, b, i, FileSlot(n));
      if FBlock(f, i, n) != 0 {
        DataBlockOwner(f, o, i, n);
      }
    }
  }

  lemma PlaceAddrKeeps(f: Fs, i: nat, s: nat, b: nat)
    requires Shape(f) && i < |f.inodes| && s <= 12 && Slot(f, i, s) == 0
    ensures KeepsFiles(f, PutAddr(f, i, s, b))
  {
    hide Slot;
    var g := PutAddr(f, i, s, b);
    forall i', n | 0 <= i' < |f.inodes| && 0 <= n < MAXFILE ensures Shape(g) && KeepsBlock(f, g, i', n) {
      SlotAfterAddr(f, i, s, b, i', FileSlot(n));
      if s == 12 && n >= 12 && i' == i {
        NoTableNoEntries(f, i, FileSlot(n));
      }
    }
    SlotAfterAddr(f, i, s, b, i, s);
  }

  lemma PlaceEntryKeeps(f: Fs, o: map<int, Loc>, i: nat, j: nat, b: nat)
    requires Shape(f) && SlotsOwned(f, o) && OwnersHold(f, o) && i < |f.inodes| && j < 256
    requires Table(f, i) != 0 && Slot(f, i, 13 + j) == 0 && b < |f.blocks|
    ensures Table(f, i) < |f.blocks| && KeepsFiles(f, PutEntry(f, i, j, b))
  {
    hide Slot, Table, PutWord;
    TableOwned(f, o, i);
    var g := PutEntry(f, i, j, b);
    forall i', n | 0 <= i' < |f.inodes| && 0 <= n < MAXFILE ensures Shape(g) && KeepsBlock(f, g, i', n) {
      if i' != i {
        TablesDiffer(f, o, i, i');
      }
      SlotAfterEntry(f, i, j, b, i', FileSlot(n));
      if FBlock(f, i', n) != 0 {
        DataBlockOwner(f, o, i', n);
      }
    }
    assert Shape(g);
  }

  // ---- one chunk of a write

  /** Only file block (i, n) can differ. */
  ghost predicate KeepsOthers(f: Fs, g: Fs, i: nat, n: nat) {
    && Shape(f) && Shape(g) && SameMeta(f, g)
    && forall i', n' :: 0 <= i' < |f.inodes| && 0 <= n' < MAXFILE && (i' != i || n' != n) ==> KeepsBlock(f, g, i', n')
  }

  lemma DataKeepsOthers(f: Fs, o: map<int, Loc>, i: nat, n: nat, data: Block)
    requires Owned(f, o, {}, {}) && i < |f.inodes| && n < MAXFILE && FBlock(f, i, n) != 0 && |data| == 1024
    ensures 0 < FBlock(f, i, n) < |f.blocks|
    ensures var g := PutData(f, FBlock(f, i, n), data);
            && KeepsOthers(f, g, i, n) && FBlock(g, i, n) == FBlock(f, i, n) && g.blocks[FBlock(f, i, n)] == data
  {
    hide Slot, Marked, NotTable;
    DataBlockOwner(f, o, i, n);
    var b := FBlock(f, i, n);
    var g := PutData(f, b, data);
    NotTableOf(f, o, b);
    assert Shape(g);
    forall i', n' | 0 <= i' < |f.inodes| && 0 <= n' < MAXFILE
      ensures FBlock(g, i', n') == FBlock(f, i', n')
      ensures (i' != i || n' != n) ==> KeepsBlock(f, g, i', n')
    {
      SlotAfterData(f, b, data, i', FileSlot(n'));
      if FBlock(f, i', n') != 0 {
        DataBlockOwner(f, o, i', n');
      }
    }
  }

  /** The bytes `data` placed from position `r` of a block. */
  function Patch(b: Block, r: nat, data: seq<int>): (p: Block)
    requires r + |data| <= |b|
    ensures |p| == |b|
    ensures forall k {:trigger p[k]} :: 0 <= k < |p| ==> p[k] == if r <= k < r + |data| then data[k - r] else b[k]
  {
    b[..r] + data + b[r + |data|..]
  }

  /** What a file looks like while a write that started in `f0` has copied `d` at `off`. */
  ghost predicate Written(f0: Fs, f: Fs, i: nat, off: nat, d: seq<int>) {
    && Shape(f0) && Shape(f) && i < |f0.inodes| && SameMeta(f0, f)
    && FileOk(f0, i) && off <= f0.inodes[i].size
    && var old_len := f0.inodes[i].size;
    && var len := if off + |d| > old_len then off + |d| else old_len;
    && NoHoles(f, i, len)
    && (forall k :: 0 <= k < len ==> k < MAXFILE * 1024 &&
                                     FileByte(f, i, k) == if off <= k < off + |d| then d[k - off] else FileByte(f0, i, k))
    && (forall i', n :: 0 <= i' < |f0.inodes| && 0 <= n < MAXFILE && i' != i ==> KeepsBlock(f0, f, i', n))
  }

  lemma WrittenNothing(f: Fs, i: nat, off: nat)
    requires Shape(f) && i < |f.inodes| && FileOk(f, i) && off <= f.inodes[i].size
    ensures Written(f, f, i, off, [])
  {
  }

  /** Allocation during a write changes nothing that is visible. */
  lemma WrittenKeeps(f0: Fs, f: Fs, g: Fs, i: nat, off: nat, d: seq<int>)
    requires Written(f0, f, i, off, d) && KeepsFiles(f, g)
    ensures Written(f0, g, i, off, d)
  {
    hide FBlock, FileByte, NoHoles, FileOk;
    var len := if off + |d| > f0.inodes[i].size then off + |d| else f0.inodes[i].size;
    NoHolesBound(f, i, len);
    KeptBytes(f, g, i, len);
    forall i', n | 0 <= i' < |f0.inodes| && 0 <= n < MAXFILE && i' != i ensures KeepsBlock(f0, g, i', n) {
      assert KeepsBlock(f0, f, i', n) && KeepsBlock(f, g, i', n);
    }
  }

  /** One chunk: `m` bytes go into file block `cur / 1024` at `cur % 1024`. */
  lemma WrittenChunk(f0: Fs, f: Fs, o: map<int, Loc>, i: nat, off: nat, d: seq<int>, e: seq<int>)
    requires Written(f0, f, i, off, d) && Owned(f, o, {}, {})
    requires var cur := off + |d|;
             && cur + |e| <= MAXFILE * 1024 && 1 <= |e| <= 1024 - cur % 1024 && FBlock(f, i, cur / 1024) != 0
    ensures 0 < FBlock(f, i, (off + |d|) / 1024) < |f.blocks|
    ensures var b := FBlock(f, i, (off + |d|) / 1024);
            Written(f0, PutData(f, b, Patch(f.blocks[b], (off + |d|) % 1024, e)), i, off, d + e)
  {
    hide FBlock, Owned, Patch;
    var cur := off + |d|;
    var n, r := cur / 1024, cur % 1024;
    ShapeBlock(f, o, i, n);
    var b := FBlock(f, i, n);
    var g := PutData(f, b, Patch(f.blocks[b], r, e));
    DataKeepsOthers(f, o, i, n, Patch(f.blocks[b], r, e));
    var old_len := f0.inodes[i].size;
    var len := if cur + |e| > old_len then cur + |e| else old_len;
    forall n' | 0 <= n' < MAXFILE && n' * 1024 < len ensures 0 < FBlock(g, i, n') < |g.blocks| {
      if n' != n {
        assert KeepsBlock(f, g, i, n');
      }
    }
    forall k | 0 <= k < len
      ensures k < MAXFILE * 1024
      ensures FileByte(g, i, k) == if off <= k < off + |d + e| then (d + e)[k - off] else FileByte(f0, i, k)
    {
      ChunkByte(f0, f, g, i, off, d, e, k);
    }
    forall i', n' | 0 <= i' < |f0.inodes| && 0 <= n' < MAXFILE && i' != i ensures KeepsBlock(f0, g, i', n') {
      assert KeepsBlock(f0, f, i', n') && KeepsBlock(f, g, i', n');
    }
  }

  lemma ShapeBlock(f: Fs, o: map<int, Loc>, i: nat, n: nat)
    requires Owned(f, o, {}, {}) && i < |f.inodes| && n < MAXFILE && FBlock(f, i, n) != 0
    ensures Shape(f) && 0 < FBlock(f, i, n) < |f.blocks| && |f.blocks[FBlock(f, i, n)]| == 1024
  {
    DataBlockOwner(f, o, i, n);
  }

  lemma ChunkByte(f0: Fs, f: Fs, g: Fs, i: nat, off: nat, d: seq<int>, e: seq<int>, k: nat)
    requires Written(f0, f, i, off, d)
    requires var cur := off + |d|;
             && cur + |e| <= MAXFILE * 1024 && 1 <= |e| <= 1024 - cur % 1024
             && KeepsOthers(f, g, i, cur / 1024)
             && 0 < FBlock(f, i, cur / 1024) < |f.blocks| && FBlock(g, i, cur / 1024) == FBlock(f, i, cur / 1024)
             && g.blocks[FBlock(f, i, cur / 1024)] == Patch(f.blocks[FBlock(f, i, cur / 1024)], cur % 1024, e)
    requires k < MAXFILE * 1024 && (k < off + |d| + |e| || k < f0.inodes[i].size)
    ensures FileByte(g, i, k) == if off <= k < off + |d + e| then (d + e)[k - off] else FileByte(f0, i, k)
  {
    hide FBlock, Patch;
    var cur := off + |d|;
    var n, r := cur / 1024, cur % 1024;
    var q := k / 1024;
    if q == n {
      assert k == n * 1024 + k % 1024 && cur == n * 1024 + r;
      if !(r <= k % 1024 < r + |e|) {
        assert FileByte(g, i, k) == f.blocks[FBlock(f, i, n)][k % 1024] == FileByte(f, i, k);
      }
    } else {
      assert KeepsBlock(f, g, i, q);
      assert k == q * 1024 + k % 1024 && cur == n * 1024 + r;
      assert !(cur <= k < cur + |e|);
      assert 0 < FBlock(f, i, q) < |f.blocks|;
      assert FileByte(g, i, k) == FileByte(f, i, k);
    }
  }

  /** The write as the file's reader sees it. */
  lemma WrittenContents(f0: Fs, f: Fs, i: nat, off: nat, d: seq<int>)
    requires Written(f0, f, i, off, d)
    ensures var len := if off + |d| > f0.inodes[i].size then off + |d| else f0.inodes[i].size;
            var g := f.(inodes := f.inodes[i := f.inodes[i].(size := len)]);
            Spliced(f0, g, i, off, d)
  {
    hide FBlock, FileByte;
    var len := if off + |d| > f0.inodes[i].size then off + |d| else f0.inodes[i].size;
    var g := f.(inodes := f.inodes[i := f.inodes[i].(size := len)]);
    assert Shape(g);
    forall i', n | 0 <= i' < |f.inodes| && 0 <= n < MAXFILE ensures FBlock(g, i', n) == FBlock(f, i', n) {
      SizeOnly(f, g, i', n);
    }
    forall k | 0 <= k < len ensures FileByte(g, i, k) == FileByte(f, i, k) {
      SizeOnlyByte(f, g, i, k);
    }
    assert NoHoles(g, i, len);
    forall k | 0 <= k < len ensures Contents(g, i)[k] == Splice(Contents(f0, i), off, d)[k] {
      assert FileByte(g, i, k) == FileByte(f, i, k);
    }
    forall i' | 0 <= i' < |f0.inodes| && i' != i && FileOk(f0, i')
      ensures FileOk(g, i') && Contents(g, i') == Contents(f0, i')
    {
      forall n | 0 <= n < MAXFILE ensures KeepsBlock(f0, g, i', n) {
        assert KeepsBlock(f0, f, i', n);
      }
      OtherFile(f0, g, i');
    }
  }

  lemma SizeOnly(f: Fs, g: Fs, i: nat, n: nat)
    requires Shape(f) && Shape(g) && i < |f.inodes| == |g.inodes| && g.blocks == f.blocks && n < MAXFILE
    requires g.inodes[i].addrs == f.inodes[i].addrs
    ensures FBlock(g, i, n) == FBlock(f, i, n)
  {
    hide WordAt;
  }

  lemma SizeOnlyByte(f: Fs, g: Fs, i: nat, k: nat)
    requires Shape(f) && Shape(g) && i < |f.inodes| == |g.inodes| && g.blocks == f.blocks && k < MAXFILE * 1024
    requires g.inodes[i].addrs == f.inodes[i].addrs
    ensures FileByte(g, i, k) == FileByte(f, i, k)
  {
    hide FBlock;
    SizeOnly(f, g, i, k / 1024);
  }

  lemma OtherFile(f: Fs, g: Fs, i: nat)
    requires Shape(f) && Shape(g) && i < |f.inodes| == |g.inodes| && |g.blocks| == |f.blocks|
    requires g.inodes[i].size == f.inodes[i].size && FileOk(f, i)
    requires forall n :: 0 <= n < MAXFILE ==> KeepsBlock(f, g, i, n)
    ensures FileOk(g, i) && Contents(g, i) == Contents(f, i)
  {
    hide FBlock;
    forall n | 0 <= n < MAXFILE && n * 1024 < f.inodes[i].size ensures 0 < FBlock(g, i, n) < |g.blocks| {
      assert KeepsBlock(f, g, i, n);
    }
    forall k | 0 <= k < f.inodes[i].size ensures FileByte(g, i, k) == FileByte(f, i, k) {
      assert KeepsBlock(f, g, i, k / 1024);
    }
  }

  // ---- truncation

  /** Every file but that of inode `i` is untouched. */
  ghost predicate KeepsAllBut(f: Fs, g: Fs, i: nat) {
    && Shape(f) && Shape(g) && |f.inodes| == |g.inodes| && |f.blocks| == |g.blocks| && f.nmeta == g.nmeta
    && (forall j :: 0 <= j < |f.inodes| && j != i ==> g.inodes[j] == f.inodes[j])
    && (forall j, n :: 0 <= j < |f.inodes| && 0 <= n < MAXFILE && j != i ==> KeepsBlock(f, g, j, n))
  }

  lemma KeepsAllButTrans(f: Fs, g: Fs, h: Fs, i: nat)
    requires KeepsAllBut(f, g, i) && KeepsAllBut(g, h, i)
    ensures KeepsAllBut(f, h, i)
  {
    hide FBlock, Shape;
    forall j, n | 0 <= j < |f.inodes| && 0 <= n < MAXFILE && j != i ensures KeepsBlock(f, h, j, n) {
      assert KeepsBlock(f, g, j, n) && KeepsBlock(g, h, j, n);
    }
  }

  lemma UnmarkKeeps(f: Fs, b: nat, i: nat)
    requires Shape(f) && b < 8 * |f.bitmap|
    ensures KeepsAllBut(f, Unmark(f, b), i)
  {
    hide Slot, ClearBit;
    var g := Unmark(f, b);
    assert Shape(g);
    forall j, n | 0 <= j < |f.inodes| && 0 <= n < MAXFILE ensures KeepsBlock(f, g, j, n) {
      SlotAfterUnmark(f, b, j, FileSlot(n));
    }
  }

  lemma ClearAddrKeeps(f: Fs, i: nat, s: nat)
    requires Shape(f) && i < |f.inodes| && s <= 12
    ensures KeepsAllBut(f, PutAddr(f, i, s, 0), i)
  {
    hide Slot;
    var g := PutAddr(f, i, s, 0);
    SlotAfterAddr(f, i, s, 0, i, s);
    forall j, n | 0 <= j < |f.inodes| && 0 <= n < MAXFILE && j != i ensures KeepsBlock(f, g, j, n) {
      SlotAfterAddr(f, i, s, 0, j, FileSlot(n));
    }
  }

  /** Every file but that of inode `i` reads as before. */
  ghost predicate Survive(f: Fs, g: Fs, i: nat) {
    && Shape(f) && Shape(g) && |f.inodes| == |g.inodes| && |f.blocks| == |g.blocks|
    && forall j :: 0 <= j < |f.inodes| && j != i ==>
                     && g.inodes[j].kind == f.inodes[j].kind && g.inodes[j].nlink == f.inodes[j].nlink
                     && (FileOk(f, j) ==> FileOk(g, j) && Contents(g, j) == Contents(f, j))
  }

  /** File `i` reads as `d` spliced in at `off`, and no other file changes. */
  ghost predicate Spliced(f: Fs, g: Fs, i: nat, off: nat, d: seq<int>) {
    && Survive(f, g, i) && i < |f.inodes| && FileOk(f, i) && FileOk(g, i) && off <= f.inodes[i].size
    && g.inodes[i].kind == f.inodes[i].kind && g.inodes[i].nlink == f.inodes[i].nlink
    && Contents(g, i) == Splice(Contents(f, i), off, d)
  }

  /** Consecutive writes are one write of the concatenation. */
  lemma SplicedTwice(f: Fs, g: Fs, h: Fs, i: nat, off: nat, a: seq<int>, b: seq<int>)
    requires Spliced(f, g, i, off, a) && Spliced(g, h, i, off + |a|, b)
    ensures Spliced(f, h, i, off, a + b)
  {
    hide FBlock, Contents, Splice, NoHoles;
    NoHolesBound(f, i, f.inodes[i].size);
    SpliceTwice(Contents(f, i), off, a, b);
  }

  lemma OthersSurvive(f: Fs, g: Fs, i: nat)
    requires KeepsAllBut(f, g, i)
    ensures Survive(f, g, i)
  {
    hide KeepsBlock, FBlock;
    forall j | 0 <= j < |f.inodes| && j != i && FileOk(f, j)
      ensures FileOk(g, j) && Contents(g, j) == Contents(f, j)
    {
      OtherFile(f, g, j);
    }
  }

  lemma SpliceTwice(c: seq<int>, off: nat, a: seq<int>, b: seq<int>)
    requires off <= |c|
    ensures Splice(Splice(c, off, a), off + |a|, b) == Splice(c, off, a + b)
  {
    hide Splice;
    var l, r := Splice(Splice(c, off, a), off + |a|, b), Splice(c, off, a + b);
    forall k | 0 <= k < |l| ensures l[k] == r[k] {
      if !(off + |a| <= k < off + |a| + |b|) {
        assert l[k] == Splice(c, off, a)[k];
      }
    }
  }
}
