/** Contents of disk blocks as kernel/fs.c reads them: bytes, arrays of 32-bit
    little-endian block numbers, and the bits of the free map. */
module Blocks {
  const BSIZE: nat := 1024
  const NINDIRECT: nat := 256

  type Block = seq<int>

  function Zero(): (b: Block)
    ensures |b| == 1024 && forall k :: 0 <= k < 1024 ==> b[k] == 0
  {
    seq(1024, k => 0)
  }

  /** Word `j` of the block, least significant byte first. */
  function WordAt(b: Block, j: nat): int
    requires |b| == 1024 && j < 256
  {
    b[4 * j] + 0x100 * b[4 * j + 1] + 0x1_0000 * b[4 * j + 2] + 0x100_0000 * b[4 * j + 3]
  }

  function PutWord(b: Block, j: nat, w: nat): (r: Block)
    requires |b| == 1024 && j < 256
    ensures |r| == 1024
  {
    b[4 * j := w % 0x100][4 * j + 1 := w / 0x100 % 0x100][4 * j + 2 := w / 0x1_0000 % 0x100][4 * j + 3 := w / 0x100_0000 % 0x100]
  }

  lemma PutWordAt(b: Block, j: nat, w: nat, k: nat)
    requires |b| == 1024 && j < 256 && k < 256 && w < 0x1_0000_0000
    ensures WordAt(PutWord(b, j, w), k) == if k == j then w else WordAt(b, k)
  {
  }

  lemma ZeroWord(j: nat)
    requires j < 256
    ensures WordAt(Zero(), j) == 0
  {
  }

  // ---- the free map, one bit a block

  function Mask(i: nat): bv8 {
    1 as bv8 << (i % 8)
  }

  predicate Bit(m: seq<bv8>, i: nat)
    requires i < 8 * |m|
  {
    m[i / 8] & Mask(i) != 0
  }

  function SetBit(m: seq<bv8>, i: nat): (r: seq<bv8>)
    requires i < 8 * |m|
    ensures |r| == |m|
  {
    m[i / 8 := m[i / 8] | Mask(i)]
  }

  function ClearBit(m: seq<bv8>, i: nat): (r: seq<bv8>)
    requires i < 8 * |m|
    ensures |r| == |m|
  {
    m[i / 8 := m[i / 8] & !Mask(i)]
  }

  lemma MaskBits(x: bv8, a: bv8, b: bv8)
    requires a == 1 || a == 2 || a == 4 || a == 8 || a == 16 || a == 32 || a == 64 || a == 128
    requires b == 1 || b == 2 || b == 4 || b == 8 || b == 16 || b == 32 || b == 64 || b == 128
    ensures ((x | a) & b != 0) == (a == b || x & b != 0)
    ensures ((x & !a) & b != 0) == (a != b && x & b != 0)
  {
  }

  lemma MaskIs(i: nat)
    ensures Mask(i) == 1 || Mask(i) == 2 || Mask(i) == 4 || Mask(i) == 8 || Mask(i) == 16 || Mask(i) == 32 || Mask(i) == 64 || Mask(i) == 128
    ensures Mask(i) == [1, 2, 4, 8, 16, 32, 64, 128][i % 8]
  {
    var k := i % 8;
    assert k == 0 || k == 1 || k == 2 || k == 3 || k == 4 || k == 5 || k == 6 || k == 7;
  }

  lemma SetBitAt(m: seq<bv8>, i: nat, k: nat)
    requires i < 8 * |m| && k < 8 * |m|
    ensures Bit(SetBit(m, i), k) == (k == i || Bit(m, k))
  {
    MaskIs(i);
    MaskIs(k);
    hide Mask;
    MaskBits(m[i / 8], Mask(i), Mask(k));
  }

  lemma ClearBitAt(m: seq<bv8>, i: nat, k: nat)
    requires i < 8 * |m| && k < 8 * |m|
    ensures Bit(ClearBit(m, i), k) == (k != i && Bit(m, k))
  {
    MaskIs(i);
    MaskIs(k);
    hide Mask;
    MaskBits(m[i / 8], Mask(i), Mask(k));
  }
}
