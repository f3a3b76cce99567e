/** File system data as bytes of blocks: bitmap bits, block numbers, and the blocks of a file. */
module FsLayout {
  import opened Basics

  const BSIZE := 1024
  const BPB := 8192
  const NDIRECT := 12
  const NINDIRECT := 256
  const MAXFILE := NDIRECT + NINDIRECT

  /** The inodes in a block. */
  const IPB := 16

  type byte = x: int | 0 <= x < 256

  type ByteBlock = b: seq<byte> | |b| == BSIZE witness seq(BSIZE, _ => 0)

  function Zeroes(): ByteBlock { seq(BSIZE, _ => 0) }

  // ----- bits of a byte, the lowest first

  /** (x & (1 << k)) != 0 */
  predicate Bit(x: nat, k: nat) {
    if k == 0 then x % 2 == 1 else Bit(x / 2, k - 1)
  }

  /** x | (1 << k), and with on false x & ~(1 << k) */
  function PutBit(x: nat, k: nat, on: bool): nat {
    if k == 0 then x / 2 * 2 + (if on then 1 else 0) else PutBit(x / 2, k - 1, on) * 2 + x % 2
  }

  lemma {:induction false} PutBitEffect(x: nat, k: nat, on: bool, j: nat)
    ensures Bit(PutBit(x, k, on), j) == if j == k then on else Bit(x, j)
  {
    if k > 0 && j > 0 {
      PutBitEffect(x / 2, k - 1, on, j - 1);
    }
  }

  function Pow2(m: nat): (p: nat)
    ensures p > 0
  {
    if m == 0 then 1 else 2 * Pow2(m - 1)
  }

  lemma {:induction false} PutBitRange(x: nat, k: nat, on: bool, m: nat)
    requires k < m && x < Pow2(m)
    ensures PutBit(x, k, on) < Pow2(m)
  {
    if k > 0 {
      PutBitRange(x / 2, k - 1, on, m - 1);
    }
  }

  /** m of balloc and bfree applied to one byte. */
  function PutByteBit(x: byte, k: nat, on: bool): byte
    requires k < 8
  {
    PutBitRange(x, k, on, 8);
    PutBit(x, k, on)
  }

  // ----- little-endian words of a block

  predicate IsWord(v: int) { 0 <= v < 0x1_0000_0000 }

  function Word(b: ByteBlock, k: nat): (v: nat)
    requires k < NINDIRECT
    ensures IsWord(v)
  {
    var b0: int, b1: int, b2: int, b3: int := b[4 * k], b[4 * k + 1], b[4 * k + 2], b[4 * k + 3];
    b0 + 0x100 * b1 + 0x1_0000 * b2 + 0x100_0000 * b3
  }

  function PutWord(b: ByteBlock, k: nat, v: nat): ByteBlock
    requires k < NINDIRECT && IsWord(v)
  {
    b[4 * k := v % 0x100][4 * k + 1 := v / 0x100 % 0x100]
     [4 * k + 2 := v / 0x1_0000 % 0x100][4 * k + 3 := v / 0x100_0000 % 0x100]
  }

  lemma BytesOfWord(v: nat)
    requires IsWord(v)
    ensures v == v % 0x100 + 0x100 * (v / 0x100 % 0x100) + 0x1_0000 * (v / 0x1_0000 % 0x100)
                 + 0x100_0000 * (v / 0x100_0000 % 0x100)
  {
    var v1 := v / 0x100;
    var v2 := v1 / 0x100;
    var v3 := v2 / 0x100;
    assert v == 0x1_0000 * v2 + (0x100 * (v1 % 0x100) + v % 0x100);
    assert v / 0x1_0000 == v2;
    assert v == 0x100_0000 * v3 + (0x1_0000 * (v2 % 0x100) + 0x100 * (v1 % 0x100) + v % 0x100);
    assert v / 0x100_0000 == v3;
  }

  lemma PutWordEffect(b: ByteBlock, k: nat, v: nat, j: nat)
    requires k < NINDIRECT && j < NINDIRECT && IsWord(v)
    ensures Word(PutWord(b, k, v), j) == if j == k then v else Word(b, j)
  {
    BytesOfWord(v);
  }

  lemma ZeroWords(k: nat)
    requires k < NINDIRECT
    ensures Word(Zeroes(), k) == 0
  {
  }

  // ----- the superblock and the free map

  datatype Superblock = Superblock(size: nat, bmapstart: nat, inodestart: nat, ninodes: nat, datastart: nat) {
    /** Metadata comes first; block numbers and inode numbers fit where they are stored. */
    predicate Ok() {
      && inodestart + ninodes / IPB + 1 <= bmapstart
      && bmapstart + (size + BPB - 1) / BPB <= datastart <= size
      && 0 < datastart && IsWord(size)
    }

    function BitmapBlock(b: nat): nat { b / BPB + bmapstart }

    function InodeBlock(i: nat): nat { i / IPB + inodestart }
  }

  predicate Used(sb: Superblock, blocks: seq<ByteBlock>, b: nat)
    requires sb.Ok() && |blocks| == sb.size && b < sb.size
  {
    Bit(blocks[sb.BitmapBlock(b)][b % BPB / 8], b % 8)
  }

  /** blocks with b's bit in the free map set or cleared. */
  function Mark(sb: Superblock, blocks: seq<ByteBlock>, b: nat, on: bool): (r: seq<ByteBlock>)
    requires sb.Ok() && |blocks| == sb.size && b < sb.size
    ensures |r| == |blocks|
  {
    var m := blocks[sb.BitmapBlock(b)];
    blocks[sb.BitmapBlock(b) := m[b % BPB / 8 := PutByteBit(m[b % BPB / 8], b % 8, on)]]
  }

  /** Where the bit of block b is, as the number b again. */
  lemma Eighth(b: nat)
    ensures b == BPB * (b / BPB) + 8 * (b % BPB / 8) + b % 8 && b % BPB % 8 == b % 8
  {
    EightsAside(1024 * (b / BPB), b % BPB);
    assert b == 8 * (1024 * (b / BPB)) + b % BPB;
  }

  lemma SameBit(b: nat, c: nat)
    requires b / BPB == c / BPB && b % BPB / 8 == c % BPB / 8 && b % 8 == c % 8
    ensures b == c
  {
    Eighth(b);
    Eighth(c);
  }

  lemma MarkEffect(sb: Superblock, blocks: seq<ByteBlock>, b: nat, on: bool, c: nat)
    requires sb.Ok() && |blocks| == sb.size && b < sb.size && c < sb.size
    ensures Used(sb, Mark(sb, blocks, b, on), c) == if c == b then on else Used(sb, blocks, c)
  {
    var m := blocks[sb.BitmapBlock(b)];
    PutBitEffect(m[b % BPB / 8], b % 8, on, c % 8);
    if c != b && b / BPB == c / BPB && b % BPB / 8 == c % BPB / 8 {
      if b % 8 == c % 8 {
        SameBit(b, c);
      }
    }
  }

  /** Blocks outside the free map do not change when a bit does. */
  lemma MarkKeeps(sb: Superblock, blocks: seq<ByteBlock>, b: nat, on: bool, c: nat)
    requires sb.Ok() && |blocks| == sb.size && b < sb.size && sb.datastart <= c < sb.size
    ensures sb.BitmapBlock(b) < sb.datastart
    ensures Mark(sb, blocks, b, on)[c] == blocks[c]
  {
  }
}
