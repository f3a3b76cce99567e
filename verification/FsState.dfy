/** Files over blocks: inodes, the blocks they own, and the bytes they hold. */
module FsState {
  import opened FsLayout

  /** addrs[NDIRECT] is the indirect block; kind 0 is a free inode. */
  datatype Inode = Inode(kind: nat, nlink: nat, size: nat, addrs: seq<nat>)

  datatype Fs = Fs(blocks: seq<ByteBlock>, inodes: map<nat, Inode>)

  /** The block pointers of a file: direct ones, the indirect block, then its entries. */
  const SLOTS := NDIRECT + 1 + NINDIRECT

  predicate Shaped(sb: Superblock, fs: Fs) {
    && sb.Ok() && |fs.blocks| == sb.size
    && forall i :: i in fs.inodes ==>
         && i < sb.ninodes && |fs.inodes[i].addrs| == NDIRECT + 1
         && fs.inodes[i].size <= MAXFILE * BSIZE
         && forall k :: 0 <= k <= NDIRECT ==> fs.inodes[i].addrs[k] < sb.size
  }

  /** Pointer k of file i, 0 if there is none. */
  function Ptr(sb: Superblock, fs: Fs, i: nat, k: nat): nat
    requires Shaped(sb, fs) && i in fs.inodes && k < SLOTS
  {
    var addrs := fs.inodes[i].addrs;
    if k <= NDIRECT then addrs[k]
    else if addrs[NDIRECT] == 0 then 0
    else Word(fs.blocks[addrs[NDIRECT]], k - NDIRECT - 1)
  }

  /** Where the pointer to a file's bn-th data block is kept. */
  function DataSlot(bn: nat): nat {
    if bn < NDIRECT then bn else bn + 1
  }

  /** Byte p of file i; 0 where no block is allocated. */
  function ByteAt(sb: Superblock, fs: Fs, i: nat, p: nat): byte
    requires Shaped(sb, fs) && i in fs.inodes && p < MAXFILE * BSIZE
  {
    var a := Ptr(sb, fs, i, DataSlot(p / BSIZE));
    if a == 0 || a >= sb.size then 0 else fs.blocks[a][p % BSIZE]
  }

  /**
   * The bytes of a file are where the inode says: in twelve direct blocks, then in 256 blocks whose
   * numbers, four bytes each with the lowest first, fill the indirect block.
   */
  lemma WhereBytesAre(sb: Superblock, fs: Fs, i: nat, p: nat)
    requires Shaped(sb, fs) && i in fs.inodes && p < (12 + 256) * 1024
    ensures var n, addrs := p / 1024, fs.inodes[i].addrs;
            |addrs| == 13 && (addrs[12] == 0 || addrs[12] < |fs.blocks|) &&
            var a := if n < 12 then addrs[n]
                     else if addrs[12] == 0 then 0
                     else
                       var x, k := fs.blocks[addrs[12]], 4 * (n - 12);
                       x[k] as int + 0x100 * x[k + 1] as int + 0x1_0000 * x[k + 2] as int + 0x100_0000 * x[k + 3] as int;
            ByteAt(sb, fs, i, p) == if 0 < a < sb.size then fs.blocks[a][p % 1024] else 0
  {
  }

  /** The contents of file i. */
  function FileBytes(sb: Superblock, fs: Fs, i: nat): (s: seq<byte>)
    requires Shaped(sb, fs) && i in fs.inodes
    ensures |s| == fs.inodes[i].size
  {
    seq(fs.inodes[i].size, p requires 0 <= p < fs.inodes[i].size => ByteAt(sb, fs, i, p))
  }

  /** The pointers of different files, or different pointers of one, never share a block. */
  ghost predicate Owned(sb: Superblock, fs: Fs, owner: map<nat, (nat, nat)>)
    requires Shaped(sb, fs)
  {
    && (forall i, k :: i in fs.inodes && 0 <= k < SLOTS && Ptr(sb, fs, i, k) != 0 ==>
          Ptr(sb, fs, i, k) in owner && owner[Ptr(sb, fs, i, k)] == (i, k))
    && (forall b :: b in owner ==>
          && sb.datastart <= b < sb.size
          && owner[b].0 in fs.inodes && owner[b].1 < SLOTS
          && Ptr(sb, fs, owner[b].0, owner[b].1) == b)
  }

  /** A block's bit is set exactly if it is metadata or owned by a file. */
  ghost predicate MapOk(sb: Superblock, blocks: seq<ByteBlock>, owned: set<nat>)
    requires sb.Ok() && |blocks| == sb.size
  {
    forall b :: 0 <= b < sb.size ==> (Used(sb, blocks, b) <==> b < sb.datastart || b in owned)
  }

  /** Every block below a file's size is allocated. */
  ghost predicate Filled(sb: Superblock, fs: Fs)
    requires Shaped(sb, fs)
  {
    forall i, bn :: i in fs.inodes && 0 <= bn && bn * BSIZE < fs.inodes[i].size ==>
      Ptr(sb, fs, i, DataSlot(bn)) != 0
  }

  ghost predicate Good(sb: Superblock, fs: Fs, owner: map<nat, (nat, nat)>) {
    && Shaped(sb, fs) && Owned(sb, fs, owner)
    && MapOk(sb, fs.blocks, owner.Keys) && Filled(sb, fs)
  }

  function FreeBlocks(sb: Superblock, blocks: seq<ByteBlock>): set<nat>
    requires sb.Ok() && |blocks| == sb.size
  {
    set b | 0 <= b < sb.size && !Used(sb, blocks, b)
  }

  // ----- changes of contents

  /** From x to y, src replaces file i's bytes from off on; no other byte of any file changes. */
  ghost predicate Patched(sb: Superblock, x: Fs, y: Fs, i: nat, off: nat, src: seq<byte>)
    requires Shaped(sb, x) && Shaped(sb, y)
  {
    && y.inodes.Keys == x.inodes.Keys
    && (forall j :: j in y.inodes ==> y.inodes[j] == x.inodes[j].(addrs := y.inodes[j].addrs))
    && (forall j, p :: j in y.inodes && 0 <= p < MAXFILE * BSIZE ==>
          ByteAt(sb, y, j, p) ==
          if j == i && off <= p < off + |src| then src[p - off] else ByteAt(sb, x, j, p))
  }

  lemma NothingPatched(sb: Superblock, x: Fs, i: nat, off: nat)
    requires Shaped(sb, x)
    ensures Patched(sb, x, x, i, off, [])
  {
  }

  lemma PatchedTwice(sb: Superblock, x: Fs, y: Fs, z: Fs, i: nat, off: nat, first: seq<byte>, second: seq<byte>)
    requires Shaped(sb, x) && Shaped(sb, y) && Shaped(sb, z)
    requires Patched(sb, x, y, i, off, first) && Patched(sb, y, z, i, off + |first|, second)
    ensures Patched(sb, x, z, i, off, first + second)
  {
    hide ByteAt;
    hide Shaped;
  }

  /** Allocation changes no bytes, so a patch after it is a patch of the state before. */
  lemma PatchedJoin(sb: Superblock, x: Fs, y: Fs, z: Fs, i: nat, off: nat, src: seq<byte>)
    requires Shaped(sb, x) && Shaped(sb, y) && Shaped(sb, z)
    requires Patched(sb, x, y, i, 0, []) && Patched(sb, y, z, i, off, src)
    ensures Patched(sb, x, z, i, off, src)
  {
    hide ByteAt;
    hide Shaped;
  }

  /** s with src written over it from off on, growing if need be. */
  function Splice(s: seq<byte>, off: nat, src: seq<byte>): seq<byte>
    requires off <= |s|
  {
    s[..off] + src + (if off + |src| < |s| then s[off + |src|..] else [])
  }

  /** The number of blocks that bytes [off, off + n) lie in. */
  function Span(off: nat, n: nat): nat {
    if n == 0 then 0 else (off + n - 1) / BSIZE - off / BSIZE + 1
  }
}
