/** Counting the blocks a write must allocate, and extending a file's size. */
module FsCount {
  import opened FsLayout
  import opened FsState
  import opened FsAlloc
  import opened LogFormat

  /** What bmap allocates to reach file i's block bn: the block, and perhaps the indirect block. */
  ghost function Missing(sb: Superblock, fs: Fs, i: nat, bn: nat): nat
    requires Shaped(sb, fs) && i in fs.inodes && bn < MAXFILE
  {
    (if Ptr(sb, fs, i, DataSlot(bn)) == 0 then 1 else 0) +
    (if bn >= NDIRECT && fs.inodes[i].addrs[NDIRECT] == 0 then 1 else 0)
  }

  /** The blocks of file i in [first, last) that are not allocated. */
  ghost function Absent(sb: Superblock, fs: Fs, i: nat, first: nat, last: nat): nat
    requires Shaped(sb, fs) && i in fs.inodes && first <= last <= MAXFILE
    decreases last - first
  {
    if first == last then 0
    else (if Ptr(sb, fs, i, DataSlot(first)) == 0 then 1 else 0) + Absent(sb, fs, i, first + 1, last)
  }

  /** What allocating all of [first, last) takes, with the indirect block. */
  ghost function Needed(sb: Superblock, fs: Fs, i: nat, first: nat, last: nat): nat
    requires Shaped(sb, fs) && i in fs.inodes && first <= last <= MAXFILE
  {
    Absent(sb, fs, i, first, last) +
    (if first < last && last > NDIRECT && fs.inodes[i].addrs[NDIRECT] == 0 then 1 else 0)
  }

  function Larger(m: nat, n: nat): nat { if m > n then m else n }

  /** From x to y, src was spliced into file i at off and nothing else changed but where i's blocks are. */
  ghost predicate Spliced(sb: Superblock, x: Fs, y: Fs, i: nat, off: nat, src: seq<byte>)
    requires Shaped(sb, x) && Shaped(sb, y) && i in x.inodes && off <= x.inodes[i].size
  {
    && i in y.inodes && y.inodes == x.inodes[i := y.inodes[i]]
    && y.inodes[i].kind == x.inodes[i].kind && y.inodes[i].nlink == x.inodes[i].nlink
    && FileBytes(sb, y, i) == Splice(FileBytes(sb, x, i), off, src)
    && (forall j :: j in y.inodes && j != i ==> FileBytes(sb, y, j) == FileBytes(sb, x, j))
  }

  lemma SplicedNothing(sb: Superblock, x: Fs, i: nat, off: nat)
    requires Shaped(sb, x) && i in x.inodes && off <= x.inodes[i].size
    ensures Spliced(sb, x, x, i, off, [])
  {
    hide Shaped;
    hide ByteAt;
    var s := FileBytes(sb, x, i);
    assert Splice(s, off, []) == s;
  }

  lemma SplicedTwice(sb: Superblock, x: Fs, y: Fs, z: Fs, i: nat, off: nat, first: seq<byte>, second: seq<byte>)
    requires Shaped(sb, x) && Shaped(sb, y) && Shaped(sb, z)
    requires i in x.inodes && off <= x.inodes[i].size && Spliced(sb, x, y, i, off, first)
    requires off + |first| <= y.inodes[i].size && Spliced(sb, y, z, i, off + |first|, second)
    ensures Spliced(sb, x, z, i, off, first + second)
    ensures z.inodes[i].size == Larger(off + |first| + |second|, x.inodes[i].size)
  {
    hide Shaped;
    hide FileBytes;
    hide Splice;
    SpliceTwice(FileBytes(sb, x, i), off, first, second);
    SpliceLength(FileBytes(sb, x, i), off, first + second);
  }

  lemma SpliceTwice(s: seq<byte>, off: nat, first: seq<byte>, second: seq<byte>)
    requires off <= |s|
    ensures off + |first| <= |Splice(s, off, first)|
    ensures Splice(Splice(s, off, first), off + |first|, second) == Splice(s, off, first + second)
  {
    hide Splice;
    SpliceLength(s, off, first);
    SpliceLength(s, off, first + second);
    var u := Splice(s, off, first);
    SpliceLength(u, off + |first|, second);
    var a, b := Splice(u, off + |first|, second), Splice(s, off, first + second);
    assert |a| == |b|;
    forall p | 0 <= p < |a| ensures a[p] == b[p] {
      SpliceAt(u, off + |first|, second, p);
      SpliceAt(s, off, first + second, p);
      if p < |u| {
        SpliceAt(s, off, first, p);
      }
    }
  }

  /** src was written at off of file i, which now has all its blocks up to the end of src. */
  ghost predicate Written(sb: Superblock, x: Fs, y: Fs, i: nat, off: nat, src: seq<byte>)
    requires Shaped(sb, x) && Shaped(sb, y) && i in x.inodes
    requires off <= x.inodes[i].size && off + |src| <= MAXFILE * BSIZE
  {
    && Spliced(sb, x, y, i, off, src)
    && y.inodes[i].size == Larger(off + |src|, x.inodes[i].size)
    && FilledTo(sb, y, i, off + |src|)
    && Extended(sb, x, y, i, off / BSIZE, EndBlock(off, |src|))
  }

  /** Setting the size after the loop completes the write. */
  lemma ResizedWritten(sb: Superblock, x: Fs, y: Fs, owner: map<nat, (nat, nat)>, i: nat, off: nat, src: seq<byte>)
    requires Shaped(sb, x) && Good(sb, y, owner) && i in x.inodes && i in y.inodes
    requires off <= x.inodes[i].size && off + |src| <= MAXFILE * BSIZE
    requires y.inodes == x.inodes[i := y.inodes[i]] && Patched(sb, x, y, i, off, src)
    requires FilledTo(sb, y, i, off + |src|) && Extended(sb, x, y, i, off / BSIZE, EndBlock(off, |src|))
    ensures var t := Resized(y, i, Larger(off + |src|, y.inodes[i].size));
            && Good(sb, t, owner) && Written(sb, x, t, i, off, src)
  {
    hide Used;
    hide Ptr;
    hide ByteAt;
    hide Splice;
    hide Patched;
    hide FileBytes;
    hide Extended;
    hide Owned;
    hide MapOk;
    var size := Larger(off + |src|, y.inodes[i].size);
    FilledFurther(sb, y, i, off + |src|, size);
    ResizedGood(sb, y, owner, i, size);
    ResizedReach(sb, x, y, i, off / BSIZE, EndBlock(off, |src|), off + |src|, size);
    hide FilledTo;
    forall j | j in x.inodes
      ensures FileBytes(sb, Resized(y, i, size), j) ==
              if j == i then Splice(FileBytes(sb, x, i), off, src) else FileBytes(sb, x, j)
    {
      PatchedSizes(sb, x, y, i, off, src);
      WrittenContents(sb, x, y, i, off, src, size, j);
    }
    PatchedSizes(sb, x, y, i, off, src);
  }

  lemma PatchedSizes(sb: Superblock, x: Fs, y: Fs, i: nat, off: nat, src: seq<byte>)
    requires Shaped(sb, x) && Shaped(sb, y) && Patched(sb, x, y, i, off, src) && i in x.inodes
    ensures i in y.inodes && y.inodes[i] == x.inodes[i].(addrs := y.inodes[i].addrs)
  {
    hide ByteAt;
  }

  lemma ResizedReach(sb: Superblock, x: Fs, y: Fs, i: nat, first: nat, next: nat, pos: nat, size: nat)
    requires Shaped(sb, x) && Shaped(sb, y) && i in x.inodes && i in y.inodes
    requires size <= MAXFILE * BSIZE && pos <= MAXFILE * BSIZE
    requires Extended(sb, x, y, i, first, next) && FilledTo(sb, y, i, pos)
    ensures Shaped(sb, Resized(y, i, size))
    ensures Extended(sb, x, Resized(y, i, size), i, first, next) && FilledTo(sb, Resized(y, i, size), i, pos)
  {
    assert Shaped(sb, Resized(y, i, size));
    forall k | 0 <= k < SLOTS ensures Ptr(sb, Resized(y, i, size), i, k) == Ptr(sb, y, i, k) {
    }
    hide Ptr;
  }

  /** The first block after a write of n bytes at off. */
  function EndBlock(off: nat, n: nat): nat { off / BSIZE + Span(off, n) }

  /** The first block with bytes left to write, when tot of n bytes are written. */
  function NextBlock(off: nat, n: nat, tot: nat): nat {
    if tot == n then EndBlock(off, n) else (off + tot) / BSIZE
  }

  lemma EndBlockFits(off: nat, n: nat)
    requires off + n <= MAXFILE * BSIZE
    ensures off / BSIZE <= EndBlock(off, n) <= MAXFILE
    ensures off / BSIZE == NextBlock(off, n, 0)
  {
  }

  /** A round of writei's loop writes the m bytes of one block, and goes on to the next block. */
  lemma NextChunk(off: nat, n: nat, tot: nat, m: nat)
    requires tot < n && off + n <= MAXFILE * BSIZE
    requires m == if n - tot < BSIZE - (off + tot) % BSIZE then n - tot else BSIZE - (off + tot) % BSIZE
    ensures 0 < m <= n - tot && (off + tot) % BSIZE + m <= BSIZE
    ensures NextBlock(off, n, tot) == (off + tot) / BSIZE < EndBlock(off, n) <= MAXFILE
    ensures NextBlock(off, n, tot + m) == NextBlock(off, n, tot) + 1
  {
    var pos := off + tot;
    if m < n - tot {
      assert pos + m == (pos / BSIZE + 1) * BSIZE;
    }
  }

  lemma {:induction false} AbsentSame(sb: Superblock, x: Fs, y: Fs, i: nat, first: nat, last: nat)
    requires Shaped(sb, x) && Shaped(sb, y) && i in x.inodes && i in y.inodes && first <= last <= MAXFILE
    requires forall k :: first <= k < last ==> Ptr(sb, x, i, DataSlot(k)) == Ptr(sb, y, i, DataSlot(k))
    ensures Absent(sb, x, i, first, last) == Absent(sb, y, i, first, last)
    decreases last - first
  {
    hide Ptr;
    hide Shaped;
    if first < last {
      AbsentSame(sb, x, y, i, first + 1, last);
    }
  }

  lemma {:induction false} AbsentAtMost(sb: Superblock, fs: Fs, i: nat, first: nat, last: nat)
    requires Shaped(sb, fs) && i in fs.inodes && first <= last <= MAXFILE
    ensures Absent(sb, fs, i, first, last) <= last - first
    decreases last - first
  {
    if first < last {
      AbsentAtMost(sb, fs, i, first + 1, last);
    }
  }

  /** Allocating block bn settles exactly what was missing for it. */
  lemma NeededStep(sb: Superblock, x: Fs, y: Fs, i: nat, bn: nat, last: nat)
    requires Shaped(sb, x) && Shaped(sb, y) && i in x.inodes && i in y.inodes && bn < last <= MAXFILE
    requires Extended(sb, x, y, i, bn, bn + 1)
    ensures Needed(sb, x, i, bn, last) == Missing(sb, x, i, bn) + Needed(sb, y, i, bn + 1, last)
  {
    hide Ptr;
    hide Shaped;
    AbsentSame(sb, x, y, i, bn + 1, last);
  }

  /** A write in place or at the end of a file never misses the block it starts inside of. */
  lemma ToAllocateAtMost(sb: Superblock, fs: Fs, i: nat, off: nat, n: nat)
    requires Shaped(sb, fs) && Filled(sb, fs) && i in fs.inodes
    requires off <= fs.inodes[i].size && off + n <= MAXFILE * BSIZE
    ensures ToAllocate(sb, fs, i, off, n) <= Span(off, n) + 1 - (if off % BSIZE != 0 && n > 0 then 1 else 0)
  {
    hide Ptr;
    hide Shaped;
    EndBlockFits(off, n);
    var first, last := off / BSIZE, EndBlock(off, n);
    if n > 0 {
      AbsentAtMost(sb, fs, i, first + 1, last);
      if off % BSIZE != 0 {
        assert first * BSIZE < fs.inodes[i].size;
      }
    }
  }

  // ----- a new size

  function Resized(fs: Fs, i: nat, size: nat): Fs
    requires i in fs.inodes
  {
    Fs(fs.blocks, fs.inodes[i := fs.inodes[i].(size := size)])
  }

  /** Up to position p, every block of file i is allocated. */
  ghost predicate FilledTo(sb: Superblock, fs: Fs, i: nat, p: nat)
    requires Shaped(sb, fs) && i in fs.inodes && p <= MAXFILE * BSIZE
  {
    forall bn :: 0 <= bn && bn * BSIZE < p ==> Ptr(sb, fs, i, DataSlot(bn)) != 0
  }

  lemma ResizedGood(sb: Superblock, fs: Fs, owner: map<nat, (nat, nat)>, i: nat, size: nat)
    requires Good(sb, fs, owner) && i in fs.inodes && size <= MAXFILE * BSIZE && FilledTo(sb, fs, i, size)
    ensures Good(sb, Resized(fs, i, size), owner)
  {
    hide Used;
    var t := Resized(fs, i, size);
    assert Shaped(sb, t);
    forall j, k | j in fs.inodes && 0 <= k < SLOTS ensures Ptr(sb, t, j, k) == Ptr(sb, fs, j, k) {
    }
    hide Ptr;
  }

  lemma FilledFurther(sb: Superblock, fs: Fs, i: nat, pos: nat, size: nat)
    requires Shaped(sb, fs) && Filled(sb, fs) && i in fs.inodes && pos <= MAXFILE * BSIZE && FilledTo(sb, fs, i, pos)
    requires size == if pos > fs.inodes[i].size then pos else fs.inodes[i].size
    ensures FilledTo(sb, fs, i, size)
  {
  }

  lemma ResizedByte(sb: Superblock, fs: Fs, i: nat, size: nat, j: nat, p: nat)
    requires Shaped(sb, fs) && i in fs.inodes && j in fs.inodes && size <= MAXFILE * BSIZE && p < MAXFILE * BSIZE
    ensures Shaped(sb, Resized(fs, i, size))
    ensures ByteAt(sb, Resized(fs, i, size), j, p) == ByteAt(sb, fs, j, p)
  {
  }

  /** The contents after a write: the old ones with src spliced in, and other files as they were. */
  lemma WrittenContents(sb: Superblock, x: Fs, y: Fs, i: nat, off: nat, src: seq<byte>, size: nat, j: nat)
    requires Shaped(sb, x) && Shaped(sb, y) && Patched(sb, x, y, i, off, src)
    requires i in x.inodes && off <= x.inodes[i].size && j in x.inodes
    requires size == (if off + |src| > x.inodes[i].size then off + |src| else x.inodes[i].size) <= MAXFILE * BSIZE
    ensures Shaped(sb, Resized(y, i, size))
    ensures FileBytes(sb, Resized(y, i, size), j) ==
            if j == i then Splice(FileBytes(sb, x, i), off, src) else FileBytes(sb, x, j)
  {
    hide Ptr;
    hide ByteAt;
    hide Splice;
    var t := Resized(y, i, size);
    ResizedByte(sb, y, i, size, j, 0);
    var s := FileBytes(sb, t, j);
    var u := if j == i then Splice(FileBytes(sb, x, i), off, src) else FileBytes(sb, x, j);
    SpliceLength(FileBytes(sb, x, i), off, src);
    forall p | 0 <= p < |s| ensures s[p] == u[p] {
      hide Shaped;
      hide Splice;
      ResizedByte(sb, y, i, size, j, p);
      if j == i {
        SpliceAt(FileBytes(sb, x, i), off, src, p);
      }
    }
    assert s == u;
  }

  lemma SpliceLength(s: seq<byte>, off: nat, src: seq<byte>)
    requires off <= |s|
    ensures |Splice(s, off, src)| == if off + |src| > |s| then off + |src| else |s|
  {
  }

  lemma SpliceAt(s: seq<byte>, off: nat, src: seq<byte>, p: nat)
    requires off <= |s| && p < |Splice(s, off, src)|
    ensures if off <= p < off + |src| then Splice(s, off, src)[p] == src[p - off]
            else p < |s| && Splice(s, off, src)[p] == s[p]
  {
  }

  // ----- the loop of writei

  lemma {:induction false} AbsentSplit(sb: Superblock, fs: Fs, i: nat, first: nat, mid: nat, last: nat)
    requires Shaped(sb, fs) && i in fs.inodes && first <= mid <= last <= MAXFILE
    ensures Absent(sb, fs, i, first, last) == Absent(sb, fs, i, first, mid) + Absent(sb, fs, i, mid, last)
    decreases mid - first
  {
    hide Ptr;
    hide Shaped;
    if first < mid {
      AbsentSplit(sb, fs, i, first + 1, mid, last);
    }
  }

  /** A write in two parts allocates what the whole would: the second finds the first's blocks. */
  lemma ToAllocateSplit(sb: Superblock, x: Fs, y: Fs, i: nat, off: nat, m: nat, n: nat)
    requires Shaped(sb, x) && Shaped(sb, y) && i in x.inodes && i in y.inodes
    requires 0 < m <= n && off + n <= MAXFILE * BSIZE
    requires Extended(sb, x, y, i, off / BSIZE, EndBlock(off, m)) && FilledTo(sb, y, i, off + m)
    ensures ToAllocate(sb, x, i, off, n) == ToAllocate(sb, x, i, off, m) + ToAllocate(sb, y, i, off + m, n - m)
  {
    hide Ptr;
    hide Shaped;
    var first, mid, last := off / BSIZE, EndBlock(off, m), EndBlock(off, n);
    PartBlocks(off, m, n);
    AbsentSplit(sb, x, i, first, mid, last);
    AbsentSame(sb, x, y, i, mid, last);
    if m < n && (off + m) % BSIZE != 0 {
      assert (off + m) / BSIZE * BSIZE < off + m;
    }
  }

  lemma PartBlocks(off: nat, m: nat, n: nat)
    requires 0 < m <= n && off + n <= MAXFILE * BSIZE
    ensures off / BSIZE < EndBlock(off, m) <= EndBlock(off, n) <= MAXFILE
    ensures (off + m) / BSIZE == if (off + m) % BSIZE == 0 then EndBlock(off, m) else EndBlock(off, m) - 1
    ensures m < n ==> EndBlock(off + m, n - m) == EndBlock(off, n)
  {
  }

  /** Up to three blocks' worth of bytes, wherever they start, fit one transaction. */
  lemma WriteFits(sb: Superblock, fs: Fs, i: nat, off: nat, n: nat)
    requires Shaped(sb, fs) && Filled(sb, fs) && i in fs.inodes
    requires off <= fs.inodes[i].size && off + n <= MAXFILE * BSIZE && n <= 3 * BSIZE
    ensures Span(off, n) + ToAllocate(sb, fs, i, off, n) + 2 <= MAXOPBLOCKS
  {
    hide Ptr;
    hide Shaped;
    hide ToAllocate;
    ToAllocateAtMost(sb, fs, i, off, n);
    if off % BSIZE == 0 {
      assert Span(off, n) <= 3;
    } else {
      assert Span(off, n) <= 4;
    }
  }

  /** What a write of n bytes at off must allocate. */
  ghost function ToAllocate(sb: Superblock, fs: Fs, i: nat, off: nat, n: nat): nat
    requires Shaped(sb, fs) && i in fs.inodes && off + n <= MAXFILE * BSIZE
  {
    EndBlockFits(off, n);
    Needed(sb, fs, i, off / BSIZE, EndBlock(off, n))
  }

  /** What is still to allocate when tot bytes are written. */
  ghost function StillNeeded(sb: Superblock, fs: Fs, i: nat, off: nat, n: nat, tot: nat): nat
    requires Shaped(sb, fs) && i in fs.inodes && off + n <= MAXFILE * BSIZE && tot <= n
  {
    EndBlockFits(off, n);
    Needed(sb, fs, i, NextBlock(off, n, tot), EndBlock(off, n))
  }

  /** x became y by putting chunk at pos of file i; the free map blocks and the indirect block logged. */
  ghost predicate BlockWritten(sb: Superblock, x: Fs, y: Fs, i: nat, pos: nat, chunk: seq<byte>,
                               bits: set<nat>, indirect: set<nat>)
    requires Shaped(sb, x) && Shaped(sb, y) && i in x.inodes && pos < MAXFILE * BSIZE
  {
    var bn := pos / BSIZE;
    && i in y.inodes && y.inodes == x.inodes[i := y.inodes[i]] && Patched(sb, x, y, i, pos, chunk)
    && Ptr(sb, y, i, DataSlot(bn)) != 0
    && Extended(sb, x, y, i, bn, bn + 1)
    && |FreeBlocks(sb, y.blocks)| == |FreeBlocks(sb, x.blocks)| - Missing(sb, x, i, bn)
    && |bits| <= Missing(sb, x, i, bn)
    && indirect <= {y.inodes[i].addrs[NDIRECT]} && (indirect != {} ==> y.inodes[i].addrs[NDIRECT] != 0)
  }

  /** From x to y, file i gained no pointers but those to blocks [first, next) and the indirect block they need. */
  ghost predicate Extended(sb: Superblock, x: Fs, y: Fs, i: nat, first: nat, next: nat)
    requires Shaped(sb, x) && Shaped(sb, y) && i in x.inodes && i in y.inodes
  {
    && (forall bn :: 0 <= bn < MAXFILE && !(first <= bn < next) ==>
          Ptr(sb, y, i, DataSlot(bn)) == Ptr(sb, x, i, DataSlot(bn)))
    && (first == next || next <= NDIRECT || x.inodes[i].addrs[NDIRECT] != 0 ==>
          y.inodes[i].addrs[NDIRECT] == x.inodes[i].addrs[NDIRECT])
    && (first < next && next > NDIRECT ==> y.inodes[i].addrs[NDIRECT] != 0)
  }

  lemma ExtendedStep(sb: Superblock, x: Fs, y: Fs, z: Fs, i: nat, first: nat, next: nat)
    requires Shaped(sb, x) && Shaped(sb, y) && Shaped(sb, z)
    requires i in x.inodes && i in y.inodes && i in z.inodes && first <= next
    requires Extended(sb, x, y, i, first, next) && Extended(sb, y, z, i, next, next + 1)
    ensures Extended(sb, x, z, i, first, next + 1)
  {
    hide Ptr;
    hide Shaped;
  }

  /** From x to y, the first tot bytes of src went to file i at off; every block is accounted for. */
  ghost predicate Progress(sb: Superblock, x: Fs, y: Fs, i: nat, off: nat, src: seq<byte>, tot: nat,
                           data: set<nat>, bits: set<nat>, indirect: set<nat>)
    requires Shaped(sb, x) && Shaped(sb, y) && i in x.inodes && off + |src| <= MAXFILE * BSIZE && tot <= |src|
  {
    && i in y.inodes && y.inodes == x.inodes[i := y.inodes[i]] && Patched(sb, x, y, i, off, src[..tot])
    && FilledTo(sb, y, i, off + tot) && Extended(sb, x, y, i, off / BSIZE, NextBlock(off, |src|, tot))
    && |FreeBlocks(sb, y.blocks)| - StillNeeded(sb, y, i, off, |src|, tot)
       == |FreeBlocks(sb, x.blocks)| - ToAllocate(sb, x, i, off, |src|)
    && |data| <= NextBlock(off, |src|, tot) - off / BSIZE
    && |bits| + StillNeeded(sb, y, i, off, |src|, tot) <= ToAllocate(sb, x, i, off, |src|)
    && indirect <= {y.inodes[i].addrs[NDIRECT]} && (indirect != {} ==> y.inodes[i].addrs[NDIRECT] != 0)
  }

  lemma ProgressStart(sb: Superblock, fs: Fs, owner: map<nat, (nat, nat)>, i: nat, off: nat, src: seq<byte>)
    requires Good(sb, fs, owner) && i in fs.inodes
    requires off <= fs.inodes[i].size && off + |src| <= MAXFILE * BSIZE
    ensures Progress(sb, fs, fs, i, off, src, 0, {}, {}, {})
  {
    hide Ptr;
    hide ByteAt;
    hide Used;
    EndBlockFits(off, |src|);
    assert src[..0] == [];
  }

  lemma ProgressRoom(sb: Superblock, x: Fs, y: Fs, i: nat, off: nat, src: seq<byte>, tot: nat, m: nat,
                     data: set<nat>, bits: set<nat>, indirect: set<nat>)
    requires Shaped(sb, x) && Shaped(sb, y) && i in x.inodes && off + |src| <= MAXFILE * BSIZE && tot < |src|
    requires Progress(sb, x, y, i, off, src, tot, data, bits, indirect)
    requires |FreeBlocks(sb, x.blocks)| >= ToAllocate(sb, x, i, off, |src|)
    requires m == if |src| - tot < BSIZE - (off + tot) % BSIZE then |src| - tot else BSIZE - (off + tot) % BSIZE
    ensures 0 < m <= |src| - tot && (off + tot) % BSIZE + m <= BSIZE && (off + tot) / BSIZE < MAXFILE
    ensures i in y.inodes && |FreeBlocks(sb, y.blocks)| >= Missing(sb, y, i, (off + tot) / BSIZE)
  {
    hide Ptr;
    hide Shaped;
    hide FreeBlocks;
    hide Patched;
    NextChunk(off, |src|, tot, m);
  }

  lemma ProgressStep(sb: Superblock, x: Fs, y: Fs, z: Fs, i: nat, off: nat, src: seq<byte>, tot: nat, m: nat,
                     data: set<nat>, bits: set<nat>, indirect: set<nat>, addr: nat, more: set<nat>, ind: set<nat>)
    requires Shaped(sb, x) && Shaped(sb, y) && Shaped(sb, z)
    requires i in x.inodes && off + |src| <= MAXFILE * BSIZE && tot < |src|
    requires Progress(sb, x, y, i, off, src, tot, data, bits, indirect) && i in y.inodes
    requires m == if |src| - tot < BSIZE - (off + tot) % BSIZE then |src| - tot else BSIZE - (off + tot) % BSIZE
    requires BlockWritten(sb, y, z, i, off + tot, src[tot..tot + m], more, ind)
    ensures Progress(sb, x, z, i, off, src, tot + m, data + {addr}, bits + more, indirect + ind)
  {
    hide Ptr;
    hide Shaped;
    hide FreeBlocks;
    hide Patched;
    hide FilledTo;
    hide Needed;
    hide Missing;
    NextChunk(off, |src|, tot, m);
    hide Extended;
    NeededStep(sb, y, z, i, (off + tot) / BSIZE, EndBlock(off, |src|));
    ExtendedStep(sb, x, y, z, i, off / BSIZE, (off + tot) / BSIZE);
    assert src[..tot] + src[tot..tot + m] == src[..tot + m];
    PatchedTwice(sb, x, y, z, i, off, src[..tot], src[tot..tot + m]);
    UnionSize(bits, more);
    FilledStep(sb, y, z, i, off + tot, m);
  }

  lemma FilledStep(sb: Superblock, y: Fs, z: Fs, i: nat, pos: nat, m: nat)
    requires Shaped(sb, y) && Shaped(sb, z) && i in y.inodes && i in z.inodes && pos + m <= MAXFILE * BSIZE
    requires FilledTo(sb, y, i, pos) && 0 < m <= BSIZE - pos % BSIZE
    requires Ptr(sb, z, i, DataSlot(pos / BSIZE)) != 0
    requires Extended(sb, y, z, i, pos / BSIZE, pos / BSIZE + 1)
    ensures FilledTo(sb, z, i, pos + m)
  {
    hide Ptr;
    hide Shaped;
    forall bn | 0 <= bn && bn * BSIZE < pos + m ensures Ptr(sb, z, i, DataSlot(bn)) != 0 {
      if bn != pos / BSIZE {
        assert bn * BSIZE < pos;
      }
    }
  }

  lemma ProgressEnd(sb: Superblock, x: Fs, y: Fs, i: nat, off: nat, src: seq<byte>,
                    data: set<nat>, bits: set<nat>, indirect: set<nat>)
    requires Shaped(sb, x) && Shaped(sb, y) && i in x.inodes && off + |src| <= MAXFILE * BSIZE
    requires Progress(sb, x, y, i, off, src, |src|, data, bits, indirect)
    ensures i in y.inodes && y.inodes == x.inodes[i := y.inodes[i]] && Patched(sb, x, y, i, off, src)
    ensures FilledTo(sb, y, i, off + |src|) && Extended(sb, x, y, i, off / BSIZE, EndBlock(off, |src|))
    ensures |FreeBlocks(sb, y.blocks)| == |FreeBlocks(sb, x.blocks)| - ToAllocate(sb, x, i, off, |src|)
    ensures |data + bits + indirect| <= Span(off, |src|) + ToAllocate(sb, x, i, off, |src|) + 1
  {
    hide Ptr;
    hide FreeBlocks;
    hide Patched;
    assert src[..|src|] == src;
    UnionSize(data, bits);
    UnionSize(data + bits, indirect);
    SubsetOfOne(indirect, y.inodes[i].addrs[NDIRECT]);
  }

  lemma SubsetOfOne<T>(s: set<T>, x: T)
    requires s <= {x}
    ensures |s| <= 1
  {
    assert s == {} || s == {x};
  }

  lemma UnionSize<T>(a: set<T>, b: set<T>)
    ensures |a + b| <= |a| + |b|
  {
    assert a + b == a + (b - a);
  }

  /** The bytes of a file that lie in one of its blocks. */
  lemma BlockBytes(sb: Superblock, fs: Fs, owner: map<nat, (nat, nat)>, i: nat, pos: nat, m: nat)
    requires Good(sb, fs, owner) && i in fs.inodes
    requires 0 < m <= BSIZE - pos % BSIZE && pos + m <= fs.inodes[i].size
    ensures pos / BSIZE < MAXFILE && pos + m <= |FileBytes(sb, fs, i)| && Missing(sb, fs, i, pos / BSIZE) == 0
    ensures var a := Ptr(sb, fs, i, DataSlot(pos / BSIZE));
            a < |fs.blocks| && fs.blocks[a][pos % BSIZE..pos % BSIZE + m] == FileBytes(sb, fs, i)[pos..pos + m]
  {
    hide Owned;
    hide MapOk;
    hide Filled;
    hide Ptr;
    hide ByteAt;
    hide Missing;
    PresentBlock(sb, fs, owner, i, pos);
    var a := Ptr(sb, fs, i, DataSlot(pos / BSIZE));
    var s, t := fs.blocks[a][pos % BSIZE..pos % BSIZE + m], FileBytes(sb, fs, i)[pos..pos + m];
    forall q | 0 <= q < m ensures s[q] == t[q] {
      hide FileBytes;
      hide Shaped;
      ByteInBlock(sb, fs, i, pos, q, a);
    }
  }

  /** The block of a position below the size is there. */
  lemma PresentBlock(sb: Superblock, fs: Fs, owner: map<nat, (nat, nat)>, i: nat, pos: nat)
    requires Good(sb, fs, owner) && i in fs.inodes && pos < fs.inodes[i].size
    ensures pos / BSIZE < MAXFILE && Missing(sb, fs, i, pos / BSIZE) == 0
    ensures 0 < Ptr(sb, fs, i, DataSlot(pos / BSIZE)) < sb.size
  {
    hide MapOk;
    hide Owned;
    InBlock(pos, pos / BSIZE);
    assert Ptr(sb, fs, i, DataSlot(pos / BSIZE)) != 0;
    OwnedInRange(sb, fs, owner, i, DataSlot(pos / BSIZE));
    hide Filled;
  }

  lemma ByteInBlock(sb: Superblock, fs: Fs, i: nat, pos: nat, q: nat, a: nat)
    requires Shaped(sb, fs) && i in fs.inodes && pos % BSIZE + q < BSIZE && pos + q < MAXFILE * BSIZE
    requires a == Ptr(sb, fs, i, DataSlot(pos / BSIZE)) && 0 < a < sb.size
    ensures ByteAt(sb, fs, i, pos + q) == fs.blocks[a][pos % BSIZE + q]
  {
    hide Ptr;
    InBlock(pos, pos / BSIZE);
    InBlock(pos + q, pos / BSIZE);
  }

  // ----- filewrite

  /** The most bytes filewrite puts into one transaction. */
  const CHUNK := (MAXOPBLOCKS - 1 - 1 - 2) / 2 * BSIZE

  /** How many of n bytes filewrite writes at off: all of them, or the whole chunks that fit the largest file. */
  function Accepted(size: nat, off: nat, n: int): (m: nat)
    requires size <= MAXFILE * BSIZE
    ensures off <= size ==> off + m <= MAXFILE * BSIZE
  {
    if n <= 0 || off > size then 0
    else if off + n <= MAXFILE * BSIZE then n
    else (MAXFILE * BSIZE - off) / CHUNK * CHUNK
  }

  lemma ChunkAccepted(size: nat, off: nat, n: int, done: nat, m: nat)
    requires off <= size <= MAXFILE * BSIZE && done < n && done <= Accepted(size, off, n) && done % CHUNK == 0
    requires m == if n - done > CHUNK then CHUNK else n - done
    ensures if off + done + m > MAXFILE * BSIZE then Accepted(size, off, n) == done
            else done + m <= Accepted(size, off, n) && (done + m == n || (done + m) % CHUNK == 0)
  {
    assert CHUNK == 3072 && MAXFILE * BSIZE == 274432;
    hide *;
    if off + n <= 274432 {
      assert m == 3072 ==> (done + m) % 3072 == 0;
    } else {
      WholeChunks(274432 - off, n, done, m);
    }
  }

  /** The chunks written in full when n bytes do not fit. */
  lemma WholeChunks(room: nat, n: nat, done: nat, m: nat)
    requires room < n && done < n && done % 3072 == 0 && done <= room / 3072 * 3072
    requires m == if n - done > 3072 then 3072 else n - done
    ensures if done + m > room then room / 3072 * 3072 == done
            else done + m <= room / 3072 * 3072 && (done + m) % 3072 == 0
  {
    var q := done / 3072;
    assert done == q * 3072;
  }

  /** A part of a write allocates no more than the whole. */
  lemma ToAllocatePart(sb: Superblock, fs: Fs, i: nat, off: nat, m: nat, n: nat)
    requires Shaped(sb, fs) && i in fs.inodes && 0 < m <= n && off + n <= MAXFILE * BSIZE
    ensures ToAllocate(sb, fs, i, off, m) <= ToAllocate(sb, fs, i, off, n)
  {
    hide Ptr;
    hide Shaped;
    PartBlocks(off, m, n);
    AbsentSplit(sb, fs, i, off / BSIZE, EndBlock(off, m), EndBlock(off, n));
  }

  /** k of the m bytes that filewrite will write are written. */
  ghost predicate ChunksWritten(sb: Superblock, x: Fs, y: Fs, i: nat, off: nat, src: seq<byte>, k: nat, m: nat)
    requires Shaped(sb, x) && Shaped(sb, y) && i in x.inodes && i in y.inodes && k <= m <= |src|
    requires off <= x.inodes[i].size ==> off + m <= MAXFILE * BSIZE
  {
    if off > x.inodes[i].size then k == 0 && y == x
    else
      && Spliced(sb, x, y, i, off, src[..k])
      && y.inodes[i].size == Larger(off + k, x.inodes[i].size)
      && |FreeBlocks(sb, y.blocks)| - ToAllocate(sb, y, i, off + k, m - k)
         == |FreeBlocks(sb, x.blocks)| - ToAllocate(sb, x, i, off, m)
  }

  lemma ChunksStart(sb: Superblock, fs: Fs, i: nat, off: nat, src: seq<byte>, m: nat)
    requires Shaped(sb, fs) && i in fs.inodes && m <= |src|
    requires off <= fs.inodes[i].size ==> off + m <= MAXFILE * BSIZE
    ensures ChunksWritten(sb, fs, fs, i, off, src, 0, m)
  {
    hide Shaped;
    hide FileBytes;
    hide ToAllocate;
    if off <= fs.inodes[i].size {
      SplicedNothing(sb, fs, i, off);
      assert src[..0] == [];
    }
  }

  lemma ChunksStep(sb: Superblock, x: Fs, y: Fs, z: Fs, i: nat, off: nat, src: seq<byte>, k: nat, c: nat, m: nat)
    requires Shaped(sb, x) && Shaped(sb, y) && Shaped(sb, z) && i in x.inodes && i in y.inodes && i in z.inodes
    requires 0 < c && k + c <= m <= |src| && off <= x.inodes[i].size && off + m <= MAXFILE * BSIZE
    requires ChunksWritten(sb, x, y, i, off, src, k, m) && off + k <= y.inodes[i].size
    requires Written(sb, y, z, i, off + k, src[k..k + c])
    requires |FreeBlocks(sb, z.blocks)| == |FreeBlocks(sb, y.blocks)| - ToAllocate(sb, y, i, off + k, c)
    ensures ChunksWritten(sb, x, z, i, off, src, k + c, m)
  {
    hide Shaped;
    hide FileBytes;
    hide ToAllocate;
    hide Spliced;
    hide FreeBlocks;
    hide Extended;
    hide FilledTo;
    assert src[..k] + src[k..k + c] == src[..k + c];
    SplicedTwice(sb, x, y, z, i, off, src[..k], src[k..k + c]);
    ToAllocateSplit(sb, y, z, i, off + k, c, m - k);
  }

  lemma ChunksEnd(sb: Superblock, x: Fs, y: Fs, i: nat, off: nat, src: seq<byte>, m: nat)
    requires Shaped(sb, x) && Shaped(sb, y) && i in x.inodes && i in y.inodes && m <= |src|
    requires off <= x.inodes[i].size ==> off + m <= MAXFILE * BSIZE
    requires ChunksWritten(sb, x, y, i, off, src, m, m)
    ensures if off > x.inodes[i].size then m == 0 && y == x
            else && Spliced(sb, x, y, i, off, src[..m]) && y.inodes[i].size == Larger(off + m, x.inodes[i].size)
                 && |FreeBlocks(sb, y.blocks)| == |FreeBlocks(sb, x.blocks)| - ToAllocate(sb, x, i, off, m)
  {
    hide Spliced;
    hide Shaped;
  }

  lemma AcceptedExactly(size: nat, off: nat, n: int)
    requires size <= MAXFILE * BSIZE
    ensures Accepted(size, off, n) <= if n <= 0 then 0 else n
    ensures off <= size && 0 <= n && off + n <= MAXFILE * BSIZE ==> Accepted(size, off, n) == n
    ensures var m := Accepted(size, off, n);
            off <= size && 0 <= n && off + n > MAXFILE * BSIZE ==>
              m < n && off + m <= MAXFILE * BSIZE < off + m + 3072 && m % 3072 == 0
    ensures n < 0 || off > size ==> Accepted(size, off, n) == 0
  {
    assert CHUNK == 3072;
  }

  lemma AcceptedNone(size: nat, off: nat, n: int)
    requires size <= MAXFILE * BSIZE
    ensures off > size ==> Accepted(size, off, n) == 0
  {
  }

  /** A chunk is short enough that its end does not wrap, if its start is in the file. */
  lemma RefusedWhen(size: nat, off: nat, n: nat)
    requires size <= MAXFILE * BSIZE && n <= CHUNK && IsWord(off)
    ensures Refused(size, off, n) <==> off > size || off + n > MAXFILE * BSIZE
  {
    assert CHUNK == 3072 && MAXFILE * BSIZE == 274432;
    if off <= size {
      assert (off + n) % 0x1_0000_0000 == off + n;
    }
  }

  /** What the next round of filewrite does: it is turned down, or it has room. */
  lemma ChunksNext(sb: Superblock, x: Fs, y: Fs, i: nat, off: nat, src: seq<byte>, n: int, k: nat, c: nat)
    requires Shaped(sb, x) && Shaped(sb, y) && i in x.inodes && i in y.inodes
    requires n <= |src| < 0x8000_0000 && k < n && k % CHUNK == 0 && IsWord(off)
    requires c == if n - k > CHUNK then CHUNK else n - k
    requires var m := Accepted(x.inodes[i].size, off, n);
             && k <= m <= |src| && ChunksWritten(sb, x, y, i, off, src, k, m)
             && (off <= x.inodes[i].size ==> |FreeBlocks(sb, x.blocks)| >= ToAllocate(sb, x, i, off, m))
    ensures IsWord(off + k)
    ensures var m := Accepted(x.inodes[i].size, off, n);
            if Refused(y.inodes[i].size, off + k, c) then k == m
            else
              && off <= x.inodes[i].size && off + k <= y.inodes[i].size && k + c <= m
              && (k + c == n || (k + c) % CHUNK == 0)
              && |FreeBlocks(sb, y.blocks)| >= ToAllocate(sb, y, i, off + k, c)
  {
    hide FileBytes;
    hide ToAllocate;
    hide Spliced;
    hide FreeBlocks;
    hide Refused;
    hide Accepted;
    var size, m := x.inodes[i].size, Accepted(x.inodes[i].size, off, n);
    RefusedWhen(y.inodes[i].size, off + k, c);
    AcceptedNone(size, off, n);
    if off <= size {
      ChunkAccepted(size, off, n, k, c);
      if off + k + c <= MAXFILE * BSIZE {
        ToAllocatePart(sb, y, i, off + k, c, m - k);
      }
    }
  }

  /** writei turns down an offset past the end, a wrapped end, or an end past the largest file. */
  predicate Refused(size: nat, off: nat, n: nat): (refused: bool)
    requires IsWord(off) && IsWord(n) && size <= MAXFILE * BSIZE
    ensures !refused ==> off <= size && off + n <= MAXFILE * BSIZE
  {
    off > size || (off + n) % 0x1_0000_0000 < off || (off + n) % 0x1_0000_0000 > MAXFILE * BSIZE
  }
}
