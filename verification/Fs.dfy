/** fs.c: the block allocator, bmap, itrunc, readi and writei, and file.c's filewrite over them. */
module Files {
  import opened Basics
  import opened BlockDisk
  import opened LogFormat
  import opened FsLayout
  import opened FsState
  import opened FsAlloc
  import opened FsCount
  import opened FsCommit
  import opened FileCrash

  class FileSystem {
    const sb: Superblock
    /** Each block as the buffer cache shows it. */
    var blocks: seq<ByteBlock>
    /** The in-memory inodes, and the copies of them in the inode blocks. */
    var inodes: map<nat, Inode>
    var dinodes: map<nat, Inode>
    /** The blocks given to log_write since begin_op. */
    var logged: set<nat>
    /** The references to each in-memory inode, and those read from the disk since they had any. */
    var refs: map<nat, nat>
    var loaded: set<nat>
    ghost var owner: map<nat, (nat, nat)>
    /** The disk and where its log is, and what blocks and inodes were at begin_op. */
    ghost const area: Layout
    ghost var disk: Image
    ghost var begun: Fs

    ghost function State(): Fs
      reads this
    {
      Fs(blocks, inodes)
    }

    /** What commits bring to the disk. */
    ghost function Kept(): Fs
      reads this
    {
      Fs(blocks, dinodes)
    }

    /** The files are in order, and log_write was given every block changed since begin_op. */
    ghost predicate Valid()
      reads this
    {
      Good(sb, State(), owner) && Noted(sb, begun, Kept(), logged)
    }

    /** Between transactions all changes are on the disk. */
    ghost predicate Quiet()
      reads this
    {
      dinodes == inodes && Saved(sb, area, disk, Kept())
    }

    constructor (super: Superblock, image: seq<ByteBlock>, table: map<nat, Inode>, ghost holders: map<nat, (nat, nat)>,
                 ghost log: Layout, ghost platter: Image)
      requires Good(super, Fs(image, table), holders) && Saved(super, log, platter, Fs(image, table))
      ensures Valid() && Quiet() && sb == super && blocks == image && inodes == table && owner == holders
      ensures area == log && disk == platter && refs == map[] && loaded == {}
    {
      sb, blocks, inodes, dinodes, logged, owner := super, image, table, table, {}, holders;
      refs, loaded := map[], {};
      area, disk, begun := log, platter, Fs(image, table);
    }

    ghost function Free(): set<nat>
      requires sb.Ok() && |blocks| == sb.size
      reads this
    {
      FreeBlocks(sb, blocks)
    }

    method Bzero(b: nat)
      requires b < |blocks|
      modifies this`blocks, this`logged
      ensures blocks == old(blocks)[b := Zeroes()] && logged == old(logged) + {b}
    {
      blocks := blocks[b := Zeroes()];
      logged := logged + {b};
    }

    /** Allocate the lowest free block, zeroed; without one the kernel stops ("out of blocks"). */
    method Balloc() returns (a: nat)
      requires sb.Ok() && |blocks| == sb.size && Free() != {}
      modifies this`blocks, this`logged
      ensures a < sb.size && !Used(sb, old(blocks), a)
      ensures forall c :: 0 <= c < a ==> Used(sb, old(blocks), c)
      ensures blocks == Allocated(sb, old(blocks), a)
      ensures logged == old(logged) + {sb.BitmapBlock(a), a}
    {
      hide Used;
      ghost var f :| f in Free();
      var b := 0;
      while b < sb.size
        invariant b % BPB == 0
        invariant blocks == old(blocks) && logged == old(logged)
        invariant forall c :: 0 <= c < b && c < sb.size ==> Used(sb, blocks, c)
      {
        var bi := FirstClear(b);
        if bi < BPB && b + bi < sb.size {
          var data := blocks[sb.BitmapBlock(b)];
          data := data[bi / 8 := PutByteBit(data[bi / 8], bi % 8, true)];
          BitPosition(b, bi);
          blocks := blocks[sb.BitmapBlock(b) := data];
          logged := logged + {sb.BitmapBlock(b)};
          Bzero(b + bi);
          return b + bi;
        }
        b := b + BPB;
      }
      assert false;
    }

    /** balloc's inner loop: the first clear bit of the free map block that starts with block b's. */
    method FirstClear(b: nat) returns (bi: nat)
      requires sb.Ok() && |blocks| == sb.size && b < sb.size && b % BPB == 0
      ensures bi <= BPB && (bi < BPB && b + bi < sb.size ==> !Used(sb, blocks, b + bi))
      ensures forall c :: b <= c < b + bi && c < sb.size ==> Used(sb, blocks, c)
    {
      bi := 0;
      while bi < BPB && b + bi < sb.size
        invariant 0 <= bi <= BPB
        invariant forall c :: b <= c < b + bi && c < sb.size ==> Used(sb, blocks, c)
      {
        BitPosition(b, bi);
        var data := blocks[sb.BitmapBlock(b)];
        if !Bit(data[bi / 8], bi % 8) {
          return;
        }
        bi := bi + 1;
      }
    }

    lemma BitPosition(b: nat, bi: nat)
      requires b % BPB == 0 && bi < BPB
      ensures (b + bi) / BPB == b / BPB && (b + bi) % BPB == bi && (b + bi) % 8 == bi % 8
    {
      var q := b / BPB;
      assert b + bi == BPB * q + bi;
      EightsAside(1024 * q, bi);
    }

    /** Clear a set bit; a clear one stops the kernel ("freeing free block"). */
    method Bfree(b: nat)
      requires sb.Ok() && |blocks| == sb.size && b < sb.size && Used(sb, blocks, b)
      modifies this`blocks, this`logged
      ensures blocks == Mark(sb, old(blocks), b, false)
      ensures logged == old(logged) + {sb.BitmapBlock(b)}
    {
      var data := blocks[sb.BitmapBlock(b)];
      var bi := b % BPB;
      data := data[bi / 8 := PutByteBit(data[bi / 8], bi % 8, false)];
      Eighth(b);
      blocks := blocks[sb.BitmapBlock(b) := data];
      logged := logged + {sb.BitmapBlock(b)};
    }

    /** balloc for pointer slot of file i, stored there at once. */
    method AllocFor(i: nat, slot: nat) returns (a: nat)
      requires Valid() && i in inodes && slot < SLOTS && Ptr(sb, State(), i, slot) == 0
      requires slot > NDIRECT ==> inodes[i].addrs[NDIRECT] != 0
      requires Free() != {}
      modifies this`blocks, this`inodes, this`logged, this`owner
      ensures Valid() && Patched(sb, old(State()), State(), i, 0, [])
      ensures i in inodes && inodes == old(inodes)[i := inodes[i]]
      ensures sb.datastart <= a < sb.size && a in old(Free()) && Free() == old(Free()) - {a}
      ensures forall j, k :: j in inodes && 0 <= k < SLOTS ==>
                Ptr(sb, State(), j, k) == if j == i && k == slot then a else Ptr(sb, old(State()), j, k)
      ensures logged == old(logged) + {sb.BitmapBlock(a), a} +
                        (if slot > NDIRECT then {inodes[i].addrs[NDIRECT]} else {})
    {
      hide Noted;
      hide Owned;
      hide MapOk;
      hide Filled;
      hide Ptr;
      hide Patched;
      hide FreeBlocks;
      hide Used;
      hide Allocated;
      ghost var fs, own := State(), owner;
      ghost var kept, was := Kept(), logged;
      a := Balloc();
      FreeIsData(sb, fs, own, a);
      NotedAlloc(sb, begun, kept, was, a);
      if slot <= NDIRECT {
        inodes := inodes[i := inodes[i].(addrs := inodes[i].addrs[slot := a])];
      } else {
        var bp := inodes[i].addrs[NDIRECT];
        PointersOf(sb, fs, i, NDIRECT);
        OwnedInRange(sb, fs, own, i, NDIRECT);
        NotedBlock(sb, begun, Kept(), logged, bp, PutWord(blocks[bp], slot - NDIRECT - 1, a));
        blocks := blocks[bp := PutWord(blocks[bp], slot - NDIRECT - 1, a)];
        logged := logged + {bp};
      }
      owner := owner[a := (i, slot)];
      assert State() == Attached(sb, fs, i, slot, a);
      AttachedFacts(sb, fs, own, i, slot, a);
    }

    /**
     * The block number of file i's bn-th block, allocating it, and first the indirect block, if
     * missing; past MAXFILE the kernel stops ("bmap: out of range"). bits is the set of free map
     * blocks logged.
     */
    method Bmap(i: nat, bn: nat) returns (addr: nat, ghost bits: set<nat>)
      requires Valid() && i in inodes && bn < MAXFILE && |Free()| >= Missing(sb, State(), i, bn)
      modifies this`blocks, this`inodes, this`logged, this`owner
      ensures Valid() && Patched(sb, old(State()), State(), i, 0, []) && i in inodes
      ensures inodes == old(inodes)[i := inodes[i]]
      ensures addr != 0 && addr == Ptr(sb, State(), i, DataSlot(bn))
      ensures bn >= NDIRECT ==> inodes[i].addrs[NDIRECT] != 0
      ensures forall j, k :: j in inodes && 0 <= k < SLOTS && (j != i || (k != DataSlot(bn) && k != NDIRECT)) ==>
                Ptr(sb, State(), j, k) == Ptr(sb, old(State()), j, k)
      ensures bn < NDIRECT || old(inodes)[i].addrs[NDIRECT] != 0 ==>
                inodes[i].addrs[NDIRECT] == old(inodes)[i].addrs[NDIRECT]
      ensures Free() <= old(Free()) && |Free()| == |old(Free())| - old(Missing(sb, State(), i, bn))
      ensures |bits| <= old(Missing(sb, State(), i, bn))
      ensures logged == old(logged) + bits +
                        (if old(Ptr(sb, State(), i, DataSlot(bn))) != 0 then {}
                         else if bn < NDIRECT then {addr} else {addr, inodes[i].addrs[NDIRECT]})
      ensures old(Missing(sb, State(), i, bn)) == 0 ==> State() == old(State())
    {
      hide Noted;
      hide Owned;
      hide MapOk;
      hide Filled;
      hide Ptr;
      hide FreeBlocks;
      hide Patched;
      hide ByteAt;
      StoredPointers(i, DataSlot(bn));
      if bn < NDIRECT {
        addr, bits := LoadDirect(i, bn);
        return;
      }
      ghost var fs := State();
      bits := LoadIndirect(i);
      ghost var mid := State();
      ghost var more;
      addr, more := LoadEntry(i, bn);
      PatchedJoin(sb, fs, mid, State(), i, 0, []);
      UnionSize(bits, more);
      bits := bits + more;
    }

    /** bmap's second step past the direct blocks: an entry of the indirect block. */
    method LoadEntry(i: nat, bn: nat) returns (addr: nat, ghost bits: set<nat>)
      requires Valid() && i in inodes && NDIRECT <= bn < MAXFILE && inodes[i].addrs[NDIRECT] != 0
      requires Ptr(sb, State(), i, bn + 1) == 0 ==> Free() != {}
      modifies this`blocks, this`inodes, this`logged, this`owner
      ensures Valid() && Patched(sb, old(State()), State(), i, 0, []) && inodes[i].addrs[NDIRECT] == old(inodes)[i].addrs[NDIRECT]
      ensures addr != 0 && addr == Ptr(sb, State(), i, bn + 1)
      ensures inodes == old(inodes)[i := inodes[i]]
      ensures forall j, k :: j in inodes && 0 <= k < SLOTS && (j != i || k != bn + 1) ==>
                Ptr(sb, State(), j, k) == Ptr(sb, old(State()), j, k)
      ensures if old(Ptr(sb, State(), i, bn + 1)) != 0 then
                State() == old(State()) && bits == {} && logged == old(logged)
              else
                && Free() <= old(Free()) && |Free()| == |old(Free())| - 1
                && |bits| == 1 && logged == old(logged) + bits + {addr, inodes[i].addrs[NDIRECT]}
    {
      hide Noted;
      hide Good;
      hide Ptr;
      hide Patched;
      hide FreeBlocks;
      bits := {};
      StoredPointers(i, bn + 1);
      NothingPatched(sb, State(), i, 0);
      addr := inodes[i].addrs[NDIRECT];
      addr := Word(blocks[addr], bn - NDIRECT);
      if addr == 0 {
        ghost var ib := inodes[i].addrs[NDIRECT];
        addr := AllocFor(i, bn + 1);
        bits := {sb.BitmapBlock(addr)};
        assert inodes[i].addrs[NDIRECT] == ib by { StoredPointers(i, NDIRECT); }
      }
    }

    /** Where a file's pointers are kept. */
    lemma StoredPointers(i: nat, k: nat)
      requires Valid() && i in inodes && k < SLOTS
      ensures Shaped(sb, State()) && |inodes[i].addrs| == NDIRECT + 1
      ensures inodes[i].addrs[NDIRECT] < |blocks|
      ensures inodes[i].addrs[NDIRECT] == Ptr(sb, State(), i, NDIRECT)
      ensures Ptr(sb, State(), i, k) ==
              if k <= NDIRECT then inodes[i].addrs[k]
              else if inodes[i].addrs[NDIRECT] == 0 then 0
              else Word(blocks[inodes[i].addrs[NDIRECT]], k - NDIRECT - 1)
    {
    }

    /** bmap on a direct block. */
    method LoadDirect(i: nat, bn: nat) returns (addr: nat, ghost bits: set<nat>)
      requires Valid() && i in inodes && bn < NDIRECT
      requires Ptr(sb, State(), i, bn) == 0 ==> Free() != {}
      modifies this`blocks, this`inodes, this`logged, this`owner
      ensures Valid() && Patched(sb, old(State()), State(), i, 0, [])
      ensures addr != 0 && addr == Ptr(sb, State(), i, bn)
      ensures inodes == old(inodes)[i := inodes[i]]
      ensures inodes[i].addrs[NDIRECT] == old(inodes)[i].addrs[NDIRECT]
      ensures forall j, k :: j in inodes && 0 <= k < SLOTS && (j != i || k != bn) ==>
                Ptr(sb, State(), j, k) == Ptr(sb, old(State()), j, k)
      ensures if old(Ptr(sb, State(), i, bn)) != 0 then
                State() == old(State()) && bits == {} && logged == old(logged)
              else
                && Free() <= old(Free()) && |Free()| == |old(Free())| - 1
                && |bits| == 1 && logged == old(logged) + bits + {addr}
    {
      hide Noted;
      hide Good;
      hide Ptr;
      hide Patched;
      hide FreeBlocks;
      bits := {};
      StoredPointers(i, bn);
      NothingPatched(sb, State(), i, 0);
      addr := inodes[i].addrs[bn];
      if addr == 0 {
        ghost var ib := inodes[i].addrs[NDIRECT];
        StoredPointers(i, NDIRECT);
        addr := AllocFor(i, bn);
        bits := {sb.BitmapBlock(addr)};
        assert inodes[i].addrs[NDIRECT] == ib by { StoredPointers(i, NDIRECT); }
      }
    }

    /** bmap's first step past the direct blocks. */
    method LoadIndirect(i: nat) returns (ghost bits: set<nat>)
      requires Valid() && i in inodes
      requires inodes[i].addrs[NDIRECT] == 0 ==> Free() != {}
      modifies this`blocks, this`inodes, this`logged, this`owner
      ensures Valid() && Patched(sb, old(State()), State(), i, 0, []) && inodes[i].addrs[NDIRECT] != 0
      ensures inodes == old(inodes)[i := inodes[i]]
      ensures forall j, k :: j in inodes && 0 <= k < SLOTS && (j != i || k != NDIRECT) ==>
                Ptr(sb, State(), j, k) == Ptr(sb, old(State()), j, k)
      ensures if old(inodes)[i].addrs[NDIRECT] != 0 then
                State() == old(State()) && bits == {} && logged == old(logged)
              else
                && Free() <= old(Free()) && |Free()| == |old(Free())| - 1
                && |bits| == 1 && logged == old(logged) + bits + {inodes[i].addrs[NDIRECT]}
    {
      hide Noted;
      hide Good;
      hide Ptr;
      hide Patched;
      hide FreeBlocks;
      bits := {};
      StoredPointers(i, NDIRECT);
      NothingPatched(sb, State(), i, 0);
      if inodes[i].addrs[NDIRECT] == 0 {
        var addr := AllocFor(i, NDIRECT);
        bits := {sb.BitmapBlock(addr)};
        StoredPointers(i, NDIRECT);
      }
    }

    /** The copy into one block, at byte o of it, and its log_write. */
    method Fill(i: nat, bn: nat, addr: nat, o: nat, chunk: seq<byte>)
      requires Valid() && i in inodes && bn < MAXFILE
      requires addr != 0 && addr == Ptr(sb, State(), i, DataSlot(bn))
      requires o + |chunk| <= BSIZE
      modifies this`blocks, this`logged
      ensures Valid() && Patched(sb, old(State()), State(), i, bn * BSIZE + o, chunk) && inodes == old(inodes)
      ensures logged == old(logged) + {addr} && Free() == old(Free())
      ensures forall j, k :: j in inodes && 0 <= k < SLOTS ==>
                Ptr(sb, State(), j, k) == Ptr(sb, old(State()), j, k)
    {
      hide Noted;
      hide Good;
      hide Ptr;
      hide Patched;
      hide FreeBlocks;
      ghost var fs := State();
      StoredPatched(sb, fs, owner, i, bn, o, chunk);
      var data := Overwritten(blocks[addr], o, chunk);
      StoredGood(sb, fs, owner, i, bn, data);
      forall j, k | j in inodes && 0 <= k < SLOTS
        ensures Shaped(sb, Stored(fs, addr, data)) && Ptr(sb, Stored(fs, addr, data), j, k) == Ptr(sb, fs, j, k)
      {
        StoredPtr(sb, fs, owner, i, bn, data, j, k);
      }
      OwnedInRange(sb, fs, owner, i, DataSlot(bn));
      GoodShape(sb, fs, owner);
      NotedBlock(sb, begun, Kept(), logged, addr, data);
      blocks := blocks[addr := data];
      logged := logged + {addr};
    }

    /** One round of writei's loop: find or allocate the block of position pos and copy into it. */
    method WriteBlock(i: nat, pos: nat, chunk: seq<byte>)
        returns (addr: nat, ghost bits: set<nat>, ghost indirect: set<nat>)
      requires Valid() && i in inodes && pos < MAXFILE * BSIZE && pos % BSIZE + |chunk| <= BSIZE
      requires |Free()| >= Missing(sb, State(), i, pos / BSIZE)
      modifies this`blocks, this`inodes, this`logged, this`owner
      ensures Valid() && BlockWritten(sb, old(State()), State(), i, pos, chunk, bits, indirect)
      ensures logged == old(logged) + {addr} + bits + indirect
    {
      hide Noted;
      hide Owned;
      hide MapOk;
      hide Filled;
      hide Ptr;
      hide ByteAt;
      hide FreeBlocks;
      hide Missing;
      ghost var fs := State();
      addr, bits := Bmap(i, pos / BSIZE);
      ghost var mid := State();
      indirect := logged - old(logged) - bits - {addr};
      Fill(i, pos / BSIZE, addr, pos % BSIZE, chunk);
      PatchedJoin(sb, fs, mid, State(), i, pos, chunk);
    }

    /** Copy inode i to its block. */
    method Iupdate(i: nat)
      requires i in inodes && sb.Ok() && i < sb.ninodes && Noted(sb, begun, Kept(), logged)
      modifies this`dinodes, this`logged
      ensures dinodes == old(dinodes)[i := inodes[i]] && logged == old(logged) + {sb.InodeBlock(i)}
      ensures Noted(sb, begun, Kept(), logged)
    {
      NotedInode(sb, begun, Kept(), logged, i, inodes[i]);
      dinodes := dinodes[i := inodes[i]];
      logged := logged + {sb.InodeBlock(i)};
    }

    /** The loop of writei. */
    method WriteAll(i: nat, off: nat, src: seq<byte>) returns (pos: nat, ghost touched: set<nat>)
      requires Valid() && i in inodes && off <= inodes[i].size && off + |src| <= MAXFILE * BSIZE
      requires |Free()| >= ToAllocate(sb, State(), i, off, |src|)
      modifies this`blocks, this`inodes, this`logged, this`owner
      ensures Valid() && Patched(sb, old(State()), State(), i, off, src) && i in inodes
      ensures inodes == old(inodes)[i := inodes[i]]
      ensures pos == off + |src| && FilledTo(sb, State(), i, pos)
      ensures Extended(sb, old(State()), State(), i, off / BSIZE, EndBlock(off, |src|))
      ensures |Free()| == |old(Free())| - old(ToAllocate(sb, State(), i, off, |src|))
      ensures logged == old(logged) + touched
      ensures |touched| <= Span(off, |src|) + old(ToAllocate(sb, State(), i, off, |src|)) + 1
    {
      hide Noted;
      hide Owned;
      hide MapOk;
      hide Filled;
      hide Ptr;
      hide ByteAt;
      hide FreeBlocks;
      hide Missing;
      hide Progress;
      hide ToAllocate;
      hide BlockWritten;
      ghost var fs := State();
      ghost var data: set<nat>, bits: set<nat>, indirect: set<nat> := {}, {}, {};
      var tot := 0;
      pos := off;
      ProgressStart(sb, fs, owner, i, off, src);
      while tot < |src|
        invariant 0 <= tot <= |src| && pos == off + tot
        invariant Valid() && Progress(sb, fs, State(), i, off, src, tot, data, bits, indirect)
        invariant logged == old(logged) + data + bits + indirect
        decreases |src| - tot
      {
        var m := if |src| - tot < BSIZE - pos % BSIZE then |src| - tot else BSIZE - pos % BSIZE;
        ghost var was := State();
        ProgressRoom(sb, fs, was, i, off, src, tot, m, data, bits, indirect);
        var addr, more, ind := WriteBlock(i, pos, src[tot..tot + m]);
        ProgressStep(sb, fs, was, State(), i, off, src, tot, m, data, bits, indirect, addr, more, ind);
        tot, pos := tot + m, pos + m;
        data, bits, indirect := data + {addr}, bits + more, indirect + ind;
      }
      touched := data + bits + indirect;
      ProgressEnd(sb, fs, State(), i, off, src, data, bits, indirect);
    }

    /** Write src at offset off of file i, whose inode is locked; the blocks taken are those missing. */
    method Writei(i: nat, off: nat, src: seq<byte>) returns (r: int, ghost touched: set<nat>)
      requires Valid() && i in inodes && IsWord(off) && IsWord(|src|)
      requires !Refused(inodes[i].size, off, |src|) ==> |Free()| >= ToAllocate(sb, State(), i, off, |src|)
      modifies this`blocks, this`inodes, this`dinodes, this`logged, this`owner
      ensures Valid() && i in inodes && logged == old(logged) + touched
      ensures r == -1 <==> off > old(inodes)[i].size || off + |src| > MAXFILE * BSIZE
      ensures if Refused(old(inodes)[i].size, off, |src|) then
                r == -1 && State() == old(State()) && dinodes == old(dinodes) && touched == {}
              else
                && r == |src| && Written(sb, old(State()), State(), i, off, src)
                && dinodes == old(dinodes)[i := inodes[i]]
                && |Free()| == |old(Free())| - old(ToAllocate(sb, State(), i, off, |src|))
                && |touched| <= Span(off, |src|) + old(ToAllocate(sb, State(), i, off, |src|)) + 2
    {
      hide Noted;
      hide Owned;
      hide MapOk;
      hide Filled;
      hide Ptr;
      hide FreeBlocks;
      hide ToAllocate;
      hide Patched;
      hide Extended;
      hide FilledTo;
      hide Written;
      touched := {};
      if off > inodes[i].size || (off + |src|) % 0x1_0000_0000 < off {
        return -1, {};
      }
      if (off + |src|) % 0x1_0000_0000 > MAXFILE * BSIZE {
        return -1, {};
      }
      ghost var fs := State();
      var pos;
      pos, touched := WriteAll(i, off, src);
      ghost var mid := State();
      ResizedWritten(sb, fs, mid, owner, i, off, src);
      if pos > inodes[i].size {
        inodes := inodes[i := inodes[i].(size := pos)];
      }
      assert State() == Resized(mid, i, Larger(pos, mid.inodes[i].size));
      Iupdate(i);
      UnionSize(touched, {sb.InodeBlock(i)});
      touched := touched + {sb.InodeBlock(i)};
      r := |src|;
    }

    /** Read n bytes at off of file i, or as many as there are: exactly its contents there. */
    method Readi(i: nat, off: nat, n: nat) returns (r: int, dst: seq<byte>)
      requires Valid() && i in inodes && IsWord(off) && IsWord(n)
      modifies this`blocks, this`inodes, this`logged, this`owner
      ensures Valid() && State() == old(State()) && logged == old(logged) && r == |dst|
      ensures var size := old(inodes)[i].size;
              dst == if off > size || (off + n) % 0x1_0000_0000 < off then []
                     else old(FileBytes(sb, State(), i))[off..if off + n < size then off + n else size]
    {
      hide Noted;
      hide Owned;
      hide MapOk;
      hide Filled;
      hide Ptr;
      hide FreeBlocks;
      hide FileBytes;
      hide Missing;
      hide Patched;
      dst := [];
      if off > inodes[i].size || (off + n) % 0x1_0000_0000 < off {
        return 0, dst;
      }
      var want := n;
      if off + n > inodes[i].size {
        want := inodes[i].size - off;
      }
      ghost var all := FileBytes(sb, State(), i);
      var tot, pos := 0, off;
      while tot < want
        invariant 0 <= tot <= want && pos == off + tot && off + want <= |all|
        invariant Valid() && State() == old(State()) && logged == old(logged)
        invariant dst == all[off..pos]
      {
        var m := if want - tot < BSIZE - pos % BSIZE then want - tot else BSIZE - pos % BSIZE;
        BlockBytes(sb, State(), owner, i, pos, m);
        var addr, bits := Bmap(i, pos / BSIZE);
        assert bits == {};
        assert all[off..pos] + all[pos..pos + m] == all[off..pos + m];
        dst := dst + blocks[addr][pos % BSIZE..pos % BSIZE + m];
        tot, pos := tot + m, pos + m;
      }
      r := tot;
    }

    /**
     * Discard the contents of file i, whose inode is locked. Each block it owned is freed once, so
     * bfree's "freeing free block" is never reached.
     */
    method Itrunc(i: nat)
      requires Valid() && i in inodes
      modifies this`blocks, this`inodes, this`dinodes, this`logged, this`owner
      ensures Valid() && inodes == old(inodes)[i := old(inodes)[i].(size := 0, addrs := NO_ADDRS)]
      ensures dinodes == old(dinodes)[i := inodes[i]]
      ensures old(BlocksOf(sb, State(), i)) !! old(Free()) && Free() == old(Free()) + old(BlocksOf(sb, State(), i))
      ensures BlocksOf(sb, State(), i) == {} && FileBytes(sb, State(), i) == []
      ensures forall j :: j in inodes && j != i ==> FileBytes(sb, State(), j) == old(FileBytes(sb, State(), j))
      ensures forall c :: c in logged && c !in old(logged) ==>
                c == sb.InodeBlock(i) || sb.bmapstart <= c < sb.datastart
    {
      hide Noted;
      hide Owned;
      hide MapOk;
      hide Filled;
      hide Ptr;
      hide Used;
      hide Cleared;
      hide ClearedFor;
      hide FileBytes;
      hide BlocksOf;
      hide FreeBlocks;
      ghost var fs, own := State(), owner;
      ghost var slots := TruncDirect(i);
      TruncIndirect(i, fs, own, slots);
      inodes := inodes[i := inodes[i].(size := 0)];
      Iupdate(i);
      owner := Disowned(own, i);
      assert State() == Emptied(fs, i, blocks);
      EmptiedFacts(sb, fs, own, i, blocks);
    }

    ghost predicate OnlyMap(was: set<nat>)
      reads this`logged
    {
      forall c :: c in logged && c !in was ==> sb.bmapstart <= c < sb.datastart
    }

    /** itrunc's first loop; slots are the pointers dealt with. */
    method TruncDirect(i: nat) returns (ghost slots: set<nat>)
      requires Valid() && i in inodes
      modifies this`blocks, this`inodes, this`logged
      ensures i in inodes && inodes == old(inodes)[i := old(inodes)[i].(addrs := inodes[i].addrs)]
      ensures |inodes[i].addrs| == |old(inodes)[i].addrs| == NDIRECT + 1
      ensures forall j :: 0 <= j < NDIRECT ==> inodes[i].addrs[j] == 0
      ensures inodes[i].addrs[NDIRECT] == old(inodes)[i].addrs[NDIRECT]
      ensures Cleared(sb, old(State()), owner, i, slots, blocks) && |blocks| == sb.size
      ensures forall j: nat :: j in slots <==> j < NDIRECT
      ensures OnlyMap(old(logged)) && Noted(sb, begun, Kept(), logged)
    {
      hide Noted;
      hide Good;
      hide Mark;
      hide Ptr;
      hide Used;
      hide Cleared;
      ghost var fs := State();
      GoodShape(sb, fs, owner);
      slots := {};
      ClearedNothing(sb, fs, owner, i);
      var k := 0;
      while k < NDIRECT
        invariant 0 <= k <= NDIRECT && |blocks| == sb.size && i in inodes && |inodes[i].addrs| == NDIRECT + 1
        invariant inodes == fs.inodes[i := fs.inodes[i].(addrs := inodes[i].addrs)]
        invariant forall j :: 0 <= j <= NDIRECT ==> inodes[i].addrs[j] == if j < k then 0 else fs.inodes[i].addrs[j]
        invariant Cleared(sb, fs, owner, i, slots, blocks) && forall j: nat :: j in slots <==> j < k
        invariant OnlyMap(old(logged)) && Noted(sb, begun, Kept(), logged)
      {
        PointersOf(sb, fs, i, k);
        ClearedStep(sb, fs, owner, i, slots, blocks, k);
        if inodes[i].addrs[k] != 0 {
          BitmapRange(sb, inodes[i].addrs[k]);
          NotedMark(sb, begun, Kept(), logged, inodes[i].addrs[k], false);
          Bfree(inodes[i].addrs[k]);
          inodes := inodes[i := inodes[i].(addrs := inodes[i].addrs[k := 0])];
        }
        slots := slots + {k};
        k := k + 1;
      }
    }

    /** The rest of itrunc: the entries of the indirect block, then that block. */
    method TruncIndirect(i: nat, ghost fs: Fs, ghost own: map<nat, (nat, nat)>, ghost done: set<nat>)
      requires Good(sb, fs, own) && i in fs.inodes && |blocks| == sb.size && i in inodes
      requires |inodes[i].addrs| == NDIRECT + 1 && inodes == fs.inodes[i := fs.inodes[i].(addrs := inodes[i].addrs)]
      requires forall j :: 0 <= j < NDIRECT ==> inodes[i].addrs[j] == 0
      requires inodes[i].addrs[NDIRECT] == fs.inodes[i].addrs[NDIRECT]
      requires Cleared(sb, fs, own, i, done, blocks) && forall j: nat :: j in done <==> j < NDIRECT
      requires Noted(sb, begun, Kept(), logged)
      modifies this`blocks, this`inodes, this`logged
      ensures inodes == fs.inodes[i := fs.inodes[i].(addrs := NO_ADDRS)]
      ensures ClearedFor(sb, fs, own, i, blocks)
      ensures OnlyMap(old(logged)) && Noted(sb, begun, Kept(), logged)
    {
      hide Noted;
      hide Good;
      hide Mark;
      hide Ptr;
      hide Used;
      hide Cleared;
      hide ClearedFor;
      GoodShape(sb, fs, own);
      ghost var slots: set<nat> := done;
      var bp := inodes[i].addrs[NDIRECT];
      PointersOf(sb, fs, i, NDIRECT);
      if bp != 0 {
        OwnedInRange(sb, fs, own, i, NDIRECT);
        var j := 0;
        while j < NINDIRECT
          invariant 0 <= j <= NINDIRECT && |blocks| == sb.size && inodes == old(inodes)
          invariant Cleared(sb, fs, own, i, slots, blocks)
          invariant forall k: nat :: k in slots <==> k < NDIRECT || NDIRECT < k <= NDIRECT + j
          invariant OnlyMap(old(logged)) && Noted(sb, begun, Kept(), logged)
        {
          ClearedData(sb, fs, own, i, slots, blocks, bp);
          PointersOf(sb, fs, i, j + NDIRECT + 1);
          ClearedStep(sb, fs, own, i, slots, blocks, j + NDIRECT + 1);
          var a := Word(blocks[bp], j);
          if a != 0 {
            BitmapRange(sb, a);
            NotedMark(sb, begun, Kept(), logged, a, false);
            Bfree(a);
          }
          slots := slots + {j + NDIRECT + 1};
          j := j + 1;
        }
        ClearedStep(sb, fs, own, i, slots, blocks, NDIRECT);
        BitmapRange(sb, bp);
        NotedMark(sb, begun, Kept(), logged, bp, false);
        Bfree(bp);
        inodes := inodes[i := inodes[i].(addrs := inodes[i].addrs[NDIRECT := 0])];
        slots := slots + {NDIRECT};
      } else {
        NoIndirect(sb, fs, i);
      }
      assert inodes[i].addrs == NO_ADDRS;
      ClearedAll(sb, fs, own, i, slots, blocks);
    }

    /**
     * Drop a reference to inode i. The last reference to a file without links frees the file: its
     * blocks, and on the disk its inode.
     */
    method Iput(i: nat)
      requires Valid() && i in inodes && i in refs && refs[i] >= 1
      modifies this`blocks, this`inodes, this`dinodes, this`logged, this`owner, this`refs, this`loaded
      ensures Valid() && refs == old(refs)[i := old(refs)[i] - 1] && inodes.Keys == old(inodes).Keys
      ensures forall j :: j in inodes && j != i ==>
                inodes[j] == old(inodes)[j] && FileBytes(sb, State(), j) == old(FileBytes(sb, State(), j))
      ensures if old(refs)[i] == 1 && i in old(loaded) && old(inodes)[i].nlink == 0 then
                && old(BlocksOf(sb, State(), i)) !! old(Free()) && Free() == old(Free()) + old(BlocksOf(sb, State(), i))
                && i in inodes && BlocksOf(sb, State(), i) == {}
                && inodes[i].kind == 0 && dinodes == old(dinodes)[i := inodes[i]] && loaded == old(loaded) - {i}
              else State() == old(State()) && dinodes == old(dinodes) && loaded == old(loaded)
    {
      hide Noted;
      hide Good;
      hide FileBytes;
      hide BlocksOf;
      hide FreeBlocks;
      GoodShape(sb, State(), owner);
      if refs[i] == 1 && i in loaded && inodes[i].nlink == 0 {
        FreeFile(i);
        loaded := loaded - {i};
      }
      refs := refs[i := refs[i] - 1];
    }

    /** The branch of iput that frees file i: its blocks, and its inode in memory and on the disk. */
    method FreeFile(i: nat)
      requires Valid() && i in inodes
      modifies this`blocks, this`inodes, this`dinodes, this`logged, this`owner
      ensures Valid() && inodes.Keys == old(inodes).Keys && Shaped(sb, State())
      ensures inodes == old(inodes)[i := inodes[i]] && inodes[i].kind == 0 && dinodes == old(dinodes)[i := inodes[i]]
      ensures forall j :: j in inodes && j != i ==> FileBytes(sb, State(), j) == old(FileBytes(sb, State(), j))
      ensures old(BlocksOf(sb, State(), i)) !! old(Free()) && Free() == old(Free()) + old(BlocksOf(sb, State(), i))
      ensures BlocksOf(sb, State(), i) == {}
    {
      hide Noted;
      hide Owned;
      hide MapOk;
      hide Filled;
      hide Ptr;
      hide FileBytes;
      hide BlocksOf;
      hide FreeBlocks;
      Itrunc(i);
      ghost var fs := State();
      inodes := inodes[i := inodes[i].(kind := 0)];
      assert State() == Retyped(fs, i, 0);
      RetypedGood(sb, fs, owner, i, 0);
      Iupdate(i);
    }

    /** One reference more to inode i; what memory holds of it is stale if it had none. */
    method Iget(i: nat)
      requires Valid() && i in inodes
      modifies this`refs, this`loaded
      ensures Valid() && refs == old(refs)[i := if i in old(refs) then old(refs)[i] + 1 else 1]
      ensures loaded == if i in old(refs) && old(refs)[i] > 0 then old(loaded) else old(loaded) - {i}
    {
      if i in refs && refs[i] > 0 {
        refs := refs[i := refs[i] + 1];
      } else {
        refs := refs[i := 1];
        loaded := loaded - {i};
      }
    }

    /**
     * Read inode i from the disk if that was not done since it was first referenced; a free one
     * stops the kernel ("ilock: no type"). The map inodes tells what the disk holds of the others.
     */
    method Ilock(i: nat)
      requires Valid() && i in inodes && i in refs && refs[i] >= 1
      requires i !in loaded ==> i in dinodes && dinodes[i] == inodes[i] && inodes[i].kind != 0
      modifies this`inodes, this`loaded
      ensures Valid() && State() == old(State()) && loaded == old(loaded) + {i}
    {
      if i !in loaded {
        inodes := inodes[i := dinodes[i]];
        assert inodes == old(inodes);
        loaded := loaded + {i};
      }
    }

    method BeginOp()
      requires Valid()
      modifies this`logged, this`begun
      ensures Valid() && logged == {} && begun == Kept()
    {
      NothingNoted(sb, Kept());
      logged := {};
      begun := Kept();
    }

    /**
     * The last operation to end commits. It may end only if it kept to the log space begin_op
     * reserved for it; cut anywhere, the commit leaves the disk standing for what was or what is.
     */
    method EndOp() returns (ghost ws: seq<Write>)
      requires Valid() && |logged| <= MAXOPBLOCKS && dinodes == inodes && Saved(sb, area, disk, begun)
      modifies this`disk
      ensures Valid() && Quiet() && IsCommit(sb, area, old(disk), Kept(), logged, ws) && disk == Apply(old(disk), ws)
      ensures forall n :: 0 <= n <= |ws| ==> Either(sb, area, Apply(old(disk), ws[..n]), begun, Kept())
    {
      hide Noted;
      hide Holds;
      hide CommitWrites;
      hide Either;
      GoodShape(sb, State(), owner);
      ghost var ts := Listing(logged);
      CommitCut(sb, area, disk, begun, Kept(), logged, ts, 0);
      ws := CommitWrites(area, disk[area.start], ts, Values(sb, disk, Kept(), ts));
      forall n | 0 <= n <= |ws| ensures Either(sb, area, Apply(disk, ws[..n]), begun, Kept()) {
        CommitCut(sb, area, disk, begun, Kept(), logged, ts, n);
      }
      CommitCut(sb, area, disk, begun, Kept(), logged, ts, |ws|);
      disk := Apply(disk, ws);
    }

    /** One transaction of filewrite. */
    method WriteChunk(i: nat, off: nat, chunk: seq<byte>) returns (r: int, ghost ws: seq<Write>)
      requires Valid() && Quiet() && i in inodes && IsWord(off) && |chunk| <= CHUNK
      requires i in refs && refs[i] >= 1 && (i !in loaded ==> inodes[i].kind != 0)
      requires !Refused(inodes[i].size, off, |chunk|) ==> |Free()| >= ToAllocate(sb, State(), i, off, |chunk|)
      modifies this`blocks, this`inodes, this`dinodes, this`logged, this`owner, this`loaded, this`begun, this`disk
      ensures Valid() && Quiet() && i in inodes && i in loaded
      ensures if Refused(old(inodes)[i].size, off, |chunk|) then r == -1 && State() == old(State())
              else
                && r == |chunk| && Written(sb, old(State()), State(), i, off, chunk)
                && |Free()| == |old(Free())| - old(ToAllocate(sb, State(), i, off, |chunk|))
      ensures |logged| <= MAXOPBLOCKS && IsCommit(sb, area, old(disk), State(), logged, ws)
      ensures disk == Apply(old(disk), ws)
      ensures forall n :: 0 <= n <= |ws| ==> Either(sb, area, Apply(old(disk), ws[..n]), old(State()), State())
    {
      hide Noted;
      hide Holds;
      hide Owned;
      hide MapOk;
      hide Ptr;
      hide FreeBlocks;
      hide ToAllocate;
      hide Written;
      hide IsCommit;
      hide Either;
      BeginOp();
      Ilock(i);
      if !Refused(inodes[i].size, off, |chunk|) {
        WriteFits(sb, State(), i, off, |chunk|);
      }
      ghost var fs := State();
      ghost var touched;
      r, touched := Writei(i, off, chunk);
      assert logged == touched;
      if r >= 0 {
        WrittenInodes(sb, fs, State(), i, off, chunk);
      }
      assert dinodes == inodes;
      ws := EndOp();
    }

    /**
     * filewrite on an inode's open file with offset start: the result, the new offset, and the disk
     * writes. Whichever of these a crash cuts off, the disk stands for whole chunks of the write.
     */
    method FileWrite(i: nat, start: nat, src: seq<byte>, n: int) returns (ret: int, off: nat, ghost ws: seq<Write>)
      requires Valid() && Quiet() && i in inodes && IsWord(start) && n <= |src| < 0x8000_0000
      requires i in refs && refs[i] >= 1 && inodes[i].kind != 0
      requires start <= inodes[i].size ==>
                 |Free()| >= ToAllocate(sb, State(), i, start, Accepted(inodes[i].size, start, n))
      modifies this`blocks, this`inodes, this`dinodes, this`logged, this`owner, this`loaded, this`begun, this`disk
      ensures Valid() && Quiet() && i in inodes
      ensures var m := Accepted(old(inodes)[i].size, start, n);
              && ret == (if m == n then n else -1) && off == start + m
              && if start > old(inodes)[i].size then State() == old(State())
                 else && m <= |src| && Spliced(sb, old(State()), State(), i, start, src[..m])
                      && inodes[i].size == Larger(start + m, old(inodes)[i].size)
                      && |Free()| == |old(Free())| - old(ToAllocate(sb, State(), i, start, m))
      ensures start <= old(inodes)[i].size && 0 <= n && start + n <= MAXFILE * BSIZE ==>
                ret == n && off == start + n && Spliced(sb, old(State()), State(), i, start, src[..n])
      ensures start <= old(inodes)[i].size && 0 <= n && start + n > MAXFILE * BSIZE ==>
                ret == -1 && start <= off <= MAXFILE * BSIZE < off + 3072 && (off - start) % 3072 == 0
      ensures n < 0 || (0 < n && start > old(inodes)[i].size) ==> ret == -1 && off == start
      ensures disk == Apply(old(disk), ws)
      ensures CrashSafe(sb, area, old(disk), ws, old(State()), i, start, src, Accepted(old(inodes)[i].size, start, n))
    {
      hide Noted;
      hide Holds;
      hide Owned;
      hide MapOk;
      hide Filled;
      hide Ptr;
      hide FreeBlocks;
      hide ToAllocate;
      hide Spliced;
      hide Written;
      hide ChunksWritten;
      hide WroteChunks;
      hide CrashSafe;
      hide Either;
      hide IsCommit;
      hide Accepted;
      hide Apply;
      ghost var fs, m := State(), Accepted(inodes[i].size, start, n);
      ghost var d := disk;
      AcceptedExactly(inodes[i].size, start, n);
      off := start;
      var k := 0;
      ChunksStart(sb, fs, i, start, src, m);
      ChunksWhole(sb, fs, fs, owner, i, start, src, 0, m);
      SafeAtFirst(sb, area, d, fs, i, start, src, m);
      ws := [];
      ApplyNone(d);
      while k < n
        invariant 0 <= k <= m <= |src| && off == start + k && (k < n ==> k % CHUNK == 0)
        invariant Valid() && Quiet() && i in inodes && (i !in loaded ==> inodes[i].kind != 0)
        invariant ChunksWritten(sb, fs, State(), i, start, src, k, m)
        invariant disk == Apply(d, ws) && CrashSafe(sb, area, d, ws, fs, i, start, src, m)
      {
        var n1 := n - k;
        if n1 > CHUNK {
          n1 := CHUNK;
        }
        ghost var was := State();
        ChunksNext(sb, fs, was, i, start, src, n, k, n1);
        ChunksWhole(sb, fs, was, owner, i, start, src, k, m);
        var r;
        ghost var more;
        r, more := WriteChunk(i, off, src[k..k + n1]);
        ghost var j := if r == n1 then k + n1 else k;
        if r == n1 {
          ChunksStep(sb, fs, was, State(), i, start, src, k, n1, m);
        }
        ChunksWhole(sb, fs, State(), owner, i, start, src, j, m);
        SafeFurther(sb, area, d, ws, more, fs, i, start, src, m, was, k, State(), j);
        ws := ws + more;
        if r > 0 {
          off := off + r;
        }
        if r != n1 {
          break;
        }
        k := k + r;
      }
      ret := if k == n then n else -1;
      ChunksEnd(sb, fs, State(), i, start, src, m);
    }
  }
}
