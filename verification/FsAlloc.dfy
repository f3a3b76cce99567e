/** Giving a free block to a file, and taking all of a file's blocks back. */
module FsAlloc {
  import opened FsLayout
  import opened FsState

  /** The blocks after balloc returned a. */
  function Allocated(sb: Superblock, blocks: seq<ByteBlock>, a: nat): (r: seq<ByteBlock>)
    requires sb.Ok() && |blocks| == sb.size && a < sb.size
    ensures |r| == |blocks|
  {
    Mark(sb, blocks, a, true)[a := Zeroes()]
  }

  /** The file system once pointer slot of file i is the fresh block a. */
  function Attached(sb: Superblock, fs: Fs, i: nat, slot: nat, a: nat): Fs
    requires Shaped(sb, fs) && i in fs.inodes && slot < SLOTS && 0 < a < sb.size
    requires slot > NDIRECT ==> fs.inodes[i].addrs[NDIRECT] != 0
  {
    var blocks := Allocated(sb, fs.blocks, a);
    var ip := fs.inodes[i];
    if slot <= NDIRECT then
      Fs(blocks, fs.inodes[i := ip.(addrs := ip.addrs[slot := a])])
    else
      var ib := ip.addrs[NDIRECT];
      Fs(blocks[ib := PutWord(blocks[ib], slot - NDIRECT - 1, a)], fs.inodes)
  }

  ghost predicate CanAttach(sb: Superblock, fs: Fs, owner: map<nat, (nat, nat)>, i: nat, slot: nat, a: nat) {
    && Good(sb, fs, owner) && i in fs.inodes && slot < SLOTS
    && sb.datastart <= a < sb.size && !Used(sb, fs.blocks, a)
    && Ptr(sb, fs, i, slot) == 0
    && (slot > NDIRECT ==> fs.inodes[i].addrs[NDIRECT] != 0)
  }

  lemma OwnedInRange(sb: Superblock, fs: Fs, owner: map<nat, (nat, nat)>, i: nat, k: nat)
    requires Good(sb, fs, owner) && i in fs.inodes && k < SLOTS && Ptr(sb, fs, i, k) != 0
    ensures sb.datastart <= Ptr(sb, fs, i, k) < sb.size && Used(sb, fs.blocks, Ptr(sb, fs, i, k))
    ensures Ptr(sb, fs, i, k) in owner && owner[Ptr(sb, fs, i, k)] == (i, k)
  {
  }

  lemma FreeIsData(sb: Superblock, fs: Fs, owner: map<nat, (nat, nat)>, a: nat)
    requires Good(sb, fs, owner) && a < sb.size && !Used(sb, fs.blocks, a)
    ensures sb.datastart <= a && a in FreeBlocks(sb, fs.blocks)
  {
    hide Used;
  }

  /** A data block other than the fresh one and the file's indirect block keeps its bytes. */
  lemma AttachedBlock(sb: Superblock, fs: Fs, owner: map<nat, (nat, nat)>, i: nat, slot: nat, a: nat, b: nat)
    requires CanAttach(sb, fs, owner, i, slot, a) && sb.datastart <= b < sb.size
    ensures var t := Attached(sb, fs, i, slot, a);
            && |t.blocks| == |fs.blocks|
            && (b == a ==> t.blocks[b] == Zeroes())
            && (b != a && !(slot > NDIRECT && b == fs.inodes[i].addrs[NDIRECT]) ==> t.blocks[b] == fs.blocks[b])
            && (b != a && slot > NDIRECT && b == fs.inodes[i].addrs[NDIRECT] ==>
                  t.blocks[b] == PutWord(fs.blocks[b], slot - NDIRECT - 1, a))
  {
    MarkKeeps(sb, fs.blocks, a, true, b);
    if slot > NDIRECT {
      OwnedInRange(sb, fs, owner, i, NDIRECT);
      MarkKeeps(sb, fs.blocks, a, true, fs.inodes[i].addrs[NDIRECT]);
    }
  }

  lemma AttachedShaped(sb: Superblock, fs: Fs, owner: map<nat, (nat, nat)>, i: nat, slot: nat, a: nat)
    requires CanAttach(sb, fs, owner, i, slot, a)
    ensures Shaped(sb, Attached(sb, fs, i, slot, a))
  {
  }

  /** Exactly one pointer changes. */
  lemma AttachedPtr(sb: Superblock, fs: Fs, owner: map<nat, (nat, nat)>, i: nat, slot: nat, a: nat, j: nat, k: nat)
    requires CanAttach(sb, fs, owner, i, slot, a) && j in fs.inodes && k < SLOTS
    ensures Shaped(sb, Attached(sb, fs, i, slot, a))
    ensures Ptr(sb, Attached(sb, fs, i, slot, a), j, k) == if j == i && k == slot then a else Ptr(sb, fs, j, k)
  {
    hide Used;
    hide MapOk;
    hide Filled;
    hide Word;
    hide PutWord;
    AttachedShaped(sb, fs, owner, i, slot, a);
    if k > NDIRECT {
      var ib := fs.inodes[j].addrs[NDIRECT];
      if ib != 0 {
        OwnedInRange(sb, fs, owner, j, NDIRECT);
        AttachedBlock(sb, fs, owner, i, slot, a, ib);
        if slot > NDIRECT {
          OwnedInRange(sb, fs, owner, i, NDIRECT);
          PutWordEffect(fs.blocks[ib], slot - NDIRECT - 1, a, k - NDIRECT - 1);
        }
      } else if j == i && slot == NDIRECT {
        AttachedBlock(sb, fs, owner, i, slot, a, a);
        ZeroWords(k - NDIRECT - 1);
      }
    }
  }

  /** No byte of any file changes: the fresh block is zero where the file had nothing. */
  lemma AttachedByte(sb: Superblock, fs: Fs, owner: map<nat, (nat, nat)>, i: nat, slot: nat, a: nat, j: nat, p: nat)
    requires CanAttach(sb, fs, owner, i, slot, a) && j in fs.inodes && p < MAXFILE * BSIZE
    ensures Shaped(sb, Attached(sb, fs, i, slot, a))
    ensures ByteAt(sb, Attached(sb, fs, i, slot, a), j, p) == ByteAt(sb, fs, j, p)
  {
    hide Attached;
    hide MapOk;
    hide Filled;
    var d := DataSlot(p / BSIZE);
    var b := Ptr(sb, fs, j, d);
    AttachedShaped(sb, fs, owner, i, slot, a);
    AttachedPtr(sb, fs, owner, i, slot, a, j, d);
    if j == i && d == slot {
      AttachedBlock(sb, fs, owner, i, slot, a, a);
    } else if b != 0 {
      OwnedInRange(sb, fs, owner, j, d);
      if slot > NDIRECT {
        OwnedInRange(sb, fs, owner, i, NDIRECT);
      }
      AttachedBlock(sb, fs, owner, i, slot, a, b);
    }
  }

  lemma AttachedUsed(sb: Superblock, fs: Fs, owner: map<nat, (nat, nat)>, i: nat, slot: nat, a: nat, b: nat)
    requires CanAttach(sb, fs, owner, i, slot, a) && b < sb.size
    ensures |Attached(sb, fs, i, slot, a).blocks| == sb.size
    ensures Used(sb, Attached(sb, fs, i, slot, a).blocks, b) == (b == a || Used(sb, fs.blocks, b))
  {
    hide Used;
    hide MapOk;
    hide Filled;
    hide Mark;
    MarkEffect(sb, fs.blocks, a, true, b);
    var m := Mark(sb, fs.blocks, a, true);
    SameMapUsed(sb, m, m[a := Zeroes()], b);
    if slot > NDIRECT {
      OwnedInRange(sb, fs, owner, i, NDIRECT);
      SameMapUsed(sb, m[a := Zeroes()], Attached(sb, fs, i, slot, a).blocks, b);
    }
  }

  lemma SameMapUsed(sb: Superblock, x: seq<ByteBlock>, y: seq<ByteBlock>, b: nat)
    requires sb.Ok() && |x| == |y| == sb.size && b < sb.size
    requires forall c :: 0 <= c < sb.datastart ==> x[c] == y[c]
    ensures Used(sb, x, b) == Used(sb, y, b)
  {
  }

  lemma AttachedOwned(sb: Superblock, fs: Fs, owner: map<nat, (nat, nat)>, i: nat, slot: nat, a: nat)
    requires CanAttach(sb, fs, owner, i, slot, a)
    ensures Shaped(sb, Attached(sb, fs, i, slot, a))
    ensures Owned(sb, Attached(sb, fs, i, slot, a), owner[a := (i, slot)])
    ensures Filled(sb, Attached(sb, fs, i, slot, a))
  {
    hide Attached;
    hide Ptr;
    hide Used;
    var t := Attached(sb, fs, i, slot, a);
    AttachedShaped(sb, fs, owner, i, slot, a);
    AttachedInodes(sb, fs, i, slot, a);
    forall j, k | j in fs.inodes && 0 <= k < SLOTS
      ensures Ptr(sb, t, j, k) == if j == i && k == slot then a else Ptr(sb, fs, j, k)
    {
      AttachedPtr(sb, fs, owner, i, slot, a, j, k);
    }
    assert a !in owner;
  }

  lemma AttachedInodes(sb: Superblock, fs: Fs, i: nat, slot: nat, a: nat)
    requires Shaped(sb, fs) && i in fs.inodes && slot < SLOTS && 0 < a < sb.size
    requires slot > NDIRECT ==> fs.inodes[i].addrs[NDIRECT] != 0
    ensures var t := Attached(sb, fs, i, slot, a);
            t.inodes.Keys == fs.inodes.Keys && forall j :: j in fs.inodes ==> t.inodes[j].size == fs.inodes[j].size
  {
  }

  /** A file that gains a block leaves the file system good, and one block less free. */
  lemma AttachedGood(sb: Superblock, fs: Fs, owner: map<nat, (nat, nat)>, i: nat, slot: nat, a: nat)
    requires CanAttach(sb, fs, owner, i, slot, a)
    ensures Good(sb, Attached(sb, fs, i, slot, a), owner[a := (i, slot)])
    ensures FreeBlocks(sb, Attached(sb, fs, i, slot, a).blocks) == FreeBlocks(sb, fs.blocks) - {a}
  {
    hide Attached;
    hide Used;
    hide Ptr;
    AttachedOwned(sb, fs, owner, i, slot, a);
    forall b | 0 <= b < sb.size
      ensures Used(sb, Attached(sb, fs, i, slot, a).blocks, b) == (b == a || Used(sb, fs.blocks, b))
    {
      AttachedUsed(sb, fs, owner, i, slot, a, b);
    }
  }

  /** All that follows from giving a fresh block to a missing pointer. */
  lemma AttachedFacts(sb: Superblock, fs: Fs, owner: map<nat, (nat, nat)>, i: nat, slot: nat, a: nat)
    requires CanAttach(sb, fs, owner, i, slot, a)
    ensures var t := Attached(sb, fs, i, slot, a);
            && Good(sb, t, owner[a := (i, slot)])
            && FreeBlocks(sb, t.blocks) == FreeBlocks(sb, fs.blocks) - {a}
            && Patched(sb, fs, t, i, 0, [])
            && forall j, k :: j in fs.inodes && 0 <= k < SLOTS ==>
                 Ptr(sb, t, j, k) == if j == i && k == slot then a else Ptr(sb, fs, j, k)
  {
    hide Ptr;
    hide Used;
    hide ByteAt;
    hide Owned;
    hide MapOk;
    hide Filled;
    var t := Attached(sb, fs, i, slot, a);
    AttachedGood(sb, fs, owner, i, slot, a);
    forall j, k | j in fs.inodes && 0 <= k < SLOTS
      ensures Ptr(sb, t, j, k) == if j == i && k == slot then a else Ptr(sb, fs, j, k)
    {
      hide *;
      AttachedPtr(sb, fs, owner, i, slot, a, j, k);
    }
    forall j, p | j in t.inodes && 0 <= p < MAXFILE * BSIZE ensures ByteAt(sb, t, j, p) == ByteAt(sb, fs, j, p) {
      AttachedByte(sb, fs, owner, i, slot, a, j, p);
    }
  }

  // ----- writing into a block

  /** Storing into a data block of a file changes the bytes of that block and nothing else. */
  ghost function Stored(fs: Fs, b: nat, data: ByteBlock): Fs
    requires b < |fs.blocks|
  {
    Fs(fs.blocks[b := data], fs.inodes)
  }

  ghost predicate CanStore(sb: Superblock, fs: Fs, owner: map<nat, (nat, nat)>, i: nat, bn: nat) {
    Good(sb, fs, owner) && i in fs.inodes && bn < MAXFILE && Ptr(sb, fs, i, DataSlot(bn)) != 0
  }

  lemma StoredPtr(sb: Superblock, fs: Fs, owner: map<nat, (nat, nat)>, i: nat, bn: nat, data: ByteBlock, j: nat, k: nat)
    requires CanStore(sb, fs, owner, i, bn) && j in fs.inodes && k < SLOTS
    ensures Ptr(sb, fs, i, DataSlot(bn)) < |fs.blocks|
    ensures var t := Stored(fs, Ptr(sb, fs, i, DataSlot(bn)), data);
            Shaped(sb, t) && Ptr(sb, t, j, k) == Ptr(sb, fs, j, k)
  {
    hide Used;
    hide MapOk;
    hide Filled;
    hide Word;
    OwnedInRange(sb, fs, owner, i, DataSlot(bn));
    if k > NDIRECT && fs.inodes[j].addrs[NDIRECT] != 0 {
      OwnedInRange(sb, fs, owner, j, NDIRECT);
    }
  }

  lemma StoredByte(sb: Superblock, fs: Fs, owner: map<nat, (nat, nat)>, i: nat, bn: nat, data: ByteBlock, j: nat, p: nat)
    requires CanStore(sb, fs, owner, i, bn) && j in fs.inodes && p < MAXFILE * BSIZE
    ensures Ptr(sb, fs, i, DataSlot(bn)) < |fs.blocks|
    ensures var t := Stored(fs, Ptr(sb, fs, i, DataSlot(bn)), data);
            && Shaped(sb, t)
            && ByteAt(sb, t, j, p) == if j == i && p / BSIZE == bn then data[p % BSIZE] else ByteAt(sb, fs, j, p)
  {
    hide Used;
    hide MapOk;
    hide Filled;
    hide Ptr;
    var d := DataSlot(p / BSIZE);
    StoredPtr(sb, fs, owner, i, bn, data, j, d);
    OwnedInRange(sb, fs, owner, i, DataSlot(bn));
    if Ptr(sb, fs, j, d) != 0 {
      OwnedInRange(sb, fs, owner, j, d);
    }
  }

  lemma StoredGood(sb: Superblock, fs: Fs, owner: map<nat, (nat, nat)>, i: nat, bn: nat, data: ByteBlock)
    requires CanStore(sb, fs, owner, i, bn)
    ensures Ptr(sb, fs, i, DataSlot(bn)) < |fs.blocks|
    ensures var t := Stored(fs, Ptr(sb, fs, i, DataSlot(bn)), data);
            Good(sb, t, owner) && FreeBlocks(sb, t.blocks) == FreeBlocks(sb, fs.blocks)
  {
    hide Used;
    hide Ptr;
    OwnedInRange(sb, fs, owner, i, DataSlot(bn));
    var t := Stored(fs, Ptr(sb, fs, i, DataSlot(bn)), data);
    StoredPtr(sb, fs, owner, i, bn, data, i, 0);
    forall j, k | j in fs.inodes && 0 <= k < SLOTS ensures Ptr(sb, t, j, k) == Ptr(sb, fs, j, k) {
      StoredPtr(sb, fs, owner, i, bn, data, j, k);
    }
    forall b | 0 <= b < sb.size ensures Used(sb, t.blocks, b) == Used(sb, fs.blocks, b) {
      SameMapUsed(sb, fs.blocks, t.blocks, b);
    }
  }

  /** b with chunk copied into it from byte o on. */
  function Overwritten(b: ByteBlock, o: nat, chunk: seq<byte>): ByteBlock
    requires o + |chunk| <= BSIZE
  {
    b[..o] + chunk + b[o + |chunk|..]
  }

  lemma InBlock(p: nat, bn: nat)
    ensures p / BSIZE == bn <==> bn * BSIZE <= p < bn * BSIZE + BSIZE
    ensures p / BSIZE == bn ==> p % BSIZE == p - bn * BSIZE
  {
  }

  /** Copying a chunk into one block of a file patches that file there and no other byte. */
  lemma StoredPatched(sb: Superblock, fs: Fs, owner: map<nat, (nat, nat)>, i: nat, bn: nat, o: nat, chunk: seq<byte>)
    requires CanStore(sb, fs, owner, i, bn) && o + |chunk| <= BSIZE
    ensures var a := Ptr(sb, fs, i, DataSlot(bn));
            && a < |fs.blocks|
            && var t := Stored(fs, a, Overwritten(fs.blocks[a], o, chunk));
            && Shaped(sb, t) && Patched(sb, fs, t, i, bn * BSIZE + o, chunk)
  {
    var a := Ptr(sb, fs, i, DataSlot(bn));
    StoredPtr(sb, fs, owner, i, bn, Zeroes(), i, 0);
    var data := Overwritten(fs.blocks[a], o, chunk);
    StoredPtr(sb, fs, owner, i, bn, data, i, 0);
    var t := Stored(fs, a, data);
    forall j, p | j in t.inodes && 0 <= p < MAXFILE * BSIZE
      ensures ByteAt(sb, t, j, p) ==
              if j == i && bn * BSIZE + o <= p < bn * BSIZE + o + |chunk| then chunk[p - (bn * BSIZE + o)]
              else ByteAt(sb, fs, j, p)
    {
      hide *;
      StoredPatchedAt(sb, fs, owner, i, bn, o, chunk, j, p);
    }
  }

  lemma StoredPatchedAt(sb: Superblock, fs: Fs, owner: map<nat, (nat, nat)>, i: nat, bn: nat, o: nat, chunk: seq<byte>,
                        j: nat, p: nat)
    requires CanStore(sb, fs, owner, i, bn) && o + |chunk| <= BSIZE && j in fs.inodes && p < MAXFILE * BSIZE
    ensures var a := Ptr(sb, fs, i, DataSlot(bn));
            && a < |fs.blocks|
            && var t := Stored(fs, a, Overwritten(fs.blocks[a], o, chunk));
            && Shaped(sb, t)
            && ByteAt(sb, t, j, p) ==
               if j == i && bn * BSIZE + o <= p < bn * BSIZE + o + |chunk| then chunk[p - (bn * BSIZE + o)]
               else ByteAt(sb, fs, j, p)
  {
    hide Good;
    hide Ptr;
    StoredByte(sb, fs, owner, i, bn, Zeroes(), j, p);
    var a := Ptr(sb, fs, i, DataSlot(bn));
    StoredByte(sb, fs, owner, i, bn, Overwritten(fs.blocks[a], o, chunk), j, p);
    InBlock(p, bn);
    assert CanStore(sb, fs, owner, i, bn);
  }

  // ----- truncation

  /** The blocks file i owns. */
  ghost function BlocksOf(sb: Superblock, fs: Fs, i: nat): set<nat>
    requires Shaped(sb, fs) && i in fs.inodes
  {
    set k | 0 <= k < SLOTS && Ptr(sb, fs, i, k) != 0 :: Ptr(sb, fs, i, k)
  }

  const NO_ADDRS: seq<nat> := [0, 0, 0, 0, 0, 0, 0, 0, 0, 0, 0, 0, 0]

  function Emptied(fs: Fs, i: nat, blocks: seq<ByteBlock>): Fs
    requires i in fs.inodes
  {
    Fs(blocks, fs.inodes[i := fs.inodes[i].(size := 0, addrs := NO_ADDRS)])
  }

  ghost function Disowned(owner: map<nat, (nat, nat)>, i: nat): map<nat, (nat, nat)> {
    map b | b in owner && owner[b].0 != i :: owner[b]
  }

  /** blocks is fs.blocks with exactly the bits cleared of the blocks under these pointers of file i. */
  ghost predicate Cleared(sb: Superblock, fs: Fs, owner: map<nat, (nat, nat)>, i: nat, slots: set<nat>, blocks: seq<ByteBlock>)
    requires Shaped(sb, fs)
  {
    && |blocks| == sb.size
    && (forall b :: sb.datastart <= b < sb.size ==> blocks[b] == fs.blocks[b])
    && (forall b :: 0 <= b < sb.size ==>
          Used(sb, blocks, b) == (Used(sb, fs.blocks, b) && !(b in owner && owner[b].0 == i && owner[b].1 in slots)))
  }

  lemma ClearedNothing(sb: Superblock, fs: Fs, owner: map<nat, (nat, nat)>, i: nat)
    requires Shaped(sb, fs)
    ensures Cleared(sb, fs, owner, i, {}, fs.blocks)
  {
  }

  /** The block under a pointer not yet cleared still has its bit set, and bfree clears just that one. */
  lemma ClearedStep(sb: Superblock, fs: Fs, owner: map<nat, (nat, nat)>, i: nat, slots: set<nat>, blocks: seq<ByteBlock>, k: nat)
    requires Good(sb, fs, owner) && i in fs.inodes && Cleared(sb, fs, owner, i, slots, blocks)
    requires k < SLOTS && k !in slots
    ensures var a := Ptr(sb, fs, i, k);
            if a == 0 then Cleared(sb, fs, owner, i, slots + {k}, blocks)
            else sb.datastart <= a < sb.size && Used(sb, blocks, a)
                 && Cleared(sb, fs, owner, i, slots + {k}, Mark(sb, blocks, a, false))
  {
    hide Used;
    hide Ptr;
    hide Mark;
    hide MapOk;
    hide Filled;
    var a := Ptr(sb, fs, i, k);
    if a != 0 {
      OwnedInRange(sb, fs, owner, i, k);
      forall b | 0 <= b < sb.size
        ensures Used(sb, Mark(sb, blocks, a, false), b) == (b != a && Used(sb, blocks, b))
        ensures b >= sb.datastart ==> Mark(sb, blocks, a, false)[b] == blocks[b]
      {
        MarkEffect(sb, blocks, a, false, b);
        if b >= sb.datastart {
          MarkKeeps(sb, blocks, a, false, b);
        }
      }
    }
  }

  /** blocks is fs.blocks with exactly file i's bits cleared. */
  ghost predicate ClearedFor(sb: Superblock, fs: Fs, owner: map<nat, (nat, nat)>, i: nat, blocks: seq<ByteBlock>)
    requires Shaped(sb, fs)
  {
    && |blocks| == sb.size
    && (forall b :: sb.datastart <= b < sb.size ==> blocks[b] == fs.blocks[b])
    && (forall b :: 0 <= b < sb.size ==>
          Used(sb, blocks, b) == (Used(sb, fs.blocks, b) && !(b in owner && owner[b].0 == i)))
  }

  lemma ClearedAll(sb: Superblock, fs: Fs, owner: map<nat, (nat, nat)>, i: nat, slots: set<nat>, blocks: seq<ByteBlock>)
    requires Good(sb, fs, owner) && i in fs.inodes && Cleared(sb, fs, owner, i, slots, blocks)
    requires forall k :: 0 <= k < SLOTS && Ptr(sb, fs, i, k) != 0 ==> k in slots
    ensures ClearedFor(sb, fs, owner, i, blocks)
  {
    hide Used;
    hide Ptr;
    hide MapOk;
    hide Filled;
  }

  lemma EmptiedPtr(sb: Superblock, fs: Fs, owner: map<nat, (nat, nat)>, i: nat, blocks: seq<ByteBlock>, j: nat, k: nat)
    requires Good(sb, fs, owner) && i in fs.inodes && ClearedFor(sb, fs, owner, i, blocks)
    requires j in fs.inodes && k < SLOTS
    ensures Shaped(sb, Emptied(fs, i, blocks))
    ensures Ptr(sb, Emptied(fs, i, blocks), j, k) == if j == i then 0 else Ptr(sb, fs, j, k)
  {
    hide Used;
    if j != i && k > NDIRECT && fs.inodes[j].addrs[NDIRECT] != 0 {
      OwnedInRange(sb, fs, owner, j, NDIRECT);
    }
  }

  lemma EmptiedGood(sb: Superblock, fs: Fs, owner: map<nat, (nat, nat)>, i: nat, blocks: seq<ByteBlock>)
    requires Good(sb, fs, owner) && i in fs.inodes && ClearedFor(sb, fs, owner, i, blocks)
    ensures Good(sb, Emptied(fs, i, blocks), Disowned(owner, i))
    ensures FreeBlocks(sb, blocks) == FreeBlocks(sb, fs.blocks) + BlocksOf(sb, fs, i)
  {
    hide Used;
    hide Ptr;
    var t := Emptied(fs, i, blocks);
    forall j, k | j in fs.inodes && 0 <= k < SLOTS
      ensures Shaped(sb, t) && Ptr(sb, t, j, k) == if j == i then 0 else Ptr(sb, fs, j, k)
    {
      EmptiedPtr(sb, fs, owner, i, blocks, j, k);
    }
    EmptiedPtr(sb, fs, owner, i, blocks, i, 0);
    forall b | b in owner ensures b in BlocksOf(sb, fs, i) <==> owner[b].0 == i {
    }
  }

  lemma EmptiedByte(sb: Superblock, fs: Fs, owner: map<nat, (nat, nat)>, i: nat, blocks: seq<ByteBlock>, j: nat, p: nat)
    requires Good(sb, fs, owner) && i in fs.inodes && ClearedFor(sb, fs, owner, i, blocks)
    requires j in fs.inodes && j != i && p < MAXFILE * BSIZE
    ensures Shaped(sb, Emptied(fs, i, blocks))
    ensures ByteAt(sb, Emptied(fs, i, blocks), j, p) == ByteAt(sb, fs, j, p)
  {
    hide Used;
    hide Ptr;
    var d := DataSlot(p / BSIZE);
    EmptiedPtr(sb, fs, owner, i, blocks, j, d);
    if Ptr(sb, fs, j, d) != 0 {
      OwnedInRange(sb, fs, owner, j, d);
    }
  }

  /** All that follows from clearing every block of file i. */
  lemma EmptiedFacts(sb: Superblock, fs: Fs, owner: map<nat, (nat, nat)>, i: nat, blocks: seq<ByteBlock>)
    requires Good(sb, fs, owner) && i in fs.inodes && ClearedFor(sb, fs, owner, i, blocks)
    ensures var t := Emptied(fs, i, blocks);
            && Good(sb, t, Disowned(owner, i))
            && FreeBlocks(sb, blocks) == FreeBlocks(sb, fs.blocks) + BlocksOf(sb, fs, i)
            && BlocksOf(sb, fs, i) !! FreeBlocks(sb, fs.blocks)
            && BlocksOf(sb, t, i) == {} && FileBytes(sb, t, i) == []
            && forall j :: j in fs.inodes && j != i ==> FileBytes(sb, t, j) == FileBytes(sb, fs, j)
  {
    hide Ptr;
    hide ByteAt;
    hide Used;
    hide ClearedFor;
    EmptiedGood(sb, fs, owner, i, blocks);
    forall k | 0 <= k < SLOTS ensures Ptr(sb, Emptied(fs, i, blocks), i, k) == 0 {
      EmptiedPtr(sb, fs, owner, i, blocks, i, k);
    }
    hide Owned;
    hide MapOk;
    hide Filled;
    OwnsNoFree(sb, fs, owner, i);
    var t := Emptied(fs, i, blocks);
    forall j | j in fs.inodes && j != i ensures FileBytes(sb, t, j) == FileBytes(sb, fs, j) {
      forall p | 0 <= p < fs.inodes[j].size ensures ByteAt(sb, t, j, p) == ByteAt(sb, fs, j, p) {
        EmptiedByte(sb, fs, owner, i, blocks, j, p);
      }
      assert FileBytes(sb, t, j) == FileBytes(sb, fs, j);
    }
  }

  lemma OwnsNoFree(sb: Superblock, fs: Fs, owner: map<nat, (nat, nat)>, i: nat)
    requires Good(sb, fs, owner) && i in fs.inodes
    ensures BlocksOf(sb, fs, i) !! FreeBlocks(sb, fs.blocks)
  {
    hide Used;
    hide Ptr;
  }

  /** Where a file's pointers are kept. */
  lemma PointersOf(sb: Superblock, fs: Fs, i: nat, k: nat)
    requires Shaped(sb, fs) && i in fs.inodes && k < SLOTS
    ensures fs.inodes[i].addrs[NDIRECT] < |fs.blocks|
    ensures fs.inodes[i].addrs[NDIRECT] == Ptr(sb, fs, i, NDIRECT)
    ensures Ptr(sb, fs, i, k) ==
            if k <= NDIRECT then fs.inodes[i].addrs[k]
            else if fs.inodes[i].addrs[NDIRECT] == 0 then 0
            else Word(fs.blocks[fs.inodes[i].addrs[NDIRECT]], k - NDIRECT - 1)
  {
  }

  lemma NoIndirect(sb: Superblock, fs: Fs, i: nat)
    requires Shaped(sb, fs) && i in fs.inodes && fs.inodes[i].addrs[NDIRECT] == 0
    ensures forall k :: NDIRECT <= k < SLOTS ==> Ptr(sb, fs, i, k) == 0
  {
  }

  lemma BitmapRange(sb: Superblock, b: nat)
    requires sb.Ok() && b < sb.size
    ensures sb.bmapstart <= sb.BitmapBlock(b) < sb.datastart
  {
  }

  lemma ClearedData(sb: Superblock, fs: Fs, owner: map<nat, (nat, nat)>, i: nat, slots: set<nat>, blocks: seq<ByteBlock>, b: nat)
    requires Shaped(sb, fs) && Cleared(sb, fs, owner, i, slots, blocks) && sb.datastart <= b < sb.size
    ensures blocks[b] == fs.blocks[b]
  {
  }

  function Retyped(fs: Fs, i: nat, kind: nat): Fs
    requires i in fs.inodes
  {
    Fs(fs.blocks, fs.inodes[i := fs.inodes[i].(kind := kind)])
  }

  lemma RetypedSame(sb: Superblock, fs: Fs, i: nat, kind: nat, j: nat)
    requires Shaped(sb, fs) && i in fs.inodes && j in fs.inodes
    ensures Shaped(sb, Retyped(fs, i, kind))
    ensures forall k :: 0 <= k < SLOTS ==> Ptr(sb, Retyped(fs, i, kind), j, k) == Ptr(sb, fs, j, k)
    ensures FileBytes(sb, Retyped(fs, i, kind), j) == FileBytes(sb, fs, j)
  {
    var t := Retyped(fs, i, kind);
    assert Shaped(sb, t);
    forall k | 0 <= k < SLOTS ensures Ptr(sb, t, j, k) == Ptr(sb, fs, j, k) {
    }
    hide Ptr;
    assert forall p :: 0 <= p < fs.inodes[j].size ==> ByteAt(sb, t, j, p) == ByteAt(sb, fs, j, p);
  }

  /** The type of an inode says nothing about its blocks. */
  lemma RetypedGood(sb: Superblock, fs: Fs, owner: map<nat, (nat, nat)>, i: nat, kind: nat)
    requires Good(sb, fs, owner) && i in fs.inodes
    ensures var t := Retyped(fs, i, kind);
            && Good(sb, t, owner) && BlocksOf(sb, t, i) == BlocksOf(sb, fs, i)
            && forall j :: j in fs.inodes ==> FileBytes(sb, t, j) == FileBytes(sb, fs, j)
  {
    hide Used;
    hide Ptr;
    hide FileBytes;
    forall j | j in fs.inodes
      ensures Shaped(sb, Retyped(fs, i, kind))
      ensures forall k :: 0 <= k < SLOTS ==> Ptr(sb, Retyped(fs, i, kind), j, k) == Ptr(sb, fs, j, k)
      ensures FileBytes(sb, Retyped(fs, i, kind), j) == FileBytes(sb, fs, j)
    {
      RetypedSame(sb, fs, i, kind, j);
    }
    RetypedSame(sb, fs, i, kind, i);
  }
}
