/** A crash during filewrite: the file that recovery finds holds a whole number of its chunks. */
module FileCrash {
  import opened BlockDisk
  import opened LogFormat
  import opened LogCrash
  import opened FsLayout
  import opened FsState
  import opened FsAlloc
  import opened FsCount
  import opened FsCommit

  // ----- the file system read from a disk

  /** The blocks and the given inodes, decoded. */
  function OnDisk(sb: Superblock, d: Image, files: set<nat>): Fs
    requires forall j :: j in files ==> sb.InodeBlock(j) < |d|
  {
    Fs(seq(|d|, b requires 0 <= b < |d| => Bytes(d[b])),
       map j | j in files :: InodeAt(d[sb.InodeBlock(j)], j % IPB))
  }

  /** y and z have the same inodes, free map and data. */
  ghost predicate SameFiles(sb: Superblock, y: Fs, z: Fs) {
    && sb.Ok() && |y.blocks| == |z.blocks| == sb.size && z.inodes == y.inodes
    && forall b :: sb.bmapstart <= b < sb.size ==> z.blocks[b] == y.blocks[b]
  }

  lemma SamePtr(sb: Superblock, y: Fs, z: Fs, owner: map<nat, (nat, nat)>, j: nat, k: nat)
    requires Good(sb, y, owner) && SameFiles(sb, y, z) && j in y.inodes && k < SLOTS
    ensures Shaped(sb, z) && Ptr(sb, z, j, k) == Ptr(sb, y, j, k)
    ensures Ptr(sb, y, j, k) != 0 ==> sb.datastart <= Ptr(sb, y, j, k) < sb.size
  {
    hide MapOk;
    hide Filled;
    hide Word;
    if y.inodes[j].addrs[NDIRECT] != 0 {
      OwnedInRange(sb, y, owner, j, NDIRECT);
    }
  }

  lemma SameContents(sb: Superblock, y: Fs, z: Fs, owner: map<nat, (nat, nat)>, j: nat)
    requires Good(sb, y, owner) && SameFiles(sb, y, z) && j in y.inodes
    ensures Shaped(sb, z) && FileBytes(sb, z, j) == FileBytes(sb, y, j)
  {
    hide Good;
    hide Ptr;
    GoodShape(sb, y, owner);
    SamePtr(sb, y, z, owner, j, 0);
    forall p | 0 <= p < y.inodes[j].size ensures ByteAt(sb, z, j, p) == ByteAt(sb, y, j, p) {
      SamePtr(sb, y, z, owner, j, DataSlot(p / BSIZE));
    }
  }

  lemma GoodShape(sb: Superblock, fs: Fs, owner: map<nat, (nat, nat)>)
    requires Good(sb, fs, owner)
    ensures Shaped(sb, fs)
  {
  }

  lemma SameGood(sb: Superblock, y: Fs, z: Fs, owner: map<nat, (nat, nat)>)
    requires Good(sb, y, owner) && SameFiles(sb, y, z)
    ensures Good(sb, z, owner)
  {
    hide Ptr;
    hide Used;
    forall j, k | j in y.inodes && 0 <= k < SLOTS ensures Shaped(sb, z) && Ptr(sb, z, j, k) == Ptr(sb, y, j, k) {
      SamePtr(sb, y, z, owner, j, k);
    }
    forall b | 0 <= b < sb.size ensures Used(sb, z.blocks, b) == Used(sb, y.blocks, b) {
      SameUsed(sb, y, z, b);
    }
  }

  lemma SameUsed(sb: Superblock, y: Fs, z: Fs, b: nat)
    requires SameFiles(sb, y, z) && b < sb.size
    ensures Used(sb, z.blocks, b) == Used(sb, y.blocks, b)
  {
    BitmapRange(sb, b);
    hide Bit;
  }

  /** What is decoded from a disk that holds a good file system is that file system. */
  lemma HeldOnDisk(sb: Superblock, d: Image, y: Fs, owner: map<nat, (nat, nat)>)
    requires Holds(sb, d, y) && Good(sb, y, owner)
    ensures forall j :: j in y.inodes ==> sb.InodeBlock(j) < |d|
    ensures SameFiles(sb, y, OnDisk(sb, d, y.inodes.Keys))
  {
    hide Bytes;
    hide InodeAt;
    hide Owned;
    hide MapOk;
    hide Filled;
    forall j | j in y.inodes ensures sb.InodeBlock(j) < |d| {
      InodeRange(sb, j);
    }
  }

  // ----- the states a crash may leave

  ghost predicate Consistent(sb: Superblock, fs: Fs) { exists owner :: Good(sb, fs, owner) }

  /** k of the m bytes that filewrite accepts are a whole number of its chunks, or all. */
  predicate IsWhole(k: nat, m: nat) { k <= m && (k % CHUNK == 0 || k == m) }

  /** From x to y, the first k bytes of src were written to file i at start, and k are whole chunks. */
  ghost predicate WroteChunks(sb: Superblock, x: Fs, y: Fs, i: nat, start: nat, src: seq<byte>, m: nat, k: nat) {
    && Shaped(sb, x) && Shaped(sb, y) && Consistent(sb, y) && i in x.inodes && IsWhole(k, m) && m <= |src|
    && if start > x.inodes[i].size then y == x
       else Spliced(sb, x, y, i, start, src[..k]) && y.inodes[i].size == Larger(start + k, x.inodes[i].size)
  }

  /** The disk stands for x with a whole number of chunks written. */
  ghost predicate StandsFor(sb: Superblock, l: Layout, e: Image, x: Fs, i: nat, start: nat, src: seq<byte>, m: nat) {
    GoodLog(l, e) && exists y, k :: WroteChunks(sb, x, y, i, start, src, m, k) && Holds(sb, Committed(l, e), y)
  }

  /** Cut after any of the writes ws, the disk stands for x with a whole number of chunks written. */
  ghost predicate CrashSafe(sb: Superblock, l: Layout, d: Image, ws: seq<Write>,
                            x: Fs, i: nat, start: nat, src: seq<byte>, m: nat) {
    forall n :: 0 <= n <= |ws| ==> StandsFor(sb, l, Apply(d, ws[..n]), x, i, start, src, m)
  }

  lemma ChunksWhole(sb: Superblock, x: Fs, y: Fs, owner: map<nat, (nat, nat)>, i: nat, start: nat, src: seq<byte>, k: nat, m: nat)
    requires Shaped(sb, x) && Good(sb, y, owner) && i in x.inodes && i in y.inodes && k <= m <= |src|
    requires start <= x.inodes[i].size ==> start + m <= MAXFILE * BSIZE
    requires ChunksWritten(sb, x, y, i, start, src, k, m) && IsWhole(k, m)
    ensures WroteChunks(sb, x, y, i, start, src, m, k)
  {
    hide Good;
    hide Spliced;
    GoodShape(sb, y, owner);
  }

  lemma WrittenInodes(sb: Superblock, x: Fs, y: Fs, i: nat, off: nat, src: seq<byte>)
    requires Shaped(sb, x) && Shaped(sb, y) && i in x.inodes
    requires off <= x.inodes[i].size && off + |src| <= MAXFILE * BSIZE && Written(sb, x, y, i, off, src)
    ensures i in y.inodes && y.inodes == x.inodes[i := y.inodes[i]]
  {
  }

  lemma SafeAtFirst(sb: Superblock, l: Layout, d: Image, x: Fs, i: nat, start: nat, src: seq<byte>, m: nat)
    requires Saved(sb, l, d, x) && WroteChunks(sb, x, x, i, start, src, m, 0)
    ensures CrashSafe(sb, l, d, [], x, i, start, src, m)
  {
    hide Holds;
    hide WroteChunks;
    CommittedEmpty(l, d);
    HomeHolds(sb, l, d, Home(l, d), x);
    var ws: seq<Write> := [];
    assert ws[..0] == [] && Apply(d, []) == d;
  }

  /** The writes of one more commit, from whole chunks to whole chunks. */
  lemma SafeFurther(sb: Superblock, l: Layout, d: Image, ws: seq<Write>, more: seq<Write>, x: Fs, i: nat, start: nat,
                    src: seq<byte>, m: nat, y: Fs, k: nat, z: Fs, j: nat)
    requires CrashSafe(sb, l, d, ws, x, i, start, src, m)
    requires WroteChunks(sb, x, y, i, start, src, m, k) && WroteChunks(sb, x, z, i, start, src, m, j)
    requires forall n :: 0 <= n <= |more| ==> Either(sb, l, Apply(Apply(d, ws), more[..n]), y, z)
    ensures CrashSafe(sb, l, d, ws + more, x, i, start, src, m)
    ensures Apply(d, ws + more) == Apply(Apply(d, ws), more)
  {
    hide Holds;
    hide WroteChunks;
    hide GoodLog;
    hide Apply;
    ApplyConcat(d, ws, more);
    forall n | 0 <= n <= |ws + more| ensures StandsFor(sb, l, Apply(d, (ws + more)[..n]), x, i, start, src, m) {
      if n <= |ws| {
        assert (ws + more)[..n] == ws[..n];
      } else {
        var r := n - |ws|;
        assert (ws + more)[..n] == ws + more[..r];
        ApplyConcat(d, ws, more[..r]);
        assert Either(sb, l, Apply(Apply(d, ws), more[..r]), y, z);
      }
    }
  }

  /**
   * Crash the machine after any disk write of filewrite, then recover, being cut any number of
   * times: the log is empty, the file system is consistent, the file is what it was with a whole
   * number of the chunks written over it, and every other file is what it was.
   */
  lemma CrashDuringWrite(sb: Superblock, l: Layout, d: Image, ws: seq<Write>, x: Fs, i: nat, start: nat,
                         src: seq<byte>, m: nat, n: nat, cuts: seq<nat>) returns (k: nat)
    requires CrashSafe(sb, l, d, ws, x, i, start, src, m) && n <= |ws| && LaidOut(sb, l)
    requires Shaped(sb, x) && i in x.inodes && Consistent(sb, x)
    ensures var e := Apply(d, ws[..n]);
            && GoodLog(l, e)
            && var f := Recover(l, Restarted(l, e, cuts));
            && f[l.start][0] == 0
            && (forall j :: j in x.inodes ==> sb.InodeBlock(j) < |f|)
            && var fs := OnDisk(sb, f, x.inodes.Keys);
            && Shaped(sb, fs) && Consistent(sb, fs) && fs.inodes.Keys == x.inodes.Keys
            && k <= m <= |src| && (k % CHUNK == 0 || k == m)
            && (forall j :: j in x.inodes && j != i ==> fs.inodes[j] == x.inodes[j])
            && fs.inodes[i].size == (if start <= x.inodes[i].size < start + k then start + k else x.inodes[i].size)
            && FileBytes(sb, fs, i) == (if start > x.inodes[i].size then FileBytes(sb, x, i)
                                        else Splice(FileBytes(sb, x, i), start, src[..k]))
            && forall j :: j in x.inodes && j != i ==> FileBytes(sb, fs, j) == FileBytes(sb, x, j)
  {
    hide Holds;
    hide Good;
    hide FileBytes;
    hide Spliced;
    hide Shaped;
    hide SameFiles;
    hide OnDisk;
    hide Apply;
    hide Recover;
    hide Restarted;
    var e := Apply(d, ws[..n]);
    assert StandsFor(sb, l, e, x, i, start, src, m);
    var y, c :| WroteChunks(sb, x, y, i, start, src, m, c) && Holds(sb, Committed(l, e), y);
    k := c;
    RecoverySaves(sb, l, e, y, cuts);
    var f := Recover(l, Restarted(l, e, cuts));
    var owner :| Good(sb, y, owner);
    HeldOnDisk(sb, f, y, owner);
    WroteInodes(sb, x, y, i, start, src, m, k);
    var fs := OnDisk(sb, f, x.inodes.Keys);
    SameGood(sb, y, fs, owner);
    GoodShape(sb, fs, owner);
    SameInodes(sb, y, fs);
    forall j | j in y.inodes ensures FileBytes(sb, fs, j) == FileBytes(sb, y, j) {
      SameContents(sb, y, fs, owner, j);
    }
  }

  lemma SameInodes(sb: Superblock, y: Fs, z: Fs)
    requires SameFiles(sb, y, z)
    ensures z.inodes == y.inodes
  {
  }

  /** What was written of the files, by inodes and contents. */
  lemma WroteInodes(sb: Superblock, x: Fs, y: Fs, i: nat, start: nat, src: seq<byte>, m: nat, k: nat)
    requires WroteChunks(sb, x, y, i, start, src, m, k)
    ensures y.inodes.Keys == x.inodes.Keys && forall j :: j in x.inodes && j != i ==> y.inodes[j] == x.inodes[j]
    ensures y.inodes[i].size == (if start <= x.inodes[i].size < start + k then start + k else x.inodes[i].size)
    ensures FileBytes(sb, y, i) == (if start > x.inodes[i].size then FileBytes(sb, x, i)
                                    else Splice(FileBytes(sb, x, i), start, src[..k]))
    ensures forall j :: j in x.inodes && j != i ==> FileBytes(sb, y, j) == FileBytes(sb, x, j)
  {
    hide FileBytes;
    hide Splice;
    hide Good;
    assert i in x.inodes && y.inodes == x.inodes[i := y.inodes[i]];
    assert y.inodes.Keys == x.inodes.Keys;
  }
}
