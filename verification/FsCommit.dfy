/** The file system on the disk: how its bytes and inodes are kept there, what a commit writes, and what a crash leaves. */
module FsCommit {
  import opened BlockDisk
  import opened LogFormat
  import opened LogCrash
  import opened FsLayout
  import opened FsState
  import opened FsAlloc
  import opened FsCount

  // ----- blocks as bytes and as C ints

  /** The int with the same bits as a uint. */
  function Signed(v: nat): int { if v < 0x8000_0000 then v else v - 0x1_0000_0000 }

  function Weight(k: nat): (w: nat)
    ensures w > 0
  {
    if k == 0 then 1 else if k == 1 then 0x100 else if k == 2 then 0x1_0000 else 0x100_0000
  }

  function Bytes(b: Block): ByteBlock {
    seq(BSIZE, k requires 0 <= k < BSIZE => b[k / 4] / Weight(k % 4) % 0x100)
  }

  function Words(x: ByteBlock): Block {
    seq(WORDS, k requires 0 <= k < WORDS => Signed(Word(x, k)))
  }

  lemma ByteOfWord(b0: nat, b1: nat, b2: nat, b3: nat)
    requires b0 < 0x100 && b1 < 0x100 && b2 < 0x100 && b3 < 0x100
    ensures var v := Signed(b0 + 0x100 * b1 + 0x1_0000 * b2 + 0x100_0000 * b3);
            v % 0x100 == b0 && v / 0x100 % 0x100 == b1 && v / 0x1_0000 % 0x100 == b2 && v / 0x100_0000 % 0x100 == b3
  {
    var v := Signed(b0 + 0x100 * b1 + 0x1_0000 * b2 + 0x100_0000 * b3);
    var q3 := if b3 < 0x80 then b3 else b3 - 0x100;
    var q2 := b2 + 0x100 * q3;
    var q1 := b1 + 0x100 * q2;
    assert v == b0 + 0x100 * q1;
    hide Signed;
    assert v / 0x100 == q1;
    assert v == b0 + 0x100 * b1 + 0x1_0000 * q2;
    assert v / 0x1_0000 == q2;
    assert v == b0 + 0x100 * b1 + 0x1_0000 * b2 + 0x100_0000 * q3;
    assert v / 0x100_0000 == q3;
  }

  lemma ByteInWord(x: ByteBlock, q: nat, r: nat)
    requires q < WORDS && r < 4
    ensures Signed(Word(x, q)) / Weight(r) % 0x100 == x[4 * q + r]
  {
    ByteOfWord(x[4 * q], x[4 * q + 1], x[4 * q + 2], x[4 * q + 3]);
    hide Signed;
  }

  lemma BytesOfWords(x: ByteBlock)
    ensures Bytes(Words(x)) == x
  {
    hide Signed;
    hide Word;
    hide Weight;
    forall k | 0 <= k < BSIZE ensures Bytes(Words(x))[k] == x[k] {
      ByteInWord(x, k / 4, k % 4);
    }
  }

  // ----- inodes in blocks

  /** Word k of an inode on the disk; the device numbers in words 0 and 1 are 0. */
  function InodeWord(ip: Inode, k: nat): int
    requires k < 16 && |ip.addrs| == NDIRECT + 1
  {
    if k == 0 then ip.kind
    else if k == 1 then ip.nlink * 0x1_0000
    else if k == 2 then Signed(ip.size)
    else Signed(ip.addrs[k - 3])
  }

  function Natural(v: int): nat { if v < 0 then 0 else v }

  /** The inode in place r of a block. */
  function InodeAt(b: Block, r: nat): Inode
    requires r < IPB
  {
    Inode(Natural(b[16 * r]), Natural(b[16 * r + 1] / 0x1_0000), b[16 * r + 2] % 0x1_0000_0000,
          seq(NDIRECT + 1, k requires 0 <= k <= NDIRECT => b[16 * r + 3 + k] % 0x1_0000_0000))
  }

  /** Inode block b with the inodes of the table in their places, over what it held. */
  function InodesIn(sb: Superblock, was: Block, inodes: map<nat, Inode>, b: nat): Block
    requires sb.inodestart <= b && forall j :: j in inodes ==> |inodes[j].addrs| == NDIRECT + 1
  {
    seq(WORDS, w requires 0 <= w < WORDS =>
      var j := (b - sb.inodestart) * IPB + w / 16;
      if j in inodes then InodeWord(inodes[j], w % 16) else was[w])
  }

  lemma InodeWordAt(sb: Superblock, was: Block, inodes: map<nat, Inode>, j: nat, k: nat)
    requires (forall i :: i in inodes ==> |inodes[i].addrs| == NDIRECT + 1) && j in inodes && k < 16
    ensures InodesIn(sb, was, inodes, sb.InodeBlock(j))[16 * (j % IPB) + k] == InodeWord(inodes[j], k)
  {
    hide InodeWord;
    var r := j % IPB;
    assert (16 * r + k) / 16 == r && (16 * r + k) % 16 == k;
    assert (sb.InodeBlock(j) - sb.inodestart) * IPB + r == j;
  }

  lemma InodeRead(sb: Superblock, was: Block, inodes: map<nat, Inode>, j: nat)
    requires forall i :: i in inodes ==> |inodes[i].addrs| == NDIRECT + 1
    requires j in inodes && IsWord(inodes[j].size) && forall k :: 0 <= k <= NDIRECT ==> IsWord(inodes[j].addrs[k])
    ensures InodeAt(InodesIn(sb, was, inodes, sb.InodeBlock(j)), j % IPB) == inodes[j]
  {
    hide InodesIn;
    var b, r := InodesIn(sb, was, inodes, sb.InodeBlock(j)), j % IPB;
    InodeWordAt(sb, was, inodes, j, 0);
    InodeWordAt(sb, was, inodes, j, 1);
    InodeWordAt(sb, was, inodes, j, 2);
    forall k | 0 <= k <= NDIRECT ensures b[16 * r + 3 + k] % 0x1_0000_0000 == inodes[j].addrs[k] {
      InodeWordAt(sb, was, inodes, j, 3 + k);
    }
    assert InodeAt(b, r).addrs == inodes[j].addrs;
  }

  // ----- the file system a disk holds

  /** Free map, data and inodes; what the other blocks hold does not matter. */
  ghost predicate Holds(sb: Superblock, d: Image, fs: Fs) {
    && sb.Ok() && |d| == |fs.blocks| == sb.size
    && (forall b :: sb.bmapstart <= b < sb.size ==> Bytes(d[b]) == fs.blocks[b])
    && (forall j :: j in fs.inodes ==> j < sb.ninodes && InodeAt(d[sb.InodeBlock(j)], j % IPB) == fs.inodes[j])
  }

  /** The log lies below the inodes, and is large enough for a transaction. */
  predicate LaidOut(sb: Superblock, l: Layout) {
    l.start + l.size <= sb.inodestart && MAXOPBLOCKS < l.size
  }

  /** The file system is on the disk, and the log is empty. */
  ghost predicate Saved(sb: Superblock, l: Layout, d: Image, fs: Fs) {
    Holds(sb, d, fs) && LaidOut(sb, l) && l.Fits(d) && d[l.start][0] == 0
  }

  predicate SameInode(x: map<nat, Inode>, y: map<nat, Inode>, j: nat) {
    (j in x <==> j in y) && (j in x ==> x[j] == y[j])
  }

  /** Every block that differs between x and y was given to log_write; none of those is the log's. */
  ghost predicate Noted(sb: Superblock, x: Fs, y: Fs, logged: set<nat>) {
    && |x.blocks| == |y.blocks|
    && (forall b :: 0 <= b < |x.blocks| && x.blocks[b] != y.blocks[b] ==> b in logged)
    && (forall j: nat :: SameInode(x.inodes, y.inodes, j) || sb.InodeBlock(j) in logged)
    && (forall c :: c in logged ==> sb.inodestart <= c < sb.size)
  }

  lemma NothingNoted(sb: Superblock, x: Fs)
    ensures Noted(sb, x, x, {})
  {
  }

  lemma NotedBlock(sb: Superblock, x: Fs, y: Fs, logged: set<nat>, b: nat, data: ByteBlock)
    requires Noted(sb, x, y, logged) && b < |y.blocks| && sb.inodestart <= b < sb.size
    ensures Noted(sb, x, Fs(y.blocks[b := data], y.inodes), logged + {b})
  {
  }

  lemma NotedInode(sb: Superblock, x: Fs, y: Fs, logged: set<nat>, i: nat, ip: Inode)
    requires Noted(sb, x, y, logged) && sb.Ok() && i < sb.ninodes
    ensures Noted(sb, x, Fs(y.blocks, y.inodes[i := ip]), logged + {sb.InodeBlock(i)})
  {
    InodeRange(sb, i);
    forall j: nat ensures SameInode(x.inodes, y.inodes[i := ip], j) || sb.InodeBlock(j) in logged + {sb.InodeBlock(i)} {
      assert SameInode(x.inodes, y.inodes, j) || sb.InodeBlock(j) in logged;
    }
  }

  lemma InodeRange(sb: Superblock, i: nat)
    requires sb.Ok() && i < sb.ninodes
    ensures sb.inodestart <= sb.InodeBlock(i) < sb.bmapstart <= sb.size
  {
  }

  lemma NotedMark(sb: Superblock, x: Fs, y: Fs, logged: set<nat>, b: nat, on: bool)
    requires Noted(sb, x, y, logged) && sb.Ok() && |y.blocks| == sb.size && b < sb.size
    ensures Noted(sb, x, Fs(Mark(sb, y.blocks, b, on), y.inodes), logged + {sb.BitmapBlock(b)})
  {
    hide PutByteBit;
    var m := y.blocks[sb.BitmapBlock(b)];
    NotedBlock(sb, x, y, logged, sb.BitmapBlock(b), m[b % BPB / 8 := PutByteBit(m[b % BPB / 8], b % 8, on)]);
  }

  lemma NotedAlloc(sb: Superblock, x: Fs, y: Fs, logged: set<nat>, a: nat)
    requires Noted(sb, x, y, logged) && sb.Ok() && |y.blocks| == sb.size && sb.datastart <= a < sb.size
    ensures Noted(sb, x, Fs(Allocated(sb, y.blocks, a), y.inodes), logged + {sb.BitmapBlock(a), a})
  {
    hide Noted;
    hide Mark;
    NotedMark(sb, x, y, logged, a, true);
    NotedBlock(sb, x, Fs(Mark(sb, y.blocks, a, true), y.inodes), logged + {sb.BitmapBlock(a)}, a, Zeroes());
    assert logged + {sb.BitmapBlock(a)} + {a} == logged + {sb.BitmapBlock(a), a};
  }

  // ----- a commit

  /** What goes to block b when fs is committed over disk d. */
  function Saving(sb: Superblock, d: Image, fs: Fs, b: nat): Block
    requires Shaped(sb, fs) && |d| == sb.size && sb.inodestart <= b < sb.size
  {
    if b >= sb.bmapstart then Words(fs.blocks[b]) else InodesIn(sb, d[b], fs.inodes, b)
  }

  /** ts are the logged blocks, in some order. */
  ghost predicate Lists(ts: seq<int>, logged: set<nat>) {
    && Distinct(ts) && |ts| == |logged|
    && (forall k :: 0 <= k < |ts| ==> ts[k] >= 0 && ts[k] in logged)
    && (forall c :: c in logged ==> c in ts)
  }

  lemma {:induction false} Listing(logged: set<nat>) returns (ts: seq<int>)
    ensures Lists(ts, logged)
    decreases |logged|
  {
    if logged == {} {
      ts := [];
    } else {
      var c :| c in logged;
      var rest := Listing(logged - {c});
      ts := rest + [c];
    }
  }

  ghost predicate InRange(sb: Superblock, ts: seq<int>) {
    forall k :: 0 <= k < |ts| ==> sb.inodestart <= ts[k] < sb.size
  }

  ghost function Values(sb: Superblock, d: Image, fs: Fs, ts: seq<int>): (vals: seq<Block>)
    requires Shaped(sb, fs) && |d| == sb.size && InRange(sb, ts)
    ensures |vals| == |ts|
  {
    seq(|ts|, k requires 0 <= k < |ts| => Saving(sb, d, fs, ts[k]))
  }

  /** ws is what commit writes to disk d when the blocks in logged, now as fs has them, are in the log. */
  ghost predicate IsCommit(sb: Superblock, l: Layout, d: Image, fs: Fs, logged: set<nat>, ws: seq<Write>) {
    && Shaped(sb, fs) && |d| == sb.size && l.start < |d|
    && exists ts :: Lists(ts, logged) && |ts| <= LOGSIZE && InRange(sb, ts)
         && ws == CommitWrites(l, d[l.start], ts, Values(sb, d, fs, ts))
  }

  lemma HoldsAfter(sb: Superblock, d: Image, e: Image, x: Fs, y: Fs, logged: set<nat>)
    requires Holds(sb, d, x) && Noted(sb, x, y, logged) && Shaped(sb, y) && |e| == |d|
    requires forall b :: sb.inodestart <= b < sb.size ==> e[b] == if b in logged then Saving(sb, d, y, b) else d[b]
    ensures Holds(sb, e, y)
  {
    hide Words;
    hide Bytes;
    hide InodeAt;
    hide InodesIn;
    forall b | sb.bmapstart <= b < sb.size ensures Bytes(e[b]) == y.blocks[b] {
      BytesOfWords(y.blocks[b]);
    }
    forall j | j in y.inodes ensures j < sb.ninodes && InodeAt(e[sb.InodeBlock(j)], j % IPB) == y.inodes[j] {
      InodeRange(sb, j);
      var b := sb.InodeBlock(j);
      if b in logged {
        InodeRead(sb, d[b], y.inodes, j);
      } else {
        assert SameInode(x.inodes, y.inodes, j);
      }
    }
  }

  /** The log area does not matter to the file system. */
  lemma HomeHolds(sb: Superblock, l: Layout, d: Image, e: Image, fs: Fs)
    requires Holds(sb, d, fs) && LaidOut(sb, l) && |e| == |d|
    requires forall b :: 0 <= b < |d| && !l.InLog(b) ==> e[b] == d[b]
    ensures Holds(sb, e, fs)
  {
    hide Bytes;
    hide InodeAt;
    forall j | j in fs.inodes ensures j < sb.ninodes && InodeAt(e[sb.InodeBlock(j)], j % IPB) == fs.inodes[j] {
      InodeRange(sb, j);
    }
  }

  /** Up to its header write, a cut commit stands for the file system before; from then on for the new one. */
  ghost predicate Either(sb: Superblock, l: Layout, e: Image, x: Fs, y: Fs) {
    GoodLog(l, e) && (Holds(sb, Committed(l, e), x) || Holds(sb, Committed(l, e), y))
  }

  lemma OverlayHolds(sb: Superblock, l: Layout, d: Image, x: Fs, y: Fs, logged: set<nat>, ts: seq<int>)
    requires Saved(sb, l, d, x) && Noted(sb, x, y, logged) && Shaped(sb, y) && Lists(ts, logged)
    ensures InRange(sb, ts) && Holds(sb, Overlay(d, ts, Values(sb, d, y, ts)), y)
  {
    hide Holds;
    hide Saving;
    HoldsSize(sb, d, x);
    var vals := Values(sb, d, y, ts);
    OverlayAt(d, ts, vals);
    var e := Overlay(d, ts, vals);
    forall b | sb.inodestart <= b < sb.size ensures e[b] == if b in logged then Saving(sb, d, y, b) else d[b] {
      if b in logged {
        assert b in ts;
        var k :| 0 <= k < |ts| && ts[k] == b;
        assert e[ts[k]] == vals[k];
      }
    }
    HoldsAfter(sb, d, e, x, y, logged);
  }

  lemma HoldsSize(sb: Superblock, d: Image, fs: Fs)
    requires Holds(sb, d, fs)
    ensures |d| == sb.size && sb.Ok()
  {
  }

  lemma TransactionFits(sb: Superblock, l: Layout, d: Image, x: Fs, y: Fs, logged: set<nat>, ts: seq<int>)
    requires Saved(sb, l, d, x) && Noted(sb, x, y, logged) && Lists(ts, logged) && |logged| <= MAXOPBLOCKS
    ensures Loggable(l, |d|, ts)
  {
    hide Holds;
    HoldsSize(sb, d, x);
  }

  /** A commit of all that was noted, cut after k disk writes. */
  lemma CommitCut(sb: Superblock, l: Layout, d: Image, x: Fs, y: Fs, logged: set<nat>, ts: seq<int>, k: nat)
    requires Saved(sb, l, d, x) && Noted(sb, x, y, logged) && Shaped(sb, y)
    requires Lists(ts, logged) && |logged| <= MAXOPBLOCKS
    ensures InRange(sb, ts) && |d| == sb.size && Loggable(l, |d|, ts)
    ensures var ws := CommitWrites(l, d[l.start], ts, Values(sb, d, y, ts));
            k <= |ws| ==>
              && Either(sb, l, Apply(d, ws[..k]), x, y)
              && (k == |ws| ==> Saved(sb, l, Apply(d, ws), y))
  {
    hide Holds;
    hide CommitWrites;
    HoldsSize(sb, d, x);
    TransactionFits(sb, l, d, x, y, logged, ts);
    OverlayHolds(sb, l, d, x, y, logged, ts);
    var vals := Values(sb, d, y, ts);
    var ws := CommitWrites(l, d[l.start], ts, vals);
    if k <= |ws| {
      CommitPrefix(l, d, ts, vals, k);
      var e := Apply(d, ws[..k]);
      var over := Overlay(d, ts, vals);
      HomeHolds(sb, l, d, Home(l, d), x);
      HomeHolds(sb, l, over, Home(l, over), y);
      if k == |ws| {
        assert ws[..k] == ws;
        CommitEnds(l, d, ts, vals);
        HomeHolds(sb, l, over, e, y);
      }
    }
  }

  lemma CommitEnds(l: Layout, d: Image, ts: seq<int>, vals: seq<Block>)
    requires l.Fits(d) && d[l.start][0] == 0 && |vals| == |ts| && Loggable(l, |d|, ts)
    ensures var e := Apply(d, CommitWrites(l, d[l.start], ts, vals));
            && |e| == |d| && l.Fits(e) && e[l.start][0] == 0
            && forall b :: 0 <= b < |d| && !l.InLog(b) ==> e[b] == Overlay(d, ts, vals)[b]
  {
    var ws := CommitWrites(l, d[l.start], ts, vals);
    var e := Apply(d, ws);
    CommitPrefix(l, d, ts, vals, |ws|);
    assert ws[..|ws|] == ws;
    CommittedEmpty(l, e);
    if ts == [] {
      assert Overlay(d, ts, vals) == d;
    } else {
      assert Home(l, e) == Home(l, Overlay(d, ts, vals));
      forall b | 0 <= b < |d| && !l.InLog(b) ensures e[b] == Overlay(d, ts, vals)[b] {
        assert Home(l, e)[b] == e[b];
        assert Home(l, Overlay(d, ts, vals))[b] == Overlay(d, ts, vals)[b];
      }
    }
  }

  /** Recovery, cut and restarted any number of times, saves what the disk stood for. */
  lemma RecoverySaves(sb: Superblock, l: Layout, e: Image, fs: Fs, cuts: seq<nat>)
    requires GoodLog(l, e) && Holds(sb, Committed(l, e), fs) && LaidOut(sb, l)
    ensures Saved(sb, l, Recover(l, Restarted(l, e, cuts)), fs)
  {
    hide Holds;
    hide RecoveryWrites;
    var r := Restarted(l, e, cuts);
    var ws := RecoveryWrites(l, r);
    RecoveryPrefix(l, r, |ws|);
    assert ws[..|ws|] == ws;
    var f := Recover(l, r);
    forall b | 0 <= b < |f| && !l.InLog(b) ensures f[b] == Committed(l, e)[b] {
      assert Home(l, f)[b] == f[b];
    }
    HomeHolds(sb, l, Committed(l, e), f, fs);
  }
}
