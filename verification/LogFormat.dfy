/** The on-disk redo log and what a crash leaves of it, as functions of disk images. */
module LogFormat {
  import opened BlockDisk

  const MAXOPBLOCKS := 10
  const LOGSIZE := MAXOPBLOCKS * 3

  /** Block `start` is the log header; data slots follow it, up to `start + size`. */
  datatype Layout = Layout(start: nat, size: nat) {
    predicate InLog(b: int) { start <= b < start + size }

    predicate Fits(d: Image) { 1 <= size && start + size <= |d| }
  }

  predicate HeadOk(h: Block) { 0 <= h[0] <= LOGSIZE }

  function HeadTargets(h: Block): seq<int>
    requires HeadOk(h)
  {
    h[1..1 + h[0]]
  }

  /** Writing a header changes the count and the entries in use; older entries stay behind them. */
  function EncodeHead(h: Block, ts: seq<int>): Block
    requires |ts| <= LOGSIZE
  {
    [|ts|] + ts + h[1 + |ts|..]
  }

  lemma HeadRoundTrip(h: Block, ts: seq<int>)
    requires |ts| <= LOGSIZE
    ensures HeadOk(EncodeHead(h, ts)) && HeadTargets(EncodeHead(h, ts)) == ts
  {
    assert EncodeHead(h, ts)[0] == |ts|;
  }

  predicate Distinct(ts: seq<int>) {
    forall i, j :: 0 <= i < j < |ts| ==> ts[i] != ts[j]
  }

  /** Block numbers a transaction may log: distinct home blocks, few enough for header and slots. */
  predicate Loggable(l: Layout, size: nat, ts: seq<int>) {
    && |ts| <= LOGSIZE && |ts| < l.size
    && Distinct(ts)
    && forall i :: 0 <= i < |ts| ==> 0 <= ts[i] < size && !l.InLog(ts[i])
  }

  predicate GoodLog(l: Layout, d: Image) {
    l.Fits(d) && HeadOk(d[l.start]) && Loggable(l, |d|, HeadTargets(d[l.start]))
  }

  /** The disk with its log area blanked out: all that a user of the log can observe. */
  function Home(l: Layout, d: Image): (h: Image)
    ensures |h| == |d|
  {
    seq(|d|, b requires 0 <= b < |d| => if l.InLog(b) then ZERO_BLOCK else d[b])
  }

  function InstallWrites(ts: seq<int>, vals: seq<Block>): (ws: seq<Write>)
    requires |vals| == |ts|
    requires forall i :: 0 <= i < |ts| ==> 0 <= ts[i]
    ensures |ws| == |ts|
  {
    seq(|ts|, i requires 0 <= i < |ts| => Write(ts[i], vals[i]))
  }

  /** d with block ts[i] replaced by vals[i]. */
  function Overlay(d: Image, ts: seq<int>, vals: seq<Block>): (e: Image)
    requires |vals| == |ts|
    requires forall i :: 0 <= i < |ts| ==> 0 <= ts[i]
    ensures |e| == |d|
  {
    Apply(d, InstallWrites(ts, vals))
  }

  lemma OverlayAt(d: Image, ts: seq<int>, vals: seq<Block>)
    requires |vals| == |ts| && Distinct(ts)
    requires forall i :: 0 <= i < |ts| ==> 0 <= ts[i] < |d|
    ensures forall i :: 0 <= i < |ts| ==> Overlay(d, ts, vals)[ts[i]] == vals[i]
    ensures forall b :: 0 <= b < |d| && b !in ts ==> Overlay(d, ts, vals)[b] == d[b]
  {
    var ws := InstallWrites(ts, vals);
    forall i | 0 <= i < |ts| ensures Overlay(d, ts, vals)[ts[i]] == vals[i] {
      assert ws[i].blockno == ts[i];
      ApplyLast(d, ws, i);
    }
    forall b | 0 <= b < |d| && b !in ts ensures Overlay(d, ts, vals)[b] == d[b] {
      ApplyElsewhere(d, ws, b);
    }
  }

  function LogSlots(l: Layout, d: Image, n: nat): (vals: seq<Block>)
    requires l.start + n < |d|
    ensures |vals| == n
  {
    d[l.start + 1..l.start + 1 + n]
  }

  /** What recovery makes of an image: the logged blocks copied home. */
  function Committed(l: Layout, d: Image): Image
    requires GoodLog(l, d)
  {
    var ts := HeadTargets(d[l.start]);
    Home(l, Overlay(d, ts, LogSlots(l, d, |ts|)))
  }

  /** The disk writes of a commit of blocks ts holding vals, over the old header block h. */
  function CommitWrites(l: Layout, h: Block, ts: seq<int>, vals: seq<Block>): seq<Write>
    requires |vals| == |ts| <= LOGSIZE
    requires forall i :: 0 <= i < |ts| ==> 0 <= ts[i]
  {
    if ts == [] then []
    else
      SlotWrites(l, vals)
      + [Write(l.start, EncodeHead(h, ts))]
      + InstallWrites(ts, vals)
      + [Write(l.start, EncodeHead(EncodeHead(h, ts), []))]
  }

  function SlotWrites(l: Layout, vals: seq<Block>): (ws: seq<Write>)
    ensures |ws| == |vals|
  {
    seq(|vals|, i requires 0 <= i < |vals| => Write(l.start + 1 + i, vals[i]))
  }

  /** The disk writes of a recovery from image d. */
  function RecoveryWrites(l: Layout, d: Image): seq<Write>
    requires GoodLog(l, d)
  {
    var ts := HeadTargets(d[l.start]);
    InstallWrites(ts, LogSlots(l, d, |ts|)) + [Write(l.start, EncodeHead(d[l.start], []))]
  }

  /** An image with an empty log commits to its own home blocks. */
  lemma CommittedEmpty(l: Layout, d: Image)
    requires l.Fits(d) && d[l.start][0] == 0
    ensures GoodLog(l, d) && Committed(l, d) == Home(l, d)
  {
    assert HeadTargets(d[l.start]) == [];
    OverlayAt(d, [], []);
  }

  /** An image whose header names ts and whose slots hold vals, partly installed or not. */
  lemma CommittedLogged(l: Layout, base: Image, d: Image, ts: seq<int>, vals: seq<Block>)
    requires l.Fits(d) && |d| == |base| && |vals| == |ts| && Loggable(l, |d|, ts)
    requires HeadOk(d[l.start]) && HeadTargets(d[l.start]) == ts
    requires forall i :: 0 <= i < |ts| ==> d[l.start + 1 + i] == vals[i]
    requires forall b :: 0 <= b < |d| && !l.InLog(b) && b !in ts ==> d[b] == base[b]
    ensures GoodLog(l, d) && Committed(l, d) == Home(l, Overlay(base, ts, vals))
  {
    assert LogSlots(l, d, |ts|) == vals;
    OverlayAt(d, ts, vals);
    OverlayAt(base, ts, vals);
    forall b | 0 <= b < |d| && !l.InLog(b) ensures Overlay(d, ts, vals)[b] == Overlay(base, ts, vals)[b] {
      if b in ts {
        var i :| 0 <= i < |ts| && ts[i] == b;
        assert Overlay(d, ts, vals)[ts[i]] == vals[i] == Overlay(base, ts, vals)[ts[i]];
      }
    }
    assert Home(l, Overlay(d, ts, vals)) == Home(l, Overlay(base, ts, vals));
  }
}
