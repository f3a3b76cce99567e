/** Crash atomicity of the redo log: commits and recoveries cut after any disk write. */
module LogCrash {
  import opened BlockDisk
  import opened LogFormat

  lemma SlotsWritten(l: Layout, d: Image, vals: seq<Block>, k: nat)
    requires l.Fits(d) && |vals| < l.size && k <= |vals|
    ensures var e := Apply(d, SlotWrites(l, vals)[..k]);
            && |e| == |d|
            && (forall i :: 0 <= i < k ==> e[l.start + 1 + i] == vals[i])
            && (forall b :: 0 <= b < |d| && !(l.start < b <= l.start + k) ==> e[b] == d[b])
  {
    var ws := SlotWrites(l, vals)[..k];
    forall i | 0 <= i < k ensures Apply(d, ws)[l.start + 1 + i] == vals[i] {
      assert ws[i].blockno == l.start + 1 + i;
      ApplyLast(d, ws, i);
    }
    forall b | 0 <= b < |d| && !(l.start < b <= l.start + k) ensures Apply(d, ws)[b] == d[b] {
      ApplyElsewhere(d, ws, b);
    }
  }

  /** Installing the first k blocks touches only those blocks. */
  lemma InstalledPrefix(d: Image, ts: seq<int>, vals: seq<Block>, k: nat)
    requires |vals| == |ts| && Distinct(ts) && k <= |ts|
    requires forall i :: 0 <= i < |ts| ==> 0 <= ts[i] < |d|
    ensures var e := Apply(d, InstallWrites(ts, vals)[..k]);
            && |e| == |d|
            && (forall b :: 0 <= b < |d| && b !in ts[..k] ==> e[b] == d[b])
            && (forall i :: 0 <= i < k ==> e[ts[i]] == vals[i])
  {
    assert InstallWrites(ts, vals)[..k] == InstallWrites(ts[..k], vals[..k]);
    OverlayAt(d, ts[..k], vals[..k]);
    forall i | 0 <= i < k ensures Apply(d, InstallWrites(ts, vals)[..k])[ts[i]] == vals[i] {
      assert ts[..k][i] == ts[i] && vals[..k][i] == vals[i];
    }
  }

  /** The image between the header write and the header clear, after j installs. */
  function Installing(l: Layout, d: Image, ts: seq<int>, vals: seq<Block>, j: nat): (e: Image)
    requires l.Fits(d) && |vals| == |ts| && Loggable(l, |d|, ts) && j <= |ts|
    ensures |e| == |d|
  {
    var logged := Apply(d, SlotWrites(l, vals))[l.start := EncodeHead(d[l.start], ts)];
    Apply(logged, InstallWrites(ts, vals)[..j])
  }

  lemma InstallingShape(l: Layout, d: Image, ts: seq<int>, vals: seq<Block>, j: nat)
    requires l.Fits(d) && |vals| == |ts| && Loggable(l, |d|, ts) && j <= |ts|
    ensures var e := Installing(l, d, ts, vals, j);
            && |e| == |d| && e[l.start] == EncodeHead(d[l.start], ts)
            && (forall i :: 0 <= i < |ts| ==> e[l.start + 1 + i] == vals[i])
            && (forall i :: 0 <= i < j ==> e[ts[i]] == vals[i])
            && (forall b :: 0 <= b < |d| && !l.InLog(b) && b !in ts ==> e[b] == d[b])
  {
    assert SlotWrites(l, vals)[..|vals|] == SlotWrites(l, vals);
    SlotsWritten(l, d, vals, |vals|);
    var logged := Apply(d, SlotWrites(l, vals))[l.start := EncodeHead(d[l.start], ts)];
    InstalledPrefix(logged, ts, vals, j);
    forall b | 0 <= b < |d| && b in ts[..j] ensures b in ts && !l.InLog(b) {
    }
  }

  /** The disk while the slots are written, that is before the header is. */
  lemma BeforeHead(l: Layout, d: Image, ts: seq<int>, vals: seq<Block>, k: nat)
    requires l.Fits(d) && |vals| == |ts| && ts != [] && Loggable(l, |d|, ts) && k <= |ts|
    ensures Apply(d, CommitWrites(l, d[l.start], ts, vals)[..k]) == Apply(d, SlotWrites(l, vals)[..k])
  {
    assert CommitWrites(l, d[l.start], ts, vals)[..k] == SlotWrites(l, vals)[..k];
  }

  /** The disk while the header names the transaction. */
  lemma AfterHead(l: Layout, d: Image, ts: seq<int>, vals: seq<Block>, j: nat)
    requires l.Fits(d) && |vals| == |ts| && ts != [] && Loggable(l, |d|, ts) && j <= |ts|
    ensures Apply(d, CommitWrites(l, d[l.start], ts, vals)[..|ts| + 1 + j]) == Installing(l, d, ts, vals, j)
  {
    var slots, installs := SlotWrites(l, vals), InstallWrites(ts, vals);
    var head := Write(l.start, EncodeHead(d[l.start], ts));
    assert CommitWrites(l, d[l.start], ts, vals)[..|ts| + 1 + j] == slots + [head] + installs[..j];
    ApplyConcat(d, slots + [head], installs[..j]);
    ApplyStep(d, slots, head);
  }

  /** The disk after the whole commit. */
  lemma AfterClear(l: Layout, d: Image, ts: seq<int>, vals: seq<Block>)
    requires l.Fits(d) && |vals| == |ts| && ts != [] && Loggable(l, |d|, ts)
    ensures var ws := CommitWrites(l, d[l.start], ts, vals);
            && |ws| == 2 * |ts| + 2
            && Apply(d, ws) ==
               Installing(l, d, ts, vals, |ts|)[l.start := EncodeHead(EncodeHead(d[l.start], ts), [])]
  {
    var n := |ts|;
    var ws := CommitWrites(l, d[l.start], ts, vals);
    var clear := Write(l.start, EncodeHead(EncodeHead(d[l.start], ts), []));
    assert ws == ws[..n + 1 + n] + [clear];
    AfterHead(l, d, ts, vals, n);
    ApplyStep(d, ws[..n + 1 + n], clear);
  }

  /**
   * A commit cut after k disk writes: before the header write the disk still commits to the old
   * home blocks, from the header write on to the new ones, and nothing in between exists.
   */
  lemma CommitPrefix(l: Layout, d: Image, ts: seq<int>, vals: seq<Block>, k: nat)
    requires l.Fits(d) && d[l.start][0] == 0 && |vals| == |ts| && Loggable(l, |d|, ts)
    requires k <= |CommitWrites(l, d[l.start], ts, vals)|
    ensures var e := Apply(d, CommitWrites(l, d[l.start], ts, vals)[..k]);
            && |e| == |d| && GoodLog(l, e)
            && Committed(l, e) == (if k <= |ts| then Home(l, d) else Home(l, Overlay(d, ts, vals)))
            && (k == |CommitWrites(l, d[l.start], ts, vals)| ==> e[l.start][0] == 0)
  {
    if ts == [] {
      CommittedEmpty(l, d);
    } else {
      CommitPrefixNonempty(l, d, ts, vals, k);
    }
  }

  lemma CommitPrefixNonempty(l: Layout, d: Image, ts: seq<int>, vals: seq<Block>, k: nat)
    requires l.Fits(d) && d[l.start][0] == 0 && |vals| == |ts| && ts != [] && Loggable(l, |d|, ts)
    requires k <= |CommitWrites(l, d[l.start], ts, vals)|
    ensures var e := Apply(d, CommitWrites(l, d[l.start], ts, vals)[..k]);
            && |e| == |d| && GoodLog(l, e)
            && Committed(l, e) == (if k <= |ts| then Home(l, d) else Home(l, Overlay(d, ts, vals)))
            && (k == |CommitWrites(l, d[l.start], ts, vals)| ==> e[l.start][0] == 0)
  {
    hide Apply;
    hide Installing;
    hide Overlay;
    hide Home;
    hide CommitWrites;
    hide GoodLog;
    hide Committed;
    var ws := CommitWrites(l, d[l.start], ts, vals);
    AfterClear(l, d, ts, vals);
    if k <= |ts| {
      CommitNotReached(l, d, ts, vals, k);
    } else if k <= 2 * |ts| + 1 {
      CommitReached(l, d, ts, vals, k - |ts| - 1);
    } else {
      assert ws[..k] == ws;
      CommitDone(l, d, Apply(d, ws), ts, vals);
    }
  }

  lemma CommitNotReached(l: Layout, d: Image, ts: seq<int>, vals: seq<Block>, k: nat)
    requires l.Fits(d) && d[l.start][0] == 0 && |vals| == |ts| && ts != [] && Loggable(l, |d|, ts) && k <= |ts|
    ensures var e := Apply(d, CommitWrites(l, d[l.start], ts, vals)[..k]);
            GoodLog(l, e) && Committed(l, e) == Home(l, d)
  {
    hide Apply;
    hide CommitWrites;
    BeforeHead(l, d, ts, vals, k);
    SlotsWritten(l, d, vals, k);
    var e := Apply(d, SlotWrites(l, vals)[..k]);
    CommittedEmpty(l, e);
    assert Home(l, e) == Home(l, d);
  }

  lemma CommitReached(l: Layout, d: Image, ts: seq<int>, vals: seq<Block>, j: nat)
    requires l.Fits(d) && |vals| == |ts| && ts != [] && Loggable(l, |d|, ts) && j <= |ts|
    ensures var e := Apply(d, CommitWrites(l, d[l.start], ts, vals)[..|ts| + 1 + j]);
            GoodLog(l, e) && Committed(l, e) == Home(l, Overlay(d, ts, vals))
  {
    AfterHead(l, d, ts, vals, j);
    InstallingShape(l, d, ts, vals, j);
    HeadRoundTrip(d[l.start], ts);
    CommittedLogged(l, d, Installing(l, d, ts, vals, j), ts, vals);
  }

  lemma CommitDone(l: Layout, d: Image, e: Image, ts: seq<int>, vals: seq<Block>)
    requires l.Fits(d) && |vals| == |ts| && Loggable(l, |d|, ts)
    requires e == Installing(l, d, ts, vals, |ts|)[l.start := EncodeHead(EncodeHead(d[l.start], ts), [])]
    ensures |e| == |d| && e[l.start][0] == 0 && GoodLog(l, e)
    ensures Home(l, e) == Committed(l, e) == Home(l, Overlay(d, ts, vals))
  {
    InstallingShape(l, d, ts, vals, |ts|);
    CommittedEmpty(l, e);
    OverlayAt(d, ts, vals);
    forall b | 0 <= b < |d| && !l.InLog(b) ensures e[b] == Overlay(d, ts, vals)[b] {
      if b in ts {
        var i :| 0 <= i < |ts| && ts[i] == b;
        assert e[ts[i]] == vals[i] == Overlay(d, ts, vals)[ts[i]];
      }
    }
    assert Home(l, e) == Home(l, Overlay(d, ts, vals));
  }

  /** Installing some of the logged blocks leaves the log, and so what it commits to, as it was. */
  lemma PartlyInstalled(l: Layout, d: Image, ts: seq<int>, vals: seq<Block>, k: nat)
    requires l.Fits(d) && HeadOk(d[l.start]) && HeadTargets(d[l.start]) == ts && Loggable(l, |d|, ts)
    requires |vals| == |ts| && k <= |ts|
    requires forall i :: 0 <= i < |ts| ==> d[l.start + 1 + i] == vals[i]
    ensures var f := Apply(d, InstallWrites(ts, vals)[..k]);
            GoodLog(l, f) && Committed(l, f) == Home(l, Overlay(d, ts, vals)) && f[l.start] == d[l.start]
  {
    hide Apply;
    hide InstallWrites;
    InstalledPrefix(d, ts, vals, k);
    var f := Apply(d, InstallWrites(ts, vals)[..k]);
    forall b | 0 <= b < |d| && (l.InLog(b) || b !in ts) ensures f[b] == d[b] {
    }
    CommittedLogged(l, d, f, ts, vals);
  }

  lemma RecoveryFront(l: Layout, d: Image, k: nat)
    requires GoodLog(l, d) && k <= d[l.start][0]
    ensures var ts := HeadTargets(d[l.start]);
            var ws := InstallWrites(ts, LogSlots(l, d, |ts|));
            |ws| == |ts| == d[l.start][0] && |RecoveryWrites(l, d)| == |ws| + 1 && RecoveryWrites(l, d)[..k] == ws[..k]
  {
    hide Loggable;
  }

  lemma RecoveryCut(l: Layout, d: Image, k: nat)
    requires GoodLog(l, d) && k <= d[l.start][0]
    ensures var e := Apply(d, RecoveryWrites(l, d)[..k]);
            && GoodLog(l, e) && Committed(l, e) == Committed(l, d)
            && e[l.start] == d[l.start]
            && (k == d[l.start][0] ==> Home(l, e) == Committed(l, d))
  {
    hide Apply;
    hide Home;
    hide RecoveryWrites;
    hide InstallWrites;
    var ts := HeadTargets(d[l.start]);
    var vals := LogSlots(l, d, |ts|);
    RecoveryFront(l, d, k);
    PartlyInstalled(l, d, ts, vals, k);
    if k == |ts| {
      assert InstallWrites(ts, vals)[..k] == InstallWrites(ts, vals);
    }
  }

  /** A recovery cut after k disk writes leaves what the disk commits to unchanged. */
  lemma RecoveryPrefix(l: Layout, d: Image, k: nat)
    requires GoodLog(l, d) && k <= |RecoveryWrites(l, d)|
    ensures var e := Apply(d, RecoveryWrites(l, d)[..k]);
            && GoodLog(l, e) && Committed(l, e) == Committed(l, d)
            && (k == |RecoveryWrites(l, d)| ==> e[l.start][0] == 0 && Home(l, e) == Committed(l, d))
  {
    hide Apply;
    hide Committed;
    var n, ws := d[l.start][0], RecoveryWrites(l, d);
    if k <= n {
      RecoveryCut(l, d, k);
    } else {
      RecoveryCut(l, d, n);
      var f, clear := Apply(d, ws[..n]), Write(l.start, EncodeHead(d[l.start], []));
      assert ws[..k] == ws[..n] + [clear];
      ApplyStep(d, ws[..n], clear);
      CommittedEmpty(l, f[l.start := clear.data]);
      assert Home(l, f[l.start := clear.data]) == Home(l, f);
    }
  }

  /** The image after a series of recoveries, the i-th of them cut short after cuts[i] writes. */
  function Restarted(l: Layout, d: Image, cuts: seq<nat>): (e: Image)
    requires GoodLog(l, d)
    ensures |e| == |d| && GoodLog(l, e) && Committed(l, e) == Committed(l, d)
    decreases |cuts|
  {
    if cuts == [] then d
    else
      var ws := RecoveryWrites(l, d);
      var k := if cuts[0] <= |ws| then cuts[0] else |ws|;
      RecoveryPrefix(l, d, k);
      Restarted(l, Apply(d, ws[..k]), cuts[1..])
  }

  function Recover(l: Layout, d: Image): Image
    requires GoodLog(l, d)
  {
    Apply(d, RecoveryWrites(l, d))
  }

  /**
   * Crash atomicity. Cut a commit after any number k of its writes, then cut any number of
   * recoveries anywhere, then let one finish: every home block is as before the commit if the
   * header had not been written, and as after it otherwise; the log is empty again.
   */
  lemma CrashAtomicity(l: Layout, d: Image, ts: seq<int>, vals: seq<Block>, k: nat, cuts: seq<nat>)
    requires l.Fits(d) && d[l.start][0] == 0 && |vals| == |ts| && Loggable(l, |d|, ts)
    requires k <= |CommitWrites(l, d[l.start], ts, vals)|
    ensures var crashed := Apply(d, CommitWrites(l, d[l.start], ts, vals)[..k]);
            && GoodLog(l, crashed)
            && var final := Recover(l, Restarted(l, crashed, cuts));
               && |final| == |d| && final[l.start][0] == 0
               && forall b :: 0 <= b < |d| && !l.InLog(b) ==>
                    final[b] == if k <= |ts| then d[b] else Overlay(d, ts, vals)[b]
  {
    CommitPrefix(l, d, ts, vals, k);
    var crashed := Apply(d, CommitWrites(l, d[l.start], ts, vals)[..k]);
    var restarted := Restarted(l, crashed, cuts);
    var ws := RecoveryWrites(l, restarted);
    assert ws[..|ws|] == ws;
    RecoveryPrefix(l, restarted, |ws|);
    var final := Recover(l, restarted);
    OverlayAt(d, ts, vals);
    forall b | 0 <= b < |d| && !l.InLog(b)
      ensures final[b] == if k <= |ts| then d[b] else Overlay(d, ts, vals)[b]
    {
      assert final[b] == Home(l, final)[b];
      assert Home(l, d)[b] == d[b] && Home(l, Overlay(d, ts, vals))[b] == Overlay(d, ts, vals)[b];
    }
  }
}
