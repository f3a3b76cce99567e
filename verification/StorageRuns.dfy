/** Whole runs of the storage system: what crashes recover, and when the log overflows. */
module StorageRuns {
  import opened Basics
  import opened BlockDisk
  import opened LogFormat
  import opened Storage
  import opened StorageProof

  ghost predicate Init(l: Layout, s: State) {
    GoodLog(l, s.disk) && s == State(s.disk, map[], [], map[], Boot)
  }

  /** tr[i] goes to tr[i + 1] by acts[i]. */
  ghost predicate Run(l: Layout, tr: seq<State>, acts: seq<Action>) {
    && |tr| == |acts| + 1 && Init(l, tr[0])
    && forall i :: 0 <= i < |acts| ==> Next(l, tr[i], acts[i], tr[i + 1])
  }

  lemma {:induction false} RunKeepsInv(l: Layout, tr: seq<State>, acts: seq<Action>, i: nat)
    requires Run(l, tr, acts) && i < |tr|
    ensures Inv(l, tr[i])
  {
    if i > 0 {
      RunKeepsInv(l, tr, acts, i - 1);
      StepRefines(l, tr[i - 1], acts[i - 1], tr[i]);
    }
  }

  ghost predicate Simulated(l: Layout, s: State, a: Action, s': State) {
    Inv(l, s) && Inv(l, s') && SpecNext(Abs(l, s), a, Abs(l, s'))
  }

  /** A run of the system is, state by state, a run of its specification. */
  lemma RunRefines(l: Layout, tr: seq<State>, acts: seq<Action>)
    requires Run(l, tr, acts)
    ensures forall i :: 0 <= i < |acts| ==> Simulated(l, tr[i], acts[i], tr[i + 1])
  {
    forall i | 0 <= i < |acts| ensures Simulated(l, tr[i], acts[i], tr[i + 1]) {
      RunKeepsInv(l, tr, acts, i);
      StepRefines(l, tr[i], acts[i], tr[i + 1]);
    }
  }

  /** The home blocks as they stood at the last header write of a commit. */
  ghost function LastCommit(l: Layout, tr: seq<State>, acts: seq<Action>): Image
    requires Run(l, tr, acts)
    decreases |acts|
  {
    var n := |acts|;
    if n == 0 then Committed(l, tr[0].disk)
    else if acts[n - 1] == WriteHead then Home(l, View(tr[n - 1].disk, tr[n - 1].cache))
    else
      assert Run(l, tr[..n], acts[..n - 1]);
      LastCommit(l, tr[..n], acts[..n - 1])
  }

  /**
   * However a run interleaves operations, readers, evictions, commits, crashes and cut
   * recoveries, recovering now would yield the home blocks of the last commit: every operation
   * finished by then, and no part of any other.
   */
  lemma {:induction false} RecoversLastCommit(l: Layout, tr: seq<State>, acts: seq<Action>)
    requires Run(l, tr, acts)
    ensures GoodLog(l, tr[|acts|].disk) && Committed(l, tr[|acts|].disk) == LastCommit(l, tr, acts)
    decreases |acts|
  {
    hide Committed;
    hide Home;
    hide Inv;
    hide Next;
    var n := |acts|;
    if n > 0 {
      RunRefines(l, tr, acts);
      assert Simulated(l, tr[n - 1], acts[n - 1], tr[n]);
      InvGood(l, tr[n - 1]);
      InvGood(l, tr[n]);
      if acts[n - 1] == WriteHead {
        CommitsCurrent(l, tr[n - 1], tr[n]);
      } else {
        RecoversLastCommit(l, tr[..n], acts[..n - 1]);
      }
    }
  }

  /** At a commit no operation is open, and the current image becomes the durable one. */
  lemma CommitsCurrent(l: Layout, s: State, s': State)
    requires Inv(l, s) && Next(l, s, WriteHead, s')
    ensures s.ops == map[] && GoodLog(l, s'.disk) && Committed(l, s'.disk) == Home(l, View(s.disk, s.cache))
  {
    hide Committed;
    hide Home;
    WriteHeadStep(l, s, s');
  }

  /** A buffer whose data is not on disk is pinned or locked, so it is never recycled. */
  lemma UnsavedBufferStays(l: Layout, tr: seq<State>, acts: seq<Action>, i: nat, b: int)
    requires Run(l, tr, acts) && i < |tr| && b in tr[i].cache && 0 <= b < |tr[i].disk|
    requires tr[i].cache[b].data != tr[i].disk[b]
    ensures tr[i].cache[b].pins == 1 || tr[i].cache[b].holder.Some?
    ensures i < |acts| && acts[i] != Crash ==> acts[i] != Evict(b)
  {
    RunKeepsInv(l, tr, acts, i);
    assert SlotOk(l, tr[i], b);
    assert i < |acts| ==> Next(l, tr[i], acts[i], tr[i + 1]);
  }

  // ----- the size of the log

  ghost predicate Reachable(l: Layout, s: State) {
    exists tr, acts :: Run(l, tr, acts) && s == tr[|acts|]
  }

  lemma ReachStart(l: Layout, s: State)
    requires Init(l, s)
    ensures Reachable(l, s)
  {
    assert Run(l, [s], []);
  }

  lemma ReachNext(l: Layout, s: State, a: Action, s': State)
    requires Reachable(l, s) && Next(l, s, a, s')
    ensures Reachable(l, s')
  {
    var tr, acts :| Run(l, tr, acts) && s == tr[|acts|];
    assert Run(l, tr + [s'], acts + [a]);
  }

  /** Operation p reads block b, logs it unchanged and gives it back. */
  function WithLogged(s: State, p: nat, b: nat): State
    requires b < |s.disk| && p in s.ops
  {
    s.(cache := s.cache[b := Slot(s.disk[b], None, 0, 1, false)], lh := s.lh + [b],
       ops := s.ops[p := s.ops[p] + 1])
  }

  lemma LogOne(l: Layout, s: State, p: nat, b: nat)
    requires Reachable(l, s) && p in s.ops && s.ops[p] < MAXOPBLOCKS
    requires b < |s.disk| && b !in s.cache && b !in s.lh && !l.InLog(b) && !LogFull(l, |s.lh|)
    ensures Reachable(l, WithLogged(s, p, b))
  {
    hide Reachable;
    var c := Slot(s.disk[b], None, 1, 0, false);
    var s1 := s.(cache := s.cache[b := c]);
    ReachNext(l, s, Get(b), s1);
    var s2 := s.(cache := s.cache[b := c.(holder := Some(p))]);
    assert s2 == s1.(cache := s1.cache[b := s1.cache[b].(holder := Some(p))]);
    ReachNext(l, s1, Lock(p, b), s2);
    var s3 := s.(cache := s.cache[b := c.(holder := Some(p), pins := 1)], lh := s.lh + [b],
                 ops := s.ops[p := s.ops[p] + 1]);
    assert s3 == AfterLogWrite(s2, p, b);
    ReachNext(l, s2, LogWrite(p, b), s3);
    var s4 := WithLogged(s, p, b);
    assert s4 == s3.(cache := s3.cache[b := s3.cache[b].(holder := None, users := 0)]);
    ReachNext(l, s3, Release(p, b), s4);
  }

  /** The run that fills a log: of the k blocks, operation 0 logs the first ten, and so on. */
  function Filled(s: State, home: seq<nat>, k: nat): (r: State)
    requires k <= |home| < LOGSIZE && forall i :: 0 <= i < |home| ==> home[i] < |s.disk|
    requires s.lh == [] && s.cache == map[] && s.ops == map[0 := 0, 1 := 0, 2 := 0]
    ensures r.disk == s.disk && r.lh == home[..k]
    ensures forall b :: b in r.cache ==> b in home[..k]
    ensures 0 in r.ops && r.ops[0] == Share(k, 0)
    ensures 1 in r.ops && r.ops[1] == Share(k, 1)
    ensures 2 in r.ops && r.ops[2] == Share(k, 2)
  {
    if k == 0 then s
    else
      var before := Filled(s, home, k - 1);
      assert home[..k] == home[..k - 1] + [home[k - 1]];
      WithLogged(before, Turn(k - 1), home[k - 1])
  }

  function Turn(k: nat): nat {
    if k < MAXOPBLOCKS then 0 else if k < 2 * MAXOPBLOCKS then 1 else 2
  }

  function Share(k: nat, p: nat): nat {
    if k <= p * MAXOPBLOCKS then 0
    else if k <= (p + 1) * MAXOPBLOCKS then k - p * MAXOPBLOCKS
    else MAXOPBLOCKS
  }

  lemma {:induction false} FilledReachable(l: Layout, s: State, home: seq<nat>, k: nat)
    requires k <= |home| < LOGSIZE && k <= l.size - 1
    requires forall i :: 0 <= i < |home| ==> home[i] < |s.disk| && !l.InLog(home[i])
    requires forall i, j :: 0 <= i < j < |home| ==> home[i] != home[j]
    requires s.lh == [] && s.cache == map[] && s.ops == map[0 := 0, 1 := 0, 2 := 0]
    requires Reachable(l, s)
    ensures Reachable(l, Filled(s, home, k))
  {
    if k > 0 {
      FilledReachable(l, s, home, k - 1);
      LogOne(l, Filled(s, home, k - 1), Turn(k - 1), home[k - 1]);
    }
  }

  /** Boot on an empty log, then three operations begin: the reservation admits all three. */
  lemma ThreeBegin(l: Layout, d: Image)
    requires l.Fits(d) && d[l.start][0] == 0
    ensures |d[l.start := EncodeHead(d[l.start], [])]| == |d|
    ensures Reachable(l, State(d[l.start := EncodeHead(d[l.start], [])], map[], [], map[0 := 0, 1 := 0, 2 := 0], Normal))
  {
    hide Reachable;
    var e := d[l.start := EncodeHead(d[l.start], [])];
    CommittedEmpty(l, d);
    var s0 := State(d, map[], [], map[], Boot);
    ReachStart(l, s0);
    var s1 := State(d, map[], [], map[], Replaying(0));
    ReachNext(l, s0, ReadHead, s1);
    var s2 := State(e, map[], [], map[], Normal);
    ReachNext(l, s1, ReplayDone, s2);
    var s3 := s2.(ops := map[0 := 0]);
    ReachNext(l, s2, BeginOp(0), s3);
    var s4 := s2.(ops := map[0 := 0, 1 := 0]);
    assert s4.ops == s3.ops[1 := 0] && |s3.ops| == 1;
    ReachNext(l, s3, BeginOp(1), s4);
    var s5 := s2.(ops := map[0 := 0, 1 := 0, 2 := 0]);
    assert s5.ops == s4.ops[2 := 0];
    assert s4.ops.Keys == {0, 1} && |s4.ops.Keys| == 2;
    ReachNext(l, s4, BeginOp(2), s5);
  }

  /** An operation that has kept to its reservation is stopped by log_write with a new block. */
  ghost predicate Overflows(l: Layout) {
    exists s, p :: Reachable(l, s) && p in s.ops && s.ops[p] < MAXOPBLOCKS && LogFull(l, |s.lh|)
  }

  /**
   * begin_op reserves LOGSIZE blocks but log_write also needs the header's block: an operation
   * within its reservation can be stopped exactly when the log area is no larger than LOGSIZE,
   * which is the size mkfs gives it. Any disk with an empty log and enough home blocks will do.
   */
  lemma OverflowsIffLogTooSmall(l: Layout, d: Image, home: seq<nat>)
    requires l.Fits(d) && d[l.start][0] == 0
    requires l.size <= LOGSIZE ==> |home| == l.size - 1
    requires forall i :: 0 <= i < |home| ==> home[i] < |d| && !l.InLog(home[i])
    requires forall i, j :: 0 <= i < j < |home| ==> home[i] != home[j]
    ensures Overflows(l) <==> l.size <= LOGSIZE
  {
    hide Reachable;
    if l.size <= LOGSIZE {
      ThreeBegin(l, d);
      var s := State(d[l.start := EncodeHead(d[l.start], [])], map[], [], map[0 := 0, 1 := 0, 2 := 0], Normal);
      FilledReachable(l, s, home, |home|);
      var f := Filled(s, home, |home|);
      assert f.ops[2] == Share(|home|, 2) < MAXOPBLOCKS;
    } else if Overflows(l) {
      var s, p :| Reachable(l, s) && p in s.ops && s.ops[p] < MAXOPBLOCKS && LogFull(l, |s.lh|);
      ReachableInv(l, s);
      RoomForNewBlock(s, p);
    }
  }

  lemma ReachableInv(l: Layout, s: State)
    requires Reachable(l, s)
    ensures Inv(l, s)
  {
    var tr, acts :| Run(l, tr, acts) && s == tr[|acts|];
    RunKeepsInv(l, tr, acts, |acts|);
  }
}
