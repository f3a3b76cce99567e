/** What the storage system gets done: the last operation to end commits, and a commit comes to its end. */
module StorageProgress {
  import opened Basics
  import opened BlockDisk
  import opened LogFormat
  import opened Storage
  import opened StorageProof
  import opened StorageRuns

  /** tr[i] goes to tr[i + 1] by acts[i]. */
  ghost predicate Path(l: Layout, tr: seq<State>, acts: seq<Action>) {
    && |tr| == |acts| + 1
    && forall i :: 0 <= i < |acts| ==> Next(l, tr[i], acts[i], tr[i + 1])
  }

  lemma Prepend(l: Layout, s: State, a: Action, tr: seq<State>, acts: seq<Action>)
    requires Path(l, tr, acts) && Next(l, s, a, tr[0])
    ensures Path(l, [s] + tr, [a] + acts)
  {
    hide Next;
  }

  // ----- the committer

  predicate ByCommitter(a: Action) { a.WriteSlot? || a.WriteHead? || a.InstallOne? || a.ClearHead? }

  predicate Committing(s: State) { s.phase.Logging? || s.phase.Installing? }

  /** The disk writes still to come. */
  function Writes(s: State): int {
    match s.phase
    case Logging(k) => 2 * |s.lh| + 2 - k
    case Installing(k) => |s.lh| + 1 - k
    case _ => 0
  }

  lemma SlotReady(l: Layout, s: State, k: nat)
    requires Inv(l, s) && k < |s.lh| && (s.phase.Logging? || (s.phase.Installing? && s.phase.installed <= k))
    ensures s.lh[k] in s.cache && 0 <= s.lh[k] < |s.disk| && l.start + 1 + k < |s.disk| && s.cache[s.lh[k]].pins > 0
  {
    hide Reserved;
    var j := if s.phase.Logging? then k else k - s.phase.installed;
    assert Pinned(s)[j] == s.lh[k];
    assert SlotOk(l, s, s.lh[k]);
  }

  lemma CommitBounds(l: Layout, s: State)
    requires Inv(l, s)
    ensures l.start < |s.disk| && |s.lh| <= LOGSIZE && GoodLog(l, s.disk)
    ensures match s.phase
            case Normal => s.ops == map[] ==> s.lh == []
            case Logging(k) => k <= |s.lh| && s.ops == map[]
            case Installing(k) => k <= |s.lh| && s.ops == map[]
            case _ => true
  {
    hide CacheOk;
    hide Reserved;
  }

  lemma LoggingStep(l: Layout, s: State) returns (a: Action, t: State)
    requires Inv(l, s) && s.phase.Logging?
    ensures Next(l, s, a, t) && ByCommitter(a) && 0 <= Writes(t) < Writes(s) && Committing(t)
    ensures t.ops == map[] && |t.disk| == |s.disk|
  {
    hide Inv;
    CommitBounds(l, s);
    var k := s.phase.logged;
    if k < |s.lh| {
      SlotReady(l, s, k);
      a, t := WriteSlot, AfterWriteSlot(l, s, k);
    } else {
      a, t := WriteHead, AfterWriteHead(l, s);
    }
  }

  lemma InstallingStep(l: Layout, s: State) returns (a: Action, t: State)
    requires Inv(l, s) && s.phase.Installing?
    ensures Next(l, s, a, t) && ByCommitter(a) && 0 <= Writes(t) < Writes(s)
    ensures Committing(t) || (t.phase.Normal? && t.lh == [])
    ensures t.ops == map[] && |t.disk| == |s.disk|
  {
    hide Inv;
    CommitBounds(l, s);
    var k := s.phase.installed;
    if k < |s.lh| {
      SlotReady(l, s, k);
      a, t := InstallOne, AfterInstall(l, s, k);
    } else {
      a, t := ClearHead, AfterClear(l, s);
    }
  }

  /** The committer is never stuck: it has a step, which brings it closer to its end. */
  lemma CommitterStep(l: Layout, s: State) returns (a: Action, t: State)
    requires Inv(l, s) && Committing(s)
    ensures Next(l, s, a, t) && ByCommitter(a) && Inv(l, t) && 0 <= Writes(t) < Writes(s)
    ensures Committing(t) || (t.phase.Normal? && t.lh == [])
    ensures t.ops == map[] && |t.disk| == |s.disk|
  {
    hide Inv;
    hide Next;
    if s.phase.Logging? {
      a, t := LoggingStep(l, s);
    } else {
      a, t := InstallingStep(l, s);
    }
    StepRefines(l, s, a, t);
  }

  /** Meanwhile readers may come and go, but the commit stays where it is, and no operation begins. */
  lemma OthersWait(l: Layout, s: State, a: Action, t: State)
    requires Inv(l, s) && Committing(s) && Next(l, s, a, t) && !ByCommitter(a) && !a.Crash?
    ensures t.phase == s.phase && t.lh == s.lh && t.ops == s.ops == map[] && t.disk == s.disk
  {
    CommitBounds(l, s);
    hide Inv;
  }

  lemma SameImage(l: Layout, s: State, a: Action, t: State)
    requires Inv(l, s) && Next(l, s, a, t) && !s.Booting() && !t.Booting() && !a.Modify?
    ensures GoodLog(l, s.disk) && GoodLog(l, t.disk) && Home(l, View(t.disk, t.cache)) == Home(l, View(s.disk, s.cache))
  {
    InvGood(l, s);
    StepRefines(l, s, a, t);
    InvGood(l, t);
    hide Inv;
    hide Next;
    hide View;
    hide Home;
    hide Committed;
    hide GoodLog;
  }

  /** In a quiet state the disk alone stands for what the kernel sees. */
  lemma QuietDurable(l: Layout, s: State)
    requires Inv(l, s) && s.phase.Normal? && s.ops == map[]
    ensures s.lh == [] && GoodLog(l, s.disk) && Committed(l, s.disk) == Home(l, View(s.disk, s.cache))
  {
    hide Reserved;
    assert Pinned(s) == [];
    OnlyPinnedDiffer(l, s);
    hide CacheOk;
    assert View(s.disk, s.cache) == s.disk;
    CommittedEmpty(l, s.disk);
  }

  /** The committer alone takes any commit to its end. */
  lemma {:induction false} CommitFinishes(l: Layout, s: State) returns (tr: seq<State>, acts: seq<Action>)
    requires Inv(l, s) && (Committing(s) || (s.phase.Normal? && s.ops == map[]))
    ensures Path(l, tr, acts) && tr[0] == s && forall i :: 0 <= i < |acts| ==> ByCommitter(acts[i])
    ensures var t := tr[|acts|];
            && Inv(l, t) && t.phase.Normal? && t.ops == map[] && t.lh == []
            && GoodLog(l, t.disk) && Committed(l, t.disk) == Home(l, View(t.disk, t.cache)) == Home(l, View(s.disk, s.cache))
    decreases Writes(s)
  {
    hide Inv;
    hide Next;
    hide View;
    hide Home;
    hide Committed;
    hide GoodLog;
    if s.phase.Normal? {
      tr, acts := [s], [];
      QuietDurable(l, s);
    } else {
      var a, t := CommitterStep(l, s);
      SameImage(l, s, a, t);
      var rest, more := CommitFinishes(l, t);
      Prepend(l, s, a, rest, more);
      tr, acts := [s] + rest, [a] + more;
    }
  }

  // ----- the last operation to end

  /** While no operation is open and nobody commits, nothing waits to be committed. */
  lemma NothingPending(l: Layout, tr: seq<State>, acts: seq<Action>, i: nat)
    requires Run(l, tr, acts) && i < |tr| && tr[i].phase.Normal? && tr[i].ops == map[]
    ensures tr[i].lh == []
    ensures GoodLog(l, tr[i].disk) && Committed(l, tr[i].disk) == Home(l, View(tr[i].disk, tr[i].cache))
  {
    RunKeepsInv(l, tr, acts, i);
    QuietDurable(l, tr[i]);
  }

  /**
   * The last operation to end starts the commit at once if anything was logged; steps of the
   * committer alone then bring all that the kernel saw before the end to the disk.
   */
  lemma LastEndCommits(l: Layout, s: State, p: nat, s': State) returns (tr: seq<State>, acts: seq<Action>)
    requires Inv(l, s) && Next(l, s, EndOp(p), s') && s'.ops == map[]
    ensures s'.phase == if s.lh != [] then Logging(0) else Normal
    ensures Path(l, tr, acts) && tr[0] == s' && forall i :: 0 <= i < |acts| ==> ByCommitter(acts[i])
    ensures var t := tr[|acts|];
            && t.phase.Normal? && t.ops == map[] && t.lh == []
            && GoodLog(l, t.disk) && Committed(l, t.disk) == Home(l, View(s.disk, s.cache))
  {
    LastEnd(l, s, p, s');
    StepRefines(l, s, EndOp(p), s');
    SameImage(l, s, EndOp(p), s');
    tr, acts := CommitFinishes(l, s');
  }

  lemma LastEnd(l: Layout, s: State, p: nat, s': State)
    requires Inv(l, s) && Next(l, s, EndOp(p), s') && s'.ops == map[]
    ensures s.phase.Normal? && s'.phase == if s.lh != [] then Logging(0) else Normal
  {
    hide CacheOk;
    hide Reserved;
    hide GoodLog;
    hide Loggable;
    assert s.ops.Keys == {p} + s'.ops.Keys;
    assert |s.ops.Keys| == |s.ops|;
  }

  /** An operation that is not the last to end leaves the log to the others. */
  lemma EarlyEnd(l: Layout, s: State, p: nat, s': State)
    requires Inv(l, s) && Next(l, s, EndOp(p), s') && s'.ops != map[]
    ensures s'.phase == s.phase && s'.lh == s.lh && s'.ops == s.ops - {p}
  {
    hide Inv;
    var q :| q in s'.ops;
    assert {p, q} <= s.ops.Keys;
    SubsetSize({p, q}, s.ops.Keys);
    assert |s.ops.Keys| == |s.ops|;
  }

  // ----- recovery

  lemma {:induction false} ReplayFinishes(l: Layout, s: State) returns (tr: seq<State>, acts: seq<Action>)
    requires Inv(l, s) && s.phase.Replaying? && s.cache == map[]
    ensures Path(l, tr, acts) && tr[0] == s
    ensures var t := tr[|acts|];
            && Inv(l, t) && t.phase.Normal? && t.ops == map[] && t.lh == []
            && GoodLog(l, s.disk) && GoodLog(l, t.disk) && Committed(l, t.disk) == Committed(l, s.disk)
    decreases |s.lh| - s.phase.replayed
  {
    hide Inv;
    hide Committed;
    hide Home;
    hide View;
    ReplayBounds(l, s);
    InvGood(l, s);
    var k := s.phase.replayed;
    if k < |s.lh| {
      var t := Through(s, s.lh[k], s.disk[l.start + 1 + k]).(phase := Replaying(k + 1));
      StepRefines(l, s, ReplayOne, t);
      InvGood(l, t);
      var rest, more := ReplayFinishes(l, t);
      Prepend(l, s, ReplayOne, rest, more);
      tr, acts := [s] + rest, [ReplayOne] + more;
    } else {
      var t := AfterClear(l, s);
      StepRefines(l, s, ReplayDone, t);
      InvGood(l, t);
      ReplayBounds(l, s);
      tr, acts := [s, t], [ReplayDone];
    }
  }

  lemma ReplayBounds(l: Layout, s: State)
    requires Inv(l, s) && s.phase.Replaying?
    ensures s.phase.replayed <= |s.lh| && l.start < |s.disk| && s.ops == map[]
    ensures forall k :: 0 <= k < |s.lh| ==> 0 <= s.lh[k] < |s.disk| && l.start + 1 + k < |s.disk|
  {
    hide CacheOk;
    hide Reserved;
  }

  /** After a crash anywhere, recovery can come to its end, and the durable image is then on the disk with an empty log. */
  lemma RecoveryFinishes(l: Layout, s: State) returns (tr: seq<State>, acts: seq<Action>)
    requires Inv(l, s)
    ensures Path(l, tr, acts) && tr[0] == s && |acts| > 0 && acts[0] == Crash
    ensures var t := tr[|acts|];
            && Inv(l, t) && t.phase.Normal? && t.ops == map[] && t.lh == []
            && GoodLog(l, s.disk) && GoodLog(l, t.disk)
            && Committed(l, t.disk) == Committed(l, s.disk) == Home(l, View(t.disk, t.cache))
  {
    hide Committed;
    hide Home;
    hide View;
    hide CacheOk;
    hide PhaseOk;
    hide Reserved;
    hide Loggable;
    var boot := State(s.disk, map[], [], map[], Boot);
    StepRefines(l, s, Crash, boot);
    var read := boot.(lh := HeadTargets(s.disk[l.start]), phase := Replaying(0));
    StepRefines(l, boot, ReadHead, read);
    var rest, more := ReplayFinishes(l, read);
    Prepend(l, boot, ReadHead, rest, more);
    Prepend(l, s, Crash, [boot] + rest, [ReadHead] + more);
    tr, acts := [s] + ([boot] + rest), [Crash] + ([ReadHead] + more);
    QuietDurable(l, rest[|more|]);
  }

  // ----- one write from begin_op to the disk

  /** The states in which process p writes data to block b in an operation of its own. */
  function Writing(s: State, p: nat, b: nat, data: Block): (tr: seq<State>)
    requires b < |s.disk|
    ensures |tr| == 8
  {
    var c := if b in s.cache then s.cache[b] else Slot(s.disk[b], None, 0, 0, false);
    var in0 := s.(ops := s.ops[p := 0]);
    var got := in0.(cache := s.cache[b := c.(users := c.users + 1)]);
    var locked := in0.(cache := s.cache[b := c.(users := c.users + 1, holder := Some(p))]);
    var modified := in0.(cache := s.cache[b := c.(users := c.users + 1, holder := Some(p), data := data, dirty := true)]);
    var logged := s.(cache := s.cache[b := c.(users := c.users + 1, holder := Some(p), data := data, dirty := false, pins := c.pins + 1)],
                     lh := s.lh + [b], ops := s.ops[p := 1]);
    var released := logged.(cache := s.cache[b := c.(holder := None, data := data, dirty := false, pins := c.pins + 1)]);
    [s, in0, got, locked, modified, logged, released, released.(ops := s.ops, phase := Logging(0))]
  }

  const WRITING := 7

  function WritingActs(p: nat, b: nat, data: Block): seq<Action> {
    [BeginOp(p), Get(b), Lock(p, b), Modify(p, b, data), LogWrite(p, b), Release(p, b), EndOp(p)]
  }

  ghost predicate CanWrite(l: Layout, s: State, p: nat, b: nat) {
    && s.phase.Normal? && s.ops == map[] && s.lh == [] && b < |s.disk| && !l.InLog(b) && l.size > 1
    && (b in s.cache ==> s.cache[b].holder.None? && !s.cache[b].dirty)
    && forall x :: x in s.cache ==> s.cache[x].holder != Some(p)
  }

  lemma WritingFirst(l: Layout, s: State, p: nat, b: nat, data: Block)
    requires CanWrite(l, s, p, b)
    ensures var tr := Writing(s, p, b, data);
            && Next(l, tr[0], BeginOp(p), tr[1]) && Next(l, tr[1], Get(b), tr[2]) && Next(l, tr[2], Lock(p, b), tr[3])
  {
    var tr := Writing(s, p, b, data);
    assert tr[2].cache == AfterGet(tr[1], b).cache;
    assert tr[3].cache == tr[2].cache[b := tr[2].cache[b].(holder := Some(p))];
  }

  lemma WritingThen(l: Layout, s: State, p: nat, b: nat, data: Block)
    requires CanWrite(l, s, p, b)
    ensures var tr := Writing(s, p, b, data);
            Next(l, tr[3], Modify(p, b, data), tr[4]) && Next(l, tr[4], LogWrite(p, b), tr[5])
  {
    var tr := Writing(s, p, b, data);
    assert tr[4].cache == tr[3].cache[b := tr[3].cache[b].(data := data, dirty := true)];
    assert tr[5].cache == AfterLogWrite(tr[4], p, b).cache;
    assert tr[5].ops == tr[4].ops[p := 1];
  }

  lemma WritingLast(l: Layout, s: State, p: nat, b: nat, data: Block)
    requires CanWrite(l, s, p, b)
    ensures var tr := Writing(s, p, b, data); Next(l, tr[5], Release(p, b), tr[6]) && Next(l, tr[6], EndOp(p), tr[7])
  {
    var tr := Writing(s, p, b, data);
    assert tr[6].cache == tr[5].cache[b := tr[5].cache[b].(holder := None, users := tr[5].cache[b].users - 1)];
    assert tr[6].ops == map[p := 1] && tr[6].ops - {p} == map[];
  }

  lemma WritingSteps(l: Layout, s: State, p: nat, b: nat, data: Block)
    requires CanWrite(l, s, p, b)
    ensures Path(l, Writing(s, p, b, data), WritingActs(p, b, data))
  {
    hide Writing;
    hide Next;
    hide CanWrite;
    WritingFirst(l, s, p, b, data);
    WritingThen(l, s, p, b, data);
    WritingLast(l, s, p, b, data);
  }

  /**
   * From any quiet state a process can begin an operation, lock any home block that nobody holds,
   * change it as it likes, log it, give it back and end; the commit that follows leaves on the disk
   * just the image before with that block changed, which every crash from then on recovers.
   */
  lemma WriteCommits(l: Layout, s: State, p: nat, b: nat, data: Block) returns (tr: seq<State>, acts: seq<Action>)
    requires Inv(l, s) && s.phase.Normal? && s.ops == map[] && b < |s.disk| && !l.InLog(b) && l.size > 1
    requires b in s.cache ==> s.cache[b].holder.None?
    requires forall x :: x in s.cache ==> s.cache[x].holder != Some(p)
    ensures Path(l, Writing(s, p, b, data), WritingActs(p, b, data))
    ensures Path(l, tr, acts) && tr[0] == Writing(s, p, b, data)[WRITING]
    ensures forall i :: 0 <= i < |acts| ==> ByCommitter(acts[i])
    ensures var t := tr[|acts|];
            && t.phase.Normal? && t.ops == map[] && t.lh == []
            && GoodLog(l, t.disk) && Committed(l, t.disk) == Home(l, View(s.disk, s.cache)[b := data])
  {
    QuietClean(l, s, b);
    WritingSteps(l, s, p, b, data);
    var w, wa := Writing(s, p, b, data), WritingActs(p, b, data);
    WritingView(s, p, b, data);
    hide Next;
    hide View;
    hide Home;
    hide Writing;
    PathInv(l, w, wa, WRITING);
    tr, acts := CommitFinishes(l, w[WRITING]);
  }

  lemma QuietClean(l: Layout, s: State, b: nat)
    requires Inv(l, s) && s.phase.Normal? && s.ops == map[]
    ensures s.lh == [] && (b in s.cache ==> !s.cache[b].dirty)
  {
    hide Reserved;
    hide GoodLog;
    assert b in s.cache ==> SlotOk(l, s, b);
  }

  lemma WritingView(s: State, p: nat, b: nat, data: Block)
    requires b < |s.disk|
    ensures var t := Writing(s, p, b, data)[WRITING];
            t.phase == Logging(0) && View(t.disk, t.cache) == View(s.disk, s.cache)[b := data]
  {
  }

  lemma {:induction false} PathInv(l: Layout, tr: seq<State>, acts: seq<Action>, i: nat)
    requires Path(l, tr, acts) && i < |tr| && Inv(l, tr[0])
    ensures Inv(l, tr[i])
  {
    hide Inv;
    hide Next;
    if i > 0 {
      PathInv(l, tr, acts, i - 1);
      StepRefines(l, tr[i - 1], acts[i - 1], tr[i]);
    }
  }

  // ----- buffers in use

  /** A buffer with users stays with its block: bget recycles it no more than brelse gave it up. */
  lemma InUseStays(l: Layout, s: State, a: Action, t: State, b: nat)
    requires Inv(l, s) && Next(l, s, a, t) && !a.Crash? && b in s.cache && s.cache[b].users > 0
    ensures b in t.cache
    ensures t.cache[b].users == s.cache[b].users + (if a == Get(b) then 1 else if a.Release? && a.b == b then -1 else 0)
  {
    hide Inv;
  }

  /** The holder of a buffer finds in it what it left there, whatever the others and the committer do. */
  lemma HeldUndisturbed(l: Layout, s: State, a: Action, t: State, p: nat, b: nat)
    requires Inv(l, s) && Next(l, s, a, t) && !a.Crash? && !s.Booting() && HeldBy(s, p, b) && !l.InLog(b) && b < |s.disk|
    requires !(a.Modify? && a.p == p && a.b == b) && !(a.Release? && a.p == p && a.b == b)
    ensures HeldBy(t, p, b) && t.cache[b].data == s.cache[b].data
  {
    hide Inv;
    hide Next;
    HolderUsers(l, s, b);
    if ByCommitter(a) {
      CommitterPhase(l, s, a, t);
      CommitKeepsData(l, s, a, t, b);
    } else {
      HeldByOthers(l, s, a, t, p, b);
    }
  }

  lemma CommitterPhase(l: Layout, s: State, a: Action, t: State)
    requires Next(l, s, a, t) && ByCommitter(a)
    ensures Committing(s)
  {
  }

  lemma HeldByOthers(l: Layout, s: State, a: Action, t: State, p: nat, b: nat)
    requires Next(l, s, a, t) && !a.Crash? && !ByCommitter(a) && !s.Booting() && HeldBy(s, p, b) && s.cache[b].users > 0
    requires !(a.Modify? && a.p == p && a.b == b) && !(a.Release? && a.p == p && a.b == b) && b < |s.disk|
    ensures HeldBy(t, p, b) && t.cache[b].data == s.cache[b].data
  {
  }

  lemma HolderUsers(l: Layout, s: State, b: nat)
    requires Inv(l, s) && b in s.cache && s.cache[b].holder.Some?
    ensures s.cache[b].users > 0
  {
    assert SlotOk(l, s, b);
  }

  lemma CommitKeepsData(l: Layout, s: State, a: Action, t: State, b: nat)
    requires Inv(l, s) && Next(l, s, a, t) && Committing(s) && ByCommitter(a) && b in s.cache && b < |s.disk| && !l.InLog(b)
    ensures b in t.cache && t.cache[b].data == s.cache[b].data && t.cache[b].holder == s.cache[b].holder
  {
    hide Inv;
    CommitBounds(l, s);
    SameImage(l, s, a, t);
    CommitKeepsSlot(l, s, a, t, b);
    hide Next;
    var v, w := View(s.disk, s.cache), View(t.disk, t.cache);
    assert Home(l, v)[b] == v[b] == s.cache[b].data;
    assert Home(l, w)[b] == w[b] == t.cache[b].data;
  }

  lemma CommitKeepsSlot(l: Layout, s: State, a: Action, t: State, b: nat)
    requires Next(l, s, a, t) && ByCommitter(a) && b in s.cache
    ensures Committing(s) && !t.Booting() && |t.disk| == |s.disk| && b in t.cache && t.cache[b].holder == s.cache[b].holder
  {
  }
}
