/** Every step of the storage system keeps its invariant and is a step of its specification. */
module StorageProof {
  import opened Basics
  import opened BlockDisk
  import opened LogFormat
  import opened Storage

  // ----- counting reservations

  lemma {:induction false} AddedSplit(ops: map<nat, nat>, p: nat)
    requires p in ops
    ensures Added(ops) == ops[p] + Added(ops - {p})
    decreases |ops|
  {
    var q :| q in ops && Added(ops) == ops[q] + Added(ops - {q});
    if p != q {
      AddedSplit(ops - {q}, p);
      AddedSplit(ops - {p}, q);
      assert ops - {q} - {p} == ops - {p} - {q};
    }
  }

  lemma AddedInsert(ops: map<nat, nat>, p: nat, k: nat)
    requires p !in ops
    ensures Added(ops[p := k]) == k + Added(ops) && |ops[p := k]| == |ops| + 1
  {
    AddedSplit(ops[p := k], p);
    assert ops[p := k] - {p} == ops;
  }

  lemma AddedUpdate(ops: map<nat, nat>, p: nat, k: nat)
    requires p in ops
    ensures Added(ops[p := k]) - k == Added(ops) - ops[p] == Added(ops - {p})
    ensures |ops[p := k]| == |ops| == |ops - {p}| + 1
  {
    AddedSplit(ops[p := k], p);
    AddedSplit(ops, p);
    assert ops[p := k] - {p} == ops - {p};
    assert ops[p := k].Keys == ops.Keys && (ops - {p}).Keys == ops.Keys - {p};
  }

  lemma {:induction false} AddedBound(ops: map<nat, nat>)
    requires forall p :: p in ops ==> ops[p] <= MAXOPBLOCKS
    ensures Added(ops) <= |ops| * MAXOPBLOCKS
    decreases |ops|
  {
    if ops != map[] {
      var p :| p in ops && Added(ops) == ops[p] + Added(ops - {p});
      AddedBound(ops - {p});
      assert (ops - {p}).Keys == ops.Keys - {p};
    }
  }

  /** An operation with reservation left finds room in the header for one more block. */
  lemma RoomForNewBlock(s: State, p: nat)
    requires Reserved(s) && p in s.ops && s.ops[p] < MAXOPBLOCKS
    ensures |s.lh| < LOGSIZE
  {
    AddedSplit(s.ops, p);
    AddedBound(s.ops - {p});
    assert (s.ops - {p}).Keys == s.ops.Keys - {p};
  }

  // ----- steps that touch only the cache

  ghost predicate Refines(l: Layout, s: State, a: Action, s': State)
    requires GoodLog(l, s.disk)
  {
    Inv(l, s') && SpecNext(Abs(l, s), a, Abs(l, s'))
  }

  lemma UpdateOneSlot(l: Layout, s: State, b: nat, c: Slot, s': State)
    requires CacheOk(l, s) && b < |s.disk| && s' == s.(cache := s.cache[b := c]) && SlotOk(l, s', b)
    ensures CacheOk(l, s')
  {
    assert Pinned(s') == Pinned(s);
    forall x | x in s'.cache ensures 0 <= x < |s'.disk| && SlotOk(l, s', x) {
      if x != b {
        assert SlotOk(l, s, x);
      }
    }
  }

  predicate CacheAction(a: Action) { a.Get? || a.Lock? || a.Release? || a.Evict? }

  lemma CacheOnly(l: Layout, s: State, a: Action, s': State)
    requires Inv(l, s) && CacheAction(a) && s' == s.(cache := s'.cache)
    requires View(s'.disk, s'.cache) == View(s.disk, s.cache) && CacheOk(l, s')
    ensures Refines(l, s, a, s')
  {
    hide Committed;
    hide Home;
    hide View;
    hide GoodLog;
    hide Loggable;
    hide CacheOk;
  }

  lemma GetStep(l: Layout, s: State, b: nat, s': State)
    requires Inv(l, s) && Next(l, s, Get(b), s')
    ensures Refines(l, s, Get(b), s')
  {
    hide PhaseOk;
    hide GoodLog;
    hide Loggable;
    hide Reserved;
    assert b in s.cache ==> SlotOk(l, s, b);
    if b in Pinned(s) {
      var i :| 0 <= i < |Pinned(s)| && Pinned(s)[i] == b;
    }
    assert View(s'.disk, s'.cache) == View(s.disk, s.cache);
    UpdateOneSlot(l, s, b, s'.cache[b], s');
    CacheOnly(l, s, Get(b), s');
  }

  lemma LockStep(l: Layout, s: State, p: nat, b: nat, s': State)
    requires Inv(l, s) && Next(l, s, Lock(p, b), s')
    ensures Refines(l, s, Lock(p, b), s')
  {
    hide PhaseOk;
    hide GoodLog;
    hide Loggable;
    hide Reserved;
    assert SlotOk(l, s, b);
    assert View(s'.disk, s'.cache) == View(s.disk, s.cache);
    UpdateOneSlot(l, s, b, s'.cache[b], s');
    CacheOnly(l, s, Lock(p, b), s');
  }

  lemma ReleaseStep(l: Layout, s: State, p: nat, b: nat, s': State)
    requires Inv(l, s) && Next(l, s, Release(p, b), s')
    ensures Refines(l, s, Release(p, b), s')
  {
    hide PhaseOk;
    hide GoodLog;
    hide Loggable;
    hide Reserved;
    assert SlotOk(l, s, b);
    assert View(s'.disk, s'.cache) == View(s.disk, s.cache);
    UpdateOneSlot(l, s, b, s'.cache[b], s');
    CacheOnly(l, s, Release(p, b), s');
  }

  /** Recycling a buffer loses nothing: its data is the disk's. */
  lemma EvictStep(l: Layout, s: State, b: nat, s': State)
    requires Inv(l, s) && Next(l, s, Evict(b), s')
    ensures Refines(l, s, Evict(b), s')
  {
    hide PhaseOk;
    hide GoodLog;
    hide Loggable;
    hide Reserved;
    assert SlotOk(l, s, b);
    assert View(s'.disk, s'.cache) == View(s.disk, s.cache);
    forall x | x in s'.cache ensures 0 <= x < |s'.disk| && SlotOk(l, s', x) {
      assert SlotOk(l, s, x);
    }
    CacheOnly(l, s, Evict(b), s');
  }

  // ----- steps of operations

  /** Operations come and go around the cache; one that goes holds no buffer. */
  lemma OpsChange(l: Layout, s: State, s': State)
    requires CacheOk(l, s) && s' == s.(ops := s'.ops, phase := s'.phase) && Pinned(s') == Pinned(s)
    requires forall b :: b in s.cache && s.cache[b].holder.Some? && s.cache[b].holder.value in s.ops ==>
               s.cache[b].holder.value in s'.ops
    ensures CacheOk(l, s')
  {
    forall x | x in s'.cache ensures 0 <= x < |s'.disk| && SlotOk(l, s', x) {
      assert SlotOk(l, s, x);
    }
  }

  lemma BeginReserves(s: State, p: nat)
    requires Reserved(s) && CanBegin(s, p)
    ensures Reserved(s.(ops := s.ops[p := 0]))
  {
    AddedInsert(s.ops, p, 0);
    hide Added;
  }

  lemma BeginStep(l: Layout, s: State, p: nat, s': State)
    requires Inv(l, s) && Next(l, s, BeginOp(p), s')
    ensures Refines(l, s, BeginOp(p), s')
  {
    hide Committed;
    hide Home;
    hide View;
    hide CacheOk;
    hide GoodLog;
    hide Loggable;
    hide Reserved;
    OpsChangeBegin(l, s, p, s');
    BeginReserves(s, p);
  }

  lemma OpsChangeBegin(l: Layout, s: State, p: nat, s': State)
    requires CacheOk(l, s) && s' == s.(ops := s.ops[p := 0])
    ensures CacheOk(l, s')
  {
    OpsChange(l, s, s');
  }

  lemma EndStep(l: Layout, s: State, p: nat, s': State)
    requires Inv(l, s) && Next(l, s, EndOp(p), s')
    ensures Refines(l, s, EndOp(p), s')
  {
    hide Committed;
    hide Home;
    hide View;
    hide SlotOk;
    hide GoodLog;
    hide Loggable;
    assert s.phase == Normal;
    OpsChange(l, s, s');
    AddedUpdate(s.ops, p, 0);
    assert s'.ops.Keys == s.ops.Keys - {p};
  }

  lemma ModifyCache(l: Layout, s: State, b: nat, c: Slot, s': State)
    requires CacheOk(l, s) && b in s.cache && !l.InLog(b) && s' == s.(cache := s.cache[b := c])
    requires c == s.cache[b].(data := c.data, dirty := true) && c.holder.Some? && c.holder.value in s.ops
    ensures CacheOk(l, s') && |s'.disk| == |s.disk| && 0 <= b < |s.disk|
    ensures View(s'.disk, s'.cache) == View(s.disk, s.cache)[b := c.data]
  {
    assert SlotOk(l, s, b);
    UpdateOneSlot(l, s, b, c, s');
  }

  lemma HomeUpdate(l: Layout, v: Image, b: nat, data: Block)
    requires b < |v| && !l.InLog(b)
    ensures Home(l, v[b := data]) == Home(l, v)[b := data]
  {
  }

  lemma ModifyStep(l: Layout, s: State, p: nat, b: nat, data: Block, s': State)
    requires Inv(l, s) && Next(l, s, Modify(p, b, data), s')
    ensures Refines(l, s, Modify(p, b, data), s')
  {
    hide Committed;
    hide Home;
    hide View;
    hide CacheOk;
    hide GoodLog;
    hide Loggable;
    ModifyCache(l, s, b, s'.cache[b], s');
    HomeUpdate(l, View(s.disk, s.cache), b, data);
    assert s.phase == Normal;
  }

  lemma LogWriteCache(l: Layout, s: State, p: nat, b: nat)
    requires Inv(l, s) && CanLogWrite(l, s, p, b)
    ensures CacheOk(l, AfterLogWrite(s, p, b))
    ensures View(s.disk, AfterLogWrite(s, p, b).cache) == View(s.disk, s.cache)
  {
    hide Reserved;
    hide GoodLog;
    hide Loggable;
    var s' := AfterLogWrite(s, p, b);
    assert s.phase == Normal;
    assert Pinned(s') == (if b in s.lh then s.lh else s.lh + [b]);
    forall x | x in s'.cache ensures 0 <= x < |s'.disk| && SlotOk(l, s', x) {
      assert SlotOk(l, s, x);
    }
  }

  lemma LogWriteStep(l: Layout, s: State, p: nat, b: nat, s': State)
    requires Inv(l, s) && Next(l, s, LogWrite(p, b), s')
    ensures Refines(l, s, LogWrite(p, b), s')
  {
    hide Committed;
    hide Home;
    hide View;
    hide CacheOk;
    hide GoodLog;
    LogWriteCache(l, s, p, b);
    AddedUpdate(s.ops, p, s.ops[p] + 1);
    assert s.phase == Normal;
    assert s'.ops.Keys == s.ops.Keys;
  }

  // ----- steps of the committer

  lemma ThroughEffect(l: Layout, s: State, b: nat, data: Block)
    requires CacheOk(l, s) && b < |s.disk|
    ensures var t := Through(s, b, data);
            && CacheOk(l, t) && Pinned(t) == Pinned(s)
            && View(t.disk, t.cache) == View(s.disk, s.cache)[b := data]
  {
    var t := Through(s, b, data);
    assert Pinned(t) == Pinned(s) && t.cache.Keys == s.cache.Keys;
    forall i | 0 <= i < |Pinned(t)| ensures Pinned(t)[i] in t.cache {
      assert Pinned(s)[i] in s.cache;
    }
    forall x | x in t.cache ensures 0 <= x < |t.disk| && SlotOk(l, t, x) {
      assert SlotOk(l, s, x);
    }
  }

  /** With no operation open, only pinned blocks differ from the disk. */
  lemma OnlyPinnedDiffer(l: Layout, s: State)
    requires CacheOk(l, s) && s.ops == map[]
    ensures forall b :: 0 <= b < |s.disk| && b !in Pinned(s) ==> View(s.disk, s.cache)[b] == s.disk[b]
  {
    forall b | 0 <= b < |s.disk| && b !in Pinned(s) ensures View(s.disk, s.cache)[b] == s.disk[b] {
      assert b in s.cache ==> SlotOk(l, s, b);
    }
  }

  lemma HomeIgnoresLog(l: Layout, d: Image, b: nat, data: Block)
    requires b < |d| && l.InLog(b)
    ensures Home(l, d[b := data]) == Home(l, d)
  {
  }

  lemma WriteSlotStep(l: Layout, s: State, s': State)
    requires Inv(l, s) && Next(l, s, WriteSlot, s')
    ensures Refines(l, s, WriteSlot, s')
  {
    hide Home;
    hide Committed;
    hide CacheOk;
    hide View;
    hide HeadTargets;
    var k := s.phase.logged;
    var b, data := l.start + 1 + k, s.cache[s.lh[k]].data;
    SlotData(l, s, k);
    ThroughEffect(l, s, b, data);
    OpsChange(l, Through(s, b, data), s');
    CommittedEmpty(l, s.disk);
    CommittedEmpty(l, s'.disk);
    HomeIgnoresLog(l, s.disk, b, data);
    HomeIgnoresLog(l, View(s.disk, s.cache), b, data);
  }

  lemma SlotData(l: Layout, s: State, k: nat)
    requires CacheOk(l, s) && Pinned(s) == s.lh && k < |s.lh|
    ensures s.lh[k] in s.cache && 0 <= s.lh[k] < |s.disk|
    ensures s.cache[s.lh[k]].data == View(s.disk, s.cache)[s.lh[k]]
  {
    assert Pinned(s)[k] in s.cache;
  }

  /** The commit point: from here on a crash recovers the current image. */
  lemma WriteHeadStep(l: Layout, s: State, s': State)
    requires Inv(l, s) && Next(l, s, WriteHead, s')
    ensures Refines(l, s, WriteHead, s')
  {
    hide Home;
    hide Committed;
    hide CacheOk;
    hide View;
    var head := EncodeHead(s.disk[l.start], s.lh);
    ThroughEffect(l, s, l.start, head);
    OpsChange(l, Through(s, l.start, head), s');
    HomeIgnoresLog(l, View(s.disk, s.cache), l.start, head);
    CommitPoint(l, s, s'.disk);
  }

  /** Once the header names the logged blocks, the disk commits to the current image. */
  lemma CommitPoint(l: Layout, s: State, d: Image)
    requires Inv(l, s) && s.phase == Logging(|s.lh|)
    requires d == s.disk[l.start := EncodeHead(s.disk[l.start], s.lh)]
    ensures GoodLog(l, d) && Committed(l, d) == Home(l, View(s.disk, s.cache))
    ensures HeadOk(d[l.start]) && HeadTargets(d[l.start]) == s.lh
  {
    hide Home;
    hide CacheOk;
    hide View;
    hide Overlay;
    HeadRoundTrip(s.disk[l.start], s.lh);
    var vals := LogSlots(l, s.disk, |s.lh|);
    CommittedLogged(l, s.disk, d, s.lh, vals);
    CurrentIsOverlay(l, s, vals);
  }

  lemma CurrentIsOverlay(l: Layout, s: State, vals: seq<Block>)
    requires l.Fits(s.disk) && Loggable(l, |s.disk|, s.lh) && |vals| == |s.lh|
    requires CacheOk(l, s) && s.ops == map[] && Pinned(s) == s.lh
    requires forall i :: 0 <= i < |s.lh| ==> vals[i] == View(s.disk, s.cache)[s.lh[i]]
    ensures Overlay(s.disk, s.lh, vals) == View(s.disk, s.cache)
  {
    hide View;
    hide Overlay;
    hide CacheOk;
    OverlayAt(s.disk, s.lh, vals);
    OnlyPinnedDiffer(l, s);
    forall b | 0 <= b < |s.disk| ensures Overlay(s.disk, s.lh, vals)[b] == View(s.disk, s.cache)[b] {
      if b in s.lh {
        var i :| 0 <= i < |s.lh| && s.lh[i] == b;
      }
    }
  }

  /** Copying one logged block home changes neither the log nor what it commits to. */
  lemma OneHome(l: Layout, d: Image, k: nat)
    requires GoodLog(l, d) && k < d[l.start][0]
    ensures var ts := HeadTargets(d[l.start]);
            var e := d[ts[k] := d[l.start + 1 + k]];
            && GoodLog(l, e) && Committed(l, e) == Committed(l, d) && e[l.start] == d[l.start]
            && (forall b :: 0 <= b < |d| && l.InLog(b) ==> e[b] == d[b])
  {
    hide Overlay;
    hide Home;
    var ts := HeadTargets(d[l.start]);
    var vals := LogSlots(l, d, |ts|);
    CommittedLogged(l, d, d, ts, vals);
    CommittedLogged(l, d, d[ts[k] := vals[k]], ts, vals);
  }

  /** Installing a block unpins it: its buffer now agrees with the disk. */
  lemma InstallCache(l: Layout, s: State, k: nat, t: State, s': State)
    requires CacheOk(l, s) && s.ops == map[] && Distinct(s.lh)
    requires s.phase == Installing(k) && k < |s.lh| && s.lh[k] in s.cache
    requires |s'.disk| == |s.disk| && 0 <= s.lh[k] < |s.disk| && t == Through(s, s.lh[k], s'.disk[s.lh[k]])
    requires s.cache[s.lh[k]].pins > 0
    requires s' == t.(cache := t.cache[s.lh[k] := t.cache[s.lh[k]].(pins := t.cache[s.lh[k]].pins - 1)],
                      phase := Installing(k + 1))
    ensures CacheOk(l, s')
  {
    assert Pinned(s) == [s.lh[k]] + Pinned(s');
    forall i | 0 <= i < |Pinned(s')| ensures Pinned(s')[i] in s'.cache {
      assert Pinned(s)[i + 1] in s.cache;
    }
    forall x | x in s'.cache ensures 0 <= x < |s'.disk| && SlotOk(l, s', x) {
      assert SlotOk(l, s, x);
    }
  }

  lemma InstallView(s: State, b: nat, c: Slot)
    requires b in s.cache && c.data == s.cache[b].data
    ensures View(s.disk, s.cache[b := c]) == View(s.disk, s.cache)
  {
  }

  /** Installing writes a block that the log slots do not include, so they still hold the logged data. */
  lemma InstallPhase(l: Layout, s: State, k: nat, s': State)
    requires l.Fits(s.disk) && Loggable(l, |s.disk|, s.lh) && PhaseOk(l, s) && s.phase == Installing(k) && k < |s.lh|
    requires s'.disk == s.disk[s.lh[k] := s.disk[l.start + 1 + k]] && s'.lh == s.lh && s'.ops == s.ops
    requires s'.phase == Installing(k + 1) && View(s'.disk, s'.cache) == View(s.disk, s.cache)
    ensures PhaseOk(l, s')
  {
    hide View;
    hide HeadTargets;
    assert !l.InLog(s.lh[k]);
  }

  lemma InstallSeen(l: Layout, s: State, k: nat)
    requires l.Fits(s.disk) && Loggable(l, |s.disk|, s.lh) && PhaseOk(l, s) && s.phase == Installing(k) && k < |s.lh|
    ensures s.ops == map[] && View(s.disk, s.cache)[s.lh[k]] == s.disk[l.start + 1 + k]
    ensures HeadOk(s.disk[l.start]) && HeadTargets(s.disk[l.start]) == s.lh
  {
    hide View;
    hide HeadTargets;
  }

  lemma InstallNext(l: Layout, s: State, s': State)
    requires Inv(l, s) && Next(l, s, InstallOne, s')
    ensures s.phase.Installing? && s.phase.installed < |s.lh| && s.lh[s.phase.installed] in s.cache
    ensures s.cache[s.lh[s.phase.installed]].pins > 0
    ensures s' == AfterInstall(l, s, s.phase.installed)
  {
    hide GoodLog;
    hide CacheOk;
    hide PhaseOk;
    hide Reserved;
  }

  lemma InstallStep(l: Layout, s: State, s': State)
    requires Inv(l, s) && Next(l, s, InstallOne, s')
    ensures Refines(l, s, InstallOne, s')
  {
    hide Home;
    hide Committed;
    hide CacheOk;
    hide View;
    hide Next;
    hide PhaseOk;
    InstallNext(l, s, s');
    var k := s.phase.installed;
    InstallSeen(l, s, k);
    var b, data := s.lh[k], s.disk[l.start + 1 + k];
    var t := Through(s, b, data);
    ThroughEffect(l, s, b, data);
    assert View(t.disk, t.cache) == View(s.disk, s.cache);
    InstallView(t, b, t.cache[b].(pins := t.cache[b].pins - 1));
    InstallCache(l, s, k, t, s');
    OneHome(l, s.disk, k);
    InstallPhase(l, s, k, s');
  }

  /** Once every logged block is home, the disk alone tells what it commits to. */
  lemma AllHome(l: Layout, d: Image, ts: seq<int>)
    requires GoodLog(l, d) && HeadTargets(d[l.start]) == ts
    requires forall i :: 0 <= i < |ts| ==> d[ts[i]] == d[l.start + 1 + i]
    ensures Committed(l, d) == Home(l, d)
  {
    hide Overlay;
    var vals := LogSlots(l, d, |ts|);
    OverlayAt(d, ts, vals);
    forall b | 0 <= b < |d| ensures Overlay(d, ts, vals)[b] == d[b] {
      if b in ts {
        var i :| 0 <= i < |ts| && ts[i] == b;
      }
    }
    assert Overlay(d, ts, vals) == d;
  }

  lemma ClearStep(l: Layout, s: State, s': State)
    requires Inv(l, s) && Next(l, s, ClearHead, s')
    ensures Refines(l, s, ClearHead, s')
  {
    hide Home;
    hide Committed;
    hide CacheOk;
    hide View;
    hide HeadTargets;
    var head := EncodeHead(s.disk[l.start], []);
    OnlyPinnedDiffer(l, s);
    AllHome(l, s.disk, s.lh);
    ThroughEffect(l, s, l.start, head);
    EmptyLog(l, Through(s, l.start, head), s');
    HomeIgnoresLog(l, s.disk, l.start, head);
    HomeIgnoresLog(l, View(s.disk, s.cache), l.start, head);
    CommittedEmpty(l, s'.disk);
  }

  lemma EmptyLog(l: Layout, s: State, s': State)
    requires CacheOk(l, s) && Pinned(s) == [] && s' == s.(lh := [], phase := Normal)
    ensures CacheOk(l, s')
  {
    forall x | x in s'.cache ensures 0 <= x < |s'.disk| && SlotOk(l, s', x) {
      assert SlotOk(l, s, x);
    }
  }

  // ----- crashes and recovery

  lemma CrashStep(l: Layout, s: State, s': State)
    requires Inv(l, s) && Next(l, s, Crash, s')
    ensures Refines(l, s, Crash, s')
  {
    hide Home;
    hide Committed;
  }

  lemma ReadHeadStep(l: Layout, s: State, s': State)
    requires Inv(l, s) && Next(l, s, ReadHead, s')
    ensures Refines(l, s, ReadHead, s')
  {
    hide Home;
    hide Committed;
    forall x | x in s'.cache ensures 0 <= x < |s'.disk| && SlotOk(l, s', x) {
      assert SlotOk(l, s, x);
    }
  }

  lemma ReplayStep(l: Layout, s: State, s': State)
    requires Inv(l, s) && Next(l, s, ReplayOne, s')
    ensures Refines(l, s, ReplayOne, s')
  {
    hide Home;
    hide Committed;
    hide CacheOk;
    hide View;
    var k := s.phase.replayed;
    var b, data := s.lh[k], s.disk[l.start + 1 + k];
    ThroughEffect(l, s, b, data);
    OpsChange(l, Through(s, b, data), s');
    OneHome(l, s.disk, k);
  }

  lemma ReplayDoneStep(l: Layout, s: State, s': State)
    requires Inv(l, s) && Next(l, s, ReplayDone, s')
    ensures Refines(l, s, ReplayDone, s')
  {
    hide Home;
    hide Committed;
    hide CacheOk;
    hide View;
    hide HeadTargets;
    var head := EncodeHead(s.disk[l.start], []);
    AllHome(l, s.disk, s.lh);
    ThroughEffect(l, s, l.start, head);
    EmptyLog(l, Through(s, l.start, head), s');
    OnlyPinnedDiffer(l, s');
    assert View(s'.disk, s'.cache) == s'.disk;
    HomeIgnoresLog(l, s.disk, l.start, head);
    CommittedEmpty(l, s'.disk);
  }

  /** Every step keeps the invariant and is the specification's step of the same name. */
  lemma StepRefines(l: Layout, s: State, a: Action, s': State)
    requires Inv(l, s) && Next(l, s, a, s')
    ensures Inv(l, s') && SpecNext(Abs(l, s), a, Abs(l, s'))
  {
    hide Inv;
    hide Next;
    assert GoodLog(l, s.disk) by { InvGood(l, s); }
    match a
    case BeginOp(p) => BeginStep(l, s, p, s');
    case EndOp(p) => EndStep(l, s, p, s');
    case Get(b) => GetStep(l, s, b, s');
    case Lock(p, b) => LockStep(l, s, p, b, s');
    case Modify(p, b, data) => ModifyStep(l, s, p, b, data, s');
    case LogWrite(p, b) => LogWriteStep(l, s, p, b, s');
    case Release(p, b) => ReleaseStep(l, s, p, b, s');
    case Evict(b) => EvictStep(l, s, b, s');
    case WriteSlot => WriteSlotStep(l, s, s');
    case WriteHead => WriteHeadStep(l, s, s');
    case InstallOne => InstallStep(l, s, s');
    case ClearHead => ClearStep(l, s, s');
    case Crash => CrashStep(l, s, s');
    case ReadHead => ReadHeadStep(l, s, s');
    case ReplayOne => ReplayStep(l, s, s');
    case ReplayDone => ReplayDoneStep(l, s, s');
  }

  lemma InvGood(l: Layout, s: State)
    requires Inv(l, s)
    ensures GoodLog(l, s.disk)
  {
  }
}
