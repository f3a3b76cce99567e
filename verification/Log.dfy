/** log.c over the buffer cache: the loops of commit and recovery, and log_write. */
module Log {
  import opened BlockDisk
  import opened LogFormat
  import opened LogCrash
  import opened Bio

  /** Two entries change and change again; the first ends as it was. */
  lemma UpdatesCollapse<T>(s: seq<T>, i: nat, a: T, j: nat, y: T, z: T)
    requires i < |s| && j < |s| && i != j
    ensures s[i := a][j := y][i := s[i]][j := z] == s[j := z]
  {
  }

  /** The blocks of v that ts names. */
  ghost function Values(v: Image, ts: seq<int>): (vals: seq<Block>)
    requires forall i :: 0 <= i < |ts| ==> 0 <= ts[i] < |v|
    ensures |vals| == |ts|
  {
    seq(|ts|, i requires 0 <= i < |ts| => v[ts[i]])
  }

  /** refs with one reference less to each block of ts. */
  ghost function Unpinned(refs: seq<nat>, ts: seq<int>): (r: seq<nat>)
    requires forall i :: 0 <= i < |ts| ==> 0 <= ts[i] < |refs| && refs[ts[i]] > 0
    ensures |r| == |refs|
  {
    seq(|refs|, b requires 0 <= b < |refs| => if b in ts then refs[b] - 1 else refs[b])
  }

  lemma UnpinNext(l: Layout, refs: seq<nat>, ts: seq<int>, k: nat, other: nat)
    requires k < |ts| && Loggable(l, |refs|, ts) && other < |refs| && other !in ts
    requires forall i :: 0 <= i < |ts| ==> 0 <= ts[i] < |refs| && refs[ts[i]] > 0
    ensures Unpinned(refs, ts[..k])[ts[k]] == refs[ts[k]]
    ensures Unpinned(refs, ts[..k])[other] == refs[other]
    ensures Unpinned(refs, ts[..k + 1]) == Unpinned(refs, ts[..k])[ts[k] := refs[ts[k]] - 1]
  {
  }

  /** The slot an install is about to read still holds what it held. */
  lemma InstallSlot(l: Layout, v: Image, ts: seq<int>, vals: seq<Block>, k: nat)
    requires l.Fits(v) && Loggable(l, |v|, ts) && k < |ts| && vals == LogSlots(l, v, |ts|)
    ensures Apply(v, InstallWrites(ts, vals)[..k])[l.start + 1 + k] == vals[k]
  {
    hide Apply;
    InstalledPrefix(v, ts, vals, k);
    SlotApart(l, |v|, ts, k);
  }

  /** One more install: one home block changes. */
  lemma InstallNext(l: Layout, v: Image, d: Image, ts: seq<int>, vals: seq<Block>, k: nat)
    requires l.Fits(v) && Loggable(l, |v|, ts) && |d| == |v| && k < |ts| && vals == LogSlots(l, v, |ts|)
    ensures var ws := InstallWrites(ts, vals);
            && ws[..k + 1] == ws[..k] + [Write(ts[k], vals[k])]
            && Apply(v, ws[..k + 1]) == Apply(v, ws[..k])[ts[k] := vals[k]]
            && Apply(d, ws[..k + 1]) == Apply(d, ws[..k])[ts[k] := vals[k]]
  {
    hide Apply;
    var ws := InstallWrites(ts, vals);
    ApplyNext(v, ws, k);
    ApplyNext(d, ws, k);
  }

  /** One more slot written: the block to copy is still as it was. */
  lemma SlotNext(l: Layout, v: Image, d: Image, ts: seq<int>, k: nat)
    requires l.Fits(v) && Loggable(l, |v|, ts) && |d| == |v| && k < |ts|
    ensures var ws := SlotWrites(l, Values(v, ts));
            && |ws| == |ts|
            && Apply(v, ws[..k])[ts[k]] == v[ts[k]]
            && ws[..k + 1] == ws[..k] + [Write(l.start + 1 + k, v[ts[k]])]
            && Apply(v, ws[..k + 1]) == Apply(v, ws[..k])[l.start + 1 + k := v[ts[k]]]
            && Apply(d, ws[..k + 1]) == Apply(d, ws[..k])[l.start + 1 + k := v[ts[k]]]
  {
    var vals := Values(v, ts);
    var ws := SlotWrites(l, vals);
    SlotsWritten(l, v, vals, k);
    ApplyNext(v, ws, k);
    ApplyNext(d, ws, k);
  }

  lemma SlotCount(l: Layout, v: Image, ts: seq<int>)
    requires Loggable(l, |v|, ts)
    ensures |SlotWrites(l, Values(v, ts))| == |ts|
  {
  }

  lemma SlotApart(l: Layout, size: nat, ts: seq<int>, k: nat)
    requires Loggable(l, size, ts) && l.start + l.size <= size && k < |ts|
    ensures l.start + 1 + k < size && l.InLog(l.start + 1 + k) && l.start + 1 + k !in ts
  {
  }

  lemma LoggableFits(l: Layout, size: nat, ts: seq<int>)
    requires Loggable(l, size, ts)
    ensures |ts| < l.size
  {
  }

  lemma NothingYet(l: Layout, v: Image, d: Image, refs: seq<nat>, ts: seq<int>, vals: seq<Block>)
    requires |vals| == |ts| && Loggable(l, |d|, ts)
    ensures |ts| < l.size && forall i :: 0 <= i < |ts| ==> 0 <= ts[i] < |d|
    ensures |InstallWrites(ts, vals)| == |ts|
    ensures Apply(v, InstallWrites(ts, vals)[..0]) == v && Apply(d, InstallWrites(ts, vals)[..0]) == d
    ensures Unpinned(refs, ts[..0]) == refs
  {
  }

  /** The writes of a commit, one part after the other. */
  lemma CommitChain(l: Layout, e: Image, h: Block, ts: seq<int>, vals: seq<Block>)
    requires l.Fits(e) && |vals| == |ts| && Loggable(l, |e|, ts) && ts != []
    ensures var slots, installs := SlotWrites(l, vals), InstallWrites(ts, vals);
            var head, clear := EncodeHead(h, ts), EncodeHead(EncodeHead(h, ts), []);
            && CommitWrites(l, h, ts, vals) ==
               slots + [Write(l.start, head)] + installs + [Write(l.start, clear)]
            && Apply(Apply(e, slots)[l.start := head], installs)[l.start := clear] ==
               Apply(e, CommitWrites(l, h, ts, vals))
  {
    hide Apply;
    var slots, installs := SlotWrites(l, vals), InstallWrites(ts, vals);
    var head, clear := Write(l.start, EncodeHead(h, ts)), Write(l.start, EncodeHead(EncodeHead(h, ts), []));
    ApplyStep(e, slots, head);
    ApplyConcat(e, slots + [head], installs);
    ApplyStep(e, slots + [head] + installs, clear);
  }

  /** What a commit reads back on its way: v is what the kernel sees, d what is on disk. */
  lemma CommitRun(l: Layout, v: Image, d: Image, ts: seq<int>)
    requires l.Fits(d) && |v| == |d| && Loggable(l, |d|, ts) && ts != []
    ensures var vals := Values(v, ts);
            var slots, head := SlotWrites(l, vals), EncodeHead(d[l.start], ts);
            && Apply(d, slots)[l.start] == d[l.start]
            && LogSlots(l, Apply(v, slots)[l.start := head], |ts|) == vals
            && Apply(Apply(d, slots)[l.start := head], InstallWrites(ts, vals))[l.start] == head
  {
    hide Apply;
    var vals := Values(v, ts);
    var slots, installs, head := SlotWrites(l, vals), InstallWrites(ts, vals), EncodeHead(d[l.start], ts);
    assert slots[..|ts|] == slots && installs[..|ts|] == installs;
    SlotsWritten(l, d, vals, |ts|);
    SlotsWritten(l, v, vals, |ts|);
    InstalledPrefix(Apply(d, slots)[l.start := head], ts, vals, |ts|);
  }

  /** The images a recovery passes through. */
  lemma RecoveryRun(l: Layout, d: Image)
    requires GoodLog(l, d)
    ensures var ts := HeadTargets(d[l.start]);
            var installs := InstallWrites(ts, LogSlots(l, d, |ts|));
            var clear := EncodeHead(d[l.start], []);
            && Apply(d, installs)[l.start] == d[l.start]
            && RecoveryWrites(l, d) == installs + [Write(l.start, clear)]
            && Apply(d, installs)[l.start := clear] == Recover(l, d)
  {
    var ts := HeadTargets(d[l.start]);
    var vals := LogSlots(l, d, |ts|);
    assert InstallWrites(ts, vals)[..|ts|] == InstallWrites(ts, vals);
    InstalledPrefix(d, ts, vals, |ts|);
    ApplyStep(d, InstallWrites(ts, vals), Write(l.start, EncodeHead(d[l.start], [])));
  }

  /** A commit writes home what the kernel already sees there. */
  lemma CommitKeepsView(l: Layout, v: Image, h: Block, ts: seq<int>, b: nat)
    requires l.Fits(v) && Loggable(l, |v|, ts) && b < |v| && !l.InLog(b)
    ensures Apply(v, CommitWrites(l, h, ts, Values(v, ts)))[b] == v[b]
  {
    var ws := CommitWrites(l, h, ts, Values(v, ts));
    SameWritesKeep(v, ws, b);
  }

  lemma {:induction false} SameWritesKeep(v: Image, ws: seq<Write>, b: nat)
    requires b < |v|
    requires forall i :: 0 <= i < |ws| && ws[i].blockno == b ==> ws[i].data == v[b]
    ensures Apply(v, ws)[b] == v[b]
  {
    if ws != [] {
      SameWritesKeep(v, ws[..|ws| - 1], b);
    }
  }

  class Log {
    const bc: Bcache
    const layout: Layout
    var outstanding: nat
    var n: nat
    const block: array<int>

    ghost predicate Valid()
      reads this, block, bc, bc.buf, bc.next, bc.prev
    {
      && bc.Valid() && layout.Fits(bc.disk)
      && block.Length == LOGSIZE && n <= LOGSIZE
    }

    constructor (cache: Bcache, area: Layout)
      requires cache.Valid() && area.Fits(cache.disk)
      ensures Valid() && bc == cache && layout == area && n == 0 && outstanding == 0 && fresh(block)
    {
      bc, layout, outstanding, n := cache, area, 0, 0;
      block := new int[LOGSIZE](_ => 0);
    }

    /** The block numbers in the in-memory header. */
    ghost function Targets(): seq<int>
      requires n <= block.Length
      reads this, block
    {
      block[..n]
    }

    /** No buffer is locked, and nobody else uses the header or the log slots. */
    ghost predicate Quiet()
      requires Valid()
      reads this, block, bc, bc.buf, bc.next, bc.prev
    {
      && (forall b :: 0 <= b < |bc.disk| ==> !bc.Locks()[b])
      && (forall b :: layout.start <= b < layout.start + layout.size ==> bc.Refs()[b] == 0)
    }

    ghost predicate Pinned(ts: seq<int>)
      requires Valid()
      reads this, block, bc, bc.buf, bc.next, bc.prev
    {
      forall i :: 0 <= i < |ts| ==> 0 <= ts[i] < |bc.disk| && bc.Refs()[ts[i]] > 0
    }

    /** One round of write_log: block[tail], as cached, goes to its log slot. */
    method WriteLogBlock(tail: nat)
      requires Valid() && tail < n && Loggable(layout, |bc.disk|, Targets())
      requires bc.HasIdle() && bc.Refs()[layout.start + 1 + tail] == 0 && !bc.Locks()[layout.start + 1 + tail]
      requires bc.Refs()[block[tail]] > 0 && !bc.Locks()[block[tail]]
      modifies bc, bc.buf, bc.next, bc.prev
      ensures Valid() && bc.HasIdle()
      ensures bc.Refs() == old(bc.Refs()) && bc.Locks() == old(bc.Locks())
      ensures var slot := layout.start + 1 + tail;
              var data := old(bc.View())[block[tail]];
              && bc.View() == old(bc.View())[slot := data]
              && bc.disk == old(bc.disk)[slot := data]
              && bc.writes == old(bc.writes) + [Write(slot, data)]
    {
      hide Bcache.Valid;
      hide Bcache.View;
      hide Bcache.Refs;
      hide Bcache.Locks;
      hide Bcache.Held;
      hide Bcache.HasIdle;
      hide Bcache.HasTwoIdle;
      ghost var slot, t := layout.start + tail + 1, block[tail];
      ghost var refs := bc.Refs();
      var to := bc.Bread(layout.start + tail + 1);
      var from := bc.Bread(block[tail]);
      bc.Overwrite(to, bc.buf[from].data, slot);
      assert bc.Refs() == refs[slot := 1][t := refs[t] + 1];
      bc.Brelse(from, t);
      assert bc.Refs() == refs[slot := 1];
      bc.Brelse(to, slot);
    }

    /** The start of a round of install_trans: a log slot copied onto its home block. */
    method CopyHome(slot: nat, t: nat) returns (lbuf: nat, dbuf: nat)
      requires Valid() && slot < |bc.disk| && t < |bc.disk| && slot != t
      requires bc.Refs()[slot] == 0 && !bc.Locks()[slot] && !bc.Locks()[t]
      requires if bc.Refs()[t] == 0 then bc.HasTwoIdle() else bc.HasIdle()
      modifies bc, bc.buf, bc.next, bc.prev
      ensures Valid() && bc.Held(lbuf, slot) && bc.Held(dbuf, t)
      ensures bc.Refs() == old(bc.Refs())[slot := 1][t := old(bc.Refs())[t] + 1]
      ensures bc.Locks() == old(bc.Locks())[slot := true][t := true]
      ensures var data := old(bc.View())[slot];
              && bc.View() == old(bc.View())[t := data]
              && bc.disk == old(bc.disk)[t := data]
              && bc.writes == old(bc.writes) + [Write(t, data)]
      ensures bc.View()[slot] == bc.disk[slot]
    {
      hide Bcache.Valid;
      hide Bcache.View;
      hide Bcache.Refs;
      hide Bcache.Locks;
      hide Bcache.Held;
      hide Bcache.HasIdle;
      hide Bcache.HasTwoIdle;
      bc.IdleIsClean(slot);
      if bc.HasTwoIdle() {
        bc.TwoIdleIdle();
      }
      lbuf := bc.Bread(slot);
      dbuf := bc.Bread(t);
      bc.Overwrite(dbuf, bc.buf[lbuf].data, t);
    }

    /**
     * One round of install_trans: slot tail goes to its home block, which is then no longer
     * pinned, or in recovery never was.
     */
    method InstallBlock(tail: nat, recovering: bool)
      requires Valid() && tail < n && Loggable(layout, |bc.disk|, Targets())
      requires bc.Refs()[layout.start + 1 + tail] == 0 && !bc.Locks()[layout.start + 1 + tail]
      requires !bc.Locks()[block[tail]]
      requires if recovering then bc.HasTwoIdle() && bc.Refs()[block[tail]] == 0
               else bc.HasIdle() && bc.Refs()[block[tail]] > 0
      modifies bc, bc.buf, bc.next, bc.prev
      ensures Valid() && bc.HasIdle() && (recovering ==> bc.HasTwoIdle())
      ensures bc.Refs() == if recovering then old(bc.Refs())
                           else old(bc.Refs())[block[tail] := old(bc.Refs())[block[tail]] - 1]
      ensures bc.Locks() == old(bc.Locks())
      ensures var t := block[tail];
              var data := old(bc.View())[layout.start + 1 + tail];
              && bc.View() == old(bc.View())[t := data]
              && bc.disk == old(bc.disk)[t := data]
              && bc.writes == old(bc.writes) + [Write(t, data)]
    {
      hide Bcache.Valid;
      hide Bcache.View;
      hide Bcache.Refs;
      hide Bcache.Locks;
      hide Bcache.Held;
      hide Bcache.HasIdle;
      hide Bcache.HasTwoIdle;
      ghost var slot, t := layout.start + tail + 1, block[tail];
      ghost var refs, locks := bc.Refs(), bc.Locks();
      var lbuf, dbuf := CopyHome(layout.start + tail + 1, block[tail]);
      ghost var held := if recovering then refs[t] + 1 else refs[t];
      if !recovering {
        bc.Bunpin(dbuf, t);
      }
      ReleaseBoth(lbuf, dbuf, slot, t);
      UpdatesCollapse(refs, slot, 1, t, held, held - 1);
      UpdatesCollapse(locks, slot, true, t, true, false);
      assert locks[t := false] == locks;
      assert recovering ==> refs[t := refs[t]] == refs;
    }

    /** The end of a round of install_trans: both buffers given back, their data on disk. */
    method ReleaseBoth(lbuf: nat, dbuf: nat, ghost slot: nat, ghost t: nat)
      requires Valid() && bc.Held(lbuf, slot) && bc.Held(dbuf, t) && slot != t
      requires bc.Refs()[slot] == 1 && bc.View()[slot] == bc.disk[slot] && bc.View()[t] == bc.disk[t]
      modifies bc, bc.buf, bc.next, bc.prev
      ensures Valid() && bc.HasIdle() && (old(bc.Refs())[t] == 1 ==> bc.HasTwoIdle())
      ensures bc.Refs() == old(bc.Refs())[slot := 0][t := old(bc.Refs())[t] - 1]
      ensures bc.Locks() == old(bc.Locks())[slot := false][t := false]
      ensures bc.View() == old(bc.View()) && bc.disk == old(bc.disk) && bc.writes == old(bc.writes)
    {
      hide Bcache.Valid;
      hide Bcache.View;
      hide Bcache.Refs;
      hide Bcache.Locks;
      hide Bcache.Held;
      hide Bcache.HasIdle;
      hide Bcache.HasTwoIdle;
      bc.Brelse(lbuf, slot);
      bc.Brelse(dbuf, t);
    }

    /** Write the in-memory header to disk. */
    method WriteHead()
      requires Valid() && bc.HasIdle() && bc.Refs()[layout.start] == 0
      modifies bc, bc.buf, bc.next, bc.prev
      ensures Valid() && bc.HasIdle() && (old(bc.HasTwoIdle()) ==> bc.HasTwoIdle())
      ensures bc.Refs() == old(bc.Refs()) && bc.Locks() == old(bc.Locks())
      ensures var data := EncodeHead(old(bc.disk)[layout.start], Targets());
              && bc.View() == old(bc.View())[layout.start := data]
              && bc.disk == old(bc.disk)[layout.start := data]
              && bc.writes == old(bc.writes) + [Write(layout.start, data)]
    {
      hide Bcache.Valid;
      hide Bcache.View;
      hide Bcache.Refs;
      hide Bcache.Locks;
      hide Bcache.Held;
      hide Bcache.HasIdle;
      hide Bcache.HasTwoIdle;
      bc.IdleIsClean(layout.start);
      var b := bc.Bread(layout.start);
      var hb := bc.buf[b].data;
      ghost var h := hb;
      hb := hb[0 := n];
      var i := 0;
      while i < n
        invariant 0 <= i <= n
        invariant hb == [n] + block[..i] + h[1 + i..]
      {
        hb := hb[1 + i := block[i]];
        assert block[..i + 1] == block[..i] + [block[i]];
        i := i + 1;
      }
      bc.Overwrite(b, hb, layout.start);
      bc.Brelse(b, layout.start);
    }

    method WriteLog()
      requires Valid() && Quiet() && bc.HasIdle()
      requires Loggable(layout, |bc.disk|, Targets()) && Pinned(Targets())
      modifies bc, bc.buf, bc.next, bc.prev
      ensures Valid() && bc.HasIdle()
      ensures bc.Refs() == old(bc.Refs()) && bc.Locks() == old(bc.Locks())
      ensures var ws := SlotWrites(layout, Values(old(bc.View()), Targets()));
              && bc.View() == Apply(old(bc.View()), ws)
              && bc.disk == Apply(old(bc.disk), ws)
              && bc.writes == old(bc.writes) + ws
    {
      hide Bcache.Valid;
      hide Bcache.View;
      hide Bcache.Refs;
      hide Bcache.Locks;
      hide Bcache.HasIdle;
      hide Bcache.HasTwoIdle;
      hide Apply;
      hide SlotWrites;
      hide Values;
      ghost var v, d, w, ts := bc.View(), bc.disk, bc.writes, Targets();
      ApplyNone(v);
      ApplyNone(d);
      ghost var ws := SlotWrites(layout, Values(v, ts));
      SlotCount(layout, v, ts);
      var tail := 0;
      while tail < n
        invariant 0 <= tail <= n && Valid() && bc.HasIdle()
        invariant bc.Refs() == old(bc.Refs()) && bc.Locks() == old(bc.Locks())
        invariant bc.View() == Apply(v, ws[..tail]) && bc.disk == Apply(d, ws[..tail])
        invariant bc.writes == w + ws[..tail]
      {
        SlotNext(layout, v, d, ts, tail);
        WriteLogBlock(tail);
        tail := tail + 1;
      }
      assert ws[..n] == ws;
    }

    method InstallTrans(recovering: bool)
      requires Valid() && Quiet() && Loggable(layout, |bc.disk|, Targets())
      requires if recovering then
                 bc.HasTwoIdle() && forall i :: 0 <= i < n ==> bc.Refs()[block[i]] == 0
               else
                 bc.HasIdle() && Pinned(Targets())
      modifies bc, bc.buf, bc.next, bc.prev
      ensures Valid() && bc.HasIdle() && (recovering ==> bc.HasTwoIdle())
      ensures bc.Refs() == if recovering then old(bc.Refs()) else Unpinned(old(bc.Refs()), Targets())
      ensures bc.Locks() == old(bc.Locks())
      ensures var ws := InstallWrites(Targets(), LogSlots(layout, old(bc.View()), n));
              && bc.View() == Apply(old(bc.View()), ws)
              && bc.disk == Apply(old(bc.disk), ws)
              && bc.writes == old(bc.writes) + ws
    {
      hide Apply;
      hide InstallWrites;
      hide Unpinned;
      hide Loggable;
      hide Bcache.Valid;
      hide Bcache.View;
      hide Bcache.Refs;
      hide Bcache.Locks;
      hide Bcache.HasIdle;
      hide Bcache.HasTwoIdle;
      ghost var v, d, refs, locks, w := bc.View(), bc.disk, bc.Refs(), bc.Locks(), bc.writes;
      ghost var ts := Targets();
      LoggableFits(layout, |v|, ts);
      ghost var vals := LogSlots(layout, v, n);
      NothingYet(layout, v, d, refs, ts, vals);
      ghost var ws := InstallWrites(ts, vals);
      var tail := 0;
      while tail < n
        invariant 0 <= tail <= n && Valid() && (if recovering then bc.HasTwoIdle() else bc.HasIdle())
        invariant bc.Refs() == if recovering then refs else Unpinned(refs, ts[..tail])
        invariant bc.Locks() == locks
        invariant bc.View() == Apply(v, ws[..tail]) && bc.disk == Apply(d, ws[..tail])
        invariant bc.writes == w + ws[..tail]
      {
        SlotApart(layout, |v|, ts, tail);
        InstallSlot(layout, v, ts, vals, tail);
        InstallNext(layout, v, d, ts, vals, tail);
        if !recovering {
          UnpinNext(layout, refs, ts, tail, layout.start + 1 + tail);
        }
        InstallBlock(tail, recovering);
        tail := tail + 1;
      }
      if recovering {
        bc.TwoIdleIdle();
      }
      assert ws[..n] == ws && ts[..n] == ts;
    }

    /** Read the on-disk header into the in-memory one. */
    method ReadHead()
      requires Valid() && bc.HasIdle() && bc.Refs()[layout.start] == 0 && HeadOk(bc.disk[layout.start])
      modifies this`n, block, bc, bc.buf, bc.next, bc.prev
      ensures Valid() && bc.HasIdle() && (old(bc.HasTwoIdle()) ==> bc.HasTwoIdle())
      ensures Targets() == HeadTargets(old(bc.disk)[layout.start])
      ensures bc.Refs() == old(bc.Refs()) && bc.Locks() == old(bc.Locks()) && bc.View() == old(bc.View())
      ensures bc.disk == old(bc.disk) && bc.writes == old(bc.writes)
    {
      hide Bcache.Valid;
      hide Bcache.View;
      hide Bcache.Refs;
      hide Bcache.Locks;
      hide Bcache.HasIdle;
      hide Bcache.HasTwoIdle;
      bc.IdleIsClean(layout.start);
      var b := bc.Bread(layout.start);
      var lh := bc.buf[b].data;
      n := lh[0];
      var i := 0;
      while i < n
        invariant 0 <= i <= n
        invariant block[..i] == lh[1..1 + i]
        modifies block
      {
        block[i] := lh[1 + i];
        i := i + 1;
      }
      bc.Brelse(b, layout.start);
      assert bc.Refs() == old(bc.Refs()) && bc.Locks() == old(bc.Locks());
    }

    /**
     * Commit the logged blocks: the disk writes are exactly those of CommitWrites, so a crash
     * after any of them is covered by LogCrash.CrashAtomicity.
     */
    method Commit()
      requires Valid() && Quiet() && bc.HasIdle()
      requires Loggable(layout, |bc.disk|, Targets()) && Pinned(Targets())
      modifies this`n, bc, bc.buf, bc.next, bc.prev
      ensures Valid() && n == 0
      ensures bc.Refs() == Unpinned(old(bc.Refs()), old(Targets())) && bc.Locks() == old(bc.Locks())
      ensures var ws := CommitWrites(layout, old(bc.disk)[layout.start], old(Targets()), Values(old(bc.View()), old(Targets())));
              && bc.writes == old(bc.writes) + ws
              && bc.disk == Apply(old(bc.disk), ws)
              && bc.View() == Apply(old(bc.View()), ws)
    {
      hide Bcache.Valid;
      hide Bcache.View;
      hide Bcache.Refs;
      hide Bcache.Locks;
      hide Bcache.HasIdle;
      hide Bcache.HasTwoIdle;
      hide Apply;
      hide SlotWrites;
      hide InstallWrites;
      hide LogSlots;
      hide EncodeHead;
      if n > 0 {
        ghost var v, d, ts, w := bc.View(), bc.disk, Targets(), bc.writes;
        CommitRun(layout, v, d, ts);
        ghost var vals := Values(v, ts);
        CommitChain(layout, v, d[layout.start], ts, vals);
        CommitChain(layout, d, d[layout.start], ts, vals);
        WriteLog();
        WriteHead();
        ghost var head := Write(layout.start, EncodeHead(d[layout.start], ts));
        assert bc.writes == w + (SlotWrites(layout, vals) + [head]);
        InstallTrans(false);
        assert bc.writes == w + (SlotWrites(layout, vals) + [head] + InstallWrites(ts, vals));
        n := 0;
        WriteHead();
      } else {
        ApplyNone(bc.disk);
        ApplyNone(bc.View());
      }
    }

    /** Boot: replay whatever the on-disk log holds, then empty it. */
    method RecoverFromLog()
      requires Valid() && Quiet() && bc.HasTwoIdle() && GoodLog(layout, bc.disk)
      requires forall b :: 0 <= b < |bc.disk| ==> bc.Refs()[b] == 0
      modifies this`n, block, bc, bc.buf, bc.next, bc.prev
      ensures Valid() && n == 0
      ensures bc.Refs() == old(bc.Refs()) && bc.Locks() == old(bc.Locks())
      ensures bc.writes == old(bc.writes) + RecoveryWrites(layout, old(bc.disk))
      ensures bc.disk == Recover(layout, old(bc.disk))
    {
      hide Bcache.Valid;
      hide Bcache.View;
      hide Bcache.Refs;
      hide Bcache.Locks;
      hide Bcache.HasIdle;
      hide Bcache.HasTwoIdle;
      hide Apply;
      hide InstallWrites;
      hide LogSlots;
      hide EncodeHead;
      ghost var d, w := bc.disk, bc.writes;
      IdleViewIsDisk();
      RecoveryRun(layout, d);
      bc.TwoIdleIdle();
      ReadHead();
      ghost var ts := Targets();
      ghost var installs := InstallWrites(ts, LogSlots(layout, d, |ts|));
      InstallTrans(true);
      assert bc.writes == w + installs;
      bc.TwoIdleIdle();
      n := 0;
      WriteHead();
    }

    lemma IdleViewIsDisk()
      requires Valid() && forall b :: 0 <= b < |bc.disk| ==> bc.Refs()[b] == 0
      ensures bc.View() == bc.disk
    {
      forall b | 0 <= b < |bc.disk| ensures bc.View()[b] == bc.disk[b] {
        bc.IdleIsClean(b);
      }
    }

    /**
     * Record a modified buffer in the running transaction. "too big a transaction" and
     * "log_write outside of trans" stop the kernel; the result is then false.
     */
    method LogWrite(i: nat, ghost b: nat) returns (ok: bool)
      requires Valid() && bc.Held(i, b)
      modifies this`n, block, bc.buf
      ensures ok <==> old(n) < LOGSIZE && old(n) < layout.size - 1 && outstanding >= 1
      ensures Valid() && bc.KeepsHeld(-1)
      ensures !ok ==> Targets() == old(Targets()) && unchanged(bc.buf)
      ensures bc.View() == old(bc.View()) && bc.Locks() == old(bc.Locks())
      ensures ok && b in old(Targets()) ==> Targets() == old(Targets()) && bc.Refs() == old(bc.Refs())
      ensures ok && b !in old(Targets()) ==>
                && Targets() == old(Targets()) + [b]
                && bc.Refs() == old(bc.Refs())[b := old(bc.Refs())[b] + 1]
    {
      hide Bcache.Valid;
      hide Bcache.View;
      hide Bcache.Refs;
      hide Bcache.Locks;
      hide Bcache.HasIdle;
      if n >= LOGSIZE || n >= layout.size - 1 || outstanding < 1 {
        return false;
      }
      ok := true;
      var j := 0;
      while j < n && block[j] != bc.buf[i].blockno
        invariant 0 <= j <= n
        invariant b !in block[..j]
      {
        j := j + 1;
      }
      assert j < n ==> block[..n][j] == b;
      block[j] := bc.buf[i].blockno;
      if j == n {
        bc.Bpin(i, b);
        n := n + 1;
      }
      assert block[..n] == if b in old(block[..n]) then old(block[..n]) else old(block[..n]) + [b];
    }
  }
}
