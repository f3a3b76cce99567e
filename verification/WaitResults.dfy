/** What wait, exit and kill come to: when wait sleeps, when it returns and with what, and who is whose child. */
module WaitResults {
  import opened Basics
  import opened ExitWait

  /** Some slot before i is a child of process p. */
  ghost predicate HasChild(parent: seq<Option<nat>>, p: nat, i: nat) {
    exists j :: 0 <= j < i && j < |parent| && parent[j] == Some(p)
  }

  /** From the decision to sleep in wait to the next scan. */
  predicate InSleep(pc: PC) {
    || pc.SleepBegin? || pc.SleepRelease? || pc.SleepChan? || pc.SleepState? || pc.Sched? || pc.Asleep? || pc.Resumed?
    || pc.Reacquire?
  }

  /** The scan knows of a child just when it has passed one, and only who has a child sleeps. */
  ghost predicate KidsOk(s: System, p: nat)
    requires Shaped(s) && p < |s.pc|
  {
    && (s.pc[p].Scan? ==> (s.pc[p].kids <==> HasChild(s.parent, p, s.pc[p].i)))
    && (InSleep(s.pc[p]) ==> HasChild(s.parent, p, |s.pc|))
  }

  /** May a process at this point have child i? exit gives them away one by one. */
  predicate MayParent(pc: PC, i: nat) {
    && !pc.Dead? && !pc.ParentWake? && !pc.ParentWakeOne? && !pc.ExitLock? && !pc.ExitZombie? && !pc.ExitRelease?
    && !pc.ExitSched?
    && (pc.Reparent? ==> pc.i <= i)
    && ((pc.InitWake? || pc.InitWakeOne?) ==> pc.i < i)
  }

  ghost predicate FamilyOk(s: System, i: nat)
    requires Shaped(s) && i < |s.pc|
  {
    && (s.parent[i].Some? ==> s.parent[i].value < |s.pc| && MayParent(s.pc[s.parent[i].value], i))
    && (i == s.init || s.state[i].Unused? ==> s.parent[i].None?)
    && (i != s.init && (s.state[i].Runnable? || s.state[i].Sleeping? || s.state[i].Zombie?) ==> s.parent[i].Some?)
    && (i == s.init ==> !s.pc[i].Dead?)
  }

  /** The slot that fork has taken gets the forking process as its parent. */
  ghost predicate ForkOk(s: System, p: nat)
    requires Shaped(s) && p < |s.pc|
  {
    var pc := s.pc[p];
    && (pc.ForkUnlock? || pc.ForkWait? || pc.ForkParent? ==> s.parent[pc.n].None?)
    && (pc.ForkRelease? || pc.ForkLock? || pc.ForkRun? ==> s.parent[pc.n] == Some(p))
  }

  /** Locks are held by processes. */
  ghost predicate LocksIn(s: System, k: nat)
    requires Shaped(s) && k < |s.pc|
  {
    s.plock[k].Some? ==> s.plock[k].value < |s.pc|
  }

  ghost predicate WlockIn(s: System)
    requires Shaped(s)
  {
    s.wlock.Some? ==> s.wlock.value < |s.pc|
  }

  ghost predicate WaitInv(s: System) {
    && Inv(s) && WlockIn(s)
    && forall p :: 0 <= p < |s.pc| ==> KidsOk(s, p) && FamilyOk(s, p) && ForkOk(s, p) && LocksIn(s, p)
  }

  /** A step changes one parent at most, and only with wait_lock: reparent, fork or wait's freeproc. */
  lemma ParentStep(s: System, p: nat, c: Call, i: nat)
    requires Inv(s) && p < |s.pc| && Enabled(s, p, c) && i < |s.pc|
    ensures |NextParent(s, p, c)| == |s.pc|
    ensures s.wlock != Some(p) ==> NextParent(s, p, c) == s.parent
    ensures s.pc[p] == Test(i) && Frees(s, p, c) ==> NextParent(s, p, c)[i] == None
    ensures NextParent(s, p, c)[i] == s.parent[i]
            || (s.pc[p] == Reparent(i) && s.parent[i] == Some(p) && NextParent(s, p, c)[i] == Some(s.init))
            || (s.pc[p] == ForkParent(i) && NextParent(s, p, c)[i] == Some(p))
            || (s.pc[p] == Test(i) && s.parent[i] == Some(p) && Frees(s, p, c) && NextParent(s, p, c)[i] == None)
  {
    hide PlockOk;
    hide StatesOk;
    hide ForksOk;
    hide ExitsOk;
    hide WaitersOk;
    hide CountsOk;
    assert InRange(|s.pc|, s.pc[p]);
    assert s.wlock == Some(p) <==> HoldsWlock(s.pc[p]);
  }

  lemma KidsSelf(s: System, p: nat, c: Call)
    requires Inv(s) && p < |s.pc| && Enabled(s, p, c) && KidsOk(s, p)
    ensures Shaped(Step(s, p, c)) && |Step(s, p, c).pc| == |s.pc| && KidsOk(Step(s, p, c), p)
  {
    hide Inv;
    hide KidsOk;
    hide Enabled;
    hide NextPc;
    hide NextState;
    hide NextChan;
    hide NextKilled;
    hide NextPlock;
    hide NextWlock;
    hide NextParent;
    StepShapes(s, p, c);
    if s.pc[p].Scan? || s.pc[p].Test? {
      ScanGoesOn(s, p, c);
    } else {
      SleepGoesOn(s, p, c);
    }
  }

  lemma ScanGoesOn(s: System, p: nat, c: Call)
    requires Inv(s) && p < |s.pc| && Enabled(s, p, c) && KidsOk(s, p) && (s.pc[p].Scan? || s.pc[p].Test?)
    requires Shaped(Step(s, p, c)) && |Step(s, p, c).pc| == |s.pc|
    ensures KidsOk(Step(s, p, c), p)
  {
    hide WlockOk;
    hide PlockOk;
    hide StatesOk;
    hide ForksOk;
    hide ExitsOk;
    hide WaitersOk;
    hide CountsOk;
    hide NextState;
    hide NextChan;
    hide NextKilled;
    hide NextPlock;
    hide NextWlock;
    assert s.pc[p].Scan? && s.pc[p].i < |s.pc| ==>
             (HasChild(s.parent, p, s.pc[p].i + 1) <==> HasChild(s.parent, p, s.pc[p].i) || s.parent[s.pc[p].i] == Some(p));
  }

  lemma SleepGoesOn(s: System, p: nat, c: Call)
    requires Shaped(s) && p < |s.pc| && Enabled(s, p, c) && KidsOk(s, p) && !s.pc[p].Scan? && !s.pc[p].Test?
    requires Shaped(Step(s, p, c)) && |Step(s, p, c).pc| == |s.pc|
    ensures KidsOk(Step(s, p, c), p)
  {
    hide NextState;
    hide NextChan;
    hide NextKilled;
    hide NextPlock;
    hide NextWlock;
    assert InRange(|s.pc|, s.pc[p]);
  }

  lemma KidsOther(s: System, p: nat, c: Call, q: nat)
    requires Inv(s) && p < |s.pc| && Enabled(s, p, c) && q < |s.pc| && KidsOk(s, q) && q != p && ForkOk(s, p)
    ensures Shaped(Step(s, p, c)) && |Step(s, p, c).pc| == |s.pc| && KidsOk(Step(s, p, c), q)
  {
    hide PlockOk;
    hide ScansOk;
    hide ExitsOk;
    hide WaitersOk;
    hide CountsOk;
    hide NextPc;
    hide NextState;
    hide NextChan;
    hide NextParent;
    hide NextKilled;
    hide NextPlock;
    hide NextWlock;
    StepShapes(s, p, c);
    OtherPc(s, p, c, q);
    assert s.wlock == Some(q) <==> HoldsWlock(s.pc[q]);
    hide StatesOk;
    hide ForksOk;
    hide WlockOk;
    if InSleep(s.pc[q]) {
      var j :| 0 <= j < |s.pc| && s.parent[j] == Some(q);
      ParentStep(s, p, c, j);
      assert Step(s, p, c).parent[j] == Some(q);
    } else if s.pc[q].Scan? {
      ParentStep(s, p, c, 0);
    }
  }

  lemma FamilyParent(s: System, p: nat, c: Call, i: nat)
    requires WaitInv(s) && p < |s.pc| && Enabled(s, p, c) && i < |s.pc|
    requires Shaped(Step(s, p, c)) && |Step(s, p, c).pc| == |s.pc|
    ensures var t := Step(s, p, c);
            t.parent[i].Some? ==> t.parent[i].value < |s.pc| && MayParent(t.pc[t.parent[i].value], i)
  {
    hide WlockOk;
    hide PlockOk;
    hide ScansOk;
    hide ExitsOk;
    hide WaitersOk;
    hide CountsOk;
    hide NextState;
    hide NextChan;
    hide NextParent;
    hide NextKilled;
    hide NextPlock;
    hide NextWlock;
    hide NextPc;
    hide KidsOk;
    hide MayParent;
    assert FamilyOk(s, i) && FamilyOk(s, s.init) && ForkOk(s, p) && InRange(|s.pc|, s.pc[p]);
    ParentStep(s, p, c, i);
    var t := Step(s, p, c);
    if t.parent[i].Some? {
      var q := t.parent[i].value;
      if q != p {
        assert MayParent(s.pc[q], i) by {
          if t.parent[i] != s.parent[i] {
            assert q == s.init;
            NotExiting(s, i);
          }
        }
        OtherPc(s, p, c, q);
        DeadParent(s.pc[q], i);
      } else {
        OwnChildren(s, p, c, i);
      }
    }
  }

  lemma DeadParent(pc: PC, i: nat)
    requires MayParent(pc, i)
    ensures !pc.Dead?
  {
  }

  lemma NotExiting(s: System, i: nat)
    requires Shaped(s) && InitOk(s) && !s.pc[s.init].Dead?
    ensures MayParent(s.pc[s.init], i)
  {
  }

  /** A process that exits has given away the children it has passed. */
  lemma OwnChildren(s: System, p: nat, c: Call, i: nat)
    requires Inv(s) && p < |s.pc| && Enabled(s, p, c) && i < |s.pc|
    requires s.parent[i] == Some(p) ==> MayParent(s.pc[p], i)
    requires Step(s, p, c).parent[i] == Some(p)
    ensures MayParent(Step(s, p, c).pc[p], i)
  {
    hide WlockOk;
    hide PlockOk;
    hide StatesOk;
    hide ForksOk;
    hide ScansOk;
    hide ExitsOk;
    hide WaitersOk;
    hide CountsOk;
    hide NextState;
    hide NextChan;
    hide NextKilled;
    hide NextPlock;
    hide NextWlock;
  }

  lemma FamilyStates(s: System, p: nat, c: Call, i: nat)
    requires WaitInv(s) && p < |s.pc| && Enabled(s, p, c) && i < |s.pc|
    requires Shaped(Step(s, p, c)) && |Step(s, p, c).pc| == |s.pc|
    ensures var t := Step(s, p, c);
            && (i == t.init || t.state[i].Unused? ==> t.parent[i].None?)
            && (i != t.init && (t.state[i].Runnable? || t.state[i].Sleeping? || t.state[i].Zombie?) ==> t.parent[i].Some?)
  {
    hide WlockOk;
    hide PlockOk;
    hide ScansOk;
    hide ExitsOk;
    hide WaitersOk;
    hide CountsOk;
    hide NextChan;
    hide NextParent;
    hide NextKilled;
    hide NextPlock;
    hide NextWlock;
    hide NextPc;
    hide KidsOk;
    hide MayParent;
    assert FamilyOk(s, i) && FamilyOk(s, s.init) && ForkOk(s, p) && InRange(|s.pc|, s.pc[p]);
    assert Fits(s, s.init) && Fits(s, p);
    ParentStep(s, p, c, i);
    assert s.pc[p] == ForkParent(i) ==> Forking(s.pc[p], i) && s.state[i].Used?;
  }

  lemma InitLives(s: System, p: nat, c: Call)
    requires WaitInv(s) && p < |s.pc| && Enabled(s, p, c)
    requires Shaped(Step(s, p, c)) && |Step(s, p, c).pc| == |s.pc|
    ensures !Step(s, p, c).pc[s.init].Dead?
  {
    hide NextChan;
    hide NextState;
    hide NextParent;
    hide NextKilled;
    hide NextPlock;
    hide NextWlock;
    hide KidsOk;
    hide MayParent;
    assert FamilyOk(s, s.init);
    if s.init != p {
      OtherPc(s, p, c, s.init);
    }
    hide WlockOk;
    hide PlockOk;
    hide StatesOk;
    hide ForksOk;
    hide ScansOk;
    hide ExitsOk;
    hide WaitersOk;
    hide CountsOk;
  }

  lemma ForkStep(s: System, p: nat, c: Call, q: nat)
    requires WaitInv(s) && p < |s.pc| && Enabled(s, p, c) && q < |s.pc|
    requires Shaped(Step(s, p, c)) && |Step(s, p, c).pc| == |s.pc|
    ensures ForkOk(Step(s, p, c), q)
  {
    hide Inv;
    hide NextPc;
    hide NextChan;
    hide NextState;
    hide NextParent;
    hide NextKilled;
    hide NextPlock;
    hide NextWlock;
    StepShapes(s, p, c);
    if q == p {
      assert InRange(|s.pc|, s.pc[p]);
      ForkSelf(s, p, c);
    } else {
      ForkOther(s, p, c, q);
    }
  }

  lemma ForkSelf(s: System, p: nat, c: Call)
    requires Shaped(s) && p < |s.pc| && Enabled(s, p, c) && ForkOk(s, p) && (s.pc[p].ForkAlloc? ==> FamilyOk(s, s.pc[p].n))
    requires Shaped(Step(s, p, c)) && |Step(s, p, c).pc| == |s.pc|
    ensures ForkOk(Step(s, p, c), p)
  {
    hide NextChan;
    hide NextState;
    hide NextKilled;
    hide NextPlock;
    hide NextWlock;
    hide MayParent;
    assert InRange(|s.pc|, s.pc[p]);
  }

  /** No two processes fork into one slot, and wait does not free it. */
  lemma OneForks(s: System, p: nat, q: nat, n: nat)
    requires Shaped(s) && ForksOk(s) && p < |s.pc| && q < |s.pc| && n < |s.pc| && p != q && Forking(s.pc[q], n)
    ensures s.state[n].Used? && s.pc[p] != ForkParent(n)
  {
    if s.pc[p] == ForkParent(n) {
      ForkingOne(s, p, q, n);
      assert false;
    }
  }

  lemma ForkingOne(s: System, p: nat, q: nat, n: nat)
    requires Shaped(s) && ForksOk(s) && p < |s.pc| && q < |s.pc| && n < |s.pc| && Forking(s.pc[q], n) && Forking(s.pc[p], n)
    ensures p == q
  {
  }

  lemma ForkOther(s: System, p: nat, c: Call, q: nat)
    requires WaitInv(s) && p < |s.pc| && Enabled(s, p, c) && q < |s.pc| && q != p
    requires Shaped(Step(s, p, c)) && |Step(s, p, c).pc| == |s.pc|
    ensures ForkOk(Step(s, p, c), q)
  {
    hide WlockOk;
    hide PlockOk;
    hide ScansOk;
    hide ExitsOk;
    hide WaitersOk;
    hide CountsOk;
    hide NextChan;
    hide NextPc;
    hide NextParent;
    hide NextState;
    hide NextKilled;
    hide NextPlock;
    hide NextWlock;
    hide KidsOk;
    hide MayParent;
    hide FamilyOk;
    assert ForkOk(s, q) && InRange(|s.pc|, s.pc[q]);
    OtherPc(s, p, c, q);
    var pc := s.pc[q];
    if pc.ForkUnlock? || pc.ForkWait? || pc.ForkParent? || pc.ForkRelease? || pc.ForkLock? || pc.ForkRun? {
      ParentStep(s, p, c, pc.n);
      OneForks(s, p, q, pc.n);
    }
  }

  lemma LockStep(s: System, p: nat, c: Call, k: nat)
    requires Shaped(s) && p < |s.pc| && Enabled(s, p, c) && k < |s.pc| && LocksIn(s, k)
    requires Shaped(Step(s, p, c)) && |Step(s, p, c).pc| == |s.pc|
    ensures LocksIn(Step(s, p, c), k) && (WlockIn(s) ==> WlockIn(Step(s, p, c)))
  {
    hide NextPc;
    hide NextState;
    hide NextChan;
    hide NextParent;
    hide NextKilled;
    assert InRange(|s.pc|, s.pc[p]);
  }

  lemma StepKeepsWaitInv(s: System, p: nat, c: Call)
    requires WaitInv(s) && p < |s.pc| && Enabled(s, p, c)
    ensures WaitInv(Step(s, p, c))
  {
    hide Inv;
    hide NextChan;
    hide NextPc;
    hide NextParent;
    hide NextState;
    hide NextKilled;
    hide NextPlock;
    hide NextWlock;
    hide KidsOk;
    hide MayParent;
    hide ForkOk;
    hide WlockIn;
    StepKeepsInv(s, p, c);
    StepShapes(s, p, c);
    var t := Step(s, p, c);
    InitLives(s, p, c);
    LockStep(s, p, c, p);
    forall q: nat | q < |s.pc| ensures KidsOk(t, q) && FamilyOk(t, q) && ForkOk(t, q) && LocksIn(t, q) {
      LockStep(s, p, c, q);
      if q == p {
        KidsSelf(s, p, c);
      } else {
        KidsOther(s, p, c, q);
      }
      FamilyParent(s, p, c, q);
      FamilyStates(s, p, c, q);
      ForkStep(s, p, c, q);
    }
  }

  lemma BootWaitInv(n: nat, init: nat)
    requires init < n
    ensures WaitInv(Boot(n, init))
  {
    BootInv(n, init);
  }

  lemma {:induction false} RunKeepsWaitInv(s: System, run: seq<Move>)
    requires WaitInv(s) && CanRun(s, run)
    ensures WaitInv(Run(s, run))
    decreases |run|
  {
    if run != [] {
      StepKeepsWaitInv(s, run[0].p, run[0].c);
      RunKeepsWaitInv(Step(s, run[0].p, run[0].c), run[1..]);
    }
  }

  /** s comes about from boot, however the processes take turns. */
  ghost predicate Reached(s: System) {
    exists n: nat, init: nat, run: seq<Move> :: init < n && CanRun(Boot(n, init), run) && s == Run(Boot(n, init), run)
  }

  lemma ReachedInv(s: System)
    requires Reached(s)
    ensures WaitInv(s)
  {
    hide WaitInv;
    var n: nat, init: nat, run: seq<Move> :| init < n && CanRun(Boot(n, init), run) && s == Run(Boot(n, init), run);
    BootWaitInv(n, init);
    RunKeepsWaitInv(Boot(n, init), run);
  }

  // ----- wait

  ghost predicate HasZombie(s: System, p: nat)
    requires Shaped(s)
  {
    exists i :: 0 <= i < |s.pc| && s.parent[i] == Some(p) && s.state[i].Zombie?
  }

  /** Within wait, up to its end. */
  predicate InWait(pc: PC) {
    pc.WaitBegin? || pc.Scan? || pc.Test? || pc.Reaped? || pc.Return? || InSleep(pc)
  }

  lemma FromScan(s: System, p: nat, c: Call)
    requires Shaped(s) && p < |s.pc| && Enabled(s, p, c)
    ensures NextPc(s, p, c).SleepBegin? ==> s.pc[p] == Scan(|s.pc|, true) && !s.killed[p]
    ensures NextPc(s, p, c).Return? && !s.pc[p].Reaped? ==> s.pc[p].Scan? && s.pc[p].i == |s.pc| && (s.pc[p].kids ==> s.killed[p])
  {
    hide Shaped;
  }

  lemma PassedNoZombie(s: System, p: nat)
    requires Inv(s) && p < |s.pc| && s.pc[p].Scan? && s.pc[p].i == |s.pc|
    ensures !HasZombie(s, p) && s.wlock == Some(p)
  {
    hide PlockOk;
    hide StatesOk;
    hide ForksOk;
    hide ExitsOk;
    hide WaitersOk;
    hide CountsOk;
    assert s.wlock == Some(p) <==> HoldsWlock(s.pc[p]);
  }

  /** wait goes to sleep just from the end of a scan, with a child, no zombie child, and not killed. */
  lemma WaitSleeps(s: System, p: nat, c: Call)
    requires Reached(s) && Shaped(s) && p < |s.pc| && Enabled(s, p, c)
    requires Shaped(Step(s, p, c)) && Step(s, p, c).pc[p].SleepBegin?
    ensures HasChild(s.parent, p, |s.pc|) && !HasZombie(s, p) && !s.killed[p] && s.wlock == Some(p)
  {
    hide NextPc;
    hide Enabled;
    ReachedInv(s);
    hide Reached;
    hide Inv;
    assert KidsOk(s, p);
    FromScan(s, p, c);
    PassedNoZombie(s, p);
  }

  /** wait comes to its end just with a child that it found, or with none to be found. */
  lemma WaitReturns(s: System, p: nat, c: Call)
    requires Reached(s) && Shaped(s) && p < |s.pc| && Enabled(s, p, c)
    requires Shaped(Step(s, p, c)) && Step(s, p, c).pc[p].Return?
    ensures s.pc[p].Reaped? || (!HasZombie(s, p) && (!HasChild(s.parent, p, |s.pc|) || s.killed[p]))
  {
    hide NextPc;
    hide Enabled;
    ReachedInv(s);
    hide Reached;
    hide Inv;
    assert KidsOk(s, p);
    FromScan(s, p, c);
    if !s.pc[p].Reaped? {
      PassedNoZombie(s, p);
    }
  }

  /** The end of a scan: wait gives up just if the process has no child or is killed. */
  lemma ScanEnds(s: System, p: nat, c: Call)
    requires Reached(s) && Shaped(s) && p < |s.pc| && Enabled(s, p, c)
    requires s.pc[p].Scan? && s.pc[p].i == |s.pc| && Shaped(Step(s, p, c)) && |Step(s, p, c).pc| == |s.pc|
    ensures var u := Step(s, p, c).pc[p];
            if HasChild(s.parent, p, |s.pc|) && !s.killed[p] then u.SleepBegin? else u.Return?
  {
    ReachedInv(s);
    assert KidsOk(s, p);
    hide Inv;
  }

  /** wait finds just its own zombie children, and frees the one it finds unless the status cannot be copied out. */
  lemma WaitFinds(s: System, p: nat, c: Call, i: nat)
    requires Reached(s) && Shaped(s) && p < |s.pc| && Enabled(s, p, c) && i < |s.pc|
    requires Shaped(Step(s, p, c)) && |Step(s, p, c).pc| == |s.pc| && Step(s, p, c).pc[p] == Reaped(i)
    ensures s.parent[i] == Some(p) && s.state[i].Zombie? && s.pc[i].Dead?
    ensures var t := Step(s, p, c);
            if c == Continue(true) then t.state[i].Unused? && t.parent[i].None? && t.reaps[i] == s.reaps[i] + 1
            else t.state == s.state && t.parent == s.parent && t.reaps == s.reaps
  {
    ReachedInv(s);
    hide NextPlock;
    hide NextWlock;
    FoundAt(s, p, c, i);
    assert Fits(s, i) && Fits(s, p);
    assert s.plock[i] == Some(p) <==> HoldsPlock(s.pc[p], p, i);
    assert s.plock[i] == Some(i) <==> HoldsPlock(s.pc[i], i, i);
    hide Inv;
  }

  lemma FoundAt(s: System, p: nat, c: Call, i: nat)
    requires Inv(s) && p < |s.pc| && Enabled(s, p, c) && i < |s.pc| && NextPc(s, p, c) == Reaped(i)
    ensures s.pc[p] == Test(i) && s.parent[i] == Some(p) && s.state[i].Zombie?
  {
    hide WlockOk;
    hide PlockOk;
    hide StatesOk;
    hide ForksOk;
    hide ExitsOk;
    hide WaitersOk;
    hide CountsOk;
  }

  /** From within wait the call ends only through its last step, with wait_lock given back. */
  lemma WaitGoesOn(s: System, p: nat, c: Call)
    requires Reached(s) && Shaped(s) && p < |s.pc| && Enabled(s, p, c) && InWait(s.pc[p])
    requires Shaped(Step(s, p, c)) && |Step(s, p, c).pc| == |s.pc|
    ensures InWait(Step(s, p, c).pc[p]) || (s.pc[p].Return? && Step(s, p, c).pc[p].Idle? && Step(s, p, c).wlock.None?)
  {
    hide NextState;
    hide NextChan;
    hide NextParent;
    hide NextKilled;
    hide NextPlock;
  }

  // ----- exit and fork

  /** Whoever runs or is yet to be reaped, but init, has a parent that has not come to the end of exit. */
  lemma ParentAlive(s: System, i: nat)
    requires Reached(s) && Shaped(s) && i < |s.pc| && i != s.init && (s.state[i].Zombie? || !s.pc[i].Dead?)
    ensures s.parent[i].Some? && s.parent[i].value < |s.pc|
    ensures var q := s.parent[i].value; !s.pc[q].Dead? && (s.state[q].Runnable? || s.state[q].Sleeping?)
  {
    ReachedInv(s);
    hide KidsOk;
    hide ForkOk;
    hide WlockOk;
    hide PlockOk;
    hide ForksOk;
    hide ScansOk;
    hide ExitsOk;
    hide WaitersOk;
    hide CountsOk;
    assert FamilyOk(s, i) && Fits(s, i);
    assert Fits(s, s.parent[i].value);
  }

  /** A process that has exited, or has only its state left to set, has no children. */
  lemma ExitedChildless(s: System, p: nat, i: nat)
    requires Reached(s) && Shaped(s) && p < |s.pc| && i < |s.pc|
    requires s.pc[p].Dead? || s.pc[p].ExitLock? || s.pc[p].ExitZombie? || s.state[p].Zombie?
    ensures s.parent[i] != Some(p)
  {
    ReachedInv(s);
    hide KidsOk;
    hide ForkOk;
    hide WlockOk;
    hide PlockOk;
    hide ForksOk;
    hide ScansOk;
    hide ExitsOk;
    hide WaitersOk;
    hide CountsOk;
    assert FamilyOk(s, i) && Fits(s, p);
  }

  /** fork lets a slot run that nothing ran in, as a child of the process that forks. */
  lemma ForkStarts(s: System, p: nat, c: Call, m: nat)
    requires Reached(s) && Shaped(s) && p < |s.pc| && Enabled(s, p, c) && m < |s.pc| && s.pc[p] == ForkRun(m)
    ensures s.pc[m].Dead? && s.state[m].Used? && s.parent[m] == Some(p)
    ensures var t := Step(s, p, c);
            && |t.pc| == |t.state| == |s.pc| && t.pc[m].Idle? && t.state[m].Runnable? && t.parent == s.parent
            && forall i :: 0 <= i < |s.pc| && i != m ==> t.state[i] == s.state[i]
  {
    ReachedInv(s);
    hide Reached;
    ForkSlot(s, p);
    assert ForkOk(s, p);
    hide Inv;
  }

  // ----- kill

  /** kill marks the process, if the slot has one, and wakes it. */
  lemma KillWakes(s: System, p: nat, c: Call, k: nat)
    requires Reached(s) && Shaped(s) && p < |s.pc| && Enabled(s, p, c) && k < |s.pc| && s.pc[p] == KillOne(k)
    ensures var t := Step(s, p, c);
            && |t.killed| == |t.state| == |s.pc| && (s.state[k].Unused? || t.killed[k]) && !t.state[k].Sleeping?
            && forall i :: 0 <= i < |s.pc| && i != k ==> t.killed[i] == s.killed[i] && t.state[i] == s.state[i]
  {
  }

  /** Process p sleeps in wait or has decided to. */
  predicate Sleeper(s: System, p: nat)
    requires Shaped(s) && p < |s.pc|
  {
    s.pc[p].SleepBegin? || s.pc[p].SleepRelease? || Waiting(s, p)
  }

  /** A killed process that has not decided to sleep does so no more, until its slot is freed. */
  lemma KilledStaysAwake(s: System, p: nat, c: Call, k: nat)
    requires Reached(s) && Shaped(s) && p < |s.pc| && Enabled(s, p, c) && k < |s.pc| && s.killed[k] && !Sleeper(s, k)
    ensures var t := Step(s, p, c);
            && Shaped(t) && |t.pc| == |s.pc| && !Sleeper(t, k)
            && (t.killed[k] || (s.state[k].Zombie? && t.state[k].Unused?))
  {
    hide Waiting;
    hide Enabled;
    ReachedInv(s);
    hide Reached;
    StepShapes(s, p, c);
    StepWaiting(s, p, c, k);
    if p != k {
      OtherPc(s, p, c, k);
    } else {
      NotToSleep(s, p, c);
    }
    hide Inv;
    KilledStays(s, p, c, k);
  }

  lemma NotToSleep(s: System, p: nat, c: Call)
    requires Shaped(s) && p < |s.pc| && Enabled(s, p, c) && s.killed[p] && !s.pc[p].SleepBegin? && !s.pc[p].SleepRelease?
    ensures !NextPc(s, p, c).SleepBegin? && !NextPc(s, p, c).SleepRelease?
  {
    hide Shaped;
  }

  lemma KilledStays(s: System, p: nat, c: Call, k: nat)
    requires Shaped(s) && p < |s.pc| && Enabled(s, p, c) && k < |s.pc| && s.killed[k]
    ensures var t := Step(s, p, c);
            && |t.killed| == |t.state| == |s.pc| && (t.killed[k] || (s.state[k].Zombie? && t.state[k].Unused?))
  {
    hide NextPc;
    hide NextChan;
    hide NextParent;
    hide NextPlock;
    hide NextWlock;
    assert InRange(|s.pc|, s.pc[p]);
  }

  /** kill misses just the process that has decided to sleep and has not taken its own lock yet. */
  lemma KillMisses(s: System, p: nat, c: Call, k: nat)
    requires Reached(s) && Shaped(s) && p < |s.pc| && Enabled(s, p, c) && k < |s.pc| && s.pc[p] == KillOne(k)
    ensures var t := Step(s, p, c); Shaped(t) && |t.pc| == |s.pc| && (Sleeper(t, k) <==> s.pc[k].SleepBegin?)
  {
    ReachedInv(s);
    hide Reached;
    StepShapes(s, p, c);
    assert s.plock[k] == Some(k) <==> HoldsPlock(s.pc[k], k, k);
    assert s.plock[k] == Some(p) <==> HoldsPlock(s.pc[p], p, k);
    if p != k {
      OtherPc(s, p, c, k);
    }
    hide Inv;
  }

  /** The states that process p goes through once it has decided to sleep. */
  function FallingAsleep(s: System, p: nat): (tr: seq<System>)
    requires Shaped(s) && p < |s.pc|
    ensures |tr| == 6
  {
    var begun := s.(pc := s.pc[p := SleepRelease], plock := s.plock[p := Some(p)]);
    var released := begun.(pc := s.pc[p := SleepChan], wlock := None);
    var on := released.(pc := s.pc[p := SleepState], chan := s.chan[p := Some(p)]);
    var asleep := on.(pc := s.pc[p := Sched], state := s.state[p := Sleeping]);
    [s, begun, released, on, asleep, asleep.(pc := s.pc[p := Asleep], plock := s.plock[p := None])]
  }

  /** It sleeps then, killed or not. */
  lemma SleepsThough(s: System, p: nat, c: Call, i: nat)
    requires Shaped(s) && p < |s.pc| && s.pc[p].SleepBegin? && s.plock[p].None? && i < 5
    ensures var tr := FallingAsleep(s, p);
            && Shaped(tr[i]) && p < |tr[i].pc| && Enabled(tr[i], p, c) && Step(tr[i], p, c) == tr[i + 1]
            && tr[5].killed == s.killed && tr[5].state[p].Sleeping? && tr[5].pc[p].Asleep?
  {
    FallingShaped(s, p, i);
    hide Shaped;
    if i < 2 {
      FallFirst(s, p, c, i);
    } else {
      FallThen(s, p, c, i);
    }
  }

  lemma FallFirst(s: System, p: nat, c: Call, i: nat)
    requires Shaped(s) && p < |s.pc| && s.pc[p].SleepBegin? && s.plock[p].None? && i < 2
    requires Shaped(FallingAsleep(s, p)[i])
    ensures var tr := FallingAsleep(s, p); p < |tr[i].pc| && Enabled(tr[i], p, c) && Step(tr[i], p, c) == tr[i + 1]
  {
  }

  lemma FallThen(s: System, p: nat, c: Call, i: nat)
    requires Shaped(s) && p < |s.pc| && s.pc[p].SleepBegin? && s.plock[p].None? && 2 <= i < 5
    requires Shaped(FallingAsleep(s, p)[i])
    ensures var tr := FallingAsleep(s, p); p < |tr[i].pc| && Enabled(tr[i], p, c) && Step(tr[i], p, c) == tr[i + 1]
  {
    if i == 4 {
      assert FallingAsleep(s, p)[4].plock[p := None] == s.plock[p := None];
    }
  }

  lemma FallingShaped(s: System, p: nat, i: nat)
    requires Shaped(s) && p < |s.pc| && i <= 5
    ensures var t := FallingAsleep(s, p)[i];
            && Shaped(t) && |t.pc| == |s.pc|
            && |t.state| == |t.chan| == |t.parent| == |t.killed| == |t.plock| == |t.exits| == |t.reaps| == |s.pc|
  {
  }

  // ----- progress

  /** Whoever holds the lock of a slot is never kept waiting. */
  lemma SlotHolderRuns(s: System, q: nat, k: nat, c: Call)
    requires Reached(s) && Shaped(s) && q < |s.pc| && k < |s.pc| && s.plock[k] == Some(q)
    ensures Enabled(s, q, c)
  {
    hide Enabled;
    ReachedInv(s);
    hide Reached;
    assert s.plock[k] == Some(q) <==> HoldsPlock(s.pc[q], q, k);
    hide Inv;
    HolderEnabled(s, q, k, c);
  }

  lemma HolderEnabled(s: System, q: nat, k: nat, c: Call)
    requires Shaped(s) && q < |s.pc| && HoldsPlock(s.pc[q], q, k)
    ensures Enabled(s, q, c)
  {
    hide Shaped;
  }

  /** Whoever holds wait_lock can go on, or waits for a slot's lock whose holder can go on. */
  lemma WaitLockHolderRuns(s: System, p: nat, c: Call) returns (q: nat)
    requires Reached(s) && Shaped(s) && p < |s.pc| && s.wlock == Some(p)
    ensures q < |s.pc| && Enabled(s, q, c)
    ensures q == p || exists k :: 0 <= k < |s.pc| && s.plock[k] == Some(q)
  {
    ReachedInv(s);
    assert s.wlock == Some(p) <==> HoldsWlock(s.pc[p]);
    hide Inv;
    q := p;
    if !Enabled(s, p, c) {
      var k := Blocked(s, p, c);
      assert LocksIn(s, k);
      q := s.plock[k].value;
      SlotHolderRuns(s, q, k, c);
    }
  }

  lemma Blocked(s: System, p: nat, c: Call) returns (k: nat)
    requires Shaped(s) && p < |s.pc| && InRange(|s.pc|, s.pc[p]) && HoldsWlock(s.pc[p]) && !Enabled(s, p, c)
    ensures k < |s.pc| && s.plock[k].Some?
  {
    var pc := s.pc[p];
    k := if pc.Scan? then pc.i else if pc.InitWake? || pc.ParentWake? then pc.k else p;
  }

  /** The steps that a process still has to take before its call ends or it sleeps. */
  function Left(pc: PC, n: nat): int {
    match pc
    case Idle => 0
    case Dead => 0
    case Return => 1
    case Reaped(_) => 2
    case Asleep => 3
    case Sched => 4
    case SleepState => 5
    case SleepChan => 6
    case SleepRelease => 7
    case SleepBegin => 8
    case Test(i) => 9 + 2 * (n - i)
    case Scan(i, _) => 10 + 2 * (n - i)
    case WaitBegin => 11 + 2 * n
    case Reacquire => 11 + 2 * n
    case Resumed => 12 + 2 * n
    case ExitSched => 1
    case ExitRelease => 2
    case ExitZombie => 3
    case ExitLock => 4
    case ParentWakeOne(k) => 4 + 2 * (n - k)
    case ParentWake(k) => 5 + 2 * (n - k)
    case Reparent(i) => 6 + 2 * n + Rounds(n - i, n)
    case InitWake(i, k) => 7 + 2 * n + Rounds(n - i - 1, n) + 2 * (n - k)
    case InitWakeOne(i, k) => 6 + 2 * n + Rounds(n - i - 1, n) + 2 * (n - k)
    case ExitBegin => 7 + 2 * n + Rounds(n, n)
    case ForkFail(_) => 1
    case ForkEnd(_) => 1
    case ForkRun(_) => 2
    case ForkLock(_) => 3
    case ForkRelease(_) => 4
    case ForkParent(_) => 5
    case ForkWait(_) => 6
    case ForkUnlock(_) => 7
    case ForkAlloc(_) => 8
    case ForkBegin(_) => 9
    case KillOne(_) => 1
    case Kill(_) => 2
  }

  function Rounds(i: int, n: nat): int { i * (2 * n + 3) }

  lemma OneRound(i: int, n: nat)
    requires i >= 1
    ensures Rounds(i, n) == Rounds(i - 1, n) + 2 * n + 3
  {
  }

  lemma RoundsAtLeast(i: nat, n: nat)
    ensures Rounds(i, n) >= 0 && (i == 0 ==> Rounds(i, n) == 0)
  {
  }

  /** Each step of a process within a call brings it closer to the call's end, or to sleep in wait. */
  lemma CallsEnd(s: System, p: nat, c: Call)
    requires Reached(s) && Shaped(s) && p < |s.pc| && Enabled(s, p, c) && !s.pc[p].Idle? && !s.pc[p].Asleep?
    ensures Shaped(Step(s, p, c)) && |Step(s, p, c).pc| == |s.pc|
    ensures 0 <= Left(Step(s, p, c).pc[p], |s.pc|) < Left(s.pc[p], |s.pc|)
    ensures Left(Step(s, p, c).pc[p], |s.pc|) == 0 ==> Step(s, p, c).pc[p].Idle? || Step(s, p, c).pc[p].Dead?
  {
    ReachedInv(s);
    StepShapes(s, p, c);
    assert InRange(|s.pc|, s.pc[p]);
    hide Inv;
    LeftLess(s, p, c);
  }

  lemma LeftLess(s: System, p: nat, c: Call)
    requires Shaped(s) && p < |s.pc| && Enabled(s, p, c) && !s.pc[p].Idle? && !s.pc[p].Asleep? && InRange(|s.pc|, s.pc[p])
    ensures 0 <= Left(NextPc(s, p, c), |s.pc|) < Left(s.pc[p], |s.pc|)
    ensures Left(NextPc(s, p, c), |s.pc|) == 0 ==> NextPc(s, p, c).Idle? || NextPc(s, p, c).Dead?
  {
    hide Left;
    hide NextPc;
    hide Shaped;
    hide Enabled;
    if Reparenting(s.pc[p]) {
      ReparentLess(s, p, c);
    } else {
      OthersLess(s, p, c);
    }
  }

  predicate Reparenting(pc: PC) { pc.ExitBegin? || pc.Reparent? || pc.InitWake? || pc.InitWakeOne? }

  lemma ReparentLess(s: System, p: nat, c: Call)
    requires Shaped(s) && p < |s.pc| && Enabled(s, p, c) && InRange(|s.pc|, s.pc[p]) && Reparenting(s.pc[p])
    ensures 0 < Left(NextPc(s, p, c), |s.pc|) < Left(s.pc[p], |s.pc|)
  {
    hide Rounds;
    var n, pc := |s.pc|, s.pc[p];
    RoundsAtLeast(n, n);
    if !pc.ExitBegin? {
      if pc.Reparent? && pc.i == n {
        assert Rounds(0, n) == 0 by { RoundsAtLeast(0, n); }
      } else {
        RoundsAtLeast(n - pc.i - 1, n);
        OneRound(n - pc.i, n);
      }
    }
    hide Shaped;
  }

  lemma OthersLess(s: System, p: nat, c: Call)
    requires Shaped(s) && p < |s.pc| && Enabled(s, p, c) && InRange(|s.pc|, s.pc[p])
    requires !Reparenting(s.pc[p]) && !s.pc[p].Idle? && !s.pc[p].Asleep?
    ensures 0 <= Left(NextPc(s, p, c), |s.pc|) < Left(s.pc[p], |s.pc|)
    ensures Left(NextPc(s, p, c), |s.pc|) == 0 ==> NextPc(s, p, c).Idle? || NextPc(s, p, c).Dead?
  {
    hide Rounds;
    hide Shaped;
  }

  /** As long as a process is within a call and not asleep in wait, some process within a call can go on. */
  lemma NoDeadlock(s: System, p: nat, c: Call) returns (q: nat)
    requires Reached(s) && Shaped(s) && p < |s.pc| && !s.pc[p].Idle? && !s.pc[p].Dead? && !(s.pc[p].Asleep? && s.state[p].Sleeping?)
    ensures q < |s.pc| && Enabled(s, q, c) && !s.pc[q].Idle? && !s.pc[q].Dead?
  {
    ReachedInv(s);
    hide Reached;
    assert Fits(s, p);
    hide Inv;
    q := p;
    if !Enabled(s, p, c) {
      if s.wlock.Some? {
        assert WlockIn(s);
        HolderInCall(s, s.wlock.value);
        q := WaitLockHolderRuns(s, s.wlock.value, c);
        HolderInCall(s, q);
      } else {
        var k := Stuck(s, p, c);
        assert LocksIn(s, k);
        q := s.plock[k].value;
        SlotHolderRuns(s, q, k, c);
        HolderInCall(s, q);
      }
    }
  }

  lemma HolderInCall(s: System, q: nat)
    requires Inv(s) && q < |s.pc| && (s.wlock == Some(q) || exists k :: 0 <= k < |s.pc| && s.plock[k] == Some(q))
    ensures !s.pc[q].Idle? && !s.pc[q].Dead?
  {
    hide StatesOk;
    hide ForksOk;
    hide ScansOk;
    hide ExitsOk;
    hide WaitersOk;
    hide CountsOk;
    assert s.wlock == Some(q) <==> HoldsWlock(s.pc[q]);
    if s.wlock != Some(q) {
      var k :| 0 <= k < |s.pc| && s.plock[k] == Some(q);
      assert s.plock[k] == Some(q) <==> HoldsPlock(s.pc[q], q, k);
    }
  }

  /** Who is kept waiting while wait_lock is free waits for a slot's lock. */
  lemma Stuck(s: System, p: nat, c: Call) returns (k: nat)
    requires Shaped(s) && p < |s.pc| && InRange(|s.pc|, s.pc[p]) && !Enabled(s, p, c) && s.wlock.None?
    requires !s.pc[p].Idle? && !s.pc[p].Dead? && (s.pc[p].Asleep? ==> s.state[p].Runnable?)
    ensures k < |s.pc| && s.plock[k].Some?
  {
    var pc := s.pc[p];
    k := if pc.Scan? then pc.i else if pc.InitWake? || pc.ParentWake? || pc.Kill? then pc.k
         else if pc.ForkBegin? || pc.ForkLock? then pc.n else p;
  }
}
