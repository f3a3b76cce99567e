/** What acquiresleep and releasesleep come to, and that they do come to an end. */
module SleepResults {
  import opened Basics
  import opened SleepLocks

  /** Within acquiresleep, and within releasesleep, of lock l. */
  predicate InAcquire(pc: PC, l: nat) {
    && (pc.Acquire? || pc.Test? || pc.Got? || pc.SleepBegin? || pc.SleepRelease? || pc.SleepChan? || pc.SleepState? || pc.Sched?
        || pc.Asleep? || pc.Resumed? || pc.Reacquire?)
    && pc.l == l
  }

  predicate InRelease(pc: PC, l: nat) { (pc.Release? || pc.Clear? || pc.Wakeup? || pc.WakeOne?) && pc.l == l }

  /** While releasesleep wakes the waiters, nobody can lock the lock it has cleared. */
  predicate Cleared(s: System, p: nat)
    requires Shaped(s) && p < |s.procs|
  {
    var pc := s.procs[p].pc;
    InRange(s, pc) && (pc.Wakeup? || pc.WakeOne? ==> s.owner[pc.l].None?)
  }

  /** Spin locks are held by processes. */
  ghost predicate LocksIn(s: System)
    requires Shaped(s)
  {
    && (forall k :: 0 <= k < |s.procs| && s.plock[k].Some? ==> s.plock[k].value < |s.procs|)
    && (forall l :: 0 <= l < |s.inner| && s.inner[l].Some? ==> s.inner[l].value < |s.procs|)
  }

  ghost predicate SleepInv(s: System) {
    Inv(s) && LocksIn(s) && forall p :: 0 <= p < |s.procs| ==> Cleared(s, p)
  }

  lemma ClearedStep(s: System, p: nat, c: Call, q: nat)
    requires Inv(s) && p < |s.procs| && Enabled(s, p, c) && q < |s.procs| && Cleared(s, q)
    ensures var t := Step(s, p, c); Shaped(t) && |t.procs| == |s.procs| && Cleared(t, q)
  {
    hide PlocksOk;
    hide OwnersOk;
    hide SleepersOk;
    hide WaitersOk;
    hide NextPlock;
    hide NextInner;
    StepShaped(s, p, c);
    assert InRange(s, s.procs[p].pc) && InRange(s, s.procs[q].pc);
    if q != p {
      OtherProc(s, p, c, q);
      var pc := s.procs[q].pc;
      if pc.Wakeup? || pc.WakeOne? {
        assert s.inner[pc.l] == Some(q) <==> InCritical(pc, pc.l);
        assert s.inner[pc.l] == Some(p) <==> InCritical(s.procs[p].pc, pc.l);
      }
      hide NextProc;
    }
    hide SpinLocksOk;
  }

  lemma LocksInStep(s: System, p: nat, c: Call)
    requires Inv(s) && p < |s.procs| && Enabled(s, p, c) && LocksIn(s)
    ensures Shaped(Step(s, p, c)) && LocksIn(Step(s, p, c))
  {
    StepShaped(s, p, c);
    assert InRange(s, s.procs[p].pc);
    hide Inv;
    hide NextProc;
    hide NextOthers;
    hide NextOwner;
    hide Enabled;
  }

  lemma StepKeepsSleepInv(s: System, p: nat, c: Call)
    requires SleepInv(s) && p < |s.procs| && Enabled(s, p, c)
    ensures SleepInv(Step(s, p, c))
  {
    hide Inv;
    hide Step;
    hide Cleared;
    hide Enabled;
    StepKeepsInv(s, p, c);
    LocksInStep(s, p, c);
    assert Shaped(s) by { InvShaped(s); }
    StepShaped(s, p, c);
    forall q: nat | q < |s.procs| ensures Cleared(Step(s, p, c), q) {
      ClearedStep(s, p, c, q);
    }
  }

  lemma InvShaped(s: System)
    requires Inv(s)
    ensures Shaped(s)
  {
  }

  lemma {:induction false} RunKeepsSleepInv(s: System, run: seq<Move>)
    requires SleepInv(s) && CanRun(s, run)
    ensures SleepInv(Run(s, run))
    decreases |run|
  {
    if run != [] {
      StepKeepsSleepInv(s, run[0].p, run[0].c);
      RunKeepsSleepInv(Step(s, run[0].p, run[0].c), run[1..]);
    }
  }

  /** s comes about from the start, however the processes take turns. */
  ghost predicate Reached(s: System) {
    exists procs: nat, locks: nat, run: seq<Move> :: CanRun(Start(procs, locks), run) && s == Run(Start(procs, locks), run)
  }

  lemma ReachedInv(s: System)
    requires Reached(s)
    ensures SleepInv(s)
  {
    hide Inv;
    var procs: nat, locks: nat, run: seq<Move> :| CanRun(Start(procs, locks), run) && s == Run(Start(procs, locks), run);
    StartInv(procs, locks);
    RunKeepsSleepInv(Start(procs, locks), run);
  }

  // ----- what the calls come to

  /** acquiresleep comes to its end just with the lock. */
  lemma AcquireHolds(s: System, p: nat, c: Call, l: nat)
    requires Reached(s) && Shaped(s) && p < |s.procs| && Enabled(s, p, c) && l < |s.inner| && InAcquire(s.procs[p].pc, l)
    ensures var t := Step(s, p, c);
            && |t.procs| == |s.procs| && |t.owner| == |s.inner|
            && (InAcquire(t.procs[p].pc, l) || (t.procs[p].pc.Idle? && l in t.procs[p].holds && t.owner[l] == Some(p)))
  {
    ReachedInv(s);
    hide Reached;
    OwnProc(s, p, c);
    assert s.owner[l] == Some(p) <==> Owns(s.procs[p], l);
    hide Inv;
    hide NextOthers;
    hide NextPlock;
    hide NextInner;
  }

  /** It locks a lock just when that is free, and sleeps just when it is not. */
  lemma TestDecides(s: System, p: nat, c: Call, l: nat)
    requires Reached(s) && Shaped(s) && p < |s.procs| && Enabled(s, p, c) && l < |s.inner| && s.procs[p].pc == Test(l)
    ensures var t := Step(s, p, c);
            && |t.procs| == |s.procs| && |t.owner| == |s.inner|
            && if s.owner[l].None? then t.procs[p].pc == Got(l) && t.owner == s.owner[l := Some(p)]
               else t.procs[p].pc == SleepBegin(l) && t.owner == s.owner
  {
    OwnProc(s, p, c);
    hide NextOthers;
    hide NextPlock;
    hide NextInner;
  }

  /** releasesleep comes to its end with the lock free, and a process that sleeps on it no more. */
  lemma ReleaseFrees(s: System, p: nat, c: Call, l: nat)
    requires Reached(s) && Shaped(s) && p < |s.procs| && Enabled(s, p, c) && l < |s.inner| && InRelease(s.procs[p].pc, l)
    ensures var t := Step(s, p, c);
            && |t.procs| == |s.procs| && |t.owner| == |t.inner| == |s.inner|
            && (InRelease(t.procs[p].pc, l)
                || (t.procs[p].pc.Idle? && l !in t.procs[p].holds && t.owner[l].None? && t.inner[l].None?
                    && forall q :: 0 <= q < |t.procs| ==> !Waiting(t.procs[q], l)))
  {
    ReachedInv(s);
    hide Reached;
    var t := Step(s, p, c);
    OwnProc(s, p, c);
    assert Cleared(s, p);
    StepKeepsInv(s, p, c);
    if t.procs[p].pc.Idle? {
      hide NextProc;
      ReleaseEnds(s, p, c, l);
      assert t.owner[l] == Some(p) <==> Owns(t.procs[p], l);
      forall q | 0 <= q < |t.procs| ensures !Waiting(t.procs[q], l) {
        NoneWaits(t, q, l);
      }
    } else {
      hide Inv;
      hide NextOthers;
      hide NextPlock;
      hide NextInner;
      hide NextOwner;
    }
  }

  lemma ReleaseEnds(s: System, p: nat, c: Call, l: nat)
    requires Shaped(s) && p < |s.procs| && Enabled(s, p, c) && l < |s.inner| && InRelease(s.procs[p].pc, l) && Cleared(s, p)
    requires NextProc(s, p, c).pc.Idle?
    ensures |NextOwner(s, p)| == |NextInner(s, p)| == |s.inner| && NextOwner(s, p)[l].None? && NextInner(s, p)[l].None?
  {
  }

  // ----- progress

  /** The steps that a process still has to take before its call ends or it sleeps. */
  function Left(pc: PC, n: nat): int {
    match pc
    case Idle => 0
    case Got(_) => 1
    case Asleep(_) => 2
    case Sched(_) => 3
    case SleepState(_) => 4
    case SleepChan(_) => 5
    case SleepRelease(_) => 6
    case SleepBegin(_) => 7
    case Test(_) => 8
    case Acquire(_) => 9
    case Reacquire(_) => 9
    case Resumed(_) => 10
    case WakeOne(_, k) => 2 * (n - k)
    case Wakeup(_, k) => 1 + 2 * (n - k)
    case Clear(_) => 2 + 2 * n
    case Release(_) => 3 + 2 * n
    case KillOne(_) => 1
    case Kill(_) => 2
  }

  /** Each step of a process within a call brings it closer to the call's end, or to sleep. */
  lemma CallsEnd(s: System, p: nat, c: Call)
    requires Reached(s) && Shaped(s) && p < |s.procs| && Enabled(s, p, c) && !s.procs[p].pc.Idle? && !s.procs[p].pc.Asleep?
    ensures |Step(s, p, c).procs| == |s.procs|
    ensures var pc := Step(s, p, c).procs[p].pc;
            0 <= Left(pc, |s.procs|) < Left(s.procs[p].pc, |s.procs|) && (Left(pc, |s.procs|) == 0 ==> pc.Idle?)
  {
    hide NextProc;
    hide Left;
    hide Enabled;
    OwnProc(s, p, c);
    assert InRange(s, s.procs[p].pc);
    LeftLess(s, p, c);
    hide NextOthers;
    hide NextPlock;
    hide NextInner;
    hide NextOwner;
  }

  lemma LeftLess(s: System, p: nat, c: Call)
    requires Shaped(s) && p < |s.procs| && Enabled(s, p, c) && !s.procs[p].pc.Idle? && !s.procs[p].pc.Asleep?
    requires InRange(s, s.procs[p].pc)
    ensures var pc := NextProc(s, p, c).pc;
            0 <= Left(pc, |s.procs|) < Left(s.procs[p].pc, |s.procs|) && (Left(pc, |s.procs|) == 0 ==> pc.Idle?)
  {
    hide Shaped;
  }

  /** Whoever holds the lock of a process is never kept waiting. */
  lemma PlockHolderRuns(s: System, q: nat, k: nat, c: Call)
    requires Reached(s) && Shaped(s) && q < |s.procs| && k < |s.procs| && s.plock[k] == Some(q)
    ensures Enabled(s, q, c) && !s.procs[q].pc.Idle?
  {
    ReachedInv(s);
    hide Reached;
    assert s.plock[k] == Some(q) <==> HoldsPlock(s.procs[q].pc, q, k);
    hide Inv;
  }

  /** Whoever is kept waiting by no sleep lock waits for a spin lock, or for the lock of a process. */
  lemma Blocked(s: System, p: nat, c: Call) returns (l: Option<nat>, k: Option<nat>)
    requires Shaped(s) && p < |s.procs| && InRange(s, s.procs[p].pc) && !s.procs[p].pc.Idle? && !Enabled(s, p, c)
    requires !(s.procs[p].pc.Asleep? && s.procs[p].sleeping)
    ensures l.Some? || k.Some?
    ensures l.Some? ==> l.value < |s.inner| && s.inner[l.value].Some? && (s.procs[p].pc.Acquire? || s.procs[p].pc.Reacquire? || s.procs[p].pc.Release?)
    ensures k.Some? ==> k.value < |s.procs| && s.plock[k.value].Some?
  {
    var pc := s.procs[p].pc;
    l := if pc.Acquire? || pc.Reacquire? || pc.Release? then Some(pc.l) else None;
    k := if l.Some? then None else if pc.Wakeup? || pc.Kill? then Some(pc.k) else Some(p);
  }

  /** As long as a process is within a call and not asleep on a lock, some process within a call can go on. */
  lemma NoDeadlock(s: System, p: nat, c: Call) returns (q: nat)
    requires Reached(s) && Shaped(s) && p < |s.procs| && !s.procs[p].pc.Idle? && !(s.procs[p].pc.Asleep? && s.procs[p].sleeping)
    ensures q < |s.procs| && Enabled(s, q, c) && !s.procs[q].pc.Idle?
  {
    hide Enabled;
    ReachedInv(s);
    hide Inv;
    assert InRange(s, s.procs[p].pc);
    q := p;
    if !Enabled(s, p, c) {
      var l, k := Blocked(s, p, c);
      if k.Some? {
        q := s.plock[k.value].value;
        PlockHolderRuns(s, q, k.value, c);
      } else {
        q := s.inner[l.value].value;
        InnerHolder(s, q, l.value);
        if !Enabled(s, q, c) {
          var m, j := Blocked(s, q, c);
          q := s.plock[j.value].value;
          PlockHolderRuns(s, q, j.value, c);
        }
      }
    }
  }

  lemma InnerHolder(s: System, q: nat, l: nat)
    requires Inv(s) && q < |s.procs| && l < |s.inner| && s.inner[l] == Some(q)
    ensures var pc := s.procs[q].pc; !pc.Idle? && !pc.Asleep? && !pc.Acquire? && !pc.Reacquire? && !pc.Release? && InRange(s, pc)
  {
    hide PlocksOk;
    hide OwnersOk;
    hide SleepersOk;
    hide WaitersOk;
    assert s.inner[l] == Some(q) <==> InCritical(s.procs[q].pc, l);
  }
}
