/** Sleep locks over sleep and wakeup: every process takes one small step at a time, in any order. */
module SleepLocks {
  import opened Basics

  /** Where a process is, and in which sleep lock l or process k. */
  datatype PC =
    | Idle
    | Acquire(l: nat)              // acquiresleep: take the inner spin lock
    | Test(l: nat)                 // the while condition
    | Got(l: nat)                  // locked is set; release the inner lock
    | SleepBegin(l: nat)           // sleep: take p->lock
    | SleepRelease(l: nat)         // release the inner lock
    | SleepChan(l: nat)            // p->chan = lk
    | SleepState(l: nat)           // p->state = SLEEPING
    | Sched(l: nat)                // switch to the scheduler, which releases p->lock
    | Asleep(l: nat)               // until RUNNABLE and scheduled with p->lock
    | Resumed(l: nat)              // p->chan = 0; release p->lock
    | Reacquire(l: nat)            // take the inner lock again
    | Release(l: nat)              // releasesleep: take the inner lock
    | Clear(l: nat)                // locked = 0
    | Wakeup(l: nat, k: nat)       // the loop of wakeup: take the lock of process k
    | WakeOne(l: nat, k: nat)      // test process k, release its lock
    | Kill(k: nat)                 // kill: take the lock of process k
    | KillOne(k: nat)              // wake process k if it sleeps, release its lock

  /** holds are the sleep locks that acquiresleep returned with. */
  datatype Proc = Proc(pc: PC, sleeping: bool, chan: Option<nat>, holds: set<nat>)

  /**
   * plock are the holders of the processes' own locks; of sleep lock l, inner[l] is the holder of
   * its spin lock and owner[l] the process that locked it.
   */
  datatype System = System(procs: seq<Proc>, plock: seq<Option<nat>>, inner: seq<Option<nat>>, owner: seq<Option<nat>>)

  datatype Call = DoAcquire(l: nat) | DoRelease(l: nat) | DoKill(k: nat) | Continue

  ghost predicate Shaped(s: System) {
    && |s.plock| == |s.procs| && |s.owner| == |s.inner|
    && forall p :: 0 <= p < |s.procs| ==> InRange(s, s.procs[p].pc)
  }

  predicate InRange(s: System, pc: PC) {
    match pc
    case Idle => true
    case Wakeup(l, k) => l < |s.inner| && k <= |s.procs|
    case WakeOne(l, k) => l < |s.inner| && k < |s.procs|
    case Kill(k) => k < |s.procs|
    case KillOne(k) => k < |s.procs|
    case _ => pc.l < |s.inner|
  }

  // ----- steps

  /** What process p may do next: a spin lock is taken only when free, and a sleeper does not run. */
  predicate Enabled(s: System, p: nat, c: Call)
    requires Shaped(s) && p < |s.procs|
  {
    match s.procs[p].pc
    case Idle =>
      (match c
       case DoAcquire(l) => l < |s.inner|
       case DoRelease(l) => l < |s.inner| && l in s.procs[p].holds
       case DoKill(k) => k < |s.procs|
       case Continue => false)
    case Acquire(l) => s.inner[l].None?
    case Reacquire(l) => s.inner[l].None?
    case Release(l) => s.inner[l].None?
    case SleepBegin(l) => s.plock[p].None?
    case Asleep(l) => !s.procs[p].sleeping && s.plock[p].None?
    case Wakeup(l, k) => k == |s.procs| || k == p || s.plock[k].None?
    case Kill(k) => s.plock[k].None?
    case _ => true
  }

  /** Process p after its step. */
  function NextProc(s: System, p: nat, c: Call): Proc
    requires Shaped(s) && p < |s.procs| && Enabled(s, p, c)
  {
    var me := s.procs[p];
    match me.pc
    case Idle =>
      (match c
       case DoAcquire(l) => me.(pc := Acquire(l))
       case DoRelease(l) => me.(pc := Release(l), holds := me.holds - {l})
       case DoKill(k) => me.(pc := Kill(k)))
    case Acquire(l) => me.(pc := Test(l))
    case Test(l) => if s.owner[l].Some? then me.(pc := SleepBegin(l)) else me.(pc := Got(l))
    case Got(l) => me.(pc := Idle, holds := me.holds + {l})
    case SleepBegin(l) => me.(pc := SleepRelease(l))
    case SleepRelease(l) => me.(pc := SleepChan(l))
    case SleepChan(l) => me.(pc := SleepState(l), chan := Some(l))
    case SleepState(l) => me.(pc := Sched(l), sleeping := true)
    case Sched(l) => me.(pc := Asleep(l))
    case Asleep(l) => me.(pc := Resumed(l))
    case Resumed(l) => me.(pc := Reacquire(l), chan := None)
    case Reacquire(l) => me.(pc := Test(l))
    case Release(l) => me.(pc := Clear(l))
    case Clear(l) => me.(pc := Wakeup(l, 0))
    case Wakeup(l, k) => me.(pc := if k == |s.procs| then Idle else if k == p then Wakeup(l, k + 1) else WakeOne(l, k))
    case WakeOne(l, k) => me.(pc := Wakeup(l, k + 1))
    case Kill(k) => me.(pc := KillOne(k))
    case KillOne(k) => me.(pc := Idle)
  }

  /** The processes as process p's step leaves the others: wakeup and kill make one runnable. */
  function NextOthers(s: System, p: nat): seq<Proc>
    requires Shaped(s) && p < |s.procs|
  {
    match s.procs[p].pc
    case WakeOne(l, k) =>
      if s.procs[k].sleeping && s.procs[k].chan == Some(l) then s.procs[k := s.procs[k].(sleeping := false)] else s.procs
    case KillOne(k) => s.procs[k := s.procs[k].(sleeping := false)]
    case _ => s.procs
  }

  function NextPlock(s: System, p: nat): seq<Option<nat>>
    requires Shaped(s) && p < |s.procs|
  {
    match s.procs[p].pc
    case SleepBegin(_) => s.plock[p := Some(p)]
    case Asleep(_) => s.plock[p := Some(p)]
    case Sched(_) => s.plock[p := None]
    case Resumed(_) => s.plock[p := None]
    case Wakeup(_, k) => if k == |s.procs| || k == p then s.plock else s.plock[k := Some(p)]
    case WakeOne(_, k) => s.plock[k := None]
    case Kill(k) => s.plock[k := Some(p)]
    case KillOne(k) => s.plock[k := None]
    case _ => s.plock
  }

  function NextInner(s: System, p: nat): seq<Option<nat>>
    requires Shaped(s) && p < |s.procs|
  {
    match s.procs[p].pc
    case Acquire(l) => s.inner[l := Some(p)]
    case Reacquire(l) => s.inner[l := Some(p)]
    case Release(l) => s.inner[l := Some(p)]
    case Got(l) => s.inner[l := None]
    case SleepRelease(l) => s.inner[l := None]
    case Wakeup(l, k) => if k == |s.procs| then s.inner[l := None] else s.inner
    case _ => s.inner
  }

  function NextOwner(s: System, p: nat): seq<Option<nat>>
    requires Shaped(s) && p < |s.procs|
  {
    match s.procs[p].pc
    case Test(l) => if s.owner[l].None? then s.owner[l := Some(p)] else s.owner
    case Clear(l) => s.owner[l := None]
    case _ => s.owner
  }

  function Step(s: System, p: nat, c: Call): System
    requires Shaped(s) && p < |s.procs| && Enabled(s, p, c)
  {
    System(NextOthers(s, p)[p := NextProc(s, p, c)], NextPlock(s, p), NextInner(s, p), NextOwner(s, p))
  }

  // ----- the invariant

  /** A process here holds the inner lock of l. */
  predicate InCritical(pc: PC, l: nat) {
    && (pc.Test? || pc.Got? || pc.SleepBegin? || pc.SleepRelease? || pc.Clear? || pc.Wakeup? || pc.WakeOne?)
    && pc.l == l
  }

  /** Process p holds the lock of process k here. */
  predicate HoldsPlock(pc: PC, p: nat, k: nat) {
    || ((pc.SleepRelease? || pc.SleepChan? || pc.SleepState? || pc.Sched? || pc.Resumed?) && k == p)
    || ((pc.WakeOne? || pc.KillOne?) && pc.k == k)
  }

  /** Process p owns l: it returned from acquiresleep, or is about to, or called releasesleep. */
  predicate Owns(m: Proc, l: nat) {
    l in m.holds || ((m.pc.Got? || m.pc.Release? || m.pc.Clear?) && m.pc.l == l)
  }

  /** Process m sleeps on l, or has let go of the inner lock in order to. */
  predicate Waiting(m: Proc, l: nat) {
    || ((m.pc.SleepChan? || m.pc.SleepState? || m.pc.Sched?) && m.pc.l == l && (m.pc.Sched? ==> m.sleeping))
    || (m.pc.Asleep? && m.pc.l == l && m.sleeping)
  }

  /** The holder of the inner lock is in wakeup and has yet to come to process p. */
  predicate WillWake(s: System, l: nat, p: nat)
    requires l < |s.inner|
  {
    var q := s.inner[l];
    && q.Some? && q.value < |s.procs|
    && var pc := s.procs[q.value].pc;
       (pc.Wakeup? || pc.WakeOne?) && pc.l == l && pc.k <= p
  }

  ghost predicate SpinLocksOk(s: System)
    requires Shaped(s)
  {
    forall l, p :: 0 <= l < |s.inner| && 0 <= p < |s.procs| ==>
      (s.inner[l] == Some(p) <==> InCritical(s.procs[p].pc, l))
  }

  ghost predicate PlocksOk(s: System)
    requires Shaped(s)
  {
    forall k, p :: 0 <= k < |s.procs| && 0 <= p < |s.procs| ==>
      (s.plock[k] == Some(p) <==> HoldsPlock(s.procs[p].pc, p, k))
  }

  ghost predicate OwnersOk(s: System)
    requires Shaped(s)
  {
    && (forall l, p :: 0 <= l < |s.inner| && 0 <= p < |s.procs| ==>
          (s.owner[l] == Some(p) <==> Owns(s.procs[p], l)))
    && (forall p :: 0 <= p < |s.procs| ==>
          var m := s.procs[p];
          ((m.pc.Got? || m.pc.Release? || m.pc.Clear?) ==> m.pc.l !in m.holds)
          && ((m.pc.SleepBegin? || m.pc.SleepRelease?) ==> s.owner[m.pc.l].Some?))
  }

  ghost predicate SleepersOk(s: System)
    requires Shaped(s)
  {
    forall p :: 0 <= p < |s.procs| ==>
      var m := s.procs[p];
      && (m.sleeping ==> (m.pc.Sched? || m.pc.Asleep?) && m.chan == Some(m.pc.l))
      && (m.pc.SleepState? ==> m.chan == Some(m.pc.l))
  }

  /** Whoever waits for a lock that is not locked is about to be woken. */
  ghost predicate WaitersOk(s: System)
    requires Shaped(s)
  {
    forall l, p :: 0 <= l < |s.inner| && 0 <= p < |s.procs| && Waiting(s.procs[p], l) ==>
      s.owner[l].Some? || WillWake(s, l, p)
  }

  ghost predicate Inv(s: System) {
    Shaped(s) && SpinLocksOk(s) && PlocksOk(s) && OwnersOk(s) && SleepersOk(s) && WaitersOk(s)
  }

  lemma StepShaped(s: System, p: nat, c: Call)
    requires Shaped(s) && p < |s.procs| && Enabled(s, p, c)
    ensures var t := Step(s, p, c); Shaped(t) && |t.procs| == |s.procs| && |t.inner| == |s.inner|
  {
  }

  /** A step leaves the other processes where they are, with the locks they hold. */
  lemma OtherProc(s: System, p: nat, c: Call, q: nat)
    requires Shaped(s) && p < |s.procs| && Enabled(s, p, c) && q < |s.procs| && q != p
    ensures var t := Step(s, p, c);
            |t.procs| == |s.procs| && t.procs[q].pc == s.procs[q].pc && t.procs[q].holds == s.procs[q].holds
  {
    hide NextProc;
    hide NextPlock;
    hide NextInner;
    hide NextOwner;
    assert InRange(s, s.procs[p].pc);
  }

  lemma OwnProc(s: System, p: nat, c: Call)
    requires Shaped(s) && p < |s.procs| && Enabled(s, p, c)
    ensures |Step(s, p, c).procs| == |s.procs| && Step(s, p, c).procs[p] == NextProc(s, p, c)
  {
    hide NextProc;
    hide NextPlock;
    hide NextInner;
    hide NextOwner;
    assert InRange(s, s.procs[p].pc);
  }

  lemma SpinLockOwn(s: System, p: nat, c: Call, l: nat)
    requires Shaped(s) && SpinLocksOk(s) && p < |s.procs| && Enabled(s, p, c) && l < |s.inner|
    ensures |NextInner(s, p)| == |s.inner| && (NextInner(s, p)[l] == Some(p) <==> InCritical(NextProc(s, p, c).pc, l))
  {
    assert InRange(s, s.procs[p].pc);
    assert s.inner[l] == Some(p) <==> InCritical(s.procs[p].pc, l);
  }

  lemma SpinLockOther(s: System, p: nat, c: Call, l: nat, q: nat)
    requires Shaped(s) && SpinLocksOk(s) && p < |s.procs| && Enabled(s, p, c) && l < |s.inner| && q < |s.procs| && q != p
    ensures |NextInner(s, p)| == |s.inner| && (NextInner(s, p)[l] == Some(q) <==> InCritical(s.procs[q].pc, l))
  {
    assert InRange(s, s.procs[p].pc);
    assert s.inner[l] == Some(q) <==> InCritical(s.procs[q].pc, l);
    assert s.inner[l] == Some(p) <==> InCritical(s.procs[p].pc, l);
  }

  lemma StepSpinLock(s: System, p: nat, c: Call, l: nat, q: nat)
    requires Shaped(s) && SpinLocksOk(s) && p < |s.procs| && Enabled(s, p, c) && l < |s.inner| && q < |s.procs|
    ensures var t := Step(s, p, c);
            && |t.inner| == |s.inner| && |t.procs| == |s.procs|
            && (t.inner[l] == Some(q) <==> InCritical(t.procs[q].pc, l))
  {
    hide NextProc;
    hide NextOthers;
    hide NextPlock;
    hide NextInner;
    hide NextOwner;
    hide InCritical;
    hide SpinLocksOk;
    hide Enabled;
    if q == p {
      OwnProc(s, p, c);
      SpinLockOwn(s, p, c, l);
    } else {
      OtherProc(s, p, c, q);
      SpinLockOther(s, p, c, l, q);
    }
  }

  lemma StepSpinLocks(s: System, p: nat, c: Call)
    requires Inv(s) && p < |s.procs| && Enabled(s, p, c)
    ensures Shaped(Step(s, p, c)) && SpinLocksOk(Step(s, p, c))
  {
    hide PlocksOk;
    hide OwnersOk;
    hide SleepersOk;
    hide WaitersOk;
    hide InCritical;
    hide NextProc;
    hide NextOthers;
    hide NextPlock;
    hide NextInner;
    hide NextOwner;
    StepShaped(s, p, c);
    var t := Step(s, p, c);
    forall l: nat, q: nat | l < |t.inner| && q < |t.procs| ensures t.inner[l] == Some(q) <==> InCritical(t.procs[q].pc, l) {
      StepSpinLock(s, p, c, l, q);
    }
  }

  lemma PlockOwn(s: System, p: nat, c: Call, k: nat)
    requires Shaped(s) && PlocksOk(s) && p < |s.procs| && Enabled(s, p, c) && k < |s.procs|
    ensures |NextPlock(s, p)| == |s.procs| && (NextPlock(s, p)[k] == Some(p) <==> HoldsPlock(NextProc(s, p, c).pc, p, k))
  {
    assert InRange(s, s.procs[p].pc);
    assert s.plock[k] == Some(p) <==> HoldsPlock(s.procs[p].pc, p, k);
  }

  lemma PlockOther(s: System, p: nat, c: Call, k: nat, q: nat)
    requires Shaped(s) && PlocksOk(s) && p < |s.procs| && Enabled(s, p, c) && k < |s.procs| && q < |s.procs| && q != p
    ensures |NextPlock(s, p)| == |s.procs| && (NextPlock(s, p)[k] == Some(q) <==> HoldsPlock(s.procs[q].pc, q, k))
  {
    assert InRange(s, s.procs[p].pc);
    assert s.plock[k] == Some(q) <==> HoldsPlock(s.procs[q].pc, q, k);
    assert s.plock[k] == Some(p) <==> HoldsPlock(s.procs[p].pc, p, k);
  }

  lemma StepPlock(s: System, p: nat, c: Call, k: nat, q: nat)
    requires Shaped(s) && PlocksOk(s) && p < |s.procs| && Enabled(s, p, c) && k < |s.procs| && q < |s.procs|
    ensures var t := Step(s, p, c);
            && |t.plock| == |t.procs| == |s.procs|
            && (t.plock[k] == Some(q) <==> HoldsPlock(t.procs[q].pc, q, k))
  {
    hide NextProc;
    hide NextOthers;
    hide NextPlock;
    hide NextInner;
    hide NextOwner;
    hide HoldsPlock;
    hide PlocksOk;
    hide Enabled;
    if q == p {
      OwnProc(s, p, c);
      PlockOwn(s, p, c, k);
    } else {
      OtherProc(s, p, c, q);
      PlockOther(s, p, c, k, q);
    }
  }

  lemma StepPlocks(s: System, p: nat, c: Call)
    requires Inv(s) && p < |s.procs| && Enabled(s, p, c)
    ensures Shaped(Step(s, p, c)) && PlocksOk(Step(s, p, c))
  {
    hide NextProc;
    hide NextOthers;
    hide NextPlock;
    hide NextInner;
    hide NextOwner;
    hide SpinLocksOk;
    hide OwnersOk;
    hide SleepersOk;
    hide WaitersOk;
    hide HoldsPlock;
    StepShaped(s, p, c);
    var t := Step(s, p, c);
    forall k: nat, q: nat | k < |t.procs| && q < |t.procs|
      ensures t.plock[k] == Some(q) <==> HoldsPlock(t.procs[q].pc, q, k)
    {
      StepPlock(s, p, c, k, q);
    }
  }

  /** What the locks that a process owns and its place in the code have to do with each other. */
  predicate OwnerFits(owner: Option<nat>, m: Proc, q: nat, l: nat) {
    && (owner == Some(q) <==> Owns(m, l))
    && ((m.pc.Got? || m.pc.Release? || m.pc.Clear?) ==> m.pc.l !in m.holds)
    && ((m.pc.SleepBegin? || m.pc.SleepRelease?) && m.pc.l == l ==> owner.Some?)
  }

  lemma OwnerOwn(s: System, p: nat, c: Call, l: nat)
    requires Shaped(s) && SpinLocksOk(s) && OwnersOk(s) && p < |s.procs| && Enabled(s, p, c) && l < |s.inner|
    ensures |NextOwner(s, p)| == |s.owner| && OwnerFits(NextOwner(s, p)[l], NextProc(s, p, c), p, l)
  {
    assert InRange(s, s.procs[p].pc);
    assert s.owner[l] == Some(p) <==> Owns(s.procs[p], l);
    assert s.inner[l] == Some(p) <==> InCritical(s.procs[p].pc, l);
    hide SpinLocksOk;
  }

  lemma OwnerOther(s: System, p: nat, c: Call, l: nat, q: nat)
    requires Shaped(s) && SpinLocksOk(s) && OwnersOk(s) && p < |s.procs| && Enabled(s, p, c)
    requires l < |s.inner| && q < |s.procs| && q != p
    ensures |NextOwner(s, p)| == |s.owner| && OwnerFits(NextOwner(s, p)[l], s.procs[q], q, l)
  {
    assert InRange(s, s.procs[p].pc) && InRange(s, s.procs[q].pc);
    assert s.owner[l] == Some(q) <==> Owns(s.procs[q], l);
    assert s.owner[l] == Some(p) <==> Owns(s.procs[p], l);
    assert s.inner[l] == Some(q) <==> InCritical(s.procs[q].pc, l);
    assert s.inner[l] == Some(p) <==> InCritical(s.procs[p].pc, l);
  }

  lemma StepOwner(s: System, p: nat, c: Call, l: nat, q: nat)
    requires Shaped(s) && SpinLocksOk(s) && OwnersOk(s) && p < |s.procs| && Enabled(s, p, c)
    requires l < |s.inner| && q < |s.procs|
    ensures var t := Step(s, p, c);
            && |t.inner| == |s.inner| == |t.owner| && |t.procs| == |s.procs|
            && OwnerFits(t.owner[l], t.procs[q], q, l)
  {
    hide NextProc;
    hide NextOthers;
    hide NextPlock;
    hide NextInner;
    hide NextOwner;
    hide SpinLocksOk;
    hide OwnersOk;
    hide Enabled;
    StepShaped(s, p, c);
    if q == p {
      OwnProc(s, p, c);
      OwnerOwn(s, p, c, l);
    } else {
      OtherProc(s, p, c, q);
      OwnerOther(s, p, c, l, q);
    }
  }

  lemma StepOwners(s: System, p: nat, c: Call)
    requires Inv(s) && p < |s.procs| && Enabled(s, p, c)
    ensures Shaped(Step(s, p, c)) && OwnersOk(Step(s, p, c))
  {
    hide NextProc;
    hide NextOthers;
    hide NextPlock;
    hide NextInner;
    hide NextOwner;
    hide SpinLocksOk;
    hide PlocksOk;
    hide SleepersOk;
    hide WaitersOk;
    StepShaped(s, p, c);
    var t := Step(s, p, c);
    hide Owns;
    forall q: nat | q < |t.procs|
      ensures var m := t.procs[q];
              ((m.pc.Got? || m.pc.Release? || m.pc.Clear?) ==> m.pc.l !in m.holds)
              && ((m.pc.SleepBegin? || m.pc.SleepRelease?) ==> t.owner[m.pc.l].Some?)
    {
      var pc := t.procs[q].pc;
      if pc.Got? || pc.Release? || pc.Clear? || pc.SleepBegin? || pc.SleepRelease? {
        StepOwner(s, p, c, pc.l, q);
      }
    }
    forall l: nat, q: nat | l < |t.inner| && q < |t.procs| ensures t.owner[l] == Some(q) <==> Owns(t.procs[q], l) {
      StepOwner(s, p, c, l, q);
    }
  }

  lemma StepSleepers(s: System, p: nat, c: Call)
    requires Inv(s) && p < |s.procs| && Enabled(s, p, c)
    ensures Shaped(Step(s, p, c)) && SleepersOk(Step(s, p, c))
  {
    hide NextInner;
    hide NextOwner;
    hide SpinLocksOk;
    hide OwnersOk;
    hide WaitersOk;
    StepShaped(s, p, c);
  }

  lemma StepWaiter(s: System, p: nat, c: Call, l: nat, q: nat)
    requires Inv(s) && p < |s.procs| && Enabled(s, p, c) && l < |s.inner| && q < |s.procs|
    requires Shaped(Step(s, p, c)) && Waiting(Step(s, p, c).procs[q], l)
    ensures Step(s, p, c).owner[l].Some? || WillWake(Step(s, p, c), l, q)
  {
    assert s.inner[l] == Some(p) <==> InCritical(s.procs[p].pc, l);
    assert s.plock[q] == Some(p) <==> HoldsPlock(s.procs[p].pc, p, q);
    assert s.plock[q] == Some(q) <==> HoldsPlock(s.procs[q].pc, q, q);
    assert Waiting(s.procs[q], l) ==> s.owner[l].Some? || WillWake(s, l, q);
  }

  lemma StepWaiters(s: System, p: nat, c: Call)
    requires Inv(s) && p < |s.procs| && Enabled(s, p, c)
    ensures Shaped(Step(s, p, c)) && WaitersOk(Step(s, p, c))
  {
    StepShaped(s, p, c);
    var t := Step(s, p, c);
    forall l, q | 0 <= l < |t.inner| && 0 <= q < |t.procs| && Waiting(t.procs[q], l)
      ensures t.owner[l].Some? || WillWake(t, l, q)
    {
      StepWaiter(s, p, c, l, q);
    }
  }

  /** Every step of every process keeps the invariant. */
  lemma StepKeepsInv(s: System, p: nat, c: Call)
    requires Inv(s) && p < |s.procs| && Enabled(s, p, c)
    ensures Inv(Step(s, p, c))
  {
    StepSpinLocks(s, p, c);
    StepPlocks(s, p, c);
    StepOwners(s, p, c);
    StepSleepers(s, p, c);
    StepWaiters(s, p, c);
  }

  // ----- runs

  /** A run: at each point, which process takes a step, and which call it makes if it is idle. */
  datatype Move = Move(p: nat, c: Call)

  ghost predicate CanRun(s: System, run: seq<Move>)
    decreases |run|
  {
    run == [] ||
      (Shaped(s) && run[0].p < |s.procs| && Enabled(s, run[0].p, run[0].c) && CanRun(Step(s, run[0].p, run[0].c), run[1..]))
  }

  ghost function Run(s: System, run: seq<Move>): System
    requires CanRun(s, run)
    decreases |run|
  {
    if run == [] then s else Run(Step(s, run[0].p, run[0].c), run[1..])
  }

  function Start(procs: nat, locks: nat): System {
    System(seq(procs, _ => Proc(Idle, false, None, {})), seq(procs, _ => None), seq(locks, _ => None), seq(locks, _ => None))
  }

  lemma {:induction false} RunKeepsInv(s: System, run: seq<Move>)
    requires Inv(s) && CanRun(s, run)
    ensures Inv(Run(s, run))
    decreases |run|
  {
    if run != [] {
      StepKeepsInv(s, run[0].p, run[0].c);
      RunKeepsInv(Step(s, run[0].p, run[0].c), run[1..]);
    }
  }

  lemma StartInv(procs: nat, locks: nat)
    ensures Inv(Start(procs, locks))
  {
  }

  /** After any run from the start, at most one process holds a sleep lock. */
  lemma MutualExclusion(procs: nat, locks: nat, run: seq<Move>, p: nat, q: nat, l: nat)
    requires CanRun(Start(procs, locks), run)
    requires var s := Run(Start(procs, locks), run);
             p < |s.procs| && q < |s.procs| && l < |s.inner| && l in s.procs[p].holds && l in s.procs[q].holds
    ensures p == q
  {
    StartInv(procs, locks);
    RunKeepsInv(Start(procs, locks), run);
    var s := Run(Start(procs, locks), run);
    hide SpinLocksOk;
    hide PlocksOk;
    hide SleepersOk;
    hide WaitersOk;
    assert s.owner[l] == Some(p) <==> Owns(s.procs[p], l);
    assert s.owner[l] == Some(q) <==> Owns(s.procs[q], l);
  }

  /**
   * After any run, when a sleep lock is not locked and its spin lock is free, no process sleeps on
   * it or is on the way to sleep with the spin lock given up.
   */
  lemma NoLostWakeup(procs: nat, locks: nat, run: seq<Move>, p: nat, l: nat)
    requires CanRun(Start(procs, locks), run)
    requires var s := Run(Start(procs, locks), run);
             p < |s.procs| && l < |s.inner| && |s.owner| == |s.inner| && s.owner[l].None? && s.inner[l].None?
    ensures !Waiting(Run(Start(procs, locks), run).procs[p], l)
  {
    hide Inv;
    StartInv(procs, locks);
    RunKeepsInv(Start(procs, locks), run);
    NoneWaits(Run(Start(procs, locks), run), p, l);
  }

  lemma NoneWaits(s: System, p: nat, l: nat)
    requires Inv(s) && p < |s.procs| && l < |s.inner| && s.owner[l].None? && s.inner[l].None?
    ensures !Waiting(s.procs[p], l)
  {
    hide SpinLocksOk;
    hide PlocksOk;
    hide OwnersOk;
    hide SleepersOk;
  }

  /** Only the process that a lock's pid names can be in releasesleep's critical section for it. */
  lemma OwnerReleases(s: System, p: nat, l: nat)
    requires Inv(s) && p < |s.procs| && l < |s.inner| && s.procs[p].pc == Clear(l)
    ensures s.owner[l] == Some(p) && s.inner[l] == Some(p)
  {
    assert s.owner[l] == Some(p) <==> Owns(s.procs[p], l);
    assert s.inner[l] == Some(p) <==> InCritical(s.procs[p].pc, l);
  }
}
