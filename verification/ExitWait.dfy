/** exit, wait, fork and kill: every process takes one small step at a time, in any order. */
module ExitWait {
  import opened Basics

  datatype State = Unused | Used | Runnable | Sleeping | Zombie

  /** Where a process is; Dead is a slot of the table that no process runs in. */
  datatype PC =
    | Idle
    | Dead
    | WaitBegin                       // wait: take wait_lock
    | Scan(i: nat, kids: bool)        // the scan for exited children
    | Test(i: nat)                    // with child i's lock: is it a zombie?
    | Reaped(i: nat)                  // release child i's lock
    | Return                          // release wait_lock
    | SleepBegin                      // sleep: take p->lock
    | SleepRelease                    // release wait_lock
    | SleepChan                       // p->chan = p
    | SleepState                      // p->state = SLEEPING
    | Sched                           // switch to the scheduler, which releases p->lock
    | Asleep                          // until RUNNABLE and scheduled with p->lock
    | Resumed                         // p->chan = 0; release p->lock
    | Reacquire                       // take wait_lock again
    | ExitBegin                       // exit: take wait_lock
    | Reparent(i: nat)                // give child i to init
    | InitWake(i: nat, k: nat)        // wakeup(initproc): take the lock of process k
    | InitWakeOne(i: nat, k: nat)     // test process k, release its lock
    | ParentWake(k: nat)              // wakeup(p->parent)
    | ParentWakeOne(k: nat)
    | ExitLock                        // take p->lock
    | ExitZombie                      // p->state = ZOMBIE
    | ExitRelease                     // release wait_lock
    | ExitSched                       // switch to the scheduler, which releases p->lock
    | ForkBegin(n: nat)               // fork: take slot n's lock
    | ForkAlloc(n: nat)               // is it UNUSED?
    | ForkUnlock(n: nat)              // release its lock
    | ForkWait(n: nat)                // take wait_lock
    | ForkParent(n: nat)              // np->parent = p
    | ForkRelease(n: nat)             // release wait_lock
    | ForkLock(n: nat)                // take slot n's lock
    | ForkRun(n: nat)                 // np->state = RUNNABLE
    | ForkEnd(n: nat)                 // release slot n's lock
    | ForkFail(n: nat)                // release the lock of a slot in use
    | Kill(k: nat)                    // take the lock of process k
    | KillOne(k: nat)                 // kill and wake it, release its lock

  /** The process table, its locks, wait_lock, and how often each slot exited and was reaped. */
  datatype System = System(init: nat, pc: seq<PC>, state: seq<State>, chan: seq<Option<nat>>, parent: seq<Option<nat>>,
                           killed: seq<bool>, plock: seq<Option<nat>>, wlock: Option<nat>, exits: seq<nat>, reaps: seq<nat>)

  /** What an idle process calls; and whether a copy of the exit status to the user succeeds. */
  datatype Call = DoWait | DoExit | DoFork(n: nat) | DoKill(k: nat) | Continue(copied: bool)

  predicate InRange(n: nat, pc: PC) {
    match pc
    case Scan(i, _) => i <= n
    case Test(i) => i < n
    case Reaped(i) => i < n
    case Reparent(i) => i <= n
    case InitWake(i, k) => i < n && k <= n
    case InitWakeOne(i, k) => i < n && k < n
    case ParentWake(k) => k <= n
    case ParentWakeOne(k) => k < n
    case ForkBegin(m) => m < n
    case ForkAlloc(m) => m < n
    case ForkUnlock(m) => m < n
    case ForkWait(m) => m < n
    case ForkParent(m) => m < n
    case ForkRelease(m) => m < n
    case ForkLock(m) => m < n
    case ForkRun(m) => m < n
    case ForkEnd(m) => m < n
    case ForkFail(m) => m < n
    case Kill(k) => k < n
    case KillOne(k) => k < n
    case _ => true
  }

  ghost predicate Shaped(s: System) {
    && s.init < |s.pc| == |s.state| == |s.chan| == |s.parent| == |s.killed| == |s.plock| == |s.exits| == |s.reaps|
    && forall p :: 0 <= p < |s.pc| ==> InRange(|s.pc|, s.pc[p])
  }

  predicate Enabled(s: System, p: nat, c: Call)
    requires Shaped(s) && p < |s.pc|
  {
    match s.pc[p]
    case Idle => (match c
                  case DoWait => true
                  case DoExit => p != s.init
                  case DoFork(n) => n < |s.pc|
                  case DoKill(k) => k < |s.pc|
                  case Continue(_) => false)
    case Dead => false
    case WaitBegin => s.wlock.None?
    case Reacquire => s.wlock.None?
    case ExitBegin => s.wlock.None?
    case ForkWait(_) => s.wlock.None?
    case Scan(i, _) => i < |s.pc| && s.parent[i] == Some(p) ==> s.plock[i].None?
    case SleepBegin => s.plock[p].None?
    case ExitLock => s.plock[p].None?
    case Asleep => s.state[p].Runnable? && s.plock[p].None?
    case InitWake(_, k) => k == |s.pc| || k == p || s.plock[k].None?
    case ParentWake(k) => k == |s.pc| || k == p || s.plock[k].None?
    case ForkBegin(n) => s.plock[n].None?
    case ForkLock(n) => s.plock[n].None?
    case Kill(k) => s.plock[k].None?
    case _ => true
  }

  /** wait frees child i here. */
  predicate Frees(s: System, p: nat, c: Call)
    requires Shaped(s) && p < |s.pc|
  {
    s.pc[p].Test? && s.state[s.pc[p].i].Zombie? && c.Continue? && c.copied
  }

  function NextPc(s: System, p: nat, c: Call): PC
    requires Shaped(s) && p < |s.pc| && Enabled(s, p, c)
  {
    var n := |s.pc|;
    match s.pc[p]
    case Idle => (match c
                  case DoWait => WaitBegin
                  case DoExit => ExitBegin
                  case DoFork(m) => ForkBegin(m)
                  case DoKill(k) => Kill(k))
    case WaitBegin => Scan(0, false)
    case Scan(i, kids) =>
      if i == n then (if !kids || s.killed[p] then Return else SleepBegin)
      else if s.parent[i] == Some(p) then Test(i) else Scan(i + 1, kids)
    case Test(i) => if s.state[i].Zombie? then Reaped(i) else Scan(i + 1, true)
    case Reaped(_) => Return
    case Return => Idle
    case SleepBegin => SleepRelease
    case SleepRelease => SleepChan
    case SleepChan => SleepState
    case SleepState => Sched
    case Sched => Asleep
    case Asleep => Resumed
    case Resumed => Reacquire
    case Reacquire => Scan(0, false)
    case ExitBegin => Reparent(0)
    case Reparent(i) =>
      if i == n then ParentWake(0) else if s.parent[i] == Some(p) then InitWake(i, 0) else Reparent(i + 1)
    case InitWake(i, k) => if k == n then Reparent(i + 1) else if k == p then InitWake(i, k + 1) else InitWakeOne(i, k)
    case InitWakeOne(i, k) => InitWake(i, k + 1)
    case ParentWake(k) => if k == n then ExitLock else if k == p then ParentWake(k + 1) else ParentWakeOne(k)
    case ParentWakeOne(k) => ParentWake(k + 1)
    case ExitLock => ExitZombie
    case ExitZombie => ExitRelease
    case ExitRelease => ExitSched
    case ExitSched => Dead
    case ForkBegin(m) => ForkAlloc(m)
    case ForkAlloc(m) => if s.state[m].Unused? then ForkUnlock(m) else ForkFail(m)
    case ForkUnlock(m) => ForkWait(m)
    case ForkWait(m) => ForkParent(m)
    case ForkParent(m) => ForkRelease(m)
    case ForkRelease(m) => ForkLock(m)
    case ForkLock(m) => ForkRun(m)
    case ForkRun(m) => ForkEnd(m)
    case ForkEnd(_) => Idle
    case ForkFail(_) => Idle
    case Kill(k) => KillOne(k)
    case KillOne(_) => Idle
  }

  /** wakeup(chan) at process k. */
  function Woken(s: System, k: nat, chan: Option<nat>): seq<State>
    requires Shaped(s) && k < |s.pc|
  {
    if s.state[k].Sleeping? && chan.Some? && s.chan[k] == chan then s.state[k := Runnable] else s.state
  }

  function NextState(s: System, p: nat, c: Call): seq<State>
    requires Shaped(s) && p < |s.pc|
  {
    match s.pc[p]
    case SleepState => s.state[p := Sleeping]
    case Test(i) => if Frees(s, p, c) then s.state[i := Unused] else s.state
    case InitWakeOne(_, k) => Woken(s, k, Some(s.init))
    case ParentWakeOne(k) => Woken(s, k, s.parent[p])
    case ExitZombie => s.state[p := Zombie]
    case ForkAlloc(m) => if s.state[m].Unused? then s.state[m := Used] else s.state
    case ForkRun(m) => s.state[m := Runnable]
    case KillOne(k) => if s.state[k].Sleeping? then s.state[k := Runnable] else s.state
    case _ => s.state
  }

  function NextChan(s: System, p: nat, c: Call): seq<Option<nat>>
    requires Shaped(s) && p < |s.pc|
  {
    match s.pc[p]
    case SleepChan => s.chan[p := Some(p)]
    case Resumed => s.chan[p := None]
    case Test(i) => if Frees(s, p, c) then s.chan[i := None] else s.chan
    case _ => s.chan
  }

  function NextParent(s: System, p: nat, c: Call): seq<Option<nat>>
    requires Shaped(s) && p < |s.pc|
  {
    match s.pc[p]
    case Reparent(i) => if i < |s.pc| && s.parent[i] == Some(p) then s.parent[i := Some(s.init)] else s.parent
    case ForkParent(m) => s.parent[m := Some(p)]
    case Test(i) => if Frees(s, p, c) then s.parent[i := None] else s.parent
    case _ => s.parent
  }

  function NextKilled(s: System, p: nat, c: Call): seq<bool>
    requires Shaped(s) && p < |s.pc|
  {
    match s.pc[p]
    case KillOne(k) => if s.state[k].Unused? then s.killed else s.killed[k := true]
    case Test(i) => if Frees(s, p, c) then s.killed[i := false] else s.killed
    case _ => s.killed
  }

  function NextPlock(s: System, p: nat): seq<Option<nat>>
    requires Shaped(s) && p < |s.pc|
  {
    match s.pc[p]
    case Scan(i, _) => if i < |s.pc| && s.parent[i] == Some(p) then s.plock[i := Some(p)] else s.plock
    case Test(i) => if s.state[i].Zombie? then s.plock else s.plock[i := None]
    case Reaped(i) => s.plock[i := None]
    case SleepBegin => s.plock[p := Some(p)]
    case Sched => s.plock[p := None]
    case Asleep => s.plock[p := Some(p)]
    case Resumed => s.plock[p := None]
    case InitWake(_, k) => if k == |s.pc| || k == p then s.plock else s.plock[k := Some(p)]
    case InitWakeOne(_, k) => s.plock[k := None]
    case ParentWake(k) => if k == |s.pc| || k == p then s.plock else s.plock[k := Some(p)]
    case ParentWakeOne(k) => s.plock[k := None]
    case ExitLock => s.plock[p := Some(p)]
    case ExitSched => s.plock[p := None]
    case ForkBegin(m) => s.plock[m := Some(p)]
    case ForkUnlock(m) => s.plock[m := None]
    case ForkLock(m) => s.plock[m := Some(p)]
    case ForkEnd(m) => s.plock[m := None]
    case ForkFail(m) => s.plock[m := None]
    case Kill(k) => s.plock[k := Some(p)]
    case KillOne(k) => s.plock[k := None]
    case _ => s.plock
  }

  function NextWlock(s: System, p: nat): Option<nat>
    requires Shaped(s) && p < |s.pc|
  {
    match s.pc[p]
    case WaitBegin => Some(p)
    case Reacquire => Some(p)
    case ExitBegin => Some(p)
    case ForkWait(_) => Some(p)
    case Return => None
    case SleepRelease => None
    case ExitRelease => None
    case ForkRelease(_) => None
    case _ => s.wlock
  }

  function Step(s: System, p: nat, c: Call): System
    requires Shaped(s) && p < |s.pc| && Enabled(s, p, c)
  {
    System(s.init,
           (if s.pc[p].ForkRun? then s.pc[s.pc[p].n := Idle] else s.pc)[p := NextPc(s, p, c)],
           NextState(s, p, c), NextChan(s, p, c), NextParent(s, p, c), NextKilled(s, p, c),
           NextPlock(s, p), NextWlock(s, p),
           if s.pc[p].ExitZombie? then s.exits[p := s.exits[p] + 1] else s.exits,
           if Frees(s, p, c) then s.reaps[s.pc[p].i := s.reaps[s.pc[p].i] + 1] else s.reaps)
  }

  // ----- the invariant

  predicate HoldsWlock(pc: PC) {
    pc.Scan? || pc.Test? || pc.Reaped? || pc.Return? || pc.SleepBegin? || pc.SleepRelease? || pc.Reparent? || pc.InitWake?
    || pc.InitWakeOne? || pc.ParentWake? || pc.ParentWakeOne? || pc.ExitLock? || pc.ExitZombie? || pc.ExitRelease?
    || pc.ForkParent? || pc.ForkRelease?
  }

  predicate HoldsPlock(pc: PC, p: nat, k: nat) {
    || ((pc.SleepRelease? || pc.SleepChan? || pc.SleepState? || pc.Sched? || pc.Resumed?
         || pc.ExitZombie? || pc.ExitRelease? || pc.ExitSched?) && k == p)
    || ((pc.Test? || pc.Reaped?) && pc.i == k)
    || ((pc.InitWakeOne? || pc.ParentWakeOne? || pc.KillOne?) && pc.k == k)
    || ((pc.ForkAlloc? || pc.ForkUnlock? || pc.ForkRun? || pc.ForkEnd? || pc.ForkFail?) && pc.n == k)
  }

  /** Process p sleeps in wait, or has given up wait_lock in order to. */
  predicate Waiting(s: System, p: nat)
    requires Shaped(s) && p < |s.pc|
  {
    s.pc[p].SleepChan? || s.pc[p].SleepState? || ((s.pc[p].Sched? || s.pc[p].Asleep?) && s.state[p].Sleeping?)
  }

  /** fork has slot n in its hands. */
  predicate Forking(pc: PC, n: nat) {
    && (pc.ForkUnlock? || pc.ForkWait? || pc.ForkParent? || pc.ForkRelease? || pc.ForkLock? || pc.ForkRun?)
    && pc.n == n
  }

  ghost predicate WlockOk(s: System)
    requires Shaped(s)
  {
    forall p :: 0 <= p < |s.pc| ==> (s.wlock == Some(p) <==> HoldsWlock(s.pc[p]))
  }

  ghost predicate PlockOk(s: System)
    requires Shaped(s)
  {
    forall k, p :: 0 <= k < |s.pc| && 0 <= p < |s.pc| ==> (s.plock[k] == Some(p) <==> HoldsPlock(s.pc[p], p, k))
  }

  /** A process's state fits where it is. */
  predicate Fits(s: System, p: nat)
    requires Shaped(s) && p < |s.pc|
  {
    var pc, st := s.pc[p], s.state[p];
    if pc.Dead? then st.Unused? || st.Used? || st.Zombie?
    else if pc.ExitRelease? || pc.ExitSched? then st.Zombie?
    else
      && (st.Runnable? || (st.Sleeping? && (pc.Sched? || pc.Asleep?) && s.chan[p] == Some(p)))
      && (pc.SleepState? ==> s.chan[p] == Some(p))
  }

  ghost predicate StatesOk(s: System)
    requires Shaped(s)
  {
    forall p :: 0 <= p < |s.pc| ==> Fits(s, p)
  }

  ghost predicate ForksOk(s: System)
    requires Shaped(s)
  {
    && (forall p, n :: 0 <= p < |s.pc| && 0 <= n < |s.pc| && Forking(s.pc[p], n) ==> s.state[n].Used?)
    && (forall p, q, n :: 0 <= p < |s.pc| && 0 <= q < |s.pc| && 0 <= n < |s.pc| && Forking(s.pc[p], n) && Forking(s.pc[q], n) ==>
          p == q)
  }

  /** The children up to which process p's scan has come. */
  function Scanned(pc: PC, n: nat): nat {
    if pc.Scan? || pc.Test? then pc.i else if pc.SleepBegin? || pc.SleepRelease? then n else 0
  }

  /** Children that the scan has passed are not zombies; it tests only children. */
  ghost predicate ScansOk(s: System)
    requires Shaped(s)
  {
    && (forall p, i :: 0 <= p < |s.pc| && 0 <= i < |s.pc| && i < Scanned(s.pc[p], |s.pc|) && s.parent[i] == Some(p) ==>
          !s.state[i].Zombie?)
    && (forall p :: 0 <= p < |s.pc| && s.pc[p].Test? ==> s.parent[s.pc[p].i] == Some(p))
  }

  /** A process in exit that has passed its parent in wakeup left it awake. */
  ghost predicate ExitsOk(s: System)
    requires Shaped(s)
  {
    forall q, p :: 0 <= q < |s.pc| && 0 <= p < |s.pc| && s.parent[q] == Some(p) && Waiting(s, p) ==>
      && !s.pc[q].ExitLock? && !s.pc[q].ExitZombie?
      && ((s.pc[q].ParentWake? || s.pc[q].ParentWakeOne?) ==> s.pc[q].k <= p)
  }

  /** The holder of wait_lock is in wakeup(initproc) and has yet to come to init. */
  predicate WillWakeInit(s: System)
    requires Shaped(s)
  {
    && s.wlock.Some? && s.wlock.value < |s.pc|
    && var pc := s.pc[s.wlock.value];
       (pc.InitWake? || pc.InitWakeOne?) && pc.k <= s.init
  }

  /** Who waits with a zombie child is init, about to be woken. */
  ghost predicate WaitersOk(s: System)
    requires Shaped(s)
  {
    forall i, p :: 0 <= i < |s.pc| && 0 <= p < |s.pc| && s.parent[i] == Some(p) && s.state[i].Zombie? && Waiting(s, p) ==>
      p == s.init && WillWakeInit(s)
  }

  /** Every exit has been reaped once, or its zombie is still there. */
  ghost predicate CountsOk(s: System)
    requires Shaped(s)
  {
    forall p :: 0 <= p < |s.pc| ==> s.exits[p] == s.reaps[p] + if s.state[p].Zombie? then 1 else 0
  }

  /** init does not exit. */
  predicate InitOk(s: System)
    requires Shaped(s)
  {
    var pc := s.pc[s.init];
    !(pc.ExitBegin? || pc.Reparent? || pc.InitWake? || pc.InitWakeOne? || pc.ParentWake? || pc.ParentWakeOne?
      || pc.ExitLock? || pc.ExitZombie? || pc.ExitRelease? || pc.ExitSched?)
  }

  ghost predicate Inv(s: System) {
    && Shaped(s) && InitOk(s) && WlockOk(s) && PlockOk(s) && StatesOk(s) && ForksOk(s) && ScansOk(s) && ExitsOk(s)
    && WaitersOk(s) && CountsOk(s)
  }

  lemma StepShaped(s: System, p: nat, c: Call)
    requires Shaped(s) && p < |s.pc| && Enabled(s, p, c)
    ensures Shaped(Step(s, p, c)) && |Step(s, p, c).pc| == |s.pc|
  {
    NextInRange(s, p, c);
    hide NextPc;
    hide InRange;
  }

  lemma NextInRange(s: System, p: nat, c: Call)
    requires Shaped(s) && p < |s.pc| && Enabled(s, p, c)
    ensures InRange(|s.pc|, s.pc[p]) && InRange(|s.pc|, NextPc(s, p, c)) && InRange(|s.pc|, Idle)
  {
    assert InRange(|s.pc|, s.pc[p]);
    hide Shaped;
  }

  /** A step moves no other process, but that fork lets the new one run. */
  lemma OtherPc(s: System, p: nat, c: Call, q: nat)
    requires Shaped(s) && StatesOk(s) && ForksOk(s) && p < |s.pc| && Enabled(s, p, c) && q < |s.pc| && q != p
    ensures var t := Step(s, p, c);
            && |t.pc| == |s.pc|
            && if s.pc[p].ForkRun? && q == s.pc[p].n then s.pc[q].Dead? && t.pc[q].Idle? else t.pc[q] == s.pc[q]
  {
    hide NextPc;
    hide NextState;
    hide NextChan;
    hide NextParent;
    hide NextKilled;
    hide NextPlock;
    hide NextWlock;
    ForkSlot(s, p);
  }

  lemma StepWlock(s: System, p: nat, c: Call, q: nat)
    requires Inv(s) && p < |s.pc| && Enabled(s, p, c) && q < |s.pc|
    ensures var t := Step(s, p, c);
            |t.pc| == |s.pc| && (t.wlock == Some(q) <==> HoldsWlock(t.pc[q]))
  {
    assert s.wlock == Some(q) <==> HoldsWlock(s.pc[q]);
    assert s.wlock == Some(p) <==> HoldsWlock(s.pc[p]);
    if q != p {
      StepWlockOther(s, p, c, q);
    } else {
      StepWlockSelf(s, p, c);
    }
  }

  lemma StepWlockOther(s: System, p: nat, c: Call, q: nat)
    requires Inv(s) && p < |s.pc| && Enabled(s, p, c) && q < |s.pc| && q != p
    ensures var t := Step(s, p, c); |t.pc| == |s.pc| && (t.wlock == Some(q) <==> HoldsWlock(t.pc[q]))
  {
    hide PlockOk;
    hide ScansOk;
    hide ExitsOk;
    hide WaitersOk;
    hide CountsOk;
    hide NextPc;
    hide NextState;
    hide NextChan;
    hide NextParent;
    hide NextKilled;
    hide NextPlock;
    OtherPc(s, p, c, q);
    assert s.wlock == Some(q) <==> HoldsWlock(s.pc[q]);
    assert s.wlock == Some(p) <==> HoldsWlock(s.pc[p]);
  }

  lemma StepWlockSelf(s: System, p: nat, c: Call)
    requires Inv(s) && p < |s.pc| && Enabled(s, p, c)
    ensures var t := Step(s, p, c); |t.pc| == |s.pc| && (t.wlock == Some(p) <==> HoldsWlock(t.pc[p]))
  {
    hide PlockOk;
    hide StatesOk;
    hide ForksOk;
    hide ScansOk;
    hide ExitsOk;
    hide WaitersOk;
    hide CountsOk;
    hide NextState;
    hide NextChan;
    hide NextParent;
    hide NextKilled;
    hide NextPlock;
    assert s.wlock == Some(p) <==> HoldsWlock(s.pc[p]);
  }

  /** The slot that fork is about to run is dead. */
  lemma ForkSlot(s: System, p: nat)
    requires Shaped(s) && StatesOk(s) && ForksOk(s) && p < |s.pc|
    ensures InRange(|s.pc|, s.pc[p])
    ensures s.pc[p].ForkRun? ==> s.pc[s.pc[p].n].Dead? && s.state[s.pc[p].n].Used? && s.pc[p].n != p
  {
    if s.pc[p].ForkRun? {
      assert Forking(s.pc[p], s.pc[p].n);
      assert Fits(s, s.pc[p].n);
    }
  }

  lemma StepPlock(s: System, p: nat, c: Call, k: nat, q: nat)
    requires Inv(s) && p < |s.pc| && Enabled(s, p, c) && k < |s.pc| && q < |s.pc|
    ensures var t := Step(s, p, c);
            |t.pc| == |t.plock| == |s.pc| && (t.plock[k] == Some(q) <==> HoldsPlock(t.pc[q], q, k))
  {
    if q != p {
      StepPlockOther(s, p, c, k, q);
    } else {
      StepPlockSelf(s, p, c, k);
    }
  }

  lemma StepPlockOther(s: System, p: nat, c: Call, k: nat, q: nat)
    requires Inv(s) && p < |s.pc| && Enabled(s, p, c) && k < |s.pc| && q < |s.pc| && q != p
    ensures var t := Step(s, p, c);
            |t.pc| == |t.plock| == |s.pc| && (t.plock[k] == Some(q) <==> HoldsPlock(t.pc[q], q, k))
  {
    hide WlockOk;
    hide ScansOk;
    hide ExitsOk;
    hide WaitersOk;
    hide CountsOk;
    hide NextPc;
    hide NextState;
    hide NextChan;
    hide NextParent;
    hide NextKilled;
    hide NextWlock;
    OtherPc(s, p, c, q);
    assert InRange(|s.pc|, s.pc[p]);
    assert s.plock[k] == Some(q) <==> HoldsPlock(s.pc[q], q, k);
    assert s.plock[k] == Some(p) <==> HoldsPlock(s.pc[p], p, k);
  }

  lemma StepPlockSelf(s: System, p: nat, c: Call, k: nat)
    requires Inv(s) && p < |s.pc| && Enabled(s, p, c) && k < |s.pc|
    ensures var t := Step(s, p, c);
            |t.pc| == |t.plock| == |s.pc| && (t.plock[k] == Some(p) <==> HoldsPlock(t.pc[p], p, k))
  {
    hide WlockOk;
    hide StatesOk;
    hide ForksOk;
    hide ScansOk;
    hide ExitsOk;
    hide WaitersOk;
    hide CountsOk;
    hide NextPc;
    hide NextState;
    hide NextChan;
    hide NextParent;
    hide NextKilled;
    hide NextPlock;
    hide NextWlock;
    hide HoldsPlock;
    PlockSelf(s, p, c, k);
  }

  lemma PlockSelf(s: System, p: nat, c: Call, k: nat)
    requires Shaped(s) && p < |s.pc| && Enabled(s, p, c) && k < |s.pc| == |s.plock| == |s.state| == |s.parent|
    requires InRange(|s.pc|, s.pc[p]) && (s.plock[k] == Some(p) <==> HoldsPlock(s.pc[p], p, k))
    ensures |NextPlock(s, p)| == |s.pc| && (NextPlock(s, p)[k] == Some(p) <==> HoldsPlock(NextPc(s, p, c), p, k))
  {
    hide Shaped;
    hide NextPlock;
    hide NextPc;
    hide HoldsPlock;
    if InExit(s.pc[p]) {
      PlockExit(s, p, c, k);
    } else {
      PlockRest(s, p, c, k);
    }
  }

  predicate InExit(pc: PC) {
    pc.Reparent? || pc.InitWake? || pc.InitWakeOne? || pc.ParentWake? || pc.ParentWakeOne? || pc.ExitLock? || pc.ExitZombie?
    || pc.ExitRelease? || pc.ExitSched? || pc.Kill? || pc.KillOne? || pc.Scan? || pc.Test? || pc.Reaped?
  }

  lemma PlockExit(s: System, p: nat, c: Call, k: nat)
    requires Shaped(s) && p < |s.pc| && Enabled(s, p, c) && k < |s.pc| == |s.plock| == |s.state| == |s.parent|
    requires InRange(|s.pc|, s.pc[p]) && (s.plock[k] == Some(p) <==> HoldsPlock(s.pc[p], p, k))
    requires InExit(s.pc[p])
    ensures |NextPlock(s, p)| == |s.pc| && (NextPlock(s, p)[k] == Some(p) <==> HoldsPlock(NextPc(s, p, c), p, k))
  {
    hide Shaped;
  }

  lemma PlockRest(s: System, p: nat, c: Call, k: nat)
    requires Shaped(s) && p < |s.pc| && Enabled(s, p, c) && k < |s.pc| == |s.plock| == |s.state| == |s.parent|
    requires InRange(|s.pc|, s.pc[p]) && (s.plock[k] == Some(p) <==> HoldsPlock(s.pc[p], p, k))
    requires !InExit(s.pc[p])
    ensures |NextPlock(s, p)| == |s.pc| && (NextPlock(s, p)[k] == Some(p) <==> HoldsPlock(NextPc(s, p, c), p, k))
  {
    hide Shaped;
  }

  lemma StepFits(s: System, p: nat, c: Call, q: nat)
    requires Inv(s) && p < |s.pc| && Enabled(s, p, c) && q < |s.pc|
    ensures Shaped(Step(s, p, c)) && q < |Step(s, p, c).pc| && Fits(Step(s, p, c), q)
  {
    StepShapes(s, p, c);
    if q == p {
      StepFitsSelf(s, p, c);
    } else {
      StepFitsOther(s, p, c, q);
    }
  }

  lemma StepFitsSelf(s: System, p: nat, c: Call)
    requires Inv(s) && p < |s.pc| && Enabled(s, p, c) && Shaped(Step(s, p, c)) && |Step(s, p, c).pc| == |s.pc|
    ensures Fits(Step(s, p, c), p)
  {
    hide WlockOk;
    hide PlockOk;
    hide ScansOk;
    hide ExitsOk;
    hide WaitersOk;
    hide CountsOk;
    hide NextParent;
    hide NextKilled;
    hide NextPlock;
    hide NextWlock;
    ForkSlot(s, p);
    assert Fits(s, p);
  }

  lemma StepFitsOther(s: System, p: nat, c: Call, q: nat)
    requires Inv(s) && p < |s.pc| && Enabled(s, p, c) && Shaped(Step(s, p, c)) && |Step(s, p, c).pc| == |s.pc|
    requires q < |s.pc| && q != p
    ensures Fits(Step(s, p, c), q)
  {
    hide WlockOk;
    hide ScansOk;
    hide ExitsOk;
    hide WaitersOk;
    hide CountsOk;
    hide NextPc;
    hide NextParent;
    hide NextKilled;
    hide NextPlock;
    hide NextWlock;
    OtherPc(s, p, c, q);
    ForkSlot(s, p);
    assert Fits(s, p) && Fits(s, q);
    assert s.plock[q] == Some(q) <==> HoldsPlock(s.pc[q], q, q);
    assert s.plock[q] == Some(p) <==> HoldsPlock(s.pc[p], p, q);
  }

  lemma StepFork(s: System, p: nat, c: Call, q: nat, n: nat)
    requires Inv(s) && p < |s.pc| && Enabled(s, p, c) && q < |s.pc| && n < |s.pc|
    requires |Step(s, p, c).pc| == |s.pc| && Forking(Step(s, p, c).pc[q], n)
    ensures |Step(s, p, c).state| == |s.pc| && Step(s, p, c).state[n].Used?
    ensures Forking(s.pc[q], n) || (q == p && s.pc[p] == ForkAlloc(n) && s.state[n].Unused?)
  {
    hide WlockOk;
    hide ScansOk;
    hide ExitsOk;
    hide WaitersOk;
    hide CountsOk;
    hide NextChan;
    hide NextParent;
    hide NextKilled;
    hide NextPlock;
    hide NextWlock;
    ForkSlot(s, p);
    assert Fits(s, p);
    assert Forking(s.pc[q], n) ==> s.state[n].Used?;
    assert Forking(s.pc[q], n) && s.pc[p].ForkRun? && s.pc[p].n == n ==> p == q;
  }

  lemma OneForker(s: System, p: nat, c: Call, q: nat, r: nat, n: nat)
    requires Inv(s) && p < |s.pc| && Enabled(s, p, c) && q < |s.pc| && r < |s.pc| && n < |s.pc|
    requires |Step(s, p, c).pc| == |s.pc| && Forking(Step(s, p, c).pc[q], n) && Forking(Step(s, p, c).pc[r], n)
    ensures q == r
  {
    hide WlockOk;
    hide PlockOk;
    hide StatesOk;
    hide ScansOk;
    hide ExitsOk;
    hide WaitersOk;
    hide CountsOk;
    hide NextPc;
    hide NextState;
    hide NextChan;
    hide NextParent;
    hide NextKilled;
    hide NextPlock;
    hide NextWlock;
    hide Forking;
    StepFork(s, p, c, q, n);
    StepFork(s, p, c, r, n);
    assert Forking(s.pc[q], n) ==> s.state[n].Used?;
    assert Forking(s.pc[r], n) ==> s.state[n].Used?;
    assert Forking(s.pc[q], n) && Forking(s.pc[r], n) ==> q == r;
  }

  lemma StepForks(s: System, p: nat, c: Call)
    requires Inv(s) && p < |s.pc| && Enabled(s, p, c)
    ensures Shaped(Step(s, p, c)) && ForksOk(Step(s, p, c))
  {
    hide WlockOk;
    hide PlockOk;
    hide StatesOk;
    hide ScansOk;
    hide ExitsOk;
    hide WaitersOk;
    hide CountsOk;
    hide NextPc;
    hide NextState;
    hide NextChan;
    hide NextParent;
    hide NextKilled;
    hide NextPlock;
    hide NextWlock;
    hide Forking;
    StepShaped(s, p, c);
    var t := Step(s, p, c);
    forall q: nat, n: nat | q < |s.pc| && n < |s.pc| && Forking(t.pc[q], n)
      ensures t.state[n].Used?
      ensures Forking(s.pc[q], n) || (q == p && s.pc[p] == ForkAlloc(n) && s.state[n].Unused?)
    {
      StepFork(s, p, c, q, n);
    }
    forall q, r, n | 0 <= q < |t.pc| && 0 <= r < |t.pc| && 0 <= n < |t.pc| && Forking(t.pc[q], n) && Forking(t.pc[r], n)
      ensures q == r
    {
      OneForker(s, p, c, q, r, n);
    }
  }

  lemma StepScan(s: System, p: nat, c: Call, q: nat, i: nat)
    requires Inv(s) && p < |s.pc| && Enabled(s, p, c) && q < |s.pc| && i < |s.pc|
    ensures Shaped(Step(s, p, c)) && |Step(s, p, c).pc| == |s.pc|
    ensures var t := Step(s, p, c); i < Scanned(t.pc[q], |t.pc|) && t.parent[i] == Some(q) ==> !t.state[i].Zombie?
  {
    StepShapes(s, p, c);
    if q == p {
      StepScanSelf(s, p, c, i);
    } else {
      StepScanOther(s, p, c, q, i);
    }
  }

  lemma StepScanSelf(s: System, p: nat, c: Call, i: nat)
    requires Inv(s) && p < |s.pc| && Enabled(s, p, c) && i < |s.pc|
    requires Shaped(Step(s, p, c)) && |Step(s, p, c).pc| == |s.pc|
    ensures var t := Step(s, p, c); i < Scanned(t.pc[p], |t.pc|) && t.parent[i] == Some(p) ==> !t.state[i].Zombie?
  {
    hide PlockOk;
    hide StatesOk;
    hide ForksOk;
    hide ExitsOk;
    hide WaitersOk;
    hide CountsOk;
    hide NextChan;
    hide NextKilled;
    hide NextPlock;
    hide NextWlock;
    assert i < Scanned(s.pc[p], |s.pc|) && s.parent[i] == Some(p) ==> !s.state[i].Zombie?;
  }

  lemma StepScanOther(s: System, p: nat, c: Call, q: nat, i: nat)
    requires Inv(s) && p < |s.pc| && Enabled(s, p, c) && q < |s.pc| && i < |s.pc| && q != p
    requires Shaped(Step(s, p, c)) && |Step(s, p, c).pc| == |s.pc|
    ensures var t := Step(s, p, c); i < Scanned(t.pc[q], |t.pc|) && t.parent[i] == Some(q) ==> !t.state[i].Zombie?
  {
    hide PlockOk;
    hide ExitsOk;
    hide WaitersOk;
    hide CountsOk;
    hide NextPc;
    hide NextChan;
    hide NextKilled;
    hide NextPlock;
    hide NextWlock;
    OtherPc(s, p, c, q);
    assert s.wlock == Some(q) <==> HoldsWlock(s.pc[q]);
    assert s.wlock == Some(p) <==> HoldsWlock(s.pc[p]);
    assert i < Scanned(s.pc[q], |s.pc|) && s.parent[i] == Some(q) ==> !s.state[i].Zombie?;
  }

  lemma StepTest(s: System, p: nat, c: Call, q: nat)
    requires Inv(s) && p < |s.pc| && Enabled(s, p, c) && q < |s.pc|
    ensures Shaped(Step(s, p, c)) && |Step(s, p, c).pc| == |s.pc|
    ensures var t := Step(s, p, c); t.pc[q].Test? ==> t.parent[t.pc[q].i] == Some(q)
  {
    hide PlockOk;
    hide ExitsOk;
    hide WaitersOk;
    hide CountsOk;
    hide NextState;
    hide NextChan;
    hide NextKilled;
    hide NextPlock;
    hide NextWlock;
    StepShaped(s, p, c);
    ForkSlot(s, p);
    assert s.wlock == Some(q) <==> HoldsWlock(s.pc[q]);
    assert s.wlock == Some(p) <==> HoldsWlock(s.pc[p]);
  }

  lemma WaitingOther(s: System, p: nat, c: Call, r: nat)
    requires Inv(s) && p < |s.pc| && Enabled(s, p, c) && r < |s.pc| && r != p
    requires Shaped(Step(s, p, c)) && |Step(s, p, c).pc| == |s.pc|
    ensures Waiting(Step(s, p, c), r) ==> Waiting(s, r)
    ensures s.pc[p].InitWakeOne? && s.pc[p].k == r == s.init ==> !Waiting(Step(s, p, c), r)
    ensures s.pc[p].ParentWakeOne? && s.pc[p].k == r && s.parent[p] == Some(r) ==> !Waiting(Step(s, p, c), r)
  {
    hide WlockOk;
    hide ScansOk;
    hide ExitsOk;
    hide WaitersOk;
    hide CountsOk;
    hide NextChan;
    hide NextParent;
    hide NextKilled;
    hide NextPlock;
    hide NextWlock;
    hide NextPc;
    OtherPc(s, p, c, r);
    assert Fits(s, r) && Fits(s, p);
    assert s.plock[r] == Some(r) <==> HoldsPlock(s.pc[r], r, r);
    assert s.plock[r] == Some(p) <==> HoldsPlock(s.pc[p], p, r);
    hide PlockOk;
    hide StatesOk;
    hide ForksOk;
    hide InitOk;
  }

  lemma WaitingOwn(s: System, p: nat, c: Call)
    requires Inv(s) && p < |s.pc| && Enabled(s, p, c)
    requires Shaped(Step(s, p, c)) && |Step(s, p, c).pc| == |s.pc|
    ensures Waiting(Step(s, p, c), p) ==> Waiting(s, p) || s.pc[p].SleepRelease?
    ensures s.pc[p].InitWakeOne? || s.pc[p].ParentWakeOne? ==> !Waiting(Step(s, p, c), p)
  {
    hide WlockOk;
    hide ScansOk;
    hide ExitsOk;
    hide WaitersOk;
    hide CountsOk;
    hide NextChan;
    hide NextParent;
    hide NextKilled;
    hide NextPlock;
    hide NextWlock;
    assert Fits(s, p);
    assert s.plock[p] == Some(p) <==> HoldsPlock(s.pc[p], p, p);
    hide PlockOk;
    hide StatesOk;
    hide ForksOk;
    hide InitOk;
  }

  /** How a process comes to wait, and is kept waiting. */
  lemma StepWaiting(s: System, p: nat, c: Call, r: nat)
    requires Inv(s) && p < |s.pc| && Enabled(s, p, c) && r < |s.pc|
    ensures Shaped(Step(s, p, c)) && |Step(s, p, c).pc| == |s.pc|
    ensures Waiting(Step(s, p, c), r) ==> Waiting(s, r) || (p == r && s.pc[p].SleepRelease?)
    ensures s.pc[p].InitWakeOne? && s.pc[p].k == r == s.init ==> !Waiting(Step(s, p, c), r)
    ensures s.pc[p].ParentWakeOne? && s.pc[p].k == r && s.parent[p] == Some(r) ==> !Waiting(Step(s, p, c), r)
  {
    hide Inv;
    hide Waiting;
    hide Enabled;
    hide NextPc;
    StepShapes(s, p, c);
    if r == p {
      WaitingOwn(s, p, c);
    } else {
      WaitingOther(s, p, c, r);
    }
  }

  lemma StepExit(s: System, p: nat, c: Call, q: nat, r: nat)
    requires Inv(s) && p < |s.pc| && Enabled(s, p, c) && q < |s.pc| && r < |s.pc|
    ensures Shaped(Step(s, p, c)) && |Step(s, p, c).pc| == |s.pc|
    ensures var t := Step(s, p, c);
            t.parent[q] == Some(r) && Waiting(t, r) ==>
              && !t.pc[q].ExitLock? && !t.pc[q].ExitZombie?
              && ((t.pc[q].ParentWake? || t.pc[q].ParentWakeOne?) ==> t.pc[q].k <= r)
  {
    hide PlockOk;
    hide ForksOk;
    hide ScansOk;
    hide WaitersOk;
    hide CountsOk;
    hide NextPc;
    hide NextState;
    hide NextChan;
    hide NextParent;
    hide NextKilled;
    hide NextPlock;
    hide NextWlock;
    hide Enabled;
    StepWaiting(s, p, c, r);
    assert s.wlock == Some(q) <==> HoldsWlock(s.pc[q]);
    assert s.wlock == Some(p) <==> HoldsWlock(s.pc[p]);
    assert Fits(s, r) && Fits(s, q);
    assert s.parent[q] == Some(r) && Waiting(s, r) ==> !s.pc[q].ExitLock? && !s.pc[q].ExitZombie?;
    if q != p {
      OtherPc(s, p, c, q);
      StepExitOther(s, p, c, q, r);
    } else {
      StepExitSelf(s, p, c);
    }
  }

  lemma StepExitOther(s: System, p: nat, c: Call, q: nat, r: nat)
    requires Inv(s) && p < |s.pc| && Enabled(s, p, c) && q < |s.pc| && r < |s.pc| && q != p
    requires s.wlock == Some(q) <==> HoldsWlock(s.pc[q])
    requires s.wlock == Some(p) <==> HoldsWlock(s.pc[p])
    ensures HoldsWlock(s.pc[q]) ==> |NextParent(s, p, c)| == |s.pc| && NextParent(s, p, c)[q] == s.parent[q] && !s.pc[p].SleepRelease?
  {
    hide WlockOk;
    hide PlockOk;
    hide StatesOk;
    hide ForksOk;
    hide ScansOk;
    hide ExitsOk;
    hide WaitersOk;
    hide CountsOk;
    hide Enabled;
    assert InRange(|s.pc|, s.pc[p]);
  }

  lemma StepExitSelf(s: System, p: nat, c: Call)
    requires Inv(s) && p < |s.pc| && Enabled(s, p, c)
    ensures var u := NextPc(s, p, c);
            u.ParentWake? || u.ParentWakeOne? || u.ExitLock? || u.ExitZombie? ==>
              && |NextParent(s, p, c)| == |s.pc| && (NextParent(s, p, c)[p] == s.parent[p] || u.ParentWake?)
              && (u == ParentWake(0) || s.pc[p].ParentWake? || s.pc[p].ParentWakeOne? || s.pc[p].ExitLock?)
              && (s.pc[p].ParentWake? ==> u == (if s.pc[p].k == |s.pc| then ExitLock else if s.pc[p].k == p then ParentWake(p + 1) else ParentWakeOne(s.pc[p].k)))
              && (s.pc[p].ParentWakeOne? ==> u == ParentWake(s.pc[p].k + 1))
              && (s.pc[p].ParentWake? || s.pc[p].ParentWakeOne? || s.pc[p].ExitLock? ==> NextParent(s, p, c)[p] == s.parent[p])
  {
    hide WlockOk;
    hide PlockOk;
    hide StatesOk;
    hide ForksOk;
    hide ScansOk;
    hide ExitsOk;
    hide WaitersOk;
    hide CountsOk;
  }

  lemma StepWaiter(s: System, p: nat, c: Call, i: nat, r: nat)
    requires Inv(s) && p < |s.pc| && Enabled(s, p, c) && i < |s.pc| && r < |s.pc|
    ensures Shaped(Step(s, p, c)) && |Step(s, p, c).pc| == |s.pc|
    ensures var t := Step(s, p, c);
            t.parent[i] == Some(r) && t.state[i].Zombie? && Waiting(t, r) ==> r == t.init && WillWakeInit(t)
  {
    StepWaiting(s, p, c, r);
    var t := Step(s, p, c);
    if t.parent[i] == Some(r) && t.state[i].Zombie? && Waiting(t, r) {
      ZombieChild(s, p, c, i, r);
      if Waiting(s, r) {
        KeepsWaking(s, p, c, i, r);
      } else {
        NoneLeft(s, r, i);
        assert false;
      }
    }
  }

  lemma NoneLeft(s: System, r: nat, i: nat)
    requires Inv(s) && r < |s.pc| && i < |s.pc| && s.pc[r].SleepRelease?
    ensures s.parent[i] == Some(r) ==> !s.state[i].Zombie?
  {
    assert i < Scanned(s.pc[r], |s.pc|);
  }

  /** How a process comes to have a zombie child that it waits for. */
  lemma ZombieChild(s: System, p: nat, c: Call, i: nat, r: nat)
    requires Inv(s) && p < |s.pc| && Enabled(s, p, c) && i < |s.pc| && r < |s.pc|
    requires Shaped(Step(s, p, c)) && |Step(s, p, c).pc| == |s.pc|
    requires Step(s, p, c).parent[i] == Some(r) && Step(s, p, c).state[i].Zombie? && Waiting(Step(s, p, c), r)
    requires Waiting(s, r) || (p == r && s.pc[p].SleepRelease?)
    ensures s.state[i].Zombie?
    ensures s.parent[i] == Some(r) || (s.pc[p].Reparent? && s.pc[p].i == i && r == s.init && NextPc(s, p, c) == InitWake(i, 0))
  {
    hide WlockOk;
    hide PlockOk;
    hide ScansOk;
    hide WaitersOk;
    hide CountsOk;
    hide NextChan;
    hide NextKilled;
    hide NextPlock;
    hide NextWlock;
    ForkSlot(s, p);
    assert Fits(s, i) && Fits(s, p);
    assert s.parent[p] == Some(r) && Waiting(s, r) ==> !s.pc[p].ExitZombie?;
  }

  /** Init, which waits with a zombie child before and after the step, is still about to be woken. */
  lemma KeepsWaking(s: System, p: nat, c: Call, i: nat, r: nat)
    requires Inv(s) && p < |s.pc| && Enabled(s, p, c) && i < |s.pc| && r < |s.pc|
    requires Shaped(Step(s, p, c)) && |Step(s, p, c).pc| == |s.pc|
    requires s.state[i].Zombie? && Waiting(s, r) && Waiting(Step(s, p, c), r)
    requires s.parent[i] == Some(r) || (s.pc[p].Reparent? && s.pc[p].i == i && r == s.init && NextPc(s, p, c) == InitWake(i, 0))
    requires s.pc[p].InitWakeOne? && s.pc[p].k == r == s.init ==> !Waiting(Step(s, p, c), r)
    ensures r == s.init && WillWakeInit(Step(s, p, c))
  {
    if s.parent[i] == Some(r) {
      assert r == s.init && WillWakeInit(s);
      var q := s.wlock.value;
      assert s.wlock == Some(p) <==> HoldsWlock(s.pc[p]);
      if q != p {
        OtherPc(s, p, c, q);
        WlockStays(s, p, c);
      } else {
        WakeGoesOn(s, p, c);
      }
    } else {
      assert s.wlock == Some(p) <==> HoldsWlock(s.pc[p]);
    }
  }

  lemma WlockStays(s: System, p: nat, c: Call)
    requires Shaped(s) && p < |s.pc| && Enabled(s, p, c) && s.wlock.Some? && !HoldsWlock(s.pc[p])
    ensures NextWlock(s, p) == s.wlock
  {
  }

  lemma WakeGoesOn(s: System, p: nat, c: Call)
    requires Shaped(s) && InitOk(s) && p < |s.pc| && Enabled(s, p, c)
    requires (s.pc[p].InitWake? || s.pc[p].InitWakeOne?) && s.pc[p].k <= s.init
    requires !(s.pc[p].InitWakeOne? && s.pc[p].k == s.init)
    ensures var u := NextPc(s, p, c); (u.InitWake? || u.InitWakeOne?) && u.k <= s.init
    ensures NextWlock(s, p) == s.wlock
  {
  }

  lemma StepCount(s: System, p: nat, c: Call, q: nat)
    requires Inv(s) && p < |s.pc| && Enabled(s, p, c) && q < |s.pc|
    ensures var t := Step(s, p, c);
            && |t.exits| == |t.reaps| == |t.state| == |s.pc|
            && t.exits[q] == t.reaps[q] + if t.state[q].Zombie? then 1 else 0
  {
    hide WlockOk;
    hide PlockOk;
    hide ScansOk;
    hide ExitsOk;
    hide WaitersOk;
    hide NextPc;
    hide NextChan;
    hide NextParent;
    hide NextKilled;
    hide NextPlock;
    hide NextWlock;
    ForkSlot(s, p);
    assert Fits(s, p);
  }

  lemma StepScans(s: System, p: nat, c: Call)
    requires Inv(s) && p < |s.pc| && Enabled(s, p, c)
    ensures Shaped(Step(s, p, c)) && ScansOk(Step(s, p, c)) && ExitsOk(Step(s, p, c)) && WaitersOk(Step(s, p, c))
  {
    hide Inv;
    hide NextPc;
    hide NextState;
    hide NextChan;
    hide NextParent;
    hide NextKilled;
    hide NextPlock;
    hide NextWlock;
    hide Scanned;
    hide Waiting;
    hide WillWakeInit;
    hide Enabled;
    StepShapes(s, p, c);
    var t := Step(s, p, c);
    forall q: nat, i: nat | q < |s.pc| && i < |s.pc|
      ensures i < Scanned(t.pc[q], |t.pc|) && t.parent[i] == Some(q) ==> !t.state[i].Zombie?
    {
      StepScan(s, p, c, q, i);
    }
    forall q: nat | q < |s.pc| && t.pc[q].Test? ensures t.parent[t.pc[q].i] == Some(q) {
      StepTest(s, p, c, q);
    }
    forall q: nat, r: nat | q < |s.pc| && r < |s.pc|
      ensures t.parent[q] == Some(r) && Waiting(t, r) ==>
                && !t.pc[q].ExitLock? && !t.pc[q].ExitZombie?
                && ((t.pc[q].ParentWake? || t.pc[q].ParentWakeOne?) ==> t.pc[q].k <= r)
      ensures t.parent[q] == Some(r) && t.state[q].Zombie? && Waiting(t, r) ==> r == t.init && WillWakeInit(t)
    {
      StepExit(s, p, c, q, r);
      StepWaiter(s, p, c, q, r);
    }
  }

  lemma StepShapes(s: System, p: nat, c: Call)
    requires Inv(s) && p < |s.pc| && Enabled(s, p, c)
    ensures Shaped(s) && Shaped(Step(s, p, c)) && |Step(s, p, c).pc| == |s.pc|
  {
    StepShaped(s, p, c);
  }

  lemma StepInit(s: System, p: nat, c: Call)
    requires Inv(s) && p < |s.pc| && Enabled(s, p, c)
    ensures Shaped(Step(s, p, c)) && InitOk(Step(s, p, c))
  {
    hide WlockOk;
    hide PlockOk;
    hide ScansOk;
    hide ExitsOk;
    hide WaitersOk;
    hide CountsOk;
    hide NextState;
    hide NextChan;
    hide NextParent;
    hide NextKilled;
    hide NextPlock;
    hide NextWlock;
    StepShaped(s, p, c);
    ForkSlot(s, p);
  }

  /** Every step of every process keeps the invariant. */
  lemma StepKeepsInv(s: System, p: nat, c: Call)
    requires Inv(s) && p < |s.pc| && Enabled(s, p, c)
    ensures Inv(Step(s, p, c))
  {
    hide NextPc;
    hide NextState;
    hide NextChan;
    hide NextParent;
    hide NextKilled;
    hide NextPlock;
    hide NextWlock;
    hide HoldsWlock;
    hide HoldsPlock;
    hide Fits;
    hide Scanned;
    hide Waiting;
    hide WillWakeInit;
    StepShaped(s, p, c);
    StepForks(s, p, c);
    var t := Step(s, p, c);
    forall q: nat | q < |s.pc|
      ensures t.wlock == Some(q) <==> HoldsWlock(t.pc[q])
      ensures Fits(t, q) && t.exits[q] == t.reaps[q] + if t.state[q].Zombie? then 1 else 0
    {
      StepWlock(s, p, c, q);
      StepFits(s, p, c, q);
      StepCount(s, p, c, q);
    }
    forall k: nat, q: nat | k < |s.pc| && q < |s.pc| ensures t.plock[k] == Some(q) <==> HoldsPlock(t.pc[q], q, k) {
      StepPlock(s, p, c, k, q);
    }
    StepScans(s, p, c);
    StepInit(s, p, c);
  }

  // ----- runs

  /** A run: at each point, which process takes a step, and which call it makes if it is idle. */
  datatype Move = Move(p: nat, c: Call)

  ghost predicate CanRun(s: System, run: seq<Move>)
    decreases |run|
  {
    run == [] ||
      (Shaped(s) && run[0].p < |s.pc| && Enabled(s, run[0].p, run[0].c) && CanRun(Step(s, run[0].p, run[0].c), run[1..]))
  }

  ghost function Run(s: System, run: seq<Move>): System
    requires CanRun(s, run)
    decreases |run|
  {
    if run == [] then s else Run(Step(s, run[0].p, run[0].c), run[1..])
  }

  /** The table at boot: init runs, and all other slots are unused. */
  function Boot(n: nat, init: nat): System {
    System(init, seq(n, p => if p == init then Idle else Dead), seq(n, p => if p == init then Runnable else Unused),
           seq(n, _ => None), seq(n, _ => None), seq(n, _ => false), seq(n, _ => None), None, seq(n, _ => 0), seq(n, _ => 0))
  }

  lemma BootInv(n: nat, init: nat)
    requires init < n
    ensures Inv(Boot(n, init))
  {
    hide HoldsWlock;
    hide HoldsPlock;
    NoneHeld(Idle);
    NoneHeld(Dead);
  }

  lemma NoneHeld(pc: PC)
    requires pc.Idle? || pc.Dead?
    ensures !HoldsWlock(pc) && forall p: nat, k: nat :: !HoldsPlock(pc, p, k)
  {
  }

  lemma {:induction false} RunKeepsInv(s: System, run: seq<Move>)
    requires Inv(s) && CanRun(s, run)
    ensures Inv(Run(s, run))
    decreases |run|
  {
    if run != [] {
      StepKeepsInv(s, run[0].p, run[0].c);
      RunKeepsInv(Step(s, run[0].p, run[0].c), run[1..]);
    }
  }

  /**
   * After any run from boot, while wait_lock is free no process sleeps in wait, or is on the way to,
   * that has a zombie child, be it its own or one that exit gave to init.
   */
  lemma NoZombieMissed(n: nat, init: nat, run: seq<Move>, p: nat, i: nat)
    requires init < n && CanRun(Boot(n, init), run)
    requires var s := Run(Boot(n, init), run);
             Shaped(s) && p < |s.pc| && i < |s.pc| && s.wlock.None? && s.parent[i] == Some(p) && s.state[i].Zombie?
    ensures !Waiting(Run(Boot(n, init), run), p)
  {
    BootInv(n, init);
    RunKeepsInv(Boot(n, init), run);
  }

  /** After any run, each exit has been reaped at most once: exactly once unless its zombie is there. */
  lemma ReapedOnce(n: nat, init: nat, run: seq<Move>, p: nat)
    requires init < n && CanRun(Boot(n, init), run) && p < |Run(Boot(n, init), run).pc|
    ensures var s := Run(Boot(n, init), run);
            && Shaped(s) && s.reaps[p] <= s.exits[p] <= s.reaps[p] + 1
            && (s.exits[p] == s.reaps[p] <==> !s.state[p].Zombie?)
  {
    BootInv(n, init);
    RunKeepsInv(Boot(n, init), run);
  }

  /** wait frees only its own zombie children, which run no more and hold no lock. */
  lemma ReapsOwnChild(s: System, p: nat, c: Call)
    requires Inv(s) && p < |s.pc| && Enabled(s, p, c) && Frees(s, p, c)
    ensures s.parent[s.pc[p].i] == Some(p) && s.pc[s.pc[p].i].Dead? && s.wlock == Some(p) && s.plock[s.pc[p].i] == Some(p)
  {
    var i := s.pc[p].i;
    assert Fits(s, i) && Fits(s, p);
    assert s.plock[i] == Some(p) <==> HoldsPlock(s.pc[p], p, i);
    assert s.plock[i] == Some(i) <==> HoldsPlock(s.pc[i], i, i);
    assert s.wlock == Some(p) <==> HoldsWlock(s.pc[p]);
  }
}
