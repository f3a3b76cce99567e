/**
 * The log and the buffer cache as one transition system: file system operations, readers, the
 * committer, eviction, crashes and recovery, interleaved one disk write or cache event at a time.
 */
module Storage {
  import opened Basics
  import opened BlockDisk
  import opened LogFormat

  /** users counts bget references not yet given back, pins those taken by log_write. */
  datatype Slot = Slot(data: Block, holder: Option<nat>, users: nat, pins: nat, dirty: bool)

  type Cache = map<int, Slot>

  /** Where the one committer, or the recovery at boot, stands. */
  datatype Phase =
    | Normal
    | Logging(logged: nat)
    | Installing(installed: nat)
    | Boot
    | Replaying(replayed: nat)

  /** ops maps each process inside begin_op..end_op to the number of blocks it has added to lh. */
  datatype State = State(disk: Image, cache: Cache, lh: seq<int>, ops: map<nat, nat>, phase: Phase) {
    predicate Booting() { phase.Boot? || phase.Replaying? }
  }

  datatype Action =
    | BeginOp(p: nat)
    | EndOp(p: nat)
    | Get(b: nat)
    | Lock(p: nat, b: nat)
    | Modify(p: nat, b: nat, data: Block)
    | LogWrite(p: nat, b: nat)
    | Release(p: nat, b: nat)
    | Evict(b: nat)
    | WriteSlot
    | WriteHead
    | InstallOne
    | ClearHead
    | Crash
    | ReadHead
    | ReplayOne
    | ReplayDone

  function View(disk: Image, cache: Cache): (v: Image)
    ensures |v| == |disk|
  {
    seq(|disk|, b requires 0 <= b < |disk| => if b in cache then cache[b].data else disk[b])
  }

  /** A disk write goes through the block's buffer, if it has one. */
  function Through(s: State, b: nat, data: Block): State
    requires b < |s.disk|
  {
    s.(disk := s.disk[b := data],
       cache := if b in s.cache then s.cache[b := s.cache[b].(data := data)] else s.cache)
  }

  predicate HeldBy(s: State, p: nat, b: nat) {
    b in s.cache && s.cache[b].holder == Some(p)
  }

  /** log_write's two size tests. */
  predicate LogFull(l: Layout, n: nat) { n >= LOGSIZE || n >= l.size - 1 }

  // ----- the operations of file system calls

  predicate CanBegin(s: State, p: nat) {
    s.phase.Normal? && p !in s.ops && |s.lh| + (|s.ops| + 1) * MAXOPBLOCKS <= LOGSIZE
  }

  /** An operation ends holding no buffer; the last one to end commits. */
  predicate CanEnd(s: State, p: nat) {
    p in s.ops && forall b :: b in s.cache ==> s.cache[b].holder != Some(p)
  }

  function AfterEnd(s: State, p: nat): State {
    s.(ops := s.ops - {p}, phase := if |s.ops| == 1 && s.lh != [] then Logging(0) else s.phase)
  }

  function AfterGet(s: State, b: nat): State
    requires b < |s.disk|
  {
    s.(cache := s.cache[b := if b in s.cache then s.cache[b].(users := s.cache[b].users + 1)
                             else Slot(s.disk[b], None, 1, 0, false)])
  }

  /** Blocks are modified, and logged, by operations, each adding at most MAXOPBLOCKS blocks. */
  predicate CanLogWrite(l: Layout, s: State, p: nat, b: nat) {
    && HeldBy(s, p, b) && p in s.ops && b < |s.disk| && !l.InLog(b)
    && !LogFull(l, |s.lh|)
    && (b in s.lh || s.ops[p] < MAXOPBLOCKS)
  }

  function AfterLogWrite(s: State, p: nat, b: nat): State
    requires b in s.cache && p in s.ops
  {
    if b in s.lh then
      s.(cache := s.cache[b := s.cache[b].(dirty := false)])
    else
      s.(cache := s.cache[b := s.cache[b].(dirty := false, pins := s.cache[b].pins + 1)],
         lh := s.lh + [b],
         ops := s.ops[p := s.ops[p] + 1])
  }

  // ----- the committer

  function AfterWriteSlot(l: Layout, s: State, k: nat): State
    requires k < |s.lh| && s.lh[k] in s.cache && l.start + 1 + k < |s.disk|
  {
    Through(s, l.start + 1 + k, s.cache[s.lh[k]].data).(phase := Logging(k + 1))
  }

  function AfterWriteHead(l: Layout, s: State): State
    requires l.start < |s.disk| && |s.lh| <= LOGSIZE
  {
    Through(s, l.start, EncodeHead(s.disk[l.start], s.lh)).(phase := Installing(0))
  }

  function AfterInstall(l: Layout, s: State, k: nat): State
    requires k < |s.lh| && 0 <= s.lh[k] < |s.disk| && s.lh[k] in s.cache && s.cache[s.lh[k]].pins > 0
    requires l.start + 1 + k < |s.disk|
  {
    var t := Through(s, s.lh[k], s.disk[l.start + 1 + k]);
    var b := t.cache[s.lh[k]];
    t.(cache := t.cache[s.lh[k] := b.(pins := b.pins - 1)], phase := Installing(k + 1))
  }

  function AfterClear(l: Layout, s: State): State
    requires l.start < |s.disk|
  {
    Through(s, l.start, EncodeHead(s.disk[l.start], [])).(lh := [], phase := Normal)
  }

  predicate Next(l: Layout, s: State, a: Action, s': State) {
    match a
    case BeginOp(p) => CanBegin(s, p) && s' == s.(ops := s.ops[p := 0])
    case EndOp(p) => CanEnd(s, p) && s' == AfterEnd(s, p)
    case Get(b) => b < |s.disk| && s' == AfterGet(s, b)
    case Lock(p, b) =>
      b in s.cache && s.cache[b].users > 0 && s.cache[b].holder == None
      && s' == s.(cache := s.cache[b := s.cache[b].(holder := Some(p))])
    case Modify(p, b, data) =>
      HeldBy(s, p, b) && p in s.ops && b < |s.disk| && !l.InLog(b)
      && s' == s.(cache := s.cache[b := s.cache[b].(data := data, dirty := true)])
    case LogWrite(p, b) => CanLogWrite(l, s, p, b) && s' == AfterLogWrite(s, p, b)
    case Release(p, b) =>
      HeldBy(s, p, b) && !s.cache[b].dirty && s.cache[b].users > 0
      && s' == s.(cache := s.cache[b := s.cache[b].(holder := None, users := s.cache[b].users - 1)])
    case Evict(b) =>
      b in s.cache && s.cache[b].users == 0 && s.cache[b].pins == 0 && s' == s.(cache := s.cache - {b})
    case WriteSlot =>
      s.phase.Logging? && var k := s.phase.logged;
      k < |s.lh| && s.lh[k] in s.cache && l.start + 1 + k < |s.disk| && s' == AfterWriteSlot(l, s, k)
    case WriteHead =>
      s.phase == Logging(|s.lh|) && l.start < |s.disk| && |s.lh| <= LOGSIZE && s' == AfterWriteHead(l, s)
    case InstallOne =>
      s.phase.Installing? && var k := s.phase.installed;
      k < |s.lh| && 0 <= s.lh[k] < |s.disk| && s.lh[k] in s.cache && s.cache[s.lh[k]].pins > 0
      && l.start + 1 + k < |s.disk| && s' == AfterInstall(l, s, k)
    case ClearHead =>
      s.phase == Installing(|s.lh|) && l.start < |s.disk| && s' == AfterClear(l, s)
    case Crash => s' == State(s.disk, map[], [], map[], Boot)
    case ReadHead =>
      s.phase.Boot? && l.start < |s.disk| && HeadOk(s.disk[l.start])
      && s' == s.(lh := HeadTargets(s.disk[l.start]), phase := Replaying(0))
    case ReplayOne =>
      s.phase.Replaying? && var k := s.phase.replayed;
      k < |s.lh| && 0 <= s.lh[k] < |s.disk| && l.start + 1 + k < |s.disk|
      && s' == Through(s, s.lh[k], s.disk[l.start + 1 + k]).(phase := Replaying(k + 1))
    case ReplayDone =>
      s.phase == Replaying(|s.lh|) && l.start < |s.disk| && s' == AfterClear(l, s)
  }

  // ----- the specification: one durable and one current image

  datatype Spec = Spec(durable: Image, current: Image, open: set<nat>)

  /** What a file system built on the log may rely on. */
  predicate SpecNext(x: Spec, a: Action, y: Spec) {
    match a
    case BeginOp(p) => p !in x.open && y == x.(open := x.open + {p})
    case EndOp(p) => p in x.open && y == x.(open := x.open - {p})
    case Modify(p, b, data) =>
      p in x.open && b < |x.current| && y == x.(current := x.current[b := data])
    case WriteHead => x.open == {} && y == x.(durable := x.current)
    case Crash => y == Spec(x.durable, x.durable, {})
    case _ => y == x
  }

  // ----- the invariant

  /** The logged blocks not yet installed: each has one pin. */
  function Pinned(s: State): seq<int> {
    match s.phase
    case Normal | Logging(_) => s.lh
    case Installing(k) => if k <= |s.lh| then s.lh[k..] else []
    case _ => []
  }

  /** A buffer whose data differs from the disk's is pinned, or locked by the operation changing it. */
  predicate SlotOk(l: Layout, s: State, b: int)
    requires b in s.cache && 0 <= b < |s.disk|
  {
    var c := s.cache[b];
    && (c.holder.Some? ==> c.users > 0)
    && (c.pins == if b in Pinned(s) then 1 else 0)
    && (c.dirty ==> c.holder.Some? && c.holder.value in s.ops && !l.InLog(b))
    && (c.data != s.disk[b] ==> b in Pinned(s) || c.dirty)
  }

  predicate CacheOk(l: Layout, s: State) {
    && (forall b :: b in s.cache ==> 0 <= b < |s.disk| && SlotOk(l, s, b))
    && (forall i :: 0 <= i < |Pinned(s)| ==> Pinned(s)[i] in s.cache)
  }

  predicate PhaseOk(l: Layout, s: State)
    requires l.Fits(s.disk) && Loggable(l, |s.disk|, s.lh)
  {
    var v := View(s.disk, s.cache);
    match s.phase
    case Normal => s.disk[l.start][0] == 0 && (s.ops == map[] ==> s.lh == [])
    case Logging(k) =>
      && k <= |s.lh| && s.ops == map[] && s.disk[l.start][0] == 0
      && forall i :: 0 <= i < k ==> s.disk[l.start + 1 + i] == v[s.lh[i]]
    case Installing(k) =>
      && k <= |s.lh| && s.ops == map[]
      && HeadOk(s.disk[l.start]) && HeadTargets(s.disk[l.start]) == s.lh
      && forall i :: 0 <= i < |s.lh| ==> s.disk[l.start + 1 + i] == v[s.lh[i]]
    case Boot => s.ops == map[] && s.lh == []
    case Replaying(k) =>
      && k <= |s.lh| && s.ops == map[]
      && HeadOk(s.disk[l.start]) && HeadTargets(s.disk[l.start]) == s.lh
      && forall i :: 0 <= i < k ==> s.disk[s.lh[i]] == s.disk[l.start + 1 + i]
  }

  /** The blocks added by open operations, all together. */
  ghost function Added(ops: map<nat, nat>): nat {
    if ops == map[] then 0
    else
      var p :| p in ops;
      ops[p] + Added(ops - {p})
  }

  /** The log has room for what it holds and for the rest of every open operation's reservation. */
  ghost predicate Reserved(s: State) {
    && (forall p :: p in s.ops ==> s.ops[p] <= MAXOPBLOCKS)
    && |s.lh| + |s.ops| * MAXOPBLOCKS <= LOGSIZE + Added(s.ops)
  }

  ghost predicate Inv(l: Layout, s: State) {
    && GoodLog(l, s.disk) && Loggable(l, |s.disk|, s.lh)
    && CacheOk(l, s) && PhaseOk(l, s) && Reserved(s)
  }

  function Abs(l: Layout, s: State): Spec
    requires GoodLog(l, s.disk)
  {
    var durable := Committed(l, s.disk);
    Spec(durable, if s.Booting() then durable else Home(l, View(s.disk, s.cache)), s.ops.Keys)
  }
}
