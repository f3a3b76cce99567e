/** The shared queue of the virtio disk: descriptors, the avail ring and the used ring (Virtio 1.1, sections 2.6 and 5.2). */
module VirtioQueue {
  import opened Basics

  const NUM := 8
  const WRAP := 0x1_0000

  /** What a descriptor points to: nothing, a request header, the data of a buffer, or a status byte. */
  datatype Target = Nowhere | Header(i: nat) | Data(buf: nat) | Status(i: nat)

  /** hasNext and devWrites are the flags VRING_DESC_F_NEXT and VRING_DESC_F_WRITE. */
  datatype Desc = Desc(addr: Target, len: nat, hasNext: bool, devWrites: bool, next: nat)

  const EMPTY := Desc(Nowhere, 0, false, false, 0)

  datatype Op = Op(write: bool, sector: nat)

  datatype Info = Info(b: Option<nat>, status: nat)

  /** A descriptor's place: the head of its chain, and 0, 1 or 2. */
  datatype Place = Unused | In(head: nat, pos: nat)

  /** A request is offered to the device, taken by it, posted as completed, and done once the driver has seen that. */
  datatype Phase = Offered | Taken | Posted | Done

  datatype Chain = Chain(second: nat, third: nat, buf: nat, write: bool, sector: nat, phase: Phase)

  /**
   * The memory that driver and device share, the driver's own records, and the request behind each
   * chain. devIdx is how far the device has read avail; seen, how far the driver has read used.
   * at names, for a descriptor in use, the head of its chain and its place there.
   */
  datatype Queue = Queue(free: seq<bool>, desc: seq<Desc>, ops: seq<Op>, info: seq<Info>,
                         avail: seq<nat>, availIdx: nat, devIdx: nat, used: seq<nat>, usedIdx: nat, seen: nat,
                         busy: map<nat, bool>, chains: map<nat, Chain>, at: seq<Place>,
                         offered: seq<nat>, posted: seq<nat>)

  /** The ring entry k places on from index idx. */
  function Slot(idx: nat, k: nat): (r: nat)
    ensures r < NUM
  {
    (idx + k) % WRAP % NUM
  }

  function Member(h: nat, c: Chain, place: nat): nat {
    if place == 0 then h else if place == 1 then c.second else c.third
  }

  ghost predicate Sized(s: Queue) {
    && |s.free| == |s.desc| == |s.ops| == |s.info| == |s.avail| == |s.used| == |s.at| == NUM
    && s.availIdx < WRAP && s.devIdx < WRAP && s.usedIdx < WRAP && s.seen < WRAP
  }

  /** Every descriptor is free, or in exactly one place of one chain. */
  ghost predicate ChainsOk(s: Queue)
    requires Sized(s)
  {
    && (forall i :: 0 <= i < NUM ==> (s.free[i] <==> s.at[i].Unused?))
    && (forall i :: 0 <= i < NUM && s.at[i].In? ==>
          s.at[i].head in s.chains && s.at[i].pos < 3 && Member(s.at[i].head, s.chains[s.at[i].head], s.at[i].pos) == i)
    && (forall h :: h in s.chains ==>
          var c := s.chains[h];
          && h < NUM && c.second < NUM && c.third < NUM
          && s.at[h] == In(h, 0) && s.at[c.second] == In(h, 1) && s.at[c.third] == In(h, 2))
  }

  /** What the device finds by following the chain from h is the request. */
  ghost predicate Written(s: Queue, h: nat, c: Chain)
    requires Sized(s) && h < NUM && c.second < NUM && c.third < NUM
  {
    && s.ops[h] == Op(c.write, c.sector)
    && s.desc[h] == Desc(Header(h), 16, true, false, c.second)
    && s.desc[c.second] == Desc(Data(c.buf), 1024, true, !c.write, c.third)
    && s.desc[c.third] == Desc(Status(h), 1, false, true, 0)
    && s.info[h].b == Some(c.buf)
  }

  ghost predicate DescOk(s: Queue)
    requires Sized(s) && ChainsOk(s)
  {
    && (forall h :: h in s.chains ==> Written(s, h, s.chains[h]))
    && (forall i :: 0 <= i < NUM && s.free[i] ==> s.desc[i] == EMPTY)
  }

  /** No two requests share a buffer, and a buffer is busy until its request is done. */
  ghost predicate BufsOk(s: Queue) {
    && (forall h :: h in s.chains ==>
          s.chains[h].buf in s.busy && (s.busy[s.chains[h].buf] <==> !s.chains[h].phase.Done?))
    && (forall g, h :: g in s.chains && h in s.chains && s.chains[g].buf == s.chains[h].buf ==> g == h)
  }

  /** The ring from index idx on holds the heads of the chains that are in the given phase, each once. */
  ghost predicate RingOk(ring: seq<nat>, idx: nat, heads: seq<nat>, chains: map<nat, Chain>, phase: Phase)
    requires |ring| == NUM
  {
    && |heads| <= NUM
    && (forall k :: 0 <= k < |heads| ==> ring[Slot(idx, k)] == heads[k])
    && (forall k :: 0 <= k < |heads| ==> heads[k] in chains && chains[heads[k]].phase == phase)
    && (forall j, k :: 0 <= j < k < |heads| ==> heads[j] != heads[k])
    && (forall h :: h in chains && chains[h].phase == phase ==> h in heads)
  }

  ghost function FreeSet(s: Queue): set<nat>
    requires Sized(s)
  {
    set i: nat | i < NUM && s.free[i]
  }

  ghost predicate Good(s: Queue) {
    && Sized(s) && ChainsOk(s) && DescOk(s) && BufsOk(s)
    && RingOk(s.avail, s.devIdx, s.offered, s.chains, Offered) && s.availIdx == (s.devIdx + |s.offered|) % WRAP
    && RingOk(s.used, s.seen, s.posted, s.chains, Posted) && s.usedIdx == (s.seen + |s.posted|) % WRAP
    && (forall h :: h in s.chains && s.chains[h].phase.Posted? && h < NUM ==> s.info[h].status == 0)
    && |FreeSet(s)| + 3 * |s.chains| == NUM
  }

  // ----- ring arithmetic

  lemma SlotOf(idx: nat, n: nat)
    ensures (idx + n) % WRAP % NUM == Slot(idx, n)
  {
  }

  /** Eight consecutive indices, also past the wrap of the 16-bit index, are eight different slots. */
  lemma SlotsDiffer(idx: nat, j: nat, k: nat)
    requires j < k < j + NUM
    ensures Slot(idx, j) != Slot(idx, k)
  {
    WrapMultiple(idx + j);
    WrapMultiple(idx + k);
    assert k - j < NUM;
    Residues(idx + j, k - j);
  }

  lemma Residues(x: nat, d: nat)
    requires 0 < d < NUM
    ensures x % NUM != (x + d) % NUM
  {
  }

  lemma WrapMultiple(x: nat)
    ensures x % WRAP % NUM == x % NUM
  {
    var q := x / WRAP;
    assert x == 8 * (8192 * q) + x % WRAP;
    EightsAside(8192 * q, x % WRAP);
  }

  lemma SlotShift(idx: nat, k: nat)
    ensures Slot((idx + 1) % WRAP, k) == Slot(idx, k + 1)
  {
    WrapMultiple((idx + 1) % WRAP + k);
    WrapMultiple(idx + (k + 1));
    WrapMultiple(idx + 1);
  }

  // ----- counting

  lemma {:induction false} DistinctInSet(heads: seq<nat>, dom: set<nat>)
    requires forall k :: 0 <= k < |heads| ==> heads[k] in dom
    requires forall j, k :: 0 <= j < k < |heads| ==> heads[j] != heads[k]
    ensures |heads| <= |dom|
    decreases |heads|
  {
    if heads != [] {
      var last := heads[|heads| - 1];
      DistinctInSet(heads[..|heads| - 1], dom - {last});
    }
  }

  /** Eight descriptors carry two requests at most, so neither ring can ever fill up. */
  lemma AtMostTwo(s: Queue)
    requires Good(s)
    ensures |s.chains| <= 2 && |s.offered| <= 2 && |s.posted| <= 2
  {
    DistinctInSet(s.offered, s.chains.Keys);
    DistinctInSet(s.posted, s.chains.Keys);
    assert |s.chains.Keys| == |s.chains|;
  }

  /** The device, reading the next entry of avail and following its chain, finds the oldest request offered. */
  lemma DeviceReadsRequest(s: Queue)
    requires Good(s) && s.devIdx != s.availIdx
    ensures s.offered != [] && s.avail[s.devIdx % NUM] == s.offered[0]
    ensures var h := s.avail[s.devIdx % NUM];
            h in s.chains && h < NUM && s.chains[h].phase == Offered
            && s.desc[h].addr == Header(h) && s.ops[h] == Op(s.chains[h].write, s.chains[h].sector)
            && s.desc[h].next < NUM && s.desc[s.desc[h].next].addr == Data(s.chains[h].buf)
            && s.desc[s.desc[h].next].devWrites == !s.chains[h].write
  {
    hide Slot;
    hide Written;
    FirstSlot(s.devIdx);
    hide FreeSet;
    hide BufsOk;
    RequestWritten(s, s.offered[0]);
  }

  lemma FirstSlot(idx: nat)
    requires idx < WRAP
    ensures Slot(idx, 0) == idx % NUM
  {
  }

  lemma RequestWritten(s: Queue, h: nat)
    requires Good(s) && h in s.chains
    ensures h < NUM && s.desc[h].addr == Header(h) && s.ops[h] == Op(s.chains[h].write, s.chains[h].sector)
    ensures s.desc[h].next < NUM && s.desc[s.desc[h].next].addr == Data(s.chains[h].buf)
    ensures s.desc[s.desc[h].next].devWrites == !s.chains[h].write
  {
    hide RingOk;
    hide FreeSet;
    hide BufsOk;
    assert Written(s, h, s.chains[h]);
  }

  // ----- what driver and device do

  function Set3<T>(q: seq<T>, i: nat, j: nat, k: nat, x: T, y: T, z: T): seq<T>
    requires i < |q| && j < |q| && k < |q|
  {
    q[i := x][j := y][k := z]
  }

  lemma Set3At<T>(q: seq<T>, i: nat, j: nat, k: nat, x: T, y: T, z: T)
    requires i < |q| && j < |q| && k < |q| && i != j && i != k && j != k
    ensures var r := Set3(q, i, j, k, x, y, z);
            && |r| == |q| && r[i] == x && r[j] == y && r[k] == z
            && forall u {:trigger r[u]} :: 0 <= u < |q| && u != i && u != j && u != k ==> r[u] == q[u]
  {
  }

  /** A request for buf in descriptors i, j and k, which were free. */
  ghost function Submitted(s: Queue, i: nat, j: nat, k: nat, buf: nat, write: bool, sector: nat): Queue
    requires Sized(s) && i < NUM && j < NUM && k < NUM
  {
    s.(free := Set3(s.free, i, j, k, false, false, false),
       desc := Set3(s.desc, i, j, k, Desc(Header(i), 16, true, false, j), Desc(Data(buf), 1024, true, !write, k),
                    Desc(Status(i), 1, false, true, 0)),
       ops := s.ops[i := Op(write, sector)],
       info := s.info[i := Info(Some(buf), 0xff)],
       avail := s.avail[s.availIdx % NUM := i],
       availIdx := (s.availIdx + 1) % WRAP,
       busy := s.busy[buf := true],
       chains := s.chains[i := Chain(j, k, buf, write, sector, Offered)],
       at := Set3(s.at, i, j, k, In(i, 0), In(i, 1), In(i, 2)),
       offered := s.offered + [i])
  }

  ghost predicate CanSubmit(s: Queue, i: nat, j: nat, k: nat, buf: nat) {
    && Good(s) && i < NUM && j < NUM && k < NUM && i != j && i != k && j != k
    && s.free[i] && s.free[j] && s.free[k]
    && forall h :: h in s.chains ==> s.chains[h].buf != buf
  }

  /** The request that was asked for, and no other, stands in the three descriptors and is next in avail. */
  lemma SubmittedRequest(s: Queue, i: nat, j: nat, k: nat, buf: nat, write: bool, sector: nat)
    requires Sized(s) && i < NUM && j < NUM && k < NUM && i != j && i != k && j != k
    ensures var t := Submitted(s, i, j, k, buf, write, sector);
            && Sized(t) && t.ops[i] == Op(write, sector) && t.info[i] == Info(Some(buf), 0xff)
            && t.desc[i] == Desc(Header(i), 16, true, false, j)
            && t.desc[j] == Desc(Data(buf), 1024, true, !write, k)
            && t.desc[k] == Desc(Status(i), 1, false, true, 0)
            && t.avail[s.availIdx % NUM] == i && t.availIdx == (s.availIdx + 1) % 0x1_0000
            && t.chains == s.chains[i := Chain(j, k, buf, write, sector, Offered)]
            && t.busy == s.busy[buf := true] && t.offered == s.offered + [i]
            && forall u :: 0 <= u < NUM ==> t.free[u] == (s.free[u] && u != i && u != j && u != k)
  {
    Set3At(s.free, i, j, k, false, false, false);
    Set3At(s.desc, i, j, k, Desc(Header(i), 16, true, false, j), Desc(Data(buf), 1024, true, !write, k),
           Desc(Status(i), 1, false, true, 0));
    hide Set3;
  }

  lemma CanSubmitSized(s: Queue, i: nat, j: nat, k: nat, buf: nat)
    requires CanSubmit(s, i, j, k, buf)
    ensures Sized(s) && i < NUM && j < NUM && k < NUM && i != j && i != k && j != k
  {
  }

  /** The device reads the next avail entry. */
  ghost function TakenBy(s: Queue): Queue
    requires s.offered != [] && s.offered[0] in s.chains
  {
    s.(devIdx := (s.devIdx + 1) % WRAP,
       chains := s.chains[s.offered[0] := s.chains[s.offered[0]].(phase := Taken)],
       offered := s.offered[1..])
  }

  /** The device posts the completion of request h, in any order it likes. */
  ghost function PostedBy(s: Queue, h: nat): Queue
    requires Sized(s) && h in s.chains && h < NUM
  {
    s.(used := s.used[s.usedIdx % NUM := h],
       usedIdx := (s.usedIdx + 1) % WRAP,
       info := s.info[h := s.info[h].(status := 0)],
       chains := s.chains[h := s.chains[h].(phase := Posted)],
       posted := s.posted + [h])
  }

  /** The driver sees the oldest completion posted. */
  ghost function SeenBy(s: Queue): Queue
    requires s.posted != [] && s.posted[0] in s.chains
  {
    var c := s.chains[s.posted[0]];
    s.(seen := (s.seen + 1) % WRAP,
       busy := s.busy[c.buf := false],
       chains := s.chains[s.posted[0] := c.(phase := Done)],
       posted := s.posted[1..])
  }

  /** The chain of a request that is done is given back. */
  ghost function Finished(s: Queue, h: nat): Queue
    requires Sized(s) && h in s.chains && h < NUM && s.chains[h].second < NUM && s.chains[h].third < NUM
  {
    var j, k := s.chains[h].second, s.chains[h].third;
    s.(free := Set3(s.free, h, j, k, true, true, true),
       desc := Set3(s.desc, h, j, k, EMPTY, EMPTY, EMPTY),
       info := s.info[h := s.info[h].(b := None)],
       chains := s.chains - {h},
       at := Set3(s.at, h, j, k, Unused, Unused, Unused))
  }

  lemma AllFree(s: Queue)
    requires Sized(s) && (forall i :: 0 <= i < NUM ==> s.free[i] && s.desc[i] == EMPTY && s.at[i].Unused?)
    requires s.chains == map[] && s.offered == [] && s.posted == []
    requires s.availIdx == s.devIdx && s.usedIdx == s.seen
    ensures Good(s)
  {
    AllCounted(s);
    hide FreeSet;
    hide Slot;
  }

  lemma AllCounted(s: Queue)
    requires Sized(s) && forall i :: 0 <= i < NUM ==> s.free[i]
    ensures |FreeSet(s)| == NUM
  {
    assert FreeSet(s) == {0, 1, 2, 3, 4, 5, 6, 7};
  }

  /** Descriptors that make up all free ones are no fewer than those. */
  lemma FewFree(s: Queue, idx: seq<nat>)
    requires Sized(s) && |idx| < 3 && forall i: nat :: i < NUM && s.free[i] ==> i in idx
    ensures |FreeSet(s)| < 3
  {
    var all := if idx == [] then {} else if |idx| == 1 then {idx[0]} else {idx[0], idx[1]};
    assert FreeSet(s) <= all;
    SubsetSize(FreeSet(s), all);
  }

  // ----- rings

  lemma RingPush(ring: seq<nat>, idx: nat, heads: seq<nat>, chains: map<nat, Chain>, phase: Phase, h: nat, c: Chain)
    requires |ring| == NUM && RingOk(ring, idx, heads, chains, phase) && |heads| < NUM
    requires c.phase == phase && (h in chains ==> chains[h].phase != phase)
    ensures RingOk(ring[Slot(idx, |heads|) := h], idx, heads + [h], chains[h := c], phase)
  {
    hide Slot;
    forall k | 0 <= k < |heads| ensures Slot(idx, k) != Slot(idx, |heads|) {
      SlotsDiffer(idx, k, |heads|);
    }
    assert h !in heads;
    assert (heads + [h])[|heads|] == h;
  }

  lemma RingPop(ring: seq<nat>, idx: nat, heads: seq<nat>, chains: map<nat, Chain>, phase: Phase, c: Chain)
    requires |ring| == NUM && RingOk(ring, idx, heads, chains, phase) && heads != [] && c.phase != phase
    ensures RingOk(ring, (idx + 1) % WRAP, heads[1..], chains[heads[0] := c], phase)
  {
    hide Slot;
    forall k | 0 <= k < |heads| - 1 ensures ring[Slot((idx + 1) % WRAP, k)] == heads[1..][k] {
      SlotShift(idx, k);
    }
    forall h | h in heads && h != heads[0] ensures h in heads[1..] {
    }
  }

  lemma RingSame(ring: seq<nat>, idx: nat, heads: seq<nat>, x: map<nat, Chain>, y: map<nat, Chain>, phase: Phase)
    requires |ring| == NUM && RingOk(ring, idx, heads, x, phase)
    requires forall h :: (h in x && x[h].phase == phase) <==> (h in y && y[h].phase == phase)
    ensures RingOk(ring, idx, heads, y, phase)
  {
    hide Slot;
  }

  // ----- each keeps the queue good

  /** Descriptors that were free are in no chain. */
  lemma FreeInNoChain(s: Queue, i: nat, h: nat)
    requires Sized(s) && ChainsOk(s) && i < NUM && s.free[i] && h in s.chains
    ensures h < NUM && s.chains[h].second < NUM && s.chains[h].third < NUM
    ensures i != h && i != s.chains[h].second && i != s.chains[h].third
    ensures h != s.chains[h].second && h != s.chains[h].third && s.chains[h].second != s.chains[h].third
  {
    assert s.at[i].Unused?;
  }

  lemma FreeEmpty(s: Queue)
    requires Good(s)
    ensures Sized(s) && forall i :: 0 <= i < NUM && s.free[i] ==> s.desc[i] == EMPTY
  {
    hide ChainsOk;
    hide RingOk;
    hide BufsOk;
    hide FreeSet;
  }

  lemma SubmittedSized(s: Queue, i: nat, j: nat, k: nat, buf: nat, write: bool, sector: nat)
    requires CanSubmit(s, i, j, k, buf)
    ensures Sized(Submitted(s, i, j, k, buf, write, sector)) && i !in s.chains
  {
    hide DescOk;
    hide BufsOk;
    hide RingOk;
    hide FreeSet;
    assert s.at[i].Unused?;
  }

  /** Every place in use is one of a chain, also in the new one. */
  lemma SubmittedPlace(s: Queue, i: nat, j: nat, k: nat, buf: nat, write: bool, sector: nat, x: nat)
    requires CanSubmit(s, i, j, k, buf) && x < NUM
    ensures var t := Submitted(s, i, j, k, buf, write, sector);
            && Sized(t)
            && (t.at[x].In? ==>
                  && t.at[x].head in t.chains && t.at[x].pos < 3
                  && Member(t.at[x].head, t.chains[t.at[x].head], t.at[x].pos) == x)
  {
    hide DescOk;
    hide BufsOk;
    hide RingOk;
    hide FreeSet;
    hide Set3;
    SubmittedSized(s, i, j, k, buf, write, sector);
    Set3At(s.at, i, j, k, In(i, 0), In(i, 1), In(i, 2));
    if x != i && x != j && x != k && s.at[x].In? {
      FreeInNoChain(s, i, s.at[x].head);
    }
  }

  lemma SubmittedChains(s: Queue, i: nat, j: nat, k: nat, buf: nat, write: bool, sector: nat)
    requires CanSubmit(s, i, j, k, buf)
    ensures var t := Submitted(s, i, j, k, buf, write, sector); Sized(t) && ChainsOk(t)
  {
    hide DescOk;
    hide BufsOk;
    hide RingOk;
    hide FreeSet;
    hide Set3;
    SubmittedSized(s, i, j, k, buf, write, sector);
    var t := Submitted(s, i, j, k, buf, write, sector);
    Set3At(s.at, i, j, k, In(i, 0), In(i, 1), In(i, 2));
    Set3At(s.free, i, j, k, false, false, false);
    forall h | h in s.chains
      ensures h < NUM && s.chains[h].second < NUM && s.chains[h].third < NUM
      ensures t.at[h] == In(h, 0) && t.at[s.chains[h].second] == In(h, 1) && t.at[s.chains[h].third] == In(h, 2)
    {
      FreeInNoChain(s, i, h);
      FreeInNoChain(s, j, h);
      FreeInNoChain(s, k, h);
    }
    forall x | 0 <= x < NUM && t.at[x].In?
      ensures t.at[x].head in t.chains && t.at[x].pos < 3 && Member(t.at[x].head, t.chains[t.at[x].head], t.at[x].pos) == x
    {
      SubmittedPlace(s, i, j, k, buf, write, sector, x);
    }
  }

  lemma SubmittedDesc(s: Queue, i: nat, j: nat, k: nat, buf: nat, write: bool, sector: nat)
    requires CanSubmit(s, i, j, k, buf)
    ensures var t := Submitted(s, i, j, k, buf, write, sector); Sized(t) && ChainsOk(t) && DescOk(t)
  {
    hide BufsOk;
    hide RingOk;
    hide FreeSet;
    hide ChainsOk;
    hide Set3;
    SubmittedChains(s, i, j, k, buf, write, sector);
    SubmittedSized(s, i, j, k, buf, write, sector);
    var t := Submitted(s, i, j, k, buf, write, sector);
    Set3At(s.desc, i, j, k, Desc(Header(i), 16, true, false, j), Desc(Data(buf), 1024, true, !write, k),
           Desc(Status(i), 1, false, true, 0));
    Set3At(s.free, i, j, k, false, false, false);
    forall h | h in s.chains
      ensures h < NUM && s.chains[h].second < NUM && s.chains[h].third < NUM && Written(t, h, s.chains[h])
    {
      FreeInNoChain(s, i, h);
      FreeInNoChain(s, j, h);
      FreeInNoChain(s, k, h);
      assert Written(s, h, s.chains[h]);
    }
  }

  lemma SubmittedCount(s: Queue, i: nat, j: nat, k: nat, buf: nat, write: bool, sector: nat)
    requires CanSubmit(s, i, j, k, buf) && i !in s.chains
    ensures var t := Submitted(s, i, j, k, buf, write, sector);
            Sized(t) && |FreeSet(t)| + 3 * |t.chains| == NUM
  {
    hide DescOk;
    hide BufsOk;
    hide RingOk;
    hide ChainsOk;
    hide Set3;
    SubmittedSized(s, i, j, k, buf, write, sector);
    var t := Submitted(s, i, j, k, buf, write, sector);
    Set3At(s.free, i, j, k, false, false, false);
    assert FreeSet(t) == FreeSet(s) - {i, j, k};
    RemoveThree(FreeSet(s), i, j, k);
  }

  lemma RemoveThree(f: set<nat>, i: nat, j: nat, k: nat)
    requires i in f && j in f && k in f && i != j && i != k && j != k
    ensures |f - {i, j, k}| == |f| - 3
  {
    assert f - {i, j, k} == f - {i} - {j} - {k};
  }

  lemma SubmittedGood(s: Queue, i: nat, j: nat, k: nat, buf: nat, write: bool, sector: nat)
    requires CanSubmit(s, i, j, k, buf)
    ensures Good(Submitted(s, i, j, k, buf, write, sector))
  {
    hide ChainsOk;
    hide DescOk;
    hide RingOk;
    hide BufsOk;
    hide FreeSet;
    hide Set3;
    SubmittedSized(s, i, j, k, buf, write, sector);
    SubmittedDesc(s, i, j, k, buf, write, sector);
    SubmittedCount(s, i, j, k, buf, write, sector);
    AtMostTwo(s);
    SubmittedRings(s, i, j, k, buf, write, sector);
    SubmittedBufs(s, i, j, k, buf, write, sector);
  }

  lemma SubmittedBufs(s: Queue, i: nat, j: nat, k: nat, buf: nat, write: bool, sector: nat)
    requires CanSubmit(s, i, j, k, buf)
    ensures var t := Submitted(s, i, j, k, buf, write, sector);
            Sized(t) && BufsOk(t) && forall h :: h in t.chains && t.chains[h].phase.Posted? && h < NUM ==> t.info[h].status == 0
  {
    hide ChainsOk;
    hide DescOk;
    hide RingOk;
    hide FreeSet;
  }

  lemma SubmittedRings(s: Queue, i: nat, j: nat, k: nat, buf: nat, write: bool, sector: nat)
    requires CanSubmit(s, i, j, k, buf) && i !in s.chains && |s.offered| <= 2
    ensures var t := Submitted(s, i, j, k, buf, write, sector);
            && Sized(t)
            && RingOk(t.avail, t.devIdx, t.offered, t.chains, Offered) && t.availIdx == (t.devIdx + |t.offered|) % WRAP
            && RingOk(t.used, t.seen, t.posted, t.chains, Posted)
  {
    hide ChainsOk;
    hide DescOk;
    hide BufsOk;
    hide RingOk;
    hide FreeSet;
    SlotOf(s.devIdx, |s.offered|);
    RingPush(s.avail, s.devIdx, s.offered, s.chains, Offered, i, Chain(j, k, buf, write, sector, Offered));
    RingSame(s.used, s.seen, s.posted, s.chains, s.chains[i := Chain(j, k, buf, write, sector, Offered)], Posted);
    NextIndex(s.devIdx, |s.offered|);
  }

  lemma NextIndex(idx: nat, n: nat)
    ensures ((idx + n) % WRAP + 1) % WRAP == (idx + (n + 1)) % WRAP
    ensures ((idx + 1) % WRAP + n) % WRAP == (idx + (n + 1)) % WRAP
  {
  }

  ghost predicate Moved(s: Queue, t: Queue, h: nat, phase: Phase)
    requires Sized(s) && Sized(t)
  {
    && h in s.chains && t.chains == s.chains[h := s.chains[h].(phase := phase)]
    && t.free == s.free && t.desc == s.desc && t.at == s.at && t.ops == s.ops
    && forall i :: 0 <= i < NUM ==> t.info[i].b == s.info[i].b
  }

  lemma MovedChains(s: Queue, t: Queue, h: nat, phase: Phase)
    requires Sized(s) && Sized(t) && ChainsOk(s) && Moved(s, t, h, phase)
    ensures ChainsOk(t)
  {
    forall g | g in s.chains ensures g in t.chains && t.chains[g].second == s.chains[g].second && t.chains[g].third == s.chains[g].third {
    }
  }

  lemma MovedDesc(s: Queue, t: Queue, h: nat, phase: Phase)
    requires Sized(s) && Sized(t) && ChainsOk(s) && ChainsOk(t) && DescOk(s) && Moved(s, t, h, phase)
    ensures DescOk(t)
  {
    hide ChainsOk;
    forall g | g in t.chains
      ensures g < NUM && t.chains[g].second < NUM && t.chains[g].third < NUM && Written(t, g, t.chains[g])
    {
      ChainAt(s, g);
      assert Written(s, g, s.chains[g]);
    }
  }

  lemma ChainAt(s: Queue, g: nat)
    requires Sized(s) && ChainsOk(s) && g in s.chains
    ensures g < NUM && s.chains[g].second < NUM && s.chains[g].third < NUM
  {
  }

  lemma MovedCount(s: Queue, t: Queue, h: nat, phase: Phase)
    requires Sized(s) && Sized(t) && Moved(s, t, h, phase)
    ensures |FreeSet(t)| == |FreeSet(s)| && |t.chains| == |s.chains|
  {
    assert FreeSet(t) == FreeSet(s);
    assert t.chains.Keys == s.chains.Keys && |t.chains| == |t.chains.Keys| && |s.chains| == |s.chains.Keys|;
  }

  /** A step that only moves chains on to another phase. */
  lemma PhaseMoved(s: Queue, t: Queue, h: nat, phase: Phase)
    requires Good(s) && Sized(t) && Moved(s, t, h, phase)
    ensures ChainsOk(t) && DescOk(t) && |FreeSet(t)| + 3 * |t.chains| == NUM
  {
    hide RingOk;
    hide BufsOk;
    hide ChainsOk;
    hide DescOk;
    hide FreeSet;
    hide Moved;
    MovedChains(s, t, h, phase);
    MovedDesc(s, t, h, phase);
    MovedCount(s, t, h, phase);
  }

  lemma MovedBufs(s: Queue, t: Queue, h: nat, phase: Phase)
    requires Sized(s) && Sized(t) && BufsOk(s) && Moved(s, t, h, phase)
    requires t.busy == if phase.Done? then s.busy[s.chains[h].buf := false] else s.busy
    requires !s.chains[h].phase.Done?
    ensures BufsOk(t)
  {
  }

  lemma ChainBounds(s: Queue, h: nat)
    requires Good(s) && h in s.chains
    ensures h < NUM && s.chains[h].second < NUM && s.chains[h].third < NUM
  {
    hide RingOk;
    hide BufsOk;
    hide DescOk;
  }

  lemma RingFacts(ring: seq<nat>, idx: nat, heads: seq<nat>, chains: map<nat, Chain>, phase: Phase)
    requires |ring| == NUM && RingOk(ring, idx, heads, chains, phase) && heads != [] && idx < WRAP
    ensures heads[0] in chains && chains[heads[0]].phase == phase && ring[idx % NUM] == heads[0]
  {
    hide Slot;
    FirstSlot(idx);
  }

  lemma TakenGood(s: Queue)
    requires Good(s) && s.offered != []
    ensures s.offered[0] in s.chains && s.avail[s.devIdx % NUM] == s.offered[0] && Good(TakenBy(s))
  {
    hide ChainsOk;
    hide BufsOk;
    hide DescOk;
    hide RingOk;
    hide FreeSet;
    RingFacts(s.avail, s.devIdx, s.offered, s.chains, Offered);
    var h := s.offered[0];
    ChainBounds(s, h);
    var t := TakenBy(s);
    PhaseMoved(s, t, h, Taken);
    MovedBufs(s, t, h, Taken);
    RingPop(s.avail, s.devIdx, s.offered, s.chains, Offered, s.chains[h].(phase := Taken));
    RingSame(s.used, s.seen, s.posted, s.chains, t.chains, Posted);
    NextIndex(s.devIdx, |s.offered| - 1);
  }

  ghost predicate RingsOk(s: Queue)
    requires Sized(s)
  {
    && RingOk(s.avail, s.devIdx, s.offered, s.chains, Offered) && s.availIdx == (s.devIdx + |s.offered|) % WRAP
    && RingOk(s.used, s.seen, s.posted, s.chains, Posted) && s.usedIdx == (s.seen + |s.posted|) % WRAP
  }

  lemma PostedRings(s: Queue, h: nat)
    requires Good(s) && h in s.chains && s.chains[h].phase.Taken?
    ensures h < NUM && Sized(PostedBy(s, h)) && RingsOk(PostedBy(s, h))
  {
    hide ChainsOk;
    hide BufsOk;
    hide DescOk;
    hide RingOk;
    hide FreeSet;
    hide Slot;
    AtMostTwo(s);
    ChainBounds(s, h);
    var t := PostedBy(s, h);
    SlotOf(s.seen, |s.posted|);
    RingPush(s.used, s.seen, s.posted, s.chains, Posted, h, s.chains[h].(phase := Posted));
    RingSame(s.avail, s.devIdx, s.offered, s.chains, t.chains, Offered);
    NextIndex(s.seen, |s.posted|);
  }

  lemma PostedGood(s: Queue, h: nat)
    requires Good(s) && h in s.chains && s.chains[h].phase.Taken?
    ensures h < NUM && Good(PostedBy(s, h))
  {
    hide ChainsOk;
    hide BufsOk;
    hide DescOk;
    hide RingOk;
    hide FreeSet;
    ChainBounds(s, h);
    PostedRings(s, h);
    var t := PostedBy(s, h);
    PhaseMoved(s, t, h, Posted);
    MovedBufs(s, t, h, Posted);
  }

  lemma SeenRings(s: Queue)
    requires Good(s) && s.posted != []
    ensures s.posted[0] in s.chains && s.used[s.seen % NUM] == s.posted[0] && s.posted[0] < NUM
    ensures s.chains[s.posted[0]].phase.Posted? && Sized(SeenBy(s)) && RingsOk(SeenBy(s))
  {
    hide ChainsOk;
    hide BufsOk;
    hide RingOk;
    hide FreeSet;
    hide DescOk;
    RingFacts(s.used, s.seen, s.posted, s.chains, Posted);
    var h := s.posted[0];
    ChainBounds(s, h);
    var t := SeenBy(s);
    RingPop(s.used, s.seen, s.posted, s.chains, Posted, s.chains[h].(phase := Done));
    RingSame(s.avail, s.devIdx, s.offered, s.chains, t.chains, Offered);
    NextIndex(s.seen, |s.posted| - 1);
  }

  lemma SeenGood(s: Queue)
    requires Good(s) && s.posted != []
    ensures s.posted[0] in s.chains && s.used[s.seen % NUM] == s.posted[0] && s.posted[0] < NUM
    ensures s.info[s.posted[0]] == Info(Some(s.chains[s.posted[0]].buf), 0) && Good(SeenBy(s))
  {
    hide ChainsOk;
    hide BufsOk;
    hide RingOk;
    hide FreeSet;
    hide DescOk;
    hide Slot;
    SeenRings(s);
    var h := s.posted[0];
    InfoOf(s, h);
    var t := SeenBy(s);
    PhaseMoved(s, t, h, Done);
    MovedBufs(s, t, h, Done);
  }

  lemma InfoOf(s: Queue, h: nat)
    requires Good(s) && h in s.chains
    ensures h < NUM && s.info[h].b == Some(s.chains[h].buf)
  {
    hide RingOk;
    hide BufsOk;
    assert Written(s, h, s.chains[h]);
  }

  /** Different chains have different descriptors. */
  lemma ChainsDisjoint(s: Queue, g: nat, h: nat)
    requires Good(s) && g in s.chains && h in s.chains
    ensures var c, d := s.chains[g], s.chains[h];
            && g < NUM && h < NUM && c.second < NUM && c.third < NUM && d.second < NUM && d.third < NUM
            && h != d.second && h != d.third && d.second != d.third
            && (g != h ==> g != d.second && g != d.third && c.second != h && c.second != d.second && c.second != d.third
                           && c.third != h && c.third != d.second && c.third != d.third)
  {
    hide RingOk;
    hide BufsOk;
    hide DescOk;
    hide FreeSet;
  }

  lemma FinishedSized(s: Queue, h: nat)
    requires Good(s) && h in s.chains
    ensures h < NUM && s.chains[h].second < NUM && s.chains[h].third < NUM && Sized(Finished(s, h))
    ensures var t, j, k := Finished(s, h), s.chains[h].second, s.chains[h].third;
            forall u {:trigger t.at[u]} {:trigger t.free[u]} :: 0 <= u < NUM ==>
              if u == h || u == j || u == k then t.at[u].Unused? && t.free[u]
              else t.at[u] == s.at[u] && t.free[u] == s.free[u]
  {
    hide RingOk;
    hide BufsOk;
    hide DescOk;
    hide FreeSet;
    hide Set3;
    ChainsDisjoint(s, h, h);
    hide ChainsOk;
    var j, k := s.chains[h].second, s.chains[h].third;
    Set3At(s.at, h, j, k, Unused, Unused, Unused);
    Set3At(s.free, h, j, k, true, true, true);
    Set3At(s.desc, h, j, k, EMPTY, EMPTY, EMPTY);
  }

  lemma FinishedChains(s: Queue, h: nat)
    requires Good(s) && h in s.chains
    ensures h < NUM && s.chains[h].second < NUM && s.chains[h].third < NUM
    ensures Sized(Finished(s, h)) && ChainsOk(Finished(s, h))
  {
    hide RingOk;
    hide BufsOk;
    hide DescOk;
    hide FreeSet;
    hide Set3;
    FinishedSized(s, h);
    var t := Finished(s, h);
    forall g | g in t.chains
      ensures g < NUM && t.chains[g].second < NUM && t.chains[g].third < NUM
      ensures t.at[g] == In(g, 0) && t.at[t.chains[g].second] == In(g, 1) && t.at[t.chains[g].third] == In(g, 2)
    {
      ChainsDisjoint(s, g, h);
    }
  }

  lemma FinishedDesc(s: Queue, h: nat)
    requires Good(s) && h in s.chains && h < NUM && s.chains[h].second < NUM && s.chains[h].third < NUM
    requires Sized(Finished(s, h)) && ChainsOk(Finished(s, h))
    ensures DescOk(Finished(s, h))
  {
    hide RingOk;
    hide BufsOk;
    hide ChainsOk;
    hide FreeSet;
    hide Set3;
    ChainsDisjoint(s, h, h);
    var j, k := s.chains[h].second, s.chains[h].third;
    Set3At(s.free, h, j, k, true, true, true);
    Set3At(s.desc, h, j, k, EMPTY, EMPTY, EMPTY);
    var t := Finished(s, h);
    forall g | g in t.chains ensures g < NUM && t.chains[g].second < NUM && t.chains[g].third < NUM && Written(t, g, t.chains[g]) {
      ChainsDisjoint(s, g, h);
      assert Written(s, g, s.chains[g]);
    }
  }

  lemma FinishedCount(s: Queue, h: nat)
    requires Good(s) && h in s.chains && h < NUM && s.chains[h].second < NUM && s.chains[h].third < NUM
    requires Sized(Finished(s, h))
    ensures |FreeSet(Finished(s, h))| + 3 * |Finished(s, h).chains| == NUM
  {
    hide RingOk;
    hide BufsOk;
    hide DescOk;
    hide Set3;
    ChainsDisjoint(s, h, h);
    var j, k := s.chains[h].second, s.chains[h].third;
    Set3At(s.free, h, j, k, true, true, true);
    var t := Finished(s, h);
    assert FreeSet(s) == FreeSet(t) - {h, j, k};
    RemoveThree(FreeSet(t), h, j, k);
    assert t.chains.Keys == s.chains.Keys - {h} && |t.chains| == |t.chains.Keys| && |s.chains| == |s.chains.Keys|;
  }

  /** A request whose buffer is no longer busy is done. */
  lemma DoneBusy(s: Queue, h: nat)
    requires Good(s) && h in s.chains && s.chains[h].buf in s.busy && !s.busy[s.chains[h].buf]
    ensures Sized(s) && s.chains[h].phase.Done?
    ensures |s.free| == |s.desc| == |s.info| == |s.at| == NUM
  {
    hide ChainsOk;
    hide DescOk;
    hide RingOk;
    hide FreeSet;
  }

  lemma FinishedBufs(s: Queue, h: nat)
    requires Good(s) && h in s.chains && s.chains[h].phase.Done?
    ensures h < NUM && s.chains[h].second < NUM && s.chains[h].third < NUM && BufsOk(Finished(s, h))
  {
    hide RingOk;
    hide DescOk;
    hide FreeSet;
    hide Set3;
    ChainBounds(s, h);
    hide ChainsOk;
  }

  lemma FinishedGood(s: Queue, h: nat)
    requires Good(s) && h in s.chains && s.chains[h].phase.Done?
    ensures h < NUM && s.chains[h].second < NUM && s.chains[h].third < NUM && Good(Finished(s, h))
  {
    hide RingOk;
    hide ChainsOk;
    hide DescOk;
    hide BufsOk;
    hide FreeSet;
    hide Set3;
    FinishedBufs(s, h);
    FinishedChains(s, h);
    FinishedDesc(s, h);
    FinishedCount(s, h);
    var t := Finished(s, h);
    RingSame(s.avail, s.devIdx, s.offered, s.chains, t.chains, Offered);
    RingSame(s.used, s.seen, s.posted, s.chains, t.chains, Posted);
  }

  // ----- the loop of the interrupt handler

  /** From s to t the driver saw the completions in heads: just their buffers are not busy any more. */
  ghost predicate Completed(s: Queue, t: Queue, heads: seq<nat>) {
    && t.chains.Keys == s.chains.Keys
    && (forall h :: h in s.chains ==>
          t.chains[h] == if h in heads then s.chains[h].(phase := Done) else s.chains[h])
    && t.busy.Keys == s.busy.Keys
    && forall b :: b in s.busy ==>
         t.busy[b] == (s.busy[b] && forall h :: h in s.chains && h in heads ==> s.chains[h].buf != b)
  }

  lemma CompletedBusy(s: Queue, t: Queue, heads: seq<nat>)
    requires Completed(s, t, heads)
    ensures t.busy.Keys == s.busy.Keys
    ensures forall b :: b in s.busy ==>
              t.busy[b] == (s.busy[b] && forall h :: h in s.chains && h in heads ==> s.chains[h].buf != b)
  {
  }

  lemma CompletedNone(s: Queue)
    ensures s.posted[..0] == [] && Completed(s, s, s.posted[..0])
  {
  }

  lemma CompletedNext(s: Queue, t: Queue, n: nat)
    requires n < |s.posted| && t.posted == s.posted[n..] && Completed(s, t, s.posted[..n])
    requires s.posted[n] in t.chains && t.chains[s.posted[n]].buf in t.busy
    ensures t.posted[0] == s.posted[n] && Completed(s, SeenBy(t), s.posted[..n + 1])
  {
    assert s.posted[..n + 1] == s.posted[..n] + [s.posted[n]];
  }

  lemma PostedBuf(s: Queue)
    requires Good(s) && s.posted != []
    ensures s.posted[0] in s.chains && s.chains[s.posted[0]].buf in s.busy
  {
    hide ChainsOk;
    hide DescOk;
    hide FreeSet;
  }

  lemma SomePosted(s: Queue)
    requires Good(s) && s.seen != s.usedIdx
    ensures s.posted != []
  {
    hide ChainsOk;
    hide DescOk;
    hide RingOk;
    hide FreeSet;
  }

  lemma NonePosted(s: Queue)
    requires Good(s) && s.seen == s.usedIdx
    ensures s.posted == []
  {
    AtMostTwo(s);
    hide ChainsOk;
    hide DescOk;
    hide RingOk;
    hide FreeSet;
  }

  /** What free_chain finds in the descriptors of a request that is done. */
  lemma ChainToFree(s: Queue, h: nat)
    requires Good(s) && h in s.chains
    ensures var j, k := s.chains[h].second, s.chains[h].third;
            && h < NUM && j < NUM && k < NUM && h != j && h != k && j != k
            && !s.free[h] && !s.free[j] && !s.free[k]
            && s.desc[h].hasNext && s.desc[h].next == j && s.desc[j].hasNext && s.desc[j].next == k && !s.desc[k].hasNext
  {
    hide RingOk;
    hide BufsOk;
    hide FreeSet;
    ChainsDisjoint(s, h, h);
    assert Written(s, h, s.chains[h]);
  }

  /** Giving back a chain frees its three descriptors and no other. */
  lemma FinishedFree(s: Queue, h: nat)
    requires Sized(s) && h in s.chains && h < NUM && s.chains[h].second < NUM && s.chains[h].third < NUM
    requires h != s.chains[h].second && h != s.chains[h].third && s.chains[h].second != s.chains[h].third
    ensures var t, j, k := Finished(s, h), s.chains[h].second, s.chains[h].third;
            && |t.desc| == |t.free| == NUM && t.desc[h] == t.desc[j] == t.desc[k] == EMPTY
            && forall u :: 0 <= u < NUM ==> t.free[u] == (s.free[u] || u == h || u == j || u == k)
  {
    var j, k := s.chains[h].second, s.chains[h].third;
    Set3At(s.free, h, j, k, true, true, true);
    Set3At(s.desc, h, j, k, EMPTY, EMPTY, EMPTY);
    hide Set3;
  }
}
