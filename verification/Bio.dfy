/** The buffer cache: a fixed array of buffers threaded on a doubly linked LRU list. */
module Bio {
  import opened BlockDisk

  const ROOTDEV := 1

  /** dev is 0 until the buffer is first used. */
  datatype Buf = Buf(valid: bool, dev: nat, blockno: nat, locked: bool, refcnt: nat, data: Block) {
    predicate Holds(b: nat) { dev == ROOTDEV && blockno == b }
  }

  // ----- the circular list, c[0] being the list head

  ghost function Succ(c: seq<nat>, k: nat): nat
    requires k < |c|
  {
    if k + 1 < |c| then c[k + 1] else c[0]
  }

  ghost function Pred(c: seq<nat>, k: nat): nat
    requires k < |c|
  {
    if k > 0 then c[k - 1] else c[|c| - 1]
  }

  /** The indices on the list: each at most once, all below n. */
  ghost predicate Cycle(c: seq<nat>, n: nat) {
    && |c| >= 1
    && (forall k :: 0 <= k < |c| ==> c[k] < n)
    && (forall j, k :: 0 <= j < k < |c| ==> c[j] != c[k])
  }

  ghost predicate Nexts(next: seq<nat>, c: seq<nat>)
    requires Cycle(c, |next|)
  {
    forall k {:trigger next[c[k]]} :: 0 <= k < |c| ==> next[c[k]] == Succ(c, k)
  }

  ghost predicate Prevs(prev: seq<nat>, c: seq<nat>)
    requires Cycle(c, |prev|)
  {
    forall k {:trigger prev[c[k]]} :: 0 <= k < |c| ==> prev[c[k]] == Pred(c, k)
  }

  /** next and prev are mutually inverse links along c. */
  ghost predicate Ring(next: seq<nat>, prev: seq<nat>, c: seq<nat>) {
    && Cycle(c, |next|) && |prev| == |next|
    && Nexts(next, c) && Prevs(prev, c)
  }

  lemma RingOfOne(next: seq<nat>, prev: seq<nat>, h: nat)
    requires |next| == |prev| > h && next[h] == prev[h] == h
    ensures Ring(next, prev, [h])
  {
  }

  lemma RingCycle(next: seq<nat>, prev: seq<nat>, c: seq<nat>)
    requires Ring(next, prev, c)
    ensures Cycle(c, |next|) && |prev| == |next| && |c| >= 1
  {
  }

  ghost function Without(c: seq<nat>, k: nat): seq<nat>
    requires k < |c|
  {
    c[..k] + c[k + 1..]
  }

  /** The list order once the element at position k has moved to the front. */
  ghost function ToFront(c: seq<nat>, k: nat): seq<nat>
    requires 0 < k < |c|
  {
    [c[0], c[k]] + c[1..k] + c[k + 1..]
  }

  lemma WithoutCycle(c: seq<nat>, n: nat, k: nat)
    requires Cycle(c, n) && 0 < k < |c|
    ensures Cycle(Without(c, k), n) && c[k] !in Without(c, k)
  {
  }

  lemma WithoutFront(c: seq<nat>, k: nat)
    requires 0 < k < |c|
    ensures |Without(c, k)| == |c| - 1 && Without(c, k)[0] == c[0]
    ensures ToFront(c, k) == [c[0], c[k]] + Without(c, k)[1..] && |ToFront(c, k)| == |c|
  {
  }

  lemma PushCycle(c: seq<nat>, n: nat, x: nat)
    requires Cycle(c, n) && x < n && x !in c
    ensures Cycle([c[0], x] + c[1..], n)
  {
  }

  lemma UnlinkNext(next: seq<nat>, c: seq<nat>, k: nat)
    requires 0 < k < |c| && Cycle(c, |next|) && Nexts(next, c) && Cycle(Without(c, k), |next|)
    ensures Nexts(next[Pred(c, k) := next[c[k]]], Without(c, k))
  {
  }

  lemma UnlinkPrev(prev: seq<nat>, c: seq<nat>, k: nat)
    requires 0 < k < |c| && Cycle(c, |prev|) && Prevs(prev, c) && Cycle(Without(c, k), |prev|)
    ensures Prevs(prev[Succ(c, k) := prev[c[k]]], Without(c, k))
  {
  }

  lemma PushNext(next: seq<nat>, c: seq<nat>, x: nat)
    requires Cycle(c, |next|) && Nexts(next, c) && x < |next| && x !in c
    requires Cycle([c[0], x] + c[1..], |next|)
    ensures Nexts(next[x := next[c[0]]][c[0] := x], [c[0], x] + c[1..])
  {
  }

  lemma PushPrev(prev: seq<nat>, c: seq<nat>, x: nat)
    requires Cycle(c, |prev|) && Prevs(prev, c) && x < |prev| && x !in c
    requires Cycle([c[0], x] + c[1..], |prev|)
    ensures Prevs(prev[x := c[0]][Succ(c, 0) := x], [c[0], x] + c[1..])
  {
  }

  lemma ToFrontMembers(c: seq<nat>, k: nat, x: nat)
    requires 0 < k < |c| && x in c
    ensures x in ToFront(c, k)
  {
  }

  /** The indices after the head are in order of decreasing time. */
  ghost predicate Recency(c: seq<nat>, time: seq<int>) {
    && (forall k :: 1 <= k < |c| ==> c[k] < |time|)
    && (forall j, k :: 1 <= j < k < |c| ==> time[c[j]] > time[c[k]])
  }

  lemma ToFrontRecency(c: seq<nat>, k: nat, time: seq<int>, now: int)
    requires Cycle(c, |time| + 1) && Recency(c, time) && 0 < k < |c|
    requires forall i :: 0 <= i < |time| ==> time[i] < now
    ensures Recency(ToFront(c, k), time[c[k] := now])
  {
  }

  method Unlink(next: array<nat>, prev: array<nat>, x: nat, ghost c: seq<nat>, ghost k: nat)
    requires next != prev && Ring(next[..], prev[..], c) && 0 < k < |c| && x == c[k]
    modifies next, prev
    ensures Ring(next[..], prev[..], Without(c, k))
  {
    WithoutCycle(c, next.Length, k);
    UnlinkNext(next[..], c, k);
    UnlinkPrev(prev[..], c, k);
    assert next[c[k]] == Succ(c, k) && prev[c[k]] == Pred(c, k);
    ghost var ns: seq<nat>, ps: seq<nat> := next[..], prev[..];
    prev[next[x]] := prev[x];
    assert prev[..] == ps[ns[x] := ps[x]];
    assert ns[x] != x;
    next[prev[x]] := next[x];
    assert next[..] == ns[ps[x] := ns[x]];
  }

  method PushFront(next: array<nat>, prev: array<nat>, head: nat, x: nat, ghost c: seq<nat>)
    requires next != prev && Ring(next[..], prev[..], c) && c[0] == head && x < next.Length && x !in c
    modifies next, prev
    ensures Ring(next[..], prev[..], [head, x] + c[1..])
  {
    PushCycle(c, next.Length, x);
    PushNext(next[..], c, x);
    PushPrev(prev[..], c, x);
    assert next[c[0]] == Succ(c, 0);
    ghost var ns: seq<nat>, ps: seq<nat> := next[..], prev[..];
    next[x] := next[head];
    prev[x] := head;
    prev[next[head]] := x;
    next[head] := x;
    assert next[..] == ns[x := ns[head]][head := x];
    assert prev[..] == ps[x := head][ns[head] := x];
  }

  // ----- what a buffer may hold

  predicate BufOk(b: Buf, disk: Image) {
    && (b.dev == 0 || b.dev == ROOTDEV)
    && (b.dev == 0 ==> !b.valid && b.refcnt == 0)
    && (b.dev == ROOTDEV ==> b.blockno < |disk|)
    && (b.locked ==> b.refcnt > 0)
    && (b.refcnt > 0 && !b.locked ==> b.valid)
    && (b.refcnt == 0 && b.valid ==> b.data == disk[b.blockno])
  }

  /** at maps each cached block to its one buffer. */
  ghost predicate Indexed(s: seq<Buf>, at: map<nat, nat>) {
    && (forall i :: 0 <= i < |s| && s[i].dev == ROOTDEV ==> s[i].blockno in at && at[s[i].blockno] == i)
    && (forall b :: b in at ==> at[b] < |s| && s[at[b]].Holds(b))
  }

  ghost predicate Coherent(s: seq<Buf>, at: map<nat, nat>, disk: Image) {
    && (forall i :: 0 <= i < |s| ==> BufOk(s[i], disk))
    && Indexed(s, at)
  }

  lemma NothingCached(s: seq<Buf>, disk: Image)
    requires forall i :: 0 <= i < |s| ==> s[i].dev == 0 && !s[i].valid && !s[i].locked && s[i].refcnt == 0
    ensures Coherent(s, map[], disk)
  {
  }

  ghost predicate SomeIdle(s: seq<Buf>) {
    exists i :: 0 <= i < |s| && s[i].refcnt == 0
  }

  ghost predicate TwoIdle(s: seq<Buf>) {
    exists i, j :: 0 <= i < j < |s| && s[i].refcnt == 0 && s[j].refcnt == 0
  }

  lemma StillIdle(s: seq<Buf>, i: nat, b: Buf)
    requires i < |s| && ((SomeIdle(s) && s[i].refcnt > 0) || b.refcnt == 0)
    ensures SomeIdle(s[i := b])
  {
    if b.refcnt == 0 {
      assert s[i := b][i].refcnt == 0;
    } else {
      var j :| 0 <= j < |s| && s[j].refcnt == 0;
      assert s[i := b][j].refcnt == 0;
    }
  }

  lemma OneLeft(s: seq<Buf>, i: nat, b: Buf)
    requires TwoIdle(s) && i < |s|
    ensures SomeIdle(s[i := b])
  {
    var j, k :| 0 <= j < k < |s| && s[j].refcnt == 0 && s[k].refcnt == 0;
    assert s[i := b][if i == j then k else j].refcnt == 0;
  }

  lemma OneMore(s: seq<Buf>, i: nat, b: Buf)
    requires i < |s| && s[i].refcnt > 0 && b.refcnt == 0
    ensures SomeIdle(s) ==> TwoIdle(s[i := b])
  {
    if SomeIdle(s) {
      var j :| 0 <= j < |s| && s[j].refcnt == 0;
      assert s[i := b][j].refcnt == 0 && s[i := b][i].refcnt == 0;
    }
  }

  ghost function Evicted(at: map<nat, nat>, b: Buf): map<nat, nat> {
    if b.dev == ROOTDEV then at - {b.blockno} else at
  }

  /** What the kernel sees in each block: the cached data if there is any, the disk's otherwise. */
  ghost function Contents(s: seq<Buf>, at: map<nat, nat>, disk: Image): (c: Image)
    requires Coherent(s, at, disk)
    ensures |c| == |disk|
  {
    seq(|disk|, b requires 0 <= b < |disk| => if b in at && s[at[b]].valid then s[at[b]].data else disk[b])
  }

  /** The reference count of each block's buffer, 0 for a block not cached. */
  ghost function RefTable(s: seq<Buf>, at: map<nat, nat>, size: nat): (t: seq<nat>)
    requires Indexed(s, at)
    ensures |t| == size
  {
    seq(size, b requires 0 <= b < size => if b in at then s[at[b]].refcnt else 0)
  }

  ghost function LockTable(s: seq<Buf>, at: map<nat, nat>, size: nat): (t: seq<bool>)
    requires Indexed(s, at)
    ensures |t| == size
  {
    seq(size, b requires 0 <= b < size => b in at && s[at[b]].locked)
  }

  /** Replacing one buffer's state, with the block it holds, affects only that block. */
  lemma UpdateBuffer(s: seq<Buf>, at: map<nat, nat>, disk: Image, i: nat, b: Buf)
    requires Coherent(s, at, disk) && i < |s| && BufOk(b, disk)
    requires s[i].dev == b.dev == ROOTDEV && b.blockno == s[i].blockno
    ensures Coherent(s[i := b], at, disk)
    ensures Contents(s[i := b], at, disk) ==
            Contents(s, at, disk)[b.blockno := if b.valid then b.data else disk[b.blockno]]
    ensures RefTable(s[i := b], at, |disk|) == RefTable(s, at, |disk|)[b.blockno := b.refcnt]
    ensures LockTable(s[i := b], at, |disk|) == LockTable(s, at, |disk|)[b.blockno := b.locked]
  {
  }

  lemma RecycleIndexed(s: seq<Buf>, at: map<nat, nat>, disk: Image, i: nat, b: Buf)
    requires Coherent(s, at, disk) && i < |s| && BufOk(b, disk) && b.dev == ROOTDEV && b.blockno !in at
    ensures Coherent(s[i := b], Evicted(at, s[i])[b.blockno := i], disk)
  {
    hide BufOk;
  }

  lemma RecycleContents(s: seq<Buf>, at: map<nat, nat>, disk: Image, i: nat, b: Buf)
    requires Coherent(s, at, disk) && i < |s| && s[i].refcnt == 0
    requires BufOk(b, disk) && b.dev == ROOTDEV && b.blockno !in at
    requires Coherent(s[i := b], Evicted(at, s[i])[b.blockno := i], disk)
    ensures Contents(s[i := b], Evicted(at, s[i])[b.blockno := i], disk) ==
            Contents(s, at, disk)[b.blockno := if b.valid then b.data else disk[b.blockno]]
  {
  }

  lemma RecycleTables(s: seq<Buf>, at: map<nat, nat>, size: nat, i: nat, b: Buf)
    requires Indexed(s, at) && i < |s| && s[i].refcnt == 0 && !s[i].locked
    requires b.dev == ROOTDEV && b.blockno !in at && b.blockno < size
    requires Indexed(s[i := b], Evicted(at, s[i])[b.blockno := i])
    ensures RefTable(s[i := b], Evicted(at, s[i])[b.blockno := i], size) == RefTable(s, at, size)[b.blockno := b.refcnt]
    ensures LockTable(s[i := b], Evicted(at, s[i])[b.blockno := i], size) == LockTable(s, at, size)[b.blockno := b.locked]
  {
  }

  /** Recycling an idle buffer for a block not cached: no other block is affected. */
  lemma RecycleBuffer(s: seq<Buf>, at: map<nat, nat>, disk: Image, i: nat, b: Buf)
    requires Coherent(s, at, disk) && i < |s| && s[i].refcnt == 0
    requires BufOk(b, disk) && b.dev == ROOTDEV && b.blockno !in at
    ensures var at' := Evicted(at, s[i])[b.blockno := i];
            && Coherent(s[i := b], at', disk)
            && Contents(s[i := b], at', disk) ==
               Contents(s, at, disk)[b.blockno := if b.valid then b.data else disk[b.blockno]]
            && RefTable(s[i := b], at', |disk|) == RefTable(s, at, |disk|)[b.blockno := b.refcnt]
            && LockTable(s[i := b], at', |disk|) == LockTable(s, at, |disk|)[b.blockno := b.locked]
  {
    hide Contents;
    hide RefTable;
    hide LockTable;
    hide Indexed;
    hide Evicted;
    RecycleIndexed(s, at, disk, i, b);
    RecycleContents(s, at, disk, i, b);
    assert BufOk(s[i], disk);
    RecycleTables(s, at, |disk|, i, b);
  }

  /** Taking buffer i for block k: the block's content is what it was, and i gains a reference. */
  lemma GetEffect(s: seq<Buf>, at: map<nat, nat>, disk: Image, i: nat, k: nat, b: Buf, at': map<nat, nat>)
    requires Coherent(s, at, disk) && i < |s| && k < |disk|
    requires if k in at then at' == at && i == at[k]
             else s[i].refcnt == 0 && at' == Evicted(at, s[i])[k := i]
    requires b == if k in at then s[i].(refcnt := s[i].refcnt + 1, locked := true)
                  else Buf(false, ROOTDEV, k, true, 1, s[i].data)
    ensures Coherent(s[i := b], at', disk)
    ensures Contents(s[i := b], at', disk) == Contents(s, at, disk)
    ensures RefTable(s[i := b], at', |disk|) == RefTable(s, at, |disk|)[k := b.refcnt]
    ensures LockTable(s[i := b], at', |disk|) == LockTable(s, at, |disk|)[k := true]
  {
    if k in at {
      UpdateBuffer(s, at, disk, i, b);
    } else {
      RecycleBuffer(s, at, disk, i, b);
    }
  }

  class Bcache {
    const head: nat
    const buf: array<Buf>
    const next: array<nat>
    const prev: array<nat>
    var disk: Image
    ghost var writes: seq<Write>
    ghost var lru: seq<nat>
    ghost var at: map<nat, nat>
    ghost var released: seq<int>
    ghost var clock: int

    /** The buffers in most-recently-released order, by their time of last release to zero. */
    ghost predicate Ordered()
      reads this, next, prev
    {
      && next != prev && next.Length == prev.Length == head + 1 && head > 0
      && Ring(next[..], prev[..], lru) && lru[0] == head && |lru| == head + 1
      && (forall i :: 0 <= i <= head ==> i in lru)
      && |released| == head
      && (forall i :: 0 <= i < head ==> released[i] < clock)
      && Recency(lru, released)
    }

    ghost predicate Valid()
      reads this, buf, next, prev
    {
      Ordered() && buf.Length == head && Coherent(buf[..], at, disk)
    }

    ghost function View(): (v: Image)
      requires Valid()
      reads this, buf, next, prev
      ensures |v| == |disk|
    {
      Contents(buf[..], at, disk)
    }

    ghost function Refs(): (t: seq<nat>)
      requires Valid()
      reads this, buf, next, prev
      ensures |t| == |disk|
    {
      RefTable(buf[..], at, |disk|)
    }

    ghost function Locks(): (t: seq<bool>)
      requires Valid()
      reads this, buf, next, prev
      ensures |t| == |disk|
    {
      LockTable(buf[..], at, |disk|)
    }

    /** Buffer i is locked by the caller and holds block b's content. */
    ghost predicate Held(i: nat, b: nat)
      requires Valid()
      reads this, buf, next, prev
      ensures Held(i, b) ==>
                && i < head == buf.Length && b < |disk| && buf[i].blockno == b
                && buf[i].data == View()[b] && buf[i].refcnt == Refs()[b] > 0 && Locks()[b]
    {
      i < head && buf[i].Holds(b) && buf[i].locked && buf[i].valid
    }

    /** Every buffer held before is still held, except perhaps block b's. */
    twostate predicate KeepsHeld(b: int)
      requires old(Valid()) && Valid()
      reads this, buf, next, prev
    {
      forall i: nat, c: nat :: c != b && old(Held(i, c)) ==> Held(i, c)
    }

    /** Some buffer can be recycled. */
    ghost predicate HasIdle()
      reads buf
    {
      SomeIdle(buf[..])
    }

    ghost predicate HasTwoIdle()
      reads buf
    {
      TwoIdle(buf[..])
    }

    constructor (nbuf: nat, image: Image)
      requires nbuf > 0
      ensures Valid() && fresh(buf) && fresh(next) && fresh(prev)
      ensures head == nbuf && disk == image && at == map[] && writes == []
      ensures forall i :: 0 <= i < nbuf ==> buf[i].refcnt == 0
    {
      head := nbuf;
      buf := new Buf[nbuf](_ => Buf(false, 0, 0, false, 0, ZERO_BLOCK));
      next := new nat[nbuf + 1](_ => nbuf);
      prev := new nat[nbuf + 1](_ => nbuf);
      disk, writes, at := image, [], map[];
      lru, released, clock := [nbuf], seq(nbuf, i => i - nbuf), 0;
      new;
      hide Ring;
      hide Coherent;
      NothingCached(buf[..], disk);
      RingOfOne(next[..], prev[..], nbuf);
      var b := 0;
      while b < nbuf
        invariant 0 <= b <= nbuf
        invariant |lru| == b + 1 && lru[0] == nbuf
        invariant forall k :: 1 <= k <= b ==> lru[k] == b - k
        invariant Ring(next[..], prev[..], lru)
        modifies this`lru, next, prev
      {
        PushFront(next, prev, head, b, lru);
        lru := [head, b] + lru[1..];
        b := b + 1;
      }
      forall i | 0 <= i < nbuf ensures i in lru {
        assert lru[nbuf - i] == i;
      }
    }

    /** The forward scan of bget; head if the block is not cached. */
    method FindCached(blockno: nat) returns (i: nat)
      requires Valid()
      ensures if blockno in at then i == at[blockno] else i == head
    {
      i := next[head];
      ghost var k := 1;
      assert next[lru[0]] == Succ(lru, 0);
      while i != head
        invariant 1 <= k <= |lru| && i == if k < |lru| then lru[k] else head
        invariant forall j :: 1 <= j < k ==> !buf[lru[j]].Holds(blockno)
        decreases |lru| - k
      {
        if buf[i].dev == ROOTDEV && buf[i].blockno == blockno {
          return;
        }
        assert next[lru[k]] == Succ(lru, k);
        i := next[i];
        k := k + 1;
      }
      if blockno in at {
        assert at[blockno] in lru;
      }
    }

    /** The backward scan of bget: the idle buffer released longest ago; head if there is none. */
    method FindIdle() returns (i: nat)
      requires Valid()
      ensures i <= head
      ensures i < head ==> buf[i].refcnt == 0
      ensures forall j :: 0 <= j < head && buf[j].refcnt == 0 ==> i < head && released[i] <= released[j]
    {
      i := prev[head];
      ghost var k := |lru| - 1;
      assert prev[lru[0]] == Pred(lru, 0);
      while i != head
        invariant 0 <= k < |lru| && i == lru[k]
        invariant forall j :: k < j < |lru| ==> buf[lru[j]].refcnt != 0
        decreases k
      {
        if buf[i].refcnt == 0 {
          break;
        }
        assert prev[lru[k]] == Pred(lru, k);
        i := prev[i];
        k := k - 1;
      }
      forall j | 0 <= j < head && buf[j].refcnt == 0 ensures i < head && released[i] <= released[j] {
        assert j in lru;
        ghost var m :| 0 <= m < |lru| && lru[m] == j;
      }
    }

    lemma TwoIdleIdle()
      requires HasTwoIdle()
      ensures HasIdle()
    {
    }

    lemma IdleIsClean(b: nat)
      requires Valid() && b < |disk| && Refs()[b] == 0
      ensures View()[b] == disk[b] && !Locks()[b]
    {
    }

    /** bget's first outcome: one more reference to a cached block. */
    method Reference(i: nat)
      requires Valid() && i < head && buf[i].dev == ROOTDEV
      modifies buf
      ensures Valid()
      ensures buf[..] == old(buf[..])[i := old(buf[i]).(refcnt := old(buf[i]).refcnt + 1, locked := true)]
      ensures var b := buf[i].blockno;
              && View() == old(View())
              && Refs() == old(Refs())[b := old(Refs())[b] + 1]
              && Locks() == old(Locks())[b := true]
    {
      GetEffect(buf[..], at, disk, i, buf[i].blockno, buf[i].(refcnt := buf[i].refcnt + 1, locked := true), at);
      buf[i] := buf[i].(refcnt := buf[i].refcnt + 1);
      buf[i] := buf[i].(locked := true);
    }

    /** bget's second outcome: an idle buffer now stands for another block, its data not yet read. */
    method Recycle(i: nat, blockno: nat)
      requires Valid() && i < head && buf[i].refcnt == 0 && blockno < |disk| && blockno !in at
      modifies this`at, buf
      ensures Valid() && at == Evicted(old(at), old(buf[i]))[blockno := i]
      ensures buf[..] == old(buf[..])[i := Buf(false, ROOTDEV, blockno, true, 1, old(buf[i]).data)]
      ensures View() == old(View())
      ensures Refs() == old(Refs())[blockno := old(Refs())[blockno] + 1]
      ensures Locks() == old(Locks())[blockno := true]
    {
      ghost var at' := Evicted(at, buf[i])[blockno := i];
      GetEffect(buf[..], at, disk, i, blockno, Buf(false, ROOTDEV, blockno, true, 1, buf[i].data), at');
      at := at';
      buf[i] := Buf(false, ROOTDEV, blockno, true, 1, buf[i].data);
    }

    /**
     * Find block blockno's buffer, or recycle the idle buffer released longest ago; lock it.
     * With every buffer in use the kernel stops ("bget: no buffers").
     */
    method Bget(blockno: nat) returns (i: nat)
      requires Valid() && blockno < |disk| && !Locks()[blockno]
      requires Refs()[blockno] > 0 || HasIdle()
      modifies this`at, buf
      ensures Valid() && i < head && buf[i].Holds(blockno) && buf[i].locked
      ensures View() == old(View())
      ensures Refs() == old(Refs())[blockno := old(Refs())[blockno] + 1]
      ensures Locks() == old(Locks())[blockno := true]
      ensures old(blockno in at) ==>
                && at == old(at) && i == at[blockno]
                && buf[..] == old(buf[..])[i := old(buf[i]).(refcnt := old(buf[i]).refcnt + 1, locked := true)]
      ensures old(blockno !in at) ==>
                && old(buf[i]).refcnt == 0
                && (forall j :: 0 <= j < head && old(buf[j]).refcnt == 0 ==> released[i] <= released[j])
                && at == Evicted(old(at), old(buf[i]))[blockno := i]
                && buf[..] == old(buf[..])[i := Buf(false, ROOTDEV, blockno, true, 1, old(buf[i]).data)]
    {
      hide Bcache.Ordered;
      hide Contents;
      hide LockTable;
      i := FindCached(blockno);
      if i != head {
        Reference(i);
      } else {
        i := FindIdle();
        Recycle(i, blockno);
      }
    }

    /** virtio_disk_rw: move one buffer's data from or to its disk block. */
    method DiskRw(i: nat, write: bool)
      requires i < buf.Length && buf[i].blockno < |disk|
      modifies this`disk, this`writes, buf
      ensures var b := old(buf[i]);
              if write then
                && disk == old(disk)[b.blockno := b.data]
                && writes == old(writes) + [Write(b.blockno, b.data)]
                && buf[..] == old(buf[..])
              else
                && disk == old(disk) && writes == old(writes)
                && buf[..] == old(buf[..])[i := b.(data := old(disk)[b.blockno])]
    {
      if write {
        disk := disk[buf[i].blockno := buf[i].data];
        writes := writes + [Write(buf[i].blockno, buf[i].data)];
      } else {
        buf[i] := buf[i].(data := disk[buf[i].blockno]);
      }
    }

    /** Fill a locked buffer that holds nothing yet. */
    method Load(i: nat)
      requires Valid() && i < head && buf[i].locked && !buf[i].valid
      modifies this`disk, this`writes, buf
      ensures Valid() && disk == old(disk) && writes == old(writes)
      ensures buf[..] == old(buf[..])[i := old(buf[i]).(valid := true, data := disk[buf[i].blockno])]
      ensures View() == old(View()) && Refs() == old(Refs()) && Locks() == old(Locks())
    {
      UpdateBuffer(buf[..], at, disk, i, buf[i].(valid := true, data := disk[buf[i].blockno]));
      DiskRw(i, false);
      buf[i] := buf[i].(valid := true);
    }

    /** Lock block blockno's buffer with its content in it. No block's content changes. */
    method Bread(blockno: nat) returns (i: nat)
      requires Valid() && blockno < |disk| && !Locks()[blockno]
      requires Refs()[blockno] > 0 || HasIdle()
      modifies this`at, this`disk, this`writes, buf
      ensures Valid() && disk == old(disk) && writes == old(writes)
      ensures Held(i, blockno) && KeepsHeld(-1)
      ensures View() == old(View())
      ensures Refs() == old(Refs())[blockno := old(Refs())[blockno] + 1]
      ensures Locks() == old(Locks())[blockno := true]
      ensures old(HasTwoIdle()) ==> HasIdle()
    {
      hide Bcache.Ordered;
      hide Coherent;
      hide Contents;
      hide RefTable;
      hide LockTable;
      hide SomeIdle;
      hide TwoIdle;
      ghost var s := buf[..];
      i := Bget(blockno);
      if !buf[i].valid {
        Load(i);
      }
      assert buf[..] == s[i := buf[i]];
      if TwoIdle(s) {
        OneLeft(s, i, buf[i]);
      }
    }

    /** The holder of a locked buffer stores into its data. */
    method Fill(i: nat, data: Block, ghost b: nat)
      requires Valid() && Held(i, b)
      modifies buf
      ensures Valid() && KeepsHeld(-1)
      ensures buf[..] == old(buf[..])[i := old(buf[i]).(data := data)]
      ensures View() == old(View())[b := data] && Refs() == old(Refs()) && Locks() == old(Locks())
      ensures old(HasIdle()) ==> HasIdle()
    {
      UpdateBuffer(buf[..], at, disk, i, buf[i].(data := data));
      if HasIdle() {
        StillIdle(buf[..], i, buf[i].(data := data));
      }
      buf[i] := buf[i].(data := data);
    }

    /** Write a locked buffer to disk ("bwrite" stops the kernel if it is not locked). */
    method Bwrite(i: nat, ghost b: nat)
      requires Valid() && Held(i, b)
      modifies this`disk, this`writes, buf
      ensures Valid() && KeepsHeld(-1)
      ensures disk == old(disk)[b := View()[b]]
      ensures writes == old(writes) + [Write(b, View()[b])]
      ensures buf[..] == old(buf[..])
      ensures View() == old(View()) && Refs() == old(Refs()) && Locks() == old(Locks())
      ensures old(HasIdle()) ==> HasIdle()
    {
      DiskRw(i, true);
    }

    /** Store data into a held buffer and write it to disk. */
    method Overwrite(i: nat, data: Block, ghost b: nat)
      requires Valid() && Held(i, b)
      modifies this`disk, this`writes, buf
      ensures Valid() && KeepsHeld(-1)
      ensures View() == old(View())[b := data] && Refs() == old(Refs()) && Locks() == old(Locks())
      ensures disk == old(disk)[b := data]
      ensures writes == old(writes) + [Write(b, data)]
      ensures old(HasIdle()) ==> HasIdle()
    {
      hide Bcache.Ordered;
      hide Coherent;
      Fill(i, data, b);
      Bwrite(i, b);
    }

    /** brelse's relinking: buffer i becomes the most recently released one. */
    method MoveToFront(i: nat)
      requires Ordered() && i < head
      modifies this`lru, this`released, this`clock, next, prev
      ensures Ordered()
      ensures released == old(released)[i := old(clock)]
      ensures exists k :: 0 < k < |old(lru)| && old(lru)[k] == i && lru == ToFront(old(lru), k)
    {
      hide Ring;
      hide Recency;
      hide Without;
      hide ToFront;
      ghost var c := lru;
      assert i in c;
      ghost var k :| 0 <= k < |c| && c[k] == i;
      RingCycle(next[..], prev[..], c);
      hide Cycle;
      WithoutCycle(c, next.Length, k);
      WithoutFront(c, k);
      Unlink(next, prev, i, c, k);
      PushFront(next, prev, head, i, Without(c, k));
      lru := ToFront(c, k);
      forall j | 0 <= j <= head ensures j in lru {
        ToFrontMembers(c, k, j);
      }
      ToFrontRecency(c, k, released, clock);
      released := released[i := clock];
      clock := clock + 1;
    }

    /** releasesleep and the decrement of brelse, before any relinking. */
    method Drop(i: nat, ghost b: nat)
      requires Valid() && Held(i, b)
      requires Refs()[b] == 1 ==> View()[b] == disk[b]
      modifies buf
      ensures Valid() && KeepsHeld(b)
      ensures buf[..] == old(buf[..])[i := old(buf[i]).(locked := false, refcnt := old(buf[i]).refcnt - 1)]
      ensures View() == old(View())
      ensures Refs() == old(Refs())[b := old(Refs())[b] - 1] && Locks() == old(Locks())[b := false]
      ensures Refs()[b] == buf[i].refcnt
      ensures Refs()[b] == 0 || old(HasIdle()) ==> HasIdle()
      ensures Refs()[b] == 0 && old(HasIdle()) ==> HasTwoIdle()
    {
      hide Bcache.Ordered;
      hide Contents;
      hide RefTable;
      hide LockTable;
      hide SomeIdle;
      hide TwoIdle;
      UpdateBuffer(buf[..], at, disk, i, buf[i].(locked := false, refcnt := buf[i].refcnt - 1));
      if Refs()[b] == 1 || HasIdle() {
        StillIdle(buf[..], i, buf[i].(locked := false, refcnt := buf[i].refcnt - 1));
      }
      if Refs()[b] == 1 {
        OneMore(buf[..], i, buf[i].(locked := false, refcnt := buf[i].refcnt - 1));
      }
      buf[i] := buf[i].(locked := false);
      buf[i] := buf[i].(refcnt := buf[i].refcnt - 1);
    }

    /**
     * Unlock a buffer and drop a reference; with the last one the buffer moves to the front.
     * The caller gives up the last reference only to a buffer whose data is on disk.
     */
    method Brelse(i: nat, ghost b: nat)
      requires Valid() && Held(i, b)
      requires Refs()[b] == 1 ==> View()[b] == disk[b]
      modifies this`lru, this`released, this`clock, buf, next, prev
      ensures Valid() && KeepsHeld(b)
      ensures View() == old(View())
      ensures Refs() == old(Refs())[b := old(Refs())[b] - 1] && Locks() == old(Locks())[b := false]
      ensures Refs()[b] == 0 || old(HasIdle()) ==> HasIdle()
      ensures Refs()[b] == 0 && old(HasIdle()) ==> HasTwoIdle()
      ensures Refs()[b] > 0 ==> lru == old(lru) && released == old(released)
      ensures Refs()[b] == 0 ==>
                && released == old(released)[i := old(clock)]
                && exists k :: 0 < k < |old(lru)| && old(lru)[k] == i && lru == ToFront(old(lru), k)
    {
      hide Coherent;
      hide Contents;
      hide RefTable;
      hide LockTable;
      hide SomeIdle;
      hide TwoIdle;
      Drop(i, b);
      if buf[i].refcnt == 0 {
        label relink:
        MoveToFront(i);
        assert buf[..] == old@relink(buf[..]);
      }
    }

    method Bpin(i: nat, ghost b: nat)
      requires Valid() && Held(i, b)
      modifies buf
      ensures Valid() && KeepsHeld(-1)
      ensures buf[..] == old(buf[..])[i := old(buf[i]).(refcnt := old(buf[i]).refcnt + 1)]
      ensures View() == old(View()) && Locks() == old(Locks())
      ensures old(HasIdle()) ==> HasIdle()
      ensures Refs() == old(Refs())[b := old(Refs())[b] + 1]
    {
      hide Bcache.Ordered;
      hide Contents;
      hide RefTable;
      hide LockTable;
      hide SomeIdle;
      UpdateBuffer(buf[..], at, disk, i, buf[i].(refcnt := buf[i].refcnt + 1));
      if HasIdle() {
        StillIdle(buf[..], i, buf[i].(refcnt := buf[i].refcnt + 1));
      }
      buf[i] := buf[i].(refcnt := buf[i].refcnt + 1);
    }

    /** Called while the caller still holds a reference of its own. */
    method Bunpin(i: nat, ghost b: nat)
      requires Valid() && Held(i, b) && Refs()[b] > 1
      modifies buf
      ensures Valid() && KeepsHeld(-1)
      ensures buf[..] == old(buf[..])[i := old(buf[i]).(refcnt := old(buf[i]).refcnt - 1)]
      ensures View() == old(View()) && Locks() == old(Locks())
      ensures old(HasIdle()) ==> HasIdle()
      ensures Refs() == old(Refs())[b := old(Refs())[b] - 1]
    {
      hide Bcache.Ordered;
      hide Contents;
      hide RefTable;
      hide LockTable;
      hide SomeIdle;
      UpdateBuffer(buf[..], at, disk, i, buf[i].(refcnt := buf[i].refcnt - 1));
      if HasIdle() {
        StillIdle(buf[..], i, buf[i].(refcnt := buf[i].refcnt - 1));
      }
      buf[i] := buf[i].(refcnt := buf[i].refcnt - 1);
    }
  }
}
