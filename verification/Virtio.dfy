/** virtio_disk.c: the driver's side of the queue, and the device as it may act between the driver's steps. */
module Virtio {
  import opened Basics
  import opened VirtioQueue

  class Disk {
    const free: array<bool>
    const desc: array<Desc>
    const ops: array<Op>
    const info: array<Info>
    const avail: array<nat>
    const used: array<nat>
    var availIdx: nat
    var usedIdx: nat
    /** How far the driver has looked in used, and the device in avail. */
    var seen: nat
    var devIdx: nat
    /** b->disk of each buffer: its request is not finished. */
    var busy: map<nat, bool>
    ghost var chains: map<nat, Chain>
    ghost var at: seq<Place>
    ghost var offered: seq<nat>
    ghost var posted: seq<nat>

    ghost function State(): Queue
      reads this, free, desc, ops, info, avail, used
    {
      Queue(free[..], desc[..], ops[..], info[..], avail[..], availIdx, devIdx, used[..], usedIdx, seen,
            busy, chains, at, offered, posted)
    }

    ghost predicate Valid()
      reads this, free, desc, ops, info, avail, used
    {
      avail != used && Good(State())
    }

    /** All descriptors start out free and zero, and the rings empty. */
    constructor ()
      ensures Valid() && chains == map[] && fresh(free) && fresh(desc) && fresh(ops) && fresh(info) && fresh(avail) && fresh(used)
    {
      free := new bool[NUM](_ => true);
      desc := new Desc[NUM](_ => EMPTY);
      ops := new Op[NUM](_ => Op(false, 0));
      info := new Info[NUM](_ => Info(None, 0));
      avail := new nat[NUM](_ => 0);
      used := new nat[NUM](_ => 0);
      availIdx, usedIdx, seen, devIdx, busy := 0, 0, 0, 0, map[];
      chains, at, offered, posted := map[], seq(NUM, _ => Unused), [], [];
      new;
      AllFree(State());
    }

    /** The first free descriptor, marked as taken; -1 if there is none. */
    method AllocDesc() returns (r: int)
      requires free.Length == NUM
      modifies free
      ensures -1 <= r < NUM
      ensures r == -1 ==> free[..] == old(free[..]) && forall i :: 0 <= i < NUM ==> !free[i]
      ensures r >= 0 ==> old(free[r]) && free[..] == old(free[..])[r := false]
    {
      var i := 0;
      while i < NUM
        invariant 0 <= i <= NUM && free[..] == old(free[..])
        invariant forall j :: 0 <= j < i ==> !free[j]
      {
        if free[i] {
          free[i] := false;
          return i;
        }
        i := i + 1;
      }
      return -1;
    }

    /** Free a descriptor in use; freeing a free one stops the kernel ("free_desc 2"). */
    method FreeDesc(i: nat)
      requires free.Length == desc.Length == NUM && i < NUM && !free[i]
      modifies free, desc
      ensures free[..] == old(free[..])[i := true] && desc[..] == old(desc[..])[i := EMPTY]
    {
      desc[i] := EMPTY;
      free[i] := true;
    }

    /** The loop of alloc3_desc that gives back what it had taken. */
    method GiveBack(idx: seq<nat>)
      requires free.Length == desc.Length == NUM
      requires forall k :: 0 <= k < |idx| ==> idx[k] < NUM && !free[idx[k]] && desc[idx[k]] == EMPTY
      requires forall j, k :: 0 <= j < k < |idx| ==> idx[j] != idx[k]
      modifies free, desc
      ensures desc[..] == old(desc[..])
      ensures forall x: nat :: x < NUM ==> free[x] == (old(free[x]) || x in idx)
    {
      var j := 0;
      while j < |idx|
        invariant 0 <= j <= |idx| && desc[..] == old(desc[..])
        invariant forall x: nat :: x < NUM ==> free[x] == (old(free[x]) || x in idx[..j])
      {
        assert desc[idx[j]] == old(desc[..])[idx[j]];
        FreeDesc(idx[j]);
        assert idx[..j + 1] == idx[..j] + [idx[j]];
        j := j + 1;
      }
      assert idx[..j] == idx;
    }

    /** Three free descriptors; without three free it takes none. */
    method Alloc3Desc() returns (r: int, idx: seq<nat>)
      requires free.Length == desc.Length == NUM
      requires forall i :: 0 <= i < NUM && free[i] ==> desc[i] == EMPTY
      modifies free, desc
      ensures desc[..] == old(desc[..])
      ensures r == 0 || r == -1
      ensures r == -1 ==> free[..] == old(free[..]) && |idx| < 3 && forall i: nat :: i < NUM && free[i] ==> i in idx
      ensures r == 0 ==>
                && |idx| == 3 && idx[0] < NUM && idx[1] < NUM && idx[2] < NUM
                && idx[0] != idx[1] && idx[0] != idx[2] && idx[1] != idx[2]
                && old(free[idx[0]]) && old(free[idx[1]]) && old(free[idx[2]])
                && free[..] == Set3(old(free[..]), idx[0], idx[1], idx[2], false, false, false)
    {
      ghost var was := free[..];
      idx := [];
      var i := 0;
      while i < 3
        invariant 0 <= i <= 3 && |idx| == i && desc[..] == old(desc[..])
        invariant forall k :: 0 <= k < i ==> idx[k] < NUM && was[idx[k]] && !free[idx[k]]
        invariant forall j, k :: 0 <= j < k < i ==> idx[j] != idx[k]
        invariant forall x: nat :: x < NUM && x !in idx ==> free[x] == was[x]
      {
        var d := AllocDesc();
        if d < 0 {
          GiveBack(idx);
          return -1, idx;
        }
        assert d !in idx;
        idx := idx + [d];
        i := i + 1;
      }
      r := 0;
    }

    /**
     * virtio_disk_rw up to the wait: format a request in three descriptors and offer it. It returns
     * the head of the chain, or -1 when fewer than three descriptors are free and the caller sleeps.
     */
    method Submit(buf: nat, write: bool, blockno: nat) returns (h: int)
      requires Valid() && forall g :: g in chains ==> chains[g].buf != buf
      modifies this, free, desc, ops, info, avail
      ensures Valid() && -1 <= h < NUM
      ensures h == -1 ==> State() == old(State()) && |FreeSet(State())| < 3
      ensures h >= 0 ==>
                && h in chains && chains[h].second < NUM && chains[h].third < NUM
                && CanSubmit(old(State()), h, chains[h].second, chains[h].third, buf)
                && State() == Submitted(old(State()), h, chains[h].second, chains[h].third, buf, write, 2 * blockno)
      ensures h >= 0 ==>
                var j, k := chains[h].second, chains[h].third;
                && ops[h] == Op(write, 2 * blockno)
                && desc[h] == Desc(Header(h), 16, true, false, j)
                && desc[j] == Desc(Data(buf), 1024, true, !write, k)
                && desc[k] == Desc(Status(h), 1, false, true, 0)
                && info[h] == Info(Some(buf), 0xff) && busy == old(busy)[buf := true]
                && avail[old(availIdx) % NUM] == h && availIdx == (old(availIdx) + 1) % 0x1_0000
                && chains == old(chains)[h := Chain(j, k, buf, write, 2 * blockno, Offered)] && offered == old(offered) + [h]
                && forall u :: 0 <= u < NUM ==> free[u] == (old(free[u]) && u != h && u != j && u != k)
    {
      hide ChainsOk;
      hide DescOk;
      hide BufsOk;
      hide RingOk;
      hide FreeSet;
      hide Set3;
      hide Good;
      ghost var s := State();
      FreeEmpty(s);
      assert |free[..]| == free.Length && |desc[..]| == desc.Length;
      var r, idx := Alloc3Desc();
      if r != 0 {
        assert State() == s;
        FewFree(s, idx);
        return -1;
      }
      assert State() == s.(free := Set3(s.free, idx[0], idx[1], idx[2], false, false, false));
      Offer(idx[0], idx[1], idx[2], buf, write, blockno * (1024 / 512), s);
      SubmittedRequest(s, idx[0], idx[1], idx[2], buf, write, 2 * blockno);
      assert free[..] == State().free && desc[..] == State().desc && ops[..] == State().ops;
      assert info[..] == State().info && avail[..] == State().avail;
      return idx[0];
    }

    /** The request in three descriptors just taken; s is the state before they were. */
    method Offer(i: nat, j: nat, k: nat, buf: nat, write: bool, sector: nat, ghost s: Queue)
      requires avail != used && CanSubmit(s, i, j, k, buf)
      requires State() == s.(free := Set3(s.free, i, j, k, false, false, false))
      modifies this`availIdx, this`busy, this`chains, this`at, this`offered, desc, ops, info, avail
      ensures Valid() && State() == Submitted(s, i, j, k, buf, write, sector)
    {
      hide ChainsOk;
      hide DescOk;
      hide BufsOk;
      hide RingOk;
      hide FreeSet;
      hide Set3;
      hide Good;
      CanSubmitSized(s, i, j, k, buf);
      hide CanSubmit;
      assert |free[..]| == free.Length && |desc[..]| == desc.Length && |ops[..]| == ops.Length;
      assert |info[..]| == info.Length && |avail[..]| == avail.Length;
      SubmittedGood(s, i, j, k, buf, write, sector);
      Format(i, j, k, buf, write, sector);
      busy := busy[buf := true];
      avail[availIdx % NUM] := i;
      availIdx := (availIdx + 1) % WRAP;
      chains := chains[i := Chain(j, k, buf, write, sector, Offered)];
      offered, at := offered + [i], Set3(at, i, j, k, In(i, 0), In(i, 1), In(i, 2));
    }

    /** Fill in the header, the three descriptors and the record of a request. */
    method Format(i: nat, j: nat, k: nat, buf: nat, write: bool, sector: nat)
      requires desc.Length == ops.Length == info.Length == NUM
      requires i < NUM && j < NUM && k < NUM && i != j && i != k && j != k
      modifies desc, ops, info
      ensures desc[..] == Set3(old(desc[..]), i, j, k, Desc(Header(i), 16, true, false, j),
                               Desc(Data(buf), 1024, true, !write, k), Desc(Status(i), 1, false, true, 0))
      ensures ops[..] == old(ops[..])[i := Op(write, sector)] && info[..] == old(info[..])[i := Info(Some(buf), 0xff)]
    {
      ops[i] := Op(write, sector);
      desc[i] := Desc(Header(i), 16, true, false, j);
      var writes := false;
      if !write {
        writes := true;
      }
      desc[j] := Desc(Data(buf), 1024, true, writes, k);
      desc[k] := Desc(Status(i), 1, false, true, 0);
      info[i] := Info(Some(buf), 0xff);
    }

    /** The device takes the next request from avail: the oldest offered, whose entry is intact. */
    method DeviceTake() returns (h: nat)
      requires Valid() && offered != []
      modifies this`devIdx, this`chains, this`offered
      ensures Valid() && h == old(offered)[0] && h in old(chains) && State() == TakenBy(old(State()))
      ensures avail[old(devIdx) % NUM] == h && devIdx == (old(devIdx) + 1) % 0x1_0000 && offered == old(offered)[1..]
      ensures old(chains[h]).phase == Offered && chains == old(chains)[h := old(chains[h]).(phase := Taken)]
    {
      hide ChainsOk;
      hide DescOk;
      hide BufsOk;
      hide RingOk;
      hide FreeSet;
      ghost var s := State();
      TakenGood(s);
      RingFacts(s.avail, s.devIdx, s.offered, s.chains, Offered);
      h := avail[devIdx % NUM];
      devIdx := (devIdx + 1) % WRAP;
      chains, offered := chains[h := chains[h].(phase := Taken)], offered[1..];
      assert State() == TakenBy(s);
    }

    /** The device completes a request it has taken, whichever it likes. */
    method DevicePost(h: nat)
      requires Valid() && h in chains && chains[h].phase.Taken?
      modifies this`usedIdx, this`chains, this`posted, used, info
      ensures Valid() && h < NUM && State() == PostedBy(old(State()), h)
      ensures used[old(usedIdx) % NUM] == h && usedIdx == (old(usedIdx) + 1) % 0x1_0000 && posted == old(posted) + [h]
      ensures info[h] == old(info[h]).(status := 0) && chains == old(chains)[h := old(chains[h]).(phase := Posted)]
    {
      hide ChainsOk;
      hide DescOk;
      hide BufsOk;
      hide RingOk;
      hide FreeSet;
      ghost var s := State();
      PostedGood(s, h);
      info[h] := info[h].(status := 0);
      used[usedIdx % NUM] := h;
      usedIdx := (usedIdx + 1) % WRAP;
      chains, posted := chains[h := chains[h].(phase := Posted)], posted + [h];
      assert State() == PostedBy(s, h);
    }

    /** A round of the interrupt handler: the oldest completion posted. */
    method IntrOne()
      requires Valid() && posted != []
      modifies this`seen, this`busy, this`chains, this`posted
      ensures Valid() && old(posted)[0] in old(chains) && State() == SeenBy(old(State()))
      ensures var h := old(posted)[0];
              && used[old(seen) % NUM] == h && seen == (old(seen) + 1) % 0x1_0000 && posted == old(posted)[1..]
              && busy == old(busy)[old(chains[h]).buf := false]
              && chains == old(chains)[h := old(chains[h]).(phase := Done)]
    {
      hide ChainsOk;
      hide DescOk;
      hide BufsOk;
      hide RingOk;
      hide FreeSet;
      ghost var s := State();
      SeenGood(s);
      var id := used[seen % NUM];
      assert info[id].status == 0;
      var b := info[id].b.value;
      busy := busy[b := false];
      seen := (seen + 1) % WRAP;
      chains := chains[id := chains[id].(phase := Done)];
      posted := posted[1..];
      assert State() == SeenBy(s);
    }

    /** virtio_disk_intr: take note of every completion posted; a status other than 0 would stop the kernel. */
    method Intr()
      requires Valid()
      modifies this`seen, this`busy, this`chains, this`posted
      ensures Valid() && posted == [] && Completed(old(State()), State(), old(posted))
      ensures busy.Keys == old(busy).Keys
      ensures forall b :: b in busy ==>
                busy[b] == (old(busy)[b] && forall h :: h in old(chains) && h in old(posted) ==> old(chains)[h].buf != b)
    {
      hide ChainsOk;
      hide DescOk;
      hide BufsOk;
      hide RingOk;
      hide FreeSet;
      hide Completed;
      ghost var s := State();
      ghost var n := 0;
      CompletedNone(s);
      while seen != usedIdx
        invariant Valid() && n <= |s.posted| && posted == s.posted[n..] && Completed(s, State(), s.posted[..n])
        decreases |posted|
      {
        ghost var was := State();
        SomePosted(was);
        PostedBuf(was);
        IntrOne();
        CompletedNext(s, was, n);
        n := n + 1;
      }
      NonePosted(State());
      assert s.posted[..n] == s.posted;
      CompletedBusy(s, State(), s.posted);
    }

    /**
     * virtio_disk_rw after the wait: the request is done, its chain is given back. Exactly its three
     * descriptors become free.
     */
    method Finish(h: nat)
      requires Valid() && h in chains && chains[h].buf in busy && !busy[chains[h].buf]
      modifies this`chains, this`at, free, desc, info
      ensures Valid() && h < NUM && old(chains)[h].second < NUM && old(chains)[h].third < NUM
      ensures State() == Finished(old(State()), h)
      ensures chains == old(chains) - {h} && info[h] == old(info[h]).(b := None)
      ensures var j, k := old(chains)[h].second, old(chains)[h].third;
              && desc[h] == desc[j] == desc[k] == EMPTY
              && forall u :: 0 <= u < NUM ==> free[u] == (old(free[u]) || u == h || u == j || u == k)
    {
      hide Good;
      hide Sized;
      hide Set3;
      ghost var s := State();
      DoneBusy(s, h);
      FinishedGood(s, h);
      ChainToFree(s, h);
      info[h] := info[h].(b := None);
      FreeChain(h, chains[h].second, chains[h].third);
      at := Set3(at, h, chains[h].second, chains[h].third, Unused, Unused, Unused);
      chains := chains - {h};
      assert State() == Finished(s, h);
      FinishedFree(s, h);
      assert free[..] == State().free && desc[..] == State().desc;
    }

    /** Free the descriptors from i on along the chain; j and k are those that follow. */
    method FreeChain(i: nat, ghost j: nat, ghost k: nat)
      requires free.Length == desc.Length == NUM && i < NUM && j < NUM && k < NUM && i != j && i != k && j != k
      requires !free[i] && !free[j] && !free[k]
      requires desc[i].hasNext && desc[i].next == j && desc[j].hasNext && desc[j].next == k && !desc[k].hasNext
      modifies free, desc
      ensures free[..] == Set3(old(free[..]), i, j, k, true, true, true)
      ensures desc[..] == Set3(old(desc[..]), i, j, k, EMPTY, EMPTY, EMPTY)
    {
      ghost var f, d := free[..], desc[..];
      var n := i;
      ghost var step := 0;
      while true
        invariant 0 <= step < 3 && n == (if step == 0 then i else if step == 1 then j else k)
        invariant free[..] == (if step == 0 then f else if step == 1 then f[i := true] else f[i := true][j := true])
        invariant desc[..] == (if step == 0 then d else if step == 1 then d[i := EMPTY] else d[i := EMPTY][j := EMPTY])
        decreases 3 - step
      {
        assert !free[..][n] && desc[..][n] == d[n];
        var flag, nxt := desc[n].hasNext, desc[n].next;
        FreeDesc(n);
        if flag {
          n := nxt;
          step := step + 1;
        } else {
          break;
        }
      }
    }
  }
}
