/** umalloc.c: the user-level allocator. Addresses are in units of a header. */
module Umalloc {
  import opened HeapList

  /** A uint64 as the int that sbrk takes. */
  function AsInt(x: nat): int {
    var y := x % 0x1_0000_0000;
    if y < 0x8000_0000 then y else y - 0x1_0000_0000
  }

  /** The units malloc looks for: room for nbytes, and a header. */
  function Units(nbytes: nat): (n: nat)
    ensures (n - 1) * HEADER >= nbytes && (n - 2) * HEADER < nbytes
  {
    (nbytes + HEADER - 1) / HEADER + 1
  }

  /** The units that morecore asks for. */
  function Chunk(nu: nat): nat { if nu < 4096 then 4096 else nu }

  /** morecore gets what it asks for just when the request is less than 2 GiB; the int is wrong for every larger one. */
  lemma RequestExact(nbytes: nat)
    requires nbytes < 0x1_0000_0000
    ensures AsInt(Chunk(Units(nbytes)) * HEADER) == Chunk(Units(nbytes)) * HEADER <==> nbytes <= 0x7FFF_FFE0
  {
  }

  /** For the largest requests sbrk is asked for nothing, and succeeds. */
  lemma RequestLost(nbytes: nat)
    requires 0xFFFF_FFE1 <= nbytes <= 0xFFFF_FFF0
    ensures AsInt(Chunk(Units(nbytes)) * HEADER) == 0
  {
  }

  class Allocator {
    const base: nat
    var mem: map<nat, Header>
    /** The address of a free block, or 0 before the first malloc. */
    var freep: nat
    /** The end of the process's memory. */
    var brk: nat
    ghost var free: set<nat>
    ghost var live: set<nat>
    ghost var own: map<nat, nat>
    /** The units that sbrk has returned to morecore. */
    ghost var granted: set<nat>

    ghost function State(): Heap
      reads this
    {
      Heap(base, mem, free, live, own)
    }

    /** Every unit granted, and no other, belongs to a block. */
    ghost predicate Accounted()
      reads this
    {
      own.Keys == granted && forall u :: u in granted ==> u < brk
    }

    ghost predicate Valid()
      reads this
    {
      && 0 < base < brk && Accounted()
      && if freep == 0 then free == {} && live == {} && own == map[] else Good(State()) && freep in free
    }

    constructor (header: nat, end: nat)
      requires 0 < header < end
      ensures Valid() && freep == 0 && live == {} && granted == {}
    {
      base, mem, freep, brk, free, live, own, granted := header, map[], 0, end, {}, {}, map[], {};
    }

    /**
     * Put the block behind ap back on the list, joined with the free blocks it touches. The scan
     * for its place goes round the list at most once.
     */
    method Free(ap: nat)
      requires Valid() && ap > 0 && ap - 1 in live
      modifies this`mem, this`freep, this`free, this`live, this`own
      ensures Valid() && freep != 0 && brk == old(brk) && SameLive(old(State()), State(), ap - 1)
      ensures ap - 1 in old(mem) && Roomy(State(), freep, old(mem)[ap - 1].size)
    {
      hide Good;
      hide SameLive;
      hide Roomy;
      hide IsPlace;
      hide Freed;
      ghost var s := State();
      var bp := ap - 1;
      var p := FindPlace(bp);
      FreedGood(s, p, bp);
      FreedRoomy(s, p, bp);
      assert bp in mem;
      Relink(p, bp);
      freep := p;
      FreeInMemory(State());
      SameUnits(s, State(), bp);
    }

    /** The scan of free, for the free block that the block bp comes after. */
    method FindPlace(bp: nat) returns (p: nat)
      requires Valid() && freep != 0 && bp in live
      ensures IsPlace(State(), p, bp)
    {
      hide Good;
      hide IsPlace;
      ghost var s := State();
      ghost var place := PlaceOf(s, bp);
      p := freep;
      FreeInMemory(s);
      while !(bp > p && bp < mem[p].ptr)
        invariant p in free && p in mem
        decreases |Left(s, p, place)|
      {
        ScanTests(s, p, place, bp);
        if p >= mem[p].ptr && (bp > p || bp < mem[p].ptr) {
          break;
        }
        LeftSmaller(s, p, place);
        p := mem[p].ptr;
      }
      ScanTests(s, p, place, bp);
    }

    /** The part of free that links bp in after p, or joins it with its neighbours. */
    method Relink(p: nat, bp: nat)
      requires Good(State()) && bp in live && IsPlace(State(), p, bp)
      modifies this`mem, this`free, this`live, this`own
      ensures State() == Freed(old(State()), p, bp)
    {
      hide Good;
      hide IsPlace;
      ghost var t := Freed(State(), p, bp);
      FreedGood(State(), p, bp);
      FreedHeaders(State(), p, bp);
      hide Freed;
      if bp + mem[bp].size == mem[p].ptr {
        var next := mem[mem[p].ptr];
        mem := mem[bp := Header(next.ptr, mem[bp].size + next.size)];
      } else {
        mem := mem[bp := Header(mem[p].ptr, mem[bp].size)];
      }
      if p + mem[p].size == bp {
        mem := mem[p := Header(mem[bp].ptr, mem[p].size + mem[bp].size)];
      } else {
        mem := mem[p := Header(bp, mem[p].size)];
      }
      free, live, own := t.free, t.live, t.own;
    }

    /** sbrk of a size that fits an int: the old end of memory, or -1 if the kernel has no more to grant. */
    method Sbrk(units: nat, grant: bool) returns (p: int)
      requires AsInt(units * HEADER) == units * HEADER
      modifies this`brk, this`granted
      ensures if grant then p == old(brk) && brk == old(brk) + units && granted == old(granted) + NewUnits(old(brk), units)
              else p == -1 && brk == old(brk) && granted == old(granted)
    {
      if !grant {
        return -1;
      }
      p := brk;
      granted := granted + NewUnits(brk, units);
      brk := brk + units;
    }

    /** Get at least nu units from the kernel and free them all; 0 if there are none to be had. */
    method Morecore(nu: nat, grant: bool) returns (r: nat)
      requires Valid() && freep != 0 && AsInt(Chunk(nu) * HEADER) == Chunk(nu) * HEADER
      modifies this`mem, this`freep, this`brk, this`free, this`live, this`own, this`granted
      ensures Valid() && freep != 0
      ensures if grant then
                && r == freep && MoreFree(old(State()), State()) && Roomy(State(), freep, nu)
                && brk == old(brk) + (if nu < 4096 then 4096 else nu) && granted == old(granted) + NewUnits(old(brk), brk - old(brk))
              else r == 0 && State() == old(State()) && freep == old(freep) && brk == old(brk) && granted == old(granted)
    {
      hide Good;
      hide SameLive;
      hide NewLive;
      hide MoreFree;
      var n := Chunk(nu);
      var p := Sbrk(n, grant);
      if p == -1 {
        return 0;
      }
      ghost var s := State();
      var hp: nat := p;
      ghost var junk := if hp in mem then mem[hp].ptr else 0;
      GrownGood(s, hp, n, junk);
      mem := mem[hp := Header(if hp in mem then mem[hp].ptr else 0, n)];
      live, own := live + {hp}, Grown(s, hp, n, junk).own;
      ghost var g := State();
      assert g == Grown(s, hp, n, junk);
      Free(hp + 1);
      GrownThenFreed(s, g, State(), hp);
      return freep;
    }

    /**
     * A block of Units(nbytes) units, all of them free or new before. The kernel is asked only when
     * no free block is big enough, and once at most; 0 means that it had no more. The caller sees to
     * it that sbrk, if it comes to that, is asked for what is meant.
     */
    method Malloc(nbytes: nat, grant: bool) returns (ap: nat)
      requires Valid() && nbytes < 0x1_0000_0000
      requires nbytes <= 0x7FFF_FFE0 || exists h :: h in free && h in mem && mem[h].size >= Units(nbytes)
      modifies this`mem, this`freep, this`brk, this`free, this`live, this`own, this`granted
      ensures Valid() && freep != 0
      ensures ap > 0 ==> NewLive(old(State()), State(), ap - 1) && State().mem[ap - 1].size == Units(nbytes)
      ensures ap == 0 ==> !grant && brk == old(brk) && MoreFree(old(State()), State())
      ensures ap == 0 ==> forall h :: h in free && h in mem ==> mem[h].size < Units(nbytes)
      ensures brk != old(brk) ==> forall h :: h in old(free) && h in old(mem) ==> old(mem)[h].size < Units(nbytes)
      ensures if brk == old(brk) then granted == old(granted)
              else && grant && brk == old(brk) + (if Units(nbytes) < 4096 then 4096 else Units(nbytes))
                   && granted == old(granted) + NewUnits(old(brk), brk - old(brk))
    {
      hide ListOk;
      hide OwnOk;
      hide Apart;
      hide NewLive;
      hide MoreFree;
      hide Roomy;
      hide Left;
      hide Accounted;
      hide NewUnits;
      var nunits := Units(nbytes);
      RequestExact(nbytes);
      ghost var first := State();
      Start();
      var prevp := freep;
      ghost var s := State();
      NextIn(s, prevp);
      FreeInMemory(s);
      LeftAll(s, prevp);
      var p := mem[prevp].ptr;
      ghost var more := false;
      while true
        invariant Valid() && freep != 0 && p in free && prevp in free && prevp in mem && mem[prevp].ptr == p
        invariant free <= mem.Keys && MoreFree(first, State())
        invariant !more ==> State() == s && brk == old(brk) && granted == old(granted)
        invariant more ==> Roomy(State(), freep, nunits) && forall h :: h in s.free && h in s.mem ==> s.mem[h].size < nunits
        invariant more ==> grant && brk == old(brk) + Chunk(nunits) && granted == old(granted) + NewUnits(old(brk), Chunk(nunits))
        invariant forall g :: g in free && g !in Left(State(), p, freep) ==> mem[g].size < nunits
        decreases if more then 0 else 1, |Left(State(), p, freep)|
      {
        ghost var t := State();
        FreeInMemory(t);
        NextIn(t, p);
        if mem[p].size >= nunits {
          ap := Carve(prevp, p, nunits);
          MoreThenNew(first, t, State(), ap - 1);
          return;
        }
        if p == freep {
          AllTried(t, p, nunits);
          p := Morecore(nunits, grant);
          if p == 0 {
            return 0;
          }
          MoreFreeTwice(first, t, State());
          more := true;
          LeftAll(State(), p);
          NextIn(State(), p);
          FreeInMemory(State());
        } else {
          LeftStep(t, p, freep);
        }
        prevp := p;
        p := mem[p].ptr;
      }
    }

    /** The first malloc makes a list of the base header alone. */
    method Start()
      requires Valid()
      modifies this`mem, this`freep, this`free
      ensures Valid() && freep != 0 && MoreFree(old(State()), State())
      ensures old(freep) != 0 ==> State() == old(State()) && freep == old(freep)
    {
      hide Good;
      hide MoreFree;
      ghost var s := State();
      if freep == 0 {
        FirstHeader(base, mem);
        freep := base;
        mem := mem[base := Header(base, 0)];
        free := {base};
      }
      StartSame(s, State());
    }

    /** The part of malloc that takes n units from block p, which follows prevp. */
    method Carve(prevp: nat, p: nat, n: nat) returns (ap: nat)
      requires Valid() && freep != 0 && prevp in free && prevp in mem && mem[prevp].ptr == p
      requires p in mem && mem[p].size >= n > 0
      modifies this`mem, this`freep, this`free, this`live, this`own
      ensures Valid() && freep == prevp != 0
      ensures ap > 0 && NewLive(old(State()), State(), ap - 1) && ap - 1 in mem && mem[ap - 1].size == n
    {
      hide ListOk;
      hide OwnOk;
      hide Apart;
      hide NewLive;
      assert own.Keys == granted;
      ghost var s := State();
      NextIn(s, prevp);
      FreeInMemory(s);
      if mem[p].size == n {
        UnlinkedGood(s, prevp, p);
        mem := mem[prevp := Header(mem[p].ptr, mem[prevp].size)];
        free, live := free - {p}, live + {p};
        assert State() == Unlinked(s, prevp, p);
        ap := p + 1;
      } else {
        ghost var q := p + mem[p].size - n;
        ghost var junk := if q in mem then mem[q].ptr else 0;
        SplitGood(s, p, q, junk);
        mem := mem[p := Header(mem[p].ptr, mem[p].size - n)];
        var r := p + mem[p].size;
        mem := mem[r := Header(if r in mem then mem[r].ptr else 0, n)];
        live, own := live + {r}, Given(own, q, End(s, p));
        assert State() == Split(s, p, q, junk);
        ap := r + 1;
      }
      freep := prevp;
    }
  }
}
