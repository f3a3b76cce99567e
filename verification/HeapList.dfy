/** The circular, address-ordered free list of the user-level allocator, and who owns each unit of the heap. */
module HeapList {

  /** A header is one unit; addresses and sizes count units of sizeof(Header) bytes. */
  const HEADER := 16

  datatype Header = Header(ptr: nat, size: nat)

  /**
   * Headers by address; the free blocks with the base header; the blocks handed out; and the block
   * that owns each unit got from sbrk.
   */
  datatype Heap = Heap(base: nat, mem: map<nat, Header>, free: set<nat>, live: set<nat>, own: map<nat, nat>)

  function Next(s: Heap, h: nat): nat
    requires h in s.mem
  {
    s.mem[h].ptr
  }

  function End(s: Heap, h: nat): nat
    requires h in s.mem
  {
    h + s.mem[h].size
  }

  /** From each block the list goes to the next higher one, and from the highest back to the base. */
  ghost predicate ListOk(s: Heap) {
    && s.base in s.free && s.free <= s.mem.Keys && s.mem[s.base].size == 0
    && (forall g :: g in s.free ==> s.base <= g)
    && (forall h {:trigger Next(s, h)} :: h in s.free ==> Next(s, h) in s.free)
    && (forall h, g {:trigger Next(s, h), g in s.free} :: h in s.free && g in s.free ==>
          if h < Next(s, h) then g <= h || Next(s, h) <= g else Next(s, h) == s.base && g <= h)
  }

  ghost predicate IsBlock(s: Heap, h: nat) {
    h in s.live || (h in s.free && h != s.base)
  }

  ghost predicate BlocksOk(s: Heap) {
    && s.live <= s.mem.Keys && s.live !! s.free && s.free <= s.mem.Keys
    && forall h :: IsBlock(s, h) ==> s.base < h && s.mem[h].size > 0
  }

  ghost predicate UnitsOk(s: Heap)
    requires BlocksOk(s)
  {
    forall u :: u in s.own ==> IsBlock(s, s.own[u]) && s.own[u] <= u < End(s, s.own[u])
  }

  ghost predicate SpansOk(s: Heap)
    requires BlocksOk(s)
  {
    forall h: nat, u: nat :: IsBlock(s, h) && h <= u < End(s, h) ==> u in s.own && s.own[u] == h
  }

  /** Every unit belongs to exactly one block, free or live, and every block to its units. */
  ghost predicate OwnOk(s: Heap) { BlocksOk(s) && UnitsOk(s) && SpansOk(s) }

  /** No free block touches the next, but perhaps those in joints. */
  ghost predicate Apart(s: Heap, joints: set<nat>)
    requires s.free <= s.mem.Keys
  {
    forall h {:trigger Next(s, h)} {:trigger End(s, h)} ::
      h in s.free && h != s.base && h < Next(s, h) && h !in joints ==> End(s, h) < Next(s, h)
  }

  ghost predicate Good(s: Heap) { ListOk(s) && OwnOk(s) && Apart(s, {}) }

  // ----- going round the list

  /** The free blocks from p round to stop. */
  ghost function Left(s: Heap, p: nat, stop: nat): set<nat> {
    set g | g in s.free && if p <= stop then p <= g <= stop else p <= g || g <= stop
  }

  lemma LeftStep(s: Heap, p: nat, stop: nat)
    requires ListOk(s) && p in s.free && stop in s.free && p != stop
    ensures Next(s, p) in s.free && Left(s, Next(s, p), stop) == Left(s, p, stop) - {p} && p in Left(s, p, stop)
  {
  }

  lemma LeftAll(s: Heap, p: nat)
    requires ListOk(s) && p in s.free
    ensures Next(s, p) in s.free && Left(s, Next(s, p), p) == s.free && Left(s, p, p) == {p}
  {
  }

  function Steps(s: Heap, k: nat): nat {
    if k == 0 then s.base
    else if Steps(s, k - 1) in s.mem then Next(s, Steps(s, k - 1)) else s.base
  }

  /** One cycle: from the base, the list comes to every free block. */
  lemma {:induction false} EveryBlockReached(s: Heap, h: nat) returns (k: nat)
    requires ListOk(s) && h in s.free
    ensures Steps(s, k) == h
    decreases h
  {
    if h == s.base {
      k := 0;
    } else {
      var g := Before(s, h);
      k := EveryBlockReached(s, g);
      k := k + 1;
      assert Steps(s, k) == Next(s, g);
    }
  }

  /** The highest free block below address h. */
  lemma Before(s: Heap, h: nat) returns (g: nat)
    requires ListOk(s) && s.base < h
    ensures g in s.free && g < h && forall f :: f in s.free && f < h ==> f <= g
    ensures h in s.free ==> Next(s, g) == h
  {
    var below := set f | f in s.free && f < h;
    assert s.base in below;
    g := Highest(below);
    assert forall f :: f in s.free && f < h ==> f in below;
  }

  lemma {:induction false} Highest(a: set<nat>) returns (m: nat)
    requires a != {}
    ensures m in a && forall x :: x in a ==> x <= m
    decreases |a|
  {
    m :| m in a;
    var rest := a - {m};
    assert forall x :: x in a ==> x == m || x in rest;
    if rest != {} {
      var n := Highest(rest);
      m := if n > m then n else m;
    }
  }

  // ----- putting a live block on the list

  ghost predicate IsPlace(s: Heap, p: nat, bp: nat) {
    p in s.free && p < bp && forall f :: f in s.free ==> f <= p || bp < f
  }

  /** bp linked in after p, joined to neither neighbour. */
  function Linked(s: Heap, p: nat, bp: nat): Heap
    requires p in s.mem && bp in s.mem
  {
    Heap(s.base, s.mem[bp := Header(Next(s, p), s.mem[bp].size)][p := Header(bp, s.mem[p].size)],
         s.free + {bp}, s.live - {bp}, s.own)
  }

  lemma LinkedFresh(s: Heap, bp: nat)
    requires Good(s) && bp in s.live
    ensures bp !in s.free && bp in s.mem && s.base < bp
  {
    assert IsBlock(s, bp);
  }

  lemma LinkedList(s: Heap, p: nat, bp: nat)
    requires Good(s) && bp in s.live && IsPlace(s, p, bp)
    ensures ListOk(Linked(s, p, bp))
  {
    hide OwnOk;
    hide Apart;
    LinkedFresh(s, bp);
    var t := Linked(s, p, bp);
    assert Next(t, bp) == Next(s, p);
    assert forall g {:trigger Next(t, g)} {:trigger End(t, g)} :: g in s.free ==> Next(t, g) == (if g == p then bp else Next(s, g)) && End(t, g) == End(s, g);
  }

  lemma LinkedOwn(s: Heap, p: nat, bp: nat)
    requires Good(s) && bp in s.live && IsPlace(s, p, bp)
    ensures OwnOk(Linked(s, p, bp))
  {
    hide ListOk;
    hide Apart;
    var n := Linked(s, p, bp);
    forall h ensures IsBlock(n, h) <==> IsBlock(s, h) {
    }
  }

  lemma LinkedApart(s: Heap, p: nat, bp: nat)
    requires Good(s) && bp in s.live && IsPlace(s, p, bp)
    ensures bp in Linked(s, p, bp).mem && Linked(s, p, bp).free <= Linked(s, p, bp).mem.Keys
    ensures Apart(Linked(s, p, bp), {p, bp})
  {
    hide OwnOk;
    LinkedFresh(s, bp);
    var t := Linked(s, p, bp);
    assert Next(t, bp) == Next(s, p);
    assert forall g {:trigger Next(t, g)} {:trigger End(t, g)} :: g in s.free ==> Next(t, g) == (if g == p then bp else Next(s, g)) && End(t, g) == End(s, g);
  }

  /** Blocks do not overlap. */
  lemma BlocksDisjoint(s: Heap, g: nat, h: nat)
    requires OwnOk(s) && IsBlock(s, g) && IsBlock(s, h) && g < h
    ensures g in s.mem && End(s, g) <= h
  {
    assert h in s.mem;
    assert h in s.own && s.own[h] == h;
  }

  /** Block h joined with the next one, which it touches. */
  ghost function Joined(s: Heap, h: nat): Heap
    requires h in s.mem && Next(s, h) in s.mem
  {
    var n := Next(s, h);
    Heap(s.base, s.mem[h := Header(Next(s, n), s.mem[h].size + s.mem[n].size)], s.free - {n}, s.live,
         map u | u in s.own :: if s.own[u] == n then h else s.own[u])
  }

  ghost predicate CanJoin(s: Heap, h: nat) {
    && ListOk(s) && OwnOk(s) && h in s.free && h in s.mem && h != s.base && h < Next(s, h) && End(s, h) == Next(s, h)
  }

  lemma JoinedList(s: Heap, h: nat)
    requires CanJoin(s, h)
    ensures Next(s, h) in s.mem && ListOk(Joined(s, h))
  {
    hide OwnOk;
    var t, n := Joined(s, h), Next(s, h);
    assert forall g {:trigger Next(t, g)} :: g in t.free ==> Next(t, g) == (if g == h then Next(s, n) else Next(s, g));
    assert forall g {:trigger End(t, g)} :: g in t.free && g != h ==> End(t, g) == End(s, g);
    assert End(t, h) == End(s, n);
  }

  lemma JoinedOwn(s: Heap, h: nat)
    requires CanJoin(s, h)
    ensures Next(s, h) in s.mem && OwnOk(Joined(s, h)) && Joined(s, h).own.Keys == s.own.Keys
  {
    JoinedBlocks(s, h);
    JoinedUnits(s, h);
    JoinedSpans(s, h);
    hide BlocksOk;
    hide UnitsOk;
    hide SpansOk;
    hide ListOk;
  }

  lemma JoinedBlocks(s: Heap, h: nat)
    requires CanJoin(s, h)
    ensures Next(s, h) in s.mem && IsBlock(s, Next(s, h)) && IsBlock(s, h) && BlocksOk(Joined(s, h))
    ensures forall g :: IsBlock(Joined(s, h), g) <==> IsBlock(s, g) && g != Next(s, h)
  {
    hide UnitsOk;
    hide SpansOk;
  }

  lemma JoinedUnits(s: Heap, h: nat)
    requires CanJoin(s, h)
    ensures Next(s, h) in s.mem && BlocksOk(Joined(s, h)) && UnitsOk(Joined(s, h))
  {
    JoinedBlocks(s, h);
    hide IsBlock;
    hide SpansOk;
    hide ListOk;
  }

  lemma JoinedSpans(s: Heap, h: nat)
    requires CanJoin(s, h)
    ensures Next(s, h) in s.mem && BlocksOk(Joined(s, h)) && SpansOk(Joined(s, h))
  {
    JoinedBlocks(s, h);
    hide IsBlock;
    hide UnitsOk;
    hide ListOk;
    var n, t := Next(s, h), Joined(s, h);
    forall g: nat, u: nat | IsBlock(t, g) && g <= u < End(t, g) ensures u in t.own && t.own[u] == g {
      if g == h && u >= n {
        assert IsBlock(s, n) && n <= u < End(s, n);
      } else {
        assert IsBlock(s, g) && g <= u < End(s, g);
      }
    }
  }

  lemma JoinedApart(s: Heap, h: nat, joints: set<nat>)
    requires CanJoin(s, h) && Apart(s, joints + {h}) && Next(s, h) !in joints
    ensures Next(s, h) in s.mem && Joined(s, h).free <= Joined(s, h).mem.Keys && Apart(Joined(s, h), joints)
  {
    hide OwnOk;
    var t, n := Joined(s, h), Next(s, h);
    assert forall g {:trigger Next(t, g)} :: g in t.free ==> Next(t, g) == (if g == h then Next(s, n) else Next(s, g));
    assert forall g {:trigger End(t, g)} :: g in t.free && g != h ==> End(t, g) == End(s, g);
    assert End(t, h) == End(s, n);
  }

  // ----- free

  /** bp on the list after p, joined with the neighbours it touches. */
  ghost function Freed(s: Heap, p: nat, bp: nat): Heap
    requires Good(s) && bp in s.live && IsPlace(s, p, bp)
  {
    LinkedList(s, p, bp);
    var linked := Linked(s, p, bp);
    var upper := if End(s, bp) == Next(s, p) then Joined(linked, bp) else linked;
    if End(s, p) == bp then Joined(upper, p) else upper
  }

  lemma FreedLinked(s: Heap, p: nat, bp: nat)
    requires Good(s) && bp in s.live && IsPlace(s, p, bp)
    ensures bp in s.mem && p in s.mem
    ensures var t := Linked(s, p, bp);
            && ListOk(t) && OwnOk(t) && Next(t, p) == bp && Next(t, bp) == Next(s, p)
            && End(t, bp) == End(s, bp) && End(t, p) == End(s, p)
            && (bp < Next(s, p) ==> End(s, bp) <= Next(s, p)) && End(s, p) <= bp && (Next(s, p) < bp ==> Next(s, p) == s.base)
            && Apart(t, if End(s, bp) == Next(s, p) then {p, bp} else {p})
            && (End(s, bp) == Next(s, p) ==> CanJoin(t, bp))
            && (End(s, p) == bp ==> p != s.base)
  {
    LinkedList(s, p, bp);
    LinkedOwn(s, p, bp);
    LinkedApart(s, p, bp);
    var n := Next(s, p);
    assert IsBlock(s, bp);
    if bp < n {
      assert IsBlock(s, n);
      BlocksDisjoint(s, bp, n);
    }
    if p != s.base {
      assert IsBlock(s, p);
      BlocksDisjoint(s, p, bp);
    }
    hide OwnOk;
  }

  lemma FreedUpper(s: Heap, p: nat, bp: nat)
    requires Good(s) && bp in s.live && IsPlace(s, p, bp)
    ensures bp in s.mem && p in s.mem && Linked(s, p, bp).free <= Linked(s, p, bp).mem.Keys
    ensures bp in Linked(s, p, bp).mem && Next(Linked(s, p, bp), bp) in Linked(s, p, bp).mem
    ensures var t := Linked(s, p, bp);
            var u := if End(s, bp) == Next(s, p) then Joined(t, bp) else t;
            && ListOk(u) && OwnOk(u) && p in u.mem && Next(u, p) == bp && End(u, p) == End(s, p) && p in u.free
            && Apart(u, {p}) && u.base == s.base && u.live == s.live - {bp} && u.own.Keys == s.own.Keys && bp in u.free
            && SameLive(s, u, bp)
  {
    FreedLinked(s, p, bp);
    LinkedSame(s, p, bp);
    var t := Linked(s, p, bp);
    hide Linked;
    hide Apart;
    if End(s, bp) == Next(s, p) {
      JoinedList(t, bp);
      JoinedOwn(t, bp);
      assert {p} + {bp} == {p, bp};
      JoinedApart(t, bp, {p});
      JoinedSame(s, t, bp, bp);
    }
    hide OwnOk;
  }

  /** From s to t the live blocks but for bp are as they were, and just bp's units became free. */
  ghost predicate SameLive(s: Heap, t: Heap, bp: nat) {
    && t.live == s.live - {bp}
    && (forall h :: h in t.live ==> h in s.mem && h in t.mem && t.mem[h].size == s.mem[h].size)
    && t.own.Keys == s.own.Keys
    && forall u :: u in s.own ==> if s.own[u] in s.live && s.own[u] != bp then t.own[u] == s.own[u] else t.own[u] !in t.live
  }

  lemma LinkedSame(s: Heap, p: nat, bp: nat)
    requires Good(s) && bp in s.live && IsPlace(s, p, bp)
    ensures bp in s.mem && p in s.mem && SameLive(s, Linked(s, p, bp), bp)
  {
  }

  lemma SameUnits(s: Heap, t: Heap, bp: nat)
    requires SameLive(s, t, bp)
    ensures t.own.Keys == s.own.Keys
  {
  }

  lemma JoinedSame(s: Heap, t: Heap, bp: nat, h: nat)
    requires SameLive(s, t, bp) && CanJoin(t, h)
    ensures Next(t, h) in t.mem && SameLive(s, Joined(t, h), bp)
  {
    assert h in t.free && Next(t, h) in t.free;
    assert h !in t.live && Next(t, h) !in t.live;
    hide ListOk;
    hide UnitsOk;
    hide SpansOk;
  }

  lemma FreedGood(s: Heap, p: nat, bp: nat)
    requires Good(s) && bp in s.live && IsPlace(s, p, bp)
    ensures Good(Freed(s, p, bp)) && Freed(s, p, bp).base == s.base && SameLive(s, Freed(s, p, bp), bp)
    ensures p in Freed(s, p, bp).free && Freed(s, p, bp).own.Keys == s.own.Keys
  {
    FreedPlace(s, p, bp);
    FreedUpper(s, p, bp);
    hide Linked;
    hide Joined;
    hide ListOk;
    hide OwnOk;
    hide Apart;
    var u := if End(s, bp) == Next(s, p) then Joined(Linked(s, p, bp), bp) else Linked(s, p, bp);
    FreedLower(s, u, p, bp);
  }

  lemma FreedPlace(s: Heap, p: nat, bp: nat)
    requires Good(s) && bp in s.live && IsPlace(s, p, bp)
    ensures p in s.mem && End(s, p) <= bp && (End(s, p) == bp ==> p != s.base)
  {
    FreedLinked(s, p, bp);
  }

  lemma FreedLower(s: Heap, u: Heap, p: nat, bp: nat)
    requires ListOk(u) && OwnOk(u) && p in u.mem && p in u.free && Next(u, p) == bp && p < bp && Apart(u, {p})
    requires u.base == s.base && SameLive(s, u, bp) && (End(u, p) == bp ==> p != s.base) && End(u, p) <= bp
    ensures bp in u.mem
    ensures var t := if End(u, p) == bp then Joined(u, p) else u;
            Good(t) && t.base == s.base && SameLive(s, t, bp) && p in t.free
  {
    if End(u, p) == bp {
      JoinedList(u, p);
      JoinedOwn(u, p);
      assert {} + {p} == {p};
      JoinedApart(u, p, {});
      JoinedSame(s, u, bp, p);
    }
    hide OwnOk;
    hide SameLive;
  }

  /** The headers free writes. */
  lemma FreedHeaders(s: Heap, p: nat, bp: nat)
    requires Good(s) && bp in s.live && IsPlace(s, p, bp)
    ensures p in s.mem && bp in s.mem && Next(s, p) in s.mem
    ensures var n := s.mem[Next(s, p)];
            var upper := if End(s, bp) == Next(s, p) then Header(n.ptr, s.mem[bp].size + n.size)
                         else Header(Next(s, p), s.mem[bp].size);
            Freed(s, p, bp).mem == s.mem[bp := upper][p := if End(s, p) == bp then Header(upper.ptr, s.mem[p].size + upper.size)
                                                             else Header(bp, s.mem[p].size)]
  {
    FreedUpper(s, p, bp);
    hide OwnOk;
    hide Apart;
    assert p != bp;
  }

  // ----- the scan of free

  /** The place for the live block bp on the list. */
  lemma PlaceOf(s: Heap, bp: nat) returns (p: nat)
    requires Good(s) && bp in s.live
    ensures IsPlace(s, p, bp)
  {
    LinkedFresh(s, bp);
    p := Before(s, bp);
  }

  /** The tests of free's loop at block p find the place and nothing else. */
  lemma ScanTests(s: Heap, p: nat, place: nat, bp: nat)
    requires Good(s) && bp in s.live && IsPlace(s, place, bp) && p in s.free
    ensures p in s.mem && Next(s, p) in s.free
    ensures p < bp < Next(s, p) || (p >= Next(s, p) && (bp > p || bp < Next(s, p))) <==> p == place
  {
    LinkedFresh(s, bp);
    hide OwnOk;
  }

  lemma LeftSmaller(s: Heap, p: nat, stop: nat)
    requires Good(s) && p in s.free && stop in s.free && p != stop
    ensures p in s.mem && Next(s, p) in s.free && |Left(s, Next(s, p), stop)| < |Left(s, p, stop)|
  {
    LeftStep(s, p, stop);
  }

  // ----- malloc

  /** From s to t block h, all of its units free before or new, became live; other live blocks are as they were. */
  ghost predicate NewLive(s: Heap, t: Heap, h: nat) {
    && h !in s.live && t.live == s.live + {h} && s.own.Keys <= t.own.Keys
    && (forall g :: g in s.live ==> g in s.mem && g in t.mem && t.mem[g].size == s.mem[g].size)
    && (forall u :: u in s.own && s.own[u] in s.live ==> t.own[u] == s.own[u])
    && (forall u :: u in t.own && t.own[u] in t.live && t.own[u] != h ==> u in s.own && s.own[u] == t.own[u])
  }

  /** Block p, which follows prev, taken off the list. */
  function Unlinked(s: Heap, prev: nat, p: nat): Heap
    requires prev in s.mem && p in s.mem
  {
    Heap(s.base, s.mem[prev := Header(Next(s, p), s.mem[prev].size)], s.free - {p}, s.live + {p}, s.own)
  }

  lemma UnlinkedList(s: Heap, prev: nat, p: nat)
    requires Good(s) && prev in s.free && prev in s.mem && p == Next(s, prev) && p in s.mem && p != s.base
    ensures ListOk(Unlinked(s, prev, p)) && prev in Unlinked(s, prev, p).free
  {
    hide OwnOk;
    hide Apart;
    var t := Unlinked(s, prev, p);
    assert forall g {:trigger Next(t, g)} {:trigger End(t, g)} ::
             g in t.free ==> Next(t, g) == (if g == prev then Next(s, p) else Next(s, g)) && End(t, g) == End(s, g);
  }

  lemma UnlinkedApart(s: Heap, prev: nat, p: nat)
    requires Good(s) && prev in s.free && prev in s.mem && p == Next(s, prev) && p in s.mem && p != s.base
    ensures Unlinked(s, prev, p).free <= Unlinked(s, prev, p).mem.Keys && Apart(Unlinked(s, prev, p), {})
  {
    hide OwnOk;
    var t := Unlinked(s, prev, p);
    assert forall g {:trigger Next(t, g)} {:trigger End(t, g)} ::
             g in t.free ==> Next(t, g) == (if g == prev then Next(s, p) else Next(s, g)) && End(t, g) == End(s, g);
  }

  /** The owners of the units do not change when blocks change lists. */
  lemma OwnSame(s: Heap, t: Heap)
    requires OwnOk(s) && BlocksOk(t) && t.own == s.own
    requires forall h :: IsBlock(t, h) <==> IsBlock(s, h)
    requires forall h :: IsBlock(s, h) ==> h in s.mem && h in t.mem && t.mem[h].size == s.mem[h].size
    ensures OwnOk(t)
  {
    hide IsBlock;
    hide BlocksOk;
  }

  lemma UnlinkedOwn(s: Heap, prev: nat, p: nat)
    requires Good(s) && prev in s.free && prev in s.mem && p == Next(s, prev) && p in s.mem && p != s.base
    ensures OwnOk(Unlinked(s, prev, p)) && NewLive(s, Unlinked(s, prev, p), p)
  {
    var t := Unlinked(s, prev, p);
    assert prev != p by {
      assert prev in s.free && p in s.free;
    }
    hide ListOk;
    hide Apart;
    hide UnitsOk;
    hide SpansOk;
    forall h ensures IsBlock(t, h) <==> IsBlock(s, h) {
    }
    OwnSame(s, t);
  }

  lemma UnlinkedGood(s: Heap, prev: nat, p: nat)
    requires Good(s) && prev in s.free && prev in s.mem && p == Next(s, prev) && p in s.mem && p != s.base
    ensures Good(Unlinked(s, prev, p)) && prev in Unlinked(s, prev, p).free && NewLive(s, Unlinked(s, prev, p), p)
  {
    UnlinkedList(s, prev, p);
    UnlinkedApart(s, prev, p);
    UnlinkedOwn(s, prev, p);
  }

  /** Free block p cut at address q: the part from q on is a block of its own; junk was the first word there. */
  ghost function Split(s: Heap, p: nat, q: nat, junk: nat): Heap
    requires p in s.mem && p < q < End(s, p)
  {
    Heap(s.base, s.mem[p := Header(Next(s, p), q - p)][q := Header(junk, End(s, p) - q)], s.free, s.live + {q},
         Given(s.own, q, End(s, p)))
  }

  /** The units from q up to end given to q. */
  ghost function Given(own: map<nat, nat>, q: nat, end: nat): map<nat, nat> {
    map u | u in own :: if q <= u < end then q else own[u]
  }

  ghost predicate CanSplit(s: Heap, p: nat, q: nat) {
    Good(s) && p in s.free && p in s.mem && p < q < End(s, p)
  }

  lemma SplitFresh(s: Heap, p: nat, q: nat)
    requires CanSplit(s, p, q)
    ensures p != s.base && IsBlock(s, p) && !IsBlock(s, q) && q != s.base && q !in s.live && q !in s.free
    ensures forall u: nat :: p <= u < End(s, p) ==> u in s.own && s.own[u] == p
  {
    assert IsBlock(s, p) && s.own[q] == p;
    forall h: nat | IsBlock(s, h) ensures h != q {
      assert h in s.own && s.own[h] == h;
    }
  }

  /** The list does not see other headers, nor sizes. */
  lemma ListSame(s: Heap, t: Heap)
    requires Good(s) && t.base == s.base && t.free == s.free && s.free <= s.mem.Keys && t.free <= t.mem.Keys
    requires forall h :: h in s.free ==> Next(t, h) == Next(s, h) && End(t, h) <= End(s, h)
    ensures ListOk(t) && Apart(t, {})
  {
    hide OwnOk;
    assert End(t, s.base) <= End(s, s.base);
  }

  lemma FreeInMemory(s: Heap)
    requires Good(s)
    ensures s.free <= s.mem.Keys && s.base in s.free && s.mem[s.base].size == 0
    ensures forall h :: h in s.free ==> s.base <= h
  {
  }

  lemma SplitList(s: Heap, p: nat, q: nat, junk: nat)
    requires CanSplit(s, p, q)
    ensures ListOk(Split(s, p, q, junk))
    ensures Split(s, p, q, junk).free <= Split(s, p, q, junk).mem.Keys && Apart(Split(s, p, q, junk), {})
  {
    SplitFresh(s, p, q);
    hide OwnOk;
    hide ListOk;
    hide Apart;
    hide Given;
    FreeInMemory(s);
    ListSame(s, Split(s, p, q, junk));
  }

  lemma SplitBlocks(s: Heap, p: nat, q: nat, junk: nat)
    requires CanSplit(s, p, q)
    ensures var t := Split(s, p, q, junk);
            && BlocksOk(t) && (forall g :: IsBlock(t, g) <==> IsBlock(s, g) || g == q)
            && q in t.mem && t.mem[q].size == End(s, p) - q
            && forall g :: IsBlock(s, g) ==>
                 g in s.mem && g in t.mem && t.mem[g].size == (if g == p then q - p else s.mem[g].size)
  {
    SplitFresh(s, p, q);
    hide ListOk;
    hide Apart;
    hide UnitsOk;
    hide SpansOk;
    hide Given;
  }

  lemma SplitUnits(s: Heap, p: nat, q: nat, junk: nat)
    requires CanSplit(s, p, q)
    ensures BlocksOk(Split(s, p, q, junk)) && UnitsOk(Split(s, p, q, junk))
  {
    SplitFresh(s, p, q);
    SplitBlocks(s, p, q, junk);
    hide ListOk;
    hide Apart;
    hide IsBlock;
    hide SpansOk;
  }

  lemma SplitSpans(s: Heap, p: nat, q: nat, junk: nat)
    requires CanSplit(s, p, q)
    ensures BlocksOk(Split(s, p, q, junk)) && SpansOk(Split(s, p, q, junk))
  {
    hide ListOk;
    hide OwnOk;
    hide Apart;
    hide BlocksOk;
    hide IsBlock;
    hide Given;
    SplitBlocks(s, p, q, junk);
    var t := Split(s, p, q, junk);
    forall g: nat, u: nat | IsBlock(t, g) && g <= u < End(t, g) ensures u in t.own && t.own[u] == g {
      SplitSpan(s, p, q, g, u);
    }
  }

  lemma SplitSpan(s: Heap, p: nat, q: nat, g: nat, u: nat)
    requires CanSplit(s, p, q) && (g == q || (IsBlock(s, g) && g in s.mem))
    requires g <= u < if g == q then End(s, p) else if g == p then q else End(s, g)
    ensures u in Given(s.own, q, End(s, p)) && Given(s.own, q, End(s, p))[u] == g
  {
    SplitFresh(s, p, q);
    hide ListOk;
    hide Apart;
    hide UnitsOk;
    assert g != q ==> g <= u < End(s, g);
    hide IsBlock;
  }

  lemma SplitLive(s: Heap, p: nat, q: nat, junk: nat)
    requires CanSplit(s, p, q)
    ensures NewLive(s, Split(s, p, q, junk), q)
  {
    SplitFresh(s, p, q);
    hide ListOk;
    hide Apart;
    hide SpansOk;
  }

  lemma SplitGood(s: Heap, p: nat, q: nat, junk: nat)
    requires CanSplit(s, p, q)
    ensures Good(Split(s, p, q, junk)) && NewLive(s, Split(s, p, q, junk), q)
  {
    SplitList(s, p, q, junk);
    SplitUnits(s, p, q, junk);
    SplitSpans(s, p, q, junk);
    SplitLive(s, p, q, junk);
    hide BlocksOk;
    hide UnitsOk;
    hide SpansOk;
    hide NewLive;
    hide ListOk;
  }

  /** n units from sbrk at address q, as a live block. */
  ghost function Grown(s: Heap, q: nat, n: nat, junk: nat): Heap {
    Heap(s.base, s.mem[q := Header(junk, n)], s.free, s.live + {q},
         s.own + map u | u in NewUnits(q, n) :: q)
  }

  ghost function NewUnits(q: nat, n: nat): (r: set<nat>)
    ensures forall u :: u in r <==> q <= u < q + n
  {
    if n == 0 then {} else NewUnits(q, n - 1) + {q + n - 1}
  }

  /** Everything lies below an address that is above all units. */
  lemma AllBelow(s: Heap, q: nat)
    requires Good(s) && q > s.base && forall u :: u in s.own ==> u < q
    ensures forall h: nat :: IsBlock(s, h) ==> h in s.mem && End(s, h) <= q && h < q
    ensures forall h :: h in s.free ==> h < q
  {
    forall h: nat | IsBlock(s, h) ensures h in s.mem && End(s, h) <= q && h < q {
      assert h in s.own && s.own[h] == h;
      assert h <= End(s, h) - 1 < End(s, h);
      assert End(s, h) - 1 in s.own;
    }
    assert forall h :: h in s.free ==> h == s.base || IsBlock(s, h);
  }

  lemma GrownList(s: Heap, q: nat, n: nat, junk: nat)
    requires Good(s) && n > 0 && q > s.base && (forall u :: u in s.own ==> u < q)
    ensures ListOk(Grown(s, q, n, junk)) && Apart(Grown(s, q, n, junk), {})
  {
    AllBelow(s, q);
    hide OwnOk;
    hide ListOk;
    hide Apart;
    FreeInMemory(s);
    ListSame(s, Grown(s, q, n, junk));
  }

  lemma GrownBlocks(s: Heap, q: nat, n: nat, junk: nat)
    requires Good(s) && n > 0 && q > s.base && (forall u :: u in s.own ==> u < q)
    ensures var t := Grown(s, q, n, junk);
            && BlocksOk(t) && q !in s.live && (forall h: nat :: IsBlock(t, h) <==> IsBlock(s, h) || h == q)
            && (forall h: nat :: IsBlock(s, h) ==> h in s.mem && End(s, h) <= q && h < q && t.mem[h] == s.mem[h])
  {
    AllBelow(s, q);
    hide UnitsOk;
    hide SpansOk;
    hide ListOk;
    hide Apart;
  }

  lemma GrownUnits(s: Heap, q: nat, n: nat, junk: nat)
    requires Good(s) && n > 0 && q > s.base && (forall u :: u in s.own ==> u < q)
    ensures BlocksOk(Grown(s, q, n, junk)) && UnitsOk(Grown(s, q, n, junk))
  {
    GrownBlocks(s, q, n, junk);
    hide ListOk;
    hide Apart;
    hide IsBlock;
    hide BlocksOk;
    hide SpansOk;
  }

  lemma GrownSpans(s: Heap, q: nat, n: nat, junk: nat)
    requires Good(s) && n > 0 && q > s.base && (forall u :: u in s.own ==> u < q)
    ensures BlocksOk(Grown(s, q, n, junk)) && SpansOk(Grown(s, q, n, junk))
  {
    GrownBlocks(s, q, n, junk);
    hide ListOk;
    hide Apart;
    hide IsBlock;
    hide BlocksOk;
    hide UnitsOk;
    var t := Grown(s, q, n, junk);
    forall h: nat, u: nat | IsBlock(t, h) && h <= u < End(t, h) ensures u in t.own && t.own[u] == h {
      if h != q {
        assert IsBlock(s, h) && u < End(s, h);
      }
    }
  }

  lemma GrownLive(s: Heap, q: nat, n: nat, junk: nat)
    requires Good(s) && n > 0 && q > s.base && (forall u :: u in s.own ==> u < q)
    ensures NewLive(s, Grown(s, q, n, junk), q)
  {
    GrownBlocks(s, q, n, junk);
    hide ListOk;
    hide Apart;
    hide UnitsOk;
    hide SpansOk;
  }

  lemma GrownGood(s: Heap, q: nat, n: nat, junk: nat)
    requires Good(s) && n > 0 && q > s.base && (forall u :: u in s.own ==> u < q)
    ensures Good(Grown(s, q, n, junk)) && NewLive(s, Grown(s, q, n, junk), q)
  {
    GrownList(s, q, n, junk);
    GrownUnits(s, q, n, junk);
    GrownSpans(s, q, n, junk);
    GrownLive(s, q, n, junk);
    hide ListOk;
    hide BlocksOk;
    hide UnitsOk;
    hide SpansOk;
    hide Apart;
    hide NewLive;
  }

  // ----- more memory, and the scan of malloc

  /** Block p or the next has at least n units. */
  ghost predicate Roomy(s: Heap, p: nat, n: nat) {
    p in s.mem && (s.mem[p].size >= n || (Next(s, p) in s.mem && s.mem[Next(s, p)].size >= n))
  }

  lemma FreedRoomy(s: Heap, p: nat, bp: nat)
    requires Good(s) && bp in s.live && IsPlace(s, p, bp)
    ensures bp in s.mem && Roomy(Freed(s, p, bp), p, s.mem[bp].size)
  {
    FreedHeaders(s, p, bp);
  }

  /** From s to t live blocks stayed as they were, free units stayed free, and new units are free. */
  ghost predicate MoreFree(s: Heap, t: Heap) {
    && t.live == s.live && s.own.Keys <= t.own.Keys
    && (forall g :: g in s.live ==> g in s.mem && g in t.mem && t.mem[g].size == s.mem[g].size)
    && (forall u :: u in s.own && s.own[u] in s.live ==> t.own[u] == s.own[u])
    && (forall u :: u in t.own && t.own[u] in t.live ==> u in s.own && s.own[u] == t.own[u])
  }

  lemma GrownThenFreed(s: Heap, g: Heap, t: Heap, q: nat)
    requires NewLive(s, g, q) && SameLive(g, t, q)
    ensures MoreFree(s, t)
  {
    assert g.live - {q} == s.live;
  }

  lemma MoreThenNew(s: Heap, g: Heap, t: Heap, h: nat)
    requires MoreFree(s, g) && NewLive(g, t, h)
    ensures NewLive(s, t, h)
  {
  }

  lemma FirstHeader(base: nat, mem: map<nat, Header>)
    ensures Good(Heap(base, mem[base := Header(base, 0)], {base}, {}, map[]))
  {
  }

  lemma NextIn(s: Heap, p: nat)
    requires Good(s) && p in s.free
    ensures p in s.mem && Next(s, p) in s.free && Next(s, p) in s.mem
  {
  }

  /** Every free block has been tried once only stop is left. */
  lemma AllTried(s: Heap, stop: nat, n: nat)
    requires Good(s) && stop in s.free && s.free <= s.mem.Keys
    requires forall g :: g in s.free && g !in Left(s, stop, stop) ==> s.mem[g].size < n
    requires s.mem[stop].size < n
    ensures forall g :: g in s.free ==> s.mem[g].size < n
    ensures !Roomy(s, stop, n)
  {
    LeftAll(s, stop);
    NextIn(s, stop);
  }

  lemma MoreFreeTwice(s: Heap, g: Heap, t: Heap)
    requires MoreFree(s, g) && MoreFree(g, t)
    ensures MoreFree(s, t)
  {
  }

  // ----- conservation

  /** The units of the blocks in a set, by their headers. */
  ghost function Total(s: Heap, blocks: set<nat>): nat
    requires blocks <= s.mem.Keys
  {
    if blocks == {} then 0
    else
      var h :| h in blocks;
      s.mem[h].size + Total(s, blocks - {h})
  }

  ghost function OwnedBy(s: Heap, blocks: set<nat>): set<nat> {
    set u | u in s.own && s.own[u] in blocks
  }

  lemma {:induction false} UnitsCount(q: nat, n: nat)
    ensures |NewUnits(q, n)| == n
  {
    if n > 0 {
      UnitsCount(q, n - 1);
    }
  }

  lemma BlockUnits(s: Heap, h: nat)
    requires OwnOk(s) && (IsBlock(s, h) || (h in s.mem && s.mem[h].size == 0 && !IsBlock(s, h)))
    ensures h in s.mem && OwnedBy(s, {h}) == NewUnits(h, s.mem[h].size)
  {
    if IsBlock(s, h) {
      assert forall u: nat :: h <= u < End(s, h) ==> u in s.own && s.own[u] == h;
    }
    hide SpansOk;
    hide NewUnits;
  }

  lemma BlockCount(s: Heap, h: nat)
    requires OwnOk(s) && ListOk(s) && h in s.free + s.live
    ensures h in s.mem && |OwnedBy(s, {h})| == s.mem[h].size
  {
    hide UnitsOk;
    hide SpansOk;
    BlockUnits(s, h);
    UnitsCount(h, s.mem[h].size);
  }

  lemma OwnedSplit(s: Heap, blocks: set<nat>, h: nat)
    requires h in blocks
    ensures |OwnedBy(s, blocks)| == |OwnedBy(s, blocks - {h})| + |OwnedBy(s, {h})|
  {
    assert OwnedBy(s, blocks) == OwnedBy(s, blocks - {h}) + OwnedBy(s, {h});
  }

  lemma {:induction false} TotalOwned(s: Heap, blocks: set<nat>)
    requires OwnOk(s) && ListOk(s) && blocks <= s.free + s.live && blocks <= s.mem.Keys
    ensures Total(s, blocks) == |OwnedBy(s, blocks)|
    decreases |blocks|
  {
    hide OwnOk;
    hide ListOk;
    if blocks == {} {
      assert OwnedBy(s, blocks) == {};
    } else {
      var h :| h in blocks && Total(s, blocks) == s.mem[h].size + Total(s, blocks - {h});
      hide OwnedBy;
      TotalOwned(s, blocks - {h});
      BlockCount(s, h);
      OwnedSplit(s, blocks, h);
    }
  }

  lemma AllOwned(s: Heap)
    requires OwnOk(s)
    ensures |OwnedBy(s, s.free)| + |OwnedBy(s, s.live)| == |s.own| == |s.own.Keys|
  {
    hide SpansOk;
    assert OwnedBy(s, s.free) + OwnedBy(s, s.live) == s.own.Keys;
    assert OwnedBy(s, s.free) !! OwnedBy(s, s.live);
  }

  /** The sizes of the free blocks and of the live ones add up to the units there are. */
  lemma UnitsConserved(s: Heap)
    requires Good(s)
    ensures s.free <= s.mem.Keys && s.live <= s.mem.Keys && Total(s, s.free) + Total(s, s.live) == |s.own|
  {
    hide Total;
    FreeInMemory(s);
    TotalOwned(s, s.free);
    TotalOwned(s, s.live);
    hide ListOk;
    AllOwned(s);
  }

  /** The first malloc makes the list of the base alone; later ones find it. */
  lemma StartSame(s: Heap, t: Heap)
    requires Good(t) && t.live == s.live && t.own == s.own && (s == t || t.live == {})
    ensures MoreFree(s, t)
  {
  }
}
