/** What each physical page is in use for: the free list, a page table, a mapping, or another part of the kernel. */
module Frames {
  import opened Basics
  import opened PageTables

  /** Free pages are numbered from the end of the free list; a mapped page is held by one level-0 entry. */
  datatype Use = Free(rank: nat) | Table | Mapped(t: nat, i: nat) | Kernel

  /** Memory, the free list as kalloc pops it from the end, and the use of every page. */
  datatype Ram = Ram(t: Tables, freelist: nat, stack: seq<nat>, use: map<nat, Use>)

  /** The address of the free page below rank r. */
  function Link(stack: seq<nat>, r: nat): nat
    requires r <= |stack|
  {
    if r == 0 then 0 else stack[r - 1] * PGSIZE
  }

  /** The list from freelist runs through word 0 of the free pages, and ends in 0. */
  ghost predicate ListOk(mem: map<nat, Page>, freelist: nat, stack: seq<nat>, use: map<nat, Use>) {
    && freelist == Link(stack, |stack|)
    && (forall r :: 0 <= r < |stack| ==>
          && stack[r] in use && use[stack[r]] == Free(r)
          && stack[r] in mem && mem[stack[r]][0] == Link(stack, r))
    && (forall f :: f in use && use[f].Free? ==> use[f].rank < |stack| && stack[use[f].rank] == f)
  }

  /** The pages from lo to hi have a use, and those used as tables are the tables. */
  ghost predicate UseOk(lo: nat, hi: nat, s: Ram) {
    && (forall f :: lo <= f < hi <==> f in s.use)
    && (forall f :: f in s.use ==> f in s.t.mem)
    && (forall f :: f in s.t.lvl <==> f in s.use && s.use[f].Table?)
  }

  ghost predicate MappedOk(s: Ram) {
    forall f :: f in s.use && s.use[f].Mapped? ==> HeldBy(s.t, f, s.use[f].t, s.use[f].i)
  }

  ghost predicate HeldBy(m: Tables, f: nat, t: nat, i: nat) {
    t in m.lvl && t in m.mem && m.lvl[t] == 0 && i < 512 && IsValid(m.mem[t][i]) && Frame(m.mem[t][i]) == f
  }

  ghost predicate Good(lo: nat, hi: nat, s: Ram) {
    && 0 < lo && TablesOk(s.t) && ListOk(s.t.mem, s.freelist, s.stack, s.use) && UseOk(lo, hi, s) && MappedOk(s)
  }

  /** Page vpn is mapped to a page that this mapping alone holds. */
  ghost predicate Owns(s: Ram, root: nat, vpn: nat)
    requires TablesOk(s.t) && IsRoot(s.t, root)
  {
    var t := TableAt(s.t, root, vpn, 0);
    var e := Leaf(s.t, root, vpn);
    && t.Some? && IsValid(e) && Flags(e) != PTE_V
    && Frame(e) in s.use && s.use[Frame(e)] == Mapped(t.value, Index(0, vpn))
  }

  /** From m to n no entry of the flat maps changed, except of root's pages in [first, last). */
  ghost predicate SameBut(m: Tables, n: Tables, root: nat, first: nat, last: nat)
    requires TablesOk(m) && TablesOk(n)
  {
    && (forall r :: IsRoot(m, r) <==> IsRoot(n, r))
    && (forall r, v :: IsRoot(m, r) && 0 <= v < NPAGES ==>
          && (TableAt(m, r, v, 0).Some? ==> TableAt(n, r, v, 0) == TableAt(m, r, v, 0))
          && ((r == root && first <= v < last) || Leaf(n, r, v) == Leaf(m, r, v)))
  }

  /** From s to n every page in use, but for those in gone, kept its use, and its contents unless it is a table. */
  ghost predicate Kept(s: Ram, n: Ram, gone: set<nat>) {
    forall f :: f in s.use && !s.use[f].Free? && f !in gone ==>
      && f in n.use && n.use[f] == s.use[f]
      && (s.use[f].Table? || (f in s.t.mem && f in n.t.mem && n.t.mem[f] == s.t.mem[f]))
  }

  /** From s to n free pages came into use: those in more, and others only as tables. */
  ghost predicate Gained(s: Ram, n: Ram, more: set<nat>) {
    && Kept(s, n, {}) && n.use.Keys == s.use.Keys
    && forall f :: f in n.use && !n.use[f].Free? && !n.use[f].Table? ==>
         if f in more then s.use[f].Free? else s.use[f] == n.use[f]
  }

  /** From s to n nothing happened but that free pages became tables. */
  ghost predicate OnlyTablesAdded(s: Ram, n: Ram) { Gained(s, n, {}) }

  lemma StillAll(lo: nat, hi: nat, s: Ram)
    requires Good(lo, hi, s)
    ensures SameBut(s.t, s.t, 0, 0, 0) && OnlyTablesAdded(s, s)
  {
    hide TablesOk;
    hide TableAt;
    hide Leaf;
  }

  lemma OnlyTablesTwice(s: Ram, n: Ram, p: Ram)
    requires OnlyTablesAdded(s, n) && OnlyTablesAdded(n, p)
    ensures OnlyTablesAdded(s, p)
  {
  }

  /** What leaves a mapping and its page alone leaves it the owner of the page. */
  lemma StillOwns(s: Ram, n: Ram, root: nat, v: nat, other: nat, first: nat, last: nat)
    requires TablesOk(s.t) && TablesOk(n.t) && IsRoot(s.t, root) && v < NPAGES
    requires SameBut(s.t, n.t, other, first, last) && (root == other ==> v < first || v >= last)
    requires Owns(s, root, v)
    requires Frame(Leaf(s.t, root, v)) in n.use && n.use[Frame(Leaf(s.t, root, v))] == s.use[Frame(Leaf(s.t, root, v))]
    ensures IsRoot(n.t, root) && Leaf(n.t, root, v) == Leaf(s.t, root, v) && Owns(n, root, v)
  {
    hide TablesOk;
    hide TableAt;
    hide Leaf;
  }

  /** Two mappings do not own one page. */
  lemma OwnersDiffer(s: Ram, root: nat, v: nat, w: nat)
    requires TablesOk(s.t) && IsRoot(s.t, root) && v < NPAGES && w < NPAGES
    requires Owns(s, root, v) && Owns(s, root, w) && Frame(Leaf(s.t, root, v)) == Frame(Leaf(s.t, root, w))
    ensures v == w
  {
    hide TablesOk;
    hide TableAt;
    hide Leaf;
    hide Index;
    SlotOfOne(s.t, root, v, root, w);
  }

  lemma SameButNothing(m: Tables, root: nat, first: nat)
    requires TablesOk(m)
    ensures SameBut(m, m, root, first, first)
  {
    hide TableAt;
    hide Leaf;
  }

  lemma SameButTwice(m: Tables, n: Tables, p: Tables, root: nat, first: nat, mid: nat, last: nat)
    requires TablesOk(m) && TablesOk(n) && TablesOk(p) && first <= mid <= last
    requires SameBut(m, n, root, first, mid) && SameBut(n, p, root, mid, last)
    ensures SameBut(m, p, root, first, last)
  {
    hide TablesOk;
    hide TableAt;
    hide Leaf;
  }

  /** freelist is 0 only if no page is free. */
  lemma FirstFree(lo: nat, hi: nat, s: Ram)
    requires Good(lo, hi, s)
    ensures if s.stack == [] then s.freelist == 0
            else var f := s.stack[|s.stack| - 1];
                 f > 0 && f in s.use && f in s.t.mem && s.freelist == f * PGSIZE && f * PGSIZE / PGSIZE == f && f * PGSIZE % PGSIZE == 0
  {
    hide TablesOk;
    hide HeldBy;
    LastLink(s.stack);
    hide Link;
    if s.stack != [] {
      var f := s.stack[|s.stack| - 1];
      assert s.use[f].Free?;
    }
  }

  lemma SameButAfter(m: Tables, n: Tables, p: Tables, root: nat, first: nat, last: nat)
    requires TablesOk(m) && TablesOk(n) && TablesOk(p) && first <= last
    requires SameBut(m, n, 0, 0, 0) && SameBut(n, p, root, first, last)
    ensures SameBut(m, p, root, first, last)
  {
    hide TablesOk;
    hide TableAt;
    hide Leaf;
  }

  lemma SameButBefore(m: Tables, n: Tables, p: Tables, root: nat, first: nat, last: nat)
    requires TablesOk(m) && TablesOk(n) && TablesOk(p) && first <= last
    requires SameBut(m, n, root, first, last) && SameBut(n, p, 0, 0, 0)
    ensures SameBut(m, p, root, first, last)
  {
    hide TablesOk;
    hide TableAt;
    hide Leaf;
  }

  lemma WayKept(m: Tables, n: Tables, other: nat, v: nat, root: nat, first: nat, last: nat)
    requires TablesOk(m) && TablesOk(n) && SameBut(m, n, root, first, last)
    requires IsRoot(m, other) && v < NPAGES && TableAt(m, other, v, 0).Some?
    ensures IsRoot(n, other) && TableAt(n, other, v, 0) == TableAt(m, other, v, 0)
  {
  }

  lemma StillMapped(m: Tables, n: Tables, root: nat, at: nat, v: nat)
    requires TablesOk(m) && TablesOk(n) && SameBut(m, n, root, at, at + 1) && IsRoot(m, root)
    requires v < NPAGES && v != at && TableAt(m, root, v, 0).Some?
    ensures IsRoot(n, root) && TableAt(n, root, v, 0) == TableAt(m, root, v, 0) && Leaf(n, root, v) == Leaf(m, root, v)
  {
    hide TablesOk;
    hide TableAt;
    hide Leaf;
  }

  // ----- what the methods do to memory

  /** Writing a page that is no table changes no mapping. */
  lemma DataWritten(s: Ram, f: nat, p: Page)
    requires TablesOk(s.t) && f !in s.t.lvl && MappedOk(s)
    ensures var m := s.t.(mem := s.t.mem[f := p]);
            TablesOk(m) && SameBut(s.t, m, 0, 0, 0) && MappedOk(s.(t := m))
  {
    var m := s.t.(mem := s.t.mem[f := p]);
    SameTablesOk(s.t, m.mem);
    forall r, w: nat | IsRoot(s.t, r) && w < NPAGES
      ensures TableAt(m, r, w, 0) == TableAt(s.t, r, w, 0) && Leaf(m, r, w) == Leaf(s.t, r, w)
    {
      SameTables(s.t, m.mem, r, w, 0);
    }
  }

  const JUNK_FREED := 0x0101_0101_0101_0101
  const JUNK_TAKEN := 0x0505_0505_0505_0505

  /** After kfree of page f: junk, but for the link in word 0. */
  function Freed(s: Ram, f: nat): Ram {
    Ram(s.t.(mem := s.t.mem[f := Filled(JUNK_FREED)[0 := s.freelist]]), f * PGSIZE, s.stack + [f],
        s.use[f := Free(|s.stack|)])
  }

  lemma SameLink(x: seq<nat>, y: seq<nat>, r: nat)
    requires r <= |x| && r <= |y| && (r > 0 ==> x[r - 1] == y[r - 1])
    ensures Link(x, r) == Link(y, r)
  {
  }

  lemma LastLink(x: seq<nat>)
    ensures Link(x, |x|) == if x == [] then 0 else x[|x| - 1] * PGSIZE
  {
  }

  lemma FreedList(s: Ram, f: nat)
    requires ListOk(s.t.mem, s.freelist, s.stack, s.use) && f in s.use && s.use[f].Kernel?
    ensures var n := Freed(s, f); ListOk(n.t.mem, n.freelist, n.stack, n.use)
  {
    hide Link;
    var n := Freed(s, f);
    forall r | 0 <= r <= |s.stack| ensures Link(n.stack, r) == Link(s.stack, r) {
      SameLink(n.stack, s.stack, r);
    }
    LastLink(n.stack);
  }

  lemma FreedGood(lo: nat, hi: nat, s: Ram, f: nat)
    requires Good(lo, hi, s) && f in s.use && s.use[f].Kernel?
    ensures Good(lo, hi, Freed(s, f)) && SameBut(s.t, Freed(s, f).t, 0, 0, 0)
  {
    hide Link;
    DataWritten(s, f, Filled(JUNK_FREED)[0 := s.freelist]);
    hide TablesOk;
    hide HeldBy;
    FreedList(s, f);
  }

  /** After kalloc of the first free page. */
  function Taken(s: Ram): Ram
    requires s.stack != [] && s.stack[|s.stack| - 1] in s.t.mem
  {
    var f := s.stack[|s.stack| - 1];
    Ram(s.t.(mem := s.t.mem[f := Filled(JUNK_TAKEN)]), s.t.mem[f][0], s.stack[..|s.stack| - 1], s.use[f := Kernel])
  }

  lemma TakenList(s: Ram)
    requires ListOk(s.t.mem, s.freelist, s.stack, s.use) && s.stack != []
    ensures s.stack[|s.stack| - 1] in s.t.mem
    ensures var n := Taken(s); ListOk(n.t.mem, n.freelist, n.stack, n.use)
  {
    hide Link;
    var last := |s.stack| - 1;
    var f := s.stack[last];
    var n := Taken(s);
    forall r | 0 <= r <= last ensures Link(n.stack, r) == Link(s.stack, r) {
      SameLink(n.stack, s.stack, r);
    }
  }

  lemma TakenGood(lo: nat, hi: nat, s: Ram)
    requires Good(lo, hi, s) && s.stack != []
    ensures Good(lo, hi, Taken(s)) && SameBut(s.t, Taken(s).t, 0, 0, 0)
  {
    hide Link;
    var f := s.stack[|s.stack| - 1];
    DataWritten(s, f, Filled(JUNK_TAKEN));
    hide TablesOk;
    hide HeldBy;
    assert s.use[f].Free?;
    TakenList(s);
    hide ListOk;
  }

  /** A page in the kernel's hands may be written at will. */
  function KernelWritten(s: Ram, f: nat, p: Page): Ram {
    s.(t := s.t.(mem := s.t.mem[f := p]))
  }

  lemma KernelWrittenGood(lo: nat, hi: nat, s: Ram, f: nat, p: Page)
    requires Good(lo, hi, s) && f in s.use && !s.use[f].Table? && !s.use[f].Free?
    ensures Good(lo, hi, KernelWritten(s, f, p)) && SameBut(s.t, KernelWritten(s, f, p).t, 0, 0, 0)
  {
    hide Link;
    DataWritten(s, f, p);
    hide TablesOk;
    hide HeldBy;
  }

  /** A page becomes the table that entry i of t leads to. */
  ghost function TableAdded(s: Ram, t: nat, i: nat, c: nat): Ram
    requires t in s.t.mem && t in s.t.lvl && s.t.lvl[t] > 0 && i < 512
  {
    s.(t := Grown(s.t, t, i, c), use := s.use[c := Table])
  }

  lemma GrownSameBut(m: Tables, t: nat, i: nat, c: nat)
    requires CanGrow(m, t, i, c)
    ensures TablesOk(Grown(m, t, i, c)) && SameBut(m, Grown(m, t, i, c), 0, 0, 0)
  {
    GrownOk(m, t, i, c);
    var n := Grown(m, t, i, c);
    forall r, w: nat | IsRoot(m, r) && w < NPAGES
      ensures IsRoot(n, r) && Leaf(n, r, w) == Leaf(m, r, w)
      ensures TableAt(m, r, w, 0).Some? ==> TableAt(n, r, w, 0) == TableAt(m, r, w, 0)
    {
      hide TablesOk;
      GrownWay(m, t, i, c, r, w, 0);
      GrownLeaf(m, t, i, c, r, w);
    }
    hide TableAt;
    hide Leaf;
  }

  /** The free list does not see what is written elsewhere. */
  lemma ListKept(s: Ram, n: Ram)
    requires ListOk(s.t.mem, s.freelist, s.stack, s.use) && n.freelist == s.freelist && n.stack == s.stack
    requires forall f :: f in s.use && s.use[f].Free? ==>
               f in n.use && n.use[f] == s.use[f] && f in s.t.mem && f in n.t.mem && n.t.mem[f] == s.t.mem[f]
    requires forall f :: f in n.use && n.use[f].Free? ==> f in s.use && s.use[f] == n.use[f]
    ensures ListOk(n.t.mem, n.freelist, n.stack, n.use)
  {
    hide Link;
  }

  lemma TableAddedGood(lo: nat, hi: nat, s: Ram, t: nat, i: nat, c: nat)
    requires Good(lo, hi, s) && c in s.use && s.use[c].Kernel? && CanGrow(s.t, t, i, c)
    ensures Good(lo, hi, TableAdded(s, t, i, c)) && SameBut(s.t, TableAdded(s, t, i, c).t, 0, 0, 0)
  {
    hide Link;
    hide TablesOk;
    hide TableAt;
    hide Leaf;
    hide SameBut;
    hide HeldBy;
    hide ListOk;
    GrownSameBut(s.t, t, i, c);
    var n := TableAdded(s, t, i, c);
    assert s.use[t].Table?;
    ListKept(s, n);
    forall f | f in n.use && n.use[f].Mapped? ensures HeldBy(n.t, f, n.use[f].t, n.use[f].i) {
      assert HeldBy(s.t, f, s.use[f].t, s.use[f].i);
      GrownHeld(s.t, t, i, c, f, s.use[f].t, s.use[f].i);
    }
  }

  lemma GrownHeld(m: Tables, t: nat, i: nat, c: nat, f: nat, u: nat, k: nat)
    requires CanGrow(m, t, i, c) && HeldBy(m, f, u, k)
    ensures HeldBy(Grown(m, t, i, c), f, u, k)
  {
    hide TablesOk;
  }

  /** The entry of page vpn, whose level-0 table exists, becomes w. */
  ghost function EntrySet(s: Ram, root: nat, vpn: nat, w: nat): Ram
    requires TablesOk(s.t) && IsRoot(s.t, root) && TableAt(s.t, root, vpn, 0).Some?
  {
    s.(t := Put(s.t, TableAt(s.t, root, vpn, 0).value, Index(0, vpn), w))
  }

  lemma PutSameBut(m: Tables, root: nat, vpn: nat, w: nat)
    requires TablesOk(m) && IsRoot(m, root) && vpn < NPAGES && TableAt(m, root, vpn, 0).Some?
    ensures var n := Put(m, TableAt(m, root, vpn, 0).value, Index(0, vpn), w);
            && TablesOk(n) && IsRoot(n, root) && SameBut(m, n, root, vpn, vpn + 1) && Leaf(n, root, vpn) == w
  {
    hide TablesOk;
    hide Index;
    var t := TableAt(m, root, vpn, 0).value;
    InMemory(m, t);
    var n := Put(m, t, Index(0, vpn), w);
    PutKeepsTables(m, t, Index(0, vpn), w);
    forall r, v: nat | IsRoot(m, r) && v < NPAGES
      ensures Leaf(n, r, v) == if r == root && v == vpn then w else Leaf(m, r, v)
      ensures TableAt(n, r, v, 0) == TableAt(m, r, v, 0)
    {
      PutLeaf(m, root, vpn, w, r, v);
      PutKeepsWay(m, t, Index(0, vpn), w, r, v, 0);
    }
    hide TableAt;
    hide Leaf;
  }

  lemma InMemory(m: Tables, t: nat)
    requires TablesOk(m) && t in m.lvl
    ensures t in m.mem
  {
  }

  lemma EntrySetGood(lo: nat, hi: nat, s: Ram, root: nat, vpn: nat, w: nat)
    requires Good(lo, hi, s) && IsRoot(s.t, root) && vpn < NPAGES && TableAt(s.t, root, vpn, 0).Some?
    requires forall f :: f in s.use ==> s.use[f] != Mapped(TableAt(s.t, root, vpn, 0).value, Index(0, vpn))
    ensures var n := EntrySet(s, root, vpn, w);
            && Good(lo, hi, n) && SameBut(s.t, n.t, root, vpn, vpn + 1)
            && IsRoot(n.t, root) && Leaf(n.t, root, vpn) == w
  {
    hide Link;
    hide TablesOk;
    hide TableAt;
    hide Leaf;
    hide SameBut;
    hide Index;
    hide ListOk;
    hide HeldBy;
    PutSameBut(s.t, root, vpn, w);
    var n := EntrySet(s, root, vpn, w);
    var t := TableAt(s.t, root, vpn, 0).value;
    assert t in s.t.lvl && s.use[t].Table?;
    ListKept(s, n);
    forall f | f in n.use && n.use[f].Mapped? ensures HeldBy(n.t, f, n.use[f].t, n.use[f].i) {
      assert HeldBy(s.t, f, s.use[f].t, s.use[f].i);
      PutHeld(s.t, t, Index(0, vpn), w, f, s.use[f].t, s.use[f].i);
    }
  }

  lemma PutHeld(m: Tables, t: nat, i: nat, w: nat, f: nat, u: nat, k: nat)
    requires t in m.mem && i < 512 && HeldBy(m, f, u, k) && (u != t || k != i)
    ensures HeldBy(Put(m, t, i, w), f, u, k)
  {
  }

  /** A mapping takes over the page it maps. */
  ghost function NowHeld(s: Ram, root: nat, vpn: nat): Ram
    requires TablesOk(s.t) && IsRoot(s.t, root) && TableAt(s.t, root, vpn, 0).Some?
  {
    s.(use := s.use[Frame(Leaf(s.t, root, vpn)) := Mapped(TableAt(s.t, root, vpn, 0).value, Index(0, vpn))])
  }

  lemma NowHeldGood(lo: nat, hi: nat, s: Ram, root: nat, vpn: nat)
    requires Good(lo, hi, s) && IsRoot(s.t, root) && TableAt(s.t, root, vpn, 0).Some?
    requires IsValid(Leaf(s.t, root, vpn)) && Flags(Leaf(s.t, root, vpn)) != PTE_V
    requires Frame(Leaf(s.t, root, vpn)) in s.use && s.use[Frame(Leaf(s.t, root, vpn))].Kernel?
    ensures Good(lo, hi, NowHeld(s, root, vpn)) && Owns(NowHeld(s, root, vpn), root, vpn)
  {
    hide Link;
    assert TableAt(s.t, root, vpn, 0).value in s.t.mem;
    hide TablesOk;
    hide TableAt;
    hide Index;
  }

  /** A mapping gives up its page. */
  function NotHeld(s: Ram, f: nat): Ram {
    s.(use := s.use[f := Kernel])
  }

  lemma NotHeldGood(lo: nat, hi: nat, s: Ram, f: nat)
    requires Good(lo, hi, s) && f in s.use && s.use[f].Mapped?
    ensures Good(lo, hi, NotHeld(s, f))
  {
    hide Link;
    hide TablesOk;
  }

  // ----- a step of walk

  /** A free page, zeroed, as the table under an empty entry. */
  lemma NewTable(lo: nat, hi: nat, s: Ram, t: nat, i: nat)
    requires Good(lo, hi, s) && s.stack != [] && t in s.t.lvl && t in s.t.mem && s.t.lvl[t] > 0 && i < 512
    requires !IsValid(s.t.mem[t][i])
    ensures s.stack[|s.stack| - 1] in s.t.mem
    ensures var c := s.stack[|s.stack| - 1];
            var k := Taken(s);
            && CanGrow(k.t, t, i, c) && k.t.mem[t] == s.t.mem[t] && t != c
            && Good(lo, hi, TableAdded(k, t, i, c)) && SameBut(s.t, TableAdded(k, t, i, c).t, 0, 0, 0)
            && OnlyTablesAdded(s, TableAdded(k, t, i, c))
  {
    hide Link;
    hide TableAt;
    hide Leaf;
    hide HeldBy;
    hide SameBut;
    hide TablesOk;
    hide ListOk;
    TakenGood(lo, hi, s);
    FirstFree(lo, hi, s);
    var c, k := s.stack[|s.stack| - 1], Taken(s);
    LastFree(lo, hi, s);
    assert s.use[t].Table?;
    TableAddedGood(lo, hi, k, t, i, c);
    SameButTwice(s.t, k.t, TableAdded(k, t, i, c).t, 0, 0, 0, 0);
    hide Good;
  }

  lemma LastFree(lo: nat, hi: nat, s: Ram)
    requires Good(lo, hi, s) && s.stack != []
    ensures var c := s.stack[|s.stack| - 1]; c in s.use && s.use[c].Free? && c !in s.t.lvl
  {
    hide Link;
    hide TablesOk;
  }

  lemma NextWay(m: Tables, root: nat, v: nat, l: nat, t: nat)
    requires TablesOk(m) && IsRoot(m, root) && 0 < l <= 2 && TableAt(m, root, v, l) == Some(t)
    ensures t in m.mem && t in m.lvl && m.lvl[t] == l
    ensures TableAt(m, root, v, l - 1) ==
            if IsValid(m.mem[t][Index(l, v)]) then Some(Frame(m.mem[t][Index(l, v)])) else None
  {
  }

  lemma {:induction false} NoWay(m: Tables, root: nat, v: nat, l: nat)
    requires TablesOk(m) && IsRoot(m, root) && l <= 2 && TableAt(m, root, v, l).None?
    ensures TableAt(m, root, v, 0).None?
    decreases l
  {
    hide TablesOk;
    if l > 0 {
      NoWay(m, root, v, l - 1);
    }
  }

  lemma GrownNext(m: Tables, t: nat, i: nat, c: nat, root: nat, v: nat, l: nat)
    requires CanGrow(m, t, i, c) && IsRoot(m, root) && 0 < l <= 2 && TableAt(m, root, v, l) == Some(t) && i == Index(l, v)
    ensures TablesOk(Grown(m, t, i, c)) && IsRoot(Grown(m, t, i, c), root)
    ensures TableAt(Grown(m, t, i, c), root, v, l - 1) == Some(c)
  {
    GrownWay(m, t, i, c, root, v, l);
    NextWay(Grown(m, t, i, c), root, v, l, t);
    EntryParts(c, PTE_V);
  }

  lemma SameWayAt(m: Tables, mem: map<nat, Page>, root: nat, v: nat, l: nat)
    requires TablesOk(m) && IsRoot(m, root) && l <= 2
    requires forall t :: t in m.lvl ==> t in mem && mem[t] == m.mem[t]
    ensures TablesOk(m.(mem := mem)) && TableAt(m.(mem := mem), root, v, l) == TableAt(m, root, v, l)
  {
    SameTables(m, mem, root, v, l);
  }

  /** Where a new table brings walk, which was at t. */
  lemma NewTableNext(lo: nat, hi: nat, s: Ram, t: nat, root: nat, v: nat, l: nat)
    requires Good(lo, hi, s) && s.stack != [] && IsRoot(s.t, root) && 0 < l <= 2 && TableAt(s.t, root, v, l) == Some(t)
    requires t in s.t.mem && t in s.t.lvl && s.t.lvl[t] > 0 && !IsValid(s.t.mem[t][Index(l, v)])
    ensures s.stack[|s.stack| - 1] in s.t.mem
    ensures var c := s.stack[|s.stack| - 1];
            var n := TableAdded(Taken(s), t, Index(l, v), c);
            TablesOk(n.t) && IsRoot(n.t, root) && TableAt(n.t, root, v, l - 1) == Some(c)
  {
    hide Link;
    hide Index;
    hide Leaf;
    hide SameBut;
    hide TablesOk;
    var c, k := s.stack[|s.stack| - 1], Taken(s);
    NewTable(lo, hi, s, t, Index(l, v));
    LastFree(lo, hi, s);
    hide ListOk;
    SameWayAt(s.t, k.t.mem, root, v, l);
    GrownNext(k.t, t, Index(l, v), c, root, v, l);
  }

  // ----- setting an entry

  /** An entry that maps no page holds none, and may be set. */
  lemma EmptySet(lo: nat, hi: nat, s: Ram, root: nat, vpn: nat, w: nat)
    requires Good(lo, hi, s) && IsRoot(s.t, root) && vpn < NPAGES && TableAt(s.t, root, vpn, 0).Some?
    requires !IsValid(Leaf(s.t, root, vpn))
    ensures var n := EntrySet(s, root, vpn, w);
            && Good(lo, hi, n) && SameBut(s.t, n.t, root, vpn, vpn + 1) && OnlyTablesAdded(s, n)
            && IsRoot(n.t, root) && Leaf(n.t, root, vpn) == w
  {
    hide Link;
    hide TablesOk;
    hide SameBut;
    hide ListOk;
    hide TableAt;
    hide Index;
    forall f | f in s.use ensures s.use[f] != Mapped(TableAt(s.t, root, vpn, 0).value, Index(0, vpn)) {
      if s.use[f].Mapped? {
        assert HeldBy(s.t, f, s.use[f].t, s.use[f].i);
      }
    }
    hide Leaf;
    hide HeldBy;
    EntrySetGood(lo, hi, s, root, vpn, w);
    EntrySetKept(lo, hi, s, root, vpn, w);
  }

  lemma EntrySetKept(lo: nat, hi: nat, s: Ram, root: nat, vpn: nat, w: nat)
    requires Good(lo, hi, s) && IsRoot(s.t, root) && vpn < NPAGES && TableAt(s.t, root, vpn, 0).Some?
    ensures OnlyTablesAdded(s, EntrySet(s, root, vpn, w))
  {
    hide Link;
    hide TablesOk;
    hide ListOk;
    hide TableAt;
    hide Leaf;
    hide HeldBy;
    hide Index;
  }

  // ----- removing an entry

  /** Page vpn is mapped to a page that others hold, as the trampoline and the trapframe are. */
  ghost predicate Borrows(s: Ram, root: nat, vpn: nat)
    requires TablesOk(s.t) && IsRoot(s.t, root)
  {
    var t := TableAt(s.t, root, vpn, 0);
    var e := Leaf(s.t, root, vpn);
    && t.Some? && IsValid(e) && Flags(e) != PTE_V
    && forall f :: f in s.use ==> s.use[f] != Mapped(t.value, Index(0, vpn))
  }

  ghost predicate Removable(s: Ram, root: nat, vpn: nat, doFree: bool)
    requires TablesOk(s.t) && IsRoot(s.t, root)
  {
    if doFree then Owns(s, root, vpn) else Borrows(s, root, vpn)
  }

  /** From s to n just the pages in gone became free. */
  ghost predicate Released(s: Ram, n: Ram, gone: set<nat>) {
    && n.use.Keys == s.use.Keys && Kept(s, n, gone)
    && forall f :: f in s.use ==> if f in gone then n.use[f].Free? else n.use[f] == s.use[f]
  }

  lemma ReleasedNothing(lo: nat, hi: nat, s: Ram)
    requires Good(lo, hi, s)
    ensures Released(s, s, {})
  {
    hide TablesOk;
    hide ListOk;
    hide HeldBy;
  }

  lemma ReleasedTwice(s: Ram, n: Ram, p: Ram, gone: set<nat>, more: set<nat>)
    requires Released(s, n, gone) && Released(n, p, more)
    ensures Released(s, p, gone + more)
  {
  }

  /** The pages that count pages of root from first on are mapped to. */
  ghost function PagesOf(m: Tables, root: nat, first: nat, count: nat): set<nat>
    requires TablesOk(m) && IsRoot(m, root)
  {
    if count == 0 then {} else PagesOf(m, root, first, count - 1) + {Frame(Leaf(m, root, first + count - 1))}
  }

  /** uvmunmap's round with do_free: the page is freed, then its entry cleared. */
  lemma OwnedRemoved(lo: nat, hi: nat, s: Ram, root: nat, v: nat)
    requires Good(lo, hi, s) && IsRoot(s.t, root) && v < NPAGES && Owns(s, root, v)
    ensures var f := Frame(Leaf(s.t, root, v));
            var k := Freed(NotHeld(s, f), f);
            && f in s.use && f * PGSIZE / PGSIZE == f && f * PGSIZE % PGSIZE == 0
            && Good(lo, hi, k) && IsRoot(k.t, root) && TableAt(k.t, root, v, 0) == TableAt(s.t, root, v, 0)
            && k.t.lvl == s.t.lvl && SameBut(s.t, k.t, 0, 0, 0)
            && var n := EntrySet(k, root, v, 0);
               && Good(lo, hi, n) && IsRoot(n.t, root) && SameBut(s.t, n.t, root, v, v + 1)
               && Leaf(n.t, root, v) == 0 && Released(s, n, {f}) && |n.stack| == |s.stack| + 1
  {
    hide Link;
    hide TablesOk;
    hide ListOk;
    hide TableAt;
    hide Leaf;
    hide Index;
    hide SameBut;
    hide HeldBy;
    var f := Frame(Leaf(s.t, root, v));
    NotHeldGood(lo, hi, s, f);
    FreedGood(lo, hi, NotHeld(s, f), f);
    var k := Freed(NotHeld(s, f), f);
    SameLeaf(s.t, k.t, root, v);
    OneHolder(lo, hi, s, root, v);
    EntrySetGood(lo, hi, k, root, v, 0);
    EntrySetKept(lo, hi, k, root, v, 0);
    SameButAfter(s.t, k.t, EntrySet(k, root, v, 0).t, root, v, v + 1);
    hide UseOk;
    hide MappedOk;
  }

  lemma SameLeaf(m: Tables, n: Tables, root: nat, v: nat)
    requires TablesOk(m) && TablesOk(n) && SameBut(m, n, 0, 0, 0) && IsRoot(m, root) && v < NPAGES
    requires TableAt(m, root, v, 0).Some?
    ensures IsRoot(n, root) && TableAt(n, root, v, 0) == TableAt(m, root, v, 0)
  {
  }

  /** Only the page a mapping owns is held by its entry. */
  lemma OneHolder(lo: nat, hi: nat, s: Ram, root: nat, v: nat)
    requires Good(lo, hi, s) && IsRoot(s.t, root) && Owns(s, root, v)
    ensures forall g :: g in s.use && s.use[g] == Mapped(TableAt(s.t, root, v, 0).value, Index(0, v)) ==>
              g == Frame(Leaf(s.t, root, v))
  {
    hide Link;
    hide TablesOk;
    hide ListOk;
    hide TableAt;
    hide Index;
  }

  lemma BorrowedRemoved(lo: nat, hi: nat, s: Ram, root: nat, v: nat)
    requires Good(lo, hi, s) && IsRoot(s.t, root) && v < NPAGES && Borrows(s, root, v)
    ensures var n := EntrySet(s, root, v, 0);
            && Good(lo, hi, n) && IsRoot(n.t, root) && SameBut(s.t, n.t, root, v, v + 1)
            && Leaf(n.t, root, v) == 0 && Released(s, n, {}) && |n.stack| == |s.stack|
  {
    hide Link;
    hide TablesOk;
    hide ListOk;
    hide TableAt;
    hide Leaf;
    hide Index;
    hide SameBut;
    EntrySetGood(lo, hi, s, root, v, 0);
    EntrySetKept(lo, hi, s, root, v, 0);
  }

  /** Removing one page leaves the others removable. */
  lemma StillRemovable(s: Ram, n: Ram, root: nat, v: nat, w: nat, doFree: bool)
    requires TablesOk(s.t) && TablesOk(n.t) && IsRoot(s.t, root) && v < NPAGES && w < NPAGES && v != w
    requires SameBut(s.t, n.t, root, v, v + 1) && Removable(s, root, v, doFree) && Removable(s, root, w, doFree)
    requires Released(s, n, if doFree then {Frame(Leaf(s.t, root, v))} else {})
    ensures IsRoot(n.t, root) && Leaf(n.t, root, w) == Leaf(s.t, root, w) && Removable(n, root, w, doFree)
  {
    hide TablesOk;
    hide TableAt;
    hide Leaf;
    hide Index;
    if doFree && Frame(Leaf(s.t, root, v)) == Frame(Leaf(s.t, root, w)) {
      OwnersDiffer(s, root, v, w);
    }
  }

  /** The pages that uvmunmap frees when it removes count pages. */
  ghost function Given(m: Tables, root: nat, first: nat, count: nat, doFree: bool): set<nat>
    requires TablesOk(m) && IsRoot(m, root)
  {
    if doFree then PagesOf(m, root, first, count) else {}
  }

  /** From s to n, k of count pages were removed and the rest can be. */
  ghost predicate Unmapping(s: Ram, n: Ram, root: nat, first: nat, k: nat, count: nat, doFree: bool)
    requires TablesOk(s.t) && TablesOk(n.t) && IsRoot(s.t, root) && IsRoot(n.t, root)
  {
    && SameBut(s.t, n.t, root, first, first + k) && Released(s, n, Given(s.t, root, first, k, doFree))
    && (forall v :: first <= v < first + k ==> Leaf(n.t, root, v) == 0)
    && (forall v :: first + k <= v < first + count ==>
          Removable(n, root, v, doFree) && Leaf(n.t, root, v) == Leaf(s.t, root, v))
  }

  lemma UnmappingStart(lo: nat, hi: nat, s: Ram, root: nat, first: nat, count: nat, doFree: bool)
    requires Good(lo, hi, s) && IsRoot(s.t, root)
    requires forall v :: first <= v < first + count ==> Removable(s, root, v, doFree)
    ensures Unmapping(s, s, root, first, 0, count, doFree)
  {
    hide TablesOk;
    hide TableAt;
    hide Leaf;
    hide Removable;
    ReleasedNothing(lo, hi, s);
    SameButNothing(s.t, root, first);
  }

  lemma UnmappingStep(s: Ram, n: Ram, p: Ram, root: nat, first: nat, k: nat, count: nat, doFree: bool)
    requires TablesOk(s.t) && TablesOk(n.t) && TablesOk(p.t) && IsRoot(s.t, root) && IsRoot(n.t, root) && IsRoot(p.t, root)
    requires k < count && first + count <= NPAGES && Unmapping(s, n, root, first, k, count, doFree)
    requires SameBut(n.t, p.t, root, first + k, first + k + 1) && Leaf(p.t, root, first + k) == 0
    requires Released(n, p, if doFree then {Frame(Leaf(n.t, root, first + k))} else {})
    ensures Unmapping(s, p, root, first, k + 1, count, doFree)
  {
    hide TablesOk;
    hide TableAt;
    hide Leaf;
    hide Removable;
    ReleasedTwice(s, n, p, Given(s.t, root, first, k, doFree), if doFree then {Frame(Leaf(n.t, root, first + k))} else {});
    SameButTwice(s.t, n.t, p.t, root, first, first + k, first + k + 1);
    forall v | first + k < v < first + count
      ensures Removable(p, root, v, doFree) && Leaf(p.t, root, v) == Leaf(n.t, root, v)
    {
      StillRemovable(n, p, root, first + k, v, doFree);
    }
    hide Released;
  }

  // ----- adding a page

  lemma GainedTwice(s: Ram, n: Ram, p: Ram, more: set<nat>, most: set<nat>)
    requires Gained(s, n, more) && Gained(n, p, most)
    ensures Gained(s, p, more + most)
  {
  }

  /** Giving back all that was gained leaves new tables only. */
  lemma GainedReleased(s: Ram, n: Ram, p: Ram, more: set<nat>)
    requires Gained(s, n, more) && Released(n, p, more)
    requires forall f :: f in more && f in n.use ==> !n.use[f].Table?
    ensures OnlyTablesAdded(s, p)
  {
  }

  /** The page that kalloc takes, written. */
  lemma TakenGained(lo: nat, hi: nat, s: Ram, p: Page)
    requires Good(lo, hi, s) && s.stack != []
    ensures s.stack[|s.stack| - 1] in s.t.mem
    ensures var f := s.stack[|s.stack| - 1];
            var n := KernelWritten(Taken(s), f, p);
            && f in s.use && s.use[f].Free? && f in n.use && n.use[f].Kernel?
            && Good(lo, hi, Taken(s)) && Good(lo, hi, n) && SameBut(s.t, n.t, 0, 0, 0) && Gained(s, n, {f})
  {
    hide Link;
    hide TablesOk;
    hide SameBut;
    hide HeldBy;
    FirstFree(lo, hi, s);
    LastFree(lo, hi, s);
    hide ListOk;
    var f := s.stack[|s.stack| - 1];
    TakenGood(lo, hi, s);
    KernelWrittenGood(lo, hi, Taken(s), f, p);
    SameButTwice(s.t, Taken(s).t, KernelWritten(Taken(s), f, p).t, 0, 0, 0, 0);
  }

  /** The mapping that was made takes over the new page. */
  lemma HeldGained(lo: nat, hi: nat, s: Ram, n: Ram, root: nat, v: nat, f: nat)
    requires Good(lo, hi, n) && IsRoot(n.t, root) && TableAt(n.t, root, v, 0).Some?
    requires IsValid(Leaf(n.t, root, v)) && Flags(Leaf(n.t, root, v)) != PTE_V && Frame(Leaf(n.t, root, v)) == f
    requires Gained(s, n, {f}) && f in s.use && s.use[f].Free? && f in n.use && n.use[f].Kernel?
    ensures Good(lo, hi, NowHeld(n, root, v)) && Owns(NowHeld(n, root, v), root, v) && Gained(s, NowHeld(n, root, v), {f})
  {
    hide Good;
    hide Owns;
    hide TablesOk;
    hide TableAt;
    hide Leaf;
    hide Index;
    NowHeldGood(lo, hi, n, root, v);
  }

  /** The page that could not be mapped goes back. */
  lemma FreedReleased(lo: nat, hi: nat, s: Ram, f: nat)
    requires Good(lo, hi, s) && f in s.use && s.use[f].Kernel?
    ensures Released(s, Freed(s, f), {f}) && f * PGSIZE / PGSIZE == f && f * PGSIZE % PGSIZE == 0
  {
    hide TablesOk;
    hide ListOk;
    hide HeldBy;
  }

  // ----- uvmalloc and uvmcopy

  /** What the page for v is to hold: zeros, or what page v of another root holds. */
  ghost function Content(s: Ram, src: Option<nat>, v: nat): Page
    requires TablesOk(s.t) && (src.Some? ==> IsRoot(s.t, src.value))
  {
    if src.None? || Frame(Leaf(s.t, src.value, v)) !in s.t.mem then Filled(0)
    else s.t.mem[Frame(Leaf(s.t, src.value, v))]
  }

  const USER := PTE_W + PTE_X + PTE_R + PTE_U

  ghost function Rights(s: Ram, src: Option<nat>, v: nat): nat
    requires TablesOk(s.t) && (src.Some? ==> IsRoot(s.t, src.value))
  {
    if src.None? then USER + PTE_V else Flags(Leaf(s.t, src.value, v))
  }

  ghost predicate Copyable(s: Ram, src: Option<nat>, v: nat)
    requires TablesOk(s.t) && (src.Some? ==> IsRoot(s.t, src.value))
  {
    src.Some? ==> Owns(s, src.value, v) && Frame(Leaf(s.t, src.value, v)) in s.t.mem
  }

  /** In n, page v of root is new, holds what it should, and may be used as it should. */
  ghost predicate NewPage(s: Ram, n: Ram, src: Option<nat>, root: nat, v: nat)
    requires TablesOk(s.t) && TablesOk(n.t) && IsRoot(n.t, root) && (src.Some? ==> IsRoot(s.t, src.value))
  {
    var f := Frame(Leaf(n.t, root, v));
    && Owns(n, root, v) && Flags(Leaf(n.t, root, v)) == Rights(s, src, v)
    && f in n.t.mem && n.t.mem[f] == Content(s, src, v)
  }

  /** From s to n, root gained count pages from first on. */
  ghost predicate Adding(s: Ram, n: Ram, src: Option<nat>, root: nat, first: nat, count: nat)
    requires TablesOk(s.t) && TablesOk(n.t) && IsRoot(s.t, root) && IsRoot(n.t, root)
    requires src.Some? ==> IsRoot(s.t, src.value)
  {
    && SameBut(s.t, n.t, root, first, first + count)
    && Gained(s, n, PagesOf(n.t, root, first, count))
    && forall v :: first <= v < first + count ==> NewPage(s, n, src, root, v)
  }

  /** New pages that uvmalloc added: zeros, and the user may read, write and execute them. */
  lemma AddedZeroed(s: Ram, n: Ram, root: nat, first: nat, count: nat)
    requires TablesOk(s.t) && TablesOk(n.t) && IsRoot(s.t, root) && IsRoot(n.t, root)
    requires Adding(s, n, None, root, first, count)
    ensures forall v :: first <= v < first + count ==>
              var e := Leaf(n.t, root, v);
              Flags(e) == 1 + 2 + 4 + 8 + 16 && Frame(e) in n.t.mem && n.t.mem[Frame(e)] == seq(512, _ => 0)
  {
    hide TablesOk;
    hide Leaf;
    hide SameBut;
    hide Gained;
    hide Owns;
    forall v | first <= v < first + count
      ensures var e := Leaf(n.t, root, v);
              Flags(e) == 1 + 2 + 4 + 8 + 16 && Frame(e) in n.t.mem && n.t.mem[Frame(e)] == seq(512, _ => 0)
    {
      assert NewPage(s, n, None, root, v) && USER + PTE_V == 1 + 2 + 4 + 8 + 16;
      assert Filled(0) == seq(512, _ => 0);
    }
  }

  /** New pages that uvmcopy added: what the parent's pages hold, to be used as those. */
  lemma AddedCopied(s: Ram, n: Ram, parent: nat, child: nat, count: nat)
    requires TablesOk(s.t) && TablesOk(n.t) && IsRoot(s.t, parent) && IsRoot(s.t, child) && IsRoot(n.t, child)
    requires Adding(s, n, Some(parent), child, 0, count)
    requires forall v :: 0 <= v < count ==> Copyable(s, Some(parent), v)
    ensures forall v :: 0 <= v < count ==>
              var e, c := Leaf(s.t, parent, v), Leaf(n.t, child, v);
              Flags(c) == Flags(e) && Frame(e) in s.t.mem && Frame(c) in n.t.mem && n.t.mem[Frame(c)] == s.t.mem[Frame(e)]
  {
    hide TablesOk;
    hide Leaf;
    hide SameBut;
    hide Gained;
    hide Owns;
    forall v | 0 <= v < count
      ensures var e, c := Leaf(s.t, parent, v), Leaf(n.t, child, v);
              Flags(c) == Flags(e) && Frame(e) in s.t.mem && Frame(c) in n.t.mem && n.t.mem[Frame(c)] == s.t.mem[Frame(e)]
    {
      assert Copyable(s, Some(parent), v) && NewPage(s, n, Some(parent), child, v);
    }
  }

  lemma {:induction false} PagesSame(m: Tables, n: Tables, root: nat, first: nat, count: nat)
    requires TablesOk(m) && TablesOk(n) && IsRoot(m, root) && IsRoot(n, root)
    requires forall v :: first <= v < first + count ==> Leaf(m, root, v) == Leaf(n, root, v)
    ensures PagesOf(m, root, first, count) == PagesOf(n, root, first, count)
  {
    hide TablesOk;
    hide Leaf;
    if count > 0 {
      PagesSame(m, n, root, first, count - 1);
    }
  }

  lemma AddingNothing(lo: nat, hi: nat, s: Ram, src: Option<nat>, root: nat, first: nat)
    requires Good(lo, hi, s) && IsRoot(s.t, root) && (src.Some? ==> IsRoot(s.t, src.value))
    ensures Adding(s, s, src, root, first, 0)
  {
    StillAll(lo, hi, s);
    SameButNothing(s.t, root, first);
  }

  /** The owners of the pages added so far keep them, with their contents. */
  lemma AddedKept(s: Ram, n: Ram, p: Ram, src: Option<nat>, root: nat, first: nat, count: nat, v: nat)
    requires TablesOk(s.t) && TablesOk(n.t) && TablesOk(p.t) && IsRoot(s.t, root) && IsRoot(n.t, root) && IsRoot(p.t, root)
    requires src.Some? ==> IsRoot(s.t, src.value)
    requires first <= v < first + count <= NPAGES && NewPage(s, n, src, root, v)
    requires SameBut(n.t, p.t, root, first + count, first + count + 1) && Kept(n, p, {})
    ensures Leaf(p.t, root, v) == Leaf(n.t, root, v) && NewPage(s, p, src, root, v)
  {
    hide TablesOk;
    hide TableAt;
    hide Leaf;
    hide Index;
    StillOwns(n, p, root, v, root, first + count, first + count + 1);
  }

  /** What is to be copied next is as it was. */
  lemma StillCopyable(s: Ram, n: Ram, src: Option<nat>, root: nat, first: nat, count: nat, v: nat)
    requires TablesOk(s.t) && TablesOk(n.t) && IsRoot(s.t, root) && v < NPAGES && src != Some(root)
    requires src.Some? ==> IsRoot(s.t, src.value) && IsRoot(n.t, src.value)
    requires Copyable(s, src, v) && SameBut(s.t, n.t, root, first, first + count) && Kept(s, n, {})
    ensures Copyable(n, src, v) && Content(n, src, v) == Content(s, src, v) && Rights(n, src, v) == Rights(s, src, v)
  {
    hide TablesOk;
    hide TableAt;
    hide Leaf;
    hide Index;
    if src.Some? {
      StillOwns(s, n, src.value, v, root, first, first + count);
    }
  }

  lemma AddingStep(s: Ram, n: Ram, p: Ram, src: Option<nat>, root: nat, first: nat, count: nat)
    requires TablesOk(s.t) && TablesOk(n.t) && TablesOk(p.t) && IsRoot(s.t, root) && IsRoot(n.t, root) && IsRoot(p.t, root)
    requires first + count < NPAGES && src != Some(root)
    requires src.Some? ==> IsRoot(s.t, src.value) && IsRoot(n.t, src.value)
    requires Copyable(s, src, first + count) && Adding(s, n, src, root, first, count)
    requires SameBut(n.t, p.t, root, first + count, first + count + 1)
    requires Gained(n, p, {Frame(Leaf(p.t, root, first + count))}) && NewPage(n, p, src, root, first + count)
    ensures Adding(s, p, src, root, first, count + 1)
  {
    hide TablesOk;
    hide TableAt;
    hide Leaf;
    hide Owns;
    var last := first + count;
    SameButTwice(s.t, n.t, p.t, root, first, last, last + 1);
    forall v | first <= v < last ensures Leaf(p.t, root, v) == Leaf(n.t, root, v) && NewPage(s, p, src, root, v) {
      AddedKept(s, n, p, src, root, first, count, v);
    }
    StillCopyable(s, n, src, root, first, count, last);
    PagesSame(n.t, p.t, root, first, count);
    GainedTwice(s, n, p, PagesOf(n.t, root, first, count), {Frame(Leaf(p.t, root, last))});
    hide SameBut;
    hide Gained;
    hide Kept;
  }

  /** What was added can be removed again. */
  lemma {:induction false} AddedRemovable(s: Ram, n: Ram, src: Option<nat>, root: nat, first: nat, count: nat)
    requires TablesOk(s.t) && TablesOk(n.t) && IsRoot(s.t, root) && IsRoot(n.t, root)
    requires src.Some? ==> IsRoot(s.t, src.value)
    requires forall v :: first <= v < first + count ==> NewPage(s, n, src, root, v)
    ensures forall v :: first <= v < first + count ==> Removable(n, root, v, true)
    ensures forall f :: f in PagesOf(n.t, root, first, count) && f in n.use ==> !n.use[f].Table?
  {
    hide TablesOk;
    hide TableAt;
    hide Leaf;
    hide Copyable;
    hide Content;
    hide Rights;
    if count > 0 {
      AddedRemovable(s, n, src, root, first, count - 1);
      assert NewPage(s, n, src, root, first + count - 1);
    }
  }

  /** A failed uvmalloc or uvmcopy: all the pages it added are gone again. */
  lemma AddingUndone(s: Ram, n: Ram, p: Ram, src: Option<nat>, root: nat, first: nat, count: nat)
    requires TablesOk(s.t) && TablesOk(n.t) && TablesOk(p.t) && IsRoot(s.t, root) && IsRoot(n.t, root) && IsRoot(p.t, root)
    requires src.Some? ==> IsRoot(s.t, src.value)
    requires Adding(s, n, src, root, first, count) && SameBut(n.t, p.t, root, first, first + count)
    requires Released(n, p, PagesOf(n.t, root, first, count))
    ensures SameBut(s.t, p.t, root, first, first + count) && OnlyTablesAdded(s, p)
  {
    hide TablesOk;
    hide TableAt;
    hide Leaf;
    hide Copyable;
    AddedRemovable(s, n, src, root, first, count);
    GainedReleased(s, n, p, PagesOf(n.t, root, first, count));
  }

  // ----- a new root

  ghost function RootAdded(s: Ram, c: nat): Ram {
    s.(t := s.t.(lvl := s.t.lvl[c := 2]), use := s.use[c := Table])
  }

  /** Root maps no page. */
  ghost predicate MapsNothing(m: Tables, root: nat)
    requires TablesOk(m) && IsRoot(m, root)
  {
    forall v :: 0 <= v < NPAGES ==> Leaf(m, root, v) == 0
  }

  /** The roots of m are roots of n with the same flat maps. */
  ghost predicate MapsKept(m: Tables, n: Tables)
    requires TablesOk(m) && TablesOk(n)
  {
    forall r :: IsRoot(m, r) ==> IsRoot(n, r) && forall v :: 0 <= v < NPAGES ==> Leaf(n, r, v) == Leaf(m, r, v)
  }

  lemma NewRoot(lo: nat, hi: nat, s: Ram)
    requires Good(lo, hi, s) && s.stack != []
    ensures s.stack[|s.stack| - 1] in s.t.mem
    ensures var c := s.stack[|s.stack| - 1];
            var n := RootAdded(KernelWritten(Taken(s), c, Filled(0)), c);
            && c !in s.t.lvl && Good(lo, hi, n) && IsRoot(n.t, c) && OnlyTablesAdded(s, n)
            && MapsNothing(n.t, c) && MapsKept(s.t, n.t)
  {
    hide Link;
    hide TablesOk;
    hide SameBut;
    hide HeldBy;
    hide ListOk;
    hide TableAt;
    hide Leaf;
    hide Gained;
    var c := s.stack[|s.stack| - 1];
    LastFree(lo, hi, s);
    TakenGained(lo, hi, s, Filled(0));
    var k := KernelWritten(Taken(s), c, Filled(0));
    var n := RootAdded(k, c);
    assert c !in k.t.lvl;
    RootTables(k.t, c);
    RootGood(lo, hi, k, c);
    RootGained(s, k, c);
    forall r | IsRoot(s.t, r) ensures IsRoot(n.t, r) && forall v :: 0 <= v < NPAGES ==> Leaf(n.t, r, v) == Leaf(s.t, r, v) {
      forall v: nat | v < NPAGES ensures Leaf(n.t, r, v) == Leaf(s.t, r, v) {
        SameButOne(s.t, k.t, r, v);
        RootLeaf(k.t, c, r, v);
      }
      SameButOne(s.t, k.t, r, 0);
    }
    forall v: nat | v < NPAGES ensures Leaf(n.t, c, v) == 0 {
      RootEmpty(k.t, c, v);
    }
  }

  lemma RootTables(m: Tables, c: nat)
    requires TablesOk(m) && c in m.mem && c !in m.lvl && m.mem[c] == Filled(0)
    ensures TablesOk(m.(lvl := m.lvl[c := 2]))
  {
    var n := m.(lvl := m.lvl[c := 2]);
    forall t, i | t in n.lvl && n.lvl[t] > 0 && 0 <= i < 512 && IsValid(n.mem[t][i]) ensures Leads(n, t, i) {
      if t != c {
        assert Leads(m, t, i);
      }
    }
  }

  lemma RootGood(lo: nat, hi: nat, s: Ram, c: nat)
    requires Good(lo, hi, s) && c in s.use && s.use[c].Kernel? && TablesOk(RootAdded(s, c).t)
    ensures Good(lo, hi, RootAdded(s, c))
  {
    hide TablesOk;
    hide Link;
  }

  lemma RootGained(s: Ram, n: Ram, c: nat)
    requires Gained(s, n, {c}) && c in s.use && s.use[c].Free?
    ensures OnlyTablesAdded(s, RootAdded(n, c))
  {
  }

  lemma RootLeaf(m: Tables, c: nat, r: nat, v: nat)
    requires TablesOk(m) && c !in m.lvl && TablesOk(m.(lvl := m.lvl[c := 2])) && IsRoot(m, r)
    ensures Leaf(m.(lvl := m.lvl[c := 2]), r, v) == Leaf(m, r, v)
  {
    var n := m.(lvl := m.lvl[c := 2]);
    hide TablesOk;
    assert TableAt(n, r, v, 2) == TableAt(m, r, v, 2);
    assert TableAt(n, r, v, 1) == TableAt(m, r, v, 1);
    assert TableAt(n, r, v, 0) == TableAt(m, r, v, 0);
  }

  lemma RootEmpty(m: Tables, c: nat, v: nat)
    requires TablesOk(m.(lvl := m.lvl[c := 2])) && c in m.mem && m.mem[c] == Filled(0)
    ensures Leaf(m.(lvl := m.lvl[c := 2]), c, v) == 0
  {
    var n := m.(lvl := m.lvl[c := 2]);
    NextWay(n, c, v, 2, c);
    NoWay(n, c, v, 1);
  }

  // ----- the steps of adding a page

  lemma SameButNone(m: Tables, n: Tables, root: nat, v: nat)
    requires TablesOk(m) && TablesOk(n) && SameBut(m, n, root, v, v)
    ensures SameBut(m, n, 0, 0, 0)
  {
    hide TablesOk;
    hide Leaf;
    hide TableAt;
  }

  lemma SameButOne(m: Tables, n: Tables, r: nat, v: nat)
    requires TablesOk(m) && TablesOk(n) && SameBut(m, n, 0, 0, 0) && IsRoot(m, r) && v < NPAGES
    ensures IsRoot(n, r) && Leaf(n, r, v) == Leaf(m, r, v)
  {
    hide TablesOk;
    hide Leaf;
    hide TableAt;
  }

  /** The page to be copied is not the one just taken from the free list. */
  lemma CopySource(lo: nat, hi: nat, s: Ram, root: nat, v: nat)
    requires Good(lo, hi, s) && IsRoot(s.t, root) && Copyable(s, Some(root), v) && s.stack != []
    ensures var f := Frame(Leaf(s.t, root, v));
            f in s.t.mem && f != s.stack[|s.stack| - 1] && Content(s, Some(root), v) == s.t.mem[f]
  {
    hide TablesOk;
    hide Leaf;
    hide TableAt;
    LastFree(lo, hi, s);
  }

  /** mappages found a place for the new page f: the mapping takes it over. */
  lemma PageMapped(lo: nat, hi: nat, s: Ram, k: Ram, n: Ram, src: Option<nat>, root: nat, v: nat, f: nat, perm: nat)
    requires Good(lo, hi, s) && Good(lo, hi, k) && Good(lo, hi, n) && v < NPAGES && perm < 1024
    requires IsRoot(s.t, root) && IsRoot(k.t, root) && IsRoot(n.t, root) && (src.Some? ==> IsRoot(s.t, src.value))
    requires Gained(s, k, {f}) && f in s.use && s.use[f].Free? && f in k.use && k.use[f].Kernel?
    requires f in k.t.mem && k.t.mem[f] == Content(s, src, v)
    requires SameBut(s.t, k.t, 0, 0, 0) && OnlyTablesAdded(k, n) && SameBut(k.t, n.t, root, v, v + 1)
    requires TableAt(n.t, root, v, 0).Some? && Leaf(n.t, root, v) == Entry(f, perm)
    requires Flags(Entry(0, perm)) == Rights(s, src, v) != PTE_V
    ensures var p := NowHeld(n, root, v);
            && Good(lo, hi, p) && IsRoot(p.t, root) && Frame(Leaf(n.t, root, v)) == f
            && SameBut(s.t, p.t, root, v, v + 1) && Gained(s, p, {Frame(Leaf(p.t, root, v))})
            && NewPage(s, p, src, root, v)
  {
    hide Link;
    hide TablesOk;
    hide TableAt;
    hide Leaf;
    hide Owns;
    hide Content;
    hide Rights;
    hide ListOk;
    hide UseOk;
    hide MappedOk;
    EntryParts(f, perm);
    EntryParts(0, perm);
    SameButAfter(s.t, k.t, n.t, root, v, v + 1);
    GainedTwice(s, k, n, {f}, {});
    assert {f} + {} == {f};
    hide SameBut;
    HeldGained(lo, hi, s, n, root, v, f);
  }

  /** mappages found no place for it: it goes back to the free list. */
  lemma PageReturned(lo: nat, hi: nat, s: Ram, k: Ram, n: Ram, f: nat)
    requires Good(lo, hi, s) && Good(lo, hi, k) && Good(lo, hi, n)
    requires Gained(s, k, {f}) && f in s.use && s.use[f].Free? && f in k.use && k.use[f].Kernel?
    requires SameBut(s.t, k.t, 0, 0, 0) && OnlyTablesAdded(k, n) && SameBut(k.t, n.t, 0, 0, 0)
    ensures f in n.use && n.use[f].Kernel? && f * PGSIZE / PGSIZE == f && f * PGSIZE % PGSIZE == 0
    ensures Good(lo, hi, Freed(n, f)) && OnlyTablesAdded(s, Freed(n, f)) && SameBut(s.t, Freed(n, f).t, 0, 0, 0)
  {
    hide Link;
    hide TablesOk;
    hide TableAt;
    hide Leaf;
    hide ListOk;
    hide UseOk;
    hide MappedOk;
    GainedTwice(s, k, n, {f}, {});
    assert {f} + {} == {f};
    FreedReleased(lo, hi, n, f);
    FreedGood(lo, hi, n, f);
    GainedReleased(s, n, Freed(n, f), {f});
    SameButTwice(s.t, k.t, n.t, 0, 0, 0, 0);
    SameButTwice(s.t, n.t, Freed(n, f).t, 0, 0, 0, 0);
  }

  lemma OnePage(a: nat)
    requires a % PGSIZE == 0
    ensures (a + PGSIZE - 1) / PGSIZE == a / PGSIZE
  {
  }

  // ----- a failed round

  lemma SameLeaves(m: Tables, n: Tables, root: nat)
    requires TablesOk(m) && TablesOk(n) && SameBut(m, n, 0, 0, 0) && IsRoot(m, root)
    ensures IsRoot(n, root) && forall v :: 0 <= v < NPAGES ==> Leaf(n, root, v) == Leaf(m, root, v)
  {
    hide TablesOk;
    hide Leaf;
    hide TableAt;
  }

  lemma OthersSame(m: Tables, n: Tables, root: nat, first: nat, last: nat)
    requires TablesOk(m) && TablesOk(n) && SameBut(m, n, root, first, last) && IsRoot(m, root)
    ensures IsRoot(n, root)
    ensures forall v :: 0 <= v < NPAGES && (v < first || v >= last) ==> Leaf(n, root, v) == Leaf(m, root, v)
  {
    hide TablesOk;
    hide Leaf;
    hide TableAt;
  }

  lemma SameButWider(m: Tables, n: Tables, root: nat, first: nat, last: nat, further: nat)
    requires TablesOk(m) && TablesOk(n) && last <= further && SameBut(m, n, root, first, last)
    ensures SameBut(m, n, root, first, further)
  {
    hide TablesOk;
    hide Leaf;
    hide TableAt;
  }

  lemma NewPageKept(s: Ram, n: Ram, p: Ram, src: Option<nat>, root: nat, v: nat)
    requires TablesOk(s.t) && TablesOk(n.t) && TablesOk(p.t) && IsRoot(n.t, root) && IsRoot(p.t, root) && v < NPAGES
    requires (src.Some? ==> IsRoot(s.t, src.value)) && NewPage(s, n, src, root, v)
    requires SameBut(n.t, p.t, 0, 0, 0) && OnlyTablesAdded(n, p)
    ensures Leaf(p.t, root, v) == Leaf(n.t, root, v) && NewPage(s, p, src, root, v)
  {
    hide TablesOk;
    hide TableAt;
    hide Leaf;
    hide Index;
    hide Content;
    hide Rights;
    StillOwns(n, p, root, v, 0, 0, 0);
  }

  /** A round that fails leaves what was added before it, to be removed. */
  lemma AddingFailed(s: Ram, n: Ram, p: Ram, src: Option<nat>, root: nat, first: nat, count: nat)
    requires TablesOk(s.t) && TablesOk(n.t) && TablesOk(p.t) && IsRoot(s.t, root) && IsRoot(n.t, root) && IsRoot(p.t, root)
    requires first + count <= NPAGES && (src.Some? ==> IsRoot(s.t, src.value))
    requires Adding(s, n, src, root, first, count) && SameBut(n.t, p.t, 0, 0, 0) && OnlyTablesAdded(n, p)
    ensures Adding(s, p, src, root, first, count)
    ensures forall v :: first <= v < first + count ==> Removable(p, root, v, true)
  {
    hide TablesOk;
    hide TableAt;
    hide Leaf;
    hide Content;
    hide Rights;
    hide Owns;
    forall v | first <= v < first + count ensures Leaf(p.t, root, v) == Leaf(n.t, root, v) && NewPage(s, p, src, root, v) {
      hide NewPage;
      NewPageKept(s, n, p, src, root, v);
    }
    hide NewPage;
    PagesSame(n.t, p.t, root, first, count);
    GainedTwice(s, n, p, PagesOf(n.t, root, first, count), {});
    assert PagesOf(n.t, root, first, count) + {} == PagesOf(n.t, root, first, count);
    SameButBefore(s.t, n.t, p.t, root, first, first + count);
    AddedRemovable(s, p, src, root, first, count);
  }

  /** After a failure and the removal of what was added, no mapping is new up to page end, and no page is lost. */
  lemma AddingGivenUp(s: Ram, n: Ram, p: Ram, src: Option<nat>, root: nat, first: nat, count: nat, end: nat)
    requires TablesOk(s.t) && TablesOk(n.t) && TablesOk(p.t) && IsRoot(s.t, root) && IsRoot(n.t, root) && IsRoot(p.t, root)
    requires first + count <= end <= NPAGES && (src.Some? ==> IsRoot(s.t, src.value))
    requires Adding(s, n, src, root, first, count) && SameBut(n.t, p.t, root, first, first + count)
    requires Released(n, p, PagesOf(n.t, root, first, count))
    requires forall v :: first + count <= v < end ==> !IsValid(Leaf(n.t, root, v))
    requires forall v :: first <= v < first + count ==> Leaf(p.t, root, v) == 0
    ensures SameBut(s.t, p.t, root, first, end) && OnlyTablesAdded(s, p)
    ensures forall v :: first <= v < end ==> !IsValid(Leaf(p.t, root, v))
  {
    hide TablesOk;
    hide Leaf;
    hide TableAt;
    hide NewPage;
    AddingUndone(s, n, p, src, root, first, count);
    SameButWider(s.t, p.t, root, first, first + count, end);
    OthersSame(n.t, p.t, root, first, first + count);
  }

  /** The entry of an owned page, as uvmcopy reads it. */
  lemma OwnedEntry(s: Ram, root: nat, v: nat)
    requires TablesOk(s.t) && IsRoot(s.t, root) && Owns(s, root, v)
    ensures TableAt(s.t, root, v, 0).Some? && IsValid(Leaf(s.t, root, v)) && Flags(Leaf(s.t, root, v)) != PTE_V
    ensures TableAt(s.t, root, v, 0).value in s.t.mem
    ensures Leaf(s.t, root, v) == s.t.mem[TableAt(s.t, root, v, 0).value][Index(0, v)]
  {
  }

  lemma FlagsAgain(e: nat)
    ensures IsValid(e) ==> Flags(Entry(0, Flags(e))) == Flags(e)
  {
    EntryParts(0, Flags(e));
    TwosAside(512 * (e / 1024), Flags(e));
    assert e == 2 * (512 * (e / 1024)) + Flags(e);
  }

  /** After one page is copied the rest can still be. */
  lemma RestCopyable(n: Ram, p: Ram, src: Option<nat>, root: nat, count: nat, end: nat)
    requires TablesOk(n.t) && TablesOk(p.t) && IsRoot(n.t, root) && IsRoot(p.t, root)
    requires count < end <= NPAGES && src.Some? && src != Some(root) && IsRoot(n.t, src.value)
    requires SameBut(n.t, p.t, root, count, count + 1) && Gained(n, p, {Frame(Leaf(p.t, root, count))})
    requires forall v :: count <= v < end ==> Copyable(n, src, v) && !IsValid(Leaf(n.t, root, v))
    ensures IsRoot(p.t, src.value)
    ensures forall v :: count < v < end ==> Copyable(p, src, v) && !IsValid(Leaf(p.t, root, v))
  {
    hide TablesOk;
    hide TableAt;
    hide Leaf;
    hide Copyable;
    hide Content;
    hide Rights;
    OthersSame(n.t, p.t, root, count, count + 1);
    forall v | count < v < end ensures Copyable(p, src, v) {
      StillCopyable(n, p, src, root, count, 1, v);
    }
  }
}
