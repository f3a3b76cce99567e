/** kalloc.c and vm.c: the page allocator, and Sv39 page tables built in the pages it hands out. */
module Vm {
  import opened Basics
  import opened PageTables
  import opened Frames
  import opened TableTrees

  class Memory {
    /** The pages from the end of the kernel to PHYSTOP. */
    const lo: nat
    const hi: nat
    var mem: map<nat, Page>
    /** The address of the first free page; 0 if there is none. */
    var freelist: nat
    ghost var lvl: map<nat, nat>
    ghost var par: map<nat, (nat, nat)>
    ghost var stack: seq<nat>
    ghost var use: map<nat, Use>

    ghost function Maps(): Tables
      reads this
    {
      Tables(mem, lvl, par)
    }

    ghost function State(): Ram
      reads this
    {
      Ram(Maps(), freelist, stack, use)
    }

    ghost predicate Valid()
      reads this
    {
      Good(lo, hi, State())
    }

    // ----- kalloc.c

    /** At boot every page holds anything, is in the kernel's hands, and is not free. */
    constructor (first: nat, end: nat, ram: map<nat, Page>)
      requires 0 < first <= end && forall f :: f in ram <==> first <= f < end
      ensures Valid() && lo == first && hi == end && mem == ram && stack == [] && lvl == map[] && par == map[]
      ensures use == map f | f in ram :: Kernel
    {
      lo, hi, mem, freelist, lvl, par, stack := first, end, ram, 0, map[], map[], [];
      use := map f | f in ram :: Kernel;
    }

    /** Free the page at address pa, which came from kalloc or is being given to it at boot. */
    method Kfree(pa: nat)
      requires Valid() && pa % PGSIZE == 0 && pa / PGSIZE in use && use[pa / PGSIZE] == Kernel
      modifies this`mem, this`freelist, this`stack, this`use
      ensures Valid() && State() == Freed(old(State()), pa / PGSIZE) && SameBut(old(Maps()), Maps(), 0, 0, 0)
      ensures freelist == pa && stack == old(stack) + [pa / PGSIZE]
      ensures mem[pa / PGSIZE] == seq(512, _ => 0x0101_0101_0101_0101)[0 := old(freelist)]
    {
      hide TablesOk;
      hide ListOk;
      hide UseOk;
      hide MappedOk;
      hide SameBut;
      ghost var f := pa / PGSIZE;
      FreedGood(lo, hi, State(), f);
      mem := mem[pa / PGSIZE := Filled(JUNK_FREED)];
      mem := mem[pa / PGSIZE := mem[pa / PGSIZE][0 := freelist]];
      freelist := pa;
      stack := stack + [f];
      use := use[f := Free(|stack| - 1)];
      assert mem == old(mem)[f := Filled(JUNK_FREED)[0 := old(freelist)]];
      assert State() == Freed(old(State()), f);
    }

    /** A page of junk, by its address, or 0 if none is free. */
    method Kalloc() returns (pa: nat)
      requires Valid()
      modifies this`mem, this`freelist, this`stack, this`use
      ensures Valid() && SameBut(old(Maps()), Maps(), 0, 0, 0)
      ensures if old(stack) == [] then pa == 0 && State() == old(State())
              else pa % PGSIZE == 0 && pa / PGSIZE == old(stack)[|old(stack)| - 1] && pa != 0
                   && pa / PGSIZE in old(mem) && State() == Taken(old(State()))
                   && stack == old(stack)[..|old(stack)| - 1] && mem == old(mem)[pa / PGSIZE := seq(512, _ => 0x0505_0505_0505_0505)]
    {
      hide TablesOk;
      hide ListOk;
      hide UseOk;
      hide MappedOk;
      hide SameBut;
      hide Link;
      var r := freelist;
      FirstFree(lo, hi, State());
      if r != 0 {
        TakenGood(lo, hi, State());
        freelist := mem[r / PGSIZE][0];
      }
      if r != 0 {
        mem := mem[r / PGSIZE := Filled(JUNK_TAKEN)];
        use := use[r / PGSIZE := Kernel];
        stack := stack[..|stack| - 1];
        assert State() == Taken(old(State()));
      } else {
        SameButNothing(Maps(), 0, 0);
      }
      pa := r;
    }

    /** kinit: free the whole pages between two addresses. */
    method FreeRange(start: nat, end: nat)
      requires Valid() && forall f :: (start + PGSIZE - 1) / PGSIZE <= f < end / PGSIZE ==> f in use && use[f] == Kernel
      modifies this`mem, this`freelist, this`stack, this`use
      ensures Valid() && SameBut(old(Maps()), Maps(), 0, 0, 0)
      ensures forall f :: f in use <==> f in old(use)
      ensures forall f :: f in use ==>
                if (start + PGSIZE - 1) / PGSIZE <= f < end / PGSIZE then use[f].Free? else use[f] == old(use)[f]
    {
      hide TablesOk;
      hide ListOk;
      hide UseOk;
      hide MappedOk;
      hide SameBut;
      ghost var s := State();
      SameButNothing(Maps(), 0, 0);
      var p := (start + PGSIZE - 1) / PGSIZE * PGSIZE;
      while p + PGSIZE <= end
        invariant p % PGSIZE == 0 && (start + PGSIZE - 1) / PGSIZE <= p / PGSIZE
        invariant p / PGSIZE <= end / PGSIZE || p / PGSIZE == (start + PGSIZE - 1) / PGSIZE
        invariant Valid() && SameBut(s.t, Maps(), 0, 0, 0)
        invariant forall f :: f in use <==> f in s.use
        invariant forall f :: f in use ==>
                    if (start + PGSIZE - 1) / PGSIZE <= f < p / PGSIZE then use[f].Free? else use[f] == s.use[f]
      {
        ghost var was := Maps();
        assert (p + PGSIZE) / PGSIZE == p / PGSIZE + 1 && p / PGSIZE < end / PGSIZE;
        Kfree(p);
        SameButTwice(s.t, was, Maps(), 0, 0, 0, 0);
        p := p + PGSIZE;
      }
    }

    // ----- vm.c

    /** The step of walk that makes a table, for entry i of t on the way to page v. */
    method AddTable(t: nat, i: nat, ghost root: nat, ghost v: nat) returns (page: nat)
      requires Valid() && t in lvl && lvl[t] > 0 && t in mem && i < 512 && !IsValid(mem[t][i])
      requires IsRoot(Maps(), root) && lvl[t] <= 2 && TableAt(Maps(), root, v, lvl[t]) == Some(t) && i == Index(lvl[t], v)
      modifies this`mem, this`freelist, this`stack, this`use, this`lvl, this`par
      ensures Valid() && IsRoot(Maps(), root) && SameBut(old(Maps()), Maps(), 0, 0, 0)
      ensures OnlyTablesAdded(old(State()), State())
      ensures if page == 0 then State() == old(State()) && stack == []
              else TableAt(Maps(), root, v, old(lvl)[t] - 1) == Some(page / PGSIZE)
    {
      hide TablesOk;
      hide ListOk;
      hide UseOk;
      hide MappedOk;
      hide SameBut;
      hide OnlyTablesAdded;
      hide Index;
      hide Good;
      hide Entry;
      hide Filled;
      ghost var s := State();
      StillAll(lo, hi, s);
      if stack != [] {
        NewTable(lo, hi, s, t, i);
        NewTableNext(lo, hi, s, t, root, v, lvl[t]);
      }
      page := Kalloc();
      if page == 0 {
        return;
      }
      ghost var c := page / PGSIZE;
      EntryV(c);
      mem := mem[page / PGSIZE := Filled(0)];
      mem := mem[t := mem[t][i := Entry(page / PGSIZE, 0)]];
      lvl, par, use := lvl[c := lvl[t] - 1], par[c := (t, i)], use[c := Table];
      assert mem == Grown(Taken(s).t, t, i, c).mem;
      assert State() == TableAdded(Taken(s), t, i, c);
    }

    /**
     * The entry for the page of va: its level-0 table and index. With alloc, missing tables are
     * made on the way, and only running out of pages stops it.
     */
    method Walk(root: nat, va: nat, alloc: bool) returns (pte: Option<(nat, nat)>)
      requires Valid() && IsRoot(Maps(), root) && va / PGSIZE < MAXPAGE
      modifies this`mem, this`freelist, this`stack, this`use, this`lvl, this`par
      ensures Valid() && IsRoot(Maps(), root) && SameBut(old(Maps()), Maps(), 0, 0, 0)
      ensures OnlyTablesAdded(old(State()), State()) && (!alloc ==> State() == old(State()))
      ensures var t := TableAt(Maps(), root, va / PGSIZE, 0);
              && pte == (if t.None? then None else Some((t.value, Index(0, va / PGSIZE))))
              && (t.Some? ==> t.value in mem)
      ensures pte.None? && alloc ==> stack == []
    {
      hide TablesOk;
      hide ListOk;
      hide UseOk;
      hide MappedOk;
      hide SameBut;
      hide OnlyTablesAdded;
      hide Index;
      ghost var s, v := State(), va / PGSIZE;
      SameButNothing(Maps(), 0, 0);
      StillAll(lo, hi, s);
      var level, pagetable := 2, root;
      while level > 0
        invariant 0 <= level <= 2 && Valid() && IsRoot(Maps(), root)
        invariant SameBut(s.t, Maps(), 0, 0, 0) && OnlyTablesAdded(s, State()) && (!alloc ==> State() == s)
        invariant TableAt(Maps(), root, v, level) == Some(pagetable)
      {
        NextWay(Maps(), root, v, level, pagetable);
        var i := Index(level, va / PGSIZE);
        var pte := mem[pagetable][i];
        if IsValid(pte) {
          pagetable := Frame(pte);
        } else {
          NoWay(Maps(), root, v, level - 1);
          if !alloc {
            return None;
          }
          ghost var was := State();
          var page := AddTable(pagetable, i, root, v);
          if page == 0 {
            return None;
          }
          SameButTwice(s.t, was.t, Maps(), 0, 0, 0, 0);
          OnlyTablesTwice(s, was, State());
          pagetable := page / PGSIZE;
        }
        level := level - 1;
      }
      InMemory(Maps(), pagetable);
      return Some((pagetable, Index(0, va / PGSIZE)));
    }

    /** A round of the loop of mappages: make the entry of the page at a. */
    method MapPage(root: nat, a: nat, pa: nat, perm: nat) returns (ok: bool)
      requires Valid() && IsRoot(Maps(), root) && a / PGSIZE < MAXPAGE && perm < 1024
      requires !IsValid(Leaf(Maps(), root, a / PGSIZE))
      modifies this`mem, this`freelist, this`stack, this`use, this`lvl, this`par
      ensures Valid() && IsRoot(Maps(), root) && OnlyTablesAdded(old(State()), State())
      ensures if ok then
                && SameBut(old(Maps()), Maps(), root, a / PGSIZE, a / PGSIZE + 1)
                && Leaf(Maps(), root, a / PGSIZE) == Entry(pa / PGSIZE, perm)
                && TableAt(Maps(), root, a / PGSIZE, 0).Some?
              else SameBut(old(Maps()), Maps(), 0, 0, 0) && stack == []
    {
      hide TablesOk;
      hide ListOk;
      hide UseOk;
      hide MappedOk;
      hide OnlyTablesAdded;
      hide Index;
      hide TableAt;
      hide Leaf;
      ghost var s, v := State(), a / PGSIZE;
      var pte := Walk(root, a, true);
      if pte.None? {
        return false;
      }
      ghost var was := State();
      assert Leaf(was.t, root, v) == Leaf(s.t, root, v);
      EmptySet(lo, hi, was, root, v, Entry(pa / PGSIZE, perm));
      hide SameBut;
      var (t, i) := pte.value;
      mem := mem[t := mem[t][i := Entry(pa / PGSIZE, perm)]];
      assert State() == EntrySet(was, root, v, Entry(pa / PGSIZE, perm));
      SameButAfter(s.t, was.t, Maps(), root, v, v + 1);
      OnlyTablesTwice(s, was, State());
      WayKept(was.t, Maps(), root, v, root, v, v + 1);
      return true;
    }

    /**
     * Map the pages of [va, va + size) to the pages from pa on. The pages must not be mapped yet
     * ("mappages: remap"). Out of pages, it leaves mapped those it had come to.
     */
    method Mappages(root: nat, va: nat, size: nat, pa: nat, perm: nat) returns (r: int, ghost count: nat)
      requires Valid() && IsRoot(Maps(), root) && size > 0 && (va + size - 1) / PGSIZE < MAXPAGE && perm < 1024
      requires forall v :: va / PGSIZE <= v <= (va + size - 1) / PGSIZE ==> !IsValid(Leaf(Maps(), root, v))
      modifies this`mem, this`freelist, this`stack, this`use, this`lvl, this`par
      ensures Valid() && IsRoot(Maps(), root) && OnlyTablesAdded(old(State()), State())
      ensures va / PGSIZE + count <= (va + size - 1) / PGSIZE + 1
      ensures SameBut(old(Maps()), Maps(), root, va / PGSIZE, va / PGSIZE + count)
      ensures forall v :: va / PGSIZE <= v < va / PGSIZE + count ==>
                TableAt(Maps(), root, v, 0).Some? && Leaf(Maps(), root, v) == Entry(pa / PGSIZE + (v - va / PGSIZE), perm)
      ensures r == 0 || r == -1
      ensures if r == 0 then va / PGSIZE + count == (va + size - 1) / PGSIZE + 1
              else va / PGSIZE + count <= (va + size - 1) / PGSIZE && stack == []
    {
      hide TablesOk;
      hide ListOk;
      hide UseOk;
      hide MappedOk;
      hide OnlyTablesAdded;
      hide TableAt;
      hide Leaf;
      hide SameBut;
      ghost var s, first := State(), va / PGSIZE;
      StillAll(lo, hi, s);
      SameButNothing(s.t, root, first);
      var a, p := va / PGSIZE * PGSIZE, pa;
      var last := (va + size - 1) / PGSIZE * PGSIZE;
      count := 0;
      while true
        invariant a == (first + count) * PGSIZE && a <= last && p == pa + count * PGSIZE
        invariant Valid() && IsRoot(Maps(), root) && OnlyTablesAdded(s, State())
        invariant SameBut(s.t, Maps(), root, first, first + count)
        invariant forall v :: first <= v < first + count ==>
                    TableAt(Maps(), root, v, 0).Some? && Leaf(Maps(), root, v) == Entry(pa / PGSIZE + (v - first), perm)
        decreases last - a
      {
        ghost var was := State();
        PageOf(first, count, a);
        PageOfPa(pa, count, p);
        OthersSame(s.t, was.t, root, first, first + count);
        var ok := MapPage(root, a, p, perm);
        OnlyTablesTwice(s, was, State());
        if !ok {
          SameButBefore(s.t, was.t, Maps(), root, first, first + count);
          forall v | first <= v < first + count
            ensures TableAt(Maps(), root, v, 0).Some? && Leaf(Maps(), root, v) == Leaf(was.t, root, v)
          {
            WayKept(was.t, Maps(), root, v, 0, 0, 0);
            SameButOne(was.t, Maps(), root, v);
          }
          return -1, count;
        }
        SameButTwice(s.t, was.t, Maps(), root, first, first + count, first + count + 1);
        forall v | first <= v < first + count
          ensures TableAt(Maps(), root, v, 0).Some? && Leaf(Maps(), root, v) == Leaf(was.t, root, v)
        {
          StillMapped(was.t, Maps(), root, first + count, v);
        }
        count := count + 1;
        if a == last {
          break;
        }
        a := a + PGSIZE;
        p := p + PGSIZE;
      }
      r := 0;
    }

    static lemma PageOf(first: nat, count: nat, a: nat)
      requires a == (first + count) * PGSIZE
      ensures a / PGSIZE == first + count
    {
    }

    static lemma PageOfPa(pa: nat, count: nat, p: nat)
      requires p == pa + count * PGSIZE
      ensures p / PGSIZE == pa / PGSIZE + count
    {
    }

    /** A round of the loop of uvmunmap. */
    method UnmapPage(root: nat, a: nat, doFree: bool)
      requires Valid() && IsRoot(Maps(), root) && a / PGSIZE < MAXPAGE && Removable(State(), root, a / PGSIZE, doFree)
      modifies this`mem, this`freelist, this`stack, this`use, this`lvl, this`par
      ensures Valid() && IsRoot(Maps(), root) && SameBut(old(Maps()), Maps(), root, a / PGSIZE, a / PGSIZE + 1)
      ensures Leaf(Maps(), root, a / PGSIZE) == 0
      ensures Released(old(State()), State(), if doFree then {Frame(old(Leaf(Maps(), root, a / PGSIZE)))} else {})
      ensures |stack| == |old(stack)| + (if doFree then 1 else 0) && lvl == old(lvl) && par == old(par)
    {
      hide TablesOk;
      hide ListOk;
      hide UseOk;
      hide MappedOk;
      hide Index;
      hide TableAt;
      hide SameBut;
      hide Released;
      ghost var s, v := State(), a / PGSIZE;
      var pte := Walk(root, a, false);
      var (t, i) := pte.value;
      var e := mem[t][i];
      if doFree {
        OwnedRemoved(lo, hi, s, root, v);
        var pa := Frame(e) * PGSIZE;
        use := use[Frame(e) := Kernel];
        assert State() == NotHeld(s, Frame(e));
        NotHeldGood(lo, hi, s, Frame(e));
        Kfree(pa);
        mem := mem[t := mem[t][i := 0]];
        assert State() == EntrySet(Freed(NotHeld(s, Frame(e)), Frame(e)), root, v, 0);
      } else {
        BorrowedRemoved(lo, hi, s, root, v);
        mem := mem[t := mem[t][i := 0]];
        assert State() == EntrySet(s, root, v, 0);
      }
    }

    /**
     * Remove npages mappings from va on, which must exist ("uvmunmap: not mapped"). With doFree the
     * pages they own go to the free list, each once.
     */
    method Uvmunmap(root: nat, va: nat, npages: nat, doFree: bool)
      requires Valid() && IsRoot(Maps(), root) && va % PGSIZE == 0 && va / PGSIZE + npages <= MAXPAGE
      requires forall v :: va / PGSIZE <= v < va / PGSIZE + npages ==> Removable(State(), root, v, doFree)
      modifies this`mem, this`freelist, this`stack, this`use, this`lvl, this`par
      ensures Valid() && IsRoot(Maps(), root) && lvl == old(lvl) && par == old(par)
      ensures SameBut(old(Maps()), Maps(), root, va / PGSIZE, va / PGSIZE + npages)
      ensures forall v :: va / PGSIZE <= v < va / PGSIZE + npages ==> Leaf(Maps(), root, v) == 0
      ensures Released(old(State()), State(), old(Given(Maps(), root, va / PGSIZE, npages, doFree)))
      ensures |stack| == |old(stack)| + (if doFree then npages else 0)
    {
      hide TablesOk;
      hide ListOk;
      hide UseOk;
      hide MappedOk;
      hide TableAt;
      hide Leaf;
      hide Removable;
      hide Released;
      hide SameBut;
      ghost var s, first, k := State(), va / PGSIZE, 0;
      UnmappingStart(lo, hi, s, root, first, npages, doFree);
      var a := va;
      while a < va + npages * PGSIZE
        invariant a == (first + k) * PGSIZE && k <= npages
        invariant Valid() && IsRoot(Maps(), root) && lvl == s.t.lvl && par == s.t.par
        invariant Unmapping(s, State(), root, first, k, npages, doFree)
        invariant |stack| == |s.stack| + (if doFree then k else 0)
      {
        PageOf(first, k, a);
        ghost var was := State();
        UnmapPage(root, a, doFree);
        UnmappingStep(s, was, State(), root, first, k, npages, doFree);
        k := k + 1;
        a := a + PGSIZE;
      }
    }

    /** An empty page table, or 0 if out of pages. */
    method Uvmcreate() returns (pagetable: nat)
      requires Valid()
      modifies this`mem, this`freelist, this`stack, this`use, this`lvl
      ensures Valid()
      ensures if pagetable == 0 then State() == old(State()) && stack == []
              else
                && pagetable !in old(lvl) && IsRoot(Maps(), pagetable) && OnlyTablesAdded(old(State()), State())
                && MapsNothing(Maps(), pagetable) && MapsKept(old(Maps()), Maps())
    {
      hide TablesOk;
      hide ListOk;
      hide UseOk;
      hide MappedOk;
      hide SameBut;
      hide Gained;
      hide MapsNothing;
      hide MapsKept;
      ghost var s := State();
      if stack != [] {
        NewRoot(lo, hi, s);
      }
      pagetable := Kalloc();
      if pagetable == 0 {
        return;
      }
      pagetable := pagetable / PGSIZE;
      mem := mem[pagetable := Filled(0)];
      lvl, use := lvl[pagetable := 2], use[pagetable := Table];
      assert State() == RootAdded(KernelWritten(Taken(s), pagetable, Filled(0)), pagetable);
    }

    /**
     * The part that uvmalloc and uvmcopy share: a new page with the given contents, mapped at a.
     * It fails, giving the page back, only when pages run out.
     */
    method AddPage(root: nat, a: nat, ghost src: Option<nat>, from: Option<nat>, perm: nat) returns (ok: bool)
      requires Valid() && IsRoot(Maps(), root) && a % PGSIZE == 0 && a / PGSIZE < MAXPAGE
      requires !IsValid(Leaf(Maps(), root, a / PGSIZE))
      requires src.Some? ==> IsRoot(Maps(), src.value)
      requires Copyable(State(), src, a / PGSIZE) && (src.Some? <==> from.Some?)
      requires from.Some? ==> from.value == Frame(Leaf(Maps(), src.value, a / PGSIZE))
      requires perm < 1024 && Flags(Entry(0, perm)) == Rights(State(), src, a / PGSIZE) != PTE_V
      modifies this`mem, this`freelist, this`stack, this`use, this`lvl, this`par
      ensures Valid() && IsRoot(Maps(), root)
      ensures if ok then
                && SameBut(old(Maps()), Maps(), root, a / PGSIZE, a / PGSIZE + 1)
                && Gained(old(State()), State(), {Frame(Leaf(Maps(), root, a / PGSIZE))})
                && NewPage(old(State()), State(), src, root, a / PGSIZE)
              else SameBut(old(Maps()), Maps(), 0, 0, 0) && OnlyTablesAdded(old(State()), State()) && |stack| <= 1
    {
      hide TablesOk;
      hide ListOk;
      hide UseOk;
      hide MappedOk;
      hide SameBut;
      hide Gained;
      hide NewPage;
      hide Rights;
      hide Entry;
      hide TableAt;
      hide Leaf;
      hide Copyable;
      hide Released;
      ghost var s, v := State(), a / PGSIZE;
      var page := Kalloc();
      if page == 0 {
        StillAll(lo, hi, s);
        return false;
      }
      page := page / PGSIZE;
      ghost var p := Content(s, src, v);
      TakenGained(lo, hi, s, p);
      if from.None? {
        mem := mem[page := Filled(0)];
      } else {
        CopySource(lo, hi, s, src.value, v);
        mem := mem[page := mem[from.value]];
      }
      assert State() == KernelWritten(Taken(s), page, p);
      ghost var was := State();
      SameButOne(s.t, was.t, root, v);
      OnePage(a);
      var r, count := Mappages(root, a, PGSIZE, page * PGSIZE, perm);
      if r != 0 {
        SameButNone(was.t, Maps(), root, v);
        PageReturned(lo, hi, s, was, State(), page);
        Kfree(page * PGSIZE);
        return false;
      }
      PageMapped(lo, hi, s, was, State(), src, root, v, page, perm);
      ghost var n := State();
      use := use[page := Mapped(TableAt(Maps(), root, v, 0).value, Index(0, v))];
      assert State() == NowHeld(n, root, v);
      return true;
    }

    static function RoundUp(sz: nat): nat { (sz + PGSIZE - 1) / PGSIZE * PGSIZE }

    /** The number of pages up to sz. */
    static function PagesTo(sz: nat): (n: nat)
      ensures (n - 1) * PGSIZE < sz <= n * PGSIZE
    {
      (sz + PGSIZE - 1) / PGSIZE
    }

    /** Shrink from oldsz to newsz bytes; the pages in between, which must be mapped, are freed. */
    method Uvmdealloc(root: nat, oldsz: nat, newsz: nat) returns (r: nat)
      requires Valid() && IsRoot(Maps(), root) && (newsz < oldsz ==> PagesTo(oldsz) <= MAXPAGE)
      requires forall v :: newsz < oldsz && PagesTo(newsz) <= v < PagesTo(oldsz) ==> Removable(State(), root, v, true)
      modifies this`mem, this`freelist, this`stack, this`use, this`lvl, this`par
      ensures Valid() && IsRoot(Maps(), root) && lvl == old(lvl) && par == old(par)
      ensures r == if newsz >= oldsz then oldsz else newsz
      ensures if newsz >= oldsz then State() == old(State())
              else
                && SameBut(old(Maps()), Maps(), root, PagesTo(newsz), PagesTo(oldsz))
                && (forall v :: PagesTo(newsz) <= v < PagesTo(oldsz) ==> Leaf(Maps(), root, v) == 0)
                && PagesTo(newsz) <= PagesTo(oldsz)
                && Released(old(State()), State(), old(PagesOf(Maps(), root, PagesTo(newsz), PagesTo(oldsz) - PagesTo(newsz))))
                && |stack| == |old(stack)| + (PagesTo(oldsz) - PagesTo(newsz))
    {
      hide TablesOk;
      hide ListOk;
      hide UseOk;
      hide MappedOk;
      hide TableAt;
      hide Leaf;
      hide Removable;
      hide Released;
      hide SameBut;
      if newsz >= oldsz {
        return oldsz;
      }
      RoundedUp(oldsz);
      RoundedUp(newsz);
      ReleasedNothing(lo, hi, State());
      SameButNothing(Maps(), root, PagesTo(newsz));
      if RoundUp(newsz) < RoundUp(oldsz) {
        var npages := (RoundUp(oldsz) - RoundUp(newsz)) / PGSIZE;
        Uvmunmap(root, RoundUp(newsz), npages, true);
      }
      return newsz;
    }

    static lemma RoundedUp(sz: nat)
      ensures RoundUp(sz) == PagesTo(sz) * PGSIZE && RoundUp(sz) / PGSIZE == PagesTo(sz) && RoundUp(sz) % PGSIZE == 0
      ensures PagesTo(RoundUp(sz)) == PagesTo(sz)
    {
    }

    /**
     * Grow from oldsz to newsz bytes with zeroed pages. Out of pages, and only then, it takes back
     * all that it added and returns 0: no mapping is new, no page lost, though tables it made remain.
     */
    method Uvmalloc(root: nat, oldsz: nat, newsz: nat) returns (r: nat, ghost ok: bool)
      requires Valid() && IsRoot(Maps(), root) && (oldsz <= newsz ==> PagesTo(newsz) <= MAXPAGE)
      requires forall v :: PagesTo(oldsz) <= v < PagesTo(newsz) ==> !IsValid(Leaf(Maps(), root, v))
      modifies this`mem, this`freelist, this`stack, this`use, this`lvl, this`par
      ensures Valid() && IsRoot(Maps(), root)
      ensures newsz < oldsz ==> r == oldsz && State() == old(State())
      ensures oldsz <= newsz ==> r == if ok then newsz else 0
      ensures oldsz <= newsz && ok ==>
                && PagesTo(oldsz) <= PagesTo(newsz)
                && Adding(old(State()), State(), None, root, PagesTo(oldsz), PagesTo(newsz) - PagesTo(oldsz))
                && forall v :: PagesTo(oldsz) <= v < PagesTo(newsz) ==>
                     var e := Leaf(Maps(), root, v);
                     Flags(e) == 1 + 2 + 4 + 8 + 16 && Frame(e) in mem && mem[Frame(e)] == seq(512, _ => 0)
      ensures oldsz <= newsz && !ok ==>
                && SameBut(old(Maps()), Maps(), root, PagesTo(oldsz), PagesTo(newsz))
                && OnlyTablesAdded(old(State()), State())
                && |stack| <= PagesTo(newsz) - PagesTo(oldsz)
                && forall v :: PagesTo(oldsz) <= v < PagesTo(newsz) ==> !IsValid(Leaf(Maps(), root, v))
    {
      hide TablesOk;
      hide ListOk;
      hide UseOk;
      hide MappedOk;
      hide TableAt;
      hide Leaf;
      hide Removable;
      hide Adding;
      hide SameBut;
      hide Gained;
      hide Released;
      hide NewPage;
      ok := true;
      if newsz < oldsz {
        return oldsz, true;
      }
      ghost var s, first, k := State(), PagesTo(oldsz), 0;
      RoundedUp(oldsz);
      RoundedUp(newsz);
      AddingNothing(lo, hi, s, None, root, first);
      var start := RoundUp(oldsz);
      var a := start;
      while a < newsz
        invariant a == (first + k) * PGSIZE && (first + k <= PagesTo(newsz))
        invariant Valid() && IsRoot(Maps(), root) && Adding(s, State(), None, root, first, k)
        invariant forall v :: first + k <= v < PagesTo(newsz) ==> !IsValid(Leaf(Maps(), root, v))
      {
        PageOf(first, k, a);
        ghost var was := State();
        var got := AddPage(root, a, None, None, USER);
        if !got {
          AddingFailed(s, was, State(), None, root, first, k);
          SameLeaves(was.t, Maps(), root);
          ghost var n := State();
          SameButNothing(n.t, root, first);
          ReleasedNothing(lo, hi, n);
          RoundedUp(a);
          var _ := Uvmdealloc(root, a, start);
          AddingGivenUp(s, n, State(), None, root, first, k, PagesTo(newsz));
          return 0, false;
        }
        AddingStep(s, was, State(), None, root, first, k);
        OthersSame(was.t, Maps(), root, first + k, first + k + 1);
        k := k + 1;
        a := a + PGSIZE;
      }
      AddedZeroed(s, State(), root, first, k);
      return newsz, true;
    }

    /**
     * Copy the first sz bytes' pages of parent's address space into child's. Out of pages, and only
     * then, it removes and frees what it had copied.
     */
    method Uvmcopy(parent: nat, child: nat, sz: nat) returns (r: int)
      requires Valid() && IsRoot(Maps(), parent) && IsRoot(Maps(), child) && parent != child && PagesTo(sz) <= MAXPAGE
      requires forall v :: 0 <= v < PagesTo(sz) ==>
                 Copyable(State(), Some(parent), v) && !IsValid(Leaf(Maps(), child, v))
      modifies this`mem, this`freelist, this`stack, this`use, this`lvl, this`par
      ensures Valid() && IsRoot(Maps(), child)
      ensures r == 0 || r == -1
      ensures if r == 0 then
                && Adding(old(State()), State(), Some(parent), child, 0, PagesTo(sz))
                && forall v :: 0 <= v < PagesTo(sz) ==>
                     var e, c := old(Leaf(Maps(), parent, v)), Leaf(Maps(), child, v);
                     && Flags(c) == Flags(e) && Frame(e) in old(mem)
                     && Frame(c) in mem && mem[Frame(c)] == old(mem)[Frame(e)]
              else
                && SameBut(old(Maps()), Maps(), child, 0, PagesTo(sz)) && OnlyTablesAdded(old(State()), State())
                && |stack| <= PagesTo(sz)
                && forall v :: 0 <= v < PagesTo(sz) ==> !IsValid(Leaf(Maps(), child, v))
    {
      hide TablesOk;
      hide ListOk;
      hide UseOk;
      hide MappedOk;
      hide TableAt;
      hide Leaf;
      hide Removable;
      hide Adding;
      hide SameBut;
      hide Gained;
      hide Released;
      hide NewPage;
      hide Owns;
      ghost var s, k, src := State(), 0, Some(parent);
      AddingNothing(lo, hi, s, src, child, 0);
      var i := 0;
      while i < sz
        invariant i == (0 + k) * PGSIZE && k <= PagesTo(sz)
        invariant Valid() && IsRoot(Maps(), parent) && IsRoot(Maps(), child) && Adding(s, State(), src, child, 0, k)
        invariant forall v :: k <= v < PagesTo(sz) ==> Copyable(State(), src, v) && !IsValid(Leaf(Maps(), child, v))
      {
        PageOf(0, k, i);
        ghost var was := State();
        var pte := Walk(parent, i, false);
        assert Copyable(was, src, k);
        OwnedEntry(was, parent, k);
        var e := mem[pte.value.0][pte.value.1];
        FlagsAgain(e);
        var got := AddPage(child, i, src, Some(Frame(e)), Flags(e));
        if !got {
          AddingFailed(s, was, State(), src, child, 0, k);
          SameLeaves(was.t, Maps(), child);
          ghost var n := State();
          Uvmunmap(child, 0, i / PGSIZE, true);
          AddingGivenUp(s, n, State(), src, child, 0, k, PagesTo(sz));
          return -1;
        }
        RestCopyable(was, State(), src, child, k, PagesTo(sz));
        AddingStep(s, was, State(), src, child, 0, k);
        k := k + 1;
        i := i + PGSIZE;
      }
      AddedCopied(s, State(), parent, child, k);
      return 0;
    }

    /** Zero an entry of a page that belongs to the kernel. */
    method ClearEntry(pagetable: nat, i: nat)
      requires Valid() && i < 512 && pagetable in mem && pagetable in use && use[pagetable].Kernel?
      modifies this`mem
      ensures Valid() && State() == KernelWritten(old(State()), pagetable, old(mem)[pagetable][i := 0])
      ensures SameBut(old(Maps()), Maps(), 0, 0, 0)
    {
      hide SameBut;
      KernelWrittenGood(lo, hi, State(), pagetable, mem[pagetable][i := 0]);
      ghost var n := State();
      mem := mem[pagetable := mem[pagetable][i := 0]];
      assert State() == KernelWritten(n, pagetable, n.t.mem[pagetable][i := 0]);
    }

    /**
     * Free the page-table pages from pagetable down, each once. They are the tables under it in m;
     * no leaf is mapped in them ("freewalk: leaf"), and they belong to no root any more.
     */
    method Freewalk(pagetable: nat, ghost m: Tables)
      requires Valid() && TablesOk(m) && pagetable in m.lvl && Loose(m, pagetable, State()) && AllClear(m, pagetable)
      modifies this`mem, this`freelist, this`stack, this`use
      ensures Valid() && SameBut(old(Maps()), Maps(), 0, 0, 0)
      ensures Released(old(State()), State(), Subtree(m, pagetable))
      ensures |stack| == |old(stack)| + |Subtree(m, pagetable)|
      decreases m.lvl[pagetable]
    {
      hide TablesOk;
      hide ListOk;
      hide UseOk;
      hide MappedOk;
      hide SameBut;
      hide Released;
      hide Reclaimed;
      hide AllClear;
      hide Loose;
      hide Subtree;
      hide Reached;
      ghost var s, t := State(), pagetable;
      FreewalkStart(lo, hi, s, m, t);
      var i := 0;
      while i < 512
        invariant 0 <= i <= 512 && Valid() && SameBut(s.t, Maps(), 0, 0, 0) && lvl == s.t.lvl
        invariant Reclaimed(s, State(), Reached(m, t, i), t) && t in use && use[t].Kernel? && t in mem && t in m.mem
        invariant forall j :: i <= j < 512 ==> mem[t][j] == m.mem[t][j]
        invariant |stack| == |s.stack| + |Reached(m, t, i)|
      {
        ReachedNext(m, t, i);
        var pte := mem[pagetable][i];
        if IsValid(pte) {
          FreewalkEntry(m, t, i);
        }
        if IsValid(pte) && pte / 2 % 8 == 0 {
          var child := Frame(pte);
          LooseChild(m, t, i, s, State(), child);
          ghost var was := State();
          Freewalk(child, m);
          ReclaimedMore(s, was, State(), Reached(m, t, i), t, Subtree(m, child));
          SameButTwice(s.t, was.t, Maps(), 0, 0, 0, 0);
          TableStays(was, State(), Subtree(m, child), t);
          ghost var n := State();
          ClearEntry(pagetable, i);
          MemoryOf(lo, hi, n);
          ReclaimedWrite(s, n, Reached(m, t, i + 1), t, n.t.mem[t][i := 0]);
          SameButTwice(s.t, n.t, Maps(), 0, 0, 0, 0);
        } else {
          assert !IsValid(pte);
        }
        i := i + 1;
      }
      ghost var n := State();
      ReachedAll(m, t);
      FreedReleased(lo, hi, n, t);
      Kfree(pagetable * PGSIZE);
      ReclaimedEnd(s, n, State(), Reached(m, t, 512), t);
      SameButTwice(s.t, n.t, Maps(), 0, 0, 0, 0);
    }

    /**
     * Free a process's pages and its page table. Its mappings must be just the pages up to sz, each
     * the owner of its page; then all those pages and all tables under the root become free, each
     * once, and nothing else changes hands.
     */
    method Uvmfree(root: nat, sz: nat)
      requires Valid() && IsRoot(Maps(), root) && PagesTo(sz) <= MAXPAGE
      requires forall v :: 0 <= v < PagesTo(sz) ==> Owns(State(), root, v)
      requires forall v :: PagesTo(sz) <= v < NPAGES ==> !IsValid(Leaf(Maps(), root, v))
      modifies this`mem, this`freelist, this`stack, this`use, this`lvl, this`par
      ensures Valid() && OthersKept(old(Maps()), Maps(), root) && !IsRoot(Maps(), root)
      ensures Released(old(State()), State(),
                       old(PagesOf(Maps(), root, 0, PagesTo(sz))) + old(Subtree(Maps(), root)))
      ensures |stack| == |old(stack)| + PagesTo(sz) + |old(Subtree(Maps(), root))|
    {
      hide TablesOk;
      hide ListOk;
      hide UseOk;
      hide MappedOk;
      hide SameBut;
      hide Released;
      hide AllClear;
      hide Loose;
      hide Subtree;
      hide Owns;
      hide Leaf;
      hide OthersKept;
      hide RootDropped;
      ghost var s, count := State(), PagesTo(sz);
      ReleasedNothing(lo, hi, s);
      SameButNothing(s.t, root, 0);
      RoundedUp(sz);
      if sz > 0 {
        Uvmunmap(root, 0, RoundUp(sz) / PGSIZE, true);
      }
      ghost var n := State();
      OthersSame(s.t, n.t, root, 0, count);
      EmptyMapClear(n.t, root);
      RootDroppedGood(lo, hi, n, root);
      DroppedLoose(lo, hi, n, root);
      DroppedMaps(n, root);
      ghost var d := RootDropped(n, root);
      DroppedParts(n, root);
      lvl, par, use := d.t.lvl, d.t.par, d.use;
      assert State() == d;
      Freewalk(root, n.t);
      UvmfreeMaps(s.t, n.t, d.t, Maps(), root, count);
      UvmfreeUse(lo, hi, s, n, State(), root, PagesOf(s.t, root, 0, count));
      SameSubtree(s.t, n.t, root);
    }
  }
}
