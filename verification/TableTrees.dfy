/** The tables under a page table, and taking them out of use. */
module TableTrees {
  import opened Basics
  import opened PageTables
  import opened Frames

  /** Table u is t or is reached from it. */
  ghost predicate Under(m: Tables, u: nat, t: nat)
    requires TablesOk(m) && u in m.lvl
    decreases 2 - m.lvl[u]
  {
    u == t || (m.lvl[u] < 2 && Under(m, m.par[u].0, t))
  }

  ghost function Subtree(m: Tables, t: nat): set<nat>
    requires TablesOk(m)
  {
    set u | u in m.lvl && Under(m, u, t)
  }

  /** The entry of t through which u is reached. */
  ghost function Via(m: Tables, u: nat, t: nat): nat
    requires TablesOk(m) && u in m.lvl && Under(m, u, t) && u != t
    decreases 2 - m.lvl[u]
  {
    if m.par[u].0 == t then m.par[u].1 else Via(m, m.par[u].0, t)
  }

  lemma {:induction false} UnderLevel(m: Tables, u: nat, t: nat)
    requires TablesOk(m) && u in m.lvl && t in m.lvl && Under(m, u, t)
    ensures u == t || m.lvl[u] < m.lvl[t]
    decreases 2 - m.lvl[u]
  {
    if u != t {
      UnderLevel(m, m.par[u].0, t);
    }
  }

  lemma {:induction false} ViaInTable(m: Tables, u: nat, t: nat)
    requires TablesOk(m) && u in m.lvl && t in m.lvl && Under(m, u, t) && u != t
    ensures Via(m, u, t) < 512 && t in m.mem && IsValid(m.mem[t][Via(m, u, t)]) && m.lvl[t] > 0
    decreases 2 - m.lvl[u]
  {
    UnderLevel(m, u, t);
    EntryParts(u, PTE_V);
    if m.par[u].0 != t {
      ViaInTable(m, m.par[u].0, t);
    }
  }

  /** A table below the top has one entry leading to it, in a table one level up. */
  lemma ParentOf(m: Tables, u: nat)
    requires TablesOk(m) && u in m.lvl
    ensures m.lvl[u] <= 2
    ensures m.lvl[u] < 2 ==>
              && u in m.par && m.par[u].0 in m.lvl && m.par[u].0 in m.mem && m.par[u].1 < 512
              && m.lvl[m.par[u].0] == m.lvl[u] + 1 && m.mem[m.par[u].0][m.par[u].1] == Entry(u, PTE_V)
  {
  }

  /** Two tables are not reached through one entry. */
  lemma SameEntry(m: Tables, u: nat, c: nat)
    requires TablesOk(m) && u in m.lvl && m.lvl[u] < 2 && c in m.lvl && m.lvl[c] < 2
    requires u in m.par && c in m.par && m.par[u] == m.par[c]
    ensures u == c
  {
    ParentOf(m, u);
    ParentOf(m, c);
    EntryParts(u, PTE_V);
    EntryParts(c, PTE_V);
  }

  /** What is under the table an entry leads to is what is reached through that entry. */
  lemma {:induction false} UnderChild(m: Tables, u: nat, c: nat, t: nat, i: nat)
    requires TablesOk(m) && u in m.lvl && c in m.lvl && t in m.lvl && i < 512 && c in m.par && m.par[c] == (t, i)
    ensures Under(m, u, c) <==> u != t && Under(m, u, t) && Via(m, u, t) == i
    decreases 2 - m.lvl[u]
  {
    hide TablesOk;
    ParentOf(m, u);
    ChildLevel(m, c);
    NotUnderChild(m, t, c);
    if u == c {
      assert Under(m, t, t) && Under(m, c, t);
    } else if m.lvl[u] == 2 {
      assert !Under(m, u, c);
    } else if u == t {
      assert !Under(m, u, c);
    } else if m.par[u].0 == t {
      assert Under(m, t, t) && Under(m, u, t) && Via(m, u, t) == m.par[u].1;
      if m.par[u].1 == i {
        SameEntry(m, u, c);
      }
      assert Under(m, u, c) <==> Under(m, t, c);
    } else {
      var p := m.par[u].0;
      UnderChild(m, p, c, t, i);
      assert Under(m, u, c) <==> Under(m, p, c);
      assert Under(m, u, t) <==> Under(m, p, t);
    }
  }

  lemma ChildLevel(m: Tables, c: nat)
    requires TablesOk(m) && c in m.par
    ensures c in m.lvl && m.par[c].0 in m.lvl && m.lvl[c] < 2 && m.lvl[m.par[c].0] == m.lvl[c] + 1 && c != m.par[c].0
  {
  }

  lemma NotUnderChild(m: Tables, t: nat, c: nat)
    requires TablesOk(m) && t in m.lvl && c in m.lvl && m.lvl[c] < m.lvl[t]
    ensures !Under(m, t, c)
  {
    if Under(m, t, c) {
      UnderLevel(m, t, c);
    }
  }

  /** The tables under t that are reached through its first i entries. */
  ghost function Reached(m: Tables, t: nat, i: nat): set<nat>
    requires TablesOk(m)
  {
    set u | u in m.lvl && Under(m, u, t) && u != t && Via(m, u, t) < i
  }

  lemma ReachedNext(m: Tables, t: nat, i: nat)
    requires TablesOk(m) && t in m.lvl && t in m.mem && i < 512
    ensures if m.lvl[t] > 0 && IsValid(m.mem[t][i]) then
              var c := Frame(m.mem[t][i]);
              && Leads(m, t, i) && Reached(m, t, i + 1) == Reached(m, t, i) + Subtree(m, c)
              && Reached(m, t, i) !! Subtree(m, c) && t !in Subtree(m, c)
            else Reached(m, t, i + 1) == Reached(m, t, i)
  {
    hide TablesOk;
    TreeEntry(m, t, i);
    if m.lvl[t] > 0 && IsValid(m.mem[t][i]) {
      var c := Frame(m.mem[t][i]);
      forall u | u in m.lvl ensures Under(m, u, c) <==> u != t && Under(m, u, t) && Via(m, u, t) == i {
        UnderChild(m, u, c, t, i);
      }
      hide Under;
      hide Via;
    } else {
      forall u | u in m.lvl && Under(m, u, t) && u != t ensures Via(m, u, t) != i {
        ViaInTable(m, u, t);
      }
      hide Under;
      hide Via;
    }
  }

  lemma TreeEntry(m: Tables, t: nat, i: nat)
    requires TablesOk(m) && t in m.lvl && t in m.mem && i < 512
    ensures m.lvl[t] > 0 && IsValid(m.mem[t][i]) ==> Leads(m, t, i)
  {
  }

  lemma ReachedAll(m: Tables, t: nat)
    requires TablesOk(m) && t in m.lvl
    ensures Subtree(m, t) == Reached(m, t, 512) + {t} && t !in Reached(m, t, 512) && Reached(m, t, 0) == {}
  {
    hide TablesOk;
    forall u | u in m.lvl && Under(m, u, t) && u != t ensures Via(m, u, t) < 512 {
      ViaInTable(m, u, t);
    }
  }

  /** No page is mapped through the tables under t. */
  ghost predicate AllClear(m: Tables, t: nat)
    requires TablesOk(m)
  {
    forall u, i :: u in m.lvl && Under(m, u, t) && m.lvl[u] == 0 && 0 <= i < 512 && u in m.mem ==> !IsValid(m.mem[u][i])
  }

  /** An empty flat map leaves no entry in any table under the root. */
  lemma EmptyMapClear(m: Tables, root: nat)
    requires TablesOk(m) && IsRoot(m, root)
    requires forall v :: 0 <= v < NPAGES ==> !IsValid(Leaf(m, root, v))
    ensures AllClear(m, root)
  {
    forall u, i | u in m.lvl && Under(m, u, root) && m.lvl[u] == 0 && 0 <= i < 512 && u in m.mem
      ensures !IsValid(m.mem[u][i])
    {
      var v := WayTo(m, root, u, i);
      assert !IsValid(Leaf(m, root, v));
    }
  }

  lemma WayTo(m: Tables, root: nat, u: nat, i: nat) returns (v: nat)
    requires TablesOk(m) && IsRoot(m, root) && u in m.lvl && Under(m, u, root) && m.lvl[u] == 0 && i < 512
    ensures v < NPAGES && TableAt(m, root, v, 0) == Some(u) && Index(0, v) == i
  {
    var (t, i1) := m.par[u];
    var (r, i2) := m.par[t];
    assert Under(m, t, root) && Under(m, r, root);
    UnderLevel(m, r, root);
    v := i2 * 0x4_0000 + i1 * 512 + i;
    IndexOf(i2, i1, i);
    EntryParts(u, PTE_V);
    EntryParts(t, PTE_V);
    hide Index;
    NextWay(m, root, v, 2, root);
    NextWay(m, root, v, 1, t);
  }

  lemma IndexOf(i2: nat, i1: nat, i: nat)
    requires i2 < 512 && i1 < 512 && i < 512
    ensures var v := i2 * 0x4_0000 + i1 * 512 + i;
            v < NPAGES && Index(0, v) == i && Index(1, v) == i1 && Index(2, v) == i2
  {
    var v := i2 * 0x4_0000 + i1 * 512 + i;
    assert v / 512 == i2 * 512 + i1;
    assert v / 0x4_0000 == i2;
  }

  // ----- taking a page table out of use

  function Detached(m: Tables, gone: set<nat>): Tables {
    m.(lvl := m.lvl - gone, par := m.par - gone)
  }

  lemma DetachedOk(m: Tables, root: nat)
    requires TablesOk(m) && IsRoot(m, root)
    ensures TablesOk(Detached(m, Subtree(m, root)))
  {
    var gone := Subtree(m, root);
    var n := Detached(m, gone);
    forall t, i | t in n.lvl && n.lvl[t] > 0 && 0 <= i < 512 && IsValid(n.mem[t][i]) ensures Leads(n, t, i) {
      assert Leads(m, t, i);
    }
  }

  lemma {:induction false} DetachedWay(m: Tables, root: nat, r: nat, v: nat, l: nat)
    requires TablesOk(m) && IsRoot(m, root) && IsRoot(m, r) && r != root && l <= 2
    ensures TablesOk(Detached(m, Subtree(m, root))) && IsRoot(Detached(m, Subtree(m, root)), r)
    ensures TableAt(Detached(m, Subtree(m, root)), r, v, l) == TableAt(m, r, v, l)
    ensures TableAt(m, r, v, l).Some? ==> TableAt(m, r, v, l).value !in Subtree(m, root)
    decreases 2 - l
  {
    hide Index;
    DetachedOk(m, root);
    if l < 2 {
      DetachedWay(m, root, r, v, l + 1);
      var up := TableAt(m, r, v, l + 1);
      if up.Some? && IsValid(m.mem[up.value][Index(l + 1, v)]) {
        assert Leads(m, up.value, Index(l + 1, v));
      }
    }
  }

  /** The tables under root are tables no more, but pages in the kernel's hands. */
  ghost function RootDropped(s: Ram, root: nat): Ram
    requires TablesOk(s.t)
  {
    var gone := Subtree(s.t, root);
    s.(t := Detached(s.t, gone), use := map f | f in s.use :: if f in gone then Kernel else s.use[f])
  }

  lemma RootDroppedGood(lo: nat, hi: nat, s: Ram, root: nat)
    requires Good(lo, hi, s) && IsRoot(s.t, root) && AllClear(s.t, root)
    ensures Good(lo, hi, RootDropped(s, root))
  {
    hide Link;
    hide Under;
    DetachedOk(s.t, root);
    var gone := Subtree(s.t, root);
    var n := RootDropped(s, root);
    forall f | f in s.use && s.use[f].Mapped? ensures s.use[f].t !in gone {
      assert HeldBy(s.t, f, s.use[f].t, s.use[f].i);
    }
    hide TablesOk;
    hide AllClear;
    hide Subtree;
    DroppedList(s, root);
    hide ListOk;
  }

  lemma DroppedList(s: Ram, root: nat)
    requires TablesOk(s.t) && ListOk(s.t.mem, s.freelist, s.stack, s.use)
    requires forall f :: f in s.t.lvl ==> f in s.use && s.use[f].Table?
    ensures var n := RootDropped(s, root); ListOk(n.t.mem, n.freelist, n.stack, n.use)
  {
    hide TablesOk;
    hide Under;
    ListKept(s, RootDropped(s, root));
  }

  lemma DroppedMaps(s: Ram, root: nat)
    requires TablesOk(s.t) && IsRoot(s.t, root)
    ensures TablesOk(RootDropped(s, root).t) && OthersKept(s.t, RootDropped(s, root).t, root)
  {
    hide TablesOk;
    DetachedOk(s.t, root);
    var n := RootDropped(s, root);
    forall r | IsRoot(s.t, r) && r != root
      ensures IsRoot(n.t, r) && forall v :: 0 <= v < NPAGES ==> Leaf(n.t, r, v) == Leaf(s.t, r, v)
    {
      forall v: nat | v < NPAGES ensures Leaf(n.t, r, v) == Leaf(s.t, r, v) {
        DetachedWay(s.t, root, r, v, 0);
      }
      DetachedWay(s.t, root, r, 0, 0);
    }
  }

  /** The roots of m other than root are roots of n with the same flat maps, and root is none. */
  ghost predicate OthersKept(m: Tables, n: Tables, root: nat)
    requires TablesOk(m) && TablesOk(n)
  {
    forall r :: IsRoot(m, r) && r != root ==> IsRoot(n, r) && forall v :: 0 <= v < NPAGES ==> Leaf(n, r, v) == Leaf(m, r, v)
  }

  // ----- freewalk

  /** From s to n just the pages in gone became free; the page at scratch may have been written. */
  ghost predicate Reclaimed(s: Ram, n: Ram, gone: set<nat>, scratch: nat) {
    && n.use.Keys == s.use.Keys && Kept(s, n, gone + {scratch})
    && forall f :: f in s.use ==> if f in gone then n.use[f].Free? else n.use[f] == s.use[f]
  }

  lemma ReclaimedMore(s: Ram, n: Ram, p: Ram, gone: set<nat>, scratch: nat, more: set<nat>)
    requires Reclaimed(s, n, gone, scratch) && Released(n, p, more)
    ensures Reclaimed(s, p, gone + more, scratch)
  {
  }

  lemma ReclaimedWrite(s: Ram, n: Ram, gone: set<nat>, scratch: nat, p: Page)
    requires Reclaimed(s, n, gone, scratch) && forall f :: f in n.use ==> f in n.t.mem
    ensures Reclaimed(s, KernelWritten(n, scratch, p), gone, scratch)
  {
  }

  lemma ReclaimedEnd(s: Ram, n: Ram, p: Ram, gone: set<nat>, scratch: nat)
    requires Reclaimed(s, n, gone, scratch) && Released(n, p, {scratch})
    ensures Released(s, p, gone + {scratch})
  {
  }

  /** In s the tables of m under t are just pages of the kernel, with their entries untouched. */
  ghost predicate Loose(m: Tables, t: nat, s: Ram)
    requires TablesOk(m)
  {
    forall u :: u in Subtree(m, t) ==>
      u in s.use && s.use[u].Kernel? && u in s.t.mem && u in m.mem && s.t.mem[u] == m.mem[u]
  }

  lemma LooseChild(m: Tables, t: nat, i: nat, s: Ram, n: Ram, c: nat)
    requires TablesOk(m) && t in m.lvl && t in m.mem && i < 512 && m.lvl[t] > 0 && IsValid(m.mem[t][i])
    requires c == Frame(m.mem[t][i]) && Loose(m, t, s) && Reclaimed(s, n, Reached(m, t, i), t)
    requires AllClear(m, t)
    ensures Loose(m, c, n) && AllClear(m, c) && c in m.lvl && m.lvl[c] < m.lvl[t] && t !in Subtree(m, c)
    ensures Reached(m, t, i + 1) == Reached(m, t, i) + Subtree(m, c) && Reached(m, t, i) !! Subtree(m, c)
  {
    hide TablesOk;
    hide Via;
    ReachedNext(m, t, i);
    ReachedAll(m, t);
    forall u | u in m.lvl && Under(m, u, c) ensures Under(m, u, t) {
      UnderChild(m, u, c, t, i);
    }
    hide Under;
  }

  lemma FreewalkStart(lo: nat, hi: nat, s: Ram, m: Tables, t: nat)
    requires Good(lo, hi, s) && TablesOk(m) && t in m.lvl && Loose(m, t, s)
    ensures SameBut(s.t, s.t, 0, 0, 0) && Reclaimed(s, s, Reached(m, t, 0), t)
    ensures t in s.use && s.use[t].Kernel? && t in s.t.mem && t in m.mem && s.t.mem[t] == m.mem[t]
    ensures |Reached(m, t, 0)| == 0
  {
    hide TablesOk;
    hide Under;
    hide Via;
    StillAll(lo, hi, s);
    ReachedAll(m, t);
    assert t in Subtree(m, t);
  }

  lemma NoRights(c: nat)
    ensures Entry(c, PTE_V) / 2 % 8 == 0
  {
    assert Entry(c, PTE_V) == 2 * (8 * (64 * c)) + 1;
    assert Entry(c, PTE_V) / 2 == 8 * (64 * c);
    EightsAside(64 * c, 0);
  }

  /** An entry of a table that is valid when no leaf is left leads to a table, and has no rights bits. */
  lemma FreewalkEntry(m: Tables, t: nat, i: nat)
    requires TablesOk(m) && t in m.lvl && t in m.mem && i < 512 && IsValid(m.mem[t][i]) && AllClear(m, t)
    ensures m.lvl[t] > 0 && m.mem[t][i] / 2 % 8 == 0
  {
    hide TablesOk;
    assert Under(m, t, t);
    TreeEntry(m, t, i);
    hide Under;
    if m.lvl[t] > 0 {
      NoRights(Frame(m.mem[t][i]));
    }
  }

  lemma TableStays(s: Ram, n: Ram, gone: set<nat>, t: nat)
    requires Released(s, n, gone) && t !in gone && t in s.use && s.use[t].Kernel?
    ensures t in n.use && n.use[t].Kernel? && t in n.t.mem && t in s.t.mem && n.t.mem[t] == s.t.mem[t]
  {
  }

  lemma MemoryOf(lo: nat, hi: nat, s: Ram)
    requires Good(lo, hi, s)
    ensures forall f :: f in s.use ==> f in s.t.mem
  {
    hide TablesOk;
    hide ListOk;
  }

  // ----- uvmfree

  lemma DroppedParts(s: Ram, root: nat)
    requires TablesOk(s.t)
    ensures var d := RootDropped(s, root); d.t.mem == s.t.mem && d.freelist == s.freelist && d.stack == s.stack && d.t == Detached(s.t, Subtree(s.t, root))
  {
  }

  lemma DroppedLoose(lo: nat, hi: nat, s: Ram, root: nat)
    requires Good(lo, hi, s) && IsRoot(s.t, root)
    ensures Loose(s.t, root, RootDropped(s, root))
  {
    hide ListOk;
    hide Under;
    hide TablesOk;
    MemoryOf(lo, hi, s);
  }

  lemma UvmfreeMaps(m: Tables, n: Tables, d: Tables, p: Tables, root: nat, count: nat)
    requires TablesOk(m) && TablesOk(n) && TablesOk(d) && TablesOk(p) && IsRoot(m, root) && IsRoot(n, root)
    requires SameBut(m, n, root, 0, count) && OthersKept(n, d, root) && SameBut(d, p, 0, 0, 0)
    requires d == Detached(n, Subtree(n, root))
    ensures OthersKept(m, p, root) && !IsRoot(p, root)
  {
    hide TablesOk;
    hide TableAt;
    hide Leaf;
    assert root in Subtree(n, root);
  }

  /** Freeing the pages, dropping the root and freeing its tables add up. */
  lemma UvmfreeUse(lo: nat, hi: nat, s: Ram, n: Ram, p: Ram, root: nat, pages: set<nat>)
    requires Good(lo, hi, n) && IsRoot(n.t, root)
    requires Released(s, n, pages) && Released(RootDropped(n, root), p, Subtree(n.t, root))
    ensures Released(s, p, pages + Subtree(n.t, root))
  {
    hide TablesOk;
    hide ListOk;
    hide Under;
    var d := RootDropped(n, root);
    assert forall f :: f in n.use && f !in Subtree(n.t, root) ==> f in d.use && d.use[f] == n.use[f];
  }

  lemma {:induction false} SameUnder(m: Tables, n: Tables, u: nat, t: nat)
    requires TablesOk(m) && TablesOk(n) && n.lvl == m.lvl && n.par == m.par && u in m.lvl
    ensures Under(m, u, t) == Under(n, u, t)
    decreases 2 - m.lvl[u]
  {
    if u != t && m.lvl[u] < 2 {
      SameUnder(m, n, m.par[u].0, t);
    }
  }

  lemma SameSubtree(m: Tables, n: Tables, t: nat)
    requires TablesOk(m) && TablesOk(n) && n.lvl == m.lvl && n.par == m.par
    ensures Subtree(m, t) == Subtree(n, t)
  {
    hide TablesOk;
    forall u | u in m.lvl ensures Under(m, u, t) == Under(n, u, t) {
      SameUnder(m, n, u, t);
    }
    hide Under;
  }
}
