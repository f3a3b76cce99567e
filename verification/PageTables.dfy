/** Sv39 page tables in physical memory, and the flat map from pages to entries that they stand for. */
module PageTables {
  import opened Basics

  const PGSIZE := 4096
  /** The pages that three levels of nine index bits can name, and MAXVA / PGSIZE, one bit less. */
  const NPAGES := 0x800_0000
  const MAXPAGE := 0x400_0000

  const PTE_V := 1
  const PTE_R := 2
  const PTE_W := 4
  const PTE_X := 8
  const PTE_U := 16

  /** A physical page as 512 words. */
  type Page = p: seq<nat> | |p| == 512 witness seq(512, _ => 0)

  function Filled(word: nat): Page { seq(512, _ => word) }

  // ----- entries: a frame number above ten flag bits, V the lowest

  predicate IsValid(pte: nat) { pte % 2 == 1 }

  /** PTE2PA, in pages. */
  function Frame(pte: nat): nat { pte / 1024 }

  function Flags(pte: nat): nat { pte % 1024 }

  /** PA2PTE(pa) | perm | PTE_V, for the page at frame. */
  function Entry(frame: nat, perm: nat): nat
    requires perm < 1024
  {
    frame * 1024 + (if perm % 2 == 1 then perm else perm + 1)
  }

  lemma EntryParts(frame: nat, perm: nat)
    requires perm < 1024
    ensures IsValid(Entry(frame, perm)) && Frame(Entry(frame, perm)) == frame
    ensures Flags(Entry(frame, perm)) == if perm % 2 == 1 then perm else perm + 1
  {
  }

  lemma EntryV(frame: nat)
    ensures Entry(frame, 0) == Entry(frame, PTE_V)
  {
  }

  /** PX(level, va) for va in page vpn. */
  function Index(level: nat, vpn: nat): (i: nat)
    requires level <= 2
    ensures i < 512
  {
    if level == 0 then vpn % 512 else if level == 1 then vpn / 512 % 512 else vpn / 0x4_0000 % 512
  }

  // ----- tables

  /** Memory, and the page tables in it: the level of each, and the entry that leads to each below the top. */
  datatype Tables = Tables(mem: map<nat, Page>, lvl: map<nat, nat>, par: map<nat, (nat, nat)>)

  /** Entries above level 0 lead to tables one level down, and each table has one entry leading to it. */
  ghost predicate TablesOk(m: Tables) {
    && (forall t :: t in m.lvl ==> t in m.mem && m.lvl[t] <= 2)
    && (forall t, i :: t in m.lvl && m.lvl[t] > 0 && 0 <= i < 512 && IsValid(m.mem[t][i]) ==> Leads(m, t, i))
    && (forall c :: c in m.lvl && m.lvl[c] < 2 ==> c in m.par)
    && (forall c :: c in m.par ==>
          && c in m.lvl && m.par[c].0 in m.lvl && m.par[c].1 < 512 && m.lvl[m.par[c].0] == m.lvl[c] + 1
          && m.mem[m.par[c].0][m.par[c].1] == Entry(c, PTE_V))
  }

  ghost predicate Leads(m: Tables, t: nat, i: nat)
    requires t in m.mem && t in m.lvl && i < 512
  {
    var c := Frame(m.mem[t][i]);
    m.mem[t][i] == Entry(c, PTE_V) && c in m.lvl && m.lvl[c] + 1 == m.lvl[t] && c in m.par && m.par[c] == (t, i)
  }

  /** The table at level l on the way to page vpn. */
  ghost function TableAt(m: Tables, root: nat, vpn: nat, l: nat): (r: Option<nat>)
    requires TablesOk(m) && root in m.lvl && m.lvl[root] == 2 && l <= 2
    ensures r.Some? ==> r.value in m.lvl && m.lvl[r.value] == l
    decreases 2 - l
  {
    if l == 2 then Some(root)
    else
      var up := TableAt(m, root, vpn, l + 1);
      if up.None? || !IsValid(m.mem[up.value][Index(l + 1, vpn)]) then None
      else assert Leads(m, up.value, Index(l + 1, vpn)); Some(Frame(m.mem[up.value][Index(l + 1, vpn)]))
  }

  /** The flat map: the entry of page vpn, 0 if there is none. */
  ghost function Leaf(m: Tables, root: nat, vpn: nat): nat
    requires TablesOk(m) && root in m.lvl && m.lvl[root] == 2
  {
    var t := TableAt(m, root, vpn, 0);
    if t.None? then 0 else m.mem[t.value][Index(0, vpn)]
  }

  ghost predicate IsRoot(m: Tables, root: nat) { root in m.lvl && m.lvl[root] == 2 }

  /** One level of the walk. */
  lemma OneLevel(m: Tables, root: nat, vpn: nat, l: nat)
    requires TablesOk(m) && IsRoot(m, root) && 0 < l <= 2 && TableAt(m, root, vpn, l).Some?
    ensures var t := TableAt(m, root, vpn, l).value;
            var e := m.mem[t][Index(l, vpn)];
            TableAt(m, root, vpn, l - 1) == (if e % 2 == 0 then None else Some(e / 1024)) && (e % 2 == 1 ==> e / 1024 in m.mem)
  {
    var t := TableAt(m, root, vpn, l).value;
    if IsValid(m.mem[t][Index(l, vpn)]) {
      assert Leads(m, t, Index(l, vpn));
    }
    hide Index;
  }

  /** The flat map is the walk of the hardware: nine bits of the page number at each of three levels, the highest first. */
  lemma LeafWalks(m: Tables, root: nat, vpn: nat)
    requires TablesOk(m) && IsRoot(m, root) && vpn < NPAGES
    ensures root in m.mem
    ensures var e2 := m.mem[root][vpn / 0x4_0000];
            if e2 % 2 == 0 then Leaf(m, root, vpn) == 0
            else (
              && e2 / 1024 in m.mem
              && var e1 := m.mem[e2 / 1024][vpn / 512 % 512];
                 if e1 % 2 == 0 then Leaf(m, root, vpn) == 0
                 else e1 / 1024 in m.mem && Leaf(m, root, vpn) == m.mem[e1 / 1024][vpn % 512])
  {
    assert TableAt(m, root, vpn, 2) == Some(root);
    OneLevel(m, root, vpn, 2);
    hide TablesOk;
    if TableAt(m, root, vpn, 1).Some? {
      OneLevel(m, root, vpn, 1);
    } else {
      assert TableAt(m, root, vpn, 0).None?;
    }
    hide TableAt;
    assert Index(2, vpn) == vpn / 0x4_0000;
  }

  lemma Rebuilt(v: nat)
    requires v < NPAGES
    ensures v == Index(0, v) + 512 * Index(1, v) + 0x4_0000 * Index(2, v)
  {
    assert v / 512 / 512 == v / 0x4_0000 && v / 0x4_0000 < 512;
  }

  lemma IndicesOf(v: nat, w: nat)
    requires v < NPAGES && w < NPAGES
    requires Index(0, v) == Index(0, w) && Index(1, v) == Index(1, w) && Index(2, v) == Index(2, w)
    ensures v == w
  {
    hide Index;
    Rebuilt(v);
    Rebuilt(w);
  }

  /** A table is on the way to one set of pages of one root. */
  lemma {:induction false} SameWay(m: Tables, r: nat, v: nat, q: nat, w: nat, l: nat)
    requires TablesOk(m) && IsRoot(m, r) && IsRoot(m, q) && l <= 2
    requires TableAt(m, r, v, l).Some? && TableAt(m, r, v, l) == TableAt(m, q, w, l)
    ensures r == q && forall k :: l < k <= 2 ==> Index(k, v) == Index(k, w)
    decreases 2 - l
  {
    hide Index;
    if l < 2 {
      var t, u := TableAt(m, r, v, l + 1).value, TableAt(m, q, w, l + 1).value;
      assert Leads(m, t, Index(l + 1, v)) && Leads(m, u, Index(l + 1, w));
      SameWay(m, r, v, q, w, l + 1);
    }
  }

  /** Different pages have different entries. */
  lemma SlotOfOne(m: Tables, r: nat, v: nat, q: nat, w: nat)
    requires TablesOk(m) && IsRoot(m, r) && IsRoot(m, q) && v < NPAGES && w < NPAGES
    requires TableAt(m, r, v, 0).Some? && TableAt(m, r, v, 0) == TableAt(m, q, w, 0) && Index(0, v) == Index(0, w)
    ensures r == q && v == w
  {
    SameWay(m, r, v, q, w, 0);
    IndicesOf(v, w);
  }

  // ----- changes

  /** The tables with word w stored in entry i of frame t. */
  function Put(m: Tables, t: nat, i: nat, w: nat): Tables
    requires t in m.mem && i < 512
  {
    m.(mem := m.mem[t := m.mem[t][i := w]])
  }

  lemma {:induction false} PutKeepsWay(m: Tables, t: nat, i: nat, w: nat, r: nat, v: nat, l: nat)
    requires TablesOk(m) && t in m.lvl && m.lvl[t] == 0 && i < 512 && IsRoot(m, r) && l <= 2
    ensures TablesOk(Put(m, t, i, w)) && TableAt(Put(m, t, i, w), r, v, l) == TableAt(m, r, v, l)
    decreases 2 - l
  {
    hide Index;
    PutKeepsTables(m, t, i, w);
    if l < 2 {
      PutKeepsWay(m, t, i, w, r, v, l + 1);
    }
  }

  lemma PutKeepsTables(m: Tables, t: nat, i: nat, w: nat)
    requires TablesOk(m) && t in m.lvl && m.lvl[t] == 0 && i < 512
    ensures TablesOk(Put(m, t, i, w))
  {
    var n := Put(m, t, i, w);
    forall u, k | u in n.lvl && n.lvl[u] > 0 && 0 <= k < 512 && IsValid(n.mem[u][k]) ensures Leads(n, u, k) {
      assert Leads(m, u, k);
    }
  }

  /** Storing into a level-0 table changes the flat map at one page. */
  lemma PutLeaf(m: Tables, root: nat, vpn: nat, w: nat, r: nat, v: nat)
    requires TablesOk(m) && IsRoot(m, root) && IsRoot(m, r) && vpn < NPAGES && v < NPAGES
    requires TableAt(m, root, vpn, 0).Some?
    ensures var n := Put(m, TableAt(m, root, vpn, 0).value, Index(0, vpn), w);
            TablesOk(n) && Leaf(n, r, v) == if r == root && v == vpn then w else Leaf(m, r, v)
  {
    hide Index;
    var t := TableAt(m, root, vpn, 0).value;
    PutKeepsWay(m, t, Index(0, vpn), w, r, v, 0);
    if TableAt(m, r, v, 0) == Some(t) && Index(0, v) == Index(0, vpn) {
      SlotOfOne(m, root, vpn, r, v);
    }
  }

  /** The tables with the fresh page c as the table that entry i of t leads to. */
  ghost function Grown(m: Tables, t: nat, i: nat, c: nat): Tables
    requires t in m.mem && t in m.lvl && m.lvl[t] > 0 && i < 512
  {
    Tables(m.mem[c := Filled(0)][t := m.mem[t][i := Entry(c, PTE_V)]], m.lvl[c := m.lvl[t] - 1], m.par[c := (t, i)])
  }

  ghost predicate CanGrow(m: Tables, t: nat, i: nat, c: nat) {
    && TablesOk(m) && t in m.lvl && m.lvl[t] > 0 && i < 512 && !IsValid(m.mem[t][i])
    && c in m.mem && c !in m.lvl
  }

  lemma GrownEntry(m: Tables, t: nat, i: nat, c: nat, u: nat, k: nat)
    requires CanGrow(m, t, i, c) && k < 512 && u in m.lvl
    ensures u in m.mem && u in Grown(m, t, i, c).mem && u != c && Entry(c, PTE_V) == c * 1024 + 1
    ensures Grown(m, t, i, c).mem[u][k] == if u == t && k == i then Entry(c, PTE_V) else m.mem[u][k]
    ensures c in Grown(m, t, i, c).mem && Grown(m, t, i, c).mem[c] == Filled(0)
  {
  }

  lemma GrownOk(m: Tables, t: nat, i: nat, c: nat)
    requires CanGrow(m, t, i, c)
    ensures TablesOk(Grown(m, t, i, c))
  {
    var n := Grown(m, t, i, c);
    EntryParts(c, PTE_V);
    forall u, k | u in n.lvl && n.lvl[u] > 0 && 0 <= k < 512 && IsValid(n.mem[u][k]) ensures Leads(n, u, k) {
      if u != c {
        GrownEntry(m, t, i, c, u, k);
        if u != t || k != i {
          assert Leads(m, u, k);
        }
      }
    }
    forall d | d in n.par
      ensures d in n.lvl && n.par[d].0 in n.lvl && n.par[d].1 < 512 && n.lvl[n.par[d].0] == n.lvl[d] + 1
      ensures n.mem[n.par[d].0][n.par[d].1] == Entry(d, PTE_V)
    {
      EntryParts(d, PTE_V);
      if d != c {
        GrownEntry(m, t, i, c, m.par[d].0, m.par[d].1);
      }
    }
  }

  /** A step of the way to a page. */
  lemma WayStep(m: Tables, r: nat, v: nat, l: nat)
    requires TablesOk(m) && IsRoot(m, r) && l < 2
    ensures var up := TableAt(m, r, v, l + 1);
            && (up.Some? ==> up.value in m.mem && up.value in m.lvl && m.lvl[up.value] == l + 1)
            && TableAt(m, r, v, l) ==
               if up.None? || !IsValid(m.mem[up.value][Index(l + 1, v)]) then None
               else Some(Frame(m.mem[up.value][Index(l + 1, v)]))
  {
  }

  lemma {:induction false} GrownWay(m: Tables, t: nat, i: nat, c: nat, r: nat, v: nat, l: nat)
    requires CanGrow(m, t, i, c) && IsRoot(m, r) && l <= 2
    ensures TablesOk(Grown(m, t, i, c)) && IsRoot(Grown(m, t, i, c), r)
    ensures TableAt(m, r, v, l).Some? ==> TableAt(Grown(m, t, i, c), r, v, l) == TableAt(m, r, v, l)
    ensures TableAt(m, r, v, l).None? && TableAt(Grown(m, t, i, c), r, v, l).Some? ==>
              TableAt(Grown(m, t, i, c), r, v, l) == Some(c)
    ensures TableAt(Grown(m, t, i, c), r, v, l) == Some(c) ==> l == m.lvl[t] - 1
    decreases 2 - l
  {
    GrownOk(m, t, i, c);
    EntryParts(c, PTE_V);
    assert !IsValid(0);
    hide Index;
    hide TablesOk;
    hide IsValid;
    hide Frame;
    hide Entry;
    if l < 2 {
      GrownWay(m, t, i, c, r, v, l + 1);
      WayStep(m, r, v, l);
      WayStep(Grown(m, t, i, c), r, v, l);
      hide TableAt;
      var up := TableAt(m, r, v, l + 1);
      GrownEntry(m, t, i, c, if up.Some? then up.value else t, Index(l + 1, v));
      hide Grown;
    }
  }

  /** A new, empty table changes no entry of the flat map. */
  lemma GrownLeaf(m: Tables, t: nat, i: nat, c: nat, r: nat, v: nat)
    requires CanGrow(m, t, i, c) && IsRoot(m, r)
    ensures TablesOk(Grown(m, t, i, c)) && IsRoot(Grown(m, t, i, c), r)
    ensures Leaf(Grown(m, t, i, c), r, v) == Leaf(m, r, v)
  {
    hide Index;
    GrownWay(m, t, i, c, r, v, 0);
  }

  /** Pages that are no tables may change without changing the tables. */
  lemma {:induction false} SameTables(m: Tables, mem: map<nat, Page>, r: nat, v: nat, l: nat)
    requires TablesOk(m) && IsRoot(m, r) && l <= 2
    requires forall t :: t in m.lvl ==> t in mem && mem[t] == m.mem[t]
    ensures TablesOk(m.(mem := mem))
    ensures TableAt(m.(mem := mem), r, v, l) == TableAt(m, r, v, l)
    ensures Leaf(m.(mem := mem), r, v) == Leaf(m, r, v)
    decreases 2 - l
  {
    SameTablesOk(m, mem);
    if l < 2 {
      SameTables(m, mem, r, v, l + 1);
    }
    if l > 0 {
      SameTablesLeaf(m, mem, r, v);
    }
  }

  lemma SameTablesOk(m: Tables, mem: map<nat, Page>)
    requires TablesOk(m)
    requires forall t :: t in m.lvl ==> t in mem && mem[t] == m.mem[t]
    ensures TablesOk(m.(mem := mem))
  {
    var n := m.(mem := mem);
    forall u, k | u in n.lvl && n.lvl[u] > 0 && 0 <= k < 512 && IsValid(n.mem[u][k]) ensures Leads(n, u, k) {
      assert Leads(m, u, k);
    }
  }

  lemma SameTablesLeaf(m: Tables, mem: map<nat, Page>, r: nat, v: nat)
    requires TablesOk(m) && IsRoot(m, r)
    requires forall t :: t in m.lvl ==> t in mem && mem[t] == m.mem[t]
    ensures TablesOk(m.(mem := mem)) && Leaf(m.(mem := mem), r, v) == Leaf(m, r, v)
  {
    SameTablesOk(m, mem);
    hide Index;
    var n := m.(mem := mem);
    assert TableAt(n, r, v, 2) == TableAt(m, r, v, 2);
    assert TableAt(n, r, v, 1) == TableAt(m, r, v, 1);
    assert TableAt(n, r, v, 0) == TableAt(m, r, v, 0);
  }
}
