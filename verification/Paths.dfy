/** fs.c: names of files. What a path means, and how references to inodes are counted while it is looked up. */
module Paths {
  import opened Basics

  const DIRSIZ := 14
  const NINODE := 50
  const T_DIR := 1

  /** A directory entry: inum 0 if free; name has DIRSIZ characters, the rest after a NUL being junk. */
  datatype Dirent = Dirent(inum: nat, name: seq<char>)

  /** The inodes on the disk: their types, links, and for directories the entries. */
  datatype Disk = Disk(root: nat, kind: map<nat, nat>, links: map<nat, nat>, dirs: map<nat, seq<Dirent>>)

  /** Entries lead to allocated inodes that have links; so does the root. */
  ghost predicate Sane(d: Disk) {
    && Allocated(d, d.root)
    && (forall i :: i in d.kind && d.kind[i] == T_DIR ==> i in d.dirs)
    && (forall i, k :: i in d.dirs && 0 <= k < |d.dirs[i]| ==>
          |d.dirs[i][k].name| == DIRSIZ && (d.dirs[i][k].inum != 0 ==> Allocated(d, d.dirs[i][k].inum)))
  }

  predicate Allocated(d: Disk, i: nat) {
    i in d.kind && d.kind[i] != 0 && i in d.links && d.links[i] > 0
  }

  predicate IsDir(d: Disk, i: nat) { i in d.kind && d.kind[i] == T_DIR && i in d.dirs }

  // ----- what a path means

  /** The name in a buffer of DIRSIZ characters: up to the NUL, or all of it. */
  function Name(raw: seq<char>): string {
    if raw == [] || raw[0] == '\0' then "" else [raw[0]] + Name(raw[1..])
  }

  /** The number of characters before the next slash. */
  function ElemLength(path: string): (n: nat)
    ensures n <= |path| && (n < |path| ==> path[n] == '/') && forall k :: 0 <= k < n ==> path[k] != '/'
  {
    if path == "" || path[0] == '/' then 0 else 1 + ElemLength(path[1..])
  }

  function Cut(elem: string): string { if |elem| > DIRSIZ then elem[..DIRSIZ] else elem }

  /** The parts of a path between slashes that are not empty, cut to DIRSIZ characters. */
  function Elements(path: string): seq<string>
    decreases |path|
  {
    if path == "" then []
    else if path[0] == '/' then Elements(path[1..])
    else [Cut(path[..ElemLength(path)])] + Elements(path[ElemLength(path)..])
  }

  /** The inode that the first entry with this name leads to. */
  function Entry(es: seq<Dirent>, name: string): Option<nat> {
    if es == [] then None
    else if es[0].inum != 0 && Name(es[0].name) == name then Some(es[0].inum)
    else Entry(es[1..], name)
  }

  function Lookup(d: Disk, dir: nat, name: string): Option<nat> {
    if IsDir(d, dir) then Entry(d.dirs[dir], name) else None
  }

  /** Looking up one name after the other. */
  function Resolve(d: Disk, start: nat, names: seq<string>): Option<nat>
    decreases |names|
  {
    if names == [] then Some(start)
    else
      match Lookup(d, start, names[0])
      case None => None
      case Some(next) => Resolve(d, next, names[1..])
  }

  /** The directory that holds the last name of a path. */
  function Parent(d: Disk, start: nat, names: seq<string>): Option<nat> {
    if names == [] then None
    else
      match Resolve(d, start, names[..|names| - 1])
      case None => None
      case Some(dir) => if IsDir(d, dir) then Some(dir) else None
  }

  lemma {:induction false} ResolveLast(d: Disk, start: nat, names: seq<string>)
    requires names != []
    ensures Resolve(d, start, names) ==
            match Resolve(d, start, names[..|names| - 1])
            case None => None
            case Some(dir) => Lookup(d, dir, names[|names| - 1])
    decreases |names|
  {
    if |names| == 1 {
      assert names[..0] == [] && names[1..] == [];
    } else {
      match Lookup(d, start, names[0])
      case None =>
        assert names[..|names| - 1][0] == names[0];
      case Some(next) =>
        assert names[1..][..|names| - 2] == names[..|names| - 1][1..];
        ResolveLast(d, next, names[1..]);
    }
  }

  /** In the directory nameiparent returns, the name it returns leads where the path does. */
  lemma ParentAgrees(d: Disk, start: nat, names: seq<string>)
    requires names != []
    ensures Parent(d, start, names).Some? ==>
              Lookup(d, Parent(d, start, names).value, names[|names| - 1]) == Resolve(d, start, names)
    ensures Parent(d, start, names).None? ==> Resolve(d, start, names).None?
  {
    ResolveLast(d, start, names);
  }

  lemma {:induction false} EntryAllocated(d: Disk, es: seq<Dirent>, name: string)
    requires forall k :: 0 <= k < |es| && es[k].inum != 0 ==> Allocated(d, es[k].inum)
    ensures Entry(es, name).Some? ==> Allocated(d, Entry(es, name).value)
    decreases |es|
  {
    if es != [] {
      EntryAllocated(d, es[1..], name);
    }
  }

  /** The parent of a path of several names is that of the rest of them, from where the first leads. */
  lemma ParentStep(d: Disk, start: nat, names: seq<string>)
    requires names != []
    ensures !IsDir(d, start) ==> Parent(d, start, names).None? && Resolve(d, start, names).None?
    ensures |names| == 1 && IsDir(d, start) ==> Parent(d, start, names) == Some(start)
    ensures |names| > 1 ==>
              Parent(d, start, names) == match Lookup(d, start, names[0])
                                         case None => None
                                         case Some(next) => Parent(d, next, names[1..])
  {
    var init := names[..|names| - 1];
    if |names| > 1 {
      assert init[0] == names[0] && init[1..] == names[1..][..|names| - 2];
    } else {
      assert init == [];
    }
  }

  // ----- paths as strings

  lemma {:induction false} SlashesInFront(path: string, p: nat, q: nat)
    requires p <= q <= |path| && forall k :: p <= k < q ==> path[k] == '/'
    ensures Elements(path[p..]) == Elements(path[q..])
    decreases q - p
  {
    if p < q {
      assert path[p..][0] == '/' && path[p..][1..] == path[p + 1..];
      SlashesInFront(path, p + 1, q);
    }
  }

  lemma {:induction false} ElemRun(path: string, n: nat)
    requires n <= |path| && (forall k :: 0 <= k < n ==> path[k] != '/') && (n < |path| ==> path[n] == '/')
    ensures ElemLength(path) == n
    decreases n
  {
    if n > 0 {
      ElemRun(path[1..], n - 1);
    }
  }

  /** The element between two positions. */
  lemma FirstElement(path: string, s: nat, e: nat)
    requires s < e <= |path| && (forall k :: s <= k < e ==> path[k] != '/') && (e < |path| ==> path[e] == '/')
    ensures Elements(path[s..]) == [Cut(path[s..e])] + Elements(path[e..])
  {
    var t := path[s..];
    ElemRun(t, e - s);
    assert t[..e - s] == path[s..e] && t[e - s..] == path[e..];
  }

  /** What Elements is: a slash separates, an empty part does not count, and a part is cut to DIRSIZ. */
  lemma {:induction false} ElementsSplit(a: string, b: string)
    ensures Elements(a + "/" + b) == Elements(a) + Elements(b)
    decreases |a|
  {
    if a == "" {
      assert (a + "/" + b)[1..] == b;
    } else if a[0] == '/' {
      ElementsSplit(a[1..], b);
      assert (a + "/" + b)[1..] == a[1..] + "/" + b;
    } else {
      var n := ElemLength(a);
      ElemRun(a + "/" + b, n);
      assert (a + "/" + b)[..n] == a[..n] && (a + "/" + b)[n..] == a[n..] + "/" + b;
      ElementsSplit(a[n..], b);
    }
  }

  lemma OneElement(e: string)
    requires '/' !in e
    ensures Elements(e) == if e == "" then [] else [if |e| > 14 then e[..14] else e]
  {
    ElemRun(e, |e|);
    assert e[..|e|] == e && e[|e|..] == "";
  }

  /** What Entry is: the inode of the first entry in use that has the name, if any has. */
  lemma {:induction false} EntryFirst(es: seq<Dirent>, name: string)
    ensures Entry(es, name).None? ==> forall k :: 0 <= k < |es| && es[k].inum != 0 ==> Name(es[k].name) != name
    ensures Entry(es, name).Some? ==>
              exists k :: 0 <= k < |es| && es[k].inum == Entry(es, name).value && es[k].inum != 0 && Name(es[k].name) == name
                && forall j :: 0 <= j < k && es[j].inum != 0 ==> Name(es[j].name) != name
    decreases |es|
  {
    hide Name;
    if es != [] && !(es[0].inum != 0 && Name(es[0].name) == name) {
      var rest := es[1..];
      EntryFirst(rest, name);
      if Entry(rest, name).Some? {
        var k :| 0 <= k < |rest| && rest[k].inum == Entry(rest, name).value && rest[k].inum != 0 && Name(rest[k].name) == name
                 && forall j :: 0 <= j < k && rest[j].inum != 0 ==> Name(rest[j].name) != name;
        assert es[k + 1] == rest[k];
        forall j | 0 <= j < k + 1 && es[j].inum != 0 ensures Name(es[j].name) != name {
          if j > 0 {
            assert es[j] == rest[j - 1];
          }
        }
      } else {
        forall k | 0 <= k < |es| && es[k].inum != 0 ensures Name(es[k].name) != name {
          if k > 0 {
            assert es[k] == rest[k - 1];
          }
        }
      }
    }
  }

  // ----- names in buffers

  lemma {:induction false} NameIs(raw: seq<char>, elem: string)
    requires |elem| <= |raw| && raw[..|elem|] == elem && '\0' !in elem
    requires |elem| < |raw| ==> raw[|elem|] == '\0'
    ensures Name(raw) == elem
    decreases |raw|
  {
    if elem != "" {
      assert raw[0] == raw[..|elem|][0];
      assert raw[1..][..|elem| - 1] == elem[1..];
      NameIs(raw[1..], elem[1..]);
    }
  }

  lemma NamesStep(p: seq<char>, q: seq<char>, i: nat)
    requires |p| == |q| && i < |p|
    ensures p[i] == q[i] != '\0' ==> (Name(p[i..]) == Name(q[i..]) <==> Name(p[i + 1..]) == Name(q[i + 1..]))
    ensures p[i] != q[i] ==> Name(p[i..]) != Name(q[i..])
    ensures p[i] == q[i] == '\0' ==> Name(p[i..]) == Name(q[i..])
  {
    assert p[i..][0] == p[i] && q[i..][0] == q[i] && p[i..][1..] == p[i + 1..] && q[i..][1..] == q[i + 1..];
    var x, y := Name(p[i + 1..]), Name(q[i + 1..]);
    assert ([p[i]] + x)[1..] == x && ([q[i]] + y)[1..] == y;
    assert ([p[i]] + x)[0] == p[i] && ([q[i]] + y)[0] == q[i];
  }

  /** strncmp of two name buffers is 0. */
  method NameCmp(p: seq<char>, q: seq<char>) returns (same: bool)
    requires |p| == |q|
    ensures same <==> Name(p) == Name(q)
  {
    hide Name;
    assert p[0..] == p && q[0..] == q;
    var i := 0;
    while i < |p| && p[i] != '\0' && p[i] == q[i]
      invariant 0 <= i <= |p|
      invariant Name(p) == Name(q) <==> Name(p[i..]) == Name(q[i..])
    {
      NamesStep(p, q, i);
      i := i + 1;
    }
    if i == |p| {
      assert p[i..] == q[i..];
      return true;
    }
    NamesStep(p, q, i);
    return p[i] == q[i];
  }

  // ----- new entries

  /** es with e in place k, which may be one past the end. */
  function Placed(es: seq<Dirent>, k: nat, e: Dirent): seq<Dirent>
    requires k <= |es|
  {
    if k < |es| then es[k := e] else es + [e]
  }

  /** An entry for a new name in the first free place is found under that name, and others as before. */
  lemma {:induction false} PlacedEntry(es: seq<Dirent>, k: nat, e: Dirent, name: string)
    requires k <= |es| && (forall j :: 0 <= j < k ==> es[j].inum != 0) && (k < |es| ==> es[k].inum == 0)
    requires e.inum != 0 && Entry(es, Name(e.name)).None?
    ensures Entry(Placed(es, k, e), name) == if name == Name(e.name) then Some(e.inum) else Entry(es, name)
    decreases k
  {
    hide Name;
    if k == 0 {
      assert Placed(es, k, e)[0] == e;
      assert Placed(es, k, e)[1..] == if es == [] then [] else es[1..];
    } else {
      assert Placed(es, k, e)[0] == es[0] && Placed(es, k, e)[1..] == Placed(es[1..], k - 1, e);
      PlacedEntry(es[1..], k - 1, e, name);
    }
  }

  /** From d to e the name is new in dir, where it leads to inum, and no other name changed. */
  ghost predicate OneLinked(d: Disk, e: Disk, dir: nat, name: string, inum: nat) {
    && e == d.(dirs := e.dirs) && Lookup(d, dir, name).None?
    && forall i, n :: Lookup(e, i, n) == if i == dir && n == name then Some(inum) else Lookup(d, i, n)
  }

  lemma PlacedLinks(d: Disk, dir: nat, k: nat, e: Dirent)
    requires Sane(d) && IsDir(d, dir) && |e.name| == DIRSIZ && e.inum != 0 && Allocated(d, e.inum)
    requires k <= |d.dirs[dir]| && (forall j :: 0 <= j < k ==> d.dirs[dir][j].inum != 0)
    requires k < |d.dirs[dir]| ==> d.dirs[dir][k].inum == 0
    requires Lookup(d, dir, Name(e.name)).None?
    ensures var n := d.(dirs := d.dirs[dir := Placed(d.dirs[dir], k, e)]);
            Sane(n) && OneLinked(d, n, dir, Name(e.name), e.inum)
  {
    hide Name;
    var es := d.dirs[dir];
    var n := d.(dirs := d.dirs[dir := Placed(es, k, e)]);
    forall i, name ensures Lookup(n, i, name) == if i == dir && name == Name(e.name) then Some(e.inum) else Lookup(d, i, name) {
      PlacedEntry(es, k, e, name);
    }
  }

  /** A path that resolved still does, to the same inode. */
  lemma {:induction false} LinkedKeepsPaths(d: Disk, e: Disk, dir: nat, name: string, inum: nat, start: nat, names: seq<string>)
    requires OneLinked(d, e, dir, name, inum) && Resolve(d, start, names).Some?
    ensures Resolve(e, start, names) == Resolve(d, start, names)
    decreases |names|
  {
    if names != [] {
      LinkedKeepsPaths(d, e, dir, name, inum, Lookup(d, start, names[0]).value, names[1..]);
    }
  }

  /** The path whose parent the name was entered in now leads to the inode. */
  lemma LinkedPath(d: Disk, e: Disk, start: nat, names: seq<string>, inum: nat)
    requires names != [] && Parent(d, start, names).Some?
    requires OneLinked(d, e, Parent(d, start, names).value, names[|names| - 1], inum)
    ensures Resolve(d, start, names).None? && Resolve(e, start, names) == Some(inum)
  {
    var dir := Parent(d, start, names).value;
    LinkedKeepsPaths(d, e, dir, names[|names| - 1], inum, start, names[..|names| - 1]);
    ResolveLast(d, start, names);
    ResolveLast(e, start, names);
  }

  // ----- the table of inodes in memory

  datatype Slot = Slot(inum: nat, ref: nat)

  /** refs counts the references to each inode that has any; at is its slot. */
  ghost predicate TableOk(table: seq<Slot>, refs: map<nat, nat>, at: map<nat, nat>) {
    && at.Keys == refs.Keys
    && (forall i :: i in refs ==> at[i] < |table| && table[at[i]] == Slot(i, refs[i]) && refs[i] > 0)
    && (forall k :: 0 <= k < |table| && table[k].ref > 0 ==> table[k].inum in at && at[table[k].inum] == k)
  }

  /** One reference more to inode i. */
  function Plus(refs: map<nat, nat>, i: nat): map<nat, nat> {
    refs[i := if i in refs then refs[i] + 1 else 1]
  }

  /** One reference less. */
  function Minus(refs: map<nat, nat>, i: nat): map<nat, nat>
    requires i in refs && refs[i] > 0
  {
    if refs[i] == 1 then refs - {i} else refs[i := refs[i] - 1]
  }

  lemma PlusMinus(refs: map<nat, nat>, i: nat)
    requires i in refs ==> refs[i] > 0
    ensures Minus(Plus(refs, i), i) == refs
  {
    if i !in refs {
      assert Plus(refs, i) - {i} == refs;
    }
  }

  /** A reference gained and the older one given up: the new one is what is left. */
  lemma PlusPlusMinus(refs: map<nat, nat>, i: nat, j: nat)
    requires forall k :: k in refs ==> refs[k] > 0
    ensures i in Plus(Plus(refs, i), j) && Minus(Plus(Plus(refs, i), j), i) == Plus(refs, j)
  {
    if i != j {
      assert Plus(Plus(refs, i), j) == Plus(Plus(refs, j), i);
      PlusMinus(Plus(refs, j), i);
    } else {
      PlusMinus(Plus(refs, i), i);
    }
  }

  /** With fewer inodes referenced than slots, some slot is empty. */
  lemma EmptySlot(table: seq<Slot>, refs: map<nat, nat>, at: map<nat, nat>)
    requires TableOk(table, refs, at) && |refs| < |table|
    ensures exists k :: 0 <= k < |table| && table[k].ref == 0
  {
    assert |at.Keys| == |refs.Keys| && |refs| == |refs.Keys|;
    if forall k :: 0 <= k < |table| ==> table[k].ref > 0 {
      var s := AllSlots(table, at, |table|);
      SubsetSize(s, at.Keys);
    }
  }

  lemma {:induction false} AllSlots(table: seq<Slot>, at: map<nat, nat>, n: nat) returns (s: set<nat>)
    requires n <= |table| && forall k :: 0 <= k < n ==> table[k].inum in at && at[table[k].inum] == k
    ensures |s| == n && s <= at.Keys && forall i :: i in s ==> at[i] < n
    decreases n
  {
    if n == 0 {
      s := {};
    } else {
      s := AllSlots(table, at, n - 1);
      s := s + {table[n - 1].inum};
    }
  }

  lemma TableRaised(table: seq<Slot>, refs: map<nat, nat>, at: map<nat, nat>, k: nat)
    requires TableOk(table, refs, at) && k < |table| && table[k].ref > 0
    ensures TableOk(table[k := table[k].(ref := table[k].ref + 1)], Plus(refs, table[k].inum), at)
    ensures table[k].inum in refs && refs[table[k].inum] == table[k].ref
  {
  }

  lemma TableFilled(table: seq<Slot>, refs: map<nat, nat>, at: map<nat, nat>, k: nat, i: nat)
    requires TableOk(table, refs, at) && k < |table| && table[k].ref == 0 && i !in refs
    ensures TableOk(table[k := Slot(i, 1)], Plus(refs, i), at[i := k])
  {
  }

  lemma TableLowered(table: seq<Slot>, refs: map<nat, nat>, at: map<nat, nat>, k: nat)
    requires TableOk(table, refs, at) && k < |table| && table[k].ref > 0
    ensures var i := table[k].inum;
            && i in refs && refs[i] == table[k].ref
            && TableOk(table[k := table[k].(ref := table[k].ref - 1)], Minus(refs, i), if refs[i] == 1 then at - {i} else at)
  {
  }

  /** Slot k of the table refers to an allocated inode. */
  predicate Refers(d: Disk, table: seq<Slot>, k: nat) {
    k < |table| && table[k].ref > 0 && table[k].inum in d.kind && d.kind[table[k].inum] != 0
  }

  /** What was referred to before still is, by the same slots, but perhaps for slot ip. */
  ghost predicate StillRefers(d: Disk, x: seq<Slot>, y: seq<Slot>, ip: nat) {
    forall k: nat :: k != ip && Refers(d, x, k) ==> Refers(d, y, k) && y[k].inum == x[k].inum
  }

  /**
   * The position after the next element of the path from position from on, and after the slashes
   * that follow it; the element is in name. None if there is no element.
   */
  method SkipElem(path: string, from: nat, name: array<char>) returns (r: Option<nat>)
    requires from <= |path| && '\0' !in path && name.Length == DIRSIZ
    modifies name
    ensures var es := Elements(path[from..]);
            if es == [] then r == None && name[..] == old(name[..])
            else
              && r.Some? && from < r.value <= |path| && (r.value < |path| ==> path[r.value] != '/')
              && Elements(path[r.value..]) == es[1..] && Name(name[..]) == es[0]
  {
    hide Elements;
    hide Name;
    var p := from;
    while p < |path| && path[p] == '/'
      invariant from <= p <= |path| && forall k :: from <= k < p ==> path[k] == '/'
    {
      p := p + 1;
    }
    SlashesInFront(path, from, p);
    if p == |path| {
      NoElements(path);
      return None;
    }
    var s := p;
    while p < |path| && path[p] != '/'
      invariant s <= p <= |path| && forall k :: s <= k < p ==> path[k] != '/'
    {
      p := p + 1;
    }
    FirstElement(path, s, p);
    CopyName(path[s..p], name);
    ghost var e := p;
    while p < |path| && path[p] == '/'
      invariant e <= p <= |path| && forall k :: e <= k < p ==> path[k] == '/'
    {
      p := p + 1;
    }
    SlashesInFront(path, e, p);
    r := Some(p);
  }

  lemma NoElements(path: string)
    ensures Elements(path[|path|..]) == []
  {
  }

  /** The two memmoves of skipelem. */
  method CopyName(elem: string, name: array<char>)
    requires name.Length == DIRSIZ && '\0' !in elem
    modifies name
    ensures Name(name[..]) == Cut(elem)
  {
    var len := |elem|;
    var n := if len >= DIRSIZ then DIRSIZ else len;
    var i := 0;
    while i < n
      invariant 0 <= i <= n && name[..i] == elem[..i]
    {
      name[i] := elem[i];
      i := i + 1;
    }
    assert name[..n] == elem[..n];
    if len < DIRSIZ {
      name[len] := '\0';
      assert name[..][..n] == elem[..n];
    }
    assert name[..][..n] == elem[..n] == Cut(elem);
    NameIs(name[..], elem[..n]);
  }

  /** strncpy of a name: up to its NUL, and NULs from there on. */
  method StrnCpy(s: array<char>, t: seq<char>)
    requires s.Length == |t| == DIRSIZ
    modifies s
    ensures Name(s[..]) == Name(t)
  {
    var i := 0;
    while i < DIRSIZ && t[i] != '\0'
      invariant 0 <= i <= DIRSIZ && s[..i] == t[..i] && '\0' !in t[..i]
    {
      s[i] := t[i];
      i := i + 1;
    }
    ghost var n := i;
    while i < DIRSIZ
      invariant n <= i <= DIRSIZ && s[..n] == t[..n] && forall k :: n <= k < i ==> s[k] == '\0'
    {
      s[i] := '\0';
      i := i + 1;
    }
    assert s[..][..n] == t[..n];
    NameIs(s[..], t[..n]);
    NameIs(t, t[..n]);
  }

  lemma TwoRefs(refs: map<nat, nat>, i: nat, j: nat)
    requires (i in refs && refs[i] > 0) || (i == j && (i in refs ==> refs[i] > 0))
    ensures i in Plus(Plus(refs, i), j) && Plus(Plus(refs, i), j)[i] >= 2
  {
  }

  class Namer {
    var disk: Disk
    const table: array<Slot>
    /** The slot of the current directory. */
    var cwd: nat
    ghost var refs: map<nat, nat>
    ghost var at: map<nat, nat>

    ghost predicate Valid()
      reads this, table
    {
      && Sane(disk) && table.Length == NINODE && TableOk(table[..], refs, at) && Refers(disk, table[..], cwd)
    }

    /** The first process starts out in the root directory. */
    constructor (d: Disk)
      requires Sane(d)
      ensures Valid() && disk == d && refs == map[d.root := 1] && table[cwd].inum == d.root && fresh(table)
    {
      disk := d;
      table := new Slot[NINODE](k => if k == 0 then Slot(d.root, 1) else Slot(0, 0));
      cwd := 0;
      refs := map[d.root := 1];
      at := map[d.root := 0];
    }

    /** Slot ip holds a reference to an allocated inode. */
    predicate Held(ip: nat)
      reads this, table
    {
      Refers(disk, table[..], ip)
    }

    /** The slot of inode inum, with one reference more; a full table stops the kernel ("iget: no inodes"). */
    method Iget(inum: nat) returns (ip: nat)
      requires Valid() && inum in disk.kind && disk.kind[inum] != 0 && (inum in refs || |refs| < NINODE)
      modifies this`refs, this`at, table
      ensures Valid() && Held(ip) && table[ip].inum == inum && refs == Plus(old(refs), inum)
      ensures StillRefers(disk, old(table[..]), table[..], NINODE)
    {
      hide Sane;
      hide TableOk;
      ghost var s := table[..];
      if |refs| < NINODE {
        EmptySlot(s, refs, at);
      }
      RefsInTable(s, refs, at);
      var empty := NINODE;
      var i := 0;
      while i < NINODE
        invariant 0 <= i <= NINODE && table[..] == s && refs == old(refs) && at == old(at)
        invariant forall k :: 0 <= k < i ==> !(s[k].ref > 0 && s[k].inum == inum)
        invariant if empty == NINODE then forall k :: 0 <= k < i ==> s[k].ref > 0
                  else 0 <= empty < i && s[empty].ref == 0
      {
        assert table[i] == s[i];
        if table[i].ref > 0 && table[i].inum == inum {
          TableRaised(s, refs, at, i);
          table[i] := table[i].(ref := table[i].ref + 1);
          refs := Plus(refs, inum);
          return i;
        }
        if empty == NINODE && table[i].ref == 0 {
          empty := i;
        }
        i := i + 1;
      }
      TableFilled(s, refs, at, empty, inum);
      table[empty] := Slot(inum, 1);
      refs, at := Plus(refs, inum), at[inum := empty];
      return empty;
    }

    method Idup(ip: nat)
      requires Valid() && Held(ip)
      modifies this`refs, table
      ensures Valid() && Held(ip) && table[ip].inum == old(table[ip].inum) && refs == Plus(old(refs), table[ip].inum)
      ensures StillRefers(disk, old(table[..]), table[..], NINODE)
    {
      hide Sane;
      hide TableOk;
      TableRaised(table[..], refs, at, ip);
      table[ip] := table[ip].(ref := table[ip].ref + 1);
      refs := Plus(refs, table[ip].inum);
    }

    /** Drop a reference that is not the last one to an inode without links. */
    method Iput(ip: nat)
      requires Valid() && Held(ip) && (table[ip].ref > 1 || (ip != cwd && Allocated(disk, table[ip].inum)))
      modifies this`refs, this`at, table
      ensures Valid() && old(table[ip].inum) in old(refs) && old(refs)[old(table[ip].inum)] > 0
      ensures refs == Minus(old(refs), old(table[ip].inum))
      ensures table[ip].inum == old(table[ip].inum) && table[ip].ref == old(table[ip].ref) - 1
      ensures StillRefers(disk, old(table[..]), table[..], ip)
    {
      hide Sane;
      hide TableOk;
      var inum := table[ip].inum;
      TableLowered(table[..], refs, at, ip);
      table[ip] := table[ip].(ref := table[ip].ref - 1);
      at := if refs[inum] == 1 then at - {inum} else at;
      refs := Minus(refs, inum);
    }

    /** Search the directory ip for a name; the result has a reference of its own. */
    method DirLookup(ip: nat, name: seq<char>) returns (r: Option<nat>)
      requires Valid() && Held(ip) && IsDir(disk, table[ip].inum) && |name| == DIRSIZ && |refs| < NINODE
      modifies this`refs, this`at, table
      ensures Valid() && StillRefers(disk, old(table[..]), table[..], NINODE)
      ensures match Lookup(disk, old(table[ip].inum), Name(name))
              case None => r == None && refs == old(refs) && table[..] == old(table[..])
              case Some(inum) => r.Some? && Held(r.value) && table[r.value].inum == inum && Allocated(disk, inum)
                                 && refs == Plus(old(refs), inum)
    {
      hide TableOk;
      hide Name;
      var es := disk.dirs[table[ip].inum];
      EntryAllocated(disk, es, Name(name));
      var k := 0;
      while k < |es|
        invariant 0 <= k <= |es| && Entry(es[k..], Name(name)) == Entry(es, Name(name))
        invariant Valid() && refs == old(refs) && table[..] == old(table[..]) && at == old(at)
      {
        assert es[k..][0] == es[k] && es[k..][1..] == es[k + 1..];
        if es[k].inum != 0 {
          var same := NameCmp(name, es[k].name);
          if same {
            var next := Iget(es[k].inum);
            return Some(next);
          }
        }
        k := k + 1;
      }
      return None;
    }

    /** The start of dirlink: is the name in use? The inode found is given back. */
    method IsTaken(ip: nat, name: seq<char>) returns (taken: bool)
      requires Valid() && Held(ip) && IsDir(disk, table[ip].inum) && |name| == DIRSIZ && |refs| < NINODE
      modifies this`refs, this`at, table
      ensures Valid() && Held(ip) && table[ip].inum == old(table[ip].inum) && refs == old(refs)
      ensures taken <==> Lookup(disk, table[ip].inum, Name(name)).Some?
    {
      hide TableOk;
      hide Name;
      hide Sane;
      var found := DirLookup(ip, name);
      if found.Some? {
        var k := found.value;
        SlotCounts(table[..], refs, at, k);
        SlotCounts(old(table[..]), old(refs), old(at), cwd);
        SlotCounts(old(table[..]), old(refs), old(at), ip);
        PositiveRefs(old(table[..]), old(refs), old(at));
        PlusMinus(old(refs), table[k].inum);
        Iput(k);
      }
      return found.Some?;
    }

    /**
     * Enter inode inum under a name in the directory ip, unless the name is taken. The write of the
     * entry is one that succeeds.
     */
    method DirLink(ip: nat, name: seq<char>, inum: nat) returns (r: int)
      requires Valid() && Held(ip) && IsDir(disk, table[ip].inum) && |name| == DIRSIZ && |refs| < NINODE
      requires inum != 0 && Allocated(disk, inum)
      modifies this`disk, this`refs, this`at, table
      ensures Valid() && Held(ip) && table[ip].inum == old(table[ip].inum) && refs == old(refs)
      ensures if old(Lookup(disk, table[ip].inum, Name(name))).Some? then r == -1 && disk == old(disk)
              else r == 0 && OneLinked(old(disk), disk, table[ip].inum, Name(name), inum)
    {
      hide TableOk;
      hide Name;
      hide Sane;
      hide OneLinked;
      var taken := IsTaken(ip, name);
      if taken {
        return -1;
      }
      var dir := table[ip].inum;
      var es := disk.dirs[dir];
      var k := 0;
      while k < |es| && es[k].inum != 0
        invariant 0 <= k <= |es| && forall j :: 0 <= j < k ==> es[j].inum != 0
      {
        k := k + 1;
      }
      var raw := new char[DIRSIZ];
      StrnCpy(raw, name);
      PlacedLinks(disk, dir, k, Dirent(inum, raw[..]));
      disk := disk.(dirs := disk.dirs[dir := Placed(es, k, Dirent(inum, raw[..]))]);
      return 0;
    }

    /** The reference this walk has to slot ip, over those in before. */
    ghost predicate Walking(ip: nat, before: map<nat, nat>)
      reads this, table
    {
      && Valid() && Held(ip) && refs == Plus(before, table[ip].inum)
      && (ip != cwd ==> Allocated(disk, table[ip].inum)) && table[cwd].inum in before && before[table[cwd].inum] > 0
    }

    /** iunlockput of where the walk is: the references are what they were before it. */
    method Leave(ip: nat, ghost before: map<nat, nat>)
      requires Walking(ip, before) && (table[ip].inum in before ==> before[table[ip].inum] > 0)
      modifies this`refs, this`at, table
      ensures Valid() && refs == before && table[cwd].inum == old(table[cwd].inum)
    {
      hide Sane;
      SlotCounts(table[..], refs, at, ip);
      PlusMinus(before, table[ip].inum);
      hide TableOk;
      Iput(ip);
    }

    /** namex's start. */
    method Enter(path: string) returns (ip: nat)
      requires Valid() && |refs| < NINODE
      modifies this`refs, this`at, table
      ensures Walking(ip, old(refs)) && table[cwd].inum == old(table[cwd].inum)
      ensures table[ip].inum == if path != "" && path[0] == '/' then disk.root else old(table[cwd].inum)
    {
      SlotCounts(table[..], refs, at, cwd);
      hide TableOk;
      if path != "" && path[0] == '/' {
        ip := Iget(disk.root);
      } else {
        Idup(cwd);
        ip := cwd;
      }
    }

    /** A round of namex: from the directory ip to the entry with this name, whose inode takes over the reference. */
    method Descend(ip: nat, name: array<char>, ghost before: map<nat, nat>) returns (r: Option<nat>)
      requires Walking(ip, before) && IsDir(disk, table[ip].inum) && name.Length == DIRSIZ && |before| + 2 <= NINODE
      requires forall i :: i in before ==> before[i] > 0
      modifies this`refs, this`at, table
      ensures Valid() && table[cwd].inum == old(table[cwd].inum)
      ensures match Lookup(disk, old(table[ip].inum), Name(name[..]))
              case None => r == None && refs == before
              case Some(i) => r.Some? && Walking(r.value, before) && table[r.value].inum == i
    {
      hide Sane;
      hide Name;
      hide Lookup;
      hide TableOk;
      hide Plus;
      hide Minus;
      ghost var x := table[ip].inum;
      PlusSize(before, x);
      r := DirLookup(ip, name[..]);
      if r.None? {
        Leave(ip, before);
        return;
      }
      ghost var y := table[r.value].inum;
      SlotCounts(table[..], refs, at, ip);
      SlotCounts(table[..], refs, at, r.value);
      PlusPlusMinus(before, x, y);
      if ip == cwd || ip == r.value {
        TwoRefs(before, x, y);
      }
      Iput(ip);
    }

    /**
     * Follow path, from the root if it starts with a slash and otherwise from the current directory;
     * with parent, stop a level early and leave the last name in name. Every way out leaves the
     * references as they were, but for one to the result.
     */
    method Namex(path: string, parent: bool, name: array<char>) returns (r: Option<nat>)
      requires Valid() && '\0' !in path && name.Length == DIRSIZ && |refs| + 2 <= NINODE
      modifies this`refs, this`at, table, name
      ensures Valid() && table[cwd].inum == old(table[cwd].inum)
      ensures var start := if path != "" && path[0] == '/' then disk.root else old(table[cwd].inum);
              var names := Elements(path);
              var end := Resolve(disk, start, if parent && names != [] then names[..|names| - 1] else names);
              if end.None? || (parent && (names == [] || !IsDir(disk, end.value))) then r == None && refs == old(refs)
              else r.Some? && Held(r.value) && table[r.value].inum == end.value && refs == Plus(old(refs), end.value)
                   && (parent ==> Name(name[..]) == names[|names| - 1])
    {
      hide Sane;
      hide TableOk;
      hide Elements;
      hide Name;
      hide Plus;
      hide Lookup;
      ghost var before, names := refs, Elements(path);
      ghost var start := if path != "" && path[0] == '/' then disk.root else table[cwd].inum;
      PositiveRefs(table[..], refs, at);
      var ip := Enter(path);
      assert path[0..] == path;
      var p := 0;
      while true
        invariant 0 <= p <= |path| && Walking(ip, before) && table[cwd].inum == old(table[cwd].inum)
        invariant Resolve(disk, start, names) == Resolve(disk, table[ip].inum, Elements(path[p..]))
        invariant parent && p > 0 ==> Elements(path[p..]) != []
        invariant Elements(path[p..]) != [] ==>
                    && Parent(disk, start, names) == Parent(disk, table[ip].inum, Elements(path[p..])) && names != []
                    && names[|names| - 1] == Elements(path[p..])[|Elements(path[p..])| - 1]
        invariant Elements(path[p..]) == [] && p == 0 ==> names == []
        decreases |path| - p
      {
        ghost var rest := Elements(path[p..]);
        var next := SkipElem(path, p, name);
        if next.None? {
          break;
        }
        p := next.value;
        ParentStep(disk, table[ip].inum, rest);
        DirOf(disk, table[ip].inum);
        if disk.kind[table[ip].inum] != T_DIR {
          Leave(ip, before);
          return None;
        }
        LastElement(path, p);
        if parent && p == |path| {
          return Some(ip);
        }
        r := Descend(ip, name, before);
        if r.None? {
          return None;
        }
        ip := r.value;
      }
      if parent {
        Leave(ip, before);
        return None;
      }
      return Some(ip);
    }
  }

  lemma DirOf(d: Disk, i: nat)
    requires Sane(d) && i in d.kind
    ensures d.kind[i] == T_DIR <==> IsDir(d, i)
  {
  }

  /** The references counted in a slot are those to its inode. */
  lemma SlotCounts(table: seq<Slot>, refs: map<nat, nat>, at: map<nat, nat>, k: nat)
    requires TableOk(table, refs, at) && k < |table| && table[k].ref > 0
    ensures table[k].inum in refs && refs[table[k].inum] == table[k].ref
  {
  }

  lemma PositiveRefs(table: seq<Slot>, refs: map<nat, nat>, at: map<nat, nat>)
    requires TableOk(table, refs, at)
    ensures forall i :: i in refs ==> refs[i] > 0
  {
  }

  /** At the end of the path, and only there, no element is left. */
  lemma LastElement(path: string, p: nat)
    requires p <= |path| && (p < |path| ==> path[p] != '/')
    ensures Elements(path[p..]) == [] <==> p == |path|
  {
    if p < |path| {
      assert path[p..][0] == path[p];
    }
  }

  lemma PlusSize(refs: map<nat, nat>, i: nat)
    ensures |Plus(refs, i)| <= |refs| + 1
  {
    assert Plus(refs, i).Keys == refs.Keys + {i};
    assert |refs.Keys + {i}| <= |refs.Keys| + 1;
    assert |Plus(refs, i)| == |Plus(refs, i).Keys| && |refs| == |refs.Keys|;
  }

  lemma RefsInTable(table: seq<Slot>, refs: map<nat, nat>, at: map<nat, nat>)
    requires TableOk(table, refs, at)
    ensures forall i :: i in refs ==> exists k :: 0 <= k < |table| && table[k].ref > 0 && table[k].inum == i
  {
  }
}
