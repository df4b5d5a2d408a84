/**
 * Two-level page tables (vm.c) as tables of 1024 entries, found by the frame
 * that holds them, and who uses which physical page.
 */
module PageTables {
  import opened Counting

  const NP: nat := 1024
  /** The first page number of the kernel's half (KERNBASE). */
  const KERN: nat := 0x8_0000

  /** The low bits of an entry that is present: PTE_P is one of them. */
  type Flags = x: nat | x % 2 == 1 witness 1

  datatype Pte = Absent | Present(frame: nat, flags: Flags)

  type Tabs = map<nat, seq<Pte>>

  function Zeros(): seq<Pte> {
    seq(NP, _ => Absent)
  }

  predicate IsTable(tab: Tabs, f: nat) {
    f in tab && |tab[f]| == NP
  }

  /** The page table page behind directory entry i, 0 if there is none. */
  function TableOf(tab: Tabs, d: nat, i: nat): nat
    requires IsTable(tab, d)
  {
    if i < NP && tab[d][i].Present? then tab[d][i].frame else 0
  }

  /** A directory and all tables it names are tables. */
  ghost predicate DirOk(tab: Tabs, d: nat) {
    && d != 0 && IsTable(tab, d)
    && forall i: nat :: i < NP && tab[d][i].Present? ==> TableOf(tab, d, i) != 0 && IsTable(tab, TableOf(tab, d, i))
  }

  /** What the hardware finds for page v. */
  function Lookup(tab: Tabs, d: nat, v: nat): Pte
    requires IsTable(tab, d)
  {
    var t := TableOf(tab, d, v / NP);
    if t == 0 || !IsTable(tab, t) then Absent else tab[t][v % NP]
  }

  // ------------------------------------------------------------- ownership

  /** What an address space uses a page for: the directory, the table behind entry
      i, or user page v. */
  datatype Place = Root | Tab(i: nat) | Leaf(v: nat)

  function LeafOf(e: Pte): nat {
    if e.Present? then e.frame else 0
  }

  /** The page used there, 0 if none.  What the kernel's half maps is nobody's. */
  function FrameAt(tab: Tabs, d: nat, p: Place): nat
    requires IsTable(tab, d)
  {
    match p
    case Root => d
    case Tab(i) => TableOf(tab, d, i)
    case Leaf(v) => if v < KERN then LeafOf(Lookup(tab, d, v)) else 0
  }

  ghost predicate Uses(tab: Tabs, dirs: set<nat>, d: nat, p: Place, x: nat) {
    d in dirs && IsTable(tab, d) && FrameAt(tab, d, p) == x && x != 0
  }

  /** No page is used twice, and no free page is used. */
  ghost predicate Own(tab: Tabs, dirs: set<nat>, free: seq<nat>) {
    && (forall d :: d in dirs ==> DirOk(tab, d))
    && (forall d, p, e, q, x: nat :: Uses(tab, dirs, d, p, x) && Uses(tab, dirs, e, q, x) ==> d == e && p == q)
    && (forall d, p, x: nat :: Uses(tab, dirs, d, p, x) ==> x !in free)
    && Distinct(free) && 0 !in free
  }

  /** x belongs to the address space d. */
  ghost predicate InUse(tab: Tabs, d: nat, x: nat)
    requires IsTable(tab, d)
  {
    x != 0 && exists p :: FrameAt(tab, d, p) == x
  }

  /** The uses are the same but for (d, p), which goes over to x. */
  ghost predicate Moves(tab: Tabs, dirs: set<nat>, d: nat, p: Place, x: nat, tab2: Tabs) {
    && (forall e :: e in dirs ==> IsTable(tab, e) && IsTable(tab2, e))
    && (forall e, q :: e in dirs && !(e == d && q == p) ==> FrameAt(tab2, e, q) == FrameAt(tab, e, q))
    && d in dirs && FrameAt(tab2, d, p) == x
  }

  lemma OwnMoves(tab: Tabs, dirs: set<nat>, free: seq<nat>, d: nat, p: Place, x: nat, tab2: Tabs, free2: seq<nat>)
    requires Own(tab, dirs, free) && Moves(tab, dirs, d, p, x, tab2) && forall e :: e in dirs ==> DirOk(tab2, e)
    requires Distinct(free2) && 0 !in free2 && x !in free2
    requires x != 0 ==> forall e, q :: !Uses(tab, dirs, e, q, x)
    requires forall y :: y in free2 ==> y in free || (y == FrameAt(tab, d, p) && y != 0)
    ensures Own(tab2, dirs, free2)
  {
    forall e, q, y: nat | Uses(tab2, dirs, e, q, y)
      ensures y !in free2 && ((e == d && q == p) || Uses(tab, dirs, e, q, y))
    {
      if !(e == d && q == p) {
        assert Uses(tab, dirs, e, q, y);
        if y == FrameAt(tab, d, p) { assert Uses(tab, dirs, d, p, y); }
      }
    }
  }

  // ------------------------------------------------------- a new table page

  /** The tables after the zeroed page t has been put behind entry i of d. */
  function WithTable(tab: Tabs, d: nat, i: nat, t: nat): Tabs
    requires IsTable(tab, d) && i < NP
  {
    tab[t := Zeros()][d := tab[d][i := Present(t, 7)]]
  }

  /** t holds no table of the address spaces. */
  ghost predicate Unused(tab: Tabs, dirs: set<nat>, t: nat) {
    t != 0 && forall e, q :: !Uses(tab, dirs, e, q, t)
  }

  lemma FreeUnused(tab: Tabs, dirs: set<nat>, free: seq<nat>, t: nat)
    requires Own(tab, dirs, free) && t in free
    ensures Unused(tab, dirs, t)
  {}

  /** Tables of different places are different pages. */
  lemma TablesApart(tab: Tabs, dirs: set<nat>, free: seq<nat>, d: nat, i: nat, e: nat, j: nat)
    requires Own(tab, dirs, free) && d in dirs && e in dirs && TableOf(tab, d, i) != 0
    ensures TableOf(tab, d, i) != e && (TableOf(tab, d, i) == TableOf(tab, e, j) ==> d == e && i == j)
  {
    var t := TableOf(tab, d, i);
    assert Uses(tab, dirs, d, Tab(i), t);
    assert t == e ==> Uses(tab, dirs, e, Root, t);
    assert t == TableOf(tab, e, j) ==> Uses(tab, dirs, e, Tab(j), t);
  }

  lemma TableAddedAt(tab: Tabs, dirs: set<nat>, free: seq<nat>, d: nat, i: nat, t: nat, tab2: Tabs, e: nat)
    requires Own(tab, dirs, free) && d in dirs && i < NP && tab[d][i] == Absent && Unused(tab, dirs, t)
          && tab2 == WithTable(tab, d, i, t) && e in dirs
    ensures t != e && IsTable(tab2, e) && DirOk(tab2, e)
    ensures forall j: nat :: TableOf(tab2, e, j) == if e == d && j == i then t else TableOf(tab, e, j)
    ensures forall j: nat :: TableOf(tab, e, j) != 0 ==>
          TableOf(tab, e, j) in tab2 && tab2[TableOf(tab, e, j)] == tab[TableOf(tab, e, j)]
  {
    assert t == e ==> Uses(tab, dirs, e, Root, t);
    assert d == t ==> Uses(tab, dirs, d, Root, t);
    forall j: nat | TableOf(tab, e, j) != 0
      ensures TableOf(tab, e, j) != d && TableOf(tab, e, j) != t && IsTable(tab, TableOf(tab, e, j))
    {
      TablesApart(tab, dirs, free, e, j, d, 0);
      assert TableOf(tab, e, j) == t ==> Uses(tab, dirs, e, Tab(j), t);
    }
  }

  /** A new table maps nothing: every page is found where it was. */
  lemma TableAddedLookup(tab: Tabs, dirs: set<nat>, free: seq<nat>, d: nat, i: nat, t: nat, tab2: Tabs, e: nat, v: nat)
    requires Own(tab, dirs, free) && d in dirs && i < NP && tab[d][i] == Absent && Unused(tab, dirs, t)
          && tab2 == WithTable(tab, d, i, t) && e in dirs
    ensures IsTable(tab2, e) && Lookup(tab2, e, v) == Lookup(tab, e, v)
  {
    TableAddedAt(tab, dirs, free, d, i, t, tab2, e);
    TableAddedAt(tab, dirs, free, d, i, t, tab2, d);
    assert tab2[t] == Zeros();
  }

  lemma TableAdded(tab: Tabs, dirs: set<nat>, free: seq<nat>, d: nat, i: nat, t: nat, tab2: Tabs)
    requires Own(tab, dirs, free) && d in dirs && i < NP && tab[d][i] == Absent && free != [] && t == free[0]
          && tab2 == WithTable(tab, d, i, t)
    ensures Own(tab2, dirs, free[1..]) && Moves(tab, dirs, d, Tab(i), t, tab2)
  {
    FreeUnused(tab, dirs, free, t);
    forall e | e in dirs ensures DirOk(tab2, e) && IsTable(tab, e) { TableAddedAt(tab, dirs, free, d, i, t, tab2, e); }
    forall e, q | e in dirs && !(e == d && q == Tab(i)) ensures FrameAt(tab2, e, q) == FrameAt(tab, e, q) {
      TableAddedAt(tab, dirs, free, d, i, t, tab2, e);
      if q.Leaf? { TableAddedLookup(tab, dirs, free, d, i, t, tab2, e, q.v); }
    }
    TableAddedAt(tab, dirs, free, d, i, t, tab2, d);
    OwnMoves(tab, dirs, free, d, Tab(i), t, tab2, free[1..]);
  }

  // ------------------------------------------------------------ a page entry

  /** The tables after the entry for page v has been written. */
  function WithEntry(tab: Tabs, d: nat, v: nat, e: Pte): Tabs
    requires IsTable(tab, d) && IsTable(tab, TableOf(tab, d, v / NP))
  {
    var t := TableOf(tab, d, v / NP);
    tab[t := tab[t][v % NP := e]]
  }

  lemma EntryAt(tab: Tabs, dirs: set<nat>, free: seq<nat>, d: nat, v: nat, x: Pte, tab2: Tabs, e: nat)
    requires Own(tab, dirs, free) && d in dirs && TableOf(tab, d, v / NP) != 0 && IsTable(tab, TableOf(tab, d, v / NP))
          && tab2 == WithEntry(tab, d, v, x) && e in dirs
    ensures IsTable(tab, e) && IsTable(tab2, e) && DirOk(tab2, e) && tab2[e] == tab[e]
    ensures forall j: nat :: TableOf(tab2, e, j) == TableOf(tab, e, j)
  {
    TablesApart(tab, dirs, free, d, v / NP, e, 0);
  }

  lemma SamePage(v: nat, w: nat)
    requires v / NP == w / NP && v % NP == w % NP
    ensures v == w
  {}

  /** Writing an entry changes what is found for that page of that address space, and nothing else. */
  lemma EntryLookup(tab: Tabs, dirs: set<nat>, free: seq<nat>, d: nat, v: nat, x: Pte, tab2: Tabs, e: nat, w: nat)
    requires Own(tab, dirs, free) && d in dirs && TableOf(tab, d, v / NP) != 0 && IsTable(tab, TableOf(tab, d, v / NP))
          && tab2 == WithEntry(tab, d, v, x) && e in dirs
    ensures IsTable(tab, e) && IsTable(tab2, e)
         && Lookup(tab2, e, w) == if e == d && w == v then x else Lookup(tab, e, w)
  {
    EntryAt(tab, dirs, free, d, v, x, tab2, e);
    TablesApart(tab, dirs, free, d, v / NP, e, w / NP);
    if e == d && w / NP == v / NP && w % NP == v % NP { SamePage(v, w); }
  }

  lemma EntryWritten(tab: Tabs, dirs: set<nat>, free: seq<nat>, d: nat, v: nat, x: Pte, tab2: Tabs)
    requires Own(tab, dirs, free) && d in dirs && TableOf(tab, d, v / NP) != 0 && IsTable(tab, TableOf(tab, d, v / NP))
          && tab2 == WithEntry(tab, d, v, x)
    ensures (forall e :: e in dirs ==> DirOk(tab2, e))
         && Moves(tab, dirs, d, Leaf(v), if v < KERN then LeafOf(x) else 0, tab2)
  {
    forall e | e in dirs ensures DirOk(tab2, e) && IsTable(tab, e) { EntryAt(tab, dirs, free, d, v, x, tab2, e); }
    forall e, q | e in dirs && !(e == d && q == Leaf(v)) ensures FrameAt(tab2, e, q) == FrameAt(tab, e, q) {
      EntryAt(tab, dirs, free, d, v, x, tab2, e);
      if q.Leaf? { EntryLookup(tab, dirs, free, d, v, x, tab2, e, q.v); }
    }
    EntryLookup(tab, dirs, free, d, v, x, tab2, d, v);
  }

  /** A fresh page is mapped. */
  lemma PageMapped(tab: Tabs, dirs: set<nat>, free: seq<nat>, d: nat, v: nat, f: nat, fl: Flags, tab2: Tabs)
    requires Own(tab, dirs, free) && d in dirs && TableOf(tab, d, v / NP) != 0 && IsTable(tab, TableOf(tab, d, v / NP))
    requires tab2 == WithEntry(tab, d, v, Present(f, fl)) && (v < KERN ==> f !in free && Unused(tab, dirs, f))
    requires v >= KERN || Lookup(tab, d, v) == Absent
    ensures Own(tab2, dirs, free)
  {
    EntryWritten(tab, dirs, free, d, v, Present(f, fl), tab2);
    OwnMoves(tab, dirs, free, d, Leaf(v), if v < KERN then f else 0, tab2, free);
  }

  /** A user page is unmapped and given back. */
  lemma PageUnmapped(tab: Tabs, dirs: set<nat>, free: seq<nat>, d: nat, v: nat, tab2: Tabs, free2: seq<nat>)
    requires Own(tab, dirs, free) && d in dirs && TableOf(tab, d, v / NP) != 0 && IsTable(tab, TableOf(tab, d, v / NP))
          && v < KERN
    requires Lookup(tab, d, v).Present? && Lookup(tab, d, v).frame != 0
    requires tab2 == WithEntry(tab, d, v, Absent) && free2 == [Lookup(tab, d, v).frame] + free
    ensures Own(tab2, dirs, free2) && Moves(tab, dirs, d, Leaf(v), 0, tab2)
  {
    assert Uses(tab, dirs, d, Leaf(v), Lookup(tab, d, v).frame);
    EntryWritten(tab, dirs, free, d, v, Absent, tab2);
    OwnMoves(tab, dirs, free, d, Leaf(v), 0, tab2, free2);
  }

  // ------------------------------------------------ the pages of one space

  /** x is free or belongs to the address space d. */
  ghost predicate Pooled(tab: Tabs, d: nat, free: seq<nat>, x: nat) {
    x in free || (IsTable(tab, d) && InUse(tab, d, x))
  }

  /** No page is lost and none comes in. */
  ghost predicate Conserves(tab: Tabs, d: nat, free: seq<nat>, tab2: Tabs, free2: seq<nat>) {
    forall x: nat :: Pooled(tab2, d, free2, x) <==> Pooled(tab, d, free, x)
  }

  /** After one change of use the space has the new page, and no longer the old one. */
  lemma MovesUse(tab: Tabs, dirs: set<nat>, free: seq<nat>, d: nat, p: Place, x: nat, tab2: Tabs, y: nat)
    requires Own(tab, dirs, free) && Moves(tab, dirs, d, p, x, tab2)
    ensures InUse(tab2, d, y) <==> (y == x && x != 0) || (InUse(tab, d, y) && y != FrameAt(tab, d, p))
  {
    if InUse(tab2, d, y) {
      var q :| FrameAt(tab2, d, q) == y;
      if q != p {
        assert FrameAt(tab, d, q) == y;
        if y == FrameAt(tab, d, p) { assert Uses(tab, dirs, d, q, y) && Uses(tab, dirs, d, p, y); }
      }
    }
    if InUse(tab, d, y) && y != FrameAt(tab, d, p) {
      var q :| FrameAt(tab, d, q) == y;
      assert FrameAt(tab2, d, q) == y;
    }
    if y == x && x != 0 { assert FrameAt(tab2, d, p) == y; }
  }

  lemma TableConserves(tab: Tabs, dirs: set<nat>, free: seq<nat>, d: nat, i: nat, t: nat, tab2: Tabs)
    requires Own(tab, dirs, free) && free != [] && t == free[0] && TableOfIs(tab, d, i, 0)
          && Moves(tab, dirs, d, Tab(i), t, tab2)
    ensures Conserves(tab, d, free, tab2, free[1..])
  {
    forall y: nat ensures Pooled(tab2, d, free[1..], y) <==> Pooled(tab, d, free, y) {
      MovesUse(tab, dirs, free, d, Tab(i), t, tab2, y);
      assert free == [t] + free[1..];
    }
  }

  predicate TableOfIs(tab: Tabs, d: nat, i: nat, t: nat) {
    IsTable(tab, d) && TableOf(tab, d, i) == t
  }

  lemma UnmapConserves(tab: Tabs, dirs: set<nat>, free: seq<nat>, d: nat, v: nat, x: nat, tab2: Tabs)
    requires Own(tab, dirs, free) && d in dirs && x != 0 && IsTable(tab, d) && FrameAt(tab, d, Leaf(v)) == x
          && Moves(tab, dirs, d, Leaf(v), 0, tab2)
    ensures Conserves(tab, d, free, tab2, [x] + free)
  {
    forall y: nat ensures Pooled(tab2, d, [x] + free, y) <==> Pooled(tab, d, free, y) {
      MovesUse(tab, dirs, free, d, Leaf(v), 0, tab2, y);
      if y == x { assert InUse(tab, d, x); }
    }
  }

  /** Mapping the page f, which was in nobody's hands, brings it into the pool. */
  lemma MapBrings(tab: Tabs, dirs: set<nat>, free: seq<nat>, d: nat, v: nat, f: nat, tab2: Tabs, y: nat)
    requires Own(tab, dirs, free) && f != 0 && IsTable(tab, d) && FrameAt(tab, d, Leaf(v)) == 0
          && Moves(tab, dirs, d, Leaf(v), f, tab2)
    ensures Pooled(tab2, d, free, y) <==> y == f || Pooled(tab, d, free, y)
  {
    MovesUse(tab, dirs, free, d, Leaf(v), f, tab2, y);
  }
}
