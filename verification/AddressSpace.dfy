/**
 * Single changes to the page tables of all processes (vm.c): a new table, an entry
 * written, a new directory; who uses which page before and after.  Page number v
 * stands for the addresses from v * 4096.
 */
module AddressSpace {
  import opened PageTables

  const PGSIZE: nat := 4096
  const KERNBASE: nat := 0x8000_0000
  const PTE_W_U: nat := 6

  type Page = seq<nat>

  /** Rounding a byte size up to pages. */
  function Up(sz: nat): nat {
    (sz + PGSIZE - 1) / PGSIZE
  }

  /** mappages sets PTE_P in what it is given. */
  function OrP(perm: nat): Flags {
    if perm % 2 == 1 then perm else perm + 1
  }

  ghost predicate SameSpace(tab: Tabs, e: nat, tab2: Tabs) {
    && IsTable(tab, e) && IsTable(tab2, e)
    && (forall v: nat :: Lookup(tab2, e, v) == Lookup(tab, e, v))
      && (forall i: nat :: TableOf(tab2, e, i) == TableOf(tab, e, i))
  }

  /** Every address space but d is as it was. */
  ghost predicate SameBut(tab: Tabs, dirs: set<nat>, d: nat, tab2: Tabs) {
    forall e :: e in dirs && e != d ==> SameSpace(tab, e, tab2)
  }

  ghost predicate UserFrame(tab: Tabs, d: nat, v: nat) {
    IsTable(tab, d) && v < KERN && Lookup(tab, d, v).Present? ==> Lookup(tab, d, v).frame != 0
  }

  ghost predicate Sound(tab: Tabs, dirs: set<nat>, free: seq<nat>) {
    Own(tab, dirs, free) && forall d, v: nat :: d in dirs ==> UserFrame(tab, d, v)
  }

  /** d's pages are found as before, but page v as x. */
  ghost predicate Remapped(tab: Tabs, d: nat, v: nat, x: Pte, tab2: Tabs) {
    IsTable(tab, d) && IsTable(tab2, d) && forall w: nat ::
      Lookup(tab2, d, w) == if w == v then x else Lookup(tab, d, w)
  }

  // ----------------------------------------------------- single steps, as values

  lemma TableStep(tab: Tabs, dirs: set<nat>, free: seq<nat>, d: nat, i: nat, t: nat, tab2: Tabs)
    requires Sound(tab, dirs, free) && d in dirs && i < NP && TableOfIs(tab, d, i, 0) && free != [] && t == free[0]
          && tab2 == WithTable(tab, d, i, t)
    ensures Sound(tab2, dirs, free[1..]) && SameBut(tab, dirs, d, tab2) && Conserves(tab, d, free, tab2, free[1..])
    ensures IsTable(tab2, d) && (forall w: nat :: Lookup(tab2, d, w) == Lookup(tab, d, w))
    ensures forall j: nat :: TableOf(tab2, d, j) == if j == i then t else TableOf(tab, d, j)
  {
    FreeUnused(tab, dirs, free, t);
    TableAdded(tab, dirs, free, d, i, t, tab2);
    TableConserves(tab, dirs, free, d, i, t, tab2);
    forall e, v: nat | e in dirs
      ensures IsTable(tab, e) && IsTable(tab2, e) && Lookup(tab2, e, v) == Lookup(tab, e, v) && UserFrame(tab2, e, v)
    {
      TableAddedLookup(tab, dirs, free, d, i, t, tab2, e, v);
      assert UserFrame(tab, e, v);
    }
    forall e | e in dirs
      ensures forall j: nat :: TableOf(tab2, e, j) == if e == d && j == i then t else TableOf(tab, e, j)
    {
      TableAddedAt(tab, dirs, free, d, i, t, tab2, e);
    }
  }

  lemma EntryStep(tab: Tabs, dirs: set<nat>, free: seq<nat>, d: nat, v: nat, x: Pte, tab2: Tabs)
    requires Own(tab, dirs, free) && d in dirs && TableOf(tab, d, v / NP) != 0 && IsTable(tab, TableOf(tab, d, v / NP))
          && tab2 == WithEntry(tab, d, v, x)
    requires forall e, w: nat :: e in dirs ==> UserFrame(tab, e, w)
    requires v < KERN && x.Present? ==> x.frame != 0
    ensures SameBut(tab, dirs, d, tab2) && Remapped(tab, d, v, x, tab2)
         && (forall e, w: nat :: e in dirs ==> UserFrame(tab2, e, w))
    ensures forall j: nat :: TableOf(tab2, d, j) == TableOf(tab, d, j)
  {
    forall e, w: nat | e in dirs
      ensures IsTable(tab, e) && IsTable(tab2, e)
           && Lookup(tab2, e, w) == (if e == d && w == v then x else Lookup(tab, e, w)) && UserFrame(tab2, e, w)
    {
      EntryLookup(tab, dirs, free, d, v, x, tab2, e, w);
      assert UserFrame(tab, e, w);
    }
    forall e | e in dirs
      ensures forall j: nat :: TableOf(tab2, e, j) == TableOf(tab, e, j)
    {
      EntryAt(tab, dirs, free, d, v, x, tab2, e);
    }
  }

  lemma MapStep(tab: Tabs, dirs: set<nat>, free: seq<nat>, d: nat, v: nat, f: nat, fl: Flags, tab2: Tabs)
    requires Sound(tab, dirs, free) && d in dirs && TableOf(tab, d, v / NP) != 0
          && IsTable(tab, TableOf(tab, d, v / NP))
    requires tab2 == WithEntry(tab, d, v, Present(f, fl)) && (v < KERN ==> f !in free && Unused(tab, dirs, f))
          && Lookup(tab, d, v) == Absent
    ensures Sound(tab2, dirs, free) && SameBut(tab, dirs, d, tab2) && Remapped(tab, d, v, Present(f, fl), tab2)
    ensures forall j: nat :: TableOf(tab2, d, j) == TableOf(tab, d, j)
    ensures forall y: nat :: Pooled(tab2, d, free, y) <==> (y == f && v < KERN) || Pooled(tab, d, free, y)
  {
    EntryStep(tab, dirs, free, d, v, Present(f, fl), tab2);
    PageMapped(tab, dirs, free, d, v, f, fl, tab2);
    EntryWritten(tab, dirs, free, d, v, Present(f, fl), tab2);
    forall y: nat ensures Pooled(tab2, d, free, y) <==> (y == f && v < KERN) || Pooled(tab, d, free, y) {
      if v < KERN {
        MapBrings(tab, dirs, free, d, v, f, tab2, y);
      } else {
        MovesUse(tab, dirs, free, d, Leaf(v), 0, tab2, y);
      }
    }
  }

  lemma UnmapStep(tab: Tabs, dirs: set<nat>, free: seq<nat>, d: nat, v: nat, x: nat, tab2: Tabs)
    requires Sound(tab, dirs, free) && d in dirs && TableOf(tab, d, v / NP) != 0
          && IsTable(tab, TableOf(tab, d, v / NP)) && v < KERN
    requires Lookup(tab, d, v).Present? && x == Lookup(tab, d, v).frame && tab2 == WithEntry(tab, d, v, Absent)
    ensures x != 0 && Sound(tab2, dirs, [x] + free) && SameBut(tab, dirs, d, tab2) && Remapped(tab, d, v, Absent, tab2)
    ensures (forall j: nat :: TableOf(tab2, d, j) == TableOf(tab, d, j)) && Conserves(tab, d, free, tab2, [x] + free)
  {
    assert UserFrame(tab, d, v);
    EntryStep(tab, dirs, free, d, v, Absent, tab2);
    PageUnmapped(tab, dirs, free, d, v, tab2, [x] + free);
    UnmapConserves(tab, dirs, free, d, v, x, tab2);
  }

  // ------------------------------------------------------- a new directory

  /** The tables of the other spaces are not on the new directory's page. */
  lemma RootElsewhere(tab: Tabs, dirs: set<nat>, d: nat, tab2: Tabs, e: nat)
    requires (forall x :: x in dirs ==> DirOk(tab, x)) && Unused(tab, dirs, d) && tab2 == tab[d := Zeros()] && e in dirs
    ensures e != d && DirOk(tab2, e) && SameSpace(tab, e, tab2)
  {
    assert !Uses(tab, dirs, e, Root, d);
    forall i: nat | TableOf(tab, e, i) != 0 ensures TableOf(tab, e, i) != d && IsTable(tab2, TableOf(tab, e, i)) {
      assert !Uses(tab, dirs, e, Tab(i), d);
    }
  }

  lemma RootEmpty(tab2: Tabs, d: nat)
    requires d in tab2 && tab2[d] == Zeros()
    ensures IsTable(tab2, d) && (forall i: nat :: TableOf(tab2, d, i) == 0)
         && (forall v: nat :: Lookup(tab2, d, v) == Absent)
    ensures forall p :: FrameAt(tab2, d, p) == if p == Root then d else 0
  {}

  lemma RootAdded(tab: Tabs, dirs: set<nat>, free: seq<nat>, d: nat, tab2: Tabs)
    requires Sound(tab, dirs, free) && free != [] && d == free[0] && tab2 == tab[d := Zeros()]
    ensures d !in dirs && Sound(tab2, dirs + {d}, free[1..]) && SameBut(tab, dirs, d, tab2) && IsTable(tab2, d)
    ensures (forall i: nat :: TableOf(tab2, d, i) == 0) && (forall v: nat :: Lookup(tab2, d, v) == Absent)
    ensures forall x: nat :: Pooled(tab2, d, free[1..], x) <==> x in free
  {
    FreeUnused(tab, dirs, free, d);
    RootEmpty(tab2, d);
    forall e | e in dirs
      ensures e != d && DirOk(tab2, e) && SameSpace(tab, e, tab2)
    {
      RootElsewhere(tab, dirs, d, tab2, e);
    }
    forall e, p, x: nat | Uses(tab2, dirs + {d}, e, p, x)
      ensures (e == x == d && p == Root) || (e != d && Uses(tab, dirs, e, p, x))
    {
      if e != d { assert FrameAt(tab2, e, p) == FrameAt(tab, e, p); }
    }
    forall e, v: nat | e in dirs + {d} ensures UserFrame(tab2, e, v) {
      if e != d { assert UserFrame(tab, e, v); }
    }
    assert free == [d] + free[1..];
    assert forall x: nat :: InUse(tab2, d, x) <==> x == d by { assert FrameAt(tab2, d, Root) == d; }
  }
}
