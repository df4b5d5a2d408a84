/**
 * walkpgdir, mappages, allocuvm, deallocuvm, freevm, setupkvm and copyuvm (vm.c), with
 * kalloc and kfree under them (kalloc.c), as methods on all page tables, the bytes of
 * all pages and the free list.  A page's bytes and its table entries are kept apart.
 */
module Vm {
  import opened PageTables
  import opened AddressSpace
  import opened PageCounts

  /** An operation on d: the tables stay in order, the other address spaces are as they
      were, and no page gets lost between d and the free list. */
  ghost predicate Works(tab: Tabs, free: seq<nat>, dirs: set<nat>, d: nat, tab2: Tabs, free2: seq<nat>) {
    Sound(tab2, dirs, free2) && SameBut(tab, dirs, d, tab2) && Conserves(tab, d, free, tab2, free2)
  }

  lemma SameButTrans(tab: Tabs, dirs: set<nat>, d: nat, tab1: Tabs, tab2: Tabs)
    requires SameBut(tab, dirs, d, tab1) && SameBut(tab1, dirs, d, tab2)
    ensures SameBut(tab, dirs, d, tab2)
  {
    forall e | e in dirs && e != d
      ensures SameSpace(tab, e, tab2)
    {
      assert SameSpace(tab, e, tab1) && SameSpace(tab1, e, tab2);
    }
  }

  /** The pages from lo on that lie below sz bytes. */
  predicate Within(lo: nat, sz: nat, v: nat) {
    lo <= v && v * PGSIZE < sz
  }

  /** What d finds after the pages up to v of those within lo and sz have been taken out. */
  ghost predicate CutUpto(tab: Tabs, d: nat, lo: nat, sz: nat, v: nat, tab2: Tabs) {
    && IsTable(tab, d) && IsTable(tab2, d)
    && (forall w: nat :: Lookup(tab2, d, w) == if Within(lo, sz, w) && w < v then Absent else Lookup(tab, d, w))
    && (forall i: nat :: TableOf(tab2, d, i) == TableOf(tab, d, i))
  }

  /** The pages the allocator gives away or takes back are the only ones whose bytes change. */
  ghost predicate Wrote(data: nat -> Page, s: iset<nat>, data2: nat -> Page) {
    forall x: nat :: x !in s ==> data2(x) == data(x)
  }

  /** Pages that are free neither before nor after keep their bytes. */
  ghost predicate Keeps(data: nat -> Page, free: seq<nat>, data2: nat -> Page, free2: seq<nat>) {
    forall x: nat :: x !in free && x !in free2 ==> data2(x) == data(x)
  }

  function Filled(b: nat): Page {
    seq(PGSIZE, _ => b)
  }

  predicate AllBytes(p: Page, b: nat) {
    |p| == PGSIZE && forall k | 0 <= k < |p| :: p[k] == b
  }

  class Kernel {
    var free: seq<nat>
    var tab: Tabs
    var data: nat -> Page
    ghost var dirs: set<nat>

    ghost predicate Valid()
      reads this
    {
      Sound(tab, dirs, free)
    }

    /** The first page of the free list, or 0. */
    method Kalloc() returns (f: nat)
      requires Valid()
      modifies `free
      ensures Valid() && (f == 0 ==> old(free) == [] && free == [])
      ensures f != 0 ==>
            old(free) != [] && f == old(free)[0] && free == old(free)[1..] && f !in free && Unused(tab, dirs, f)
    {
      if free == [] {
        return 0;
      }
      f := free[0];
      FreeUnused(tab, dirs, free, f);
      free := free[1..];
    }

    /** A page comes back and is filled with junk. */
    method Kfree(f: nat)
      modifies `free, `data
      ensures free == [f] + old(free) && Wrote(old(data), iset{f}, data) && AllBytes(data(f), 1)
    {
      var before := data;
      data := x => if x == f then Filled(1) else before(x);
      free := [f] + free;
    }

    method Fill(f: nat, p: Page)
      modifies `data
      ensures data(f) == p && Wrote(old(data), iset{f}, data)
    {
      var before := data;
      data := x => if x == f then p else before(x);
    }

    /** walkpgdir: the table page for v, made if it is wanted and there is memory. */
    method Walk(d: nat, v: nat, alloc: bool) returns (t: nat)
      requires Valid() && d in dirs && v < NP * NP
      modifies `free, `tab
      ensures Works(old(tab), old(free), dirs, d, tab, free) && IsTable(old(tab), d) && IsTable(tab, d)
      ensures forall w: nat :: Lookup(tab, d, w) == Lookup(old(tab), d, w)
      ensures t == 0 ==> tab == old(tab) && free == old(free) && TableOf(tab, d, v / NP) == 0 && (alloc ==> free == [])
      ensures t != 0 ==> IsTable(tab, t) && TableOf(tab, d, v / NP) == t
      ensures t != 0 && TableOf(old(tab), d, v / NP) != 0 ==> tab == old(tab) && free == old(free)
      ensures t != 0 && TableOf(old(tab), d, v / NP) == 0 ==> alloc && |free| == |old(free)| - 1
      ensures t != 0 ==> forall j: nat :: j != v / NP ==> TableOf(tab, d, j) == TableOf(old(tab), d, j)
      ensures forall y :: y in free ==> y in old(free)
    {
      assert DirOk(tab, d);
      var pde := tab[d][v / NP];
      if pde.Present? {
        t := pde.frame;
        assert TableOf(tab, d, v / NP) == t;
      } else {
        if !alloc || free == [] {
          return 0;
        }
        t := free[0];
        ghost var tab2 := WithTable(tab, d, v / NP, t);
        TableStep(tab, dirs, free, d, v / NP, t, tab2);
        FreeUnused(tab, dirs, free, t);
        assert !Uses(tab, dirs, d, Root, t);
        tab := tab[t := Zeros()];
        tab := tab[d := tab[d][v / NP := Present(t, 7)]];
        assert tab == tab2;
        free := free[1..];
      }
    }

    /** mappages for one page: f becomes page v of d. */
    method MapPage(d: nat, v: nat, f: nat, perm: nat) returns (r: int, panics: bool)
      requires Valid() && d in dirs && v < NP * NP && (v < KERN ==> f !in free && Unused(tab, dirs, f))
      modifies `free, `tab
      ensures IsTable(old(tab), d) && IsTable(tab, d) && (panics <==> Lookup(old(tab), d, v).Present?)
      ensures !panics ==>
            r == 0 || (r == -1 && tab == old(tab) && free == old(free) == [] && TableOf(tab, d, v / NP) == 0)
      ensures !panics && r == 0 ==>
            Valid() && SameBut(old(tab), dirs, d, tab) && Remapped(old(tab), d, v, Present(f, OrP(perm)), tab)
      ensures !panics && r == 0 ==>
            forall y: nat :: Pooled(tab, d, free, y) <==> (y == f && v < KERN) || Pooled(old(tab), d, old(free), y)
      ensures !panics && r == 0 ==> |free| == |old(free)| - (if TableOf(old(tab), d, v / NP) == 0 then 1 else 0)
      ensures !panics && r == 0 ==> TableOf(tab, d, v / NP) != 0 && forall j: nat :: j != v / NP ==>
            TableOf(tab, d, j) == TableOf(old(tab), d, j)
      ensures !panics && r == 0 ==> forall y :: y in free ==> y in old(free)
      ensures !panics ==> TablesKept(old(tab), d, tab)
    {
      assert DirOk(tab, d);
      var t := Walk(d, v, true);
      if t == 0 {
        return -1, false;
      }
      assert Lookup(tab, d, v) == tab[t][v % NP];
      if tab[t][v % NP].Present? {
        return 0, true;
      }
      if v < KERN { StillUnused(old(tab), old(free), dirs, d, tab, free, f); }
      ghost var tab1 := tab;
      MapStep(tab, dirs, free, d, v, f, OrP(perm), WithEntry(tab, d, v, Present(f, OrP(perm))));
      tab := tab[t := tab[t][v % NP := Present(f, OrP(perm))]];
      SameButTrans(old(tab), dirs, d, tab1, tab);
      return 0, false;
    }

    /** One page of deallocuvm's loop, in a table that exists. */
    method CutOne(d: nat, v: nat, t: nat)
      requires Valid() && d in dirs && v < KERN && IsTable(tab, d) && t == TableOf(tab, d, v / NP) != 0
            && IsTable(tab, t)
      modifies `free, `tab, `data
      ensures Works(old(tab), old(free), dirs, d, tab, free) && Remapped(old(tab), d, v, Absent, tab)
      ensures forall i: nat :: TableOf(tab, d, i) == TableOf(old(tab), d, i)
      ensures Keeps(old(data), old(free), data, free) && forall x :: x in old(free) ==> x in free
    {
      if tab[t][v % NP].Present? {
        var x := tab[t][v % NP].frame;
        UnmapStep(tab, dirs, free, d, v, x, WithEntry(tab, d, v, Absent));
        assert FrameAt(tab, d, Leaf(v)) == x && InUse(tab, d, x);
        Kfree(x);
        tab := tab[t := tab[t][v % NP := Absent]];
      }
    }

    /** deallocuvm: the pages from newsz up to oldsz go back, table pages stay. */
    method Deallocuvm(d: nat, oldsz: nat, newsz: nat) returns (r: nat)
      requires Valid() && d in dirs && oldsz <= KERNBASE
      modifies `free, `tab, `data
      ensures Works(old(tab), old(free), dirs, d, tab, free) && r == (if newsz >= oldsz then oldsz else newsz)
      ensures IsTable(old(tab), d) && IsTable(tab, d) && forall i: nat :: TableOf(tab, d, i) == TableOf(old(tab), d, i)
      ensures forall w: nat ::
            Lookup(tab, d, w) == if Within(Up(newsz), oldsz, w) then Absent else Lookup(old(tab), d, w)
      ensures Keeps(old(data), old(free), data, free) && forall x :: x in old(free) ==> x in free
    {
      assert DirOk(tab, d);
      if newsz >= oldsz {
        NothingWithin(newsz, oldsz);
        return oldsz;
      }
      var v := Up(newsz);
      ghost var lo := v;
      while v * PGSIZE < oldsz
        invariant Works(old(tab), old(free), dirs, d, tab, free) && CutUpto(old(tab), d, lo, oldsz, v, tab) && lo <= v
        invariant Keeps(old(data), old(free), data, free) && forall x :: x in old(free) ==> x in free
        decreases KERN + NP - v
      {
        var t := Walk(d, v, false);
        if t == 0 {
          SkipTable(old(tab), d, lo, oldsz, v, tab);
          v := (v / NP + 1) * NP - 1;
        } else {
          ghost var tab1, free1 := tab, free;
          CutOne(d, v, t);
          CutMore(old(tab), old(free), dirs, d, lo, oldsz, v, tab1, free1, tab, free);
        }
        v := v + 1;
      }
      return newsz;
    }

    /** A page off the free list with the bytes p becomes page v of d. */
    method GetPage(d: nat, v: nat, p: Page, perm: nat) returns (mem: nat, r: int, panics: bool)
      requires Valid() && d in dirs && v < KERN
      modifies `free, `tab, `data
      ensures IsTable(old(tab), d) && IsTable(tab, d) && (panics <==> mem != 0 && Lookup(old(tab), d, v).Present?)
      ensures mem == 0 ==> old(free) == free == [] && tab == old(tab) && data == old(data) && r == -1
      ensures mem != 0 ==> mem in old(free) && Wrote(old(data), iset{mem}, data)
      ensures mem != 0 && !panics ==> r == 0 || r == -1
      ensures mem != 0 && !panics && r == -1 ==>
            old(free) == [mem] && free == [] && tab == old(tab) && Valid() && Unused(tab, dirs, mem)
      ensures mem != 0 && !panics && r == -1 ==> TableOf(old(tab), d, v / NP) == 0
      ensures mem != 0 && !panics && r == 0 ==>
            Works(old(tab), old(free), dirs, d, tab, free) && Remapped(old(tab), d, v, Present(mem, OrP(perm)), tab)
      ensures mem != 0 && !panics && r == 0 ==> data(mem) == p && (forall y :: y in free ==> y in old(free))
      ensures mem != 0 && !panics && r == 0 ==>
            |free| == |old(free)| - (if TableOf(old(tab), d, v / NP) == 0 then 2 else 1)
      ensures mem != 0 && !panics && r == 0 ==> TableOf(tab, d, v / NP) != 0 && forall j: nat :: j != v / NP ==>
            TableOf(tab, d, j) == TableOf(old(tab), d, j)
      ensures !panics ==> TablesKept(old(tab), d, tab)
    {
      assert DirOk(tab, d);
      mem := Kalloc();
      if mem == 0 {
        return mem, -1, false;
      }
      Fill(mem, p);
      r, panics := MapPage(d, v, mem, perm);
      assert old(free) == [mem] + old(free)[1..];
    }

    /** allocuvm: fresh zeroed pages from oldsz up to newsz, or 0 and none. */
    method Allocuvm(d: nat, oldsz: nat, newsz: nat) returns (r: nat, panics: bool)
      requires Valid() && d in dirs
      modifies `free, `tab, `data
      ensures IsTable(old(tab), d) && IsTable(tab, d)
      ensures panics <==>
            oldsz <= newsz < KERNBASE && exists v: nat :: Hits(old(tab), |old(free)|, d, Up(oldsz), newsz, v)
      ensures !panics && oldsz <= newsz < KERNBASE ==>
            (r == newsz <==> |old(free)| >= GrowNeed(old(tab), d, Up(oldsz), Up(newsz)))
      ensures !panics ==> Works(old(tab), old(free), dirs, d, tab, free) && Keeps(old(data), old(free), data, free)
      ensures !panics && newsz >= KERNBASE ==> r == 0 && tab == old(tab) && free == old(free) && data == old(data)
      ensures !panics && newsz < KERNBASE && newsz < oldsz ==>
            r == oldsz && tab == old(tab) && free == old(free) && data == old(data)
      ensures !panics && oldsz <= newsz < KERNBASE ==> r == newsz || r == 0
      ensures !panics && oldsz <= newsz < KERNBASE && r == newsz && newsz != 0 ==>
                forall w: nat ::
                  if Within(Up(oldsz), newsz, w) then FreshZero(old(free), Lookup(tab, d, w), data)
                  else Lookup(tab, d, w) == Lookup(old(tab), d, w)
      ensures !panics && oldsz <= newsz < KERNBASE && r == 0 ==>
                forall w: nat :: Lookup(tab, d, w) == if Within(Up(oldsz), newsz, w) then Absent
                  else Lookup(old(tab), d, w)
      ensures !panics && oldsz <= newsz < KERNBASE && r == newsz && newsz != 0 ==> Vacant(old(tab), d, Up(oldsz), newsz)
      ensures !panics ==> TablesKept(old(tab), d, tab)
    {
      assert DirOk(tab, d);
      if newsz >= KERNBASE {
        return 0, false;
      }
      if newsz < oldsz {
        return oldsz, false;
      }
      var v := Up(oldsz);
      UpMono(oldsz, newsz);
      GrowingStarts(tab, free, data, dirs, d, v, newsz);
      while v * PGSIZE < newsz
        invariant Growing(old(tab), old(free), old(data), dirs, d, Up(oldsz), newsz, v, tab, free, data)
        decreases Up(newsz) - v
      {
        UpIff(newsz, v);
        var bad;
        bad, panics := GrowPage(d, v, oldsz, newsz, old(tab), old(free), old(data));
        if bad || panics { return 0, panics; }
        v := v + 1;
      }
      UpIff(newsz, v);
      return newsz, false;
    }

    /** One turn of allocuvm's loop; `bad` stands for its two error exits. */
    method GrowPage(d: nat, v: nat, oldsz: nat, newsz: nat, ghost tab0: Tabs, ghost free0: seq<nat>,
                    ghost data0: nat -> Page) returns (bad: bool, panics: bool)
      requires oldsz <= newsz < KERNBASE && d in dirs && v * PGSIZE < newsz && Sound(tab0, dirs, free0)
            && Growing(tab0, free0, data0, dirs, d, Up(oldsz), newsz, v, tab, free, data)
      modifies `free, `tab, `data
      ensures IsTable(tab, d) && (panics ==> Hits(tab0, |free0|, d, Up(oldsz), newsz, v))
      ensures !panics && !bad ==> Growing(tab0, free0, data0, dirs, d, Up(oldsz), newsz, v + 1, tab, free, data)
      ensures !panics && bad ==>
            && Works(tab0, free0, dirs, d, tab, free) && Keeps(data0, free0, data, free) && TablesKept(tab0, d, tab)
            && (forall w: nat :: Lookup(tab, d, w) ==
                  if Within(Up(oldsz), newsz, w) then Absent else Lookup(tab0, d, w))
            && |free0| < GrowNeed(tab0, d, Up(oldsz), Up(newsz))
            && !exists w: nat :: Hits(tab0, |free0|, d, Up(oldsz), newsz, w)
    {
      ghost var lo, tab1, free1, data1 := Up(oldsz), tab, free, data;
      assert DirOk(tab, d);
      var mem, e;
      mem, e, panics := GetPage(d, v, Filled(0), PTE_W_U);
      if panics {
        return true, true;
      }
      if mem == 0 || e < 0 { NoHit(tab0, |free0|, d, lo, newsz, v, tab1, |free1|); }
      if mem == 0 {
        var k := Deallocuvm(d, newsz, oldsz);
        Undone(tab0, free0, dirs, d, lo, newsz, v, tab1, free1, data1, tab, free);
        return true, false;
      }
      if e < 0 {
        var k := Deallocuvm(d, newsz, oldsz);
        StillUnused(tab1, [], dirs, d, tab, free, mem);
        GivenBack(tab, dirs, free, mem);
        Kfree(mem);
        UndoneHolding(tab1, dirs, d, mem, tab, free);
        Undone(tab0, free0, dirs, d, lo, newsz, v, tab1, free1, data1, tab, free);
        return true, false;
      }
      GrowMore(tab0, free0, dirs, d, lo, v, tab1, free1, data1, mem, tab, free, data);
      TookMore(tab0, |free0|, d, lo, v, tab1, |free1|, tab, |free|);
      return false, false;
    }

    /** allocuvm and then deallocuvm between the same sizes: exactly the pages taken are given back, but for tables. If
        allocuvm fails the same holds when nothing was mapped between the sizes. */
    method GrowAndShrink(d: nat, oldsz: nat, newsz: nat) returns (r: nat, panics: bool)
      requires Valid() && d in dirs && oldsz <= newsz < KERNBASE
      modifies `free, `tab, `data
      ensures !panics && (r != 0 || Vacant(old(tab), d, Up(oldsz), newsz)) ==>
            && Works(old(tab), old(free), dirs, d, tab, free) && Restored(old(tab), old(free), d, tab, free)
            && Keeps(old(data), old(free), data, free)
    {
      assert DirOk(tab, d);
      r, panics := Allocuvm(d, oldsz, newsz);
      if panics { return; }
      ghost var tab1 := tab;
      if r != 0 {
        var k := Deallocuvm(d, newsz, oldsz);
        SameButTrans(old(tab), dirs, d, tab1, tab);
      }
      if r != 0 || Vacant(old(tab), d, Up(oldsz), newsz) {
        RestoredPages(old(tab), old(free), dirs, d, tab, free);
      }
    }

    /** freevm: all pages of d go back, user pages, table pages and the directory. */
    method Freevm(d: nat)
      requires Valid() && d in dirs
      modifies `free, `tab, `data, `dirs
      ensures Valid() && dirs == old(dirs) - {d} && SameBut(old(tab), old(dirs), d, tab)
      ensures forall x: nat :: x in free <==> Pooled(old(tab), d, old(free), x)
      ensures Keeps(old(data), old(free), data, free)
    {
      var k := Deallocuvm(d, KERNBASE, 0);
      ghost var free1, tab1, all := free, tab, dirs;
      assert DirOk(tab, d);
      Fewer(tab, dirs, free, d);
      dirs := dirs - {d};
      var i := 0;
      while i < NP
        invariant i <= NP && Valid() && tab == tab1 && dirs == all - {d}
        invariant forall x: nat :: x in free <==> x in free1 || TableBelow(tab, d, i, x)
        invariant Keeps(old(data), old(free), data, free)
      {
        if tab[d][i].Present? {
          var v := tab[d][i].frame;
          TableLoose(tab, all, free1, d, i, free);
          GivenBack(tab, dirs, free, v);
          Kfree(v);
        }
        NextBelow(tab, d, i);
        i := i + 1;
      }
      RootLoose(tab, all, free1, d, free);
      GivenBack(tab, dirs, free, d);
      Kfree(d);
      AllGiven(tab, d, free1, free);
    }

    /** mappages for a range of the kernel's half, which is nobody's memory. */
    method Mappages(d: nat, r: Range) returns (e: int, panics: bool)
      requires Valid() && d in dirs && KERN <= r.v <= r.last < NP * NP
      modifies `free, `tab
      ensures IsTable(old(tab), d) && IsTable(tab, d)
      ensures panics ==> exists w: nat :: Contains(r, w) && Lookup(old(tab), d, w).Present?
      ensures !panics ==> Works(old(tab), old(free), dirs, d, tab, free) && (e == 0 || (e == -1 && free == []))
      ensures !panics && e == 0 ==> MappedUpto(old(tab), d, r, r.last + 1, tab)
      ensures !panics && e < 0 ==>
            exists a: nat :: Contains(r, a) && MappedUpto(old(tab), d, r, a, tab) && TableOf(tab, d, a / NP) == 0
      ensures !panics ==> |free| + |Pdxs(tab, d)| == |old(free)| + |Pdxs(old(tab), d)|
    {
      assert DirOk(tab, d);
      var a := r.v;
      while true
        invariant r.v <= a <= r.last && Works(old(tab), old(free), dirs, d, tab, free)
               && MappedUpto(old(tab), d, r, a, tab)
        invariant |free| + |Pdxs(tab, d)| == |old(free)| + |Pdxs(old(tab), d)|
        decreases r.last - a
      {
        ghost var tab1, free1 := tab, free;
        e, panics := MapPage(d, a, r.f + (a - r.v), r.perm);
        if panics {
          assert Contains(r, a);
          return;
        }
        if e < 0 {
          assert Contains(r, a);
          return;
        }
        OneMore(tab1, d, a / NP, tab);
        SameButTrans(old(tab), dirs, d, tab1, tab);
        MapNext(old(tab), d, r, a, tab1, tab);
        if a == r.last {
          break;
        }
        a := a + 1;
      }
      return 0, false;
    }

    /** setupkvm: a directory with the kernel's ranges and no user page, or 0. */
    method Setupkvm(kmap: seq<Range>) returns (d: nat)
      requires Valid() && KernelMap(kmap)
      modifies `free, `tab, `data, `dirs
      ensures Valid() && (d != 0 <==> |old(free)| > |Covered(kmap, |kmap|)|)
      ensures d == 0 ==> dirs == old(dirs) && SameBut(old(tab), dirs, 0, tab) && Keeps(old(data), old(free), data, free)
      ensures d == 0 ==> forall x: nat :: x in free <==> x in old(free)
      ensures d != 0 ==>
            d !in old(dirs) && dirs == old(dirs) + {d} && SameBut(old(tab), old(dirs), d, tab) && data == old(data)
            && IsTable(tab, d)
      ensures d != 0 ==> forall x: nat :: Pooled(tab, d, free, x) <==> x in old(free)
      ensures d != 0 ==> KernelOnly(kmap, tab, d) && |free| == |old(free)| - 1 - |Covered(kmap, |kmap|)|
    {
      d := NewDirectory();
      if d == 0 {
        assert forall e :: e in dirs ==> DirOk(tab, e);
        return;
      }
      ghost var tab1 := tab;
      NoneCovered(kmap, tab, d);
      var ok := MapKernel(d, kmap);
      if !ok {
        Freevm(d);
        BackAgain(old(tab), old(dirs), d, tab1, tab);
        d := 0;
        return;
      }
      BackAgain(old(tab), old(dirs), d, tab1, tab);
    }

    /** A zeroed page becomes a directory. */
    method NewDirectory() returns (d: nat)
      requires Valid()
      modifies `free, `tab, `dirs
      ensures Valid() && (d == 0 ==> old(free) == free == [] && tab == old(tab) && dirs == old(dirs))
      ensures d != 0 ==>
            d !in old(dirs) && dirs == old(dirs) + {d} && SameBut(old(tab), old(dirs), d, tab) && IsTable(tab, d)
      ensures d != 0 ==> (forall i: nat :: TableOf(tab, d, i) == 0) && (forall v: nat :: Lookup(tab, d, v) == Absent)
      ensures d != 0 ==> |free| == |old(free)| - 1 && forall x: nat :: Pooled(tab, d, free, x) <==> x in old(free)
    {
      d := Kalloc();
      if d != 0 {
        RootAdded(tab, dirs, old(free), d, tab[d := Zeros()]);
        tab, dirs := tab[d := Zeros()], dirs + {d};
      }
    }

    /** The loop of setupkvm over the kernel's ranges. */
    method MapKernel(d: nat, kmap: seq<Range>) returns (ok: bool)
      requires Valid() && KernelMap(kmap) && d in dirs && KernelUpto(kmap, 0, tab, d)
      modifies `free, `tab
      ensures IsTable(tab, d) && Works(old(tab), old(free), dirs, d, tab, free)
           && |free| + |Pdxs(tab, d)| == |old(free)|
      ensures ok ==> KernelOnly(kmap, tab, d)
      ensures !ok ==> free == [] && |Pdxs(tab, d)| < |Covered(kmap, |kmap|)|
    {
      assert DirOk(tab, d);
      var k := 0;
      assert Covered(kmap, 0) == {};
      while k < |kmap|
        invariant k <= |kmap| && KernelUpto(kmap, k, tab, d) && Works(old(tab), old(free), dirs, d, tab, free)
        invariant |free| + |Pdxs(tab, d)| == |old(free)|
      {
        ghost var tab2 := tab;
        var e, panics := Mappages(d, kmap[k]);
        NoRemap(kmap, k, tab2, d);
        SameButTrans(old(tab), dirs, d, tab2, tab);
        if e < 0 {
          NotCovered(kmap, k, tab2, d, tab);
          return false;
        }
        MoreCovered(kmap, k, tab2, d, tab);
        k := k + 1;
      }
      return true;
    }

    /** copyuvm: a new address space with the same bytes and flags below sz, or 0.
        When it fails, every page taken is given back, unless the memory ran out
        just when a table was needed: then one page is lost. */
    method Copyuvm(d0: nat, sz: nat, kmap: seq<Range>) returns (d: nat, panics: bool)
      requires Valid() && d0 in dirs && sz <= KERNBASE && KernelMap(kmap)
      modifies `free, `tab, `data, `dirs
      ensures IsTable(old(tab), d0)
      ensures panics <==> exists v: nat :: Gaps(old(tab), d0, sz, Left(old(free), kmap), v)
      ensures !panics ==> Valid() && (forall x: nat :: x !in old(free) ==> data(x) == old(data)(x))
      ensures !panics ==> (d != 0 <==> Left(old(free), kmap) >= Need(Up(sz)))
      ensures !panics && d != 0 ==>
            d !in old(dirs) && dirs == old(dirs) + {d} && SameBut(old(tab), old(dirs), d, tab) && IsTable(tab, d)
      ensures !panics && d != 0 ==>
            CopiedUpto(old(tab), old(data), old(free), d0, d, Up(sz), tab, data) && Apiece(tab, d)
      ensures !panics && d != 0 ==> forall x: nat :: Pooled(tab, d, free, x) <==> x in old(free)
      ensures !panics && d == 0 ==> dirs == old(dirs) && SameBut(old(tab), dirs, 0, tab)
      ensures !panics && d == 0 && !Leaks(Left(old(free), kmap), Up(sz)) ==>
            forall x: nat :: x in free <==> x in old(free)
      ensures !panics && Leaks(Left(old(free), kmap), Up(sz)) ==>
                d == 0 && exists m :: m in old(free) && forall x: nat :: x in free <==> x in old(free) && x != m
    {
      assert DirOk(tab, d0);
      d := Setupkvm(kmap);
      if d == 0 {
        NoRoom(Left(old(free), kmap), Up(sz));
        assert forall v: nat :: !Gaps(old(tab), d0, sz, Left(old(free), kmap), v);
        return 0, false;
      }
      NoUserTables(kmap, tab, d);
      Fewer(old(tab), old(dirs), old(free), d);
      assert dirs - {d} == old(dirs);
      var bad;
      ghost var left := |free|;
      assert left == Left(old(free), kmap);
      bad, panics := CopyPages(d0, d, sz, old(tab), old(data), old(free), left);
      if bad || panics {
        d := 0;
      } else {
        Pieces(tab, dirs, free, d);
      }
    }

    /** The loop of copyuvm. */
    method CopyPages(d0: nat, d: nat, sz: nat, ghost tab0: Tabs, ghost data0: nat -> Page, ghost free0: seq<nat>,
                     ghost left: nat) returns (bad: bool, panics: bool)
      requires Valid() && d in dirs && d0 in dirs && d0 != d && sz <= KERNBASE && SameBut(tab0, dirs - {d}, d, tab)
            && Sound(tab0, dirs - {d}, free0)
      requires Copying(tab0, data0, free0, d0, d, 0, tab, data, free, left)
      modifies `free, `tab, `data, `dirs
      ensures panics <==> exists v: nat :: Gaps(tab0, d0, sz, left, v)
      ensures !panics ==>
            Valid() && (bad <==> left < Need(Up(sz))) && (forall x: nat :: x !in free0 ==> data(x) == data0(x))
      ensures !panics && !bad ==> dirs == old(dirs) && SameBut(tab0, dirs - {d}, d, tab) && !Leaks(left, Up(sz))
      ensures !panics && !bad ==> Copying(tab0, data0, free0, d0, d, Up(sz), tab, data, free, left)
      ensures !panics && bad ==> dirs == old(dirs) - {d} && SameBut(tab0, dirs, d, tab)
      ensures !panics && bad && !Leaks(left, Up(sz)) ==> forall x: nat :: x in free <==> x in free0
      ensures !panics && bad && Leaks(left, Up(sz)) ==>
            exists m :: m in free0 && forall x: nat :: x in free <==> x in free0 && x != m
    {
      var v := 0;
      while v * PGSIZE < sz
        invariant Valid() && dirs == old(dirs) && SameBut(tab0, dirs - {d}, d, tab) && v <= Up(sz)
        invariant Copying(tab0, data0, free0, d0, d, v, tab, data, free, left) && Mapped(tab0, d0, v)
        decreases Up(sz) - v
      {
        UpIff(sz, v);
        assert SameSpace(tab0, d0, tab);
        var t := Walk(d0, v, false);
        if t == 0 || !tab[t][v % NP].Present? {
          assert Gaps(tab0, d0, sz, left, v);
          return true, true;
        }
        bad := CopyPage(d0, d, v, tab[t][v % NP], tab0, data0, free0, left, Up(sz));
        if bad {
          NoGap(tab0, d0, sz, left, v);
          return true, false;
        }
        v := v + 1;
      }
      UpIff(sz, v);
      NoLeakAtEnd(left, Up(sz));
      NoGapAtEnd(tab0, d0, sz, left);
      return false, false;
    }

    /** One turn of copyuvm's loop; `bad` stands for the jump to its error exit. */
    method CopyPage(d0: nat, d: nat, v: nat, e: Pte, ghost tab0: Tabs, ghost data0: nat -> Page, ghost free0: seq<nat>,
                    ghost left: nat, ghost n: nat)
      returns (bad: bool)
      requires Valid() && d in dirs && d0 in dirs && d0 != d && v < n <= KERN && SameBut(tab0, dirs - {d}, d, tab)
      requires Copying(tab0, data0, free0, d0, d, v, tab, data, free, left) && IsTable(tab0, d0)
            && e == Lookup(tab0, d0, v) && e.Present?
      requires Sound(tab0, dirs - {d}, free0)
      modifies `free, `tab, `data, `dirs
      ensures Valid() && (forall x: nat :: x !in free0 ==> data(x) == data0(x))
      ensures !bad ==>
            dirs == old(dirs) && SameBut(tab0, dirs - {d}, d, tab)
            && Copying(tab0, data0, free0, d0, d, v + 1, tab, data, free, left)
      ensures bad ==> dirs == old(dirs) - {d} && SameBut(tab0, dirs, d, tab) && left < Need(n) && left < Need(v + 1)
      ensures bad && !Leaks(left, n) ==> forall x: nat :: x in free <==> x in free0
      ensures bad && Leaks(left, n) ==> exists m :: m in free0 && forall x: nat :: x in free <==> x in free0 && x != m
    {
      assert UserFrame(tab0, d0, v) && Uses(tab0, dirs - {d}, d0, Leaf(v), e.frame);
      ghost var tab1, free1, data1, dirs1 := tab, free, data, dirs;
      var mem, r, panics := GetPage(d, v, data(e.frame), e.flags);
      if mem == 0 {
        NeedGrows(v, n);
        NeedGrows(v, v + 1);
        NoLeakAtPage(left, n, v);
        Freevm(d);
        return true;
      }
      if r < 0 {
        OutOfTables(tab1, d, v, left, n);
        Freevm(d);
        NotUsed(tab1, dirs1, d, mem);
        OneLost(tab1, d, free0, mem, free);
        return true;
      }
      CopyMore(tab0, data0, free0, d0, d, v, dirs, tab1, data1, free1, tab, data, free, left, mem);
      return false;
    }
  }

  /** The pages that remain for user memory once the kernel's half has been set up. */
  function Left(free: seq<nat>, kmap: seq<Range>): int {
    |free| - 1 - |Covered(kmap, |kmap|)|
  }

  /** The same bytes and flags, on a page off the free list. */
  predicate CopyOf(free: seq<nat>, e: Pte, data: nat -> Page, e2: Pte, data2: nat -> Page) {
    e.Present? && e2.Present? && e2.flags == e.flags && e2.frame in free && data2(e2.frame) == data(e.frame)
  }

  /** The pages of d0 below v are copied to d, which has no other user page. */
  ghost predicate CopiedUpto(tab: Tabs, data: nat -> Page, free: seq<nat>, d0: nat, d: nat, v: nat, tab2: Tabs,
                      data2: nat -> Page) {
    && IsTable(tab, d0) && IsTable(tab2, d)
    && (forall w: nat :: w < v && w < KERN ==> CopyOf(free, Lookup(tab, d0, w), data, Lookup(tab2, d, w), data2))
    && (forall w: nat :: v <= w < KERN ==> Lookup(tab2, d, w) == Absent)
  }

  /** Different user pages lie on different frames. */
  ghost predicate Apiece(tab: Tabs, d: nat) {
    IsTable(tab, d) && forall v: nat, w: nat ::
      v < w < KERN && Lookup(tab, d, v).Present? && Lookup(tab, d, w).Present? ==>
      Lookup(tab, d, v).frame != Lookup(tab, d, w).frame
  }

  lemma Pieces(tab: Tabs, dirs: set<nat>, free: seq<nat>, d: nat)
    requires Sound(tab, dirs, free) && d in dirs
    ensures Apiece(tab, d)
  {
    assert DirOk(tab, d);
    forall v: nat, w: nat | v < w < KERN && Lookup(tab, d, v).Present? && Lookup(tab, d, w).Present?
      ensures Lookup(tab, d, v).frame != Lookup(tab, d, w).frame
    {
      var x, y := Lookup(tab, d, v).frame, Lookup(tab, d, w).frame;
      assert UserFrame(tab, d, v) && UserFrame(tab, d, w);
      assert Uses(tab, dirs, d, Leaf(v), x) && Uses(tab, dirs, d, Leaf(w), y);
    }
  }

  ghost predicate Copying(tab: Tabs, data: nat -> Page, free: seq<nat>, d0: nat, d: nat, v: nat, tab2: Tabs,
                      data2: nat -> Page, free2: seq<nat>, left: nat) {
    && CopiedUpto(tab, data, free, d0, d, v, tab2, data2)
    && (forall x: nat :: Pooled(tab2, d, free2, x) <==> x in free)
    && (forall x: nat :: x !in free ==> data2(x) == data(x))
    && |free2| + Need(v) == left
    && (forall i: nat :: i < KERN / NP ==> (TableOf(tab2, d, i) != 0 <==> i < Tables(v)))
  }

  lemma UpIff(sz: nat, v: nat)
    ensures v < Up(sz) <==> v * PGSIZE < sz
    ensures sz <= KERNBASE ==> Up(sz) <= KERN
  {}

  /** The smallest case: a process of one page, and one page left behind the kernel's
      tables.  It is taken for the child's bytes, and no table can be had for it. */
  lemma CopyLeaks(free: seq<nat>, kmap: seq<Range>)
    requires |free| == |Covered(kmap, |kmap|)| + 2
    ensures Leaks(Left(free, kmap), Up(PGSIZE))
  {
    assert LeaksAt(Left(free, kmap), Up(PGSIZE), 0);
  }

  lemma NoRoom(left: int, n: nat)
    requires left < 0
    ensures left < Need(n) && !Leaks(left, n)
  {}

  lemma NoUserTables(kmap: seq<Range>, tab: Tabs, d: nat)
    requires KernelMap(kmap) && KernelOnly(kmap, tab, d)
    ensures forall i: nat :: i < KERN / NP ==> TableOf(tab, d, i) == 0
  {
    forall i: nat | i < KERN / NP ensures TableOf(tab, d, i) == 0 {
      assert i in Pdxs(tab, d) <==> i in Covered(kmap, |kmap|);
      assert !Touched(kmap, |kmap|, i);
    }
  }

  ghost predicate Mapped(tab: Tabs, d: nat, v: nat) {
    IsTable(tab, d) && forall w: nat :: w < v ==> Lookup(tab, d, w).Present?
  }

  /** With `left` pages after setupkvm, copying comes to page v, which is not mapped. */
  ghost predicate Gaps(tab: Tabs, d: nat, sz: nat, left: int, v: nat) {
    Mapped(tab, d, v) && v * PGSIZE < sz && Lookup(tab, d, v) == Absent && left >= Need(v)
  }

  lemma NoGapAtEnd(tab: Tabs, d: nat, sz: nat, left: int)
    requires Mapped(tab, d, Up(sz))
    ensures !exists w: nat :: Gaps(tab, d, sz, left, w)
  {
    forall w: nat ensures !Gaps(tab, d, sz, left, w) { UpIff(sz, w); }
  }

  lemma NoGap(tab: Tabs, d: nat, sz: nat, left: int, v: nat)
    requires Mapped(tab, d, v + 1) && left < Need(v + 1)
    ensures !exists w: nat :: Gaps(tab, d, sz, left, w)
  {
    forall w: nat ensures !Gaps(tab, d, sz, left, w) {
      if w > v { NeedGrows(v + 1, w); }
    }
  }

  lemma OutOfTables(tab: Tabs, d: nat, v: nat, left: nat, n: nat)
    requires IsTable(tab, d) && v < n <= KERN && left == Need(v) + 1 && TableOf(tab, d, v / NP) == 0
    requires forall i: nat :: i < KERN / NP ==> (TableOf(tab, d, i) != 0 <==> i < Tables(v))
    ensures left < Need(v + 1) && left < Need(n) && Leaks(left, n)
  {
    TablesNext(v);
    NeedGrows(v, n);
    LeakAtTable(left, n, v);
  }

  lemma NotUsed(tab: Tabs, dirs: set<nat>, d: nat, mem: nat)
    requires Unused(tab, dirs, mem) && d in dirs && IsTable(tab, d)
    ensures !InUse(tab, d, mem)
  {
    if InUse(tab, d, mem) {
      var p :| FrameAt(tab, d, p) == mem;
      assert Uses(tab, dirs, d, p, mem);
    }
  }

  lemma OneLost(tab: Tabs, d: nat, free0: seq<nat>, mem: nat, free: seq<nat>)
    requires (forall x: nat :: Pooled(tab, d, [mem], x) <==> x in free0)
          && (forall x: nat :: x in free <==> Pooled(tab, d, [], x))
    requires IsTable(tab, d) && !InUse(tab, d, mem)
    ensures exists m :: m in free0 && forall x: nat :: x in free <==> x in free0 && x != m
  {
    assert Pooled(tab, d, [mem], mem);
    forall x: nat ensures x in free <==> x in free0 && x != mem {
      assert Pooled(tab, d, [mem], x) <==> x == mem || Pooled(tab, d, [], x);
    }
  }

  lemma CopyMore(tab0: Tabs, data0: nat -> Page, free0: seq<nat>, d0: nat, d: nat, v: nat, dirs: set<nat>, tab1: Tabs,
                 data1: nat -> Page, free1: seq<nat>,
                 tab2: Tabs, data2: nat -> Page, free2: seq<nat>, left: nat, mem: nat)
    requires Sound(tab1, dirs, free1) && d in dirs && d0 in dirs && d0 != d && v < KERN
          && SameBut(tab0, dirs - {d}, d, tab1)
    requires Copying(tab0, data0, free0, d0, d, v, tab1, data1, free1, left) && Lookup(tab0, d0, v).Present?
    requires mem in free1 && Works(tab1, free1, dirs, d, tab2, free2)
          && Remapped(tab1, d, v, Present(mem, Lookup(tab0, d0, v).flags), tab2)
    requires data2(mem) == data1(Lookup(tab0, d0, v).frame)
          && data1(Lookup(tab0, d0, v).frame) == data0(Lookup(tab0, d0, v).frame)
    requires Wrote(data1, iset{mem}, data2)
    requires |free2| == |free1| - (if TableOf(tab1, d, v / NP) == 0 then 2 else 1)
    requires TableOf(tab2, d, v / NP) != 0 && forall j: nat :: j != v / NP ==>
          TableOf(tab2, d, j) == TableOf(tab1, d, j)
    ensures SameBut(tab0, dirs - {d}, d, tab2) && Copying(tab0, data0, free0, d0, d, v + 1, tab2, data2, free2, left)
  {
    TablesNext(v);
    SameButTrans(tab0, dirs - {d}, d, tab1, tab2);
    assert Pooled(tab1, d, free1, mem);
    forall w: nat | w < v ensures CopyOf(free0, Lookup(tab0, d0, w), data0, Lookup(tab2, d, w), data2) {
      assert CopyOf(free0, Lookup(tab0, d0, w), data0, Lookup(tab1, d, w), data1) && UserFrame(tab1, d, w);
      assert Uses(tab1, dirs, d, Leaf(w), Lookup(tab1, d, w).frame);
    }
  }

  /** What d finds after the pages of the range below a have been mapped, and the tables it then has. */
  ghost predicate MappedUpto(tab: Tabs, d: nat, r: Range, a: nat, tab2: Tabs) {
    && IsTable(tab, d) && IsTable(tab2, d)
    && (forall w: nat ::
         Lookup(tab2, d, w) == if r.v <= w < a then Present(r.f + (w - r.v), OrP(r.perm)) else Lookup(tab, d, w))
    && (forall i: nat ::
         TableOf(tab2, d, i) != 0 <==> TableOf(tab, d, i) != 0 || (r.v < a && r.v / NP <= i <= (a - 1) / NP))
  }

  lemma MapNext(tab: Tabs, d: nat, r: Range, a: nat, tab1: Tabs, tab2: Tabs)
    requires r.v <= a && MappedUpto(tab, d, r, a, tab1)
          && Remapped(tab1, d, a, Present(r.f + (a - r.v), OrP(r.perm)), tab2)
    requires TableOf(tab2, d, a / NP) != 0 && forall j: nat :: j != a / NP ==>
          TableOf(tab2, d, j) == TableOf(tab1, d, j)
    ensures MappedUpto(tab, d, r, a + 1, tab2)
  {
    assert a > r.v ==> a / NP == (a - 1) / NP || a / NP == (a - 1) / NP + 1;
  }

  /** d maps the first k ranges and nothing else. */
  ghost predicate KernelUpto(kmap: seq<Range>, k: nat, tab: Tabs, d: nat) {
    && IsTable(tab, d) && k <= |kmap| && Pdxs(tab, d) == Covered(kmap, k)
    && (forall w: nat :: w < KERN ==> Lookup(tab, d, w) == Absent)
    && (forall j, w: nat :: 0 <= j < k && Contains(kmap[j], w) ==>
         Lookup(tab, d, w) == Present(kmap[j].f + (w - kmap[j].v), OrP(kmap[j].perm)))
    && (forall w: nat :: Lookup(tab, d, w).Present? ==> exists j | 0 <= j < k :: Contains(kmap[j], w))
  }

  ghost predicate KernelOnly(kmap: seq<Range>, tab: Tabs, d: nat) {
    KernelUpto(kmap, |kmap|, tab, d)
  }

  lemma NoneCovered(kmap: seq<Range>, tab: Tabs, d: nat)
    requires IsTable(tab, d) && (forall i: nat :: TableOf(tab, d, i) == 0)
          && (forall v: nat :: Lookup(tab, d, v) == Absent)
    ensures KernelUpto(kmap, 0, tab, d)
  {
    assert Pdxs(tab, d) == {} == Covered(kmap, 0);
  }

  lemma NoRemap(kmap: seq<Range>, k: nat, tab: Tabs, d: nat)
    requires KernelMap(kmap) && k < |kmap| && KernelUpto(kmap, k, tab, d)
    ensures !exists w: nat :: Contains(kmap[k], w) && Lookup(tab, d, w).Present?
  {
    forall w: nat | Contains(kmap[k], w) ensures !Lookup(tab, d, w).Present? {
      assert forall j | 0 <= j < k :: !(Contains(kmap[j], w) && Contains(kmap[k], w));
    }
  }

  lemma MoreCovered(kmap: seq<Range>, k: nat, tab1: Tabs, d: nat, tab2: Tabs)
    requires KernelMap(kmap) && k < |kmap| && KernelUpto(kmap, k, tab1, d)
          && MappedUpto(tab1, d, kmap[k], kmap[k].last + 1, tab2)
    ensures KernelUpto(kmap, k + 1, tab2, d)
  {
    CoveredNext(kmap, k, tab1, d, tab2);
    forall j, w: nat | 0 <= j < k + 1 && Contains(kmap[j], w)
      ensures Lookup(tab2, d, w) == Present(kmap[j].f + (w - kmap[j].v), OrP(kmap[j].perm))
    {
      assert j < k ==> !(Contains(kmap[j], w) && Contains(kmap[k], w));
    }
    forall w: nat | Lookup(tab2, d, w).Present? ensures exists j | 0 <= j < k + 1 :: Contains(kmap[j], w) {
      if !Contains(kmap[k], w) { assert Lookup(tab1, d, w).Present?; }
    }
  }

  lemma CoveredNext(kmap: seq<Range>, k: nat, tab1: Tabs, d: nat, tab2: Tabs)
    requires k < |kmap| && kmap[k].v <= kmap[k].last && IsTable(tab1, d) && Pdxs(tab1, d) == Covered(kmap, k)
    requires MappedUpto(tab1, d, kmap[k], kmap[k].last + 1, tab2)
    ensures Pdxs(tab2, d) == Covered(kmap, k + 1)
  {
    forall i: nat ensures i in Pdxs(tab2, d) <==> i in Covered(kmap, k + 1) {
      assert i < NP ==> (i in Pdxs(tab1, d) <==> Touched(kmap, k, i));
      assert Touched(kmap, k + 1, i) <==> Touched(kmap, k, i) || Touches(kmap[k], i);
    }
  }

  /** Where mappages stopped, a table that the kernel's map needs is missing. */
  lemma NotCovered(kmap: seq<Range>, k: nat, tab1: Tabs, d: nat, tab2: Tabs)
    requires KernelMap(kmap) && k < |kmap| && KernelUpto(kmap, k, tab1, d)
    requires exists a: nat ::
          Contains(kmap[k], a) && MappedUpto(tab1, d, kmap[k], a, tab2) && TableOf(tab2, d, a / NP) == 0
    ensures IsTable(tab2, d) && |Pdxs(tab2, d)| < |Covered(kmap, |kmap|)|
  {
    var a: nat :| Contains(kmap[k], a) && MappedUpto(tab1, d, kmap[k], a, tab2) && TableOf(tab2, d, a / NP) == 0;
    forall i: nat | i in Pdxs(tab2, d) ensures i in Covered(kmap, |kmap|) {
      assert i in Pdxs(tab1, d) ==> Touched(kmap, k, i);
      assert i !in Pdxs(tab1, d) ==> Touches(kmap[k], i);
    }
    assert Touches(kmap[k], a / NP) && Touched(kmap, |kmap|, a / NP);
    assert a / NP in Covered(kmap, |kmap|) && a / NP !in Pdxs(tab2, d);
    SmallerSet(Pdxs(tab2, d), Covered(kmap, |kmap|));
  }

  /** The spaces that were there before are the same through the making of a new one. */
  lemma BackAgain(tab: Tabs, dirs: set<nat>, d: nat, tab1: Tabs, tab2: Tabs)
    requires d !in dirs && SameBut(tab, dirs, d, tab1) && SameBut(tab1, dirs + {d}, d, tab2)
    ensures SameBut(tab, dirs, d, tab2) && SameBut(tab, dirs - {0}, 0, tab2)
  {
    forall e | e in dirs ensures SameSpace(tab, e, tab2) { assert SameSpace(tab, e, tab1) && SameSpace(tab1, e, tab2); }
  }

  /** x is one of the first i table pages of d. */
  ghost predicate TableBelow(tab: Tabs, d: nat, i: nat, x: nat) {
    IsTable(tab, d) && x != 0 && exists j: nat :: j < i && TableOf(tab, d, j) == x
  }

  lemma Fewer(tab: Tabs, dirs: set<nat>, free: seq<nat>, d: nat)
    requires Sound(tab, dirs, free)
    ensures Sound(tab, dirs - {d}, free)
  {
    assert forall e, p, x: nat :: Uses(tab, dirs - {d}, e, p, x) ==> Uses(tab, dirs, e, p, x);
  }

  lemma NextBelow(tab: Tabs, d: nat, i: nat)
    requires IsTable(tab, d)
    ensures forall x: nat ::
          TableBelow(tab, d, i + 1, x) <==> TableBelow(tab, d, i, x) || (x == TableOf(tab, d, i) && x != 0)
  {
    assert TableOf(tab, d, i) != 0 ==> TableBelow(tab, d, i + 1, TableOf(tab, d, i));
  }

  /** With d gone, its next table page is nobody's. */
  lemma TableLoose(tab: Tabs, dirs: set<nat>, free1: seq<nat>, d: nat, i: nat, free: seq<nat>)
    requires Own(tab, dirs, free1) && d in dirs && i < NP && TableOf(tab, d, i) != 0
    requires forall x: nat :: x in free <==> x in free1 || TableBelow(tab, d, i, x)
    ensures TableOf(tab, d, i) !in free && Unused(tab, dirs - {d}, TableOf(tab, d, i))
  {
    var t := TableOf(tab, d, i);
    assert Uses(tab, dirs, d, Tab(i), t);
    assert forall e, p :: Uses(tab, dirs - {d}, e, p, t) ==> Uses(tab, dirs, e, p, t);
    assert forall j: nat :: j < i && TableOf(tab, d, j) == t ==> Uses(tab, dirs, d, Tab(j), t);
  }

  lemma RootLoose(tab: Tabs, dirs: set<nat>, free1: seq<nat>, d: nat, free: seq<nat>)
    requires Own(tab, dirs, free1) && d in dirs
    requires forall x: nat :: x in free <==> x in free1 || TableBelow(tab, d, NP, x)
    ensures d !in free && Unused(tab, dirs - {d}, d)
  {
    assert DirOk(tab, d) && Uses(tab, dirs, d, Root, d);
    assert forall e, p :: Uses(tab, dirs - {d}, e, p, d) ==> Uses(tab, dirs, e, p, d);
    assert forall j: nat :: TableOf(tab, d, j) == d ==> Uses(tab, dirs, d, Tab(j), d);
  }

  /** Without user pages an address space is its directory and its tables. */
  lemma AllGiven(tab: Tabs, d: nat, free1: seq<nat>, free: seq<nat>)
    requires IsTable(tab, d) && d != 0 && forall w: nat :: w < KERN ==> Lookup(tab, d, w) == Absent
    requires forall x: nat :: x in free <==> x in free1 || TableBelow(tab, d, NP, x) || x == d
    ensures forall x: nat :: x in free <==> Pooled(tab, d, free1, x)
  {
    forall x: nat ensures x in free <==> Pooled(tab, d, free1, x) {
      if InUse(tab, d, x) {
        var p :| FrameAt(tab, d, p) == x;
        assert p.Tab? ==> p.i < NP;
      }
      if TableBelow(tab, d, NP, x) {
        var j: nat :| j < NP && TableOf(tab, d, j) == x;
        assert FrameAt(tab, d, Tab(j)) == x;
      }
      if x == d { assert FrameAt(tab, d, Root) == x; }
    }
  }

  /** Taking the new pages out again leaves what was there before. */
  lemma Undone(tab: Tabs, free: seq<nat>, dirs: set<nat>, d: nat, lo: nat, sz: nat, v: nat, tab1: Tabs,
               free1: seq<nat>, data1: nat -> Page, tab2: Tabs, free2: seq<nat>)
    requires Works(tab, free, dirs, d, tab1, free1) && GrownUpto(tab, free, d, lo, v, tab1, data1) && Within(lo, sz, v)
          && Works(tab1, free1, dirs, d, tab2, free2)
    requires IsTable(tab2, d)
          && forall w: nat :: Lookup(tab2, d, w) == if Within(lo, sz, w) then Absent else Lookup(tab1, d, w)
    ensures Works(tab, free, dirs, d, tab2, free2)
    ensures forall w: nat :: Lookup(tab2, d, w) == if Within(lo, sz, w) then Absent else Lookup(tab, d, w)
  {
    SameButTrans(tab, dirs, d, tab1, tab2);
  }

  lemma UndoneHolding(tab: Tabs, dirs: set<nat>, d: nat, mem: nat, tab2: Tabs, free2: seq<nat>)
    requires |free2| >= 1 && free2[0] == mem && Sound(tab2, dirs, free2) && SameBut(tab, dirs, d, tab2)
          && Conserves(tab, d, [], tab2, free2[1..])
    ensures Works(tab, [mem], dirs, d, tab2, free2)
  {
    forall x: nat ensures Pooled(tab2, d, free2, x) <==> Pooled(tab, d, [mem], x) {
      assert Pooled(tab2, d, free2[1..], x) <==> Pooled(tab, d, [], x);
      assert free2 == [mem] + free2[1..];
    }
  }

  lemma NothingWithin(newsz: nat, oldsz: nat)
    requires newsz >= oldsz
    ensures forall w: nat :: !Within(Up(newsz), oldsz, w)
  {}

  /** Without a table none of its pages is mapped. */
  lemma SkipTable(tab: Tabs, d: nat, lo: nat, sz: nat, v: nat, tab2: Tabs)
    requires CutUpto(tab, d, lo, sz, v, tab2) && TableOf(tab2, d, v / NP) == 0
    ensures CutUpto(tab, d, lo, sz, (v / NP + 1) * NP, tab2)
  {
    forall w: nat | v <= w < (v / NP + 1) * NP ensures Lookup(tab, d, w) == Absent { assert w / NP == v / NP; }
  }

  lemma CutMore(tab: Tabs, free: seq<nat>, dirs: set<nat>, d: nat, lo: nat, sz: nat, v: nat, tab1: Tabs,
                free1: seq<nat>, tab2: Tabs, free2: seq<nat>)
    requires CutUpto(tab, d, lo, sz, v, tab1) && Within(lo, sz, v) && Remapped(tab1, d, v, Absent, tab2)
    requires forall i: nat :: TableOf(tab2, d, i) == TableOf(tab1, d, i)
    requires Works(tab, free, dirs, d, tab1, free1) && Works(tab1, free1, dirs, d, tab2, free2)
    ensures CutUpto(tab, d, lo, sz, v + 1, tab2) && Works(tab, free, dirs, d, tab2, free2)
  {
    SameButTrans(tab, dirs, d, tab1, tab2);
  }

  /** A page in hand, neither free nor used, stays so while d is worked on. */
  lemma StillUnused(tab: Tabs, free: seq<nat>, dirs: set<nat>, d: nat, tab2: Tabs, free2: seq<nat>, f: nat)
    requires Sound(tab, dirs, free) && d in dirs && Works(tab, free, dirs, d, tab2, free2) && f !in free
          && Unused(tab, dirs, f)
    ensures f !in free2 && Unused(tab2, dirs, f)
  {
    assert !Pooled(tab, d, free, f) by {
      if IsTable(tab, d) && InUse(tab, d, f) {
        var p :| FrameAt(tab, d, p) == f;
        assert Uses(tab, dirs, d, p, f);
      }
    }
    assert !Pooled(tab2, d, free2, f);
    forall e, q ensures !Uses(tab2, dirs, e, q, f) {
      if e in dirs && e != d {
        assert SameSpace(tab, e, tab2);
        assert FrameAt(tab2, e, q) == FrameAt(tab, e, q) && !Uses(tab, dirs, e, q, f);
      }
    }
  }

  lemma GivenBack(tab: Tabs, dirs: set<nat>, free: seq<nat>, f: nat)
    requires Sound(tab, dirs, free) && f !in free && Unused(tab, dirs, f)
    ensures Sound(tab, dirs, [f] + free)
  {}

  /** Directory entries that name a table go on naming it. */
  ghost predicate TablesKept(tab: Tabs, d: nat, tab2: Tabs) {
    && IsTable(tab, d) && IsTable(tab2, d)
    && forall i: nat :: TableOf(tab, d, i) != 0 ==> TableOf(tab2, d, i) == TableOf(tab, d, i)
  }

  ghost predicate VacantUpto(tab: Tabs, d: nat, lo: nat, v: nat) {
    IsTable(tab, d) && forall w: nat :: lo <= w < v ==> Lookup(tab, d, w) == Absent
  }

  ghost predicate Vacant(tab: Tabs, d: nat, lo: nat, sz: nat) {
    IsTable(tab, d) && forall w: nat :: Within(lo, sz, w) ==> Lookup(tab, d, w) == Absent
  }

  /** allocuvm has got to page v. */
  ghost predicate Growing(tab0: Tabs, free0: seq<nat>, data0: nat -> Page, dirs: set<nat>, d: nat, lo: nat, sz: nat,
                          v: nat, tab: Tabs, free: seq<nat>, data: nat -> Page) {
    && Works(tab0, free0, dirs, d, tab, free) && GrownUpto(tab0, free0, d, lo, v, tab, data)
    && lo <= v <= Up(sz) && VacantUpto(tab0, d, lo, v) && TablesKept(tab0, d, tab)
    && Took(tab0, |free0|, d, lo, v, tab, |free|)
    && Keeps(data0, free0, data, free) && forall y :: y in free ==> y in free0
  }

  lemma GrowingStarts(tab: Tabs, free: seq<nat>, data: nat -> Page, dirs: set<nat>, d: nat, lo: nat, sz: nat)
    requires Sound(tab, dirs, free) && d in dirs && lo <= Up(sz)
    ensures Growing(tab, free, data, dirs, d, lo, sz, lo, tab, free, data)
  {
    assert DirOk(tab, d);
    assert Untabled(tab, d, lo, lo) == {};
  }

  lemma UpMono(a: nat, b: nat)
    requires a <= b
    ensures Up(a) <= Up(b)
  {
  }

  /** With n free pages, growing d from page lo on comes to page v, which is mapped. */
  ghost predicate Hits(tab: Tabs, n: nat, d: nat, lo: nat, sz: nat, v: nat) {
    && Within(lo, sz, v) && VacantUpto(tab, d, lo, v) && Lookup(tab, d, v).Present?
    && n > GrowNeed(tab, d, lo, v)
  }

  /** It does not come to one when the pages run out first. */
  lemma NoHit(tab0: Tabs, n0: nat, d: nat, lo: nat, sz: nat, v: nat, tab: Tabs, n: nat)
    requires Took(tab0, n0, d, lo, v, tab, n) && VacantUpto(tab0, d, lo, v) && Within(lo, sz, v) && sz < KERNBASE
    requires n == 0 || (n == 1 && TableOf(tab, d, v / NP) == 0)
    ensures n0 < GrowNeed(tab0, d, lo, Up(sz)) && !exists w: nat :: Hits(tab0, n0, d, lo, sz, w)
  {
    RunsShort(tab0, n0, d, lo, v, tab, n, Up(sz));
    forall w: nat ensures !Hits(tab0, n0, d, lo, sz, w) {
      if Within(lo, sz, w) && w > v { GrowGrows(tab0, d, lo, v + 1, w); }
    }
  }

  /** x is a table page of d that was not there before. */
  ghost predicate NewTable(tab: Tabs, d: nat, tab2: Tabs, x: nat) {
    IsTable(tab, d) && IsTable(tab2, d) && exists i: nat :: TableOf(tab2, d, i) == x != 0 == TableOf(tab, d, i)
  }

  /** d finds all pages as before, and the pages that were free are free, but for new table pages of d. */
  ghost predicate Restored(tab: Tabs, free: seq<nat>, d: nat, tab2: Tabs, free2: seq<nat>) {
    && IsTable(tab, d) && IsTable(tab2, d) && (forall w: nat :: Lookup(tab2, d, w) == Lookup(tab, d, w))
    && forall x: nat :: x in free <==> x in free2 || NewTable(tab, d, tab2, x)
  }

  lemma PlaceKept(tab: Tabs, d: nat, tab2: Tabs, p: Place)
    requires TablesKept(tab, d, tab2) && (forall w: nat :: Lookup(tab2, d, w) == Lookup(tab, d, w))
    ensures FrameAt(tab, d, p) != 0 ==> FrameAt(tab2, d, p) == FrameAt(tab, d, p)
    ensures FrameAt(tab, d, p) == 0 != FrameAt(tab2, d, p) ==> NewTable(tab, d, tab2, FrameAt(tab2, d, p))
  {
  }

  /** A page in use has its place still, so it is not free, nor a new table. */
  lemma PlaceStays(tab: Tabs, free: seq<nat>, dirs: set<nat>, d: nat, tab2: Tabs, free2: seq<nat>, p: Place, x: nat)
    requires Works(tab, free, dirs, d, tab2, free2) && d in dirs && TablesKept(tab, d, tab2)
    requires (forall w: nat :: Lookup(tab2, d, w) == Lookup(tab, d, w)) && FrameAt(tab, d, p) == x != 0
    ensures x !in free2 && !NewTable(tab, d, tab2, x)
  {
    PlaceKept(tab, d, tab2, p);
    assert Uses(tab2, dirs, d, p, x);
    forall i: nat | TableOf(tab2, d, i) == x ensures TableOf(tab, d, i) != 0 {
      assert Uses(tab2, dirs, d, Tab(i), x);
    }
  }

  lemma UsedStays(tab: Tabs, free: seq<nat>, dirs: set<nat>, d: nat, tab2: Tabs, free2: seq<nat>, x: nat)
    requires Works(tab, free, dirs, d, tab2, free2) && Sound(tab, dirs, free) && d in dirs && TablesKept(tab, d, tab2)
    requires forall w: nat :: Lookup(tab2, d, w) == Lookup(tab, d, w)
    requires x !in free
    ensures x !in free2 && !NewTable(tab, d, tab2, x)
  {
    if Pooled(tab, d, free, x) {
      var p :| FrameAt(tab, d, p) == x;
      PlaceStays(tab, free, dirs, d, tab2, free2, p, x);
    } else {
      assert !Pooled(tab2, d, free2, x);
      forall i: nat
        ensures TableOf(tab2, d, i) == x ==> x == 0
      {
        assert FrameAt(tab2, d, Tab(i)) == TableOf(tab2, d, i);
      }
    }
  }

  lemma FreeStays(tab: Tabs, free: seq<nat>, dirs: set<nat>, d: nat, tab2: Tabs, free2: seq<nat>, x: nat)
    requires Works(tab, free, dirs, d, tab2, free2) && Sound(tab, dirs, free) && d in dirs && TablesKept(tab, d, tab2)
    requires forall w: nat :: Lookup(tab2, d, w) == Lookup(tab, d, w)
    requires x in free
    ensures x in free2 || NewTable(tab, d, tab2, x)
  {
    assert Pooled(tab, d, free, x) && Pooled(tab2, d, free2, x);
    if x !in free2 {
      var p :| FrameAt(tab2, d, p) == x;
      PlaceKept(tab, d, tab2, p);
      if FrameAt(tab, d, p) != 0 { assert Uses(tab, dirs, d, p, x); }
    }
  }

  /** Pages conserved, tables and translations kept: exactly the pages taken are back. */
  lemma RestoredPages(tab: Tabs, free: seq<nat>, dirs: set<nat>, d: nat, tab2: Tabs, free2: seq<nat>)
    requires Works(tab, free, dirs, d, tab2, free2) && Sound(tab, dirs, free) && d in dirs && TablesKept(tab, d, tab2)
    requires forall w: nat :: Lookup(tab2, d, w) == Lookup(tab, d, w)
    ensures Restored(tab, free, d, tab2, free2)
  {
    forall x: nat ensures x in free <==> x in free2 || NewTable(tab, d, tab2, x) {
      if x in free {
        FreeStays(tab, free, dirs, d, tab2, free2, x);
      } else {
        UsedStays(tab, free, dirs, d, tab2, free2, x);
      }
    }
  }

  /** What d finds after the pages from lo up to v have been added. */
  ghost predicate GrownUpto(tab: Tabs, free: seq<nat>, d: nat, lo: nat, v: nat, tab2: Tabs, data2: nat -> Page) {
    && IsTable(tab, d) && IsTable(tab2, d)
    && forall w: nat :: if lo <= w < v then FreshZero(free, Lookup(tab2, d, w), data2)
         else Lookup(tab2, d, w) == Lookup(tab, d, w)
  }

  /** A page from the free list, zeroed and open to the user. */
  predicate FreshZero(free: seq<nat>, e: Pte, data: nat -> Page) {
    e.Present? && e.frame in free && e.flags == 7 && AllBytes(data(e.frame), 0)
  }

  lemma GrowMore(tab: Tabs, free: seq<nat>, dirs: set<nat>, d: nat, lo: nat, v: nat, tab1: Tabs, free1: seq<nat>,
                 data1: nat -> Page, mem: nat,
                 tab2: Tabs, free2: seq<nat>, data2: nat -> Page)
    requires GrownUpto(tab, free, d, lo, v, tab1, data1) && lo <= v < KERN && d in dirs
          && Works(tab, free, dirs, d, tab1, free1) && Works(tab1, free1, dirs, d, tab2, free2)
    requires Remapped(tab1, d, v, Present(mem, 7), tab2) && mem in free1 && mem in free && AllBytes(data2(mem), 0)
          && Wrote(data1, iset{mem}, data2)
    requires forall y :: y in free2 ==> y in free1
    ensures GrownUpto(tab, free, d, lo, v + 1, tab2, data2) && Works(tab, free, dirs, d, tab2, free2)
  {
    SameButTrans(tab, dirs, d, tab1, tab2);
    forall w: nat | lo <= w < v ensures FreshZero(free, Lookup(tab2, d, w), data2) {
      assert FreshZero(free, Lookup(tab1, d, w), data1) && UserFrame(tab1, d, w);
      assert Uses(tab1, dirs, d, Leaf(w), Lookup(tab1, d, w).frame);
    }
  }
}
