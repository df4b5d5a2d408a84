/**
 * How many pages allocuvm and copyuvm need, and when copyuvm loses one (vm.c).
 */
module PageCounts {
  import opened PageTables

  /** A range of pages setupkvm maps: pages v to last, from frame f on. */
  datatype Range = Range(v: nat, last: nat, f: nat, perm: nat)

  predicate Contains(r: Range, w: nat) {
    r.v <= w <= r.last
  }

  ghost predicate KernelMap(kmap: seq<Range>) {
    && (forall k :: 0 <= k < |kmap| ==> KERN <= kmap[k].v <= kmap[k].last < NP * NP)
    && (forall j, k, w: nat :: 0 <= j < k < |kmap| ==> !(Contains(kmap[j], w) && Contains(kmap[k], w)))
  }

  predicate Touches(r: Range, i: nat) {
    r.v / NP <= i <= r.last / NP
  }

  /** The directory entries the first n ranges need a table for. */
  function Covered(kmap: seq<Range>, n: nat): set<nat> {
    set i: nat | i < NP && Touched(kmap, n, i)
  }

  predicate Touched(kmap: seq<Range>, n: nat, i: nat) {
    exists k | 0 <= k < |kmap| :: k < n && Touches(kmap[k], i)
  }

  /** The directory entries that have a table. */
  function Pdxs(tab: Tabs, d: nat): set<nat>
    requires IsTable(tab, d)
  {
    set i: nat | i < NP && TableOf(tab, d, i) != 0
  }

  lemma OneMore(tab: Tabs, d: nat, i: nat, tab2: Tabs)
    requires IsTable(tab, d) && IsTable(tab2, d) && i < NP && TableOf(tab2, d, i) != 0
    requires forall j: nat :: j != i ==> TableOf(tab2, d, j) == TableOf(tab, d, j)
    ensures Pdxs(tab2, d) == Pdxs(tab, d) + {i}
    ensures |Pdxs(tab2, d)| == |Pdxs(tab, d)| + if TableOf(tab, d, i) == 0 then 1 else 0
  {
    assert Pdxs(tab2, d) == Pdxs(tab, d) + {i};
    assert TableOf(tab, d, i) != 0 ==> Pdxs(tab2, d) == Pdxs(tab, d);
  }

  lemma {:induction false} SmallerSet(a: set<nat>, b: set<nat>)
    requires a <= b
    ensures |a| <= |b| && (a != b ==> |a| < |b|)
  {
    assert b == a + (b - a);
    assert |b| == |a| + |b - a|;
    if a != b { assert b - a != {}; }
  }

  /** Table pages for the first n user pages. */
  function Tables(n: nat): nat {
    (n + NP - 1) / NP
  }

  function Need(n: nat): nat {
    n + Tables(n)
  }

  lemma TablesNext(v: nat)
    ensures Tables(v + 1) == Tables(v) + if v % NP == 0 then 1 else 0
    ensures v % NP == 0 <==> v / NP == Tables(v)
    ensures v % NP != 0 ==> v / NP < Tables(v)
  {
    var q, r := v / NP, v % NP;
    assert v == NP * q + r;
    assert r == 0 ==> Tables(v) == q && Tables(v + 1) == q + 1;
    assert r > 0 ==> Tables(v) == q + 1 && Tables(v + 1) == q + 1;
  }

  /** With `left` pages after setupkvm, the pages run out right when a table is needed
      for a user page that has its frame already. */
  ghost predicate Leaks(left: int, n: nat) {
    exists m: nat :: LeaksAt(left, n, m)
  }

  predicate LeaksAt(left: int, n: nat, m: nat) {
    m * NP < n && left == m * (NP + 1) + 1
  }

  /** Running out when a page is wanted is no leak. */
  lemma NoLeakAtPage(left: int, n: nat, v: nat)
    requires left == Need(v)
    ensures !Leaks(left, n)
  {
    var q, r := v / NP, v % NP;
    assert v == NP * q + r;
    TablesNext(v);
    assert left == (NP + 1) * q + (if r == 0 then 0 else r + 1);
    forall m: nat ensures !LeaksAt(left, n, m) {
      if m < q { assert m * (NP + 1) + (NP + 1) <= q * (NP + 1); }
      if m > q { assert q * (NP + 1) + (NP + 1) <= m * (NP + 1); }
    }
  }

  lemma LeakAtTable(left: int, n: nat, v: nat)
    requires left == Need(v) + 1 && v % NP == 0 && v < n
    ensures Leaks(left, n)
  {
    TablesNext(v);
    assert LeaksAt(left, n, v / NP);
  }

  lemma NoLeakAtEnd(left: int, n: nat)
    requires left >= Need(n)
    ensures !Leaks(left, n)
  {
    forall m: nat ensures !LeaksAt(left, n, m) {
      if m * NP < n { assert Tables(n) >= m + 1; }
    }
  }

  lemma {:induction false} NeedGrows(v: nat, n: nat)
    requires v <= n
    ensures Need(v) <= Need(n) && (v < n ==> Need(v) < Need(n))
    ensures v < n && v % NP == 0 ==> Need(v) + 2 <= Need(n)
    decreases n - v
  {
    if v < n {
      TablesNext(v);
      NeedGrows(v + 1, n);
    }
  }

  // ---------------------------------------------- growing an address space

  /** Table i holds some of the pages lo to v - 1. */
  predicate Spans(lo: nat, v: nat, i: nat) {
    lo < v && lo / NP <= i <= (v - 1) / NP
  }

  /** The tables that pages lo to v - 1 of d want and do not have. */
  function Untabled(tab: Tabs, d: nat, lo: nat, v: nat): set<nat>
    requires IsTable(tab, d)
  {
    set i: nat | i < NP && TableOf(tab, d, i) == 0 && Spans(lo, v, i)
  }

  /** Pages lo to v - 1 of d, and the tables for them. */
  function GrowNeed(tab: Tabs, d: nat, lo: nat, v: nat): nat
    requires IsTable(tab, d) && lo <= v
  {
    v - lo + |Untabled(tab, d, lo, v)|
  }

  lemma SpansNext(lo: nat, v: nat, i: nat)
    requires lo <= v
    ensures Spans(lo, v + 1, i) <==> Spans(lo, v, i) || i == v / NP
  {
    if lo < v { assert (v - 1) / NP <= v / NP <= (v - 1) / NP + 1 && lo / NP <= (v - 1) / NP; }
  }

  lemma GrowNext(tab: Tabs, d: nat, lo: nat, v: nat)
    requires IsTable(tab, d) && lo <= v < KERN
    ensures GrowNeed(tab, d, lo, v + 1) ==
            GrowNeed(tab, d, lo, v) + if TableOf(tab, d, v / NP) == 0 && !Spans(lo, v, v / NP) then 2 else 1
  {
    forall i: nat ensures Spans(lo, v + 1, i) <==> Spans(lo, v, i) || i == v / NP { SpansNext(lo, v, i); }
    var a, b := Untabled(tab, d, lo, v), Untabled(tab, d, lo, v + 1);
    if TableOf(tab, d, v / NP) == 0 { assert b == a + {v / NP}; } else { assert b == a; }
  }

  lemma {:induction false} GrowGrows(tab: Tabs, d: nat, lo: nat, v: nat, w: nat)
    requires IsTable(tab, d) && lo <= v <= w <= KERN
    ensures GrowNeed(tab, d, lo, v) + (w - v) <= GrowNeed(tab, d, lo, w)
    decreases w - v
  {
    if v < w {
      GrowNext(tab, d, lo, v);
      GrowGrows(tab, d, lo, v + 1, w);
    }
  }

  /** Of n0 free pages n are left, and d has the tables it had and those for pages lo to v - 1. */
  ghost predicate Took(tab0: Tabs, n0: nat, d: nat, lo: nat, v: nat, tab: Tabs, n: nat) {
    && IsTable(tab0, d) && IsTable(tab, d) && lo <= v && n0 == n + GrowNeed(tab0, d, lo, v)
    && forall i: nat | i < NP :: TableOf(tab, d, i) != 0 <==> TableOf(tab0, d, i) != 0 || Spans(lo, v, i)
  }

  lemma TookMore(tab0: Tabs, n0: nat, d: nat, lo: nat, v: nat, tab1: Tabs, n1: nat, tab: Tabs, n: nat)
    requires Took(tab0, n0, d, lo, v, tab1, n1) && v < KERN && IsTable(tab, d) && TableOf(tab, d, v / NP) != 0
    requires n == n1 - if TableOf(tab1, d, v / NP) == 0 then 2 else 1
    requires forall j: nat :: j != v / NP ==> TableOf(tab, d, j) == TableOf(tab1, d, j)
    ensures Took(tab0, n0, d, lo, v + 1, tab, n)
  {
    GrowNext(tab0, d, lo, v);
    forall i: nat ensures Spans(lo, v + 1, i) <==> Spans(lo, v, i) || i == v / NP { SpansNext(lo, v, i); }
  }

  /** Running out at page v, of the pages up to hi. */
  lemma RunsShort(tab0: Tabs, n0: nat, d: nat, lo: nat, v: nat, tab: Tabs, n: nat, hi: nat)
    requires Took(tab0, n0, d, lo, v, tab, n) && v < hi <= KERN
    requires n == 0 || (n == 1 && TableOf(tab, d, v / NP) == 0)
    ensures n0 < GrowNeed(tab0, d, lo, v + 1) <= GrowNeed(tab0, d, lo, hi)
  {
    GrowNext(tab0, d, lo, v);
    GrowGrows(tab0, d, lo, v + 1, hi);
  }
}
