/**
 * The free list of the user-space allocator (umalloc.c) as a sequence of
 * blocks in address order, counted in header-sized units.  Its first block is
 * the empty `base`; behind the last one the list goes back to base.
 */
module FreeList {

  datatype Blk = Blk(a: nat, n: nat)

  predicate Inside(b: Blk, x: nat) {
    b.a <= x < b.a + b.n
  }

  /** Block i is not empty, unless it is base, and ends before its successor starts. */
  predicate Good(f: seq<Blk>, i: nat) {
    && (1 <= i < |f| ==> f[i].n >= 1)
    && (i + 1 < |f| ==> f[i].a + f[i].n <= f[i + 1].a)
  }

  ghost predicate Ordered(f: seq<Blk>) {
    |f| >= 1 && f[0].n == 0 && forall i: nat :: Good(f, i)
  }

  predicate Gap(f: seq<Blk>, i: nat) {
    i + 1 < |f| ==> f[i].a + f[i].n < f[i + 1].a
  }

  ghost predicate GapsBut(f: seq<Blk>, u: int, v: int) {
    forall i: nat :: i != u && i != v ==> Gap(f, i)
  }

  /** In order, and no two blocks touch. */
  ghost predicate Sorted(f: seq<Blk>) {
    Ordered(f) && GapsBut(f, -1, -1)
  }

  lemma {:induction false} Strict(f: seq<Blk>, i: nat, j: nat)
    requires Sorted(f) && i < j < |f|
    ensures f[i].a + f[i].n < f[j].a
    decreases j
  {
    assert Gap(f, j - 1) && Good(f, j - 1);
    if i < j - 1 { Strict(f, i, j - 1); }
  }

  ghost predicate Covers(f: seq<Blk>, x: nat) {
    exists i | 0 <= i < |f| :: Inside(f[i], x)
  }

  /** The list holds exactly the units of f and of b. */
  ghost predicate Adds(f: seq<Blk>, b: Blk, g: seq<Blk>) {
    forall x: nat :: Covers(g, x) <==> Covers(f, x) || Inside(b, x)
  }

  /** The block does not meet any block of the list. */
  predicate Apart(b: Blk, c: Blk) {
    b.a + b.n <= c.a || c.a + c.n <= b.a
  }

  ghost predicate ApartAll(f: seq<Blk>, b: Blk) {
    forall i :: 0 <= i < |f| ==> Apart(f[i], b)
  }

  /** The place of b: behind block k and before its successor. */
  predicate Place(f: seq<Blk>, b: Blk, k: nat) {
    k < |f| && f[k].a < b.a && (k + 1 < |f| ==> b.a < f[k + 1].a)
  }

  // ------------------------------------------------------------- giving back

  function Insert(f: seq<Blk>, b: Blk, k: nat): seq<Blk>
    requires k < |f|
  {
    f[..k + 1] + [b] + f[k + 1..]
  }

  predicate Touch(f: seq<Blk>, m: nat) {
    m + 1 < |f| && f[m].a + f[m].n == f[m + 1].a
  }

  /** Block m takes its successor in if the two touch. */
  function Merged(f: seq<Blk>, m: nat): seq<Blk> {
    if Touch(f, m) then f[..m] + [Blk(f[m].a, f[m].n + f[m + 1].n)] + f[m + 2..] else f
  }

  /** The list after b has been given back behind block k: merged with its
      successor first, then with its predecessor. */
  function Freed(f: seq<Blk>, b: Blk, k: nat): seq<Blk>
    requires k < |f|
  {
    Merged(Merged(Insert(f, b, k), k + 1), k)
  }

  lemma InsertOrdered(f: seq<Blk>, b: Blk, k: nat)
    requires Sorted(f) && Place(f, b, k) && b.n >= 1 && ApartAll(f, b)
    ensures Ordered(Insert(f, b, k)) && GapsBut(Insert(f, b, k), k, k + 1)
  {
    var g := Insert(f, b, k);
    assert Apart(f[k], b) && (k + 1 < |f| ==> Apart(f[k + 1], b));
    forall i: nat | i != k && i != k + 1 ensures Gap(g, i) {
      assert if i < k then Gap(f, i) else Gap(f, i - 1);
    }
    forall i: nat ensures Good(g, i) {
      assert if i <= k then Good(f, i) else Good(f, i - 1);
    }
  }

  lemma MergedOrdered(f: seq<Blk>, m: nat, u: int)
    requires Ordered(f) && GapsBut(f, u, m) && 1 <= m && u < m
    ensures Ordered(Merged(f, m)) && GapsBut(Merged(f, m), u, -1)
  {
    var g := Merged(f, m);
    forall i: nat | i != u ensures Gap(g, i) {
      assert Good(f, i) && (i == m || Gap(f, i)) && (i + 1 == u || i + 1 == m || Gap(f, i + 1));
    }
    forall i: nat ensures Good(g, i) {
      assert Good(f, i) && Good(f, i + 1);
    }
  }

  lemma InsertCovers(f: seq<Blk>, b: Blk, k: nat)
    requires k < |f|
    ensures Adds(f, b, Insert(f, b, k))
  {
    var g := Insert(f, b, k);
    forall x: nat ensures Covers(g, x) <==> Covers(f, x) || Inside(b, x) {
      if Covers(f, x) {
        var i :| 0 <= i < |f| && Inside(f[i], x);
        assert Inside(g[if i <= k then i else i + 1], x);
      }
      if Inside(b, x) { assert Inside(g[k + 1], x); }
      if Covers(g, x) {
        var i :| 0 <= i < |g| && Inside(g[i], x);
        assert i == k + 1 || Inside(f[if i <= k then i else i - 1], x);
      }
    }
  }

  lemma MergedCovers(f: seq<Blk>, m: nat)
    ensures forall x: nat :: Covers(Merged(f, m), x) <==> Covers(f, x)
  {
    var g := Merged(f, m);
    if Touch(f, m) {
      forall x: nat ensures Covers(g, x) <==> Covers(f, x) {
        if Covers(f, x) {
          var i :| 0 <= i < |f| && Inside(f[i], x);
          assert Inside(g[if i <= m then i else i - 1], x);
        }
        if Covers(g, x) {
          var i :| 0 <= i < |g| && Inside(g[i], x);
          assert if i == m then Inside(f[m], x) || Inside(f[m + 1], x) else Inside(f[if i < m then i else i + 1], x);
        }
      }
    }
  }

  /** Giving a block back keeps the list in order and fully merged, and adds exactly its units. */
  lemma FreedRight(f: seq<Blk>, b: Blk, k: nat)
    requires Sorted(f) && Place(f, b, k) && b.n >= 1 && ApartAll(f, b)
    ensures Sorted(Freed(f, b, k)) && Adds(f, b, Freed(f, b, k)) && |Freed(f, b, k)| >= 2
  {
    var g := Insert(f, b, k);
    var h := Merged(g, k + 1);
    InsertOrdered(f, b, k);
    InsertCovers(f, b, k);
    MergedOrdered(g, k + 1, k);
    MergedCovers(g, k + 1);
    if k >= 1 { MergedOrdered(h, k, -1); }
    MergedCovers(h, k);
  }

  // -------------------------------------------------------------- taking out

  /** The list after n units have been taken from the end of block j. */
  function Carved(f: seq<Blk>, j: nat, n: nat): seq<Blk>
    requires j < |f| && n <= f[j].n
  {
    if f[j].n == n then f[..j] + f[j + 1..] else f[j := Blk(f[j].a, f[j].n - n)]
  }

  function Piece(f: seq<Blk>, j: nat, n: nat): Blk
    requires j < |f| && n <= f[j].n
  {
    Blk(f[j].a + (f[j].n - n), n)
  }

  lemma CarvedSorted(f: seq<Blk>, j: nat, n: nat)
    requires Sorted(f) && 1 <= j < |f| && 1 <= n <= f[j].n
    ensures Sorted(Carved(f, j, n)) && ApartAll(Carved(f, j, n), Piece(f, j, n))
  {
    var g := Carved(f, j, n);
    forall i: nat ensures Gap(g, i) && Good(g, i) {
      assert Good(f, i) && Good(f, i + 1) && Gap(f, i) && Gap(f, i + 1);
    }
    forall i | 0 <= i < |g| ensures Apart(g[i], Piece(f, j, n)) {
      if i < j { Strict(f, i, j); }
      else if f[j].n == n { Strict(f, j, i + 1); }
      else if i > j { Strict(f, j, i); }
    }
  }

  /** Carving undoes giving back: the list and the piece together are the old list. */
  lemma CarvedCovers(f: seq<Blk>, j: nat, n: nat)
    requires Sorted(f) && 1 <= j < |f| && 1 <= n <= f[j].n
    ensures Adds(Carved(f, j, n), Piece(f, j, n), f)
  {
    var g := Carved(f, j, n);
    forall x: nat ensures Covers(f, x) <==> Covers(g, x) || Inside(Piece(f, j, n), x) {
      if Covers(f, x) {
        var i :| 0 <= i < |f| && Inside(f[i], x);
        if i < j { assert g[i] == f[i]; }
        else if i > j { assert if f[j].n == n then g[i - 1] == f[i] else g[i] == f[i]; }
        else if !Inside(Piece(f, j, n), x) { assert Inside(g[j], x); }
      }
      if Covers(g, x) {
        var i :| 0 <= i < |g| && Inside(g[i], x);
        assert if f[j].n == n && i >= j then Inside(f[i + 1], x) else Inside(f[i], x);
      }
      if Inside(Piece(f, j, n), x) { assert Inside(f[j], x); }
    }
  }

  // -------------------------------------------------------------- uniqueness

  /** A list without touching blocks is determined by the units it holds: there is
      only one way to keep them fully merged. */
  lemma SameList(f: seq<Blk>, g: seq<Blk>)
    requires Sorted(f) && Sorted(g) && f[0] == g[0]
    requires forall x: nat :: Covers(f, x) <==> Covers(g, x)
    ensures f == g
  {
    var m := if |f| <= |g| then |f| else |g|;
    Unique(f, g, m);
    NoLonger(f, g, m);
    NoLonger(g, f, m);
  }

  lemma NoLonger(f: seq<Blk>, g: seq<Blk>, m: nat)
    requires Sorted(f) && Sorted(g) && m <= |f| && m <= |g| && f[..m] == g[..m] && (m == |f| || m == |g|)
    requires forall x: nat :: Covers(f, x) <==> Covers(g, x)
    ensures |g| <= |f|
  {
    if m == |f| < |g| {
      var x := g[m].a;
      assert Good(g, m) && Inside(g[m], x) && Covers(f, x);
      var i :| 0 <= i < |f| && Inside(f[i], x);
      assert f[..m][i] == g[..m][i];
      Strict(g, i, m);
    }
  }

  lemma {:induction false} Unique(f: seq<Blk>, g: seq<Blk>, m: nat)
    requires Sorted(f) && Sorted(g) && f[0] == g[0] && m <= |f| && m <= |g|
    requires forall x: nat :: Covers(f, x) <==> Covers(g, x)
    ensures f[..m] == g[..m]
  {
    if m > 1 {
      Unique(f, g, m - 1);
      SameBlock(f, g, m - 1);
    }
  }

  lemma SameBlock(f: seq<Blk>, g: seq<Blk>, m: nat)
    requires Sorted(f) && Sorted(g) && 1 <= m < |f| && m < |g| && f[..m] == g[..m]
    requires forall x: nat :: Covers(f, x) <==> Covers(g, x)
    ensures f[m] == g[m]
  {
    forall i | 0 <= i < m ensures f[i] == g[i] { assert f[i] == f[..m][i] == g[..m][i]; }
    assert Good(f, m) && Good(g, m);
    StartsNoLater(f, g, m);
    StartsNoLater(g, f, m);
    EndsNoLater(f, g, m);
    EndsNoLater(g, f, m);
  }

  lemma StartsNoLater(f: seq<Blk>, g: seq<Blk>, m: nat)
    requires Sorted(f) && Sorted(g) && 1 <= m < |f| && m < |g| && forall i :: 0 <= i < m ==> f[i] == g[i]
    requires forall x: nat :: Covers(f, x) <==> Covers(g, x)
    ensures f[m].a <= g[m].a
  {
    var x := g[m].a;
    assert Good(g, m) && Inside(g[m], x);
    assert Covers(f, x);
    var i :| 0 <= i < |f| && Inside(f[i], x);
    if i < m { Strict(g, i, m); } else if m < i { Strict(f, m, i); }
  }

  lemma EndsNoLater(f: seq<Blk>, g: seq<Blk>, m: nat)
    requires Sorted(f) && Sorted(g) && 1 <= m < |f| && m < |g| && f[m].a == g[m].a
    requires forall x: nat :: Covers(f, x) <==> Covers(g, x)
    ensures f[m].n <= g[m].n
  {
    if f[m].n > g[m].n {
      var x := g[m].a + g[m].n;
      assert Inside(f[m], x);
      assert Covers(g, x);
      var i :| 0 <= i < |g| && Inside(g[i], x);
      if i < m { Strict(g, i, m); } else if m < i { Strict(g, m, i); }
    }
  }
}
