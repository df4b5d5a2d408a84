/**
 * The allocator as an object: headers in memory, `freep`, and for the proof the
 * free list, the blocks the program holds and all units ever obtained.
 */
module Allocator {
  import opened FreeList
  import opened Umalloc

  ghost predicate Listed(f: seq<Blk>, p: nat) {
    exists i | 0 <= i < |f| :: f[i].a == p
  }

  predicate LiveAt(live: map<nat, nat>, x: nat) {
    exists a | a in live :: Inside(Blk(a, live[a]), x)
  }

  ghost predicate LiveOk(base: nat, size: map<nat, nat>, f: seq<Blk>, live: map<nat, nat>, a: nat) {
    a in live ==> a > base && live[a] >= 1 && a in size && size[a] == live[a] && ApartAll(f, Blk(a, live[a]))
  }

  /** Blocks in use lie above base, keep their size in their header, and meet neither a free block nor each other. */
  ghost predicate Lives(base: nat, size: map<nat, nat>, f: seq<Blk>, live: map<nat, nat>) {
    && (forall a: nat :: LiveOk(base, size, f, live, a))
    && (forall a, b :: a in live && b in live && a != b ==> Apart(Blk(a, live[a]), Blk(b, live[b])))
  }

  /** Every unit obtained from the kernel is either free or in use. */
  ghost predicate Parts(f: seq<Blk>, live: map<nat, nat>, core: set<nat>) {
    forall x: nat :: x in core <==> Covers(f, x) || LiveAt(live, x)
  }

  ghost predicate Whole(base: nat, ptr: map<nat, nat>, size: map<nat, nat>, freep: nat, f: seq<Blk>,
                      live: map<nat, nat>, core: set<nat>) {
    base >= 1 &&
    if freep == 0 then f == [] && live == map[] && core == {}
    else
      && Sorted(f) && f[0].a == base && Rep(ptr, size, f) && Listed(f, freep) && Lives(base, size, f, live)
      && Parts(f, live, core)
  }

  // ------------------------------------------------------- where a block goes

  ghost function Spot(f: seq<Blk>, a: nat, n: nat): (k: nat)
    requires 1 <= n <= |f| && f[0].a < a
    ensures k < n && f[k].a < a && (k + 1 < n ==> a <= f[k + 1].a)
  {
    if f[n - 1].a < a then n - 1 else Spot(f, a, n - 1)
  }

  /** The search of free stops at the block's place and nowhere else. */
  lemma StopsAtPlace(f: seq<Blk>, b: Blk, k: nat, j: nat)
    requires Rising(f) && Place(f, b, k) && j < |f| && f[0].a < b.a
    ensures var p, q := f[j].a, f[Succ(j, |f|)].a;
            ((b.a > p && b.a < q) || (p >= q && (b.a > p || b.a < q))) <==> j == k
  {
    NotListed(f, b, k, j);
    NotListed(f, b, k, Succ(j, |f|));
    if j > 0 { Rise(f, 0, j); }
    if j < k { Rise(f, j, k); if j + 1 < k { Rise(f, j + 1, k); } }
    if k < j { if k + 1 < j { Rise(f, k + 1, j); } }
    assert Rises(f, j);
  }

  // --------------------------------------------------- blocks given and taken

  lemma FreedLives(base: nat, size: map<nat, nat>, f: seq<Blk>, live: map<nat, nat>, b: Blk, g: seq<Blk>,
                   size2: map<nat, nat>, live2: map<nat, nat>)
    requires Lives(base, size, f, live) && b.a in live && b.n == live[b.a] && Sorted(g) && Adds(f, b, g)
          && live2 == live - {b.a}
    requires g[0].a == base && forall a :: a in live2 ==> a in size2 && a in size && size2[a] == size[a]
    ensures Lives(base, size2, g, live2)
  {
    forall a: nat ensures LiveOk(base, size2, g, live2, a) {
      assert LiveOk(base, size, f, live, a);
      if a in live2 {
        forall i | 0 <= i < |g| ensures Apart(g[i], Blk(a, live[a])) {
          assert Good(g, i);
          ApartByUnits(f, b, g, Blk(a, live[a]), i);
        }
      }
    }
  }

  lemma ApartIf(b: Blk, c: Blk)
    requires c.n >= 1 && (b.n >= 1 || b.a < c.a) && forall x: nat :: !(Inside(b, x) && Inside(c, x))
    ensures Apart(b, c)
  {
    assert !(Inside(b, c.a) && Inside(c, c.a)) && !(Inside(b, b.a) && Inside(c, b.a));
  }

  lemma ApartUncovers(f: seq<Blk>, c: Blk, x: nat)
    requires ApartAll(f, c)
    ensures Inside(c, x) ==> !Covers(f, x)
  {}

  /** A block apart from f and from b is apart from every block of a list made of their units. */
  lemma ApartByUnits(f: seq<Blk>, b: Blk, g: seq<Blk>, c: Blk, i: nat)
    requires Adds(f, b, g) && ApartAll(f, c) && Apart(b, c) && c.n >= 1 && i < |g| && (g[i].n >= 1 || g[i].a < c.a)
    ensures Apart(g[i], c)
  {
    forall x: nat ensures !(Inside(g[i], x) && Inside(c, x)) {
      ApartUncovers(f, c, x);
      assert Inside(g[i], x) ==> Covers(g, x);
    }
    ApartIf(g[i], c);
  }

  lemma FreedParts(f: seq<Blk>, live: map<nat, nat>, core: set<nat>, b: Blk, g: seq<Blk>, live2: map<nat, nat>)
    requires Parts(f, live, core) && b.a in live && b.n == live[b.a] && Adds(f, b, g) && live2 == live - {b.a}
    ensures Parts(g, live2, core)
  {
    forall x: nat ensures x in core <==> Covers(g, x) || LiveAt(live2, x) {
      if LiveAt(live, x) && !Inside(b, x) {
        var a :| a in live && Inside(Blk(a, live[a]), x);
        assert a in live2 && Inside(Blk(a, live2[a]), x);
      }
      if Inside(b, x) { assert LiveAt(live, x); }
    }
  }

  lemma TakenLives(base: nat, size: map<nat, nat>, f: seq<Blk>, live: map<nat, nat>, b: Blk, g: seq<Blk>,
                   size2: map<nat, nat>, live2: map<nat, nat>)
    requires Lives(base, size, f, live) && Adds(g, b, f) && ApartAll(g, b) && b.n >= 1 && b.a > base
          && live2 == live[b.a := b.n]
    requires forall a :: a in live ==> a in size2 && a in size && size2[a] == size[a]
    requires b.a in size2 && size2[b.a] == b.n && Sorted(g) && g[0].a == base
    ensures b.a !in live && Lives(base, size2, g, live2)
  {
    forall a | a in live ensures Apart(b, Blk(a, live[a])) && ApartAll(g, Blk(a, live[a])) {
      assert LiveOk(base, size, f, live, a);
      TakenApart(f, b, g, Blk(a, live[a]));
    }
    assert LiveOk(base, size, f, live, b.a);
    assert b.a in live ==> Apart(b, Blk(b.a, live[b.a]));
    forall a: nat ensures LiveOk(base, size2, g, live2, a) {
      assert LiveOk(base, size, f, live, a);
    }
  }

  lemma TakenApart(f: seq<Blk>, b: Blk, g: seq<Blk>, c: Blk)
    requires Adds(g, b, f) && ApartAll(f, c) && c.n >= 1 && b.n >= 1 && Sorted(g) && g[0].a < c.a
    ensures Apart(b, c) && ApartAll(g, c)
  {
    forall x: nat ensures !(Inside(b, x) && Inside(c, x)) { ApartUncovers(f, c, x); }
    ApartIf(b, c);
    forall i | 0 <= i < |g| ensures Apart(g[i], c) {
      assert Good(g, i);
      forall x: nat ensures !(Inside(g[i], x) && Inside(c, x)) {
        ApartUncovers(f, c, x);
        assert Inside(g[i], x) ==> Covers(g, x);
      }
      ApartIf(g[i], c);
    }
  }

  lemma TakenParts(f: seq<Blk>, live: map<nat, nat>, core: set<nat>, b: Blk, g: seq<Blk>, live2: map<nat, nat>)
    requires Parts(f, live, core) && Adds(g, b, f) && b.a !in live && live2 == live[b.a := b.n]
    ensures Parts(g, live2, core)
  {
    forall x: nat ensures x in core <==> Covers(g, x) || LiveAt(live2, x) {
      if LiveAt(live, x) {
        var a :| a in live && Inside(Blk(a, live[a]), x);
        assert a in live2 && Inside(Blk(a, live2[a]), x);
      }
      if Inside(b, x) { assert b.a in live2 && Inside(Blk(b.a, live2[b.a]), x); }
      if LiveAt(live2, x) {
        var a :| a in live2 && Inside(Blk(a, live2[a]), x);
        assert a == b.a || (a in live && Inside(Blk(a, live[a]), x));
      }
    }
  }

  // ----------------------------------------------------------------- free

  /** What the two tests of free do to the headers, as a whole. */
  lemma FreedRep(ptr: map<nat, nat>, size: map<nat, nat>, f: seq<Blk>, b: Blk, k: nat, ptr2: map<nat, nat>,
                 size2: map<nat, nat>)
    requires Rep(ptr, size, f) && Sorted(f) && Place(f, b, k) && b.n >= 1 && ApartAll(f, b) && b.a in size
          && size[b.a] == b.n && f[0].a < b.a
    requires f[k].a in ptr && f[k].a in size
    requires var q := ptr[f[k].a]; b.a + b.n == q ==> q in ptr && q in size
    requires var q := ptr[f[k].a];
             var bn, bq := if b.a + b.n == q then b.n + size[q] else b.n, if b.a + b.n == q then ptr[q] else q;
             if f[k].a + f[k].n == b.a
             then size2 == size[b.a := bn][f[k].a := f[k].n + bn] && ptr2 == ptr[b.a := bq][f[k].a := bq]
             else size2 == size[b.a := bn] && ptr2 == ptr[b.a := bq][f[k].a := b.a]
    ensures Rep(ptr2, size2, Freed(f, b, k))
  {
    SortedRises(f);
    assert LinkAt(ptr, size, f, k) && LinkAt(ptr, size, f, Succ(k, |f|));
    var g := Insert(f, b, k);
    var ptr1 := ptr[b.a := f[Succ(k, |f|)].a][f[k].a := b.a];
    InsertRep(ptr, size, f, b, k, ptr1);
    InsertRises(f, b, k);
    NextMerged(ptr, size, f, b, k, ptr1);
    var h := Merged(g, k + 1);
    MergedRises(g, k + 1);
    var size3 := if Touch(g, k + 1) then size[b.a := b.n + g[k + 2].n] else size;
    var ptr3 := if Touch(g, k + 1) then ptr1[b.a := ptr[g[k + 2].a]] else ptr1;
    assert Rep(ptr3, size3, h);
    assert h[k] == f[k] && h[k + 1].a == b.a && LinkAt(ptr3, size3, h, k) && LinkAt(ptr3, size3, h, k + 1);
    if Touch(h, k) {
      MergedRep(ptr3, size3, h, k, ptr3[h[k].a := ptr3[h[k + 1].a]], size3[h[k].a := h[k].n + h[k + 1].n]);
      assert ptr2 == ptr3[h[k].a := ptr3[h[k + 1].a]];
      assert size2 == size3[h[k].a := h[k].n + h[k + 1].n];
    } else {
      assert ptr2 == ptr3 && size2 == size3;
    }
  }

  lemma NextMerged(ptr: map<nat, nat>, size: map<nat, nat>, f: seq<Blk>, b: Blk, k: nat, ptr1: map<nat, nat>)
    requires Rising(f) && Place(f, b, k) && b.a in size && size[b.a] == b.n && Rep(ptr, size, f)
    requires ptr1 == ptr[b.a := f[Succ(k, |f|)].a][f[k].a := b.a] && Rep(ptr1, size, Insert(f, b, k))
          && Rising(Insert(f, b, k))
    ensures var g := Insert(f, b, k);
            if Touch(g, k + 1) then g[k + 2].a in ptr
              && Rep(ptr1[b.a := ptr[g[k + 2].a]], size[b.a := b.n + g[k + 2].n], Merged(g, k + 1))
            else Rep(ptr1, size, Merged(g, k + 1))
  {
    var g := Insert(f, b, k);
    if Touch(g, k + 1) {
      assert g[k + 2] == f[k + 1] && LinkAt(ptr1, size, g, k + 1) && LinkAt(ptr1, size, g, k + 2)
        && LinkAt(ptr, size, f, k + 1);
      Elsewhere(g, k, k + 2);
      Elsewhere(g, k + 1, k + 2);
      assert ptr1[g[k + 2].a] == ptr[g[k + 2].a];
      MergedRep(ptr1, size, g, k + 1, ptr1[b.a := ptr[g[k + 2].a]], size[b.a := b.n + g[k + 2].n]);
    }
  }
}
