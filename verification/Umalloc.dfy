/**
 * malloc and free of the user-space library (umalloc.c).  An address counts
 * header-sized units; `ptr` and `size` are the two words of every header in
 * memory.  The address the kernel hands out for more memory is a parameter.
 */
module Umalloc {
  import opened Words
  import opened FreeList

  const HEADER: nat := 8
  const MORECORE: nat := 4096

  /** The units malloc asks for, in 32-bit unsigned arithmetic. */
  function Units(nbytes: nat): nat
    requires nbytes < TWO32
  {
    (nbytes + HEADER - 1) % TWO32 / HEADER + 1
  }

  /** The units hold the bytes behind the header exactly if the sum does not wrap. */
  lemma UnitsEnoughIff(nbytes: nat)
    requires nbytes < TWO32
    ensures (Units(nbytes) - 1) * HEADER >= nbytes <==> nbytes <= TWO32 - HEADER
    ensures nbytes <= TWO32 - HEADER ==> (Units(nbytes) - 1) * HEADER < nbytes + HEADER
  {}

  function Succ(i: nat, n: nat): nat {
    if i + 1 < n then i + 1 else 0
  }

  /** How many steps behind the successor of block `from` block i comes on the circle. */
  function Rank(from: nat, i: nat, n: nat): int {
    if i > from then i - from - 1 else i - from - 1 + n
  }

  // ------------------------------------------- the list as headers in memory

  predicate LinkAt(ptr: map<nat, nat>, size: map<nat, nat>, f: seq<Blk>, i: nat) {
    i < |f| ==> f[i].a in ptr && f[i].a in size && size[f[i].a] == f[i].n && ptr[f[i].a] == f[Succ(i, |f|)].a
  }

  /** Every header on the list has its size and points to the next one, the last to base. */
  ghost predicate Rep(ptr: map<nat, nat>, size: map<nat, nat>, f: seq<Blk>) {
    forall i: nat :: LinkAt(ptr, size, f, i)
  }

  predicate Rises(f: seq<Blk>, i: nat) {
    i + 1 < |f| ==> f[i].a < f[i + 1].a
  }

  ghost predicate Rising(f: seq<Blk>) {
    forall i: nat :: Rises(f, i)
  }

  lemma {:induction false} Rise(f: seq<Blk>, i: nat, j: nat)
    requires Rising(f) && i < j < |f|
    ensures f[i].a < f[j].a
    decreases j
  {
    assert Rises(f, j - 1);
    if i < j - 1 { Rise(f, i, j - 1); }
  }

  lemma SortedRises(f: seq<Blk>)
    requires Sorted(f)
    ensures Rising(f)
  {
    forall i: nat ensures Rises(f, i) { assert Gap(f, i); }
  }

  lemma InsertRises(f: seq<Blk>, b: Blk, k: nat)
    requires Rising(f) && Place(f, b, k)
    ensures Rising(Insert(f, b, k))
  {
    forall i: nat ensures Rises(Insert(f, b, k), i) { assert if i <= k then Rises(f, i) else Rises(f, i - 1); }
  }

  lemma MergedRises(f: seq<Blk>, m: nat)
    requires Rising(f)
    ensures Rising(Merged(f, m))
  {
    forall i: nat ensures Rises(Merged(f, m), i) { assert Rises(f, i) && Rises(f, i + 1); }
  }

  /** No other block of the list starts where block j does. */
  lemma Elsewhere(f: seq<Blk>, i: nat, j: nat)
    requires Rising(f) && i < |f| && j < |f| && i != j
    ensures f[i].a != f[j].a
  {
    if i < j { Rise(f, i, j); } else { Rise(f, j, i); }
  }

  lemma NotListed(f: seq<Blk>, b: Blk, k: nat, i: nat)
    requires Rising(f) && Place(f, b, k) && i < |f|
    ensures f[i].a != b.a
  {
    if i < k { Rise(f, i, k); } else if i > k + 1 { Rise(f, k + 1, i); }
  }

  /** Linking a header in behind block k. */
  lemma InsertRep(ptr: map<nat, nat>, size: map<nat, nat>, f: seq<Blk>, b: Blk, k: nat, ptr2: map<nat, nat>)
    requires Rep(ptr, size, f) && Rising(f) && Place(f, b, k) && b.a in size && size[b.a] == b.n
    requires ptr2 == ptr[b.a := f[Succ(k, |f|)].a][f[k].a := b.a]
    ensures Rep(ptr2, size, Insert(f, b, k))
  {
    var g := Insert(f, b, k);
    forall i: nat ensures LinkAt(ptr2, size, g, i) {
      if i < |g| && i != k + 1 {
        var o := if i <= k then i else i - 1;
        assert LinkAt(ptr, size, f, o) && g[i] == f[o];
        NotListed(f, b, k, o);
        if o != k { Elsewhere(f, o, k); }
      } else {
        NotListed(f, b, k, k);
      }
    }
  }

  /** Taking the touching successor of block m in. */
  lemma MergedRep(ptr: map<nat, nat>, size: map<nat, nat>, g: seq<Blk>, m: nat, ptr2: map<nat, nat>,
                  size2: map<nat, nat>)
    requires Rep(ptr, size, g) && Rising(g) && Touch(g, m) && g[m].a in ptr && g[m + 1].a in ptr && g[m].a in size
          && g[m + 1].a in size
    requires ptr2 == ptr[g[m].a := ptr[g[m + 1].a]] && size2 == size[g[m].a := g[m].n + g[m + 1].n]
    ensures Rep(ptr2, size2, Merged(g, m))
  {
    var h := Merged(g, m);
    assert LinkAt(ptr, size, g, m + 1);
    forall i: nat ensures LinkAt(ptr2, size2, h, i) {
      if i < |h| && i != m {
        var o := if i < m then i else i + 1;
        assert LinkAt(ptr, size, g, o) && h[i] == g[o];
        Elsewhere(g, o, m);
      }
    }
  }

  /** Unlinking block j, whose whole extent is taken. */
  lemma RemovedRep(ptr: map<nat, nat>, size: map<nat, nat>, f: seq<Blk>, j: nat, ptr2: map<nat, nat>)
    requires Rep(ptr, size, f) && Rising(f) && 1 <= j < |f| && f[j].a in ptr
    requires ptr2 == ptr[f[j - 1].a := ptr[f[j].a]]
    ensures Rep(ptr2, size, f[..j] + f[j + 1..])
  {
    var g := f[..j] + f[j + 1..];
    assert LinkAt(ptr, size, f, j);
    forall i: nat ensures LinkAt(ptr2, size, g, i) {
      if i < |g| {
        var o := if i < j then i else i + 1;
        assert LinkAt(ptr, size, f, o) && g[i] == f[o];
        if o != j - 1 { Elsewhere(f, o, j - 1); }
      }
    }
  }

  /** Shortening block j, and giving the piece behind it a header. */
  lemma ShortenedRep(ptr: map<nat, nat>, size: map<nat, nat>, f: seq<Blk>, j: nat, n: nat, size2: map<nat, nat>)
    requires Rep(ptr, size, f) && Sorted(f) && 1 <= j < |f| && 1 <= n < f[j].n
    requires size2 == size[f[j].a := f[j].n - n][f[j].a + (f[j].n - n) := n]
    ensures Rep(ptr, size2, Carved(f, j, n))
  {
    var g := Carved(f, j, n);
    SortedRises(f);
    forall i: nat ensures LinkAt(ptr, size2, g, i) {
      assert LinkAt(ptr, size, f, i);
      if i < |f| && i != j {
        Elsewhere(f, i, j);
        if i > j { Strict(f, j, i); } else { Strict(f, i, j); }
      }
    }
  }
}
