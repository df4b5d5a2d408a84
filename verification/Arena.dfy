/**
 * malloc, free and morecore (umalloc.c) on headers in memory.
 */
module Arena {
  import opened Words
  import opened FreeList
  import opened Umalloc
  import opened Allocator

  /** Behind a block that has been given back, its own block or the next one is large enough for it. */
  lemma FreedFits(f: seq<Blk>, b: Blk, k: nat) returns (m: nat)
    requires Sorted(f) && Place(f, b, k) && b.n >= 1 && f[0].a < b.a
    ensures 1 <= m < |Freed(f, b, k)| && Freed(f, b, k)[m].n >= b.n && (m == k || m == k + 1)
         && Freed(f, b, k)[k].a == f[k].a && Freed(f, b, k)[0] == f[0]
  {
    var h := Merged(Insert(f, b, k), k + 1);
    assert h[k + 1].n >= b.n && h[k] == f[k];
    m := if Touch(h, k) then k else k + 1;
  }

  /** A free block's header is nobody's. */
  lemma FreeNotLive(base: nat, size: map<nat, nat>, f: seq<Blk>, live: map<nat, nat>, k: nat)
    requires Sorted(f) && f[0].a == base && Lives(base, size, f, live) && k < |f|
    ensures f[k].a !in live && f[k].a >= base
  {
    var a := f[k].a;
    assert LiveOk(base, size, f, live, a) && Good(f, k);
    assert a in live ==> Apart(f[k], Blk(a, live[a]));
    if k > 0 { Strict(f, 0, k); }
  }

  class Heap {
    const base: nat
    var ptr: map<nat, nat>
    var size: map<nat, nat>
    var freep: nat
    ghost var f: seq<Blk>
    ghost var live: map<nat, nat>
    ghost var core: set<nat>

    ghost predicate Valid()
      reads this
    {
      Whole(base, ptr, size, freep, f, live, core)
    }

    constructor (b: nat)
      requires b >= 1
      ensures Valid() && base == b && live == map[] && core == {} && freep == 0
    {
      base, ptr, size, freep := b, map[], map[], 0;
      f, live, core := [], map[], {};
    }

    /** The block goes back; the list afterwards is the old one with the block in
        its place, merged with whatever it touches. */
    method Free(ap: nat) returns (ghost k: nat)
      requires Valid() && ap >= 1 && ap - 1 in live
      modifies `ptr, `size, `freep, `f, `live
      ensures Valid() && freep != 0 && core == old(core) && live == old(live) - {ap - 1}
      ensures var b := Blk(ap - 1, old(live)[ap - 1]);
              Place(old(f), b, k) && f == Freed(old(f), b, k) && k < |f| && freep == f[k].a
    {
      var bp := ap - 1;
      ghost var b := Blk(bp, live[bp]);
      assert LiveOk(base, size, f, live, bp);
      SortedRises(f);
      var p;
      p, k := Search(bp, b);
      Coalesce(bp, p, b, k);
      freep := p;
    }

    /** The search loop of free ends at the block's place, wherever it starts. */
    method Search(bp: nat, ghost b: Blk) returns (p: nat, ghost k: nat)
      requires Valid() && freep != 0 && bp == b.a > base && b.n >= 1 && ApartAll(f, b) && Rising(f)
      ensures Place(f, b, k) && p == f[k].a
    {
      k := Spot(f, bp, |f|);
      PlaceOf(f, b, k);
      p := freep;
      ghost var j :| 0 <= j < |f| && f[j].a == freep;
      assert LinkAt(ptr, size, f, j);
      StopsAtPlace(f, b, k, j);
      while !(bp > p && bp < ptr[p])
        invariant 0 <= j < |f| && p == f[j].a && p in ptr && ptr[p] == f[Succ(j, |f|)].a
        invariant bp > p && bp < ptr[p] ==> j == k
        decreases if j <= k then k - j else k - j + |f|
      {
        StopsAtPlace(f, b, k, j);
        if p >= ptr[p] && (bp > p || bp < ptr[p]) {
          break;
        }
        p := ptr[p];
        j := Succ(j, |f|);
        assert LinkAt(ptr, size, f, j);
        StopsAtPlace(f, b, k, j);
      }
    }

    /** Linking the block in, and merging it with its neighbours. */
    method Coalesce(bp: nat, p: nat, ghost b: Blk, ghost k: nat)
      requires Valid() && freep != 0 && bp == b.a && bp in live && live[bp] == b.n && Place(f, b, k) && p == f[k].a
            && bp > base
      modifies `ptr, `size, `f, `live, `freep
      ensures Whole(base, ptr, size, p, f, live, core) && live == old(live) - {bp}
      ensures f == Freed(old(f), b, k) && k < |f| && p == f[k].a
    {
      assert LiveOk(base, size, f, live, bp) && LinkAt(ptr, size, f, k) && LinkAt(ptr, size, f, Succ(k, |f|));
      FreeNotLive(base, size, f, live, k);
      ghost var g := Freed(f, b, k);
      FreedRight(f, b, k);
      ghost var m := FreedFits(f, b, k);
      Relink(bp, p, b, k);
      assert forall a :: a in live - {bp} ==> LiveOk(base, old(size), f, live, a);
      FreedLives(base, old(size), old(f), old(live), b, g, size, live - {bp});
      FreedParts(old(f), old(live), core, b, g, live - {bp});
      f, live, freep := g, live - {bp}, p;
    }

    method Relink(bp: nat, p: nat, ghost b: Blk, ghost k: nat)
      requires Rep(ptr, size, f) && Sorted(f) && Place(f, b, k) && b.n >= 1 && ApartAll(f, b) && bp == b.a
            && p == f[k].a && f[0].a < bp
      requires bp in size && size[bp] == b.n && p in ptr && p in size && ptr[p] in ptr && ptr[p] in size && p != bp
            && size[p] == f[k].n
      modifies `ptr, `size
      ensures Rep(ptr, size, Freed(f, b, k))
      ensures forall a :: a in old(size) && a != bp && a != p ==> a in size && size[a] == old(size)[a]
    {
      if bp + size[bp] == ptr[p] {
        size := size[bp := size[bp] + size[ptr[p]]];
        ptr := ptr[bp := ptr[ptr[p]]];
      } else {
        ptr := ptr[bp := ptr[p]];
      }
      if p + size[p] == bp {
        size := size[p := size[p] + size[bp]];
        ptr := ptr[p := ptr[bp]];
      } else {
        ptr := ptr[p := bp];
      }
      FreedRep(old(ptr), old(size), f, b, k, ptr, size);
    }

    /** More memory: at least 4096 units at the address the kernel gives, or none. */
    method Morecore(nunits: nat, grant: int) returns (p: nat, ghost k: nat)
      requires Valid() && freep != 0 && nunits >= 1 && Grants(base, core, grant)
      modifies `ptr, `size, `freep, `f, `live, `core
      ensures grant == -1 ==>
            p == 0 && ptr == old(ptr) && size == old(size) && freep == old(freep) && f == old(f) && live == old(live)
            && core == old(core)
      ensures grant >= 0 ==>
            Valid() && p == freep != 0 && live == old(live) && core == old(core) + UnitsOf(Blk(grant, Core(nunits)))
      ensures grant >= 0 ==>
            Place(old(f), Blk(grant, Core(nunits)), k) && f == Freed(old(f), Blk(grant, Core(nunits)), k) && k < |f|
            && freep == f[k].a
    {
      var nu := nunits;
      if nu < MORECORE {
        nu := MORECORE;
      }
      k := 0;
      if grant == -1 {
        return 0, k;
      }
      var hp: nat := grant;
      FreshBlock(base, ptr, size, freep, f, live, core, hp, nu, size[hp := nu], live[hp := nu]);
      size := size[hp := nu];
      live, core := live[hp := nu], core + UnitsOf(Blk(hp, nu));
      k := Free(hp + 1);
      assert live == old(live);
      p := freep;
    }

    /** Block j, or the end of it, goes to the caller. */
    method Take(prevp: nat, p: nat, nunits: nat, ghost j: nat) returns (r: nat)
      requires Valid() && freep != 0 && 1 <= j < |f| && p == f[j].a && prevp == f[j - 1].a && 1 <= nunits <= f[j].n
      modifies `ptr, `size, `freep, `f, `live
      ensures Valid() && freep == prevp != 0 && r == Piece(old(f), j, nunits).a + 1
      ensures f == Carved(old(f), j, nunits) && r - 1 !in old(live) && live == old(live)[r - 1 := nunits]
    {
      CarvedSorted(f, j, nunits);
      CarvedCovers(f, j, nunits);
      ghost var b, g := Piece(f, j, nunits), Carved(f, j, nunits);
      Strict(f, 0, j);
      if j > 1 { Strict(f, 0, j - 1); }
      PieceNotLive(base, size, f, live, j, nunits);
      var q := Carve(prevp, p, nunits, j);
      assert g[0].a == base && g[j - 1].a == prevp;
      TakenLives(base, old(size), f, live, b, g, size, live[q := nunits]);
      TakenParts(f, live, core, b, g, live[q := nunits]);
      f, live, freep := g, live[q := nunits], prevp;
      r := q + 1;
    }

    method Carve(prevp: nat, p: nat, nunits: nat, ghost j: nat) returns (q: nat)
      requires Sorted(f) && Rep(ptr, size, f) && 1 <= j < |f| && p == f[j].a && prevp == f[j - 1].a
            && 1 <= nunits <= f[j].n
      modifies `ptr, `size
      ensures q == Piece(f, j, nunits).a && Rep(ptr, size, Carved(f, j, nunits)) && q in size && size[q] == nunits
      ensures forall a :: a in old(size) && a != p && a != q ==> a in size && size[a] == old(size)[a]
    {
      assert LinkAt(ptr, size, f, j) && LinkAt(ptr, size, f, j - 1);
      SortedRises(f);
      q := p;
      if size[p] == nunits {
        RemovedRep(ptr, size, f, j, ptr[prevp := ptr[p]]);
        ptr := ptr[prevp := ptr[p]];
      } else {
        ShortenedRep(ptr, size, f, j, nunits, size[p := size[p] - nunits][p + (size[p] - nunits) := nunits]);
        size := size[p := size[p] - nunits];
        q := p + size[p];
        size := size[q := nunits];
      }
    }

    /** The first call finds no list and makes base its only block. */
    method Begin()
      requires Valid() && freep == 0
      modifies `ptr, `size, `freep, `f
      ensures Valid() && freep == base && f == [Blk(base, 0)]
    {
      ptr, size, freep, f := ptr[base := base], size[base := 0], base, [Blk(base, 0)];
      assert forall i: nat :: LinkAt(ptr, size, f, i) && Good(f, i) && Gap(f, i);
      assert f[0].a == freep;
    }

    /** malloc.  `grant` is what the kernel answers if it is asked for more memory;
        `cores` counts how often it is. */
    method Malloc(nbytes: nat, grant: int) returns (r: nat, cores: nat)
      requires Valid() && nbytes < TWO32 && Units(nbytes) < SBRK_MAX && Grants(base, core, grant)
      modifies `ptr, `size, `freep, `f, `live, `core
      ensures Valid() && freep != 0 && cores <= 1 && (cores == 0 ==> r != 0)
      ensures r != 0 ==> r - 1 !in old(live) && live == old(live)[r - 1 := Units(nbytes)]
      ensures r == 0 ==> grant == -1 && live == old(live) && (old(freep) != 0 ==> f == old(f))
      ensures core == if cores == 1 && grant != -1 then old(core) + UnitsOf(Blk(grant, Core(Units(nbytes))))
            else old(core)
      ensures cores == 1 <==> NoneFits(old(f), Units(nbytes))
      ensures cores == 0 ==> Chosen(old(f), old(freep), Units(nbytes), f, r)
    {
      var nunits := (nbytes + HEADER - 1) % TWO32 / HEADER + 1;
      if freep == 0 {
        Begin();
      }
      r, cores := Hunt(nunits, grant);
    }

    /** The loop of malloc: once round the list, then once more after morecore. */
    method Hunt(nunits: nat, grant: int) returns (r: nat, cores: nat)
      requires Valid() && freep != 0 && nunits >= 1 && Grants(base, core, grant)
      modifies `ptr, `size, `freep, `f, `live, `core
      ensures Valid() && freep != 0 && cores <= 1 && (cores == 0 ==> r != 0)
      ensures r != 0 ==> r - 1 !in old(live) && live == old(live)[r - 1 := nunits]
      ensures r == 0 ==> grant == -1 && live == old(live) && f == old(f)
      ensures core == if cores == 1 && grant != -1 then old(core) + UnitsOf(Blk(grant, Core(nunits))) else old(core)
      ensures cores == 1 <==> NoneFits(old(f), nunits)
      ensures cores == 0 ==> Chosen(old(f), old(freep), nunits, f, r)
    {
      var prevp := freep;
      ghost var at: nat :| at < |f| && f[at].a == freep;
      ghost var w := Walk(at, at, Succ(at, |f|), at);
      var p := NextOf(prevp, at);
      cores := 0;
      NextOnCircle(f, at, at, at, nunits);
      while true
        invariant Hunting(cores, w, prevp, p, nunits, grant, old(f), old(freep), old(live), old(core))
        decreases 1 - cores, |f| - Rank(w.at, w.j, |f|)
      {
        var large := IsLarge(p, nunits, w.j);
        if large {
          r := TakeHere(cores, w, prevp, p, nunits, grant, old(f), old(freep), old(live), old(core));
          return;
        }
        if p == freep {
          p, w := AskForMore(cores, w, prevp, p, nunits, grant, old(f), old(freep), old(live), old(core));
          cores := cores + 1;
          if p == 0 {
            return 0, cores;
          }
        } else {
          Onward(f, w, freep, prevp, p, nunits);
          w := w.(i := w.j, j := Succ(w.j, |f|));
        }
        prevp := p;
        p := NextOf(p, w.i);
      }
    }

    /** The loop's invariant: on the first round no block passed is large enough, and nothing has changed; after
        morecore one that is lies ahead. */
    ghost predicate Hunting(cores: nat, w: Walk, prevp: nat, p: nat, n: nat, grant: int, f0: seq<Blk>, freep0: nat,
                            live0: map<nat, nat>, core0: set<nat>)
      reads this
    {
      && Valid() && freep != 0 && live == live0 && Circling(f, w, freep, prevp, p) && cores <= 1
      && (cores == 0 ==> f == f0 && freep == freep0 && core == core0 && Passed(f, w.at, w.j, n))
      && (cores == 1 ==>
            Refilled(f, w, n) && grant >= 0 && core == core0 + UnitsOf(Blk(grant, Core(n))) && NoneFits(f0, n))
    }

    method TakeHere(cores: nat, ghost w: Walk, prevp: nat, p: nat, n: nat, grant: int, ghost f0: seq<Blk>,
                    ghost freep0: nat, ghost live0: map<nat, nat>, ghost core0: set<nat>) returns (r: nat)
      requires Hunting(cores, w, prevp, p, n, grant, f0, freep0, live0, core0) && f[w.j].n >= n >= 1
      modifies `ptr, `size, `freep, `f, `live
      ensures Valid() && freep != 0 && r != 0 && r - 1 !in live0 && live == live0[r - 1 := n]
      ensures cores == 0 ==> Chosen(f0, freep0, n, f, r) && !NoneFits(f0, n)
    {
      if cores == 0 { ChosenBy(f, freep, w.at, w.j, n); }
      r := Take(prevp, p, n, w.j);
    }

    method AskForMore(cores: nat, ghost w: Walk, prevp: nat, p: nat, n: nat, grant: int, ghost f0: seq<Blk>,
                      ghost freep0: nat, ghost live0: map<nat, nat>, ghost core0: set<nat>)
      returns (q: nat, ghost w2: Walk)
      requires Hunting(cores, w, prevp, p, n, grant, f0, freep0, live0, core0) && f[w.j].n < n && p == freep
      requires n >= 1 && Grants(base, core0, grant)
      modifies `ptr, `size, `freep, `f, `live, `core
      ensures cores == 0 && NoneFits(f0, n) && Valid() && freep != 0 && live == live0
      ensures q == 0 ==> grant == -1 && f == f0 && core == core0
      ensures q != 0 ==> q == freep && grant >= 0 && core == core0 + UnitsOf(Blk(grant, Core(n)))
      ensures q != 0 ==>
            w2.at == w2.i < |f| && w2.j == Succ(w2.i, |f|) && freep == f[w2.at].a && Refilled(f, w2, n)
    {
      LastStop(f, w, freep, prevp, p, n);
      q, w2 := Refill(n, grant);
    }

    method IsLarge(p: nat, nunits: nat, ghost j: nat) returns (b: bool)
      requires Valid() && freep != 0 && j < |f| && p == f[j].a
      ensures b <==> f[j].n >= nunits
    {
      assert LinkAt(ptr, size, f, j);
      b := size[p] >= nunits;
    }

    method NextOf(p: nat, ghost i: nat) returns (q: nat)
      requires Valid() && freep != 0 && i < |f| && p == f[i].a
      ensures q == f[Succ(i, |f|)].a
    {
      assert LinkAt(ptr, size, f, i);
      q := ptr[p];
    }

    /** morecore, and where the new block can be found afterwards. */
    method Refill(nunits: nat, grant: int) returns (p: nat, ghost w: Walk)
      requires Valid() && freep != 0 && nunits >= 1 && Grants(base, core, grant)
      modifies `ptr, `size, `freep, `f, `live, `core
      ensures Valid() && live == old(live) && freep != 0
      ensures grant == -1 ==> p == 0 && f == old(f) && core == old(core)
      ensures grant >= 0 ==> p == freep && core == old(core) + UnitsOf(Blk(grant, Core(nunits)))
      ensures grant >= 0 ==> w.at == w.i < |f| && w.j == Succ(w.i, |f|) && freep == f[w.at].a && Refilled(f, w, nunits)
    {
      ghost var k;
      p, k := Morecore(nunits, grant);
      w := Walk(k, k, Succ(k, |f|), k);
      if p != 0 {
        ghost var m := FreedFits(old(f), Blk(grant, Core(nunits)), k);
        w := w.(m := m);
        NextOnCircle(f, k, k, m, nunits);
      }
    }
  }

  /** Where malloc is on its way round: freep's block, the one before, the one
      looked at, and after morecore one that is large enough. */
  datatype Walk = Walk(at: nat, i: nat, j: nat, m: nat)

  /** The block that is large enough still lies ahead. */
  ghost predicate Refilled(f: seq<Blk>, w: Walk, n: nat) {
    w.m < |f| && f[w.m].n >= n && w.at < |f| && w.j < |f| && Rank(w.at, w.j, |f|) <= Rank(w.at, w.m, |f|)
  }

  lemma LastStop(f: seq<Blk>, w: Walk, freep: nat, prevp: nat, p: nat, n: nat)
    requires Sorted(f) && Circling(f, w, freep, prevp, p) && p == freep && f[w.j].n < n
    ensures Passed(f, w.at, w.j, n) ==> NoneFits(f, n)
    ensures !Refilled(f, w, n)
  {
    SameHeader(f, w.j, w.at);
    FullCircle(f, w.at, n);
  }

  lemma Onward(f: seq<Blk>, w: Walk, freep: nat, prevp: nat, p: nat, n: nat)
    requires Sorted(f) && Circling(f, w, freep, prevp, p) && p != freep && f[w.j].n < n
    ensures var w2 := w.(i := w.j, j := Succ(w.j, |f|));
            (Passed(f, w.at, w.j, n) ==> Passed(f, w.at, w2.j, n)) && (Refilled(f, w, n) ==> Refilled(f, w2, n))
            && Rank(w.at, w.j, |f|) < Rank(w.at, w2.j, |f|) < |f|
  {
    NextOnCircle(f, w.at, w.j, w.m, n);
    NextOnCircle(f, w.at, Succ(w.j, |f|), w.m, n);
  }

  lemma SameHeader(f: seq<Blk>, i: nat, j: nat)
    requires Sorted(f) && i < |f| && j < |f| && f[i].a == f[j].a
    ensures i == j
  {
    SortedRises(f);
    if i != j { Elsewhere(f, i, j); }
  }

  /** More units would make sbrk's signed byte count negative. */
  const SBRK_MAX: nat := 0x1000_0000

  /** What morecore hands to sbrk, whose argument is an int. */
  function SbrkArg(nu: nat): int {
    var bytes := nu * HEADER % TWO32;
    if bytes < TWO31 then bytes else bytes - TWO32
  }

  /** morecore asks the kernel for the block's bytes exactly below 2^28 units. From there on it asks for nothing or
      gives memory back, and still treats what it gets as the block. */
  lemma SbrkAsksIff(nbytes: nat)
    requires nbytes < TWO32
    ensures SbrkArg(Core(Units(nbytes))) == Core(Units(nbytes)) * HEADER <==> Units(nbytes) < SBRK_MAX
    ensures Units(nbytes) >= SBRK_MAX ==> SbrkArg(Core(Units(nbytes))) <= 0
  {
    assert Units(nbytes) <= 0x2000_0000;
  }

  ghost predicate NoneFits(f: seq<Blk>, n: nat) {
    forall i :: 0 <= i < |f| ==> f[i].n < n
  }

  /** No block between the successor of `at` and j fits. */
  ghost predicate Passed(f: seq<Blk>, at: nat, j: nat, n: nat) {
    forall i :: 0 <= i < |f| && Rank(at, i, |f|) < Rank(at, j, |f|) ==> f[i].n < n
  }

  /** Next fit: the piece comes off the end of the first block behind freep that is large enough. */
  ghost predicate Chosen(f: seq<Blk>, freep: nat, n: nat, g: seq<Blk>, r: nat) {
    exists at: nat, j: nat :: Fits(f, freep, at, j, n) && g == Carved(f, j, n) && r == Piece(f, j, n).a + 1
  }

  ghost predicate Fits(f: seq<Blk>, freep: nat, at: nat, j: nat, n: nat) {
    at < |f| && f[at].a == freep && j < |f| && f[j].n >= n && Passed(f, at, j, n)
  }

  predicate Circling(f: seq<Blk>, w: Walk, freep: nat, prevp: nat, p: nat) {
    w.at < |f| && w.i < |f| && w.j == Succ(w.i, |f|) && freep == f[w.at].a && prevp == f[w.i].a && p == f[w.j].a
  }

  lemma ChosenBy(f: seq<Blk>, freep: nat, at: nat, j: nat, n: nat)
    requires at < |f| && f[at].a == freep && j < |f| && f[j].n >= n && Passed(f, at, j, n)
    ensures Chosen(f, freep, n, Carved(f, j, n), Piece(f, j, n).a + 1) && !NoneFits(f, n)
  {
    assert Fits(f, freep, at, j, n);
  }

  /** Back at freep, every block has been looked at. */
  lemma FullCircle(f: seq<Blk>, at: nat, n: nat)
    requires at < |f| && f[at].n < n
    ensures Passed(f, at, at, n) ==> NoneFits(f, n)
    ensures forall m :: 0 <= m < |f| && Rank(at, at, |f|) <= Rank(at, m, |f|) ==> m == at
  {
    if Passed(f, at, at, n) {
      forall i | 0 <= i < |f| ensures f[i].n < n { assert i == at || Rank(at, i, |f|) < Rank(at, at, |f|); }
    }
  }

  lemma NextOnCircle(f: seq<Blk>, at: nat, j: nat, m: nat, n: nat)
    requires at < |f| && j < |f|
    ensures m < |f| && j == at ==> Rank(at, Succ(j, |f|), |f|) <= Rank(at, m, |f|)
    ensures m < |f| && j != at && m != j && Rank(at, j, |f|) <= Rank(at, m, |f|) ==>
          Rank(at, Succ(j, |f|), |f|) <= Rank(at, m, |f|)
    ensures j != at ==> Rank(at, Succ(j, |f|), |f|) == Rank(at, j, |f|) + 1
    ensures j == at ==> Rank(at, Succ(j, |f|), |f|) == 0
    ensures j != at && f[j].n < n && Passed(f, at, j, n) ==> Passed(f, at, Succ(j, |f|), n)
    ensures Rank(at, j, |f|) < |f|
  {
    if j != at && f[j].n < n && Passed(f, at, j, n) {
      forall i | 0 <= i < |f| && Rank(at, i, |f|) < Rank(at, Succ(j, |f|), |f|) ensures f[i].n < n {
        assert i == j || Rank(at, i, |f|) < Rank(at, j, |f|);
      }
    }
  }

  /** The address the kernel gives lies above everything given before. */
  predicate Grants(base: nat, core: set<nat>, grant: int) {
    grant == -1 || (grant > base && forall x :: x in core ==> x < grant)
  }

  function Core(nunits: nat): nat {
    if nunits < MORECORE then MORECORE else nunits
  }

  function UnitsOf(b: Blk): set<nat> {
    set x: nat | b.a <= x < b.a + b.n && Inside(b, x)
  }

  lemma FreshBlock(base: nat, ptr: map<nat, nat>, size: map<nat, nat>, freep: nat, f: seq<Blk>, live: map<nat, nat>,
                   core: set<nat>, hp: nat, nu: nat,
                   size2: map<nat, nat>, live2: map<nat, nat>)
    requires Whole(base, ptr, size, freep, f, live, core) && freep != 0 && Grants(base, core, hp) && nu >= 1
    requires size2 == size[hp := nu] && live2 == live[hp := nu]
    ensures hp !in live && Whole(base, ptr, size2, freep, f, live2, core + UnitsOf(Blk(hp, nu)))
  {
    var b := Blk(hp, nu);
    forall i | 0 <= i < |f| ensures Apart(f[i], b) && f[i].a != hp {
      if f[i].n >= 1 { assert Inside(f[i], f[i].a + f[i].n - 1); assert Covers(f, f[i].a + f[i].n - 1); }
      else { assert Good(f, i) && i == 0; }
    }
    forall a | a in live ensures Apart(Blk(a, live[a]), b) && a != hp {
      assert LiveOk(base, size, f, live, a);
      assert Inside(Blk(a, live[a]), a + live[a] - 1);
      assert LiveAt(live, a + live[a] - 1);
    }
    forall i: nat ensures LinkAt(ptr, size2, f, i) { assert LinkAt(ptr, size, f, i); }
    forall a: nat ensures LiveOk(base, size2, f, live2, a) { assert LiveOk(base, size, f, live, a); }
    FreshParts(f, live, core, b, live2);
  }

  lemma FreshParts(f: seq<Blk>, live: map<nat, nat>, core: set<nat>, b: Blk, live2: map<nat, nat>)
    requires Parts(f, live, core) && b.a !in live && live2 == live[b.a := b.n]
    ensures Parts(f, live2, core + UnitsOf(b))
  {
    forall x: nat ensures x in core + UnitsOf(b) <==> Covers(f, x) || LiveAt(live2, x) {
      if LiveAt(live, x) {
        var a :| a in live && Inside(Blk(a, live[a]), x);
        assert a in live2 && Inside(Blk(a, live2[a]), x);
      }
      if LiveAt(live2, x) {
        var a :| a in live2 && Inside(Blk(a, live2[a]), x);
        assert a == b.a || (a in live && Inside(Blk(a, live[a]), x));
      }
      if Inside(b, x) { assert b.a in live2 && Inside(Blk(b.a, live2[b.a]), x); }
    }
  }

  lemma PieceNotLive(base: nat, size: map<nat, nat>, f: seq<Blk>, live: map<nat, nat>, j: nat, n: nat)
    requires Sorted(f) && Lives(base, size, f, live) && 1 <= j < |f| && 1 <= n <= f[j].n
    ensures Piece(f, j, n).a !in live && f[j].a !in live && forall a :: a in live ==> a in size
  {
    forall a | a in live
      ensures a in size && Apart(f[j], Blk(a, live[a])) && live[a] >= 1
    {
      assert LiveOk(base, size, f, live, a);
    }
  }

  lemma PlaceOf(f: seq<Blk>, b: Blk, k: nat)
    requires Sorted(f) && ApartAll(f, b) && b.n >= 1 && k < |f| && f[k].a < b.a && (k + 1 < |f| ==> b.a <= f[k + 1].a)
    ensures Place(f, b, k)
  {
    if k + 1 < |f| { assert Apart(f[k + 1], b) && Good(f, k + 1); }
  }

  // ------------------------------------------------------------ consequences

  /** Giving back at once what malloc has just carved off restores the list. */
  lemma FreeUndoesMalloc(f: seq<Blk>, j: nat, n: nat, k: nat)
    requires Sorted(f) && 1 <= j < |f| && 1 <= n <= f[j].n && Place(Carved(f, j, n), Piece(f, j, n), k)
    ensures Freed(Carved(f, j, n), Piece(f, j, n), k) == f
  {
    var g, b := Carved(f, j, n), Piece(f, j, n);
    Strict(f, 0, j);
    CarvedSorted(f, j, n);
    CarvedCovers(f, j, n);
    FreedRight(g, b, k);
    var m := FreedFits(g, b, k);
    SameList(Freed(g, b, k), f);
  }

  /** In which order two blocks are given back makes no difference to the list. */
  lemma FreeOrder(f: seq<Blk>, b: Blk, c: Blk, k: nat, l: nat, k2: nat, l2: nat)
    requires Sorted(f) && b.n >= 1 && c.n >= 1 && ApartAll(f, b) && ApartAll(f, c) && Apart(b, c) && f[0].a < b.a
          && f[0].a < c.a
    requires Place(f, b, k) && Place(Freed(f, b, k), c, l) && Place(f, c, k2) && Place(Freed(f, c, k2), b, l2)
    ensures Freed(Freed(f, b, k), c, l) == Freed(Freed(f, c, k2), b, l2)
  {
    FreedTwice(f, b, c, k, l);
    FreedTwice(f, c, b, k2, l2);
    SameList(Freed(Freed(f, b, k), c, l), Freed(Freed(f, c, k2), b, l2));
  }

  lemma FreedTwice(f: seq<Blk>, b: Blk, c: Blk, k: nat, l: nat)
    requires Sorted(f) && b.n >= 1 && c.n >= 1 && ApartAll(f, b) && ApartAll(f, c) && Apart(b, c) && f[0].a < b.a
          && f[0].a < c.a
    requires Place(f, b, k) && Place(Freed(f, b, k), c, l)
    ensures Sorted(Freed(Freed(f, b, k), c, l)) && Freed(Freed(f, b, k), c, l)[0] == f[0]
    ensures forall x: nat :: Covers(Freed(Freed(f, b, k), c, l), x) <==> Covers(f, x) || Inside(b, x) || Inside(c, x)
  {
    var g := Freed(f, b, k);
    FreedRight(f, b, k);
    var m := FreedFits(f, b, k);
    forall i | 0 <= i < |g| ensures Apart(g[i], c) {
      assert Good(g, i);
      ApartByUnits(f, b, g, c, i);
    }
    FreedRight(g, c, l);
    m := FreedFits(g, c, l);
  }
}
