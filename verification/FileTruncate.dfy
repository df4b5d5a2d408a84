/** What itrunc frees: the direct blocks, the second-level index blocks and the top index block, but not the data
    blocks that the second-level blocks list. */
module FileTruncate {
  import opened Blocks
  import opened Bitmap
  import opened FileTree
  import opened FileGrowth

  /** The places of file i whose blocks have been freed: direct ones below kd, second-level ones below jm, perhaps the
      top. */
  predicate Dropped(i: nat, kd: nat, jm: nat, top: bool, p: Place) {
    p.i == i && ((p.D? && p.k < kd) || (p.M? && p.j < jm) || (p.T? && top))
  }

  ghost predicate Hit(d: Disk, n: seq<Inode>, i: nat, kd: nat, jm: nat, top: bool, b: nat) {
    exists p | Valid(|n|, p) && Dropped(i, kd, jm, top, p) :: Ptr(d, n, p) == b
  }

  /** d is d0 with those blocks marked free, and no other change outside the bitmap. */
  ghost predicate FreeUpto(g: Geometry, d0: Disk, n0: seq<Inode>, d: Disk, i: nat, kd: nat, jm: nat, top: bool) {
    && GeometryOk(g, d0) && GeometryOk(g, d) && (forall b | g.data <= b < g.size :: d[b] == d0[b])
    && (forall b | 0 < b < g.size :: Used(g, d, b) == (Used(g, d0, b) && !Hit(d0, n0, i, kd, jm, top, b)))
    && Used(g, d, 0) == Used(g, d0, 0)
  }

  lemma FreeNothing(g: Geometry, d: Disk, n: seq<Inode>, i: nat)
    requires GeometryOk(g, d)
    ensures FreeUpto(g, d, n, d, i, 0, 0, false)
  {
    forall b | 0 < b < g.size ensures !Hit(d, n, i, 0, 0, false, b) {
    }
  }

  /** One place more; its block, if there is one, is still marked used. */
  lemma FreeOne(g: Geometry, d0: Disk, n0: seq<Inode>, d: Disk, i: nat, k: nat, j: nat, t: bool, k': nat, j': nat,
                t': bool, p: Place)
    requires Owned(g, d0, n0) && FreeUpto(g, d0, n0, d, i, k, j, t) && Valid(|n0|, p) && !Dropped(i, k, j, t, p)
    requires forall q :: Dropped(i, k', j', t', q) <==> Dropped(i, k, j, t, q) || q == p
    ensures Ptr(d0, n0, p) == 0 ==> FreeUpto(g, d0, n0, d, i, k', j', t')
    ensures Ptr(d0, n0, p) != 0 ==> var x := Ptr(d0, n0, p);
              x < g.size && Used(g, d, x) && FreeUpto(g, d0, n0, Unmarked(g, d, x), i, k', j', t')
  {
    var x := Ptr(d0, n0, p);
    assert x != 0 ==> InData(g, d0, x);
    forall b | 0 < b < g.size ensures Hit(d0, n0, i, k', j', t', b) <==> Hit(d0, n0, i, k, j, t, b) || b == x {
      if b == x { assert Dropped(i, k', j', t', p); }
    }
    if x != 0 {
      assert !Hit(d0, n0, i, k, j, t, x);
      var d' := Unmarked(g, d, x);
      BBlockInRange(g, d, x);
      forall b | 0 <= b < g.size ensures Used(g, d', b) == (b != x && Used(g, d, b)) { UsedOfUnmarked(g, d, x, b); }
    }
  }

  lemma FreeDirect(g: Geometry, d0: Disk, n0: seq<Inode>, d: Disk, i: nat, k: nat)
    requires Owned(g, d0, n0) && FreeUpto(g, d0, n0, d, i, k, 0, false) && i < |n0| && k < NDIRECT
    ensures var x := n0[i].addrs[k];
            if x == 0 then FreeUpto(g, d0, n0, d, i, k + 1, 0, false)
            else x < g.size && Used(g, d, x) && FreeUpto(g, d0, n0, Unmarked(g, d, x), i, k + 1, 0, false)
  {
    FreeOne(g, d0, n0, d, i, k, 0, false, k + 1, 0, false, D(i, k));
  }

  lemma FreeMid(g: Geometry, d0: Disk, n0: seq<Inode>, d: Disk, i: nat, j: nat)
    requires Owned(g, d0, n0) && FreeUpto(g, d0, n0, d, i, NDIRECT, j, false) && i < |n0| && j < NINDIRECT
    ensures var x := Ptr(d0, n0, M(i, j));
            if x == 0 then FreeUpto(g, d0, n0, d, i, NDIRECT, j + 1, false)
            else x < g.size && Used(g, d, x) && FreeUpto(g, d0, n0, Unmarked(g, d, x), i, NDIRECT, j + 1, false)
  {
    FreeOne(g, d0, n0, d, i, NDIRECT, j, false, NDIRECT, j + 1, false, M(i, j));
  }

  lemma FreeTop(g: Geometry, d0: Disk, n0: seq<Inode>, d: Disk, i: nat)
    requires Owned(g, d0, n0) && FreeUpto(g, d0, n0, d, i, NDIRECT, NINDIRECT, false) && i < |n0|
    ensures var x := Ptr(d0, n0, T(i));
            if x == 0 then FreeUpto(g, d0, n0, d, i, NDIRECT, NINDIRECT, true)
            else x < g.size && Used(g, d, x) && FreeUpto(g, d0, n0, Unmarked(g, d, x), i, NDIRECT, NINDIRECT, true)
  {
    FreeOne(g, d0, n0, d, i, NDIRECT, NINDIRECT, false, NDIRECT, NINDIRECT, true, T(i));
  }

  /** Without a top block there are no second-level blocks to free. */
  lemma FreeNoTop(g: Geometry, d0: Disk, n0: seq<Inode>, d: Disk, i: nat)
    requires Owned(g, d0, n0) && FreeUpto(g, d0, n0, d, i, NDIRECT, 0, false) && i < |n0| && Ptr(d0, n0, T(i)) == 0
    ensures FreeUpto(g, d0, n0, d, i, NDIRECT, NINDIRECT, true)
  {
    forall b | 0 < b < g.size
      ensures Hit(d0, n0, i, NDIRECT, NINDIRECT, true, b) == Hit(d0, n0, i, NDIRECT, 0, false, b)
    {
      if Hit(d0, n0, i, NDIRECT, NINDIRECT, true, b) {
        var p :| Valid(|n0|, p) && Dropped(i, NDIRECT, NINDIRECT, true, p) && Ptr(d0, n0, p) == b;
        assert Dropped(i, NDIRECT, 0, false, p);
      }
    }
  }

  /** An inode without contents. */
  predicate Blank(x: Inode) {
    x.size == 0 && forall k | 0 <= k <= NDIRECT :: x.addrs[k] == 0
  }

  /** The file is empty, the others keep their blocks. */
  lemma TruncatedPtr(g: Geometry, d0: Disk, n0: seq<Inode>, d: Disk, i: nat, n: seq<Inode>, q: Place)
    requires Owned(g, d0, n0) && FreeUpto(g, d0, n0, d, i, NDIRECT, NINDIRECT, true) && i < |n0| && Valid(|n0|, q)
    requires |n| == |n0| && Blank(n[i]) && OthersStay(n0, n, i)
    ensures Ptr(d, n, q) == if q.i == i then 0 else Ptr(d0, n0, q)
  {
    if q.i != i {
      assert Ptr(d0, n0, T(q.i)) != 0 ==> InData(g, d0, Ptr(d0, n0, T(q.i)));
      if q.L? { assert Ptr(d0, n0, M(q.i, q.j)) != 0 ==> InData(g, d0, Ptr(d0, n0, M(q.i, q.j))); }
    }
  }

  /** What is left after truncating file i. */
  ghost predicate Truncated(g: Geometry, d0: Disk, n0: seq<Inode>, d: Disk, n: seq<Inode>, i: nat) {
    && Owned(g, d, n) && |n| == |n0| && i < |n| && Blank(n[i]) && OthersStay(n0, n, i)
    && (forall k, o | 0 <= k < |n| && k != i && 0 <= o < MAXFILE * BSIZE :: ByteAt(d, n, k, o) == ByteAt(d0, n0, k, o))
    && (forall q | Valid(|n|, q) :: Ptr(d, n, q) == if q.i == i then 0 else Ptr(d0, n0, q))
    && FreeUpto(g, d0, n0, d, i, NDIRECT, NINDIRECT, true)
  }

  lemma TruncatedUsed(g: Geometry, d0: Disk, n0: seq<Inode>, d: Disk, i: nat, q: Place)
    requires Owned(g, d0, n0) && FreeUpto(g, d0, n0, d, i, NDIRECT, NINDIRECT, true) && i < |n0| && Valid(|n0|, q)
    requires q.i != i || q.L?
    requires Ptr(d0, n0, q) != 0
    ensures InData(g, d, Ptr(d0, n0, q))
  {
    var x := Ptr(d0, n0, q);
    assert InData(g, d0, x);
  }

  lemma MetaNotHit(g: Geometry, d: Disk, n: seq<Inode>, i: nat, b: nat)
    requires Owned(g, d, n) && b < g.data
    ensures b != 0 ==> !Hit(d, n, i, NDIRECT, NINDIRECT, true, b)
  {
    assert forall p | Valid(|n|, p) && Ptr(d, n, p) != 0 :: InData(g, d, Ptr(d, n, p));
  }

  lemma TruncatedOwned(g: Geometry, d0: Disk, n0: seq<Inode>, d: Disk, i: nat, n: seq<Inode>)
    requires Owned(g, d0, n0) && FreeUpto(g, d0, n0, d, i, NDIRECT, NINDIRECT, true) && i < |n0|
    requires |n| == |n0| && Blank(n[i]) && OthersStay(n0, n, i)
    ensures Truncated(g, d0, n0, d, n, i)
  {
    forall q | Valid(|n|, q) ensures Ptr(d, n, q) == if q.i == i then 0 else Ptr(d0, n0, q) {
      TruncatedPtr(g, d0, n0, d, i, n, q);
    }
    forall q | Valid(|n|, q) && Ptr(d, n, q) != 0 ensures InData(g, d, Ptr(d, n, q)) {
      TruncatedUsed(g, d0, n0, d, i, q);
    }
    forall b | 0 <= b < g.data ensures Used(g, d, b) {
      MetaNotHit(g, d0, n0, i, b);
    }
    forall k, o | 0 <= k < |n| && k != i && 0 <= o < MAXFILE * BSIZE
      ensures ByteAt(d, n, k, o) == ByteAt(d0, n0, k, o)
    {
      SlotValid(|n|, k, o / BSIZE);
      var q := SlotOf(k, o / BSIZE);
      assert Ptr(d0, n0, q) != 0 ==> InData(g, d0, Ptr(d0, n0, q));
    }
  }

  /** Only half of ownership has a converse: a block that held data behind the index blocks stays marked used although
      no place refers to it any more; every other block of the file is free again. */
  lemma TruncateLeaks(g: Geometry, d0: Disk, n0: seq<Inode>, d: Disk, n: seq<Inode>, i: nat, p: Place)
    requires Owned(g, d0, n0) && Truncated(g, d0, n0, d, n, i) && Valid(|n0|, p) && p.i == i && Ptr(d0, n0, p) != 0
    ensures Unlinked(d, n, Ptr(d0, n0, p))
    ensures Ptr(d0, n0, p) < g.size && (Used(g, d, Ptr(d0, n0, p)) <==> p.L?)
  {
    var x := Ptr(d0, n0, p);
    assert InData(g, d0, x);
    if p.L? {
      TruncatedUsed(g, d0, n0, d, i, p);
    } else {
      assert Dropped(i, NDIRECT, NINDIRECT, true, p);
      assert Hit(d0, n0, i, NDIRECT, NINDIRECT, true, x);
    }
    forall q | Valid(|n|, q) ensures Ptr(d, n, q) != x {
      assert Ptr(d, n, q) == if q.i == i then 0 else Ptr(d0, n0, q);
    }
  }
}
