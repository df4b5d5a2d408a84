/** Allocating blocks for a file changes no byte of any file: a missing block reads as zeros, a fresh one is zeroed. */
module FileGrowth {
  import opened Blocks
  import opened Bitmap
  import opened FileTree

  ghost predicate Zero(x: Block) {
    forall k | 0 <= k < BSIZE :: x[k] == 0
  }

  lemma ZeroIsEmpty(x: Block)
    requires Zero(x)
    ensures Empty(x)
  {
  }

  /** The places that refer to a block keep it. */
  ghost predicate PtrsStay(disk: Disk, inodes: seq<Inode>, disk': Disk, inodes': seq<Inode>) {
    |inodes'| == |inodes| && forall q | Valid(|inodes|, q) && Ptr(disk, inodes, q) != 0 ::
      Ptr(disk', inodes', q) == Ptr(disk, inodes, q)
  }

  /** Every file reads the same. */
  ghost predicate BytesStay(disk: Disk, inodes: seq<Inode>, disk': Disk, inodes': seq<Inode>) {
    |inodes'| == |inodes| && forall i, o | 0 <= i < |inodes| && 0 <= o < MAXFILE * BSIZE ::
      ByteAt(disk', inodes', i, o) == ByteAt(disk, inodes, i, o)
  }

  ghost predicate SizesStay(inodes: seq<Inode>, inodes': seq<Inode>) {
    |inodes'| == |inodes| && forall i | 0 <= i < |inodes| :: inodes'[i].size == inodes[i].size
  }

  /** The inodes other than i are untouched. */
  ghost predicate OthersStay(inodes: seq<Inode>, inodes': seq<Inode>, i: nat) {
    |inodes'| == |inodes| && forall k | 0 <= k < |inodes| && k != i :: inodes'[k] == inodes[k]
  }

  /** Blocks may have been added to file i; nothing else is different for a reader. */
  ghost predicate Grows(disk: Disk, inodes: seq<Inode>, disk': Disk, inodes': seq<Inode>, i: nat) {
    && |disk'| == |disk| && SizesStay(inodes, inodes') && OthersStay(inodes, inodes', i)
    && PtrsStay(disk, inodes, disk', inodes') && BytesStay(disk, inodes, disk', inodes')
  }

  lemma GrowsRefl(disk: Disk, inodes: seq<Inode>, i: nat)
    ensures Grows(disk, inodes, disk, inodes, i)
  {
  }

  lemma GrowsTrans(d0: Disk, n0: seq<Inode>, d1: Disk, n1: seq<Inode>, d2: Disk, n2: seq<Inode>, i: nat)
    requires Grows(d0, n0, d1, n1, i) && Grows(d1, n1, d2, n2, i)
    ensures Grows(d0, n0, d2, n2, i)
  {
    forall q | Valid(|n0|, q) && Ptr(d0, n0, q) != 0 ensures Ptr(d2, n2, q) == Ptr(d0, n0, q) {
      assert Ptr(d1, n1, q) == Ptr(d0, n0, q);
    }
    forall k, o | 0 <= k < |n0| && 0 <= o < MAXFILE * BSIZE ensures ByteAt(d2, n2, k, o) == ByteAt(d0, n0, k, o) {
      assert ByteAt(d1, n1, k, o) == ByteAt(d0, n0, k, o);
    }
  }

  /** A byte stays when its block stays and keeps its contents. */
  lemma ByteSame(disk: Disk, inodes: seq<Inode>, disk': Disk, inodes': seq<Inode>, i: nat, o: nat)
    requires i < |inodes| == |inodes'| && o < MAXFILE * BSIZE && |disk'| == |disk|
    requires var q := SlotOf(i, o / BSIZE);
             Valid(|inodes|, q) && Ptr(disk', inodes', q) == Ptr(disk, inodes, q)
               && Same(disk, disk', Ptr(disk, inodes, q))
    ensures ByteAt(disk', inodes', i, o) == ByteAt(disk, inodes, i, o)
  {
  }

  lemma FreshGrows(g: Geometry, disk: Disk, inodes: seq<Inode>, b: nat, i: nat)
    requires Owned(g, disk, inodes) && g.data <= b < g.size && !Used(g, disk, b)
    ensures Grows(disk, inodes, Fresh(g, disk, b), inodes, i)
  {
    var d := Fresh(g, disk, b);
    FreshOwned(g, disk, inodes, b);
    BBlockInRange(g, disk, b);
    forall k, o | 0 <= k < |inodes| && 0 <= o < MAXFILE * BSIZE
      ensures ByteAt(d, inodes, k, o) == ByteAt(disk, inodes, k, o)
    {
      SlotValid(|inodes|, k, o / BSIZE);
      var q := SlotOf(k, o / BSIZE);
      assert Ptr(disk, inodes, q) != 0 ==> InData(g, disk, Ptr(disk, inodes, q));
      ByteSame(disk, inodes, d, inodes, k, o);
    }
  }

  /** Linking a zeroed block: bytes stay, provided the write that links it touches no data block. */
  lemma AddsBytes(g: Geometry, disk: Disk, inodes: seq<Inode>, disk': Disk, inodes': seq<Inode>, p: Place, b: nat)
    requires Owned(g, disk, inodes) && Adds(disk, inodes, disk', inodes', p, b) && Ptr(disk, inodes, p) == 0
    requires 0 < b < |disk| && Zero(disk'[b])
    requires forall q | Valid(|inodes|, q) && IsData(q) :: Same(disk, disk', Ptr(disk, inodes, q))
    ensures BytesStay(disk, inodes, disk', inodes')
  {
    forall k, o | 0 <= k < |inodes| && 0 <= o < MAXFILE * BSIZE
      ensures ByteAt(disk', inodes', k, o) == ByteAt(disk, inodes, k, o)
    {
      SlotValid(|inodes|, k, o / BSIZE);
      var q := SlotOf(k, o / BSIZE);
      if q != p { ByteSame(disk, inodes, disk', inodes', k, o); }
    }
  }

  lemma AddsGrows(g: Geometry, disk: Disk, inodes: seq<Inode>, disk': Disk, inodes': seq<Inode>, p: Place, b: nat)
    requires Owned(g, disk, inodes) && Adds(disk, inodes, disk', inodes', p, b) && Ptr(disk, inodes, p) == 0
    requires 0 < b < |disk| && Zero(disk'[b]) && SizesStay(inodes, inodes') && OthersStay(inodes, inodes', p.i)
    requires forall q | Valid(|inodes|, q) && IsData(q) :: Same(disk, disk', Ptr(disk, inodes, q))
    ensures Grows(disk, inodes, disk', inodes', p.i)
  {
    AddsBytes(g, disk, inodes, disk', inodes', p, b);
  }

  /** Everything that follows from taking block b and linking it at p. */
  ghost predicate Linked(g: Geometry, disk: Disk, inodes: seq<Inode>, disk': Disk, inodes': seq<Inode>, p: Place,
                      b: nat) {
    && Owned(g, disk', inodes') && Grows(disk, inodes, disk', inodes', p.i) && Valid(|inodes'|, p)
      && Ptr(disk', inodes', p) == b != 0
    && forall q | Valid(|inodes'|, q) && q != p :: Ptr(disk', inodes', q) == Ptr(disk, inodes, q)
  }

  /** The write that links b, after b was taken: d is the disk in between. */
  lemma Links(g: Geometry, disk: Disk, inodes: seq<Inode>, b: nat, d: Disk, disk': Disk, inodes': seq<Inode>, p: Place)
    requires Owned(g, disk, inodes) && g.data <= b < g.size && !Used(g, disk, b) && d == Fresh(g, disk, b)
    requires Adds(d, inodes, disk', inodes', p, b) && Ptr(disk, inodes, p) == 0
    requires Zero(disk'[b]) && SizesStay(inodes, inodes') && OthersStay(inodes, inodes', p.i)
    requires forall q | Valid(|inodes|, q) && IsData(q) :: Same(d, disk', Ptr(d, inodes, q))
    requires forall c | 0 <= c < g.size :: Used(g, disk', c) == Used(g, d, c)
    ensures Linked(g, disk, inodes, disk', inodes', p, b)
  {
    FreshOwned(g, disk, inodes, b);
    FreshGrows(g, disk, inodes, b, p.i);
    AddsOwned(g, d, inodes, disk', inodes', p, b);
    AddsGrows(g, d, inodes, disk', inodes', p, b);
    GrowsTrans(disk, inodes, d, inodes, disk', inodes', p.i);
  }

  lemma FreshZero(g: Geometry, disk: Disk, b: nat)
    requires GeometryOk(g, disk) && g.data <= b < g.size && !Used(g, disk, b)
    ensures Zero(Fresh(g, disk, b)[b])
  {
  }

  /** Linking through an inode. */
  lemma LinksInode(g: Geometry, disk: Disk, inodes: seq<Inode>, b: nat, i: nat, k: nat)
    requires Owned(g, disk, inodes) && g.data <= b < g.size && !Used(g, disk, b) && i < |inodes| && k <= NDIRECT
          && inodes[i].addrs[k] == 0
    ensures var inodes' := inodes[i := inodes[i].(addrs := inodes[i].addrs[k := b])];
            Linked(g, disk, inodes, Fresh(g, disk, b), inodes', if k < NDIRECT then D(i, k) else T(i), b)
  {
    var d := Fresh(g, disk, b);
    var inodes' := inodes[i := inodes[i].(addrs := inodes[i].addrs[k := b])];
    FreshZero(g, disk, b);
    ZeroIsEmpty(d[b]);
    if k < NDIRECT { LinkDirect(d, inodes, i, k, b); } else { LinkTop(d, inodes, i, b); }
    Links(g, disk, inodes, b, d, d, inodes', if k < NDIRECT then D(i, k) else T(i));
  }

  /** Linking through entry j of the index block that p refers to. */
  lemma LinksEntry(g: Geometry, disk: Disk, inodes: seq<Inode>, b: nat, p: Place, j: nat, q: Place)
    requires Owned(g, disk, inodes) && g.data <= b < g.size && !Used(g, disk, b) && Valid(|inodes|, p) && j < NINDIRECT
    requires (p.T? || p.M?) && Ptr(disk, inodes, p) != 0 && EntryOf(p, j, q) && Ptr(disk, inodes, q) == 0
    ensures var d, a := Fresh(g, disk, b), Ptr(disk, inodes, p);
            a < |d| && Linked(g, disk, inodes, d[a := SetWord(d[a], j, b)], inodes, q, b)
  {
    var d, a := Fresh(g, disk, b), Ptr(disk, inodes, p);
    FreshOwned(g, disk, inodes, b);
    FreshZero(g, disk, b);
    ZeroIsEmpty(d[b]);
    assert InData(g, d, a);
    if p.T? { LinkMid(g, d, inodes, p.i, j, b); } else { LinkLeaf(g, d, inodes, p.i, p.j, j, b); }
    var disk' := d[a := SetWord(d[a], j, b)];
    forall c | 0 <= c < g.size
      ensures Used(g, disk', c) == Used(g, d, c)
    {
      UsedElsewhere(g, d, a, SetWord(d[a], j, b), c);
    }
    forall r | Valid(|inodes|, r) && IsData(r)
      ensures Same(d, disk', Ptr(d, inodes, r))
    {
      IndexApart(g, d, inodes, p, r);
    }
    Links(g, disk, inodes, b, d, disk', inodes, q);
  }
}
