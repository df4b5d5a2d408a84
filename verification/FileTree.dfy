/** The block tree of a file in fs.c: twelve direct blocks and a two-level tree of index blocks, and who owns which
    block. */
module FileTree {
  import opened Words
  import opened Blocks
  import opened Bitmap

  const NDIRECT: nat := 12
  const NINDIRECT: nat := 128
  const MAXFILE: nat := 16396

  type Addrs = s: seq<word> | |s| == NDIRECT + 1 witness seq(NDIRECT + 1, _ => 0)

  /** The part of an inode that describes its contents. */
  datatype Inode = Inode(size: nat, addrs: Addrs)

  /** The places of inode i that hold a block number: a direct address, the top index block, an entry of the top block
      (a second-level index block), an entry of a second-level block. */
  datatype Place = D(i: nat, k: nat) | T(i: nat) | M(i: nat, j: nat) | L(i: nat, j: nat, k: nat)

  predicate Valid(n: nat, p: Place) {
    && p.i < n
    && match p
       case D(_, k) => k < NDIRECT
       case T(_) => true
       case M(_, j) => j < NINDIRECT
       case L(_, j, k) => j < NINDIRECT && k < NINDIRECT
  }

  /** Entry j of index block x; block 0 stands for no block. */
  function Entry(disk: Disk, x: nat, j: nat): word
    requires j < NINDIRECT
  {
    if x == 0 || x >= |disk| then 0 else Word(disk[x], j)
  }

  /** The block number at a place. */
  function Ptr(disk: Disk, inodes: seq<Inode>, p: Place): word
    requires Valid(|inodes|, p)
  {
    var addrs := inodes[p.i].addrs;
    match p
    case D(_, k) => addrs[k]
    case T(_) => addrs[NDIRECT]
    case M(_, j) => Entry(disk, addrs[NDIRECT], j)
    case L(_, j, k) => Entry(disk, Entry(disk, addrs[NDIRECT], j), k)
  }

  /** The place of block bn of file i. */
  function SlotOf(i: nat, bn: nat): Place
    requires bn < MAXFILE
  {
    if bn < NDIRECT then D(i, bn) else L(i, (bn - NDIRECT) / NINDIRECT, (bn - NDIRECT) % NINDIRECT)
  }

  lemma SlotValid(n: nat, i: nat, bn: nat)
    requires i < n && bn < MAXFILE
    ensures Valid(n, SlotOf(i, bn))
  {
  }

  lemma SlotInjective(i: nat, a: nat, b: nat)
    requires a < MAXFILE && b < MAXFILE && SlotOf(i, a) == SlotOf(i, b)
    ensures a == b
  {
  }

  // ---------- ownership ----------

  ghost predicate InData(g: Geometry, disk: Disk, x: nat) {
    GeometryOk(g, disk) && g.data <= x < g.size && Used(g, disk, x)
  }

  /** Every block a place refers to is a data block marked used, and no two places share one. */
  ghost predicate Owned(g: Geometry, disk: Disk, inodes: seq<Inode>) {
    && GeometryOk(g, disk)
    && (forall p | Valid(|inodes|, p) && Ptr(disk, inodes, p) != 0 :: InData(g, disk, Ptr(disk, inodes, p)))
    && (forall p, q | Valid(|inodes|, p) && Valid(|inodes|, q) && Ptr(disk, inodes, p) != 0
         && Ptr(disk, inodes, p) == Ptr(disk, inodes, q) ::
          p == q)
    && forall b | 0 <= b < g.data :: Used(g, disk, b)
  }

  predicate Same(disk: Disk, disk': Disk, x: nat) {
    x == 0 || x >= |disk| || (x < |disk'| && disk[x] == disk'[x])
  }

  /** A place keeps its block number when the index blocks above it keep their contents. */
  lemma PtrSame(disk: Disk, disk': Disk, inodes: seq<Inode>, p: Place)
    requires Valid(|inodes|, p) && |disk'| == |disk|
    requires p.M? || p.L? ==> Same(disk, disk', Ptr(disk, inodes, T(p.i)))
    requires p.L? ==> Same(disk, disk', Ptr(disk, inodes, M(p.i, p.j)))
    ensures Ptr(disk', inodes, p) == Ptr(disk, inodes, p)
  {
  }

  /** A write to a block that no index place refers to moves nothing. */
  lemma PtrKept(disk: Disk, inodes: seq<Inode>, a: nat, x: Block, p: Place)
    requires Valid(|inodes|, p) && 0 < a < |disk|
    requires Ptr(disk, inodes, T(p.i)) != a
    requires p.L? ==> Ptr(disk, inodes, M(p.i, p.j)) != a
    ensures Ptr(disk[a := x], inodes, p) == Ptr(disk, inodes, p)
  {
    PtrSame(disk, disk[a := x], inodes, p);
  }

  /** Block b taken from the bitmap and zeroed. */
  ghost function Fresh(g: Geometry, disk: Disk, b: nat): (r: Disk)
    requires GeometryOk(g, disk) && g.data <= b < g.size && !Used(g, disk, b)
    ensures |r| == |disk|
  {
    Marked(g, disk, b)[b := Zeroed(disk[b])]
  }

  lemma FreshKeepsPtr(g: Geometry, disk: Disk, inodes: seq<Inode>, b: nat, p: Place)
    requires Owned(g, disk, inodes) && g.data <= b < g.size && !Used(g, disk, b) && Valid(|inodes|, p)
    ensures Ptr(Fresh(g, disk, b), inodes, p) == Ptr(disk, inodes, p)
  {
    BBlockInRange(g, disk, b);
    var t := T(p.i);
    assert Ptr(disk, inodes, t) != 0 ==> InData(g, disk, Ptr(disk, inodes, t));
    if p.L? {
      var m := M(p.i, p.j);
      assert Ptr(disk, inodes, m) != 0 ==> InData(g, disk, Ptr(disk, inodes, m));
    }
    PtrSame(disk, Fresh(g, disk, b), inodes, p);
  }

  lemma FreshUsed(g: Geometry, disk: Disk, b: nat, c: nat)
    requires GeometryOk(g, disk) && g.data <= b < g.size && !Used(g, disk, b) && c < g.size
    ensures Used(g, Fresh(g, disk, b), c) == (c == b || Used(g, disk, c))
  {
    UsedOfMarked(g, disk, b, c);
    UsedElsewhere(g, Marked(g, disk, b), b, Zeroed(disk[b]), c);
  }

  lemma FreshOwned(g: Geometry, disk: Disk, inodes: seq<Inode>, b: nat)
    requires Owned(g, disk, inodes) && g.data <= b < g.size && !Used(g, disk, b)
    ensures Owned(g, Fresh(g, disk, b), inodes) && Used(g, Fresh(g, disk, b), b)
    ensures forall p | Valid(|inodes|, p) ::
          Ptr(Fresh(g, disk, b), inodes, p) == Ptr(disk, inodes, p) && Ptr(disk, inodes, p) != b
  {
    var d := Fresh(g, disk, b);
    forall c | 0 <= c < g.size ensures Used(g, d, c) == (c == b || Used(g, disk, c)) { FreshUsed(g, disk, b, c); }
    forall p | Valid(|inodes|, p) ensures Ptr(d, inodes, p) == Ptr(disk, inodes, p) && Ptr(disk, inodes, p) != b {
      FreshKeepsPtr(g, disk, inodes, b, p);
      assert Ptr(disk, inodes, p) != 0 ==> InData(g, disk, Ptr(disk, inodes, p));
    }
  }

  // ---------- linking a block ----------

  /** The places refer to the same blocks, except that p, which referred to none, now refers to b. */
  ghost predicate Adds(disk: Disk, inodes: seq<Inode>, disk': Disk, inodes': seq<Inode>, p: Place, b: nat) {
    && |inodes'| == |inodes| && |disk'| == |disk| && Valid(|inodes|, p)
    && forall q | Valid(|inodes|, q) :: Ptr(disk', inodes', q) == if q == p then b else Ptr(disk, inodes, q)
  }

  ghost predicate Unlinked(disk: Disk, inodes: seq<Inode>, b: nat) {
    forall p | Valid(|inodes|, p) :: Ptr(disk, inodes, p) != b
  }

  /** An index block without entries. */
  ghost predicate Empty(x: Block) {
    forall j | 0 <= j < NINDIRECT :: Word(x, j) == 0
  }

  lemma LinkDirect(disk: Disk, inodes: seq<Inode>, i: nat, k: nat, b: word)
    requires i < |inodes| && k < NDIRECT
    ensures var inodes' := inodes[i := inodes[i].(addrs := inodes[i].addrs[k := b])];
            Adds(disk, inodes, disk, inodes', D(i, k), b)
  {
    var inodes' := inodes[i := inodes[i].(addrs := inodes[i].addrs[k := b])];
    forall q | Valid(|inodes|, q) ensures Ptr(disk, inodes', q) == if q == D(i, k) then b else Ptr(disk, inodes, q) {
    }
  }

  lemma LinkTop(disk: Disk, inodes: seq<Inode>, i: nat, b: word)
    requires i < |inodes| && inodes[i].addrs[NDIRECT] == 0 && 0 < b < |disk| && Empty(disk[b])
    ensures var inodes' := inodes[i := inodes[i].(addrs := inodes[i].addrs[NDIRECT := b])];
            Adds(disk, inodes, disk, inodes', T(i), b)
  {
    var inodes' := inodes[i := inodes[i].(addrs := inodes[i].addrs[NDIRECT := b])];
    forall q | Valid(|inodes|, q) ensures Ptr(disk, inodes', q) == if q == T(i) then b else Ptr(disk, inodes, q) {
    }
  }

  /** Index places that refer to the same block are the same place. */
  lemma IndexApart(g: Geometry, disk: Disk, inodes: seq<Inode>, p: Place, q: Place)
    requires Owned(g, disk, inodes) && Valid(|inodes|, p) && Valid(|inodes|, q) && p != q && Ptr(disk, inodes, p) != 0
    ensures Ptr(disk, inodes, p) != Ptr(disk, inodes, q)
  {
  }

  /** Writing entry j of the block that place p refers to touches only the place below. */
  lemma OtherPtrs(g: Geometry, disk: Disk, inodes: seq<Inode>, p: Place, a: nat, j: nat, b: word, q: Place)
    requires Owned(g, disk, inodes) && Valid(|inodes|, p) && Valid(|inodes|, q) && j < NINDIRECT
    requires a == Ptr(disk, inodes, p) != 0 && (p.T? || p.M?)
    requires !EntryOf(p, j, q) && !(p.T? && q.L? && q.i == p.i && q.j == j)
    ensures Ptr(disk[a := SetWord(disk[a], j, b)], inodes, q) == Ptr(disk, inodes, q)
  {
    var x := SetWord(disk[a], j, b);
    if q.M? || q.L? {
      if T(q.i) != p { IndexApart(g, disk, inodes, p, T(q.i)); } else { WordOfSetWord(disk[a], j, b, q.j); }
    }
    if q.L? {
      if M(q.i, q.j) != p { IndexApart(g, disk, inodes, p, M(q.i, q.j)); } else { WordOfSetWord(disk[a], j, b, q.k); }
    }
  }

  /** q is entry j of the block that p refers to. */
  predicate EntryOf(p: Place, j: nat, q: Place) {
    (p.T? && q == M(p.i, j)) || (p.M? && q == L(p.i, p.j, j))
  }

  lemma LinkMid(g: Geometry, disk: Disk, inodes: seq<Inode>, i: nat, j: nat, b: word)
    requires Owned(g, disk, inodes) && i < |inodes| && j < NINDIRECT && Ptr(disk, inodes, T(i)) != 0
          && Ptr(disk, inodes, M(i, j)) == 0
    requires Unlinked(disk, inodes, b) && 0 < b < |disk| && Empty(disk[b])
    ensures var a := Ptr(disk, inodes, T(i));
            a < |disk| && Adds(disk, inodes, disk[a := SetWord(disk[a], j, b)], inodes, M(i, j), b)
  {
    var a := Ptr(disk, inodes, T(i));
    assert InData(g, disk, a);
    var disk' := disk[a := SetWord(disk[a], j, b)];
    WordOfSetWord(disk[a], j, b, j);
    forall q | Valid(|inodes|, q) ensures Ptr(disk', inodes, q) == if q == M(i, j) then b else Ptr(disk, inodes, q) {
      if q != M(i, j) && !(q.L? && q.i == i && q.j == j) { OtherPtrs(g, disk, inodes, T(i), a, j, b, q); }
    }
  }

  lemma LinkLeaf(g: Geometry, disk: Disk, inodes: seq<Inode>, i: nat, j: nat, k: nat, b: word)
    requires Owned(g, disk, inodes) && i < |inodes| && j < NINDIRECT && k < NINDIRECT && Ptr(disk, inodes, M(i, j)) != 0
    ensures var a := Ptr(disk, inodes, M(i, j));
            a < |disk| && Adds(disk, inodes, disk[a := SetWord(disk[a], k, b)], inodes, L(i, j, k), b)
  {
    var a := Ptr(disk, inodes, M(i, j));
    assert InData(g, disk, a);
    var disk' := disk[a := SetWord(disk[a], k, b)];
    WordOfSetWord(disk[a], k, b, k);
    forall q | Valid(|inodes|, q) ensures Ptr(disk', inodes, q) == if q == L(i, j, k) then b else Ptr(disk, inodes, q) {
      if q != L(i, j, k) { OtherPtrs(g, disk, inodes, M(i, j), a, k, b, q); }
      if q == L(i, j, k) { IndexApart(g, disk, inodes, M(i, j), T(i)); }
    }
  }

  /** Linking a used block that no place refers to keeps ownership. */
  lemma AddsOwned(g: Geometry, disk: Disk, inodes: seq<Inode>, disk': Disk, inodes': seq<Inode>, p: Place, b: nat)
    requires Owned(g, disk, inodes) && Adds(disk, inodes, disk', inodes', p, b) && Unlinked(disk, inodes, b)
    requires InData(g, disk, b) && forall c | 0 <= c < g.size :: Used(g, disk', c) == Used(g, disk, c)
    ensures Owned(g, disk', inodes')
  {
    forall q | Valid(|inodes'|, q) && Ptr(disk', inodes', q) != 0 ensures InData(g, disk', Ptr(disk', inodes', q)) {
      if q != p { assert InData(g, disk, Ptr(disk, inodes, q)); }
    }
    forall q, r | Valid(|inodes'|, q) && Valid(|inodes'|, r) && Ptr(disk', inodes', q) != 0
      && Ptr(disk', inodes', q) == Ptr(disk', inodes', r)
      ensures q == r
    {
      if q != p && r != p {
        assert Ptr(disk, inodes, q) == Ptr(disk, inodes, r);
      }
    }
  }

  // ---------- contents ----------

  predicate IsData(p: Place) {
    p.D? || p.L?
  }

  /** Writing a data block moves nothing. */
  lemma DataWriteKeepsPtr(g: Geometry, disk: Disk, inodes: seq<Inode>, p: Place, x: Block, q: Place)
    requires Owned(g, disk, inodes) && Valid(|inodes|, p) && Valid(|inodes|, q) && IsData(p)
          && Ptr(disk, inodes, p) != 0
    ensures var a := Ptr(disk, inodes, p); a < |disk| && Ptr(disk[a := x], inodes, q) == Ptr(disk, inodes, q)
  {
    var a := Ptr(disk, inodes, p);
    assert InData(g, disk, a);
    IndexApart(g, disk, inodes, p, T(q.i));
    if q.L? { IndexApart(g, disk, inodes, p, M(q.i, q.j)); }
    PtrKept(disk, inodes, a, x, q);
  }

  lemma DataWriteOwned(g: Geometry, disk: Disk, inodes: seq<Inode>, p: Place, x: Block)
    requires Owned(g, disk, inodes) && Valid(|inodes|, p) && IsData(p) && Ptr(disk, inodes, p) != 0
    ensures var a := Ptr(disk, inodes, p);
            && a < |disk| && Owned(g, disk[a := x], inodes)
            && forall q | Valid(|inodes|, q) :: Ptr(disk[a := x], inodes, q) == Ptr(disk, inodes, q)
  {
    var a := Ptr(disk, inodes, p);
    assert InData(g, disk, a);
    var disk' := disk[a := x];
    forall c | 0 <= c < g.size ensures Used(g, disk', c) == Used(g, disk, c) { UsedElsewhere(g, disk, a, x, c); }
    forall q | Valid(|inodes|, q)
      ensures Ptr(disk', inodes, q) == Ptr(disk, inodes, q)
    {
      DataWriteKeepsPtr(g, disk, inodes, p, x, q);
    }
    forall q | Valid(|inodes|, q) && Ptr(disk', inodes, q) != 0 ensures InData(g, disk', Ptr(disk', inodes, q)) {
      assert InData(g, disk, Ptr(disk, inodes, q));
    }
  }

  /** Byte o of file i; bytes of missing blocks read as 0. */
  function ByteAt(disk: Disk, inodes: seq<Inode>, i: nat, o: nat): byte
    requires i < |inodes| && o < MAXFILE * BSIZE
  {
    SlotValid(|inodes|, i, o / BSIZE);
    var x := Ptr(disk, inodes, SlotOf(i, o / BSIZE));
    if x == 0 || x >= |disk| then 0 else disk[x][o % BSIZE]
  }

  ghost predicate Sized(inodes: seq<Inode>) {
    forall i | 0 <= i < |inodes| :: inodes[i].size <= MAXFILE * BSIZE
  }

  /** Blocks 0..n of file i exist. */
  ghost predicate Filled(disk: Disk, inodes: seq<Inode>, i: nat, n: nat)
    requires i < |inodes| && n <= MAXFILE
  {
    forall bn | 0 <= bn < n :: Exists(disk, inodes, i, bn)
  }

  ghost predicate Exists(disk: Disk, inodes: seq<Inode>, i: nat, bn: nat)
    requires i < |inodes| && bn < MAXFILE
  {
    SlotValid(|inodes|, i, bn);
    Ptr(disk, inodes, SlotOf(i, bn)) != 0
  }

  /** Blocks a file of this many bytes needs. */
  function BlocksFor(size: nat): nat {
    (size + BSIZE - 1) / BSIZE
  }

  /** No file has a hole: every block below its size exists. */
  ghost predicate NoHoles(disk: Disk, inodes: seq<Inode>) {
    Sized(inodes) && forall i | 0 <= i < |inodes| :: Filled(disk, inodes, i, BlocksFor(inodes[i].size))
  }

  /** The contents of file i. */
  function Content(disk: Disk, inodes: seq<Inode>, i: nat): seq<byte>
    requires i < |inodes| && inodes[i].size <= MAXFILE * BSIZE
  {
    seq<byte>(inodes[i].size, o requires 0 <= o < inodes[i].size => ByteAt(disk, inodes, i, o))
  }
}
