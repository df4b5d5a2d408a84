/** The inodes in the inode blocks (struct dinode of fs.h: four shorts, the size and thirteen block numbers, eight to a
    block), and the disk as the log and recovery see it. */
module FileImage {
  import opened Words
  import opened Blocks
  import opened Bitmap
  import opened FileTree
  import opened FileSystem

  // ---------- one inode ----------

  /** The inode's size and its first k block numbers in slot s of a block. */
  function PackedUpto(b: Block, s: nat, x: Inode, k: nat): Block
    requires s < 8 && k <= NDIRECT + 1 && x.size < TWO32
  {
    if k == 0 then SetWord(b, 16 * s + 2, x.size)
    else SetWord(PackedUpto(b, s, x, k - 1), 16 * s + 2 + k, x.addrs[k - 1])
  }

  /** iupdate */
  function Packed(b: Block, s: nat, x: Inode): Block
    requires s < 8 && x.size < TWO32
  {
    PackedUpto(b, s, x, NDIRECT + 1)
  }

  /** The k words from word `at` on. */
  function Numbers(b: Block, at: nat, k: nat): (r: seq<word>)
    requires at + k <= WORDS
    ensures |r| == k && forall j | 0 <= j < k :: r[j] == Word(b, at + j)
  {
    if k == 0 then [] else Numbers(b, at, k - 1) + [Word(b, at + k - 1)]
  }

  /** What ilock reads from slot s. */
  function Unpacked(b: Block, s: nat): Inode
    requires s < 8
  {
    Inode(Word(b, 16 * s + 2), Numbers(b, 16 * s + 3, NDIRECT + 1))
  }

  lemma {:induction false} PackedWord(b: Block, s: nat, x: Inode, k: nat, j: nat)
    requires s < 8 && k <= NDIRECT + 1 && x.size < TWO32 && j < WORDS
    ensures Word(PackedUpto(b, s, x, k), j) ==
            if j == 16 * s + 2 then x.size
            else if 16 * s + 2 < j <= 16 * s + 2 + k then x.addrs[j - 16 * s - 3] else Word(b, j)
  {
    if k == 0 {
      WordOfSetWord(b, 16 * s + 2, x.size, j);
    } else {
      PackedWord(b, s, x, k - 1, j);
      WordOfSetWord(PackedUpto(b, s, x, k - 1), 16 * s + 2 + k, x.addrs[k - 1], j);
    }
  }

  /** An inode is read back from its own slot, and the others are not touched. */
  lemma PackedRoundTrip(b: Block, s: nat, x: Inode, t: nat)
    requires s < 8 && t < 8 && x.size < TWO32
    ensures Unpacked(Packed(b, s, x), t) == if s == t then x else Unpacked(b, t)
  {
    PackedWord(b, s, x, NDIRECT + 1, 16 * t + 2);
    var p := Packed(b, s, x);
    var xs, ys := Numbers(p, 16 * t + 3, NDIRECT + 1), if s == t then x.addrs else Numbers(b, 16 * t + 3, NDIRECT + 1);
    forall k | 0 <= k < NDIRECT + 1 ensures xs[k] == ys[k] { PackedNumber(b, s, x, t, k); }
    assert xs == ys;
  }

  lemma PackedNumber(b: Block, s: nat, x: Inode, t: nat, k: nat)
    requires s < 8 && t < 8 && x.size < TWO32 && k <= NDIRECT
    ensures Word(Packed(b, s, x), 16 * t + 3 + k) == if s == t then x.addrs[k] else Word(b, 16 * t + 3 + k)
  {
    PackedWord(b, s, x, NDIRECT + 1, 16 * t + 3 + k);
  }

  // ---------- all inodes ----------

  /** The inode blocks lie between the log and the data, apart from the bitmap. */
  ghost predicate InodeArea(g: Geometry, m: nat) {
    g.inodes + m / 8 < g.data && (g.inodes + m / 8 < g.bmap || g.bmap + (g.size - 1) / BPB < g.inodes)
  }

  /** The disk with the first m inodes in their blocks. */
  ghost function ImageUpto(g: Geometry, d: Disk, n: seq<Inode>, m: nat): (r: Disk)
    requires m <= |n| && g.inodes + |n| / 8 < |d| && Sized(n)
    ensures |r| == |d|
  {
    if m == 0 then d
    else
      var e, b := ImageUpto(g, d, n, m - 1), IBlock(g, m - 1);
      e[b := Packed(e[b], (m - 1) % 8, n[m - 1])]
  }

  ghost function Image(g: Geometry, d: Disk, n: seq<Inode>): (r: Disk)
    requires g.inodes + |n| / 8 < |d| && Sized(n)
    ensures |r| == |d|
  {
    ImageUpto(g, d, n, |n|)
  }

  /** The inodes a disk holds. */
  function Inodes(g: Geometry, d: Disk, m: nat): seq<Inode>
    requires g.inodes + m / 8 < |d|
  {
    seq(m, i requires 0 <= i < m => Unpacked(d[IBlock(g, i)], i % 8))
  }

  lemma {:induction false} ImageElsewhere(g: Geometry, d: Disk, n: seq<Inode>, m: nat, b: nat)
    requires m <= |n| && g.inodes + |n| / 8 < |d| && Sized(n) && b < |d|
    requires forall i | 0 <= i < m :: IBlock(g, i) != b
    ensures ImageUpto(g, d, n, m)[b] == d[b]
  {
    if m > 0 { ImageElsewhere(g, d, n, m - 1, b); }
  }

  lemma PackedOver(d: Disk, b: nat, s: nat, x: Inode, c: nat, t: nat)
    requires b < |d| && c < |d| && s < 8 && t < 8 && x.size < TWO32
    ensures Unpacked(d[b := Packed(d[b], s, x)][c], t) == if b == c && s == t then x else Unpacked(d[c], t)
  {
    PackedRoundTrip(d[b], s, x, t);
  }

  lemma {:induction false} ImageInode(g: Geometry, d: Disk, n: seq<Inode>, m: nat, i: nat)
    requires i < m <= |n| && g.inodes + |n| / 8 < |d| && Sized(n)
    ensures Unpacked(ImageUpto(g, d, n, m)[IBlock(g, i)], i % 8) == n[i]
  {
    PackedOver(ImageUpto(g, d, n, m - 1), IBlock(g, m - 1), (m - 1) % 8, n[m - 1], IBlock(g, i), i % 8);
    if i < m - 1 { ImageInode(g, d, n, m - 1, i); }
  }

  /** The image holds the inodes. */
  lemma ImageHolds(g: Geometry, d: Disk, n: seq<Inode>)
    requires g.inodes + |n| / 8 < |d| && Sized(n)
    ensures Inodes(g, Image(g, d, n), |n|) == n
  {
    forall i | 0 <= i < |n| ensures Inodes(g, Image(g, d, n), |n|)[i] == n[i] { ImageInode(g, d, n, |n|, i); }
  }

  /** A block of the image is determined by the disk's block and the inodes that lie in it. */
  lemma {:induction false} ImageSame(g: Geometry, d: Disk, n: seq<Inode>, d': Disk, n': seq<Inode>, m: nat, b: nat)
    requires m <= |n| == |n'| && g.inodes + |n| / 8 < |d| == |d'| && Sized(n) && Sized(n') && b < |d| && d[b] == d'[b]
    requires forall i | 0 <= i < m && IBlock(g, i) == b :: n[i] == n'[i]
    ensures ImageUpto(g, d, n, m)[b] == ImageUpto(g, d', n', m)[b]
  {
    if m > 0 { ImageSame(g, d, n, d', n', m - 1, b); }
  }

  /** Where the images differ, the block has been logged. */
  lemma ImageNoted(g: Geometry, d0: Disk, n0: seq<Inode>, d: Disk, n: seq<Inode>, l: set<nat>)
    requires g.inodes + |n0| / 8 < |d0| && Sized(n0) && Sized(n) && Noted(d0, d, l) && InodesNoted(g, n0, n, l)
    ensures Noted(Image(g, d0, n0), Image(g, d, n), l)
  {
    forall b | 0 <= b < |d| && b !in l ensures Image(g, d, n)[b] == Image(g, d0, n0)[b] {
      ImageSame(g, d, n, d0, n0, |n|, b);
    }
  }

  // ---------- files on the image ----------

  /** A disk that agrees with d on the data blocks shows the same files. */
  lemma SamePtr(g: Geometry, d: Disk, e: Disk, n: seq<Inode>, p: Place)
    requires Owned(g, d, n) && |e| == |d| && (forall b | g.data <= b < g.size :: e[b] == d[b]) && Valid(|n|, p)
    ensures Ptr(e, n, p) == Ptr(d, n, p)
  {
    var t := Ptr(d, n, T(p.i));
    assert t != 0 ==> InData(g, d, t);
    if p.L? {
      var m := Ptr(d, n, M(p.i, p.j));
      assert m != 0 ==> InData(g, d, m);
    }
    PtrSame(d, e, n, p);
  }

  lemma SameContent(g: Geometry, d: Disk, e: Disk, n: seq<Inode>, i: nat)
    requires Owned(g, d, n) && |e| == |d| && (forall b | g.data <= b < g.size :: e[b] == d[b]) && i < |n| && Sized(n)
    ensures Content(e, n, i) == Content(d, n, i)
  {
    forall o | 0 <= o < n[i].size ensures ByteAt(e, n, i, o) == ByteAt(d, n, i, o) {
      var p := SlotOf(i, o / BSIZE);
      SlotValid(|n|, i, o / BSIZE);
      SamePtr(g, d, e, n, p);
      assert Ptr(d, n, p) != 0 ==> InData(g, d, Ptr(d, n, p));
    }
  }

  /** What the disk e shows is the files of d and n. */
  ghost predicate Shows(g: Geometry, e: Disk, d: Disk, n: seq<Inode>) {
    && Sized(n) && g.inodes + |n| / 8 < |e| && Inodes(g, e, |n|) == n
    && forall i | 0 <= i < |n| :: Content(e, n, i) == Content(d, n, i)
  }

  /** A disk that agrees with the image where inodes and data lie shows the files. */
  lemma ImageShows(g: Geometry, d: Disk, n: seq<Inode>, e: Disk)
    requires Owned(g, d, n) && Sized(n) && InodeArea(g, |n|) && |e| == |d|
    requires forall b | g.inodes <= b < |d| :: e[b] == Image(g, d, n)[b]
    ensures Shows(g, e, d, n)
  {
    var f := Image(g, d, n);
    ImageHolds(g, d, n);
    forall i | 0 <= i < |n| ensures Inodes(g, e, |n|)[i] == n[i] {
      assert e[IBlock(g, i)] == f[IBlock(g, i)] && Inodes(g, f, |n|)[i] == n[i];
    }
    forall b | g.data <= b < g.size ensures e[b] == d[b] { ImageElsewhere(g, d, n, |n|, b); }
    forall i | 0 <= i < |n| ensures Content(e, n, i) == Content(d, n, i) { SameContent(g, d, e, n, i); }
  }
}
