/** balloc, bfree, bmap, itrunc, readi and writei of fs.c over the logical disk that the buffer cache and the log
    provide. */
module FileSystem {
  import opened Words
  import opened Blocks
  import opened Counting
  import opened Bitmap
  import opened FileTree
  import opened FileGrowth
  import opened FileBytes
  import opened FileTruncate

  lemma BitPlace(g: Geometry, b: nat, bi: nat)
    requires b % BPB == 0 && bi < BPB
    ensures BBlock(g, b + bi) == BBlock(g, b) && (b + bi) % BPB == bi
  {
  }

  /** The blocks before the data area are in use. */
  ghost predicate MetaUsed(g: Geometry, disk: Disk)
    requires GeometryOk(g, disk)
  {
    forall b | 0 <= b < g.data :: Used(g, disk, b)
  }

  /** Inodes of 64 bytes, eight to a block. */
  function IBlock(g: Geometry, i: nat): nat {
    g.inodes + i / 8
  }

  /** Every block that differs has been handed to log_write. */
  ghost predicate Noted(d0: Disk, d: Disk, l: set<nat>) {
    |d| == |d0| && forall b | 0 <= b < |d| && d[b] != d0[b] :: b in l
  }

  /** So has the block of every inode that differs. */
  ghost predicate InodesNoted(g: Geometry, n0: seq<Inode>, n: seq<Inode>, l: set<nat>) {
    |n| == |n0| && forall i | 0 <= i < |n| && n[i] != n0[i] :: IBlock(g, i) in l
  }

  lemma NotedOn(d0: Disk, d1: Disk, l1: set<nat>, d2: Disk, l2: set<nat>)
    requires Noted(d0, d1, l1) && l1 <= l2 && Noted(d1, d2, l2)
    ensures Noted(d0, d2, l2)
  {
  }

  /** Place p now refers to block b; if it did not before, b was allocated for it and nothing else happened. */
  ghost predicate Got(g: Geometry, disk: Disk, inodes: seq<Inode>, disk': Disk, inodes': seq<Inode>, p: Place, b: nat) {
    && Owned(g, disk', inodes') && Grows(disk, inodes, disk', inodes', p.i) && Valid(|inodes'|, p)
      && Ptr(disk', inodes', p) == b != 0
    && (forall q | Valid(|inodes'|, q) && q != p :: Ptr(disk', inodes', q) == Ptr(disk, inodes, q))
    && (Ptr(disk, inodes, p) != 0 ==> disk' == disk && inodes' == inodes)
  }

  /** Block bn of file i is block b; if it was missing, it and the index blocks above it were allocated. */
  ghost predicate Mapped(g: Geometry, disk: Disk, inodes: seq<Inode>, disk': Disk, inodes': seq<Inode>, i: nat,
                      bn: nat, b: nat) {
    && bn < MAXFILE && i < |inodes| && Owned(g, disk', inodes') && Grows(disk, inodes, disk', inodes', i)
    && Valid(|inodes'|, SlotOf(i, bn)) && Ptr(disk', inodes', SlotOf(i, bn)) == b != 0
    && (forall q | Valid(|inodes'|, q) && IsData(q) && q != SlotOf(i, bn) ::
         Ptr(disk', inodes', q) == Ptr(disk, inodes, q))
    && (Ptr(disk, inodes, SlotOf(i, bn)) != 0 ==> disk' == disk && inodes' == inodes)
  }

  /** The block at a place and the bitmap block that covers it. */
  function WithBit(g: Geometry, x: nat): set<nat> {
    {x, BBlock(g, x)}
  }

  /** The blocks that mapping block bn of file i may change. */
  function Touch(g: Geometry, disk: Disk, inodes: seq<Inode>, i: nat, bn: nat): set<nat>
    requires i < |inodes| && bn < MAXFILE
  {
    SlotValid(|inodes|, i, bn);
    if bn < NDIRECT then WithBit(g, Ptr(disk, inodes, SlotOf(i, bn)))
    else
      WithBit(g, Ptr(disk, inodes, T(i))) + WithBit(g, Ptr(disk, inodes, M(i, (bn - NDIRECT) / NINDIRECT)))
      + WithBit(g, Ptr(disk, inodes, SlotOf(i, bn)))
  }

  /** The three levels together. */
  lemma MapChain(g: Geometry, d0: Disk, n0: seq<Inode>, d1: Disk, n1: seq<Inode>, d2: Disk, d3: Disk, i: nat, j: nat,
                 k: nat, t: nat, m: nat, b: nat)
    requires i < |n0| && j < NINDIRECT && k < NINDIRECT
    requires Got(g, d0, n0, d1, n1, T(i), t) && Got(g, d1, n1, d2, n1, M(i, j), m)
          && Got(g, d2, n1, d3, n1, L(i, j, k), b)
    ensures Mapped(g, d0, n0, d3, n1, i, NDIRECT + NINDIRECT * j + k, b)
    ensures Ptr(d3, n1, T(i)) == t && Ptr(d3, n1, M(i, j)) == m
  {
    GrowsTrans(d0, n0, d1, n1, d2, n1, i);
    GrowsTrans(d0, n0, d2, n1, d3, n1, i);
    SlotIs(i, j, k);
  }

  lemma SlotIs(i: nat, j: nat, k: nat)
    requires j < NINDIRECT && k < NINDIRECT
    ensures var bn := NDIRECT + NINDIRECT * j + k;
            bn < MAXFILE && SlotOf(i, bn) == L(i, j, k) && (bn - NDIRECT) / NINDIRECT == j
              && (bn - NDIRECT) % NINDIRECT == k
  {
  }

  /** The bytes c were put into one block of file i, at off. */
  ghost predicate OneBlock(g: Geometry, disk: Disk, inodes: seq<Inode>, disk': Disk, inodes': seq<Inode>, i: nat,
                      off: nat, c: seq<byte>) {
    && Owned(g, disk', inodes') && |disk'| == |disk| && SizesStay(inodes, inodes') && OthersStay(inodes, inodes', i)
    && PtrsStay(disk, inodes, disk', inodes') && Patched(disk, inodes, disk', inodes', i, off, c)
    && i < |inodes| && off / BSIZE < MAXFILE && Exists(disk', inodes', i, off / BSIZE)
    && (Exists(disk, inodes, i, off / BSIZE) ==> inodes' == inodes)
  }

  lemma MapAndWrite(g: Geometry, d0: Disk, n0: seq<Inode>, d1: Disk, n1: seq<Inode>, i: nat, off: nat, c: seq<byte>,
                    a: nat, d2: Disk)
    requires Mapped(g, d0, n0, d1, n1, i, off / BSIZE, a) && off < MAXFILE * BSIZE && off % BSIZE + |c| <= BSIZE
          && a < |d1|
    requires d2 == d1[a := Overlay(d1[a], off % BSIZE, c)]
    ensures OneBlock(g, d0, n0, d2, n1, i, off, c)
         && Touch(g, d2, n1, i, off / BSIZE) == Touch(g, d1, n1, i, off / BSIZE)
  {
    DataWriteBytes(g, d1, n1, i, off, c, a, d2);
    PatchedAfterGrowth(d0, n0, d1, n1, d2, n1, i, off, c);
  }

  // ---------- a whole write ----------

  /** The blocks of file i that hold bytes off..off + n exist. */
  ghost predicate Covered(disk: Disk, inodes: seq<Inode>, i: nat, off: nat, n: nat)
    requires i < |inodes|
  {
    forall bn | off / BSIZE <= bn < MAXFILE && bn * BSIZE < off + n :: Exists(disk, inodes, i, bn)
  }

  /** The bytes s have been put into file i at off; its size is still the old one. */
  ghost predicate Writing(g: Geometry, d0: Disk, n0: seq<Inode>, d: Disk, n: seq<Inode>, i: nat, off: nat,
                      s: seq<byte>) {
    && Owned(g, d, n) && |d| == |d0| && SizesStay(n0, n) && OthersStay(n0, n, i) && PtrsStay(d0, n0, d, n)
    && Patched(d0, n0, d, n, i, off, s) && i < |n0| && Covered(d, n, i, off, |s|)
    && (off + |s| <= n0[i].size ==> n == n0)
  }

  lemma WritingStarts(g: Geometry, d: Disk, n: seq<Inode>, i: nat, off: nat)
    requires Owned(g, d, n) && NoHoles(d, n) && i < |n| && off <= n[i].size
    ensures Writing(g, d, n, d, n, i, off, [])
  {
    PatchedNothing(d, n, i, off);
    forall bn | off / BSIZE <= bn < MAXFILE && bn * BSIZE < off ensures Exists(d, n, i, bn) {
      HoldsBlock(d, n, i, bn);
    }
  }

  lemma HoldsBlock(d: Disk, n: seq<Inode>, i: nat, bn: nat)
    requires NoHoles(d, n) && i < |n| && bn < MAXFILE && bn * BSIZE < n[i].size
    ensures Exists(d, n, i, bn)
  {
    assert Filled(d, n, i, BlocksFor(n[i].size));
  }

  lemma WritingMore(g: Geometry, d0: Disk, n0: seq<Inode>, d1: Disk, n1: seq<Inode>, d2: Disk, n2: seq<Inode>, i: nat,
                    off: nat, s: seq<byte>, c: seq<byte>)
    requires Writing(g, d0, n0, d1, n1, i, off, s) && OneBlock(g, d1, n1, d2, n2, i, off + |s|, c) && NoHoles(d0, n0)
    requires 0 < |c| && (off + |s|) % BSIZE + |c| <= BSIZE
    ensures Writing(g, d0, n0, d2, n2, i, off, s + c)
  {
    PatchedMore(d0, n0, d1, n1, d2, n2, i, off, s, c);
    forall q | Valid(|n0|, q) && Ptr(d0, n0, q) != 0 ensures Ptr(d2, n2, q) == Ptr(d0, n0, q) {
      assert Ptr(d1, n1, q) == Ptr(d0, n0, q);
    }
    var last := (off + |s|) / BSIZE;
    forall bn | off / BSIZE <= bn < MAXFILE && bn * BSIZE < off + |s + c| ensures Exists(d2, n2, i, bn) {
      if bn * BSIZE < off + |s| {
        assert Exists(d1, n1, i, bn);
      } else {
        assert bn == last;
      }
    }
    if off + |s + c| <= n0[i].size {
      HoldsBlock(d0, n0, i, last);
      assert Exists(d1, n1, i, last);
    }
  }

  /** Block x may change when some block lo..hi of file i is mapped. */
  ghost predicate Touched(g: Geometry, disk: Disk, inodes: seq<Inode>, i: nat, lo: nat, hi: nat, x: nat)
    requires i < |inodes| && hi <= MAXFILE
  {
    exists bn | lo <= bn < hi :: x in Touch(g, disk, inodes, i, bn)
  }

  /** Only such blocks have been logged since. */
  ghost predicate LogsOnly(g: Geometry, disk: Disk, inodes: seq<Inode>, i: nat, lo: nat, hi: nat, before: set<nat>,
                      after: set<nat>) {
    i < |inodes| && hi <= MAXFILE && forall x | x in after && x !in before :: Touched(g, disk, inodes, i, lo, hi, x)
  }

  lemma TouchStays(g: Geometry, d1: Disk, n1: seq<Inode>, d2: Disk, n2: seq<Inode>, i: nat, bn: nat)
    requires PtrsStay(d1, n1, d2, n2) && i < |n1| && bn < MAXFILE && Exists(d1, n1, i, bn)
    ensures Touch(g, d2, n2, i, bn) == Touch(g, d1, n1, i, bn)
  {
    if bn >= NDIRECT {
      var j := (bn - NDIRECT) / NINDIRECT;
      assert Ptr(d1, n1, T(i)) != 0 && Ptr(d1, n1, M(i, j)) != 0;
    }
  }

  /** Mapping and writing one more block. */
  lemma LogsMore(g: Geometry, d1: Disk, n1: seq<Inode>, d2: Disk, n2: seq<Inode>, i: nat, lo: nat, hi: nat,
                 l0: set<nat>, l1: set<nat>, l2: set<nat>)
    requires LogsOnly(g, d1, n1, i, lo, hi, l0, l1) && lo <= hi < MAXFILE && PtrsStay(d1, n1, d2, n2)
    requires l2 <= l1 + Touch(g, d2, n2, i, hi) && forall bn | lo <= bn < hi :: Exists(d1, n1, i, bn)
    ensures LogsOnly(g, d2, n2, i, lo, hi + 1, l0, l2)
  {
    forall x | x in l2 && x !in l0 ensures Touched(g, d2, n2, i, lo, hi + 1, x) {
      if x in l1 {
        assert Touched(g, d1, n1, i, lo, hi, x);
        var bn :| lo <= bn < hi && x in Touch(g, d1, n1, i, bn);
        TouchStays(g, d1, n1, d2, n2, i, bn);
      }
    }
  }

  /** One past the last block that holds a byte of off..off + n. */
  function HiBlock(off: nat, n: nat): nat {
    if n == 0 then off / BSIZE else (off + n - 1) / BSIZE + 1
  }

  lemma NextHi(off: nat, tot: nat, m: nat)
    requires 0 < m && (off + tot) % BSIZE + m <= BSIZE && (tot == 0 || (off + tot) % BSIZE == 0)
    ensures HiBlock(off, tot) == (off + tot) / BSIZE && HiBlock(off, tot + m) == (off + tot) / BSIZE + 1
  {
  }

  /** Finishing a write: the size is set to what the bytes written call for. */
  lemma WritingEnds(g: Geometry, d0: Disk, n0: seq<Inode>, d: Disk, n: seq<Inode>, i: nat, off: nat, s: seq<byte>,
                    n': seq<Inode>)
    requires Writing(g, d0, n0, d, n, i, off, s) && NoHoles(d0, n0) && off <= n0[i].size && off + |s| <= MAXFILE * BSIZE
    requires n' == if off + |s| > n0[i].size then n[i := n[i].(size := off + |s|)] else n
    ensures Owned(g, d, n') && NoHoles(d, n') && OthersStay(n0, n', i)
    ensures n0[i].size <= MAXFILE * BSIZE && n'[i].size <= MAXFILE * BSIZE
         && Content(d, n', i) == FileBytes.Put(Content(d0, n0, i), off, s)
    ensures forall k | 0 <= k < |n0| && k != i ::
          n0[k].size <= MAXFILE * BSIZE && Content(d, n', k) == Content(d0, n0, k)
  {
    SizeOnly(d, n, n', i);
    OwnedAlike(g, d, n, n');
    PatchedAlike(d0, n0, d, n, n', i, off, s);
    PatchedContent(d0, n0, d, n', i, off, s);
    forall k | 0 <= k < |n0| && k != i
      ensures n0[k].size <= MAXFILE * BSIZE && Content(d, n', k) == Content(d0, n0, k)
    {
      PatchedOther(d0, n0, d, n', i, off, s, k);
    }
    forall k | 0 <= k < |n'| ensures Filled(d, n', k, BlocksFor(n'[k].size)) {
      FilledAfter(g, d0, n0, d, n, i, off, s, n', k);
    }
  }

  ghost predicate PtrsAlike(d: Disk, n: seq<Inode>, n': seq<Inode>) {
    |n'| == |n| && forall q | Valid(|n|, q) :: Ptr(d, n', q) == Ptr(d, n, q)
  }

  lemma SizeOnly(d: Disk, n: seq<Inode>, n': seq<Inode>, i: nat)
    requires i < |n| && (n' == n || exists z :: n' == n[i := n[i].(size := z)])
    ensures PtrsAlike(d, n, n')
  {
  }

  lemma OwnedAlike(g: Geometry, d: Disk, n: seq<Inode>, n': seq<Inode>)
    requires Owned(g, d, n) && PtrsAlike(d, n, n')
    ensures Owned(g, d, n')
  {
    forall q | Valid(|n'|, q) && Ptr(d, n', q) != 0 ensures InData(g, d, Ptr(d, n', q)) {
      assert InData(g, d, Ptr(d, n, q));
    }
    forall q, r | Valid(|n'|, q) && Valid(|n'|, r) && Ptr(d, n', q) != 0 && Ptr(d, n', q) == Ptr(d, n', r)
      ensures q == r
    {
      assert Ptr(d, n, q) == Ptr(d, n, r);
    }
  }

  lemma PatchedAlike(d0: Disk, n0: seq<Inode>, d: Disk, n: seq<Inode>, n': seq<Inode>, i: nat, off: nat, s: seq<byte>)
    requires Patched(d0, n0, d, n, i, off, s) && PtrsAlike(d, n, n')
    ensures Patched(d0, n0, d, n', i, off, s)
  {
    forall k, o | 0 <= k < |n0| && 0 <= o < MAXFILE * BSIZE
      ensures ByteAt(d, n', k, o) == if k == i && off <= o < off + |s| then s[o - off] else ByteAt(d0, n0, k, o)
    {
      SlotValid(|n|, k, o / BSIZE);
      assert ByteAt(d, n', k, o) == ByteAt(d, n, k, o);
    }
  }

  lemma FilledAfter(g: Geometry, d0: Disk, n0: seq<Inode>, d: Disk, n: seq<Inode>, i: nat, off: nat, s: seq<byte>,
                    n': seq<Inode>, k: nat)
    requires Writing(g, d0, n0, d, n, i, off, s) && NoHoles(d0, n0) && off <= n0[i].size
          && off + |s| <= MAXFILE * BSIZE && k < |n'|
    requires PtrsAlike(d, n, n') && n'[k].size == if k == i && off + |s| > n0[i].size then off + |s| else n0[k].size
    ensures BlocksFor(n'[k].size) <= MAXFILE && Filled(d, n', k, BlocksFor(n'[k].size))
  {
    forall bn | 0 <= bn < BlocksFor(n'[k].size) ensures Exists(d, n', k, bn) {
      SlotValid(|n|, k, bn);
      if bn * BSIZE < n0[k].size {
        HoldsBlock(d0, n0, k, bn);
        assert Ptr(d, n, SlotOf(k, bn)) == Ptr(d0, n0, SlotOf(k, bn));
      } else {
        assert Exists(d, n, i, bn);
      }
    }
  }

  /** writei after tot bytes of src. */
  ghost predicate Progress(g: Geometry, d0: Disk, n0: seq<Inode>, l0: set<nat>, d: Disk, n: seq<Inode>, l: set<nat>,
                      i: nat, off: nat, src: seq<byte>, tot: nat) {
    && tot <= |src| && (tot == 0 || tot == |src| || (off + tot) % BSIZE == 0)
    && Writing(g, d0, n0, d, n, i, off, src[..tot]) && LogsOnly(g, d, n, i, off / BSIZE, HiBlock(off, tot), l0, l)
  }

  lemma CoveredBlocks(d: Disk, n: seq<Inode>, i: nat, off: nat, tot: nat)
    requires i < |n| && Covered(d, n, i, off, tot) && HiBlock(off, tot) <= MAXFILE
    ensures forall bn | off / BSIZE <= bn < HiBlock(off, tot) :: Exists(d, n, i, bn)
  {
    forall bn | off / BSIZE <= bn < HiBlock(off, tot) ensures Exists(d, n, i, bn) {
      assert bn * BSIZE < off + tot;
    }
  }

  /** The bytes of the next turn of a loop that goes block by block: up to the end of the block or of the request. */
  function Chunk(pos: nat, left: nat): nat {
    if left < BSIZE - pos % BSIZE then left else BSIZE - pos % BSIZE
  }

  lemma ChunkFits(pos: nat, left: nat)
    requires 0 < left
    ensures 0 < Chunk(pos, left) <= left && pos % BSIZE + Chunk(pos, left) <= BSIZE
    ensures Chunk(pos, left) == left || (pos + Chunk(pos, left)) % BSIZE == 0
  {
  }

  lemma ProgressMore(g: Geometry, d0: Disk, n0: seq<Inode>, l0: set<nat>, d1: Disk, n1: seq<Inode>, l1: set<nat>,
                     d2: Disk, n2: seq<Inode>,
                     l2: set<nat>, i: nat, off: nat, src: seq<byte>, tot: nat, m: nat, bn: nat)
    requires Progress(g, d0, n0, l0, d1, n1, l1, i, off, src, tot) && NoHoles(d0, n0)
          && bn == (off + tot) / BSIZE < MAXFILE
    requires 0 < m && tot + m <= |src| && (off + tot) % BSIZE + m <= BSIZE
          && (tot + m == |src| || (off + tot + m) % BSIZE == 0)
    requires OneBlock(g, d1, n1, d2, n2, i, off + tot, src[tot..tot + m]) && l2 <= l1 + Touch(g, d2, n2, i, bn)
    ensures Progress(g, d0, n0, l0, d2, n2, l2, i, off, src, tot + m)
  {
    var s, c := src[..tot], src[tot..tot + m];
    assert s + c == src[..tot + m];
    WritingMore(g, d0, n0, d1, n1, d2, n2, i, off, s, c);
    NextHi(off, tot, m);
    CoveredBlocks(d1, n1, i, off, tot);
    LogsMore(g, d1, n1, d2, n2, i, off / BSIZE, bn, l0, l1, l2);
  }

  lemma LogsEnd(g: Geometry, d: Disk, n: seq<Inode>, n': seq<Inode>, i: nat, lo: nat, hi: nat, l0: set<nat>,
                l1: set<nat>, l2: set<nat>)
    requires LogsOnly(g, d, n, i, lo, hi, l0, l1) && PtrsAlike(d, n, n') && l2 <= l1 + {IBlock(g, i)}
    ensures LogsOnly(g, d, n', i, lo, hi, l0 + {IBlock(g, i)}, l2)
  {
    forall x | x in l2 && x !in l0 + {IBlock(g, i)} ensures Touched(g, d, n', i, lo, hi, x) {
      assert Touched(g, d, n, i, lo, hi, x);
      var bn :| lo <= bn < hi && x in Touch(g, d, n, i, bn);
      SlotValid(|n|, i, bn);
      assert Touch(g, d, n', i, bn) == Touch(g, d, n, i, bn);
    }
  }

  /** Bytes of one block are bytes of the file. */
  lemma ReadBytes(d: Disk, n: seq<Inode>, i: nat, off: nat, m: nat, a: nat)
    requires i < |n| && off + m <= n[i].size <= MAXFILE * BSIZE && 0 < m && off % BSIZE + m <= BSIZE
    requires Valid(|n|, SlotOf(i, off / BSIZE)) && a == Ptr(d, n, SlotOf(i, off / BSIZE)) && 0 < a < |d|
    ensures d[a][off % BSIZE..off % BSIZE + m] == Content(d, n, i)[off..off + m]
  {
    var c, at := Content(d, n, i), off % BSIZE;
    var x, y := d[a][at..at + m], c[off..off + m];
    forall k | 0 <= k < m ensures x[k] == y[k] {
      assert (off + k) / BSIZE == off / BSIZE && (off + k) % BSIZE == at + k;
      assert c[off + k] == ByteAt(d, n, i, off + k);
    }
  }

  lemma SliceOn<A>(s: seq<A>, a: nat, b: nat, c: nat)
    requires a <= b <= c <= |s|
    ensures s[a..b] + s[b..c] == s[a..c]
  {
  }

  /** File i has the bytes src put in at off; the others are as they were. */
  ghost predicate PutIn(g: Geometry, d0: Disk, n0: seq<Inode>, d: Disk, n: seq<Inode>, i: nat, off: nat,
                      src: seq<byte>) {
    && Owned(g, d, n) && NoHoles(d, n) && Sized(n0) && |n| == |n0| && i < |n| && off <= n0[i].size
    && Content(d, n, i) == FileBytes.Put(Content(d0, n0, i), off, src)
    && forall k | 0 <= k < |n| && k != i :: n[k] == n0[k] && Content(d, n, k) == Content(d0, n0, k)
  }

  lemma PutInNothing(g: Geometry, d: Disk, n: seq<Inode>, i: nat, off: nat)
    requires Owned(g, d, n) && NoHoles(d, n) && i < |n| && off <= n[i].size
    ensures PutIn(g, d, n, d, n, i, off, [])
  {
    var c := Content(d, n, i);
    assert off < |c| ==> c[..off] + [] + c[off..] == c;
    assert off == |c| ==> c[..off] + [] + [] == c;
  }

  lemma PutTwice(c: seq<byte>, off: nat, s: seq<byte>, t: seq<byte>)
    requires off <= |c|
    ensures |FileBytes.Put(c, off, s)| >= off + |s|
    ensures FileBytes.Put(FileBytes.Put(c, off, s), off + |s|, t) == FileBytes.Put(c, off, s + t)
  {
  }

  lemma PutInMore(g: Geometry, d0: Disk, n0: seq<Inode>, d1: Disk, n1: seq<Inode>, d2: Disk, n2: seq<Inode>, i: nat,
                  off: nat, s: seq<byte>, t: seq<byte>)
    requires PutIn(g, d0, n0, d1, n1, i, off, s) && PutIn(g, d1, n1, d2, n2, i, off + |s|, t)
    ensures PutIn(g, d0, n0, d2, n2, i, off, s + t)
  {
    PutTwice(Content(d0, n0, i), off, s, t);
    forall k | 0 <= k < |n2| && k != i ensures n2[k] == n0[k] && Content(d2, n2, k) == Content(d0, n0, k) {
      assert n1[k] == n0[k] && Content(d1, n1, k) == Content(d0, n0, k);
    }
  }

  /** Bytes filewrite hands to writei at a time, of those that are left. */
  function ChunkOf(left: nat): nat {
    if left > CHUNK then CHUNK else left
  }

  /** The next chunk starts inside the file. */
  lemma PutInReaches(g: Geometry, d0: Disk, n0: seq<Inode>, d: Disk, n: seq<Inode>, i: nat, off: nat, s: seq<byte>)
    requires PutIn(g, d0, n0, d, n, i, off, s)
    ensures off + |s| <= n[i].size == |Content(d, n, i)| && n[i].size <= MAXFILE * BSIZE
  {
    PutTwice(Content(d0, n0, i), off, s, []);
  }

  ghost predicate Full(g: Geometry, disk: Disk) {
    GeometryOk(g, disk) && forall c | 0 <= c < g.size :: Used(g, disk, c)
  }

  class Fs {
    const g: Geometry
    /** Every block's contents as bread shows it. */
    var disk: Disk
    /** The inodes in memory and on disk. */
    var inodes: seq<Inode>
    var dinodes: seq<Inode>
    /** The blocks handed to log_write. */
    ghost var logged: set<nat>

    /** The lowest free block, marked used and zeroed; None is the panic "out of blocks". */
    method Balloc() returns (r: Option<nat>)
      requires GeometryOk(g, disk) && MetaUsed(g, disk)
      modifies `disk, `logged
      ensures r.None? ==> disk == old(disk) && logged == old(logged) && forall c | 0 <= c < g.size :: Used(g, disk, c)
      ensures r.Some? ==>
            g.data <= r.value < g.size && !Used(g, old(disk), r.value) && disk == Fresh(g, old(disk), r.value)
      ensures r.Some? ==> logged == old(logged) + {BBlock(g, r.value), r.value}
      ensures r.Some? ==> forall c | 0 <= c < r.value :: Used(g, old(disk), c)
    {
      var b := 0;
      while b < g.size
        invariant b % BPB == 0 && disk == old(disk) && logged == old(logged)
        invariant forall c | 0 <= c < b && c < g.size :: Used(g, disk, c)
      {
        BBlockInRange(g, disk, b);
        var bp := disk[BBlock(g, b)];
        var bi := 0;
        while bi < BPB && b + bi < g.size
          invariant bi <= BPB && disk == old(disk) && logged == old(logged) && bp == disk[BBlock(g, b)]
          invariant forall c | 0 <= c < b + bi && c < g.size :: Used(g, disk, c)
        {
          BitPlace(g, b, bi);
          BBlockInRange(g, disk, b + bi);
          if !Bit(bp, bi) {
            assert !Used(g, disk, b + bi);
            disk := disk[BBlock(g, b) := SetBit(bp, bi)];
            logged := logged + {BBlock(g, b)};
            disk := disk[b + bi := Zeroed(disk[b + bi])];
            logged := logged + {b + bi};
            return Some(b + bi);
          }
          bi := bi + 1;
        }
        b := b + BPB;
      }
      return None;
    }

    /** false is the panic "freeing free block". */
    method Bfree(b: nat) returns (ok: bool)
      requires GeometryOk(g, disk) && b < g.size
      modifies `disk, `logged
      ensures ok == Used(g, old(disk), b)
      ensures ok ==> disk == Unmarked(g, old(disk), b) && logged == old(logged) + {BBlock(g, b)}
      ensures !ok ==> disk == old(disk) && logged == old(logged)
    {
      BBlockInRange(g, disk, b);
      var bp := disk[BBlock(g, b)];
      if !Bit(bp, b % BPB) { return false; }
      disk := disk[BBlock(g, b) := ClearBit(bp, b % BPB)];
      logged := logged + {BBlock(g, b)};
      return true;
    }

    /** A block number kept in the inode, allocated if there is none. */
    method AddrOr(i: nat, k: nat, ghost p: Place) returns (r: Option<nat>)
      requires Owned(g, disk, inodes) && i < |inodes| && k <= NDIRECT && p == if k < NDIRECT then D(i, k) else T(i)
      modifies `disk, `inodes, `logged
      ensures old(logged) <= logged
      ensures r.None? ==> disk == old(disk) && inodes == old(inodes) && Full(g, disk) && Ptr(disk, inodes, p) == 0
      ensures r.Some? ==> Got(g, old(disk), old(inodes), disk, inodes, p, r.value)
      ensures r.Some? ==> logged <= old(logged) + {r.value, BBlock(g, r.value)}
      ensures r.Some? && Ptr(old(disk), old(inodes), p) != 0 ==> logged == old(logged)
      ensures Noted(old(disk), disk, logged)
    {
      var addr := inodes[i].addrs[k];
      if addr != 0 {
        GrowsRefl(disk, inodes, i);
        return Some(addr);
      }
      r := Balloc();
      if r.None? { return; }
      LinksInode(g, old(disk), inodes, r.value, i, k);
      inodes := inodes[i := inodes[i].(addrs := inodes[i].addrs[k := r.value])];
    }

    /** A block number kept in entry j of the index block a of place p, allocated if there is none. */
    method EntryOr(a: nat, j: nat, ghost p: Place, ghost q: Place) returns (r: Option<nat>)
      requires Owned(g, disk, inodes) && Valid(|inodes|, p) && (p.T? || p.M?) && Ptr(disk, inodes, p) == a != 0
      requires j < NINDIRECT && EntryOf(p, j, q)
      modifies `disk, `logged
      ensures old(logged) <= logged
      ensures r.None? ==> disk == old(disk) && Full(g, disk) && Ptr(disk, inodes, q) == 0
      ensures r.Some? ==> Got(g, old(disk), inodes, disk, inodes, q, r.value)
      ensures r.Some? ==> logged <= old(logged) + {r.value, BBlock(g, r.value), a}
      ensures r.Some? && Ptr(old(disk), inodes, q) != 0 ==> logged == old(logged)
      ensures Noted(old(disk), disk, logged)
    {
      assert InData(g, disk, a);
      var addr := Word(disk[a], j);
      if addr != 0 {
        GrowsRefl(disk, inodes, p.i);
        return Some(addr);
      }
      r := Balloc();
      if r.None? { return; }
      LinksEntry(g, old(disk), inodes, r.value, p, j, q);
      disk := disk[a := SetWord(disk[a], j, r.value)];
      logged := logged + {a};
    }

    /** Through the two levels of index blocks. */
    method BmapIndirect(i: nat, j: nat, k: nat, ghost bn: nat) returns (r: Option<nat>)
      requires Owned(g, disk, inodes) && i < |inodes| && j < NINDIRECT && k < NINDIRECT
            && bn == NDIRECT + NINDIRECT * j + k
      modifies `disk, `inodes, `logged
      ensures old(logged) <= logged
      ensures r.None? ==> Full(g, disk) && Ptr(old(disk), old(inodes), L(i, j, k)) == 0
      ensures r.Some? ==> Mapped(g, old(disk), old(inodes), disk, inodes, i, bn, r.value)
      ensures r.Some? ==>
            logged <= old(logged) + WithBit(g, Ptr(disk, inodes, T(i))) + WithBit(g, Ptr(disk, inodes, M(i, j)))
              + WithBit(g, r.value)
      ensures Ptr(old(disk), old(inodes), L(i, j, k)) != 0 ==> logged == old(logged)
      ensures Noted(old(disk), disk, logged)
    {
      ghost var d0, n0 := disk, inodes;
      r := AddrOr(i, NDIRECT, T(i));
      if r.None? { return; }
      var t := r.value;
      ghost var d1, n1, l1 := disk, inodes, logged;
      r := EntryOr(t, j, T(i), M(i, j));
      NotedOn(d0, d1, l1, disk, logged);
      if r.None? { return; }
      var m := r.value;
      ghost var d2, l2 := disk, logged;
      r := EntryOr(m, k, M(i, j), L(i, j, k));
      NotedOn(d0, d2, l2, disk, logged);
      if r.None? { return; }
      MapChain(g, d0, n0, d1, n1, d2, disk, i, j, k, t, m, r.value);
    }

    /** The block number of block bn of file i, allocating what is missing on the way. None is a panic: bn is too
        large or the disk is full. */
    method Bmap(i: nat, bn: nat) returns (r: Option<nat>)
      requires Owned(g, disk, inodes) && i < |inodes|
      modifies `disk, `inodes, `logged
      ensures old(logged) <= logged
      ensures bn >= MAXFILE ==> r.None?
      ensures r.None? ==> bn >= MAXFILE || (Full(g, disk) && !Exists(old(disk), old(inodes), i, bn))
      ensures r.Some? ==> Mapped(g, old(disk), old(inodes), disk, inodes, i, bn, r.value)
      ensures r.Some? ==> logged <= old(logged) + Touch(g, disk, inodes, i, bn)
      ensures bn < MAXFILE && Exists(old(disk), old(inodes), i, bn) ==> logged == old(logged)
      ensures Noted(old(disk), disk, logged)
    {
      if bn < NDIRECT {
        r := AddrOr(i, bn, D(i, bn));
        return;
      }
      var j, k := (bn - NDIRECT) / NINDIRECT, (bn - NDIRECT) % NINDIRECT;
      if j >= NINDIRECT { return None; }
      r := BmapIndirect(i, j, k, bn);
    }

    /** Put the bytes c into the block of file i that holds offset off; false is the panic of a full disk. */
    method WriteBlock(i: nat, off: nat, c: seq<byte>) returns (ok: bool)
      requires Owned(g, disk, inodes) && i < |inodes| && off < MAXFILE * BSIZE && off % BSIZE + |c| <= BSIZE
      modifies `disk, `inodes, `logged
      ensures old(logged) <= logged
      ensures !ok ==> Full(g, disk)
      ensures ok ==> OneBlock(g, old(disk), old(inodes), disk, inodes, i, off, c)
      ensures ok ==> logged <= old(logged) + Touch(g, disk, inodes, i, off / BSIZE)
      ensures Noted(old(disk), disk, logged)
    {
      var a := Bmap(i, off / BSIZE);
      if a.None? { return false; }
      assert InData(g, disk, a.value);
      MapAndWrite(g, old(disk), old(inodes), disk, inodes, i, off, c, a.value,
                  disk[a.value := Overlay(disk[a.value], off % BSIZE, c)]);
      disk := disk[a.value := Overlay(disk[a.value], off % BSIZE, c)];
      logged := logged + {a.value};
      return true;
    }

    /** One turn of writei's loop. */
    method WriteNext(i: nat, src: seq<byte>, off: nat, tot: nat, ghost d0: Disk, ghost n0: seq<Inode>,
                     ghost l0: set<nat>) returns (ok: bool, m: nat)
      requires Progress(g, d0, n0, l0, disk, inodes, logged, i, off, src, tot) && tot < |src| && NoHoles(d0, n0)
            && off + |src| <= MAXFILE * BSIZE
      modifies `disk, `inodes, `logged
      ensures old(logged) <= logged && Noted(old(disk), disk, logged)
      ensures !ok ==> Full(g, disk)
      ensures ok ==> 0 < m && Progress(g, d0, n0, l0, disk, inodes, logged, i, off, src, tot + m)
    {
      m := Chunk(off + tot, |src| - tot);
      ChunkFits(off + tot, |src| - tot);
      ghost var d1, n1, l1 := disk, inodes, logged;
      ok := WriteBlock(i, off + tot, src[tot..tot + m]);
      if ok { ProgressMore(g, d0, n0, l0, d1, n1, l1, disk, inodes, logged, i, off, src, tot, m, (off + tot) / BSIZE); }
    }

    /** writei's loop: the bytes of src go into the blocks from off on; false is the panic of a full disk. */
    method WriteBlocks(i: nat, src: seq<byte>, off: nat) returns (ok: bool)
      requires Owned(g, disk, inodes) && NoHoles(disk, inodes) && i < |inodes| && off <= inodes[i].size
            && off + |src| <= MAXFILE * BSIZE
      modifies `disk, `inodes, `logged
      ensures old(logged) <= logged && Noted(old(disk), disk, logged)
      ensures !ok ==> Full(g, disk)
      ensures ok ==> Progress(g, old(disk), old(inodes), old(logged), disk, inodes, logged, i, off, src, |src|)
    {
      WritingStarts(g, disk, inodes, i, off);
      ghost var d0, n0, l0 := disk, inodes, logged;
      var tot := 0;
      while tot < |src|
        invariant tot <= |src| && Progress(g, d0, n0, l0, disk, inodes, logged, i, off, src, tot) && l0 <= logged
        invariant Noted(d0, disk, logged)
      {
        var m;
        ghost var d1, l1 := disk, logged;
        ok, m := WriteNext(i, src, off, tot, d0, n0, l0);
        NotedOn(d0, d1, l1, disk, logged);
        if !ok { return; }
        tot := tot + m;
      }
      return true;
    }

    /** Copy inode i to disk. */
    method Iupdate(i: nat)
      requires i < |inodes| == |dinodes|
      modifies `dinodes, `logged
      ensures dinodes == old(dinodes)[i := inodes[i]] && logged == old(logged) + {IBlock(g, i)}
    {
      dinodes := dinodes[i := inodes[i]];
      logged := logged + {IBlock(g, i)};
    }

    /** writei on a plain file. A refused write (-1) changes nothing; a panic means the disk is full; otherwise file i
        has the bytes src put in at off, every other file is as it was, and memory and disk agree on the inodes. */
    method Writei(i: nat, src: seq<byte>, off: word) returns (panics: bool, r: int)
      requires Owned(g, disk, inodes) && NoHoles(disk, inodes) && i < |inodes| && dinodes == inodes && |src| < TWO32
      modifies `disk, `inodes, `dinodes, `logged
      ensures panics ==> Full(g, disk)
      ensures !panics ==> old(logged) <= logged
      ensures !panics ==>
            r == if off > old(inodes)[i].size || off + |src| >= TWO32 || off + |src| > MAXFILE * BSIZE then -1
              else |src|
      ensures !panics && r == -1 ==>
            disk == old(disk) && inodes == old(inodes) && dinodes == old(dinodes) && logged == old(logged)
      ensures !panics && r >= 0 ==>
            Owned(g, disk, inodes) && NoHoles(disk, inodes) && dinodes == inodes && |inodes| == |old(inodes)|
      ensures !panics && r >= 0 ==>
            Content(disk, inodes, i) == FileBytes.Put(Content(old(disk), old(inodes), i), off, src)
      ensures !panics && r >= 0 ==>
            forall k | 0 <= k < |inodes| && k != i ::
              inodes[k] == old(inodes)[k] && Content(disk, inodes, k) == Content(old(disk), old(inodes), k)
      ensures !panics && r >= 0 ==>
            LogsOnly(g, disk, inodes, i, off / BSIZE, HiBlock(off, |src|), old(logged) + {IBlock(g, i)}, logged)
      ensures !panics ==> Noted(old(disk), disk, logged) && InodesNoted(g, old(dinodes), dinodes, logged)
    {
      ghost var d0, n0, l0 := disk, inodes, logged;
      if off > inodes[i].size || off + |src| >= TWO32 { return false, -1; }
      if off + |src| > MAXFILE * BSIZE { return false, -1; }
      var ok := WriteBlocks(i, src, off);
      if !ok { return true, 0; }
      assert src[..|src|] == src;
      ghost var n1, l1 := inodes, logged;
      if |src| > 0 && off + |src| > inodes[i].size {
        inodes := inodes[i := inodes[i].(size := off + |src|)];
        Iupdate(i);
      }
      WritingEnds(g, d0, n0, disk, n1, i, off, src, inodes);
      SizeOnly(disk, n1, inodes, i);
      LogsEnd(g, disk, n1, inodes, i, off / BSIZE, HiBlock(off, |src|), l0, l1, logged);
      return false, |src|;
    }

    /** Bytes of one block of file i. */
    method ReadBlock(i: nat, off: nat, m: nat, ghost c: seq<byte>) returns (bs: seq<byte>)
      requires Owned(g, disk, inodes) && NoHoles(disk, inodes) && i < |inodes| && off + m <= inodes[i].size && 0 < m
            && off % BSIZE + m <= BSIZE
      requires c == Content(disk, inodes, i)
      modifies `disk, `inodes, `logged
      ensures disk == old(disk) && inodes == old(inodes) && logged == old(logged)
      ensures bs == c[off..off + m]
    {
      HoldsBlock(disk, inodes, i, off / BSIZE);
      var a := Bmap(i, off / BSIZE);
      assert InData(g, disk, a.value);
      ReadBytes(disk, inodes, i, off, m, a.value);
      bs := disk[a.value][off % BSIZE..off % BSIZE + m];
    }

    /** readi's loop: the r bytes of file i from off on. */
    method ReadBlocks(i: nat, off: nat, r: nat, ghost c: seq<byte>) returns (dst: seq<byte>)
      requires Owned(g, disk, inodes) && NoHoles(disk, inodes) && i < |inodes| && off + r <= inodes[i].size
            && c == Content(disk, inodes, i)
      modifies `disk, `inodes, `logged
      ensures disk == old(disk) && inodes == old(inodes) && logged == old(logged) && dst == c[off..off + r]
    {
      dst := [];
      var tot := 0;
      while tot < r
        invariant tot <= r && disk == old(disk) && inodes == old(inodes) && logged == old(logged)
        invariant dst == c[off..off + tot]
      {
        var m := Chunk(off + tot, r - tot);
        ChunkFits(off + tot, r - tot);
        var bs := ReadBlock(i, off + tot, m, c);
        SliceOn(c, off, off + tot, off + tot + m);
        dst := dst + bs;
        tot := tot + m;
      }
    }

    /** readi on a plain file: the bytes off..off + n of the file, as far as it goes. Nothing changes and nothing is
        allocated. */
    method Readi(i: nat, off: word, n: word) returns (r: int, dst: seq<byte>)
      requires Owned(g, disk, inodes) && NoHoles(disk, inodes) && i < |inodes|
      modifies `disk, `inodes, `logged
      ensures disk == old(disk) && inodes == old(inodes) && logged == old(logged)
      ensures off > inodes[i].size || off + n >= TWO32 ==> r == -1
      ensures off <= inodes[i].size && off + n < TWO32 ==>
                && r == (if off + n > inodes[i].size then inodes[i].size - off else n)
                && dst == Content(disk, inodes, i)[off..off + r]
    {
      dst := [];
      if off > inodes[i].size || off + n >= TWO32 { return -1, dst; }
      var size := inodes[i].size;
      r := if off + n > size then size - off else n;
      dst := ReadBlocks(i, off, r, Content(disk, inodes, i));
    }

    /** itrunc's loop over the direct blocks. */
    method FreeDirects(i: nat) returns (ok: bool)
      requires Owned(g, disk, inodes) && i < |inodes|
      modifies `disk, `inodes, `logged
      ensures ok && FreeUpto(g, old(disk), old(inodes), disk, i, NDIRECT, 0, false)
      ensures |inodes| == |old(inodes)| && inodes == old(inodes)[i := inodes[i]]
           && inodes[i].addrs[NDIRECT] == old(inodes)[i].addrs[NDIRECT]
      ensures forall k | 0 <= k < NDIRECT :: inodes[i].addrs[k] == 0
      ensures old(logged) <= logged && Noted(old(disk), disk, logged)
    {
      ghost var d0, n0 := disk, inodes;
      FreeNothing(g, disk, inodes, i);
      var k := 0;
      ok := true;
      while k < NDIRECT
        invariant k <= NDIRECT && ok && |inodes| == |n0| && inodes == n0[i := inodes[i]]
        invariant FreeUpto(g, d0, n0, disk, i, k, 0, false)
        invariant forall m | 0 <= m <= NDIRECT :: inodes[i].addrs[m] == if m < k then 0 else n0[i].addrs[m]
        invariant old(logged) <= logged && Noted(d0, disk, logged)
      {
        FreeDirect(g, d0, n0, disk, i, k);
        if inodes[i].addrs[k] != 0 {
          ghost var d1, l1 := disk, logged;
          ok := Bfree(inodes[i].addrs[k]);
          NotedOn(d0, d1, l1, disk, logged);
          inodes := inodes[i := inodes[i].(addrs := inodes[i].addrs[k := 0])];
        }
        k := k + 1;
      }
    }

    /** itrunc's loop over the entries of the top index block, whose contents are a. */
    method FreeMids(i: nat, a: Block, ghost d0: Disk, ghost n0: seq<Inode>) returns (ok: bool)
      requires Owned(g, d0, n0) && i < |n0| && FreeUpto(g, d0, n0, disk, i, NDIRECT, 0, false)
      requires forall j | 0 <= j < NINDIRECT :: Word(a, j) == Ptr(d0, n0, M(i, j))
      modifies `disk, `logged
      ensures ok && FreeUpto(g, d0, n0, disk, i, NDIRECT, NINDIRECT, false)
      ensures old(logged) <= logged && Noted(old(disk), disk, logged)
    {
      var j := 0;
      ok := true;
      while j < NINDIRECT
        invariant j <= NINDIRECT && ok && FreeUpto(g, d0, n0, disk, i, NDIRECT, j, false)
        invariant old(logged) <= logged && Noted(old(disk), disk, logged)
      {
        FreeMid(g, d0, n0, disk, i, j);
        ghost var d1, l1 := disk, logged;
        if Word(a, j) != 0 { ok := Bfree(Word(a, j)); }
        NotedOn(old(disk), d1, l1, disk, logged);
        j := j + 1;
      }
    }

    /** itrunc. No block it frees is free already, so it never panics; the file is empty and the others are untouched.
        */
    method Itrunc(i: nat) returns (ok: bool)
      requires Owned(g, disk, inodes) && i < |inodes| == |dinodes|
      modifies `disk, `inodes, `dinodes, `logged
      ensures ok && Truncated(g, old(disk), old(inodes), disk, inodes, i) && dinodes == old(dinodes)[i := inodes[i]]
      ensures Noted(old(disk), disk, logged) && InodesNoted(g, old(dinodes), dinodes, logged)
    {
      ghost var d0, n0 := disk, inodes;
      ok := FreeDirects(i);
      var top := inodes[i].addrs[NDIRECT];
      if top != 0 {
        assert Ptr(d0, n0, T(i)) == top && InData(g, d0, top);
        ghost var d1, l1 := disk, logged;
        ok := FreeMids(i, disk[top], d0, n0);
        NotedOn(d0, d1, l1, disk, logged);
        FreeTop(g, d0, n0, disk, i);
        ghost var d2, l2 := disk, logged;
        ok := Bfree(top);
        NotedOn(d0, d2, l2, disk, logged);
        inodes := inodes[i := inodes[i].(addrs := inodes[i].addrs[NDIRECT := 0])];
      } else {
        FreeNoTop(g, d0, n0, disk, i);
      }
      inodes := inodes[i := inodes[i].(size := 0)];
      TruncatedOwned(g, d0, n0, disk, i, inodes);
      Iupdate(i);
    }

    /** One chunk of filewrite, an operation of its own: at most nine blocks go to the log. */
    method WriteChunk(i: nat, src: seq<byte>, off: word) returns (panics: bool, r: int)
      requires Owned(g, disk, inodes) && NoHoles(disk, inodes) && i < |inodes| && dinodes == inodes && |src| <= CHUNK
            && g.size <= BPB
      modifies `disk, `inodes, `dinodes, `logged
      ensures panics ==> Full(g, disk)
      ensures !panics ==> |logged| <= 9
      ensures !panics ==>
            r == if off > old(inodes)[i].size || off + |src| >= TWO32 || off + |src| > MAXFILE * BSIZE then -1
              else |src|
      ensures !panics && r == -1 ==> disk == old(disk) && inodes == old(inodes) && dinodes == old(dinodes)
      ensures !panics && r >= 0 ==> PutIn(g, old(disk), old(inodes), disk, inodes, i, off, src) && dinodes == inodes
      ensures !panics ==> Transacts(g, Tx(old(disk), old(inodes), disk, inodes, logged))
    {
      logged := {};
      panics, r := Writei(i, src, off);
      if !panics && r >= 0 {
        ChunkLogsNine(g, disk, inodes, i, off, |src|, {}, logged);
        assert logged - {} == logged;
      }
    }

    /** One turn of filewrite's loop, after the bytes s, the first k of src. */
    method NextChunk(i: nat, src: seq<byte>, start: nat, k: nat, ghost d0: Disk, ghost n0: seq<Inode>,
                     ghost s: seq<byte>)
      returns (panics: bool, r: int, ghost s': seq<byte>)
      requires g.size <= BPB && k < |src| && |src| < TWO31 && dinodes == inodes && s == src[..k]
            && PutIn(g, d0, n0, disk, inodes, i, start, s)
      modifies `disk, `inodes, `dinodes, `logged
      ensures panics ==> Full(g, disk)
      ensures !panics ==> dinodes == inodes && PutIn(g, d0, n0, disk, inodes, i, start, s')
      ensures !panics ==> Transacts(g, Tx(old(disk), old(inodes), disk, inodes, logged))
      ensures !panics && r < 0 ==> s' == s && start + k + ChunkOf(|src| - k) > MAXFILE * BSIZE
      ensures !panics && r >= 0 ==> r == ChunkOf(|src| - k) && s' == src[..k + r]
    {
      var n1 := ChunkOf(|src| - k);
      ghost var d1, m1, t := disk, inodes, src[k..k + n1];
      PutInReaches(g, d0, n0, disk, inodes, i, start, s);
      panics, r := WriteChunk(i, src[k..k + n1], start + k);
      s' := s;
      if !panics && r >= 0 {
        PutInMore(g, d0, n0, d1, m1, disk, inodes, i, start, s, t);
        s' := s + t;
      }
    }

    /** filewrite on a plain file, with chunks of 1536 bytes, each in an operation of its own. The bytes s were written,
        all of src or as many chunks as fit, by the operations txs; the panic "short filewrite" cannot happen. */
    method Filewrite(i: nat, src: seq<byte>, start: word) returns (panics: bool, r: int, off: nat, ghost s: seq<byte>,
                     ghost txs: seq<Tx>)
      requires Owned(g, disk, inodes) && NoHoles(disk, inodes) && i < |inodes| && dinodes == inodes && |src| < TWO31
            && g.size <= BPB
      modifies `disk, `inodes, `dinodes, `logged
      ensures panics ==> Full(g, disk)
      ensures !panics ==> s <= src && off == start + |s| && dinodes == inodes && r == if s == src then |src| else -1
      ensures !panics ==> Operations(g, old(disk), old(inodes), txs, disk, inodes)
      ensures !panics && start <= old(inodes)[i].size ==> PutIn(g, old(disk), old(inodes), disk, inodes, i, start, s)
      ensures !panics && start > old(inodes)[i].size ==> s == [] && disk == old(disk) && inodes == old(inodes)
      ensures !panics && r < 0 ==> start > old(inodes)[i].size || off + ChunkOf(|src| - |s|) > MAXFILE * BSIZE
    {
      ghost var d0, n0 := disk, inodes;
      panics, off, s, txs := false, start, [], [];
      if start > inodes[i].size {
        if src == [] { return false, 0, off, s, txs; }
        panics, r := WriteChunk(i, src[..ChunkOf(|src|)], start);
        return;
      }
      PutInNothing(g, disk, inodes, i, start);
      while off - start < |src|
        invariant start <= off <= start + |src| && dinodes == inodes && !panics
        invariant s == src[..off - start] && PutIn(g, d0, n0, disk, inodes, i, start, s)
        invariant Operations(g, d0, n0, txs, disk, inodes)
        decreases start + |src| - off
      {
        ghost var tx := Tx(disk, inodes, disk, inodes, {});
        panics, r, s := NextChunk(i, src, start, off - start, d0, n0, s);
        if panics { return; }
        tx := tx.(d := disk, n := inodes, blocks := logged);
        OneMore(g, d0, n0, txs, tx);
        txs := txs + [tx];
        if r < 0 { return false, -1, off, s, txs; }
        off := off + r;
      }
      r := |src|;
    }
  }

  // ---------- operations ----------

  /** What one operation did: the disk and the inodes before and after it, and the blocks it logged. */
  datatype Tx = Tx(d0: Disk, n0: seq<Inode>, d: Disk, n: seq<Inode>, blocks: set<nat>)

  /** From a well-formed file system to one, every block and inode that differs logged. */
  ghost predicate AllLogged(g: Geometry, t: Tx) {
    && Noted(t.d0, t.d, t.blocks) && InodesNoted(g, t.n0, t.n, t.blocks)
    && Owned(g, t.d0, t.n0) && Sized(t.n0) && Owned(g, t.d, t.n) && Sized(t.n)
  }

  ghost predicate Transacts(g: Geometry, t: Tx) {
    AllLogged(g, t) && |t.blocks| <= 9
  }

  /** The operations lead from one state to the other. */
  ghost predicate Operations(g: Geometry, d0: Disk, n0: seq<Inode>, txs: seq<Tx>, d: Disk, n: seq<Inode>) {
    if txs == [] then d == d0 && n == n0
    else
      var t := txs[|txs| - 1];
      t.d == d && t.n == n && Transacts(g, t) && Operations(g, d0, n0, txs[..|txs| - 1], t.d0, t.n0)
  }

  lemma OneMore(g: Geometry, d0: Disk, n0: seq<Inode>, txs: seq<Tx>, t: Tx)
    requires Operations(g, d0, n0, txs, t.d0, t.n0) && Transacts(g, t)
    ensures Operations(g, d0, n0, txs + [t], t.d, t.n)
  {
    assert (txs + [t])[..|txs|] == txs;
  }

  // ---------- how much one operation logs ----------

  /** Bytes that filewrite hands to writei at a time. */
  const CHUNK: nat := 1536

  function PtrOr0(d: Disk, n: seq<Inode>, i: nat, bn: nat): nat
    requires i < |n|
  {
    if bn < MAXFILE then SlotValid(|n|, i, bn); Ptr(d, n, SlotOf(i, bn)) else 0
  }

  function MidOr0(d: Disk, n: seq<Inode>, i: nat, bn: nat): nat
    requires i < |n|
  {
    if NDIRECT <= bn < MAXFILE then Ptr(d, n, M(i, (bn - NDIRECT) / NINDIRECT)) else 0
  }

  /** The nine blocks a chunk at block lo of file i can touch: inode, bitmap, top index, two second-level index blocks
      and four data blocks. */
  function Nine(g: Geometry, d: Disk, n: seq<Inode>, i: nat, lo: nat): seq<nat>
    requires i < |n|
  {
    [IBlock(g, i), g.bmap, Ptr(d, n, T(i)), MidOr0(d, n, i, lo), MidOr0(d, n, i, lo + 3),
     PtrOr0(d, n, i, lo), PtrOr0(d, n, i, lo + 1), PtrOr0(d, n, i, lo + 2), PtrOr0(d, n, i, lo + 3)]
  }

  lemma ChunkBlocks(off: nat, m: nat)
    requires m <= CHUNK
    ensures HiBlock(off, m) <= off / BSIZE + 4
  {
  }

  lemma OneBitmapBlock(g: Geometry, x: nat)
    requires x < g.size <= BPB
    ensures BBlock(g, x) == g.bmap
  {
  }

  lemma PtrInSize(g: Geometry, d: Disk, n: seq<Inode>, p: Place)
    requires Owned(g, d, n) && Valid(|n|, p)
    ensures Ptr(d, n, p) < g.size
  {
    assert Ptr(d, n, p) != 0 ==> InData(g, d, Ptr(d, n, p));
  }

  lemma MidIs(d: Disk, n: seq<Inode>, i: nat, lo: nat, bn: nat)
    requires i < |n| && NDIRECT <= bn < MAXFILE && lo <= bn < lo + 4
    ensures var m := Ptr(d, n, M(i, (bn - NDIRECT) / NINDIRECT));
            m == MidOr0(d, n, i, lo) || m == MidOr0(d, n, i, lo + 3)
  {
    var j := (bn - NDIRECT) / NINDIRECT;
    if lo >= NDIRECT && (lo - NDIRECT) / NINDIRECT != j {
      assert lo + 3 < MAXFILE && (lo + 3 - NDIRECT) / NINDIRECT == j;
    }
  }

  /** With one bitmap block, mapping a block touches it, the bitmap block and the index blocks above. */
  lemma TouchCases(g: Geometry, d: Disk, n: seq<Inode>, i: nat, bn: nat, x: nat)
    requires Owned(g, d, n) && g.size <= BPB && i < |n| && bn < MAXFILE && x in Touch(g, d, n, i, bn)
    ensures x == g.bmap || x == PtrOr0(d, n, i, bn) || (bn >= NDIRECT
          && (x == Ptr(d, n, T(i)) || x == Ptr(d, n, M(i, (bn - NDIRECT) / NINDIRECT))))
  {
    SlotValid(|n|, i, bn);
    PtrInSize(g, d, n, SlotOf(i, bn));
    OneBitmapBlock(g, Ptr(d, n, SlotOf(i, bn)));
    if bn >= NDIRECT {
      var m := M(i, (bn - NDIRECT) / NINDIRECT);
      PtrInSize(g, d, n, T(i));
      PtrInSize(g, d, n, m);
      OneBitmapBlock(g, Ptr(d, n, T(i)));
      OneBitmapBlock(g, Ptr(d, n, m));
    }
  }

  lemma TouchIsNine(g: Geometry, d: Disk, n: seq<Inode>, i: nat, lo: nat, bn: nat, x: nat)
    requires Owned(g, d, n) && g.size <= BPB && i < |n| && lo <= bn < lo + 4 && bn < MAXFILE
          && x in Touch(g, d, n, i, bn)
    ensures x in Nine(g, d, n, i, lo)
  {
    TouchCases(g, d, n, i, bn, x);
    if bn >= NDIRECT { MidIs(d, n, i, lo, bn); }
    NineHas(g, d, n, i, lo, bn);
  }

  lemma NineHas(g: Geometry, d: Disk, n: seq<Inode>, i: nat, lo: nat, bn: nat)
    requires i < |n| && lo <= bn < lo + 4
    ensures var w := Nine(g, d, n, i, lo);
            && IBlock(g, i) in w && g.bmap in w && Ptr(d, n, T(i)) in w && MidOr0(d, n, i, lo) in w
              && MidOr0(d, n, i, lo + 3) in w
            && PtrOr0(d, n, i, bn) in w
  {
    var w := Nine(g, d, n, i, lo);
    assert w[0] == IBlock(g, i) && w[1] == g.bmap && w[2] == Ptr(d, n, T(i));
    assert w[3] == MidOr0(d, n, i, lo) && w[4] == MidOr0(d, n, i, lo + 3);
    assert w[5 + (bn - lo)] == PtrOr0(d, n, i, bn);
  }

  /** A chunk of filewrite logs at most nine different blocks, although files are double-indirect: the file system is
      so small that one bitmap block covers it. */
  lemma ChunkLogsNine(g: Geometry, d: Disk, n: seq<Inode>, i: nat, off: nat, m: nat, before: set<nat>, after: set<nat>)
    requires Owned(g, d, n) && g.size <= BPB && i < |n| && m <= CHUNK && before <= after
    requires LogsOnly(g, d, n, i, off / BSIZE, HiBlock(off, m), before + {IBlock(g, i)}, after)
    ensures |after - before| <= 9
  {
    var lo := off / BSIZE;
    var w := Nine(g, d, n, i, lo);
    ChunkBlocks(off, m);
    forall x | x in after - before ensures x in Elements(w) {
      if x == IBlock(g, i) {
        NineHas(g, d, n, i, lo, lo);
      } else {
        assert Touched(g, d, n, i, lo, HiBlock(off, m), x);
        var bn :| lo <= bn < HiBlock(off, m) && x in Touch(g, d, n, i, bn);
        TouchIsNine(g, d, n, i, lo, bn, x);
      }
    }
    ElementsSize(w);
    SubsetSize(after - before, Elements(w));
  }
}
