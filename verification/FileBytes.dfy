/** Writing bytes into a file, block by block. */
module FileBytes {
  import opened Words
  import opened Blocks
  import opened Bitmap
  import opened FileTree
  import opened FileGrowth

  /** Block x with the bytes c from offset at on. */
  function Overlay(x: Block, at: nat, c: seq<byte>): Block
    requires at + |c| <= BSIZE
  {
    x[..at] + c + x[at + |c|..]
  }

  lemma OverlayAt(x: Block, at: nat, c: seq<byte>, k: nat)
    requires at + |c| <= BSIZE && k < BSIZE
    ensures Overlay(x, at, c)[k] == if at <= k < at + |c| then c[k - at] else x[k]
  {
  }

  /** Every byte of every file is as before, except that file i has the bytes src from offset off on. */
  ghost predicate Patched(disk: Disk, inodes: seq<Inode>, disk': Disk, inodes': seq<Inode>, i: nat, off: nat,
                      src: seq<byte>) {
    && |inodes'| == |inodes|
    && forall k, o | 0 <= k < |inodes| && 0 <= o < MAXFILE * BSIZE ::
         ByteAt(disk', inodes', k, o) == if k == i && off <= o < off + |src| then src[o - off]
           else ByteAt(disk, inodes, k, o)
  }

  lemma PatchedNothing(disk: Disk, inodes: seq<Inode>, i: nat, off: nat)
    ensures Patched(disk, inodes, disk, inodes, i, off, [])
  {
  }

  lemma PatchedMore(d0: Disk, n0: seq<Inode>, d1: Disk, n1: seq<Inode>, d2: Disk, n2: seq<Inode>, i: nat, off: nat,
                    s: seq<byte>, t: seq<byte>)
    requires Patched(d0, n0, d1, n1, i, off, s) && Patched(d1, n1, d2, n2, i, off + |s|, t)
    ensures Patched(d0, n0, d2, n2, i, off, s + t)
  {
    forall k, o | 0 <= k < |n0| && 0 <= o < MAXFILE * BSIZE
      ensures ByteAt(d2, n2, k, o) == if k == i && off <= o < off + |s + t| then (s + t)[o - off]
            else ByteAt(d0, n0, k, o)
    {
      assert ByteAt(d1, n1, k, o) == if k == i && off <= o < off + |s| then s[o - off] else ByteAt(d0, n0, k, o);
    }
  }

  lemma PatchedAfterGrowth(d0: Disk, n0: seq<Inode>, d1: Disk, n1: seq<Inode>, d2: Disk, n2: seq<Inode>, i: nat,
                      off: nat, s: seq<byte>)
    requires BytesStay(d0, n0, d1, n1) && Patched(d1, n1, d2, n2, i, off, s)
    ensures Patched(d0, n0, d2, n2, i, off, s)
  {
    forall k, o | 0 <= k < |n0| && 0 <= o < MAXFILE * BSIZE
      ensures ByteAt(d2, n2, k, o) == if k == i && off <= o < off + |s| then s[o - off] else ByteAt(d0, n0, k, o)
    {
      assert ByteAt(d1, n1, k, o) == ByteAt(d0, n0, k, o);
    }
  }

  lemma SameBlockIs(i: nat, o: nat, bn: nat)
    requires o < MAXFILE * BSIZE && bn < MAXFILE && SlotOf(i, o / BSIZE) == SlotOf(i, bn)
    ensures o / BSIZE == bn
  {
    SlotInjective(i, o / BSIZE, bn);
  }

  /** Overlaying one block of file i with bytes that fit into it. */
  lemma DataWriteBytes(g: Geometry, disk: Disk, inodes: seq<Inode>, i: nat, off: nat, c: seq<byte>, a: nat, disk': Disk)
    requires Owned(g, disk, inodes) && i < |inodes| && off < MAXFILE * BSIZE && off % BSIZE + |c| <= BSIZE
    requires Valid(|inodes|, SlotOf(i, off / BSIZE)) && a == Ptr(disk, inodes, SlotOf(i, off / BSIZE)) != 0
          && a < |disk|
    requires disk' == disk[a := Overlay(disk[a], off % BSIZE, c)]
    ensures Owned(g, disk', inodes) && Patched(disk, inodes, disk', inodes, i, off, c)
    ensures forall q | Valid(|inodes|, q) :: Ptr(disk', inodes, q) == Ptr(disk, inodes, q)
  {
    var p, at := SlotOf(i, off / BSIZE), off % BSIZE;
    DataWriteOwned(g, disk, inodes, p, Overlay(disk[a], at, c));
    forall k, o | 0 <= k < |inodes| && 0 <= o < MAXFILE * BSIZE
      ensures ByteAt(disk', inodes, k, o) == if k == i && off <= o < off + |c| then c[o - off]
            else ByteAt(disk, inodes, k, o)
    {
      DataWriteByte(g, disk, inodes, i, off, c, a, disk', k, o);
    }
  }

  lemma DataWriteByte(g: Geometry, disk: Disk, inodes: seq<Inode>, i: nat, off: nat, c: seq<byte>, a: nat, disk': Disk,
                      k: nat, o: nat)
    requires Owned(g, disk, inodes) && i < |inodes| && off < MAXFILE * BSIZE && off % BSIZE + |c| <= BSIZE
    requires Valid(|inodes|, SlotOf(i, off / BSIZE)) && a == Ptr(disk, inodes, SlotOf(i, off / BSIZE)) != 0
          && a < |disk|
    requires disk' == disk[a := Overlay(disk[a], off % BSIZE, c)] && k < |inodes| && o < MAXFILE * BSIZE
    requires Valid(|inodes|, SlotOf(k, o / BSIZE))
          && Ptr(disk', inodes, SlotOf(k, o / BSIZE)) == Ptr(disk, inodes, SlotOf(k, o / BSIZE))
    ensures ByteAt(disk', inodes, k, o) == if k == i && off <= o < off + |c| then c[o - off]
          else ByteAt(disk, inodes, k, o)
  {
    var p, q := SlotOf(i, off / BSIZE), SlotOf(k, o / BSIZE);
    if q == p {
      SameBlockIs(i, o, off / BSIZE);
      OverlayAt(disk[a], off % BSIZE, c, o % BSIZE);
    } else {
      IndexApart(g, disk, inodes, p, q);
    }
  }

  // ---------- contents ----------

  /** A file with the bytes src put at off. */
  function Put(c: seq<byte>, off: nat, src: seq<byte>): seq<byte>
    requires off <= |c|
  {
    c[..off] + src + if off + |src| < |c| then c[off + |src|..] else []
  }

  /** A patch that starts inside the file, with the size it calls for, is the file with the bytes put in. */
  lemma PatchedContent(disk: Disk, inodes: seq<Inode>, disk': Disk, inodes': seq<Inode>, i: nat, off: nat,
                      src: seq<byte>)
    requires Patched(disk, inodes, disk', inodes', i, off, src) && i < |inodes|
          && off <= inodes[i].size <= MAXFILE * BSIZE
    requires inodes'[i].size == (if off + |src| > inodes[i].size then off + |src|
          else inodes[i].size) <= MAXFILE * BSIZE
    ensures Content(disk', inodes', i) == Put(Content(disk, inodes, i), off, src)
  {
    var c, c' := Content(disk, inodes, i), Content(disk', inodes', i);
    forall o | 0 <= o < |c'| ensures c'[o] == Put(c, off, src)[o] {
      assert ByteAt(disk', inodes', i, o) == if off <= o < off + |src| then src[o - off] else ByteAt(disk, inodes, i,
                    o);
    }
  }

  lemma PatchedOther(disk: Disk, inodes: seq<Inode>, disk': Disk, inodes': seq<Inode>, i: nat, off: nat,
                     src: seq<byte>, k: nat)
    requires Patched(disk, inodes, disk', inodes', i, off, src) && k < |inodes| && k != i
          && inodes[k].size <= MAXFILE * BSIZE
    requires inodes'[k].size == inodes[k].size
    ensures Content(disk', inodes', k) == Content(disk, inodes, k)
  {
    var c, c' := Content(disk, inodes, k), Content(disk', inodes', k);
    forall o | 0 <= o < |c'| ensures c'[o] == c[o] {
      assert ByteAt(disk', inodes', k, o) == ByteAt(disk, inodes, k, o);
    }
  }
}
