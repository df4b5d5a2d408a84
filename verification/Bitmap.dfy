/** The free-block bitmap of fs.c: one bit for every block of the file system. */
module Bitmap {
  import opened Words
  import opened Blocks
  import Integers

  /** Bits per bitmap block. */
  const BPB: nat := 4096

  /** Bit k of x, and x with bit k set or cleared. */
  predicate BitAt(x: nat, k: nat) {
    if k == 0 then x % 2 == 1 else BitAt(x / 2, k - 1)
  }

  lemma {:induction false} SetBitAt(x: nat, k: nat, l: nat)
    requires !BitAt(x, k)
    ensures BitAt(x + Integers.Pow2(k), l) == (l == k || BitAt(x, l))
  {
    if k > 0 {
      var y, r := x / 2, x % 2;
      assert x + Integers.Pow2(k) == 2 * (y + Integers.Pow2(k - 1)) + r;
      assert (x + Integers.Pow2(k)) / 2 == y + Integers.Pow2(k - 1);
      if l > 0 { SetBitAt(y, k - 1, l - 1); }
    }
  }

  lemma {:induction false} ClearBitAt(x: nat, k: nat, l: nat)
    requires BitAt(x, k)
    ensures x >= Integers.Pow2(k) && BitAt(x - Integers.Pow2(k), l) == (l != k && BitAt(x, l))
  {
    if k > 0 {
      var y, r := x / 2, x % 2;
      ClearBitAt(y, k - 1, if l > 0 then l - 1 else 0);
      assert x - Integers.Pow2(k) == 2 * (y - Integers.Pow2(k - 1)) + r;
      assert (x - Integers.Pow2(k)) / 2 == y - Integers.Pow2(k - 1);
    }
  }

  lemma {:induction false} SetFits(x: nat, k: nat, n: nat)
    requires k < n && x < Integers.Pow2(n) && !BitAt(x, k)
    ensures x + Integers.Pow2(k) < Integers.Pow2(n)
  {
    var y, r, p := x / 2, x % 2, Integers.Pow2(n - 1);
    assert x == 2 * y + r && Integers.Pow2(n) == 2 * p;
    if k > 0 {
      SetFits(y, k - 1, n - 1);
      assert Integers.Pow2(k) == 2 * Integers.Pow2(k - 1);
    }
  }

  predicate Bit(b: Block, i: nat)
    requires i < BPB
  {
    BitAt(b[i / 8], i % 8)
  }

  function SetBit(b: Block, i: nat): Block
    requires i < BPB && !Bit(b, i)
  {
    assert Integers.Pow2(8) == 256;
    SetFits(b[i / 8], i % 8, 8);
    b[i / 8 := b[i / 8] + Integers.Pow2(i % 8)]
  }

  function ClearBit(b: Block, i: nat): Block
    requires i < BPB && Bit(b, i)
  {
    ClearBitAt(b[i / 8], i % 8, 0);
    b[i / 8 := b[i / 8] - Integers.Pow2(i % 8)]
  }

  lemma BitOfSet(b: Block, i: nat, j: nat)
    requires i < BPB && j < BPB && !Bit(b, i)
    ensures Bit(SetBit(b, i), j) == (i == j || Bit(b, j))
  {
    if i / 8 == j / 8 { SetBitAt(b[i / 8], i % 8, j % 8); }
  }

  lemma BitOfClear(b: Block, i: nat, j: nat)
    requires i < BPB && j < BPB && Bit(b, i)
    ensures Bit(ClearBit(b, i), j) == (i != j && Bit(b, j))
  {
    if i / 8 == j / 8 { ClearBitAt(b[i / 8], i % 8, j % 8); }
  }

  // ---------- the bitmap on disk ----------

  /** Where things lie: blocks in all, first bitmap block, first inode block, first data block. */
  datatype Geometry = Geometry(size: nat, bmap: nat, inodes: nat, data: nat)

  function BBlock(g: Geometry, b: nat): nat {
    g.bmap + b / BPB
  }

  ghost predicate GeometryOk(g: Geometry, disk: Disk) {
    g.size == |disk| < TWO32 && 0 < g.data <= g.size && g.bmap + (g.size - 1) / BPB < g.data
  }

  lemma BBlockInRange(g: Geometry, disk: Disk, b: nat)
    requires GeometryOk(g, disk) && b < g.size
    ensures BBlock(g, b) < g.data
  {
    assert b / BPB <= (g.size - 1) / BPB;
  }

  ghost predicate Used(g: Geometry, disk: Disk, b: nat)
    requires GeometryOk(g, disk) && b < g.size
  {
    BBlockInRange(g, disk, b);
    Bit(disk[BBlock(g, b)], b % BPB)
  }

  ghost function Marked(g: Geometry, disk: Disk, b: nat): (r: Disk)
    requires GeometryOk(g, disk) && b < g.size && !Used(g, disk, b)
    ensures |r| == |disk|
  {
    BBlockInRange(g, disk, b);
    disk[BBlock(g, b) := SetBit(disk[BBlock(g, b)], b % BPB)]
  }

  ghost function Unmarked(g: Geometry, disk: Disk, b: nat): (r: Disk)
    requires GeometryOk(g, disk) && b < g.size && Used(g, disk, b)
    ensures |r| == |disk|
  {
    BBlockInRange(g, disk, b);
    disk[BBlock(g, b) := ClearBit(disk[BBlock(g, b)], b % BPB)]
  }

  lemma UsedOfMarked(g: Geometry, disk: Disk, b: nat, c: nat)
    requires GeometryOk(g, disk) && b < g.size && c < g.size && !Used(g, disk, b)
    ensures Used(g, Marked(g, disk, b), c) == (b == c || Used(g, disk, c))
  {
    BBlockInRange(g, disk, b);
    BBlockInRange(g, disk, c);
    if BBlock(g, b) == BBlock(g, c) {
      BitOfSet(disk[BBlock(g, b)], b % BPB, c % BPB);
      SameBlock(b, c);
    }
  }

  lemma UsedOfUnmarked(g: Geometry, disk: Disk, b: nat, c: nat)
    requires GeometryOk(g, disk) && b < g.size && c < g.size && Used(g, disk, b)
    ensures Used(g, Unmarked(g, disk, b), c) == (b != c && Used(g, disk, c))
  {
    BBlockInRange(g, disk, b);
    BBlockInRange(g, disk, c);
    if BBlock(g, b) == BBlock(g, c) {
      BitOfClear(disk[BBlock(g, b)], b % BPB, c % BPB);
      SameBlock(b, c);
    }
  }

  lemma SameBlock(b: nat, c: nat)
    requires b / BPB == c / BPB
    ensures b == c <==> b % BPB == c % BPB
  {
  }

  /** A write outside the bitmap leaves it alone. */
  lemma UsedElsewhere(g: Geometry, disk: Disk, a: nat, x: Block, c: nat)
    requires GeometryOk(g, disk) && g.data <= a < g.size && c < g.size
    ensures Used(g, disk[a := x], c) == Used(g, disk, c)
  {
    BBlockInRange(g, disk, c);
  }
}
