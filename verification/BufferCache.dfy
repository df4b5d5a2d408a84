/** The buffer cache of bio.c over the block device of memide.c.
    Buffers live in a fixed table; `next` and `prev` thread all of them on a circular list whose
    sentinel is HEAD, most recently released first. Every write that reaches the device appends the
    resulting disk to `history`, so `history` lists the states a crash can leave behind. */
module BufferCache {
  import opened Words
  import opened Blocks
  import opened Counting

  const NBUF: nat := 30
  const HEAD: nat := NBUF
  const ROOTDEV: nat := 1

  datatype Buf = Buf(valid: bool, dirty: bool, dev: nat, blockno: nat, refcnt: nat, locked: bool, data: Block)

  const BLANK: Buf := Buf(false, false, 0, 0, 0, false, ZERO_BLOCK)

  predicate Holds(b: Buf, dev: nat, blockno: nat) {
    b.dev == dev && b.blockno == blockno
  }

  /** A buffer bget may recycle: unreferenced and not pinned by the log. */
  predicate Free(b: Buf) {
    b.refcnt == 0 && !b.dirty
  }

  ghost predicate BufOk(b: Buf, disk: Disk) {
    && (b.valid ==> b.dev == ROOTDEV && b.blockno < |disk|)
    && (b.dirty ==> b.valid)
    && (b.locked ==> b.refcnt > 0)
    && (b.valid && !b.dirty && !b.locked ==> b.data == disk[b.blockno])
  }

  ghost predicate Unique(buf: seq<Buf>) {
    forall i, j | 0 <= i < j < |buf| :: buf[i].dev != 0 ==> !Holds(buf[j], buf[i].dev, buf[i].blockno)
  }

  ghost predicate Inv(buf: seq<Buf>, disk: Disk) {
    && |buf| == NBUF
    && (forall i | 0 <= i < |buf| :: BufOk(buf[i], disk))
    && Unique(buf)
  }

  /** What a reader of block b is entitled to see: the cached copy if there is one, else the disk. */
  ghost function Contents(buf: seq<Buf>, disk: Disk, b: nat): Block
    requires b < |disk|
  {
    if i :| 0 <= i < |buf| && buf[i].valid && Holds(buf[i], ROOTDEV, b) then buf[i].data else disk[b]
  }

  lemma ContentsOfHolder(buf: seq<Buf>, disk: Disk, i: nat)
    requires Inv(buf, disk) && i < |buf| && buf[i].valid
    ensures Contents(buf, disk, buf[i].blockno) == buf[i].data
  {
    assert Holds(buf[i], ROOTDEV, buf[i].blockno);
  }

  /** Buffer i is the one bget settles on: the one that holds the block, or a free one if none does. */
  ghost predicate Chosen(buf: seq<Buf>, blockno: nat, i: nat)
    requires i < |buf|
  {
    Holds(buf[i], ROOTDEV, blockno) || (Free(buf[i]) && forall j | 0 <= j < |buf| :: !Holds(buf[j], ROOTDEV, blockno))
  }

  /** The chosen buffer as bread returns it. */
  function Loaded(b: Buf, disk: Disk, blockno: nat): Buf
    requires blockno < |disk|
  {
    if Holds(b, ROOTDEV, blockno) && b.valid then b.(refcnt := b.refcnt + 1, locked := true)
    else Buf(true, false, ROOTDEV, blockno, b.refcnt + 1, true, disk[blockno])
  }

  /** Nobody holds the buffer of block b. */
  ghost predicate Unlocked(buf: seq<Buf>, b: nat) {
    forall i | 0 <= i < |buf| && Holds(buf[i], ROOTDEV, b) :: !buf[i].locked
  }

  ghost predicate Spare(buf: seq<Buf>) {
    exists i :: 0 <= i < |buf| && Free(buf[i])
  }

  ghost predicate AllFree(buf: seq<Buf>) {
    forall i | 0 <= i < |buf| :: Free(buf[i])
  }

  ghost predicate Pinned(buf: seq<Buf>, b: nat) {
    exists i :: 0 <= i < |buf| && buf[i].dirty && buf[i].blockno == b
  }

  /** v is block b's pinned contents, or its disk contents if it is not pinned. */
  ghost predicate Shown(buf: seq<Buf>, disk: Disk, b: nat, v: Block)
    requires b < |disk|
  {
    && (forall i | 0 <= i < |buf| && buf[i].dirty && buf[i].blockno == b :: v == buf[i].data)
    && (!Pinned(buf, b) ==> v == disk[b])
  }

  lemma LoadedShows(buf: seq<Buf>, disk: Disk, b: nat, i: nat)
    requires Inv(buf, disk) && Unlocked(buf, b) && b < |disk| && i < NBUF && Chosen(buf, b, i)
    ensures Shown(buf, disk, b, Loaded(buf[i], disk, b).data)
  {
    forall j | 0 <= j < |buf| && buf[j].dirty && buf[j].blockno == b ensures j == i {
      assert Holds(buf[j], ROOTDEV, b);
    }
  }

  /** Reading block `first` into buffer s does not change which pinned contents another block has. */
  lemma LoadedShowsNext(buf: seq<Buf>, disk: Disk, first: nat, s: nat, second: nat, t: nat)
    requires Inv(buf, disk) && Unlocked(buf, second) && first < |disk| && second < |disk| && first != second
    requires s < NBUF && t < NBUF && s != t && Chosen(buf, first, s)
    requires Chosen(buf[s := Loaded(buf[s], disk, first)], second, t)
    ensures Shown(buf, disk, second, Loaded(buf[t], disk, second).data)
  {
    var b1 := buf[s := Loaded(buf[s], disk, first)];
    forall j | 0 <= j < |buf| && buf[j].dirty && buf[j].blockno == second ensures j == t {
      assert j != s && Holds(b1[j], ROOTDEV, second);
      assert b1[t] == buf[t] && Holds(buf[t], ROOTDEV, second);
      assert Holds(buf[j], ROOTDEV, second);
    }
  }

  /** A copy onto block b unpins b; other pinned buffers, and all reference counts, stay as they were. */
  ghost predicate Copied(buf: seq<Buf>, buf': seq<Buf>, b: nat) {
    && |buf| == |buf'|
    && forall i | 0 <= i < |buf| ::
         && buf'[i].refcnt == buf[i].refcnt && (buf'[i].locked ==> buf'[i] == buf[i])
         && if buf[i].dirty && buf[i].blockno != b then buf'[i] == buf[i] else !buf'[i].dirty
  }

  /** A buffer behind brelse. */
  function Released(b: Buf): Buf
    requires b.refcnt > 0
  {
    b.(locked := false, refcnt := b.refcnt - 1)
  }

  // ---------- the circular list ----------

  /** The node at list position k; positions -1 and |order| are the sentinel. */
  function Node(order: seq<nat>, k: int): nat
    requires -1 <= k <= |order|
  {
    if 0 <= k < |order| then order[k] else HEAD
  }

  ghost predicate Permutation(order: seq<nat>) {
    && |order| == NBUF
    && (forall k | 0 <= k < |order| :: order[k] < NBUF)
    && Distinct(order)
  }

  ghost predicate Linked(next: seq<nat>, prev: seq<nat>, order: seq<nat>) {
    && |next| == |prev| == NBUF + 1
    && (forall k | 0 <= k < |order| :: order[k] < NBUF)
    && Distinct(order)
    && (forall k | 0 <= k <= |order| :: next[Node(order, k - 1)] == Node(order, k))
    && (forall k | 0 <= k <= |order| :: prev[Node(order, k)] == Node(order, k - 1))
  }

  ghost function Without(order: seq<nat>, p: nat): seq<nat>
    requires p < |order|
  {
    order[..p] + order[p + 1..]
  }

  /** brelse's first two assignments take a node out of the list. */
  lemma Unlink(next: seq<nat>, prev: seq<nat>, order: seq<nat>, p: nat)
    requires Linked(next, prev, order) && p < |order|
    ensures var b := order[p];
            && next[b] <= NBUF && prev[b] <= NBUF
            && Linked(next[prev[b] := next[b]], prev[next[b] := prev[b]], Without(order, p))
  {
    var b := order[p];
    assert next[Node(order, p)] == Node(order, p + 1);
    assert prev[Node(order, p)] == Node(order, p - 1);
    var o := Without(order, p);
    var n' := next[prev[b] := next[b]];
    var p' := prev[next[b] := prev[b]];
    forall k | 0 <= k <= |o|
      ensures n'[Node(o, k - 1)] == Node(o, k) && p'[Node(o, k)] == Node(o, k - 1)
    {
      if k <= p {
        assert next[Node(order, k - 1)] == Node(order, k);
        assert prev[Node(order, k)] == Node(order, k - 1);
      } else {
        assert next[Node(order, k)] == Node(order, k + 1);
        assert prev[Node(order, k + 1)] == Node(order, k);
      }
    }
  }

  /** brelse's last four assignments put a node that is off the list right behind the sentinel. */
  lemma PushFront(next: seq<nat>, prev: seq<nat>, order: seq<nat>, b: nat)
    requires Linked(next, prev, order) && b < NBUF && b !in order
    ensures var n1 := next[b := next[HEAD]];
            var p1 := prev[b := HEAD];
            && n1[HEAD] <= NBUF
            && Linked(n1[HEAD := b], p1[n1[HEAD] := b], [b] + order)
  {
    assert next[Node(order, -1)] == Node(order, 0);
    var first := next[HEAD];
    var n' := next[b := first][HEAD := b];
    var p' := prev[b := HEAD][first := b];
    var o := [b] + order;
    forall k | 0 <= k <= |o|
      ensures n'[Node(o, k - 1)] == Node(o, k) && p'[Node(o, k)] == Node(o, k - 1)
    {
      if k >= 2 {
        assert Node(o, k - 1) == Node(order, k - 2) && Node(o, k) == Node(order, k - 1);
        assert next[Node(order, k - 2)] == Node(order, k - 1);
        assert prev[Node(order, k - 1)] == Node(order, k - 2);
      }
    }
  }

  lemma PermutationHasAll(order: seq<nat>, i: nat)
    requires Permutation(order) && i < NBUF
    ensures i in order
  {
    if i !in order {
      DistinctSnoc(order, i);
      Pigeonhole(order + [i], NBUF);
    }
  }

  // ---------- the cache object ----------

  class BCache {
    var buf: seq<Buf>
    var next: seq<nat>
    var prev: seq<nat>
    var disk: Disk
    ghost var order: seq<nat>
    ghost var history: seq<Disk>

    ghost predicate Valid()
      reads this
    {
      Inv(buf, disk) && Permutation(order) && Linked(next, prev, order)
    }

    /** binit after a boot: an empty cache in front of whatever the device holds. */
    constructor (device: Disk)
      ensures Valid()
      ensures disk == device && history == []
      ensures forall i | 0 <= i < NBUF :: buf[i] == BLANK
    {
      buf := seq(NBUF, _ => BLANK);
      disk := device;
      history := [];
      next := seq(NBUF + 1, _ => HEAD);
      prev := seq(NBUF + 1, _ => HEAD);
      order := [];
      new;
      for b := 0 to NBUF
        invariant |order| == b && forall k | 0 <= k < |order| :: order[k] < b
        invariant Linked(next, prev, order)
        invariant buf == seq(NBUF, _ => BLANK) && disk == device && history == []
      {
        PushFront(next, prev, order, b);
        next := next[b := next[HEAD]];
        prev := prev[b := HEAD];
        prev := prev[next[HEAD] := b];
        next := next[HEAD := b];
        order := [b] + order;
      }
    }

    /** The part of bget under bcache.lock: reuse the cached buffer, else recycle the least recently
        released free one. None is the "no buffers" panic. */
    method Bget(dev: nat, blockno: nat) returns (r: Option<nat>)
      requires Valid() && dev != 0
      modifies this`buf
      ensures Valid()
      ensures r.None? <==> forall i | 0 <= i < NBUF :: !Holds(old(buf)[i], dev, blockno) && !Free(old(buf)[i])
      ensures r.None? ==> buf == old(buf)
      ensures r.Some? ==>
                var i := r.value;
                && i < NBUF
                && if Holds(old(buf)[i], dev, blockno)
                   then buf == old(buf)[i := old(buf)[i].(refcnt := old(buf)[i].refcnt + 1)]
                   else
                     && Free(old(buf)[i])
                     && (forall j | 0 <= j < NBUF :: !Holds(old(buf)[j], dev, blockno))
                     && (exists k :: 0 <= k < NBUF && order[k] == i && forall l | k < l < NBUF ::
                          !Free(old(buf)[order[l]]))
                     && buf == old(buf)[i := old(buf)[i].(valid := false, dirty := false, dev := dev,
                                                          blockno := blockno, refcnt := 1)]
    {
      var b := next[HEAD];
      ghost var k := 0;
      assert next[Node(order, -1)] == Node(order, 0);
      while b != HEAD
        invariant 0 <= k <= NBUF && b == Node(order, k)
        invariant forall l | 0 <= l < k :: !Holds(buf[order[l]], dev, blockno)
        decreases NBUF - k
      {
        if buf[b].dev == dev && buf[b].blockno == blockno {
          buf := buf[b := buf[b].(refcnt := buf[b].refcnt + 1)];
          return Some(b);
        }
        assert next[Node(order, k)] == Node(order, k + 1);
        b, k := next[b], k + 1;
      }
      forall i | 0 <= i < NBUF ensures !Holds(buf[i], dev, blockno) { PermutationHasAll(order, i); }
      assert prev[Node(order, NBUF)] == Node(order, NBUF - 1);
      b, k := prev[HEAD], NBUF - 1;
      while b != HEAD
        invariant -1 <= k < NBUF && b == Node(order, k)
        invariant forall l | k < l < NBUF :: !Free(buf[order[l]])
        decreases k
      {
        if buf[b].refcnt == 0 && !buf[b].dirty {
          buf := buf[b := buf[b].(valid := false, dirty := false, dev := dev, blockno := blockno, refcnt := 1)];
          return Some(b);
        }
        assert prev[Node(order, k)] == Node(order, k - 1);
        b, k := prev[b], k - 1;
      }
      forall i | 0 <= i < NBUF ensures !Free(buf[i]) { PermutationHasAll(order, i); }
      return None;
    }

    /** bread, by a process that does not have to wait for the buffer's lock. */
    method Bread(blockno: nat) returns (r: Option<nat>)
      requires Valid() && blockno < |disk|
      requires forall i | 0 <= i < NBUF :: Holds(buf[i], ROOTDEV, blockno) ==> !buf[i].locked
      modifies this`buf
      ensures Valid()
      ensures r.None? <==> forall i | 0 <= i < NBUF :: !Holds(old(buf)[i], ROOTDEV, blockno) && !Free(old(buf)[i])
      ensures r.None? ==> buf == old(buf)
      ensures r.Some? ==>
                && r.value < NBUF
                && Chosen(old(buf), blockno, r.value)
                && buf == old(buf)[r.value := Loaded(old(buf)[r.value], disk, blockno)]
    {
      r := Bget(ROOTDEV, blockno);
      if r.Some? {
        var i := r.value;
        buf := buf[i := buf[i].(locked := true)];
        if !buf[i].valid {
          buf := buf[i := buf[i].(data := disk[blockno], valid := true)];
        }
      }
    }

    /** bread of two blocks in a row. */
    method BreadTwo(first: nat, second: nat) returns (r: Option<(nat, nat)>)
      requires Valid() && first < |disk| && second < |disk| && first != second
      requires Unlocked(buf, first) && Unlocked(buf, second)
      modifies this`buf
      ensures r.Some? ==>
                && Valid()
                && r.value.0 < NBUF && r.value.1 < NBUF && r.value.0 != r.value.1
                && Chosen(old(buf), first, r.value.0)
                && Chosen(old(buf)[r.value.0 := Loaded(old(buf)[r.value.0], disk, first)], second, r.value.1)
                && buf == old(buf)[r.value.0 := Loaded(old(buf)[r.value.0], disk, first)]
                                  [r.value.1 := Loaded(old(buf)[r.value.1], disk, second)]
                && Shown(old(buf), disk, first, buf[r.value.0].data)
                && Shown(old(buf), disk, second, buf[r.value.1].data)
      ensures Spare(old(buf)) && Pinned(old(buf), second) ==> r.Some?
      ensures AllFree(old(buf)) ==> r.Some?
    {
      var s := Bread(first);
      if s.None? { assert !Free(old(buf)[0]); return None; }
      ghost var b1 := buf;
      assert forall i | 0 <= i < NBUF && i != s.value :: b1[i] == old(buf)[i];
      var t := Bread(second);
      if t.None? {
        ghost var other := if s.value == 0 then 1 else 0;
        assert !Free(b1[other]);
        return None;
      }
      LoadedShows(old(buf), disk, first, s.value);
      LoadedShowsNext(old(buf), disk, first, s.value, second, t.value);
      return Some((s.value, t.value));
    }

    /** A holder of buffer i fills it and calls bwrite: iderw stores the bytes, which unpins the buffer. */
    method Bwrite(i: nat, data: Block)
      requires Valid() && i < NBUF && buf[i].locked && buf[i].valid
      modifies this`buf, this`disk, this`history
      ensures Valid()
      ensures buf == old(buf)[i := old(buf)[i].(dirty := false, data := data)]
      ensures disk == old(disk)[old(buf)[i].blockno := data]
      ensures history == old(history) + [disk]
    {
      buf := buf[i := buf[i].(data := data)];
      buf := buf[i := buf[i].(dirty := true)];
      disk := disk[buf[i].blockno := buf[i].data];
      buf := buf[i := buf[i].(dirty := false, valid := true)];
      history := history + [disk];
    }

    /** The relinking at the end of brelse. */
    method MoveToFront(i: nat)
      requires Permutation(order) && Linked(next, prev, order) && i < NBUF
      modifies this`next, this`prev, this`order
      ensures Permutation(order) && Linked(next, prev, order)
      ensures exists p :: 0 <= p < NBUF && old(order)[p] == i && order == [i] + Without(old(order), p)
    {
      PermutationHasAll(order, i);
      ghost var p :| 0 <= p < NBUF && order[p] == i;
      Unlink(next, prev, order, p);
      var after, before := next[i], prev[i];
      prev := prev[after := before];
      next := next[before := after];
      order := Without(order, p);
      PushFront(next, prev, order, i);
      next := next[i := next[HEAD]];
      prev := prev[i := HEAD];
      prev := prev[next[HEAD] := i];
      next := next[HEAD := i];
      order := [i] + order;
    }

    /** brelse, by a holder that has logged or written back what it changed. */
    method Brelse(i: nat)
      requires Valid() && i < NBUF && buf[i].locked
      requires buf[i].valid && !buf[i].dirty ==> buf[i].data == disk[buf[i].blockno]
      modifies this`buf, this`next, this`prev, this`order
      ensures Valid()
      ensures buf == old(buf)[i := Released(old(buf)[i])]
      ensures if buf[i].refcnt > 0 then order == old(order)
              else exists p :: 0 <= p < NBUF && old(order)[p] == i && order == [i] + Without(old(order), p)
    {
      buf := buf[i := buf[i].(locked := false)];
      buf := buf[i := buf[i].(refcnt := buf[i].refcnt - 1)];
      if buf[i].refcnt == 0 {
        MoveToFront(i);
      }
    }

    /** brelse of two buffers in a row. */
    method BrelseTwo(i: nat, j: nat)
      requires Valid() && i < NBUF && j < NBUF && i != j && buf[i].locked && buf[j].locked
      requires buf[i].valid && !buf[i].dirty ==> buf[i].data == disk[buf[i].blockno]
      requires buf[j].valid && !buf[j].dirty ==> buf[j].data == disk[buf[j].blockno]
      modifies this`buf, this`next, this`prev, this`order
      ensures Valid()
      ensures buf == old(buf)[i := Released(old(buf)[i])]
                             [j := Released(old(buf)[j])]
    {
      Brelse(i);
      Brelse(j);
    }

    /** log_write's last step: pin a held buffer. */
    method Pin(i: nat)
      requires Valid() && i < NBUF && buf[i].locked && buf[i].valid
      modifies this`buf
      ensures Valid()
      ensures buf == old(buf)[i := old(buf)[i].(dirty := true)]
    {
      buf := buf[i := buf[i].(dirty := true)];
    }

    /** The bread half of a read-modify-write of a block that is not pinned. */
    method BreadClean(b: nat) returns (r: Option<nat>)
      requires Valid() && b < |disk| && Unlocked(buf, b) && !Pinned(buf, b)
      modifies this`buf
      ensures r.Some? ==>
                && Valid() && r.value < NBUF && !old(buf)[r.value].dirty
                && buf == old(buf)[r.value := Buf(true, false, ROOTDEV, b, old(buf)[r.value].refcnt + 1, true, disk[b])]
      ensures Spare(old(buf)) ==> r.Some?
    {
      r := Bread(b);
      if r.Some? {
        LoadedShows(old(buf), disk, b, r.value);
      }
    }

    /** Rewrite an unpinned block in place: bread, change the bytes, bwrite, brelse. */
    method Rewrite(i: nat, data: Block)
      requires Valid() && i < NBUF && buf[i].locked && buf[i].valid && !buf[i].dirty
      modifies this
      ensures Valid()
      ensures disk == old(disk)[old(buf)[i].blockno := data] && history == old(history) + [disk]
      ensures buf == old(buf)[i := Released(old(buf)[i].(data := data))]
    {
      Bwrite(i, data);
      Brelse(i);
    }

    /** memmove, bwrite and the two brelse calls that end a block copy. */
    method WriteAndRelease(src: nat, dst: nat)
      requires Valid() && src < NBUF && dst < NBUF && src != dst
      requires buf[src].locked && buf[dst].locked && buf[src].valid && buf[dst].valid
      requires buf[src].blockno != buf[dst].blockno
      requires !buf[src].dirty ==> buf[src].data == disk[buf[src].blockno]
      modifies this
      ensures Valid()
      ensures disk == old(disk)[old(buf)[dst].blockno := old(buf)[src].data] && history == old(history) + [disk]
      ensures buf == old(buf)[src := Released(old(buf)[src])]
                             [dst := Released(old(buf)[dst].(dirty := false, data := old(buf)[src].data))]
    {
      Bwrite(dst, buf[src].data);
      BrelseTwo(src, dst);
    }

    /** The bread, bread, memmove, bwrite, brelse, brelse of write_log and install_trans. The blocks are read
        in the order given; the bytes go from `second` to `first` or the other way. v is what was copied. */
    method Copy(first: nat, second: nat, toFirst: bool) returns (ok: bool, ghost v: Block)
      requires Valid() && first < |disk| && second < |disk| && first != second && Unlocked(buf, first)
            && Unlocked(buf, second)
      modifies this
      ensures ok ==> Valid()
      ensures ok ==> disk == old(disk)[if toFirst then first else second := v] && history == old(history) + [disk]
      ensures ok ==> Shown(old(buf), old(disk), if toFirst then second else first, v)
      ensures ok ==> Copied(old(buf), buf, if toFirst then first else second)
      ensures !ok ==> disk == old(disk) && history == old(history)
      ensures Spare(old(buf)) && Pinned(old(buf), second) ==> ok
      ensures AllFree(old(buf)) ==> ok
    {
      ghost var b0 := buf;
      var bufs := BreadTwo(first, second);
      if bufs.None? {
        return false, ZERO_BLOCK;
      }
      var (s, t) := bufs.value;
      var src, dst := if toFirst then t else s, if toFirst then s else t;
      v := buf[src].data;
      WriteAndRelease(src, dst);
      CopyKeepsPins(b0, buf, old(disk), first, second, s, t, src);
      return true, v;
    }
  }

  /** The buffers behind a copy of buffer src onto the other of s and t. */
  lemma CopyKeepsPins(b0: seq<Buf>, b1: seq<Buf>, disk: Disk, first: nat, second: nat, s: nat, t: nat, src: nat)
    requires Inv(b0, disk) && Unlocked(b0, first) && Unlocked(b0, second) && first < |disk| && second < |disk|
          && first != second
    requires s < NBUF && t < NBUF && s != t && (src == s || src == t) && Chosen(b0, first, s)
    requires Chosen(b0[s := Loaded(b0[s], disk, first)], second, t)
    requires var dst := s + t - src;
             var held := b0[s := Loaded(b0[s], disk, first)][t := Loaded(b0[t], disk, second)];
             b1 == held[src := Released(held[src])][dst := Released(held[dst].(dirty := false, data := held[src].data))]
    ensures Copied(b0, b1, if src == t then first else second)
  {
    var b := if src == t then first else second;
    forall i | 0 <= i < |b0|
      ensures b1[i].refcnt == b0[i].refcnt && (b1[i].locked ==> b1[i] == b0[i])
      ensures if b0[i].dirty && b0[i].blockno != b then b1[i] == b0[i] else !b1[i].dirty
    {
      if i == s { } else if i == t { } else { assert b1[i] == b0[i]; }
    }
  }
}
