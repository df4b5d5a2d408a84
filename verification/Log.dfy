/** The redo log of log.c, run through the buffer cache. A `false` result of a method that reads blocks is
    the "bget: no buffers" panic: the machine stops where it is, which is one more place to crash. */
module Log {
  import opened Words
  import opened Blocks
  import opened Counting
  import opened BufferCache
  import opened LogDisk

  /** Exactly the blocks bs are pinned, and vals are their contents. */
  ghost predicate Pins(buf: seq<Buf>, bs: seq<word>, vals: seq<Block>) {
    && |vals| == |bs|
    && (forall i | 0 <= i < |buf| && buf[i].dirty :: buf[i].blockno in bs)
    && forall j | 0 <= j < |bs| :: PinnedAs(buf, bs[j], vals[j])
  }

  ghost predicate PinnedAs(buf: seq<Buf>, b: nat, v: Block) {
    exists i :: 0 <= i < |buf| && buf[i].dirty && buf[i].blockno == b && buf[i].data == v
  }

  /** No pinned block lies in the log region. */
  ghost predicate PinsHome(l: Layout, buf: seq<Buf>) {
    forall i | 0 <= i < |buf| && buf[i].dirty :: !InLog(l, buf[i].blockno)
  }

  /** Nobody holds the buffer of a block of the log or of a listed block. Others may be held, by readers outside any
      operation. */
  ghost predicate Idle(l: Layout, buf: seq<Buf>, bs: seq<word>) {
    forall i | 0 <= i < |buf| && buf[i].locked && buf[i].dev == ROOTDEV ::
      !InLog(l, buf[i].blockno) && buf[i].blockno !in bs
  }

  ghost predicate AllIdle(buf: seq<Buf>) {
    forall i | 0 <= i < |buf| :: !buf[i].locked
  }

  /** With fewer pinned blocks than buffers, and nobody holding a buffer, bget finds one to recycle. */
  lemma SpareExists(buf: seq<Buf>, disk: Disk, bs: seq<word>)
    requires Inv(buf, disk) && |bs| < NBUF
    requires forall i | 0 <= i < |buf| :: buf[i].refcnt == 0 && (buf[i].dirty ==> buf[i].blockno in bs)
    ensures Spare(buf)
  {
    if !Spare(buf) {
      var slots := seq(NBUF, i requires 0 <= i < NBUF => SlotOf(bs, buf[i].blockno));
      assert Distinct(slots) by {
        forall i, j | 0 <= i < j < NBUF ensures slots[i] != slots[j] {
          assert !Holds(buf[j], ROOTDEV, buf[i].blockno);
        }
      }
      Pigeonhole(slots, |bs|);
    }
  }

  ghost predicate Unreferenced(buf: seq<Buf>) {
    forall i | 0 <= i < |buf| :: buf[i].refcnt == 0
  }

  /** A log of no more blocks than there are buffers: however much is logged, a commit that finds no buffer in use
      does not run out of them. */
  lemma CommitHasBuffers(l: Layout, buf: seq<Buf>, disk: Disk, bs: seq<word>)
    requires Inv(buf, disk) && Loggable(l, |disk|, bs) && PinsFrom(buf, bs, 0) && l.size <= NBUF && Unreferenced(buf)
    ensures Spare(buf)
  {
    assert bs[0..] == bs;
    SpareExists(buf, disk, bs);
  }

  ghost function SlotOf(bs: seq<word>, b: int): (r: nat)
    ensures b in bs ==> r < |bs| && bs[r] == b
  {
    if j: nat :| j < |bs| && bs[j] == b then j else 0
  }

  class Log {
    const l: Layout
    const cache: BCache
    var outstanding: nat
    var committing: bool
    var lh: seq<word>

    constructor (l: Layout, cache: BCache)
      ensures this.l == l && this.cache == cache && lh == [] && outstanding == 0 && !committing
    {
      this.l, this.cache, lh, outstanding, committing := l, cache, [], 0, false;
    }

    /** Nobody holds a buffer the commit needs, and what is pinned can be logged. */
    ghost predicate Ready()
      reads this, cache
    {
      && cache.Valid() && Idle(l, cache.buf, lh) && PinsHome(l, cache.buf)
      && l.start < |cache.disk| && Loggable(l, |cache.disk|, lh)
    }

    /** One round of write_log: the cached block lh.block[tail] goes to its log slot. */
    method WriteLogBlock(tail: nat, ghost vals: seq<Block>) returns (ok: bool)
      requires Ready() && Pins(cache.buf, lh, vals) && tail < |lh|
      modifies cache
      ensures ok ==> cache.disk == old(cache.disk)[l.start + tail + 1 := vals[tail]]
      ensures ok ==> cache.history == old(cache.history) + [cache.disk]
      ensures ok ==> Ready() && Pins(cache.buf, lh, vals)
      ensures !ok ==> cache.disk == old(cache.disk) && cache.history == old(cache.history)
      ensures Spare(old(cache.buf)) ==> ok && Spare(cache.buf)
    {
      ghost var b0 := cache.buf;
      assert PinnedAs(b0, lh[tail], vals[tail]);
      ghost var v;
      ok, v := cache.Copy(l.start + tail + 1, lh[tail], true);
      if ok {
        CopyToLog(l, b0, cache.buf, l.start + tail + 1, lh, vals);
        assert v == vals[tail];
      }
    }

    /** write_log: on return the first k writes of the commit have happened; it stops early only in a panic. */
    method WriteLog(ghost vals: seq<Block>, ghost ds: seq<Disk>) returns (ok: bool, ghost k: nat)
      requires Ready() && Pins(cache.buf, lh, vals) && CommitTrace(l, lh, vals, ds) && ds[0] == cache.disk
      modifies cache
      ensures k <= |lh| && cache.disk == ds[k] && cache.history == old(cache.history) + ds[1..k + 1]
      ensures ok ==> k == |lh| && Ready() && Pins(cache.buf, lh, vals)
      ensures Spare(old(cache.buf)) ==> ok && Spare(cache.buf)
    {
      k := 0;
      for tail := 0 to |lh|
        invariant k == tail && Ready() && Pins(cache.buf, lh, vals)
        invariant cache.disk == ds[k] && cache.history == old(cache.history) + ds[1..k + 1]
        invariant Spare(old(cache.buf)) ==> Spare(cache.buf)
      {
        assert CommitStep(l, lh, vals, ds[k], k, ds[k + 1]);
        ok := WriteLogBlock(tail, vals);
        if !ok { return; }
        SliceSnoc(old(cache.history), ds, k);
        k := k + 1;
      }
      return true, |lh|;
    }

    /** One round of install_trans: log slot tail goes to the home block lh.block[tail]. */
    method InstallBlock(tail: nat) returns (ok: bool)
      requires Ready() && tail < |lh| && PinsFrom(cache.buf, lh, tail)
      modifies cache
      ensures ok ==> cache.disk == old(cache.disk)[lh[tail] := old(cache.disk)[l.start + tail + 1]]
      ensures ok ==> cache.history == old(cache.history) + [cache.disk]
      ensures ok ==> Ready() && PinsFrom(cache.buf, lh, tail + 1) && (AllFree(old(cache.buf)) ==> AllFree(cache.buf))
      ensures ok && AllPinned(old(cache.buf), lh, tail) ==> AllPinned(cache.buf, lh, tail + 1)
      ensures !ok ==> cache.disk == old(cache.disk) && cache.history == old(cache.history)
      ensures Spare(old(cache.buf)) && Pinned(old(cache.buf), lh[tail]) ==> ok
      ensures Spare(old(cache.buf)) && ok ==> Spare(cache.buf)
      ensures AllFree(old(cache.buf)) ==> ok
    {
      ghost var b0 := cache.buf;
      ghost var v;
      ok, v := cache.Copy(l.start + tail + 1, lh[tail], false);
      if ok {
        CopyHome(l, b0, cache.buf, lh, tail);
      }
    }

    /** install_trans: on return the first k listed blocks are at home. It finds a buffer for every block
        when all listed blocks are still pinned and one buffer is spare, or when every buffer is free. */
    method InstallTrans(ghost ds: seq<Disk>) returns (ok: bool, ghost k: nat)
      requires Ready() && PinsFrom(cache.buf, lh, 0) && InstallTrace(l, lh, ds) && ds[0] == cache.disk
      modifies cache
      ensures k <= |lh| && cache.disk == ds[k] && cache.history == old(cache.history) + ds[1..k + 1]
      ensures ok ==> k == |lh| && Ready() && PinsFrom(cache.buf, lh, |lh|)
      ensures Spare(old(cache.buf)) && AllPinned(old(cache.buf), lh, 0) ==> ok && Spare(cache.buf)
      ensures AllFree(old(cache.buf)) ==> ok && AllFree(cache.buf)
    {
      k := 0;
      for tail := 0 to |lh|
        invariant k == tail && Ready() && PinsFrom(cache.buf, lh, tail)
        invariant cache.disk == ds[k] && cache.history == old(cache.history) + ds[1..k + 1]
        invariant Spare(old(cache.buf)) && AllPinned(old(cache.buf), lh, 0) ==>
              Spare(cache.buf) && AllPinned(cache.buf, lh, tail)
        invariant AllFree(old(cache.buf)) ==> AllFree(cache.buf)
      {
        assert InstallStep(l, lh, ds[k], k, ds[k + 1]);
        ok := InstallBlock(tail);
        if !ok { return; }
        SliceSnoc(old(cache.history), ds, k);
        k := k + 1;
      }
      return true, |lh|;
    }

    /** write_head: the in-memory header goes to the log's first block. */
    method WriteHead() returns (ok: bool)
      requires Ready()
      modifies cache
      ensures ok ==> cache.disk == Headed(l, old(cache.disk), lh) && cache.history == old(cache.history) + [cache.disk]
      ensures ok ==> Ready() && Copied(old(cache.buf), cache.buf, l.start)
      ensures !ok ==> cache.disk == old(cache.disk) && cache.history == old(cache.history)
      ensures Spare(old(cache.buf)) ==> ok
    {
      var b := cache.BreadClean(l.start);
      if b.None? { return false; }
      var h := SetWord(cache.buf[b.value].data, 0, |lh|);
      for i := 0 to |lh|
        invariant h == PutEntries(cache.disk[l.start], lh, i)
      {
        h := SetWord(h, i + 1, lh[i]);
      }
      cache.Rewrite(b.value, h);
      return true;
    }

    /** read_head on a disk whose log is well formed. */
    method ReadHead() returns (ok: bool)
      requires cache.Valid() && AllIdle(cache.buf) && PinsHome(l, cache.buf) && WellFormed(l, cache.disk)
      modifies this`lh, cache
      ensures cache.disk == old(cache.disk) && cache.history == old(cache.history)
      ensures ok ==> lh == HeadBlocks(cache.disk[l.start])
      ensures ok ==> Ready() && Copied(old(cache.buf), cache.buf, l.start)
      ensures Spare(old(cache.buf)) ==> ok
    {
      var b := cache.BreadClean(l.start);
      if b.None? { return false; }
      var h := cache.buf[b.value].data;
      var bs: seq<word> := [];
      for i := 0 to Word(h, 0)
        invariant bs == HeadBlocks(h)[..i]
      {
        bs := bs + [Word(h, i + 1)];
      }
      lh := bs;
      cache.Brelse(b.value);
      return true;
    }

    /** The first half of commit, up to the commit point. */
    method LogAll(ghost vals: seq<Block>, ghost ds: seq<Disk>) returns (ok: bool, ghost k: nat)
      requires Ready() && Pins(cache.buf, lh, vals) && CommitTrace(l, lh, vals, ds) && ds[0] == cache.disk
      modifies cache
      ensures k <= |lh| + 1 && cache.disk == ds[k] && cache.history == old(cache.history) + ds[1..k + 1]
      ensures ok ==> k == |lh| + 1 && Ready() && PinsFrom(cache.buf, lh, 0) && AllPinned(cache.buf, lh, 0)
      ensures Spare(old(cache.buf)) ==> ok && Spare(cache.buf)
    {
      ok, k := WriteLog(vals, ds);
      if !ok { return; }
      ghost var b1 := cache.buf;
      assert CommitStep(l, lh, vals, ds[k], k, ds[k + 1]);
      ok := WriteHead();
      if !ok { return; }
      SliceSnoc(old(cache.history), ds, k);
      CopyToLog(l, b1, cache.buf, l.start, lh, vals);
      PinsAll(cache.buf, lh, vals);
      k := k + 1;
    }

    /** The second half of commit and the body of recover_from_log: install, then clear the header. */
    method InstallAll(ghost ds: seq<Disk>) returns (ok: bool, ghost k: nat)
      requires Ready() && PinsFrom(cache.buf, lh, 0) && InstallTrace(l, lh, ds) && ds[0] == cache.disk
      modifies this`lh, cache
      ensures k < |ds| && cache.disk == ds[k] && cache.history == old(cache.history) + ds[1..k + 1]
      ensures ok ==> k == |old(lh)| + 1 && lh == [] && Ready() && PinsFrom(cache.buf, [], 0)
      ensures Spare(old(cache.buf)) && AllPinned(old(cache.buf), old(lh), 0) ==> ok && Spare(cache.buf)
      ensures AllFree(old(cache.buf)) ==> ok
    {
      ok, k := InstallTrans(ds);
      if !ok { return; }
      ghost var b1 := cache.buf;
      assert lh[|lh|..] == [];
      assert InstallStep(l, lh, ds[k], k, ds[k + 1]);
      lh := [];
      ok := WriteHead();
      if !ok { assert !Free(b1[0]); return; }
      SliceSnoc(old(cache.history), ds, k);
      if Spare(b1) {
        ghost var i :| 0 <= i < |b1| && Free(b1[i]);
        assert Free(cache.buf[i]);
      }
      k := k + 1;
    }

    /** commit: the first k writes of its trace happen, all of them unless bget panics. */
    method Commit(ghost vals: seq<Block>, ghost ds: seq<Disk>) returns (ok: bool, ghost k: nat)
      requires Ready() && Pins(cache.buf, lh, vals) && CommitTrace(l, lh, vals, ds) && ds[0] == cache.disk
      modifies this`lh, cache
      ensures k < |ds| && cache.disk == ds[k] && cache.history == old(cache.history) + ds[1..k + 1]
      ensures ok ==> k == if old(lh) == [] then 0 else |ds| - 1
      ensures ok ==> lh == [] && Ready() && PinsFrom(cache.buf, [], 0)
      ensures Spare(old(cache.buf)) ==> ok && Spare(cache.buf)
    {
      k := 0;
      if |lh| == 0 { return true, 0; }
      ghost var n := |lh|;
      ok, k := LogAll(vals, ds);
      if !ok { return; }
      CommitTraceInstalls(l, lh, vals, ds);
      ghost var i;
      ok, i := InstallAll(ds[n + 1..]);
      SliceJoin(old(cache.history), ds, n + 1, i);
      k := k + i;
    }

    /** recover_from_log on a freshly booted cache: ds is the trace of its writes. */
    method Recover(ghost ds: seq<Disk>) returns (ok: bool)
      requires cache.Valid() && AllFree(cache.buf) && WellFormed(l, cache.disk)
      requires InstallTrace(l, HeadBlocks(cache.disk[l.start]), ds) && ds[0] == cache.disk
      modifies this`lh, cache
      ensures ok && lh == [] && Ready() && PinsFrom(cache.buf, [], 0)
      ensures cache.disk == Recovered(l, old(cache.disk)) && cache.history == old(cache.history) + ds[1..]
    {
      assert Free(cache.buf[0]);
      ok := ReadHead();
      assert Free(cache.buf[0]) && lh[0..] == lh;
      ghost var bs, k := lh, 0;
      ok, k := InstallAll(ds);
      InstallTraceAt(l, bs, ds, k);
      assert ds[1..k + 1] == ds[1..];
    }

    /** Between system calls and inside them: what is pinned is what the header lists, the on-disk log is empty. */
    ghost predicate Tracking()
      reads this, cache
    {
      && cache.Valid() && l.start < |cache.disk| && HeadCount(cache.disk[l.start]) == 0
      && Loggable(l, |cache.disk|, lh) && PinsFrom(cache.buf, lh, 0) && AllPinned(cache.buf, lh, 0)
    }

    /** begin_op's test: false means sleep and try again. */
    method BeginOp() returns (admitted: bool)
      modifies this`outstanding
      ensures admitted <==> !committing && |lh| + (old(outstanding) + 1) * MAXOPBLOCKS <= LOGSIZE
      ensures outstanding == old(outstanding) + if admitted then 1 else 0
    {
      if committing || |lh| + (outstanding + 1) * MAXOPBLOCKS > LOGSIZE {
        return false;
      }
      outstanding := outstanding + 1;
      return true;
    }

    /** log_write of held buffer i; false is one of its two panics. */
    method LogWrite(i: nat) returns (ok: bool)
      requires Tracking() && i < NBUF && cache.buf[i].locked && cache.buf[i].valid
      requires !InLog(l, cache.buf[i].blockno) && |cache.disk| <= 0x1_0000_0000
      modifies this`lh, cache`buf
      ensures ok <==> |old(lh)| < LOGSIZE && |old(lh)| < l.size - 1 && outstanding > 0
      ensures !ok ==> lh == old(lh) && cache.buf == old(cache.buf)
      ensures ok ==> var b := old(cache.buf)[i].blockno; lh == if b in old(lh) then old(lh) else old(lh) + [b]
      ensures ok ==> cache.buf == old(cache.buf)[i := old(cache.buf)[i].(dirty := true)]
      ensures Tracking()
    {
      if |lh| >= LOGSIZE || |lh| >= l.size - 1 { return false; }
      if outstanding < 1 { return false; }
      var b: word := cache.buf[i].blockno;
      var k := 0;
      while k < |lh|
        invariant 0 <= k <= |lh| && b !in lh[..k]
      {
        if lh[k] == b { break; }
        k := k + 1;
      }
      if k == |lh| {
        DistinctSnoc(lh, b);
        lh := lh + [b];
      }
      cache.Pin(i);
      StillPinned(old(cache.buf), cache.buf, i, old(lh), lh, b);
      return true;
    }

    /** end_op. The last operation out commits for everyone: vals are the pinned blocks, ds the trace of the
        commit, and the writes that reach the disk are its first k, all of them unless bget panics. */
    method EndOp() returns (ok: bool, ghost vals: seq<Block>, ghost ds: seq<Disk>, ghost k: nat)
      requires Tracking() && outstanding > 0
      requires outstanding == 1 ==> Idle(l, cache.buf, lh)
      modifies this, cache
      ensures outstanding == old(outstanding) - 1
      ensures old(committing) ==> !ok
      ensures old(committing) || outstanding > 0 ==>
            k == 0 && lh == old(lh) && unchanged(cache) && committing == old(committing)
      ensures Pins(old(cache.buf), old(lh), vals) && CommitTrace(l, old(lh), vals, ds) && ds[0] == old(cache.disk)
      ensures k < |ds| && cache.disk == ds[k] && cache.history == old(cache.history) + ds[1..k + 1]
      ensures ok ==> Tracking() && !committing
      ensures ok && outstanding == 0 ==> lh == [] && Applied(l, old(cache.disk), old(lh), vals, cache.disk)
      ensures !old(committing) && Spare(old(cache.buf)) ==> ok
      ensures !old(committing) && l.size <= NBUF && Unreferenced(old(cache.buf)) ==> ok
    {
      if l.size <= NBUF && Unreferenced(cache.buf) { CommitHasBuffers(l, cache.buf, cache.disk, lh); }
      vals := PinnedData(cache.buf, lh);
      ds := MakeCommitTrace(l, cache.disk, lh, vals);
      k := 0;
      outstanding := outstanding - 1;
      if committing { return false, vals, ds, 0; }
      ok := true;
      if outstanding == 0 {
        committing := true;
        TrackedIsReady(l, cache.buf, |cache.disk|, lh);
        ok, k := Commit(vals, ds);
        CommitDone(l, old(lh), vals, ds);
        if ok { committing := false; }
      }
    }
  }

  lemma TrackedIsReady(l: Layout, buf: seq<Buf>, nblocks: nat, bs: seq<word>)
    requires Loggable(l, nblocks, bs) && PinsFrom(buf, bs, 0)
    ensures PinsHome(l, buf)
  {
    assert bs[0..] == bs;
  }

  /** The contents of the blocks pinned for bs. */
  lemma PinnedData(buf: seq<Buf>, bs: seq<word>) returns (vals: seq<Block>)
    requires PinsFrom(buf, bs, 0) && AllPinned(buf, bs, 0)
    ensures Pins(buf, bs, vals)
  {
    assert bs[0..] == bs;
    vals := [];
    for j := 0 to |bs|
      invariant |vals| == j && forall m | 0 <= m < j :: PinnedAs(buf, bs[m], vals[m])
    {
      assert Pinned(buf, bs[j]);
      var i :| 0 <= i < |buf| && buf[i].dirty && buf[i].blockno == bs[j];
      assert PinnedAs(buf, bs[j], buf[i].data);
      vals := vals + [buf[i].data];
    }
  }

  lemma StillPinned(buf: seq<Buf>, buf': seq<Buf>, i: nat, bs: seq<word>, bs': seq<word>, b: word)
    requires i < |buf| && buf' == buf[i := buf[i].(dirty := true)] && buf[i].blockno == b
    requires bs' == if b in bs then bs else bs + [b]
    requires PinsFrom(buf, bs, 0) && AllPinned(buf, bs, 0)
    ensures PinsFrom(buf', bs', 0) && AllPinned(buf', bs', 0)
  {
    assert bs[0..] == bs && bs'[0..] == bs';
    forall j | 0 <= j < |bs'| ensures Pinned(buf', bs'[j]) {
      if bs'[j] == b {
        assert buf'[i].dirty;
      } else {
        assert Pinned(buf, bs[j]);
        var m :| 0 <= m < |buf| && buf[m].dirty && buf[m].blockno == bs[j];
        assert buf'[m].dirty && buf'[m].blockno == bs[j];
      }
    }
  }

  /** A commit that ran to its end has cleared the log and put every block at home. */
  lemma CommitDone(l: Layout, bs: seq<word>, vals: seq<Block>, ds: seq<Disk>)
    requires CommitTrace(l, bs, vals, ds) && |bs| == |vals| && Loggable(l, |ds[0]|, bs) && l.start < |ds[0]|
    ensures var e := ds[|ds| - 1];
            |e| == |ds[0]| && HeadCount(e[l.start]) == 0 && Applied(l, ds[0], bs, vals, e)
  {
    LoggedRecovers(l, bs, vals, ds, |ds| - 1);
    CommitTraceInstalls(l, bs, vals, ds);
    InstallTraceAt(l, bs, ds[|bs| + 1..], |bs| + 1);
  }

  lemma PinsAll(buf: seq<Buf>, bs: seq<word>, vals: seq<Block>)
    requires Pins(buf, bs, vals)
    ensures PinsFrom(buf, bs, 0) && AllPinned(buf, bs, 0)
  {
    assert bs[0..] == bs;
    forall j | 0 <= j < |bs| ensures Pinned(buf, bs[j]) { assert PinnedAs(buf, bs[j], vals[j]); }
  }

  /** Only the blocks listed from position k on may still be pinned. */
  ghost predicate PinsFrom(buf: seq<Buf>, bs: seq<word>, k: nat)
    requires k <= |bs|
  {
    forall i | 0 <= i < |buf| && buf[i].dirty :: buf[i].blockno in bs[k..]
  }

  ghost predicate AllPinned(buf: seq<Buf>, bs: seq<word>, k: nat) {
    forall j | k <= j < |bs| :: Pinned(buf, bs[j])
  }

  /** A copy onto home block bs[k] unpins that block only. */
  lemma CopyHome(l: Layout, buf: seq<Buf>, buf': seq<Buf>, bs: seq<word>, k: nat)
    requires k < |bs| && Copied(buf, buf', bs[k]) && PinsHome(l, buf) && PinsFrom(buf, bs, k) && Distinct(bs)
    ensures PinsHome(l, buf') && PinsFrom(buf', bs, k + 1) && (Idle(l, buf, bs) ==> Idle(l, buf', bs))
    ensures AllPinned(buf, bs, k) ==> AllPinned(buf', bs, k + 1)
    ensures Spare(buf) ==> Spare(buf')
    ensures AllFree(buf) ==> AllFree(buf')
  {
    assert bs[k..] == [bs[k]] + bs[k + 1..];
    if AllPinned(buf, bs, k) {
      forall j | k + 1 <= j < |bs| ensures Pinned(buf', bs[j]) {
        assert Pinned(buf, bs[j]);
        var i :| 0 <= i < |buf| && buf[i].dirty && buf[i].blockno == bs[j];
        assert buf'[i] == buf[i];
      }
    }
    if Spare(buf) {
      var i :| 0 <= i < |buf| && Free(buf[i]);
      assert Free(buf'[i]);
    }
  }

  /** A copy onto a log slot leaves every pin as it was. */
  lemma CopyToLog(l: Layout, buf: seq<Buf>, buf': seq<Buf>, slot: nat, bs: seq<word>, vals: seq<Block>)
    requires Copied(buf, buf', slot) && PinsHome(l, buf) && InLog(l, slot) && Pins(buf, bs, vals)
    ensures PinsHome(l, buf') && Pins(buf', bs, vals) && (Idle(l, buf, bs) ==> Idle(l, buf', bs))
    ensures Spare(buf) ==> Spare(buf')
  {
    forall j | 0 <= j < |bs| ensures PinnedAs(buf', bs[j], vals[j]) {
      assert PinnedAs(buf, bs[j], vals[j]);
      var i :| 0 <= i < |buf| && buf[i].dirty && buf[i].blockno == bs[j] && buf[i].data == vals[j];
      assert buf'[i] == buf[i];
    }
    if Spare(buf) {
      var i :| 0 <= i < |buf| && Free(buf[i]);
      assert Free(buf'[i]);
    }
  }
}
