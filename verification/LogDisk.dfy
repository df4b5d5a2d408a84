/** The on-disk redo log of log.c as a function of disk contents: what each block write of a commit or a
    recovery leaves on the disk, and what a recovery makes of it. */
module LogDisk {
  import opened Words
  import opened Blocks
  import opened Counting

  const MAXOPBLOCKS: nat := 10
  const LOGSIZE: nat := MAXOPBLOCKS * 3

  /** log.start and log.size, as read from the superblock. */
  datatype Layout = Layout(start: nat, size: nat)

  predicate InLog(l: Layout, b: int) {
    l.start <= b < l.start + l.size
  }

  /** Block numbers a log header may list: distinct home blocks, no more than there are log slots. */
  ghost predicate Loggable(l: Layout, nblocks: nat, bs: seq<word>) {
    && |bs| <= LOGSIZE && |bs| < l.size && l.start + l.size <= nblocks
    && Distinct(bs)
    && forall j | 0 <= j < |bs| :: bs[j] < nblocks && !InLog(l, bs[j])
  }

  // ---------- header block ----------

  function HeadCount(h: Block): word {
    Word(h, 0)
  }

  function HeadBlocks(h: Block): seq<word>
    requires HeadCount(h) <= LOGSIZE
  {
    seq(HeadCount(h), i requires 0 <= i < HeadCount(h) => Word(h, 1 + i))
  }

  /** write_head overwrites the count and the first k entries and leaves the rest of the block alone. */
  function PutEntries(h: Block, bs: seq<word>, k: nat): Block
    requires k <= |bs| <= LOGSIZE
  {
    if k == 0 then SetWord(h, 0, |bs|) else SetWord(PutEntries(h, bs, k - 1), k, bs[k - 1])
  }

  function PutHead(h: Block, bs: seq<word>): Block
    requires |bs| <= LOGSIZE
  {
    PutEntries(h, bs, |bs|)
  }

  lemma {:induction false} WordsOfPutEntries(h: Block, bs: seq<word>, k: nat, i: nat)
    requires k <= |bs| <= LOGSIZE && i < WORDS
    ensures Word(PutEntries(h, bs, k), i) ==
            if i == 0 then |bs| else if i <= k then bs[i - 1] else Word(h, i)
  {
    if k == 0 {
      WordOfSetWord(h, 0, |bs|, i);
    } else {
      WordsOfPutEntries(h, bs, k - 1, i);
      WordOfSetWord(PutEntries(h, bs, k - 1), k, bs[k - 1], i);
    }
  }

  /** A header that was written is read back exactly, whatever the block held before. */
  lemma HeadRoundTrip(h: Block, bs: seq<word>)
    requires |bs| <= LOGSIZE
    ensures HeadCount(PutHead(h, bs)) == |bs|
    ensures HeadBlocks(PutHead(h, bs)) == bs
  {
    WordsOfPutEntries(h, bs, |bs|, 0);
    forall i | 0 <= i < |bs| ensures HeadBlocks(PutHead(h, bs))[i] == bs[i] {
      WordsOfPutEntries(h, bs, |bs|, 1 + i);
    }
  }

  // ---------- disks along a commit ----------

  ghost predicate WellFormed(l: Layout, d: Disk) {
    && l.start < |d| && HeadCount(d[l.start]) <= LOGSIZE
    && Loggable(l, |d|, HeadBlocks(d[l.start]))
  }

  ghost predicate SameHome(l: Layout, d: Disk, e: Disk) {
    |d| == |e| && forall b | 0 <= b < |d| && !InLog(l, b) :: d[b] == e[b]
  }

  /** The first k log slots filled with vals. */
  ghost function Filled(l: Layout, d: Disk, vals: seq<Block>, k: nat): (r: Disk)
    requires k <= |vals| < l.size && l.start + l.size <= |d|
    ensures |r| == |d|
  {
    if k == 0 then d else Filled(l, d, vals, k - 1)[l.start + k := vals[k - 1]]
  }

  lemma {:induction false} FilledFacts(l: Layout, d: Disk, vals: seq<Block>, k: nat)
    requires k <= |vals| < l.size && l.start + l.size <= |d|
    ensures var r := Filled(l, d, vals, k);
            && SameHome(l, r, d) && r[l.start] == d[l.start]
            && forall j | 0 <= j < k :: r[l.start + 1 + j] == vals[j]
  {
    if k > 0 { FilledFacts(l, d, vals, k - 1); }
  }

  /** The first k listed blocks copied from their log slots to their home places. */
  ghost function Installed(l: Layout, d: Disk, bs: seq<word>, k: nat): (r: Disk)
    requires Loggable(l, |d|, bs) && k <= |bs|
    ensures |r| == |d|
  {
    if k == 0 then d else Installed(l, d, bs, k - 1)[bs[k - 1] := d[l.start + k]]
  }

  lemma {:induction false} InstalledFacts(l: Layout, d: Disk, bs: seq<word>, k: nat)
    requires Loggable(l, |d|, bs) && k <= |bs|
    ensures var r := Installed(l, d, bs, k);
            && (forall b | 0 <= b < |d| && InLog(l, b) :: r[b] == d[b])
            && (forall b | 0 <= b < |d| && b !in bs[..k] :: r[b] == d[b])
            && forall j | 0 <= j < k :: r[bs[j]] == d[l.start + 1 + j]
  {
    if k > 0 {
      InstalledFacts(l, d, bs, k - 1);
      assert bs[..k] == bs[..k - 1] + [bs[k - 1]];
    }
  }

  ghost function Headed(l: Layout, d: Disk, bs: seq<word>): Disk
    requires l.start < |d| && |bs| <= LOGSIZE
  {
    d[l.start := PutHead(d[l.start], bs)]
  }

  /** What recover_from_log makes of a disk. */
  ghost function Recovered(l: Layout, d: Disk): Disk
    requires WellFormed(l, d)
  {
    var bs := HeadBlocks(d[l.start]);
    Headed(l, Installed(l, d, bs, |bs|), [])
  }

  // ---------- traces: the disk before and after every block write ----------

  /** The k-th of the n + 1 writes of install_trans and the write_head behind it. */
  ghost predicate InstallStep(l: Layout, bs: seq<word>, c: Disk, k: nat, c': Disk) {
    && k <= |bs| <= LOGSIZE && l.start + l.size <= |c| && |bs| < l.size
    && if k < |bs| then bs[k] < |c| && c' == c[bs[k] := c[l.start + k + 1]] else c' == Headed(l, c, [])
  }

  ghost predicate InstallTrace(l: Layout, bs: seq<word>, ds: seq<Disk>) {
    && |ds| == |bs| + 2
    && forall k | 0 <= k < |ds| - 1 :: InstallStep(l, bs, ds[k], k, ds[k + 1])
  }

  /** The k-th of the 2n + 2 writes of commit: n log slots, the header, then an installation. */
  ghost predicate CommitStep(l: Layout, bs: seq<word>, vals: seq<Block>, c: Disk, k: nat, c': Disk) {
    && |bs| == |vals| <= LOGSIZE && |bs| < l.size && l.start + l.size <= |c|
    && if k < |bs| then c' == c[l.start + k + 1 := vals[k]]
       else if k == |bs| then c' == Headed(l, c, bs)
       else InstallStep(l, bs, c, k - |bs| - 1, c')
  }

  ghost predicate CommitTrace(l: Layout, bs: seq<word>, vals: seq<Block>, ds: seq<Disk>) {
    && |ds| == 2 * |bs| + 3
    && forall k | 0 <= k < |ds| - 1 :: CommitStep(l, bs, vals, ds[k], k, ds[k + 1])
  }

  /** The disk after the first k writes of an installation. */
  ghost function InstallDisk(l: Layout, d: Disk, bs: seq<word>, k: nat): Disk
    requires Loggable(l, |d|, bs) && k <= |bs| + 1
  {
    if k <= |bs| then Installed(l, d, bs, k) else Headed(l, Installed(l, d, bs, |bs|), [])
  }

  lemma {:induction false} InstallTraceAt(l: Layout, bs: seq<word>, ds: seq<Disk>, k: nat)
    requires InstallTrace(l, bs, ds) && k < |ds| && Loggable(l, |ds[0]|, bs)
    ensures ds[k] == InstallDisk(l, ds[0], bs, k)
  {
    if k > 0 {
      InstallTraceAt(l, bs, ds, k - 1);
      assert InstallStep(l, bs, ds[k - 1], k - 1, ds[k]);
      InstalledFacts(l, ds[0], bs, k - 1);
      if k <= |bs| { assert InLog(l, l.start + k); }
    }
  }

  lemma {:induction false} CommitTraceFills(l: Layout, bs: seq<word>, vals: seq<Block>, ds: seq<Disk>, k: nat)
    requires CommitTrace(l, bs, vals, ds) && k <= |bs| == |vals| && Loggable(l, |ds[0]|, bs)
    ensures ds[k] == Filled(l, ds[0], vals, k)
  {
    if k > 0 {
      CommitTraceFills(l, bs, vals, ds, k - 1);
      assert CommitStep(l, bs, vals, ds[k - 1], k - 1, ds[k]);
    }
  }

  /** From the header write on, a commit performs the writes of an installation. */
  lemma CommitTraceInstalls(l: Layout, bs: seq<word>, vals: seq<Block>, ds: seq<Disk>)
    requires CommitTrace(l, bs, vals, ds)
    ensures InstallTrace(l, bs, ds[|bs| + 1..])
  {
    var n, es := |bs|, ds[|bs| + 1..];
    forall k | 0 <= k < |es| - 1 ensures InstallStep(l, bs, es[k], k, es[k + 1]) {
      assert CommitStep(l, bs, vals, ds[n + 1 + k], n + 1 + k, ds[n + 1 + k + 1]);
    }
  }

  /** The disk with the transaction's blocks at home: what "all as after it" means. */
  ghost predicate Applied(l: Layout, d: Disk, bs: seq<word>, vals: seq<Block>, e: Disk)
    requires Loggable(l, |d|, bs) && |vals| == |bs|
  {
    && |e| == |d|
    && (forall j | 0 <= j < |bs| :: e[bs[j]] == vals[j])
    && forall b | 0 <= b < |d| && !InLog(l, b) && b !in bs :: e[b] == d[b]
  }

  lemma ClearedTwice(l: Layout, d: Disk)
    requires l.start < |d|
    ensures Headed(l, Headed(l, d, []), []) == Headed(l, d, [])
    ensures HeadCount(Headed(l, d, [])[l.start]) == 0
  {
    var h := d[l.start];
    HeadRoundTrip(h, []);
    assert SetWord(SetWord(h, 0, 0), 0, 0) == SetWord(h, 0, 0);
  }

  lemma InstallAgain(l: Layout, d: Disk, bs: seq<word>, k: nat)
    requires Loggable(l, |d|, bs) && k <= |bs|
    ensures Installed(l, Installed(l, d, bs, k), bs, |bs|) == Installed(l, d, bs, |bs|)
  {
    var p := Installed(l, d, bs, k);
    var r, q := Installed(l, p, bs, |bs|), Installed(l, d, bs, |bs|);
    assert bs[..|bs|] == bs;
    InstalledFacts(l, d, bs, k);
    InstalledFacts(l, d, bs, |bs|);
    InstalledFacts(l, p, bs, |bs|);
    forall b | 0 <= b < |d| ensures r[b] == q[b] {
      if b in bs {
        var j :| 0 <= j < |bs| && bs[j] == b;
        assert InLog(l, l.start + 1 + j);
      }
    }
  }

  /** A recovery cut short after any number of its writes can be started over with the same outcome. */
  lemma RecoverPoint(l: Layout, bs: seq<word>, ds: seq<Disk>, k: nat)
    requires InstallTrace(l, bs, ds) && k < |ds|
    requires WellFormed(l, ds[0]) && bs == HeadBlocks(ds[0][l.start])
    ensures WellFormed(l, ds[k])
    ensures Recovered(l, ds[k]) == Recovered(l, ds[0])
  {
    var d := ds[0];
    InstallTraceAt(l, bs, ds, k);
    if k <= |bs| {
      InstalledFacts(l, d, bs, k);
      InstallAgain(l, d, bs, k);
    } else {
      var p := Installed(l, d, bs, |bs|);
      ClearedTwice(l, p);
      assert HeadBlocks(Headed(l, p, [])[l.start]) == [];
    }
  }

  /** A disk whose header is empty recovers to itself with the count cleared. */
  lemma NothingToRecover(l: Layout, d: Disk)
    requires l.start < |d| && l.start + l.size <= |d| && l.size > 0 && HeadCount(d[l.start]) == 0
    ensures WellFormed(l, d)
    ensures SameHome(l, Recovered(l, d), d) && HeadCount(Recovered(l, d)[l.start]) == 0
  {
    assert HeadBlocks(d[l.start]) == [];
    ClearedTwice(l, d);
  }

  /** A disk that holds the whole log and a header listing bs recovers to the transaction applied. */
  lemma CommittedRecovers(l: Layout, d: Disk, bs: seq<word>, vals: seq<Block>, h: Disk)
    requires Loggable(l, |d|, bs) && |vals| == |bs|
    requires SameHome(l, h, d) && HeadCount(h[l.start]) == |bs| && HeadBlocks(h[l.start]) == bs
    requires forall j | 0 <= j < |bs| :: h[l.start + 1 + j] == vals[j]
    ensures WellFormed(l, h)
    ensures Applied(l, d, bs, vals, Recovered(l, h))
    ensures HeadCount(Recovered(l, h)[l.start]) == 0
  {
    assert bs[..|bs|] == bs;
    InstalledFacts(l, h, bs, |bs|);
    var e := Installed(l, h, bs, |bs|);
    ClearedTwice(l, e);
    assert forall b | 0 <= b < |d| && !InLog(l, b) :: Recovered(l, h)[b] == e[b];
  }

  /** What a finished recovery may leave after a crash behind the k-th write of a commit: an empty log,
      and none of the transaction up to the header write, all of it from then on. */
  ghost predicate AllOrNone(l: Layout, d: Disk, bs: seq<word>, vals: seq<Block>, k: nat, e: Disk)
    requires Loggable(l, |d|, bs) && |vals| == |bs|
  {
    && |e| == |d|
    && HeadCount(e[l.start]) == 0
    && if k <= |bs| then SameHome(l, e, d) else Applied(l, d, bs, vals, e)
  }

  lemma LoggedRecovers(l: Layout, bs: seq<word>, vals: seq<Block>, ds: seq<Disk>, k: nat)
    requires CommitTrace(l, bs, vals, ds) && |bs| == |vals| && Loggable(l, |ds[0]|, bs) && |bs| < k
    ensures var h := ds[|bs| + 1];
            && WellFormed(l, h) && HeadBlocks(h[l.start]) == bs
            && AllOrNone(l, ds[0], bs, vals, k, Recovered(l, h))
  {
    var n := |bs|;
    CommitTraceFills(l, bs, vals, ds, n);
    assert CommitStep(l, bs, vals, ds[n], n, ds[n + 1]);
    FilledFacts(l, ds[0], vals, n);
    HeadRoundTrip(ds[n][l.start], bs);
    CommittedRecovers(l, ds[0], bs, vals, ds[n + 1]);
  }

  /** The header write is the commit point. */
  lemma CommitPoint(l: Layout, bs: seq<word>, vals: seq<Block>, ds: seq<Disk>, k: nat)
    requires CommitTrace(l, bs, vals, ds) && |bs| == |vals| && Loggable(l, |ds[0]|, bs) && k < |ds|
    requires l.start < |ds[0]| && HeadCount(ds[0][l.start]) == 0
    ensures WellFormed(l, ds[k])
    ensures AllOrNone(l, ds[0], bs, vals, k, Recovered(l, ds[k]))
  {
    if k <= |bs| {
      CommitTraceFills(l, bs, vals, ds, k);
      FilledFacts(l, ds[0], vals, k);
      NothingToRecover(l, ds[k]);
    } else {
      LoggedRecovers(l, bs, vals, ds, k);
      CommitTraceInstalls(l, bs, vals, ds);
      RecoverPoint(l, bs, ds[|bs| + 1..], k - |bs| - 1);
    }
  }

  /** e is what a recovery started on d leaves when a crash stops it after some of its writes. */
  ghost predicate CutShort(l: Layout, d: Disk, e: Disk) {
    && WellFormed(l, d)
    && exists ds :: InstallTrace(l, HeadBlocks(d[l.start]), ds) && ds[0] == d && e in ds
  }

  /** Disks left by a row of recoveries, each but the last cut short by a crash. */
  ghost predicate CrashChain(l: Layout, ds: seq<Disk>) {
    && |ds| > 0
    && WellFormed(l, ds[0])
    && forall i | 0 <= i < |ds| - 1 :: CutShort(l, ds[i], ds[i + 1])
  }

  lemma {:induction false} ChainRecovers(l: Layout, ds: seq<Disk>)
    requires CrashChain(l, ds)
    ensures WellFormed(l, ds[|ds| - 1])
    ensures Recovered(l, ds[|ds| - 1]) == Recovered(l, ds[0])
  {
    var n := |ds| - 1;
    if n > 0 {
      ChainRecovers(l, ds[..n]);
      assert CutShort(l, ds[n - 1], ds[n]);
      var bs := HeadBlocks(ds[n - 1][l.start]);
      var es :| InstallTrace(l, bs, es) && es[0] == ds[n - 1] && ds[n] in es;
      var k :| 0 <= k < |es| && es[k] == ds[n];
      RecoverPoint(l, bs, es, k);
    }
  }

  /** Crash atomicity: crash after any write of the commit, then crash any number of recoveries anywhere;
      the recovery that completes leaves an empty log and all of the transaction or none of it. */
  lemma CrashAtomicity(l: Layout, bs: seq<word>, vals: seq<Block>, ds: seq<Disk>, k: nat, crashes: seq<Disk>)
    requires CommitTrace(l, bs, vals, ds) && |bs| == |vals| && Loggable(l, |ds[0]|, bs) && k < |ds|
    requires l.start < |ds[0]| && HeadCount(ds[0][l.start]) == 0
    requires CrashChain(l, crashes) && crashes[0] == ds[k]
    ensures WellFormed(l, crashes[|crashes| - 1])
    ensures AllOrNone(l, ds[0], bs, vals, k, Recovered(l, crashes[|crashes| - 1]))
  {
    ChainRecovers(l, crashes);
    CommitPoint(l, bs, vals, ds, k);
  }

  // ---------- every commit and every recovery has its trace ----------

  lemma {:induction false} MakeInstallTrace(l: Layout, d: Disk, bs: seq<word>) returns (ds: seq<Disk>)
    requires Loggable(l, |d|, bs)
    ensures InstallTrace(l, bs, ds) && ds[0] == d && ds[|bs| + 1] == InstallDisk(l, d, bs, |bs| + 1)
  {
    ds := seq(|bs| + 2, k requires 0 <= k < |bs| + 2 => InstallDisk(l, d, bs, k));
    forall k | 0 <= k < |ds| - 1 ensures InstallStep(l, bs, ds[k], k, ds[k + 1]) {
      InstalledFacts(l, d, bs, if k <= |bs| then k else |bs|);
      if k < |bs| { assert InLog(l, l.start + k + 1); }
    }
  }

  lemma MakeCommitTrace(l: Layout, d: Disk, bs: seq<word>, vals: seq<Block>) returns (ds: seq<Disk>)
    requires Loggable(l, |d|, bs) && |vals| == |bs|
    ensures CommitTrace(l, bs, vals, ds) && ds[0] == d
  {
    var n := |bs|;
    var es := MakeInstallTrace(l, Headed(l, Filled(l, d, vals, n), bs), bs);
    ds := seq(n + 1, k requires 0 <= k < n + 1 => Filled(l, d, vals, k)) + es;
    forall k | 0 <= k < |ds| - 1 ensures CommitStep(l, bs, vals, ds[k], k, ds[k + 1]) {
      if k > n {
        assert InstallStep(l, bs, es[k - n - 1], k - n - 1, es[k - n]);
      }
    }
  }
}
