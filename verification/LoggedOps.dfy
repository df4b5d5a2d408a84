/** The log's guard and the file system's writes together: operations known by the set of blocks they log, as each
    chunk of filewrite is, and what a crash leaves of anything that can be read off the home blocks. */
module LoggedOps {
  import opened Words
  import opened Blocks
  import opened Counting
  import opened LogDisk
  import opened LogSpace
  import opened Bitmap
  import opened FileTree
  import FileImage
  import FileSystem

  /** The log's state, and for each operation in progress the different blocks it has logged. */
  datatype Logging = Logging(s: State, wrote: seq<set<nat>>)

  ghost predicate AnyStep(s: State, e: Event, t: State) {
    exists m: nat :: LogSpace.Step(m, s, e, t)
  }

  /** A step in which the blocks an operation has logged always form a set in `ok`; nothing is said of how often it
      appends. */
  ghost predicate SetStep(ok: iset<set<nat>>, a: Logging, e: Event, b: Logging) {
    && AnyStep(a.s, e, b.s)
    && match e
       case Begin => b.wrote == a.wrote + [{}]
       case Write(p, x) => p < |a.wrote| && b.wrote == a.wrote[p := a.wrote[p] + {x}] && a.wrote[p] + {x} in ok
       case End(p) => p < |a.wrote| && b.wrote == a.wrote[..p] + a.wrote[p + 1..]
       case Committed => b.wrote == a.wrote
  }

  ghost predicate SetStepAt(ok: iset<set<nat>>, ss: seq<Logging>, es: seq<Event>, k: nat) {
    k < |es| && k + 1 < |ss| && SetStep(ok, ss[k], es[k], ss[k + 1])
  }

  ghost predicate SetRun(ok: iset<set<nat>>, ss: seq<Logging>, es: seq<Event>) {
    && |ss| == |es| + 1 && ss[0] == Logging(START, [])
    && forall k | 0 <= k < |es| :: SetStepAt(ok, ss, es, k)
  }

  /** What an operation has logged is in the log, and it has appended no more than that. */
  ghost predicate Accounted(a: Logging, p: nat)
    requires p < |a.wrote| && p < |a.s.ops|
  {
    (forall x :: x in a.wrote[p] ==> x in a.s.blocks) && a.s.ops[p] <= |a.wrote[p]|
  }

  ghost predicate Books(a: Logging) {
    && |a.wrote| == |a.s.ops| == a.s.outstanding && (a.s.committing ==> a.s.ops == [])
    && forall p | 0 <= p < |a.wrote| :: Accounted(a, p)
  }

  lemma WriteBooks(ok: iset<set<nat>>, a: Logging, p: nat, x: nat, b: Logging)
    requires Books(a) && SetStep(ok, a, Write(p, x), b) && forall w :: w in ok ==> |w| <= 9
    ensures Books(b) && LogSpace.Step(9, a.s, Write(p, x), b.s)
  {
    assert Accounted(a, p);
    forall q | 0 <= q < |b.wrote| ensures Accounted(b, q) { assert Accounted(a, q); }
  }

  lemma StepBooks(ok: iset<set<nat>>, a: Logging, e: Event, b: Logging)
    requires Books(a) && SetStep(ok, a, e, b) && forall w :: w in ok ==> |w| <= 9
    ensures Books(b) && LogSpace.Step(9, a.s, e, b.s)
  {
    match e
    case Write(p, x) => WriteBooks(ok, a, p, x, b);
    case Begin =>
      forall q | 0 <= q < |b.wrote| ensures Accounted(b, q) { if q < |a.wrote| { assert Accounted(a, q); } }
    case End(p) =>
      forall q | 0 <= q < |b.wrote| ensures Accounted(b, q) { assert Accounted(a, if q < p then q else q + 1); }
    case Committed =>
  }

  ghost function States(ss: seq<Logging>): seq<State> {
    seq(|ss|, k requires 0 <= k < |ss| => ss[k].s)
  }

  lemma {:induction false} SetRunBooks(ok: iset<set<nat>>, ss: seq<Logging>, es: seq<Event>, n: nat)
    requires SetRun(ok, ss, es) && n < |ss| && forall w :: w in ok ==> |w| <= 9
    ensures Books(ss[n]) && (n > 0 ==> LogSpace.Step(9, ss[n - 1].s, es[n - 1], ss[n].s))
  {
    if n > 0 {
      SetRunBooks(ok, ss, es, n - 1);
      assert SetStepAt(ok, ss, es, n - 1);
      StepBooks(ok, ss[n - 1], es[n - 1], ss[n]);
    }
  }

  /** Operations that log at most nine different blocks each, in any interleaving, never reach the panic. */
  lemma NineNeverPanic(ok: iset<set<nat>>, ss: seq<Logging>, es: seq<Event>)
    requires SetRun(ok, ss, es) && forall w :: w in ok ==> |w| <= 9
    ensures !Panics(ss[|ss| - 1].s)
  {
    var rs := States(ss);
    forall k | 0 <= k < |es| ensures LogSpace.Step(9, rs[k], es[k], rs[k + 1]) { SetRunBooks(ok, ss, es, k + 1); }
    assert LogSpace.Run(9, rs, es);
    assert Reachable(9, rs[|rs| - 1]);
    PanicReachableIff(9);
  }

  /** w is part of what one chunk of filewrite logs, on some well-formed file system of one bitmap block. */
  ghost predicate ChunkLogs(g: Geometry, d: Disk, n: seq<Inode>, i: nat, off: nat, m: nat, all: set<nat>, w: set<nat>) {
    && Owned(g, d, n) && g.size <= BPB && i < |n| && m <= FileSystem.CHUNK && w <= all
    && FileSystem.LogsOnly(g, d, n, i, off / BSIZE, FileSystem.HiBlock(off, m), {FileSystem.IBlock(g, i)}, all)
  }

  ghost predicate OfChunk(w: set<nat>) {
    exists g, d, n, i: nat, off: nat, m: nat, all :: ChunkLogs(g, d, n, i, off, m, all, w)
  }

  ghost function ChunkSets(): iset<set<nat>> {
    iset w: set<nat> | OfChunk(w)
  }

  /** filewrite: whatever chunks of whatever files are written in whatever interleaving, log_write does not panic. */
  lemma FilewriteNeverPanics(ss: seq<Logging>, es: seq<Event>)
    requires SetRun(ChunkSets(), ss, es)
    ensures !Panics(ss[|ss| - 1].s)
  {
    var ok := ChunkSets();
    forall w | w in ok ensures |w| <= 9 {
      var g, d, n, i: nat, off: nat, m: nat, all :| ChunkLogs(g, d, n, i, off, m, all, w);
      assert {} + {FileSystem.IBlock(g, i)} == {FileSystem.IBlock(g, i)};
      FileSystem.ChunkLogsNine(g, d, n, i, off, m, {}, all);
      assert all - {} == all;
      SubsetSize(w, all);
    }
    NineNeverPanic(ok, ss, es);
  }

  /** Whatever is read off the home blocks (a file's bytes, a directory, the inode table) is, after a crash anywhere
      in a commit and any crashed recoveries, what it was before the transaction or what the transaction made it. */
  lemma ObservedIsAtomic<T>(l: Layout, bs: seq<word>, vals: seq<Block>, ds: seq<Disk>, k: nat, crashes: seq<Disk>,
                      after: Disk, seen: Disk -> T)
    requires CommitTrace(l, bs, vals, ds) && |bs| == |vals| && Loggable(l, |ds[0]|, bs) && k < |ds|
    requires l.start < |ds[0]| && HeadCount(ds[0][l.start]) == 0
    requires CrashChain(l, crashes) && crashes[0] == ds[k] && Applied(l, ds[0], bs, vals, after)
    requires forall d: Disk, e: Disk :: SameHome(l, d, e) ==> seen(d) == seen(e)
    ensures WellFormed(l, crashes[|crashes| - 1])
    ensures var r := Recovered(l, crashes[|crashes| - 1]); seen(r) == if k <= |bs| then seen(ds[0]) else seen(after)
  {
    CrashAtomicity(l, bs, vals, ds, k, crashes);
    var r := Recovered(l, crashes[|crashes| - 1]);
    if k <= |bs| {
      assert SameHome(l, r, ds[0]);
    } else {
      assert SameHome(l, r, after) by {
        forall b | 0 <= b < |r| && !InLog(l, b) ensures r[b] == after[b] {
          if b in bs {
            var j :| 0 <= j < |bs| && bs[j] == b;
          }
        }
      }
    }
  }

  /** The commit of an operation: every block it logged, with what the cache holds of it. */
  ghost predicate Commits(l: Layout, g: Geometry, t: FileSystem.Tx, bs: seq<word>, vals: seq<Block>, d: Disk)
    requires FileSystem.AllLogged(g, t) && FileImage.InodeArea(g, |t.n0|)
  {
    && |bs| == |vals| && Loggable(l, |d|, bs) && l.start + l.size <= g.inodes
    && SameHome(l, d, FileImage.Image(g, t.d0, t.n0))
    && (forall b | b in t.blocks :: b in bs)
    && forall j | 0 <= j < |bs| :: vals[j] == FileImage.Image(g, t.d, t.n)[bs[j]]
  }

  lemma CommittedIs(l: Layout, g: Geometry, t: FileSystem.Tx, bs: seq<word>, vals: seq<Block>, d: Disk, e: Disk)
    requires FileSystem.AllLogged(g, t) && FileImage.InodeArea(g, |t.n0|)
    requires Commits(l, g, t, bs, vals, d) && Applied(l, d, bs, vals, e)
    ensures SameHome(l, e, FileImage.Image(g, t.d, t.n))
  {
    var f := FileImage.Image(g, t.d, t.n);
    FileImage.ImageNoted(g, t.d0, t.n0, t.d, t.n, t.blocks);
    forall b | 0 <= b < |e| && !InLog(l, b) ensures e[b] == f[b] {
      if b in bs {
        var j :| 0 <= j < |bs| && bs[j] == b;
      }
    }
  }

  /** A crash anywhere in the commit of a writei, a chunk of filewrite or an itrunc, and any crashed recoveries after
      it, leave every inode and the contents of every file as they were before it, or as it made them. */
  lemma WriteIsAtomic(l: Layout, g: Geometry, t: FileSystem.Tx, bs: seq<word>, vals: seq<Block>, ds: seq<Disk>, k: nat,
                      crashes: seq<Disk>)
    requires FileSystem.AllLogged(g, t) && FileImage.InodeArea(g, |t.n0|)
    requires CommitTrace(l, bs, vals, ds) && k < |ds| && Commits(l, g, t, bs, vals, ds[0])
    requires l.start < |ds[0]| && HeadCount(ds[0][l.start]) == 0 && CrashChain(l, crashes) && crashes[0] == ds[k]
    ensures WellFormed(l, crashes[|crashes| - 1])
    ensures var r := Recovered(l, crashes[|crashes| - 1]);
            if k <= |bs| then FileImage.Shows(g, r, t.d0, t.n0) else FileImage.Shows(g, r, t.d, t.n)
  {
    CrashAtomicity(l, bs, vals, ds, k, crashes);
    var r := Recovered(l, crashes[|crashes| - 1]);
    if k <= |bs| {
      FileImage.ImageShows(g, t.d0, t.n0, r);
    } else {
      CommittedIs(l, g, t, bs, vals, ds[0], r);
      FileImage.ImageShows(g, t.d, t.n, r);
    }
  }
}
