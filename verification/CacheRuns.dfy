/** The buffer cache under every interleaving of processes that follow the bread / modify / log_write or
    bwrite / brelse discipline. Each event is one atomic section of bio.c, log.c or the block driver. */
module CacheRuns {
  import opened Blocks
  import opened BufferCache

  /** waiting[i]: processes behind bget's lookup that do not have buffer i's lock yet;
      leaving[i]: processes behind releasesleep that have not dropped their reference yet;
      last[b]: what was last given to block b. */
  datatype State = State(buf: seq<Buf>, disk: Disk, waiting: seq<nat>, leaving: seq<nat>, last: seq<Block>)

  datatype Event =
    | Lookup(i: nat, block: nat)
    | Lock(i: nat)
    | Fill(i: nat)
    | Modify(i: nat, data: Block)
    | LogWrite(i: nat)
    | WriteOut(i: nat)
    | Unlock(i: nat)
    | Drop(i: nat)

  ghost predicate Init(s: State) {
    && s.buf == seq(NBUF, _ => BLANK) && s.last == s.disk
    && s.waiting == seq(NBUF, _ => 0) && s.leaving == seq(NBUF, _ => 0)
  }

  ghost predicate Shape(s: State) {
    |s.buf| == |s.waiting| == |s.leaving| == NBUF && |s.last| == |s.disk|
  }

  ghost predicate Step(s: State, e: Event, t: State)
    requires Shape(s)
  {
    && e.i < NBUF
    && var i := e.i; var b := s.buf[i];
    match e
    case Lookup(_, n) =>
      && n < |s.disk| && Chosen(s.buf, n, i)
      && var b' := if Holds(b, ROOTDEV, n) then b.(refcnt := b.refcnt + 1)
                   else b.(valid := false, dirty := false, dev := ROOTDEV, blockno := n, refcnt := 1);
      t == s.(buf := s.buf[i := b'], waiting := s.waiting[i := s.waiting[i] + 1])
    case Lock(_) =>
      && s.waiting[i] > 0 && !b.locked
      && t == s.(buf := s.buf[i := b.(locked := true)], waiting := s.waiting[i := s.waiting[i] - 1])
    case Fill(_) =>
      && b.locked && !b.valid && b.blockno < |s.disk|
      && t == s.(buf := s.buf[i := b.(valid := true, data := s.disk[b.blockno])])
    case Modify(_, v) =>
      && b.locked && b.valid && b.blockno < |s.last|
      && t == s.(buf := s.buf[i := b.(data := v)], last := s.last[b.blockno := v])
    case LogWrite(_) =>
      && b.locked && b.valid
      && t == s.(buf := s.buf[i := b.(dirty := true)])
    case WriteOut(_) =>
      && b.locked && b.valid && b.blockno < |s.disk|
      && t == s.(buf := s.buf[i := b.(dirty := false)], disk := s.disk[b.blockno := b.data])
    case Unlock(_) =>
      && b.locked && b.valid && b.blockno < |s.disk| && (b.dirty || b.data == s.disk[b.blockno])
      && t == s.(buf := s.buf[i := b.(locked := false)], leaving := s.leaving[i := s.leaving[i] + 1])
    case Drop(_) =>
      && s.leaving[i] > 0 && b.refcnt > 0
      && t == s.(buf := s.buf[i := b.(refcnt := b.refcnt - 1)], leaving := s.leaving[i := s.leaving[i] - 1])
  }

  ghost predicate Cached(buf: seq<Buf>, b: nat) {
    exists i :: 0 <= i < |buf| && buf[i].valid && buf[i].blockno == b
  }

  /** What holds of each buffer on its own. */
  ghost predicate BufInv(s: State, i: nat)
    requires Shape(s) && i < NBUF
  {
    var b := s.buf[i];
    && BufOk(b, s.disk)
    && b.refcnt == s.waiting[i] + s.leaving[i] + (if b.locked then 1 else 0)
    && (b.refcnt > 0 ==> b.dev == ROOTDEV && b.blockno < |s.disk|)
    && (b.valid ==> b.data == s.last[b.blockno])
  }

  ghost predicate SysInv(s: State) {
    && Shape(s)
    && (forall i | 0 <= i < NBUF :: BufInv(s, i))
    && Unique(s.buf)
    && (forall b | 0 <= b < |s.disk| && !Cached(s.buf, b) :: s.disk[b] == s.last[b])
  }

  lemma UncachedShowLast(s: State, e: Event, t: State, b: nat)
    requires SysInv(s) && Step(s, e, t)
    requires b < |t.disk| && !Cached(t.buf, b)
    ensures Shape(t) && t.disk[b] == t.last[b]
  {
    var i := e.i;
    assert BufInv(s, i);
    assert !(t.buf[i].valid && t.buf[i].blockno == b);
    assert forall j | 0 <= j < NBUF && j != i :: t.buf[j] == s.buf[j];
    if Cached(s.buf, b) {
      var j :| 0 <= j < |s.buf| && s.buf[j].valid && s.buf[j].blockno == b;
    } else {
      assert !(s.buf[i].valid && s.buf[i].blockno == b);
    }
  }

  lemma StepKeepsBuf(s: State, e: Event, t: State, j: nat)
    requires SysInv(s) && Step(s, e, t) && j < NBUF
    ensures Shape(t) && BufInv(t, j)
  {
    var i := e.i;
    assert BufInv(s, i) && BufInv(s, j);
    if j != i {
      assert t.buf[j] == s.buf[j];
      assert !Holds(s.buf[j], s.buf[i].dev, s.buf[i].blockno) || s.buf[i].dev == 0;
    } else if e.Fill? {
      NotCachedElsewhere(s, i);
    }
  }

  /** A referenced buffer that is not filled yet is the only candidate for its block. */
  lemma NotCachedElsewhere(s: State, i: nat)
    requires SysInv(s) && i < NBUF && s.buf[i].refcnt > 0 && !s.buf[i].valid
    ensures !Cached(s.buf, s.buf[i].blockno)
  {
    assert BufInv(s, i);
    forall m | 0 <= m < NBUF && s.buf[m].valid ensures s.buf[m].blockno != s.buf[i].blockno {
      assert BufInv(s, m) && m != i;
      assert !Holds(s.buf[m], s.buf[i].dev, s.buf[i].blockno);
    }
  }

  lemma StepKeepsUnique(s: State, e: Event, t: State)
    requires SysInv(s) && Step(s, e, t)
    ensures Unique(t.buf)
  {
    var i := e.i;
    assert forall j | 0 <= j < NBUF && j != i :: t.buf[j] == s.buf[j];
  }

  lemma StepKeepsInv(s: State, e: Event, t: State)
    requires SysInv(s) && Step(s, e, t)
    ensures SysInv(t)
  {
    forall j | 0 <= j < NBUF ensures Shape(t) && BufInv(t, j) { StepKeepsBuf(s, e, t, j); }
    StepKeepsUnique(s, e, t);
    forall b | 0 <= b < |t.disk| && !Cached(t.buf, b) ensures t.disk[b] == t.last[b] {
      UncachedShowLast(s, e, t, b);
    }
  }

  ghost predicate Run(ss: seq<State>, es: seq<Event>) {
    && |ss| == |es| + 1 && Init(ss[0])
    && forall k | 0 <= k < |es| :: Shape(ss[k]) && Step(ss[k], es[k], ss[k + 1])
  }

  lemma {:induction false} RunKeepsInv(ss: seq<State>, es: seq<Event>)
    requires Run(ss, es)
    ensures SysInv(ss[|ss| - 1])
  {
    if es != [] {
      var n := |es|;
      RunKeepsInv(ss[..n], es[..n - 1]);
      StepKeepsInv(ss[n - 1], es[n - 1], ss[n]);
    }
  }

  /** In every run: whoever holds a filled buffer sees what was last given to its block, no two buffers carry
      the same block, and whatever a block shows through the cache is what was last given to it. */
  lemma CacheIsTransparent(ss: seq<State>, es: seq<Event>)
    requires Run(ss, es)
    ensures var s := ss[|ss| - 1];
            && Inv(s.buf, s.disk) && |s.last| == |s.disk|
            && (forall i | 0 <= i < NBUF && s.buf[i].locked && s.buf[i].valid ::
                 s.buf[i].data == s.last[s.buf[i].blockno])
            && (forall b | 0 <= b < |s.disk| :: Contents(s.buf, s.disk, b) == s.last[b])
  {
    RunKeepsInv(ss, es);
    var s := ss[|ss| - 1];
    assert forall i | 0 <= i < NBUF :: BufInv(s, i) && BufOk(s.buf[i], s.disk);
    forall b | 0 <= b < |s.disk| ensures Contents(s.buf, s.disk, b) == s.last[b] {
      if i :| 0 <= i < NBUF && s.buf[i].valid && s.buf[i].blockno == b {
        ContentsOfHolder(s.buf, s.disk, i);
      } else {
        assert !Cached(s.buf, b);
      }
    }
  }

  /** A step recycles only a buffer nobody references and the log does not pin. */
  lemma OnlyFreeBuffersAreRecycled(ss: seq<State>, es: seq<Event>, e: Event, t: State, i: nat)
    requires Run(ss, es) && Shape(ss[|ss| - 1]) && Step(ss[|ss| - 1], e, t) && i < NBUF
    requires var b := ss[|ss| - 1].buf[i]; !Holds(t.buf[i], b.dev, b.blockno)
    ensures var s := ss[|ss| - 1]; Free(s.buf[i]) && s.waiting[i] == s.leaving[i] == 0 && !s.buf[i].locked
  {
    RunKeepsInv(ss, es);
    var s := ss[|ss| - 1];
    assert i == e.i && BufInv(s, i);
  }
}
