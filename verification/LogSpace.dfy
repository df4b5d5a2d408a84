/** Admission to the log (begin_op, log_write, end_op of log.c) under every interleaving of system calls,
    on the disk mkfs builds: nlog == LOGSIZE, of which one block is the header. */
module LogSpace {
  import opened LogDisk

  const NLOG: nat := LOGSIZE

  /** blocks: log.lh.block[..lh.n]; ops: for each operation in progress, how many blocks it has appended. */
  datatype State = State(blocks: seq<nat>, outstanding: nat, committing: bool, ops: seq<nat>)

  const START: State := State([], 0, false, [])

  datatype Event = Begin | Write(op: nat, block: nat) | End(op: nat) | Committed

  predicate Panics(s: State) {
    |s.blocks| >= LOGSIZE || |s.blocks| >= NLOG - 1
  }

  /** One atomic section under log.lock, when every operation appends at most m blocks. */
  ghost predicate Step(m: nat, s: State, e: Event, t: State) {
    match e
    case Begin =>
      && !s.committing && |s.blocks| + (s.outstanding + 1) * MAXOPBLOCKS <= LOGSIZE
      && t == s.(outstanding := s.outstanding + 1, ops := s.ops + [0])
    case Write(p, b) =>
      && p < |s.ops| && !Panics(s)
      && if b in s.blocks then t == s
         else s.ops[p] < m && t == s.(blocks := s.blocks + [b], ops := s.ops[p := s.ops[p] + 1])
    case End(p) =>
      && p < |s.ops| && s.outstanding > 0
      && t == s.(outstanding := s.outstanding - 1, ops := s.ops[..p] + s.ops[p + 1..],
                 committing := s.committing || s.outstanding == 1)
    case Committed =>
      s.committing && t == s.(blocks := [], committing := false)
  }

  ghost predicate Run(m: nat, ss: seq<State>, es: seq<Event>) {
    && |ss| == |es| + 1 && ss[0] == START
    && forall i | 0 <= i < |es| :: Step(m, ss[i], es[i], ss[i + 1])
  }

  ghost predicate Reachable(m: nat, s: State) {
    exists ss, es :: Run(m, ss, es) && ss[|ss| - 1] == s
  }

  /** Blocks the operations in progress may still append. */
  function Unused(m: nat, ops: seq<nat>): int {
    if ops == [] then 0 else m - ops[0] + Unused(m, ops[1..])
  }

  lemma {:induction false} UnusedSplit(m: nat, a: seq<nat>, b: seq<nat>)
    ensures Unused(m, a + b) == Unused(m, a) + Unused(m, b)
  {
    if a == [] {
      assert a + b == b;
    } else {
      assert (a + b)[1..] == a[1..] + b;
      UnusedSplit(m, a[1..], b);
    }
  }

  lemma {:induction false} UnusedBounds(m: nat, ops: seq<nat>)
    requires forall i | 0 <= i < |ops| :: ops[i] <= m
    ensures 0 <= Unused(m, ops) <= m * |ops|
  {
    if ops != [] {
      UnusedBounds(m, ops[1..]);
      assert m * |ops| == m + m * |ops[1..]|;
    }
  }

  lemma UnusedAt(m: nat, ops: seq<nat>, p: nat)
    requires p < |ops|
    ensures Unused(m, ops) == Unused(m, ops[..p]) + (m - ops[p]) + Unused(m, ops[p + 1..])
  {
    assert ops == ops[..p] + ([ops[p]] + ops[p + 1..]);
    UnusedSplit(m, ops[..p], [ops[p]] + ops[p + 1..]);
    assert ([ops[p]] + ops[p + 1..])[1..] == ops[p + 1..];
  }

  /** What the log never exceeds, counting what may still be appended, when each operation appends at most m. */
  function Bound(m: nat): nat {
    if m <= 9 then 28 else LOGSIZE
  }

  ghost predicate Inv(m: nat, s: State) {
    && s.outstanding == |s.ops|
    && (forall i | 0 <= i < |s.ops| :: s.ops[i] <= m)
    && (s.committing ==> s.ops == [])
    && (s.ops == [] && !s.committing ==> s.blocks == [])
    && |s.blocks| + Unused(m, s.ops) <= Bound(m)
  }

  lemma BeginKeepsInv(m: nat, s: State, t: State)
    requires m <= MAXOPBLOCKS && Inv(m, s) && Step(m, s, Begin, t)
    ensures Inv(m, t)
  {
    UnusedSplit(m, s.ops, [0]);
    UnusedBounds(m, s.ops);
    assert Unused(m, [0]) == m;
    assert m * |s.ops| <= MAXOPBLOCKS * |s.ops|;
    if m <= 9 { assert m * |s.ops| <= 9 * |s.ops|; }
  }

  lemma StepKeepsInv(m: nat, s: State, e: Event, t: State)
    requires m <= MAXOPBLOCKS && Inv(m, s) && Step(m, s, e, t)
    ensures Inv(m, t)
  {
    match e
    case Begin => BeginKeepsInv(m, s, t);
    case Write(p, b) =>
      if b !in s.blocks {
        var ops' := s.ops[p := s.ops[p] + 1];
        UnusedAt(m, s.ops, p);
        UnusedAt(m, ops', p);
        assert ops'[..p] == s.ops[..p] && ops'[p + 1..] == s.ops[p + 1..];
      }
    case End(p) =>
      UnusedAt(m, s.ops, p);
      UnusedSplit(m, s.ops[..p], s.ops[p + 1..]);
    case Committed =>
  }

  lemma {:induction false} RunKeepsInv(m: nat, ss: seq<State>, es: seq<Event>)
    requires m <= MAXOPBLOCKS && Run(m, ss, es)
    ensures Inv(m, ss[|ss| - 1])
  {
    if es != [] {
      var n := |es|;
      RunKeepsInv(m, ss[..n], es[..n - 1]);
      StepKeepsInv(m, ss[n - 1], es[n - 1], ss[n]);
    }
  }

  /** Under every interleaving of operations that append at most MAXOPBLOCKS blocks each, the header plus the
      reservations still open fit in the header, and no operation is in progress during a commit. */
  lemma LogFits(m: nat, s: State)
    requires m <= MAXOPBLOCKS && Reachable(m, s)
    ensures |s.blocks| + Unused(m, s.ops) <= LOGSIZE && 0 <= Unused(m, s.ops)
    ensures s.outstanding == |s.ops| && (s.committing ==> s.outstanding == 0)
  {
    var ss, es :| Run(m, ss, es) && ss[|ss| - 1] == s;
    RunKeepsInv(m, ss, es);
    UnusedBounds(m, s.ops);
  }

  // ---------- three operations of ten blocks each ----------

  ghost function Upto(n: nat): (r: seq<nat>)
    ensures |r| == n && forall i | 0 <= i < n :: r[i] == i
  {
    seq(n, i => i)
  }

  /** How many of the first n appended blocks came from operation p, when each appends ten in turn. */
  function Share(n: nat, p: nat): nat {
    if n <= 10 * p then 0 else if n <= 10 * p + 10 then n - 10 * p else 10
  }

  ghost function Busy(n: nat): State {
    State(Upto(n), 3, false, [Share(n, 0), Share(n, 1), Share(n, 2)])
  }

  lemma {:induction false} BusyReachable(m: nat, n: nat)
    requires m >= MAXOPBLOCKS && n <= NLOG - 1
    ensures Reachable(m, Busy(n))
  {
    if n == 0 {
      var s1, s2 := State([], 1, false, [0]), State([], 2, false, [0, 0]);
      assert Run(m, [START, s1, s2, Busy(0)], [Begin, Begin, Begin]);
    } else {
      BusyReachable(m, n - 1);
      var ss, es :| Run(m, ss, es) && ss[|ss| - 1] == Busy(n - 1);
      var e := Write((n - 1) / 10, n - 1);
      assert Step(m, Busy(n - 1), e, Busy(n)) by {
        assert Upto(n) == Upto(n - 1) + [n - 1];
      }
      assert Run(m, ss + [Busy(n)], es + [e]);
    }
  }

  /** The "too big a transaction" panic cannot be reached if and only if no operation appends more than nine
      blocks, although admission reserves ten: one of the LOGSIZE log blocks is the header. */
  lemma PanicReachableIff(m: nat)
    ensures (forall s | Reachable(m, s) :: !Panics(s)) <==> m <= 9
  {
    if m <= 9 {
      forall s | Reachable(m, s) ensures !Panics(s) {
        var ss, es :| Run(m, ss, es) && ss[|ss| - 1] == s;
        RunKeepsInv(m, ss, es);
        UnusedBounds(m, s.ops);
      }
    } else {
      BusyReachable(m, NLOG - 1);
      assert Panics(Busy(NLOG - 1));
    }
  }
}
