/**
 * What every step of the sleep/wakeup protocol keeps: who holds which lock,
 * where a process can stand off its processor, who its parent can be, and
 * that nobody sleeps on something that has already happened.
 */
module SleepInv {
  import opened ProcTable
  import opened SleepWakeup

  // ------------------------------------------- what a program point implies

  function OnState(c: Pc): PState {
    if c.Rest4? || c.Nap1? then Sleeping else if c.Yield3? then Runnable else if c.Exit3? then Zombie else Running
  }

  function OnChan(c: Pc, i: nat): Chan {
    if c.Rest4? || c.Back? then OfLock(c.l) else if c.Nap1? || c.Nap2? then OfProc(i) else Null
  }

  predicate OffState(p: PState, c: Pc) {
    match p
    case Unused => c.User? || c.Start? || c.Gone?
    case Embryo => c.User? || c.Start? || c.Gone?
    case Sleeping => c.Back? || c.Nap2?
    case Runnable => Switched(c)
    case Zombie => c.Gone?
    case Running => false
  }

  predicate Leaving(c: Pc) {
    c.Exit1? || c.Exit2? || c.Exit3? || c.Gone?
  }

  /** The sleep lock whose spin lock the process has. */
  function Spun(c: Pc): set<nat> {
    if c.Test? || c.Named? || c.Rest1? || c.Rest2? || c.Clear? || c.Ring1? || c.Ring2? || c.Ring3?
      || c.Hang? then {c.l} else {}
  }

  /** The sleep lock the process is just getting or just giving back. */
  function Kept(c: Pc): set<nat> {
    if c.Named? || c.Rel? || c.Clear? then {c.l} else {}
  }

  /** The sleep lock the process has let go without having woken the sleepers. */
  function Bells(c: Pc): set<nat> {
    if c.Ring1? || c.Ring2? then {c.l} else {}
  }

  predicate Sure(c: Pc) { c.Rest1? || c.Rest2? }

  predicate Forking(c: Pc) { c.Fork3? || c.Fork4? || c.Fork5? || c.Fork6? }

  predicate Early(c: Pc) { c.Fork3? || c.Fork4? }

  // ------------------------------------------------------------- invariants

  ghost predicate On(cpu: seq<Cpu>, i: nat) {
    exists k | 0 <= k < |cpu| :: cpu[k] == Run(i)
  }

  predicate SaneAt(p: Proc, c: Pc, held: set<nat>, on: bool, mine: bool, i: nat, init: nat) {
    && p.chan == OnChan(c, i) && Kept(c) !! held
    && (if on then
          (mine <==> HasTable(c)) && p.state == OnState(c) && !c.Gone? && (Leaving(c) ==> held == {} && i != init)
        else
          !mine && OffState(p.state, c) && (p.state in {Unused, Embryo, Zombie} ==> held == {}))
  }

  ghost predicate Sane(s: State, i: nat)
    requires Shape(s) && i < |s.t|
  {
    SaneAt(s.t[i], s.pc[i], s.held[i], On(s.cpu, i), s.owner == ByProc(i), i, s.init)
  }

  ghost predicate AllSane(s: State)
    requires Shape(s)
  {
    forall i :: 0 <= i < |s.t| ==> Sane(s, i)
  }

  ghost predicate Cpus(cpu: seq<Cpu>, owner: Owner, n: nat) {
    && (forall k :: 0 <= k < |cpu| && cpu[k].Run? ==> cpu[k].p < n)
    && (forall k :: 0 <= k < |cpu| ==> (owner == ByCpu(k) <==> cpu[k] == Sched))
    && (forall j, k :: 0 <= j < |cpu| && 0 <= k < |cpu| && cpu[j].Run? && cpu[j] == cpu[k] ==> j == k)
    && (owner.ByProc? ==> owner.p < n && On(cpu, owner.p)) && (owner.ByCpu? ==> owner.k < |cpu|)
  }

  /** A spin lock's holder is exactly the process standing between its acquire and its release. */
  ghost predicate Spins(pc: seq<Pc>, lks: seq<Lk>) {
    && (forall i, l :: 0 <= i < |pc| && 0 <= l < |lks| ==> (l in Spun(pc[i]) <==> lks[l].spin == Someone(i)))
    && (forall l :: 0 <= l < |lks| && lks[l].spin.Someone? ==> lks[l].spin.p < |pc|)
  }

  /** Process i has the sleep lock l. */
  predicate Holds(pc: seq<Pc>, held: seq<set<nat>>, i: nat, l: nat)
    requires |held| == |pc|
  {
    i < |pc| && (l in held[i] || l in Kept(pc[i]))
  }

  ghost predicate Held(pc: seq<Pc>, held: seq<set<nat>>, l: nat)
    requires |held| == |pc|
  {
    exists i: nat :: Holds(pc, held, i, l)
  }

  /** A sleep lock is locked exactly while one process has it, under that process's pid. */
  ghost predicate Owned(t: seq<Proc>, pc: seq<Pc>, held: seq<set<nat>>, lks: seq<Lk>)
    requires |held| == |pc| == |t|
  {
    && (forall i: nat, l: nat :: Holds(pc, held, i, l) ==> l < |lks| && lks[l].locked && lks[l].pid == t[i].pid)
    && (forall i: nat, j: nat, l: nat :: Holds(pc, held, i, l) && Holds(pc, held, j, l) ==> i == j)
    && (forall l :: 0 <= l < |lks| && lks[l].locked ==> Held(pc, held, l))
  }

  /** The lock's holder has let go and has not yet woken the sleepers. */
  predicate Ringing(pc: seq<Pc>, k: Lk, l: nat) {
    k.spin.Someone? && k.spin.p < |pc| && l in Bells(pc[k.spin.p])
  }

  predicate Resting(p: Proc, c: Pc, l: nat) {
    c == Rest3(l) || (p.state == Sleeping && p.chan == OfLock(l))
  }

  ghost predicate Rests(t: seq<Proc>, pc: seq<Pc>, lks: seq<Lk>)
    requires |t| == |pc|
  {
    && (forall i :: 0 <= i < |pc| && Sure(pc[i]) ==> pc[i].l < |lks| && lks[pc[i].l].locked)
    && (forall i, l :: 0 <= i < |pc| && 0 <= l < |lks| && Resting(t[i], pc[i], l) ==>
         lks[l].locked || Ringing(pc, lks[l], l))
  }

  predicate Napping(p: Proc, i: nat) {
    p.state == Sleeping && p.chan == OfProc(i)
  }

  /** A process that sleeps in wait has no zombie child. */
  ghost predicate Naps(t: seq<Proc>) {
    forall p: nat, c: nat :: p < |t| && Napping(t[p], p) ==> !ZombieChild(t, p, c)
  }

  predicate Alive(p: PState) {
    p == Sleeping || p == Runnable || p == Running
  }

  predicate ParentAlive(t: seq<Proc>, c: nat)
    requires c < |t|
  {
    && (t[c].parent.Someone? ==> t[c].parent.p < |t| && t[c].parent.p != c && Alive(t[t[c].parent.p].state))
    && (t[c].state == Unused ==> t[c].parent == Nobody)
  }

  /** init has no parent; everybody else who has come to life has a living one. */
  ghost predicate Parents(t: seq<Proc>, init: nat) {
    && init < |t| && Alive(t[init].state) && t[init].parent == Nobody
    && (forall c :: 0 <= c < |t| ==> ParentAlive(t, c))
    && (forall c :: 0 <= c < |t| && c != init && t[c].state != Unused && t[c].state != Embryo ==> t[c].parent.Someone?)
  }

  predicate Birth(t: seq<Proc>, c: Pc) {
    Forking(c) ==> c.c < |t| && t[c.c].state == Embryo && (Early(c) <==> t[c.c].parent == Nobody)
  }

  ghost predicate Births(t: seq<Proc>, pc: seq<Pc>) {
    && (forall i :: 0 <= i < |pc| ==> Birth(t, pc[i]))
    && (forall i, j :: 0 <= i < |pc| && 0 <= j < |pc| && Forking(pc[i]) && Forking(pc[j]) && pc[i].c == pc[j].c ==>
         i == j)
  }

  ghost predicate Inv(s: State) {
    && Shape(s) && AllSane(s) && Cpus(s.cpu, s.owner, |s.t|) && Spins(s.pc, s.lks) && Owned(s.t, s.pc, s.held, s.lks)
    && Rests(s.t, s.pc, s.lks) && Naps(s.t) && Parents(s.t, s.init) && Births(s.t, s.pc)
  }

  /** What the invariant says of a process that runs. */
  lemma Here(s: State, i: nat, k: nat)
    requires Inv(s) && i < |s.pc| && k < |s.cpu| && s.cpu[k] == Run(i)
    ensures On(s.cpu, i) && SaneAt(s.t[i], s.pc[i], s.held[i], true, s.owner == ByProc(i), i, s.init)
  {
    assert Sane(s, i);
  }

  lemma StartsInv(s: State)
    requires Starts(s)
    ensures Inv(s)
  {}

  // ----------------------------------- steps that move one process's pc only

  lemma SpinsMove(pc: seq<Pc>, lks: seq<Lk>, i: nat, p: Pc, pc2: seq<Pc>)
    requires i < |pc| && Spins(pc, lks) && Spun(p) == Spun(pc[i]) && pc2 == pc[i := p]
    ensures Spins(pc2, lks)
  {}

  lemma OwnedMove(t: seq<Proc>, pc: seq<Pc>, held: seq<set<nat>>, lks: seq<Lk>, i: nat, p: Pc, h: set<nat>,
                  pc2: seq<Pc>, held2: seq<set<nat>>)
    requires i < |pc| == |held| == |t| && Owned(t, pc, held, lks) && Kept(p) + h == Kept(pc[i]) + held[i]
    requires pc2 == pc[i := p] && held2 == held[i := h]
    ensures Owned(t, pc2, held2, lks)
  {
    forall j: nat, l: nat ensures Holds(pc2, held2, j, l) == Holds(pc, held, j, l) {
      assert l in Kept(p) + h <==> l in Kept(pc[i]) + held[i];
    }
    forall l | 0 <= l < |lks| && lks[l].locked ensures Held(pc2, held2, l) {
      assert Held(pc, held, l);
      var j: nat :| Holds(pc, held, j, l);
      assert Holds(pc2, held2, j, l);
    }
  }

  /** Process i may move on to p: it keeps ringing what it rings, and sleeps only on a locked lock. */
  predicate RestsOn(pc: seq<Pc>, lks: seq<Lk>, i: nat, p: Pc)
    requires i < |pc|
  {
    && Bells(pc[i]) <= Bells(p)
    && (Sure(p) || p.Rest3? ==> p.l < |lks| && (lks[p.l].locked || (Sure(pc[i]) && pc[i].l == p.l)))
  }

  lemma RestsMove(t: seq<Proc>, pc: seq<Pc>, lks: seq<Lk>, i: nat, p: Pc, pc2: seq<Pc>)
    requires i < |pc| == |t| && Rests(t, pc, lks) && RestsOn(pc, lks, i, p) && pc2 == pc[i := p]
    ensures Rests(t, pc2, lks)
  {
    assert Sure(pc[i]) ==> lks[pc[i].l].locked;
    forall j, l | 0 <= j < |pc| && 0 <= l < |lks| && Resting(t[j], pc2[j], l)
      ensures lks[l].locked || Ringing(pc2, lks[l], l)
    {
      if j != i || p != Rest3(l) {
        assert Resting(t[j], pc[j], l);
        assert Ringing(pc, lks[l], l) ==> Ringing(pc2, lks[l], l);
      }
    }
  }

  lemma BirthsMove(t: seq<Proc>, pc: seq<Pc>, i: nat, p: Pc, pc2: seq<Pc>)
    requires i < |pc| && Births(t, pc) && (Forking(p) ==> Forking(pc[i]) && p.c == pc[i].c && Early(p) == Early(pc[i]))
          && pc2 == pc[i := p]
    ensures Births(t, pc2)
  {}

  predicate OwnerMove(o: Owner, i: nat, o2: Owner) {
    o2 == o || (o == Free && o2 == ByProc(i)) || (o == ByProc(i) && o2 == Free)
  }

  lemma CpusMove(cpu: seq<Cpu>, o: Owner, n: nat, i: nat, k: nat, o2: Owner)
    requires Cpus(cpu, o, n) && k < |cpu| && cpu[k] == Run(i) && OwnerMove(o, i, o2)
    ensures Cpus(cpu, o2, n)
  {}

  lemma SaneMove(s: State, i: nat, o: Owner, p: Pc, h: set<nat>, s2: State)
    requires Shape(s) && Shape(s2) && AllSane(s) && i < |s.pc| && OwnerMove(s.owner, i, o) && On(s.cpu, i)
    requires s2 == s.(pc := s.pc[i := p], owner := o, held := s.held[i := h])
    requires SaneAt(s.t[i], p, h, true, o == ByProc(i), i, s.init)
    ensures AllSane(s2)
  {
    forall j | 0 <= j < |s.t| ensures Sane(s2, j) { assert Sane(s, j); }
  }

  /** A step that moves process i on, and at most takes or frees the table's lock. */
  lemma Moved(s: State, i: nat, k: nat, o: Owner, p: Pc, h: set<nat>, s2: State)
    requires Inv(s) && Shape(s2) && i < |s.pc| && k < |s.cpu| && s.cpu[k] == Run(i) && OwnerMove(s.owner, i, o)
    requires s2 == s.(pc := s.pc[i := p], owner := o, held := s.held[i := h])
    requires SaneAt(s.t[i], p, h, true, o == ByProc(i), i, s.init)
    requires Spun(p) == Spun(s.pc[i]) && Kept(p) + h == Kept(s.pc[i]) + s.held[i] && RestsOn(s.pc, s.lks, i, p)
    requires Forking(p) ==> Forking(s.pc[i]) && p.c == s.pc[i].c && Early(p) == Early(s.pc[i])
    ensures Inv(s2)
  {
    SaneMove(s, i, o, p, h, s2);
    CpusMove(s.cpu, s.owner, |s.t|, i, k, o);
    SpinsMove(s.pc, s.lks, i, p, s2.pc);
    OwnedMove(s.t, s.pc, s.held, s.lks, i, p, h, s2.pc, s2.held);
    RestsMove(s.t, s.pc, s.lks, i, p, s2.pc);
    BirthsMove(s.t, s.pc, i, p, s2.pc);
  }

  // ------------------------------------------- steps on a sleep lock's words

  /** Taking or freeing the spin lock of l. */
  lemma SpinsSet(pc: seq<Pc>, lks: seq<Lk>, i: nat, l: nat, k: Lk, p: Pc, pc2: seq<Pc>, lks2: seq<Lk>)
    requires i < |pc| && l < |lks| && Spins(pc, lks) && pc2 == pc[i := p] && lks2 == lks[l := k]
    requires (lks[l].spin == Nobody && k.spin == Someone(i) && Spun(pc[i]) == {} && Spun(p) == {l})
          || (k.spin == Nobody && Spun(pc[i]) == {l} && Spun(p) == {})
          || (k.spin == lks[l].spin && Spun(p) == Spun(pc[i]))
    ensures Spins(pc2, lks2)
  {}

  lemma OwnedSpin(t: seq<Proc>, pc: seq<Pc>, held: seq<set<nat>>, lks: seq<Lk>, l: nat, k: Lk, lks2: seq<Lk>)
    requires |pc| == |held| == |t| && Owned(t, pc, held, lks) && l < |lks| && lks2 == lks[l := k]
    requires k.locked == lks[l].locked && k.pid == lks[l].pid
    ensures Owned(t, pc, held, lks2)
  {}

  lemma RestsSpin(t: seq<Proc>, pc: seq<Pc>, lks: seq<Lk>, l: nat, k: Lk, lks2: seq<Lk>)
    requires |pc| == |t| && Rests(t, pc, lks) && l < |lks| && lks2 == lks[l := k]
    requires (lks[l].locked || !Ringing(pc, lks[l], l)) && (lks[l].locked ==> k.locked)
    ensures Rests(t, pc, lks2)
  {}

  lemma SpinSet(s: State, i: nat, j: nat, l: nat, x: Link, p: Pc, h: set<nat>, s2: State)
    requires Inv(s) && Shape(s2) && i < |s.pc| && l < |s.lks| && j < |s.cpu| && s.cpu[j] == Run(i)
    requires s2 == s.(pc := s.pc[i := p], lks := s.lks[l := s.lks[l].(spin := x)], held := s.held[i := h])
    requires (s.lks[l].spin == Nobody && x == Someone(i) && Spun(s.pc[i]) == {} && Spun(p) == {l})
          || (x == Nobody && Spun(s.pc[i]) == {l} && Spun(p) == {})
    requires SaneAt(s.t[i], p, h, true, s.owner == ByProc(i), i, s.init)
    requires Kept(p) + h == Kept(s.pc[i]) + s.held[i] && RestsOn(s.pc, s.lks, i, p) && !Forking(p)
    ensures Inv(s2)
  {
    var k := s.lks[l].(spin := x);
    SaneMove(s, i, s.owner, p, h, s.(pc := s2.pc, held := s2.held));
    assert AllSane(s2) by {
      forall q | 0 <= q < |s.t| ensures Sane(s2, q) {
        assert Sane(s.(pc := s2.pc, held := s2.held), q);
      }
    }
    SpinsSet(s.pc, s.lks, i, l, k, p, s2.pc, s2.lks);
    OwnedSpin(s.t, s.pc, s.held, s.lks, l, k, s2.lks);
    OwnedMove(s.t, s.pc, s.held, s2.lks, i, p, h, s2.pc, s2.held);
    assert !Ringing(s.pc, s.lks[l], l);
    RestsSpin(s.t, s.pc, s.lks, l, k, s2.lks);
    RestsMove(s.t, s.pc, s2.lks, i, p, s2.pc);
    BirthsMove(s.t, s.pc, i, p, s2.pc);
  }
}
