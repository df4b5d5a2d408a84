/**
 * Every run of the sleep/wakeup protocol keeps the invariant; what follows for
 * sleep locks, for wait and for the processors.  A step is first sorted into
 * one of a few kinds by looking only at the process that takes it; each kind
 * keeps the invariant.
 */
module Sleepers {
  import opened ProcTable
  import opened SleepWakeup
  import opened SleepInv
  import opened SleepSteps

  // ----------------------------------------------------------- kinds of steps

  /** Process i moves on, and at most takes or frees the table's lock. */
  predicate Moves(s: State, i: nat, p: Pc, o: Owner, h: set<nat>, s2: State)
    requires Shape(s) && i < |s.pc|
  {
    && s2 == s.(pc := s.pc[i := p], owner := o, held := s.held[i := h]) && OwnerMove(s.owner, i, o) && PcIn(s, p)
    && SaneAt(s.t[i], p, h, true, o == ByProc(i), i, s.init)
    && Spun(p) == Spun(s.pc[i]) && Kept(p) + h == Kept(s.pc[i]) + s.held[i] && RestsOn(s.pc, s.lks, i, p)
    && (Forking(p) ==> Forking(s.pc[i]) && p.c == s.pc[i].c && Early(p) == Early(s.pc[i]))
  }

  /** It takes or frees the spin lock of l. */
  predicate Spinning(s: State, i: nat, l: nat, x: Link, p: Pc, h: set<nat>, s2: State)
    requires Shape(s) && i < |s.pc|
  {
    && l < |s.lks| && PcIn(s, p)
    && s2 == s.(pc := s.pc[i := p], lks := s.lks[l := s.lks[l].(spin := x)], held := s.held[i := h])
    && ((s.lks[l].spin == Nobody && x == Someone(i) && Spun(s.pc[i]) == {} && Spun(p) == {l})
        || (x == Nobody && Spun(s.pc[i]) == {l} && Spun(p) == {}))
    && SaneAt(s.t[i], p, h, true, s.owner == ByProc(i), i, s.init)
    && Kept(p) + h == Kept(s.pc[i]) + s.held[i] && RestsOn(s.pc, s.lks, i, p) && !Forking(p)
  }

  /** It writes its own entry. */
  predicate Selfish(s: State, i: nat, x: Proc, p: Pc, o: Owner, s2: State)
    requires Shape(s) && i < |s.pc|
  {
    && s2 == s.(pc := s.pc[i := p], t := s.t[i := x], owner := o) && PcIn(s, p) && OwnerMove(s.owner, i, o)
    && SaneAt(x, p, s.held[i], true, o == ByProc(i), i, s.init) && x.pid == s.t[i].pid && x.parent == s.t[i].parent
    && Alive(x.state) && s.t[i].state == Running
    && Spun(p) == {} == Spun(s.pc[i]) && Kept(p) == {} == Kept(s.pc[i]) && !Forking(p) && !Sure(p) && !p.Rest3?
    && (Napping(x, i) ==> !HasZombieChild(s.t, i)) && (p.Rest4? ==> s.pc[i] == Rest3(p.l))
  }

  /** It gives up its processor. */
  predicate Yields(s: State, i: nat, k: nat, p: Pc, s2: State)
    requires Shape(s) && i < |s.pc| && k < |s.cpu|
  {
    && s2 == Switch(s, i, k, p) && s.owner == ByProc(i) && PcIn(s, p)
    && SaneAt(s.t[i], p, s.held[i], false, false, i, s.init)
    && Spun(p) == {} == Spun(s.pc[i]) && Kept(p) == {} == Kept(s.pc[i]) && Bells(s.pc[i]) == {} && !Forking(p)
      && !Sure(p) && !p.Rest3?
  }

  ghost predicate Simple(s: State, i: nat, k: nat, s2: State)
    requires Shape(s) && i < |s.pc| && k < |s.cpu|
  {
    && |s2.pc| == |s2.held| == |s2.t| == |s.pc|
    && (Moves(s, i, s2.pc[i], s2.owner, s2.held[i], s2) || Selfish(s, i, s2.t[i], s2.pc[i], s2.owner, s2)
         || Yields(s, i, k, s2.pc[i], s2)
        || exists l: nat, x: Link :: Spinning(s, i, l, x, s2.pc[i], s2.held[i], s2))
  }

  lemma SimpleInv(s: State, i: nat, k: nat, s2: State)
    requires Inv(s) && i < |s.pc| && k < |s.cpu| && s.cpu[k] == Run(i) && Simple(s, i, k, s2)
    ensures Inv(s2)
  {
    assert Shape(s2);
    if Moves(s, i, s2.pc[i], s2.owner, s2.held[i], s2) {
      Moved(s, i, k, s2.owner, s2.pc[i], s2.held[i], s2);
    } else if Selfish(s, i, s2.t[i], s2.pc[i], s2.owner, s2) {
      OwnEntry(s, i, k, s2.t[i], s2.owner, s2.pc[i], s2);
    } else if Yields(s, i, k, s2.pc[i], s2) {
      SwitchedTo(s, i, k, s2.pc[i], s2);
    } else {
      var l: nat, x: Link :| Spinning(s, i, l, x, s2.pc[i], s2.held[i], s2);
      SpinSet(s, i, k, l, x, s2.pc[i], s2.held[i], s2);
    }
  }

  // ----------------------------------------------------------- sorting a step

  /** What the invariant says of the process that takes the step. */
  predicate Local(s: State, i: nat)
    requires Shape(s) && i < |s.pc|
  {
    SaneAt(s.t[i], s.pc[i], s.held[i], true, s.owner == ByProc(i), i, s.init)
  }

  /** Two program points that differ only in who has the table's lock. */
  predicate Alike(c: Pc, p: Pc, i: nat) {
    && OnState(p) == OnState(c) == Running && OnChan(p, i) == OnChan(c, i) == Null && !p.Gone?
      && (Leaving(p) ==> Leaving(c))
    && Spun(p) == Spun(c) && Kept(p) == Kept(c) && Bells(c) == Bells(p)
    && (Sure(p) || p.Rest3? ==> Sure(c) && c.l == p.l)
    && (Forking(p) ==> Forking(c) && p.c == c.c && Early(p) == Early(c))
  }

  lemma AlikeSimple(s: State, i: nat, k: nat, p: Pc, o: Owner, s2: State)
    requires Shape(s) && i < |s.pc| && k < |s.cpu| && Local(s, i) && Alike(s.pc[i], p, i) && PcIn(s, p)
    requires OwnerMove(s.owner, i, o) && (o == ByProc(i) <==> HasTable(p)) && s2 == Lock(s, i, o, p)
    ensures Simple(s, i, k, s2)
  {
    assert s.held[i := s.held[i]] == s.held;
    assert Moves(s, i, p, o, s.held[i], s2);
  }

  lemma BeginsSimple(s: State, i: nat, k: nat, l: nat, s2: State)
    requires Shape(s) && i < |s.pc| && k < |s.cpu| && Local(s, i) && s.pc[i] == User && Begins(s, i, l, s2)
    ensures Simple(s, i, k, s2)
  {
    assert s.held[i := s.held[i]] == s.held;
    match s2.pc[i]
    case Rel(_) => assert Moves(s, i, Rel(l), s.owner, s.held[i] - {l}, s2);
    case Exit1 => assert Moves(s, i, Exit1, s.owner, s.held[i], s2);
    case Acq(_) => AlikeSimple(s, i, k, Acq(l), s.owner, s2);
    case Wait1 => AlikeSimple(s, i, k, Wait1, s.owner, s2);
    case Kill1 => AlikeSimple(s, i, k, Kill1, s.owner, s2);
    case Yield1 => AlikeSimple(s, i, k, Yield1, s.owner, s2);
    case Fork1 => AlikeSimple(s, i, k, Fork1, s.owner, s2);
  }

  lemma TakesSpin(s: State, i: nat, k: nat, l: nat, p: Pc, s2: State)
    requires Shape(s) && i < |s.pc| && k < |s.cpu| && Local(s, i) && l < |s.lks| && s.lks[l].spin == Nobody
    requires (s.pc[i] == Acq(l) && p == Test(l)) || (s.pc[i] == Rel(l) && p == Clear(l))
    requires s2 == SetLk(s, i, l, s.lks[l].(spin := Someone(i)), p)
    ensures Simple(s, i, k, s2)
  {
    assert s.held[i := s.held[i]] == s.held;
    assert Spinning(s, i, l, Someone(i), p, s.held[i], s2);
  }

  lemma DropsSpin(s: State, i: nat, k: nat, l: nat, p: Pc, h: set<nat>, s2: State)
    requires Shape(s) && i < |s.pc| && k < |s.cpu| && Local(s, i) && l < |s.lks|
    requires || (s.pc[i] == Named(l) && p == User && h == s.held[i] + {l})
             || (s.pc[i] == Rest2(l) && p == Rest3(l) && h == s.held[i])
          || (s.pc[i] == Hang(l) && p == User && h == s.held[i])
    requires s2 == SetLk(s, i, l, s.lks[l].(spin := Nobody), p).(held := s.held[i := h])
    ensures Simple(s, i, k, s2)
  {
    assert Spinning(s, i, l, Nobody, p, h, s2);
  }

  /** The process writes its own entry: it lies down, or gets up again. */
  lemma OwnSimple(s: State, i: nat, k: nat, x: Proc, p: Pc, o: Owner, s2: State)
    requires Shape(s) && i < |s.pc| && k < |s.cpu| && Local(s, i) && PcIn(s, p)
    requires || (s.pc[i].Rest3? && p == Rest4(s.pc[i].l) && x == s.t[i].(chan := OfLock(p.l), state := Sleeping)
          && o == s.owner)
             || (s.pc[i].Back? && p == Acq(s.pc[i].l) && x == s.t[i].(chan := Null) && o == Free)
             || (s.pc[i].Wait2? && p == Nap1 && x == s.t[i].(chan := OfProc(i), state := Sleeping) && o == s.owner
                  && !HasZombieChild(s.t, i))
             || (s.pc[i].Nap2? && p == Wait2 && x == s.t[i].(chan := Null) && o == s.owner)
             || (s.pc[i].Yield2? && p == Yield3 && x == s.t[i].(state := Runnable) && o == s.owner)
    requires s2 == s.(pc := s.pc[i := p], t := s.t[i := x], owner := o)
    ensures Simple(s, i, k, s2)
  {
    assert Selfish(s, i, x, p, o, s2);
  }

  lemma YieldsSimple(s: State, i: nat, k: nat, p: Pc, s2: State)
    requires Shape(s) && i < |s.pc| && k < |s.cpu| && Local(s, i) && PcIn(s, p) && s2 == Switch(s, i, k, p)
    requires || (s.pc[i].Rest4? && p == Back(s.pc[i].l)) || (s.pc[i].Exit3? && p == Gone)
             || (s.pc[i].Nap1? && p == Nap2) || (s.pc[i].Yield3? && p == Yield4)
    ensures Simple(s, i, k, s2)
  {
    assert Yields(s, i, k, p, s2);
  }

  /** Going to sleep in acquiresleep; getting the lock is the one step that is not simple. */
  lemma SleepsSimple(s: State, i: nat, k: nat, s2: State)
    requires Shape(s) && i < |s.pc| && k < |s.cpu| && Local(s, i) && Sleeps(s, i, k, s2)
    requires s.pc[i].Test? ==> s.lks[s.pc[i].l].locked
    ensures Simple(s, i, k, s2)
  {
    assert s.held[i := s.held[i]] == s.held;
    match s.pc[i]
    case Acq(l) => TakesSpin(s, i, k, l, Test(l), s2);
    case Test(l) => assert Moves(s, i, Rest1(l), s.owner, s.held[i], s2);
    case Named(l) => DropsSpin(s, i, k, l, User, s.held[i] + {l}, s2);
    case Rest1(l) => AlikeSimple(s, i, k, Rest2(l), ByProc(i), s2);
    case Rest2(l) => DropsSpin(s, i, k, l, Rest3(l), s.held[i], s2);
    case Rest3(l) => OwnSimple(s, i, k, s.t[i].(chan := OfLock(l), state := Sleeping), Rest4(l), s.owner, s2);
    case Rest4(l) => YieldsSimple(s, i, k, Back(l), s2);
    case Back(l) => OwnSimple(s, i, k, s.t[i].(chan := Null), Acq(l), Free, s2);
  }

  lemma ReleasesSimple(s: State, i: nat, k: nat, s2: State)
    requires Shape(s) && i < |s.pc| && k < |s.cpu| && Local(s, i) && Releases(s, i, s2) && !s.pc[i].Clear?
          && !s.pc[i].Ring2?
    ensures Simple(s, i, k, s2)
  {
    assert s.held[i := s.held[i]] == s.held;
    match s.pc[i]
    case Rel(l) => TakesSpin(s, i, k, l, Clear(l), s2);
    case Ring1(l) => AlikeSimple(s, i, k, Ring2(l), ByProc(i), s2);
    case Ring3(l) => AlikeSimple(s, i, k, Hang(l), Free, s2);
    case Hang(l) => DropsSpin(s, i, k, l, User, s.held[i], s2);
  }

  lemma EndsSimple(s: State, i: nat, k: nat, c: nat, s2: State)
    requires Shape(s) && i < |s.pc| && k < |s.cpu| && Local(s, i) && Ends(s, i, k, c, s2) && !s.pc[i].Exit2?
          && !s.pc[i].Kill2?
    ensures Simple(s, i, k, s2)
  {
    match s.pc[i]
    case Exit1 => AlikeSimple(s, i, k, Exit2, ByProc(i), s2);
    case Exit3 => YieldsSimple(s, i, k, Gone, s2);
    case Kill1 => AlikeSimple(s, i, k, Kill2, ByProc(i), s2);
    case Kill3 => AlikeSimple(s, i, k, User, Free, s2);
  }

  lemma WaitsSimple(s: State, i: nat, k: nat, c: nat, s2: State)
    requires Shape(s) && i < |s.pc| && k < |s.cpu| && Local(s, i) && Waits(s, i, k, c, s2)
    requires s.pc[i].Wait2? ==> !HasZombieChild(s.t, i)
    ensures Simple(s, i, k, s2)
  {
    match s.pc[i]
    case Wait1 => AlikeSimple(s, i, k, Wait2, ByProc(i), s2);
    case Wait2 =>
      if !HasChild(s.t, i) || s.t[i].killed { AlikeSimple(s, i, k, Wait3, s.owner, s2); }
      else { OwnSimple(s, i, k, s.t[i].(chan := OfProc(i), state := Sleeping), Nap1, s.owner, s2); }
    case Wait3 => AlikeSimple(s, i, k, User, Free, s2);
    case Nap1 => YieldsSimple(s, i, k, Nap2, s2);
    case Nap2 => OwnSimple(s, i, k, s.t[i].(chan := Null), Wait2, s.owner, s2);
  }

  lemma PausesSimple(s: State, i: nat, k: nat, s2: State)
    requires Shape(s) && i < |s.pc| && k < |s.cpu| && Local(s, i) && Pauses(s, i, k, s2)
    ensures Simple(s, i, k, s2)
  {
    match s.pc[i]
    case Yield1 => AlikeSimple(s, i, k, Yield2, ByProc(i), s2);
    case Yield2 => OwnSimple(s, i, k, s.t[i].(state := Runnable), Yield3, s.owner, s2);
    case Yield3 => YieldsSimple(s, i, k, Yield4, s2);
    case Yield4 => AlikeSimple(s, i, k, User, Free, s2);
    case Start => AlikeSimple(s, i, k, User, Free, s2);
  }

  lemma ForksSimple(s: State, i: nat, k: nat, c: nat, s2: State)
    requires Shape(s) && i < |s.pc| && k < |s.cpu| && Local(s, i) && Forks(s, i, c, s2) && !s.pc[i].Fork2?
          && !s.pc[i].Fork4? && !s.pc[i].Fork6?
    ensures Simple(s, i, k, s2)
  {
    match s.pc[i]
    case Fork1 => AlikeSimple(s, i, k, Fork2, ByProc(i), s2);
    case Fork3(q) => AlikeSimple(s, i, k, Fork4(q), Free, s2);
    case Fork5(q) => AlikeSimple(s, i, k, Fork6(q), ByProc(i), s2);
    case Fork7 => AlikeSimple(s, i, k, User, Free, s2);
  }

  // ------------------------------------------------------- the other steps

  /** wait gives a zombie child's slot back. */
  lemma Reaps(s: State, i: nat, c: nat, s2: State)
    requires Shape(s) && i < |s.pc| && Local(s, i) && s.pc[i] == Wait2 && ZombieChild(s.t, i, c) && Sane(s, c)
    requires s2 == SetProc(s, i, c, Reaped(s.t[c]), Wait3)
    ensures Meddles(s, i, c, Reaped(s.t[c]), Wait3, s2)
  {}

  lemma FindsSlot(s: State, i: nat, c: nat, x: Proc, s2: State)
    requires Shape(s) && i < |s.pc| && Local(s, i) && s.pc[i] == Fork2 && c < |s.t| && s.t[c].state == Unused
          && Sane(s, c) && ParentAlive(s.t, c)
    requires x == s.t[c].(state := Embryo, pid := s.next) && s2 == SetProc(s, i, c, x, Fork3(c)).(next := s.next + 1)
    ensures Meddles(s, i, c, x, Fork3(c), s2)
  {}

  lemma NamesParent(s: State, i: nat, c: nat, x: Proc, p: Pc, s2: State)
    requires Shape(s) && i < |s.pc| && Local(s, i) && s.pc[i] == Fork4(c) && c < |s.t| && Birth(s.t, s.pc[i])
          && Sane(s, c)
    requires (x == s.t[c].(state := Unused) && p == User) || (x == s.t[c].(parent := Someone(i)) && p == Fork5(c))
    requires s2 == SetProc(s, i, c, x, p)
    ensures Meddles(s, i, c, x, p, s2)
  {}

  lemma KillInv(s: State, i: nat, k: nat, c: nat, s2: State)
    requires Inv(s) && i < |s.pc| && k < |s.cpu| && s.cpu[k] == Run(i) && s.pc[i] == Kill2 && Ends(s, i, k, c, s2)
    ensures Inv(s2)
  {
    Here(s, i, k);
    var m := s.(t := s2.t);
    Eased(s, i, k, s2.t, m);
    Here(m, i, k);
    AlikeSimple(m, i, k, Kill3, m.owner, s2);
    SimpleInv(m, i, k, s2);
  }

  lemma BornSane(s: State, i: nat, c: nat, x: Proc, s2: State)
    requires Shape(s) && AllSane(s) && i < |s.pc| && Local(s, i) && s.pc[i] == Fork6(c) && c < |s.t| && On(s.cpu, i)
          && s.t[c].state == Embryo
    requires x == s.t[c].(state := Runnable) && s2 == s.(pc := s.pc[i := Fork7][c := Start], t := s.t[c := x])
    ensures Shape(s2) && AllSane(s2) && c != i && !On(s.cpu, c) && s.held[c] == {}
         && Kept(s.pc[c]) == {} == Spun(s.pc[c])
    ensures Bells(s.pc[c]) == {} && !Forking(s.pc[c]) && s.t[c].chan == Null
  {
    assert Sane(s, c);
    forall j | 0 <= j < |s.t| ensures Sane(s2, j) { assert Sane(s, j); }
  }

  /** fork lets the child run. */
  lemma BornInv(s: State, i: nat, k: nat, c: nat, x: Proc, s2: State)
    requires Inv(s) && i < |s.pc| && k < |s.cpu| && s.cpu[k] == Run(i) && s.pc[i] == Fork6(c) && c < |s.t|
    requires x == s.t[c].(state := Runnable) && s2 == s.(pc := s.pc[i := Fork7][c := Start], t := s.t[c := x])
    ensures Inv(s2)
  {
    Here(s, i, k);
    assert Birth(s.t, s.pc[i]) && ParentAlive(s.t, c);
    BornSane(s, i, c, x, s2);
    var pc1 := s.pc[i := Fork7];
    SpinsMove(s.pc, s.lks, i, Fork7, pc1);
    SpinsMove(pc1, s.lks, c, Start, s2.pc);
    OwnedEntry(s.t, s.pc, s.held, s.lks, c, x, s2.t);
    OwnedMove(s2.t, s.pc, s.held, s.lks, i, Fork7, s.held[i], pc1, s.held);
    OwnedMove(s2.t, pc1, s.held, s.lks, c, Start, s.held[c], s2.pc, s.held);
    RestsMove(s.t, s.pc, s.lks, i, Fork7, pc1);
    RestsEntry(s.t, pc1, s.lks, c, x, Start, s2.t, s2.pc);
    NapsOther(s.t, c, x, s2.t);
    ParentsEntry(s.t, s.init, c, x, s2.t);
    BirthsMove(s.t, s.pc, i, Fork7, pc1);
    BirthsBorn(s.t, s.pc, i, c, x, s2.t, s2.pc);
  }

  lemma BirthsBorn(t: seq<Proc>, pc: seq<Pc>, i: nat, c: nat, x: Proc, t2: seq<Proc>, pc2: seq<Pc>)
    requires i < |pc| == |t| && c < |t| && c != i && Births(t, pc) && pc[i] == Fork6(c) && !Forking(pc[c])
    requires t2 == t[c := x] && pc2 == pc[i := Fork7][c := Start]
    ensures Births(t2, pc2)
  {
    forall j | 0 <= j < |pc| ensures Birth(t2, pc2[j]) { assert Birth(t, pc[j]); }
  }

  // ------------------------------------------------------------ every step

  lemma SlotInv(s: State, i: nat, k: nat, c: nat, x: Proc, s2: State)
    requires Inv(s) && i < |s.pc| && k < |s.cpu| && s.cpu[k] == Run(i) && s.pc[i] == Fork2 && c < |s.t|
          && s.t[c].state == Unused
    requires x == s.t[c].(state := Embryo, pid := s.next) && s2 == SetProc(s, i, c, x, Fork3(c)).(next := s.next + 1)
    ensures Inv(s2)
  {
    Here(s, i, k);
    assert Sane(s, c) && ParentAlive(s.t, c);
    FindsSlot(s, i, c, x, s2);
    OtherEntry(s, i, k, c, x, Fork3(c), s2);
  }

  lemma ParentInv(s: State, i: nat, k: nat, c: nat, x: Proc, p: Pc, s2: State)
    requires Inv(s) && i < |s.pc| && k < |s.cpu| && s.cpu[k] == Run(i) && s.pc[i] == Fork4(c) && c < |s.t|
    requires (x == s.t[c].(state := Unused) && p == User) || (x == s.t[c].(parent := Someone(i)) && p == Fork5(c))
    requires s2 == SetProc(s, i, c, x, p)
    ensures Inv(s2)
  {
    Here(s, i, k);
    assert Birth(s.t, s.pc[i]) && Sane(s, c);
    NamesParent(s, i, c, x, p, s2);
    OtherEntry(s, i, k, c, x, p, s2);
  }

  lemma ForksInv(s: State, i: nat, k: nat, c: nat, s2: State)
    requires Inv(s) && i < |s.pc| && k < |s.cpu| && s.cpu[k] == Run(i) && Forks(s, i, c, s2)
    ensures Inv(s2)
  {
    Here(s, i, k);
    if s.pc[i].Fork2? {
      if s2.pc[i].Fork3? {
        SlotInv(s, i, k, c, s.t[c].(state := Embryo, pid := s.next), s2);
      } else {
        AlikeSimple(s, i, k, Fork7, s.owner, s2);
        SimpleInv(s, i, k, s2);
      }
    } else if s.pc[i].Fork4? {
      ParentInv(s, i, k, s.pc[i].c, s2.t[s.pc[i].c], s2.pc[i], s2);
    } else if s.pc[i].Fork6? {
      BornInv(s, i, k, s.pc[i].c, s.t[s.pc[i].c].(state := Runnable), s2);
    } else {
      ForksSimple(s, i, k, c, s2);
      SimpleInv(s, i, k, s2);
    }
  }

  lemma ProcInv(s: State, i: nat, k: nat, c: nat, s2: State)
    requires Inv(s) && i < |s.pc| && k < |s.cpu| && s.cpu[k] == Run(i)
    requires || (s.pc[i] == User && Begins(s, i, c, s2)) || Sleeps(s, i, k, s2) || Releases(s, i, s2)
             || Ends(s, i, k, c, s2) || Waits(s, i, k, c, s2)
          || Pauses(s, i, k, s2)
    ensures Inv(s2)
  {
    Here(s, i, k);
    if s.pc[i].Test? && !s.lks[s.pc[i].l].locked {
      Taken(s, i, k, s.pc[i].l, s.lks[s.pc[i].l].(locked := true, pid := s.t[i].pid), s2);
    } else if s.pc[i].Clear? {
      Cleared(s, i, k, s.pc[i].l, s.lks[s.pc[i].l].(locked := false, pid := 0), s2);
    } else if s.pc[i].Ring2? {
      Rung(s, i, k, s.pc[i].l, Woken(s.t, OfLock(s.pc[i].l)), s2);
    } else if s.pc[i].Exit2? {
      Exits(s, i, k, Exited(s.t, i, s.init), s2);
    } else if s.pc[i].Kill2? {
      KillInv(s, i, k, c, s2);
    } else if s.pc[i].Wait2? && HasZombieChild(s.t, i) {
      assert Sane(s, c);
      Reaps(s, i, c, s2);
      OtherEntry(s, i, k, c, Reaped(s.t[c]), Wait3, s2);
    } else {
      Sorted(s, i, k, c, s2);
      SimpleInv(s, i, k, s2);
    }
  }

  lemma Sorted(s: State, i: nat, k: nat, c: nat, s2: State)
    requires Shape(s) && i < |s.pc| && k < |s.cpu| && Local(s, i)
    requires || (s.pc[i] == User && Begins(s, i, c, s2)) || Sleeps(s, i, k, s2) || Releases(s, i, s2)
             || Ends(s, i, k, c, s2) || Waits(s, i, k, c, s2)
          || Pauses(s, i, k, s2)
    requires (s.pc[i].Test? ==> s.lks[s.pc[i].l].locked) && !s.pc[i].Clear? && !s.pc[i].Ring2? && !s.pc[i].Exit2?
          && !s.pc[i].Kill2?
    requires s.pc[i].Wait2? ==> !HasZombieChild(s.t, i)
    ensures Simple(s, i, k, s2)
  {
    if s.pc[i] == User && Begins(s, i, c, s2) { BeginsSimple(s, i, k, c, s2); }
    else if Sleeps(s, i, k, s2) { SleepsSimple(s, i, k, s2); }
    else if Releases(s, i, s2) { ReleasesSimple(s, i, k, s2); }
    else if Ends(s, i, k, c, s2) { EndsSimple(s, i, k, c, s2); }
    else if Waits(s, i, k, c, s2) { WaitsSimple(s, i, k, c, s2); }
    else { PausesSimple(s, i, k, s2); }
  }

  lemma StepInv(s: State, s2: State)
    requires Inv(s) && Next(s, s2)
    ensures Inv(s2)
  {
    var k, c :| 0 <= k < |s.cpu| && 0 <= c && StepOf(s, k, c, s2);
    if s.cpu[k].Run? {
      var i := s.cpu[k].p;
      if Forks(s, i, c, s2) { ForksInv(s, i, k, c, s2); } else { ProcInv(s, i, k, c, s2); }
    } else {
      Scheduled(s, k, c, s2);
    }
  }

  lemma LinkInv(r: seq<State>, n: nat)
    requires n < |r| - 1 && Inv(r[n]) && Linked(r, n)
    ensures Inv(r[n + 1])
  {
    StepInv(r[n], r[n + 1]);
  }

  /** Every state of every run from boot satisfies the invariant. */
  lemma {:induction false} RunInv(r: seq<State>, n: nat)
    requires IsRun(r) && n < |r|
    ensures Inv(r[n])
  {
    if n == 0 {
      StartsInv(r[0]);
    } else {
      RunInv(r, n - 1);
      LinkInv(r, n - 1);
    }
  }

  // ------------------------------------------------------------ what follows

  /** No wakeup is lost on a sleep lock: in every state of every run, whoever
      sleeps on a lock whose spin lock is free sleeps on a lock that is locked,
      and some process other than a zombie has it and will let go of it. */
  lemma SleepersHaveALock(r: seq<State>, n: nat, q: nat, l: nat)
    requires IsRun(r) && n < |r| && q < |r[n].t| && l < |r[n].lks|
    requires r[n].t[q].state == Sleeping && r[n].t[q].chan == OfLock(l) && r[n].lks[l].spin == Nobody
    ensures r[n].lks[l].locked && Shape(r[n])
    ensures exists i: nat ::
          Holds(r[n].pc, r[n].held, i, l) && r[n].lks[l].pid == r[n].t[i].pid && Alive(r[n].t[i].state)
  {
    RunInv(r, n);
    var s := r[n];
    assert Resting(s.t[q], s.pc[q], l);
    assert Held(s.pc, s.held, l);
    var i: nat :| Holds(s.pc, s.held, i, l);
    assert Sane(s, i);
  }

  /** At most one process has a sleep lock. */
  lemma OneHolder(r: seq<State>, n: nat, i: nat, j: nat, l: nat)
    requires IsRun(r) && n < |r| && Shape(r[n]) && Holds(r[n].pc, r[n].held, i, l) && Holds(r[n].pc, r[n].held, j, l)
    ensures i == j
  {
    RunInv(r, n);
  }

  /** No wakeup is lost in wait: whoever sleeps there has no zombie child, and
      every zombie's parent is a live process. */
  lemma NoZombieIsForgotten(r: seq<State>, n: nat, c: nat)
    requires IsRun(r) && n < |r| && c < |r[n].t| && r[n].t[c].state == Zombie
    ensures r[n].t[c].parent.Someone?
    ensures var p := r[n].t[c].parent.p;
            && p < |r[n].t| && Alive(r[n].t[p].state)
            && !(r[n].t[p].state == Sleeping && r[n].t[p].chan == OfProc(p))
  {
    RunInv(r, n);
    assert ParentAlive(r[n].t, c) && Alive(r[n].t[r[n].init].state);
    assert ZombieChild(r[n].t, r[n].t[c].parent.p, c);
  }

  /** Only a process itself sleeps on its own slot, so the sleeper there is in wait. */
  lemma SleepersInWait(r: seq<State>, n: nat, q: nat, p: nat)
    requires IsRun(r) && n < |r| && q < |r[n].t| && r[n].t[q].state == Sleeping && r[n].t[q].chan == OfProc(p)
    ensures q == p && q < |r[n].pc| && (r[n].pc[q].Nap1? || r[n].pc[q].Nap2?)
  {
    RunInv(r, n);
    assert Sane(r[n], q);
  }

  /** No process runs on two processors, and one that runs is RUNNING unless it
      has the table's lock and is about to give the processor up. */
  lemma OneProcessor(r: seq<State>, n: nat, j: nat, k: nat, i: nat)
    requires IsRun(r) && n < |r| && j < |r[n].cpu| && k < |r[n].cpu| && r[n].cpu[j] == Run(i) && r[n].cpu[k] == Run(i)
    ensures j == k && i < |r[n].t| && (r[n].t[i].state == Running || r[n].owner == ByProc(i))
  {
    RunInv(r, n);
    Here(r[n], i, k);
  }
}
