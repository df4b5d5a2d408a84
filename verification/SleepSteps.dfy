/**
 * Steps that write the sleep lock's words or the process table, and the steps
 * of the scheduler: each keeps the invariant.
 */
module SleepSteps {
  import opened ProcTable
  import opened SleepWakeup
  import opened SleepInv

  // ----------------------------------------------------- the lock's own words

  lemma OwnedTaken(t: seq<Proc>, pc: seq<Pc>, held: seq<set<nat>>, lks: seq<Lk>, i: nat, l: nat, k: Lk, pc2: seq<Pc>,
                   lks2: seq<Lk>)
    requires i < |pc| == |held| == |t| && Owned(t, pc, held, lks) && l < |lks| && !lks[l].locked && pc[i] == Test(l)
    requires pc2 == pc[i := Named(l)] && lks2 == lks[l := k] && k.locked && k.pid == t[i].pid
    ensures Owned(t, pc2, held, lks2)
  {
    forall j: nat, m: nat ensures Holds(pc2, held, j, m) == (Holds(pc, held, j, m) || (j == i && m == l)) {}
    forall m | 0 <= m < |lks| && lks2[m].locked ensures Held(pc2, held, m) {
      if m == l {
        assert Holds(pc2, held, i, l);
      } else {
        assert Held(pc, held, m);
        var j: nat :| Holds(pc, held, j, m);
        assert Holds(pc2, held, j, m);
      }
    }
  }

  lemma OwnedCleared(t: seq<Proc>, pc: seq<Pc>, held: seq<set<nat>>, lks: seq<Lk>, i: nat, l: nat, k: Lk, pc2: seq<Pc>,
                     lks2: seq<Lk>)
    requires i < |pc| == |held| == |t| && Owned(t, pc, held, lks) && l < |lks| && pc[i] == Clear(l) && l !in held[i]
    requires pc2 == pc[i := Ring1(l)] && lks2 == lks[l := k] && !k.locked
    ensures Owned(t, pc2, held, lks2)
  {
    assert Holds(pc, held, i, l);
    forall j: nat, m: nat ensures Holds(pc2, held, j, m) == (Holds(pc, held, j, m) && m != l) {
      if m == l && Holds(pc, held, j, l) { assert j == i; }
    }
    forall m | 0 <= m < |lks| && lks2[m].locked ensures Held(pc2, held, m) {
      assert Held(pc, held, m);
      var j: nat :| Holds(pc, held, j, m);
      assert Holds(pc2, held, j, m);
    }
  }

  lemma RestsCleared(t: seq<Proc>, pc: seq<Pc>, lks: seq<Lk>, i: nat, l: nat, k: Lk, pc2: seq<Pc>, lks2: seq<Lk>)
    requires i < |pc| == |t| && Rests(t, pc, lks) && Spins(pc, lks) && l < |lks| && pc[i] == Clear(l)
    requires pc2 == pc[i := Ring1(l)] && lks2 == lks[l := k] && k.spin == lks[l].spin
    ensures Rests(t, pc2, lks2)
  {
    assert l in Spun(pc[i]) && lks[l].spin == Someone(i);
    assert Ringing(pc2, lks2[l], l);
    forall j | 0 <= j < |pc| && Sure(pc2[j]) ensures pc2[j].l < |lks| && lks2[pc2[j].l].locked {
      assert pc2[j].l in Spun(pc[j]);
    }
    forall j, m | 0 <= j < |pc| && 0 <= m < |lks| && Resting(t[j], pc2[j], m)
      ensures lks2[m].locked || Ringing(pc2, lks2[m], m)
    {
      assert Resting(t[j], pc[j], m);
      assert Ringing(pc, lks[m], m) ==> Ringing(pc2, lks[m], m);
    }
  }

  lemma Taken(s: State, i: nat, k: nat, l: nat, lk: Lk, s2: State)
    requires Inv(s) && i < |s.pc| && k < |s.cpu| && s.cpu[k] == Run(i) && s.pc[i] == Test(l) && l < |s.lks|
          && !s.lks[l].locked
    requires lk == s.lks[l].(locked := true, pid := s.t[i].pid) && s2 == SetLk(s, i, l, lk, Named(l))
    ensures Inv(s2)
  {
    Here(s, i, k);
    assert !Holds(s.pc, s.held, i, l);
    SaneMoveLks(s, i, Named(l), s2);
    SpinsSet(s.pc, s.lks, i, l, lk, Named(l), s2.pc, s2.lks);
    OwnedTaken(s.t, s.pc, s.held, s.lks, i, l, lk, s2.pc, s2.lks);
    assert !Ringing(s.pc, s.lks[l], l) by { assert l in Spun(s.pc[i]); }
    RestsSpin(s.t, s.pc, s.lks, l, lk, s2.lks);
    RestsMove(s.t, s.pc, s2.lks, i, Named(l), s2.pc);
    BirthsMove(s.t, s.pc, i, Named(l), s2.pc);
  }

  lemma SaneMoveLks(s: State, i: nat, p: Pc, s2: State)
    requires Shape(s) && Shape(s2) && AllSane(s) && i < |s.pc| && On(s.cpu, i)
    requires s2 == s.(pc := s.pc[i := p], lks := s2.lks)
    requires SaneAt(s.t[i], p, s.held[i], true, s.owner == ByProc(i), i, s.init)
    ensures AllSane(s2)
  {
    forall j | 0 <= j < |s.t| ensures Sane(s2, j) { assert Sane(s, j); }
  }

  lemma Cleared(s: State, i: nat, k: nat, l: nat, lk: Lk, s2: State)
    requires Inv(s) && i < |s.pc| && k < |s.cpu| && s.cpu[k] == Run(i) && s.pc[i] == Clear(l) && l < |s.lks|
    requires lk == s.lks[l].(locked := false, pid := 0) && s2 == SetLk(s, i, l, lk, Ring1(l))
    ensures Inv(s2)
  {
    Here(s, i, k);
    SaneMoveLks(s, i, Ring1(l), s2);
    SpinsSet(s.pc, s.lks, i, l, lk, Ring1(l), s2.pc, s2.lks);
    OwnedCleared(s.t, s.pc, s.held, s.lks, i, l, lk, s2.pc, s2.lks);
    RestsCleared(s.t, s.pc, s.lks, i, l, lk, s2.pc, s2.lks);
    BirthsMove(s.t, s.pc, i, Ring1(l), s2.pc);
  }

  // ------------------------------------------------- one entry of the table

  /** A step in which process i writes its own entry, keeping its pid and its parent. */
  lemma OwnEntry(s: State, i: nat, k: nat, x: Proc, o: Owner, p: Pc, s2: State)
    requires Inv(s) && Shape(s2) && i < |s.pc| && k < |s.cpu| && s.cpu[k] == Run(i) && OwnerMove(s.owner, i, o)
    requires s2 == s.(pc := s.pc[i := p], t := s.t[i := x], owner := o)
    requires SaneAt(x, p, s.held[i], true, o == ByProc(i), i, s.init) && x.pid == s.t[i].pid
          && x.parent == s.t[i].parent
    requires Alive(x.state) && s.t[i].state == Running
    requires Spun(p) == {} == Spun(s.pc[i]) && Kept(p) == {} == Kept(s.pc[i]) && !Forking(p) && !Sure(p) && !p.Rest3?
    requires Napping(x, i) ==> !HasZombieChild(s.t, i)
    requires p.Rest4? ==> s.pc[i] == Rest3(p.l)
    ensures Inv(s2)
  {
    SaneEntry(s, i, x, o, p, s2);
    CpusMove(s.cpu, s.owner, |s.t|, i, k, o);
    SpinsMove(s.pc, s.lks, i, p, s2.pc);
    OwnedEntry(s.t, s.pc, s.held, s.lks, i, x, s2.t);
    OwnedMove(s2.t, s.pc, s.held, s.lks, i, p, s.held[i], s2.pc, s.held);
    RestsEntry(s.t, s.pc, s.lks, i, x, p, s2.t, s2.pc);
    NapsEntry(s.t, i, x, s2.t);
    assert ParentAlive(s.t, i);
    ParentsEntry(s.t, s.init, i, x, s2.t);
    BirthsEntry(s.t, s.pc, i, x, s2.t);
    BirthsMove(s2.t, s.pc, i, p, s2.pc);
  }

  lemma SaneEntry(s: State, i: nat, x: Proc, o: Owner, p: Pc, s2: State)
    requires Shape(s) && Shape(s2) && AllSane(s) && i < |s.pc| && On(s.cpu, i) && OwnerMove(s.owner, i, o)
    requires s2 == s.(pc := s.pc[i := p], t := s.t[i := x], owner := o)
    requires SaneAt(x, p, s.held[i], true, o == ByProc(i), i, s.init)
    ensures AllSane(s2)
  {
    forall j | 0 <= j < |s.t| ensures Sane(s2, j) { assert Sane(s, j); }
  }

  lemma OwnedEntry(t: seq<Proc>, pc: seq<Pc>, held: seq<set<nat>>, lks: seq<Lk>, c: nat, x: Proc, t2: seq<Proc>)
    requires c < |pc| == |held| == |t| && Owned(t, pc, held, lks) && t2 == t[c := x]
    requires x.pid == t[c].pid || (held[c] == {} && Kept(pc[c]) == {})
    ensures Owned(t2, pc, held, lks)
  {}

  lemma RestsEntry(t: seq<Proc>, pc: seq<Pc>, lks: seq<Lk>, i: nat, x: Proc, p: Pc, t2: seq<Proc>, pc2: seq<Pc>)
    requires i < |pc| == |t| && Rests(t, pc, lks) && t2 == t[i := x] && pc2 == pc[i := p]
    requires Bells(pc[i]) == {} && !Sure(p) && !p.Rest3?
    requires x.state == Sleeping && x.chan.OfLock? ==> Resting(t[i], pc[i], x.chan.l)
    ensures Rests(t2, pc2, lks)
  {
    forall j, l | 0 <= j < |pc| && 0 <= l < |lks| && Resting(t2[j], pc2[j], l)
      ensures lks[l].locked || Ringing(pc2, lks[l], l)
    {
      assert Resting(t[j], pc[j], l);
      assert Ringing(pc, lks[l], l) ==> Ringing(pc2, lks[l], l);
    }
  }

  lemma NapsEntry(t: seq<Proc>, i: nat, x: Proc, t2: seq<Proc>)
    requires i < |t| && Naps(t) && t2 == t[i := x] && x.parent in {t[i].parent, Nobody}
          && (x.state == Zombie ==> t[i].state == Zombie)
    requires Napping(x, i) ==> Napping(t[i], i) || !HasZombieChild(t, i)
    ensures Naps(t2)
  {
    forall p: nat, c: nat | p < |t| && Napping(t2[p], p) && ZombieChild(t2, p, c) ensures false {
      assert ZombieChild(t, p, c);
    }
  }

  lemma ParentsEntry(t: seq<Proc>, init: nat, i: nat, x: Proc, t2: seq<Proc>)
    requires i < |t| && Parents(t, init) && t2 == t[i := x] && (Alive(t[i].state) ==> Alive(x.state))
    requires x.parent.Someone? ==> x.parent.p < |t| && x.parent.p != i && i != init && Alive(t[x.parent.p].state)
    requires (x.state == Unused ==> x.parent == Nobody)
          && (i != init && x.state != Unused && x.state != Embryo ==> x.parent.Someone?)
    ensures Parents(t2, init)
  {
    forall c | 0 <= c < |t| ensures ParentAlive(t2, c) { assert ParentAlive(t, c); }
  }

  lemma BirthsEntry(t: seq<Proc>, pc: seq<Pc>, c: nat, x: Proc, t2: seq<Proc>)
    requires c < |t| && Births(t, pc) && t2 == t[c := x]
    requires t[c].state == Embryo ==> x.state == Embryo && x.parent == t[c].parent
    ensures Births(t2, pc)
  {
    forall i | 0 <= i < |pc| ensures Birth(t2, pc[i]) { assert Birth(t, pc[i]); }
  }

  /** A step in which process i, with the table's lock or as the only one that
      knows the slot, writes the entry of a process c that is off its processor. */
  ghost predicate Meddles(s: State, i: nat, c: nat, x: Proc, p: Pc, s2: State)
    requires Shape(s) && i < |s.pc|
  {
    && c < |s.t| && c != i && !On(s.cpu, c) && PcIn(s, p)
    && s2 == s.(pc := s.pc[i := p], t := s.t[c := x], next := s2.next)
    && SaneAt(s.t[i], p, s.held[i], true, s.owner == ByProc(i), i, s.init)
    && SaneAt(x, s.pc[c], s.held[c], false, false, c, s.init) && x.state in {Unused, Embryo}
      && s.t[c].state in {Unused, Embryo, Zombie}
    && Spun(p) == {} == Spun(s.pc[i]) && Kept(p) == {} == Kept(s.pc[i]) && Bells(s.pc[i]) == {} && !Sure(p) && !p.Rest3?
    && x.parent in {Nobody, s.t[c].parent, Someone(i)} && (x.state == Unused ==> x.parent == Nobody)
      && Alive(s.t[i].state)
    && (Forking(p) ==> p.c == c && x.state == Embryo && (Early(p) <==> x.parent == Nobody))
    && (Forking(s.pc[i]) ==> s.pc[i].c == c)
    && (s.t[c].state == Embryo ==> Forking(s.pc[i]))
  }

  lemma OtherEntry(s: State, i: nat, k: nat, c: nat, x: Proc, p: Pc, s2: State)
    requires Inv(s) && i < |s.pc| && k < |s.cpu| && s.cpu[k] == Run(i) && Meddles(s, i, c, x, p, s2)
    ensures Inv(s2)
  {
    OtherLocks(s, i, c, x, p, s2);
    assert ParentAlive(s.t, c);
    NapsOther(s.t, c, x, s2.t);
    ParentsEntry(s.t, s.init, c, x, s2.t);
    BirthsOther(s.t, s.pc, i, c, x, p, s2.t, s2.pc);
  }

  lemma OtherLocks(s: State, i: nat, c: nat, x: Proc, p: Pc, s2: State)
    requires Shape(s) && AllSane(s) && Spins(s.pc, s.lks) && Owned(s.t, s.pc, s.held, s.lks) && Rests(s.t, s.pc, s.lks)
    requires i < |s.pc| && On(s.cpu, i) && Meddles(s, i, c, x, p, s2)
    ensures Shape(s2) && AllSane(s2) && Spins(s2.pc, s2.lks) && Owned(s2.t, s2.pc, s2.held, s2.lks)
         && Rests(s2.t, s2.pc, s2.lks)
  {
    assert Sane(s, c);
    SaneOther(s, i, c, x, p, s2);
    SpinsMove(s.pc, s.lks, i, p, s2.pc);
    OwnedEntry(s.t, s.pc, s.held, s.lks, c, x, s2.t);
    OwnedMove(s2.t, s.pc, s.held, s.lks, i, p, s.held[i], s2.pc, s.held);
    RestsEntry(s.t, s.pc, s.lks, c, x, s.pc[c], s2.t, s.pc);
    RestsMove(s2.t, s.pc, s.lks, i, p, s2.pc);
  }

  lemma SaneOther(s: State, i: nat, c: nat, x: Proc, p: Pc, s2: State)
    requires Shape(s) && Shape(s2) && AllSane(s) && i < |s.pc| && On(s.cpu, i) && c < |s.t| && c != i && !On(s.cpu, c)
    requires s2 == s.(pc := s.pc[i := p], t := s.t[c := x], next := s2.next)
    requires SaneAt(s.t[i], p, s.held[i], true, s.owner == ByProc(i), i, s.init)
    requires SaneAt(x, s.pc[c], s.held[c], false, false, c, s.init)
    ensures AllSane(s2)
  {
    assert Sane(s, c);
    forall j | 0 <= j < |s.t| ensures Sane(s2, j) { assert Sane(s, j); }
  }

  lemma NapsOther(t: seq<Proc>, c: nat, x: Proc, t2: seq<Proc>)
    requires c < |t| && Naps(t) && t2 == t[c := x] && x.state != Zombie && x.state != Sleeping
    ensures Naps(t2)
  {
    forall p: nat, d: nat | p < |t| && Napping(t2[p], p) && ZombieChild(t2, p, d) ensures false {
      assert ZombieChild(t, p, d);
    }
  }

  lemma BirthsOther(t: seq<Proc>, pc: seq<Pc>, i: nat, c: nat, x: Proc, p: Pc, t2: seq<Proc>, pc2: seq<Pc>)
    requires i < |pc| && c < |t| && Births(t, pc) && t2 == t[c := x] && pc2 == pc[i := p]
    requires Forking(p) ==> p.c == c && x.state == Embryo && (Early(p) <==> x.parent == Nobody)
    requires Forking(pc[i]) ==> pc[i].c == c
    requires t[c].state == Embryo ==> Forking(pc[i])
    ensures Births(t2, pc2)
  {
    forall j | 0 <= j < |pc| ensures Birth(t2, pc2[j]) { assert Birth(t, pc[j]); }
    forall j | 0 <= j < |pc| && j != i && Forking(pc[j]) ensures pc[j].c != c { assert Birth(t, pc[j]); }
  }

  // --------------------------------------------------- wakeups of many entries

  /** The entry is the same, except that it may have been woken or marked killed. */
  predicate EaseAt(p: Proc, q: Proc) {
    q.chan == p.chan && q.parent == p.parent && q.pid == p.pid
      && (q.state == p.state || (p.state == Sleeping && q.state == Runnable))
  }

  ghost predicate Eases(t: seq<Proc>, t2: seq<Proc>) {
    |t2| == |t| && forall q :: 0 <= q < |t| ==> EaseAt(t[q], t2[q])
  }

  lemma SaneEased(s: State, i: nat, t2: seq<Proc>, s2: State)
    requires Shape(s) && AllSane(s) && i < |s.pc| && s.owner == ByProc(i) && s.t[i].state != Sleeping && Eases(s.t, t2)
          && s2 == s.(t := t2)
    ensures Shape(s2) && AllSane(s2)
  {
    forall j | 0 <= j < |s.t| ensures Sane(s2, j) {
      assert Sane(s, j);
      assert EaseAt(s.t[j], t2[j]);
    }
  }

  lemma NapsEased(t: seq<Proc>, t2: seq<Proc>)
    requires Naps(t) && Eases(t, t2)
    ensures Naps(t2)
  {
    forall p: nat, c: nat | p < |t| && Napping(t2[p], p) && ZombieChild(t2, p, c) ensures false {
      assert EaseAt(t[p], t2[p]) && EaseAt(t[c], t2[c]);
      assert ZombieChild(t, p, c);
    }
  }

  lemma ParentsEased(t: seq<Proc>, init: nat, t2: seq<Proc>)
    requires Parents(t, init) && Eases(t, t2)
    ensures Parents(t2, init)
  {
    assert EaseAt(t[init], t2[init]);
    forall c | 0 <= c < |t| ensures ParentAlive(t2, c) {
      assert ParentAlive(t, c) && EaseAt(t[c], t2[c]);
      assert t2[c].state == Unused <==> t[c].state == Unused;
      if t[c].parent.Someone? { assert EaseAt(t[t[c].parent.p], t2[t[c].parent.p]); }
    }
  }

  lemma BirthsEased(t: seq<Proc>, pc: seq<Pc>, t2: seq<Proc>)
    requires Births(t, pc) && Eases(t, t2)
    ensures Births(t2, pc)
  {
    forall i | 0 <= i < |pc| ensures Birth(t2, pc[i]) {
      assert Birth(t, pc[i]);
      if Forking(pc[i]) { assert EaseAt(t[pc[i].c], t2[pc[i].c]); }
    }
  }

  lemma OwnedEased(t: seq<Proc>, pc: seq<Pc>, held: seq<set<nat>>, lks: seq<Lk>, t2: seq<Proc>)
    requires |pc| == |held| == |t| && Owned(t, pc, held, lks) && Eases(t, t2)
    ensures Owned(t2, pc, held, lks)
  {
    forall i: nat, l: nat | Holds(pc, held, i, l) ensures l < |lks| && lks[l].locked && lks[l].pid == t2[i].pid {
      assert EaseAt(t[i], t2[i]);
    }
  }

  lemma RestsEased(t: seq<Proc>, pc: seq<Pc>, lks: seq<Lk>, t2: seq<Proc>)
    requires |pc| == |t| && Rests(t, pc, lks) && Eases(t, t2)
    ensures Rests(t2, pc, lks)
  {
    forall i, l | 0 <= i < |pc| && 0 <= l < |lks| && Resting(t2[i], pc[i], l)
      ensures lks[l].locked || Ringing(pc, lks[l], l)
    {
      assert EaseAt(t[i], t2[i]);
      assert Resting(t[i], pc[i], l);
    }
  }

  /** Waking sleepers, with the table's lock. */
  lemma Eased(s: State, i: nat, k: nat, t2: seq<Proc>, s2: State)
    requires Inv(s) && i < |s.pc| && k < |s.cpu| && s.cpu[k] == Run(i) && s.owner == ByProc(i)
          && s.t[i].state == Running
    requires Eases(s.t, t2) && s2 == s.(t := t2)
    ensures Inv(s2)
  {
    SaneEased(s, i, t2, s2);
    OwnedEased(s.t, s.pc, s.held, s.lks, t2);
    RestsEased(s.t, s.pc, s.lks, t2);
    NapsEased(s.t, t2);
    ParentsEased(s.t, s.init, t2);
    BirthsEased(s.t, s.pc, t2);
  }

  /** After the wakeup in releasesleep nobody rests on the lock, so the bell may stop. */
  lemma RestsRung(t: seq<Proc>, pc: seq<Pc>, lks: seq<Lk>, i: nat, l: nat, pc2: seq<Pc>)
    requires i < |pc| == |t| && Rests(t, pc, lks) && pc[i] == Ring2(l) && pc2 == pc[i := Ring3(l)]
    requires forall j :: 0 <= j < |pc| ==> !Resting(t[j], pc[j], l)
    ensures Rests(t, pc2, lks)
  {
    forall j, m | 0 <= j < |pc| && 0 <= m < |lks| && Resting(t[j], pc2[j], m)
      ensures lks[m].locked || Ringing(pc2, lks[m], m)
    {
      assert Resting(t[j], pc[j], m);
      assert m != l && (Ringing(pc, lks[m], m) ==> Ringing(pc2, lks[m], m));
    }
  }

  lemma NoneRests(s: State, i: nat, l: nat, t2: seq<Proc>)
    requires Shape(s) && AllSane(s) && Cpus(s.cpu, s.owner, |s.t|) && i < |s.pc| && s.owner == ByProc(i)
          && !s.pc[i].Rest3?
    requires t2 == Woken(s.t, OfLock(l))
    ensures forall j :: 0 <= j < |s.pc| ==> !Resting(t2[j], s.pc[j], l)
  {
    forall j | 0 <= j < |s.pc| ensures !Resting(t2[j], s.pc[j], l) { assert Sane(s, j); }
  }

  lemma Rung(s: State, i: nat, k: nat, l: nat, t2: seq<Proc>, s2: State)
    requires Inv(s) && i < |s.pc| && k < |s.cpu| && s.cpu[k] == Run(i) && s.pc[i] == Ring2(l)
    requires t2 == Woken(s.t, OfLock(l)) && s2 == Put(s, i, Ring3(l)).(t := t2)
    ensures Inv(s2)
  {
    Here(s, i, k);
    var m := s.(t := t2);
    Eased(s, i, k, t2, m);
    NoneRests(s, i, l, t2);
    RungMoves(m, i, k, l, s2);
  }

  /** The sleepers have been woken, and the process goes on. */
  lemma RungMoves(m: State, i: nat, k: nat, l: nat, s2: State)
    requires Inv(m) && i < |m.pc| && k < |m.cpu| && m.cpu[k] == Run(i) && m.pc[i] == Ring2(l)
    requires forall j :: 0 <= j < |m.pc| ==> !Resting(m.t[j], m.pc[j], l)
    requires s2 == Put(m, i, Ring3(l))
    ensures Inv(s2)
  {
    Here(m, i, k);
    SaneMove(m, i, m.owner, Ring3(l), m.held[i], s2);
    SpinsMove(m.pc, m.lks, i, Ring3(l), s2.pc);
    OwnedMove(m.t, m.pc, m.held, m.lks, i, Ring3(l), m.held[i], s2.pc, s2.held);
    RestsRung(m.t, m.pc, m.lks, i, l, s2.pc);
    BirthsMove(m.t, m.pc, i, Ring3(l), s2.pc);
  }

  // -------------------------------------------------------------------- exit

  lemma SaneExit(s: State, i: nat, t2: seq<Proc>, s2: State)
    requires Shape(s) && AllSane(s) && i < |s.pc| && On(s.cpu, i) && s.owner == ByProc(i) && s.pc[i] == Exit2
    requires t2 == Exited(s.t, i, s.init) && s2 == Put(s, i, Exit3).(t := t2)
    ensures Shape(s2) && AllSane(s2)
  {
    forall j | 0 <= j < |s.t| ensures Sane(s2, j) { assert Sane(s, j); }
  }

  lemma OwnedExit(t: seq<Proc>, pc: seq<Pc>, held: seq<set<nat>>, lks: seq<Lk>, i: nat, init: nat, t2: seq<Proc>)
    requires i < |pc| == |held| == |t| && Owned(t, pc, held, lks) && t2 == Exited(t, i, init)
    ensures Owned(t2, pc, held, lks)
  {}

  lemma RestsExit(t: seq<Proc>, pc: seq<Pc>, lks: seq<Lk>, i: nat, init: nat, t2: seq<Proc>)
    requires i < |pc| == |t| && Rests(t, pc, lks) && t2 == Exited(t, i, init)
    ensures Rests(t2, pc, lks)
  {
    forall j, l | 0 <= j < |pc| && 0 <= l < |lks| && Resting(t2[j], pc[j], l)
      ensures lks[l].locked || Ringing(pc, lks[l], l)
    {
      assert Resting(t[j], pc[j], l);
    }
  }

  /** The point of the order in exit: the parent is woken before its child is a
      zombie, and init before it gets a zombie child. */
  lemma NapsExit(t: seq<Proc>, i: nat, init: nat, t2: seq<Proc>)
    requires i < |t| && Naps(t) && t2 == Exited(t, i, init) && t[i].parent != Someone(i)
    ensures Naps(t2)
  {
    forall p: nat, c: nat | p < |t| && Napping(t2[p], p) ensures !ZombieChild(t2, p, c) {
      assert t2[p] == AfterExit(t, i, init, p) && Napping(t[p], p) && !ZombieChild(t, p, c);
      if c < |t| {
        assert t2[c] == AfterExit(t, i, init, c);
        assert ZombieChild(t, i, c) ==> HasZombieChild(t, i);
      }
    }
  }

  lemma ParentsExit(t: seq<Proc>, i: nat, init: nat, t2: seq<Proc>)
    requires i < |t| && Parents(t, init) && t2 == Exited(t, i, init) && i != init && t[i].state == Running
    ensures Parents(t2, init)
  {
    assert t2[init] == AfterExit(t, i, init, init);
    forall c | 0 <= c < |t| ensures ParentAlive(t2, c) {
      assert ParentAlive(t, c) && t2[c] == AfterExit(t, i, init, c);
      if t[c].parent.Someone? { assert t2[t[c].parent.p] == AfterExit(t, i, init, t[c].parent.p); }
    }
  }

  lemma BirthsExit(t: seq<Proc>, pc: seq<Pc>, i: nat, init: nat, t2: seq<Proc>)
    requires i < |t| && Births(t, pc) && t2 == Exited(t, i, init) && t[i].state == Running
    ensures Births(t2, pc)
  {
    forall j | 0 <= j < |pc| ensures Birth(t2, pc[j]) {
      assert Birth(t, pc[j]);
      if Forking(pc[j]) { assert t2[pc[j].c] == AfterExit(t, i, init, pc[j].c); }
    }
  }

  lemma Exits(s: State, i: nat, k: nat, t2: seq<Proc>, s2: State)
    requires Inv(s) && i < |s.pc| && k < |s.cpu| && s.cpu[k] == Run(i) && s.pc[i] == Exit2
    requires t2 == Exited(s.t, i, s.init) && s2 == Put(s, i, Exit3).(t := t2)
    ensures Inv(s2)
  {
    Here(s, i, k);
    SaneExit(s, i, t2, s2);
    SpinsMove(s.pc, s.lks, i, Exit3, s2.pc);
    OwnedExit(s.t, s.pc, s.held, s.lks, i, s.init, t2);
    OwnedMove(t2, s.pc, s.held, s.lks, i, Exit3, s.held[i], s2.pc, s.held);
    RestsExit(s.t, s.pc, s.lks, i, s.init, t2);
    RestsMove(t2, s.pc, s.lks, i, Exit3, s2.pc);
    assert ParentAlive(s.t, i);
    NapsExit(s.t, i, s.init, t2);
    ParentsExit(s.t, i, s.init, t2);
    BirthsExit(s.t, s.pc, i, s.init, t2);
    BirthsMove(t2, s.pc, i, Exit3, s2.pc);
  }

  // --------------------------------------------------- processors and switches

  lemma OnSwitch(cpu: seq<Cpu>, owner: Owner, n: nat, k: nat, i: nat, x: Cpu, o: Owner, cpu2: seq<Cpu>)
    requires Cpus(cpu, owner, n) && k < |cpu| && cpu[k] == Run(i) && owner == ByProc(i) && x == Sched && o == ByCpu(k)
          && cpu2 == cpu[k := x]
    ensures Cpus(cpu2, o, n) && !On(cpu2, i) && forall j: nat :: j != i ==> On(cpu2, j) == On(cpu, j)
  {
    forall j: nat | j != i && On(cpu, j) ensures On(cpu2, j) {
      var m :| 0 <= m < |cpu| && cpu[m] == Run(j);
      assert cpu2[m] == Run(j);
    }
  }

  lemma SaneSwitch(s: State, i: nat, k: nat, p: Pc, s2: State)
    requires Shape(s) && Shape(s2) && AllSane(s) && i < |s.pc| && k < |s.cpu| && s2 == Switch(s, i, k, p)
          && s.owner == ByProc(i)
    requires !On(s2.cpu, i) && forall j: nat :: j != i ==> On(s2.cpu, j) == On(s.cpu, j)
    requires SaneAt(s.t[i], p, s.held[i], false, false, i, s.init)
    ensures AllSane(s2)
  {
    forall j | 0 <= j < |s.t| ensures Sane(s2, j) { assert Sane(s, j); }
  }

  lemma SwitchedTo(s: State, i: nat, k: nat, p: Pc, s2: State)
    requires Inv(s) && Shape(s2) && i < |s.pc| && k < |s.cpu| && s.cpu[k] == Run(i) && s2 == Switch(s, i, k, p)
          && s.owner == ByProc(i)
    requires SaneAt(s.t[i], p, s.held[i], false, false, i, s.init)
    requires Spun(p) == {} == Spun(s.pc[i]) && Kept(p) == {} == Kept(s.pc[i]) && Bells(s.pc[i]) == {} && !Forking(p)
          && !Sure(p) && !p.Rest3?
    ensures Inv(s2)
  {
    OnSwitch(s.cpu, s.owner, |s.t|, k, i, Sched, ByCpu(k), s2.cpu);
    SaneSwitch(s, i, k, p, s2);
    SpinsMove(s.pc, s.lks, i, p, s2.pc);
    OwnedMove(s.t, s.pc, s.held, s.lks, i, p, s.held[i], s2.pc, s.held);
    RestsMove(s.t, s.pc, s.lks, i, p, s2.pc);
    BirthsMove(s.t, s.pc, i, p, s2.pc);
  }

  lemma OnTurn(cpu: seq<Cpu>, owner: Owner, n: nat, k: nat, x: Cpu, o: Owner, cpu2: seq<Cpu>)
    requires Cpus(cpu, owner, n) && k < |cpu| && cpu2 == cpu[k := x]
    requires (cpu[k] == Idle && owner == Free && x == Sched && o == ByCpu(k)) || (cpu[k] == Sched && x == Idle
          && o == Free)
    ensures Cpus(cpu2, o, n) && forall j: nat :: On(cpu2, j) == On(cpu, j)
  {
    forall j: nat | On(cpu, j) ensures On(cpu2, j) {
      var m :| 0 <= m < |cpu| && cpu[m] == Run(j);
      assert cpu2[m] == Run(j);
    }
  }

  lemma OnDispatch(cpu: seq<Cpu>, owner: Owner, n: nat, k: nat, q: nat, cpu2: seq<Cpu>)
    requires Cpus(cpu, owner, n) && k < |cpu| && cpu[k] == Sched && q < n && !On(cpu, q) && cpu2 == cpu[k := Run(q)]
    ensures Cpus(cpu2, ByProc(q), n) && On(cpu2, q) && forall j: nat :: j != q ==> On(cpu2, j) == On(cpu, j)
  {
    assert cpu2[k] == Run(q);
    assert owner == ByCpu(k);
    forall j: nat | On(cpu, j) ensures On(cpu2, j) {
      var m :| 0 <= m < |cpu| && cpu[m] == Run(j);
      assert cpu2[m] == Run(j);
    }
    forall a, b | 0 <= a < |cpu| && 0 <= b < |cpu| && cpu2[a].Run? && cpu2[a] == cpu2[b] ensures a == b {
      assert !(a != k && cpu[a] == Run(q)) && !(b != k && cpu[b] == Run(q));
    }
  }

  /** The scheduler picks a process nobody runs. */
  lemma Dispatched(s: State, k: nat, q: nat, x: Proc, s2: State)
    requires Inv(s) && k < |s.cpu| && s.cpu[k] == Sched && q < |s.t| && s.t[q].state == Runnable
          && x == s.t[q].(state := Running)
    requires s2 == s.(cpu := s.cpu[k := Run(q)], owner := ByProc(q), t := s.t[q := x])
    ensures Inv(s2)
  {
    assert Sane(s, q) && s.owner == ByCpu(k);
    OnDispatch(s.cpu, s.owner, |s.t|, k, q, s2.cpu);
    forall j | 0 <= j < |s.t| ensures Sane(s2, j) { assert Sane(s, j); }
    OwnedEntry(s.t, s.pc, s.held, s.lks, q, x, s2.t);
    assert s.pc == s.pc[q := s.pc[q]];
    RestsEntry(s.t, s.pc, s.lks, q, x, s.pc[q], s2.t, s.pc);
    NapsEntry(s.t, q, x, s2.t);
    assert ParentAlive(s.t, q);
    ParentsEntry(s.t, s.init, q, x, s2.t);
    BirthsEntry(s.t, s.pc, q, x, s2.t);
  }

  lemma Scheduled(s: State, k: nat, q: nat, s2: State)
    requires Inv(s) && k < |s.cpu| && Schedules(s, k, q, s2)
    ensures Inv(s2)
  {
    if s2.owner.ByProc? {
      Dispatched(s, k, q, s.t[q].(state := Running), s2);
    } else {
      OnTurn(s.cpu, s.owner, |s.t|, k, s2.cpu[k], s2.owner, s2.cpu);
      forall j | 0 <= j < |s.t| ensures Sane(s2, j) { assert Sane(s, j); }
    }
  }
}
