/**
 * The other direction of the balance: what a step does to the links an inode has beyond those it needs.  Only freeing
 * a removed directory in which something was entered changes them, and then by exactly what was entered.
 */
module LinkLaws {
  import opened Directory
  import opened Links
  import opened LinkInv
  import opened LinkRuns
  import opened LinkLimit

  /** A failed sys_link leaves nothing behind. */
  lemma FailedLinkUndoes(s: State, i: nat)
    requires Can(s, LinkInc(i)) && s.t[i].nlink < SHORT_MAX
    ensures Can(Do(s, LinkInc(i)), LinkUndo(i)) && Do(Do(s, LinkInc(i)), LinkUndo(i)) == s
  {
    var s2 := Do(s, LinkInc(i));
    assert s2.links - multiset{i} == s.links;
    assert s2.t[i := SetLinks(s2.t[i], s2.t[i].nlink - 1)] == s.t;
  }

  /** Names of j, and ".." of directories in j, that the step takes away without counting. */
  ghost function Loss(s: State, a: Step, j: nat): nat {
    if a.Put? && a.valid && a.i < |s.t| && a.i < |s.ref| && s.t[a.i].nlink == 0 && s.ref[a.i] == 1
    then From(s.t[a.i], Ups(s.t), j) else 0
  }

  lemma CountedSet(s: State, i: nat, n: int, links: multiset<nat>, drops: multiset<nat>, s2: State, j: nat)
    requires 0 < i < |s.t| && s2 == s.(t := s.t[i := SetLinks(s.t[i], n)], links := links, drops := drops)
    requires s.t[i].kind != Free && n + s.links[i] + s.drops[i] == s.t[i].nlink + links[i] + drops[i]
    requires forall k :: k != i ==> links[k] == s.links[k] && drops[k] == s.drops[k]
    requires 0 < j < |s.t|
    ensures Excess(s2, j) == Excess(s, j)
  {
    CountSet(s.t, i, SetLinks(s.t[i], n), j);
  }

  lemma EnterKeeps(s: State, i: nat, d: nat, name: string, x: Ino, s2: State, j: nat)
    requires Inv(s) && Can(s, LinkEnter(i, d, name)) && x == WithEntry(s.t[d], name, i)
    requires s2 == s.(t := s.t[d := x], links := s.links - multiset{i}) && 0 < j < |s.t|
    ensures Excess(s2, j) == Excess(s, j)
  {
    assert DirOk(s.t, d);
    VacancyBehind(s.t, d);
    CountSet(s.t, d, x, j);
    SumPlaced(s.t[d].es, 2, Vacancy(s.t[d].es, 0), Entry(i, name), Ups(s.t), j);
  }

  lemma UnlinkKeeps(s: State, d: nat, k: nat, c: nat, x: Ino, s2: State, j: nat)
    requires Inv(s) && Can(s, Unlink(d, k)) && c == s.t[d].es[k].inum
    requires x == s.t[d].(es := s.t[d].es[k := NONE], nlink := s.t[d].nlink - if s.t[c].kind == Dir then 1 else 0)
    requires s2 == s.(t := s.t[d := x], ref := s.ref[c := s.ref[c] + 1], drops := s.drops + multiset{c})
    requires 0 < j < |s.t|
    ensures Excess(s2, j) == Excess(s, j)
  {
    assert DirOk(s.t, d) && EntryOk(s.t, d, s.t[d].es[k]);
    CountSet(s.t, d, x, j);
    SumSet(s.t[d].es, 2, k, NONE, Ups(s.t), j);
  }

  lemma NewKeeps(s: State, c: nat, x: Ino, s2: State, j: nat)
    requires Inv(s) && 0 < c < |s.t| && s.t[c].kind == Free && |x.es| <= 2 && 0 < j < |s.t|
    requires s2 == s.(t := s.t[c := x], ref := s.ref[c := s.ref[c] + 1])
    ensures Excess(s2, j) == Excess(s, j) + if j == c then LinksOf(x) else 0
  {
    FreeIsNameless(s, c);
    CountSetNameless(s.t, c, x, j);
  }

  lemma CreateKeeps(s: State, d: nat, name: string, kind: Kind, c: nat, x: Ino, s1: State, s2: State, j: nat)
    requires Inv(s) && Can(s, Create(d, name, kind, c)) && s.t[d].nlink < SHORT_MAX && 0 < j < |s.t|
    requires x == WithEntry(s.t[d], name, c).(nlink := s.t[d].nlink + if kind == Dir then 1 else 0)
    requires s1 == s.(t := s.t[c := NewIno(kind, c, d)], ref := s.ref[c := s.ref[c] + 1])
          && s2 == s1.(t := s1.t[d := x])
    ensures Excess(s2, j) == Excess(s, j)
  {
    NewKeeps(s, c, NewIno(kind, c, d), s1, j);
    assert DirOk(s.t, d);
    VacancyBehind(s.t, d);
    CountSet(s1.t, d, x, j);
    SumPlaced(s1.t[d].es, 2, Vacancy(s.t[d].es, 0), Entry(c, name), Ups(s1.t), j);
    NewWeight(s1.t, c, d, kind, name, j);
  }

  lemma RefKeeps(s: State, a: Step, s2: State, j: nat)
    requires Inv(s) && Can(s, a) && s2 == Do(s, a) && (a.GetRoot? || a.Dup? || a.Look? || a.Put?) && 0 < j < |s.t|
    ensures |s2.t| == |s.t| && Excess(s2, j) == Excess(s, j) + Loss(s, a, j)
  {
    if a.Put? && a.valid && s.t[a.i].nlink == 0 && s.ref[a.i] == 1 {
      FreeLoses(s, a.i, s2, j);
    } else {
      assert s2.t == s.t && s2.links == s.links && s2.drops == s.drops;
    }
  }

  lemma CountKeeps(s: State, a: Step, s2: State, j: nat)
    requires Inv(s) && Can(s, a) && s2 == Do(s, a) && (a.LinkInc? || a.LinkUndo? || a.Drop?) && Roomy(s)
          && 0 < j < |s.t|
    ensures |s2.t| == |s.t| && Excess(s2, j) == Excess(s, j)
  {
    if !a.LinkInc? { PendingAlive(s, a.i); }
    CountedSet(s, a.i, if a.LinkInc? then s.t[a.i].nlink + 1 else s.t[a.i].nlink - 1, s2.links, s2.drops, s2, j);
  }

  lemma NameKeeps(s: State, a: Step, s2: State, j: nat)
    requires Inv(s) && Can(s, a) && s2 == Do(s, a) && (a.LinkEnter? || a.Unlink? || a.Create?) && Roomy(s)
          && 0 < j < |s.t|
    ensures |s2.t| == |s.t| && Excess(s2, j) == Excess(s, j)
  {
    match a
    case LinkEnter(i, d, name) => EnterKeeps(s, i, d, name, WithEntry(s.t[d], name, i), s2, j);
    case Unlink(d, k) => UnlinkKeeps(s, d, k, s.t[d].es[k].inum, s2.t[d], s2, j);
    case Create(d, name, kind, c) =>
      CreateKeeps(s, d, name, kind, c, s2.t[d], s.(t := s.t[c := NewIno(kind, c, d)], ref := s.ref[c := s.ref[c] + 1]),
                  s2, j);
  }

  /** Every step: the links beyond those needed grow by exactly what the step loses. */
  lemma StepExcess(s: State, a: Step, s2: State, j: nat)
    requires Inv(s) && Can(s, a) && s2 == Do(s, a) && Roomy(s) && 0 < j < |s.t|
    ensures |s2.t| == |s.t| && Excess(s2, j) == Excess(s, j) + Loss(s, a, j)
  {
    if a.GetRoot? || a.Dup? || a.Look? || a.Put? {
      RefKeeps(s, a, s2, j);
    } else if a.LinkInc? || a.LinkUndo? || a.Drop? {
      CountKeeps(s, a, s2, j);
    } else {
      NameKeeps(s, a, s2, j);
    }
  }

  // -------------------------------------------------------------------- runs

  /** What the first n steps of a run lose of j. */
  ghost function Lossy(r: seq<State>, a: seq<Step>, n: nat, j: nat): nat
    requires n <= |a| && |r| == |a| + 1
  {
    if n == 0 then 0 else Lossy(r, a, n - 1, j) + Loss(r[n - 1], a[n - 1], j)
  }

  /** In every run: the links an inode has beyond those it needs are those it had at the start and those of the
      names that went with removed directories. */
  lemma {:induction false} RunExcess(r: seq<State>, a: seq<Step>, n: nat, j: nat)
    requires IsRun(r, a) && n < |r| && 0 < j < |r[0].t|
    ensures |r[n].t| == |r[0].t| && Excess(r[n], j) == Excess(r[0], j) + Lossy(r, a, n, j)
  {
    if n > 0 {
      RunExcess(r, a, n - 1, j);
      RunInv(r, a, n - 1);
      assert Linked(r, a, n - 1);
      StepExcess(r[n - 1], a[n - 1], r[n], j);
    }
  }

  /** Step m frees no directory in which something is entered. */
  ghost predicate Tidy(r: seq<State>, a: seq<Step>, m: nat)
    requires m < |a| && |r| == |a| + 1
  {
    a[m].Put? && Frees(r[m], a[m].i) && a[m].valid ==> Empty(r[m].t[a[m].i].es)
  }

  lemma {:induction false} TidyLosesNothing(r: seq<State>, a: seq<Step>, n: nat, j: nat)
    requires IsRun(r, a) && n < |r| && forall m | 0 <= m < n :: Tidy(r, a, m)
    ensures Lossy(r, a, n, j) == 0
  {
    if n > 0 {
      TidyLosesNothing(r, a, n - 1, j);
      RunInv(r, a, n - 1);
      assert Linked(r, a, n - 1) && Tidy(r, a, n - 1);
      var s, b := r[n - 1], a[n - 1];
      if Loss(s, b, j) != 0 { EmptySum(s.t[b.i].es, 2, Ups(s.t), j); }
    }
  }

  /** In a run that frees no such directory the counts are exact: an inode has as many links as it has names, linked
      children's ".." and calls under way, plus only those it had too many at the start. */
  lemma CountsExact(r: seq<State>, a: seq<Step>, n: nat, j: nat)
    requires IsRun(r, a) && n < |r| && 0 < j < |r[0].t| && forall m | 0 <= m < n :: Tidy(r, a, m)
    ensures |r[n].t| == |r[0].t| && Excess(r[n], j) == Excess(r[0], j)
  {
    RunExcess(r, a, n, j);
    TidyLosesNothing(r, a, n, j);
  }

  /** So nothing leaks: an inode that started with exact counts, and that no name, no child's ".." and no call under
      way refers to, is freed when its last reference is put. */
  lemma UnnamedIsFreed(r: seq<State>, a: seq<Step>, n: nat, j: nat)
    requires IsRun(r, a) && n < |r| && 0 < j < |r[0].t| && j != ROOT && Excess(r[0], j) == 0
    requires forall m | 0 <= m < n :: Tidy(r, a, m)
    requires j < |r[n].t| && Count(r[n].t, j) == 0 && j !in r[n].links && j !in r[n].drops
    requires Can(r[n], Put(j, true)) && r[n].ref[j] == 1
    ensures Do(r[n], Put(j, true)).t[j].kind == Free
  {
    CountsExact(r, a, n, j);
    RunInv(r, a, n);
  }
}
