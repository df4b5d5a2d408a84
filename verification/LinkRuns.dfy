/**
 * Every run of directory operations from a fresh file system keeps links and names in
 * step; what follows for the two panics, and where "..", which is not counted once
 * its directory has lost its name, leads to an inode that is gone.
 */
module LinkRuns {
  import opened Directory
  import opened Links
  import opened LinkInv

  lemma RefInv(s: State, i: nat, n: nat, s2: State)
    requires Inv(s) && i < |s.t| && (n > 0 ==> s.t[i].kind != Free) && s2 == s.(ref := s.ref[i := n])
    ensures Inv(s2)
  {}

  lemma RefSteps(s: State, a: Step, s2: State)
    requires Inv(s) && Can(s, a) && s2 == Do(s, a) && (a.GetRoot? || a.Dup? || a.Look? || a.Put?)
    ensures Inv(s2)
  {
    match a
    case GetRoot => RefInv(s, ROOT, s.ref[ROOT] + 1, s2);
    case Dup(i) => RefInv(s, i, s.ref[i] + 1, s2);
    case Look(d, k) => RefInv(s, s.t[d].es[k].inum, s.ref[s.t[d].es[k].inum] + 1, s2);
    case Put(i, valid) =>
      if valid && s.t[i].nlink == 0 && s.ref[i] == 1 { FreeInv(s, i, Ino(Free, 0, []), s2); }
      else { RefInv(s, i, s.ref[i] - 1, s2); }
  }

  lemma IncInv(s: State, i: nat, s2: State)
    requires Inv(s) && Can(s, LinkInc(i)) && s2 == Do(s, LinkInc(i)) && Roomy(s)
    ensures Inv(s2)
  {
    LinksSet(s, i, s.t[i].nlink + 1, s2.links, s2.drops, s2);
  }

  lemma UndoInv(s: State, i: nat, s2: State)
    requires Inv(s) && Can(s, LinkUndo(i)) && s2 == Do(s, LinkUndo(i))
    ensures Inv(s2)
  {
    PendingAlive(s, i);
    LinksSet(s, i, s.t[i].nlink - 1, s2.links, s2.drops, s2);
  }

  lemma DropInv(s: State, i: nat, s2: State)
    requires Inv(s) && Can(s, Drop(i)) && s2 == Do(s, Drop(i))
    ensures Inv(s2)
  {
    PendingAlive(s, i);
    LinksSet(s, i, s.t[i].nlink - 1, s2.links, s2.drops, s2);
  }

  lemma StepInv(s: State, a: Step)
    requires Inv(s) && Can(s, a) && Roomy(s)
    ensures Inv(Do(s, a))
  {
    var s2 := Do(s, a);
    match a
    case LinkEnter(i, d, name) => EnterInv(s, i, d, name, WithEntry(s.t[d], name, i), s2);
    case Unlink(d, k) => UnlinkInv(s, d, k, s.t[d].es[k].inum, s2.t[d], s2);
    case Create(d, name, kind, c) =>
      CreateInv(s, d, name, kind, c, s2.t[d], s.(t := s.t[c := NewIno(kind, c, d)], ref := s.ref[c := s.ref[c] + 1]),
                s2);
    case LinkInc(i) => IncInv(s, i, s2);
    case LinkUndo(i) => UndoInv(s, i, s2);
    case Drop(i) => DropInv(s, i, s2);
    case _ => RefSteps(s, a, s2);
  }

  lemma PendingAlive(s: State, i: nat)
    requires Inv(s) && (i in s.links || i in s.drops)
    ensures 0 < i < |s.t| && s.t[i].kind != Free
  {
    assert Balanced(s.t, s.links, s.drops, i);
  }

  // -------------------------------------------------------------------- runs

  /** What mkfs leaves: a root directory whose names are files of one link each, every
      file named at most once, and nothing else. */
  ghost predicate Fresh(s: State) {
    && |s.ref| == |s.t| && ROOT < |s.t| && s.links == s.drops == multiset{}
    && s.t[ROOT].kind == Dir && s.t[ROOT].nlink == 1 && |s.t[ROOT].es| >= 2
    && s.t[ROOT].es[0].inum == s.t[ROOT].es[1].inum == ROOT && s.t[0].kind == Free
    && (forall i :: 0 <= i < |s.t| ==> s.ref[i] == 0)
    && (forall i :: 0 <= i < |s.t| && i != ROOT ==> s.t[i].kind == Free || (s.t[i].kind == File && s.t[i].nlink == 1))
    && (forall k :: 2 <= k < |s.t[ROOT].es| && s.t[ROOT].es[k].inum != 0 ==>
         s.t[ROOT].es[k].inum < |s.t| && s.t[s.t[ROOT].es[k].inum].kind == File)
    && (forall j, k :: 2 <= j < k < |s.t[ROOT].es| && s.t[ROOT].es[j].inum != 0 ==>
         s.t[ROOT].es[j].inum != s.t[ROOT].es[k].inum)
  }

  lemma {:induction false} OneName(es: seq<Entry>, k: nat, up: seq<nat>, i: nat)
    requires 2 <= k && i != 0 && forall j :: k <= j < |es| && es[j].inum != 0 && es[j].inum < |up| ==>
          up[es[j].inum] == 0
    requires forall j, l :: 2 <= j < l < |es| && es[j].inum != 0 ==> es[j].inum != es[l].inum
    ensures Sum(es, k, up, i) <= 1 && ((forall j :: k <= j < |es| ==> es[j].inum != i) ==> Sum(es, k, up, i) == 0)
    decreases |es| - k
  {
    if k < |es| { OneName(es, k + 1, up, i); }
  }

  lemma {:induction false} OnlyRoot(t: seq<Ino>, n: nat, up: seq<nat>, i: nat)
    requires n <= |t| && forall d :: 0 <= d < |t| && d != ROOT ==> t[d].kind != Dir
    ensures Total(t, n, up, i) == if n > ROOT then From(t[ROOT], up, i) else 0
  {
    if n > 0 { OnlyRoot(t, n - 1, up, i); }
  }

  lemma FreshInv(s: State)
    requires Fresh(s)
    ensures Inv(s)
  {
    forall i: nat ensures Balanced(s.t, s.links, s.drops, i) {
      if 0 < i < |s.t| {
        OnlyRoot(s.t, |s.t|, Ups(s.t), i);
        OneName(s.t[ROOT].es, 2, Ups(s.t), i);
      }
    }
  }

  predicate Follows(r: seq<State>, a: seq<Step>, n: nat) {
    n + 1 < |r| && n < |a|
  }

  ghost predicate Linked(r: seq<State>, a: seq<Step>, n: nat) {
    Follows(r, a, n) ==> Can(r[n], a[n]) && r[n + 1] == Do(r[n], a[n]) && Roomy(r[n])
  }

  /** A run in which no link count reaches the end of its range. */
  ghost predicate IsRun(r: seq<State>, a: seq<Step>) {
    |r| == |a| + 1 && Fresh(r[0]) && forall n: nat :: Linked(r, a, n)
  }

  lemma {:induction false} RunInv(r: seq<State>, a: seq<Step>, n: nat)
    requires IsRun(r, a) && n < |r|
    ensures Inv(r[n])
  {
    if n == 0 {
      FreshInv(r[0]);
    } else {
      RunInv(r, a, n - 1);
      assert Linked(r, a, n - 1);
      StepInv(r[n - 1], a[n - 1]);
    }
  }

  /** In every state of every run, an inode in use has at least as many links as it has
      names and linked children's "..". */
  lemma LinksSuffice(r: seq<State>, a: seq<Step>, n: nat, i: nat)
    requires IsRun(r, a) && n < |r| && 0 < i < |r[n].t|
    ensures Count(r[n].t, i) <= LinksOf(r[n].t[i])
  {
    RunInv(r, a, n);
    assert Balanced(r[n].t, r[n].links, r[n].drops, i);
  }

  /** No name refers to a freed inode, and neither panic can be reached through one. */
  lemma NamesNeverDangle(r: seq<State>, a: seq<Step>, n: nat, d: nat, k: nat)
    requires IsRun(r, a) && n < |r| && d < |r[n].t| && r[n].t[d].kind == Dir && 2 <= k < |r[n].t[d].es|
          && r[n].t[d].es[k].inum != 0
    ensures r[n].t[d].es[k].inum < |r[n].t| && r[n].t[r[n].t[d].es[k].inum].kind != Free
    ensures !LookPanics(r[n], d, k) && !UnlinkPanics(r[n], d, k)
  {
    RunInv(r, a, n);
    NamedIsAlive(r[n], d, k);
  }

  /** The ".." of a directory that has a name is the directory that names it, and looking it up does not panic. */
  lemma DotDotOfNamed(r: seq<State>, a: seq<Step>, n: nat, d: nat, k: nat)
    requires IsRun(r, a) && n < |r| && d < |r[n].t| && r[n].t[d].kind == Dir && 2 <= k < |r[n].t[d].es|
    requires var c := r[n].t[d].es[k].inum; 0 < c < |r[n].t| && r[n].t[c].kind == Dir
    ensures UpOf(r[n].t[r[n].t[d].es[k].inum]) == d && !LookPanics(r[n], r[n].t[d].es[k].inum, 1)
  {
    RunInv(r, a, n);
    assert DirOk(r[n].t, d) && EntryOk(r[n].t, d, r[n].t[d].es[k]);
  }

  /** The root is never freed. */
  lemma RootStays(r: seq<State>, a: seq<Step>, n: nat)
    requires IsRun(r, a) && n < |r|
    ensures ROOT < |r[n].t| && r[n].t[ROOT].kind == Dir && r[n].t[ROOT].nlink >= 1
  {
    RunInv(r, a, n);
    assert Balanced(r[n].t, r[n].links, r[n].drops, ROOT);
  }

  /** At the end of the range the count wraps: sys_link's increment keeps the balance
      exactly below it. */
  lemma IncrementIff(s: State, i: nat)
    requires Inv(s) && Can(s, LinkInc(i)) && s.t[i].nlink <= SHORT_MAX
    ensures var s2 := Do(s, LinkInc(i)); Balanced(s2.t, s2.links, s2.drops, i) <==> s.t[i].nlink < SHORT_MAX
  {
    assert Balanced(s.t, s.links, s.drops, i);
    CountSet(s.t, i, SetLinks(s.t[i], Inc(s.t[i].nlink)), i);
  }

  // ------------------------------------------------------------ a lost ".."

  ghost predicate Goes(s: State, a: Step, s2: State) {
    Can(s, a) && Do(s, a) == s2 && Roomy(s)
  }

  function At(root: Ino, a: Ino, b: Ino, refs: seq<nat>, drops: multiset<nat>): State {
    State([Ino(Free, 0, []), root, a, b], refs, multiset{}, drops)
  }

  /** A directory without names, and one with a single place for a name. */
  function Bare(nlink: int, i: nat, up: nat): Ino {
    Ino(Dir, nlink, [Entry(i, "."), Entry(up, "..")])
  }

  function With(nlink: int, i: nat, up: nat, e: Entry): Ino {
    Ino(Dir, nlink, [Entry(i, "."), Entry(up, ".."), e])
  }

  /** The states of the run below: root, a (inode 2) and b (inode 3). */
  function Lost(n: nat): State {
    var F, a, b := Ino(Free, 0, []), Entry(2, "a"), Entry(3, "b");
    match n
    case 0 => At(Bare(1, 1, 1), F, F, [0, 0, 0, 0], multiset{})
    case 1 => At(Bare(1, 1, 1), F, F, [0, 1, 0, 0], multiset{})
    case 2 => At(With(2, 1, 1, a), Bare(1, 2, 1), F, [0, 1, 1, 0], multiset{})
    case 3 => At(With(2, 1, 1, a), With(2, 2, 1, b), Bare(1, 3, 2), [0, 1, 1, 1], multiset{})
    case 4 => At(With(2, 1, 1, a), With(1, 2, 1, NONE), Bare(1, 3, 2), [0, 1, 1, 2], multiset{3})
    case 5 => At(With(2, 1, 1, a), With(1, 2, 1, NONE), Bare(0, 3, 2), [0, 1, 1, 2], multiset{})
    case 6 => At(With(1, 1, 1, NONE), With(1, 2, 1, NONE), Bare(0, 3, 2), [0, 1, 2, 2], multiset{2})
    case 7 => At(With(1, 1, 1, NONE), With(0, 2, 1, NONE), Bare(0, 3, 2), [0, 1, 2, 2], multiset{})
    case 8 => At(With(1, 1, 1, NONE), With(0, 2, 1, NONE), Bare(0, 3, 2), [0, 1, 1, 2], multiset{})
    case _ => At(With(1, 1, 1, NONE), F, Bare(0, 3, 2), [0, 1, 0, 2], multiset{})
  }

  /** mkdir a, mkdir a/b, unlink a/b, unlink a, and the last reference to a is dropped. */
  function Losing(n: nat): Step {
    match n
    case 0 => GetRoot
    case 1 => Create(1, "a", Dir, 2)
    case 2 => Create(2, "b", Dir, 3)
    case 3 => Unlink(2, 2)
    case 4 => Drop(3)
    case 5 => Unlink(1, 2)
    case 6 => Drop(2)
    case _ => Put(2, true)
  }

  lemma MkdirIn(s: State, s2: State, d: nat, n: int, up: nat, name: string, c: nat)
    requires |s.ref| == |s.t| == 4 && IsDir(s, d) && d > 0 && up > 0 && 0 < c < 4 && c != d
          && s.t[c] == Ino(Free, 0, []) && s.t[d] == Bare(n, d, up)
    requires |name| == 1 && name != "." && n < 9 && Roomy(s)
    requires s2.t == s.t[c := Bare(1, c, d)][d := With(n + 1, d, up, Entry(c, name))]
    requires s2.ref == s.ref[c := s.ref[c] + 1] && s2.links == s.links && s2.drops == s.drops
    ensures Goes(s, Create(d, name, Dir, c), s2)
  {
    var es := s.t[d].es;
    assert Vacancy(es, 0) == Vacancy(es, 1) == Vacancy(es, 2) == 2;
    assert forall k: nat :: !Directory.Named(es, name, k);
    assert es + [Entry(c, name)] == With(n + 1, d, up, Entry(c, name)).es;
  }

  lemma RmdirIn(s: State, s2: State, d: nat, n: int, up: nat, e: Entry)
    requires |s.ref| == |s.t| == 4 && IsDir(s, d) && d != 0 && 0 < e.inum < 4 && e.inum != d
          && s.t[d] == With(n, d, up, e) && Roomy(s)
    requires s.t[e.inum].kind == Dir && s.t[e.inum].nlink >= 1 && Empty(s.t[e.inum].es)
    requires s2.t == s.t[d := With(n - 1, d, up, NONE)]
    requires s2.ref == s.ref[e.inum := s.ref[e.inum] + 1] && s2.links == s.links
          && s2.drops == s.drops + multiset{e.inum}
    ensures Goes(s, Unlink(d, 2), s2)
  {
    assert s.t[d].es[2 := NONE] == With(n - 1, d, up, NONE).es;
  }

  lemma LosingMakes()
    ensures Fresh(Lost(0)) && Goes(Lost(0), GetRoot, Lost(1))
    ensures Goes(Lost(1), Losing(1), Lost(2)) && Goes(Lost(2), Losing(2), Lost(3))
  {
    assert Do(Lost(0), GetRoot) == Lost(1);
    assert Lost(2).t == Lost(1).t[2 := Bare(1, 2, 1)][1 := With(2, 1, 1, Entry(2, "a"))];
    assert Lost(2).ref == Lost(1).ref[2 := 1];
    MkdirIn(Lost(1), Lost(2), 1, 1, 1, "a", 2);
    assert Lost(3).t == Lost(2).t[3 := Bare(1, 3, 2)][2 := With(2, 2, 1, Entry(3, "b"))];
    assert Lost(3).ref == Lost(2).ref[3 := 1];
    MkdirIn(Lost(2), Lost(3), 2, 1, 1, "b", 3);
  }

  lemma LosingUnlinks()
    ensures Goes(Lost(3), Losing(3), Lost(4)) && Goes(Lost(5), Losing(5), Lost(6))
  {
    assert Lost(4).t == Lost(3).t[2 := With(1, 2, 1, NONE)];
    assert Lost(4).ref == Lost(3).ref[3 := 2];
    RmdirIn(Lost(3), Lost(4), 2, 2, 1, Entry(3, "b"));
    assert Lost(6).t == Lost(5).t[1 := With(1, 1, 1, NONE)];
    assert Lost(6).ref == Lost(5).ref[2 := 2];
    RmdirIn(Lost(5), Lost(6), 1, 2, 1, Entry(2, "a"));
  }

  lemma LosingDrops()
    ensures Goes(Lost(4), Losing(4), Lost(5))
  {
    assert Do(Lost(4), Losing(4)) == Lost(5);
  }

  lemma LosingDropsUpper()
    ensures Goes(Lost(6), Losing(6), Lost(7))
  {
    assert Do(Lost(6), Losing(6)) == Lost(7);
  }

  lemma LosingPuts()
    ensures Goes(Lost(7), Losing(7), Lost(8)) && Goes(Lost(8), Losing(8), Lost(9)) && LookPanics(Lost(9), 3, 1)
  {
    assert Do(Lost(7), Losing(7)) == Lost(8);
    assert Do(Lost(8), Losing(8)) == Lost(9);
  }

  lemma LosingGoes(n: nat)
    requires n < 9
    ensures Goes(Lost(n), Losing(n), Lost(n + 1))
  {
    if n <= 2 { LosingMakes(); }
    else if n == 3 || n == 5 { LosingUnlinks(); }
    else if n == 4 { LosingDrops(); }
    else if n == 6 { LosingDropsUpper(); }
    else { LosingPuts(); }
  }

  /** Steps that go on from one another make a run. */
  lemma Assembled(r: seq<State>, a: seq<Step>)
    requires |r| == |a| + 1 && Fresh(r[0]) && forall n :: 0 <= n < |a| ==> Goes(r[n], a[n], r[n + 1])
    ensures IsRun(r, a)
  {
    forall n: nat ensures Linked(r, a, n) {
      if Follows(r, a, n) { assert Goes(r[n], a[n], r[n + 1]); }
    }
  }

  /** A process inside a/b, from which both directories are removed, is left with a ".."
      that leads to a free inode. */
  lemma DotDotDangles() returns (r: seq<State>, a: seq<Step>)
    ensures IsRun(r, a) && |r| == 10 && LookPanics(r[9], 3, 1)
  {
    r, a := seq(10, (n: nat) => Lost(n)), seq(9, (n: nat) => Losing(n));
    forall n | 0 <= n < 9 ensures Goes(r[n], a[n], r[n + 1]) { LosingGoes(n); }
    LosingMakes();
    LosingPuts();
    Assembled(r, a);
  }
}
