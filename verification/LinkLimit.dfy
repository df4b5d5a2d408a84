/**
 * Links that are lost: what is entered in a directory that has been removed but is still in use goes with the
 * directory, and the counts of what it named stay up.  So a link count can reach the end of its range on any disk.
 */
module LinkLimit {
  import opened Directory
  import opened Links
  import opened LinkInv
  import opened LinkRuns

  /** Links that inode j has and does not need. */
  function Excess(s: State, j: nat): int
    requires j < |s.t|
  {
    LinksOf(s.t[j]) - Needed(s.t, s.links, s.drops, j)
  }

  ghost predicate Frees(s: State, c: nat) {
    Inv(s) && c < |s.t| && Can(s, Put(c, true)) && s.t[c].nlink == 0 && s.ref[c] == 1 && s.t[c].kind == Dir
  }

  ghost predicate NothingLost(s: State, c: nat)
    requires Frees(s, c)
  {
    forall j: nat :: 0 < j < |s.t| && j != c ==> Excess(Do(s, Put(c, true)), j) == Excess(s, j)
  }

  /** Freeing an inode leaves every inode with the links that names in it gave. */
  lemma FreeLoses(s: State, c: nat, s2: State, j: nat)
    requires Inv(s) && Can(s, Put(c, true)) && s.t[c].nlink == 0 && s.ref[c] == 1 && 0 < j < |s.t|
    requires s2 == s.(t := s.t[c := Ino(Free, 0, [])], ref := s.ref[c := 0])
    ensures Excess(s2, j) == Excess(s, j) + From(s.t[c], Ups(s.t), j)
  {
    FreeIsNameless(s, c);
    CountSetNameless(s.t, c, Ino(Free, 0, []), j);
  }

  lemma {:induction false} EmptySum(es: seq<Entry>, k: nat, up: seq<nat>, j: nat)
    requires forall i :: k <= i < |es| ==> es[i].inum == 0
    ensures Sum(es, k, up, j) == 0
    decreases |es| - k
  {
    if k < |es| { EmptySum(es, k + 1, up, j); }
  }

  /** No link is lost when a removed directory is freed if and only if nothing had been entered in it. */
  lemma FreeKeepsIff(s: State, c: nat)
    requires Frees(s, c)
    ensures NothingLost(s, c) <==> Empty(s.t[c].es)
  {
    var es := s.t[c].es;
    if Empty(es) {
      forall j: nat | 0 < j < |s.t| && j != c ensures Excess(Do(s, Put(c, true)), j) == Excess(s, j) {
        FreeLoses(s, c, Do(s, Put(c, true)), j);
        EmptySum(es, 2, Ups(s.t), j);
      }
    } else {
      var k :| 2 <= k < |es| && es[k].inum != 0;
      FreeIsNameless(s, c);
      NamedIsAlive(s, c, k);
      var j := es[k].inum;
      FreeLoses(s, c, Do(s, Put(c, true)), j);
      if From(s.t[c], Ups(s.t), j) == 0 { SumZero(es, 2, Ups(s.t), j, k); }
    }
  }

  // ------------------------------------------------------------ reaching the limit

  /** The root with a file f (inode 2) and room for one more name. */
  function RootWith(n: int, e: Entry): Ino {
    Ino(Dir, n, [Entry(1, "."), Entry(1, ".."), Entry(2, "f"), e])
  }

  function World(root: Ino, n: int, d: Ino, refs: seq<nat>, links: multiset<nat>, drops: multiset<nat>): State {
    State([Ino(Free, 0, []), root, Ino(File, n, []), d], refs, links, drops)
  }

  /** Between two rounds: f has n links. */
  function Rest(n: int): State {
    World(RootWith(1, NONE), n, Ino(Free, 0, []), [0, 1, 0, 0], multiset{}, multiset{})
  }

  /** The states of one round. */
  function Round(n: int, k: nat): State {
    var quiet, gone, linked := RootWith(1, NONE), Bare(0, 3, 1), With(0, 3, 1, Entry(2, "x"));
    match k
    case 0 => Rest(n)
    case 1 => World(RootWith(2, Entry(3, "d")), n, Bare(1, 3, 1), [0, 1, 0, 1], multiset{}, multiset{})
    case 2 => World(quiet, n, Bare(1, 3, 1), [0, 1, 0, 2], multiset{}, multiset{3})
    case 3 => World(quiet, n, gone, [0, 1, 0, 2], multiset{}, multiset{})
    case 4 => World(quiet, n, gone, [0, 1, 0, 1], multiset{}, multiset{})
    case 5 => World(quiet, n, gone, [0, 1, 1, 1], multiset{}, multiset{})
    case 6 => World(quiet, n + 1, gone, [0, 1, 1, 1], multiset{2}, multiset{})
    case 7 => World(quiet, n + 1, linked, [0, 1, 1, 1], multiset{}, multiset{})
    case 8 => World(quiet, n + 1, linked, [0, 1, 0, 1], multiset{}, multiset{})
    case _ => Rest(n + 1)
  }

  /** mkdir d and chdir to it, whose reference takes the place of mkdir's; unlink d; link f to x inside d; leave. */
  function Doing(k: nat): Step {
    match k
    case 0 => Create(1, "d", Dir, 3)
    case 1 => Unlink(1, 3)
    case 2 => Drop(3)
    case 3 => Put(3, true)
    case 4 => Look(1, 2)
    case 5 => LinkInc(2)
    case 6 => LinkEnter(2, 3, "x")
    case 7 => Put(2, true)
    case _ => Put(3, true)
  }

  lemma RoundMakes(n: int)
    requires 1 <= n < SHORT_MAX
    ensures Goes(Round(n, 0), Doing(0), Round(n, 1))
  {
    var s := Round(n, 0);
    var es := s.t[1].es;
    assert Vacancy(es, 0) == Vacancy(es, 1) == Vacancy(es, 2) == Vacancy(es, 3) == 3;
    assert forall k: nat :: !Directory.Named(es, "d", k);
    assert es[3 := Entry(3, "d")] == RootWith(2, Entry(3, "d")).es;
    assert Do(s, Doing(0)).t == Round(n, 1).t;
    assert Do(s, Doing(0)).ref == Round(n, 1).ref;
  }

  lemma RoundRemoves(n: int)
    requires 1 <= n < SHORT_MAX
    ensures Goes(Round(n, 1), Doing(1), Round(n, 2)) && Goes(Round(n, 2), Doing(2), Round(n, 3))
  {
    var s := Round(n, 1);
    assert s.t[1].es[3 := NONE] == RootWith(1, NONE).es;
    assert Do(s, Doing(1)).t == Round(n, 2).t && Do(s, Doing(1)).ref == Round(n, 2).ref;
    assert Do(Round(n, 2), Doing(2)).t == Round(n, 3).t;
  }

  lemma RoundHolds(n: int)
    requires 1 <= n < SHORT_MAX
    ensures Goes(Round(n, 3), Doing(3), Round(n, 4))
  {
    assert Do(Round(n, 3), Doing(3)).ref == Round(n, 4).ref;
  }

  lemma RoundFinds(n: int)
    requires 1 <= n < SHORT_MAX
    ensures Goes(Round(n, 4), Doing(4), Round(n, 5))
  {
    assert Do(Round(n, 4), Doing(4)).ref == Round(n, 5).ref;
  }

  lemma RoundCounts(n: int)
    requires 1 <= n < SHORT_MAX
    ensures Goes(Round(n, 5), Doing(5), Round(n, 6))
  {
    assert Do(Round(n, 5), Doing(5)).t == Round(n, 6).t;
  }

  lemma RoundLinks(n: int)
    requires 1 <= n && n + 1 < SHORT_MAX
    ensures Goes(Round(n, 6), Doing(6), Round(n, 7))
  {
    var s := Round(n, 6);
    var es := s.t[3].es;
    assert Vacancy(es, 0) == Vacancy(es, 1) == Vacancy(es, 2) == 2;
    assert forall k: nat :: !Directory.Named(es, "x", k);
    assert es + [Entry(2, "x")] == With(0, 3, 1, Entry(2, "x")).es;
    assert Do(s, Doing(6)).t == Round(n, 7).t;
    assert multiset{2} - multiset{2} == multiset{};
  }

  lemma RoundLeaves(n: int)
    requires 1 <= n && n + 1 < SHORT_MAX
    ensures Goes(Round(n, 7), Doing(7), Round(n, 8)) && Goes(Round(n, 8), Doing(8), Round(n, 9))
  {
    assert Do(Round(n, 7), Doing(7)).ref == Round(n, 8).ref;
    assert Do(Round(n, 8), Doing(8)).t == Round(n, 9).t && Do(Round(n, 8), Doing(8)).ref == Round(n, 9).ref;
  }

  lemma RoundGoes(n: int, k: nat)
    requires 1 <= n < SHORT_MAX && k < 9 && (k >= 6 ==> n + 1 < SHORT_MAX)
    ensures Goes(Round(n, k), Doing(k), Round(n, k + 1))
  {
    if k == 0 { RoundMakes(n); }
    else if k <= 2 { RoundRemoves(n); }
    else if k == 3 { RoundHolds(n); }
    else if k == 4 { RoundFinds(n); }
    else if k == 5 { RoundCounts(n); }
    else if k == 6 { RoundLinks(n); }
    else { RoundLeaves(n); }
  }

  lemma Extended(r: seq<State>, a: seq<Step>, b: Step, s: State)
    requires IsRun(r, a) && Goes(r[|r| - 1], b, s)
    ensures IsRun(r + [s], a + [b])
  {
    forall n: nat ensures Linked(r + [s], a + [b], n) {
      if n < |a| { assert Linked(r, a, n) && Follows(r, a, n); }
    }
  }

  /** The first k steps of a round. */
  lemma {:induction false} Played(r: seq<State>, a: seq<Step>, n: int, k: nat) returns (r2: seq<State>, a2: seq<Step>)
    requires IsRun(r, a) && r[|r| - 1] == Rest(n) && 1 <= n < SHORT_MAX && k <= 9 && (k > 6 ==> n + 1 < SHORT_MAX)
    ensures IsRun(r2, a2) && r2[|r2| - 1] == Round(n, k)
  {
    r2, a2 := r, a;
    if k > 0 {
      r2, a2 := Played(r, a, n, k - 1);
      RoundGoes(n, k - 1);
      Extended(r2, a2, Doing(k - 1), Round(n, k));
      r2, a2 := r2 + [Round(n, k)], a2 + [Doing(k - 1)];
    }
  }

  /** A run after which f has n links. */
  lemma {:induction false} Rounds(n: nat) returns (r: seq<State>, a: seq<Step>)
    requires 1 <= n < SHORT_MAX
    ensures IsRun(r, a) && r[|r| - 1] == Rest(n)
  {
    if n == 1 {
      var s := Rest(1).(ref := [0, 0, 0, 0]);
      assert Fresh(s) && Do(s, GetRoot).ref == Rest(1).ref;
      r, a := [s], [];
      Extended(r, a, GetRoot, Rest(1));
      r, a := [s, Rest(1)], [GetRoot];
      assert [s] + [Rest(1)] == r && [] + [GetRoot] == a;
    } else {
      r, a := Rounds(n - 1);
      r, a := Played(r, a, n - 1, 9);
    }
  }

  /** A run, on a disk with two names, that takes f's link count to the end of its range. The next link makes it
      negative, although f has a name, and taking that name away then panics. */
  lemma LimitReached() returns (r: seq<State>, a: seq<Step>)
    ensures IsRun(r, a)
    ensures var s := r[|r| - 1]; |s.t| == 4 && s.t[2].nlink == SHORT_MAX && Can(s, LinkInc(2))
    ensures UnlinkPanics(Do(r[|r| - 1], LinkInc(2)), ROOT, 2)
  {
    r, a := Rounds(SHORT_MAX - 1);
    r, a := Played(r, a, SHORT_MAX - 1, 6);
  }
}
