/**
 * Links never dangle: every step keeps nlink at least the number of names and of
 * linked children's "..", so that an inode that is named is never freed.
 */
module LinkInv {
  import opened Directory
  import opened Links

  predicate EntryOk(t: seq<Ino>, d: nat, e: Entry) {
    e.inum != 0 ==> e.inum < |t| && (t[e.inum].kind == Dir ==> UpOf(t[e.inum]) == d)
  }

  /** "." and ".." are there, and a directory named in d has d as its "..". */
  ghost predicate DirOk(t: seq<Ino>, d: nat) {
    d < |t| && t[d].kind == Dir ==>
      && |t[d].es| >= 2 && t[d].es[0].inum == d && 0 < t[d].es[1].inum < |t|
      && forall k :: 2 <= k < |t[d].es| ==> EntryOk(t, d, t[d].es[k])
  }

  ghost predicate Shape(s: State) {
    && |s.ref| == |s.t| && ROOT < |s.t| && s.t[ROOT].kind == Dir && s.t[0].kind == Free
    && (forall d: nat :: DirOk(s.t, d))
    && (forall i :: i in s.links ==> 0 < i < |s.t| && s.t[i].kind != Dir)
    && (forall i :: i in s.drops ==> 0 < i < |s.t|)
    && (forall i :: 0 <= i < |s.t| && s.ref[i] > 0 ==> s.t[i].kind != Free)
  }

  /** The links that i must have: its names, the ".." of its linked children, one for
      every call under way, and one for being the root. */
  function Needed(t: seq<Ino>, links: multiset<nat>, drops: multiset<nat>, i: nat): int {
    Count(t, i) + links[i] + drops[i] + if i == ROOT then 1 else 0
  }

  predicate Balanced(t: seq<Ino>, links: multiset<nat>, drops: multiset<nat>, i: nat) {
    0 < i < |t| ==> Needed(t, links, drops, i) <= LinksOf(t[i])
  }

  ghost predicate Inv(s: State) {
    Shape(s) && forall i: nat :: Balanced(s.t, s.links, s.drops, i)
  }

  /** No link count is at the end of its range. */
  ghost predicate Roomy(s: State) {
    forall i :: 0 <= i < |s.t| ==> s.t[i].nlink < SHORT_MAX
  }

  /** An inode that is named, or that a call is about to name, is in use and linked. */
  lemma NamedIsAlive(s: State, d: nat, k: nat)
    requires Inv(s) && d < |s.t| && s.t[d].kind == Dir && 2 <= k < |s.t[d].es| && s.t[d].es[k].inum != 0
    ensures var c := s.t[d].es[k].inum; 0 < c < |s.t| && s.t[c].kind != Free && s.t[c].nlink >= 1
  {
    var c := s.t[d].es[k].inum;
    assert DirOk(s.t, d) && EntryOk(s.t, d, s.t[d].es[k]);
    NamedCounts(s.t, d, k, c);
    assert Balanced(s.t, s.links, s.drops, c);
  }

  /** What nobody names can change its ".." without any count changing. */
  lemma CountSet(t: seq<Ino>, d: nat, x: Ino, i: nat)
    requires d < |t| && UpOf(x) == UpOf(t[d])
    ensures Count(t[d := x], i) == Count(t, i) - From(t[d], Ups(t), i) + From(x, Ups(t), i)
    ensures Count(t, i) >= From(t[d], Ups(t), i)
  {
    assert Ups(t[d := x]) == Ups(t);
    TotalSet(t, |t|, Ups(t), d, x, i);
  }

  lemma CountSetNameless(t: seq<Ino>, c: nat, x: Ino, i: nat)
    requires 0 < c < |t| && Nameless(t, c) && From(x, Ups(t)[c := UpOf(x)], i) == 0
    ensures Count(t[c := x], i) == Count(t, i) - From(t[c], Ups(t), i)
    ensures Count(t, i) >= From(t[c], Ups(t), i)
  {
    var up := Ups(t);
    assert Ups(t[c := x]) == up[c := UpOf(x)];
    TotalSet(t, |t|, up[c := UpOf(x)], c, x, i);
    TotalUp(t, |t|, up, c, UpOf(x), i);
    if t[c].kind == Dir { SumUp(t[c].es, 2, up, c, UpOf(x), i); }
  }

  lemma FreeIsNameless(s: State, c: nat)
    requires Inv(s) && 0 < c < |s.t| && LinksOf(s.t[c]) == 0
    ensures Nameless(s.t, c) && c !in s.links && c !in s.drops && c != ROOT
  {
    assert Balanced(s.t, s.links, s.drops, c);
    forall d, k | 0 <= d < |s.t| && s.t[d].kind == Dir && 2 <= k < |s.t[d].es| ensures s.t[d].es[k].inum != c {
      TotalZero(s.t, |s.t|, Ups(s.t), c, d, k);
    }
  }

  // --------------------------------------------------- steps on one inode

  /** Changing nothing but a link count. */
  lemma LinksSet(s: State, i: nat, n: int, links: multiset<nat>, drops: multiset<nat>, s2: State)
    requires Inv(s) && 0 < i < |s.t| && s2 == s.(t := s.t[i := SetLinks(s.t[i], n)], links := links, drops := drops)
    requires s.t[i].kind != Free
    requires n + s.links[i] + s.drops[i] >= s.t[i].nlink + links[i] + drops[i]
    requires forall j :: j != i ==> links[j] == s.links[j] && drops[j] == s.drops[j]
    requires i in links ==> s.t[i].kind != Dir
    ensures Inv(s2)
  {
    ShapeSame(s, i, s2);
    forall j: nat ensures Balanced(s2.t, s2.links, s2.drops, j) {
      assert Balanced(s.t, s.links, s.drops, j);
      if 0 < j < |s.t| { CountSet(s.t, i, SetLinks(s.t[i], n), j); }
    }
  }

  lemma ShapeSame(s: State, i: nat, s2: State)
    requires Shape(s) && i < |s.t| && |s2.t| == |s.t| && s2.ref == s.ref
          && s2.t == s.t[i := SetLinks(s.t[i], s2.t[i].nlink)]
    requires forall j :: j in s2.links ==> 0 < j < |s.t| && s.t[j].kind != Dir
    requires forall j :: j in s2.drops ==> 0 < j < |s.t|
    ensures Shape(s2)
  {
    forall d: nat ensures DirOk(s2.t, d) {
      assert DirOk(s.t, d);
      if d < |s.t| && s.t[d].kind == Dir {
        forall k | 2 <= k < |s.t[d].es|
          ensures EntryOk(s2.t, d, s2.t[d].es[k])
        {
          assert EntryOk(s.t, d, s.t[d].es[k]);
        }
      }
    }
  }

  // ------------------------------------------------- steps on a directory

  /** d keeps "." and ".." and gets entries that fit. */
  lemma ShapeDir(s: State, d: nat, x: Ino, s2: State)
    requires Shape(s) && d < |s.t| && s.t[d].kind == Dir == x.kind && |x.es| >= 2 && |s.t[d].es| >= 2
          && x.es[..2] == s.t[d].es[..2]
    requires forall k :: 2 <= k < |x.es| ==> EntryOk(s.t, d, x.es[k])
    requires s2.t == s.t[d := x] && |s2.ref| == |s2.t|
    requires forall j :: j in s2.links ==> 0 < j < |s.t| && s.t[j].kind != Dir
    requires forall j :: j in s2.drops ==> 0 < j < |s.t|
    requires forall j :: 0 <= j < |s.t| && s2.ref[j] > 0 ==> s.t[j].kind != Free
    ensures Shape(s2) && UpOf(x) == UpOf(s.t[d])
  {
    assert DirOk(s.t, d);
    assert x.es[0] == x.es[..2][0] == s.t[d].es[..2][0] && x.es[1] == x.es[..2][1] == s.t[d].es[..2][1];
    forall e: nat ensures DirOk(s2.t, e) {
      assert DirOk(s.t, e);
      if e < |s.t| && s.t[e].kind == Dir {
        forall k | 2 <= k < |s2.t[e].es|
          ensures EntryOk(s2.t, e, s2.t[e].es[k])
        {
          assert EntryOk(s.t, e, s2.t[e].es[k]);
        }
      }
    }
  }

  /** The first empty place lies behind "." and "..". */
  lemma VacancyBehind(t: seq<Ino>, d: nat)
    requires d < |t| && d != 0 && t[d].kind == Dir && DirOk(t, d)
    ensures 2 <= Vacancy(t[d].es, 0) <= |t[d].es|
         && (Vacancy(t[d].es, 0) < |t[d].es| ==> t[d].es[Vacancy(t[d].es, 0)].inum == 0)
  {
    assert Vacancy(t[d].es, 0) == Vacancy(t[d].es, 1) == Vacancy(t[d].es, 2);
    VacancyIs(t[d].es, 2);
  }

  lemma EnterInv(s: State, i: nat, d: nat, name: string, x: Ino, s2: State)
    requires Inv(s) && Can(s, LinkEnter(i, d, name)) && x == WithEntry(s.t[d], name, i)
    requires s2 == s.(t := s.t[d := x], links := s.links - multiset{i})
    ensures Inv(s2)
  {
    assert DirOk(s.t, d);
    VacancyBehind(s.t, d);
    var k := Vacancy(s.t[d].es, 0);
    forall j | 2 <= j < |x.es| ensures EntryOk(s.t, d, x.es[j]) { if j != k { assert EntryOk(s.t, d, s.t[d].es[j]); } }
    ShapeDir(s, d, x, s2);
    forall j: nat ensures Balanced(s2.t, s2.links, s2.drops, j) {
      assert Balanced(s.t, s.links, s.drops, j);
      if 0 < j < |s.t| {
        CountSet(s.t, d, x, j);
        SumPlaced(s.t[d].es, 2, k, Entry(i, name), Ups(s.t), j);
      }
    }
  }

  lemma UnlinkInv(s: State, d: nat, k: nat, c: nat, x: Ino, s2: State)
    requires Inv(s) && Can(s, Unlink(d, k)) && c == s.t[d].es[k].inum
    requires x == s.t[d].(es := s.t[d].es[k := NONE], nlink := s.t[d].nlink - if s.t[c].kind == Dir then 1 else 0)
    requires s2 == s.(t := s.t[d := x], ref := s.ref[c := s.ref[c] + 1], drops := s.drops + multiset{c})
    ensures Inv(s2)
  {
    assert DirOk(s.t, d) && EntryOk(s.t, d, s.t[d].es[k]);
    forall j | 2 <= j < |x.es| ensures EntryOk(s.t, d, x.es[j]) { if j != k { assert EntryOk(s.t, d, s.t[d].es[j]); } }
    ShapeDir(s, d, x, s2);
    forall j: nat ensures Balanced(s2.t, s2.links, s2.drops, j) {
      assert Balanced(s.t, s.links, s.drops, j);
      if 0 < j < |s.t| {
        CountSet(s.t, d, x, j);
        SumSet(s.t[d].es, 2, k, NONE, Ups(s.t), j);
      }
    }
  }

  // ------------------------------------------------ inodes that come and go

  /** An inode nobody names may become any other. */
  lemma ShapeNameless(s: State, c: nat, x: Ino, s2: State)
    requires Shape(s) && 0 < c < |s.t| && c != ROOT && Nameless(s.t, c) && s2.t == s.t[c := x] && |s2.ref| == |s2.t|
    requires x.kind == Dir ==> |x.es| == 2 && x.es[0].inum == c && 0 < x.es[1].inum < |s.t|
    requires s2.links == s.links && s2.drops == s.drops && c !in s.links
    requires forall j :: 0 <= j < |s.t| && s2.ref[j] > 0 ==> s2.t[j].kind != Free
    ensures Shape(s2)
  {
    forall e: nat ensures DirOk(s2.t, e) {
      assert DirOk(s.t, e);
      if e < |s.t| && e != c && s.t[e].kind == Dir {
        forall k | 2 <= k < |s.t[e].es|
          ensures EntryOk(s2.t, e, s2.t[e].es[k])
        {
          assert EntryOk(s.t, e, s.t[e].es[k]);
        }
      }
    }
  }

  lemma FreeInv(s: State, c: nat, x: Ino, s2: State)
    requires Inv(s) && c < |s.t| && s.ref[c] == 1 && s.t[c].nlink == 0 && x == Ino(Free, 0, [])
    requires s2 == s.(t := s.t[c := x], ref := s.ref[c := 0])
    ensures Inv(s2)
  {
    FreeIsNameless(s, c);
    ShapeNameless(s, c, x, s2);
    forall j: nat ensures Balanced(s2.t, s2.links, s2.drops, j) {
      assert Balanced(s.t, s.links, s.drops, j);
      if 0 < j < |s.t| { CountSetNameless(s.t, c, x, j); }
    }
  }

  /** A new inode, not yet named: it has one link and owes nothing. */
  lemma NewInv(s: State, c: nat, x: Ino, s2: State)
    requires Inv(s) && 0 < c < |s.t| && s.t[c].kind == Free && x.kind != Free && x.nlink == 1
    requires if x.kind == Dir then |x.es| == 2 && x.es[0].inum == c && 0 < x.es[1].inum < |s.t| else x.es == []
    requires s2 == s.(t := s.t[c := x], ref := s.ref[c := s.ref[c] + 1])
    ensures Inv(s2) && Count(s2.t, c) == 0 && c != ROOT
    ensures c !in s.links && c !in s.drops
  {
    FreeIsNameless(s, c);
    ShapeNameless(s, c, x, s2);
    assert Balanced(s.t, s.links, s.drops, c);
    forall j: nat ensures Balanced(s2.t, s2.links, s2.drops, j) {
      assert Balanced(s.t, s.links, s.drops, j);
      if 0 < j < |s.t| { CountSetNameless(s.t, c, x, j); }
    }
    CountSetNameless(s.t, c, x, c);
  }

  lemma CreateInv(s: State, d: nat, name: string, kind: Kind, c: nat, x: Ino, s1: State, s2: State)
    requires Inv(s) && Can(s, Create(d, name, kind, c)) && s.t[d].nlink < SHORT_MAX
    requires x == WithEntry(s.t[d], name, c).(nlink := s.t[d].nlink + if kind == Dir then 1 else 0)
    requires s1 == s.(t := s.t[c := NewIno(kind, c, d)], ref := s.ref[c := s.ref[c] + 1])
          && s2 == s1.(t := s1.t[d := x])
    ensures Inv(s2)
  {
    NewInv(s, c, NewIno(kind, c, d), s1);
    assert DirOk(s1.t, d);
    VacancyBehind(s1.t, d);
    var k := Vacancy(s.t[d].es, 0);
    forall j | 2 <= j < |x.es|
      ensures EntryOk(s1.t, d, x.es[j])
    {
      if j != k { assert EntryOk(s1.t, d, s1.t[d].es[j]); }
    }
    ShapeDir(s1, d, x, s2);
    forall j: nat ensures Balanced(s2.t, s2.links, s2.drops, j) {
      assert Balanced(s1.t, s1.links, s1.drops, j);
      if 0 < j < |s.t| {
        CountSet(s1.t, d, x, j);
        SumPlaced(s1.t[d].es, 2, k, Entry(c, name), Ups(s1.t), j);
        NewWeight(s1.t, c, d, kind, name, j);
      }
    }
  }

  lemma NewWeight(t: seq<Ino>, c: nat, d: nat, kind: Kind, name: string, j: nat)
    requires 0 < c < |t| && t[c] == NewIno(kind, c, d) && c != d && j != 0 && d != 0
    ensures Weight(Entry(c, name), Ups(t), j) == (if j == c then 1 else 0) + (if j == d && kind == Dir then 1 else 0)
  {}
}
