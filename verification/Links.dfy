/**
 * Inodes, link counts and directory entries under create, link, unlink, lookups and
 * iput (sysfile.c, fs.c).  A step is what one system call does while it holds the
 * inode locks it needs; sys_link counts first and enters the name later, and
 * sys_unlink clears the name first and counts later.
 */
module Links {
  import opened Directory

  const ROOT: nat := 1
  /** nlink is a short. */
  const SHORT_MAX: int := 32767

  datatype Kind = Free | File | Dev | Dir

  datatype Ino = Ino(kind: Kind, nlink: int, es: seq<Entry>)

  /** `ref` counts references to the in-memory inode; `links` holds an inode for every
      sys_link between its increment and the new name, `drops` one for every sys_unlink
      between the cleared name and its decrement. */
  datatype State = State(t: seq<Ino>, ref: seq<nat>, links: multiset<nat>, drops: multiset<nat>)

  function Inc(n: int): int {
    if n == SHORT_MAX then -SHORT_MAX - 1 else n + 1
  }

  /** The steps.  `valid` says whether iput finds the inode read in. */
  datatype Step =
    | GetRoot
    | Dup(i: nat)
    | Look(d: nat, k: nat)
    | Put(i: nat, valid: bool)
    | LinkInc(i: nat)
    | LinkEnter(i: nat, d: nat, name: string)
    | LinkUndo(i: nat)
    | Unlink(d: nat, k: nat)
    | Drop(i: nat)
    | Create(d: nat, name: string, kind: Kind, c: nat)

  predicate IsDir(s: State, d: nat) {
    d < |s.t| && d < |s.ref| && s.ref[d] > 0 && s.t[d].kind == Dir
  }

  predicate Entered(s: State, d: nat, k: nat) {
    IsDir(s, d) && k < |s.t[d].es| && s.t[d].es[k].inum != 0 && s.t[d].es[k].inum < |s.t| && s.t[d].es[k].inum < |s.ref|
  }

  /** Looking up entry k of d and locking what it names hits a free inode: "ilock: no type". */
  predicate LookPanics(s: State, d: nat, k: nat) {
    Entered(s, d, k) && s.t[s.t[d].es[k].inum].kind == Free
  }

  /** Taking entry k out of d finds no link left: "unlink: nlink < 1". */
  predicate UnlinkPanics(s: State, d: nat, k: nat) {
    Entered(s, d, k) && k >= 2 && s.t[s.t[d].es[k].inum].nlink < 1
  }

  ghost predicate Can(s: State, a: Step) {
    |s.ref| == |s.t| &&
    match a
    case GetRoot => ROOT < |s.t|
    case Dup(i) => i < |s.t| && s.ref[i] > 0
    case Look(d, k) => Entered(s, d, k) && !LookPanics(s, d, k)
    case Put(i, _) => i < |s.t| && s.ref[i] > 0
    case LinkInc(i) => i < |s.t| && s.ref[i] > 0 && s.t[i].kind != Dir
    case LinkEnter(i, d, name) => i in s.links && IsDir(s, d) && !Has(s.t[d].es, name)
      && Vacancy(s.t[d].es, 0) <= |s.t[d].es|
    case LinkUndo(i) => i in s.links && i < |s.t|
    case Unlink(d, k) =>
      Entered(s, d, k) && k >= 2 && !LookPanics(s, d, k) && !UnlinkPanics(s, d, k)
      && (s.t[s.t[d].es[k].inum].kind == Dir ==> Empty(s.t[s.t[d].es[k].inum].es))
    case Drop(i) => i in s.drops && i < |s.t|
    case Create(d, name, kind, c) =>
      IsDir(s, d) && !Has(s.t[d].es, name) && Vacancy(s.t[d].es, 0) <= |s.t[d].es|
      && kind != Free && 0 < c < |s.t| && s.t[c].kind == Free
  }

  function SetLinks(x: Ino, n: int): Ino {
    x.(nlink := n)
  }

  /** A new inode; a directory starts with "." and "..". */
  function NewIno(kind: Kind, c: nat, d: nat): Ino {
    Ino(kind, 1, if kind == Dir then [Entry(c, "."), Entry(d, "..")] else [])
  }

  /** d with the name entered in its first empty place. */
  function WithEntry(x: Ino, name: string, c: nat): Ino
    requires Vacancy(x.es, 0) <= |x.es|
  {
    x.(es := Placed(x.es, Vacancy(x.es, 0), Entry(c, name)))
  }

  ghost function Do(s: State, a: Step): State
    requires Can(s, a)
  {
    match a
    case GetRoot => s.(ref := s.ref[ROOT := s.ref[ROOT] + 1])
    case Dup(i) => s.(ref := s.ref[i := s.ref[i] + 1])
    case Look(d, k) => var c := s.t[d].es[k].inum; s.(ref := s.ref[c := s.ref[c] + 1])
    case Put(i, valid) =>
      if valid && s.t[i].nlink == 0 && s.ref[i] == 1 then s.(t := s.t[i := Ino(Free, 0, [])], ref := s.ref[i := 0])
      else s.(ref := s.ref[i := s.ref[i] - 1])
    case LinkInc(i) => s.(t := s.t[i := SetLinks(s.t[i], Inc(s.t[i].nlink))], links := s.links + multiset{i})
    case LinkEnter(i, d, name) => s.(t := s.t[d := WithEntry(s.t[d], name, i)], links := s.links - multiset{i})
    case LinkUndo(i) => s.(t := s.t[i := SetLinks(s.t[i], s.t[i].nlink - 1)], links := s.links - multiset{i})
    case Unlink(d, k) =>
      var c := s.t[d].es[k].inum;
      var x := s.t[d].(es := s.t[d].es[k := NONE]);
      s.(t := s.t[d := if s.t[c].kind == Dir then SetLinks(x, x.nlink - 1)
        else x], ref := s.ref[c := s.ref[c] + 1], drops := s.drops + multiset{c})
    case Drop(i) => s.(t := s.t[i := SetLinks(s.t[i], s.t[i].nlink - 1)], drops := s.drops - multiset{i})
    case Create(d, name, kind, c) =>
      var x := WithEntry(s.t[d], name, c);
      s.(t := s.t[c := NewIno(kind, c, d)][d := if kind == Dir then SetLinks(x, Inc(x.nlink)) else x],
         ref := s.ref[c := s.ref[c] + 1])
  }

  // --------------------------------------------------------------- counting

  function UpOf(x: Ino): nat {
    if x.kind == Dir && |x.es| >= 2 then x.es[1].inum else 0
  }

  function Ups(t: seq<Ino>): seq<nat> {
    seq(|t|, c requires 0 <= c < |t| => UpOf(t[c]))
  }

  /** The weight of the names in one inode. */
  function From(x: Ino, up: seq<nat>, i: nat): nat {
    if x.kind == Dir then Sum(x.es, 2, up, i) else 0
  }

  /** The weight of the names in the first n inodes. */
  function Total(t: seq<Ino>, n: nat, up: seq<nat>, i: nat): nat
    requires n <= |t|
  {
    if n == 0 then 0 else Total(t, n - 1, up, i) + From(t[n - 1], up, i)
  }

  /** Named entries of i, plus the ".." of directories that are named and lie in i. */
  function Count(t: seq<Ino>, i: nat): nat {
    Total(t, |t|, Ups(t), i)
  }

  function LinksOf(x: Ino): int {
    if x.kind == Free then 0 else x.nlink
  }

  lemma {:induction false} TotalSame(t: seq<Ino>, u: seq<Ino>, n: nat, up: seq<nat>, i: nat)
    requires n <= |t| == |u| && forall j :: 0 <= j < n ==> From(t[j], up, i) == From(u[j], up, i)
    ensures Total(t, n, up, i) == Total(u, n, up, i)
  {
    if n > 0 { TotalSame(t, u, n - 1, up, i); }
  }

  lemma {:induction false} TotalSet(t: seq<Ino>, n: nat, up: seq<nat>, d: nat, x: Ino, i: nat)
    requires d < n <= |t|
    ensures Total(t[d := x], n, up, i) == Total(t, n, up, i) - From(t[d], up, i) + From(x, up, i)
    ensures Total(t, n, up, i) >= From(t[d], up, i)
  {
    if d == n - 1 {
      TotalSame(t, t[d := x], n - 1, up, i);
    } else {
      TotalSet(t, n - 1, up, d, x, i);
    }
  }

  /** No inode names c. */
  ghost predicate Nameless(t: seq<Ino>, c: nat) {
    forall d, k :: 0 <= d < |t| && t[d].kind == Dir && 2 <= k < |t[d].es| ==> t[d].es[k].inum != c
  }

  lemma {:induction false} TotalUp(t: seq<Ino>, n: nat, up: seq<nat>, c: nat, x: nat, i: nat)
    requires n <= |t| && c < |up| && c != 0 && Nameless(t, c)
    ensures Total(t, n, up[c := x], i) == Total(t, n, up, i)
  {
    if n > 0 {
      TotalUp(t, n - 1, up, c, x, i);
      if t[n - 1].kind == Dir { SumUp(t[n - 1].es, 2, up, c, x, i); }
    }
  }

  lemma {:induction false} TotalZero(t: seq<Ino>, n: nat, up: seq<nat>, i: nat, d: nat, k: nat)
    requires n <= |t| && Total(t, n, up, i) == 0 && i != 0 && d < n && t[d].kind == Dir && 2 <= k < |t[d].es|
    ensures t[d].es[k].inum != i
  {
    if d == n - 1 { SumZero(t[d].es, 2, up, i, k); } else { TotalZero(t, n - 1, up, i, d, k); }
  }

  /** A named inode is counted. */
  lemma NamedCounts(t: seq<Ino>, d: nat, k: nat, i: nat)
    requires d < |t| && t[d].kind == Dir && 2 <= k < |t[d].es| && t[d].es[k].inum == i != 0
    ensures Count(t, i) >= 1
  {
    if Count(t, i) == 0 { TotalZero(t, |t|, Ups(t), i, d, k); }
  }
}
