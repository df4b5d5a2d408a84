/**
 * Directories as sequences of entries (fs.c, sysfile.c): entry 0 is ".", entry 1
 * is "..", and an entry with inode number 0 is empty.
 */
module Directory {

  datatype Entry = Entry(inum: nat, name: string)

  const NONE := Entry(0, "")

  predicate Named(es: seq<Entry>, name: string, k: nat) {
    k < |es| && es[k].inum != 0 && es[k].name == name
  }

  ghost predicate Has(es: seq<Entry>, name: string) {
    exists k: nat :: Named(es, name, k)
  }

  /** dirlookup: the first entry of that name, or -1. */
  method DirLookup(es: seq<Entry>, name: string) returns (k: int)
    ensures k == -1 <==> !Has(es, name)
    ensures k != -1 ==> k >= 0 && Named(es, name, k) && forall j: nat :: j < k ==> !Named(es, name, j)
  {
    k := 0;
    while k < |es|
      invariant 0 <= k <= |es| && forall j: nat :: j < k ==> !Named(es, name, j)
    {
      if es[k].inum != 0 && es[k].name == name {
        assert Named(es, name, k);
        return;
      }
      k := k + 1;
    }
    return -1;
  }

  /** The place dirlink takes: the first empty entry, or the end. */
  function Vacancy(es: seq<Entry>, k: nat): nat
    requires k <= |es|
    decreases |es| - k
  {
    if k == |es| || es[k].inum == 0 then k else Vacancy(es, k + 1)
  }

  lemma {:induction false} VacancyIs(es: seq<Entry>, k: nat)
    requires k <= |es|
    ensures k <= Vacancy(es, k) <= |es| && (Vacancy(es, k) < |es| ==> es[Vacancy(es, k)].inum == 0)
    ensures forall j | k <= j < Vacancy(es, k) :: es[j].inum != 0
    decreases |es| - k
  {
    if k < |es| && es[k].inum != 0 { VacancyIs(es, k + 1); }
  }

  /** The entries after e has been put at place k, which may be the end. */
  function Placed(es: seq<Entry>, k: nat, e: Entry): seq<Entry>
    requires k <= |es|
  {
    if k == |es| then es + [e] else es[k := e]
  }

  /** dirlink: -1 if the name is there, and otherwise the entry goes to the first empty place. */
  method DirLink(es: seq<Entry>, name: string, inum: nat) returns (r: int, es2: seq<Entry>)
    ensures r == -1 <==> Has(es, name)
    ensures r == -1 ==> es2 == es
    ensures r != -1 ==> r == 0 && Vacancy(es, 0) <= |es| && es2 == Placed(es, Vacancy(es, 0), Entry(inum, name))
    ensures r != -1 ==>
          (Vacancy(es, 0) < |es| ==> es[Vacancy(es, 0)].inum == 0)
          && forall j | 0 <= j < Vacancy(es, 0) :: es[j].inum != 0
    ensures r != -1 && inum != 0 ==> Has(es2, name)
  {
    VacancyIs(es, 0);
    var k := DirLookup(es, name);
    if k != -1 {
      return -1, es;
    }
    var off := 0;
    while off < |es|
      invariant 0 <= off <= |es| && Vacancy(es, 0) == Vacancy(es, off)
    {
      if es[off].inum == 0 {
        break;
      }
      off := off + 1;
    }
    es2 := Placed(es, off, Entry(inum, name));
    assert inum != 0 ==> Named(es2, name, off);
    return 0, es2;
  }

  ghost predicate Empty(es: seq<Entry>) {
    forall k :: 2 <= k < |es| ==> es[k].inum == 0
  }

  /** isdirempty looks at everything behind "." and "..". */
  method IsDirEmpty(es: seq<Entry>) returns (b: bool)
    ensures b <==> Empty(es)
  {
    var off := 2;
    while off < |es|
      invariant 2 <= off && forall k :: 2 <= k < off && k < |es| ==> es[k].inum == 0
    {
      if es[off].inum != 0 {
        return false;
      }
      off := off + 1;
    }
    return true;
  }

  // ------------------------------------------------------------- counting

  /** What an entry adds to the links of inode i: one if it names i, and one more if
      it names a directory whose ".." is i; `up` gives every inode's ".." (or 0). */
  function Weight(e: Entry, up: seq<nat>, i: nat): nat {
    if e.inum == 0 || i == 0 then 0
    else (if e.inum == i then 1 else 0) + (if e.inum < |up| && up[e.inum] == i then 1 else 0)
  }

  /** The weight of the entries from k on. */
  function Sum(es: seq<Entry>, k: nat, up: seq<nat>, i: nat): nat
    decreases |es| - k
  {
    if k >= |es| then 0 else Weight(es[k], up, i) + Sum(es, k + 1, up, i)
  }

  lemma {:induction false} SumSame(es: seq<Entry>, fs: seq<Entry>, k: nat, up: seq<nat>, i: nat)
    requires |es| == |fs| && forall j :: k <= j < |es| ==> es[j] == fs[j]
    ensures Sum(es, k, up, i) == Sum(fs, k, up, i)
    decreases |es| - k
  {
    if k < |es| { SumSame(es, fs, k + 1, up, i); }
  }

  lemma {:induction false} SumSet(es: seq<Entry>, k: nat, j: nat, e: Entry, up: seq<nat>, i: nat)
    requires k <= j < |es|
    ensures Sum(es[j := e], k, up, i) == Sum(es, k, up, i) - Weight(es[j], up, i) + Weight(e, up, i)
    ensures Sum(es, k, up, i) >= Weight(es[j], up, i)
    decreases |es| - k
  {
    if k == j {
      SumSame(es, es[j := e], k + 1, up, i);
    } else {
      SumSet(es, k + 1, j, e, up, i);
    }
  }

  lemma {:induction false} SumAppend(es: seq<Entry>, k: nat, e: Entry, up: seq<nat>, i: nat)
    requires k <= |es|
    ensures Sum(es + [e], k, up, i) == Sum(es, k, up, i) + Weight(e, up, i)
    decreases |es| - k
  {
    if k < |es| {
      SumAppend(es, k + 1, e, up, i);
    } else {
      assert Sum(es + [e], k + 1, up, i) == 0;
    }
  }

  /** Putting an entry into an empty place adds its weight. */
  lemma SumPlaced(es: seq<Entry>, k: nat, j: nat, e: Entry, up: seq<nat>, i: nat)
    requires k <= j <= |es| && (j < |es| ==> es[j].inum == 0)
    ensures Sum(Placed(es, j, e), k, up, i) == Sum(es, k, up, i) + Weight(e, up, i)
  {
    if j == |es| { SumAppend(es, k, e, up, i); } else { SumSet(es, k, j, e, up, i); }
  }

  /** The ".." of an inode nobody names does not matter. */
  lemma {:induction false} SumUp(es: seq<Entry>, k: nat, up: seq<nat>, c: nat, x: nat, i: nat)
    requires c < |up| && forall j :: k <= j < |es| ==> es[j].inum != c || c == 0
    ensures Sum(es, k, up[c := x], i) == Sum(es, k, up, i)
    decreases |es| - k
  {
    if k < |es| { SumUp(es, k + 1, up, c, x, i); }
  }

  lemma {:induction false} SumZero(es: seq<Entry>, k: nat, up: seq<nat>, i: nat, j: nat)
    requires Sum(es, k, up, i) == 0 && k <= j < |es| && i != 0
    ensures es[j].inum != i
    decreases |es| - k
  {
    if k < j { SumZero(es, k + 1, up, i, j); }
  }
}
