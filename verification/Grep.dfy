/**
 * The pattern matcher of grep (grep.c): characters, '.', c*, a leading '^' and
 * a final '$'.  What a pattern means is said by the words it denotes; the
 * matcher is proved to find exactly the texts that hold such a word.
 */
module Grep {

  datatype Item = One(c: char) | Star(c: char) | End

  /** The items of a pattern behind a leading '^'.  A '*' belongs to the
      character before it, whatever that is; '$' is special only at the very end. */
  function Items(re: string): seq<Item> {
    if re == [] then []
    else if |re| >= 2 && re[1] == '*' then [Star(re[0])] + Items(re[2..])
    else if re == "$" then [End]
    else [One(re[0])] + Items(re[1..])
  }

  predicate Fits(c: char, x: char) {
    c == '.' || c == x
  }

  predicate AllFit(c: char, w: string) {
    forall i :: 0 <= i < |w| ==> Fits(c, w[i])
  }

  /** The items denote the word w; `last` says that the text ends behind it. */
  ghost predicate Denotes(p: seq<Item>, w: string, last: bool)
    decreases |p|
  {
    if p == [] then w == []
    else match p[0]
      case One(c) => w != [] && Fits(c, w[0]) && Denotes(p[1..], w[1..], last)
      case Star(c) => exists k | 0 <= k <= |w| :: AllFit(c, w[..k]) && Denotes(p[1..], w[k..], last)
      case End => w == [] && last
  }

  /** Some prefix of the text is denoted. */
  ghost predicate Begins(p: seq<Item>, text: string) {
    exists n | 0 <= n <= |text| :: Denotes(p, text[..n], n == |text|)
  }

  ghost predicate Repeats(c: char, p: seq<Item>, text: string, k: nat) {
    k <= |text| && AllFit(c, text[..k]) && Begins(p, text[k..])
  }

  /** Some number of c's, then a word of p. */
  ghost predicate SomeRepeat(c: char, p: seq<Item>, text: string) {
    exists k: nat :: Repeats(c, p, text, k)
  }

  lemma BeginsNone(text: string)
    ensures Begins([], text)
  {
    assert Denotes([], text[..0], 0 == |text|);
  }

  lemma BeginsEnd(text: string)
    ensures Begins([End], text) <==> text == []
  {
    assert Denotes([End], text[..0], 0 == |text|) <==> text == [];
  }

  lemma BeginsOne(c: char, p: seq<Item>, text: string)
    ensures Begins([One(c)] + p, text) <==> text != [] && Fits(c, text[0]) && Begins(p, text[1..])
  {
    var q := [One(c)] + p;
    assert q[1..] == p;
    if Begins(q, text) {
      var n :| 0 <= n <= |text| && Denotes(q, text[..n], n == |text|);
      assert text[..n][1..] == text[1..][..n - 1];
      assert Denotes(p, text[1..][..n - 1], n - 1 == |text[1..]|);
    }
    if text != [] && Fits(c, text[0]) && Begins(p, text[1..]) {
      var n :| 0 <= n <= |text[1..]| && Denotes(p, text[1..][..n], n == |text[1..]|);
      assert text[..n + 1][1..] == text[1..][..n];
      assert Denotes(q, text[..n + 1], n + 1 == |text|);
    }
  }

  lemma BeginsStar(c: char, p: seq<Item>, text: string)
    ensures Begins([Star(c)] + p, text) <==> SomeRepeat(c, p, text)
  {
    var q := [Star(c)] + p;
    assert q[1..] == p;
    if Begins(q, text) {
      var n :| 0 <= n <= |text| && Denotes(q, text[..n], n == |text|);
      var k :| 0 <= k <= n && AllFit(c, text[..n][..k]) && Denotes(p, text[..n][k..], n == |text|);
      assert text[..n][..k] == text[..k] && text[..n][k..] == text[k..][..n - k];
      assert Denotes(p, text[k..][..n - k], n - k == |text[k..]|);
      assert Repeats(c, p, text, k);
    }
    if k: nat :| Repeats(c, p, text, k) {
      var n :| 0 <= n <= |text[k..]| && Denotes(p, text[k..][..n], n == |text[k..]|);
      assert text[..n + k][..k] == text[..k] && text[..n + k][k..] == text[k..][..n];
      assert Denotes(q, text[..n + k], n + k == |text|);
    }
  }

  lemma BeginsHead(re: string, text: string)
    requires re != [] && !(|re| >= 2 && re[1] == '*') && re != "$"
    ensures Begins(Items(re), text) <==> text != [] && Fits(re[0], text[0]) && Begins(Items(re[1..]), text[1..])
  {
    BeginsOne(re[0], Items(re[1..]), text);
  }

  /** matchhere: the pattern's word starts here. */
  method MatchHere(re: string, text: string) returns (b: bool)
    ensures b <==> Begins(Items(re), text)
    decreases |re|, 0
  {
    if re == [] {
      BeginsNone(text);
      return true;
    }
    if |re| >= 2 && re[1] == '*' {
      BeginsStar(re[0], Items(re[2..]), text);
      b := MatchStar(re[0], re[2..], text);
      return;
    }
    if re == "$" {
      BeginsEnd(text);
      return text == [];
    }
    BeginsHead(re, text);
    if text != [] && (re[0] == '.' || re[0] == text[0]) {
      b := MatchHere(re[1..], text[1..]);
      return;
    }
    return false;
  }

  /** matchstar: some number of c's, then the pattern's word. */
  method MatchStar(c: char, re: string, text: string) returns (b: bool)
    ensures b <==> SomeRepeat(c, Items(re), text)
    decreases |re|, 1
  {
    var i := 0;
    while true
      invariant 0 <= i <= |text| && AllFit(c, text[..i])
      invariant forall k: nat :: k < i ==> !Repeats(c, Items(re), text, k)
      decreases |text| - i
    {
      var here := MatchHere(re, text[i..]);
      if here {
        assert Repeats(c, Items(re), text, i);
        return true;
      }
      if !(i < |text| && (text[i] == c || c == '.')) {
        StarStops(c, Items(re), text, i);
        return false;
      }
      assert text[..i + 1] == text[..i] + [text[i]];
      i := i + 1;
    }
  }

  lemma StarStops(c: char, p: seq<Item>, text: string, i: nat)
    requires i <= |text| && (i == |text| || !Fits(c, text[i])) && !Begins(p, text[i..])
    requires forall k: nat :: k < i ==> !Repeats(c, p, text, k)
    ensures forall k: nat :: !Repeats(c, p, text, k)
  {
    forall k: nat ensures !Repeats(c, p, text, k) {
      if i < k <= |text| { assert text[..k][i] == text[i]; }
    }
  }

  /** The text holds, from i to j, a word the pattern denotes; '^' ties i to the start. */
  ghost predicate Occurs(re: string, text: string, i: nat, j: nat) {
    && i <= j <= |text|
    && (if re != [] && re[0] == '^' then i == 0 && Denotes(Items(re[1..]), text[i..j], j == |text|)
        else Denotes(Items(re), text[i..j], j == |text|))
  }

  lemma OccursFrom(re: string, p: seq<Item>, text: string, i: nat)
    requires i <= |text| && (re != [] && re[0] == '^' ==> i == 0)
          && p == if re != [] && re[0] == '^' then Items(re[1..]) else Items(re)
    ensures Begins(p, text[i..]) <==> exists j: nat :: Occurs(re, text, i, j)
  {
    if Begins(p, text[i..]) {
      var n :| 0 <= n <= |text[i..]| && Denotes(p, text[i..][..n], n == |text[i..]|);
      assert text[i..][..n] == text[i..i + n];
      assert Occurs(re, text, i, i + n);
    }
    if j: nat :| Occurs(re, text, i, j) {
      assert text[i..][..j - i] == text[i..j];
      assert Denotes(p, text[i..][..j - i], j - i == |text[i..]|);
    }
  }

  /** match: the text holds a denoted word somewhere, tied by '^' and '$'. */
  method Match(re: string, text: string) returns (b: bool)
    ensures b <==> exists i: nat, j: nat :: Occurs(re, text, i, j)
  {
    if re != [] && re[0] == '^' {
      assert text[0..] == text;
      OccursFrom(re, Items(re[1..]), text, 0);
      b := MatchHere(re[1..], text);
      return;
    }
    var i := 0;
    while true
      invariant 0 <= i <= |text|
      invariant forall k: nat, j: nat :: k < i ==> !Occurs(re, text, k, j)
      decreases |text| - i
    {
      OccursFrom(re, Items(re), text, i);
      b := MatchHere(re, text[i..]);
      if b {
        return;
      }
      if i == |text| {
        assert forall k: nat, j: nat :: Occurs(re, text, k, j) ==> k <= i;
        return;
      }
      i := i + 1;
    }
  }

  // ---------------------------------------------------------------- a final '$'

  /** The items of a pattern that goes on: no '$' is special. */
  function Inner(re: string): seq<Item> {
    if re == [] then []
    else if |re| >= 2 && re[1] == '*' then [Star(re[0])] + Inner(re[2..])
    else [One(re[0])] + Inner(re[1..])
  }

  predicate EndsInDollar(re: string) {
    re != [] && re[|re| - 1] == '$'
  }

  lemma {:induction false} InnerItems(re: string)
    requires !EndsInDollar(re)
    ensures Inner(re) == Items(re)
    decreases |re|
  {
    if |re| >= 2 && re[1] == '*' {
      InnerItems(re[2..]);
    } else if re != [] {
      InnerItems(re[1..]);
    }
  }

  lemma {:induction false} DollarItems(re: string)
    ensures Items(re + "$") == Inner(re) + [End] && Inner(re + "$") == Inner(re) + [One('$')]
    decreases |re|
  {
    var d := re + "$";
    if re == [] {
      assert d == "$" && d[1..] == [];
    } else if |re| >= 2 && re[1] == '*' {
      assert d[2..] == re[2..] + "$";
      DollarItems(re[2..]);
    } else {
      assert d[1..] == re[1..] + "$";
      DollarItems(re[1..]);
    }
  }

  lemma {:induction false} DenotesEnd(p: seq<Item>, w: string, last: bool)
    ensures Denotes(p + [End], w, last) <==> last && Denotes(p, w, last)
    decreases |p|
  {
    var q := p + [End];
    if p != [] {
      assert q[1..] == p[1..] + [End] && q[0] == p[0];
      match p[0]
      case One(c) => if w != [] { DenotesEnd(p[1..], w[1..], last); }
      case Star(c) =>
        forall k | 0 <= k <= |w|
          ensures Denotes(q[1..], w[k..], last) <==> last && Denotes(p[1..], w[k..], last)
        {
          DenotesEnd(p[1..], w[k..], last);
        }
      case End =>
    }
  }

  /** The shortest word, and that it is one. */
  function Shortest(p: seq<Item>): string {
    if p == [] then [] else if p[0].One? then [p[0].c] + Shortest(p[1..]) else Shortest(p[1..])
  }

  lemma {:induction false} ShortestDenoted(p: seq<Item>)
    requires End !in p
    ensures Denotes(p, Shortest(p), true)
  {
    if p != [] {
      ShortestDenoted(p[1..]);
      var w := Shortest(p);
      if p[0].Star? {
        assert AllFit(p[0].c, w[..0]) && w[0..] == w;
      } else {
        assert w[1..] == Shortest(p[1..]);
      }
    }
  }

  lemma {:induction false} NoneShorter(p: seq<Item>, w: string, last: bool)
    requires End !in p && Denotes(p, w, last)
    ensures |w| >= |Shortest(p)|
    decreases |p|
  {
    if p != [] {
      match p[0]
      case One(c) => NoneShorter(p[1..], w[1..], last);
      case Star(c) =>
        var k :| 0 <= k <= |w| && AllFit(c, w[..k]) && Denotes(p[1..], w[k..], last);
        NoneShorter(p[1..], w[k..], last);
    }
  }

  lemma {:induction false} ShortestMore(p: seq<Item>, c: char)
    ensures Shortest(p + [One(c)]) == Shortest(p) + [c]
  {
    if p == [] {
      assert p + [One(c)] == [One(c)];
    } else {
      assert (p + [One(c)])[1..] == p[1..] + [One(c)];
      ShortestMore(p[1..], c);
    }
  }

  lemma {:induction false} InnerNoEnd(re: string)
    ensures End !in Inner(re)
    decreases |re|
  {
    if |re| >= 2 && re[1] == '*' {
      InnerNoEnd(re[2..]);
    } else if re != [] {
      InnerNoEnd(re[1..]);
    }
  }

  /** The pattern behind a '^'. */
  function Body(re: string): string {
    if re != [] && re[0] == '^' then re[1..] else re
  }

  predicate Tied(re: string, i: nat) {
    re != [] && re[0] == '^' ==> i == 0
  }

  lemma OccursIs(re: string, text: string, i: nat, j: nat)
    ensures Occurs(re, text, i, j) <==>
            i <= j <= |text| && Tied(re, i) && Denotes(Items(Body(re)), text[i..j], j == |text|)
  {
  }

  lemma DollarOccurs(re: string, text: string, i: nat, j: nat)
    ensures Occurs(re + "$", text, i, j) <==>
            i <= j == |text| && Tied(re, i) && Denotes(Inner(Body(re)), text[i..j], true)
  {
    var d := re + "$";
    OccursIs(d, text, i, j);
    assert Body(d) == Body(re) + "$" by { if re != [] && re[0] == '^' { assert d[1..] == re[1..] + "$"; } }
    DollarItems(Body(re));
    if i <= j <= |text| { DenotesEnd(Inner(Body(re)), text[i..j], j == |text|); }
  }

  /** A '$' behind the pattern ties the word to the end of the text. */
  ghost predicate TiesToEnd(re: string) {
    forall text, i: nat, j: nat :: Occurs(re + "$", text, i, j) <==> j == |text| && Occurs(re, text, i, j)
  }

  lemma DollarTies(re: string)
    requires !EndsInDollar(re)
    ensures TiesToEnd(re)
  {
    InnerItems(Body(re));
    forall text, i: nat, j: nat
      ensures Occurs(re + "$", text, i, j) <==> j == |text| && Occurs(re, text, i, j)
    {
      DollarOccurs(re, text, i, j);
      OccursIs(re, text, i, j);
    }
  }

  /** In r$$ the first '$' is a character of its own. */
  lemma TwoDollars(r: string, w: string)
    requires w == Shortest(Inner(Body(r)))
    ensures Occurs(r + "$", w, 0, |w|) && !Occurs(r + "$" + "$", w, 0, |w|)
  {
    var p, d := Inner(Body(r)), r + "$";
    InnerNoEnd(Body(r));
    ShortestDenoted(p);
    assert w[0..|w|] == w;
    DollarOccurs(r, w, 0, |w|);
    DollarOccurs(d, w, 0, |w|);
    assert Body(d) == Body(r) + "$" by { if r != [] && r[0] == '^' { assert d[1..] == r[1..] + "$"; } }
    DollarItems(Body(r));
    ShortestMore(p, '$');
    InnerNoEnd(Body(d));
    if Denotes(Inner(Body(d)), w, true) { NoneShorter(Inner(Body(d)), w, true); }
  }

  /** It does so exactly if the pattern does not already end in one. */
  lemma DollarIff(re: string)
    ensures TiesToEnd(re) <==> !EndsInDollar(re)
  {
    if EndsInDollar(re) {
      var r := re[..|re| - 1];
      assert re == r + "$";
      TwoDollars(r, Shortest(Inner(Body(r))));
    } else {
      DollarTies(re);
    }
  }
}
