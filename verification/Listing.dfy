/** Programs written as text: what a printer of its own writes, the parser of to_ir.c reads back. */
module Listing {
  import opened Words
  import opened Integers
  import opened Sume
  import opened TypeList
  import opened ToIr

  // ---------- names ----------

  function CharAt(s: string, k: int): int {
    if 0 <= k < |s| then s[k] as int else 0
  }

  /** Five characters of a name, which tell it from the others. */
  function Mark(s: string): int {
    CharAt(s, 0) + 0x80 * CharAt(s, 2) + 0x4000 * CharAt(s, 3) + 0x20_0000 * CharAt(s, 4)
    + 0x1000_0000 * CharAt(s, |s| - 1)
  }

  function TokenOf(k: int): nat {
    if k == 31371031017 then 0 else if k == 33006760425 then 1 else if k == 33006891497 then 2
    else if k == 31375226985 then 3 else if k == 27054911721 then 4 else if k == 27055075561 then 5
    else if k == 31119274601 then 6 else if k == 31656145513 then 7 else if k == 29219452649 then 8
    else if k == 30603524073 then 9 else if k == 31100336489 then 10 else if k == 31637207401 then 11
    else if k == 29236132201 then 12 else if k == 30846744937 then 13 else if k == 29219240425 then 14
    else if k == 31110871529 then 15 else if k == 31647742441 then 16 else if k == 26514127337 then 17
    else if k == 30842551401 then 18 else if k == 33006842601 then 19 else if k == 30335070953 then 20
    else if k == 30968214505 then 21 else if k == 31505085417 then 22 else if k == 30968460265 then 23
    else if k == 31505331177 then 24 else if k == 30968215145 then 25 else if k == 31505086057 then 26
    else if k == 30968460905 then 27 else if k == 31505331817 then 28 else if k == 27113650025 then 29
    else if k == 13530379881 then 30 else if k == 30974490217 then 31 else if k == 31511361129 then 32
    else if k == 30989170281 then 33 else if k == 31526041193 then 34 else if k == 32979384041 then 35
    else if k == 13527480691 then 36 else if k == 14609578355 then 37 else if k == 15033317747 then 38
    else if k == 29219093095 then 39 else if k == 29219093107 then 40 else if k == 30066618612 then 41
    else if k == 28948625378 then 42 else if k == 30066620396 then 43 else if k == 30601642082 then 44
    else if k == 27596058594 then 45 else if k == 31138527858 then 46 else if k == 26843558501 then 47
    else if k == 28992812643 then 48 else if k == 29737185910 then 49 else if k == 29737185897 then 50 else TOKENS
  }

  /** Nothing that ends a word. */
  predicate Solid(s: string) {
    ' ' !in s && ';' !in s && '\n' !in s && '\t' !in s && '\r' !in s && '\U{000B}' !in s && '\U{000C}' !in s
  }

  lemma ArithNameMarks(t: nat)
    requires 0 <= t <= 9
    ensures TokenOf(Mark(ArithName(t))) == t
  {
  }

  lemma ArithNameSolid(t: nat)
    requires 0 <= t <= 9
    ensures Solid(ArithName(t))
  {
  }

  lemma ShiftNameMarks(t: nat)
    requires 10 <= t <= 18
    ensures TokenOf(Mark(ShiftName(t))) == t
  {
  }

  lemma ShiftNameSolid(t: nat)
    requires 10 <= t <= 18
    ensures Solid(ShiftName(t))
  {
  }

  lemma CompareNameMarks(t: nat)
    requires 19 <= t <= 29
    ensures TokenOf(Mark(CompareName(t))) == t
  {
  }

  lemma CompareNameSolid(t: nat)
    requires 19 <= t <= 29
    ensures Solid(CompareName(t))
  {
  }

  lemma MemoryNameMarks(t: nat)
    requires 30 <= t <= 38
    ensures TokenOf(Mark(MemoryName(t))) == t
  {
  }

  lemma MemoryNameSolid(t: nat)
    requires 30 <= t <= 38
    ensures Solid(MemoryName(t))
  {
  }

  lemma BlockNameMarks(t: nat)
    requires 39 <= t <= 44
    ensures TokenOf(Mark(BlockName(t))) == t
  {
  }

  lemma BlockNameSolid(t: nat)
    requires 39 <= t <= 44
    ensures Solid(BlockName(t))
  {
  }

  lemma CallNameMarks(t: nat)
    requires 45 <= t <= 50
    ensures TokenOf(Mark(CallName(t))) == t
  {
  }

  lemma CallNameSolid(t: nat)
    requires 45 <= t <= 50
    ensures Solid(CallName(t))
  {
  }

  lemma NameMarks(t: nat)
    requires t < TOKENS
    ensures TokenOf(Mark(Name(t))) == t
  {
    if t < 10 { ArithNameMarks(t); }
    else if t < 19 { ShiftNameMarks(t); }
    else if t < 30 { CompareNameMarks(t); }
    else if t < 39 { MemoryNameMarks(t); }
    else if t < 45 { BlockNameMarks(t); }
    else { CallNameMarks(t); }
  }

  lemma NameSolid(t: nat)
    requires t < TOKENS
    ensures Solid(Name(t))
  {
    if t < 10 { ArithNameSolid(t); }
    else if t < 19 { ShiftNameSolid(t); }
    else if t < 30 { CompareNameSolid(t); }
    else if t < 39 { MemoryNameSolid(t); }
    else if t < 45 { BlockNameSolid(t); }
    else { CallNameSolid(t); }
  }

  lemma SolidAt(s: string, k: nat)
    requires Solid(s) && k < |s|
    ensures s[k] != ';' && !IsWhitespace(s[k])
  {
    assert s[k] in s;
  }

  lemma NotLonger(prog: string, p: nat, a: string, b: string)
    requires IsWord(a, prog, p) && IsWord(b, prog, p) && Solid(a)
    ensures |a| <= |b|
  {
    if |b| < |a| {
      assert prog[p..p + |a|][|b|] == prog[p + |b|];
      SolidAt(a, |b|);
    }
  }

  /** The names are words, and no two are the same. */
  ghost predicate Tells(names: NameTable) {
    && (forall t | 0 <= t < TOKENS :: Solid(names[t]))
    && forall a, b | 0 <= a < b < TOKENS :: names[a] != names[b]
  }

  /** The names of sume_strs.h do. */
  lemma NamesTell()
    ensures Tells(Table()) && forall t | 0 <= t < TOKENS :: TokenOf(Mark(Table()[t])) == t
  {
    var names := Table();
    forall t | 0 <= t < TOKENS ensures Solid(names[t]) && TokenOf(Mark(names[t])) == t {
      NameSolid(t);
      NameMarks(t);
    }
  }

  /** At most one name stands at a place, also where one begins another. */
  lemma OneName(names: NameTable, prog: string, p: nat, a: nat, b: nat)
    requires Tells(names) && a < TOKENS && b < TOKENS && IsWord(names[a], prog, p) && IsWord(names[b], prog, p)
    ensures a == b
  {
    NotLonger(prog, p, names[a], names[b]);
    NotLonger(prog, p, names[b], names[a]);
    assert names[a] == names[b];
  }

  // ---------- numbers ----------

  predicate CharHere(prog: string, p: nat, s: string, k: nat) {
    p + k < |prog| && k < |s| && prog[p + k] == s[k]
  }

  /** s stands in the text at p. */
  ghost predicate Here(prog: string, p: nat, s: string) {
    p + |s| <= |prog| && forall k: nat | k < |s| :: CharHere(prog, p, s, k)
  }

  lemma HerePart(prog: string, p: nat, a: string, b: string)
    requires Here(prog, p, a + b)
    ensures Here(prog, p, a) && Here(prog, p + |a|, b)
  {
    forall k: nat | k < |a| ensures CharHere(prog, p, a, k) { assert CharHere(prog, p, a + b, k); }
    var q := p + |a|;
    forall k: nat | k < |b| ensures CharHere(prog, q, b, k) { assert CharHere(prog, p, a + b, |a| + k); }
  }

  lemma HereAt(prog: string, p: nat, s: string, k: nat)
    requires Here(prog, p, s) && k < |s|
    ensures p + k < |prog| && prog[p + k] == s[k]
  {
    assert CharHere(prog, p, s, k);
  }

  /** The text is s there. */
  lemma HereIs(prog: string, p: nat, s: string)
    requires Here(prog, p, s)
    ensures prog[p..p + |s|] == s
  {
    forall k | 0 <= k < |s| ensures prog[p + k] == s[k] { HereAt(prog, p, s, k); }
  }

  lemma HereAll(s: string)
    ensures Here(s, 0, s)
  {
  }

  function DigitChar(d: nat): char
    requires d < 16
  {
    if d < 10 then ('0' as int + d) as char else ('a' as int + d - 10) as char
  }

  /** Digits of a number in a radix, at least one. */
  predicate IsNumeral(ds: seq<nat>, radix: nat) {
    ds != [] && radix <= 16 && forall k | 0 <= k < |ds| :: ds[k] < radix
  }

  /** What the digits are worth. */
  function Worth(ds: seq<nat>, radix: nat): nat {
    if ds == [] then 0 else radix * Worth(ds[..|ds| - 1], radix) + ds[|ds| - 1]
  }

  function Chars(ds: seq<nat>): (r: string)
    requires forall k | 0 <= k < |ds| :: ds[k] < 16
    ensures |r| == |ds|
  {
    seq(|ds|, k requires 0 <= k < |ds| => DigitChar(ds[k]))
  }

  function Over(n: nat, radix: nat): nat {
    if radix == 2 then n / 2 else if radix == 8 then n / 8 else if radix == 10 then n / 10 else n / 16
  }

  /** The digits of a number in base 2, 8, 10 or 16. */
  function DigitsOf(n: nat, radix: nat): seq<nat>
    requires radix == 2 || radix == 8 || radix == 10 || radix == 16
  {
    if n < radix then [n] else DigitsOf(Over(n, radix), radix) + [n - radix * Over(n, radix)]
  }

  lemma WorthMore(ds: seq<nat>, d: nat, radix: nat)
    ensures Worth(ds + [d], radix) == radix * Worth(ds, radix) + d
  {
    assert (ds + [d])[..|ds|] == ds;
  }

  lemma OverIs(n: nat, radix: nat, q: nat, d: int)
    requires (radix == 2 || radix == 8 || radix == 10 || radix == 16) && q == Over(n, radix) && d == n - radix * q
    ensures 0 <= d < radix && (n >= radix ==> q < n)
  {
  }

  lemma OneMoreDigit(ds: seq<nat>, radix: nat, d: nat)
    requires IsNumeral(ds, radix) && d < radix
    ensures IsNumeral(ds + [d], radix)
  {
  }

  lemma {:induction false} DigitsWorth(n: nat, radix: nat)
    requires radix == 2 || radix == 8 || radix == 10 || radix == 16
    ensures IsNumeral(DigitsOf(n, radix), radix) && Worth(DigitsOf(n, radix), radix) == n
    decreases n
  {
    var q := Over(n, radix);
    var d := n - radix * q;
    OverIs(n, radix, q, d);
    if n < radix {
      assert DigitsOf(n, radix) == [n] && [n][..0] == [];
      WorthMore([], n, radix);
      assert [] + [n] == [n];
    } else {
      DigitsWorth(q, radix);
      var ds := DigitsOf(q, radix);
      WorthMore(ds, d, radix);
      OneMoreDigit(ds, radix, d);
      assert DigitsOf(n, radix) == ds + [d];
    }
  }

  /** With a letter for the radix: b for 2, o for 8, x or h for 16, none for 10. */
  function UnsignedText(ds: seq<nat>, letter: char): string
    requires IsNumeral(ds, Radix(letter))
  {
    if Radix(letter) == 10 then Chars(ds) else [letter] + Chars(ds)
  }

  function NumberText(ds: seq<nat>, letter: char, neg: bool): string
    requires IsNumeral(ds, Radix(letter))
  {
    if neg then "-" + UnsignedText(ds, letter) else UnsignedText(ds, letter)
  }

  lemma DigitRead(prog: string, k: nat, d: nat, radix: nat)
    requires k < |prog| && d < radix <= 16 && prog[k] == DigitChar(d)
    ensures DigitOf(prog[k]) == Some(d) && IsDigit(prog, k, radix) && !IsWhitespace(prog[k])
    ensures prog[k] != '-' && prog[k] != ';' && (radix <= 10 ==> Radix(prog[k]) == 10)
  {
  }

  lemma DigitHere(prog: string, p: nat, ds: seq<nat>, radix: nat, k: nat)
    requires IsNumeral(ds, radix) && Here(prog, p, Chars(ds)) && k < |ds|
    ensures p + k < |prog| && prog[p + k] == DigitChar(ds[k])
  {
    HereAt(prog, p, Chars(ds), k);
  }

  lemma {:induction false} ValueIs(prog: string, p: nat, ds: seq<nat>, radix: nat, k: nat)
    requires IsNumeral(ds, radix) && Here(prog, p, Chars(ds)) && k <= |ds| && p + k <= |prog|
    ensures Value(prog, p, p + k, radix) == Worth(ds[..k], radix)
  {
    if k > 0 {
      DigitHere(prog, p, ds, radix, k - 1);
      DigitRead(prog, p + k - 1, ds[k - 1], radix);
      ValueIs(prog, p, ds, radix, k - 1);
      assert ds[..k] == ds[..k - 1] + [ds[k - 1]];
      WorthMore(ds[..k - 1], ds[k - 1], radix);
    }
  }

  /** The characters from p to e are digits of n, without a blank. */
  ghost predicate Numeral(prog: string, p: nat, e: nat, radix: nat, n: nat) {
    && p < e <= |prog| && Value(prog, p, e, radix) == n && ToIr.AllDigits(prog, p, e, radix)
    && forall k | p <= k < e :: !IsWhitespace(prog[k])
  }

  lemma DigitsRead(prog: string, p: nat, ds: seq<nat>, radix: nat)
    requires IsNumeral(ds, radix) && Here(prog, p, Chars(ds))
    ensures Numeral(prog, p, p + |ds|, radix, Worth(ds, radix))
  {
    assert ds[..|ds|] == ds;
    ValueIs(prog, p, ds, radix, |ds|);
    forall k | p <= k < p + |ds| ensures IsDigit(prog, k, radix) && !IsWhitespace(prog[k]) {
      DigitHere(prog, p, ds, radix, k - p);
      DigitRead(prog, k, ds[k - p], radix);
    }
  }

  predicate Blank(prog: string, e: nat) {
    e == |prog| || (e < |prog| && IsWhitespace(prog[e]))
  }

  lemma {:induction false} WordEndIs(prog: string, p: nat, e: nat)
    requires p <= e <= |prog| && Blank(prog, e) && forall k | p <= k < e :: !IsWhitespace(prog[k])
    ensures WordEnd(prog, p) == e
    decreases e - p
  {
    if p < e { WordEndIs(prog, p + 1, e); }
  }

  lemma UnsignedAt(prog: string, p: nat, f: nat, e: nat, radix: nat, n: nat)
    requires p < |prog| && radix == Radix(prog[p]) && f == (if radix == 10 then p else p + 1)
    requires Numeral(prog, f, e, radix, n) && Blank(prog, e)
    ensures Unsigned(prog, p) == Some((n, if e < |prog| then e + 1 else e))
  {
    WordEndIs(prog, f + 1, e);
    assert IsDigit(prog, f, radix);
  }

  lemma UnsignedRead(prog: string, p: nat, ds: seq<nat>, letter: char, radix: nat, s: string, e: nat, n: nat)
    requires radix == Radix(letter) && IsNumeral(ds, radix) && s == UnsignedText(ds, letter) && Here(prog, p, s)
    requires e == p + |s| && Blank(prog, e) && n == Worth(ds, radix)
    ensures p < |prog| && prog[p] != '-' && Skip(prog, p) == p
    ensures Unsigned(prog, p) == Some((n, if e < |prog| then e + 1 else e))
  {
    if radix == 10 {
      DigitHere(prog, p, ds, 10, 0);
      DigitRead(prog, p, ds[0], 10);
      DigitsRead(prog, p, ds, radix);
      assert e == p + |ds|;
      UnsignedAt(prog, p, p, e, radix, n);
    } else {
      var f := p + 1;
      HerePart(prog, p, [letter], Chars(ds));
      HereAt(prog, p, [letter], 0);
      DigitsRead(prog, f, ds, radix);
      assert e == f + |ds|;
      UnsignedAt(prog, p, f, e, radix, n);
    }
  }

  lemma NumberAtIs(prog: string, p: nat, neg: bool, a: nat, v: nat, e: nat)
    requires a < |prog| && a == (if neg then p + 1 else p) && (prog[p] == '-' <==> neg)
    requires Unsigned(prog, a) == Some((v, e))
    ensures NumberAt(prog, p) == Some((Wrap(if neg then 0 - v else v), e))
  {
  }

  /** Every number in every radix and with either sign, printed and followed by a blank or the end of the text, is
      read back, modulo 2^32. */
  lemma NumberRead(prog: string, p: nat, ds: seq<nat>, letter: char, neg: bool, s: string, e: nat, n: nat)
    requires IsNumeral(ds, Radix(letter)) && s == NumberText(ds, letter, neg) && Here(prog, p, s)
    requires e == p + |s| && Blank(prog, e) && n == Worth(ds, Radix(letter))
    ensures NumberAt(prog, p) == Some((Wrap(if neg then 0 - n else n), if e < |prog| then e + 1 else e))
    ensures Skip(prog, p) == p
  {
    var t, q := UnsignedText(ds, letter), if e < |prog| then e + 1 else e;
    if neg {
      var a := p + 1;
      HerePart(prog, p, "-", t);
      HereAt(prog, p, "-", 0);
      assert e == a + |t|;
      UnsignedRead(prog, a, ds, letter, Radix(letter), t, e, n);
      NumberAtIs(prog, p, neg, a, n, q);
    } else {
      UnsignedRead(prog, p, ds, letter, Radix(letter), t, e, n);
      NumberAtIs(prog, p, neg, p, n, q);
    }
  }

  /** Every word is read back from its digits. */
  lemma WordRead(prog: string, p: nat, v: word, letter: char, ds: seq<nat>, s: string, e: nat)
    requires ds == DigitsOf(v, Radix(letter)) && IsNumeral(ds, Radix(letter)) && s == NumberText(ds, letter, false)
    requires Here(prog, p, s) && e == p + |s| && Blank(prog, e)
    ensures NumberAt(prog, p) == Some((v, if e < |prog| then e + 1 else e)) && Skip(prog, p) == p
  {
    DigitsWorth(v, Radix(letter));
    NumberRead(prog, p, ds, letter, false, s, e, v);
  }

  // ---------- type lists ----------

  /** The two types that have a name. */
  predicate Writable(ts: seq<Ty>) {
    forall k | 0 <= k < |ts| :: ts[k] == INT_T || ts[k] == FLT_T
  }

  function TypeName(t: Ty): (r: string)
    ensures |r| == 4
  {
    if t == INT_T then "int " else "flt "
  }

  function TypeWords(ts: seq<Ty>): (r: string)
    ensures r != ""
  {
    if ts == [] then ")" else TypeName(ts[0]) + TypeWords(ts[1..])
  }

  lemma TypeRead(prog: string, p: nat, t: Ty)
    requires Here(prog, p, TypeName(t)) && Writable([t])
    ensures p + 3 < |prog| && Word(prog, p) == Some(t) && prog[p] != ')' && Skip(prog, p) == p
    ensures Skip(prog, p + 3) == Skip(prog, p + 4)
  {
    var w := TypeName(t);
    assert [t][0] == t;
    HereAt(prog, p, w, 0);
    HereAt(prog, p, w, 3);
    HereAt(prog, p, w, 1);
    HereAt(prog, p, w, 2);
  }

  lemma TypesStep(prog: string, p: nat, t: Ty, rest: seq<Ty>, q: nat)
    requires p + 3 < |prog| && Word(prog, p) == Some(t) && prog[p] != ')'
    requires TypesOf(prog, Skip(prog, p + 3)) == Some((rest, q))
    ensures TypesOf(prog, p) == Some(([t] + rest, q))
  {
  }

  lemma {:induction false} TypesRead(prog: string, p: nat, ts: seq<Ty>)
    requires Writable(ts) && Here(prog, p, TypeWords(ts))
    ensures TypesOf(prog, p) == Some((ts, p + |TypeWords(ts)|)) && p < |prog| && Skip(prog, p) == p
    decreases |ts|
  {
    if ts == [] {
      HereAt(prog, p, ")", 0);
    } else {
      var t, rest := ts[0], ts[1..];
      HerePart(prog, p, TypeName(t), TypeWords(rest));
      TypeRead(prog, p, t);
      TypesRead(prog, p + 4, rest);
      TypesStep(prog, p, t, rest, p + 4 + |TypeWords(rest)|);
      assert ts == [t] + rest;
    }
  }

  lemma ListRead(prog: string, p: nat, ts: seq<Ty>, x: string)
    requires Writable(ts) && x == "(" + TypeWords(ts) && Here(prog, p, x)
    ensures ListAt(prog, p) == Some((ts, p + |x|)) && Skip(prog, p) == p
  {
    HerePart(prog, p, "(", TypeWords(ts));
    HereAt(prog, p, "(", 0);
    TypesRead(prog, p + 1, ts);
  }

  // ---------- instructions ----------

  function OpOf(i: Instr): byte {
    match i
    case Plain(op) => op
    case Imm(op, _) => op
    case Decl(rt, _, _) => if rt then I_DECLFN else V_DECLFN
  }

  function Decimal(v: word): string {
    DigitsWorth(v, 10);
    NumberText(DigitsOf(v, 10), 'd', false)
  }

  /** What follows the name. */
  function Rest(i: Instr): string {
    match i
    case Plain(_) => "\n"
    case Imm(_, v) => " " + (Decimal(v) + "\n")
    case Decl(_, ps, ls) => " " + (("(" + TypeWords(ps)) + (" " + (("(" + TypeWords(ls)) + "\n")))
  }

  predicate WritableInstr(i: Instr) {
    WellFormed(i) && (i.Decl? ==> Writable(i.params) && Writable(i.locals))
  }

  /** A name followed by a blank is read as its token. */
  lemma NameRead(names: NameTable, prog: string, p: nat, t: nat, e: nat)
    requires Tells(names) && t < TOKENS && Here(prog, p, names[t]) && e == p + |names[t]| < |prog|
          && IsWhitespace(prog[e])
    ensures FirstName(names, prog, p, 0) == t && Skip(prog, p) == p < |prog|
  {
    HereIs(prog, p, names[t]);
    assert IsWord(names[t], prog, p);
    forall j | 0 <= j < t ensures !IsWord(names[j], prog, p) {
      if IsWord(names[j], prog, p) { OneName(names, prog, p, j, t); }
    }
    NameIsFirst(names, prog, p, t);
    SolidAt(names[t], 0);
    HereAt(prog, p, names[t], 0);
  }

  /** Behind the name of its token, i is read, and reading goes on where it would at q. */
  ghost predicate ReadsTo(prog: string, a: nat, i: Instr, q: nat) {
    && a < |prog| && IsWhitespace(prog[a]) && InstrOf(prog, OpOf(i), a).Some?
    && InstrOf(prog, OpOf(i), a).value.0 == i && Skip(prog, InstrOf(prog, OpOf(i), a).value.1) == Skip(prog, q)
  }

  lemma {:induction false} SkipOne(prog: string, a: nat)
    requires a < |prog| && IsWhitespace(prog[a])
    ensures Skip(prog, a) == Skip(prog, a + 1)
  {
  }

  /** Where the parts of a line lie. */
  lemma Parts(prog: string, a: nat, s: string, rest: string)
    requires Here(prog, a, " " + (s + rest)) && rest != ""
    ensures prog[a] == ' ' && Here(prog, a + 1, s) && Here(prog, a + 1 + |s|, rest) && a + 1 + |s| < |prog|
  {
    HerePart(prog, a, " ", s + rest);
    HereAt(prog, a, " ", 0);
    HerePart(prog, a + 1, s, rest);
  }

  lemma ImmRead(prog: string, a: nat, op: byte, v: word, e: nat)
    requires ImmToken(op) && a < e < |prog| && prog[a] == ' '
    requires NumberAt(prog, a + 1) == Some((v, e + 1)) && Skip(prog, a + 1) == a + 1
    ensures ReadsTo(prog, a, Imm(op, v), e + 1)
  {
    SkipOne(prog, a);
  }

  lemma DeclRead(prog: string, a: nat, rt: bool, ps: seq<Ty>, ls: seq<Ty>, b: nat, c: nat)
    requires a < b < c < |prog| && prog[a] == prog[b] == ' ' && prog[c] == '\n' && IsWhitespace(prog[c])
    requires ListAt(prog, a + 1) == Some((ps, b)) && Skip(prog, a + 1) == a + 1
    requires ListAt(prog, b + 1) == Some((ls, c)) && Skip(prog, b + 1) == b + 1
    ensures ReadsTo(prog, a, Decl(rt, ps, ls), c + 1)
  {
    SkipOne(prog, a);
    SkipOne(prog, b);
    SkipOne(prog, c);
  }

  lemma ImmRest(prog: string, a: nat, op: byte, v: word, n: string, e: nat)
    requires ImmToken(op) && n == Decimal(v) && Here(prog, a, " " + (n + "\n")) && e == a + 1 + |n|
    ensures ReadsTo(prog, a, Imm(op, v), e + 1)
  {
    Parts(prog, a, n, "\n");
    HereAt(prog, e, "\n", 0);
    DigitsWorth(v, 10);
    WordRead(prog, a + 1, v, 'd', DigitsOf(v, 10), n, e);
    ImmRead(prog, a, op, v, e);
  }

  lemma DeclParts(prog: string, a: nat, x: string, y: string, b: nat, c: nat)
    requires Here(prog, a, " " + (x + (" " + (y + "\n")))) && b == a + 1 + |x| && c == b + 1 + |y|
    ensures c < |prog| && prog[a] == prog[b] == ' ' && prog[c] == '\n' && Here(prog, a + 1, x) && Here(prog, b + 1, y)
  {
    Parts(prog, a, x, " " + (y + "\n"));
    Parts(prog, b, y, "\n");
    HereAt(prog, c, "\n", 0);
  }

  lemma DeclRest(prog: string, a: nat, rt: bool, ps: seq<Ty>, ls: seq<Ty>, x: string, y: string, b: nat, c: nat)
    requires Writable(ps) && Writable(ls) && x == "(" + TypeWords(ps) && y == "(" + TypeWords(ls)
    requires Here(prog, a, " " + (x + (" " + (y + "\n")))) && b == a + 1 + |x| && c == b + 1 + |y|
    ensures ReadsTo(prog, a, Decl(rt, ps, ls), c + 1)
  {
    DeclParts(prog, a, x, y, b, c);
    ListRead(prog, a + 1, ps, x);
    ListRead(prog, b + 1, ls, y);
    DeclRead(prog, a, rt, ps, ls, b, c);
  }

  lemma RestRead(prog: string, a: nat, i: Instr)
    requires WritableInstr(i) && Here(prog, a, Rest(i))
    ensures ReadsTo(prog, a, i, a + |Rest(i)|)
  {
    match i
    case Plain(op) =>
      HereAt(prog, a, "\n", 0);
      SkipOne(prog, a);
    case Imm(op, v) =>
      var n := Decimal(v);
      var e := a + 1 + |n|;
      ImmRest(prog, a, op, v, n, e);
      assert e + 1 == a + |Rest(i)|;
    case Decl(rt, ps, ls) =>
      var x, y := "(" + TypeWords(ps), "(" + TypeWords(ls);
      var b := a + 1 + |x|;
      var c := b + 1 + |y|;
      DeclRest(prog, a, rt, ps, ls, x, y, b, c);
      assert c + 1 == a + |Rest(i)|;
  }

  // ---------- programs ----------

  /** The program with one instruction on a line. */
  function Text(names: NameTable, code: seq<Instr>): string
    requires AllWellFormed(code)
  {
    if code == [] then "" else (names[OpOf(code[0])] + Rest(code[0])) + Text(names, code[1..])
  }

  predicate WritableProgram(code: seq<Instr>) {
    forall k | 0 <= k < |code| :: WritableInstr(code[k])
  }

  lemma SameProgram(names: NameTable, prog: string, a: nat, b: nat)
    requires Skip(prog, a) == Skip(prog, b)
    ensures Program(names, prog, a) == Program(names, prog, b)
  {
  }

  lemma InstrAtIs(names: NameTable, prog: string, p: nat, t: byte)
    requires t < TOKENS && FirstName(names, prog, p, 0) == t
    ensures InstrAt(names, prog, p) == InstrOf(prog, t, p + |names[t]|)
  {
  }

  lemma InstrRead(names: NameTable, prog: string, p: nat, i: Instr, a: nat, b: nat)
    requires Tells(names) && WellFormed(i) && Here(prog, p, names[OpOf(i)]) && a == p + |names[OpOf(i)]|
    requires ReadsTo(prog, a, i, b)
    ensures Skip(prog, p) == p < |prog| && InstrAt(names, prog, p).Some? && InstrAt(names, prog, p).value.0 == i
    ensures Skip(prog, InstrAt(names, prog, p).value.1) == Skip(prog, b)
  {
    NameRead(names, prog, p, OpOf(i), a);
    InstrAtIs(names, prog, p, OpOf(i));
  }

  lemma LineReads(names: NameTable, prog: string, p: nat, i: Instr, a: nat, b: nat, rest: seq<Instr>)
    requires Tells(names) && WellFormed(i) && Here(prog, p, names[OpOf(i)]) && a == p + |names[OpOf(i)]|
    requires ReadsTo(prog, a, i, b) && Program(names, prog, b) == Some(rest)
    ensures Program(names, prog, p) == Some([i] + rest)
  {
    InstrRead(names, prog, p, i, a, b);
    var q := InstrAt(names, prog, p).value.1;
    SameProgram(names, prog, q, b);
    ProgramCons(names, prog, p, i, q);
  }

  lemma TextParts(prog: string, p: nat, s: string, r: string, t: string, all: string)
    requires Here(prog, p, all) && all == (s + r) + t
    ensures Here(prog, p, s) && Here(prog, p + |s|, r) && Here(prog, p + |s| + |r|, t) && |all| == |s| + |r| + |t|
  {
    HerePart(prog, p, s + r, t);
    HerePart(prog, p, s, r);
  }

  /** The first line of a program, and the others. */
  lemma FirstLine(names: NameTable, prog: string, p: nat, code: seq<Instr>) returns (a: nat, b: nat)
    requires WritableProgram(code) && code != [] && Here(prog, p, Text(names, code))
    ensures Here(prog, p, names[OpOf(code[0])]) && a == p + |names[OpOf(code[0])]| && ReadsTo(prog, a, code[0], b)
    ensures Here(prog, b, Text(names, code[1..])) && p + |Text(names, code)| == b + |Text(names, code[1..])|
  {
    var s, r := names[OpOf(code[0])], Rest(code[0]);
    TextParts(prog, p, s, r, Text(names, code[1..]), Text(names, code));
    a, b := p + |s|, p + |s| + |r|;
    RestRead(prog, a, code[0]);
  }

  /** The line of i runs from p to b, its name up to a. */
  ghost predicate LineAt(names: NameTable, prog: string, p: nat, i: Instr, a: nat, b: nat) {
    && WellFormed(i) && Here(prog, p, names[OpOf(i)]) && a == p + |names[OpOf(i)]| && ReadsTo(prog, a, i, b)
  }

  /** The rest of the text from p on is the lines of the program. */
  ghost predicate LaidOut(names: NameTable, prog: string, p: nat, code: seq<Instr>)
    decreases |code|
  {
    if code == [] then p == |prog|
    else exists a: nat, b: nat :: LineAt(names, prog, p, code[0], a, b) && LaidOut(names, prog, b, code[1..])
  }

  lemma {:induction false} TextLaidOut(names: NameTable, prog: string, p: nat, code: seq<Instr>)
    requires WritableProgram(code) && Here(prog, p, Text(names, code)) && p + |Text(names, code)| == |prog|
    ensures LaidOut(names, prog, p, code)
    decreases |code|
  {
    if code != [] {
      var a, b := FirstLine(names, prog, p, code);
      assert b + |Text(names, code[1..])| == |prog|;
      TextLaidOut(names, prog, b, code[1..]);
      assert LineAt(names, prog, p, code[0], a, b);
    }
  }

  lemma {:induction false} LaidOutReads(names: NameTable, prog: string, p: nat, code: seq<Instr>)
    requires Tells(names) && LaidOut(names, prog, p, code)
    ensures Program(names, prog, p) == Some(code)
    decreases |code|
  {
    if code != [] {
      var a: nat, b: nat :| LineAt(names, prog, p, code[0], a, b) && LaidOut(names, prog, b, code[1..]);
      LaidOutReads(names, prog, b, code[1..]);
      LineReads(names, prog, p, code[0], a, b, code[1..]);
      assert code == [code[0]] + code[1..];
    }
  }

  /** Every program whose types have names, written line by line, is what the parser reads. */
  lemma TextOf(code: seq<Instr>)
    requires WritableProgram(code)
    ensures Program(Table(), Text(Table(), code), 0) == Some(code)
  {
    NamesTell();
    var s := Text(Table(), code);
    HereAll(s);
    TextLaidOut(Table(), s, 0, code);
    LaidOutReads(Table(), s, 0, code);
  }

  // ---------- and no others ----------

  lemma {:induction false} TypesWritable(prog: string, p: nat)
    requires TypesOf(prog, p).Some?
    ensures Writable(TypesOf(prog, p).value.0)
    decreases |prog| - p
  {
    if prog[p] != ')' { TypesWritable(prog, Skip(prog, p + 3)); }
  }

  lemma InstrWritable(names: NameTable, prog: string, p: nat)
    requires InstrAt(names, prog, p).Some?
    ensures WritableInstr(InstrAt(names, prog, p).value.0)
  {
    InstrMoves(names, prog, p);
    var t := FirstName(names, prog, p, 0);
    if DeclToken(t) {
      var a := Skip(prog, p + |names[t]|);
      TypesWritable(prog, Skip(prog, a + 1));
      TypesWritable(prog, Skip(prog, Skip(prog, ListAt(prog, a).value.1) + 1));
    }
  }

  lemma {:induction false} ReadIsWritable(names: NameTable, prog: string, p: nat)
    requires Program(names, prog, p).Some?
    ensures WritableProgram(Program(names, prog, p).value)
    decreases |prog| - p
  {
    var q := Skip(prog, p);
    if q < |prog| {
      InstrWritable(names, prog, q);
      InstrMoves(names, prog, q);
      ReadIsWritable(names, prog, InstrAt(names, prog, q).value.1);
    }
  }

  /** A program has a text if and only if all its types have names. */
  lemma HasText(code: seq<Instr>)
    ensures (exists prog: string :: Program(Table(), prog, 0) == Some(code)) <==> WritableProgram(code)
  {
    if WritableProgram(code) { TextOf(code); }
    if prog: string :| Program(Table(), prog, 0) == Some(code) { ReadIsWritable(Table(), prog, 0); }
  }
}
