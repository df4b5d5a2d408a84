/** parse_sume of to_ir.c: the text of a program to its bytes. */
module ToIr {
  import opened Words
  import opened Integers
  import opened Sume
  import opened TypeList

  const TOKENS: nat := 0x33

  // The names of the tokens, as in sume_strs.h.

  function ArithName(t: nat): (r: string)
    ensures r != ""
  {
    if t == 0 then "i.const" else if t == 1 then "i.clz" else if t == 2 then "i.ctz"
    else if t == 3 then "i.popcnt" else if t == 4 then "i.add" else if t == 5 then "i.and"
    else if t == 6 then "i.div.s" else if t == 7 then "i.div.u" else if t == 8 then "i.mul" else "i.or"
  }

  function ShiftName(t: nat): (r: string)
    ensures r != ""
  {
    if t == 10 then "i.rem.s" else if t == 11 then "i.rem.u" else if t == 12 then "i.rotl"
    else if t == 13 then "i.rotr" else if t == 14 then "i.shl" else if t == 15 then "i.shr.s"
    else if t == 16 then "i.shr.u" else if t == 17 then "i.sub" else "i.xor"
  }

  function CompareName(t: nat): (r: string)
    ensures r != ""
  {
    if t == 19 then "i.eqz" else if t == 20 then "i.eq" else if t == 21 then "i.ge.s"
    else if t == 22 then "i.ge.u" else if t == 23 then "i.gt.s" else if t == 24 then "i.gt.u"
    else if t == 25 then "i.le.s" else if t == 26 then "i.le.u" else if t == 27 then "i.lt.s"
    else if t == 28 then "i.lt.u" else "i.ne"
  }

  function MemoryName(t: nat): (r: string)
    ensures r != ""
  {
    if t == 30 then "i.ld32" else if t == 31 then "i.ld16.s" else if t == 32 then "i.ld16.u"
    else if t == 33 then "i.ld8.s" else if t == 34 then "i.ld8.u" else if t == 35 then "i.memsz"
    else if t == 36 then "str32" else if t == 37 then "str16" else "str8"
  }

  function BlockName(t: nat): (r: string)
    ensures r != ""
  {
    if t == 39 then "get_l" else if t == 40 then "set_l" else if t == 41 then "trap"
    else if t == 42 then "block" else if t == 43 then "loop" else "br"
  }

  function CallName(t: nat): (r: string)
    ensures r != ""
  {
    if t == 45 then "br_if" else if t == 46 then "ret" else if t == 47 then "end" else if t == 48 then "call"
    else if t == 49 then "v.declfn" else "i.declfn"
  }

  /** The name of a token. */
  function Name(t: nat): (r: string)
    requires t < TOKENS
    ensures r != ""
  {
    if t < 10 then ArithName(t) else if t < 19 then ShiftName(t) else if t < 30 then CompareName(t)
    else if t < 39 then MemoryName(t) else if t < 45 then BlockName(t) else CallName(t)
  }

  /** The table of names, by token. */
  function Table(): (r: seq<string>)
    ensures IsTable(r)
  {
    seq(TOKENS, t requires 0 <= t < TOKENS => Name(t))
  }

  predicate IsTable(names: seq<string>) {
    |names| == TOKENS && forall t | 0 <= t < TOKENS :: names[t] != ""
  }

  type NameTable = s: seq<string> | IsTable(s) witness Table()

  // ---------- names ----------

  /** The text goes on with exactly this word. */
  predicate IsWord(name: string, prog: string, place: nat) {
    var e := place + |name|;
    e <= |prog| && prog[place..e] == name && (e == |prog| || prog[e] == ';' || IsWhitespace(prog[e]))
  }

  /** is_prefix */
  method IsPrefix(name: string, prog: string, place: nat) returns (b: bool)
    requires place <= |prog|
    ensures b <==> IsWord(name, prog, place)
  {
    if |name| > |prog| - place { return false; }
    var i := 0;
    while i < |name|
      invariant i <= |name| && prog[place..place + i] == name[..i]
    {
      if name[i] != prog[place + i] {
        assert prog[place..place + |name|][i] == prog[place + i];
        return false;
      }
      i := i + 1;
    }
    assert name[..i] == name;
    return place + i == |prog| || prog[place + i] == ';' || IsWhitespace(prog[place + i]);
  }

  /** Token t is the first whose name stands here. */
  predicate Stands(names: NameTable, prog: string, place: nat, t: int) {
    0 <= t < |names| && IsWord(names[t], prog, place) && forall j | 0 <= j < t :: !IsWord(names[j], prog, place)
  }

  predicate NoName(names: NameTable, prog: string, place: nat) {
    forall j | 0 <= j < |names| :: !IsWord(names[j], prog, place)
  }

  /** get_next_instr_token */
  method NextToken(names: NameTable, prog: string, place: nat) returns (t: int, p: nat)
    requires place <= |prog|
    ensures t == -1 <==> NoName(names, prog, place)
    ensures t != -1 ==> Stands(names, prog, place, t) && p == place + |names[t]|
  {
    var i := 0;
    while i < |names|
      invariant i <= |names| && forall j | 0 <= j < i :: !IsWord(names[j], prog, place)
    {
      var b := IsPrefix(names[i], prog, place);
      if b { return i, place + |names[i]|; }
      i := i + 1;
    }
    return -1, place;
  }

  // ---------- numbers ----------

  /** char_to_int */
  function DigitOf(c: char): Option<nat> {
    if '0' <= c <= '9' then Some(c as int - '0' as int)
    else if 'A' <= c <= 'Z' then Some(c as int - 'A' as int + 10)
    else if 'a' <= c <= 'z' then Some(c as int - 'a' as int + 10)
    else None
  }

  function Radix(c: char): nat {
    if c == 'b' then 2 else if c == 'o' then 8 else if c == 'x' || c == 'h' then 16 else 10
  }

  function WordEnd(prog: string, place: nat): (r: nat)
    requires place <= |prog|
    ensures place <= r <= |prog|
    decreases |prog| - place
  {
    if place < |prog| && !IsWhitespace(prog[place]) then WordEnd(prog, place + 1) else place
  }

  predicate IsDigit(prog: string, k: nat, radix: nat) {
    k < |prog| && DigitOf(prog[k]).Some? && DigitOf(prog[k]).value < radix
  }

  /** What the characters from lo to hi are worth. */
  function Value(prog: string, lo: nat, hi: nat, radix: nat): nat
    requires lo <= hi <= |prog|
  {
    if lo == hi then 0
    else
      var d := DigitOf(prog[hi - 1]);
      radix * Value(prog, lo, hi - 1, radix) + if d.Some? then d.value else 0
  }

  predicate AllDigits(prog: string, lo: nat, hi: nat, radix: nat) {
    forall k | lo <= k < hi :: IsDigit(prog, k, radix)
  }

  /** A number without sign and the place behind it: a letter for the radix, a first character that need only be a
      letter or digit, and digits up to a blank, which is skipped. */
  function Unsigned(prog: string, a: nat): Option<(nat, nat)>
    requires a < |prog|
  {
    var radix := Radix(prog[a]);
    var f := if radix == 10 then a else a + 1;
    if f >= |prog| || DigitOf(prog[f]).None? then None
    else
      var e := WordEnd(prog, f + 1);
      if !AllDigits(prog, f + 1, e, radix) then None
      else Some((Value(prog, f, e, radix), if e < |prog| then e + 1 else e))
  }

  /** The number the text goes on with, as a word. */
  function NumberAt(prog: string, place: nat): Option<(word, nat)> {
    var neg := place < |prog| && prog[place] == '-';
    var a := if neg then place + 1 else place;
    if a >= |prog| || Unsigned(prog, a).None? then None
    else
      var (v, p) := Unsigned(prog, a).value;
      Some((Wrap(if neg then 0 - v else v), p))
  }

  lemma WrapTimes(x: int, r: nat, v: nat)
    ensures Wrap(Wrap(x) * r + v) == Wrap(x * r + v)
  {
    var q := x / TWO32;
    assert x == q * TWO32 + Wrap(x);
    assert x * r + v == (q * r) * TWO32 + (Wrap(x) * r + v);
    WrapMore(q * r, Wrap(x) * r + v);
  }

  lemma WrapMore(k: int, y: int)
    ensures Wrap(k * TWO32 + y) == Wrap(y)
  {
  }

  lemma WrapNegative(x: int)
    ensures Wrap(0 - Wrap(x)) == Wrap(-x)
  {
    var q, r: int := x / TWO32, Wrap(x);
    assert -x == (-q) * TWO32 + (-r);
    WrapMore(-q, -r);
  }

  /** One more digit. */
  function Shifted(v: word, radix: nat, d: nat): word {
    Wrap(v * radix + d)
  }

  lemma ShiftedValue(prog: string, lo: nat, hi: nat, radix: nat, v: word, d: nat)
    requires lo <= hi < |prog| && v == Wrap(Value(prog, lo, hi, radix)) && DigitOf(prog[hi]) == Some(d)
    ensures Shifted(v, radix, d) == Wrap(Value(prog, lo, hi + 1, radix))
  {
    var x := Value(prog, lo, hi, radix);
    WrapTimes(x, radix, d);
    assert x * radix == radix * x;
  }

  /** get_int behind the sign. */
  method GetDigits(prog: string, a: nat) returns (ok: bool, v: word, p: nat)
    requires a < |prog|
    ensures ok <==> Unsigned(prog, a).Some?
    ensures ok ==> v == Wrap(Unsigned(prog, a).value.0) && p == Unsigned(prog, a).value.1
  {
    v, p := 0, a;
    var radix := Radix(prog[p]);
    if radix != 10 {
      p := p + 1;
      if p >= |prog| { return false, v, p; }
    }
    if DigitOf(prog[p]).None? { return false, v, p; }
    ok, v, p := MoreDigits(prog, p, radix);
  }

  /** The loop over the digits behind the first. */
  method MoreDigits(prog: string, f: nat, radix: nat) returns (ok: bool, v: word, p: nat)
    requires f < |prog| && DigitOf(prog[f]).Some?
    ensures var e := WordEnd(prog, f + 1);
      && (ok <==> AllDigits(prog, f + 1, e, radix))
      && (ok ==> v == Wrap(Value(prog, f, e, radix)) && p == if e < |prog| then e + 1 else e)
  {
    v, p := Shifted(0, radix, DigitOf(prog[f]).value), f + 1;
    ShiftedValue(prog, f, f, radix, 0, DigitOf(prog[f]).value);
    ghost var e := WordEnd(prog, p);
    while p < |prog|
      invariant f < p <= |prog| && WordEnd(prog, p) == e && v == Wrap(Value(prog, f, p, radix))
      invariant AllDigits(prog, f + 1, p, radix)
    {
      if IsWhitespace(prog[p]) { return true, v, p + 1; }
      var d := DigitOf(prog[p]);
      if d.None? || d.value >= radix {
        assert !IsDigit(prog, p, radix) && f < p < e;
        return false, v, p;
      }
      ShiftedValue(prog, f, p, radix, v, d.value);
      v, p := Shifted(v, radix, d.value), p + 1;
    }
    return true, v, p;
  }

  /** get_int */
  method GetInt(prog: string, place: nat) returns (ok: bool, v: word, p: nat)
    ensures ok <==> NumberAt(prog, place).Some?
    ensures ok ==> NumberAt(prog, place) == Some((v, p))
  {
    v, p := 0, place;
    if p >= |prog| { return false, v, p; }
    var neg := prog[p] == '-';
    if neg {
      p := p + 1;
      if p >= |prog| { return false, v, p; }
    }
    ghost var a := p;
    ok, v, p := GetDigits(prog, p);
    if ok && neg {
      WrapNegative(Unsigned(prog, a).value.0);
      v := Wrap(0 - v);
    }
  }

  // ---------- programs ----------

  function FirstName(names: NameTable, prog: string, place: nat, t: nat): (r: int)
    requires t <= |names| && forall j | 0 <= j < t :: !IsWord(names[j], prog, place)
    ensures if r == -1 then NoName(names, prog, place) else Stands(names, prog, place, r)
    decreases |names| - t
  {
    if t == |names| then -1 else if IsWord(names[t], prog, place) then t else FirstName(names, prog, place, t + 1)
  }

  lemma NameIsFirst(names: NameTable, prog: string, place: nat, t: int)
    requires t == -1 ==> NoName(names, prog, place)
    requires t != -1 ==> Stands(names, prog, place, t)
    ensures FirstName(names, prog, place, 0) == t
  {
    var r := FirstName(names, prog, place, 0);
  }

  /** The instruction of token t whose name ends at p, and the place behind it. */
  function InstrOf(prog: string, t: byte, p: nat): Option<(Instr, nat)> {
    if ImmToken(t) then
      var n := NumberAt(prog, Skip(prog, p));
      if n.None? then None else Some((Imm(t, n.value.0), n.value.1))
    else if DeclToken(t) then DeclOf(prog, t, Skip(prog, p))
    else Some((Plain(t), p))
  }

  function DeclOf(prog: string, t: byte, p: nat): Option<(Instr, nat)> {
    var ps := ListAt(prog, p);
    if ps.None? then None
    else
      var ls := ListAt(prog, Skip(prog, ps.value.1));
      if ls.None? then None else Some((Decl(t == I_DECLFN, ps.value.0, ls.value.0), ls.value.1))
  }

  /** The instruction whose name stands at `place`, and the place behind it. */
  function InstrAt(names: NameTable, prog: string, place: nat): Option<(Instr, nat)> {
    var t := FirstName(names, prog, place, 0);
    if t == -1 then None else InstrOf(prog, t, place + |names[t]|)
  }

  lemma InstrIs(names: NameTable, prog: string, place: nat, t: int, p: nat)
    requires t == -1 ==> NoName(names, prog, place)
    requires t != -1 ==> Stands(names, prog, place, t) && p == place + |names[t]|
    ensures InstrAt(names, prog, place) == if t == -1 then None else InstrOf(prog, t, p)
  {
    NameIsFirst(names, prog, place, t);
  }

  lemma InstrMoves(names: NameTable, prog: string, place: nat)
    requires InstrAt(names, prog, place).Some?
    ensures InstrAt(names, prog, place).value.1 > place && WellFormed(InstrAt(names, prog, place).value.0)
  {
  }

  /** The program in the text from `place` on; None if it is none. */
  function Program(names: NameTable, prog: string, place: nat): Option<seq<Instr>>
    decreases |prog| - place
  {
    var p := Skip(prog, place);
    if p >= |prog| then Some([])
    else
      var i := InstrAt(names, prog, p);
      if i.None? then None
      else
        InstrMoves(names, prog, p);
        var rest := Program(names, prog, i.value.1);
        if rest.None? then None else Some([i.value.0] + rest.value)
  }

  /** The bytes of one instruction, in a buffer that is reused. */
  method EncodeOne(names: NameTable, prog: string, place: nat, buf: array<byte>)
    returns (ok: bool, p: nat, len: nat, ghost i: Instr)
    requires place <= |prog| && buf.Length >= 2 * |prog| + 5
    modifies buf
    ensures ok <==> InstrAt(names, prog, place).Some?
    ensures ok ==> InstrAt(names, prog, place) == Some((i, p)) && len <= buf.Length && buf[..len] == Encode(i)
  {
    var t;
    t, p := NextToken(names, prog, place);
    InstrIs(names, prog, place, t, p);
    if t == -1 { return false, p, 0, Plain(0); }
    ok, p, len, i := EncodeRest(prog, p, t, buf);
  }

  /** What follows the name. */
  method EncodeRest(prog: string, place: nat, t: byte, buf: array<byte>)
    returns (ok: bool, p: nat, len: nat, ghost i: Instr)
    requires buf.Length >= 2 * |prog| + 5
    modifies buf
    ensures ok <==> InstrOf(prog, t, place).Some?
    ensures ok ==> InstrOf(prog, t, place) == Some((i, p)) && len <= buf.Length && buf[..len] == Encode(i)
  {
    buf[0] := t;
    if ImmToken(t) {
      p := ConsumeWhitespace(prog, place);
      var v;
      ok, v, p := GetInt(prog, p);
      var b := Le(v);
      buf[1], buf[2], buf[3], buf[4] := b[0], b[1], b[2], b[3];
      i, len := Imm(t, v), 5;
      assert buf[..5] == [t] + b;
    } else if DeclToken(t) {
      p := ConsumeWhitespace(prog, place);
      ok, p, len, i := EncodeDecl(prog, p, t, buf);
    } else {
      ok, p, len, i := true, place, 1, Plain(t);
    }
  }

  lemma DeclBytes(t: byte, ps: seq<Ty>, ls: seq<Ty>, s: seq<byte>, n: nat, m: nat)
    requires DeclToken(t) && 1 + n + m <= |s| && s[0] == t && s[1..1 + n] == PackTypes(ps)
    requires s[1 + n..1 + n + m] == PackTypes(ls)
    ensures s[..1 + n + m] == Encode(Decl(t == I_DECLFN, ps, ls))
  {
    assert s[..1 + n + m] == [t] + s[1..1 + n] + s[1 + n..1 + n + m];
  }

  method EncodeDecl(prog: string, place: nat, t: byte, buf: array<byte>)
    returns (ok: bool, p: nat, len: nat, ghost i: Instr)
    requires buf.Length >= 2 * |prog| + 5 && buf[0] == t && DeclToken(t)
    modifies buf
    ensures ok <==> DeclOf(prog, t, place).Some?
    ensures ok ==> DeclOf(prog, t, place) == Some((i, p)) && len <= buf.Length && buf[..len] == Encode(i)
  {
    i, len := Plain(0), 0;
    var n;
    ok, p, n := GetTypeList(prog, place, buf, 1);
    if ok {
      assert buf[..1][0] == t;
      ok, p, len, i := EncodeLocals(prog, p, t, buf, n, ListAt(prog, place).value.0);
    }
  }

  /** The second list of a declaration. */
  method EncodeLocals(prog: string, place: nat, t: byte, buf: array<byte>, n: nat, ghost ps: seq<Ty>)
    returns (ok: bool, p: nat, len: nat, ghost i: Instr)
    requires buf.Length >= 2 * |prog| + 5 && buf[0] == t && DeclToken(t) && n <= |prog|
    requires buf[1..1 + n] == PackTypes(ps)
    modifies buf
    ensures ok <==> ListAt(prog, Skip(prog, place)).Some?
    ensures ok ==> var (ls, q) := ListAt(prog, Skip(prog, place)).value;
      i == Decl(t == I_DECLFN, ps, ls) && p == q && len <= buf.Length && buf[..len] == Encode(i)
  {
    i, len := Plain(0), 0;
    ghost var s := buf[..];
    p := ConsumeWhitespace(prog, place);
    ghost var second := p;
    ok, p, len := GetTypeList(prog, p, buf, 1 + n);
    if ok {
      ghost var ls, u := ListAt(prog, second).value.0, buf[..];
      assert u[..1 + n] == s[..1 + n] && u[1..1 + n] == u[..1 + n][1..] && s[1..1 + n] == s[..1 + n][1..];
      assert u[0] == u[..1 + n][0];
      DeclBytes(t, ps, ls, u, n, len);
      i, len := Decl(t == I_DECLFN, ps, ls), 1 + n + len;
      assert u[..len] == buf[..len];
    }
  }

  /** `out` has been written, and reading goes on at p. */
  ghost predicate Parsing(names: NameTable, prog: string, p: nat, out: seq<byte>) {
    var whole, rest := Program(names, prog, 0), Program(names, prog, p);
    (whole.Some? <==> rest.Some?) && (rest.Some? ==> EncodeAll(whole.value) == out + EncodeAll(rest.value))
  }

  lemma EncodeCons(i: Instr, rest: seq<Instr>, code: seq<Instr>)
    requires code == [i] + rest
    ensures EncodeAll(code) == Encode(i) + EncodeAll(rest)
  {
    assert code[1..] == rest;
  }

  lemma ProgramCons(names: NameTable, prog: string, p: nat, i: Instr, q: nat)
    requires Skip(prog, p) < |prog| && InstrAt(names, prog, Skip(prog, p)) == Some((i, q))
    ensures var rest := Program(names, prog, q);
            Program(names, prog, p) == if rest.None? then None else Some([i] + rest.value)
  {
    InstrMoves(names, prog, Skip(prog, p));
  }

  lemma ParseOn(names: NameTable, prog: string, p: nat, out: seq<byte>, i: Instr, q: nat, e: seq<byte>)
    requires Parsing(names, prog, p, out) && Skip(prog, p) < |prog| && e == Encode(i)
    requires InstrAt(names, prog, Skip(prog, p)) == Some((i, q))
    ensures Parsing(names, prog, q, out + e)
  {
    ProgramCons(names, prog, p, i, q);
    var rest := Program(names, prog, q);
    if rest.Some? {
      EncodeCons(i, rest.value, [i] + rest.value);
      var y := EncodeAll(rest.value);
      assert out + (e + y) == (out + e) + y;
    }
  }

  lemma ParseEnd(names: NameTable, prog: string, p: nat, out: seq<byte>)
    requires Parsing(names, prog, p, out) && Skip(prog, p) >= |prog|
    ensures Program(names, prog, 0).Some? && EncodeAll(Program(names, prog, 0).value) == out
  {
    assert out + [] == out;
  }

  lemma ParseStart(names: NameTable, prog: string)
    ensures Parsing(names, prog, 0, [])
  {
    var whole := Program(names, prog, 0);
    if whole.Some? { assert [] + EncodeAll(whole.value) == EncodeAll(whole.value); }
  }

  lemma ParseFails(names: NameTable, prog: string, p: nat, out: seq<byte>)
    requires Parsing(names, prog, p, out) && Skip(prog, p) < |prog| && InstrAt(names, prog, Skip(prog, p)).None?
    ensures Program(names, prog, 0).None?
  {
  }

  /** One turn of parse_sume's loop: the bytes e of one instruction, or the end, well or not. */
  method ParseOne(names: NameTable, prog: string, p0: nat, buf: array<byte>, ghost out: seq<byte>)
    returns (more: bool, ok: bool, p: nat, e: seq<byte>)
    requires buf.Length >= 2 * |prog| + 5 && Parsing(names, prog, p0, out)
    modifies buf
    ensures more ==> p0 < |prog| && p > p0 && Parsing(names, prog, p, out + e)
    ensures !more && ok ==> Program(names, prog, 0).Some? && EncodeAll(Program(names, prog, 0).value) == out
    ensures !more && !ok ==> Program(names, prog, 0).None?
  {
    var a := ConsumeWhitespace(prog, p0);
    if a >= |prog| {
      ParseEnd(names, prog, p0, out);
      return false, true, a, [];
    }
    var len;
    ghost var i;
    ok, p, len, i := EncodeOne(names, prog, a, buf);
    if !ok {
      ParseFails(names, prog, p0, out);
      return false, false, p, [];
    }
    e := buf[..len];
    InstrMoves(names, prog, a);
    ParseOn(names, prog, p0, out, i, p, e);
    more := true;
  }

  /** parse_sume: the bytes of the program in the text; fails exactly if there is none. */
  method ParseWith(names: NameTable, prog: string) returns (ok: bool, out: seq<byte>)
    ensures ok <==> Program(names, prog, 0).Some?
    ensures ok ==> out == EncodeAll(Program(names, prog, 0).value)
  {
    var buf := new byte[2 * |prog| + 5];
    var p, more := 0, true;
    out := [];
    ParseStart(names, prog);
    while true
      invariant Parsing(names, prog, p, out)
      decreases |prog| - p
    {
      var e;
      more, ok, p, e := ParseOne(names, prog, p, buf, out);
      if !more { return; }
      out := out + e;
    }
  }

  /** parse_sume, with the names of the language. */
  method ParseSume(prog: string) returns (ok: bool, out: seq<byte>)
    ensures ok <==> Program(Table(), prog, 0).Some?
    ensures ok ==> out == EncodeAll(Program(Table(), prog, 0).value)
  {
    ok, out := ParseWith(Table(), prog);
  }

  lemma {:induction false} ProgramWellFormed(names: NameTable, prog: string, place: nat)
    requires Program(names, prog, place).Some?
    ensures AllWellFormed(Program(names, prog, place).value)
    decreases |prog| - place
  {
    var p := Skip(prog, place);
    if p < |prog| {
      InstrMoves(names, prog, p);
      ProgramWellFormed(names, prog, InstrAt(names, prog, p).value.1);
    }
  }

  /** From text to tokens: what the decoder reads from the bytes of a text is the program in it, if and only if that
      does not end in an instruction with an immediate. */
  lemma TextRoundTrip(names: NameTable, prog: string, code: seq<Instr>)
    requires Program(names, prog, 0) == Some(code)
    ensures Scan(EncodeAll(code), 0) == if EndsInImm(code) then None else Some(code)
  {
    ProgramWellFormed(names, prog, 0);
    RoundTrip(code);
    ScanOfEncodeAll(EncodeAll(code), 0, code);
  }
}
