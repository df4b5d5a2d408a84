/** Type lists as to_ir.c reads them: blanks, comments and the words "int" and "flt" in parentheses, packed two bits at
    a time into a buffer that holds anything. */
module TypeList {
  import opened Words
  import opened Sume

  const FLT_T: Ty := 2

  predicate IsWhitespace(c: char) {
    c == ' ' || c == '\t' || c == '\n' || c == '\U{000B}' || c == '\U{000C}' || c == '\r'
  }

  /** get_line: behind the next newline, or one behind the end of the text. */
  function LineEnd(prog: string, place: nat): (r: nat)
    ensures r > place
    decreases |prog| - place
  {
    if place < |prog| && prog[place] != '\n' then LineEnd(prog, place + 1) else place + 1
  }

  /** Where blanks and comments end. */
  function Skip(prog: string, place: nat): (r: nat)
    ensures r >= place
    decreases |prog| - place
  {
    if place >= |prog| then place
    else if prog[place] == ';' then Skip(prog, LineEnd(prog, place + 1))
    else if IsWhitespace(prog[place]) then Skip(prog, place + 1)
    else place
  }

  method GetLine(prog: string, place: nat) returns (p: nat)
    ensures p == LineEnd(prog, place)
  {
    p := place;
    while p < |prog| && prog[p] != '\n'
      invariant LineEnd(prog, p) == LineEnd(prog, place)
    {
      p := p + 1;
    }
    p := p + 1;
  }

  /** consume_whitespace */
  method ConsumeWhitespace(prog: string, place: nat) returns (p: nat)
    ensures p == Skip(prog, place)
  {
    p := place;
    while p < |prog|
      invariant Skip(prog, p) == Skip(prog, place)
    {
      if prog[p] == ';' {
        p := GetLine(prog, p + 1);
      } else if IsWhitespace(prog[p]) {
        p := p + 1;
      } else {
        return;
      }
    }
  }

  function Word(prog: string, place: nat): Option<Ty>
    requires place + 3 <= |prog|
  {
    if prog[place] == 'i' && prog[place + 1] == 'n' && prog[place + 2] == 't' then Some(INT_T)
    else if prog[place] == 'f' && prog[place + 1] == 'l' && prog[place + 2] == 't' then Some(FLT_T)
    else None
  }

  /** The types from `place` up to the closing parenthesis, and the place behind it. */
  function TypesOf(prog: string, place: nat): (r: Option<(seq<Ty>, nat)>)
    ensures r.Some? ==> place + 3 * |r.value.0| < r.value.1 <= |prog|
    decreases |prog| - place
  {
    if place < |prog| && prog[place] == ')' then Some(([], place + 1))
    else if place + 3 >= |prog| || Word(prog, place).None? then None
    else
      var rest := TypesOf(prog, Skip(prog, place + 3));
      if rest.None? then None else Some(([Word(prog, place).value] + rest.value.0, rest.value.1))
  }

  /** A whole list: an opening parenthesis, blanks, types. */
  function ListAt(prog: string, place: nat): Option<(seq<Ty>, nat)> {
    if place >= |prog| || prog[place] != '(' then None else TypesOf(prog, Skip(prog, place + 1))
  }

  // ---------- two bits of a byte ----------

  function Digit(b: byte, off: nat): int
    requires off < 4
  {
    b / Pow4(off) % 4
  }

  /** b with the two bits at off cleared and then set to v. */
  function SetDigit(b: byte, off: nat, v: int): (r: byte)
    requires off < 4 && 0 <= v < 4
  {
    DigitRange(b, off, v);
    b - Digit(b, off) * Pow4(off) + v * Pow4(off)
  }

  lemma DigitRange(b: byte, off: nat, v: int)
    requires off < 4 && 0 <= v < 4
    ensures 0 <= b - Digit(b, off) * Pow4(off) + v * Pow4(off) < 256
  {
    AllDigits(b);
    if off == 0 {
    } else if off == 1 {
    } else if off == 2 {
    }
  }

  lemma AllDigits(b: byte)
    ensures b == Digit(b, 0) + 4 * Digit(b, 1) + 16 * Digit(b, 2) + 64 * Digit(b, 3)
  {
    var x: int := b;
    assert x == x % 4 + 4 * (x / 4);
    assert x / 4 == x / 4 % 4 + 4 * (x / 16);
    assert x / 16 == x / 16 % 4 + 4 * (x / 64);
  }

  /** Setting one position leaves the others. */
  lemma SetDigitAt(b: byte, off: nat, v: int, o: nat)
    requires off < 4 && 0 <= v < 4 && o < 4
    ensures Digit(SetDigit(b, off, v), o) == if o == off then v else Digit(b, o)
  {
    AllDigits(b);
    var d0, d1, d2, d3 := Digit(b, 0), Digit(b, 1), Digit(b, 2), Digit(b, 3);
    if off == 0 {
      FourDigits(v, d1, d2, d3);
    } else if off == 1 {
      FourDigits(d0, v, d2, d3);
    } else if off == 2 {
      FourDigits(d0, d1, v, d3);
    } else {
      FourDigits(d0, d1, d2, v);
    }
  }

  // ---------- the buffer ----------

  /** The first n positions of the list packed from `at` on hold ts and zeros behind it. */
  ghost predicate Holds(s: seq<byte>, at: nat, ts: seq<Ty>, n: nat) {
    at + (n + 3) / 4 <= |s| && forall j: nat :: j < n ==> HoldsAt(s, at, ts, j)
  }

  ghost predicate HoldsAt(s: seq<byte>, at: nat, ts: seq<Ty>, j: nat) {
    at + j / 4 < |s| && TwoBits(s, at, j) == TyAt(ts, j)
  }

  /** Position pos is set to v. */
  function Written(s: seq<byte>, at: nat, pos: nat, v: int): seq<byte>
    requires at + pos / 4 < |s| && 0 <= v < 4
  {
    s[at + pos / 4 := SetDigit(s[at + pos / 4], pos % 4, v)]
  }

  lemma WriteHolds(s: seq<byte>, at: nat, ts: seq<Ty>, n: nat, ts': seq<Ty>)
    requires Holds(s, at, ts, n) && at + n / 4 < |s| && ts <= ts' && (ts == ts' || |ts| == n)
    ensures Holds(Written(s, at, n, TyAt(ts', n)), at, ts', n + 1)
  {
    var t := Written(s, at, n, TyAt(ts', n));
    forall j: nat | j < n + 1 ensures HoldsAt(t, at, ts', j) {
      if j < n { assert HoldsAt(s, at, ts, j); }
      SetDigitAt(s[at + n / 4], n % 4, TyAt(ts', n), j % 4);
      assert j == 4 * (j / 4) + j % 4 && n == 4 * (n / 4) + n % 4;
    }
  }

  lemma HeldDigit(s: seq<byte>, at: nat, ts: seq<Ty>, n: nat, k: nat, o: nat)
    requires Holds(s, at, ts, n) && o < 4 && 4 * k + o < n
    ensures at + k < |s| && Digit(s[at + k], o) == TyAt(ts, 4 * k + o)
  {
    assert HoldsAt(s, at, ts, 4 * k + o) && (4 * k + o) / 4 == k && (4 * k + o) % 4 == o;
  }

  /** Whole bytes that hold the list are the packed list. */
  lemma HeldIsPacked(s: seq<byte>, at: nat, ts: seq<Ty>, n: nat)
    requires Holds(s, at, ts, n) && n == 4 * (|ts| / 4 + 1)
    ensures s[at..at + |ts| / 4 + 1] == PackTypes(ts)
  {
    forall k | 0 <= k < |ts| / 4 + 1 ensures s[at + k] == PackByte(ts, k) {
      AllDigits(s[at + k]);
      HeldDigit(s, at, ts, n, k, 0);
      HeldDigit(s, at, ts, n, k, 1);
      HeldDigit(s, at, ts, n, k, 2);
      HeldDigit(s, at, ts, n, k, 3);
    }
  }

  /** One position of the buffer. */
  method Write(ret: array<byte>, at: nat, pos: nat, v: int)
    requires at + pos / 4 < ret.Length && 0 <= v < 4
    modifies ret
    ensures ret[..] == Written(old(ret[..]), at, pos, v)
  {
    ret[at + pos / 4] := SetDigit(ret[at + pos / 4], pos % 4, v);
  }

  /** The end of the list: zeros up to the end of the byte. */
  method Finish(ret: array<byte>, at: nat, ghost ts: seq<Ty>, pos: nat) returns (len: nat)
    requires at + pos / 4 < ret.Length && pos == |ts| && Holds(ret[..], at, ts, pos)
    modifies ret
    ensures len == |ts| / 4 + 1 && at + len <= ret.Length && ret[at..at + len] == PackTypes(ts)
    ensures ret[..at] == old(ret[..at])
  {
    var n, end := pos, 4 * (pos / 4 + 1);
    while n < end
      invariant pos <= n <= end && Holds(ret[..], at, ts, n) && ret[..at] == old(ret[..at])
    {
      WriteHolds(ret[..], at, ts, n, ts);
      Write(ret, at, n, 0);
      n := n + 1;
    }
    HeldIsPacked(ret[..], at, ts, n);
    len := end / 4;
  }

  /** ts has been read and packed, and reading goes on at p. */
  ghost predicate Packing(prog: string, start: nat, p: nat, ts: seq<Ty>, pos: nat, s: seq<byte>, at: nat) {
    Reading(prog, start, p, ts) && |ts| == pos && 3 * pos <= p && Holds(s, at, ts, pos)
  }

  /** One turn of the loop: a word that is a type. */
  method ReadType(prog: string, p: nat, ret: array<byte>, at: nat, pos: nat, ghost start: nat, ghost ts: seq<Ty>)
    returns (ok: bool, q: nat, ghost us: seq<Ty>)
    requires at + |prog| <= ret.Length && Packing(prog, start, p, ts, pos, ret[..], at)
          && (p >= |prog| || prog[p] != ')')
    modifies ret
    ensures ret[..at] == old(ret[..at])
    ensures ok ==> p < q && p < |prog| && Packing(prog, start, q, us, pos + 1, ret[..], at)
    ensures !ok ==> TypesOf(prog, start).None?
  {
    us := ts;
    if p + 3 >= |prog| { return false, p, us; }
    var w := Word(prog, p);
    if w.None? { return false, p, us; }
    us := ts + [w.value];
    ReadOn(prog, start, p, ts);
    WriteHolds(ret[..], at, ts, pos, us);
    assert TyAt(us, pos) == w.value;
    Write(ret, at, pos, w.value);
    q := ConsumeWhitespace(prog, p + 3);
    ok := true;
  }

  lemma ReadEnd(prog: string, start: nat, p: nat, ts: seq<Ty>)
    requires Reading(prog, start, p, ts) && p < |prog| && prog[p] == ')'
    ensures TypesOf(prog, start) == Some((ts, p + 1))
  {
    assert ts + [] == ts;
  }

  /** get_type_list: the list in the text, packed, whatever the buffer held; fails exactly if there is none. */
  method GetTypeList(prog: string, place: nat, ret: array<byte>, at: nat) returns (ok: bool, p: nat, len: nat)
    requires at + |prog| <= ret.Length
    modifies ret
    ensures ok <==> ListAt(prog, place).Some?
    ensures ok ==> var (ts, q) := ListAt(prog, place).value;
      p == q && len == |ts| / 4 + 1 && at + len <= ret.Length && ret[at..at + len] == PackTypes(ts)
    ensures ret[..at] == old(ret[..at])
  {
    if place >= |prog| || prog[place] != '(' { return false, place, 0; }
    p := ConsumeWhitespace(prog, place + 1);
    ghost var start, ts: seq<Ty> := p, [];
    var pos := 0;
    ReadStart(prog, p);
    while p >= |prog| || prog[p] != ')'
      invariant Packing(prog, start, p, ts, pos, ret[..], at) && ret[..at] == old(ret[..at])
      decreases |prog| - p
    {
      ok, p, ts := ReadType(prog, p, ret, at, pos, start, ts);
      if !ok { return false, p, 0; }
      pos := pos + 1;
    }
    ReadEnd(prog, start, p, ts);
    p := p + 1;
    len := Finish(ret, at, ts, pos);
    ok := true;
  }

  /** ts has been read, and reading goes on at p. */
  ghost predicate Reading(prog: string, start: nat, p: nat, ts: seq<Ty>) {
    var whole, rest := TypesOf(prog, start), TypesOf(prog, p);
    whole == if rest.None? then None else Some((ts + rest.value.0, rest.value.1))
  }

  lemma ReadStart(prog: string, p: nat)
    ensures Reading(prog, p, p, [])
  {
    var rest := TypesOf(prog, p);
    if rest.Some? { assert [] + rest.value.0 == rest.value.0; }
  }

  lemma ReadOn(prog: string, start: nat, p: nat, ts: seq<Ty>)
    requires Reading(prog, start, p, ts) && p + 3 < |prog| && prog[p] != ')' && Word(prog, p).Some?
    ensures Reading(prog, start, Skip(prog, p + 3), ts + [Word(prog, p).value])
  {
    var w, rest := Word(prog, p).value, TypesOf(prog, Skip(prog, p + 3));
    if rest.Some? { assert ts + ([w] + rest.value.0) == (ts + [w]) + rest.value.0; }
  }
}
