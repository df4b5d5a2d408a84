/** sume32 programs: the instruction set of sume_tokens.h, the byte encoding parse_sume writes and the
    decoding from_ir.c, populate_fns.c, verif.c and to_asm.c share. */
module Sume {
  import opened Words
  import opened Counting

  /** A value type as packed in two bits: 1 is int, 2 is float; 0 ends a list. */
  type Ty = t: int | 1 <= t <= 3 witness 1
  const INT_T: Ty := 1

  const I_CONST: byte := 0x00
  const I_CLZ: byte := 0x01
  const I_CTZ: byte := 0x02
  const I_POPCNT: byte := 0x03
  const I_ADD: byte := 0x04
  const I_AND: byte := 0x05
  const I_DIV_S: byte := 0x06
  const I_DIV_U: byte := 0x07
  const I_MUL: byte := 0x08
  const I_OR: byte := 0x09
  const I_REM_S: byte := 0x0a
  const I_REM_U: byte := 0x0b
  const I_ROTL: byte := 0x0c
  const I_ROTR: byte := 0x0d
  const I_SHL: byte := 0x0e
  const I_SHR_S: byte := 0x0f
  const I_SHR_U: byte := 0x10
  const I_SUB: byte := 0x11
  const I_XOR: byte := 0x12
  const I_EQZ: byte := 0x13
  const I_EQ: byte := 0x14
  const I_GE_S: byte := 0x15
  const I_GE_U: byte := 0x16
  const I_GT_S: byte := 0x17
  const I_GT_U: byte := 0x18
  const I_LE_S: byte := 0x19
  const I_LE_U: byte := 0x1a
  const I_LT_S: byte := 0x1b
  const I_LT_U: byte := 0x1c
  const I_NE: byte := 0x1d
  const I_LD32: byte := 0x1e
  const I_LD16_S: byte := 0x1f
  const I_LD16_U: byte := 0x20
  const I_LD8_S: byte := 0x21
  const I_LD8_U: byte := 0x22
  const I_MEMSZ: byte := 0x23
  const STR32: byte := 0x24
  const STR16: byte := 0x25
  const STR8: byte := 0x26
  const GET_L: byte := 0x27
  const SET_L: byte := 0x28
  const TRAP: byte := 0x29
  const BLOCK: byte := 0x2a
  const LOOP: byte := 0x2b
  const BR: byte := 0x2c
  const BR_IF: byte := 0x2d
  const RET: byte := 0x2e
  const END: byte := 0x2f
  const CALL: byte := 0x30
  const V_DECLFN: byte := 0x31
  const I_DECLFN: byte := 0x32

  /** A decoded instruction: a bare token, a token with a four-byte immediate, or a function declaration
      (rt: it returns an int) with its parameter and local types. */
  datatype Instr = Plain(op: byte) | Imm(op: byte, v: word) | Decl(rt: bool, params: seq<Ty>, locals: seq<Ty>)

  predicate ImmToken(t: int) {
    t == I_CONST || t == GET_L || t == SET_L || t == BR || t == BR_IF || t == CALL
  }

  predicate DeclToken(t: int) {
    t == V_DECLFN || t == I_DECLFN
  }

  predicate PlainToken(t: int) {
    0 <= t < V_DECLFN && !ImmToken(t)
  }

  predicate WellFormed(i: Instr) {
    match i
    case Plain(op) => PlainToken(op)
    case Imm(op, _) => ImmToken(op)
    case Decl(_, _, _) => true
  }

  predicate AllWellFormed(code: seq<Instr>) {
    forall k | 0 <= k < |code| :: WellFormed(code[k])
  }

  // token classes
  predicate IsUnary(t: int) { I_CLZ <= t <= I_POPCNT }
  predicate IsBinary(t: int) { I_ADD <= t <= I_XOR }
  predicate IsCompare(t: int) { I_EQ <= t <= I_NE }
  predicate IsLoad(t: int) { I_LD32 <= t <= I_LD8_U }
  predicate IsStore(t: int) { STR32 <= t <= STR8 }

  // ---------- two-bit packed type lists ----------

  function Pow4(k: nat): nat
    requires k < 4
  {
    if k == 0 then 1 else if k == 1 then 4 else if k == 2 then 16 else 64
  }

  /** The two bits at position pos of the list packed from byte `place` on. */
  function TwoBits(s: seq<byte>, place: nat, pos: nat): (v: int)
    requires place + pos / 4 < |s|
    ensures 0 <= v < 4
  {
    s[place + pos / 4] / Pow4(pos % 4) % 4
  }

  function TyAt(ts: seq<Ty>, i: nat): int {
    if i < |ts| then ts[i] else 0
  }

  /** Four types in a byte, first in the low bits, zeros behind the end of the list. */
  function PackByte(ts: seq<Ty>, k: nat): byte {
    TyAt(ts, 4 * k) + 4 * TyAt(ts, 4 * k + 1) + 16 * TyAt(ts, 4 * k + 2) + 64 * TyAt(ts, 4 * k + 3)
  }

  function PackTypes(ts: seq<Ty>): (r: seq<byte>)
    ensures |r| == |ts| / 4 + 1
  {
    seq(|ts| / 4 + 1, k requires 0 <= k < |ts| / 4 + 1 => PackByte(ts, k))
  }

  /** get_type_list of from_ir.c from position pos on; None is its error return. */
  function TypesFrom(s: seq<byte>, place: nat, pos: nat): Option<seq<Ty>>
    decreases 4 * |s| - pos
  {
    if place + pos / 4 >= |s| then None
    else
      var v := TwoBits(s, place, pos);
      if v == 0 then Some([])
      else
        var rest := TypesFrom(s, place, pos + 1);
        if rest.None? then None else Some([v] + rest.value)
  }

  lemma TwoBitsOfPacked(ts: seq<Ty>, s: seq<byte>, place: nat, pos: nat)
    requires place + |ts| / 4 + 1 <= |s| && s[place..place + |ts| / 4 + 1] == PackTypes(ts)
    requires pos <= |ts|
    ensures TwoBits(s, place, pos) == TyAt(ts, pos)
  {
    var k := pos / 4;
    assert s[place + k] == s[place..place + |ts| / 4 + 1][k] == PackByte(ts, k);
    var a, b, c, d := TyAt(ts, 4 * k), TyAt(ts, 4 * k + 1), TyAt(ts, 4 * k + 2), TyAt(ts, 4 * k + 3);
    assert pos == 4 * k + pos % 4;
    FourDigits(a, b, c, d);
  }

  lemma FourDigits(a: int, b: int, c: int, d: int)
    requires 0 <= a < 4 && 0 <= b < 4 && 0 <= c < 4 && 0 <= d < 4
    ensures var x := a + 4 * b + 16 * c + 64 * d;
            x / 1 % 4 == a && x / 4 % 4 == b && x / 16 % 4 == c && x / 64 % 4 == d
  {
    var x := a + 4 * b + 16 * c + 64 * d;
    Digits4(x, a, b + 4 * c + 16 * d);
    Digits4(b + 4 * c + 16 * d, b, c + 4 * d);
    Digits16(x, a + 4 * b, c + 4 * d);
    Digits4(c + 4 * d, c, d);
    Digits64(x, a + 4 * b + 16 * c, d);
  }

  lemma Digits4(x: int, r: int, y: int)
    requires x == r + 4 * y && 0 <= r < 4
    ensures x / 4 == y && x % 4 == r
  {
  }

  lemma Digits16(x: int, r: int, y: int)
    requires x == r + 16 * y && 0 <= r < 16
    ensures x / 16 == y
  {
  }

  lemma Digits64(x: int, r: int, y: int)
    requires x == r + 64 * y && 0 <= r < 64
    ensures x / 64 == y
  {
  }

  lemma {:induction false} UnpackPacked(ts: seq<Ty>, s: seq<byte>, place: nat, pos: nat)
    requires place + |ts| / 4 + 1 <= |s| && s[place..place + |ts| / 4 + 1] == PackTypes(ts)
    requires pos <= |ts|
    ensures TypesFrom(s, place, pos) == Some(ts[pos..])
    decreases |ts| - pos
  {
    TwoBitsOfPacked(ts, s, place, pos);
    if pos < |ts| {
      UnpackPacked(ts, s, place, pos + 1);
      assert ts[pos..] == [ts[pos]] + ts[pos + 1..];
    }
  }

  // ---------- instructions ----------

  function Token(i: Instr): byte {
    match i
    case Plain(op) => op
    case Imm(op, _) => op
    case Decl(rt, _, _) => if rt then I_DECLFN else V_DECLFN
  }

  function Encode(i: Instr): (r: seq<byte>)
    ensures |r| > 0
  {
    match i
    case Plain(op) => [op]
    case Imm(op, v) => [op] + Le(v)
    case Decl(_, params, locals) => [Token(i)] + PackTypes(params) + PackTypes(locals)
  }

  function EncodeAll(code: seq<Instr>): seq<byte> {
    if code == [] then [] else Encode(code[0]) + EncodeAll(code[1..])
  }

  function FetchDecl(s: seq<byte>, place: nat): (r: Option<(Instr, nat)>)
    requires place < |s|
    ensures r.Some? ==> place < r.value.1 <= |s|
  {
    var ps := TypesFrom(s, place + 1, 0);
    if ps.None? then None
    else
      TypesEnd(s, place + 1, 0);
      var p := place + 1 + |ps.value| / 4 + 1;
      var ls := TypesFrom(s, p, 0);
      if ls.None? then None
      else
        TypesEnd(s, p, 0);
        Some((Decl(s[place] == I_DECLFN, ps.value, ls.value), p + |ls.value| / 4 + 1))
  }

  /** One turn of the decoding loops: the instruction at `place` and the place behind it. The get_int of
      from_ir.c wants one more byte behind an immediate. */
  function Fetch(s: seq<byte>, place: nat): (r: Option<(Instr, nat)>)
    requires place < |s|
    ensures r.Some? ==> place < r.value.1 <= |s|
  {
    var t := s[place];
    if ImmToken(t) then
      if place + 5 >= |s| then None else Some((Imm(t, UnLe(s, place + 1)), place + 5))
    else if DeclToken(t) then FetchDecl(s, place)
    else if PlainToken(t) then Some((Plain(t), place + 1))
    else None
  }

  lemma {:induction false} TypesEnd(s: seq<byte>, place: nat, pos: nat)
    requires TypesFrom(s, place, pos).Some?
    ensures place + (pos + |TypesFrom(s, place, pos).value|) / 4 + 1 <= |s|
    decreases 4 * |s| - pos
  {
    if TwoBits(s, place, pos) != 0 { TypesEnd(s, place, pos + 1); }
  }

  /** What the whole decoding loop reads, from `place` to the end; None if it reports an error. */
  function Scan(s: seq<byte>, place: nat): Option<seq<Instr>>
    requires place <= |s|
    decreases |s| - place
  {
    if place == |s| then Some([])
    else
      var f := Fetch(s, place);
      if f.None? then None
      else
        var rest := Scan(s, f.value.1);
        if rest.None? then None else Some([f.value.0] + rest.value)
  }

  lemma FetchDeclOfEncode(s: seq<byte>, p: nat, i: Instr)
    requires i.Decl? && p + |Encode(i)| <= |s| && s[p..p + |Encode(i)|] == Encode(i)
    ensures FetchDecl(s, p) == Some((i, p + |Encode(i)|))
  {
    var ps, ls := PackTypes(i.params), PackTypes(i.locals);
    Parts(s, p, [Token(i)], ps, ls);
    assert s[p] == s[p..p + 1][0];
    UnpackPacked(i.params, s, p + 1, 0);
    UnpackPacked(i.locals, s, p + 1 + |ps|, 0);
    assert i.params[0..] == i.params && i.locals[0..] == i.locals;
  }

  /** The decoder recovers an encoded instruction and consumes exactly its bytes, unless it carries an
      immediate and is the very last thing in the program. */
  lemma FetchOfEncode(s: seq<byte>, p: nat, i: Instr)
    requires WellFormed(i) && p + |Encode(i)| <= |s| && s[p..p + |Encode(i)|] == Encode(i)
    ensures Fetch(s, p) == if i.Imm? && p + |Encode(i)| == |s| then None else Some((i, p + |Encode(i)|))
  {
    assert s[p] == s[p..p + |Encode(i)|][0];
    match i
    case Decl(_, _, _) =>
      FetchDeclOfEncode(s, p, i);
    case Imm(op, v) =>
      Parts(s, p, [op], Le(v), []);
      assert [op] + Le(v) + [] == Encode(i);
      UnLeOfLe(s, p + 1, v);
    case Plain(_) =>
  }

  lemma ScanCons(s: seq<byte>, p: nat, i: Instr, q: nat)
    requires p < q <= |s| && Fetch(s, p) == Some((i, q))
    ensures Scan(s, p) == if Scan(s, q).None? then None else Some([i] + Scan(s, q).value)
  {
  }

  lemma SplitEncoding(s: seq<byte>, p: nat, code: seq<Instr>) returns (q: nat)
    requires code != [] && p <= |s| && s[p..] == EncodeAll(code)
    ensures p < q <= |s| && q == p + |Encode(code[0])| && s[p..q] == Encode(code[0])
    ensures s[q..] == EncodeAll(code[1..]) && (q == |s| <==> |code| == 1)
  {
    q := p + |Encode(code[0])|;
    SuffixParts(s, p, Encode(code[0]), EncodeAll(code[1..]));
    EmptyEncoding(code[1..]);
  }

  /** The decoder at the first instruction of an encoded program. */
  lemma FetchHead(s: seq<byte>, p: nat, code: seq<Instr>, i: Instr, rest: seq<Instr>) returns (q: nat)
    requires AllWellFormed(code) && p <= |s| && s[p..] == EncodeAll(code) && code != [] && i == code[0]
          && rest == code[1..]
    ensures p < q <= |s| && s[q..] == EncodeAll(rest) && (q == |s| <==> rest == []) && AllWellFormed(rest)
    ensures Fetch(s, p) == if i.Imm? && q == |s| then None else Some((i, q))
  {
    q := SplitEncoding(s, p, code);
    TailWellFormed(code, rest);
    FetchAt(s, p, q, i);
  }

  lemma TailWellFormed(code: seq<Instr>, rest: seq<Instr>)
    requires AllWellFormed(code) && code != [] && rest == code[1..]
    ensures AllWellFormed(rest)
  {
    assert forall k | 0 <= k < |rest| :: rest[k] == code[k + 1];
  }

  lemma FetchAt(s: seq<byte>, p: nat, q: nat, i: Instr)
    requires WellFormed(i) && p < q <= |s| && q == p + |Encode(i)| && s[p..q] == Encode(i)
    ensures Fetch(s, p) == if i.Imm? && q == |s| then None else Some((i, q))
  {
    FetchOfEncode(s, p, i);
  }

  lemma ScanFails(s: seq<byte>, p: nat)
    requires p < |s| && Fetch(s, p) == None
    ensures Scan(s, p) == None
  {
  }

  predicate EndsInImm(code: seq<Instr>) {
    code != [] && code[|code| - 1].Imm?
  }

  lemma {:induction false} ScanOfEncodeAll(s: seq<byte>, p: nat, code: seq<Instr>)
    requires AllWellFormed(code) && p <= |s| && s[p..] == EncodeAll(code)
    ensures Scan(s, p) == if EndsInImm(code) then None else Some(code)
    decreases |code|
  {
    if code != [] {
      var i, rest := code[0], code[1..];
      assert code == [i] + rest;
      var q := FetchHead(s, p, code, i, rest);
      if rest == [] && i.Imm? {
        ScanFails(s, p);
      } else {
        ScanCons(s, p, i, q);
        ScanOfEncodeAll(s, q, rest);
      }
    }
  }

  lemma EmptyEncoding(code: seq<Instr>)
    ensures EncodeAll(code) == [] <==> code == []
  {
  }

  /** Decoding what was encoded gives the program back if and only if the program does not end in an
      instruction with an immediate; otherwise the decoder reports an error. */
  lemma RoundTrip(code: seq<Instr>)
    requires AllWellFormed(code)
    ensures Scan(EncodeAll(code), 0) == Some(code) <==> !(code != [] && code[|code| - 1].Imm?)
    ensures Scan(EncodeAll(code), 0).None? <==> code != [] && code[|code| - 1].Imm?
  {
    ScanOfEncodeAll(EncodeAll(code), 0, code);
  }

  /** Everything the decoder delivers is well formed. */
  lemma {:induction false} ScanIsWellFormed(s: seq<byte>, p: nat)
    requires p <= |s| && Scan(s, p).Some?
    ensures AllWellFormed(Scan(s, p).value)
    decreases |s| - p
  {
    if p < |s| {
      ScanIsWellFormed(s, Fetch(s, p).value.1);
    }
  }
}
