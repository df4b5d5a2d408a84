/** The part of the IA-32 instruction set that to_asm.c emits: byte layouts as instrs.c writes them, decoding as
    section 2.1 of volume 2 of the Intel 64 and IA-32 manual lays them out, and execution. Code is fetched from
    read-only memory of its own; data memory is a flat space of bytes. */
module X86 {
  import opened Words
  import opened Counting

  type Reg = r: int | 0 <= r < 8

  const EAX: Reg := 0
  const ECX: Reg := 1
  const EDX: Reg := 2
  const EBX: Reg := 3
  const ESP: Reg := 4
  const EBP: Reg := 5
  const ESI: Reg := 6
  const EDI: Reg := 7

  // condition codes
  const CC_B: int := 2
  const CC_AE: int := 3
  const CC_Z: int := 4
  const CC_NE: int := 5
  const CC_BE: int := 6
  const CC_A: int := 7
  const CC_L: int := 12
  const CC_GE: int := 13
  const CC_LE: int := 14
  const CC_G: int := 15

  // one-byte opcodes of the register-register operations
  const ADD: byte := 0x03
  const OR: byte := 0x0b
  const AND: byte := 0x23
  const SUB: byte := 0x2b
  const XOR: byte := 0x33

  datatype X =
    | MovRI(r: Reg, imm: word)
    | MovRR(d: Reg, s: Reg)
    | MovRB(r: Reg, imm: word)            // r := [ebp + imm]
    | MovBR(imm: word, r: Reg)            // [ebp + imm] := r
    | MovRM(d: Reg, s: Reg)               // d := [s]
    | MovMR(d: Reg, s: Reg)               // [d] := s
    | MovMR8(d: Reg, s: Reg)              // low byte of s
    | Movx(op: byte, d: Reg, s: Reg)      // 0xb6, 0xb7: zero-extend a byte, a word; 0xbe, 0xbf: sign-extend
    | BitScan(op: byte, d: Reg, s: Reg)   // 0xbc: bsf, 0xbd: bsr
    | Alu(op: byte, d: Reg, s: Reg)
    | Cmp(d: Reg, s: Reg)
    | Test(d: Reg, s: Reg)
    | AluI(k: int, r: Reg, imm: word)     // k 0: add, 5: sub
    | Group3(k: int, r: Reg)              // k 4: mul, 6: div, 7: idiv
    | ShiftCl(k: int, r: Reg)             // k 0: rol, 1: ror, 4: shl, 5: shr, 7: sar
    | ShlI(r: Reg, n: byte)
    | Set(cc: int, r: Reg)
    | Push(r: Reg)
    | Pop(r: Reg)
    | RetFn
    | CallRel(imm: word)
    | JmpRel(imm: word)
    | Jcc(cc: int, imm: word)

  predicate WellFormedX(i: X) {
    match i
    case MovRM(_, s) => s != ESP && s != EBP
    case MovMR(d, _) => d != ESP && d != EBP
    case MovMR8(d, _) => d != ESP && d != EBP
    case Movx(op, _, s) => (op == 0xb6 || op == 0xb7 || op == 0xbe || op == 0xbf) && s != ESP && s != EBP
    case BitScan(op, _, _) => op == 0xbc || op == 0xbd
    case Alu(op, _, _) => op == ADD || op == OR || op == AND || op == SUB || op == XOR
    case AluI(k, _, _) => k == 0 || k == 5
    case Group3(k, _) => k == 4 || k == 6 || k == 7
    case ShiftCl(k, _) => k == 0 || k == 1 || k == 4 || k == 5 || k == 7
    case Set(cc, _) => 0 <= cc < 16
    case Jcc(cc, _) => 0 <= cc < 16
    case _ => true
  }

  // ---------- byte layout ----------

  function Modrm(mod: int, reg: int, rm: int): byte
    requires 0 <= mod < 4 && 0 <= reg < 8 && 0 <= rm < 8
  {
    64 * mod + 8 * reg + rm
  }

  /** Bytes an instruction takes. */
  function Len(i: X): nat {
    match i
    case MovRI(_, _) => 5
    case MovRB(_, _) => 6
    case MovBR(_, _) => 6
    case Movx(_, _, _) => 3
    case BitScan(_, _, _) => 3
    case AluI(_, r, _) => if r == EAX then 5 else 6
    case ShlI(_, _) => 3
    case Set(_, _) => 3
    case Push(_) => 1
    case Pop(_) => 1
    case RetFn => 1
    case CallRel(_) => 5
    case JmpRel(_) => 5
    case Jcc(_, _) => 6
    case _ => 2
  }

  /** One or two opcode bytes and a 32-bit immediate. */
  function With1(a: byte, imm: word): (s: seq<byte>)
    ensures |s| == 5
  {
    [a] + Le(imm)
  }

  function With2(a: byte, b: byte, imm: word): (s: seq<byte>)
    ensures |s| == 6
  {
    [a, b] + Le(imm)
  }

  predicate HasImmediate(i: X) {
    i.MovRI? || i.MovRB? || i.MovBR? || i.AluI? || i.CallRel? || i.JmpRel? || i.Jcc?
  }

  /** Instructions that end in a 32-bit immediate. */
  function EncodeLong(i: X): (s: seq<byte>)
    requires WellFormedX(i) && HasImmediate(i)
    ensures |s| == Len(i)
  {
    match i
    case MovRI(r, imm) => With1(0xb8 + r, imm)
    case MovRB(r, imm) => With2(0x8b, Modrm(2, r, EBP), imm)
    case MovBR(imm, r) => With2(0x89, Modrm(2, r, EBP), imm)
    case AluI(k, r, imm) =>
      if r == EAX then With1(if k == 0 then 0x05 else 0x2d, imm) else With2(0x81, Modrm(3, k, r), imm)
    case CallRel(imm) => With1(0xe8, imm)
    case JmpRel(imm) => With1(0xe9, imm)
    case Jcc(cc, imm) => With2(0x0f, 0x80 + cc, imm)
  }

  predicate IsPair(i: X) {
    i.MovRR? || i.MovRM? || i.MovMR? || i.MovMR8? || i.Alu? || i.Cmp? || i.Test? || i.Group3? || i.ShiftCl?
  }

  /** Instructions of an opcode byte and a ModRM byte. */
  function EncodePair(i: X): (s: seq<byte>)
    requires WellFormedX(i) && IsPair(i)
    ensures |s| == Len(i)
  {
    match i
    case MovRR(d, s) => [0x89, Modrm(3, s, d)]
    case MovRM(d, s) => [0x8b, Modrm(0, d, s)]
    case MovMR(d, s) => [0x89, Modrm(0, s, d)]
    case MovMR8(d, s) => [0x88, Modrm(0, s, d)]
    case Alu(op, d, s) => [op, Modrm(3, d, s)]
    case Cmp(d, s) => [0x39, Modrm(3, s, d)]
    case Test(d, s) => [0x85, Modrm(3, d, s)]
    case Group3(k, r) => [0xf7, Modrm(3, k, r)]
    case ShiftCl(k, r) => [0xd3, Modrm(3, k, r)]
  }

  function EncodeX(i: X): (s: seq<byte>)
    requires WellFormedX(i)
    ensures |s| == Len(i)
  {
    if HasImmediate(i) then EncodeLong(i)
    else if IsPair(i) then EncodePair(i)
    else
      match i
      case Movx(op, d, s) => [0x0f, op, Modrm(0, d, s)]
      case BitScan(op, d, s) => [0x0f, op, Modrm(3, d, s)]
      case ShlI(r, n) => [0xc1, Modrm(3, 4, r), n]
      case Set(cc, r) => [0x0f, 0x90 + cc, Modrm(3, 0, r)]
      case Push(r) => [0x50 + r]
      case Pop(r) => [0x58 + r]
      case RetFn => [0xc3]
  }

  // ---------- decoding ----------

  /** Opcode op followed by a register-to-register ModR/M byte. */
  function DecodeRegs(op: byte, reg: Reg, rm: Reg): Option<X> {
    if op == 0x89 then Some(MovRR(rm, reg))
    else if op == ADD || op == OR || op == AND || op == SUB || op == XOR then Some(Alu(op, reg, rm))
    else if op == 0x39 then Some(Cmp(rm, reg))
    else if op == 0x85 then Some(Test(reg, rm))
    else if op == 0xf7 && (reg == 4 || reg == 6 || reg == 7) then Some(Group3(reg, rm))
    else if op == 0xd3 && (reg == 0 || reg == 1 || reg == 4 || reg == 5 || reg == 7) then Some(ShiftCl(reg, rm))
    else None
  }

  /** Opcode op followed by a ModR/M byte that addresses memory through register rm. */
  function DecodeMem(op: byte, reg: Reg, rm: Reg): Option<X> {
    if rm == ESP || rm == EBP then None
    else if op == 0x8b then Some(MovRM(reg, rm))
    else if op == 0x89 then Some(MovMR(rm, reg))
    else if op == 0x88 then Some(MovMR8(rm, reg))
    else None
  }

  /** Two-byte opcodes. */
  function Decode0f(s: seq<byte>, p: nat): Option<(X, nat)>
    requires p + 1 < |s|
  {
    var op := s[p + 1];
    if 0x80 <= op < 0x90 then
      if p + 6 > |s| then None else Some((Jcc(op - 0x80, UnLe(s, p + 2)), p + 6))
    else if p + 2 >= |s| then None
    else
      var m := s[p + 2];
      var mod, reg, rm := m / 64, m / 8 % 8, m % 8;
      if 0x90 <= op < 0xa0 && mod == 3 then Some((Set(op - 0x90, rm), p + 3))
      else if (op == 0xb6 || op == 0xb7 || op == 0xbe || op == 0xbf) && mod == 0 && rm != ESP && rm != EBP then
        Some((Movx(op, reg, rm), p + 3))
      else if (op == 0xbc || op == 0xbd) && mod == 3 then Some((BitScan(op, reg, rm), p + 3))
      else None
  }

  /** One-byte opcodes with a ModR/M byte. */
  function DecodeModrm(s: seq<byte>, p: nat): Option<(X, nat)>
    requires p + 1 < |s|
  {
    var op, m := s[p], s[p + 1];
    var mod, reg, rm := m / 64, m / 8 % 8, m % 8;
    if op == 0x81 then
      if mod == 3 && (reg == 0 || reg == 5) && rm != EAX
        && p + 6 <= |s| then Some((AluI(reg, rm, UnLe(s, p + 2)), p + 6)) else None
    else if op == 0xc1 then
      if mod == 3 && reg == 4 && p + 3 <= |s| then Some((ShlI(rm, s[p + 2]), p + 3)) else None
    else if mod == 3 then
      var i := DecodeRegs(op, reg, rm);
      if i.None? then None else Some((i.value, p + 2))
    else if mod == 2 && rm == EBP && p + 6 <= |s| then
      if op == 0x8b then Some((MovRB(reg, UnLe(s, p + 2)), p + 6))
      else if op == 0x89 then Some((MovBR(UnLe(s, p + 2), reg), p + 6))
      else None
    else if mod == 0 then
      var i := DecodeMem(op, reg, rm);
      if i.None? then None else Some((i.value, p + 2))
    else None
  }

  /** The instruction at p and the place behind it. */
  function DecodeX(s: seq<byte>, p: nat): Option<(X, nat)>
    requires p < |s|
  {
    var op := s[p];
    if 0x50 <= op < 0x58 then Some((Push(op - 0x50), p + 1))
    else if 0x58 <= op < 0x60 then Some((Pop(op - 0x58), p + 1))
    else if op == 0xc3 then Some((RetFn, p + 1))
    else if 0xb8 <= op < 0xc0 || op == 0xe8 || op == 0xe9 || op == 0x05 || op == 0x2d then
      if p + 5 > |s| then None
      else
        var v := UnLe(s, p + 1);
        if op == 0xe8 then Some((CallRel(v), p + 5))
        else if op == 0xe9 then Some((JmpRel(v), p + 5))
        else if op == 0x05 then Some((AluI(0, EAX, v), p + 5))
        else if op == 0x2d then Some((AluI(5, EAX, v), p + 5))
        else Some((MovRI(op - 0xb8, v), p + 5))
    else if p + 1 >= |s| then None
    else if op == 0x0f then Decode0f(s, p)
    else DecodeModrm(s, p)
  }

  lemma ModrmParts(mod: int, reg: int, rm: int)
    requires 0 <= mod < 4 && 0 <= reg < 8 && 0 <= rm < 8
    ensures var m := Modrm(mod, reg, rm); m / 64 == mod && m / 8 % 8 == reg && m % 8 == rm
  {
    var m := Modrm(mod, reg, rm);
    DivBy64(m, mod, 8 * reg + rm);
    DivBy8(m, 8 * mod + reg, rm);
    DivBy8(8 * mod + reg, mod, reg);
  }

  lemma DivBy64(m: int, q: int, r: int)
    requires m == 64 * q + r && 0 <= r < 64
    ensures m / 64 == q
  {
  }

  lemma DivBy8(m: int, q: int, r: int)
    requires m == 8 * q + r && 0 <= r < 8
    ensures m / 8 == q && m % 8 == r
  {
  }

  /** s holds the bytes of instruction i at p. */
  ghost predicate Holds(s: seq<byte>, p: nat, i: X) {
    WellFormedX(i) && p + |EncodeX(i)| <= |s| && s[p..p + |EncodeX(i)|] == EncodeX(i)
  }

  lemma FirstBytes(s: seq<byte>, p: nat, e: seq<byte>)
    requires p + |e| <= |s| && s[p..p + |e|] == e && |e| > 0
    ensures s[p] == e[0] && (|e| > 1 ==> s[p + 1] == e[1]) && (|e| > 2 ==> s[p + 2] == e[2])
  {
    assert s[p] == s[p..p + |e|][0];
    assert |e| > 1 ==> s[p + 1] == s[p..p + |e|][1];
    assert |e| > 2 ==> s[p + 2] == s[p..p + |e|][2];
  }

  lemma DecodeShort(s: seq<byte>, p: nat, i: X)
    requires Holds(s, p, i)
    requires i.Push? || i.Pop? || i.RetFn? || i.MovRI? || i.CallRel? || i.JmpRel? || (i.AluI? && i.r == EAX)
    ensures DecodeX(s, p) == Some((i, p + |EncodeX(i)|))
  {
    FirstBytes(s, p, EncodeX(i));
    if |EncodeX(i)| == 5 { ReadImm(s, p, EncodeX(i), 1, i.imm); }
  }

  lemma DecodeTwoByte(s: seq<byte>, p: nat, i: X)
    requires Holds(s, p, i) && (i.Jcc? || i.Set? || i.Movx? || i.BitScan?)
    ensures DecodeX(s, p) == Some((i, p + |EncodeX(i)|))
  {
    FirstBytes(s, p, EncodeX(i));
    match i
    case Movx(_, d, r) => ModrmParts(0, d, r);
    case BitScan(_, d, r) => ModrmParts(3, d, r);
    case Set(_, r) => ModrmParts(3, 0, r);
    case Jcc(_, imm) => ReadImm(s, p, EncodeX(i), 2, imm);
  }

  lemma DecodeRegister(s: seq<byte>, p: nat, i: X)
    requires Holds(s, p, i)
    requires i.MovRR? || i.Alu? || i.Cmp? || i.Test? || i.Group3? || i.ShiftCl?
    ensures DecodeX(s, p) == Some((i, p + |EncodeX(i)|))
  {
    FirstBytes(s, p, EncodeX(i));
    match i
    case MovRR(d, r) => ModrmParts(3, r, d);
    case Alu(_, d, r) => ModrmParts(3, d, r);
    case Cmp(d, r) => ModrmParts(3, r, d);
    case Test(d, r) => ModrmParts(3, d, r);
    case Group3(k, r) => ModrmParts(3, k, r);
    case ShiftCl(k, r) => ModrmParts(3, k, r);
  }

  lemma DecodeMemory(s: seq<byte>, p: nat, i: X)
    requires Holds(s, p, i)
    requires i.MovRM? || i.MovMR? || i.MovMR8? || i.MovRB? || i.MovBR? || i.ShlI? || (i.AluI? && i.r != EAX)
    ensures DecodeX(s, p) == Some((i, p + |EncodeX(i)|))
  {
    FirstBytes(s, p, EncodeX(i));
    match i
    case MovRB(r, imm) => ModrmParts(2, r, EBP); ReadImm(s, p, EncodeX(i), 2, imm);
    case MovBR(imm, r) => ModrmParts(2, r, EBP); ReadImm(s, p, EncodeX(i), 2, imm);
    case MovRM(d, r) => ModrmParts(0, d, r);
    case MovMR(d, r) => ModrmParts(0, r, d);
    case MovMR8(d, r) => ModrmParts(0, r, d);
    case AluI(k, r, imm) => ModrmParts(3, k, r); ReadImm(s, p, EncodeX(i), 2, imm);
    case ShlI(r, _) => ModrmParts(3, 4, r);
  }

  /** The processor reads back exactly the instruction the emitters wrote. */
  lemma DecodeOfEncode(s: seq<byte>, p: nat, i: X)
    requires Holds(s, p, i)
    ensures DecodeX(s, p) == Some((i, p + |EncodeX(i)|))
  {
    if i.Jcc? || i.Set? || i.Movx? || i.BitScan? {
      DecodeTwoByte(s, p, i);
    } else if i.MovRR? || i.Alu? || i.Cmp? || i.Test? || i.Group3? || i.ShiftCl? {
      DecodeRegister(s, p, i);
    } else if i.MovRM? || i.MovMR? || i.MovMR8? || i.MovRB? || i.MovBR? || i.ShlI? || (i.AluI? && i.r != EAX) {
      DecodeMemory(s, p, i);
    } else {
      DecodeShort(s, p, i);
    }
  }

  lemma ReadImm(s: seq<byte>, p: nat, e: seq<byte>, n: nat, imm: word)
    requires |e| == n + 4 && p + |e| <= |s| && s[p..p + |e|] == e && e[n..] == Le(imm)
    ensures UnLe(s, p + n) == imm
  {
    SliceOfSlice(s, p, p + |e|, n, n + 4);
    assert e[n..n + 4] == e[n..];
    UnLeOfLe(s, p + n, imm);
  }
}
