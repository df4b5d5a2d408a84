/** Execution of the instructions of module X86. None is a processor fault or a form the emitted code never uses. */
module Cpu {
  import opened Words
  import opened Sume
  import opened Integers
  import opened X86

  type Mem = m: seq<byte> | |m| == TWO32 witness seq(TWO32, _ => 0)
  type Regs = s: seq<word> | |s| == 8 witness seq(8, _ => 0)

  datatype Flags = Flags(cf: bool, zf: bool, sf: bool, of: bool)

  datatype Cpu = Cpu(eip: word, r: Regs, f: Flags, mem: Mem)

  // ---------- memory ----------

  function Ld(m: Mem, a: word): word
    requires a + 4 <= TWO32
  {
    UnLe(m, a)
  }

  function St(m: Mem, a: word, w: word): Mem
    requires a + 4 <= TWO32
  {
    m[a := w % 256][a + 1 := w / 256 % 256][a + 2 := w / 65536 % 256][a + 3 := w / 16777216]
  }

  lemma LdSame(m: Mem, a: word, w: word)
    requires a + 4 <= TWO32
    ensures Ld(St(m, a, w), a) == w
  {
    SplitWord(w);
  }

  lemma LdOther(m: Mem, a: word, w: word, b: word)
    requires a + 4 <= TWO32 && b + 4 <= TWO32 && (b + 4 <= a || a + 4 <= b)
    ensures Ld(St(m, a, w), b) == Ld(m, b)
  {
  }

  lemma StElsewhere(m: Mem, a: word, w: word, lo: nat, hi: nat)
    requires a + 4 <= TWO32 && lo <= hi <= TWO32 && (hi <= a || a + 4 <= lo)
    ensures St(m, a, w)[lo..hi] == m[lo..hi]
  {
  }

  // ---------- flags ----------

  function CmpFlags(a: word, b: word): Flags {
    Flags(a < b, a == b, Wrap(a - b) >= TWO31, !(-TWO31 <= Signed(a) - Signed(b) < TWO31))
  }

  function LogicFlags(v: word): Flags {
    Flags(false, v == 0, v >= TWO31, false)
  }

  function AddFlags(a: word, b: word): Flags {
    Flags(a + b >= TWO32, Wrap(a + b) == 0, Wrap(a + b) >= TWO31, !(-TWO31 <= Signed(a) + Signed(b) < TWO31))
  }

  /** Multiplications, divisions, shifts and rotations leave flags that no emitted code looks at. */
  const SCRATCH: Flags := Flags(false, false, false, false)

  predicate Cond(cc: int, f: Flags) {
    if cc == CC_B then f.cf
    else if cc == CC_AE then !f.cf
    else if cc == CC_Z then f.zf
    else if cc == CC_NE then !f.zf
    else if cc == CC_BE then f.cf || f.zf
    else if cc == CC_A then !f.cf && !f.zf
    else if cc == CC_L then f.sf != f.of
    else if cc == CC_GE then f.sf == f.of
    else if cc == CC_LE then f.zf || f.sf != f.of
    else if cc == CC_G then !f.zf && f.sf == f.of
    else false
  }

  // ---------- execution ----------

  function AluValue(op: byte, a: word, b: word): word
    requires op == ADD || op == OR || op == AND || op == SUB || op == XOR
  {
    if op == ADD then Wrap(a + b) else if op == SUB then Wrap(a - b)
    else Bitwise(if op == AND then I_AND else if op == OR then I_OR else I_XOR, a, b)
  }

  function AluFlags(op: byte, a: word, b: word): Flags
    requires op == ADD || op == OR || op == AND || op == SUB || op == XOR
  {
    if op == ADD then AddFlags(a, b) else if op == SUB then CmpFlags(a, b) else LogicFlags(AluValue(op, a, b))
  }

  function ShiftValue(k: int, a: word, n: nat): word
    requires n < 32
  {
    if k == 4 then Wrap(a * Pow2(n))
    else if k == 5 then Wrap(a / Pow2(n))
    else if k == 7 then Wrap(Signed(a) / Pow2(n))
    else if k == 0 then RotateLeft(a, n)
    else RotateLeft(a, (32 - n) % 32)
  }

  /** mul, div, idiv on EDX:EAX. */
  function ExecGroup3(k: int, v: word, r: Regs): Option<Regs> {
    if k == 4 then
      Some(r[EAX := Wrap(r[EAX] * v)][EDX := Wrap(r[EAX] * v / TWO32)])
    else if k == 6 then
      var n := r[EDX] * TWO32 + r[EAX];
      if v == 0 || n / v >= TWO32 then None else Some(r[EAX := Wrap(n / v)][EDX := Wrap(n % v)])
    else
      var n, d := Signed(r[EDX]) * TWO32 + r[EAX], Signed(v);
      if d == 0 || !(-TWO31 <= Quot(n, d) < TWO31) then None
      else Some(r[EAX := Wrap(Quot(n, d))][EDX := Wrap(Rem(n, d))])
  }

  /** bsf, bsr: the index of the lowest or highest set bit; without one the register stays as it is. */
  function BitIndex(op: byte, v: word, was: word): word {
    if v == 0 then was else if op == 0xbc then UnaryOp(I_CTZ, v) else Wrap(31 - UnaryOp(I_CLZ, v))
  }

  function Extended(op: byte, m: Mem, a: word): Option<word> {
    if op == 0xb6 then Some(m[a])
    else if op == 0xbe then
      var v: int := m[a];
      Some(Wrap(if v >= 128 then v - 256 else v))
    else if a + 2 > TWO32 then None
    else
      var lo: int, hi: int := m[a], m[a + 1];
      var v := lo + 256 * hi;
      Some(Wrap(if op == 0xbf && v >= 32768 then v - 65536 else v))
  }

  /** Instructions that work on registers only. */
  function ExecReg(i: X, c: Cpu): Option<Cpu>
    requires WellFormedX(i)
  {
    match i
    case MovRI(r, imm) => Some(c.(r := c.r[r := imm]))
    case MovRR(d, s) => Some(c.(r := c.r[d := c.r[s]]))
    case Alu(op, d, s) =>
      Some(c.(r := c.r[d := AluValue(op, c.r[d], c.r[s])], f := AluFlags(op, c.r[d], c.r[s])))
    case Cmp(d, s) => Some(c.(f := CmpFlags(c.r[d], c.r[s])))
    case Test(d, s) => Some(c.(f := LogicFlags(Bitwise(I_AND, c.r[d], c.r[s]))))
    case AluI(k, r, imm) =>
      if k == 0 then Some(c.(r := c.r[r := Wrap(c.r[r] + imm)], f := AddFlags(c.r[r], imm)))
      else Some(c.(r := c.r[r := Wrap(c.r[r] - imm)], f := CmpFlags(c.r[r], imm)))
    case Group3(k, r) =>
      var r' := ExecGroup3(k, c.r[r], c.r);
      if r'.None? then None else Some(c.(r := r'.value, f := SCRATCH))
    case ShiftCl(k, r) => Some(c.(r := c.r[r := ShiftValue(k, c.r[r], c.r[ECX] % 256 % 32)], f := SCRATCH))
    case BitScan(op, d, s) => Some(c.(r := c.r[d := BitIndex(op, c.r[s], c.r[d])], f := SCRATCH))
    case ShlI(r, n) => Some(c.(r := c.r[r := ShiftValue(4, c.r[r], n % 32)], f := SCRATCH))
    case Set(cc, r) =>
      if r >= 4 then None else Some(c.(r := c.r[r := c.r[r] / 256 * 256 + if Cond(cc, c.f) then 1 else 0]))
    case _ => None
  }

  function PushWord(c: Cpu, w: word): Option<Cpu> {
    var sp: int := c.r[ESP];
    var a := Wrap(sp - 4);
    if a + 4 > TWO32 then None else Some(c.(r := c.r[ESP := a], mem := St(c.mem, a, w)))
  }

  /** Instructions that touch data memory but not the flow of control. */
  function ExecMem(i: X, c: Cpu): Option<Cpu>
    requires WellFormedX(i)
  {
    match i
    case MovRB(r, imm) =>
      var a := Wrap(c.r[EBP] + imm);
      if a + 4 > TWO32 then None else Some(c.(r := c.r[r := Ld(c.mem, a)]))
    case MovBR(imm, r) =>
      var a := Wrap(c.r[EBP] + imm);
      if a + 4 > TWO32 then None else Some(c.(mem := St(c.mem, a, c.r[r])))
    case MovRM(d, s) =>
      if c.r[s] + 4 > TWO32 then None else Some(c.(r := c.r[d := Ld(c.mem, c.r[s])]))
    case MovMR(d, s) =>
      if c.r[d] + 4 > TWO32 then None else Some(c.(mem := St(c.mem, c.r[d], c.r[s])))
    case MovMR8(d, s) =>
      if s >= 4 then None else Some(c.(mem := c.mem[c.r[d] := c.r[s] % 256]))
    case Movx(op, d, s) =>
      var v := Extended(op, c.mem, c.r[s]);
      if v.None? then None else Some(c.(r := c.r[d := v.value]))
    case Push(r) => PushWord(c, c.r[r])
    case Pop(r) =>
      var a := c.r[ESP];
      if a + 4 > TWO32 then None else Some(c.(r := c.r[ESP := Wrap(a + 4)][r := Ld(c.mem, a)]))
    case _ => None
  }

  predicate IsJump(i: X) {
    i.RetFn? || i.CallRel? || i.JmpRel? || i.Jcc?
  }

  predicate IsMem(i: X) {
    i.MovRB? || i.MovBR? || i.MovRM? || i.MovMR? || i.MovMR8? || i.Movx? || i.Push? || i.Pop?
  }

  function ExecJump(i: X, next: word, c: Cpu): Option<Cpu> {
    match i
    case RetFn =>
      var a := c.r[ESP];
      if a + 4 > TWO32 then None else Some(c.(eip := Ld(c.mem, a), r := c.r[ESP := Wrap(a + 4)]))
    case CallRel(imm) =>
      var p := PushWord(c, next);
      if p.None? then None else Some(p.value.(eip := Wrap(next + imm)))
    case JmpRel(imm) => Some(c.(eip := Wrap(next + imm)))
    case Jcc(cc, imm) => Some(c.(eip := if Cond(cc, c.f) then Wrap(next + imm) else next))
    case _ => None
  }

  /** Execute i, whose successor in memory is at next. */
  function Exec(i: X, next: word, c: Cpu): Option<Cpu>
    requires WellFormedX(i)
  {
    if IsJump(i) then ExecJump(i, next, c)
    else
      var c' := if IsMem(i) then ExecMem(i, c) else ExecReg(i, c);
      if c'.None? then None else Some(c'.value.(eip := next))
  }

  // ---------- comparisons ----------

  /** The condition to_asm.c tests behind `cmp` for each comparison. */
  function CcOf(op: byte): int
    requires IsCompare(op)
  {
    if op == I_EQ then CC_Z
    else if op == I_NE then CC_NE
    else if op == I_GE_S then CC_GE
    else if op == I_GE_U then CC_AE
    else if op == I_GT_S then CC_G
    else if op == I_GT_U then CC_A
    else if op == I_LE_S then CC_LE
    else if op == I_LE_U then CC_BE
    else if op == I_LT_S then CC_L
    else CC_B
  }

  /** The flags of `cmp` decide every comparison, signed and unsigned, as it is meant. */
  lemma CondOfCmp(op: byte, a: word, b: word)
    requires IsCompare(op)
    ensures Cond(CcOf(op), CmpFlags(a, b)) == CompareOp(op, a, b)
  {
  }

  lemma {:induction false} BitsOfSame(op: byte, n: nat, a: nat)
    ensures Bits(I_XOR, n, a, a) == 0
    ensures a < Pow2(n) ==> Bits(I_AND, n, a, a) == a
  {
    if n > 0 { BitsOfSame(op, n - 1, a / 2); }
  }

  lemma XorSelf(a: word)
    ensures Bitwise(I_XOR, a, a) == 0 && Bitwise(I_AND, a, a) == a
  {
    Pow2Of32();
    BitsOfSame(I_XOR, 32, a);
  }

  // ---------- running ----------

  /** Execute a decoded instruction, given with the place behind it. */
  function ExecDecoded(d: Option<(X, nat)>, c: Cpu): Option<Cpu> {
    if d.None? || !WellFormedX(d.value.0) || d.value.1 >= TWO32 then None else Exec(d.value.0, d.value.1, c)
  }

  /** The instruction at EIP, fetched from code loaded at address 0. */
  function StepCpu(code: seq<byte>, c: Cpu): Option<Cpu> {
    if c.eip >= |code| then None else ExecDecoded(DecodeX(code, c.eip), c)
  }

  /** The processor as a step function, for module Reach. */
  function Machine(code: seq<byte>): Cpu -> Option<Cpu> {
    c => StepCpu(code, c)
  }

  lemma StepsWith(code: seq<byte>, c: Cpu, d: Option<(X, nat)>)
    requires c.eip < |code| && DecodeX(code, c.eip) == d
    ensures Machine(code)(c) == ExecDecoded(d, c)
  {
  }
}
