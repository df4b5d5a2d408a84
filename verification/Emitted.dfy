/** What the code of each token does to the stack of words, whatever program it belongs to. */
module Emitted {
  import opened Words
  import opened Sume
  import opened Integers
  import opened StackMachine
  import opened X86
  import opened Cpu
  import opened MachineView
  import opened Codegen

  // ---------- operators ----------

  /** idiv divides EDX:EAX with EDX cleared: right for dividends that are not negative. */
  predicate DividendOk(op: byte, a: word) {
    op == I_DIV_S || op == I_REM_S ==> a < TWO31
  }

  lemma QuotSmall(a: int, d: int)
    requires 0 <= a < TWO31 && d != 0
    ensures -TWO31 <= Quot(a, d) < TWO31
  {
    if d > 0 { DivShrinks(a, d); } else { DivShrinks(a, -d); }
  }

  lemma DivShrinks(a: int, d: int)
    requires 0 <= a && d > 0
    ensures 0 <= a / d <= a
  {
    var q := a / d;
    assert a == d * q + a % d;
    MulGrows(q, d);
  }

  lemma MulGrows(q: int, d: int)
    requires d >= 1
    ensures q >= 0 ==> d * q >= q
    ensures q < 0 ==> d * q <= q
  {
    if q >= 0 { assert (d - 1) * q >= 0; } else { assert (d - 1) * q <= 0; }
  }

  /** The one instruction of a simple operator. */
  lemma ExecSimple(c: Cpu, op: byte) returns (d: Cpu)
    requires op == I_ADD || op == I_SUB || op == I_AND || op == I_OR || op == I_XOR || op == I_MUL
    ensures |Arith(op)| == 1 && WellFormedX(Arith(op)[0]) && ExecReg(Arith(op)[0], c) == Some(d)
    ensures BinaryOp(op, c.r[EAX], c.r[EBX]) == Some(d.r[EAX]) && d.mem == c.mem
    ensures d.r[4..] == c.r[4..]
  {
    d := ExecReg(Arith(op)[0], c).value;
  }

  lemma ExecShift(c: Cpu, op: byte) returns (d: Cpu)
    requires IsShift(op) && c.r[ECX] == c.r[EBX]
    ensures |Arith(op)| == 2 && Arith(op)[0] == MovRR(ECX, EBX) && WellFormedX(Arith(op)[1])
         && ExecReg(Arith(op)[1], c) == Some(d)
    ensures BinaryOp(op, c.r[EAX], c.r[EBX]) == Some(d.r[EAX]) && d.mem == c.mem
    ensures d.r[4..] == c.r[4..]
  {
    assert c.r[ECX] % 256 % 32 == c.r[EBX] % 32;
    d := ExecReg(Arith(op)[1], c).value;
  }

  predicate IsDivision(op: byte) {
    op == I_DIV_S || op == I_DIV_U || op == I_REM_S || op == I_REM_U
  }

  lemma ExecDivision(c: Cpu, op: byte) returns (d: Cpu)
    requires IsDivision(op) && c.r[EDX] == 0 && DividendOk(op, c.r[EAX]) && c.r[EBX] != 0
    ensures |Arith(op)| == 2 && Arith(op)[0] == Alu(XOR, EDX, EDX) && WellFormedX(Arith(op)[1])
    ensures ExecReg(Arith(op)[1], c) == Some(d)
    ensures BinaryOp(op, c.r[EAX], c.r[EBX]) == Some(d.r[ResultReg(op)]) && d.mem == c.mem
    ensures d.r[4..] == c.r[4..]
  {
    var a, b := c.r[EAX], c.r[EBX];
    DivShrinks(a, b);
    if op == I_DIV_S || op == I_REM_S { QuotSmall(a, Signed(b)); }
    d := ExecReg(Arith(op)[1], c).value;
  }

  /** pop ebx; pop eax */
  lemma RunPops(e: Env, c0: Cpu, c: Cpu, xs: seq<X>, end: nat, t: seq<word>, a: word, b: word, heap: seq<byte>)
    returns (c': Cpu)
    requires At(e, c0, c, xs, end, t + [a, b], heap) && |xs| >= 2 && xs[0] == Pop(EBX) && xs[1] == Pop(EAX)
    ensures At(e, c0, c', xs[2..], end, t, heap) && c'.mem == c.mem && c'.eip == c.eip + 2
    ensures c'.r[EAX] == a && c'.r[EBX] == b && c'.r[EBP] == c.r[EBP]
  {
    var s := t + [a, b];
    assert s[..|s| - 1] == t + [a] && s[|s| - 1] == b;
    var c1 := DoPop(e, c0, c, xs, end, s, heap, EBX);
    assert (t + [a])[..|t|] == t && xs[1..][0] == Pop(EAX) && xs[1..][1..] == xs[2..];
    c' := DoPop(e, c0, c1, xs[1..], end, t + [a], heap, EAX);
  }

  /** A register operation, then the rest. */
  lemma RunReg(e: Env, c0: Cpu, c: Cpu, x: X, xs: seq<X>, end: nat, s: seq<word>, heap: seq<byte>, d: Cpu)
    returns (c': Cpu)
    requires At(e, c0, c, [x] + xs, end, s, heap) && !IsJump(x) && !IsMem(x) && WellFormedX(x)
          && ExecReg(x, c) == Some(d)
    requires d.mem == c.mem && d.r[4..] == c.r[4..]
    ensures At(e, c0, c', xs, end, s, heap)
    ensures c'.r == d.r && c'.f == d.f && c'.mem == c.mem && c'.eip == c.eip + Len(x)
  {
    assert ([x] + xs)[1..] == xs;
    assert d.r[4..][0] == c.r[4..][0] && d.r[4..][2] == c.r[4..][2] && d.r[4..][3] == c.r[4..][3];
    c' := DoReg(e, c0, c, [x] + xs, end, s, heap, d);
  }

  lemma RunArith1(e: Env, c0: Cpu, c: Cpu, op: byte, xs: seq<X>, end: nat, s: seq<word>, heap: seq<byte>)
    returns (c': Cpu)
    requires op == I_ADD || op == I_SUB || op == I_AND || op == I_OR || op == I_XOR || op == I_MUL
    requires At(e, c0, c, Arith(op) + xs, end, s, heap)
    ensures At(e, c0, c', xs, end, s, heap) && c'.r[EBP] == c.r[EBP]
    ensures BinaryOp(op, c.r[EAX], c.r[EBX]) == Some(c'.r[EAX])
  {
    var d := ExecSimple(c, op);
    assert Arith(op) == [Arith(op)[0]];
    assert d.r[4..][1] == c.r[4..][1];
    c' := RunReg(e, c0, c, Arith(op)[0], xs, end, s, heap, d);
  }

  lemma RunToEcx(e: Env, c0: Cpu, c: Cpu, xs: seq<X>, end: nat, s: seq<word>, heap: seq<byte>) returns (c': Cpu)
    requires At(e, c0, c, [MovRR(ECX, EBX)] + xs, end, s, heap)
    ensures At(e, c0, c', xs, end, s, heap) && c'.r == c.r[ECX := c.r[EBX]]
  {
    c' := RunReg(e, c0, c, MovRR(ECX, EBX), xs, end, s, heap, c.(r := c.r[ECX := c.r[EBX]]));
  }

  lemma ArithParts(op: byte, xs: seq<X>)
    ensures |Arith(op)| == 2 ==> Arith(op) + xs == [Arith(op)[0]] + ([Arith(op)[1]] + xs)
  {
  }

  lemma RunShift2(e: Env, c0: Cpu, c: Cpu, op: byte, y: X, xs: seq<X>, end: nat, s: seq<word>, heap: seq<byte>)
    returns (c': Cpu)
    requires IsShift(op) && y == Arith(op)[1] && c.r[ECX] == c.r[EBX] && At(e, c0, c, [y] + xs, end, s, heap)
    ensures At(e, c0, c', xs, end, s, heap) && c'.r[EBP] == c.r[EBP]
    ensures BinaryOp(op, c.r[EAX], c.r[EBX]) == Some(c'.r[EAX])
  {
    var d := ExecShift(c, op);
    assert d.r[4..][1] == c.r[4..][1];
    c' := RunReg(e, c0, c, y, xs, end, s, heap, d);
  }

  lemma RunShift(e: Env, c0: Cpu, c: Cpu, op: byte, xs: seq<X>, end: nat, s: seq<word>, heap: seq<byte>)
    returns (c': Cpu)
    requires IsShift(op) && At(e, c0, c, Arith(op) + xs, end, s, heap)
    ensures At(e, c0, c', xs, end, s, heap) && c'.r[EBP] == c.r[EBP]
    ensures BinaryOp(op, c.r[EAX], c.r[EBX]) == Some(c'.r[EAX])
  {
    var y := Arith(op)[1];
    ArithParts(op, xs);
    var c1 := RunToEcx(e, c0, c, [y] + xs, end, s, heap);
    c' := RunShift2(e, c0, c1, op, y, xs, end, s, heap);
  }

  lemma RunClear(e: Env, c0: Cpu, c: Cpu, r: Reg, xs: seq<X>, end: nat, s: seq<word>, heap: seq<byte>) returns (c': Cpu)
    requires r < 4 && At(e, c0, c, [Alu(XOR, r, r)] + xs, end, s, heap)
    ensures At(e, c0, c', xs, end, s, heap) && c'.r == c.r[r := 0]
  {
    XorSelf(c.r[r]);
    c' := RunReg(e, c0, c, Alu(XOR, r, r), xs, end, s, heap, ExecReg(Alu(XOR, r, r), c).value);
  }

  lemma RunDivision2(e: Env, c0: Cpu, c: Cpu, op: byte, y: X, xs: seq<X>, end: nat, s: seq<word>, heap: seq<byte>)
    returns (c': Cpu)
    requires IsDivision(op) && y == Arith(op)[1] && At(e, c0, c, [y] + xs, end, s, heap)
    requires c.r[EDX] == 0 && DividendOk(op, c.r[EAX]) && c.r[EBX] != 0
    ensures At(e, c0, c', xs, end, s, heap) && c'.r[EBP] == c.r[EBP]
    ensures BinaryOp(op, c.r[EAX], c.r[EBX]) == Some(c'.r[ResultReg(op)])
  {
    var d := ExecDivision(c, op);
    assert d.r[4..][1] == c.r[4..][1];
    c' := RunReg(e, c0, c, y, xs, end, s, heap, d);
  }

  lemma RunDivision(e: Env, c0: Cpu, c: Cpu, op: byte, xs: seq<X>, end: nat, s: seq<word>, heap: seq<byte>)
    returns (c': Cpu)
    requires IsDivision(op) && At(e, c0, c, Arith(op) + xs, end, s, heap) && DividendOk(op, c.r[EAX]) && c.r[EBX] != 0
    ensures At(e, c0, c', xs, end, s, heap) && c'.r[EBP] == c.r[EBP]
    ensures BinaryOp(op, c.r[EAX], c.r[EBX]) == Some(c'.r[ResultReg(op)])
  {
    var y := Arith(op)[1];
    ArithParts(op, xs);
    var c1 := RunClear(e, c0, c, EDX, [y] + xs, end, s, heap);
    c' := RunDivision2(e, c0, c1, op, y, xs, end, s, heap);
  }

  /** A push ends the code of a token. */
  lemma RunPush(e: Env, c0: Cpu, c: Cpu, r: Reg, end: nat, t: seq<word>, heap: seq<byte>) returns (c': Cpu)
    requires At(e, c0, c, [Push(r)], end, t, heap) && 4 * (|t| + 1) <= e.top - e.lo
    ensures At(e, c0, c', [], end, t + [c.r[r]], heap) && (r != ESP ==> c'.r[EBP] == c.r[EBP])
  {
    assert [Push(r)][1..] == [];
    c' := DoPush(e, c0, c, [Push(r)], end, t, heap, r);
  }

  lemma RunBinary(e: Env, c0: Cpu, c: Cpu, op: byte, end: nat, t: seq<word>, a: word, b: word, heap: seq<byte>)
    returns (c': Cpu)
    requires IsBinary(op)
          && At(e, c0, c, [Pop(EBX), Pop(EAX)] + Arith(op) + [Push(ResultReg(op))], end, t + [a, b], heap)
    requires DividendOk(op, a) && BinaryOp(op, a, b).Some?
    ensures At(e, c0, c', [], end, t + [BinaryOp(op, a, b).value], heap) && c'.r[EBP] == c.r[EBP]
  {
    var xs := [Pop(EBX), Pop(EAX)] + Arith(op) + [Push(ResultReg(op))];
    assert xs[2..] == Arith(op) + [Push(ResultReg(op))];
    var c1 := RunPops(e, c0, c, xs, end, t, a, b, heap);
    var c2: Cpu;
    if IsShift(op) {
      c2 := RunShift(e, c0, c1, op, [Push(EAX)], end, t, heap);
    } else if IsDivision(op) {
      c2 := RunDivision(e, c0, c1, op, [Push(ResultReg(op))], end, t, heap);
    } else {
      c2 := RunArith1(e, c0, c1, op, [Push(EAX)], end, t, heap);
    }
    c' := RunPush(e, c0, c2, ResultReg(op), end, t, heap);
  }

  // ---------- comparisons, variables, constants ----------

  /** setcc cl; push ecx, with ecx clear: the truth value of the condition. */
  lemma RunSet(e: Env, c0: Cpu, c: Cpu, cc: int, end: nat, t: seq<word>, heap: seq<byte>) returns (c': Cpu)
    requires 0 <= cc < 16 && At(e, c0, c, [Set(cc, ECX), Push(ECX)], end, t, heap) && c.r[ECX] == 0
    requires 4 * (|t| + 1) <= e.top - e.lo
    ensures At(e, c0, c', [], end, t + [if Cond(cc, c.f) then 1 else 0], heap) && c'.r[EBP] == c.r[EBP]
  {
    assert [Set(cc, ECX), Push(ECX)] == [Set(cc, ECX)] + [Push(ECX)];
    var c1 := RunReg(e, c0, c, Set(cc, ECX), [Push(ECX)], end, t, heap, ExecReg(Set(cc, ECX), c).value);
    c' := RunPush(e, c0, c1, ECX, end, t, heap);
  }

  lemma RunCompare(e: Env, c0: Cpu, c: Cpu, op: byte, end: nat, t: seq<word>, a: word, b: word, heap: seq<byte>)
    returns (c': Cpu)
    requires IsCompare(op)
    requires At(e, c0, c, [Pop(EBX), Pop(EAX), Alu(XOR, ECX, ECX), Cmp(EAX, EBX), Set(CcOf(op), ECX), Push(ECX)], end,
          t + [a, b], heap)
    ensures At(e, c0, c', [], end, t + [if CompareOp(op, a, b) then 1 else 0], heap) && c'.r[EBP] == c.r[EBP]
  {
    var ys := [Set(CcOf(op), ECX), Push(ECX)];
    var xs := [Pop(EBX), Pop(EAX), Alu(XOR, ECX, ECX), Cmp(EAX, EBX)] + ys;
    assert xs == [Pop(EBX), Pop(EAX), Alu(XOR, ECX, ECX), Cmp(EAX, EBX), Set(CcOf(op), ECX), Push(ECX)];
    assert xs[2..] == [Alu(XOR, ECX, ECX)] + ([Cmp(EAX, EBX)] + ys);
    var c1 := RunPops(e, c0, c, xs, end, t, a, b, heap);
    var c2 := RunClear(e, c0, c1, ECX, [Cmp(EAX, EBX)] + ys, end, t, heap);
    var c3 := RunReg(e, c0, c2, Cmp(EAX, EBX), ys, end, t, heap, c2.(f := CmpFlags(a, b)));
    CondOfCmp(op, a, b);
    c' := RunSet(e, c0, c3, CcOf(op), end, t, heap);
  }

  /** pop eax */
  lemma RunPop(e: Env, c0: Cpu, c: Cpu, xs: seq<X>, end: nat, t: seq<word>, a: word, heap: seq<byte>) returns (c': Cpu)
    requires At(e, c0, c, [Pop(EAX)] + xs, end, t + [a], heap)
    ensures At(e, c0, c', xs, end, t, heap) && c'.r[EAX] == a && c'.r[EBP] == c.r[EBP] && c'.mem == c.mem
         && c'.eip == c.eip + 1
    ensures c'.r[EBX] == c.r[EBX]
  {
    assert ([Pop(EAX)] + xs)[1..] == xs && (t + [a])[..|t|] == t;
    c' := DoPop(e, c0, c, [Pop(EAX)] + xs, end, t + [a], heap, EAX);
  }

  lemma RunEqz(e: Env, c0: Cpu, c: Cpu, end: nat, t: seq<word>, a: word, heap: seq<byte>) returns (c': Cpu)
    requires At(e, c0, c, [Pop(EAX), Alu(XOR, ECX, ECX), Test(EAX, EAX), Set(CC_Z, ECX), Push(ECX)], end, t + [a], heap)
    ensures At(e, c0, c', [], end, t + [if a == 0 then 1 else 0], heap) && c'.r[EBP] == c.r[EBP]
  {
    var ys := [Set(CC_Z, ECX), Push(ECX)];
    assert [Pop(EAX), Alu(XOR, ECX, ECX), Test(EAX, EAX), Set(CC_Z, ECX), Push(ECX)]
        == [Pop(EAX)] + ([Alu(XOR, ECX, ECX)] + ([Test(EAX, EAX)] + ys));
    var c1 := RunPop(e, c0, c, [Alu(XOR, ECX, ECX)] + ([Test(EAX, EAX)] + ys), end, t, a, heap);
    var c2 := RunClear(e, c0, c1, ECX, [Test(EAX, EAX)] + ys, end, t, heap);
    var c3 := RunTest(e, c0, c2, ys, end, t, heap);
    c' := RunSet(e, c0, c3, CC_Z, end, t, heap);
  }

  /** test eax, eax */
  lemma RunTest(e: Env, c0: Cpu, c: Cpu, xs: seq<X>, end: nat, s: seq<word>, heap: seq<byte>) returns (c': Cpu)
    requires At(e, c0, c, [Test(EAX, EAX)] + xs, end, s, heap)
    ensures At(e, c0, c', xs, end, s, heap) && c'.r == c.r && Cond(CC_Z, c'.f) == (c.r[EAX] == 0) && c'.eip == c.eip + 2
  {
    XorSelf(c.r[EAX]);
    c' := RunReg(e, c0, c, Test(EAX, EAX), xs, end, s, heap, c.(f := LogicFlags(c.r[EAX])));
  }

  lemma RunConst(e: Env, c0: Cpu, c: Cpu, v: word, end: nat, t: seq<word>, heap: seq<byte>) returns (c': Cpu)
    requires At(e, c0, c, [MovRI(EAX, v), Push(EAX)], end, t, heap) && 4 * (|t| + 1) <= e.top - e.lo
    ensures At(e, c0, c', [], end, t + [v], heap) && c'.r[EBP] == c.r[EBP]
  {
    assert [MovRI(EAX, v), Push(EAX)] == [MovRI(EAX, v)] + [Push(EAX)];
    var c1 := RunReg(e, c0, c, MovRI(EAX, v), [Push(EAX)], end, t, heap, c.(r := c.r[EAX := v]));
    c' := RunPush(e, c0, c1, EAX, end, t, heap);
  }

  lemma RunGet(e: Env, c0: Cpu, c: Cpu, imm: word, k: nat, end: nat, t: seq<word>, heap: seq<byte>) returns (c': Cpu)
    requires At(e, c0, c, [MovRB(EAX, imm), Push(EAX)], end, t, heap) && 4 * (|t| + 1) <= e.top - e.lo
    requires k < |t| && c.r[EBP] + imm == Addr(e, k + 1)
    ensures At(e, c0, c', [], end, t + [t[k]], heap) && c'.r[EBP] == c.r[EBP]
  {
    assert [MovRB(EAX, imm), Push(EAX)][1..] == [Push(EAX)];
    var c1 := DoLoadVar(e, c0, c, [MovRB(EAX, imm), Push(EAX)], end, t, heap, EAX, imm, k);
    c' := RunPush(e, c0, c1, EAX, end, t, heap);
  }

  lemma RunPutVar(e: Env, c0: Cpu, c: Cpu, imm: word, k: nat, end: nat, t: seq<word>, a: word, heap: seq<byte>)
    returns (c': Cpu)
    requires At(e, c0, c, [Pop(EAX), MovBR(imm, EAX)], end, t + [a], heap)
    requires k < |t| && c.r[EBP] + imm == Addr(e, k + 1)
    ensures At(e, c0, c', [], end, t[k := a], heap) && c'.r[EBP] == c.r[EBP]
  {
    assert [Pop(EAX), MovBR(imm, EAX)] == [Pop(EAX)] + [MovBR(imm, EAX)];
    var c1 := RunPop(e, c0, c, [MovBR(imm, EAX)], end, t, a, heap);
    assert [MovBR(imm, EAX)][1..] == [];
    c' := DoStoreVar(e, c0, c1, [MovBR(imm, EAX)], end, t, heap, EAX, imm, k);
  }

  // ---------- the heap ----------

  lemma ExecScale(c: Cpu, op: byte)
    requires Width(op) > 1
    ensures Scale(op) == [ShlI(EAX, if Width(op) == 4 then 2 else 1)]
    ensures ExecReg(Scale(op)[0], c) == Some(c.(r := c.r[EAX := HeapAddr(op, c.r[EAX])], f := SCRATCH))
  {
    assert Pow2(1) == 2 && Pow2(2) == 4;
  }

  lemma RunScale(e: Env, c0: Cpu, c: Cpu, op: byte, xs: seq<X>, end: nat, s: seq<word>, heap: seq<byte>)
    returns (c': Cpu)
    requires At(e, c0, c, Scale(op) + xs, end, s, heap)
    ensures At(e, c0, c', xs, end, s, heap) && c'.r == c.r[EAX := HeapAddr(op, c.r[EAX])] && c'.mem == c.mem
    ensures c'.eip == c.eip + ScaleLen(op)
  {
    if Width(op) == 1 {
      assert Scale(op) + xs == xs;
      c' := c;
    } else {
      ExecScale(c, op);
      c' := RunReg(e, c0, c, Scale(op)[0], xs, end, s, heap, c.(r := c.r[EAX := HeapAddr(op, c.r[EAX])], f := SCRATCH));
    }
  }

  /** The bounds check: to the trap code, or on with an absolute address. */
  lemma RunGuard(e: Env, c0: Cpu, c: Cpu, xs: seq<X>, end: nat, s: seq<word>, heap: seq<byte>) returns (c': Cpu)
    requires At(e, c0, c, Guard(c.eip) + xs, end, s, heap)
    ensures if c.r[EAX] >= |heap| then Landed(e, c0, c', TRAPRET, s, heap) && c'.r == c.r
            else At(e, c0, c', xs, end, s, heap) && c'.r == c.r[EAX := e.h + c.r[EAX]]
  {
    var j := Jcc(CC_AE, Rel(c.eip + 8, TRAPRET));
    assert Guard(c.eip) + xs == [Cmp(EAX, ESI)] + ([j] + ([Alu(ADD, EAX, EDI)] + xs));
    var c1 := RunReg(e, c0, c, Cmp(EAX, ESI), [j] + ([Alu(ADD, EAX, EDI)] + xs), end, s, heap,
                     c.(f := CmpFlags(c.r[EAX], c.r[ESI])));
    assert ([j] + ([Alu(ADD, EAX, EDI)] + xs))[1..] == [Alu(ADD, EAX, EDI)] + xs;
    var c2 := DoJcc(e, c0, c1, [j] + ([Alu(ADD, EAX, EDI)] + xs), end, s, heap, CC_AE, TRAPRET);
    c' := c2;
    if c.r[EAX] < |heap| {
      c' := RunReg(e, c0, c2, Alu(ADD, EAX, EDI), xs, end, s, heap, ExecReg(Alu(ADD, EAX, EDI), c2).value);
    }
  }

  /** Both kinds of access up to the access itself: [eax] is the addressed element, or control is at the trap code. */
  lemma RunLoad(e: Env, c0: Cpu, c: Cpu, op: byte, end: nat, t: seq<word>, x: word, heap: seq<byte>) returns (c': Cpu)
    requires IsLoad(op)
    requires At(e, c0, c, [Pop(EAX)] + Scale(op) + Guard(c.eip + 1 + ScaleLen(op)) + [LoadX(op), Push(EAX)], end,
          t + [x], heap)
    requires HeapAddr(op, x) >= |heap| || HeapAddr(op, x) + Width(op) <= |heap|
    ensures c'.r[EBP] == c.r[EBP]
    ensures var a := HeapAddr(op, x);
            if a >= |heap| then Landed(e, c0, c', TRAPRET, t, heap)
            else At(e, c0, c', [], end, t + [LoadValue(op, heap, a)], heap)
  {
    var a := HeapAddr(op, x);
    var ys := [LoadX(op), Push(EAX)];
    var g := Guard(c.eip + 1 + ScaleLen(op));
    assert [Pop(EAX)] + Scale(op) + g + ys == [Pop(EAX)] + (Scale(op) + (g + ys));
    var c1 := RunPop(e, c0, c, Scale(op) + (g + ys), end, t, x, heap);
    var c2 := RunScale(e, c0, c1, op, g + ys, end, t, heap);
    var c3 := RunGuard(e, c0, c2, ys, end, t, heap);
    c' := c3;
    if a < |heap| {
      assert ys[1..] == [Push(EAX)];
      var c4 := DoLoad(e, c0, c3, ys, end, t, heap, op, a);
      c' := RunPush(e, c0, c4, EAX, end, t, heap);
    }
  }

  lemma StoreParts(op: byte, g: seq<X>, ys: seq<X>, xs: seq<X>)
    requires xs == [Pop(EBX), Pop(EAX)] + Scale(op) + g + ys
    ensures |xs| >= 2 && xs[..2] == [Pop(EBX), Pop(EAX)] && xs[2..] == Scale(op) + (g + ys)
  {
  }

  lemma RunStore(e: Env, c0: Cpu, c: Cpu, op: byte, end: nat, t: seq<word>, x: word, w: word, heap: seq<byte>)
    returns (c': Cpu)
    requires op == STR32 || op == STR8
    requires At(e, c0, c, [Pop(EBX), Pop(EAX)] + Scale(op) + Guard(c.eip + 2 + ScaleLen(op)) + [StoreX(op)], end,
          t + [x, w], heap)
    requires HeapAddr(op, x) >= |heap| || HeapAddr(op, x) + Width(op) <= |heap|
    ensures c'.r[EBP] == c.r[EBP]
    ensures var a := HeapAddr(op, x);
            if a >= |heap| then Landed(e, c0, c', TRAPRET, t, heap)
            else At(e, c0, c', [], end, t, StoreValue(op, heap, a, w))
  {
    var a := HeapAddr(op, x);
    var ys := [StoreX(op)];
    var g := Guard(c.eip + 2 + ScaleLen(op));
    var xs := [Pop(EBX), Pop(EAX)] + Scale(op) + g + ys;
    StoreParts(op, g, ys, xs);
    var c1 := RunPops(e, c0, c, xs, end, t, x, w, heap);
    var c2 := RunScale(e, c0, c1, op, g + ys, end, t, heap);
    var c3 := RunGuard(e, c0, c2, ys, end, t, heap);
    c' := c3;
    if a < |heap| {
      assert ys[1..] == [];
      c' := DoStore(e, c0, c3, ys, end, t, heap, op, a);
    }
  }

  // ---------- control ----------

  /** add esp; jmp */
  lemma RunJump(e: Env, c0: Cpu, c: Cpu, n: nat, target: word, end: nat, s: seq<word>, heap: seq<byte>)
    returns (c': Cpu)
    requires n <= |s| && At(e, c0, c, [AluI(0, ESP, Wrap(4 * n)), JmpRel(Rel(c.eip + 11, target))], end, s, heap)
    ensures Landed(e, c0, c', target, s[..|s| - n], heap) && c'.r[EBP] == c.r[EBP]
  {
    var xs := [AluI(0, ESP, Wrap(4 * n)), JmpRel(Rel(c.eip + 11, target))];
    assert Wrap(4 * n) == 4 * n;
    var c1 := DoDrop(e, c0, c, xs, end, s, heap, n);
    c' := DoJmp(e, c0, c1, xs[1..], end, s[..|s| - n], heap, target);
  }

  /** pop eax; test; jz over the jump */
  lemma RunBrIf(e: Env, c0: Cpu, c: Cpu, n: nat, target: word, end: nat, s: seq<word>, a: word, heap: seq<byte>)
    returns (c': Cpu)
    requires n <= |s|
    requires At(e, c0, c,
          [Pop(EAX), Test(EAX, EAX), Jcc(CC_Z, 11), AluI(0, ESP, Wrap(4 * n)), JmpRel(Rel(c.eip + 20, target))], end,
          s + [a], heap)
    requires end == c.eip + 20
    ensures c'.r[EBP] == c.r[EBP]
    ensures if a == 0 then Landed(e, c0, c', end, s, heap) else Landed(e, c0, c', target, s[..|s| - n], heap)
  {
    var ys := [AluI(0, ESP, Wrap(4 * n)), JmpRel(Rel(c.eip + 20, target))];
    var zs := [Jcc(CC_Z, 11)] + ys;
    assert [Pop(EAX), Test(EAX, EAX), Jcc(CC_Z, 11), AluI(0, ESP, Wrap(4 * n)), JmpRel(Rel(c.eip + 20, target))]
        == [Pop(EAX)] + ([Test(EAX, EAX)] + zs);
    var c1 := RunPop(e, c0, c, [Test(EAX, EAX)] + zs, end, s, a, heap);
    var c2 := RunTest(e, c0, c1, zs, end, s, heap);
    assert zs[1..] == ys && zs[0] == Jcc(CC_Z, 11);
    EndBounded(e.list, c2.eip, zs, end);
    assert Rel(c2.eip + 6, end) == 11;
    var c3 := DoJcc(e, c0, c2, zs, end, s, heap, CC_Z, end);
    c' := c3;
    if a != 0 {
      c' := RunJump(e, c0, c3, n, target, end, s, heap);
    }
  }

  lemma {:induction false} EndBounded(list: Listing, p: nat, xs: seq<X>, end: nat)
    requires HoldsTo(list, p, xs, end) && xs != []
    ensures end < TWO32
    decreases |xs|
  {
    if |xs| > 1 { EndBounded(list, p + Len(xs[0]), xs[1..], end); }
  }

  lemma RunTrap(e: Env, c0: Cpu, c: Cpu, end: nat, s: seq<word>, heap: seq<byte>) returns (c': Cpu)
    requires At(e, c0, c, [JmpRel(Rel(c.eip + 5, TRAPRET))], end, s, heap)
    ensures Landed(e, c0, c', TRAPRET, s, heap) && c'.r[EBP] == c.r[EBP]
  {
    c' := DoJmp(e, c0, c, [JmpRel(Rel(c.eip + 5, TRAPRET))], end, s, heap, TRAPRET);
  }

  /** `end` of a block that was opened with as many operands as the enclosing one. */
  lemma RunEnd(e: Env, c0: Cpu, c: Cpu, end: nat, s: seq<word>, heap: seq<byte>) returns (c': Cpu)
    requires At(e, c0, c, [AluI(0, ESP, 0)], end, s, heap)
    ensures At(e, c0, c', [], end, s, heap) && c'.r[EBP] == c.r[EBP]
  {
    assert s[..|s| - 0] == s && [AluI(0, ESP, 0)][1..] == [];
    c' := DoDrop(e, c0, c, [AluI(0, ESP, 0)], end, s, heap, 0);
  }

  /** mov ebp, esp; sub ebp, 4: EBP at the slot the return address will take. */
  lemma RunNewFrame(e: Env, c0: Cpu, c: Cpu, xs: seq<X>, end: nat, s: seq<word>, heap: seq<byte>) returns (c': Cpu)
    requires At(e, c0, c, [MovRR(EBP, ESP)] + ([AluI(5, EBP, 4)] + xs), end, s, heap) && 4 * (|s| + 1) <= e.top
    ensures At(e, c0, c', xs, end, s, heap) && c'.r == c.r[EBP := Addr(e, |s| + 1)] && c'.eip == c.eip + 8
  {
    var ys := [AluI(5, EBP, 4)] + xs;
    assert ([MovRR(EBP, ESP)] + ys)[1..] == ys && ys[1..] == xs;
    var c1 := DoReg(e, c0, c, [MovRR(EBP, ESP)] + ys, end, s, heap, c.(r := c.r[EBP := c.r[ESP]]));
    var d := ExecReg(AluI(5, EBP, 4), c1).value;
    c' := DoReg(e, c0, c1, ys, end, s, heap, d);
  }

  /** sub esp, 0; push ebp */
  lemma RunSaveEbp(e: Env, c0: Cpu, c: Cpu, xs: seq<X>, end: nat, s: seq<word>, heap: seq<byte>) returns (c': Cpu)
    requires At(e, c0, c, [AluI(5, ESP, 0)] + ([Push(EBP)] + xs), end, s, heap) && 4 * (|s| + 1) <= e.top - e.lo
    ensures At(e, c0, c', xs, end, s + [c.r[EBP]], heap) && c'.eip == c.eip + 7
  {
    var c1 := RunReg(e, c0, c, AluI(5, ESP, 0), [Push(EBP)] + xs, end, s, heap, ExecReg(AluI(5, ESP, 0), c).value);
    assert ([Push(EBP)] + xs)[1..] == xs;
    c' := DoPush(e, c0, c1, [Push(EBP)] + xs, end, s, heap, EBP);
  }

  lemma CallParts(p: nat, callee: Fn, addr: int)
    requires callee.locals == []
    ensures EmitCall(p, callee, addr) ==
            [AluI(5, ESP, 0)] + ([Push(EBP)] + ([MovRR(EBP, ESP)] + ([AluI(5, EBP, 4)]
              + ([CallRel(Rel(p + 20, addr))] + AfterCall(callee)))))
  {
  }

  /** A call of a function without locals: the caller's EBP and the return address come on top of the arguments. */
  lemma RunCall(e: Env, c0: Cpu, c: Cpu, callee: Fn, addr: word, end: nat, s: seq<word>, heap: seq<byte>)
    returns (c': Cpu)
    requires callee.locals == [] && At(e, c0, c, EmitCall(c.eip, callee, addr), end, s, heap)
    requires c.eip + 20 < TWO32 && 4 * (|s| + 2) <= e.top - e.lo
    ensures Landed(e, c0, c', addr, s + [c.r[EBP], c.eip + 20], heap) && c'.r[EBP] == Addr(e, |s| + 2)
  {
    var p: word := c.eip + 20;
    var zs := [CallRel(Rel(p, addr))] + AfterCall(callee);
    CallParts(c.eip, callee, addr);
    var s2 := s + [c.r[EBP]];
    var c2 := RunSaveEbp(e, c0, c, [MovRR(EBP, ESP)] + ([AluI(5, EBP, 4)] + zs), end, s, heap);
    var c3 := RunNewFrame(e, c0, c2, zs, end, s2, heap);
    c' := DoCall(e, c0, c3, zs, end, s2, heap, p, addr);
    assert s2 + [p] == s + [c.r[EBP], p];
  }

  lemma AfterCallIs(callee: Fn, xs: seq<X>, add: X, ys: seq<X>)
    requires xs == AfterCall(callee) && add == AluI(0, ESP, Wrap(4 * (|callee.params| + |callee.locals|)))
    requires ys == if callee.rt then [Push(EAX)] else []
    ensures xs != [] && xs[0] == Pop(EBP) && xs[1..] == [add] + ys && ([add] + ys)[1..] == ys
  {
    assert xs == [Pop(EBP)] + ([add] + ys);
  }

  /** Back in the caller: EBP is restored, the callee's variables go, its result comes. */
  lemma RunAfterCall(e: Env, c0: Cpu, c: Cpu, callee: Fn, end: nat, t: seq<word>, vars: seq<word>, ebp: word,
                     heap: seq<byte>)
    returns (c': Cpu)
    requires |vars| == |callee.params| + |callee.locals| && At(e, c0, c, AfterCall(callee), end, t + vars + [ebp], heap)
    ensures At(e, c0, c', [], end, t + (if callee.rt then [c.r[EAX]] else []), heap)
    ensures c'.r[EBP] == ebp
  {
    var s := t + vars + [ebp];
    var n := |vars|;
    var xs := AfterCall(callee);
    var ys := if callee.rt then [Push(EAX)] else [];
    var add := AluI(0, ESP, Wrap(4 * n));
    AfterCallIs(callee, xs, add, ys);
    assert s[..|s| - 1] == t + vars && s[|s| - 1] == ebp;
    var c1 := DoPop(e, c0, c, xs, end, s, heap, EBP);
    assert Wrap(4 * n) == 4 * n;
    assert (t + vars)[..|t + vars| - n] == t;
    var c2 := DoDrop(e, c0, c1, [add] + ys, end, t + vars, heap, n);
    c' := c2;
    if callee.rt {
      c' := RunPush(e, c0, c2, EAX, end, t, heap);
    } else {
      assert t + [] == t;
    }
  }

  /** mov esp, ebp; ret */
  lemma RunLeave(e: Env, c0: Cpu, c: Cpu, n: nat, end: nat, s: seq<word>, heap: seq<byte>) returns (c': Cpu)
    requires At(e, c0, c, [MovRR(ESP, EBP), RetFn], end, s, heap) && 0 < n <= |s| && c.r[EBP] == Addr(e, n)
    ensures Landed(e, c0, c', s[n - 1], s[..n - 1], heap) && c'.r[EAX] == c.r[EAX]
  {
    var xs := [MovRR(ESP, EBP), RetFn];
    var c1 := DoUnwind(e, c0, c, xs, end, s, heap, n);
    assert s[..n][n - 1] == s[n - 1] && s[..n][..n - 1] == s[..n - 1];
    c' := DoRet(e, c0, c1, xs[1..], end, s[..n], heap);
  }

  lemma RunRet(e: Env, c0: Cpu, c: Cpu, rt: bool, n: nat, end: nat, s: seq<word>, heap: seq<byte>) returns (c': Cpu)
    requires At(e, c0, c, (if rt then [Pop(EAX)] else []) + [MovRR(ESP, EBP), RetFn], end, s, heap)
    requires 0 < n <= |s| && c.r[EBP] == Addr(e, n) && (rt ==> n < |s|)
    ensures Landed(e, c0, c', s[n - 1], s[..n - 1], heap) && (rt ==> c'.r[EAX] == s[|s| - 1])
  {
    var ys := [MovRR(ESP, EBP), RetFn];
    if rt {
      var t := s[..|s| - 1];
      assert s == t + [s[|s| - 1]];
      var c1 := RunPop(e, c0, c, ys, end, t, s[|s| - 1], heap);
      c' := RunLeave(e, c0, c1, n, end, t, heap);
      assert t[..n - 1] == s[..n - 1];
    } else {
      assert [] + ys == ys;
      c' := RunLeave(e, c0, c, n, end, s, heap);
    }
  }
}
