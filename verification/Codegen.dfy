/** The code to_asm.c emits for a program: what each token becomes, where its code lies and where branches go. */
module Codegen {
  import opened Words
  import opened Counting
  import opened Sume
  import opened Integers
  import opened StackMachine
  import opened X86
  import opened Cpu
  import opened MachineView

  // ---------- fixed parts ----------

  const GOODRET: nat := 57
  const TRAPRET: nat := 66
  const START: nat := 94

  /** Entered as a C function (heap, heap size, end of stack area), save what the caller keeps. */
  function Enter(): seq<X> {
    [Push(EBP), MovRR(EBP, ESP), Push(EBX), Push(ESI), Push(EDI)]
  }

  function Arguments(): seq<X> {
    [MovRB(EDI, 8), MovRB(ESI, 12), MovRB(EAX, 16), AluI(5, EAX, 4), MovRR(EBP, EAX)]
  }

  /** Keep the old ESP in the topmost word of the stack area and move there. */
  function SwitchStack(): seq<X> {
    [MovMR(EAX, ESP), MovRR(ESP, EAX), MovRR(EBP, ESP)]
  }

  /** Call the first function, which has this many locals. */
  function CallFirst(locals: nat, start: int): seq<X> {
    [AluI(5, ESP, Wrap(4 * locals)), Push(EBP), MovRR(EBP, ESP), AluI(5, EBP, 4), CallRel(Rel(57, start))]
  }

  function Prelude(locals: nat, start: int): seq<X> {
    Enter() + Arguments() + SwitchStack() + CallFirst(locals, start)
  }

  /** Back to the old stack and the caller's registers. */
  function Leave(): seq<X> {
    [Pop(ESP), Pop(EDI), Pop(ESI), Pop(EBX), Pop(EBP)]
  }

  function Goodret(): seq<X> {
    [Pop(ESP)] + Leave() + [Alu(XOR, EAX, EAX), RetFn]
  }

  /** Unwind frame by frame, along the saved EBPs, until the return address is that of the first function. */
  function Unwind(): seq<X> {
    [Pop(EAX), Pop(ESP), Cmp(EAX, EBX), Jcc(CC_NE, Wrap(-10))]
  }

  function Trapret(): seq<X> {
    [MovRR(ESP, EBP), MovRI(EBX, GOODRET)] + (Unwind() + (Leave() + [MovRI(EAX, TWO32 - 1), RetFn]))
  }

  // ---------- one token ----------

  /** What a token's code depends on beside the token: the current function, the operand count at this point, the
      operands an inner `end` drops, and the callee of a call or the address of a branch target. */
  datatype Info = Info(fn: Fn, height: int, drop: int, inner: bool, callee: Fn, addr: int)

  /** Tokens whose code is meant to do what they say: that of clz and ctz takes two operands, and popcnt and str16 have
      none. */
  predicate Supported(i: Instr) {
    i.Plain? ==>
      || IsBinary(i.op) || i.op == I_EQZ || IsCompare(i.op) || IsLoad(i.op) || i.op == I_MEMSZ
      || i.op == STR32 || i.op == STR8 || i.op == TRAP || i.op == BLOCK || i.op == LOOP || i.op == RET || i.op == END
  }

  /** eax := eax op ebx, for the quotient and the remainder of eax by ebx: eax and edx. */
  function Arith(op: byte): seq<X> {
    if op == I_ADD then [Alu(ADD, EAX, EBX)]
    else if op == I_SUB then [Alu(SUB, EAX, EBX)]
    else if op == I_AND then [Alu(AND, EAX, EBX)]
    else if op == I_OR then [Alu(OR, EAX, EBX)]
    else if op == I_XOR then [Alu(XOR, EAX, EBX)]
    else if op == I_MUL then [Group3(4, EBX)]
    else if op == I_DIV_U || op == I_REM_U then [Alu(XOR, EDX, EDX), Group3(6, EBX)]
    else if op == I_DIV_S || op == I_REM_S then [Alu(XOR, EDX, EDX), Group3(7, EBX)]
    else if op == I_SHL then [MovRR(ECX, EBX), ShiftCl(4, EAX)]
    else if op == I_SHR_U then [MovRR(ECX, EBX), ShiftCl(5, EAX)]
    else if op == I_SHR_S then [MovRR(ECX, EBX), ShiftCl(7, EAX)]
    else if op == I_ROTL then [MovRR(ECX, EBX), ShiftCl(0, EAX)]
    else [MovRR(ECX, EBX), ShiftCl(1, EAX)]
  }

  function ResultReg(op: byte): Reg {
    if op == I_REM_S || op == I_REM_U then EDX else EAX
  }

  /** Scale the index in eax to bytes. */
  function Scale(op: byte): seq<X> {
    if Width(op) == 4 then [ShlI(EAX, 2)] else if Width(op) == 2 then [ShlI(EAX, 1)] else []
  }

  /** Trap unless the address in eax is below the heap size, then make it absolute; p is where the code starts. */
  function Guard(p: nat): seq<X> {
    [Cmp(EAX, ESI), Jcc(CC_AE, Rel(p + 8, TRAPRET)), Alu(ADD, EAX, EDI)]
  }

  function ScaleLen(op: byte): nat {
    if Width(op) == 1 then 0 else 3
  }

  function EmitPlain(op: byte, p: nat, n: Info): seq<X> {
    if IsBinary(op) then [Pop(EBX), Pop(EAX)] + Arith(op) + [Push(ResultReg(op))]
    else if op == I_CLZ || op == I_CTZ then
      [Pop(EBX), Pop(EAX), BitScan(if op == I_CLZ then 0xbc else 0xbd, EAX, EAX), Push(EAX)]
    else if op == I_EQZ then [Pop(EAX), Alu(XOR, ECX, ECX), Test(EAX, EAX), Set(CC_Z, ECX), Push(ECX)]
    else if IsCompare(op) then
      [Pop(EBX), Pop(EAX), Alu(XOR, ECX, ECX), Cmp(EAX, EBX), Set(CcOf(op), ECX), Push(ECX)]
    else if IsLoad(op) then [Pop(EAX)] + Scale(op) + Guard(p + 1 + ScaleLen(op)) + [LoadX(op), Push(EAX)]
    else if op == I_MEMSZ then [Push(ESI)]
    else if op == STR32 || op == STR8 then [Pop(EBX), Pop(EAX)] + Scale(op) + Guard(p + 2 + ScaleLen(op)) + [StoreX(op)]
    else if op == TRAP then [JmpRel(Rel(p + 5, TRAPRET))]
    else if op == RET then (if n.fn.rt then [Pop(EAX)] else []) + [MovRR(ESP, EBP), RetFn]
    else if op == END && n.inner then [AluI(0, ESP, Wrap(4 * n.drop))]
    else []
  }

  /** Displacement of variable v from EBP. */
  function VarDisp(fn: Fn, v: int): word {
    Wrap(4 * (|fn.params| + |fn.locals| - v + 1))
  }

  function EmitCall(p: nat, callee: Fn, addr: int): seq<X> {
    [AluI(5, ESP, Wrap(|callee.locals|)), Push(EBP), MovRR(EBP, ESP), AluI(5, EBP, 4), CallRel(Rel(p + 20, addr))]
    + AfterCall(callee)
  }

  function AfterCall(callee: Fn): seq<X> {
    [Pop(EBP), AluI(0, ESP, Wrap(4 * (|callee.params| + |callee.locals|)))] + (if callee.rt then [Push(EAX)] else [])
  }

  function EmitImm(op: byte, v: word, p: nat, n: Info): seq<X> {
    if op == I_CONST then [MovRI(EAX, v), Push(EAX)]
    else if op == GET_L then [MovRB(EAX, VarDisp(n.fn, v)), Push(EAX)]
    else if op == SET_L then [Pop(EAX), MovBR(VarDisp(n.fn, v), EAX)]
    else if op == BR then [AluI(0, ESP, Wrap(4 * n.height)), JmpRel(Rel(p + 11, n.addr))]
    else if op == BR_IF then
      [Pop(EAX), Test(EAX, EAX), Jcc(CC_Z, 11), AluI(0, ESP, Wrap(4 * (n.height - 1))), JmpRel(Rel(p + 20, n.addr))]
    else EmitCall(p, n.callee, n.addr)
  }

  /** The code of a token that starts at p. */
  function Emit(i: Instr, p: nat, n: Info): seq<X> {
    match i
    case Plain(op) => EmitPlain(op, p, n)
    case Imm(op, v) => EmitImm(op, v, p, n)
    case Decl(_, _, _) => []
  }

  // ---------- sizes and bytes ----------

  function Size(xs: seq<X>): nat {
    if xs == [] then 0 else Len(xs[0]) + Size(xs[1..])
  }

  ghost predicate AllWellFormedX(xs: seq<X>) {
    forall k | 0 <= k < |xs| :: WellFormedX(xs[k])
  }

  function Bytes(xs: seq<X>): (r: seq<byte>)
    requires AllWellFormedX(xs)
    ensures |r| == Size(xs)
  {
    if xs == [] then [] else EncodeX(xs[0]) + Bytes(xs[1..])
  }

  lemma {:induction false} SizeOfSum(xs: seq<X>, ys: seq<X>)
    ensures Size(xs + ys) == Size(xs) + Size(ys)
  {
    if xs == [] {
      assert xs + ys == ys;
    } else {
      assert (xs + ys)[1..] == xs[1..] + ys;
      SizeOfSum(xs[1..], ys);
    }
  }

  lemma Size1(xs: seq<X>)
    requires |xs| == 1
    ensures Size(xs) == Len(xs[0])
  {
  }

  lemma Size2(xs: seq<X>)
    requires |xs| == 2
    ensures Size(xs) == Len(xs[0]) + Len(xs[1])
  {
    Size1(xs[1..]);
  }

  lemma Size3(xs: seq<X>)
    requires |xs| == 3
    ensures Size(xs) == Len(xs[0]) + Len(xs[1]) + Len(xs[2])
  {
    Size2(xs[1..]);
  }

  lemma Size5(xs: seq<X>)
    requires |xs| == 5
    ensures Size(xs) == Len(xs[0]) + Len(xs[1]) + Len(xs[2]) + Len(xs[3]) + Len(xs[4])
  {
    Size3(xs[1..][1..]);
  }

  /** Code size in bytes: it depends on the token, the functions involved and the nesting, not on addresses. */
  function TokenSize(i: Instr, fn: Fn, inner: bool, callee: Fn): nat {
    match i
    case Decl(_, _, _) => 0
    case Plain(op) =>
      if IsBinary(op) then
        (if op == I_DIV_S || op == I_DIV_U || op == I_REM_S || op == I_REM_U || IsShift(op) then 7 else 5)
      else if op == I_CLZ || op == I_CTZ then 6
      else if op == I_EQZ then 9
      else if IsCompare(op) then 10
      else if IsLoad(op) then 12 + ScaleLen(op) + (if op == I_LD32 then 2 else 3)
      else if op == I_MEMSZ then 1
      else if op == STR32 || op == STR8 then 14 + ScaleLen(op)
      else if op == TRAP then 5
      else if op == RET then (if fn.rt then 4 else 3)
      else if op == END && inner then 6
      else 0
    case Imm(op, v) =>
      if op == I_CONST then 6
      else if op == GET_L || op == SET_L then 7
      else if op == BR then 11
      else if op == BR_IF then 20
      else if callee.rt then 28 else 27
  }

  predicate IsShift(op: byte) {
    op == I_SHL || op == I_SHR_S || op == I_SHR_U || op == I_ROTL || op == I_ROTR
  }

  lemma SizeOfBinary(op: byte)
    requires IsBinary(op)
    ensures Size([Pop(EBX), Pop(EAX)] + Arith(op) + [Push(ResultReg(op))]) == TokenSize(Plain(op), NOFN, false, NOFN)
  {
    SizeOfSum([Pop(EBX), Pop(EAX)] + Arith(op), [Push(ResultReg(op))]);
    SizeOfSum([Pop(EBX), Pop(EAX)], Arith(op));
    Size2([Pop(EBX), Pop(EAX)]);
    var xs := Arith(op);
    if |xs| == 1 { Size1(xs); } else { Size2(xs); }
  }

  lemma SizeOfScan(op: byte)
    ensures Size([Pop(EBX), Pop(EAX), BitScan(op, EAX, EAX), Push(EAX)]) == 6
  {
    var xs := [Pop(EBX), Pop(EAX), BitScan(op, EAX, EAX), Push(EAX)];
    Size3(xs[1..]);
  }

  lemma SizeOfCompare(cc: int)
    ensures Size([Pop(EBX), Pop(EAX), Alu(XOR, ECX, ECX), Cmp(EAX, EBX), Set(cc, ECX), Push(ECX)]) == 10
  {
    var xs := [Pop(EBX), Pop(EAX), Alu(XOR, ECX, ECX), Cmp(EAX, EBX), Set(cc, ECX), Push(ECX)];
    Size5(xs[1..]);
  }

  lemma SizeOfAccess(pops: seq<X>, op: byte, q: nat, rest: seq<X>)
    ensures Size(pops + Scale(op) + Guard(q) + rest) == Size(pops) + ScaleLen(op) + 10 + Size(rest)
  {
    SizeOfSum(pops + Scale(op) + Guard(q), rest);
    SizeOfSum(pops + Scale(op), Guard(q));
    SizeOfSum(pops, Scale(op));
    Size3(Guard(q));
  }

  lemma SizeOfLoad(op: byte, q: nat)
    ensures Size([Pop(EAX)] + Scale(op) + Guard(q) + [LoadX(op), Push(EAX)])
         == 12 + ScaleLen(op) + if op == I_LD32 then 2 else 3
  {
    SizeOfAccess([Pop(EAX)], op, q, [LoadX(op), Push(EAX)]);
    Size2([LoadX(op), Push(EAX)]);
  }

  lemma SizeOfStore(op: byte, q: nat)
    ensures Size([Pop(EBX), Pop(EAX)] + Scale(op) + Guard(q) + [StoreX(op)]) == 14 + ScaleLen(op)
  {
    SizeOfAccess([Pop(EBX), Pop(EAX)], op, q, [StoreX(op)]);
    Size2([Pop(EBX), Pop(EAX)]);
  }

  lemma SizeOfRet(rt: bool)
    ensures Size((if rt then [Pop(EAX)] else []) + [MovRR(ESP, EBP), RetFn]) == if rt then 4 else 3
  {
    SizeOfSum(if rt then [Pop(EAX)] else [], [MovRR(ESP, EBP), RetFn]);
    Size2([MovRR(ESP, EBP), RetFn]);
  }

  lemma SizeOfPlain(op: byte, p: nat, n: Info)
    ensures Size(EmitPlain(op, p, n)) == TokenSize(Plain(op), n.fn, n.inner, n.callee)
  {
    if IsBinary(op) { SizeOfBinary(op); }
    else if op == I_CLZ || op == I_CTZ { SizeOfScan(if op == I_CLZ then 0xbc else 0xbd); }
    else if op == I_EQZ { Size5(EmitPlain(op, p, n)); }
    else if IsCompare(op) { SizeOfCompare(CcOf(op)); }
    else if IsLoad(op) { SizeOfLoad(op, p + 1 + ScaleLen(op)); }
    else if op == STR32 || op == STR8 { SizeOfStore(op, p + 2 + ScaleLen(op)); }
    else if op == RET { SizeOfRet(n.fn.rt); }
  }

  lemma SizeOfAfterCall(callee: Fn)
    ensures Size(AfterCall(callee)) == if callee.rt then 8 else 7
  {
    var xs := AfterCall(callee);
    if callee.rt {
      assert |xs| == 3;
      Size3(xs);
    } else {
      assert |xs| == 2;
      Size2(xs);
    }
  }

  lemma SizeOfCall(p: nat, callee: Fn, addr: int)
    ensures Size(EmitCall(p, callee, addr)) == if callee.rt then 28 else 27
  {
    var xs := [AluI(5, ESP, Wrap(|callee.locals|)), Push(EBP), MovRR(EBP, ESP), AluI(5, EBP, 4),
               CallRel(Rel(p + 20, addr))];
    SizeOfSum(xs, AfterCall(callee));
    Size5(xs);
    SizeOfAfterCall(callee);
  }

  lemma SizeOfImm(op: byte, v: word, p: nat, n: Info)
    ensures Size(EmitImm(op, v, p, n)) == TokenSize(Imm(op, v), n.fn, n.inner, n.callee)
  {
    if op == I_CONST || op == GET_L || op == SET_L || op == BR {
      Size2(EmitImm(op, v, p, n));
    } else if op == BR_IF {
      Size5(EmitImm(op, v, p, n));
    } else {
      SizeOfCall(p, n.callee, n.addr);
    }
  }

  lemma SizeOfEmit(i: Instr, p: nat, n: Info)
    ensures Size(Emit(i, p, n)) == TokenSize(i, n.fn, n.inner, n.callee)
  {
    match i
    case Plain(op) => SizeOfPlain(op, p, n);
    case Imm(op, v) => SizeOfImm(op, v, p, n);
    case Decl(_, _, _) =>
  }

  lemma WellFormedAccess(pops: seq<X>, op: byte, q: nat, rest: seq<X>)
    requires AllWellFormedX(pops) && AllWellFormedX(rest)
    ensures AllWellFormedX(pops + Scale(op) + Guard(q) + rest)
  {
    assert AllWellFormedX(Scale(op)) && AllWellFormedX(Guard(q));
  }

  lemma WellFormedPlain(op: byte, p: nat, n: Info)
    ensures AllWellFormedX(EmitPlain(op, p, n))
  {
    if IsBinary(op) { assert AllWellFormedX(Arith(op)); }
    else if IsLoad(op) { WellFormedAccess([Pop(EAX)], op, p + 1 + ScaleLen(op), [LoadX(op), Push(EAX)]); }
    else if op == STR32 || op == STR8 {
      WellFormedAccess([Pop(EBX), Pop(EAX)], op, p + 2 + ScaleLen(op), [StoreX(op)]);
    }
  }

  lemma WellFormedImm(op: byte, v: word, p: nat, n: Info)
    ensures AllWellFormedX(EmitImm(op, v, p, n))
  {
    if op != I_CONST && op != GET_L && op != SET_L && op != BR && op != BR_IF {
      var addr, callee := n.addr, n.callee;
      var xs := [AluI(5, ESP, Wrap(|callee.locals|)), Push(EBP), MovRR(EBP, ESP), AluI(5, EBP, 4),
                 CallRel(Rel(p + 20, addr))];
      assert AllWellFormedX(xs);
      assert AllWellFormedX(AfterCall(callee));
      assert EmitImm(op, v, p, n) == xs + AfterCall(callee);
    }
  }

  lemma EmitIsWellFormed(i: Instr, p: nat, n: Info)
    ensures AllWellFormedX(Emit(i, p, n))
  {
    match i
    case Plain(op) => WellFormedPlain(op, p, n);
    case Imm(op, v) => WellFormedImm(op, v, p, n);
    case Decl(_, _, _) =>
  }

  // ---------- the generator's state ----------

  /** An open block or function: the token that opened it and the operand count then. */
  datatype Open = Open(at: nat, height: int)

  /** Generator state before a token: operand count, number of the current function, open blocks. */
  datatype Gs = Gs(stkh: int, fn: int, open: seq<Open>)

  const G0: Gs := Gs(0, -1, [])

  const NOFN: Fn := Fn(false, [], [], 0)

  function FnOf(fns: seq<Fn>, v: int): Fn {
    if 0 <= v < |fns| then fns[v] else NOFN
  }

  /** Operands a token leaves minus operands it takes, as push_r32 and pop_r32 count them. */
  function Delta(i: Instr, fn: Fn, callee: Fn): int {
    match i
    case Decl(_, _, _) => 0
    case Plain(op) =>
      if IsBinary(op) || IsCompare(op) || op == I_CLZ || op == I_CTZ then -1
      else if op == I_MEMSZ then 1
      else if op == STR32 || op == STR8 then -2
      else if op == RET && fn.rt then -1
      else 0
    case Imm(op, v) =>
      if op == I_CONST || op == GET_L then 1
      else if op == SET_L || op == BR_IF then -1
      else if op == BR then 0
      else (if callee.rt then 1 else 0) - |callee.params|
  }

  function Callee(fns: seq<Fn>, i: Instr): Fn {
    if i.Imm? && i.op == CALL then FnOf(fns, i.v) else NOFN
  }

  function Drop(gs: Gs): int {
    var n := |gs.open|;
    if n >= 2 then gs.open[n - 1].height - gs.open[n - 2].height else 0
  }

  function GNext(fns: seq<Fn>, gs: Gs, i: Instr, k: nat): Gs {
    var n := |gs.open|;
    if i.Decl? then Gs(gs.stkh, gs.fn + 1, gs.open + [Open(k, 0)])
    else if Opens(i) then gs.(open := gs.open + [Open(k, gs.stkh)])
    else if i == Plain(END) then
      if n >= 2 then gs.(stkh := gs.open[n - 2].height, open := gs.open[..n - 1])
      else if n == 1 then gs.(open := []) else gs
    else gs.(stkh := gs.stkh + Delta(i, FnOf(fns, gs.fn), Callee(fns, i)))
  }

  /** Functions are declared outside all blocks, everything else stands inside one, and indices have meaning. */
  predicate Placed(fns: seq<Fn>, gs: Gs, i: Instr) {
    if i.Decl? then gs.open == [] && gs.fn + 1 < |fns|
    else
      && gs.open != [] && 0 <= gs.fn < |fns|
      && (i.Imm? && (i.op == BR || i.op == BR_IF) ==> i.v < |gs.open| - 1)
      && (i.Imm? && i.op == CALL ==> i.v < |fns|)
  }

  /** Token k takes the generator from its k-th state and offset to the next. */
  ghost predicate GStepsTo(code: seq<Instr>, fns: seq<Fn>, gss: seq<Gs>, offs: seq<nat>, k: nat) {
    && k < |code| && |gss| == |code| + 1 && |offs| == |code| + 1
    && Placed(fns, gss[k], code[k]) && gss[k + 1] == GNext(fns, gss[k], code[k], k)
    && offs[k + 1] == offs[k] + TokenSize(code[k], FnOf(fns, gss[k].fn), |gss[k].open| > 1, Callee(fns, code[k]))
  }

  /** gss and offs list the generator's state and the code offset before every token and at the end. */
  ghost predicate Trace(code: seq<Instr>, fns: seq<Fn>, gss: seq<Gs>, offs: seq<nat>) {
    && |gss| == |code| + 1 && |offs| == |code| + 1 && gss[0] == G0 && offs[0] == START && fns == Fns(code)
    && forall k | 0 <= k < |code| :: GStepsTo(code, fns, gss, offs, k)
  }

  // ---------- targets ----------

  /** Where a branch to the block opened at token `at` goes: the start of a loop, the place behind a block. */
  function Target(code: seq<Instr>, offs: seq<nat>, at: nat): int
    requires at < |code| && |offs| == |code| + 1
  {
    if code[at] == Plain(LOOP) then offs[at]
    else
      var e := Close(code, at + 1, 0);
      if e < |code| then offs[e + 1] else 0
  }

  /** The address a token refers to. */
  function Aim(code: seq<Instr>, fns: seq<Fn>, gs: Gs, offs: seq<nat>, i: Instr): int
    requires |offs| == |code| + 1 && Placed(fns, gs, i)
  {
    if i.Imm? && (i.op == BR || i.op == BR_IF) then
      var at := gs.open[|gs.open| - 1 - i.v].at;
      if at < |code| then Target(code, offs, at) else 0
    else if i.Imm? && i.op == CALL then
      if fns[i.v].at < |code| then offs[fns[i.v].at] else 0
    else 0
  }

  function InfoAt(code: seq<Instr>, fns: seq<Fn>, gs: Gs, offs: seq<nat>, i: Instr): Info
    requires |offs| == |code| + 1 && Placed(fns, gs, i)
  {
    Info(FnOf(fns, gs.fn), gs.stkh, Drop(gs), |gs.open| > 1, Callee(fns, i), Aim(code, fns, gs, offs, i))
  }

  /** The bytes from p to end are those of xs. */
  ghost predicate Lies(out: seq<byte>, p: nat, xs: seq<X>, end: nat) {
    AllWellFormedX(xs) && p + Size(xs) == end <= |out| && out[p..end] == Bytes(xs)
  }

  /** Token k's code lies where it should, with every branch, call and variable resolved. */
  ghost predicate TokenLies(code: seq<Instr>, fns: seq<Fn>, gss: seq<Gs>, offs: seq<nat>, out: seq<byte>, k: nat)
    requires Trace(code, fns, gss, offs)
  {
    k < |code| && Placed(fns, gss[k], code[k])
    && Lies(out, offs[k], Emit(code[k], offs[k], InfoAt(code, fns, gss[k], offs, code[k])), offs[k + 1])
  }

  /** out is the translation of code. */
  ghost predicate Compiled(code: seq<Instr>, fns: seq<Fn>, gss: seq<Gs>, offs: seq<nat>, out: seq<byte>) {
    && Trace(code, fns, gss, offs) && |out| == offs[|code|]
    && Lies(out, 0, Prelude(|FnOf(fns, 0).locals|, START), GOODRET)
    && Lies(out, GOODRET, Goodret(), TRAPRET) && Lies(out, TRAPRET, Trapret(), START)
    && forall k | 0 <= k < |code| :: TokenLies(code, fns, gss, offs, out, k)
  }

  /** What lies in the code can be executed. */
  lemma {:induction false} LiesIsListed(out: seq<byte>, p: nat, xs: seq<X>, end: nat)
    requires Lies(out, p, xs, end) && |out| < TWO32
    ensures HoldsTo(ListOf(out), p, xs, end)
    decreases |xs|
  {
    if xs != [] {
      TwoParts(out, p, EncodeX(xs[0]), Bytes(xs[1..]));
      HoldsIsListed(out, p, xs[0]);
      LiesIsListed(out, p + Len(xs[0]), xs[1..], end);
    }
  }
}
