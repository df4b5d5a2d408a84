/** Where the emitted code does not do what the language says: signed division clears EDX, division by zero
    faults, and a call reserves a byte where a local needs a word. Each is a run of the emitted code. */
module CodeLimits {
  import opened Words
  import opened Sume
  import opened Integers
  import opened StackMachine
  import opened X86
  import opened Reach
  import opened Cpu
  import opened MachineView
  import opened Codegen
  import opened Emitted
  import opened Simulation

  // ---------- signed division ----------

  predicate SignedDivision(op: byte) {
    op == I_DIV_S || op == I_REM_S
  }

  /** What idiv leaves in the result register for EDX:EAX = a, taken without sign; None is a processor fault. */
  function Divided(op: byte, a: word, b: word): Option<word> {
    var d := Signed(b);
    if d == 0 || !(-TWO31 <= Quot(a, d) < TWO31) then None
    else Some(Wrap(if op == I_DIV_S then Quot(a, d) else Rem(a, d)))
  }

  lemma ExecIdiv(c: Cpu, op: byte, d: Option<Cpu>)
    requires SignedDivision(op) && c.r[EDX] == 0 && d == ExecReg(Group3(7, EBX), c)
    ensures d.Some? <==> Divided(op, c.r[EAX], c.r[EBX]).Some?
    ensures d.Some? ==> Some(d.value.r[ResultReg(op)]) == Divided(op, c.r[EAX], c.r[EBX])
    ensures d.Some? ==> d.value.mem == c.mem && d.value.r[4..] == c.r[4..]
  {
    assert Signed(0) * TWO32 + c.r[EAX] == c.r[EAX];
  }

  /** The code of a signed division: it pushes what idiv leaves, or the processor faults at idiv. */
  ghost predicate Comes(e: Env, c0: Cpu, c: Cpu, end: nat, t: seq<word>, w: Option<word>, heap: seq<byte>) {
    if w.Some? then At(e, c0, c, [], end, t + [w.value], heap) else Ran(e, c0, c) && e.step(c) == None
  }

  lemma RunIdiv(e: Env, c0: Cpu, c: Cpu, op: byte, end: nat, t: seq<word>, heap: seq<byte>) returns (c': Cpu)
    requires SignedDivision(op) && At(e, c0, c, [Group3(7, EBX)] + [Push(ResultReg(op))], end, t, heap) && c.r[EDX] == 0
    requires 4 * (|t| + 1) <= e.top - e.lo
    ensures Comes(e, c0, c', end, t, Divided(op, c.r[EAX], c.r[EBX]), heap)
  {
    var d := ExecReg(Group3(7, EBX), c);
    ExecIdiv(c, op, d);
    if d.Some? {
      var c1 := RunReg(e, c0, c, Group3(7, EBX), [Push(ResultReg(op))], end, t, heap, d.value);
      c' := RunPush(e, c0, c1, ResultReg(op), end, t, heap);
    } else {
      c' := c;
    }
  }

  /** pop ebx; pop eax; xor edx, edx; idiv ebx; push: all of a signed division. */
  lemma RunSignedDivision(e: Env, c0: Cpu, c: Cpu, op: byte, end: nat, t: seq<word>, a: word, b: word, heap: seq<byte>)
    returns (c': Cpu)
    requires SignedDivision(op)
          && At(e, c0, c, [Pop(EBX), Pop(EAX)] + Arith(op) + [Push(ResultReg(op))], end, t + [a, b], heap)
    ensures Comes(e, c0, c', end, t, Divided(op, a, b), heap)
  {
    var xs := [Pop(EBX), Pop(EAX)] + Arith(op) + [Push(ResultReg(op))];
    var ys := [Group3(7, EBX)] + [Push(ResultReg(op))];
    assert xs[2..] == [Alu(XOR, EDX, EDX)] + ys;
    var c1 := RunPops(e, c0, c, xs, end, t, a, b, heap);
    var c2 := RunClear(e, c0, c1, EDX, ys, end, t, heap);
    c' := RunIdiv(e, c0, c2, op, end, t, heap);
  }

  // ---------- when that is the language's result ----------

  lemma QuotNonzero(a: int, d: int)
    requires 0 < d <= a
    ensures a / d >= 1
  {
  }

  lemma QuotHalf(a: int, d: int)
    requires 0 <= a && 2 <= d
    ensures 2 * (a / d) <= a
  {
    assert a == d * (a / d) + a % d;
    DivShrinks(a, d);
    assert (d - 2) * (a / d) >= 0;
  }

  lemma WrapApart(x: int, y: int)
    requires 1 <= x < TWO31 && 0 <= y < TWO31
    ensures Wrap(x) != Wrap(-y) && Wrap(-x) != Wrap(y)
  {
  }

  lemma QuotientWrong(a: word, b: word)
    requires b != 0 && a >= TWO31
    ensures Divided(I_DIV_S, a, b) != BinaryOp(I_DIV_S, a, b)
  {
    var d := Signed(b);
    var m := TWO32 - a;
    assert Signed(a) == -m;
    if d > 1 {
      QuotHalf(a, d);
      QuotHalf(m, d);
      QuotNonzero(a, d);
      DivShrinks(m, d);
      WrapApart(a / d, m / d);
      assert Quot(a, d) == a / d && Quot(-m, d) == -(m / d);
    } else if d < -1 {
      QuotHalf(a, -d);
      QuotHalf(m, -d);
      QuotNonzero(a, -d);
      DivShrinks(m, -d);
      WrapApart(a / (-d), m / (-d));
      assert Quot(a, d) == -(a / (-d)) && Quot(-m, d) == m / (-d);
    } else {
      assert a / 1 == a && m / 1 == m;
    }
  }

  function Abs(d: int): nat {
    if d < 0 then -d else d
  }

  /** Remainders keep the dividend's sign and do not see the divisor's. */
  lemma RemOf(a: int, d: int)
    requires d != 0
    ensures a >= 0 ==> Rem(a, d) == a % Abs(d)
    ensures a < 0 ==> Rem(a, d) == -((-a) % Abs(d))
  {
    var n: int, m: int := Abs(d), Abs(a);
    var q := m / n;
    assert m == n * q + m % n;
    Signs(n, q);
  }

  lemma Signs(n: int, q: int)
    ensures (-n) * (-q) == n * q && (-n) * q == -(n * q) && n * (-q) == -(n * q)
  {
  }

  /** The exact condition for the remainder of a negative dividend: both it and 2^32 are multiples of the
      divisor, and the quotient fits. */
  predicate RemainderRight(a: word, b: word) {
    || a < TWO31
    || (var n := Abs(Signed(b));
        n != 0 && a % n == 0 && TWO32 % n == 0 && (n >= 2 || (Signed(b) == -1 && a == TWO31)))
  }

  lemma QuotFits(a: word, d: int)
    requires a >= TWO31 && -TWO31 <= d < TWO31 && d != 0
    ensures -TWO31 <= Quot(a, d) < TWO31 <==> Abs(d) >= 2 || (d == -1 && a == TWO31)
  {
    if Abs(d) >= 2 {
      QuotHalf(a, Abs(d));
      DivShrinks(a, Abs(d));
    } else {
      assert a / 1 == a;
    }
  }

  /** Two residues that cancel modulo 2^32 are both zero. */
  lemma Cancel(x: int, y: int, n: int)
    requires 0 <= x < n && 0 <= y < n && 0 < n <= TWO31
    ensures Wrap(x) == Wrap(-y) <==> x == 0 && y == 0
  {
  }

  lemma Complement(a: int, m: int, n: int)
    requires a + m == TWO32 && n > 0 && a % n == 0
    ensures m % n == 0 <==> TWO32 % n == 0
  {
    ModSum(a, m, n);
  }

  lemma ModSum(a: int, m: int, n: int)
    requires n > 0 && a % n == 0
    ensures (a + m) % n == m % n
  {
    var q, r := a / n, m / n;
    assert a == n * q && m == n * r + m % n;
    assert a + m == n * (q + r) + m % n;
    ModUnique(a + m, n, q + r, m % n);
  }

  lemma ModUnique(x: int, n: int, q: int, r: int)
    requires n > 0 && x == n * q + r && 0 <= r < n
    ensures x % n == r
  {
    var p, t := x / n, x % n;
    assert x == n * p + t;
    Distribute(n, p, q);
    ZeroFactor(n, p - q, r - t);
  }

  lemma Distribute(n: int, p: int, q: int)
    ensures n * (p - q) == n * p - n * q
  {
  }

  lemma ZeroFactor(n: int, k: int, v: int)
    requires n > 0 && n * k == v && -n < v < n
    ensures k == 0
  {
    NotNegative(n, k - 1);
    NotNegative(n, -1 - k);
    Distribute(n, k, 1);
    Distribute(n, -1, k);
  }

  lemma NotNegative(n: int, j: int)
    requires n > 0
    ensures j >= 0 ==> n * j >= 0
  {
  }

  lemma RemainderIff(a: word, b: word)
    requires b != 0
    ensures Divided(I_REM_S, a, b) == BinaryOp(I_REM_S, a, b) <==> RemainderRight(a, b)
  {
    var d := Signed(b);
    var n := Abs(d);
    RemOf(a, d);
    RemOf(Signed(a), d);
    if a < TWO31 {
      QuotSmall(a, d);
    } else {
      var m := TWO32 - a;
      QuotFits(a, d);
      Cancel(a % n, m % n, n);
      if a % n == 0 { Complement(a, m, n); }
    }
  }

  lemma QuotientIff(a: word, b: word)
    requires b != 0
    ensures Divided(I_DIV_S, a, b) == BinaryOp(I_DIV_S, a, b) <==> a < TWO31
  {
    if a < TWO31 { QuotSmall(a, Signed(b)); } else { QuotientWrong(a, b); }
  }

  /** Exactly when the code of a signed division computes what the language says. */
  predicate DivisionRight(op: byte, a: word, b: word) {
    if op == I_DIV_S then a < TWO31 else RemainderRight(a, b)
  }

  /** The token of a signed division, wherever it stands in a run: the word it pushes, or the fault it ends in, is what
      the language says if and only if the operands meet the condition. */
  lemma SignedDivisionIff(p: Prog, e: Env, c: Conf, cpu: Cpu, deep: seq<word>, link: nat, op: byte) returns (c2: Cpu,
                      w: Option<word>)
    requires Agrees(p, e, c, cpu, deep, link) && c.top.pc < |p.code| && p.code[c.top.pc] == Plain(op)
          && SignedDivision(op)
    requires |c.top.stack| >= 2 && Peek(c.top, 0).w != 0
    ensures var s := StackOf(p, e, c, deep, link);
            |s| >= 2 && Comes(e, cpu, c2, p.offs[c.top.pc + 1], s[..|s| - 2], w, c.heap)
    ensures w == BinaryOp(op, Peek(c.top, 1).w, Peek(c.top, 0).w) <==>
          DivisionRight(op, Peek(c.top, 1).w, Peek(c.top, 0).w)
  {
    var s := StackOf(p, e, c, deep, link);
    var a, b := Peek(c.top, 1).w, Peek(c.top, 0).w;
    AtToken(p, e, c, cpu, deep, link);
    TopTwo(Head(p, e, c.callers, deep, link, c.top.vars), c.top);
    c2 := RunSignedDivision(e, cpu, cpu, op, p.offs[c.top.pc + 1], s[..|s| - 2], a, b, c.heap);
    w := Divided(op, a, b);
    if op == I_DIV_S { QuotientIff(a, b); } else { RemainderIff(a, b); }
  }

  /** The division instruction, with a divisor of 0, faults. */
  lemma FaultsThere(e: Env, c0: Cpu, c: Cpu, k: int, xs: seq<X>, end: nat, s: seq<word>, heap: seq<byte>)
    requires (k == 6 || k == 7) && At(e, c0, c, [Group3(k, EBX)] + xs, end, s, heap) && c.r[EBX] == 0
    ensures e.step(c) == None
  {
  }

  /** A division by 0, where the machine traps: the processor faults. */
  lemma DivisionFaults(p: Prog, e: Env, c: Conf, cpu: Cpu, deep: seq<word>, link: nat, op: byte) returns (c2: Cpu)
    requires Agrees(p, e, c, cpu, deep, link) && c.top.pc < |p.code| && p.code[c.top.pc] == Plain(op) && IsDivision(op)
    requires |c.top.stack| >= 2 && Peek(c.top, 0).w == 0
    ensures Ran(e, cpu, c2) && e.step(c2) == None
  {
    var s := StackOf(p, e, c, deep, link);
    var t := s[..|s| - 2];
    var k := if op == I_DIV_S || op == I_REM_S then 7 else 6;
    var xs := [Pop(EBX), Pop(EAX)] + Arith(op) + [Push(ResultReg(op))];
    AtToken(p, e, c, cpu, deep, link);
    TopTwo(Head(p, e, c.callers, deep, link, c.top.vars), c.top);
    assert xs[2..] == [Alu(XOR, EDX, EDX)] + ([Group3(k, EBX)] + [Push(ResultReg(op))]);
    var c1 := RunPops(e, cpu, cpu, xs, p.offs[c.top.pc + 1], t, Peek(c.top, 1).w, 0, c.heap);
    c2 := RunClear(e, cpu, c1, EDX, [Group3(k, EBX)] + [Push(ResultReg(op))], p.offs[c.top.pc + 1], t, c.heap);
    FaultsThere(e, cpu, c2, k, [Push(ResultReg(op))], p.offs[c.top.pc + 1], t, c.heap);
  }

  // ---------- locals of a called function ----------

  /** Where the caller has put argument v: the last one is on top of its stack. */
  function ArgAddr(c: Cpu, callee: Fn, v: nat): int {
    c.r[ESP] + 4 * (|callee.params| - v) - 4
  }

  /** The next instruction is executed, and the rest stands behind it. */
  lemma Onward(e: Env, c0: Cpu, c: Cpu, x: X, xs: seq<X>, end: nat, c': Cpu)
    requires Ran(e, c0, c) && HoldsTo(e.list, c.eip, [x] + xs, end)
    requires WellFormedX(x) && c.eip + Len(x) < TWO32 && Exec(x, c.eip + Len(x), c) == Some(c')
    ensures Ran(e, c0, c') && HoldsTo(e.list, c.eip + Len(x), xs, end)
  {
    assert ([x] + xs)[1..] == xs;
    Go(e, c0, c, [x] + xs, end, c');
  }

  lemma OnSub(e: Env, c0: Cpu, c: Cpu, r: Reg, imm: word, xs: seq<X>, end: nat) returns (c': Cpu)
    requires Ran(e, c0, c) && HoldsTo(e.list, c.eip, [AluI(5, r, imm)] + xs, end) && r != EAX && imm <= c.r[r]
    ensures Ran(e, c0, c') && HoldsTo(e.list, c'.eip, xs, end) && c'.eip == c.eip + 6
    ensures c'.r == c.r[r := c.r[r] - imm] && c'.mem == c.mem
  {
    c' := Exec(AluI(5, r, imm), c.eip + 6, c).value;
    Onward(e, c0, c, AluI(5, r, imm), xs, end, c');
  }

  lemma OnPush(e: Env, c0: Cpu, c: Cpu, r: Reg, xs: seq<X>, end: nat) returns (c': Cpu)
    requires Ran(e, c0, c) && HoldsTo(e.list, c.eip, [Push(r)] + xs, end) && c.r[ESP] >= 4
    ensures Ran(e, c0, c') && HoldsTo(e.list, c'.eip, xs, end) && c'.eip == c.eip + 1
    ensures c'.r == c.r[ESP := c.r[ESP] - 4] && c'.mem == St(c.mem, c.r[ESP] - 4, c.r[r])
  {
    c' := Exec(Push(r), c.eip + 1, c).value;
    Onward(e, c0, c, Push(r), xs, end, c');
  }

  lemma OnMove(e: Env, c0: Cpu, c: Cpu, xs: seq<X>, end: nat) returns (c': Cpu)
    requires Ran(e, c0, c) && HoldsTo(e.list, c.eip, [MovRR(EBP, ESP)] + xs, end)
    ensures Ran(e, c0, c') && HoldsTo(e.list, c'.eip, xs, end) && c'.eip == c.eip + 2
    ensures c'.r == c.r[EBP := c.r[ESP]] && c'.mem == c.mem
  {
    c' := Exec(MovRR(EBP, ESP), c.eip + 2, c).value;
    Onward(e, c0, c, MovRR(EBP, ESP), xs, end, c');
  }

  lemma OnCall(e: Env, c0: Cpu, c: Cpu, p: word, addr: word, xs: seq<X>, end: nat) returns (c': Cpu)
    requires Ran(e, c0, c) && HoldsTo(e.list, c.eip, [CallRel(Rel(p, addr))] + xs, end) && p == c.eip + 5
          && c.r[ESP] >= 4
    ensures Ran(e, c0, c') && c'.eip == addr && c'.r == c.r[ESP := c.r[ESP] - 4] && c'.mem == St(c.mem, c.r[ESP] - 4, p)
  {
    RelLands(p, addr);
    c' := Exec(CallRel(Rel(p, addr)), p, c).value;
    Onward(e, c0, c, CallRel(Rel(p, addr)), xs, end, c');
  }

  lemma OnLoadVar(e: Env, c0: Cpu, c: Cpu, imm: word, a: word, xs: seq<X>, end: nat) returns (c': Cpu)
    requires Ran(e, c0, c) && HoldsTo(e.list, c.eip, [MovRB(EAX, imm)] + xs, end) && a == Wrap(c.r[EBP] + imm)
          && a + 4 <= TWO32
    ensures Ran(e, c0, c') && c'.eip == c.eip + 6 && c'.r[EAX] == Ld(c.mem, a)
  {
    c' := Exec(MovRB(EAX, imm), c.eip + 6, c).value;
    Onward(e, c0, c, MovRB(EAX, imm), xs, end, c');
  }

  ghost predicate CallHolds(e: Env, c: Cpu, callee: Fn, addr: word, end: nat) {
    && Follows(e.step, e.list) && HoldsTo(e.list, c.eip, EmitCall(c.eip, callee, addr), end) && c.eip + 20 < TWO32
    && 4 * (|callee.params| + |callee.locals| + 1) < TWO32 && |callee.locals| + 8 <= c.r[ESP]
  }

  lemma CallIs(p: nat, callee: Fn, addr: int, n: word)
    requires n == |callee.locals|
    ensures EmitCall(p, callee, addr) ==
            [AluI(5, ESP, n)] + ([Push(EBP)] + ([MovRR(EBP, ESP)] + ([AluI(5, EBP, 4)]
              + ([CallRel(Rel(p + 20, addr))] + AfterCall(callee)))))
  {
  }

  /** sub esp, locals; push ebp; mov ebp, esp; sub ebp, 4; call: a byte, not a word, for each local. */
  lemma CallLands(e: Env, c: Cpu, callee: Fn, addr: word, end: nat, n: word) returns (c': Cpu)
    requires CallHolds(e, c, callee, addr, end) && n == |callee.locals|
    ensures Ran(e, c, c') && c'.eip == addr && c'.r[EBP] == c.r[ESP] - n - 8
    ensures c'.mem == St(St(c.mem, c.r[ESP] - n - 4, c.r[EBP]), c.r[ESP] - n - 8, c.eip + 20)
  {
    var zs := [CallRel(Rel(c.eip + 20, addr))] + AfterCall(callee);
    CallIs(c.eip, callee, addr, n);
    ReachRefl(e.step, c);
    var c1 := OnSub(e, c, c, ESP, n, [Push(EBP)] + ([MovRR(EBP, ESP)] + ([AluI(5, EBP, 4)] + zs)), end);
    var c2 := OnPush(e, c, c1, EBP, [MovRR(EBP, ESP)] + ([AluI(5, EBP, 4)] + zs), end);
    var c3 := OnMove(e, c, c2, [AluI(5, EBP, 4)] + zs, end);
    var c4 := OnSub(e, c, c3, EBP, 4, zs, end);
    c' := OnCall(e, c, c4, c.eip + 20, addr, AfterCall(callee), end);
  }

  ghost predicate ReadHolds(e: Env, c: Cpu, callee: Fn, addr: word, v: nat, end: nat, end2: nat) {
    && CallHolds(e, c, callee, addr, end) && v < |callee.params| && addr + 6 < TWO32
    && HoldsTo(e.list, addr, [MovRB(EAX, VarDisp(callee, v))] + [Push(EAX)], end2)
    && ArgAddr(c, callee, v) + 3 * |callee.locals| + 4 <= TWO32
  }

  /** A call, and the callee's code for reading its parameter v: what it loads lies three bytes further on for every
      local the callee has. */
  lemma ArgumentLoaded(e: Env, c: Cpu, callee: Fn, addr: word, v: nat, end: nat, end2: nat) returns (c': Cpu)
    requires ReadHolds(e, c, callee, addr, v, end, end2)
    ensures Ran(e, c, c') && c'.eip == addr + 6 && c'.r[EAX] == Ld(c.mem, ArgAddr(c, callee, v) + 3 * |callee.locals|)
  {
    var n: word := |callee.locals|;
    var c1 := CallLands(e, c, callee, addr, end, n);
    var a: word := ArgAddr(c, callee, v) + 3 * n;
    DispLands(c.r[ESP], n, |callee.params|, v, VarDisp(callee, v), a);
    c' := OnLoadVar(e, c, c1, VarDisp(callee, v), a, [Push(EAX)], end2);
    LdOther(c.mem, c.r[ESP] - n - 4, c.r[EBP], a);
    LdOther(St(c.mem, c.r[ESP] - n - 4, c.r[EBP]), c.r[ESP] - n - 8, c.eip + 20, a);
  }

  /** Some memory holds another word n bytes on, and differs in one byte at most. */
  lemma MemoryDiffers(m: Mem, a: word, n: nat) returns (m2: Mem)
    requires n > 0 && a + n + 4 <= TWO32
    ensures Ld(m2, a) != Ld(m2, a + n)
  {
    m2 := m;
    if Ld(m, a) == Ld(m, a + n) {
      var b: int := m[a];
      m2 := m[a := (b + 1) % 256];
    }
  }

  /** The callee finds its argument, whatever the memory holds, if and only if it has no locals: with locals there is
      memory, otherwise the same machine, from which the same code loads another word. */
  lemma ArgumentsFoundIff(e: Env, c: Cpu, callee: Fn, addr: word, v: nat, end: nat, end2: nat) returns (d: Cpu, d': Cpu)
    requires ReadHolds(e, c, callee, addr, v, end, end2)
    ensures d == c.(mem := d.mem) && (callee.locals == [] ==> d == c)
    ensures Ran(e, d, d') && d'.eip == addr + 6
    ensures d'.r[EAX] == Ld(d.mem, ArgAddr(c, callee, v)) <==> callee.locals == []
  {
    d := c;
    if callee.locals != [] {
      var m := MemoryDiffers(c.mem, ArgAddr(c, callee, v), 3 * |callee.locals|);
      d := c.(mem := m);
    }
    d' := ArgumentLoaded(e, d, callee, addr, v, end, end2);
  }

  lemma DispLands(esp: word, n: word, params: nat, v: nat, disp: word, a: word)
    requires v < params && n + 8 <= esp && 4 * (params + n + 1) < TWO32 && disp == Wrap(4 * (params + n - v + 1))
    requires a == esp + 4 * (params - v) - 4 + 3 * n
    ensures Wrap(esp - n - 8 + disp) == a && a >= esp
  {
  }

  // ---------- clz, ctz, popcnt and str16 ----------

  /** The code of clz and ctz takes two operands and scans the lower one, from the wrong end: where the language
      replaces the top operand, one word is left for two. */
  lemma ScansDiffer(e: Env, c0: Cpu, c: Cpu, op: byte, n: Info, end: nat, t: seq<word>, a: word, b: word,
                    heap: seq<byte>)
    returns (c': Cpu)
    requires (op == I_CLZ || op == I_CTZ) && At(e, c0, c, EmitPlain(op, c.eip, n), end, t + [a, b], heap)
    ensures At(e, c0, c', [], end, t + [BitIndex(if op == I_CLZ then 0xbc else 0xbd, a, a)], heap)
    ensures !View(e, c', t + [a, UnaryOp(op, b)], heap)
  {
    var scan := BitScan(if op == I_CLZ then 0xbc else 0xbd, EAX, EAX);
    var xs := [Pop(EBX), Pop(EAX), scan, Push(EAX)];
    assert EmitPlain(op, c.eip, n) == xs && xs[2..] == [scan] + [Push(EAX)];
    var c1 := RunPops(e, c0, c, xs, end, t, a, b, heap);
    var d := ExecReg(scan, c1).value;
    var c2 := RunReg(e, c0, c1, scan, [Push(EAX)], end, t, heap, d);
    c' := RunPush(e, c0, c2, EAX, end, t, heap);
  }

  lemma {:induction false} OnesBelow(n: nat, x: nat)
    ensures Ones(n, x) <= x && (x >= 2 ==> Ones(n, x) < x) && (x < 2 && n > 0 ==> Ones(n, x) == x)
  {
    if n > 0 {
      OnesBelow(n - 1, x / 2);
      assert x == 2 * (x / 2) + x % 2;
    }
  }

  lemma WrapSmall(y: nat)
    requires y < TWO32
    ensures Wrap(y) == y
  {
  }

  lemma PopcntSame(x: word, n: nat)
    requires n > 0
    ensures Wrap(Ones(n, x)) == x <==> x < 2
  {
    OnesBelow(n, x);
    WrapSmall(Ones(n, x));
  }

  /** The word on top is what the stack says. */
  lemma TopWord(e: Env, c: Cpu, t: seq<word>, x: word, r: word, heap: seq<byte>)
    requires View(e, c, t + [x], heap)
    ensures View(e, c, t + [r], heap) <==> r == x
  {
    assert (t + [x])[|t|] == Ld(c.mem, Addr(e, |t| + 1));
    if View(e, c, t + [r], heap) { assert (t + [r])[|t|] == Ld(c.mem, Addr(e, |t| + 1)); }
  }

  /** popcnt has no code, so the operand is its result exactly if it is 0 or 1. */
  lemma PopcntRightIff(e: Env, c: Cpu, n: Info, t: seq<word>, x: word, heap: seq<byte>)
    requires View(e, c, t + [x], heap)
    ensures EmitPlain(I_POPCNT, c.eip, n) == []
    ensures View(e, c, t + [UnaryOp(I_POPCNT, x)], heap) <==> x < 2
  {
    PopcntSame(x, 32);
    TopWord(e, c, t, x, UnaryOp(I_POPCNT, x), heap);
  }

  /** str16 has no code, and its operands stay. */
  lemma StoreLeaves(e: Env, c: Cpu, n: Info, t: seq<word>, x: word, y: word, heap: seq<byte>, heap': seq<byte>)
    requires View(e, c, t + [x, y], heap)
    ensures EmitPlain(STR16, c.eip, n) == [] && !View(e, c, t, heap')
  {
  }

  // ---------- branches out of a block opened above operands ----------

  /** The code of a branch drops all operands of the function, where the language keeps those that were there when the
      target was opened: the processor's stack is the one the branch leaves if and only if there were none. */
  lemma BranchKeepsIff(e: Env, c0: Cpu, c: Cpu, n: Info, code: seq<Instr>, f: Frame, v: word, end: nat,
                      head: seq<word>, heap: seq<byte>) returns (c': Cpu)
    requires n.height == |f.stack| && 0 <= n.addr < TWO32 && c.eip + 11 < TWO32 && Branch(code, f, v).Some?
    requires At(e, c0, c, EmitImm(BR, v, c.eip, n), end, head + Ws(f.stack), heap)
    ensures Ran(e, c0, c') && c'.eip == n.addr
    ensures View(e, c', head + Ws(Branch(code, f, v).value.stack), heap) <==> f.labels[|f.labels| - 1 - v].height == 0
  {
    var s, t := head + Ws(f.stack), Branch(code, f, v).value.stack;
    c' := RunJump(e, c0, c, |f.stack|, n.addr, end, s, heap);
    assert s[..|s| - |f.stack|] == head;
    assert |head + Ws(t)| == |head| + f.labels[|f.labels| - 1 - v].height;
    if t == [] { assert head + Ws(t) == head; }
  }
}
