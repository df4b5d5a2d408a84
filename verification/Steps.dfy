/** Every step of the stack machine, and so every run, is simulated by the emitted code. */
module Steps {
  import opened Words
  import opened Sume
  import opened Integers
  import opened StackMachine
  import opened Reach
  import opened Cpu
  import opened MachineView
  import opened Emitted
  import opened Simulation
  import opened Control

  /** The words of the frames fs over the saved ESP, and how many there are where EBP points. */
  function Lay(p: Prog, e: Env, saved: word, fs: seq<Frame>): (seq<word>, nat) {
    if fs == [] then ([saved], 1)
    else
      var m := |fs| - 1;
      var (deep, link) := Lay(p, e, saved, fs[..m]);
      (Head(p, e, fs[..m], deep, link, fs[m].vars) + Ws(fs[m].stack), |deep| + |fs[m].vars| + 2)
  }

  ghost predicate Related(p: Prog, e: Env, saved: word, c: Conf, cpu: Cpu) {
    var (deep, link) := Lay(p, e, saved, c.callers);
    Agrees(p, e, c, cpu, deep, link)
  }

  /** The configuration's words fit into the stack area. */
  ghost predicate Fits(p: Prog, e: Env, saved: word, c: Conf) {
    var (deep, link) := Lay(p, e, saved, c.callers);
    4 * |StackOf(p, e, c, deep, link)| <= e.top - e.lo
  }

  /** The next token does not divide a negative number. */
  predicate DivisionOk(code: seq<Instr>, c: Conf) {
    c.top.pc < |code| && code[c.top.pc].Plain? && |c.top.stack| >= 2 ==> DividendOk(code[c.top.pc].op, Peek(c.top, 1).w)
  }

  lemma StepOperator(p: Prog, e: Env, c: Conf, cpu: Cpu, deep: seq<word>, link: nat, op: byte, c': Conf)
    returns (cpu': Cpu)
    requires Agrees(p, e, c, cpu, deep, link) && c.top.pc < |p.code| && p.code[c.top.pc] == Plain(op)
    requires (IsBinary(op) || IsCompare(op) || op == I_EQZ) && DivisionOk(p.code, c)
    requires StepPlain(p.code, p.fns, c, op) == Next(c')
    ensures Agrees(p, e, c', cpu', deep, link) && Ran(e, cpu, cpu') && c'.callers == c.callers
  {
    if IsBinary(op) {
      cpu' := SimBinary(p, e, c, cpu, deep, link, op, BinaryOp(op, Peek(c.top, 1).w, Peek(c.top, 0).w).value);
    } else if IsCompare(op) {
      cpu' := SimCompare(p, e, c, cpu, deep, link, op,
                         if CompareOp(op, Peek(c.top, 1).w, Peek(c.top, 0).w) then 1 else 0);
    } else {
      cpu' := SimEqz(p, e, c, cpu, deep, link, if Peek(c.top, 0).w == 0 then 1 else 0);
    }
  }

  lemma StepHeap(p: Prog, e: Env, c: Conf, cpu: Cpu, deep: seq<word>, link: nat, op: byte, c': Conf) returns (cpu': Cpu)
    requires Agrees(p, e, c, cpu, deep, link) && c.top.pc < |p.code| && p.code[c.top.pc] == Plain(op)
    requires IsLoad(op) || op == STR32 || op == STR8
    requires StepPlain(p.code, p.fns, c, op) == Next(c')
    ensures Agrees(p, e, c', cpu', deep, link) && Ran(e, cpu, cpu') && c'.callers == c.callers
  {
    if IsLoad(op) {
      cpu' := SimLoad(p, e, c, cpu, deep, link, op, HeapAddr(op, Peek(c.top, 0).w));
    } else {
      cpu' := SimStore(p, e, c, cpu, deep, link, op, HeapAddr(op, Peek(c.top, 1).w));
    }
  }

  lemma StepBlocks(p: Prog, e: Env, c: Conf, cpu: Cpu, deep: seq<word>, link: nat, op: byte, c': Conf)
    returns (cpu': Cpu)
    requires Agrees(p, e, c, cpu, deep, link) && c.top.pc < |p.code| && p.code[c.top.pc] == Plain(op)
    requires op == BLOCK || op == LOOP || op == END || op == I_MEMSZ
    requires StepPlain(p.code, p.fns, c, op) == Next(c')
    requires 4 * |StackOf(p, e, c', deep, link)| <= e.top - e.lo
    ensures Agrees(p, e, c', cpu', deep, link) && Ran(e, cpu, cpu') && c'.callers == c.callers
  {
    if op == END {
      cpu' := SimEnd(p, e, c, cpu, deep, link, c'.top);
    } else if op == I_MEMSZ {
      cpu' := SimMemsz(p, e, c, cpu, deep, link, Wrap(|c.heap|));
    } else {
      SimBlock(p, e, c, cpu, deep, link);
      cpu' := cpu;
    }
  }

  lemma StepBranch(p: Prog, e: Env, c: Conf, cpu: Cpu, deep: seq<word>, link: nat, op: byte, v: word, c': Conf)
    returns (cpu': Cpu)
    requires Agrees(p, e, c, cpu, deep, link) && c.top.pc < |p.code| && p.code[c.top.pc] == Imm(op, v)
          && (op == BR || op == BR_IF)
    requires StepImm(p.code, p.fns, c, op, v) == Next(c')
    ensures Agrees(p, e, c', cpu', deep, link) && Ran(e, cpu, cpu') && c'.callers == c.callers
  {
    if op == BR {
      BranchLands(p, c.top, c.top.pc, v, c'.top);
      cpu' := SimBr(p, e, c, cpu, deep, link, v, c'.top);
    } else if Peek(c.top, 0).w == 0 {
      cpu' := SimBrIfNot(p, e, c, cpu, deep, link, v);
    } else {
      BranchLands(p, Put(c.top, 1, []), c.top.pc, v, c'.top);
      cpu' := SimBrIf(p, e, c, cpu, deep, link, v, c'.top);
    }
  }

  lemma StepVariable(p: Prog, e: Env, c: Conf, cpu: Cpu, deep: seq<word>, link: nat, op: byte, v: word, c': Conf)
    returns (cpu': Cpu)
    requires Agrees(p, e, c, cpu, deep, link) && c.top.pc < |p.code| && p.code[c.top.pc] == Imm(op, v)
          && (op == I_CONST || op == GET_L || op == SET_L)
    requires StepImm(p.code, p.fns, c, op, v) == Next(c')
    requires 4 * |StackOf(p, e, c', deep, link)| <= e.top - e.lo
    ensures Agrees(p, e, c', cpu', deep, link) && Ran(e, cpu, cpu') && c'.callers == c.callers
  {
    if op == I_CONST {
      cpu' := SimConst(p, e, c, cpu, deep, link, v);
    } else if op == GET_L {
      cpu' := SimGet(p, e, c, cpu, deep, link, v);
    } else {
      cpu' := SimSet(p, e, c, cpu, deep, link, v);
    }
  }

  // ---------- calls and returns ----------

  lemma LayCall(p: Prog, e: Env, saved: word, c: Conf, deep: seq<word>, link: nat, n: nat)
    requires Lay(p, e, saved, c.callers) == (deep, link) && n <= |c.top.stack|
    ensures Lay(p, e, saved, c.callers + [Put(c.top, n, [])]) == (DeepAfter(p, e, c, deep, link, n),
          |deep| + |c.top.vars| + 2)
  {
    var fs := c.callers + [Put(c.top, n, [])];
    assert fs[..|fs| - 1] == c.callers;
    var stack := c.top.stack[..|c.top.stack| - n];
    assert stack + [] == stack;
  }

  /** The configuration after a call of v. */
  function Called(fns: seq<Fn>, c: Conf, v: nat): Conf
    requires v < |fns| && |fns[v].params| <= |c.top.stack|
  {
    var n := |fns[v].params|;
    Conf(Frame(v, fns[v].at + 1, NewVars(fns[v], c.top.stack[|c.top.stack| - n..]), [], []),
      c.callers + [Put(c.top, n, [])], c.heap)
  }

  lemma CallIs(fns: seq<Fn>, c: Conf, v: word, c': Conf)
    requires StepCall(fns, c, v) == Next(c')
    ensures v < |fns| && |fns[v].params| <= |c.top.stack| && c' == Called(fns, c, v)
  {
  }

  /** The words of the callers after a call, and that two more fit. */
  lemma CallFacts(p: Prog, e: Env, saved: word, c: Conf, cpu: Cpu, deep: seq<word>, link: nat, v: word, n: nat)
    requires Lay(p, e, saved, c.callers) == (deep, link) && Agrees(p, e, c, cpu, deep, link)
    requires c.top.pc < |p.code| && p.code[c.top.pc] == Imm(CALL, v)
    requires v < |p.fns| && n == |p.fns[v].params| <= |c.top.stack| && Fits(p, e, saved, Called(p.fns, c, v))
    ensures Lay(p, e, saved, c.callers + [Put(c.top, n, [])]) == (DeepAfter(p, e, c, deep, link, n),
          |deep| + |c.top.vars| + 2)
    ensures 4 * (|StackOf(p, e, c, deep, link)| + 2) <= e.top - e.lo
  {
    LayCall(p, e, saved, c, deep, link, n);
    AtCall(p, e, c, cpu, deep, link, v);
  }

  lemma RelatedBy(p: Prog, e: Env, saved: word, c: Conf, cpu: Cpu, deep: seq<word>, link: nat)
    requires Agrees(p, e, c, cpu, deep, link) && Lay(p, e, saved, c.callers) == (deep, link)
    ensures Related(p, e, saved, c, cpu)
  {
  }

  lemma CallAgrees(p: Prog, e: Env, c: Conf, cpu: Cpu, v: word, deep: seq<word>, link: nat, n: nat, c': Conf,
                   deep': seq<word>, link': nat)
    returns (cpu': Cpu)
    requires Agrees(p, e, c, cpu, deep, link) && c.top.pc < |p.code| && p.code[c.top.pc] == Imm(CALL, v)
    requires v < |p.fns| && n == |p.fns[v].params| <= |c.top.stack|
          && 4 * (|StackOf(p, e, c, deep, link)| + 2) <= e.top - e.lo
    requires c' == Called(p.fns, c, v) && deep' == DeepAfter(p, e, c, deep, link, n)
          && link' == |deep| + |c.top.vars| + 2
    ensures Agrees(p, e, c', cpu', deep', link') && Ran(e, cpu, cpu')
  {
    cpu' := SimCall(p, e, c, cpu, deep, link, v, n, c'.top, Put(c.top, n, []), c');
  }

  lemma StepCalls(p: Prog, e: Env, saved: word, c: Conf, cpu: Cpu, v: word, deep: seq<word>, link: nat, c': Conf)
    returns (cpu': Cpu)
    requires Lay(p, e, saved, c.callers) == (deep, link) && Agrees(p, e, c, cpu, deep, link)
    requires c.top.pc < |p.code| && p.code[c.top.pc] == Imm(CALL, v)
    requires v < |p.fns| && |p.fns[v].params| <= |c.top.stack| && c' == Called(p.fns, c, v) && Fits(p, e, saved, c')
    ensures Related(p, e, saved, c', cpu') && Ran(e, cpu, cpu')
  {
    var n := |p.fns[v].params|;
    var deep', link' := DeepAfter(p, e, c, deep, link, n), |deep| + |c.top.vars| + 2;
    CallFacts(p, e, saved, c, cpu, deep, link, v, n);
    cpu' := CallAgrees(p, e, c, cpu, v, deep, link, n, c', deep', link');
    RelatedBy(p, e, saved, c', cpu', deep', link');
  }

  lemma LayLast(p: Prog, e: Env, saved: word, fs: seq<Frame>)
    requires fs != []
    ensures var m := |fs| - 1;
            var (deep', link') := Lay(p, e, saved, fs[..m]);
            Lay(p, e, saved, fs) == (Head(p, e, fs[..m], deep', link', fs[m].vars) + Ws(fs[m].stack),
              |deep'| + |fs[m].vars| + 2)
  {
  }

  lemma StepReturn(p: Prog, e: Env, saved: word, c: Conf, cpu: Cpu, c': Conf) returns (cpu': Cpu)
    requires Related(p, e, saved, c, cpu) && c.top.pc < |p.code| && p.code[c.top.pc] == Plain(RET)
    requires StepRet(p.fns, c) == Next(c')
    ensures Related(p, e, saved, c', cpu') && Ran(e, cpu, cpu')
  {
    var (deep, link) := Lay(p, e, saved, c.callers);
    var n := |c.callers| - 1;
    var (deep', link') := Lay(p, e, saved, c.callers[..n]);
    LayLast(p, e, saved, c.callers);
    var vs := if p.fns[c.top.fn].rt then [Peek(c.top, 0)] else [];
    cpu' := SimRet(p, e, c, cpu, deep, link, c', deep', link', vs);
  }

  // ---------- steps and runs ----------

  lemma PlainStep(p: Prog, e: Env, saved: word, c: Conf, cpu: Cpu, op: byte, c': Conf) returns (cpu': Cpu)
    requires Related(p, e, saved, c, cpu) && c.top.pc < |p.code| && p.code[c.top.pc] == Plain(op)
    requires StepPlain(p.code, p.fns, c, op) == Next(c') && DivisionOk(p.code, c) && Fits(p, e, saved, c')
    ensures Related(p, e, saved, c', cpu') && Ran(e, cpu, cpu')
  {
    var (deep, link) := Lay(p, e, saved, c.callers);
    assert Coded(p, c.top.pc);
    if IsBinary(op) || IsCompare(op) || op == I_EQZ {
      cpu' := StepOperator(p, e, c, cpu, deep, link, op, c');
    } else if IsLoad(op) || op == STR32 || op == STR8 {
      cpu' := StepHeap(p, e, c, cpu, deep, link, op, c');
    } else if op == RET {
      cpu' := StepReturn(p, e, saved, c, cpu, c');
    } else {
      PlainKeepsCallers(p.code, p.fns, c, op, c');
      cpu' := StepBlocks(p, e, c, cpu, deep, link, op, c');
    }
  }

  lemma PlainKeepsCallers(code: seq<Instr>, fns: seq<Fn>, c: Conf, op: byte, c': Conf)
    requires c.top.pc < |code| && StepPlain(code, fns, c, op) == Next(c') && op != RET
    ensures c'.callers == c.callers
  {
  }

  lemma ImmKeepsCallers(code: seq<Instr>, fns: seq<Fn>, c: Conf, op: byte, v: word, c': Conf)
    requires c.top.pc < |code| && StepImm(code, fns, c, op, v) == Next(c') && op != CALL
    ensures c'.callers == c.callers
  {
  }

  lemma ImmStep(p: Prog, e: Env, saved: word, c: Conf, cpu: Cpu, op: byte, v: word, c': Conf) returns (cpu': Cpu)
    requires Related(p, e, saved, c, cpu) && c.top.pc < |p.code| && p.code[c.top.pc] == Imm(op, v)
    requires StepImm(p.code, p.fns, c, op, v) == Next(c') && Fits(p, e, saved, c')
    ensures Related(p, e, saved, c', cpu') && Ran(e, cpu, cpu')
  {
    var (deep, link) := Lay(p, e, saved, c.callers);
    if op == CALL {
      CallIs(p.fns, c, v, c');
      cpu' := StepCalls(p, e, saved, c, cpu, v, deep, link, c');
    } else {
      ImmKeepsCallers(p.code, p.fns, c, op, v, c');
      if op == BR || op == BR_IF {
        cpu' := StepBranch(p, e, c, cpu, deep, link, op, v, c');
      } else {
        cpu' := StepVariable(p, e, c, cpu, deep, link, op, v, c');
      }
    }
  }

  /** One step of the machine is a stretch of the processor's run that ends in a related state. */
  lemma SimStep(p: Prog, e: Env, saved: word, c: Conf, cpu: Cpu, c': Conf) returns (cpu': Cpu)
    requires Related(p, e, saved, c, cpu) && Step(p.code, p.fns, c) == Next(c') && DivisionOk(p.code, c)
          && Fits(p, e, saved, c')
    ensures Related(p, e, saved, c', cpu') && Ran(e, cpu, cpu')
  {
    match p.code[c.top.pc]
    case Plain(op) => cpu' := PlainStep(p, e, saved, c, cpu, op, c');
    case Imm(op, v) => cpu' := ImmStep(p, e, saved, c, cpu, op, v, c');
  }

  /** The stack area suffices for every configuration of the run and no dividend of a signed division is negative. */
  ghost predicate Runnable(p: Prog, e: Env, saved: word, cs: seq<Conf>) {
    forall k | 0 <= k < |cs| :: Fits(p, e, saved, cs[k]) && DivisionOk(p.code, cs[k])
  }

  lemma RunStep(p: Prog, e: Env, saved: word, cs: seq<Conf>, k: nat, c: Conf, c': Conf)
    requires Run(p.code, p.fns, cs) && Runnable(p, e, saved, cs) && 0 < k < |cs| && c == cs[k - 1] && c' == cs[k]
    ensures Step(p.code, p.fns, c) == Next(c') && DivisionOk(p.code, c) && Fits(p, e, saved, c')
  {
    assert RunsAt(p.code, p.fns, cs, k - 1);
  }

  /** Every run is simulated, step by step. */
  lemma SimRun(p: Prog, e: Env, saved: word, cs: seq<Conf>, cpu: Cpu, k: nat) returns (cpu': Cpu)
    requires Run(p.code, p.fns, cs) && Runnable(p, e, saved, cs) && Related(p, e, saved, cs[0], cpu) && k < |cs|
    ensures Related(p, e, saved, cs[k], cpu') && Ran(e, cpu, cpu')
  {
    var related := (c: Conf, u: Cpu) => Related(p, e, saved, c, u);
    forall j: nat, u: Cpu | j + 1 < |cs| && related(cs[j], u) ensures Meets(e.step, related, cs[j + 1], u) {
      SimOn(p, e, saved, cs, j, u, related);
    }
    cpu' := Simulated(e.step, related, cs, cpu, k);
  }

  lemma SimOn(p: Prog, e: Env, saved: word, cs: seq<Conf>, j: nat, u: Cpu, related: (Conf, Cpu) -> bool)
    requires Run(p.code, p.fns, cs) && Runnable(p, e, saved, cs) && j + 1 < |cs| && Related(p, e, saved, cs[j], u)
    requires forall c: Conf, v: Cpu :: related(c, v) == Related(p, e, saved, c, v)
    ensures Meets(e.step, related, cs[j + 1], u)
  {
    RunStep(p, e, saved, cs, j + 1, cs[j], cs[j + 1]);
    var v := SimStep(p, e, saved, cs[j], u, cs[j + 1]);
    assert related(cs[j + 1], v);
  }
}
