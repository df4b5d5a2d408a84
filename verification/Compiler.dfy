/** The compiler is correct: a call of the emitted code does what the program means. */
module Compiler {
  import opened Words
  import opened Sume
  import opened StackMachine
  import opened HeapBounds
  import opened Typing
  import opened X86
  import opened Reach
  import opened Cpu
  import opened MachineView
  import opened Codegen
  import opened Generator
  import opened Emitted
  import opened Simulation
  import opened Steps
  import opened Exits
  import opened Entry

  // ---------- verified programs can be translated ----------

  lemma FnInRange(code: seq<Instr>, fns: seq<Fn>, rfs: seq<int>, vss: seq<VState>, k: nat)
    requires Accepts(code, fns, rfs, vss) && k <= |code|
    ensures vss[k].fn < |fns|
  {
    FnCount(code, fns, rfs, vss, k);
    FnsPrefix(code, k, |code|);
  }

  /** The generator's state follows the verifier's. */
  lemma FollowsVerifier(code: seq<Instr>, fns: seq<Fn>, vs: VState, k: nat, rf: int, vs': VState, gs: Gs)
    requires VStepsTo(code, fns, vs, k, rf, vs') && |gs.open| == |vs.frames| && gs.fn == vs.fn
    requires code[k].Decl? ==> vs.fn + 1 < |fns|
    requires vs.frames != [] ==> 0 <= vs.fn < |fns|
    ensures Placed(fns, gs, code[k])
    ensures var gs' := GNext(fns, gs, code[k], k); |gs'.open| == |vs'.frames| && gs'.fn == vs'.fn
  {
    if vs.frames != [] { StepShape(code, fns, vs, k, rf, vs'); }
  }

  ghost predicate TraceUpto(code: seq<Instr>, fns: seq<Fn>, gss: seq<Gs>, offs: seq<nat>, n: nat) {
    && n <= |code| && |gss| == |code| + 1 && |offs| == |code| + 1 && gss[0] == G0 && offs[0] == Codegen.START
    && forall k | 0 <= k < n :: GStepsTo(code, fns, gss, offs, k)
  }

  lemma {:induction false} TraceOf(code: seq<Instr>, fns: seq<Fn>, rfs: seq<int>, vss: seq<VState>, n: nat)
    returns (gss: seq<Gs>, offs: seq<nat>)
    requires Accepts(code, fns, rfs, vss) && n <= |code|
    ensures TraceUpto(code, fns, gss, offs, n)
    ensures |gss[n].open| == |vss[n].frames| && gss[n].fn == vss[n].fn
  {
    if n == 0 {
      gss, offs := seq(|code| + 1, i => G0), seq(|code| + 1, i => Codegen.START);
    } else {
      var k := n - 1;
      var g, o := TraceOf(code, fns, rfs, vss, k);
      assert VStepsAt(code, fns, rfs, vss, k);
      FnInRange(code, fns, rfs, vss, k);
      FnInRange(code, fns, rfs, vss, n);
      FnAfter(code, fns, rfs, vss, k);
      if vss[k].frames != [] { InsideFn(code, fns, rfs, vss, k); }
      FollowsVerifier(code, fns, vss[k], k, rfs[k], vss[n], g[k]);
      gss := g[n := GNext(fns, g[k], code[k], k)];
      offs := o[n := o[k] + TokenSize(code[k], FnOf(fns, g[k].fn), |g[k].open| > 1, Callee(fns, code[k]))];
      forall j | 0 <= j < n ensures GStepsTo(code, fns, gss, offs, j) {
        if j < k { assert GStepsTo(code, fns, g, o, j); }
      }
    }
  }

  /** A program the verifier accepts can be translated. */
  lemma VerifiedIsTranslatable(code: seq<Instr>, fns: seq<Fn>, rfs: seq<int>, vss: seq<VState>) returns (gss: seq<Gs>,
                      offs: seq<nat>)
    requires Accepts(code, fns, rfs, vss)
    ensures Trace(code, fns, gss, offs)
  {
    gss, offs := TraceOf(code, fns, rfs, vss, |code|);
  }

  // ---------- what the translation needs of a program ----------

  /** Blocks and functions are opened without operands, inner ends are reached without operands, called functions have
      no locals, every block is closed, and clz, ctz, popcnt and str16 do not occur. */
  ghost predicate Compilable(code: seq<Instr>, fns: seq<Fn>, gss: seq<Gs>) {
    && |gss| == |code| + 1 && gss[|code|].open == []
    && forall k | 0 <= k < |code| :: Supported(code[k]) && FlatAt(code, gss, k) && CallOk(fns, code[k])
  }

  lemma {:induction false} OffsetsGrow(code: seq<Instr>, fns: seq<Fn>, gss: seq<Gs>, offs: seq<nat>, j: nat, k: nat)
    requires Trace(code, fns, gss, offs) && j <= k <= |code|
    ensures offs[j] <= offs[k]
    decreases k
  {
    if j < k {
      OffsetsGrow(code, fns, gss, offs, j, k - 1);
      assert GStepsTo(code, fns, gss, offs, k - 1);
    }
  }

  lemma TokenIsCoded(code: seq<Instr>, fns: seq<Fn>, gss: seq<Gs>, offs: seq<nat>, out: seq<byte>, k: nat)
    requires Compiled(code, fns, gss, offs, out) && |out| < TWO32 && Compilable(code, fns, gss) && k < |code|
    ensures Coded(Prog(code, fns, gss, offs, ListOf(out)), k)
  {
    assert TokenLies(code, fns, gss, offs, out, k);
    OffsetsGrow(code, fns, gss, offs, k, |code|);
    OffsetsGrow(code, fns, gss, offs, k + 1, |code|);
    LiesIsListed(out, offs[k], Emit(code[k], offs[k], InfoAt(code, fns, gss[k], offs, code[k])), offs[k + 1]);
  }

  lemma ProgOfCompiled(code: seq<Instr>, fns: seq<Fn>, gss: seq<Gs>, offs: seq<nat>, out: seq<byte>)
    requires Compiled(code, fns, gss, offs, out) && |out| < TWO32 && Compilable(code, fns, gss)
    ensures ProgOk(Prog(code, fns, gss, offs, ListOf(out)))
  {
    var p := Prog(code, fns, gss, offs, ListOf(out));
    forall k | 0 <= k < |code| ensures Coded(p, k) {
      TokenIsCoded(code, fns, gss, offs, out, k);
    }
  }

  /** The fixed code, as the entry and exit lemmas want it. */
  ghost predicate StubsHold(list: Listing, locals: nat) {
    && HoldsTo(list, 0, Enter() + (Arguments() + (SwitchStack() + CallFirst(locals, Codegen.START))), GOODRET)
    && HoldsTo(list, GOODRET, [Pop(ESP)] + (Leave() + ([Alu(XOR, EAX, EAX)] + [RetFn])), TRAPRET)
    && HoldsTo(list, TRAPRET, TrapCode(), Codegen.START)
  }

  lemma PreludeParts(locals: nat)
    ensures Prelude(locals, Codegen.START)
         == Enter() + (Arguments() + (SwitchStack() + CallFirst(locals, Codegen.START)))
  {
  }

  lemma TrapParts()
    ensures Trapret() == TrapCode()
  {
  }

  lemma StubsOfCompiled(out: seq<byte>, locals: nat)
    requires FixedLies(out, locals, Codegen.START) && |out| < TWO32
    ensures StubsHold(ListOf(out), locals)
  {
    LiesIsListed(out, 0, Prelude(locals, Codegen.START), GOODRET);
    LiesIsListed(out, GOODRET, Goodret(), TRAPRET);
    LiesIsListed(out, TRAPRET, Trapret(), Codegen.START);
    PreludeParts(locals);
    GoodretParts();
    TrapParts();
  }

  // ---------- the main results ----------

  /** A translated program in the processor's code memory. */
  ghost predicate Loaded(p: Prog, out: seq<byte>, e: Env) {
    && ProgOk(p) && p.list == ListOf(out) && e.list == p.list && e.step == Machine(out)
    && |p.fns| > 0 && p.fns[0].params == [] && StubsHold(p.list, |p.fns[0].locals|)
  }

  /** A run of the program's meaning that starts with this heap and whatever the stack area holds as first locals,
      within the limits of the translation. */
  ghost predicate MeantRun(p: Prog, e: Env, sp: word, heap: seq<byte>, cs: seq<Conf>) {
    && |p.fns| > 0 && Run(p.code, p.fns, cs) && 4 * (1 + |p.fns[0].locals|) <= e.top
    && cs[0] == FirstConf(p.fns, Garbage(e, e.mem0, 1, |p.fns[0].locals|), heap) && Runnable(p, e, sp, cs)
  }

  lemma FirstFits(p: Prog, e: Env, sp: word, heap: seq<byte>, cs: seq<Conf>)
    requires MeantRun(p, e, sp, heap, cs)
    ensures 4 * (|p.fns[0].locals| + 3) <= e.top - e.lo
  {
    assert Fits(p, e, sp, cs[0]);
  }

  lemma CallEnters(p: Prog, out: seq<byte>, e: Env, cpu: Cpu, sp: word, q: word, heap: seq<byte>, k: Kept, first: Conf)
    returns (c: Cpu)
    requires Loaded(p, out, e) && CalledFromC(e, cpu, q, heap) && q == sp + 16 && k == KeptBy(cpu, q)
    requires 4 * (|p.fns[0].locals| + 3) <= e.top - e.lo
    requires first == FirstConf(p.fns, Garbage(e, e.mem0, 1, |p.fns[0].locals|), heap)
    ensures Ran(e, cpu, c) && KeptAt(e.mem0, sp, k) && Related(p, e, sp, first, c)
  {
    MachineFollows(out);
    c := Enters(p, e, cpu, sp, q, heap, Garbage(e, e.mem0, 1, |p.fns[0].locals|), k, first);
  }

  lemma RunOn(p: Prog, e: Env, sp: word, heap: seq<byte>, cs: seq<Conf>, c0: Cpu, c1: Cpu) returns (c: Cpu)
    requires MeantRun(p, e, sp, heap, cs) && Related(p, e, sp, cs[0], c1) && Ran(e, c0, c1)
    ensures Ran(e, c0, c) && Related(p, e, sp, cs[|cs| - 1], c)
  {
    c := SimRun(p, e, sp, cs, c1, |cs| - 1);
    ReachTrans(e.step, c0, c1, c);
  }

  /** What the exits need of the place a run has come to. */
  ghost predicate CanLeave(p: Prog, e: Env, sp: word, k: Kept, c: Conf, cpu: Cpu) {
    && Related(p, e, sp, c, cpu) && StubsHold(p.list, |FnOf(p.fns, 0).locals|)
    && Apart(e, |c.heap|, sp) && KeptAt(e.mem0, sp, k)
  }

  lemma LastSize(p: Prog, e: Env, sp: word, heap: seq<byte>, cs: seq<Conf>)
    requires MeantRun(p, e, sp, heap, cs)
    ensures |cs[|cs| - 1].heap| == |heap|
  {
    RunKeepsSize(p.code, p.fns, cs, |cs| - 1);
  }

  /** The processor reaches a state related to the last configuration of the run. */
  lemma CallRuns(p: Prog, out: seq<byte>, e: Env, cpu: Cpu, sp: word, q: word, heap: seq<byte>, cs: seq<Conf>)
    returns (c: Cpu)
    requires Loaded(p, out, e) && q == sp + 16 && CalledFromC(e, cpu, q, heap) && MeantRun(p, e, sp, heap, cs)
    ensures Ran(e, cpu, c) && CanLeave(p, e, sp, KeptBy(cpu, q), cs[|cs| - 1], c)
  {
    FirstFits(p, e, sp, heap, cs);
    LastSize(p, e, sp, heap, cs);
    var c1 := CallEnters(p, out, e, cpu, sp, q, heap, KeptBy(cpu, q), cs[0]);
    c := RunOn(p, e, sp, heap, cs, cpu, c1);
  }

  lemma ReturnedFrom(e: Env, c0: Cpu, c1: Cpu, c: Cpu, sp: word, k: Kept, eax: word, heap: seq<byte>)
    requires Ran(e, c0, c1) && Returned(e, c1, c, sp, k, eax, heap)
    ensures Returned(e, c0, c, sp, k, eax, heap)
  {
    ReachTrans(e.step, c0, c1, c);
  }

  lemma GoodReturns(p: Prog, e: Env, sp: word, k: Kept, c: Conf, c0: Cpu, cpu: Cpu, heap: seq<byte>) returns (cpu': Cpu)
    requires CanLeave(p, e, sp, k, c, cpu) && Step(p.code, p.fns, c) == Done(heap) && Ran(e, c0, cpu)
    ensures Returned(e, c0, cpu', sp, k, 0, heap)
  {
    DoneIsRet(p.code, p.fns, c, heap);
    cpu' := ExitGood(p, e, sp, k, c, cpu, heap);
    ReturnedFrom(e, c0, cpu, cpu', sp, k, 0, heap);
  }

  /** A run that ends with the first function's return: the call returns 0, the heap is the program's. */
  lemma CallReturns(p: Prog, out: seq<byte>, e: Env, cpu: Cpu, sp: word, q: word, heap: seq<byte>, cs: seq<Conf>,
                    heap': seq<byte>) returns (cpu': Cpu)
    requires Loaded(p, out, e) && q == sp + 16 && CalledFromC(e, cpu, q, heap) && MeantRun(p, e, sp, heap, cs)
    requires Step(p.code, p.fns, cs[|cs| - 1]) == Done(heap')
    ensures Returned(e, cpu, cpu', sp, KeptBy(cpu, q), 0, heap')
  {
    var c1 := CallRuns(p, out, e, cpu, sp, q, heap, cs);
    cpu' := GoodReturns(p, e, sp, KeptBy(cpu, q), cs[|cs| - 1], cpu, c1, heap');
  }

  // ---------- traps ----------

  /** The machine traps at c by `trap` or by a heap access outside the heap. */
  predicate TrapsByCode(code: seq<Instr>, fns: seq<Fn>, c: Conf) {
    Step(code, fns, c) == Trapped && !(code[c.top.pc].Plain? && IsBinary(code[c.top.pc].op))
  }

  lemma SimTrap(p: Prog, e: Env, c: Conf, cpu: Cpu, deep: seq<word>, link: nat) returns (cpu': Cpu)
    requires Agrees(p, e, c, cpu, deep, link) && c.top.pc < |p.code| && p.code[c.top.pc] == Plain(TRAP)
    ensures AtTrap(p, e, c, cpu, cpu', deep, link, StackOf(p, e, c, deep, link))
  {
    AtToken(p, e, c, cpu, deep, link);
    cpu' := RunTrap(e, cpu, cpu, p.offs[c.top.pc + 1], StackOf(p, e, c, deep, link), c.heap);
  }

  /** What traps, and on which operands. */
  lemma WhatTraps(code: seq<Instr>, fns: seq<Fn>, c: Conf, op: byte)
    requires c.top.pc < |code| && code[c.top.pc] == Plain(op) && Supported(code[c.top.pc]) && TrapsByCode(code, fns, c)
    ensures IsLoad(op) || op == STR32 || op == STR8 || op == TRAP
    ensures IsLoad(op) ==> |c.top.stack| >= 1 && HeapAddr(op, Peek(c.top, 0).w) >= |c.heap|
    ensures op == STR32 || op == STR8 ==> |c.top.stack| >= 2 && HeapAddr(op, Peek(c.top, 1).w) >= |c.heap|
  {
  }

  lemma TrapIsPlain(code: seq<Instr>, fns: seq<Fn>, c: Conf)
    requires TrapsByCode(code, fns, c)
    ensures c.top.pc < |code| && code[c.top.pc].Plain?
  {
  }

  lemma StepTraps(p: Prog, e: Env, c: Conf, cpu: Cpu, deep: seq<word>, link: nat, op: byte) returns (cpu': Cpu,
                  t: seq<word>)
    requires Agrees(p, e, c, cpu, deep, link) && c.top.pc < |p.code| && p.code[c.top.pc] == Plain(op)
    requires IsLoad(op) || op == STR32 || op == STR8 || op == TRAP
    requires IsLoad(op) ==> |c.top.stack| >= 1 && HeapAddr(op, Peek(c.top, 0).w) >= |c.heap|
    requires op == STR32 || op == STR8 ==> |c.top.stack| >= 2 && HeapAddr(op, Peek(c.top, 1).w) >= |c.heap|
    ensures AtTrap(p, e, c, cpu, cpu', deep, link, t)
  {
    var s := StackOf(p, e, c, deep, link);
    if IsLoad(op) {
      cpu' := SimLoad(p, e, c, cpu, deep, link, op, HeapAddr(op, Peek(c.top, 0).w));
      t := s[..|s| - 1];
    } else if op == TRAP {
      cpu' := SimTrap(p, e, c, cpu, deep, link);
      t := s;
    } else {
      cpu' := SimStore(p, e, c, cpu, deep, link, op, HeapAddr(op, Peek(c.top, 1).w));
      t := s[..|s| - 2];
    }
  }

  lemma TrapReturns(p: Prog, e: Env, sp: word, k: Kept, c: Conf, c0: Cpu, cpu: Cpu) returns (cpu': Cpu)
    requires CanLeave(p, e, sp, k, c, cpu) && TrapsByCode(p.code, p.fns, c) && Ran(e, c0, cpu)
    ensures Returned(e, c0, cpu', sp, k, TWO32 - 1, c.heap)
  {
    var (deep, link) := Lay(p, e, sp, c.callers);
    TrapIsPlain(p.code, p.fns, c);
    assert Coded(p, c.top.pc);
    WhatTraps(p.code, p.fns, c, p.code[c.top.pc].op);
    var c1, t := StepTraps(p, e, c, cpu, deep, link, p.code[c.top.pc].op);
    cpu' := ExitTrap(p, e, sp, k, c, cpu, c1, t);
    ReturnedFrom(e, c0, cpu, cpu', sp, k, TWO32 - 1, c.heap);
  }

  /** A run that ends in a trap: the call returns -1, with the heap as the program left it. */
  lemma CallTraps(p: Prog, out: seq<byte>, e: Env, cpu: Cpu, sp: word, q: word, heap: seq<byte>, cs: seq<Conf>)
    returns (cpu': Cpu)
    requires Loaded(p, out, e) && q == sp + 16 && CalledFromC(e, cpu, q, heap) && MeantRun(p, e, sp, heap, cs)
    requires TrapsByCode(p.code, p.fns, cs[|cs| - 1])
    ensures Returned(e, cpu, cpu', sp, KeptBy(cpu, q), TWO32 - 1, cs[|cs| - 1].heap)
  {
    var c1 := CallRuns(p, out, e, cpu, sp, q, heap, cs);
    cpu' := TrapReturns(p, e, sp, KeptBy(cpu, q), cs[|cs| - 1], cpu, c1);
  }

  /** Translating and loading a program that meets the conditions makes it ready to be called. */
  lemma CompiledIsLoaded(code: seq<Instr>, fns: seq<Fn>, gss: seq<Gs>, offs: seq<nat>, out: seq<byte>, e: Env)
    requires Compiled(code, fns, gss, offs, out) && |out| < TWO32 && Compilable(code, fns, gss)
    requires |fns| > 0 && fns[0].params == [] && e.list == ListOf(out) && e.step == Machine(out)
    ensures Loaded(Prog(code, fns, gss, offs, ListOf(out)), out, e)
  {
    ProgOfCompiled(code, fns, gss, offs, out);
    StubsOfCompiled(out, |FnOf(fns, 0).locals|);
  }
}
