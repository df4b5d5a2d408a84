/** From bytes to a result: what verify accepts and to_asm translates does, when called, what the program means. */
module Toolchain {
  import opened Words
  import opened Sume
  import opened StackMachine
  import opened HeapBounds
  import opened Typing
  import opened Soundness
  import opened Verifier
  import opened Reach
  import opened Cpu
  import opened MachineView
  import opened Codegen
  import opened Generator
  import opened Emitted
  import opened Simulation
  import opened Steps
  import opened Exits
  import opened Entry
  import opened Compiler
  import opened CodeLimits

  /** verify, then to_asm: the bytes are rejected, or the output is the accepted program's translation. */
  method Translate(prog: seq<byte>, readFn: nat -> int) returns (ok: bool, out: seq<byte>, ghost vss: seq<VState>,
                   ghost gss: seq<Gs>, ghost offs: seq<nat>)
    ensures ok ==> Scan(prog, 0).Some? && var code := Scan(prog, 0).value;
      Accepts(code, Fns(code), Reads(readFn, |code|), vss) && Compiled(code, Fns(code), gss, offs, out)
    ensures !ok ==> Scan(prog, 0).None? || var code := Scan(prog, 0).value;
      forall w :: !Accepts(code, Fns(code), Reads(readFn, |code|), w)
  {
    out, gss, offs := [], [], [];
    ok, vss := Verify(prog, readFn);
    if ok {
      var code := Scan(prog, 0).value;
      gss, offs := VerifiedIsTranslatable(code, Fns(code), Reads(readFn, |code|), vss);
      out := ToAsm(code, Fns(code), gss, offs);
    }
  }

  /** The program, translated and loaded, and the conditions under which the translation is right. */
  ghost predicate Ready(p: Prog, rfs: seq<int>, vss: seq<VState>, out: seq<byte>, e: Env) {
    && Accepts(p.code, p.fns, rfs, vss) && |p.fns| > 0
    && Compiled(p.code, p.fns, p.gss, p.offs, out) && |out| < TWO32 && Compilable(p.code, p.fns, p.gss)
    && p.list == e.list == ListOf(out) && e.step == Machine(out)
  }

  lemma StartsWell(p: Prog, e: Env, sp: word, heap: seq<byte>, cs: seq<Conf>)
    requires MeantRun(p, e, sp, heap, cs) && p.fns[0].params == []
    ensures Run(p.code, p.fns, cs) && Initial(p.code, p.fns, cs[0]) && cs[0].heap == heap
  {
  }

  /** An accepted program, wherever its run has come to: no access leaves the heap, and it is stuck if and only if it
      stands at a `ret` that needs an int and has none in the verifier's record. */
  lemma RunIsSafe(code: seq<Instr>, fns: seq<Fn>, rfs: seq<int>, vss: seq<VState>, cs: seq<Conf>)
    requires Accepts(code, fns, rfs, vss) && Run(code, fns, cs) && Initial(code, fns, cs[0]) && |cs[0].heap| % 4 == 0
    ensures Step(code, fns, cs[|cs| - 1]) != Wild
    ensures Step(code, fns, cs[|cs| - 1]) == Stuck <==> !RetTyped(code, fns, vss, cs[|cs| - 1].top.pc)
  {
    VerifierSound(code, fns, rfs, vss, cs);
    RunNeverWild(code, fns, cs, |cs| - 1);
  }

  predicate DividesByZero(code: seq<Instr>, c: Conf) {
    c.top.pc < |code| && code[c.top.pc].Plain? && IsDivision(code[c.top.pc].op) && |c.top.stack| >= 2
      && Peek(c.top, 0).w == 0
  }

  /** A trap is one the code knows, or a division by zero. */
  lemma TrapKinds(code: seq<Instr>, fns: seq<Fn>, c: Conf)
    requires Step(code, fns, c) == Trapped && DivisionOk(code, c)
    ensures TrapsByCode(code, fns, c) || DividesByZero(code, c)
  {
  }

  /** Control has come to the closing `end` of a function, which has no code: the processor stands at the next
      function's first instruction, or faults behind the last one. */
  ghost predicate FellThrough(p: Prog, out: seq<byte>, e: Env, c: Conf, cpu: Cpu) {
    if c.top.fn + 1 < |p.fns| then
      p.fns[c.top.fn + 1].at < |p.offs| && cpu.eip == p.offs[p.fns[c.top.fn + 1].at]
    else cpu.eip == |out| && e.step(cpu) == None
  }

  lemma FellIsEnd(p: Prog, c: Conf)
    requires ProgOk(p) && FramesOk(p, c) && Step(p.code, p.fns, c) == Fell
    ensures c.top.pc < |p.code| && p.code[c.top.pc] == Plain(END)
    ensures p.offs[c.top.pc + 1] == p.offs[c.top.pc]
    ensures p.gss[c.top.pc + 1].open == [] && p.gss[c.top.pc + 1].fn == c.top.fn
  {
    assert GStepsTo(p.code, p.fns, p.gss, p.offs, c.top.pc);
  }

  lemma FallsThrough(p: Prog, out: seq<byte>, e: Env, c: Conf, cpu: Cpu, deep: seq<word>, link: nat)
    requires Agrees(p, e, c, cpu, deep, link) && Step(p.code, p.fns, c) == Fell
    requires |out| == p.offs[|p.code|] && e.step == Machine(out)
    ensures FellThrough(p, out, e, c, cpu)
  {
    FellIsEnd(p, c);
    var k := c.top.pc + 1;
    if k < |p.code| {
      assert GStepsTo(p.code, p.fns, p.gss, p.offs, k);
      DeclaredAt(p.code, p.fns, p.gss, p.offs, k);
    } else {
      DeclNumber(p.code, p.fns, p.gss, p.offs, k);
    }
  }

  /** A run that comes to the closing `end` of a function. */
  lemma CallFalls(p: Prog, out: seq<byte>, e: Env, cpu: Cpu, sp: word, q: word, heap: seq<byte>, cs: seq<Conf>)
    returns (cpu': Cpu)
    requires Loaded(p, out, e) && q == sp + 16 && CalledFromC(e, cpu, q, heap) && MeantRun(p, e, sp, heap, cs)
    requires Step(p.code, p.fns, cs[|cs| - 1]) == Fell && |out| == p.offs[|p.code|]
    ensures Ran(e, cpu, cpu') && FellThrough(p, out, e, cs[|cs| - 1], cpu')
  {
    var c := cs[|cs| - 1];
    cpu' := CallRuns(p, out, e, cpu, sp, q, heap, cs);
    var (deep, link) := Lay(p, e, sp, c.callers);
    FallsThrough(p, out, e, c, cpu', deep, link);
  }

  /** What the call of the emitted code comes to where the program's run ends with outcome o at c. */
  ghost predicate Outcomes(p: Prog, out: seq<byte>, e: Env, cpu: Cpu, cpu': Cpu, sp: word, k: Kept, c: Conf,
                           o: Outcome) {
    && (o.Done? ==> Returned(e, cpu, cpu', sp, k, 0, o.heap))
    && (o == Trapped && !DividesByZero(p.code, c) ==> Returned(e, cpu, cpu', sp, k, TWO32 - 1, c.heap))
    && (o == Trapped && DividesByZero(p.code, c) ==> Ran(e, cpu, cpu') && e.step(cpu') == None)
    && (o == Fell ==> Ran(e, cpu, cpu') && FellThrough(p, out, e, c, cpu'))
  }

  /** The whole tool chain: from the call of the emitted code, a run of the accepted program that has come to its end
      - returns 0 with the program's heap if the program returns,
      - returns -1 with the program's heap if it traps,
      - faults if it divides by zero,
      - runs on into the next function, or faults behind the last, if it comes to a function's closing `end`;
      and at every point of every run the program is inside its heap, and stuck exactly at a `ret` of an int function
      where the verifier's record has no int on top. */
  lemma EndToEnd(p: Prog, rfs: seq<int>, vss: seq<VState>, out: seq<byte>, e: Env, cpu: Cpu, sp: word, q: word,
                 heap: seq<byte>, cs: seq<Conf>)
    returns (cpu': Cpu)
    requires Ready(p, rfs, vss, out, e) && q == sp + 16 && CalledFromC(e, cpu, q, heap) && MeantRun(p, e, sp, heap, cs)
          && |heap| % 4 == 0
    ensures var c := cs[|cs| - 1];
      var o := Step(p.code, p.fns, c);
      && o != Wild && (o == Stuck <==> !RetTyped(p.code, p.fns, vss, c.top.pc))
      && Outcomes(p, out, e, cpu, cpu', sp, KeptBy(cpu, q), c, o)
  {
    var c := cs[|cs| - 1];
    var o := Step(p.code, p.fns, c);
    StartsWell(p, e, sp, heap, cs);
    RunIsSafe(p.code, p.fns, rfs, vss, cs);
    CompiledIsLoaded(p.code, p.fns, p.gss, p.offs, out, e);
    cpu' := cpu;
    if o.Done? {
      cpu' := CallReturns(p, out, e, cpu, sp, q, heap, cs, o.heap);
    } else if o == Fell {
      cpu' := CallFalls(p, out, e, cpu, sp, q, heap, cs);
    } else if o == Trapped {
      LastDivides(p, e, sp, heap, cs);
      TrapKinds(p.code, p.fns, c);
      if DividesByZero(p.code, c) {
        cpu' := CallFaults(p, out, e, cpu, sp, q, heap, cs);
      } else {
        cpu' := CallTraps(p, out, e, cpu, sp, q, heap, cs);
      }
    }
  }

  lemma LastDivides(p: Prog, e: Env, sp: word, heap: seq<byte>, cs: seq<Conf>)
    requires MeantRun(p, e, sp, heap, cs)
    ensures DivisionOk(p.code, cs[|cs| - 1])
  {
    assert Steps.Fits(p, e, sp, cs[|cs| - 1]) && DivisionOk(p.code, cs[|cs| - 1]);
  }

  /** A run that comes to a division by zero: the processor faults there. */
  lemma CallFaults(p: Prog, out: seq<byte>, e: Env, cpu: Cpu, sp: word, q: word, heap: seq<byte>, cs: seq<Conf>)
    returns (cpu': Cpu)
    requires Loaded(p, out, e) && q == sp + 16 && CalledFromC(e, cpu, q, heap) && MeantRun(p, e, sp, heap, cs)
    requires DividesByZero(p.code, cs[|cs| - 1])
    ensures Ran(e, cpu, cpu') && e.step(cpu') == None
  {
    var c := cs[|cs| - 1];
    var c1 := CallRuns(p, out, e, cpu, sp, q, heap, cs);
    var (deep, link) := Lay(p, e, sp, c.callers);
    cpu' := DivisionFaults(p, e, c, c1, deep, link, p.code[c.top.pc].op);
    ReachTrans(e.step, cpu, c1, cpu');
  }
}
