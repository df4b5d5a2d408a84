/** The emitted code simulates blocks, branches, calls and returns. */
module Control {
  import opened Words
  import opened Sume
  import opened Integers
  import opened StackMachine
  import opened X86
  import opened Reach
  import opened Cpu
  import opened MachineView
  import opened Codegen
  import opened Generator
  import opened Nesting
  import opened Emitted
  import opened Simulation

  // ---------- branches ----------

  /** A branch out of block j + 1 of the open blocks at k goes where the generator recorded. */
  lemma LoopTarget(p: Prog, g: Frame, k: nat, j: nat)
    requires ProgOk(p) && k <= |p.code| && LabelsOk(p.gss[k].open, g.labels) && p.gss[k].fn == g.fn && VarsOk(p, g)
          && j < |g.labels|
    requires g.labels[j].at < |p.code| && p.code[g.labels[j].at] == Plain(LOOP)
    ensures var at := g.labels[j].at;
            && TopOk(p, g.(pc := at + 1, stack := [], labels := g.labels[..j + 1]))
            && p.offs[at + 1] == Target(p.code, p.offs, at) && p.offs[at + 1] < TWO32
  {
    var open, at := p.gss[k].open, g.labels[j].at;
    assert open[j + 1] == Open(at, 0);
    OpenSince(p.code, p.fns, p.gss, p.offs, k, j + 1);
    assert Coded(p, at);
    assert GStepsTo(p.code, p.fns, p.gss, p.offs, at);
    assert open[..j + 1] + [open[j + 1]] == open[..j + 2];
  }

  /** The state behind the end of open block j of token k. */
  lemma BlockEnd(p: Prog, k: nat, j: nat)
    requires ProgOk(p) && k <= |p.code| && 0 < j < |p.gss[k].open|
    ensures var open := p.gss[k].open;
            open[j].at < |p.code| &&
            var e := Close(p.code, open[j].at + 1, 0);
            && e < |p.code| && p.code[e] == Plain(END) && p.offs[e + 1] < TWO32
            && p.gss[e + 1] == Gs(open[j - 1].height, p.gss[k].fn, open[..j])
  {
    var open := p.gss[k].open;
    OpenSince(p.code, p.fns, p.gss, p.offs, k, j);
    OpenOrClosed(p.code, p.fns, p.gss, p.offs, |p.code|, open[j].at);
    OpenBlocks(p.code, p.fns, p.gss, p.offs, k, j);
    BlockExit(p.code, p.fns, p.gss, p.offs, k, |open| - 1 - j);
    assert Coded(p, Close(p.code, open[j].at + 1, 0));
  }

  lemma BlockTarget(p: Prog, g: Frame, k: nat, j: nat)
    requires ProgOk(p) && k <= |p.code| && LabelsOk(p.gss[k].open, g.labels) && p.gss[k].fn == g.fn && VarsOk(p, g)
          && j < |g.labels|
    requires g.labels[j].at < |p.code| && p.code[g.labels[j].at] != Plain(LOOP)
    ensures var at := g.labels[j].at;
            var e := Close(p.code, at + 1, 0);
            && e < |p.code| && TopOk(p, g.(pc := e + 1, stack := [], labels := g.labels[..j]))
            && p.offs[e + 1] == Target(p.code, p.offs, at) && p.offs[e + 1] < TWO32
  {
    var open := p.gss[k].open;
    assert open[j + 1] == Open(g.labels[j].at, 0);
    assert j > 0 ==> open[j] == Open(g.labels[j - 1].at, 0);
    BlockEnd(p, k, j + 1);
  }

  lemma BranchTarget(p: Prog, g: Frame, k: nat, v: nat, f: Frame)
    requires ProgOk(p) && k <= |p.code| && LabelsOk(p.gss[k].open, g.labels) && p.gss[k].fn == g.fn && VarsOk(p, g)
    requires Branch(p.code, g, v) == Some(f)
    ensures TopOk(p, f) && f == g.(pc := f.pc, stack := [], labels := f.labels) && p.offs[f.pc] < TWO32
    ensures var open := p.gss[k].open;
            && v < |open| - 1
            && var at := open[|open| - 1 - v].at;
               at < |p.code| && p.offs[f.pc] == Target(p.code, p.offs, at)
  {
    var j := |g.labels| - 1 - v;
    var at := g.labels[j].at;
    assert p.gss[k].open[j + 1] == Open(at, 0);
    assert g.stack[..0] == [];
    if p.code[at] == Plain(LOOP) { LoopTarget(p, g, k, j); } else { BlockTarget(p, g, k, j); }
  }

  /** Frame f is where the branch of token k takes frame g. */
  ghost predicate Landing(p: Prog, k: nat, g: Frame, f: Frame)
    requires ProgOk(p) && k < |p.code|
  {
    && TopOk(p, f) && f.fn == g.fn && f.vars == g.vars && f.stack == [] && p.offs[f.pc] < TWO32
    && Placed(p.fns, p.gss[k], p.code[k]) && Aim(p.code, p.fns, p.gss[k], p.offs, p.code[k]) == p.offs[f.pc]
  }

  lemma BranchLands(p: Prog, g: Frame, k: nat, v: word, f: Frame)
    requires ProgOk(p) && k < |p.code| && LabelsOk(p.gss[k].open, g.labels) && p.gss[k].fn == g.fn && VarsOk(p, g)
    requires (p.code[k] == Imm(BR, v) || p.code[k] == Imm(BR_IF, v)) && Branch(p.code, g, v) == Some(f)
    ensures Landing(p, k, g, f)
  {
    assert Coded(p, k);
    BranchTarget(p, g, k, v, f);
  }

  /** After a jump that clears the operands. */
  lemma FinishJump(p: Prog, e: Env, c: Conf, cpu: Cpu, cpu': Cpu, deep: seq<word>, link: nat, f: Frame)
    requires Agrees(p, e, c, cpu, deep, link) && TopOk(p, f) && f.fn == c.top.fn && f.vars == c.top.vars
          && f.stack == []
    requires Landed(e, cpu, cpu', p.offs[f.pc], Head(p, e, c.callers, deep, link, c.top.vars), c.heap)
          && cpu'.r[EBP] == cpu.r[EBP]
    ensures Agrees(p, e, c.(top := f), cpu', deep, link) && Ran(e, cpu, cpu')
  {
    var head := Head(p, e, c.callers, deep, link, c.top.vars);
    assert head + Ws([]) == head;
    NewTop(p, c, c.(top := f));
  }

  lemma HeadAlone(head: seq<word>, stack: seq<word>)
    ensures (head + stack)[..|head + stack| - |stack|] == head
    ensures stack != [] ==> var t := (head + stack)[..|head + stack| - 1]; t[..|t| - (|stack| - 1)] == head
  {
  }

  lemma AtBr(p: Prog, e: Env, c: Conf, cpu: Cpu, deep: seq<word>, link: nat, v: word, f: Frame)
    requires Agrees(p, e, c, cpu, deep, link) && c.top.pc < |p.code| && p.code[c.top.pc] == Imm(BR, v)
          && Landing(p, c.top.pc, c.top, f)
    ensures At(e, cpu, cpu,
          [AluI(0, ESP, Wrap(4 * |c.top.stack|)), JmpRel(MachineView.Rel(cpu.eip + 11, p.offs[f.pc]))],
               p.offs[c.top.pc + 1], StackOf(p, e, c, deep, link), c.heap)
  {
    AtToken(p, e, c, cpu, deep, link);
  }

  lemma SimBr(p: Prog, e: Env, c: Conf, cpu: Cpu, deep: seq<word>, link: nat, v: word, f: Frame) returns (cpu': Cpu)
    requires Agrees(p, e, c, cpu, deep, link) && c.top.pc < |p.code| && p.code[c.top.pc] == Imm(BR, v)
          && Landing(p, c.top.pc, c.top, f)
    ensures Agrees(p, e, c.(top := f), cpu', deep, link) && Ran(e, cpu, cpu')
  {
    var head, stack := Head(p, e, c.callers, deep, link, c.top.vars), Ws(c.top.stack);
    AtBr(p, e, c, cpu, deep, link, v, f);
    HeadAlone(head, stack);
    cpu' := RunJump(e, cpu, cpu, |stack|, p.offs[f.pc], p.offs[c.top.pc + 1], head + stack, c.heap);
    FinishJump(p, e, c, cpu, cpu', deep, link, f);
  }

  /** After code that falls through with the top operand gone. */
  lemma FinishPop(p: Prog, e: Env, c: Conf, cpu: Cpu, cpu': Cpu, deep: seq<word>, link: nat, t: seq<word>)
    requires Agrees(p, e, c, cpu, deep, link) && c.top.pc < |p.code| && 1 <= |c.top.stack|
          && Replaces(p, c.top.pc, 1, 0)
    requires var s := StackOf(p, e, c, deep, link); |s| >= 1 && t == s[..|s| - 1]
    requires Landed(e, cpu, cpu', p.offs[c.top.pc + 1], t, c.heap) && cpu'.r[EBP] == cpu.r[EBP]
    ensures Agrees(p, e, c.(top := Put(c.top, 1, [])), cpu', deep, link) && Ran(e, cpu, cpu')
  {
    FinishNone(p, e, c, cpu, cpu', deep, link, 1, StackOf(p, e, c, deep, link), t, c.heap);
  }

  lemma AtBrIf(p: Prog, e: Env, c: Conf, cpu: Cpu, deep: seq<word>, link: nat, v: word) returns (addr: word)
    requires Agrees(p, e, c, cpu, deep, link) && c.top.pc < |p.code| && p.code[c.top.pc] == Imm(BR_IF, v)
    ensures Placed(p.fns, p.gss[c.top.pc], p.code[c.top.pc])
         && addr == Aim(p.code, p.fns, p.gss[c.top.pc], p.offs, p.code[c.top.pc])
    ensures p.offs[c.top.pc + 1] == cpu.eip + 20
    ensures At(e, cpu, cpu,
          [Pop(EAX), Test(EAX, EAX), Jcc(CC_Z, 11), AluI(0, ESP, Wrap(4 * (|c.top.stack| - 1))),
           JmpRel(MachineView.Rel(cpu.eip + 20, addr))],
               p.offs[c.top.pc + 1], StackOf(p, e, c, deep, link), c.heap)
  {
    AtToken(p, e, c, cpu, deep, link);
    assert GStepsTo(p.code, p.fns, p.gss, p.offs, c.top.pc);
    AimInRange(p, c.top.pc, v);
    addr := Aim(p.code, p.fns, p.gss[c.top.pc], p.offs, p.code[c.top.pc]);
  }

  lemma SimBrIfNot(p: Prog, e: Env, c: Conf, cpu: Cpu, deep: seq<word>, link: nat, v: word) returns (cpu': Cpu)
    requires Agrees(p, e, c, cpu, deep, link) && c.top.pc < |p.code| && p.code[c.top.pc] == Imm(BR_IF, v)
          && |c.top.stack| >= 1
    requires Peek(c.top, 0).w == 0
    ensures Agrees(p, e, c.(top := Put(c.top, 1, [])), cpu', deep, link) && Ran(e, cpu, cpu')
  {
    var s := StackOf(p, e, c, deep, link);
    var addr := AtBrIf(p, e, c, cpu, deep, link, v);
    TopOne(Head(p, e, c.callers, deep, link, c.top.vars), c.top);
    cpu' := RunBrIf(e, cpu, cpu, |c.top.stack| - 1, addr, p.offs[c.top.pc + 1], s[..|s| - 1], 0, c.heap);
    FinishPop(p, e, c, cpu, cpu', deep, link, s[..|s| - 1]);
  }

  lemma SimBrIf(p: Prog, e: Env, c: Conf, cpu: Cpu, deep: seq<word>, link: nat, v: word, f: Frame) returns (cpu': Cpu)
    requires Agrees(p, e, c, cpu, deep, link) && c.top.pc < |p.code| && p.code[c.top.pc] == Imm(BR_IF, v)
          && |c.top.stack| >= 1
    requires Peek(c.top, 0).w != 0 && Landing(p, c.top.pc, c.top, f)
    ensures Agrees(p, e, c.(top := f), cpu', deep, link) && Ran(e, cpu, cpu')
  {
    var head, stack := Head(p, e, c.callers, deep, link, c.top.vars), Ws(c.top.stack);
    var addr := AtBrIf(p, e, c, cpu, deep, link, v);
    TopOne(head, c.top);
    cpu' := BrIfLands(e, cpu, addr, p.offs[c.top.pc + 1], head, stack, head + stack, Peek(c.top, 0).w, c.heap);
    FinishJump(p, e, c, cpu, cpu', deep, link, f);
  }

  lemma BrIfLands(e: Env, c: Cpu, addr: word, end: nat, head: seq<word>, stack: seq<word>, s: seq<word>, a: word,
                  heap: seq<byte>)
    returns (c': Cpu)
    requires s == head + stack && stack != [] && s == s[..|s| - 1] + [a] && a != 0 && end == c.eip + 20
    requires At(e, c, c, [Pop(EAX), Test(EAX, EAX), Jcc(CC_Z, 11), AluI(0, ESP, Wrap(4 * (|stack| - 1))),
                          JmpRel(MachineView.Rel(c.eip + 20, addr))], end, s, heap)
    ensures Landed(e, c, c', addr, head, heap) && c'.r[EBP] == c.r[EBP]
  {
    HeadAlone(head, stack);
    c' := RunBrIf(e, c, c, |stack| - 1, addr, end, s[..|s| - 1], a, heap);
  }

  lemma AimInRange(p: Prog, k: nat, v: word)
    requires ProgOk(p) && k < |p.code| && p.code[k] == Imm(BR_IF, v) && Placed(p.fns, p.gss[k], p.code[k])
    ensures 0 <= Aim(p.code, p.fns, p.gss[k], p.offs, p.code[k]) < TWO32
  {
    var open := p.gss[k].open;
    var j := |open| - 1 - v;
    var at := open[j].at;
    OpenSince(p.code, p.fns, p.gss, p.offs, k, j);
    assert Coded(p, at);
    var e := Close(p.code, at + 1, 0);
    if e < |p.code| { assert Coded(p, e); }
  }

  // ---------- blocks ----------

  lemma TopBlock(p: Prog, f: Frame)
    requires ProgOk(p) && TopOk(p, f) && f.pc < |p.code| && Opens(p.code[f.pc])
    ensures TopOk(p, f.(pc := f.pc + 1, labels := f.labels + [Label(f.pc, |f.stack|)]))
         && p.offs[f.pc + 1] == p.offs[f.pc]
  {
    assert Coded(p, f.pc);
    assert GStepsTo(p.code, p.fns, p.gss, p.offs, f.pc);
  }

  lemma SimBlock(p: Prog, e: Env, c: Conf, cpu: Cpu, deep: seq<word>, link: nat)
    requires Agrees(p, e, c, cpu, deep, link) && c.top.pc < |p.code| && Opens(p.code[c.top.pc])
    ensures Agrees(p, e,
          c.(top := c.top.(pc := c.top.pc + 1, labels := c.top.labels + [Label(c.top.pc, |c.top.stack|)])),
          cpu, deep, link)
    ensures Ran(e, cpu, cpu)
  {
    var f := c.top.(pc := c.top.pc + 1, labels := c.top.labels + [Label(c.top.pc, |c.top.stack|)]);
    TopBlock(p, c.top);
    NewTop(p, c, c.(top := f));
    ReachRefl(e.step, cpu);
  }

  lemma TopEnd(p: Prog, f: Frame)
    requires ProgOk(p) && TopOk(p, f) && f.pc < |p.code| && p.code[f.pc] == Plain(END) && f.labels != []
    ensures f.stack == [] && Floor(f) == 0 && |p.gss[f.pc].open| > 1 && Drop(p.gss[f.pc]) == 0
    ensures TopOk(p, f.(pc := f.pc + 1, labels := f.labels[..|f.labels| - 1]))
  {
    assert Coded(p, f.pc);
    assert GStepsTo(p.code, p.fns, p.gss, p.offs, f.pc);
    var n := |f.labels|;
    assert f.labels[n - 1].height == 0;
    assert n > 1 ==> p.gss[f.pc].open[n - 1] == Open(f.labels[n - 2].at, 0);
  }

  lemma SimEnd(p: Prog, e: Env, c: Conf, cpu: Cpu, deep: seq<word>, link: nat, f: Frame) returns (cpu': Cpu)
    requires Agrees(p, e, c, cpu, deep, link) && c.top.pc < |p.code| && p.code[c.top.pc] == Plain(END)
          && c.top.labels != []
    requires Has(c.top, 0)
    requires f == c.top.(pc := c.top.pc + 1, stack := c.top.stack[..Floor(c.top)],
          labels := c.top.labels[..|c.top.labels| - 1])
    ensures Agrees(p, e, c.(top := f), cpu', deep, link) && Ran(e, cpu, cpu')
  {
    AtToken(p, e, c, cpu, deep, link);
    TopEnd(p, c.top);
    cpu' := RunEnd(e, cpu, cpu, p.offs[c.top.pc + 1], StackOf(p, e, c, deep, link), c.heap);
    NewTop(p, c, c.(top := f));
  }

  // ---------- calls ----------

  /** The callee's frame. */
  lemma TopEntry(p: Prog, v: nat, args: seq<Val>)
    requires ProgOk(p) && v < |p.fns| && p.fns[v].locals == [] && |args| == |p.fns[v].params|
    ensures TopOk(p, Frame(v, p.fns[v].at + 1, NewVars(p.fns[v], args), [], []))
    ensures NewVars(p.fns[v], args) == args
    ensures var at := p.fns[v].at; at < |p.code| && p.offs[at + 1] == p.offs[at] && p.offs[at] < TWO32
  {
    FnEntry(p.code, p.fns, p.gss, p.offs, v);
    assert Coded(p, p.fns[v].at);
  }

  /** The caller's frame without the arguments. */
  lemma CallerPut(p: Prog, f: Frame, v: word)
    requires ProgOk(p) && TopOk(p, f) && f.pc < |p.code| && p.code[f.pc] == Imm(CALL, v) && v < |p.fns|
          && |p.fns[v].params| <= |f.stack|
    ensures CallerOk(p, Put(f, |p.fns[v].params|, []), v)
  {
    assert GStepsTo(p.code, p.fns, p.gss, p.offs, f.pc);
  }

  lemma PushFrame(p: Prog, c: Conf, v: nat, f: Frame, g: Frame, heap: seq<byte>)
    requires ProgOk(p) && FramesOk(p, c) && CallerOk(p, f, v) && f.fn == c.top.fn && TopOk(p, g) && g.fn == v
    ensures FramesOk(p, Conf(g, c.callers + [f], heap))
  {
    var c' := Conf(g, c.callers + [f], heap);
    forall k | 0 <= k < |c'.callers| ensures CallerOk(p, c'.callers[k], NextFn(c', k)) {
      if k < |c.callers| { assert CallerOk(p, c.callers[k], NextFn(c, k)); }
    }
  }

  lemma AtCall(p: Prog, e: Env, c: Conf, cpu: Cpu, deep: seq<word>, link: nat, v: word)
    requires Agrees(p, e, c, cpu, deep, link) && c.top.pc < |p.code| && p.code[c.top.pc] == Imm(CALL, v) && v < |p.fns|
    ensures p.fns[v].locals == [] && p.fns[v].at < |p.code| && cpu.eip + 20 < TWO32
    ensures At(e, cpu, cpu, EmitCall(cpu.eip, p.fns[v], p.offs[p.fns[v].at]), p.offs[c.top.pc + 1],
          StackOf(p, e, c, deep, link), c.heap)
  {
    AtToken(p, e, c, cpu, deep, link);
    assert Coded(p, c.top.pc);
    assert GStepsTo(p.code, p.fns, p.gss, p.offs, c.top.pc);
    FnEntry(p.code, p.fns, p.gss, p.offs, v);
  }

  /** The words under the callee's variables: the caller's without the arguments. */
  function DeepAfter(p: Prog, e: Env, c: Conf, deep: seq<word>, link: nat, n: nat): seq<word>
    requires n <= |c.top.stack|
  {
    Head(p, e, c.callers, deep, link, c.top.vars) + Ws(c.top.stack[..|c.top.stack| - n])
  }

  lemma CallWords(p: Prog, e: Env, c: Conf, deep: seq<word>, link: nat, n: nat, ret: word, fs: seq<Frame>)
    requires n <= |c.top.stack| && RetAddr(p, fs) == ret
    ensures var args, link' := c.top.stack[|c.top.stack| - n..], |deep| + |c.top.vars| + 2;
            Head(p, e, fs, DeepAfter(p, e, c, deep, link, n), link', args)
            == StackOf(p, e, c, deep, link) + [Link(e, link'), ret]
  {
    var m := |c.top.stack| - n;
    WsTake(c.top.stack, m);
    var head, w := Head(p, e, c.callers, deep, link, c.top.vars), Ws(c.top.stack);
    assert w[..m] + w[m..] == w;
    assert head + w[..m] + w[m..] == head + w;
  }

  lemma CallFrames(p: Prog, c: Conf, v: word, n: nat, args: seq<Val>, f: Frame, g: Frame)
    requires ProgOk(p) && FramesOk(p, c) && c.top.pc < |p.code| && p.code[c.top.pc] == Imm(CALL, v) && v < |p.fns|
    requires n == |p.fns[v].params| <= |c.top.stack| && args == c.top.stack[|c.top.stack| - n..]
          && p.fns[v].locals == []
    requires f == Put(c.top, n, []) && g == Frame(v, p.fns[v].at + 1, args, [], [])
    ensures FramesOk(p, Conf(g, c.callers + [f], c.heap)) && NewVars(p.fns[v], args) == args
    ensures var at := p.fns[v].at; at < |p.code| && p.offs[at + 1] == p.offs[at] && p.offs[at] < TWO32
  {
    TopEntry(p, v, args);
    CallerPut(p, c.top, v);
    PushFrame(p, c, v, f, g, c.heap);
  }

  lemma SimCall(p: Prog, e: Env, c: Conf, cpu: Cpu, deep: seq<word>, link: nat, v: word, n: nat, g: Frame, f: Frame,
                c': Conf) returns (cpu': Cpu)
    requires Agrees(p, e, c, cpu, deep, link) && c.top.pc < |p.code| && p.code[c.top.pc] == Imm(CALL, v) && v < |p.fns|
    requires n == |p.fns[v].params| <= |c.top.stack| && 4 * (|StackOf(p, e, c, deep, link)| + 2) <= e.top - e.lo
    requires g == Frame(v, p.fns[v].at + 1, NewVars(p.fns[v], c.top.stack[|c.top.stack| - n..]), [], [])
    requires f == Put(c.top, n, []) && c' == Conf(g, c.callers + [f], c.heap)
    ensures Ran(e, cpu, cpu')
    ensures Agrees(p, e, c', cpu', DeepAfter(p, e, c, deep, link, n), |deep| + |c.top.vars| + 2)
  {
    var args := c.top.stack[|c.top.stack| - n..];
    var s := StackOf(p, e, c, deep, link);
    AtCall(p, e, c, cpu, deep, link, v);
    assert g.vars == args;
    CallFrames(p, c, v, n, args, f, g);
    cpu' := RunCall(e, cpu, cpu, p.fns[v], p.offs[p.fns[v].at], p.offs[c.top.pc + 1], s, c.heap);
    CallWords(p, e, c, deep, link, n, cpu.eip + 20, c.callers + [f]);
    FinishCall(p, e, c, cpu, cpu', deep, link, n, g, f, s);
  }

  lemma FinishCall(p: Prog, e: Env, c: Conf, cpu: Cpu, cpu': Cpu, deep: seq<word>, link: nat, n: nat, g: Frame,
                   f: Frame, s: seq<word>)
    requires Agrees(p, e, c, cpu, deep, link) && n <= |c.top.stack| && FramesOk(p, Conf(g, c.callers + [f], c.heap))
          && g.stack == []
    requires s == StackOf(p, e, c, deep, link) && 4 * (|s| + 2) <= e.top - e.lo && cpu.eip + 20 < TWO32
    requires Landed(e, cpu, cpu', p.offs[g.pc], s + [cpu.r[EBP], cpu.eip + 20], c.heap)
          && cpu'.r[EBP] == Addr(e, |s| + 2)
    requires var link' := |deep| + |c.top.vars| + 2;
             Head(p, e, c.callers + [f], DeepAfter(p, e, c, deep, link, n), link', g.vars)
             == s + [Link(e, link'), cpu.eip + 20]
    ensures Ran(e, cpu, cpu')
         && Agrees(p, e, Conf(g, c.callers + [f], c.heap), cpu', DeepAfter(p, e, c, deep, link, n),
              |deep| + |c.top.vars| + 2)
  {
    var link' := |deep| + |c.top.vars| + 2;
    assert Link(e, link') == cpu.r[EBP];
    var head := s + [Link(e, link'), cpu.eip + 20];
    assert head + Ws([]) == head;
  }

  // ---------- returns ----------

  /** Behind the call instruction of a call token stands the code that cleans up after the callee. */
  lemma AfterCallHolds(list: Listing, q: nat, callee: Fn, addr: int, end: nat)
    requires callee.locals == [] && HoldsTo(list, q, EmitCall(q, callee, addr), end)
    ensures HoldsTo(list, q + 20, AfterCall(callee), end) && q + 20 < TWO32
  {
    CallParts(q, callee, addr);
    var a := AfterCall(callee);
    var x4 := [CallRel(MachineView.Rel(q + 20, addr))] + a;
    var x3 := [AluI(5, EBP, 4)] + x4;
    var x2 := [MovRR(EBP, ESP)] + x3;
    var x1 := [Push(EBP)] + x2;
    SkipOne(list, q, AluI(5, ESP, 0), x1, end);
    SkipOne(list, q + 6, Push(EBP), x2, end);
    SkipOne(list, q + 7, MovRR(EBP, ESP), x3, end);
    SkipOne(list, q + 9, AluI(5, EBP, 4), x4, end);
    SkipOne(list, q + 15, CallRel(MachineView.Rel(q + 20, addr)), a, end);
  }

  lemma SkipOne(list: Listing, q: nat, x: X, xs: seq<X>, end: nat)
    requires HoldsTo(list, q, [x] + xs, end)
    ensures HoldsTo(list, q + Len(x), xs, end) && q + Len(x) < TWO32
  {
    assert ([x] + xs)[1..] == xs;
  }

  /** The code at the return address of a frame suspended in a call of v. */
  lemma ReturnPoint(p: Prog, f: Frame, v: nat, fs: seq<Frame>)
    requires ProgOk(p) && CallerOk(p, f, v) && fs != [] && fs[|fs| - 1] == f
    ensures HoldsTo(p.list, RetAddr(p, fs), AfterCall(p.fns[v]), p.offs[f.pc])
  {
    var k := f.pc - 1;
    assert Coded(p, k);
    FnEntry(p.code, p.fns, p.gss, p.offs, v);
    AfterCallHolds(p.list, p.offs[k], p.fns[v], p.offs[p.fns[v].at], p.offs[k + 1]);
  }

  lemma AtRet(p: Prog, e: Env, c: Conf, cpu: Cpu, deep: seq<word>, link: nat)
    requires Agrees(p, e, c, cpu, deep, link) && c.top.pc < |p.code| && p.code[c.top.pc] == Plain(RET)
    ensures At(e, cpu, cpu, (if p.fns[c.top.fn].rt then [Pop(EAX)] else []) + [MovRR(ESP, EBP), RetFn],
          p.offs[c.top.pc + 1],
               StackOf(p, e, c, deep, link), c.heap)
  {
    AtToken(p, e, c, cpu, deep, link);
  }

  /** `ret`: the return address is on top of the saved EBP, the variables and what is deeper. */
  lemma RunsToReturn(p: Prog, e: Env, c: Conf, cpu: Cpu, deep: seq<word>, link: nat) returns (cpu': Cpu)
    requires Agrees(p, e, c, cpu, deep, link) && c.top.pc < |p.code| && p.code[c.top.pc] == Plain(RET)
    requires p.fns[c.top.fn].rt ==> |c.top.stack| >= 1
    ensures Landed(e, cpu, cpu', RetAddr(p, c.callers), deep + Ws(c.top.vars) + [Link(e, link)], c.heap)
    ensures p.fns[c.top.fn].rt ==> cpu'.r[EAX] == Peek(c.top, 0).w
  {
    AtRet(p, e, c, cpu, deep, link);
    cpu' := RetLands(e, cpu, p.fns[c.top.fn].rt, p.offs[c.top.pc + 1], deep, Ws(c.top.vars), Link(e, link),
                     RetAddr(p, c.callers), Ws(c.top.stack), StackOf(p, e, c, deep, link), c.heap);
  }

  lemma RetLands(e: Env, c: Cpu, rt: bool, end: nat, deep: seq<word>, vars: seq<word>, link: word, ret: word,
                 stack: seq<word>, s: seq<word>, heap: seq<byte>)
    returns (c': Cpu)
    requires s == deep + vars + [link, ret] + stack && (rt ==> stack != [])
    requires At(e, c, c, (if rt then [Pop(EAX)] else []) + [MovRR(ESP, EBP), RetFn], end, s, heap)
    requires 4 * (|deep| + |vars| + 2) <= e.top && c.r[EBP] == Addr(e, |deep| + |vars| + 2)
    ensures Landed(e, c, c', ret, deep + vars + [link], heap) && (rt ==> c'.r[EAX] == stack[|stack| - 1])
  {
    RetWords(deep, vars, link, ret, stack);
    c' := RunRet(e, c, c, rt, |deep| + |vars| + 2, end, s, heap);
    assert stack != [] ==> s[|s| - 1] == stack[|stack| - 1];
  }

  lemma RetWords(deep: seq<word>, vars: seq<word>, link: word, ret: word, stack: seq<word>)
    ensures var s, n := deep + vars + [link, ret] + stack, |deep| + |vars| + 2;
            s[n - 1] == ret && s[..n - 1] == deep + vars + [link]
  {
  }

  lemma PopFrame(p: Prog, c: Conf, c': Conf, vs: seq<Val>)
    requires ProgOk(p) && FramesOk(p, c) && c.callers != [] && |vs| == (if p.fns[c.top.fn].rt then 1 else 0)
    requires var f := c.callers[|c.callers| - 1];
             c'.callers == c.callers[..|c.callers| - 1] && c'.top == f.(stack := f.stack + vs)
    ensures FramesOk(p, c')
  {
    var n := |c.callers| - 1;
    assert CallerOk(p, c.callers[n], NextFn(c, n));
    forall k | 0 <= k < |c'.callers| ensures CallerOk(p, c'.callers[k], NextFn(c', k)) {
      assert CallerOk(p, c.callers[k], NextFn(c, k));
    }
  }

  lemma SimRet(p: Prog, e: Env, c: Conf, cpu: Cpu, deep: seq<word>, link: nat, c': Conf, deep': seq<word>, link': nat,
               vs: seq<Val>) returns (cpu': Cpu)
    requires Agrees(p, e, c, cpu, deep, link) && c.top.pc < |p.code| && p.code[c.top.pc] == Plain(RET)
          && c.callers != []
    requires p.fns[c.top.fn].rt ==> |c.top.stack| >= 1
    requires vs == if p.fns[c.top.fn].rt then [Peek(c.top, 0)] else []
    requires var f := c.callers[|c.callers| - 1];
             && c' == Conf(f.(stack := f.stack + vs), c.callers[..|c.callers| - 1], c.heap)
             && deep == Head(p, e, c'.callers, deep', link', f.vars) + Ws(f.stack) && link == |deep'| + |f.vars| + 2
    ensures Ran(e, cpu, cpu') && Agrees(p, e, c', cpu', deep', link')
  {
    var f := c.callers[|c.callers| - 1];
    cpu' := RetMachine(p, e, c, cpu, deep, link, f, Ws(vs));
    PopFrame(p, c, c', vs);
    FinishRet(p, e, c', cpu, cpu', deep, deep', link', f, vs, Ws(vs));
  }

  /** The callee's `ret` and the caller's clean-up behind the call. */
  lemma RetMachine(p: Prog, e: Env, c: Conf, cpu: Cpu, deep: seq<word>, link: nat, f: Frame, ws: seq<word>)
    returns (cpu': Cpu)
    requires Agrees(p, e, c, cpu, deep, link) && c.top.pc < |p.code| && p.code[c.top.pc] == Plain(RET)
    requires c.callers != [] && f == c.callers[|c.callers| - 1] && (p.fns[c.top.fn].rt ==> |c.top.stack| >= 1)
    requires ws == if p.fns[c.top.fn].rt then [Peek(c.top, 0).w] else []
    ensures At(e, cpu, cpu', [], p.offs[f.pc], deep + ws, c.heap) && cpu'.r[EBP] == Link(e, link)
  {
    var n := |c.callers| - 1;
    assert CallerOk(p, f, NextFn(c, n));
    var c1 := RunsToReturn(p, e, c, cpu, deep, link);
    ReturnPoint(p, f, c.top.fn, c.callers);
    cpu' := RunAfterCall(e, cpu, c1, p.fns[c.top.fn], p.offs[f.pc], deep, Ws(c.top.vars), Link(e, link), c.heap);
  }

  lemma FinishRet(p: Prog, e: Env, c': Conf, cpu: Cpu, cpu': Cpu, deep: seq<word>, deep': seq<word>, link': nat,
                  f: Frame, vs: seq<Val>, ws: seq<word>)
    requires ProgOk(p) && e.list == p.list && FramesOk(p, c') && c'.top == f.(stack := f.stack + vs) && ws == Ws(vs)
    requires deep == Head(p, e, c'.callers, deep', link', f.vars) + Ws(f.stack)
    requires At(e, cpu, cpu', [], p.offs[f.pc], deep + ws, c'.heap) && cpu'.r[EBP] == Link(e, |deep'| + |f.vars| + 2)
    ensures Ran(e, cpu, cpu') && Agrees(p, e, c', cpu', deep', link')
  {
    WsSum(f.stack, vs);
    var head := Head(p, e, c'.callers, deep', link', f.vars);
    assert head + Ws(f.stack) + ws == head + (Ws(f.stack) + ws);
  }
}
