/** The emitted code simulates the stack machine: related states stay related, step by step. */
module Simulation {
  import opened Words
  import opened Sume
  import opened Integers
  import opened StackMachine
  import opened X86
  import opened Reach
  import opened Cpu
  import opened MachineView
  import opened Codegen
  import opened Emitted

  /** A translated program: tokens, functions, the generator's states and offsets, the listing of its code. */
  datatype Prog = Prog(code: seq<Instr>, fns: seq<Fn>, gss: seq<Gs>, offs: seq<nat>, list: Listing)

  predicate Jumps(i: Instr) {
    i == Plain(TRAP) || i == Plain(RET) || (i.Imm? && i.op == BR)
  }

  /** What the generator's bookkeeping of operands needs at token k: functions and blocks open without operands, and
      control falls into an inner `end` without operands. */
  predicate FlatAt(code: seq<Instr>, gss: seq<Gs>, k: nat)
    requires k < |code| && |gss| == |code| + 1
  {
    && (Opens(code[k]) || code[k].Decl? ==> gss[k].stkh == 0)
    && (code[k] == Plain(END) && k > 0 && !Jumps(code[k - 1]) ==> gss[k].stkh == 0)
  }

  /** A call reserves one byte, not one word, per local of the callee. */
  predicate CallOk(fns: seq<Fn>, i: Instr) {
    i.Imm? && i.op == CALL && i.v < |fns| ==> fns[i.v].locals == []
  }

  ghost predicate Coded(p: Prog, k: nat)
    requires Trace(p.code, p.fns, p.gss, p.offs)
  {
    k < |p.code| && Placed(p.fns, p.gss[k], p.code[k]) && Supported(p.code[k]) && FlatAt(p.code, p.gss, k)
    && CallOk(p.fns, p.code[k])
    && p.offs[k] < TWO32 && p.offs[k + 1] < TWO32
    && HoldsTo(p.list, p.offs[k], Emit(p.code[k], p.offs[k], InfoAt(p.code, p.fns, p.gss[k], p.offs, p.code[k])),
         p.offs[k + 1])
  }

  /** Every block has its end. */
  ghost predicate ProgOk(p: Prog) {
    Trace(p.code, p.fns, p.gss, p.offs) && p.gss[|p.code|].open == [] && forall k | 0 <= k < |p.code| :: Coded(p, k)
  }

  // ---------- the stack of words ----------

  function Ws(vs: seq<Val>): seq<word> {
    seq(|vs|, i requires 0 <= i < |vs| => vs[i].w)
  }

  lemma WsSum(a: seq<Val>, b: seq<Val>)
    ensures Ws(a + b) == Ws(a) + Ws(b)
  {
  }

  lemma WsTake(a: seq<Val>, n: nat)
    requires n <= |a|
    ensures Ws(a[..n]) == Ws(a)[..n] && Ws(a[n..]) == Ws(a)[n..]
  {
  }

  function Link(e: Env, n: nat): word {
    if 4 * n <= e.top then Addr(e, n) else 0
  }

  /** Where the function called from the last of fs returns to; the first function returns to the good exit. */
  function RetAddr(p: Prog, fs: seq<Frame>): word {
    if fs == [] then GOODRET
    else
      var pc := fs[|fs| - 1].pc;
      if 0 < pc <= |p.offs| then Wrap(p.offs[pc - 1] + 20) else 0
  }

  /** Below the operands of a frame with these variables and callers: everything deeper, the variables, the saved EBP
      and the return address. deep and link describe what is deeper. */
  function Head(p: Prog, e: Env, fs: seq<Frame>, deep: seq<word>, link: nat, vars: seq<Val>): seq<word> {
    deep + Ws(vars) + [Link(e, link), RetAddr(p, fs)]
  }

  // ---------- the relation ----------

  ghost predicate LabelsOk(open: seq<Open>, labels: seq<Label>) {
    |open| == |labels| + 1 && open[0].height == 0
    && forall j | 0 <= j < |labels| :: open[j + 1] == Open(labels[j].at, 0) && labels[j].height == 0
  }

  ghost predicate VarsOk(p: Prog, f: Frame) {
    f.fn < |p.fns| && |f.vars| == |p.fns[f.fn].params| + |p.fns[f.fn].locals|
  }

  ghost predicate TopOk(p: Prog, f: Frame)
    requires Trace(p.code, p.fns, p.gss, p.offs)
  {
    && 0 < f.pc <= |p.code| && !Jumps(p.code[f.pc - 1]) && VarsOk(p, f)
    && p.gss[f.pc].fn == f.fn && p.gss[f.pc].stkh == |f.stack| && LabelsOk(p.gss[f.pc].open, f.labels)
  }

  predicate IsCall(i: Instr, v: nat) {
    i.Imm? && i.op == CALL && i.v == v
  }

  /** A frame suspended in a call of function v. */
  ghost predicate CallerOk(p: Prog, f: Frame, v: nat)
    requires Trace(p.code, p.fns, p.gss, p.offs)
  {
    && 0 < f.pc <= |p.code| && v < |p.fns| && IsCall(p.code[f.pc - 1], v) && VarsOk(p, f)
    && p.gss[f.pc].fn == f.fn && p.gss[f.pc].stkh == |f.stack| + (if p.fns[v].rt then 1 else 0)
    && LabelsOk(p.gss[f.pc].open, f.labels)
  }

  function NextFn(c: Conf, k: nat): nat {
    if k + 1 < |c.callers| then c.callers[k + 1].fn else c.top.fn
  }

  ghost predicate FramesOk(p: Prog, c: Conf)
    requires Trace(p.code, p.fns, p.gss, p.offs)
  {
    TopOk(p, c.top) && forall k | 0 <= k < |c.callers| :: CallerOk(p, c.callers[k], NextFn(c, k))
  }

  /** The words of the whole stack, over deep. */
  function StackOf(p: Prog, e: Env, c: Conf, deep: seq<word>, link: nat): seq<word> {
    Head(p, e, c.callers, deep, link, c.top.vars) + Ws(c.top.stack)
  }

  /** The processor is about to run the token that the machine is at, with the same operands, variables and heap. */
  ghost predicate Agrees(p: Prog, e: Env, c: Conf, cpu: Cpu, deep: seq<word>, link: nat) {
    && ProgOk(p) && e.list == p.list && Follows(e.step, e.list) && FramesOk(p, c) && cpu.eip == p.offs[c.top.pc]
    && Matches(e, StackOf(p, e, c, deep, link), |deep| + |c.top.vars| + 2, c.heap, cpu)
  }

  ghost predicate Matches(e: Env, s: seq<word>, n: nat, heap: seq<byte>, cpu: Cpu) {
    View(e, cpu, s, heap) && n <= |s| && cpu.r[EBP] == Addr(e, n)
  }

  // ---------- tokens that replace operands ----------

  /** The generator's next state, as seen from the machine's frame. */
  lemma TopPut(p: Prog, f: Frame, n: nat, vs: seq<Val>)
    requires ProgOk(p) && TopOk(p, f) && f.pc < |p.code| && n <= |f.stack| && Replaces(p, f.pc, n, |vs|)
    ensures TopOk(p, Put(f, n, vs))
  {
    assert GStepsTo(p.code, p.fns, p.gss, p.offs, f.pc);
  }

  lemma NewTop(p: Prog, c: Conf, c': Conf)
    requires ProgOk(p) && FramesOk(p, c) && c'.callers == c.callers && c'.top.fn == c.top.fn && TopOk(p, c'.top)
    ensures FramesOk(p, c')
  {
    forall k | 0 <= k < |c'.callers| ensures CallerOk(p, c'.callers[k], NextFn(c', k)) {
      assert CallerOk(p, c.callers[k], NextFn(c, k));
    }
  }

  lemma TakeOfSum<T>(h: seq<T>, s: seq<T>, n: nat, v: seq<T>)
    requires n <= |s|
    ensures (h + s)[..|h + s| - n] + v == h + (s[..|s| - n] + v)
  {
  }

  /** The words of the frame whose top n operands are replaced. */
  lemma PutWords(head: seq<word>, stack: seq<Val>, n: nat, vs: seq<Val>)
    requires n <= |stack|
    ensures var s := head + Ws(stack);
            n <= |s| && s[..|s| - n] + Ws(vs) == head + Ws(stack[..|stack| - n] + vs)
  {
    WsSum(stack[..|stack| - n], vs);
    WsTake(stack, |stack| - n);
    TakeOfSum(head, Ws(stack), n, Ws(vs));
  }

  predicate Replaces(p: Prog, k: nat, n: nat, m: nat)
    requires k < |p.code| && k < |p.gss|
  {
    var i := p.code[k];
    !i.Decl? && !Opens(i) && i != Plain(END) && !Jumps(i)
    && Delta(i, FnOf(p.fns, p.gss[k].fn), Callee(p.fns, i)) == m - n
  }

  /** After the code of a token that replaces the top n operands by vs. */
  lemma FinishPut(p: Prog, e: Env, c: Conf, cpu: Cpu, cpu': Cpu, deep: seq<word>, link: nat, n: nat, vs: seq<Val>,
                  heap: seq<byte>, s: seq<word>)
    requires Agrees(p, e, c, cpu, deep, link) && c.top.pc < |p.code| && n <= |c.top.stack|
          && Replaces(p, c.top.pc, n, |vs|)
    requires cpu'.r[EBP] == cpu.r[EBP]
    requires s == StackOf(p, e, c, deep, link) && n <= |s|
          && At(e, cpu, cpu', [], p.offs[c.top.pc + 1], s[..|s| - n] + Ws(vs), heap)
    ensures Agrees(p, e, c.(top := Put(c.top, n, vs), heap := heap), cpu', deep, link) && Ran(e, cpu, cpu')
  {
    TopPut(p, c.top, n, vs);
    PutWords(Head(p, e, c.callers, deep, link, c.top.vars), c.top.stack, n, vs);
    NewTop(p, c, c.(top := Put(c.top, n, vs), heap := heap));
  }

  lemma FinishOne(p: Prog, e: Env, c: Conf, cpu: Cpu, cpu': Cpu, deep: seq<word>, link: nat, n: nat, x: Val,
                  s: seq<word>, t: seq<word>)
    requires Agrees(p, e, c, cpu, deep, link) && c.top.pc < |p.code| && n <= |c.top.stack|
          && Replaces(p, c.top.pc, n, 1)
    requires cpu'.r[EBP] == cpu.r[EBP]
    requires s == StackOf(p, e, c, deep, link) && n <= |s| && t == s[..|s| - n]
          && At(e, cpu, cpu', [], p.offs[c.top.pc + 1], t + [x.w], c.heap)
    ensures Agrees(p, e, c.(top := Put(c.top, n, [x])), cpu', deep, link) && Ran(e, cpu, cpu')
  {
    assert Ws([x]) == [x.w];
    FinishPut(p, e, c, cpu, cpu', deep, link, n, [x], c.heap, s);
  }

  lemma FinishNone(p: Prog, e: Env, c: Conf, cpu: Cpu, cpu': Cpu, deep: seq<word>, link: nat, n: nat, s: seq<word>,
                   t: seq<word>, heap: seq<byte>)
    requires Agrees(p, e, c, cpu, deep, link) && c.top.pc < |p.code| && n <= |c.top.stack|
          && Replaces(p, c.top.pc, n, 0)
    requires cpu'.r[EBP] == cpu.r[EBP]
    requires s == StackOf(p, e, c, deep, link) && n <= |s| && t == s[..|s| - n]
          && At(e, cpu, cpu', [], p.offs[c.top.pc + 1], t, heap)
    ensures Agrees(p, e, c.(top := Put(c.top, n, []), heap := heap), cpu', deep, link) && Ran(e, cpu, cpu')
  {
    assert Ws([]) == [] && t + [] == t;
    FinishPut(p, e, c, cpu, cpu', deep, link, n, [], heap, s);
  }

  function TokenInfo(p: Prog, k: nat): Info
    requires ProgOk(p) && k < |p.code|
  {
    assert Coded(p, k);
    InfoAt(p.code, p.fns, p.gss[k], p.offs, p.code[k])
  }

  /** The processor is about to run the code of the machine's next token. */
  lemma AtToken(p: Prog, e: Env, c: Conf, cpu: Cpu, deep: seq<word>, link: nat)
    requires Agrees(p, e, c, cpu, deep, link) && c.top.pc < |p.code|
    ensures var k := c.top.pc;
            At(e, cpu, cpu, Emit(p.code[k], cpu.eip, TokenInfo(p, k)), p.offs[k + 1], StackOf(p, e, c, deep, link),
              c.heap)
  {
    assert Coded(p, c.top.pc);
    ReachRefl(e.step, cpu);
  }

  lemma TopTwo(head: seq<word>, f: Frame)
    requires |f.stack| >= 2
    ensures var s := head + Ws(f.stack);
            |s| >= 2 && s == s[..|s| - 2] + [Peek(f, 1).w, Peek(f, 0).w]
  {
    var t := Ws(f.stack);
    assert t[|t| - 2] == Peek(f, 1).w && t[|t| - 1] == Peek(f, 0).w;
  }

  lemma TopOne(head: seq<word>, f: Frame)
    requires |f.stack| >= 1
    ensures var s := head + Ws(f.stack);
            |s| >= 1 && s == s[..|s| - 1] + [Peek(f, 0).w]
  {
    var t := Ws(f.stack);
    assert t[|t| - 1] == Peek(f, 0).w;
  }

  lemma SimBinary(p: Prog, e: Env, c: Conf, cpu: Cpu, deep: seq<word>, link: nat, op: byte, r: word) returns (cpu': Cpu)
    requires Agrees(p, e, c, cpu, deep, link) && c.top.pc < |p.code| && p.code[c.top.pc] == Plain(op) && IsBinary(op)
          && |c.top.stack| >= 2
    requires DividendOk(op, Peek(c.top, 1).w) && BinaryOp(op, Peek(c.top, 1).w, Peek(c.top, 0).w) == Some(r)
    ensures Agrees(p, e, c.(top := Put(c.top, 2, [Int(r)])), cpu', deep, link) && Ran(e, cpu, cpu')
  {
    var s := StackOf(p, e, c, deep, link);
    AtToken(p, e, c, cpu, deep, link);
    TopTwo(Head(p, e, c.callers, deep, link, c.top.vars), c.top);
    cpu' := RunBinary(e, cpu, cpu, op, p.offs[c.top.pc + 1], s[..|s| - 2], Peek(c.top, 1).w, Peek(c.top, 0).w, c.heap);
    FinishOne(p, e, c, cpu, cpu', deep, link, 2, Int(r), s, s[..|s| - 2]);
  }

  lemma SimCompare(p: Prog, e: Env, c: Conf, cpu: Cpu, deep: seq<word>, link: nat, op: byte, r: word)
    returns (cpu': Cpu)
    requires Agrees(p, e, c, cpu, deep, link) && c.top.pc < |p.code| && p.code[c.top.pc] == Plain(op) && IsCompare(op)
          && |c.top.stack| >= 2
    requires r == if CompareOp(op, Peek(c.top, 1).w, Peek(c.top, 0).w) then 1 else 0
    ensures Agrees(p, e, c.(top := Put(c.top, 2, [Int(r)])), cpu', deep, link) && Ran(e, cpu, cpu')
  {
    var s := StackOf(p, e, c, deep, link);
    AtToken(p, e, c, cpu, deep, link);
    TopTwo(Head(p, e, c.callers, deep, link, c.top.vars), c.top);
    cpu' := RunCompare(e, cpu, cpu, op, p.offs[c.top.pc + 1], s[..|s| - 2], Peek(c.top, 1).w, Peek(c.top, 0).w, c.heap);
    FinishOne(p, e, c, cpu, cpu', deep, link, 2, Int(r), s, s[..|s| - 2]);
  }

  lemma SimEqz(p: Prog, e: Env, c: Conf, cpu: Cpu, deep: seq<word>, link: nat, r: word) returns (cpu': Cpu)
    requires Agrees(p, e, c, cpu, deep, link) && c.top.pc < |p.code| && p.code[c.top.pc] == Plain(I_EQZ)
          && |c.top.stack| >= 1
    requires r == if Peek(c.top, 0).w == 0 then 1 else 0
    ensures Agrees(p, e, c.(top := Put(c.top, 1, [Int(r)])), cpu', deep, link) && Ran(e, cpu, cpu')
  {
    var s := StackOf(p, e, c, deep, link);
    AtToken(p, e, c, cpu, deep, link);
    TopOne(Head(p, e, c.callers, deep, link, c.top.vars), c.top);
    cpu' := RunEqz(e, cpu, cpu, p.offs[c.top.pc + 1], s[..|s| - 1], Peek(c.top, 0).w, c.heap);
    FinishOne(p, e, c, cpu, cpu', deep, link, 1, Int(r), s, s[..|s| - 1]);
  }

  // ---------- constants and variables ----------

  lemma SimConst(p: Prog, e: Env, c: Conf, cpu: Cpu, deep: seq<word>, link: nat, v: word) returns (cpu': Cpu)
    requires Agrees(p, e, c, cpu, deep, link) && c.top.pc < |p.code| && p.code[c.top.pc] == Imm(I_CONST, v)
    requires 4 * (|StackOf(p, e, c, deep, link)| + 1) <= e.top - e.lo
    ensures Agrees(p, e, c.(top := Put(c.top, 0, [Int(v)])), cpu', deep, link) && Ran(e, cpu, cpu')
  {
    var s := StackOf(p, e, c, deep, link);
    AtToken(p, e, c, cpu, deep, link);
    cpu' := RunConst(e, cpu, cpu, v, p.offs[c.top.pc + 1], s, c.heap);
    FinishOne(p, e, c, cpu, cpu', deep, link, 0, Int(v), s, s);
  }

  lemma SimMemsz(p: Prog, e: Env, c: Conf, cpu: Cpu, deep: seq<word>, link: nat, v: word) returns (cpu': Cpu)
    requires Agrees(p, e, c, cpu, deep, link) && c.top.pc < |p.code| && p.code[c.top.pc] == Plain(I_MEMSZ)
          && v == Wrap(|c.heap|)
    requires 4 * (|StackOf(p, e, c, deep, link)| + 1) <= e.top - e.lo
    ensures Agrees(p, e, c.(top := Put(c.top, 0, [Int(v)])), cpu', deep, link) && Ran(e, cpu, cpu')
  {
    var s := StackOf(p, e, c, deep, link);
    AtToken(p, e, c, cpu, deep, link);
    assert cpu.r[ESI] == v;
    cpu' := RunPush(e, cpu, cpu, ESI, p.offs[c.top.pc + 1], s, c.heap);
    FinishOne(p, e, c, cpu, cpu', deep, link, 0, Int(v), s, s);
  }

  lemma Middle<T>(a: seq<T>, b: seq<T>, c: seq<T>, d: seq<T>, v: nat, x: T)
    requires v < |b|
    ensures (a + b + c + d)[|a| + v] == b[v]
    ensures (a + b + c + d)[|a| + v := x] == a + b[v := x] + c + d
  {
  }

  /** Variable v lies at word |deep| + v. */
  lemma VarWord(p: Prog, e: Env, c: Conf, deep: seq<word>, link: nat, v: nat, x: Val)
    requires v < |c.top.vars|
    ensures var s, k := StackOf(p, e, c, deep, link), |deep| + v;
            && k < |s| - |c.top.stack| && s[k] == c.top.vars[v].w
            && s[k := x.w] == StackOf(p, e, c.(top := c.top.(vars := c.top.vars[v := x])), deep, link)
  {
    Middle(deep, Ws(c.top.vars), [Link(e, link), RetAddr(p, c.callers)], Ws(c.top.stack), v, x.w);
    assert Ws(c.top.vars[v := x]) == Ws(c.top.vars)[v := x.w];
  }

  /** The displacement emitted for variable v reaches word |deep| + v. */
  lemma VarAddr(e: Env, n: nat, fn: Fn, vars: nat, v: nat)
    requires vars == |fn.params| + |fn.locals| && v < vars && 4 * (n + vars + 2) <= e.top
    ensures Addr(e, n + vars + 2) + VarDisp(fn, v) == Addr(e, n + v + 1)
  {
  }

  lemma SimGet(p: Prog, e: Env, c: Conf, cpu: Cpu, deep: seq<word>, link: nat, v: word) returns (cpu': Cpu)
    requires Agrees(p, e, c, cpu, deep, link) && c.top.pc < |p.code| && p.code[c.top.pc] == Imm(GET_L, v)
          && v < |c.top.vars|
    requires 4 * (|StackOf(p, e, c, deep, link)| + 1) <= e.top - e.lo
    ensures Agrees(p, e, c.(top := Put(c.top, 0, [c.top.vars[v]])), cpu', deep, link) && Ran(e, cpu, cpu')
  {
    var s := StackOf(p, e, c, deep, link);
    AtToken(p, e, c, cpu, deep, link);
    VarWord(p, e, c, deep, link, v, Int(0));
    VarAddr(e, |deep|, p.fns[c.top.fn], |c.top.vars|, v);
    cpu' := RunGet(e, cpu, cpu, VarDisp(p.fns[c.top.fn], v), |deep| + v, p.offs[c.top.pc + 1], s, c.heap);
    FinishOne(p, e, c, cpu, cpu', deep, link, 0, c.top.vars[v], s, s);
  }

  /** The words after `set_l v`. */
  lemma SetWords(p: Prog, e: Env, c: Conf, deep: seq<word>, link: nat, v: nat)
    requires v < |c.top.vars| && |c.top.stack| >= 1
    ensures var s, x := StackOf(p, e, c, deep, link), Peek(c.top, 0);
            && |deep| + v < |s| - 1
            && s[..|s| - 1][|deep| + v := x.w]
               == StackOf(p, e, c.(top := Put(c.top, 1, []).(vars := c.top.vars[v := x])), deep, link)
  {
    var s := StackOf(p, e, c, deep, link);
    PutWords(Head(p, e, c.callers, deep, link, c.top.vars), c.top.stack, 1, []);
    assert s[..|s| - 1] + Ws([]) == s[..|s| - 1];
    VarWord(p, e, c.(top := Put(c.top, 1, [])), deep, link, v, Peek(c.top, 0));
  }

  lemma AtSet(p: Prog, e: Env, c: Conf, cpu: Cpu, deep: seq<word>, link: nat, v: word)
    requires Agrees(p, e, c, cpu, deep, link) && c.top.pc < |p.code| && p.code[c.top.pc] == Imm(SET_L, v)
          && v < |c.top.vars|
    ensures var disp := VarDisp(p.fns[c.top.fn], v);
            && At(e, cpu, cpu, [Pop(EAX), MovBR(disp, EAX)], p.offs[c.top.pc + 1], StackOf(p, e, c, deep, link), c.heap)
            && cpu.r[EBP] + disp == Addr(e, |deep| + v + 1)
  {
    AtToken(p, e, c, cpu, deep, link);
    VarAddr(e, |deep|, p.fns[c.top.fn], |c.top.vars|, v);
  }

  lemma SimSet(p: Prog, e: Env, c: Conf, cpu: Cpu, deep: seq<word>, link: nat, v: word) returns (cpu': Cpu)
    requires Agrees(p, e, c, cpu, deep, link) && c.top.pc < |p.code| && p.code[c.top.pc] == Imm(SET_L, v)
    requires v < |c.top.vars| && |c.top.stack| >= 1
    ensures Agrees(p, e, c.(top := Put(c.top, 1, []).(vars := c.top.vars[v := Peek(c.top, 0)])), cpu', deep, link)
         && Ran(e, cpu, cpu')
  {
    var s := StackOf(p, e, c, deep, link);
    var x := Peek(c.top, 0);
    AtSet(p, e, c, cpu, deep, link, v);
    TopOne(Head(p, e, c.callers, deep, link, c.top.vars), c.top);
    SetWords(p, e, c, deep, link, v);
    cpu' := RunPutVar(e, cpu, cpu, VarDisp(p.fns[c.top.fn], v), |deep| + v, p.offs[c.top.pc + 1], s[..|s| - 1], x.w,
                      c.heap);
    FinishFrame(p, e, c, cpu, cpu', deep, link, Put(c.top, 1, []).(vars := c.top.vars[v := x]));
  }

  lemma FinishFrame(p: Prog, e: Env, c: Conf, cpu: Cpu, cpu': Cpu, deep: seq<word>, link: nat, f: Frame)
    requires Agrees(p, e, c, cpu, deep, link) && c.top.pc < |p.code| && 1 <= |c.top.stack|
          && Replaces(p, c.top.pc, 1, 0)
    requires cpu'.r[EBP] == cpu.r[EBP] && |f.vars| == |c.top.vars| && f == Put(c.top, 1, []).(vars := f.vars)
    requires At(e, cpu, cpu', [], p.offs[c.top.pc + 1], StackOf(p, e, c.(top := f), deep, link), c.heap)
    ensures Agrees(p, e, c.(top := f), cpu', deep, link) && Ran(e, cpu, cpu')
  {
    TopPut(p, c.top, 1, []);
    NewTop(p, c, c.(top := f));
  }

  // ---------- the heap ----------

  /** A trap: control is at the trap code with the frame intact below the operands. */
  ghost predicate AtTrap(p: Prog, e: Env, c: Conf, cpu: Cpu, cpu': Cpu, deep: seq<word>, link: nat, t: seq<word>) {
    Landed(e, cpu, cpu', TRAPRET, t, c.heap) && Head(p, e, c.callers, deep, link, c.top.vars) <= t
      && cpu'.r[EBP] == cpu.r[EBP]
  }

  lemma SimLoad(p: Prog, e: Env, c: Conf, cpu: Cpu, deep: seq<word>, link: nat, op: byte, a: nat) returns (cpu': Cpu)
    requires Agrees(p, e, c, cpu, deep, link) && c.top.pc < |p.code| && p.code[c.top.pc] == Plain(op) && IsLoad(op)
          && |c.top.stack| >= 1
    requires a == HeapAddr(op, Peek(c.top, 0).w) && (a >= |c.heap| || a + Width(op) <= |c.heap|)
    ensures Ran(e, cpu, cpu')
    ensures var s := StackOf(p, e, c, deep, link);
            if a >= |c.heap| then AtTrap(p, e, c, cpu, cpu', deep, link, s[..|s| - 1])
            else Agrees(p, e, c.(top := Put(c.top, 1, [Int(LoadValue(op, c.heap, a))])), cpu', deep, link)
  {
    var s := StackOf(p, e, c, deep, link);
    AtToken(p, e, c, cpu, deep, link);
    TopOne(Head(p, e, c.callers, deep, link, c.top.vars), c.top);
    cpu' := RunLoad(e, cpu, cpu, op, p.offs[c.top.pc + 1], s[..|s| - 1], Peek(c.top, 0).w, c.heap);
    if a < |c.heap| {
      FinishOne(p, e, c, cpu, cpu', deep, link, 1, Int(LoadValue(op, c.heap, a)), s, s[..|s| - 1]);
    }
  }

  lemma AtStore(p: Prog, e: Env, c: Conf, cpu: Cpu, deep: seq<word>, link: nat, op: byte)
    requires Agrees(p, e, c, cpu, deep, link) && c.top.pc < |p.code| && p.code[c.top.pc] == Plain(op)
          && (op == STR32 || op == STR8)
    ensures At(e, cpu, cpu, [Pop(EBX), Pop(EAX)] + Scale(op) + Guard(cpu.eip + 2 + ScaleLen(op)) + [StoreX(op)],
          p.offs[c.top.pc + 1],
               StackOf(p, e, c, deep, link), c.heap)
  {
    AtToken(p, e, c, cpu, deep, link);
  }

  lemma SimStore(p: Prog, e: Env, c: Conf, cpu: Cpu, deep: seq<word>, link: nat, op: byte, a: nat) returns (cpu': Cpu)
    requires Agrees(p, e, c, cpu, deep, link) && c.top.pc < |p.code| && p.code[c.top.pc] == Plain(op)
          && (op == STR32 || op == STR8) && |c.top.stack| >= 2
    requires a == HeapAddr(op, Peek(c.top, 1).w) && (a >= |c.heap| || a + Width(op) <= |c.heap|)
    ensures Ran(e, cpu, cpu')
    ensures var s := StackOf(p, e, c, deep, link);
            if a >= |c.heap| then AtTrap(p, e, c, cpu, cpu', deep, link, s[..|s| - 2])
            else Agrees(p, e, c.(top := Put(c.top, 2, []), heap := StoreValue(op, c.heap, a, Peek(c.top, 0).w)),
                        cpu', deep, link)
  {
    var s := StackOf(p, e, c, deep, link);
    AtStore(p, e, c, cpu, deep, link, op);
    TopTwo(Head(p, e, c.callers, deep, link, c.top.vars), c.top);
    cpu' := RunStore(e, cpu, cpu, op, p.offs[c.top.pc + 1], s[..|s| - 2], Peek(c.top, 1).w, Peek(c.top, 0).w, c.heap);
    if a < |c.heap| {
      FinishNone(p, e, c, cpu, cpu', deep, link, 2, s, s[..|s| - 2], StoreValue(op, c.heap, a, Peek(c.top, 0).w));
    }
  }
}
