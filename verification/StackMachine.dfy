/** What a sume32 program means: a stack machine with structured control, typed operands and a byte heap.
    Blocks and loops work as in section 3.3.5 of the WebAssembly Core Specification 1.0, without results. */
module StackMachine {
  import opened Words
  import opened Sume
  import opened Integers

  // ---------- static structure ----------

  datatype Fn = Fn(rt: bool, params: seq<Ty>, locals: seq<Ty>, at: nat)

  /** The functions declared by the first k instructions; `at` is where each is declared. */
  function FnsUpto(code: seq<Instr>, k: nat): seq<Fn>
    requires k <= |code|
  {
    if k == 0 then []
    else
      var i, before := code[k - 1], FnsUpto(code, k - 1);
      if i.Decl? then before + [Fn(i.rt, i.params, i.locals, k - 1)] else before
  }

  function Fns(code: seq<Instr>): seq<Fn> {
    FnsUpto(code, |code|)
  }

  /** Function v is declared where it says, as the v-th of the program. */
  lemma {:induction false} FnsAt(code: seq<Instr>, k: nat, v: nat)
    requires k <= |code| && v < |FnsUpto(code, k)|
    ensures var g := FnsUpto(code, k)[v];
            && g.at < k && code[g.at] == Decl(g.rt, g.params, g.locals) && |FnsUpto(code, g.at)| == v
  {
    if v < |FnsUpto(code, k - 1)| { FnsAt(code, k - 1, v); }
  }

  predicate Opens(i: Instr) {
    i == Plain(BLOCK) || i == Plain(LOOP)
  }

  /** The `end` that closes the block whose body starts at k, d blocks deep; |code| if there is none. */
  function Close(code: seq<Instr>, k: nat, d: nat): (r: nat)
    requires k <= |code|
    ensures k <= r <= |code|
    decreases |code| - k
  {
    if k == |code| then k
    else if Opens(code[k]) then Close(code, k + 1, d + 1)
    else if code[k] == Plain(END) then (if d == 0 then k else Close(code, k + 1, d - 1))
    else Close(code, k + 1, d)
  }

  // ---------- configurations ----------

  datatype Val = Val(ty: Ty, w: word)

  /** An open block: where it was opened and how many operands there were. */
  datatype Label = Label(at: nat, height: nat)

  datatype Frame = Frame(fn: nat, pc: nat, vars: seq<Val>, stack: seq<Val>, labels: seq<Label>)

  datatype Conf = Conf(top: Frame, callers: seq<Frame>, heap: seq<byte>)

  /** Fell: control reached the end of a function or of the program. Wild: a heap access begins inside the
      heap and ends outside. Stuck: an operand of the wrong type, a pop below the enclosing block, or an
      index without meaning. */
  datatype Outcome = Next(conf: Conf) | Done(heap: seq<byte>) | Trapped | Fell | Wild | Stuck

  /** Operands of the enclosing blocks, which the innermost one may not touch. */
  function Floor(f: Frame): nat {
    if f.labels == [] then 0 else f.labels[|f.labels| - 1].height
  }

  predicate Has(f: Frame, n: nat) {
    |f.stack| >= Floor(f) + n
  }

  /** The k-th operand from the top. */
  function Peek(f: Frame, k: nat): Val
    requires k < |f.stack|
  {
    f.stack[|f.stack| - 1 - k]
  }

  predicate Ints(f: Frame, n: nat) {
    Has(f, n) && forall k | 0 <= k < n :: Peek(f, k).ty == INT_T
  }

  /** Replace the top n operands by vs and go on. */
  function Put(f: Frame, n: nat, vs: seq<Val>): Frame
    requires n <= |f.stack|
  {
    f.(pc := f.pc + 1, stack := f.stack[..|f.stack| - n] + vs)
  }

  function Int(w: word): Val {
    Val(INT_T, w)
  }

  /** Leave n + 1 blocks, or repeat the n-th enclosing loop. */
  function Branch(code: seq<Instr>, f: Frame, n: nat): Option<Frame> {
    if n >= |f.labels| then None
    else
      var j := |f.labels| - 1 - n;
      var l := f.labels[j];
      if l.at >= |code| || l.height > |f.stack| then None
      else if code[l.at] == Plain(LOOP) then
        Some(f.(pc := l.at + 1, stack := f.stack[..l.height], labels := f.labels[..j + 1]))
      else
        Some(f.(pc := Close(code, l.at + 1, 0) + 1, stack := f.stack[..l.height], labels := f.labels[..j]))
  }

  // ---------- the heap ----------

  /** Bytes an access takes; the operand counts in units of this size. */
  function Width(op: byte): int {
    if op == I_LD32 || op == STR32 then 4 else if op == I_LD16_S || op == I_LD16_U || op == STR16 then 2 else 1
  }

  /** Byte address of element x: the scaled index wraps to 32 bits. */
  function HeapAddr(op: byte, x: word): word {
    Wrap(x * Width(op))
  }

  function Extend(v: int, bits: nat, signed: bool): word
    requires 0 <= v < Pow2(bits) && bits <= 16
  {
    Wrap(if signed && v >= Pow2(bits) / 2 then v - Pow2(bits) else v)
  }

  function LoadValue(op: byte, heap: seq<byte>, a: nat): word
    requires IsLoad(op) && a + Width(op) <= |heap|
  {
    if op == I_LD32 then UnLe(heap, a)
    else if Width(op) == 2 then
      var lo: int, hi: int := heap[a], heap[a + 1];
      assert Pow2(8) == 256 && Pow2(16) == 65536;
      Extend(lo + 256 * hi, 16, op == I_LD16_S)
    else
      assert Pow2(8) == 256;
      Extend(heap[a], 8, op == I_LD8_S)
  }

  function StoreValue(op: byte, heap: seq<byte>, a: nat, w: word): (r: seq<byte>)
    requires IsStore(op) && a + Width(op) <= |heap|
    ensures |r| == |heap|
  {
    heap[..a] + Le(w)[..Width(op)] + heap[a + Width(op)..]
  }

  // ---------- one step ----------

  function StepPlain(code: seq<Instr>, fns: seq<Fn>, c: Conf, op: byte): Outcome
    requires c.top.pc < |code|
  {
    var f := c.top;
    if IsUnary(op) then
      if !Ints(f, 1) then Stuck else Next(c.(top := Put(f, 1, [Int(UnaryOp(op, Peek(f, 0).w))])))
    else if op == I_EQZ then
      if !Ints(f, 1) then Stuck else Next(c.(top := Put(f, 1, [Int(if Peek(f, 0).w == 0 then 1 else 0)])))
    else if IsBinary(op) then
      if !Ints(f, 2) then Stuck
      else
        var r := BinaryOp(op, Peek(f, 1).w, Peek(f, 0).w);
        if r.None? then Trapped else Next(c.(top := Put(f, 2, [Int(r.value)])))
    else if IsCompare(op) then
      if !Ints(f, 2) then Stuck
      else Next(c.(top := Put(f, 2, [Int(if CompareOp(op, Peek(f, 1).w, Peek(f, 0).w) then 1 else 0)])))
    else if IsLoad(op) then
      if !Ints(f, 1) then Stuck
      else
        var a := HeapAddr(op, Peek(f, 0).w);
        if a >= |c.heap| then Trapped
        else if a + Width(op) > |c.heap| then Wild
        else Next(c.(top := Put(f, 1, [Int(LoadValue(op, c.heap, a))])))
    else if op == I_MEMSZ then
      Next(c.(top := Put(f, 0, [Int(Wrap(|c.heap|))])))
    else if IsStore(op) then
      if !Has(f, 2) || Peek(f, 1).ty != INT_T then Stuck
      else
        var a := HeapAddr(op, Peek(f, 1).w);
        if a >= |c.heap| then Trapped
        else if a + Width(op) > |c.heap| then Wild
        else Next(c.(top := Put(f, 2, []), heap := StoreValue(op, c.heap, a, Peek(f, 0).w)))
    else if op == TRAP then Trapped
    else if op == BLOCK || op == LOOP then
      Next(c.(top := f.(pc := f.pc + 1, labels := f.labels + [Label(f.pc, |f.stack|)])))
    else if op == RET then StepRet(fns, c)
    else if op == END then
      if f.labels == [] then Fell
      else if !Has(f, 0) then Stuck
      else Next(c.(top := f.(pc := f.pc + 1, stack := f.stack[..Floor(f)], labels := f.labels[..|f.labels| - 1])))
    else Stuck
  }

  /** Return to the caller, which finds the result, if there is one, on its operand stack. */
  function StepRet(fns: seq<Fn>, c: Conf): Outcome {
    var f := c.top;
    if f.fn >= |fns| then Stuck
    else if fns[f.fn].rt && !Ints(f, 1) then Stuck
    else if c.callers == [] then Done(c.heap)
    else
      var n := |c.callers| - 1;
      var caller := c.callers[n];
      var result := if fns[f.fn].rt then [Peek(f, 0)] else [];
      Next(c.(top := caller.(stack := caller.stack + result), callers := c.callers[..n]))
  }

  /** Variables of a callee: the arguments, then the locals, which start at zero. */
  function NewVars(fn: Fn, args: seq<Val>): seq<Val> {
    args + seq(|fn.locals|, i requires 0 <= i < |fn.locals| => Val(fn.locals[i], 0))
  }

  function StepCall(fns: seq<Fn>, c: Conf, v: word): Outcome {
    var f := c.top;
    if v >= |fns| then Stuck
    else
      var g := fns[v];
      var n := |g.params|;
      if !Has(f, n) then Stuck
      else
        var args := f.stack[|f.stack| - n..];
        if exists k | 0 <= k < n :: args[k].ty != g.params[k] then Stuck
        else
          Next(c.(top := Frame(v, g.at + 1, NewVars(g, args), [], []), callers := c.callers + [Put(f, n, [])]))
  }

  function StepImm(code: seq<Instr>, fns: seq<Fn>, c: Conf, op: byte, v: word): Outcome
    requires c.top.pc < |code|
  {
    var f := c.top;
    if op == I_CONST then Next(c.(top := Put(f, 0, [Int(v)])))
    else if op == GET_L then
      if v >= |f.vars| then Stuck else Next(c.(top := Put(f, 0, [f.vars[v]])))
    else if op == SET_L then
      if v >= |f.vars| || !Has(f, 1) || Peek(f, 0).ty != f.vars[v].ty then Stuck
      else Next(c.(top := Put(f, 1, []).(vars := f.vars[v := Peek(f, 0)])))
    else if op == BR then
      var t := Branch(code, f, v);
      if t.None? then Stuck else Next(c.(top := t.value))
    else if op == BR_IF then
      if !Ints(f, 1) then Stuck
      else
        var g := Put(f, 1, []);
        if Peek(f, 0).w == 0 then Next(c.(top := g))
        else
          var t := Branch(code, g, v);
          if t.None? then Stuck else Next(c.(top := t.value))
    else if op == CALL then StepCall(fns, c, v)
    else Stuck
  }

  function Step(code: seq<Instr>, fns: seq<Fn>, c: Conf): Outcome {
    if c.top.pc >= |code| then Fell
    else
      match code[c.top.pc]
      case Plain(op) => StepPlain(code, fns, c, op)
      case Imm(op, v) => StepImm(code, fns, c, op, v)
      case Decl(_, _, _) => Fell
  }

  /** A run: each configuration steps to the next. */
  ghost predicate Run(code: seq<Instr>, fns: seq<Fn>, cs: seq<Conf>) {
    |cs| > 0 && forall k | 0 <= k < |cs| - 1 :: RunsAt(code, fns, cs, k)
  }

  ghost predicate RunsAt(code: seq<Instr>, fns: seq<Fn>, cs: seq<Conf>, k: nat) {
    k + 1 < |cs| && Step(code, fns, cs[k]) == Next(cs[k + 1])
  }

  /** The first function starts with no operands; its locals hold whatever `vars` says. */
  ghost predicate Initial(code: seq<Instr>, fns: seq<Fn>, c: Conf) {
    && |fns| > 0 && fns[0].params == []
    && c.callers == [] && c.top.fn == 0 && c.top.pc == fns[0].at + 1 && c.top.stack == [] && c.top.labels == []
    && |c.top.vars| == |fns[0].locals| && forall k | 0 <= k < |c.top.vars| :: c.top.vars[k].ty == fns[0].locals[k]
  }
}
