/** The code around the program: entering from C and leaving, normally or through a trap. */
module Exits {
  import opened Words
  import opened Sume
  import opened Integers
  import opened StackMachine
  import opened X86
  import opened Cpu
  import opened MachineView
  import opened Codegen
  import opened Emitted
  import opened Simulation
  import opened Generator
  import opened Control
  import opened Steps

  /** A run from c0 has come to c, with the instructions xs ahead; nothing is said about the stack. */
  ghost predicate On(e: Env, c0: Cpu, c: Cpu, xs: seq<X>, end: nat) {
    Ran(e, c0, c) && HoldsTo(e.list, c.eip, xs, end)
  }

  lemma Forward(e: Env, c0: Cpu, c: Cpu, x: X, xs: seq<X>, end: nat, c': Cpu)
    requires On(e, c0, c, [x] + xs, end) && ExecDecoded(Some((x, c.eip + Len(x))), c) == Some(c')
          && c'.eip == c.eip + Len(x)
    ensures On(e, c0, c', xs, end)
  {
    assert ([x] + xs)[1..] == xs;
    Go(e, c0, c, [x] + xs, end, c');
  }

  lemma ExecPop(c: Cpu, p: word, r: Reg, a: word)
    requires c.r[ESP] == a && a + 4 <= TWO32
    ensures ExecDecoded(Some((Pop(r), p)), c) == Some(c.(eip := p, r := c.r[ESP := Wrap(a + 4)][r := Ld(c.mem, a)]))
  {
  }

  /** pop r, for any register and any stack. */
  lemma PopAny(e: Env, c0: Cpu, c: Cpu, r: Reg, xs: seq<X>, end: nat, a: word, w: word) returns (c': Cpu)
    requires On(e, c0, c, [Pop(r)] + xs, end) && c.r[ESP] == a && a + 4 < TWO32 && Ld(c.mem, a) == w
    ensures On(e, c0, c', xs, end) && c'.mem == c.mem && c'.f == c.f && c'.eip == c.eip + 1
    ensures c'.r == c.r[ESP := a + 4][r := w]
  {
    c' := c.(eip := c.eip + 1, r := c.r[ESP := a + 4][r := w]);
    ExecPop(c, c.eip + 1, r, a);
    Forward(e, c0, c, Pop(r), xs, end, c');
  }

  /** What the C caller keeps: four registers and the return address. */
  datatype Kept = Kept(edi: word, esi: word, ebx: word, ebp: word, ret: word)

  /** They lie at sp. */
  ghost predicate KeptAt(m: Mem, sp: word, k: Kept) {
    && sp + 20 < TWO32 && Ld(m, sp) == k.edi && Ld(m, sp + 4) == k.esi && Ld(m, sp + 8) == k.ebx
      && Ld(m, sp + 12) == k.ebp
    && Ld(m, sp + 16) == k.ret
  }

  lemma PopTwo(e: Env, c0: Cpu, c: Cpu, r: Reg, q: Reg, xs: seq<X>, end: nat, a: word, v: word, w: word)
    returns (c': Cpu)
    requires On(e, c0, c, [Pop(r)] + ([Pop(q)] + xs), end) && c.r[ESP] == a && a + 8 < TWO32 && r != ESP && q != ESP
          && r != q
    requires Ld(c.mem, a) == v && Ld(c.mem, a + 4) == w
    ensures On(e, c0, c', xs, end) && c'.mem == c.mem
    ensures c'.r == c.r[r := v][ESP := a + 8][q := w]
  {
    var c1 := PopAny(e, c0, c, r, [Pop(q)] + xs, end, a, v);
    c' := PopAny(e, c0, c1, q, xs, end, a + 4, w);
    assert c.r[ESP := a + 4][r := v][ESP := a + 8][q := w] == c.r[r := v][ESP := a + 8][q := w];
  }

  lemma LeaveParts(xs: seq<X>)
    ensures Leave() + xs == [Pop(ESP)] + ([Pop(EDI)] + ([Pop(ESI)] + ([Pop(EBX)] + ([Pop(EBP)] + xs))))
  {
  }

  /** Leave: ESP points at the saved stack pointer sp. */
  lemma RunLeaving(e: Env, c0: Cpu, c: Cpu, xs: seq<X>, end: nat, a: word, sp: word, k: Kept) returns (c': Cpu)
    requires On(e, c0, c, Leave() + xs, end) && c.r[ESP] == a && a + 4 < TWO32 && Ld(c.mem, a) == sp
          && KeptAt(c.mem, sp, k)
    ensures On(e, c0, c', xs, end) && c'.mem == c.mem && c'.r[ESP] == sp + 16
    ensures c'.r[EDI] == k.edi && c'.r[ESI] == k.esi && c'.r[EBX] == k.ebx && c'.r[EBP] == k.ebp
  {
    LeaveParts(xs);
    var ys := [Pop(EBX)] + ([Pop(EBP)] + xs);
    var c1 := PopAny(e, c0, c, ESP, [Pop(EDI)] + ([Pop(ESI)] + ys), end, a, sp);
    var c2 := PopTwo(e, c0, c1, EDI, ESI, ys, end, sp, k.edi, k.esi);
    c' := PopTwo(e, c0, c2, EBX, EBP, xs, end, sp + 8, k.ebx, k.ebp);
  }

  /** Back in C behind the call: the registers it relies on are as before and EAX says how it went. */
  ghost predicate BackInC(c: Cpu, m: Mem, sp: word, k: Kept, eax: word) {
    && sp + 20 < TWO32 && c.eip == k.ret && c.r[ESP] == sp + 20 && c.r[EAX] == eax && c.mem == m
    && c.r[EDI] == k.edi && c.r[ESI] == k.esi && c.r[EBX] == k.ebx && c.r[EBP] == k.ebp
  }

  lemma RunBack(e: Env, c0: Cpu, c: Cpu, end: nat, sp: word, k: Kept) returns (c': Cpu)
    requires On(e, c0, c, [RetFn], end) && KeptAt(c.mem, sp, k) && c.r[ESP] == sp + 16
    requires c.r[EDI] == k.edi && c.r[ESI] == k.esi && c.r[EBX] == k.ebx && c.r[EBP] == k.ebp
    ensures Ran(e, c0, c') && BackInC(c', c.mem, sp, k, c.r[EAX])
  {
    c' := c.(eip := k.ret, r := c.r[ESP := sp + 20]);
    Go(e, c0, c, [RetFn], end, c');
  }

  lemma RunClearEax(e: Env, c0: Cpu, c: Cpu, xs: seq<X>, end: nat) returns (c': Cpu)
    requires On(e, c0, c, [Alu(XOR, EAX, EAX)] + xs, end)
    ensures On(e, c0, c', xs, end) && c'.mem == c.mem && c'.r == c.r[EAX := 0]
  {
    XorSelf(c.r[EAX]);
    c' := c.(eip := c.eip + 2, r := c.r[EAX := 0], f := LogicFlags(0));
    Forward(e, c0, c, Alu(XOR, EAX, EAX), xs, end, c');
  }

  lemma GoodretParts()
    ensures Goodret() == [Pop(ESP)] + (Leave() + ([Alu(XOR, EAX, EAX)] + [RetFn]))
  {
  }

  /** The good exit: ESP points at the first frame's saved EBP, which is the address of the saved stack pointer. */
  lemma RunGoodret(e: Env, c0: Cpu, c: Cpu, xs: seq<X>, end: nat, a: word, b: word, sp: word, k: Kept) returns (c': Cpu)
    requires xs == [Pop(ESP)] + (Leave() + ([Alu(XOR, EAX, EAX)] + [RetFn])) && On(e, c0, c, xs, end)
    requires c.r[ESP] == a && a + 4 < TWO32 && Ld(c.mem, a) == b && b + 4 < TWO32 && Ld(c.mem, b) == sp
          && KeptAt(c.mem, sp, k)
    ensures Ran(e, c0, c') && BackInC(c', c.mem, sp, k, 0)
  {
    var ys := [Alu(XOR, EAX, EAX)] + [RetFn];
    var c1 := PopAny(e, c0, c, ESP, Leave() + ys, end, a, b);
    var c2 := RunLeaving(e, c0, c1, ys, end, b, sp, k);
    var c3 := RunClearEax(e, c0, c2, [RetFn], end);
    c' := RunBack(e, c0, c3, end, sp, k);
  }

  // ---------- leaving the program ----------

  /** The 20 bytes at sp are outside the stack area and the heap. */
  ghost predicate Apart(e: Env, n: nat, sp: word) {
    sp + 20 < TWO32 && (sp + 20 <= e.lo || e.top <= sp) && (sp + 20 <= e.h || e.h + n <= sp)
  }

  lemma LdOutside(e: Env, m: Mem, n: nat, a: word)
    requires Outside(e, m, n) && a + 4 <= TWO32 && (a + 4 <= e.lo || e.top <= a) && (a + 4 <= e.h || e.h + n <= a)
    ensures Ld(m, a) == Ld(e.mem0, a)
  {
  }

  lemma KeptStays(e: Env, m: Mem, n: nat, sp: word, k: Kept)
    requires Outside(e, m, n) && Apart(e, n, sp) && KeptAt(e.mem0, sp, k)
    ensures KeptAt(m, sp, k)
  {
    LdOutside(e, m, n, sp);
    LdOutside(e, m, n, sp + 4);
    LdOutside(e, m, n, sp + 8);
    LdOutside(e, m, n, sp + 12);
    LdOutside(e, m, n, sp + 16);
  }

  /** How a call from C ends: with EAX and the heap, everything else that C relies on as it was. */
  ghost predicate Returned(e: Env, c0: Cpu, c: Cpu, sp: word, k: Kept, eax: word, heap: seq<byte>) {
    && Ran(e, c0, c) && BackInC(c, c.mem, sp, k, eax)
    && EnvOk(e, |heap|) && c.mem[e.h..e.h + |heap|] == heap && Outside(e, c.mem, |heap|)
  }

  /** The two words that lead back: the saved ESP and the first function's saved EBP. */
  lemma ExitWords(e: Env, c: Cpu, sp: word, vars: seq<word>, heap: seq<byte>)
    requires View(e, c, [sp] + vars + [Link(e, 1)], heap)
    ensures Ld(c.mem, Addr(e, 1)) == sp && Ld(c.mem, Addr(e, |vars| + 2)) == Link(e, 1)
  {
    var s := [sp] + vars + [Link(e, 1)];
    assert s[0] == sp && s[|vars| + 1] == Link(e, 1);
    assert Ld(c.mem, Addr(e, 0 + 1)) == s[0] && Ld(c.mem, Addr(e, |vars| + 1 + 1)) == s[|vars| + 1];
  }

  /** The first function's `ret`. */
  lemma ExitGood(p: Prog, e: Env, sp: word, k: Kept, c: Conf, cpu: Cpu, heap: seq<byte>) returns (cpu': Cpu)
    requires Related(p, e, sp, c, cpu) && c.top.pc < |p.code| && Step(p.code, p.fns, c) == Done(heap)
    requires HoldsTo(p.list, GOODRET, [Pop(ESP)] + (Leave() + ([Alu(XOR, EAX, EAX)] + [RetFn])), TRAPRET)
    requires Apart(e, |heap|, sp) && KeptAt(e.mem0, sp, k)
    ensures Returned(e, cpu, cpu', sp, k, 0, heap)
  {
    DoneIsRet(p.code, p.fns, c, heap);
    var vars := Ws(c.top.vars);
    var c1 := RunsToReturn(p, e, c, cpu, [sp], 1);
    ExitWords(e, c1, sp, vars, heap);
    KeptStays(e, c1.mem, |heap|, sp, k);
    cpu' := RunGoodret(e, cpu, c1, [Pop(ESP)] + (Leave() + ([Alu(XOR, EAX, EAX)] + [RetFn])), TRAPRET,
                       Addr(e, |vars| + 2), Addr(e, 1), sp, k);
  }

  lemma DoneIsRet(code: seq<Instr>, fns: seq<Fn>, c: Conf, heap: seq<byte>)
    requires c.top.pc < |code| && Step(code, fns, c) == Done(heap)
    ensures code[c.top.pc] == Plain(RET) && c.callers == [] && heap == c.heap && c.top.fn < |fns|
         && (fns[c.top.fn].rt ==> |c.top.stack| >= 1)
  {
  }

  // ---------- trapping ----------

  /** pop esp, where the word on top is the address of the n-th word. */
  lemma DoPopEsp(e: Env, c0: Cpu, c: Cpu, xs: seq<X>, end: nat, s: seq<word>, heap: seq<byte>, n: nat) returns (c': Cpu)
    requires At(e, c0, c, [Pop(ESP)] + xs, end, s, heap) && 0 < |s| && n <= |s| && s[|s| - 1] == Addr(e, n)
    ensures At(e, c0, c', xs, end, s[..n], heap) && c'.eip == c.eip + 1
    ensures c'.r == c.r[ESP := Addr(e, n)]
  {
    var m := |s| - 1;
    assert Ld(c.mem, Addr(e, m + 1)) == s[m];
    c' := c.(eip := c.eip + 1, r := c.r[ESP := Addr(e, n)]);
    ExecPop(c, c.eip + 1, ESP, Addr(e, m + 1));
    assert c.r[ESP := Addr(e, m)][ESP := Addr(e, n)] == c.r[ESP := Addr(e, n)];
    Forward(e, c0, c, Pop(ESP), xs, end, c');
    PopKeeps(e, c.mem, s, n);
  }

  /** One turn of the unwinding loop: from a frame to its caller's, comparing the return address. */
  lemma UnwindOnce(e: Env, c0: Cpu, c: Cpu, xs: seq<X>, end: nat, t: seq<word>, ret: word, n: nat, heap: seq<byte>)
    returns (c': Cpu)
    requires At(e, c0, c, Unwind() + xs, end, t + [Link(e, n), ret], heap) && n <= |t| && c.r[EBX] == GOODRET
          && c.eip == 73
    ensures c'.r[EBX] == GOODRET
    ensures if ret == GOODRET then At(e, c0, c', xs, end, t[..n], heap) else Landed(e, c0, c', 73, t[..n], heap)
  {
    var j := Jcc(CC_NE, Wrap(-10));
    assert Unwind() + xs == [Pop(EAX)] + ([Pop(ESP)] + ([Cmp(EAX, EBX)] + ([j] + xs)));
    assert t + [Link(e, n), ret] == t + [Link(e, n)] + [ret];
    var c1 := RunPop(e, c0, c, [Pop(ESP)] + ([Cmp(EAX, EBX)] + ([j] + xs)), end, t + [Link(e, n)], ret, heap);
    assert (t + [Link(e, n)])[..n] == t[..n];
    c' := UnwindOn(e, c0, c1, xs, end, t + [Link(e, n)], ret, n, heap);
  }

  lemma UnwindOn(e: Env, c0: Cpu, c1: Cpu, xs: seq<X>, end: nat, s: seq<word>, ret: word, n: nat, heap: seq<byte>)
    returns (c': Cpu)
    requires At(e, c0, c1, [Pop(ESP)] + ([Cmp(EAX, EBX)] + ([Jcc(CC_NE, Wrap(-10))] + xs)), end, s, heap)
    requires 0 < |s| && n <= |s| && s[|s| - 1] == Addr(e, n) && c1.r[EAX] == ret && c1.r[EBX] == GOODRET && c1.eip == 74
    ensures c'.r[EBX] == GOODRET
    ensures if ret == GOODRET then At(e, c0, c', xs, end, s[..n], heap) else Landed(e, c0, c', 73, s[..n], heap)
  {
    var j := Jcc(CC_NE, Wrap(-10));
    var c2 := DoPopEsp(e, c0, c1, [Cmp(EAX, EBX)] + ([j] + xs), end, s, heap, n);
    var c3 := RunReg(e, c0, c2, Cmp(EAX, EBX), [j] + xs, end, s[..n], heap, c2.(f := CmpFlags(ret, GOODRET)));
    assert ([j] + xs)[1..] == xs && MachineView.Rel(c3.eip + 6, 73) == Wrap(-10);
    c' := DoJcc(e, c0, c3, [j] + xs, end, s[..n], heap, CC_NE, 73);
  }

  /** The return addresses of these frames lie in the program. */
  ghost predicate ReturnsInside(p: Prog, fs: seq<Frame>) {
    forall k | 0 <= k < |fs| :: ReturnInside(p, fs[k])
  }

  ghost predicate ReturnInside(p: Prog, f: Frame) {
    0 < f.pc <= |p.offs| && START <= p.offs[f.pc - 1] && p.offs[f.pc - 1] + 20 < TWO32
  }

  lemma CallerReturns(p: Prog, f: Frame, v: nat)
    requires ProgOk(p) && CallerOk(p, f, v)
    ensures ReturnInside(p, f)
  {
    var k := f.pc - 1;
    assert Coded(p, k);
    OffsetsFromStart(p.code, p.fns, p.gss, p.offs, k);
    ReturnPoint(p, f, v, [f]);
    assert GStepsTo(p.code, p.fns, p.gss, p.offs, k);
  }

  /** From the first function's frame the loop leaves with the saved stack pointer on top. */
  lemma UnwindLast(p: Prog, e: Env, saved: word, c0: Cpu, c: Cpu, xs: seq<X>, end: nat, vars: seq<Val>,
                   heap: seq<byte>, deep: seq<word>, link: nat)
    returns (c': Cpu)
    requires HoldsTo(e.list, 73, Unwind() + xs, end) && c.r[EBX] == GOODRET && (deep, link) == Lay(p, e, saved, [])
    requires Landed(e, c0, c, 73, Head(p, e, [], deep, link, vars), heap)
    ensures At(e, c0, c', xs, end, [saved], heap)
  {
    var t := deep + Ws(vars);
    c' := UnwindOnce(e, c0, c, xs, end, t, RetAddr(p, []), link, heap);
    assert t[..1] == [saved];
  }

  /** From any other frame it climbs to the caller's. */
  lemma UnwindCaller(p: Prog, e: Env, saved: word, c0: Cpu, c: Cpu, xs: seq<X>, end: nat, fs: seq<Frame>, m: nat,
                     vars: seq<Val>, heap: seq<byte>,
                     deep: seq<word>, link: nat, head: seq<word>)
    returns (c': Cpu)
    requires HoldsTo(e.list, 73, Unwind() + xs, end) && c.r[EBX] == GOODRET && m + 1 == |fs| && ReturnInside(p, fs[m])
    requires (deep, link) == Lay(p, e, saved, fs) && Landed(e, c0, c, 73, Head(p, e, fs, deep, link, vars), heap)
    requires link <= |deep| && deep[..link] == head
    ensures c'.r[EBX] == GOODRET && Landed(e, c0, c', 73, head, heap)
  {
    var t := deep + Ws(vars);
    c' := UnwindOnce(e, c0, c, xs, end, t, RetAddr(p, fs), link, heap);
    assert t[..link] == deep[..link];
  }

  /** The unwinding loop climbs all frames and stops at the first function's. */
  lemma {:induction false} UnwindAll(p: Prog, e: Env, saved: word, c0: Cpu, c: Cpu, xs: seq<X>, end: nat,
                      fs: seq<Frame>, vars: seq<Val>, heap: seq<byte>)
    returns (c': Cpu)
    requires HoldsTo(e.list, 73, Unwind() + xs, end) && ReturnsInside(p, fs) && c.r[EBX] == GOODRET
    requires var (deep, link) := Lay(p, e, saved, fs); Landed(e, c0, c, 73, Head(p, e, fs, deep, link, vars), heap)
    ensures At(e, c0, c', xs, end, [saved], heap)
    decreases |fs|
  {
    var (deep, link) := Lay(p, e, saved, fs);
    if fs == [] {
      c' := UnwindLast(p, e, saved, c0, c, xs, end, vars, heap, deep, link);
    } else {
      var m := |fs| - 1;
      assert ReturnInside(p, fs[m]);
      var (deep', link') := Lay(p, e, saved, fs[..m]);
      LayLast(p, e, saved, fs);
      var head := Head(p, e, fs[..m], deep', link', fs[m].vars);
      var c1 := UnwindCaller(p, e, saved, c0, c, xs, end, fs, m, vars, heap, deep, link, head);
      c' := UnwindAll(p, e, saved, c0, c1, xs, end, fs[..m], fs[m].vars, heap);
    }
  }

  /** The trap code, as it stands at TRAPRET. */
  function TrapCode(): seq<X> {
    [MovRR(ESP, EBP)] + ([MovRI(EBX, GOODRET)] + (Unwind() + TrapEnd()))
  }

  function TrapEnd(): seq<X> {
    Leave() + ([MovRI(EAX, TWO32 - 1)] + [RetFn])
  }

  lemma RunMinusOne(e: Env, c0: Cpu, c: Cpu, xs: seq<X>, end: nat) returns (c': Cpu)
    requires On(e, c0, c, [MovRI(EAX, TWO32 - 1)] + xs, end)
    ensures On(e, c0, c', xs, end) && c'.mem == c.mem && c'.r == c.r[EAX := TWO32 - 1]
  {
    c' := c.(eip := c.eip + 5, r := c.r[EAX := TWO32 - 1]);
    Forward(e, c0, c, MovRI(EAX, TWO32 - 1), xs, end, c');
  }

  lemma RunTrapEnd(e: Env, c0: Cpu, c: Cpu, end: nat, sp: word, k: Kept, heap: seq<byte>) returns (c': Cpu)
    requires At(e, c0, c, TrapEnd(), end, [sp], heap) && Apart(e, |heap|, sp) && KeptAt(e.mem0, sp, k)
    ensures Returned(e, c0, c', sp, k, TWO32 - 1, heap)
  {
    var ys := [MovRI(EAX, TWO32 - 1)] + [RetFn];
    assert Ld(c.mem, Addr(e, 0 + 1)) == [sp][0];
    KeptStays(e, c.mem, |heap|, sp, k);
    var c1 := RunLeaving(e, c0, c, ys, end, Addr(e, 1), sp, k);
    var c2 := RunMinusOne(e, c0, c1, [RetFn], end);
    c' := RunBack(e, c0, c2, end, sp, k);
  }

  /** mov esp, ebp; mov ebx, goodret */
  lemma RunTrapStart(e: Env, c0: Cpu, c: Cpu, xs: seq<X>, end: nat, t: seq<word>, head: seq<word>, heap: seq<byte>)
    returns (c': Cpu)
    requires At(e, c0, c, [MovRR(ESP, EBP)] + ([MovRI(EBX, GOODRET)] + xs), end, t, heap) && c.eip == TRAPRET
    requires head <= t && c.r[EBP] == Addr(e, |head|)
    ensures Landed(e, c0, c', 73, head, heap) && HoldsTo(e.list, 73, xs, end) && c'.r[EBX] == GOODRET
  {
    var ys := [MovRI(EBX, GOODRET)] + xs;
    assert ([MovRR(ESP, EBP)] + ys)[1..] == ys && t[..|head|] == head;
    SkipOne(e.list, c.eip, MovRR(ESP, EBP), ys, end);
    SkipOne(e.list, c.eip + 2, MovRI(EBX, GOODRET), xs, end);
    var c1 := DoUnwind(e, c0, c, [MovRR(ESP, EBP)] + ys, end, t, heap, |head|);
    c' := RunReg(e, c0, c1, MovRI(EBX, GOODRET), xs, end, head, heap, c1.(r := c1.r[EBX := GOODRET]));
  }

  /** From the trap code back to C. */
  lemma ExitTrap(p: Prog, e: Env, sp: word, k: Kept, c: Conf, cpu: Cpu, c1: Cpu, t: seq<word>) returns (cpu': Cpu)
    requires Related(p, e, sp, c, cpu)
          && var (deep, link) := Lay(p, e, sp, c.callers); AtTrap(p, e, c, cpu, c1, deep, link, t)
    requires HoldsTo(p.list, TRAPRET, TrapCode(), START) && Apart(e, |c.heap|, sp) && KeptAt(e.mem0, sp, k)
    ensures Returned(e, cpu, cpu', sp, k, TWO32 - 1, c.heap)
  {
    var (deep, link) := Lay(p, e, sp, c.callers);
    var head := Head(p, e, c.callers, deep, link, c.top.vars);
    forall j | 0 <= j < |c.callers| ensures ReturnInside(p, c.callers[j]) {
      assert CallerOk(p, c.callers[j], NextFn(c, j));
      CallerReturns(p, c.callers[j], NextFn(c, j));
    }
    var c2 := RunTrapStart(e, cpu, c1, Unwind() + TrapEnd(), START, t, head, c.heap);
    var c3 := UnwindAll(p, e, sp, cpu, c2, TrapEnd(), START, c.callers, c.top.vars, c.heap);
    cpu' := RunTrapEnd(e, cpu, c3, START, sp, k, c.heap);
  }
}
