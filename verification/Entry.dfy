/** Entering the program from C, and what a whole call amounts to. */
module Entry {
  import opened Words
  import opened Sume
  import opened Integers
  import opened StackMachine
  import opened X86
  import opened Reach
  import opened Cpu
  import opened MachineView
  import opened Codegen
  import opened Generator
  import opened Nesting
  import opened Emitted
  import opened Simulation
  import opened Steps
  import opened Exits

  // ---------- saving the caller's registers ----------

  lemma ExecPushRaw(c: Cpu, p: word, r: Reg, a: word)
    requires c.r[ESP] == a + 4
    ensures ExecDecoded(Some((Push(r), p)), c) == Some(c.(eip := p, r := c.r[ESP := a], mem := St(c.mem, a, c.r[r])))
  {
  }

  lemma PushAny(e: Env, c0: Cpu, c: Cpu, r: Reg, xs: seq<X>, end: nat, a: word) returns (c': Cpu)
    requires On(e, c0, c, [Push(r)] + xs, end) && c.r[ESP] == a + 4
    ensures On(e, c0, c', xs, end) && c'.mem == St(c.mem, a, c.r[r]) && c'.r == c.r[ESP := a]
  {
    c' := c.(eip := c.eip + 1, r := c.r[ESP := a], mem := St(c.mem, a, c.r[r]));
    ExecPushRaw(c, c.eip + 1, r, a);
    Forward(e, c0, c, Push(r), xs, end, c');
  }

  /** Memory once EBP, EBX, ESI and EDI have been pushed onto a stack at q. */
  function Entered(m: Mem, q: word, r: Regs): Mem
    requires 16 <= q && q + 4 <= TWO32
  {
    St(St(St(St(m, q - 4, r[EBP]), q - 8, r[EBX]), q - 12, r[ESI]), q - 16, r[EDI])
  }

  lemma EnterParts(xs: seq<X>)
    ensures Enter() + xs == [Push(EBP)] + ([MovRR(EBP, ESP)] + ([Push(EBX)] + ([Push(ESI)] + ([Push(EDI)] + xs))))
  {
  }

  lemma RunMov(e: Env, c0: Cpu, c: Cpu, d: Reg, r: Reg, xs: seq<X>, end: nat) returns (c': Cpu)
    requires On(e, c0, c, [MovRR(d, r)] + xs, end)
    ensures On(e, c0, c', xs, end) && c'.mem == c.mem && c'.r == c.r[d := c.r[r]] && c'.eip == c.eip + 2
  {
    c' := c.(eip := c.eip + 2, r := c.r[d := c.r[r]]);
    Forward(e, c0, c, MovRR(d, r), xs, end, c');
  }

  lemma PushThree(e: Env, c0: Cpu, c: Cpu, xs: seq<X>, end: nat, q: word) returns (c': Cpu)
    requires On(e, c0, c, [Push(EBX)] + ([Push(ESI)] + ([Push(EDI)] + xs)), end) && c.r[ESP] == q && 12 <= q
    ensures On(e, c0, c', xs, end) && c'.r == c.r[ESP := q - 12]
    ensures c'.mem == St(St(St(c.mem, q - 4, c.r[EBX]), q - 8, c.r[ESI]), q - 12, c.r[EDI])
  {
    var c3 := PushAny(e, c0, c, EBX, [Push(ESI)] + ([Push(EDI)] + xs), end, q - 4);
    var c4 := PushAny(e, c0, c3, ESI, [Push(EDI)] + xs, end, q - 8);
    c' := PushAny(e, c0, c4, EDI, xs, end, q - 12);
    assert c.r[ESP := q - 4][ESP := q - 8][ESP := q - 12] == c.r[ESP := q - 12];
  }

  lemma RunEnter(e: Env, c0: Cpu, c: Cpu, xs: seq<X>, end: nat, q: word) returns (c': Cpu)
    requires On(e, c0, c, Enter() + xs, end) && c.r[ESP] == q && 16 <= q && q + 4 <= TWO32
    ensures On(e, c0, c', xs, end) && c'.mem == Entered(c.mem, q, c.r)
    ensures c'.r[ESP] == q - 16 && c'.r[EBP] == q - 4
  {
    EnterParts(xs);
    var ys := [Push(EBX)] + ([Push(ESI)] + ([Push(EDI)] + xs));
    var c1 := PushAny(e, c0, c, EBP, [MovRR(EBP, ESP)] + ys, end, q - 4);
    var c2 := RunMov(e, c0, c1, EBP, ESP, ys, end);
    c' := PushThree(e, c0, c2, xs, end, q - 4);
  }

  lemma EnteredLd(m: Mem, q: word, r: Regs, b: word)
    requires 16 <= q && q + 4 <= TWO32 && b + 4 <= TWO32 && (b + 4 <= q - 16 || q <= b)
    ensures Ld(Entered(m, q, r), b) == Ld(m, b)
  {
    var m1 := St(m, q - 4, r[EBP]);
    var m2 := St(m1, q - 8, r[EBX]);
    var m3 := St(m2, q - 12, r[ESI]);
    LdOther(m, q - 4, r[EBP], b);
    LdOther(m1, q - 8, r[EBX], b);
    LdOther(m2, q - 12, r[ESI], b);
    LdOther(m3, q - 16, r[EDI], b);
  }

  lemma EnteredSlice(m: Mem, q: word, r: Regs, lo: nat, hi: nat)
    requires 16 <= q && q + 4 <= TWO32 && lo <= hi <= TWO32 && (hi <= q - 16 || q <= lo)
    ensures Entered(m, q, r)[lo..hi] == m[lo..hi]
  {
    var m1 := St(m, q - 4, r[EBP]);
    var m2 := St(m1, q - 8, r[EBX]);
    var m3 := St(m2, q - 12, r[ESI]);
    StElsewhere(m, q - 4, r[EBP], lo, hi);
    StElsewhere(m1, q - 8, r[EBX], lo, hi);
    StElsewhere(m2, q - 12, r[ESI], lo, hi);
    StElsewhere(m3, q - 16, r[EDI], lo, hi);
  }

  /** The pushed registers and the return address are what the exits will find. */
  lemma EnteredKept(m: Mem, q: word, r: Regs)
    requires 16 <= q && q + 4 < TWO32
    ensures KeptAt(Entered(m, q, r), q - 16, Kept(r[EDI], r[ESI], r[EBX], r[EBP], Ld(m, q)))
  {
    var m1 := St(m, q - 4, r[EBP]);
    var m2 := St(m1, q - 8, r[EBX]);
    var m3 := St(m2, q - 12, r[ESI]);
    LdSame(m, q - 4, r[EBP]);
    LdSame(m1, q - 8, r[EBX]);
    LdSame(m2, q - 12, r[ESI]);
    LdSame(m3, q - 16, r[EDI]);
    LdOther(m1, q - 8, r[EBX], q - 4);
    LdOther(m2, q - 12, r[ESI], q - 4);
    LdOther(m3, q - 16, r[EDI], q - 4);
    LdOther(m2, q - 12, r[ESI], q - 8);
    LdOther(m3, q - 16, r[EDI], q - 8);
    LdOther(m3, q - 16, r[EDI], q - 12);
    EnteredLd(m, q, r, q);
  }

  // ---------- switching to the stack area ----------

  lemma LoadArg(e: Env, c0: Cpu, c: Cpu, r: Reg, imm: word, xs: seq<X>, end: nat, a: word, w: word) returns (c': Cpu)
    requires On(e, c0, c, [MovRB(r, imm)] + xs, end) && c.r[EBP] + imm == a && a + 4 <= TWO32 && Ld(c.mem, a) == w
    ensures On(e, c0, c', xs, end) && c'.mem == c.mem && c'.r == c.r[r := w]
  {
    c' := c.(eip := c.eip + 6, r := c.r[r := w]);
    ExecLoadVar(c, c.eip + 6, r, imm, a);
    Forward(e, c0, c, MovRB(r, imm), xs, end, c');
  }

  lemma ArgumentParts(xs: seq<X>)
    ensures Arguments() + xs
         == [MovRB(EDI, 8)] + ([MovRB(ESI, 12)] + ([MovRB(EAX, 16)] + ([AluI(5, EAX, 4)] + ([MovRR(EBP, EAX)] + xs))))
  {
  }

  lemma SubFour(e: Env, c0: Cpu, c: Cpu, r: Reg, xs: seq<X>, end: nat, a: word) returns (c': Cpu)
    requires On(e, c0, c, [AluI(5, r, 4)] + xs, end) && c.r[r] == a + 4
    ensures On(e, c0, c', xs, end) && c'.mem == c.mem && c'.r == c.r[r := a]
  {
    c' := c.(eip := c.eip + Len(AluI(5, r, 4)), r := c.r[r := a], f := CmpFlags(a + 4, 4));
    Forward(e, c0, c, AluI(5, r, 4), xs, end, c');
  }

  lemma LoadTwo(e: Env, c0: Cpu, c: Cpu, xs: seq<X>, end: nat, q: word, h: word, n: word) returns (c': Cpu)
    requires On(e, c0, c, [MovRB(EDI, 8)] + ([MovRB(ESI, 12)] + xs), end) && 16 <= q && q + 16 <= TWO32
          && c.r[EBP] == q - 4
    requires Ld(c.mem, q + 4) == h && Ld(c.mem, q + 8) == n
    ensures On(e, c0, c', xs, end) && c'.mem == c.mem && c'.r == c.r[EDI := h][ESI := n]
  {
    var c1 := LoadArg(e, c0, c, EDI, 8, [MovRB(ESI, 12)] + xs, end, q + 4, h);
    c' := LoadArg(e, c0, c1, ESI, 12, xs, end, q + 8, n);
  }

  lemma RunArguments(e: Env, c0: Cpu, c: Cpu, xs: seq<X>, end: nat, q: word, h: word, n: word, top: word)
    returns (c': Cpu)
    requires On(e, c0, c, Arguments() + xs, end) && 16 <= q && q + 16 <= TWO32 && c.r[EBP] == q - 4 && 4 <= top
    requires Ld(c.mem, q + 4) == h && Ld(c.mem, q + 8) == n && Ld(c.mem, q + 12) == top
    ensures On(e, c0, c', xs, end) && c'.mem == c.mem
    ensures c'.r[EDI] == h && c'.r[ESI] == n && c'.r[EAX] == top - 4 && c'.r[ESP] == c.r[ESP]
  {
    ArgumentParts(xs);
    var y4 := [MovRR(EBP, EAX)] + xs;
    var y3 := [AluI(5, EAX, 4)] + y4;
    var c2 := LoadTwo(e, c0, c, [MovRB(EAX, 16)] + y3, end, q, h, n);
    var c3 := LoadArg(e, c0, c2, EAX, 16, y3, end, q + 12, top);
    var c4 := SubFour(e, c0, c3, EAX, y4, end, top - 4);
    c' := RunMov(e, c0, c4, EBP, EAX, xs, end);
  }

  lemma RunSaveEsp(e: Env, c0: Cpu, c: Cpu, xs: seq<X>, end: nat, a: word) returns (c': Cpu)
    requires On(e, c0, c, [MovMR(EAX, ESP)] + xs, end) && c.r[EAX] == a && a + 4 <= TWO32
    ensures On(e, c0, c', xs, end) && c'.mem == St(c.mem, a, c.r[ESP]) && c'.r == c.r
  {
    c' := c.(eip := c.eip + 2, mem := St(c.mem, a, c.r[ESP]));
    Forward(e, c0, c, MovMR(EAX, ESP), xs, end, c');
  }

  lemma SwitchParts(xs: seq<X>)
    ensures SwitchStack() + xs == [MovMR(EAX, ESP)] + ([MovRR(ESP, EAX)] + ([MovRR(EBP, ESP)] + xs))
  {
  }

  /** From here on the stack area holds one word, the old ESP, and EBP points at it. */
  lemma RunSwitch(e: Env, c0: Cpu, c: Cpu, xs: seq<X>, end: nat, heap: seq<byte>) returns (c': Cpu)
    requires On(e, c0, c, SwitchStack() + xs, end) && EnvOk(e, |heap|) && 4 <= e.top - e.lo && c.r[EAX] == e.top - 4
    requires c.r[EDI] == e.h && c.r[ESI] == |heap| && c.mem[e.h..e.h + |heap|] == heap && c.mem == e.mem0
    ensures At(e, c0, c', xs, end, [c.r[ESP]], heap) && c'.r[EBP] == Addr(e, 1)
         && c'.mem == St(c.mem, e.top - 4, c.r[ESP])
  {
    SwitchParts(xs);
    var c1 := RunSaveEsp(e, c0, c, [MovRR(ESP, EAX)] + ([MovRR(EBP, ESP)] + xs), end, e.top - 4);
    var c2 := RunMov(e, c0, c1, ESP, EAX, [MovRR(EBP, ESP)] + xs, end);
    c' := RunMov(e, c0, c2, EBP, ESP, xs, end);
    StackStoreFrame(e, c.mem, e.top - 4, c.r[ESP], heap);
    LdSame(c.mem, e.top - 4, c.r[ESP]);
  }

  // ---------- calling the first function ----------

  /** The n words of memory that a stack of k words would grow into. */
  function Garbage(e: Env, m: Mem, k: nat, n: nat): seq<word>
    requires 4 * (k + n) <= e.top
  {
    seq<word>(n, i requires 0 <= i < n => Ld(m, Addr(e, k + i + 1)))
  }

  lemma GarbageStack(e: Env, m: Mem, s: seq<word>, n: nat)
    requires StackIs(e, m, s) && 4 * (|s| + n) <= e.top
    ensures StackIs(e, m, s + Garbage(e, m, |s|, n))
  {
    var t := s + Garbage(e, m, |s|, n);
    forall j | 0 <= j < |t| ensures Ld(m, Addr(e, j + 1)) == t[j] {
      if j >= |s| { assert t[j] == Garbage(e, m, |s|, n)[j - |s|]; }
    }
  }

  /** sub esp, 4 * n: room for n words, whatever they hold. */
  lemma RunReserve(e: Env, c0: Cpu, c: Cpu, n: nat, xs: seq<X>, end: nat, s: seq<word>, heap: seq<byte>)
    returns (c': Cpu)
    requires At(e, c0, c, [AluI(5, ESP, Wrap(4 * n))] + xs, end, s, heap) && 4 * (|s| + n) <= e.top - e.lo
    ensures At(e, c0, c', xs, end, s + Garbage(e, c.mem, |s|, n), heap) && c'.r[EBP] == c.r[EBP] && c'.eip == c.eip + 6
  {
    var x := AluI(5, ESP, Wrap(4 * n));
    assert Wrap(4 * n) == 4 * n;
    c' := c.(eip := c.eip + 6, r := c.r[ESP := Addr(e, |s| + n)], f := CmpFlags(c.r[ESP], 4 * n));
    Forward(e, c0, c, x, xs, end, c');
    GarbageStack(e, c.mem, s, n);
  }

  lemma CallFirstParts(locals: nat, start: int)
    ensures CallFirst(locals, start) ==
            [AluI(5, ESP, Wrap(4 * locals))] + ([Push(EBP)] + ([MovRR(EBP, ESP)]
              + ([AluI(5, EBP, 4)] + [CallRel(MachineView.Rel(57, start))])))
  {
  }

  lemma RunFrameCall(e: Env, c0: Cpu, c: Cpu, s: seq<word>, heap: seq<byte>) returns (c': Cpu)
    requires At(e, c0, c,
          [Push(EBP)] + ([MovRR(EBP, ESP)] + ([AluI(5, EBP, 4)] + [CallRel(MachineView.Rel(57, START))])),
          GOODRET, s, heap)
    requires c.eip == 43 && 4 * (|s| + 2) <= e.top - e.lo
    ensures Landed(e, c0, c', START, s + [c.r[EBP], GOODRET], heap) && c'.r[EBP] == Addr(e, |s| + 2)
  {
    var call := [CallRel(MachineView.Rel(57, START))];
    var ys := [MovRR(EBP, ESP)] + ([AluI(5, EBP, 4)] + call);
    assert ([Push(EBP)] + ys)[1..] == ys;
    var c2 := DoPush(e, c0, c, [Push(EBP)] + ys, GOODRET, s, heap, EBP);
    var c3 := RunNewFrame(e, c0, c2, call, GOODRET, s + [c.r[EBP]], heap);
    c' := DoCall(e, c0, c3, call, GOODRET, s + [c.r[EBP]], heap, GOODRET, START);
    assert s + [c.r[EBP]] + [GOODRET] == s + [c.r[EBP], GOODRET];
  }

  lemma RunCallFirst(e: Env, c0: Cpu, c: Cpu, locals: nat, sp: word, heap: seq<byte>) returns (c': Cpu)
    requires At(e, c0, c, CallFirst(locals, START), GOODRET, [sp], heap) && c.eip == 37 && c.r[EBP] == Addr(e, 1)
    requires 4 * (locals + 3) <= e.top - e.lo
    ensures Landed(e, c0, c', START, [sp] + Garbage(e, c.mem, 1, locals) + [Addr(e, 1), GOODRET], heap)
         && c'.r[EBP] == Addr(e, locals + 3)
  {
    CallFirstParts(locals, START);
    var ys := [Push(EBP)] + ([MovRR(EBP, ESP)] + ([AluI(5, EBP, 4)] + [CallRel(MachineView.Rel(57, START))]));
    var c1 := RunReserve(e, c0, c, locals, ys, GOODRET, [sp], heap);
    c' := RunFrameCall(e, c0, c1, [sp] + Garbage(e, c.mem, 1, locals), heap);
  }

  lemma {:induction false} HoldsSize(list: Listing, p: nat, xs: seq<X>, end: nat)
    requires HoldsTo(list, p, xs, end)
    ensures p + Size(xs) == end
    decreases |xs|
  {
    if xs != [] { HoldsSize(list, p + Len(xs[0]), xs[1..], end); }
  }

  /** The first function's locals hold what the stack area happens to hold. */
  function FirstVars(fn: Fn, ws: seq<word>): seq<Val>
    requires |ws| == |fn.locals|
  {
    seq(|ws|, i requires 0 <= i < |ws| => Val(fn.locals[i], ws[i]))
  }

  function FirstConf(fns: seq<Fn>, ws: seq<word>, heap: seq<byte>): Conf
    requires |fns| > 0 && |ws| == |fns[0].locals|
  {
    Conf(Frame(0, fns[0].at + 1, FirstVars(fns[0], ws), [], []), [], heap)
  }

  /** A call from C with arguments (h, size, top) on a stack at q; sp is where the saved registers go. */
  ghost predicate CalledFromC(e: Env, cpu: Cpu, q: word, heap: seq<byte>) {
    && cpu.eip == 0 && cpu.r[ESP] == q && 16 <= q && q + 16 < TWO32
    && Ld(cpu.mem, q + 4) == e.h && Ld(cpu.mem, q + 8) == |heap| && Ld(cpu.mem, q + 12) == e.top
    && EnvOk(e, |heap|) && Apart(e, |heap|, q - 16) && cpu.mem[e.h..e.h + |heap|] == heap
    && e.mem0 == Entered(cpu.mem, q, cpu.r)
  }

  function KeptBy(cpu: Cpu, q: word): Kept
    requires q + 4 <= TWO32
  {
    Kept(cpu.r[EDI], cpu.r[ESI], cpu.r[EBX], cpu.r[EBP], Ld(cpu.mem, q))
  }

  /** Memory once the registers are saved, as the rest of the prelude and the exits see it. */
  ghost predicate Saved(e: Env, m: Mem, q: word, heap: seq<byte>, k: Kept) {
    && 16 <= q && q + 16 < TWO32 && KeptAt(m, q - 16, k)
    && Ld(m, q + 4) == e.h && Ld(m, q + 8) == |heap| && Ld(m, q + 12) == e.top
    && EnvOk(e, |heap|) && m[e.h..e.h + |heap|] == heap
  }

  lemma SavedMemory(e: Env, cpu: Cpu, q: word, heap: seq<byte>)
    requires CalledFromC(e, cpu, q, heap)
    ensures Saved(e, e.mem0, q, heap, KeptBy(cpu, q))
  {
    EnteredKept(cpu.mem, q, cpu.r);
    EnteredLd(cpu.mem, q, cpu.r, q + 4);
    EnteredLd(cpu.mem, q, cpu.r, q + 8);
    EnteredLd(cpu.mem, q, cpu.r, q + 12);
    EnteredSlice(cpu.mem, q, cpu.r, e.h, e.h + |heap|);
  }

  lemma RunSaving(e: Env, cpu: Cpu, q: word, heap: seq<byte>, xs: seq<X>, end: nat) returns (c: Cpu)
    requires Follows(e.step, e.list) && CalledFromC(e, cpu, q, heap) && HoldsTo(e.list, 0, Enter() + xs, end)
    ensures On(e, cpu, c, xs, end) && c.mem == e.mem0 && c.r[ESP] == q - 16 && c.r[EBP] == q - 4
  {
    ReachRefl(e.step, cpu);
    c := RunEnter(e, cpu, cpu, xs, end, q);
  }

  /** Up to the first function: the stack area holds the old ESP. */
  lemma RunEntry(e: Env, cpu: Cpu, c: Cpu, q: word, heap: seq<byte>, k: Kept, xs: seq<X>, end: nat) returns (c': Cpu)
    requires Saved(e, e.mem0, q, heap, k) && 4 <= e.top - e.lo
    requires On(e, cpu, c, Arguments() + (SwitchStack() + xs), end) && c.mem == e.mem0 && c.r[ESP] == q - 16
          && c.r[EBP] == q - 4
    ensures At(e, cpu, c', xs, end, [q - 16], heap) && c'.r[EBP] == Addr(e, 1)
         && c'.mem == St(e.mem0, e.top - 4, q - 16)
  {
    var c2 := RunArguments(e, cpu, c, SwitchStack() + xs, end, q, e.h, |heap|, e.top);
    c' := RunSwitch(e, cpu, c2, xs, end, heap);
  }

  lemma GarbageKept(e: Env, n: nat, w: word)
    requires 4 * (1 + n) <= e.top
    ensures Garbage(e, St(e.mem0, e.top - 4, w), 1, n) == Garbage(e, e.mem0, 1, n)
  {
    var a, b := Garbage(e, St(e.mem0, e.top - 4, w), 1, n), Garbage(e, e.mem0, 1, n);
    forall i | 0 <= i < n ensures a[i] == b[i] {
      LdOther(e.mem0, e.top - 4, w, Addr(e, 1 + i + 1));
    }
  }

  lemma TopFirst(p: Prog, ws: seq<word>)
    requires ProgOk(p) && |p.fns| > 0 && p.fns[0].params == [] && |ws| == |p.fns[0].locals|
    ensures TopOk(p, Frame(0, p.fns[0].at + 1, FirstVars(p.fns[0], ws), [], [])) && p.offs[p.fns[0].at + 1] == START
    ensures Ws(FirstVars(p.fns[0], ws)) == ws
  {
    FnEntry(p.code, p.fns, p.gss, p.offs, 0);
    assert Coded(p, p.fns[0].at) && Coded(p, 0);
    FirstIsFirst(p.code, p.fns);
  }

  lemma FirstIsFirst(code: seq<Instr>, fns: seq<Fn>)
    requires fns == Fns(code) && |fns| > 0 && |code| > 0 && code[0].Decl?
    ensures fns[0].at == 0
  {
    FnsPrefix(code, 1, |code|);
    assert FnsUpto(code, 1) == FnsUpto(code, 0) + [Fn(code[0].rt, code[0].params, code[0].locals, 0)];
  }

  lemma CallFirstAt(list: Listing, p: nat, n: nat)
    requires HoldsTo(list, p, CallFirst(n, START), GOODRET)
    ensures p == 37
  {
    HoldsSize(list, p, CallFirst(n, START), GOODRET);
    SizeOfStart(n, START);
  }

  lemma RunToFirst(e: Env, cpu: Cpu, c: Cpu, q: word, heap: seq<byte>, k: Kept, n: nat) returns (c': Cpu)
    requires Saved(e, e.mem0, q, heap, k) && 4 * (n + 3) <= e.top - e.lo
    requires On(e, cpu, c, Arguments() + (SwitchStack() + CallFirst(n, START)), GOODRET)
    requires c.mem == e.mem0 && c.r[ESP] == q - 16 && c.r[EBP] == q - 4
    ensures c'.r[EBP] == Addr(e, n + 3)
         && Landed(e, cpu, c', START, [q - 16] + Garbage(e, e.mem0, 1, n) + [Addr(e, 1), GOODRET], heap)
  {
    var c1 := RunEntry(e, cpu, c, q, heap, k, CallFirst(n, START), GOODRET);
    CallFirstAt(e.list, c1.eip, n);
    GarbageKept(e, n, q - 16);
    c' := RunCallFirst(e, cpu, c1, n, q - 16, heap);
  }

  lemma FirstRelated(p: Prog, e: Env, sp: word, heap: seq<byte>, cpu: Cpu, c: Cpu, ws: seq<word>)
    requires ProgOk(p) && e.list == p.list && |p.fns| > 0 && p.fns[0].params == [] && |ws| == |p.fns[0].locals|
          && 4 <= e.top
    requires Landed(e, cpu, c, START, [sp] + ws + [Addr(e, 1), GOODRET], heap) && 4 * (|ws| + 3) <= e.top
          && c.r[EBP] == Addr(e, |ws| + 3)
    ensures Related(p, e, sp, FirstConf(p.fns, ws, heap), c)
  {
    TopFirst(p, ws);
    var s := [sp] + ws + [Addr(e, 1), GOODRET];
    assert s + Ws([]) == s;
  }

  lemma ToFirst(e: Env, cpu: Cpu, q: word, heap: seq<byte>, n: nat) returns (c: Cpu)
    requires Follows(e.step, e.list) && CalledFromC(e, cpu, q, heap) && 4 * (n + 3) <= e.top - e.lo
    requires HoldsTo(e.list, 0, Enter() + (Arguments() + (SwitchStack() + CallFirst(n, START))), GOODRET)
    ensures KeptAt(e.mem0, q - 16, KeptBy(cpu, q)) && c.r[EBP] == Addr(e, n + 3)
    ensures Landed(e, cpu, c, START, [q - 16] + Garbage(e, e.mem0, 1, n) + [Addr(e, 1), GOODRET], heap)
  {
    SavedMemory(e, cpu, q, heap);
    var c1 := RunSaving(e, cpu, q, heap, Arguments() + (SwitchStack() + CallFirst(n, START)), GOODRET);
    c := RunToFirst(e, cpu, c1, q, heap, KeptBy(cpu, q), n);
  }

  /** Entering from C establishes the simulation. */
  lemma Enters(p: Prog, e: Env, cpu: Cpu, sp: word, q: word, heap: seq<byte>, ws: seq<word>, k: Kept, first: Conf)
    returns (c: Cpu)
    requires ProgOk(p) && e.list == p.list && Follows(e.step, e.list) && |p.fns| > 0 && p.fns[0].params == []
    requires CalledFromC(e, cpu, q, heap) && q == sp + 16 && k == KeptBy(cpu, q)
          && 4 * (|p.fns[0].locals| + 3) <= e.top - e.lo
    requires ws == Garbage(e, e.mem0, 1, |p.fns[0].locals|) && first == FirstConf(p.fns, ws, heap)
    requires HoldsTo(p.list, 0, Enter() + (Arguments() + (SwitchStack() + CallFirst(|p.fns[0].locals|, START))),
          GOODRET)
    ensures Ran(e, cpu, c) && KeptAt(e.mem0, sp, k) && Related(p, e, sp, first, c)
  {
    c := ToFirst(e, cpu, q, heap, |ws|);
    FirstRelated(p, e, sp, heap, cpu, c, ws);
  }
}
