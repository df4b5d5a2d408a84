/** Emitted code seen from the stack machine: data memory as a stack of words growing down from `top`, a byte heap,
    and everything else untouched. One lemma per kind of emitted instruction carries this view forward. */
module MachineView {
  import opened Words
  import opened Sume
  import opened Integers
  import opened StackMachine
  import opened X86
  import opened Reach
  import opened Cpu

  /** The instructions of a program by address. */
  type Listing = map<nat, X>

  function ListOf(code: seq<byte>): Listing {
    map p | 0 <= p < |code| && DecodesAt(code, p) :: DecodeX(code, p).value.0
  }

  predicate DecodesAt(code: seq<byte>, p: nat) {
    p < |code| && var d := DecodeX(code, p); d.Some? && d.value.1 == p + Len(d.value.0) && d.value.1 < TWO32
  }

  /** step executes the listed instructions. */
  ghost predicate Follows(step: Cpu -> Option<Cpu>, list: Listing) {
    forall c: Cpu {:trigger step(c)} | c.eip in list ::
      step(c) == ExecDecoded(Some((list[c.eip], c.eip + Len(list[c.eip]))), c)
  }

  lemma MachineFollows(code: seq<byte>)
    ensures Follows(Machine(code), ListOf(code))
  {
    var list := ListOf(code);
    forall c: Cpu | c.eip in list
      ensures Machine(code)(c) == ExecDecoded(Some((list[c.eip], c.eip + Len(list[c.eip]))), c)
    {
      assert DecodesAt(code, c.eip);
      StepsWith(code, c, Some((list[c.eip], c.eip + Len(list[c.eip]))));
    }
  }

  /** Whatever the code holds is listed. */
  lemma HoldsIsListed(code: seq<byte>, p: nat, i: X)
    requires Holds(code, p, i) && |code| < TWO32
    ensures p in ListOf(code) && ListOf(code)[p] == i
  {
    DecodeOfEncode(code, p, i);
    assert DecodesAt(code, p);
  }

  /** What stays fixed during a run: the program, the stack area lo..top, the heap's address, the first memory. */
  datatype Env = Env(step: Cpu -> Option<Cpu>, list: Listing, lo: word, top: word, h: word, mem0: Mem)

  ghost predicate EnvOk(e: Env, n: nat) {
    e.lo <= e.top && n < TWO32 && e.h + n <= TWO32 && (e.h + n <= e.lo || e.top <= e.h)
  }

  /** ESP when the stack holds n words. */
  function Addr(e: Env, n: nat): word
    requires 4 * n <= e.top
  {
    e.top - 4 * n
  }

  ghost predicate StackIs(e: Env, m: Mem, s: seq<word>) {
    4 * |s| <= e.top && forall k | 0 <= k < |s| :: Ld(m, Addr(e, k + 1)) == s[k]
  }

  ghost predicate Outside(e: Env, m: Mem, n: nat) {
    forall a | 0 <= a < TWO32 && !(e.lo <= a < e.top) && !(e.h <= a < e.h + n) :: m[a] == e.mem0[a]
  }

  ghost predicate View(e: Env, c: Cpu, s: seq<word>, heap: seq<byte>) {
    && EnvOk(e, |heap|) && 4 * |s| <= e.top - e.lo
    && c.r[ESP] == Addr(e, |s|) && c.r[EDI] == e.h && c.r[ESI] == |heap|
    && c.mem[e.h..e.h + |heap|] == heap && StackIs(e, c.mem, s) && Outside(e, c.mem, |heap|)
  }

  /** The instructions xs stand from p to end. */
  ghost predicate HoldsTo(list: Listing, p: nat, xs: seq<X>, end: nat)
    decreases |xs|
  {
    if xs == [] then p == end
    else
      p in list && list[p] == xs[0] && WellFormedX(xs[0]) && p + Len(xs[0]) < TWO32
      && HoldsTo(list, p + Len(xs[0]), xs[1..], end)
  }

  /** A run from c0 has come to c. */
  ghost predicate Ran(e: Env, c0: Cpu, c: Cpu) {
    Follows(e.step, e.list) && Reaches(e.step, c0, c)
  }

  /** A run from c0 has come to c, with the instructions xs ahead. */
  ghost predicate At(e: Env, c0: Cpu, c: Cpu, xs: seq<X>, end: nat, s: seq<word>, heap: seq<byte>) {
    Ran(e, c0, c) && HoldsTo(e.list, c.eip, xs, end) && View(e, c, s, heap)
  }

  lemma Go(e: Env, c0: Cpu, c: Cpu, xs: seq<X>, end: nat, c': Cpu)
    requires Ran(e, c0, c) && HoldsTo(e.list, c.eip, xs, end) && xs != []
    requires ExecDecoded(Some((xs[0], c.eip + Len(xs[0]))), c) == Some(c')
    ensures Ran(e, c0, c')
  {
    assert e.step(c) == Some(c');
    ReachStep(e.step, c, c');
    ReachTrans(e.step, c0, c, c');
  }

  lemma Advance(e: Env, c0: Cpu, c: Cpu, x: X, xs: seq<X>, end: nat, s: seq<word>, heap: seq<byte>, c': Cpu,
                s': seq<word>, heap': seq<byte>)
    requires At(e, c0, c, xs, end, s, heap) && xs != [] && xs[0] == x
    requires ExecDecoded(Some((x, c.eip + Len(x))), c) == Some(c') && c'.eip == c.eip + Len(x) && View(e, c', s', heap')
    ensures At(e, c0, c', xs[1..], end, s', heap')
  {
    Go(e, c0, c, xs, end, c');
  }

  // ---------- stack and registers ----------

  lemma PopKeeps(e: Env, m: Mem, s: seq<word>, n: nat)
    requires StackIs(e, m, s) && n <= |s|
    ensures StackIs(e, m, s[..n])
  {
  }

  lemma DoPop(e: Env, c0: Cpu, c: Cpu, xs: seq<X>, end: nat, s: seq<word>, heap: seq<byte>, r: Reg) returns (c': Cpu)
    requires At(e, c0, c, xs, end, s, heap) && xs != [] && xs[0] == Pop(r)
    requires s != [] && r != ESP && r != ESI && r != EDI
    ensures At(e, c0, c', xs[1..], end, s[..|s| - 1], heap)
    ensures c'.r == c.r[ESP := Addr(e, |s| - 1)][r := s[|s| - 1]] && c'.f == c.f && c'.mem == c.mem
         && c'.eip == c.eip + 1
  {
    var n := |s| - 1;
    assert Ld(c.mem, Addr(e, n + 1)) == s[n];
    c' := c.(eip := c.eip + 1, r := c.r[ESP := Addr(e, n)][r := s[n]]);
    Go(e, c0, c, xs, end, c');
    PopKeeps(e, c.mem, s, n);
  }

  lemma StoreStack(e: Env, m: Mem, s: seq<word>, k: nat, w: word)
    requires StackIs(e, m, s) && k < |s|
    ensures StackIs(e, St(m, Addr(e, k + 1), w), s[k := w])
  {
    var m' := St(m, Addr(e, k + 1), w);
    var s' := s[k := w];
    forall j | 0 <= j < |s| ensures Ld(m', Addr(e, j + 1)) == s'[j] {
      if j == k { LdSame(m, Addr(e, k + 1), w); } else { LdOther(m, Addr(e, k + 1), w, Addr(e, j + 1)); }
    }
  }

  lemma PushStack(e: Env, m: Mem, s: seq<word>, w: word)
    requires StackIs(e, m, s) && 4 * (|s| + 1) <= e.top
    ensures StackIs(e, St(m, Addr(e, |s| + 1), w), s + [w])
  {
    var m' := St(m, Addr(e, |s| + 1), w);
    forall j | 0 <= j < |s| + 1 ensures Ld(m', Addr(e, j + 1)) == (s + [w])[j] {
      if j == |s| { LdSame(m, Addr(e, |s| + 1), w); } else { LdOther(m, Addr(e, |s| + 1), w, Addr(e, j + 1)); }
    }
  }

  /** A store into the stack area leaves the heap and the rest of memory alone. */
  lemma StackStoreFrame(e: Env, m: Mem, a: word, w: word, heap: seq<byte>)
    requires EnvOk(e, |heap|) && e.lo <= a && a + 4 <= e.top
    requires m[e.h..e.h + |heap|] == heap && Outside(e, m, |heap|)
    ensures St(m, a, w)[e.h..e.h + |heap|] == heap && Outside(e, St(m, a, w), |heap|)
  {
    StElsewhere(m, a, w, e.h, e.h + |heap|);
  }

  lemma PushView(e: Env, c: Cpu, c': Cpu, s: seq<word>, heap: seq<byte>, w: word)
    requires View(e, c, s, heap) && 4 * (|s| + 1) <= e.top - e.lo
    requires c'.r == c.r[ESP := Addr(e, |s| + 1)] && c'.mem == St(c.mem, Addr(e, |s| + 1), w)
    ensures View(e, c', s + [w], heap)
  {
    PushStack(e, c.mem, s, w);
    StackStoreFrame(e, c.mem, Addr(e, |s| + 1), w, heap);
  }

  lemma ExecPush(e: Env, c: Cpu, p: word, s: seq<word>, heap: seq<byte>, r: Reg) returns (c': Cpu)
    requires View(e, c, s, heap) && 4 * (|s| + 1) <= e.top - e.lo
    ensures ExecDecoded(Some((Push(r), p)), c) == Some(c') && View(e, c', s + [c.r[r]], heap)
    ensures c'.r == c.r[ESP := Addr(e, |s| + 1)] && c'.f == c.f && c'.eip == p
  {
    var a := Addr(e, |s| + 1);
    c' := c.(eip := p, r := c.r[ESP := a], mem := St(c.mem, a, c.r[r]));
    PushView(e, c, c', s, heap, c.r[r]);
  }

  lemma DoPush(e: Env, c0: Cpu, c: Cpu, xs: seq<X>, end: nat, s: seq<word>, heap: seq<byte>, r: Reg) returns (c': Cpu)
    requires At(e, c0, c, xs, end, s, heap) && xs != [] && xs[0] == Push(r) && 4 * (|s| + 1) <= e.top - e.lo
    ensures At(e, c0, c', xs[1..], end, s + [c.r[r]], heap)
    ensures c'.r == c.r[ESP := Addr(e, |s| + 1)] && c'.f == c.f && c'.eip == c.eip + 1
  {
    c' := ExecPush(e, c, c.eip + 1, s, heap, r);
    Go(e, c0, c, xs, end, c');
  }

  lemma RegView(e: Env, c: Cpu, c': Cpu, s: seq<word>, heap: seq<byte>)
    requires View(e, c, s, heap) && c'.mem == c.mem
    requires c'.r[ESP] == c.r[ESP] && c'.r[ESI] == c.r[ESI] && c'.r[EDI] == c.r[EDI]
    ensures View(e, c', s, heap)
  {
  }

  /** An instruction on registers that spares ESP, ESI and EDI. */
  lemma DoReg(e: Env, c0: Cpu, c: Cpu, xs: seq<X>, end: nat, s: seq<word>, heap: seq<byte>, d: Cpu) returns (c': Cpu)
    requires At(e, c0, c, xs, end, s, heap) && xs != [] && !IsJump(xs[0]) && !IsMem(xs[0])
    requires WellFormedX(xs[0]) && ExecReg(xs[0], c) == Some(d)
    requires d.mem == c.mem && d.r[ESP] == c.r[ESP] && d.r[ESI] == c.r[ESI] && d.r[EDI] == c.r[EDI]
    ensures At(e, c0, c', xs[1..], end, s, heap)
    ensures c'.r == d.r && c'.f == d.f && c'.mem == c.mem && c'.eip == c.eip + Len(xs[0])
  {
    c' := d.(eip := c.eip + Len(xs[0]));
    Go(e, c0, c, xs, end, c');
  }

  lemma ExecDrop(c: Cpu, p: word, imm: word, a: word)
    requires c.r[ESP] + imm == a
    ensures ExecDecoded(Some((AluI(0, ESP, imm), p)), c)
         == Some(c.(eip := p, r := c.r[ESP := a], f := AddFlags(c.r[ESP], imm)))
  {
  }

  /** add esp, 4 * n: drop n words. */
  lemma DoDrop(e: Env, c0: Cpu, c: Cpu, xs: seq<X>, end: nat, s: seq<word>, heap: seq<byte>, n: nat) returns (c': Cpu)
    requires At(e, c0, c, xs, end, s, heap) && xs != [] && n <= |s| && xs[0] == AluI(0, ESP, 4 * n)
    ensures At(e, c0, c', xs[1..], end, s[..|s| - n], heap)
    ensures c'.r == c.r[ESP := Addr(e, |s| - n)] && c'.mem == c.mem && c'.eip == c.eip + 6
  {
    c' := c.(eip := c.eip + 6, r := c.r[ESP := Addr(e, |s| - n)], f := AddFlags(c.r[ESP], 4 * n));
    ExecDrop(c, c.eip + 6, 4 * n, Addr(e, |s| - n));
    Go(e, c0, c, xs, end, c');
    PopKeeps(e, c.mem, s, |s| - n);
  }

  /** mov esp, ebp: back to n words. */
  lemma DoUnwind(e: Env, c0: Cpu, c: Cpu, xs: seq<X>, end: nat, s: seq<word>, heap: seq<byte>, n: nat) returns (c': Cpu)
    requires At(e, c0, c, xs, end, s, heap) && xs != [] && xs[0] == MovRR(ESP, EBP)
    requires n <= |s| && c.r[EBP] == Addr(e, n)
    ensures At(e, c0, c', xs[1..], end, s[..n], heap)
    ensures c'.r == c.r[ESP := Addr(e, n)] && c'.mem == c.mem && c'.eip == c.eip + 2
  {
    c' := c.(eip := c.eip + 2, r := c.r[ESP := Addr(e, n)]);
    Go(e, c0, c, xs, end, c');
    PopKeeps(e, c.mem, s, n);
  }

  // ---------- variables ----------

  lemma ExecLoadVar(c: Cpu, p: word, r: Reg, imm: word, a: word)
    requires c.r[EBP] + imm == a && a + 4 <= TWO32
    ensures ExecDecoded(Some((MovRB(r, imm), p)), c) == Some(c.(eip := p, r := c.r[r := Ld(c.mem, a)]))
  {
  }

  lemma DoLoadVar(e: Env, c0: Cpu, c: Cpu, xs: seq<X>, end: nat, s: seq<word>, heap: seq<byte>, r: Reg, imm: word,
                  k: nat)
    returns (c': Cpu)
    requires At(e, c0, c, xs, end, s, heap) && xs != [] && xs[0] == MovRB(r, imm) && r < 4
    requires k < |s| && c.r[EBP] + imm == Addr(e, k + 1)
    ensures At(e, c0, c', xs[1..], end, s, heap)
    ensures c'.r == c.r[r := s[k]] && c'.mem == c.mem
  {
    assert Ld(c.mem, Addr(e, k + 1)) == s[k];
    c' := c.(eip := c.eip + 6, r := c.r[r := s[k]]);
    ExecLoadVar(c, c.eip + 6, r, imm, Addr(e, k + 1));
    Go(e, c0, c, xs, end, c');
  }

  lemma VarView(e: Env, c: Cpu, c': Cpu, s: seq<word>, heap: seq<byte>, k: nat, w: word)
    requires View(e, c, s, heap) && k < |s| && c'.r == c.r && c'.mem == St(c.mem, Addr(e, k + 1), w)
    ensures View(e, c', s[k := w], heap)
  {
    StoreStack(e, c.mem, s, k, w);
    StackStoreFrame(e, c.mem, Addr(e, k + 1), w, heap);
  }

  lemma ExecStoreVar(e: Env, c: Cpu, p: word, s: seq<word>, heap: seq<byte>, r: Reg, imm: word, k: nat)
    returns (c': Cpu)
    requires View(e, c, s, heap) && k < |s| && c.r[EBP] + imm == Addr(e, k + 1)
    ensures ExecDecoded(Some((MovBR(imm, r), p)), c) == Some(c')
    ensures View(e, c', s[k := c.r[r]], heap) && c'.r == c.r && c'.eip == p
  {
    c' := c.(eip := p, mem := St(c.mem, Addr(e, k + 1), c.r[r]));
    VarView(e, c, c', s, heap, k, c.r[r]);
  }

  lemma DoStoreVar(e: Env, c0: Cpu, c: Cpu, xs: seq<X>, end: nat, s: seq<word>, heap: seq<byte>, r: Reg, imm: word,
                   k: nat)
    returns (c': Cpu)
    requires At(e, c0, c, xs, end, s, heap) && xs != [] && xs[0] == MovBR(imm, r)
    requires k < |s| && c.r[EBP] + imm == Addr(e, k + 1)
    ensures At(e, c0, c', xs[1..], end, s[k := c.r[r]], heap)
    ensures c'.r == c.r
  {
    c' := ExecStoreVar(e, c, c.eip + 6, s, heap, r, imm, k);
    Go(e, c0, c, xs, end, c');
  }

  // ---------- jumps ----------

  /** A run from c0 has come to c, at address p. */
  ghost predicate Landed(e: Env, c0: Cpu, c: Cpu, p: nat, s: seq<word>, heap: seq<byte>) {
    Ran(e, c0, c) && c.eip == p && View(e, c, s, heap)
  }

  /** rel32 from an instruction that ends at p to address t. */
  function Rel(p: int, t: int): word {
    Wrap(t - p)
  }

  lemma RelLands(p: word, t: word)
    ensures Wrap(p + Rel(p, t)) == t
  {
  }

  lemma DoJmp(e: Env, c0: Cpu, c: Cpu, xs: seq<X>, end: nat, s: seq<word>, heap: seq<byte>, t: word) returns (c': Cpu)
    requires At(e, c0, c, xs, end, s, heap) && xs != [] && xs[0] == JmpRel(Rel(c.eip + 5, t))
    ensures Landed(e, c0, c', t, s, heap) && c'.r == c.r
  {
    RelLands(c.eip + 5, t);
    c' := c.(eip := t);
    Go(e, c0, c, xs, end, c');
  }

  lemma DoJcc(e: Env, c0: Cpu, c: Cpu, xs: seq<X>, end: nat, s: seq<word>, heap: seq<byte>, cc: int, t: word)
    returns (c': Cpu)
    requires At(e, c0, c, xs, end, s, heap) && xs != [] && xs[0] == Jcc(cc, Rel(c.eip + 6, t))
    ensures c'.r == c.r && c'.mem == c.mem && c'.f == c.f
    ensures if Cond(cc, c.f) then Landed(e, c0, c', t, s, heap)
          else At(e, c0, c', xs[1..], end, s, heap) && c'.eip == c.eip + 6
  {
    RelLands(c.eip + 6, t);
    c' := c.(eip := if Cond(cc, c.f) then t else c.eip + 6);
    Go(e, c0, c, xs, end, c');
  }

  lemma ExecCall(e: Env, c: Cpu, p: word, s: seq<word>, heap: seq<byte>, t: word) returns (c': Cpu)
    requires View(e, c, s, heap) && 4 * (|s| + 1) <= e.top - e.lo
    ensures ExecDecoded(Some((CallRel(Rel(p, t)), p)), c) == Some(c') && View(e, c', s + [p], heap)
    ensures c'.r == c.r[ESP := Addr(e, |s| + 1)] && c'.eip == t
  {
    var a := Addr(e, |s| + 1);
    RelLands(p, t);
    c' := c.(eip := t, r := c.r[ESP := a], mem := St(c.mem, a, p));
    PushView(e, c, c', s, heap, p);
  }

  lemma DoCall(e: Env, c0: Cpu, c: Cpu, xs: seq<X>, end: nat, s: seq<word>, heap: seq<byte>, p: word, t: word)
    returns (c': Cpu)
    requires At(e, c0, c, xs, end, s, heap) && xs != [] && p == c.eip + 5 && xs[0] == CallRel(Rel(p, t))
    requires 4 * (|s| + 1) <= e.top - e.lo
    ensures Landed(e, c0, c', t, s + [p], heap)
    ensures c'.r == c.r[ESP := Addr(e, |s| + 1)]
  {
    c' := ExecCall(e, c, p, s, heap, t);
    Go(e, c0, c, xs, end, c');
  }

  lemma DoRet(e: Env, c0: Cpu, c: Cpu, xs: seq<X>, end: nat, s: seq<word>, heap: seq<byte>) returns (c': Cpu)
    requires At(e, c0, c, xs, end, s, heap) && xs != [] && xs[0] == RetFn && s != []
    ensures Landed(e, c0, c', s[|s| - 1], s[..|s| - 1], heap)
    ensures c'.r == c.r[ESP := Addr(e, |s| - 1)]
  {
    var n := |s| - 1;
    assert Ld(c.mem, Addr(e, n + 1)) == s[n];
    c' := c.(eip := s[n], r := c.r[ESP := Addr(e, n)]);
    Go(e, c0, c, xs, end, c');
    PopKeeps(e, c.mem, s, n);
  }

  // ---------- the heap ----------

  /** The load that to_asm.c emits for each operator, from [eax] to eax. */
  function LoadX(op: byte): X {
    if op == I_LD32 then MovRM(EAX, EAX)
    else if op == I_LD16_S then Movx(0xbf, EAX, EAX)
    else if op == I_LD16_U then Movx(0xb7, EAX, EAX)
    else if op == I_LD8_S then Movx(0xbe, EAX, EAX)
    else Movx(0xb6, EAX, EAX)
  }

  lemma HeapByte(e: Env, m: Mem, heap: seq<byte>, a: nat)
    requires EnvOk(e, |heap|) && m[e.h..e.h + |heap|] == heap && a < |heap|
    ensures m[e.h + a] == heap[a]
  {
  }

  lemma ExecLoad(c: Cpu, p: word, op: byte, e: Env, heap: seq<byte>, a: nat)
    requires IsLoad(op) && a + Width(op) <= |heap| && c.r[EAX] == e.h + a
    requires EnvOk(e, |heap|) && c.mem[e.h..e.h + |heap|] == heap
    ensures ExecDecoded(Some((LoadX(op), p)), c) == Some(c.(eip := p, r := c.r[EAX := LoadValue(op, heap, a)]))
  {
    HeapByte(e, c.mem, heap, a);
    assert Pow2(8) == 256 && Pow2(16) == 65536;
    if Width(op) > 1 { HeapByte(e, c.mem, heap, a + 1); }
    if Width(op) > 2 { HeapByte(e, c.mem, heap, a + 2); HeapByte(e, c.mem, heap, a + 3); }
  }

  lemma DoLoad(e: Env, c0: Cpu, c: Cpu, xs: seq<X>, end: nat, s: seq<word>, heap: seq<byte>, op: byte, a: nat)
    returns (c': Cpu)
    requires At(e, c0, c, xs, end, s, heap) && xs != [] && IsLoad(op) && xs[0] == LoadX(op)
    requires a + Width(op) <= |heap| && c.r[EAX] == e.h + a
    ensures At(e, c0, c', xs[1..], end, s, heap)
    ensures c'.r == c.r[EAX := LoadValue(op, heap, a)] && c'.mem == c.mem
  {
    var v := LoadValue(op, heap, a);
    var x := xs[0];
    c' := c.(eip := c.eip + Len(x), r := c.r[EAX := v]);
    ExecLoad(c, c'.eip, op, e, heap, a);
    RegView(e, c, c', s, heap);
    Advance(e, c0, c, x, xs, end, s, heap, c', s, heap);
  }

  /** Bytes of memory after a store of the low n bytes of w at a. */
  function Stored(m: Mem, n: int, a: word, w: word): Mem
    requires n == 1 || n == 4
    requires a + n <= TWO32
  {
    if n == 4 then St(m, a, w) else m[a := w % 256]
  }

  lemma StoredHeap(e: Env, m: Mem, op: byte, heap: seq<byte>, a: nat, w: word)
    requires EnvOk(e, |heap|) && m[e.h..e.h + |heap|] == heap && (op == STR32 || op == STR8) && a + Width(op) <= |heap|
    ensures Stored(m, Width(op), e.h + a, w)[e.h..e.h + |heap|] == StoreValue(op, heap, a, w)
  {
    var m' := Stored(m, Width(op), e.h + a, w);
    var r := StoreValue(op, heap, a, w);
    forall k | 0 <= k < |heap| ensures m'[e.h + k] == r[k] {
      HeapByte(e, m, heap, k);
      if a <= k < a + Width(op) { assert r[k] == Le(w)[k - a]; }
    }
  }

  lemma StoredStack(e: Env, m: Mem, n: int, a: word, w: word, s: seq<word>, hn: nat)
    requires EnvOk(e, hn) && StackIs(e, m, s) && 4 * |s| <= e.top - e.lo && Outside(e, m, hn)
    requires (n == 1 || n == 4) && e.h <= a && a + n <= e.h + hn
    ensures StackIs(e, Stored(m, n, a, w), s) && Outside(e, Stored(m, n, a, w), hn)
  {
    var m' := Stored(m, n, a, w);
    forall k | 0 <= k < |s| ensures Ld(m', Addr(e, k + 1)) == s[k] {
      assert Ld(m, Addr(e, k + 1)) == s[k];
      assert e.lo <= Addr(e, k + 1);
    }
  }

  /** The store that to_asm.c emits, from ebx to [eax]. */
  function StoreX(op: byte): X {
    if op == STR32 then MovMR(EAX, EBX) else MovMR8(EAX, EBX)
  }

  lemma StoreView(e: Env, c: Cpu, c': Cpu, s: seq<word>, heap: seq<byte>, op: byte, a: nat)
    requires View(e, c, s, heap) && (op == STR32 || op == STR8) && a + Width(op) <= |heap|
    requires c'.r == c.r && c'.mem == Stored(c.mem, Width(op), e.h + a, c.r[EBX])
    ensures View(e, c', s, StoreValue(op, heap, a, c.r[EBX]))
  {
    StoredHeap(e, c.mem, op, heap, a, c.r[EBX]);
    StoredStack(e, c.mem, Width(op), e.h + a, c.r[EBX], s, |heap|);
  }

  lemma ExecStore(e: Env, c: Cpu, p: word, s: seq<word>, heap: seq<byte>, op: byte, a: nat) returns (c': Cpu)
    requires View(e, c, s, heap) && (op == STR32 || op == STR8) && a + Width(op) <= |heap| && c.r[EAX] == e.h + a
    ensures ExecDecoded(Some((StoreX(op), p)), c) == Some(c')
    ensures View(e, c', s, StoreValue(op, heap, a, c.r[EBX])) && c'.r == c.r && c'.eip == p
  {
    c' := c.(eip := p, mem := Stored(c.mem, Width(op), e.h + a, c.r[EBX]));
    StoreView(e, c, c', s, heap, op, a);
  }

  lemma DoStore(e: Env, c0: Cpu, c: Cpu, xs: seq<X>, end: nat, s: seq<word>, heap: seq<byte>, op: byte, a: nat)
    returns (c': Cpu)
    requires At(e, c0, c, xs, end, s, heap) && xs != [] && (op == STR32 || op == STR8) && xs[0] == StoreX(op)
    requires a + Width(op) <= |heap| && c.r[EAX] == e.h + a
    ensures At(e, c0, c', xs[1..], end, s, StoreValue(op, heap, a, c.r[EBX]))
    ensures c'.r == c.r
  {
    c' := ExecStore(e, c, c.eip + Len(xs[0]), s, heap, op, a);
    Go(e, c0, c, xs, end, c');
  }
}
