/** Heap accesses of the stack machine: to_asm.c checks only that an access begins inside the heap, which
    keeps it inside exactly when the heap's size is a multiple of 4. */
module HeapBounds {
  import opened Words
  import opened Sume
  import opened StackMachine

  predicate Accesses(op: byte) {
    IsLoad(op) || IsStore(op)
  }

  /** An access that begins inside a heap of n bytes ends there. */
  predicate EndsInside(op: byte, x: word, n: nat) {
    HeapAddr(op, x) < n ==> HeapAddr(op, x) + Width(op) <= n
  }

  /** Addresses are multiples of the access's width, wrapped or not. */
  lemma Aligned(op: byte, x: word)
    ensures HeapAddr(op, x) % Width(op) == 0
  {
    if Width(op) == 4 { Multiples(x, 4, 0x4000_0000); } else if Width(op) == 2 { Multiples(x, 2, 0x8000_0000); }
  }

  lemma Multiples(x: nat, w: nat, k: nat)
    requires (w == 4 && k == 0x4000_0000) || (w == 2 && k == 0x8000_0000)
    ensures (x * w) % 0x1_0000_0000 % w == 0
  {
    var q := (x * w) / 0x1_0000_0000;
    assert (x * w) % 0x1_0000_0000 == x * w - q * 0x1_0000_0000 == w * (x - q * k);
  }

  lemma FitsIfMultiple(op: byte, x: word, n: nat)
    requires n % 4 == 0
    ensures EndsInside(op, x, n)
  {
    Aligned(op, x);
    if HeapAddr(op, x) < n { Room(HeapAddr(op, x), Width(op), n); }
  }

  lemma Room(a: nat, w: int, n: nat)
    requires w == 1 || w == 2 || w == 4
    requires a % w == 0 && n % 4 == 0 && a < n
    ensures a + w <= n
  {
    if w == 4 { assert a % 4 == 0; } else if w == 2 { assert a % 2 == 0 && n % 2 == 0; }
  }

  /** Every access that begins inside stays inside if and only if the size is a multiple of 4: otherwise the
      32-bit access at index n / 4 crosses the end. */
  lemma FitsIff(n: nat)
    requires n < 0x1_0000_0000
    ensures (forall op: byte, x: word :: Accesses(op) ==> EndsInside(op, x, n)) <==> n % 4 == 0
  {
    if n % 4 == 0 {
      forall op: byte, x: word ensures EndsInside(op, x, n) { FitsIfMultiple(op, x, n); }
    } else {
      var x: word := n / 4;
      assert HeapAddr(I_LD32, x) == 4 * (n / 4);
      assert Accesses(I_LD32) && !EndsInside(I_LD32, x, n);
    }
  }

  lemma PlainNeverWild(code: seq<Instr>, fns: seq<Fn>, c: Conf, op: byte)
    requires c.top.pc < |code| && |c.heap| % 4 == 0
    ensures StepPlain(code, fns, c, op) != Wild
  {
    if IsLoad(op) && Ints(c.top, 1) { FitsIfMultiple(op, Peek(c.top, 0).w, |c.heap|); }
    if IsStore(op) && Has(c.top, 2) { FitsIfMultiple(op, Peek(c.top, 1).w, |c.heap|); }
  }

  lemma StepNeverWild(code: seq<Instr>, fns: seq<Fn>, c: Conf)
    requires |c.heap| % 4 == 0
    ensures Step(code, fns, c) != Wild
  {
    if c.top.pc < |code| && code[c.top.pc].Plain? { PlainNeverWild(code, fns, c, code[c.top.pc].op); }
  }

  /** A load at the last, incomplete word of the heap does leave it. */
  lemma WildAtTheEnd(code: seq<Instr>, fns: seq<Fn>, c: Conf)
    requires c.top.pc < |code| && code[c.top.pc] == Plain(I_LD32) && Ints(c.top, 1)
    requires |c.heap| % 4 != 0 && |c.heap| < 0x1_0000_0000 && Peek(c.top, 0).w == |c.heap| / 4
    ensures Step(code, fns, c) == Wild
  {
    assert HeapAddr(I_LD32, Peek(c.top, 0).w) == 4 * (|c.heap| / 4);
  }

  lemma HeapSizeKept(code: seq<Instr>, fns: seq<Fn>, c: Conf)
    ensures Step(code, fns, c).Next? ==> |Step(code, fns, c).conf.heap| == |c.heap|
  {}

  lemma {:induction false} RunKeepsSize(code: seq<Instr>, fns: seq<Fn>, cs: seq<Conf>, k: nat)
    requires Run(code, fns, cs) && k < |cs|
    ensures |cs[k].heap| == |cs[0].heap|
  {
    if k > 0 {
      RunKeepsSize(code, fns, cs, k - 1);
      assert RunsAt(code, fns, cs, k - 1);
      HeapSizeKept(code, fns, cs[k - 1]);
    }
  }

  /** Along every run that starts with a heap of whole words no access leaves the heap. */
  lemma RunNeverWild(code: seq<Instr>, fns: seq<Fn>, cs: seq<Conf>, k: nat)
    requires Run(code, fns, cs) && |cs[0].heap| % 4 == 0 && k < |cs|
    ensures |cs[k].heap| == |cs[0].heap| && Step(code, fns, cs[k]) != Wild
  {
    RunKeepsSize(code, fns, cs, k);
    StepNeverWild(code, fns, cs[k]);
  }
}
