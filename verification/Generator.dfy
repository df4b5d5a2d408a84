/** The two passes of to_asm.c. The first records where functions and blocks lie while it writes code with stale
    addresses; the second writes the same code with the recorded ones. */
module Generator {
  import opened Words
  import opened Counting
  import opened Sume
  import opened StackMachine
  import opened X86
  import opened Codegen

  // ---------- blocks by number ----------

  predicate IsOpener(i: Instr) {
    i.Decl? || Opens(i)
  }

  /** The tokens before k that open a block or a function, in order: their positions are the block numbers. */
  function Openers(code: seq<Instr>, k: nat): seq<nat>
    requires k <= |code|
  {
    if k == 0 then [] else Openers(code, k - 1) + if IsOpener(code[k - 1]) then [k - 1] else []
  }

  lemma {:induction false} OpenersPrefix(code: seq<Instr>, j: nat, k: nat)
    requires j <= k <= |code|
    ensures Openers(code, j) <= Openers(code, k)
    decreases k
  {
    if j < k { OpenersPrefix(code, j, k - 1); }
  }

  lemma {:induction false} OpenersBelow(code: seq<Instr>, k: nat, b: nat)
    requires k <= |code| && b < |Openers(code, k)|
    ensures Openers(code, k)[b] < k && IsOpener(code[Openers(code, k)[b]])
  {
    if b < |Openers(code, k - 1)| { OpenersBelow(code, k - 1, b); }
  }

  // ---------- what the tables hold ----------

  function HeightAt(code: seq<Instr>, gss: seq<Gs>, at: nat): int
    requires at < |code| && |gss| == |code| + 1
  {
    if code[at].Decl? then 0 else gss[at].stkh
  }

  /** The address recorded for the opener `at` once the tokens before k have been read: a block's is 0 until its end. */
  function AddrBefore(code: seq<Instr>, offs: seq<nat>, k: nat, at: nat): int
    requires at < |code| && |offs| == |code| + 1
  {
    if code[at].Decl? then -1
    else if code[at] == Plain(LOOP) then offs[at]
    else if Close(code, at + 1, 0) < k && Close(code, at + 1, 0) < |code| then offs[Close(code, at + 1, 0) + 1]
    else 0
  }

  ghost predicate OpenOk(code: seq<Instr>, gss: seq<Gs>, k: nat, j: nat)
    requires |gss| == |code| + 1 && k <= |code|
  {
    var open := gss[k].open;
    j < |open| ==>
      && open[j].at < k && open[j].height == HeightAt(code, gss, open[j].at)
      && (if j == 0 then code[open[j].at].Decl?
          else Opens(code[open[j].at]) && Close(code, open[j].at + 1, 0) == Close(code, k, |open| - 1 - j))
  }

  /** The open blocks are those whose end is still to come. */
  lemma {:induction false} OpenBlocks(code: seq<Instr>, fns: seq<Fn>, gss: seq<Gs>, offs: seq<nat>, k: nat, j: nat)
    requires Trace(code, fns, gss, offs) && k <= |code|
    ensures OpenOk(code, gss, k, j)
  {
    if k > 0 && j < |gss[k].open| {
      assert GStepsTo(code, fns, gss, offs, k - 1);
      if j < |gss[k - 1].open| { OpenBlocks(code, fns, gss, offs, k - 1, j); }
    }
  }

  ghost predicate IsOpen(gs: Gs, at: nat) {
    exists j :: 0 < j < |gs.open| && gs.open[j].at == at
  }

  /** A block opened before k is still open or has its end before k. */
  lemma {:induction false} OpenOrClosed(code: seq<Instr>, fns: seq<Fn>, gss: seq<Gs>, offs: seq<nat>, k: nat, at: nat)
    requires Trace(code, fns, gss, offs) && at < k <= |code| && Opens(code[at])
    ensures IsOpen(gss[k], at) || Close(code, at + 1, 0) < k
    decreases k
  {
    var gs, gs' := gss[k - 1], gss[k];
    assert GStepsTo(code, fns, gss, offs, k - 1);
    if at == k - 1 {
      assert gs'.open[|gs.open|].at == at;
    } else {
      OpenOrClosed(code, fns, gss, offs, k - 1, at);
      if IsOpen(gs, at) {
        var j :| 0 < j < |gs.open| && gs.open[j].at == at;
        if j < |gs'.open| {
          assert gs'.open[j].at == at;
        } else {
          OpenBlocks(code, fns, gss, offs, k - 1, j);
        }
      }
    }
  }

  /** Reading token k records one address: that of the innermost block, when k is its end. */
  lemma AddrChanges(code: seq<Instr>, fns: seq<Fn>, gss: seq<Gs>, offs: seq<nat>, k: nat, at: nat)
    requires Trace(code, fns, gss, offs) && at < k < |code| && IsOpener(code[at])
    ensures var open := gss[k].open; var n := |open|;
            AddrBefore(code, offs, k + 1, at) ==
              if code[k] == Plain(END) && n > 1 && open[n - 1].at == at && AddrBefore(code, offs, k, at) == 0
              then offs[k + 1] else AddrBefore(code, offs, k, at)
  {
    var open := gss[k].open;
    var n := |open|;
    OffsetsFromStart(code, fns, gss, offs, at);
    if code[at] == Plain(BLOCK) {
      OpenOrClosed(code, fns, gss, offs, k, at);
      if Close(code, at + 1, 0) < k {
        OffsetsFromStart(code, fns, gss, offs, Close(code, at + 1, 0) + 1);
      } else {
        var j :| 0 < j < n && open[j].at == at;
        OpenBlocks(code, fns, gss, offs, k, j);
        if j < n - 1 {
          OpenBlocks(code, fns, gss, offs, k, n - 1);
        }
      }
    }
  }

  lemma {:induction false} OffsetsFromStart(code: seq<Instr>, fns: seq<Fn>, gss: seq<Gs>, offs: seq<nat>, k: nat)
    requires Trace(code, fns, gss, offs) && k <= |code|
    ensures offs[k] >= START
  {
    if k > 0 {
      OffsetsFromStart(code, fns, gss, offs, k - 1);
      assert GStepsTo(code, fns, gss, offs, k - 1);
    }
  }

  /** Token k declares function number fn + 1. */
  lemma {:induction false} DeclNumber(code: seq<Instr>, fns: seq<Fn>, gss: seq<Gs>, offs: seq<nat>, k: nat)
    requires Trace(code, fns, gss, offs) && k <= |code|
    ensures gss[k].fn + 1 == |FnsUpto(code, k)| && FnsUpto(code, k) <= fns
  {
    if k > 0 {
      DeclNumber(code, fns, gss, offs, k - 1);
      assert GStepsTo(code, fns, gss, offs, k - 1);
    }
    FnsPrefix(code, k, |code|);
  }

  lemma {:induction false} FnsPrefix(code: seq<Instr>, j: nat, k: nat)
    requires j <= k <= |code|
    ensures FnsUpto(code, j) <= FnsUpto(code, k)
    decreases k
  {
    if j < k { FnsPrefix(code, j, k - 1); }
  }

  lemma DeclaredAt(code: seq<Instr>, fns: seq<Fn>, gss: seq<Gs>, offs: seq<nat>, k: nat)
    requires Trace(code, fns, gss, offs) && k < |code| && code[k].Decl?
    ensures 0 <= gss[k].fn + 1 < |fns| && fns[gss[k].fn + 1].at == k
  {
    DeclNumber(code, fns, gss, offs, k);
    DeclNumber(code, fns, gss, offs, k + 1);
  }

  // ---------- the generator ----------

  /** The stack of block numbers names the open blocks. */
  ghost predicate StkOk(code: seq<Instr>, k: nat, open: seq<Open>, stk: seq<nat>)
    requires k <= |code|
  {
    |stk| == |open| && forall j | 0 <= j < |stk| :: Names(code, k, stk[j], open[j].at)
  }

  ghost predicate Names(code: seq<Instr>, k: nat, b: nat, at: nat)
    requires k <= |code|
  {
    b < |Openers(code, k)| && Openers(code, k)[b] == at
  }

  ghost predicate RowOk(code: seq<Instr>, gss: seq<Gs>, offs: seq<nat>, k: nat, b: nat, addr: int, height: int)
    requires k <= |code| && |gss| == |code| + 1 && |offs| == |code| + 1
  {
    b < |Openers(code, k)| &&
    var at := Openers(code, k)[b];
    at < |code| && addr == AddrBefore(code, offs, k, at) && height == HeightAt(code, gss, at)
  }

  /** The block table after the tokens before k. */
  ghost predicate BlocksOk(code: seq<Instr>, gss: seq<Gs>, offs: seq<nat>, k: nat, brAddr: seq<int>, height: seq<int>)
    requires k <= |code| && |gss| == |code| + 1 && |offs| == |code| + 1
  {
    && |brAddr| == |height| == |Openers(code, k)|
    && forall b | 0 <= b < |brAddr| :: RowOk(code, gss, offs, k, b, brAddr[b], height[b])
  }

  /** The function table once n functions have been read. */
  ghost predicate FnsOk(fns: seq<Fn>, offs: seq<nat>, n: int, fnAddr: seq<int>) {
    |fnAddr| == n <= |fns| && forall v | 0 <= v < n :: fns[v].at < |offs| && fnAddr[v] == offs[fns[v].at]
  }

  lemma NamesLater(code: seq<Instr>, j: nat, k: nat, b: nat, at: nat)
    requires j <= k <= |code| && Names(code, j, b, at)
    ensures Names(code, k, b, at)
  {
    OpenersPrefix(code, j, k);
  }

  /** The table rows of the open blocks hold the heights at which they were opened. */
  lemma RowOfOpen(code: seq<Instr>, fns: seq<Fn>, gss: seq<Gs>, offs: seq<nat>, k: nat, stk: seq<nat>, t: nat,
                  brAddr: seq<int>,
                  height: seq<int>, j: nat)
    requires Trace(code, fns, gss, offs) && k <= t <= |code| && StkOk(code, k, gss[k].open, stk) && j < |stk|
    requires BlocksOk(code, gss, offs, t, brAddr, height)
    ensures var o := gss[k].open[j];
            stk[j] < |brAddr| && o.at < k && height[stk[j]] == o.height
              && brAddr[stk[j]] == AddrBefore(code, offs, t, o.at)
  {
    assert Names(code, k, stk[j], gss[k].open[j].at);
    NamesLater(code, k, t, stk[j], gss[k].open[j].at);
    assert RowOk(code, gss, offs, t, stk[j], brAddr[stk[j]], height[stk[j]]);
    OpenBlocks(code, fns, gss, offs, k, j);
  }

  /** Once the whole program has been read, the recorded addresses are the branch targets. */
  lemma FinalAddr(code: seq<Instr>, offs: seq<nat>, at: nat)
    requires at < |code| && |offs| == |code| + 1 && Opens(code[at])
    ensures AddrBefore(code, offs, |code|, at) == Target(code, offs, at)
  {
  }

  /** The table after token k. */
  function BrAddrAfter(i: Instr, off: int, off': int, stk: seq<nat>, brAddr: seq<int>): seq<int> {
    if i.Decl? then brAddr + [-1]
    else if i == Plain(LOOP) then brAddr + [off]
    else if i == Plain(BLOCK) then brAddr + [0]
    else if i == Plain(END) && |stk| > 1 && stk[|stk| - 1] < |brAddr| && brAddr[stk[|stk| - 1]] == 0 then
      brAddr[stk[|stk| - 1] := off']
    else brAddr
  }

  function HeightAfter(i: Instr, stkh: int, height: seq<int>): seq<int> {
    if i.Decl? then height + [0] else if Opens(i) then height + [stkh] else height
  }

  function StkAfter(i: Instr, blk: nat, stk: seq<nat>): seq<nat> {
    if IsOpener(i) then stk + [blk] else if i == Plain(END) && stk != [] then stk[..|stk| - 1] else stk
  }

  lemma StkKept(code: seq<Instr>, fns: seq<Fn>, gss: seq<Gs>, offs: seq<nat>, k: nat, stk: seq<nat>)
    requires Trace(code, fns, gss, offs) && k < |code| && StkOk(code, k, gss[k].open, stk)
    ensures StkOk(code, k + 1, gss[k + 1].open, StkAfter(code[k], |Openers(code, k)|, stk))
  {
    assert GStepsTo(code, fns, gss, offs, k);
    var stk', open' := StkAfter(code[k], |Openers(code, k)|, stk), gss[k + 1].open;
    forall j | 0 <= j < |stk'| ensures Names(code, k + 1, stk'[j], open'[j].at) {
      if j < |stk| {
        assert Names(code, k, stk[j], gss[k].open[j].at);
        NamesLater(code, k, k + 1, stk[j], gss[k].open[j].at);
      }
    }
  }

  lemma RowKept(code: seq<Instr>, fns: seq<Fn>, gss: seq<Gs>, offs: seq<nat>, k: nat, stk: seq<nat>, brAddr: seq<int>,
                height: seq<int>, b: nat)
    requires Trace(code, fns, gss, offs) && k < |code| && StkOk(code, k, gss[k].open, stk)
    requires BlocksOk(code, gss, offs, k, brAddr, height) && b < |brAddr|
    ensures var brAddr' := BrAddrAfter(code[k], offs[k], offs[k + 1], stk, brAddr);
            b < |brAddr'| && RowOk(code, gss, offs, k + 1, b, brAddr'[b], height[b])
  {
    var at := Openers(code, k)[b];
    assert RowOk(code, gss, offs, k, b, brAddr[b], height[b]);
    OpenersBelow(code, k, b);
    OpenersPrefix(code, k, k + 1);
    AddrChanges(code, fns, gss, offs, k, at);
    var n := |stk|;
    if code[k] == Plain(END) && n > 1 {
      assert Names(code, k, stk[n - 1], gss[k].open[n - 1].at);
      if stk[n - 1] != b { OpenersDistinct(code, k, stk[n - 1], b); }
    }
  }

  lemma {:induction false} OpenersDistinct(code: seq<Instr>, k: nat, a: nat, b: nat)
    requires k <= |code| && a < |Openers(code, k)| && b < |Openers(code, k)| && a != b
    ensures Openers(code, k)[a] != Openers(code, k)[b]
  {
    var m := |Openers(code, k - 1)|;
    if a < m && b < m {
      OpenersDistinct(code, k - 1, a, b);
    } else if a < m {
      OpenersBelow(code, k - 1, a);
    } else if b < m {
      OpenersBelow(code, k - 1, b);
    }
  }

  lemma BlocksKept(code: seq<Instr>, fns: seq<Fn>, gss: seq<Gs>, offs: seq<nat>, k: nat, stk: seq<nat>,
                   brAddr: seq<int>, height: seq<int>)
    requires Trace(code, fns, gss, offs) && k < |code| && StkOk(code, k, gss[k].open, stk)
    requires BlocksOk(code, gss, offs, k, brAddr, height)
    ensures BlocksOk(code, gss, offs, k + 1, BrAddrAfter(code[k], offs[k], offs[k + 1], stk, brAddr),
                     HeightAfter(code[k], gss[k].stkh, height))
  {
    var brAddr', height' := BrAddrAfter(code[k], offs[k], offs[k + 1], stk, brAddr), HeightAfter(code[k], gss[k].stkh,
                        height);
    forall b | 0 <= b < |brAddr'| ensures RowOk(code, gss, offs, k + 1, b, brAddr'[b], height'[b]) {
      if b < |brAddr| { RowKept(code, fns, gss, offs, k, stk, brAddr, height, b); }
    }
  }

  // ---------- output ----------

  lemma LiesLonger(out: seq<byte>, r: seq<byte>, p: nat, xs: seq<X>, end: nat)
    requires Lies(out, p, xs, end) && out <= r
    ensures Lies(r, p, xs, end)
  {
    assert r[p..end] == out[p..end];
  }

  lemma LiesIs(out: seq<byte>, p: nat, xs: seq<X>, bs: seq<byte>)
    requires AllWellFormedX(xs) && bs == Bytes(xs) && p + |bs| <= |out| && out[p..p + |bs|] == bs
    ensures Lies(out, p, xs, p + |bs|) && |bs| == Size(xs)
  {
  }

  lemma LiesBehind(out: seq<byte>, xs: seq<X>)
    requires AllWellFormedX(xs)
    ensures Lies(out + Bytes(xs), |out|, xs, |out| + Size(xs))
  {
    var bs := Bytes(xs);
    assert (out + bs)[|out|..|out| + |bs|] == bs;
    LiesIs(out + bs, |out|, xs, bs);
  }

  ghost predicate FixedLies(out: seq<byte>, locals: nat, start: int) {
    && Lies(out, 0, Prelude(locals, start), GOODRET)
    && Lies(out, GOODRET, Goodret(), TRAPRET) && Lies(out, TRAPRET, Trapret(), Codegen.START)
  }

  /** out holds the code of the first k tokens, behind the fixed part. */
  ghost predicate OutOk(code: seq<Instr>, fns: seq<Fn>, gss: seq<Gs>, offs: seq<nat>, fixed: seq<byte>, out: seq<byte>,
                      k: nat)
    requires Trace(code, fns, gss, offs) && k <= |code|
  {
    |out| == offs[k] && fixed <= out && forall j | 0 <= j < k :: TokenLies(code, fns, gss, offs, out, j)
  }

  lemma FixedKept(out: seq<byte>, r: seq<byte>, locals: nat, start: int)
    requires FixedLies(out, locals, start) && out <= r
    ensures FixedLies(r, locals, start)
  {
    LiesLonger(out, r, 0, Prelude(locals, start), GOODRET);
    LiesLonger(out, r, GOODRET, Goodret(), TRAPRET);
    LiesLonger(out, r, TRAPRET, Trapret(), Codegen.START);
  }

  lemma TokenKept(code: seq<Instr>, fns: seq<Fn>, gss: seq<Gs>, offs: seq<nat>, out: seq<byte>, r: seq<byte>, j: nat)
    requires Trace(code, fns, gss, offs) && TokenLies(code, fns, gss, offs, out, j) && out <= r
    ensures TokenLies(code, fns, gss, offs, r, j)
  {
    LiesLonger(out, r, offs[j], Emit(code[j], offs[j], InfoAt(code, fns, gss[j], offs, code[j])), offs[j + 1]);
  }

  lemma OutKept(code: seq<Instr>, fns: seq<Fn>, gss: seq<Gs>, offs: seq<nat>, fixed: seq<byte>, out: seq<byte>, k: nat,
                r: seq<byte>)
    requires Trace(code, fns, gss, offs) && k < |code| && OutOk(code, fns, gss, offs, fixed, out, k)
    requires out <= r && |r| == offs[k + 1] && TokenLies(code, fns, gss, offs, r, k)
    ensures OutOk(code, fns, gss, offs, fixed, r, k + 1)
  {
    forall j | 0 <= j < k + 1 ensures TokenLies(code, fns, gss, offs, r, j) {
      if j < k { TokenKept(code, fns, gss, offs, out, r, j); }
    }
  }

  lemma OutIsCompiled(code: seq<Instr>, fns: seq<Fn>, gss: seq<Gs>, offs: seq<nat>, fixed: seq<byte>, out: seq<byte>)
    requires Trace(code, fns, gss, offs) && OutOk(code, fns, gss, offs, fixed, out, |code|)
    requires FixedLies(fixed, |FnOf(fns, 0).locals|, Codegen.START)
    ensures Compiled(code, fns, gss, offs, out)
  {
    FixedKept(fixed, out, |FnOf(fns, 0).locals|, Codegen.START);
  }

  lemma SizeOf4(a: seq<X>, b: seq<X>, c: seq<X>, d: seq<X>)
    ensures Size(a + b + c + d) == Size(a) + Size(b) + Size(c) + Size(d)
  {
    SizeOfSum(a + b + c, d);
    SizeOfSum(a + b, c);
    SizeOfSum(a, b);
  }

  lemma SizeOfEnter()
    ensures Size(Enter()) == 6 && Size(SwitchStack()) == 6
  {
    Size5(Enter());
    Size3(SwitchStack());
  }

  lemma SizeOfStart(locals: nat, start: int)
    ensures Size(Arguments()) == 25 && Size(CallFirst(locals, start)) == 20
  {
    Size5(Arguments());
    Size5(CallFirst(locals, start));
  }

  lemma SizeOfPrelude(locals: nat, start: int)
    ensures Size(Prelude(locals, start)) == 57
  {
    SizeOf4(Enter(), Arguments(), SwitchStack(), CallFirst(locals, start));
    SizeOfEnter();
    SizeOfStart(locals, start);
  }

  lemma SizeOfExits()
    ensures Size(Leave()) == 5 && Size(Unwind()) == 10
  {
    Size5(Leave());
    Size3(Unwind()[1..]);
  }

  lemma SizeOfGoodret()
    ensures Size(Goodret()) == 9
  {
  }

  lemma SizeOfTrapEnd()
    ensures Size(Leave() + [MovRI(EAX, TWO32 - 1), RetFn]) == 11
  {
    SizeOfSum(Leave(), [MovRI(EAX, TWO32 - 1), RetFn]);
    SizeOfExits();
    Size2([MovRI(EAX, TWO32 - 1), RetFn]);
  }

  lemma SizeOfTrapret()
    ensures Size(Trapret()) == 28
  {
    var a, d := [MovRR(ESP, EBP), MovRI(EBX, GOODRET)], Leave() + [MovRI(EAX, TWO32 - 1), RetFn];
    SizeOfSum(a, Unwind() + d);
    SizeOfSum(Unwind(), d);
    SizeOfTrapEnd();
    SizeOfExits();
    Size2(a);
  }

  lemma FixedIsWellFormed(locals: nat, start: int)
    ensures AllWellFormedX(Prelude(locals, start)) && AllWellFormedX(Goodret()) && AllWellFormedX(Trapret())
  {
    assert AllWellFormedX(Enter()) && AllWellFormedX(Arguments()) && AllWellFormedX(SwitchStack());
    assert AllWellFormedX(CallFirst(locals, start)) && AllWellFormedX(Leave()) && AllWellFormedX(Unwind());
  }

  lemma ThreeLie(a: seq<X>, b: seq<X>, c: seq<X>, x: seq<byte>, y: seq<byte>, z: seq<byte>)
    requires AllWellFormedX(a) && AllWellFormedX(b) && AllWellFormedX(c)
    requires x == Bytes(a) && y == Bytes(b) && z == Bytes(c)
    ensures |x| == Size(a) && |y| == Size(b) && |z| == Size(c)
    ensures Lies(x + y + z, 0, a, |x|) && Lies(x + y + z, |x|, b, |x| + |y|)
         && Lies(x + y + z, |x| + |y|, c, |x| + |y| + |z|)
  {
    PartsOfSum(x, y, z);
    LiesIs(x + y + z, 0, a, x);
    LiesIs(x + y + z, |x|, b, y);
    LiesIs(x + y + z, |x| + |y|, c, z);
  }

  /** The code before the first token. */
  method WriteFixed(locals: nat, start: int) returns (r: seq<byte>)
    ensures |r| == Codegen.START && FixedLies(r, locals, start)
  {
    FixedIsWellFormed(locals, start);
    var x, y, z := Bytes(Prelude(locals, start)), Bytes(Goodret()), Bytes(Trapret());
    ThreeLie(Prelude(locals, start), Goodret(), Trapret(), x, y, z);
    SizeOfPrelude(locals, start);
    SizeOfGoodret();
    SizeOfTrapret();
    r := x + y + z;
  }

  /** The code of token k, behind the code of the tokens before it. */
  method WriteToken(code: seq<Instr>, fns: seq<Fn>, k: nat, n: Info, out: seq<byte>, ghost gss: seq<Gs>,
                    ghost offs: seq<nat>) returns (r: seq<byte>)
    requires Trace(code, fns, gss, offs) && k < |code| && |out| == offs[k]
    requires n.fn == FnOf(fns, gss[k].fn) && n.inner == (|gss[k].open| > 1) && n.callee == Callee(fns, code[k])
    ensures |r| == offs[k + 1] && out <= r
    ensures Lies(r, offs[k], Emit(code[k], offs[k], n), offs[k + 1])
  {
    assert GStepsTo(code, fns, gss, offs, k);
    var xs := Emit(code[k], |out|, n);
    SizeOfEmit(code[k], |out|, n);
    EmitIsWellFormed(code[k], |out|, n);
    LiesBehind(out, xs);
    r := out + Bytes(xs);
  }

  lemma TokenWritten(code: seq<Instr>, fns: seq<Fn>, k: nat, n: Info, r: seq<byte>, gss: seq<Gs>, offs: seq<nat>)
    requires Trace(code, fns, gss, offs) && k < |code| && Placed(fns, gss[k], code[k])
    requires n == InfoAt(code, fns, gss[k], offs, code[k]) && Lies(r, offs[k], Emit(code[k], offs[k], n), offs[k + 1])
    ensures TokenLies(code, fns, gss, offs, r, k)
  {
  }

  // ---------- the two passes ----------

  class Asm {
    var out: seq<byte>
    var startAddr: int
    var fnAddr: seq<int>
    var brAddr: seq<int>
    var height: seq<int>
    var stk: seq<nat>
    var curFn: int
    var curBlk: int
    var stkh: int

    constructor ()
      ensures startAddr == 0 && fnAddr == [] && brAddr == [] && height == []
    {
      out, startAddr, fnAddr, brAddr, height, stk := [], 0, [], [], [], [];
      curFn, curBlk, stkh := -1, -1, 0;
    }

    /** The scanning state agrees with the trace. */
    ghost predicate Tracks(code: seq<Instr>, gss: seq<Gs>, k: nat)
      requires |gss| == |code| + 1 && k <= |code|
      reads this
    {
      && stkh == gss[k].stkh && curFn == gss[k].fn && curBlk + 1 == |Openers(code, k)|
      && StkOk(code, k, gss[k].open, stk)
    }

    /** What the code of token k depends on, from the tables as they stand; t says how much of the program they cover.
        */
    method Gather(code: seq<Instr>, fns: seq<Fn>, k: nat, ghost gss: seq<Gs>, ghost offs: seq<nat>, ghost t: nat,
                  ghost final: bool) returns (n: Info)
      requires Trace(code, fns, gss, offs) && k < |code| && Placed(fns, gss[k], code[k]) && Tracks(code, gss, k)
      requires k <= t <= |code| && BlocksOk(code, gss, offs, t, brAddr, height)
      requires final ==> t == |code| && FnsOk(fns, offs, |fns|, fnAddr)
      ensures n.fn == FnOf(fns, gss[k].fn) && n.height == gss[k].stkh && n.drop == Drop(gss[k])
      ensures n.inner == (|gss[k].open| > 1) && n.callee == Callee(fns, code[k])
      ensures final ==> n == InfoAt(code, fns, gss[k], offs, code[k])
    {
      var i := code[k];
      var h := |stk|;
      var drop, addr := 0, 0;
      if h > 1 {
        RowOfOpen(code, fns, gss, offs, k, stk, t, brAddr, height, h - 1);
        RowOfOpen(code, fns, gss, offs, k, stk, t, brAddr, height, h - 2);
        drop := height[stk[h - 1]] - height[stk[h - 2]];
      }
      if i.Imm? && (i.op == BR || i.op == BR_IF) {
        var j := h - 1 - i.v;
        RowOfOpen(code, fns, gss, offs, k, stk, t, brAddr, height, j);
        OpenBlocks(code, fns, gss, offs, k, j);
        FinalAddr(code, offs, gss[k].open[j].at);
        addr := brAddr[stk[j]];
      } else if i.Imm? && i.op == CALL {
        FnsAt(code, |code|, i.v);
        addr := if i.v < |fnAddr| then fnAddr[i.v] else 0;
      }
      n := Info(FnOf(fns, curFn), stkh, drop, h > 1, Callee(fns, i), addr);
    }

    /** First pass: record what token k says about functions and blocks. */
    method Record(code: seq<Instr>, fns: seq<Fn>, k: nat, off: nat, ghost gss: seq<Gs>, ghost offs: seq<nat>)
      requires Trace(code, fns, gss, offs) && k < |code| && Tracks(code, gss, k) && off == offs[k]
            && |out| == offs[k + 1]
      requires BlocksOk(code, gss, offs, k, brAddr, height) && FnsOk(fns, offs, gss[k].fn + 1, fnAddr)
      modifies `fnAddr, `brAddr, `height
      ensures BlocksOk(code, gss, offs, k + 1, brAddr, height) && FnsOk(fns, offs, gss[k + 1].fn + 1, fnAddr)
    {
      assert GStepsTo(code, fns, gss, offs, k);
      BlocksKept(code, fns, gss, offs, k, stk, brAddr, height);
      brAddr, height := BrAddrAfter(code[k], off, |out|, stk, brAddr), HeightAfter(code[k], stkh, height);
      if code[k].Decl? {
        DeclaredAt(code, fns, gss, offs, k);
        fnAddr := fnAddr + [off];
      }
    }

    /** The operand count after token k. */
    method Count(code: seq<Instr>, fns: seq<Fn>, k: nat, ghost gss: seq<Gs>, ghost offs: seq<nat>, ghost t: nat)
      returns (r: int)
      requires Trace(code, fns, gss, offs) && k < |code| && Tracks(code, gss, k)
      requires k <= t <= |code| && BlocksOk(code, gss, offs, t, brAddr, height)
      ensures r == gss[k + 1].stkh
    {
      var i := code[k];
      assert GStepsTo(code, fns, gss, offs, k);
      r := stkh;
      if i == Plain(END) {
        if |stk| > 1 {
          RowOfOpen(code, fns, gss, offs, k, stk, t, brAddr, height, |stk| - 2);
          r := height[stk[|stk| - 2]];
        }
      } else if !IsOpener(i) {
        r := stkh + Delta(i, FnOf(fns, curFn), Callee(fns, i));
      }
    }

    /** Move past token k. */
    method Move(code: seq<Instr>, fns: seq<Fn>, k: nat, ghost gss: seq<Gs>, ghost offs: seq<nat>, ghost t: nat)
      requires Trace(code, fns, gss, offs) && k < |code| && Tracks(code, gss, k)
      requires k <= t <= |code| && BlocksOk(code, gss, offs, t, brAddr, height)
      modifies `stk, `curFn, `curBlk, `stkh
      ensures Tracks(code, gss, k + 1)
    {
      var i := code[k];
      assert GStepsTo(code, fns, gss, offs, k);
      StkKept(code, fns, gss, offs, k, stk);
      stkh := Count(code, fns, k, gss, offs, t);
      if IsOpener(i) { curBlk := curBlk + 1; }
      stk := StkAfter(i, if IsOpener(i) then curBlk else 0, stk);
      if i.Decl? { curFn := curFn + 1; }
    }

    /** Before token k of a pass: the tables cover what has been read, or everything in the second pass. */
    ghost predicate Stage(code: seq<Instr>, fns: seq<Fn>, genInfo: bool, k: nat, gss: seq<Gs>, offs: seq<nat>,
                        fixed: seq<byte>)
      requires Trace(code, fns, gss, offs) && k <= |code|
      reads this
    {
      && Tracks(code, gss, k) && |out| == offs[k]
      && BlocksOk(code, gss, offs, if genInfo then k else |code|, brAddr, height)
      && FnsOk(fns, offs, if genInfo then gss[k].fn + 1 else |fns|, fnAddr)
      && (genInfo || OutOk(code, fns, gss, offs, fixed, out, k))
    }

    /** One turn of the loop. */
    method Token(code: seq<Instr>, fns: seq<Fn>, genInfo: bool, k: nat, ghost gss: seq<Gs>, ghost offs: seq<nat>,
                 ghost fixed: seq<byte>)
      requires Trace(code, fns, gss, offs) && k < |code| && Stage(code, fns, genInfo, k, gss, offs, fixed)
      modifies `out, `fnAddr, `brAddr, `height, `stk, `curFn, `curBlk, `stkh
      ensures Stage(code, fns, genInfo, k + 1, gss, offs, fixed)
    {
      assert GStepsTo(code, fns, gss, offs, k);
      var off := |out|;
      var n := Gather(code, fns, k, gss, offs, if genInfo then k else |code|, !genInfo);
      var r := WriteToken(code, fns, k, n, out, gss, offs);
      if !genInfo {
        TokenWritten(code, fns, k, n, r, gss, offs);
        OutKept(code, fns, gss, offs, fixed, out, k, r);
      }
      out := r;
      if genInfo { Record(code, fns, k, off, gss, offs); }
      Move(code, fns, k, gss, offs, if genInfo then k + 1 else |code|);
    }

    /** The tokens, one by one. */
    method Tokens(code: seq<Instr>, fns: seq<Fn>, genInfo: bool, ghost gss: seq<Gs>, ghost offs: seq<nat>,
                  ghost fixed: seq<byte>)
      requires Trace(code, fns, gss, offs) && Stage(code, fns, genInfo, 0, gss, offs, fixed)
      modifies `out, `fnAddr, `brAddr, `height, `stk, `curFn, `curBlk, `stkh
      ensures Stage(code, fns, genInfo, |code|, gss, offs, fixed)
    {
      var k := 0;
      while k < |code|
        invariant k <= |code| && Stage(code, fns, genInfo, k, gss, offs, fixed)
      {
        Token(code, fns, genInfo, k, gss, offs, fixed);
        k := k + 1;
      }
    }

    /** One pass over the program, behind the fixed code. */
    method Populate(code: seq<Instr>, fns: seq<Fn>, genInfo: bool, fixed: seq<byte>, ghost gss: seq<Gs>,
                    ghost offs: seq<nat>)
      requires Trace(code, fns, gss, offs) && |fixed| == Codegen.START
      requires genInfo ==> brAddr == [] && height == [] && fnAddr == []
      requires !genInfo ==> BlocksOk(code, gss, offs, |code|, brAddr, height) && FnsOk(fns, offs, |fns|, fnAddr)
      modifies this
      ensures startAddr == Codegen.START && Stage(code, fns, genInfo, |code|, gss, offs, fixed)
    {
      stk, curFn, curBlk, stkh := [], -1, -1, 0;
      out := fixed;
      startAddr := |out|;
      Tokens(code, fns, genInfo, gss, offs, fixed);
    }
  }

  /** to_asm: the second pass leaves the program's translation. */
  method ToAsm(code: seq<Instr>, fns: seq<Fn>, ghost gss: seq<Gs>, ghost offs: seq<nat>) returns (res: seq<byte>)
    requires Trace(code, fns, gss, offs)
    ensures Compiled(code, fns, gss, offs, res)
  {
    var asm := new Asm();
    var fixed := WriteFixed(|FnOf(fns, 0).locals|, asm.startAddr);
    asm.Populate(code, fns, true, fixed, gss, offs);
    DeclNumber(code, fns, gss, offs, |code|);
    fixed := WriteFixed(|FnOf(fns, 0).locals|, asm.startAddr);
    asm.Populate(code, fns, false, fixed, gss, offs);
    res := asm.out;
    OutIsCompiled(code, fns, gss, offs, fixed, res);
  }
}
