/** Completeness of the verifier: what it rejects, and that it accepts every program whose instructions can be given
    operand types that make no step stuck. */
module Completeness {
  import opened Words
  import opened Sume
  import opened StackMachine
  import opened Typing
  import opened Soundness

  // ---------- frames of the recorded types ----------

  ghost predicate LabelFits(code: seq<Instr>, vs: VState, j: nat, l: Label) {
    l.at < |code| && j < |vs.frames| && l.height == |Flatten(vs.frames[..j + 1])|
  }

  /** Frame f is at instruction k with operands, variables and open blocks of exactly the types of vs. */
  ghost predicate Fits(code: seq<Instr>, fns: seq<Fn>, vs: VState, k: nat, f: Frame) {
    && f.pc == k && vs.fn == f.fn < |fns| && vs.frames != [] && |f.labels| == |vs.frames| - 1
    && Types(f.stack) == Flatten(vs.frames) && Types(f.vars) == fns[f.fn].params + fns[f.fn].locals
    && forall j | 0 <= j < |f.labels| :: LabelFits(code, vs, j, f.labels[j])
  }

  lemma TopFits(code: seq<Instr>, fns: seq<Fn>, vs: VState, k: nat, f: Frame)
    requires Fits(code, fns, vs, k, f)
    ensures |f.stack| == Floor(f) + |Last(vs)|
    ensures forall i | 0 <= i < |Last(vs)| :: i < |f.stack| && Peek(f, i).ty == Last(vs)[|Last(vs)| - 1 - i]
  {
    var m := |vs.frames| - 1;
    assert Types(f.stack) == Flatten(vs.frames[..m]) + Last(vs);
    if m > 0 { assert LabelFits(code, vs, m - 1, f.labels[m - 1]); }
    assert |f.stack| == |Types(f.stack)|;
    forall i | 0 <= i < |Last(vs)| ensures i < |f.stack| && Peek(f, i).ty == Last(vs)[|Last(vs)| - 1 - i] {
      assert Types(f.stack)[|f.stack| - 1 - i] == Peek(f, i).ty;
    }
  }

  lemma IntsAre(f: Frame)
    ensures Ints(f, 1) <==> Has(f, 1) && Peek(f, 0).ty == INT_T
    ensures Ints(f, 2) <==> Has(f, 2) && Peek(f, 0).ty == INT_T && Peek(f, 1).ty == INT_T
  {
  }

  /** There are ints on top of the innermost block's operands if and only if their types end in ints. */
  lemma TopInts(code: seq<Instr>, fns: seq<Fn>, vs: VState, k: nat, f: Frame)
    requires Fits(code, fns, vs, k, f)
    ensures Ints(f, 1) <==> Ends(Last(vs), [INT_T])
    ensures Ints(f, 2) <==> Ends(Last(vs), [INT_T, INT_T])
  {
    TopFits(code, fns, vs, k, f);
    IntsAre(f);
    EndsInInts(Last(vs));
  }

  /** The record with n types of the innermost list replaced by ts, without regard to the limit. */
  function After(vs: VState, n: nat, ts: seq<Ty>): VState
    requires vs.frames != [] && n <= |Last(vs)|
  {
    vs.(frames := vs.frames[..|vs.frames| - 1] + [Last(vs)[..|Last(vs)| - n] + ts])
  }

  lemma LabelsFit(code: seq<Instr>, vs: VState, vs': VState, labels: seq<Label>)
    requires forall j | 0 <= j < |labels| :: LabelFits(code, vs, j, labels[j])
    requires |labels| <= |vs'.frames| && |labels| <= |vs.frames| && vs'.frames[..|labels|] == vs.frames[..|labels|]
    ensures forall j | 0 <= j < |labels| :: LabelFits(code, vs', j, labels[j])
  {
    forall j | 0 <= j < |labels| ensures LabelFits(code, vs', j, labels[j]) {
      assert LabelFits(code, vs, j, labels[j]);
      assert vs'.frames[..j + 1] == vs'.frames[..|labels|][..j + 1] == vs.frames[..j + 1];
    }
  }

  lemma PutFits(code: seq<Instr>, fns: seq<Fn>, vs: VState, k: nat, f: Frame, n: nat, vals: seq<Val>, vars: seq<Val>)
    requires Fits(code, fns, vs, k, f) && n <= |Last(vs)| && Types(vars) == Types(f.vars)
    ensures n <= |f.stack| && Fits(code, fns, After(vs, n, Types(vals)), k + 1, Put(f, n, vals).(vars := vars))
  {
    var m, last, vs' := |vs.frames| - 1, Last(vs), After(vs, n, Types(vals));
    var last' := last[..|last| - n] + Types(vals);
    assert vs'.frames[..m] == vs.frames[..m];
    assert Types(f.stack) == Flatten(vs.frames[..m]) + last;
    PutTypes(f, n, vals, [], Flatten(vs.frames[..m]), last);
    assert last' == last[..|last| - n] + (Types(vals) + []);
    FlattenLast(vs.frames[..m], last');
    assert Types(Put(f, n, vals).stack) + [] == Types(Put(f, n, vals).stack);
    LabelsFit(code, vs, vs', f.labels);
  }

  function Height(fs: seq<seq<Ty>>, j: nat): nat
    requires j < |fs|
  {
    |Flatten(fs[..j + 1])|
  }

  lemma {:induction false} FlattenUnique(a: seq<seq<Ty>>, b: seq<seq<Ty>>)
    requires |a| == |b| && Flatten(a) == Flatten(b)
    requires forall j | 0 <= j < |a| - 1 :: Height(a, j) == Height(b, j)
    ensures a == b
  {
    if a != [] {
      var n := |a| - 1;
      var x, y := a[..n], b[..n];
      assert |Flatten(x)| == |Flatten(y)| by { if n > 0 { assert Height(a, n - 1) == Height(b, n - 1); } }
      assert Flatten(x) == Flatten(a)[..|Flatten(x)|] == Flatten(y);
      assert a[n] == Flatten(a)[|Flatten(x)|..] == b[n];
      forall j | 0 <= j < n - 1 ensures Height(x, j) == Height(y, j) {
        assert x[..j + 1] == a[..j + 1] && y[..j + 1] == b[..j + 1] && Height(a, j) == Height(b, j);
      }
      FlattenUnique(x, y);
      assert a == x + [a[n]] && b == y + [b[n]];
    }
  }

  /** A frame fits one record only. */
  lemma FitsOne(code: seq<Instr>, fns: seq<Fn>, a: VState, b: VState, k: nat, f: Frame)
    requires Fits(code, fns, a, k, f) && Fits(code, fns, b, k, f)
    ensures a == b
  {
    forall j | 0 <= j < |a.frames| - 1 ensures Height(a.frames, j) == Height(b.frames, j) {
      assert LabelFits(code, a, j, f.labels[j]) && LabelFits(code, b, j, f.labels[j]);
    }
    FlattenUnique(a.frames, b.frames);
  }

  // ---------- the frame that goes on behind an instruction ----------

  /** After outcome o of a step of c, frame g is the one that goes on with the next instruction: at once, or when a
      callee has delivered `result`. */
  ghost predicate Falls(fns: seq<Fn>, c: Conf, o: Outcome, result: seq<Val>, g: Frame) {
    o.Next? &&
    if |o.conf.callers| == |c.callers| then g == o.conf.top && g.pc == c.top.pc + 1
    else
      && |o.conf.callers| == |c.callers| + 1 && o.conf.top.fn < |fns| && Types(result) == RetTypes(fns[o.conf.top.fn])
      && g == o.conf.callers[|c.callers|].(stack := o.conf.callers[|c.callers|].stack + result)
  }

  /** The record vs' is right for whatever goes on behind a step of c. */
  ghost predicate GoesOn(code: seq<Instr>, fns: seq<Fn>, k: nat, vs': VState, c: Conf) {
    forall result, g | Falls(fns, c, Step(code, fns, c), result, g) :: Fits(code, fns, vs', k + 1, g)
  }

  /** Some configuration of exactly the recorded types is stuck at k. */
  ghost predicate GetsStuck(code: seq<Instr>, fns: seq<Fn>, vs: VState, k: nat) {
    exists c: Conf :: Fits(code, fns, vs, k, c.top) && Step(code, fns, c) == Stuck
  }

  lemma OpenFits(code: seq<Instr>, fns: seq<Fn>, vs: VState, k: nat, f: Frame, g: Frame)
    requires Fits(code, fns, vs, k, f) && k < |code|
    requires g == f.(pc := k + 1, labels := f.labels + [Label(k, |f.stack|)])
    ensures Fits(code, fns, vs.(frames := vs.frames + [[]]), k + 1, g)
  {
    var vs' := vs.(frames := vs.frames + [[]]);
    FlattenLast(vs.frames, []);
    assert |f.stack| == |Types(f.stack)|;
    assert vs'.frames[..|f.labels| + 1] == vs.frames && vs'.frames[..|f.labels|] == vs.frames[..|f.labels|];
    LabelsFit(code, vs, vs', f.labels);
    assert LabelFits(code, vs', |f.labels|, g.labels[|f.labels|]);
  }

  lemma CloseFits(code: seq<Instr>, fns: seq<Fn>, vs: VState, k: nat, f: Frame, g: Frame)
    requires Fits(code, fns, vs, k, f) && f.labels != [] && Floor(f) <= |f.stack|
    requires g == f.(pc := k + 1, stack := f.stack[..Floor(f)], labels := f.labels[..|f.labels| - 1])
    ensures Fits(code, fns, vs.(frames := vs.frames[..|vs.frames| - 1]), k + 1, g)
  {
    var m, vs' := |f.labels| - 1, vs.(frames := vs.frames[..|vs.frames| - 1]);
    assert LabelFits(code, vs, m, f.labels[m]);
    assert vs'.frames == vs.frames[..m + 1] && vs'.frames[..m] == vs.frames[..m];
    assert Types(g.stack) == Flatten(vs'.frames) by {
      assert Types(f.stack) == Flatten(vs.frames[..m + 1]) + Last(vs);
      assert forall i | 0 <= i < Floor(f) :: Types(g.stack)[i] == Types(f.stack)[i];
    }
    LabelsFit(code, vs, vs', g.labels);
  }

  // ---------- a configuration of given types ----------

  ghost predicate InFn(fns: seq<Fn>, vs: VState) {
    vs.frames != [] && 0 <= vs.fn < |fns|
  }

  ghost function Vals(ts: seq<Ty>, w: word): (r: seq<Val>)
    ensures Types(r) == ts && |r| == |ts| && forall i | 0 <= i < |r| :: r[i].w == w
  {
    seq(|ts|, i requires 0 <= i < |ts| => Val(ts[i], w))
  }

  ghost function Marks(vs: VState, k: nat): (r: seq<Label>)
    requires vs.frames != []
    ensures |r| == |vs.frames| - 1 && forall j | 0 <= j < |r| :: r[j] == Label(k, Height(vs.frames, j))
  {
    seq(|vs.frames| - 1, j requires 0 <= j < |vs.frames| - 1 => Label(k, Height(vs.frames, j)))
  }

  /** Every operand and variable holds w; the heap has a few bytes. */
  ghost function Sample(fns: seq<Fn>, vs: VState, k: nat, w: word): Conf
    requires InFn(fns, vs)
  {
    var fn := fns[vs.fn];
    Conf(Frame(vs.fn, k, Vals(fn.params + fn.locals, w), Vals(Flatten(vs.frames), w), Marks(vs, k)), [],
         seq(16, i requires 0 <= i < 16 => 0))
  }

  lemma SampleFits(code: seq<Instr>, fns: seq<Fn>, vs: VState, k: nat, w: word)
    requires InFn(fns, vs) && k < |code|
    ensures Fits(code, fns, vs, k, Sample(fns, vs, k, w).top)
  {
    var f := Sample(fns, vs, k, w).top;
    forall j | 0 <= j < |f.labels| ensures LabelFits(code, vs, j, f.labels[j]) {}
  }

  // ---------- what the verifier decides ----------

  ghost predicate Within(vs: VState) {
    |Flatten(vs.frames)| <= STACK_MAX && |vs.frames| <= FRAME_MAX
  }

  /** Frame g goes on behind a step of a configuration of the recorded types, and the verifier goes on with the types
      of g, or rejects because they are beyond a limit. */
  ghost predicate Judged(code: seq<Instr>, fns: seq<Fn>, vs: VState, k: nat, rf: int, c: Conf, result: seq<Val>,
                         g: Frame, vs': VState) {
    && k < |code| && Fits(code, fns, vs, k, c.top) && Falls(fns, c, Step(code, fns, c), result, g)
    && Fits(code, fns, vs', k + 1, g)
    && (VStep(code, fns, vs, k, rf) == Some(vs') || (VStep(code, fns, vs, k, rf).None? && !Within(vs')))
  }

  lemma ReplaceIs(vs: VState, n: nat, ts: seq<Ty>)
    requires vs.frames != [] && n <= |Last(vs)|
    ensures Replace(vs, n, ts) == Some(After(vs, n, ts)) || (Replace(vs, n, ts).None? && !Within(After(vs, n, ts)))
  {
    var m := |vs.frames| - 1;
    FlattenLast(vs.frames[..m], Last(vs)[..|Last(vs)| - n] + ts);
  }

  lemma ArithJudged(code: seq<Instr>, fns: seq<Fn>, vs: VState, k: nat, rf: int, op: byte) returns (g: Frame)
    requires InFn(fns, vs) && k < |code| && code[k] == Plain(op) && IsArith(op)
    ensures GetsStuck(code, fns, vs, k) ||
            (Taken(op) <= |Last(vs)| &&
             Judged(code, fns, vs, k, rf, Sample(fns, vs, k, 1), [], g, After(vs, Taken(op), [INT_T])))
  {
    var c := Sample(fns, vs, k, 1);
    g := c.top;
    SampleFits(code, fns, vs, k, 1);
    TopInts(code, fns, vs, k, c.top);
    if Step(code, fns, c) != Stuck {
      TopFits(code, fns, vs, k, c.top);
      ArithAsks(code, fns, vs, k, rf, op);
      ReplaceIs(vs, Taken(op), [INT_T]);
      var w := ArithSample(code, fns, c, op);
      g := Put(c.top, Taken(op), [Int(w)]);
      OneInt(Int(w));
      PutFits(code, fns, vs, k, c.top, Taken(op), [Int(w)], c.top.vars);
    }
  }

  /** What the verifier asks of an arithmetic instruction. */
  lemma ArithAsks(code: seq<Instr>, fns: seq<Fn>, vs: VState, k: nat, rf: int, op: byte)
    requires InFn(fns, vs) && k < |code| && code[k] == Plain(op) && IsArith(op)
    requires Taken(op) == 1 ==> Ends(Last(vs), [INT_T])
    requires Taken(op) == 2 ==> Ends(Last(vs), [INT_T, INT_T])
    ensures Taken(op) <= |Last(vs)| && VStep(code, fns, vs, k, rf) == Replace(vs, Taken(op), [INT_T])
  {
    if IsBinary(op) || IsCompare(op) { TakesTwo(op); }
  }

  /** An arithmetic instruction on ones goes on. */
  lemma ArithSample(code: seq<Instr>, fns: seq<Fn>, c: Conf, op: byte) returns (w: word)
    requires c.top.pc < |code| && code[c.top.pc] == Plain(op) && IsArith(op) && |c.heap| == 16
    requires forall i | 0 <= i < |c.top.stack| :: c.top.stack[i].w == 1
    requires Step(code, fns, c) != Stuck && Has(c.top, 0)
    ensures Ints(c.top, Taken(op)) && Step(code, fns, c) == Next(c.(top := Put(c.top, Taken(op), [Int(w)])))
  {
    var o := Step(code, fns, c);
    ArithSteps(code, fns, c, op);
    w := o.conf.top.stack[|o.conf.top.stack| - 1].w;
  }

  lemma StoreJudged(code: seq<Instr>, fns: seq<Fn>, vs: VState, k: nat, rf: int, op: byte) returns (g: Frame)
    requires InFn(fns, vs) && k < |code| && code[k] == Plain(op) && IsStore(op)
    ensures GetsStuck(code, fns, vs, k) ||
            (2 <= |Last(vs)| && Judged(code, fns, vs, k, rf, Sample(fns, vs, k, 1), [], g, After(vs, 2, [])))
  {
    var c := Sample(fns, vs, k, 1);
    g := c.top;
    SampleFits(code, fns, vs, k, 1);
    TopFits(code, fns, vs, k, c.top);
    if Step(code, fns, c) != Stuck {
      assert Peek(c.top, 1).ty == Last(vs)[|Last(vs)| - 2];
      ReplaceIs(vs, 2, []);
      g := Put(c.top, 2, []);
      assert Types([]) == [];
      PutFits(code, fns, vs, k, c.top, 2, [], c.top.vars);
    }
  }

  lemma BlockJudged(code: seq<Instr>, fns: seq<Fn>, vs: VState, k: nat, rf: int) returns (g: Frame)
    requires InFn(fns, vs) && k < |code| && Opens(code[k])
    ensures |vs.frames| > FRAME_MAX ||
            Judged(code, fns, vs, k, rf, Sample(fns, vs, k, 1), [], g, vs.(frames := vs.frames + [[]]))
  {
    var c := Sample(fns, vs, k, 1);
    SampleFits(code, fns, vs, k, 1);
    g := c.top.(pc := k + 1, labels := c.top.labels + [Label(k, |c.top.stack|)]);
    OpenFits(code, fns, vs, k, c.top, g);
  }

  lemma EndJudged(code: seq<Instr>, fns: seq<Fn>, vs: VState, k: nat, rf: int) returns (g: Frame)
    requires InFn(fns, vs) && k < |code| && code[k] == Plain(END) && |vs.frames| > 1
    ensures Judged(code, fns, vs, k, rf, Sample(fns, vs, k, 1), [], g, vs.(frames := vs.frames[..|vs.frames| - 1]))
  {
    var c := Sample(fns, vs, k, 1);
    SampleFits(code, fns, vs, k, 1);
    TopFits(code, fns, vs, k, c.top);
    var f := c.top;
    g := f.(pc := k + 1, stack := f.stack[..Floor(f)], labels := f.labels[..|f.labels| - 1]);
    CloseFits(code, fns, vs, k, f, g);
  }

  // ---------- immediates ----------

  lemma VarTypes(fn: Fn, vars: seq<Val>, v: word)
    requires Types(vars) == fn.params + fn.locals
    ensures LocalTy(fn, v) == if v < |vars| then Some(vars[v].ty) else None
  {
    assert |vars| == |Types(vars)|;
    if v < |vars| { assert Types(vars)[v] == vars[v].ty; }
  }

  lemma PushJudged(code: seq<Instr>, fns: seq<Fn>, vs: VState, k: nat, rf: int, v: word, x: Val) returns (g: Frame)
    requires InFn(fns, vs) && k < |code|
    requires (code[k] == Imm(I_CONST, v) && x == Int(v)) ||
             (code[k] == Imm(GET_L, v) && v < |Sample(fns, vs, k, 1).top.vars|
              && x == Sample(fns, vs, k, 1).top.vars[v])
    ensures Judged(code, fns, vs, k, rf, Sample(fns, vs, k, 1), [], g, After(vs, 0, [x.ty]))
  {
    var c := Sample(fns, vs, k, 1);
    SampleFits(code, fns, vs, k, 1);
    VarTypes(fns[vs.fn], c.top.vars, v);
    ReplaceIs(vs, 0, [x.ty]);
    g := Put(c.top, 0, [x]);
    assert Types([x]) == [x.ty];
    PutFits(code, fns, vs, k, c.top, 0, [x], c.top.vars);
  }

  lemma SetJudged(code: seq<Instr>, fns: seq<Fn>, vs: VState, k: nat, rf: int, v: word) returns (g: Frame)
    requires InFn(fns, vs) && k < |code| && code[k] == Imm(SET_L, v)
    ensures GetsStuck(code, fns, vs, k) ||
            (1 <= |Last(vs)| && Judged(code, fns, vs, k, rf, Sample(fns, vs, k, 1), [], g, After(vs, 1, [])))
  {
    var c := Sample(fns, vs, k, 1);
    g := c.top;
    SampleFits(code, fns, vs, k, 1);
    TopFits(code, fns, vs, k, c.top);
    VarTypes(fns[vs.fn], c.top.vars, v);
    if Step(code, fns, c) != Stuck {
      assert Peek(c.top, 0).ty == Last(vs)[|Last(vs)| - 1];
      ReplaceIs(vs, 1, []);
      var vars := c.top.vars[v := Peek(c.top, 0)];
      g := Put(c.top, 1, []).(vars := vars);
      assert Types([]) == [] && Types(vars) == Types(c.top.vars);
      PutFits(code, fns, vs, k, c.top, 1, [], vars);
    }
  }

  lemma BrIfJudged(code: seq<Instr>, fns: seq<Fn>, vs: VState, k: nat, rf: int, v: word) returns (g: Frame)
    requires InFn(fns, vs) && k < |code| && code[k] == Imm(BR_IF, v)
    ensures GetsStuck(code, fns, vs, k) ||
            (1 <= |Last(vs)| && Judged(code, fns, vs, k, rf, Sample(fns, vs, k, 0), [], g, After(vs, 1, [])))
  {
    var c, d := Sample(fns, vs, k, 0), Sample(fns, vs, k, 1);
    g := c.top;
    SampleFits(code, fns, vs, k, 0);
    SampleFits(code, fns, vs, k, 1);
    TopInts(code, fns, vs, k, c.top);
    TopInts(code, fns, vs, k, d.top);
    if Step(code, fns, c) != Stuck && Step(code, fns, d) != Stuck {
      ReplaceIs(vs, 1, []);
      g := Put(c.top, 1, []);
      assert Types([]) == [];
      PutFits(code, fns, vs, k, c.top, 1, [], c.top.vars);
    }
  }

  lemma ArgsEnd(code: seq<Instr>, fns: seq<Fn>, vs: VState, k: nat, f: Frame, ps: seq<Ty>, args: seq<Val>)
    requires Fits(code, fns, vs, k, f) && Has(f, |ps|) && args == f.stack[|f.stack| - |ps|..]
    ensures |ps| <= |Last(vs)| && (Ends(Last(vs), ps) <==> forall i | 0 <= i < |ps| :: args[i].ty == ps[i])
  {
    TopFits(code, fns, vs, k, f);
    var last, n := Last(vs), |ps|;
    var s := last[|last| - n..];
    forall i | 0 <= i < n ensures args[i].ty == s[i] {
      assert Peek(f, n - 1 - i) == args[i];
    }
    if forall i | 0 <= i < n :: args[i].ty == ps[i] {
      assert forall i | 0 <= i < n :: s[i] == ps[i];
      assert s == ps;
    }
  }

  lemma CallJudged(code: seq<Instr>, fns: seq<Fn>, vs: VState, k: nat, rf: int, v: word)
    returns (result: seq<Val>, g: Frame)
    requires InFn(fns, vs) && k < |code| && code[k] == Imm(CALL, v)
    ensures GetsStuck(code, fns, vs, k) ||
            (v < |fns| && |fns[v].params| <= |Last(vs)| &&
             Judged(code, fns, vs, k, rf, Sample(fns, vs, k, 1), result, g,
                    After(vs, |fns[v].params|, RetTypes(fns[v]))))
  {
    var c := Sample(fns, vs, k, 1);
    g, result := c.top, [];
    SampleFits(code, fns, vs, k, 1);
    TopFits(code, fns, vs, k, c.top);
    if Step(code, fns, c) != Stuck {
      var ps := fns[v].params;
      var args := c.top.stack[|c.top.stack| - |ps|..];
      ArgsEnd(code, fns, vs, k, c.top, ps, args);
      CallSteps(fns, c, v, args);
      ReplaceIs(vs, |ps|, RetTypes(fns[v]));
      result := Vals(RetTypes(fns[v]), 1);
      g := Put(c.top, |ps|, result);
      PutFits(code, fns, vs, k, c.top, |ps|, result, c.top.vars);
      assert Put(c.top, |ps|, []).stack + result == g.stack;
    }
  }

  // ---------- every instruction ----------

  /** Control does not go on behind these. */
  predicate Leaves(i: Instr) {
    i == Plain(TRAP) || i == Plain(RET) || (i.Imm? && i.op == BR)
  }

  predicate EndsFn(vs: VState, i: Instr) {
    i == Plain(END) && |vs.frames| == 1
  }

  lemma PlainJudged(code: seq<Instr>, fns: seq<Fn>, vs: VState, k: nat, rf: int, op: byte)
    returns (c: Conf, g: Frame, vs': VState)
    requires InFn(fns, vs) && k < |code| && code[k] == Plain(op) && |vs.frames| <= FRAME_MAX
    requires !Leaves(code[k]) && !EndsFn(vs, code[k])
    ensures GetsStuck(code, fns, vs, k) || Judged(code, fns, vs, k, rf, c, [], g, vs')
  {
    c, g, vs' := Sample(fns, vs, k, 1), Sample(fns, vs, k, 1).top, vs;
    if IsArith(op) {
      g := ArithJudged(code, fns, vs, k, rf, op);
      if !GetsStuck(code, fns, vs, k) { vs' := After(vs, Taken(op), [INT_T]); }
    } else if IsStore(op) {
      g := StoreJudged(code, fns, vs, k, rf, op);
      if !GetsStuck(code, fns, vs, k) { vs' := After(vs, 2, []); }
    } else if Opens(code[k]) {
      g := BlockJudged(code, fns, vs, k, rf);
      vs' := vs.(frames := vs.frames + [[]]);
    } else if op == END {
      g := EndJudged(code, fns, vs, k, rf);
      vs' := vs.(frames := vs.frames[..|vs.frames| - 1]);
    } else {
      SampleFits(code, fns, vs, k, 1);
      assert Step(code, fns, c) == Stuck;
    }
  }

  lemma ImmJudged(code: seq<Instr>, fns: seq<Fn>, vs: VState, k: nat, rf: int, op: byte, v: word)
    returns (c: Conf, result: seq<Val>, g: Frame, vs': VState)
    requires InFn(fns, vs) && k < |code| && code[k] == Imm(op, v) && !Leaves(code[k])
    ensures GetsStuck(code, fns, vs, k) || Judged(code, fns, vs, k, rf, c, result, g, vs')
  {
    c, result, g, vs' := Sample(fns, vs, k, 1), [], Sample(fns, vs, k, 1).top, vs;
    SampleFits(code, fns, vs, k, 1);
    if op == I_CONST {
      g := PushJudged(code, fns, vs, k, rf, v, Int(v));
      vs' := After(vs, 0, [INT_T]);
    } else if op == GET_L && v < |c.top.vars| {
      g := PushJudged(code, fns, vs, k, rf, v, c.top.vars[v]);
      vs' := After(vs, 0, [c.top.vars[v].ty]);
    } else if op == SET_L {
      g := SetJudged(code, fns, vs, k, rf, v);
      if !GetsStuck(code, fns, vs, k) { vs' := After(vs, 1, []); }
    } else if op == BR_IF {
      c := Sample(fns, vs, k, 0);
      g := BrIfJudged(code, fns, vs, k, rf, v);
      if !GetsStuck(code, fns, vs, k) { vs' := After(vs, 1, []); }
    } else if op == CALL {
      result, g := CallJudged(code, fns, vs, k, rf, v);
      if !GetsStuck(code, fns, vs, k) { vs' := After(vs, |fns[v].params|, RetTypes(fns[v])); }
    } else {
      assert Step(code, fns, c) == Stuck;
    }
  }

  lemma Judge(code: seq<Instr>, fns: seq<Fn>, vs: VState, k: nat, rf: int)
    returns (c: Conf, result: seq<Val>, g: Frame, vs': VState)
    requires InFn(fns, vs) && k < |code| && |vs.frames| <= FRAME_MAX
    requires !Leaves(code[k]) && !code[k].Decl? && !EndsFn(vs, code[k])
    ensures GetsStuck(code, fns, vs, k) || Judged(code, fns, vs, k, rf, c, result, g, vs')
  {
    match code[k]
    case Plain(op) =>
      result := [];
      c, g, vs' := PlainJudged(code, fns, vs, k, rf, op);
    case Imm(op, v) => c, result, g, vs' := ImmJudged(code, fns, vs, k, rf, op, v);
  }

  /** The function `ret` is compared with exists, and the record has the int it wants. */
  ghost predicate RetFits(fns: seq<Fn>, vs: VState, rf: int) {
    vs.frames != [] && 0 <= rf < |fns| && (fns[rf].rt ==> Ends(Last(vs), [INT_T]))
  }

  lemma LeavesJudged(code: seq<Instr>, fns: seq<Fn>, vs: VState, k: nat, rf: int)
    requires InFn(fns, vs) && k < |code| && Leaves(code[k]) && NextIsEnd(code, k)
    requires code[k] == Plain(RET) ==> RetFits(fns, vs, rf)
    ensures GetsStuck(code, fns, vs, k) || VStep(code, fns, vs, k, rf).Some?
  {
    SampleFits(code, fns, vs, k, 1);
    if code[k].Imm? && code[k].v >= |vs.frames| - 1 { assert Step(code, fns, Sample(fns, vs, k, 1)) == Stuck; }
  }

  /** The types behind some step of the recorded types are beyond a limit. */
  ghost predicate Overflows(code: seq<Instr>, fns: seq<Fn>, vs: VState, k: nat) {
    exists c: Conf, result, g, vs' ::
      && Fits(code, fns, vs, k, c.top) && Falls(fns, c, Step(code, fns, c), result, g)
      && Fits(code, fns, vs', k + 1, g) && !Within(vs')
  }

  /** Inside a function the verifier rejects an instruction only because it is a declaration, because `br`, `ret` or
      `trap` is not followed by `end`, because of the function `ret` is compared with, because the types behind the
      instruction are beyond a limit, or because a configuration of exactly the recorded types is stuck there. */
  lemma RejectsOnly(code: seq<Instr>, fns: seq<Fn>, vs: VState, k: nat, rf: int)
    requires InFn(fns, vs) && k < |code| && |vs.frames| <= FRAME_MAX && VStep(code, fns, vs, k, rf).None?
    ensures || code[k].Decl? || (Leaves(code[k]) && !NextIsEnd(code, k))
            || (code[k] == Plain(RET) && !RetFits(fns, vs, rf))
            || Overflows(code, fns, vs, k) || GetsStuck(code, fns, vs, k)
  {
    if code[k].Decl? {
    } else if Leaves(code[k]) {
      if NextIsEnd(code, k) && (code[k] == Plain(RET) ==> RetFits(fns, vs, rf)) {
        LeavesJudged(code, fns, vs, k, rf);
      }
    } else if !EndsFn(vs, code[k]) {
      var c, result, g, vs' := Judge(code, fns, vs, k, rf);
    }
  }
}
