/** Soundness of the verifier: in every run of an accepted program, operands have the types the verifier
    recorded, no pop reaches below the enclosing block, and every local, callee and branch index is valid. */
module Soundness {
  import opened Words
  import opened Sume
  import opened StackMachine
  import opened Typing

  ghost function Types(vals: seq<Val>): seq<Ty> {
    seq(|vals|, i requires 0 <= i < |vals| => vals[i].ty)
  }

  /** The j-th open block of a frame whose verifier state is vs. */
  ghost predicate LabelOk(code: seq<Instr>, vss: seq<VState>, vs: VState, j: nat, l: Label) {
    && l.at < |code| && |vss| == |code| + 1 && j < |vs.frames| && Opens(code[l.at])
    && vss[l.at] == VState(vs.frames[..j + 1], vs.fn)
    && l.height == |Flatten(vs.frames[..j + 1])|
  }

  /** Frame f agrees with the verifier's record at its pc, once a callee has delivered results of types pend. */
  ghost predicate FrameOk(code: seq<Instr>, fns: seq<Fn>, vss: seq<VState>, f: Frame, pend: seq<Ty>) {
    && f.pc <= |code| && |vss| == |code| + 1 && f.fn < |fns|
    && var vs := vss[f.pc];
    && vs.frames != [] && vs.fn == f.fn && |f.labels| == |vs.frames| - 1
    && Types(f.stack) + pend == Flatten(vs.frames) && |pend| <= |Last(vs)|
    && Types(f.vars) == fns[f.fn].params + fns[f.fn].locals
    && forall j | 0 <= j < |f.labels| :: LabelOk(code, vss, vs, j, f.labels[j])
  }

  /** The function whose result caller i waits for. */
  function CalleeOf(c: Conf, i: nat): nat
    requires i < |c.callers|
  {
    if i + 1 < |c.callers| then c.callers[i + 1].fn else c.top.fn
  }

  ghost predicate CallerOk(code: seq<Instr>, fns: seq<Fn>, vss: seq<VState>, c: Conf, i: nat)
    requires i < |c.callers|
  {
    CalleeOf(c, i) < |fns| && FrameOk(code, fns, vss, c.callers[i], RetTypes(fns[CalleeOf(c, i)]))
  }

  /** A configuration that agrees with the verifier; a top frame may have run off the end of the program. */
  ghost predicate ConfOk(code: seq<Instr>, fns: seq<Fn>, vss: seq<VState>, c: Conf) {
    && c.top.fn < |fns|
    && (c.top.pc > |code| || FrameOk(code, fns, vss, c.top, []))
    && forall i | 0 <= i < |c.callers| :: CallerOk(code, fns, vss, c, i)
  }

  lemma FlattenLast(fs: seq<seq<Ty>>, x: seq<Ty>)
    ensures Flatten(fs + [x]) == Flatten(fs) + x
  {
    assert (fs + [x])[..|fs|] == fs;
  }

  /** What FrameOk says about the operands of the innermost block. */
  lemma TopTypes(code: seq<Instr>, fns: seq<Fn>, vss: seq<VState>, f: Frame, n: nat)
    requires FrameOk(code, fns, vss, f, []) && n <= |Last(vss[f.pc])|
    ensures Has(f, n)
    ensures forall k | 0 <= k < |Last(vss[f.pc])| ::
          k < |f.stack| && Peek(f, k).ty == Last(vss[f.pc])[|Last(vss[f.pc])| - 1 - k]
    ensures |f.stack| == Floor(f) + |Last(vss[f.pc])|
  {
    var vs := vss[f.pc];
    var m := |vs.frames| - 1;
    assert Types(f.stack) == Flatten(vs.frames) == Flatten(vs.frames[..m]) + Last(vs);
    if m > 0 { assert LabelOk(code, vss, vs, m - 1, f.labels[m - 1]); }
    assert Floor(f) == |Flatten(vs.frames[..m])|;
    assert |f.stack| == |Types(f.stack)|;
    forall k | 0 <= k < |Last(vs)| ensures k < |f.stack| && Peek(f, k).ty == Last(vs)[|Last(vs)| - 1 - k] {
      assert Types(f.stack)[|f.stack| - 1 - k] == Peek(f, k).ty;
    }
  }

  /** Labels survive an instruction that leaves the enclosing lists alone. */
  lemma LabelsKept(code: seq<Instr>, vss: seq<VState>, vs: VState, vs': VState, labels: seq<Label>)
    requires forall j | 0 <= j < |labels| :: LabelOk(code, vss, vs, j, labels[j])
    requires |labels| <= |vs'.frames| && |labels| <= |vs.frames| && vs'.frames[..|labels|] == vs.frames[..|labels|]
    requires vs'.fn == vs.fn
    ensures forall j | 0 <= j < |labels| :: LabelOk(code, vss, vs', j, labels[j])
  {
    forall j | 0 <= j < |labels| ensures LabelOk(code, vss, vs', j, labels[j]) {
      assert LabelOk(code, vss, vs, j, labels[j]);
      assert vs'.frames[..j + 1] == vs'.frames[..|labels|][..j + 1] == vs.frames[..j + 1];
    }
  }

  lemma PutTypes(f: Frame, n: nat, vals: seq<Val>, pend: seq<Ty>, base: seq<Ty>, last: seq<Ty>)
    requires Types(f.stack) == base + last && n <= |last|
    ensures n <= |f.stack|
    ensures Types(Put(f, n, vals).stack) + pend == base + (last[..|last| - n] + (Types(vals) + pend))
  {
    assert |f.stack| == |Types(f.stack)|;
    var s, t := Put(f, n, vals).stack, base + (last[..|last| - n] + (Types(vals) + pend));
    assert |s| + |pend| == |t|;
    forall i | 0 <= i < |t| ensures (Types(s) + pend)[i] == t[i] {
      if i < |f.stack| - n { assert Types(f.stack)[i] == f.stack[i].ty; }
    }
  }

  /** Replacing n operands by vals, with results of types pend still to come, where the verifier replaced n
      types by those of vals and pend. */
  lemma PutOk(code: seq<Instr>, fns: seq<Fn>, vss: seq<VState>, f: Frame, n: nat, vals: seq<Val>, pend: seq<Ty>)
    requires FrameOk(code, fns, vss, f, []) && f.pc < |code| && n <= |Last(vss[f.pc])|
    requires Replace(vss[f.pc], n, Types(vals) + pend) == Some(vss[f.pc + 1])
    ensures n <= |f.stack| && FrameOk(code, fns, vss, Put(f, n, vals), pend)
  {
    var vs, vs' := vss[f.pc], vss[f.pc + 1];
    var m, last := |vs.frames| - 1, Last(vs);
    var last' := last[..|last| - n] + (Types(vals) + pend);
    assert vs'.frames == vs.frames[..m] + [last'];
    assert vs'.frames[..m] == vs.frames[..m];
    assert Types(f.stack) == Flatten(vs.frames[..m]) + last;
    PutTypes(f, n, vals, pend, Flatten(vs.frames[..m]), last);
    FlattenLast(vs.frames[..m], last');
    LabelsKept(code, vss, vs, vs', f.labels);
  }

  // ---------- functions ----------

  /** The verifier starts the body of function v with one empty list. */
  lemma EntryTyped(code: seq<Instr>, fns: seq<Fn>, rfs: seq<int>, vss: seq<VState>, v: nat)
    requires Accepts(code, fns, rfs, vss) && v < |fns|
    ensures fns[v].at + 1 <= |code| && vss[fns[v].at + 1] == VState([[]], v)
  {
    var a := fns[v].at;
    FnsAt(code, |code|, v);
    FnCount(code, fns, rfs, vss, a);
    assert VStepsAt(code, fns, rfs, vss, a);
  }

  lemma NewFrameOk(code: seq<Instr>, fns: seq<Fn>, rfs: seq<int>, vss: seq<VState>, v: nat, vars: seq<Val>)
    requires Accepts(code, fns, rfs, vss) && v < |fns| && Types(vars) == fns[v].params + fns[v].locals
    ensures FrameOk(code, fns, vss, Frame(v, fns[v].at + 1, vars, [], []), [])
  {
    EntryTyped(code, fns, rfs, vss, v);
    assert Flatten([[]]) == [] by { FlattenLast([], []); }
  }

  /** The start of a run agrees with the verifier. */
  lemma InitialOk(code: seq<Instr>, fns: seq<Fn>, rfs: seq<int>, vss: seq<VState>, c: Conf)
    requires Accepts(code, fns, rfs, vss) && Initial(code, fns, c)
    ensures ConfOk(code, fns, vss, c)
  {
    assert Types(c.top.vars) == fns[0].params + fns[0].locals;
    NewFrameOk(code, fns, rfs, vss, 0, c.top.vars);
  }

  // ---------- branches ----------

  lemma {:induction false} FlattenPrefix(fs: seq<seq<Ty>>, m: nat)
    requires m <= |fs|
    ensures Flatten(fs[..m]) <= Flatten(fs)
    decreases |fs| - m
  {
    if m < |fs| {
      FlattenPrefix(fs, m + 1);
      assert fs[..m + 1] == fs[..m] + [fs[m]];
      FlattenLast(fs[..m], fs[m]);
    } else {
      assert fs[..m] == fs;
    }
  }

  /** A branch to an open block lands where the verifier has the block's own record. */
  lemma BranchOk(code: seq<Instr>, fns: seq<Fn>, rfs: seq<int>, vss: seq<VState>, f: Frame, vs: VState, n: nat)
    requires Accepts(code, fns, rfs, vss) && f.fn < |fns| && vs.frames != [] && vs.fn == f.fn
    requires |f.labels| == |vs.frames| - 1 && Types(f.stack) == Flatten(vs.frames)
    requires Types(f.vars) == fns[f.fn].params + fns[f.fn].locals
    requires forall j | 0 <= j < |f.labels| :: LabelOk(code, vss, vs, j, f.labels[j])
    requires n < |vs.frames| - 1
    ensures var t := Branch(code, f, n);
            && t.Some? && t.value.fn == f.fn
            && (t.value.pc > |code| || FrameOk(code, fns, vss, t.value, []))
  {
    var j := |f.labels| - 1 - n;
    var l := f.labels[j];
    assert LabelOk(code, vss, vs, j, l);
    FlattenPrefix(vs.frames, j + 1);
    assert |f.stack| == |Types(f.stack)|;
    var t := Branch(code, f, n).value;
    var outer := vss[l.at];
    var inner := vss[l.at + 1];
    assert VStepsAt(code, fns, rfs, vss, l.at);
    StepShape(code, fns, outer, l.at, rfs[l.at], inner);
    assert Types(t.stack) == Flatten(outer.frames) by {
      assert forall i | 0 <= i < l.height :: Types(t.stack)[i] == Types(f.stack)[i];
    }
    if code[l.at] == Plain(LOOP) {
      FlattenLast(outer.frames, []);
      assert inner.frames[..j + 1] == outer.frames == vs.frames[..j + 1];
      LabelsKept(code, vss, vs, inner, f.labels[..j + 1]);
    } else {
      InsideBlock(code, fns, rfs, vss, outer, l.at + 1, 0);
      assert outer.frames[..j] == vs.frames[..j];
      LabelsKept(code, vss, vs, outer, f.labels[..j]);
    }
  }

  // ---------- steps ----------

  /** Not stuck, and whatever comes next agrees with the verifier. */
  ghost predicate Safe(code: seq<Instr>, fns: seq<Fn>, vss: seq<VState>, o: Outcome) {
    o != Stuck && (o.Next? ==> ConfOk(code, fns, vss, o.conf))
  }

  /** Only the top frame changed, and it is still the same function's. */
  lemma NewTopOk(code: seq<Instr>, fns: seq<Fn>, vss: seq<VState>, c: Conf, c': Conf)
    requires ConfOk(code, fns, vss, c) && c'.callers == c.callers && c'.top.fn == c.top.fn
    requires c'.top.pc > |code| || FrameOk(code, fns, vss, c'.top, [])
    ensures ConfOk(code, fns, vss, c')
  {
    forall i | 0 <= i < |c'.callers| ensures CallerOk(code, fns, vss, c', i) {
      assert CallerOk(code, fns, vss, c, i);
    }
  }

  /** The shared premise of the step lemmas: the verifier took instruction k = c.top.pc. */
  ghost predicate At(code: seq<Instr>, fns: seq<Fn>, rfs: seq<int>, vss: seq<VState>, c: Conf) {
    && Accepts(code, fns, rfs, vss) && ConfOk(code, fns, vss, c) && c.top.pc < |code|
    && VStepsTo(code, fns, vss[c.top.pc], c.top.pc, rfs[c.top.pc], vss[c.top.pc + 1])
  }

  lemma Replaced(code: seq<Instr>, fns: seq<Fn>, rfs: seq<int>, vss: seq<VState>, c: Conf, n: nat, vals: seq<Val>)
    requires At(code, fns, rfs, vss, c)
    requires n <= |Last(vss[c.top.pc])| && Replace(vss[c.top.pc], n, Types(vals)) == Some(vss[c.top.pc + 1])
    ensures n <= |c.top.stack|
    ensures forall h :: ConfOk(code, fns, vss, c.(top := Put(c.top, n, vals), heap := h))
  {
    assert Types(vals) + [] == Types(vals);
    PutOk(code, fns, vss, c.top, n, vals, []);
    forall h ensures ConfOk(code, fns, vss, c.(top := Put(c.top, n, vals), heap := h)) {
      NewTopOk(code, fns, vss, c, c.(top := Put(c.top, n, vals), heap := h));
    }
  }

  lemma OneInt(v: Val)
    requires v.ty == INT_T
    ensures Types([v]) == [INT_T]
  {
  }

  /** Operands an arithmetic instruction takes. */
  function Taken(op: byte): nat {
    if op == I_MEMSZ then 0 else if IsBinary(op) || IsCompare(op) then 2 else 1
  }

  predicate IsArith(op: byte) {
    IsUnary(op) || op == I_EQZ || IsBinary(op) || IsCompare(op) || IsLoad(op) || op == I_MEMSZ
  }

  /** What the verifier asks of an arithmetic instruction and what it leaves. */
  lemma ArithTyped(code: seq<Instr>, fns: seq<Fn>, vs: VState, k: nat, rf: int, vs': VState, op: byte)
    requires VStepsTo(code, fns, vs, k, rf, vs') && code[k] == Plain(op) && IsArith(op)
    ensures vs.frames != [] && Taken(op) <= |Last(vs)| && Replace(vs, Taken(op), [INT_T]) == Some(vs')
    ensures Taken(op) >= 1 ==> Last(vs)[|Last(vs)| - 1] == INT_T
    ensures Taken(op) >= 2 ==> Last(vs)[|Last(vs)| - 2] == INT_T
  {
    EndsInInts(Last(vs));
    if op == I_MEMSZ {
      assert !(IsUnary(op) || IsLoad(op) || IsBinary(op) || IsCompare(op));
    } else if IsBinary(op) || IsCompare(op) {
      TakesTwo(op);
    }
  }

  lemma TakesTwo(op: byte)
    requires IsBinary(op) || IsCompare(op)
    ensures Taken(op) == 2 && !(IsUnary(op) || op == I_EQZ || IsLoad(op))
  {
  }

  /** What it means to end in one int, or in two. */
  lemma EndsInInts(last: seq<Ty>)
    ensures Ends(last, [INT_T]) <==> |last| >= 1 && last[|last| - 1] == INT_T
    ensures Ends(last, [INT_T, INT_T]) <==> |last| >= 2 && last[|last| - 1] == INT_T && last[|last| - 2] == INT_T
  {
    if |last| >= 1 { EndsInOne(last, last[|last| - 1..]); }
    if |last| >= 2 { EndsInTwo(last, last[|last| - 2..]); }
  }

  lemma EndsInOne(last: seq<Ty>, s: seq<Ty>)
    requires |last| >= 1 && s == last[|last| - 1..]
    ensures s == [INT_T] <==> last[|last| - 1] == INT_T
  {
    assert |s| == 1 && s[0] == last[|last| - 1];
    if s[0] == INT_T { assert s == [INT_T]; }
  }

  lemma EndsInTwo(last: seq<Ty>, s: seq<Ty>)
    requires |last| >= 2 && s == last[|last| - 2..]
    ensures s == [INT_T, INT_T] <==> last[|last| - 1] == INT_T && last[|last| - 2] == INT_T
  {
    assert |s| == 2 && s[0] == last[|last| - 2] && s[1] == last[|last| - 1];
    if s[0] == INT_T && s[1] == INT_T { assert s == [INT_T, INT_T]; }
  }

  /** An arithmetic instruction with integer operands traps, runs off the heap, or leaves one integer for them. */
  lemma ArithSteps(code: seq<Instr>, fns: seq<Fn>, c: Conf, op: byte)
    requires c.top.pc < |code| && IsArith(op) && Ints(c.top, Taken(op))
    ensures var o := StepPlain(code, fns, c, op);
            o == Trapped || o == Wild || (o.Next? && exists w :: o.conf == c.(top := Put(c.top, Taken(op), [Int(w)])))
  {
  }

  lemma ArithSafe(code: seq<Instr>, fns: seq<Fn>, rfs: seq<int>, vss: seq<VState>, c: Conf, op: byte)
    requires At(code, fns, rfs, vss, c) && code[c.top.pc] == Plain(op) && IsArith(op)
    ensures Safe(code, fns, vss, StepPlain(code, fns, c, op))
  {
    var n := Taken(op);
    ArithTyped(code, fns, vss[c.top.pc], c.top.pc, rfs[c.top.pc], vss[c.top.pc + 1], op);
    TopTypes(code, fns, vss, c.top, n);
    ArithSteps(code, fns, c, op);
    var o := StepPlain(code, fns, c, op);
    if o.Next? {
      var w :| o.conf == c.(top := Put(c.top, n, [Int(w)]));
      OneInt(Int(w));
      Replaced(code, fns, rfs, vss, c, n, [Int(w)]);
    }
  }

  lemma StoreSafe(code: seq<Instr>, fns: seq<Fn>, rfs: seq<int>, vss: seq<VState>, c: Conf, op: byte)
    requires At(code, fns, rfs, vss, c) && code[c.top.pc] == Plain(op) && IsStore(op)
    ensures Safe(code, fns, vss, StepPlain(code, fns, c, op))
  {
    TopTypes(code, fns, vss, c.top, 2);
    assert Types([]) == [];
    Replaced(code, fns, rfs, vss, c, 2, []);
  }

  lemma BlockSafe(code: seq<Instr>, fns: seq<Fn>, rfs: seq<int>, vss: seq<VState>, c: Conf, op: byte)
    requires At(code, fns, rfs, vss, c) && code[c.top.pc] == Plain(op) && (op == BLOCK || op == LOOP)
    ensures Safe(code, fns, vss, StepPlain(code, fns, c, op))
  {
    var f, vs, vs' := c.top, vss[c.top.pc], vss[c.top.pc + 1];
    StepShape(code, fns, vs, f.pc, rfs[f.pc], vs');
    var l := Label(f.pc, |f.stack|);
    var g := f.(pc := f.pc + 1, labels := f.labels + [l]);
    FlattenLast(vs.frames, []);
    assert |f.stack| == |Types(f.stack)|;
    assert vs'.frames[..|f.labels| + 1] == vs.frames && vs'.frames[..|f.labels|] == vs.frames[..|f.labels|];
    LabelsKept(code, vss, vs, vs', f.labels);
    assert LabelOk(code, vss, vs', |f.labels|, l);
    NewTopOk(code, fns, vss, c, c.(top := g));
  }

  lemma EndSafe(code: seq<Instr>, fns: seq<Fn>, rfs: seq<int>, vss: seq<VState>, c: Conf)
    requires At(code, fns, rfs, vss, c) && code[c.top.pc] == Plain(END)
    ensures Safe(code, fns, vss, StepPlain(code, fns, c, END))
  {
    var f, vs, vs' := c.top, vss[c.top.pc], vss[c.top.pc + 1];
    StepShape(code, fns, vs, f.pc, rfs[f.pc], vs');
    TopTypes(code, fns, vss, f, 0);
    if f.labels != [] {
      var m := |f.labels| - 1;
      assert LabelOk(code, vss, vs, m, f.labels[m]);
      var g := f.(pc := f.pc + 1, stack := f.stack[..Floor(f)], labels := f.labels[..m]);
      assert vs'.frames == vs.frames[..m + 1] && vs'.frames[..m] == vs.frames[..m];
      assert Types(g.stack) == Flatten(vs'.frames) by {
        assert Types(f.stack) == Flatten(vs.frames[..m + 1]) + Last(vs);
        assert forall i | 0 <= i < Floor(f) :: Types(g.stack)[i] == Types(f.stack)[i];
      }
      LabelsKept(code, vss, vs, vs', g.labels);
      NewTopOk(code, fns, vss, c, c.(top := g));
    }
  }

  /** The last caller, given the result it waits for, is a good top frame. */
  lemma ResumeOk(code: seq<Instr>, fns: seq<Fn>, vss: seq<VState>, c: Conf, result: seq<Val>, c': Conf)
    requires ConfOk(code, fns, vss, c) && c.callers != [] && Types(result) == RetTypes(fns[c.top.fn])
    requires var n := |c.callers| - 1;
             c'.callers == c.callers[..n] && c'.top == c.callers[n].(stack := c.callers[n].stack + result)
    ensures ConfOk(code, fns, vss, c')
  {
    var n := |c.callers| - 1;
    assert CallerOk(code, fns, vss, c, n);
    assert Types(c'.top.stack) == Types(c.callers[n].stack) + Types(result);
    assert Types(c'.top.stack) + [] == Types(c'.top.stack);
    forall i | 0 <= i < n ensures CallerOk(code, fns, vss, c', i) {
      assert CallerOk(code, fns, vss, c, i);
    }
  }

  /** A `ret` finds no int where one is due exactly if the verifier's record has none there. */
  lemma RetSafe(code: seq<Instr>, fns: seq<Fn>, rfs: seq<int>, vss: seq<VState>, c: Conf)
    requires At(code, fns, rfs, vss, c) && code[c.top.pc] == Plain(RET)
    ensures var o := StepPlain(code, fns, c, RET);
            (o == Stuck <==> !RetTyped(code, fns, vss, c.top.pc)) && (o.Next? ==> ConfOk(code, fns, vss, o.conf))
  {
    var f, last := c.top, Last(vss[c.top.pc]);
    var typed := RetTyped(code, fns, vss, f.pc);
    TopTypes(code, fns, vss, f, if fns[f.fn].rt && typed then 1 else 0);
    if fns[f.fn].rt { RetTop(f, last); }
    if typed {
      var result := if fns[f.fn].rt then [Peek(f, 0)] else [];
      assert Types(result) == RetTypes(fns[f.fn]);
      var o := StepRet(fns, c);
      if o.Next? { ResumeOk(code, fns, vss, c, result, o.conf); }
    }
  }

  /** There is an int on top of the innermost block's operands if and only if their types end in one. */
  lemma RetTop(f: Frame, last: seq<Ty>)
    requires |f.stack| == Floor(f) + |last|
    requires forall k | 0 <= k < |last| :: k < |f.stack| && Peek(f, k).ty == last[|last| - 1 - k]
    ensures Ints(f, 1) <==> Ends(last, [INT_T])
  {
    if last != [] { assert last[|last| - 1..] == [last[|last| - 1]] && Peek(f, 0).ty == last[|last| - 1]; }
  }

  /** The arguments of a call have the types of the parameters. */
  lemma ArgsTyped(code: seq<Instr>, fns: seq<Fn>, vss: seq<VState>, f: Frame, ps: seq<Ty>, args: seq<Val>)
    requires f.pc <= |code| && |vss| == |code| + 1 && FrameOk(code, fns, vss, f, []) && vss[f.pc].frames != []
          && Ends(Last(vss[f.pc]), ps)
    requires |ps| <= |f.stack| && args == f.stack[|f.stack| - |ps|..]
    ensures Has(f, |ps|) && Types(args) == ps && forall k | 0 <= k < |ps| :: args[k].ty == ps[k]
  {
    var last, n := Last(vss[f.pc]), |ps|;
    TopTypes(code, fns, vss, f, n);
    forall k | 0 <= k < n ensures args[k].ty == ps[k] {
      assert Peek(f, n - 1 - k) == args[k] && last[|last| - n..][k] == ps[k];
    }
  }

  lemma CallTyped(code: seq<Instr>, fns: seq<Fn>, vs: VState, k: nat, rf: int, vs': VState, v: word)
    requires VStepsTo(code, fns, vs, k, rf, vs') && code[k] == Imm(CALL, v)
    ensures vs.frames != [] && v < |fns| && Ends(Last(vs), fns[v].params)
    ensures Replace(vs, |fns[v].params|, RetTypes(fns[v])) == Some(vs')
  {
  }

  lemma NewVarsTyped(g: Fn, args: seq<Val>)
    requires Types(args) == g.params
    ensures Types(NewVars(g, args)) == g.params + g.locals
  {
  }

  lemma CallSteps(fns: seq<Fn>, c: Conf, v: word, args: seq<Val>)
    requires v < |fns| && Has(c.top, |fns[v].params|) && args == c.top.stack[|c.top.stack| - |fns[v].params|..]
    requires forall k | 0 <= k < |fns[v].params| :: args[k].ty == fns[v].params[k]
    ensures StepCall(fns, c, v) ==
            Next(Conf(Frame(v, fns[v].at + 1, NewVars(fns[v], args), [], []),
              c.callers + [Put(c.top, |fns[v].params|, [])], c.heap))
  {
  }

  /** A call: the callee's frame g on top of the caller's, which waits for g's result. */
  lemma CallConfOk(code: seq<Instr>, fns: seq<Fn>, vss: seq<VState>, c: Conf, f: Frame, g: Frame)
    requires ConfOk(code, fns, vss, c) && f.fn == c.top.fn && FrameOk(code, fns, vss, g, [])
    requires FrameOk(code, fns, vss, f, RetTypes(fns[g.fn]))
    ensures ConfOk(code, fns, vss, Conf(g, c.callers + [f], c.heap))
  {
    var c' := Conf(g, c.callers + [f], c.heap);
    forall i | 0 <= i < |c'.callers| ensures CallerOk(code, fns, vss, c', i) {
      if i < |c.callers| { assert CallerOk(code, fns, vss, c, i); }
    }
  }

  /** The frames after a call agree with the verifier. */
  lemma CallFrames(code: seq<Instr>, fns: seq<Fn>, rfs: seq<int>, vss: seq<VState>, f: Frame, v: nat, args: seq<Val>)
    requires Accepts(code, fns, rfs, vss) && v < |fns| && f.pc < |code| && FrameOk(code, fns, vss, f, [])
          && Types(args) == fns[v].params
    requires |fns[v].params| <= |Last(vss[f.pc])|
          && Replace(vss[f.pc], |fns[v].params|, RetTypes(fns[v])) == Some(vss[f.pc + 1])
    ensures |fns[v].params| <= |f.stack| && FrameOk(code, fns, vss, Put(f, |fns[v].params|, []), RetTypes(fns[v]))
    ensures FrameOk(code, fns, vss, Frame(v, fns[v].at + 1, NewVars(fns[v], args), [], []), [])
  {
    NewVarsTyped(fns[v], args);
    NewFrameOk(code, fns, rfs, vss, v, NewVars(fns[v], args));
    assert Types([]) + RetTypes(fns[v]) == RetTypes(fns[v]);
    PutOk(code, fns, vss, f, |fns[v].params|, [], RetTypes(fns[v]));
  }

  lemma CallSafe(code: seq<Instr>, fns: seq<Fn>, rfs: seq<int>, vss: seq<VState>, c: Conf, v: word)
    requires At(code, fns, rfs, vss, c) && code[c.top.pc] == Imm(CALL, v)
    ensures Safe(code, fns, vss, StepCall(fns, c, v))
  {
    CallTyped(code, fns, vss[c.top.pc], c.top.pc, rfs[c.top.pc], vss[c.top.pc + 1], v);
    var f, ps := c.top, fns[v].params;
    TopTypes(code, fns, vss, f, |ps|);
    var args := f.stack[|f.stack| - |ps|..];
    ArgsTyped(code, fns, vss, f, ps, args);
    CallSteps(fns, c, v, args);
    CallFrames(code, fns, rfs, vss, f, v, args);
    CallConfOk(code, fns, vss, c, Put(f, |ps|, []), Frame(v, fns[v].at + 1, NewVars(fns[v], args), [], []));
  }

  lemma ImmSafe(code: seq<Instr>, fns: seq<Fn>, rfs: seq<int>, vss: seq<VState>, c: Conf, op: byte, v: word)
    requires At(code, fns, rfs, vss, c) && code[c.top.pc] == Imm(op, v)
    ensures Safe(code, fns, vss, StepImm(code, fns, c, op, v))
  {
    var f, last := c.top, Last(vss[c.top.pc]);
    if op == I_CONST {
      OneInt(Int(v));
      Replaced(code, fns, rfs, vss, c, 0, [Int(v)]);
    } else if op == GET_L {
      VarType(fns[f.fn], f.vars, v);
      assert Types([f.vars[v]]) == [f.vars[v].ty];
      Replaced(code, fns, rfs, vss, c, 0, [f.vars[v]]);
    } else if op == SET_L {
      SetSafe(code, fns, rfs, vss, c, v);
    } else if op == BR {
      assert Types(f.stack) + [] == Types(f.stack);
      BranchOk(code, fns, rfs, vss, f, vss[f.pc], v);
      NewTopOk(code, fns, vss, c, c.(top := Branch(code, f, v).value));
    } else if op == BR_IF {
      BrIfSafe(code, fns, rfs, vss, c, v);
    } else if op == CALL {
      CallSafe(code, fns, rfs, vss, c, v);
    }
  }

  lemma VarType(fn: Fn, vars: seq<Val>, v: word)
    requires LocalTy(fn, v).Some? && Types(vars) == fn.params + fn.locals
    ensures v < |vars| && vars[v].ty == LocalTy(fn, v).value
  {
    assert |vars| == |Types(vars)|;
    assert Types(vars)[v] == vars[v].ty;
  }

  lemma SetSafe(code: seq<Instr>, fns: seq<Fn>, rfs: seq<int>, vss: seq<VState>, c: Conf, v: word)
    requires At(code, fns, rfs, vss, c) && code[c.top.pc] == Imm(SET_L, v)
    ensures Safe(code, fns, vss, StepImm(code, fns, c, SET_L, v))
  {
    var f, last := c.top, Last(vss[c.top.pc]);
    VarType(fns[f.fn], f.vars, v);
    TopTypes(code, fns, vss, f, 1);
    assert Types([]) + [] == [];
    PutOk(code, fns, vss, f, 1, [], []);
    var g := Put(f, 1, []).(vars := f.vars[v := Peek(f, 0)]);
    assert Types(g.vars) == Types(f.vars);
    NewTopOk(code, fns, vss, c, c.(top := g));
  }

  lemma BrIfSafe(code: seq<Instr>, fns: seq<Fn>, rfs: seq<int>, vss: seq<VState>, c: Conf, v: word)
    requires At(code, fns, rfs, vss, c) && code[c.top.pc] == Imm(BR_IF, v)
    ensures Safe(code, fns, vss, StepImm(code, fns, c, BR_IF, v))
  {
    var f, last := c.top, Last(vss[c.top.pc]);
    TopTypes(code, fns, vss, f, 1);
    assert last[|last| - 1..][0] == INT_T;
    assert Ints(f, 1);
    assert Types([]) + [] == [];
    PutOk(code, fns, vss, f, 1, [], []);
    var g := Put(f, 1, []);
    NewTopOk(code, fns, vss, c, c.(top := g));
    assert Types(g.stack) + [] == Types(g.stack);
    BranchOk(code, fns, rfs, vss, g, vss[g.pc], v);
    NewTopOk(code, fns, vss, c, c.(top := Branch(code, g, v).value));
  }

  /** One step: an accepted program is stuck exactly at a `ret` without its int, and the next configuration agrees
      with the verifier again. */
  lemma StepTyped(code: seq<Instr>, fns: seq<Fn>, rfs: seq<int>, vss: seq<VState>, c: Conf)
    requires Accepts(code, fns, rfs, vss) && ConfOk(code, fns, vss, c)
    ensures var o := Step(code, fns, c);
            (o == Stuck <==> !RetTyped(code, fns, vss, c.top.pc)) && (o.Next? ==> ConfOk(code, fns, vss, o.conf))
  {
    if c.top.pc < |code| {
      var k := c.top.pc;
      assert VStepsAt(code, fns, rfs, vss, k);
      match code[k]
      case Plain(op) =>
        if op == RET { RetSafe(code, fns, rfs, vss, c); } else { PlainSafe(code, fns, rfs, vss, c, op); }
      case Imm(op, v) =>
        ImmSafe(code, fns, rfs, vss, c, op, v);
      case Decl(_, _, _) =>
    }
  }

  lemma PlainSafe(code: seq<Instr>, fns: seq<Fn>, rfs: seq<int>, vss: seq<VState>, c: Conf, op: byte)
    requires At(code, fns, rfs, vss, c) && code[c.top.pc] == Plain(op) && op != RET
    ensures Safe(code, fns, vss, StepPlain(code, fns, c, op))
  {
    if IsStore(op) {
      StoreSafe(code, fns, rfs, vss, c, op);
    } else if op == BLOCK || op == LOOP {
      BlockSafe(code, fns, rfs, vss, c, op);
    } else if op == END {
      EndSafe(code, fns, rfs, vss, c);
    } else if op != TRAP {
      ArithSafe(code, fns, rfs, vss, c, op);
    }
  }

  lemma {:induction false} RunTyped(code: seq<Instr>, fns: seq<Fn>, rfs: seq<int>, vss: seq<VState>, cs: seq<Conf>,
                      n: nat)
    requires Accepts(code, fns, rfs, vss) && Run(code, fns, cs) && Initial(code, fns, cs[0]) && n < |cs|
    ensures ConfOk(code, fns, vss, cs[n])
  {
    if n == 0 {
      InitialOk(code, fns, rfs, vss, cs[0]);
    } else {
      RunTyped(code, fns, rfs, vss, cs, n - 1);
      assert RunsAt(code, fns, cs, n - 1);
      StepTyped(code, fns, rfs, vss, cs[n - 1]);
    }
  }

  /** Verifier soundness: along every run of an accepted program, however long and whatever `ret` was compared with,
      each configuration agrees with what the verifier recorded, and the run gets stuck next if and only if it stands
      at a `ret` of a function that returns an int where the record has no int on top. */
  lemma VerifierSound(code: seq<Instr>, fns: seq<Fn>, rfs: seq<int>, vss: seq<VState>, cs: seq<Conf>)
    requires Accepts(code, fns, rfs, vss) && Run(code, fns, cs) && Initial(code, fns, cs[0])
    ensures ConfOk(code, fns, vss, cs[|cs| - 1])
    ensures Step(code, fns, cs[|cs| - 1]) == Stuck <==> !RetTyped(code, fns, vss, cs[|cs| - 1].top.pc)
  {
    RunTyped(code, fns, rfs, vss, cs, |cs| - 1);
    StepTyped(code, fns, rfs, vss, cs[|cs| - 1]);
  }

  /** A program whose every such `ret` has its int never gets stuck. */
  lemma VerifierSoundFor(code: seq<Instr>, fns: seq<Fn>, rfs: seq<int>, vss: seq<VState>, cs: seq<Conf>)
    requires Accepts(code, fns, rfs, vss) && RetsTyped(code, fns, vss)
    requires Run(code, fns, cs) && Initial(code, fns, cs[0])
    ensures ConfOk(code, fns, vss, cs[|cs| - 1]) && Step(code, fns, cs[|cs| - 1]) != Stuck
  {
    VerifierSound(code, fns, rfs, vss, cs);
  }

  lemma ReplaceNothing(vs: VState)
    requires vs.frames != []
    ensures Replace(vs, 0, []) == Some(vs)
  {
    var m, last := |vs.frames| - 1, Last(vs);
    assert last[..|last| - 0] + [] == last;
    assert vs.frames[..m] + [last] == vs.frames;
  }

  /** A function that ends in `ret` with nothing on the stack, checked against function rf. */
  lemma BareRet(code: seq<Instr>, fns: seq<Fn>, vs: VState, k: nat, rf: nat)
    requires k < |code| && code[k] == Plain(RET) && NextIsEnd(code, k) && rf < |fns| && !fns[rf].rt && vs.frames != []
    ensures VStepsTo(code, fns, vs, k, rf, vs)
  {
    ReplaceNothing(vs);
  }

  ghost function BadProgram(): seq<Instr> {
    [Decl(true, [], []), Plain(RET), Plain(END), Decl(false, [], [])]
  }

  lemma BadFns(code: seq<Instr>)
    requires code == BadProgram()
    ensures Fns(code) == [Fn(true, [], [], 0), Fn(false, [], [], 3)]
  {
    assert FnsUpto(code, 1) == [Fn(true, [], [], 0)];
    assert FnsUpto(code, 3) == FnsUpto(code, 2) == FnsUpto(code, 1);
  }

  lemma DeclStep(code: seq<Instr>, fns: seq<Fn>, vs: VState, k: nat, rf: int)
    requires k < |code| && code[k].Decl? && vs.frames == []
    ensures VStepsTo(code, fns, vs, k, rf, VState([[]], vs.fn + 1))
  {
  }

  lemma EndStep(code: seq<Instr>, fns: seq<Fn>, fn: int, k: nat, rf: int)
    requires k < |code| && code[k] == Plain(END)
    ensures VStepsTo(code, fns, VState([[]], fn), k, rf, VState([], fn))
  {
    var fs: seq<seq<Ty>> := [[]];
    assert fs[..0] == [];
  }

  lemma BadAccepted(code: seq<Instr>, fns: seq<Fn>, rfs: seq<int>, vss: seq<VState>, k: nat)
    requires code == BadProgram() && fns == [Fn(true, [], [], 0), Fn(false, [], [], 3)] && rfs == [0, 1, 0, 0] && k < 4
    requires vss == [START, VState([[]], 0), VState([[]], 0), VState([], 0), VState([[]], 1)]
    ensures VStepsAt(code, fns, rfs, vss, k)
  {
    if k == 0 || k == 3 {
      DeclStep(code, fns, vss[k], k, rfs[k]);
    } else if k == 1 {
      BareRet(code, fns, vss[1], 1, 1);
    } else {
      EndStep(code, fns, 0, 2, 0);
    }
  }

  /** Without agreement on `ret` the verifier is unsound: this program is accepted when the `ret` of its
      int-returning first function is compared with its void second one, and gets stuck at once. */
  lemma RetMustAgree(code: seq<Instr>, fns: seq<Fn>, rfs: seq<int>, vss: seq<VState>, c: Conf)
    requires code == BadProgram() && fns == Fns(code) && rfs == [0, 1, 0, 0]
    requires vss == [START, VState([[]], 0), VState([[]], 0), VState([], 0), VState([[]], 1)]
    requires c == Conf(Frame(0, 1, [], [], []), [], [])
    ensures Accepts(code, fns, rfs, vss) && !RetsAgree(code, fns, rfs, vss) && !RetTyped(code, fns, vss, 1)
    ensures Initial(code, fns, c) && Step(code, fns, c) == Stuck
  {
    BadFns(code);
    forall k | 0 <= k < 4 ensures VStepsAt(code, fns, rfs, vss, k) {
      BadAccepted(code, fns, rfs, vss, k);
    }
    assert code[1] == Plain(RET) && rfs[1] == 1;
    BadSticks(code, fns, c);
  }

  lemma BadSticks(code: seq<Instr>, fns: seq<Fn>, c: Conf)
    requires code == BadProgram() && fns == [Fn(true, [], [], 0), Fn(false, [], [], 3)]
          && c == Conf(Frame(0, 1, [], [], []), [], [])
    ensures Step(code, fns, c) == Stuck
  {
    assert code[1] == Plain(RET);
    assert !Has(c.top, 1);
  }
}
