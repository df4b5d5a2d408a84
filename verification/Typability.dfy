/** Programs whose instructions can be given operand types: what a typing is, in terms of what steps do, and that the
    verifier accepts exactly the programs that have one within its limits. */
module Typability {
  import opened Words
  import opened Sume
  import opened StackMachine
  import opened Typing
  import opened Soundness
  import opened Completeness

  ghost predicate SameOuter(a: VState, b: VState) {
    && a.fn == b.fn && |a.frames| == |b.frames| && a.frames != []
    && a.frames[..|a.frames| - 1] == b.frames[..|a.frames| - 1]
  }

  /** With the types of vs at instruction k, those of vs' stand behind it: no configuration of the types of vs is
      stuck, and whatever goes on has the types of vs'. Behind what never goes on there must be an `end`. */
  ghost predicate Typed(code: seq<Instr>, fns: seq<Fn>, vs: VState, k: nat, vs': VState) {
    k < |code| &&
    if vs.frames == [] then code[k].Decl? && vs' == VState([[]], vs.fn + 1)
    else
      && !code[k].Decl? && vs'.fn == vs.fn && !GetsStuck(code, fns, vs, k)
      && if Leaves(code[k]) then NextIsEnd(code, k) && SameOuter(vs, vs')
         else if EndsFn(vs, code[k]) then vs'.frames == []
         else forall c: Conf | Fits(code, fns, vs, k, c.top) :: GoesOn(code, fns, k, vs', c)
  }

  ghost predicate TypedAt(code: seq<Instr>, fns: seq<Fn>, vss: seq<VState>, k: nat) {
    k + 1 < |vss| && Typed(code, fns, vss[k], k, vss[k + 1]) && Within(vss[k + 1])
  }

  /** vss is a typing of the program, within the limits. */
  ghost predicate HasTyping(code: seq<Instr>, fns: seq<Fn>, vss: seq<VState>) {
    && |vss| == |code| + 1 && vss[0] == START && fns == Fns(code) && (|fns| > 0 ==> fns[0].params == [])
    && forall k | 0 <= k < |code| :: TypedAt(code, fns, vss, k)
  }

  ghost predicate RetFitsAt(code: seq<Instr>, fns: seq<Fn>, rfs: seq<int>, vss: seq<VState>, k: nat) {
    k < |code| && k < |vss| && k < |rfs| && code[k] == Plain(RET) ==> RetFits(fns, vss[k], rfs[k])
  }

  ghost predicate RetsFit(code: seq<Instr>, fns: seq<Fn>, rfs: seq<int>, vss: seq<VState>) {
    |rfs| == |code| && forall k: nat :: RetFitsAt(code, fns, rfs, vss, k)
  }

  // ---------- a typed program is accepted ----------

  /** The verifier takes a typed instruction to the same types. */
  lemma TypedStep(code: seq<Instr>, fns: seq<Fn>, vs: VState, k: nat, vs': VState, rf: int)
    requires InFn(fns, vs) && |vs.frames| <= FRAME_MAX && Typed(code, fns, vs, k, vs') && Within(vs')
    requires code[k] == Plain(RET) ==> RetFits(fns, vs, rf)
    ensures VStep(code, fns, vs, k, rf).Some?
    ensures var w := VStep(code, fns, vs, k, rf).value; if Leaves(code[k]) then SameOuter(w, vs') else w == vs'
  {
    if Leaves(code[k]) {
      LeavesJudged(code, fns, vs, k, rf);
      StepShape(code, fns, vs, k, rf, VStep(code, fns, vs, k, rf).value);
    } else if !EndsFn(vs, code[k]) {
      var c, result, g, w := Judge(code, fns, vs, k, rf);
      assert GoesOn(code, fns, k, vs', c);
      FitsOne(code, fns, w, vs', k + 1, g);
    }
  }

  /** The verifier's record w and the typing agree, or only an `end` follows that forgets where they differ. */
  ghost predicate Tracks(code: seq<Instr>, w: VState, vs: VState, k: nat) {
    w == vs || (SameOuter(w, vs) && k < |code| && code[k] == Plain(END))
  }

  lemma TracksOn(code: seq<Instr>, fns: seq<Fn>, w: VState, vs: VState, k: nat, vs': VState, rf: int)
    requires (vs.frames == [] || InFn(fns, vs)) && Within(vs) && Typed(code, fns, vs, k, vs') && Within(vs')
    requires Tracks(code, w, vs, k) && (code[k] == Plain(RET) ==> RetFits(fns, vs, rf))
    ensures VStep(code, fns, w, k, rf).Some? && Tracks(code, VStep(code, fns, w, k, rf).value, vs', k + 1)
  {
    if vs.frames != [] { TypedStep(code, fns, vs, k, vs', rf); }
  }

  lemma Extends(code: seq<Instr>, fns: seq<Fn>, rfs: seq<int>, ws: seq<VState>, k: nat, w: VState)
    requires |ws| == k + 1 && k < |code| == |rfs| && forall j | 0 <= j < k :: VStepsAt(code, fns, rfs, ws, j)
    requires VStep(code, fns, ws[k], k, rfs[k]) == Some(w)
    ensures forall j | 0 <= j < k + 1 :: VStepsAt(code, fns, rfs, ws + [w], j)
  {
    forall j | 0 <= j < k + 1 ensures VStepsAt(code, fns, rfs, ws + [w], j) {
      if j < k { assert VStepsAt(code, fns, rfs, ws, j); }
    }
  }

  /** The verifier gets through the first k instructions, with the types of the typing. */
  lemma {:induction false} Followed(code: seq<Instr>, fns: seq<Fn>, rfs: seq<int>, vss: seq<VState>, k: nat)
    returns (ws: seq<VState>)
    requires HasTyping(code, fns, vss) && RetsFit(code, fns, rfs, vss) && k <= |code|
    ensures |ws| == k + 1 && ws[0] == START && (forall j | 0 <= j < k :: VStepsAt(code, fns, rfs, ws, j))
    ensures forall j | 0 <= j <= k :: Tracks(code, ws[j], vss[j], j)
    ensures vss[k].fn == |FnsUpto(code, k)| - 1 && Within(vss[k]) && (vss[k].frames != [] ==> InFn(fns, vss[k]))
  {
    if k == 0 {
      ws := [START];
    } else {
      ws := Followed(code, fns, rfs, vss, k - 1);
      assert TypedAt(code, fns, vss, k - 1) && RetFitsAt(code, fns, rfs, vss, k - 1);
      assert Tracks(code, ws[k - 1], vss[k - 1], k - 1);
      TracksOn(code, fns, ws[k - 1], vss[k - 1], k - 1, vss[k], rfs[k - 1]);
      var w := VStep(code, fns, ws[k - 1], k - 1, rfs[k - 1]).value;
      Extends(code, fns, rfs, ws, k - 1, w);
      ws := ws + [w];
      FnsGrow(code, k, |code|);
    }
  }

  /** Every program that has a typing within the limits is accepted. */
  lemma TypedIsAccepted(code: seq<Instr>, fns: seq<Fn>, rfs: seq<int>, vss: seq<VState>) returns (ws: seq<VState>)
    requires HasTyping(code, fns, vss) && RetsFit(code, fns, rfs, vss)
    ensures Accepts(code, fns, rfs, ws) && RetsTyped(code, fns, ws)
  {
    ws := Followed(code, fns, rfs, vss, |code|);
    forall k: nat ensures RetTyped(code, fns, ws, k) {
      if k < |code| && code[k] == Plain(RET) && ws[k].frames != [] && 0 <= ws[k].fn < |fns| {
        assert Tracks(code, ws[k], vss[k], k) && TypedAt(code, fns, vss, k);
        SampleFits(code, fns, ws[k], k, 1);
        TopInts(code, fns, ws[k], k, Sample(fns, ws[k], k, 1).top);
      }
    }
  }

  // ---------- an accepted program is typed ----------

  /** Not stuck, and whatever goes on has the types of vs'. */
  ghost predicate Fine(code: seq<Instr>, fns: seq<Fn>, k: nat, vs': VState, c: Conf) {
    Step(code, fns, c) != Stuck && GoesOn(code, fns, k, vs', c)
  }

  lemma NextFine(code: seq<Instr>, fns: seq<Fn>, k: nat, vs': VState, c: Conf, c': Conf)
    requires Step(code, fns, c) == Next(c') && c'.callers == c.callers && Fits(code, fns, vs', k + 1, c'.top)
    ensures Fine(code, fns, k, vs', c)
  {
  }

  lemma ArithFine(code: seq<Instr>, fns: seq<Fn>, vs: VState, k: nat, rf: int, vs': VState, c: Conf, op: byte)
    requires Fits(code, fns, vs, k, c.top) && VStepsTo(code, fns, vs, k, rf, vs') && code[k] == Plain(op) && IsArith(op)
    ensures Fine(code, fns, k, vs', c)
  {
    ArithTyped(code, fns, vs, k, rf, vs', op);
    TopFits(code, fns, vs, k, c.top);
    ArithSteps(code, fns, c, op);
    var o := Step(code, fns, c);
    if o.Next? {
      var w :| o.conf == c.(top := Put(c.top, Taken(op), [Int(w)]));
      OneInt(Int(w));
      PutFits(code, fns, vs, k, c.top, Taken(op), [Int(w)], c.top.vars);
      ReplaceIs(vs, Taken(op), [INT_T]);
      NextFine(code, fns, k, vs', c, o.conf);
    }
  }

  lemma StoreFine(code: seq<Instr>, fns: seq<Fn>, vs: VState, k: nat, rf: int, vs': VState, c: Conf, op: byte)
    requires Fits(code, fns, vs, k, c.top) && VStepsTo(code, fns, vs, k, rf, vs') && code[k] == Plain(op) && IsStore(op)
    ensures Fine(code, fns, k, vs', c)
  {
    TopFits(code, fns, vs, k, c.top);
    assert Types([]) == [];
    PutFits(code, fns, vs, k, c.top, 2, [], c.top.vars);
    ReplaceIs(vs, 2, []);
    var o := Step(code, fns, c);
    if o.Next? { NextFine(code, fns, k, vs', c, o.conf); }
  }

  lemma BlockFine(code: seq<Instr>, fns: seq<Fn>, vs: VState, k: nat, rf: int, vs': VState, c: Conf)
    requires Fits(code, fns, vs, k, c.top) && VStepsTo(code, fns, vs, k, rf, vs')
    requires Opens(code[k]) || code[k] == Plain(END)
    ensures Step(code, fns, c) != Stuck && (!EndsFn(vs, code[k]) ==> GoesOn(code, fns, k, vs', c))
  {
    TopFits(code, fns, vs, k, c.top);
    var o := Step(code, fns, c);
    if Opens(code[k]) {
      OpenFits(code, fns, vs, k, c.top, o.conf.top);
      NextFine(code, fns, k, vs', c, o.conf);
    } else if |vs.frames| > 1 {
      CloseFits(code, fns, vs, k, c.top, o.conf.top);
      NextFine(code, fns, k, vs', c, o.conf);
    }
  }

  lemma LocalFine(code: seq<Instr>, fns: seq<Fn>, vs: VState, k: nat, rf: int, vs': VState, c: Conf, op: byte, v: word)
    requires Fits(code, fns, vs, k, c.top) && VStepsTo(code, fns, vs, k, rf, vs') && code[k] == Imm(op, v)
    requires op == I_CONST || op == GET_L || op == SET_L
    ensures Fine(code, fns, k, vs', c)
  {
    var f := c.top;
    TopFits(code, fns, vs, k, f);
    VarTypes(fns[f.fn], f.vars, v);
    var o := Step(code, fns, c);
    if op == SET_L {
      var vars := f.vars[v := Peek(f, 0)];
      assert Types([]) == [] && Types(vars) == Types(f.vars);
      PutFits(code, fns, vs, k, f, 1, [], vars);
      ReplaceIs(vs, 1, []);
    } else {
      var x := if op == I_CONST then Int(v) else f.vars[v];
      assert Types([x]) == [x.ty];
      PutFits(code, fns, vs, k, f, 0, [x], f.vars);
      ReplaceIs(vs, 0, [x.ty]);
    }
    NextFine(code, fns, k, vs', c, o.conf);
  }

  /** A branch within the open blocks finds its label, and never goes to the next instruction. */
  lemma BranchFine(code: seq<Instr>, fns: seq<Fn>, vs: VState, k: nat, f: Frame, v: nat)
    requires Fits(code, fns, vs, k + 1, f) && v < |vs.frames| - 1 && k < |code| && code[k].Imm?
    ensures Branch(code, f, v).Some? && Branch(code, f, v).value.pc != k + 1
  {
    var j := |f.labels| - 1 - v;
    assert LabelFits(code, vs, j, f.labels[j]);
    FlattenPrefix(vs.frames, j + 1);
    assert |f.stack| == |Types(f.stack)|;
    CloseIsEnd(code, f.labels[j].at + 1, 0);
  }

  lemma {:induction false} CloseIsEnd(code: seq<Instr>, k: nat, d: nat)
    requires k <= |code|
    ensures Close(code, k, d) < |code| ==> code[Close(code, k, d)] == Plain(END)
    decreases |code| - k
  {
    if k < |code| {
      if Opens(code[k]) {
        CloseIsEnd(code, k + 1, d + 1);
      } else if code[k] != Plain(END) {
        CloseIsEnd(code, k + 1, d);
      } else if d > 0 {
        CloseIsEnd(code, k + 1, d - 1);
      }
    }
  }

  lemma BrIfFine(code: seq<Instr>, fns: seq<Fn>, vs: VState, k: nat, rf: int, vs': VState, c: Conf, v: word)
    requires Fits(code, fns, vs, k, c.top) && VStepsTo(code, fns, vs, k, rf, vs') && code[k] == Imm(BR_IF, v)
    ensures Fine(code, fns, k, vs', c)
  {
    TopInts(code, fns, vs, k, c.top);
    assert Types([]) == [];
    PutFits(code, fns, vs, k, c.top, 1, [], c.top.vars);
    ReplaceIs(vs, 1, []);
    var g := Put(c.top, 1, []);
    if Peek(c.top, 0).w == 0 {
      NextFine(code, fns, k, vs', c, c.(top := g));
    } else {
      BranchFine(code, fns, vs', k, g, v);
    }
  }

  lemma BrFine(code: seq<Instr>, fns: seq<Fn>, vs: VState, k: nat, rf: int, vs': VState, c: Conf, v: word)
    requires Fits(code, fns, vs, k, c.top) && VStepsTo(code, fns, vs, k, rf, vs') && code[k] == Imm(BR, v)
    ensures Step(code, fns, c) != Stuck
  {
    var f := c.top.(pc := k + 1);
    BranchFine(code, fns, vs, k, f, v);
    assert Branch(code, c.top, v).Some?;
  }

  lemma CallFine(code: seq<Instr>, fns: seq<Fn>, vs: VState, k: nat, rf: int, vs': VState, c: Conf, v: word)
    requires Fits(code, fns, vs, k, c.top) && VStepsTo(code, fns, vs, k, rf, vs') && code[k] == Imm(CALL, v)
    ensures Fine(code, fns, k, vs', c)
  {
    CallTyped(code, fns, vs, k, rf, vs', v);
    TopFits(code, fns, vs, k, c.top);
    var ps := fns[v].params;
    var args := c.top.stack[|c.top.stack| - |ps|..];
    ArgsEnd(code, fns, vs, k, c.top, ps, args);
    CallSteps(fns, c, v, args);
    ReplaceIs(vs, |ps|, RetTypes(fns[v]));
    var o := Step(code, fns, c);
    forall result, g | Falls(fns, c, o, result, g) ensures Fits(code, fns, vs', k + 1, g) {
      PutFits(code, fns, vs, k, c.top, |ps|, result, c.top.vars);
      assert Put(c.top, |ps|, []).stack + result == Put(c.top, |ps|, result).stack;
    }
  }

  lemma RetFine(code: seq<Instr>, fns: seq<Fn>, vs: VState, k: nat, c: Conf)
    requires Fits(code, fns, vs, k, c.top) && k < |code| && code[k] == Plain(RET)
    requires fns[c.top.fn].rt ==> Ends(Last(vs), [INT_T])
    ensures Step(code, fns, c) != Stuck
  {
    TopInts(code, fns, vs, k, c.top);
  }

  lemma StepFine(code: seq<Instr>, fns: seq<Fn>, vs: VState, k: nat, rf: int, vs': VState, c: Conf)
    requires Fits(code, fns, vs, k, c.top) && VStepsTo(code, fns, vs, k, rf, vs')
    requires code[k] == Plain(RET) && fns[c.top.fn].rt ==> Ends(Last(vs), [INT_T])
    ensures Step(code, fns, c) != Stuck
    ensures !Leaves(code[k]) && !EndsFn(vs, code[k]) ==> GoesOn(code, fns, k, vs', c)
  {
    match code[k]
    case Plain(op) =>
      if IsArith(op) {
        ArithFine(code, fns, vs, k, rf, vs', c, op);
      } else if IsStore(op) {
        StoreFine(code, fns, vs, k, rf, vs', c, op);
      } else if op == RET {
        RetFine(code, fns, vs, k, c);
      } else if op != TRAP {
        BlockFine(code, fns, vs, k, rf, vs', c);
      }
    case Imm(op, v) =>
      if op == BR {
        BrFine(code, fns, vs, k, rf, vs', c, v);
      } else if op == BR_IF {
        BrIfFine(code, fns, vs, k, rf, vs', c, v);
      } else if op == CALL {
        CallFine(code, fns, vs, k, rf, vs', c, v);
      } else {
        LocalFine(code, fns, vs, k, rf, vs', c, op, v);
      }
    case Decl(_, _, _) =>
  }

  lemma WithinKept(code: seq<Instr>, fns: seq<Fn>, vs: VState, k: nat, rf: int, vs': VState)
    requires VStepsTo(code, fns, vs, k, rf, vs') && Within(vs)
    ensures Within(vs')
  {
  }

  lemma StepIsTyped(code: seq<Instr>, fns: seq<Fn>, vs: VState, k: nat, rf: int, vs': VState)
    requires VStepsTo(code, fns, vs, k, rf, vs')
    requires code[k] == Plain(RET) && InFn(fns, vs) && fns[vs.fn].rt ==> Ends(Last(vs), [INT_T])
    ensures Typed(code, fns, vs, k, vs') && (code[k] == Plain(RET) ==> RetFits(fns, vs, rf))
  {
    if vs.frames != [] {
      StepShape(code, fns, vs, k, rf, vs');
      forall c: Conf | Fits(code, fns, vs, k, c.top)
        ensures Step(code, fns, c) != Stuck
        ensures !Leaves(code[k]) && !EndsFn(vs, code[k]) ==> GoesOn(code, fns, k, vs', c)
      {
        StepFine(code, fns, vs, k, rf, vs', c);
      }
    }
  }

  lemma {:induction false} StaysWithin(code: seq<Instr>, fns: seq<Fn>, rfs: seq<int>, vss: seq<VState>, k: nat)
    requires Accepts(code, fns, rfs, vss) && k <= |code|
    ensures Within(vss[k])
  {
    if k > 0 {
      StaysWithin(code, fns, rfs, vss, k - 1);
      assert VStepsAt(code, fns, rfs, vss, k - 1);
      WithinKept(code, fns, vss[k - 1], k - 1, rfs[k - 1], vss[k]);
    }
  }

  /** The verifier's record of an accepted program is a typing. */
  lemma AcceptedIsTyped(code: seq<Instr>, fns: seq<Fn>, rfs: seq<int>, vss: seq<VState>)
    requires Accepts(code, fns, rfs, vss) && RetsTyped(code, fns, vss)
    ensures HasTyping(code, fns, vss) && RetsFit(code, fns, rfs, vss)
  {
    forall k: nat | k < |code| ensures TypedAt(code, fns, vss, k) && RetFitsAt(code, fns, rfs, vss, k) {
      assert VStepsAt(code, fns, rfs, vss, k) && RetTyped(code, fns, vss, k);
      StepIsTyped(code, fns, vss[k], k, rfs[k], vss[k + 1]);
      StaysWithin(code, fns, rfs, vss, k + 1);
    }
  }

  /** The program has a typing within the limits, with an int wherever the function `ret` is compared with wants one. */
  ghost predicate Typable(code: seq<Instr>, fns: seq<Fn>, rfs: seq<int>) {
    exists vss :: HasTyping(code, fns, vss) && RetsFit(code, fns, rfs, vss)
  }

  /** Acceptance is typability: a program is accepted, with its int at every `ret`, if and only if it has a typing. */
  lemma AcceptedIffTyped(code: seq<Instr>, fns: seq<Fn>, rfs: seq<int>)
    ensures (exists vss :: Accepts(code, fns, rfs, vss) && RetsTyped(code, fns, vss)) <==> Typable(code, fns, rfs)
  {
    if vss :| Accepts(code, fns, rfs, vss) && RetsTyped(code, fns, vss) {
      AcceptedIsTyped(code, fns, rfs, vss);
    }
    if vss :| HasTyping(code, fns, vss) && RetsFit(code, fns, rfs, vss) {
      var ws := TypedIsAccepted(code, fns, rfs, vss);
    }
  }
}
