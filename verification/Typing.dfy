/** The stack-type discipline of verif.c as a function on verifier states, what `ret` looks at, and how the
    verifier's states nest with the program's blocks. */
module Typing {
  import opened Words
  import opened Sume
  import opened StackMachine

  const STACK_MAX: nat := 4096
  const FRAME_MAX: nat := 64

  /** frames: operand types, one list per open block, the function's own first; none outside a function. */
  datatype VState = VState(frames: seq<seq<Ty>>, fn: int)

  const START: VState := VState([], -1)

  function Flatten(fs: seq<seq<Ty>>): seq<Ty> {
    if fs == [] then [] else Flatten(fs[..|fs| - 1]) + fs[|fs| - 1]
  }

  function Last(vs: VState): seq<Ty>
    requires vs.frames != []
  {
    vs.frames[|vs.frames| - 1]
  }

  /** The innermost list without its last n types and with ts behind it; None if the stack is full. */
  function Replace(vs: VState, n: nat, ts: seq<Ty>): Option<VState>
    requires vs.frames != [] && n <= |Last(vs)|
  {
    var m, last := |vs.frames| - 1, Last(vs);
    if |Flatten(vs.frames)| - n + |ts| > STACK_MAX && ts != [] then None
    else Some(vs.(frames := vs.frames[..m] + [last[..|last| - n] + ts]))
  }

  predicate Ends(last: seq<Ty>, ts: seq<Ty>) {
    |ts| <= |last| && last[|last| - |ts|..] == ts
  }

  function LocalTy(fn: Fn, v: word): Option<Ty> {
    if v < |fn.params| then Some(fn.params[v])
    else if v - |fn.params| < |fn.locals| then Some(fn.locals[v - |fn.params|])
    else None
  }

  predicate NextIsEnd(code: seq<Instr>, k: nat) {
    k + 1 < |code| && code[k + 1] == Plain(END)
  }

  function RetTypes(fn: Fn): seq<Ty> {
    if fn.rt then [INT_T] else []
  }

  function VPlain(code: seq<Instr>, fns: seq<Fn>, vs: VState, k: nat, op: byte, rf: int): Option<VState>
    requires vs.frames != []
  {
    var last := Last(vs);
    if IsUnary(op) || op == I_EQZ || IsLoad(op) then
      if Ends(last, [INT_T]) then Replace(vs, 1, [INT_T]) else None
    else if IsBinary(op) || IsCompare(op) then
      if Ends(last, [INT_T, INT_T]) then Replace(vs, 2, [INT_T]) else None
    else if op == I_MEMSZ then Replace(vs, 0, [INT_T])
    else if IsStore(op) then
      if |last| >= 2 && last[|last| - 2] == INT_T then Replace(vs, 2, []) else None
    else if op == TRAP then (if NextIsEnd(code, k) then Some(vs) else None)
    else if op == BLOCK || op == LOOP then
      if |vs.frames| == FRAME_MAX then None else Some(vs.(frames := vs.frames + [[]]))
    else if op == RET then
      if !NextIsEnd(code, k) || !(0 <= rf < |fns|) then None
      else if Ends(last, RetTypes(fns[rf])) then Replace(vs, |RetTypes(fns[rf])|, []) else None
    else if op == END then Some(vs.(frames := vs.frames[..|vs.frames| - 1]))
    else None
  }

  function VImm(code: seq<Instr>, fns: seq<Fn>, vs: VState, k: nat, op: byte, v: word): Option<VState>
    requires vs.frames != []
  {
    var last := Last(vs);
    if op == I_CONST then Replace(vs, 0, [INT_T])
    else if op == GET_L then
      if !(0 <= vs.fn < |fns|) || LocalTy(fns[vs.fn], v).None? then None
      else Replace(vs, 0, [LocalTy(fns[vs.fn], v).value])
    else if op == SET_L then
      if !(0 <= vs.fn < |fns|) || last == [] || LocalTy(fns[vs.fn], v) != Some(last[|last| - 1]) then None
      else Replace(vs, 1, [])
    else if op == BR then (if v < |vs.frames| - 1 && NextIsEnd(code, k) then Some(vs) else None)
    else if op == BR_IF then
      if v < |vs.frames| - 1 && Ends(last, [INT_T]) then Replace(vs, 1, []) else None
    else if op == CALL then
      if v >= |fns| || !Ends(last, fns[v].params) then None
      else Replace(vs, |fns[v].params|, RetTypes(fns[v]))
    else None
  }

  /** One turn of verify's loop at instruction k. rf is the function whose result type `ret` compares with. */
  function VStep(code: seq<Instr>, fns: seq<Fn>, vs: VState, k: nat, rf: int): Option<VState>
    requires k < |code|
  {
    match code[k]
    case Decl(_, _, _) => if vs.frames == [] then Some(VState([[]], vs.fn + 1)) else None
    case Plain(op) => if vs.frames == [] then None else VPlain(code, fns, vs, k, op, rf)
    case Imm(op, v) => if vs.frames == [] then None else VImm(code, fns, vs, k, op, v)
  }

  /** verify accepts: vss lists its state before each instruction and at the end, rfs what `ret` looked at. */
  ghost predicate Accepts(code: seq<Instr>, fns: seq<Fn>, rfs: seq<int>, vss: seq<VState>) {
    && |vss| == |code| + 1 && |rfs| == |code| && vss[0] == START
    && fns == Fns(code) && (|fns| > 0 ==> fns[0].params == [])
    && forall k | 0 <= k < |code| :: VStepsAt(code, fns, rfs, vss, k)
  }

  ghost predicate VStepsAt(code: seq<Instr>, fns: seq<Fn>, rfs: seq<int>, vss: seq<VState>, k: nat) {
    k < |rfs| && k + 1 < |vss| && VStepsTo(code, fns, vss[k], k, rfs[k], vss[k + 1])
  }

  ghost predicate VStepsTo(code: seq<Instr>, fns: seq<Fn>, vs: VState, k: nat, rf: int, vs': VState) {
    k < |code| && VStep(code, fns, vs, k, rf) == Some(vs')
  }

  /** Wherever a function that returns an int has a `ret`, it was compared with one that does. */
  ghost predicate RetsAgree(code: seq<Instr>, fns: seq<Fn>, rfs: seq<int>, vss: seq<VState>)
    requires |vss| == |code| + 1 && |rfs| == |code|
  {
    forall k | 0 <= k < |code| && code[k] == Plain(RET) ::
      0 <= rfs[k] < |fns| && 0 <= vss[k].fn < |fns| && (fns[vss[k].fn].rt ==> fns[rfs[k]].rt)
  }

  /** The verifier's record at token k, if it is the `ret` of a function that returns an int, has an int on top. */
  predicate RetTyped(code: seq<Instr>, fns: seq<Fn>, vss: seq<VState>, k: nat) {
    k < |code| && k < |vss| && code[k] == Plain(RET) && vss[k].frames != [] && 0 <= vss[k].fn < |fns|
      && fns[vss[k].fn].rt ==>
      Ends(Last(vss[k]), [INT_T])
  }

  ghost predicate RetsTyped(code: seq<Instr>, fns: seq<Fn>, vss: seq<VState>) {
    forall k: nat :: RetTyped(code, fns, vss, k)
  }

  /** The function instruction k lies in, -1 before the first. */
  function FnAt(code: seq<Instr>, k: nat): int
    requires k <= |code|
  {
    |FnsUpto(code, k)| - 1
  }

  predicate IntRet(code: seq<Instr>, fns: seq<Fn>, k: nat) {
    k < |code| && code[k] == Plain(RET) && 0 <= FnAt(code, k) < |fns| && fns[FnAt(code, k)].rt
  }

  /** A condition on the program alone: if a function that returns an int has a `ret`, all functions return one. */
  ghost predicate IntRetsOnly(code: seq<Instr>, fns: seq<Fn>) {
    (exists k: nat :: IntRet(code, fns, k)) ==> forall v :: 0 <= v < |fns| ==> fns[v].rt
  }

  /** What the uninitialised variable may hold without verify reading past its table. */
  ghost predicate InRange(code: seq<Instr>, fns: seq<Fn>, rfs: seq<int>) {
    |rfs| == |code| && forall k | 0 <= k < |code| && code[k] == Plain(RET) :: 0 <= rfs[k] < |fns|
  }

  /** vss follows the program's functions, as every accepting run of verify does. */
  ghost predicate FnsTold(code: seq<Instr>, fns: seq<Fn>, vss: seq<VState>) {
    |vss| == |code| + 1 && forall k | 0 <= k < |code| && code[k] == Plain(RET) ::
      vss[k].fn == FnAt(code, k) && 0 <= FnAt(code, k) < |fns|
  }

  /** Agreement can be relied on, whatever the variable holds, exactly if the program meets the condition. */
  lemma RetsAlwaysAgreeIff(code: seq<Instr>, fns: seq<Fn>, vss: seq<VState>)
    requires FnsTold(code, fns, vss)
    ensures (forall rfs :: InRange(code, fns, rfs) ==> RetsAgree(code, fns, rfs, vss)) <==> IntRetsOnly(code, fns)
  {
    if IntRetsOnly(code, fns) {
      forall rfs | InRange(code, fns, rfs) ensures RetsAgree(code, fns, rfs, vss) {
        forall k | 0 <= k < |code| && code[k] == Plain(RET) ensures fns[vss[k].fn].rt ==> fns[rfs[k]].rt {
          assert fns[vss[k].fn].rt ==> IntRet(code, fns, k);
        }
      }
    } else {
      var k: nat :| IntRet(code, fns, k);
      var v :| 0 <= v < |fns| && !fns[v].rt;
      var rfs: seq<int> := seq(|code|, _ => v);
      assert InRange(code, fns, rfs) && code[k] == Plain(RET) && rfs[k] == v;
      assert !RetsAgree(code, fns, rfs, vss);
    }
  }

  // ---------- blocks ----------

  /** An instruction inside a function touches the innermost list only, or opens or closes one. */
  lemma StepShape(code: seq<Instr>, fns: seq<Fn>, vs: VState, k: nat, rf: int, vs': VState)
    requires VStepsTo(code, fns, vs, k, rf, vs') && vs.frames != []
    ensures vs'.fn == vs.fn && !code[k].Decl?
    ensures var n := |vs.frames| - 1;
            if Opens(code[k]) then vs'.frames == vs.frames + [[]]
            else if code[k] == Plain(END) then vs'.frames == vs.frames[..n]
            else |vs'.frames| == n + 1 && vs'.frames[..n] == vs.frames[..n]
  {
  }

  lemma FnAfter(code: seq<Instr>, fns: seq<Fn>, rfs: seq<int>, vss: seq<VState>, k: nat)
    requires Accepts(code, fns, rfs, vss) && k < |code|
    ensures vss[k + 1].fn == vss[k].fn + if code[k].Decl? then 1 else 0
  {
    assert VStepsAt(code, fns, rfs, vss, k);
    if vss[k].frames != [] { StepShape(code, fns, vss[k], k, rfs[k], vss[k + 1]); }
  }

  /** The verifier's function number counts the declarations. */
  lemma {:induction false} FnCount(code: seq<Instr>, fns: seq<Fn>, rfs: seq<int>, vss: seq<VState>, k: nat)
    requires Accepts(code, fns, rfs, vss) && k <= |code|
    ensures vss[k].fn == |FnsUpto(code, k)| - 1
  {
    if k > 0 {
      FnCount(code, fns, rfs, vss, k - 1);
      FnAfter(code, fns, rfs, vss, k - 1);
    }
  }

  /** An accepting run of verify is told about the functions, and never left its table. */
  lemma AcceptedIsTold(code: seq<Instr>, fns: seq<Fn>, rfs: seq<int>, vss: seq<VState>)
    requires Accepts(code, fns, rfs, vss)
    ensures FnsTold(code, fns, vss) && InRange(code, fns, rfs)
  {
    forall k | 0 <= k < |code| && code[k] == Plain(RET)
      ensures vss[k].fn == FnAt(code, k) && 0 <= FnAt(code, k) < |fns| && 0 <= rfs[k] < |fns|
    {
      assert VStepsAt(code, fns, rfs, vss, k);
      FnCount(code, fns, rfs, vss, k);
      InsideFn(code, fns, rfs, vss, k);
      FnsGrow(code, k, |code|);
    }
  }

  /** With a block open, a function has been declared. */
  lemma {:induction false} InsideFn(code: seq<Instr>, fns: seq<Fn>, rfs: seq<int>, vss: seq<VState>, k: nat)
    requires Accepts(code, fns, rfs, vss) && k <= |code| && vss[k].frames != []
    ensures vss[k].fn >= 0
  {
    if k > 0 {
      assert VStepsAt(code, fns, rfs, vss, k - 1);
      FnCount(code, fns, rfs, vss, k);
      if !code[k - 1].Decl? {
        StepShape(code, fns, vss[k - 1], k - 1, rfs[k - 1], vss[k]);
        InsideFn(code, fns, rfs, vss, k - 1);
      }
    }
  }

  lemma {:induction false} FnsGrow(code: seq<Instr>, k: nat, m: nat)
    requires k <= m <= |code|
    ensures |FnsUpto(code, k)| <= |FnsUpto(code, m)|
  {
    if k < m { FnsGrow(code, k, m - 1); }
  }

  /** Scanning the body of a block opened at `at`, the verifier keeps the lists of the enclosing blocks. */
  lemma {:induction false} InsideBlock(code: seq<Instr>, fns: seq<Fn>, rfs: seq<int>, vss: seq<VState>, outer: VState,
                      k: nat, d: nat)
    requires Accepts(code, fns, rfs, vss) && k <= |code| && outer.frames != []
    requires |vss[k].frames| == |outer.frames| + 1 + d && outer.frames <= vss[k].frames && vss[k].fn == outer.fn
    ensures var e := Close(code, k, d);
            e < |code| ==> vss[e + 1] == outer
    decreases |code| - k
  {
    if k < |code| {
      assert VStepsAt(code, fns, rfs, vss, k);
      StepShape(code, fns, vss[k], k, rfs[k], vss[k + 1]);
      PrefixKept(outer.frames, vss[k].frames, vss[k + 1].frames);
      if Opens(code[k]) {
        InsideBlock(code, fns, rfs, vss, outer, k + 1, d + 1);
      } else if code[k] != Plain(END) {
        InsideBlock(code, fns, rfs, vss, outer, k + 1, d);
      } else if d > 0 {
        InsideBlock(code, fns, rfs, vss, outer, k + 1, d - 1);
      }
    }
  }

  lemma PrefixKept(outer: seq<seq<Ty>>, a: seq<seq<Ty>>, b: seq<seq<Ty>>)
    requires outer <= a && |outer| < |a| && |a| - 1 <= |b| && a[..|a| - 1] == b[..|a| - 1]
    ensures outer <= b
    ensures |b| == |outer| ==> b == outer
  {
    assert a[..|a| - 1][..|outer|] == outer && b[..|a| - 1][..|outer|] == b[..|outer|];
  }
}
