/** What the comparison at `ret` would have to be, and what it can be trusted for as it is: the verifier compares with
    the function a stale variable names, where the current function is meant. */
module Returns {
  import opened Sume
  import opened StackMachine
  import opened Typing
  import opened Soundness

  /** What `ret` should look at: the function it stands in. */
  function Meant(code: seq<Instr>): seq<int> {
    seq(|code|, k requires 0 <= k < |code| => FnAt(code, k))
  }

  /** Two records of the same program at token k: equal, but for the innermost list right behind a `ret`. */
  ghost predicate AlikeAt(code: seq<Instr>, a: seq<VState>, b: seq<VState>, k: nat) {
    && k < |a| && k < |b| && k <= |code|
    && if k > 0 && code[k - 1] == Plain(RET) then
         var n := |a[k].frames| - 1;
         && a[k].fn == b[k].fn && n >= 0 && |b[k].frames| == n + 1 && a[k].frames[..n] == b[k].frames[..n]
         && k < |code| && code[k] == Plain(END)
       else a[k] == b[k]
  }

  lemma AlikeNext(code: seq<Instr>, fns: seq<Fn>, rfs: seq<int>, a: seq<VState>, rfs': seq<int>, b: seq<VState>, k: nat)
    requires Accepts(code, fns, rfs, a) && Accepts(code, fns, rfs', b) && k < |code| && AlikeAt(code, a, b, k)
    ensures AlikeAt(code, a, b, k + 1)
  {
    assert VStepsAt(code, fns, rfs, a, k) && VStepsAt(code, fns, rfs', b, k);
    if a[k].frames != [] {
      StepShape(code, fns, a[k], k, rfs[k], a[k + 1]);
      StepShape(code, fns, b[k], k, rfs'[k], b[k + 1]);
    }
  }

  /** What `ret` was compared with leaves no other trace in the record. */
  lemma {:induction false} RecordsAlike(code: seq<Instr>, fns: seq<Fn>, rfs: seq<int>, a: seq<VState>, rfs': seq<int>,
                      b: seq<VState>, k: nat)
    requires Accepts(code, fns, rfs, a) && Accepts(code, fns, rfs', b) && k <= |code|
    ensures AlikeAt(code, a, b, k)
  {
    if k > 0 {
      RecordsAlike(code, fns, rfs, a, rfs', b, k - 1);
      AlikeNext(code, fns, rfs, a, rfs', b, k - 1);
    }
  }

  /** The record the verifier would make if `ret` looked at the function it stands in. */
  function Mended(code: seq<Instr>, fns: seq<Fn>, vss: seq<VState>, k: nat): VState
    requires k <= |code| && |vss| == |code| + 1
  {
    if k > 0 && code[k - 1] == Plain(RET) && vss[k - 1].frames != [] && 0 <= vss[k - 1].fn < |fns| then
      var vs := vss[k - 1];
      var n, last := |RetTypes(fns[vs.fn])|, Last(vs);
      if n <= |last| then vs.(frames := vs.frames[..|vs.frames| - 1] + [last[..|last| - n]]) else vs
    else vss[k]
  }

  /** At a `ret` the list begins as the verifier left it, and loses what the function it stands in returns. */
  lemma MendedRet(code: seq<Instr>, fns: seq<Fn>, vs: VState, k: nat, vs': VState)
    requires k < |code| && code[k] == Plain(RET) && NextIsEnd(code, k) && vs.frames != [] && 0 <= vs.fn < |fns|
    requires Ends(Last(vs), RetTypes(fns[vs.fn]))
    requires var last, n := Last(vs), |RetTypes(fns[vs.fn])|;
             vs' == vs.(frames := vs.frames[..|vs.frames| - 1] + [last[..|last| - n]])
    ensures VStepsTo(code, fns, vs, k, vs.fn, vs')
  {
    var last, n := Last(vs), |RetTypes(fns[vs.fn])|;
    assert last[..|last| - n] + [] == last[..|last| - n];
  }

  /** The `end` behind a `ret` drops the list in which records may differ. */
  lemma MendedEnd(code: seq<Instr>, fns: seq<Fn>, k: nat, a: VState, b: VState, rf: int, rf': int, vs: VState)
    requires k < |code| && code[k] == Plain(END) && VStepsTo(code, fns, a, k, rf, vs) && a.fn == b.fn
    requires a.frames != [] && |a.frames| == |b.frames| && a.frames[..|a.frames| - 1] == b.frames[..|a.frames| - 1]
    ensures VStepsTo(code, fns, b, k, rf', vs)
  {
  }

  lemma OtherStep(code: seq<Instr>, fns: seq<Fn>, vs: VState, k: nat, rf: int, rf': int, vs': VState)
    requires VStepsTo(code, fns, vs, k, rf, vs') && code[k] != Plain(RET)
    ensures VStepsTo(code, fns, vs, k, rf', vs')
  {
  }

  lemma EndsBehind(code: seq<Instr>, fns: seq<Fn>, rfs: seq<int>, vss: seq<VState>, k: nat)
    requires Accepts(code, fns, rfs, vss) && k < |code|
    ensures code[k] == Plain(RET) ==> NextIsEnd(code, k) && vss[k].frames != []
  {
    assert VStepsAt(code, fns, rfs, vss, k);
  }

  lemma MendedAtRet(code: seq<Instr>, fns: seq<Fn>, rfs: seq<int>, vss: seq<VState>, k: nat)
    requires Accepts(code, fns, rfs, vss) && RetsTyped(code, fns, vss) && k < |code| && code[k] == Plain(RET)
    ensures VStepsTo(code, fns, Mended(code, fns, vss, k), k, FnAt(code, k), Mended(code, fns, vss, k + 1))
  {
    AcceptedIsTold(code, fns, rfs, vss);
    assert RetTyped(code, fns, vss, k);
    if k > 0 { EndsBehind(code, fns, rfs, vss, k - 1); }
    EndsBehind(code, fns, rfs, vss, k);
    MendedRet(code, fns, vss[k], k, Mended(code, fns, vss, k + 1));
  }

  lemma MendedStep(code: seq<Instr>, fns: seq<Fn>, rfs: seq<int>, vss: seq<VState>, k: nat)
    requires Accepts(code, fns, rfs, vss) && RetsTyped(code, fns, vss) && k < |code|
    ensures VStepsTo(code, fns, Mended(code, fns, vss, k), k, FnAt(code, k), Mended(code, fns, vss, k + 1))
  {
    if code[k] == Plain(RET) {
      MendedAtRet(code, fns, rfs, vss, k);
    } else {
      assert VStepsAt(code, fns, rfs, vss, k);
      if k > 0 && code[k - 1] == Plain(RET) {
        MendedBehind(code, fns, rfs, vss, k);
        MendedEnd(code, fns, k, vss[k], Mended(code, fns, vss, k), rfs[k], FnAt(code, k), vss[k + 1]);
      } else {
        OtherStep(code, fns, vss[k], k, rfs[k], FnAt(code, k), vss[k + 1]);
      }
    }
  }

  lemma MendedBehind(code: seq<Instr>, fns: seq<Fn>, rfs: seq<int>, vss: seq<VState>, k: nat)
    requires Accepts(code, fns, rfs, vss) && RetsTyped(code, fns, vss) && 0 < k <= |code| && code[k - 1] == Plain(RET)
    ensures k < |code| && code[k] == Plain(END)
    ensures var a, b := vss[k], Mended(code, fns, vss, k);
            && a.fn == b.fn && a.frames != [] && |a.frames| == |b.frames|
            && a.frames[..|a.frames| - 1] == b.frames[..|a.frames| - 1]
  {
    assert VStepsAt(code, fns, rfs, vss, k - 1);
    StepShape(code, fns, vss[k - 1], k - 1, rfs[k - 1], vss[k]);
  }

  lemma MendedAccepts(code: seq<Instr>, fns: seq<Fn>, rfs: seq<int>, vss: seq<VState>) returns (w: seq<VState>)
    requires Accepts(code, fns, rfs, vss) && RetsTyped(code, fns, vss)
    ensures Accepts(code, fns, Meant(code), w)
  {
    w := seq(|code| + 1, k requires 0 <= k <= |code| => Mended(code, fns, vss, k));
    forall k | 0 <= k < |code| ensures VStepsAt(code, fns, Meant(code), w, k) {
      MendedStep(code, fns, rfs, vss, k);
    }
  }

  /** An accepted program has the int at every `ret` that needs one if and only if it would be accepted too if `ret`
      were compared with the function it stands in. */
  lemma TypedIffMeant(code: seq<Instr>, fns: seq<Fn>, rfs: seq<int>, vss: seq<VState>)
    requires Accepts(code, fns, rfs, vss)
    ensures RetsTyped(code, fns, vss) <==> exists w :: Accepts(code, fns, Meant(code), w)
  {
    if RetsTyped(code, fns, vss) {
      var w := MendedAccepts(code, fns, rfs, vss);
    } else if w :| Accepts(code, fns, Meant(code), w) {
      var k: nat :| !RetTyped(code, fns, vss, k);
      RecordsAlike(code, fns, rfs, vss, Meant(code), w, k);
      assert VStepsAt(code, fns, Meant(code), w, k);
      if k > 0 { assert VStepsAt(code, fns, rfs, vss, k - 1); }
      AcceptedIsTold(code, fns, rfs, vss);
      assert false;
    }
  }

  /** Where each `ret` of an int function was compared with an int function, it has its int. */
  lemma AgreeingIsTyped(code: seq<Instr>, fns: seq<Fn>, rfs: seq<int>, vss: seq<VState>)
    requires Accepts(code, fns, rfs, vss) && RetsAgree(code, fns, rfs, vss)
    ensures RetsTyped(code, fns, vss)
  {
    forall k: nat ensures RetTyped(code, fns, vss, k) {
      if k < |code| && code[k] == Plain(RET) { assert VStepsAt(code, fns, rfs, vss, k); }
    }
  }

  /** The verifier as it was meant is sound. */
  lemma MeantIsSound(code: seq<Instr>, fns: seq<Fn>, vss: seq<VState>, cs: seq<Conf>)
    requires Accepts(code, fns, Meant(code), vss) && Run(code, fns, cs) && Initial(code, fns, cs[0])
    ensures ConfOk(code, fns, vss, cs[|cs| - 1]) && Step(code, fns, cs[|cs| - 1]) != Stuck
  {
    AcceptedIsTold(code, fns, Meant(code), vss);
    AgreeingIsTyped(code, fns, Meant(code), vss);
    VerifierSoundFor(code, fns, Meant(code), vss, cs);
  }
}
