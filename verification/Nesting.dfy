/** The generator's state at branch targets and function entries. */
module Nesting {
  import opened Sume
  import opened StackMachine
  import opened Codegen
  import opened Generator

  /** The state in which a block that is open at k was opened. */
  lemma {:induction false} OpenSince(code: seq<Instr>, fns: seq<Fn>, gss: seq<Gs>, offs: seq<nat>, k: nat, j: nat)
    requires Trace(code, fns, gss, offs) && k <= |code| && 0 < j < |gss[k].open|
    ensures var at := gss[k].open[j].at;
            at < k && Opens(code[at]) && gss[at].open == gss[k].open[..j] && gss[at].fn == gss[k].fn
  {
    if k > 0 {
      assert GStepsTo(code, fns, gss, offs, k - 1);
      if j < |gss[k - 1].open| { OpenSince(code, fns, gss, offs, k - 1, j); }
    }
  }

  /** The states before and behind the end of the d-th enclosing block of k. */
  lemma {:induction false} BlockExit(code: seq<Instr>, fns: seq<Fn>, gss: seq<Gs>, offs: seq<nat>, k: nat, d: nat)
    requires Trace(code, fns, gss, offs) && k <= |code| && d + 1 < |gss[k].open| && Close(code, k, d) < |code|
    ensures var e, m := Close(code, k, d), |gss[k].open| - 1 - d;
            && code[e] == Plain(END) && gss[e + 1].open == gss[k].open[..m] && gss[e + 1].fn == gss[k].fn
            && gss[e + 1].stkh == gss[k].open[m - 1].height
    decreases |code| - k
  {
    assert GStepsTo(code, fns, gss, offs, k);
    var m := |gss[k].open| - 1 - d;
    if Opens(code[k]) {
      BlockExit(code, fns, gss, offs, k + 1, d + 1);
    } else if code[k] != Plain(END) {
      BlockExit(code, fns, gss, offs, k + 1, d);
    } else if d > 0 {
      BlockExit(code, fns, gss, offs, k + 1, d - 1);
      assert gss[k].open[..|gss[k].open| - 1][..m] == gss[k].open[..m];
    }
  }

  /** The state at the start of function v. */
  lemma FnEntry(code: seq<Instr>, fns: seq<Fn>, gss: seq<Gs>, offs: seq<nat>, v: nat)
    requires Trace(code, fns, gss, offs) && v < |fns|
    ensures var at := fns[v].at;
            && at < |code| && code[at].Decl? && gss[at + 1] == Gs(gss[at].stkh, v, [Open(at, 0)])
            && offs[at + 1] == offs[at]
  {
    FnsAt(code, |code|, v);
    DeclNumber(code, fns, gss, offs, fns[v].at);
    assert GStepsTo(code, fns, gss, offs, fns[v].at);
  }
}
