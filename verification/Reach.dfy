/** Finitely many steps of a partial step function. */
module Reach {
  import opened Words

  ghost predicate ReachesIn<S(!new)>(step: S -> Option<S>, n: nat, a: S, b: S) {
    if n == 0 then a == b else step(a).Some? && ReachesIn(step, n - 1, step(a).value, b)
  }

  ghost predicate Reaches<S(!new)>(step: S -> Option<S>, a: S, b: S) {
    exists n: nat :: ReachesIn(step, n, a, b)
  }

  lemma {:induction false} ReachInTrans<S(!new)>(step: S -> Option<S>, m: nat, a: S, b: S, n: nat, c: S)
    requires ReachesIn(step, m, a, b) && ReachesIn(step, n, b, c)
    ensures ReachesIn(step, m + n, a, c)
  {
    if m > 0 { ReachInTrans(step, m - 1, step(a).value, b, n, c); }
  }

  lemma ReachRefl<S(!new)>(step: S -> Option<S>, a: S)
    ensures Reaches(step, a, a)
  {
    assert ReachesIn(step, 0, a, a);
  }

  lemma ReachStep<S(!new)>(step: S -> Option<S>, a: S, b: S)
    requires step(a) == Some(b)
    ensures Reaches(step, a, b)
  {
    assert ReachesIn(step, 0, b, b);
    assert ReachesIn(step, 1, a, b);
  }

  lemma ReachTrans<S(!new)>(step: S -> Option<S>, a: S, b: S, c: S)
    requires Reaches(step, a, b) && Reaches(step, b, c)
    ensures Reaches(step, a, c)
  {
    var m: nat :| ReachesIn(step, m, a, b);
    var n: nat :| ReachesIn(step, n, b, c);
    ReachInTrans(step, m, a, b, n, c);
  }

  /** From u some state is reached that is related to a. */
  ghost predicate Meets<A(!new), S(!new)>(step: S -> Option<S>, related: (A, S) -> bool, a: A, u: S) {
    exists v :: related(a, v) && Reaches(step, u, v)
  }

  /** Forward simulation: if every step of the run meets, the whole run does. */
  lemma {:induction false} Simulated<A(!new), S(!new)>(step: S -> Option<S>, related: (A, S) -> bool, run: seq<A>, s: S,
                      k: nat) returns (s': S)
    requires k < |run| && related(run[0], s)
    requires forall j: nat, u: S :: j + 1 < |run| && related(run[j], u) ==> Meets(step, related, run[j + 1], u)
    ensures related(run[k], s') && Reaches(step, s, s')
  {
    s' := s;
    if k == 0 {
      ReachRefl(step, s);
    } else {
      var u := Simulated(step, related, run, s, k - 1);
      assert Meets(step, related, run[k - 1 + 1], u);
      s' :| related(run[k], s') && Reaches(step, u, s');
      ReachTrans(step, s, u, s');
    }
  }
}
