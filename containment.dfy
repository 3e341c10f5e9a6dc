/** Point containment through a constraint solver (verse/stars/starset.py:
    `contains_point`, `add_constraints` and the module function `containment_poly`).
    The solver is modelled as a list of asserted linear constraints over named real
    variables; its satisfiability check is a parameter. */
module Containment {
  import opened LinAlg
  import opened Outcomes
  import opened Stars

  /** A solver variable: the i-th variable of a named vector (`alpha_i`, `agent_alpha_i`,
      `a__i`), the i-th variable of the group-th vector of a family (`a_p__i`), or a
      single named variable. */
  datatype Var = Coef(family: string, index: nat) | Grouped(family: string, group: nat, index: nat) | Given(name: string)

  datatype Relation = EqualTo | AtMost

  /** offset + sum over terms of coefficient * variable, related to rhs. */
  datatype LinCon = LinCon(terms: seq<(Var, real)>, offset: real, rel: Relation, rhs: real)

  function Eval(terms: seq<(Var, real)>, env: Var -> real): real {
    if |terms| == 0 then 0.0 else terms[0].1 * env(terms[0].0) + Eval(terms[1..], env)
  }

  predicate Holds(c: LinCon, env: Var -> real) {
    match c.rel
    case EqualTo => c.offset + Eval(c.terms, env) == c.rhs
    case AtMost => c.offset + Eval(c.terms, env) <= c.rhs
  }

  predicate AllHold(cs: seq<LinCon>, env: Var -> real) {
    forall k :: 0 <= k < |cs| ==> Holds(cs[k], env)
  }

  /** Some assignment of reals to the variables satisfies every constraint. */
  ghost predicate Satisfiable(cs: seq<LinCon>) {
    exists env: Var -> real :: AllHold(cs, env)
  }

  /** The solver's check answers satisfiability exactly (Z3 on linear real arithmetic). */
  ghost predicate SolverDecides(check: seq<LinCon> -> bool) {
    forall cs :: check(cs) == Satisfiable(cs)
  }

  /** A Z3 `Solver` object: the constraints asserted so far. */
  class Solver {
    var assertions: seq<LinCon>

    constructor ()
      ensures assertions == []
    {
      assertions := [];
    }

    method Add(c: LinCon)
      modifies this
      ensures assertions == old(assertions) + [c]
    {
      assertions := assertions + [c];
    }
  }

  // ------------------------------------------------------------------ the encodings

  /** The variables of the named vector `family`. */
  function FamilyVar(family: string): nat -> Var {
    (j: nat) => Coef(family, j)
  }

  /** The terms w[0] * v(off) + ... + w[k-1] * v(off+k-1). */
  function TermsFrom(v: nat -> Var, w: Vec, off: nat): (ts: seq<(Var, real)>)
    ensures |ts| == |w| && forall j :: 0 <= j < |w| ==> ts[j] == (v(off + j), w[j])
  {
    seq(|w|, j requires 0 <= j < |w| => (v(off + j), w[j]))
  }

  /** The values an assignment gives to v(off), ..., v(off+m-1). */
  function ValuesFrom(env: Var -> real, v: nat -> Var, off: nat, m: nat): (a: Vec)
    ensures |a| == m && forall j :: 0 <= j < m ==> a[j] == env(v(off + j))
  {
    seq(m, j requires 0 <= j < m => env(v(off + j)))
  }

  /** The terms w[0] * family_0 + ... + w[k-1] * family_(k-1). */
  function CoefTerms(family: string, w: Vec): (ts: seq<(Var, real)>)
    ensures |ts| == |w| && forall j :: 0 <= j < |w| ==> ts[j] == (Coef(family, j), w[j])
  {
    TermsFrom(FamilyVar(family), w, 0)
  }

  /** The values the assignment gives to the first m variables of a family. */
  function Coefs(env: Var -> real, family: string, m: nat): (a: Vec)
    ensures |a| == m && forall j :: 0 <= j < m ==> a[j] == env(Coef(family, j))
  {
    ValuesFrom(env, FamilyVar(family), 0, m)
  }

  /** Row i of the predicate: sum_j C[i][j] * alpha_j <= g[i]. */
  function PredicateRows(family: string, s: Star): (cs: seq<LinCon>)
    requires WellShaped(s)
    ensures |cs| == |s.C|
  {
    seq(|s.C|, i requires 0 <= i < |s.C| => LinCon(CoefTerms(family, s.C[i]), 0.0, AtMost, s.g[i]))
  }

  /** Coordinate j of the point: center[j] + sum_i alpha_i * basis[i][j] == p[j], for the
      first |p| coordinates. */
  function PointRows(family: string, s: Star, p: Vec): (cs: seq<LinCon>)
    requires WellShaped(s) && |p| <= |s.center|
    ensures |cs| == |p|
  {
    seq(|p|, j requires 0 <= j < |p| => LinCon(CoefTerms(family, Col(s.basis, j)), s.center[j], EqualTo, p[j]))
  }

  /** The system `contains_point` and `containment_poly` hand to the solver. */
  function PointSystem(family: string, s: Star, p: Vec): seq<LinCon>
    requires WellShaped(s) && |p| <= |s.center|
  {
    PointRows(family, s, p) + PredicateRows(family, s)
  }

  /** Coordinate i of the star equals the caller's state variable: center[i] +
      sum_j basis[j][i] * alpha_j - state_i == 0. */
  function StateRows(family: string, s: Star, state: seq<Var>, k: nat): (cs: seq<LinCon>)
    requires WellShaped(s) && k <= |s.center| && k <= |state|
    ensures |cs| == k
  {
    seq(k, i requires 0 <= i < k =>
      LinCon(CoefTerms(family, Col(s.basis, i)) + [(state[i], -1.0)], s.center[i], EqualTo, 0.0))
  }

  /** The first |p| coordinates of p are those of some point of s. */
  ghost predicate ContainsPrefix(s: Star, p: Vec) {
    exists q :: Contains(s, q) && |p| <= |q| && q[..|p|] == p
  }

  // ------------------------------------------------------------------ the loops

  /** The two loops shared by `contains_point` and `containment_poly`: one equality per
      coordinate of p, then one inequality per row of C. */
  method AssertPointSystem(solver: Solver, family: string, s: Star, p: Vec)
    requires WellShaped(s) && |p| <= |s.center|
    modifies solver
    ensures solver.assertions == old(solver.assertions) + PointSystem(family, s, p)
  {
    ghost var start := solver.assertions;
    for j := 0 to |p|
      invariant solver.assertions == start + PointRows(family, s, p)[..j]
    {
      var terms: seq<(Var, real)> := [];
      for i := 0 to |s.basis|
        invariant terms == CoefTerms(family, Col(s.basis, j)[..i])
      {
        terms := terms + [(Coef(family, i), s.basis[i][j])];
      }
      assert Col(s.basis, j)[..|s.basis|] == Col(s.basis, j);
      solver.Add(LinCon(terms, s.center[j], EqualTo, p[j]));
      assert PointRows(family, s, p)[..j + 1] == PointRows(family, s, p)[..j] + [PointRows(family, s, p)[j]];
    }
    AddPredicateRows(solver, family, s);
  }

  // The loop over the rows of C.
  method AddPredicateRows(solver: Solver, family: string, s: Star)
    requires WellShaped(s)
    modifies solver
    ensures solver.assertions == old(solver.assertions) + PredicateRows(family, s)
  {
    ghost var start := solver.assertions;
    for i := 0 to |s.C|
      invariant solver.assertions == start + PredicateRows(family, s)[..i]
    {
      var terms: seq<(Var, real)> := [];
      for j := 0 to |s.basis|
        invariant terms == CoefTerms(family, s.C[i][..j])
      {
        terms := terms + [(Coef(family, j), s.C[i][j])];
      }
      assert s.C[i][..|s.basis|] == s.C[i];
      solver.Add(LinCon(terms, 0.0, AtMost, s.g[i]));
      assert PredicateRows(family, s)[..i + 1] == PredicateRows(family, s)[..i] + [PredicateRows(family, s)[i]];
    }
    assert PredicateRows(family, s)[..|s.C|] == PredicateRows(family, s);
  }

  /** `contains_point(point)`: a fresh solver, constraints over alpha_1..alpha_m, then
      `check() == sat`. Only the first len(point) coordinates are constrained, and a point
      longer than the center indexes past it. */
  method ContainsPoint(s: Star, point: Vec, check: seq<LinCon> -> bool) returns (r: Result<bool>)
    requires WellShaped(s)
    ensures r.Err? <==> |point| > |s.center|
    ensures r.Err? ==> r.error == IndexOutOfRange
    ensures r.Ok? ==> r.value == check(PointSystem("alpha", s, point))
    ensures r.Ok? && SolverDecides(check) ==> (r.value <==> ContainsPrefix(s, point))
    ensures r.Ok? && SolverDecides(check) && |point| == |s.center| ==> (r.value <==> Contains(s, point))
  {
    if |point| > |s.center| {
      return Err(IndexOutOfRange);
    }
    var solver := new Solver();
    AssertPointSystem(solver, "alpha", s, point);
    assert solver.assertions == PointSystem("alpha", s, point);
    r := Ok(check(solver.assertions));
    PointSystemMeaning("alpha", s, point);
    if |point| == |s.center| {
      FullPrefix(s, point);
    }
  }

  /** The module function `containment_poly(star, point)`: the same system over
      variables a__0..a__(m-1), after a dimension check. */
  method ContainmentPoly(s: Star, point: Vec, check: seq<LinCon> -> bool) returns (r: Result<bool>)
    requires WellShaped(s)
    ensures r.Err? <==> |point| != |s.center|
    ensures r.Err? ==> r.error == PointDimension
    ensures r.Ok? ==> r.value == check(PointSystem("a", s, point))
    ensures r.Ok? && SolverDecides(check) ==> (r.value <==> Contains(s, point))
  {
    if |s.center| != |point| {
      return Err(PointDimension);
    }
    var solver := new Solver();
    AssertPointSystem(solver, "a", s, point);
    assert solver.assertions == PointSystem("a", s, point);
    r := Ok(check(solver.assertions));
    PointSystemMeaning("a", s, point);
    FullPrefix(s, point);
  }

  /** `add_constraints(cur_solver, state_vec, agent)`: ties the caller's state variables to
      a point of the star through fresh variables agent_alpha_i, in the caller's solver.
      A state vector shorter than the center raises after the equalities it did add. */
  method AddConstraints(solver: Solver, s: Star, state: seq<Var>, agent: string) returns (r: Result<()>)
    requires WellShaped(s)
    modifies solver
    ensures r.Err? <==> |state| < |s.center|
    ensures r.Err? ==> r.error == IndexOutOfRange
    ensures r.Err? ==> solver.assertions == old(solver.assertions) + StateRows(agent + "_alpha", s, state, |state|)
    ensures r.Ok? ==> solver.assertions ==
                      old(solver.assertions) + StateRows(agent + "_alpha", s, state, |s.center|) + PredicateRows(agent + "_alpha", s)
  {
    var family := agent + "_alpha";
    ghost var start := solver.assertions;
    for i := 0 to |s.center|
      invariant i <= |state|
      invariant solver.assertions == start + StateRows(family, s, state, i)
    {
      if i >= |state| {
        return Err(IndexOutOfRange);
      }
      var terms: seq<(Var, real)> := [];
      for j := 0 to |s.basis|
        invariant terms == CoefTerms(family, Col(s.basis, i)[..j])
      {
        terms := terms + [(Coef(family, j), s.basis[j][i])];
      }
      assert Col(s.basis, i)[..|s.basis|] == Col(s.basis, i);
      solver.Add(LinCon(terms + [(state[i], -1.0)], s.center[i], EqualTo, 0.0));
      assert StateRows(family, s, state, i + 1) == StateRows(family, s, state, i) + [StateRows(family, s, state, i + 1)[i]];
    }
    AddPredicateRows(solver, family, s);
    r := Ok(());
  }

  // ------------------------------------------------------------------ what the systems mean

  lemma {:induction false} EvalTermsFrom(v: nat -> Var, w: Vec, off: nat, env: Var -> real)
    ensures Eval(TermsFrom(v, w, off), env) == Dot(w, ValuesFrom(env, v, off, |w|))
    decreases |w|
  {
    if |w| > 0 {
      assert TermsFrom(v, w, off)[1..] == TermsFrom(v, w[1..], off + 1);
      assert ValuesFrom(env, v, off, |w|)[1..] == ValuesFrom(env, v, off + 1, |w| - 1);
      EvalTermsFrom(v, w[1..], off + 1, env);
    }
  }

  /** The encoded sum is the dot product with the family's values. */
  lemma EvalCoefTerms(family: string, w: Vec, env: Var -> real)
    ensures Eval(CoefTerms(family, w), env) == Dot(w, Coefs(env, family, |w|))
  {
    EvalTermsFrom(FamilyVar(family), w, 0, env);
  }

  lemma {:induction false} EvalAppend(ts: seq<(Var, real)>, t: (Var, real), env: Var -> real)
    ensures Eval(ts + [t], env) == Eval(ts, env) + t.1 * env(t.0)
  {
    if |ts| > 0 {
      assert (ts + [t])[1..] == ts[1..] + [t];
      EvalAppend(ts[1..], t, env);
    }
  }

  lemma AllHoldAppend(a: seq<LinCon>, b: seq<LinCon>, env: Var -> real)
    ensures AllHold(a + b, env) <==> AllHold(a, env) && AllHold(b, env)
  {
    if AllHold(a, env) && AllHold(b, env) {
      forall k | 0 <= k < |a + b| ensures Holds((a + b)[k], env) {
        if k >= |a| {
          assert (a + b)[k] == b[k - |a|];
        }
      }
    }
    if AllHold(a + b, env) {
      forall k | 0 <= k < |a| ensures Holds(a[k], env) {
        assert (a + b)[k] == a[k];
      }
      forall k | 0 <= k < |b| ensures Holds(b[k], env) {
        assert (a + b)[|a| + k] == b[k];
      }
    }
  }

  /** The predicate rows hold exactly when the family's values satisfy C . alpha <= g. */
  lemma PredicateRowsMeaning(family: string, s: Star, env: Var -> real)
    requires WellShaped(s)
    ensures AllHold(PredicateRows(family, s), env) <==> Sat(s.C, Coefs(env, family, |s.basis|), s.g)
  {
    var alpha := Coefs(env, family, |s.basis|);
    var rows := PredicateRows(family, s);
    forall i | 0 <= i < |s.C| ensures Holds(rows[i], env) <==> MatVec(s.C, alpha)[i] <= s.g[i] {
      EvalCoefTerms(family, s.C[i], env);
    }
  }

  /** The equality rows hold exactly when the point of the family's values agrees with p
      on p's coordinates. */
  lemma PointRowsMeaning(family: string, s: Star, p: Vec, env: Var -> real)
    requires WellShaped(s) && |p| <= |s.center|
    ensures AllHold(PointRows(family, s, p), env) <==> Point(s, Coefs(env, family, |s.basis|))[..|p|] == p
  {
    var alpha := Coefs(env, family, |s.basis|);
    var rows := PointRows(family, s, p);
    var q := Point(s, alpha);
    forall j | 0 <= j < |p| ensures Holds(rows[j], env) <==> q[j] == p[j] {
      EvalCoefTerms(family, Col(s.basis, j), env);
      DotComm(alpha, Col(s.basis, j));
    }
    if AllHold(rows, env) {
      assert forall j :: 0 <= j < |p| ==> q[..|p|][j] == p[j];
    }
    if q[..|p|] == p {
      forall j | 0 <= j < |p| ensures q[j] == p[j] {
        assert q[..|p|][j] == q[j];
      }
    }
  }

  /** An assignment that gives alpha to the family's first variables. */
  function AssignFamily(family: string, alpha: Vec): (env: Var -> real)
    ensures Coefs(env, family, |alpha|) == alpha
  {
    (v: Var) => if v.Coef? && v.family == family && v.index < |alpha| then alpha[v.index] else 0.0
  }

  /** The system `contains_point` builds is satisfiable exactly when p's coordinates are
      those of some point of the star. */
  lemma PointSystemMeaning(family: string, s: Star, p: Vec)
    requires WellShaped(s) && |p| <= |s.center|
    ensures Satisfiable(PointSystem(family, s, p)) <==> ContainsPrefix(s, p)
  {
    var m := |s.basis|;
    if Satisfiable(PointSystem(family, s, p)) {
      var env :| AllHold(PointSystem(family, s, p), env);
      AllHoldAppend(PointRows(family, s, p), PredicateRows(family, s), env);
      PointRowsMeaning(family, s, p, env);
      PredicateRowsMeaning(family, s, env);
      var alpha := Coefs(env, family, m);
      assert Witness(s, alpha, Point(s, alpha));
    }
    if ContainsPrefix(s, p) {
      var q :| Contains(s, q) && |p| <= |q| && q[..|p|] == p;
      var alpha :| Witness(s, alpha, q);
      var env := AssignFamily(family, alpha);
      PointRowsMeaning(family, s, p, env);
      PredicateRowsMeaning(family, s, env);
      AllHoldAppend(PointRows(family, s, p), PredicateRows(family, s), env);
    }
  }

  /** With a full-length point, agreeing on every coordinate is membership. */
  lemma FullPrefix(s: Star, p: Vec)
    requires |p| == |s.center|
    ensures ContainsPrefix(s, p) <==> Contains(s, p)
  {
    if ContainsPrefix(s, p) {
      var q :| Contains(s, q) && |p| <= |q| && q[..|p|] == p;
      var alpha :| Witness(s, alpha, q);
      assert q[..|p|] == q;
    }
    if Contains(s, p) {
      assert p[..|p|] == p;
    }
  }

  /** The state rows hold exactly when the state variables' values are the point of the
      star the family's values select. */
  lemma StateRowsMeaning(family: string, s: Star, state: seq<Var>, env: Var -> real)
    requires WellShaped(s) && |s.center| <= |state|
    ensures AllHold(StateRows(family, s, state, |s.center|), env) <==>
      Point(s, Coefs(env, family, |s.basis|)) == seq(|s.center|, i requires 0 <= i < |s.center| => env(state[i]))
  {
    var n := |s.center|;
    var alpha := Coefs(env, family, |s.basis|);
    var rows := StateRows(family, s, state, n);
    var q := Point(s, alpha);
    var x := seq(n, i requires 0 <= i < n => env(state[i]));
    forall i | 0 <= i < n ensures Holds(rows[i], env) <==> q[i] == x[i] {
      EvalAppend(CoefTerms(family, Col(s.basis, i)), (state[i], -1.0), env);
      EvalCoefTerms(family, Col(s.basis, i), env);
      DotComm(alpha, Col(s.basis, i));
    }
  }

  /** What `add_constraints` asserts holds of an assignment exactly when the state
      variables take the values of a point of the star, with the agent's alpha variables
      as its coefficients. */
  lemma AddConstraintsMeaning(s: Star, state: seq<Var>, agent: string, env: Var -> real)
    requires WellShaped(s) && |s.center| <= |state|
    ensures var family := agent + "_alpha";
      AllHold(StateRows(family, s, state, |s.center|) + PredicateRows(family, s), env) <==>
      Witness(s, Coefs(env, family, |s.basis|), seq(|s.center|, i requires 0 <= i < |s.center| => env(state[i])))
  {
    var family := agent + "_alpha";
    AllHoldAppend(StateRows(family, s, state, |s.center|), PredicateRows(family, s), env);
    StateRowsMeaning(family, s, state, env);
    PredicateRowsMeaning(family, s, env);
  }
}
