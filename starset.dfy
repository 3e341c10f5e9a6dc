/** The star-set representation of verse/stars/starset.py and its algebra.

    A star set is a `center` of length n, a `basis` of m generator rows of length n,
    and a predicate C . alpha <= g with C a k-by-m matrix.  It stands for the points
    center + sum_i alpha[i] * basis[i] with alpha satisfying the predicate.

    Everything the Python class does functionally is modelled on the value type `Star`;
    `class StarSet` carries the one operation that updates an object in place,
    `intersection_poly`, together with its callers. */
module Stars {
  import opened LinAlg
  import opened Outcomes

  datatype Star = Star(center: Vec, basis: seq<Vec>, C: seq<Vec>, g: Vec)

  /** The shape invariants the constructor establishes. */
  predicate WellShaped(s: Star) {
    HasWidth(s.basis, |s.center|) && HasWidth(s.C, |s.basis|) && |s.g| == |s.C|
  }

  /** alpha satisfies the predicate C . alpha <= g. */
  predicate Sat(C: seq<Vec>, alpha: Vec, g: Vec) {
    |g| == |C| && HasWidth(C, |alpha|) && LeAll(MatVec(C, alpha), g)
  }

  /** The point center + sum_i alpha[i] * basis[i] (the indexing of contains_point). */
  function Point(s: Star, alpha: Vec): (p: Vec)
    requires HasWidth(s.basis, |s.center|) && |alpha| == |s.basis|
    ensures |p| == |s.center|
    ensures forall j :: 0 <= j < |p| ==> p[j] == s.center[j] + Dot(alpha, Col(s.basis, j))
  {
    Add(s.center, Combination(s.basis, alpha, |s.center|))
  }

  /** alpha is an admissible coefficient vector of s that lands on p. */
  ghost predicate Witness(s: Star, alpha: Vec, p: Vec) {
    && WellShaped(s)
    && |alpha| == |s.basis|
    && Sat(s.C, alpha, s.g)
    && Point(s, alpha) == p
  }

  /** p is one of the points that s represents. */
  ghost predicate Contains(s: Star, p: Vec) {
    exists alpha :: Witness(s, alpha, p)
  }

  ghost predicate Nonempty(s: Star) {
    exists alpha :: |alpha| == |s.basis| && Sat(s.C, alpha, s.g)
  }

  // ------------------------------------------------------------------ construction

  /** `StarSet.__init__`: three shape checks in source order, then the star itself. */
  function Construct(center: Vec, basis: seq<Vec>, C: seq<Vec>, g: Vec): (r: Result<Star>)
    ensures r.Ok? <==> HasWidth(basis, |center|) && HasWidth(C, |basis|) && |g| == |C|
    ensures r.Ok? ==> r.value == Star(center, basis, C, g) && WellShaped(r.value)
    ensures !HasWidth(basis, |center|) ==> r == Err(BasisDimension)
    ensures HasWidth(basis, |center|) && !HasWidth(C, |basis|) ==> r == Err(PredicateWidth)
    ensures HasWidth(basis, |center|) && HasWidth(C, |basis|) && |g| != |C| ==> r == Err(PredicateLength)
  {
    if !HasWidth(basis, |center|) then Err(BasisDimension)
    else if !HasWidth(C, |basis|) then Err(PredicateWidth)
    else if |g| != |C| then Err(PredicateLength)
    else Ok(Star(center, basis, C, g))
  }

  /** Rebuilding a star from its own fields (`copy`, `starcopy`) never fails and
      reproduces it exactly; the constructor accepts exactly the well-shaped stars. */
  lemma ConstructRoundTrip(s: Star)
    ensures Construct(s.center, s.basis, s.C, s.g) == Ok(s) <==> WellShaped(s)
  {
  }

  /** `superposition`: same predicate, new center and generators. */
  function Superposition(s: Star, newCenter: Vec, newBasis: seq<Vec>): (r: Result<Star>)
    requires WellShaped(s)
    ensures r.Ok? <==> |newBasis| == |s.basis| && HasWidth(newBasis, |newCenter|)
    ensures |newBasis| != |s.basis| ==> r == Err(BasisCount)
    ensures r.Ok? ==> WellShaped(r.value) && r.value == Star(newCenter, newBasis, s.C, s.g)
  {
    if |newBasis| == |s.basis| then Construct(newCenter, newBasis, s.C, s.g)
    else Err(BasisCount)
  }

  /** `from_poly`: the polytope A . x <= rhs as a star with zero center and identity basis. */
  function FromPoly(A: seq<Vec>, rhs: Vec): (r: Result<Star>)
    ensures r.Ok? <==> |rhs| == |A| && |A| > 0 && HasWidth(A, |A[0]|)
    ensures |rhs| != |A| ==> r == Err(RhsLength)
    ensures |rhs| == |A| == 0 ==> r == Err(IndexOutOfRange)
    ensures r.Ok? ==> WellShaped(r.value) && r.value.C == A && r.value.g == rhs
    ensures r.Ok? ==> var n := |A[0]|; r.value.center == Const(n, 0.0) && r.value.basis == Identity(n)
  {
    if |rhs| != |A| then Err(RhsLength)
    else if |A| == 0 then Err(IndexOutOfRange)
    else
      var n := |A[0]|;
      Construct(Const(n, 0.0), Identity(n), A, rhs)
  }

  /** The star built by `from_poly` represents exactly the polytope A . x <= rhs. */
  lemma FromPolyExact(A: seq<Vec>, rhs: Vec, p: Vec)
    requires FromPoly(A, rhs).Ok?
    ensures Contains(FromPoly(A, rhs).value, p) <==> |p| == |A[0]| && Sat(A, p, rhs)
  {
    var s := FromPoly(A, rhs).value;
    var n := |A[0]|;
    if Contains(s, p) {
      var alpha :| Witness(s, alpha, p);
      IdentityPoint(n, alpha);
    }
    if |p| == n && Sat(A, p, rhs) {
      IdentityPoint(n, p);
      assert Witness(s, p, p);
    }
  }

  // With zero center and identity basis a coefficient vector is its own point.
  lemma IdentityPoint(n: nat, alpha: Vec)
    requires |alpha| == n
    ensures Point(Star(Const(n, 0.0), Identity(n), [], []), alpha) == alpha
  {
    CombinationIdentity(alpha);
  }

  /** Translating the identity-basis star: center + alpha. */
  lemma IdentityBasisPoint(s: Star, alpha: Vec)
    requires WellShaped(s) && s.basis == Identity(|s.center|) && |alpha| == |s.center|
    ensures Point(s, alpha) == Add(s.center, alpha)
  {
    CombinationIdentity(alpha);
  }

  // ------------------------------------------------------------------ feasibility

  /** A linear program as `scipy.optimize.linprog` receives it: inequality rows `ub . x <= bub`,
      equality rows `eq . x == beq`, and the variable bounds, which are x >= 0 unless the
      caller passes bounds=(None, None). The objective does not matter for feasibility. */
  datatype LinearProgram = LinearProgram(nvars: nat, ub: seq<Vec>, bub: Vec, eq: seq<Vec>, beq: Vec, nonnegative: bool)

  ghost predicate Admissible(lp: LinearProgram, x: Vec) {
    && |x| == lp.nvars
    && Sat(lp.ub, x, lp.bub)
    && |lp.beq| == |lp.eq| && HasWidth(lp.eq, |x|) && MatVec(lp.eq, x) == lp.beq
    && (lp.nonnegative ==> forall i :: 0 <= i < |x| ==> x[i] >= 0.0)
  }

  ghost predicate LpFeasible(lp: LinearProgram) {
    exists x :: Admissible(lp, x)
  }

  /** What a correct LP backend's status promises: 0 only for a feasible program,
      2 only for an infeasible one (other codes promise nothing). */
  ghost predicate StatusSound(status: int, lp: LinearProgram) {
    (status == 0 ==> LpFeasible(lp)) && (status == 2 ==> !LpFeasible(lp))
  }

  /** The program `is_feasible` poses: zero objective, default (nonnegative) bounds. */
  function FeasibilityLp(nvars: nat, C: seq<Vec>, rhs: Vec, eqMat: seq<Vec>, eqRhs: Vec): LinearProgram {
    LinearProgram(nvars, C, rhs, eqMat, eqRhs, true)
  }

  /** `is_feasible`: linprog's input validation, then the status classification. */
  function IsFeasible(nvars: nat, C: seq<Vec>, rhs: Vec, eqMat: seq<Vec>, eqRhs: Vec, status: int): (r: Result<bool>)
    ensures r.Err? <==> !HasWidth(C, nvars) || |rhs| != |C| || !HasWidth(eqMat, nvars) || |eqRhs| != |eqMat|
                         || (status != 0 && status != 2)
    ensures r.Err? && HasWidth(C, nvars) && |rhs| == |C| && HasWidth(eqMat, nvars) && |eqRhs| == |eqMat|
            ==> r.error == UnexpectedSolverStatus
    ensures r.Ok? ==> (r.value <==> status == 0)
    ensures r.Ok? && StatusSound(status, FeasibilityLp(nvars, C, rhs, eqMat, eqRhs))
            ==> (r.value <==> LpFeasible(FeasibilityLp(nvars, C, rhs, eqMat, eqRhs)))
  {
    if !HasWidth(C, nvars) || |rhs| != |C| || !HasWidth(eqMat, nvars) || |eqRhs| != |eqMat| then Err(ShapeMismatch)
    else if status == 0 then Ok(true)
    else if status == 2 then Ok(false)
    else Err(UnexpectedSolverStatus)
  }

  /** The program `is_empty` poses: n variables (the state dimension, not m), x >= 0. */
  function EmptinessLp(s: Star): LinearProgram {
    FeasibilityLp(|s.center|, s.C, s.g, [], [])
  }

  /** `is_empty`: exactly the negation of `is_feasible` on the star's predicate. */
  function IsEmpty(s: Star, status: int): (r: Result<bool>)
    ensures r.Ok? <==> IsFeasible(|s.center|, s.C, s.g, [], [], status).Ok?
    ensures r.Ok? ==> r.value == !IsFeasible(|s.center|, s.C, s.g, [], [], status).value
    ensures r.Ok? && StatusSound(status, EmptinessLp(s)) ==> (r.value <==> !LpFeasible(EmptinessLp(s)))
  {
    match IsFeasible(|s.center|, s.C, s.g, [], [], status)
    case Ok(feasible) => Ok(!feasible)
    case Err(e) => Err(e)
  }

  /** The program `is_empty` evidently means: m free variables. */
  function FreeEmptinessLp(s: Star): LinearProgram {
    LinearProgram(|s.basis|, s.C, s.g, [], [], false)
  }

  /** `is_empty` with bounds=(None, None) and m variables. */
  function IsEmptyIntended(s: Star, status: int): (r: Result<bool>)
    requires WellShaped(s)
    ensures r.Ok? <==> status == 0 || status == 2
    ensures r.Ok? ==> (r.value <==> status == 2)
    ensures r.Ok? && StatusSound(status, FreeEmptinessLp(s)) ==> (r.value <==> !Nonempty(s))
  {
    FreeLpDecidesNonempty(s);
    if status == 0 then Ok(false)
    else if status == 2 then Ok(true)
    else Err(UnexpectedSolverStatus)
  }

  lemma FreeLpDecidesNonempty(s: Star)
    requires WellShaped(s)
    ensures LpFeasible(FreeEmptinessLp(s)) <==> Nonempty(s)
  {
    var lp := FreeEmptinessLp(s);
    if Nonempty(s) {
      var alpha :| |alpha| == |s.basis| && Sat(s.C, alpha, s.g);
      assert MatVec([], alpha) == [];
      assert Admissible(lp, alpha);
    }
  }

  /** A predicate is nonempty exactly when the star has a point. */
  lemma NonemptyHasPoint(s: Star)
    requires WellShaped(s)
    ensures Nonempty(s) <==> exists p :: Contains(s, p)
  {
    if Nonempty(s) {
      var alpha :| |alpha| == |s.basis| && Sat(s.C, alpha, s.g);
      assert Witness(s, alpha, Point(s, alpha));
      assert Contains(s, Point(s, alpha));
    }
    if exists p :: Contains(s, p) {
      var p :| Contains(s, p);
      var alpha :| Witness(s, alpha, p);
      assert |alpha| == |s.basis| && Sat(s.C, alpha, s.g);
      assert Nonempty(s);
    }
  }

  /** Every point of a star has the star's dimension. */
  lemma ContainsDim(s: Star, p: Vec)
    requires Contains(s, p)
    ensures |p| == |s.center|
  {
  }

  /** The one-generator star alpha in [-1, -1/2]: it has points, yet the program that
      `is_empty` poses (alpha >= 0 by linprog's default bounds) is infeasible, so a correct
      LP backend answers status 2 and `is_empty` reports the star empty. */
  lemma IsEmptyMissesNegativeCoefficients()
    ensures var s := Star([0.0], [[1.0]], [[1.0], [-1.0]], [-0.5, 1.0]);
      && Contains(s, [-0.5])
      && !LpFeasible(EmptinessLp(s))
      && StatusSound(2, EmptinessLp(s))
      && IsEmpty(s, 2) == Ok(true)
  {
    var s := Star([0.0], [[1.0]], [[1.0], [-1.0]], [-0.5, 1.0]);
    var alpha: Vec := [-0.5];
    assert Col(s.basis, 0) == [1.0];
    Dot1(-0.5, 1.0);
    Dot1(1.0, -0.5);
    Dot1(-1.0, -0.5);
    assert Point(s, alpha) == [-0.5];
    assert MatVec(s.C, alpha) == [-0.5, 0.5];
    assert Witness(s, alpha, [-0.5]);
    forall x | |x| == 1 && Sat(s.C, x, s.g) ensures x[0] <= -0.5 {
      FirstRowBound(s.C, x, s.g);
    }
  }

  // A one-variable predicate whose first row is (1) bounds that variable by g[0].
  lemma FirstRowBound(C: seq<Vec>, x: Vec, g: Vec)
    requires |x| == 1 && |C| > 0 && C[0] == [1.0] && Sat(C, x, g)
    ensures x[0] <= g[0]
  {
    Dot1(1.0, x[0]);
    assert x == [x[0]];
    assert MatVec(C, x)[0] == Dot(C[0], x);
  }

  // ------------------------------------------------------------------ intersections

  /** `intersection_poly` as written: the guards (the row-length guard only trips on an empty
      first row, since it takes the length of an element-wise comparison), then numpy's shape
      checks of `A @ basis` and of the vertical stack, then C ++ (A @ basis) and
      g ++ (rhs - A @ center). */
  function IntersectPoly(s: Star, A: seq<Vec>, rhs: Vec): (r: Result<Star>)
    requires WellShaped(s)
    ensures r.Ok? <==> |A| > 0 && |A[0]| > 0 && |rhs| == |A| && HasWidth(A, |s.basis|) && |s.center| == |s.basis|
    ensures |A| == 0 ==> r == Err(IndexOutOfRange)
    ensures |A| > 0 && |A[0]| == 0 ==> r == Err(ConstraintLength)
    ensures |A| > 0 && |A[0]| > 0 && |rhs| != |A| ==> r == Err(RhsLength)
    ensures r.Ok? ==> && WellShaped(r.value)
                      && r.value.center == s.center && r.value.basis == s.basis
                      && |r.value.C| == |s.C| + |A| && r.value.C[..|s.C|] == s.C
                      && |r.value.g| == |s.g| + |A| && r.value.g[..|s.g|] == s.g
    ensures r.Ok? ==> forall k, j :: 0 <= k < |A| && 0 <= j < |s.basis| ==>
                        r.value.C[|s.C| + k][j] == Dot(A[k], Col(s.basis, j))
    ensures r.Ok? ==> forall k :: 0 <= k < |A| ==> r.value.g[|s.g| + k] == rhs[k] - Dot(A[k], s.center)
  {
    if |A| == 0 then Err(IndexOutOfRange)
    else if |A[0]| == 0 then Err(ConstraintLength)
    else if |rhs| != |A| then Err(RhsLength)
    else if !HasWidth(A, |s.basis|) then Err(ShapeMismatch)
    else if |s.center| != |s.basis| then Err(ShapeMismatch)
    else
      var n := |s.center|;
      Ok(s.(C := s.C + MatMul(A, s.basis, n), g := s.g + Sub(rhs, MatVec(A, s.center))))
  }

  /** `intersection_halfspace` as written: the one-row case of `intersection_poly`. */
  function IntersectHalfspace(s: Star, H: Vec, rhs: real): (r: Result<Star>)
    requires WellShaped(s)
    ensures r == IntersectPoly(s, [H], [rhs])
    ensures r.Ok? <==> 0 < |H| == |s.center| == |s.basis|
  {
    if |H| == 0 then Err(ConstraintLength) else IntersectPoly(s, [H], [rhs])
  }

  /** The intersection with A . x <= rhs mapped through the generators:
      new rows A @ basis^T, new bounds rhs - A @ center. */
  function IntersectPolyIntended(s: Star, A: seq<Vec>, rhs: Vec): (r: Star)
    requires WellShaped(s) && HasWidth(A, |s.center|) && |rhs| == |A|
    ensures WellShaped(r) && r.center == s.center && r.basis == s.basis
    ensures |r.C| == |s.C| + |A| && r.C[..|s.C|] == s.C && r.g[..|s.g|] == s.g
  {
    s.(C := s.C + seq(|A|, k requires 0 <= k < |A| => MatVec(s.basis, A[k])),
       g := s.g + Sub(rhs, MatVec(A, s.center)))
  }

  /** The intended intersection has exactly the points of s that satisfy A . x <= rhs. */
  lemma IntersectPolyIntendedExact(s: Star, A: seq<Vec>, rhs: Vec, p: Vec)
    requires WellShaped(s) && HasWidth(A, |s.center|) && |rhs| == |A|
    ensures Contains(IntersectPolyIntended(s, A, rhs), p) <==> Contains(s, p) && Sat(A, p, rhs)
  {
    var t := IntersectPolyIntended(s, A, rhs);
    if Contains(t, p) {
      var alpha :| Witness(t, alpha, p);
      IntendedRows(s, A, rhs, alpha);
      assert Witness(s, alpha, p);
    }
    if Contains(s, p) && Sat(A, p, rhs) {
      var alpha :| Witness(s, alpha, p);
      IntendedRows(s, A, rhs, alpha);
      assert Witness(t, alpha, p);
    }
  }

  // For one coefficient vector: the appended rows hold iff its point satisfies A . x <= rhs.
  lemma IntendedRows(s: Star, A: seq<Vec>, rhs: Vec, alpha: Vec)
    requires WellShaped(s) && HasWidth(A, |s.center|) && |rhs| == |A| && |alpha| == |s.basis|
    ensures var t := IntersectPolyIntended(s, A, rhs);
      Sat(t.C, alpha, t.g) <==> Sat(s.C, alpha, s.g) && Sat(A, Point(s, alpha), rhs)
  {
    var p := Point(s, alpha);
    var rows := seq(|A|, k requires 0 <= k < |A| => MatVec(s.basis, A[k]));
    var bounds := Sub(rhs, MatVec(A, s.center));
    SatAppend(s.C, s.g, rows, bounds, alpha);
    forall k | 0 <= k < |A|
      ensures MatVec(rows, alpha)[k] <= bounds[k] <==> MatVec(A, p)[k] <= rhs[k]
    {
      RowThroughBasis(s, A[k], alpha);
    }
    assert Sat(rows, alpha, bounds) <==> Sat(A, p, rhs);
  }

  // A stacked predicate holds exactly when both of its parts do.
  lemma SatAppend(C1: seq<Vec>, g1: Vec, C2: seq<Vec>, g2: Vec, x: Vec)
    requires |g1| == |C1| && |g2| == |C2| && HasWidth(C1, |x|) && HasWidth(C2, |x|)
    ensures Sat(C1 + C2, x, g1 + g2) <==> Sat(C1, x, g1) && Sat(C2, x, g2)
  {
    var M := MatVec(C1 + C2, x);
    assert forall i :: 0 <= i < |C1| ==> M[i] == MatVec(C1, x)[i] && (g1 + g2)[i] == g1[i];
    assert forall k :: 0 <= k < |C2| ==> M[|C1| + k] == MatVec(C2, x)[k] && (g1 + g2)[|C1| + k] == g2[k];
  }

  /** a . point(alpha) == (basis @ a) . alpha + a . center */
  lemma RowThroughBasis(s: Star, a: Vec, alpha: Vec)
    requires WellShaped(s) && |a| == |s.center| && |alpha| == |s.basis|
    ensures Dot(a, Point(s, alpha)) == Dot(MatVec(s.basis, a), alpha) + Dot(a, s.center)
  {
    var n := |s.center|;
    DotAdd(a, s.center, Combination(s.basis, alpha, n));
    DotExchange(a, s.basis, alpha);
    DotComm(alpha, MatVec(s.basis, a));
  }

  /** B is its own transpose. */
  predicate SymmetricBasis(B: seq<Vec>) {
    HasWidth(B, |B|) && forall i, j :: 0 <= i < |B| && 0 <= j < |B| ==> B[i][j] == B[j][i]
  }

  /** With a symmetric basis (as `from_poly`'s identity) `A @ basis` and `A @ basis^T`
      coincide, so the source's intersection is the intended one. */
  lemma IntersectPolySymmetricAgrees(s: Star, A: seq<Vec>, rhs: Vec)
    requires WellShaped(s) && SymmetricBasis(s.basis) && |s.center| == |s.basis|
    requires |A| > 0 && |rhs| == |A| && HasWidth(A, |s.center|) && |s.center| > 0
    ensures IntersectPoly(s, A, rhs) == Ok(IntersectPolyIntended(s, A, rhs))
  {
    SymmetricMatMul(A, s.basis);
  }

  // Row by row, A @ B equals A @ B^T when B is symmetric.
  lemma SymmetricMatMul(A: seq<Vec>, B: seq<Vec>)
    requires SymmetricBasis(B) && HasWidth(A, |B|)
    ensures MatMul(A, B, |B|) == seq(|A|, k requires 0 <= k < |A| => MatVec(B, A[k]))
  {
    forall k | 0 <= k < |A| ensures MatMul(A, B, |B|)[k] == MatVec(B, A[k]) {
      SymmetricRow(A[k], B);
    }
  }

  lemma SymmetricRow(a: Vec, B: seq<Vec>)
    requires SymmetricBasis(B) && |a| == |B|
    ensures seq(|B|, j requires 0 <= j < |B| => Dot(a, Col(B, j))) == MatVec(B, a)
  {
    forall j | 0 <= j < |B| ensures Dot(a, Col(B, j)) == Dot(B[j], a) {
      assert Col(B, j) == B[j];
      DotComm(a, B[j]);
    }
  }

  /** The source's `A @ basis` lets through points outside the half-space: with generators
      (1, 1) and (0, 1) and the half-space x0 <= 0, alpha = (1, -2) passes the appended row
      although its point (1, -1) has x0 = 1. */
  lemma IntersectPolyTransposeEscape()
    ensures var s := Star([0.0, 0.0], [[1.0, 1.0], [0.0, 1.0]], [], []);
      && IntersectPoly(s, [[1.0, 0.0]], [0.0]).Ok?
      && Contains(IntersectPoly(s, [[1.0, 0.0]], [0.0]).value, [1.0, -1.0])
      && !Contains(IntersectPolyIntended(s, [[1.0, 0.0]], [0.0]), [1.0, -1.0])
  {
    var s := Star([0.0, 0.0], [[1.0, 1.0], [0.0, 1.0]], [], []);
    var A: seq<Vec> := [[1.0, 0.0]];
    var r := IntersectPoly(s, A, [0.0]).value;
    var alpha: Vec := [1.0, -2.0];
    assert Col(s.basis, 0) == [1.0, 0.0];
    assert Col(s.basis, 1) == [1.0, 1.0];
    Dot2(1.0, 0.0, 1.0, 0.0);
    Dot2(1.0, 0.0, 1.0, 1.0);
    Dot2(1.0, 1.0, 1.0, -2.0);
    Dot2(1.0, -2.0, 1.0, 0.0);
    Dot2(1.0, -2.0, 1.0, 1.0);
    Dot2(1.0, 0.0, 0.0, 0.0);
    Dot2(1.0, 0.0, 1.0, -1.0);
    assert MatMul(A, s.basis, 2)[0] == [1.0, 1.0];
    assert r.C == [[1.0, 1.0]];
    assert r.g == [0.0];
    assert Point(r, alpha) == [1.0, -1.0];
    assert MatVec(r.C, alpha) == [-1.0];
    assert Witness(r, alpha, [1.0, -1.0]);
    IntersectPolyIntendedExact(s, A, [0.0], [1.0, -1.0]);
    assert MatVec(A, [1.0, -1.0]) == [1.0];
  }

  // ------------------------------------------------------------------ satisfies

  /** `satisfies(H, rhs)`: intersect a copy with -H . x <= -rhs and report `is_empty`. */
  function SatisfiesValue(s: Star, H: Vec, rhs: real, status: int): (r: Result<bool>)
    requires WellShaped(s)
    ensures r.Ok? ==> IntersectHalfspace(s, Neg(H), -rhs).Ok?
    ensures r.Ok? ==> r == IsEmpty(IntersectHalfspace(s, Neg(H), -rhs).value, status)
    ensures IntersectHalfspace(s, Neg(H), -rhs).Err? ==> r == Err(IntersectHalfspace(s, Neg(H), -rhs).error)
  {
    match IntersectHalfspace(s, Neg(H), -rhs)
    case Err(e) => Err(e)
    case Ok(t) => IsEmpty(t, status)
  }

  /** `satisfies` with both corrections: true exactly when every point of s lies strictly
      inside H . x < rhs (the complement tested is the closed -H . x <= -rhs). */
  function SatisfiesIntended(s: Star, H: Vec, rhs: real, status: int): (r: Result<bool>)
    requires WellShaped(s) && |H| == |s.center|
  {
    IsEmptyIntended(IntersectPolyIntended(s, [Neg(H)], [-rhs]), status)
  }

  /** Every point of s lies strictly inside H . x < rhs. */
  ghost predicate StrictlyInside(s: Star, H: Vec, rhs: real) {
    forall p :: |p| == |H| && Contains(s, p) ==> Dot(H, p) < rhs
  }

  lemma SatisfiesIntendedSound(s: Star, H: Vec, rhs: real, status: int)
    requires WellShaped(s) && |H| == |s.center|
    requires StatusSound(status, FreeEmptinessLp(IntersectPolyIntended(s, [Neg(H)], [-rhs])))
    ensures SatisfiesIntended(s, H, rhs, status).Ok? ==>
      (SatisfiesIntended(s, H, rhs, status).value <==>
         StrictlyInside(s, H, rhs))
  {
    ComplementEmpty(s, H, rhs);
  }

  // The closed complement -H . x <= -rhs of s is empty exactly when s lies inside H . x < rhs.
  lemma ComplementEmpty(s: Star, H: Vec, rhs: real)
    requires WellShaped(s) && |H| == |s.center|
    ensures !Nonempty(IntersectPolyIntended(s, [Neg(H)], [-rhs])) <==> StrictlyInside(s, H, rhs)
  {
    var t := IntersectPolyIntended(s, [Neg(H)], [-rhs]);
    NonemptyHasPoint(t);
    if !Nonempty(t) {
      forall p | |p| == |H| && Contains(s, p) ensures Dot(H, p) < rhs {
        ComplementPoint(s, H, rhs, p);
      }
    } else {
      var q :| Contains(t, q);
      ContainsDim(t, q);
      ComplementPoint(s, H, rhs, q);
    }
  }

  // The one-row intersection with -H . x <= -rhs is the part of s where H . x >= rhs.
  lemma ComplementPoint(s: Star, H: Vec, rhs: real, p: Vec)
    requires WellShaped(s) && |H| == |s.center| == |p|
    ensures Contains(IntersectPolyIntended(s, [Neg(H)], [-rhs]), p) <==> Contains(s, p) && Dot(H, p) >= rhs
  {
    IntersectPolyIntendedExact(s, [Neg(H)], [-rhs], p);
    DotNeg(H, p);
    assert MatVec([Neg(H)], p) == [-Dot(H, p)];
    assert LeAll(MatVec([Neg(H)], p), [-rhs]) <==> MatVec([Neg(H)], p)[0] <= -rhs;
  }

  // ------------------------------------------------------------------ bounds-derived points

  /** Dimensions 0 .. k-1 all have an answer from `get_max_min`: `None` stands for a
      `linprog` call without a point, on which reading `res.x` raises. */
  ghost predicate Answered(s: Star, bounds: (Star, nat) -> Option<(real, real)>, k: nat) {
    forall d: nat :: d < k ==> bounds(s, d).Some?
  }

  /** The (min, max) pairs of dimensions 0 .. k-1, in order. */
  ghost function Answers(s: Star, bounds: (Star, nat) -> Option<(real, real)>, k: nat): (ps: seq<(real, real)>)
    requires Answered(s, bounds, k)
    ensures |ps| == k && forall d :: 0 <= d < k ==> bounds(s, d) == Some(ps[d])
  {
    seq(k, d requires 0 <= d < k => bounds(s, d).value)
  }

  /** The value `get_true_center` appends per dimension, as written: max - min / 2. */
  function CenterFormula(bounds: seq<(real, real)>): (pt: Vec)
    ensures |pt| == |bounds|
    ensures forall i :: 0 <= i < |bounds| ==>
      (pt[i] == Midpoint(bounds)[i] <==> bounds[i].1 == 2.0 * bounds[i].0)
  {
    seq(|bounds|, i requires 0 <= i < |bounds| => bounds[i].1 - bounds[i].0 / 2.0)
  }

  /** `get_true_center`: one `get_max_min` per dimension of the star, in order; the first
      dimension without an answer raises. */
  method GetTrueCenter(s: Star, bounds: (Star, nat) -> Option<(real, real)>) returns (r: Result<Vec>)
    ensures r.Err? <==> exists d: nat :: d < |s.center| && bounds(s, d).None?
    ensures r.Err? ==> r.error == NoSolution
    ensures r.Ok? ==> Answered(s, bounds, |s.center|) && r.value == CenterFormula(Answers(s, bounds, |s.center|))
  {
    var pt: Vec := [];
    for i := 0 to |s.center|
      invariant Answered(s, bounds, i)
      invariant pt == CenterFormula(Answers(s, bounds, i))
    {
      var b := bounds(s, i);
      if b.None? {
        return Err(NoSolution);
      }
      var (min, max) := b.value;
      pt := pt + [max - min / 2.0];
      assert Answers(s, bounds, i + 1) == Answers(s, bounds, i) + [(min, max)];
    }
    r := Ok(pt);
  }

  /** On the interval [-4, -2] the source's value 0 is not even inside the interval. */
  lemma GetTrueCenterLeavesBox()
    ensures CenterFormula([(-4.0, -2.0)]) == [0.0] && !(-4.0 <= 0.0 <= -2.0)
  {
  }

  /** The midpoint of each interval. */
  function Midpoint(bounds: seq<(real, real)>): (pt: Vec)
    ensures |pt| == |bounds|
    ensures forall i :: 0 <= i < |bounds| ==> pt[i] - bounds[i].0 == bounds[i].1 - pt[i]
    ensures forall i :: 0 <= i < |bounds| && bounds[i].0 <= bounds[i].1 ==> bounds[i].0 <= pt[i] <= bounds[i].1
  {
    seq(|bounds|, i requires 0 <= i < |bounds| => (bounds[i].0 + bounds[i].1) / 2.0)
  }

  // ------------------------------------------------------------------ maximize

  /** The LP objective `maximize` builds after negating the direction d: (-d)^T @ basis,
      i.e. coordinate j is -(sum_i d[i] * basis[i][j]). */
  function MaximizeObjective(s: Star, d: Vec): (c: Vec)
    requires WellShaped(s) && |d| == |s.basis|
    ensures |c| == |s.center|
    ensures forall x {:trigger MatVec(s.basis, x)} :: |x| == |s.center| ==> Dot(x, c) == -Dot(d, MatVec(s.basis, x))
  {
    var c := Combination(s.basis, Neg(d), |s.center|);
    forall x | |x| == |s.center| ensures Dot(x, c) == -Dot(d, MatVec(s.basis, x)) {
      DotExchange(x, s.basis, Neg(d));
      DotNeg(d, MatVec(s.basis, x));
    }
    c
  }

  /** The objective that makes minimising c . alpha maximise d . point(alpha):
      -(basis @ d). */
  function MaximizeObjectiveIntended(s: Star, d: Vec): (c: Vec)
    requires WellShaped(s) && |d| == |s.center|
    ensures |c| == |s.basis|
    ensures forall alpha :: |alpha| == |s.basis| ==>
      Dot(c, alpha) == Dot(d, s.center) - Dot(d, Point(s, alpha))
  {
    var c := Neg(MatVec(s.basis, d));
    forall alpha | |alpha| == |s.basis|
      ensures Dot(c, alpha) == Dot(d, s.center) - Dot(d, Point(s, alpha))
    {
      RowThroughBasis(s, d, alpha);
      DotNeg(MatVec(s.basis, d), alpha);
    }
    c
  }

  /** With a symmetric basis (as `from_poly`'s identity) `d.T @ basis` and `basis @ d`
      coincide, so the source's objective is the intended one. */
  lemma MaximizeObjectiveSymmetricAgrees(s: Star, d: Vec)
    requires WellShaped(s) && SymmetricBasis(s.basis) && |d| == |s.center| == |s.basis|
    ensures MaximizeObjective(s, d) == MaximizeObjectiveIntended(s, d)
  {
    var B := s.basis;
    SymmetricRow(Neg(d), B);
    NegMatVec(B, d);
  }

  // Negating the coefficients negates every row's product.
  lemma NegMatVec(B: seq<Vec>, d: Vec)
    requires HasWidth(B, |d|)
    ensures MatVec(B, Neg(d)) == Neg(MatVec(B, d))
  {
    forall i | 0 <= i < |B| ensures MatVec(B, Neg(d))[i] == Neg(MatVec(B, d))[i] {
      DotComm(B[i], Neg(d));
      DotNeg(d, B[i]);
      DotComm(d, B[i]);
    }
  }

  /** With generators (1, 1) and (0, 1) and d = (1, 0), the source's objective values
      alpha = (0, 1) at -1 although d . point(alpha) is 0. */
  lemma MaximizeObjectiveMismatch()
    ensures var s := Star([0.0, 0.0], [[1.0, 1.0], [0.0, 1.0]], [], []);
      && Dot(MaximizeObjective(s, [1.0, 0.0]), [0.0, 1.0]) == -1.0
      && Dot([1.0, 0.0], s.center) - Dot([1.0, 0.0], Point(s, [0.0, 1.0])) == 0.0
  {
    var s := Star([0.0, 0.0], [[1.0, 1.0], [0.0, 1.0]], [], []);
    assert Col(s.basis, 0) == [1.0, 0.0];
    assert Col(s.basis, 1) == [1.0, 1.0];
    assert Neg([1.0, 0.0]) == [-1.0, 0.0];
    assert MaximizeObjective(s, [1.0, 0.0]) == [-1.0, -1.0];
    assert Point(s, [0.0, 1.0]) == [0.0, 1.0];
  }

  /** The point `maximize` maps the LP's answer back to lies in the star whenever the
      answer satisfies the predicate. */
  lemma BackMapInStar(s: Star, alpha: Vec)
    requires WellShaped(s) && |alpha| == |s.basis| && Sat(s.C, alpha, s.g)
    ensures Contains(s, Point(s, alpha))
  {
    assert Witness(s, alpha, Point(s, alpha));
  }

  /** `maximize`: negates the caller's direction array in place, minimises the resulting
      objective with the LP oracle `lp` (None when `linprog` gives no point) and maps the
      answer back through the generators. The product `direction.T @ basis` needs as many
      directions as generators, and `linprog` needs C's m columns to match the objective's
      n entries; the negation happens before either check. */
  method Maximize(s: Star, direction: array<real>, lp: Vec -> Option<Vec>) returns (r: Result<Vec>)
    requires WellShaped(s)
    requires forall c :: lp(c).Some? ==> |lp(c).value| == |c|
    modifies direction
    ensures direction[..] == Neg(old(direction[..]))
    ensures direction.Length != |s.basis| || |s.center| != |s.basis| ==> r == Err(ShapeMismatch)
    ensures direction.Length == |s.basis| == |s.center| &&
            lp(MaximizeObjective(s, old(direction[..]))).None? ==>
              r == Err(NoSolution)
    ensures direction.Length == |s.basis| == |s.center| &&
            lp(MaximizeObjective(s, old(direction[..]))).Some? ==>
              r == Ok(Point(s, lp(MaximizeObjective(s, old(direction[..]))).value))
    ensures r.Ok? && Sat(s.C, lp(MaximizeObjective(s, old(direction[..]))).value, s.g) ==>
              Contains(s, r.value)
  {
    ghost var d := direction[..];
    var i := 0;
    while i < direction.Length
      invariant 0 <= i <= direction.Length
      invariant forall k :: 0 <= k < i ==> direction[k] == -d[k]
      invariant forall k :: i <= k < direction.Length ==> direction[k] == d[k]
    {
      direction[i] := -direction[i];
      i := i + 1;
    }
    assert direction[..] == Neg(d);
    if direction.Length != |s.basis| || |s.center| != |s.basis| {
      return Err(ShapeMismatch);
    }
    var objective := Combination(s.basis, direction[..], |s.center|);
    var answer := lp(objective);
    if answer.None? {
      return Err(NoSolution);
    }
    r := Ok(Point(s, answer.value));
    if Sat(s.C, answer.value, s.g) {
      BackMapInStar(s, answer.value);
    }
  }

  // ------------------------------------------------------------------ unsupported

  /** `contain_point` raises before doing anything. */
  function ContainPoint(s: Star, pt: Vec): (r: Result<bool>)
    ensures r == Err(NotImplemented)
  {
    Err(NotImplemented)
  }

  /** `to_poly` raises before doing anything. */
  function ToPoly(s: Star): (r: Result<(seq<Vec>, Vec)>)
    ensures r == Err(NotImplemented)
  {
    Err(NotImplemented)
  }

  // ------------------------------------------------------------------ the mutable object

  /** A StarSet object. Center and basis never change after construction; the predicate
      (C, g) is reassigned by `intersection_poly`. */
  class StarSet {
    const n: nat
    const m: nat
    const center: Vec
    const basis: seq<Vec>
    var C: seq<Vec>
    var g: Vec

    ghost predicate Valid()
      reads this
    {
      n == |center| && m == |basis| && WellShaped(Star(center, basis, C, g))
    }

    function Value(): Star
      reads this
    {
      Star(center, basis, C, g)
    }

    /** The successful path of `__init__` (the checks are `Create`'s). */
    constructor (s: Star)
      requires WellShaped(s)
      ensures Valid() && Value() == s
    {
      n, m := |s.center|, |s.basis|;
      center, basis := s.center, s.basis;
      C, g := s.C, s.g;
    }

    /** `StarSet(center, basis, C, g)`: raises exactly when `Construct` does. */
    static method Create(center: Vec, basis: seq<Vec>, C: seq<Vec>, g: Vec) returns (r: Result<StarSet>)
      ensures r.Ok? <==> Construct(center, basis, C, g).Ok?
      ensures r.Ok? ==> fresh(r.value) && r.value.Valid() && r.value.Value() == Star(center, basis, C, g)
      ensures r.Err? ==> r.error == Construct(center, basis, C, g).error
    {
      match Construct(center, basis, C, g)
      case Err(e) =>
        r := Err(e);
      case Ok(s) =>
        var star := new StarSet(s);
        r := Ok(star);
    }

    /** `copy` / `starcopy`: a fresh object with the same value. */
    method Copy() returns (c: StarSet)
      requires Valid()
      ensures fresh(c) && c.Valid() && c.Value() == Value()
    {
      c := new StarSet(Value());
    }

    /** `intersection_poly`: on success C and g are replaced by their extensions;
        when it raises, nothing has been assigned yet. */
    method IntersectionPoly(A: seq<Vec>, rhs: Vec) returns (r: Result<()>)
      requires Valid()
      modifies this
      ensures Valid()
      ensures r.Ok? <==> IntersectPoly(old(Value()), A, rhs).Ok?
      ensures r.Ok? ==> Value() == IntersectPoly(old(Value()), A, rhs).value
      ensures r.Err? ==> r.error == IntersectPoly(old(Value()), A, rhs).error && Value() == old(Value())
    {
      if |A| == 0 {
        return Err(IndexOutOfRange);
      }
      if |A[0]| == 0 {
        return Err(ConstraintLength);
      }
      if |rhs| != |A| {
        return Err(RhsLength);
      }
      if !HasWidth(A, m) || n != m {
        return Err(ShapeMismatch);
      }
      var newC := MatMul(A, basis, n);
      var newG := Sub(rhs, MatVec(A, center));
      C := C + newC;
      g := g + newG;
      r := Ok(());
    }

    /** `intersection_halfspace`: the guard on H, then a one-row `intersection_poly`. */
    method IntersectionHalfspace(H: Vec, rhs: real) returns (r: Result<()>)
      requires Valid()
      modifies this
      ensures Valid()
      ensures r.Ok? <==> IntersectHalfspace(old(Value()), H, rhs).Ok?
      ensures r.Ok? ==> Value() == IntersectHalfspace(old(Value()), H, rhs).value
      ensures r.Err? ==> r.error == IntersectHalfspace(old(Value()), H, rhs).error && Value() == old(Value())
    {
      if |H| == 0 {
        return Err(ConstraintLength);
      }
      r := IntersectionPoly([H], [rhs]);
    }

    /** `get_halfspace_intersection`: the half-space is applied to a fresh copy; the
        argument object is not modified. */
    static method GetHalfspaceIntersection(star: StarSet, H: Vec, rhs: real) returns (r: Result<StarSet>)
      requires star.Valid()
      ensures r.Ok? <==> IntersectHalfspace(star.Value(), H, rhs).Ok?
      ensures r.Ok? ==> fresh(r.value) && r.value.Valid()
                        && r.value.Value() == IntersectHalfspace(star.Value(), H, rhs).value
      ensures r.Err? ==> r.error == IntersectHalfspace(star.Value(), H, rhs).error
    {
      var copy := new StarSet(star.Value());
      var res := copy.IntersectionHalfspace(H, rhs);
      if res.Err? {
        return Err(res.error);
      }
      r := Ok(copy);
    }

    /** `satisfies`: works on a copy, so the receiver is left as it was (no modifies clause);
        `status` is the LP backend's answer for the copy's predicate. */
    method Satisfies(H: Vec, rhs: real, status: int) returns (r: Result<bool>)
      requires Valid()
      ensures r == SatisfiesValue(Value(), H, rhs, status)
    {
      var copy := GetHalfspaceIntersection(this, Neg(H), -rhs);
      if copy.Err? {
        return Err(copy.error);
      }
      r := IsEmpty(copy.value.Value(), status);
    }
  }
}
