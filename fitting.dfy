/** The sample-and-fit side of verse/stars/starset.py: the generic box predicate of
    `new_pred`, rejection sampling in `sample_star`, the bounding box of several stars in
    `combine_stars`, and the validation, constraint system and single retry of
    `post_cont_pca`. The random candidates, the LP bounds and Z3's answers are parameters. */
module Fitting {
  import opened LinAlg
  import opened Outcomes
  import opened Stars
  import opened Containment

  // ------------------------------------------------------------------ new_pred

  /** The zonotope predicate over m coefficients: row 2i is +e_i and row 2i+1 is -e_i. */
  function BoxC(m: nat): (C: seq<Vec>)
    ensures |C| == 2 * m && HasWidth(C, m)
  {
    seq(2 * m, j requires 0 <= j < 2 * m => seq(m, i requires 0 <= i < m => BoxEntry(j, i)))
  }

  // Entry (j, i) of the box predicate matrix.
  function BoxEntry(j: int, i: int): real {
    if j == 2 * i then 1.0 else if j == 2 * i + 1 then -1.0 else 0.0
  }

  /** `new_pred(old_star)`: the same center and basis under BoxC(m) . alpha <= ones(len(g)).
      The constructor then rejects a g whose length is not 2m, and with no generators the
      transposed empty list has no second axis to read. */
  function NewPredicate(s: Star): (r: Result<Star>)
    requires WellShaped(s)
    ensures r.Ok? <==> |s.basis| > 0 && |s.g| == 2 * |s.basis|
    ensures |s.basis| == 0 ==> r == Err(IndexOutOfRange)
    ensures |s.basis| > 0 && |s.g| != 2 * |s.basis| ==> r == Err(PredicateLength)
    ensures r.Ok? ==> WellShaped(r.value) && r.value.center == s.center && r.value.basis == s.basis
    ensures r.Ok? ==> r.value.C == BoxC(|s.basis|) && r.value.g == Const(2 * |s.basis|, 1.0)
  {
    if |s.basis| == 0 then Err(IndexOutOfRange)
    else Construct(s.center, s.basis, BoxC(|s.basis|), Const(|s.g|, 1.0))
  }

  /** The loops of `new_pred`: one list of length 2m per coefficient, then the transpose. */
  method NewPred(s: Star) returns (r: Result<Star>)
    requires WellShaped(s)
    ensures r == NewPredicate(s)
  {
    var cols := |s.basis|;
    var newC: seq<Vec> := [];
    for i := 0 to cols
      invariant |newC| == i && HasWidth(newC, 2 * cols)
      invariant forall k, j :: 0 <= k < i && 0 <= j < 2 * cols ==> newC[k][j] == BoxC(cols)[j][k]
    {
      var col: Vec := [];
      for j := 0 to cols * 2
        invariant |col| == j
        invariant forall l :: 0 <= l < j ==> col[l] == BoxC(cols)[l][i]
      {
        if i * 2 == j {
          col := col + [1.0];
        } else if i * 2 + 1 == j {
          col := col + [-1.0];
        } else {
          col := col + [0.0];
        }
      }
      newC := newC + [col];
    }
    if cols == 0 {
      return Err(IndexOutOfRange);
    }
    var transposed := seq(2 * cols, j requires 0 <= j < 2 * cols => Col(newC, j));
    forall j, k | 0 <= j < 2 * cols && 0 <= k < cols ensures transposed[j][k] == BoxC(cols)[j][k] {
      assert transposed[j][k] == newC[k][j];
    }
    forall j | 0 <= j < 2 * cols ensures transposed[j] == BoxC(cols)[j] {
      assert |transposed[j]| == cols;
    }
    assert transposed == BoxC(cols);
    r := Construct(s.center, s.basis, transposed, Const(|s.g|, 1.0));
  }

  /** The box predicate confines every coefficient to [-1, 1], and nothing more. */
  lemma BoxPredicateMeaning(m: nat, alpha: Vec)
    requires |alpha| == m
    ensures Sat(BoxC(m), alpha, Const(2 * m, 1.0)) <==> forall i :: 0 <= i < m ==> -1.0 <= alpha[i] <= 1.0
  {
    var C := BoxC(m);
    forall j | 0 <= j < 2 * m
      ensures MatVec(C, alpha)[j] == if j % 2 == 0 then alpha[j / 2] else -alpha[j / 2]
    {
      var i := j / 2;
      if j % 2 == 0 {
        assert j == 2 * i;
        DotIndicator(C[j], alpha, i);
      } else {
        assert j == 2 * i + 1;
        assert C[j] == Neg(Unit(m, i));
        DotNeg(Unit(m, i), alpha);
        DotUnit(i, alpha);
      }
    }
    if Sat(C, alpha, Const(2 * m, 1.0)) {
      forall i | 0 <= i < m ensures -1.0 <= alpha[i] <= 1.0 {
        assert (2 * i) % 2 == 0 && (2 * i) / 2 == i;
        assert (2 * i + 1) % 2 == 1 && (2 * i + 1) / 2 == i;
        assert MatVec(C, alpha)[2 * i] <= 1.0 && MatVec(C, alpha)[2 * i + 1] <= 1.0;
      }
    }
  }

  // ------------------------------------------------------------------ sample_star

  /** What `containment_poly(star, point)` returns (see Containment.ContainmentPoly). */
  function ContainmentOutcome(s: Star, point: Vec, check: seq<LinCon> -> bool): Result<bool>
    requires WellShaped(s)
  {
    if |point| != |s.center| then Err(PointDimension) else Ok(check(PointSystem("a", s, point)))
  }

  /** The sampling loop from the given state onward, drawing the candidates in order. */
  function SampleRun(s: Star, N: int, limit: int, cands: seq<Vec>, check: seq<LinCon> -> bool,
                     points: seq<Vec>, misses: nat): Result<seq<Vec>>
    requires WellShaped(s)
    decreases |cands|
  {
    if |points| >= N then Ok(points)
    else if |cands| == 0 then Err(CandidatesExhausted)
    else match ContainmentOutcome(s, cands[0], check)
      case Err(e) => Err(e)
      case Ok(inside) =>
        if inside then SampleRun(s, N, limit, cands[1..], check, points + [cands[0]], 0)
        else if misses + 1 > limit then Err(TooManyMisses)
        else SampleRun(s, N, limit, cands[1..], check, points, misses + 1)
  }

  /** `sample_star(star, N, tol)`: candidates drawn from the star's bounding box are kept
      when `containment_poly` accepts them; more than int(N * tol) rejections in a row
      raise. */
  method SampleStar(s: Star, N: int, tol: real, candidates: seq<Vec>, check: seq<LinCon> -> bool)
    returns (r: Result<seq<Vec>>)
    requires WellShaped(s)
    ensures r == SampleRun(s, N, Trunc(N as real * tol), candidates, check, [], 0)
  {
    var limit := Trunc(N as real * tol);
    var points: seq<Vec> := [];
    var misses: nat := 0;
    var k := 0;
    while |points| < N
      invariant 0 <= k <= |candidates|
      invariant SampleRun(s, N, limit, candidates, check, [], 0) == SampleRun(s, N, limit, candidates[k..], check, points, misses)
      decreases |candidates| - k
    {
      if k == |candidates| {
        return Err(CandidatesExhausted);
      }
      var point := candidates[k];
      assert candidates[k..][1..] == candidates[k + 1..];
      k := k + 1;
      var inside := ContainmentPoly(s, point, check);
      if inside.Err? {
        return Err(inside.error);
      }
      if inside.value {
        points := points + [point];
        misses := 0;
      } else {
        misses := misses + 1;
        if misses > limit {
          return Err(TooManyMisses);
        }
      }
    }
    r := Ok(points);
  }

  /** A completed run keeps what it had, stops at exactly N points, and adds only
      accepted candidates. */
  lemma {:induction false} SampleRunResult(s: Star, N: int, limit: int, cands: seq<Vec>, check: seq<LinCon> -> bool,
                                           points: seq<Vec>, misses: nat)
    requires WellShaped(s)
    ensures var r := SampleRun(s, N, limit, cands, check, points, misses);
      r.Ok? ==> && |r.value| == (if |points| >= N then |points| else N)
                && r.value[..|points|] == points
                && forall i :: |points| <= i < |r.value| ==>
                     r.value[i] in cands && ContainmentOutcome(s, r.value[i], check) == Ok(true)
    decreases |cands|
  {
    if |points| < N && |cands| > 0 && ContainmentOutcome(s, cands[0], check).Ok? {
      var rest := cands[1..];
      if ContainmentOutcome(s, cands[0], check).value {
        SampleRunResult(s, N, limit, rest, check, points + [cands[0]], 0);
        var r := SampleRun(s, N, limit, rest, check, points + [cands[0]], 0);
        if r.Ok? {
          assert r.value[..|points| + 1][..|points|] == r.value[..|points|];
        }
      } else {
        SampleRunResult(s, N, limit, rest, check, points, misses + 1);
      }
    }
  }

  /** With a sound solver, `sample_star` returns N points of the star. */
  lemma SampledPointsInStar(s: Star, N: int, tol: real, cands: seq<Vec>, check: seq<LinCon> -> bool)
    requires WellShaped(s) && SolverDecides(check)
    ensures var r := SampleRun(s, N, Trunc(N as real * tol), cands, check, [], 0);
      r.Ok? ==> |r.value| == (if N < 0 then 0 else N) && forall i :: 0 <= i < |r.value| ==> Contains(s, r.value[i])
  {
    var r := SampleRun(s, N, Trunc(N as real * tol), cands, check, [], 0);
    SampleRunResult(s, N, Trunc(N as real * tol), cands, check, [], 0);
    if r.Ok? {
      forall i | 0 <= i < |r.value| ensures Contains(s, r.value[i]) {
        PointSystemMeaning("a", s, r.value[i]);
        FullPrefix(s, r.value[i]);
      }
    }
  }

  /** Candidates cands[i..j] are all dimension-correct rejections. */
  predicate MissRun(s: Star, cands: seq<Vec>, check: seq<LinCon> -> bool, i: int, j: int)
    requires WellShaped(s) && 0 <= i <= j < |cands|
  {
    forall k :: i <= k <= j ==> ContainmentOutcome(s, cands[k], check) == Ok(false)
  }

  /** The misses counted when candidate j is rejected, for a run of rejections cands[i..j]
      that continues the count `misses` when it starts at the first candidate. */
  function StreakLength(i: int, j: int, misses: nat): int {
    j - i + 1 + (if i == 0 then misses else 0)
  }

  /** Giving up on misses means a run of consecutive rejections (continuing the misses
      already counted) longer than the limit: a hit resets the count. */
  lemma {:induction false} TooManyMissesWitness(s: Star, N: int, limit: int, cands: seq<Vec>, check: seq<LinCon> -> bool,
                                                points: seq<Vec>, misses: nat)
    requires WellShaped(s)
    requires SampleRun(s, N, limit, cands, check, points, misses) == Err(TooManyMisses)
    ensures exists i, j :: 0 <= i <= j < |cands| && MissRun(s, cands, check, i, j) && StreakLength(i, j, misses) > limit
    decreases |cands|
  {
    var rest := cands[1..];
    if ContainmentOutcome(s, cands[0], check) == Ok(true) {
      TooManyMissesWitness(s, N, limit, rest, check, points + [cands[0]], 0);
      var i, j :| 0 <= i <= j < |rest| && MissRun(s, rest, check, i, j) && j - i + 1 > limit;
      assert MissRun(s, cands, check, i + 1, j + 1);
    } else if misses + 1 > limit {
      assert MissRun(s, cands, check, 0, 0);
    } else {
      TooManyMissesWitness(s, N, limit, rest, check, points, misses + 1);
      var i, j :| 0 <= i <= j < |rest| && MissRun(s, rest, check, i, j) && StreakLength(i, j, misses + 1) > limit;
      if i == 0 {
        assert MissRun(s, cands, check, 0, j + 1);
      } else {
        assert MissRun(s, cands, check, i + 1, j + 1);
      }
    }
  }

  /** How many candidates the sampling loop draws before it returns or raises. */
  function Drawn(s: Star, N: int, limit: int, cands: seq<Vec>, check: seq<LinCon> -> bool,
                 points: seq<Vec>, misses: nat): (d: nat)
    requires WellShaped(s)
    ensures d <= |cands|
    decreases |cands|
  {
    if |points| >= N || |cands| == 0 then 0
    else match ContainmentOutcome(s, cands[0], check)
      case Err(_) => 1
      case Ok(inside) =>
        if inside then 1 + Drawn(s, N, limit, cands[1..], check, points + [cands[0]], 0)
        else if misses + 1 > limit then 1
        else 1 + Drawn(s, N, limit, cands[1..], check, points, misses + 1)
  }

  /** Conversely, a run that returns its points never met more than `limit` rejections in
      a row among the candidates it drew. */
  lemma {:induction false} SampleOkStreaksBounded(s: Star, N: int, limit: int, cands: seq<Vec>, check: seq<LinCon> -> bool,
                                                  points: seq<Vec>, misses: nat)
    requires WellShaped(s)
    requires SampleRun(s, N, limit, cands, check, points, misses).Ok?
    ensures forall i, j :: 0 <= i <= j < Drawn(s, N, limit, cands, check, points, misses) && MissRun(s, cands, check, i, j) ==>
      StreakLength(i, j, misses) <= limit
    decreases |cands|
  {
    if |points| < N {
      var rest := cands[1..];
      var d := Drawn(s, N, limit, cands, check, points, misses);
      if ContainmentOutcome(s, cands[0], check) == Ok(true) {
        SampleOkStreaksBounded(s, N, limit, rest, check, points + [cands[0]], 0);
        forall i, j | 0 <= i <= j < d && MissRun(s, cands, check, i, j) ensures StreakLength(i, j, misses) <= limit {
          assert MissRun(s, rest, check, i - 1, j - 1);
        }
      } else {
        SampleOkStreaksBounded(s, N, limit, rest, check, points, misses + 1);
        forall i, j | 0 <= i <= j < d && MissRun(s, cands, check, i, j) ensures StreakLength(i, j, misses) <= limit {
          if i == 0 && j > 0 {
            assert MissRun(s, rest, check, 0, j - 1);
          } else if i > 0 {
            assert MissRun(s, rest, check, i - 1, j - 1);
          }
        }
      }
    }
  }

  // ------------------------------------------------------------------ combine_stars

  /** `get_max_min(i)` solved exactly: when linprog answers with a point, every point of the
      star lies between the two values. `None` stands for an answer without a point
      (`res.x` is None), on which reading the point raises. */
  ghost predicate BoundsSound(bounds: (Star, nat) -> Option<(real, real)>, s: Star, i: nat) {
    bounds(s, i).Some? ==> forall p :: Contains(s, p) && i < |p| ==> bounds(s, i).value.0 <= p[i] <= bounds(s, i).value.1
  }

  /** Asking star k for its bounds in dimension i raises: `basis[:, i]` is out of range,
      or linprog gives no point. */
  predicate BoundsFail(stars: seq<Star>, bounds: (Star, nat) -> Option<(real, real)>, i: nat, k: nat)
    requires k < |stars|
  {
    |stars[k].center| <= i || bounds(stars[k], i).None?
  }

  /** Every query that `combine_stars` makes before dimension i, star k succeeds. */
  ghost predicate ScannedBefore(stars: seq<Star>, bounds: (Star, nat) -> Option<(real, real)>, i: nat, k: nat) {
    forall d: nat, l: nat :: l < |stars| && (d < i || (d == i && l < k)) ==> !BoundsFail(stars, bounds, d, l)
  }

  /** rect[i] is the smallest minimum and the largest maximum over all stars in dimension i. */
  ghost predicate HullRect(stars: seq<Star>, bounds: (Star, nat) -> Option<(real, real)>, rect: seq<(real, real)>)
    requires |stars| > 0
  {
    && |rect| == |stars[0].center|
    && (forall i, k :: 0 <= i < |rect| && 0 <= k < |stars| ==> bounds(stars[k], i).Some?)
    && (forall i, k :: 0 <= i < |rect| && 0 <= k < |stars| ==>
          rect[i].0 <= bounds(stars[k], i).value.0 && bounds(stars[k], i).value.1 <= rect[i].1)
    && (forall i :: 0 <= i < |rect| ==> exists k :: 0 <= k < |stars| && rect[i].0 == bounds(stars[k], i).value.0)
    && (forall i :: 0 <= i < |rect| ==> exists k :: 0 <= k < |stars| && rect[i].1 == bounds(stars[k], i).value.1)
  }

  /** `combine_stars(stars)`: per dimension of the first star, the extreme bounds over all
      stars; the box is then handed to `box2poly`/`from_polytope` (not modelled). An empty
      list raises; otherwise the first failing query, in the order dimension by dimension
      and star by star, raises: a star of lower dimension than the first, or a linprog
      without a point. */
  method CombineStars(stars: seq<Star>, bounds: (Star, nat) -> Option<(real, real)>) returns (r: Result<seq<(real, real)>>)
    ensures |stars| == 0 ==> r == Err(IndexOutOfRange)
    ensures r.Ok? <==> |stars| > 0 && ScannedBefore(stars, bounds, |stars[0].center|, 0)
    ensures r.Err? && |stars| > 0 ==>
      exists i: nat, k: nat :: i < |stars[0].center| && k < |stars| && ScannedBefore(stars, bounds, i, k)
        && BoundsFail(stars, bounds, i, k)
        && r.error == (if |stars[k].center| <= i then IndexOutOfRange else NoSolution)
    ensures r.Ok? ==> |stars| > 0 && HullRect(stars, bounds, r.value)
  {
    if |stars| == 0 {
      return Err(IndexOutOfRange);
    }
    var n := |stars[0].center|;
    var rect: seq<(real, real)> := [];
    for i := 0 to n
      invariant |rect| == i
      invariant ScannedBefore(stars, bounds, i, 0)
      invariant forall d, k :: 0 <= d < i && 0 <= k < |stars| ==> bounds(stars[k], d).Some?
      invariant forall d, k :: 0 <= d < i && 0 <= k < |stars| ==>
        rect[d].0 <= bounds(stars[k], d).value.0 && bounds(stars[k], d).value.1 <= rect[d].1
      invariant forall d :: 0 <= d < i ==> exists k :: 0 <= k < |stars| && rect[d].0 == bounds(stars[k], d).value.0
      invariant forall d :: 0 <= d < i ==> exists k :: 0 <= k < |stars| && rect[d].1 == bounds(stars[k], d).value.1
    {
      var max: Option<real> := None;
      var min: Option<real> := None;
      for k := 0 to |stars|
        invariant k > 0 <==> min.Some? && max.Some?
        invariant ScannedBefore(stars, bounds, i, k)
        invariant forall l :: 0 <= l < k ==> bounds(stars[l], i).Some?
        invariant min.Some? ==> forall l :: 0 <= l < k ==> min.value <= bounds(stars[l], i).value.0
        invariant max.Some? ==> forall l :: 0 <= l < k ==> bounds(stars[l], i).value.1 <= max.value
        invariant min.Some? ==> exists l :: 0 <= l < k && min.value == bounds(stars[l], i).value.0
        invariant max.Some? ==> exists l :: 0 <= l < k && max.value == bounds(stars[l], i).value.1
      {
        if |stars[k].center| <= i {
          assert BoundsFail(stars, bounds, i, k);
          return Err(IndexOutOfRange);
        }
        var b := bounds(stars[k], i);
        if b.None? {
          assert BoundsFail(stars, bounds, i, k);
          return Err(NoSolution);
        }
        var (thisMin, thisMax) := b.value;
        if min.None? || thisMin < min.value {
          min := Some(thisMin);
        }
        if max.None? || thisMax > max.value {
          max := Some(thisMax);
        }
      }
      rect := rect + [(min.value, max.value)];
    }
    r := Ok(rect);
  }

  /** With exact bounds the combined box covers every point of every star, in the first
      star's dimensions. */
  lemma CombinedBoxCovers(stars: seq<Star>, bounds: (Star, nat) -> Option<(real, real)>, rect: seq<(real, real)>,
                          k: nat, p: Vec)
    requires |stars| > 0 && HullRect(stars, bounds, rect)
    requires k < |stars| && forall i :: 0 <= i < |rect| ==> BoundsSound(bounds, stars[k], i)
    requires Contains(stars[k], p) && |rect| <= |p|
    ensures forall i :: 0 <= i < |rect| ==> rect[i].0 <= p[i] <= rect[i].1
  {
    forall i | 0 <= i < |rect| ensures rect[i].0 <= p[i] <= rect[i].1 {
      assert BoundsSound(bounds, stars[k], i);
      assert bounds(stars[k], i).Some?;
      assert rect[i].0 <= bounds(stars[k], i).value.0 && bounds(stars[k], i).value.1 <= rect[i].1;
    }
  }

  /** For a single star the combined box is that star's own box. */
  lemma CombineSingle(s: Star, bounds: (Star, nat) -> Option<(real, real)>, rect: seq<(real, real)>)
    requires HullRect([s], bounds, rect)
    ensures |rect| == |s.center| && forall i :: 0 <= i < |rect| ==> bounds(s, i) == Some(rect[i])
  {
    forall i | 0 <= i < |rect| ensures bounds(s, i) == Some(rect[i]) {
      assert bounds([s][0], i).Some?;
      assert rect[i].0 <= bounds([s][0], i).value.0 && bounds([s][0], i).value.1 <= rect[i].1;
      var k :| 0 <= k < 1 && rect[i].0 == bounds([s][k], i).value.0;
      var k' :| 0 <= k' < 1 && rect[i].1 == bounds([s][k'], i).value.1;
    }
  }

  // ------------------------------------------------------------------ post_cont_pca

  /** The coefficient variables a_p__0, a_p__1, ... of sample point p. */
  function GroupVar(family: string, group: nat): nat -> Var {
    (j: nat) => Grouped(family, group, j)
  }

  /** The scale variable u. */
  const Mu: Var := Given("u")

  /** Rows are all of the same length (a two-dimensional array). */
  predicate IsMatrix(rows: seq<Vec>) {
    forall i :: 0 <= i < |rows| ==> |rows[i]| == |rows[0]|
  }

  /** `basis.shape == derived_basis.shape`, as far as rows can tell. */
  predicate SameShape(basis: seq<Vec>, derived: seq<Vec>, n: nat) {
    |derived| == |basis| && HasWidth(derived, n)
  }

  /** Point p's equalities: c_i + sum_j a_p__j * derived[j][i] == point[i]. */
  function PcaEqRows(s: Star, derived: seq<Vec>, point: Vec, p: nat): (cs: seq<LinCon>)
    requires WellShaped(s) && SameShape(s.basis, derived, |s.center|) && |point| == |s.center|
    ensures |cs| == |s.center|
  {
    seq(|s.center|, i requires 0 <= i < |s.center| =>
      LinCon([(Coef("i", i), 1.0)] + TermsFrom(GroupVar("a", p), Col(derived, i), 0), 0.0, EqualTo, point[i]))
  }

  /** Point p's predicate rows: sum_j C[i][j] * a_p__j <= u * g[i]. */
  function PcaLeRows(s: Star, p: nat): (cs: seq<LinCon>)
    requires WellShaped(s)
    ensures |cs| == |s.C|
  {
    seq(|s.C|, i requires 0 <= i < |s.C| =>
      LinCon(TermsFrom(GroupVar("a", p), s.C[i], 0) + [(Mu, -s.g[i])], 0.0, AtMost, 0.0))
  }

  /** All constraints of point p. */
  function PcaBlock(s: Star, derived: seq<Vec>, point: Vec, p: nat): (cs: seq<LinCon>)
    requires WellShaped(s) && SameShape(s.basis, derived, |s.center|) && |point| == |s.center|
    ensures |cs| == |s.center| + |s.C|
  {
    PcaEqRows(s, derived, point, p) + PcaLeRows(s, p)
  }

  /** The Optimize constraints for the first k points. */
  function PcaSystem(s: Star, derived: seq<Vec>, points: seq<Vec>, k: nat): seq<LinCon>
    requires WellShaped(s) && SameShape(s.basis, derived, |s.center|) && k <= |points|
    requires forall p :: 0 <= p < |points| ==> |points[p]| == |s.center|
  {
    if k == 0 then []
    else PcaSystem(s, derived, points, k - 1) + PcaBlock(s, derived, points[k - 1], k - 1)
  }

  /** The star an assignment describes: center c, the derived basis, C . alpha <= u * g. */
  function Fitted(s: Star, derived: seq<Vec>, env: Var -> real): (t: Star)
    requires WellShaped(s) && SameShape(s.basis, derived, |s.center|)
    ensures WellShaped(t)
  {
    Star(ValuesFrom(env, FamilyVar("i"), 0, |s.center|), derived, s.C, Scale(env(Mu), s.g))
  }

  /** Some center and scale make the derived-basis star with t's predicate contain every point. */
  ghost predicate Fits(t: Star, derived: seq<Vec>, points: seq<Vec>)
    requires WellShaped(t) && SameShape(t.basis, derived, |t.center|)
  {
    exists c: Vec, mu: real :: |c| == |t.center| &&
      forall p :: 0 <= p < |points| ==> Contains(Star(c, derived, t.C, Scale(mu, t.g)), points[p])
  }

  /** t was fitted from s: derived basis, s's predicate matrix, s's g scaled by one factor. */
  ghost predicate FittedFrom(t: Star, s: Star, derived: seq<Vec>) {
    |t.center| == |s.center| && t.basis == derived && t.C == s.C && exists mu :: t.g == Scale(mu, s.g)
  }

  /** Z3's Optimize: a model satisfies every constraint, and "no model" means unsatisfiable. */
  ghost predicate OptimizerSound(optimize: seq<LinCon> -> Option<Var -> real>) {
    forall cs :: (optimize(cs).Some? ==> AllHold(cs, optimize(cs).value)) &&
                 (optimize(cs).None? ==> !Satisfiable(cs))
  }

  /** The constraints of one sample point. */
  method AddPointBlock(o: Solver, s: Star, derived: seq<Vec>, point: Vec, p: nat)
    requires WellShaped(s) && SameShape(s.basis, derived, |s.center|) && |point| == |s.center|
    modifies o
    ensures o.assertions == old(o.assertions) + PcaBlock(s, derived, point, p)
  {
    ghost var start := o.assertions;
    for i := 0 to |s.center|
      invariant o.assertions == start + PcaEqRows(s, derived, point, p)[..i]
    {
      var terms: seq<(Var, real)> := [];
      for j := 0 to |s.basis|
        invariant terms == TermsFrom(GroupVar("a", p), Col(derived, i)[..j], 0)
      {
        terms := terms + [(Grouped("a", p, j), derived[j][i])];
      }
      assert Col(derived, i)[..|s.basis|] == Col(derived, i);
      o.Add(LinCon([(Coef("i", i), 1.0)] + terms, 0.0, EqualTo, point[i]));
      assert PcaEqRows(s, derived, point, p)[..i + 1] ==
             PcaEqRows(s, derived, point, p)[..i] + [PcaEqRows(s, derived, point, p)[i]];
    }
    assert PcaEqRows(s, derived, point, p)[..|s.center|] == PcaEqRows(s, derived, point, p);
    ghost var mid := o.assertions;
    for i := 0 to |s.C|
      invariant o.assertions == mid + PcaLeRows(s, p)[..i]
    {
      var terms: seq<(Var, real)> := [];
      for j := 0 to |s.basis|
        invariant terms == TermsFrom(GroupVar("a", p), s.C[i][..j], 0)
      {
        terms := terms + [(Grouped("a", p, j), s.C[i][j])];
      }
      assert s.C[i][..|s.basis|] == s.C[i];
      o.Add(LinCon(terms + [(Mu, -s.g[i])], 0.0, AtMost, 0.0));
      assert PcaLeRows(s, p)[..i + 1] == PcaLeRows(s, p)[..i] + [PcaLeRows(s, p)[i]];
    }
    assert PcaLeRows(s, p)[..|s.C|] == PcaLeRows(s, p);
    assert start + PcaEqRows(s, derived, point, p) + PcaLeRows(s, p) == start + PcaBlock(s, derived, point, p);
  }

  /** The inputs `post_cont_pca` accepts: a non-empty point cloud in the star's dimension
      and a derived basis of the old basis's shape. */
  predicate PcaReady(s: Star, derived: seq<Vec>, points: seq<Vec>) {
    WellShaped(s) && IsMatrix(points) && |points| > 0 && |points[0]| == |s.center| > 0 &&
    SameShape(s.basis, derived, |s.center|)
  }

  /** One attempt with predicate s: the fitted star of Optimize's model, or no valid mu. */
  function PcaAttempt(s: Star, derived: seq<Vec>, points: seq<Vec>,
                      optimize: seq<LinCon> -> Option<Var -> real>): Result<Star>
    requires PcaReady(s, derived, points)
  {
    var model := optimize(PcaSystem(s, derived, points, |points|));
    if model.Some? then Ok(Fitted(s, derived, model.value)) else Err(NoValidMu)
  }

  /** One Optimize call for the predicate of s: the system is built point by point, and a
      model's center variables and mu give the fitted star. */
  method FitOnce(s: Star, derived: seq<Vec>, points: seq<Vec>,
                 optimize: seq<LinCon> -> Option<Var -> real>) returns (r: Result<Star>)
    requires PcaReady(s, derived, points)
    ensures r == PcaAttempt(s, derived, points, optimize)
    ensures r.Ok? ==> FittedFrom(r.value, s, derived)
    ensures r.Ok? && OptimizerSound(optimize) ==> forall p :: 0 <= p < |points| ==> Contains(r.value, points[p])
    ensures r.Err? && OptimizerSound(optimize) ==> !Fits(s, derived, points)
  {
    var o := new Solver();
    for p := 0 to |points|
      invariant o.assertions == PcaSystem(s, derived, points, p)
    {
      AddPointBlock(o, s, derived, points[p], p);
    }
    var model := optimize(o.assertions);
    if model.Some? {
      var env := model.value;
      var newCenter := seq(|s.center|, i requires 0 <= i < |s.center| => env(Coef("i", i)));
      r := Construct(newCenter, derived, s.C, Scale(env(Mu), s.g));
      assert newCenter == Fitted(s, derived, env).center;
      assert r == Ok(Fitted(s, derived, env));
      if OptimizerSound(optimize) {
        PcaSystemMeaning(s, derived, points, |points|, env);
      }
      return;
    }
    if OptimizerSound(optimize) {
      FitsIffSatisfiable(s, derived, points);
    }
    r := Err(NoValidMu);
  }

  /** `post_cont_pca(old_star, derived_basis, points, usat)`: validate the inputs, ask
      Optimize for a center c and scale u under which every point is c + derived^T a_p with
      C a_p <= u g, and on failure retry once with `new_pred(old_star)`. */
  method PostContPca(s: Star, derived: seq<Vec>, points: seq<Vec>, usat: bool,
                     optimize: seq<LinCon> -> Option<Var -> real>) returns (r: Result<Star>)
    requires WellShaped(s) && IsMatrix(points) && IsMatrix(derived)
    ensures (|points| == 0 || |points[0]| == 0) ==> r == Err(NoPoints)
    ensures |points| > 0 && |points[0]| > 0 && |points[0]| != |s.center| ==> r == Err(PointDimension)
    ensures |points| > 0 && |points[0]| == |s.center| > 0 && !SameShape(s.basis, derived, |s.center|) ==>
      r == Err(BasisShape)
    ensures r.Ok? ==>
              || FittedFrom(r.value, s, derived)
              || (!usat && NewPredicate(s).Ok? && FittedFrom(r.value, NewPredicate(s).value, derived))
    ensures r.Ok? && OptimizerSound(optimize) ==> forall p :: 0 <= p < |points| ==> Contains(r.value, points[p])
    ensures r == Err(NoValidMu) && OptimizerSound(optimize) ==>
              && SameShape(s.basis, derived, |s.center|)
              && !Fits(s, derived, points)
              && (!usat ==> NewPredicate(s).Ok? && !Fits(NewPredicate(s).value, derived, points))
    ensures PcaReady(s, derived, points) &&
            (usat || optimize(PcaSystem(s, derived, points, |points|)).Some?) ==>
              r == PcaAttempt(s, derived, points, optimize)
    ensures PcaReady(s, derived, points) && !usat &&
            optimize(PcaSystem(s, derived, points, |points|)).None? && NewPredicate(s).Err? ==>
              r == Err(NewPredicate(s).error)
    ensures PcaReady(s, derived, points) && !usat &&
            optimize(PcaSystem(s, derived, points, |points|)).None? && NewPredicate(s).Ok? ==>
              r == PcaAttempt(NewPredicate(s).value, derived, points, optimize)
    decreases if usat then 0 else 1
  {
    if |points| == 0 || |points[0]| == 0 {
      return Err(NoPoints);
    }
    if |s.center| != |points[0]| {
      return Err(PointDimension);
    }
    if !(|derived| == |s.basis| && (|derived| == 0 || |derived[0]| == |s.center|)) {
      return Err(BasisShape);
    }
    r := FitOnce(s, derived, points, optimize);
    if r.Ok? || usat {
      return;
    }
    var relaxed := NewPred(s);
    if relaxed.Err? {
      return Err(relaxed.error);
    }
    r := PostContPca(relaxed.value, derived, points, true, optimize);
  }

  // What one point's block says about an assignment.
  lemma PcaEqRowsMeaning(s: Star, derived: seq<Vec>, point: Vec, p: nat, env: Var -> real)
    requires WellShaped(s) && SameShape(s.basis, derived, |s.center|) && |point| == |s.center|
    ensures AllHold(PcaEqRows(s, derived, point, p), env) <==>
      Point(Fitted(s, derived, env), ValuesFrom(env, GroupVar("a", p), 0, |s.basis|)) == point
  {
    var t := Fitted(s, derived, env);
    var alpha := ValuesFrom(env, GroupVar("a", p), 0, |s.basis|);
    var rows := PcaEqRows(s, derived, point, p);
    var q := Point(t, alpha);
    forall i | 0 <= i < |s.center| ensures Holds(rows[i], env) <==> q[i] == point[i] {
      var ts := TermsFrom(GroupVar("a", p), Col(derived, i), 0);
      assert ([(Coef("i", i), 1.0)] + ts)[1..] == ts;
      EvalTermsFrom(GroupVar("a", p), Col(derived, i), 0, env);
      DotComm(alpha, Col(derived, i));
    }
  }

  lemma PcaLeRowsMeaning(s: Star, derived: seq<Vec>, p: nat, env: Var -> real)
    requires WellShaped(s) && SameShape(s.basis, derived, |s.center|)
    ensures AllHold(PcaLeRows(s, p), env) <==>
      Sat(s.C, ValuesFrom(env, GroupVar("a", p), 0, |s.basis|), Fitted(s, derived, env).g)
  {
    var alpha := ValuesFrom(env, GroupVar("a", p), 0, |s.basis|);
    var rows := PcaLeRows(s, p);
    var g := Fitted(s, derived, env).g;
    forall i | 0 <= i < |s.C| ensures Holds(rows[i], env) <==> MatVec(s.C, alpha)[i] <= g[i] {
      EvalAppend(TermsFrom(GroupVar("a", p), s.C[i], 0), (Mu, -s.g[i]), env);
      EvalTermsFrom(GroupVar("a", p), s.C[i], 0, env);
    }
  }

  // One point's whole block: the point lies in the fitted star with a_p as coefficients.
  lemma PcaBlockMeaning(s: Star, derived: seq<Vec>, point: Vec, p: nat, env: Var -> real)
    requires WellShaped(s) && SameShape(s.basis, derived, |s.center|) && |point| == |s.center|
    ensures AllHold(PcaBlock(s, derived, point, p), env) <==>
      Witness(Fitted(s, derived, env), ValuesFrom(env, GroupVar("a", p), 0, |s.basis|), point)
  {
    AllHoldAppend(PcaEqRows(s, derived, point, p), PcaLeRows(s, p), env);
    PcaEqRowsMeaning(s, derived, point, p, env);
    PcaLeRowsMeaning(s, derived, p, env);
  }

  // The whole system holds exactly when each point's block holds.
  lemma {:induction false} PcaSystemBlocks(s: Star, derived: seq<Vec>, points: seq<Vec>, k: nat, env: Var -> real)
    requires WellShaped(s) && SameShape(s.basis, derived, |s.center|) && k <= |points|
    requires forall p :: 0 <= p < |points| ==> |points[p]| == |s.center|
    ensures AllHold(PcaSystem(s, derived, points, k), env) <==>
      forall p :: 0 <= p < k ==> AllHold(PcaBlock(s, derived, points[p], p), env)
  {
    if k > 0 {
      PcaSystemBlocks(s, derived, points, k - 1, env);
      AllHoldAppend(PcaSystem(s, derived, points, k - 1), PcaBlock(s, derived, points[k - 1], k - 1), env);
    }
  }

  /** An assignment satisfies the first k points' constraints exactly when the star it
      describes contains each of those points, with a_p as the coefficients of point p. */
  lemma PcaSystemMeaning(s: Star, derived: seq<Vec>, points: seq<Vec>, k: nat, env: Var -> real)
    requires WellShaped(s) && SameShape(s.basis, derived, |s.center|) && k <= |points|
    requires forall p :: 0 <= p < |points| ==> |points[p]| == |s.center|
    ensures AllHold(PcaSystem(s, derived, points, k), env) <==>
      forall p :: 0 <= p < k ==> Witness(Fitted(s, derived, env), ValuesFrom(env, GroupVar("a", p), 0, |s.basis|), points[p])
  {
    PcaSystemBlocks(s, derived, points, k, env);
    forall p | 0 <= p < k
      ensures AllHold(PcaBlock(s, derived, points[p], p), env) <==>
        Witness(Fitted(s, derived, env), ValuesFrom(env, GroupVar("a", p), 0, |s.basis|), points[p])
    {
      PcaBlockMeaning(s, derived, points[p], p, env);
    }
  }

  /** A model of the Optimize problem yields a center and scale that fit all points. */
  lemma SatisfiableFits(s: Star, derived: seq<Vec>, points: seq<Vec>)
    requires WellShaped(s) && SameShape(s.basis, derived, |s.center|)
    requires forall p :: 0 <= p < |points| ==> |points[p]| == |s.center|
    requires Satisfiable(PcaSystem(s, derived, points, |points|))
    ensures Fits(s, derived, points)
  {
    var env :| AllHold(PcaSystem(s, derived, points, |points|), env);
    PcaSystemMeaning(s, derived, points, |points|, env);
    var t := Fitted(s, derived, env);
    forall p | 0 <= p < |points| ensures Contains(Star(t.center, derived, s.C, Scale(env(Mu), s.g)), points[p]) {
      assert Witness(t, ValuesFrom(env, GroupVar("a", p), 0, |s.basis|), points[p]);
    }
  }

  /** A center and scale that fit all points give a model of the Optimize problem. */
  lemma FitsSatisfiable(s: Star, derived: seq<Vec>, points: seq<Vec>)
    requires WellShaped(s) && SameShape(s.basis, derived, |s.center|)
    requires forall p :: 0 <= p < |points| ==> |points[p]| == |s.center|
    requires Fits(s, derived, points)
    ensures Satisfiable(PcaSystem(s, derived, points, |points|))
  {
    var c: Vec, mu: real :| |c| == |s.center| &&
      forall p :: 0 <= p < |points| ==> Contains(Star(c, derived, s.C, Scale(mu, s.g)), points[p]);
    var t := Star(c, derived, s.C, Scale(mu, s.g));
    var alphas := ChooseCoefficients(t, points);
    var env := FitAssignment(c, mu, alphas);
    FittedAssignment(s, derived, c, mu, alphas);
    AssignmentWitnesses(t, env, alphas, points);
    PcaSystemMeaning(s, derived, points, |points|, env);
  }

  // The star read back from FitAssignment has the stored center and scale.
  lemma FittedAssignment(s: Star, derived: seq<Vec>, c: Vec, mu: real, alphas: seq<Vec>)
    requires WellShaped(s) && SameShape(s.basis, derived, |s.center|) && |c| == |s.center|
    ensures Fitted(s, derived, FitAssignment(c, mu, alphas)) == Star(c, derived, s.C, Scale(mu, s.g))
  {
    var env := FitAssignment(c, mu, alphas);
    assert ValuesFrom(env, FamilyVar("i"), 0, |s.center|) == c;
  }

  // An assignment that stores alphas[p] in the a_p variables reads the witnesses back.
  lemma AssignmentWitnesses(t: Star, env: Var -> real, alphas: seq<Vec>, points: seq<Vec>)
    requires |alphas| == |points| && forall p :: 0 <= p < |points| ==> Witness(t, alphas[p], points[p])
    requires forall p: nat, j: nat :: p < |alphas| && j < |alphas[p]| ==> env(Grouped("a", p, j)) == alphas[p][j]
    ensures forall p :: 0 <= p < |points| ==> Witness(t, ValuesFrom(env, GroupVar("a", p), 0, |t.basis|), points[p])
  {
    forall p | 0 <= p < |points| ensures Witness(t, ValuesFrom(env, GroupVar("a", p), 0, |t.basis|), points[p]) {
      assert ValuesFrom(env, GroupVar("a", p), 0, |t.basis|) == alphas[p];
    }
  }

  /** The Optimize problem is satisfiable exactly when some center and scale fit all points. */
  lemma FitsIffSatisfiable(s: Star, derived: seq<Vec>, points: seq<Vec>)
    requires WellShaped(s) && SameShape(s.basis, derived, |s.center|)
    requires forall p :: 0 <= p < |points| ==> |points[p]| == |s.center|
    ensures Satisfiable(PcaSystem(s, derived, points, |points|)) <==> Fits(s, derived, points)
  {
    if Satisfiable(PcaSystem(s, derived, points, |points|)) {
      SatisfiableFits(s, derived, points);
    }
    if Fits(s, derived, points) {
      FitsSatisfiable(s, derived, points);
    }
  }

  // One coefficient vector per point, for points the star contains.
  ghost function ChooseCoefficients(t: Star, points: seq<Vec>): (alphas: seq<Vec>)
    requires forall p :: 0 <= p < |points| ==> Contains(t, points[p])
    ensures |alphas| == |points| && forall p :: 0 <= p < |points| ==> Witness(t, alphas[p], points[p])
  {
    if |points| == 0 then []
    else
      assert Contains(t, points[|points| - 1]);
      var a :| Witness(t, a, points[|points| - 1]);
      ChooseCoefficients(t, points[..|points| - 1]) + [a]
  }

  // The assignment c_i := c[i], u := mu, a_p__j := alphas[p][j].
  function FitAssignment(c: Vec, mu: real, alphas: seq<Vec>): (env: Var -> real)
    ensures env(Mu) == mu
    ensures forall i: nat :: i < |c| ==> env(Coef("i", i)) == c[i]
    ensures forall p: nat, j: nat :: p < |alphas| && j < |alphas[p]| ==> env(Grouped("a", p, j)) == alphas[p][j]
  {
    (v: Var) =>
      match v
      case Coef(f, i) => if f == "i" && i < |c| then c[i] else 0.0
      case Grouped(f, p, j) => if f == "a" && p < |alphas| && j < |alphas[p]| then alphas[p][j] else 0.0
      case Given(name) => if name == "u" then mu else 0.0
  }
}
