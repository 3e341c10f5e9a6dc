/** The simulators and fixture stars of verse/stars/startests.py, with the post-stars the
    script draws next to them stated as facts about the model. */
module StarTests {
  import opened LinAlg
  import opened Outcomes
  import opened Stars
  import opened Propagation
  import opened Fitting

  // ------------------------------------------------------------------ simulators

  /** `sim_simple`: both coordinates move by 0.7; the time is ignored. */
  function SimSimple(vec: Vec, t: real): (r: Vec)
    requires |vec| >= 2
    ensures |r| == 2
  {
    [vec[0] + 0.7, vec[1] + 0.7]
  }

  /** `sim_ugly`: (x, y) goes to (x * y, x / y), with 0 in place of x / y when y is 0. */
  function SimUgly(vec: Vec, t: real): (r: Vec)
    requires |vec| >= 2
    ensures |r| == 2
  {
    [vec[0] * vec[1], if vec[1] == 0.0 then 0.0 else vec[0] / vec[1]]
  }

  /** The matrix diag(0.1, 0.1) that `sim` applies. */
  const Shrink: seq<Vec> := [[0.1, 0.0], [0.0, 0.1]]

  /** The number of passes of `sim`'s loop: the counts i = 0, 1, ... with i <= t. */
  function Passes(t: real): (k: nat)
    ensures k == 0 <==> t < 0.0
    ensures k > 0 ==> (k - 1) as real <= t < k as real
  {
    if t < 0.0 then 0 else t.Floor + 1
  }

  function Power(x: real, e: nat): real {
    if e == 0 then 1.0 else x * Power(x, e - 1)
  }

  /** What `sim(vec, t)` computes: vec scaled by 0.1 once per pass. */
  function SimValue(vec: Vec, t: real): (r: Vec)
    ensures |r| == |vec|
  {
    Scale(Power(0.1, Passes(t)), vec)
  }

  /** `sim(vec, t)`: the while loop over i <= t; each pass multiplies by diag(0.1, 0.1),
      which numpy rejects unless vec has two entries. */
  method Sim(vec: Vec, t: real) returns (r: Result<Vec>)
    ensures Passes(t) == 0 ==> r == Ok(vec)
    ensures Passes(t) > 0 ==> (r.Ok? <==> |vec| == 2)
    ensures r.Err? ==> r.error == ShapeMismatch
    ensures r.Ok? ==> r.value == SimValue(vec, t)
  {
    var i := 0;
    var v := vec;
    assert v == Scale(Power(0.1, 0), vec);
    while i as real <= t
      invariant 0 <= i <= Passes(t)
      invariant v == Scale(Power(0.1, i), vec)
      invariant i > 0 ==> |vec| == 2
      decreases Passes(t) - i
    {
      if |v| != 2 {
        return Err(ShapeMismatch);
      }
      ShrinkScales(vec, Power(0.1, i));
      v := MatVec(Shrink, v);
      i := i + 1;
    }
    r := Ok(v);
  }

  // One pass: diag(0.1, 0.1) times p * vec is (0.1 * p) * vec.
  lemma ShrinkScales(vec: Vec, p: real)
    requires |vec| == 2
    ensures MatVec(Shrink, Scale(p, vec)) == Scale(0.1 * p, vec)
  {
    var v := Scale(p, vec);
    assert v[0] == p * vec[0] && v[1] == p * vec[1];
    assert v == [p * vec[0], p * vec[1]];
    Dot2(0.1, 0.0, p * vec[0], p * vec[1]);
    Dot2(0.0, 0.1, p * vec[0], p * vec[1]);
    assert 0.1 * (p * vec[0]) == (0.1 * p) * vec[0] && 0.1 * (p * vec[1]) == (0.1 * p) * vec[1];
  }

  /** One time unit of `sim` passes the loop twice, scaling by 0.01. */
  lemma SimTwice(vec: Vec)
    ensures SimValue(vec, 1.0) == Scale(0.01, vec)
  {
    assert Passes(1.0) == 2;
  }

  /** `sim_simple` is the translation by (0.7, 0.7). */
  lemma SimSimpleTranslates(t: real)
    ensures IsAffine(Flow(SimSimple, t), Identity(2), [0.7, 0.7], 2)
  {
    forall x: Vec | |x| == 2
      ensures Flow(SimSimple, t).requires(x) && |Flow(SimSimple, t)(x)| == 2
      ensures forall j :: 0 <= j < 2 ==> Flow(SimSimple, t)(x)[j] == Dot(Identity(2)[j], x) + [0.7, 0.7][j]
    {
      FlowAt(SimSimple, t, x);
      DotUnit(0, x);
      DotUnit(1, x);
    }
  }

  /** diag(0.01, 0.01): two passes of `sim`'s matrix. */
  const Hundredth: seq<Vec> := [[0.01, 0.0], [0.0, 0.01]]

  /** `sim` over one time unit is linear, with matrix diag(0.01, 0.01). */
  lemma SimLinear()
    ensures IsAffine(Flow(SimValue, 1.0), Hundredth, [0.0, 0.0], 2)
  {
    forall x: Vec | |x| == 2
      ensures Flow(SimValue, 1.0).requires(x) && |Flow(SimValue, 1.0)(x)| == 2
      ensures forall j :: 0 <= j < 2 ==> Flow(SimValue, 1.0)(x)[j] == Dot(Hundredth[j], x) + [0.0, 0.0][j]
    {
      SimLinearAt(x);
    }
  }

  // One point of the linear map, coordinate by coordinate.
  lemma SimLinearAt(x: Vec)
    requires |x| == 2
    ensures Flow(SimValue, 1.0).requires(x) && |Flow(SimValue, 1.0)(x)| == 2
    ensures forall j :: 0 <= j < 2 ==> Flow(SimValue, 1.0)(x)[j] == Dot(Hundredth[j], x) + [0.0, 0.0][j]
  {
    FlowAt(SimValue, 1.0, x);
    SimTwice(x);
    assert x == [x[0], x[1]];
    Dot2(0.01, 0.0, x[0], x[1]);
    Dot2(0.0, 0.01, x[0], x[1]);
    forall j | 0 <= j < 2 ensures Flow(SimValue, 1.0)(x)[j] == Dot(Hundredth[j], x) + [0.0, 0.0][j] {
      if j == 0 {
        assert Hundredth[0] == [0.01, 0.0];
      } else {
        assert Hundredth[1] == [0.0, 0.01];
      }
    }
  }

  // ------------------------------------------------------------------ fixture stars

  /** The predicate of every fixture: the transpose of [[1,-1,0,0],[0,0,1,-1]]. */
  const FixtureC: seq<Vec> := [[1.0, 0.0], [-1.0, 0.0], [0.0, 1.0], [0.0, -1.0]]

  const Ones: Vec := [1.0, 1.0, 1.0, 1.0]

  const I2: seq<Vec> := [[1.0, 0.0], [0.0, 1.0]]

  /** `test1`: center (3, 3), identity basis, alpha in [-1, 1]^2. */
  function Square(): Star {
    Star([3.0, 3.0], I2, FixtureC, Ones)
  }

  /** `test2`: center (0, 0), identity basis, g = [4, -2, 4, -2]. */
  function Shifted(): Star {
    Star([0.0, 0.0], I2, FixtureC, [4.0, -2.0, 4.0, -2.0])
  }

  /** The fixture predicate is `new_pred`'s box on two coefficients. */
  lemma FixtureIsBox()
    ensures FixtureC == BoxC(2) && I2 == Identity(2)
  {
    forall j | 0 <= j < 4 ensures BoxC(2)[j] == FixtureC[j] {
      assert BoxC(2)[j][0] == BoxEntry(j, 0) && BoxC(2)[j][1] == BoxEntry(j, 1);
    }
    assert Identity(2)[0] == Unit(2, 0) == [1.0, 0.0];
    assert Identity(2)[1] == Unit(2, 1) == [0.0, 1.0];
  }

  // Multiplying by the 2 x 2 identity on the right changes nothing.
  lemma TimesI2(A: seq<Vec>)
    requires HasWidth(A, 2)
    ensures MatMul(A, I2, 2) == A
  {
    FixtureIsBox();
    forall r | 0 <= r < |A| ensures MatMul(A, I2, 2)[r] == A[r] {
      forall j | 0 <= j < 2 ensures MatMul(A, I2, 2)[r][j] == A[r][j] {
        assert Col(I2, j) == Unit(2, j);
        DotComm(A[r], Unit(2, j));
        DotUnit(j, A[r]);
      }
    }
  }

  // The fixture predicate under g = [hi0, -lo0, hi1, -lo1]: lo <= alpha <= hi.
  lemma FixturePredicate(alpha: Vec, g: Vec)
    requires |alpha| == 2 && |g| == 4
    ensures Sat(FixtureC, alpha, g) <==>
      -g[1] <= alpha[0] <= g[0] && -g[3] <= alpha[1] <= g[2]
  {
    Dot2(1.0, 0.0, alpha[0], alpha[1]);
    Dot2(-1.0, 0.0, alpha[0], alpha[1]);
    Dot2(0.0, 1.0, alpha[0], alpha[1]);
    Dot2(0.0, -1.0, alpha[0], alpha[1]);
    assert alpha == [alpha[0], alpha[1]];
    assert MatVec(FixtureC, alpha) == [alpha[0], -alpha[0], alpha[1], -alpha[1]];
  }

  // The points of an identity-basis fixture star: center + alpha for admissible alpha.
  lemma FixtureContains(s: Star, p: Vec)
    requires |s.center| == 2 && s.basis == I2 && s.C == FixtureC && |s.g| == 4
    ensures Contains(s, p) <==>
              && |p| == 2
              && s.center[0] - s.g[1] <= p[0] <= s.center[0] + s.g[0]
              && s.center[1] - s.g[3] <= p[1] <= s.center[1] + s.g[2]
  {
    FixtureIsBox();
    if Contains(s, p) {
      var alpha :| Witness(s, alpha, p);
      IdentityBasisPoint(s, alpha);
      FixturePredicate(alpha, s.g);
    }
    if |p| == 2 &&
      s.center[0] - s.g[1] <= p[0] <= s.center[0] + s.g[0] &&
      s.center[1] - s.g[3] <= p[1] <= s.center[1] + s.g[2]
    {
      var alpha := Sub(p, s.center);
      IdentityBasisPoint(s, alpha);
      FixturePredicate(alpha, s.g);
      assert Add(s.center, alpha) == p;
      assert Witness(s, alpha, p);
    }
  }

  /** `test1` is the square [2, 4] x [2, 4]; `contains_point([3, 2])` asks about a point of
      its edge. */
  lemma SquarePoints(p: Vec)
    ensures Construct(Square().center, Square().basis, Square().C, Square().g) == Ok(Square())
    ensures Contains(Square(), p) <==> |p| == 2 && 2.0 <= p[0] <= 4.0 && 2.0 <= p[1] <= 4.0
    ensures Contains(Square(), [3.0, 2.0])
  {
    FixtureContains(Square(), p);
    FixtureContains(Square(), [3.0, 2.0]);
  }

  /** `test2` is the square [2, 4] x [2, 4] around the origin's coefficients. */
  lemma ShiftedPoints(p: Vec)
    ensures Construct(Shifted().center, Shifted().basis, Shifted().C, Shifted().g) == Ok(Shifted())
    ensures Contains(Shifted(), p) <==> |p| == 2 && 2.0 <= p[0] <= 4.0 && 2.0 <= p[1] <= 4.0
  {
    FixtureContains(Shifted(), p);
  }

  // ------------------------------------------------------------------ post-stars

  // Both test simulators keep the plane in the plane.
  lemma SimulatorsMapPlane(t: real)
    ensures MapsDim(Flow(SimSimple, t), 2) && MapsDim(Flow(SimUgly, t), 2)
  {
    forall x: Vec | |x| == 2 ensures Flow(SimSimple, t).requires(x) && |Flow(SimSimple, t)(x)| == 2 {
      FlowAt(SimSimple, t, x);
    }
    forall x: Vec | |x| == 2 ensures Flow(SimUgly, t).requires(x) && |Flow(SimUgly, t)(x)| == 2 {
      FlowAt(SimUgly, t, x);
    }
  }

  // The generator-difference star of a two-dimensional identity-basis star.
  lemma TwoGenerators(s: Star, f: Vec --> Vec)
    requires WellShaped(s) && |s.center| == 2 && s.basis == I2 && MapsDim(f, 2)
    ensures GenDiff(s, f) == Star(f(s.center),
      [Sub(f([s.center[0] + 1.0, s.center[1]]), f(s.center)), Sub(f([s.center[0], s.center[1] + 1.0]), f(s.center))],
      s.C, s.g)
  {
    GenDiffRows(s, f);
    assert Add(s.center, s.basis[0]) == [s.center[0] + 1.0, s.center[1]];
    assert Add(s.center, s.basis[1]) == [s.center[0], s.center[1] + 1.0];
  }

  /** `test1.post_cont(sim_simple, 1)` is the star drawn at center (3.7, 3.7). */
  lemma SquareAfterSimSimple()
    ensures MapsDim(Flow(SimSimple, 1.0), 2)
    ensures GenDiff(Square(), Flow(SimSimple, 1.0)) == Star([3.7, 3.7], I2, FixtureC, Ones)
  {
    SimulatorsMapPlane(1.0);
    TwoGenerators(Square(), Flow(SimSimple, 1.0));
    FlowAt(SimSimple, 1.0, [3.0, 3.0]);
    FlowAt(SimSimple, 1.0, [4.0, 3.0]);
    FlowAt(SimSimple, 1.0, [3.0, 4.0]);
    assert Sub([4.7, 3.7], [3.7, 3.7]) == [1.0, 0.0];
    assert Sub([3.7, 4.7], [3.7, 3.7]) == [0.0, 1.0];
  }

  /** Translation is affine, so `post_cont(sim_simple, t)` of any planar star is exactly
      the image of that star. */
  lemma PostSimSimpleExact(s: Star, t: real, q: Vec)
    requires WellShaped(s) && |s.center| == 2
    ensures MapsDim(Flow(SimSimple, t), 2)
    ensures Contains(GenDiff(s, Flow(SimSimple, t)), q) <==>
      exists p :: Contains(s, p) && |p| == 2 && Flow(SimSimple, t)(p) == q
  {
    SimSimpleTranslates(t);
    GenDiffAffineImage(s, Flow(SimSimple, t), Identity(2), [0.7, 0.7], q);
  }

  /** `test1.post_cont(sim_ugly, 1)` is the star drawn with center [9, 1] and basis
      [[3, 1/3], [3, -1/4]]. */
  lemma SquareAfterSimUgly()
    ensures MapsDim(Flow(SimUgly, 1.0), 2)
    ensures GenDiff(Square(), Flow(SimUgly, 1.0)) == Star([9.0, 1.0], [[3.0, 1.0 / 3.0], [3.0, -1.0 / 4.0]], FixtureC, Ones)
  {
    SimulatorsMapPlane(1.0);
    TwoGenerators(Square(), Flow(SimUgly, 1.0));
    FlowAt(SimUgly, 1.0, [3.0, 3.0]);
    FlowAt(SimUgly, 1.0, [4.0, 3.0]);
    FlowAt(SimUgly, 1.0, [3.0, 4.0]);
    assert SimUgly([4.0, 3.0], 1.0) == [12.0, 4.0 / 3.0];
    assert SimUgly([3.0, 4.0], 1.0) == [12.0, 3.0 / 4.0];
    assert Sub([12.0, 4.0 / 3.0], [9.0, 1.0]) == [3.0, 1.0 / 3.0];
    assert Sub([12.0, 3.0 / 4.0], [9.0, 1.0]) == [3.0, -1.0 / 4.0];
  }

  /** `test2.post_cont(sim_ugly, 1)`: every sample it takes has y = 0 or x = 0, so the
      basis collapses to zero. */
  lemma ShiftedAfterSimUgly()
    ensures MapsDim(Flow(SimUgly, 1.0), 2)
    ensures GenDiff(Shifted(), Flow(SimUgly, 1.0)) == Star([0.0, 0.0], [[0.0, 0.0], [0.0, 0.0]], FixtureC, Shifted().g)
  {
    SimulatorsMapPlane(1.0);
    TwoGenerators(Shifted(), Flow(SimUgly, 1.0));
    FlowAt(SimUgly, 1.0, [0.0, 0.0]);
    FlowAt(SimUgly, 1.0, [1.0, 0.0]);
    FlowAt(SimUgly, 1.0, [0.0, 1.0]);
    assert Sub([0.0, 0.0], [0.0, 0.0]) == [0.0, 0.0];
  }

  /** That collapsed star holds only its center, although sim_ugly moves the point (2, 2)
      of `test2` to (4, 1): the generator difference is exact only for affine maps. */
  lemma ShiftedAfterSimUglyMisses()
    ensures MapsDim(Flow(SimUgly, 1.0), 2)
    ensures Contains(Shifted(), [2.0, 2.0]) && SimUgly([2.0, 2.0], 1.0) == [4.0, 1.0]
    ensures !Contains(GenDiff(Shifted(), Flow(SimUgly, 1.0)), [4.0, 1.0])
  {
    ShiftedAfterSimUgly();
    ShiftedPoints([2.0, 2.0]);
    var r := GenDiff(Shifted(), Flow(SimUgly, 1.0));
    if Contains(r, [4.0, 1.0]) {
      var alpha :| Witness(r, alpha, [4.0, 1.0]);
      DotOfZero(Col(r.basis, 0), alpha);
      DotComm(alpha, Col(r.basis, 0));
      assert false;
    }
  }

  /** `test2.post_cont(sim_simple, 1)` is the star drawn at center [0.7, 0.7]. */
  lemma ShiftedAfterSimSimple()
    ensures MapsDim(Flow(SimSimple, 1.0), 2)
    ensures GenDiff(Shifted(), Flow(SimSimple, 1.0)) == Star([0.7, 0.7], I2, FixtureC, Shifted().g)
  {
    SimulatorsMapPlane(1.0);
    TwoGenerators(Shifted(), Flow(SimSimple, 1.0));
    FlowAt(SimSimple, 1.0, [0.0, 0.0]);
    FlowAt(SimSimple, 1.0, [1.0, 0.0]);
    FlowAt(SimSimple, 1.0, [0.0, 1.0]);
    assert Sub([1.7, 0.7], [0.7, 0.7]) == [1.0, 0.0];
    assert Sub([0.7, 1.7], [0.7, 0.7]) == [0.0, 1.0];
  }

  /** `test2` is built from integer arrays, so its post-stars are stored into an integer
      basis: the unit generators of sim_simple survive the truncation, the zero generators
      of sim_ugly are zero either way. */
  lemma ShiftedAfterSimCast()
    ensures MapsDim(Flow(SimSimple, 1.0), 2) && MapsDim(Flow(SimUgly, 1.0), 2)
    ensures PostStar(Shifted(), Flow(SimSimple, 1.0), true) == Star([0.7, 0.7], I2, FixtureC, Shifted().g)
    ensures PostStar(Shifted(), Flow(SimUgly, 1.0), true) == Star([0.0, 0.0], [[0.0, 0.0], [0.0, 0.0]], FixtureC, Shifted().g)
  {
    ShiftedAfterSimSimple();
    ShiftedAfterSimUgly();
    assert StoreRow([1.0, 0.0], true) == [1.0, 0.0];
    assert StoreRow([0.0, 1.0], true) == [0.0, 1.0];
    assert StoreRow([0.0, 0.0], true) == [0.0, 0.0];
  }

  // On exact reals, one second of `sim` scales the center and the generators of a star
  // centred at (3, 3) with identity basis by 0.01.
  lemma SquareAfterSimExact(C: seq<Vec>, g: Vec)
    requires HasWidth(C, 2) && |g| == |C|
    ensures MapsDim(Flow(SimValue, 1.0), 2)
    ensures GenDiff(Star([3.0, 3.0], I2, C, g), Flow(SimValue, 1.0)) == Star([0.03, 0.03], Hundredth, C, g)
  {
    SimMapsPlane();
    TwoGenerators(Star([3.0, 3.0], I2, C, g), Flow(SimValue, 1.0));
    SimTwiceAt([3.0, 3.0], [0.03, 0.03]);
    SimTwiceAt([4.0, 3.0], [0.04, 0.03]);
    SimTwiceAt([3.0, 4.0], [0.03, 0.04]);
    assert Sub([0.04, 0.03], [0.03, 0.03]) == [0.01, 0.0];
    assert Sub([0.03, 0.04], [0.03, 0.03]) == [0.0, 0.01];
  }

  /** `test.post_cont(sim, 1)`: `test` was built from integer arrays, so the new generators
      (0.01, 0) and (0, 0.01) are stored into an integer basis and truncate to zero; the
      center (0.03, 0.03) is a fresh float array and survives. */
  lemma SquareAfterSim(C: seq<Vec>, g: Vec)
    requires HasWidth(C, 2) && |g| == |C|
    ensures MapsDim(Flow(SimValue, 1.0), 2)
    ensures PostStar(Star([3.0, 3.0], I2, C, g), Flow(SimValue, 1.0), true)
         == Star([0.03, 0.03], [[0.0, 0.0], [0.0, 0.0]], C, g)
  {
    SquareAfterSimExact(C, g);
    assert StoreRow([0.01, 0.0], true) == [0.0, 0.0];
    assert StoreRow([0.0, 0.01], true) == [0.0, 0.0];
  }

  // One second of `sim` keeps the plane in the plane.
  lemma SimMapsPlane()
    ensures MapsDim(Flow(SimValue, 1.0), 2)
  {
    forall x: Vec | |x| == 2 ensures Flow(SimValue, 1.0).requires(x) && |Flow(SimValue, 1.0)(x)| == 2 {
      FlowAt(SimValue, 1.0, x);
    }
  }

  // One second of `sim` at a concrete point.
  lemma SimTwiceAt(x: Vec, y: Vec)
    requires y == Scale(0.01, x)
    ensures Flow(SimValue, 1.0).requires(x) && Flow(SimValue, 1.0)(x) == y
  {
    FlowAt(SimValue, 1.0, x);
    SimTwice(x);
  }

  // ------------------------------------------------------------------ intersections

  // Intersecting a star centred at (3, 3) with identity basis: the constraint rows are
  // appended as they are, with bounds rhs - A . (3, 3).
  lemma CenteredIntersect(s: Star, A: seq<Vec>, rhs: Vec, bounds: Vec)
    requires WellShaped(s) && s.center == [3.0, 3.0] && s.basis == I2
    requires |A| > 0 && HasWidth(A, 2) && |rhs| == |A| == |bounds|
    requires forall k :: 0 <= k < |A| ==> bounds[k] == rhs[k] - (3.0 * A[k][0] + 3.0 * A[k][1])
    ensures IntersectPoly(s, A, rhs) == Ok(s.(C := s.C + A, g := s.g + bounds))
  {
    TimesI2(A);
    forall k | 0 <= k < |A| ensures Sub(rhs, MatVec(A, s.center))[k] == bounds[k] {
      assert A[k] == [A[k][0], A[k][1]];
      Dot2(A[k][0], A[k][1], 3.0, 3.0);
    }
    assert Sub(rhs, MatVec(A, s.center)) == bounds;
  }

  // `test` after the half-space [5, 5] . x <= 3, and after the two further rows.
  function GrownOnce(): Star {
    Square().(C := FixtureC + [[5.0, 5.0]], g := Ones + [-27.0])
  }

  function GrownTwice(): Star {
    GrownOnce().(C := GrownOnce().C + [[8.0, 8.0], [9.0, 9.0]], g := GrownOnce().g + [-44.0, -49.0])
  }

  lemma GrowthSteps()
    ensures IntersectHalfspace(Square(), [5.0, 5.0], 3.0) == Ok(GrownOnce())
    ensures WellShaped(GrownOnce())
    ensures IntersectPoly(GrownOnce(), [[8.0, 8.0], [9.0, 9.0]], [4.0, 5.0]) == Ok(GrownTwice())
  {
    CenteredIntersect(Square(), [[5.0, 5.0]], [3.0], [-27.0]);
    CenteredIntersect(GrownOnce(), [[8.0, 8.0], [9.0, 9.0]], [4.0, 5.0], [-44.0, -49.0]);
  }

  /** The script's `intersection_halfspace([5, 5], 3)` then `intersection_poly([[8, 8],
      [9, 9]], [4, 5])` on `test`: C grows from 4 to 5 to 7 rows and g with it; with the
      identity basis the new rows are the constraint rows themselves. */
  method IntersectionGrowth() returns (rows1: nat, rows2: nat, C: seq<Vec>, g: Vec)
    ensures rows1 == 5 && rows2 == 7
    ensures C == FixtureC + [[5.0, 5.0], [8.0, 8.0], [9.0, 9.0]]
    ensures g == Ones + [-27.0, -44.0, -49.0]
  {
    GrowthSteps();
    var test := new StarSet(Square());
    var r1 := test.IntersectionHalfspace([5.0, 5.0], 3.0);
    rows1 := |test.C|;
    var r2 := test.IntersectionPoly([[8.0, 8.0], [9.0, 9.0]], [4.0, 5.0]);
    rows2 := |test.C|;
    C, g := test.C, test.g;
  }

  // `test` intersected with the closed complement -x0 <= -rhs of x0 < rhs: identity basis,
  // so the new row is (-1, 0) with bound -rhs + 3.
  function Complement(rhs: real): Star {
    Square().(C := FixtureC + [[-1.0, 0.0]], g := Ones + [-rhs + 3.0])
  }

  lemma ComplementIntersect(rhs: real)
    ensures IntersectHalfspace(Square(), Neg([1.0, 0.0]), -rhs) == Ok(Complement(rhs))
  {
    assert Neg([1.0, 0.0]) == [-1.0, 0.0];
    CenteredIntersect(Square(), [[-1.0, 0.0]], [-rhs], [-rhs + 3.0]);
  }

  // `satisfies` on `test` is `is_empty` of the complement.
  lemma SquareSatisfiesIsEmpty(rhs: real, status: int)
    ensures SatisfiesValue(Square(), [1.0, 0.0], rhs, status).Ok? ==>
      SatisfiesValue(Square(), [1.0, 0.0], rhs, status) == IsEmpty(Complement(rhs), status)
  {
    ComplementIntersect(rhs);
  }

  // For rhs = -2 the coefficients (0, 0) satisfy every row of the complement.
  lemma LowComplementFeasible()
    ensures LpFeasible(EmptinessLp(Complement(-2.0)))
  {
    var t := Complement(-2.0);
    var zero: Vec := [0.0, 0.0];
    Dot2(1.0, 0.0, 0.0, 0.0);
    Dot2(-1.0, 0.0, 0.0, 0.0);
    Dot2(0.0, 1.0, 0.0, 0.0);
    Dot2(0.0, -1.0, 0.0, 0.0);
    assert MatVec(t.C, zero) == [0.0, 0.0, 0.0, 0.0, 0.0];
    assert Admissible(EmptinessLp(t), zero);
  }

  // For rhs = 10 every pair of coefficients breaks row 0 (alpha0 <= 1) or row 4 (alpha0 >= 7).
  lemma HighComplementInfeasible()
    ensures !LpFeasible(EmptinessLp(Complement(10.0)))
  {
    var t := Complement(10.0);
    forall x | |x| == 2 ensures !Sat(t.C, x, t.g) {
      assert x == [x[0], x[1]];
      Dot2(1.0, 0.0, x[0], x[1]);
      Dot2(-1.0, 0.0, x[0], x[1]);
      if x[0] > 1.0 {
        assert MatVec(t.C, x)[0] > t.g[0];
      } else {
        assert MatVec(t.C, x)[4] > t.g[4];
      }
    }
  }

  /** `satisfies([1, 0], -2)` on `test`: the closed complement -x0 <= 2 keeps the
      coefficients (0, 0), so with a correct LP status the answer is false. */
  lemma SquareSatisfiesLow(status: int)
    requires StatusSound(status, EmptinessLp(Complement(-2.0)))
    ensures SatisfiesValue(Square(), [1.0, 0.0], -2.0, status).Ok? ==>
      SatisfiesValue(Square(), [1.0, 0.0], -2.0, status) == Ok(false)
  {
    SquareSatisfiesIsEmpty(-2.0, status);
    LowComplementFeasible();
  }

  /** `satisfies([1, 0], 10)` on `test`: the closed complement -x0 <= -10 needs
      alpha0 >= 7 against alpha0 <= 1, so with a correct LP status the answer is true. */
  lemma SquareSatisfiesHigh(status: int)
    requires StatusSound(status, EmptinessLp(Complement(10.0)))
    ensures SatisfiesValue(Square(), [1.0, 0.0], 10.0, status).Ok? ==>
      SatisfiesValue(Square(), [1.0, 0.0], 10.0, status) == Ok(true)
  {
    SquareSatisfiesIsEmpty(10.0, status);
    HighComplementInfeasible();
  }
}
