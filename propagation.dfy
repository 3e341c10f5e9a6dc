/** Propagating star sets through dynamics (verse/stars/starset.py): the
    generator-difference method of `post_cont` and `apply_reset`, the linear reach tube
    of `calc_reach_tube_linear`, and the re-stitching of a bloated rectangle tube in
    the non-PCA branch of `calc_reach_tube`. Simulators and reset maps are parameters. */
module Propagation {
  import opened LinAlg
  import opened Outcomes
  import opened Stars

  /** f is defined on every n-vector and returns an n-vector (the simulator's contract). */
  ghost predicate MapsDim(f: Vec --> Vec, n: nat) {
    forall x {:trigger f.requires(x)} {:trigger f(x)} :: |x| == n ==> f.requires(x) && |f(x)| == n
  }

  /** The generator-difference image of s under f: f(center) as the new center and
      f(center + basis[i]) - f(center) as the new generators, predicate unchanged. */
  function GenDiff(s: Star, f: Vec --> Vec): (r: Star)
    requires WellShaped(s) && MapsDim(f, |s.center|)
    ensures WellShaped(r) && |r.center| == |s.center| && |r.basis| == |s.basis|
    ensures r.C == s.C && r.g == s.g
  {
    var c := f(s.center);
    var rows := seq(|s.basis|, i requires 0 <= i < |s.basis| => Sub(f(Add(s.center, s.basis[i])), c));
    assert forall i :: 0 <= i < |rows| ==> |rows[i]| == |f(Add(s.center, s.basis[i]))| == |c|;
    Star(c, rows, s.C, s.g)
  }

  /** A generator as `new_basis[i] = ...` stores it: `new_basis` is `np.empty_like(self.basis)`,
      an array of the old basis's dtype, so for an integer basis (`intBasis`) every entry
      is truncated toward zero. */
  function StoreRow(v: Vec, intBasis: bool): (r: Vec)
    ensures |r| == |v|
    ensures !intBasis ==> r == v
    ensures intBasis ==> forall j :: 0 <= j < |v| ==> r[j] == Trunc(v[j]) as real
  {
    if intBasis then seq(|v|, j requires 0 <= j < |v| => Trunc(v[j]) as real) else v
  }

  /** The star `post_cont` and `apply_reset` return: the generator-difference image, each
      new generator stored at the old basis's dtype. */
  function PostStar(s: Star, f: Vec --> Vec, intBasis: bool): (r: Star)
    requires WellShaped(s) && MapsDim(f, |s.center|)
    ensures WellShaped(r) && r.center == f(s.center) && r.C == s.C && r.g == s.g
    ensures |r.basis| == |s.basis| &&
      forall i :: 0 <= i < |s.basis| ==> r.basis[i] == StoreRow(GenDiff(s, f).basis[i], intBasis)
    ensures !intBasis ==> r == GenDiff(s, f)
  {
    var d := GenDiff(s, f);
    var r := d.(basis := seq(|d.basis|, i requires 0 <= i < |d.basis| => StoreRow(d.basis[i], intBasis)));
    assert !intBasis ==> r.basis == d.basis;
    r
  }

  /** The loop shared by `post_cont` and `apply_reset`: map the center, fill `new_basis`
      row by row, then `superposition`. */
  method GeneratorDifference(s: Star, f: Vec --> Vec, intBasis: bool) returns (r: Star)
    requires WellShaped(s) && MapsDim(f, |s.center|)
    ensures r.center == f(s.center) && r.C == s.C && r.g == s.g && |r.basis| == |s.basis|
    ensures forall i :: 0 <= i < |s.basis| ==>
      r.basis[i] == StoreRow(Sub(f(Add(s.center, s.basis[i])), f(s.center)), intBasis)
    ensures r == PostStar(s, f, intBasis)
  {
    var newCenter := f(s.center);
    var newBasis := new Vec[|s.basis|];
    for i := 0 to |s.basis|
      invariant forall k :: 0 <= k < i ==>
        newBasis[k] == StoreRow(Sub(f(Add(s.center, s.basis[k])), newCenter), intBasis)
    {
      var newX := f(Add(s.center, s.basis[i]));
      newBasis[i] := StoreRow(Sub(newX, newCenter), intBasis);
    }
    var res := Superposition(s, newCenter, newBasis[..]);
    r := res.value;
  }

  /** The simulator at a fixed time bound, as a map on states. */
  function Flow(simulate: (Vec, real) --> Vec, t: real): Vec --> Vec {
    x requires simulate.requires(x, t) => simulate(x, t)
  }

  // Applying the flow is running the simulator.
  lemma FlowAt(simulate: (Vec, real) --> Vec, t: real, x: Vec)
    requires simulate.requires(x, t)
    ensures Flow(simulate, t).requires(x) && Flow(simulate, t)(x) == simulate(x, t)
  {
  }

  /** `post_cont(simulate, t)`; `intBasis` says whether the star's basis array has an
      integer dtype. */
  method PostCont(s: Star, simulate: (Vec, real) --> Vec, t: real, intBasis: bool) returns (r: Star)
    requires WellShaped(s)
    requires forall x {:trigger simulate.requires(x, t)} {:trigger simulate(x, t)} ::
      |x| == |s.center| ==> simulate.requires(x, t) && |simulate(x, t)| == |s.center|
    ensures MapsDim(Flow(simulate, t), |s.center|)
    ensures r.center == simulate(s.center, t) && r.C == s.C && r.g == s.g
    ensures r == PostStar(s, Flow(simulate, t), intBasis)
    ensures !intBasis ==> r == GenDiff(s, Flow(simulate, t))
  {
    assert MapsDim(Flow(simulate, t), |s.center|);
    r := GeneratorDifference(s, Flow(simulate, t), intBasis);
  }

  /** The reset map with its expressions and variables fixed. */
  function ResetMap<E, V>(reset: (Vec, E, V) --> Vec, exprs: E, vars: V): Vec --> Vec {
    x requires reset.requires(x, exprs, vars) => reset(x, exprs, vars)
  }

  /** `apply_reset(reset_function, expr_list, reset_vars)`; `intBasis` as for `PostCont`. */
  method ApplyReset<E, V>(s: Star, reset: (Vec, E, V) --> Vec, exprs: E, vars: V, intBasis: bool) returns (r: Star)
    requires WellShaped(s)
    requires forall x {:trigger reset.requires(x, exprs, vars)} {:trigger reset(x, exprs, vars)} ::
      |x| == |s.center| ==> reset.requires(x, exprs, vars) && |reset(x, exprs, vars)| == |s.center|
    ensures MapsDim(ResetMap(reset, exprs, vars), |s.center|)
    ensures r.center == reset(s.center, exprs, vars) && r.C == s.C && r.g == s.g
    ensures r == PostStar(s, ResetMap(reset, exprs, vars), intBasis)
    ensures !intBasis ==> r == GenDiff(s, ResetMap(reset, exprs, vars))
  {
    assert MapsDim(ResetMap(reset, exprs, vars), |s.center|);
    r := GeneratorDifference(s, ResetMap(reset, exprs, vars), intBasis);
  }

  // ------------------------------------------------------------------ what the method promises

  // The center and the rows of the generator-difference star, one by one.
  lemma GenDiffRows(s: Star, f: Vec --> Vec)
    requires WellShaped(s) && MapsDim(f, |s.center|)
    ensures GenDiff(s, f).center == f(s.center)
    ensures forall i :: 0 <= i < |s.basis| ==> GenDiff(s, f).basis[i] == Sub(f(Add(s.center, s.basis[i])), f(s.center))
  {
  }

  /** Under the identity map the star comes back unchanged. */
  lemma GenDiffIdentity(s: Star, f: Vec --> Vec)
    requires WellShaped(s) && MapsDim(f, |s.center|)
    requires forall x {:trigger f(x)} :: |x| == |s.center| ==> f(x) == x
    ensures GenDiff(s, f) == s
  {
    var r := GenDiff(s, f);
    forall i | 0 <= i < |s.basis| ensures r.basis[i] == s.basis[i] {
      assert r.basis[i] == Sub(Add(s.center, s.basis[i]), s.center);
    }
  }

  /** f(x) = M x + b on n-vectors. */
  ghost predicate IsAffine(f: Vec --> Vec, M: seq<Vec>, b: Vec, n: nat) {
    |M| == n && |b| == n && HasWidth(M, n) &&
    forall x {:trigger f.requires(x)} {:trigger f(x)} :: |x| == n ==>
      f.requires(x) && |f(x)| == n && forall j :: 0 <= j < n ==> f(x)[j] == Dot(M[j], x) + b[j]
  }

  lemma AffineMapsDim(f: Vec --> Vec, M: seq<Vec>, b: Vec, n: nat)
    requires IsAffine(f, M, b, n)
    ensures MapsDim(f, n)
  {
  }

  lemma AffineAt(f: Vec --> Vec, M: seq<Vec>, b: Vec, n: nat, x: Vec)
    requires IsAffine(f, M, b, n) && |x| == n
    ensures f(x) == Add(MatVec(M, x), b)
  {
    forall j | 0 <= j < n ensures f(x)[j] == Add(MatVec(M, x), b)[j] {
    }
  }

  /** Under an affine map each new generator is M applied to the old one. */
  // One generator: f(c + v) - f(c) == M v for an affine f.
  lemma AffineGenerator(f: Vec --> Vec, M: seq<Vec>, b: Vec, c: Vec, v: Vec)
    requires IsAffine(f, M, b, |c|) && |v| == |c|
    ensures Sub(f(Add(c, v)), f(c)) == MatVec(M, v)
  {
    AffineAt(f, M, b, |c|, Add(c, v));
    AffineAt(f, M, b, |c|, c);
    OffsetCancels(M, b, c, v);
  }

  // The difference of two affine images: the offset cancels.
  lemma OffsetCancels(M: seq<Vec>, b: Vec, c: Vec, v: Vec)
    requires |M| == |b| && |v| == |c| && HasWidth(M, |c|)
    ensures Sub(Add(MatVec(M, Add(c, v)), b), Add(MatVec(M, c), b)) == MatVec(M, v)
  {
    var d := Sub(Add(MatVec(M, Add(c, v)), b), Add(MatVec(M, c), b));
    forall j | 0 <= j < |M| ensures d[j] == MatVec(M, v)[j] {
      DotAdd(M[j], c, v);
    }
  }

  lemma AffineGenerators(s: Star, f: Vec --> Vec, M: seq<Vec>, b: Vec)
    requires WellShaped(s) && IsAffine(f, M, b, |s.center|)
    ensures MapsDim(f, |s.center|)
    ensures forall i :: 0 <= i < |s.basis| ==> GenDiff(s, f).basis[i] == MatVec(M, s.basis[i])
  {
    AffineMapsDim(f, M, b, |s.center|);
    var c := s.center;
    var r := GenDiff(s, f);
    forall i | 0 <= i < |s.basis| ensures r.basis[i] == MatVec(M, s.basis[i]) {
      AffineGenerator(f, M, b, c, s.basis[i]);
      assert r.basis[i] == Sub(f(Add(c, s.basis[i])), f(c));
    }
  }

  // One coordinate of the affine image of a point of s.
  lemma AffineCoordinate(s: Star, r: Star, M: seq<Vec>, b: Vec, alpha: Vec, j: nat)
    requires WellShaped(s) && |M| == |s.center| == |b| && HasWidth(M, |s.center|) && |alpha| == |s.basis|
    requires r.center == Add(MatVec(M, s.center), b) && |r.basis| == |s.basis|
    requires forall i :: 0 <= i < |s.basis| ==> r.basis[i] == MatVec(M, s.basis[i])
    requires j < |s.center|
    ensures HasWidth(r.basis, |r.center|)
    ensures Point(r, alpha)[j] == Add(MatVec(M, Point(s, alpha)), b)[j]
  {
    var n := |s.center|;
    assert Col(r.basis, j) == MatVec(s.basis, M[j]) by {
      forall i | 0 <= i < |s.basis| ensures Col(r.basis, j)[i] == MatVec(s.basis, M[j])[i] {
        DotComm(M[j], s.basis[i]);
      }
    }
    DotAdd(M[j], s.center, Combination(s.basis, alpha, n));
    DotExchange(M[j], s.basis, alpha);
  }

  /** For affine dynamics the generator-difference method is exact: every coefficient
      vector lands on the image of the point it had before. */
  lemma GenDiffAffineExact(s: Star, f: Vec --> Vec, M: seq<Vec>, b: Vec, alpha: Vec)
    requires WellShaped(s) && IsAffine(f, M, b, |s.center|) && |alpha| == |s.basis|
    ensures MapsDim(f, |s.center|)
    ensures Point(GenDiff(s, f), alpha) == f(Point(s, alpha))
  {
    AffineGenerators(s, f, M, b);
    AffineAt(f, M, b, |s.center|, Point(s, alpha));
    AffineAt(f, M, b, |s.center|, s.center);
    AffineImagePoint(s, GenDiff(s, f), M, b, alpha);
  }

  // A star whose center and generators are the affine images of s's has, for every
  // coefficient vector, the affine image of s's point.
  lemma AffineImagePoint(s: Star, r: Star, M: seq<Vec>, b: Vec, alpha: Vec)
    requires WellShaped(s) && |M| == |s.center| == |b| && HasWidth(M, |s.center|) && |alpha| == |s.basis|
    requires r.center == Add(MatVec(M, s.center), b) && |r.basis| == |s.basis|
    requires forall i :: 0 <= i < |s.basis| ==> r.basis[i] == MatVec(M, s.basis[i])
    ensures HasWidth(r.basis, |r.center|)
    ensures Point(r, alpha) == Add(MatVec(M, Point(s, alpha)), b)
  {
    forall j | 0 <= j < |s.center| ensures Point(r, alpha)[j] == Add(MatVec(M, Point(s, alpha)), b)[j] {
      AffineCoordinate(s, r, M, b, alpha, j);
    }
  }

  /** Hence the propagated star is exactly the affine image of the star. */
  lemma GenDiffAffineImage(s: Star, f: Vec --> Vec, M: seq<Vec>, b: Vec, q: Vec)
    requires WellShaped(s) && IsAffine(f, M, b, |s.center|)
    ensures MapsDim(f, |s.center|)
    ensures Contains(GenDiff(s, f), q) <==> exists p :: Contains(s, p) && |p| == |s.center| && f(p) == q
  {
    var r := GenDiff(s, f);
    if Contains(r, q) {
      var alpha :| Witness(r, alpha, q);
      GenDiffAffineExact(s, f, M, b, alpha);
      assert Witness(s, alpha, Point(s, alpha));
      assert Contains(s, Point(s, alpha));
    }
    if exists p :: Contains(s, p) && |p| == |s.center| && f(p) == q {
      var p :| Contains(s, p) && |p| == |s.center| && f(p) == q;
      var alpha :| Witness(s, alpha, p);
      GenDiffAffineExact(s, f, M, b, alpha);
      assert Witness(r, alpha, q);
    }
  }

  // ------------------------------------------------------------------ calc_reach_tube_linear

  /** The simulator runs from every n-vector and returns a trajectory array whose rows are
      [time, state]: all of one width w >= 1, whatever the initial state. The state's
      dimension w - 1 need not be n. */
  ghost predicate TrajectoryShape(simulate: Vec --> seq<Vec>, n: nat, w: nat) {
    1 <= w &&
    forall x {:trigger simulate.requires(x)} {:trigger simulate(x)} :: |x| == n ==>
      (simulate.requires(x) && forall k :: 0 <= k < |simulate(x)| ==> |simulate(x)[k]| == w)
  }

  /** The star the linear tube holds at row i: the simulated center there, and each
      simulated generator point minus it. */
  function TubeStar(s: Star, simulate: Vec --> seq<Vec>, w: nat, i: nat): (r: Star)
    requires WellShaped(s) && TrajectoryShape(simulate, |s.center|, w)
    requires i < |simulate(s.center)|
    requires forall k :: 0 <= k < |s.basis| ==> i < |simulate(Add(s.center, s.basis[k]))|
    ensures WellShaped(r) && |r.center| == w - 1 && r.C == s.C && r.g == s.g && |r.basis| == |s.basis|
  {
    var ct := simulate(s.center);
    Star(ct[i][1..],
         seq(|s.basis|, k requires 0 <= k < |s.basis| => Sub(simulate(Add(s.center, s.basis[k]))[i][1..], ct[i][1..])),
         s.C, s.g)
  }

  /** Every generator trajectory is as long as the center's (otherwise the source indexes past one). */
  predicate AlignedTrajectories(s: Star, simulate: Vec --> seq<Vec>, w: nat)
    requires WellShaped(s) && TrajectoryShape(simulate, |s.center|, w)
  {
    forall k :: 0 <= k < |s.basis| ==> |simulate(Add(s.center, s.basis[k]))| == |simulate(s.center)|
  }

  /** `calc_reach_tube_linear` as a function of the simulator. */
  function LinearTube(s: Star, simulate: Vec --> seq<Vec>, w: nat): (r: Result<seq<(real, Star)>>)
    requires WellShaped(s) && TrajectoryShape(simulate, |s.center|, w)
    ensures r.Ok? <==> AlignedTrajectories(s, simulate, w)
    ensures r.Err? ==> r.error == IndexOutOfRange
    ensures r.Ok? ==> |r.value| == |simulate(s.center)|
    ensures r.Ok? ==> forall i :: 0 <= i < |r.value| ==>
      r.value[i].0 == simulate(s.center)[i][0] && r.value[i].1 == TubeStar(s, simulate, w, i)
  {
    if !AlignedTrajectories(s, simulate, w) then Err(IndexOutOfRange)
    else
      var ct := simulate(s.center);
      Ok(seq(|ct|, i requires 0 <= i < |ct| => (ct[i][0], TubeStar(s, simulate, w, i))))
  }

  /** The first loop of `calc_reach_tube_linear`: simulate center + basis[i] for each
      generator and subtract the center's trajectory row by row. It indexes the center's
      trajectory at every row of the generator's, so a longer generator trajectory raises. */
  method GeneratorTrajectories(s: Star, simulate: Vec --> seq<Vec>, w: nat, simResults: seq<Vec>)
    returns (r: Result<seq<seq<Vec>>>)
    requires WellShaped(s) && TrajectoryShape(simulate, |s.center|, w) && simResults == simulate(s.center)
    ensures r.Err? <==> exists k :: 0 <= k < |s.basis| && |simulate(Add(s.center, s.basis[k]))| > |simResults|
    ensures r.Err? ==> r.error == IndexOutOfRange
    ensures r.Ok? ==> |r.value| == |s.basis| && forall k :: 0 <= k < |s.basis| ==>
      |r.value[k]| == |simulate(Add(s.center, s.basis[k]))|
    ensures r.Ok? ==> forall k, j :: 0 <= k < |s.basis| && 0 <= j < |r.value[k]| ==>
      r.value[k][j] == Sub(simulate(Add(s.center, s.basis[k]))[j][1..], simResults[j][1..])
  {
    var newBasises: seq<seq<Vec>> := [];
    for i := 0 to |s.basis|
      invariant |newBasises| == i
      invariant forall k :: 0 <= k < i ==> |simulate(Add(s.center, s.basis[k]))| <= |simResults|
      invariant forall k :: 0 <= k < i ==> |newBasises[k]| == |simulate(Add(s.center, s.basis[k]))|
      invariant forall k, j :: 0 <= k < i && 0 <= j < |newBasises[k]| ==>
        newBasises[k][j] == Sub(simulate(Add(s.center, s.basis[k]))[j][1..], simResults[j][1..])
    {
      var newX := simulate(Add(s.center, s.basis[i]));
      var diffs: seq<Vec> := [];
      for j := 0 to |newX|
        invariant |diffs| == j
        invariant j > 0 ==> j <= |simResults|
        invariant forall l :: 0 <= l < j ==> diffs[l] == Sub(newX[l][1..], simResults[l][1..])
      {
        if j >= |simResults| {
          assert |simulate(Add(s.center, s.basis[i]))| > |simResults|;
          return Err(IndexOutOfRange);
        }
        diffs := diffs + [Sub(newX[j][1..], simResults[j][1..])];
      }
      newBasises := newBasises + [diffs];
    }
    r := Ok(newBasises);
  }

  /** `calc_reach_tube_linear`: the generator trajectories, then regrouped per time step
      and `superposition`ed onto the center's trajectory. Regrouping indexes every
      generator trajectory at every row of the center's, so a shorter one raises too. */
  method CalcReachTubeLinear(s: Star, simulate: Vec --> seq<Vec>, w: nat) returns (r: Result<seq<(real, Star)>>)
    requires WellShaped(s) && TrajectoryShape(simulate, |s.center|, w)
    ensures r == LinearTube(s, simulate, w)
  {
    var m := |s.basis|;
    var simResults := simulate(s.center);
    var gens := GeneratorTrajectories(s, simulate, w, simResults);
    if gens.Err? {
      return Err(IndexOutOfRange);
    }
    var newBasises := gens.value;
    var tubes: seq<(real, Star)> := [];
    for i := 0 to |simResults|
      invariant |tubes| == i
      invariant forall l :: 0 <= l < m ==> |newBasises[l]| >= i
      invariant forall l :: 0 <= l < i ==> tubes[l] == (simResults[l][0], TubeStar(s, simulate, w, l))
    {
      var basis: seq<Vec> := [];
      for k := 0 to m
        invariant |basis| == k
        invariant forall l :: 0 <= l < k ==> |newBasises[l]| > i
        invariant forall l :: 0 <= l < k ==> basis[l] == newBasises[l][i]
      {
        if i >= |newBasises[k]| {
          return Err(IndexOutOfRange);
        }
        basis := basis + [newBasises[k][i]];
      }
      assert basis == TubeStar(s, simulate, w, i).basis;
      var star := Superposition(s, simResults[i][1..], basis);
      tubes := tubes + [(simResults[i][0], star.value)];
    }
    // An empty center trajectory leaves nothing to index; every generator trajectory
    // is then empty as well, since none is longer.
    assert AlignedTrajectories(s, simulate, w);
    assert tubes == LinearTube(s, simulate, w).value;
    r := Ok(tubes);
  }

  /** The simulated state at row i of a trajectory, as a map on initial states. */
  function StateAt(simulate: Vec --> seq<Vec>, i: nat, n: nat): Vec --> Vec {
    x requires simulate.requires(x) && i < |simulate(x)| && |simulate(x)[i]| == n + 1 => simulate(x)[i][1..]
  }

  /** Each star of the linear tube is what `post_cont` under the time-i flow returns for a
      float basis, when the states keep the star's dimension and every trajectory has the
      same length. For an integer basis `post_cont` truncates its rows and the tube does
      not. */
  lemma TubeStarIsPostCont(s: Star, simulate: Vec --> seq<Vec>, i: nat, len: nat)
    requires WellShaped(s) && TrajectoryShape(simulate, |s.center|, |s.center| + 1) && i < len
    requires forall x {:trigger simulate(x)} :: |x| == |s.center| ==> |simulate(x)| == len
    ensures MapsDim(StateAt(simulate, i, |s.center|), |s.center|)
    ensures LinearTube(s, simulate, |s.center| + 1).Ok?
    ensures LinearTube(s, simulate, |s.center| + 1).value[i].1 == GenDiff(s, StateAt(simulate, i, |s.center|))
    ensures LinearTube(s, simulate, |s.center| + 1).value[i].1 == PostStar(s, StateAt(simulate, i, |s.center|), false)
  {
    var n := |s.center|;
    var f := StateAt(simulate, i, n);
    assert MapsDim(f, n) by {
      forall x | |x| == n ensures f.requires(x) && |f(x)| == n {
        assert |simulate(x)[i]| == n + 1;
      }
    }
    forall k | 0 <= k < |s.basis| ensures |Add(s.center, s.basis[k])| == n {
    }
    var g := GenDiff(s, f);
    var t := TubeStar(s, simulate, n + 1, i);
    assert t.basis == g.basis;
  }

  // ------------------------------------------------------------------ calc_reach_tube (bloating branch)

  /** An entry of the stitched tube: still the raw state row of the bloated tube, or the
      star `rect_to_star(lo, hi)` builds (kept abstract: only its arguments are recorded). */
  datatype Slot = Raw(data: Vec) | Boxed(lo: Vec, hi: Vec)

  /** One pass of the stitching loop on the entry (time, data). */
  function StitchStep(acc: seq<(real, Slot)>, time: real, data: Vec): Result<seq<(real, Slot)>> {
    if |acc| == 0 then Ok([(time, Raw(data))])
    else
      var (lastTime, lastSlot) := acc[|acc| - 1];
      if lastTime == time then
        if lastSlot.Boxed? then Err(NotASequence)
        else if |data| != |lastSlot.data| then Err(RectLength)
        else Ok(acc[|acc| - 1 := (time, Boxed(data, lastSlot.data))])
      else if lastSlot.Boxed? then Ok(acc + [(time, Raw(data))])
      else Ok(acc[|acc| - 1 := (lastTime, Boxed(lastSlot.data, lastSlot.data))] + [(time, Raw(data))])
  }

  /** The loop over the whole bloated tube, before the final pop. */
  function Stitched(tube: seq<Vec>): Result<seq<(real, Slot)>>
    requires forall e :: 0 <= e < |tube| ==> |tube[e]| >= 1
  {
    if |tube| == 0 then Ok([])
    else
      var entry := tube[|tube| - 1];
      match Stitched(tube[..|tube| - 1])
      case Err(e) => Err(e)
      case Ok(acc) => StitchStep(acc, entry[0], entry[1..])
  }

  /** The stitched tube without its last entry. */
  function StitchTube(tube: seq<Vec>): Result<seq<(real, Slot)>>
    requires forall e :: 0 <= e < |tube| ==> |tube[e]| >= 1
  {
    match Stitched(tube)
    case Err(e) => Err(e)
    case Ok(acc) => if |acc| == 0 then Err(IndexOutOfRange) else Ok(acc[..|acc| - 1])
  }

  /** The stitching branch of `calc_reach_tube`, given the bloated tube's rows
      [time, state...]; raises on an empty tube (the final pop). */
  method StitchBloatedTube(tube: seq<Vec>) returns (r: Result<seq<(real, Slot)>>)
    requires forall e :: 0 <= e < |tube| ==> |tube[e]| >= 1
    ensures r == StitchTube(tube)
  {
    var starTube: seq<(real, Slot)> := [];
    for e := 0 to |tube|
      invariant Stitched(tube[..e]) == Ok(starTube)
    {
      assert tube[..e + 1][..e] == tube[..e];
      var time := tube[e][0];
      var data := tube[e][1..];
      var before := starTube;
      if |starTube| > 0 {
        var last := starTube[|starTube| - 1];
        if last.0 == time {
          if last.1.Boxed? {
            StitchedErrSticks(tube, e + 1);
            return Err(NotASequence);
          }
          if |data| != |last.1.data| {
            StitchedErrSticks(tube, e + 1);
            return Err(RectLength);
          }
          starTube := starTube[|starTube| - 1 := (time, Boxed(data, last.1.data))];
        } else {
          if last.1.Raw? {
            starTube := starTube[|starTube| - 1 := (last.0, Boxed(last.1.data, last.1.data))];
          }
          starTube := starTube + [(time, Raw(data))];
        }
      } else {
        starTube := starTube + [(time, Raw(data))];
        assert starTube == [(time, Raw(data))];
      }
      assert StitchStep(before, time, data) == Ok(starTube);
    }
    assert tube[..|tube|] == tube;
    if |starTube| == 0 {
      return Err(IndexOutOfRange);
    }
    r := Ok(starTube[..|starTube| - 1]);
  }

  /** Once a prefix of the tube raises, the whole stitching raises the same error. */
  lemma {:induction false} StitchedErrSticks(tube: seq<Vec>, e: nat)
    requires forall k :: 0 <= k < |tube| ==> |tube[k]| >= 1
    requires e <= |tube| && Stitched(tube[..e]).Err?
    ensures Stitched(tube) == Stitched(tube[..e])
    ensures StitchTube(tube) == Stitched(tube[..e])
    decreases |tube| - e
  {
    if e == |tube| {
      assert tube[..e] == tube;
    } else {
      assert tube[..e + 1][..e] == tube[..e];
      StitchedErrSticks(tube, e + 1);
    }
  }

  /** The loop keeps every entry but the last converted to a star, and no two
      neighbouring entries share a time stamp. */
  ghost predicate StitchShape(acc: seq<(real, Slot)>) {
    && (forall k :: 0 <= k < |acc| - 1 ==> acc[k].1.Boxed?)
    && (forall k :: 0 <= k < |acc| - 1 ==> acc[k].0 != acc[k + 1].0)
  }

  lemma {:induction false} StitchedShape(tube: seq<Vec>)
    requires forall e :: 0 <= e < |tube| ==> |tube[e]| >= 1
    ensures Stitched(tube).Ok? ==> StitchShape(Stitched(tube).value)
    ensures Stitched(tube).Ok? && |tube| > 0 ==>
      |Stitched(tube).value| > 0 && Stitched(tube).value[|Stitched(tube).value| - 1].0 == tube[|tube| - 1][0]
  {
    if |tube| > 0 {
      StitchedShape(tube[..|tube| - 1]);
    }
  }

  /** What the stitching branch returns holds only stars, at pairwise distinct
      neighbouring time stamps. */
  lemma StitchTubeAllStars(tube: seq<Vec>)
    requires forall e :: 0 <= e < |tube| ==> |tube[e]| >= 1
    ensures StitchTube(tube).Ok? ==> forall k :: 0 <= k < |StitchTube(tube).value| ==> StitchTube(tube).value[k].1.Boxed?
    ensures StitchTube(tube).Ok? ==> forall k :: 0 <= k < |StitchTube(tube).value| - 1 ==>
      StitchTube(tube).value[k].0 != StitchTube(tube).value[k + 1].0
  {
    StitchedShape(tube);
  }

  /** On a bloated tube shaped [t0, a], [t1, b], [t1, c], [t2, d] (each rectangle's lower row
      at its start time, upper row at its end time) the first star is rect_to_star(a, a) and
      the second rect_to_star(c, b); the last row d is dropped. */
  lemma StitchTwoRectangles(t0: real, t1: real, t2: real, a: Vec, b: Vec, c: Vec, d: Vec)
    requires t0 != t1 && t1 != t2 && |a| == |b| == |c| == |d|
    ensures StitchTube([[t0] + a, [t1] + b, [t1] + c, [t2] + d]) == Ok([(t0, Boxed(a, a)), (t1, Boxed(c, b))])
  {
    var tube := [[t0] + a, [t1] + b, [t1] + c, [t2] + d];
    assert tube[..3][..2][..1] == [[t0] + a];
    assert tube[..3][..2] == [[t0] + a, [t1] + b];
    assert tube[..3] == [[t0] + a, [t1] + b, [t1] + c];
    assert ([t0] + a)[1..] == a && ([t1] + b)[1..] == b && ([t1] + c)[1..] == c && ([t2] + d)[1..] == d;
    assert ([t0] + a)[0] == t0 && ([t1] + b)[0] == t1 && ([t1] + c)[0] == t1 && ([t2] + d)[0] == t2;
    assert [(t0, Raw(a))][0 := (t0, Boxed(a, a))] + [(t1, Raw(b))] == [(t0, Boxed(a, a)), (t1, Raw(b))];
    assert [(t0, Boxed(a, a)), (t1, Raw(b))][1 := (t1, Boxed(c, b))] == [(t0, Boxed(a, a)), (t1, Boxed(c, b))];
    assert Stitched(tube[..3][..2][..1]) == Ok([(t0, Raw(a))]);
    assert Stitched(tube[..3][..2]) == Ok([(t0, Boxed(a, a)), (t1, Raw(b))]);
    assert Stitched(tube[..3]) == Ok([(t0, Boxed(a, a)), (t1, Boxed(c, b))]);
  }
}
