# Star sets of Verse, modelled in Dafny

Verse represents reachable sets of hybrid automata as **star sets**. A star set has three parts:

- a `center` of length n;
- a `basis` of m generator rows, each of length n;
- a predicate `C . alpha <= g` over the m coefficients.

It stands for the points `center + sum_i alpha[i] * basis[i]` whose coefficients satisfy the predicate.

This project models three things in Dafny and proves what they compute:

- the star-set algebra of `verse/stars/starset.py`;
- the simulators and fixture stars of `verse/stars/startests.py`;
- the mode controller `decisionLogic` of the highway-brake demo.

| file | module | what it holds |
|---|---|---|
| `outcomes.dfy` | `Outcomes` | The `Result`/`Option` wrappers. Each raise site the model covers becomes an `Err` with a named cause; the few failures it does not reproduce are listed under "Left out". |
| `linalg.dfy` | `LinAlg` | Exact real vectors and matrices (`Dot`, `MatVec`, `MatMul`, `Col`, `Combination`, `Identity`) and their algebra. |
| `starset.dfy` | `Stars` | The value type `Star` and the set it denotes (`Point`, `Witness`, `Contains`, `Nonempty`). Also the constructor, `superposition`, `from_poly`, the LP status logic of `is_feasible`/`is_empty`, `intersection_poly`/`intersection_halfspace`/`satisfies`, `get_true_center` and `maximize`. The class `StarSet` carries the one in-place update (`intersection_poly` reassigns `C` and `g`) and its callers. |
| `containment.dfy` | `Containment` | The Z3 constraint systems built by `contains_point`, `containment_poly` and `add_constraints`. A constraint is a linear form over named real variables, a `Solver` object accumulates them, and the satisfiability check is an oracle. |
| `propagation.dfy` | `Propagation` | The generator-difference image used by `post_cont` and `apply_reset`, the linear reach tube of `calc_reach_tube_linear`, and the time-stitching of the bloated tube in `calc_reach_tube`. |
| `fitting.dfy` | `Fitting` | `new_pred`, the rejection sampler `sample_star`, the bounding box of `combine_stars`, and the constraint system, validation and single retry of `post_cont_pca`. |
| `startests.dfy` | `StarTests` | `sim`, `sim_simple`, `sim_ugly`, the fixture stars, and the post-stars and intersections the test script builds. |
| `vehicle.dfy` | `Vehicle` | `VehicleMode`, `State` (with the `dist` field the code reads) and `decisionLogic`. |

The script `verse/stars/startests.py` calls `exit()` at lines 107, 149 and 153. The fixture post-stars at lines 108-143 and the calls at lines 151-183 therefore never run; the StarTests members that cite them state what those lines would compute if they were reached.

Foreign numerical code becomes a parameter whose soundness is a hypothesis. In each case the model proves what the Python code makes of the answer:

- scipy's `linprog` is a status code; `StatusSound` says what status 0 and status 2 promise.
- Z3's `Solver.check` is a function on constraint lists; `SolverDecides` says it decides satisfiability.
- Z3's `Optimize` is a partial model; `OptimizerSound` says a model satisfies the constraints.
- The bounds of `get_max_min` are a function that gives `None` when `linprog` returns no point; `BoundsSound` says an answer encloses the star.
- The simulators are function-typed arguments.

## Model

| member | source | states |
|---|---|---|
| Stars.Point | verse/stars/starset.py:343-349 | Coordinate j of a star's point is center[j] plus the sum over i of alpha[i] * basis[i][j]. |
| Stars.Construct | verse/stars/starset.py:60-72 | The constructor succeeds exactly when every basis row has length n, every row of C has m entries, and len(g) equals the row count of C. It raises for the first failing check in source order. On success it stores the four inputs unchanged. |
| Stars.ConstructRoundTrip | verse/stars/starset.py:76-77 | Rebuilding a star from its own fields (`starcopy`, `copy`) returns that same star exactly when the star is well shaped. |
| Stars.Superposition | verse/stars/starset.py:79-93 | It raises when the new basis count differs from the old one. Otherwise it succeeds exactly when the new rows match the new center's length, and the result keeps C and g. |
| Stars.FromPoly | verse/stars/starset.py:305-313 | It raises on a length mismatch between rhs and A, or on an empty A. Otherwise the result has a zero center of length n = len(A[0]), the identity basis, C = A and g = rhs. |
| Stars.FromPolyExact | verse/stars/starset.py:305-313 | The star built by `from_poly` contains exactly the points p of length n with A . p <= rhs. |
| Stars.IdentityPoint | verse/stars/starset.py:308-312 | With a zero center and the identity basis, every coefficient vector is its own point. |
| Stars.IdentityBasisPoint | verse/stars/starset.py:343-349 | With the identity basis, the point of alpha is center + alpha. |
| Stars.IsFeasible | verse/stars/starset.py:539-545 | It fails exactly on ill-shaped LP input or on a status other than 0 and 2. Status 0 gives true and status 2 gives false. Under a sound status, the result holds exactly when the nonnegative LP is feasible. |
| Stars.IsEmpty | verse/stars/starset.py:533-537 | It succeeds exactly when `is_feasible` does, and then returns its negation. Under a sound status, the result holds exactly when the n-variable nonnegative program is infeasible. |
| Stars.IsEmptyIntended | verse/stars/starset.py:533-540 | This is the corrected emptiness test: m free variables. Status 0 gives false and status 2 gives true. Under a sound status, it returns true exactly when the star has no point. |
| Stars.FreeLpDecidesNonempty | verse/stars/starset.py:539-540 | The free m-variable program over C and g is feasible exactly when the star's predicate is nonempty. |
| Stars.NonemptyHasPoint | verse/stars/starset.py:533-537 | A star's predicate is nonempty exactly when the star contains a point. |
| Stars.ContainsDim | verse/stars/starset.py:343-349 | Every point of a star has the star's dimension. |
| Stars.IsEmptyMissesNegativeCoefficients | verse/stars/starset.py:534 | Take the one-generator star whose coefficient lies in [-1, -1/2]. It contains -1/2, yet `is_empty`'s program is infeasible, so a sound backend makes `is_empty` answer true. |
| Stars.IntersectPoly | verse/stars/starset.py:269-280 | It raises on an empty A, on an empty first row (the guard's only way to trip), on len(rhs) != rows(A), and on the numpy shape errors of `A @ basis`. On success, center and basis are unchanged. C gains exactly rows(A) rows, row k holding `A[k] @ basis`. g gains rhs[k] - A[k] . center. The old rows of C and g are kept. |
| Stars.IntersectHalfspace | verse/stars/starset.py:264-267 | This is the one-row `intersection_poly`. It succeeds exactly when 0 < len(H) = n = m. |
| Stars.IntersectPolyIntended | verse/stars/starset.py:269-280 | This is the corrected intersection, with rows `A @ basis^T`. It keeps center, basis and the old rows. |
| Stars.IntersectPolyIntendedExact | verse/stars/starset.py:269-280 | The corrected intersection contains exactly the points of the star that satisfy A . p <= rhs. |
| Stars.IntersectPolySymmetricAgrees | verse/stars/starset.py:275 | For a symmetric basis (as from `from_poly`), the code as written returns the corrected intersection. |
| Stars.IntersectPolyTransposeEscape | verse/stars/starset.py:275 | Take generators (1, 1) and (0, 1) and the half-space x0 <= 0. The intersection as written contains (1, -1); the corrected one does not. |
| Stars.SatisfiesValue | verse/stars/starset.py:327-333 | `satisfies(H, rhs)` is `is_empty` of the copy intersected with -H . x <= -rhs. When that intersection raises, `satisfies` raises the same error. |
| Stars.SatisfiesIntendedSound | verse/stars/starset.py:327-333 | Corrected `satisfies`, under a sound status: true exactly when every point of the star satisfies H . p < rhs. |
| Stars.ComplementEmpty | verse/stars/starset.py:328-333 | The star meets the closed complement -H . x <= -rhs in no point exactly when it lies strictly inside H . x < rhs. |
| Stars.ComplementPoint | verse/stars/starset.py:330 | A point lies in the complement intersection exactly when it lies in the star and has H . p >= rhs. |
| Stars.CenterFormula | verse/stars/starset.py:499 | Coordinate i of the value `max - min / 2` is the midpoint of interval i exactly when max = 2 * min, so on almost every interval it is not the center. |
| Stars.GetTrueCenter | verse/stars/starset.py:493-502 | One `get_max_min` per dimension of the star, in order. It raises exactly when some dimension gets no `linprog` point, with `NoSolution`. Otherwise the result is `max - min / 2` of every dimension's pair, in dimension order. |
| Stars.GetTrueCenterLeavesBox | verse/stars/starset.py:499 | On the interval [-4, -2], `max - min / 2` gives 0, which lies outside the interval. |
| Stars.Midpoint | verse/stars/starset.py:493-502 | This is the corrected center. Each coordinate is equidistant from the two bounds of its dimension and lies between them. |
| Stars.MaximizeObjective | verse/stars/starset.py:466-470 | The objective rates an LP point x at -(d . (basis @ x)): the direction is pushed through `basis`, not its transpose. |
| Stars.MaximizeObjectiveSymmetricAgrees | verse/stars/starset.py:470 | For a symmetric basis (as from `from_poly`), the objective as written is the corrected one. |
| Stars.MaximizeObjectiveIntended | verse/stars/starset.py:466-477 | The corrected LP objective c satisfies c . alpha = d . center - d . point(alpha) for every alpha. Minimising it therefore maximises d over the star. |
| Stars.MaximizeObjectiveMismatch | verse/stars/starset.py:470 | Take generators (1, 1) and (0, 1) and d = (1, 0). The source's objective rates alpha = (0, 1) at -1, though d . point(alpha) is 0. |
| Stars.BackMapInStar | verse/stars/starset.py:481-485 | Mapping an admissible LP answer back through the generators gives a point of the star. |
| Stars.Maximize | verse/stars/starset.py:463-491 | The caller's direction array is negated in place, before anything can raise. A direction length other than m, or m != n, raises numpy's or linprog's ValueError. When `linprog` gives no point, reading `res.x` fails. Otherwise the result is the point of the LP answer for the source's objective, and it lies in the star whenever that answer satisfies the predicate. |
| Stars.ContainPoint | verse/stars/starset.py:286-287 | `contain_point` always raises. |
| Stars.ToPoly | verse/stars/starset.py:315-316 | `to_poly` always raises. |
| Stars.StarSet.constructor | verse/stars/starset.py:60-72 | A new object holds exactly the given well-shaped star. |
| Stars.StarSet.Create | verse/stars/starset.py:40-72 | Construction fails exactly when `Construct` does, with the same error. Otherwise it yields a fresh object whose value is the four inputs. |
| Stars.StarSet.Copy | verse/stars/starset.py:250-252 | It returns a fresh object with the same value. |
| Stars.StarSet.IntersectionPoly | verse/stars/starset.py:269-280 | On success the object's value becomes `IntersectPoly` of its old value. On failure it raises the same error and nothing changes. |
| Stars.StarSet.IntersectionHalfspace | verse/stars/starset.py:264-267 | The object is updated exactly as `IntersectHalfspace` prescribes, and left unchanged on failure. |
| Stars.StarSet.GetHalfspaceIntersection | verse/stars/starset.py:254-259 | It returns a fresh object holding the intersected copy. The argument object is not modified. |
| Stars.StarSet.Satisfies | verse/stars/starset.py:327-333 | The receiver is not modified, and the answer equals `SatisfiesValue` of its value. |
| Containment.AssertPointSystem | verse/stars/starset.py:344-356 | The solver gains one equality per coordinate of the point, then one inequality per row of C, in source order. |
| Containment.AddPredicateRows | verse/stars/starset.py:352-356 | The solver gains one inequality C[i] . alpha <= g[i] per row, in order. |
| Containment.PredicateRowsMeaning | verse/stars/starset.py:352-356 | An assignment satisfies the inequality rows exactly when its coefficients satisfy the star's predicate. |
| Containment.PointRowsMeaning | verse/stars/starset.py:344-349 | An assignment satisfies the equality rows exactly when the star's point for its coefficients agrees with the given point on the point's coordinates. |
| Containment.PointSystemMeaning | verse/stars/starset.py:335-361 | The whole system is satisfiable exactly when some point of the star begins with the given point. |
| Containment.FullPrefix | verse/stars/starset.py:344 | For a point of full length, "some point of the star begins with it" is star containment. |
| Containment.ContainsPoint | verse/stars/starset.py:335-361 | It raises exactly when the point is longer than n. Otherwise it returns the oracle's answer on the system. With a deciding oracle, that answer is prefix containment, and full containment for a point of length n. |
| Containment.ContainmentPoly | verse/stars/starset.py:578-603 | It raises exactly when the point's length is not n. Otherwise it returns the oracle's answer. With a deciding oracle, the result holds exactly when the star contains the point. |
| Containment.AddConstraints | verse/stars/starset.py:365-391 | It raises exactly when the state vector is shorter than n, after adding the equalities that fit. Otherwise the solver gains n equalities (point = state) and then the predicate rows. |
| Containment.StateRowsMeaning | verse/stars/starset.py:376-378 | The equalities hold exactly when the star's point equals the values of the state variables. |
| Containment.AddConstraintsMeaning | verse/stars/starset.py:365-391 | The added constraints hold exactly when the coefficients witness the state variables' values as a point of the star. |
| Propagation.GenDiff | verse/stars/starset.py:219-227 | The generator-difference image is well shaped. It has the old dimension and generator count, and the same C and g. |
| Propagation.StoreRow | verse/stars/starset.py:222-226 | A generator stored into `np.empty_like(basis)` keeps its length. An integer basis truncates every entry toward zero; a float basis keeps the row as it is. |
| Propagation.PostStar | verse/stars/starset.py:219-227 | The returned star is well shaped, with center f(center) and the old C and g. Generator i is generator i of the generator-difference image, stored at the old basis's dtype. For a float basis the star is exactly that image. |
| Propagation.GeneratorDifference | verse/stars/starset.py:221-227 | The loop yields center f(center) and generator rows f(center + basis[i]) - f(center), each stored at the old basis's dtype (truncated toward zero for an integer basis). The predicate is unchanged. |
| Propagation.PostCont | verse/stars/starset.py:219-227 | `post_cont` is `PostStar` under x -> simulate(x, t): for a float basis exactly the generator-difference image, for an integer basis its generators truncated toward zero. Its center is simulate(center, t), and C and g are unchanged. |
| Propagation.ApplyReset | verse/stars/starset.py:232-242 | `apply_reset` is `PostStar` under the reset map: for a float basis exactly the generator-difference image, for an integer basis its generators truncated toward zero. C and g are unchanged. |
| Propagation.GenDiffRows | verse/stars/starset.py:221-226 | The image's center and its rows, as computed by the two loops. |
| Propagation.GenDiffIdentity | verse/stars/starset.py:219-227 | Under the identity map the star is unchanged. |
| Propagation.AffineGenerator | verse/stars/starset.py:225-226 | For an affine map f(x) = M x + b, the generator difference f(c + v) - f(c) equals M v. |
| Propagation.AffineGenerators | verse/stars/starset.py:223-226 | Under an affine map, every new generator is M applied to the old one. |
| Propagation.GenDiffAffineExact | verse/stars/starset.py:219-227 | Under an affine map, the image's point for alpha is f of the old point for alpha. |
| Propagation.GenDiffAffineImage | verse/stars/starset.py:219-227 | Under an affine map, the image contains exactly the f-images of the star's points. |
| Propagation.TubeStar | verse/stars/starset.py:109-113 | The star at time row i is well shaped in the trajectories' state dimension w - 1, keeps the predicate, and has one generator per old generator. |
| Propagation.LinearTube | verse/stars/starset.py:96-116 | For trajectory rows of any common width w >= 1, the tube exists exactly when no generator trajectory is shorter than the center's. It then holds one (time, star) per center row: the row's time and the simulated center with the simulated generator differences. |
| Propagation.GeneratorTrajectories | verse/stars/starset.py:102-108 | For trajectory rows of any common width, it raises exactly when some generator trajectory is longer than the center's. Otherwise it holds, per generator and row, that trajectory's state minus the center's state. |
| Propagation.CalcReachTubeLinear | verse/stars/starset.py:96-116 | For trajectory rows of any common width, the loops compute `LinearTube`, including its IndexError cases. |
| Propagation.TubeStarIsPostCont | verse/stars/starset.py:96-116 | When the simulated states keep the star's dimension and all trajectories have one length, the tube's star at row i is the generator-difference image under the time-i state map. That is what `post_cont` at that time returns on a float basis (`PostStar` without truncation); on an integer basis `post_cont` truncates its rows and the tube does not. |
| Propagation.StitchBloatedTube | verse/stars/starset.py:184-198 | The loop over the bloated tube and the final pop compute `StitchTube`. |
| Propagation.StitchedErrSticks | verse/stars/starset.py:184-197 | Once a prefix of the tube raises, the whole stitch raises the same error. |
| Propagation.StitchedShape | verse/stars/starset.py:184-195 | Before the pop, every entry but the last is a rectangle, consecutive times differ, and the last time is the tube's last time. |
| Propagation.StitchTubeAllStars | verse/stars/starset.py:184-198 | After the pop, every entry is a rectangle and consecutive entries have different times. |
| Propagation.StitchTwoRectangles | verse/stars/starset.py:186-198 | Take times t0, t1, t1, t2. The result is the rectangle (a, a) at t0 and the rectangle from c and b at t1; the last time is popped. |
| Fitting.BoxC | verse/stars/starset.py:684-697 | The box predicate has 2m rows of width m. |
| Fitting.NewPredicate | verse/stars/starset.py:683-699 | It raises with no generators, or when len(g) != 2m. Otherwise it keeps center and basis, with C = BoxC(m) and g all ones. |
| Fitting.NewPred | verse/stars/starset.py:683-699 | The nested loops and the transpose compute `NewPredicate`. |
| Fitting.BoxPredicateMeaning | verse/stars/starset.py:686 | The box predicate holds exactly when every coefficient lies in [-1, 1]. |
| LinAlg.Trunc | verse/stars/starset.py:620 | `int()` truncates toward zero: the result is within 1 of x, on the side of 0. |
| Fitting.SampleStar | verse/stars/starset.py:606-625 | The while loop computes `SampleRun` with limit int(N * tol). |
| Fitting.SampleRunResult | verse/stars/starset.py:611-625 | On success, exactly max(N, already collected) points are returned. Earlier points are kept, and each new one is a candidate that passed the containment test. |
| Fitting.SampledPointsInStar | verse/stars/starset.py:613-616 | With a deciding oracle, a successful `sample_star` returns N points (none for negative N), all in the star it tests them against. In the model that is the unrounded star (see "Left out"). |
| Fitting.TooManyMissesWitness | verse/stars/starset.py:612-624 | Giving up means a run of consecutive rejected candidates, continuing the misses already counted, that is longer than the limit. A hit resets the count. |
| Fitting.SampleOkStreaksBounded | verse/stars/starset.py:612-624 | Conversely, a run that returns its points never met more than int(N * tol) consecutive rejections, continuing the misses already counted, among the candidates it drew. |
| Fitting.CombineStars | verse/stars/starset.py:547-558 | An empty list raises. Otherwise the queries run dimension by dimension and star by star, and the first failing one raises: a star of smaller dimension than the first gives the index error, and a `get_max_min` whose `linprog` gives no point gives `NoSolution`. It succeeds exactly when no query fails, and then rect[i] is the least minimum and the greatest maximum over all stars in dimension i. |
| Fitting.CombinedBoxCovers | verse/stars/starset.py:547-558 | With sound bounds, every point of every star lies in the combined box. |
| Fitting.CombineSingle | verse/stars/starset.py:549-558 | For one star, every query of the box succeeded and the box is exactly that star's bounds. |
| Fitting.PcaEqRows | verse/stars/starset.py:649-655 | A point contributes one equality per dimension. |
| Fitting.PcaLeRows | verse/stars/starset.py:657-662 | A point contributes one scaled inequality per row of C. |
| Fitting.PcaBlock | verse/stars/starset.py:647-662 | A point's block has n + rows(C) constraints. |
| Fitting.Fitted | verse/stars/starset.py:679-680 | The star read off a model is well shaped. |
| Fitting.AddPointBlock | verse/stars/starset.py:648-662 | The optimiser gains the point's equalities and then its inequalities. |
| Fitting.PcaEqRowsMeaning | verse/stars/starset.py:649-655 | A model satisfies the equalities exactly when the fitted star's point for that point's coefficients is the sample point. |
| Fitting.PcaLeRowsMeaning | verse/stars/starset.py:657-662 | A model satisfies the inequalities exactly when those coefficients satisfy C . alpha <= u * g. |
| Fitting.PcaBlockMeaning | verse/stars/starset.py:647-662 | A model satisfies the point's block exactly when its coefficients witness the sample point in the fitted star. |
| Fitting.PcaSystemBlocks | verse/stars/starset.py:647 | The whole system holds exactly when every point's block holds. |
| Fitting.PcaSystemMeaning | verse/stars/starset.py:645-662 | A model satisfies the system exactly when every sample point has a witness in the fitted star. |
| Fitting.SatisfiableFits | verse/stars/starset.py:669-680 | A satisfiable system yields a center and scale whose star contains every sample point. |
| Fitting.FitsSatisfiable | verse/stars/starset.py:669-676 | Conversely, a star of that form containing every sample point makes the system satisfiable. |
| Fitting.FitsIffSatisfiable | verse/stars/starset.py:645-676 | The system is satisfiable exactly when some center and scale make the derived basis cover all points. |
| Fitting.FitOnce | verse/stars/starset.py:645-680 | One Optimize call: a model gives the star fitted from it (center from the model, basis `derived_basis`, g scaled by mu), and no model gives the RuntimeError. With a sound optimiser, the fitted star contains every point, and no model means no center and scale can cover them. |
| Fitting.PostContPca | verse/stars/starset.py:628-680 | It raises ValueError for no points, for a wrong point dimension, and for a basis-shape mismatch. On success the result has basis `derived_basis`, the old C and g scaled by mu, for the old or (after one retry) the box predicate. With a sound optimiser, every point lies in the result. The final RuntimeError means neither predicate can fit the points. Once the inputs validate, a model of the first system gives that model's fitted star. With no model, `usat` gives the RuntimeError; otherwise the outcome is `new_pred`'s error, or the retry's fitted star, or the RuntimeError. |
| StarTests.SimSimple | verse/stars/startests.py:50-57 | `sim_simple` returns a 2-vector. |
| StarTests.SimUgly | verse/stars/startests.py:39-49 | `sim_ugly` returns a 2-vector. |
| StarTests.Passes | verse/stars/startests.py:22-24 | The loop makes no pass for t < 0. Otherwise it makes k passes, with k - 1 <= t < k. |
| StarTests.SimValue | verse/stars/startests.py:20-26 | The value of `sim` has the input's length. |
| StarTests.Sim | verse/stars/startests.py:20-26 | With no pass, the input is returned. Otherwise the loop needs a 2-vector (else numpy raises) and returns vec scaled by 0.1 per pass. |
| StarTests.ShrinkScales | verse/stars/startests.py:21-25 | One pass multiplies a scaled 2-vector by 0.1 once more. |
| StarTests.SimTwice | verse/stars/startests.py:20-26 | At t = 1, `sim` scales by 0.01 (two passes). |
| StarTests.SimSimpleTranslates | verse/stars/startests.py:50-57 | `sim_simple` is the affine map x -> x + (0.7, 0.7) at every t. |
| StarTests.SimLinear | verse/stars/startests.py:20-26 | `sim` at t = 1 is the linear map diag(0.01, 0.01). |
| StarTests.FixtureIsBox | verse/stars/startests.py:10-11 | The fixture C is `new_pred`'s box on two coefficients, and the fixture basis is the identity. |
| StarTests.FixturePredicate | verse/stars/startests.py:10-11 | The fixture predicate bounds alpha0 to [-g1, g0] and alpha1 to [-g3, g2]. |
| StarTests.FixtureContains | verse/stars/startests.py:59-64 | A fixture-shaped star contains exactly the rectangle around its center given by g. |
| StarTests.SquarePoints | verse/stars/startests.py:60-64 | `test1` is built without error and contains exactly [2, 4]^2, including (3, 2). |
| StarTests.ShiftedPoints | verse/stars/startests.py:82-86 | `test2` is built without error and contains exactly [2, 4]^2. |
| StarTests.SimulatorsMapPlane | verse/stars/startests.py:39-57 | Both simulators map 2-vectors to 2-vectors at every t. |
| StarTests.TwoGenerators | verse/stars/startests.py:65-66 | On an identity-basis plane star, `post_cont` moves the center to f(center), with the generators f(center + e_i) - f(center). |
| StarTests.ShiftedAfterSimCast | verse/stars/startests.py:82-89 | `test2` has an integer basis. Under `sim_simple` its unit generators survive the truncation; under `sim_ugly` the stored basis is zero. |
| StarTests.SquareAfterSimSimple | verse/stars/startests.py:65 | `test1.post_cont(sim_simple, 1)` equals the post-star at lines 116-120: center (3.7, 3.7), identity basis. |
| StarTests.PostSimSimpleExact | verse/stars/startests.py:65 | `post_cont(sim_simple)` on any plane star contains exactly the translates of its points. |
| StarTests.SquareAfterSimUgly | verse/stars/startests.py:66 | `test1.post_cont(sim_ugly, 1)` equals the post-star at lines 108-112: center (9, 1) and basis [[3, 1/3], [3, -1/4]]. |
| StarTests.ShiftedAfterSimUgly | verse/stars/startests.py:89 | `test2.post_cont(sim_ugly, 1)` has an all-zero center and basis, matching the expected star at lines 132-136: every sample it takes has y = 0 or x = 0, so `sim_ugly` (lines 44-48) gives (0, 0). |
| StarTests.ShiftedAfterSimUglyMisses | verse/stars/startests.py:45-46 | (2, 2) lies in `test2` and `sim_ugly` sends it to (4, 1), yet that post-star does not contain (4, 1). |
| StarTests.ShiftedAfterSimSimple | verse/stars/startests.py:88 | `test2.post_cont(sim_simple, 1)` equals the post-star at lines 139-143: center (0.7, 0.7), identity basis. |
| StarTests.SquareAfterSimExact | verse/stars/startests.py:183 | On exact reals, the generator-difference image of the (3, 3) identity-basis star under one second of `sim` has center (0.03, 0.03) and generators diag(0.01, 0.01). |
| StarTests.SquareAfterSim | verse/stars/startests.py:183 | `test` was built from integer arrays (lines 5-6, 59), so `post_cont(sim, 1)`, whatever its predicate, has center (0.03, 0.03) but the all-zero basis: the generators 0.01 truncate to 0. |
| StarTests.CenteredIntersect | verse/stars/startests.py:167-171 | On a star centered at (3, 3) with the identity basis, `intersection_poly` appends A unchanged and bounds rhs - A . (3, 3). |
| StarTests.GrowthSteps | verse/stars/startests.py:167-171 | The half-space (5, 5) . x <= 3 and then the rows (8, 8), (9, 9) with rhs (4, 5) give bounds -27, then -44 and -49. |
| StarTests.IntersectionGrowth | verse/stars/startests.py:167-171 | On the object, C grows from 4 to 5 to 7 rows, and g grows to match. |
| StarTests.ComplementIntersect | verse/stars/startests.py:161-162 | `satisfies((1, 0), rhs)` intersects the square with -x0 <= -rhs. |
| StarTests.SquareSatisfiesIsEmpty | verse/stars/startests.py:161-162 | Its answer is `is_empty` of that complement star. |
| StarTests.LowComplementFeasible | verse/stars/startests.py:161 | For rhs = -2, the complement program is feasible. |
| StarTests.HighComplementInfeasible | verse/stars/startests.py:162 | For rhs = 10, the complement program is infeasible. |
| StarTests.SquareSatisfiesLow | verse/stars/startests.py:161 | Under a sound status, `satisfies((1, 0), -2)` answers false. |
| StarTests.SquareSatisfiesHigh | verse/stars/startests.py:162 | Under a sound status, `satisfies((1, 0), 10)` answers true. |
| Vehicle.DecisionLogic | demo/highway_brake/vehicle_controller_golden_R3.py:24-34 | It fails exactly when other.dist <= 2, whatever the mode. Otherwise the output equals ego except possibly in its mode. A Normal ego with dist < 30 gets HardBrake. A Brake or HardBrake ego with dist > 50 gets Accel. When neither rule fires, the mode is kept. |
| Vehicle.RulesExclusive | demo/highway_brake/vehicle_controller_golden_R3.py:26-30 | Both guards read ego's mode, so at most one rule fires. |
| Vehicle.ModeTransitions | demo/highway_brake/vehicle_controller_golden_R3.py:25-30 | The only mode changes are Normal to HardBrake, and Brake or HardBrake to Accel. Accel is kept. |
| Vehicle.DecisionIdempotent | demo/highway_brake/vehicle_controller_golden_R3.py:24-34 | Deciding again against the same other agent changes nothing. |

## Left out

- Numeric solver answers: scipy `linprog` solutions, Z3 models and the values of `get_max_min`/`overapprox_rectangle(s)`. These are foreign solvers. Each is a parameter with a soundness hypothesis (`StatusSound`, `SolverDecides`, `OptimizerSound`, `BoundsSound`), and the rest of the code is proved against it.
- Floats are modelled as exact reals, so rounding in float arithmetic is not modelled. The one cast that matters to the test script, a float generator stored into an integer basis, is modelled by `StoreRow`.
- Propagation.GeneratorDifference, Propagation.PostCont, Propagation.ApplyReset: the basis array's dtype is not part of `Star`; the caller states it as the flag `intBasis`, and only integer and float dtypes are told apart. The new center is the simulator's own array, so it is never truncated.
- Fitting.SampleStar: the rounding of the star's four arrays to six decimals at verse/stars/starset.py:608 is not modelled. The model samples and tests the unrounded star, so near the boundary it can accept a candidate that the source rejects, or the reverse. The `np.around` at line 640 only sets the dead `new_center` (see Fitting.PostContPca).
- Fitting.SampleStar: the random `sample_rect` draws are replaced by a sequence of candidate points. The diagnostic prints before the raise are not modelled.
- Fitting.SampleStar: the box the candidates come from, `overapprox_rectangle` (verse/stars/starset.py:609, 118-126), is not computed. It calls `get_max_min` in every dimension, which raises when `linprog` returns no point (lines 515 and 523). The model starts from the candidates and does not reproduce that raise.
- Fitting.PostContPca: the minimisation of mu is not modelled. Only the soundness of the optimiser's model is used, so the contract does not say that mu is minimal. The averaged `new_center` at line 640 is dead (it is overwritten by the model's center) and is left out.
- Stars.GetTrueCenter: the two `linprog` calls of `get_max_min` form one `bounds` answer per dimension, so the model does not tell which of the two gave no point.
- Fitting.CombineStars: returns the per-dimension (min, max) rectangle. The two `linprog` calls of `get_max_min` form one `bounds` answer per star and dimension, so the model does not tell which of the two gave no point. The final `from_polytope(box2poly(...))` conversion belongs to the polytope library, which is not part of this model.
- Propagation.StitchBloatedTube: `rect_to_star` is kept abstract as the pair of rectangle corners it receives (`Boxed`). `calc_bloated_tube` and `overapprox_rectangle` are the tube's input, not computed. The PCA branch of `calc_reach_tube` is left out with the learning code.
- Propagation.CalcReachTubeLinear: the simulator's mode label, horizon, step and lane map are fixed inside the `simulate` parameter. Its trajectory rows are assumed to have one width for every initial state, as one numpy array per call has; a simulator whose width changes with the initial state would make numpy raise, which the model does not reproduce.
- Propagation.PostCont, Propagation.ApplyReset: require the simulator (for `apply_reset`, the reset function) to return vectors of the star's dimension on all inputs of that dimension. One that does not would make numpy raise a shape error, which the model does not reproduce.
- Stars.Maximize: the LP answer is a parameter, `None` when `linprog` returns no point. Its optimality is not stated, only how the code negates the direction, checks the shapes and maps the answer back. numpy returns the point as a 1-by-n array; the model returns its one row.
- Stars.IntersectHalfspace: the `ndim == 1` check of verse/stars/starset.py:265 is structural here, since H is a vector by type.
- Containment.ContainmentPoly: the coefficient count is taken from len(basis) rather than `C.shape[1]`. The two agree on every well-shaped star whose C has at least one row.
- The `Solver`/`Optimize` objects keep only their list of assertions. Z3 expression building is represented by linear-constraint values.
- PCA, jax and torch code (`gen_starset`, `starset_loss`, `gen_starset_grad`, `PostNN`, `train`, `get_model`, `gen_reachtube`, `check_unsat`) is floating-point learning and is not part of this model.
- `get_verts`, `plot`, `show`, `print`, the plotting helpers in both files and the module-level example constants are output and plotting, and are not part of this model.
- `overapprox_rectangles`, `rect_to_star`, `from_polytope`, `union` and `intersect` depend on the polytope library or are empty stubs, and are not part of this model.
- `PedestrianMode` in the vehicle controller is declared but never used.
- demo/cav2023/exp5/exp5.py is scenario configuration, file loading and plot output, and is not part of this model.
- An empty C carries no column count here (numpy's `C.shape[1]` of a 0-by-m array does). Stars with an empty predicate therefore pass the width check whatever m is.

## Findings

| source | as written | input that shows it | evidently intended | confidence | as-written member | corrected member |
|---|---|---|---|---|---|---|
| verse/stars/starset.py:275 | new predicate rows `A @ basis` | basis rows (1, 1), (0, 1); half-space x0 <= 0; point (1, -1) via alpha = (1, -2) | rows `A @ basis^T`, so that the star keeps exactly its points with A . x <= rhs | high, not executed | Stars.IntersectPolyTransposeEscape | Stars.IntersectPolyIntendedExact |
| verse/stars/starset.py:534-540 | `linprog` with n variables and default bounds x >= 0 | one generator, alpha in [-1, -1/2]: the star contains -1/2, yet `is_empty` reports it empty | m free variables (`bounds=(None, None)`, as `maximize` uses), so emptiness means no point | high, not executed | Stars.IsEmptyMissesNegativeCoefficients | Stars.SatisfiesIntendedSound |
| verse/stars/starset.py:499 | `max - min / 2` | bounds (-4, -2) give 0 | `(max + min) / 2`, the midpoint | high, not executed | Stars.GetTrueCenterLeavesBox | Stars.Midpoint |
| verse/stars/starset.py:470 | objective `opt_direction.T @ basis` | basis rows (1, 1), (0, 1); d = (1, 0); alpha = (0, 1) is rated -1 though its point has d . x = 0 | `-(basis @ d)`, the direction expressed in coefficients | medium, not executed | Stars.MaximizeObjectiveMismatch | Stars.MaximizeObjectiveIntended |
