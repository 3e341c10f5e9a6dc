/** Exact linear algebra over `real` on vectors (`seq<real>`) and matrices stored
    as sequences of rows, with the facts the star-set proofs need. */
module LinAlg {

  type Vec = seq<real>

  /** Every row of `M` has `w` entries. */
  predicate HasWidth(M: seq<Vec>, w: nat) {
    forall i :: 0 <= i < |M| ==> |M[i]| == w
  }

  /** Python's int() on a float, and numpy's cast of a float into an integer array:
      truncation toward zero. */
  function Trunc(x: real): (r: int)
    ensures 0.0 <= x ==> r as real <= x < r as real + 1.0
    ensures x < 0.0 ==> r as real - 1.0 < x <= r as real
  {
    if 0.0 <= x then x.Floor else -((-x).Floor)
  }

  function Dot(a: Vec, b: Vec): real
    requires |a| == |b|
  {
    if |a| == 0 then 0.0 else a[0] * b[0] + Dot(a[1..], b[1..])
  }

  function Add(a: Vec, b: Vec): (r: Vec)
    requires |a| == |b|
    ensures |r| == |a| && forall i :: 0 <= i < |a| ==> r[i] == a[i] + b[i]
  {
    seq(|a|, i requires 0 <= i < |a| => a[i] + b[i])
  }

  function Sub(a: Vec, b: Vec): (r: Vec)
    requires |a| == |b|
    ensures |r| == |a| && forall i :: 0 <= i < |a| ==> r[i] == a[i] - b[i]
  {
    seq(|a|, i requires 0 <= i < |a| => a[i] - b[i])
  }

  function Scale(k: real, a: Vec): (r: Vec)
    ensures |r| == |a| && forall i :: 0 <= i < |a| ==> r[i] == k * a[i]
  {
    seq(|a|, i requires 0 <= i < |a| => k * a[i])
  }

  function Neg(a: Vec): (r: Vec)
    ensures |r| == |a| && forall i :: 0 <= i < |a| ==> r[i] == -a[i]
  {
    seq(|a|, i requires 0 <= i < |a| => -a[i])
  }

  function Const(n: nat, k: real): (r: Vec)
    ensures |r| == n && forall i :: 0 <= i < n ==> r[i] == k
  {
    seq(n, i => k)
  }

  /** The i-th unit vector of length n. */
  function Unit(n: nat, i: nat): (r: Vec)
    ensures |r| == n && forall j :: 0 <= j < n ==> r[j] == if j == i then 1.0 else 0.0
  {
    seq(n, j => if j == i then 1.0 else 0.0)
  }

  /** The n-by-n identity matrix, as rows. */
  function Identity(n: nat): (I: seq<Vec>)
    ensures |I| == n && HasWidth(I, n)
    ensures forall i, j :: 0 <= i < n && 0 <= j < n ==> I[i][j] == if i == j then 1.0 else 0.0
  {
    seq(n, i requires 0 <= i < n => Unit(n, i))
  }

  /** Column j of a matrix given by rows. */
  function Col(B: seq<Vec>, j: nat): (r: Vec)
    requires forall i :: 0 <= i < |B| ==> j < |B[i]|
    ensures |r| == |B| && forall i :: 0 <= i < |B| ==> r[i] == B[i][j]
  {
    seq(|B|, i requires 0 <= i < |B| => B[i][j])
  }

  function MatVec(M: seq<Vec>, x: Vec): (r: Vec)
    requires HasWidth(M, |x|)
    ensures |r| == |M| && forall i :: 0 <= i < |M| ==> r[i] == Dot(M[i], x)
  {
    seq(|M|, i requires 0 <= i < |M| => Dot(M[i], x))
  }

  /** The matrix product A @ B of row-stored matrices (B has `w` columns). */
  function MatMul(A: seq<Vec>, B: seq<Vec>, w: nat): (P: seq<Vec>)
    requires HasWidth(A, |B|) && HasWidth(B, w)
    ensures |P| == |A| && HasWidth(P, w)
    ensures forall r, j :: 0 <= r < |A| && 0 <= j < w ==> P[r][j] == Dot(A[r], Col(B, j))
  {
    seq(|A|, r requires 0 <= r < |A| => seq(w, j requires 0 <= j < w => Dot(A[r], Col(B, j))))
  }

  /** The linear combination sum_i alpha[i] * B[i] of the rows of B, each of length n:
      coordinate j is sum_i alpha[i] * B[i][j]. */
  function Combination(B: seq<Vec>, alpha: Vec, n: nat): (r: Vec)
    requires |alpha| == |B| && HasWidth(B, n)
    ensures |r| == n && forall j :: 0 <= j < n ==> r[j] == Dot(alpha, Col(B, j))
  {
    seq(n, j requires 0 <= j < n => Dot(alpha, Col(B, j)))
  }

  /** Component-wise a <= b. */
  predicate LeAll(a: Vec, b: Vec)
    requires |a| == |b|
  {
    forall i :: 0 <= i < |a| ==> a[i] <= b[i]
  }

  // ---------------------------------------------------------------- facts

  lemma Dot1(a0: real, b0: real)
    ensures Dot([a0], [b0]) == a0 * b0
  {
    assert [a0][1..] == [];
  }

  lemma Dot2(a0: real, a1: real, b0: real, b1: real)
    ensures Dot([a0, a1], [b0, b1]) == a0 * b0 + a1 * b1
  {
    assert [a0, a1][1..] == [a1] && [b0, b1][1..] == [b1];
    Dot1(a1, b1);
  }

  lemma {:induction false} DotComm(a: Vec, b: Vec)
    requires |a| == |b|
    ensures Dot(a, b) == Dot(b, a)
  {
    if |a| > 0 {
      DotComm(a[1..], b[1..]);
    }
  }

  lemma {:induction false} DotAdd(a: Vec, u: Vec, v: Vec)
    requires |a| == |u| == |v|
    ensures Dot(a, Add(u, v)) == Dot(a, u) + Dot(a, v)
  {
    if |a| > 0 {
      assert Add(u, v)[1..] == Add(u[1..], v[1..]);
      DotAdd(a[1..], u[1..], v[1..]);
    }
  }

  lemma {:induction false} DotSub(a: Vec, u: Vec, v: Vec)
    requires |a| == |u| == |v|
    ensures Dot(a, Sub(u, v)) == Dot(a, u) - Dot(a, v)
  {
    if |a| > 0 {
      assert Sub(u, v)[1..] == Sub(u[1..], v[1..]);
      DotSub(a[1..], u[1..], v[1..]);
    }
  }

  lemma {:induction false} DotScale(a: Vec, k: real, u: Vec)
    requires |a| == |u|
    ensures Dot(a, Scale(k, u)) == k * Dot(a, u)
  {
    if |a| > 0 {
      forall j | 0 <= j < |u| - 1 ensures Scale(k, u)[1..][j] == Scale(k, u[1..])[j] {
        assert u[1..][j] == u[j + 1];
      }
      assert Scale(k, u)[1..] == Scale(k, u[1..]);
      DotScale(a[1..], k, u[1..]);
    }
  }

  lemma {:induction false} DotNeg(a: Vec, u: Vec)
    requires |a| == |u|
    ensures Dot(Neg(a), u) == -Dot(a, u)
  {
    if |a| > 0 {
      assert Neg(a)[1..] == Neg(a[1..]);
      DotNeg(a[1..], u[1..]);
    }
  }

  lemma DotZero(a: Vec)
    ensures Dot(a, Const(|a|, 0.0)) == 0.0
  {
    DotComm(a, Const(|a|, 0.0));
    DotOfZero(Const(|a|, 0.0), a);
  }

  /** A unit vector picks out one coordinate. */
  lemma DotUnit(i: nat, u: Vec)
    requires i < |u|
    ensures Dot(Unit(|u|, i), u) == u[i]
  {
    DotIndicator(Unit(|u|, i), u, i);
  }

  // Any vector that is one at i and zero elsewhere picks out u[i].
  lemma {:induction false} DotIndicator(e: Vec, u: Vec, i: nat)
    requires |e| == |u| && i < |u|
    requires forall j :: 0 <= j < |e| ==> e[j] == if j == i then 1.0 else 0.0
    ensures Dot(e, u) == u[i]
  {
    if i == 0 {
      DotOfZero(e[1..], u[1..]);
    } else {
      DotIndicator(e[1..], u[1..], i - 1);
    }
  }

  lemma {:induction false} DotOfZero(e: Vec, u: Vec)
    requires |e| == |u|
    requires forall j :: 0 <= j < |e| ==> e[j] == 0.0
    ensures Dot(e, u) == 0.0
  {
    if |e| > 0 {
      DotOfZero(e[1..], u[1..]);
    }
  }

  /** Peeling the first generator off a linear combination. */
  lemma CombinationCons(B: seq<Vec>, alpha: Vec, n: nat)
    requires |alpha| == |B| > 0 && HasWidth(B, n)
    ensures Combination(B, alpha, n) == Add(Scale(alpha[0], B[0]), Combination(B[1..], alpha[1..], n))
  {
    forall j | 0 <= j < n
      ensures Combination(B, alpha, n)[j] == Add(Scale(alpha[0], B[0]), Combination(B[1..], alpha[1..], n))[j]
    {
      assert Col(B, j)[1..] == Col(B[1..], j);
    }
  }

  /** Exchanging the order of a double sum:
      a . (sum_i alpha[i] B[i]) == sum_i alpha[i] (B[i] . a). */
  lemma {:induction false} DotExchange(a: Vec, B: seq<Vec>, alpha: Vec)
    requires |alpha| == |B| && HasWidth(B, |a|)
    ensures Dot(a, Combination(B, alpha, |a|)) == Dot(alpha, MatVec(B, a))
  {
    var n := |a|;
    if |B| == 0 {
      assert Combination(B, alpha, n) == Const(n, 0.0);
      DotZero(a);
    } else {
      CombinationCons(B, alpha, n);
      var rest := Combination(B[1..], alpha[1..], n);
      DotAdd(a, Scale(alpha[0], B[0]), rest);
      DotScale(a, alpha[0], B[0]);
      DotComm(a, B[0]);
      DotExchange(a, B[1..], alpha[1..]);
      assert MatVec(B, a)[1..] == MatVec(B[1..], a);
    }
  }

  /** Linear combination of the identity's rows is the coefficient vector itself. */
  lemma CombinationIdentity(alpha: Vec)
    ensures Combination(Identity(|alpha|), alpha, |alpha|) == alpha
  {
    var n := |alpha|;
    forall j | 0 <= j < n ensures Combination(Identity(n), alpha, n)[j] == alpha[j] {
      assert Col(Identity(n), j) == Unit(n, j);
      DotComm(alpha, Unit(n, j));
      DotUnit(j, alpha);
    }
  }

  /** Matrix-vector products distribute over vector addition. */
  lemma MatVecAdd(M: seq<Vec>, u: Vec, v: Vec)
    requires |u| == |v| && HasWidth(M, |u|)
    ensures MatVec(M, Add(u, v)) == Add(MatVec(M, u), MatVec(M, v))
  {
    forall i | 0 <= i < |M| ensures MatVec(M, Add(u, v))[i] == Add(MatVec(M, u), MatVec(M, v))[i] {
      DotAdd(M[i], u, v);
    }
  }
}
