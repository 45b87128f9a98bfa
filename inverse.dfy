/**
 * Matrix inversion, the model of nalgebra's `try_inverse`: `Some` of a matrix `m` with
 * `s * m = I` when `s` is invertible, `None` otherwise. Over exact reals the result is computed
 * by Gauss-Jordan elimination. It works on `s` transposed (`a`) together with a companion
 * matrix `b`, starting from the identity, and keeps `a[i] == s * b[i]` for every row. Once `a`
 * has become the identity, the rows of `b` are the columns of the inverse.
 */
module MatrixInverse {
  import opened Wrappers
  import opened LinAlg

  function SwapRows(x: Matrix, i: nat, k: nat): (r: Matrix)
    requires i < |x| && k < |x|
    ensures |r| == |x|
    ensures forall t :: 0 <= t < |x| ==> r[t] == (if t == i then x[k] else if t == k then x[i] else x[t])
  {
    x[i := x[k]][k := x[i]]
  }

  function ScaleRow(x: Matrix, j: nat, c: real): (r: Matrix)
    requires j < |x|
    ensures |r| == |x| && r[j] == ScaleV(c, x[j])
    ensures forall t :: 0 <= t < |x| && t != j ==> r[t] == x[t]
  {
    x[j := ScaleV(c, x[j])]
  }

  /** Subtracts `coef[t]` times row `j` from every other row `t`. */
  function Eliminate(x: Matrix, coef: Vector, j: nat): (r: Matrix)
    requires j < |x| && |coef| == |x| && HasCols(x, |x[j]|)
    ensures |r| == |x| && r[j] == x[j]
    ensures forall t :: 0 <= t < |x| && t != j ==> r[t] == AddV(x[t], ScaleV(-coef[t], x[j]))
  {
    seq(|x|, t requires 0 <= t < |x| => if t == j then x[j] else AddV(x[t], ScaleV(-coef[t], x[j])))
  }

  /** The first row at or below `p` whose entry in column `j` is non-zero. */
  function FindPivot(a: Matrix, n: nat, j: nat, p: nat): (r: Option<nat>)
    requires IsMatrix(a, n, n) && j < n && p <= n
    decreases n - p
    ensures r.Some? ==> p <= r.value < n && a[r.value][j] != 0.0
    ensures r.None? ==> forall t :: p <= t < n ==> a[t][j] == 0.0
  {
    if p == n then None
    else if a[p][j] != 0.0 then Some(p)
    else FindPivot(a, n, j, p + 1)
  }

  /** Brings column `j` to the unit vector `e_j`, using row `p` as the pivot. */
  function Step(a: Matrix, b: Matrix, n: nat, j: nat, p: nat): (r: (Matrix, Matrix))
    requires IsMatrix(a, n, n) && IsMatrix(b, n, n) && j < n && p < n && a[p][j] != 0.0
    ensures IsMatrix(r.0, n, n) && IsMatrix(r.1, n, n)
  {
    var a1 := SwapRows(a, j, p);
    var b1 := SwapRows(b, j, p);
    var c := 1.0 / a1[j][j];
    var a2 := ScaleRow(a1, j, c);
    var b2 := ScaleRow(b1, j, c);
    ClearColumn(a2, b2, n, j)
  }

  /** Subtracts multiples of row `j` from the other rows of both matrices, clearing column `j` of `a`. */
  function ClearColumn(a: Matrix, b: Matrix, n: nat, j: nat): (r: (Matrix, Matrix))
    requires IsMatrix(a, n, n) && IsMatrix(b, n, n) && j < n
    ensures IsMatrix(r.0, n, n) && IsMatrix(r.1, n, n)
  {
    var coef := Col(a, j);
    (Eliminate(a, coef, j), Eliminate(b, coef, j))
  }

  function GaussJordan(a: Matrix, b: Matrix, n: nat, j: nat): Option<Matrix>
    requires IsMatrix(a, n, n) && IsMatrix(b, n, n) && j <= n
    decreases n - j
  {
    if j == n then Some(Transpose(b, n))
    else
      match FindPivot(a, n, j, j)
      case None => None
      case Some(p) =>
        var (a', b') := Step(a, b, n, j, p);
        GaussJordan(a', b', n, j + 1)
  }

  lemma {:induction false} GaussJordanShape(a: Matrix, b: Matrix, n: nat, j: nat)
    requires IsMatrix(a, n, n) && IsMatrix(b, n, n) && j <= n
    decreases n - j
    ensures GaussJordan(a, b, n, j).Some? ==> IsMatrix(GaussJordan(a, b, n, j).value, n, n)
  {
    if j < n {
      match FindPivot(a, n, j, j)
      case None =>
      case Some(p) =>
        var (a', b') := Step(a, b, n, j, p);
        GaussJordanShape(a', b', n, j + 1);
    }
  }

  /** nalgebra's `try_inverse` on an `n`-by-`n` matrix. */
  function TryInverse(s: Matrix, n: nat): (r: Option<Matrix>)
    requires IsMatrix(s, n, n)
    ensures r.Some? ==> IsMatrix(r.value, n, n)
  {
    GaussJordanShape(Transpose(s, n), Identity(n), n, 0);
    GaussJordan(Transpose(s, n), Identity(n), n, 0)
  }

  /** A `Some` from `TryInverse` is a two-sided inverse. */
  lemma TryInverseSome(s: Matrix, n: nat)
    requires IsMatrix(s, n, n) && TryInverse(s, n).Some?
    ensures MatMul(s, TryInverse(s, n).value, n) == Identity(n)
    ensures MatMul(TryInverse(s, n).value, s, n) == Identity(n)
  {
    InitialInvariant(s, n);
    GaussJordanSound(s, Transpose(s, n), Identity(n), n, 0);
  }

  /** A `None` from `TryInverse` is only returned for a matrix that has no right inverse. */
  lemma TryInverseNone(s: Matrix, n: nat, m: Matrix)
    requires IsMatrix(s, n, n) && IsMatrix(m, n, n)
    requires TryInverse(s, n).None?
    ensures MatMul(s, m, n) != Identity(n)
  {
    InitialInvariant(s, n);
    var v := GaussJordanSingular(s, Transpose(s, n), Identity(n), n, 0);
    if MatMul(s, m, n) == Identity(n) {
      NoRightInverse(s, n, v, m);
    }
  }

  // ---------------------------------------------------------------------------------------
  // The elimination invariant.

  /** Every row of `a` is `s` applied to the matching row of `b`. */
  predicate Tracks(s: Matrix, a: Matrix, b: Matrix, n: nat) {
    IsMatrix(s, n, n) && IsMatrix(a, n, n) && IsMatrix(b, n, n) &&
    forall i :: 0 <= i < n ==> a[i] == MatVec(s, b[i])
  }

  /** The first `j` columns of `a` are those of the identity. */
  predicate IdCols(a: Matrix, n: nat, j: nat)
    requires IsMatrix(a, n, n) && j <= n
  {
    forall r, c :: 0 <= r < n && 0 <= c < j ==> a[r][c] == if r == c then 1.0 else 0.0
  }

  /** `b` sends `w` to the zero vector. */
  predicate SendsToZero(b: Matrix, w: Vector) {
    HasCols(b, |w|) && MatVec(b, w) == Zeros(|b|)
  }

  /** Only the zero vector is sent to zero by `b`. */
  ghost predicate Injective(b: Matrix, n: nat) {
    forall w: Vector :: |w| == n && SendsToZero(b, w) ==> w == Zeros(n)
  }

  ghost predicate Invariant(s: Matrix, a: Matrix, b: Matrix, n: nat, j: nat) {
    Tracks(s, a, b, n) && j <= n && IdCols(a, n, j) && Injective(b, n)
  }

  lemma InitialInvariant(s: Matrix, n: nat)
    requires IsMatrix(s, n, n)
    ensures Invariant(s, Transpose(s, n), Identity(n), n, 0)
  {
    var a := Transpose(s, n);
    forall i | 0 <= i < n
      ensures a[i] == MatVec(s, Identity(n)[i])
    {
      assert Identity(n)[i] == UnitVec(n, i);
      MatVecUnit(s, n, i);
    }
    forall w: Vector | |w| == n && SendsToZero(Identity(n), w)
      ensures w == Zeros(n)
    {
      MatVecIdentity(n, w);
    }
  }

  lemma SwapTracks(s: Matrix, a: Matrix, b: Matrix, n: nat, j: nat, p: nat)
    requires Tracks(s, a, b, n) && j < n && p < n
    ensures Tracks(s, SwapRows(a, j, p), SwapRows(b, j, p), n)
  {
  }

  lemma SwapIdCols(a: Matrix, n: nat, j: nat, p: nat)
    requires IsMatrix(a, n, n) && j < n && j <= p < n && IdCols(a, n, j)
    ensures IsMatrix(SwapRows(a, j, p), n, n) && IdCols(SwapRows(a, j, p), n, j)
  {
  }

  lemma SwapInjective(b: Matrix, n: nat, j: nat, p: nat)
    requires IsMatrix(b, n, n) && j < n && p < n && Injective(b, n)
    ensures IsMatrix(SwapRows(b, j, p), n, n) && Injective(SwapRows(b, j, p), n)
  {
    forall w: Vector | |w| == n && SendsToZero(SwapRows(b, j, p), w)
      ensures w == Zeros(n)
    {
      SwapZeroImage(b, n, j, p, w);
    }
  }

  lemma SwapZeroImage(b: Matrix, n: nat, j: nat, p: nat, w: Vector)
    requires IsMatrix(b, n, n) && j < n && p < n && |w| == n
    requires SendsToZero(SwapRows(b, j, p), w)
    ensures SendsToZero(b, w)
  {
    var b1 := SwapRows(b, j, p);
    var z := MatVec(b, w);
    forall t | 0 <= t < n ensures z[t] == 0.0 {
      var t' := if t == j then p else if t == p then j else t;
      assert b1[t'] == b[t];
      assert MatVec(b1, w)[t'] == 0.0;
    }
    assert z == Zeros(n);
  }

  lemma ScaleTracks(s: Matrix, a: Matrix, b: Matrix, n: nat, j: nat, c: real)
    requires Tracks(s, a, b, n) && j < n
    ensures Tracks(s, ScaleRow(a, j, c), ScaleRow(b, j, c), n)
  {
    MatVecScale(s, b[j], c);
  }

  lemma ScaleIdCols(a: Matrix, n: nat, j: nat, c: real)
    requires IsMatrix(a, n, n) && j < n && IdCols(a, n, j)
    ensures IsMatrix(ScaleRow(a, j, c), n, n) && IdCols(ScaleRow(a, j, c), n, j)
  {
  }

  lemma ScaleInjective(b: Matrix, n: nat, j: nat, c: real)
    requires IsMatrix(b, n, n) && j < n && c != 0.0 && Injective(b, n)
    ensures IsMatrix(ScaleRow(b, j, c), n, n) && Injective(ScaleRow(b, j, c), n)
  {
    forall w: Vector | |w| == n && SendsToZero(ScaleRow(b, j, c), w)
      ensures w == Zeros(n)
    {
      ScaleZeroImage(b, n, j, c, w);
    }
  }

  lemma ScaleZeroImage(b: Matrix, n: nat, j: nat, c: real, w: Vector)
    requires IsMatrix(b, n, n) && j < n && c != 0.0 && |w| == n
    requires SendsToZero(ScaleRow(b, j, c), w)
    ensures SendsToZero(b, w)
  {
    var b2 := ScaleRow(b, j, c);
    var z := MatVec(b, w);
    forall t | 0 <= t < n ensures z[t] == 0.0 {
      assert MatVec(b2, w)[t] == 0.0;
      if t == j {
        DotNScaleLeft(b[j], c, b2[j], w, n);
        NonZeroFactor(c, Dot(b[j], w));
      }
    }
    assert z == Zeros(n);
  }

  lemma Reciprocal(x: real)
    requires x != 0.0
    ensures 1.0 / x != 0.0 && (1.0 / x) * x == 1.0
  {
  }

  lemma NonZeroFactor(c: real, x: real)
    requires c != 0.0 && c * x == 0.0
    ensures x == 0.0
  {
    assert x == (c * x) / c;
  }

  lemma EliminateTracks(s: Matrix, a: Matrix, b: Matrix, n: nat, j: nat)
    requires Tracks(s, a, b, n) && j < n
    ensures Tracks(s, Eliminate(a, Col(a, j), j), Eliminate(b, Col(a, j), j), n)
  {
    var coef := Col(a, j);
    var a3 := Eliminate(a, coef, j);
    var b3 := Eliminate(b, coef, j);
    forall t | 0 <= t < n
      ensures a3[t] == MatVec(s, b3[t])
    {
      if t != j {
        MatVecLinear(s, b[t], b[j], -coef[t]);
      }
    }
  }

  lemma EliminateIdCols(a: Matrix, n: nat, j: nat)
    requires IsMatrix(a, n, n) && j < n && IdCols(a, n, j) && a[j][j] == 1.0
    ensures IsMatrix(Eliminate(a, Col(a, j), j), n, n) && IdCols(Eliminate(a, Col(a, j), j), n, j + 1)
  {
    var a3 := Eliminate(a, Col(a, j), j);
    forall r, c | 0 <= r < n && 0 <= c < j + 1
      ensures a3[r][c] == if r == c then 1.0 else 0.0
    {
      if r != j {
        assert a3[r][c] == a[r][c] + (-a[r][j]) * a[j][c];
      }
    }
  }

  lemma EliminateInjective(b: Matrix, coef: Vector, n: nat, j: nat)
    requires IsMatrix(b, n, n) && j < n && |coef| == n && Injective(b, n)
    ensures IsMatrix(Eliminate(b, coef, j), n, n) && Injective(Eliminate(b, coef, j), n)
  {
    forall w: Vector | |w| == n && SendsToZero(Eliminate(b, coef, j), w)
      ensures w == Zeros(n)
    {
      EliminateZeroImage(b, coef, n, j, w);
    }
  }

  lemma EliminateZeroImage(b: Matrix, coef: Vector, n: nat, j: nat, w: Vector)
    requires IsMatrix(b, n, n) && j < n && |coef| == n && |w| == n
    requires SendsToZero(Eliminate(b, coef, j), w)
    ensures SendsToZero(b, w)
  {
    var b3 := Eliminate(b, coef, j);
    var z := MatVec(b, w);
    assert MatVec(b3, w)[j] == 0.0;
    forall t | 0 <= t < n ensures z[t] == 0.0 {
      assert MatVec(b3, w)[t] == 0.0;
      if t != j {
        DotNLinearLeft(b[t], b[j], -coef[t], b3[t], w, n);
      }
    }
    assert z == Zeros(n);
  }

  lemma SwapPreserves(s: Matrix, a: Matrix, b: Matrix, n: nat, j: nat, p: nat)
    requires Invariant(s, a, b, n, j) && j < n && j <= p < n
    ensures Invariant(s, SwapRows(a, j, p), SwapRows(b, j, p), n, j)
  {
    SwapTracks(s, a, b, n, j, p);
    SwapIdCols(a, n, j, p);
    SwapInjective(b, n, j, p);
  }

  lemma ScalePreserves(s: Matrix, a: Matrix, b: Matrix, n: nat, j: nat, c: real)
    requires Invariant(s, a, b, n, j) && j < n && c != 0.0
    ensures Invariant(s, ScaleRow(a, j, c), ScaleRow(b, j, c), n, j)
  {
    ScaleTracks(s, a, b, n, j, c);
    ScaleIdCols(a, n, j, c);
    ScaleInjective(b, n, j, c);
  }

  lemma EliminatePreserves(s: Matrix, a: Matrix, b: Matrix, n: nat, j: nat)
    requires Invariant(s, a, b, n, j) && j < n && a[j][j] == 1.0
    ensures Invariant(s, ClearColumn(a, b, n, j).0, ClearColumn(a, b, n, j).1, n, j + 1)
  {
    EliminateTracks(s, a, b, n, j);
    EliminateIdCols(a, n, j);
    EliminateInjective(b, Col(a, j), n, j);
  }

  /** Scaling the pivot row by the reciprocal of the pivot puts a one on the diagonal. */
  lemma ScaledPivot(a: Matrix, n: nat, j: nat)
    requires IsMatrix(a, n, n) && j < n && a[j][j] != 0.0
    ensures 1.0 / a[j][j] != 0.0 && ScaleRow(a, j, 1.0 / a[j][j])[j][j] == 1.0
  {
    Reciprocal(a[j][j]);
  }

  lemma StepPreserves(s: Matrix, a: Matrix, b: Matrix, n: nat, j: nat, p: nat)
    requires Invariant(s, a, b, n, j) && j < n && j <= p < n && a[p][j] != 0.0
    ensures Invariant(s, Step(a, b, n, j, p).0, Step(a, b, n, j, p).1, n, j + 1)
  {
    var a1 := SwapRows(a, j, p);
    var b1 := SwapRows(b, j, p);
    SwapPreserves(s, a, b, n, j, p);
    ScaledPivot(a1, n, j);
    var c := 1.0 / a1[j][j];
    ScalePreserves(s, a1, b1, n, j, c);
    EliminatePreserves(s, ScaleRow(a1, j, c), ScaleRow(b1, j, c), n, j);
  }

  lemma ColOfTranspose(b: Matrix, n: nat, c: nat)
    requires IsMatrix(b, n, n) && c < n
    ensures Col(Transpose(b, n), c) == b[c]
  {
  }

  lemma FinishedInverse(s: Matrix, a: Matrix, b: Matrix, n: nat)
    requires Tracks(s, a, b, n) && IdCols(a, n, n)
    ensures MatMul(s, Transpose(b, n), n) == Identity(n)
  {
    var m := Transpose(b, n);
    var r := MatMul(s, m, n);
    forall i | 0 <= i < n
      ensures r[i] == Identity(n)[i]
    {
      forall c | 0 <= c < n
        ensures r[i][c] == Identity(n)[i][c]
      {
        ColOfTranspose(b, n, c);
        assert r[i][c] == Dot(s[i], b[c]) == MatVec(s, b[c])[i];
      }
    }
  }

  /** When the elimination finishes, `b` transposed is also a left inverse of `s`. */
  lemma FinishedLeftInverse(s: Matrix, a: Matrix, b: Matrix, n: nat)
    requires Invariant(s, a, b, n, n)
    ensures MatMul(Transpose(b, n), s, n) == Identity(n)
  {
    var r := MatMul(Transpose(b, n), s, n);
    forall i | 0 <= i < n
      ensures r[i] == Identity(n)[i]
    {
      LeftInverseRow(s, a, b, n, i);
    }
  }

  /** Row `i` of `b^T s` is `e_i`. */
  lemma LeftInverseRow(s: Matrix, a: Matrix, b: Matrix, n: nat, i: nat)
    requires Invariant(s, a, b, n, n) && i < n
    ensures MatMul(Transpose(b, n), s, n)[i] == Identity(n)[i]
  {
    var m := Transpose(b, n);
    var r := MatMul(m, s, n);
    var x := ColumnImage(s, a, b, n, i);
    assert m[i] == Col(b, i);
    forall c | 0 <= c < n
      ensures r[i][c] == Identity(n)[i][c]
    {
      assert x[c] == Dot(Col(s, c), Col(b, i));
      DotNComm(Col(s, c), Col(b, i), n);
    }
  }

  /** `s^T` sends column `i` of `b` to `e_i`. */
  lemma ColumnImage(s: Matrix, a: Matrix, b: Matrix, n: nat, i: nat) returns (x: Vector)
    requires Invariant(s, a, b, n, n) && i < n
    ensures x == MatVec(Transpose(s, n), Col(b, i)) && x == UnitVec(n, i)
  {
    x := MatVec(Transpose(s, n), Col(b, i));
    ImageOfColumn(s, a, b, n, i);
    InjectiveUnit(b, n, x, i);
  }

  /** An injective `b` sends only `e_i` to its column `i`. */
  lemma InjectiveUnit(b: Matrix, n: nat, x: Vector, i: nat)
    requires IsMatrix(b, n, n) && Injective(b, n) && |x| == n && i < n
    requires MatVec(b, x) == Col(b, i)
    ensures x == UnitVec(n, i)
  {
    var e := UnitVec(n, i);
    var d := AddV(x, ScaleV(-1.0, e));
    MatVecLinear(b, x, e, -1.0);
    MatVecUnit(b, n, i);
    CancelSelf(Col(b, i));
    assert SendsToZero(b, d);
    forall c | 0 <= c < n
      ensures x[c] == e[c]
    {
      assert d[c] == 0.0;
    }
  }

  lemma CancelSelf(u: Vector)
    ensures AddV(u, ScaleV(-1.0, u)) == Zeros(|u|)
  {
  }

  /** `b s^T` maps column `i` of `b` to itself. */
  lemma ImageOfColumn(s: Matrix, a: Matrix, b: Matrix, n: nat, i: nat)
    requires Tracks(s, a, b, n) && IdCols(a, n, n) && i < n
    ensures MatVec(b, MatVec(Transpose(s, n), Col(b, i))) == Col(b, i)
  {
    var x := MatVec(Transpose(s, n), Col(b, i));
    var bx := MatVec(b, x);
    forall k | 0 <= k < n
      ensures bx[k] == b[k][i]
    {
      Adjoint(s, n, b[k], Col(b, i));
      assert a[k] == UnitVec(n, k);
      DotNComm(a[k], Col(b, i), n);
      DotNUnitRight(Col(b, i), a[k], k, n);
    }
  }

  lemma {:induction false} GaussJordanSound(s: Matrix, a: Matrix, b: Matrix, n: nat, j: nat)
    requires Invariant(s, a, b, n, j)
    decreases n - j
    ensures var r := GaussJordan(a, b, n, j);
      r.Some? ==> IsMatrix(r.value, n, n) && MatMul(s, r.value, n) == Identity(n)
                  && MatMul(r.value, s, n) == Identity(n)
  {
    if j == n {
      FinishedInverse(s, a, b, n);
      FinishedLeftInverse(s, a, b, n);
    } else {
      match FindPivot(a, n, j, j)
      case None =>
      case Some(p) =>
        StepPreserves(s, a, b, n, j, p);
        var (a', b') := Step(a, b, n, j, p);
        GaussJordanSound(s, a', b', n, j + 1);
    }
  }

  /** A sum of products with at most two non-zero terms, at the distinct positions `i1` and `i2`. */
  lemma {:induction false} DotNTwoTerms(u: Vector, v: Vector, n: nat, i1: nat, i2: nat)
    requires n <= |u| && n <= |v| && i1 != i2
    requires forall k :: 0 <= k < n && k != i1 && k != i2 ==> u[k] * v[k] == 0.0
    ensures DotN(u, v, n) == (if i1 < n then u[i1] * v[i1] else 0.0) + (if i2 < n then u[i2] * v[i2] else 0.0)
  {
    if n > 0 { DotNTwoTerms(u, v, n - 1, i1, i2); }
  }

  /**
   * A column `j` with no pivot gives a non-zero `v` that `a` sends to zero:
   * `v = e_j - sum over c < j of a[c][j] e_c`.
   */
  lemma NullVector(a: Matrix, n: nat, j: nat) returns (v: Vector)
    requires IsMatrix(a, n, n) && j < n && IdCols(a, n, j)
    requires forall t :: j <= t < n ==> a[t][j] == 0.0
    ensures |v| == n && v[j] == 1.0 && MatVec(a, v) == Zeros(n)
  {
    v := seq(n, k requires 0 <= k < n => if k == j then 1.0 else if k < j then -a[k][j] else 0.0);
    forall r | 0 <= r < n
      ensures Dot(a[r], v) == 0.0
    {
      if r < j {
        DotNTwoTerms(a[r], v, n, r, j);
      } else {
        DotNTwoTerms(a[r], v, n, j, n);
      }
    }
  }

  lemma {:induction false} GaussJordanSingular(s: Matrix, a: Matrix, b: Matrix, n: nat, j: nat)
    returns (v: Vector)
    requires Invariant(s, a, b, n, j) && GaussJordan(a, b, n, j).None?
    decreases n - j
    ensures |v| == n && v != Zeros(n) && MatVec(Transpose(s, n), v) == Zeros(n)
  {
    assert j < n;
    match FindPivot(a, n, j, j)
    case None =>
      v := StuckColumn(s, a, b, n, j);
    case Some(p) =>
      StepPreserves(s, a, b, n, j, p);
      var (a', b') := Step(a, b, n, j, p);
      v := GaussJordanSingular(s, a', b', n, j + 1);
  }

  /** A column without a pivot yields a non-zero vector `v` with `s^T v = 0`. */
  lemma StuckColumn(s: Matrix, a: Matrix, b: Matrix, n: nat, j: nat) returns (v: Vector)
    requires Tracks(s, a, b, n) && j < n && IdCols(a, n, j) && Injective(b, n)
    requires forall t :: j <= t < n ==> a[t][j] == 0.0
    ensures |v| == n && v != Zeros(n) && MatVec(Transpose(s, n), v) == Zeros(n)
  {
    v := NullVector(a, n, j);
    assert v != Zeros(n) by { assert v[j] != Zeros(n)[j]; }
    ImageInKernel(s, a, b, n, v);
  }

  /** If `a v = 0` then `b` sends `s^T v` to zero. */
  lemma ImageInKernel(s: Matrix, a: Matrix, b: Matrix, n: nat, v: Vector)
    requires Tracks(s, a, b, n) && |v| == n && MatVec(a, v) == Zeros(n)
    ensures SendsToZero(b, MatVec(Transpose(s, n), v))
  {
    var w := MatVec(Transpose(s, n), v);
    var z := MatVec(b, w);
    forall r | 0 <= r < n
      ensures z[r] == 0.0
    {
      Adjoint(s, n, b[r], v);
      assert Dot(a[r], v) == MatVec(a, v)[r];
    }
    assert z == Zeros(n);
  }

  /** If `s^T v = 0` and `s m = I` then `v = 0`. */
  lemma NoRightInverse(s: Matrix, n: nat, v: Vector, m: Matrix)
    requires IsMatrix(s, n, n) && IsMatrix(m, n, n) && |v| == n
    requires MatVec(Transpose(s, n), v) == Zeros(n)
    requires MatMul(s, m, n) == Identity(n)
    ensures v == Zeros(n)
  {
    forall c | 0 <= c < n
      ensures v[c] == 0.0
    {
      var col := Col(m, c);
      Adjoint(s, n, col, v);
      DotNZerosRight(col, Zeros(n), n);
      var e := MatVec(s, col);
      forall r | 0 <= r < n ensures e[r] == UnitVec(n, c)[r] {
        assert e[r] == MatMul(s, m, n)[r][c];
      }
      assert e == UnitVec(n, c);
      DotNComm(e, v, n);
      DotNUnitRight(v, e, c, n);
    }
  }
}
