/**
 * Fixed-dimension real vectors and matrices, the stand-in for nalgebra's `SVector` and
 * `SMatrix`. A matrix is a sequence of rows; functions whose result shape cannot be read off
 * their arguments (an empty matrix still has a column count) take the dimension explicitly.
 */
module LinAlg {

  type Vector = seq<real>
  type Matrix = seq<seq<real>>

  /** `m` has `rows` rows of `cols` entries each. */
  predicate IsMatrix(m: Matrix, rows: nat, cols: nat) {
    |m| == rows && forall i :: 0 <= i < rows ==> |m[i]| == cols
  }

  /** Every row of `m` has `cols` entries. */
  predicate HasCols(m: Matrix, cols: nat) {
    forall i :: 0 <= i < |m| ==> |m[i]| == cols
  }

  function Zeros(n: nat): (r: Vector)
    ensures |r| == n && forall i :: 0 <= i < n ==> r[i] == 0.0
  {
    seq(n, _ => 0.0)
  }

  /** The `i`-th standard basis vector of length `n`. */
  function UnitVec(n: nat, i: nat): (r: Vector)
    ensures |r| == n && forall k :: 0 <= k < n ==> r[k] == if k == i then 1.0 else 0.0
  {
    seq(n, k => if k == i then 1.0 else 0.0)
  }

  function AddV(u: Vector, v: Vector): (r: Vector)
    requires |u| == |v|
    ensures |r| == |u| && forall k :: 0 <= k < |u| ==> r[k] == u[k] + v[k]
  {
    seq(|u|, k requires 0 <= k < |u| => u[k] + v[k])
  }

  function SubV(u: Vector, v: Vector): (r: Vector)
    requires |u| == |v|
    ensures |r| == |u| && forall k :: 0 <= k < |u| ==> r[k] == u[k] - v[k]
  {
    seq(|u|, k requires 0 <= k < |u| => u[k] - v[k])
  }

  function ScaleV(c: real, v: Vector): (r: Vector)
    ensures |r| == |v| && forall k :: 0 <= k < |v| ==> r[k] == c * v[k]
  {
    seq(|v|, k requires 0 <= k < |v| => c * v[k])
  }

  /** The sum of `u[k] * v[k]` over the first `n` indices. */
  function DotN(u: Vector, v: Vector, n: nat): real
    requires n <= |u| && n <= |v|
  {
    if n == 0 then 0.0 else DotN(u, v, n - 1) + u[n - 1] * v[n - 1]
  }

  function Dot(u: Vector, v: Vector): real
    requires |u| == |v|
  {
    DotN(u, v, |u|)
  }

  /** Matrix times column vector. */
  function MatVec(m: Matrix, v: Vector): (r: Vector)
    requires HasCols(m, |v|)
    ensures |r| == |m| && forall i :: 0 <= i < |m| ==> r[i] == Dot(m[i], v)
  {
    seq(|m|, i requires 0 <= i < |m| => Dot(m[i], v))
  }

  /** Column `j` of `m`. */
  function Col(m: Matrix, j: nat): (r: Vector)
    requires forall i :: 0 <= i < |m| ==> j < |m[i]|
    ensures |r| == |m| && forall i :: 0 <= i < |m| ==> r[i] == m[i][j]
  {
    seq(|m|, i requires 0 <= i < |m| => m[i][j])
  }

  /** The transpose of a `|m|`-by-`cols` matrix. */
  function Transpose(m: Matrix, cols: nat): (r: Matrix)
    requires HasCols(m, cols)
    ensures IsMatrix(r, cols, |m|)
    ensures forall j, i :: 0 <= j < cols && 0 <= i < |m| ==> r[j][i] == m[i][j]
  {
    seq(cols, j requires 0 <= j < cols => Col(m, j))
  }

  /** The product of a `|a|`-by-`|b|` matrix and a `|b|`-by-`cols` matrix. */
  function MatMul(a: Matrix, b: Matrix, cols: nat): (r: Matrix)
    requires HasCols(a, |b|) && HasCols(b, cols)
    ensures IsMatrix(r, |a|, cols)
    ensures forall i, j :: 0 <= i < |a| && 0 <= j < cols ==> r[i][j] == Dot(a[i], Col(b, j))
  {
    seq(|a|, i requires 0 <= i < |a| => seq(cols, j requires 0 <= j < cols => Dot(a[i], Col(b, j))))
  }

  /** Matrices of equal shape. */
  predicate SameShape(a: Matrix, b: Matrix) {
    |a| == |b| && forall i :: 0 <= i < |a| ==> |a[i]| == |b[i]|
  }

  function MatAdd(a: Matrix, b: Matrix): (r: Matrix)
    requires SameShape(a, b)
    ensures SameShape(r, a)
    ensures forall i, j :: 0 <= i < |a| && 0 <= j < |a[i]| ==> r[i][j] == a[i][j] + b[i][j]
  {
    seq(|a|, i requires 0 <= i < |a| => AddV(a[i], b[i]))
  }

  function MatSub(a: Matrix, b: Matrix): (r: Matrix)
    requires SameShape(a, b)
    ensures SameShape(r, a)
    ensures forall i, j :: 0 <= i < |a| && 0 <= j < |a[i]| ==> r[i][j] == a[i][j] - b[i][j]
  {
    seq(|a|, i requires 0 <= i < |a| => SubV(a[i], b[i]))
  }

  function MatScale(c: real, m: Matrix): (r: Matrix)
    ensures SameShape(r, m)
    ensures forall i, j :: 0 <= i < |m| && 0 <= j < |m[i]| ==> r[i][j] == c * m[i][j]
  {
    seq(|m|, i requires 0 <= i < |m| => ScaleV(c, m[i]))
  }

  /** nalgebra's `identity()` for a `rows`-by-`cols` matrix: ones on the main diagonal. */
  function IdentityRect(rows: nat, cols: nat): (r: Matrix)
    ensures IsMatrix(r, rows, cols)
    ensures forall i, j :: 0 <= i < rows && 0 <= j < cols ==> r[i][j] == if i == j then 1.0 else 0.0
  {
    seq(rows, i requires 0 <= i < rows => UnitVec(cols, i))
  }

  function Identity(n: nat): (r: Matrix)
    ensures IsMatrix(r, n, n)
    ensures forall i, j :: 0 <= i < n && 0 <= j < n ==> r[i][j] == if i == j then 1.0 else 0.0
  {
    IdentityRect(n, n)
  }

  function ZeroMatrix(rows: nat, cols: nat): (r: Matrix)
    ensures IsMatrix(r, rows, cols)
    ensures forall i, j :: 0 <= i < rows && 0 <= j < cols ==> r[i][j] == 0.0
  {
    seq(rows, _ => Zeros(cols))
  }

  /** nalgebra's `from_diagonal`: the square matrix with `d` on its diagonal. */
  function Diag(d: Vector): (r: Matrix)
    ensures IsMatrix(r, |d|, |d|)
    ensures forall i, j :: 0 <= i < |d| && 0 <= j < |d| ==> r[i][j] == if i == j then d[i] else 0.0
  {
    seq(|d|, i requires 0 <= i < |d| => seq(|d|, j requires 0 <= j < |d| => if i == j then d[i] else 0.0))
  }

  predicate IsSymmetric(m: Matrix, n: nat) {
    IsMatrix(m, n, n) && forall i, j :: 0 <= i < n && 0 <= j < n ==> m[i][j] == m[j][i]
  }

  // ---------------------------------------------------------------------------------------
  // Facts about sums of products.

  lemma {:induction false} DotNComm(u: Vector, v: Vector, n: nat)
    requires n <= |u| && n <= |v|
    ensures DotN(u, v, n) == DotN(v, u, n)
  {
    if n > 0 { DotNComm(u, v, n - 1); }
  }

  lemma {:induction false} DotNZerosRight(u: Vector, v: Vector, n: nat)
    requires n <= |u| && n <= |v|
    requires forall k :: 0 <= k < n ==> v[k] == 0.0
    ensures DotN(u, v, n) == 0.0
  {
    if n > 0 { DotNZerosRight(u, v, n - 1); }
  }

  /** Dotting with a unit vector picks one entry. */
  lemma {:induction false} DotNUnitRight(u: Vector, v: Vector, i: nat, n: nat)
    requires n <= |u| && n <= |v|
    requires forall k :: 0 <= k < n ==> v[k] == if k == i then 1.0 else 0.0
    ensures DotN(u, v, n) == if i < n then u[i] else 0.0
  {
    if n > 0 { DotNUnitRight(u, v, i, n - 1); }
  }

  /** The sum of products is linear in its first argument: `(a + c b) . x = a . x + c (b . x)`. */
  lemma {:induction false} DotNLinearLeft(a: Vector, b: Vector, c: real, w: Vector, x: Vector, n: nat)
    requires n <= |a| && n <= |b| && n <= |w| && n <= |x|
    requires forall k :: 0 <= k < n ==> w[k] == a[k] + c * b[k]
    ensures DotN(w, x, n) == DotN(a, x, n) + c * DotN(b, x, n)
  {
    if n > 0 {
      DotNLinearLeft(a, b, c, w, x, n - 1);
      calc {
        DotN(w, x, n);
        DotN(a, x, n - 1) + c * DotN(b, x, n - 1) + (a[n - 1] + c * b[n - 1]) * x[n - 1];
        DotN(a, x, n - 1) + a[n - 1] * x[n - 1] + c * (DotN(b, x, n - 1) + b[n - 1] * x[n - 1]);
      }
    }
  }

  /** The sum of products is linear in its second argument. */
  lemma {:induction false} DotNLinearRight(x: Vector, a: Vector, b: Vector, c: real, w: Vector, n: nat)
    requires n <= |a| && n <= |b| && n <= |w| && n <= |x|
    requires forall k :: 0 <= k < n ==> w[k] == a[k] + c * b[k]
    ensures DotN(x, w, n) == DotN(x, a, n) + c * DotN(x, b, n)
  {
    DotNComm(x, w, n);
    DotNComm(x, a, n);
    DotNComm(x, b, n);
    DotNLinearLeft(a, b, c, w, x, n);
  }

  /** Scaling the first argument scales the sum. */
  lemma {:induction false} DotNScaleLeft(a: Vector, c: real, w: Vector, x: Vector, n: nat)
    requires n <= |a| && n <= |w| && n <= |x|
    requires forall k :: 0 <= k < n ==> w[k] == c * a[k]
    ensures DotN(w, x, n) == c * DotN(a, x, n)
  {
    if n > 0 {
      DotNScaleLeft(a, c, w, x, n - 1);
      calc {
        DotN(w, x, n);
        c * DotN(a, x, n - 1) + (c * a[n - 1]) * x[n - 1];
        c * (DotN(a, x, n - 1) + a[n - 1] * x[n - 1]);
      }
    }
  }

  /** Sums of products only look at the first `n` entries. */
  lemma {:induction false} DotNCongruent(u: Vector, v: Vector, u': Vector, v': Vector, n: nat)
    requires n <= |u| && n <= |v| && n <= |u'| && n <= |v'|
    requires forall k :: 0 <= k < n ==> u[k] == u'[k] && v[k] == v'[k]
    ensures DotN(u, v, n) == DotN(u', v', n)
  {
    if n > 0 { DotNCongruent(u, v, u', v', n - 1); }
  }

  // ---------------------------------------------------------------------------------------
  // Linearity of matrix-vector products.

  /** `m (u + c v) = m u + c (m v)`. */
  lemma {:induction false} MatVecLinear(m: Matrix, u: Vector, v: Vector, c: real)
    requires |u| == |v| && HasCols(m, |u|)
    ensures MatVec(m, AddV(u, ScaleV(c, v))) == AddV(MatVec(m, u), ScaleV(c, MatVec(m, v)))
  {
    var w := AddV(u, ScaleV(c, v));
    var lhs := MatVec(m, w);
    var rhs := AddV(MatVec(m, u), ScaleV(c, MatVec(m, v)));
    forall i | 0 <= i < |m|
      ensures lhs[i] == rhs[i]
    {
      DotNLinearRight(m[i], u, v, c, w, |u|);
    }
  }

  /** `m (c v) = c (m v)`. */
  lemma {:induction false} MatVecScale(m: Matrix, v: Vector, c: real)
    requires HasCols(m, |v|)
    ensures MatVec(m, ScaleV(c, v)) == ScaleV(c, MatVec(m, v))
  {
    var w := ScaleV(c, v);
    var lhs := MatVec(m, w);
    var rhs := ScaleV(c, MatVec(m, v));
    forall i | 0 <= i < |m|
      ensures lhs[i] == rhs[i]
    {
      DotNComm(m[i], w, |v|);
      DotNComm(m[i], v, |v|);
      DotNScaleLeft(v, c, w, m[i], |v|);
    }
  }

  /** `m e_j` is column `j` of `m`. */
  lemma {:induction false} MatVecUnit(m: Matrix, n: nat, j: nat)
    requires HasCols(m, n) && j < n
    ensures MatVec(m, UnitVec(n, j)) == Col(m, j)
  {
    forall i | 0 <= i < |m|
      ensures Dot(m[i], UnitVec(n, j)) == m[i][j]
    {
      DotNUnitRight(m[i], UnitVec(n, j), j, n);
    }
  }

  lemma {:induction false} MatVecZeros(m: Matrix, n: nat)
    requires HasCols(m, n)
    ensures MatVec(m, Zeros(n)) == Zeros(|m|)
  {
    forall i | 0 <= i < |m|
      ensures Dot(m[i], Zeros(n)) == 0.0
    {
      DotNZerosRight(m[i], Zeros(n), n);
    }
  }

  lemma {:induction false} MatVecIdentity(n: nat, v: Vector)
    requires |v| == n
    ensures MatVec(Identity(n), v) == v
  {
    forall i | 0 <= i < n
      ensures Dot(Identity(n)[i], v) == v[i]
    {
      DotNComm(Identity(n)[i], v, n);
      DotNUnitRight(v, Identity(n)[i], i, n);
    }
  }

  /** The adjoint identity `(m b) . v = b . (m^T v)`: the two double sums agree. */
  lemma {:induction false} Adjoint(m: Matrix, cols: nat, b: Vector, v: Vector)
    requires HasCols(m, cols) && |b| == cols && |v| == |m|
    ensures Dot(MatVec(m, b), v) == Dot(b, MatVec(Transpose(m, cols), v))
  {
    AdjointPrefix(m, cols, b, v, |m|);
    var t := Transpose(m, cols);
    var w := ColDots(m, cols, v, |m|);
    assert MatVec(t, v) == w by {
      forall k | 0 <= k < cols ensures Dot(t[k], v) == w[k] {
        assert t[k] == Col(m, k);
      }
    }
  }

  /** The partial column sums `(sum_{i < p} m[i][k] v[i])_k`. */
  function ColDots(m: Matrix, cols: nat, v: Vector, p: nat): (w: Vector)
    requires HasCols(m, cols) && |v| == |m| && p <= |m|
    ensures |w| == cols
    ensures forall k :: 0 <= k < cols ==> w[k] == DotN(Col(m, k), v, p)
  {
    seq(cols, k requires 0 <= k < cols => DotN(Col(m, k), v, p))
  }

  lemma {:induction false} AdjointPrefix(m: Matrix, cols: nat, b: Vector, v: Vector, p: nat)
    requires HasCols(m, cols) && |b| == cols && |v| == |m| && p <= |m|
    ensures DotN(MatVec(m, b), v, p) == DotN(b, ColDots(m, cols, v, p), cols)
  {
    if p == 0 {
      DotNZerosRight(b, ColDots(m, cols, v, p), cols);
    } else {
      var mb := MatVec(m, b);
      assert DotN(mb, v, p) == DotN(mb, v, p - 1) + Dot(m[p - 1], b) * v[p - 1];
      AdjointPrefix(m, cols, b, v, p - 1);
      AdjointStep(m, cols, b, v, p);
    }
  }

  /** One row of the double sum: adding row `p - 1` to both sides. */
  lemma AdjointStep(m: Matrix, cols: nat, b: Vector, v: Vector, p: nat)
    requires HasCols(m, cols) && |b| == cols && |v| == |m| && 0 < p <= |m|
    ensures DotN(b, ColDots(m, cols, v, p), cols)
         == DotN(b, ColDots(m, cols, v, p - 1), cols) + Dot(m[p - 1], b) * v[p - 1]
  {
    var w := ColDots(m, cols, v, p);
    var w0 := ColDots(m, cols, v, p - 1);
    forall k | 0 <= k < cols
      ensures w[k] == w0[k] + v[p - 1] * m[p - 1][k]
    {
      ColDotStep(m, cols, v, p, k);
    }
    DotNLinearRight(b, w0, m[p - 1], v[p - 1], w, cols);
    DotNComm(b, m[p - 1], cols);
  }

  lemma ColDotStep(m: Matrix, cols: nat, v: Vector, p: nat, k: nat)
    requires HasCols(m, cols) && |v| == |m| && 0 < p <= |m| && k < cols
    ensures DotN(Col(m, k), v, p) == DotN(Col(m, k), v, p - 1) + v[p - 1] * m[p - 1][k]
  {
    assert Col(m, k)[p - 1] == m[p - 1][k];
  }

  // ---------------------------------------------------------------------------------------
  // Identity and zero matrices.

  lemma {:induction false} MatMulIdentityLeft(a: Matrix, n: nat, cols: nat)
    requires IsMatrix(a, n, cols)
    ensures MatMul(Identity(n), a, cols) == a
  {
    var r := MatMul(Identity(n), a, cols);
    forall i | 0 <= i < n
      ensures r[i] == a[i]
    {
      forall j | 0 <= j < cols
        ensures r[i][j] == a[i][j]
      {
        DotNComm(Identity(n)[i], Col(a, j), n);
        DotNUnitRight(Col(a, j), Identity(n)[i], i, n);
      }
    }
  }

  lemma {:induction false} MatMulIdentityRight(a: Matrix, n: nat)
    requires HasCols(a, n)
    ensures MatMul(a, Identity(n), n) == a
  {
    var r := MatMul(a, Identity(n), n);
    forall i | 0 <= i < |a|
      ensures r[i] == a[i]
    {
      forall j | 0 <= j < n
        ensures r[i][j] == a[i][j]
      {
        DotNUnitRight(a[i], Col(Identity(n), j), j, n);
      }
    }
  }

  lemma {:induction false} TransposeIdentity(n: nat)
    ensures Transpose(Identity(n), n) == Identity(n)
  {
    var t := Transpose(Identity(n), n);
    forall i | 0 <= i < n
      ensures t[i] == Identity(n)[i]
    {
      assert forall j :: 0 <= j < n ==> t[i][j] == Identity(n)[i][j];
    }
  }

  lemma {:induction false} MatAddZero(a: Matrix, rows: nat, cols: nat)
    requires IsMatrix(a, rows, cols)
    ensures MatAdd(a, ZeroMatrix(rows, cols)) == a
  {
    var r := MatAdd(a, ZeroMatrix(rows, cols));
    forall i | 0 <= i < rows
      ensures r[i] == a[i]
    {
      assert forall j :: 0 <= j < cols ==> r[i][j] == a[i][j];
    }
  }

  // ---------------------------------------------------------------------------------------
  // Transposes, products and symmetric forms.

  lemma ColOfTranspose(m: Matrix, cols: nat, c: nat)
    requires HasCols(m, cols) && c < |m|
    ensures Col(Transpose(m, cols), c) == m[c]
  {
  }

  lemma TransposeTranspose(m: Matrix, rows: nat, cols: nat)
    requires IsMatrix(m, rows, cols)
    ensures Transpose(Transpose(m, cols), rows) == m
  {
    var t := Transpose(Transpose(m, cols), rows);
    forall i | 0 <= i < rows
      ensures t[i] == m[i]
    {
      ColOfTranspose(m, cols, i);
    }
  }

  /** Row `i` of `x * m` is `m^T` applied to row `i` of `x`. */
  lemma MatMulRow(x: Matrix, m: Matrix, cols: nat, i: nat)
    requires HasCols(x, |m|) && HasCols(m, cols) && i < |x|
    ensures MatMul(x, m, cols)[i] == MatVec(Transpose(m, cols), x[i])
  {
    var t := Transpose(m, cols);
    forall l | 0 <= l < cols
      ensures MatMul(x, m, cols)[i][l] == Dot(t[l], x[i])
    {
      DotNComm(x[i], Col(m, l), |m|);
    }
  }

  /** Column `j` of `m * s` is `m` applied to column `j` of `s`. */
  lemma MatMulCol(m: Matrix, s: Matrix, cols: nat, j: nat)
    requires HasCols(m, |s|) && HasCols(s, cols) && j < cols
    ensures Col(MatMul(m, s, cols), j) == MatVec(m, Col(s, j))
  {
  }

  /** Matrix multiplication is associative: `(x m) s = x (m s)`. */
  lemma MatMulAssoc(x: Matrix, m: Matrix, s: Matrix, q: nat, r: nat)
    requires HasCols(x, |m|) && HasCols(m, q) && |s| == q && HasCols(s, r)
    ensures MatMul(MatMul(x, m, q), s, r) == MatMul(x, MatMul(m, s, r), r)
  {
    var xm := MatMul(x, m, q);
    var ms := MatMul(m, s, r);
    var lhs := MatMul(xm, s, r);
    var rhs := MatMul(x, ms, r);
    forall i | 0 <= i < |x|
      ensures lhs[i] == rhs[i]
    {
      forall j | 0 <= j < r
        ensures lhs[i][j] == rhs[i][j]
      {
        MatMulRow(x, m, q, i);
        Adjoint(Transpose(m, q), |m|, x[i], Col(s, j));
        TransposeTranspose(m, |m|, q);
        MatMulCol(m, s, r, j);
      }
    }
  }

  /** The congruence `a x a^T` of an `inner`-by-`inner` matrix `x` by a `rows`-by-`inner` `a`. */
  function Congruence(a: Matrix, x: Matrix, rows: nat, inner: nat): (r: Matrix)
    requires IsMatrix(a, rows, inner) && IsMatrix(x, inner, inner)
    ensures IsMatrix(r, rows, rows)
  {
    MatMul(MatMul(a, x, inner), Transpose(a, inner), rows)
  }

  lemma TransposeSymmetric(x: Matrix, n: nat)
    requires IsSymmetric(x, n)
    ensures Transpose(x, n) == x
  {
    var t := Transpose(x, n);
    forall i | 0 <= i < n
      ensures t[i] == x[i]
    {
      assert forall j :: 0 <= j < n ==> t[i][j] == x[i][j];
    }
  }

  lemma CongruenceEntry(a: Matrix, x: Matrix, rows: nat, inner: nat, i: nat, j: nat)
    requires IsMatrix(a, rows, inner) && IsSymmetric(x, inner) && i < rows && j < rows
    ensures Congruence(a, x, rows, inner)[i][j] == Dot(MatVec(x, a[i]), a[j])
  {
    MatMulRow(a, x, inner, i);
    TransposeSymmetric(x, inner);
    ColOfTranspose(a, inner, j);
  }

  /** A congruence of a symmetric matrix is symmetric. */
  lemma CongruenceSymmetric(a: Matrix, x: Matrix, rows: nat, inner: nat)
    requires IsMatrix(a, rows, inner) && IsSymmetric(x, inner)
    ensures IsSymmetric(Congruence(a, x, rows, inner), rows)
  {
    var c := Congruence(a, x, rows, inner);
    forall i, j | 0 <= i < rows && 0 <= j < rows
      ensures c[i][j] == c[j][i]
    {
      CongruenceEntry(a, x, rows, inner, i, j);
      CongruenceEntry(a, x, rows, inner, j, i);
      Adjoint(x, inner, a[i], a[j]);
      TransposeSymmetric(x, inner);
      DotNComm(a[i], MatVec(x, a[j]), inner);
    }
  }

  lemma MatScaleSymmetric(c: real, m: Matrix, n: nat)
    requires IsSymmetric(m, n)
    ensures IsSymmetric(MatScale(c, m), n)
  {
  }

  lemma AddVZeros(u: Vector)
    ensures AddV(u, Zeros(|u|)) == u
  {
  }

  lemma SubVSelf(u: Vector)
    ensures SubV(u, u) == Zeros(|u|)
  {
  }
}
