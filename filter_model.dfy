/**
 * The motion and measurement models of the self-contained filter: the constant-velocity
 * transition model over the state (x, y, vx, vy), the position-only measurement model and the
 * measure-all model.
 */
module FilterModel {
  import opened LinAlg
  import opened Time

  /** The constant-velocity matrix: the identity with `dt` coupling velocity into position. */
  function CvMatrix(dt: real): (f: Matrix)
    ensures IsMatrix(f, 4, 4)
    ensures forall i, j :: 0 <= i < 4 && 0 <= j < 4 ==>
      f[i][j] == if i == j then 1.0 else if (i == 0 && j == 2) || (i == 1 && j == 3) then dt else 0.0
  {
    [[1.0, 0.0, dt, 0.0],
     [0.0, 1.0, 0.0, dt],
     [0.0, 0.0, 1.0, 0.0],
     [0.0, 0.0, 0.0, 1.0]]
  }

  /** The unscaled process-noise block of the constant-velocity model. */
  function CvBlock(dt: real): (m: Matrix)
    ensures IsMatrix(m, 4, 4)
  {
    var pow4 := dt * dt * dt * dt / 4.0;
    var pow3 := dt * dt * dt / 2.0;
    var pow2 := dt * dt;
    [[pow4, 0.0, pow3, 0.0],
     [0.0, pow4, 0.0, pow3],
     [pow3, 0.0, pow2, 0.0],
     [0.0, pow3, 0.0, pow2]]
  }

  /** How an acceleration (ax, ay) held for `dt` moves the state: position dt^2/2, velocity dt. */
  function NoiseGain(dt: real): (g: Matrix)
    ensures IsMatrix(g, 4, 2)
  {
    [[dt * dt / 2.0, 0.0],
     [0.0, dt * dt / 2.0],
     [dt, 0.0],
     [0.0, dt]]
  }

  /** The noise block is the white-acceleration covariance `G G^T`, so it is symmetric. */
  lemma CvBlockIsNoiseGain(dt: real)
    ensures CvBlock(dt) == MatMul(NoiseGain(dt), Transpose(NoiseGain(dt), 2), 4)
    ensures IsSymmetric(CvBlock(dt), 4)
  {
    var g := NoiseGain(dt);
    var ggt := MatMul(g, Transpose(g, 2), 4);
    var block := CvBlock(dt);
    forall i, j | 0 <= i < 4 && 0 <= j < 4
      ensures ggt[i][j] == block[i][j]
    {
      ColOfTranspose(g, 2, j);
      NoiseGainProduct(dt, i, j);
    }
    assert forall i :: 0 <= i < 4 ==> ggt[i] == block[i];
  }

  /** Entry (i, j) of `G G^T` is the product of rows i and j of `G`. */
  lemma NoiseGainProduct(dt: real, i: nat, j: nat)
    requires i < 4 && j < 4
    ensures Dot(NoiseGain(dt)[i], NoiseGain(dt)[j]) == CvBlock(dt)[i][j]
  {
    var g := NoiseGain(dt);
    Dot2(g[i], g[j]);
    var h := dt * dt / 2.0;
    assert h * h == dt * dt * dt * dt / 4.0;
    assert h * dt == dt * dt * dt / 2.0 && dt * h == dt * dt * dt / 2.0;
  }

  lemma Dot2(u: Vector, v: Vector)
    requires |u| == 2 && |v| == 2
    ensures Dot(u, v) == u[0] * v[0] + u[1] * v[1]
  {
    assert DotN(u, v, 1) == u[0] * v[0];
  }

  lemma Dot4(u: Vector, v: Vector)
    requires |u| == 4 && |v| == 4
    ensures Dot(u, v) == u[0] * v[0] + u[1] * v[1] + u[2] * v[2] + u[3] * v[3]
  {
    assert DotN(u, v, 1) == u[0] * v[0];
    assert DotN(u, v, 2) == u[0] * v[0] + u[1] * v[1];
    assert DotN(u, v, 3) == u[0] * v[0] + u[1] * v[1] + u[2] * v[2];
  }

  /** The constant-velocity matrix advances the position by `dt` times the velocity. */
  lemma CvMoves(dt: real, x: Vector)
    requires |x| == 4
    ensures MatVec(CvMatrix(dt), x) == [x[0] + dt * x[2], x[1] + dt * x[3], x[2], x[3]]
  {
    var f := CvMatrix(dt);
    var r := MatVec(f, x);
    Dot4(f[0], x);
    Dot4(f[1], x);
    Dot4(f[2], x);
    Dot4(f[3], x);
    assert r[0] == x[0] + dt * x[2];
    assert r[1] == x[1] + dt * x[3];
    assert r[2] == x[2];
    assert r[3] == x[3];
  }

  lemma CvAtZero()
    ensures CvMatrix(0.0) == Identity(4)
    ensures CvBlock(0.0) == ZeroMatrix(4, 4)
  {
    assert forall i :: 0 <= i < 4 ==> CvMatrix(0.0)[i] == Identity(4)[i];
    assert forall i :: 0 <= i < 4 ==> CvBlock(0.0)[i] == ZeroMatrix(4, 4)[i];
  }

  // ---------------------------------------------------------------------------------------
  // src/filter/model.rs

  datatype ConstantVelocity = ConstantVelocity(q: real)

  /** The transition matrix for a step of `dtNanos` nanoseconds, truncated to milliseconds. */
  function TransitionMatrix(m: ConstantVelocity, dtNanos: int): (f: Matrix)
    ensures IsMatrix(f, 4, 4)
  {
    CvMatrix(DtSeconds(dtNanos))
  }

  /** The process noise `q * block(dt)`. */
  function TransitionError(m: ConstantVelocity, dtNanos: int): (e: Matrix)
    ensures IsMatrix(e, 4, 4)
  {
    MatScale(m.q, CvBlock(DtSeconds(dtNanos)))
  }

  /** The transition matrix couples velocity into position with the truncated step length. */
  lemma TransitionMatrixEntries(m: ConstantVelocity, dtNanos: int, i: nat, j: nat)
    requires i < 4 && j < 4
    ensures TransitionMatrix(m, dtNanos)[i][j] ==
      if i == j then 1.0
      else if (i == 0 && j == 2) || (i == 1 && j == 3) then NumMilliseconds(dtNanos) as real / 1000.0
      else 0.0
  {
  }

  /** The process noise is `q G G^T` and symmetric. */
  lemma TransitionErrorShape(m: ConstantVelocity, dtNanos: int)
    ensures var dt := DtSeconds(dtNanos);
      TransitionError(m, dtNanos) == MatScale(m.q, MatMul(NoiseGain(dt), Transpose(NoiseGain(dt), 2), 4))
    ensures IsSymmetric(TransitionError(m, dtNanos), 4)
  {
    CvBlockIsNoiseGain(DtSeconds(dtNanos));
    MatScaleSymmetric(m.q, CvBlock(DtSeconds(dtNanos)), 4);
  }

  /** A step shorter than one millisecond is no step at all: `F = I` and `Q = 0`. */
  lemma TransitionBelowOneMillisecond(m: ConstantVelocity, dtNanos: int)
    requires -NANOS_PER_MILLI < dtNanos < NANOS_PER_MILLI
    ensures TransitionMatrix(m, dtNanos) == Identity(4)
    ensures TransitionError(m, dtNanos) == ZeroMatrix(4, 4)
  {
    assert DtSeconds(dtNanos) == 0.0;
    CvAtZero();
    assert forall i :: 0 <= i < 4 ==> TransitionError(m, dtNanos)[i] == ZeroMatrix(4, 4)[i];
  }

  /** The measurement models: position only (H selects x and y) or every state variable. */
  datatype MeasurementModel =
    | XYMeasurementModel(sd: nat, errorX: real, errorY: real)
    | MeasureAllModel(measurementMatrix: Matrix, measurementError: Matrix)

  /** `MeasureAllModel::new`: `H = I` and `R = diag(diagonal)`, set once at construction. */
  function NewMeasureAll(diagonal: Vector): (m: MeasurementModel)
    ensures m.MeasureAllModel?
    ensures m.measurementMatrix == Identity(|diagonal|)
    ensures IsMatrix(m.measurementError, |diagonal|, |diagonal|)
    ensures forall i, j :: 0 <= i < |diagonal| && 0 <= j < |diagonal| ==>
      m.measurementError[i][j] == if i == j then diagonal[i] else 0.0
  {
    MeasureAllModel(Identity(|diagonal|), Diag(diagonal))
  }

  /** The model maps `sd`-dimensional states to `md`-dimensional measurements. */
  predicate Fits(m: MeasurementModel, md: nat, sd: nat) {
    match m
    case XYMeasurementModel(d, _, _) => md == 2 && d == sd
    case MeasureAllModel(h, r) => md == sd && IsMatrix(h, sd, sd) && IsMatrix(r, sd, sd)
  }

  function MeasurementMatrix(m: MeasurementModel, md: nat, sd: nat): (h: Matrix)
    requires Fits(m, md, sd)
    ensures IsMatrix(h, md, sd)
  {
    match m
    case XYMeasurementModel(d, _, _) => IdentityRect(2, d)
    case MeasureAllModel(h, _) => h
  }

  function MeasurementError(m: MeasurementModel, md: nat, sd: nat): (r: Matrix)
    requires Fits(m, md, sd)
    ensures IsMatrix(r, md, md)
  {
    match m
    case XYMeasurementModel(_, ex, ey) => [[ex, 0.0], [0.0, ey]]
    case MeasureAllModel(_, r) => r
  }

  /** The position-only model reads off the first two state components. */
  lemma XYMeasuresPosition(sd: nat, ex: real, ey: real, x: Vector)
    requires sd >= 2 && |x| == sd
    ensures MatVec(MeasurementMatrix(XYMeasurementModel(sd, ex, ey), 2, sd), x) == [x[0], x[1]]
  {
    var h := IdentityRect(2, sd);
    DotNComm(h[0], x, sd);
    DotNUnitRight(x, h[0], 0, sd);
    DotNComm(h[1], x, sd);
    DotNUnitRight(x, h[1], 1, sd);
  }

  /** The position-only noise is `diag(error_x, error_y)`, hence symmetric. */
  lemma XYErrorIsDiagonal(sd: nat, ex: real, ey: real)
    ensures MeasurementError(XYMeasurementModel(sd, ex, ey), 2, sd) == Diag([ex, ey])
    ensures IsSymmetric(MeasurementError(XYMeasurementModel(sd, ex, ey), 2, sd), 2)
  {
    var d := Diag([ex, ey]);
    assert d[0] == [ex, 0.0] && d[1] == [0.0, ey];
  }

  /** A measure-all model built by `new` measures the state itself, with symmetric noise. */
  lemma MeasureAllIdentity(diagonal: Vector, x: Vector)
    requires |x| == |diagonal|
    ensures Fits(NewMeasureAll(diagonal), |diagonal|, |diagonal|)
    ensures MatVec(MeasurementMatrix(NewMeasureAll(diagonal), |diagonal|, |diagonal|), x) == x
    ensures IsSymmetric(MeasurementError(NewMeasureAll(diagonal), |diagonal|, |diagonal|), |diagonal|)
  {
    MatVecIdentity(|diagonal|, x);
  }
}
