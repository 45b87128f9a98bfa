/**
 * The models of the `sensor_fusion` crate: the constant-velocity transition model with a
 * `drift` factor, the position measurement model and the measure-all model. Measurement models
 * are indexed `<MD, SD>`, measurement dimension first.
 */
module FusionModel {
  import opened LinAlg
  import opened Time
  import FilterModel

  datatype ConstantVelocity = ConstantVelocity(drift: real)

  /** The transition matrix for a signed step of `dtNanos` nanoseconds. */
  function TransitionMatrix(m: ConstantVelocity, dtNanos: int): (f: Matrix)
    ensures IsMatrix(f, 4, 4)
  {
    FilterModel.CvMatrix(DtSeconds(dtNanos))
  }

  /** The process noise `drift * block(dt)`. */
  function TransitionError(m: ConstantVelocity, dtNanos: int): (e: Matrix)
    ensures IsMatrix(e, 4, 4)
  {
    MatScale(m.drift, FilterModel.CvBlock(DtSeconds(dtNanos)))
  }

  /** The identity with the truncated step length at (0, 2) and (1, 3). */
  lemma TransitionMatrixEntries(m: ConstantVelocity, dtNanos: int, i: nat, j: nat)
    requires i < 4 && j < 4
    ensures TransitionMatrix(m, dtNanos)[i][j] ==
      if i == j then 1.0
      else if (i == 0 && j == 2) || (i == 1 && j == 3) then NumMilliseconds(dtNanos) as real / 1000.0
      else 0.0
  {
  }

  /** The process noise is `drift` times the white-acceleration covariance, and symmetric. */
  lemma TransitionErrorShape(m: ConstantVelocity, dtNanos: int)
    ensures var g := FilterModel.NoiseGain(DtSeconds(dtNanos));
      TransitionError(m, dtNanos) == MatScale(m.drift, MatMul(g, Transpose(g, 2), 4))
    ensures IsSymmetric(TransitionError(m, dtNanos), 4)
  {
    FilterModel.CvBlockIsNoiseGain(DtSeconds(dtNanos));
    MatScaleSymmetric(m.drift, FilterModel.CvBlock(DtSeconds(dtNanos)), 4);
  }

  /** A step shorter than one millisecond, forwards or backwards, gives `F = I` and `Q = 0`. */
  lemma TransitionBelowOneMillisecond(m: ConstantVelocity, dtNanos: int)
    requires -NANOS_PER_MILLI < dtNanos < NANOS_PER_MILLI
    ensures TransitionMatrix(m, dtNanos) == Identity(4)
    ensures TransitionError(m, dtNanos) == ZeroMatrix(4, 4)
  {
    assert DtSeconds(dtNanos) == 0.0;
    FilterModel.CvAtZero();
    assert forall i :: 0 <= i < 4 ==> TransitionError(m, dtNanos)[i] == ZeroMatrix(4, 4)[i];
  }

  /**
   * `PositionMeasurementModel<SD>` measures (x, y); `MeasureAllModel<D>` stores only its noise
   * matrix and measures every state variable.
   */
  datatype MeasurementModel =
    | PositionMeasurementModel(sd: nat, errorX: real, errorY: real)
    | MeasureAllModel(measurementError: Matrix)

  /** `MeasureAllModel::new`: the noise is `diag(diagonal)`. */
  function NewMeasureAll(diagonal: Vector): (m: MeasurementModel)
    ensures m.MeasureAllModel?
    ensures IsMatrix(m.measurementError, |diagonal|, |diagonal|)
    ensures forall i, j :: 0 <= i < |diagonal| && 0 <= j < |diagonal| ==>
      m.measurementError[i][j] == if i == j then diagonal[i] else 0.0
  {
    MeasureAllModel(Diag(diagonal))
  }

  /** The model implements `LinearMeasurementModel<md, sd>`. */
  predicate Fits(m: MeasurementModel, md: nat, sd: nat) {
    match m
    case PositionMeasurementModel(d, _, _) => md == 2 && d == sd
    case MeasureAllModel(r) => md == sd && IsMatrix(r, sd, sd)
  }

  function MeasurementMatrix(m: MeasurementModel, md: nat, sd: nat): (h: Matrix)
    requires Fits(m, md, sd)
    ensures IsMatrix(h, md, sd)
  {
    match m
    case PositionMeasurementModel(d, _, _) => IdentityRect(2, d)
    case MeasureAllModel(_) => Identity(sd)
  }

  function MeasurementError(m: MeasurementModel, md: nat, sd: nat): (r: Matrix)
    requires Fits(m, md, sd)
    ensures IsMatrix(r, md, md)
  {
    match m
    case PositionMeasurementModel(_, ex, ey) => [[ex, 0.0], [0.0, ey]]
    case MeasureAllModel(r) => r
  }

  /** The position model reads off the first two state components with noise `diag(ex, ey)`. */
  lemma PositionMeasures(sd: nat, ex: real, ey: real, x: Vector)
    requires sd >= 2 && |x| == sd
    ensures MatVec(MeasurementMatrix(PositionMeasurementModel(sd, ex, ey), 2, sd), x) == [x[0], x[1]]
    ensures MeasurementError(PositionMeasurementModel(sd, ex, ey), 2, sd) == Diag([ex, ey])
    ensures IsSymmetric(MeasurementError(PositionMeasurementModel(sd, ex, ey), 2, sd), 2)
  {
    var h := IdentityRect(2, sd);
    DotNComm(h[0], x, sd);
    DotNUnitRight(x, h[0], 0, sd);
    DotNComm(h[1], x, sd);
    DotNUnitRight(x, h[1], 1, sd);
    var d := Diag([ex, ey]);
    assert d[0] == [ex, 0.0] && d[1] == [0.0, ey];
  }

  /** A measure-all model built by `new` measures the state itself, with symmetric noise. */
  lemma MeasureAllIdentity(diagonal: Vector, x: Vector)
    requires |x| == |diagonal|
    ensures Fits(NewMeasureAll(diagonal), |diagonal|, |diagonal|)
    ensures MatVec(MeasurementMatrix(NewMeasureAll(diagonal), |diagonal|, |diagonal|), x) == x
    ensures IsSymmetric(MeasurementError(NewMeasureAll(diagonal), |diagonal|, |diagonal|), |diagonal|)
  {
    MatVecIdentity(|diagonal|, x);
  }
}
