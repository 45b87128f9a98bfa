/**
 * `sensor_fusion::kalman::KalmanFilter`: a predictor that reads the latest waypoint of a track
 * and a filter that reports a singular innovation covariance as `NumericalError`. The only
 * transition model is the constant-velocity model, so states have four components.
 */
module FusionKalman {
  import opened Wrappers
  import opened LinAlg
  import opened Time
  import opened MatrixInverse
  import opened KalmanMath
  import opened FusionModel
  import opened FusionState
  import FilterModel

  const SD: nat := 4

  datatype EstimationError = NumericalError

  datatype KalmanFilter = KalmanFilter(transitionModel: ConstantVelocity, measurementModel: MeasurementModel, md: nat)

  predicate FilterFits(kf: KalmanFilter) {
    Fits(kf.measurementModel, kf.md, SD)
  }

  /** `F x` and `F P F^T + Q` for a step of `dtNanos`. */
  function PredictState(kf: KalmanFilter, prior: GaussianState, dtNanos: int): (r: GaussianState)
    requires StateFits(prior, SD)
    ensures StateFits(r, SD)
  {
    var f := TransitionMatrix(kf.transitionModel, dtNanos);
    GaussianState(PredictMean(f, prior.estimate, SD),
                  PredictCovar(f, prior.error, TransitionError(kf.transitionModel, dtNanos), SD))
  }

  /** `Predictor::predict`: predicts from the latest waypoint; it never fails. */
  function Predict(kf: KalmanFilter, track: Track, dtNanos: int): (r: Result<GaussianState, EstimationError>)
    reads track
    requires track.Valid() && StateFits(track.GetLatestWaypoint().state, SD)
    ensures r.Ok? ==> StateFits(r.value, SD)
  {
    var prior := track.GetLatestWaypoint().state;
    Ok(PredictState(kf, prior, dtNanos))
  }

  /** The innovation covariance `S = H P H^T + R` of a prediction. */
  function InnovationCovarOf(kf: KalmanFilter, prediction: GaussianState): (s: Matrix)
    requires FilterFits(kf) && StateFits(prediction, SD)
    ensures IsMatrix(s, kf.md, kf.md)
  {
    InnovationCovar(MeasurementMatrix(kf.measurementModel, kf.md, SD), prediction.error,
                    MeasurementError(kf.measurementModel, kf.md, SD), kf.md, SD)
  }

  /** `Filter::filter`: the measurement update, `NumericalError` when `S` cannot be inverted. */
  function Filter(kf: KalmanFilter, prediction: GaussianState, measurement: Measurement): (r: Result<GaussianState, EstimationError>)
    requires FilterFits(kf) && StateFits(prediction, SD) && |measurement.vector| == kf.md
    ensures r.Err? <==> TryInverse(InnovationCovarOf(kf, prediction), kf.md).None?
    ensures r.Ok? ==> StateFits(r.value, SD)
  {
    var h := MeasurementMatrix(kf.measurementModel, kf.md, SD);
    var innovation := Innovation(measurement.vector, h, prediction.estimate, kf.md, SD);
    var s := InnovationCovarOf(kf, prediction);
    match TryInverse(s, kf.md)
    case None => Err(NumericalError)
    case Some(sInv) =>
      var k := Gain(prediction.error, h, sInv, kf.md, SD);
      Ok(GaussianState(UpdateMean(prediction.estimate, k, innovation, kf.md, SD),
                       UpdateCovar(prediction.error, k, s, kf.md, SD)))
  }

  // ---------------------------------------------------------------------------------------

  /** `predict` never fails and predicts from the latest state. */
  lemma PredictNeverFails(kf: KalmanFilter, track: Track, dtNanos: int)
    requires track.Valid() && StateFits(track.GetLatestWaypoint().state, SD)
    ensures Predict(kf, track, dtNanos) == Ok(PredictState(kf, track.GetLatestWaypoint().state, dtNanos))
  {
  }

  /** The prediction depends on nothing but the latest waypoint's state. */
  lemma PredictReadsOnlyLatest(kf: KalmanFilter, t1: Track, t2: Track, dtNanos: int)
    requires t1.Valid() && StateFits(t1.GetLatestWaypoint().state, SD)
    requires t2.Valid() && t2.GetLatestWaypoint().state == t1.GetLatestWaypoint().state
    ensures Predict(kf, t1, dtNanos) == Predict(kf, t2, dtNanos)
  {
  }

  /**
   * The predicted mean moves the position by `dt` times the velocity, `dt` being the signed
   * step truncated to milliseconds; the covariance stays symmetric.
   */
  lemma PredictConstantVelocity(kf: KalmanFilter, prior: GaussianState, dtNanos: int)
    requires StateFits(prior, SD)
    ensures var x := prior.estimate; var dt := DtSeconds(dtNanos);
      PredictState(kf, prior, dtNanos).estimate == [x[0] + dt * x[2], x[1] + dt * x[3], x[2], x[3]]
    ensures IsSymmetric(prior.error, SD) ==> IsSymmetric(PredictState(kf, prior, dtNanos).error, SD)
  {
    FilterModel.CvMoves(DtSeconds(dtNanos), prior.estimate);
    if IsSymmetric(prior.error, SD) {
      TransitionErrorShape(kf.transitionModel, dtNanos);
      PredictCovarSymmetric(TransitionMatrix(kf.transitionModel, dtNanos), prior.error,
                            TransitionError(kf.transitionModel, dtNanos), SD);
    }
  }

  /** A step of less than one millisecond either way predicts the prior itself. */
  lemma PredictBelowOneMillisecond(kf: KalmanFilter, prior: GaussianState, dtNanos: int)
    requires StateFits(prior, SD) && -NANOS_PER_MILLI < dtNanos < NANOS_PER_MILLI
    ensures PredictState(kf, prior, dtNanos) == prior
  {
    TransitionBelowOneMillisecond(kf.transitionModel, dtNanos);
    PredictIdentity(prior.estimate, prior.error, SD);
  }

  /** A `NumericalError` is only reported when `S` has no inverse at all. */
  lemma FilterFailsOnlyIfSingular(kf: KalmanFilter, prediction: GaussianState, measurement: Measurement, m: Matrix)
    requires FilterFits(kf) && StateFits(prediction, SD) && |measurement.vector| == kf.md
    requires IsMatrix(m, kf.md, kf.md) && Filter(kf, prediction, measurement).Err?
    ensures MatMul(InnovationCovarOf(kf, prediction), m, kf.md) != Identity(kf.md)
  {
    TryInverseNone(InnovationCovarOf(kf, prediction), kf.md, m);
  }

  /** A measurement equal to `H x` leaves the mean unchanged. */
  lemma FilterZeroInnovation(kf: KalmanFilter, prediction: GaussianState, measurement: Measurement)
    requires FilterFits(kf) && StateFits(prediction, SD) && |measurement.vector| == kf.md
    requires measurement.vector == MatVec(MeasurementMatrix(kf.measurementModel, kf.md, SD), prediction.estimate)
    requires Filter(kf, prediction, measurement).Ok?
    ensures Filter(kf, prediction, measurement).value.estimate == prediction.estimate
  {
    var h := MeasurementMatrix(kf.measurementModel, kf.md, SD);
    var sInv := TryInverse(InnovationCovarOf(kf, prediction), kf.md).value;
    ZeroInnovation(prediction.estimate, Gain(prediction.error, h, sInv, kf.md, SD), measurement.vector, h, kf.md, SD);
  }

  /**
   * A successful update is `x + K nu`, `P - K S K^T` for a gain that solves `K S = P H^T`,
   * and keeps the covariance symmetric when the prediction and `R` are symmetric.
   */
  lemma FilterUpdate(kf: KalmanFilter, prediction: GaussianState, measurement: Measurement)
    requires FilterFits(kf) && StateFits(prediction, SD) && |measurement.vector| == kf.md
    requires Filter(kf, prediction, measurement).Ok?
    ensures var h := MeasurementMatrix(kf.measurementModel, kf.md, SD);
      var s := InnovationCovarOf(kf, prediction);
      var k := Gain(prediction.error, h, TryInverse(s, kf.md).value, kf.md, SD);
      var r := Filter(kf, prediction, measurement).value;
      && MatMul(k, s, kf.md) == MatMul(prediction.error, Transpose(h, SD), kf.md)
      && r.estimate == AddV(prediction.estimate, MatVec(k, SubV(measurement.vector, MatVec(h, prediction.estimate))))
      && r.error == MatSub(prediction.error, Congruence(k, s, SD, kf.md))
      && (IsSymmetric(prediction.error, SD) && IsSymmetric(MeasurementError(kf.measurementModel, kf.md, SD), kf.md)
          ==> IsSymmetric(r.error, SD))
  {
    var h := MeasurementMatrix(kf.measurementModel, kf.md, SD);
    var r := MeasurementError(kf.measurementModel, kf.md, SD);
    var s := InnovationCovarOf(kf, prediction);
    var sInv := TryInverse(s, kf.md).value;
    var k := Gain(prediction.error, h, sInv, kf.md, SD);
    TryInverseSome(s, kf.md);
    GainEquation(prediction.error, h, s, sInv, kf.md, SD);
    if IsSymmetric(prediction.error, SD) && IsSymmetric(r, kf.md) {
      InnovationCovarSymmetric(h, prediction.error, r, kf.md, SD);
      UpdateCovarSymmetric(prediction.error, k, s, kf.md, SD);
    }
  }
}
