/**
 * `sensor_fusion::kalman2::KalmanFilter`: the same equations, but the observation is a
 * `GaussianState` of which only the mean is used, the prediction is returned directly, and a
 * singular innovation covariance panics in `unwrap` (a precondition here).
 */
module FusionKalman2 {
  import opened Wrappers
  import opened LinAlg
  import opened MatrixInverse
  import opened KalmanMath
  import opened FusionModel
  import opened FusionState
  import opened FusionKalman

  /** `predict`: `F x`, `F P F^T + Q` of the last waypoint's state. */
  function Predict2(kf: KalmanFilter, track: Track, dtNanos: int): (r: GaussianState)
    reads track
    requires track.Valid() && StateFits(track.GetLatestWaypoint().state, SD)
    ensures StateFits(r, SD)
  {
    var prior := track.waypoints[|track.waypoints| - 1].state;
    var f := TransitionMatrix(kf.transitionModel, dtNanos);
    GaussianState(PredictMean(f, prior.estimate, SD),
                  PredictCovar(f, prior.error, TransitionError(kf.transitionModel, dtNanos), SD))
  }

  /** `filter`: the update with `observation.estimate` as the measurement vector. */
  function Filter2(kf: KalmanFilter, prediction: GaussianState, observation: GaussianState): (r: GaussianState)
    requires FilterFits(kf) && StateFits(prediction, SD) && |observation.estimate| == kf.md
    requires TryInverse(InnovationCovarOf(kf, prediction), kf.md).Some?
    ensures StateFits(r, SD)
  {
    var h := MeasurementMatrix(kf.measurementModel, kf.md, SD);
    var r := MeasurementError(kf.measurementModel, kf.md, SD);
    var innovation := Innovation(observation.estimate, h, prediction.estimate, kf.md, SD);
    var s := InnovationCovar(h, prediction.error, r, kf.md, SD);
    var k := Gain(prediction.error, h, TryInverse(s, kf.md).value, kf.md, SD);
    GaussianState(UpdateMean(prediction.estimate, k, innovation, kf.md, SD),
                  UpdateCovar(prediction.error, k, s, kf.md, SD))
  }

  /** The prediction agrees with the `Result`-returning generation, which never fails. */
  lemma Predict2Agrees(kf: KalmanFilter, track: Track, dtNanos: int)
    requires track.Valid() && StateFits(track.GetLatestWaypoint().state, SD)
    ensures Predict(kf, track, dtNanos) == Ok(Predict2(kf, track, dtNanos))
  {
  }

  /**
   * On an invertible `S` the update agrees with the `Result`-returning generation fed with the
   * observation's mean at any timestamp; the observation's covariance is never consulted.
   */
  lemma Filter2Agrees(kf: KalmanFilter, prediction: GaussianState, observation: GaussianState, timestamp: int)
    requires FilterFits(kf) && StateFits(prediction, SD) && |observation.estimate| == kf.md
    requires TryInverse(InnovationCovarOf(kf, prediction), kf.md).Some?
    ensures Filter(kf, prediction, Measurement(timestamp, observation.estimate)) == Ok(Filter2(kf, prediction, observation))
    ensures forall e: Matrix :: Filter2(kf, prediction, GaussianState(observation.estimate, e)) == Filter2(kf, prediction, observation)
  {
  }

  /** An observation whose mean equals `H x` leaves the mean unchanged. */
  lemma Filter2ZeroInnovation(kf: KalmanFilter, prediction: GaussianState, observation: GaussianState)
    requires FilterFits(kf) && StateFits(prediction, SD) && |observation.estimate| == kf.md
    requires TryInverse(InnovationCovarOf(kf, prediction), kf.md).Some?
    requires observation.estimate == MatVec(MeasurementMatrix(kf.measurementModel, kf.md, SD), prediction.estimate)
    ensures Filter2(kf, prediction, observation).estimate == prediction.estimate
  {
    Filter2Agrees(kf, prediction, observation, 0);
    FilterZeroInnovation(kf, prediction, Measurement(0, observation.estimate));
  }
}
