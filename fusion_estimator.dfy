/**
 * `sensor_fusion::estimator`: every predictor that is also a filter is an estimator, whose
 * `estimate` predicts over the signed time since the latest waypoint and filters that
 * prediction. The blanket implementation is generic, so the estimator is modelled over a
 * predictor and a filter given as function values, with the Kalman filter as one instance.
 * The estimator only reads the track, which is passed as its sequence of waypoints; the caller
 * appends the result, as `test_estimator` does.
 */
module FusionEstimator {
  import opened Wrappers
  import opened LinAlg
  import opened MatrixInverse
  import opened FusionState
  import opened FusionKalman

  /** `Predictor::predict`, applied to the waypoints of a track and a signed step in nanoseconds. */
  type PredictFn = (seq<Waypoint>, int) -> Result<GaussianState, EstimationError>

  /** `Filter::filter`, applied to a prediction and a measurement. */
  type FilterFn = (GaussianState, Measurement) -> Result<GaussianState, EstimationError>

  /** `Estimator::estimate` (the `Result`-returning signature) of the blanket implementation. */
  function Estimate(predict: PredictFn, filter: FilterFn, ws: seq<Waypoint>, measurement: Measurement)
    : Result<GaussianState, EstimationError>
    requires |ws| > 0
  {
    var dt := measurement.timestamp - ws[|ws| - 1].timestamp;
    match predict(ws, dt)
    case Err(e) => Err(e)
    case Ok(prediction) => filter(prediction, measurement)
  }

  /**
   * The estimate is the filter's result on the prediction over the signed, unclamped step from
   * the latest waypoint to the measurement; a failing prediction is passed on unchanged. A
   * measurement older than the latest waypoint thus predicts backwards in time.
   */
  lemma EstimatePredictsThenFilters(predict: PredictFn, filter: FilterFn, ws: seq<Waypoint>, measurement: Measurement)
    requires |ws| > 0
    ensures var p := predict(ws, measurement.timestamp - ws[|ws| - 1].timestamp);
      && (p.Err? ==> Estimate(predict, filter, ws, measurement) == Err(p.error))
      && (p.Ok? ==> Estimate(predict, filter, ws, measurement) == filter(p.value, measurement))
  {
  }

  /**
   * `test_estimator`'s loop over the measurements, from the waypoints `ws`: estimate from the
   * track so far, stop at the first error, otherwise append the estimate under the
   * measurement's timestamp.
   */
  function Replay(predict: PredictFn, filter: FilterFn, ws: seq<Waypoint>, ms: seq<Measurement>)
    : (Result<(), EstimationError>, seq<Waypoint>)
    requires |ws| > 0
    decreases |ms|
  {
    if |ms| == 0 then (Ok(()), ws)
    else
      match Estimate(predict, filter, ws, ms[0])
      case Err(e) => (Err(e), ws)
      case Ok(s) => Replay(predict, filter, ws + [Waypoint(ms[0].timestamp, s)], ms[1..])
  }

  /**
   * Replaying only appends: the track so far is a prefix of the result, every appended waypoint
   * is the estimate from the waypoints before it under its measurement's timestamp, a complete
   * run appends one waypoint per measurement, and an error is the failed estimate of the first
   * measurement that was not appended.
   */
  lemma {:induction false} ReplayAppends(predict: PredictFn, filter: FilterFn, ws: seq<Waypoint>, ms: seq<Measurement>)
    requires |ws| > 0
    decreases |ms|
    ensures var (r, out) := Replay(predict, filter, ws, ms);
      && |ws| <= |out| <= |ws| + |ms|
      && out[..|ws|] == ws
      && (r.Ok? <==> |out| == |ws| + |ms|)
      && (forall k :: |ws| <= k < |out| ==>
            out[k].timestamp == ms[k - |ws|].timestamp &&
            Estimate(predict, filter, out[..k], ms[k - |ws|]) == Ok(out[k].state))
      && (r.Err? ==> Estimate(predict, filter, out, ms[|out| - |ws|]) == Err(r.error))
  {
    if |ms| > 0 {
      match Estimate(predict, filter, ws, ms[0])
      case Err(_) =>
      case Ok(s) =>
        var ws' := ws + [Waypoint(ms[0].timestamp, s)];
        ReplayAppends(predict, filter, ws', ms[1..]);
        var out := Replay(predict, filter, ws', ms[1..]).1;
        assert Replay(predict, filter, ws, ms).1 == out;
        assert out[..|ws|] == ws by {
          assert out[..|ws'|][..|ws|] == ws;
        }
        forall k | |ws| <= k < |out|
          ensures out[k].timestamp == ms[k - |ws|].timestamp
          ensures Estimate(predict, filter, out[..k], ms[k - |ws|]) == Ok(out[k].state)
        {
          if k > |ws| {
            assert ms[1..][k - |ws'|] == ms[k - |ws|];
          } else {
            assert out[..k] == ws;
            assert out[k] == ws'[|ws|];
          }
        }
        if Replay(predict, filter, ws, ms).0.Err? {
          assert ms[1..][|out| - |ws'|] == ms[|out| - |ws|];
        }
    }
  }

  /** The loop of `test_estimator`, building a track from an initial waypoint. */
  method TrackMeasurements(predict: PredictFn, filter: FilterFn, initialWaypoint: Waypoint, ms: seq<Measurement>)
    returns (r: Result<(), EstimationError>, track: Track)
    ensures fresh(track) && track.Valid()
    ensures (r, track.waypoints) == Replay(predict, filter, [initialWaypoint], ms)
  {
    track := new Track(initialWaypoint);
    var i := 0;
    while i < |ms|
      invariant 0 <= i <= |ms| && track.Valid()
      invariant Replay(predict, filter, track.waypoints, ms[i..]) == Replay(predict, filter, [initialWaypoint], ms)
    {
      var timestamp := ms[i].timestamp;
      var estimation := Estimate(predict, filter, track.IntoIter(), ms[i]);
      if estimation.Err? {
        return Err(estimation.error), track;
      }
      assert ms[i..][1..] == ms[i + 1..];
      track.AddWaypoint(Waypoint(timestamp, estimation.value));
      i := i + 1;
    }
    return Ok(()), track;
  }

  // ---------------------------------------------------------------------------------------
  // The Kalman filter as an estimator.

  /**
   * The Kalman predictor on a sequence of waypoints. The dimensions are part of the types in
   * the source, so the `Err` branch stands only for sequences no track can hold.
   */
  function KalmanPredictor(kf: KalmanFilter): PredictFn {
    (ws: seq<Waypoint>, dt: int) =>
      if |ws| > 0 && StateFits(ws[|ws| - 1].state, SD) then Ok(PredictState(kf, ws[|ws| - 1].state, dt))
      else Err(NumericalError)
  }

  /** The Kalman filter's update; the `Err` branch on ill-fitting dimensions is unreachable likewise. */
  function KalmanUpdate(kf: KalmanFilter): FilterFn {
    (prediction: GaussianState, measurement: Measurement) =>
      if FilterFits(kf) && StateFits(prediction, SD) && |measurement.vector| == kf.md then Filter(kf, prediction, measurement)
      else Err(NumericalError)
  }

  /** The predictor is `KalmanFilter::predict` on the track holding these waypoints. */
  lemma KalmanPredictorIsPredict(kf: KalmanFilter, track: Track, dt: int)
    requires track.Valid() && StateFits(track.GetLatestWaypoint().state, SD)
    ensures KalmanPredictor(kf)(track.waypoints, dt) == Predict(kf, track, dt)
  {
  }

  /** The update is `KalmanFilter::filter`. */
  lemma KalmanUpdateIsFilter(kf: KalmanFilter, prediction: GaussianState, measurement: Measurement)
    requires FilterFits(kf) && StateFits(prediction, SD) && |measurement.vector| == kf.md
    ensures KalmanUpdate(kf)(prediction, measurement) == Filter(kf, prediction, measurement)
  {
  }

  /** The Kalman predictor never fails and predicts from the latest waypoint's state. */
  lemma KalmanPredictorLatest(kf: KalmanFilter, ws: seq<Waypoint>, dt: int)
    requires |ws| > 0 && StateFits(ws[|ws| - 1].state, SD)
    ensures KalmanPredictor(kf)(ws, dt) == Ok(PredictState(kf, ws[|ws| - 1].state, dt))
  {
  }

  /**
   * With the Kalman predictor, the estimate reads nothing of the track but the latest waypoint:
   * it is the filter's result on the prediction from that waypoint's state over the signed step
   * to the measurement, here for any filter and so in particular for `KalmanUpdate`.
   */
  lemma KalmanEstimate(kf: KalmanFilter, filter: FilterFn, ws: seq<Waypoint>, measurement: Measurement)
    requires |ws| > 0 && StateFits(ws[|ws| - 1].state, SD)
    ensures var latest := ws[|ws| - 1];
      Estimate(KalmanPredictor(kf), filter, ws, measurement) ==
        filter(PredictState(kf, latest.state, measurement.timestamp - latest.timestamp), measurement)
  {
    KalmanPredictorLatest(kf, ws, measurement.timestamp - ws[|ws| - 1].timestamp);
  }
}
