/**
 * The self-contained Kalman track: a sequence of waypoints, each holding the measurement, the
 * prediction and the filtered estimate, extended by `new_measurement` and smoothed backwards by
 * the Rauch-Tung-Striebel pass `smooth`. The transition model is the constant-velocity model,
 * so states have four components. Instants are nanosecond counts handed in by the caller.
 */
module FilterTrack {
  import opened Wrappers
  import opened LinAlg
  import opened Time
  import opened MatrixInverse
  import opened KalmanMath
  import opened FilterModel

  /** The state dimension of the constant-velocity model: (x, y, vx, vy). */
  const SD: nat := 4

  datatype GaussianState = GaussianState(x: Vector, covar: Matrix)

  datatype Waypoint = Waypoint(timestamp: nat, measurement: Vector, prediction: GaussianState, estimate: GaussianState)

  datatype KalmanError = InversionFailure | NotInitialized

  datatype Ordering = Less | Equal | Greater

  predicate GaussianFits(g: GaussianState) {
    |g.x| == SD && IsMatrix(g.covar, SD, SD)
  }

  predicate WaypointFits(w: Waypoint, md: nat) {
    |w.measurement| == md && GaussianFits(w.prediction) && GaussianFits(w.estimate)
  }

  predicate AllFit(ws: seq<Waypoint>, md: nat) {
    forall k :: 0 <= k < |ws| ==> WaypointFits(ws[k], md)
  }

  lemma AllFitAppend(ws: seq<Waypoint>, w: Waypoint, md: nat)
    requires AllFit(ws, md) && WaypointFits(w, md)
    ensures AllFit(ws + [w], md)
  {
  }

  /** `KalmanTrack::predict`: propagates the prior through the transition model for `dtNanos`. */
  function Predict(tm: ConstantVelocity, dtNanos: nat, prior: GaussianState): (r: GaussianState)
    requires GaussianFits(prior)
    ensures GaussianFits(r)
  {
    var f := TransitionMatrix(tm, dtNanos);
    GaussianState(PredictMean(f, prior.x, SD), PredictCovar(f, prior.covar, TransitionError(tm, dtNanos), SD))
  }

  /** The innovation covariance `S = H P H^T + R` of a prediction. */
  function InnovationCovarOf(mm: MeasurementModel, md: nat, prediction: GaussianState): (s: Matrix)
    requires Fits(mm, md, SD) && GaussianFits(prediction)
    ensures IsMatrix(s, md, md)
  {
    InnovationCovar(MeasurementMatrix(mm, md, SD), prediction.covar, MeasurementError(mm, md, SD), md, SD)
  }

  /** `KalmanTrack::filter`: the measurement update, failing when `S` cannot be inverted. */
  function Filter(mm: MeasurementModel, md: nat, prediction: GaussianState, z: Vector): (r: Result<GaussianState, KalmanError>)
    requires Fits(mm, md, SD) && GaussianFits(prediction) && |z| == md
    ensures r.Err? <==> TryInverse(InnovationCovarOf(mm, md, prediction), md).None?
    ensures r.Err? ==> r.error == InversionFailure
    ensures r.Ok? ==> GaussianFits(r.value)
  {
    var h := MeasurementMatrix(mm, md, SD);
    var nu := Innovation(z, h, prediction.x, md, SD);
    var s := InnovationCovarOf(mm, md, prediction);
    match TryInverse(s, md)
    case None => Err(InversionFailure)
    case Some(sInv) =>
      var k := Gain(prediction.covar, h, sInv, md, SD);
      Ok(GaussianState(UpdateMean(prediction.x, k, nu, md, SD), UpdateCovar(prediction.covar, k, s, md, SD)))
  }

  // ---------------------------------------------------------------------------------------
  // Properties of a single prediction and update.

  /** The predicted mean moves the position by `dt` times the velocity and keeps the velocity. */
  lemma PredictMovesAtConstantVelocity(tm: ConstantVelocity, dtNanos: nat, prior: GaussianState)
    requires GaussianFits(prior)
    ensures var x := prior.x; var dt := DtSeconds(dtNanos);
      Predict(tm, dtNanos, prior).x == [x[0] + dt * x[2], x[1] + dt * x[3], x[2], x[3]]
  {
    CvMoves(DtSeconds(dtNanos), prior.x);
  }

  /** A step below one millisecond (in particular `dt = 0`) predicts the prior itself. */
  lemma PredictBelowOneMillisecond(tm: ConstantVelocity, dtNanos: nat, prior: GaussianState)
    requires GaussianFits(prior) && dtNanos < NANOS_PER_MILLI
    ensures Predict(tm, dtNanos, prior) == prior
  {
    TransitionBelowOneMillisecond(tm, dtNanos);
    PredictIdentity(prior.x, prior.covar, SD);
  }

  /** Prediction keeps a symmetric covariance symmetric. */
  lemma PredictKeepsSymmetry(tm: ConstantVelocity, dtNanos: nat, prior: GaussianState)
    requires GaussianFits(prior) && IsSymmetric(prior.covar, SD)
    ensures IsSymmetric(Predict(tm, dtNanos, prior).covar, SD)
  {
    TransitionErrorShape(tm, dtNanos);
    PredictCovarSymmetric(TransitionMatrix(tm, dtNanos), prior.covar, TransitionError(tm, dtNanos), SD);
  }

  /** An `InversionFailure` is only reported when `S` has no inverse at all. */
  lemma FilterFailsOnlyIfSingular(mm: MeasurementModel, md: nat, prediction: GaussianState, z: Vector, m: Matrix)
    requires Fits(mm, md, SD) && GaussianFits(prediction) && |z| == md && IsMatrix(m, md, md)
    requires Filter(mm, md, prediction, z).Err?
    ensures MatMul(InnovationCovarOf(mm, md, prediction), m, md) != Identity(md)
  {
    TryInverseNone(InnovationCovarOf(mm, md, prediction), md, m);
  }

  /** A measurement equal to the predicted measurement leaves the mean unchanged. */
  lemma FilterZeroInnovation(mm: MeasurementModel, md: nat, prediction: GaussianState, z: Vector)
    requires Fits(mm, md, SD) && GaussianFits(prediction) && |z| == md
    requires z == MatVec(MeasurementMatrix(mm, md, SD), prediction.x)
    requires Filter(mm, md, prediction, z).Ok?
    ensures Filter(mm, md, prediction, z).value.x == prediction.x
  {
    var h := MeasurementMatrix(mm, md, SD);
    var sInv := TryInverse(InnovationCovarOf(mm, md, prediction), md).value;
    ZeroInnovation(prediction.x, Gain(prediction.covar, h, sInv, md, SD), z, h, md, SD);
  }

  /**
   * A successful update is `x + K nu`, `P - K S K^T` for a gain that solves `K S = P H^T`,
   * and it keeps the covariance symmetric when the prediction and `R` are symmetric.
   */
  lemma FilterUpdate(mm: MeasurementModel, md: nat, prediction: GaussianState, z: Vector)
    requires Fits(mm, md, SD) && GaussianFits(prediction) && |z| == md
    requires Filter(mm, md, prediction, z).Ok?
    ensures var h := MeasurementMatrix(mm, md, SD);
      var s := InnovationCovarOf(mm, md, prediction);
      var k := Gain(prediction.covar, h, TryInverse(s, md).value, md, SD);
      var r := Filter(mm, md, prediction, z).value;
      && MatMul(k, s, md) == MatMul(prediction.covar, Transpose(h, SD), md)
      && r.x == AddV(prediction.x, MatVec(k, SubV(z, MatVec(h, prediction.x))))
      && r.covar == MatSub(prediction.covar, Congruence(k, s, SD, md))
      && (IsSymmetric(prediction.covar, SD) && IsSymmetric(MeasurementError(mm, md, SD), md)
          ==> IsSymmetric(r.covar, SD))
  {
    var h := MeasurementMatrix(mm, md, SD);
    var s := InnovationCovarOf(mm, md, prediction);
    var sInv := TryInverse(s, md).value;
    var k := Gain(prediction.covar, h, sInv, md, SD);
    TryInverseSome(s, md);
    GainEquation(prediction.covar, h, s, sInv, md, SD);
    if IsSymmetric(prediction.covar, SD) && IsSymmetric(MeasurementError(mm, md, SD), md) {
      InnovationCovarSymmetric(h, prediction.covar, MeasurementError(mm, md, SD), md, SD);
      UpdateCovarSymmetric(prediction.covar, k, s, md, SD);
    }
  }

  // ---------------------------------------------------------------------------------------
  // The backward smoothing pass.

  /** Rewrites the estimate of `w` from its smoothed successor `next`. */
  function SmoothStep(tm: ConstantVelocity, w: Waypoint, next: Waypoint, md: nat): (r: Result<Waypoint, KalmanError>)
    requires WaypointFits(w, md) && WaypointFits(next, md)
    ensures r.Err? <==> TryInverse(next.prediction.covar, SD).None?
    ensures r.Err? ==> r.error == InversionFailure
    ensures r.Ok? ==> WaypointFits(r.value, md)
    ensures r.Ok? ==> r.value.timestamp == w.timestamp && r.value.measurement == w.measurement
                      && r.value.prediction == w.prediction
  {
    var f := TransitionMatrix(tm, SaturatingSub(next.timestamp, w.timestamp));
    match TryInverse(next.prediction.covar, SD)
    case None => Err(InversionFailure)
    case Some(pInv) => Ok(w.(estimate := Smoothed(w.estimate, next, SmootherGain(w.estimate, f, pInv))))
  }

  /** The smoother gain `G = P F^T P_next^-1`. */
  function SmootherGain(estimate: GaussianState, f: Matrix, pInv: Matrix): (g: Matrix)
    requires GaussianFits(estimate) && IsMatrix(f, SD, SD) && IsMatrix(pInv, SD, SD)
    ensures IsMatrix(g, SD, SD)
  {
    MatMul(MatMul(estimate.covar, Transpose(f, SD), SD), pInv, SD)
  }

  /** The smoothed estimate `x + G (x_next - x_pred)`, `P + G (P_next - P_pred) G^T`. */
  function Smoothed(estimate: GaussianState, next: Waypoint, g: Matrix): (r: GaussianState)
    requires GaussianFits(estimate) && GaussianFits(next.estimate) && GaussianFits(next.prediction)
    requires IsMatrix(g, SD, SD)
    ensures GaussianFits(r)
  {
    var x := AddV(estimate.x, MatVec(g, SubV(next.estimate.x, next.prediction.x)));
    var p := MatAdd(estimate.covar, Congruence(g, MatSub(next.estimate.covar, next.prediction.covar), SD, SD));
    GaussianState(x, p)
  }

  /**
   * One smoothing step as a total function value; states of the wrong dimension cannot occur
   * (the matrices are statically sized) and are mapped to a failure.
   */
  function StepOf(tm: ConstantVelocity, md: nat): (step: (Waypoint, Waypoint) -> Result<Waypoint, KalmanError>)
    ensures forall w, next :: WaypointFits(w, md) && WaypointFits(next, md) ==>
      step(w, next) == SmoothStep(tm, w, next, md)
  {
    (w, next) => if WaypointFits(w, md) && WaypointFits(next, md) then SmoothStep(tm, w, next, md) else Err(InversionFailure)
  }

  /** `smooth` from loop index `i` down to 1: the outcome and the rewritten waypoints. */
  function SmoothPass(step: (Waypoint, Waypoint) -> Result<Waypoint, KalmanError>, ws: seq<Waypoint>, i: nat)
    : (Result<(), KalmanError>, seq<Waypoint>)
    requires i == 0 || i < |ws|
    decreases i
  {
    if i == 0 then (Ok(()), ws)
    else
      match step(ws[i - 1], ws[i])
      case Err(e) => (Err(e), ws)
      case Ok(w) => SmoothPass(step, ws[i - 1 := w], i - 1)
  }

  /** The first loop index, `len.saturating_sub(1)`. */
  function SmoothStart(len: nat): nat {
    if len == 0 then 0 else len - 1
  }

  /** The loop index at which the pass stopped on a failure, or 0 if it completed. */
  function SmoothStop(step: (Waypoint, Waypoint) -> Result<Waypoint, KalmanError>, ws: seq<Waypoint>, i: nat): (f: nat)
    requires i == 0 || i < |ws|
    decreases i
    ensures f <= i
  {
    if i == 0 then 0
    else
      match step(ws[i - 1], ws[i])
      case Err(_) => i
      case Ok(w) => SmoothStop(step, ws[i - 1 := w], i - 1)
  }

  /**
   * What the pass does, index by index: waypoints before the stopping index and from `i` on are
   * untouched; every waypoint in between is the step from its original value and its smoothed
   * successor; a failure at the stopping index is returned as is, with no rollback of the
   * waypoints already rewritten.
   */
  lemma {:induction false} SmoothPassCharacterized(step: (Waypoint, Waypoint) -> Result<Waypoint, KalmanError>, ws: seq<Waypoint>, i: nat)
    requires i == 0 || i < |ws|
    decreases i
    ensures var (res, out) := SmoothPass(step, ws, i); var f := SmoothStop(step, ws, i);
      && |out| == |ws|
      && (res.Ok? <==> f == 0)
      && (forall k :: 0 <= k < f ==> out[k] == ws[k])
      && (forall k :: i <= k < |ws| ==> out[k] == ws[k])
      && (forall k :: f <= k < i ==> step(ws[k], out[k + 1]) == Ok(out[k]))
      && (f > 0 ==> step(ws[f - 1], out[f]).Err? && res == Err(step(ws[f - 1], out[f]).error))
  {
    if i > 0 {
      match step(ws[i - 1], ws[i])
      case Err(_) =>
      case Ok(w) =>
        var ws' := ws[i - 1 := w];
        SmoothPassCharacterized(step, ws', i - 1);
    }
  }

  /**
   * The Rauch-Tung-Striebel pass over a track keeps the length, never changes a timestamp,
   * measurement or prediction, nor the last waypoint, and only fails on an inversion failure.
   */
  lemma SmoothPassFrame(tm: ConstantVelocity, ws: seq<Waypoint>, md: nat)
    requires AllFit(ws, md)
    ensures var (res, out) := SmoothPass(StepOf(tm, md), ws, SmoothStart(|ws|));
      && |out| == |ws|
      && (res.Err? ==> res.error == InversionFailure)
      && (|ws| > 0 ==> out[|ws| - 1] == ws[|ws| - 1])
      && forall k :: 0 <= k < |ws| ==>
           out[k].timestamp == ws[k].timestamp && out[k].measurement == ws[k].measurement
           && out[k].prediction == ws[k].prediction
  {
    var step := StepOf(tm, md);
    var i := SmoothStart(|ws|);
    SmoothPassCharacterized(step, ws, i);
    var (res, out) := SmoothPass(step, ws, i);
    var f := SmoothStop(step, ws, i);
    SmoothedFits(tm, ws, md, i, f, out);
    forall k | 0 <= k < |ws|
      ensures out[k].timestamp == ws[k].timestamp && out[k].measurement == ws[k].measurement
              && out[k].prediction == ws[k].prediction
    {
      if f <= k < i {
        assert step(ws[k], out[k + 1]) == Ok(out[k]);
      }
    }
  }

  /** Every waypoint the pass rewrites still has the track's dimensions. */
  lemma SmoothedFits(tm: ConstantVelocity, ws: seq<Waypoint>, md: nat, i: nat, f: nat, out: seq<Waypoint>)
    requires AllFit(ws, md) && |out| == |ws| && f <= i && (i == 0 || i < |ws|)
    requires forall k :: 0 <= k < f ==> out[k] == ws[k]
    requires forall k :: i <= k < |ws| ==> out[k] == ws[k]
    requires forall k :: f <= k < i ==> StepOf(tm, md)(ws[k], out[k + 1]) == Ok(out[k])
    ensures AllFit(out, md)
  {
    forall k | 0 <= k < |out|
      ensures WaypointFits(out[k], md)
    {
      SmoothedFitsAt(tm, ws, md, i, f, out, k);
    }
  }

  lemma {:induction false} SmoothedFitsAt(tm: ConstantVelocity, ws: seq<Waypoint>, md: nat, i: nat, f: nat, out: seq<Waypoint>, k: nat)
    requires AllFit(ws, md) && |out| == |ws| && f <= i && (i == 0 || i < |ws|) && k < |out|
    requires forall k :: 0 <= k < f ==> out[k] == ws[k]
    requires forall k :: i <= k < |ws| ==> out[k] == ws[k]
    requires forall k :: f <= k < i ==> StepOf(tm, md)(ws[k], out[k + 1]) == Ok(out[k])
    ensures WaypointFits(out[k], md)
    decreases |out| - k
  {
    if f <= k < i {
      SmoothedFitsAt(tm, ws, md, i, f, out, k + 1);
      assert StepOf(tm, md)(ws[k], out[k + 1]) == SmoothStep(tm, ws[k], out[k + 1], md);
    }
  }

  /** One iteration of the pass: the step on `ws[i - 1]`, then the rest of the pass. */
  lemma SmoothPassUnfold(tm: ConstantVelocity, ws: seq<Waypoint>, i: nat, md: nat)
    requires AllFit(ws, md) && 0 < i < |ws|
    ensures var next := SmoothStep(tm, ws[i - 1], ws[i], md);
      && (next.Err? ==> SmoothPass(StepOf(tm, md), ws, i) == (Err(next.error), ws))
      && (next.Ok? ==> SmoothPass(StepOf(tm, md), ws, i) == SmoothPass(StepOf(tm, md), ws[i - 1 := next.value], i - 1))
  {
    assert StepOf(tm, md)(ws[i - 1], ws[i]) == SmoothStep(tm, ws[i - 1], ws[i], md);
  }

  lemma SmoothPassAdvance(step: (Waypoint, Waypoint) -> Result<Waypoint, KalmanError>,
                          target: (Result<(), KalmanError>, seq<Waypoint>), ws: seq<Waypoint>, i: nat, w: Waypoint)
    requires 0 < i < |ws| && step(ws[i - 1], ws[i]) == Ok(w) && SmoothPass(step, ws, i) == target
    ensures SmoothPass(step, ws[i - 1 := w], i - 1) == target
  {
  }

  /** On a track of at most one waypoint the pass does nothing. */
  lemma SmoothSingleWaypoint(tm: ConstantVelocity, ws: seq<Waypoint>, md: nat)
    requires |ws| <= 1
    ensures SmoothPass(StepOf(tm, md), ws, SmoothStart(|ws|)) == (Ok(()), ws)
  {
  }

  // ---------------------------------------------------------------------------------------
  // Reading extremes off the track.

  /** `cmp_f64`: a total order on (non-NaN) values. */
  function CmpF64(a: real, b: real): (o: Ordering)
    ensures o == Less <==> a < b
    ensures o == Greater <==> a > b
    ensures o == Equal <==> a == b
  {
    if a < b then Less else if a > b then Greater else Equal
  }

  /** `Iterator::min_by` over values: the running minimum, keeping the earlier on ties. */
  function MinBy(vs: seq<real>): real
    requires |vs| > 0
  {
    if |vs| == 1 then vs[0]
    else
      var m := MinBy(vs[..|vs| - 1]);
      if CmpF64(m, vs[|vs| - 1]) == Greater then vs[|vs| - 1] else m
  }

  /** `Iterator::max_by` over values: the running maximum, keeping the later on ties. */
  function MaxBy(vs: seq<real>): real
    requires |vs| > 0
  {
    if |vs| == 1 then vs[0]
    else
      var m := MaxBy(vs[..|vs| - 1]);
      if CmpF64(m, vs[|vs| - 1]) == Greater then m else vs[|vs| - 1]
  }

  lemma {:induction false} MinByIsMinimum(vs: seq<real>)
    requires |vs| > 0
    ensures MinBy(vs) in vs
    ensures forall k :: 0 <= k < |vs| ==> MinBy(vs) <= vs[k]
  {
    if |vs| > 1 {
      var init := vs[..|vs| - 1];
      MinByIsMinimum(init);
      assert forall k :: 0 <= k < |init| ==> init[k] == vs[k];
    }
  }

  lemma {:induction false} MaxByIsMaximum(vs: seq<real>)
    requires |vs| > 0
    ensures MaxBy(vs) in vs
    ensures forall k :: 0 <= k < |vs| ==> vs[k] <= MaxBy(vs)
  {
    if |vs| > 1 {
      var init := vs[..|vs| - 1];
      MaxByIsMaximum(init);
      assert forall k :: 0 <= k < |init| ==> init[k] == vs[k];
    }
  }

  /** Component `index` of every estimate, oldest first. */
  function EstimateComponent(ws: seq<Waypoint>, index: nat): (vs: seq<real>)
    requires forall k :: 0 <= k < |ws| ==> index < |ws[k].estimate.x|
    ensures |vs| == |ws| && forall k :: 0 <= k < |ws| ==> vs[k] == ws[k].estimate.x[index]
  {
    seq(|ws|, k requires 0 <= k < |ws| => ws[k].estimate.x[index])
  }

  /** `min_max_with_index`: the smallest and largest estimate component, if there are waypoints. */
  function MinMaxWithIndex(ws: seq<Waypoint>, index: nat): (r: Option<(real, real)>)
    requires forall k :: 0 <= k < |ws| ==> index < |ws[k].estimate.x|
    ensures r.Some? <==> |ws| > 0
    ensures r.Some? ==> (exists k :: 0 <= k < |ws| && ws[k].estimate.x[index] == r.value.0)
    ensures r.Some? ==> (exists k :: 0 <= k < |ws| && ws[k].estimate.x[index] == r.value.1)
    ensures r.Some? ==> forall k :: 0 <= k < |ws| ==>
                          r.value.0 <= ws[k].estimate.x[index] <= r.value.1
  {
    if |ws| == 0 then None
    else
      var vs := EstimateComponent(ws, index);
      MinByIsMinimum(vs);
      MaxByIsMaximum(vs);
      Some((MinBy(vs), MaxBy(vs)))
  }

  // ---------------------------------------------------------------------------------------

  class KalmanTrack {
    const transitionModel: ConstantVelocity
    const measurementModel: MeasurementModel
    /** The measurement dimension. */
    const md: nat
    var track: seq<Waypoint>

    ghost predicate Valid()
      reads this
    {
      Fits(measurementModel, md, SD) && AllFit(track, md) && |track| > 0
    }

    /** `KalmanTrack::new`, with `now` standing for `Instant::now()`. */
    constructor(initialState: GaussianState, tm: ConstantVelocity, mm: MeasurementModel, md: nat, now: nat)
      requires GaussianFits(initialState) && Fits(mm, md, SD)
      ensures Valid()
      ensures transitionModel == tm && measurementModel == mm && this.md == md
      ensures track == [Waypoint(now, Zeros(md), initialState, initialState)]
    {
      transitionModel := tm;
      measurementModel := mm;
      this.md := md;
      track := [Waypoint(now, Zeros(md), initialState, initialState)];
    }

    method Reset(initialState: Waypoint)
      requires Valid() && WaypointFits(initialState, md)
      modifies this
      ensures Valid() && track == [initialState]
    {
      track := [initialState];
    }

    /**
     * `new_measurement` at instant `now` with measurement vector `z`: predicts from the last
     * estimate, filters, and appends the new waypoint only if the update succeeded. The track is
     * never empty (`new` and `reset` leave one waypoint, nothing removes any, and `Valid` says
     * so), so the source's `NotInitialized` guard never fires.
     */
    method NewMeasurement(now: nat, z: Vector) returns (r: Result<(), KalmanError>)
      requires Valid() && |z| == md
      modifies this
      ensures Valid() && r != Err(NotInitialized)
      ensures
        var prior := old(track)[|old(track)| - 1];
        var prediction := Predict(transitionModel, SaturatingSub(now, prior.timestamp), prior.estimate);
        var estimate := Filter(measurementModel, md, prediction, z);
        && (estimate.Err? ==> r == Err(InversionFailure) && track == old(track))
        && (estimate.Ok? ==> r == Ok(()) && track == old(track) + [Waypoint(now, z, prediction, estimate.value)])
    {
      if |track| == 0 {
        return Err(NotInitialized);
      }
      var prior := track[|track| - 1];
      var dt := SaturatingSub(now, prior.timestamp);
      var prediction := Predict(transitionModel, dt, prior.estimate);
      var estimate := Filter(measurementModel, md, prediction, z);
      if estimate.Err? {
        return Err(estimate.error);
      }
      var w := Waypoint(now, z, prediction, estimate.value);
      AllFitAppend(track, w, md);
      track := track + [w];
      return Ok(());
    }

    /** `smooth`: the backward pass over the whole track, rewriting estimates in place. */
    method Smooth() returns (r: Result<(), KalmanError>)
      requires Valid()
      modifies this
      ensures Valid() && |track| == |old(track)|
      ensures (r, track) == SmoothPass(StepOf(transitionModel, md), old(track), SmoothStart(|old(track)|))
    {
      SmoothPassFits(transitionModel, track, md);
      SmoothPassFrame(transitionModel, track, md);
      r, track := RunSmoothPass(StepOf(transitionModel, md), track);
    }
  }

  /** The loop of `smooth` over the waypoints `ws`, from the last index down to 1. */
  method RunSmoothPass(step: (Waypoint, Waypoint) -> Result<Waypoint, KalmanError>, ws0: seq<Waypoint>)
    returns (r: Result<(), KalmanError>, ws: seq<Waypoint>)
    ensures (r, ws) == SmoothPass(step, ws0, SmoothStart(|ws0|))
  {
    ghost var target := SmoothPass(step, ws0, SmoothStart(|ws0|));
    ws := ws0;
    var i: nat := SmoothStart(|ws|);
    while i > 0
      invariant |ws| == |ws0| && (i == 0 || i < |ws|)
      invariant SmoothPass(step, ws, i) == target
      decreases i
    {
      var next := step(ws[i - 1], ws[i]);
      if next.Err? {
        return Err(next.error), ws;
      }
      ws := ws[i - 1 := next.value];
      i := i - 1;
    }
    return Ok(()), ws;
  }

  /** The smoothed waypoints keep the dimensions of the track. */
  lemma SmoothPassFits(tm: ConstantVelocity, ws: seq<Waypoint>, md: nat)
    requires AllFit(ws, md)
    ensures AllFit(SmoothPass(StepOf(tm, md), ws, SmoothStart(|ws|)).1, md)
  {
    var step := StepOf(tm, md);
    var i := SmoothStart(|ws|);
    SmoothPassCharacterized(step, ws, i);
    SmoothedFits(tm, ws, md, i, SmoothStop(step, ws, i), SmoothPass(step, ws, i).1);
  }
}
