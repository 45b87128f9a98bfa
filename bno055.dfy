/**
 * The BNO055 inertial sensor of `src/devices/bno055.rs` on an I2C bus. A register read is a
 * write of the first register's address followed by a read of the bytes from there on. The
 * sensor's values are two's complement, low byte first.
 */
module Bno055 {
  import opened Wrappers
  import opened Bytes
  import opened Bus
  import opened Kinematics
  import opened Coordinates

  datatype Vector3 = Vector3(x: real, y: real, z: real)

  /** A quaternion `w + i·I + j·J + k·K`. */
  datatype Quaternion = Quaternion(w: real, i: real, j: real, k: real)

  /** A failed bus transfer, or an orientation that cannot be inverted. */
  datatype Bno055Error = I2CError | InversionError

  /** What the driver sees of the bus: attempts, the log of writes and the reads to come. */
  datatype I2CState = I2CState(attempts: nat, written: seq<seq<u8>>, responses: seq<Option<seq<u8>>>)

  function StateOf(device: I2CDevice): I2CState
    reads device
  {
    I2CState(device.attempts, device.written, device.responses)
  }

  /** `read`: the register address written, then `n` bytes read; no read when the write fails. */
  function ReadStep(failing: set<nat>, s: I2CState, reg: u8, n: nat): (Option<seq<u8>>, I2CState) {
    if s.attempts in failing then (None, s.(attempts := s.attempts + 1))
    else (ReadOutcome(s.responses, n), I2CState(s.attempts + 1, s.written + [[reg]], AfterResponse(s.responses)))
  }

  /** Two bytes, low byte first, as a signed value: `i16::from_be_bytes([hi, lo])`. */
  function I16FromLeBytes(lo: u8, hi: u8): i16 {
    I16FromBeBytes(hi, lo)
  }

  /** `higher_pass_filter`: values up to the drift threshold of 0.1 count as no acceleration. */
  function HigherPassFilter(v: real): real {
    if v <= 0.1 then 0.0 else v
  }

  /**
   * The filter keeps exactly the values above the threshold and zeroes the rest, the negative
   * ones included; filtering twice is filtering once.
   */
  lemma HigherPassFilterSpec(v: real)
    ensures HigherPassFilter(v) == 0.0 <==> v <= 0.1
    ensures HigherPassFilter(v) != 0.0 ==> HigherPassFilter(v) == v && v > 0.1
    ensures HigherPassFilter(v) >= 0.0
    ensures HigherPassFilter(HigherPassFilter(v)) == HigherPassFilter(v)
  {
  }

  /** `read_linear_acceleration` on the four bytes from register `0x28`: hundredths of m/s², filtered; no z. */
  function LinearAccelerationOf(buf: seq<u8>): Vector3
    requires |buf| == 4
  {
    Vector3(HigherPassFilter(I16FromLeBytes(buf[0], buf[1]) as real / 100.0),
            HigherPassFilter(I16FromLeBytes(buf[2], buf[3]) as real / 100.0),
            HigherPassFilter(0 as real / 100.0))
  }

  /**
   * The sensor's axes come back: two signed values sent low byte first are read as themselves,
   * in hundredths, filtered, and the vertical axis is always zero.
   */
  lemma LinearAccelerationRoundTrip(ax: i16, ay: i16)
    ensures var (xh, xl) := I16ToBeBytes(ax); var (yh, yl) := I16ToBeBytes(ay);
      LinearAccelerationOf([xl, xh, yl, yh]) ==
        Vector3(HigherPassFilter(ax as real / 100.0), HigherPassFilter(ay as real / 100.0), 0.0)
  {
    I16BeRoundTrip(ax, 0, 0);
    I16BeRoundTrip(ay, 0, 0);
  }

  /** `read_orientation_as_quaternion` on the eight bytes from register `0x20`: units of 2^-14. */
  function QuaternionOf(buf: seq<u8>): Quaternion
    requires |buf| == 8
  {
    Quaternion(I16FromLeBytes(buf[0], buf[1]) as real / 16384.0,
               I16FromLeBytes(buf[2], buf[3]) as real / 16384.0,
               I16FromLeBytes(buf[4], buf[5]) as real / 16384.0,
               I16FromLeBytes(buf[6], buf[7]) as real / 16384.0)
  }

  /** Every component of a read orientation lies in [-2, 2); a unit quaternion fits. */
  lemma QuaternionBounds(buf: seq<u8>)
    requires |buf| == 8
    ensures var q := QuaternionOf(buf);
      && -2.0 <= q.w < 2.0 && -2.0 <= q.i < 2.0 && -2.0 <= q.j < 2.0 && -2.0 <= q.k < 2.0
  {
  }

  /** The Hamilton product. */
  function Mul(p: Quaternion, q: Quaternion): Quaternion {
    Quaternion(p.w * q.w - p.i * q.i - p.j * q.j - p.k * q.k,
               p.w * q.i + p.i * q.w + p.j * q.k - p.k * q.j,
               p.w * q.j - p.i * q.k + p.j * q.w + p.k * q.i,
               p.w * q.k + p.i * q.j - p.j * q.i + p.k * q.w)
  }

  /** `orientation * (0, v) * inverse`: the local vector turned into the global frame. */
  function Rotated(orientation: Quaternion, inverse: Quaternion, v: Vector3): Quaternion {
    Mul(Mul(orientation, Quaternion(0.0, v.x, v.y, v.z)), inverse)
  }

  /** The quaternion's coordinates in the order its indexing uses: `i, j, k`, then `w`. */
  function Coords(q: Quaternion): (c: seq<real>)
    ensures |c| == 4
  {
    [q.i, q.j, q.k, q.w]
  }

  /** The acceleration as written: the coordinates at indices 1 and 2, that is `j` and `k`. */
  function GlobalAccelerationAsWritten(rotated: Quaternion): Acceleration {
    Acceleration(Coords(rotated)[1], Coords(rotated)[2])
  }

  /** The acceleration as intended: the east and north components `i` and `j`. */
  function GlobalAcceleration(rotated: Quaternion): Acceleration {
    Acceleration(rotated.i, rotated.j)
  }

  const IDENTITY: Quaternion := Quaternion(1.0, 0.0, 0.0, 0.0)

  /** The identity orientation turns nothing. */
  lemma IdentityRotated(v: Vector3)
    ensures Rotated(IDENTITY, IDENTITY, v) == Quaternion(0.0, v.x, v.y, v.z)
  {
    var q := Quaternion(0.0, v.x, v.y, v.z);
    assert Mul(IDENTITY, q) == q;
    assert Mul(q, IDENTITY) == q;
  }

  /** A sensor lying level and facing east: the global acceleration is the local one. */
  lemma IdentityOrientation(v: Vector3)
    ensures GlobalAcceleration(Rotated(IDENTITY, IDENTITY, v)) == Acceleration(v.x, v.y)
  {
    IdentityRotated(v);
  }

  /**
   * The discrepancy: for the level, east-facing sensor the value as written is the local `y` and
   * `z` axes, so an acceleration along `x` (1 m/s² east) is reported as none.
   */
  lemma AsWrittenLosesEast(v: Vector3)
    ensures GlobalAccelerationAsWritten(Rotated(IDENTITY, IDENTITY, v)) == Acceleration(v.y, v.z)
    ensures GlobalAccelerationAsWritten(Rotated(IDENTITY, IDENTITY, Vector3(1.0, 0.0, 0.0))) == Acceleration(0.0, 0.0)
    ensures GlobalAcceleration(Rotated(IDENTITY, IDENTITY, Vector3(1.0, 0.0, 0.0))) == Acceleration(1.0, 0.0)
  {
    IdentityRotated(v);
    IdentityRotated(Vector3(1.0, 0.0, 0.0));
  }

  /**
   * A sensor level but turned about the vertical axis (the unit quaternion `w + k·K`, inverted
   * by its conjugate): the acceleration is turned in the plane by the angle whose cosine is
   * `w² - k²` and sine `2wk`, keeps its magnitude and gains no vertical part.
   */
  lemma YawRotation(w: real, k: real, v: Vector3)
    requires w * w + k * k == 1.0 && v.z == 0.0
    ensures var r := Rotated(Quaternion(w, 0.0, 0.0, k), Quaternion(w, 0.0, 0.0, -k), v);
      && r.i == (w * w - k * k) * v.x - 2.0 * w * k * v.y
      && r.j == 2.0 * w * k * v.x + (w * w - k * k) * v.y
      && r.k == 0.0
      && r.i * r.i + r.j * r.j == v.x * v.x + v.y * v.y
  {
    var c, s := w * w - k * k, 2.0 * w * k;
    YawComponents(w, k, v);
    UnitDoubleAngle(w, k);
    PlaneTurnKeepsLength(c, s, v.x, v.y);
  }

  lemma YawComponents(w: real, k: real, v: Vector3)
    requires v.z == 0.0
    ensures Rotated(Quaternion(w, 0.0, 0.0, k), Quaternion(w, 0.0, 0.0, -k), v) ==
      Quaternion(0.0, (w * w - k * k) * v.x - 2.0 * w * k * v.y, 2.0 * w * k * v.x + (w * w - k * k) * v.y, 0.0)
  {
    var a, b := w * v.x - k * v.y, w * v.y + k * v.x;
    assert Quaternion(0.0, v.x, v.y, v.z) == Quaternion(0.0, v.x, v.y, 0.0);
    YawHalfTurn(w, k, v.x, v.y);
    YawSecondTurn(a, b, w, k);
    YawExpand(w, k, v.x, v.y);
  }

  /** Turning a plane vector by a point of the unit circle keeps its length. */
  lemma PlaneTurnKeepsLength(c: real, s: real, x: real, y: real)
    requires c * c + (-s) * (-s) == 1.0
    ensures (c * x - s * y) * (c * x - s * y) + (s * x + c * y) * (s * x + c * y) == x * x + y * y
  {
    var u := Rotate(Velocity2D(x, y), c, -s);
    assert u.vx == c * x - s * y && u.vy == s * x + c * y;
    RotateKeepsSpeed(Velocity2D(x, y), c, -s);
  }

  /** The second product: `(a·I + b·J)(w - k·K)`. */
  lemma YawSecondTurn(a: real, b: real, w: real, k: real)
    ensures Mul(Quaternion(0.0, a, b, 0.0), Quaternion(w, 0.0, 0.0, -k)) == Quaternion(0.0, a * w - b * k, a * k + b * w, 0.0)
  {
  }

  /** The doubled angle of a unit quaternion is again on the unit circle. */
  lemma UnitDoubleAngle(w: real, k: real)
    requires w * w + k * k == 1.0
    ensures (w * w - k * k) * (w * w - k * k) + (-(2.0 * w * k)) * (-(2.0 * w * k)) == 1.0
  {
    DoubleAngle(w, k);
  }

  /** The first product: `(w + k·K)(x·I + y·J)`. */
  lemma YawHalfTurn(w: real, k: real, x: real, y: real)
    ensures Mul(Quaternion(w, 0.0, 0.0, k), Quaternion(0.0, x, y, 0.0)) == Quaternion(0.0, w * x - k * y, w * y + k * x, 0.0)
  {
  }

  lemma YawExpand(w: real, k: real, x: real, y: real)
    ensures (w * x - k * y) * w - (w * y + k * x) * k == (w * w - k * k) * x - 2.0 * w * k * y
    ensures (w * x - k * y) * k + (w * y + k * x) * w == 2.0 * w * k * x + (w * w - k * k) * y
  {
  }

  /** `cos² + sin² = (w² + k²)²` for the doubled angle. */
  lemma DoubleAngle(w: real, k: real)
    ensures (w * w - k * k) * (w * w - k * k) + (2.0 * w * k) * (2.0 * w * k) == (w * w + k * k) * (w * w + k * k)
  {
  }

  /**
   * The shape of `get_acceleration_global_frame` for a given way of reading the plane
   * components off the rotated quaternion: the linear acceleration, then the orientation, each
   * read stopping the call on an error, then the orientation inverted (`try_inverse`, a
   * parameter) and the acceleration rotated into the global frame.
   */
  function AccelerationStepBy(failing: set<nat>, s: I2CState, tryInverse: Quaternion -> Option<Quaternion>,
                              extract: Quaternion -> Acceleration)
    : (Result<Acceleration, Bno055Error>, I2CState)
  {
    var (lin, s1) := ReadStep(failing, s, 0x28, 4);
    if lin.None? then (Err(I2CError), s1)
    else
      var (quat, s2) := ReadStep(failing, s1, 0x20, 8);
      if quat.None? then (Err(I2CError), s2)
      else
        var orientation := QuaternionOf(quat.value);
        match tryInverse(orientation)
        case None => (Err(InversionError), s2)
        case Some(inverse) =>
          (Ok(extract(Rotated(orientation, inverse, LinearAccelerationOf(lin.value)))), s2)
  }

  /** `get_acceleration_global_frame` as written: indices 1 and 2 of the rotated quaternion. */
  function AccelerationStep(failing: set<nat>, s: I2CState, tryInverse: Quaternion -> Option<Quaternion>)
    : (Result<Acceleration, Bno055Error>, I2CState)
  {
    AccelerationStepBy(failing, s, tryInverse, GlobalAccelerationAsWritten)
  }

  /** `get_acceleration_global_frame` as intended: the `i` and `j` parts of the rotated quaternion. */
  function AccelerationStepIntended(failing: set<nat>, s: I2CState, tryInverse: Quaternion -> Option<Quaternion>)
    : (Result<Acceleration, Bno055Error>, I2CState)
  {
    AccelerationStepBy(failing, s, tryInverse, GlobalAcceleration)
  }

  /**
   * An acceleration comes out exactly when both register addresses are written, both reads
   * return data and the orientation can be inverted; the orientation is read only after the
   * acceleration was, and each read writes its register address first.
   */
  lemma AccelerationAvailable(failing: set<nat>, s: I2CState, tryInverse: Quaternion -> Option<Quaternion>)
    ensures var (r, s2) := AccelerationStep(failing, s, tryInverse);
      && (r.Ok? <==>
            && s.attempts !in failing && ReadOutcome(s.responses, 4).Some?
            && s.attempts + 1 !in failing && ReadOutcome(AfterResponse(s.responses), 8).Some?
            && tryInverse(QuaternionOf(ReadOutcome(AfterResponse(s.responses), 8).value)).Some?)
      && (r == Err(InversionError) ==> s2.written == s.written + [[0x28], [0x20]])
      && s.attempts + 1 <= s2.attempts <= s.attempts + 2
      && (s.attempts in failing ==> s2 == s.(attempts := s.attempts + 1))
  {
  }

  /**
   * The step as written and the step as intended read the bus alike and fail alike; they differ
   * only in the reported components, the first of the one being the second of the other.
   */
  lemma AsWrittenShiftsComponents(failing: set<nat>, s: I2CState, tryInverse: Quaternion -> Option<Quaternion>)
    ensures var (r, s2) := AccelerationStep(failing, s, tryInverse);
      var (q, s3) := AccelerationStepIntended(failing, s, tryInverse);
      && s2 == s3 && r.Ok? == q.Ok?
      && (r.Err? ==> r == q)
      && (r.Ok? ==> r.value.ax == q.value.ay)
  {
  }

  /**
   * A level, east-facing sensor on a bus that delivers: the driver as written reports the local
   * `y` axis as east and nothing as north, so the local acceleration along `x` is lost; the step
   * as intended reports the local `x` and `y`.
   */
  lemma DriverIdentityOrientation(failing: set<nat>, s: I2CState, tryInverse: Quaternion -> Option<Quaternion>,
                                  lin: seq<u8>)
    requires s.attempts !in failing && s.attempts + 1 !in failing
    requires |lin| == 4 && |s.responses| >= 2 && s.responses[0] == Some(lin)
    requires s.responses[1] == Some([0, 64, 0, 0, 0, 0, 0, 0]) && tryInverse(IDENTITY) == Some(IDENTITY)
    ensures var v := LinearAccelerationOf(lin);
      && AccelerationStep(failing, s, tryInverse).0 == Ok(Acceleration(v.y, 0.0))
      && AccelerationStepIntended(failing, s, tryInverse).0 == Ok(Acceleration(v.x, v.y))
  {
    var v := LinearAccelerationOf(lin);
    var quat: seq<u8> := [0, 64, 0, 0, 0, 0, 0, 0];
    assert Fit(lin, 4) == lin;
    assert ReadOutcome(s.responses, 4) == Some(lin);
    assert AfterResponse(s.responses)[0] == Some(quat);
    assert Fit(quat, 8) == quat;
    assert ReadOutcome(AfterResponse(s.responses), 8) == Some(quat);
    assert I16FromLeBytes(0, 64) == 16384;
    assert QuaternionOf([0, 64, 0, 0, 0, 0, 0, 0]) == IDENTITY;
    IdentityRotated(v);
    assert v.z == 0.0;
  }

  /**
   * The discrepancy on the bus: one unit of east acceleration (100 hundredths) with the
   * identity orientation is reported by the driver as written as no acceleration at all.
   */
  lemma DriverLosesEast(failing: set<nat>, s: I2CState, tryInverse: Quaternion -> Option<Quaternion>)
    requires s.attempts !in failing && s.attempts + 1 !in failing
    requires |s.responses| >= 2 && s.responses[0] == Some([100, 0, 0, 0])
    requires s.responses[1] == Some([0, 64, 0, 0, 0, 0, 0, 0]) && tryInverse(IDENTITY) == Some(IDENTITY)
    ensures AccelerationStep(failing, s, tryInverse).0 == Ok(Acceleration(0.0, 0.0))
    ensures AccelerationStepIntended(failing, s, tryInverse).0 == Ok(Acceleration(1.0, 0.0))
  {
    DriverIdentityOrientation(failing, s, tryInverse, [100, 0, 0, 0]);
    assert I16FromLeBytes(100, 0) == 100 && I16FromLeBytes(0, 0) == 0;
    assert LinearAccelerationOf([100, 0, 0, 0]) == Vector3(1.0, 0.0, 0.0);
  }

  /**
   * A level sensor turned about the vertical axis: as written, the reported north component is
   * always zero and the reported east component is the true north one.
   */
  lemma AsWrittenYaw(w: real, k: real, v: Vector3)
    requires w * w + k * k == 1.0 && v.z == 0.0
    ensures var r := Rotated(Quaternion(w, 0.0, 0.0, k), Quaternion(w, 0.0, 0.0, -k), v);
      GlobalAccelerationAsWritten(r) == Acceleration(GlobalAcceleration(r).ay, 0.0)
  {
    YawComponents(w, k, v);
  }

  /** The writes that set the sensor up: configuration mode, reset, normal power, page 0, start, fusion mode. */
  const INIT_WRITES: seq<seq<u8>> := [[0x3D, 0x00], [0x3F, 0x20], [0x3E, 0x00], [0x07, 0x00], [0x3F, 0x00], [0x3D, 0x0C]]

  class BNO055 {
    const device: I2CDevice

    constructor(device: I2CDevice)
      ensures this.device == device
    {
      this.device := device;
    }

    /** `read`. */
    method Read(reg: u8, n: nat) returns (r: Option<seq<u8>>)
      modifies device
      ensures (r, StateOf(device)) == ReadStep(device.failing, old(StateOf(device)), reg, n)
    {
      var ok := device.Write([reg]);
      if !ok {
        return None;
      }
      r := device.Read(n);
    }

    method ReadLinearAcceleration() returns (r: Result<Vector3, Bno055Error>)
      modifies device
      ensures var (b, s) := ReadStep(device.failing, old(StateOf(device)), 0x28, 4);
        && StateOf(device) == s
        && r == if b.Some? then Ok(LinearAccelerationOf(b.value)) else Err(I2CError)
    {
      var b := Read(0x28, 4);
      if b.None? {
        return Err(I2CError);
      }
      r := Ok(LinearAccelerationOf(b.value));
    }

    method ReadOrientationAsQuaternion() returns (r: Result<Quaternion, Bno055Error>)
      modifies device
      ensures var (b, s) := ReadStep(device.failing, old(StateOf(device)), 0x20, 8);
        && StateOf(device) == s
        && r == if b.Some? then Ok(QuaternionOf(b.value)) else Err(I2CError)
    {
      var b := Read(0x20, 8);
      if b.None? {
        return Err(I2CError);
      }
      r := Ok(QuaternionOf(b.value));
    }

    method GetAccelerationGlobalFrame(tryInverse: Quaternion -> Option<Quaternion>)
      returns (r: Result<Acceleration, Bno055Error>)
      modifies device
      ensures (r, StateOf(device)) == AccelerationStep(device.failing, old(StateOf(device)), tryInverse)
    {
      var linear := ReadLinearAcceleration();
      if linear.Err? {
        return Err(linear.error);
      }
      var orientation := ReadOrientationAsQuaternion();
      if orientation.Err? {
        return Err(orientation.error);
      }
      var inverse := tryInverse(orientation.value);
      if inverse.None? {
        return Err(InversionError);
      }
      r := Ok(GlobalAccelerationAsWritten(Rotated(orientation.value, inverse.value, linear.value)));
    }

    /** `Iterator::next`: the acceleration, or none on any error. */
    method Next(tryInverse: Quaternion -> Option<Quaternion>) returns (r: Option<Acceleration>)
      modifies device
      ensures var (a, s) := AccelerationStep(device.failing, old(StateOf(device)), tryInverse);
        r == a.ToOption() && StateOf(device) == s
    {
      var a := GetAccelerationGlobalFrame(tryInverse);
      r := a.ToOption();
    }
  }

  /**
   * `BNO055::new` on an opened bus: the six set-up writes in order, stopping at the first error.
   * The pause after the reset is not modelled.
   */
  method Open(device: I2CDevice) returns (r: Option<BNO055>)
    modifies device
    ensures r.Some? <==> FirstFailure(device.failing, old(device.attempts), 6).None?
    ensures r.Some? ==> fresh(r.value) && r.value.device == device
    ensures WroteUntilFailure(device.failing, old(device.attempts), old(device.written), INIT_WRITES,
                              device.written, device.attempts)
    ensures device.responses == old(device.responses)
  {
    ghost var start, w0 := device.attempts, device.written;
    assert INIT_WRITES[..0] == [];
    var ok := WriteNext(device, INIT_WRITES, 0, start, w0);
    if !ok { return None; }
    ok := WriteNext(device, INIT_WRITES, 1, start, w0);
    if !ok { return None; }
    ok := WriteNext(device, INIT_WRITES, 2, start, w0);
    if !ok { return None; }
    ok := WriteNext(device, INIT_WRITES, 3, start, w0);
    if !ok { return None; }
    ok := WriteNext(device, INIT_WRITES, 4, start, w0);
    if !ok { return None; }
    ok := WriteNext(device, INIT_WRITES, 5, start, w0);
    if !ok { return None; }
    assert INIT_WRITES[..6] == INIT_WRITES;
    AllDelivered(device.failing, start, w0, INIT_WRITES);
    var sensor := new BNO055(device);
    r := Some(sensor);
  }
}
