/**
 * The velocity sensors: `AccelerationToVelocity` of `src/sensor/velocity.rs`, which integrates
 * accelerations by the trapezoid rule, and the two sensors that turn a travelled distance and an
 * orientation into a velocity, `OrientedVelocity` of `src/sensor_utils/velocity.rs` (distances in
 * millimetres) and `SimpleVelocitySensor` of `sensors/src/lib.rs` (no unit factor). The clock is
 * the `now` argument, in nanoseconds; cosine and sine are given functions.
 */
module Kinematics {
  import opened Wrappers
  import opened Time
  import opened SensorLogic
  import opened Coordinates

  datatype Acceleration = Acceleration(ax: real, ay: real)

  /** An acceleration sample and the instant it was taken. */
  datatype Moment = Moment(timestamp: nat, acceleration: Acceleration)

  datatype Orientation = Orientation(radian: real)

  datatype DistanceMM = DistanceMM(dx: real, dy: real)

  /** `Duration::as_secs_f64`. */
  function Seconds(nanos: nat): real {
    nanos as real / NANOS_PER_SEC as real
  }

  /** One trapezoid step: the previous velocity plus the mean of the two accelerations times `dt`. */
  function Trapezoid(v: Velocity2D, prev: Acceleration, next: Acceleration, dt: real): Velocity2D {
    Velocity2D(v.vx + 0.5 * dt * (next.ax + prev.ax), v.vy + 0.5 * dt * (next.ay + prev.ay))
  }

  /** Under a constant acceleration the step adds exactly acceleration times time. */
  lemma TrapezoidConstant(v: Velocity2D, a: Acceleration, dt: real)
    ensures Trapezoid(v, a, a, dt) == Velocity2D(v.vx + a.ax * dt, v.vy + a.ay * dt)
  {
    var t := Trapezoid(v, a, a, dt);
    assert 0.5 * dt * (a.ax + a.ax) == dt * a.ax by {
      assert 0.5 * (a.ax + a.ax) == a.ax;
    }
    assert 0.5 * dt * (a.ay + a.ay) == dt * a.ay by {
      assert 0.5 * (a.ay + a.ay) == a.ay;
    }
    assert t.vx == v.vx + a.ax * dt && t.vy == v.vy + a.ay * dt;
  }

  /**
   * Under an acceleration that changes linearly by `j` per second the step is the exact
   * integral, `a·dt + j·dt²/2`.
   */
  lemma TrapezoidLinear(v: Velocity2D, a: Acceleration, j: Acceleration, dt: real)
    ensures Trapezoid(v, a, Acceleration(a.ax + j.ax * dt, a.ay + j.ay * dt), dt)
         == Velocity2D(v.vx + a.ax * dt + 0.5 * j.ax * dt * dt, v.vy + a.ay * dt + 0.5 * j.ay * dt * dt)
  {
  }

  /** The step does not depend on which of the two samples came first. */
  lemma TrapezoidSymmetric(v: Velocity2D, a: Acceleration, b: Acceleration, dt: real)
    ensures Trapezoid(v, a, b, dt) == Trapezoid(v, b, a, dt)
  {
  }

  /** A step of no time, or between two zero accelerations, keeps the velocity. */
  lemma TrapezoidKeeps(v: Velocity2D, a: Acceleration, b: Acceleration, dt: real)
    requires dt == 0.0 || (a == Acceleration(0.0, 0.0) && b == Acceleration(0.0, 0.0))
    ensures Trapezoid(v, a, b, dt) == v
  {
  }

  class AccelerationToVelocity {
    var lastMoment: Moment
    var velocity: Velocity2D
    const accelerationSensor: Source<Acceleration>

    /** `new`: at rest, with a zero acceleration sample taken now. */
    constructor(sensor: Source<Acceleration>, now: nat)
      ensures lastMoment == Moment(now, Acceleration(0.0, 0.0)) && velocity == Velocity2D(0.0, 0.0)
      ensures accelerationSensor == sensor
    {
      lastMoment := Moment(now, Acceleration(0.0, 0.0));
      velocity := Velocity2D(0.0, 0.0);
      accelerationSensor := sensor;
    }

    /**
     * `next`: a sample moves the velocity one trapezoid step over the time since the last
     * sample, which it replaces; no sample changes nothing.
     */
    method Next(now: nat) returns (r: Option<Velocity2D>)
      modifies this, accelerationSensor
      ensures accelerationSensor.items == AfterItem(old(accelerationSensor.items))
      ensures accelerationSensor.polls == old(accelerationSensor.polls) + 1
      ensures NextItem(old(accelerationSensor.items)).None? ==>
        r == None && velocity == old(velocity) && lastMoment == old(lastMoment)
      ensures NextItem(old(accelerationSensor.items)).Some? ==>
        var acc := NextItem(old(accelerationSensor.items)).value;
        && velocity == Trapezoid(old(velocity), old(lastMoment).acceleration, acc,
                                 Seconds(SaturatingSub(now, old(lastMoment).timestamp)))
        && lastMoment == Moment(now, acc)
        && r == Some(velocity)
    {
      var sample := accelerationSensor.Next();
      if sample.None? {
        return None;
      }
      var moment := Moment(now, sample.value);
      var dt := Seconds(SaturatingSub(moment.timestamp, lastMoment.timestamp));
      velocity := Trapezoid(velocity, lastMoment.acceleration, moment.acceleration, dt);
      lastMoment := moment;
      r := Some(velocity);
    }
  }

  /** The local velocity: a travelled distance, scaled to metres, over the elapsed seconds. */
  function LocalVelocity(d: DistanceMM, scale: real, elapsed: real): (v: Velocity2D)
    requires elapsed > 0.0
    ensures v.vx * elapsed == d.dx * scale && v.vy * elapsed == d.dy * scale
  {
    Velocity2D(d.dx * scale / elapsed, d.dy * scale / elapsed)
  }

  /** The local velocity turned into the global frame by the orientation's cosine and sine. */
  function Rotate(v: Velocity2D, cos: real, sin: real): Velocity2D {
    Velocity2D(v.vx * cos + v.vy * sin, -v.vx * sin + v.vy * cos)
  }

  /** A rotation keeps the speed. */
  lemma RotateKeepsSpeed(v: Velocity2D, cos: real, sin: real)
    requires cos * cos + sin * sin == 1.0
    ensures var w := Rotate(v, cos, sin); w.vx * w.vx + w.vy * w.vy == v.vx * v.vx + v.vy * v.vy
  {
    var w := Rotate(v, cos, sin);
    calc {
      w.vx * w.vx + w.vy * w.vy;
      (v.vx * cos + v.vy * sin) * (v.vx * cos + v.vy * sin) + (-v.vx * sin + v.vy * cos) * (-v.vx * sin + v.vy * cos);
      v.vx * v.vx * (cos * cos + sin * sin) + v.vy * v.vy * (cos * cos + sin * sin);
    }
  }

  /** The rotation by the opposite angle undoes it. */
  lemma RotateInverse(v: Velocity2D, cos: real, sin: real)
    requires cos * cos + sin * sin == 1.0
    ensures Rotate(Rotate(v, cos, sin), cos, -sin) == v
  {
    var w := Rotate(v, cos, sin);
    var u := Rotate(w, cos, -sin);
    assert u.vx == v.vx * (cos * cos + sin * sin);
    assert u.vy == v.vy * (cos * cos + sin * sin);
  }

  /** A heading of zero radians leaves the local velocity as it is. */
  lemma RotateZero(v: Velocity2D)
    ensures Rotate(v, 1.0, 0.0) == v
  {
  }

  /** The velocity either sensor reports for one orientation and one distance sample. */
  function GlobalVelocity(o: Orientation, d: DistanceMM, scale: real, elapsed: real,
                          cos: real -> real, sin: real -> real): Velocity2D
    requires elapsed > 0.0
  {
    Rotate(LocalVelocity(d, scale, elapsed), cos(o.radian), sin(o.radian))
  }

  /** Millimetres per metre, the factor of `OrientedVelocity`. */
  const MM_TO_M: real := 0.001

  class OrientedVelocity {
    var lastTime: nat
    const orientationSensor: Source<Orientation>
    const distanceTraveledSensor: Source<DistanceMM>

    constructor(orientationSensor: Source<Orientation>, distanceTraveledSensor: Source<DistanceMM>, now: nat)
      ensures lastTime == now
      ensures this.orientationSensor == orientationSensor && this.distanceTraveledSensor == distanceTraveledSensor
    {
      lastTime := now;
      this.orientationSensor := orientationSensor;
      this.distanceTraveledSensor := distanceTraveledSensor;
    }

    /**
     * `next`: both sensors are polled; with both samples present the velocity over the time
     * since the last success is reported and the time is kept, otherwise nothing changes.
     */
    method Next(now: nat, cos: real -> real, sin: real -> real) returns (r: Option<Velocity2D>)
      requires NextItem(orientationSensor.items).Some? && NextItem(distanceTraveledSensor.items).Some? ==> now > lastTime
      modifies this, orientationSensor, distanceTraveledSensor
      ensures orientationSensor.items == AfterItem(old(orientationSensor.items))
      ensures orientationSensor.polls == old(orientationSensor.polls) + 1
      ensures distanceTraveledSensor.items == AfterItem(old(distanceTraveledSensor.items))
      ensures distanceTraveledSensor.polls == old(distanceTraveledSensor.polls) + 1
      ensures var o, d := NextItem(old(orientationSensor.items)), NextItem(old(distanceTraveledSensor.items));
        (r.Some? <==> o.Some? && d.Some?)
        && (r.Some? ==> r.value == GlobalVelocity(o.value, d.value, MM_TO_M, Seconds(now - old(lastTime)), cos, sin))
        && lastTime == (if r.Some? then now else old(lastTime))
    {
      var orientation := orientationSensor.Next();
      var distance := distanceTraveledSensor.Next();
      if orientation.Some? && distance.Some? {
        var timePassed := Seconds(SaturatingSub(now, lastTime));
        lastTime := now;
        r := Some(GlobalVelocity(orientation.value, distance.value, MM_TO_M, timePassed, cos, sin));
      } else {
        r := None;
      }
    }
  }

  class SimpleVelocitySensor {
    var lastTime: nat
    const compass: Source<Orientation>
    const distanceTraveledSensor: Source<DistanceMM>

    constructor(compass: Source<Orientation>, distanceTraveledSensor: Source<DistanceMM>, now: nat)
      ensures lastTime == now
      ensures this.compass == compass && this.distanceTraveledSensor == distanceTraveledSensor
    {
      lastTime := now;
      this.compass := compass;
      this.distanceTraveledSensor := distanceTraveledSensor;
    }

    /** `next`: as `OrientedVelocity::next`, without the millimetre factor. */
    method Next(now: nat, cos: real -> real, sin: real -> real) returns (r: Option<Velocity2D>)
      requires NextItem(compass.items).Some? && NextItem(distanceTraveledSensor.items).Some? ==> now > lastTime
      modifies this, compass, distanceTraveledSensor
      ensures compass.items == AfterItem(old(compass.items)) && compass.polls == old(compass.polls) + 1
      ensures distanceTraveledSensor.items == AfterItem(old(distanceTraveledSensor.items))
      ensures distanceTraveledSensor.polls == old(distanceTraveledSensor.polls) + 1
      ensures var o, d := NextItem(old(compass.items)), NextItem(old(distanceTraveledSensor.items));
        (r.Some? <==> o.Some? && d.Some?)
        && (r.Some? ==> r.value == GlobalVelocity(o.value, d.value, 1.0, Seconds(now - old(lastTime)), cos, sin))
        && lastTime == (if r.Some? then now else old(lastTime))
    {
      var orientation := compass.Next();
      var distance := distanceTraveledSensor.Next();
      if orientation.Some? && distance.Some? {
        var timePassed := Seconds(SaturatingSub(now, lastTime));
        lastTime := now;
        r := Some(GlobalVelocity(orientation.value, distance.value, 1.0, timePassed, cos, sin));
      } else {
        r := None;
      }
    }
  }

  /** The two sensors differ only by the unit factor: the simple one reports a thousand times more. */
  lemma UnitFactor(o: Orientation, d: DistanceMM, elapsed: real, cos: real -> real, sin: real -> real)
    requires elapsed > 0.0
    ensures var a, b := GlobalVelocity(o, d, 1.0, elapsed, cos, sin), GlobalVelocity(o, d, MM_TO_M, elapsed, cos, sin);
      a.vx == 1000.0 * b.vx && a.vy == 1000.0 * b.vy
  {
    var la, lb := LocalVelocity(d, 1.0, elapsed), LocalVelocity(d, MM_TO_M, elapsed);
    assert la.vx == 1000.0 * lb.vx && la.vy == 1000.0 * lb.vy;
  }
}
