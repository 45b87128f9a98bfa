/**
 * The coordinate records of `sensors/src/coordinates.rs` and their conversions to vectors. The
 * velocity and kinematic-state records of `src/sensor/velocity.rs` and
 * `src/sensor_utils/velocity.rs` have the same fields and the same conversions, and are these.
 */
module Coordinates {
  import opened Wrappers
  import opened LinAlg

  /** A geographical coordinate in degrees: longitude and latitude. */
  datatype GeoCoord = GeoCoord(lon: real, lat: real)

  /** The two fields of an nmea `GgaData` that the position sensors look at. */
  datatype GgaFix = GgaFix(longitude: Option<real>, latitude: Option<real>)

  datatype Cartesian2D = Cartesian2D(x: real, y: real)

  datatype Cartesian3D = Cartesian3D(x: real, y: real, z: real)

  datatype Velocity2D = Velocity2D(vx: real, vy: real)

  datatype KinematicState = KinematicState(position: Cartesian2D, velocity: Velocity2D)

  /** `GeoCoord::from_gga`: a coordinate exactly when the sentence has both longitude and latitude. */
  function FromGga(gga: GgaFix): (r: Option<GeoCoord>)
    ensures r.Some? <==> gga.longitude.Some? && gga.latitude.Some?
    ensures r.Some? ==> r.value.lon == gga.longitude.value && r.value.lat == gga.latitude.value
  {
    match gga
    case GgaFix(Some(lon), Some(lat)) => Some(GeoCoord(lon, lat))
    case _ => None
  }

  /** `KinematicState` into a 4-vector: position first, then velocity. */
  function KinematicToVector(s: KinematicState): (v: Vector)
    ensures |v| == 4
    ensures v[0] == s.position.x && v[1] == s.position.y
    ensures v[2] == s.velocity.vx && v[3] == s.velocity.vy
  {
    [s.position.x, s.position.y, s.velocity.vx, s.velocity.vy]
  }

  /** `Cartesian2D` into a 2-vector. */
  function PointToVector(p: Cartesian2D): (v: Vector)
    ensures |v| == 2 && v[0] == p.x && v[1] == p.y
  {
    [p.x, p.y]
  }

  /** The position half of a kinematic state's vector is the position's own vector. */
  lemma KinematicPositionPart(s: KinematicState)
    ensures KinematicToVector(s)[..2] == PointToVector(s.position)
  {
    assert KinematicToVector(s)[..2] == [s.position.x, s.position.y];
  }

  /** Velocity into a 2-vector. */
  function VelocityToVector(v: Velocity2D): Vector {
    [v.vx, v.vy]
  }

  /** Velocity from a 2-vector. */
  function VelocityFromVector(w: Vector): Velocity2D
    requires |w| == 2
  {
    Velocity2D(w[0], w[1])
  }

  /** The two conversions of `src/sensor/velocity.rs` are inverse to each other. */
  lemma VelocityRoundTrip(v: Velocity2D, w: Vector)
    requires |w| == 2
    ensures |VelocityToVector(v)| == 2 && VelocityFromVector(VelocityToVector(v)) == v
    ensures VelocityToVector(VelocityFromVector(w)) == w
  {
    assert VelocityToVector(VelocityFromVector(w)) == [w[0], w[1]];
  }

  /** `Cartesian3D` into `Cartesian2D`: the height is dropped. */
  function To2D(p: Cartesian3D): (q: Cartesian2D)
    ensures q.x == p.x && q.y == p.y
  {
    Cartesian2D(p.x, p.y)
  }
}
