/**
 * The state types of the `sensor_fusion` crate and its `Track`: a never-empty, append-only
 * sequence of waypoints. Timestamps are signed nanosecond counts (`DateTime<Utc>`).
 */
module FusionState {
  import opened LinAlg

  /** The expected state and its covariance (`estimate`, `error`). */
  datatype GaussianState = GaussianState(estimate: Vector, error: Matrix)

  datatype Waypoint = Waypoint(timestamp: int, state: GaussianState)

  datatype Measurement = Measurement(timestamp: int, vector: Vector)

  predicate StateFits(g: GaussianState, sd: nat) {
    |g.estimate| == sd && IsMatrix(g.error, sd, sd)
  }

  class Track {
    var waypoints: seq<Waypoint>

    /** A track always holds at least one waypoint. */
    ghost predicate Valid()
      reads this
    {
      |waypoints| > 0
    }

    /** `Track::new`: a track of just the initial waypoint. */
    constructor(initialWaypoint: Waypoint)
      ensures Valid() && waypoints == [initialWaypoint]
      ensures Len() == 1
    {
      waypoints := [initialWaypoint];
    }

    /** The number of waypoints. */
    function Len(): (n: nat)
      reads this
      ensures n == |waypoints|
    {
      |waypoints|
    }

    /** `add_waypoint`: the new waypoint becomes the latest, the earlier ones stay as they were. */
    method AddWaypoint(waypoint: Waypoint)
      requires Valid()
      modifies this
      ensures Valid() && waypoints == old(waypoints) + [waypoint]
      ensures Len() == old(Len()) + 1 && GetLatestWaypoint() == waypoint
      ensures forall k :: 0 <= k < old(Len()) ==> waypoints[k] == old(waypoints[k])
    {
      waypoints := waypoints + [waypoint];
    }

    /** `get_latest_waypoint`: defined on every valid track, since none is empty. */
    function GetLatestWaypoint(): (w: Waypoint)
      reads this
      requires Valid()
      ensures w in waypoints && w == waypoints[Len() - 1]
    {
      waypoints[|waypoints| - 1]
    }

    /** `into_iter`: the waypoints in the order they were added, the initial one first. */
    function IntoIter(): (ws: seq<Waypoint>)
      reads this
      requires Valid()
      ensures |ws| == Len() && ws[|ws| - 1] == GetLatestWaypoint()
      ensures forall k :: 0 <= k < |ws| ==> ws[k] == waypoints[k]
    {
      waypoints
    }
  }
}
