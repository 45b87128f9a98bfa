/**
 * `Cartesian2DTrack` of `src/state.rs`: a growing list of plane points and the corners of its
 * bounding box. The folds start at plus or minus infinity, so on a non-empty track they are the
 * folds from the first coordinate, which is how they are written here.
 */
module State2D {
  import opened Wrappers
  import opened Coordinates

  /** `acc.min(val)` over the values, left to right. */
  function FoldMin(acc: real, xs: seq<real>): (m: real)
    decreases |xs|
    ensures m <= acc && (forall j :: 0 <= j < |xs| ==> m <= xs[j])
    ensures m == acc || exists j :: 0 <= j < |xs| && m == xs[j]
  {
    if |xs| == 0 then acc else FoldMin(if xs[0] < acc then xs[0] else acc, xs[1..])
  }

  /** `acc.max(val)` over the values, left to right. */
  function FoldMax(acc: real, xs: seq<real>): (m: real)
    decreases |xs|
    ensures m >= acc && (forall j :: 0 <= j < |xs| ==> m >= xs[j])
    ensures m == acc || exists j :: 0 <= j < |xs| && m == xs[j]
  {
    if |xs| == 0 then acc else FoldMax(if xs[0] > acc then xs[0] else acc, xs[1..])
  }

  function Xs(track: seq<Cartesian2D>): (xs: seq<real>)
    ensures |xs| == |track| && forall j :: 0 <= j < |track| ==> xs[j] == track[j].x
  {
    seq(|track|, j requires 0 <= j < |track| => track[j].x)
  }

  function Ys(track: seq<Cartesian2D>): (ys: seq<real>)
    ensures |ys| == |track| && forall j :: 0 <= j < |track| ==> ys[j] == track[j].y
  {
    seq(|track|, j requires 0 <= j < |track| => track[j].y)
  }

  /** The smallest of a non-empty list of values. */
  function Min(xs: seq<real>): real
    requires |xs| > 0
  {
    FoldMin(xs[0], xs[1..])
  }

  function Max(xs: seq<real>): real
    requires |xs| > 0
  {
    FoldMax(xs[0], xs[1..])
  }

  /** `Min` is a lower bound attained by one of the values. */
  lemma MinSpec(xs: seq<real>)
    requires |xs| > 0
    ensures forall j :: 0 <= j < |xs| ==> Min(xs) <= xs[j]
    ensures exists j :: 0 <= j < |xs| && Min(xs) == xs[j]
  {
    var m := Min(xs);
    forall j | 0 <= j < |xs|
      ensures m <= xs[j]
    {
      if j > 0 {
        assert xs[j] == xs[1..][j - 1];
      }
    }
    if m != xs[0] {
      var j :| 0 <= j < |xs[1..]| && m == xs[1..][j];
      assert m == xs[j + 1];
    }
  }

  lemma MaxSpec(xs: seq<real>)
    requires |xs| > 0
    ensures forall j :: 0 <= j < |xs| ==> Max(xs) >= xs[j]
    ensures exists j :: 0 <= j < |xs| && Max(xs) == xs[j]
  {
    var m := Max(xs);
    forall j | 0 <= j < |xs|
      ensures m >= xs[j]
    {
      if j > 0 {
        assert xs[j] == xs[1..][j - 1];
      }
    }
    if m != xs[0] {
      var j :| 0 <= j < |xs[1..]| && m == xs[1..][j];
      assert m == xs[j + 1];
    }
  }

  /** A lower bound that is one of the values is the minimum. */
  lemma MinIs(xs: seq<real>, j: nat, m: real)
    requires j < |xs| && xs[j] == m && forall i :: 0 <= i < |xs| ==> m <= xs[i]
    ensures Min(xs) == m
  {
    MinSpec(xs);
  }

  /** An upper bound that is one of the values is the maximum. */
  lemma MaxIs(xs: seq<real>, j: nat, m: real)
    requires j < |xs| && xs[j] == m && forall i :: 0 <= i < |xs| ==> m >= xs[i]
    ensures Max(xs) == m
  {
    MaxSpec(xs);
  }

  /** `min_point_track`: the lower-left corner of the bounding box, none for an empty track. */
  function MinPoint(track: seq<Cartesian2D>): Option<(real, real)> {
    if |track| > 0 then Some((Min(Xs(track)), Min(Ys(track)))) else None
  }

  /** `max_point_track`: the upper-right corner of the bounding box, none for an empty track. */
  function MaxPoint(track: seq<Cartesian2D>): Option<(real, real)> {
    if |track| > 0 then Some((Max(Xs(track)), Max(Ys(track)))) else None
  }

  /**
   * The corners exist exactly for a non-empty track; each coordinate bounds the matching
   * coordinate of every point and is the coordinate of some point, the two not necessarily of
   * the same point.
   */
  lemma BoundingBox(track: seq<Cartesian2D>)
    ensures MinPoint(track).Some? <==> |track| > 0
    ensures MaxPoint(track).Some? <==> |track| > 0
    ensures MinPoint(track).Some? ==> var (xMin, yMin) := MinPoint(track).value;
      && (forall j :: 0 <= j < |track| ==> xMin <= track[j].x && yMin <= track[j].y)
      && (exists j :: 0 <= j < |track| && track[j].x == xMin)
      && (exists j :: 0 <= j < |track| && track[j].y == yMin)
    ensures MaxPoint(track).Some? ==> var (xMax, yMax) := MaxPoint(track).value;
      && (forall j :: 0 <= j < |track| ==> xMax >= track[j].x && yMax >= track[j].y)
      && (exists j :: 0 <= j < |track| && track[j].x == xMax)
      && (exists j :: 0 <= j < |track| && track[j].y == yMax)
  {
    if |track| > 0 {
      MinSpec(Xs(track));
      MinSpec(Ys(track));
      MaxSpec(Xs(track));
      MaxSpec(Ys(track));
    }
  }

  class Cartesian2DTrack {
    var track: seq<Cartesian2D>

    /** `new`: the empty track. */
    constructor()
      ensures track == []
    {
      track := [];
    }

    /** `push`: the point goes at the end. */
    method Push(point: Cartesian2D)
      modifies this
      ensures track == old(track) + [point]
    {
      track := track + [point];
    }

    function MinPointTrack(): Option<(real, real)>
      reads this
    {
      MinPoint(track)
    }

    function MaxPointTrack(): Option<(real, real)>
      reads this
    {
      MaxPoint(track)
    }
  }

  /** The five points of `test_min_max_point_on_track`, in order. */
  predicate IsTestTrack(track: seq<Cartesian2D>) {
    && |track| == 5
    && track[0] == Cartesian2D(0.0, 0.0) && track[1] == Cartesian2D(-1.0, 0.0) && track[2] == Cartesian2D(0.0, 1.0)
    && track[3] == Cartesian2D(4.0, 5.0) && track[4] == Cartesian2D(0.0, -3.0)
  }

  /**
   * The test's expectations: the corners are (-1, -3) and (4, 5), and the lower-left corner is
   * none of the points, since its coordinates come from different points.
   */
  lemma TestTrackCorners(track: seq<Cartesian2D>)
    requires IsTestTrack(track)
    ensures MinPoint(track) == Some((-1.0, -3.0)) && MaxPoint(track) == Some((4.0, 5.0))
    ensures Cartesian2D(-1.0, -3.0) !in track
  {
    var xs, ys := Xs(track), Ys(track);
    forall i | 0 <= i < 5
      ensures -1.0 <= xs[i] <= 4.0 && -3.0 <= ys[i] <= 5.0
    {
      assert i == 0 || i == 1 || i == 2 || i == 3 || i == 4;
    }
    MinIs(xs, 1, -1.0);
    MaxIs(xs, 3, 4.0);
    MinIs(ys, 4, -3.0);
    MaxIs(ys, 3, 5.0);
  }

  /** `test_min_max_point_on_track`: the five points of the test give (-1, -3) and (4, 5). */
  method MinMaxPointOnTrack() returns (minPoint: Option<(real, real)>, maxPoint: Option<(real, real)>)
    ensures minPoint == Some((-1.0, -3.0)) && maxPoint == Some((4.0, 5.0))
  {
    var t := new Cartesian2DTrack();
    t.Push(Cartesian2D(0.0, 0.0));
    t.Push(Cartesian2D(-1.0, 0.0));
    t.Push(Cartesian2D(0.0, 1.0));
    t.Push(Cartesian2D(4.0, 5.0));
    t.Push(Cartesian2D(0.0, -3.0));
    TestTrackCorners(t.track);
    minPoint := t.MinPointTrack();
    maxPoint := t.MaxPointTrack();
  }
}
