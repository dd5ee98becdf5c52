/** `GetCalibrationVectors`: checks two parallel point arrays and reshapes
    them into the one-group layout the calibration solver takes, remapping
    world points into the calibration convention and scaling normalised
    view points into pixels. */
module PointSets {
  import opened SoyMath
  import opened CoordinateRemap

  /** The two output arrays and the returned flag. */
  datatype CalibrationVectors = CalibrationVectors(
    ok: bool,
    worldPointsArray: seq<seq<Vec3>>,
    viewPointsArray: seq<seq<Vec2>>)

  /** A normalised view point scaled per axis into pixels. */
  function ScaleToPixels(view: Vec2, imageScalar: Vec2): Vec2 {
    Vec2(view.x * imageScalar.x, view.y * imageScalar.y)
  }

  /** The two arrays the solver can use: as long as each other, and not empty. */
  predicate PointsAccepted(worldPoints: seq<Vec3>, viewPoints: seq<Vec2>) {
    |worldPoints| == |viewPoints| && |worldPoints| != 0
  }

  /** `std::vector::resize(1)` on an array of groups: the first group is
      kept, or an empty one is created. */
  function ResizeToOne<T>(groups: seq<seq<T>>): (r: seq<seq<T>>)
    ensures |r| == 1
    ensures |groups| > 0 ==> r[0] == groups[0]
    ensures |groups| == 0 ==> r[0] == []
  {
    if |groups| == 0 then [[]] else groups[..1]
  }

  /** The loop body run for points `p..` in order: append the remapped world
      point to one group and the scaled view point to the other. */
  function PushPoints(worldGroup: seq<Vec3>, viewGroup: seq<Vec2>,
                      worldPoints: seq<Vec3>, viewPoints: seq<Vec2>, imageScalar: Vec2, p: nat)
    : (r: (seq<Vec3>, seq<Vec2>))
    requires |worldPoints| == |viewPoints| && p <= |worldPoints|
    ensures |r.0| == |worldGroup| + |worldPoints| - p
    ensures |r.1| == |viewGroup| + |worldPoints| - p
    ensures r.0[..|worldGroup|] == worldGroup && r.1[..|viewGroup|] == viewGroup
    ensures forall k :: p <= k < |worldPoints| ==>
      var w := worldPoints[k]; r.0[|worldGroup| + k - p] == Vec3(w.x, w.z, w.y)
    ensures forall k :: p <= k < |worldPoints| ==>
      var v := viewPoints[k]; r.1[|viewGroup| + k - p] == Vec2(v.x * imageScalar.x, v.y * imageScalar.y)
    decreases |worldPoints| - p
  {
    if p == |worldPoints| then (worldGroup, viewGroup)
    else
      PushPoints(worldGroup + [WorldToCalibration(worldPoints[p])],
                 viewGroup + [ScaleToPixels(viewPoints[p], imageScalar)],
                 worldPoints, viewPoints, imageScalar, p + 1)
  }

  /** `GetCalibrationVectors(WorldPointsArray, ViewPointsArray, WorldPoints,
      ViewPoints, ImageScalar)`. On rejection the output arrays are returned
      as they came in; on success each holds exactly one group, the group
      it already had (or an empty one) followed by the new points in input
      order. */
  function GetCalibrationVectors(worldPointsArray: seq<seq<Vec3>>, viewPointsArray: seq<seq<Vec2>>,
                                 worldPoints: seq<Vec3>, viewPoints: seq<Vec2>, imageScalar: Vec2)
    : (r: CalibrationVectors)
    ensures r.ok <==> PointsAccepted(worldPoints, viewPoints)
    ensures !r.ok ==> r.worldPointsArray == worldPointsArray && r.viewPointsArray == viewPointsArray
    ensures r.ok ==> |r.worldPointsArray| == 1 && |r.viewPointsArray| == 1
    ensures r.ok ==>
      var oldWorld := ResizeToOne(worldPointsArray)[0];
      var oldView := ResizeToOne(viewPointsArray)[0];
      && |r.worldPointsArray[0]| == |oldWorld| + |worldPoints|
      && |r.viewPointsArray[0]| == |oldView| + |viewPoints|
      && r.worldPointsArray[0][..|oldWorld|] == oldWorld
      && r.viewPointsArray[0][..|oldView|] == oldView
      && (forall k :: 0 <= k < |worldPoints| ==>
            var w := worldPoints[k]; r.worldPointsArray[0][|oldWorld| + k] == Vec3(w.x, w.z, w.y))
      && (forall k :: 0 <= k < |viewPoints| ==>
            var v := viewPoints[k];
            r.viewPointsArray[0][|oldView| + k] == Vec2(v.x * imageScalar.x, v.y * imageScalar.y))
  {
    if |worldPoints| != |viewPoints| || |worldPoints| == 0 then
      CalibrationVectors(false, worldPointsArray, viewPointsArray)
    else
      var worldArray := ResizeToOne(worldPointsArray);
      var viewArray := ResizeToOne(viewPointsArray);
      var groups := PushPoints(worldArray[0], viewArray[0], worldPoints, viewPoints, imageScalar, 0);
      CalibrationVectors(true, [groups.0], [groups.1])
  }

  /** Called with empty output arrays, as the calibration driver does, the
      result is one group per array, exactly as long as the input, whose
      element `i` comes from input element `i`. */
  lemma {:induction false} FreshCalibrationVectors(worldPoints: seq<Vec3>, viewPoints: seq<Vec2>, imageScalar: Vec2)
    requires PointsAccepted(worldPoints, viewPoints)
    ensures var r := GetCalibrationVectors([], [], worldPoints, viewPoints, imageScalar);
      && r.ok
      && r.worldPointsArray == [seq(|worldPoints|, i requires 0 <= i < |worldPoints| =>
                                  Vec3(worldPoints[i].x, worldPoints[i].z, worldPoints[i].y))]
      && r.viewPointsArray == [seq(|viewPoints|, i requires 0 <= i < |viewPoints| =>
                                 Vec2(viewPoints[i].x * imageScalar.x, viewPoints[i].y * imageScalar.y))]
  {
    var r := GetCalibrationVectors([], [], worldPoints, viewPoints, imageScalar);
    assert |ResizeToOne<Vec3>([])[0]| == 0 && |ResizeToOne<Vec2>([])[0]| == 0;
    var world := seq(|worldPoints|, i requires 0 <= i < |worldPoints| =>
                   Vec3(worldPoints[i].x, worldPoints[i].z, worldPoints[i].y));
    var view := seq(|viewPoints|, i requires 0 <= i < |viewPoints| =>
                  Vec2(viewPoints[i].x * imageScalar.x, viewPoints[i].y * imageScalar.y));
    forall k | 0 <= k < |viewPoints|
      ensures r.viewPointsArray[0][k] == view[k]
    {
      assert r.viewPointsArray[0][0 + k] == r.viewPointsArray[0][k];
    }
    assert r.worldPointsArray[0] == world;
    assert r.viewPointsArray[0] == view;
  }

  /** The consistency the source asserts after filling the arrays: as many
      world groups as view groups, each pair of equal length, provided the
      first groups it started from were of equal length. */
  lemma {:induction false} GroupsStayParallel(worldPointsArray: seq<seq<Vec3>>, viewPointsArray: seq<seq<Vec2>>,
                                              worldPoints: seq<Vec3>, viewPoints: seq<Vec2>, imageScalar: Vec2)
    requires PointsAccepted(worldPoints, viewPoints)
    requires |ResizeToOne(worldPointsArray)[0]| == |ResizeToOne(viewPointsArray)[0]|
    ensures var r := GetCalibrationVectors(worldPointsArray, viewPointsArray, worldPoints, viewPoints, imageScalar);
      |r.worldPointsArray| == |r.viewPointsArray| &&
      forall i :: 0 <= i < |r.worldPointsArray| ==> |r.worldPointsArray[i]| == |r.viewPointsArray[i]|
  {
  }
}
