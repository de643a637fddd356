/**
 * Plane vectors and axis-aligned bounding boxes, as used for marker bounds.
 * Coordinates are exact reals: the double-precision rounding of the source
 * is not modelled.
 */
module Geometry {

  datatype Vec2 = Vec2(x: real, y: real)

  /** A bounding box given by its south-west (min) and north-east (max) corners. */
  datatype Box = Box(min: Vec2, max: Vec2)

  function Min(a: real, b: real): real { if a <= b then a else b }
  function Max(a: real, b: real): real { if a <= b then b else a }

  /** A degenerate box holding exactly one point. */
  function PointBox(p: Vec2): Box { Box(p, p) }

  /** BoundingBox::expand: grow the box so that it covers (x, y). */
  function Expand(b: Box, x: real, y: real): (r: Box)
    ensures r.min.x <= x <= r.max.x && r.min.y <= y <= r.max.y
    ensures r.min.x <= b.min.x && r.min.y <= b.min.y && b.max.x <= r.max.x && b.max.y <= r.max.y
  {
    Box(Vec2(Min(b.min.x, x), Min(b.min.y, y)), Vec2(Max(b.max.x, x), Max(b.max.y, y)))
  }

  predicate Covers(b: Box, p: Vec2) {
    b.min.x <= p.x <= b.max.x && b.min.y <= p.y <= b.max.y
  }

  /** The box obtained by expanding start with every point of ps, in order. */
  function ExpandAll(start: Box, ps: seq<Vec2>): Box
  {
    if ps == [] then start
    else var last := ps[|ps| - 1]; Expand(ExpandAll(start, ps[..|ps| - 1]), last.x, last.y)
  }

  /** Expanding by two runs one after the other is expanding by their concatenation. */
  lemma {:induction false} ExpandAllAppend(start: Box, a: seq<Vec2>, b: seq<Vec2>)
    ensures ExpandAll(ExpandAll(start, a), b) == ExpandAll(start, a + b)
  {
    if b == [] {
      assert a + b == a;
    } else {
      ExpandAllAppend(start, a, b[..|b| - 1]);
      assert (a + b)[..|a + b| - 1] == a + b[..|b| - 1];
    }
  }

  /** Expanding never loses a point: every input point lies inside the result. */
  lemma {:induction false} ExpandAllCovers(start: Box, ps: seq<Vec2>)
    ensures forall i :: 0 <= i < |ps| ==> Covers(ExpandAll(start, ps), ps[i])
  {
    if ps != [] {
      var init := ps[..|ps| - 1];
      ExpandAllCovers(start, init);
      forall i | 0 <= i < |ps|
        ensures Covers(ExpandAll(start, ps), ps[i])
      {
        if i < |ps| - 1 { assert ps[i] == init[i]; }
      }
    }
  }

  /**
   * Starting from the degenerate box of the first point, every corner
   * coordinate of the result is attained by some input point: the box is
   * the tightest one around the points.
   */
  lemma {:induction false} ExpandAllTight(ps: seq<Vec2>)
    requires ps != []
    ensures var b := ExpandAll(PointBox(ps[0]), ps);
      && (exists i :: 0 <= i < |ps| && ps[i].x == b.min.x)
      && (exists i :: 0 <= i < |ps| && ps[i].y == b.min.y)
      && (exists i :: 0 <= i < |ps| && ps[i].x == b.max.x)
      && (exists i :: 0 <= i < |ps| && ps[i].y == b.max.y)
  {
    ExpandAllTightFrom(ps[0], ps);
  }

  lemma {:induction false} ExpandAllTightFrom(p0: Vec2, ps: seq<Vec2>)
    ensures var b := ExpandAll(PointBox(p0), ps); var qs := [p0] + ps;
      && (exists i :: 0 <= i < |qs| && qs[i].x == b.min.x)
      && (exists i :: 0 <= i < |qs| && qs[i].y == b.min.y)
      && (exists i :: 0 <= i < |qs| && qs[i].x == b.max.x)
      && (exists i :: 0 <= i < |qs| && qs[i].y == b.max.y)
  {
    var qs := [p0] + ps;
    if ps == [] {
      assert qs[0] == p0;
    } else {
      var init := ps[..|ps| - 1];
      var last := ps[|ps| - 1];
      ExpandAllTightFrom(p0, init);
      var qi := [p0] + init;
      assert forall i :: 0 <= i < |qi| ==> qs[i] == qi[i];
      assert qs[|qs| - 1] == last;
    }
  }
}
