/**
 * The marker manager: an ordered collection of user-held markers, each
 * binding a geometry and a draw rule to a mesh that is rebuilt when the
 * styling, the geometry or the zoom level changes.
 *
 * The map projection, the normalisation into marker-local coordinates, the
 * styling parser, the rule evaluator and the style builders are not
 * modelled; they enter as uninterpreted functions.
 */
module MarkerManagement {
  import opened Wrappers
  import opened Geometry
  import Scenes

  datatype LngLat = LngLat(longitude: real, latitude: real)

  /** A vertex of a built feature, in marker-local coordinates. */
  datatype Point = Point(x: real, y: real, z: real)

  /** A feature holds exactly one kind of geometry, matching its type tag. */
  datatype Feature =
    | Points(points: seq<Point>)
    | Lines(lines: seq<seq<Point>>)
    | Polygons(polygons: seq<seq<seq<Point>>>)

  /** A draw rule: the name of the style it draws with and its parameters. */
  datatype DrawRule = DrawRule(styleName: string, params: seq<(string, string)>)

  /**
   * What SceneLoader::parseStyleParams makes of a styling text: the draw
   * rule, and the JavaScript function sources it registers with the scene.
   */
  datatype ParsedStyling = ParsedStyling(rule: DrawRule, functions: seq<string>)

  /** The builder registered for one style; it produces meshes for that style's id. */
  datatype StyleBuilder = StyleBuilder(styleId: int)

  /** An opaque mesh, tagged with the style and zoom it was built for and what it was built from. */
  datatype Mesh = Mesh(styleId: int, zoom: int, feature: Feature, rule: DrawRule)

  /** An animation target: destination in world meters, duration and easing curve. */
  datatype Ease = Ease(dest: Vec2, duration: real, curve: nat)

  /** Everything a marker holds, as one value. */
  datatype MarkerState = MarkerState(
    feature: Option<Feature>,
    rule: Option<DrawRule>,
    mesh: Option<Mesh>,
    builtZoom: Option<int>,   // builtZoomLevel(); None until a mesh has been set
    bounds: Box,              // in world meters
    ease: Option<Ease>)

  function EmptyMarker(): MarkerState
  {
    MarkerState(None, None, None, None, Box(Vec2(0.0, 0.0), Vec2(0.0, 0.0)), None)
  }

  class Marker {
    var feature: Option<Feature>
    var rule: Option<DrawRule>
    var mesh: Option<Mesh>
    var builtZoom: Option<int>
    var bounds: Box
    var ease: Option<Ease>

    constructor ()
      ensures State() == EmptyMarker()
    {
      feature, rule, mesh, builtZoom := None, None, None, None;
      bounds := Box(Vec2(0.0, 0.0), Vec2(0.0, 0.0));
      ease := None;
    }

    function State(): MarkerState
      reads this
    {
      MarkerState(feature, rule, mesh, builtZoom, bounds, ease)
    }
  }

  // ---------------------------------------------------------------------
  // Specification of build and update

  /** The conditions under which build attaches a new mesh. */
  predicate Buildable(s: MarkerState, zoom: int, builders: map<string, StyleBuilder>,
                      evaluate: (DrawRule, int) -> bool)
  {
    && s.rule.Some? && s.feature.Some?
    && s.rule.value.styleName in builders
    && evaluate(s.rule.value, zoom)
  }

  /** MarkerManager::build: the marker after a build at the given zoom. */
  function Built(s: MarkerState, zoom: int, builders: map<string, StyleBuilder>,
                 evaluate: (DrawRule, int) -> bool): MarkerState
  {
    if s.rule.None? || s.feature.None? then s
    else if s.rule.value.styleName !in builders then s
    else if !evaluate(s.rule.value, zoom) then s
    else
      var builder := builders[s.rule.value.styleName];
      s.(mesh := Some(Mesh(builder.styleId, zoom, s.feature.value, s.rule.value)), builtZoom := Some(zoom))
  }

  /** The per-marker step of update: rebuild only when built for another zoom. */
  function Rebuilt(s: MarkerState, zoom: int, builders: map<string, StyleBuilder>,
                   evaluate: (DrawRule, int) -> bool): MarkerState
  {
    if s.builtZoom != Some(zoom) then Built(s, zoom, builders, evaluate) else s
  }

  /**
   * build changes nothing but the mesh and the built zoom; it changes them
   * exactly when the rule and feature exist, the style has a builder and the
   * rule evaluates as valid, and the new mesh is then tagged with the
   * builder's style id, the zoom and the current feature and rule.
   */
  lemma BuildOutcome(s: MarkerState, zoom: int, builders: map<string, StyleBuilder>,
                     evaluate: (DrawRule, int) -> bool)
    ensures var r := Built(s, zoom, builders, evaluate);
      && r.feature == s.feature && r.rule == s.rule && r.bounds == s.bounds && r.ease == s.ease
      && (!Buildable(s, zoom, builders, evaluate) ==> r == s)
      && (Buildable(s, zoom, builders, evaluate) ==>
            && r.builtZoom == Some(zoom)
            && r.mesh == Some(Mesh(builders[s.rule.value.styleName].styleId, zoom, s.feature.value, s.rule.value)))
  {
  }

  /** After an update to zoom, a second update step at the same zoom changes nothing more. */
  lemma RebuiltIdempotent(s: MarkerState, zoom: int, builders: map<string, StyleBuilder>,
                          evaluate: (DrawRule, int) -> bool)
    ensures Rebuilt(Rebuilt(s, zoom, builders, evaluate), zoom, builders, evaluate)
         == Rebuilt(s, zoom, builders, evaluate)
  {
  }

  // ---------------------------------------------------------------------
  // Specification of the geometry setters

  function Degrees(c: LngLat): Vec2 { Vec2(c.longitude, c.latitude) }

  function DegreesOf(cs: seq<LngLat>): (r: seq<Vec2>)
    ensures |r| == |cs| && forall i :: 0 <= i < |cs| ==> r[i] == Degrees(cs[i])
  {
    seq(|cs|, i requires 0 <= i < |cs| => Degrees(cs[i]))
  }

  function ProjectBox(b: Box, project: Vec2 -> Vec2): Box
  {
    Box(project(b.min), project(b.max))
  }

  /** A coordinate projected to meters and normalised against the marker's bounds; z is 0. */
  function LocalPoint(c: LngLat, project: Vec2 -> Vec2, toLocal: (Vec2, Box) -> Vec2, bounds: Box): Point
  {
    var v := toLocal(project(Degrees(c)), bounds);
    Point(v.x, v.y, 0.0)
  }

  /** The local points of a run of coordinates, in order. */
  function LocalLine(cs: seq<LngLat>, project: Vec2 -> Vec2, toLocal: (Vec2, Box) -> Vec2, bounds: Box): seq<Point>
  {
    if cs == [] then []
    else LocalLine(cs[..|cs| - 1], project, toLocal, bounds) + [LocalPoint(cs[|cs| - 1], project, toLocal, bounds)]
  }

  /** The polyline's bounds in degrees: start at the first coordinate, expand by every coordinate. */
  function LineBounds(cs: seq<LngLat>): Box
    requires cs != []
  {
    ExpandAll(PointBox(Degrees(cs[0])), DegreesOf(cs))
  }

  function Sum(ns: seq<int>): int
  {
    if ns == [] then 0 else Sum(ns[..|ns| - 1]) + ns[|ns| - 1]
  }

  /**
   * Where ring i starts in the caller's coordinate buffer: the running sum of
   * the earlier counts. A negative count moves the start back.
   */
  function RingStart(counts: seq<int>, i: nat): int
    requires i <= |counts|
  {
    Sum(counts[..i])
  }

  lemma SumStep(counts: seq<int>, i: nat)
    requires i < |counts|
    ensures RingStart(counts, i + 1) == RingStart(counts, i) + counts[i]
  {
    assert counts[..i + 1][..i] == counts[..i];
  }

  /**
   * The caller's buffers hold `rings` counts, and every ring with a positive
   * count lies inside the coordinates. A ring whose count is zero or negative
   * reads no coordinate, so its start may lie anywhere.
   */
  predicate RingsReadable(cs: seq<LngLat>, counts: seq<int>, rings: int)
  {
    && 1 <= rings <= |counts|
    && forall i {:trigger RingStart(counts, i)} :: 0 <= i < rings && counts[i] > 0 ==>
         0 <= RingStart(counts, i) && RingStart(counts, i) + counts[i] <= |cs|
  }

  /** The coordinates of ring i: counts[i] of them from the ring's start, none when the count is not positive. */
  function RingRun(cs: seq<LngLat>, counts: seq<int>, rings: int, i: nat): seq<LngLat>
    requires RingsReadable(cs, counts, rings) && i < rings
  {
    if counts[i] > 0 then cs[RingStart(counts, i)..RingStart(counts, i) + counts[i]] else []
  }

  /** The coordinates of the first n rings, ring by ring. */
  function RingRuns(cs: seq<LngLat>, counts: seq<int>, rings: int, n: nat): seq<seq<LngLat>>
    requires RingsReadable(cs, counts, rings) && n <= rings
  {
    if n == 0 then [] else RingRuns(cs, counts, rings, n - 1) + [RingRun(cs, counts, rings, n - 1)]
  }

  function Flatten<T>(xss: seq<seq<T>>): seq<T>
  {
    if xss == [] then [] else Flatten(xss[..|xss| - 1]) + xss[|xss| - 1]
  }

  lemma FlattenSnoc<T>(xss: seq<seq<T>>, xs: seq<T>)
    ensures Flatten(xss + [xs]) == Flatten(xss) + xs
  {
    assert (xss + [xs])[..|xss|] == xss;
  }

  /** Every element of every inner sequence occurs in the flattened sequence. */
  lemma {:induction false} FlattenHas<T>(xss: seq<seq<T>>, k: nat, j: nat)
    requires k < |xss| && j < |xss[k]|
    ensures xss[k][j] in Flatten(xss)
  {
    var init := xss[..|xss| - 1];
    if k < |xss| - 1 {
      FlattenHas(init, k, j);
      assert init[k] == xss[k];
    }
  }

  /** The bounds loop starts from the first coordinate when the outer ring has one, else from the default box. */
  function PolygonStart(cs: seq<LngLat>, counts: seq<int>, rings: int, defaultBox: Box): Box
    requires RingsReadable(cs, counts, rings)
  {
    assert counts[..0] == [];
    assert RingStart(counts, 0) == 0;
    if counts[0] > 0 then PointBox(Degrees(cs[0])) else defaultBox
  }

  /** The bounds in degrees after the first n rings of setPolygon's loop; the default box before any. */
  function PolygonBoundsUpTo(cs: seq<LngLat>, counts: seq<int>, rings: int, n: nat, defaultBox: Box): Box
    requires RingsReadable(cs, counts, rings) && n <= rings
  {
    if n == 0 then defaultBox
    else ExpandAll(PolygonStart(cs, counts, rings, defaultBox), DegreesOf(Flatten(RingRuns(cs, counts, rings, n))))
  }

  /** The polygon's bounds in degrees, as setPolygon computes them. */
  function PolygonBounds(cs: seq<LngLat>, counts: seq<int>, rings: int, defaultBox: Box): Box
    requires RingsReadable(cs, counts, rings)
  {
    PolygonBoundsUpTo(cs, counts, rings, rings, defaultBox)
  }

  /** The first ring of the bounds loop: restart from its first point (if any) and expand by the ring. */
  lemma PolygonBoundsFirst(cs: seq<LngLat>, counts: seq<int>, rings: int, defaultBox: Box)
    requires RingsReadable(cs, counts, rings)
    ensures var run := RingRun(cs, counts, rings, 0);
      PolygonBoundsUpTo(cs, counts, rings, 1, defaultBox)
        == ExpandAll(if run != [] then PointBox(Degrees(run[0])) else defaultBox, DegreesOf(run))
  {
    assert counts[..0] == [];
    var run := RingRun(cs, counts, rings, 0);
    assert RingRuns(cs, counts, rings, 1) == [] + [run];
    FlattenSnoc([], run);
    assert Flatten<LngLat>([]) + run == run;
  }

  /** A later ring of the bounds loop: expand the bounds so far by the ring's run. */
  lemma PolygonBoundsNext(cs: seq<LngLat>, counts: seq<int>, rings: int, i: nat, defaultBox: Box)
    requires RingsReadable(cs, counts, rings) && 0 < i < rings
    ensures PolygonBoundsUpTo(cs, counts, rings, i + 1, defaultBox)
         == ExpandAll(PolygonBoundsUpTo(cs, counts, rings, i, defaultBox), DegreesOf(RingRun(cs, counts, rings, i)))
  {
    var before := Flatten(RingRuns(cs, counts, rings, i));
    var run := RingRun(cs, counts, rings, i);
    FlattenSnoc(RingRuns(cs, counts, rings, i), run);
    assert DegreesOf(before + run) == DegreesOf(before) + DegreesOf(run);
    ExpandAllAppend(PolygonStart(cs, counts, rings, defaultBox), DegreesOf(before), DegreesOf(run));
  }

  /** One ring of the bounds loop: the outer ring restarts from its first point, if any; every ring expands by its run. */
  lemma PolygonBoundsStep(cs: seq<LngLat>, counts: seq<int>, rings: int, i: nat, defaultBox: Box)
    requires RingsReadable(cs, counts, rings) && i < rings
    ensures var run := RingRun(cs, counts, rings, i);
      PolygonBoundsUpTo(cs, counts, rings, i + 1, defaultBox)
        == ExpandAll(if i == 0 && run != [] then PointBox(Degrees(run[0]))
                     else PolygonBoundsUpTo(cs, counts, rings, i, defaultBox),
                     DegreesOf(run))
  {
    if i == 0 {
      PolygonBoundsFirst(cs, counts, rings, defaultBox);
    } else {
      PolygonBoundsNext(cs, counts, rings, i, defaultBox);
    }
  }

  /** The first n rings of the polygon, each the local points of its own run of coordinates. */
  function PolygonRings(cs: seq<LngLat>, counts: seq<int>, n: nat, rings: int,
                        project: Vec2 -> Vec2, toLocal: (Vec2, Box) -> Vec2, bounds: Box): (r: seq<seq<Point>>)
    requires RingsReadable(cs, counts, rings) && n <= rings
    ensures |r| == n
  {
    seq(n, k requires 0 <= k < n => LocalLine(RingRun(cs, counts, rings, k), project, toLocal, bounds))
  }

  /** Ring n - 1 is the local line of ring n - 1's coordinates, after the earlier rings. */
  lemma PolygonRingsLast(cs: seq<LngLat>, counts: seq<int>, n: nat, rings: int,
                         project: Vec2 -> Vec2, toLocal: (Vec2, Box) -> Vec2, bounds: Box)
    requires RingsReadable(cs, counts, rings) && 0 < n <= rings
    ensures PolygonRings(cs, counts, n, rings, project, toLocal, bounds)
         == PolygonRings(cs, counts, n - 1, rings, project, toLocal, bounds)
            + [LocalLine(RingRun(cs, counts, rings, n - 1), project, toLocal, bounds)]
  {
  }

  lemma {:induction false} LocalLineLength(cs: seq<LngLat>, project: Vec2 -> Vec2, toLocal: (Vec2, Box) -> Vec2, bounds: Box)
    ensures |LocalLine(cs, project, toLocal, bounds)| == |cs|
  {
    if cs != [] { LocalLineLength(cs[..|cs| - 1], project, toLocal, bounds); }
  }

  /** Point i of a local line comes from coordinate i. */
  lemma {:induction false} LocalLineAt(cs: seq<LngLat>, project: Vec2 -> Vec2, toLocal: (Vec2, Box) -> Vec2, bounds: Box, i: nat)
    requires i < |cs|
    ensures |LocalLine(cs, project, toLocal, bounds)| == |cs|
    ensures LocalLine(cs, project, toLocal, bounds)[i] == LocalPoint(cs[i], project, toLocal, bounds)
  {
    LocalLineLength(cs, project, toLocal, bounds);
    if i < |cs| - 1 {
      LocalLineAt(cs[..|cs| - 1], project, toLocal, bounds, i);
    }
  }

  /** Normalising a concatenation normalises each part. */
  lemma {:induction false} LocalLineAppend(a: seq<LngLat>, b: seq<LngLat>, project: Vec2 -> Vec2,
                                           toLocal: (Vec2, Box) -> Vec2, bounds: Box)
    ensures LocalLine(a + b, project, toLocal, bounds)
         == LocalLine(a, project, toLocal, bounds) + LocalLine(b, project, toLocal, bounds)
  {
    if b != [] {
      assert (a + b)[..|a + b| - 1] == a + b[..|b| - 1];
      LocalLineAppend(a, b[..|b| - 1], project, toLocal, bounds);
    } else {
      assert a + b == a;
    }
  }

  lemma {:induction false} RingRunsLength(cs: seq<LngLat>, counts: seq<int>, rings: int, n: nat)
    requires RingsReadable(cs, counts, rings) && n <= rings
    ensures |RingRuns(cs, counts, rings, n)| == n
  {
    if n > 0 { RingRunsLength(cs, counts, rings, n - 1); }
  }

  /** Run i of the first n is ring i's coordinates: counts[i] of them when positive, none otherwise. */
  lemma {:induction false} RingRunsAt(cs: seq<LngLat>, counts: seq<int>, rings: int, n: nat, i: nat)
    requires RingsReadable(cs, counts, rings) && i < n <= rings
    ensures |RingRuns(cs, counts, rings, n)| == n
    ensures RingRuns(cs, counts, rings, n)[i] == RingRun(cs, counts, rings, i)
    ensures |RingRun(cs, counts, rings, i)| == if counts[i] > 0 then counts[i] else 0
  {
    RingRunsLength(cs, counts, rings, n - 1);
    if i < n - 1 { RingRunsAt(cs, counts, rings, n - 1, i); }
  }

  /** The rings built so far, read one after another, are the local points of the runs read one after another. */
  lemma {:induction false} PolygonRingsFlatten(cs: seq<LngLat>, counts: seq<int>, n: nat, rings: int,
                                               project: Vec2 -> Vec2, toLocal: (Vec2, Box) -> Vec2, bounds: Box)
    requires RingsReadable(cs, counts, rings) && n <= rings
    ensures Flatten(PolygonRings(cs, counts, n, rings, project, toLocal, bounds))
         == LocalLine(Flatten(RingRuns(cs, counts, rings, n)), project, toLocal, bounds)
  {
    if n > 0 {
      var run := RingRun(cs, counts, rings, n - 1);
      var line := LocalLine(run, project, toLocal, bounds);
      PolygonRingsFlatten(cs, counts, n - 1, rings, project, toLocal, bounds);
      PolygonRingsLast(cs, counts, n, rings, project, toLocal, bounds);
      FlattenSnoc(PolygonRings(cs, counts, n - 1, rings, project, toLocal, bounds), line);
      FlattenSnoc(RingRuns(cs, counts, rings, n - 1), run);
      LocalLineAppend(Flatten(RingRuns(cs, counts, rings, n - 1)), run, project, toLocal, bounds);
    }
  }

  /**
   * With no negative count among the first n, the runs are consecutive: read
   * one after another they are exactly the first RingStart(counts, n)
   * coordinates.
   */
  lemma {:induction false} RingRunsConsecutive(cs: seq<LngLat>, counts: seq<int>, rings: int, n: nat)
    requires RingsReadable(cs, counts, rings) && n <= rings
    requires forall i :: 0 <= i < n ==> counts[i] >= 0
    ensures 0 <= RingStart(counts, n) <= |cs|
    ensures Flatten(RingRuns(cs, counts, rings, n)) == cs[..RingStart(counts, n)]
  {
    if n == 0 {
      assert counts[..0] == [];
    } else {
      RingRunsConsecutive(cs, counts, rings, n - 1);
      SumStep(counts, n - 1);
      var s := RingStart(counts, n - 1);
      FlattenSnoc(RingRuns(cs, counts, rings, n - 1), RingRun(cs, counts, rings, n - 1));
      if counts[n - 1] > 0 {
        assert cs[..s + counts[n - 1]] == cs[..s] + cs[s..s + counts[n - 1]];
      } else {
        assert cs[..s] + [] == cs[..s];
      }
    }
  }

  /**
   * setPolygon's rings: exactly n of them, ring i the local points of ring
   * i's run of coordinates, and read one after another the local points of
   * the runs read one after another. With no negative count the runs are
   * consecutive slices of the coordinates, starting at the first.
   */
  lemma {:induction false} PolygonRingsConsecutive(cs: seq<LngLat>, counts: seq<int>, n: nat, rings: int,
                                                   project: Vec2 -> Vec2, toLocal: (Vec2, Box) -> Vec2, bounds: Box)
    requires RingsReadable(cs, counts, rings) && n <= rings
    ensures var r := PolygonRings(cs, counts, n, rings, project, toLocal, bounds);
      && |r| == n
      && (forall i :: 0 <= i < n ==> r[i] == LocalLine(RingRun(cs, counts, rings, i), project, toLocal, bounds))
      && Flatten(r) == LocalLine(Flatten(RingRuns(cs, counts, rings, n)), project, toLocal, bounds)
    ensures (forall i :: 0 <= i < n ==> counts[i] >= 0) ==>
      && 0 <= RingStart(counts, n) <= |cs|
      && Flatten(RingRuns(cs, counts, rings, n)) == cs[..RingStart(counts, n)]
  {
    PolygonRingsFlatten(cs, counts, n, rings, project, toLocal, bounds);
    if forall i :: 0 <= i < n ==> counts[i] >= 0 {
      RingRunsConsecutive(cs, counts, rings, n);
    }
  }

  /**
   * A negative count gives an empty ring and moves the next ring back over
   * coordinates already read: counts 2, -1, 2 over three coordinates give the
   * rings [c0, c1], [] and [c1, c2].
   */
  lemma NegativeCountStepsBack(c0: LngLat, c1: LngLat, c2: LngLat)
    ensures RingsReadable([c0, c1, c2], [2, -1, 2], 3)
    ensures RingRuns([c0, c1, c2], [2, -1, 2], 3, 3) == [[c0, c1], [], [c1, c2]]
  {
    var cs, counts := [c0, c1, c2], [2, -1, 2];
    assert counts[..0] == [] && counts[..1] == [2] && counts[..2] == [2, -1] && counts[..3] == counts;
    assert [2, -1][..1] == [2] && [2][..0] == [];
    assert RingStart(counts, 0) == 0 && RingStart(counts, 1) == 2 && RingStart(counts, 2) == 1;
    assert RingsReadable(cs, counts, 3);
    assert RingRun(cs, counts, 3, 0) == [c0, c1];
    assert RingRun(cs, counts, 3, 1) == [];
    assert RingRun(cs, counts, 3, 2) == [c1, c2];
    assert RingRuns(cs, counts, 3, 1) == [[c0, c1]];
    assert RingRuns(cs, counts, 3, 2) == [[c0, c1], []];
  }
  /**
   * The polyline bounds cover every input coordinate, and each of their
   * corner coordinates is attained by some input coordinate.
   */
  lemma PolylineBoundsTight(cs: seq<LngLat>)
    requires cs != []
    ensures forall i :: 0 <= i < |cs| ==> Covers(LineBounds(cs), Degrees(cs[i]))
    ensures var b := LineBounds(cs);
      && (exists i :: 0 <= i < |cs| && cs[i].longitude == b.min.x)
      && (exists i :: 0 <= i < |cs| && cs[i].latitude == b.min.y)
      && (exists i :: 0 <= i < |cs| && cs[i].longitude == b.max.x)
      && (exists i :: 0 <= i < |cs| && cs[i].latitude == b.max.y)
  {
    var ds := DegreesOf(cs);
    ExpandAllCovers(PointBox(Degrees(cs[0])), ds);
    assert ds[0] == Degrees(cs[0]);
    ExpandAllTight(ds);
  }

  /**
   * The polygon bounds cover every coordinate of every ring; when the outer
   * ring is not empty each of their corner coordinates is attained by a
   * coordinate of some ring.
   */
  lemma PolygonBoundsCover(cs: seq<LngLat>, counts: seq<int>, rings: int, defaultBox: Box)
    requires RingsReadable(cs, counts, rings)
    ensures forall k, j :: 0 <= k < rings && 0 <= j < |RingRun(cs, counts, rings, k)| ==>
      Covers(PolygonBounds(cs, counts, rings, defaultBox), Degrees(RingRun(cs, counts, rings, k)[j]))
    ensures counts[0] > 0 ==>
      var b := PolygonBounds(cs, counts, rings, defaultBox);
      var all := Flatten(RingRuns(cs, counts, rings, rings));
      && (exists i :: 0 <= i < |all| && all[i].longitude == b.min.x)
      && (exists i :: 0 <= i < |all| && all[i].latitude == b.min.y)
      && (exists i :: 0 <= i < |all| && all[i].longitude == b.max.x)
      && (exists i :: 0 <= i < |all| && all[i].latitude == b.max.y)
  {
    var b := PolygonBounds(cs, counts, rings, defaultBox);
    var runs := RingRuns(cs, counts, rings, rings);
    var all := Flatten(runs);
    var ds := DegreesOf(all);
    ExpandAllCovers(PolygonStart(cs, counts, rings, defaultBox), ds);
    forall k, j | 0 <= k < rings && 0 <= j < |RingRun(cs, counts, rings, k)|
      ensures Covers(b, Degrees(RingRun(cs, counts, rings, k)[j]))
    {
      RingRunsAt(cs, counts, rings, rings, k);
      FlattenHas(runs, k, j);
      var i :| 0 <= i < |all| && all[i] == runs[k][j];
      assert ds[i] == Degrees(all[i]);
    }
    if counts[0] > 0 {
      RingRunsFirst(cs, counts, rings, rings);
      assert ds[0] == Degrees(cs[0]);
      ExpandAllTight(ds);
    }
  }

  /** Read one after another, the runs of n >= 1 rings begin with the outer ring's run. */
  lemma {:induction false} RingRunsFirst(cs: seq<LngLat>, counts: seq<int>, rings: int, n: nat)
    requires RingsReadable(cs, counts, rings) && 1 <= n <= rings
    ensures RingRun(cs, counts, rings, 0) <= Flatten(RingRuns(cs, counts, rings, n))
    ensures counts[0] > 0 ==> |cs| > 0 && Flatten(RingRuns(cs, counts, rings, n))[0] == cs[0]
  {
    assert counts[..0] == [];
    FlattenSnoc(RingRuns(cs, counts, rings, n - 1), RingRun(cs, counts, rings, n - 1));
    if n > 1 {
      RingRunsFirst(cs, counts, rings, n - 1);
    } else {
      assert RingRuns(cs, counts, rings, 0) == [];
    }
  }
  /** The builder table after setScene: one builder per style, keyed by name, the last style of a name winning. */
  function BuilderTable(table: map<string, StyleBuilder>, styles: seq<Scenes.Style>): map<string, StyleBuilder>
  {
    if styles == [] then table
    else
      var last := styles[|styles| - 1];
      BuilderTable(table, styles[..|styles| - 1])[last.name := StyleBuilder(last.id)]
  }

  lemma {:induction false} BuilderTableLookup(table: map<string, StyleBuilder>, styles: seq<Scenes.Style>, name: string)
    ensures var t := BuilderTable(table, styles);
      && (name in t <==> name in table || exists i :: 0 <= i < |styles| && styles[i].name == name)
      && ((forall i :: 0 <= i < |styles| ==> styles[i].name != name) ==> (name in table ==> t[name] == table[name]))
      && (forall i :: (0 <= i < |styles| && styles[i].name == name
                       && forall j :: i < j < |styles| ==> styles[j].name != name) ==> t[name] == StyleBuilder(styles[i].id))
  {
    if styles != [] {
      var init := styles[..|styles| - 1];
      BuilderTableLookup(table, init, name);
      assert forall i :: 0 <= i < |init| ==> init[i] == styles[i];
    }
  }

  /** The style context after compiling the scene functions from the watermark on, and the new watermark. */
  function CompileNew(compiled: seq<string>, watermark: nat, functions: seq<string>): (seq<string>, nat)
  {
    (compiled + (if watermark < |functions| then functions[watermark..] else []), |functions|)
  }

  /**
   * From a synced style context, registering the styling's functions and then
   * compiling from the watermark leaves the context holding exactly the
   * scene's new table, and so every function the styling registered.
   */
  lemma StylingFunctionsCompiled(table: seq<string>, watermark: nat, sources: seq<string>)
    requires watermark <= |table|
    ensures var t := Scenes.WithFunctions(table, sources);
      && CompileNew(table[..watermark], watermark, t) == (t, |t|)
      && forall f :: f in sources ==> f in t
  {
    Scenes.WithFunctionsSpec(table, sources);
    WatermarkCatchesUp(table[..watermark], Scenes.WithFunctions(table, sources));
  }

  /**
   * Restyling with the same text is idempotent: after a first restyling from
   * a synced context, a second one registers no new function and compiles
   * nothing, so the table, the context and the watermark stay as they were.
   */
  lemma RestylingTwiceAddsNothing(table: seq<string>, watermark: nat, sources: seq<string>)
    requires watermark <= |table|
    ensures var t := Scenes.WithFunctions(table, sources);
      var after := CompileNew(table[..watermark], watermark, t);
      && Scenes.WithFunctions(t, sources) == t
      && CompileNew(after.0, after.1, Scenes.WithFunctions(t, sources)) == after
  {
    var t := Scenes.WithFunctions(table, sources);
    StylingFunctionsCompiled(table, watermark, sources);
    Scenes.KnownSourcesAddNothing(t, sources);
    assert CompileNew(t, |t|, t) == (t + [], |t|);
    assert t + [] == t;
  }

  /**
   * When the style context holds exactly the scene's functions as they were,
   * and the scene's table has since only grown by appending, compiling from
   * the watermark leaves the context holding exactly the current functions,
   * each once and in order.
   */
  lemma WatermarkCatchesUp(before: seq<string>, functions: seq<string>)
    requires before <= functions
    ensures CompileNew(before, |before|, functions) == (functions, |functions|)
  {
    if |before| < |functions| {
      assert before == functions[..|before|];
      assert functions == functions[..|before|] + functions[|before|..];
    } else {
      assert before == functions[..|before|] == functions;
      assert before + [] == functions;
    }
  }

  predicate NeedsPointFeature(s: MarkerState)
  {
    s.mesh.None? || s.feature.None? || !s.feature.value.Points?
  }

  /** setPoint: make a fresh one-point feature and build it if needed, then move the bounds to the point. */
  function PointPlaced(s: MarkerState, meters: Vec2, zoom: int, builders: map<string, StyleBuilder>,
                       evaluate: (DrawRule, int) -> bool): MarkerState
  {
    var s1 := if NeedsPointFeature(s)
              then Built(s.(feature := Some(Points([Point(0.0, 0.0, 0.0)]))), zoom, builders, evaluate)
              else s;
    s1.(bounds := PointBox(meters))
  }

  /**
   * setPoint always leaves a point feature and bounds degenerate at the
   * point, and keeps the rule and the ease. It rebuilds only when the marker
   * had no mesh or no point feature, and then with a fresh one-point feature;
   * otherwise only the bounds move. So once a point has a mesh, placing it
   * again only moves its bounds.
   */
  lemma PointPlacedOutcome(s: MarkerState, m1: Vec2, m2: Vec2, zoom: int, builders: map<string, StyleBuilder>,
                           evaluate: (DrawRule, int) -> bool)
    ensures var r := PointPlaced(s, m1, zoom, builders, evaluate);
      && r.bounds == PointBox(m1) && r.feature.Some? && r.feature.value.Points?
      && r.rule == s.rule && r.ease == s.ease
      && (!NeedsPointFeature(s) ==> r == s.(bounds := PointBox(m1)))
      && (NeedsPointFeature(s) ==>
            r == Built(s.(feature := Some(Points([Point(0.0, 0.0, 0.0)]))), zoom, builders, evaluate).(bounds := PointBox(m1)))
      && (r.mesh.Some? ==> PointPlaced(r, m2, zoom, builders, evaluate) == r.(bounds := PointBox(m2)))
  {
    var f := s.(feature := Some(Points([Point(0.0, 0.0, 0.0)])));
    BuildOutcome(f, zoom, builders, evaluate);
  }

  predicate DistinctMarkers(ms: seq<Marker>)
  {
    forall i, j :: 0 <= i < j < |ms| ==> ms[i] != ms[j]
  }

  /**
   * One run of the bounds loops: expand the box by each coordinate in turn;
   * with resetFirst, the first coordinate replaces the box before expanding.
   */
  method ExpandRun(b: Box, run: seq<LngLat>, resetFirst: bool) returns (bounds: Box)
    ensures bounds == ExpandAll(if resetFirst && run != [] then PointBox(Degrees(run[0])) else b, DegreesOf(run))
  {
    ghost var start := if resetFirst && run != [] then PointBox(Degrees(run[0])) else b;
    bounds := b;
    var j := 0;
    while j < |run|
      invariant 0 <= j <= |run|
      invariant bounds == if j == 0 then b else ExpandAll(start, DegreesOf(run[..j]))
    {
      assert DegreesOf(run[..j + 1])[..j] == DegreesOf(run[..j]);
      if resetFirst && j == 0 {
        bounds := PointBox(Degrees(run[0]));
      }
      bounds := Expand(bounds, run[j].longitude, run[j].latitude);
      j := j + 1;
    }
    assert run[..j] == run;
  }

  /** The line loops: project and normalise each coordinate of a run, in order. */
  method LocalizeLine(run: seq<LngLat>, project: Vec2 -> Vec2, toLocal: (Vec2, Box) -> Vec2, bounds: Box)
    returns (line: seq<Point>)
    ensures line == LocalLine(run, project, toLocal, bounds)
  {
    line := [];
    var j := 0;
    while j < |run|
      invariant 0 <= j <= |run|
      invariant line == LocalLine(run[..j], project, toLocal, bounds)
    {
      assert run[..j + 1][..j] == run[..j];
      line := line + [LocalPoint(run[j], project, toLocal, bounds)];
      j := j + 1;
    }
    assert run[..j] == run;
  }

  /** The addJsFunction calls parseStyleParams makes, one per function source of the styling. */
  method RegisterFunctions(s: Scenes.Scene, sources: seq<string>)
    modifies s`jsFunctions
    ensures s.jsFunctions == Scenes.WithFunctions(old(s.jsFunctions), sources)
  {
    var k := 0;
    while k < |sources|
      invariant 0 <= k <= |sources|
      invariant s.jsFunctions == Scenes.WithFunctions(old(s.jsFunctions), sources[..k])
    {
      assert sources[..k + 1][..k] == sources[..k];
      var index := s.AddJsFunction(sources[k]);
      k := k + 1;
    }
    assert sources[..k] == sources;
  }

  class MarkerManager {
    var markers: seq<Marker>
    var zoom: int
    var jsFnIndex: nat
    /** The functions compiled into the style context, in the order they were added. */
    var compiled: seq<string>
    var styleBuilders: map<string, StyleBuilder>
    var scene: Scenes.Scene?

    /** SceneLoader::parseStyleParams on the parsed styling text (not modelled). */
    const parseStyling: string -> ParsedStyling
    /** The rule evaluator at a keyword zoom (not modelled). */
    const evaluate: (DrawRule, int) -> bool
    /** (meters - origin) * (1 / extent) against the marker's bounds (not modelled). */
    const toLocal: (Vec2, Box) -> Vec2
    /** A default-constructed BoundingBox. */
    const defaultBox: Box

    ghost predicate Valid()
      reads this
    {
      DistinctMarkers(markers) && (markers != [] ==> scene != null)
    }

    /** The style context holds exactly the scene's functions below the watermark. */
    ghost predicate Synced()
      reads this, scene
    {
      scene != null && jsFnIndex <= |scene.jsFunctions| && compiled == scene.jsFunctions[..jsFnIndex]
    }

    constructor (initialZoom: int, parseStyling: string -> ParsedStyling, evaluate: (DrawRule, int) -> bool,
                 toLocal: (Vec2, Box) -> Vec2, defaultBox: Box)
      ensures Valid() && markers == [] && zoom == initialZoom && scene == null
      ensures jsFnIndex == 0 && compiled == [] && styleBuilders == map[]
      ensures this.parseStyling == parseStyling && this.evaluate == evaluate
      ensures this.toLocal == toLocal && this.defaultBox == defaultBox
    {
      markers, zoom, jsFnIndex, compiled, styleBuilders, scene := [], initialZoom, 0, [], map[], null;
      this.parseStyling, this.evaluate, this.toLocal, this.defaultBox := parseStyling, evaluate, toLocal, defaultBox;
    }

    /** setScene: bind the scene, compile all its functions, register a builder per style. */
    method SetScene(s: Scenes.Scene)
      requires Valid()
      modifies this
      ensures Valid() && Synced() && scene == s && markers == old(markers) && zoom == old(zoom)
      ensures compiled == s.jsFunctions && jsFnIndex == |s.jsFunctions|
      ensures styleBuilders == BuilderTable(old(styleBuilders), s.styles)
    {
      scene := s;
      compiled := s.jsFunctions;
      jsFnIndex := |s.jsFunctions|;
      var i := 0;
      while i < |s.styles|
        invariant 0 <= i <= |s.styles|
        invariant styleBuilders == BuilderTable(old(styleBuilders), s.styles[..i])
        invariant scene == s && compiled == s.jsFunctions && jsFnIndex == |s.jsFunctions|
        invariant markers == old(markers) && zoom == old(zoom)
      {
        assert s.styles[..i + 1][..i] == s.styles[..i];
        styleBuilders := styleBuilders[s.styles[i].name := StyleBuilder(s.styles[i].id)];
        i := i + 1;
      }
      assert s.styles[..i] == s.styles;
      assert s.jsFunctions[..jsFnIndex] == s.jsFunctions;
    }

    /** contains: whether the handle is one of this manager's markers. */
    method Contains(marker: Marker?) returns (found: bool)
      ensures found <==> marker != null && marker in markers
    {
      var i := 0;
      while i < |markers|
        invariant 0 <= i <= |markers|
        invariant forall k :: 0 <= k < i ==> markers[k] != marker
      {
        if markers[i] == marker { return true; }
        i := i + 1;
      }
      return false;
    }

    /** add: append a new empty marker and style it. */
    method Add(styling: string) returns (marker: Marker)
      requires Valid() && scene != null
      modifies this, scene`jsFunctions
      ensures Valid() && fresh(marker)
      ensures markers == old(markers) + [marker]
      ensures marker.State() == EmptyMarker().(rule := Some(parseStyling(styling).rule))
      ensures scene.jsFunctions == Scenes.WithFunctions(old(scene.jsFunctions), parseStyling(styling).functions)
      ensures (compiled, jsFnIndex) == CompileNew(old(compiled), old(jsFnIndex), scene.jsFunctions)
      ensures old(Synced()) ==>
        Synced() && compiled == scene.jsFunctions && forall f :: f in parseStyling(styling).functions ==> f in compiled
      ensures zoom == old(zoom) && styleBuilders == old(styleBuilders) && scene == old(scene)
    {
      marker := new Marker();
      markers := markers + [marker];
      var ok := SetStyling(marker, styling);
    }

    /** remove: erase the marker by identity; false when it is not in the collection. */
    method Remove(marker: Marker?) returns (removed: bool)
      requires Valid()
      modifies this
      ensures Valid()
      ensures removed <==> marker != null && marker in old(markers)
      ensures !removed ==> markers == old(markers)
      ensures removed ==> exists i :: 0 <= i < |old(markers)| && old(markers)[i] == marker
                                      && markers == old(markers)[..i] + old(markers)[i + 1..]
      ensures marker !in markers
      ensures zoom == old(zoom) && jsFnIndex == old(jsFnIndex) && compiled == old(compiled)
      ensures styleBuilders == old(styleBuilders) && scene == old(scene)
    {
      var i := 0;
      while i < |markers|
        invariant 0 <= i <= |markers|
        invariant forall k :: 0 <= k < i ==> markers[k] != marker
      {
        if markers[i] == marker {
          ghost var before := markers;
          markers := markers[..i] + markers[i + 1..];
          assert forall k :: 0 <= k < |markers| ==> markers[k] == (if k < i then before[k] else before[k + 1]);
          return true;
        }
        i := i + 1;
      }
      return false;
    }

    /** removeAll: drop every marker. */
    method RemoveAll()
      requires Valid()
      modifies this
      ensures Valid() && markers == []
      ensures zoom == old(zoom) && jsFnIndex == old(jsFnIndex) && compiled == old(compiled)
      ensures styleBuilders == old(styleBuilders) && scene == old(scene)
    {
      markers := [];
    }

    /** build: attach a mesh for the marker's feature and rule at the given zoom, when possible. */
    method Build(marker: Marker, buildZoom: int)
      modifies marker
      ensures marker.State() == Built(old(marker.State()), buildZoom, styleBuilders, evaluate)
    {
      if marker.rule.None? || marker.feature.None? { return; }
      var name := marker.rule.value.styleName;
      if name !in styleBuilders {
        return;  // "Invalid style" is logged
      }
      var styler := styleBuilders[name];
      var valid := evaluate(marker.rule.value, buildZoom);
      if valid {
        marker.mesh := Some(Mesh(styler.styleId, buildZoom, marker.feature.value, marker.rule.value));
        marker.builtZoom := Some(buildZoom);
      }
    }

    /**
     * setStyling: parse the styling, which registers its functions with the
     * scene, compile the scene functions past the watermark, replace the rule
     * and rebuild.
     */
    method SetStyling(marker: Marker?, styling: string) returns (ok: bool)
      requires Valid()
      modifies this, marker, (if scene == null then {} else {scene})`jsFunctions
      ensures Valid() && markers == old(markers) && zoom == old(zoom)
      ensures styleBuilders == old(styleBuilders) && scene == old(scene)
      ensures ok <==> marker != null && marker in markers
      ensures !ok ==> jsFnIndex == old(jsFnIndex) && compiled == old(compiled)
      ensures !ok && marker != null ==> unchanged(marker)
      ensures !ok && scene != null ==> scene.jsFunctions == old(scene.jsFunctions)
      ensures ok ==> scene != null
      ensures ok ==> scene.jsFunctions == Scenes.WithFunctions(old(scene.jsFunctions), parseStyling(styling).functions)
      ensures ok ==> (compiled, jsFnIndex) == CompileNew(old(compiled), old(jsFnIndex), scene.jsFunctions)
      ensures old(Synced()) ==> Synced()
      ensures ok && old(Synced()) ==>
        compiled == scene.jsFunctions && forall f :: f in parseStyling(styling).functions ==> f in compiled
      // restyling with functions already compiled, as a repeated call does, changes no table
      ensures ok && old(Synced()) && old(jsFnIndex) == |old(scene.jsFunctions)|
              && (forall f :: f in parseStyling(styling).functions ==> f in old(scene.jsFunctions)) ==>
        scene.jsFunctions == old(scene.jsFunctions) && compiled == old(compiled) && jsFnIndex == old(jsFnIndex)
      ensures ok ==> marker.State() == Built(old(marker.State()).(rule := Some(parseStyling(styling).rule)),
                                             zoom, styleBuilders, evaluate)
    {
      if marker == null { return false; }
      var found := Contains(marker);
      if !found { return false; }

      var parsed := parseStyling(styling);
      RegisterFunctions(scene, parsed.functions);

      CompileSceneFunctions();
      if old(Synced()) {
        StylingFunctionsCompiled(old(scene.jsFunctions), old(jsFnIndex), parsed.functions);
        if forall f :: f in parsed.functions ==> f in old(scene.jsFunctions) {
          Scenes.KnownSourcesAddNothing(old(scene.jsFunctions), parsed.functions);
        }
      }

      marker.rule := Some(parsed.rule);
      Build(marker, zoom);
      ok := true;
    }

    /** The compile loop of setStyling: add the scene functions past the watermark to the context. */
    method CompileSceneFunctions()
      requires scene != null
      modifies this`compiled, this`jsFnIndex
      ensures (compiled, jsFnIndex) == CompileNew(old(compiled), old(jsFnIndex), scene.jsFunctions)
    {
      var functions := scene.jsFunctions;
      var i := jsFnIndex;
      while i < |functions|
        invariant jsFnIndex < |functions| ==> jsFnIndex <= i <= |functions|
        invariant jsFnIndex < |functions| ==> compiled == old(compiled) + functions[jsFnIndex..i]
        invariant jsFnIndex >= |functions| ==> i == jsFnIndex && compiled == old(compiled)
        invariant jsFnIndex == old(jsFnIndex)
      {
        assert functions[jsFnIndex..i + 1] == functions[jsFnIndex..i] + [functions[i]];
        compiled := compiled + [functions[i]];
        i := i + 1;
      }
      if jsFnIndex < |functions| {
        assert functions[jsFnIndex..i] == functions[jsFnIndex..];
      } else {
        assert compiled == old(compiled) + [];
      }
      jsFnIndex := |functions|;
    }

    /** setPoint: make sure the marker has a built point feature, then place its bounds on the point. */
    method SetPoint(marker: Marker?, lngLat: LngLat) returns (ok: bool)
      requires Valid()
      modifies marker
      ensures ok <==> marker != null && marker in markers
      ensures !ok && marker != null ==> unchanged(marker)
      ensures ok ==> scene != null
      ensures ok ==> marker.State() == PointPlaced(old(marker.State()), scene.projection(Degrees(lngLat)),
                                                   zoom, styleBuilders, evaluate)
      ensures ok ==> marker.bounds == PointBox(scene.projection(Degrees(lngLat)))
                     && marker.feature.Some? && marker.feature.value.Points?
    {
      if marker == null { return false; }
      var found := Contains(marker);
      if !found { return false; }

      if marker.mesh.None? || marker.feature.None? || !marker.feature.value.Points? {
        marker.feature := Some(Points([Point(0.0, 0.0, 0.0)]));
        Build(marker, zoom);
      }
      var origin := scene.projection(Degrees(lngLat));
      marker.bounds := PointBox(origin);
      ok := true;
    }

    /** setPointEased: record an animation target, only for a marker with a built point feature. */
    method SetPointEased(marker: Marker?, lngLat: LngLat, duration: real, curve: nat) returns (ok: bool)
      requires Valid()
      modifies marker
      ensures ok <==> marker != null && marker in markers && !NeedsPointFeature(old(marker.State()))
      ensures !ok && marker != null ==> unchanged(marker)
      ensures ok ==> scene != null
      ensures ok ==> marker.State() == old(marker.State()).(ease := Some(Ease(scene.projection(Degrees(lngLat)), duration, curve)))
    {
      if marker == null { return false; }
      var found := Contains(marker);
      if !found { return false; }

      if marker.mesh.None? || marker.feature.None? || !marker.feature.value.Points? {
        return false;
      }
      var dest := scene.projection(Degrees(lngLat));
      marker.ease := Some(Ease(dest, duration, curve));
      ok := true;
    }

    /** setPolyline: replace the marker's geometry by one line of `count` points and rebuild. */
    method SetPolyline(marker: Marker?, coordinates: Option<seq<LngLat>>, count: int) returns (ok: bool)
      requires Valid()
      requires marker != null && marker in markers && coordinates.Some? && count >= 2 ==> count <= |coordinates.value|
      modifies marker
      ensures ok <==> marker != null && marker in markers && coordinates.Some? && count >= 2
      ensures !ok && marker != null ==> unchanged(marker)
      ensures ok ==> scene != null
      ensures ok ==>
        var cs := coordinates.value[..count];
        var bounds := ProjectBox(LineBounds(cs), scene.projection);
        var line := LocalLine(cs, scene.projection, toLocal, bounds);
        marker.State() == Built(old(marker.State()).(bounds := bounds, feature := Some(Lines([line]))),
                                zoom, styleBuilders, evaluate)
    {
      if marker == null { return false; }
      var found := Contains(marker);
      if !found { return false; }
      if coordinates.None? || count < 2 { return false; }

      var cs := coordinates.value;
      var project := scene.projection;

      // Determine the bounds of the polyline.
      var run := cs[..count];
      var bounds := ExpandRun(PointBox(Degrees(cs[0])), run, false);
      bounds := ProjectBox(bounds, project);
      marker.bounds := bounds;

      // Project and offset the coordinates into the marker-local coordinate system.
      var line := LocalizeLine(run, project, toLocal, bounds);

      marker.feature := Some(Lines([line]));
      Build(marker, zoom);
      ok := true;
    }

    /**
     * setPolygon, first pass: the bounds in degrees of all coordinates of all
     * rings. The pointer steps by each count, back for a negative one.
     */
    method PolygonDegreesBounds(cs: seq<LngLat>, ns: seq<int>, rings: int) returns (bounds: Box)
      requires RingsReadable(cs, ns, rings)
      ensures bounds == PolygonBounds(cs, ns, rings, defaultBox)
    {
      assert RingStart(ns, 0) == 0 by { assert ns[..0] == []; }
      bounds := defaultBox;
      var offset := 0;
      var i := 0;
      while i < rings
        invariant 0 <= i <= rings
        invariant offset == RingStart(ns, i)
        invariant bounds == PolygonBoundsUpTo(cs, ns, rings, i, defaultBox)
      {
        bounds := ExpandRing(cs, ns, rings, i, offset, bounds);
        SumStep(ns, i);
        offset := offset + ns[i];
        i := i + 1;
      }
    }

    /** One ring of the bounds loop: the inner loop runs over counts[i] coordinates from the ring's start. */
    method ExpandRing(cs: seq<LngLat>, ns: seq<int>, rings: int, i: nat, offset: int, b: Box) returns (bounds: Box)
      requires RingsReadable(cs, ns, rings) && i < rings && offset == RingStart(ns, i)
      requires b == PolygonBoundsUpTo(cs, ns, rings, i, defaultBox)
      ensures bounds == PolygonBoundsUpTo(cs, ns, rings, i + 1, defaultBox)
    {
      var run := if ns[i] > 0 then cs[offset..offset + ns[i]] else [];
      assert run == RingRun(cs, ns, rings, i);
      PolygonBoundsStep(cs, ns, rings, i, defaultBox);
      bounds := ExpandRun(b, run, i == 0);
    }

    /** setPolygon, second pass: each ring's coordinates projected and normalised against the bounds. */
    method LocalRings(cs: seq<LngLat>, ns: seq<int>, rings: int, project: Vec2 -> Vec2, bounds: Box)
      returns (polygon: seq<seq<Point>>)
      requires RingsReadable(cs, ns, rings)
      ensures polygon == PolygonRings(cs, ns, rings, rings, project, toLocal, bounds)
    {
      assert ns[..0] == [];
      polygon := [];
      var offset := 0;
      var i := 0;
      while i < rings
        invariant 0 <= i <= rings
        invariant offset == RingStart(ns, i)
        invariant polygon == PolygonRings(cs, ns, i, rings, project, toLocal, bounds)
      {
        var run := if ns[i] > 0 then cs[offset..offset + ns[i]] else [];
        assert run == RingRun(cs, ns, rings, i);
        var line := LocalizeLine(run, project, toLocal, bounds);
        PolygonRingsLast(cs, ns, i + 1, rings, project, toLocal, bounds);
        polygon := polygon + [line];
        SumStep(ns, i);
        offset := offset + ns[i];
        i := i + 1;
      }
    }

    /** setPolygon: replace the marker's geometry by one polygon of `rings` rings and rebuild. */
    method SetPolygon(marker: Marker?, coordinates: Option<seq<LngLat>>, counts: Option<seq<int>>, rings: int)
      returns (ok: bool)
      requires Valid()
      requires marker != null && marker in markers && coordinates.Some? && counts.Some? && rings >= 1
               ==> RingsReadable(coordinates.value, counts.value, rings)
      modifies marker
      ensures ok <==> marker != null && marker in markers && coordinates.Some? && counts.Some? && rings >= 1
      ensures !ok && marker != null ==> unchanged(marker)
      ensures ok ==> scene != null
      ensures ok ==>
        var cs := coordinates.value;
        var ns := counts.value;
        var bounds := ProjectBox(PolygonBounds(cs, ns, rings, defaultBox), scene.projection);
        var polygon := PolygonRings(cs, ns, rings, rings, scene.projection, toLocal, bounds);
        marker.State() == Built(old(marker.State()).(bounds := bounds, feature := Some(Polygons([polygon]))),
                                zoom, styleBuilders, evaluate)
    {
      if marker == null { return false; }
      var found := Contains(marker);
      if !found { return false; }
      if coordinates.None? || counts.None? || rings < 1 { return false; }

      var cs := coordinates.value;
      var ns := counts.value;
      var project := scene.projection;

      var bounds := PolygonDegreesBounds(cs, ns, rings);
      bounds := ProjectBox(bounds, project);
      marker.bounds := bounds;

      var polygon := LocalRings(cs, ns, rings, project, bounds);
      marker.feature := Some(Polygons([polygon]));
      Build(marker, zoom);
      ok := true;
    }

    /** update: rebuild every marker built for another zoom; report whether any was. */
    method Update(newZoom: int) returns (rebuilt: bool)
      requires Valid()
      modifies this, markers
      ensures Valid() && markers == old(markers) && zoom == newZoom
      ensures jsFnIndex == old(jsFnIndex) && compiled == old(compiled)
      ensures styleBuilders == old(styleBuilders) && scene == old(scene)
      ensures newZoom == old(zoom) ==> !rebuilt
      ensures newZoom == old(zoom) ==> forall k :: 0 <= k < |markers| ==> markers[k].State() == old(markers[k].State())
      ensures newZoom != old(zoom) ==>
        (rebuilt <==> exists k :: 0 <= k < |markers| && old(markers[k].builtZoom) != Some(newZoom))
      ensures newZoom != old(zoom) ==> forall k :: 0 <= k < |markers| ==>
        markers[k].State() == Rebuilt(old(markers[k].State()), newZoom, styleBuilders, evaluate)
    {
      if newZoom == zoom {
        return false;
      }
      rebuilt := false;
      var i := 0;
      while i < |markers|
        invariant 0 <= i <= |markers|
        invariant markers == old(markers) && zoom == old(zoom) && scene == old(scene)
        invariant jsFnIndex == old(jsFnIndex) && compiled == old(compiled) && styleBuilders == old(styleBuilders)
        invariant forall k :: 0 <= k < i ==>
          markers[k].State() == Rebuilt(old(markers[k].State()), newZoom, styleBuilders, evaluate)
        invariant forall k :: i <= k < |markers| ==> markers[k].State() == old(markers[k].State())
        invariant rebuilt <==> exists k :: 0 <= k < i && old(markers[k].builtZoom) != Some(newZoom)
      {
        var marker := markers[i];
        if marker.builtZoom != Some(newZoom) {
          Build(marker, newZoom);
          rebuilt := true;
        }
        i := i + 1;
      }
      zoom := newZoom;
    }
  }
}
