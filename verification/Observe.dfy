/** A planner's view of its units, and what such a view promises: internal/observe/observe.go. Points have coordinates, but distance is whatever metric
    the caller supplies, so nothing here rests on square roots. */
module Observe {
  import opened Basics

  datatype Point = Point(x: real, y: real, z: real)

  /** Ground given to a unit, as the points a line is drawn through. */
  datatype Path = Path(entity: string, points: seq<Point>)

  datatype Position = Position(entity: string, at: Point)

  /** Distance between points, and from a segment to a point. */
  datatype Metric = Metric(gap: (Point, Point) -> real, segment: (Point, Point, Point) -> real)

  /** The closest path, and how close it comes. */
  datatype Close = Close(entity: string, distance: real)

  datatype Whereabouts = Whereabouts(
    reach: (Time, Time, seq<Kind>) -> seq<Path>,
    positions: (Time, seq<Kind>) -> seq<Position>,
    speed: real)

  // ---------- How close a path comes ----------

  /** None is infinitely far: a path with no points comes near nothing. */
  function PathDistance(m: Metric, points: seq<Point>, q: Point): Option<real>
  {
    if |points| == 0 then None
    else if |points| == 1 then Some(m.gap(points[0], q))
    else
      var n := |points|;
      Some(MinReal(PathDistance(m, points[..n - 1], q).value, m.segment(points[n - 2], points[n - 1], q)))
  }

  method DistanceTo(m: Metric, path: Path, q: Point) returns (nearest: Option<real>)
    ensures nearest == PathDistance(m, path.points, q)
  {
    nearest := None;
    for i := 0 to |path.points|
      invariant nearest == PathDistance(m, path.points[..i], q)
      invariant nearest.Some? <==> i > 0
    {
      assert path.points[..i + 1][..i] == path.points[..i];
      if i == 0 {
        nearest := Some(m.gap(path.points[0], q));
      } else {
        nearest := Some(MinReal(nearest.value, m.segment(path.points[i - 1], path.points[i], q)));
      }
    }
    assert path.points[..|path.points|] == path.points;
  }

  /** Whether a is strictly nearer than b, None being infinitely far. */
  predicate Nearer(a: Option<real>, b: Option<real>)
  {
    a.Some? && (b.None? || a.value < b.value)
  }

  function Distance(close: Option<Close>): Option<real>
  {
    if close.Some? then Some(close.value.distance) else None
  }

  /** The first of the paths that come closest to q. */
  function NearestOf(m: Metric, paths: seq<Path>, q: Point): Option<Close>
  {
    if |paths| == 0 then None
    else
      var n := |paths|;
      var before := NearestOf(m, paths[..n - 1], q);
      var d := PathDistance(m, paths[n - 1].points, q);
      if Nearer(d, Distance(before)) then Some(Close(paths[n - 1].entity, d.value)) else before
  }

  method Nearest(m: Metric, paths: seq<Path>, q: Point) returns (close: Option<Close>)
    ensures close == NearestOf(m, paths, q)
  {
    close := None;
    for i := 0 to |paths|
      invariant close == NearestOf(m, paths[..i], q)
    {
      assert paths[..i + 1][..i] == paths[..i];
      var d := DistanceTo(m, paths[i], q);
      if Nearer(d, Distance(close)) {
        close := Some(Close(paths[i].entity, d.value));
      }
    }
    assert paths[..|paths|] == paths;
  }

  /** The answer is a path's own distance, no path comes closer, and every path listed
      before the one named is strictly farther: a tie goes to the first. */
  lemma {:induction false} NearestIsFirstLeast(m: Metric, paths: seq<Path>, q: Point)
    ensures var close := NearestOf(m, paths, q);
            && (close.None? <==> forall k :: 0 <= k < |paths| ==> PathDistance(m, paths[k].points, q).None?)
            && (close.Some? ==> exists k ::
                  && 0 <= k < |paths|
                  && paths[k].entity == close.value.entity
                  && PathDistance(m, paths[k].points, q) == Some(close.value.distance)
                  && (forall j :: 0 <= j < k ==> Nearer(Some(close.value.distance), PathDistance(m, paths[j].points, q)))
                  && (forall j :: 0 <= j < |paths| ==> !Nearer(PathDistance(m, paths[j].points, q), Some(close.value.distance))))
  {
    if |paths| > 0 {
      var n := |paths|;
      var before := paths[..n - 1];
      NearestIsFirstLeast(m, before, q);
      assert forall j :: 0 <= j < n - 1 ==> before[j] == paths[j];
      var d := PathDistance(m, paths[n - 1].points, q);
      if Nearer(d, Distance(NearestOf(m, before, q))) {
        assert forall j :: 0 <= j < n - 1 ==> Nearer(d, PathDistance(m, before[j].points, q));
      }
    }
  }

  // ---------- The contract a planner relies on ----------

  /** Two distances within a bound of each other; infinitely far only together. */
  ghost predicate Near(a: Option<real>, b: Option<real>, bound: real)
  {
    && (a.Some? <==> b.Some?)
    && (a.Some? ==> AbsReal(a.value - b.value) <= bound)
  }

  /** Between two moments a reach has moved toward a point, or away from it, no faster than
      `speed`. */
  ghost predicate KeepsPace(m: Metric, w: Whereabouts, speed: real, t1: Time, t2: Time, lookahead: Time, protect: seq<Kind>, q: Point)
  {
    Near(Distance(NearestOf(m, w.reach(t1, lookahead, protect), q)),
         Distance(NearestOf(m, w.reach(t2, lookahead, protect), q)),
         speed * (t2 - t1) as real)
  }

  /** No reach moves toward any point, or away from it, faster than `speed`. */
  ghost predicate Bounded(m: Metric, w: Whereabouts, speed: real)
  {
    forall t1: Time, t2: Time, lookahead: Time, protect: seq<Kind>, q: Point | t1 <= t2 ::
      KeepsPace(m, w, speed, t1, t2, lookahead, protect, q)
  }

  /** Everywhere a unit is over a lookahead is ground its reach covers. */
  ghost predicate Covering(m: Metric, w: Whereabouts)
  {
    forall t: Time, u: Time, lookahead: Time, protect: seq<Kind> | t <= u <= t + lookahead ::
      forall unit :: unit in w.positions(u, protect) ==> Holds(m, w.reach(t, lookahead, protect), unit)
  }

  predicate Holds(m: Metric, paths: seq<Path>, unit: Position)
  {
    exists k :: 0 <= k < |paths| && paths[k].entity == unit.entity && PathDistance(m, paths[k].points, unit.at) == Some(0.0)
  }
}
