/** Exactly when a reach keeps the pace the planner's skipping rests on, whoever and however many
    it is of: internal/observe/observe.go:25-67. */
module Pace {
  import opened Basics
  import opened Observe
  import Tracks

  /** How near some paths come to a point. */
  function Reaching(m: Metric, paths: seq<Path>, q: Point): Option<real> { Distance(NearestOf(m, paths, q)) }

  /** A point some path goes through. */
  predicate Through(m: Metric, paths: seq<Path>, x: Point) { Reaching(m, paths, x) == Some(0.0) }

  /** No point some paths go through is farther than a bound from others. */
  ghost predicate Stays(m: Metric, a: seq<Path>, b: seq<Path>, bound: real)
  {
    forall x :: Through(m, a, x) ==> Reaching(m, b, x).Some? && Reaching(m, b, x).value <= bound
  }

  // ---------- One path ----------

  lemma Symmetric(m: Metric, p: Point, q: Point)
    requires Tracks.Straight(m)
    ensures m.gap(p, q) == m.gap(q, p) && m.gap(p, q) >= 0.0 && m.gap(p, p) == 0.0
  {
  }

  /** A line is no farther from one point than from another, but for how far apart they are. */
  lemma LineVia(m: Metric, a: Point, b: Point, y: Point, q: Point)
    requires Tracks.Straight(m)
    ensures m.segment(a, b, q) <= m.segment(a, b, y) + m.gap(y, q)
  {
    var s := LineMeets(m, a, b, y);
    LineIsWithin(m, a, b, q, s);
    hide Tracks.Straight;
    Tracks.ThroughPoint(m, Tracks.Along(a, b, s), y, q);
  }

  lemma LineMeets(m: Metric, a: Point, b: Point, q: Point) returns (s: real)
    requires Tracks.Straight(m)
    ensures 0.0 <= s <= 1.0 && m.segment(a, b, q) == m.gap(Tracks.Along(a, b, s), q)
  {
    assert Tracks.Meets(m, a, b, q);
    s :| 0.0 <= s <= 1.0 && m.segment(a, b, q) == m.gap(Tracks.Along(a, b, s), q);
  }

  lemma LineIsWithin(m: Metric, a: Point, b: Point, q: Point, s: real)
    requires Tracks.Straight(m) && 0.0 <= s <= 1.0
    ensures m.segment(a, b, q) <= m.gap(Tracks.Along(a, b, s), q)
  {
  }

  lemma {:induction false} PathVia(m: Metric, points: seq<Point>, y: Point, q: Point)
    requires Tracks.Straight(m) && points != []
    ensures PathDistance(m, points, y).Some? && PathDistance(m, points, q).Some?
    ensures 0.0 <= PathDistance(m, points, y).value && PathDistance(m, points, q).value <= PathDistance(m, points, y).value + m.gap(y, q)
    decreases |points|
  {
    hide Tracks.Straight, Tracks.Along;
    var n := |points|;
    if n == 1 {
      Symmetric(m, points[0], y);
      Tracks.ThroughPoint(m, points[0], y, q);
    } else {
      PathVia(m, points[..n - 1], y, q);
      LineVia(m, points[n - 2], points[n - 1], y, q);
      var s := LineMeets(m, points[n - 2], points[n - 1], y);
      Symmetric(m, Tracks.Along(points[n - 2], points[n - 1], s), y);
    }
  }

  /** A path comes as near to a point as some point it goes through is. */
  lemma {:induction false} PathMeets(m: Metric, points: seq<Point>, q: Point) returns (x: Point)
    requires Tracks.Straight(m) && points != []
    ensures PathDistance(m, points, x) == Some(0.0) && PathDistance(m, points, q) == Some(m.gap(x, q))
    decreases |points|
  {
    hide Tracks.Straight, Tracks.Along;
    var n := |points|;
    if n == 1 {
      x := points[0];
      Symmetric(m, x, x);
    } else {
      var before := points[..n - 1];
      var y := PathMeets(m, before, q);
      PathVia(m, points, y, q);
      var s := LineMeets(m, points[n - 2], points[n - 1], q);
      var z := Tracks.Along(points[n - 2], points[n - 1], s);
      LineIsWithin(m, points[n - 2], points[n - 1], z, s);
      Symmetric(m, z, z);
      PathVia(m, points, z, q);
      x := if m.gap(y, q) <= m.gap(z, q) then y else z;
    }
  }

  // ---------- Many ----------

  lemma ReachingMeets(m: Metric, paths: seq<Path>, q: Point) returns (x: Point)
    requires Tracks.Straight(m) && Reaching(m, paths, q).Some?
    ensures Through(m, paths, x) && Reaching(m, paths, q) == Some(m.gap(x, q))
  {
    hide Tracks.Straight, NearestOf;
    NearestIsFirstLeast(m, paths, q);
    var close := NearestOf(m, paths, q);
    var k :| 0 <= k < |paths| && PathDistance(m, paths[k].points, q) == Some(close.value.distance);
    x := PathMeets(m, paths[k].points, q);
    hide PathDistance;
    NearestIsFirstLeast(m, paths, x);
    assert !Nearer(PathDistance(m, paths[k].points, x), Distance(NearestOf(m, paths, x)));
    ReachingIsPositive(m, paths, x);
  }

  lemma ReachingIsPositive(m: Metric, paths: seq<Path>, q: Point)
    requires Tracks.Straight(m)
    ensures Reaching(m, paths, q).Some? ==> Reaching(m, paths, q).value >= 0.0
  {
    hide Tracks.Straight, NearestOf;
    NearestIsFirstLeast(m, paths, q);
    var close := NearestOf(m, paths, q);
    if close.Some? {
      var k :| 0 <= k < |paths| && PathDistance(m, paths[k].points, q) == Some(close.value.distance);
      PathVia(m, paths[k].points, q, q);
    }
  }

  lemma ReachingVia(m: Metric, paths: seq<Path>, y: Point, q: Point)
    requires Tracks.Straight(m) && Reaching(m, paths, y).Some?
    ensures Reaching(m, paths, q).Some? && Reaching(m, paths, q).value <= Reaching(m, paths, y).value + m.gap(y, q)
  {
    hide Tracks.Straight, NearestOf;
    NearestIsFirstLeast(m, paths, y);
    var close := NearestOf(m, paths, y);
    var k :| 0 <= k < |paths| && PathDistance(m, paths[k].points, y) == Some(close.value.distance);
    PathVia(m, paths[k].points, y, q);
    NearestIsFirstLeast(m, paths, q);
    assert !Nearer(PathDistance(m, paths[k].points, q), Distance(NearestOf(m, paths, q)));
  }

  /** Paths come as near to every point as others do, but for a bound, exactly when everywhere
      either goes through is within the bound of the other. */
  lemma NearExactly(m: Metric, a: seq<Path>, b: seq<Path>, bound: real)
    requires Tracks.Straight(m) && bound >= 0.0
    ensures (forall q :: Near(Reaching(m, a, q), Reaching(m, b, q), bound)) <==> Stays(m, a, b, bound) && Stays(m, b, a, bound)
  {
    hide Tracks.Straight, Reaching;
    if Stays(m, a, b, bound) && Stays(m, b, a, bound) {
      forall q ensures Near(Reaching(m, a, q), Reaching(m, b, q), bound) {
        StaysNear(m, a, b, bound, q);
        StaysNear(m, b, a, bound, q);
      }
    }
  }

  lemma StaysNear(m: Metric, a: seq<Path>, b: seq<Path>, bound: real, q: Point)
    requires Tracks.Straight(m) && Stays(m, a, b, bound)
    ensures var d, e := Reaching(m, a, q), Reaching(m, b, q); d.Some? ==> e.Some? && e.value <= d.value + bound
  {
    hide Tracks.Straight, Reaching;
    if Reaching(m, a, q).Some? {
      var x := ReachingMeets(m, a, q);
      ReachingVia(m, b, x, q);
    }
  }

  /** What a reach goes through at either of two moments is no farther from what it goes through at
      the other than could have been moved. */
  ghost predicate Moves(m: Metric, w: Whereabouts, speed: real, t1: Time, t2: Time, lookahead: Time, protect: seq<Kind>)
  {
    && Stays(m, w.reach(t1, lookahead, protect), w.reach(t2, lookahead, protect), speed * (t2 - t1) as real)
    && Stays(m, w.reach(t2, lookahead, protect), w.reach(t1, lookahead, protect), speed * (t2 - t1) as real)
  }

  /** For any view of anyone, over every lookahead: no distance to it changes faster than a speed
      exactly when none of the ground it gives appears, or is given up, farther than that from the
      rest. */
  lemma BoundedExactly(m: Metric, w: Whereabouts, speed: real)
    requires Tracks.Straight(m) && speed >= 0.0
    ensures Bounded(m, w, speed) <==>
            forall t1: Time, t2: Time, lookahead: Time, protect: seq<Kind> | t1 <= t2 :: Moves(m, w, speed, t1, t2, lookahead, protect)
  {
    hide Tracks.Straight, Moves, KeepsPace;
    if Bounded(m, w, speed) {
      forall t1: Time, t2: Time, lookahead: Time, protect: seq<Kind> | t1 <= t2 ensures Moves(m, w, speed, t1, t2, lookahead, protect) {
        MovesExactly(m, w, speed, t1, t2, lookahead, protect);
      }
    }
    if forall t1: Time, t2: Time, lookahead: Time, protect: seq<Kind> | t1 <= t2 :: Moves(m, w, speed, t1, t2, lookahead, protect) {
      forall t1: Time, t2: Time, lookahead: Time, protect: seq<Kind>, q: Point | t1 <= t2
        ensures KeepsPace(m, w, speed, t1, t2, lookahead, protect, q)
      {
        MovesExactly(m, w, speed, t1, t2, lookahead, protect);
      }
    }
  }

  lemma MovesExactly(m: Metric, w: Whereabouts, speed: real, t1: Time, t2: Time, lookahead: Time, protect: seq<Kind>)
    requires Tracks.Straight(m) && speed >= 0.0 && t1 <= t2
    ensures Moves(m, w, speed, t1, t2, lookahead, protect) <==> forall q :: KeepsPace(m, w, speed, t1, t2, lookahead, protect, q)
  {
    hide Tracks.Straight, Reaching, NearestOf;
    var a, b, bound := w.reach(t1, lookahead, protect), w.reach(t2, lookahead, protect), speed * (t2 - t1) as real;
    Tracks.NotNegative(speed, (t2 - t1) as real);
    NearExactly(m, a, b, bound);
    if forall q :: KeepsPace(m, w, speed, t1, t2, lookahead, protect, q) {
      forall q ensures Near(Reaching(m, a, q), Reaching(m, b, q), bound) {
        assert KeepsPace(m, w, speed, t1, t2, lookahead, protect, q);
        ReachingIs(m, a, q);
        ReachingIs(m, b, q);
      }
    }
    if Moves(m, w, speed, t1, t2, lookahead, protect) {
      forall q ensures KeepsPace(m, w, speed, t1, t2, lookahead, protect, q) {
        assert Near(Reaching(m, a, q), Reaching(m, b, q), bound);
        ReachingIs(m, a, q);
        ReachingIs(m, b, q);
      }
    }
  }

  lemma ReachingIs(m: Metric, paths: seq<Path>, q: Point)
    ensures Reaching(m, paths, q) == Distance(NearestOf(m, paths, q))
  {
  }
}
