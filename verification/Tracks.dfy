/** Where every unit is and will be, and how fast that can change:
    internal/observe/tracks.go and internal/domain/entity.go:47-103. Distances are those of any
    metric in which straight lines are straight. */
module Tracks {
  import opened Basics
  import opened Observe

  datatype Waypoint = Waypoint(at: Time, point: Point)

  datatype Entity = Entity(id: string, kind: Kind, track: seq<Waypoint>)

  /** Waypoints in time order, those of one moment all in one place. */
  ghost predicate Orderly(track: seq<Waypoint>)
  {
    forall i, j :: 0 <= i < j < |track| ==> track[i].at <= track[j].at && (track[i].at == track[j].at ==> track[i].point == track[j].point)
  }

  /** Part of the way from one quantity to another. */
  function Part(a: real, b: real, s: real): real { a + (b - a) * s }

  function Along(a: Point, b: Point, f: real): Point
  {
    Point(Part(a.x, b.x, f), Part(a.y, b.y, f), Part(a.z, b.z, f))
  }

  /** How many waypoints are met by a moment. */
  function MetBy(track: seq<Waypoint>, u: real): (n: nat)
    ensures n <= |track|
    ensures forall k :: 0 <= k < n ==> track[k].at as real <= u
    ensures n < |track| ==> track[n].at as real > u
  {
    if track != [] && track[0].at as real <= u then 1 + MetBy(track[1..], u) else 0
  }

  /** Where a unit is between one waypoint and the next, or before the first or after the last. */
  function Leg(track: seq<Waypoint>, next: nat, u: real): Point
    requires track != [] && next <= |track|
  {
    if next == 0 then track[0].point
    else if next == |track| then track[|track| - 1].point
    else
      var a, b := track[next - 1], track[next];
      if b.at - a.at <= 0 then b.point
      else Along(a.point, b.point, (u - a.at as real) / (b.at - a.at) as real)
  }

  /** The point of a track at any moment, before its first waypoint and after its last too. */
  function PositionAt(track: seq<Waypoint>, u: real): Point
  {
    if track == [] then Point(0.0, 0.0, 0.0) else Leg(track, MetBy(track, u), u)
  }

  // ---------- Straight stretches ----------

  /** A metric in which points along a straight line are as far apart as they are along it, and
      a segment is as near as its nearest point. */
  ghost predicate Straight(m: Metric)
  {
    && (forall p, q :: m.gap(p, q) >= 0.0 && m.gap(p, q) == m.gap(q, p) && m.gap(p, p) == 0.0)
    && (forall p, q, r :: m.gap(p, r) <= m.gap(p, q) + m.gap(q, r))
    && (forall a, b, s, t | 0.0 <= s <= 1.0 && 0.0 <= t <= 1.0 :: m.gap(Along(a, b, s), Along(a, b, t)) == AbsReal(s - t) * m.gap(a, b))
    && (forall a, b, q, s | 0.0 <= s <= 1.0 :: m.segment(a, b, q) <= m.gap(Along(a, b, s), q))
    && (forall a, b, q :: Meets(m, a, b, q))
  }

  /** A segment comes as near as at one of its points. */
  ghost predicate Meets(m: Metric, a: Point, b: Point, q: Point)
  {
    exists s :: 0.0 <= s <= 1.0 && m.segment(a, b, q) == m.gap(Along(a, b, s), q)
  }

  /** No waypoint strictly between two moments. */
  ghost predicate Clear(track: seq<Waypoint>, a: real, b: real)
  {
    forall k :: 0 <= k < |track| ==> !(a < track[k].at as real < b)
  }

  /** Between moments with no waypoint between them, a unit is on one leg of its track. */
  lemma OnOneLeg(track: seq<Waypoint>, a: real, b: real, u: real)
    requires Orderly(track) && track != [] && a <= u <= b && Clear(track, a, b)
    ensures PositionAt(track, u) == Leg(track, MetBy(track, a), u)
  {
    var i, j := MetBy(track, a), MetBy(track, u);
    if i < j {
      assert track[i].at as real > a && track[i].at as real <= u && track[j - 1].at as real <= u;
      assert u == b && track[i].at == track[j - 1].at && track[i].at as real == b;
      assert i < j - 1 ==> track[i].point == track[j - 1].point;
      AtWaypoint(track, j, u);
      if i > 0 {
        ArrivesThere(track, i, u);
      }
    }
  }

  /** At a waypoint's own moment, with the next still to come, a unit is at the waypoint. */
  lemma AtWaypoint(track: seq<Waypoint>, j: nat, u: real)
    requires 0 < j <= |track| && track[j - 1].at as real == u && (j < |track| ==> track[j].at as real > u)
    ensures Leg(track, j, u) == track[j - 1].point
  {
  }

  /** The end of a leg is the waypoint it leads to. */
  lemma ArrivesThere(track: seq<Waypoint>, i: nat, u: real)
    requires 0 < i < |track| && track[i].at as real == u && track[i - 1].at < track[i].at
    ensures Leg(track, i, u) == track[i].point
  {
    var a, b := track[i - 1], track[i];
    assert (u - a.at as real) / (b.at - a.at) as real == 1.0;
  }

  /** Parts of the way between two parts of the way are parts of the way. */
  lemma PartOfParts(x: real, y: real, fa: real, fb: real, s: real)
    ensures Part(x, y, Part(fa, fb, s)) == Part(Part(x, y, fa), Part(x, y, fb), s)
  {
    var d := y - x;
    Distributes(d, fa, (fb - fa) * s);
    Associates(d, fb - fa, s);
    Distributes(d, fb, -fa);
    assert Part(x, y, fb) - Part(x, y, fa) == d * (fb - fa);
  }

  lemma Distributes(a: real, b: real, c: real)
    ensures a * (b + c) == a * b + a * c
  {
  }

  lemma Associates(a: real, b: real, c: real)
    ensures a * (b * c) == (a * b) * c
  {
  }

  lemma AlongAlong(a: Point, b: Point, fa: real, fb: real, s: real)
    ensures Along(a, b, Part(fa, fb, s)) == Along(Along(a, b, fa), Along(a, b, fb), s)
  {
    hide Part;
    PartOfParts(a.x, b.x, fa, fb, s);
    PartOfParts(a.y, b.y, fa, fb, s);
    PartOfParts(a.z, b.z, fa, fb, s);
  }

  lemma Proportion(a: real, b: real, from: real, span: real, s: real)
    requires span > 0.0
    ensures (Part(a, b, s) - from) / span == Part((a - from) / span, (b - from) / span, s)
  {
    var fa, fb := (a - from) / span, (b - from) / span;
    assert a - from == fa * span && b - from == fb * span;
    assert a + (b - a) * s - from == (fa + (fb - fa) * s) * span;
  }

  /** So it goes straight from where it is at the one to where it is at the other. */
  lemma GoesStraight(track: seq<Waypoint>, a: real, b: real, s: real)
    requires Orderly(track) && track != [] && a <= b && Clear(track, a, b) && 0.0 <= s <= 1.0
    ensures a <= Part(a, b, s) <= b
    ensures PositionAt(track, Part(a, b, s)) == Along(PositionAt(track, a), PositionAt(track, b), s)
  {
    hide PositionAt, Leg, Along, Part;
    var u := Part(a, b, s);
    Between(a, b, s);
    OnOneLeg(track, a, b, u);
    OnOneLeg(track, a, b, a);
    OnOneLeg(track, a, b, b);
    LegsGoForward(track, a);
    LegIsStraight(track, MetBy(track, a), a, b, s);
  }

  lemma LegsGoForward(track: seq<Waypoint>, a: real)
    ensures var i := MetBy(track, a); 0 < i < |track| ==> track[i - 1].at < track[i].at
  {
  }

  lemma LegIsStraight(track: seq<Waypoint>, i: nat, a: real, b: real, s: real)
    requires track != [] && i <= |track| && (0 < i < |track| ==> track[i - 1].at < track[i].at)
    ensures Leg(track, i, Part(a, b, s)) == Along(Leg(track, i, a), Leg(track, i, b), s)
  {
    hide Along, Part;
    if 0 < i < |track| {
      var w, v := track[i - 1], track[i];
      var span := (v.at - w.at) as real;
      Proportion(a, b, w.at as real, span, s);
      AlongAlong(w.point, v.point, (a - w.at as real) / span, (b - w.at as real) / span, s);
    } else {
      var p := Leg(track, i, a);
      AlongSelf(p, s);
    }
  }

  lemma AlongSelf(p: Point, s: real)
    ensures Along(p, p, s) == p
  {
  }

  lemma Between(a: real, b: real, s: real)
    requires a <= b && 0.0 <= s <= 1.0
    ensures a <= Part(a, b, s) <= b
  {
    NotNegative(b - a, s);
    NotNegative(b - a, 1.0 - s);
    assert (b - a) * (1.0 - s) == (b - a) - (b - a) * s;
  }

  lemma NotNegative(x: real, y: real)
    requires x >= 0.0 && y >= 0.0
    ensures x * y >= 0.0
  {
  }

  // ---------- A route, and how near it comes ----------

  /** The waypoints from one on that are reached before a moment. */
  function Ahead(track: seq<Waypoint>, i: nat, until: real): seq<Waypoint>
    requires i <= |track|
    decreases |track| - i
  {
    if i < |track| && track[i].at as real < until then [track[i]] + Ahead(track, i + 1, until) else []
  }

  function Places(waypoints: seq<Waypoint>): (r: seq<Point>)
    ensures |r| == |waypoints| && forall k :: 0 <= k < |r| ==> r[k] == waypoints[k].point
  {
    seq(|waypoints|, k requires 0 <= k < |waypoints| => waypoints[k].point)
  }

  /** A window of a track as a path: two interpolated ends, if the window lasts, and between them every
      waypoint strictly inside it. */
  function Route(track: seq<Waypoint>, at: Time, lookahead: Time): seq<Point>
  {
    [PositionAt(track, at as real)] +
    if lookahead > 0 then
      Places(Ahead(track, MetBy(track, at as real), (at + lookahead) as real)) + [PositionAt(track, (at + lookahead) as real)]
    else []
  }

  /** The same between any two moments, whole or not. */
  function RouteOver(track: seq<Waypoint>, from: real, until: real): seq<Point>
  {
    [PositionAt(track, from)] +
    if from < until then Places(Ahead(track, MetBy(track, from), until)) + [PositionAt(track, until)] else []
  }

  lemma RouteIsOver(track: seq<Waypoint>, at: Time, lookahead: Time)
    ensures Route(track, at, lookahead) == RouteOver(track, at as real, (at + Max(0, lookahead)) as real)
  {
  }

  /** The route, waypoint by waypoint from the first after the start. */
  method RouteFrom(track: seq<Waypoint>, at: Time, lookahead: Time) returns (points: seq<Point>)
    ensures points == Route(track, at, lookahead)
  {
    points := [PositionAt(track, at as real)];
    if lookahead > 0 {
      var until := (at + lookahead) as real;
      var i := MetBy(track, at as real);
      ghost var ahead := Ahead(track, i, until);
      var met: seq<Waypoint> := [];
      while i < |track| && track[i].at as real < until
        invariant 0 <= i <= |track|
        invariant points == [PositionAt(track, at as real)] + Places(met)
        invariant met + Ahead(track, i, until) == ahead
      {
        assert met + Ahead(track, i, until) == (met + [track[i]]) + Ahead(track, i + 1, until);
        assert Places(met + [track[i]]) == Places(met) + [track[i].point];
        points := points + [track[i].point];
        met := met + [track[i]];
        i := i + 1;
      }
      assert met == ahead;
      points := points + [PositionAt(track, until)];
    }
  }

  /** Points where a unit is at moments in order, and between each and the next it goes straight. */
  ghost predicate Followed(track: seq<Waypoint>, times: seq<real>, points: seq<Point>)
  {
    && |times| == |points| > 0
    && (forall k :: 0 <= k < |points| ==> points[k] == PositionAt(track, times[k]))
    && (forall k :: 0 < k < |times| ==> times[k - 1] <= times[k] && Clear(track, times[k - 1], times[k]))
  }

  /** How near such points come is how near the unit comes: as near as at some moment of the
      stretch, and no nearer at any. */
  ghost predicate NearestOver(m: Metric, track: seq<Waypoint>, from: real, until: real, q: Point, d: real)
  {
    && (exists u :: from <= u <= until && d == m.gap(PositionAt(track, u), q))
    && (forall u :: from <= u <= until ==> d <= m.gap(PositionAt(track, u), q))
  }

  lemma OneStretch(m: Metric, track: seq<Waypoint>, a: real, b: real, q: Point)
    requires Straight(m) && Orderly(track) && track != [] && a <= b && Clear(track, a, b)
    ensures NearestOver(m, track, a, b, q, m.segment(PositionAt(track, a), PositionAt(track, b), q))
  {
    hide PositionAt;
    var p, r := PositionAt(track, a), PositionAt(track, b);
    var d := m.segment(p, r, q);
    assert Meets(m, p, r, q);
    var s :| 0.0 <= s <= 1.0 && d == m.gap(Along(p, r, s), q);
    GoesStraight(track, a, b, s);
    assert d == m.gap(PositionAt(track, Part(a, b, s)), q);
    forall u | a <= u <= b ensures d <= m.gap(PositionAt(track, u), q) {
      var t := if a < b then (u - a) / (b - a) else 0.0;
      PartIs(a, b, u);
      GoesStraight(track, a, b, t);
    }
  }

  lemma PartIs(a: real, b: real, u: real)
    requires a <= u <= b
    ensures var t := if a < b then (u - a) / (b - a) else 0.0; 0.0 <= t <= 1.0 && Part(a, b, t) == u
  {
    if a < b {
      Quotient(u - a, b - a);
    }
  }

  lemma Quotient(x: real, y: real)
    requires 0.0 <= x <= y && y > 0.0
    ensures 0.0 <= x / y <= 1.0 && y * (x / y) == x
  {
  }

  lemma {:induction false} FollowedIsNearest(m: Metric, track: seq<Waypoint>, times: seq<real>, points: seq<Point>, q: Point)
    requires Straight(m) && Orderly(track) && track != [] && Followed(track, times, points)
    ensures PathDistance(m, points, q).Some?
    ensures times[0] <= times[|times| - 1] && NearestOver(m, track, times[0], times[|times| - 1], q, PathDistance(m, points, q).value)
    decreases |points|
  {
    hide Straight, Orderly, PositionAt;
    var n := |points|;
    if n > 1 {
      FollowedIsNearest(m, track, times[..n - 1], points[..n - 1], q);
      OneStretch(m, track, times[n - 2], times[n - 1], q);
      NearestJoins(m, track, times[0], times[n - 2], times[n - 1], q, PathDistance(m, points[..n - 1], q).value,
                   m.segment(points[n - 2], points[n - 1], q));
    } else {
      var d := m.gap(PositionAt(track, times[0]), q);
      forall u | times[0] <= u <= times[0] ensures d <= m.gap(PositionAt(track, u), q) {
        assert u == times[0];
      }
    }
  }

  lemma NearestJoins(m: Metric, track: seq<Waypoint>, a: real, b: real, c: real, q: Point, d: real, e: real)
    requires a <= b <= c && NearestOver(m, track, a, b, q, d) && NearestOver(m, track, b, c, q, e)
    ensures NearestOver(m, track, a, c, q, MinReal(d, e))
  {
    hide PositionAt;
    var u :| a <= u <= b && d == m.gap(PositionAt(track, u), q);
    var v :| b <= v <= c && e == m.gap(PositionAt(track, v), q);
    var w := if d < e then u else v;
    assert a <= w <= c && MinReal(d, e) == m.gap(PositionAt(track, w), q);
  }

  /** The moments of the waypoints of a route. */
  function Moments(waypoints: seq<Waypoint>): (r: seq<real>)
    ensures |r| == |waypoints| && forall k :: 0 <= k < |r| ==> r[k] == waypoints[k].at as real
  {
    seq(|waypoints|, k requires 0 <= k < |waypoints| => waypoints[k].at as real)
  }

  lemma {:induction false} AheadHolds(track: seq<Waypoint>, i: nat, until: real)
    requires i <= |track|
    ensures var r := Ahead(track, i, until);
            && i + |r| <= |track| && r == track[i..i + |r|]
            && (forall w :: i <= w < i + |r| ==> track[w].at as real < until)
            && (i + |r| < |track| ==> track[i + |r|].at as real >= until)
    decreases |track| - i
  {
    if i < |track| && track[i].at as real < until {
      AheadHolds(track, i + 1, until);
    }
  }

  /** A waypoint's own moment finds a unit there. */
  lemma AtItsMoment(track: seq<Waypoint>, k: nat)
    requires Orderly(track) && k < |track|
    ensures PositionAt(track, track[k].at as real) == track[k].point
  {
    var u := track[k].at as real;
    var j := MetBy(track, u);
    assert j > k;
    assert track[j - 1].at == track[k].at;
    assert k < j - 1 ==> track[k].point == track[j - 1].point;
    AtWaypoint(track, j, u);
  }

  /** A unit's route over a lookahead comes exactly as near to a point as the unit does. */
  lemma RouteIsNearest(m: Metric, track: seq<Waypoint>, at: Time, lookahead: Time, q: Point)
    requires Straight(m) && Orderly(track) && track != []
    ensures PathDistance(m, Route(track, at, lookahead), q).Some?
    ensures NearestOver(m, track, at as real, (at + Max(0, lookahead)) as real, q, PathDistance(m, Route(track, at, lookahead), q).value)
  {
    hide Route, RouteOver, Straight, Orderly, NearestOver, PathDistance;
    RouteIsOver(track, at, lookahead);
    OverIsNearest(m, track, at as real, (at + Max(0, lookahead)) as real, q);
  }

  lemma OverIsNearest(m: Metric, track: seq<Waypoint>, from: real, until: real, q: Point)
    requires Straight(m) && Orderly(track) && track != [] && from <= until
    ensures PathDistance(m, RouteOver(track, from, until), q).Some?
    ensures NearestOver(m, track, from, until, q, PathDistance(m, RouteOver(track, from, until), q).value)
  {
    var points := RouteOver(track, from, until);
    if from < until {
      var ahead := Ahead(track, MetBy(track, from), until);
      var times := [from] + Moments(ahead) + [until];
      RouteIsFollowed(track, from, until, times, points);
      hide RouteOver;
      FollowedIsNearest(m, track, times, points, q);
    } else {
      hide PositionAt;
      FollowedIsNearest(m, track, [from], points, q);
    }
  }

  lemma RouteIsFollowed(track: seq<Waypoint>, from: real, until: real, times: seq<real>, points: seq<Point>)
    requires Orderly(track) && track != [] && from < until
    requires var ahead := Ahead(track, MetBy(track, from), until);
             && times == [from] + Moments(ahead) + [until]
             && points == [PositionAt(track, from)] + (Places(ahead) + [PositionAt(track, until)])
    ensures Followed(track, times, points)
  {
    hide PositionAt, Orderly, Clear, Ahead;
    var i := MetBy(track, from);
    hide MetBy;
    var ahead := Ahead(track, i, until);
    AheadHolds(track, i, until);
    var n := |ahead|;
    forall k | 0 <= k < |points| ensures points[k] == PositionAt(track, times[k]) {
      if 0 < k <= n {
        AheadPlace(track, i, ahead, k - 1);
      }
    }
    forall k | 0 < k < |times| ensures times[k - 1] <= times[k] && Clear(track, times[k - 1], times[k]) {
      AheadMoment(track, i, ahead, k, times[k], until);
      if k > 1 {
        AheadMoment(track, i, ahead, k - 1, times[k - 1], until);
      }
      ClearAhead(track, from, until, i, n, k, times[k - 1], times[k]);
    }
  }

  lemma AheadPlace(track: seq<Waypoint>, i: nat, ahead: seq<Waypoint>, k: nat)
    requires Orderly(track) && i + |ahead| <= |track| && ahead == track[i..i + |ahead|] && k < |ahead|
    ensures Places(ahead)[k] == PositionAt(track, Moments(ahead)[k])
  {
    assert ahead[k] == track[i + k];
    AtItsMoment(track, i + k);
  }

  lemma AheadMoment(track: seq<Waypoint>, i: nat, ahead: seq<Waypoint>, k: nat, t: real, until: real)
    requires i + |ahead| <= |track| && ahead == track[i..i + |ahead|] && 0 < k <= |ahead| + 1
    requires t == if k <= |ahead| then Moments(ahead)[k - 1] else until
    ensures t == if k == |ahead| + 1 then until else track[i + k - 1].at as real
  {
  }

  /** Between one moment of a route and the next there is no waypoint: i are met by its start, and
      n more before its end. */
  lemma ClearAhead(track: seq<Waypoint>, from: real, until: real, i: nat, n: nat, k: nat, a: real, b: real)
    requires Orderly(track) && from < until && i + n <= |track| && 0 < k <= n + 1
    requires forall w :: 0 <= w < i ==> track[w].at as real <= from
    requires i < |track| ==> track[i].at as real > from
    requires forall w :: i <= w < i + n ==> track[w].at as real < until
    requires i + n < |track| ==> track[i + n].at as real >= until
    requires a == if k == 1 then from else track[i + k - 2].at as real
    requires b == if k == n + 1 then until else track[i + k - 1].at as real
    ensures a <= b && Clear(track, a, b)
  {
    var next := i + k - 1;
    forall w | 0 <= w < |track| ensures !(a < track[w].at as real < b) {
      if w < next {
        NotAfter(track, from, i, k, a, w);
      } else {
        assert w > next ==> track[next].at <= track[w].at;
      }
    }
    if k > 1 && k <= n {
      assert track[next - 1].at <= track[next].at;
    }
  }

  lemma NotAfter(track: seq<Waypoint>, from: real, i: nat, k: nat, a: real, w: nat)
    requires Orderly(track) && 0 < k && i + k - 1 <= |track| && w < i + k - 1
    requires forall w :: 0 <= w < i ==> track[w].at as real <= from
    requires a == if k == 1 then from else track[i + k - 2].at as real
    ensures track[w].at as real <= a
  {
    if k > 1 && w < i + k - 2 {
      assert track[w].at <= track[i + k - 2].at;
    }
  }

  // ---------- How fast anything moves ----------

  /** The fastest a unit goes along any leg of its track. */
  function FastestAlong(m: Metric, track: seq<Waypoint>): real
  {
    if |track| < 2 then 0.0
    else
      var n := |track|;
      var a, b := track[n - 2], track[n - 1];
      var before := FastestAlong(m, track[..n - 1]);
      if b.at - a.at > 0 then MaxReal(before, m.gap(a.point, b.point) / (b.at - a.at) as real) else before
  }

  function FastestOf(m: Metric, entities: seq<Entity>): real
  {
    if entities == [] then 0.0
    else MaxReal(FastestOf(m, entities[..|entities| - 1]), FastestAlong(m, entities[|entities| - 1].track))
  }

  /** How quickly the quickest unit moves, over all their tracks. */
  method Fastest(m: Metric, entities: seq<Entity>) returns (speed: real)
    ensures speed == FastestOf(m, entities)
  {
    speed := 0.0;
    for i := 0 to |entities|
      invariant speed == FastestOf(m, entities[..i])
    {
      assert entities[..i + 1][..i] == entities[..i];
      var track := entities[i].track;
      FastestStarts(m, track);
      FastestIsPositive(m, entities[..i]);
      var k := 1;
      while k < |track|
        invariant 1 <= k && (k <= |track| || |track| == 0)
        invariant speed == MaxReal(FastestOf(m, entities[..i]), FastestAlong(m, if k <= |track| then track[..k] else track))
      {
        assert track[..k + 1][..k] == track[..k];
        var a, b := track[k - 1], track[k];
        var time := b.at - a.at;
        if time > 0 {
          speed := MaxReal(speed, m.gap(a.point, b.point) / time as real);
        }
        k := k + 1;
      }
      assert track[..|track|] == track;
    }
    assert entities[..|entities|] == entities;
  }

  lemma FastestStarts(m: Metric, track: seq<Waypoint>)
    ensures |track| >= 1 ==> FastestAlong(m, track[..1]) == 0.0
    ensures |track| == 0 ==> FastestAlong(m, track) == 0.0
  {
  }

  lemma {:induction false} FastestIsPositive(m: Metric, entities: seq<Entity>)
    ensures FastestOf(m, entities) >= 0.0
  {
    if entities != [] {
      FastestIsPositive(m, entities[..|entities| - 1]);
    }
  }

  /** The speed of a unit on the leg that ends at a waypoint. */
  predicate GoesAt(m: Metric, track: seq<Waypoint>, i: int, speed: real)
  {
    && 0 < i < |track| && track[i - 1].at < track[i].at
    && speed == m.gap(track[i - 1].point, track[i].point) / (track[i].at - track[i - 1].at) as real
  }

  ghost predicate SomeLegAt(m: Metric, track: seq<Waypoint>, speed: real) { exists i :: GoesAt(m, track, i, speed) }

  lemma {:induction false} SomeLegIsAsFast(m: Metric, track: seq<Waypoint>)
    ensures FastestAlong(m, track) == 0.0 || SomeLegAt(m, track, FastestAlong(m, track))
    decreases |track|
  {
    if |track| >= 2 {
      var n := |track|;
      var before := FastestAlong(m, track[..n - 1]);
      SomeLegIsAsFast(m, track[..n - 1]);
      var rest := track[..n - 1];
      if SomeLegAt(m, rest, before) {
        var i :| GoesAt(m, rest, i, before);
        assert GoesAt(m, track, i, before);
      }
      if FastestAlong(m, track) != before {
        assert GoesAt(m, track, n - 1, FastestAlong(m, track));
      }
    }
  }

  /** The fastest is a speed someone goes at, unless no one goes anywhere. */
  lemma {:induction false} SomeoneIsAsFast(m: Metric, entities: seq<Entity>)
    ensures FastestOf(m, entities) == 0.0 ||
            exists e :: 0 <= e < |entities| && SomeLegAt(m, entities[e].track, FastestOf(m, entities))
  {
    if entities != [] {
      var n := |entities| - 1;
      SomeoneIsAsFast(m, entities[..n]);
      SomeLegIsAsFast(m, entities[n].track);
      var rest := entities[..n];
      if e :| 0 <= e < |rest| && SomeLegAt(m, rest[e].track, FastestOf(m, rest)) {
        assert rest[e] == entities[e];
      }
    }
  }

  lemma {:induction false} NoLegIsFaster(m: Metric, track: seq<Waypoint>, i: nat)
    requires Straight(m) && 0 < i < |track| && track[i - 1].at < track[i].at
    ensures m.gap(track[i - 1].point, track[i].point) / (track[i].at - track[i - 1].at) as real <= FastestAlong(m, track)
    ensures FastestAlong(m, track) >= 0.0
    decreases |track|
  {
    hide Straight;
    var n := |track|;
    FastestAlongIsPositive(m, track);
    if i < n - 1 {
      NoLegIsFaster(m, track[..n - 1], i);
    }
  }

  lemma {:induction false} FastestAlongIsPositive(m: Metric, track: seq<Waypoint>)
    ensures FastestAlong(m, track) >= 0.0
    decreases |track|
  {
    if |track| >= 2 {
      FastestAlongIsPositive(m, track[..|track| - 1]);
    }
  }

  /** On one leg a unit goes no faster than it goes anywhere. */
  lemma OnALeg(m: Metric, track: seq<Waypoint>, i: nat, u: real, v: real)
    requires Straight(m) && track != [] && i <= |track| && u <= v
    requires 0 < i < |track| ==> track[i - 1].at < track[i].at && track[i - 1].at as real <= u && v <= track[i].at as real
    ensures m.gap(Leg(track, i, u), Leg(track, i, v)) <= FastestAlong(m, track) * (v - u)
  {
    hide Straight, FastestAlong, Along;
    FastestAlongIsPositive(m, track);
    NotNegative(FastestAlong(m, track), v - u);
    if 0 < i < |track| {
      var a, b := track[i - 1], track[i];
      var span := (b.at - a.at) as real;
      NoLegIsFaster(m, track, i);
      var x, y := u - a.at as real, v - a.at as real;
      Quotient(x, span);
      Quotient(y, span);
      AlongGap(m, a.point, b.point, x / span, y / span);
      AtSpeed(m.gap(a.point, b.point), span, x, y, FastestAlong(m, track));
    } else {
      StaysPut(m, Leg(track, i, u));
    }
  }

  lemma StaysPut(m: Metric, p: Point)
    requires Straight(m)
    ensures m.gap(p, p) == 0.0
  {
  }

  lemma AlongGap(m: Metric, a: Point, b: Point, f: real, g: real)
    requires Straight(m) && 0.0 <= f <= 1.0 && 0.0 <= g <= 1.0
    ensures m.gap(Along(a, b, f), Along(a, b, g)) == AbsReal(f - g) * m.gap(a, b) && m.gap(a, b) >= 0.0
  {
  }

  lemma AtSpeed(gap: real, span: real, x: real, y: real, speed: real)
    requires span > 0.0 && x <= y && gap >= 0.0 && gap / span <= speed
    ensures AbsReal(x / span - y / span) * gap <= speed * (y - x)
  {
    var pace, part := gap / span, (y - x) / span;
    assert part >= 0.0 && y / span - x / span == part;
    assert part * gap == pace * (y - x);
    NotNegative(speed - pace, y - x);
    assert (speed - pace) * (y - x) == speed * (y - x) - pace * (y - x);
  }

  /** How many waypoints come strictly between two moments. */
  function Passed(track: seq<Waypoint>, u: real, v: real): nat
  {
    if track == [] then 0 else (if u < track[0].at as real < v then 1 else 0) + Passed(track[1..], u, v)
  }

  lemma {:induction false} PassedFewer(track: seq<Waypoint>, u: real, c: real, v: real)
    requires u < c < v && exists k :: 0 <= k < |track| && track[k].at as real == c
    ensures Passed(track, c, v) < Passed(track, u, v)
    decreases |track|
  {
    var k :| 0 <= k < |track| && track[k].at as real == c;
    if k > 0 {
      assert track[1..][k - 1] == track[k];
      PassedFewer(track[1..], u, c, v);
    } else {
      PassedNoMore(track[1..], u, c, v);
    }
  }

  lemma {:induction false} PassedNoMore(track: seq<Waypoint>, u: real, c: real, v: real)
    requires u < c
    ensures Passed(track, c, v) <= Passed(track, u, v)
  {
    if track != [] {
      PassedNoMore(track[1..], u, c, v);
    }
  }

  /** Between any two moments a unit moves no farther than it could at its fastest. */
  lemma {:induction false} NeverFaster(m: Metric, track: seq<Waypoint>, u: real, v: real)
    requires Straight(m) && Orderly(track) && track != [] && u <= v
    ensures m.gap(PositionAt(track, u), PositionAt(track, v)) <= FastestAlong(m, track) * (v - u)
    decreases Passed(track, u, v)
  {
    var i := MetBy(track, u);
    if i < |track| && (track[i].at as real) < v {
      var c := track[i].at as real;
      PassedFewer(track, u, c, v);
      NeverFaster(m, track, c, v);
      ToNext(m, track, u, c);
      assert FastestAlong(m, track) * (c - u) + FastestAlong(m, track) * (v - c) == FastestAlong(m, track) * (v - u);
      ThroughPoint(m, PositionAt(track, u), PositionAt(track, c), PositionAt(track, v));
    } else {
      ToNext(m, track, u, v);
    }
  }

  lemma ThroughPoint(m: Metric, p: Point, q: Point, r: Point)
    requires Straight(m)
    ensures m.gap(p, r) <= m.gap(p, q) + m.gap(q, r)
  {
  }

  /** As far as its next waypoint a unit is on one leg. */
  lemma ToNext(m: Metric, track: seq<Waypoint>, u: real, v: real)
    requires Straight(m) && Orderly(track) && track != [] && u <= v
    requires MetBy(track, u) < |track| ==> v <= track[MetBy(track, u)].at as real
    ensures m.gap(PositionAt(track, u), PositionAt(track, v)) <= FastestAlong(m, track) * (v - u)
  {
    var i := MetBy(track, u);
    assert Clear(track, u, v) by {
      forall w | 0 <= w < |track| ensures !(u < track[w].at as real < v) {
        assert w >= i && i < |track| ==> track[w].at >= track[i].at;
      }
    }
    hide Straight;
    OnOneLeg(track, u, v, u);
    OnOneLeg(track, u, v, v);
    OnALeg(m, track, i, u, v);
  }

  // ---------- As the window slides ----------

  /** As the window slides on, how near a unit comes over it changes no faster than the unit
      moves: neither nearer nor farther. */
  lemma WindowSlides(m: Metric, track: seq<Waypoint>, t1: real, t2: real, length: real, q: Point, d1: real, d2: real)
    requires Straight(m) && Orderly(track) && track != [] && t1 <= t2 && length >= 0.0
    requires NearestOver(m, track, t1, t1 + length, q, d1) && NearestOver(m, track, t2, t2 + length, q, d2)
    ensures AbsReal(d1 - d2) <= FastestAlong(m, track) * (t2 - t1)
  {
    hide Straight, Orderly, FastestAlong, NearestOver;
    NoFartherOver(m, track, t1, t1 + length, t2, t2 + length, t2 - t1, q, d1, d2);
    NoFartherOver(m, track, t2, t2 + length, t1, t1 + length, t2 - t1, q, d2, d1);
  }

  /** Each moment of one window is soon before or after some moment of another, and so no nearer than
      the other comes, but for what can be moved in between. */
  lemma NoFartherOver(m: Metric, track: seq<Waypoint>, a: real, b: real, c: real, d: real, within: real, q: Point, near: real, other: real)
    requires Straight(m) && Orderly(track) && track != [] && c <= d && AbsReal(a - c) <= within && AbsReal(b - d) <= within
    requires NearestOver(m, track, a, b, q, near) && NearestOver(m, track, c, d, q, other)
    ensures other <= near + FastestAlong(m, track) * within
  {
    hide Straight, Orderly, PositionAt, FastestAlong;
    var u :| a <= u <= b && near == m.gap(PositionAt(track, u), q);
    var v := if u < c then c else if u > d then d else u;
    NoFartherAt(m, track, u, v, within, q);
    assert other <= m.gap(PositionAt(track, v), q);
  }

  /** Where a unit is at one moment is no farther than where it is at another soon before or after,
      but for what it can move in between. */
  lemma NoFartherAt(m: Metric, track: seq<Waypoint>, u: real, v: real, within: real, q: Point)
    requires Straight(m) && Orderly(track) && track != [] && AbsReal(u - v) <= within
    ensures m.gap(PositionAt(track, v), q) <= m.gap(PositionAt(track, u), q) + FastestAlong(m, track) * within
  {
    hide Orderly, PositionAt, FastestAlong;
    var a, b := MinReal(u, v), MaxReal(u, v);
    NeverFaster(m, track, a, b);
    FastestAlongIsPositive(m, track);
    NotNegative(FastestAlong(m, track), within - (b - a));
    assert FastestAlong(m, track) * (within - (b - a)) == FastestAlong(m, track) * within - FastestAlong(m, track) * (b - a);
    ThroughPoint(m, PositionAt(track, v), PositionAt(track, u), q);
    assert m.gap(PositionAt(track, u), PositionAt(track, v)) == m.gap(PositionAt(track, v), PositionAt(track, u));
  }

  /** A route's distance, as its window slides. */
  lemma RouteSlides(m: Metric, track: seq<Waypoint>, t1: Time, t2: Time, lookahead: Time, q: Point)
    requires Straight(m) && Orderly(track) && track != [] && t1 <= t2
    ensures Near(PathDistance(m, Route(track, t1, lookahead), q), PathDistance(m, Route(track, t2, lookahead), q),
                 Moved(FastestAlong(m, track), t1, t2))
  {
    hide Straight, Orderly, Route, FastestAlong, PathDistance, NearestOver;
    RouteIsNearest(m, track, t1, lookahead, q);
    RouteIsNearest(m, track, t2, lookahead, q);
    assert (t1 + Max(0, lookahead)) as real == t1 as real + Max(0, lookahead) as real;
    assert (t2 + Max(0, lookahead)) as real == t2 as real + Max(0, lookahead) as real;
    WindowSlides(m, track, t1 as real, t2 as real, Max(0, lookahead) as real, q,
                 PathDistance(m, Route(track, t1, lookahead), q).value, PathDistance(m, Route(track, t2, lookahead), q).value);
    assert (t2 - t1) as real == t2 as real - t1 as real;
  }

  /** How far something moves between two moments at a speed. */
  function Moved(speed: real, t1: Time, t2: Time): real { speed * (t2 - t1) as real }

  // ---------- Everyone's reach ----------

  /** Each protected unit's route over the lookahead, in the order the units are listed. */
  function ReachOf(entities: seq<Entity>, at: Time, lookahead: Time, protect: seq<Kind>): seq<Path>
  {
    if entities == [] then []
    else
      var e := entities[|entities| - 1];
      ReachOf(entities[..|entities| - 1], at, lookahead, protect) +
      if e.kind in protect && e.track != [] then [Path(e.id, Route(e.track, at, lookahead))] else []
  }

  function PositionsOf(entities: seq<Entity>, at: Time, protect: seq<Kind>): seq<Position>
  {
    if entities == [] then []
    else
      var e := entities[|entities| - 1];
      PositionsOf(entities[..|entities| - 1], at, protect) +
      if e.kind in protect && e.track != [] then [Position(e.id, PositionAt(e.track, at as real))] else []
  }

  method Reach(entities: seq<Entity>, at: Time, lookahead: Time, protect: seq<Kind>) returns (out: seq<Path>)
    ensures out == ReachOf(entities, at, lookahead, protect)
  {
    hide Route;
    out := [];
    for i := 0 to |entities|
      invariant out == ReachOf(entities[..i], at, lookahead, protect)
    {
      assert entities[..i + 1][..i] == entities[..i];
      var e := entities[i];
      if e.kind in protect && |e.track| > 0 {
        var points := RouteFrom(e.track, at, lookahead);
        out := out + [Path(e.id, points)];
      }
    }
    assert entities[..|entities|] == entities;
  }

  /** What the simulator itself knows of where everyone is and will be. */
  function Known(m: Metric, entities: seq<Entity>): Whereabouts
  {
    Whereabouts((at: Time, lookahead: Time, protect: seq<Kind>) => ReachOf(entities, at, lookahead, protect),
                (at: Time, protect: seq<Kind>) => PositionsOf(entities, at, protect),
                FastestOf(m, entities))
  }

  lemma NearestWith(m: Metric, before: seq<Path>, p: Path, q: Point)
    requires PathDistance(m, p.points, q).Some?
    ensures var d, near := PathDistance(m, p.points, q), Distance(NearestOf(m, before, q));
            Distance(NearestOf(m, before + [p], q)) == if near.None? then d else Some(MinReal(d.value, near.value))
  {
    assert (before + [p])[..|before|] == before;
  }

  lemma NearWider(a: Option<real>, b: Option<real>, bound: real, wider: real)
    requires Near(a, b, bound) && bound <= wider
    ensures Near(a, b, wider)
  {
  }

  lemma {:induction false} ReachSlides(m: Metric, entities: seq<Entity>, t1: Time, t2: Time, lookahead: Time, protect: seq<Kind>, q: Point)
    requires Straight(m) && t1 <= t2 && forall k :: 0 <= k < |entities| ==> Orderly(entities[k].track)
    ensures Near(Distance(NearestOf(m, ReachOf(entities, t1, lookahead, protect), q)),
                 Distance(NearestOf(m, ReachOf(entities, t2, lookahead, protect), q)), Moved(FastestOf(m, entities), t1, t2))
  {
    hide Straight, Orderly, Route, PathDistance, FastestAlong, NearestOf, NearestOver, Near, Distance, Moved;
    FastestIsPositive(m, entities);
    if entities == [] {
      NobodyNear(m, q);
      NoneIsNear(Moved(FastestOf(m, entities), t1, t2));
    } else {
      var e, rest := entities[|entities| - 1], entities[..|entities| - 1];
      var bound := Moved(FastestOf(m, entities), t1, t2);
      ReachSlides(m, rest, t1, t2, lookahead, protect, q);
      Faster(FastestOf(m, rest), FastestOf(m, entities), t1, t2);
      Faster(FastestAlong(m, e.track), FastestOf(m, entities), t1, t2);
      var near1, near2 := Distance(NearestOf(m, ReachOf(rest, t1, lookahead, protect), q)), Distance(NearestOf(m, ReachOf(rest, t2, lookahead, protect), q));
      NearWider(near1, near2, Moved(FastestOf(m, rest), t1, t2), bound);
      if e.kind in protect && e.track != [] {
        var p1, p2 := Path(e.id, Route(e.track, t1, lookahead)), Path(e.id, Route(e.track, t2, lookahead));
        RouteSlides(m, e.track, t1, t2, lookahead, q);
        RouteIsNearest(m, e.track, t1, lookahead, q);
        RouteIsNearest(m, e.track, t2, lookahead, q);
        NearestWith(m, ReachOf(rest, t1, lookahead, protect), p1, q);
        NearestWith(m, ReachOf(rest, t2, lookahead, protect), p2, q);
        NearWider(PathDistance(m, p1.points, q), PathDistance(m, p2.points, q), Moved(FastestAlong(m, e.track), t1, t2), bound);
        NearerStaysNear(near1, near2, PathDistance(m, p1.points, q), PathDistance(m, p2.points, q), bound);
      } else {
        assert ReachOf(rest, t1, lookahead, protect) + [] == ReachOf(rest, t1, lookahead, protect);
        assert ReachOf(rest, t2, lookahead, protect) + [] == ReachOf(rest, t2, lookahead, protect);
      }
    }
  }

  lemma NearerStaysNear(a: Option<real>, b: Option<real>, c: Option<real>, d: Option<real>, bound: real)
    requires Near(a, b, bound) && Near(c, d, bound) && c.Some? && d.Some?
    ensures Near(if a.None? then c else Some(MinReal(c.value, a.value)), if b.None? then d else Some(MinReal(d.value, b.value)), bound)
  {
  }

  lemma NoneIsNear(bound: real)
    ensures Near(None, None, bound)
  {
  }

  lemma NobodyNear(m: Metric, q: Point)
    ensures Distance(NearestOf(m, [], q)) == None
  {
  }

  lemma Faster(a: real, b: real, t1: Time, t2: Time)
    requires a <= b && t1 <= t2
    ensures Moved(a, t1, t2) <= Moved(b, t1, t2)
  {
    var time := (t2 - t1) as real;
    NotNegative(b - a, time);
    assert (b - a) * time == b * time - a * time;
  }

  /** What the planner's skipping asks of where people are, the simulator's own tracks keep: over
      any lookahead, the distance from everyone's reach to any point changes no faster, either
      way, than the quickest unit moves. */
  lemma {:induction false} TracksAreBounded(m: Metric, entities: seq<Entity>)
    requires Straight(m) && forall k :: 0 <= k < |entities| ==> Orderly(entities[k].track)
    ensures Bounded(m, Known(m, entities), FastestOf(m, entities))
  {
    hide Straight, Orderly, NearestOf, FastestOf, ReachOf, Near;
    var w := Known(m, entities);
    forall t1: Time, t2: Time, lookahead: Time, protect: seq<Kind>, q: Point | t1 <= t2
      ensures KeepsPace(m, w, FastestOf(m, entities), t1, t2, lookahead, protect, q)
    {
      ReachSlides(m, entities, t1, t2, lookahead, protect, q);
      assert w.reach(t1, lookahead, protect) == ReachOf(entities, t1, lookahead, protect);
      assert w.reach(t2, lookahead, protect) == ReachOf(entities, t2, lookahead, protect);
      assert Moved(FastestOf(m, entities), t1, t2) == FastestOf(m, entities) * (t2 - t1) as real;
    }
  }

  /** Without waypoints of one moment all in one place it fails: a unit with two at once jumps from
      one to the other in no time, and no speed measured from the tracks bounds that. */
  lemma JumpIsUnbounded(m: Metric, p: Point, q: Point) returns (track: seq<Waypoint>, t1: Time, t2: Time)
    requires Straight(m) && m.gap(p, q) > 0.0
    ensures 0 <= t1 < t2 && FastestAlong(m, track) == 0.0
    ensures !Near(PathDistance(m, Route(track, t1, 0), q), PathDistance(m, Route(track, t2, 0), q), FastestAlong(m, track) * (t2 - t1) as real)
  {
    track, t1, t2 := [Waypoint(0, p), Waypoint(1, p), Waypoint(1, q)], 0, 1;
    assert track[..2] == [Waypoint(0, p), Waypoint(1, p)] && track[..2][..1] == [Waypoint(0, p)];
    assert FastestAlong(m, track[..2]) == 0.0;
    assert track[1..] == [Waypoint(1, p), Waypoint(1, q)] && track[1..][1..] == [Waypoint(1, q)] && track[1..][1..][1..] == [];
    assert MetBy(track[1..], 0.0) == 0 && MetBy(track, 0.0) == 1;
    assert MetBy(track[1..][1..], 1.0) == 1 && MetBy(track[1..], 1.0) == 2 && MetBy(track, 1.0) == 3;
    assert Along(p, p, 0.0) == p;
    assert Route(track, t1, 0) == [p] && Route(track, t2, 0) == [q];
  }

  // ---------- A metric in which lines are straight ----------

  function Beyond(a: real, b: real, x: real): real { MaxReal(0.0, MaxReal(MinReal(a, b) - x, x - MaxReal(a, b))) }

  /** Distance along one straight drift. */
  const LINE := Metric((p: Point, q: Point) => AbsReal(p.x - q.x), (a: Point, b: Point, q: Point) => Beyond(a.x, b.x, q.x))

  ghost predicate IsLine(m: Metric)
  {
    && (forall p, q :: m.gap(p, q) == AbsReal(p.x - q.x))
    && (forall a, b, q :: m.segment(a, b, q) == Beyond(a.x, b.x, q.x))
  }

  lemma LineIsStraight()
    ensures IsLine(LINE) && Straight(LINE)
  {
    StraightLine(LINE);
  }

  lemma StraightLine(m: Metric)
    requires IsLine(m)
    ensures Straight(m)
  {
    hide IsLine, Along, AbsReal, Beyond;
    LineMeasures(m);
    LineScales(m);
    LineStretches(m);
  }

  lemma LineMeasures(m: Metric)
    requires IsLine(m)
    ensures forall p, q :: m.gap(p, q) >= 0.0 && m.gap(p, q) == m.gap(q, p) && m.gap(p, p) == 0.0
    ensures forall p, q, r :: m.gap(p, r) <= m.gap(p, q) + m.gap(q, r)
  {
    forall p: Point, q: Point, r: Point
      ensures m.gap(p, q) >= 0.0 && m.gap(p, q) == m.gap(q, p) && m.gap(p, p) == 0.0
      ensures m.gap(p, r) <= m.gap(p, q) + m.gap(q, r)
    {
      Apart(p.x, q.x, r.x);
    }
  }

  lemma LineScales(m: Metric)
    requires IsLine(m)
    ensures forall a, b, s, t | 0.0 <= s <= 1.0 && 0.0 <= t <= 1.0 ::
              m.gap(Along(a, b, s), Along(a, b, t)) == AbsReal(s - t) * m.gap(a, b)
  {
    hide IsLine, Along, AbsReal;
    forall a: Point, b: Point, s: real, t: real | 0.0 <= s <= 1.0 && 0.0 <= t <= 1.0
      ensures m.gap(Along(a, b, s), Along(a, b, t)) == AbsReal(s - t) * m.gap(a, b)
    {
      OnLine(m, a, b, s, t, m.gap(a, b));
    }
  }

  lemma LineStretches(m: Metric)
    requires IsLine(m)
    ensures forall a, b, q, s | 0.0 <= s <= 1.0 :: m.segment(a, b, q) <= m.gap(Along(a, b, s), q)
    ensures forall a, b, q :: Meets(m, a, b, q)
  {
    hide IsLine, Along, AbsReal, Beyond;
    forall a: Point, b: Point, q: Point, s: real | 0.0 <= s <= 1.0
      ensures m.segment(a, b, q) <= m.gap(Along(a, b, s), q)
    {
      InsideLine(m, a, b, s, q);
    }
    forall a: Point, b: Point, q: Point ensures Meets(m, a, b, q) {
      var s := NearestOnLine(m, a, b, q);
      assert m.segment(a, b, q) == m.gap(Along(a, b, s), q);
    }
  }

  lemma OnLine(m: Metric, a: Point, b: Point, s: real, t: real, gap: real)
    requires IsLine(m) && gap == m.gap(a, b)
    ensures m.gap(Along(a, b, s), Along(a, b, t)) == AbsReal(s - t) * gap
  {
    hide Part, AbsReal, Along;
    AlongLine(a, b, s);
    AlongLine(a, b, t);
    ScaledBy(a.x, b.x, s, t, gap);
  }

  lemma ScaledBy(a: real, b: real, s: real, t: real, gap: real)
    requires gap == AbsReal(a - b)
    ensures AbsReal(Part(a, b, s) - Part(a, b, t)) == AbsReal(s - t) * gap
  {
    hide Part, AbsReal;
    Scaled(a, b, s, t);
  }

  lemma InsideLine(m: Metric, a: Point, b: Point, s: real, q: Point)
    requires IsLine(m)
    requires 0.0 <= s <= 1.0
    ensures m.segment(a, b, q) <= m.gap(Along(a, b, s), q)
  {
    hide Part, AbsReal, Beyond;
    AlongLine(a, b, s);
    Inside(a.x, b.x, s, q.x);
  }

  lemma NearestOnLine(m: Metric, a: Point, b: Point, q: Point) returns (s: real)
    requires IsLine(m)
    ensures 0.0 <= s <= 1.0 && m.segment(a, b, q) == m.gap(Along(a, b, s), q)
  {
    hide Part, AbsReal, Beyond;
    s := Nearest(a.x, b.x, q.x);
    AlongLine(a, b, s);
  }

  lemma AlongLine(a: Point, b: Point, s: real)
    ensures Along(a, b, s).x == Part(a.x, b.x, s)
  {
  }

  lemma Apart(x: real, y: real, z: real)
    ensures AbsReal(x - y) >= 0.0 && AbsReal(x - y) == AbsReal(y - x) && AbsReal(x - x) == 0.0
    ensures AbsReal(x - z) <= AbsReal(x - y) + AbsReal(y - z)
  {
  }

  lemma Scaled(a: real, b: real, s: real, t: real)
    ensures AbsReal(Part(a, b, s) - Part(a, b, t)) == AbsReal(s - t) * AbsReal(a - b)
  {
    var d := b - a;
    assert Part(a, b, s) - Part(a, b, t) == d * (s - t);
    if d >= 0.0 && s >= t {
      NotNegative(d, s - t);
    } else if d >= 0.0 {
      NotNegative(d, t - s);
      assert d * (t - s) == -(d * (s - t));
    } else if s >= t {
      NotNegative(-d, s - t);
      assert -d * (s - t) == -(d * (s - t));
    } else {
      NotNegative(-d, t - s);
      assert -d * (t - s) == d * (s - t);
    }
  }

  lemma Inside(a: real, b: real, s: real, x: real)
    requires 0.0 <= s <= 1.0
    ensures Beyond(a, b, x) <= AbsReal(Part(a, b, s) - x)
  {
    InRange(a, b, s);
    var y := Part(a, b, s);
    hide Part;
    assert MinReal(a, b) <= y <= MaxReal(a, b);
  }

  lemma InRange(a: real, b: real, s: real)
    requires 0.0 <= s <= 1.0
    ensures MinReal(a, b) <= Part(a, b, s) <= MaxReal(a, b)
  {
    var way := (b - a) * s;
    if a <= b {
      NotNegative(b - a, s);
      NotNegative(b - a, 1.0 - s);
      assert (b - a) * (1.0 - s) == (b - a) - way;
    } else {
      NotNegative(a - b, s);
      NotNegative(a - b, 1.0 - s);
      assert (a - b) * s == -way && (a - b) * (1.0 - s) == (a - b) + way;
    }
  }

  /** How far along a stretch of the drift it comes nearest to somewhere. */
  lemma Nearest(a: real, b: real, x: real) returns (s: real)
    ensures 0.0 <= s <= 1.0 && Beyond(a, b, x) == AbsReal(Part(a, b, s) - x)
  {
    if a < x < b || b < x < a {
      s := Halfway(a, b, x);
    } else {
      s := if AbsReal(a - x) <= AbsReal(b - x) then 0.0 else 1.0;
      assert Part(a, b, 0.0) == a && Part(a, b, 1.0) == b;
      hide Part;
    }
  }

  lemma Halfway(a: real, b: real, x: real) returns (s: real)
    requires a < x < b || b < x < a
    ensures 0.0 <= s <= 1.0 && Part(a, b, s) == x
  {
    if a < b {
      Quotient(x - a, b - a);
      s := (x - a) / (b - a);
    } else {
      Quotient(a - x, a - b);
      s := (a - x) / (a - b);
      assert (b - a) * s == -((a - b) * s);
    }
  }

  // ---------- What a track and the view of it say ----------

  /** A unit is at each of its waypoints when the track says, stays at its first until then and at its
      last from then on, and goes from each to the next at an even speed along the line between them. */
  lemma TrackIsFollowed(track: seq<Waypoint>, k: nat, f: real)
    requires Orderly(track) && k < |track|
    ensures PositionAt(track, track[k].at as real) == track[k].point
    ensures forall u: real :: u <= track[0].at as real ==> PositionAt(track, u) == track[0].point
    ensures forall u: real :: u >= track[|track| - 1].at as real ==> PositionAt(track, u) == track[|track| - 1].point
    ensures k > 0 && 0.0 <= f <= 1.0 ==>
              var a, b := track[k - 1], track[k];
              PositionAt(track, Part(a.at as real, b.at as real, f)) == Along(a.point, b.point, f)
  {
    MeetsWaypoint(track, k);
    forall u: real | u <= track[0].at as real ensures PositionAt(track, u) == track[0].point {
      MeetsWaypoint(track, 0);
      if u < track[0].at as real {
        assert MetBy(track, u) == 0;
      }
    }
    forall u: real | u >= track[|track| - 1].at as real ensures PositionAt(track, u) == track[|track| - 1].point {
      var n := MetBy(track, u);
      assert n == |track|;
    }
    if k > 0 && 0.0 <= f <= 1.0 {
      BetweenWaypoints(track, k, f);
    }
  }

  lemma MeetsWaypoint(track: seq<Waypoint>, k: nat)
    requires Orderly(track) && k < |track|
    ensures PositionAt(track, track[k].at as real) == track[k].point
  {
    var n := MetBy(track, track[k].at as real);
    assert n > k;
    var last := track[n - 1];
    assert last.at == track[k].at && last.point == track[k].point;
    if n < |track| {
      assert track[n].at - last.at > 0;
      AlongEnds(last.point, track[n].point, (track[k].at as real - last.at as real) / (track[n].at - last.at) as real);
    }
  }

  lemma AlongEnds(a: Point, b: Point, f: real)
    ensures f == 0.0 ==> Along(a, b, f) == a
    ensures f == 1.0 ==> Along(a, b, f) == b
  {
  }

  lemma BetweenWaypoints(track: seq<Waypoint>, k: nat, f: real)
    requires Orderly(track) && 0 < k < |track| && 0.0 <= f <= 1.0
    ensures var a, b := track[k - 1], track[k];
            PositionAt(track, Part(a.at as real, b.at as real, f)) == Along(a.point, b.point, f)
  {
    hide Along;
    var a, b := track[k - 1], track[k];
    MeetsWaypoint(track, k);
    AlongEnds(a.point, b.point, f);
    PartWay(a.at as real, b.at as real, f);
    if a.at == b.at {
      AlongNowhere(a.point, f);
    } else if f < 1.0 {
      var u := Part(a.at as real, b.at as real, f);
      assert (b.at - a.at) as real == b.at as real - a.at as real;
      assert MetBy(track, u) == k;
    }
  }

  lemma PartWay(a: real, b: real, f: real)
    requires a <= b && 0.0 <= f <= 1.0
    ensures a == b || f == 1.0 ==> Part(a, b, f) == b
    ensures a < b ==> (Part(a, b, f) - a) / (b - a) == f && a <= Part(a, b, f) && (f < 1.0 ==> Part(a, b, f) < b)
  {
    var span := b - a;
    assert Part(a, b, f) - a == span * f;
    assert span > 0.0 ==> span * f / span == f;
  }

  lemma AlongNowhere(a: Point, f: real)
    ensures Along(a, a, f) == a
  {
  }

  /** A protected unit with a track. */
  predicate Protected(e: Entity, protect: seq<Kind>) { e.kind in protect && e.track != [] }

  /** The protected units with a track, in order. */
  function Who(entities: seq<Entity>, protect: seq<Kind>): (r: seq<nat>)
    ensures forall i: nat :: i in r <==> i < |entities| && Protected(entities[i], protect)
    ensures forall i, j :: 0 <= i < j < |r| ==> r[i] < r[j]
  {
    if entities == [] then []
    else
      var n := |entities| - 1;
      var before := Who(entities[..n], protect);
      assert forall k :: 0 <= k < |before| ==> before[k] in before;
      before + if Protected(entities[n], protect) then [n] else []
  }

  /** Who is where, and what each could reach: each protected unit with a track, once and in order, is
      where its track has it, and goes its own route over the lookahead. */
  lemma {:induction false} KnownAre(entities: seq<Entity>, at: Time, lookahead: Time, protect: seq<Kind>)
    ensures var who, places, reach := Who(entities, protect), PositionsOf(entities, at, protect), ReachOf(entities, at, lookahead, protect);
            && |places| == |reach| == |who| && (forall k :: 0 <= k < |who| ==> who[k] in who && who[k] < |entities|)
            && (forall k :: 0 <= k < |who| ==> places[k] == Position(entities[who[k]].id, PositionAt(entities[who[k]].track, at as real)))
            && (forall k :: 0 <= k < |who| ==> reach[k] == Path(entities[who[k]].id, Route(entities[who[k]].track, at, lookahead)))
  {
    if entities != [] {
      hide *;
      var n := |entities| - 1;
      var rest := entities[..n];
      KnownAre(rest, at, lookahead, protect);
      KnownNext(entities, at, lookahead, protect);
      var who, before := Who(entities, protect), Who(rest, protect);
      forall k | 0 <= k < |who|
        ensures who[k] in who && who[k] < |entities|
        ensures PositionsOf(entities, at, protect)[k] == Position(entities[who[k]].id, PositionAt(entities[who[k]].track, at as real))
        ensures ReachOf(entities, at, lookahead, protect)[k] == Path(entities[who[k]].id, Route(entities[who[k]].track, at, lookahead))
      {
        if k < |before| {
          assert who[k] == before[k] && rest[before[k]] == entities[who[k]];
        }
      }
    }
  }

  lemma KnownNext(entities: seq<Entity>, at: Time, lookahead: Time, protect: seq<Kind>)
    requires entities != []
    ensures var n, e := |entities| - 1, entities[|entities| - 1];
            var rest, joins := entities[..n], Protected(e, protect);
            && Who(entities, protect) == Who(rest, protect) + (if joins then [n] else [])
            && PositionsOf(entities, at, protect) ==
               PositionsOf(rest, at, protect) + (if joins then [Position(e.id, PositionAt(e.track, at as real))] else [])
            && ReachOf(entities, at, lookahead, protect) ==
               ReachOf(rest, at, lookahead, protect) + (if joins then [Path(e.id, Route(e.track, at, lookahead))] else [])
  {
    hide PositionAt, Route;
  }
}
