/** When a unit's track bounds how fast it moves: internal/observe/tracks.go:46-84 and
    internal/domain/entity.go:79-103. The fastest leg is measured over legs that take time, so
    what it leaves out is several waypoints at one moment. */
module Jumps {
  import opened Basics
  import opened Observe
  import opened Tracks

  ghost predicate InTimeOrder(track: seq<Waypoint>)
  {
    forall i, j :: 0 <= i < j < |track| ==> track[i].at <= track[j].at
  }

  /** Waypoints i to j are all there are at one moment, which comes after another. */
  predicate OneMoment(track: seq<Waypoint>, from: real, i: int, j: int)
  {
    && 0 <= i <= j < |track| && track[i].at == track[j].at && from < track[i].at as real
    && (i == 0 || track[i - 1].at < track[i].at) && (j == |track| - 1 || track[j].at < track[j + 1].at)
  }

  /** A unit leaves every moment where it arrived at it. */
  ghost predicate Unbroken(m: Metric, track: seq<Waypoint>, from: real)
  {
    forall i, j :: OneMoment(track, from, i, j) ==> m.gap(track[i].point, track[j].point) == 0.0
  }

  /** A unit is never farther from where it was than its fastest leg would take it. */
  ghost predicate WithinSpeed(m: Metric, track: seq<Waypoint>, from: real)
  {
    forall u, v | from <= u <= v :: m.gap(PositionAt(track, u), PositionAt(track, v)) <= FastestAlong(m, track) * (v - u)
  }

  lemma MetByIs(track: seq<Waypoint>, u: real, n: nat)
    requires n <= |track| && (forall k :: 0 <= k < n ==> track[k].at as real <= u) && (n < |track| ==> track[n].at as real > u)
    ensures MetBy(track, u) == n
  {
  }

  /** From the moment a run starts, a unit keeps within its fastest speed exactly when it is never
      in two places at one moment: when the first waypoint of each is where the last is. */
  lemma SpeedBoundsExactly(m: Metric, track: seq<Waypoint>, from: real)
    requires Straight(m) && InTimeOrder(track) && track != []
    ensures WithinSpeed(m, track, from) <==> Unbroken(m, track, from)
  {
    hide Straight, FastestAlong, PositionAt, InTimeOrder;
    if Unbroken(m, track, from) {
      forall u, v | from <= u <= v ensures m.gap(PositionAt(track, u), PositionAt(track, v)) <= FastestAlong(m, track) * (v - u) {
        NeverFasterUnbroken(m, track, from, u, v);
      }
    }
    if WithinSpeed(m, track, from) {
      forall i, j | OneMoment(track, from, i, j) ensures m.gap(track[i].point, track[j].point) == 0.0 {
        NoJump(m, track, from, i, j);
      }
    }
  }

  /** At a moment with waypoints, a unit is at the last of them. */
  lemma AtLast(track: seq<Waypoint>, from: real, i: nat, j: nat)
    requires InTimeOrder(track) && OneMoment(track, from, i, j)
    ensures PositionAt(track, track[i].at as real) == track[j].point
    ensures MetBy(track, track[i].at as real) == j + 1
  {
    var c := track[i].at as real;
    MetByIs(track, c, j + 1);
    AtWaypoint(track, j + 1, c);
  }

  /** Just before a moment a unit is on the leg to the first of its waypoints. */
  lemma BeforeFirst(track: seq<Waypoint>, from: real, i: nat, j: nat, u: real)
    requires InTimeOrder(track) && OneMoment(track, from, i, j)
    requires u < track[i].at as real && (i > 0 ==> track[i - 1].at as real <= u)
    ensures MetBy(track, u) == i && PositionAt(track, u) == Leg(track, i, u)
    ensures Leg(track, i, track[i].at as real) == track[i].point
  {
    MetByIs(track, u, i);
    if i > 0 {
      ArrivesThere(track, i, track[i].at as real);
    }
  }

  /** The last waypoint of the moment of one that is met next. */
  lemma {:induction false} LastOfMoment(track: seq<Waypoint>, from: real, i: nat, k: nat) returns (j: nat)
    requires InTimeOrder(track) && i <= k < |track| && track[i].at == track[k].at
    requires from < track[i].at as real && (i == 0 || track[i - 1].at < track[i].at)
    ensures k <= j && OneMoment(track, from, i, j)
    decreases |track| - k
  {
    if k == |track| - 1 || track[k].at < track[k + 1].at {
      j := k;
    } else {
      j := LastOfMoment(track, from, i, k + 1);
    }
  }

  lemma ToNextMoment(m: Metric, track: seq<Waypoint>, from: real, u: real, v: real)
    requires Straight(m) && InTimeOrder(track) && track != [] && Unbroken(m, track, from) && from <= u <= v
    requires MetBy(track, u) < |track| ==> v <= track[MetBy(track, u)].at as real
    ensures m.gap(PositionAt(track, u), PositionAt(track, v)) <= FastestAlong(m, track) * (v - u)
  {
    hide Straight, FastestAlong;
    var i := MetBy(track, u);
    assert 0 < i < |track| ==> track[i - 1].at < track[i].at;
    OnALeg(m, track, i, u, v);
    if i < |track| && v == track[i].at as real {
      var j := LastOfMoment(track, from, i, i);
      AtLast(track, from, i, j);
      BeforeFirst(track, from, i, j, u);
      ThroughPoint(m, PositionAt(track, u), track[i].point, track[j].point);
    } else {
      MetByIs(track, v, i);
    }
  }

  lemma {:induction false} NeverFasterUnbroken(m: Metric, track: seq<Waypoint>, from: real, u: real, v: real)
    requires Straight(m) && InTimeOrder(track) && track != [] && Unbroken(m, track, from) && from <= u <= v
    ensures m.gap(PositionAt(track, u), PositionAt(track, v)) <= FastestAlong(m, track) * (v - u)
    decreases Passed(track, u, v)
  {
    hide Straight, FastestAlong, PositionAt, Unbroken;
    var i := MetBy(track, u);
    if i < |track| && (track[i].at as real) < v {
      var c := track[i].at as real;
      PassedFewer(track, u, c, v);
      NeverFasterUnbroken(m, track, from, c, v);
      ToNextMoment(m, track, from, u, c);
      assert FastestAlong(m, track) * (c - u) + FastestAlong(m, track) * (v - c) == FastestAlong(m, track) * (v - u);
      ThroughPoint(m, PositionAt(track, u), PositionAt(track, c), PositionAt(track, v));
    } else {
      ToNextMoment(m, track, from, u, v);
    }
  }

  /** A moment so soon before another that what can be moved in between, a few times over, comes
      to less than some distance. */
  lemma Lately(speed: real, distance: real, parts: real, from: real, c: real) returns (u: real)
    requires speed >= 0.0 && distance > 0.0 && parts > 0.0 && from < c
    ensures from <= u < c && parts * (speed * (c - u)) < distance
  {
    var h := Small(speed, distance, parts);
    u := MaxReal(from, c - h);
    NoMore(speed, c - u, h);
    NoMore(parts, speed * (c - u), speed * h);
  }

  lemma Small(speed: real, distance: real, parts: real) returns (h: real)
    requires speed >= 0.0 && distance > 0.0 && parts > 0.0
    ensures h > 0.0 && parts * (speed * h) < distance
  {
    var scale := parts * (speed + 1.0);
    NotNegative(parts, speed);
    assert scale == parts * speed + parts;
    h := distance / scale;
    assert h * scale == distance;
    assert h > 0.0;
    assert parts * (speed * h) + parts * h == h * scale;
    assert parts * h > 0.0;
  }

  /** A jump is more than any speed accounts for, looked at closely enough. */
  lemma NoJump(m: Metric, track: seq<Waypoint>, from: real, i: nat, j: nat)
    requires Straight(m) && InTimeOrder(track) && WithinSpeed(m, track, from) && OneMoment(track, from, i, j)
    ensures m.gap(track[i].point, track[j].point) == 0.0
  {
    hide Straight, FastestAlong, PositionAt, WithinSpeed, InTimeOrder;
    var c, speed, jump := track[i].at as real, FastestAlong(m, track), m.gap(track[i].point, track[j].point);
    FastestAlongIsPositive(m, track);
    Apart(m, track[i].point, track[j].point);
    if jump > 0.0 {
      var begins := if i > 0 then MaxReal(from, track[i - 1].at as real) else from;
      var u := Lately(speed, jump, 2.0, begins, c);
      var here := OnTheWay(m, track, from, i, j, u);
      Apart(m, here, track[i].point);
      ThroughPoint(m, track[i].point, here, track[j].point);
    }
  }

  /** Where a unit is just before a jump is near both its ends. */
  lemma OnTheWay(m: Metric, track: seq<Waypoint>, from: real, i: nat, j: nat, u: real) returns (here: Point)
    requires Straight(m) && InTimeOrder(track) && WithinSpeed(m, track, from) && OneMoment(track, from, i, j)
    requires from <= u < track[i].at as real && (i > 0 ==> track[i - 1].at as real <= u)
    ensures var way := FastestAlong(m, track) * (track[i].at as real - u);
            m.gap(here, track[i].point) <= way && m.gap(here, track[j].point) <= way
  {
    hide Straight, FastestAlong, PositionAt, WithinSpeed, Leg, MetBy;
    var c := track[i].at as real;
    here := PositionAt(track, u);
    AtLast(track, from, i, j);
    BeforeFirst(track, from, i, j, u);
    OnALeg(m, track, i, u, c);
    Keeps(m, track, from, u, c);
  }

  lemma Apart(m: Metric, p: Point, q: Point)
    requires Straight(m)
    ensures m.gap(p, q) == m.gap(q, p) && m.gap(p, q) >= 0.0
  {
  }

  lemma Keeps(m: Metric, track: seq<Waypoint>, from: real, u: real, v: real)
    requires WithinSpeed(m, track, from) && from <= u <= v
    ensures m.gap(PositionAt(track, u), PositionAt(track, v)) <= FastestAlong(m, track) * (v - u)
  {
    hide FastestAlong, PositionAt;
  }

  lemma NoMore(speed: real, a: real, b: real)
    requires speed >= 0.0 && a <= b
    ensures speed * a <= speed * b
  {
    NotNegative(speed, b - a);
    assert speed * (b - a) == speed * b - speed * a;
  }

  // ---------- What of the reach ----------

  /** A unit's waypoints at one moment are all one place: those between the first and the last,
      which it is never seen at but which its route goes through, too. */
  ghost predicate InOnePlace(track: seq<Waypoint>, from: real)
  {
    forall i, j :: 0 <= i < j < |track| && track[i].at == track[j].at && track[i].at as real > from ==> track[i].point == track[j].point
  }

  /** As a window of any length slides on, how near a unit's route comes to any point changes no
      faster than the unit moves. */
  ghost predicate RouteWithinSpeed(m: Metric, track: seq<Waypoint>, from: real)
  {
    forall t1, t2, length, q | from <= t1 <= t2 && length >= 0.0 :: Slid(m, track, t1, t2, length, q)
  }

  ghost predicate Slid(m: Metric, track: seq<Waypoint>, t1: real, t2: real, length: real, q: Point)
  {
    Near(PathDistance(m, RouteOver(track, t1, t1 + length), q), PathDistance(m, RouteOver(track, t2, t2 + length), q),
         FastestAlong(m, track) * (t2 - t1))
  }

  /** From the moment a run starts, a unit's reach keeps within its fastest speed exactly when its
      waypoints of each later moment are all one place. */
  lemma ReachBoundsExactly(m: Metric, track: seq<Waypoint>, from: real)
    requires Straight(m) && (forall p, q :: m.gap(p, q) == 0.0 ==> p == q)
    requires InTimeOrder(track) && track != []
    ensures RouteWithinSpeed(m, track, from) <==> InOnePlace(track, from)
  {
    hide Straight, FastestAlong, PositionAt, InTimeOrder, Slid;
    if InOnePlace(track, from) {
      forall t1, t2, length, q | from <= t1 <= t2 && length >= 0.0 ensures Slid(m, track, t1, t2, length, q) {
        RouteKeeps(m, track, from, t1, t2, length, q);
      }
    }
    if RouteWithinSpeed(m, track, from) {
      forall i, j | 0 <= i < j < |track| && track[i].at == track[j].at && track[i].at as real > from
        ensures track[i].point == track[j].point
      {
        var l := LastAt(track, j);
        NoDetour(m, track, from, i, l);
        NoDetour(m, track, from, j, l);
      }
    }
  }

  lemma {:induction false} LastAt(track: seq<Waypoint>, k: nat) returns (l: nat)
    requires InTimeOrder(track) && k < |track|
    ensures k <= l < |track| && track[l].at == track[k].at && (l + 1 < |track| ==> track[l + 1].at > track[l].at)
    decreases |track| - k
  {
    if k == |track| - 1 || track[k].at < track[k + 1].at {
      l := k;
    } else {
      l := LastAt(track, k + 1);
    }
  }

  // ---------- A track from the waypoint a run starts at ----------

  lemma SameFrom(track: seq<Waypoint>, k: nat, u: real)
    requires InTimeOrder(track) && k < |track| && (k > 0 ==> track[k].at as real <= u)
    ensures k <= MetBy(track, u) && MetBy(track[k..], u) == MetBy(track, u) - k
    ensures PositionAt(track[k..], u) == PositionAt(track, u)
  {
    hide Leg, MetBy;
    var n := MetAfter(track, k, u);
    MetByIs(track[k..], u, n - k);
    LegFrom(track, k, n, u);
  }

  lemma MetAfter(track: seq<Waypoint>, k: nat, u: real) returns (n: nat)
    requires InTimeOrder(track) && k < |track| && (k > 0 ==> track[k].at as real <= u)
    ensures n == MetBy(track, u) && k <= n <= |track| && (k > 0 ==> k < n)
    ensures forall w :: 0 <= w < n - k ==> track[k..][w].at as real <= u
    ensures n - k < |track[k..]| ==> track[k..][n - k].at as real > u
  {
    hide MetBy;
    n := MetBy(track, u);
    assert forall w :: 0 <= w < k ==> track[w].at <= track[k].at;
  }

  lemma LegFrom(track: seq<Waypoint>, k: nat, n: nat, u: real)
    requires k < |track| && k <= n <= |track| && (k > 0 ==> k < n)
    ensures Leg(track[k..], n - k, u) == Leg(track, n, u)
  {
    hide Along;
  }

  lemma {:induction false} AheadFrom(track: seq<Waypoint>, k: nat, i: nat, until: real)
    requires k <= i <= |track|
    ensures Ahead(track[k..], i - k, until) == Ahead(track, i, until)
  {
    AheadHolds(track, i, until);
    AheadHolds(track[k..], i - k, until);
    hide Ahead;
    var a, b := Ahead(track, i, until), Ahead(track[k..], i - k, until);
    assert forall w :: i <= w < |track| ==> track[k..][w - k] == track[w];
  }

  lemma OverFrom(track: seq<Waypoint>, k: nat, a: real, b: real)
    requires InTimeOrder(track) && k < |track| && (k > 0 ==> track[k].at as real <= a) && a <= b
    ensures RouteOver(track[k..], a, b) == RouteOver(track, a, b)
  {
    hide PositionAt, MetBy, Ahead, InTimeOrder;
    SameFrom(track, k, a);
    SameFrom(track, k, b);
    AheadFrom(track, k, MetBy(track, a), b);
  }

  lemma {:induction false} SlowerFrom(m: Metric, track: seq<Waypoint>, k: nat)
    requires k <= |track|
    ensures FastestAlong(m, track[k..]) <= FastestAlong(m, track)
    decreases |track|
  {
    var n := |track|;
    FastestAlongIsPositive(m, track);
    if n - k >= 2 {
      SlowerFrom(m, track[..n - 1], k);
      assert track[k..][..n - k - 1] == track[..n - 1][k..];
    }
  }

  lemma RouteKeeps(m: Metric, track: seq<Waypoint>, from: real, t1: real, t2: real, length: real, q: Point)
    requires Straight(m) && InTimeOrder(track) && track != [] && InOnePlace(track, from) && from <= t1 <= t2 && length >= 0.0
    ensures Slid(m, track, t1, t2, length, q)
  {
    hide Straight, FastestAlong, PositionAt, PathDistance, RouteOver, NearestOver, Orderly, InOnePlace, InTimeOrder;
    var k := RunFrom(track, from);
    var rest := track[k..];
    OverFrom(track, k, t1, t1 + length);
    OverFrom(track, k, t2, t2 + length);
    OverIsNearest(m, rest, t1, t1 + length, q);
    OverIsNearest(m, rest, t2, t2 + length, q);
    WindowSlides(m, rest, t1, t2, length, q, PathDistance(m, RouteOver(rest, t1, t1 + length), q).value,
                 PathDistance(m, RouteOver(rest, t2, t2 + length), q).value);
    SlowerFrom(m, track, k);
    NoMore(t2 - t1, FastestAlong(m, rest), FastestAlong(m, track));
  }

  /** Where a track has to be looked at from: the last waypoint met by the start of a run. */
  lemma RunFrom(track: seq<Waypoint>, from: real) returns (k: nat)
    requires InTimeOrder(track) && track != [] && InOnePlace(track, from)
    ensures k < |track| && (k > 0 ==> track[k].at as real <= from) && Orderly(track[k..])
  {
    var n := MetBy(track, from);
    k := if n > 0 then n - 1 else 0;
    assert forall w :: n <= w < |track| ==> track[w].at >= track[n].at;
  }

  // ---------- A detour no route makes ----------

  lemma {:induction false} ThroughIsNear(m: Metric, points: seq<Point>, w: nat)
    requires Straight(m) && 0 < w < |points|
    ensures PathDistance(m, points, points[w]).Some? && PathDistance(m, points, points[w]).value <= 0.0
    decreases |points|
  {
    hide Straight;
    var n := |points|;
    if w < n - 1 {
      ThroughIsNear(m, points[..n - 1], w);
    } else {
      EndIsNear(m, points[n - 2], points[n - 1]);
    }
  }

  lemma EndIsNear(m: Metric, a: Point, b: Point)
    requires Straight(m)
    ensures m.segment(a, b, b) <= 0.0
  {
    assert Along(a, b, 1.0) == b;
    assert m.segment(a, b, b) <= m.gap(Along(a, b, 1.0), b);
  }

  /** A stretch is no nearer to a point than its start is, but for its length. */
  lemma StartIsNear(m: Metric, a: Point, b: Point, q: Point)
    requires Straight(m)
    ensures m.segment(a, b, q) >= m.gap(a, q) - m.gap(a, b)
  {
    hide Straight, Along;
    var s := MeetsAt(m, a, b, q);
    PartWay(m, a, b, s);
    ThroughPoint(m, a, Along(a, b, s), q);
  }

  lemma PartWay(m: Metric, a: Point, b: Point, s: real)
    requires Straight(m) && 0.0 <= s <= 1.0
    ensures m.gap(a, Along(a, b, s)) <= m.gap(a, b)
  {
    hide Straight;
    assert Along(a, b, 0.0) == a;
    hide Along;
    AlongGap(m, a, b, 0.0, s);
    NoMore(m.gap(a, b), s, 1.0);
  }

  lemma MeetsAt(m: Metric, a: Point, b: Point, q: Point) returns (s: real)
    requires Straight(m)
    ensures 0.0 <= s <= 1.0 && m.segment(a, b, q) == m.gap(Along(a, b, s), q)
  {
    assert Meets(m, a, b, q);
    s :| 0.0 <= s <= 1.0 && m.segment(a, b, q) == m.gap(Along(a, b, s), q);
  }

  /** A waypoint of a moment is where the moment's last one is. */
  lemma NoDetour(m: Metric, track: seq<Waypoint>, from: real, e: nat, l: nat)
    requires Straight(m) && InTimeOrder(track) && RouteWithinSpeed(m, track, from) && (forall p, q :: m.gap(p, q) == 0.0 ==> p == q)
    requires e <= l < |track| && track[e].at == track[l].at && from < track[e].at as real && (l + 1 < |track| ==> track[l + 1].at > track[l].at)
    ensures track[e].point == track[l].point
  {
    hide Straight, FastestAlong, InTimeOrder, RouteWithinSpeed;
    var c, speed, detour := track[e].at as real, FastestAlong(m, track), m.gap(track[l].point, track[e].point);
    FastestAlongIsPositive(m, track);
    Apart(m, track[l].point, track[e].point);
    if detour > 0.0 {
      var begins := if l + 1 < |track| then MaxReal(from, c - (track[l + 1].at as real - c) / 4.0) else from;
      var t := Lately(speed, detour, 3.0, begins, c);
      DetourIsShort(m, track, from, e, l, t);
    }
  }

  /** How far off its way a moment's waypoint can be, by how soon before it the window begins. */
  lemma DetourIsShort(m: Metric, track: seq<Waypoint>, from: real, e: nat, l: nat, t: real)
    requires Straight(m) && InTimeOrder(track) && RouteWithinSpeed(m, track, from)
    requires e <= l < |track| && track[e].at == track[l].at && from <= t < track[e].at as real
    requires l + 1 < |track| ==> track[l + 1].at as real > track[l].at as real + 2.0 * (track[l].at as real - t)
    ensures m.gap(track[l].point, track[e].point) <= 3.0 * (FastestAlong(m, track) * (track[e].at as real - t))
  {
    hide Straight, FastestAlong, InTimeOrder, RouteOver, PathDistance;
    var c := track[e].at as real;
    var length := 2.0 * (c - t);
    Detours(m, track, e, l, t, t + length);
    Stays(m, track, e, l, c + length);
    assert Slid(m, track, t, c, length, track[e].point);
    SlidBy(m, track, t, c, length, track[e].point);
    assert Way(m, track, c, c + length) == 2.0 * (FastestAlong(m, track) * (c - t));
    var after := PathDistance(m, RouteOver(track, c, c + length), track[e].point).value;
    assert after <= FastestAlong(m, track) * (c - t);
  }

  lemma SlidBy(m: Metric, track: seq<Waypoint>, t1: real, t2: real, length: real, q: Point)
    requires Slid(m, track, t1, t2, length, q)
    requires PathDistance(m, RouteOver(track, t1, t1 + length), q).Some? && PathDistance(m, RouteOver(track, t2, t2 + length), q).Some?
    ensures PathDistance(m, RouteOver(track, t2, t2 + length), q).value <=
            PathDistance(m, RouteOver(track, t1, t1 + length), q).value + FastestAlong(m, track) * (t2 - t1)
  {
    hide PathDistance, RouteOver, FastestAlong;
  }

  /** A window around a moment goes through all its waypoints. */
  lemma Detours(m: Metric, track: seq<Waypoint>, e: nat, l: nat, a: real, b: real)
    requires Straight(m) && InTimeOrder(track) && e <= l < |track| && a < track[e].at as real < b
    ensures PathDistance(m, RouteOver(track, a, b), track[e].point).Some? && PathDistance(m, RouteOver(track, a, b), track[e].point).value <= 0.0
  {
    hide Straight, PathDistance, PositionAt, MetBy, Ahead;
    var i := MetBy(track, a);
    AheadHolds(track, i, b);
    var ahead := Ahead(track, i, b);
    assert i <= e && e < i + |ahead|;
    var points := RouteOver(track, a, b);
    assert ahead[e - i] == track[e];
    assert points[1 + (e - i)] == Places(ahead)[e - i];
    ThroughIsNear(m, points, 1 + (e - i));
  }

  /** How far a unit may have gone between two moments. */
  function Way(m: Metric, track: seq<Waypoint>, a: real, b: real): real { FastestAlong(m, track) * (b - a) }

  lemma WayIsPositive(m: Metric, track: seq<Waypoint>, a: real, b: real)
    requires a <= b
    ensures Way(m, track, a, b) >= 0.0
  {
    hide FastestAlong;
    FastestAlongIsPositive(m, track);
    NotNegative(FastestAlong(m, track), b - a);
  }

  /** A window that begins at a moment, and ends by the next, stays near the moment's last. */
  lemma Stays(m: Metric, track: seq<Waypoint>, e: nat, l: nat, b: real)
    requires Straight(m) && InTimeOrder(track) && e <= l < |track| && track[e].at == track[l].at
    requires (l + 1 < |track| ==> track[l + 1].at > track[l].at && b < track[l + 1].at as real)
    requires track[l].at as real < b
    ensures PathDistance(m, RouteOver(track, track[e].at as real, b), track[e].point).Some?
    ensures PathDistance(m, RouteOver(track, track[e].at as real, b), track[e].point).value >=
            m.gap(track[l].point, track[e].point) - Way(m, track, track[l].at as real, b)
  {
    hide Straight, Way, FastestAlong, Leg, MetBy, PositionAt;
    var c, q := track[l].at as real, track[e].point;
    var here := Leaves(m, track, l, b);
    Begins(track, l, b, here);
    assert track[e].at as real == c;
    assert [track[l].point, here][..1] == [track[l].point];
    StartIsNear(m, track[l].point, here, q);
    WayIsPositive(m, track, c, b);
  }

  lemma Begins(track: seq<Waypoint>, l: nat, b: real, here: Point)
    requires InTimeOrder(track) && l < |track| && here == PositionAt(track, b)
    requires (l + 1 < |track| ==> track[l + 1].at > track[l].at && b < track[l + 1].at as real)
    requires track[l].at as real < b
    ensures RouteOver(track, track[l].at as real, b) == [track[l].point, here]
  {
    hide Leg;
    var c := track[l].at as real;
    MetByIs(track, c, l + 1);
    AtWaypoint(track, l + 1, c);
    hide MetBy;
    assert Ahead(track, l + 1, b) == [];
  }

  /** Where a unit has got to on its way from a moment's last waypoint. */
  lemma Leaves(m: Metric, track: seq<Waypoint>, l: nat, b: real) returns (here: Point)
    requires Straight(m) && InTimeOrder(track) && l < |track|
    requires (l + 1 < |track| ==> track[l + 1].at > track[l].at && b < track[l + 1].at as real)
    requires track[l].at as real < b
    ensures here == PositionAt(track, b)
    ensures m.gap(track[l].point, here) <= Way(m, track, track[l].at as real, b)
  {
    hide Straight, FastestAlong, Leg, MetBy;
    var c := track[l].at as real;
    here := PositionAt(track, b);
    MetByIs(track, b, l + 1);
    AtWaypoint(track, l + 1, c);
    OnALeg(m, track, l + 1, c, b);
  }
}
