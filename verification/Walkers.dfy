/** People who walk the tunnels, and what the mine's own reading then keeps: a track along legs, no
    faster than walking, is one for which internal/observe/positioned.go:35-67 keeps every promise of
    internal/observe/observe.go:25-41. */
module Walkers {
  import opened Basics
  import opened Observe
  import opened Tunnels
  import opened Reach
  import opened Surveyed
  import opened Positioned
  import Tracks
  import Pace
  import Jumps

  // ---------- A network drawn truly ----------

  /** A point is where a place is. */
  ghost predicate Is(g: Network, x: Place, at: Point)
  {
    InTunnels(g, x) && x.a < |g.points| && x.b < |g.points| && x.length > 0.0 && PointOf(g, x) == at
  }

  /** Legs meet at junctions and nowhere else: however a point is reached, one is there. */
  ghost predicate OnePlace(g: Network)
  {
    forall x, y, at :: Is(g, x, at) && Is(g, y, at) ==> WithinReach(g, x, y, 0.0)
  }

  /** What is taken for the nearest place of a leg is on it, and no place of the leg is nearer. */
  ghost predicate LegNearest(m: Metric, g: Network, close: (Point, nat, nat) -> Closest, p: Point, u: nat, k: nat)
    requires u < |g.edges| && k < |g.edges[u]|
  {
    var e := g.edges[u][k];
    var here := Place(u, e.to, e.length, close(p, u, e.to).offset);
    && InTunnels(g, here) && u < |g.points| && e.to < |g.points| && e.length > 0.0
    && close(p, u, e.to).distance == m.gap(PointOf(g, here), p)
    && forall x, at :: Is(g, x, at) && SameLeg(here, x) ==> close(p, u, e.to).distance <= m.gap(at, p)
  }

  ghost predicate Projects(m: Metric, g: Network, close: (Point, nat, nat) -> Closest)
  {
    forall p, u: nat, k: nat :: u < |g.edges| && k < |g.edges[u]| ==> LegNearest(m, g, close, p, u, k)
  }

  /** Distance, and a network and nearest places to go with it. */
  ghost predicate TrulyDrawn(m: Metric, g: Network, close: (Point, nat, nat) -> Closest)
  {
    && Tracks.Straight(m) && (forall p, q :: m.gap(p, q) == 0.0 ==> p == q)
    && g.Valid(m.gap) && OnePlace(g) && Projects(m, g, close)
  }

  /** Someone in the tunnels is taken to be where they are. */
  lemma TakenForHere(m: Metric, g: Network, close: (Point, nat, nat) -> Closest, x: Place, at: Point, y: Place)
    requires TrulyDrawn(m, g, close) && Is(g, x, at) && TakenFor(g, NearTo(close, at), Some(y))
    ensures Is(g, y, at)
  {
    hide Tracks.Straight, PointOf, Network.Valid, OnePlace;
    var near := NearTo(close, at);
    var v: nat, n: nat :| NearestSoFar(g, near, |g.edges|, 0, y, v, n);
    assert LegNearest(m, g, close, at, v, n);
    var u, k := LowerEnd(m, g, x);
    assert LegNearest(m, g, close, at, u, k);
    assert near(y.a, y.b).distance <= near(u, g.edges[u][k].to).distance;
    Symmetric(m, at, at);
    Symmetric(m, PointOf(g, y), at);
  }

  /** A leg as it is met: from the lower of its ends. */
  lemma LowerEnd(m: Metric, g: Network, x: Place) returns (u: nat, k: nat)
    requires g.Valid(m.gap) && InTunnels(g, x)
    ensures Reach.Met(g, u, k) && MetBefore(u, k, |g.edges|, 0)
    ensures g.edges[u][k].length == x.length && ((u == x.a && g.edges[u][k].to == x.b) || (u == x.b && g.edges[u][k].to == x.a))
  {
    LegIsOk(g, m.gap, x);
    u := if x.a <= x.b then x.a else x.b;
    var other := if x.a <= x.b then x.b else x.a;
    k :| 0 <= k < |g.edges[u]| && g.edges[u][k] == Edge(other, x.length);
  }

  // ---------- A track along the tunnels ----------

  /** Part of a leg walked between one waypoint and the next. */
  datatype Stride = Stride(from: Place, until: Place)

  ghost predicate Strides(g: Network, track: seq<Tracks.Waypoint>, start: Place, strides: seq<Stride>)
  {
    && |track| == |strides| + 1 && Is(g, start, track[0].point)
    && forall k :: 0 <= k < |strides| ==>
         Is(g, strides[k].from, track[k].point) && Is(g, strides[k].until, track[k + 1].point) && SameLeg(strides[k].from, strides[k].until)
  }

  /** Someone's track goes along the tunnels, no faster than they walk. */
  ghost predicate Walks(m: Metric, g: Network, track: seq<Tracks.Waypoint>, walking: real)
  {
    Tracks.Orderly(track) && Tracks.FastestAlong(m, track) <= walking && (track != [] ==> exists start, strides :: Strides(g, track, start, strides))
  }

  lemma PartScaled(x: real, y: real, f: real, length: real)
    requires length > 0.0
    ensures Tracks.Part(x, y, f) / length == Tracks.Part(x / length, y / length, f)
  {
    var a, b := x / length, y / length;
    assert a * length == x && b * length == y;
    var r := a + (b - a) * f;
    assert ((b - a) * f) * length == (b * length - a * length) * f;
    assert r * length == Tracks.Part(x, y, f);
    assert (r * length) / length == r;
  }

  /** Part of the way along a stride. */
  lemma OnStride(m: Metric, g: Network, from: Place, until: Place, a: Point, b: Point, f: real) returns (x: Place)
    requires Tracks.Straight(m) && g.Valid(m.gap) && Is(g, from, a) && Is(g, until, b) && SameLeg(from, until) && 0.0 <= f <= 1.0
    ensures Is(g, x, Tracks.Along(a, b, f)) && SameLeg(from, x) && x.a == from.a
  {
    hide Tracks.Straight, Tracks.Along, Network.Valid;
    PlaceHas(m, g, from);
    PlaceHas(m, g, until);
    PointOnLeg(m, g, from, from);
    PointOnLeg(m, g, from, until);
    var end := until.To(from.a);
    var offset := Tracks.Part(from.offset, end, f);
    Tracks.InRange(from.offset, end, f);
    PartScaled(from.offset, end, f, from.length);
    Tracks.AlongAlong(g.points[from.a], g.points[from.b], from.offset / from.length, end / from.length, f);
    x := from.(offset := offset);
  }

  /** Where someone is at a moment, as a place. */
  lemma WhereOn(m: Metric, g: Network, track: seq<Tracks.Waypoint>, start: Place, strides: seq<Stride>, u: real) returns (x: Place)
    requires Tracks.Straight(m) && g.Valid(m.gap) && Tracks.Orderly(track) && Strides(g, track, start, strides)
    ensures Is(g, x, Tracks.PositionAt(track, u))
  {
    hide Tracks.Straight, Network.Valid, Is, Tracks.Along, Tracks.MetBy;
    var n := Tracks.MetBy(track, u);
    if n == 0 {
      x := start;
    } else if n == |track| {
      x := if |strides| == 0 then start else strides[n - 2].until;
    } else {
      var f := Between(track, n, u);
      x := OnStride(m, g, strides[n - 1].from, strides[n - 1].until, track[n - 1].point, track[n].point, f);
    }
  }

  lemma Between(track: seq<Tracks.Waypoint>, n: nat, u: real) returns (f: real)
    requires 0 < n < |track| && track[n - 1].at < track[n].at && track[n - 1].at as real <= u <= track[n].at as real
    ensures 0.0 <= f <= 1.0 && Tracks.Leg(track, n, u) == Tracks.Along(track[n - 1].point, track[n].point, f)
  {
    Tracks.Quotient(u - track[n - 1].at as real, (track[n].at - track[n - 1].at) as real);
    f := (u - track[n - 1].at as real) / (track[n].at - track[n - 1].at) as real;
  }

  lemma ReachJoins(m: Metric, g: Network, x: Place, y: Place, z: Place, s: real, t: real)
    requires g.Valid(m.gap) && InTunnels(g, x) && InTunnels(g, y) && InTunnels(g, z)
    requires WithinReach(g, x, y, s) && WithinReach(g, y, z, t)
    ensures forall r :: r >= s + t ==> WithinReach(g, x, z, r)
  {
    hide Way, Network.Valid, InTunnels;
    var a :| Way(g, x, y, a) && a <= s;
    var b :| Way(g, y, z, b) && b <= t;
    var c := WaysJoin(g, m.gap, x, y, z, a, b);
  }

  /** As far as the next waypoint, one goes along one leg. */
  lemma StrideOn(m: Metric, g: Network, track: seq<Tracks.Waypoint>, start: Place, strides: seq<Stride>, u: real, v: real, x: Place, y: Place)
    requires Tracks.Straight(m) && g.Valid(m.gap) && OnePlace(g) && Tracks.Orderly(track) && Strides(g, track, start, strides)
    requires u <= v && (Tracks.MetBy(track, u) < |track| ==> v <= track[Tracks.MetBy(track, u)].at as real)
    requires Is(g, x, Tracks.PositionAt(track, u)) && Is(g, y, Tracks.PositionAt(track, v))
    ensures WithinReach(g, x, y, Jumps.Way(m, track, u, v))
  {
    hide Tracks.Straight, Network.Valid, OnePlace, Tracks.Orderly, Tracks.Along, Tracks.PositionAt, Tracks.MetBy, Tracks.Leg, Jumps.Way, WithinReach, Is, InTunnels;
    var n, way := Tracks.MetBy(track, u), Jumps.Way(m, track, u, v);
    HasWaypoint(g, track, start, strides);
    Jumps.WayIsPositive(m, track, u, v);
    OneLeg(m, track, u, v);
    IsIn(g, x, Tracks.PositionAt(track, u));
    IsIn(g, y, Tracks.PositionAt(track, v));
    if 0 < n < |track| {
      var a, b, s := track[n - 1].point, track[n].point, strides[n - 1];
      var f := Between(track, n, u);
      var h := Between(track, n, v);
      var x' := OnStride(m, g, s.from, s.until, a, b, f);
      var y' := OnStride(m, g, s.from, s.until, a, b, h);
      Direct(m, g, s, x', y', Tracks.PositionAt(track, u), Tracks.PositionAt(track, v), way);
      Same(g, x, x', Tracks.PositionAt(track, u));
      Same(g, y', y, Tracks.PositionAt(track, v));
      ReachJoins(m, g, x, x', y', 0.0, way);
      ReachJoins(m, g, x, y', y, way, 0.0);
    } else {
      SamePlace(track, n, u, v);
      Same(g, x, y, Tracks.PositionAt(track, u));
      AtOnce(g, y, 0.0);
      ReachJoins(m, g, x, y, y, 0.0, 0.0);
    }
  }

  lemma OneLeg(m: Metric, track: seq<Tracks.Waypoint>, u: real, v: real)
    requires Tracks.Straight(m) && Tracks.Orderly(track) && track != [] && u <= v
    requires Tracks.MetBy(track, u) < |track| ==> v <= track[Tracks.MetBy(track, u)].at as real
    ensures Tracks.PositionAt(track, u) == Tracks.Leg(track, Tracks.MetBy(track, u), u)
    ensures Tracks.PositionAt(track, v) == Tracks.Leg(track, Tracks.MetBy(track, u), v)
    ensures m.gap(Tracks.PositionAt(track, u), Tracks.PositionAt(track, v)) <= Jumps.Way(m, track, u, v)
    ensures var n := Tracks.MetBy(track, u); 0 < n < |track| ==> track[n - 1].at < track[n].at && track[n - 1].at as real <= u
  {
    hide Tracks.Straight, Jumps.Way, Tracks.Leg, Tracks.Clear, Tracks.Orderly;
    NothingBetween(track, u, v);
    Tracks.OnOneLeg(track, u, v, v);
    WaySpans(m, track, u, v);
    Rises(track);
  }

  lemma Rises(track: seq<Tracks.Waypoint>)
    requires Tracks.Orderly(track)
    ensures forall k :: 0 < k < |track| ==> track[k - 1].at <= track[k].at
  {
  }

  lemma WaySpans(m: Metric, track: seq<Tracks.Waypoint>, u: real, v: real)
    requires Tracks.Straight(m) && Tracks.Orderly(track) && track != [] && u <= v
    ensures m.gap(Tracks.PositionAt(track, u), Tracks.PositionAt(track, v)) <= Jumps.Way(m, track, u, v)
  {
    hide Tracks.Straight, Tracks.FastestAlong, Tracks.PositionAt, Tracks.Orderly;
    Tracks.NeverFaster(m, track, u, v);
  }

  lemma Same(g: Network, x: Place, y: Place, at: Point)
    requires OnePlace(g) && Is(g, x, at) && Is(g, y, at)
    ensures InTunnels(g, x) && InTunnels(g, y) && WithinReach(g, x, y, 0.0)
  {
  }

  lemma Direct(m: Metric, g: Network, s: Stride, x: Place, y: Place, a: Point, b: Point, way: real)
    requires Tracks.Straight(m) && g.Valid(m.gap) && Is(g, x, a) && Is(g, y, b) && SameLeg(s.from, x) && SameLeg(s.from, y)
    requires m.gap(a, b) <= way
    ensures WithinReach(g, x, y, way)
  {
    hide Tracks.Straight, Network.Valid, PointOf;
    DirectReach(m, g, x, y, way);
  }

  lemma SamePlace(track: seq<Tracks.Waypoint>, n: nat, u: real, v: real)
    requires track != [] && (n == 0 || n == |track|)
    ensures Tracks.Leg(track, n, u) == Tracks.Leg(track, n, v)
  {
  }

  lemma NothingBetween(track: seq<Tracks.Waypoint>, u: real, v: real)
    requires Tracks.Orderly(track) && (Tracks.MetBy(track, u) < |track| ==> v <= track[Tracks.MetBy(track, u)].at as real)
    ensures Tracks.Clear(track, u, v)
  {
    var n := Tracks.MetBy(track, u);
    forall w | 0 <= w < |track| ensures !(u < track[w].at as real < v) {
      assert w >= n && n < |track| ==> track[w].at >= track[n].at;
    }
  }

  lemma DirectReach(m: Metric, g: Network, x: Place, y: Place, way: real)
    requires Stands(m, g, x) && InTunnels(g, y) && SameLeg(x, y)
    requires x.a < |g.points| && x.b < |g.points| && x.length > 0.0 && y.a < |g.points| && y.b < |g.points| && y.length > 0.0
    requires m.gap(PointOf(g, x), PointOf(g, y)) <= way
    ensures WithinReach(g, x, y, way)
  {
    hide Tracks.Straight, Network.Valid, PointOf;
    DirectSpans(m, g, x, y);
    assert Way(g, x, y, AbsReal(x.offset - y.Offset(x.a)));
  }

  /** However long they walk, they have gone along the tunnels no farther than at their fastest. */
  lemma {:induction false} WalkOn(m: Metric, g: Network, track: seq<Tracks.Waypoint>, start: Place, strides: seq<Stride>, u: real, v: real, x: Place, y: Place)
    requires Tracks.Straight(m) && g.Valid(m.gap) && OnePlace(g) && Tracks.Orderly(track) && Strides(g, track, start, strides)
    requires u <= v && Is(g, x, Tracks.PositionAt(track, u)) && Is(g, y, Tracks.PositionAt(track, v))
    ensures WithinReach(g, x, y, Jumps.Way(m, track, u, v))
    decreases Tracks.Passed(track, u, v)
  {
    hide Tracks.Straight, Network.Valid, OnePlace, Jumps.Way, Is, Tracks.PositionAt, WithinReach, PointOf, Strides, Tracks.Orderly, InTunnels;
    IsIn(g, x, Tracks.PositionAt(track, u));
    IsIn(g, y, Tracks.PositionAt(track, v));
    var i := Tracks.MetBy(track, u);
    if i < |track| && (track[i].at as real) < v {
      var c := track[i].at as real;
      Tracks.PassedFewer(track, u, c, v);
      var z := WhereOn(m, g, track, start, strides, c);
      IsIn(g, z, Tracks.PositionAt(track, c));
      WalkOn(m, g, track, start, strides, c, v, z, y);
      StrideOn(m, g, track, start, strides, u, c, x, z);
      WayOn(m, track, u, c, v);
      ReachJoins(m, g, x, z, y, Jumps.Way(m, track, u, c), Jumps.Way(m, track, c, v));
    } else {
      HasWaypoint(g, track, start, strides);
      StrideOn(m, g, track, start, strides, u, v, x, y);
    }
  }

  lemma WayOn(m: Metric, track: seq<Tracks.Waypoint>, u: real, c: real, v: real)
    ensures Jumps.Way(m, track, u, c) + Jumps.Way(m, track, c, v) == Jumps.Way(m, track, u, v)
  {
    hide Tracks.FastestAlong;
    var fastest := Tracks.FastestAlong(m, track);
    assert fastest * (c - u) + fastest * (v - c) == fastest * (v - u);
  }

  lemma IsIn(g: Network, x: Place, at: Point)
    requires Is(g, x, at)
    ensures InTunnels(g, x)
  {
  }

  lemma HasWaypoint(g: Network, track: seq<Tracks.Waypoint>, start: Place, strides: seq<Stride>)
    requires Strides(g, track, start, strides)
    ensures track != []
  {
  }

  // ---------- What the mine reads of them ----------

  lemma Wider(g: Network, x: Place, y: Place, within: real, wider: real)
    requires WithinReach(g, x, y, within) && within <= wider
    ensures WithinReach(g, x, y, wider)
  {
    hide Way;
  }

  /** How far someone walks between two moments. */
  function Walked(walking: real, u: real, v: real): real { walking * (v - u) }

  lemma WayIsWalked(m: Metric, track: seq<Tracks.Waypoint>, walking: real, u: real, v: real)
    requires Tracks.FastestAlong(m, track) <= walking && u <= v
    ensures Jumps.Way(m, track, u, v) <= Walked(walking, u, v)
  {
    hide Tracks.FastestAlong;
    Tracks.NotNegative(walking - Tracks.FastestAlong(m, track), v - u);
    assert (walking - Tracks.FastestAlong(m, track)) * (v - u) == walking * (v - u) - Tracks.FastestAlong(m, track) * (v - u);
  }

  /** From where someone is taken to be, they are soon nowhere they could not have walked. */
  lemma WalkedTo(m: Metric, g: Network, close: (Point, nat, nat) -> Closest, track: seq<Tracks.Waypoint>, walking: real, u: real, v: real, p: Place)
    returns (x: Place)
    requires TrulyDrawn(m, g, close) && Walks(m, g, track, walking) && track != [] && u <= v
    requires TakenFor(g, NearTo(close, Tracks.PositionAt(track, u)), Some(p))
    ensures Is(g, p, Tracks.PositionAt(track, u)) && Is(g, x, Tracks.PositionAt(track, v)) && WithinReach(g, p, x, Walked(walking, u, v))
  {
    hide Tracks.Straight, Network.Valid, OnePlace, Projects, Is, TakenFor, Tracks.PositionAt, Tracks.FastestAlong, Tracks.Orderly, Strides, WithinReach, Jumps.Way, Walked;
    var start, strides :| Strides(g, track, start, strides);
    var here := WhereOn(m, g, track, start, strides, u);
    x := WhereOn(m, g, track, start, strides, v);
    TakenForHere(m, g, close, here, Tracks.PositionAt(track, u), p);
    WalkOn(m, g, track, start, strides, u, v, p, x);
    WayIsWalked(m, track, walking, u, v);
    Wider(g, p, x, Jumps.Way(m, track, u, v), Walked(walking, u, v));
  }

  /** Whoever walks the tunnels is taken, moment by moment, to go along them no faster. */
  lemma WalkersGoAlong(m: Metric, g: Network, close: (Point, nat, nat) -> Closest, track: seq<Tracks.Waypoint>, walking: real)
    requires TrulyDrawn(m, g, close) && Walks(m, g, track, walking) && walking >= 0.0
    ensures AlongTunnels(g, close, track, walking)
  {
    hide TrulyDrawn, Walks, TakenFor, Tracks.PositionAt, WithinReach;
    forall t1: Time, t2: Time, p, p' | t1 <= t2 && Stood(g, close, track, t1, p) && Stood(g, close, track, t2, p')
      ensures WithinReach(g, p, p', Tracks.Moved(walking, t1, t2))
    {
      if track == [] {
        Standing(g, close, track, t1, t2, p, p');
        Positioned.NotBack(walking, t1, t2);
        AtOnce(g, p, Tracks.Moved(walking, t1, t2));
      } else {
        Stepped(m, g, close, track, walking, t1, t2, p, p');
      }
    }
  }

  lemma Standing(g: Network, close: (Point, nat, nat) -> Closest, track: seq<Tracks.Waypoint>, t1: Time, t2: Time, p: Place, p': Place)
    requires track == [] && Stood(g, close, track, t1, p) && Stood(g, close, track, t2, p')
    ensures p == p'
  {
    hide TakenFor;
    assert Tracks.PositionAt(track, t1 as real) == Tracks.PositionAt(track, t2 as real);
    TakenForOne(g, NearTo(close, Tracks.PositionAt(track, t1 as real)), Some(p), Some(p'));
  }

  lemma WalkedMoved(walking: real, t1: Time, t2: Time)
    ensures Walked(walking, t1 as real, t2 as real) == Tracks.Moved(walking, t1, t2)
  {
    assert (t2 - t1) as real == t2 as real - t1 as real;
  }

  lemma Stepped(m: Metric, g: Network, close: (Point, nat, nat) -> Closest, track: seq<Tracks.Waypoint>, walking: real, t1: Time, t2: Time, p: Place, p': Place)
    requires TrulyDrawn(m, g, close) && Walks(m, g, track, walking) && track != [] && t1 <= t2
    requires Stood(g, close, track, t1, p) && Stood(g, close, track, t2, p')
    ensures WithinReach(g, p, p', Tracks.Moved(walking, t1, t2))
  {
    hide Tracks.Straight, Network.Valid, Projects, OnePlace, Is, TakenFor, Walks, Tracks.PositionAt, WithinReach, Walked, Tracks.Moved;
    var x := WalkedTo(m, g, close, track, walking, t1 as real, t2 as real, p);
    TakenForHere(m, g, close, x, Tracks.PositionAt(track, t2 as real), p');
    Same(g, x, p', Tracks.PositionAt(track, t2 as real));
    IsIn(g, p, Tracks.PositionAt(track, t1 as real));
    WalkedMoved(walking, t1, t2);
    ReachJoins(m, g, p, x, p', Walked(walking, t1 as real, t2 as real), 0.0);
  }

  /** Everyone the mine may be asked about: vehicles go as their tracks say, and people walk. */
  ghost predicate AtWork(m: Metric, g: Network, entities: seq<Tracks.Entity>, walking: real)
  {
    forall i :: 0 <= i < |entities| ==>
      Tracks.Orderly(entities[i].track) && (entities[i].kind == "person" ==> Walks(m, g, entities[i].track, walking))
  }

  lemma WorkersGoAbout(m: Metric, g: Network, close: (Point, nat, nat) -> Closest, entities: seq<Tracks.Entity>, walking: real)
    requires TrulyDrawn(m, g, close) && walking >= 0.0 && AtWork(m, g, entities, walking)
    ensures GoAbout(g, close, entities, walking)
  {
    hide TrulyDrawn, Walks, AlongTunnels, Tracks.Orderly;
    forall i | 0 <= i < |entities| && entities[i].kind == "person" ensures AlongTunnels(g, close, entities[i].track, walking) {
      WalkersGoAlong(m, g, close, entities[i].track, walking);
    }
  }

  // ---------- No one is lost ----------

  /** A vehicle's route goes through wherever it is over the lookahead. */
  lemma RouteHolds(m: Metric, track: seq<Tracks.Waypoint>, at: Time, lookahead: Time, u: Time)
    requires Tracks.Straight(m) && Tracks.Orderly(track) && track != [] && at <= u <= at + lookahead
    ensures PathDistance(m, Tracks.Route(track, at, lookahead), Tracks.PositionAt(track, u as real)) == Some(0.0)
  {
    hide Tracks.Straight, Tracks.Orderly, Tracks.Route, Tracks.PositionAt;
    var q := Tracks.PositionAt(track, u as real);
    Tracks.RouteIsNearest(m, track, at, lookahead, q);
    assert at as real <= u as real <= (at + Max(0, lookahead)) as real;
    var d := PathDistance(m, Tracks.Route(track, at, lookahead), q).value;
    var v :| at as real <= v <= (at + Max(0, lookahead)) as real && d == m.gap(Tracks.PositionAt(track, v), q);
    Symmetric(m, q, q);
    Symmetric(m, Tracks.PositionAt(track, v), q);
  }

  /** A walker's ground has wherever they are over the lookahead. */
  lemma GroundHolds(m: Metric, g: Network, close: (Point, nat, nat) -> Closest, track: seq<Tracks.Waypoint>, walking: real, at: Time, lookahead: Time,
                    u: Time, unit: Unit, within: real, ground: seq<Stretch>) returns (s: Stretch)
    requires TrulyDrawn(m, g, close) && Walks(m, g, track, walking) && walking >= 0.0 && track != [] && at <= u <= at + lookahead && !NoLegs(g)
    requires OnFoot(unit) && unit.at == Tracks.PositionAt(track, at as real)
    requires within == walking * lookahead as real && RightGround(g, close, unit, within, ground)
    ensures s in ground && InRange(g, s) && PathDistance(m, Surveyed.Drawn(m, g, s), Tracks.PositionAt(track, u as real)) == Some(0.0)
  {
    hide Tracks.Straight, Network.Valid, OnePlace, Projects, TakenFor, Walks, Tracks.PositionAt, WithinReach, PathDistance, Surveyed.Drawn, On, IsStretch, NoLegs, PointOf, Walked;
    var q := Tracks.PositionAt(track, u as real);
    var p :| TakenFor(g, NearTo(close, unit.at), Some(p)) && IsGround(g, p, within, ground);
    var x := WalkedTo(m, g, close, track, walking, at as real, u as real, p);
    WalkedWithin(walking, at, u, lookahead);
    Wider(g, p, x, Walked(walking, at as real, u as real), within);
    assert Covered(ground, x);
    var k :| 0 <= k < |ground| && On(ground[k], x);
    s := ground[k];
    DrawnIsNearest(m, g, s, q, x);
    Symmetric(m, q, q);
    DrawnIsSome(m, g, s, q);
  }

  lemma WalkedWithin(walking: real, at: Time, u: Time, lookahead: Time)
    requires walking >= 0.0 && at <= u <= at + lookahead
    ensures Walked(walking, at as real, u as real) <= walking * lookahead as real
  {
    Tracks.NotNegative(walking, (at + lookahead - u) as real);
    assert (at + lookahead - u) as real == lookahead as real - (u as real - at as real);
    assert walking * (lookahead as real - (u as real - at as real)) == walking * lookahead as real - walking * (u as real - at as real);
  }

  lemma DrawnIsSome(m: Metric, g: Network, s: Stretch, q: Point)
    requires Tracks.Straight(m) && InRange(g, s)
    ensures PathDistance(m, Surveyed.Drawn(m, g, s), q).Some? && PathDistance(m, Surveyed.Drawn(m, g, s), q).value >= 0.0
  {
    hide Tracks.Straight, PointOf, Toward;
    Pace.PathVia(m, Surveyed.Drawn(m, g, s), q, q);
  }

  lemma {:induction false} PositionsHave(entities: seq<Tracks.Entity>, at: Time, protect: seq<Kind>, unit: Position) returns (i: nat)
    requires unit in Tracks.PositionsOf(entities, at, protect)
    ensures i < |entities| && entities[i].kind in protect && entities[i].track != []
    ensures unit == Position(entities[i].id, Tracks.PositionAt(entities[i].track, at as real))
    decreases |entities|
  {
    hide Tracks.PositionAt;
    i := |entities| - 1;
    if unit in Tracks.PositionsOf(entities[..i], at, protect) {
      i := PositionsHave(entities[..i], at, protect, unit);
    }
  }

  lemma {:induction false} ReachHas(entities: seq<Tracks.Entity>, at: Time, lookahead: Time, protect: seq<Kind>, i: nat) returns (k: nat)
    requires i < |entities| && entities[i].kind in protect && entities[i].track != []
    ensures k < |Tracks.ReachOf(entities, at, lookahead, protect)|
    ensures Tracks.ReachOf(entities, at, lookahead, protect)[k] == Path(entities[i].id, Tracks.Route(entities[i].track, at, lookahead))
    decreases |entities|
  {
    hide Tracks.Route;
    var n := |entities| - 1;
    if i < n {
      k := ReachHas(entities[..n], at, lookahead, protect, i);
    } else {
      k := |Tracks.ReachOf(entities[..n], at, lookahead, protect)|;
    }
  }

  /** The truth covers everywhere its units go. */
  lemma TracksCover(m: Metric, entities: seq<Tracks.Entity>)
    requires Tracks.Straight(m) && forall k :: 0 <= k < |entities| ==> Tracks.Orderly(entities[k].track)
    ensures Covering(m, Tracks.Known(m, entities))
  {
    hide Tracks.Straight, Tracks.Orderly, Tracks.PositionsOf, Tracks.ReachOf, PathDistance, Tracks.Route, Tracks.PositionAt;
    var w := Tracks.Known(m, entities);
    forall t: Time, u: Time, lookahead: Time, protect: seq<Kind> | t <= u <= t + lookahead
      ensures forall unit :: unit in w.positions(u, protect) ==> Holds(m, w.reach(t, lookahead, protect), unit)
    {
      forall unit | unit in w.positions(u, protect) ensures Holds(m, w.reach(t, lookahead, protect), unit) {
        var i := PositionsHave(entities, u, protect, unit);
        var k := ReachHas(entities, t, lookahead, protect, i);
        RouteHolds(m, entities[i].track, t, lookahead, u);
        assert w.reach(t, lookahead, protect)[k].entity == unit.entity;
      }
    }
  }

  /** And so does the mine's own reading, of people who walk the tunnels. */
  lemma PositionedCovers(m: Metric, g: Network, close: (Point, nat, nat) -> Closest, entities: seq<Tracks.Entity>, walking: real, w: Whereabouts)
    requires TrulyDrawn(m, g, close) && walking >= 0.0 && !NoLegs(g) && AtWork(m, g, entities, walking)
    requires Reads(m, g, close, entities, walking, w) && forall at, protect :: w.positions(at, protect) == Tracks.PositionsOf(entities, at, protect)
    ensures Covering(m, w)
  {
    hide TrulyDrawn, AtWork, NoLegs, Reads, ReadAt, Tracks.PositionsOf, Holds;
    forall t: Time, u: Time, lookahead: Time, protect: seq<Kind> | t <= u <= t + lookahead
      ensures forall unit :: unit in w.positions(u, protect) ==> Holds(m, w.reach(t, lookahead, protect), unit)
    {
      forall unit | unit in w.positions(u, protect) ensures Holds(m, w.reach(t, lookahead, protect), unit) {
        ReadHere(m, g, close, entities, walking, w, t, lookahead, protect);
        UnitCovered(m, g, close, entities, walking, w, t, u, lookahead, protect, unit);
      }
    }
  }

  lemma ReadHere(m: Metric, g: Network, close: (Point, nat, nat) -> Closest, entities: seq<Tracks.Entity>, walking: real, w: Whereabouts,
                 at: Time, lookahead: Time, protect: seq<Kind>)
    requires Reads(m, g, close, entities, walking, w)
    ensures ReadAt(m, g, close, entities, walking, w, at, lookahead, protect)
  {
    hide ReadAt;
  }

  lemma UnitCovered(m: Metric, g: Network, close: (Point, nat, nat) -> Closest, entities: seq<Tracks.Entity>, walking: real, w: Whereabouts,
                    t: Time, u: Time, lookahead: Time, protect: seq<Kind>, unit: Position)
    requires TrulyDrawn(m, g, close) && walking >= 0.0 && !NoLegs(g) && AtWork(m, g, entities, walking) && t <= u <= t + lookahead
    requires ReadAt(m, g, close, entities, walking, w, t, lookahead, protect) && unit in Tracks.PositionsOf(entities, u, protect)
    ensures Holds(m, w.reach(t, lookahead, protect), unit)
  {
    hide Tracks.Straight, Network.Valid, OnePlace, Projects, Walks, Tracks.Orderly, NoLegs, Tracks.PositionsOf, PathDistance, Tracks.Route, Tracks.PositionAt, GivenTo, RightGround, Surveyed.Drawn, InRange;
    var i := PositionsHave(entities, u, protect, unit);
    var within := walking * Max(0, lookahead) as real;
    var out :| RightlyGiven(g, close, UnitsAt(entities, protect, t), within, out)
               && w.reach(t, lookahead, protect) == PathsFor(m, g, entities, t, Max(0, lookahead), out);
    var e, here := entities[i], UnitsAt(entities, protect, t)[i];
    var given := Route(i);
    if e.kind == "person" {
      assert RightGround(g, close, here, within, GivenTo(out, i));
      var s := GroundHolds(m, g, close, e.track, walking, t, Max(0, lookahead), u, here, within, GivenTo(out, i));
      GivenHas(out, i, s);
      given := Stretches(i, s);
    } else {
      RouteHolds(m, e.track, t, lookahead, u);
    }
    var k :| 0 <= k < |out| && out[k] == given;
    assert w.reach(t, lookahead, protect)[k] == PathFor(m, g, entities, t, lookahead, given);
  }
}
