/** Two inputs on which the mine's own reading of someone on foot does not keep the pace the
    planner's skipping rests on: internal/observe/positioned.go:35-67. Someone off the tunnels, who
    moves no faster than they may, comes nearer to another tunnel than the one they were taken to
    be in; and the ground they could reach from there is other ground. */
module Straying {
  import opened Basics
  import opened Observe
  import opened Tunnels
  import opened Routes
  import opened Reach
  import opened Surveyed
  import opened Positioned
  import Tracks

  // ---------- Two drifts apart ----------

  /** Two drifts in one line: one ten metres long, and one some way after it. */
  function Drifts(c: real, d: real): Network
  {
    Network([Point(0.0, 0.0, 0.0), Point(10.0, 0.0, 0.0), Point(c, 0.0, 0.0), Point(d, 0.0, 0.0)],
            [[Edge(1, 10.0)], [Edge(0, 10.0)], [Edge(3, d - c)], [Edge(2, d - c)]])
  }

  /** The place of a leg nearest to a point. */
  function OnDrift(c: real, d: real): (Point, nat, nat) -> Closest
  {
    (p: Point, u: nat, v: nat) =>
      if u < 4 && v < 4 then
        var a, b := Drifts(c, d).points[u].x, Drifts(c, d).points[v].x;
        Closest(Tracks.Beyond(a, b, p.x), if a <= b then MaxReal(0.0, MinReal(p.x - a, b - a)) else MaxReal(0.0, MinReal(a - p.x, a - b)))
      else Closest(0.0, 0.0)
  }

  /** Someone between the drifts, at one second and at the next. */
  function Stepping(x1: real, x2: real): Tracks.Entity
  {
    Tracks.Entity("p", "person", [Tracks.Waypoint(0, Point(x1, 0.0, 0.0)), Tracks.Waypoint(SECOND, Point(x2, 0.0, 0.0))])
  }

  /** One metre in a second. */
  const WALKING: real := 1.0 / SECOND as real

  /** Nearer to the first drift, and then, less than a metre on, nearer to the second. */
  predicate Crosses(c: real, d: real, x1: real, x2: real)
  {
    10.0 < c < d && 10.0 <= x1 < (10.0 + c) / 2.0 < x2 <= c && x2 - x1 <= 1.0
  }

  lemma DriftsAreValid(c: real, d: real)
    requires 10.0 < c < d
    ensures Drifts(c, d).Valid(Tracks.LINE.gap)
  {
    var g := Drifts(c, d);
    assert |g.edges| == 4 && forall u :: 0 <= u < 4 ==> |g.edges[u]| == 1;
    forall u, k | 0 <= u < |g.edges| && 0 <= k < |g.edges[u]| ensures g.LegOk(Tracks.LINE.gap, u, g.edges[u][k]) {
      assert k == 0;
    }
  }

  lemma DriftsHold(c: real, d: real)
    requires 10.0 < c < d
    ensures OnLegs(Drifts(c, d), OnDrift(c, d))
  {
    hide OnDrift, Drifts;
    var g, close := Drifts(c, d), OnDrift(c, d);
    forall p, u, k | 0 <= u < |g.edges| && 0 <= k < |g.edges[u]|
      ensures 0.0 <= close(p, u, g.edges[u][k].to).offset <= g.edges[u][k].length
    {
      DriftHolds(c, d, p, u, k);
    }
  }

  /** The nearest place of a leg is on it, and as near as the leg is. */
  lemma DriftHolds(c: real, d: real, p: Point, u: nat, k: nat)
    requires 10.0 < c < d && u < |Drifts(c, d).edges| && k < |Drifts(c, d).edges[u]|
    ensures var g := Drifts(c, d);
            var here := OnDrift(c, d)(p, u, g.edges[u][k].to);
            && u < 4 && g.edges[u][k].to < 4 && |g.points| == 4
            && 0.0 <= here.offset <= g.edges[u][k].length
            && here.distance == Tracks.LINE.segment(g.points[u], g.points[g.edges[u][k].to], p)
  {
    hide Tracks.Beyond;
    var g := Drifts(c, d);
    assert |g.edges| == 4 && forall w :: 0 <= w < 4 ==> |g.edges[w]| == 1;
    assert k == 0;
  }

  /** Each drift is looked at from its nearer end. */
  lemma DriftsMet(c: real, d: real, u: nat, k: nat)
    ensures Reach.Met(Drifts(c, d), u, k) <==> k == 0 && (u == 0 || u == 2)
    ensures Reach.Met(Drifts(c, d), u, k) ==> Drifts(c, d).edges[u][k].to == u + 1
    ensures |Drifts(c, d).edges| == 4
  {
    var g := Drifts(c, d);
    assert |g.edges| == 4 && forall u :: 0 <= u < 4 ==> |g.edges[u]| == 1;
  }

  lemma TakenForFirst(c: real, d: real, p: Point)
    requires 10.0 < c < d && 10.0 <= p.x < (10.0 + c) / 2.0
    ensures TakenFor(Drifts(c, d), NearTo(OnDrift(c, d), p), Some(Place(0, 1, 10.0, 10.0)))
  {
    var g, near, place := Drifts(c, d), NearTo(OnDrift(c, d), p), Place(0, 1, 10.0, 10.0);
    assert near(0, 1) == Closest(p.x - 10.0, 10.0) && near(2, 3).distance == c - p.x;
    DriftsMet(c, d, 0, 0);
    hide OnDrift, NearTo;
    assert NearestSoFar(g, near, 4, 0, place, 0, 0) by {
      forall u: nat, k: nat | Reach.Met(g, u, k)
        ensures near(0, 1).distance <= near(u, g.edges[u][k].to).distance && !MetBefore(u, k, 0, 0)
      {
        DriftsMet(c, d, u, k);
      }
    }
    assert Edge(1, 10.0) in g.edges[0];
  }

  lemma TakenForSecond(c: real, d: real, p: Point)
    requires 10.0 < c < d && (10.0 + c) / 2.0 < p.x <= c
    ensures TakenFor(Drifts(c, d), NearTo(OnDrift(c, d), p), Some(Place(2, 3, d - c, 0.0)))
  {
    var g, near, place := Drifts(c, d), NearTo(OnDrift(c, d), p), Place(2, 3, d - c, 0.0);
    assert near(0, 1).distance == p.x - 10.0 && near(2, 3) == Closest(c - p.x, 0.0);
    DriftsMet(c, d, 2, 0);
    hide OnDrift, NearTo;
    assert NearestSoFar(g, near, 4, 0, place, 2, 0) by {
      forall u: nat, k: nat | Reach.Met(g, u, k)
        ensures near(2, 3).distance <= near(u, g.edges[u][k].to).distance
        ensures MetBefore(u, k, 2, 0) ==> near(2, 3).distance < near(u, g.edges[u][k].to).distance
      {
        DriftsMet(c, d, u, k);
      }
    }
    assert Edge(3, d - c) in g.edges[2];
  }

  lemma SteppingAt(x1: real, x2: real)
    ensures Tracks.PositionAt(Stepping(x1, x2).track, 0.0).x == x1 && Tracks.PositionAt(Stepping(x1, x2).track, SECOND as real).x == x2
    ensures Tracks.Orderly(Stepping(x1, x2).track)
  {
    var track := Stepping(x1, x2).track;
    assert track[1..][1..] == [];
    assert Tracks.MetBy(track[1..], 0.0) == 0 && Tracks.MetBy(track, 0.0) == 1;
    assert Tracks.MetBy(track[1..], SECOND as real) == 1 && Tracks.MetBy(track, SECOND as real) == 2;
  }

  /** No one's reach need move faster than someone walking. */
  lemma SteppingSlow(x1: real, x2: real)
    requires x1 <= x2 <= x1 + 1.0
    ensures Speed(Tracks.LINE, [Stepping(x1, x2)], WALKING) == WALKING && Tracks.Moved(WALKING, 0, SECOND) == 1.0
  {
    var e := Stepping(x1, x2);
    assert Tracks.FastestAlong(Tracks.LINE, e.track[..1]) == 0.0;
    assert [e][..0] == [];
    assert Tracks.FastestOf(Tracks.LINE, []) == 0.0;
    assert Tracks.FastestAlong(Tracks.LINE, e.track) == (x2 - x1) / SECOND as real;
  }

  // ---------- No way across ----------

  lemma {:induction false} NoWalkAcross(c: real, d: real, from: nat, to: nat, hops: seq<Hop>)
    requires Walks(Drifts(c, d), from, to, hops) && from < 2
    ensures to < 2
    decreases |hops|
  {
    if hops != [] {
      var last := hops[|hops| - 1];
      NoWalkAcross(c, d, from, last.at, hops[..|hops| - 1]);
      NoLegAcross(c, d, last.at, last.to, last.length);
    }
  }

  lemma NoLegAcross(c: real, d: real, u: nat, v: nat, length: real)
    requires u < |Drifts(c, d).edges| && Edge(v, length) in Drifts(c, d).edges[u]
    ensures u < 4 && v < 4 && (u < 2 <==> v < 2)
  {
  }

  /** Everywhere to be reached from the first drift is in it. */
  lemma OnlyFirst(c: real, d: real, p: Place, x: Place, within: real)
    requires 10.0 < c < d && InTunnels(Drifts(c, d), p) && p.a < 2 && InTunnels(Drifts(c, d), x) && WithinReach(Drifts(c, d), p, x, within)
    ensures x.a < 2 && x.b < 2
  {
    var g := Drifts(c, d);
    NoLegAcross(c, d, p.a, p.b, p.length);
    NoLegAcross(c, d, x.a, x.b, x.length);
    var length :| Way(g, p, x, length) && length <= within;
    if !SameLeg(p, x) {
      var out: nat, into: nat, hops: seq<Hop> :| WayBy(g, p, x, length, out, into, hops);
      NoWalkAcross(c, d, out, into, hops);
    }
  }

  lemma FirstIsBefore(c: real, d: real, x: Place)
    requires 10.0 < c < d && InTunnels(Drifts(c, d), x) && x.a < 2 && x.b < 2
    ensures x.length > 0.0 && PointOf(Drifts(c, d), x).x <= 10.0
  {
    var g := Drifts(c, d);
    assert x.length == 10.0;
    Tracks.Quotient(x.offset, 10.0);
  }

  // ---------- The ground changes ----------

  /** Someone who steps across, before and after. */
  lemma SteppingAlone(c: real, d: real, x1: real, x2: real, within: real, out1: seq<Given>, out2: seq<Given>)
    requires Crosses(c, d, x1, x2) && within >= 0.0
    requires RightlyGiven(Drifts(c, d), OnDrift(c, d), UnitsAt([Stepping(x1, x2)], ["person"], 0), within, out1)
    requires RightlyGiven(Drifts(c, d), OnDrift(c, d), UnitsAt([Stepping(x1, x2)], ["person"], SECOND), within, out2)
    ensures Alone(Tracks.LINE, Drifts(c, d), OnDrift(c, d), Stepping(x1, x2), ["person"], 0, Place(0, 1, 10.0, 10.0), within, out1)
    ensures Alone(Tracks.LINE, Drifts(c, d), OnDrift(c, d), Stepping(x1, x2), ["person"], SECOND, Place(2, 3, d - c, 0.0), within, out2)
    ensures InTunnels(Drifts(c, d), Place(0, 1, 10.0, 10.0)) && InTunnels(Drifts(c, d), Place(2, 3, d - c, 0.0))
  {
    hide RightlyGiven, Tracks.Straight, Tracks.Orderly, Network.Valid, TakenFor, Drifts, OnDrift, NearTo, Tracks.PositionAt;
    var e := Stepping(x1, x2);
    Tracks.LineIsStraight();
    DriftsAreValid(c, d);
    SteppingAt(x1, x2);
    TakenForFirst(c, d, Tracks.PositionAt(e.track, 0.0));
    TakenForSecond(c, d, Tracks.PositionAt(e.track, SECOND as real));
    NearestIsMet(Drifts(c, d), NearTo(OnDrift(c, d), Tracks.PositionAt(e.track, 0.0)), Place(0, 1, 10.0, 10.0));
    NearestIsMet(Drifts(c, d), NearTo(OnDrift(c, d), Tracks.PositionAt(e.track, SECOND as real)), Place(2, 3, d - c, 0.0));
    var protect := ["person"];
    assert protect[0] == "person";
  }

  /** Once someone has stepped across, the far end of what they can reach is as far from all they
      could as it is from the end of the first drift. */
  lemma GroundChanges(c: real, d: real, x1: real, x2: real, lookahead: Time, within: real, out1: seq<Given>, out2: seq<Given>) returns (q: Point)
    requires Crosses(c, d, x1, x2) && within >= 0.0
    requires RightlyGiven(Drifts(c, d), OnDrift(c, d), UnitsAt([Stepping(x1, x2)], ["person"], 0), within, out1)
    requires RightlyGiven(Drifts(c, d), OnDrift(c, d), UnitsAt([Stepping(x1, x2)], ["person"], SECOND), within, out2)
    ensures var before := GroundNear(Tracks.LINE, Drifts(c, d), Stepping(x1, x2), 0, lookahead, out1, q);
            var after := GroundNear(Tracks.LINE, Drifts(c, d), Stepping(x1, x2), SECOND, lookahead, out2, q);
            before.Some? && after.Some? && before.value >= c + MinReal(within, d - c) - 10.0 && after.value <= 0.0
  {
    hide RightlyGiven, GroundNear, Alone, Network.Valid, PointOf, Drifts, OnDrift, Stepping, WithinReach, InTunnels;
    var g, close, e := Drifts(c, d), OnDrift(c, d), Stepping(x1, x2);
    SteppingAlone(c, d, x1, x2, within, out1, out2);
    var p, p' := Place(0, 1, 10.0, 10.0), Place(2, 3, d - c, 0.0);
    var far := Place(2, 3, d - c, MinReal(within, d - c));
    FarIsReached(c, d, within);
    q := PointOf(g, far);
    var x := GroundIsNearest(Tracks.LINE, g, close, e, ["person"], 0, lookahead, p, within, out1, q);
    OnlyFirst(c, d, p, x, within);
    FirstIsBefore(c, d, x);
    FarFrom(PointOf(g, x), q);
    GroundIsAsNear(Tracks.LINE, g, close, e, ["person"], SECOND, lookahead, p', within, out2, far, q);
    FarFrom(q, q);
  }

  lemma FarFrom(x: Point, q: Point)
    ensures Tracks.LINE.gap(x, q) >= q.x - x.x && Tracks.LINE.gap(q, q) == 0.0
  {
  }

  lemma FarIsReached(c: real, d: real, within: real)
    requires 10.0 < c < d && within >= 0.0
    ensures var far := Place(2, 3, d - c, MinReal(within, d - c));
            && InTunnels(Drifts(c, d), far) && WithinReach(Drifts(c, d), Place(2, 3, d - c, 0.0), far, within)
            && |Drifts(c, d).points| == 4 && PointOf(Drifts(c, d), far).x == c + MinReal(within, d - c)
  {
    var g, p, far := Drifts(c, d), Place(2, 3, d - c, 0.0), Place(2, 3, d - c, MinReal(within, d - c));
    assert Edge(3, d - c) in g.edges[2];
    assert Way(g, p, far, MinReal(within, d - c));
    Tracks.Quotient(far.offset, d - c);
  }

  /** So where the ground reaches farther than the step, it does not keep pace. */
  lemma SteppingIsUnbounded(c: real, d: real, x1: real, x2: real, lookahead: Time, within: real, out1: seq<Given>, out2: seq<Given>) returns (q: Point)
    requires Crosses(c, d, x1, x2) && within >= 0.0 && c + MinReal(within, d - c) > 11.0
    requires RightlyGiven(Drifts(c, d), OnDrift(c, d), UnitsAt([Stepping(x1, x2)], ["person"], 0), within, out1)
    requires RightlyGiven(Drifts(c, d), OnDrift(c, d), UnitsAt([Stepping(x1, x2)], ["person"], SECOND), within, out2)
    ensures Tracks.Straight(Tracks.LINE) && Drifts(c, d).Valid(Tracks.LINE.gap) && OnLegs(Drifts(c, d), OnDrift(c, d))
    ensures !Near(GroundNear(Tracks.LINE, Drifts(c, d), Stepping(x1, x2), 0, lookahead, out1, q),
                  GroundNear(Tracks.LINE, Drifts(c, d), Stepping(x1, x2), SECOND, lookahead, out2, q),
                  Tracks.Moved(Speed(Tracks.LINE, [Stepping(x1, x2)], WALKING), 0, SECOND))
  {
    hide RightlyGiven, GroundNear, Tracks.Straight, Network.Valid, OnLegs, OnDrift, Drifts, Stepping, Tracks.Moved, Speed;
    Tracks.LineIsStraight();
    DriftsAreValid(c, d);
    DriftsHold(c, d);
    SteppingSlow(x1, x2);
    q := GroundChanges(c, d, x1, x2, lookahead, within, out1, out2);
  }

  /** With no lookahead: drifts ten metres apart, and someone who steps past halfway between. */
  lemma SteppingAcrossIsUnbounded(out1: seq<Given>, out2: seq<Given>) returns (q: Point)
    requires RightlyGiven(Drifts(20.0, 30.0), OnDrift(20.0, 30.0), UnitsAt([Stepping(14.5, 15.5)], ["person"], 0), 0.0, out1)
    requires RightlyGiven(Drifts(20.0, 30.0), OnDrift(20.0, 30.0), UnitsAt([Stepping(14.5, 15.5)], ["person"], SECOND), 0.0, out2)
    ensures Tracks.Straight(Tracks.LINE) && Drifts(20.0, 30.0).Valid(Tracks.LINE.gap) && OnLegs(Drifts(20.0, 30.0), OnDrift(20.0, 30.0))
    ensures !Near(GroundNear(Tracks.LINE, Drifts(20.0, 30.0), Stepping(14.5, 15.5), 0, 0, out1, q),
                  GroundNear(Tracks.LINE, Drifts(20.0, 30.0), Stepping(14.5, 15.5), SECOND, 0, out2, q),
                  Tracks.Moved(Speed(Tracks.LINE, [Stepping(14.5, 15.5)], WALKING), 0, SECOND))
  {
    hide RightlyGiven, GroundNear, Tracks.Straight, Network.Valid, OnLegs, OnDrift, Drifts, Stepping, Tracks.Moved, Speed;
    q := SteppingIsUnbounded(20.0, 30.0, 14.5, 15.5, 0, 0.0, out1, out2);
  }

  /** With fifty seconds of it: drifts so near each other that stepping across moves where someone is
      taken to be no farther than they may walk; and yet the far end of the ground they are given is
      fifty metres from all the ground they were. */
  lemma LookingAheadIsUnbounded(out1: seq<Given>, out2: seq<Given>) returns (q: Point)
    requires RightlyGiven(Drifts(11.0, 111.0), OnDrift(11.0, 111.0), UnitsAt([Stepping(10.4, 10.6)], ["person"], 0), WALKING * (50 * SECOND) as real, out1)
    requires RightlyGiven(Drifts(11.0, 111.0), OnDrift(11.0, 111.0), UnitsAt([Stepping(10.4, 10.6)], ["person"], SECOND), WALKING * (50 * SECOND) as real, out2)
    ensures Tracks.Straight(Tracks.LINE) && Drifts(11.0, 111.0).Valid(Tracks.LINE.gap) && OnLegs(Drifts(11.0, 111.0), OnDrift(11.0, 111.0))
    ensures Nearby(Tracks.LINE, Drifts(11.0, 111.0), Place(0, 1, 10.0, 10.0), Place(2, 3, 100.0, 0.0), 1.0)
    ensures !Near(GroundNear(Tracks.LINE, Drifts(11.0, 111.0), Stepping(10.4, 10.6), 0, 50 * SECOND, out1, q),
                  GroundNear(Tracks.LINE, Drifts(11.0, 111.0), Stepping(10.4, 10.6), SECOND, 50 * SECOND, out2, q),
                  Tracks.Moved(Speed(Tracks.LINE, [Stepping(10.4, 10.6)], WALKING), 0, SECOND))
  {
    hide RightlyGiven, GroundNear, Tracks.Straight, Network.Valid, OnLegs, OnDrift, Drifts, Stepping, Tracks.Moved, Speed, Nearby;
    assert WALKING * (50 * SECOND) as real == 50.0;
    OneMetre();
    q := SteppingIsUnbounded(11.0, 111.0, 10.4, 10.6, 50 * SECOND, WALKING * (50 * SECOND) as real, out1, out2);
  }

  lemma OneMetre()
    ensures Nearby(Tracks.LINE, Drifts(11.0, 111.0), Place(0, 1, 10.0, 10.0), Place(2, 3, 100.0, 0.0), 1.0)
  {
  }
}
