/** What a mine's own systems read of where people and vehicles could be:
    internal/observe/positioned.go. It is what the planner judges by unless it is told the truth,
    and how fast it moves is what its skipping rests on. */
module Positioned {
  import opened Basics
  import opened Observe
  import opened Tunnels
  import opened Reach
  import opened Surveyed
  import Tracks
  import Reference

  // ---------- Who is given what ground ----------

  /** A unit: whether the mine protects it, whether it is a person, and where it is. */
  datatype Unit = Unit(protected: bool, person: bool, at: Point)

  /** Ground given to a unit: a stretch someone could walk, where someone is if there are no
      tunnels, or the route planned for a vehicle. */
  datatype Given = Stretches(unit: nat, stretch: Stretch) | Spot(unit: nat) | Route(unit: nat)

  /** The stretches given to a unit. */
  function GivenTo(out: seq<Given>, unit: nat): seq<Stretch>
  {
    if out == [] then []
    else
      var last := out[|out| - 1];
      GivenTo(out[..|out| - 1], unit) + if last.Stretches? && last.unit == unit then [last.stretch] else []
  }

  lemma {:induction false} GivenJoins(out: seq<Given>, more: seq<Given>, unit: nat)
    ensures GivenTo(out + more, unit) == GivenTo(out, unit) + GivenTo(more, unit)
  {
    if more == [] {
      assert out + more == out;
    } else {
      assert (out + more)[..|out + more| - 1] == out + more[..|more| - 1];
      GivenJoins(out, more[..|more| - 1], unit);
    }
  }

  lemma {:induction false} GivenAll(stretches: seq<Stretch>, unit: nat, other: nat)
    ensures GivenTo(seq(|stretches|, k requires 0 <= k < |stretches| => Stretches(unit, stretches[k])), other) == if other == unit then stretches else []
  {
    var all := seq(|stretches|, k requires 0 <= k < |stretches| => Stretches(unit, stretches[k]));
    if stretches != [] {
      var before := stretches[..|stretches| - 1];
      GivenAll(before, unit, other);
      assert all[..|all| - 1] == seq(|before|, k requires 0 <= k < |before| => Stretches(unit, before[k]));
      assert stretches == before + [stretches[|stretches| - 1]];
    }
  }

  lemma {:induction false} GivenHas(out: seq<Given>, unit: nat, s: Stretch)
    ensures s in GivenTo(out, unit) <==> Stretches(unit, s) in out
  {
    if out != [] {
      var last, before := out[|out| - 1], out[..|out| - 1];
      GivenHas(before, unit, s);
      assert out == before + [last];
    }
  }

  /** Given the route planned for it: a protected vehicle. */
  predicate Routed(unit: Unit) { unit.protected && !unit.person }

  /** Given ground, or the spot they are at: a protected person. */
  predicate OnFoot(unit: Unit) { unit.protected && unit.person }

  /** How near each leg comes to a point, and where. */
  function NearTo(close: (Point, nat, nat) -> Closest, p: Point): (nat, nat) -> Closest { (u: nat, v: nat) => close(p, u, v) }

  ghost predicate NoLegs(g: Network) { forall u: nat, k: nat :: !Met(g, u, k) }

  /** The ground a unit is rightly given: from the place of the tunnels nearest to where it is. */
  ghost predicate RightGround(g: Network, close: (Point, nat, nat) -> Closest, unit: Unit, within: real, ground: seq<Stretch>)
  {
    && (forall s :: s in ground ==> IsStretch(g, s))
    && (if OnFoot(unit) && !NoLegs(g)
        then exists place :: TakenFor(g, NearTo(close, unit.at), Some(place)) && IsGround(g, place, within, ground)
        else ground == [])
  }

  /** What all the units are rightly given. */
  ghost predicate RightlyGiven(g: Network, close: (Point, nat, nat) -> Closest, units: seq<Unit>, within: real, out: seq<Given>)
  {
    && (forall i: nat :: i < |units| ==> RightGround(g, close, units[i], within, GivenTo(out, i)))
    && (forall i: nat :: i >= |units| ==> GivenTo(out, i) == [])
    && (forall i: nat :: Route(i) in out <==> i < |units| && Routed(units[i]))
    && (forall i: nat :: Spot(i) in out <==> i < |units| && OnFoot(units[i]) && NoLegs(g))
  }

  /** A nearest place of a leg is on it. */
  ghost predicate OnLegs(g: Network, close: (Point, nat, nat) -> Closest)
  {
    forall p, u, k :: 0 <= u < |g.edges| && 0 <= k < |g.edges[u]| ==> 0.0 <= close(p, u, g.edges[u][k].to).offset <= g.edges[u][k].length
  }

  /** One unit's reach. */
  method GroundFor(m: Measured, close: (Point, nat, nat) -> Closest, i: nat, unit: Unit, within: real) returns (more: seq<Given>)
    requires m.Valid() && within >= 0.0 && OnLegs(m.g, close)
    ensures RightGround(m.g, close, unit, within, GivenTo(more, i))
    ensures forall j: nat :: j != i ==> GivenTo(more, j) == []
    ensures forall j: nat :: (Route(j) in more <==> j == i && Routed(unit)) && (Spot(j) in more <==> j == i && OnFoot(unit) && NoLegs(m.g))
  {
    hide IsGround, IsStretch;
    if !unit.protected {
      return [];
    }
    if !unit.person {
      return [Route(i)];
    }
    var place := NearestLeg(m.g, m.gap, NearTo(close, unit.at));
    if place.None? {
      return [Spot(i)];
    }
    NearestIsMet(m.g, NearTo(close, unit.at), place.value);
    var ground := m.Within(place.value, within);
    more := seq(|ground|, k requires 0 <= k < |ground| => Stretches(i, ground[k]));
    forall j: nat ensures GivenTo(more, j) == if j == i then ground else [] {
      GivenAll(ground, i, j);
    }
  }

  lemma NearestIsMet(g: Network, close: (nat, nat) -> Closest, place: Place)
    requires TakenFor(g, close, Some(place))
    ensures InTunnels(g, place) && !NoLegs(g)
  {
  }

  /** The reach of all the units in turn: vehicles get routes, and each person exactly the ground
      within reach of the place their position is taken for. */
  method GiveGround(m: Measured, close: (Point, nat, nat) -> Closest, units: seq<Unit>, walking: real, lookahead: real) returns (out: seq<Given>)
    requires m.Valid() && walking * lookahead >= 0.0 && OnLegs(m.g, close)
    ensures RightlyGiven(m.g, close, units, walking * lookahead, out)
  {
    hide RightGround, GivenTo, Routed, OnFoot, NoLegs, OnLegs;
    out := [];
    NothingGiven();
    for i := 0 to |units|
      invariant forall j: nat :: j < i ==> RightGround(m.g, close, units[j], walking * lookahead, GivenTo(out, j))
      invariant forall j: nat :: j >= i ==> GivenTo(out, j) == []
      invariant forall j: nat :: Route(j) in out <==> j < i && Routed(units[j])
      invariant forall j: nat :: Spot(j) in out <==> j < i && OnFoot(units[j]) && NoLegs(m.g)
    {
      var more := GroundFor(m, close, i, units[i], walking * lookahead);
      ghost var before := out;
      forall j: nat ensures GivenTo(before + more, j) == if j == i then GivenTo(more, i) else GivenTo(before, j) {
        GivenJoins(before, more, j);
      }
      out := out + more;
    }
  }

  lemma NothingGiven()
    ensures forall j: nat :: GivenTo([], j) == []
  {
  }

  // ---------- As paths ----------

  /** The units there are at a moment. */
  function UnitsAt(entities: seq<Tracks.Entity>, protect: seq<Kind>, at: Time): (r: seq<Unit>)
    ensures |r| == |entities|
    ensures forall i :: 0 <= i < |r| ==>
              r[i] == Unit(entities[i].kind in protect && entities[i].track != [], entities[i].kind == "person",
                           Tracks.PositionAt(entities[i].track, at as real))
  {
    seq(|entities|, i requires 0 <= i < |entities| =>
          Unit(entities[i].kind in protect && entities[i].track != [], entities[i].kind == "person",
               Tracks.PositionAt(entities[i].track, at as real)))
  }

  function PathFor(m: Metric, g: Network, entities: seq<Tracks.Entity>, at: Time, lookahead: Time, given: Given): Path
  {
    if given.unit >= |entities| then Path("", [])
    else
      var e := entities[given.unit];
      Path(e.id, match given
                 case Stretches(_, s) => if InRange(g, s) then Drawn(m, g, s) else []
                 case Spot(_) => [Tracks.PositionAt(e.track, at as real)]
                 case Route(_) => Tracks.Route(e.track, at, lookahead))
  }

  function PathsFor(m: Metric, g: Network, entities: seq<Tracks.Entity>, at: Time, lookahead: Time, out: seq<Given>): (r: seq<Path>)
    ensures |r| == |out| && forall k :: 0 <= k < |r| ==> r[k] == PathFor(m, g, entities, at, lookahead, out[k])
  {
    seq(|out|, k requires 0 <= k < |out| => PathFor(m, g, entities, at, lookahead, out[k]))
  }

  // ---------- How fast it moves ----------

  /** Each of some paths comes near a point, but for a bound, as one of others does. */
  ghost predicate EachNear(m: Metric, a: seq<Path>, b: seq<Path>, q: Point, bound: real)
  {
    forall k :: 0 <= k < |a| && PathDistance(m, a[k].points, q).Some? ==>
                  exists l :: 0 <= l < |b| && AsNear(m, a[k], b[l], q, bound)
  }

  predicate AsNear(m: Metric, a: Path, b: Path, q: Point, bound: real)
    requires PathDistance(m, a.points, q).Some?
  {
    PathDistance(m, b.points, q).Some? && PathDistance(m, b.points, q).value <= PathDistance(m, a.points, q).value + bound
  }

  lemma NearestFrom(m: Metric, a: seq<Path>, b: seq<Path>, q: Point, bound: real)
    requires EachNear(m, a, b, q, bound)
    ensures var d, e := Distance(NearestOf(m, a, q)), Distance(NearestOf(m, b, q));
            d.Some? ==> e.Some? && e.value <= d.value + bound
  {
    hide NearestOf, PathDistance;
    NearestIsFirstLeast(m, a, q);
    NearestIsFirstLeast(m, b, q);
    var close := NearestOf(m, a, q);
    if close.Some? {
      var k :| 0 <= k < |a| && PathDistance(m, a[k].points, q) == Some(close.value.distance);
      var l :| 0 <= l < |b| && AsNear(m, a[k], b[l], q, bound);
      assert !Nearer(PathDistance(m, b[l].points, q), Distance(NearestOf(m, b, q)));
    }
  }

  lemma NearBothWays(m: Metric, a: seq<Path>, b: seq<Path>, q: Point, bound: real)
    requires EachNear(m, a, b, q, bound) && EachNear(m, b, a, q, bound)
    ensures Near(Distance(NearestOf(m, a, q)), Distance(NearestOf(m, b, q)), bound)
  {
    hide NearestOf, EachNear;
    NearestFrom(m, a, b, q, bound);
    NearestFrom(m, b, a, q, bound);
  }

  /** Someone on foot goes along the tunnels, as far as where they are taken to be shows, no faster
      than a speed. */
  ghost predicate AlongTunnels(g: Network, close: (Point, nat, nat) -> Closest, track: seq<Tracks.Waypoint>, walking: real)
  {
    forall t1: Time, t2: Time, p, p' | t1 <= t2 && Stood(g, close, track, t1, p) && Stood(g, close, track, t2, p') ::
      WithinReach(g, p, p', Tracks.Moved(walking, t1, t2))
  }

  /** Everyone the mine may be asked about. */
  ghost predicate GoAbout(g: Network, close: (Point, nat, nat) -> Closest, entities: seq<Tracks.Entity>, walking: real)
  {
    && (forall i :: 0 <= i < |entities| ==> Tracks.Orderly(entities[i].track))
    && (forall i :: 0 <= i < |entities| && entities[i].kind == "person" ==> AlongTunnels(g, close, entities[i].track, walking))
  }

  /** The same unit at two moments, either way round. */
  ghost predicate Steps(m: Metric, g: Network, close: (Point, nat, nat) -> Closest, e: Tracks.Entity, a: Time, b: Time, bound: real)
  {
    && bound >= 0.0
    && m.gap(Tracks.PositionAt(e.track, a as real), Tracks.PositionAt(e.track, b as real)) <= bound
    && (e.track != [] ==>
          forall lookahead, q ::
            Near(PathDistance(m, Tracks.Route(e.track, a, lookahead), q), PathDistance(m, Tracks.Route(e.track, b, lookahead), q), bound))
    && (e.kind == "person" ==>
          forall p, p' | Stood(g, close, e.track, a, p) && Stood(g, close, e.track, b, p') :: WithinReach(g, p', p, bound))
  }

  /** Where along the tunnels someone is taken to be at a moment. */
  ghost predicate Stood(g: Network, close: (Point, nat, nat) -> Closest, track: seq<Tracks.Waypoint>, at: Time, p: Place)
  {
    TakenFor(g, NearTo(close, Tracks.PositionAt(track, at as real)), Some(p))
  }

  /** Ground someone was given is near ground they are given. */
  lemma StretchStays(m: Metric, g: Network, p: Place, p': Place, bound: real, within: real, s: Stretch, ground: seq<Stretch>, q: Point)
    returns (s': Stretch)
    requires Tracks.Straight(m) && g.Valid(m.gap) && within >= 0.0 && bound >= 0.0
    requires InTunnels(g, p) && InTunnels(g, p') && WithinReach(g, p', p, bound)
    requires IsStretch(g, s) && forall x :: InTunnels(g, x) && On(s, x) ==> WithinReach(g, p, x, within)
    requires IsGround(g, p', within, ground) && forall t :: t in ground ==> IsStretch(g, t)
    ensures InRange(g, s) && s' in ground && InRange(g, s')
    ensures PathDistance(m, Drawn(m, g, s), q).Some? && PathDistance(m, Drawn(m, g, s'), q).Some?
    ensures PathDistance(m, Drawn(m, g, s'), q).value <= PathDistance(m, Drawn(m, g, s), q).value + bound
  {
    hide Tracks.Straight, Network.Valid, WithinReach, InTunnels, PointOf, On, Drawn, PathDistance, IsStretch, InRange;
    var x, d := DrawnMeets(m, g, s, q);
    var y := GroundFollows(m, g, p', p, bound, within, x);
    assert Covered(ground, y);
    var k :| 0 <= k < |ground| && On(ground[k], y);
    s' := ground[k];
    assert s' in ground;
    DrawnIsNearest(m, g, s', q, y);
    Tracks.ThroughPoint(m, PointOf(g, y), PointOf(g, x), q);
  }

  /** Every path a unit has at one moment comes as near, but for a bound, as one it has at another. */
  lemma PathStays(m: Metric, g: Network, close: (Point, nat, nat) -> Closest, entities: seq<Tracks.Entity>, protect: seq<Kind>, a: Time, b: Time,
                  within: real, lookahead: Time, outA: seq<Given>, outB: seq<Given>, bound: real, q: Point, given: Given) returns (next: Given)
    requires Tracks.Straight(m) && g.Valid(m.gap) && within >= 0.0
    requires RightlyGiven(g, close, UnitsAt(entities, protect, a), within, outA) && RightlyGiven(g, close, UnitsAt(entities, protect, b), within, outB)
    requires forall i :: 0 <= i < |entities| ==> Steps(m, g, close, entities[i], a, b, bound)
    requires given in outA && PathDistance(m, PathFor(m, g, entities, a, lookahead, given).points, q).Some?
    ensures next in outB
    ensures AsNear(m, PathFor(m, g, entities, a, lookahead, given), PathFor(m, g, entities, b, lookahead, next), q, bound)
  {
    hide Tracks.Straight, Network.Valid, PathDistance, IsStretch, IsGround, InTunnels, WithinReach, Drawn, TakenFor, GivenTo, Tracks.PositionAt, Tracks.Route;
    var i := given.unit;
    var before, after := UnitsAt(entities, protect, a), UnitsAt(entities, protect, b);
    match given
    case Route(_) =>
      next := given;
      assert Steps(m, g, close, entities[i], a, b, bound);
    case Spot(_) =>
      next := given;
      assert Steps(m, g, close, entities[i], a, b, bound);
      SpotStays(m, Tracks.PositionAt(entities[i].track, a as real), Tracks.PositionAt(entities[i].track, b as real), bound, q);
    case Stretches(_, s) =>
      GivenHas(outA, i, s);
      assert i < |entities|;
      var s' := GroundStays(m, g, close, entities[i], before[i], after[i], a, b, within, GivenTo(outA, i), GivenTo(outB, i), bound, q, s);
      GivenHas(outB, i, s');
      next := Stretches(i, s');
  }

  lemma SpotStays(m: Metric, p: Point, p': Point, bound: real, q: Point)
    requires Tracks.Straight(m) && m.gap(p, p') <= bound
    ensures PathDistance(m, [p], q) == Some(m.gap(p, q)) && PathDistance(m, [p'], q) == Some(m.gap(p', q)) && m.gap(p', q) <= m.gap(p, q) + bound
  {
    Tracks.ThroughPoint(m, p', p, q);
    Symmetric(m, p, p');
  }

  lemma GroundStays(m: Metric, g: Network, close: (Point, nat, nat) -> Closest, e: Tracks.Entity, before: Unit, after: Unit, a: Time, b: Time,
                    within: real, groundA: seq<Stretch>, groundB: seq<Stretch>, bound: real, q: Point, s: Stretch) returns (s': Stretch)
    requires Tracks.Straight(m) && g.Valid(m.gap) && within >= 0.0 && Steps(m, g, close, e, a, b, bound)
    requires before.at == Tracks.PositionAt(e.track, a as real) && after.at == Tracks.PositionAt(e.track, b as real)
    requires before.person == after.person == (e.kind == "person") && before.protected == after.protected
    requires RightGround(g, close, before, within, groundA) && RightGround(g, close, after, within, groundB) && s in groundA
    ensures InRange(g, s) && s' in groundB && InRange(g, s')
    ensures PathDistance(m, Drawn(m, g, s), q).Some? && PathDistance(m, Drawn(m, g, s'), q).Some?
    ensures PathDistance(m, Drawn(m, g, s'), q).value <= PathDistance(m, Drawn(m, g, s), q).value + bound
  {
    hide Tracks.Straight, Network.Valid, PathDistance, IsStretch, InTunnels, WithinReach, Drawn, TakenFor, Tracks.PositionAt, Tracks.Route, InRange, On, NoLegs;
    var p :| TakenFor(g, NearTo(close, before.at), Some(p)) && IsGround(g, p, within, groundA);
    var p' :| TakenFor(g, NearTo(close, after.at), Some(p')) && IsGround(g, p', within, groundB);
    assert Stood(g, close, e.track, a, p) && Stood(g, close, e.track, b, p');
    NearestIsMet(g, NearTo(close, before.at), p);
    NearestIsMet(g, NearTo(close, after.at), p');
    forall x | InTunnels(g, x) && On(s, x) ensures WithinReach(g, p, x, within) {
      var k :| 0 <= k < |groundA| && groundA[k] == s;
      assert Covered(groundA, x);
    }
    s' := StretchStays(m, g, p, p', bound, within, s, groundB, q);
  }

  lemma PathsStay(m: Metric, g: Network, close: (Point, nat, nat) -> Closest, entities: seq<Tracks.Entity>, protect: seq<Kind>, a: Time, b: Time,
                  within: real, lookahead: Time, outA: seq<Given>, outB: seq<Given>, bound: real, q: Point)
    requires Tracks.Straight(m) && g.Valid(m.gap) && within >= 0.0
    requires RightlyGiven(g, close, UnitsAt(entities, protect, a), within, outA) && RightlyGiven(g, close, UnitsAt(entities, protect, b), within, outB)
    requires forall i :: 0 <= i < |entities| ==> Steps(m, g, close, entities[i], a, b, bound)
    ensures EachNear(m, PathsFor(m, g, entities, a, lookahead, outA), PathsFor(m, g, entities, b, lookahead, outB), q, bound)
  {
    hide Tracks.Straight, Network.Valid, PathDistance, RightlyGiven, Steps, PathFor, AsNear;
    var pathsA, pathsB := PathsFor(m, g, entities, a, lookahead, outA), PathsFor(m, g, entities, b, lookahead, outB);
    forall k | 0 <= k < |pathsA| && PathDistance(m, pathsA[k].points, q).Some?
      ensures exists l :: 0 <= l < |pathsB| && AsNear(m, pathsA[k], pathsB[l], q, bound)
    {
      var next := PathStays(m, g, close, entities, protect, a, b, within, lookahead, outA, outB, bound, q, outA[k]);
      var l :| 0 <= l < |outB| && outB[l] == next;
      assert AsNear(m, pathsA[k], pathsB[l], q, bound);
    }
  }

  lemma {:induction false} FastestIsMost(m: Metric, entities: seq<Tracks.Entity>, i: nat)
    requires i < |entities|
    ensures Tracks.FastestAlong(m, entities[i].track) <= Tracks.FastestOf(m, entities)
    decreases |entities|
  {
    if i < |entities| - 1 {
      FastestIsMost(m, entities[..|entities| - 1], i);
    }
  }

  /** How fast anyone's reach may move: as the quickest unit does, or someone walking. */
  function Speed(m: Metric, entities: seq<Tracks.Entity>, walking: real): real { MaxReal(Tracks.FastestOf(m, entities), walking) }

  /** Over any time, forward or back, a unit's reach moves no farther than that. */
  lemma UnitSteps(m: Metric, g: Network, close: (Point, nat, nat) -> Closest, entities: seq<Tracks.Entity>, walking: real, i: nat, t1: Time, t2: Time)
    requires Tracks.Straight(m) && g.Valid(m.gap) && walking >= 0.0 && GoAbout(g, close, entities, walking) && i < |entities| && t1 <= t2
    ensures var bound := Tracks.Moved(Speed(m, entities, walking), t1, t2);
            Steps(m, g, close, entities[i], t1, t2, bound) && Steps(m, g, close, entities[i], t2, t1, bound)
  {
    hide Tracks.Straight, Tracks.Orderly, Tracks.PositionAt, Tracks.Route, Tracks.FastestAlong, Tracks.FastestOf, Tracks.Moved, PathDistance, TakenFor, WithinReach, Stood;
    var speed, e := Speed(m, entities, walking), entities[i];
    var bound := Tracks.Moved(speed, t1, t2);
    FastestIsMost(m, entities, i);
    Tracks.Faster(Tracks.FastestAlong(m, e.track), speed, t1, t2);
    Tracks.Faster(walking, speed, t1, t2);
    NotBack(walking, t1, t2);
    PositionSteps(m, e.track, t1, t2);
    if e.track != [] {
      forall lookahead, q ensures Near(PathDistance(m, Tracks.Route(e.track, t1, lookahead), q), PathDistance(m, Tracks.Route(e.track, t2, lookahead), q), bound) {
        Tracks.RouteSlides(m, e.track, t1, t2, lookahead, q);
        Tracks.NearWider(PathDistance(m, Tracks.Route(e.track, t1, lookahead), q), PathDistance(m, Tracks.Route(e.track, t2, lookahead), q),
                         Tracks.Moved(Tracks.FastestAlong(m, e.track), t1, t2), bound);
      }
    }
    if e.kind == "person" {
      forall p, p' | Stood(g, close, e.track, t1, p) && Stood(g, close, e.track, t2, p')
        ensures WithinReach(g, p, p', bound) && WithinReach(g, p', p, bound)
      {
        assert AlongTunnels(g, close, e.track, walking);
        StoodIn(g, close, e.track, t1, p);
        StoodIn(g, close, e.track, t2, p');
        ReachBothWays(m, g, p, p', Tracks.Moved(walking, t1, t2), bound);
      }
    }
  }

  lemma StoodIn(g: Network, close: (Point, nat, nat) -> Closest, track: seq<Tracks.Waypoint>, at: Time, p: Place)
    requires Stood(g, close, track, at, p)
    ensures InTunnels(g, p)
  {
    NearestIsMet(g, NearTo(close, Tracks.PositionAt(track, at as real)), p);
  }

  lemma NotBack(speed: real, t1: Time, t2: Time)
    requires speed >= 0.0 && t1 <= t2
    ensures Tracks.Moved(speed, t1, t2) >= 0.0
  {
    Tracks.NotNegative(speed, (t2 - t1) as real);
  }

  lemma ReachBothWays(m: Metric, g: Network, p: Place, p': Place, within: real, wider: real)
    requires g.Valid(m.gap) && InTunnels(g, p) && InTunnels(g, p') && WithinReach(g, p, p', within) && within <= wider
    ensures WithinReach(g, p, p', wider) && WithinReach(g, p', p, wider)
  {
    hide Way, Network.Valid;
    var length :| Way(g, p, p', length) && length <= within;
    WayBack(m, g, p, p', length);
  }

  lemma PositionSteps(m: Metric, track: seq<Tracks.Waypoint>, t1: Time, t2: Time)
    requires Tracks.Straight(m) && Tracks.Orderly(track) && t1 <= t2
    ensures var p, p' := Tracks.PositionAt(track, t1 as real), Tracks.PositionAt(track, t2 as real);
            m.gap(p, p') == m.gap(p', p) && m.gap(p, p') <= Tracks.Moved(Tracks.FastestAlong(m, track), t1, t2)
  {
    hide Tracks.Straight, Tracks.Orderly, Tracks.FastestAlong;
    var p, p' := Tracks.PositionAt(track, t1 as real), Tracks.PositionAt(track, t2 as real);
    Symmetric(m, p, p');
    Symmetric(m, p, p);
    Tracks.FastestAlongIsPositive(m, track);
    NotBack(Tracks.FastestAlong(m, track), t1, t2);
    if track != [] {
      Tracks.NeverFaster(m, track, t1 as real, t2 as real);
      assert (t2 - t1) as real == t2 as real - t1 as real;
    }
  }

  /** What a mine's own systems read as each unit's reach. */
  ghost predicate Reads(m: Metric, g: Network, close: (Point, nat, nat) -> Closest, entities: seq<Tracks.Entity>, walking: real, w: Whereabouts)
  {
    forall at: Time, lookahead: Time, protect: seq<Kind> :: ReadAt(m, g, close, entities, walking, w, at, lookahead, protect)
  }

  /** A lookahead is never negative: one that was is taken to be none at all. */
  ghost predicate ReadAt(m: Metric, g: Network, close: (Point, nat, nat) -> Closest, entities: seq<Tracks.Entity>, walking: real, w: Whereabouts,
                         at: Time, lookahead: Time, protect: seq<Kind>)
  {
    exists out ::
      && RightlyGiven(g, close, UnitsAt(entities, protect, at), walking * Max(0, lookahead) as real, out)
      && w.reach(at, lookahead, protect) == PathsFor(m, g, entities, at, Max(0, lookahead), out)
  }

  /** What the planner's skipping asks of where people are, a mine's own reading keeps: where
      people go along the tunnels no faster than walking, the distance from everyone's reach to
      any point changes no faster, either way, than the quickest unit moves or someone walks. */
  lemma PositionedIsBounded(m: Metric, g: Network, close: (Point, nat, nat) -> Closest, entities: seq<Tracks.Entity>, walking: real, w: Whereabouts)
    requires Tracks.Straight(m) && g.Valid(m.gap) && walking >= 0.0 && GoAbout(g, close, entities, walking)
    requires Reads(m, g, close, entities, walking, w)
    ensures Bounded(m, w, Speed(m, entities, walking))
  {
    hide Tracks.Straight, Network.Valid, GoAbout, KeepsPace, ReadAt, Speed;
    var speed := Speed(m, entities, walking);
    forall t1: Time, t2: Time, lookahead: Time, protect: seq<Kind>, q: Point | t1 <= t2
      ensures KeepsPace(m, w, speed, t1, t2, lookahead, protect, q)
    {
      ReadKeepsPace(m, g, close, entities, walking, w, t1, t2, lookahead, protect, q);
    }
  }

  lemma ReadKeepsPace(m: Metric, g: Network, close: (Point, nat, nat) -> Closest, entities: seq<Tracks.Entity>, walking: real, w: Whereabouts,
                      t1: Time, t2: Time, lookahead: Time, protect: seq<Kind>, q: Point)
    requires Tracks.Straight(m) && g.Valid(m.gap) && walking >= 0.0 && GoAbout(g, close, entities, walking) && t1 <= t2
    requires ReadAt(m, g, close, entities, walking, w, t1, lookahead, protect) && ReadAt(m, g, close, entities, walking, w, t2, lookahead, protect)
    ensures KeepsPace(m, w, Speed(m, entities, walking), t1, t2, lookahead, protect, q)
  {
    hide Tracks.Straight, Network.Valid, GoAbout, NearestOf, RightlyGiven, Speed;
    var length, within := Max(0, lookahead), walking * Max(0, lookahead) as real;
    var out1 :| RightlyGiven(g, close, UnitsAt(entities, protect, t1), within, out1) && w.reach(t1, lookahead, protect) == PathsFor(m, g, entities, t1, length, out1);
    var out2 :| RightlyGiven(g, close, UnitsAt(entities, protect, t2), within, out2) && w.reach(t2, lookahead, protect) == PathsFor(m, g, entities, t2, length, out2);
    Tracks.NotNegative(walking, length as real);
    GivenKeepsPace(m, g, close, entities, protect, walking, within, t1, t2, length, out1, out2, q);
    AtSpeed(Distance(NearestOf(m, w.reach(t1, lookahead, protect), q)), Distance(NearestOf(m, w.reach(t2, lookahead, protect), q)),
            Speed(m, entities, walking), t1, t2);
  }

  lemma AtSpeed(a: Option<real>, b: Option<real>, speed: real, t1: Time, t2: Time)
    requires Near(a, b, Tracks.Moved(speed, t1, t2))
    ensures Near(a, b, speed * (t2 - t1) as real)
  {
  }

  /** What is given at one moment and what is given at another come as near to any point, but for
      how far anyone's reach may have moved. */
  lemma GivenKeepsPace(m: Metric, g: Network, close: (Point, nat, nat) -> Closest, entities: seq<Tracks.Entity>, protect: seq<Kind>, walking: real,
                       within: real, t1: Time, t2: Time, lookahead: Time, out1: seq<Given>, out2: seq<Given>, q: Point)
    requires Tracks.Straight(m) && g.Valid(m.gap) && walking >= 0.0 && GoAbout(g, close, entities, walking) && t1 <= t2 && within >= 0.0
    requires RightlyGiven(g, close, UnitsAt(entities, protect, t1), within, out1)
    requires RightlyGiven(g, close, UnitsAt(entities, protect, t2), within, out2)
    ensures Near(Distance(NearestOf(m, PathsFor(m, g, entities, t1, lookahead, out1), q)),
                 Distance(NearestOf(m, PathsFor(m, g, entities, t2, lookahead, out2), q)), Tracks.Moved(Speed(m, entities, walking), t1, t2))
  {
    hide Tracks.Straight, Network.Valid, GoAbout, Steps, NearestOf, RightlyGiven, Speed, Tracks.Moved, PathFor, EachNear;
    var bound := Tracks.Moved(Speed(m, entities, walking), t1, t2);
    forall i | 0 <= i < |entities| ensures Steps(m, g, close, entities[i], t1, t2, bound) && Steps(m, g, close, entities[i], t2, t1, bound) {
      UnitSteps(m, g, close, entities, walking, i, t1, t2);
    }
    PathsStay(m, g, close, entities, protect, t1, t2, within, lookahead, out1, out2, bound, q);
    PathsStay(m, g, close, entities, protect, t2, t1, within, lookahead, out2, out1, bound, q);
    NearBothWays(m, PathsFor(m, g, entities, t1, lookahead, out1), PathsFor(m, g, entities, t2, lookahead, out2), q, bound);
  }

  // ---------- Both views of a run ----------

  lemma BoundedWider(m: Metric, w: Whereabouts, speed: real, wider: real)
    requires Bounded(m, w, speed) && speed <= wider
    ensures Bounded(m, w, wider)
  {
    hide NearestOf;
    forall t1: Time, t2: Time, lookahead: Time, protect: seq<Kind>, q: Point | t1 <= t2
      ensures KeepsPace(m, w, wider, t1, t2, lookahead, protect, q)
    {
      assert KeepsPace(m, w, speed, t1, t2, lookahead, protect, q);
      Tracks.NotNegative(wider - speed, (t2 - t1) as real);
      assert (wider - speed) * (t2 - t1) as real == wider * (t2 - t1) as real - speed * (t2 - t1) as real;
    }
  }

  /** Whichever view intent is told to judge by, the mine's own or the truth, it is one the planner
      may skip judgements over. */
  lemma ViewsAreSteady(site: Reference.Site, g: Network, close: (Point, nat, nat) -> Closest, entities: seq<Tracks.Entity>, walking: real)
    requires Tracks.Straight(site.metric) && g.Valid(site.metric.gap) && walking >= 0.0 && GoAbout(g, close, entities, walking)
    requires Reads(site.metric, g, close, entities, walking, site.mine) && site.mine.speed == Speed(site.metric, entities, walking)
    requires site.oracle == Tracks.Known(site.metric, entities)
    ensures site.Steady() && site.Speed() >= 0.0
  {
    hide Tracks.Straight, Tracks.Orderly, Network.Valid, Reads, Bounded, Tracks.FastestOf, AlongTunnels;
    PositionedIsBounded(site.metric, g, close, entities, walking, site.mine);
    Tracks.TracksAreBounded(site.metric, entities);
    BoundedWider(site.metric, site.mine, Speed(site.metric, entities, walking), site.Speed());
    BoundedWider(site.metric, site.oracle, Tracks.FastestOf(site.metric, entities), site.Speed());
  }

  // ---------- When ground keeps pace ----------

  /** Where someone stands settles the ground they are given. */
  lemma GroundOfOne(g: Network, close: (Point, nat, nat) -> Closest, e: Tracks.Entity, protect: seq<Kind>, at: Time, p: Place, within: real, out: seq<Given>)
    requires Stood(g, close, e.track, at, p)
    requires e.kind == "person" && e.kind in protect && e.track != [] && RightlyGiven(g, close, UnitsAt([e], protect, at), within, out)
    ensures IsGround(g, p, within, GivenTo(out, 0)) && forall s :: s in GivenTo(out, 0) ==> IsStretch(g, s)
    ensures forall given :: given in out ==> given.Stretches? && given.unit == 0
  {
    hide IsGround, IsStretch, TakenFor, GivenTo, Tracks.PositionAt, NoLegs;
    var unit := UnitsAt([e], protect, at)[0];
    NearestIsMet(g, NearTo(close, unit.at), p);
    assert RightGround(g, close, unit, within, GivenTo(out, 0));
    var place :| TakenFor(g, NearTo(close, unit.at), Some(place)) && IsGround(g, place, within, GivenTo(out, 0));
    TakenForOne(g, NearTo(close, unit.at), Some(place), Some(p));
    forall given | given in out ensures given.Stretches? && given.unit == 0 {
      if given.Stretches? {
        GivenHas(out, given.unit, given.stretch);
      }
    }
  }

  /** Everywhere within reach, a path of the ground given comes as near to a point as being there. */
  lemma PlaceIsGiven(m: Metric, g: Network, e: Tracks.Entity, at: Time, lookahead: Time, p: Place, within: real, out: seq<Given>, x: Place, q: Point)
    returns (k: nat)
    requires Tracks.Straight(m) && g.Valid(m.gap) && InTunnels(g, x) && WithinReach(g, p, x, within)
    requires IsGround(g, p, within, GivenTo(out, 0)) && forall s :: s in GivenTo(out, 0) ==> IsStretch(g, s)
    ensures x.a < |g.points| && x.b < |g.points| && x.length > 0.0
    ensures k < |out| && PathDistance(m, PathFor(m, g, [e], at, lookahead, out[k]).points, q).Some?
    ensures PathDistance(m, PathFor(m, g, [e], at, lookahead, out[k]).points, q).value <= m.gap(PointOf(g, x), q)
  {
    hide Tracks.Straight, Network.Valid, PathDistance, IsStretch, On, InTunnels, PointOf, GivenTo, Drawn, WithinReach;
    assert Covered(GivenTo(out, 0), x);
    var j :| 0 <= j < |GivenTo(out, 0)| && On(GivenTo(out, 0)[j], x);
    var s := GivenTo(out, 0)[j];
    GivenHas(out, 0, s);
    DrawnIsNearest(m, g, s, q, x);
    k :| 0 <= k < |out| && out[k] == Stretches(0, s);
  }

  /** And every path of it comes as near as being somewhere within reach. */
  lemma GivenIsPlace(m: Metric, g: Network, e: Tracks.Entity, at: Time, lookahead: Time, p: Place, within: real, out: seq<Given>, q: Point, k: nat)
    returns (x: Place)
    requires Tracks.Straight(m) && g.Valid(m.gap)
    requires IsGround(g, p, within, GivenTo(out, 0)) && forall s :: s in GivenTo(out, 0) ==> IsStretch(g, s)
    requires k < |out| && out[k].Stretches? && out[k].unit == 0
    ensures InTunnels(g, x) && WithinReach(g, p, x, within) && x.a < |g.points| && x.b < |g.points| && x.length > 0.0
    ensures PathDistance(m, PathFor(m, g, [e], at, lookahead, out[k]).points, q) == Some(m.gap(PointOf(g, x), q))
  {
    hide Tracks.Straight, Network.Valid, PathDistance, IsStretch, On, InTunnels, PointOf, GivenTo, Drawn, WithinReach;
    var s := out[k].stretch;
    assert Stretches(0, s) in out;
    GivenHas(out, 0, s);
    var d;
    x, d := DrawnMeets(m, g, s, q);
    var j :| 0 <= j < |GivenTo(out, 0)| && GivenTo(out, 0)[j] == s;
    assert Covered(GivenTo(out, 0), x);
  }

  /** One person on foot at a moment, and the ground they are rightly given. */
  ghost predicate Alone(m: Metric, g: Network, close: (Point, nat, nat) -> Closest, e: Tracks.Entity, protect: seq<Kind>, at: Time, p: Place,
                        within: real, out: seq<Given>)
  {
    && Tracks.Straight(m) && g.Valid(m.gap) && within >= 0.0 && Stood(g, close, e.track, at, p)
    && e.kind == "person" && e.kind in protect && e.track != [] && RightlyGiven(g, close, UnitsAt([e], protect, at), within, out)
  }

  /** How near that ground comes to a point. */
  function GroundNear(m: Metric, g: Network, e: Tracks.Entity, at: Time, lookahead: Time, out: seq<Given>, q: Point): Option<real>
  {
    Distance(NearestOf(m, PathsFor(m, g, [e], at, lookahead, out), q))
  }

  /** It comes as near as some place within reach does, and as near as any. */
  lemma GroundIsNearest(m: Metric, g: Network, close: (Point, nat, nat) -> Closest, e: Tracks.Entity, protect: seq<Kind>, at: Time, lookahead: Time,
                        p: Place, within: real, out: seq<Given>, q: Point) returns (x: Place)
    requires Alone(m, g, close, e, protect, at, p, within, out)
    ensures InTunnels(g, x) && WithinReach(g, p, x, within) && x.a < |g.points| && x.b < |g.points| && x.length > 0.0
    ensures GroundNear(m, g, e, at, lookahead, out, q) == Some(m.gap(PointOf(g, x), q))
  {
    hide Tracks.Straight, Network.Valid, NearestOf, PathDistance, PathFor, IsStretch, On, InTunnels, PointOf, WithinReach, RightlyGiven, GivenTo, Stood, IsGround;
    var paths := PathsFor(m, g, [e], at, lookahead, out);
    StoodIn(g, close, e.track, at, p);
    GroundOfOne(g, close, e, protect, at, p, within, out);
    AtOnce(g, p, within);
    var near := PlaceIsGiven(m, g, e, at, lookahead, p, within, out, p, q);
    NearestIsFirstLeast(m, paths, q);
    var closest := NearestOf(m, paths, q);
    assert !Nearer(PathDistance(m, paths[near].points, q), Distance(closest));
    var k :| 0 <= k < |paths| && PathDistance(m, paths[k].points, q) == Some(closest.value.distance);
    x := GivenIsPlace(m, g, e, at, lookahead, p, within, out, q, k);
  }

  lemma AtOnce(g: Network, p: Place, within: real)
    requires within >= 0.0
    ensures WithinReach(g, p, p, within)
  {
    assert Way(g, p, p, 0.0);
  }

  lemma GroundIsAsNear(m: Metric, g: Network, close: (Point, nat, nat) -> Closest, e: Tracks.Entity, protect: seq<Kind>, at: Time, lookahead: Time,
                       p: Place, within: real, out: seq<Given>, x: Place, q: Point)
    requires Alone(m, g, close, e, protect, at, p, within, out) && InTunnels(g, x) && WithinReach(g, p, x, within)
    ensures x.a < |g.points| && x.b < |g.points| && x.length > 0.0
    ensures GroundNear(m, g, e, at, lookahead, out, q).Some? && GroundNear(m, g, e, at, lookahead, out, q).value <= m.gap(PointOf(g, x), q)
  {
    hide Tracks.Straight, Network.Valid, NearestOf, PathDistance, PathFor, IsStretch, InTunnels, PointOf, WithinReach, RightlyGiven, GivenTo, Stood, IsGround;
    var paths := PathsFor(m, g, [e], at, lookahead, out);
    GroundOfOne(g, close, e, protect, at, p, within, out);
    var near := PlaceIsGiven(m, g, e, at, lookahead, p, within, out, x, q);
    NearestIsFirstLeast(m, paths, q);
    assert !Nearer(PathDistance(m, paths[near].points, q), Distance(NearestOf(m, paths, q)));
  }

  /** Two places no farther apart than a bound. */
  predicate Nearby(m: Metric, g: Network, x: Place, y: Place, bound: real)
  {
    && x.a < |g.points| && x.b < |g.points| && x.length > 0.0 && y.a < |g.points| && y.b < |g.points| && y.length > 0.0
    && m.gap(PointOf(g, x), PointOf(g, y)) <= bound
  }

  ghost predicate NearReach(m: Metric, g: Network, p: Place, within: real, x: Place, bound: real)
  {
    exists y :: InTunnels(g, y) && WithinReach(g, p, y, within) && Nearby(m, g, x, y, bound)
  }

  /** Everywhere within reach of one place is near somewhere within reach of another. */
  ghost predicate Follows(m: Metric, g: Network, p: Place, p': Place, within: real, bound: real)
  {
    forall x :: InTunnels(g, x) && WithinReach(g, p, x, within) ==> NearReach(m, g, p', within, x, bound)
  }

  /** Over any lookahead, ground keeps within a bound of every point exactly when everywhere
      someone could go from where they were taken to be is within it of somewhere they could go
      from where they are taken to be, and the other way about. */
  lemma GroundKeepsPaceExactly(m: Metric, g: Network, close: (Point, nat, nat) -> Closest, e: Tracks.Entity, protect: seq<Kind>, t1: Time, t2: Time,
                               lookahead: Time, p: Place, p': Place, within: real, bound: real, out1: seq<Given>, out2: seq<Given>)
    requires Alone(m, g, close, e, protect, t1, p, within, out1) && Alone(m, g, close, e, protect, t2, p', within, out2)
    ensures (forall q :: Near(GroundNear(m, g, e, t1, lookahead, out1, q), GroundNear(m, g, e, t2, lookahead, out2, q), bound))
            <==> Follows(m, g, p, p', within, bound) && Follows(m, g, p', p, within, bound)
  {
    hide Alone, GroundNear, InTunnels, WithinReach, Nearby, NearReach;
    if Follows(m, g, p, p', within, bound) && Follows(m, g, p', p, within, bound) {
      forall q ensures Near(GroundNear(m, g, e, t1, lookahead, out1, q), GroundNear(m, g, e, t2, lookahead, out2, q), bound) {
        GroundFollowed(m, g, close, e, protect, t1, t2, lookahead, p, p', within, bound, out1, out2, q);
        GroundFollowed(m, g, close, e, protect, t2, t1, lookahead, p', p, within, bound, out2, out1, q);
      }
    }
    if forall q :: Near(GroundNear(m, g, e, t1, lookahead, out1, q), GroundNear(m, g, e, t2, lookahead, out2, q), bound) {
      forall x | InTunnels(g, x) && WithinReach(g, p, x, within) ensures NearReach(m, g, p', within, x, bound) {
        PlaceFollowed(m, g, close, e, protect, t1, t2, lookahead, p, p', within, bound, out1, out2, x);
      }
      forall x | InTunnels(g, x) && WithinReach(g, p', x, within) ensures NearReach(m, g, p, within, x, bound) {
        PlaceFollowed(m, g, close, e, protect, t2, t1, lookahead, p', p, within, bound, out2, out1, x);
      }
    }
  }

  lemma GroundFollowed(m: Metric, g: Network, close: (Point, nat, nat) -> Closest, e: Tracks.Entity, protect: seq<Kind>, a: Time, b: Time,
                       lookahead: Time, p: Place, p': Place, within: real, bound: real, outA: seq<Given>, outB: seq<Given>, q: Point)
    requires Alone(m, g, close, e, protect, a, p, within, outA) && Alone(m, g, close, e, protect, b, p', within, outB)
    requires Follows(m, g, p, p', within, bound)
    ensures var d, d' := GroundNear(m, g, e, a, lookahead, outA, q), GroundNear(m, g, e, b, lookahead, outB, q);
            d.Some? && d'.Some? && d'.value <= d.value + bound
  {
    hide Alone, GroundNear, InTunnels, WithinReach, PointOf;
    var x := GroundIsNearest(m, g, close, e, protect, a, lookahead, p, within, outA, q);
    assert NearReach(m, g, p', within, x, bound);
    var y :| InTunnels(g, y) && WithinReach(g, p', y, within) && Nearby(m, g, x, y, bound);
    GroundIsAsNear(m, g, close, e, protect, b, lookahead, p', within, outB, y, q);
    NoFartherVia(m, g, close, e, protect, a, p, within, outA, PointOf(g, y), PointOf(g, x), q);
  }

  lemma NoFartherVia(m: Metric, g: Network, close: (Point, nat, nat) -> Closest, e: Tracks.Entity, protect: seq<Kind>, a: Time, p: Place, within: real,
                     out: seq<Given>, y: Point, x: Point, q: Point)
    requires Alone(m, g, close, e, protect, a, p, within, out)
    ensures m.gap(y, q) <= m.gap(x, y) + m.gap(x, q) && m.gap(x, x) == 0.0 && m.gap(x, y) == m.gap(y, x) && m.gap(x, y) >= 0.0
  {
    hide Tracks.Straight, Stood, RightlyGiven;
    Tracks.ThroughPoint(m, y, x, q);
    Symmetric(m, x, y);
    Symmetric(m, x, x);
  }

  lemma PlaceFollowed(m: Metric, g: Network, close: (Point, nat, nat) -> Closest, e: Tracks.Entity, protect: seq<Kind>, a: Time, b: Time,
                      lookahead: Time, p: Place, p': Place, within: real, bound: real, outA: seq<Given>, outB: seq<Given>, x: Place)
    requires Alone(m, g, close, e, protect, a, p, within, outA) && Alone(m, g, close, e, protect, b, p', within, outB)
    requires InTunnels(g, x) && WithinReach(g, p, x, within)
    requires forall q :: Near(GroundNear(m, g, e, a, lookahead, outA, q), GroundNear(m, g, e, b, lookahead, outB, q), bound) ||
                         Near(GroundNear(m, g, e, b, lookahead, outB, q), GroundNear(m, g, e, a, lookahead, outA, q), bound)
    ensures NearReach(m, g, p', within, x, bound)
  {
    hide Alone, GroundNear, InTunnels, WithinReach, PointOf;
    var q := PlacePoint(m, g, close, e, protect, a, p, within, outA, x);
    GroundIsAsNear(m, g, close, e, protect, a, lookahead, p, within, outA, x, q);
    var y := GroundIsNearest(m, g, close, e, protect, b, lookahead, p', within, outB, q);
    NoFartherVia(m, g, close, e, protect, a, p, within, outA, PointOf(g, y), q, q);
    var z := GroundIsNearest(m, g, close, e, protect, a, lookahead, p, within, outA, q);
    NoFartherVia(m, g, close, e, protect, a, p, within, outA, PointOf(g, z), q, q);
    assert Nearby(m, g, x, y, bound);
  }

  lemma PlacePoint(m: Metric, g: Network, close: (Point, nat, nat) -> Closest, e: Tracks.Entity, protect: seq<Kind>, a: Time, p: Place, within: real,
                   out: seq<Given>, x: Place) returns (q: Point)
    requires Alone(m, g, close, e, protect, a, p, within, out) && InTunnels(g, x)
    ensures x.a < |g.points| && x.b < |g.points| && x.length > 0.0 && q == PointOf(g, x)
  {
    PlaceHas(m, g, x);
    q := PointOf(g, x);
  }

  /** Whoever goes along the tunnels keeps it, however far they could go. */
  lemma WalkingFollows(m: Metric, g: Network, p: Place, p': Place, within: real, bound: real)
    requires Stands(m, g, p) && InTunnels(g, p') && within >= 0.0 && bound >= 0.0 && WithinReach(g, p', p, bound)
    ensures Follows(m, g, p, p', within, bound)
  {
    hide Tracks.Straight, Network.Valid, InTunnels, WithinReach, PointOf;
    forall x | InTunnels(g, x) && WithinReach(g, p, x, within) ensures NearReach(m, g, p', within, x, bound) {
      var y := GroundFollows(m, g, p', p, bound, within, x);
      Symmetric(m, PointOf(g, x), PointOf(g, y));
      assert Nearby(m, g, x, y, bound);
    }
  }

  /** With no time to go anywhere that is exactly when where they are taken to be does. */
  lemma StandingKeepsPaceExactly(m: Metric, g: Network, close: (Point, nat, nat) -> Closest, e: Tracks.Entity, protect: seq<Kind>, t1: Time, t2: Time,
                                 p: Place, p': Place, bound: real, out1: seq<Given>, out2: seq<Given>)
    requires Alone(m, g, close, e, protect, t1, p, 0.0, out1) && Alone(m, g, close, e, protect, t2, p', 0.0, out2)
    ensures (forall q :: Near(GroundNear(m, g, e, t1, 0, out1, q), GroundNear(m, g, e, t2, 0, out2, q), bound)) <==> Nearby(m, g, p, p', bound)
  {
    hide GroundNear, RightlyGiven, Stood, Follows, Nearby, Tracks.Straight, Network.Valid;
    StoodIn(g, close, e.track, t1, p);
    StoodIn(g, close, e.track, t2, p');
    GroundKeepsPaceExactly(m, g, close, e, protect, t1, t2, 0, p, p', 0.0, bound, out1, out2);
    FollowsAtOnce(m, g, p, p', bound);
    FollowsAtOnce(m, g, p', p, bound);
    NearbyBack(m, g, p, p', bound);
  }

  lemma NearbyBack(m: Metric, g: Network, x: Place, y: Place, bound: real)
    requires Tracks.Straight(m)
    ensures Nearby(m, g, x, y, bound) <==> Nearby(m, g, y, x, bound)
  {
  }

  lemma FollowsAtOnce(m: Metric, g: Network, p: Place, p': Place, bound: real)
    requires Stands(m, g, p) && InTunnels(g, p')
    ensures Follows(m, g, p, p', 0.0, bound) <==> Nearby(m, g, p, p', bound)
  {
    hide Tracks.Straight, Network.Valid, InTunnels, WithinReach, PointOf;
    PlaceHas(m, g, p);
    PlaceHas(m, g, p');
    AtOnce(g, p, 0.0);
    AtOnce(g, p', 0.0);
    if Follows(m, g, p, p', 0.0, bound) {
      assert NearReach(m, g, p', 0.0, p, bound);
      var y :| InTunnels(g, y) && WithinReach(g, p', y, 0.0) && Nearby(m, g, p, y, bound);
      NowhereElse(m, g, p', y);
      Tracks.ThroughPoint(m, PointOf(g, p), PointOf(g, y), PointOf(g, p'));
      Symmetric(m, PointOf(g, p'), PointOf(g, y));
    }
    if Nearby(m, g, p, p', bound) {
      forall x | InTunnels(g, x) && WithinReach(g, p, x, 0.0) ensures NearReach(m, g, p', 0.0, x, bound) {
        NowhereElse(m, g, p, x);
        Tracks.ThroughPoint(m, PointOf(g, x), PointOf(g, p), PointOf(g, p'));
        Symmetric(m, PointOf(g, p), PointOf(g, x));
        assert Nearby(m, g, x, p', bound);
      }
    }
  }

  lemma NowhereElse(m: Metric, g: Network, p: Place, x: Place)
    requires Stands(m, g, p) && InTunnels(g, x) && WithinReach(g, p, x, 0.0)
    ensures Nearby(m, g, p, x, 0.0)
  {
    hide Tracks.Straight, Network.Valid, InTunnels, Way, PointOf;
    var length :| Way(g, p, x, length) && length <= 0.0;
    CrowFlies(m, g, p, x, length);
  }
}
