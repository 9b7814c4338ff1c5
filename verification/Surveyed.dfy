/** Ground as it is drawn, and how it moves as whoever it is given to does:
    internal/mineplan/reach.go:20-33 and 56-113. Places along legs have coordinates here, in a
    metric in which straight lines are straight. */
module Surveyed {
  import opened Basics
  import opened Observe
  import opened Tunnels
  import opened Routes
  import opened Reach
  import Tracks

  // ---------- Places as points ----------

  /** So far of the way along the line between two junctions. */
  function LegPoint(g: Network, a: nat, b: nat, f: real): Point
    requires a < |g.points| && b < |g.points|
  {
    Tracks.Along(g.points[a], g.points[b], f)
  }

  function PointOf(g: Network, p: Place): Point
    requires p.a < |g.points| && p.b < |g.points| && p.length > 0.0
  {
    LegPoint(g, p.a, p.b, p.offset / p.length)
  }

  /** A place there is. */
  ghost predicate Stands(m: Metric, g: Network, p: Place)
  {
    Tracks.Straight(m) && g.Valid(m.gap) && InTunnels(g, p)
  }

  lemma PlaceHas(m: Metric, g: Network, p: Place)
    requires g.Valid(m.gap) && InTunnels(g, p)
    ensures p.a < |g.points| && p.b < |g.points| && p.length > 0.0 && p.length == m.gap(g.points[p.a], g.points[p.b])
    ensures 0.0 <= p.To(p.a) <= p.length && 0.0 <= p.To(p.b) <= p.length && p.To(p.a) + p.To(p.b) == p.length
  {
    LegIsOk(g, m.gap, p);
  }

  lemma Parts(x: real, y: real, length: real)
    requires 0.0 <= x <= length && 0.0 <= y <= length && length > 0.0
    ensures 0.0 <= x / length <= 1.0 && 0.0 <= y / length <= 1.0 && AbsReal(x / length - y / length) * length == AbsReal(x - y)
  {
    Tracks.Quotient(x, length);
    Tracks.Quotient(y, length);
    var f, h := x / length, y / length;
    assert (f - h) * length == f * length - h * length;
    assert (h - f) * length == h * length - f * length;
  }

  /** Two points of a leg are as far apart as they are along it. */
  lemma LegSpans(m: Metric, g: Network, p: Place, x: real, y: real)
    requires Stands(m, g, p) && 0.0 <= x <= p.length && 0.0 <= y <= p.length
    ensures p.a < |g.points| && p.b < |g.points| && p.length > 0.0
    ensures m.gap(LegPoint(g, p.a, p.b, x / p.length), LegPoint(g, p.a, p.b, y / p.length)) == AbsReal(x - y)
  {
    hide Tracks.Straight, Tracks.Along;
    PlaceHas(m, g, p);
    Parts(x, y, p.length);
    Tracks.AlongGap(m, g.points[p.a], g.points[p.b], x / p.length, y / p.length);
  }

  lemma Flipped(a: Point, b: Point, f: real)
    ensures Tracks.Along(a, b, f) == Tracks.Along(b, a, 1.0 - f)
  {
    FlippedPart(a.x, b.x, f);
    FlippedPart(a.y, b.y, f);
    FlippedPart(a.z, b.z, f);
  }

  lemma FlippedPart(a: real, b: real, f: real)
    ensures Tracks.Part(a, b, f) == Tracks.Part(b, a, 1.0 - f)
  {
    assert (a - b) * (1.0 - f) == (a - b) - (a - b) * f;
    assert (a - b) * f == -((b - a) * f);
  }

  /** Where a place is does not depend on which way its leg is looked at. */
  lemma PointOnLeg(m: Metric, g: Network, p: Place, x: Place)
    requires Stands(m, g, p) && InTunnels(g, x) && SameLeg(p, x)
    ensures p.a < |g.points| && p.b < |g.points| && p.length > 0.0 && x.a < |g.points| && x.b < |g.points| && x.length == p.length
    ensures PointOf(g, x) == LegPoint(g, p.a, p.b, x.To(p.a) / p.length)
  {
    hide Tracks.Straight, Tracks.Along;
    PlaceHas(m, g, p);
    PlaceHas(m, g, x);
    SameLength(g, m.gap, p, x);
    if x.a != p.a {
      Flipped(g.points[x.a], g.points[x.b], x.offset / x.length);
      OneLess(x.offset, x.length);
    }
  }

  lemma OneLess(x: real, length: real)
    requires length > 0.0
    ensures 1.0 - x / length == (length - x) / length
    ensures length / length == 1.0 && 0.0 / length == 0.0
  {
    var rest := 1.0 - x / length;
    assert rest * length == length - x;
    assert (rest * length) / length == rest;
  }

  lemma Along01(a: Point, b: Point)
    ensures Tracks.Along(a, b, 0.0) == a && Tracks.Along(a, b, 1.0) == b
  {
  }

  /** How far a place is from an end of its leg. */
  lemma ToEnd(m: Metric, g: Network, p: Place, n: nat)
    requires Stands(m, g, p) && EndOf(p, n)
    ensures n < |g.points| && p.a < |g.points| && p.b < |g.points| && p.length > 0.0
    ensures m.gap(PointOf(g, p), g.points[n]) == p.To(n)
  {
    hide Tracks.Straight, Tracks.Along;
    PlaceHas(m, g, p);
    Along01(g.points[p.a], g.points[p.b]);
    var end := if n == p.a then 0.0 else p.length;
    OneLess(0.0, p.length);
    LegSpans(m, g, p, p.offset, end);
  }

  lemma Symmetric(m: Metric, p: Point, q: Point)
    requires Tracks.Straight(m)
    ensures m.gap(p, q) == m.gap(q, p) && m.gap(p, q) >= 0.0 && m.gap(p, p) == 0.0
  {
  }

  // ---------- No way is shorter than the straight line ----------

  lemma HopSpans(m: Metric, g: Network, h: Hop)
    requires g.Valid(m.gap) && IsHop(g, h)
    ensures h.at < |g.points| && h.to < |g.points| && h.at != h.to && h.length == m.gap(g.points[h.at], g.points[h.to]) && h.length > 0.0
    ensures |g.edges| == |g.points| && Edge(h.at, h.length) in g.edges[h.to]
  {
    var k :| 0 <= k < |g.edges[h.at]| && g.edges[h.at][k] == Edge(h.to, h.length);
    assert g.LegOk(m.gap, h.at, g.edges[h.at][k]);
  }

  lemma {:induction false} WalkSpans(m: Metric, g: Network, from: nat, to: nat, hops: seq<Hop>)
    requires Tracks.Straight(m) && g.Valid(m.gap) && from < |g.points| && Walks(g, from, to, hops)
    ensures to < |g.points| && m.gap(g.points[from], g.points[to]) <= Total(hops)
    decreases |hops|
  {
    hide Tracks.Straight, Network.Valid;
    if hops == [] {
      Symmetric(m, g.points[from], g.points[from]);
    } else {
      var last := hops[|hops| - 1];
      HopSpans(m, g, last);
      WalkSpans(m, g, from, last.at, hops[..|hops| - 1]);
      Tracks.ThroughPoint(m, g.points[from], g.points[last.at], g.points[to]);
    }
  }

  /** However one goes along the tunnels, the straight line is no longer. */
  lemma CrowFlies(m: Metric, g: Network, p: Place, x: Place, length: real)
    requires Stands(m, g, p) && InTunnels(g, x) && Way(g, p, x, length)
    ensures p.a < |g.points| && p.b < |g.points| && p.length > 0.0 && x.a < |g.points| && x.b < |g.points| && x.length > 0.0
    ensures m.gap(PointOf(g, p), PointOf(g, x)) <= length
  {
    hide Tracks.Straight, Network.Valid, WayBy, InTunnels, PointOf;
    PlaceHas(m, g, p);
    PlaceHas(m, g, x);
    if SameLeg(p, x) && length == AbsReal(p.offset - x.Offset(p.a)) {
      DirectSpans(m, g, p, x);
    } else {
      var out: nat, into: nat, hops: seq<Hop> :| WayBy(g, p, x, length, out, into, hops);
      ThroughSpans(m, g, p, x, length, out, into, hops);
    }
  }

  lemma DirectSpans(m: Metric, g: Network, p: Place, x: Place)
    requires Stands(m, g, p) && InTunnels(g, x) && SameLeg(p, x)
    ensures p.a < |g.points| && p.b < |g.points| && p.length > 0.0 && x.a < |g.points| && x.b < |g.points| && x.length == p.length
    ensures m.gap(PointOf(g, p), PointOf(g, x)) == AbsReal(p.offset - x.Offset(p.a))
  {
    hide Tracks.Straight, Network.Valid;
    PlaceHas(m, g, p);
    PlaceHas(m, g, x);
    PointOnLeg(m, g, p, x);
    PointOnLeg(m, g, p, p);
    LegSpans(m, g, p, p.offset, x.To(p.a));
  }

  lemma ThroughSpans(m: Metric, g: Network, p: Place, x: Place, length: real, out: nat, into: nat, hops: seq<Hop>)
    requires Stands(m, g, p) && InTunnels(g, x) && WayBy(g, p, x, length, out, into, hops)
    ensures p.a < |g.points| && p.b < |g.points| && p.length > 0.0 && x.a < |g.points| && x.b < |g.points| && x.length > 0.0
    ensures m.gap(PointOf(g, p), PointOf(g, x)) <= length
  {
    hide Tracks.Straight, Network.Valid, InTunnels, PointOf;
    ToEnd(m, g, p, out);
    ToEnd(m, g, x, into);
    WalkSpans(m, g, out, into, hops);
    var a, b, c, d := PointOf(g, p), g.points[out], g.points[into], PointOf(g, x);
    Tracks.ThroughPoint(m, a, b, c);
    Tracks.ThroughPoint(m, a, c, d);
    Symmetric(m, c, d);
  }

  // ---------- A way cut short ----------

  /** A place so far along a leg from an end of it. */
  function Standing(p: Place, end: nat, far: real): Place
  {
    if end == p.a then p.(offset := far) else p.(offset := p.length - far)
  }

  lemma StandingHolds(m: Metric, g: Network, p: Place, end: nat, far: real)
    requires Stands(m, g, p) && EndOf(p, end) && 0.0 <= far <= p.length
    ensures var y := Standing(p, end, far);
            && InTunnels(g, y) && SameLeg(p, y) && EndOf(y, end) && y.To(end) == far
            && Way(g, p, y, AbsReal(p.To(end) - far)) && Way(g, y, p, AbsReal(p.To(end) - far))
  {
    var y := Standing(p, end, far);
    assert AbsReal(p.offset - y.Offset(p.a)) == AbsReal(p.To(end) - far);
    assert AbsReal(y.offset - p.Offset(y.a)) == AbsReal(p.To(end) - far);
  }

  /** How far a walk comes, and how far off its end is from there. */
  lemma {:induction false} CutWalk(m: Metric, g: Network, from: nat, to: nat, hops: seq<Hop>, r: real)
    returns (y: Place, n: nat, before: seq<Hop>)
    requires Tracks.Straight(m) && g.Valid(m.gap) && from < |g.points| && Walks(g, from, to, hops) && 0.0 <= r < Total(hops)
    ensures InTunnels(g, y) && EndOf(y, n) && Walks(g, from, n, before) && Total(before) + y.To(n) == r
    ensures to < |g.points| && y.a < |g.points| && y.b < |g.points| && y.length > 0.0
    ensures m.gap(PointOf(g, y), g.points[to]) <= Total(hops) - r
    decreases |hops|
  {
    hide Tracks.Straight, Network.Valid, PointOf;
    var last, rest := hops[|hops| - 1], hops[..|hops| - 1];
    HopSpans(m, g, last);
    if r >= Total(rest) {
      y, n, before := Place(last.at, last.to, last.length, r - Total(rest)), last.at, rest;
      ToEnd(m, g, y, to);
    } else {
      y, n, before := CutWalk(m, g, from, last.at, rest, r);
      Tracks.ThroughPoint(m, PointOf(g, y), g.points[last.at], g.points[to]);
    }
  }

  /** A way cut short: a place on it as far as one likes, from which the straight line is no longer
      than what is left. */
  lemma CutWay(m: Metric, g: Network, p: Place, x: Place, length: real, within: real) returns (y: Place)
    requires Stands(m, g, p) && InTunnels(g, x) && Way(g, p, x, length) && 0.0 <= within <= length
    ensures InTunnels(g, y) && WithinReach(g, p, y, within)
    ensures x.a < |g.points| && x.b < |g.points| && x.length > 0.0 && y.a < |g.points| && y.b < |g.points| && y.length > 0.0
    ensures m.gap(PointOf(g, y), PointOf(g, x)) <= length - within
  {
    hide Tracks.Straight, Network.Valid, WayBy, InTunnels, PointOf;
    if SameLeg(p, x) && length == AbsReal(p.offset - x.Offset(p.a)) {
      y := CutDirect(m, g, p, x, within);
    } else {
      var out: nat, into: nat, hops: seq<Hop> :| WayBy(g, p, x, length, out, into, hops);
      y := CutThrough(m, g, p, x, length, out, into, hops, within);
    }
  }

  lemma CutDirect(m: Metric, g: Network, p: Place, x: Place, within: real) returns (y: Place)
    requires Stands(m, g, p) && InTunnels(g, x) && SameLeg(p, x) && 0.0 <= within <= AbsReal(p.offset - x.Offset(p.a))
    ensures InTunnels(g, y) && WithinReach(g, p, y, within)
    ensures x.a < |g.points| && x.b < |g.points| && x.length > 0.0 && y.a < |g.points| && y.b < |g.points| && y.length > 0.0
    ensures m.gap(PointOf(g, y), PointOf(g, x)) <= AbsReal(p.offset - x.Offset(p.a)) - within
  {
    hide Tracks.Straight, Network.Valid, PointOf;
    PlaceHas(m, g, p);
    PlaceHas(m, g, x);
    SameLength(g, m.gap, p, x);
    var far := if x.To(p.a) >= p.offset then p.offset + within else p.offset - within;
    StandingHolds(m, g, p, p.a, far);
    y := Standing(p, p.a, far);
    assert Way(g, p, y, within);
    DirectSpans(m, g, y, x);
  }

  lemma CutThrough(m: Metric, g: Network, p: Place, x: Place, length: real, out: nat, into: nat, hops: seq<Hop>, within: real) returns (y: Place)
    requires Stands(m, g, p) && InTunnels(g, x) && WayBy(g, p, x, length, out, into, hops) && 0.0 <= within <= length
    ensures InTunnels(g, y) && WithinReach(g, p, y, within)
    ensures x.a < |g.points| && x.b < |g.points| && x.length > 0.0 && y.a < |g.points| && y.b < |g.points| && y.length > 0.0
    ensures m.gap(PointOf(g, y), PointOf(g, x)) <= length - within
  {
    hide Tracks.Straight, Network.Valid, PointOf;
    PlaceHas(m, g, p);
    PlaceHas(m, g, x);
    ToEnd(m, g, p, out);
    ToEnd(m, g, x, into);
    if within <= p.To(out) {
      StandingHolds(m, g, p, out, p.To(out) - within);
      y := Standing(p, out, p.To(out) - within);
      assert Way(g, p, y, within);
      assert WayBy(g, y, x, length - within, out, into, hops);
      CrowFlies(m, g, y, x, length - within);
    } else if within >= p.To(out) + Total(hops) {
      var far := within - p.To(out) - Total(hops);
      StandingHolds(m, g, x, into, far);
      y := Standing(x, into, far);
      assert WayBy(g, p, y, within, out, into, hops);
      assert Way(g, p, y, within);
      assert x.To(into) - far == length - within;
      CrowFlies(m, g, y, x, AbsReal(x.To(into) - far));
    } else {
      var n, before;
      y, n, before := CutWalk(m, g, out, into, hops, within - p.To(out));
      assert WayBy(g, p, y, within, out, n, before);
      assert Way(g, p, y, within);
      Tracks.ThroughPoint(m, PointOf(g, y), g.points[into], PointOf(g, x));
      Symmetric(m, g.points[into], PointOf(g, x));
    }
  }

  // ---------- Ways both ways ----------

  lemma OneHop(g: Network, h: Hop)
    requires IsHop(g, h)
    ensures Walks(g, h.at, h.to, [h]) && Total([h]) == h.length
  {
    var hops := [h];
    assert hops[..|hops| - 1] == [];
    assert hops[|hops| - 1] == h;
    assert Walks(g, h.at, h.at, []) && Total([]) == 0.0;
  }

  lemma {:induction false} WalkBack(m: Metric, g: Network, from: nat, to: nat, hops: seq<Hop>) returns (back: seq<Hop>)
    requires g.Valid(m.gap) && Walks(g, from, to, hops)
    ensures Walks(g, to, from, back) && Total(back) == Total(hops)
    decreases |hops|
  {
    if hops == [] {
      back := [];
    } else {
      var last, rest := hops[|hops| - 1], hops[..|hops| - 1];
      HopSpans(m, g, last);
      var before := WalkBack(m, g, from, last.at, rest);
      var step := [Hop(to, last.at, last.length)];
      OneHop(g, step[0]);
      WalksJoin(g, to, last.at, from, step, before);
      back := step + before;
    }
  }

  lemma WayBack(m: Metric, g: Network, p: Place, x: Place, length: real)
    requires g.Valid(m.gap) && InTunnels(g, p) && InTunnels(g, x) && Way(g, p, x, length)
    ensures Way(g, x, p, length)
  {
    hide Network.Valid;
    if SameLeg(p, x) && length == AbsReal(p.offset - x.Offset(p.a)) {
      SameLength(g, m.gap, p, x);
    } else {
      var out: nat, into: nat, hops: seq<Hop> :| WayBy(g, p, x, length, out, into, hops);
      var back := WalkBack(m, g, out, into, hops);
      assert WayBy(g, x, p, length, into, out, back);
    }
  }

  /** As someone moves along the tunnels, ground they can then reach is near ground they could. */
  lemma GroundFollows(m: Metric, g: Network, p: Place, p': Place, step: real, within: real, x: Place) returns (y: Place)
    requires Stands(m, g, p) && InTunnels(g, p') && InTunnels(g, x) && within >= 0.0 && step >= 0.0
    requires WithinReach(g, p, p', step) && WithinReach(g, p', x, within)
    ensures InTunnels(g, y) && WithinReach(g, p, y, within)
    ensures x.a < |g.points| && x.b < |g.points| && x.length > 0.0 && y.a < |g.points| && y.b < |g.points| && y.length > 0.0
    ensures m.gap(PointOf(g, y), PointOf(g, x)) <= step
  {
    hide Tracks.Straight, Network.Valid, Way, InTunnels, PointOf;
    var s :| Way(g, p, p', s) && s <= step;
    var t :| Way(g, p', x, t) && t <= within;
    var r := WaysJoin(g, m.gap, p, p', x, s, t);
    PlaceHas(m, g, x);
    if r <= within {
      y := x;
      Symmetric(m, PointOf(g, x), PointOf(g, x));
    } else {
      y := CutWay(m, g, p, x, r, within);
    }
  }

  // ---------- Stretches drawn ----------

  /** The point a distance along the straight line from one point to another. */
  function Toward(m: Metric, a: Point, b: Point, far: real): Point
  {
    var length := m.gap(a, b);
    if length == 0.0 then a else Tracks.Along(a, b, far / length)
  }

  predicate InRange(g: Network, s: Stretch)
  {
    match s
    case FromHere(p, toward, _) => p.a < |g.points| && p.b < |g.points| && p.length > 0.0 && toward < |g.points|
    case FromJunction(node, to, _, _) => node < |g.points| && to < |g.points|
  }

  /** A stretch as a straight line between its ends. */
  function Drawn(m: Metric, g: Network, s: Stretch): seq<Point>
    requires InRange(g, s)
  {
    match s
    case FromHere(p, toward, extent) => [PointOf(g, p), Toward(m, PointOf(g, p), g.points[toward], extent)]
    case FromJunction(node, to, _, extent) => [g.points[node], Toward(m, g.points[node], g.points[to], extent)]
  }

  /** A range of a leg, from one of its ends. */
  datatype Span = Span(a: nat, b: nat, length: real, from: real, until: real)

  function SpanOf(s: Stretch): Span
  {
    match s
    case FromHere(p, toward, extent) =>
      if toward == p.b then Span(p.a, p.b, p.length, p.offset, p.offset + extent)
      else Span(p.b, p.a, p.length, p.length - p.offset, p.length - p.offset + extent)
    case FromJunction(node, to, length, extent) => Span(node, to, length, 0.0, extent)
  }

  ghost predicate IsSpan(g: Network, r: Span)
  {
    InTunnels(g, Place(r.a, r.b, r.length, r.from)) && InTunnels(g, Place(r.a, r.b, r.length, r.until)) && r.from <= r.until
  }

  /** A stretch's line is drawn between two points of its leg. */
  lemma DrawnIs(m: Metric, g: Network, s: Stretch)
    requires Tracks.Straight(m) && g.Valid(m.gap) && IsStretch(g, s)
    ensures var r := SpanOf(s);
            && IsSpan(g, r) && r.a < |g.points| && r.b < |g.points| && r.length > 0.0
            && InRange(g, s)
            && Drawn(m, g, s) == [LegPoint(g, r.a, r.b, r.from / r.length), LegPoint(g, r.a, r.b, r.until / r.length)]
  {
    hide Tracks.Straight, Tracks.Along;
    match s
    case FromHere(p, toward, extent) =>
      LegIsOk(g, m.gap, p);
      var other := if toward == p.b then p.a else p.b;
      var here := Place(other, toward, p.length, p.To(other));
      assert InTunnels(g, here) && SameLeg(here, p);
      PointOnLeg(m, g, here, p);
      ToEnd(m, g, p, toward);
      TowardEnd(m, g, here, extent);
    case FromJunction(node, to, length, extent) =>
      var here := Place(node, to, length, 0.0);
      JunctionLeg(m, g, node, to, length);
      Along01(g.points[node], g.points[to]);
      OneLess(0.0, length);
      TowardEnd(m, g, here, extent);
  }

  lemma JunctionLeg(m: Metric, g: Network, node: nat, to: nat, length: real)
    requires Tracks.Straight(m) && g.Valid(m.gap) && node < |g.edges| && Edge(to, length) in g.edges[node]
    ensures Stands(m, g, Place(node, to, length, 0.0)) && node < |g.points| && to < |g.points| && length > 0.0
    ensures m.gap(g.points[node], g.points[to]) == length
  {
    HopSpans(m, g, Hop(node, to, length));
  }

  /** So far toward the end of a leg from a place on it. */
  lemma TowardEnd(m: Metric, g: Network, here: Place, extent: real)
    requires Stands(m, g, here) && 0.0 <= extent <= here.length - here.offset
    ensures here.a < |g.points| && here.b < |g.points| && here.length > 0.0
    ensures InTunnels(g, here.(offset := here.offset + extent))
    ensures m.gap(PointOf(g, here), g.points[here.b]) == here.length - here.offset
    ensures Toward(m, PointOf(g, here), g.points[here.b], extent) == LegPoint(g, here.a, here.b, (here.offset + extent) / here.length)
  {
    hide Tracks.Straight, Tracks.Along;
    PlaceHas(m, g, here);
    ToEnd(m, g, here, here.b);
    var left := here.length - here.offset;
    if left > 0.0 {
      var a, b := g.points[here.a], g.points[here.b];
      Along01(a, b);
      Tracks.AlongAlong(a, b, here.offset / here.length, 1.0, extent / left);
      Further(here.offset, extent, here.length);
    }
  }

  lemma Further(offset: real, extent: real, length: real)
    requires 0.0 <= offset < length && 0.0 <= extent <= length - offset
    ensures Tracks.Part(offset / length, 1.0, extent / (length - offset)) == (offset + extent) / length
  {
    var f, s := offset / length, extent / (length - offset);
    assert f * length == offset && s * (length - offset) == extent;
    assert (1.0 - f) * length == length - offset;
    assert ((1.0 - f) * length) * s == extent;
    var r := f + (1.0 - f) * s;
    assert r * length == offset + ((1.0 - f) * s) * length;
    assert ((1.0 - f) * s) * length == ((1.0 - f) * length) * s;
    assert (r * length) / length == r;
  }

  /** Who is on a stretch is in its range. */
  lemma OnIs(m: Metric, g: Network, s: Stretch, x: Place)
    requires Tracks.Straight(m) && g.Valid(m.gap) && IsStretch(g, s) && InTunnels(g, x)
    ensures var r := SpanOf(s);
            On(s, x) <==> SameLeg(Place(r.a, r.b, r.length, r.from), x) && r.from <= x.To(r.a) <= r.until
  {
    PlaceHas(m, g, x);
    match s
    case FromHere(p, toward, extent) =>
      PlaceHas(m, g, p);
      if SameLeg(p, x) {
        SameLength(g, m.gap, p, x);
      }
    case FromJunction(node, to, length, extent) =>
  }

  /** The line comes as near to a point as some place on the stretch does. */
  lemma DrawnMeets(m: Metric, g: Network, s: Stretch, q: Point) returns (x: Place, d: real)
    requires Tracks.Straight(m) && g.Valid(m.gap) && IsStretch(g, s)
    ensures InTunnels(g, x) && On(s, x) && x.a < |g.points| && x.b < |g.points| && x.length > 0.0 && d == m.gap(PointOf(g, x), q)
    ensures InRange(g, s)
    ensures PathDistance(m, Drawn(m, g, s), q) == Some(d)
  {
    hide Tracks.Straight, Tracks.Along, PathDistance, Drawn;
    DrawnIs(m, g, s);
    var r := SpanOf(s);
    x := SpanMeets(m, g, r, q);
    d := m.gap(PointOf(g, x), q);
    OnIs(m, g, s, x);
    assert SameLeg(Place(r.a, r.b, r.length, r.from), x);
  }

  lemma SpanMeets(m: Metric, g: Network, r: Span, q: Point) returns (x: Place)
    requires Tracks.Straight(m) && IsSpan(g, r) && r.a < |g.points| && r.b < |g.points| && r.length > 0.0
    ensures InTunnels(g, x) && x.a == r.a && x.b == r.b && x.length == r.length && r.from <= x.offset <= r.until
    ensures PathDistance(m, [LegPoint(g, r.a, r.b, r.from / r.length), LegPoint(g, r.a, r.b, r.until / r.length)], q) == Some(m.gap(PointOf(g, x), q))
  {
    hide Tracks.Straight, Tracks.Along, PathDistance;
    var a, b := g.points[r.a], g.points[r.b];
    var fa, fb := r.from / r.length, r.until / r.length;
    LineDistance(m, Tracks.Along(a, b, fa), Tracks.Along(a, b, fb), q);
    var t := LineMeets(m, Tracks.Along(a, b, fa), Tracks.Along(a, b, fb), q);
    Tracks.AlongAlong(a, b, fa, fb, t);
    var offset := Fraction(r.from, r.until, r.length, t);
    x := Place(r.a, r.b, r.length, offset);
  }

  lemma Fraction(from: real, until: real, length: real, t: real) returns (offset: real)
    requires from <= until && length > 0.0 && 0.0 <= t <= 1.0
    ensures from <= offset <= until && offset / length == Tracks.Part(from / length, until / length, t)
  {
    var fa, fb := from / length, until / length;
    var f := Tracks.Part(fa, fb, t);
    offset := f * length;
    assert offset / length == f;
    assert fa * length == from && fb * length == until;
    assert ((fb - fa) * t) * length == (fb * length - fa * length) * t;
    assert offset == from + (until - from) * t;
    Tracks.NotNegative(until - from, t);
    Tracks.NotNegative(until - from, 1.0 - t);
    assert (until - from) * (1.0 - t) == (until - from) - (until - from) * t;
  }

  /** Two points' path comes as near as the line between them. */
  lemma LineDistance(m: Metric, a: Point, b: Point, q: Point)
    requires Tracks.Straight(m)
    ensures PathDistance(m, [a, b], q) == Some(m.segment(a, b, q))
  {
    assert [a, b][..1] == [a];
    assert Tracks.Along(a, b, 0.0) == a;
    assert m.segment(a, b, q) <= m.gap(Tracks.Along(a, b, 0.0), q);
  }

  lemma LineMeets(m: Metric, a: Point, b: Point, q: Point) returns (t: real)
    requires Tracks.Straight(m)
    ensures 0.0 <= t <= 1.0 && m.segment(a, b, q) == m.gap(Tracks.Along(a, b, t), q)
  {
    assert Tracks.Meets(m, a, b, q);
    t :| 0.0 <= t <= 1.0 && m.segment(a, b, q) == m.gap(Tracks.Along(a, b, t), q);
  }

  lemma LineWithin(m: Metric, a: Point, b: Point, q: Point, t: real)
    requires Tracks.Straight(m) && 0.0 <= t <= 1.0
    ensures m.segment(a, b, q) <= m.gap(Tracks.Along(a, b, t), q)
  {
  }

  /** And no place on the stretch is nearer. */
  lemma DrawnIsNearest(m: Metric, g: Network, s: Stretch, q: Point, x: Place)
    requires Tracks.Straight(m) && g.Valid(m.gap) && IsStretch(g, s) && InTunnels(g, x) && On(s, x)
    ensures x.a < |g.points| && x.b < |g.points| && x.length > 0.0
    ensures InRange(g, s)
    ensures PathDistance(m, Drawn(m, g, s), q).Some? && PathDistance(m, Drawn(m, g, s), q).value <= m.gap(PointOf(g, x), q)
  {
    hide Tracks.Straight, Tracks.Along, PathDistance, Drawn;
    DrawnIs(m, g, s);
    OnIs(m, g, s, x);
    PlaceHas(m, g, x);
    var r := SpanOf(s);
    PointOnLeg(m, g, Place(r.a, r.b, r.length, r.from), x);
    var a, b := g.points[r.a], g.points[r.b];
    var fa, fb, fx := r.from / r.length, r.until / r.length, x.To(r.a) / r.length;
    LineDistance(m, Tracks.Along(a, b, fa), Tracks.Along(a, b, fb), q);
    Ordered(r.from, x.To(r.a), r.until, r.length);
    Tracks.PartIs(fa, fb, fx);
    var t := if fa < fb then (fx - fa) / (fb - fa) else 0.0;
    Tracks.AlongAlong(a, b, fa, fb, t);
    LineWithin(m, Tracks.Along(a, b, fa), Tracks.Along(a, b, fb), q, t);
  }

  lemma Ordered(x: real, y: real, z: real, length: real)
    requires x <= y <= z && length > 0.0
    ensures x / length <= y / length <= z / length
  {
    var a, b, c := x / length, y / length, z / length;
    assert a * length == x && b * length == y && c * length == z;
  }
}
