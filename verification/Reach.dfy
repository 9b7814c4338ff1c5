/** The ground within a distance along the tunnels, proved exact both ways:
    internal/mineplan/reach.go. */
module Reach {
  import opened Basics
  import opened Observe
  import opened Tunnels
  import opened Routes

  // ---------- Places and ways between them ----------

  /** A place in the tunnels: so far along a leg from one of its ends. */
  datatype Place = Place(a: nat, b: nat, length: real, offset: real) {
    /** How far it is along the leg to one of its ends. */
    function To(end: nat): real { if end == a then offset else length - offset }

    function Offset(from: nat): real { To(from) }
  }

  ghost predicate InTunnels(g: Network, p: Place)
  {
    p.a < |g.edges| && p.b < |g.edges| && p.a != p.b && Edge(p.b, p.length) in g.edges[p.a] && 0.0 <= p.offset <= p.length
  }

  predicate SameLeg(p: Place, x: Place) { (p.a == x.a && p.b == x.b) || (p.a == x.b && p.b == x.a) }

  predicate EndOf(p: Place, n: nat) { n == p.a || n == p.b }

  /** A way of a given length between two places: along the leg they share, or out of one end of
      one leg, through the network, and in at one end of the other. */
  ghost predicate Way(g: Network, p: Place, x: Place, length: real)
  {
    || (SameLeg(p, x) && length == AbsReal(p.offset - x.Offset(p.a)))
    || exists out: nat, into: nat, hops: seq<Hop> :: WayBy(g, p, x, length, out, into, hops)
  }

  ghost predicate WayBy(g: Network, p: Place, x: Place, length: real, out: nat, into: nat, hops: seq<Hop>)
  {
    EndOf(p, out) && EndOf(x, into) && Walks(g, out, into, hops) && length == p.To(out) + Total(hops) + x.To(into)
  }

  // ---------- The ground within a distance ----------

  /** A stretch of tunnel: from a junction so far along a leg, or both ways from where one is. */
  datatype Stretch =
    | FromHere(here: Place, toward: nat, extent: real)
    | FromJunction(node: nat, to: nat, length: real, extent: real)

  /** A stretch there is: along a leg of the network, and no longer than it. */
  ghost predicate IsStretch(g: Network, s: Stretch)
  {
    match s
    case FromHere(p, toward, extent) => InTunnels(g, p) && EndOf(p, toward) && 0.0 <= extent <= p.To(toward)
    case FromJunction(node, to, length, extent) => node < |g.edges| && Edge(to, length) in g.edges[node] && 0.0 <= extent <= length
  }

  /** Whether a place is on a stretch. */
  ghost predicate On(s: Stretch, x: Place)
  {
    match s
    case FromHere(p, toward, extent) =>
      && SameLeg(p, x)
      && x.To(toward) <= p.To(toward) <= x.To(toward) + extent
    case FromJunction(node, to, length, extent) =>
      && ((x.a == node && x.b == to) || (x.b == node && x.a == to))
      && x.To(node) <= extent
  }

  ghost predicate Covered(ground: seq<Stretch>, x: Place) { exists k :: 0 <= k < |ground| && On(ground[k], x) }

  /** Somewhere to be found within a distance along the tunnels. */
  ghost predicate WithinReach(g: Network, p: Place, x: Place, within: real) { exists length :: Way(g, p, x, length) && length <= within }

  /** All the ground within a distance of a place, and no more. */
  ghost predicate IsGround(g: Network, p: Place, within: real, ground: seq<Stretch>)
  {
    forall x :: InTunnels(g, x) ==> (Covered(ground, x) <==> WithinReach(g, p, x, within))
  }

  /** The network measured once: the distance between every two junctions. */
  class Measured {
    const g: Network
    const gap: (Point, Point) -> real
    const distance: seq<seq<Option<real>>>

    ghost predicate Valid()
    {
      && g.Valid(gap) && |distance| == |g.points|
      && forall a: nat :: a < |distance| ==> Shortest(g, a, distance[a])
    }

    constructor (g: Network, gap: (Point, Point) -> real)
      requires g.Valid(gap)
      ensures Valid() && this.g == g && this.gap == gap
    {
      var all: seq<seq<Option<real>>> := [];
      while |all| < |g.points|
        invariant |all| <= |g.points| && forall a: nat :: a < |all| ==> Shortest(g, a, all[a])
      {
        var r, ways := RoutesFrom(g, gap, |all|);
        all := all + [r.distance];
      }
      this.g, this.gap, distance := g, gap, all;
    }

    /** Every stretch of tunnel within a distance of a place. */
    method Within(p: Place, within: real) returns (out: seq<Stretch>)
      requires Valid() && InTunnels(g, p) && within >= 0.0
      ensures IsGround(g, p, within, out)
      ensures forall s :: s in out ==> IsStretch(g, s)
    {
      hide On, EnteredAt, Covered, LegsFrom, Way, Shortest, IsStretch;
      var toA, toB := p.To(p.a), p.To(p.b);
      out := [FromHere(p, p.a, MinReal(within, toA)), FromHere(p, p.b, MinReal(within, toB))];
      ghost var here := out;
      MeasuredSizes(this, p);
      HereIsStretch(g, p, within);
      var node := 0;
      while node < |g.points|
        invariant 0 <= node <= |g.points|
        invariant forall x :: Covered(out, x) <==> Covered(here, x) || exists n: nat :: n < node && EnteredAt(g, distance, p, within, n, x)
        invariant forall s :: s in out ==> IsStretch(g, s)
      {
        var best := Least(Plus(toA, distance[p.a][node]), Plus(toB, distance[p.b][node]));
        ghost var before := out;
        if best.Some? && best.value <= within {
          LegsAreStretches(this, node, within - best.value);
          out := out + LegsFrom(node, within - best.value);
        }
        forall x ensures Covered(out, x) <==> Covered(before, x) || EnteredAt(g, distance, p, within, node, x) {
          LegsEnter(this, p, within, node, x);
          if best.Some? && best.value <= within {
            CoveredJoins(before, LegsFrom(node, within - best.value), x);
          }
        }
        node := node + 1;
      }
      forall x | InTunnels(g, x) ensures Covered(out, x) <==> WithinReach(g, p, x, within) {
        GroundIsExact(this, p, within, x);
      }
    }

    /** The stretches of the legs that leave a junction, as far as what is left. */
    function LegsFrom(node: nat, left: real): (r: seq<Stretch>)
      requires node < |g.edges|
    {
      seq(|g.edges[node]|, k requires 0 <= k < |g.edges[node]| =>
            FromJunction(node, g.edges[node][k].to, g.edges[node][k].length, MinReal(left, g.edges[node][k].length)))
    }
  }

  lemma HereIsStretch(g: Network, p: Place, within: real)
    requires InTunnels(g, p) && within >= 0.0
    ensures IsStretch(g, FromHere(p, p.a, MinReal(within, p.To(p.a)))) && IsStretch(g, FromHere(p, p.b, MinReal(within, p.To(p.b))))
  {
  }

  lemma LegsAreStretches(m: Measured, node: nat, left: real)
    requires m.Valid() && node < |m.g.points| && left >= 0.0
    ensures node < |m.g.edges| && forall s :: s in m.LegsFrom(node, left) ==> IsStretch(m.g, s)
  {
    forall s | s in m.LegsFrom(node, left) ensures IsStretch(m.g, s) {
      var k :| 0 <= k < |m.g.edges[node]| && s == m.LegsFrom(node, left)[k];
      assert m.g.LegOk(m.gap, node, m.g.edges[node][k]);
    }
  }

  function Plus(a: real, b: Option<real>): Option<real> { if b.None? then None else Some(a + b.value) }

  function Least(a: Option<real>, b: Option<real>): Option<real>
  {
    if a.None? then b else if b.None? then a else Some(MinReal(a.value, b.value))
  }

  /** How soon a junction is reached from a place. */
  function Reached(distance: seq<seq<Option<real>>>, p: Place, n: nat): Option<real>
    requires p.a < |distance| && p.b < |distance| && n < |distance[p.a]| && n < |distance[p.b]|
  {
    Least(Plus(p.To(p.a), distance[p.a][n]), Plus(p.To(p.b), distance[p.b][n]))
  }

  /** Whether a place is on a leg out of a junction, no farther than is left on reaching it. */
  ghost predicate EnteredAt(g: Network, distance: seq<seq<Option<real>>>, p: Place, within: real, n: nat, x: Place)
    requires p.a < |distance| && p.b < |distance| && n < |distance[p.a]| && n < |distance[p.b]| && n < |g.edges|
  {
    var best := Reached(distance, p, n);
    best.Some? && best.value <= within &&
    exists k :: 0 <= k < |g.edges[n]| &&
                On(FromJunction(n, g.edges[n][k].to, g.edges[n][k].length, MinReal(within - best.value, g.edges[n][k].length)), x)
  }

  lemma MeasuredSizes(m: Measured, p: Place)
    requires m.Valid() && InTunnels(m.g, p)
    ensures p.a < |m.distance| && p.b < |m.distance| && |m.distance[p.a]| == |m.distance[p.b]| == |m.g.points| == |m.g.edges|
  {
    assert Shortest(m.g, p.a, m.distance[p.a]) && Shortest(m.g, p.b, m.distance[p.b]);
  }

  lemma CoveredJoins(a: seq<Stretch>, b: seq<Stretch>, x: Place)
    ensures Covered(a + b, x) <==> Covered(a, x) || Covered(b, x)
  {
    hide On;
    if Covered(a, x) {
      var k :| 0 <= k < |a| && On(a[k], x);
      assert (a + b)[k] == a[k];
    }
    if Covered(b, x) {
      var k :| 0 <= k < |b| && On(b[k], x);
      assert (a + b)[|a| + k] == b[k];
    }
  }

  /** The legs a place can be entered by once a junction is counted. */
  lemma LegsEnter(m: Measured, p: Place, within: real, n: nat, x: Place)
    requires m.Valid() && InTunnels(m.g, p) && n < |m.g.points|
    ensures |m.distance[p.a]| == |m.distance[p.b]| == |m.g.points| == |m.g.edges|
    ensures var best := Reached(m.distance, p, n);
            EnteredAt(m.g, m.distance, p, within, n, x) <==>
            best.Some? && best.value <= within && Covered(m.LegsFrom(n, within - best.value), x)
  {
    hide On;
    assert Shortest(m.g, p.a, m.distance[p.a]) && Shortest(m.g, p.b, m.distance[p.b]);
    var best := Reached(m.distance, p, n);
    if best.Some? && best.value <= within {
      var legs := m.LegsFrom(n, within - best.value);
      assert forall k :: 0 <= k < |legs| ==>
        legs[k] == FromJunction(n, m.g.edges[n][k].to, m.g.edges[n][k].length, MinReal(within - best.value, m.g.edges[n][k].length));
    }
  }

  /** A leg is as long whichever way it is looked at. */
  lemma SameLength(g: Network, gap: (Point, Point) -> real, p: Place, x: Place)
    requires g.Valid(gap) && InTunnels(g, p) && InTunnels(g, x) && SameLeg(p, x)
    ensures p.length == x.length
  {
    LegIsOk(g, gap, p);
    LegIsOk(g, gap, x);
    var e := Edge(p.b, p.length);
    assert Edge(p.a, p.length) in g.edges[p.b];
    if p.a == x.b {
      var k :| 0 <= k < |g.edges[p.b]| && g.edges[p.b][k] == Edge(p.a, p.length);
      assert g.LegOk(gap, p.b, g.edges[p.b][k]);
    }
  }

  lemma LegIsOk(g: Network, gap: (Point, Point) -> real, p: Place)
    requires g.Valid(gap) && InTunnels(g, p)
    ensures p.a < |g.points| && p.b < |g.points| && p.length == gap(g.points[p.a], g.points[p.b]) && p.length > 0.0
    ensures Edge(p.a, p.length) in g.edges[p.b] && Edge(p.b, p.length) in g.edges[p.a]
  {
    var k :| 0 <= k < |g.edges[p.a]| && g.edges[p.a][k] == Edge(p.b, p.length);
    assert g.LegOk(gap, p.a, g.edges[p.a][k]);
  }

  /** What is ahead along one's own leg is what there is a direct way to. */
  lemma HereIsDirect(g: Network, gap: (Point, Point) -> real, p: Place, within: real, x: Place)
    requires g.Valid(gap) && InTunnels(g, p) && InTunnels(g, x) && within >= 0.0
    ensures var here := [FromHere(p, p.a, MinReal(within, p.To(p.a))), FromHere(p, p.b, MinReal(within, p.To(p.b)))];
            Covered(here, x) <==> SameLeg(p, x) && AbsReal(p.offset - x.Offset(p.a)) <= within
  {
    var here := [FromHere(p, p.a, MinReal(within, p.To(p.a))), FromHere(p, p.b, MinReal(within, p.To(p.b)))];
    if SameLeg(p, x) {
      SameLength(g, gap, p, x);
      assert x.To(p.b) == p.length - x.To(p.a);
      assert On(here[0], x) <==> x.To(p.a) <= p.To(p.a) <= x.To(p.a) + MinReal(within, p.To(p.a));
      assert On(here[1], x) <==> x.To(p.b) <= p.To(p.b) <= x.To(p.b) + MinReal(within, p.To(p.b));
    }
  }

  /** A leg entered is one there is a way to through the junction entered at. */
  lemma EnteredIsWay(m: Measured, p: Place, within: real, n: nat, x: Place) returns (length: real)
    requires m.Valid() && InTunnels(m.g, p) && InTunnels(m.g, x) && n < |m.g.points|
    requires |m.distance[p.a]| == |m.distance[p.b]| == |m.g.points| == |m.g.edges|
    requires EnteredAt(m.g, m.distance, p, within, n, x)
    ensures Way(m.g, p, x, length) && length <= within
  {
    var best := Reached(m.distance, p, n);
    assert Shortest(m.g, p.a, m.distance[p.a]) && Shortest(m.g, p.b, m.distance[p.b]);
    var out := if Plus(p.To(p.a), m.distance[p.a][n]) == best then p.a else p.b;
    assert Shortest(m.g, out, m.distance[out]) && m.distance[out][n].Some?;
    var hops :| Walks(m.g, out, n, hops) && Total(hops) == m.distance[out][n].value;
    length := p.To(out) + Total(hops) + x.To(n);
    assert WayBy(m.g, p, x, length, out, n, hops);
  }

  /** A way through a junction enters there. */
  lemma WayEnters(m: Measured, p: Place, within: real, x: Place, length: real, out: nat, into: nat, hops: seq<Hop>)
    requires m.Valid() && InTunnels(m.g, p) && InTunnels(m.g, x)
    requires |m.distance[p.a]| == |m.distance[p.b]| == |m.g.points| == |m.g.edges|
    requires WayBy(m.g, p, x, length, out, into, hops) && length <= within
    ensures into < |m.g.points| && EnteredAt(m.g, m.distance, p, within, into, x)
  {
    LegIsOk(m.g, m.gap, p);
    LegIsOk(m.g, m.gap, x);
    assert Shortest(m.g, out, m.distance[out]);
    assert m.distance[out][into].Some? && m.distance[out][into].value <= Total(hops);
    var best := Reached(m.distance, p, into);
    assert best.value <= p.To(out) + m.distance[out][into].value;
    var other := if into == x.a then x.b else x.a;
    var k :| 0 <= k < |m.g.edges[into]| && m.g.edges[into][k] == Edge(other, x.length);
    assert On(FromJunction(into, m.g.edges[into][k].to, m.g.edges[into][k].length, MinReal(within - best.value, m.g.edges[into][k].length)), x);
  }

  /** Ground along one's own leg, and ground entered at every junction, is exactly the ground
      there is a way to of no more than the distance. */
  lemma GroundIsExact(m: Measured, p: Place, within: real, x: Place)
    requires m.Valid() && InTunnels(m.g, p) && InTunnels(m.g, x) && within >= 0.0
    ensures |m.distance[p.a]| == |m.distance[p.b]| == |m.g.points| == |m.g.edges|
    ensures WithinReach(m.g, p, x, within) <==>
              || Covered([FromHere(p, p.a, MinReal(within, p.To(p.a))), FromHere(p, p.b, MinReal(within, p.To(p.b)))], x)
              || exists n: nat :: n < |m.g.points| && EnteredAt(m.g, m.distance, p, within, n, x)
  {
    assert Shortest(m.g, p.a, m.distance[p.a]) && Shortest(m.g, p.b, m.distance[p.b]);
    hide Covered, EnteredAt, WayBy, Shortest;
    HereIsDirect(m.g, m.gap, p, within, x);
    if length :| Way(m.g, p, x, length) && length <= within {
      if !(SameLeg(p, x) && length == AbsReal(p.offset - x.Offset(p.a))) {
        var out: nat, into: nat, hops :| WayBy(m.g, p, x, length, out, into, hops);
        WayEnters(m, p, within, x, length, out, into, hops);
      }
    }
    if n: nat :| n < |m.g.points| && EnteredAt(m.g, m.distance, p, within, n, x) {
      var length := EnteredIsWay(m, p, within, n, x);
    }
    if SameLeg(p, x) {
      assert Way(m.g, p, x, AbsReal(p.offset - x.Offset(p.a)));
    }
  }

  // ---------- Someone walking ----------

  lemma {:induction false} WalksJoin(g: Network, a: nat, b: nat, c: nat, first: seq<Hop>, second: seq<Hop>)
    requires Walks(g, a, b, first) && Walks(g, b, c, second)
    ensures Walks(g, a, c, first + second) && Total(first + second) == Total(first) + Total(second)
    decreases |second|
  {
    if second == [] {
      assert first + second == first;
    } else {
      var last, before := second[|second| - 1], second[..|second| - 1];
      WalksJoin(g, a, b, last.at, first, before);
      assert (first + second)[..|first + second| - 1] == first + before;
    }
  }

  /** From one end of a leg to the other. */
  lemma AlongLeg(g: Network, gap: (Point, Point) -> real, x: Place, s: nat, t: nat) returns (hops: seq<Hop>)
    requires g.Valid(gap) && InTunnels(g, x) && EndOf(x, s) && EndOf(x, t)
    ensures Walks(g, s, t, hops) && Total(hops) <= x.To(s) + x.To(t)
  {
    if s == t {
      return [];
    }
    LegIsOk(g, gap, x);
    var hop := Hop(s, t, x.length);
    assert IsHop(g, hop);
    assert [hop][..0] == [];
    return [hop];
  }

  /** Ways join: going on from a place is no farther than the two ways together. */
  lemma WaysJoin(g: Network, gap: (Point, Point) -> real, p: Place, x: Place, y: Place, s: real, t: real) returns (r: real)
    requires g.Valid(gap) && InTunnels(g, p) && InTunnels(g, x) && InTunnels(g, y)
    requires Way(g, p, x, s) && Way(g, x, y, t)
    ensures Way(g, p, y, r) && r <= s + t
  {
    var first, second := SameLeg(p, x) && s == AbsReal(p.offset - x.Offset(p.a)), SameLeg(x, y) && t == AbsReal(x.offset - y.Offset(x.a));
    if SameLeg(p, x) {
      SameLength(g, gap, p, x);
    }
    if SameLeg(x, y) {
      SameLength(g, gap, x, y);
    }
    if first && second {
      r := AbsReal(p.offset - y.Offset(p.a));
    } else if first {
      var out: nat, into: nat, hops :| WayBy(g, x, y, t, out, into, hops);
      r := p.To(out) + Total(hops) + y.To(into);
      assert WayBy(g, p, y, r, out, into, hops);
    } else if second {
      var out: nat, into: nat, hops :| WayBy(g, p, x, s, out, into, hops);
      r := p.To(out) + Total(hops) + y.To(into);
      assert WayBy(g, p, y, r, out, into, hops);
    } else {
      r := ThroughJoin(g, gap, p, x, y, s, t);
    }
  }

  lemma ThroughJoin(g: Network, gap: (Point, Point) -> real, p: Place, x: Place, y: Place, s: real, t: real) returns (r: real)
    requires g.Valid(gap) && InTunnels(g, p) && InTunnels(g, x) && InTunnels(g, y)
    requires exists out: nat, into: nat, hops: seq<Hop> :: WayBy(g, p, x, s, out, into, hops)
    requires exists out: nat, into: nat, hops: seq<Hop> :: WayBy(g, x, y, t, out, into, hops)
    ensures Way(g, p, y, r) && r <= s + t
  {
    var out1: nat, into1: nat, hops1 :| WayBy(g, p, x, s, out1, into1, hops1);
    var out2: nat, into2: nat, hops2 :| WayBy(g, x, y, t, out2, into2, hops2);
    var across := AlongLeg(g, gap, x, into1, out2);
    WalksJoin(g, out1, into1, out2, hops1, across);
    WalksJoin(g, out1, out2, into2, hops1 + across, hops2);
    var hops := hops1 + across + hops2;
    r := p.To(out1) + Total(hops) + y.To(into2);
    assert WayBy(g, p, y, r, out1, into2, hops);
  }

  /** Where someone is, and when. */
  datatype Fix = Fix(at: Place, when: real)

  /** Someone going along the tunnels no faster than a speed. */
  ghost predicate Walking(g: Network, fixes: seq<Fix>, speed: real)
  {
    && (forall i :: 0 <= i < |fixes| ==> InTunnels(g, fixes[i].at))
    && (forall i :: 0 < i < |fixes| ==>
          fixes[i - 1].when <= fixes[i].when && WithinReach(g, fixes[i - 1].at, fixes[i].at, speed * (fixes[i].when - fixes[i - 1].when)))
  }

  /** However someone goes, they are within their speed times the time taken of where they began. */
  lemma {:induction false} NoFartherThan(g: Network, gap: (Point, Point) -> real, fixes: seq<Fix>, speed: real, n: nat)
    requires g.Valid(gap) && Walking(g, fixes, speed) && n < |fixes|
    ensures WithinReach(g, fixes[0].at, fixes[n].at, speed * (fixes[n].when - fixes[0].when))
  {
    hide WayBy, Network.Valid;
    var p := fixes[0].at;
    if n == 0 {
      assert Way(g, p, p, 0.0);
    } else {
      NoFartherThan(g, gap, fixes, speed, n - 1);
      var x, y := fixes[n - 1].at, fixes[n].at;
      var so, step := speed * (fixes[n - 1].when - fixes[0].when), speed * (fixes[n].when - fixes[n - 1].when);
      var s :| Way(g, p, x, s) && s <= so;
      var t :| Way(g, x, y, t) && t <= step;
      var r := WaysJoin(g, gap, p, x, y, s, t);
      assert so + step == speed * (fixes[n].when - fixes[0].when);
    }
  }

  /** So a walker stays on the ground they were given: at every moment of a lookahead they are
      on it, wherever along the tunnels they went. */
  lemma WalkerStaysOnGround(g: Network, gap: (Point, Point) -> real, fixes: seq<Fix>, speed: real, lookahead: real, ground: seq<Stretch>, n: nat)
    requires g.Valid(gap) && Walking(g, fixes, speed) && speed >= 0.0 && n < |fixes|
    requires IsGround(g, fixes[0].at, speed * lookahead, ground)
    requires fixes[n].when - fixes[0].when <= lookahead
    ensures Covered(ground, fixes[n].at)
  {
    hide Covered, Way;
    NoFartherThan(g, gap, fixes, speed, n);
    var taken := fixes[n].when - fixes[0].when;
    assert speed * taken <= speed * lookahead;
    var length :| Way(g, fixes[0].at, fixes[n].at, length) && length <= speed * taken;
    assert WithinReach(g, fixes[0].at, fixes[n].at, speed * lookahead);
    assert InTunnels(g, fixes[n].at);
  }

  // ---------- Where a point is taken to be ----------

  /** Where on a leg is nearest to a point, and how near it comes. */
  datatype Closest = Closest(distance: real, offset: real)

  /** Leg k of junction u, met from the lower of its ends. */
  predicate Met(g: Network, u: nat, k: nat) { u < |g.edges| && k < |g.edges[u]| && g.edges[u][k].to >= u }

  /** Met before leg j of junction node. */
  predicate MetBefore(u: nat, k: nat, node: nat, j: nat) { u < node || (u == node && k < j) }

  /** A place is the nearest on leg n of junction v, no leg met by then comes nearer, and those met
      before it are farther. */
  ghost predicate NearestSoFar(g: Network, close: (nat, nat) -> Closest, node: nat, j: nat, place: Place, v: nat, n: nat)
  {
    && Met(g, v, n) && MetBefore(v, n, node, j)
    && place == Place(v, g.edges[v][n].to, g.edges[v][n].length, close(v, g.edges[v][n].to).offset)
    && forall u: nat, k: nat :: Met(g, u, k) && MetBefore(u, k, node, j) ==>
                                  var other := close(u, g.edges[u][k].to).distance;
                                  close(place.a, place.b).distance <= other && (MetBefore(u, k, v, n) ==> close(place.a, place.b).distance < other)
  }

  /** What the search has come to by leg j of junction node. */
  ghost predicate Found(g: Network, close: (nat, nat) -> Closest, node: nat, j: nat, place: Option<Place>)
  {
    match place
    case None => forall u: nat, k: nat :: Met(g, u, k) ==> !MetBefore(u, k, node, j)
    case Some(here) => exists v: nat, n: nat :: NearestSoFar(g, close, node, j, here, v, n)
  }

  /** The nearer of what was found and a place on a leg. */
  function NearerLeg(close: (nat, nat) -> Closest, place: Option<Place>, node: nat, e: Edge): Option<Place>
  {
    if e.to >= node && (place.None? || close(node, e.to).distance < close(place.value.a, place.value.b).distance)
    then Some(Place(node, e.to, e.length, close(node, e.to).offset)) else place
  }

  lemma FoundNext(g: Network, close: (nat, nat) -> Closest, node: nat, j: nat, place: Option<Place>)
    requires node < |g.edges| && j < |g.edges[node]| && Found(g, close, node, j, place)
    ensures Found(g, close, node, j + 1, NearerLeg(close, place, node, g.edges[node][j]))
  {
    var e := g.edges[node][j];
    MetNext(node, j);
    hide MetBefore;
    if place.Some? {
      var v: nat, n: nat :| NearestSoFar(g, close, node, j, place.value, v, n);
      if e.to >= node && close(node, e.to).distance < close(place.value.a, place.value.b).distance {
        assert NearestSoFar(g, close, node, j + 1, Place(node, e.to, e.length, close(node, e.to).offset), node, j);
      } else {
        assert NearestSoFar(g, close, node, j + 1, place.value, v, n);
      }
    } else if e.to >= node {
      assert NearestSoFar(g, close, node, j + 1, Place(node, e.to, e.length, close(node, e.to).offset), node, j);
    }
  }

  lemma MetNext(node: nat, j: nat)
    ensures forall u: nat, k: nat {:trigger MetBefore(u, k, node, j + 1)} {:trigger MetBefore(u, k, node, j)} ::
              (MetBefore(u, k, node, j + 1) <==> MetBefore(u, k, node, j) || (u == node && k == j)) &&
              (MetBefore(u, k, node, j) ==> !MetBefore(node, j, u, k))
  {
  }

  lemma FoundRow(g: Network, close: (nat, nat) -> Closest, node: nat, place: Option<Place>)
    requires node < |g.edges| && Found(g, close, node, |g.edges[node]|, place)
    ensures Found(g, close, node + 1, 0, place)
  {
    assert forall u: nat, k: nat :: Met(g, u, k) ==> (MetBefore(u, k, node + 1, 0) <==> MetBefore(u, k, node, |g.edges[node]|));
    if place.Some? {
      var v: nat, n: nat :| NearestSoFar(g, close, node, |g.edges[node]|, place.value, v, n);
      assert NearestSoFar(g, close, node + 1, 0, place.value, v, n);
    }
  }

  /** What a point is taken to be: the nearest place of a leg, if there are any. */
  ghost predicate TakenFor(g: Network, close: (nat, nat) -> Closest, place: Option<Place>)
  {
    match place
    case None => forall u: nat, k: nat :: !Met(g, u, k)
    case Some(here) => InTunnels(g, here) && exists v: nat, n: nat :: NearestSoFar(g, close, |g.edges|, 0, here, v, n)
  }

  /** A point is taken to be in one place. */
  lemma TakenForOne(g: Network, close: (nat, nat) -> Closest, a: Option<Place>, b: Option<Place>)
    requires TakenFor(g, close, a) && TakenFor(g, close, b)
    ensures a == b
  {
    if a.Some? && b.Some? {
      var v: nat, n: nat :| NearestSoFar(g, close, |g.edges|, 0, a.value, v, n);
      var u: nat, k: nat :| NearestSoFar(g, close, |g.edges|, 0, b.value, u, k);
      assert MetBefore(u, k, v, n) || MetBefore(v, n, u, k) || (u == v && k == n);
    }
  }

  /** The leg nearest a point, the first met on a tie, and the place on it nearest. */
  method NearestLeg(g: Network, gap: (Point, Point) -> real, close: (nat, nat) -> Closest) returns (place: Option<Place>)
    requires g.Valid(gap)
    requires forall u, k :: 0 <= u < |g.edges| && 0 <= k < |g.edges[u]| ==> 0.0 <= close(u, g.edges[u][k].to).offset <= g.edges[u][k].length
    ensures TakenFor(g, close, place)
  {
    hide Found;
    place := None;
    var node := 0;
    NothingFound(g, close);
    while node < |g.edges|
      invariant 0 <= node <= |g.edges|
      invariant Found(g, close, node, 0, place) && (place.Some? ==> InTunnels(g, place.value))
    {
      var j := 0;
      while j < |g.edges[node]|
        invariant 0 <= j <= |g.edges[node]|
        invariant Found(g, close, node, j, place) && (place.Some? ==> InTunnels(g, place.value))
      {
        var e := g.edges[node][j];
        assert g.LegOk(gap, node, e);
        FoundNext(g, close, node, j, place);
        if e.to >= node {
          var here := close(node, e.to);
          if place.None? || here.distance < close(place.value.a, place.value.b).distance {
            place := Some(Place(node, e.to, e.length, here.offset));
          }
        }
        j := j + 1;
      }
      FoundRow(g, close, node, place);
      node := node + 1;
    }
    FoundAll(g, close, place);
  }

  lemma NothingFound(g: Network, close: (nat, nat) -> Closest)
    ensures Found(g, close, 0, 0, None)
  {
  }

  lemma FoundAll(g: Network, close: (nat, nat) -> Closest, place: Option<Place>)
    requires Found(g, close, |g.edges|, 0, place)
    ensures place.None? <==> forall u: nat, k: nat :: !Met(g, u, k)
    ensures place.Some? ==> exists v: nat, n: nat :: NearestSoFar(g, close, |g.edges|, 0, place.value, v, n)
  {
    assert forall u: nat, k: nat :: Met(g, u, k) ==> MetBefore(u, k, |g.edges|, 0);
  }

  /** There is no nearest leg only if there are no legs at all. */
  lemma NoLegAtAll(g: Network, gap: (Point, Point) -> real)
    requires g.Valid(gap) && forall u: nat, k: nat :: !Met(g, u, k)
    ensures forall u: nat :: u < |g.edges| ==> g.edges[u] == []
  {
    forall u: nat | u < |g.edges| ensures g.edges[u] == [] {
      if g.edges[u] != [] {
        var e := g.edges[u][0];
        assert g.LegOk(gap, u, e) && !Met(g, u, 0);
        var k :| 0 <= k < |g.edges[e.to]| && g.edges[e.to][k] == Edge(u, e.length);
        assert Met(g, e.to, k);
      }
    }
  }
}
