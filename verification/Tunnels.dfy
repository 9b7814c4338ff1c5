/** Junctions and the legs between them, made from tunnels:
    internal/mineplan/graph.go. A point is its own key: points are the same junction exactly
    when they are equal. */
module Tunnels {
  import opened Basics
  import opened Observe

  // ---------- The network ----------

  datatype Edge = Edge(to: nat, length: real)

  datatype Network = Network(points: seq<Point>, edges: seq<seq<Edge>>) {
    function Size(): nat { |points| }

    /** Legs run between different junctions, as far as they are apart, and both ways. */
    ghost predicate Valid(gap: (Point, Point) -> real)
    {
      && |edges| == |points|
      && (forall u, k :: 0 <= u < |edges| && 0 <= k < |edges[u]| ==> LegOk(gap, u, edges[u][k]))
    }

    ghost predicate LegOk(gap: (Point, Point) -> real, u: nat, e: Edge)
      requires |edges| == |points| && u < |points|
    {
      && e.to < |points| && e.to != u && e.length == gap(points[u], points[e.to]) && e.length > 0.0
      && Edge(u, e.length) in edges[e.to]
    }
  }

  /** Distance between points: the same both ways, and nothing only from a point to itself. */
  ghost predicate Separates(gap: (Point, Point) -> real)
  {
    forall p, q :: gap(p, q) == gap(q, p) && (p != q ==> gap(p, q) > 0.0)
  }

  /** The network being built: each new point takes the next number. */
  class Builder {
    const gap: (Point, Point) -> real
    var points: seq<Point>
    var index: map<Point, nat>
    var edges: seq<seq<Edge>>

    function View(): Network
      reads this
    {
      Network(points, edges)
    }

    ghost predicate Valid()
      reads this
    {
      && View().Valid(gap)
      && (forall i :: 0 <= i < |points| ==> points[i] in index && index[points[i]] == i)
      && (forall p :: p in index ==> index[p] < |points| && points[index[p]] == p)
    }

    constructor (gap: (Point, Point) -> real)
      ensures Valid() && this.gap == gap && View() == Network([], []) && index == map[]
    {
      this.gap := gap;
      points, index, edges := [], map[], [];
    }

    /** The number of a point, given one if it has none. */
    method Node(p: Point) returns (i: nat)
      requires Valid()
      modifies this
      ensures Valid() && i < |points| && points[i] == p
      ensures old(points) <= points && forall q :: q in index <==> q in old(index) || q == p
      ensures edges == old(edges) + seq(|points| - |old(points)|, _ => [])
      ensures forall q :: q in old(index) ==> index[q] == old(index)[q]
    {
      if p in index {
        return index[p];
      }
      index := index[p := |points|];
      points, edges := points + [p], edges + [[]];
      return |points| - 1;
    }

    /** A leg between two points put in, both ways. */
    method Leg(p: Point, q: Point)
      requires Valid() && Separates(gap)
      modifies this
      ensures Valid()
      ensures forall x :: x in index <==> x in old(index) || x == p || x == q
      ensures forall x, y :: Joined(View(), x, y) <==> old(Joined(View(), x, y)) || (p != q && ((x == p && y == q) || (x == q && y == p)))
    {
      ghost var before := View();
      var a := Node(p);
      var b := Node(q);
      ghost var grown := View();
      assert forall x, y :: Joined(grown, x, y) <==> Joined(before, x, y) by {
        GrownJoins(gap, before, grown);
      }
      if a == b {
        return;
      }
      var d := gap(p, q);
      edges := edges[a := edges[a] + [Edge(b, d)]];
      edges := edges[b := edges[b] + [Edge(a, d)]];
      LegJoins(gap, grown, a, b, View());
    }
  }

  ghost predicate JoinedBy(g: Network, u: nat, k: nat, x: Point, y: Point)
  {
    && u < |g.edges| && k < |g.edges[u]| && u < |g.points| && g.edges[u][k].to < |g.points|
    && g.points[u] == x && g.points[g.edges[u][k].to] == y
  }

  /** Two points joined by a leg. */
  ghost predicate Joined(g: Network, x: Point, y: Point) { exists u: nat, k: nat :: JoinedBy(g, u, k, x, y) }

  lemma GrownJoins(gap: (Point, Point) -> real, a: Network, b: Network)
    requires a.Valid(gap) && b.Valid(gap) && a.points <= b.points
    requires b.edges == a.edges + seq(|b.points| - |a.points|, _ => [])
    ensures forall x, y :: Joined(b, x, y) <==> Joined(a, x, y)
  {
    forall x, y, u: nat, k: nat ensures JoinedBy(b, u, k, x, y) <==> JoinedBy(a, u, k, x, y) {
      if u < |a.edges| && k < |a.edges[u]| {
        assert a.LegOk(gap, u, a.edges[u][k]);
      }
    }
  }

  lemma LegJoins(gap: (Point, Point) -> real, g: Network, a: nat, b: nat, r: Network)
    requires g.Valid(gap) && Separates(gap) && a < |g.points| && b < |g.points| && a != b && g.points[a] != g.points[b]
    requires r == Network(g.points, g.edges[a := g.edges[a] + [Edge(b, gap(g.points[a], g.points[b]))]]
                                           [b := g.edges[b] + [Edge(a, gap(g.points[a], g.points[b]))]])
    ensures r.Valid(gap)
    ensures var p, q := g.points[a], g.points[b];
            forall x, y :: Joined(r, x, y) <==> Joined(g, x, y) || (x == p && y == q) || (x == q && y == p)
  {
    var p, q := g.points[a], g.points[b];
    forall u, k | 0 <= u < |r.edges| && 0 <= k < |r.edges[u]| ensures r.LegOk(gap, u, r.edges[u][k]) {
      LegStays(gap, g, a, b, r, u, k);
    }
    forall x, y, u: nat, k: nat ensures JoinedBy(g, u, k, x, y) ==> JoinedBy(r, u, k, x, y) {}
    forall x, y, u: nat, k: nat | JoinedBy(r, u, k, x, y) ensures Joined(g, x, y) || (x == p && y == q) || (x == q && y == p) {
      assert k < |g.edges[u]| ==> JoinedBy(g, u, k, x, y);
    }
    assert JoinedBy(r, a, |g.edges[a]|, p, q) && JoinedBy(r, b, |g.edges[b]|, q, p);
  }

  lemma LegStays(gap: (Point, Point) -> real, g: Network, a: nat, b: nat, r: Network, u: nat, k: nat)
    requires g.Valid(gap) && Separates(gap) && a < |g.points| && b < |g.points| && a != b && g.points[a] != g.points[b]
    requires r == Network(g.points, g.edges[a := g.edges[a] + [Edge(b, gap(g.points[a], g.points[b]))]]
                                           [b := g.edges[b] + [Edge(a, gap(g.points[a], g.points[b]))]])
    requires u < |r.edges| && k < |r.edges[u]|
    ensures r.LegOk(gap, u, r.edges[u][k])
  {
    var d := gap(g.points[a], g.points[b]);
    assert r.edges[a][|g.edges[a]|] == Edge(b, d) && r.edges[b][|g.edges[b]|] == Edge(a, d);
    assert Edge(b, d) in r.edges[a] && Edge(a, d) in r.edges[b];
    if k < |g.edges[u]| {
      var e := g.edges[u][k];
      assert r.edges[u][k] == e && g.LegOk(gap, u, e);
      var l :| 0 <= l < |g.edges[e.to]| && g.edges[e.to][l] == Edge(u, e.length);
      assert r.edges[e.to][l] == Edge(u, e.length);
    }
  }

  datatype Tunnel = Tunnel(path: seq<Point>, shaft: bool)

  /** The network of the tunnels allowed: a junction for each point of theirs, and a leg between
      two different points exactly when some allowed tunnel runs straight between them. */
  method NewNetwork(tunnels: seq<Tunnel>, allow: Tunnel -> bool, gap: (Point, Point) -> real) returns (g: Network)
    requires Separates(gap)
    ensures g.Valid(gap)
    ensures forall i, j :: 0 <= i < j < |g.points| ==> g.points[i] != g.points[j]
    ensures forall x, y :: Joined(g, x, y) <==> x != y && exists t, i :: LegOf(tunnels, allow, t, i, x, y)
  {
    hide Joined;
    var builder := new Builder(gap);
    NothingJoined(builder.View());
    var t := 0;
    while t < |tunnels|
      invariant 0 <= t <= |tunnels| && fresh(builder) && builder.Valid() && builder.gap == gap
      invariant forall x, y :: Joined(builder.View(), x, y) <==> x != y && Reached(tunnels, allow, t, 1, x, y)
    {
      if allow(tunnels[t]) {
        var path := tunnels[t].path;
        var i := 1;
        while i < |path|
          invariant 1 <= i && (i <= |path| || |path| == 0) && builder.Valid() && builder.gap == gap
          invariant forall x, y :: Joined(builder.View(), x, y) <==> x != y && Reached(tunnels, allow, t, i, x, y)
        {
          builder.Leg(path[i - 1], path[i]);
          forall x, y ensures Reached(tunnels, allow, t, i + 1, x, y) <==>
                              Reached(tunnels, allow, t, i, x, y) || LegOf(tunnels, allow, t, i, x, y)
          {
            ReachedNext(tunnels, allow, t, i, x, y);
          }
          i := i + 1;
        }
        forall x, y ensures Reached(tunnels, allow, t + 1, 1, x, y) <==> Reached(tunnels, allow, t, i, x, y) {
          ReachedTunnel(tunnels, allow, t, i, x, y);
        }
      } else {
        forall x, y ensures Reached(tunnels, allow, t + 1, 1, x, y) <==> Reached(tunnels, allow, t, 1, x, y) {
          ReachedTunnel(tunnels, allow, t, 1, x, y);
        }
      }
      t := t + 1;
    }
    g := builder.View();
    forall x, y ensures Reached(tunnels, allow, t, 1, x, y) <==> exists s, i :: LegOf(tunnels, allow, s, i, x, y) {
      if s, i :| LegOf(tunnels, allow, s, i, x, y) {
        assert Reached(tunnels, allow, t, 1, x, y);
      }
    }
  }

  /** Joined by one of the stretches met so far: those before stretch i of tunnel t. */
  ghost predicate Reached(tunnels: seq<Tunnel>, allow: Tunnel -> bool, t: int, i: int, x: Point, y: Point)
  {
    exists s, n :: LegOf(tunnels, allow, s, n, x, y) && (s < t || (s == t && n < i))
  }

  lemma ReachedNext(tunnels: seq<Tunnel>, allow: Tunnel -> bool, t: int, i: int, x: Point, y: Point)
    ensures Reached(tunnels, allow, t, i + 1, x, y) <==> Reached(tunnels, allow, t, i, x, y) || LegOf(tunnels, allow, t, i, x, y)
  {
  }

  lemma ReachedTunnel(tunnels: seq<Tunnel>, allow: Tunnel -> bool, t: int, i: int, x: Point, y: Point)
    requires 0 <= t < |tunnels| && i >= 1 && (allow(tunnels[t]) ==> i >= |tunnels[t].path|)
    ensures Reached(tunnels, allow, t + 1, 1, x, y) <==> Reached(tunnels, allow, t, i, x, y)
  {
  }

  lemma NothingJoined(g: Network)
    requires g == Network([], [])
    ensures forall x, y :: !Joined(g, x, y)
  {
  }

  /** x and y are the ends of a stretch of an allowed tunnel, one way round or the other. */
  ghost predicate LegOf(tunnels: seq<Tunnel>, allow: Tunnel -> bool, t: int, i: int, x: Point, y: Point)
  {
    && 0 <= t < |tunnels| && allow(tunnels[t]) && 1 <= i < |tunnels[t].path|
    && ((x == tunnels[t].path[i - 1] && y == tunnels[t].path[i]) || (x == tunnels[t].path[i] && y == tunnels[t].path[i - 1]))
  }
}
