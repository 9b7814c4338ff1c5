/** The shortest ways out of one junction: internal/mineplan/graph.go:112-168. */
module Routes {
  import opened Basics
  import opened Observe
  import opened Tunnels

  // ---------- Ways through the network ----------

  /** One leg travelled. */
  datatype Hop = Hop(at: nat, to: nat, length: real)

  ghost predicate IsHop(g: Network, h: Hop)
  {
    h.at < |g.edges| && Edge(h.to, h.length) in g.edges[h.at]
  }

  /** Legs travelled one after the other from one junction to another. */
  ghost predicate Walks(g: Network, from: nat, to: nat, hops: seq<Hop>)
    decreases |hops|
  {
    if hops == [] then from == to
    else
      var last := hops[|hops| - 1];
      last.to == to && IsHop(g, last) && Walks(g, from, last.at, hops[..|hops| - 1])
  }

  function Total(hops: seq<Hop>): real
  {
    if hops == [] then 0.0 else Total(hops[..|hops| - 1]) + hops[|hops| - 1].length
  }

  /** The junctions a way passes through, in order. */
  function Through(from: nat, hops: seq<Hop>): seq<nat>
  {
    if hops == [] then [from] else Through(from, hops[..|hops| - 1]) + [hops[|hops| - 1].to]
  }

  /** A distance to every junction: None where there is no way, and otherwise the length of a
      way that no way is shorter than. */
  ghost predicate Shortest(g: Network, from: nat, distance: seq<Option<real>>)
  {
    && |distance| == |g.points|
    && (forall i: nat :: i < |distance| && distance[i].Some? ==> exists hops :: Walks(g, from, i, hops) && Total(hops) == distance[i].value)
    && (forall i: nat, hops :: i < |distance| && Walks(g, from, i, hops) ==> distance[i].Some? && distance[i].value <= Total(hops))
  }

  // ---------- Searching ----------

  /** A search so far: for each junction met, a way to it, one leg on from the way to the
      junction before it on it. What is settled is no farther than anything else met, and every
      leg out of it has been looked along, but for those of the current one from its j-th on. */
  ghost predicate Searching(g: Network, from: nat, distance: seq<Option<real>>, previous: seq<int>, done: seq<bool>, ways: seq<seq<Hop>>,
                            current: int, j: nat)
  {
    && |distance| == |previous| == |done| == |ways| == |g.points| == |g.edges| && from < |g.points|
    && distance[from] == Some(0.0) && previous[from] == -1 && ways[from] == []
    && (forall i: nat :: i < |distance| ==> Met(g, from, distance, previous, done, ways, i))
    && (forall u: nat, v: nat :: u < |done| && v < |done| && done[u] && !done[v] && distance[v].Some? && distance[u].Some? ==>
          distance[u].value <= distance[v].value)
    && (forall u: nat, k: nat :: u < |done| && done[u] && k < |g.edges[u]| && (u == current ==> k < j) ==> Looked(g, distance, u, g.edges[u][k]))
  }

  ghost predicate Met(g: Network, from: nat, distance: seq<Option<real>>, previous: seq<int>, done: seq<bool>, ways: seq<seq<Hop>>, i: nat)
    requires |distance| == |previous| == |done| == |ways| == |g.points| && i < |distance|
  {
    && (done[i] ==> distance[i].Some?)
    && (distance[i].Some? ==> Walks(g, from, i, ways[i]) && Total(ways[i]) == distance[i].value && distance[i].value >= 0.0)
    && (distance[i].Some? && i != from ==>
          && 0 <= previous[i] < |distance| && done[previous[i]]
          && ways[i] != [] && ways[i][..|ways[i]| - 1] == ways[previous[i]]
          && ways[i][|ways[i]| - 1].at == previous[i])
  }

  ghost predicate Looked(g: Network, distance: seq<Option<real>>, u: nat, e: Edge)
    requires u < |distance|
  {
    distance[u].Some? ==> e.to < |distance| && distance[e.to].Some? && distance[e.to].value <= distance[u].value + e.length
  }

  /** When nothing met is unsettled, nothing is nearer than it was found to be. */
  lemma {:induction false} SettledIsShortest(g: Network, from: nat, distance: seq<Option<real>>, previous: seq<int>, done: seq<bool>,
                                             ways: seq<seq<Hop>>, to: nat, hops: seq<Hop>)
    requires Searching(g, from, distance, previous, done, ways, -1, 0)
    requires forall i: nat :: i < |distance| && distance[i].Some? ==> done[i]
    requires Walks(g, from, to, hops)
    ensures to < |distance| && distance[to].Some? && distance[to].value <= Total(hops)
    decreases |hops|
  {
    if hops != [] {
      var last := hops[|hops| - 1];
      SettledIsShortest(g, from, distance, previous, done, ways, last.at, hops[..|hops| - 1]);
      var k :| 0 <= k < |g.edges[last.at]| && g.edges[last.at][k] == Edge(last.to, last.length);
      assert Looked(g, distance, last.at, g.edges[last.at][k]);
    }
  }

  /** The nearest junction met and not settled, the lowest of them on a tie. */
  method NearestUnsettled(distance: array<Option<real>>, done: array<bool>) returns (current: int)
    requires distance.Length == done.Length
    ensures -1 <= current < distance.Length
    ensures current == -1 ==> forall i :: 0 <= i < distance.Length ==> done[i] || distance[i].None?
    ensures current >= 0 ==> !done[current] && distance[current].Some?
    ensures current >= 0 ==> forall i :: 0 <= i < distance.Length && !done[i] && distance[i].Some? ==>
                                           distance[current].value <= distance[i].value && (i < current ==> distance[current].value < distance[i].value)
  {
    current := -1;
    for i := 0 to distance.Length
      invariant -1 <= current < i
      invariant current == -1 ==> forall j :: 0 <= j < i ==> done[j] || distance[j].None?
      invariant current >= 0 ==> !done[current] && distance[current].Some?
      invariant current >= 0 ==> forall j :: 0 <= j < i && !done[j] && distance[j].Some? ==>
                                   distance[current].value <= distance[j].value && (j < current ==> distance[current].value < distance[j].value)
    {
      if !done[i] && distance[i].Some? && (current < 0 || distance[i].value < distance[current].value) {
        current := i;
      }
    }
  }

  /** The legs of a junction being settled: it is no farther than anything unsettled, and no
      nearer than anything settled. */
  ghost predicate Current(distance: seq<Option<real>>, done: seq<bool>, current: nat)
  {
    && |distance| == |done| && current < |done| && done[current] && distance[current].Some?
    && (forall u: nat :: u < |done| && done[u] && distance[u].Some? ==> distance[u].value <= distance[current].value)
    && (forall v: nat :: v < |done| && !done[v] && distance[v].Some? ==> distance[current].value <= distance[v].value)
  }

  /** A junction taken up to be settled. */
  lemma TakeUp(g: Network, from: nat, distance: seq<Option<real>>, previous: seq<int>, done: seq<bool>, ways: seq<seq<Hop>>, current: nat)
    requires Searching(g, from, distance, previous, done, ways, -1, 0)
    requires current < |done| && !done[current] && distance[current].Some?
    requires forall i :: 0 <= i < |distance| && !done[i] && distance[i].Some? ==> distance[current].value <= distance[i].value
    ensures Searching(g, from, distance, previous, done[current := true], ways, current, 0)
    ensures Current(distance, done[current := true], current)
  {
    var done' := done[current := true];
    forall i: nat | i < |distance| ensures Met(g, from, distance, previous, done', ways, i) {
      assert Met(g, from, distance, previous, done, ways, i);
    }
  }

  /** A leg that leads nowhere nearer changes nothing. */
  lemma LookAlong(g: Network, from: nat, distance: seq<Option<real>>, previous: seq<int>, done: seq<bool>, ways: seq<seq<Hop>>, current: nat, j: nat)
    requires Searching(g, from, distance, previous, done, ways, current, j) && Current(distance, done, current) && j < |g.edges[current]|
    requires var e := g.edges[current][j];
             e.to < |distance| && distance[e.to].Some? && distance[e.to].value <= distance[current].value + e.length
    ensures Searching(g, from, distance, previous, done, ways, current, j + 1)
  {
    forall u: nat, k: nat | u < |done| && done[u] && k < |g.edges[u]| && (u == current ==> k < j + 1)
      ensures Looked(g, distance, u, g.edges[u][k])
    {
    }
  }

  /** A leg that leads somewhere nearer than it was: that is not settled, and is now met by way
      of the junction being settled. */
  lemma StepAlong(g: Network, gap: (Point, Point) -> real, from: nat, distance: seq<Option<real>>, previous: seq<int>, done: seq<bool>,
                  ways: seq<seq<Hop>>, current: nat, j: nat)
    requires g.Valid(gap) && Searching(g, from, distance, previous, done, ways, current, j) && Current(distance, done, current)
    requires j < |g.edges[current]|
    requires var e := g.edges[current][j];
             e.to < |distance| && (distance[e.to].None? || distance[current].value + e.length < distance[e.to].value)
    ensures var e := g.edges[current][j];
            var d := Some(distance[current].value + e.length);
            && Searching(g, from, distance[e.to := d], previous[e.to := current], done,
                         ways[e.to := ways[current] + [Hop(current, e.to, e.length)]], current, j + 1)
            && Current(distance[e.to := d], done, current)
  {
    hide Walks, Total, Looked;
    var e := g.edges[current][j];
    assert g.LegOk(gap, current, e);
    var d, hop := Some(distance[current].value + e.length), Hop(current, e.to, e.length);
    var distance', previous', ways' := distance[e.to := d], previous[e.to := current], ways[e.to := ways[current] + [hop]];
    assert Met(g, from, distance, previous, done, ways, current) && Met(g, from, distance, previous, done, ways, e.to);
    assert !done[e.to] && e.to != from;
    WayOn(g, from, ways[current], hop, current);
    forall i: nat | i < |distance| ensures Met(g, from, distance', previous', done, ways', i) {
      assert Met(g, from, distance, previous, done, ways, i);
    }
    hide Met;
    LookedOn(g, distance, done, current, j, d);
  }

  lemma LookedOn(g: Network, distance: seq<Option<real>>, done: seq<bool>, current: nat, j: nat, d: Option<real>)
    requires |distance| == |done| == |g.edges| && current < |done| && j < |g.edges[current]| && distance[current].Some?
    requires var e := g.edges[current][j];
             && e.to < |distance| && !done[e.to] && done[current] && d == Some(distance[current].value + e.length)
             && (distance[e.to].None? || d.value < distance[e.to].value)
    requires forall u: nat, k: nat :: u < |done| && done[u] && k < |g.edges[u]| && (u == current ==> k < j) ==> Looked(g, distance, u, g.edges[u][k])
    ensures var after := distance[g.edges[current][j].to := d];
            forall u: nat, k: nat :: u < |done| && done[u] && k < |g.edges[u]| && (u == current ==> k < j + 1) ==> Looked(g, after, u, g.edges[u][k])
  {
    var after := distance[g.edges[current][j].to := d];
    forall u: nat, k: nat | u < |done| && done[u] && k < |g.edges[u]| && (u == current ==> k < j + 1)
      ensures Looked(g, after, u, g.edges[u][k])
    {
      assert (u == current && k == j) || Looked(g, distance, u, g.edges[u][k]);
    }
  }

  lemma WayOn(g: Network, from: nat, way: seq<Hop>, hop: Hop, at: nat)
    requires Walks(g, from, at, way) && IsHop(g, hop) && hop.at == at
    ensures Walks(g, from, hop.to, way + [hop]) && Total(way + [hop]) == Total(way) + hop.length
  {
    assert (way + [hop])[..|way|] == way;
  }

  datatype RoutesOut = RoutesOut(distance: seq<Option<real>>, previous: seq<int>)

  /** Every shortest way out of one junction: distances, and the junction before each on its
      way. */
  method RoutesFrom(g: Network, gap: (Point, Point) -> real, from: nat) returns (r: RoutesOut, ghost ways: seq<seq<Hop>>)
    requires g.Valid(gap) && from < g.Size()
    ensures Shortest(g, from, r.distance)
    ensures Routed(g, from, r, ways)
  {
    hide Searching, Current, Walks, Left, Routed, Shortest;
    var n := g.Size();
    var distance, previous, done := new Option<real>[n](_ => None), new int[n](_ => -1), new bool[n](_ => false);
    distance[from] := Some(0.0);
    ways := seq(n, _ => []);
    SearchBegins(g, from, distance[..], previous[..], done[..], ways);
    while true
      invariant Searching(g, from, distance[..], previous[..], done[..], ways, -1, 0)
      invariant distance.Length == previous.Length == done.Length == n
      decreases Left(done[..])
    {
      var current := NearestUnsettled(distance, done);
      if current < 0 {
        break;
      }
      TakeUp(g, from, distance[..], previous[..], done[..], ways, current);
      OneLess(done[..], current);
      ghost var before := done[..];
      done[current] := true;
      assert done[..] == before[current := true];
      ways := SettleLegs(g, gap, from, distance, previous, done, ways, current);
    }
    r := RoutesOut(distance[..], previous[..]);
    SearchEnds(g, from, distance[..], previous[..], done[..], ways);
  }

  lemma SearchBegins(g: Network, from: nat, distance: seq<Option<real>>, previous: seq<int>, done: seq<bool>, ways: seq<seq<Hop>>)
    requires |distance| == |previous| == |done| == |ways| == |g.points| == |g.edges| && from < |g.points|
    requires forall i :: 0 <= i < |done| ==> !done[i] && previous[i] == -1 && ways[i] == []
    requires forall i :: 0 <= i < |done| ==> distance[i] == if i == from then Some(0.0) else None
    ensures Searching(g, from, distance, previous, done, ways, -1, 0)
  {
    forall i: nat | i < |distance| ensures Met(g, from, distance, previous, done, ways, i) {}
  }

  lemma SearchEnds(g: Network, from: nat, distance: seq<Option<real>>, previous: seq<int>, done: seq<bool>, ways: seq<seq<Hop>>)
    requires Searching(g, from, distance, previous, done, ways, -1, 0)
    requires forall i :: 0 <= i < |distance| ==> done[i] || distance[i].None?
    ensures Shortest(g, from, distance) && Routed(g, from, RoutesOut(distance, previous), ways)
  {
    var r := RoutesOut(distance, previous);
    forall i: nat | i < |distance| ensures RoutedTo(g, from, r, ways, i) {
      assert Met(g, from, distance, previous, done, ways, i);
      if distance[i].Some? && i != from {
        assert Met(g, from, distance, previous, done, ways, previous[i]);
      }
    }
    forall i: nat, hops | i < |distance| && Walks(g, from, i, hops) ensures distance[i].Some? && distance[i].value <= Total(hops) {
      SettledIsShortest(g, from, distance, previous, done, ways, i, hops);
    }
    forall i: nat | i < |distance| && distance[i].Some? ensures exists hops :: Walks(g, from, i, hops) && Total(hops) == distance[i].value {
      assert RoutedTo(g, from, r, ways, i);
    }
  }

  /** Every leg out of a junction looked along. */
  method SettleLegs(g: Network, gap: (Point, Point) -> real, from: nat, distance: array<Option<real>>, previous: array<int>, done: array<bool>,
                    ghost before: seq<seq<Hop>>, current: nat) returns (ghost ways: seq<seq<Hop>>)
    requires g.Valid(gap) && Searching(g, from, distance[..], previous[..], done[..], before, current, 0) && Current(distance[..], done[..], current)
    modifies distance, previous
    ensures Searching(g, from, distance[..], previous[..], done[..], ways, -1, 0)
  {
    hide Walks, Met, Looked;
    ways := before;
    for j := 0 to |g.edges[current]|
      invariant Searching(g, from, distance[..], previous[..], done[..], ways, current, j) && Current(distance[..], done[..], current)
    {
      var e := g.edges[current][j];
      assert g.LegOk(gap, current, e);
      var d := distance[current].value + e.length;
      if distance[e.to].None? || d < distance[e.to].value {
        StepAlong(g, gap, from, distance[..], previous[..], done[..], ways, current, j);
        ghost var was, prior := distance[..], previous[..];
        distance[e.to], previous[e.to] := Some(d), current;
        assert distance[..] == was[e.to := Some(d)] && previous[..] == prior[e.to := current as int];
        ways := ways[e.to := ways[current] + [Hop(current, e.to, e.length)]];
      } else {
        LookAlong(g, from, distance[..], previous[..], done[..], ways, current, j);
      }
    }
  }

  function Left(done: seq<bool>): nat
  {
    if done == [] then 0 else (if done[0] then 0 else 1) + Left(done[1..])
  }

  lemma {:induction false} OneLess(done: seq<bool>, i: nat)
    requires i < |done| && !done[i]
    ensures Left(done[i := true]) < Left(done)
  {
    if i > 0 {
      assert done[i := true][1..] == done[1..][i - 1 := true];
      OneLess(done[1..], i - 1);
    }
  }

  // ---------- One route ----------

  /** For each junction there is a way to, the way is one leg on from the way to the junction
      before it. */
  ghost predicate Routed(g: Network, from: nat, r: RoutesOut, ways: seq<seq<Hop>>)
  {
    && |r.distance| == |r.previous| == |ways| == |g.points| && from < |g.points| && r.previous[from] == -1 && ways[from] == []
    && r.distance[from] == Some(0.0)
    && forall i: nat :: i < |ways| ==> RoutedTo(g, from, r, ways, i)
  }

  ghost predicate RoutedTo(g: Network, from: nat, r: RoutesOut, ways: seq<seq<Hop>>, i: nat)
    requires |r.distance| == |r.previous| == |ways| == |g.points| && i < |ways|
  {
    r.distance[i].Some? ==>
      && Walks(g, from, i, ways[i]) && Total(ways[i]) == r.distance[i].value
      && (i != from ==>
            && 0 <= r.previous[i] < |ways| && r.distance[r.previous[i]].Some?
            && ways[i] != [] && ways[i][..|ways[i]| - 1] == ways[r.previous[i]] && ways[i][|ways[i]| - 1].at == r.previous[i])
  }

  /** A path rebuilt from the junctions before each: the rebuilding ends, and what it gives is a walk
      of the network of exactly the distance kept. */
  method To(g: Network, from: nat, r: RoutesOut, ghost ways: seq<seq<Hop>>, to: nat) returns (path: seq<Point>, length: real)
    requires Routed(g, from, r, ways) && to < |g.points|
    ensures r.distance[to].None? ==> path == [] && length == 0.0
    ensures r.distance[to].Some? ==>
              && Walks(g, from, to, ways[to]) && Total(ways[to]) == length == r.distance[to].value
              && |Through(from, ways[to])| == |path|
              && forall k :: 0 <= k < |path| ==> Through(from, ways[to])[k] < |g.points| && path[k] == g.points[Through(from, ways[to])[k]]
  {
    if r.distance[to].None? {
      return [], 0.0;
    }
    hide Walks, Total, Through, RoutedTo, Reversed;
    var reversed := Back(g, from, r, ways, to);
    ReversedAt(reversed);
    path := seq(|reversed|, k requires 0 <= k < |reversed| => g.points[reversed[|reversed| - 1 - k]]);
    length := r.distance[to].value;
    WayIsWalked(g, from, r, ways, to);
  }

  /** The junctions of a way, from its far end back. */
  method Back(g: Network, from: nat, r: RoutesOut, ghost ways: seq<seq<Hop>>, to: nat) returns (reversed: seq<nat>)
    requires Routed(g, from, r, ways) && to < |g.points| && r.distance[to].Some?
    ensures Reversed(reversed) == Through(from, ways[to])
    ensures forall k :: 0 <= k < |reversed| ==> reversed[k] < |g.points|
  {
    hide Unwinding, Reversed, Through, RoutedTo;
    reversed := [];
    var at: int := to;
    UnwindingBegins(g, from, ways, to);
    while at >= 0
      invariant -1 <= at < |ways| && (at >= 0 ==> r.distance[at].Some?)
      invariant Unwinding(from, ways, at, reversed, to)
      invariant forall k :: 0 <= k < |reversed| ==> reversed[k] < |g.points|
      decreases if at >= 0 then |ways[at]| + 1 else 0
    {
      ThroughBack(g, from, r, ways, at);
      UnwindingStep(g, from, r, ways, at, reversed, to);
      reversed := reversed + [at];
      at := r.previous[at];
    }
    UnwindingEnds(from, ways, at, reversed, to);
  }

  /** What is left of a way, and what has been gone back over. */
  ghost predicate Unwinding(from: nat, ways: seq<seq<Hop>>, at: int, reversed: seq<nat>, to: nat)
    requires at < |ways| && to < |ways|
  {
    (if at >= 0 then Through(from, ways[at]) else []) + Reversed(reversed) == Through(from, ways[to])
  }

  lemma UnwindingBegins(g: Network, from: nat, ways: seq<seq<Hop>>, to: nat)
    requires to < |ways|
    ensures Unwinding(from, ways, to, [], to)
  {
    assert Through(from, ways[to]) + [] == Through(from, ways[to]);
  }

  lemma UnwindingStep(g: Network, from: nat, r: RoutesOut, ways: seq<seq<Hop>>, at: nat, reversed: seq<nat>, to: nat)
    requires Routed(g, from, r, ways) && at < |ways| && to < |ways| && r.distance[at].Some? && Unwinding(from, ways, at, reversed, to)
    ensures -1 <= r.previous[at] < |ways| && Unwinding(from, ways, r.previous[at], reversed + [at], to)
  {
    hide Through, RoutedTo;
    ThroughBack(g, from, r, ways, at);
    ReversedOn(reversed, at);
    var left := if r.previous[at] >= 0 then Through(from, ways[r.previous[at]]) else [];
    assert (left + [at]) + Reversed(reversed) == left + ([at] + Reversed(reversed));
  }

  lemma UnwindingEnds(from: nat, ways: seq<seq<Hop>>, at: int, reversed: seq<nat>, to: nat)
    requires at < 0 && to < |ways| && Unwinding(from, ways, at, reversed, to)
    ensures Reversed(reversed) == Through(from, ways[to])
  {
    assert [] + Reversed(reversed) == Reversed(reversed);
  }

  lemma WayIsWalked(g: Network, from: nat, r: RoutesOut, ways: seq<seq<Hop>>, i: nat)
    requires Routed(g, from, r, ways) && i < |ways| && r.distance[i].Some?
    ensures Walks(g, from, i, ways[i]) && Total(ways[i]) == r.distance[i].value
  {
    assert RoutedTo(g, from, r, ways, i);
  }

  /** One junction back along a way. */
  lemma ThroughBack(g: Network, from: nat, r: RoutesOut, ways: seq<seq<Hop>>, at: nat)
    requires Routed(g, from, r, ways) && at < |ways| && r.distance[at].Some?
    ensures -1 <= r.previous[at] < |ways|
    ensures r.previous[at] >= 0 ==> r.distance[r.previous[at]].Some? && |ways[r.previous[at]]| < |ways[at]|
    ensures Through(from, ways[at]) == (if r.previous[at] >= 0 then Through(from, ways[r.previous[at]]) else []) + [at]
  {
    assert RoutedTo(g, from, r, ways, at);
    if at != from {
      assert ways[at][|ways[at]| - 1].to == at;
    }
  }

  function Reversed(s: seq<nat>): seq<nat> { if s == [] then [] else [s[|s| - 1]] + Reversed(s[..|s| - 1]) }

  lemma ReversedOn(s: seq<nat>, x: nat)
    ensures Reversed(s + [x]) == [x] + Reversed(s)
  {
    assert (s + [x])[..|s|] == s;
  }

  lemma {:induction false} ReversedAt(s: seq<nat>)
    ensures |Reversed(s)| == |s| && forall k :: 0 <= k < |s| ==> Reversed(s)[k] == s[|s| - 1 - k]
  {
    if s != [] {
      ReversedAt(s[..|s| - 1]);
    }
  }
}
