/** Stretches of time, and how long they last together: internal/usecase/closure.go:286-445.
    A stretch holds from its first instant up to, but not at, its last. */
module Spans {
  import opened Basics
  import opened Sorting

  datatype Span = Span(from: Time, until: Time) {
    predicate Holds(t: Time) { from <= t < until }
  }

  ghost predicate Lasting(spans: seq<Span>) { forall k :: 0 <= k < |spans| ==> spans[k].from < spans[k].until }

  /** In order, with time between each and the next. */
  ghost predicate Separate(spans: seq<Span>)
  {
    Lasting(spans) && forall k, l :: 0 <= k < l < |spans| ==> spans[k].until < spans[l].from
  }

  predicate Covered(spans: seq<Span>, t: Time) { exists k :: 0 <= k < |spans| && spans[k].Holds(t) }

  /** The instants of one stretch, and of many. */
  function Instants1(s: Span): set<Time> { set t: Time | s.from <= t < s.until && s.Holds(t) }

  function Instants(spans: seq<Span>): set<Time>
  {
    if spans == [] then {} else Instants1(spans[0]) + Instants(spans[1..])
  }

  lemma {:induction false} InstantsAreCovered(spans: seq<Span>)
    ensures forall t :: t in Instants(spans) <==> Covered(spans, t)
  {
    if spans != [] {
      InstantsAreCovered(spans[1..]);
      forall t ensures t in Instants(spans) <==> Covered(spans, t) {
        if Covered(spans[1..], t) {
          var k :| 0 <= k < |spans[1..]| && spans[1..][k].Holds(t);
          assert spans[k + 1].Holds(t);
        }
        if k :| 0 <= k < |spans| && spans[k].Holds(t) {
          assert k == 0 || spans[1..][k - 1].Holds(t);
        }
      }
    }
  }

  lemma {:induction false} SpanSize(s: Span)
    ensures |Instants1(s)| == Max(0, s.until - s.from)
    decreases s.until - s.from
  {
    if s.from >= s.until {
      assert Instants1(s) == {};
    } else {
      var less := Span(s.from, s.until - 1);
      SpanSize(less);
      assert Instants1(s) == Instants1(less) + {s.until - 1};
    }
  }

  // ---------- Joining overlaps, in place ----------

  predicate ByFrom(a: Span, b: Span) { a.from < b.from }

  /** The spans so far in order with their overlaps joined, and the next one taken in. */
  function Join(done: seq<Span>, s: Span): seq<Span>
    requires done != []
  {
    var last := done[|done| - 1];
    if s.from <= last.until then done[|done| - 1 := last.(until := Max(last.until, s.until))] else done + [s]
  }

  lemma JoinHolds(done: seq<Span>, s: Span)
    requires done != [] && Separate(done) && s.from < s.until && s.from >= done[|done| - 1].from
    ensures Separate(Join(done, s)) && Join(done, s) != [] && Join(done, s)[|Join(done, s)| - 1].from <= s.from
    ensures forall t :: Covered(Join(done, s), t) <==> Covered(done, t) || s.Holds(t)
  {
    var n, last, r := |done|, done[|done| - 1], Join(done, s);
    forall t ensures Covered(r, t) <==> Covered(done, t) || s.Holds(t) {
      if k :| 0 <= k < |done| && done[k].Holds(t) {
        assert r[k].Holds(t);
      }
      if s.Holds(t) {
        assert r[|r| - 1].Holds(t) || last.Holds(t);
        assert last.Holds(t) ==> r[n - 1].Holds(t);
      }
      if k :| 0 <= k < |r| && r[k].Holds(t) {
        assert k < n ==> done[k].Holds(t) || s.Holds(t);
      }
    }
  }

  /** Stretches put in time order where they are. */
  method SortByFrom(a: array<Span>)
    modifies a
    ensures multiset(a[..]) == multiset(old(a[..]))
    ensures forall i, j :: 0 <= i < j < a.Length ==> a[i].from <= a[j].from
  {
    var sorted := StableSort(a[..], ByFrom);
    SortPermutes(a[..], ByFrom);
    SortOrders(a[..], ByFrom);
    for k := 0 to a.Length
      invariant forall j :: 0 <= j < k ==> a[j] == sorted[j]
    {
      a[k] := sorted[k];
    }
    assert a[..] == sorted;
    assert forall i, j :: 0 <= i < j < |sorted| ==> !ByFrom(sorted[j], sorted[i]);
  }

  /** Stretches taken in one after the other. */
  function JoinAll(spans: seq<Span>): (r: seq<Span>)
    requires spans != []
    ensures 1 <= |r| <= |spans|
  {
    if |spans| == 1 then spans else Join(JoinAll(spans[..|spans| - 1]), spans[|spans| - 1])
  }

  /** Taken in in time order, they hold the same instants, with time between them. */
  lemma {:induction false} JoinAllHolds(spans: seq<Span>)
    requires spans != [] && Lasting(spans) && forall i, j :: 0 <= i < j < |spans| ==> spans[i].from <= spans[j].from
    ensures var r := JoinAll(spans);
            && Separate(r) && r[|r| - 1].from <= spans[|spans| - 1].from
            && forall t :: Covered(r, t) <==> Covered(spans, t)
  {
    if |spans| > 1 {
      var n := |spans| - 1;
      JoinAllHolds(spans[..n]);
      JoinHolds(JoinAll(spans[..n]), spans[n]);
      CoveredNext(spans, n);
      assert spans[..n + 1] == spans;
    }
  }

  /** Stretches in time order with overlaps joined, written over the ones they were made from:
      the same instants, in stretches with time between them. */
  method MergeInPlace(a: array<Span>) returns (n: nat)
    requires Lasting(a[..])
    modifies a
    ensures n <= a.Length && Separate(a[..n])
    ensures forall t :: Covered(a[..n], t) <==> Covered(old(a[..]), t)
  {
    hide Covered;
    ghost var was := a[..];
    if a.Length < 2 {
      assert a[..a.Length] == a[..];
      return a.Length;
    }
    SortByFrom(a);
    ghost var sorted := a[..];
    PermutedLasts(was, sorted);
    n := JoinUp(a, sorted);
    JoinAllHolds(sorted);
  }

  /** The joining itself: what is written never overtakes what is still to be read. */
  method JoinUp(a: array<Span>, ghost spans: seq<Span>) returns (n: nat)
    requires a.Length >= 1 && a[..] == spans
    modifies a
    ensures n <= a.Length && a[..n] == JoinAll(spans)
  {
    n := 1;
    assert spans[..1] == [spans[0]] == a[..1];
    var r := 1;
    while r < a.Length
      invariant 1 <= n <= r <= a.Length
      invariant forall k :: r <= k < a.Length ==> a[k] == spans[k]
      invariant a[..n] == JoinAll(spans[..r])
    {
      var s := a[r];
      ghost var done := a[..n];
      assert spans[..r + 1][..r] == spans[..r];
      if s.from <= a[n - 1].until {
        if s.until > a[n - 1].until {
          a[n - 1] := Span(a[n - 1].from, s.until);
        }
      } else {
        a[n] := s;
        n := n + 1;
      }
      assert a[..n] == Join(done, s);
      r := r + 1;
    }
    assert spans[..r] == spans;
  }

  lemma PermutedLasts(a: seq<Span>, b: seq<Span>)
    requires multiset(a) == multiset(b) && Lasting(a)
    ensures Lasting(b) && forall t :: Covered(a, t) <==> Covered(b, t)
  {
    assert forall x :: x in a <==> x in multiset(a);
    assert forall x :: x in b <==> x in multiset(b);
    forall k | 0 <= k < |b| ensures b[k].from < b[k].until {
      assert b[k] in a;
    }
    forall t ensures Covered(a, t) <==> Covered(b, t) {
      if k :| 0 <= k < |a| && a[k].Holds(t) {
        assert a[k] in b;
      }
      if k :| 0 <= k < |b| && b[k].Holds(t) {
        assert b[k] in a;
      }
    }
  }

  lemma CoveredNext(spans: seq<Span>, r: nat)
    requires r < |spans|
    ensures forall t :: Covered(spans[..r + 1], t) <==> Covered(spans[..r], t) || spans[r].Holds(t)
  {
    forall t ensures Covered(spans[..r + 1], t) <==> Covered(spans[..r], t) || spans[r].Holds(t) {
      if k :| 0 <= k < r && spans[..r][k].Holds(t) {
        assert spans[..r + 1][k].Holds(t);
      }
      if spans[r].Holds(t) {
        assert spans[..r + 1][r].Holds(t);
      }
      var more := spans[..r + 1];
      if k :| 0 <= k < |more| && more[k].Holds(t) {
        assert k < r ==> spans[..r][k].Holds(t);
      }
    }
  }

  // ---------- How long they last ----------

  /** How long separate stretches last in total is how many instants they hold. */
  method Length(spans: seq<Span>) returns (total: Time)
    requires Separate(spans)
    ensures total == |Instants(spans)|
  {
    total := 0;
    var k := 0;
    assert spans[0..] == spans;
    while k < |spans|
      invariant 0 <= k <= |spans|
      invariant total + |Instants(spans[k..])| == |Instants(spans)|
    {
      FirstApart(spans[k..]);
      assert spans[k..][1..] == spans[k + 1..];
      total := total + (spans[k].until - spans[k].from);
      k := k + 1;
    }
  }

  lemma SeparateRest(spans: seq<Span>, k: nat)
    requires Separate(spans) && k <= |spans|
    ensures Separate(spans[k..])
  {
  }

  /** The first of separate stretches shares no instant with the rest. */
  lemma FirstApart(spans: seq<Span>)
    requires Separate(spans) && spans != []
    ensures Instants1(spans[0]) !! Instants(spans[1..])
    ensures |Instants(spans)| == spans[0].until - spans[0].from + |Instants(spans[1..])|
  {
    InstantsAreCovered(spans[1..]);
    SpanSize(spans[0]);
    forall t | t in Instants1(spans[0]) ensures t !in Instants(spans[1..]) {
      assert !Covered(spans[1..], t);
    }
  }

  function Overlap(a: Span, b: Span): Span { Span(Max(a.from, b.from), Min(a.until, b.until)) }

  /** How long separate stretches overlap is how many instants they share. */
  method Intersection(a: seq<Span>, b: seq<Span>) returns (total: Time)
    requires Separate(a) && Separate(b)
    ensures total == |Instants(a) * Instants(b)|
  {
    hide Separate, Instants, Instants1;
    total := 0;
    var i, j := 0, 0;
    assert a[0..] == a && b[0..] == b;
    while i < |a| && j < |b|
      invariant 0 <= i <= |a| && 0 <= j <= |b|
      invariant total + |Instants(a[i..]) * Instants(b[j..])| == |Instants(a) * Instants(b)|
    {
      SeparateRest(a, i);
      SeparateRest(b, j);
      FirstShared(a[i..], b[j..]);
      assert a[i..][1..] == a[i + 1..] && b[j..][1..] == b[j + 1..];
      var from, until := Max(a[i].from, b[j].from), Min(a[i].until, b[j].until);
      if until > from {
        total := total + (until - from);
      }
      if a[i].until < b[j].until {
        i := i + 1;
      } else {
        j := j + 1;
      }
    }
    NothingShared(a[i..], b[j..]);
  }

  lemma NothingShared(a: seq<Span>, b: seq<Span>)
    requires a == [] || b == []
    ensures Instants(a) * Instants(b) == {}
  {
  }

  /** Of two runs of stretches, the one whose first ends sooner can be moved on from: that first
      shares nothing with what is left of the other. */
  lemma FirstShared(a: seq<Span>, b: seq<Span>)
    requires Separate(a) && Separate(b) && a != [] && b != []
    ensures var rest := if a[0].until < b[0].until then Instants(a[1..]) * Instants(b) else Instants(a) * Instants(b[1..]);
            |Instants(a) * Instants(b)| == Max(0, Min(a[0].until, b[0].until) - Max(a[0].from, b[0].from)) + |rest|
  {
    hide Instants1, Instants, Covered, Separate;
    OverlapSize(a[0], b[0]);
    FirstSplits(a);
    FirstSplits(b);
    var a0, b0, ar, br := Instants1(a[0]), Instants1(b[0]), Instants(a[1..]), Instants(b[1..]);
    if a[0].until < b[0].until {
      ApartAfter(a[0], b);
      SharedSplits(a0, ar, b0, br);
    } else {
      ApartAfter(b[0], a);
      SharedSplits(b0, br, a0, ar);
      SharedEitherWay(a0, ar, b0, br);
    }
  }

  lemma FirstSplits(spans: seq<Span>)
    requires Separate(spans) && spans != []
    ensures Instants(spans) == Instants1(spans[0]) + Instants(spans[1..]) && Instants1(spans[0]) !! Instants(spans[1..])
  {
    FirstApart(spans);
  }

  lemma OverlapSize(a: Span, b: Span)
    ensures |Instants1(a) * Instants1(b)| == Max(0, Min(a.until, b.until) - Max(a.from, b.from))
  {
    var both := Overlap(a, b);
    SpanSize(both);
    assert Instants1(both) == Instants1(a) * Instants1(b);
  }

  lemma SharedEitherWay(a0: set<Time>, ar: set<Time>, b0: set<Time>, br: set<Time>)
    ensures (b0 + br) * (a0 + ar) == (a0 + ar) * (b0 + br) && br * (a0 + ar) == (a0 + ar) * br && b0 * a0 == a0 * b0
  {
  }

  /** A stretch that ends no later than the first of others shares nothing with those after it. */
  lemma ApartAfter(s: Span, others: seq<Span>)
    requires Separate(others) && others != [] && s.until <= others[0].until
    ensures Instants1(s) !! Instants(others[1..])
  {
    InstantsAreCovered(others[1..]);
    forall t | t in Instants1(s) ensures t !in Instants(others[1..]) {
      assert !Covered(others[1..], t);
    }
  }

  lemma SharedSplits(a0: set<Time>, ar: set<Time>, b0: set<Time>, br: set<Time>)
    requires a0 !! ar && a0 !! br
    ensures |(a0 + ar) * (b0 + br)| == |a0 * b0| + |ar * (b0 + br)|
  {
    assert (a0 + ar) * (b0 + br) == a0 * b0 + ar * (b0 + br);
    assert a0 * b0 !! ar * (b0 + br);
  }

  // ---------- Whether a moment is covered ----------

  method Covers(spans: seq<Span>, at: Time) returns (yes: bool)
    ensures yes == Covered(spans, at)
  {
    for k := 0 to |spans|
      invariant forall j :: 0 <= j < k ==> !spans[j].Holds(at)
    {
      if spans[k].from <= at && at < spans[k].until {
        assert spans[k].Holds(at);
        return true;
      }
    }
    return false;
  }

  /** The first moment within a window at which every one of some runs of stretches holds, from
      the moments at which one of them begins. */
  method CompleteAfter(shut: seq<seq<Span>>, origin: Time, end: Time) returns (after: Option<Time>)
    requires origin < end
    ensures after.Some? ==> 0 <= after.value < end - origin && AllCovered(shut, origin + after.value)
    ensures after.Some? ==> forall t :: origin <= t < origin + after.value ==> !AllCovered(shut, t)
    ensures after.None? ==> forall t :: origin <= t < end ==> !AllCovered(shut, t)
  {
    var candidates := Candidates(shut, origin, end);
    var sorted := StableSort(candidates, Sooner);
    SortKeeps(candidates, Sooner);
    SortOrders(candidates, Sooner);
    for k := 0 to |sorted|
      invariant forall j :: 0 <= j < k ==> !AllCovered(shut, sorted[j])
    {
      var all := true;
      var j := 0;
      while j < |shut|
        invariant 0 <= j <= |shut| && all == (forall i :: 0 <= i < j ==> Covered(shut[i], sorted[k]))
      {
        var yes := Covers(shut[j], sorted[k]);
        if !yes {
          all := false;
          break;
        }
        j := j + 1;
      }
      assert all <==> AllCovered(shut, sorted[k]);
      assert sorted[k] in sorted;
      if all {
        forall t | origin <= t < sorted[k] ensures !AllCovered(shut, t) {
          if AllCovered(shut, t) {
            BeginsSooner(shut, origin, end, candidates, t, sorted, k);
          }
        }
        return Some(sorted[k] - origin);
      }
    }
    forall t | origin <= t < end ensures !AllCovered(shut, t) {
      if AllCovered(shut, t) {
        var c := BeginsBy(shut, origin, end, candidates, t);
      }
    }
    return None;
  }

  predicate Sooner(a: Time, b: Time) { a < b }

  ghost predicate AllCovered(shut: seq<seq<Span>>, t: Time) { forall j :: 0 <= j < |shut| ==> Covered(shut[j], t) }

  /** The moment a window opens, and every moment within it at which a stretch begins. */
  method Candidates(shut: seq<seq<Span>>, origin: Time, end: Time) returns (c: seq<Time>)
    requires origin < end
    ensures origin in c && forall t :: t in c ==> origin <= t < end
    ensures forall j, k :: 0 <= j < |shut| && 0 <= k < |shut[j]| && origin < shut[j][k].from < end ==> shut[j][k].from in c
  {
    c := [origin];
    for j := 0 to |shut|
      invariant origin in c && forall t :: t in c ==> origin <= t < end
      invariant forall i, k :: 0 <= i < j && 0 <= k < |shut[i]| && origin < shut[i][k].from < end ==> shut[i][k].from in c
    {
      for k := 0 to |shut[j]|
        invariant origin in c && forall t :: t in c ==> origin <= t < end
        invariant forall i, l :: 0 <= i < j && 0 <= l < |shut[i]| && origin < shut[i][l].from < end ==> shut[i][l].from in c
        invariant forall l :: 0 <= l < k && origin < shut[j][l].from < end ==> shut[j][l].from in c
      {
        if shut[j][k].from > origin && shut[j][k].from < end {
          c := c + [shut[j][k].from];
        }
      }
    }
  }

  /** If everything is covered at a moment, it already was at the last candidate by then. */
  lemma BeginsBy(shut: seq<seq<Span>>, origin: Time, end: Time, candidates: seq<Time>, t: Time) returns (c: Time)
    requires origin <= t < end && AllCovered(shut, t) && origin in candidates
    requires forall j, k :: 0 <= j < |shut| && 0 <= k < |shut[j]| && origin < shut[j][k].from < end ==> shut[j][k].from in candidates
    ensures c in candidates && c <= t && AllCovered(shut, c)
  {
    c := LatestBy(candidates, t, origin);
    forall j | 0 <= j < |shut| ensures Covered(shut[j], c) {
      assert Covered(shut[j], t);
      var k :| 0 <= k < |shut[j]| && shut[j][k].Holds(t);
      assert shut[j][k].Holds(c);
    }
  }

  lemma {:induction false} LatestBy(candidates: seq<Time>, t: Time, x: Time) returns (c: Time)
    requires x in candidates && x <= t
    ensures c in candidates && c <= t && forall y :: y in candidates && y <= t ==> y <= c
    decreases |candidates|
  {
    c := x;
    if y :| y in candidates && c < y <= t {
      var n :| 0 <= n < |candidates| && candidates[n] == x;
      var fewer := candidates[..n] + candidates[n + 1..];
      assert forall z :: z in candidates <==> z in fewer || z == x;
      c := LatestBy(fewer, t, y);
    }
  }

  lemma BeginsSooner(shut: seq<seq<Span>>, origin: Time, end: Time, candidates: seq<Time>, t: Time, sorted: seq<Time>, k: nat)
    requires origin <= t < end && AllCovered(shut, t) && origin in candidates
    requires forall j, l :: 0 <= j < |shut| && 0 <= l < |shut[j]| && origin < shut[j][l].from < end ==> shut[j][l].from in candidates
    requires forall x :: x in sorted <==> x in candidates
    requires InOrder(sorted, Sooner) && k < |sorted| && t < sorted[k]
    ensures exists j :: 0 <= j < k && AllCovered(shut, sorted[j])
  {
    var c := BeginsBy(shut, origin, end, candidates, t);
    assert c in sorted;
    var j :| 0 <= j < |sorted| && sorted[j] == c;
    assert j > k ==> !Sooner(sorted[j], sorted[k]);
  }
}
