/** The most ground closed at once, by switching stretches on and off in time order:
    internal/usecase/closure.go:427-442. */
module Peak {
  import opened Basics
  import opened Sorting
  import opened Spans

  /** A stretch of time some metres of tunnel are closed for. */
  datatype Closed = Closed(span: Span, metres: real)

  /** A stretch that lasts, of tunnel there is some of. */
  predicate Real(c: Closed) { c.span.from < c.span.until && c.metres > 0.0 }

  datatype Switch = Switch(at: Time, metres: real)

  predicate BySwitch(a: Switch, b: Switch) { a.at < b.at }

  function Sum(s: seq<Switch>, keep: Switch -> bool): real
  {
    if s == [] then 0.0 else (if keep(s[0]) then s[0].metres else 0.0) + Sum(s[1..], keep)
  }

  /** Closed ground switched on at its first instant, and off at its last. */
  function Switches(closed: seq<Closed>): seq<Switch>
  {
    if closed == [] then []
    else [Switch(closed[0].span.from, closed[0].metres), Switch(closed[0].span.until, -closed[0].metres)] + Switches(closed[1..])
  }

  /** The ground closed at a moment. */
  function ClosedAt(closed: seq<Closed>, t: Time): real
  {
    if closed == [] then 0.0 else (if closed[0].span.Holds(t) then closed[0].metres else 0.0) + ClosedAt(closed[1..], t)
  }

  /** The ground closed at a moment, if stretches held at their last instant too. */
  function ClosedThrough(closed: seq<Closed>, t: Time): real
  {
    if closed == [] then 0.0
    else (if closed[0].span.from <= t <= closed[0].span.until then closed[0].metres else 0.0) + ClosedThrough(closed[1..], t)
  }

  /** What is switched by a moment, and what is at most switched during it. */
  function By(t: Time): Switch -> bool { (s: Switch) => s.at <= t }

  function During(t: Time): Switch -> bool { (s: Switch) => s.at < t || (s.at == t && s.metres > 0.0) }

  lemma {:induction false} SumJoins(a: seq<Switch>, b: seq<Switch>, keep: Switch -> bool)
    ensures Sum(a + b, keep) == Sum(a, keep) + Sum(b, keep)
  {
    if a == [] {
      assert a + b == b;
    } else {
      assert (a + b)[1..] == a[1..] + b;
      SumJoins(a[1..], b, keep);
    }
  }

  lemma {:induction false} InsertSums(x: Switch, s: seq<Switch>, keep: Switch -> bool)
    ensures Sum(Insert(x, s, BySwitch), keep) == Sum([x] + s, keep)
  {
    if s != [] && BySwitch(s[0], x) {
      InsertSums(x, s[1..], keep);
    }
  }

  lemma {:induction false} SortSums(s: seq<Switch>, keep: Switch -> bool)
    ensures Sum(StableSort(s, BySwitch), keep) == Sum(s, keep)
  {
    if s != [] {
      SortSums(s[1..], keep);
      InsertSums(s[0], StableSort(s[1..], BySwitch), keep);
    }
  }

  /** What is switched by a moment is what is closed then. */
  lemma {:induction false} SwitchedBy(closed: seq<Closed>, t: Time)
    requires forall c :: c in closed ==> Real(c)
    ensures Sum(Switches(closed), By(t)) == ClosedAt(closed, t)
  {
    if closed != [] {
      assert Real(closed[0]);
      var first, rest := [Switch(closed[0].span.from, closed[0].metres), Switch(closed[0].span.until, -closed[0].metres)], Switches(closed[1..]);
      SwitchedBy(closed[1..], t);
      SumJoins(first, rest, By(t));
      assert first[1..][1..] == [];
    }
  }

  lemma {:induction false} SwitchedDuring(closed: seq<Closed>, t: Time)
    requires forall c :: c in closed ==> Real(c)
    ensures Sum(Switches(closed), During(t)) == ClosedThrough(closed, t)
  {
    if closed != [] {
      assert Real(closed[0]);
      var first, rest := [Switch(closed[0].span.from, closed[0].metres), Switch(closed[0].span.until, -closed[0].metres)], Switches(closed[1..]);
      SwitchedDuring(closed[1..], t);
      SumJoins(first, rest, During(t));
      assert first[1..][1..] == [];
    }
  }

  function Everything(): Switch -> bool { (s: Switch) => true }

  /** Of switches in time order, those so far are at most those during the last of them. */
  lemma {:induction false} SoFarAtMost(s: seq<Switch>, n: nat, t: Time)
    requires n <= |s| && (forall k :: 0 <= k < n ==> s[k].at <= t) && (forall k :: n <= k < |s| ==> s[k].at >= t)
    ensures Sum(s[..n], Everything()) <= Sum(s, During(t))
    decreases |s|
  {
    if s != [] {
      if n > 0 {
        assert s[..n][1..] == s[1..][..n - 1];
        SoFarAtMost(s[1..], n - 1, t);
      } else {
        assert s[..0] == s[1..][..0];
        SoFarAtMost(s[1..], 0, t);
      }
    }
  }

  /** Those by a moment are those so far, at the last of them no later than it. */
  lemma {:induction false} SoFarIsBy(s: seq<Switch>, n: nat, t: Time)
    requires n <= |s| && (forall k :: 0 <= k < n ==> s[k].at <= t) && (forall k :: n <= k < |s| ==> s[k].at > t)
    ensures Sum(s[..n], Everything()) == Sum(s, By(t))
    decreases |s|
  {
    if s != [] {
      if n > 0 {
        assert s[..n][1..] == s[1..][..n - 1];
        SoFarIsBy(s[1..], n - 1, t);
      } else {
        assert s[..0] == s[1..][..0];
        SoFarIsBy(s[1..], 0, t);
      }
    }
  }

  lemma SoFarNext(s: seq<Switch>, k: nat)
    requires k < |s|
    ensures Sum(s[..k + 1], Everything()) == Sum(s[..k], Everything()) + s[k].metres
  {
    assert s[..k + 1] == s[..k] + [s[k]];
    SumJoins(s[..k], [s[k]], Everything());
    assert [s[k]][1..] == [];
  }

  lemma SumOfNone(s: seq<Switch>)
    ensures Sum(s[..0], Everything()) == 0.0
  {
  }

  /** However far the switching has got, no more is on than is closed at that moment, last
      instants and all. */
  lemma NoMoreThanThrough(closed: seq<Closed>, k: nat)
    requires (forall c :: c in closed ==> Real(c)) && k < |StableSort(Switches(closed), BySwitch)|
    ensures var s := StableSort(Switches(closed), BySwitch); Sum(s[..k + 1], Everything()) <= ClosedThrough(closed, s[k].at)
  {
    var s := StableSort(Switches(closed), BySwitch);
    SortOrders(Switches(closed), BySwitch);
    hide StableSort, Switches, Sum, ClosedThrough;
    assert forall i, j :: 0 <= i < j < |s| ==> !BySwitch(s[j], s[i]);
    SoFarAtMost(s, k + 1, s[k].at);
    SortSums(Switches(closed), During(s[k].at));
    SwitchedDuring(closed, s[k].at);
  }

  /** What is closed at a moment is what is on once everything by then is switched. */
  lemma ClosedIsOn(closed: seq<Closed>, t: Time) returns (n: nat)
    requires forall c :: c in closed ==> Real(c)
    ensures var s := StableSort(Switches(closed), BySwitch); n <= |s| && Sum(s[..n], Everything()) == ClosedAt(closed, t)
  {
    var s := StableSort(Switches(closed), BySwitch);
    SortOrders(Switches(closed), BySwitch);
    hide StableSort, Switches, Sum, ClosedAt;
    assert forall i, j :: 0 <= i < j < |s| ==> !BySwitch(s[j], s[i]);
    n := CountBy(s, t);
    SoFarIsBy(s, n, t);
    SortSums(Switches(closed), By(t));
    SwitchedBy(closed, t);
  }

  /** The most metres closed at once, from changes to the total in time order. It is never less
      than what is closed at any moment, and never more than is closed at some moment when
      stretches are taken to hold at their last instant too. */
  method MostClosed(closed: seq<Closed>) returns (most: real)
    requires forall c :: c in closed ==> Real(c)
    ensures most >= 0.0 && forall t :: most >= ClosedAt(closed, t)
    ensures most == 0.0 || exists t :: most <= ClosedThrough(closed, t)
  {
    hide Sum, ClosedAt, ClosedThrough, Switches, Real, StableSort;
    var switches := StableSort(Switches(closed), BySwitch);
    SumOfNone(switches);
    var now := 0.0;
    most := 0.0;
    for k := 0 to |switches|
      invariant now == Sum(switches[..k], Everything())
      invariant most >= 0.0 && forall j :: 0 <= j <= k ==> most >= Sum(switches[..j], Everything())
      invariant most == 0.0 || exists t :: most <= ClosedThrough(closed, t)
    {
      SoFarNext(switches, k);
      now := now + switches[k].metres;
      if now > most {
        most := now;
        NoMoreThanThrough(closed, k);
      }
    }
    forall t ensures most >= ClosedAt(closed, t) {
      var n := ClosedIsOn(closed, t);
    }
  }

  function CountBy(s: seq<Switch>, t: Time): (n: nat)
    ensures n <= |s| && (forall k :: 0 <= k < n ==> s[k].at <= t) && (n < |s| ==> s[n].at > t)
  {
    if s != [] && s[0].at <= t then 1 + CountBy(s[1..], t) else 0
  }
}
