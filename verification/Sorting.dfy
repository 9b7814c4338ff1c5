/** A stable sort, as the source's library sorts are: by a strict order given as a
    function, equal elements keeping the order they came in. */
module Sorting {

  /** Not before in either direction is an equivalence, and the order is transitive. */
  ghost predicate StrictWeak<T(!new)>(before: (T, T) -> bool)
  {
    && (forall a :: !before(a, a))
    && (forall a, b, c :: before(a, b) && before(b, c) ==> before(a, c))
    && (forall a, b, c :: before(a, c) ==> before(a, b) || before(b, c))
  }

  ghost predicate InOrder<T>(s: seq<T>, before: (T, T) -> bool)
  {
    forall i, j :: 0 <= i < j < |s| ==> !before(s[j], s[i])
  }

  /** x put ahead of everything it is not after. */
  function Insert<T>(x: T, s: seq<T>, before: (T, T) -> bool): (r: seq<T>)
    ensures |r| == |s| + 1
  {
    if s != [] && before(s[0], x) then [s[0]] + Insert(x, s[1..], before) else [x] + s
  }

  function StableSort<T>(s: seq<T>, before: (T, T) -> bool): (r: seq<T>)
    ensures |r| == |s|
  {
    if s == [] then [] else Insert(s[0], StableSort(s[1..], before), before)
  }

  lemma {:induction false} InsertPermutes<T>(x: T, s: seq<T>, before: (T, T) -> bool)
    ensures multiset(Insert(x, s, before)) == multiset([x] + s)
  {
    if s != [] && before(s[0], x) {
      InsertPermutes(x, s[1..], before);
      assert s == [s[0]] + s[1..];
    }
  }

  lemma {:induction false} SortPermutes<T>(s: seq<T>, before: (T, T) -> bool)
    ensures multiset(StableSort(s, before)) == multiset(s)
  {
    if s != [] {
      SortPermutes(s[1..], before);
      InsertPermutes(s[0], StableSort(s[1..], before), before);
      assert s == [s[0]] + s[1..];
    }
  }

  lemma {:induction false} InsertOrders<T(!new)>(x: T, s: seq<T>, before: (T, T) -> bool)
    requires StrictWeak(before) && InOrder(s, before)
    ensures InOrder(Insert(x, s, before), before)
  {
    if s != [] && before(s[0], x) {
      InsertOrders(x, s[1..], before);
      InsertPermutes(x, s[1..], before);
      var r := Insert(x, s[1..], before);
      forall j | 0 <= j < |r| ensures !before(r[j], s[0]) {
        assert r[j] in multiset(r);
        assert r[j] == x || r[j] in s[1..];
      }
    }
  }

  lemma {:induction false} SortOrders<T(!new)>(s: seq<T>, before: (T, T) -> bool)
    requires StrictWeak(before)
    ensures InOrder(StableSort(s, before), before)
  {
    if s != [] {
      SortOrders(s[1..], before);
      InsertOrders(s[0], StableSort(s[1..], before), before);
    }
  }

  /** What is already in order is left exactly as it was. */
  lemma {:induction false} SortLeavesOrdered<T>(s: seq<T>, before: (T, T) -> bool)
    requires InOrder(s, before)
    ensures StableSort(s, before) == s
  {
    if s != [] {
      SortLeavesOrdered(s[1..], before);
      if |s| > 1 {
        assert !before(s[1], s[0]);
      }
    }
  }

  /** The sorted sequence holds exactly what was sorted. */
  lemma SortKeeps<T>(s: seq<T>, before: (T, T) -> bool)
    ensures forall x :: x in StableSort(s, before) <==> x in s
  {
    SortPermutes(s, before);
    forall x ensures x in StableSort(s, before) <==> x in s {
      assert x in multiset(StableSort(s, before)) <==> x in multiset(s);
    }
  }
}
