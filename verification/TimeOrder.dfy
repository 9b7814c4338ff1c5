/** A workload put back in the order it happened: internal/workload/generate.go:466-495. */
module TimeOrder {
  import opened Basics
  import opened Work
  import opened Sorting

  /** A generated event: when it happened, how many picks it has, and which job is its first. */
  datatype Happened = Happened(origin: Time, picks: nat, firstJob: JobId)

  // ---------- Groups of jobs, one to an event ----------

  datatype Group = Group(origin: Time, jobs: seq<Job>)

  function Flat(groups: seq<Group>): seq<Job> { if groups == [] then [] else groups[0].jobs + Flat(groups[1..]) }

  predicate Earlier(a: Job, b: Job) { a.submittedAt < b.submittedAt }

  predicate Sooner(a: Group, b: Group) { a.origin < b.origin }

  /** A group's jobs are all submitted when its event happened. */
  ghost predicate Timed(g: Group) { forall k :: 0 <= k < |g.jobs| ==> g.jobs[k].submittedAt == g.origin }

  ghost predicate AllTimed(groups: seq<Group>) { forall i :: 0 <= i < |groups| ==> Timed(groups[i]) }

  /** Jobs put ahead of everything they are not after, last first. */
  function InsertAll(jobs: seq<Job>, s: seq<Job>): seq<Job>
  {
    if jobs == [] then s else Insert(jobs[0], InsertAll(jobs[1..], s), Earlier)
  }

  lemma {:induction false} SortFrom(a: seq<Job>, b: seq<Job>)
    ensures StableSort(a + b, Earlier) == InsertAll(a, StableSort(b, Earlier))
  {
    if a == [] {
      assert a + b == b;
    } else {
      assert (a + b)[1..] == a[1..] + b;
      SortFrom(a[1..], b);
    }
  }

  /** A job goes past everything earlier, and no further. */
  lemma {:induction false} InsertPast(x: Job, before: seq<Job>, after: seq<Job>)
    requires forall k :: 0 <= k < |before| ==> Earlier(before[k], x)
    requires after == [] || !Earlier(after[0], x)
    ensures Insert(x, before + after, Earlier) == before + ([x] + after)
  {
    if before == [] {
      assert before + after == after && before + ([x] + after) == [x] + after;
    } else {
      assert before[0] == (before + after)[0] && (before + after)[1..] == before[1..] + after;
      InsertPast(x, before[1..], after);
      assert before + ([x] + after) == [before[0]] + (before[1..] + ([x] + after));
    }
  }

  /** So does a whole group, in its own order. */
  lemma {:induction false} InsertGroup(jobs: seq<Job>, origin: Time, before: seq<Job>, after: seq<Job>)
    requires forall k :: 0 <= k < |jobs| ==> jobs[k].submittedAt == origin
    requires forall k :: 0 <= k < |before| ==> before[k].submittedAt < origin
    requires after == [] || after[0].submittedAt >= origin
    ensures InsertAll(jobs, before + after) == before + (jobs + after)
  {
    if jobs == [] {
      assert jobs + after == after;
    } else {
      InsertGroup(jobs[1..], origin, before, after);
      InsertPast(jobs[0], before, jobs[1..] + after);
      assert [jobs[0]] + (jobs[1..] + after) == jobs + after;
    }
  }

  /** Groups in order, split where a group of some origin goes. */
  lemma {:induction false} GroupGoes(g: Group, groups: seq<Group>)
    requires AllTimed(groups) && Timed(g) && InOrder(groups, Sooner)
    ensures InsertAll(g.jobs, Flat(groups)) == Flat(Insert(g, groups, Sooner))
  {
    var n := SoonerThan(groups, g.origin);
    FlatJoins(groups[..n], groups[n..]);
    assert groups[..n] + groups[n..] == groups;
    var before, after := Flat(groups[..n]), Flat(groups[n..]);
    FlatBefore(groups[..n], g.origin);
    FlatAfter(groups[n..], g.origin);
    InsertGroup(g.jobs, g.origin, before, after);
    InsertAt(g, groups, n);
    FlatJoins(groups[..n], [g] + groups[n..]);
    assert ([g] + groups[n..])[1..] == groups[n..];
  }

  function SoonerThan(groups: seq<Group>, origin: Time): (n: nat)
    ensures n <= |groups| && (forall k :: 0 <= k < n ==> groups[k].origin < origin) && (n < |groups| ==> groups[n].origin >= origin)
  {
    if groups != [] && groups[0].origin < origin then 1 + SoonerThan(groups[1..], origin) else 0
  }

  lemma {:induction false} InsertAt(g: Group, groups: seq<Group>, n: nat)
    requires n == SoonerThan(groups, g.origin)
    ensures Insert(g, groups, Sooner) == groups[..n] + ([g] + groups[n..])
  {
    if groups != [] && groups[0].origin < g.origin {
      InsertAt(g, groups[1..], n - 1);
      assert groups[..n] == [groups[0]] + groups[1..][..n - 1] && groups[n..] == groups[1..][n - 1..];
    } else {
      assert groups[..n] == [] && groups[n..] == groups;
    }
  }

  lemma {:induction false} FlatJoins(a: seq<Group>, b: seq<Group>)
    ensures Flat(a + b) == Flat(a) + Flat(b)
  {
    if a == [] {
      assert a + b == b;
    } else {
      assert (a + b)[1..] == a[1..] + b;
      FlatJoins(a[1..], b);
    }
  }

  lemma {:induction false} FlatBefore(groups: seq<Group>, origin: Time)
    requires AllTimed(groups) && forall k :: 0 <= k < |groups| ==> groups[k].origin < origin
    ensures forall k :: 0 <= k < |Flat(groups)| ==> Flat(groups)[k].submittedAt < origin
  {
    if groups != [] {
      assert Timed(groups[0]);
      assert forall i :: 0 <= i < |groups[1..]| ==> groups[1..][i] == groups[i + 1];
      FlatBefore(groups[1..], origin);
    }
  }

  lemma {:induction false} FlatAfter(groups: seq<Group>, origin: Time)
    requires AllTimed(groups) && InOrder(groups, Sooner) && (groups != [] ==> groups[0].origin >= origin)
    ensures Flat(groups) == [] || Flat(groups)[0].submittedAt >= origin
  {
    if groups != [] {
      assert Timed(groups[0]);
      assert forall i :: 0 <= i < |groups[1..]| ==> groups[1..][i] == groups[i + 1];
      if |groups| > 1 {
        assert !Sooner(groups[1], groups[0]);
      }
      FlatAfter(groups[1..], origin);
    }
  }

  lemma SoonerIsStrict()
    ensures StrictWeak(Sooner)
  {
  }

  lemma {:induction false} InsertTimed(g: Group, groups: seq<Group>)
    requires Timed(g) && AllTimed(groups)
    ensures AllTimed(Insert(g, groups, Sooner))
  {
    InsertAt(g, groups, SoonerThan(groups, g.origin));
  }

  /** Sorting jobs that come in groups sorts the groups, and keeps each in its own order. */
  lemma {:induction false} SortGroups(groups: seq<Group>)
    requires AllTimed(groups)
    ensures StableSort(Flat(groups), Earlier) == Flat(StableSort(groups, Sooner))
    ensures AllTimed(StableSort(groups, Sooner))
  {
    hide Timed, InOrder, StrictWeak, InsertAll;
    if groups != [] {
      assert forall i :: 0 <= i < |groups[1..]| ==> groups[1..][i] == groups[i + 1];
      SortGroups(groups[1..]);
      var sorted := StableSort(groups[1..], Sooner);
      SoonerIsStrict();
      SortOrders(groups[1..], Sooner);
      SortFrom(groups[0].jobs, Flat(groups[1..]));
      GroupGoes(groups[0], sorted);
      InsertTimed(groups[0], sorted);
    }
  }

  // ---------- Sorting by index ----------

  predicate Indexes(ids: seq<nat>, n: nat) { forall k :: 0 <= k < |ids| ==> ids[k] < n }

  function Pick<T>(items: seq<T>, ids: seq<nat>): (r: seq<T>)
    requires Indexes(ids, |items|)
    ensures |r| == |ids| && forall k :: 0 <= k < |r| ==> r[k] == items[ids[k]]
  {
    seq(|ids|, k requires 0 <= k < |ids| => items[ids[k]])
  }

  lemma {:induction false} InsertPicks(groups: seq<Group>, x: nat, ids: seq<nat>, before: (nat, nat) -> bool)
    requires x < |groups| && Indexes(ids, |groups|)
    requires forall a: nat, b: nat :: a < |groups| && b < |groups| ==> before(a, b) == Sooner(groups[a], groups[b])
    ensures Indexes(Insert(x, ids, before), |groups|)
    ensures Pick(groups, Insert(x, ids, before)) == Insert(groups[x], Pick(groups, ids), Sooner)
  {
    if ids != [] && before(ids[0], x) {
      InsertPicks(groups, x, ids[1..], before);
      assert Pick(groups, ids)[1..] == Pick(groups, ids[1..]);
    }
  }

  /** Sorting places by what is there is sorting what is there. */
  lemma {:induction false} SortPicks(groups: seq<Group>, ids: seq<nat>, before: (nat, nat) -> bool)
    requires Indexes(ids, |groups|)
    requires forall a: nat, b: nat :: a < |groups| && b < |groups| ==> before(a, b) == Sooner(groups[a], groups[b])
    ensures Indexes(StableSort(ids, before), |groups|)
    ensures Pick(groups, StableSort(ids, before)) == StableSort(Pick(groups, ids), Sooner)
  {
    if ids != [] {
      SortPicks(groups, ids[1..], before);
      InsertPicks(groups, ids[0], StableSort(ids[1..], before), before);
      assert Pick(groups, ids)[1..] == Pick(groups, ids[1..]);
    }
  }

  // ---------- Where each event's jobs are ----------

  /** How many jobs come before an event's, when each event's follow those of the event before. */
  function Start(events: seq<Happened>, i: nat): nat
    requires i <= |events|
  {
    if i == 0 then 0 else Start(events, i - 1) + events[i - 1].picks
  }

  /** Whether an event's jobs are all among so many. */
  predicate Fits(events: seq<Happened>, i: nat, jobs: nat)
    requires i < |events|
  {
    Start(events, i) + events[i].picks <= jobs
  }

  predicate AllFit(events: seq<Happened>, jobs: nat) { forall i :: 0 <= i < |events| ==> Fits(events, i, jobs) }

  /** Jobs in groups, one event's after another's, each submitted when its event happened. */
  ghost predicate Grouped(events: seq<Happened>, jobs: seq<Job>)
  {
    && |jobs| == Start(events, |events|)
    && AllFit(events, |jobs|)
    && forall i, k :: 0 <= i < |events| && 0 <= k < events[i].picks ==> OfEvent(events, jobs, i, k)
  }

  ghost predicate OfEvent(events: seq<Happened>, jobs: seq<Job>, i: nat, k: nat)
    requires i < |events|
  {
    Start(events, i) + k < |jobs| && jobs[Start(events, i) + k].event == i && jobs[Start(events, i) + k].submittedAt == events[i].origin
  }

  /** A run of jobs, each told where its event has moved to. */
  function Told(jobs: seq<Job>, from: nat, n: nat, to: nat): (r: seq<Job>)
    requires from + n <= |jobs|
    ensures |r| == n && forall k :: 0 <= k < n ==> r[k] == jobs[from + k].(event := to)
  {
    seq(n, k requires 0 <= k < n => jobs[from + k].(event := to))
  }

  function GroupOf(events: seq<Happened>, jobs: seq<Job>, position: seq<nat>, i: nat): Group
    requires i < |events| == |position| && Fits(events, i, |jobs|)
  {
    Group(events[i].origin, Told(jobs, Start(events, i), events[i].picks, position[i]))
  }

  /** The groups, each job told where its event has moved to. */
  function GroupsOf(events: seq<Happened>, jobs: seq<Job>, position: seq<nat>): (r: seq<Group>)
    requires |position| == |events| && AllFit(events, |jobs|)
    ensures |r| == |events|
    ensures forall i :: 0 <= i < |r| ==> r[i] == GroupOf(events, jobs, position, i)
  {
    GroupsTo(events, jobs, position, |events|)
  }

  function GroupsTo(events: seq<Happened>, jobs: seq<Job>, position: seq<nat>, n: nat): (r: seq<Group>)
    requires |position| == |events| && n <= |events| && AllFit(events, |jobs|)
    ensures |r| == n
    ensures forall i :: 0 <= i < |r| ==> r[i] == GroupOf(events, jobs, position, i)
  {
    if n == 0 then [] else GroupsTo(events, jobs, position, n - 1) + [GroupOf(events, jobs, position, n - 1)]
  }

  function Starts(groups: seq<Group>, i: nat): nat
    requires i <= |groups|
  {
    if i == 0 then 0 else Starts(groups, i - 1) + |groups[i - 1].jobs|
  }

  lemma {:induction false} StartsFrom(groups: seq<Group>, i: nat)
    requires groups != [] && 1 <= i <= |groups|
    ensures Starts(groups, i) == |groups[0].jobs| + Starts(groups[1..], i - 1)
    decreases i
  {
    if i > 1 {
      StartsFrom(groups, i - 1);
    }
  }

  /** Each group's jobs are one after the other, from where those before it end. */
  lemma {:induction false} FlatAt(groups: seq<Group>, i: nat)
    requires i < |groups|
    ensures Starts(groups, i) + |groups[i].jobs| <= |Flat(groups)| == Starts(groups, |groups|)
    ensures forall k :: 0 <= k < |groups[i].jobs| ==> Flat(groups)[Starts(groups, i) + k] == groups[i].jobs[k]
    decreases |groups|
  {
    hide Starts;
    var rest := groups[1..];
    assert Flat(groups) == groups[0].jobs + Flat(rest);
    hide Flat;
    StartsFrom(groups, |groups|);
    NoneBefore(groups);
    NoneBefore(rest);
    if i > 0 {
      StartsFrom(groups, i);
      FlatAt(rest, i - 1);
      assert rest[i - 1] == groups[i];
      FlatPast(groups[0].jobs, Flat(rest), Starts(rest, i - 1), groups[i].jobs);
    } else if rest != [] {
      FlatAt(rest, 0);
    }
  }

  lemma NoneBefore(groups: seq<Group>)
    ensures Starts(groups, 0) == 0
  {
  }

  lemma FlatPast(first: seq<Job>, rest: seq<Job>, at: nat, jobs: seq<Job>)
    requires at + |jobs| <= |rest| && forall k :: 0 <= k < |jobs| ==> rest[at + k] == jobs[k]
    ensures forall k :: 0 <= k < |jobs| ==> (first + rest)[|first| + at + k] == jobs[k]
  {
    forall k | 0 <= k < |jobs| ensures (first + rest)[|first| + at + k] == jobs[k] {
      assert (first + rest)[|first| + (at + k)] == rest[at + k];
    }
  }

  /** And every place is in some group. */
  lemma {:induction false} FlatCovers(groups: seq<Group>, n: nat) returns (i: nat)
    requires n < |Flat(groups)|
    ensures i < |groups| && Starts(groups, i) <= n < Starts(groups, i) + |groups[i].jobs|
    decreases |groups|
  {
    if n < |groups[0].jobs| {
      i := 0;
    } else {
      i := FlatCovers(groups[1..], n - |groups[0].jobs|);
      i := i + 1;
      StartsFrom(groups, i);
    }
  }

  /** The jobs told where their events have moved to are the groups, one after the other. */
  lemma {:induction false} GroupsAreJobs(events: seq<Happened>, jobs: seq<Job>, position: seq<nat>, moved: seq<Job>)
    requires Grouped(events, jobs) && |position| == |events| && |moved| == |jobs|
    requires forall n :: 0 <= n < |jobs| && 0 <= jobs[n].event < |position| ==> moved[n] == jobs[n].(event := position[jobs[n].event])
    ensures Flat(GroupsOf(events, jobs, position)) == moved && AllTimed(GroupsOf(events, jobs, position))
  {
    hide GroupsOf, Flat, Timed;
    var groups := GroupsOf(events, jobs, position);
    SameStarts(events, groups, |events|);
    FlatSize(groups);
    hide Grouped;
    forall n | 0 <= n < |Flat(groups)| ensures Flat(groups)[n] == moved[n] {
      OneGroupsJob(events, jobs, position, moved, n);
    }
    forall i | 0 <= i < |groups| ensures Timed(groups[i]) {
      GroupIsTimed(events, jobs, position, i);
    }
  }

  lemma {:induction false} OneGroupsJob(events: seq<Happened>, jobs: seq<Job>, position: seq<nat>, moved: seq<Job>, n: nat)
    requires Grouped(events, jobs) && |position| == |events| && |moved| == |jobs|
    requires forall n :: 0 <= n < |jobs| && 0 <= jobs[n].event < |position| ==> moved[n] == jobs[n].(event := position[jobs[n].event])
    requires n < |Flat(GroupsOf(events, jobs, position))| && n < |moved|
    ensures Flat(GroupsOf(events, jobs, position))[n] == moved[n]
  {
    hide GroupsOf, Flat, Start, Starts;
    var groups := GroupsOf(events, jobs, position);
    var i := FlatCovers(groups, n);
    SameStarts(events, groups, i);
    FlatAt(groups, i);
    var k := n - Start(events, i);
    assert OfEvent(events, jobs, i, k);
    assert groups[i].jobs[k] == jobs[n].(event := position[i]);
  }

  lemma {:induction false} GroupIsTimed(events: seq<Happened>, jobs: seq<Job>, position: seq<nat>, i: nat)
    requires Grouped(events, jobs) && |position| == |events| && i < |events|
    ensures Timed(GroupOf(events, jobs, position, i))
  {
    hide Start;
    var g := GroupOf(events, jobs, position, i);
    forall k | 0 <= k < |g.jobs| ensures g.jobs[k].submittedAt == g.origin {
      assert OfEvent(events, jobs, i, k);
    }
  }

  lemma {:induction false} FlatSize(groups: seq<Group>)
    ensures |Flat(groups)| == Starts(groups, |groups|)
  {
    if groups != [] {
      FlatAt(groups, 0);
    }
  }

  lemma {:induction false} SameStarts(events: seq<Happened>, groups: seq<Group>, i: nat)
    requires |groups| == |events| && i <= |events| && forall k :: 0 <= k < |groups| ==> |groups[k].jobs| == events[k].picks
    ensures Starts(groups, i) == Start(events, i)
  {
    if i > 0 {
      SameStarts(events, groups, i - 1);
    }
  }

  // ---------- Putting a workload in order ----------

  ghost predicate Permutation(order: seq<nat>, n: nat)
  {
    && |order| == n && Indexes(order, n)
    && (forall i, j :: 0 <= i < j < n ==> order[i] != order[j])
    && forall x: nat :: x < n ==> x in order
  }

  function Places(n: nat): (r: seq<nat>)
    ensures |r| == n && forall k :: 0 <= k < n ==> r[k] == k
  {
    seq(n, k requires 0 <= k => k)
  }

  function ByOrigin(events: seq<Happened>): (nat, nat) -> bool
  {
    (a: nat, b: nat) => a < |events| && b < |events| && events[a].origin < events[b].origin
  }

  /** Places in order of what happened there, those of one moment as they were. */
  function OrderOf(events: seq<Happened>): seq<nat> { StableSort<nat>(Places(|events|), ByOrigin(events)) }

  lemma OrderIsPermutation(events: seq<Happened>)
    ensures Permutation(OrderOf(events), |events|)
  {
    var ids := Places(|events|);
    SortKeeps(ids, ByOrigin(events));
    SortPermutes(ids, ByOrigin(events));
    var order := OrderOf(events);
    hide StableSort;
    forall x: nat | x < |events| ensures x in order {
      assert ids[x] in ids;
    }
    forall k | 0 <= k < |order| ensures order[k] < |events| {
      var x := order[k];
      assert x in order;
    }
    OnceEach(ids);
    forall i, j | 0 <= i < j < |order| ensures order[i] != order[j] {
      if order[i] == order[j] {
        Twice(order, i, j);
      }
    }
  }

  lemma {:induction false} OnceEach(ids: seq<nat>)
    requires forall i, j :: 0 <= i < j < |ids| ==> ids[i] != ids[j]
    ensures forall x: nat :: multiset(ids)[x] <= 1
  {
    if ids != [] {
      assert ids == [ids[0]] + ids[1..];
      assert forall k :: 0 <= k < |ids[1..]| ==> ids[1..][k] == ids[k + 1];
      OnceEach(ids[1..]);
      assert ids[0] !in ids[1..];
    }
  }

  lemma Twice(ids: seq<nat>, i: nat, j: nat)
    requires i < j < |ids| && ids[i] == ids[j]
    ensures multiset(ids)[ids[i]] >= 2
  {
    var a, b, c := ids[..i], ids[i + 1..j], ids[j + 1..];
    assert ids == a + [ids[i]] + b + [ids[j]] + c;
    assert multiset(ids) == multiset(a) + multiset{ids[i]} + multiset(b) + multiset{ids[j]} + multiset(c);
  }

  /** Events moved into place, and the groups of jobs that go with them. */
  lemma {:induction false} OrderedGroups(events: seq<Happened>, jobs: seq<Job>, position: seq<nat>, moved: seq<Job>)
    requires Grouped(events, jobs) && |position| == |events| && |moved| == |jobs|
    requires forall n :: 0 <= n < |jobs| && 0 <= jobs[n].event < |position| ==> moved[n] == jobs[n].(event := position[jobs[n].event])
    ensures Permutation(OrderOf(events), |events|)
    ensures StableSort(moved, Earlier) == Flat(Pick(GroupsOf(events, jobs, position), OrderOf(events)))
  {
    OrderIsPermutation(events);
    GroupsAreJobs(events, jobs, position, moved);
    hide StableSort, Grouped, Earlier;
    var groups := GroupsOf(events, jobs, position);
    SortGroups(groups);
    SortPicks(groups, Places(|events|), ByOrigin(events));
    assert Pick(groups, Places(|events|)) == groups;
  }

  /** Where a workload's jobs are once it is in order: each event's follow those of the event
      before it, and are the ones it always had, in the order they always were. */
  lemma {:induction false} OrderedJobs(events: seq<Happened>, jobs: seq<Job>, position: seq<nat>, moved: seq<Job>, sorted: seq<Happened>, to: nat, k: nat)
    requires Grouped(events, jobs) && |position| == |events| && |moved| == |jobs|
    requires forall n :: 0 <= n < |jobs| && 0 <= jobs[n].event < |position| ==> moved[n] == jobs[n].(event := position[jobs[n].event])
    requires |sorted| == |events| && Permutation(OrderOf(events), |events|)
    requires forall t :: 0 <= t < |sorted| ==> sorted[t].picks == events[OrderOf(events)[t]].picks
    requires to < |sorted| && k < sorted[to].picks && position[OrderOf(events)[to]] == to
    ensures var after := StableSort(moved, Earlier);
            && Start(sorted, to) + k < |after| && Start(events, OrderOf(events)[to]) + k < |jobs|
            && after[Start(sorted, to) + k] == jobs[Start(events, OrderOf(events)[to]) + k].(event := to)
  {
    hide StableSort, Earlier, OrderOf, Flat, GroupsOf, Starts, Start;
    OrderedGroups(events, jobs, position, moved);
    var from := OrderOf(events)[to];
    var groups := Pick(GroupsOf(events, jobs, position), OrderOf(events));
    SameStarts(sorted, groups, to);
    FlatAt(groups, to);
    assert groups[to] == GroupOf(events, jobs, position, from);
    assert groups[to].jobs[k] == jobs[Start(events, from) + k].(event := to);
  }

  /** Every job is some event's. */
  lemma {:induction false} SomeEvents(events: seq<Happened>, n: nat, i: nat) returns (to: nat)
    requires i <= |events| && n < Start(events, i)
    ensures to < i && Start(events, to) <= n < Start(events, to) + events[to].picks
  {
    if n >= Start(events, i - 1) {
      to := i - 1;
    } else {
      to := SomeEvents(events, n, i - 1);
    }
  }

  lemma {:induction false} StartsRise(events: seq<Happened>, i: nat, j: nat)
    requires i < j <= |events|
    ensures Start(events, i) + events[i].picks <= Start(events, j)
  {
    if i < j - 1 {
      StartsRise(events, i, j - 1);
    }
  }

  /** A workload put back in order: events by when they happened, those of one moment as they
      were; and each event's jobs a run of as many as it has picks, from its first, the very jobs
      it had and in the order they were. */
  method InTimeOrder(events: seq<Happened>, jobs: seq<Job>) returns (ordered: seq<Happened>, played: seq<Job>)
    requires Grouped(events, jobs)
    ensures Permutation(OrderOf(events), |events|) && |ordered| == |events| && |played| == |jobs|
    ensures forall to :: 0 <= to < |ordered| ==>
              ordered[to].origin == events[OrderOf(events)[to]].origin && ordered[to].picks == events[OrderOf(events)[to]].picks
    ensures InTurn(events, OrderOf(events))
    ensures forall i, j :: 0 <= i < j < |ordered| ==> ordered[i].origin <= ordered[j].origin
    ensures forall to :: 0 <= to < |ordered| && ordered[to].picks > 0 ==> ordered[to].firstJob == Start(ordered, to)
    ensures forall to, k :: 0 <= to < |ordered| && 0 <= k < ordered[to].picks ==> PlayedAs(events, jobs, ordered, played, to, k)
  {
    OrderIsPermutation(events);
    var order := OrderOf(events);
    var position;
    ordered, position := MoveEvents(events, order);
    var moved := TellJobs(events, jobs, position);
    played := StableSort(moved, Earlier);
    SortPermutes(moved, Earlier);
    assert |multiset(played)| == |multiset(moved)|;
    forall to, k | 0 <= to < |ordered| && 0 <= k < ordered[to].picks ensures PlayedAs(events, jobs, ordered, played, to, k) {
      OrderedJobs(events, jobs, position, moved, ordered, to, k);
    }
    EventsInTurn(events);
    TotalSame(events, ordered, jobs, played, moved, position);
    ordered := MarkFirst(events, jobs, ordered, played);
  }

  /** One of an event's jobs, in its place. */
  ghost predicate PlayedAs(events: seq<Happened>, jobs: seq<Job>, ordered: seq<Happened>, played: seq<Job>, to: nat, k: nat)
    requires |ordered| == |events| == |OrderOf(events)| && Indexes(OrderOf(events), |events|) && to < |ordered|
  {
    && Start(ordered, to) + k < |played| && Start(events, OrderOf(events)[to]) + k < |jobs|
    && played[Start(ordered, to) + k] == jobs[Start(events, OrderOf(events)[to]) + k].(event := to)
  }

  /** One event is put before another: it happened sooner, or at one moment and was listed first. */
  predicate Precedes(events: seq<Happened>, a: nat, b: nat)
  {
    a < |events| && b < |events| &&
    (events[a].origin < events[b].origin || (events[a].origin == events[b].origin && a < b))
  }

  predicate InTurn(events: seq<Happened>, ids: seq<nat>)
  {
    forall i, j :: 0 <= i < j < |ids| ==> Precedes(events, ids[i], ids[j])
  }

  lemma {:induction false} InsertInTurn(events: seq<Happened>, x: nat, ids: seq<nat>)
    requires x < |events| && Indexes(ids, |events|) && InTurn(events, ids)
    requires forall k :: 0 <= k < |ids| ==> x < ids[k]
    ensures InTurn(events, Insert(x, ids, ByOrigin(events)))
    ensures forall y :: y in Insert(x, ids, ByOrigin(events)) ==> y == x || y in ids
  {
    if ids != [] && ByOrigin(events)(ids[0], x) {
      InsertInTurn(events, x, ids[1..]);
      var rest := Insert(x, ids[1..], ByOrigin(events));
      forall k | 0 <= k < |rest| ensures Precedes(events, ids[0], rest[k]) {
        assert rest[k] in rest;
      }
    }
  }

  lemma {:induction false} SortInTurn(events: seq<Happened>, ids: seq<nat>)
    requires Indexes(ids, |events|) && forall i, j :: 0 <= i < j < |ids| ==> ids[i] < ids[j]
    ensures InTurn(events, StableSort(ids, ByOrigin(events))) && Indexes(StableSort(ids, ByOrigin(events)), |events|)
  {
    if ids != [] {
      SortInTurn(events, ids[1..]);
      SortKeeps(ids[1..], ByOrigin(events));
      var rest := StableSort(ids[1..], ByOrigin(events));
      forall k | 0 <= k < |rest| ensures ids[0] < rest[k] {
        assert rest[k] in rest;
      }
      InsertInTurn(events, ids[0], rest);
      var r := Insert(ids[0], rest, ByOrigin(events));
      forall k | 0 <= k < |r| ensures r[k] < |events| {
        assert r[k] in r;
      }
    }
  }

  /** Events come in order of when they happened, and those of one moment in the order they were
      listed. */
  lemma EventsInTurn(events: seq<Happened>)
    ensures InTurn(events, OrderOf(events))
  {
    SortInTurn(events, Places(|events|));
  }

  /** Each event moved to its place, and the place of each noted. */
  method MoveEvents(events: seq<Happened>, order: seq<nat>) returns (ordered: seq<Happened>, position: seq<nat>)
    requires Permutation(order, |events|)
    ensures |ordered| == |events| == |position|
    ensures forall to :: 0 <= to < |ordered| ==> ordered[to] == events[order[to]] && position[order[to]] == to
    ensures Indexes(position, |events|)
  {
    ordered, position := [], Places(|events|);
    for to := 0 to |order|
      invariant |ordered| == to && |position| == |events|
      invariant forall t :: 0 <= t < to ==> ordered[t] == events[order[t]] && position[order[t]] == t
      invariant Indexes(position, |events|)
    {
      ordered := ordered + [events[order[to]]];
      position := position[order[to] := to];
    }
  }

  /** Each job told where its event has moved to. */
  method TellJobs(events: seq<Happened>, jobs: seq<Job>, position: seq<nat>) returns (moved: seq<Job>)
    requires Grouped(events, jobs) && |position| == |events|
    ensures |moved| == |jobs|
    ensures forall n :: 0 <= n < |jobs| && 0 <= jobs[n].event < |position| ==> moved[n] == jobs[n].(event := position[jobs[n].event])
  {
    moved := jobs;
    for n := 0 to |jobs|
      invariant |moved| == |jobs| && moved[n..] == jobs[n..]
      invariant forall k :: 0 <= k < n && 0 <= jobs[k].event < |position| ==> moved[k] == jobs[k].(event := position[jobs[k].event])
    {
      var i := SomeEvents(events, n, |events|);
      assert OfEvent(events, jobs, i, n - Start(events, i));
      assert moved[n..][0] == jobs[n..][0];
      moved := moved[n := moved[n].(event := position[moved[n].event])];
      assert moved[n + 1..] == jobs[n + 1..];
    }
  }

  lemma {:induction false} TotalSame(events: seq<Happened>, ordered: seq<Happened>, jobs: seq<Job>, played: seq<Job>, moved: seq<Job>, position: seq<nat>)
    requires Grouped(events, jobs) && |position| == |events| && |moved| == |jobs|
    requires forall n :: 0 <= n < |jobs| && 0 <= jobs[n].event < |position| ==> moved[n] == jobs[n].(event := position[jobs[n].event])
    requires played == StableSort(moved, Earlier)
    requires |ordered| == |events| && Permutation(OrderOf(events), |events|)
    requires forall to :: 0 <= to < |ordered| ==> ordered[to] == events[OrderOf(events)[to]]
    ensures |played| == Start(ordered, |ordered|)
  {
    OrderedGroups(events, jobs, position, moved);
    hide StableSort, Earlier, OrderOf;
    var groups := Pick(GroupsOf(events, jobs, position), OrderOf(events));
    SameStarts(ordered, groups, |ordered|);
    FlatSize(groups);
  }

  /** Each event pointed at the first job met that is its own. */
  method MarkFirst(events: seq<Happened>, jobs: seq<Job>, ordered: seq<Happened>, played: seq<Job>) returns (marked: seq<Happened>)
    requires |ordered| == |events| == |OrderOf(events)| && Indexes(OrderOf(events), |events|) && |played| == Start(ordered, |ordered|)
    requires forall to, k :: 0 <= to < |ordered| && 0 <= k < ordered[to].picks ==> PlayedAs(events, jobs, ordered, played, to, k)
    ensures |marked| == |ordered| && forall to :: 0 <= to < |marked| ==> marked[to].origin == ordered[to].origin && marked[to].picks == ordered[to].picks
    ensures forall to :: 0 <= to <= |marked| ==> Start(marked, to) == Start(ordered, to)
    ensures forall to :: 0 <= to < |marked| && marked[to].picks > 0 ==> marked[to].firstJob == Start(ordered, to)
    ensures forall to, k :: 0 <= to < |marked| && 0 <= k < marked[to].picks ==> PlayedAs(events, jobs, marked, played, to, k)
  {
    hide OrderOf, Start;
    marked := ordered;
    var found: seq<bool> := seq(|ordered|, _ => false);
    for i := 0 to |played|
      invariant |marked| == |found| == |ordered|
      invariant forall to :: 0 <= to < |marked| ==> marked[to].origin == ordered[to].origin && marked[to].picks == ordered[to].picks
      invariant forall to :: 0 <= to < |marked| && ordered[to].picks > 0 ==> (found[to] <==> Start(ordered, to) < i)
      invariant forall to :: 0 <= to < |marked| && found[to] ==> marked[to].firstJob == Start(ordered, to)
    {
      var e := SomeEvents(ordered, i, |ordered|);
      assert PlayedAs(events, jobs, ordered, played, e, i - Start(ordered, e));
      OnlyOwn(ordered, i, e);
      if !found[played[i].event] {
        marked, found := marked[played[i].event := marked[played[i].event].(firstJob := i)], found[played[i].event := true];
      }
    }
    forall to | 0 <= to < |marked| && ordered[to].picks > 0 ensures found[to] {
      StartsRise(ordered, to, |ordered|);
    }
    forall to | 0 <= to <= |marked| ensures Start(marked, to) == Start(ordered, to) {
      StartsAgree(ordered, marked, to);
    }
    forall to, k | 0 <= to < |marked| && 0 <= k < marked[to].picks ensures PlayedAs(events, jobs, marked, played, to, k) {
      assert PlayedAs(events, jobs, ordered, played, to, k);
    }
  }

  lemma {:induction false} StartsAgree(a: seq<Happened>, b: seq<Happened>, i: nat)
    requires |a| == |b| && i <= |a| && forall k :: 0 <= k < |a| ==> a[k].picks == b[k].picks
    ensures Start(a, i) == Start(b, i)
  {
    if i > 0 {
      StartsAgree(a, b, i - 1);
    }
  }

  /** A place in one event's run of jobs starts no other event's. */
  lemma {:induction false} OnlyOwn(events: seq<Happened>, n: nat, e: nat)
    requires e < |events| && Start(events, e) <= n < Start(events, e) + events[e].picks
    ensures forall i :: 0 <= i < |events| && i != e && events[i].picks > 0 ==> (Start(events, i) < n <==> Start(events, i) < n + 1)
  {
    forall i | 0 <= i < |events| && i != e && events[i].picks > 0 ensures Start(events, i) != n {
      if i < e {
        StartsRise(events, i, e);
      } else {
        StartsRise(events, e, i);
      }
    }
  }

}
