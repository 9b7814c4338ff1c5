/** What the queue promises over whole runs, whatever capacity it is given and whatever is
    asked of it: internal/queue/queue.go, with internal/queue/property_test.go. */
module QueueLaws {
  import opened Basics
  import opened Work
  import opened Orchestrator
  import opened QueueState
  import opened Admission
  import opened Serving
  import opened QueueOps

  // ---------- One interval, job by job ----------

  /** What an interval's service makes of any one job. */
  lemma ServedItem(ready: Queue, executors: int, interval: Effort, x: JobId) returns (left: Effort)
    requires Sound(ready) && interval > 0 && x in ready.jobs
    ensures var r := Served(ready, executors, interval).q;
            && x in r.jobs
            && r.jobs[x] == Outcome(ready.deadlines, ready.now, ready.jobs[x], interval, left)
  {
    hide Serve, Picked, Sound, Turns, Usable;
    TurnsAreServable(ready);
    var s := Service(ready, Max(0, executors) * interval, [], 0);
    ServeKeeps(s, Turns(ready), interval);
    if x in Turns(ready) {
      var k :| 0 <= k < |Turns(ready)| && Turns(ready)[k] == x;
      ServeExactly(s, Turns(ready), interval, k);
      left := s.budget - Usable(ready.jobs, Turns(ready)[..k], interval);
    } else {
      left := 0;
    }
  }

  /** What a whole advance makes of any one job that was ready. */
  lemma AdvancedItem(q: Queue, to: Time, executors: int, x: JobId) returns (left: Effort)
    requires Valid(q) && to > q.now && StreamsInOrder(q, to)
    requires x in Ready(q, to).jobs
    ensures var r := Advance(q, to, executors).0;
            var served := Outcome(q.deadlines, to, Ready(q, to).jobs[x], to - q.now, left);
            && x in r.jobs
            && r.jobs[x] == served.(breached := served.breached || (served.waiting && LateNow(q.deadlines, served, to)))
            && r.now == to && r.deadlines == q.deadlines
  {
    hide Ready, Sound, Outcome, Flag;
    ReadyIsValid(q, to);
    ReadyShape(q, to);
    ServedIsSound(Ready(q, to), executors, to - q.now);
    left := ServedItem(Ready(q, to), executors, to - q.now, x);
    var served := Served(Ready(q, to), executors, to - q.now).q;
    FlagShape(served, Overdue(served));
  }

  /** The jobs of a queue that is ready are those it had, untouched, and those newly due. */
  lemma ReadyJobs(q: Queue, to: Time, x: JobId)
    requires Valid(q) && to > q.now
    ensures x in q.jobs ==> x in Ready(q, to).jobs && Ready(q, to).jobs[x] == q.jobs[x]
    ensures x in Ready(q, to).jobs && x !in q.jobs ==>
              exists i :: 0 <= i < |Due(q, to)| && Due(q, to)[i].id == x && Due(q, to)[i].submittedAt <= to &&
                          Ready(q, to).jobs[x] == Newly(Due(q, to)[i])
  {
    DueIsFresh(q, to);
    AdmitAllJobs(Moved(q, to), Due(q, to));
  }

  /** Whoever is given anything leaves no one ahead of it without a share. */
  lemma ServedInTurn(ready: Queue, executors: int, interval: Effort, k: nat, l: nat)
    requires Sound(ready) && interval > 0 && l < k < |Turns(ready)|
    requires Turns(ready)[k] in ready.jobs && ready.jobs[Turns(ready)[k]].waiting && Turns(ready)[l] in ready.jobs
    ensures var r, x, y := Served(ready, executors, interval).q, Turns(ready)[k], Turns(ready)[l];
            && x in r.jobs && y in r.jobs
            && (!r.jobs[x].waiting ==> !r.jobs[y].waiting)
  {
    hide Serve, Sound, Turns, Usable;
    TurnsAreServable(ready);
    var s, turns := Service(ready, Max(0, executors) * interval, [], 0), Turns(ready);
    ServeKeeps(s, turns, interval);
    ServeExactly(s, turns, interval, k);
    ServeExactly(s, turns, interval, l);
    assert turns[..k] == turns[..l] + turns[l..k];
    UsableJoins(ready.jobs, turns[..l], turns[l..k], interval);
    UsableIsPositive(ready, turns[l..k], interval);
  }

  /** Strict priority: a waiting job is only started when nothing more urgent, and nothing as
      urgent and nearer its deadline, is left waiting. */
  lemma StartsBehindNoOne(q: Queue, to: Time, executors: int, x: JobId, y: JobId)
    requires Valid(q) && to > q.now && StreamsInOrder(q, to)
    requires x in Ready(q, to).jobs && Ready(q, to).jobs[x].waiting
    requires y in Ready(q, to).jobs && Ready(q, to).jobs[y].waiting && Sooner(Ready(q, to).jobs, y, x)
    ensures var r := Advance(q, to, executors).0;
            && x in r.jobs && y in r.jobs
            && (!r.jobs[x].waiting ==> !r.jobs[y].waiting)
  {
    hide Ready, Sound, Turns, Sooner, StreamsInOrder, Flag, Overdue, Served, Awaited;
    var ready := Ready(q, to);
    ReadyIsValid(q, to);
    TurnsHold(ready);
    ServedIsSound(ready, executors, to - q.now);
    var k :| 0 <= k < |Turns(ready)| && Turns(ready)[k] == x;
    var l :| 0 <= l < |Turns(ready)| && Turns(ready)[l] == y;
    EarlierTurn(ready, k, l);
    ServedInTurn(ready, executors, to - q.now, k, l);
    var served := Served(ready, executors, to - q.now).q;
    FlagShape(served, Overdue(served));
  }

  /** Sooner is a strict order, so the sooner of two waiting jobs has the earlier turn. */
  lemma EarlierTurn(ready: Queue, k: nat, l: nat)
    requires Sound(ready) && k < |Turns(ready)| && l < |Turns(ready)|
    requires Turns(ready)[k] in ready.jobs && ready.jobs[Turns(ready)[k]].waiting
    requires Turns(ready)[l] in ready.jobs && ready.jobs[Turns(ready)[l]].waiting
    requires Sooner(ready.jobs, Turns(ready)[l], Turns(ready)[k])
    ensures l < k
  {
    TurnsHold(ready);
    var turns, n := Turns(ready), |ready.running|;
    assert forall i :: 0 <= i < n ==> turns[i] in ready.running && Sane(ready.jobs[turns[i]], turns[i], true, ready.now);
    assert k >= n && l >= n;
  }

  lemma {:induction false} UsableJoins(jobs: Jobs, a: seq<JobId>, b: seq<JobId>, interval: Effort)
    requires forall k :: 0 <= k < |a| ==> a[k] in jobs
    requires forall k :: 0 <= k < |b| ==> b[k] in jobs
    ensures Usable(jobs, a + b, interval) == Usable(jobs, a, interval) + Usable(jobs, b, interval)
  {
    if a == [] {
      assert a + b == b;
    } else {
      assert (a + b)[1..] == a[1..] + b;
      UsableJoins(jobs, a[1..], b, interval);
    }
  }

  // ---------- Draining ----------

  /** All the work jobs still need. */
  ghost function Total(jobs: Jobs): Effort
    decreases |jobs|
  {
    if jobs == map[] then 0
    else
      var x := Highest(jobs.Keys);
      jobs[x].remaining + Total(jobs - {x})
  }

  lemma {:induction false} TotalWithout(jobs: Jobs, x: JobId)
    requires x in jobs
    ensures Total(jobs) == jobs[x].remaining + Total(jobs - {x})
    decreases |jobs|
  {
    var y := Highest(jobs.Keys);
    if x != y {
      TotalWithout(jobs - {y}, x);
      assert (jobs - {y}) - {x} == (jobs - {x}) - {y};
      var rest := jobs - {x};
      assert y in rest;
      TotalWithout(rest, y);
    }
  }

  lemma TotalUpdate(jobs: Jobs, x: JobId, item: Item)
    requires x in jobs
    ensures Total(jobs[x := item]) == Total(jobs) - jobs[x].remaining + item.remaining
  {
    TotalWithout(jobs, x);
    TotalWithout(jobs[x := item], x);
    assert jobs[x := item] - {x} == jobs - {x};
  }

  lemma {:induction false} TotalAgrees(a: Jobs, b: Jobs)
    requires a.Keys == b.Keys && forall x :: x in a ==> a[x].remaining == b[x].remaining
    ensures Total(a) == Total(b)
    decreases |a|
  {
    if a != map[] {
      var x := Highest(a.Keys);
      assert b != map[];
      assert (a - {x}).Keys == (b - {x}).Keys;
      TotalAgrees(a - {x}, b - {x});
    } else {
      assert b == map[];
    }
  }

  /** Service takes off the work exactly what it takes off the budget. */
  lemma {:induction false} ServeSpends(s: Service, ids: seq<JobId>, interval: Effort)
    requires Sound(s.q) && interval > 0 && Servable(s.q, ids)
    ensures var r := Serve(s, ids, interval);
            Total(r.q.jobs) == Total(s.q.jobs) - (s.budget - r.budget)
    decreases |ids|
  {
    hide Give, Sound, Total;
    if ids != [] && s.budget > 0 {
      var next := Give(s, ids[0], interval);
      GiveKeeps(s, ids[0], interval);
      ServableRest(s, ids, interval);
      ServeSpends(next, ids[1..], interval);
      var item := next.q.jobs[ids[0]];
      TotalUpdate(s.q.jobs, ids[0], item);
      assert next.q.jobs == s.q.jobs[ids[0] := item];
    }
  }

  /** The work some jobs still need. */
  function Needed(jobs: Jobs, ids: seq<JobId>): Effort
    requires forall k :: 0 <= k < |ids| ==> ids[k] in jobs
  {
    if ids == [] then 0 else jobs[ids[0]].remaining + Needed(jobs, ids[1..])
  }

  lemma {:induction false} NeededAgrees(a: Jobs, b: Jobs, ids: seq<JobId>)
    requires forall k :: 0 <= k < |ids| ==> ids[k] in a && ids[k] in b && a[ids[k]].remaining == b[ids[k]].remaining
    ensures Needed(a, ids) == Needed(b, ids)
  {
    if ids != [] {
      NeededAgrees(a, b, ids[1..]);
    }
  }

  /** Jobs listed once each, when no other needs anything, need all there is. */
  lemma {:induction false} NeededIsTotal(jobs: Jobs, ids: seq<JobId>)
    requires Distinct(ids) && forall k :: 0 <= k < |ids| ==> ids[k] in jobs
    requires forall x :: x in jobs && x !in ids ==> jobs[x].remaining == 0
    ensures Needed(jobs, ids) == Total(jobs)
    decreases |ids|
  {
    if ids == [] {
      NothingTotals(jobs);
    } else {
      var x, rest := ids[0], ids[1..];
      var jobs' := jobs - {x};
      assert forall k :: 0 <= k < |rest| ==> rest[k] == ids[k + 1];
      assert ids == [x] + rest;
      NeededIsTotal(jobs', rest);
      TotalWithout(jobs, x);
      NeededAgrees(jobs, jobs', rest);
    }
  }

  lemma {:induction false} NothingTotals(jobs: Jobs)
    requires forall x :: x in jobs ==> jobs[x].remaining == 0
    ensures Total(jobs) == 0
    decreases |jobs|
  {
    if jobs != map[] {
      NothingTotals(jobs - {Highest(jobs.Keys)});
    }
  }

  /** One interval's worth can always be used, if there is that much to do. */
  lemma {:induction false} UsableCovers(jobs: Jobs, ids: seq<JobId>, interval: Effort)
    requires forall k :: 0 <= k < |ids| ==> ids[k] in jobs && jobs[ids[k]].remaining >= 0
    requires interval > 0
    ensures Needed(jobs, ids) >= Usable(jobs, ids, interval) >= Min(interval, Needed(jobs, ids)) >= 0
  {
    if ids != [] {
      UsableCovers(jobs, ids[1..], interval);
    }
  }

  /** In all, an interval does exactly the lesser of what the executors can give and what the
      jobs can use of it. */
  lemma ServiceIsExact(ready: Queue, executors: int, interval: Effort)
    requires Sound(ready) && interval > 0
    ensures forall k :: 0 <= k < |Turns(ready)| ==> Turns(ready)[k] in ready.jobs
    ensures Total(Served(ready, executors, interval).q.jobs) ==
            Total(ready.jobs) - Min(Max(0, executors) * interval, Usable(ready.jobs, Turns(ready), interval))
  {
    TurnsAreServable(ready);
    assert Max(0, executors) * interval >= 0;
    var s := Service(ready, Max(0, executors) * interval, [], 0);
    ServeSpends(s, Turns(ready), interval);
    ServeInTotal(s, Turns(ready), interval);
  }

  /** Everyone with a turn, between them, needs all there is to do. */
  lemma TurnsNeedEverything(q: Queue)
    requires Sound(q)
    ensures forall k :: 0 <= k < |Turns(q)| ==> Turns(q)[k] in q.jobs && q.jobs[Turns(q)[k]].remaining >= 0
    ensures Needed(q.jobs, Turns(q)) == Total(q.jobs)
  {
    TurnsHold(q);
    forall x | x in q.jobs ensures q.jobs[x].remaining >= 0 && (x !in Turns(q) ==> q.jobs[x].remaining == 0) {
      assert Sane(q.jobs[x], x, x in q.running, q.now);
    }
    NeededIsTotal(q.jobs, Turns(q));
  }

  /** Nothing left to arrive, waiting or running. */
  ghost predicate Drained(q: Queue)
  {
    q.next >= |q.arrivals| && q.nextPending >= |q.pending| && Turns(q) == []
  }

  lemma NothingToDoIsDrained(q: Queue)
    requires Valid(q) && Log(q) == [] && Handed(q) == [] && Total(q.jobs) <= 0
    ensures Drained(q)
  {
    TurnsNeedEverything(q);
    TurnsAreServable(q);
    LeftToDo(q, Turns(q));
    if Turns(q) != [] {
      PositiveNeeds(q.jobs, Turns(q));
    }
  }

  lemma {:induction false} PositiveNeeds(jobs: Jobs, ids: seq<JobId>)
    requires forall k :: 0 <= k < |ids| ==> ids[k] in jobs && jobs[ids[k]].remaining > 0
    ensures Needed(jobs, ids) >= |ids|
  {
    if ids != [] {
      PositiveNeeds(jobs, ids[1..]);
    }
  }

  /** With nothing more to arrive and an executor ready, an interval's worth of work goes. */
  lemma DrainStep(q: Queue, to: Time, executors: int)
    requires Valid(q) && Log(q) == [] && Handed(q) == [] && to > q.now && executors >= 1
    ensures StreamsInOrder(q, to)
    ensures var r := Advance(q, to, executors).0;
            && Valid(r) && Log(r) == [] && Handed(r) == [] && r.now == to
            && Total(r.jobs) <= Max(0, Total(q.jobs) - (to - q.now))
  {
    hide Sound, Awaited, Turns, Served, Flag, Overdue, Total;
    var ready, d := Ready(q, to), to - q.now;
    assert Due(q, to) == [];
    AdvanceKeeps(q, to, executors);
    ReadyIsValid(q, to);
    ServedIsSound(ready, executors, d);
    ServiceIsExact(ready, executors, d);
    TurnsNeedEverything(ready);
    UsableCovers(ready.jobs, Turns(ready), d);
    assert executors * d >= d;
    var served := Served(ready, executors, d).q;
    FlagShape(served, Overdue(served));
    TotalAgrees(served.jobs, Flag(served, Overdue(served)).jobs);
  }

  lemma NothingDue(q: Queue, to: Time)
    requires q.next <= |q.arrivals| && q.nextPending <= |q.pending| && Log(q) == []
    ensures StreamsInOrder(q, to)
  {
  }

  /** One more interval of a queue nothing more arrives at. */
  ghost function Interval(q: Queue, d: Effort, executors: int): Queue
    requires Valid(q) && Log(q) == []
  {
    NothingDue(q, q.now + d);
    Advance(q, q.now + d, executors).0
  }

  lemma IntervalHolds(q: Queue, d: Effort, executors: int)
    requires Valid(q) && Log(q) == [] && Handed(q) == [] && d > 0 && executors >= 1
    ensures var r := Interval(q, d, executors);
            && Valid(r) && Log(r) == [] && Handed(r) == []
            && Total(r.jobs) <= Max(0, Total(q.jobs) - d)
  {
    hide Advance, Sound, Awaited, Total, StreamsInOrder;
    DrainStep(q, q.now + d, executors);
  }

  /** A run of intervals of one length. */
  ghost function Drain(q: Queue, d: Effort, capacities: seq<int>): Queue
    requires Valid(q) && Log(q) == [] && Handed(q) == [] && d > 0
    requires forall k :: 0 <= k < |capacities| ==> capacities[k] >= 1
    decreases |capacities|
  {
    if capacities == [] then q
    else
      IntervalHolds(q, d, capacities[0]);
      Drain(Interval(q, d, capacities[0]), d, capacities[1..])
  }

  /** Work W is done within W / d intervals, rounded up, however few executors there are. */
  lemma {:induction false} DrainsInTime(q: Queue, d: Effort, capacities: seq<int>)
    requires Valid(q) && Log(q) == [] && Handed(q) == [] && d > 0
    requires forall k :: 0 <= k < |capacities| ==> capacities[k] >= 1
    requires |capacities| * d >= Total(q.jobs)
    ensures Valid(Drain(q, d, capacities)) && Drained(Drain(q, d, capacities))
    decreases |capacities|
  {
    hide Interval, Sound, Awaited, Total, Turns;
    if capacities == [] {
      NothingToDoIsDrained(q);
    } else {
      IntervalHolds(q, d, capacities[0]);
      assert |capacities[1..]| * d == |capacities| * d - d;
      DrainsInTime(Interval(q, d, capacities[0]), d, capacities[1..]);
    }
  }
}
