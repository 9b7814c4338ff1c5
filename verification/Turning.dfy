/** Turns taken one at a time from the running list and the levels, and levels counted from
    the front: what the loops of internal/queue/queue.go:243-428 rest on. */
module Turning {
  import opened Basics
  import opened Work
  import opened QueueState
  import opened Admission
  import opened Serving
  import opened QueueOps

  // ---------- Taking turns from the levels ----------

  /** Levels without the empty ones. */
  function Pruned(levels: Levels): Levels { map p | p in levels && levels[p] != [] :: levels[p] }

  /** Taking the head of the most urgent level is taking the first turn. */
  lemma HeadFirst(jobs: Jobs, levels: Levels, p: Priority)
    requires Placed(jobs, levels) && p in levels && forall r :: r in levels ==> r <= p
    ensures levels[p] != [] && ByUrgency(levels) != [] && ByUrgency(levels)[0] == levels[p][0]
    ensures Without(levels[p], levels[p][0]) == levels[p][1..]
    ensures ByUrgency(Drop(levels, p, levels[p][0])) == ByUrgency(levels)[1..]
  {
    var level, id := levels[p], levels[p][0];
    assert Highest(levels.Keys) == p;
    forall k | 1 <= k < |level| ensures level[k] != id {
      assert Before(jobs, level[0], level[k]);
    }
    WithoutAbsent(level[1..], id);
    var after := Drop(levels, p, id);
    assert levels - {p} == after - {p};
    if level[1..] == [] {
      assert after == levels - {p};
      assert level == [id];
    } else {
      assert after.Keys == levels.Keys;
      assert Highest(after.Keys) == p;
      assert level + ByUrgency(levels - {p}) == [id] + (level[1..] + ByUrgency(levels - {p}));
    }
  }

  lemma {:induction false} WithoutAbsent(level: seq<JobId>, id: JobId)
    requires forall k :: 0 <= k < |level| ==> level[k] != id
    ensures Without(level, id) == level
  {
    if level != [] {
      WithoutAbsent(level[1..], id);
    }
  }

  /** Work finished where it stands in the running list. */
  lemma {:induction false} WithoutMiddle(a: seq<JobId>, id: JobId, b: seq<JobId>)
    requires Distinct(a + [id] + b)
    ensures Without(a + [id] + b, id) == a + b
  {
    if a == [] {
      assert forall k :: 0 <= k < |b| ==> ([id] + b)[k + 1] == b[k];
      WithoutAbsent(b, id);
      assert [] + [id] + b == [id] + b;
      assert ([id] + b)[1..] == b;
    } else {
      assert (a + [id] + b)[1..] == a[1..] + [id] + b;
      assert a[0] == (a + [id] + b)[0] && id == (a + [id] + b)[|a|];
      assert forall k :: 0 <= k < |a[1..] + [id] + b| ==> (a[1..] + [id] + b)[k] == (a + [id] + b)[k + 1];
      WithoutMiddle(a[1..], id, b);
      assert a + b == [a[0]] + (a[1..] + b);
    }
  }

  lemma AdmitFirst(q: Queue, job: Job, rest: seq<Job>)
    ensures AdmitAll(q, [job] + rest) == AdmitAll(Admit(q, job), rest)
  {
    assert ([job] + rest)[1..] == rest;
  }

  lemma AdmittedClock(q: Queue, to: Time)
    requires q.next <= |q.arrivals| && q.nextPending <= |q.pending|
    ensures Admitted(q, to).now == to && Admitted(q.(now := to), to) == Admitted(q, to)
  {
    AdmitAllClock(Moved(q, to), Due(q, to));
  }

  lemma {:induction false} AdmitAllClock(q: Queue, batch: seq<Job>)
    ensures AdmitAll(q, batch).now == q.now
    decreases |batch|
  {
    if batch != [] {
      AdmitAllClock(Admit(q, batch[0]), batch[1..]);
    }
  }

  lemma AdmitNone(q: Queue)
    ensures AdmitAll(q, []) == q
  {
  }

  /** What is due, as stretches of the two streams: up to the first job that is not. */
  lemma DueSlices(q: Queue, to: Time)
    requires q.next <= |q.arrivals| && q.nextPending <= |q.pending|
    ensures var a, b := q.next + DueCount(Log(q), to), q.nextPending + DueCount(Handed(q), to);
            && a <= |q.arrivals| && b <= |q.pending|
            && Due(q, to) == q.arrivals[q.next..a] + q.pending[q.nextPending..b]
            && (forall k :: q.next <= k < a ==> q.arrivals[k].submittedAt <= to)
            && (a < |q.arrivals| ==> q.arrivals[a].submittedAt > to)
            && (forall k :: q.nextPending <= k < b ==> q.pending[k].submittedAt <= to)
            && (b < |q.pending| ==> q.pending[b].submittedAt > to)
  {
    forall k | q.next <= k < q.next + DueCount(Log(q), to) ensures q.arrivals[k].submittedAt <= to {
      assert Log(q)[k - q.next] == q.arrivals[k];
    }
    forall k | q.nextPending <= k < q.nextPending + DueCount(Handed(q), to) ensures q.pending[k].submittedAt <= to {
      assert Handed(q)[k - q.nextPending] == q.pending[k];
    }
  }

  lemma HeadIsFirst(q: Queue, p: Priority)
    requires Sound(q) && p in q.levels && forall r :: r in q.levels ==> r <= p
    ensures q.levels[p] != [] && Without(q.levels[p], q.levels[p][0]) == q.levels[p][1..]
  {
    HeadFirst(q.jobs, q.levels, p);
  }

  /** What serving the head of a level does to a queue, field by field. */
  ghost predicate HeadServed(a: Queue, b: Queue, p: Priority, id: JobId, interval: Effort, budget: Effort,
                             work: Effort, done: bool, late: bool)
    requires id in a.jobs && p in a.levels && a.levels[p] != []
  {
    var item, picked := a.jobs[id], Picked(a.deadlines, a.jobs[id], a.now);
    && work == Share(interval, item.remaining, budget)
    && (done <==> item.remaining - work <= 0)
    && (late <==> picked.breached && !item.breached)
    && b == a.(levels := a.levels[p := a.levels[p][1..]],
               jobs := a.jobs[id := picked.(remaining := item.remaining - work)],
               running := if done then a.running else a.running + [id],
               exemptWaiting := a.exemptWaiting - Bit(item.exempt),
               completed := a.completed + Bit(done),
               breached := a.breached + Bit(late),
               breachedAsSubmitted := a.breachedAsSubmitted + Bit(picked.breachedAsSubmitted && !item.breachedAsSubmitted))
  }

  /** Serving the head of a level is one turn taken. */
  lemma HeadServedIsBegun(a: Queue, b: Queue, p: Priority, id: JobId, interval: Effort, budget: Effort,
                          finished: seq<JobId>, lateStarts: nat, work: Effort, done: bool, late: bool)
    requires p in a.levels && a.levels[p] != [] && a.levels[p][0] == id && id in a.jobs
    requires HeadServed(a, b, p, id, interval, budget, work, done, late)
    requires Without(a.levels[p], id) == a.levels[p][1..]
    ensures Service(b.(levels := Pruned(b.levels)), budget - work, finished + (if done then [id] else []), lateStarts + Bit(late))
            == Begun(Service(a.(levels := Pruned(a.levels)), budget, finished, lateStarts), p, id, interval)
  {
    hide Share, Picked, Drop, Pruned;
    PrunedServed(a.levels, p);
    assert finished + [] == finished;
  }

  /** Service from the levels under way: levels served empty are as good as gone, and
      serving what is left of them gives what serving them all would have. */
  ghost predicate Underway(q: Queue, budget: Effort, finished: seq<JobId>, late: nat, interval: Effort, whole: Service)
  {
    var now := q.(levels := Pruned(q.levels));
    && Sound(now) && Servable(now, ByUrgency(now.levels))
    && Serve(Service(now, budget, finished, late), ByUrgency(now.levels), interval) == whole
  }

  /** The head of the most urgent level left is a whole job waiting. */
  lemma TurnReady(q: Queue, p: Priority, budget: Effort, finished: seq<JobId>, late: nat, interval: Effort, whole: Service)
    requires Underway(q, budget, finished, late, interval, whole)
    requires p in q.levels && q.levels[p] != [] && forall r :: r in q.levels && r > p ==> q.levels[r] == []
    requires budget > 0 && interval > 0
    ensures q.levels[p][0] in q.jobs && q.jobs[q.levels[p][0]].started.None?
  {
    var now, id := q.(levels := Pruned(q.levels)), q.levels[p][0];
    HeadTurn(Service(now, budget, finished, late), p, interval);
    assert Sane(now.jobs[id], id, id in now.running, now.now);
  }

  lemma TurnTaken(a: Queue, b: Queue, p: Priority, budget: Effort, finished: seq<JobId>, lateStarts: nat, interval: Effort,
                  whole: Service, work: Effort, done: bool, late: bool)
    requires Underway(a, budget, finished, lateStarts, interval, whole)
    requires p in a.levels && a.levels[p] != [] && forall r :: r in a.levels && r > p ==> a.levels[r] == []
    requires budget > 0 && interval > 0 && a.levels[p][0] in a.jobs
    requires HeadServed(a, b, p, a.levels[p][0], interval, budget, work, done, late)
    ensures Underway(b, budget - work, finished + (if done then [a.levels[p][0]] else []), lateStarts + Bit(late), interval, whole)
  {
    hide Sound, Servable, Serve, ByUrgency, HeadServed, Begun;
    var now := a.(levels := Pruned(a.levels));
    HeadTurn(Service(now, budget, finished, lateStarts), p, interval);
    HeadIsFirst(now, p);
    HeadServedIsBegun(a, b, p, a.levels[p][0], interval, budget, finished, lateStarts, work, done, late);
  }

  /** With nothing left to spend, or no one left waiting, service is over. */
  lemma ServedOut(q: Queue, budget: Effort, finished: seq<JobId>, late: nat, interval: Effort, whole: Service)
    requires Underway(q, budget, finished, late, interval, whole)
    requires budget <= 0 || forall p :: p in q.levels ==> q.levels[p] == []
    ensures Service(q.(levels := Pruned(q.levels)), budget, finished, late) == whole
  {
    if budget > 0 {
      assert Pruned(q.levels) == map[];
    }
  }

  /** Levels none of which is empty have nothing to prune. */
  lemma PrunedIsPlaced(q: Queue)
    requires Sound(q)
    ensures q.(levels := Pruned(q.levels)) == q
  {
    forall p ensures p in Pruned(q.levels) <==> p in q.levels {}
    assert Pruned(q.levels).Keys == q.levels.Keys;
    assert Pruned(q.levels) == q.levels;
  }

  /** Levels add up to what they hold, in whatever order they are added. */
  lemma {:induction false} ByUrgencyWithout(levels: Levels, p: Priority)
    requires p in levels
    ensures |ByUrgency(levels)| == |levels[p]| + |ByUrgency(levels - {p})|
    decreases |levels|
  {
    var r := Highest(levels.Keys);
    if p != r {
      ByUrgencyWithout(levels - {r}, p);
      assert (levels - {r}) - {p} == (levels - {p}) - {r};
      var rest := levels - {p};
      assert r in rest;
      ByUrgencyWithout(rest, r);
    }
  }

  // ---------- Counting breaches ----------

  /** Some jobs marked as breached, and nothing else changed. */
  ghost predicate FlaggedIn(was: Jobs, jobs: Jobs, found: set<JobId>)
  {
    && jobs.Keys == was.Keys
    && forall id :: id in was ==> jobs[id] == was[id].(breached := was[id].breached || id in found)
  }

  lemma LevelIsWaiting(q: Queue, p: Priority)
    requires Sound(q) && p in q.levels
    ensures Ranked(q.jobs, q.levels[p]) && Distinct(q.levels[p])
    ensures forall id :: id in q.levels[p] <==> Waits(q.jobs, id, p)
    ensures forall k :: 0 <= k < |q.levels[p]| ==> Waits(q.jobs, q.levels[p][k], p)
  {
    assert forall id :: id in LevelAt(q.levels, p) <==> Waits(q.jobs, id, p);
    var level := q.levels[p];
    forall k | 0 <= k < |level| ensures Waits(q.jobs, level[k], p) {
      var id := level[k];
      assert id in level;
    }
  }

  /** Past the first job in time, everyone is. */
  lemma RestInTime(q: Queue, p: Priority, k: nat)
    requires Sound(q) && p in q.levels && k <= |q.levels[p]|
    requires k < |q.levels[p]| ==> !LateNow(q.deadlines, q.jobs[q.levels[p][k]], q.now)
    ensures forall id :: id in q.levels[p] && id in Overdue(q) ==> id in q.levels[p][..k]
  {
    var level := q.levels[p];
    LevelIsWaiting(q, p);
    forall id | id in level && id in Overdue(q) ensures id in level[..k] {
      var l :| 0 <= l < |level| && level[l] == id;
      assert l > k ==> Before(q.jobs, level[k], level[l]);
      assert l < k ==> level[..k][l] == id;
    }
  }

  lemma OverdueIsWaiting(q: Queue)
    requires Sound(q)
    ensures forall id :: id in Overdue(q) ==> id in q.jobs && q.jobs[id].job.priority in q.levels
    ensures forall p, id :: p in q.levels && id in q.levels[p] ==> id in q.jobs && q.jobs[id].job.priority == p
    ensures forall id :: id in Overdue(q) ==> id in q.levels[q.jobs[id].job.priority]
  {
    forall id | id in Overdue(q) ensures q.jobs[id].job.priority in q.levels && id in q.levels[q.jobs[id].job.priority] {
      assert Waits(q.jobs, id, q.jobs[id].job.priority);
    }
    forall p, id | p in q.levels && id in q.levels[p] ensures id in q.jobs && q.jobs[id].job.priority == p {
      assert id in LevelAt(q.levels, p) && Waits(q.jobs, id, p);
    }
  }

  /** The overdue jobs of every level but some. */
  ghost predicate CountedBut(q: Queue, found: set<JobId>, left: set<Priority>)
  {
    forall id :: id in found <==> id in Overdue(q) && q.jobs[id].job.priority !in left
  }

  lemma NothingCounted(q: Queue)
    requires Sound(q)
    ensures CountedBut(q, {}, q.levels.Keys) && FlaggedIn(q.jobs, q.jobs, {})
  {
    hide Sound, Overdue;
    OverdueIsWaiting(q);
  }

  lemma LevelUncounted(q: Queue, found: set<JobId>, left: set<Priority>, p: Priority)
    requires Sound(q) && CountedBut(q, found, left) && p in left && p in q.levels
    ensures forall id :: id in q.levels[p] ==> id !in found
  {
    OverdueIsWaiting(q);
  }

  lemma LevelDone(q: Queue, found: set<JobId>, left: set<Priority>, p: Priority, more: set<JobId>)
    requires Sound(q) && CountedBut(q, found, left) && p in left && p in q.levels
    requires forall id :: id in more <==> id in q.levels[p] && id in Overdue(q)
    ensures CountedBut(q, found + more, left - {p})
    ensures |found + more| == |found| + |more|
  {
    hide Sound, Overdue;
    OverdueIsWaiting(q);
    LevelUncounted(q, found, left, p);
    forall id | id in more ensures id !in found {
      assert id in q.levels[p];
    }
    assert found !! more;
  }

  lemma AllCounted(q: Queue, jobs: Jobs, found: set<JobId>)
    requires FlaggedIn(q.jobs, jobs, found) && CountedBut(q, found, {})
    ensures |found| == |Overdue(q)| && q.(jobs := jobs, breached := q.breached + |found|) == Flag(q, Overdue(q))
  {
    forall id ensures id in found <==> id in Overdue(q) {}
    assert found == Overdue(q);
    FlagShape(q, found);
    forall id | id in jobs ensures jobs[id] == Flag(q, found).jobs[id] {
      assert id in q.jobs.Keys;
    }
  }

  // ---------- Levels served ----------

  /** A level served from the front, with or without the rest of it. */
  lemma PrunedServed(levels: Levels, p: Priority)
    requires p in levels && levels[p] != [] && Without(levels[p], levels[p][0]) == levels[p][1..]
    ensures Pruned(levels[p := levels[p][1..]]) == Drop(Pruned(levels), p, levels[p][0])
  {
    assert Pruned(levels[p := levels[p][1..]]).Keys == Drop(Pruned(levels), p, levels[p][0]).Keys;
  }

  // ---------- Turns one at a time ----------

  /** What a turn makes of the queue, for the job at the head of the most urgent level. */
  function Begun(s: Service, p: Priority, id: JobId, interval: Effort): Service
    requires id in s.q.jobs
  {
    var d, item, picked := s.q.deadlines, s.q.jobs[id], Picked(s.q.deadlines, s.q.jobs[id], s.q.now);
    var work := Share(interval, item.remaining, s.budget);
    var done := item.remaining - work <= 0;
    var late := picked.breached && !item.breached;
    Service(s.q.(levels := Drop(s.q.levels, p, id),
                 jobs := s.q.jobs[id := picked.(remaining := item.remaining - work)],
                 running := if done then s.q.running else s.q.running + [id],
                 exemptWaiting := s.q.exemptWaiting - Bit(item.exempt),
                 completed := s.q.completed + Bit(done),
                 breached := s.q.breached + Bit(late),
                 breachedAsSubmitted := s.q.breachedAsSubmitted + Bit(picked.breachedAsSubmitted && !item.breachedAsSubmitted)),
            s.budget - work, if done then s.finished + [id] else s.finished, s.late + Bit(late))
  }

  lemma GiveWaiting(s: Service, id: JobId, interval: Effort)
    requires Partitioned(s.q) && id in s.q.jobs && s.q.jobs[id].waiting
    ensures Give(s, id, interval) == Begun(s, s.q.jobs[id].job.priority, id, interval)
  {
    hide Drop, Share, LateNow, LateAsSubmitted, Partitioned, Without;
    LastOut(s.q, id);
  }

  /** A waiting job is not running: put at the end of the running list and taken out again, it
      leaves the list as it was. */
  lemma LastOut(q: Queue, id: JobId)
    requires Partitioned(q) && id in q.jobs && q.jobs[id].waiting
    ensures Without(q.running + [id], id) == q.running
  {
    assert Sane(q.jobs[id], id, id in q.running, q.now);
    WithoutMiddle(q.running, id, []);
    assert q.running + [id] + [] == q.running + [id] && q.running + [] == q.running;
  }

  /** The turn of the head of the most urgent level. */
  lemma HeadTurn(s: Service, p: Priority, interval: Effort)
    requires Sound(s.q) && interval > 0 && s.budget > 0
    requires p in s.q.levels && forall r :: r in s.q.levels ==> r <= p
    requires Servable(s.q, ByUrgency(s.q.levels))
    ensures s.q.levels[p] != [] && s.q.levels[p][0] in s.q.jobs
    ensures var id := s.q.levels[p][0];
            var next := Begun(s, p, id, interval);
            && s.q.jobs[id].waiting && s.q.jobs[id].remaining > 0
            && Sound(next.q) && Servable(next.q, ByUrgency(next.q.levels))
            && Serve(s, ByUrgency(s.q.levels), interval) == Serve(next, ByUrgency(next.q.levels), interval)
  {
    HeadFirst(s.q.jobs, s.q.levels, p);
    var id := s.q.levels[p][0];
    assert id in LevelAt(s.q.levels, p);
    assert Waits(s.q.jobs, id, p);
    assert Partitioned(s.q) && Sane(s.q.jobs[id], id, id in s.q.running, s.q.now);
    hide Sound, Partitioned, Give, ByUrgency, Placed, Distinct, Picked;
    GiveWaiting(s, id, interval);
    ServableRest(s, ByUrgency(s.q.levels), interval);
  }

  /** What a turn makes of the queue, for a job in progress. */
  function Progressed(s: Service, a: seq<JobId>, id: JobId, b: seq<JobId>, interval: Effort): Service
    requires id in s.q.jobs
  {
    var item, work := s.q.jobs[id], Share(interval, s.q.jobs[id].remaining, s.budget);
    var done := item.remaining - work <= 0;
    Service(s.q.(jobs := s.q.jobs[id := item.(remaining := item.remaining - work)],
                 running := if done then a + b else a + [id] + b,
                 completed := s.q.completed + Bit(done)),
            s.budget - work, if done then s.finished + [id] else s.finished, s.late)
  }

  lemma GiveRunning(s: Service, a: seq<JobId>, id: JobId, b: seq<JobId>, interval: Effort)
    requires Partitioned(s.q) && s.q.running == a + [id] + b
    ensures id in s.q.jobs && Give(s, id, interval) == Progressed(s, a, id, b, interval)
  {
    hide Partitioned, Drop, Start, LateNow, LateAsSubmitted, Without;
    IsUnderway(s.q, |a|);
    assert id == s.q.running[|a|];
    WithoutMiddle(a, id, b);
  }

  /** A running job is not waiting. */
  lemma IsUnderway(q: Queue, k: nat)
    requires Partitioned(q) && k < |q.running|
    ensures q.running[k] in q.jobs && !q.jobs[q.running[k]].waiting && Distinct(q.running)
  {
    var id := q.running[k];
    assert Sane(q.jobs[id], id, id in q.running, q.now);
  }

  /** The turn of a job in progress. */
  lemma RunningTurn(s: Service, a: seq<JobId>, id: JobId, b: seq<JobId>, waiting: seq<JobId>, interval: Effort)
    requires Sound(s.q) && interval > 0 && s.budget > 0
    requires s.q.running == a + [id] + b && Servable(s.q, [id] + (b + waiting))
    ensures id in s.q.jobs
    ensures var next := Progressed(s, a, id, b, interval);
            && Sound(next.q) && Servable(next.q, b + waiting)
            && Serve(s, [id] + (b + waiting), interval) == Serve(next, b + waiting, interval)
  {
    assert Partitioned(s.q);
    hide Sound, Partitioned, Give, Progressed, Distinct;
    GiveRunning(s, a, id, b, interval);
    assert ([id] + (b + waiting))[1..] == b + waiting;
    ServableRest(s, [id] + (b + waiting), interval);
  }

  lemma ServedByNoFewerThanNone(q: Queue, executors: int, interval: Effort)
    requires Sound(q)
    ensures Served(q, Max(0, executors), interval) == Served(q, executors, interval)
  {
  }

  lemma ServeNothing(s: Service, ids: seq<JobId>, interval: Effort)
    requires Servable(s.q, ids) && s.budget <= 0
    ensures Serve(s, ids, interval) == s
  {
  }

  /** When no one is left running, or nothing is left to spend. */
  lemma ServeNoFurther(s: Service, running: seq<JobId>, waiting: seq<JobId>, interval: Effort)
    requires Servable(s.q, running + waiting) && (running == [] || s.budget <= 0)
    ensures Servable(s.q, waiting)
    ensures Serve(s, running + waiting, interval) == Serve(s, waiting, interval)
  {
    if running == [] {
      assert running + waiting == waiting;
    }
    assert forall k :: 0 <= k < |waiting| ==> waiting[k] == (running + waiting)[|running| + k];
  }
}
