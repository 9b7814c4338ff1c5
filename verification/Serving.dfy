/** How an interval of executor time is spent: internal/queue/queue.go:278-428. Work in
    progress is served first and then what waits, most urgent level first, each job given
    no more than the interval, until the budget is spent. */
module Serving {
  import opened Basics
  import opened Work
  import opened QueueState

  /** All that waits, most urgent level first and each level in its order. */
  ghost function ByUrgency(levels: Levels): seq<JobId>
    decreases |levels|
  {
    if levels == map[] then []
    else
      var p := Highest(levels.Keys);
      levels[p] + ByUrgency(levels - {p})
  }

  /** Work in progress first, then what waits. */
  ghost function Turns(q: Queue): seq<JobId> { q.running + ByUrgency(q.levels) }

  /** Service in flight: the queue so far, what is left of the budget, what has finished and
      how many jobs started late. */
  datatype Service = Service(q: Queue, budget: Effort, finished: seq<JobId>, late: nat)

  function Share(interval: Effort, remaining: Effort, budget: Effort): Effort
  {
    Min(Min(interval, remaining), budget)
  }

  /** Past the deadline of the priority a job holds, from its deadline origin. */
  predicate LateNow(d: Deadlines, item: Item, now: Time)
  {
    now - item.deadlineFrom > d.For(item.job.priority)
  }

  /** Past the deadline of the priority a job was submitted with, from its submission. */
  predicate LateAsSubmitted(d: Deadlines, item: Item, now: Time)
  {
    now - item.job.submittedAt > d.For(item.submitted)
  }

  function Picked(d: Deadlines, item: Item, now: Time): Item
  {
    item.(started := Some(now), waiting := false,
          breached := item.breached || LateNow(d, item, now),
          breachedAsSubmitted := item.breachedAsSubmitted || LateAsSubmitted(d, item, now))
  }

  /** A waiting job picked up: it leaves its level, and both its deadlines are settled. */
  function Start(q: Queue, id: JobId): Queue
    requires id in q.jobs
  {
    var item, picked := q.jobs[id], Picked(q.deadlines, q.jobs[id], q.now);
    q.(levels := Drop(q.levels, item.job.priority, id),
       running := q.running + [id],
       jobs := q.jobs[id := picked],
       exemptWaiting := q.exemptWaiting - Bit(item.exempt),
       breached := q.breached + Bit(picked.breached && !item.breached),
       breachedAsSubmitted := q.breachedAsSubmitted + Bit(picked.breachedAsSubmitted && !item.breachedAsSubmitted))
  }

  /** Work done on a running job; it is completed when nothing remains. */
  function Spend(q: Queue, id: JobId, work: Effort): Queue
    requires id in q.jobs
  {
    var item := q.jobs[id].(remaining := q.jobs[id].remaining - work);
    if item.remaining <= 0 then
      q.(jobs := q.jobs[id := item], running := Without(q.running, id), completed := q.completed + 1)
    else q.(jobs := q.jobs[id := item])
  }

  /** One job given its share. */
  function Give(s: Service, id: JobId, interval: Effort): (r: Service)
    requires id in s.q.jobs
    ensures r.q.jobs.Keys == s.q.jobs.Keys
  {
    var item := s.q.jobs[id];
    var work := Share(interval, item.remaining, s.budget);
    var begun := if item.waiting then Start(s.q, id) else s.q;
    Service(Spend(begun, id, work), s.budget - work,
            if item.remaining - work <= 0 then s.finished + [id] else s.finished,
            s.late + if begun.breached > s.q.breached then 1 else 0)
  }

  /** Jobs served in turn until the budget is spent. */
  function Serve(s: Service, ids: seq<JobId>, interval: Effort): Service
    requires forall k :: 0 <= k < |ids| ==> ids[k] in s.q.jobs
    decreases |ids|
  {
    if ids == [] || s.budget <= 0 then s else Serve(Give(s, ids[0], interval), ids[1..], interval)
  }

  // ---------- Turns ----------

  /** Levels hold waiting jobs of their own priority, in order. */
  ghost predicate Filed(jobs: Jobs, levels: Levels)
  {
    forall p :: p in levels ==> Ranked(jobs, levels[p]) && forall x :: x in levels[p] ==> Waits(jobs, x, p)
  }

  /** More urgent, or as urgent and nearer its deadline. */
  predicate Sooner(jobs: Jobs, a: JobId, b: JobId)
    requires a in jobs && b in jobs
  {
    || jobs[a].job.priority > jobs[b].job.priority
    || (jobs[a].job.priority == jobs[b].job.priority && Before(jobs, a, b))
  }

  lemma {:induction false} ByUrgencyHolds(jobs: Jobs, levels: Levels)
    requires Filed(jobs, levels)
    ensures var ids := ByUrgency(levels);
            && (forall x :: x in ids <==> x in jobs && x in LevelAt(levels, jobs[x].job.priority))
            && (forall k :: 0 <= k < |ids| ==> ids[k] in jobs)
            && (forall k, l :: 0 <= k < l < |ids| ==> Sooner(jobs, ids[k], ids[l]))
    decreases |levels|
  {
    if levels != map[] {
      var p := Highest(levels.Keys);
      var head, rest := levels[p], levels - {p};
      ByUrgencyHolds(jobs, rest);
      var tail := ByUrgency(rest);
      var ids := head + tail;
      forall x ensures x in ids <==> x in jobs && x in LevelAt(levels, jobs[x].job.priority) {
        if x in head {
          assert Waits(jobs, x, p);
        }
      }
      forall k | 0 <= k < |ids| ensures ids[k] in jobs {
        assert ids[k] in ids;
      }
      forall k, l | 0 <= k < l < |ids| ensures Sooner(jobs, ids[k], ids[l]) {
        if k < |head| {
          assert head[k] in head && Waits(jobs, head[k], p);
          if l < |head| {
            assert head[l] in head && Waits(jobs, head[l], p);
          } else {
            assert ids[l] == tail[l - |head|] && tail[l - |head|] in tail;
            assert jobs[ids[l]].job.priority in levels.Keys;
          }
        } else {
          assert ids[k] == tail[k - |head|] && ids[l] == tail[l - |head|];
        }
      }
    }
  }

  /** Those waiting, in the order they are served. */
  lemma WaitingByUrgency(q: Queue)
    requires Placed(q.jobs, q.levels)
    ensures var ids := ByUrgency(q.levels);
            && (forall x :: x in ids <==> x in q.jobs && q.jobs[x].waiting)
            && (forall k :: 0 <= k < |ids| ==> ids[k] in q.jobs)
            && (forall k, l :: 0 <= k < l < |ids| ==> Sooner(q.jobs, ids[k], ids[l]))
  {
    forall p | p in q.levels ensures forall x :: x in q.levels[p] ==> Waits(q.jobs, x, p) {
      assert LevelAt(q.levels, p) == q.levels[p];
    }
    ByUrgencyHolds(q.jobs, q.levels);
    var ids := ByUrgency(q.levels);
    forall x ensures x in ids <==> x in q.jobs && q.jobs[x].waiting {
      if x in q.jobs {
        var p := q.jobs[x].job.priority;
        assert x in LevelAt(q.levels, p) <==> Waits(q.jobs, x, p);
      }
    }
  }

  /** Everyone running or waiting has exactly one turn; those waiting, by urgency. */
  lemma TurnsHold(q: Queue)
    requires Sound(q)
    ensures var turns, n := Turns(q), |q.running|;
            && (forall k :: 0 <= k < |turns| ==> turns[k] in q.jobs)
            && Distinct(turns)
            && (forall x :: x in turns <==> x in q.running || (x in q.jobs && q.jobs[x].waiting))
            && (forall k :: n <= k < |turns| ==> q.jobs[turns[k]].waiting)
            && (forall k, l :: n <= k < l < |turns| ==> Sooner(q.jobs, turns[k], turns[l]))
  {
    WaitingByUrgency(q);
    var ids, turns, n := ByUrgency(q.levels), Turns(q), |q.running|;
    forall x | x in q.running ensures x in q.jobs && !q.jobs[x].waiting {
      assert Sane(q.jobs[x], x, true, q.now);
    }
    hide Sound, ByUrgency;
    assert forall k :: 0 <= k < |ids| ==> ids[k] in ids;
    forall k | 0 <= k < |turns|
      ensures turns[k] == if k < n then q.running[k] else ids[k - n]
    {
    }
    forall k, l | 0 <= k < l < |turns| ensures turns[k] != turns[l] {
      if k >= n {
        assert Sooner(q.jobs, ids[k - n], ids[l - n]);
      } else if l >= n {
        assert q.running[k] in q.running;
      }
    }
    forall k, l | n <= k < l < |turns| ensures Sooner(q.jobs, turns[k], turns[l]) {
      assert Sooner(q.jobs, ids[k - n], ids[l - n]);
    }
  }

  // ---------- Serving one job ----------

  lemma {:induction false} WithoutKeepsDistinct(ids: seq<JobId>, id: JobId)
    requires Distinct(ids)
    ensures Distinct(Without(ids, id))
    ensures forall x :: x in Without(ids, id) <==> x in ids && x != id
  {
    if ids != [] {
      assert forall k :: 0 <= k < |ids[1..]| ==> ids[1..][k] == ids[k + 1];
      WithoutKeepsDistinct(ids[1..], id);
      assert ids == [ids[0]] + ids[1..];
      var rest := Without(ids[1..], id);
      assert forall k :: 0 <= k < |rest| ==> rest[k] in rest;
    }
  }

  lemma StartKeeps(q: Queue, id: JobId)
    requires Sound(q) && id in q.jobs && q.jobs[id].waiting
    ensures Sound(Start(q, id)) && id in Start(q, id).running
  {
    var picked := Picked(q.deadlines, q.jobs[id], q.now);
    DropKeeps(q.jobs, q.levels, id, picked);
    Recount(q.jobs, id, picked, IsCompleted);
    Recount(q.jobs, id, picked, IsExempt);
    Recount(q.jobs, id, picked, IsBreached);
    Recount(q.jobs, id, picked, IsBreachedAsSubmitted);
    Recount(q.jobs, id, picked, IsReprioritised);
    assert Sane(q.jobs[id], id, id in q.running, q.now);
    var r := Start(q, id);
    assert r.jobs.Keys == q.jobs.Keys;
    assert forall x :: x in r.running <==> x in q.running || x == id;
  }

  lemma SpendKeeps(q: Queue, id: JobId, work: Effort)
    requires Sound(q) && id in q.jobs && id in q.running
    requires 0 < work <= q.jobs[id].remaining
    ensures Sound(Spend(q, id, work))
    ensures forall x :: x in Spend(q, id, work).running <==>
                        x in q.running && (x == id ==> work < q.jobs[id].remaining)
  {
    var item := q.jobs[id].(remaining := q.jobs[id].remaining - work);
    assert Sane(q.jobs[id], id, true, q.now);
    RefiledSame(q.jobs, q.levels, id, item);
    WithoutKeepsDistinct(q.running, id);
    Recount(q.jobs, id, item, IsCompleted);
    Recount(q.jobs, id, item, IsExempt);
    Recount(q.jobs, id, item, IsBreached);
    Recount(q.jobs, id, item, IsBreachedAsSubmitted);
    Recount(q.jobs, id, item, IsReprioritised);
    assert q.jobs[id := item].Keys == q.jobs.Keys;
    assert forall k :: 0 <= k < |Without(q.running, id)| ==> Without(q.running, id)[k] in Without(q.running, id);
  }

  /** A change to a job that moves neither it nor its deadline moves no level. */
  lemma RefiledSame(jobs: Jobs, levels: Levels, id: JobId, item: Item)
    requires Placed(jobs, levels) && id in jobs
    requires item.waiting == jobs[id].waiting && item.job.priority == jobs[id].job.priority
    requires item.deadlineFrom == jobs[id].deadlineFrom
    ensures Placed(jobs[id := item], levels)
  {
    var jobs' := jobs[id := item];
    forall p, x ensures x in LevelAt(levels, p) <==> Waits(jobs', x, p) {
      assert x in LevelAt(levels, p) <==> Waits(jobs, x, p);
    }
    forall p | p in levels ensures Ranked(jobs', levels[p]) {
      assert Ranked(jobs, levels[p]);
    }
  }

  /** What a turn makes of a job, when those ahead of it leave this much of the budget. */
  function Outcome(d: Deadlines, now: Time, item: Item, interval: Effort, left: Effort): Item
  {
    if left <= 0 then item
    else (if item.waiting then Picked(d, item, now) else item).(remaining := item.remaining - Share(interval, item.remaining, left))
  }

  /** What one turn changes: the one job served, and nothing else. */
  lemma GiveKeeps(s: Service, id: JobId, interval: Effort)
    requires Sound(s.q) && interval > 0 && s.budget > 0
    requires id in s.q.jobs && (s.q.jobs[id].waiting || id in s.q.running)
    ensures var r := Give(s, id, interval);
            && Sound(r.q)
            && r.q.now == s.q.now && r.q.deadlines == s.q.deadlines
            && r.q.breached - s.q.breached == r.late - s.late
            && (forall x :: x in s.q.jobs && x != id ==> r.q.jobs[x] == s.q.jobs[x] && (x in r.q.running <==> x in s.q.running))
            && r.q.jobs[id] == Outcome(s.q.deadlines, s.q.now, s.q.jobs[id], interval, s.budget)
            && r.budget == s.budget - Share(interval, s.q.jobs[id].remaining, s.budget)
            && r.finished == s.finished + (if r.q.jobs[id].remaining <= 0 then [id] else [])
  {
    hide Placed, Counted;
    var item := s.q.jobs[id];
    assert Sane(item, id, id in s.q.running, s.q.now);
    var work := Share(interval, item.remaining, s.budget);
    if item.waiting {
      StartKeeps(s.q, id);
      SpendKeeps(Start(s.q, id), id, work);
    } else {
      SpendKeeps(s.q, id, work);
    }
  }

  // ---------- Serving everyone in turn ----------

  /** What some jobs could use of an interval, were the budget no limit. */
  function Usable(jobs: Jobs, ids: seq<JobId>, interval: Effort): Effort
    requires forall k :: 0 <= k < |ids| ==> ids[k] in jobs
  {
    if ids == [] then 0 else Min(interval, jobs[ids[0]].remaining) + Usable(jobs, ids[1..], interval)
  }

  /** Those of some jobs with nothing left to do. */
  function Finished(jobs: Jobs, ids: seq<JobId>): seq<JobId>
    requires forall k :: 0 <= k < |ids| ==> ids[k] in jobs
  {
    if ids == [] then []
    else (if jobs[ids[0]].remaining <= 0 then [ids[0]] else []) + Finished(jobs, ids[1..])
  }

  /** Jobs that can be served in turn. */
  ghost predicate Servable(q: Queue, ids: seq<JobId>)
  {
    && Distinct(ids)
    && (forall k :: 0 <= k < |ids| ==> ids[k] in q.jobs && (q.jobs[ids[k]].waiting || ids[k] in q.running))
  }

  lemma TurnsAreServable(q: Queue)
    requires Sound(q)
    ensures Servable(q, Turns(q))
  {
    TurnsHold(q);
    var turns := Turns(q);
    forall k | 0 <= k < |turns| ensures turns[k] in q.jobs && (q.jobs[turns[k]].waiting || turns[k] in q.running) {
      var x := turns[k];
      assert x in turns;
    }
  }

  lemma ServableRest(s: Service, ids: seq<JobId>, interval: Effort)
    requires Sound(s.q) && interval > 0 && s.budget > 0 && ids != [] && Servable(s.q, ids)
    ensures var next := Give(s, ids[0], interval);
            && Sound(next.q) && Servable(next.q, ids[1..])
            && (forall k :: 1 <= k < |ids| ==> next.q.jobs[ids[k]] == s.q.jobs[ids[k]])
  {
    GiveKeeps(s, ids[0], interval);
    assert forall k :: 0 <= k < |ids[1..]| ==> ids[1..][k] == ids[k + 1];
  }

  /** Service keeps what holds, counts as breached exactly what it says started late, and
      touches no one who had no turn. */
  lemma {:induction false} ServeKeeps(s: Service, ids: seq<JobId>, interval: Effort)
    requires Sound(s.q) && interval > 0 && Servable(s.q, ids)
    ensures var r := Serve(s, ids, interval);
            && Sound(r.q)
            && r.q.jobs.Keys == s.q.jobs.Keys
            && r.q == s.q.(levels := r.q.levels, running := r.q.running, jobs := r.q.jobs, exemptWaiting := r.q.exemptWaiting,
                           completed := r.q.completed, breached := r.q.breached, breachedAsSubmitted := r.q.breachedAsSubmitted)
            && r.q.breached - s.q.breached == r.late - s.late
            && (forall x :: x in s.q.jobs && x !in ids ==> r.q.jobs[x] == s.q.jobs[x])
    decreases |ids|
  {
    if ids != [] && s.budget > 0 {
      var next := Give(s, ids[0], interval);
      GiveKeeps(s, ids[0], interval);
      ServableRest(s, ids, interval);
      ServeKeeps(next, ids[1..], interval);
    }
  }

  /** Exactly what each job is left with: it is given what it can use of what those ahead of
      it leave, and is untouched if they leave nothing. */
  lemma {:induction false} ServeExactly(s: Service, ids: seq<JobId>, interval: Effort, k: nat)
    requires Sound(s.q) && interval > 0 && Servable(s.q, ids) && k < |ids|
    ensures var r := Serve(s, ids, interval);
            var left := s.budget - Usable(s.q.jobs, ids[..k], interval);
            var before := s.q.jobs[ids[k]];
            && ids[k] in r.q.jobs
            && r.q.jobs[ids[k]] == Outcome(s.q.deadlines, s.q.now, before, interval, left)
    decreases |ids|
  {
    hide Give, Sound, Picked;
    LeftToDo(s.q, ids);
    UsableIsPositive(s.q, ids[..k], interval);
    if s.budget > 0 {
      var next := Give(s, ids[0], interval);
      GiveKeeps(s, ids[0], interval);
      ServableRest(s, ids, interval);
      ServeKeeps(next, ids[1..], interval);
      if k > 0 {
        ServeExactly(next, ids[1..], interval, k - 1);
        assert ids[..k][1..] == ids[1..][..k - 1];
        UsableAgrees(s.q.jobs, next.q.jobs, ids[1..][..k - 1], interval);
        UsableIsPositive(s.q, ids[..k][1..], interval);
      }
    }
  }

  lemma {:induction false} UsableAgrees(a: Jobs, b: Jobs, ids: seq<JobId>, interval: Effort)
    requires forall k :: 0 <= k < |ids| ==> ids[k] in a && ids[k] in b && a[ids[k]].remaining == b[ids[k]].remaining
    ensures Usable(a, ids, interval) == Usable(b, ids, interval)
  {
    if ids != [] {
      UsableAgrees(a, b, ids[1..], interval);
    }
  }

  lemma {:induction false} UsableIsPositive(q: Queue, ids: seq<JobId>, interval: Effort)
    requires Sound(q) && interval > 0
    requires forall k :: 0 <= k < |ids| ==> ids[k] in q.jobs
    ensures Usable(q.jobs, ids, interval) >= 0
  {
    if ids != [] {
      assert Sane(q.jobs[ids[0]], ids[0], ids[0] in q.running, q.now);
      UsableIsPositive(q, ids[1..], interval);
    }
  }

  /** In all, exactly the lesser of the budget and what the jobs can use is spent. */
  lemma {:induction false} ServeInTotal(s: Service, ids: seq<JobId>, interval: Effort)
    requires Sound(s.q) && interval > 0 && Servable(s.q, ids) && s.budget >= 0
    ensures Serve(s, ids, interval).budget == s.budget - Min(s.budget, Usable(s.q.jobs, ids, interval))
    decreases |ids|
  {
    hide Give, Sound, Distinct;
    UsableIsPositive(s.q, ids, interval);
    if ids != [] && s.budget > 0 {
      var next := Give(s, ids[0], interval);
      GiveKeeps(s, ids[0], interval);
      ServableRest(s, ids, interval);
      UsableAgrees(s.q.jobs, next.q.jobs, ids[1..], interval);
      UsableIsPositive(s.q, ids[1..], interval);
      ServeInTotal(next, ids[1..], interval);
    }
  }

  /** What is reported finished is exactly those with nothing left to do, in turn. */
  lemma {:induction false} ServeReports(s: Service, ids: seq<JobId>, interval: Effort)
    requires Sound(s.q) && interval > 0 && Servable(s.q, ids)
    ensures var r := Serve(s, ids, interval);
            && (forall k :: 0 <= k < |ids| ==> ids[k] in r.q.jobs)
            && r.finished == s.finished + Finished(r.q.jobs, ids)
    decreases |ids|
  {
    hide Give, Sound;
    ServeKeeps(s, ids, interval);
    if ids != [] && s.budget > 0 {
      var next := Give(s, ids[0], interval);
      GiveKeeps(s, ids[0], interval);
      ServableRest(s, ids, interval);
      ServeKeeps(next, ids[1..], interval);
      ServeReports(next, ids[1..], interval);
      assert ids[0] !in ids[1..];
    } else {
      LeftToDo(s.q, ids);
    }
  }

  /** Jobs that can be served have something left to do. */
  lemma {:induction false} LeftToDo(q: Queue, ids: seq<JobId>)
    requires Sound(q) && Servable(q, ids)
    ensures forall k :: 0 <= k < |ids| ==> q.jobs[ids[k]].remaining > 0
    ensures Finished(q.jobs, ids) == []
  {
    if ids != [] {
      assert Sane(q.jobs[ids[0]], ids[0], ids[0] in q.running, q.now);
      assert forall k :: 0 <= k < |ids[1..]| ==> ids[1..][k] == ids[k + 1];
      LeftToDo(q, ids[1..]);
    }
  }

  // ---------- Breaches ----------

  /** Waiting jobs past their deadline that have not been counted. */
  ghost function Overdue(q: Queue): set<JobId>
  {
    set id | id in q.jobs && q.jobs[id].waiting && !q.jobs[id].breached && LateNow(q.deadlines, q.jobs[id], q.now)
  }

  ghost function Flag(q: Queue, ids: set<JobId>): Queue
  {
    q.(jobs := map id | id in q.jobs :: if id in ids then q.jobs[id].(breached := true) else q.jobs[id],
       breached := q.breached + |ids|)
  }

  lemma FlagCounts(q: Queue)
    requires Counted(q)
    ensures Counted(Flag(q, Overdue(q)))
  {
    hide LateNow;
    var over := Overdue(q);
    var jobs := Flag(q, over).jobs;
    assert jobs.Keys == q.jobs.Keys;
    SameThose(q.jobs, jobs, IsCompleted);
    SameThose(q.jobs, jobs, IsExempt);
    SameThose(q.jobs, jobs, IsBreachedAsSubmitted);
    SameThose(q.jobs, jobs, IsReprioritised);
    FlagBreaches(q);
  }

  lemma FlagBreaches(q: Queue)
    ensures |Those(Flag(q, Overdue(q)).jobs, IsBreached)| == |Those(q.jobs, IsBreached)| + |Overdue(q)|
  {
    var was, over, are := Those(q.jobs, IsBreached), Overdue(q), Those(Flag(q, Overdue(q)).jobs, IsBreached);
    forall x ensures x in are <==> x in was + over {}
    assert are == was + over;
    assert was !! over;
  }

  lemma SameThose(a: Jobs, b: Jobs, kind: Item -> bool)
    requires a.Keys == b.Keys && forall x :: x in a ==> kind(a[x]) == kind(b[x])
    ensures Those(a, kind) == Those(b, kind)
  {
    forall x ensures x in Those(a, kind) <==> x in Those(b, kind) {
      assert x in a.Keys <==> x in b.Keys;
    }
  }

  lemma FlagKeeps(q: Queue)
    requires Sound(q)
    ensures Sound(Flag(q, Overdue(q)))
    ensures Overdue(Flag(q, Overdue(q))) == {}
  {
    var over := Overdue(q);
    var r := Flag(q, over);
    assert r.jobs.Keys == q.jobs.Keys;
    FlagCounts(q);
    forall p, x ensures x in LevelAt(r.levels, p) <==> Waits(r.jobs, x, p) {
      assert x in LevelAt(q.levels, p) <==> Waits(q.jobs, x, p);
    }
    forall p | p in r.levels ensures Ranked(r.jobs, r.levels[p]) {
      assert Ranked(q.jobs, q.levels[p]);
    }
    forall x | x in r.jobs ensures Sane(r.jobs[x], x, x in r.running, r.now) {
      assert Sane(q.jobs[x], x, x in q.running, q.now);
    }
  }
}
