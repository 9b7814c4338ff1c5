/** What an interval and a handing-over come to, said of the jobs and of the run and not of the
    steps: internal/queue/queue.go:180-276 and 300-428. */
module Intervals {
  import opened Basics
  import opened Work
  import opened Sorting
  import opened Orchestrator
  import opened QueueState
  import opened Admission
  import opened Serving
  import opened QueueOps
  import opened QueueLaws
  import opened QueueRuns

  // ---------- One job over one interval ----------

  /** Someone who has waited longer than the deadline of a priority, or than the one for
      priorities that have none. */
  predicate Overlong(d: Deadlines, p: Priority, waited: Time)
  {
    waited > if p in d.levels then d.levels[p] else d.fallback
  }

  /** What becomes of one job in an interval that ends at `to`: some of its work is done, no more
      than the interval is long; if it waited and got any it started at the end of the interval; it
      is in breach from then on if it waited too long before; and what it was submitted under is
      judged once, when it starts. Nothing else of it is different. */
  ghost predicate Passes(d: Deadlines, from: Time, to: Time, was: Item, now: Item)
  {
    && now == was.(remaining := now.remaining, started := now.started, waiting := now.waiting,
                   breached := now.breached, breachedAsSubmitted := now.breachedAsSubmitted)
    && 0 <= now.remaining <= was.remaining <= now.remaining + (to - from)
    && (now.waiting ==> was.waiting && now.remaining == was.remaining)
    && (was.waiting && !now.waiting ==> now.remaining < was.remaining)
    && now.started == (if was.waiting && !now.waiting then Some(to) else was.started)
    && (now.breached <==> was.breached || (was.waiting && Overlong(d, was.job.priority, to - was.deadlineFrom)))
    && (now.breachedAsSubmitted <==>
          was.breachedAsSubmitted || (was.waiting && !now.waiting && Overlong(d, was.submitted, to - was.job.submittedAt)))
  }

  /** A job as it is when it is admitted: all of it to do, waiting, its deadline running from its
      submission at the priority it was submitted with, and nothing held against it. */
  ghost predicate AsSubmitted(job: Job, item: Item)
  {
    && item.job == job && item.submitted == job.priority && item.deadlineFrom == job.submittedAt
    && item.remaining == job.seconds && item.waiting && item.started == None
    && !item.moving && !item.reprioritised && !item.exempt && !item.breached && !item.breachedAsSubmitted
  }

  /** The work to come that is submitted by a moment. */
  ghost predicate IsDue(q: Queue, to: Time, job: Job)
    requires q.next <= |q.arrivals| && q.nextPending <= |q.pending|
  {
    (job in Log(q) || job in Handed(q)) && job.submittedAt <= to
  }

  /** Job by job, an interval: it has those it had and those due by its end and no others, and
      each of them passes through it, those newly due from how they were submitted. */
  lemma IntervalOutcome(q: Queue, to: Time, executors: int, id: JobId)
    requires Valid(q) && to > q.now && StreamsInOrder(q, to)
    ensures var r := Advance(q, to, executors).0;
            && (id in r.jobs <==> id in q.jobs || exists job :: IsDue(q, to, job) && job.id == id)
            && (id in q.jobs ==> id in r.jobs && Passes(q.deadlines, q.now, to, q.jobs[id], r.jobs[id]))
            && (forall job :: IsDue(q, to, job) && job.id == id ==>
                  id in r.jobs && exists item :: AsSubmitted(job, item) && Passes(q.deadlines, q.now, to, item, r.jobs[id]))
  {
    hide Ready, Sound, Awaited, Advance, Outcome, StreamsInOrder, AsSubmitted, Passes, Due, DueCount;
    var r := Advance(q, to, executors).0;
    DueExactly(q, to);
    ReadyExactly(q, to, id);
    AdvanceKeeps(q, to, executors);
    assert id in r.jobs.Keys <==> id in Ready(q, to).jobs.Keys;
    if id in Ready(q, to).jobs {
      ReadyIsValid(q, to);
      ReadyShape(q, to);
      var left := AdvancedItem(q, to, executors, id);
      OutcomePasses(Ready(q, to), q.now, to, id, left, r.jobs[id]);
    }
  }

  /** What is due is all the work to come that is submitted by then. */
  lemma DueExactly(q: Queue, to: Time)
    requires Valid(q)
    ensures forall job :: IsDue(q, to, job) <==> job in Due(q, to)
  {
    hide Sound;
    Prefix(Log(q), to);
    Prefix(Handed(q), to);
    var a, b := Log(q)[..DueCount(Log(q), to)], Handed(q)[..DueCount(Handed(q), to)];
    assert Due(q, to) == a + b;
  }

  lemma Prefix(stream: seq<Job>, to: Time)
    requires Rising(stream)
    ensures forall job :: job in stream[..DueCount(stream, to)] <==> job in stream && job.submittedAt <= to
  {
    var n := DueCount(stream, to);
    forall k | n <= k < |stream| ensures stream[k].submittedAt > to {
      assert k > n ==> JobBefore(stream[n], stream[k]);
    }
  }

  lemma ReadyExactly(q: Queue, to: Time, id: JobId)
    requires Valid(q) && to > q.now
    ensures var ready := Ready(q, to);
            && (id in ready.jobs <==> id in q.jobs || exists job :: job in Due(q, to) && job.id == id)
            && (id in q.jobs ==> id in ready.jobs && ready.jobs[id] == q.jobs[id])
            && (forall job :: job in Due(q, to) && job.id == id ==> id in ready.jobs && AsSubmitted(job, ready.jobs[id]))
  {
    hide Sound, Awaited, Depth, Due, AdmitAll, Ahead;
    DueIsFresh(q, to);
    var due := Due(q, to);
    AdmitAllJobs(Moved(q, to), due);
    if i :| 0 <= i < |due| && due[i].id == id {
      assert due[i] in due;
    }
  }

  lemma OutcomePasses(ready: Queue, from: Time, to: Time, id: JobId, left: Effort, now: Item)
    requires Sound(ready) && id in ready.jobs && ready.now == to && from < to
    requires var served := Outcome(ready.deadlines, to, ready.jobs[id], to - from, left);
             now == served.(breached := served.breached || (served.waiting && LateNow(ready.deadlines, served, to)))
    ensures Passes(ready.deadlines, from, to, ready.jobs[id], now)
  {
    assert Sane(ready.jobs[id], id, id in ready.running, to);
  }

  // ---------- How deep it gets ----------

  /** The jobs with work left to do. */
  function Unfinished(jobs: Jobs): set<JobId> { set id | id in jobs && jobs[id].remaining > 0 }

  /** Everyone with a turn is everyone with work left, so that is how deep a queue is. */
  lemma DepthIsUnfinished(q: Queue)
    requires Sound(q)
    ensures Depth(q) == |Unfinished(q.jobs)|
  {
    hide Turns, Placed, Counted;
    TurnsHold(q);
    var turns := Turns(q);
    forall x ensures x in turns <==> x in Unfinished(q.jobs) {
      if x in q.jobs {
        assert Sane(q.jobs[x], x, x in q.running, q.now);
      }
    }
    assert Unfinished(q.jobs) == set x | x in turns;
    Sized(turns);
  }

  lemma {:induction false} Sized(ids: seq<JobId>)
    requires Distinct(ids)
    ensures |set id | id in ids| == |ids|
    decreases |ids|
  {
    if ids != [] {
      var n := |ids| - 1;
      assert ids == ids[..n] + [ids[n]];
      assert (set id | id in ids) == (set id | id in ids[..n]) + {ids[n]};
      Sized(ids[..n]);
    }
  }

  /** How deep a queue is once everything due is in and before any of it is served. */
  ghost function DepthBefore(q: Queue, to: Time): nat
    requires q.next <= |q.arrivals| && q.nextPending <= |q.pending|
  {
    |Unfinished(q.jobs)| + |Due(q, to)|
  }

  /** The greatest so far, with one more: at least both, and one of them. */
  lemma AdvancePeak(q: Queue, to: Time, executors: int)
    requires Valid(q) && to > q.now && StreamsInOrder(q, to)
    ensures var peak := Advance(q, to, executors).0.peakDepth;
            && peak >= q.peakDepth && peak >= DepthBefore(q, to)
            && (peak == q.peakDepth || peak == DepthBefore(q, to))
  {
    hide Ready, DepthBefore, Served, Overdue, Flag, Sound, Awaited, StreamsInOrder;
    ReadyIsValid(q, to);
    var ready := Ready(q, to);
    ServedIsSound(ready, executors, to - q.now);
    var served := Served(ready, executors, to - q.now).q;
    FlagShape(served, Overdue(served));
    ReadyPeak(q, to);
  }

  lemma ReadyPeak(q: Queue, to: Time)
    requires Valid(q) && to > q.now && StreamsInOrder(q, to)
    ensures Ready(q, to).peakDepth == if q.peakDepth >= DepthBefore(q, to) then q.peakDepth else DepthBefore(q, to)
  {
    hide DepthBefore, Sound, Awaited, StreamsInOrder, Depth, Unfinished, AdmitAll, Due, Ahead;
    DueIsFresh(q, to);
    AdmitAllJobs(Moved(q, to), Due(q, to));
    AdmittedIsValid(q, to);
    DepthIsUnfinished(Admitted(q, to));
    AdmittedUnfinished(q, to);
  }

  lemma AdmittedUnfinished(q: Queue, to: Time)
    requires Valid(q) && to > q.now
    ensures |Unfinished(Admitted(q, to).jobs)| == DepthBefore(q, to)
  {
    hide Sound, Awaited, Due, AdmitAll, Ahead, Unfinished;
    DueIsFresh(q, to);
    AdmitAllDeepens(Moved(q, to), Due(q, to));
  }

  /** Work taken in under identities of its own is that much more to do. */
  lemma {:induction false} AdmitAllDeepens(q: Queue, batch: seq<Job>)
    requires forall i :: 0 <= i < |batch| ==> batch[i].id !in q.jobs && batch[i].seconds > 0
    requires forall i, j :: 0 <= i < j < |batch| ==> batch[i].id != batch[j].id
    ensures |Unfinished(AdmitAll(q, batch).jobs)| == |Unfinished(q.jobs)| + |batch|
    decreases |batch|
  {
    if batch != [] {
      var next, rest := Admit(q, batch[0]), batch[1..];
      assert forall i :: 0 <= i < |rest| ==> rest[i] == batch[i + 1];
      AdmitAllDeepens(next, rest);
      assert Unfinished(next.jobs) == Unfinished(q.jobs) + {batch[0].id};
    }
  }

  /** How deep the queue was at each interval of a run that moves time on. */
  ghost function Depths(q: Queue, ops: seq<Op>): seq<nat>
    requires Valid(q) && Lawful(q, ops)
    decreases |ops|
  {
    if ops == [] then []
    else
      DoKeeps(q, ops[0]);
      (if ops[0].Tick? && ops[0].to > q.now then [DepthBefore(q, ops[0].to)] else []) + Depths(Do(q, ops[0]), ops[1..])
  }

  /** The peak a run reports is the deepest it ever was, measured once everything due is in: never
      less than it was at any interval, and what it was at one of them unless it was that before. */
  lemma {:induction false} PeakIsDeepest(q: Queue, ops: seq<Op>)
    requires Valid(q) && Lawful(q, ops)
    ensures var peak := RunAll(q, ops).0.peakDepth;
            && peak >= q.peakDepth && (forall depth :: depth in Depths(q, ops) ==> peak >= depth)
            && (peak == q.peakDepth || peak in Depths(q, ops))
    decreases |ops|
  {
    hide Do, Reports, Allowed, Sound, Awaited, DepthBefore;
    if ops != [] {
      DoKeeps(q, ops[0]);
      DoPeaks(q, ops[0]);
      PeakIsDeepest(Do(q, ops[0]), ops[1..]);
    }
  }

  lemma DoPeaks(q: Queue, op: Op)
    requires Valid(q) && Allowed(q, op)
    ensures var peak := Do(q, op).peakDepth;
            if op.Tick? && op.to > q.now then
              peak >= q.peakDepth && peak >= DepthBefore(q, op.to) && (peak == q.peakDepth || peak == DepthBefore(q, op.to))
            else peak == q.peakDepth
  {
    hide Sound, Awaited, StreamsInOrder, FreshWork, DepthBefore;
    match op
    case Tick(to, executors) =>
      if to > q.now {
        AdvancePeak(q, to, executors);
      }
    case Hand(jobs) =>
      SubmitKeeps(q, jobs);
    case Move(updates) =>
      ApplyAllKeeps(q, q.now, updates);
  }

  // ---------- Work handed over ----------

  /** An identity that is admitted, still to come of what was handed over, or handed over before. */
  ghost predicate Taken(q: Queue, before: seq<Job>, id: JobId)
    requires q.nextPending <= |q.pending|
  {
    id in q.jobs || (exists k :: 0 <= k < |Handed(q)| && Handed(q)[k].id == id) || (exists k :: 0 <= k < |before| && before[k].id == id)
  }

  /** What is handed over late counts from now, and is otherwise as it was. */
  ghost predicate Dated(job: Job, now: Time, kept: Job)
  {
    kept == job.(submittedAt := kept.submittedAt) && kept.submittedAt == if job.submittedAt < now then now else job.submittedAt
  }

  /** Whatever is handed over: it is taken in as far as the first identity that is taken, each job
      dated now if it is late; and if none is taken, put in order of submission among what was still
      to come. The queue is otherwise as it was. */
  lemma SubmitOutcome(q: Queue, jobs: seq<Job>) returns (n: nat, kept: seq<Job>)
    requires q.nextPending <= |q.pending|
    ensures var (r, ok) := Submit(q, jobs);
            && n <= |jobs| && (ok <==> n == |jobs|)
            && (forall i :: 0 <= i < n ==> !Taken(q, jobs[..i], jobs[i].id))
            && (n < |jobs| ==> Taken(q, jobs[..n], jobs[n].id))
            && r == q.(pending := r.pending) && |r.pending| == |q.pending| + n
            && r.pending[..q.nextPending] == q.pending[..q.nextPending]
            && |kept| == n && (forall i :: 0 <= i < n ==> Dated(jobs[i], q.now, kept[i]))
            && multiset(r.pending) == multiset(q.pending + kept) && (!ok ==> r.pending == q.pending + kept)
            && (ok ==> forall i, j :: q.nextPending <= i < j < |r.pending| ==> r.pending[i].submittedAt <= r.pending[j].submittedAt)
  {
    n, kept := HandedUpTo(q, jobs);
    var (mid, ok) := HandAll(q, jobs);
    var before, later := q.pending[..q.nextPending], Handed(mid);
    assert mid.pending == before + later;
    if ok {
      var sorted := StableSort(later, Earlier);
      SortPermutes(later, Earlier);
      SortOrders(later, Earlier);
      assert multiset(before + sorted) == multiset(before + later);
      var r := Submit(q, jobs).0;
      assert r.pending == before + sorted;
      SameSize(sorted, later);
      forall i, j | q.nextPending <= i < j < |r.pending| ensures r.pending[i].submittedAt <= r.pending[j].submittedAt {
        assert !Earlier(sorted[j - q.nextPending], sorted[i - q.nextPending]);
      }
    }
  }

  lemma SameSize(a: seq<Job>, b: seq<Job>)
    requires multiset(a) == multiset(b)
    ensures |a| == |b|
  {
    assert |multiset(a)| == |a| && |multiset(b)| == |b|;
  }

  lemma {:induction false} HandedUpTo(q: Queue, jobs: seq<Job>) returns (n: nat, kept: seq<Job>)
    requires q.nextPending <= |q.pending|
    ensures var (r, ok) := HandAll(q, jobs);
            && n <= |jobs| && (ok <==> n == |jobs|)
            && (forall i :: 0 <= i < n ==> !Taken(q, jobs[..i], jobs[i].id))
            && (n < |jobs| ==> Taken(q, jobs[..n], jobs[n].id))
            && r == q.(pending := q.pending + kept) && |kept| == n && forall i :: 0 <= i < n ==> Dated(jobs[i], q.now, kept[i])
    decreases |jobs|
  {
    if jobs == [] || jobs[0].id in q.jobs || Pending(Handed(q), jobs[0].id) {
      n, kept := 0, [];
      assert q.pending + kept == q.pending;
    } else {
      var first := OnTime(jobs[0], q.now);
      var next := q.(pending := q.pending + [first]);
      var m, rest := HandedUpTo(next, jobs[1..]);
      n, kept := m + 1, [first] + rest;
      assert q.pending + kept == next.pending + rest;
      forall i | 0 < i < |jobs| ensures Taken(next, jobs[1..][..i - 1], jobs[i].id) <==> Taken(q, jobs[..i], jobs[i].id) {
        TakenNext(q, next, jobs, i);
      }
      forall i | 0 <= i < n ensures !Taken(q, jobs[..i], jobs[i].id) {
        assert i > 0 ==> jobs[1..][i - 1] == jobs[i];
      }
    }
  }

  lemma TakenNext(q: Queue, next: Queue, jobs: seq<Job>, i: nat)
    requires 0 < i < |jobs| && q.nextPending <= |q.pending|
    requires next == q.(pending := q.pending + [OnTime(jobs[0], q.now)])
    ensures Taken(next, jobs[1..][..i - 1], jobs[i].id) <==> Taken(q, jobs[..i], jobs[i].id)
  {
    var id, a, b := jobs[i].id, Handed(q), Handed(next);
    assert b == a + [OnTime(jobs[0], q.now)];
    assert jobs[..i] == [jobs[0]] + jobs[1..][..i - 1];
    var rest := jobs[1..][..i - 1];
    assert (exists k :: 0 <= k < |b| && b[k].id == id) <==> (exists k :: 0 <= k < |a| && a[k].id == id) || jobs[0].id == id by {
      assert b[|a|].id == jobs[0].id && forall k :: 0 <= k < |a| ==> b[k] == a[k];
    }
    assert (exists k :: 0 <= k < i && jobs[..i][k].id == id) <==> (exists k :: 0 <= k < |rest| && rest[k].id == id) || jobs[0].id == id by {
      assert jobs[..i][0] == jobs[0] && forall k :: 0 <= k < |rest| ==> jobs[..i][k + 1] == rest[k];
      if k :| 0 <= k < i && jobs[..i][k].id == id {
        assert k > 0 ==> rest[k - 1].id == id;
      }
    }
  }
}
