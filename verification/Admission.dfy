/** How work enters the queue: internal/queue/queue.go:242-276. The log is admitted first,
    then work handed over in flight; each job goes to the end of its level. */
module Admission {
  import opened Basics
  import opened Work
  import opened QueueState

  function Newly(job: Job): Item
  {
    Item(job, job.seconds, None, false, false, false, job.priority, job.submittedAt, false, true, false)
  }

  function Admit(q: Queue, job: Job): Queue
  {
    q.(levels := q.levels[job.priority := LevelAt(q.levels, job.priority) + [job.id]],
       jobs := q.jobs[job.id := Newly(job)],
       submitted := q.submitted + 1)
  }

  function AdmitAll(q: Queue, batch: seq<Job>): Queue
    decreases |batch|
  {
    if batch == [] then q else AdmitAll(Admit(q, batch[0]), batch[1..])
  }

  /** How much of a stream is due by a moment: as far as the first job that is not. */
  function DueCount(stream: seq<Job>, to: Time): (n: nat)
    ensures n <= |stream|
    ensures forall i :: 0 <= i < n ==> stream[i].submittedAt <= to
    ensures n < |stream| ==> stream[n].submittedAt > to
  {
    if stream != [] && stream[0].submittedAt <= to then 1 + DueCount(stream[1..], to) else 0
  }

  /** What is due by a moment, in the order it is admitted. */
  function Due(q: Queue, to: Time): seq<Job>
    requires q.next <= |q.arrivals| && q.nextPending <= |q.pending|
  {
    Log(q)[..DueCount(Log(q), to)] + Handed(q)[..DueCount(Handed(q), to)]
  }

  /** The clock moved past everything due. */
  function Moved(q: Queue, to: Time): Queue
    requires q.next <= |q.arrivals| && q.nextPending <= |q.pending|
  {
    q.(now := to, next := q.next + DueCount(Log(q), to), nextPending := q.nextPending + DueCount(Handed(q), to))
  }

  /** The clock moved, and everything due admitted. */
  function Admitted(q: Queue, to: Time): Queue
    requires q.next <= |q.arrivals| && q.nextPending <= |q.pending|
  {
    AdmitAll(Moved(q, to), Due(q, to))
  }

  // ---------- When levels stay in order ----------

  /** No log job due in one advance comes after handed-over work due at the same level. */
  ghost predicate StreamsInOrder(q: Queue, to: Time)
    requires q.next <= |q.arrivals| && q.nextPending <= |q.pending|
  {
    forall i, j :: 0 <= i < DueCount(Log(q), to) && 0 <= j < DueCount(Handed(q), to) &&
                   Log(q)[i].priority == Handed(q)[j].priority ==>
                     JobBefore(Log(q)[i], Handed(q)[j])
  }

  /** A waiting job that comes before one about to be admitted. */
  predicate Ahead(jobs: Jobs, x: JobId, job: Job)
    requires x in jobs
  {
    jobs[x].deadlineFrom < job.submittedAt || (jobs[x].deadlineFrom == job.submittedAt && x < job.id)
  }

  /** Jobs that can be admitted in turn, each behind everything that waits at its level. */
  ghost predicate Admissible(q: Queue, batch: seq<Job>)
  {
    && (forall i :: 0 <= i < |batch| ==>
          batch[i].id !in q.jobs && batch[i].seconds > 0 && batch[i].submittedAt <= q.now)
    && (forall i, j :: 0 <= i < j < |batch| ==> batch[i].id != batch[j].id)
    && (forall i, x :: 0 <= i < |batch| && Waits(q.jobs, x, batch[i].priority) ==> Ahead(q.jobs, x, batch[i]))
    && (forall i, j :: 0 <= i < j < |batch| && batch[i].priority == batch[j].priority ==> JobBefore(batch[i], batch[j]))
  }

  lemma AdmittedIsPlaced(q: Queue, job: Job)
    requires Placed(q.jobs, q.levels) && job.id !in q.jobs
    requires forall x :: Waits(q.jobs, x, job.priority) ==> Ahead(q.jobs, x, job)
    ensures Placed(Admit(q, job).jobs, Admit(q, job).levels)
  {
    hide Placed;
    AppendKeeps(q.jobs, q.levels, job.id, Newly(job));
  }

  /** One job admitted behind everything that waits at its level. */
  lemma AdmitKeeps(q: Queue, job: Job)
    requires Sound(q)
    requires job.id !in q.jobs && job.seconds > 0 && job.submittedAt <= q.now
    requires forall x :: Waits(q.jobs, x, job.priority) ==> Ahead(q.jobs, x, job)
    ensures Sound(Admit(q, job))
  {
    hide Placed, Ahead, Those;
    AdmittedIsPlaced(q, job);
    Recount(q.jobs, job.id, Newly(job), IsCompleted);
    Recount(q.jobs, job.id, Newly(job), IsExempt);
    Recount(q.jobs, job.id, Newly(job), IsBreached);
    Recount(q.jobs, job.id, Newly(job), IsBreachedAsSubmitted);
    Recount(q.jobs, job.id, Newly(job), IsReprioritised);
    var after := Admit(q, job);
    assert job.id !in q.running;
    assert after.jobs.Keys == q.jobs.Keys + {job.id};
  }

  lemma {:induction false} AdmitAllKeeps(q: Queue, batch: seq<Job>)
    requires Sound(q) && Admissible(q, batch)
    ensures Sound(AdmitAll(q, batch))
    decreases |batch|
  {
    if batch != [] {
      AdmitKeeps(q, batch[0]);
      var next, rest := Admit(q, batch[0]), batch[1..];
      assert forall i :: 0 <= i < |rest| ==> rest[i] == batch[i + 1];
      forall i, x | 0 <= i < |rest| && Waits(next.jobs, x, rest[i].priority)
        ensures Ahead(next.jobs, x, rest[i])
      {
        if x != batch[0].id {
          assert Waits(q.jobs, x, batch[i + 1].priority);
        }
      }
      AdmitAllKeeps(next, rest);
    }
  }

  /** What admission leaves: every job it had, and every job it was given as newly admitted. */
  lemma {:induction false} AdmitAllJobs(q: Queue, batch: seq<Job>)
    requires forall i :: 0 <= i < |batch| ==> batch[i].id !in q.jobs
    requires forall i, j :: 0 <= i < j < |batch| ==> batch[i].id != batch[j].id
    ensures var r := AdmitAll(q, batch);
            && r == q.(levels := r.levels, jobs := r.jobs, submitted := q.submitted + |batch|)
            && (forall x :: x in r.jobs <==> x in q.jobs || exists i :: 0 <= i < |batch| && batch[i].id == x)
            && (forall x :: x in q.jobs ==> r.jobs[x] == q.jobs[x])
            && (forall i :: 0 <= i < |batch| ==> r.jobs[batch[i].id] == Newly(batch[i]))
    decreases |batch|
  {
    if batch != [] {
      var next, rest := Admit(q, batch[0]), batch[1..];
      assert forall i :: 0 <= i < |rest| ==> rest[i] == batch[i + 1];
      AdmitAllJobs(next, rest);
      var r := AdmitAll(next, rest);
      forall x ensures x in r.jobs <==> x in q.jobs || exists i :: 0 <= i < |batch| && batch[i].id == x {
        if i :| 0 <= i < |rest| && rest[i].id == x {
          assert batch[i + 1].id == x;
        }
        if i :| 0 <= i < |batch| && batch[i].id == x {
          assert i == 0 || rest[i - 1].id == x;
        }
      }
      forall i | 0 <= i < |batch| ensures r.jobs[batch[i].id] == Newly(batch[i]) {
        assert i == 0 || rest[i - 1] == batch[i];
      }
    }
  }

  /** The identities of some jobs of one priority, in order. */
  function IdsAt(batch: seq<Job>, p: Priority): seq<JobId>
  {
    if batch == [] then []
    else (if batch[0].priority == p then [batch[0].id] else []) + IdsAt(batch[1..], p)
  }

  lemma {:induction false} AdmitAllLevels(q: Queue, batch: seq<Job>, p: Priority)
    ensures LevelAt(AdmitAll(q, batch).levels, p) == LevelAt(q.levels, p) + IdsAt(batch, p)
    decreases |batch|
  {
    if batch != [] {
      AdmitAllLevels(Admit(q, batch[0]), batch[1..], p);
    }
  }

  /** Two jobs of one priority keep their order among the identities of that priority. */
  lemma {:induction false} IdsAtInOrder(batch: seq<Job>, i: nat, j: nat) returns (k: nat, l: nat)
    requires i < j < |batch| && batch[i].priority == batch[j].priority
    ensures var ids := IdsAt(batch, batch[i].priority);
            k < l < |ids| && ids[k] == batch[i].id && ids[l] == batch[j].id
    decreases |batch|
  {
    var p := batch[i].priority;
    var shift := if batch[0].priority == p then 1 else 0;
    if i == 0 {
      l := IdsAtHolds(batch[1..], j - 1);
      return 0, l + 1;
    }
    k, l := IdsAtInOrder(batch[1..], i - 1, j - 1);
    return k + shift, l + shift;
  }

  lemma {:induction false} IdsAtHolds(batch: seq<Job>, j: nat) returns (l: nat)
    requires j < |batch|
    ensures l < |IdsAt(batch, batch[j].priority)| && IdsAt(batch, batch[j].priority)[l] == batch[j].id
    decreases |batch|
  {
    if j == 0 {
      return 0;
    }
    l := IdsAtHolds(batch[1..], j - 1);
    return l + if batch[0].priority == batch[j].priority then 1 else 0;
  }

  /** What is due has identities of its own, and everything already waiting is ahead of it. */
  lemma DueIsFresh(q: Queue, to: Time)
    requires Valid(q) && to > q.now
    ensures var due, a := Due(q, to), DueCount(Log(q), to);
            && (forall i :: 0 <= i < |due| ==> due[i] == if i < a then Log(q)[i] else Handed(q)[i - a])
            && (forall i :: 0 <= i < |due| ==> due[i].id !in q.jobs && due[i].seconds > 0 && due[i].submittedAt <= to)
            && (forall i, j :: 0 <= i < j < |due| ==> due[i].id != due[j].id)
            && (forall i, x :: 0 <= i < |due| && x in q.jobs ==> Ahead(q.jobs, x, due[i]))
  {
    var due := Due(q, to);
    forall i, x | 0 <= i < |due| && x in q.jobs ensures Ahead(q.jobs, x, due[i]) {
      assert Sane(q.jobs[x], x, x in q.running, q.now);
    }
  }

  lemma DueSize(q: Queue, to: Time)
    requires q.next <= |q.arrivals| && q.nextPending <= |q.pending|
    ensures DueCount(Log(q), to) <= |Log(q)| && DueCount(Handed(q), to) <= |Handed(q)|
    ensures |Due(q, to)| == DueCount(Log(q), to) + DueCount(Handed(q), to)
  {
  }

  lemma MovedIsSound(q: Queue, to: Time)
    requires Valid(q) && to > q.now
    ensures Sound(Moved(q, to))
  {
    assert forall x :: x in q.jobs ==> Sane(q.jobs[x], x, x in q.running, q.now);
  }

  /** Streams in order can be admitted one after the other. */
  lemma DueIsAdmissible(q: Queue, to: Time)
    requires Valid(q) && to > q.now && StreamsInOrder(q, to)
    ensures Admissible(Moved(q, to), Due(q, to))
  {
    DueIsFresh(q, to);
    DueInOrder(q, to);
  }

  lemma DueInOrder(q: Queue, to: Time)
    requires Valid(q) && to > q.now && StreamsInOrder(q, to)
    ensures var due := Due(q, to);
            forall i, j :: 0 <= i < j < |due| && due[i].priority == due[j].priority ==> JobBefore(due[i], due[j])
  {
    hide Sound, Ahead, JobBefore;
    DueIsFresh(q, to);
    var due, a := Due(q, to), DueCount(Log(q), to);
    forall i, j | 0 <= i < j < |due| && due[i].priority == due[j].priority ensures JobBefore(due[i], due[j]) {
      if i < a && j >= a {
        assert due[i] == Log(q)[i] && due[j] == Handed(q)[j - a];
      }
    }
  }

  /** Two jobs of one level admitted in the wrong order leave the level out of order. */
  lemma DisorderShows(q: Queue, batch: seq<Job>, i: nat, j: nat)
    requires forall k :: 0 <= k < |batch| ==> batch[k].id !in q.jobs
    requires forall k, l :: 0 <= k < l < |batch| ==> batch[k].id != batch[l].id
    requires i < j < |batch| && batch[i].priority == batch[j].priority && !JobBefore(batch[i], batch[j])
    ensures var r := AdmitAll(q, batch);
            !Placed(r.jobs, r.levels)
  {
    var p := batch[i].priority;
    var k, l := IdsAtInOrder(batch, i, j);
    AdmitAllLevels(q, batch, p);
    AdmitAllJobs(q, batch);
    var r := AdmitAll(q, batch);
    var n := |LevelAt(q.levels, p)|;
    var level := LevelAt(r.levels, p);
    assert level[n + k] == batch[i].id && level[n + l] == batch[j].id;
    assert !Before(r.jobs, level[n + k], level[n + l]);
    assert !Ranked(r.jobs, level);
  }

  /** After admission every level is in deadline order if and only if the two streams were:
      this, and nothing less, is what the early exits over a level rest on. */
  lemma OrderKeptExactly(q: Queue, to: Time)
    requires Valid(q) && to > q.now
    ensures Placed(Admitted(q, to).jobs, Admitted(q, to).levels) <==> StreamsInOrder(q, to)
    ensures StreamsInOrder(q, to) ==> Sound(Admitted(q, to))
  {
    if StreamsInOrder(q, to) {
      hide Placed, Counted, Partitioned, Awaited, StreamsInOrder;
      MovedIsSound(q, to);
      DueIsAdmissible(q, to);
      AdmitAllKeeps(Moved(q, to), Due(q, to));
    } else {
      DisorderLasts(q, to);
    }
  }

  lemma DisorderLasts(q: Queue, to: Time)
    requires Valid(q) && to > q.now && !StreamsInOrder(q, to)
    ensures !Placed(Admitted(q, to).jobs, Admitted(q, to).levels)
  {
    hide Sound, Awaited, Placed, Ahead;
    DueIsFresh(q, to);
    var a, due := DueCount(Log(q), to), Due(q, to);
    var i, j :| 0 <= i < a && 0 <= j < DueCount(Handed(q), to) && Log(q)[i].priority == Handed(q)[j].priority &&
                !JobBefore(Log(q)[i], Handed(q)[j]);
    assert due[i] == Log(q)[i] && due[a + j] == Handed(q)[j];
    DisorderShows(Moved(q, to), due, i, a + j);
  }

  /** What is left of a stream after what is due keeps its order, and is all later. */
  lemma TailRises(stream: seq<Job>, to: Time)
    requires Rising(stream)
    ensures var rest := stream[DueCount(stream, to)..];
            && Rising(rest)
            && (forall i :: 0 <= i < |rest| ==> rest[i].submittedAt > to && rest[i] in stream)
  {
    var n := DueCount(stream, to);
    var rest := stream[n..];
    assert forall i :: 0 <= i < |rest| ==> rest[i] == stream[n + i];
    forall i | 0 <= i < |rest| ensures rest[i].submittedAt > to {
      assert i == 0 || JobBefore(stream[n], stream[n + i]);
    }
  }

  /** What is left of a stream has identities none of the due jobs have. */
  lemma TailIsNew(stream: seq<Job>, to: Time, x: JobId)
    requires Rising(stream)
    requires exists i :: 0 <= i < DueCount(stream, to) && stream[i].id == x
    ensures var rest := stream[DueCount(stream, to)..];
            forall i :: 0 <= i < |rest| ==> rest[i].id != x
  {
  }

  /** What is still to come after admission is later than now and still has identities of
      its own. */
  lemma TailAwaited(jobs: Jobs, now: Time, log: seq<Job>, handed: seq<Job>, to: Time, after: Jobs)
    requires Awaited(jobs, now, log, handed) && to > now
    requires forall x :: x in after ==>
                           || x in jobs
                           || (exists i :: 0 <= i < DueCount(log, to) && log[i].id == x)
                           || (exists i :: 0 <= i < DueCount(handed, to) && handed[i].id == x)
    ensures var rest := handed[DueCount(handed, to)..];
            && Awaited(after, to, log[DueCount(log, to)..], rest)
            && (forall i :: 0 <= i < |rest| ==> rest[i].submittedAt > to)
  {
    hide Rising, JobBefore, DueCount;
    TailRises(log, to);
    TailRises(handed, to);
    TailUntaken(jobs, log, handed, to, after);
    TailUntaken(jobs, handed, log, to, after);
  }

  /** What is left of one stream has identities that neither those already there nor what was
      due of either stream has. */
  lemma TailUntaken(jobs: Jobs, mine: seq<Job>, other: seq<Job>, to: Time, after: Jobs)
    requires Rising(mine)
    requires forall i :: 0 <= i < |mine| ==> mine[i].id !in jobs
    requires forall i, j :: 0 <= i < |mine| && 0 <= j < |other| ==> mine[i].id != other[j].id
    requires forall x :: x in after ==>
                           || x in jobs
                           || (exists i :: 0 <= i < DueCount(mine, to) && mine[i].id == x)
                           || (exists i :: 0 <= i < DueCount(other, to) && other[i].id == x)
    ensures var rest := mine[DueCount(mine, to)..]; forall i :: 0 <= i < |rest| ==> rest[i].id !in after
  {
    hide Rising, JobBefore, DueCount;
    var rest := mine[DueCount(mine, to)..];
    forall i | 0 <= i < |rest| ensures rest[i].id !in after {
      var x := rest[i].id;
      assert rest[i] == mine[DueCount(mine, to) + i];
      if exists k :: 0 <= k < DueCount(mine, to) && mine[k].id == x {
        TailIsNew(mine, to, x);
      }
    }
  }

  /** Admission leaves a queue that holds everything it should, still waiting for the rest. */
  lemma AdmittedIsValid(q: Queue, to: Time)
    requires Valid(q) && to > q.now && StreamsInOrder(q, to)
    ensures Valid(Admitted(q, to))
  {
    hide Awaited, Sound;
    OrderKeptExactly(q, to);
    AdmittedIsAwaited(q, to);
  }

  lemma AdmittedIsAwaited(q: Queue, to: Time)
    requires Valid(q) && to > q.now
    ensures var r := Admitted(q, to);
            && r.next <= |r.arrivals| && r.nextPending <= |r.pending|
            && r.now == to
            && Awaited(r.jobs, to, Log(r), Handed(r))
            && (forall i :: 0 <= i < |Handed(r)| ==> Handed(r)[i].submittedAt > to)
  {
    hide Rising, JobBefore, Sound, Awaited, AdmitAll, Due;
    AdmittedHas(q, to);
    var r := Admitted(q, to);
    TailAwaited(q.jobs, q.now, Log(q), Handed(q), to, r.jobs);
    assert Log(r) == Log(q)[DueCount(Log(q), to)..] && Handed(r) == Handed(q)[DueCount(Handed(q), to)..];
  }

  /** Whoever admission adds was due. */
  lemma AdmittedHas(q: Queue, to: Time)
    requires Valid(q) && to > q.now
    ensures var r := Admitted(q, to);
            && r == Moved(q, to).(levels := r.levels, jobs := r.jobs, submitted := r.submitted)
            && (forall x :: x in r.jobs ==>
                              || x in q.jobs
                              || (exists i :: 0 <= i < DueCount(Log(q), to) && Log(q)[i].id == x)
                              || (exists i :: 0 <= i < DueCount(Handed(q), to) && Handed(q)[i].id == x))
  {
    hide Rising, JobBefore, Sound, Newly, Ahead, Awaited, Due, DueCount, Log, Handed, AdmitAll;
    DueIsFresh(q, to);
    DueSize(q, to);
    var due, a := Due(q, to), DueCount(Log(q), to);
    AdmitAllJobs(Moved(q, to), due);
    var r := Admitted(q, to);
    forall x | x in r.jobs && x !in q.jobs
      ensures (exists i :: 0 <= i < a && Log(q)[i].id == x) ||
              (exists i :: 0 <= i < DueCount(Handed(q), to) && Handed(q)[i].id == x)
    {
      var k :| 0 <= k < |due| && due[k].id == x;
      assert if k < a then Log(q)[k].id == x else Handed(q)[k - a].id == x;
    }
  }
}
