/** What an interval reports of the queue's jobs, and what it leaves of each of them:
    internal/queue/queue.go:180-428. */
module Reports {
  import opened Basics
  import opened Work
  import opened Orchestrator
  import opened QueueState
  import opened Admission
  import opened Serving
  import opened QueueOps
  import opened QueueLaws

  predicate CompletedIn(jobs: Jobs, id: JobId) { id in jobs && IsCompleted(jobs[id]) }

  lemma {:induction false} FinishedAre(jobs: Jobs, ids: seq<JobId>)
    requires Distinct(ids) && forall k :: 0 <= k < |ids| ==> ids[k] in jobs
    ensures Distinct(Finished(jobs, ids))
    ensures forall id :: id in Finished(jobs, ids) <==> id in ids && id in jobs && jobs[id].remaining <= 0
  {
    if ids != [] {
      var rest := ids[1..];
      assert forall k :: 0 <= k < |rest| ==> rest[k] == ids[k + 1];
      FinishedAre(jobs, rest);
      assert ids == [ids[0]] + rest;
      var r := Finished(jobs, rest);
      forall k | 0 <= k < |r| ensures r[k] != ids[0] {
        assert r[k] in r;
      }
    }
  }

  /** Service reports as finished exactly the jobs it completes, each once. */
  lemma ServedReports(ready: Queue, executors: int, interval: Effort)
    requires Sound(ready) && interval > 0
    ensures var served := Served(ready, executors, interval);
            && Distinct(served.finished)
            && (forall id :: id in served.finished <==> CompletedIn(served.q.jobs, id) && !CompletedIn(ready.jobs, id))
            && (forall id :: CompletedIn(ready.jobs, id) ==> CompletedIn(served.q.jobs, id))
  {
    var s, turns := Service(ready, Max(0, executors) * interval, [], 0), Turns(ready);
    TurnsAreServable(ready);
    ServeReports(s, turns, interval);
    ServeKeeps(s, turns, interval);
    TurnsHold(ready);
    var served := Served(ready, executors, interval);
    assert served.finished == Finished(served.q.jobs, turns);
    FinishedAre(served.q.jobs, turns);
    forall id
      ensures id in served.finished <==> CompletedIn(served.q.jobs, id) && !CompletedIn(ready.jobs, id)
      ensures CompletedIn(ready.jobs, id) ==> CompletedIn(served.q.jobs, id)
    {
      ServedReportsOne(ready, executors, interval, id);
    }
  }

  lemma ServedReportsOne(ready: Queue, executors: int, interval: Effort, id: JobId)
    requires Sound(ready) && interval > 0
    ensures var served := Served(ready, executors, interval).q;
            && served.jobs.Keys == ready.jobs.Keys
            && (id in Turns(ready) ==> id in ready.jobs && !CompletedIn(ready.jobs, id))
            && (id in Turns(ready) ==> (served.jobs[id].remaining <= 0 <==> CompletedIn(served.jobs, id)))
            && (id !in Turns(ready) && id in ready.jobs ==> CompletedIn(served.jobs, id) && CompletedIn(ready.jobs, id))
  {
    hide Serve, ByUrgency;
    TurnsHold(ready);
    ServedIsSound(ready, executors, interval);
    if id in ready.jobs {
      var left := ServedItem(ready, executors, interval, id);
      assert Sane(ready.jobs[id], id, id in ready.running, ready.now);
    }
  }

  /** What an interval leaves of the work it had and the work it took in. Nothing changes where
      a job stands with its level but service; and it reports as finished exactly the jobs
      completed that were not completed before, each once. */
  lemma AdvanceReports(q: Queue, to: Time, executors: int)
    requires Valid(q) && to > q.now && StreamsInOrder(q, to)
    ensures var (r, progress) := Advance(q, to, executors);
            && Distinct(progress.finished)
            && (forall id :: id in progress.finished <==> CompletedIn(r.jobs, id) && !CompletedIn(q.jobs, id))
            && (forall id :: CompletedIn(q.jobs, id) ==> CompletedIn(r.jobs, id))
  {
    hide Sound, Served, Flag, Overdue, StreamsInOrder, Awaited, Ready;
    ReadyIsValid(q, to);
    var ready := Ready(q, to);
    ServedReports(ready, executors, to - q.now);
    ServedIsSound(ready, executors, to - q.now);
    var served := Served(ready, executors, to - q.now).q;
    FlagShape(served, Overdue(served));
    var r := Advance(q, to, executors).0;
    forall id ensures CompletedIn(r.jobs, id) <==> CompletedIn(served.jobs, id) {
      assert id in r.jobs.Keys <==> id in served.jobs.Keys;
    }
    forall id ensures CompletedIn(ready.jobs, id) <==> CompletedIn(q.jobs, id) {
      ReadyJobs(q, to, id);
    }
  }

  /** What an interval does to each job: those it had keep their job, their exemption and what
      they were submitted as; those it takes in are as they were handed over. */
  lemma AdvanceShapes(q: Queue, to: Time, executors: int, id: JobId)
    requires Valid(q) && to > q.now && StreamsInOrder(q, to)
    ensures var r := Advance(q, to, executors).0;
            && (id in q.jobs ==>
                  && id in r.jobs
                  && r.jobs[id].job == q.jobs[id].job && r.jobs[id].exempt == q.jobs[id].exempt
                  && r.jobs[id].submitted == q.jobs[id].submitted
                  && (r.jobs[id].waiting ==> q.jobs[id].waiting))
            && (id in r.jobs && id !in q.jobs ==>
                  exists i :: 0 <= i < |Due(q, to)| && Due(q, to)[i].id == id && r.jobs[id].job == Due(q, to)[i] &&
                              !r.jobs[id].exempt && r.jobs[id].submitted == Due(q, to)[i].priority)
  {
    hide Sound, Served, Flag, Overdue, StreamsInOrder, Awaited, Ready, Advance, Due;
    ReadyJobs(q, to, id);
    AdvanceKeeps(q, to, executors);
    assert id in Advance(q, to, executors).0.jobs.Keys <==> id in Ready(q, to).jobs.Keys;
    if id in Ready(q, to).jobs {
      var left := AdvancedItem(q, to, executors, id);
    }
  }

  /** What an interval leaves still to come, and that everything it took in it holds. */
  lemma AdvanceStreams(q: Queue, to: Time, executors: int)
    requires Valid(q) && to > q.now && StreamsInOrder(q, to)
    ensures var r := Advance(q, to, executors).0;
            && r.arrivals == q.arrivals && r.pending == q.pending && r.next <= |r.arrivals| && r.nextPending <= |r.pending|
            && Log(r) == Log(q)[DueCount(Log(q), to)..] && Handed(r) == Handed(q)[DueCount(Handed(q), to)..]
            && (forall i :: 0 <= i < |Due(q, to)| ==> Due(q, to)[i].id in r.jobs)
  {
    hide Sound, Served, Flag, Overdue, StreamsInOrder, Awaited, Ready, Due, DueCount;
    ReadyIsValid(q, to);
    ReadyStreams(q, to);
    ServedIsSound(Ready(q, to), executors, to - q.now);
    var served := Served(Ready(q, to), executors, to - q.now).q;
    FlagShape(served, Overdue(served));
    var r := Advance(q, to, executors).0;
    assert r.jobs.Keys == Ready(q, to).jobs.Keys;
    forall i | 0 <= i < |Due(q, to)| ensures Due(q, to)[i].id in r.jobs {
      assert Due(q, to)[i].id in Ready(q, to).jobs.Keys;
    }
  }

  lemma ReadyStreams(q: Queue, to: Time)
    requires Valid(q) && to > q.now
    ensures var r := Ready(q, to);
            && r.arrivals == q.arrivals && r.pending == q.pending && r.next <= |r.arrivals| && r.nextPending <= |r.pending|
            && Log(r) == Log(q)[DueCount(Log(q), to)..] && Handed(r) == Handed(q)[DueCount(Handed(q), to)..]
            && (forall i :: 0 <= i < |Due(q, to)| ==> Due(q, to)[i].id in r.jobs)
  {
    hide Sound, Awaited, Ahead, Newly, AdmitAll, DueCount, Depth;
    DueIsFresh(q, to);
    hide Valid;
    AdmitAllJobs(Moved(q, to), Due(q, to));
  }
}
