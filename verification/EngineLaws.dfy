/** Why no step of a run is ever refused, and what every cycle keeps:
    internal/run/engine.go:293-382. */
module EngineLaws {
  import opened Basics
  import opened Work
  import opened Settings
  import opened Orchestrator
  import opened Reference
  import opened QueueState
  import opened Admission
  import opened QueueOps
  import opened QueueLaws
  import opened QueueRuns
  import opened Reports
  import opened Agreement
  import opened CatalogueOps
  import opened Workflow
  import opened WorkflowLaws
  import WorkflowRuns
  import Planner
  import opened Engine

  /** What a run in flight has to hand. */
  lemma RunningHas(mine: Mine, world: World)
    requires Running(mine, world)
    ensures mine.WellFormed() && mine.interval > 0
    ensures Valid(world.queue) && Sized(mine.workload, world.book) && world.memory.For(mine.site) && Sourced(mine, world)
    ensures mine.flow.Some? <==> world.flow.Some?
    ensures mine.flow.Some? ==> Indexed(mine.flow.value, world.flow.value)
  {
  }

  // ---------- Service ----------

  /** What the log and the workflow hand over never disorders a level: they are submitted at
      different ones. */
  lemma LevelsApart(mine: Mine, world: World, at: Time)
    requires mine.WellFormed() && Valid(world.queue) && Sourced(mine, world)
    ensures StreamsInOrder(world.queue, at)
  {
    var q := world.queue;
    forall i, j | 0 <= i < DueCount(Log(q), at) && 0 <= j < DueCount(Handed(q), at)
      ensures Log(q)[i].priority != Handed(q)[j].priority
    {
      assert mine.Generated(Log(q)[i].id);
      assert StageLevel(mine, Handed(q)[j].priority);
    }
  }

  /** Identities of the workflow's own are past every generated job. */
  lemma OwnIsPast(mine: Mine, world: World, id: JobId)
    requires mine.WellFormed() && Flowing(mine, world) && Own(world, id)
    ensures mine.flow.Some? && |mine.workload.jobs| <= mine.first <= id < world.flow.value.next
  {
  }

  /** After an interval's service, jobs still come from where they came from. */
  lemma ServedIsSourced(mine: Mine, world: World, at: Time, capacity: int)
    requires mine.WellFormed() && Valid(world.queue) && Sourced(mine, world) && at > world.queue.now && StreamsInOrder(world.queue, at)
    ensures var q := Advance(world.queue, at, capacity).0;
            && Valid(q) && Sourced(mine, world.(queue := q))
            && (forall i :: 0 <= i < |Log(q)| ==> Log(q)[i].submittedAt > at)
  {
    hide Valid, StreamsInOrder, Advance, Due, Log, Handed, ToCome, JobsSourced, LogSourced, HandedSourced, Present, OwnPresent;
    var q, r := world.queue, Advance(world.queue, at, capacity).0;
    AdvanceKeeps(q, at, capacity);
    AdvanceStreams(q, at, capacity);
    StreamsServed(q, at);
    ServedJobsSourced(mine, world, at, capacity);
    TailSourced(mine, world, world.(queue := r), at);
  }

  lemma ServedJobsSourced(mine: Mine, world: World, at: Time, capacity: int)
    requires mine.WellFormed() && Valid(world.queue) && Sourced(mine, world) && at > world.queue.now && StreamsInOrder(world.queue, at)
    ensures var r := Advance(world.queue, at, capacity).0;
            && r.next <= |r.arrivals| && r.nextPending <= |r.pending|
            && JobsSourced(mine, world.(queue := r)) && Present(mine, r) && OwnPresent(world.(queue := r))
  {
    hide Valid, StreamsInOrder, Advance, Due, Log, Handed, ToCome, HandedOver, LogSourced, HandedSourced;
    var r := Advance(world.queue, at, capacity).0;
    AdvanceStreams(world.queue, at, capacity);
    forall id | id in r.jobs
      ensures (0 <= id < |mine.workload.jobs| && r.jobs[id].submitted == mine.site.priorities[id]) || Own(world, id)
    {
      ServedJobIsSourced(mine, world, at, capacity, id);
    }
    forall k | 0 <= k < |mine.workload.jobs| ensures k in r.jobs || ToCome(r, k) {
      ServedStillToCome(mine, world, at, capacity, k);
    }
    forall id | Own(world.(queue := r), id) ensures id in r.jobs || HandedOver(r, id) {
      assert Own(world, id);
      ServedStillHanded(mine, world, at, capacity, id);
    }
  }

  lemma ServedStillHanded(mine: Mine, world: World, at: Time, capacity: int, id: JobId)
    requires mine.WellFormed() && Valid(world.queue) && OwnPresent(world) && at > world.queue.now && StreamsInOrder(world.queue, at)
    requires Own(world, id)
    ensures var r := Advance(world.queue, at, capacity).0;
            r.nextPending <= |r.pending| && (id in r.jobs || HandedOver(r, id))
  {
    hide Sound, Awaited, StreamsInOrder, Advance, Due;
    var q, r := world.queue, Advance(world.queue, at, capacity).0;
    AdvanceStreams(q, at, capacity);
    AdvanceShapes(q, at, capacity, id);
    if id !in q.jobs {
      var i :| 0 <= i < |Handed(q)| && Handed(q)[i].id == id;
      if i < DueCount(Handed(q), at) {
        DueHasHanded(q, at, i);
      } else {
        assert Handed(r)[i - DueCount(Handed(q), at)].id == id;
      }
    }
  }

  lemma DueHasHanded(q: Queue, at: Time, i: nat)
    requires q.next <= |q.arrivals| && q.nextPending <= |q.pending| && i < DueCount(Handed(q), at)
    ensures exists k :: 0 <= k < |Due(q, at)| && Due(q, at)[k] == Handed(q)[i]
  {
    assert Due(q, at)[DueCount(Log(q), at) + i] == Handed(q)[i];
  }

  lemma TailSourced(mine: Mine, world: World, after: World, at: Time)
    requires mine.WellFormed() && Valid(world.queue) && Sourced(mine, world) && after.flow == world.flow
    ensures LogSourced(mine, Log(world.queue)[DueCount(Log(world.queue), at)..])
    ensures HandedSourced(mine, after, Handed(world.queue)[DueCount(Handed(world.queue), at)..])
  {
    hide Sound, Awaited, JobsSourced, Present;
  }

  lemma ServedJobIsSourced(mine: Mine, world: World, at: Time, capacity: int, id: JobId)
    requires mine.WellFormed() && Valid(world.queue) && Sourced(mine, world) && at > world.queue.now && StreamsInOrder(world.queue, at)
    requires id in Advance(world.queue, at, capacity).0.jobs
    ensures var r := Advance(world.queue, at, capacity).0;
            (0 <= id < |mine.workload.jobs| && r.jobs[id].submitted == mine.site.priorities[id]) || Own(world, id)
  {
    hide Sound, Awaited, StreamsInOrder, Advance, Due;
    var q, r := world.queue, Advance(world.queue, at, capacity).0;
    AdvanceShapes(q, at, capacity, id);
    if id !in q.jobs {
      var i :| 0 <= i < |Due(q, at)| && Due(q, at)[i].id == id && r.jobs[id].submitted == Due(q, at)[i].priority;
      DueIsSourced(mine, world, at, i);
    }
  }

  lemma ServedStillToCome(mine: Mine, world: World, at: Time, capacity: int, k: JobId)
    requires mine.WellFormed() && Valid(world.queue) && Sourced(mine, world) && at > world.queue.now && StreamsInOrder(world.queue, at)
    requires 0 <= k < |mine.workload.jobs|
    ensures var r := Advance(world.queue, at, capacity).0;
            r.next <= |r.arrivals| && (k in r.jobs || ToCome(r, k))
  {
    hide Valid, StreamsInOrder, Advance, JobsSourced, LogSourced, HandedSourced, OwnPresent, Mine.WellFormed;
    StillToCome(world.queue, at, capacity, k);
  }

  lemma StillToCome(q: Queue, at: Time, capacity: int, k: JobId)
    requires Valid(q) && at > q.now && StreamsInOrder(q, at) && (k in q.jobs || ToCome(q, k))
    ensures var r := Advance(q, at, capacity).0;
            r.next <= |r.arrivals| && (k in r.jobs || ToCome(r, k))
  {
    hide Sound, Awaited, StreamsInOrder, Advance, Due, DueCount;
    var r := Advance(q, at, capacity).0;
    AdvanceStreams(q, at, capacity);
    AdvanceShapes(q, at, capacity, k);
    if k !in q.jobs {
      var i :| 0 <= i < |Log(q)| && Log(q)[i].id == k;
      if i < DueCount(Log(q), at) {
        DueHasLog(q, at, i);
      } else {
        assert Log(r)[i - DueCount(Log(q), at)].id == k;
      }
    }
  }

  lemma StreamsServed(q: Queue, at: Time)
    requires Valid(q)
    ensures var rest := Log(q)[DueCount(Log(q), at)..]; forall i :: 0 <= i < |rest| ==> rest[i].submittedAt > at
  {
    TailRises(Log(q), at);
  }

  lemma DueHasLog(q: Queue, at: Time, i: nat)
    requires q.next <= |q.arrivals| && q.nextPending <= |q.pending| && i < DueCount(Log(q), at)
    ensures i < |Due(q, at)| && Due(q, at)[i] == Log(q)[i]
  {
  }

  lemma DueIsSourced(mine: Mine, world: World, at: Time, i: nat)
    requires mine.WellFormed() && Valid(world.queue) && Sourced(mine, world) && i < |Due(world.queue, at)|
    ensures var job := Due(world.queue, at)[i];
            (0 <= job.id < |mine.workload.jobs| && job.priority == mine.site.priorities[job.id]) || Own(world, job.id)
  {
    hide Sound, Awaited;
    var q, a := world.queue, DueCount(Log(world.queue), at);
    if i < a {
      assert Due(q, at)[i] == Log(q)[i];
      assert mine.Generated(Log(q)[i].id);
    } else {
      assert Due(q, at)[i] == Handed(q)[i - a];
    }
  }

  /** Service moves no waiting job and completes none before its time, so the planner's record
      stays true: a job just arrived has been asked nothing of. */
  lemma ServedAgrees(mine: Mine, world: World, at: Time, capacity: int)
    requires Running(mine, world) && at > world.queue.now && StreamsInOrder(world.queue, at)
    ensures Agree(world.memory.requested, Advance(world.queue, at, capacity).0.jobs)
  {
    hide Sound, Awaited, StreamsInOrder, Advance, Due, AllFair, Booked, FromSolver, Flowing, Accounted;
    var q, m, r := world.queue, world.memory, Advance(world.queue, at, capacity).0;
    forall id ensures AgreesOn(m.requested, r.jobs, id) {
      AdvanceShapes(q, at, capacity, id);
      assert AgreesOn(m.requested, q.jobs, id);
      if id in r.jobs && id !in q.jobs && 0 <= id < |m.requested| {
        var i :| 0 <= i < |Due(q, at)| && Due(q, at)[i].id == id && r.jobs[id].job == Due(q, at)[i] && !r.jobs[id].exempt &&
                 r.jobs[id].submitted == Due(q, at)[i].priority;
        ArrivesAsSubmitted(mine, world, at, i);
      }
    }
  }

  lemma ArrivesAsSubmitted(mine: Mine, world: World, at: Time, i: nat)
    requires Running(mine, world) && i < |Due(world.queue, at)|
    requires var id := Due(world.queue, at)[i].id; 0 <= id < |mine.workload.jobs| && id !in world.queue.jobs
    ensures var job, m := Due(world.queue, at)[i], world.memory;
            m.requested[job.id].priority == job.priority && !m.requested[job.id].exempt
  {
    hide Sound, Awaited, AllFair, Booked, FromSolver, Accounted, Agree, Honest;
    var id, m := Due(world.queue, at)[i].id, world.memory;
    assert mine.Generated(id);
    var e := mine.workload.jobs[id].event;
    assert PickedBy(mine, e, id);
    assert e >= m.next;
    DueIsSourced(mine, world, at, i);
    if Own(world, id) {
      OwnIsPast(mine, world, id);
    }
    HonestSize(mine.site, m.requested);
    assert !m.requested[id].Displaces(mine.site.priorities[id]);
  }

  /** A generated job is a pick of the workflow's. */
  lemma GeneratedIsPick(mine: Mine, id: JobId)
    requires mine.WellFormed() && mine.flow.Some? && 0 <= id < |mine.workload.jobs|
    ensures PickOf(mine.flow.value.events, id).Some?
  {
    var e := mine.workload.jobs[id].event;
    assert mine.Generated(id);
    PickIsOwn(mine.flow.value.events, mine.first, id, e);
  }

  /** Whatever an interval reports finished, the workflow can be told: it was never told before,
      and it is a pick or the workflow's own. */
  lemma FinishedCanBeTold(mine: Mine, world: World, at: Time, capacity: int)
    requires Running(mine, world) && mine.flow.Some? && at > world.queue.now && StreamsInOrder(world.queue, at)
    ensures var finished := Advance(world.queue, at, capacity).1.finished;
            && WorkflowRuns.AllFinishable(mine.flow.value, world.flow.value, finished)
            && forall k :: 0 <= k < |finished| ==> finished[k] < world.flow.value.next
  {
    hide Sound, Awaited, StreamsInOrder, Advance, AllFair, Booked, FromSolver, InTouch, Holds, Indexed, PickOf, LogSourced, HandedSourced, Present;
    AdvanceReports(world.queue, at, capacity);
    ServedJobsSourced(mine, world, at, capacity);
    var (r, progress) := Advance(world.queue, at, capacity);
    forall k | 0 <= k < |progress.finished|
      ensures WorkflowRuns.Finishable(mine.flow.value, world.flow.value, progress.finished[k]) && progress.finished[k] < world.flow.value.next
    {
      var id := progress.finished[k];
      assert id in progress.finished;
      if Own(world, id) {
        OwnIsPast(mine, world, id);
      } else {
        GeneratedIsPick(mine, id);
        NextIsPast(mine, world);
      }
    }
  }

  lemma NextIsPast(mine: Mine, world: World)
    requires mine.WellFormed() && Flowing(mine, world) && mine.flow.Some?
    ensures |mine.workload.jobs| <= mine.first <= world.flow.value.next
  {
  }

  /** So the workflow never refuses an interval. */
  lemma FlowGoesOn(mine: Mine, world: World, at: Time, capacity: int)
    requires Running(mine, world) && mine.flow.Some? && at > world.queue.now && StreamsInOrder(world.queue, at)
    ensures var finished := Advance(world.queue, at, capacity).1.finished;
            var (flow, step) := AdvanceFlow(mine.flow.value, world.flow.value, at, finished, ValuedBy(world.memory));
            && step.Ok?
            && WorkflowRuns.Advanced(mine.flow.value, mine.first, world.flow.value, at, finished, flow, step.value)
  {
    hide Valid, StreamsInOrder, Advance, AllFair, Booked, FromSolver, InTouch, Holds, Indexed, Sourced, Accounted, AdvanceFlow,
         WorkflowRuns.AllFinishable, WorkflowRuns.Advanced, Laid;
    FinishedCanBeTold(mine, world, at, capacity);
    WorkflowRuns.AdvanceKeeps(mine.flow.value, mine.first, world.flow.value, at, Advance(world.queue, at, capacity).1.finished, ValuedBy(world.memory));
  }

  // ---------- Handing over what the workflow submits ----------

  /** What the workflow submits is new to the queue: identities above every one it has, or has
      still to come. */
  lemma SubmittedIsFresh(mine: Mine, world: World, q: Queue, at: Time, jobs: seq<Job>)
    requires mine.WellFormed() && mine.flow.Some? && Flowing(mine, world) && Valid(q) && Sourced(mine, world.(queue := q))
    requires WorkflowRuns.Handed(mine.flow.value, world.flow.value.next, at, jobs)
    ensures FreshWork(q, jobs)
  {
    hide Sound, Awaited, Holds, Indexed;
    var w, next := mine.flow.value, world.flow.value.next;
    NextIsPast(mine, world);
    forall x | x in q.jobs ensures x < next {
      if Own(world.(queue := q), x) {
        OwnIsPast(mine, world, x);
      }
    }
    forall j | 0 <= j < |Handed(q)| ensures Handed(q)[j].id < next {
      assert Own(world.(queue := q), Handed(q)[j].id);
      OwnIsPast(mine, world, Handed(q)[j].id);
    }
    forall j | 0 <= j < |Log(q)| ensures Log(q)[j].id < next {
    }
    forall k | 0 <= k < |jobs| ensures jobs[k].seconds > 0 {
      SubmittedTakesTime(w, next, at, jobs, k);
    }
  }

  lemma SubmittedTakesTime(w: Setup, next: JobId, at: Time, jobs: seq<Job>, k: nat)
    requires WorkflowRuns.Handed(w, next, at, jobs) && k < |jobs|
    requires w.plan.associate.seconds > 0 && w.plan.associate.perLocate >= 0 && forall id :: w.drawn(id) > 0
    ensures jobs[k].seconds > 0
  {
    if jobs[k].stage == StageAssociate {
      var n: nat :| jobs[k].seconds == w.plan.associate.Cost(n);
      assert w.plan.associate.perLocate * n >= 0;
    }
  }

  /** Handed over, it joins the work still to come, and nothing else changes. */
  lemma SubmittedIsSourced(mine: Mine, world: World, q: Queue, flow: Flow, at: Time, step: FlowStep, finished: seq<JobId>)
    requires mine.WellFormed() && mine.flow.Some? && Flowing(mine, world) && Valid(q) && Sourced(mine, world.(queue := q))
    requires q.now == at
    requires WorkflowRuns.Advanced(mine.flow.value, mine.first, world.flow.value, at, finished, flow, step)
    ensures var (joined, ok) := Submit(q, step.submit);
            && ok && Valid(joined) && joined == q.(pending := joined.pending)
            && Sourced(mine, world.(queue := joined, flow := Some(flow)))
            && Log(joined) == Log(q)
  {
    hide Sound, Awaited, Holds, Indexed, Laid;
    SubmittedIsFresh(mine, world, q, at, step.submit);
    SubmitKeeps(q, step.submit);
    var joined := Submit(q, step.submit).0;
    var after := world.(queue := joined, flow := Some(flow));
    hide FreshWork, Submit;
    forall i | 0 <= i < |Handed(joined)| ensures Own(after, Handed(joined)[i].id) && StageLevel(mine, Handed(joined)[i].priority) {
      var y := Handed(joined)[i];
      assert y in Handed(joined);
      if y in Handed(q) {
        assert Own(world.(queue := q), y.id);
      } else {
        SubmittedIsOwn(mine, world, flow, at, step, finished, y);
      }
    }
    forall id | Own(after, id) ensures id in joined.jobs || HandedOver(joined, id) {
      SubmittedIsHanded(mine, world, q, joined, flow, at, step, finished, id);
    }
  }

  lemma SubmittedIsHanded(mine: Mine, world: World, q: Queue, joined: Queue, flow: Flow, at: Time, step: FlowStep, finished: seq<JobId>, id: JobId)
    requires mine.WellFormed() && mine.flow.Some? && Flowing(mine, world) && q.nextPending <= |q.pending| && joined.nextPending <= |joined.pending|
    requires OwnPresent(world.(queue := q)) && q.now == at && joined.jobs == q.jobs
    requires forall y :: y in Handed(joined) <==> y in Handed(q) || y in AllOnTime(step.submit, at)
    requires WorkflowRuns.Advanced(mine.flow.value, mine.first, world.flow.value, at, finished, flow, step)
    requires id in flow.issued
    ensures id in joined.jobs || HandedOver(joined, id)
  {
    hide Indexed;
    if id in world.flow.value.issued {
      assert Own(world.(queue := q), id);
      if id !in q.jobs {
        var i :| 0 <= i < |Handed(q)| && Handed(q)[i].id == id;
        AlsoHanded(joined, Handed(q)[i]);
      }
    } else {
      var k := id - world.flow.value.next;
      assert 0 <= k < |step.submit| && step.submit[k].id == id;
      var y := AllOnTime(step.submit, at)[k];
      assert y in AllOnTime(step.submit, at);
      AlsoHanded(joined, y);
    }
  }

  lemma AlsoHanded(q: Queue, y: Job)
    requires q.nextPending <= |q.pending| && y in Handed(q)
    ensures HandedOver(q, y.id)
  {
    var i :| 0 <= i < |Handed(q)| && Handed(q)[i] == y;
  }

  lemma SubmittedIsOwn(mine: Mine, world: World, flow: Flow, at: Time, step: FlowStep, finished: seq<JobId>, y: Job)
    requires mine.WellFormed() && mine.flow.Some? && Flowing(mine, world)
    requires WorkflowRuns.Advanced(mine.flow.value, mine.first, world.flow.value, at, finished, flow, step)
    requires y in AllOnTime(step.submit, at)
    ensures y.id in flow.issued && StageLevel(mine, y.priority)
  {
    hide Indexed;
    var k :| 0 <= k < |step.submit| && OnTime(step.submit[k], at) == y;
    assert step.submit[k].id == world.flow.value.next + k;
    NextIsPast(mine, world);
  }

  // ---------- What the catalogue is told ----------

  lemma {:induction false} PicksAmongHold(issued: set<JobId>, finished: seq<JobId>)
    requires Distinct(finished)
    ensures var picks := WorkflowRuns.PicksAmong(issued, finished);
            && Distinct(picks)
            && forall id :: id in picks <==> id in finished && id !in issued
  {
    if finished != [] {
      var rest := finished[1..];
      assert forall k :: 0 <= k < |rest| ==> rest[k] == finished[k + 1];
      PicksAmongHold(issued, rest);
      var picks := WorkflowRuns.PicksAmong(issued, rest);
      assert finished == [finished[0]] + rest;
      assert finished[0] !in rest;
      forall k | 0 <= k < |picks| ensures picks[k] != finished[0] {
        assert picks[k] in picks;
      }
    }
  }

  /** The catalogue never refuses locates of events there are, or finished picks it was not
      told of before; and it loses nothing it knew. */
  lemma CatalogueGoesOn(mine: Mine, world: World, at: Time, located: seq<nat>, picks: seq<JobId>)
    requires mine.WellFormed() && Booked(mine.workload, world.book)
    requires forall k :: 0 <= k < |located| ==> located[k] < |mine.workload.events|
    requires Distinct(picks) && forall k :: 0 <= k < |picks| ==> 0 <= picks[k] < |mine.workload.jobs| && !world.book.done[picks[k]]
    ensures var r := Recorded(mine, world, at, located, picks);
            && r.Some? && r.value == world.(book := r.value.book)
            && Onward(mine.workload, world.book, r.value.book)
            && (forall k :: 0 <= k < |mine.workload.jobs| ==> (r.value.book.done[k] <==> world.book.done[k] || k in picks))
  {
    hide RecordBooked, Locate, ObserveAll, FromSolver;
    LocateKeeps(mine.workload, world.book, at, located);
    var solved := Locate(mine.workload, world.book, at, located).0;
    ObserveKeeps(mine.workload, solved, at, picks);
    OnwardThen(mine.workload, world.book, solved, ObserveAll(mine.workload, solved, at, picks).0);
  }

  // ---------- An interval's work ----------

  /** What an interval's work makes of a run, as it starts being told what finished. */
  ghost predicate Told(mine: Mine, world: World, after: World, finished: seq<JobId>)
    requires mine.WellFormed() && Sized(mine.workload, world.book)
  {
    && Distinct(finished)
    && (forall id :: id in finished <==> CompletedIn(after.queue.jobs, id) && !CompletedIn(world.queue.jobs, id))
    && (forall id :: CompletedIn(world.queue.jobs, id) ==> CompletedIn(after.queue.jobs, id))
    && after.reported == world.reported + finished && after.breaches == after.queue.breached
    && (world.flow.Some? ==> after.flow.Some? && after.flow.value.done == world.flow.value.done + WorkflowRuns.AsSet(finished))
    && Sized(mine.workload, after.book)
    && (forall k :: 0 <= k < |mine.workload.jobs| ==> (after.book.done[k] <==> world.book.done[k] || k in finished))
    && (after.flow.Some? ==> world.flow.Some?)
  }

  /** So everyone still agrees on what is finished, and nothing is reported twice. */
  lemma ToldIsAccounted(mine: Mine, world: World, after: World, finished: seq<JobId>)
    requires mine.WellFormed() && Sized(mine.workload, world.book) && Accounted(mine, world) && Told(mine, world, after, finished)
    ensures Accounted(mine, after)
  {
    var was := world.reported;
    forall i, j | 0 <= i < j < |after.reported| ensures after.reported[i] != after.reported[j] {
      if i < |was| && j >= |was| {
        assert after.reported[i] in was;
        assert after.reported[j] == finished[j - |was|] && finished[j - |was|] in finished;
      } else if i >= |was| {
        assert after.reported[i] == finished[i - |was|] && after.reported[j] == finished[j - |was|];
      }
    }
    forall id ensures id in after.reported <==> CompletedIn(after.queue.jobs, id) {
      assert id in after.reported <==> id in was || id in finished;
    }
  }

  /** The planner is as much in touch as it was: its record is as it was, jobs waiting are
      where they were, and what was in the queue or done still is. */
  lemma StillInTouch(mine: Mine, world: World, after: World)
    requires mine.WellFormed() && Sized(mine.workload, world.book) && Sized(mine.workload, after.book) && InTouch(mine, world)
    requires after.memory == world.memory && Agree(world.memory.requested, after.queue.jobs)
    requires forall id :: id in world.queue.jobs ==> id in after.queue.jobs
    requires forall k :: 0 <= k < |mine.workload.jobs| && world.book.done[k] ==> after.book.done[k]
    ensures InTouch(mine, after)
  {
    hide Agree, Honest;
  }

  /** What an interval's work comes to: nothing is refused; everyone is told the same; the
      queue is as service left it but for what it was handed. */
  ghost predicate WorkGoesOn(mine: Mine, world: World, at: Time, capacity: int)
    requires mine.WellFormed() && Valid(world.queue) && (at > world.queue.now ==> StreamsInOrder(world.queue, at))
    requires Sized(mine.workload, world.book)
    requires mine.flow.Some? ==> world.flow.Some? && Indexed(mine.flow.value, world.flow.value)
  {
    var r, (q, progress) := Worked(mine, world, at, capacity), Advance(world.queue, at, capacity);
    && r.Some? && r.value.memory == world.memory
    && Told(mine, world, r.value, progress.finished) && Onward(mine.workload, world.book, r.value.book)
    && r.value.queue == q.(pending := r.value.queue.pending)
    && Valid(r.value.queue) && Sourced(mine, r.value) && Flowing(mine, r.value)
    && (forall i :: 0 <= i < |Log(r.value.queue)| ==> Log(r.value.queue)[i].submittedAt > at)
  }

  /** In a mine with no workflow of its own. */
  lemma PlainWorkHolds(mine: Mine, world: World, at: Time, capacity: int)
    requires Running(mine, world) && mine.flow.None? && at > world.queue.now && StreamsInOrder(world.queue, at)
    ensures WorkGoesOn(mine, world, at, capacity)
  {
    hide Sound, Awaited, StreamsInOrder, Advance, AllFair, FromSolver, InTouch, LogSourced, HandedSourced, Present, Recorded, RecordBooked;
    AdvanceReports(world.queue, at, capacity);
    AdvanceKeeps(world.queue, at, capacity);
    ServedIsSourced(mine, world, at, capacity);
    var (q, progress) := Advance(world.queue, at, capacity);
    forall k | 0 <= k < |progress.finished|
      ensures 0 <= progress.finished[k] < |mine.workload.jobs| && !world.book.done[progress.finished[k]]
    {
      var id := progress.finished[k];
      assert id in progress.finished;
    }
    var told := world.(queue := q, reported := world.reported + progress.finished, breaches := world.breaches + progress.breached);
    CatalogueGoesOn(mine, told, at, [], progress.finished);
    StillSourced(mine, world.(queue := q), Recorded(mine, told, at, [], progress.finished).value);
  }

  lemma StillSourced(mine: Mine, a: World, b: World)
    requires mine.WellFormed() && Valid(a.queue) && Sourced(mine, a) && b.queue == a.queue && b.flow == a.flow
    ensures Sourced(mine, b)
  {
    hide Sound, Awaited, LogSourced, Present;
    forall id | Own(b, id) ensures id in b.queue.jobs || HandedOver(b.queue, id) {
      assert Own(a, id);
    }
  }

  /** In a mine with one. */
  lemma FlowWorkHolds(mine: Mine, world: World, at: Time, capacity: int)
    requires Running(mine, world) && mine.flow.Some? && at > world.queue.now && StreamsInOrder(world.queue, at)
    ensures WorkGoesOn(mine, world, at, capacity)
  {
    hide Sound, Awaited, StreamsInOrder, Advance, AllFair, FromSolver, InTouch, Sourced, Recorded, RecordBooked, Accounted,
         Holds, Indexed, Laid, AdvanceFlow, Submit, WorkflowRuns.Handed, PickOf;
    FlowGoesOn(mine, world, at, capacity);
    AdvanceReports(world.queue, at, capacity);
    AdvanceKeeps(world.queue, at, capacity);
    ServedIsSourced(mine, world, at, capacity);
    var (q, progress) := Advance(world.queue, at, capacity);
    var (flow, step) := AdvanceFlow(mine.flow.value, world.flow.value, at, progress.finished, ValuedBy(world.memory));
    SubmittedIsSourced(mine, world, q, flow, at, step.value, progress.finished);
    LocatedHadPicks(mine, world, at, progress.finished, flow, step.value);
    BookSize(mine, world);
    PicksCanBeTold(mine, world, at, capacity);
    var told := world.(queue := Submit(q, step.value.submit).0, flow := Some(flow), reported := world.reported + progress.finished,
                       breaches := world.breaches + progress.breached);
    CatalogueGoesOn(mine, told, at, step.value.located, step.value.picks);
    var r := Recorded(mine, told, at, step.value.located, step.value.picks).value;
    StillSourced(mine, world.(queue := told.queue, flow := Some(flow)), r);
    BreachesAdd(mine, world);
  }

  lemma BreachesAdd(mine: Mine, world: World)
    requires mine.WellFormed() && Sized(mine.workload, world.book) && Accounted(mine, world)
    ensures world.breaches == world.queue.breached
  {
  }

  /** The picks among what finished are generated jobs not recorded before, and no generated job
      that finished is left out. */
  lemma PicksCanBeTold(mine: Mine, world: World, at: Time, capacity: int)
    requires Running(mine, world) && mine.flow.Some? && at > world.queue.now && StreamsInOrder(world.queue, at)
    ensures var finished := Advance(world.queue, at, capacity).1.finished;
            var picks := WorkflowRuns.PicksAmong(world.flow.value.issued.Keys, finished);
            && Distinct(picks)
            && (forall k :: 0 <= k < |picks| ==> 0 <= picks[k] < |mine.workload.jobs| && !world.book.done[picks[k]])
            && (forall k :: 0 <= k < |mine.workload.jobs| ==> (k in picks <==> k in finished))
  {
    hide Sound, Awaited, StreamsInOrder, Advance, AllFair, FromSolver, InTouch, LogSourced, HandedSourced, Present, RecordBooked,
         Holds, Indexed, Laid;
    AdvanceReports(world.queue, at, capacity);
    ServedIsSourced(mine, world, at, capacity);
    var (q, progress) := Advance(world.queue, at, capacity);
    var picks := WorkflowRuns.PicksAmong(world.flow.value.issued.Keys, progress.finished);
    PicksAmongHold(world.flow.value.issued.Keys, progress.finished);
    forall k | 0 <= k < |picks| ensures 0 <= picks[k] < |mine.workload.jobs| && !world.book.done[picks[k]] {
      var id := picks[k];
      assert id in picks;
      assert !Own(world.(queue := q), id);
    }
    IssuedArePast(mine, world);
  }

  lemma IssuedArePast(mine: Mine, world: World)
    requires mine.WellFormed() && Flowing(mine, world) && mine.flow.Some?
    ensures forall id :: id in world.flow.value.issued ==> id >= |mine.workload.jobs|
  {
    hide Indexed;
  }

  /** The workflow and the catalogue count the same picks of each event. */
  lemma SameCount(mine: Mine, world: World, i: nat)
    requires mine.WellFormed() && mine.flow.Some? && Booked(mine.workload, world.book) && Flowing(mine, world) && Accounted(mine, world)
    requires i < |mine.workload.events|
    ensures |world.flow.value.tallies| == |mine.workload.events|
    ensures world.flow.value.tallies[i].processed == world.book.processed[i]
  {
    hide Laid, Indexed, Followed, Known;
    assert |world.flow.value.tallies| == |mine.flow.value.events| by {
      FlowSize(mine, world);
    }
    assert RecordBooked(mine.workload, world.book, i);
    var e := mine.workload.events[i];
    assert mine.flow.value.events[i] == Happening(e.origin, e.first, e.picks);
    assert DonePicks(mine.flow.value.events[i], world.flow.value.done) == DoneOf(mine.workload, world.book.done, i);
  }

  lemma FlowSize(mine: Mine, world: World)
    requires mine.WellFormed() && mine.flow.Some? && Flowing(mine, world)
    ensures |world.flow.value.tallies| == |mine.flow.value.events|
  {
  }

  lemma LocatedHadPicks(mine: Mine, world: World, at: Time, finished: seq<JobId>, flow: Flow, step: FlowStep)
    requires mine.WellFormed() && mine.flow.Some? && Booked(mine.workload, world.book) && Flowing(mine, world) && Accounted(mine, world)
    requires WorkflowRuns.Advanced(mine.flow.value, mine.first, world.flow.value, at, finished, flow, step)
    ensures forall k :: 0 <= k < |step.located| ==>
                          step.located[k] < |world.book.processed| && world.book.processed[step.located[k]] >= MINIMUM_PICKS
  {
    hide RecordBooked, Flowing, Accounted, Holds, Indexed, WorkflowRuns.Handed;
    FlowSize(mine, world);
    BookSize(mine, world);
    forall k | 0 <= k < |step.located|
      ensures step.located[k] < |world.book.processed| && world.book.processed[step.located[k]] >= MINIMUM_PICKS
    {
      SameCount(mine, world, step.located[k]);
    }
  }

  /** Every event an interval locates had at least four of its picks recorded in the catalogue
      before the interval began: no locate runs on too few. */
  lemma LocatesHaveFourPicks(mine: Mine, world: World, at: Time, capacity: int)
    requires Running(mine, world) && mine.flow.Some? && at > world.queue.now && StreamsInOrder(world.queue, at)
    ensures var finished := Advance(world.queue, at, capacity).1.finished;
            var step := AdvanceFlow(mine.flow.value, world.flow.value, at, finished, ValuedBy(world.memory)).1;
            && step.Ok?
            && forall k :: 0 <= k < |step.value.located| ==>
                             step.value.located[k] < |world.book.processed| && world.book.processed[step.value.located[k]] >= MINIMUM_PICKS
  {
    hide Valid, StreamsInOrder, Advance, AllFair, FromSolver, InTouch, Sourced, RecordBooked, Accounted, Holds, Indexed, Laid, AdvanceFlow,
         WorkflowRuns.Advanced;
    FlowGoesOn(mine, world, at, capacity);
    var finished := Advance(world.queue, at, capacity).1.finished;
    var (flow, step) := AdvanceFlow(mine.flow.value, world.flow.value, at, finished, ValuedBy(world.memory));
    LocatedHadPicks(mine, world, at, finished, flow, step.value);
  }

  lemma BookSize(mine: Mine, world: World)
    requires mine.WellFormed() && Booked(mine.workload, world.book)
    ensures Sized(mine.workload, world.book)
  {
  }

  lemma ServedKeepsJobs(q: Queue, at: Time, capacity: int)
    requires Valid(q) && at > q.now && StreamsInOrder(q, at)
    ensures forall id :: id in q.jobs ==> id in Advance(q, at, capacity).0.jobs
  {
    hide Valid, StreamsInOrder, Advance, Due;
    forall id | id in q.jobs ensures id in Advance(q, at, capacity).0.jobs {
      AdvanceShapes(q, at, capacity, id);
    }
  }

  /** No interval's work is ever refused, whatever the capacity, and everything that held before
      it holds after: of the queue, the workflow, the catalogue, the planner, and between them. */
  lemma WorkRuns(mine: Mine, world: World, at: Time, capacity: int)
    requires Running(mine, world) && at > world.queue.now
    ensures StreamsInOrder(world.queue, at)
    ensures var r := Worked(mine, world, at, capacity);
            && r.Some? && Running(mine, r.value) && r.value.queue.now == at && r.value.memory == world.memory
            && Onward(mine.workload, world.book, r.value.book)
            && (forall i :: 0 <= i < |Log(r.value.queue)| ==> Log(r.value.queue)[i].submittedAt > at)
  {
    LevelsApart(mine, world, at);
    hide Valid, StreamsInOrder, Advance, AllFair, RecordBooked, FromSolver, Sourced, Flowing, Accounted, InTouch, Worked, Log;
    if mine.flow.Some? {
      FlowWorkHolds(mine, world, at, capacity);
    } else {
      PlainWorkHolds(mine, world, at, capacity);
    }
    var r, q := Worked(mine, world, at, capacity).value, Advance(world.queue, at, capacity).0;
    ToldIsAccounted(mine, world, r, Advance(world.queue, at, capacity).1.finished);
    AdvanceKeeps(world.queue, at, capacity);
    TickIsFair(world.queue, at, capacity);
    SameFair(q, r.queue);
    ServedAgrees(mine, world, at, capacity);
    ServedKeepsJobs(world.queue, at, capacity);
    StillInTouch(mine, world, r);
  }

  lemma SameFair(a: Queue, b: Queue)
    requires AllFair(a) && b.jobs == a.jobs && b.now == a.now && b.deadlines == a.deadlines
    ensures AllFair(b)
  {
    hide Fair;
  }

  // ---------- Intent ----------

  /** Reprioritising changes neither what is finished nor what was submitted as what. */
  lemma {:induction false} ApplyAllShapes(q: Queue, at: Time, updates: seq<Update>)
    requires Sound(q) && at <= q.now
    ensures var r := ApplyAll(q, at, updates).0;
            && r.jobs.Keys == q.jobs.Keys
            && forall id :: id in q.jobs ==> r.jobs[id].submitted == q.jobs[id].submitted && (CompletedIn(r.jobs, id) <==> CompletedIn(q.jobs, id))
    decreases |updates|
  {
    if updates != [] {
      hide Sound, ApplyOne;
      var r := ApplyOne(q, at, updates[0]).0;
      ApplyOneKeeps(q, at, updates[0]);
      ApplyOneShapes(q, at, updates[0]);
      ApplyAllShapes(r, at, updates[1..]);
      forall id | id in q.jobs ensures id in r.jobs {
        assert id in r.jobs.Keys;
      }
    }
  }

  lemma ApplyOneShapes(q: Queue, at: Time, u: Update)
    ensures var r := ApplyOne(q, at, u).0;
            && r.jobs.Keys == q.jobs.Keys
            && forall id :: id in q.jobs ==> r.jobs[id].submitted == q.jobs[id].submitted && (CompletedIn(r.jobs, id) <==> CompletedIn(q.jobs, id))
  {
    hide Drop, PutIn;
    var r := ApplyOne(q, at, u).0;
    assert r.jobs.Keys == q.jobs.Keys;
  }

  /** Events the planner has not opened stay as they were submitted. */
  lemma {:induction false} StepsKeepUntouched(site: Site, m: Memory, cat: Catalogue, at: Time, todo: seq<nat>, next: nat)
    requires site.WellFormed() && cat.For(site) && m.For(site) && Planner.Untouched(site, m.requested, next) && next <= |site.events|
    requires forall j :: 0 <= j < |todo| ==> todo[j] < next
    ensures Planner.Untouched(site, Steps(site, m, cat, at, todo).0.requested, next)
    decreases |todo|
  {
    hide Ask, Announce, Assess, Planner.Untouched;
    if todo != [] {
      assert forall j :: 0 <= j < |todo[1..]| ==> todo[1..][j] == todo[j + 1];
      if cat.remaining[todo[0]] == 0 {
        StepsKeepUntouched(site, m, cat, at, todo[1..], next);
      } else {
        var t := Assess(site, m.settings, cat, todo[0], at);
        Planner.AskKeepsUntouched(site, m.settings, cat, at, todo[0], t.state, m.requested, next);
        StepsKeepUntouched(site, Step(site, m, cat, at, todo[0]).0, cat, at, todo[1..], next);
      }
    }
  }

  /** After a cycle the planner has opened exactly the events that have happened, asked nothing
      of the others, and let go only of events with no work left. */
  lemma CycleOpens(site: Site, m: Memory, cat: Catalogue, at: Time)
    requires site.WellFormed() && cat.For(site) && m.For(site) && Planner.Untouched(site, m.requested, m.next)
    ensures var r := Cycle(site, m, cat, at).0;
            && Planner.Untouched(site, r.requested, r.next)
            && r.next >= m.next && (forall i :: m.next <= i < r.next ==> site.events[i].origin <= at)
            && (forall i: nat :: i < r.next && i !in r.open ==> cat.remaining[i] == 0 || (i < m.next && i !in m.open))
  {
    hide Planner.Untouched, Steps;
    var ready := Opened(site, m, at);
    UntouchedSooner(site, m.requested, m.next, ready.next);
    StepsKeepUntouched(site, ready, cat, at, ready.open, ready.next);
    forall i: nat | i < ready.next && i !in StillOpen(cat, ready.open) ensures cat.remaining[i] == 0 || (i < m.next && i !in m.open) {
      if i >= m.next {
        assert Range(m.next, ready.next)[i - m.next] == i;
        assert i in ready.open;
      } else if i in m.open {
        assert i in ready.open;
      }
    }
  }

  lemma UntouchedSooner(site: Site, requested: seq<Request>, a: nat, b: nat)
    requires site.WellFormed() && |requested| == |site.priorities| && Planner.Untouched(site, requested, a) && a <= b
    ensures Planner.Untouched(site, requested, b)
  {
  }

  /** An event with no work left has no pick unfinished. */
  lemma NoneLeft(mine: Mine, book: Book, i: nat, k: JobId)
    requires mine.WellFormed() && Booked(mine.workload, book) && i < |mine.site.events|
    requires Knows(mine.workload, book).remaining[i] == 0 && PickedBy(mine, i, k)
    ensures book.done[k]
  {
    assert RecordBooked(mine.workload, book, i);
    var e, done := mine.workload.events[i], DoneOf(mine.workload, book.done, i);
    assert |done| >= e.picks;
    InRange(e.first, e.picks, done + {k});
    assert k !in done ==> |done + {k}| == |done| + 1;
  }

  /** A job is a pick of one event. */
  lemma PickedOnce(mine: Mine, a: nat, b: nat, k: JobId)
    requires mine.WellFormed() && PickedBy(mine, a, k) && PickedBy(mine, b, k)
    ensures a == b
  {
    var apart := (i: nat, j: nat) => i < j < |mine.site.events| ==> Apart(mine.site.events[i], mine.site.events[j]);
    assert apart(a, b) && apart(b, a);
  }

  /** What a pick's event has opened, the queue holds. */
  lemma HappenedIsHere(mine: Mine, world: World, at: Time, i: nat, k: JobId)
    requires mine.WellFormed() && Valid(world.queue) && Present(mine, world.queue) && LogSourced(mine, Log(world.queue))
    requires forall n :: 0 <= n < |Log(world.queue)| ==> Log(world.queue)[n].submittedAt > at
    requires PickedBy(mine, i, k) && mine.site.events[i].origin <= at
    ensures k in world.queue.jobs
  {
    hide Sound, Awaited;
    assert mine.Generated(k);
    var e := mine.workload.jobs[k].event;
    PickedOnce(mine, e, i, k);
    var q := world.queue;
    assert ToCome(q, k) || k in q.jobs;
  }

  lemma MovedIsSourced(mine: Mine, world: World, after: World)
    requires mine.WellFormed() && Valid(world.queue) && Sourced(mine, world) && after.flow == world.flow
    requires after.queue == world.queue.(jobs := after.queue.jobs, levels := after.queue.levels,
                                         exemptWaiting := after.queue.exemptWaiting, reprioritised := after.queue.reprioritised)
    requires after.queue.jobs.Keys == world.queue.jobs.Keys
    requires forall id :: id in world.queue.jobs ==> after.queue.jobs[id].submitted == world.queue.jobs[id].submitted
    ensures Sourced(mine, after)
  {
    hide Sound, Awaited;
    var q := after.queue;
    forall id | id in q.jobs ensures (0 <= id < |mine.workload.jobs| && q.jobs[id].submitted == mine.site.priorities[id]) || Own(after, id) {
      assert id in world.queue.jobs.Keys;
    }
    forall k | 0 <= k < |mine.workload.jobs| ensures k in q.jobs || ToCome(q, k) {
      var was := world.queue;
      assert ToCome(was, k) || k in was.jobs.Keys;
      assert Log(q) == Log(was);
      assert ToCome(was, k) ==> ToCome(q, k);
    }
    forall id | Own(after, id) ensures id in q.jobs || HandedOver(q, id) {
      var was := world.queue;
      assert Own(world, id);
      assert HandedOver(was, id) || id in was.jobs.Keys;
      assert Handed(q) == Handed(was);
      assert HandedOver(was, id) ==> HandedOver(q, id);
    }
    assert HandedSourced(mine, after, Handed(q)) by {
      forall i | 0 <= i < |Handed(q)| ensures Own(after, Handed(q)[i].id) {
        assert Own(world, Handed(world.queue)[i].id);
      }
    }
  }

  /** The planner after a cycle. */
  lemma IntentInTouch(mine: Mine, world: World, at: Time, settings: Intent)
    requires Running(mine, world) && world.queue.now == at
    requires forall n :: 0 <= n < |Log(world.queue)| ==> Log(world.queue)[n].submittedAt > at
    requires var r := Intended(mine, world, at, settings).0; r.queue.jobs.Keys == world.queue.jobs.Keys
    ensures var (r, applied, updates) := Intended(mine, world, at, settings);
            InTouch(mine, r) && applied.changed + applied.tooLate == updates
  {
    hide Valid, AllFair, RecordBooked, FromSolver, LogSourced, HandedSourced, Present, JobsSourced, Flowing, Accounted, Cycle, ApplyAll, Agree, Honest, Planner.Untouched, Log;
    var site, m, cat := mine.site, world.memory.(settings := settings), Knows(mine.workload, world.book);
    CycleAgrees(site, m, cat, at, world.queue, at);
    CycleOpens(site, m, cat, at);
    var (r, applied, updates) := Intended(mine, world, at, settings);
    forall i: nat, k | i < r.memory.next && PickedBy(mine, i, k) ensures k in r.queue.jobs {
      if i >= m.next {
        HappenedIsHere(mine, world, at, i, k);
      }
      assert k in world.queue.jobs.Keys;
    }
    forall i: nat, k | i < r.memory.next && i !in r.memory.open && PickedBy(mine, i, k) ensures r.book.done[k] {
      if cat.remaining[i] == 0 {
        NoneLeft(mine, world.book, i, k);
      }
    }
  }

  /** Every cycle's intent leaves the planner's record and the queue in agreement, every update
      either changing a job or too late to; and everything else that held still holds. */
  lemma IntentRuns(mine: Mine, world: World, at: Time, settings: Intent)
    requires Running(mine, world) && world.queue.now == at
    requires forall n :: 0 <= n < |Log(world.queue)| ==> Log(world.queue)[n].submittedAt > at
    ensures var (r, applied, updates) := Intended(mine, world, at, settings);
            && Running(mine, r) && r.queue.now == at
            && applied.changed + applied.tooLate == updates
  {
    hide Awaited, Sound, AllFair, RecordBooked, FromSolver, Sourced, Flowing, InTouch, Cycle, ApplyAll;
    MemoryFits(mine, world);
    KnownFits(mine, world.book);
    var (r, applied, updates) := Intended(mine, world, at, settings);
    var batch := Cycle(mine.site, world.memory.(settings := settings), Knows(mine.workload, world.book), at).1.updates;
    ApplyAllKeeps(world.queue, at, batch);
    ApplyAllShapes(world.queue, at, batch);
    AwaitedSame(world.queue, r.queue);
    MoveIsFair(world.queue, batch);
    MovedIsSourced(mine, world, r);
    IntentInTouch(mine, world, at, settings);
    assert forall id :: CompletedIn(r.queue.jobs, id) <==> CompletedIn(world.queue.jobs, id) by {
      forall id ensures CompletedIn(r.queue.jobs, id) <==> CompletedIn(world.queue.jobs, id) {
        assert id in r.queue.jobs.Keys <==> id in world.queue.jobs.Keys;
      }
    }
    SameAccounts(mine, world, r);
    SameFlow(mine, world, r);
  }

  lemma SameAccounts(mine: Mine, a: World, b: World)
    requires mine.WellFormed() && Sized(mine.workload, a.book) && Accounted(mine, a)
    requires b.book == a.book && b.flow == a.flow && b.reported == a.reported && b.breaches == a.breaches
    requires b.queue.breached == a.queue.breached && forall id :: CompletedIn(b.queue.jobs, id) <==> CompletedIn(a.queue.jobs, id)
    ensures Accounted(mine, b)
  {
  }

  lemma SameFlow(mine: Mine, a: World, b: World)
    requires mine.WellFormed() && Flowing(mine, a) && b.flow == a.flow
    ensures Flowing(mine, b)
  {
  }

  /** A pick waiting where it was submitted, and free to be the reason capacity is bought. */
  predicate LetBe(mine: Mine, jobs: Jobs, k: JobId)
  {
    0 <= k < |mine.site.priorities| && k in jobs && jobs[k].waiting ==>
      jobs[k].job.priority == mine.site.priorities[k] && !jobs[k].exempt
  }

  /** One cycle after intent is switched off, every waiting pick is at the priority it was
      submitted with, and none is exempt. */
  lemma OffLetsGo(mine: Mine, world: World, at: Time, settings: Intent, k: JobId)
    requires Running(mine, world) && world.queue.now == at && settings.mode.Off?
    requires forall n :: 0 <= n < |Log(world.queue)| ==> Log(world.queue)[n].submittedAt > at
    ensures LetBe(mine, Intended(mine, world, at, settings).0.queue.jobs, k)
  {
    hide Valid, AllFair, RecordBooked, FromSolver, Sourced, Flowing, Accounted, ApplyAll, Log;
    IntentRuns(mine, world, at, settings);
    var r := Intended(mine, world, at, settings).0;
    if 0 <= k < |mine.site.priorities| && k in r.queue.jobs && r.queue.jobs[k].waiting {
      WaitingIsUndone(mine, r, k);
      OffAsksBack(mine, world, at, settings, k);
      assert AgreesOn(r.memory.requested, r.queue.jobs, k);
      HonestSize(mine.site, r.memory.requested);
    }
  }

  lemma WaitingIsUndone(mine: Mine, world: World, k: JobId)
    requires Running(mine, world) && 0 <= k < |mine.workload.jobs| && k in world.queue.jobs && world.queue.jobs[k].waiting
    ensures !world.book.done[k]
  {
    hide Valid, AllFair, RecordBooked, FromSolver, Sourced, Flowing, InTouch;
  }

  /** With intent off, the planner's record of an unfinished pick is that it is as submitted:
      its event was judged this cycle, or has not happened, or it would be finished. */
  lemma OffAsksBack(mine: Mine, world: World, at: Time, settings: Intent, k: JobId)
    requires Running(mine, world) && settings.mode.Off? && 0 <= k < |mine.workload.jobs| && !world.book.done[k]
    ensures var r := Intended(mine, world, at, settings).0;
            |r.memory.requested| == |mine.site.priorities| && !r.memory.requested[k].Displaces(mine.site.priorities[k])
  {
    hide Valid, AllFair, RecordBooked, FromSolver, Sourced, Flowing, Accounted, ApplyAll, Agree, Honest, Steps;
    var site, m, cat := mine.site, world.memory.(settings := settings), Knows(mine.workload, world.book);
    assert mine.Generated(k);
    var e := mine.workload.jobs[k].event;
    assert PickedBy(mine, e, k);
    var ready := Opened(site, m, at);
    if cat.remaining[e] == 0 {
      NoneLeft(mine, world.book, e, k);
    }
    StepsLetGo(site, ready, cat, at, ready.open, k);
    if e < ready.next {
      OpenOrDone(mine, world, at, e, k, settings);
      var j :| 0 <= j < |ready.open| && ready.open[j] == e;
      assert cat.remaining[ready.open[j]] != 0;
    } else {
      assert AsSubmitted(site, ready.requested, k);
    }
  }

  lemma OpenOrDone(mine: Mine, world: World, at: Time, e: nat, k: JobId, settings: Intent)
    requires Running(mine, world) && PickedBy(mine, e, k) && !world.book.done[k]
    requires e < Opened(mine.site, world.memory.(settings := settings), at).next
    ensures e in Opened(mine.site, world.memory.(settings := settings), at).open
  {
    hide Valid, AllFair, RecordBooked, FromSolver, Sourced, Flowing, Accounted, Agree, Honest, Planner.Untouched;
    var m := world.memory;
    var next := Opened(mine.site, m.(settings := settings), at).next;
    if e >= m.next {
      assert Range(m.next, next)[e - m.next] == e;
    }
  }

  /** Intent that promotes nothing moves no pick above where it was submitted. */
  lemma IntentOnlyRelaxes(mine: Mine, world: World, at: Time, settings: Intent)
    requires Running(mine, world) && world.queue.now == at && !settings.mode.Promotes() && AllRelaxed(world.queue)
    ensures AllRelaxed(Intended(mine, world, at, settings).0.queue)
  {
    hide Valid, AllFair, RecordBooked, FromSolver, Accounted, InTouch, ApplyAll, LogSourced, HandedSourced, Present, Cycle, AllRelaxed;
    var m, cat := world.memory.(settings := settings), Knows(mine.workload, world.book);
    assert m.For(mine.site) by {
      MemoryFits(mine, world);
    }
    CycleOnlyRelaxes(mine.site, m, cat, at);
    var batch := Cycle(mine.site, m, cat, at).1.updates;
    QueueIsSound(world.queue);
    forall n | 0 <= n < |batch| && batch[n].job in world.queue.jobs
      ensures batch[n].priority <= world.queue.jobs[batch[n].job].submitted
    {
      assert NoHigher(mine.site, batch[n]);
      if Own(world, batch[n].job) {
        OwnIsPast(mine, world, batch[n].job);
      }
    }
    MoveIsFair(world.queue, batch);
  }

  lemma MemoryFits(mine: Mine, world: World)
    requires Running(mine, world)
    ensures world.memory.For(mine.site)
  {
  }

  lemma QueueIsSound(q: Queue)
    requires Valid(q)
    ensures Sound(q)
  {
  }
}
