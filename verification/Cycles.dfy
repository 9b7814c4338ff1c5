/** What one cycle leaves on record of events, and when a run is over: internal/run/engine.go:293-347. */
module Cycles {
  import opened Basics
  import opened Work
  import opened Settings
  import opened Orchestrator
  import opened Reference
  import opened QueueState
  import opened Serving
  import opened QueueOps
  import opened QueueLaws
  import opened CatalogueOps
  import opened Workflow
  import opened WorkflowLaws
  import opened WorkflowRuns
  import opened Engine
  import opened EngineLaws
  import opened EngineRuns
  import Admission
  import QueueRuns
  import Intake
  import Intervals
  import LocationRecord
  import Rhythm
  import Updates

  // ---------- The catalogue over a cycle ----------

  /** One event's record over a cycle, by way of what its locates leave: it is solved from the picks
      known before the cycle if a locate of it finished; then the picks that finished are noted. */
  ghost predicate Kept(w: Workload, before: seq<bool>, after: seq<bool>, at: Time, located: bool, picks: seq<JobId>, e: nat,
                       was: Record, solved: Record, now: Record)
    requires w.WellFormed() && |before| == |after| == |w.jobs| && e < |w.events|
  {
    && (if located then LocationRecord.Solved(w, before, at, e, was, solved) else solved == was)
    && LocationRecord.PicksNoted(w, at, picks, e, solved, now)
    && (if LocationRecord.Touches(w, picks, e) then LocationRecord.Concluded(w, after, at, e, solved.(pickAt := now.pickAt), now)
        else now == solved.(pickAt := now.pickAt))
  }

  lemma RecordedOutcome(mine: Mine, world: World, at: Time, located: seq<nat>, picks: seq<JobId>, e: nat) returns (solved: Record)
    requires mine.WellFormed() && Booked(mine.workload, world.book) && e < |mine.workload.events|
    requires Recorded(mine, world, at, located, picks).Some?
    ensures var r := Recorded(mine, world, at, located, picks).value.book;
            && Booked(mine.workload, r)
            && Kept(mine.workload, world.book.done, r.done, at, e in located, picks, e, world.book.records[e], solved, r.records[e])
  {
    hide RecordBooked, LocationRecord.Solved, LocationRecord.PicksNoted, LocationRecord.Touches, LocationRecord.Concluded;
    var w, ids := mine.workload, seq(|located|, k requires 0 <= k < |located| => located[k] as int);
    assert ids == located;
    LocateKeeps(w, world.book, at, located);
    LocationRecord.LocateOutcome(w, world.book, at, located);
    var mid := Locate(w, world.book, at, located).0;
    LocationRecord.ObserveOutcome(w, mid, at, picks);
    solved := mid.records[e];
  }

  /** A locate that finishes finds its event, if the solver can from the picks known when the cycle
      began: the event's first location is then that, made now, where it had none. */
  lemma LocatedFromWhatWasKnown(mine: Mine, world: World, at: Time, located: seq<nat>, picks: seq<JobId>, e: nat)
    requires mine.WellFormed() && Booked(mine.workload, world.book) && mine.workload.deferred && e < |mine.workload.events|
    requires Recorded(mine, world, at, located, picks).Some?
    ensures var r := Recorded(mine, world, at, located, picks).value.book;
            var answer := LocationRecord.Answer(mine.workload, world.book.done, e);
            && Sized(mine.workload, r) && Sized(mine.workload, world.book)
            && var was, now := world.book.records[e], r.records[e];
               && (was.located.Some? ==> now.located == was.located && now.locatedAt == was.locatedAt)
               && (was.located.None? && e in located ==> now.located == answer && (answer.Some? ==> now.locatedAt == Some(at)))
               && (e !in located ==> now.located == was.located && now.locatedAt == was.locatedAt && now.final == was.final)
  {
    hide RecordBooked, Recorded, LocationRecord.Answer, LocationRecord.Touches;
    var solved := RecordedOutcome(mine, world, at, located, picks, e);
  }

  /** A cycle of a mine that locates by jobs of its own: an event gets its first location in the cycle
      its first locate finishes, being what the solver makes of the picks known when the cycle began;
      and no other cycle changes where an event was first located. */
  lemma CycleLocates(mine: Mine, world: World, at: Time, capacity: int, e: nat)
    requires Running(mine, world) && mine.flow.Some? && mine.workload.deferred && e < |mine.workload.events|
    requires at > world.queue.now && Admission.StreamsInOrder(world.queue, at)
    ensures mine.WellFormed() && Sized(mine.workload, world.book) && world.flow.Some? && |world.flow.value.tallies| == |mine.workload.events|
    ensures Worked(mine, world, at, capacity).Some? && Sized(mine.workload, Worked(mine, world, at, capacity).value.book)
    ensures var finished := Advance(world.queue, at, capacity).1.finished;
            var locates := Intake.SomeLocateOf(world.flow.value, finished, e) && !world.flow.value.tallies[e].located;
            var was, now := world.book.records[e], Worked(mine, world, at, capacity).value.book.records[e];
            && (was.located.Some? || !locates ==> now.located == was.located)
            && (was.located.None? && locates ==> now.located == LocationRecord.Answer(mine.workload, world.book.done, e))
  {
    hide Valid, Admission.StreamsInOrder, Advance, QueueRuns.AllFair, FromSolver, InTouch, Sourced, RecordBooked, Accounted, Holds, Indexed, Laid,
         AdvanceFlow, Submit, Recorded, LocationRecord.Answer, Advanced, AllFinishable, Intake.SomeLocateOf,
         TakeAll, Swept, DonePicks, Candidate, Intake.Once;
    RunningHas(mine, world);
    WorkRuns(mine, world, at, capacity);
    RunningHas(mine, Worked(mine, world, at, capacity).value);
    FlowGoesOn(mine, world, at, capacity);
    FinishedCanBeTold(mine, world, at, capacity);
    QueueOps.AdvanceKeeps(world.queue, at, capacity);
    HandedIsThere(Advance(world.queue, at, capacity).0);
    var finished := Advance(world.queue, at, capacity).1.finished;
    var (flow, step) := AdvanceFlow(mine.flow.value, world.flow.value, at, finished, ValuedBy(world.memory));
    Intake.IntervalTakesIn(mine.flow.value, mine.first, world.flow.value, at, finished, ValuedBy(world.memory));
    var joined := Submit(Advance(world.queue, at, capacity).0, step.value.submit).0;
    var told := world.(queue := joined, flow := Some(flow), reported := world.reported + finished,
                       breaches := world.breaches + Advance(world.queue, at, capacity).1.breached);
    assert Worked(mine, world, at, capacity) == Recorded(mine, told, at, step.value.located, step.value.picks);
    LocatedFromWhatWasKnown(mine, told, at, step.value.located, step.value.picks, e);
  }

  lemma HandedIsThere(q: Queue)
    requires Valid(q)
    ensures q.nextPending <= |q.pending|
  {
  }

  // ---------- The workflow over a cycle ----------

  /** The events the mine judges worth waiting for the picks of: those promoted, and those kept. */
  function Worth(m: Memory): nat -> bool { (e: nat) => e < |m.judged| && m.judged[e].state !in {Unset, Unknown, Decayed} }

  /** An associate sweep newly handed to the queue. */
  ghost predicate SweepHandedOver(before: World, after: World)
    requires before.flow.Some? && after.queue.nextPending <= |after.queue.pending|
  {
    exists job :: job in QueueState.Handed(after.queue) && job.stage == StageAssociate && job.id >= before.flow.value.next
  }

  /** A cycle hands the queue a sweep exactly when there is something to group and the trigger calls for
      one, on the picks in flight when the interval's work is in: all of them, and those of the events
      the mine judged promoted or kept the cycle before. */
  lemma CycleSweeps(mine: Mine, world: World, at: Time, capacity: int)
    requires Running(mine, world) && mine.flow.Some? && at > world.queue.now && Admission.StreamsInOrder(world.queue, at)
    requires world.flow.Some? && Rhythm.Timely(world.flow.value, at)
    ensures Worked(mine, world, at, capacity).Some?
    ensures var r := Worked(mine, world, at, capacity).value;
            && r.flow.Some? && r.queue.nextPending <= |r.queue.pending| && Indexed(mine.flow.value, world.flow.value)
            && var w, f, done := mine.flow.value, world.flow.value, r.flow.value.done;
               var taken := TakeAll(w, f, at, Advance(world.queue, at, capacity).1.finished).0;
               && |taken.tallies| == |w.events|
               && (SweepHandedOver(world, r) <==>
                     (exists i: nat :: Candidate(w, taken, at, i)) &&
                     Rhythm.Calls(w.plan.trigger, |Rhythm.PicksOut(w, mine.first, done, at, _ => true)|,
                                  |Rhythm.PicksOut(w, mine.first, done, at, Worth(world.memory))|, |Rhythm.Unswept(w, taken, at, |w.events|)|,
                                  |Rhythm.Since(taken.completions, at - DRAIN_WINDOW)|, at, Rhythm.Waited(f, at)))
  {
    hide Valid, Admission.StreamsInOrder, Advance, QueueRuns.AllFair, Booked, FromSolver, InTouch, Sourced, Accounted, Holds, Indexed, Laid,
         AdvanceFlow, Submit, Recorded, Advanced, AllFinishable, TakeAll, Swept, Candidate, SweepHandedOver, Worth, Rhythm.PicksOut, Rhythm.Calls,
         Rhythm.Unswept, Rhythm.Since, Rhythm.Waited, Rhythm.Timely;
    RunningHas(mine, world);
    WorkRuns(mine, world, at, capacity);
    FlowGoesOn(mine, world, at, capacity);
    FinishedCanBeTold(mine, world, at, capacity);
    QueueOps.AdvanceKeeps(world.queue, at, capacity);
    ServedIsSourced(mine, world, at, capacity);
    var (q, progress) := Advance(world.queue, at, capacity);
    HandedIsThere(q);
    var (flow, step) := AdvanceFlow(mine.flow.value, world.flow.value, at, progress.finished, ValuedBy(world.memory));
    var r := Worked(mine, world, at, capacity).value;
    RunningHas(mine, r);
    HandedIsThere(r.queue);
    var told := world.(queue := Submit(q, step.value.submit).0, flow := Some(flow), reported := world.reported + progress.finished,
                       breaches := world.breaches + progress.breached);
    assert Worked(mine, world, at, capacity) == Recorded(mine, told, at, step.value.located, step.value.picks);
    RecordedIsRecord(mine, told, at, step.value.located, step.value.picks);
    SweepIsHandedOver(mine, world, q, flow, at, step.value, progress.finished, r);
    Rhythm.SweepsWhenCalled(mine.flow.value, mine.first, world.flow.value, at, progress.finished, ValuedBy(world.memory));
    SameWorth(mine.flow.value, mine.first, flow.done, at, world.memory);
  }

  /** Completions are in time order when a run begins and after every cycle. */
  lemma CycleStaysTimely(mine: Mine, world: World, at: Time, capacity: int, settings: Intent, later: Time)
    requires Running(mine, world) && mine.flow.Some? && at > world.queue.now && Admission.StreamsInOrder(world.queue, at) && later >= at
    requires world.flow.Some? && Rhythm.Timely(world.flow.value, at)
    ensures Worked(mine, world, at, capacity).Some? && Worked(mine, world, at, capacity).value.flow.Some?
    ensures Rhythm.Timely(Worked(mine, world, at, capacity).value.flow.value, later)
    ensures Beginning(mine, settings).flow.Some? && Rhythm.Timely(Beginning(mine, settings).flow.value, at)
  {
    hide Valid, Admission.StreamsInOrder, Advance, QueueRuns.AllFair, Booked, FromSolver, InTouch, Sourced, Accounted, Holds, Indexed,
         AdvanceFlow, Submit, Recorded, Advanced, Rhythm.Timely;
    RunningHas(mine, world);
    WorkRuns(mine, world, at, capacity);
    FlowGoesOn(mine, world, at, capacity);
    QueueOps.AdvanceKeeps(world.queue, at, capacity);
    var (q, progress) := Advance(world.queue, at, capacity);
    HandedIsThere(q);
    var (flow, step) := AdvanceFlow(mine.flow.value, world.flow.value, at, progress.finished, ValuedBy(world.memory));
    var told := world.(queue := Submit(q, step.value.submit).0, flow := Some(flow), reported := world.reported + progress.finished,
                       breaches := world.breaches + progress.breached);
    assert Worked(mine, world, at, capacity) == Recorded(mine, told, at, step.value.located, step.value.picks);
    RecordedIsRecord(mine, told, at, step.value.located, step.value.picks);
    Rhythm.StaysTimely(mine.flow.value, mine.first, world.flow.value, at, progress.finished, ValuedBy(world.memory), later);
  }

  /** The catalogue has no say in the rest. */
  lemma RecordedIsRecord(mine: Mine, world: World, at: Time, located: seq<nat>, picks: seq<JobId>)
    requires mine.WellFormed() && Sized(mine.workload, world.book) && Recorded(mine, world, at, located, picks).Some?
    ensures Recorded(mine, world, at, located, picks).value == world.(book := Recorded(mine, world, at, located, picks).value.book)
  {
    hide Locate, ObserveAll;
    LocateKeepsSize(mine.workload, world.book, at, located);
  }

  lemma SweepIsHandedOver(mine: Mine, world: World, q: Queue, flow: Flow, at: Time, step: FlowStep, finished: seq<JobId>, r: World)
    requires mine.WellFormed() && mine.flow.Some? && Flowing(mine, world) && Valid(q) && Sourced(mine, world.(queue := q)) && q.now == at
    requires Advanced(mine.flow.value, mine.first, world.flow.value, at, finished, flow, step)
    requires r.queue == Submit(q, step.submit).0
    ensures r.queue.nextPending <= |r.queue.pending|
    ensures SweepHandedOver(world, r) <==> Swept(step)
  {
    hide Sound, Awaited, Holds, Indexed, Laid, Submit;
    var next := world.flow.value.next;
    SubmittedIsFresh(mine, world, q, at, step.submit);
    SubmitKeeps(q, step.submit);
    var onTime := AllOnTime(step.submit, at);
    assert forall k :: 0 <= k < |onTime| ==> onTime[k].id == next + k && onTime[k].stage == step.submit[k].stage;
    forall y | y in QueueState.Handed(q) ensures y.id < next {
      OwnIsPast(mine, world, y.id);
    }
    if Swept(step) {
      var k :| 0 <= k < |step.submit| && step.submit[k].stage == StageAssociate;
      assert onTime[k] in onTime;
    }
  }

  /** Worth waiting for is what the planner says is. */
  lemma SameWorth(w: Workflow.Setup, first: JobId, done: set<JobId>, at: Time, m: Memory)
    ensures Rhythm.PicksOut(w, first, done, at, Worth(m)) == Rhythm.PicksOut(w, first, done, at, ValuedBy(m))
  {
    forall e: nat ensures Worth(m)(e) <==> ValuedBy(m)(e) {}
    forall id ensures id in Rhythm.PicksOut(w, first, done, at, Worth(m)) <==> id in Rhythm.PicksOut(w, first, done, at, ValuedBy(m)) {}
  }

  // ---------- The end of a run ----------

  /** A moment at which a cycle after one, and by another, ends. */
  ghost predicate EndsAt(mine: Mine, now: Time, after: nat, until: nat) { exists n: nat :: after < n <= until && now == n * mine.interval }

  /** A run is over at the first cycle past its duration that leaves nothing to come, waiting or
      running, and at no other; until then it goes on, and each cycle is an interval. */
  lemma {:induction false} RunEnds(mine: Mine, world: World, cycle: nat, inputs: seq<CycleInput>)
    requires Running(mine, world) && world.queue.now == cycle * mine.interval
    ensures var r := RunFrom(mine, world, cycle, inputs);
            && !r.Refused?
            && (r.Ended? ==> r.world.queue.now > mine.duration && Drained(r.world.queue) &&
                             EndsAt(mine, r.world.queue.now, cycle, cycle + |inputs|))
            && (r.Ongoing? ==> r.world.queue.now == (cycle + |inputs|) * mine.interval &&
                               (inputs != [] && r.world.queue.now > mine.duration ==> !Drained(r.world.queue)))
    decreases |inputs|
  {
    hide Running, Worked, Intended, Drained, EndsAt, Sized, Valid, Sourced, Admission.StreamsInOrder, Onward;
    if inputs != [] {
      var at := (cycle + 1) * mine.interval;
      RunningHas(mine, world);
      Later(mine, cycle);
      WorkRuns(mine, world, at, inputs[0].capacity);
      var worked := Worked(mine, world, at, inputs[0].capacity).value;
      RunningHas(mine, worked);
      EndsNow(mine, cycle, cycle + |inputs|);
      if !(at > mine.duration && Drained(worked.queue)) {
        IntentRuns(mine, worked, at, inputs[0].settings);
        var next := Intended(mine, worked, at, inputs[0].settings).0;
        IntentLeavesWork(mine, worked, at, inputs[0].settings);
        RunEnds(mine, next, cycle + 1, inputs[1..]);
        EndsLater(mine, RunFrom(mine, next, cycle + 1, inputs[1..]), cycle, cycle + |inputs|);
      }
    }
  }

  lemma EndsLater(mine: Mine, r: Ending, after: nat, until: nat)
    ensures r.Ended? && EndsAt(mine, r.world.queue.now, after + 1, until) ==> EndsAt(mine, r.world.queue.now, after, until)
  {
  }

  lemma EndsNow(mine: Mine, cycle: nat, until: nat)
    requires cycle < until
    ensures EndsAt(mine, (cycle + 1) * mine.interval, cycle, until)
  {
  }

  /** Intent does no work and leaves none undone. */
  lemma IntentLeavesWork(mine: Mine, world: World, at: Time, settings: Intent)
    requires Running(mine, world) && at <= world.queue.now
    ensures mine.WellFormed() && Sized(mine.workload, world.book) && world.memory.For(mine.site)
    ensures Drained(Intended(mine, world, at, settings).0.queue) <==> Drained(world.queue)
  {
    hide Running, Cycle, ApplyAll, Drained;
    RunningHas(mine, world);
    KnownFits(mine, world.book);
    var (_, plan) := Cycle(mine.site, world.memory.(settings := settings), Knows(mine.workload, world.book), at);
    BatchLeavesWork(world.queue, at, plan.updates);
  }

  lemma BatchLeavesWork(q: Queue, at: Time, updates: seq<Update>)
    requires Valid(q) && at <= q.now
    ensures Drained(ApplyAll(q, at, updates).0) <==> Drained(q)
  {
    hide Sound, Intervals.Unfinished, ApplyAll, Awaited;
    ApplyAllKeeps(q, at, updates);
    var r := ApplyAll(q, at, updates).0;
    Intervals.DepthIsUnfinished(q);
    Intervals.DepthIsUnfinished(r);
    forall id | id in q.jobs ensures r.jobs[id].remaining == q.jobs[id].remaining {
      Updates.BatchOutcome(q, at, updates, id);
    }
    SameUnfinished(q.jobs, r.jobs);
    assert Depth(q) == Depth(r);
    assert Turns(q) == [] <==> Depth(q) == 0;
    assert Turns(r) == [] <==> Depth(r) == 0;
  }

  lemma SameUnfinished(a: Jobs, b: Jobs)
    requires a.Keys == b.Keys && forall id :: id in a ==> b[id].remaining == a[id].remaining
    ensures Intervals.Unfinished(a) == Intervals.Unfinished(b)
  {
    forall id ensures id in Intervals.Unfinished(a) <==> id in Intervals.Unfinished(b) {
      assert id in a.Keys <==> id in b.Keys;
    }
  }
}
