/** Whole runs, whatever capacity the autoscaler gives and whatever intent is set to in each
    cycle: internal/run/engine.go:256-382. */
module EngineRuns {
  import opened Basics
  import opened Work
  import opened Sorting
  import opened Settings
  import opened Orchestrator
  import opened Reference
  import opened QueueState
  import opened Admission
  import Serving
  import opened QueueOps
  import opened QueueLaws
  import opened QueueRuns
  import opened Reports
  import opened Agreement
  import opened CatalogueOps
  import opened Workflow
  import opened WorkflowLaws
  import WorkflowRuns
  import Planner
  import opened Engine
  import opened EngineLaws

  // ---------- Beginning ----------

  function NewQueue(jobs: seq<Job>, deadlines: Deadlines): Queue
  {
    Queue(deadlines, StableSort(jobs, Earlier), 0, [], 0, map[], [], 0, map[], 0, 0, 0, 0, 0, 0, 0)
  }

  function Beginning(mine: Mine, settings: Intent): World
  {
    World(NewQueue(mine.workload.jobs, mine.deadlines),
          if mine.flow.Some? then Some(Started(mine.flow.value.events, mine.first)) else None,
          Blank(mine.workload), Fresh(mine.site, settings), [], 0)
  }

  lemma NewQueueIsValid(jobs: seq<Job>, deadlines: Deadlines)
    requires forall i, j :: 0 <= i < j < |jobs| ==> jobs[i].id != jobs[j].id
    requires TiesRise(jobs)
    requires forall i :: 0 <= i < |jobs| ==> jobs[i].seconds > 0
    ensures Valid(NewQueue(jobs, deadlines)) && AllFair(NewQueue(jobs, deadlines)) && AllRelaxed(NewQueue(jobs, deadlines))
    ensures Log(NewQueue(jobs, deadlines)) == StableSort(jobs, Earlier)
    ensures forall y :: y in Log(NewQueue(jobs, deadlines)) <==> y in jobs
  {
    hide Sound, JobBefore, StableSort;
    SortRises(jobs);
    var q := NewQueue(jobs, deadlines);
    assert Log(q) == q.arrivals && Handed(q) == [];
    EmptyIsSound(q);
    forall i | 0 <= i < |q.arrivals| ensures q.arrivals[i].seconds > 0 {
      var y := q.arrivals[i];
      assert y in q.arrivals;
      var k :| 0 <= k < |jobs| && jobs[k] == y;
    }
  }

  /** The streams of a queue that does nothing wrong can be out of order of each other: a job handed
      over for one moment, and one of the log submitted at the next, both due at one level. */
  lemma StreamsMeet(deadlines: Deadlines) returns (q: Queue, to: Time)
    ensures var early, late := Job(1, 1, 5, 1, 0, StageLocate), Job(0, 2, 5, 1, 0, StagePick);
            (q, true) == Submit(NewQueue([late], deadlines), [early])
    ensures Valid(q) && to > q.now && !StreamsInOrder(q, to)
    ensures !Placed(Admitted(q, to).jobs, Admitted(q, to).levels)
  {
    hide StableSort, Valid, Placed, AdmitAll;
    var early, late := Job(1, 1, 5, 1, 0, StageLocate), Job(0, 2, 5, 1, 0, StagePick);
    NewQueueIsValid([late], deadlines);
    var begun := NewQueue([late], deadlines);
    AloneInLog(late, deadlines);
    SubmitKeeps(begun, [early]);
    q, to := Submit(begun, [early]).0, 2;
    MeetAtOnce(q, late, early);
    OrderKeptExactly(q, to);
  }

  lemma AloneInLog(late: Job, deadlines: Deadlines)
    ensures Log(NewQueue([late], deadlines)) == [late] && Handed(NewQueue([late], deadlines)) == []
  {
    assert [late][1..] == [];
    assert StableSort([], Earlier) == [];
  }

  lemma MeetAtOnce(q: Queue, late: Job, early: Job)
    requires q.next <= |q.arrivals| && q.nextPending <= |q.pending|
    requires Log(q) == [late] && early in Handed(q) && |Handed(q)| == 1
    requires late.submittedAt == 2 && early.submittedAt == 1 && late.priority == early.priority
    ensures !StreamsInOrder(q, 2)
  {
    assert DueCount(Log(q), 2) == 1 && DueCount(Handed(q), 2) == 1;
    assert Handed(q)[0] == early;
  }

  lemma EmptyIsSound(q: Queue)
    requires q.jobs == map[] && q.levels == map[] && q.running == []
    requires q.submitted == q.completed == q.exemptWaiting == q.breached == q.breachedAsSubmitted == q.reprioritised == 0
    ensures Sound(q)
  {
    assert Those(q.jobs, IsCompleted) == {} && Those(q.jobs, IsExempt) == {} && Those(q.jobs, IsBreached) == {};
    assert Those(q.jobs, IsBreachedAsSubmitted) == {} && Those(q.jobs, IsReprioritised) == {};
  }

  lemma BeginningRuns(mine: Mine, settings: Intent)
    requires mine.WellFormed()
    ensures Running(mine, Beginning(mine, settings)) && AllRelaxed(Beginning(mine, settings).queue)
  {
    hide Valid, AllFair, AllRelaxed, RecordBooked, Sourced, Holds, Indexed, TiesRise;
    var world := Beginning(mine, settings);
    GeneratedRise(mine);
    NewQueueIsValid(mine.workload.jobs, mine.deadlines);
    BlankIsKept(mine.workload);
    if mine.flow.Some? {
      StartHolds(mine.flow.value, mine.first);
      WorkflowRuns.KnownSize(mine.flow.value, mine.first, world.flow.value);
    }
    BeginningIsSourced(mine, settings);
    assert Planner.Untouched(mine.site, world.memory.requested, 0);
  }

  lemma GeneratedRise(mine: Mine)
    requires mine.WellFormed()
    ensures var jobs := mine.workload.jobs;
            && (forall i, j :: 0 <= i < j < |jobs| ==> jobs[i].id != jobs[j].id)
            && TiesRise(jobs) && forall i :: 0 <= i < |jobs| ==> jobs[i].seconds > 0
  {
    var jobs := mine.workload.jobs;
    forall i | 0 <= i < |jobs| ensures jobs[i].id == i && jobs[i].seconds > 0 {
      assert mine.Generated(i);
    }
  }

  lemma BeginningIsSourced(mine: Mine, settings: Intent)
    requires mine.WellFormed()
    ensures Sourced(mine, Beginning(mine, settings))
  {
    var jobs, world := mine.workload.jobs, Beginning(mine, settings);
    var log := Log(world.queue);
    assert log == StableSort(jobs, Earlier);
    SortKeeps(jobs, Earlier);
    forall i | 0 <= i < |log| ensures 0 <= log[i].id < |jobs| && log[i] == jobs[log[i].id] {
      var y := log[i];
      assert y in log;
      var k :| 0 <= k < |jobs| && jobs[k] == y;
      assert mine.Generated(k);
    }
    forall k | 0 <= k < |jobs| ensures ToCome(world.queue, k) {
      var y := jobs[k];
      assert y in log && mine.Generated(k);
      var i :| 0 <= i < |log| && log[i] == y;
    }
  }

  // ---------- A run ----------

  /** What a cycle is given: the capacity the autoscaler made ready, and intent's settings. */
  datatype CycleInput = CycleInput(capacity: int, settings: Intent)

  datatype Ending = Ongoing(world: World) | Ended(world: World) | Refused

  /** Cycles in turn: the work of the interval, then, unless the run is over, intent. */
  ghost function RunFrom(mine: Mine, world: World, cycle: nat, inputs: seq<CycleInput>): Ending
    requires Running(mine, world) && world.queue.now == cycle * mine.interval
    decreases |inputs|
  {
    if inputs == [] then Ongoing(world)
    else
      var at := (cycle + 1) * mine.interval;
      Later(mine, cycle);
      WorkRuns(mine, world, at, inputs[0].capacity);
      var worked := Worked(mine, world, at, inputs[0].capacity);
      if worked.None? then Refused
      else if at > mine.duration && Drained(worked.value.queue) then Ended(worked.value)
      else
        IntentRuns(mine, worked.value, at, inputs[0].settings);
        RunFrom(mine, Intended(mine, worked.value, at, inputs[0].settings).0, cycle + 1, inputs[1..])
  }

  lemma Later(mine: Mine, cycle: nat)
    requires mine.interval > 0
    ensures (cycle + 1) * mine.interval == cycle * mine.interval + mine.interval
    ensures (cycle + 1) * mine.interval > cycle * mine.interval
  {
  }

  /** Intent that stays off or in decay throughout. */
  ghost predicate NeverPromotes(inputs: seq<CycleInput>) { forall k :: 0 <= k < |inputs| ==> !inputs[k].settings.mode.Promotes() }

  /** Over a whole run nothing is ever refused: not a completion by the workflow, not its
      submissions by the queue, not a locate or a pick by the catalogue. And what holds at the
      beginning holds throughout. */
  lemma {:induction false} NothingIsRefused(mine: Mine, world: World, cycle: nat, inputs: seq<CycleInput>)
    requires Running(mine, world) && world.queue.now == cycle * mine.interval
    ensures var r := RunFrom(mine, world, cycle, inputs);
            && !r.Refused? && Running(mine, r.world)
            && (r.Ended? ==> Drained(r.world.queue))
            && (LowerIsLonger(mine.deadlines) && AllRelaxed(world.queue) && NeverPromotes(inputs) ==> AllRelaxed(r.world.queue))
    decreases |inputs|
  {
    hide Running, Worked, Intended, AllRelaxed, LowerIsLonger, Drained;
    if inputs != [] {
      var at := (cycle + 1) * mine.interval;
      RunningHas(mine, world);
      Later(mine, cycle);
      WorkRuns(mine, world, at, inputs[0].capacity);
      var worked := Worked(mine, world, at, inputs[0].capacity).value;
      RunningHas(mine, worked);
      WorkOnlyRelaxes(mine, world, at, inputs[0].capacity);
      if !(at > mine.duration && Drained(worked.queue)) {
        IntentRuns(mine, worked, at, inputs[0].settings);
        if !inputs[0].settings.mode.Promotes() && AllRelaxed(worked.queue) {
          IntentOnlyRelaxes(mine, worked, at, inputs[0].settings);
        }
        assert forall k :: 0 <= k < |inputs[1..]| ==> inputs[1..][k] == inputs[k + 1];
        NothingIsRefused(mine, Intended(mine, worked, at, inputs[0].settings).0, cycle + 1, inputs[1..]);
      }
    }
  }

  /** Over a whole run the planner only ever learns: what it knew finished stays finished, and a
      location once made stands. It is what a judgement skipped relies on. */
  lemma {:induction false} KnowledgeOnlyGrows(mine: Mine, world: World, cycle: nat, inputs: seq<CycleInput>)
    requires Running(mine, world) && world.queue.now == cycle * mine.interval
    ensures Sized(mine.workload, world.book)
    ensures var r := RunFrom(mine, world, cycle, inputs);
            && !r.Refused? && Sized(mine.workload, r.world.book)
            && Knows(mine.workload, r.world.book).Follows(Knows(mine.workload, world.book))
    decreases |inputs|
  {
    hide Running, Worked, Intended, Drained, Onward, Knows, Sized;
    BookHas(mine, world);
    if inputs != [] {
      var at := (cycle + 1) * mine.interval;
      RunningHas(mine, world);
      Later(mine, cycle);
      WorkRuns(mine, world, at, inputs[0].capacity);
      var worked := Worked(mine, world, at, inputs[0].capacity).value;
      BookHas(mine, worked);
      OnwardFollows(mine.workload, world.book, worked.book);
      if !(at > mine.duration && Drained(worked.queue)) {
        RunningHas(mine, worked);
        IntentRuns(mine, worked, at, inputs[0].settings);
        var next := Intended(mine, worked, at, inputs[0].settings).0;
        IntentKeepsBook(mine, worked, at, inputs[0].settings);
        KnowledgeOnlyGrows(mine, next, cycle + 1, inputs[1..]);
        var r := RunFrom(mine, next, cycle + 1, inputs[1..]);
        FollowsOn(Knows(mine.workload, world.book), Knows(mine.workload, worked.book), Knows(mine.workload, r.world.book));
      }
    } else {
      FollowsItself(Knows(mine.workload, world.book));
    }
  }

  lemma BookHas(mine: Mine, world: World)
    requires Running(mine, world)
    ensures Sized(mine.workload, world.book)
  {
    hide Valid, AllFair, RecordBooked, Sourced, Flowing, Accounted, InTouch;
  }

  lemma FollowsOn(a: Catalogue, b: Catalogue, c: Catalogue)
    requires b.Follows(a) && c.Follows(b)
    ensures c.Follows(a)
  {
  }

  lemma FollowsItself(a: Catalogue)
    ensures a.Follows(a)
  {
  }

  lemma IntentKeepsBook(mine: Mine, world: World, at: Time, settings: Intent)
    requires mine.WellFormed() && Sized(mine.workload, world.book) && world.memory.For(mine.site)
    ensures Intended(mine, world, at, settings).0.book == world.book
  {
    KnownFits(mine, world.book);
    hide Cycle;
  }

  /** An interval's work leaves jobs that were only ever relaxed as they were. */
  lemma WorkOnlyRelaxes(mine: Mine, world: World, at: Time, capacity: int)
    requires Running(mine, world) && at > world.queue.now && StreamsInOrder(world.queue, at)
    ensures Worked(mine, world, at, capacity).Some?
    ensures LowerIsLonger(mine.deadlines) && AllRelaxed(world.queue) ==> AllRelaxed(Worked(mine, world, at, capacity).value.queue)
  {
    hide Valid, AllFair, RecordBooked, FromSolver, Sourced, Flowing, Accounted, InTouch, StreamsInOrder, Worked, AllRelaxed, Advance, Log;
    RunningHas(mine, world);
    if mine.flow.Some? {
      FlowWorkHolds(mine, world, at, capacity);
    } else {
      PlainWorkHolds(mine, world, at, capacity);
    }
    TickIsFair(world.queue, at, capacity);
    var q, r := Advance(world.queue, at, capacity).0, Worked(mine, world, at, capacity).value.queue;
    SameRelaxed(q, r);
  }

  lemma SameRelaxed(a: Queue, b: Queue)
    requires b.jobs == a.jobs && b.now == a.now && b.deadlines == a.deadlines
    ensures AllRelaxed(a) ==> AllRelaxed(b)
  {
    hide Relaxed;
  }

  // ---------- What a run comes to ----------

  /** However a run goes, each job is reported finished at most once, those reported are those
      completed, and the breaches reported add up to the breaches counted. */
  lemma EachJobFinishesOnce(mine: Mine, settings: Intent, inputs: seq<CycleInput>)
    requires mine.WellFormed()
    ensures Running(mine, Beginning(mine, settings)) && Beginning(mine, settings).queue.now == 0
    ensures var r := RunFrom(mine, Beginning(mine, settings), 0, inputs);
            && !r.Refused?
            && Distinct(r.world.reported)
            && (forall id :: id in r.world.reported <==> CompletedIn(r.world.queue.jobs, id))
            && r.world.breaches == r.world.queue.breached
  {
    hide AllFair, RecordBooked, FromSolver, Sourced, Flowing, InTouch, Valid, RunFrom;
    BeginningRuns(mine, settings);
    NothingIsRefused(mine, Beginning(mine, settings), 0, inputs);
  }

  /** A run that ends has finished every job generated and every job its workflow submitted;
      each event has had at most as many sweeps as it has picks past the third, and exactly as
      many locates; and there were at least as many locates as sweeps. */
  lemma EndedRunsAreComplete(mine: Mine, settings: Intent, inputs: seq<CycleInput>)
    requires mine.WellFormed()
    ensures Running(mine, Beginning(mine, settings)) && Beginning(mine, settings).queue.now == 0
    ensures var r := RunFrom(mine, Beginning(mine, settings), 0, inputs);
            r.Ended? ==>
              && |r.world.book.done| == |mine.workload.jobs|
              && (forall k :: 0 <= k < |mine.workload.jobs| ==> r.world.book.done[k])
              && (mine.flow.Some? ==>
                    && r.world.flow.Some?
                    && (forall id :: id in r.world.flow.value.issued ==> id in r.world.reported)
                    && (forall i: nat :: i < |mine.site.events| ==>
                          && |SweepsOf(r.world.flow.value, i)| <= Max(0, mine.site.events[i].picks - 3)
                          && |LocatesOf(r.world.flow.value, i)| == |SweepsOf(r.world.flow.value, i)|)
                    && |AllOf(r.world.flow.value, StageLocate)| >= |AllOf(r.world.flow.value, StageAssociate)|)
  {
    hide Running, RunFrom, SweepsOf, LocatesOf, AllOf, Drained;
    BeginningRuns(mine, settings);
    NothingIsRefused(mine, Beginning(mine, settings), 0, inputs);
    var r := RunFrom(mine, Beginning(mine, settings), 0, inputs);
    if r.Ended? {
      RunningHas(mine, r.world);
      EverythingIsDone(mine, r.world);
      if mine.flow.Some? {
        FlowIsComplete(mine, r.world);
      }
    }
  }

  lemma FlowIsComplete(mine: Mine, world: World)
    requires Running(mine, world) && mine.flow.Some?
    requires forall id :: id in world.flow.value.issued ==> id in world.flow.value.done
    ensures var f := world.flow.value;
            && (forall i: nat :: i < |mine.site.events| ==>
                  |SweepsOf(f, i)| <= Max(0, mine.site.events[i].picks - 3) && |LocatesOf(f, i)| == |SweepsOf(f, i)|)
            && |AllOf(f, StageLocate)| >= |AllOf(f, StageAssociate)|
  {
    hide Valid, AllFair, RecordBooked, FromSolver, Sourced, Accounted, InTouch, SweepsOf, LocatesOf, AllOf, Holds, Indexed, Laid;
    var w, f := mine.flow.value, world.flow.value;
    WorkflowRuns.LocatesFollowSweeps(w, mine.first, f);
    forall i: nat | i < |mine.site.events| ensures |SweepsOf(f, i)| <= Max(0, mine.site.events[i].picks - 3) {
      WorkflowRuns.SweepsAreFew(w, mine.first, f, i);
      assert w.events[i].picks == mine.site.events[i].picks;
    }
  }

  /** Once the queue is drained everything generated and everything submitted is done. */
  lemma EverythingIsDone(mine: Mine, world: World)
    requires Running(mine, world) && Drained(world.queue)
    ensures forall k :: 0 <= k < |mine.workload.jobs| ==> world.book.done[k]
    ensures world.flow.Some? ==> forall id :: id in world.flow.value.issued ==> id in world.flow.value.done && id in world.reported
  {
    hide AllFair, RecordBooked, FromSolver, InTouch, Awaited, Sound;
    var q := world.queue;
    assert Log(q) == [] && Handed(q) == [];
    forall k | 0 <= k < |mine.workload.jobs| ensures world.book.done[k] {
      assert ToCome(q, k) || k in q.jobs;
      DrainedIsCompleted(q, k);
    }
    forall id | Own(world, id) ensures id in world.flow.value.done && id in world.reported {
      assert HandedOver(q, id) || id in q.jobs;
      DrainedIsCompleted(q, id);
    }
    assert world.flow.Some? ==> forall id :: id in world.flow.value.issued ==> Own(world, id);
  }

  lemma DrainedIsCompleted(q: Queue, id: JobId)
    requires Valid(q) && Drained(q)
    ensures id in q.jobs ==> CompletedIn(q.jobs, id)
  {
    if id in q.jobs {
      Serving.TurnsHold(q);
      assert Sane(q.jobs[id], id, id in q.running, q.now);
      var turns := Serving.Turns(q);
      assert id in turns <==> id in q.running || (id in q.jobs && q.jobs[id].waiting);
    }
  }

  /** Decay only relaxes: when deadlines never shorten at lower levels and intent never promotes,
      a run that ends counts no more breaches than the SLA its work was submitted under would;
      and the same, if no priority was ever changed. Either way its cycles reported as many
      breaches as it counts. */
  lemma DecayingRunsBreachNoMore(mine: Mine, settings: Intent, inputs: seq<CycleInput>)
    requires mine.WellFormed()
    ensures Running(mine, Beginning(mine, settings)) && Beginning(mine, settings).queue.now == 0
    ensures var r := RunFrom(mine, Beginning(mine, settings), 0, inputs);
            r.Ended? ==>
              var q := r.world.queue;
              && r.world.breaches == q.breached
              && (LowerIsLonger(mine.deadlines) && NeverPromotes(inputs) ==> q.breached <= q.breachedAsSubmitted)
              && (q.reprioritised == 0 ==> q.breached == q.breachedAsSubmitted)
  {
    BeginningRuns(mine, settings);
    NothingIsRefused(mine, Beginning(mine, settings), 0, inputs);
    var r := RunFrom(mine, Beginning(mine, settings), 0, inputs);
    hide AllFair, AllRelaxed, RecordBooked, FromSolver, InTouch, RunFrom, Sourced, Flowing, Valid, LowerIsLonger, NeverPromotes, Drained;
    if r.Ended? {
      if LowerIsLonger(mine.deadlines) && NeverPromotes(inputs) {
        RelaxedBreachesNoMore(r.world.queue);
      }
      if r.world.queue.reprioritised == 0 {
        FairBreachesAgree(r.world.queue);
      }
    }
  }
}
