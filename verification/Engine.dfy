/** A run, cycle by cycle, as a machine: the queue, the mine's workflow, its catalogue and its
    intent, with an adversary choosing the capacity and the settings of every cycle.
    internal/run/engine.go:200-382 and 591-647. */
module Engine {
  import opened Basics
  import opened Work
  import opened Settings
  import opened Orchestrator
  import opened Reference
  import opened QueueState
  import opened Admission
  import opened QueueOps
  import opened QueueLaws
  import opened QueueRuns
  import opened Reports
  import opened Agreement
  import opened CatalogueOps
  import opened Workflow
  import opened WorkflowLaws
  import Planner

  // ---------- The mine a run is of ----------

  /** What a run is given: where the planner may look, the workload generated, the workflow if
      the mine has one of its own, and the first identity that may issue. */
  datatype Mine = Mine(site: Site, workload: Workload, flow: Option<Setup>, first: JobId, deadlines: Deadlines, interval: Time, duration: Time) {
    ghost predicate WellFormed()
    {
      && site.WellFormed() && workload.WellFormed() && interval > 0
      && workload.events == site.events && |workload.jobs| == |site.priorities|
      && (forall k :: 0 <= k < |workload.jobs| ==> Generated(k))
      && (flow.Some? ==> Fits(flow.value))
    }

    /** A generated job: its identity is its place, and it arrives when its event happens. */
    ghost predicate Generated(k: nat)
      requires k < |workload.jobs| == |site.priorities| && workload.events == site.events
    {
      var job := workload.jobs[k];
      && job.id == k && job.priority == site.priorities[k] && job.seconds > 0
      && 0 <= job.event < |site.events| && job.submittedAt == site.events[job.event].origin
    }

    /** The workflow of this workload: its own events, identities past every generated job,
        work that takes some time, and stages at levels no pick is submitted at. */
    ghost predicate Fits(w: Setup)
      requires |workload.jobs| == |site.priorities|
    {
      && |w.events| == |site.events|
      && (forall i :: 0 <= i < |w.events| ==>
            w.events[i] == Happening(site.events[i].origin, site.events[i].first, site.events[i].picks))
      && Laid(w.events, first) && |workload.jobs| <= first
      && w.plan.associate.seconds > 0 && w.plan.associate.perLocate >= 0
      && (forall id :: w.drawn(id) > 0)
      && (forall k :: 0 <= k < |site.priorities| ==>
            site.priorities[k] != w.plan.associate.priority && site.priorities[k] != w.plan.locate.priority)
    }
  }

  // ---------- A run in flight ----------

  /** Everything a run holds, and what it has been told so far: the jobs reported finished, and
      the breaches. */
  datatype World = World(queue: Queue, flow: Option<Flow>, book: Book, memory: Memory, reported: seq<JobId>, breaches: nat)

  /** The work of an interval: service, the workflow, and the catalogue. None if anything is
      refused. */
  ghost function Worked(mine: Mine, world: World, at: Time, capacity: int): Option<World>
    requires mine.WellFormed() && Valid(world.queue) && (at > world.queue.now ==> StreamsInOrder(world.queue, at))
    requires Sized(mine.workload, world.book)
    requires mine.flow.Some? ==> world.flow.Some? && Indexed(mine.flow.value, world.flow.value)
  {
    var (q, progress) := Advance(world.queue, at, capacity);
    AdvanceKeeps(world.queue, at, capacity);
    var told := world.(queue := q, reported := world.reported + progress.finished, breaches := world.breaches + progress.breached);
    if mine.flow.None? then Recorded(mine, told, at, [], progress.finished)
    else
      var (flow, step) := AdvanceFlow(mine.flow.value, world.flow.value, at, progress.finished, ValuedBy(world.memory));
      if step.Err? then None
      else
        var (joined, ok) := Submit(q, step.value.submit);
        if !ok then None
        else Recorded(mine, told.(queue := joined, flow := Some(flow)), at, step.value.located, step.value.picks)
  }

  /** What the mine's catalogue makes of the work finished. */
  ghost function Recorded(mine: Mine, world: World, at: Time, located: seq<nat>, picks: seq<JobId>): Option<World>
    requires mine.WellFormed() && Sized(mine.workload, world.book)
  {
    var (solved, ok) := Locate(mine.workload, world.book, at, located);
    LocateKeepsSize(mine.workload, world.book, at, located);
    if !ok then None
    else
      var (book, touched) := ObserveAll(mine.workload, solved, at, picks);
      if touched.Err? then None else Some(world.(book := book))
  }

  /** Intent brought up to date, and acted on: what changed in the queue, and how many updates
      there were. */
  ghost function Intended(mine: Mine, world: World, at: Time, settings: Intent): (World, Applied, nat)
    requires mine.WellFormed() && Sized(mine.workload, world.book) && world.memory.For(mine.site)
  {
    KnownFits(mine, world.book);
    var (memory, plan) := Cycle(mine.site, world.memory.(settings := settings), Knows(mine.workload, world.book), at);
    var (queue, applied) := ApplyAll(world.queue, at, plan.updates);
    (world.(queue := queue, memory := memory), applied, |plan.updates|)
  }

  lemma KnownFits(mine: Mine, book: Book)
    requires mine.WellFormed() && Sized(mine.workload, book)
    ensures Knows(mine.workload, book).For(mine.site)
  {
  }

  lemma {:induction false} LocateKeepsSize(w: Workload, b: Book, at: Time, events: seq<int>)
    requires w.WellFormed() && Sized(w, b)
    ensures Sized(w, Locate(w, b, at, events).0)
    decreases |events|
  {
    if events != [] && 0 <= events[0] < |w.events| {
      SolveKeepsSize(w, b, at, events[0]);
      LocateKeepsSize(w, Solve(w, b, at, events[0]), at, events[1..]);
    }
  }

  // ---------- What holds between cycles ----------

  /** A job of the workflow's own. */
  predicate Own(world: World, id: JobId) { world.flow.Some? && id in world.flow.value.issued }

  /** Every job in the queue is a generated pick or the workflow's own. */
  ghost predicate JobsSourced(mine: Mine, world: World)
    requires mine.WellFormed()
  {
    forall id :: id in world.queue.jobs ==>
      (0 <= id < |mine.workload.jobs| && world.queue.jobs[id].submitted == mine.site.priorities[id]) || Own(world, id)
  }

  /** Work to come from the log is generated, and at a pick's level. */
  ghost predicate LogSourced(mine: Mine, log: seq<Job>)
    requires mine.WellFormed()
  {
    forall i :: 0 <= i < |log| ==> 0 <= log[i].id < |mine.workload.jobs| && log[i] == mine.workload.jobs[log[i].id]
  }

  /** Work to come from the workflow is its own, and at a stage's level. */
  ghost predicate HandedSourced(mine: Mine, world: World, handed: seq<Job>)
  {
    forall i :: 0 <= i < |handed| ==> Own(world, handed[i].id) && StageLevel(mine, handed[i].priority)
  }

  /** Every generated job is in the queue or still to come. */
  ghost predicate Present(mine: Mine, q: Queue)
    requires q.next <= |q.arrivals|
  {
    forall k :: 0 <= k < |mine.workload.jobs| ==> k in q.jobs || ToCome(q, k)
  }

  ghost predicate Sourced(mine: Mine, world: World)
    requires mine.WellFormed() && world.queue.next <= |world.queue.arrivals| && world.queue.nextPending <= |world.queue.pending|
  {
    && JobsSourced(mine, world) && LogSourced(mine, Log(world.queue))
    && HandedSourced(mine, world, Handed(world.queue)) && Present(mine, world.queue) && OwnPresent(world)
  }

  /** So is every job the workflow submitted. */
  ghost predicate OwnPresent(world: World)
    requires world.queue.nextPending <= |world.queue.pending|
  {
    forall id :: Own(world, id) ==> id in world.queue.jobs || HandedOver(world.queue, id)
  }

  predicate HandedOver(q: Queue, id: JobId)
    requires q.nextPending <= |q.pending|
  {
    exists i :: 0 <= i < |Handed(q)| && Handed(q)[i].id == id
  }

  predicate StageLevel(mine: Mine, p: Priority)
  {
    mine.flow.Some? && (p == mine.flow.value.plan.associate.priority || p == mine.flow.value.plan.locate.priority)
  }

  predicate ToCome(q: Queue, id: JobId)
    requires q.next <= |q.arrivals|
  {
    exists i :: 0 <= i < |Log(q)| && Log(q)[i].id == id
  }

  /** The workflow holds together, if there is one. */
  ghost predicate Flowing(mine: Mine, world: World)
    requires mine.WellFormed()
  {
    && (mine.flow.Some? <==> world.flow.Some?)
    && (mine.flow.Some? ==> Holds(mine.flow.value, mine.first, world.flow.value, []) && Indexed(mine.flow.value, world.flow.value))
  }

  /** The queue, the workflow, the catalogue and the run itself agree on what is finished. */
  ghost predicate Accounted(mine: Mine, world: World)
    requires mine.WellFormed() && Sized(mine.workload, world.book)
  {
    && (forall k :: 0 <= k < |mine.workload.jobs| ==> (world.book.done[k] <==> CompletedIn(world.queue.jobs, k)))
    && (world.flow.Some? ==> forall id :: id in world.flow.value.done <==> CompletedIn(world.queue.jobs, id))
    && (forall id :: id in world.reported <==> CompletedIn(world.queue.jobs, id))
    && Distinct(world.reported)
    && world.breaches == world.queue.breached
  }

  /** The planner's record agrees with the queue; events it has not opened it has asked nothing
      of; the picks of those it has opened are in the queue; and those it has let go are done. */
  ghost predicate InTouch(mine: Mine, world: World)
    requires mine.WellFormed() && Sized(mine.workload, world.book)
  {
    var m := world.memory;
    && m.For(mine.site)
    && Honest(mine.site, m.requested) && Agree(m.requested, world.queue.jobs)
    && Planner.Untouched(mine.site, m.requested, m.next)
    && (forall i, k :: 0 <= i < m.next && PickedBy(mine, i, k) ==> k in world.queue.jobs)
    && (forall i: nat, k :: i < m.next && i !in m.open && PickedBy(mine, i, k) ==> world.book.done[k])
  }

  predicate PickedBy(mine: Mine, i: nat, k: JobId)
  {
    && i < |mine.site.events| && 0 <= k < |mine.workload.jobs|
    && mine.site.events[i].first <= k < mine.site.events[i].first + mine.site.events[i].picks
  }

  ghost predicate Running(mine: Mine, world: World)
  {
    && mine.WellFormed()
    && Valid(world.queue) && world.queue.deadlines == mine.deadlines && AllFair(world.queue)
    && Booked(mine.workload, world.book) && FromSolver(mine.workload, world.book)
    && Sourced(mine, world) && Flowing(mine, world) && Accounted(mine, world) && InTouch(mine, world)
  }
}
