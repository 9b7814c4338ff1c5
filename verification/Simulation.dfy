/** A simulated run as it is carried out: internal/run/engine.go:200-382 and 577-647. The
    queue, the workflow, the catalogue, the planner and the intent control are each updated in
    place, cycle by cycle, and the run goes exactly as the machine of the engine's model does. */
module Simulation {
  import opened Basics
  import opened Work
  import opened Sorting
  import opened Settings
  import opened Orchestrator
  import opened Reference
  import opened QueueState
  import opened Admission
  import opened QueueOps
  import opened QueueLaws
  import opened QueueRuns
  import opened CatalogueOps
  import opened Workflow
  import opened WorkflowLaws
  import opened Engine
  import opened EngineLaws
  import opened EngineRuns
  import Control
  import Simulator
  import Pipeline
  import Planner

  // ---------- Reading the settings in force ----------

  /** An operator's changes, as they come. */
  method ActAll(control: Control.Control, acts: seq<Control.Act>)
    modifies control
    ensures control.View() == Control.Acted(old(control.View()), acts)
  {
    var k := 0;
    assert acts[0..] == acts;
    while k < |acts|
      invariant 0 <= k <= |acts|
      invariant Control.Acted(control.View(), acts[k..]) == Control.Acted(old(control.View()), acts)
    {
      assert acts[k..][0] == acts[k] && acts[k..][1..] == acts[k + 1..];
      var ok := control.Patch(acts[k].patch, acts[k].expected, acts[k].source);
      k := k + 1;
    }
  }

  /** The planned changes due by a cycle put in force, whatever an operator does meanwhile. */
  method BringUpToDate(control: Control.Control, schedule: seq<Control.Step>, from: nat, cycle: int, meanwhile: Control.Meanwhile)
    returns (next: nat, ok: bool)
    modifies control
    ensures Control.Due(old(control.View()), schedule, from, cycle, meanwhile) == if ok then Some((control.View(), next)) else None
  {
    next := from;
    while next < |schedule| && schedule[next].cycle <= cycle
      invariant Control.Due(control.View(), schedule, next, cycle, meanwhile) ==
                Control.Due(old(control.View()), schedule, from, cycle, meanwhile)
      decreases |schedule| - next
    {
      var step := schedule[next];
      var source := if step.source == "" then Control.SCHEDULED else step.source;
      ActAll(control, meanwhile.before(next));
      var settings := control.settings.Patched(step.patch);
      ActAll(control, meanwhile.between(next));
      if settings.Err? {
        return next, false;
      }
      var replayed := control.Replay(settings.value, step.version, source);
      if !replayed {
        return next, false;
      }
      next := next + 1;
    }
    return next, true;
  }

  // ---------- What the parts hold, together ----------

  /** The parts of a run, holding between them what the machine holds. */
  ghost predicate Holding(mine: Mine, world: World, simulator: Simulator.Simulator, flow: Option<Pipeline.Pipeline>,
                          catalogue: MineCatalogue, planner: Planner.Planner)
    reads simulator, catalogue, planner, if flow.Some? then {flow.value} else {}
  {
    && simulator.View() == world.queue
    && catalogue.workload == mine.workload && catalogue.View() == world.book
    && planner.site == mine.site && planner.Valid() && planner.Remembered() == world.memory
    && planner.clock <= world.queue.now
    && (mine.flow.Some? <==> flow.Some?) && (mine.flow.Some? <==> world.flow.Some?)
    && (flow.Some? ==> flow.value.setup == mine.flow.value && flow.value.Ordered() && flow.value.View() == world.flow.value)
  }

  /** A solver never puts an event exactly at the first sensor that heard it. */
  ghost predicate SolvesOffSensors(mine: Mine)
  {
    forall i: nat, d :: i < |mine.site.events| && mine.workload.solve(i, d).Some? && |mine.site.events[i].triggers| > 0 ==>
                          mine.workload.solve(i, d).value.at != mine.site.events[i].triggers[0]
  }

  lemma SolvedOffSensors(mine: Mine, world: World)
    requires mine.WellFormed() && Sized(mine.workload, world.book) && FromSolver(mine.workload, world.book) && SolvesOffSensors(mine)
    ensures Knows(mine.workload, world.book).For(mine.site) && Knows(mine.workload, world.book).OffSensors(mine.site)
  {
    var cat := Knows(mine.workload, world.book);
    forall i | 0 <= i < |cat.location| && cat.location[i].Some? && |mine.site.events[i].triggers| > 0
      ensures cat.location[i].value.at != mine.site.events[i].triggers[0]
    {
      var d :| mine.workload.solve(i, d) == world.book.records[i].located;
    }
  }

  lemma BlankIsUnseen(mine: Mine)
    requires mine.WellFormed()
    ensures Knows(mine.workload, Blank(mine.workload)) == Planner.Unseen(mine.site)
  {
  }

  // ---------- One interval ----------

  /** What the catalogue makes of what was located and what picks finished. */
  method RecordInterval(mine: Mine, ghost world: World, catalogue: MineCatalogue, at: Time, located: seq<nat>, picks: seq<JobId>) returns (ok: bool)
    requires mine.WellFormed() && catalogue.workload == mine.workload && catalogue.View() == world.book && Sized(mine.workload, world.book)
    modifies catalogue
    ensures var r := Recorded(mine, world, at, located, picks);
            (ok <==> r.Some?) && (ok ==> catalogue.View() == r.value.book && r.value == world.(book := catalogue.View()))
  {
    hide Locate, ObserveAll;
    LocateKeepsSize(mine.workload, world.book, at, located);
    var solved := catalogue.LocateFinished(at, located);
    if !solved {
      return false;
    }
    var touched := catalogue.ObserveFinished(at, picks);
    return touched.Ok?;
  }

  /** The work of an interval: service, the workflow, and the catalogue. */
  method WorkInterval(mine: Mine, ghost world: World, simulator: Simulator.Simulator, flow: Option<Pipeline.Pipeline>,
                      catalogue: MineCatalogue, valued: nat -> bool, at: Time, capacity: int)
    returns (ok: bool, progress: Progress)
    requires mine.WellFormed() && Valid(world.queue) && StreamsInOrder(world.queue, at)
    requires Sized(mine.workload, world.book) && (mine.flow.Some? ==> world.flow.Some? && Indexed(mine.flow.value, world.flow.value))
    requires Worked(mine, world, at, capacity).Some? && valued == ValuedBy(world.memory)
    requires simulator.View() == world.queue && catalogue.workload == mine.workload && catalogue.View() == world.book
    requires mine.flow.Some? <==> flow.Some?
    requires flow.Some? ==> flow.value.setup == mine.flow.value && flow.value.Ordered() && flow.value.View() == world.flow.value
    modifies simulator, catalogue, if flow.Some? then {flow.value} else {}
    ensures ok
    ensures var r := Worked(mine, world, at, capacity).value;
            && simulator.View() == r.queue && catalogue.View() == r.book
            && (flow.Some? ==> r.flow.Some? && flow.value.View() == r.flow.value)
            && r.reported == world.reported + progress.finished && r.breaches == world.breaches + progress.breached
  {
    hide Valid, StreamsInOrder, QueueOps.Advance, QueueOps.Submit, AdvanceFlow, Indexed, Recorded, Sized;
    AdvanceKeeps(world.queue, at, capacity);
    progress := simulator.Advance(at, capacity);
    PendingInRange(simulator.View());
    ghost var told := world.(queue := simulator.View(), reported := world.reported + progress.finished,
                             breaches := world.breaches + progress.breached);
    var finished := progress.finished;
    var located: seq<nat> := [];
    if flow.Some? {
      var step := flow.value.Advance(at, finished, valued);
      if step.Err? {
        return false, progress;
      }
      var submitted := simulator.Submit(step.value.submit);
      if !submitted {
        return false, progress;
      }
      finished, located := step.value.picks, step.value.located;
      told := told.(queue := simulator.View(), flow := Some(flow.value.View()));
    }
    ok := RecordInterval(mine, told, catalogue, at, located, finished);
  }

  /** The planner's word on which events are worth waiting for, as the workflow is handed it. */
  method WorthWaitingFor(planner: Planner.Planner) returns (valued: nat -> bool)
    ensures valued == ValuedBy(planner.Remembered())
    ensures forall i: nat :: valued(i) <==> planner.Valued(i)
  {
    valued := ValuedBy(planner.Remembered());
  }

  lemma PendingInRange(q: Queue)
    requires Valid(q)
    ensures q.nextPending <= |q.pending|
  {
  }

  /** Intent acted on: the planner plans, and the queue is reprioritised. */
  method IntendInterval(mine: Mine, ghost world: World, settings: Intent, simulator: Simulator.Simulator,
                        catalogue: MineCatalogue, planner: Planner.Planner, at: Time)
    returns (applied: Applied, updates: nat)
    requires mine.WellFormed() && Valid(world.queue) && world.queue.now == at
    requires Sized(mine.workload, world.book) && world.memory.For(mine.site)
    requires simulator.View() == world.queue && catalogue.workload == mine.workload && catalogue.View() == world.book
    requires planner.site == mine.site && planner.Valid() && planner.Remembered() == world.memory.(settings := settings)
    requires planner.clock <= at
    requires Knows(mine.workload, world.book).Follows(planner.known) && Knows(mine.workload, world.book).OffSensors(mine.site)
    modifies simulator, planner
    ensures var r := Intended(mine, world, at, settings);
            && simulator.View() == r.0.queue && planner.Remembered() == r.0.memory
            && r.0 == world.(queue := r.0.queue, memory := r.0.memory)
            && applied == r.1 && updates == r.2
    ensures planner.Valid() && planner.clock == at && planner.known == Knows(mine.workload, world.book)
  {
    hide Valid, ApplyAll, Cycle, Sized;
    var plan := planner.Plan(at, Knows(catalogue.workload, catalogue.View()));
    applied := simulator.Reprioritise(at, plan.updates);
    updates := |plan.updates|;
  }

  /** What each cycle is given: its capacity, and the settings it reads, as far as they can be
      worked out. */
  function Inputs(capacities: seq<int>, inForce: seq<Control.InForce>, initial: Intent): (r: seq<CycleInput>)
    ensures |r| == |capacities|
    ensures forall k :: 0 <= k < |r| ==> r[k] == CycleInput(capacities[k], if k < |inForce| then inForce[k].settings else initial)
  {
    seq(|capacities|, k requires 0 <= k < |capacities| =>
          CycleInput(capacities[k], if k < |inForce| then inForce[k].settings else initial))
  }

  /** The settings a cycle acts under: read once, and configured only when they have changed. */
  method ReadIntent(control: Control.Control, schedule: seq<Control.Step>, from: nat, cycle: int, meanwhile: Control.Meanwhile,
                    planner: Planner.Planner, version: int, ghost last: Control.InForce)
    returns (next: nat, ok: bool, now: int)
    requires control.View() == last && Control.Signed(meanwhile) && version <= last.version
    requires planner.Valid() && (version == last.version ==> planner.Remembered().settings == last.settings)
    modifies control, planner
    ensures ok ==> Control.Later(last, control.View())
    ensures match Control.Due(last, schedule, from, cycle, meanwhile)
            case None => !ok
            case Some((after, n)) => ok && next == n && control.View() == Control.Acted(after, meanwhile.last)
    ensures planner.Valid() && planner.known == old(planner.known) && planner.clock == old(planner.clock)
    ensures planner.Remembered() == if ok then old(planner.Remembered()).(settings := control.View().settings) else old(planner.Remembered())
    ensures ok ==> now == control.View().version
  {
    Control.DueIsLater(last, schedule, from, cycle, meanwhile);
    now := version;
    next, ok := BringUpToDate(control, schedule, from, cycle, meanwhile);
    if !ok {
      return;
    }
    ghost var after := control.View();
    Control.ActedIsLater(after, meanwhile.last);
    ActAll(control, meanwhile.last);
    if control.version != version {
      planner.Configure(control.settings);
      now := control.version;
    }
  }

  // ---------- A run ----------

  /** A run between cycles: its parts hold what the machine holds, the planner knows the
      catalogue as it is, and the settings it is configured with are those last read. */
  ghost predicate UnderWay(mine: Mine, world: World, cycle: nat, version: int, control: Control.Control, simulator: Simulator.Simulator,
                           flow: Option<Pipeline.Pipeline>, catalogue: MineCatalogue, planner: Planner.Planner)
    reads control, simulator, catalogue, planner, if flow.Some? then {flow.value} else {}
  {
    && Running(mine, world) && world.queue.now == cycle * mine.interval
    && Holding(mine, world, simulator, flow, catalogue, planner)
    && planner.known == Knows(mine.workload, world.book)
    && version <= control.version && control.version >= 1
    && (version == control.version ==> world.memory.settings == control.settings)
  }

  /** A run part way through a cycle: its work is done, and intent is still to act on it. */
  ghost predicate Midway(mine: Mine, world: World, at: Time, version: int, control: Control.Control, simulator: Simulator.Simulator,
                         flow: Option<Pipeline.Pipeline>, catalogue: MineCatalogue, planner: Planner.Planner)
    reads control, simulator, catalogue, planner, if flow.Some? then {flow.value} else {}
  {
    && Running(mine, world) && world.queue.now == at
    && (forall i :: 0 <= i < |Log(world.queue)| ==> Log(world.queue)[i].submittedAt > at)
    && Holding(mine, world, simulator, flow, catalogue, planner)
    && Knows(mine.workload, world.book).Follows(planner.known) && Knows(mine.workload, world.book).OffSensors(mine.site)
    && version <= control.version && control.version >= 1
    && (version == control.version ==> world.memory.settings == control.settings)
  }

  /** A cycle's work carried out, and whether the run is over. */
  method CarryOutWork(mine: Mine, ghost world: World, cycle: nat, capacity: int, version: int, control: Control.Control,
                      simulator: Simulator.Simulator, flow: Option<Pipeline.Pipeline>, catalogue: MineCatalogue, planner: Planner.Planner)
    returns (over: bool, progress: Progress, ghost worked: World)
    requires UnderWay(mine, world, cycle, version, control, simulator, flow, catalogue, planner) && SolvesOffSensors(mine)
    modifies simulator, catalogue, if flow.Some? then {flow.value} else {}
    ensures var at := (cycle + 1) * mine.interval;
            && at > world.queue.now && StreamsInOrder(world.queue, at)
            && Worked(mine, world, at, capacity) == Some(worked)
            && (over <==> at > mine.duration && Drained(worked.queue))
            && Midway(mine, worked, at, version, control, simulator, flow, catalogue, planner)
            && worked.reported == world.reported + progress.finished && worked.breaches == world.breaches + progress.breached
  {
    hide Worked, Running, Drained, StreamsInOrder, SolvesOffSensors, Onward, RecordBooked, Sourced, Valid, FromSolver, Log;
    var at := (cycle + 1) * mine.interval;
    RunningHas(mine, world);
    EngineRuns.Later(mine, cycle);
    WorkRuns(mine, world, at, capacity);
    worked := Worked(mine, world, at, capacity).value;
    var valued := WorthWaitingFor(planner);
    var ok;
    ok, progress := WorkInterval(mine, world, simulator, flow, catalogue, valued, at, capacity);
    RunningHas(mine, worked);
    var done := simulator.Done();
    over := at > mine.duration && done;
    SolverHolds(mine, worked);
    OnwardFollows(mine.workload, world.book, worked.book);
  }

  /** A cycle's intent carried out, under the settings read for it. */
  method CarryOutIntent(mine: Mine, ghost worked: World, cycle: nat, schedule: seq<Control.Step>, from: nat, meanwhile: Control.Meanwhile,
                        version: int, control: Control.Control, simulator: Simulator.Simulator, flow: Option<Pipeline.Pipeline>,
                        catalogue: MineCatalogue, planner: Planner.Planner)
    returns (planned: bool, next: nat, now: int, ghost after: World)
    requires Midway(mine, worked, (cycle + 1) * mine.interval, version, control, simulator, flow, catalogue, planner)
    requires Control.Signed(meanwhile)
    modifies control, simulator, planner
    ensures match Control.Due(old(control.View()), schedule, from, cycle + 1, meanwhile)
            case None => !planned
            case Some((due, n)) => planned && next == n && control.View() == Control.Acted(due, meanwhile.last)
    ensures Sized(mine.workload, worked.book) && worked.memory.For(mine.site) && mine.WellFormed()
    ensures planned ==>
              && after == Intended(mine, worked, (cycle + 1) * mine.interval, control.settings).0
              && UnderWay(mine, after, cycle + 1, now, control, simulator, flow, catalogue, planner)
  {
    hide Intended, Running, Control.Due, Control.Acted, Control.Signed, Valid, Sourced;
    var at := (cycle + 1) * mine.interval;
    RunningHas(mine, worked);
    next, planned, now := ReadIntent(control, schedule, from, cycle + 1, meanwhile, planner, version, control.View());
    after := worked;
    if !planned {
      return;
    }
    var applied, updates := IntendInterval(mine, worked, control.settings, simulator, catalogue, planner, at);
    IntentRuns(mine, worked, at, control.settings);
    after := Intended(mine, worked, at, control.settings).0;
    IntendedUnder(mine, worked, at, control.settings);
  }

  /** What the planner remembers includes the settings it acted under. */
  lemma IntendedUnder(mine: Mine, world: World, at: Time, settings: Intent)
    requires mine.WellFormed() && Sized(mine.workload, world.book) && world.memory.For(mine.site)
    ensures var r := Intended(mine, world, at, settings).0;
            r.memory.settings == settings && r.flow == world.flow && r.book == world.book
  {
    KnownFits(mine, world.book);
    hide Steps;
  }

  lemma SolverHolds(mine: Mine, world: World)
    requires Running(mine, world) && SolvesOffSensors(mine)
    ensures Sized(mine.workload, world.book) && Knows(mine.workload, world.book).OffSensors(mine.site)
  {
    hide Valid, AllFair, RecordBooked, Sourced, Flowing, Accounted, InTouch;
    SolvedOffSensors(mine, world);
  }

  /** The parts of a run as it begins. */
  method Begin(mine: Mine, initial: Intent, alwaysJudge: bool)
    returns (simulator: Simulator.Simulator, flow: Option<Pipeline.Pipeline>, catalogue: MineCatalogue, planner: Planner.Planner,
             control: Control.Control)
    requires mine.WellFormed() && mine.site.Steady() && mine.site.Speed() >= 0.0
    ensures fresh(simulator) && fresh(catalogue) && fresh(planner) && fresh(control) && (flow.Some? ==> fresh(flow.value))
    ensures control.View() == Control.Begin(initial)
    ensures Running(mine, Beginning(mine, initial))
    ensures UnderWay(mine, Beginning(mine, initial), 0, 0, control, simulator, flow, catalogue, planner)
  {
    hide Running, Valid, Planner.Planner.Valid;
    GeneratedRise(mine);
    BeginningRuns(mine, initial);
    BlankIsUnseen(mine);
    simulator := new Simulator.Simulator(mine.workload.jobs, mine.deadlines);
    catalogue := new MineCatalogue(mine.workload);
    planner := new Planner.Planner(mine.site, initial, alwaysJudge);
    control := new Control.Control(initial);
    flow := None;
    if mine.flow.Some? {
      var w := mine.flow.value;
      SetupIsSorted(mine);
      var workflow := new Pipeline.Pipeline(w.plan, w.events, mine.first, w.drawn);
      flow := Some(workflow);
    }
  }

  /** A workload's events are already in the order of their first jobs. */
  lemma SetupIsSorted(mine: Mine)
    requires mine.WellFormed() && mine.flow.Some?
    ensures StableSort(mine.flow.value.events, Pipeline.ByFirstJob) == mine.flow.value.events
  {
    SortLeavesOrdered(mine.flow.value.events, Pipeline.ByFirstJob);
  }

  /** What the parts of a run hold between them. */
  function Held(simulator: Simulator.Simulator, flow: Option<Pipeline.Pipeline>, catalogue: MineCatalogue, planner: Planner.Planner,
                reported: seq<JobId>, breaches: nat): World
    reads simulator, catalogue, planner, if flow.Some? then {flow.value} else {}
  {
    World(simulator.View(), if flow.Some? then Some(flow.value.View()) else None, catalogue.View(), planner.Remembered(), reported, breaches)
  }

  /** The last cycle of a run. */
  lemma RunIsOver(mine: Mine, world: World, cycle: nat, inputs: seq<CycleInput>, worked: World)
    requires Running(mine, world) && world.queue.now == cycle * mine.interval && inputs != []
    requires var at := (cycle + 1) * mine.interval;
             && at > world.queue.now && StreamsInOrder(world.queue, at) && Worked(mine, world, at, inputs[0].capacity) == Some(worked)
             && at > mine.duration && Drained(worked.queue)
    ensures RunFrom(mine, world, cycle, inputs) == Ended(worked)
  {
  }

  /** Any other cycle, and the rest of the run. */
  lemma RunGoesOn(mine: Mine, world: World, cycle: nat, inputs: seq<CycleInput>, worked: World, after: World)
    requires Running(mine, world) && world.queue.now == cycle * mine.interval && inputs != []
    requires var at := (cycle + 1) * mine.interval;
             && at > world.queue.now && StreamsInOrder(world.queue, at) && Worked(mine, world, at, inputs[0].capacity) == Some(worked)
             && !(at > mine.duration && Drained(worked.queue))
             && Sized(mine.workload, worked.book) && worked.memory.For(mine.site)
             && after == Intended(mine, worked, at, inputs[0].settings).0
             && Running(mine, after) && after.queue.now == at
    ensures RunFrom(mine, world, cycle, inputs) == RunFrom(mine, after, cycle + 1, inputs[1..])
  {
  }

  lemma UnderWayHas(mine: Mine, world: World, cycle: nat, version: int, control: Control.Control, simulator: Simulator.Simulator,
                    flow: Option<Pipeline.Pipeline>, catalogue: MineCatalogue, planner: Planner.Planner)
    requires UnderWay(mine, world, cycle, version, control, simulator, flow, catalogue, planner)
    ensures Running(mine, world) && world.queue.now == cycle * mine.interval
    ensures Held(simulator, flow, catalogue, planner, world.reported, world.breaches) == world
  {
    hide Running;
  }

  lemma MidwayHeld(mine: Mine, world: World, at: Time, version: int, control: Control.Control, simulator: Simulator.Simulator,
                   flow: Option<Pipeline.Pipeline>, catalogue: MineCatalogue, planner: Planner.Planner)
    requires Midway(mine, world, at, version, control, simulator, flow, catalogue, planner)
    ensures Held(simulator, flow, catalogue, planner, world.reported, world.breaches) == world
  {
    hide Running;
  }

  lemma NoMoreCycles(mine: Mine, world: World, cycle: nat)
    requires Running(mine, world) && world.queue.now == cycle * mine.interval
    ensures RunFrom(mine, world, cycle, []) == Ongoing(world)
  {
  }

  /** A run so far: what is left of it, from where it stands, ends as the whole of it ends. */
  ghost predicate Following(mine: Mine, initial: Intent, inForce: seq<Control.InForce>, inputs: seq<CycleInput>, world: World, k: nat)
    requires mine.WellFormed()
  {
    BeginningRuns(mine, initial);
    && k <= |inForce| && k <= |inputs|
    && Running(mine, world) && world.queue.now == k * mine.interval
    && RunFrom(mine, world, k, inputs[k..]) == RunFrom(mine, Beginning(mine, initial), 0, inputs)
  }

  lemma FollowingOver(mine: Mine, initial: Intent, inForce: seq<Control.InForce>, inputs: seq<CycleInput>, world: World, k: nat, worked: World)
    requires mine.WellFormed() && Following(mine, initial, inForce, inputs, world, k) && k < |inputs|
    requires var at := (k + 1) * mine.interval;
             && Valid(world.queue) && Sized(mine.workload, world.book)
             && (mine.flow.Some? ==> world.flow.Some? && Indexed(mine.flow.value, world.flow.value))
             && at > world.queue.now && StreamsInOrder(world.queue, at) && Worked(mine, world, at, inputs[k].capacity) == Some(worked)
             && at > mine.duration && Drained(worked.queue)
    ensures Running(mine, Beginning(mine, initial)) && Beginning(mine, initial).queue.now == 0
    ensures RunFrom(mine, Beginning(mine, initial), 0, inputs) == Ended(worked)
  {
    hide Running, RunFrom, Worked, Valid, Sized, Indexed, StreamsInOrder, Drained;
    BeginningRuns(mine, initial);
    RunIsOver(mine, world, k, inputs[k..], worked);
  }

  lemma FollowingOn(mine: Mine, initial: Intent, inForce: seq<Control.InForce>, inputs: seq<CycleInput>, world: World, k: nat, worked: World, after: World)
    requires mine.WellFormed() && Following(mine, initial, inForce, inputs, world, k) && k < |inputs| && k < |inForce|
    requires var at := (k + 1) * mine.interval;
             && Valid(world.queue) && Sized(mine.workload, world.book)
             && (mine.flow.Some? ==> world.flow.Some? && Indexed(mine.flow.value, world.flow.value))
             && at > world.queue.now && StreamsInOrder(world.queue, at) && Worked(mine, world, at, inputs[k].capacity) == Some(worked)
             && !(at > mine.duration && Drained(worked.queue))
             && Sized(mine.workload, worked.book) && worked.memory.For(mine.site)
             && after == Intended(mine, worked, at, inputs[k].settings).0
             && Running(mine, after) && after.queue.now == at
    ensures Following(mine, initial, inForce, inputs, after, k + 1)
  {
    hide Running, RunFrom, Worked, Valid, Sized, Indexed, StreamsInOrder, Drained, Intended;
    BeginningRuns(mine, initial);
    assert inputs[k..][1..] == inputs[k + 1..];
    RunGoesOn(mine, world, k, inputs[k..], worked, after);
  }

  lemma FollowingAll(mine: Mine, initial: Intent, inForce: seq<Control.InForce>, inputs: seq<CycleInput>, world: World, k: nat)
    requires mine.WellFormed() && Following(mine, initial, inForce, inputs, world, k) && k == |inputs|
    ensures Running(mine, Beginning(mine, initial)) && Beginning(mine, initial).queue.now == 0
    ensures RunFrom(mine, Beginning(mine, initial), 0, inputs) == Ongoing(world)
  {
    hide Running, RunFrom;
    BeginningRuns(mine, initial);
    NoMoreCycles(mine, world, k);
    assert inputs[k..] == [];
  }

  /** A run carried out, cycle by cycle, until it is over or there are no more cycles to give it
      capacity for, under settings an operator may change at any moment. It goes as the machine
      goes, under the settings each cycle reads; unless a planned change cannot be worked out. */
  method Simulate(mine: Mine, initial: Intent, schedule: seq<Control.Step>, alwaysJudge: bool,
                  capacities: seq<int>, meanwhiles: seq<Control.Meanwhile>)
    returns (ending: Ending, planned: bool)
    requires mine.WellFormed() && mine.site.Steady() && mine.site.Speed() >= 0.0 && SolvesOffSensors(mine)
    requires |meanwhiles| == |capacities| && forall k :: 0 <= k < |meanwhiles| ==> Control.Signed(meanwhiles[k])
    ensures Running(mine, Beginning(mine, initial)) && Beginning(mine, initial).queue.now == 0
    ensures var inForce := Control.Reads(Control.Begin(initial), schedule, 0, 1, meanwhiles);
            if planned then ending == RunFrom(mine, Beginning(mine, initial), 0, Inputs(capacities, inForce, initial))
            else |inForce| < |capacities|
  {
    hide Running, Control.Due, Control.Acted, Control.Signed, Control.Reads, RunFrom, Midway, UnderWay, SolvesOffSensors, Drained, StreamsInOrder,
         Worked, Intended, Held, Following, Valid, Sized, Indexed, Mine.WellFormed, Site.Steady, Site.WellFormed;
    BeginningRuns(mine, initial);
    ghost var world, inForce := Beginning(mine, initial), Control.Reads(Control.Begin(initial), schedule, 0, 1, meanwhiles);
    ghost var inputs := Inputs(capacities, inForce, initial);
    FollowingFrom(mine, initial, inForce, inputs);
    var simulator, flow, catalogue, planner, control := Begin(mine, initial, alwaysJudge);
    var reported: seq<JobId>, breaches: nat, next: nat, version, k := [], 0, 0, 0, 0;
    assert meanwhiles[0..] == meanwhiles && inForce[0..] == inForce;
    while k < |capacities|
      invariant 0 <= k <= |capacities| && k <= |inForce|
      invariant fresh(simulator) && fresh(catalogue) && fresh(planner) && fresh(control) && (flow.Some? ==> fresh(flow.value))
      invariant UnderWay(mine, world, k, version, control, simulator, flow, catalogue, planner)
      invariant Following(mine, initial, inForce, inputs, world, k)
      invariant Control.Reads(control.View(), schedule, next, k + 1, meanwhiles[k..]) == inForce[k..]
      invariant reported == world.reported && breaches == world.breaches
    {
      Control.ReadOneCycle(control.View(), schedule, next, k + 1, meanwhiles[k..]);
      UnderWayHas(mine, world, k, version, control, simulator, flow, catalogue, planner);
      RunningHas(mine, world);
      var over, progress;
      ghost var worked;
      over, progress, worked := CarryOutWork(mine, world, k, capacities[k], version, control, simulator, flow, catalogue, planner);
      reported, breaches := reported + progress.finished, breaches + progress.breached;
      if over {
        FollowingOver(mine, initial, inForce, inputs, world, k, worked);
        MidwayHeld(mine, worked, (k + 1) * mine.interval, version, control, simulator, flow, catalogue, planner);
        return Ended(Held(simulator, flow, catalogue, planner, reported, breaches)), true;
      }
      ghost var after;
      planned, next, version, after := CarryOutIntent(mine, worked, k, schedule, next, meanwhiles[k], version, control, simulator, flow, catalogue, planner);
      if !planned {
        return Refused, false;
      }
      TailsAgree(meanwhiles, inForce, k, control.View());
      UnderWayHas(mine, after, k + 1, version, control, simulator, flow, catalogue, planner);
      FollowingOn(mine, initial, inForce, inputs, world, k, worked, after);
      IntendedTells(mine, worked, (k + 1) * mine.interval, control.settings);
      world := after;
      k := k + 1;
    }
    UnderWayHas(mine, world, k, version, control, simulator, flow, catalogue, planner);
    FollowingAll(mine, initial, inForce, inputs, world, k);
    return Ongoing(Held(simulator, flow, catalogue, planner, reported, breaches)), true;
  }

  lemma FollowingFrom(mine: Mine, initial: Intent, inForce: seq<Control.InForce>, inputs: seq<CycleInput>)
    requires mine.WellFormed()
    ensures Following(mine, initial, inForce, inputs, Beginning(mine, initial), 0)
  {
    hide Running, RunFrom;
    BeginningRuns(mine, initial);
    assert inputs[0..] == inputs;
  }

  lemma TailsAgree(meanwhiles: seq<Control.Meanwhile>, inForce: seq<Control.InForce>, k: nat, read: Control.InForce)
    requires k < |meanwhiles| && k <= |inForce|
    requires inForce[k..] != [] && inForce[k..][0] == read
    ensures k < |inForce| && inForce[k] == read
    ensures meanwhiles[k..][1..] == meanwhiles[k + 1..] && inForce[k..][1..] == inForce[k + 1..]
  {
  }

  lemma IntendedTells(mine: Mine, world: World, at: Time, settings: Intent)
    requires mine.WellFormed() && Sized(mine.workload, world.book) && world.memory.For(mine.site)
    ensures var r := Intended(mine, world, at, settings).0; r.reported == world.reported && r.breaches == world.breaches
  {
    KnownFits(mine, world.book);
    hide Cycle;
  }
}
