# The simulated mine, verified

A model in Dafny of the simulated mine: a queue of processing jobs served by a changing number of
executors, a planner that moves jobs between priorities as events turn out to matter or not, a
workflow that groups picks into sweeps and sweeps into locates, and the loop that runs the three
against a catalogue of events. Beside them are the algorithms they rest on or that judge them:
reach along tunnels, reach along tracks, the closure map, the versioned intent settings, and the
ordering of a generated workload.

## How it is laid out

What the source updates in place is a class here, with the same fields, loops and early exits:
`Planner.Planner`, `Simulator.Simulator` (the queue), `Pipeline.Pipeline`,
`CatalogueOps.MineCatalogue`, `Control.Control`, `Tunnels.Builder`, `Reach.Measured`. Each method is proved to do what
a specification function says, and the theorems are about the specification:

- `Reference` is the planner without memory of earlier judgements; `Settled` says when a skip is
  exact and `Missed` has the inputs on which it is not; `Planner` is the fast planner, which
  refines the reference.
- `QueueState`, `Admission`, `Serving`, `QueueOps` specify the queue, with reprioritisation one
  update at a time; `QueueLaws` and `QueueRuns` are its laws; `Turning`, `OnePass` and `Snapshots`
  carry the proofs of the in-place `Simulator`; `Reports` says what an interval reports.
- `Triggers`, `Workflow`, `WorkflowLaws`, `WorkflowRuns` specify the workflow, `Pipeline` runs it.
- `Engine` is one cycle of everything and the invariant between the parts, `EngineLaws` keeps it,
  `EngineRuns` has the theorems over whole runs, and `Simulation` is the loop itself.
- What these operations come to, said without naming how they are specified: `Asked` of a planning
  cycle, `Updates` of a batch of updates, `Intervals` of an interval and of work handed over, `Rhythm`
  and `Intake` of the workflow, `LocationRecord` of the catalogue, `Cycles` of a cycle of everything.
- `Agreement` joins planner and queue; `Control` is record and replay.
- `Tunnels`, `Routes` and `Reach` are the network, its shortest ways and the ground within a
  distance; `Surveyed` gives places coordinates, and `Positioned` is the mine's own view of where
  people and vehicles could be, with `Walkers` the people it is right about and `Straying` those it
  is not. `Observe`, `Tracks` and `Jumps` are the true view, and `Pace` is of any.
- `Spans`, `Peak`, `ClosureMap`; `TimeOrder`.
- `Basics`, `Settings`, `Work`, `Orchestrator`, `Sorting` are shared.

Times are whole numbers of the least unit and work is whole executor-time; distances are reals in
an abstract metric.

## Where code and documentation part

- The `Whereabouts` interface promises that a reach covers wherever its unit goes and moves toward
  a point no faster than its speed (`internal/observe/observe.go:25-41`). Skipping also needs the
  bound for motion away: `Settled.SkippableExactlyBounded` says it is exactly what is missing, and
  `Missed.LeavingIsMissed` is an input that shows it, on which ground is given up at once and no
  one leaves the ground they are given. Both of the simulator's views keep both where waypoints of
  one moment coincide and, for the mine's own view, people go along the tunnels
  (`Positioned.ViewsAreSteady`, `Walkers.WalkersGoAlong`). For someone off the tunnels whose nearest
  leg changes it fails (`Straying.SteppingAcrossIsUnbounded`, `Straying.LookingAheadIsUnbounded`);
  `Positioned.GroundKeepsPaceExactly` says exactly when it holds for a person, and
  `Pace.BoundedExactly` for any view of any units.
- A skip compares positions only. A location that appears exactly at the first trigger sensor,
  with another magnitude, is not noticed: `Missed.ALocationOnTheSensorIsMissed`.
  `Settled.SkippingIsExact` says that this is the only case, and the planner is
  proved for solvers that never answer with that very point.
- Levels are claimed to be in deadline order after every admission. The log is admitted before
  submitted work, so they are exactly when `Admission.StreamsInOrder` holds; a run satisfies it
  because the log and the workflow's stages submit at different levels (`EngineLaws.WorkRuns`).
- The speed measured from a track bounds how fast its unit moves exactly when the first waypoint of
  each moment is where the last is, and how fast its reach moves exactly when all are one place
  (`Jumps.SpeedBoundsExactly`, `Jumps.ReachBoundsExactly`). Waypoint times are rounded to a tenth of
  a second (`internal/workload/workforce.go:224-245`), so short legs can share a moment:
  `Tracks.JumpIsUnbounded`.
- A replayed run reads the same settings exactly when its first recorded version is 1:
  `Control.ReplayReproduces`. That is exactly when nothing was planned for the first cycle and no
  change was accepted before it read its settings (`Control.FirstIsOneExactly`); otherwise the
  record begins at a later version and a replay at 1, as `Control.ChangedBeforeTheFirst` and
  `Control.PlannedForTheFirst` show.

## Model

| member | source | states |
|---|---|---|
| `Planner.PlanRun` | internal/intent/planner.go:224-347 | over every run of plans at non-decreasing times and changes of settings, with the catalogue only ever learning, the planner that skips settled judgements and drops quiet events returns in every cycle exactly the updates and changes of judgement of the reference planner, which judges every open event; so does the one told always to judge |
| `Planner.Planner.Plan` | internal/intent/planner.go:224-263 | one cycle of the same: updates, changes and everything remembered are those of the reference cycle, and every invariant of the planner's caches and counters is kept |
| `Settled.SkippingIsExact` | internal/intent/planner.go:274-287 | where the skip's guard holds, judging now gives the state and basis on record if and only if no location has meanwhile appeared at the very point the sensors had been taken for |
| `Settled.JudgementStands` | internal/intent/planner.go:274-287 | while speed times the time since covers less than the slack of a judgement, judging the same sighting again gives the same state and basis, whoever moved |
| `Settled.SlackProtectsVerdict` | internal/intent/planner.go:305-347 | a distance that changes by less than the slack, nearer or farther, cannot change the verdict, in every mode and with either threshold unknown |
| `Missed.ALocationOnTheSensorIsMissed` | internal/intent/planner.go:274-297 | an input on which the skip is wrong with every promise kept and no one moving: four of an event's five picks processed, and a location found from them exactly at the first sensor with a larger magnitude; the guard compares positions only |
| `Settled.SkipsSafelyExactlyNear` | internal/intent/planner.go:274-347 | a skip between two distances is safe in every mode and for every boundary if and only if they are within the travel of each other |
| `Settled.SkippableExactlyBounded` | internal/observe/observe.go:25-41 | every skip over a reach is safe if and only if it moves at most at the speed both toward and away from any point; so, where the documented half is kept, if and only if the other is |
| `Missed.LeavingIsMissed` | internal/observe/observe.go:25-41 | an input on which the documented promises are not enough: a reach that always covers where its unit goes and moves toward nothing, but gives up ground at once |
| `Planner.Planner.Configure` | internal/intent/planner.go:188-198 | new settings change nothing remembered but the settings; every judgement and request on record is of an earlier generation, and none may be skipped |
| `Planner.Planner.AssessEvent` | internal/intent/planner.go:305-347 | the transition is the reference's; the slack, instant and sighting recorded for the skip are the ones the verdict was reached from |
| `Planner.Planner.StrikeOf` | internal/intent/planner.go:351-364 | the cached nearest oracle or unit is the one that would be found afresh |
| `Planner.Planner.RequestEvent` | internal/intent/planner.go:431-482 | requests and updates are those of asking for every unfinished job, although a repeated ask is dropped; `altered` moves by exactly the change in displaced requests |
| `Planner.AskSettles` | internal/intent/planner.go:431-482 | every unfinished job of the event ends up as wanted, and wanting it again changes nothing |
| `Planner.AskTouchesOnlyItsOwn` | internal/intent/planner.go:431-482 | nothing is asked of any other event's jobs |
| `Planner.Planner.CloseEvent` | internal/intent/planner.go:485-493 | a closing event takes exactly its own displaced requests out of `altered` |
| `Planner.Planner.OpenDue` | internal/intent/planner.go:224-246 | events open in order of origin, each once, as soon as they are due, with every cache and counter still exact |
| `Observe.NearestIsFirstLeast` | internal/observe/observe.go:57-93 | the path named is a nearest one and the first of those; none is named only when no path has points |
| `Observe.Nearest` | internal/observe/observe.go:83-93 | the loop finds what that is proved of |
| `Observe.DistanceTo` | internal/observe/observe.go:57-67 | the loop finds the distance to the nearest segment, or the point of a path of one |
| `QueueRuns.RunKeeps` | internal/queue/queue.go:180-746 | under every interleaving of advances, submissions and reprioritisations, levels stay in (deadline origin, id) order, each admitted job is exactly one of waiting, running or completed, all counters count each job once, and the breaches reported add up to the breaches counted |
| `QueueOps.AdvanceKeeps` | internal/queue/queue.go:180-208 | an interval keeps all of that, leaves no overdue waiting job unflagged, and reports as breached exactly what it adds to the count |
| `Simulator.Simulator.constructor` | internal/queue/queue.go:159-172 | a new simulator holds the log in stable order of submission and satisfies every invariant |
| `Simulator.Simulator.Advance` | internal/queue/queue.go:180-208 | the imperative advance, with its loops and early exits, does what the specification does, to every field |
| `Simulator.Simulator.CountBreaches` | internal/queue/queue.go:403-428 | despite stopping at the first job in time, every overdue waiting job of every level is flagged and counted, and nothing else |
| `Admission.OrderKeptExactly` | internal/queue/queue.go:243-276 | after admission every level is in deadline order if and only if no log job due comes after submitted work due at its level, for any log and any submitted work |
| `EngineRuns.StreamsMeet` | internal/queue/queue.go:243-264 | a queue reached by submitting one fresh job to a log of one, on which that fails and the level ends out of order |
| `Simulator.Simulator.AdmitArrivals` | internal/queue/queue.go:243-276 | everything due is admitted: the log first, then submitted work, each at the end of its level |
| `Simulator.Simulator.ServeInterval` | internal/queue/queue.go:290-366 | serving in place, running jobs first, then levels by urgency from the front, with pruning, is serving by the turns specified |
| `Serving.ServeExactly` | internal/queue/queue.go:290-366 | each job is left with exactly what it has less what it can use of what those ahead of it left, at most the interval; one that starts is judged then and there, against both SLAs |
| `QueueLaws.ServiceIsExact` | internal/queue/queue.go:290-366 | in total an interval does exactly min(executors x interval, sum of min(interval, remaining)) |
| `QueueLaws.StartsBehindNoOne` | internal/queue/queue.go:290-366 | a job is started only if nothing more urgent, and nothing as urgent and ahead of it, is left waiting |
| `QueueLaws.DrainsInTime` | internal/queue/queue.go:290-366 | with no more arrivals and at least one executor in every interval, work W is drained within W/interval intervals, rounded up |
| `Simulator.Simulator.Submit` | internal/queue/queue.go:215-240 | a taken identity refuses that job and those after it, leaving those before; late work is dated now; pending work is stably sorted |
| `QueueOps.SubmitKeeps` | internal/queue/queue.go:215-240 | fresh work is never refused, joins what is pending, and keeps every invariant |
| `Simulator.Simulator.Reprioritise` | internal/queue/queue.go:679-746 | the one pass of marking, filtering, sorting and merging leaves the same levels, flags, counts and result as applying the updates one at a time by removal and insertion, for any batch, with repeats and there-and-back moves |
| `OnePass.MarkedStep` | internal/queue/queue.go:684-742 | noting one more update on the marked jobs corresponds to applying it to the one-at-a-time queue, except for the levels |
| `OnePass.MergedIsPlaced` | internal/queue/queue.go:721-746 | stayers merged with arrivals are the levels of the one-at-a-time queue |
| `OnePass.MergedKeeps` | internal/queue/queue.go:749-765 | merging two levels in order gives a level in order of exactly the jobs of both |
| `Simulator.Simulator.Merge` | internal/queue/queue.go:749-765 | the two-index loop computes that merge, ties to the job already there |
| `QueueOps.PlacedUnique` | internal/queue/queue.go:94-99 | the jobs alone settle the levels: two ways of placing them in deadline order are the same |
| `QueueOps.ApplyAllKeeps` | internal/queue/queue.go:679-746 | any batch of updates keeps every invariant and touches neither streams nor service |
| `QueueRuns.DecayOnlyRelaxes` | internal/queue/queue.go:372-428 | if deadlines never shorten at lower levels and updates never raise a job above its submitted level, a drained run has `Breached` at most `BreachedAsSubmitted` |
| `QueueRuns.UntouchedCountsAgree` | internal/queue/queue.go:372-428 | if no priority was ever changed the two are equal |
| `Simulator.Simulator.SnapshotByBurst` | internal/queue/queue.go:476-511 | both halves are what the full computation gives, on the short path too; arrivals are counted from the log alone |
| `Simulator.Simulator.Snapshot` | internal/queue/queue.go:435-463 | depth, oldest wait and arrivals of every level |
| `Snapshots.HalvesAddUp` | internal/queue/queue.go:476-511 | level by level the halves' depths sum to the whole's, and arrivals all go with the counted half |
| `Snapshots.ShortcutIsExact` | internal/queue/queue.go:476-511 | with `exemptWaiting` at zero the counted half is the whole and the exempt half empty |
| `Simulator.Simulator.RecentArrivals` | internal/queue/queue.go:557-570 | walking back from the clock to the first arrival too old counts exactly the arrivals inside the window, per level |
| `Simulator.Simulator.Done` | internal/queue/queue.go:573-576 | done means nothing to come, nothing waiting and nothing running |
| `Simulator.Simulator.DepthNow` | internal/queue/queue.go:611-617 | all that waits or runs |
| `Simulator.Simulator.PruneEmptyLevels` | internal/queue/queue.go:631-637 | exactly the empty levels go |
| `Reports.AdvanceReports` | internal/queue/queue.go:180-208 | an interval reports as finished exactly the jobs completed in it, each once |
| `Reports.AdvanceShapes` | internal/queue/queue.go:180-208 | an interval changes no job's priority, exemption or submitted priority; who arrives is as submitted |
| `Pipeline.Pipeline.Advance` | internal/pipeline/pipeline.go:185-227 | the imperative advance does what the specification does, to every field, and fails exactly when it does |
| `WorkflowRuns.AdvanceKeeps` | internal/pipeline/pipeline.go:185-227 | an interval is accepted if and only if each finished job is a pick or the workflow's own and none was done before; then every invariant is kept, and new work has fresh rising identities |
| `WorkflowRuns.SweepOutcome` | internal/pipeline/pipeline.go:245-264 | a sweep is submitted if and only if the trigger decides on one and some event can be grouped; after it none can, and without it nothing about sweeping changes |
| `WorkflowRuns.WaitIsBounded` | internal/pipeline/trigger.go:97-246 | once the trigger's bound has passed since the last sweep, an interval leaves no event in the window with four processed picks and something unswept, whatever finished |
| `WorkflowRuns.GapIsObserved` | internal/pipeline/trigger.go:97-246 | no sweep comes sooner than the trigger's gap after the last |
| `WorkflowRuns.SweepsKeepApart` | internal/pipeline/trigger.go:97-246 | over a whole run consecutive sweeps are at least the gap apart: for a fixed interval, the interval |
| `WorkflowRuns.SweepsAreFew` | internal/pipeline/pipeline.go:245-279 | an event of p picks is grouped by at most max(0, p - 3) sweeps |
| `WorkflowRuns.LocatesFollowSweeps` | internal/pipeline/pipeline.go:185-227 | each event has no more locates than sweeps, exactly as many once all issued work is done, and then there are at least as many locates as sweeps in all |
| `WorkflowLaws.PickIsOwn` | internal/pipeline/pipeline.go:230-237 | a job is put to an event exactly when it is one of its picks |
| `Pipeline.Pipeline.Pick` | internal/pipeline/pipeline.go:230-237 | the bisection finds that event |
| `Pipeline.Pipeline.SweepOnce` | internal/pipeline/pipeline.go:245-264 | the candidates are grouped into one job of the cost of locating them all, and have nothing unswept left |
| `Pipeline.Pipeline.LocateAll` | internal/pipeline/pipeline.go:287-299 | one locate for each event of the sweep, under fresh identities |
| `Pipeline.Pipeline.ObserveNow` | internal/pipeline/pipeline.go:310-335 | the loop counts ready picks, pending valued and decayed picks, and what is issued, as specified |
| `Pipeline.Pipeline.Drain` | internal/pipeline/pipeline.go:338-351 | completions older than the window go, and the rate is what is left over the time there has been |
| `Pipeline.FirstFresh` | internal/pipeline/spec.go:18-35 | the first identity issued is past every generated job and every event's picks, and is the least such |
| `Triggers.BoundIsMet` | internal/pipeline/trigger.go:97-246 | each trigger with a bound decides on a sweep by then if anything is ready, whatever else it sees |
| `Triggers.BoundIsLeast` | internal/pipeline/trigger.go:97-246 | and the bound is the least such time; without one, there are observations it never sweeps on |
| `Triggers.GapIsKept` | internal/pipeline/trigger.go:97-246 | no trigger decides sooner than its gap |
| `Triggers.GapIsLeast` | internal/pipeline/trigger.go:97-246 | and the gap is the greatest such time |
| `Triggers.PressureOnlyHastens` | internal/pipeline/trigger.go:234-246 | pressure adds sweeps only with the backlog reached and the floor passed, removes none, and does not raise the bound |
| `Triggers.NothingReady` | internal/pipeline/trigger.go:97-246 | no trigger decides on a sweep with nothing ready |
| `CatalogueOps.ObserveKeeps` | internal/workload/catalogue.go:128-169 | a batch is accepted if and only if each job exists, was not done before and is named once; then exactly those are done besides, pick counts and records stay exact, and no location changes |
| `CatalogueOps.LocateKeeps` | internal/workload/catalogue.go:176-187 | a locate is refused exactly for an event that does not exist; only events named change, and of those only the final location and, if there was none, the first and its time |
| `CatalogueOps.SolveKeeps` | internal/workload/catalogue.go:192-208 | only the event solved changes, and of it only the final location and, if there was none, the first and its time; with four picks and a solution it has one |
| `EngineRuns.KnowledgeOnlyGrows` | internal/workload/catalogue.go:128-208 | over a whole run what the planner reads of the catalogue only grows: finished work stays finished and a location once made stands, as its skip needs |
| `CatalogueOps.MineCatalogue.ObserveFinished` | internal/workload/catalogue.go:128-169 | the loops over jobs and touched events do what the specification does, on error too |
| `CatalogueOps.MineCatalogue.LocateFinished` | internal/workload/catalogue.go:176-187 | so does this |
| `CatalogueOps.MineCatalogue.SolveOne` | internal/workload/catalogue.go:192-208 | and this |
| `Agreement.CycleAgrees` | internal/intent/planner.go:431-482 | after a cycle every waiting pick has in the queue the priority and exemption the planner has on record, and `Changed + TooLate` is the number of updates |
| `Agreement.StepsLetGo` | internal/intent/planner.go:247-262 | with intent off every unfinished pick of an open event is asked back to its submitted priority and not exempt |
| `Agreement.CycleOnlyRelaxes` | internal/intent/planner.go:431-482 | a cycle that does not promote asks for no job above its submitted priority |
| `Simulation.Simulate` | internal/run/engine.go:293-382 | the loop over all the objects, with the settings it reads from the intent control as planned and patched, follows the step machine the run theorems are about |
| `Simulation.BringUpToDate` | internal/run/engine.go:593-620 | the planned changes due are put in force in turn, with operators free to act between them, until one fails |
| `EngineRuns.NothingIsRefused` | internal/run/engine.go:293-382 | over a whole run, for any capacities and settings, no error of the workflow, the queue or the catalogue is reached, and every invariant between them holds throughout |
| `EngineRuns.EachJobFinishesOnce` | internal/run/engine.go:303-337 | each job is reported finished at most once, those reported are those completed, and the cycles' breaches sum to the queue's |
| `EngineRuns.EndedRunsAreComplete` | internal/run/engine.go:313-382 | a run that ends has done every generated and every submitted job; each event has at most max(0, picks - 3) sweeps and as many locates; locates in all are at least the sweeps |
| `EngineRuns.DecayingRunsBreachNoMore` | internal/run/engine.go:293-382 | a run that never promotes ends with `Breached` at most `BreachedAsSubmitted` under deadlines that never shorten at lower levels, and with equality if no priority changed |
| `EngineLaws.WorkRuns` | internal/run/engine.go:303-337 | an interval's work is never refused, whatever the capacity, meets the admission order's condition, and keeps every invariant |
| `EngineLaws.IntentRuns` | internal/run/engine.go:591-647 | a cycle's intent leaves planner and queue agreeing, every update changing a job or too late to, and keeps every invariant |
| `EngineLaws.OffLetsGo` | internal/run/engine.go:610-623 | one cycle after intent is switched off every waiting pick is at its submitted priority and not exempt |
| `EngineLaws.LocatesHaveFourPicks` | internal/run/engine.go:313-337 | every event an interval locates had four of its picks in the catalogue before the interval |
| `Control.ReplayReproduces` | internal/run/engine.go:593-620 | replaying recorded changes gives the same settings, version and source at every cycle, and the same record, if and only if the first recorded version is 1, whatever was planned and whatever operators did meanwhile |
| `Control.FirstIsOneExactly` | internal/run/engine.go:593-620 | which it is if and only if nothing was planned for the first cycle and no change was accepted before it read its settings |
| `Control.ChangedBeforeTheFirst` | internal/intent/control.go:44-59 | an input on which it is not: one operator's change before the first cycle |
| `Control.PlannedForTheFirst` | internal/run/engine.go:593-620 | and another: one change planned for the first cycle |
| `Control.ScheduleIsAccepted` | internal/domain/intent.go:387-407 | the recorded changes make a schedule a run accepts |
| `Control.VersionsIncrease` | internal/run/engine.go:593-620 | recorded versions and cycles strictly increase, and recorded settings can be acted on |
| `Control.ReadsProgress` | internal/intent/control.go:44-77 | versions never go back, and one version means one settings and source |
| `Control.NoSilentOverwrite` | internal/intent/control.go:44-59 | of two patches made against one version at most one is accepted, and a refused one changes nothing |
| `Control.WholeIsWhole` | internal/domain/intent.go:343-355 | a patch naming every field gives those settings from any others, if they are valid |
| `Control.Control.Patch` | internal/intent/control.go:44-59 | a patch is refused on a stale version or invalid result, and otherwise is in force at the next version |
| `Control.Control.Replay` | internal/intent/control.go:65-77 | a replayed change is refused if invalid, and otherwise in force at its recorded version or the next one, whichever is later |
| `Reach.Measured.Within` | internal/mineplan/reach.go:60-84 | a place in the tunnels is on the stretches returned if and only if there is a way to it along the tunnels no longer than the distance |
| `Reach.GroundIsExact` | internal/mineplan/reach.go:60-84 | ground along one's own leg and ground entered at each junction is together exactly that |
| `Reach.WaysJoin` | internal/mineplan/reach.go:60-84 | ways along tunnels, between places on legs, compose to one no longer than their sum |
| `Reach.NoFartherThan` | internal/observe/positioned.go:35-57 | someone going along tunnels at a bounded speed is never farther off than speed times time |
| `Reach.WalkerStaysOnGround` | internal/observe/positioned.go:35-57 | and so is on the ground they were given, at every moment of the lookahead |
| `Positioned.GiveGround` | internal/observe/positioned.go:35-57 | each protected person is given exactly the ground within reach of the place their position is taken for, and no one else any; exactly the protected vehicles are given their route, and those with no tunnels the spot they are at |
| `Positioned.PositionedIsBounded` | internal/observe/positioned.go:35-67 | the mine's own reading keeps what the planner's skip assumes: where people go along the tunnels at walking speed, the distance from everyone's reach to any point changes by at most the faster of the quickest unit and walking, both ways, over any lookahead |
| `Positioned.ViewsAreSteady` | internal/observe/views.go:9-22 | so whichever view intent judges by, the mine's or the truth, the planner's hypothesis holds |
| `Positioned.GroundKeepsPaceExactly` | internal/observe/positioned.go:35-57 | over any lookahead, the ground a person is given keeps within a bound of every point if and only if everywhere within their reach before is within the bound of somewhere within their reach after, and the other way about |
| `Positioned.StandingKeepsPaceExactly` | internal/observe/positioned.go:35-57 | with no lookahead, that is if and only if the place they are taken for does |
| `Pace.BoundedExactly` | internal/observe/observe.go:25-67 | for any reading of any units together, over every lookahead, the bound the skip needs holds if and only if what the reach goes through at either of two moments is no farther from what it goes through at the other than could have been moved |
| `Walkers.WalkersGoAlong` | internal/observe/positioned.go:35-57 | a person whose waypoints lie along legs and whose fastest leg is no faster than walking is taken, moment by moment, to go along the tunnels at walking speed, where legs meet only at junctions |
| `Walkers.TracksCover` | internal/observe/observe.go:25-41 | the truth's reach goes through everywhere each protected unit is over the lookahead |
| `Walkers.PositionedCovers` | internal/observe/observe.go:25-41 | and so does the mine's own, of people who walk tunnels there are |
| `Straying.SteppingAcrossIsUnbounded` | internal/observe/positioned.go:35-57 | an input on which it does not: someone off the tunnels, walking no faster than they may, for whom the nearest leg becomes another |
| `Straying.LookingAheadIsUnbounded` | internal/observe/positioned.go:35-57 | and one on which the place they are taken for keeps the pace and the ground fifty seconds ahead does not |
| `Surveyed.CutWay` | internal/mineplan/reach.go:60-84 | a way cut short at any distance leaves a place from which the straight line to its end is no longer than what is left |
| `Surveyed.CrowFlies` | internal/mineplan/reach.go:60-84 | no way along the tunnels is shorter than the straight line between its ends |
| `Surveyed.GroundFollows` | internal/mineplan/reach.go:60-84 | as someone moves along the tunnels, every place they can then reach is within that movement of one they could |
| `Surveyed.DrawnMeets` | internal/mineplan/reach.go:20-33 | a stretch drawn as a straight line comes as near to a point as some place on the stretch |
| `Surveyed.DrawnIsNearest` | internal/mineplan/reach.go:106-113 | and no place on the stretch is nearer |
| `Reach.NearestLeg` | internal/mineplan/reach.go:89-103 | the place is the nearest point of a leg no other comes nearer than, and the first met of those; there is none exactly when no leg is met |
| `Reach.NoLegAtAll` | internal/mineplan/reach.go:89-103 | which is only when there are no legs at all, although each is considered from one end |
| `Reach.Measured.constructor` | internal/mineplan/reach.go:48-54 | the distances kept are shortest from every junction |
| `Routes.RoutesFrom` | internal/mineplan/graph.go:125-152 | every distance is the length of a shortest walk, and absent only if there is no walk |
| `Routes.SettledIsShortest` | internal/mineplan/graph.go:125-152 | when every junction met is settled, no walk is shorter than the distance found |
| `Routes.To` | internal/mineplan/graph.go:155-168 | rebuilding a path ends, and gives the points of a real walk of the distance's length |
| `Tunnels.NewNetwork` | internal/mineplan/graph.go:30-60 | one junction for each point, and a leg between two if and only if some allowed tunnel joins them |
| `Tunnels.Builder.Node` | internal/mineplan/graph.go:51-60 | a point has one junction, found or made |
| `ClosureMap.ReadMap` | internal/usecase/closure.go:159-248 | ground dangerous, shut, missed and falsely shut is as measured by sets of instants; the peak is never less than what is shut at any moment, nor more than is at some moment with spans closed at both ends; each endangering event is reported with the first moment all its ground was shut, or that there was none |
| `ClosureMap.AccountsBalance` | internal/usecase/closure.go:195-207 | hazard less missed is closed less false, for every run |
| `ClosureMap.AllowanceOnlyWidens` | internal/usecase/closure.go:172-207 | a larger allowance never increases missed or decreases closed, and leaves hazard alone |
| `ClosureMap.ClosuresAreGoneBy` | internal/usecase/closure.go:262-286 | at every moment the zones drawn are exactly the zone of the location gone by |
| `ClosureMap.Gather` | internal/usecase/closure.go:172-192 | the loops leave with each sample the spans it was dangerous and shut for |
| `ClosureMap.Measure` | internal/usecase/closure.go:199-207 | a sample's four shares are the sizes of its sets of instants and of their differences |
| `Spans.MergeInPlace` | internal/usecase/closure.go:372-389 | merging in place keeps the covered instants and makes spans disjoint and in order |
| `Spans.JoinAllHolds` | internal/usecase/closure.go:372-389 | so does the fold it computes |
| `Spans.Length` | internal/usecase/closure.go:392-398 | total length is the number of instants covered |
| `Spans.Intersection` | internal/usecase/closure.go:401-415 | the two-pointer sweep gives the number of instants covered by both |
| `Spans.Covers` | internal/usecase/closure.go:418-425 | covers decides membership |
| `Spans.CompleteAfter` | internal/usecase/closure.go:290-313 | the least instant of the window at which all are closed, and none only if there is no such instant |
| `Peak.MostClosed` | internal/usecase/closure.go:429-442 | never less than what is closed at any moment, never more than is closed at some moment with spans closed at both ends |
| `Tracks.TracksAreBounded` | internal/observe/tracks.go:46-84 | the distance from the tracks' reach to any point changes by at most the fastest speed times the time, both ways, if simultaneous waypoints coincide: what the planner's skip assumes |
| `Tracks.WindowSlides` | internal/observe/tracks.go:46-57 | the nearest a unit comes over a sliding window changes no faster than it moves |
| `Tracks.RouteIsNearest` | internal/observe/tracks.go:46-57 | the route comes exactly as near any point as the unit does during the lookahead |
| `Tracks.NeverFaster` | internal/domain/entity.go:79-103 | between any two moments a unit moves at most its fastest leg's speed times the time |
| `Tracks.JumpIsUnbounded` | internal/observe/tracks.go:73-84 | an input on which the bound fails within a run: two waypoints at one moment in different places, met after the run began |
| `Jumps.SpeedBoundsExactly` | internal/domain/entity.go:79-103 | for a track in time order, from the start of a run a unit moves at most its fastest leg's speed times the time if and only if the first waypoint of every later moment is where the last is |
| `Jumps.ReachBoundsExactly` | internal/observe/tracks.go:46-84 | and the distance from its route to any point keeps that bound, over windows of any length, if and only if all waypoints of every later moment are one place |
| `Tracks.RouteFrom` | internal/observe/tracks.go:46-57 | the loop gives position, waypoints inside the lookahead, position |
| `Tracks.Fastest` | internal/observe/tracks.go:73-84 | the loop gives the greatest speed over all legs that take time |
| `Tracks.Reach` | internal/observe/tracks.go:26-35 | the loop gives the routes of the protected units |
| `TimeOrder.InTimeOrder` | internal/workload/generate.go:472-495 | events end in order of origin, ties as listed; event i's jobs are the run of its pick count from `FirstJob`, the very jobs it had, in the order they were, even with equal origins |
| `TimeOrder.SortGroups` | internal/workload/generate.go:472-495 | stably sorting jobs that come in groups stably sorts the groups and keeps each whole |
| `TimeOrder.OrderedJobs` | internal/workload/generate.go:472-495 | where each job of each event is afterwards |
| `TimeOrder.EventsInTurn` | internal/workload/generate.go:472-495 | the order of events is by origin, and by place for those of one moment |
| `Asked.CycleAsks` | internal/intent/planner.go:431-482 | after a cycle every unfinished pick of an event in hand is on record where settings put it for the state its event is then judged to be in: promoted, at the promote level if that is above its submitted one, exempt if promoted work is; decayed, at the decay level if that is below, exempt if decayed work is; otherwise at its submitted level, or lower where it was if work is not restored, exempt by the class that fits |
| `Asked.CycleLeaves` | internal/intent/planner.go:247-262 | the picks and the judgement of an event not in hand are left as they were |
| `Asked.CycleTells` | internal/intent/planner.go:431-482 | the updates are one for each request that changed and no others, with what it became, when, for which judgement, and whether the deadline restarts |
| `Asked.CycleAnnounces` | internal/intent/planner.go:416-428 | the changes of judgement announced are those that differ from what was on record, but for a first one that says nothing |
| `Asked.AssessedOn` | internal/intent/planner.go:366-396 | what an event is judged on: the truth under the truth arm, else its location, else its first sensor, no surer than the distance to the last of its first four; kept with intent off, unknown with nothing to go by |
| `Asked.JudgedBy` | internal/intent/planner.go:305-347 | promoted if and only if promoting is on and someone protected could be or was within what the promote level carries and the margin; decayed if and only if not promoted, decaying is on and no one could be or was within what the protect level carries and the margin |
| `Asked.NearestUnitIsFirstLeast` | internal/intent/planner.go:351-364 | the unit named is a nearest one and the first of those; none only when there are none |
| `Asked.ValuedIsNotDecayed` | internal/intent/planner.go:200-219 | the mine waits for the picks of events it has judged and neither decayed nor found nothing of |
| `Settled.SlackIsGreatest` | internal/intent/planner.go:322-341 | where a verdict may decay, for any more travel than the slack some distance within that travel is judged otherwise |
| `Updates.BatchOutcome` | internal/queue/queue.go:679-746 | of any job after any batch: its deadline runs from the time given if and only if it did already or some update found it waiting, changed its priority and asked for a restart, and otherwise from where it did; waiting, it has the priority and exemption of the last update that names it; it counts as reprioritised if and only if it did or some update moved it; nothing else of it is different |
| `Updates.NoRestartKeepsDeadlines` | internal/queue/queue.go:710-714 | a batch that asks for no restart moves no deadline |
| `Updates.BatchCounts` | internal/queue/queue.go:684-742 | those reported changed and too late are as many as the updates that change something and that find nothing waiting |
| `Intervals.IntervalOutcome` | internal/queue/queue.go:180-428 | job by job: a queue has after an interval what it had and what was due; each loses at most an interval of work, starts now if it waited and got any, is in breach from then on if and only if it had waited longer than its level allows, and is judged under the SLA it was submitted with once, when it starts |
| `Intervals.PeakIsDeepest` | internal/queue/queue.go:195-202 | over any run the peak is the greatest number of unfinished jobs there were at any interval, once everything due is in and before any is served |
| `Intervals.SubmitOutcome` | internal/queue/queue.go:215-240 | work is taken in as far as the first identity that is taken, each job dated now if it is late; with none taken, what is to come is in order of submission |
| `Snapshots.PictureTells` | internal/queue/queue.go:435-511 | each level is shown if someone waits or arrived there, with how many wait and the greatest time any has waited for; and so for each half |
| `Snapshots.RecentIsCount` | internal/queue/queue.go:557-570 | recent arrivals are the number of jobs submitted at the level since the cutoff |
| `Rhythm.SweepsWhenCalled` | internal/pipeline/trigger.go:97-246 | an interval sweeps if and only if some event can be grouped and its trigger calls for it, on the number of picks out, of picks out of valued events, of picks no sweep has grouped, and of picks finished in the last window; for a predicted clearing, picks out over picks finished per unit of time |
| `Rhythm.JustInTimeWaitsForValued` | internal/pipeline/trigger.go:135-165 | just in time, what can be grouped is swept once no valued event that has happened has a pick unfinished, whatever else is in flight, and until then only past a positive deadline |
| `Rhythm.WhenDrainedWaitsForAll` | internal/pipeline/trigger.go:115-133 | when drained, the same of every event |
| `Rhythm.CandidateHas` | internal/pipeline/pipeline.go:267-283 | an event can be grouped if and only if it happened within the window and has four picks finished and one no sweep has grouped |
| `Rhythm.SweepIsOfAll` | internal/pipeline/pipeline.go:245-264 | a sweep groups exactly the events that can be, costs as much as an empty one and as much again for each, and leaves nothing of them ungrouped |
| `Rhythm.OneLocateEach` | internal/pipeline/pipeline.go:287-299 | a finished sweep submits one locate for each event it grouped, in turn, dated now, at its stage's level |
| `Intake.IntervalTakesIn` | internal/pipeline/pipeline.go:185-227 | each pick that finishes is one more no sweep has grouped until its event is; an event is located, and said to be, in the interval its first locate finishes |
| `LocationRecord.ObserveOutcome` | internal/workload/catalogue.go:128-169 | of every event after any accepted batch: its picks are timed as they finished, it is processed in the batch that finishes its last, and unless solving is deferred it is solved from the picks then processed; events named are those touched, once |
| `LocationRecord.LocateOutcome` | internal/workload/catalogue.go:176-208 | of every event after any batch of locates: the named are solved from the picks processed, their first location standing and the final one being of all their picks; no other is touched |
| `LocationRecord.ObserveKeepsFinals` | internal/workload/catalogue.go:192-208 | a final location is always what the solver makes of all its event's picks, and where solving is not deferred an event has it as soon as they are processed |
| `LocationRecord.KnowsWhatIsLeft` | internal/workload/catalogue.go:103-112 | the planner is told the number of each event's picks not processed |
| `Cycles.LocatedFromWhatWasKnown` | internal/run/engine.go:313-337 | a locate that finishes solves from the picks known when the cycle began |
| `Cycles.CycleLocates` | internal/run/engine.go:303-337 | so a mine that defers solving first locates an event in the cycle its first locate finishes, and in no other |
| `Cycles.CycleSweeps` | internal/run/engine.go:303-323 | a cycle hands the queue a sweep if and only if there is something to group and the trigger calls for one, valued events being those judged promoted or kept the cycle before |
| `Cycles.RunEnds` | internal/run/engine.go:293-347 | a run is over at the first cycle past its duration that leaves nothing to come, waiting or running, and at no other |
| `Settings.PatchFollows` | internal/domain/intent.go:343-355 | a patch that is not blank gives exactly the usable settings each field of which is what it names, or what it was where it names none; it is refused if and only if it does not decode or there are none |
| `Settings.NothingNamedNothingChanged` | internal/domain/intent.go:343-355 | a blank patch changes nothing, and neither does one that names nothing |
| `Control.ChangeOutcome` | internal/intent/control.go:44-59 | a change is accepted if and only if its version is unnamed or current and its patch gives usable settings; accepted, those are in force at the next version under its author; refused, nothing is different |
| `ClosureMap.ShutExactly` | internal/usecase/closure.go:172-192 | a sample is shut at a moment if and only if the location gone by then for some event has a zone that, with the allowance, reaches it |
| `ClosureMap.DangerousExactly` | internal/usecase/closure.go:172-184 | and dangerous if and only if some event's window is running and its ground motion reaches it |
| `Tracks.TrackIsFollowed` | internal/domain/entity.go:79-103 | a unit is at each waypoint when its track says, stays at the first until then and the last from then on, and between two goes evenly along the line |
| `Tracks.KnownAre` | internal/observe/tracks.go:26-69 | the truth's reach and positions are of each protected unit with a track, once and in order: its own route, and where it is |
| `Tracks.SomeoneIsAsFast` | internal/observe/tracks.go:73-84 | the fastest speed is some unit's over some leg, or none |

## Left out

- HTTP, Postgres, JSON, configuration, process start-up and the autoscaler: capacity is an arbitrary number each cycle.
- The event bus and the run manager: thin locking around maps and channels.
- Randomness and generation: job durations are a function of identity, and mines, tunnels, magnitudes and rates are inputs.
- The seismic solver, hazard powers and the crossing of spheres are opaque functions; a location never changes once set, and a reach is a fixed radius for each sighting.
- Rounding: floating-point error, the tolerance of 1e-9 (taken as 0), coordinates rounded in tracks, junctions keyed by formatted text (a point is its own key here), conversions between durations and seconds.
- Jobs are held by identity in a map rather than by pointer; a level is a sequence of identities, so aliasing of queued items is not captured.
- Jobs of zero seconds, which block their level (`internal/queue/queue.go:334-336`): every job takes some time.
- Waits, percentiles, shares of the closure summary, the counts by submitted priority and of decayed and promoted waiting jobs, oracle and provenance reports: statistics over the state that is modelled.
- Reason strings and validation messages; validity is a predicate.
- An operator's patch is a record of given fields, not JSON text.
- The intent transitions kept on catalogue events (`internal/workload/catalogue.go:116-119`).
- The log and the workflow's stages submitting at one level: `Admission.OrderKeptExactly` gives the exact condition instead.
- Events with no picks keep the first job they had through the ordering of a workload, so nothing is said of it.
- The limit on cycles and cancellation: a run is followed for as many cycles as it is given.
- Failure of a planned change ends a run; what such a run had done by then is not described.
- Connected components and the other uses of the network (`internal/mineplan/graph.go:76-110`).
- Sampling of tunnels for the closure map is an input (`internal/usecase/closure.go:318-338`); the library's sorts are modelled as one stable insertion sort.
- Positioned.PositionedIsBounded: takes people's places to move along the tunnels; `Walkers.WalkersGoAlong` has them do so for tracks exactly along legs, and how far off them rounding a track puts someone is not bounded.
- Walkers.PositionedCovers: is of a mine with tunnels; with none a person is given only the spot they are at, and the reach does not cover where they go.
- Jumps.ReachBoundsExactly: is of one unit, at any real time, in a metric that tells points apart; several units can hide each other's jumps, and `Pace.BoundedExactly` is of all of them together.
- A negative lookahead: settings that have one are refused (`internal/domain/intent.go:195-235`), and what a reach is for one is taken to be what it is for none.
- Settled.SkippingIsExact: takes an unchanged position to mean an unchanged basis except in the one case it names, as locations do not change once set.
