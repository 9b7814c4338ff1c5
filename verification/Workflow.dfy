/** The mine's own workflow as a value: pick, associate, locate. internal/pipeline/pipeline.go. */
module Workflow {
  import opened Basics
  import opened Work
  import opened Triggers

  // ---------- What a mine runs ----------

  datatype LocateStage = LocateStage(priority: Priority, seconds: Effort)

  /** An associate sweep costs more the more it emits. */
  datatype Sweep = Sweep(priority: Priority, seconds: Effort, perLocate: Effort) {
    function Cost(locates: nat): Effort
    {
      seconds + perLocate * locates
    }
  }

  datatype FlowPlan = FlowPlan(trigger: Trigger, window: Time, associate: Sweep, locate: LocateStage)

  /** An event as the workflow sees it: its picks are the jobs from its first on. */
  datatype Happening = Happening(origin: Time, firstJob: JobId, picks: nat)

  /** How the mine's workflow is set up. The duration drawn for each locate is a function of its
      identity. */
  datatype Setup = Setup(plan: FlowPlan, events: seq<Happening>, drawn: JobId -> Effort)

  // ---------- What it knows ----------

  datatype Tally = Tally(processed: nat, unswept: nat, located: bool)

  datatype Issued = Issued(stage: Stage, events: seq<nat>)

  datatype Flow = Flow(
    tallies: seq<Tally>,
    next: JobId,
    issued: map<JobId, Issued>,
    done: set<JobId>,
    lastSweep: Time, swept: bool,
    completions: seq<Time>)

  datatype FlowStep = FlowStep(submit: seq<Job>, associate: bool, located: seq<nat>, picks: seq<JobId>) {
    function Then(more: FlowStep): FlowStep
    {
      FlowStep(submit + more.submit, associate || more.associate, located + more.located, picks + more.picks)
    }
  }

  const NO_STEP := FlowStep([], false, [], [])

  /** The window the rate picks complete at is measured over. */
  const DRAIN_WINDOW := 300 * SECOND

  function Started(events: seq<Happening>, next: JobId): Flow
  {
    Flow(seq(|events|, _ => Tally(0, 0, false)), next, map[], {}, 0, false, [])
  }

  // ---------- What finished ----------

  /** The event whose pick a job is, if it is anyone's: the last to begin at or before it. */
  function LastFrom(events: seq<Happening>, id: JobId): int
  {
    if events == [] then -1
    else if events[|events| - 1].firstJob <= id then |events| - 1
    else LastFrom(events[..|events| - 1], id)
  }

  lemma {:induction false} LastFromHolds(events: seq<Happening>, id: JobId)
    ensures -1 <= LastFrom(events, id) < |events|
    ensures LastFrom(events, id) >= 0 ==> events[LastFrom(events, id)].firstJob <= id
    ensures forall i :: LastFrom(events, id) < i < |events| ==> events[i].firstJob > id
  {
    if events != [] && events[|events| - 1].firstJob > id {
      LastFromHolds(events[..|events| - 1], id);
    }
  }

  function PickOf(events: seq<Happening>, id: JobId): (r: Option<nat>)
    ensures r.Some? ==> r.value < |events|
  {
    var i := LastFrom(events, id);
    LastFromHolds(events, id);
    if i < 0 || id >= events[i].firstJob + events[i].picks then None else Some(i)
  }

  /** A job given its identity, and remembered for what it is for. */
  function Issue(f: Flow, job: Job, events: seq<nat>): (Flow, Job)
  {
    (f.(next := f.next + 1, issued := f.issued[f.next := Issued(job.stage, events)]), job.(id := f.next))
  }

  /** The work a finishing sweep submits: a locate for each event it grouped. */
  function Locates(w: Setup, f: Flow, at: Time, events: seq<nat>): (Flow, seq<Job>)
    decreases |events|
  {
    if events == [] then (f, [])
    else
      var job := Job(0, at, w.plan.locate.priority, w.drawn(f.next), events[0], StageLocate);
      var (f1, first) := Issue(f, job, [events[0]]);
      var (f2, rest) := Locates(w, f1, at, events[1..]);
      (f2, [first] + rest)
  }

  /** Events marked as located, the first time each is. */
  function MarkLocated(tallies: seq<Tally>, events: seq<nat>): (r: (seq<Tally>, seq<nat>))
    requires forall k :: 0 <= k < |events| ==> events[k] < |tallies|
    decreases |events|
  {
    if events == [] then (tallies, [])
    else
      var i := events[0];
      var first := !tallies[i].located;
      var (after, rest) := MarkLocated(tallies[i := tallies[i].(located := true)], events[1..]);
      (after, (if first then [i] else []) + rest)
  }

  /** Everything the flow has in hand concerns an event it knows. */
  predicate Indexed(w: Setup, f: Flow)
  {
    && |f.tallies| == |w.events|
    && forall id :: id in f.issued ==> forall k :: 0 <= k < |f.issued[id].events| ==> f.issued[id].events[k] < |w.events|
  }

  /** One finished job taken in, or refused: nothing finishes twice, and nothing finishes that
      is neither a pick nor work of the flow's own. */
  function Take(w: Setup, f: Flow, at: Time, id: JobId): (Flow, Result<FlowStep>)
    requires Indexed(w, f)
  {
    if id in f.done then (f, Err)
    else
      var known := f.(done := f.done + {id});
      if id in f.issued && f.issued[id].stage == StageAssociate then
        var (f1, jobs) := Locates(w, known, at, f.issued[id].events);
        (f1, Ok(NO_STEP.(submit := jobs)))
      else if id in f.issued && f.issued[id].stage == StageLocate then
        var (tallies, located) := MarkLocated(f.tallies, f.issued[id].events);
        (known.(tallies := tallies), Ok(NO_STEP.(located := located)))
      else
        match PickOf(w.events, id)
        case None => (known, Err)
        case Some(i) =>
          var t := f.tallies[i];
          (known.(tallies := f.tallies[i := t.(processed := t.processed + 1, unswept := t.unswept + 1)],
                  completions := f.completions + [at]),
           Ok(NO_STEP.(picks := [id])))
  }

  lemma {:induction false} LocatesKeepIndexed(w: Setup, f: Flow, at: Time, events: seq<nat>)
    requires Indexed(w, f) && forall k :: 0 <= k < |events| ==> events[k] < |w.events|
    ensures Indexed(w, Locates(w, f, at, events).0)
    decreases |events|
  {
    if events != [] {
      var job := Job(0, at, w.plan.locate.priority, w.drawn(f.next), events[0], StageLocate);
      LocatesKeepIndexed(w, Issue(f, job, [events[0]]).0, at, events[1..]);
    }
  }

  lemma {:induction false} MarkLocatedKeeps(tallies: seq<Tally>, events: seq<nat>)
    requires forall k :: 0 <= k < |events| ==> events[k] < |tallies|
    ensures var (after, located) := MarkLocated(tallies, events);
            && |after| == |tallies|
            && (forall i :: 0 <= i < |tallies| ==> after[i] == tallies[i].(located := tallies[i].located || i in events))
            && (forall k :: 0 <= k < |located| ==> located[k] in events && !tallies[located[k]].located)
            && (forall k, l :: 0 <= k < l < |located| ==> located[k] != located[l])
    decreases |events|
  {
    if events != [] {
      var i, next := events[0], tallies[events[0] := tallies[events[0]].(located := true)];
      MarkLocatedKeeps(next, events[1..]);
      var located := MarkLocated(next, events[1..]).1;
      assert events == [i] + events[1..];
      forall k | 0 <= k < |located| ensures located[k] != i && !tallies[located[k]].located {
        assert !next[located[k]].located;
      }
    }
  }

  lemma TakeKeepsIndexed(w: Setup, f: Flow, at: Time, id: JobId)
    requires Indexed(w, f)
    ensures Indexed(w, Take(w, f, at, id).0)
  {
    if id !in f.done {
      var known := f.(done := f.done + {id});
      if id in f.issued && f.issued[id].stage == StageAssociate {
        LocatesKeepIndexed(w, known, at, f.issued[id].events);
      } else if id in f.issued && f.issued[id].stage == StageLocate {
        MarkLocatedKeeps(f.tallies, f.issued[id].events);
      }
    }
  }

  /** What finished in an interval taken in, in turn, as far as the first refused. */
  function TakeAll(w: Setup, f: Flow, at: Time, finished: seq<JobId>): (Flow, Result<FlowStep>)
    requires Indexed(w, f)
    decreases |finished|
  {
    if finished == [] then (f, Ok(NO_STEP))
    else
      var (f1, first) := Take(w, f, at, finished[0]);
      TakeKeepsIndexed(w, f, at, finished[0]);
      if first.Err? then (f1, Err)
      else
        var (f2, rest) := TakeAll(w, f1, at, finished[1..]);
        (f2, if rest.Err? then Err else Ok(first.value.Then(rest.value)))
  }

  // ---------- Sweeping ----------

  predicate InWindow(w: Setup, at: Time, e: Happening) { e.origin <= at && at - e.origin <= w.plan.window }

  /** Whether a sweep now would locate an event: in the window, with the picks to solve for it,
      and with something new since it was last grouped. */
  predicate Candidate(w: Setup, f: Flow, at: Time, i: nat)
    requires |f.tallies| == |w.events|
  {
    && i < |w.events| && InWindow(w, at, w.events[i])
    && f.tallies[i].unswept > 0 && f.tallies[i].processed >= MINIMUM_PICKS
  }

  /** The events among the first n a sweep now would locate, in order. */
  function Candidates(w: Setup, f: Flow, at: Time, n: nat): (r: seq<nat>)
    requires |f.tallies| == |w.events|
  {
    if n == 0 then []
    else Candidates(w, f, at, n - 1) + if Candidate(w, f, at, n - 1) then [n - 1] else []
  }

  lemma {:induction false} CandidatesHold(w: Setup, f: Flow, at: Time, n: nat)
    requires |f.tallies| == |w.events|
    ensures var r := Candidates(w, f, at, n);
            && (forall i: nat :: i in r <==> i < n && Candidate(w, f, at, i))
            && (forall k, l :: 0 <= k < l < |r| ==> r[k] < r[l])
            && (forall k :: 0 <= k < |r| ==> r[k] < n && r[k] < |w.events|)
  {
    if n > 0 {
      CandidatesHold(w, f, at, n - 1);
      var r := Candidates(w, f, at, n - 1);
      assert forall k :: 0 <= k < |r| ==> r[k] in r;
      forall i: nat ensures i in Candidates(w, f, at, n) <==> i < n && Candidate(w, f, at, i) {
        assert i in Candidates(w, f, at, n) <==> i in r || (i == n - 1 && Candidate(w, f, at, n - 1));
      }
    }
  }

  function Emptied(tallies: seq<Tally>, events: seq<nat>): (r: seq<Tally>)
    ensures |r| == |tallies|
    ensures forall i :: 0 <= i < |r| ==> r[i] == if i in events then tallies[i].(unswept := 0) else tallies[i]
  {
    seq(|tallies|, i requires 0 <= i < |tallies| => if i in events then tallies[i].(unswept := 0) else tallies[i])
  }

  /** A sweep of everything it would group, if there is anything. */
  function SweepNow(w: Setup, f: Flow, at: Time): (Flow, seq<Job>)
    requires |f.tallies| == |w.events|
  {
    var group := Candidates(w, f, at, |w.events|);
    if group == [] then (f, [])
    else
      var begun := f.(tallies := Emptied(f.tallies, group), lastSweep := at, swept := true);
      var (r, job) := Issue(begun, Job(0, at, w.plan.associate.priority, w.plan.associate.Cost(|group|), NO_EVENT, StageAssociate), group);
      (r, [job])
  }

  // ---------- Deciding ----------

  /** Picks in flight, of events that have happened. */
  function Pending(w: Setup, f: Flow, at: Time, chosen: nat -> bool, n: nat): int
    requires n <= |f.tallies| == |w.events|
  {
    if n == 0 then 0
    else
      var e := w.events[n - 1];
      Pending(w, f, at, chosen, n - 1) +
      if e.origin <= at && chosen(n - 1) then e.picks - f.tallies[n - 1].processed else 0
  }

  /** Picks processed that no sweep has grouped, of events in the window. */
  function ReadyPicks(w: Setup, f: Flow, at: Time, n: nat): nat
    requires n <= |f.tallies| == |w.events|
  {
    if n == 0 then 0
    else ReadyPicks(w, f, at, n - 1) + if InWindow(w, at, w.events[n - 1]) then f.tallies[n - 1].unswept else 0
  }

  /** Completions no older than a cutoff; they are in order. */
  function Lately(completions: seq<Time>, cutoff: Time): seq<Time>
  {
    if completions != [] && completions[0] < cutoff then Lately(completions[1..], cutoff) else completions
  }

  function Rate(count: nat, at: Time): real
  {
    var over := Min(at, DRAIN_WINDOW);
    if over <= 0 || count == 0 then 0.0 else count as real / over as real
  }

  function SinceLast(f: Flow, at: Time): Time { if f.swept then at - f.lastSweep else at }

  /** What the mine can see of its own pipeline. */
  function Observe(w: Setup, f: Flow, at: Time, valued: nat -> bool): Observation
    requires |f.tallies| == |w.events|
  {
    Observation(Pending(w, f, at, _ => true, |w.events|), ReadyPicks(w, f, at, |w.events|),
                Pending(w, f, at, valued, |w.events|), Rate(|Lately(f.completions, at - DRAIN_WINDOW)|, at), SinceLast(f, at))
  }

  /** An interval of the workflow: what finished is taken in, and a sweep is decided on. */
  function AdvanceFlow(w: Setup, f: Flow, at: Time, finished: seq<JobId>, valued: nat -> bool): (Flow, Result<FlowStep>)
    requires Indexed(w, f)
  {
    var (taken, step) := TakeAll(w, f, at, finished);
    TakeAllKeepsIndexed(w, f, at, finished);
    if step.Err? then (taken, Err)
    else
      var ready := taken.(completions := Lately(taken.completions, at - DRAIN_WINDOW));
      var sweep := Decide(w.plan.trigger, Observe(w, taken, at, valued));
      var (after, jobs) := if sweep then SweepNow(w, ready, at) else (ready, []);
      (after, Ok(step.value.Then(FlowStep(jobs, sweep, [], []))))
  }

  lemma {:induction false} TakeAllKeepsIndexed(w: Setup, f: Flow, at: Time, finished: seq<JobId>)
    requires Indexed(w, f)
    ensures Indexed(w, TakeAll(w, f, at, finished).0)
    decreases |finished|
  {
    if finished != [] {
      TakeKeepsIndexed(w, f, at, finished[0]);
      if Take(w, f, at, finished[0]).1.Ok? {
        TakeAllKeepsIndexed(w, Take(w, f, at, finished[0]).0, at, finished[1..]);
      }
    }
  }
}
