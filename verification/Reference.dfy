/** The planner that judges every open event every cycle and remembers only what it must:
    each event's last judgement, and what it last asked for every job. It keeps no slack,
    no generations, no cached strikes and no count of altered jobs. The planner of
    internal/intent/planner.go is proved to decide exactly what this one decides. */
module Reference {
  import opened Basics
  import opened Settings
  import opened Observe
  import opened Orchestrator

  // ---------- What a planner is given ----------

  datatype Basis = NoBasis | FromLocation | FromSensors | FromTruth | FromOff

  datatype Sighting = Sighting(at: Point, magnitude: real, uncertainty: real, basis: Basis)

  datatype EventWork = EventWork(origin: Time, first: JobId, picks: nat, triggers: seq<Point>)

  datatype Location = Location(at: Point, magnitude: Option<real>)

  /** Everything about a run the planner is handed once. `hazard` gives the radius of a
      level for a magnitude and an uncertainty; None where the level is not met anywhere. */
  datatype Site = Site(
    priorities: seq<Priority>,
    events: seq<EventWork>,
    truths: seq<Sighting>,
    metric: Metric,
    hazard: (real, real, HazardLevel) -> Option<real>,
    mine: Whereabouts,
    oracle: Whereabouts)
  {
    function Speed(): real { MaxReal(mine.speed, oracle.speed) }

    function View(knowledge: Knowledge): Whereabouts
    {
      if knowledge.Truth? then oracle else mine
    }

    /** Events come in origin order and own disjoint runs of jobs, as a generated
        workload's do. */
    ghost predicate WellFormed()
    {
      && (forall i, j :: 0 <= i < j < |events| ==> events[i].origin <= events[j].origin)
      && (forall i :: 0 <= i < |events| ==> 0 <= events[i].first && events[i].first + events[i].picks <= |priorities|)
      && (forall i, j :: 0 <= i < j < |events| ==> Apart(events[i], events[j]))
    }

    /** Whatever knowledge the settings choose, no reach moves faster than Speed. */
    ghost predicate Steady()
    {
      Bounded(metric, mine, Speed()) && Bounded(metric, oracle, Speed())
    }
  }

  /** Two events with no job in common. */
  predicate Apart(a: EventWork, b: EventWork)
  {
    a.first + a.picks <= b.first || b.first + b.picks <= a.first
  }

  /** What the mine knows of its events' work at one moment. */
  datatype Catalogue = Catalogue(remaining: seq<nat>, location: seq<Option<Location>>, finished: seq<bool>) {
    predicate For(site: Site)
    {
      && |remaining| == |site.events|
      && |location| == |site.events|
      && |finished| == |site.priorities|
    }

    /** Progress only: finished work stays finished, and a location, once made, stands. */
    ghost predicate Follows(earlier: Catalogue)
    {
      && |remaining| == |earlier.remaining|
      && |location| == |earlier.location|
      && |finished| == |earlier.finished|
      && (forall k :: 0 <= k < |finished| && earlier.finished[k] ==> finished[k])
      && (forall i :: 0 <= i < |location| && earlier.location[i].Some? ==> location[i] == earlier.location[i])
    }

    /** No event is located exactly at the first sensor that heard it. */
    ghost predicate OffSensors(site: Site)
      requires For(site)
    {
      forall i :: 0 <= i < |location| && location[i].Some? && |site.events[i].triggers| > 0 ==>
                    location[i].value.at != site.events[i].triggers[0]
    }
  }

  // ---------- What it says ----------

  datatype Transition = Transition(
    at: Time, state: EventState, basis: Basis, entity: string, distance: real, reach: real)

  datatype Change = Change(event: nat, transition: Transition)

  datatype Plan = Plan(updates: seq<Update>, transitions: seq<Change>) {
    function Then(next: Plan): Plan
    {
      Plan(updates + next.updates, transitions + next.transitions)
    }
  }

  const NOTHING := Plan([], [])

  // ---------- Judging one event ----------

  /** What is known of event i, under the knowledge the settings choose. */
  function Sight(site: Site, s: Intent, cat: Catalogue, i: nat): Option<Sighting>
    requires i < |site.events| && cat.For(site)
  {
    if s.knowledge.Truth? then
      if i < |site.truths| then Some(site.truths[i]) else None
    else if cat.location[i].Some? then
      var location := cat.location[i].value;
      var magnitude := if location.magnitude.Some? then location.magnitude.value else s.preLocationMagnitude;
      Some(Sighting(location.at, magnitude, s.locationUncertainty, FromLocation))
    else
      var triggers := site.events[i].triggers;
      if !s.preLocation || |triggers| == 0 then None
      else
        var spread := site.metric.gap(triggers[0], triggers[Min(MINIMUM_PICKS, |triggers|) - 1]);
        Some(Sighting(triggers[0], s.preLocationMagnitude, MaxReal(s.locationUncertainty, spread), FromSensors))
  }

  /** The protected unit nearest a point among positions, the first on a tie. */
  function NearestUnit(m: Metric, units: seq<Position>, from: Point): Option<Close>
  {
    if |units| == 0 then None
    else
      var n := |units|;
      var before := NearestUnit(m, units[..n - 1], from);
      var d := m.gap(units[n - 1].at, from);
      if Nearer(Some(d), Distance(before)) then Some(Close(units[n - 1].entity, d)) else before
  }

  /** Who was nearest event i when it happened, taken to be at `from`. */
  function Strike(site: Site, s: Intent, i: nat, from: Point): Option<Close>
    requires i < |site.events|
  {
    NearestUnit(site.metric, site.View(s.knowledge).positions(site.events[i].origin, s.protect), from)
  }

  /** The nearer of two, the first on a tie. */
  function Nearby(a: Option<Close>, b: Option<Close>): Option<Close>
  {
    if Nearer(Distance(b), Distance(a)) then b else a
  }

  /** Who threatens to be, or was, nearest event i at a moment. */
  function Threat(site: Site, s: Intent, i: nat, from: Point, at: Time): Option<Close>
    requires i < |site.events|
  {
    Nearby(NearestOf(site.metric, site.View(s.knowledge).reach(at, s.lookahead, s.protect), from),
           Strike(site, s, i, from))
  }

  /** How far a level carries from a sighting, widened by the margin. */
  function ReachOf(site: Site, s: Intent, sighting: Sighting, level: HazardLevel): Option<real>
  {
    var radius := site.hazard(sighting.magnitude, sighting.uncertainty, level);
    if radius.Some? then Some(radius.value + s.margin) else None
  }

  /** The judgement, from the two boundaries and the nearest distance alone. */
  function Verdict(mode: Mode, promote: Option<real>, protect: Option<real>, d: Option<real>): EventState
  {
    if mode.Promotes() && promote.Some? && d.Some? && d.value <= promote.value then Promoted
    else if mode.Decays() && (d.None? || protect.None? || d.value > protect.value) then Decayed
    else Kept
  }

  function Judge(site: Site, s: Intent, i: nat, sighting: Sighting, at: Time): Transition
    requires i < |site.events|
  {
    var near := Threat(site, s, i, sighting.at, at);
    var promote := ReachOf(site, s, sighting, s.promoteLevel);
    var protect := ReachOf(site, s, sighting, s.protectLevel);
    var state := Verdict(s.mode, promote, protect, Distance(near));
    Transition(at, state, sighting.basis,
               if near.Some? then near.value.entity else "",
               if near.Some? then near.value.distance else 0.0,
               if state.Promoted? then promote.value else if protect.Some? then protect.value else 0.0)
  }

  /** The transition an event is judged to make at a moment. */
  function Assess(site: Site, s: Intent, cat: Catalogue, i: nat, at: Time): Transition
    requires i < |site.events| && cat.For(site)
  {
    if s.mode.Off? then Transition(at, Kept, FromOff, "", 0.0, 0.0)
    else
      var sighting := Sight(site, s, cat, i);
      if sighting.None? then Transition(at, Unknown, NoBasis, "", 0.0, 0.0)
      else Judge(site, s, i, sighting.value, at)
  }

  datatype Judged = Judged(state: EventState, basis: Basis)

  /** What a change of judgement is announced as. A first judgement that says nothing
      is not announced. */
  function Announce(last: Judged, i: nat, t: Transition): seq<Change>
  {
    if t.state == last.state && t.basis == last.basis then []
    else if last.state.Unset? && (t.state.Unknown? || t.basis.FromOff?) then []
    else [Change(i, t)]
  }

  // ---------- Asking for jobs to move ----------

  datatype Request = Request(priority: Priority, exempt: bool, moved: bool) {
    predicate Displaces(submitted: Priority) { priority != submitted || exempt }
  }

  /** What a job of an event in this state is wanted to be, given what it was last
      asked to be. */
  function Want(s: Intent, state: EventState, submitted: Priority, have: Request): Request
  {
    var (priority, class_) :=
      if state.Decayed? && s.decayTo < submitted then (s.decayTo, Some(ClassDecayed))
      else if state.Promoted? && s.promoteTo > submitted then (s.promoteTo, Some(ClassPromoted))
      else if !s.restore && !s.mode.Off? && have.priority < submitted then (have.priority, Some(ClassDecayed))
      else if have.moved && !s.mode.Off? then (submitted, Some(ClassRestored))
      else (submitted, None);
    Request(priority, class_.Some? && s.Exempts(class_.value), have.moved || priority != submitted)
  }

  /** What is asked for the picks of event i from the k-th on. */
  function Ask(site: Site, s: Intent, cat: Catalogue, i: nat, at: Time, state: EventState,
               requested: seq<Request>, k: nat): (r: (seq<Request>, seq<Update>))
    requires i < |site.events| && cat.For(site) && |requested| == |site.priorities|
    requires 0 <= site.events[i].first && site.events[i].first + site.events[i].picks <= |site.priorities|
    requires k <= site.events[i].picks
    ensures |r.0| == |requested|
    decreases site.events[i].picks - k
  {
    if k == site.events[i].picks then (requested, [])
    else
      var id := site.events[i].first + k;
      var want := Want(s, state, site.priorities[id], requested[id]);
      if cat.finished[id] || want == requested[id] then
        Ask(site, s, cat, i, at, state, requested, k + 1)
      else
        var update := Update(at, id, want.priority, state, s.deadlineFrom.FromChange?, want.exempt);
        var (after, rest) := Ask(site, s, cat, i, at, state, requested[id := want], k + 1);
        (after, [update] + rest)
  }

  // ---------- A cycle ----------

  datatype Memory = Memory(settings: Intent, next: nat, open: seq<nat>, judged: seq<Judged>, requested: seq<Request>) {
    ghost predicate For(site: Site)
    {
      && next <= |site.events|
      && |judged| == |site.events|
      && |requested| == |site.priorities|
      && (forall j :: 0 <= j < |open| ==> open[j] < next)
      && Ascending(open)
    }
  }

  /** Which events are judged worth the wait for their picks. */
  function ValuedBy(m: Memory): nat -> bool
  {
    (i: nat) => i < |m.judged| && (m.judged[i].state.Promoted? || m.judged[i].state.Kept?)
  }

  ghost predicate Ascending(s: seq<nat>)
  {
    forall j, k :: 0 <= j < k < |s| ==> s[j] < s[k]
  }

  function Fresh(site: Site, settings: Intent): Memory
  {
    Memory(settings, 0, [], seq(|site.events|, _ => Judged(Unset, NoBasis)),
           seq(|site.priorities|, id requires 0 <= id < |site.priorities| => Request(site.priorities[id], false, false)))
  }

  /** The first event that has not happened by `at`. */
  function NextAfter(events: seq<EventWork>, next: nat, at: Time): (r: nat)
    requires next <= |events|
    ensures next <= r <= |events|
    ensures forall i :: next <= i < r ==> events[i].origin <= at
    ensures r < |events| ==> events[r].origin > at
    decreases |events| - next
  {
    if next < |events| && events[next].origin <= at then NextAfter(events, next + 1, at) else next
  }

  /** The indices from a up to b. */
  function Range(a: nat, b: nat): (r: seq<nat>)
    requires a <= b
    ensures |r| == b - a
    ensures forall k :: 0 <= k < |r| ==> r[k] == a + k
  {
    seq(b - a, k requires 0 <= k => a + k)
  }

  /** One event judged and asked about. */
  function Step(site: Site, m: Memory, cat: Catalogue, at: Time, i: nat): (Memory, Plan)
    requires site.WellFormed() && cat.For(site) && m.For(site) && i < |site.events|
  {
    var t := Assess(site, m.settings, cat, i, at);
    var (requested, updates) := Ask(site, m.settings, cat, i, at, t.state, m.requested, 0);
    (m.(judged := m.judged[i := Judged(t.state, t.basis)], requested := requested),
     Plan(updates, Announce(m.judged[i], i, t)))
  }

  /** The open events in turn; one with no work left is passed over. */
  function Steps(site: Site, m: Memory, cat: Catalogue, at: Time, todo: seq<nat>): (r: (Memory, Plan))
    requires site.WellFormed() && cat.For(site) && m.For(site)
    requires forall j :: 0 <= j < |todo| ==> todo[j] < |site.events|
    ensures r.0.For(site) && r.0.open == m.open && r.0.next == m.next && r.0.settings == m.settings
    decreases |todo|
  {
    if todo == [] then (m, NOTHING)
    else if cat.remaining[todo[0]] == 0 then Steps(site, m, cat, at, todo[1..])
    else
      var (m1, first) := Step(site, m, cat, at, todo[0]);
      var (m2, rest) := Steps(site, m1, cat, at, todo[1..]);
      (m2, first.Then(rest))
  }

  /** The events that still have work. */
  function StillOpen(cat: Catalogue, open: seq<nat>): (r: seq<nat>)
    requires forall j :: 0 <= j < |open| ==> open[j] < |cat.remaining|
    ensures forall j :: 0 <= j < |r| ==> r[j] in open && cat.remaining[r[j]] != 0
    ensures forall i :: i in open && cat.remaining[i] != 0 ==> i in r
  {
    if open == [] then []
    else (if cat.remaining[open[0]] == 0 then [] else [open[0]]) + StillOpen(cat, open[1..])
  }

  lemma {:induction false} StillOpenAscends(cat: Catalogue, open: seq<nat>)
    requires forall j :: 0 <= j < |open| ==> open[j] < |cat.remaining|
    requires Ascending(open)
    ensures Ascending(StillOpen(cat, open))
  {
    if open != [] {
      assert forall j :: 0 <= j < |open[1..]| ==> open[1..][j] == open[j + 1];
      StillOpenAscends(cat, open[1..]);
      var rest := StillOpen(cat, open[1..]);
      forall k | 0 <= k < |rest| ensures open[0] < rest[k] {
        assert rest[k] in open[1..];
      }
    }
  }

  /** Memory with every event that has happened by `at` open. */
  function Opened(site: Site, m: Memory, at: Time): (r: Memory)
    requires m.For(site)
    ensures r.For(site)
  {
    var next := NextAfter(site.events, m.next, at);
    m.(next := next, open := m.open + Range(m.next, next))
  }

  /** One cycle: events that have happened open, each open one is judged, each with no
      work left is forgotten. */
  function Cycle(site: Site, m: Memory, cat: Catalogue, at: Time): (r: (Memory, Plan))
    requires site.WellFormed() && cat.For(site) && m.For(site)
    ensures r.0.For(site)
  {
    var ready := Opened(site, m, at);
    var (after, plan) := Steps(site, ready, cat, at, ready.open);
    StillOpenAscends(cat, ready.open);
    (after.(open := StillOpen(cat, ready.open)), plan)
  }

  // ---------- A whole run ----------

  datatype Input = Configure(settings: Intent) | PlanAt(at: Time, catalogue: Catalogue)

  /** Inputs as a run makes them: time never goes back, and work only progresses. */
  ghost predicate Legal(site: Site, inputs: seq<Input>, clock: Time, seen: Catalogue)
  {
    inputs != [] ==>
      match inputs[0]
      case Configure(_) => Legal(site, inputs[1..], clock, seen)
      case PlanAt(at, cat) =>
        && at >= clock
        && cat.For(site)
        && cat.Follows(seen)
        && cat.OffSensors(site)
        && Legal(site, inputs[1..], at, cat)
  }

  /** Every plan the reference planner makes over a run. */
  function Run(site: Site, m: Memory, inputs: seq<Input>): seq<Plan>
    requires site.WellFormed() && m.For(site)
    requires forall k :: 0 <= k < |inputs| && inputs[k].PlanAt? ==> inputs[k].catalogue.For(site)
    decreases |inputs|
  {
    if inputs == [] then []
    else
      match inputs[0]
      case Configure(settings) => Run(site, m.(settings := settings), inputs[1..])
      case PlanAt(at, cat) =>
        var (next, plan) := Cycle(site, m, cat, at);
        [plan] + Run(site, next, inputs[1..])
  }
}
