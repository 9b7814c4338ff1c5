/** The mine's intent as it runs: internal/intent/planner.go. It skips judgements that
    cannot have changed, asks once per state and settings, measures each strike once per
    position, and does nothing when intent is off and nothing is altered. Every method is
    proved against the reference planner, which does none of that. */
module Planner {
  import opened Basics
  import opened Settings
  import opened Observe
  import opened Orchestrator
  import opened Reference
  import opened Settled

  datatype Judgement = Judgement(
    state: EventState, basis: Basis, at: Time, slack: Slack, from: Point, asked: EventState, generation: nat)

  datatype Struck = Struck(measured: bool, from: Point, hit: Option<Close>)

  const ORIGIN := Point(0.0, 0.0, 0.0)

  // ---------- Counting what is altered ----------

  /** One past the last of an event's jobs. */
  function EndOf(event: EventWork): JobId { event.first + event.picks }

  function Bit(b: bool): nat { if b then 1 else 0 }

  /** How many of event i's picks, from the k-th on, are asked to be elsewhere. */
  function DisplacedIn(site: Site, requested: seq<Request>, i: nat, k: nat): nat
    requires site.WellFormed() && i < |site.events| && |requested| == |site.priorities| && k <= site.events[i].picks
    decreases site.events[i].picks - k
  {
    if k == site.events[i].picks then 0
    else
      var id := site.events[i].first + k;
      Bit(requested[id].Displaces(site.priorities[id])) + DisplacedIn(site, requested, i, k + 1)
  }

  function Altered(site: Site, requested: seq<Request>, open: seq<nat>): nat
    requires site.WellFormed() && |requested| == |site.priorities|
    requires forall j :: 0 <= j < |open| ==> open[j] < |site.events|
  {
    if open == [] then 0 else DisplacedIn(site, requested, open[0], 0) + Altered(site, requested, open[1..])
  }

  lemma {:induction false} AlteredJoins(site: Site, requested: seq<Request>, a: seq<nat>, b: seq<nat>)
    requires site.WellFormed() && |requested| == |site.priorities|
    requires forall j :: 0 <= j < |a| ==> a[j] < |site.events|
    requires forall j :: 0 <= j < |b| ==> b[j] < |site.events|
    ensures Altered(site, requested, a + b) == Altered(site, requested, a) + Altered(site, requested, b)
  {
    if a == [] {
      assert a + b == b;
    } else {
      AlteredJoins(site, requested, a[1..], b);
      assert (a + b)[1..] == a[1..] + b;
    }
  }

  /** Requests that agree on event i's jobs displace as many of them. */
  lemma {:induction false} DisplacedAgree(site: Site, r: seq<Request>, r': seq<Request>, i: nat, k: nat)
    requires site.WellFormed() && i < |site.events| && |r| == |r'| == |site.priorities| && k <= site.events[i].picks
    requires forall id :: site.events[i].first + k <= id < EndOf(site.events[i]) ==> r[id] == r'[id]
    ensures DisplacedIn(site, r, i, k) == DisplacedIn(site, r', i, k)
    decreases site.events[i].picks - k
  {
    if k < site.events[i].picks {
      DisplacedAgree(site, r, r', i, k + 1);
    }
  }

  lemma {:induction false} AlteredAgree(site: Site, r: seq<Request>, r': seq<Request>, open: seq<nat>)
    requires site.WellFormed() && |r| == |r'| == |site.priorities|
    requires forall j :: 0 <= j < |open| ==> open[j] < |site.events|
    requires forall j, id :: 0 <= j < |open| && site.events[open[j]].first <= id < EndOf(site.events[open[j]]) ==> r[id] == r'[id]
    ensures Altered(site, r, open) == Altered(site, r', open)
  {
    if open != [] {
      DisplacedAgree(site, r, r', open[0], 0);
      assert forall j :: 0 <= j < |open[1..]| ==> open[1..][j] == open[j + 1];
      AlteredAgree(site, r, r', open[1..]);
    }
  }

  lemma {:induction false} UnalteredIsUndisplaced(site: Site, requested: seq<Request>, i: nat, k: nat, n: nat)
    requires site.WellFormed() && i < |site.events| && |requested| == |site.priorities|
    requires k <= n < site.events[i].picks
    requires DisplacedIn(site, requested, i, k) == 0
    ensures !requested[site.events[i].first + n].Displaces(site.priorities[site.events[i].first + n])
    decreases n - k
  {
    if k < n {
      UnalteredIsUndisplaced(site, requested, i, k + 1, n);
    }
  }

  /** Changing one job of event i changes its count by that job alone. */
  lemma {:induction false} DisplacedUpdate(site: Site, requested: seq<Request>, i: nat, k: nat, n: nat, want: Request)
    requires site.WellFormed() && i < |site.events| && |requested| == |site.priorities|
    requires k <= n < site.events[i].picks
    ensures var id := site.events[i].first + n;
            DisplacedIn(site, requested[id := want], i, k) + Bit(requested[id].Displaces(site.priorities[id]))
            == DisplacedIn(site, requested, i, k) + Bit(want.Displaces(site.priorities[id]))
    decreases n - k
  {
    if k < n {
      DisplacedUpdate(site, requested, i, k + 1, n, want);
    } else {
      DisplacedAgree(site, requested, requested[site.events[i].first + n := want], i, k + 1);
    }
  }

  // ---------- What asking does, and when it does nothing ----------

  /** Only event i's own jobs are asked about. */
  lemma {:induction false} AskTouchesOnlyItsOwn(site: Site, s: Intent, cat: Catalogue, i: nat, at: Time,
                                                state: EventState, requested: seq<Request>, k: nat)
    requires site.WellFormed() && i < |site.events| && cat.For(site) && |requested| == |site.priorities|
    requires k <= site.events[i].picks
    ensures var after := Ask(site, s, cat, i, at, state, requested, k).0;
            forall id :: 0 <= id < |requested| && !(site.events[i].first + k <= id < EndOf(site.events[i]))
                         ==> after[id] == requested[id]
    decreases site.events[i].picks - k
  {
    if k < site.events[i].picks {
      var id := site.events[i].first + k;
      AskTouchesOnlyItsOwn(site, s, cat, i, at, state, requested, k + 1);
      AskTouchesOnlyItsOwn(site, s, cat, i, at, state,
                           requested[id := Want(s, state, site.priorities[id], requested[id])], k + 1);
    }
  }

  /** Every unfinished job ends up as wanted, and wanting it again changes nothing. */
  lemma {:induction false} AskSettles(site: Site, s: Intent, cat: Catalogue, i: nat, at: Time,
                                      state: EventState, requested: seq<Request>, k: nat)
    requires site.WellFormed() && i < |site.events| && cat.For(site) && |requested| == |site.priorities|
    requires k <= site.events[i].picks
    ensures var after := Ask(site, s, cat, i, at, state, requested, k).0;
            forall id :: site.events[i].first + k <= id < EndOf(site.events[i]) && !cat.finished[id] ==>
              && after[id] == Want(s, state, site.priorities[id], requested[id])
              && Want(s, state, site.priorities[id], after[id]) == after[id]
    decreases site.events[i].picks - k
  {
    if k < site.events[i].picks {
      var id := site.events[i].first + k;
      var want := Want(s, state, site.priorities[id], requested[id]);
      var next := if cat.finished[id] then requested else requested[id := want];
      AskSettles(site, s, cat, i, at, state, next, k + 1);
      AskTouchesOnlyItsOwn(site, s, cat, i, at, state, next, k + 1);
      if !cat.finished[id] && want == requested[id] {
        assert requested[id := want] == requested;
      }
    }
  }

  /** Jobs that are all as wanted are not asked about. */
  lemma {:induction false} AskNothing(site: Site, s: Intent, cat: Catalogue, i: nat, at: Time,
                                      state: EventState, requested: seq<Request>, k: nat)
    requires site.WellFormed() && i < |site.events| && cat.For(site) && |requested| == |site.priorities|
    requires k <= site.events[i].picks
    requires forall id :: site.events[i].first + k <= id < EndOf(site.events[i]) && !cat.finished[id] ==>
               Want(s, state, site.priorities[id], requested[id]) == requested[id]
    ensures Ask(site, s, cat, i, at, state, requested, k) == (requested, [])
    decreases site.events[i].picks - k
  {
    if k < site.events[i].picks {
      AskNothing(site, s, cat, i, at, state, requested, k + 1);
    }
  }

  /** With intent off, a job already where it was submitted is wanted nowhere else. */
  lemma OffWantsNothingOfTheUndisplaced(s: Intent, submitted: Priority, have: Request)
    requires s.mode.Off? && !have.Displaces(submitted)
    ensures Want(s, Kept, submitted, have) == have
  {
  }

  // ---------- What the planner's record means ----------

  /** Asked about under these settings, event i's unfinished jobs are all as wanted. */
  ghost predicate Memo(site: Site, s: Intent, cat: Catalogue, generation: nat, requested: seq<Request>, i: nat, j: Judgement)
    requires site.WellFormed() && cat.For(site) && i < |site.events| && |requested| == |site.priorities|
  {
    && j.generation <= generation
    && (!j.asked.Unset? && j.generation == generation ==>
          forall id :: site.events[i].first <= id < EndOf(site.events[i]) && !cat.finished[id] ==>
            Want(s, j.asked, site.priorities[id], requested[id]) == requested[id])
  }

  /** A judgement with slack is the true judgement of what was seen when it was made, and
      its jobs have been asked to follow it. With intent off there is no slack. */
  ghost predicate Sound(site: Site, s: Intent, cat: Catalogue, clock: Time, generation: nat, i: nat, j: Judgement, seen: Sighting)
    requires cat.For(site) && i < |site.events|
  {
    j.slack.Positive() ==>
      && !s.mode.Off?
      && j.generation == generation
      && j.at <= clock
      && j.from == seen.at
      && Reading(site, s, cat, i, seen)
      && j.slack == SlackAt(site, s, i, seen, j.at)
      && j.state == Judge(site, s, i, seen, j.at).state
      && j.basis == Judge(site, s, i, seen, j.at).basis
      && j.asked == j.state
  }

  /** Events that have not opened have never been asked about. */
  ghost predicate Untouched(site: Site, requested: seq<Request>, next: nat)
    requires site.WellFormed() && |requested| == |site.priorities|
  {
    forall i, id :: next <= i < |site.events| && site.events[i].first <= id < EndOf(site.events[i]) ==>
                      !requested[id].Displaces(site.priorities[id])
  }

  // ---------- Keeping the record true ----------

  /** The record of every event, together. */
  ghost predicate Recorded(site: Site, s: Intent, cat: Catalogue, clock: Time, generation: nat,
                           requested: seq<Request>, judged: seq<Judgement>, seen: seq<Sighting>)
    requires site.WellFormed() && cat.For(site) && |requested| == |site.priorities|
    requires |judged| == |seen| == |site.events|
  {
    && (forall i :: 0 <= i < |judged| ==> Memo(site, s, cat, generation, requested, i, judged[i]))
    && (forall i :: 0 <= i < |judged| ==> Sound(site, s, cat, clock, generation, i, judged[i], seen[i]))
  }

  /** The record stays true as time passes and work progresses. */
  lemma RecordLasts(site: Site, s: Intent, cat: Catalogue, clock: Time, later: Catalogue, at: Time, generation: nat,
                    requested: seq<Request>, judged: seq<Judgement>, seen: seq<Sighting>)
    requires site.WellFormed() && cat.For(site) && later.For(site) && later.Follows(cat) && clock <= at
    requires |requested| == |site.priorities| && |judged| == |seen| == |site.events|
    requires Recorded(site, s, cat, clock, generation, requested, judged, seen)
    ensures Recorded(site, s, later, at, generation, requested, judged, seen)
  {
    forall i | 0 <= i < |judged|
      ensures Memo(site, s, later, generation, requested, i, judged[i])
      ensures Sound(site, s, later, at, generation, i, judged[i], seen[i])
    {
      if Reading(site, s, cat, i, seen[i]) {
        ReadingLasts(site, s, cat, later, i, seen[i]);
      }
    }
  }

  /** Asking about one event keeps what was recorded of every other. */
  lemma AskKeepsOthers(site: Site, s: Intent, cat: Catalogue, at: Time, generation: nat, i: nat, state: EventState,
                       requested: seq<Request>, judged: seq<Judgement>)
    requires site.WellFormed() && cat.For(site) && i < |site.events|
    requires |requested| == |site.priorities| && |judged| == |site.events|
    requires forall e :: 0 <= e < |judged| ==> Memo(site, s, cat, generation, requested, e, judged[e])
    ensures var after := Ask(site, s, cat, i, at, state, requested, 0).0;
            && (forall e :: 0 <= e < |judged| && e != i ==> Memo(site, s, cat, generation, after, e, judged[e]))
            && (forall e, id :: 0 <= e < |judged| && e != i && site.events[e].first <= id < EndOf(site.events[e]) ==>
                  after[id] == requested[id])
            && Memo(site, s, cat, generation, after, i, judged[i].(asked := state, generation := generation))
  {
    AskTouchesOnlyItsOwn(site, s, cat, i, at, state, requested, 0);
    AskSettles(site, s, cat, i, at, state, requested, 0);
    forall e | 0 <= e < |judged| && e != i
      ensures Apart(site.events[e], site.events[i])
    {
      if e < i {
        assert Apart(site.events[e], site.events[i]);
      } else {
        assert Apart(site.events[i], site.events[e]);
      }
    }
  }

  /** What a full judgement of event i leaves on record. */
  function Rejudged(site: Site, s: Intent, cat: Catalogue, i: nat, at: Time, generation: nat, j: Judgement): Judgement
    requires cat.For(site) && i < |site.events|
  {
    var t := Assess(site, s, cat, i, at);
    var x := Sight(site, s, cat, i);
    var measured := if s.mode.Off? || x.None? then j
                    else j.(at := at, from := x.value.at, slack := SlackAt(site, s, i, x.value, at));
    measured.(state := t.state, basis := t.basis, asked := t.state, generation := generation)
  }

  function Reseen(site: Site, s: Intent, cat: Catalogue, i: nat, seen: seq<Sighting>): seq<Sighting>
    requires cat.For(site) && i < |site.events| && |seen| == |site.events|
  {
    var x := Sight(site, s, cat, i);
    if s.mode.Off? || x.None? then seen else seen[i := x.value]
  }

  /** Judging event i and asking for its jobs keeps the record true. */
  lemma RejudgingKeepsRecord(site: Site, s: Intent, cat: Catalogue, at: Time, generation: nat, i: nat,
                             requested: seq<Request>, judged: seq<Judgement>, seen: seq<Sighting>)
    requires site.WellFormed() && cat.For(site) && i < |site.events|
    requires |requested| == |site.priorities| && |judged| == |seen| == |site.events|
    requires Recorded(site, s, cat, at, generation, requested, judged, seen)
    ensures Recorded(site, s, cat, at, generation,
                     Ask(site, s, cat, i, at, Assess(site, s, cat, i, at).state, requested, 0).0,
                     judged[i := Rejudged(site, s, cat, i, at, generation, judged[i])],
                     Reseen(site, s, cat, i, seen))
  {
    AskKeepsOthers(site, s, cat, at, generation, i, Assess(site, s, cat, i, at).state, requested, judged);
    assert Sound(site, s, cat, at, generation, i, judged[i], seen[i]);
    if judged[i].slack.Positive() {
      ReadingLasts(site, s, cat, cat, i, seen[i]);
    }
    var judged', seen' := judged[i := Rejudged(site, s, cat, i, at, generation, judged[i])], Reseen(site, s, cat, i, seen);
    forall e | 0 <= e < |judged'|
      ensures Sound(site, s, cat, at, generation, e, judged'[e], seen'[e])
    {
      assert Sound(site, s, cat, at, generation, e, judged[e], seen[e]);
    }
  }

  /** Letting go of event i while intent is off keeps the record true. */
  lemma LettingGoKeepsRecord(site: Site, s: Intent, cat: Catalogue, at: Time, generation: nat, i: nat,
                             requested: seq<Request>, judged: seq<Judgement>, seen: seq<Sighting>)
    requires site.WellFormed() && cat.For(site) && i < |site.events| && s.mode.Off?
    requires |requested| == |site.priorities| && |judged| == |seen| == |site.events|
    requires Recorded(site, s, cat, at, generation, requested, judged, seen)
    ensures Recorded(site, s, cat, at, generation, requested, judged[i := judged[i].(state := Kept, basis := FromOff)], seen)
  {
    assert Sound(site, s, cat, at, generation, i, judged[i], seen[i]);
  }

  /** Events opening for the first time add nothing altered. */
  lemma {:induction false} OpeningAltersNothing(site: Site, requested: seq<Request>, open: seq<nat>, first: nat, next: nat)
    requires site.WellFormed() && |requested| == |site.priorities| && first <= next <= |site.events|
    requires forall j :: 0 <= j < |open| ==> open[j] < |site.events|
    requires Untouched(site, requested, first)
    ensures Altered(site, requested, open + Range(first, next)) == Altered(site, requested, open)
    decreases next - first
  {
    if first < next {
      assert open + Range(first, next) == (open + [first]) + Range(first + 1, next);
      OpeningAltersNothing(site, requested, open + [first], first + 1, next);
      AlteredJoins(site, requested, open, [first]);
      NoneDisplaced(site, requested, first, 0);
    } else {
      assert open + Range(first, next) == open;
    }
  }

  /** Asking about an open event leaves the unopened ones as they were submitted. */
  lemma AskKeepsUntouched(site: Site, s: Intent, cat: Catalogue, at: Time, i: nat, state: EventState,
                          requested: seq<Request>, next: nat)
    requires site.WellFormed() && cat.For(site) && i < next <= |site.events| && |requested| == |site.priorities|
    requires Untouched(site, requested, next)
    ensures Untouched(site, Ask(site, s, cat, i, at, state, requested, 0).0, next)
  {
    AskTouchesOnlyItsOwn(site, s, cat, i, at, state, requested, 0);
    assert forall e :: next <= e < |site.events| ==> Apart(site.events[i], site.events[e]);
  }

  // ---------- One turn of the planning loop ----------

  /** What is left to plan, after passing over an event with no work left. */
  lemma PassOver(site: Site, m: Memory, cat: Catalogue, at: Time, todo: seq<nat>, j: nat)
    requires site.WellFormed() && cat.For(site) && m.For(site) && j < |todo|
    requires forall k :: 0 <= k < |todo| ==> todo[k] < |site.events|
    requires cat.remaining[todo[j]] == 0
    ensures Steps(site, m, cat, at, todo[j..]) == Steps(site, m, cat, at, todo[j + 1..])
    ensures StillOpen(cat, todo[j..]) == StillOpen(cat, todo[j + 1..])
    ensures |m.requested| == |site.priorities| &&
            Altered(site, m.requested, todo[j..]) == DisplacedIn(site, m.requested, todo[j], 0) + Altered(site, m.requested, todo[j + 1..])
  {
    assert todo[j..][1..] == todo[j + 1..];
  }

  /** What is left to plan, after planning an event. */
  lemma TakeStep(site: Site, m: Memory, m': Memory, step: Plan, cat: Catalogue, at: Time, todo: seq<nat>, j: nat)
    requires site.WellFormed() && cat.For(site) && m.For(site) && j < |todo|
    requires forall k :: 0 <= k < |todo| ==> todo[k] < |site.events|
    requires cat.remaining[todo[j]] != 0
    requires (m', step) == Step(site, m, cat, at, todo[j])
    ensures m'.For(site)
    ensures var rest := Steps(site, m', cat, at, todo[j + 1..]);
            Steps(site, m, cat, at, todo[j..]) == (rest.0, step.Then(rest.1))
    ensures StillOpen(cat, todo[j..]) == [todo[j]] + StillOpen(cat, todo[j + 1..])
  {
    assert todo[j..][1..] == todo[j + 1..];
  }

  /** The altered jobs over the events kept and the events still to plan. */
  lemma CountStep(site: Site, m: Memory, m': Memory, cat: Catalogue, at: Time, kept: seq<nat>, todo: seq<nat>, j: nat)
    requires site.WellFormed() && cat.For(site) && m.For(site) && j < |todo|
    requires forall k :: 0 <= k < |todo| ==> todo[k] < |site.events|
    requires forall k :: 0 <= k < |kept| ==> kept[k] < todo[j]
    requires Ascending(todo)
    requires m' == Step(site, m, cat, at, todo[j]).0
    ensures |m'.requested| == |m.requested| == |site.priorities|
    ensures Altered(site, m'.requested, kept + [todo[j]]) + Altered(site, m'.requested, todo[j + 1..])
            - DisplacedIn(site, m'.requested, todo[j], 0)
            == Altered(site, m.requested, kept) + Altered(site, m.requested, todo[j..])
               - DisplacedIn(site, m.requested, todo[j], 0)
  {
    var i := todo[j];
    AskTouchesOnlyItsOwn(site, m.settings, cat, i, at, Assess(site, m.settings, cat, i, at).state, m.requested, 0);
    forall e | 0 <= e < |site.events| && e != i ensures Apart(site.events[e], site.events[i]) {
      assert e < i ==> Apart(site.events[e], site.events[i]);
      assert e > i ==> Apart(site.events[i], site.events[e]);
    }
    AlteredAgree(site, m.requested, m'.requested, kept);
    AlteredAgree(site, m.requested, m'.requested, todo[j + 1..]);
    AlteredJoins(site, m'.requested, kept, [i]);
    assert todo[j..][1..] == todo[j + 1..];
  }

  lemma PlansJoin(a: Plan, b: Plan, c: Plan)
    ensures a.Then(b).Then(c) == a.Then(b.Then(c))
    ensures a.Then(NOTHING) == a && NOTHING.Then(a) == a
  {
  }

  class Planner {
    const site: Site
    const alwaysJudge: bool
    const speed: real

    var settings: Intent
    var requested: seq<Request>
    var altered: int
    var next: nat
    var open: seq<nat>
    var judged: seq<Judgement>
    var struck: seq<Struck>
    var generation: nat

    /** What each event was last judged from, the last moment planned, and the work as it
        stood then. */
    ghost var seen: seq<Sighting>
    ghost var clock: Time
    ghost var known: Catalogue

    function Verdicts(): (r: seq<Judged>)
      reads this
      ensures |r| == |judged|
      ensures forall i :: 0 <= i < |r| ==> r[i] == Judged(judged[i].state, judged[i].basis)
    {
      seq(|judged|, i requires 0 <= i < |judged| reads this => Judged(judged[i].state, judged[i].basis))
    }

    /** What the reference planner would remember. */
    function Remembered(): Memory
      reads this
    {
      Memory(settings, next, open, Verdicts(), requested)
    }

    ghost predicate Shaped()
      reads this
    {
      && site.WellFormed() && site.Steady() && speed == site.Speed() && speed >= 0.0
      && known.For(site)
      && |judged| == |struck| == |seen| == |site.events|
      && |requested| == |site.priorities|
      && next <= |site.events|
      && (forall i :: 0 <= i < |struck| && struck[i].measured ==> struck[i].hit == Strike(site, settings, i, struck[i].from))
    }

    /** Everything but the open list and the count of altered jobs. */
    ghost predicate Consistent()
      reads this
    {
      && Shaped()
      && Recorded(site, settings, known, clock, generation, requested, judged, seen)
      && Untouched(site, requested, next)
    }

    ghost predicate Valid()
      reads this
    {
      && Consistent()
      && Remembered().For(site)
      && altered == Altered(site, requested, open)
    }

    constructor (site: Site, settings: Intent, alwaysJudge: bool)
      requires site.WellFormed() && site.Steady() && site.Speed() >= 0.0
      ensures Valid()
      ensures this.site == site
      ensures Remembered() == Fresh(site, settings)
      ensures known == Unseen(site) && clock == 0
    {
      this.site := site;
      this.alwaysJudge := alwaysJudge;
      this.speed := site.Speed();
      this.settings := settings;
      this.requested := seq(|site.priorities|, id requires 0 <= id < |site.priorities| => Request(site.priorities[id], false, false));
      this.altered := 0;
      this.next := 0;
      this.open := [];
      this.judged := seq(|site.events|, _ => Judgement(Unset, NoBasis, 0, Finite(0.0), ORIGIN, Unset, 0));
      this.struck := seq(|site.events|, _ => Struck(false, ORIGIN, None));
      this.generation := 1;
      this.seen := seq(|site.events|, _ => Sighting(ORIGIN, 0.0, 0.0, NoBasis));
      this.clock := 0;
      this.known := Unseen(site);
    }

    /** Settings the next plan is made under: every judgement and request is made again. */
    method Configure(settings: Intent)
      requires Valid()
      modifies this
      ensures Valid()
      ensures Remembered() == old(Remembered()).(settings := settings)
      ensures known == old(known) && clock == old(clock)
      ensures forall i :: 0 <= i < |judged| ==> judged[i].generation < generation
      ensures forall cat: Catalogue, i: nat, at: Time | cat.For(site) && i < |site.events| && i < |judged| :: !SettledNow(cat, i, at)
    {
      struck := seq(|struck|, _ => Struck(false, ORIGIN, None));
      judged := seq(|judged|, i requires 0 <= i < |judged| reads this => judged[i].(slack := Finite(0.0)));
      generation := generation + 1;
      this.settings := settings;
      assert Verdicts() == old(Verdicts());
    }

    /** What the workflow is told of an event: its verdict as the reference remembers it, and no for
        one there is no record of. */
    function Valued(i: int): (r: bool)
      reads this
      ensures r <==> i >= 0 && ValuedBy(Remembered())(i)
    {
      0 <= i < |judged| && (judged[i].state.Promoted? || judged[i].state.Kept?)
    }

    /** The guard of a skip. Where it holds, stepping over event i is taking the reference's step:
        SkippedAsJudged below. */
    predicate SettledNow(cat: Catalogue, i: nat, at: Time)
      requires cat.For(site) && i < |site.events| && i < |judged|
      reads this
    {
      var last := judged[i];
      && !alwaysJudge
      && last.slack.Positive()
      && !last.asked.Unset?
      && last.generation == generation
      && (speed <= 0.0 || !last.slack.CoveredBy((at - last.at) as real * speed))
      && (var sighting := Sight(site, settings, cat, i);
          (if sighting.Some? then sighting.value.at else ORIGIN) == last.from)
    }

    method StrikeOf(i: nat, from: Point) returns (hit: Option<Close>)
      requires Shaped() && i < |site.events|
      modifies this`struck
      ensures Shaped()
      ensures hit == Strike(site, settings, i, from)
    {
      if struck[i].measured && struck[i].from == from {
        return struck[i].hit;
      }
      var units := site.View(settings.knowledge).positions(site.events[i].origin, settings.protect);
      hit := None;
      for k := 0 to |units|
        invariant hit == NearestUnit(site.metric, units[..k], from)
      {
        assert units[..k + 1][..k] == units[..k];
        var d := site.metric.gap(units[k].at, from);
        if Nearer(Some(d), Distance(hit)) {
          hit := Some(Close(units[k].entity, d));
        }
      }
      assert units[..|units|] == units;
      struck := struck[i := Struck(true, from, hit)];
    }

    /** Event i judged against the protected paths, and how much slack the judgement has. */
    method AssessEvent(i: nat, at: Time, paths: seq<Path>, cat: Catalogue) returns (t: Transition)
      requires Shaped() && i < |site.events| && cat.For(site) && !settings.mode.Off?
      requires paths == site.View(settings.knowledge).reach(at, settings.lookahead, settings.protect)
      modifies this`judged, this`struck, this`seen
      ensures Shaped()
      ensures t == Assess(site, settings, cat, i, at)
      ensures var x := Sight(site, settings, cat, i);
              if x.None? then judged == old(judged) && seen == old(seen)
              else
                && judged == old(judged)[i := old(judged)[i].(at := at, from := x.value.at,
                                                              slack := SlackAt(site, settings, i, x.value, at))]
                && seen == old(seen)[i := x.value]
    {
      hide Site.Steady, Site.WellFormed, NearestOf, NearestUnit, Sight, Strike;
      var x := Sight(site, settings, cat, i);
      if x.None? {
        return Transition(at, Unknown, NoBasis, "", 0.0, 0.0);
      }
      var sighting := x.value;
      seen := seen[i := sighting];
      var slack := Infinite;
      var near := Nearest(site.metric, paths, sighting.at);
      var hit := StrikeOf(i, sighting.at);
      if Nearer(Distance(hit), Distance(near)) {
        near := hit;
      }
      var entity := if near.Some? then near.value.entity else "";
      var distance := if near.Some? then near.value.distance else 0.0;

      var promote := ReachOf(site, settings, sighting, settings.promoteLevel);
      if settings.mode.Promotes() && promote.Some? {
        if near.Some? {
          slack := slack.Narrowed(AbsReal(distance - promote.value));
        }
        if near.Some? && distance <= promote.value {
          judged := judged[i := judged[i].(at := at, from := sighting.at, slack := slack)];
          return Transition(at, Promoted, sighting.basis, entity, distance, promote.value);
        }
      }
      var protect := ReachOf(site, settings, sighting, settings.protectLevel);
      if near.Some? && protect.Some? {
        slack := slack.Narrowed(AbsReal(distance - protect.value));
      }
      judged := judged[i := judged[i].(at := at, from := sighting.at, slack := slack)];
      var state := if settings.mode.Decays() && (near.None? || protect.None? || distance > protect.value) then Decayed else Kept;
      t := Transition(at, state, sighting.basis, entity, distance, if protect.Some? then protect.value else 0.0);
    }

    method JudgeEvent(i: nat, t: Transition) returns (changes: seq<Change>)
      requires i < |judged|
      modifies this`judged
      ensures judged == old(judged)[i := old(judged)[i].(state := t.state, basis := t.basis)]
      ensures changes == Announce(old(Verdicts())[i], i, t)
    {
      var last := judged[i];
      judged := judged[i := last.(state := t.state, basis := t.basis)];
      if t.state == last.state && t.basis == last.basis {
        return [];
      }
      if last.state.Unset? && (t.state.Unknown? || t.basis.FromOff?) {
        return [];
      }
      return [Change(i, t)];
    }

    /** One event's asking, proved to be the reference's own, with the count of displaced requests
        moved by exactly what changed. */
    method RequestEvent(i: nat, at: Time, state: EventState, cat: Catalogue) returns (updates: seq<Update>)
      requires Shaped() && i < |site.events| && cat.For(site)
      requires Memo(site, settings, cat, generation, requested, i, judged[i])
      requires !state.Unset?
      modifies this`judged, this`requested, this`altered
      ensures Shaped()
      ensures (requested, updates) == Ask(site, settings, cat, i, at, state, old(requested), 0)
      ensures judged == old(judged)[i := old(judged)[i].(asked := state, generation := generation)]
      ensures altered - old(altered) == DisplacedIn(site, requested, i, 0) - DisplacedIn(site, old(requested), i, 0)
    {
      hide Bounded, NearestOf, Strike, Site.Steady, Want, DisplacedIn;
      if judged[i].asked == state && judged[i].generation == generation {
        AskNothing(site, settings, cat, i, at, state, requested, 0);
        return [];
      }
      judged := judged[i := judged[i].(asked := state, generation := generation)];
      updates := [];
      assert updates + Ask(site, settings, cat, i, at, state, requested, 0).1 == Ask(site, settings, cat, i, at, state, requested, 0).1;
      var event := site.events[i];
      for k := 0 to event.picks
        invariant Shaped()
        invariant judged == old(judged)[i := old(judged)[i].(asked := state, generation := generation)]
        invariant var (after, rest) := Ask(site, settings, cat, i, at, state, requested, k);
                  (after, updates + rest) == Ask(site, settings, cat, i, at, state, old(requested), 0)
        invariant altered - old(altered) == DisplacedIn(site, requested, i, 0) - DisplacedIn(site, old(requested), i, 0)
      {
        var id := event.first + k;
        if cat.finished[id] {
          continue;
        }
        var submitted := site.priorities[id];
        var have := requested[id];
        var want := Want(settings, state, submitted, have);
        if want == have {
          continue;
        }
        var before, after := have.Displaces(submitted), want.Displaces(submitted);
        if !before && after {
          altered := altered + 1;
        } else if before && !after {
          altered := altered - 1;
        }
        DisplacedUpdate(site, requested, i, 0, k, want);
        requested := requested[id := want];
        var update := Update(at, id, want.priority, state, settings.deadlineFrom.FromChange?, want.exempt);
        ghost var rest := Ask(site, settings, cat, i, at, state, requested, k + 1).1;
        assert (updates + [update]) + rest == updates + ([update] + rest);
        updates := updates + [update];
      }
      assert updates + [] == updates;
    }

    /** An event closed, with its own displaced requests taken out of the count. */
    method CloseEvent(i: nat)
      requires Shaped() && i < |site.events|
      modifies this`altered
      ensures old(Consistent()) ==> Consistent()
      ensures Remembered() == old(Remembered())
      ensures altered == old(altered) - DisplacedIn(site, requested, i, 0)
    {
      var event := site.events[i];
      for k := 0 to event.picks
        invariant altered == old(altered) - (DisplacedIn(site, requested, i, 0) - DisplacedIn(site, requested, i, k))
      {
        var id := event.first + k;
        if requested[id].Displaces(site.priorities[id]) {
          altered := altered - 1;
        }
      }
    }

    /** Events that have happened become open. */
    method OpenDue(at: Time)
      requires Valid()
      modifies this`next, this`open
      ensures Valid()
      ensures Remembered() == Opened(site, old(Remembered()), at)
    {
      hide Altered, Recorded;
      ghost var first, had := next, open;
      assert had + Range(first, next) == had;
      while next < |site.events| && site.events[next].origin <= at
        invariant first <= next <= |site.events|
        invariant NextAfter(site.events, first, at) == NextAfter(site.events, next, at)
        invariant open == had + Range(first, next)
      {
        assert Range(first, next + 1) == Range(first, next) + [next];
        open := open + [next];
        next := next + 1;
      }
      OpeningAltersNothing(site, requested, had, first, next);
      assert Verdicts() == old(Verdicts());
    }

    /** The shortcut taken while no request is displaced, proved to be the reference's whole step. */
    method LetGo(i: nat, at: Time, cat: Catalogue) returns (step: Plan)
      requires Consistent() && known == cat && clock == at
      requires i < |site.events| && settings.mode.Off?
      requires DisplacedIn(site, requested, i, 0) == 0
      modifies this`judged
      ensures Consistent()
      ensures (Remembered().judged, step) ==
              (old(Remembered()).judged[i := Judged(Kept, FromOff)],
               Reference.Plan.Plan([], Announce(old(Remembered()).judged[i], i, Assess(site, settings, cat, i, at))))
      ensures Ask(site, settings, cat, i, at, Kept, requested, 0) == (requested, [])
    {
      forall id | site.events[i].first <= id < EndOf(site.events[i])
        ensures Want(settings, Kept, site.priorities[id], requested[id]) == requested[id]
      {
        UnalteredIsUndisplaced(site, requested, i, 0, id - site.events[i].first);
        OffWantsNothingOfTheUndisplaced(settings, site.priorities[id], requested[id]);
      }
      AskNothing(site, settings, cat, i, at, Kept, requested, 0);
      LettingGoKeepsRecord(site, settings, cat, at, generation, i, requested, judged, seen);
      var changes := JudgeEvent(i, Transition(at, Kept, FromOff, "", 0.0, 0.0));
      assert Verdicts() == old(Verdicts())[i := Judged(Kept, FromOff)];
      step := Reference.Plan.Plan([], changes);
    }

    /** An open event judged, and its jobs asked to follow the judgement. */
    method JudgeAndAsk(i: nat, at: Time, paths: seq<Path>, cat: Catalogue) returns (step: Plan)
      requires Consistent() && known == cat && clock == at && i < next
      requires i < |site.events|
      requires !settings.mode.Off? ==> paths == site.View(settings.knowledge).reach(at, settings.lookahead, settings.protect)
      modifies this`judged, this`struck, this`seen, this`requested, this`altered
      ensures Consistent()
      ensures (Remembered().judged, step) ==
              (var t := Assess(site, settings, cat, i, at);
               (old(Remembered()).judged[i := Judged(t.state, t.basis)],
                Reference.Plan.Plan(Ask(site, settings, cat, i, at, t.state, old(requested), 0).1,
                                    Announce(old(Remembered()).judged[i], i, t))))
      ensures requested == Ask(site, settings, cat, i, at, Assess(site, settings, cat, i, at).state, old(requested), 0).0
      ensures altered - old(altered) == DisplacedIn(site, requested, i, 0) - DisplacedIn(site, old(requested), i, 0)
    {
      hide Bounded, NearestOf, Ask, Untouched, DisplacedIn, Sight, Strike;
      RejudgingKeepsRecord(site, settings, cat, at, generation, i, requested, judged, seen);
      AskKeepsUntouched(site, settings, cat, at, i, Assess(site, settings, cat, i, at).state, requested, next);
      assert Memo(site, settings, cat, generation, requested, i, judged[i]);
      var t := Transition(at, Kept, FromOff, "", 0.0, 0.0);
      if !settings.mode.Off? {
        t := AssessEvent(i, at, paths, cat);
      }
      var changes := JudgeEvent(i, t);
      var updates := RequestEvent(i, at, t.state, cat);
      assert judged == old(judged)[i := Rejudged(site, settings, cat, i, at, generation, old(judged)[i])];
      assert Verdicts() == old(Verdicts())[i := Judged(t.state, t.basis)];
      step := Reference.Plan.Plan(updates, changes);
    }

    /** One open event: skipped, let go of, or judged and asked about. */
    method PlanEvent(i: nat, at: Time, paths: seq<Path>, cat: Catalogue) returns (step: Plan)
      requires Consistent() && Remembered().For(site) && known == cat && clock == at
      requires i < next && cat.OffSensors(site)
      requires !settings.mode.Off? ==> paths == site.View(settings.knowledge).reach(at, settings.lookahead, settings.protect)
      requires altered == 0 ==> DisplacedIn(site, requested, i, 0) == 0
      modifies this`judged, this`struck, this`seen, this`requested, this`altered
      ensures Consistent()
      ensures (Remembered(), step) == Step(site, old(Remembered()), cat, at, i)
      ensures altered - old(altered) == DisplacedIn(site, requested, i, 0) - DisplacedIn(site, old(requested), i, 0)
    {
      if !settings.mode.Off? && SettledNow(cat, i, at) {
        SkippedAsJudged(cat, i, at);
        assert Remembered().judged[i := Judged(judged[i].state, judged[i].basis)] == Remembered().judged;
        return NOTHING;
      }
      if settings.mode.Off? && altered == 0 {
        step := LetGo(i, at, cat);
      } else {
        step := JudgeAndAsk(i, at, paths, cat);
      }
    }

    /** What a skipped event would have been judged, and asked. */
    lemma SkippedAsJudged(cat: Catalogue, i: nat, at: Time)
      requires Consistent() && known == cat && clock == at && i < |site.events| && cat.OffSensors(site)
      requires !settings.mode.Off? && SettledNow(cat, i, at)
      ensures var t := Assess(site, settings, cat, i, at);
              && t.state == judged[i].state && t.basis == judged[i].basis
              && Ask(site, settings, cat, i, at, t.state, requested, 0) == (requested, [])
    {
      var last := judged[i];
      assert Sound(site, settings, cat, at, generation, i, last, seen[i]);
      assert Memo(site, settings, cat, generation, requested, i, last);
      assert MaySkip(site, settings, cat, i, last.slack, last.at, last.from, at);
      SkippingIsExact(site, settings, cat, i, seen[i], last.at, at);
      AskNothing(site, settings, cat, i, at, last.state, requested, 0);
    }

    /** One turn of the planning loop: an event with no work left is closed, and any other
        is planned and kept. */
    method Turn(at: Time, paths: seq<Path>, cat: Catalogue, kept: seq<nat>, todo: seq<nat>, j: nat)
      returns (kept': seq<nat>, step: Plan)
      requires Consistent() && known == cat && clock == at && cat.OffSensors(site) && Remembered().For(site)
      requires !settings.mode.Off? ==> paths == site.View(settings.knowledge).reach(at, settings.lookahead, settings.protect)
      requires j < |todo| && todo == open
      requires forall k :: 0 <= k < |kept| ==> kept[k] < todo[j]
      requires altered == Altered(site, requested, kept) + Altered(site, requested, todo[j..])
      modifies this`judged, this`struck, this`seen, this`requested, this`altered
      ensures Consistent() && Remembered().For(site)
      ensures kept' + StillOpen(cat, todo[j + 1..]) == kept + StillOpen(cat, todo[j..])
      ensures forall k :: 0 <= k < |kept'| ==> kept'[k] <= todo[j]
      ensures altered == Altered(site, requested, kept') + Altered(site, requested, todo[j + 1..])
      ensures var rest := Steps(site, Remembered(), cat, at, todo[j + 1..]);
              Steps(site, old(Remembered()), cat, at, todo[j..]) == (rest.0, step.Then(rest.1))
    {
      hide Step, Steps, StillOpen, Altered, DisplacedIn, Recorded, Untouched, Bounded;
      var i := todo[j];
      ghost var m := Remembered();
      if cat.remaining[i] == 0 {
        PassOver(site, m, cat, at, todo, j);
        CloseEvent(i);
        PlansJoin(Steps(site, m, cat, at, todo[j + 1..]).1, NOTHING, NOTHING);
        return kept, NOTHING;
      }
      PassOrTake(site, requested, todo, j);
      step := PlanEvent(i, at, paths, cat);
      TakeStep(site, m, Remembered(), step, cat, at, todo, j);
      CountStep(site, m, Remembered(), cat, at, kept, todo, j);
      kept' := kept + [i];
      assert kept' + StillOpen(cat, todo[j + 1..]) == kept + ([i] + StillOpen(cat, todo[j + 1..]));
    }

    /** The open events planned in turn, and those with work left kept open. */
    method PlanOpen(at: Time, paths: seq<Path>, cat: Catalogue) returns (kept: seq<nat>, plan: Plan)
      requires Valid() && known == cat && clock == at && cat.OffSensors(site)
      requires !settings.mode.Off? ==> paths == site.View(settings.knowledge).reach(at, settings.lookahead, settings.protect)
      modifies this`judged, this`struck, this`seen, this`requested, this`altered
      ensures Consistent() && kept == StillOpen(cat, open)
      ensures (Remembered(), plan) == Steps(site, old(Remembered()), cat, at, open)
      ensures altered == Altered(site, requested, kept)
    {
      hide Steps, StillOpen, Altered, Recorded, Untouched, Bounded;
      plan := NOTHING;
      kept := [];
      ghost var whole := Steps(site, Remembered(), cat, at, open);
      ghost var still := StillOpen(cat, open);
      PlansJoin(whole.1, NOTHING, NOTHING);
      assert open[0..] == open && kept + still == still;
      NoneAltered(site, requested);
      for j := 0 to |open|
        invariant Consistent() && Remembered().For(site)
        invariant kept + StillOpen(cat, open[j..]) == still
        invariant forall k :: 0 <= k < |kept| && j < |open| ==> kept[k] < open[j]
        invariant forall k :: 0 <= k < |kept| ==> kept[k] < |site.events|
        invariant altered == Altered(site, requested, kept) + Altered(site, requested, open[j..])
        invariant Steps(site, Remembered(), cat, at, open[j..]).0 == whole.0
        invariant plan.Then(Steps(site, Remembered(), cat, at, open[j..]).1) == whole.1
      {
        var step;
        kept, step := Turn(at, paths, cat, kept, open, j);
        PlansJoin(plan, step, Steps(site, Remembered(), cat, at, open[j + 1..]).1);
        plan := plan.Then(step);
      }
      NothingLeft(site, Remembered(), cat, at, open[|open|..]);
      PlansJoin(plan, NOTHING, NOTHING);
      assert kept == still;
    }

    /** One cycle, skips and shortcuts and all, proved to be the reference's. */
    method Plan(at: Time, cat: Catalogue) returns (plan: Plan)
      requires Valid()
      requires at >= clock && cat.For(site) && cat.Follows(known) && cat.OffSensors(site)
      modifies this
      ensures Valid() && known == cat && clock == at
      ensures (Remembered(), plan) == Cycle(site, old(Remembered()), cat, at)
    {
      hide Steps, Altered, Recorded, Untouched, Bounded, NextAfter, Site.Steady;
      OpenDue(at);
      ghost var ready := Remembered();
      RecordLasts(site, settings, known, clock, cat, at, generation, requested, judged, seen);
      known, clock := cat, at;
      assert Verdicts() == ready.judged;
      var paths := [];
      if !settings.mode.Off? {
        paths := site.View(settings.knowledge).reach(at, settings.lookahead, settings.protect);
      }
      var kept;
      kept, plan := PlanOpen(at, paths, cat);
      ghost var after := Remembered();
      StillOpenAscends(cat, open);
      open := kept;
      assert Verdicts() == after.judged;
    }
  }

  lemma NoneAltered(site: Site, requested: seq<Request>)
    requires site.WellFormed() && |requested| == |site.priorities|
    ensures Altered(site, requested, []) == 0
  {
  }

  lemma PassOrTake(site: Site, requested: seq<Request>, todo: seq<nat>, j: nat)
    requires site.WellFormed() && |requested| == |site.priorities| && j < |todo|
    requires forall k :: 0 <= k < |todo| ==> todo[k] < |site.events|
    ensures Altered(site, requested, todo[j..]) >= DisplacedIn(site, requested, todo[j], 0)
  {
  }

  lemma NothingLeft(site: Site, m: Memory, cat: Catalogue, at: Time, todo: seq<nat>)
    requires site.WellFormed() && cat.For(site) && m.For(site) && todo == []
    ensures Steps(site, m, cat, at, todo) == (m, NOTHING)
    ensures StillOpen(cat, todo) == []
    ensures Altered(site, m.requested, todo) == 0
  {
  }

  /** Requests that displace none of event i's jobs count none. */
  lemma {:induction false} NoneDisplaced(site: Site, requested: seq<Request>, i: nat, k: nat)
    requires site.WellFormed() && i < |site.events| && |requested| == |site.priorities| && k <= site.events[i].picks
    requires forall id :: site.events[i].first + k <= id < EndOf(site.events[i]) ==> !requested[id].Displaces(site.priorities[id])
    ensures DisplacedIn(site, requested, i, k) == 0
    decreases site.events[i].picks - k
  {
    if k < site.events[i].picks {
      NoneDisplaced(site, requested, i, k + 1);
    }
  }

  /** A catalogue with nothing processed and nothing located. */
  function Unseen(site: Site): Catalogue
  {
    Catalogue(seq(|site.events|, i requires 0 <= i < |site.events| => site.events[i].picks),
              seq(|site.events|, _ => None), seq(|site.priorities|, _ => false))
  }

  /** A planner taken through a whole run. Whether or not it skips, it says in every cycle
      exactly what the reference planner says. */
  method PlanRun(site: Site, settings: Intent, alwaysJudge: bool, inputs: seq<Input>) returns (plans: seq<Plan>)
    requires site.WellFormed() && site.Steady() && site.Speed() >= 0.0
    requires forall k :: 0 <= k < |inputs| && inputs[k].PlanAt? ==> inputs[k].catalogue.For(site)
    requires Legal(site, inputs, 0, Unseen(site))
    ensures plans == Run(site, Fresh(site, settings), inputs)
  {
    hide Cycle;
    var planner := new Planner(site, settings, alwaysJudge);
    plans := [];
    assert inputs[0..] == inputs;
    ghost var whole := Run(site, planner.Remembered(), inputs);
    assert plans + whole == whole;
    for k := 0 to |inputs|
      invariant fresh(planner) && planner.Valid() && planner.site == site
      invariant Legal(site, inputs[k..], planner.clock, planner.known)
      invariant plans + Run(site, planner.Remembered(), inputs[k..]) == whole
    {
      assert inputs[k..][0] == inputs[k] && inputs[k..][1..] == inputs[k + 1..];
      match inputs[k]
      case Configure(next) =>
        planner.Configure(next);
      case PlanAt(at, catalogue) =>
        ghost var rest := Run(site, planner.Remembered(), inputs[k..]);
        var plan := planner.Plan(at, catalogue);
        assert rest == [plan] + Run(site, planner.Remembered(), inputs[k + 1..]);
        assert plans + rest == (plans + [plan]) + Run(site, planner.Remembered(), inputs[k + 1..]);
        plans := plans + [plan];
    }
    assert plans + [] == plans;
  }
}
