/** The workflow as an object: internal/pipeline/pipeline.go and
    internal/pipeline/spec.go. Its state is updated in place by the source's own loops, and
    every method is proved to do what the workflow is for. */
module Pipeline {
  import opened Basics
  import opened Work
  import opened Sorting
  import opened Triggers
  import opened Workflow
  import opened WorkflowLaws

  /** The first identity a workflow may issue: past every pick of every event, and past every
      job generated. */
  method FirstFresh(events: seq<Happening>, jobs: nat) returns (next: JobId)
    ensures next >= jobs
    ensures forall i :: 0 <= i < |events| ==> events[i].firstJob + events[i].picks <= next
    ensures next == jobs || exists i :: 0 <= i < |events| && events[i].firstJob + events[i].picks == next
  {
    next := 0;
    var k := 0;
    while k < |events|
      invariant 0 <= k <= |events| && next >= 0
      invariant forall i :: 0 <= i < k ==> events[i].firstJob + events[i].picks <= next
      invariant next == 0 || exists i :: 0 <= i < k && events[i].firstJob + events[i].picks == next
    {
      var last := events[k].firstJob + events[k].picks;
      if last > next {
        next := last;
      }
      k := k + 1;
    }
    if jobs > next {
      next := jobs;
    }
  }

  predicate ByFirstJob(a: Happening, b: Happening) { a.firstJob < b.firstJob }

  class Pipeline {
    const setup: Setup
    const firstJob: seq<JobId>
    var state: seq<Tally>
    var next: JobId
    var issued: map<JobId, Issued>
    var done: set<JobId>
    var lastSweep: Time
    var swept: bool
    var completions: seq<Time>

    function View(): Flow
      reads this
    {
      Flow(state, next, issued, done, lastSweep, swept, completions)
    }

    /** Events are searched by their first job, so that is the order they are kept in. */
    predicate Ordered()
    {
      && |firstJob| == |setup.events|
      && (forall i :: 0 <= i < |firstJob| ==> firstJob[i] == setup.events[i].firstJob)
      && (forall i, j :: 0 <= i < j < |firstJob| ==> firstJob[i] <= firstJob[j])
    }

    constructor (plan: FlowPlan, events: seq<Happening>, nextJob: JobId, drawn: JobId -> Effort)
      ensures setup == Setup(plan, StableSort(events, ByFirstJob), drawn)
      ensures Ordered() && View() == Started(setup.events, nextJob)
    {
      var ordered := StableSort(events, ByFirstJob);
      SortOrders(events, ByFirstJob);
      setup := Setup(plan, ordered, drawn);
      firstJob := seq(|ordered|, i requires 0 <= i < |ordered| => ordered[i].firstJob);
      state := seq(|ordered|, _ => Tally(0, 0, false));
      next, issued, done := nextJob, map[], {};
      lastSweep, swept, completions := 0, false, [];
    }

    /** The event whose pick a finished job is, found by bisection. */
    method Pick(id: JobId) returns (event: Option<nat>)
      requires Ordered()
      ensures event == PickOf(setup.events, id)
    {
      var i, j := 0, |firstJob|;
      while i < j
        invariant 0 <= i <= j <= |firstJob|
        invariant forall k :: 0 <= k < i ==> firstJob[k] <= id
        invariant forall k :: j <= k < |firstJob| ==> firstJob[k] > id
      {
        var half := (i + j) / 2;
        if firstJob[half] > id {
          j := half;
        } else {
          i := half + 1;
        }
      }
      LastFromHolds(setup.events, id);
      ghost var l := LastFrom(setup.events, id);
      assert l >= 0 ==> firstJob[l] <= id;
      assert forall k :: l < k < |firstJob| ==> firstJob[k] > id;
      assert i > 0 ==> firstJob[i - 1] <= id;
      assert l == i - 1;
      if i - 1 < 0 || id >= setup.events[i - 1].firstJob + setup.events[i - 1].picks {
        return None;
      }
      return Some(i - 1);
    }

    /** A job given its identity, and remembered for what it is for. */
    method Submit(job: Job, events: seq<nat>) returns (submitted: Job)
      modifies this`next, this`issued
      ensures (View(), submitted) == Issue(old(View()), job, events)
    {
      submitted := job.(id := next);
      next, issued := next + 1, issued[next := Issued(job.stage, events)];
    }

    /** The work a finishing sweep submits. */
    method LocateAll(at: Time, events: seq<nat>) returns (out: seq<Job>)
      modifies this`next, this`issued
      ensures (View(), out) == Locates(setup, old(View()), at, events)
    {
      out := [];
      var k := 0;
      assert events[0..] == events;
      while k < |events|
        invariant 0 <= k <= |events|
        invariant Locates(setup, old(View()), at, events).0 == Locates(setup, View(), at, events[k..]).0
        invariant Locates(setup, old(View()), at, events).1 == out + Locates(setup, View(), at, events[k..]).1
      {
        assert events[k..][0] == events[k] && events[k..][1..] == events[k + 1..];
        var job := Submit(Job(0, at, setup.plan.locate.priority, setup.drawn(next), events[k], StageLocate), [events[k]]);
        out := out + [job];
        k := k + 1;
      }
      assert Locates(setup, View(), at, events[k..]) == (View(), []);
      assert out + [] == out;
    }

    /** The events a sweep would locate. */
    method Grouped(at: Time) returns (out: seq<nat>)
      requires |state| == |setup.events|
      ensures out == Candidates(setup, View(), at, |setup.events|)
    {
      out := [];
      var i := 0;
      while i < |setup.events|
        invariant 0 <= i <= |setup.events|
        invariant out == Candidates(setup, View(), at, i)
      {
        if InWindow(setup, at, setup.events[i]) {
          if state[i].unswept > 0 && state[i].processed >= MINIMUM_PICKS {
            out := out + [i];
          }
        }
        i := i + 1;
      }
    }

    /** A sweep decided on now, if there is anything it could group. */
    method SweepOnce(at: Time) returns (jobs: seq<Job>)
      requires |state| == |setup.events|
      modifies this`state, this`next, this`issued, this`lastSweep, this`swept
      ensures (View(), jobs) == SweepNow(setup, old(View()), at)
    {
      var group := Grouped(at);
      if |group| == 0 {
        return [];
      }
      CandidatesHold(setup, View(), at, |setup.events|);
      EmptyAll(group);
      lastSweep, swept := at, true;
      var job := Submit(Job(0, at, setup.plan.associate.priority, setup.plan.associate.Cost(|group|), NO_EVENT, StageAssociate), group);
      return [job];
    }

    method EmptyAll(group: seq<nat>)
      requires forall k :: 0 <= k < |group| ==> group[k] < |state|
      modifies this`state
      ensures state == Emptied(old(state), group)
    {
      var k := 0;
      while k < |group|
        invariant 0 <= k <= |group| && |state| == |old(state)|
        invariant forall i :: 0 <= i < |state| ==> state[i] == if i in group[..k] then old(state)[i].(unswept := 0) else old(state)[i]
      {
        state := state[group[k] := state[group[k]].(unswept := 0)];
        assert group[..k + 1] == group[..k] + [group[k]];
        k := k + 1;
      }
      assert group[..k] == group;
    }

    /** The rate picks complete at over the recent window; older completions are let go. */
    method Drain(at: Time) returns (rate: real)
      modifies this`completions
      ensures completions == Lately(old(completions), at - DRAIN_WINDOW)
      ensures rate == Rate(|completions|, at)
    {
      var cutoff := at - DRAIN_WINDOW;
      var drop := 0;
      assert completions[0..] == completions;
      while drop < |completions| && completions[drop] < cutoff
        invariant 0 <= drop <= |completions|
        invariant Lately(completions[drop..], cutoff) == Lately(completions, cutoff)
      {
        assert completions[drop..][1..] == completions[drop + 1..];
        drop := drop + 1;
      }
      completions := completions[drop..];
      var over := if at < DRAIN_WINDOW then at else DRAIN_WINDOW;
      if over <= 0 || |completions| == 0 {
        return 0.0;
      }
      return |completions| as real / over as real;
    }

    /** The one loop over events, proved to make every sum a trigger is shown. */
    method ObserveNow(at: Time, valued: nat -> bool) returns (o: Observation)
      requires |state| == |setup.events|
      modifies this`completions
      ensures o == Observe(setup, old(View()), at, valued)
      ensures completions == Lately(old(completions), at - DRAIN_WINDOW)
    {
      ghost var all: nat -> bool := _ => true;
      var sinceLast := at - lastSweep;
      if !swept {
        sinceLast := at;
      }
      var pending, ready, valuable := 0, 0, 0;
      var i := 0;
      while i < |setup.events|
        invariant 0 <= i <= |setup.events|
        invariant pending == Pending(setup, View(), at, all, i)
        invariant valuable == Pending(setup, View(), at, valued, i)
        invariant ready == ReadyPicks(setup, View(), at, i)
      {
        var event := setup.events[i];
        if event.origin <= at {
          var left := event.picks - state[i].processed;
          pending := pending + left;
          if valued(i) {
            valuable := valuable + left;
          }
          if InWindow(setup, at, event) {
            ready := ready + state[i].unswept;
          }
        }
        i := i + 1;
      }
      AllPending(setup, View(), at, all, i);
      var rate := Drain(at);
      o := Observation(pending, ready, valuable, rate, sinceLast);
    }

    /** One finished job taken in, or refused. */
    method TakeOne(at: Time, id: JobId) returns (step: Result<FlowStep>)
      requires Ordered() && Indexed(setup, View())
      modifies this`state, this`next, this`issued, this`done, this`completions
      ensures (View(), step) == Take(setup, old(View()), at, id)
    {
      if id in done {
        return Err;
      }
      done := done + {id};
      if id in issued && issued[id].stage == StageAssociate {
        var jobs := LocateAll(at, issued[id].events);
        return Ok(NO_STEP.(submit := jobs));
      } else if id in issued && issued[id].stage == StageLocate {
        var located := MarkAllLocated(issued[id].events);
        return Ok(NO_STEP.(located := located));
      }
      var event := Pick(id);
      if event.None? {
        return Err;
      }
      var t := state[event.value];
      state := state[event.value := t.(processed := t.processed + 1, unswept := t.unswept + 1)];
      completions := completions + [at];
      return Ok(NO_STEP.(picks := [id]));
    }

    method MarkAllLocated(events: seq<nat>) returns (located: seq<nat>)
      requires forall k :: 0 <= k < |events| ==> events[k] < |state|
      modifies this`state
      ensures (state, located) == MarkLocated(old(state), events)
    {
      located := [];
      var k := 0;
      assert events[0..] == events;
      while k < |events|
        invariant 0 <= k <= |events| && |state| == |old(state)|
        invariant MarkLocated(old(state), events).0 == MarkLocated(state, events[k..]).0
        invariant MarkLocated(old(state), events).1 == located + MarkLocated(state, events[k..]).1
      {
        assert events[k..][0] == events[k] && events[k..][1..] == events[k + 1..];
        if !state[events[k]].located {
          state := state[events[k] := state[events[k]].(located := true)];
          located := located + [events[k]];
        } else {
          assert state == state[events[k] := state[events[k]].(located := true)];
        }
        k := k + 1;
      }
      assert MarkLocated(state, events[k..]) == (state, []);
      assert located + [] == located;
    }

    /** The workflow moved to an instant: what finished is recorded, a sweep is decided on,
        and the work to submit is returned. */
    method Advance(at: Time, finished: seq<JobId>, valued: nat -> bool) returns (step: Result<FlowStep>)
      requires Ordered() && Indexed(setup, View())
      modifies this
      ensures (View(), step) == AdvanceFlow(setup, old(View()), at, finished, valued)
    {
      hide Take, Decide, Observe, SweepNow;
      var so := NO_STEP;
      var k := 0;
      assert finished[0..] == finished;
      NothingThen(TakeAll(setup, View(), at, finished).1);
      while k < |finished|
        invariant 0 <= k <= |finished| && Indexed(setup, View())
        invariant TakeAll(setup, old(View()), at, finished).0 == TakeAll(setup, View(), at, finished[k..]).0
        invariant TakeAll(setup, old(View()), at, finished).1 ==
                  match TakeAll(setup, View(), at, finished[k..]).1 case Ok(rest) => Ok(so.Then(rest)) case Err => Err
      {
        assert finished[k..][0] == finished[k] && finished[k..][1..] == finished[k + 1..];
        TakeKeepsIndexed(setup, View(), at, finished[k]);
        var one := TakeOne(at, finished[k]);
        if one.Err? {
          return Err;
        }
        ThenInTurn(so, one.value, TakeAll(setup, View(), at, finished[k + 1..]).1);
        so := so.Then(one.value);
        k := k + 1;
      }
      assert finished[k..] == [];
      ThenNothing(so);
      TakeAllKeepsIndexed(setup, old(View()), at, finished);
      var seen := ObserveNow(at, valued);
      var sweep := Decide(setup.plan.trigger, seen);
      var jobs := [];
      if sweep {
        jobs := SweepOnce(at);
      }
      step := Ok(so.Then(FlowStep(jobs, sweep, [], [])));
    }
  }

  lemma ThenNothing(a: FlowStep)
    ensures a.Then(NO_STEP) == a
  {
  }

  lemma NothingThen(rest: Result<FlowStep>)
    ensures rest.Ok? ==> NO_STEP.Then(rest.value) == rest.value
  {
  }

  lemma ThenInTurn(a: FlowStep, b: FlowStep, rest: Result<FlowStep>)
    ensures rest.Ok? ==> a.Then(b).Then(rest.value) == a.Then(b.Then(rest.value))
  {
  }

  lemma {:induction false} AllPending(w: Setup, f: Flow, at: Time, all: nat -> bool, n: nat)
    requires n <= |f.tallies| == |w.events| && forall i :: all(i)
    ensures Pending(w, f, at, all, n) == Pending(w, f, at, _ => true, n)
  {
    if n > 0 {
      AllPending(w, f, at, all, n - 1);
    }
  }
}
