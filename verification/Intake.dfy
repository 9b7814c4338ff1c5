/** What finishing work does to the workflow's own account of events, over an interval:
    internal/pipeline/pipeline.go:185-264. */
module Intake {
  import opened Basics
  import opened Work
  import Triggers
  import opened Workflow
  import opened WorkflowLaws
  import opened WorkflowRuns

  /** A job is a locate of an event. */
  predicate LocateOf(f: Flow, id: JobId, i: nat)
  {
    id in f.issued && f.issued[id].stage == StageLocate && i in f.issued[id].events
  }

  ghost predicate SomeLocateOf(f: Flow, finished: seq<JobId>, i: nat) { exists k :: 0 <= k < |finished| && LocateOf(f, finished[k], i) }

  predicate Once(s: seq<nat>) { forall i, j :: 0 <= i < j < |s| ==> s[i] != s[j] }

  function Repeated(at: Time, n: nat): seq<Time> { seq(n, _ => at) }

  /** What is taken in: every pick done is one more no sweep has grouped, and completed now; an
      event is located once a locate of it is done, and is named as located the first time. */
  ghost predicate TakenIn(w: Setup, known: Flow, f: Flow, at: Time, finished: seq<JobId>, r: Flow, step: FlowStep)
  {
    && |r.tallies| == |f.tallies| == |w.events| && Once(step.located)
    && (forall i: nat :: i < |w.events| ==>
          && r.tallies[i].unswept - f.tallies[i].unswept == r.tallies[i].processed - f.tallies[i].processed
          && (r.tallies[i].located <==> f.tallies[i].located || SomeLocateOf(known, finished, i)))
    && (forall i: nat :: i in step.located <==> i < |w.events| && r.tallies[i].located && !f.tallies[i].located)
    && r.completions == f.completions + Repeated(at, |step.picks|)
  }

  lemma {:induction false} MarkedAll(tallies: seq<Tally>, events: seq<nat>)
    requires forall k :: 0 <= k < |events| ==> events[k] < |tallies|
    ensures var (after, located) := MarkLocated(tallies, events);
            && |after| == |tallies|
            && forall i: nat :: i in located <==> i < |tallies| && after[i].located && !tallies[i].located
    decreases |events|
  {
    if events != [] {
      var i := events[0];
      MarkLocatedKeeps(tallies, events);
      MarkedAll(tallies[i := tallies[i].(located := true)], events[1..]);
    }
  }

  lemma {:induction false} LocatesLeave(w: Setup, f: Flow, at: Time, events: seq<nat>)
    ensures var r := Locates(w, f, at, events).0;
            r.tallies == f.tallies && r.completions == f.completions
    decreases |events|
  {
    if events != [] {
      LocatesLeave(w, Issue(f, Job(0, at, w.plan.locate.priority, w.drawn(f.next), events[0], StageLocate), [events[0]]).0, at, events[1..]);
    }
  }

  lemma TakenOne(w: Setup, known: Flow, f: Flow, at: Time, id: JobId)
    requires Indexed(w, f) && Take(w, f, at, id).1.Ok?
    requires id in f.issued <==> id in known.issued
    requires id in f.issued ==> f.issued[id] == known.issued[id]
    ensures var (r, step) := Take(w, f, at, id); TakenIn(w, known, f, at, [id], r, step.value)
  {
    forall i: nat ensures SomeLocateOf(known, [id], i) <==> LocateOf(f, id, i) {
      assert [id][0] == id;
    }
    if id in f.issued && f.issued[id].stage == StageAssociate {
      LocatesLeave(w, f.(done := f.done + {id}), at, f.issued[id].events);
    } else if id in f.issued && f.issued[id].stage == StageLocate {
      MarkLocatedKeeps(f.tallies, f.issued[id].events);
      MarkedAll(f.tallies, f.issued[id].events);
    }
  }

  lemma TakenThen(w: Setup, known: Flow, f: Flow, at: Time, finished: seq<JobId>, f1: Flow, one: FlowStep, r: Flow, rest: FlowStep)
    requires finished != [] && TakenIn(w, known, f, at, [finished[0]], f1, one) && TakenIn(w, known, f1, at, finished[1..], r, rest)
    ensures TakenIn(w, known, f, at, finished, r, one.Then(rest))
  {
    forall i: nat ensures SomeLocateOf(known, finished, i) <==> SomeLocateOf(known, [finished[0]], i) || SomeLocateOf(known, finished[1..], i) {
      SomeFirst(known, finished, i);
    }
    hide SomeLocateOf;
    assert Repeated(at, |one.picks|) + Repeated(at, |rest.picks|) == Repeated(at, |one.picks + rest.picks|);
    var located := one.Then(rest).located;
    assert located == one.located + rest.located;
    forall i: nat ensures i in located <==> i < |w.events| && r.tallies[i].located && !f.tallies[i].located {
      assert i in located <==> i in one.located || i in rest.located;
    }
    assert forall k :: 0 <= k < |one.located| ==> one.located[k] in one.located;
    assert forall k :: 0 <= k < |rest.located| ==> rest.located[k] in rest.located;
  }

  lemma SomeFirst(f: Flow, finished: seq<JobId>, i: nat)
    requires finished != []
    ensures SomeLocateOf(f, finished, i) <==> SomeLocateOf(f, [finished[0]], i) || SomeLocateOf(f, finished[1..], i)
  {
    var rest := finished[1..];
    if k :| 0 <= k < |finished| && LocateOf(f, finished[k], i) {
      assert k == 0 ==> LocateOf(f, [finished[0]][0], i);
      assert k > 0 ==> rest[k - 1] == finished[k];
    }
    if k :| 0 <= k < |rest| && LocateOf(f, rest[k], i) {
      assert finished[k + 1] == rest[k];
    }
  }

  lemma {:induction false} TakesAllIn(w: Setup, first: JobId, known: Flow, f: Flow, at: Time, finished: seq<JobId>)
    requires Laid(w.events, first) && Holds(w, first, known, []) && Holds(w, first, f, []) && Grown(known, f) && Indexed(w, f)
    requires forall k :: 0 <= k < |finished| ==> finished[k] < known.next
    ensures var (r, step) := TakeAll(w, f, at, finished);
            step.Ok? ==> TakenIn(w, known, f, at, finished, r, step.value)
    decreases |finished|
  {
    hide Holds, Laid, Take, Indexed, Grown, Handed, TakenIn;
    if finished == [] {
      NoneTakenIn(w, known, f, at);
    } else {
      var (f1, one) := Take(w, f, at, finished[0]);
      TakeKeeps(w, first, f, at, finished[0]);
      TakeKeepsIndexed(w, f, at, finished[0]);
      if one.Ok? {
        GrownThen(known, f, f1);
        IssuedForGood(w, first, known, f, finished[0]);
        TakenOne(w, known, f, at, finished[0]);
        TakesAllIn(w, first, known, f1, at, finished[1..]);
        var (r, rest) := TakeAll(w, f1, at, finished[1..]);
        if rest.Ok? {
          TakenThen(w, known, f, at, finished, f1, one.value, r, rest.value);
        }
      }
    }
  }

  lemma NoneTakenIn(w: Setup, known: Flow, f: Flow, at: Time)
    requires Indexed(w, f)
    ensures TakenIn(w, known, f, at, [], f, NO_STEP)
  {
    assert f.completions + Repeated(at, 0) == f.completions;
  }

  /** What an interval makes of each event: each of its picks that finished is counted, and is
      ungrouped until a sweep groups it; if a sweep went out and the event was to be grouped, none of
      it is ungrouped; and it is located, and said to be, once a locate of it has finished. */
  lemma IntervalTakesIn(w: Setup, first: JobId, f: Flow, at: Time, finished: seq<JobId>, valued: nat -> bool)
    requires Laid(w.events, first) && Holds(w, first, f, []) && Indexed(w, f)
    requires forall k :: 0 <= k < |finished| ==> finished[k] < f.next
    ensures var (r, step) := AdvanceFlow(w, f, at, finished, valued);
            var taken := TakeAll(w, f, at, finished).0;
            step.Ok? ==>
              && |r.tallies| == |f.tallies| == |taken.tallies| == |w.events| && Once(step.value.located)
              && (forall i: nat :: i < |w.events| ==>
                    && r.tallies[i].processed == |DonePicks(w.events[i], r.done)|
                    && f.tallies[i].processed == |DonePicks(w.events[i], f.done)|
                    && r.tallies[i].unswept == (if Swept(step.value) && Candidate(w, taken, at, i) then 0
                                                else f.tallies[i].unswept + r.tallies[i].processed - f.tallies[i].processed)
                    && (r.tallies[i].located <==> f.tallies[i].located || SomeLocateOf(f, finished, i)))
              && (forall i: nat :: i in step.value.located <==> i < |w.events| && r.tallies[i].located && !f.tallies[i].located)
              && r.lastSweep == (if Swept(step.value) then at else f.lastSweep) && r.swept == (f.swept || Swept(step.value))
  {
    hide Holds, Laid, TakeAll, AllFinishable, Handed, AllLocates, Candidate, SomeLocateOf, DonePicks, SweepNow, Triggers.Decide, Observe, Lately, Swept, PicksAmong;
    assert Grown(f, f);
    TakesAllIn(w, first, f, f, at, finished);
    TakeAllKeeps(w, first, f, f, at, finished);
    TakeAllKeepsIndexed(w, f, at, finished);
    AdvanceKeeps(w, first, f, at, finished, valued);
    TallyIs(w, first, f);
    var (taken, taking) := TakeAll(w, f, at, finished);
    var (r, step) := AdvanceFlow(w, f, at, finished, valued);
    if step.Ok? {
      TallyIs(w, first, r);
      var ready := taken.(completions := Lately(taken.completions, at - DRAIN_WINDOW));
      SweptNow(w, taken, ready, at);
      AfterLocates(taking.value, SweepNow(w, ready, at).1);
      AfterLocates(taking.value, []);
    }
  }

  lemma TallyIs(w: Setup, first: JobId, f: Flow)
    requires Holds(w, first, f, [])
    ensures |f.tallies| == |w.events| && forall i: nat :: i < |w.events| ==> f.tallies[i].processed == |DonePicks(w.events[i], f.done)|
  {
  }

  /** A sweep empties exactly what was to be grouped, and is the latest. */
  lemma SweptNow(w: Setup, f: Flow, ready: Flow, at: Time)
    requires |f.tallies| == |w.events| && ready == f.(completions := ready.completions)
    ensures var (r, jobs) := SweepNow(w, ready, at);
            && |r.tallies| == |f.tallies|
            && (forall i: nat :: i < |w.events| ==> r.tallies[i] == if Candidate(w, f, at, i) then f.tallies[i].(unswept := 0) else f.tallies[i])
            && (jobs == [] ==> r == ready && forall i: nat :: i < |w.events| ==> !Candidate(w, f, at, i))
            && (jobs != [] ==> r.lastSweep == at && r.swept && |jobs| == 1 && jobs[0].stage == StageAssociate)
  {
    var group := Candidates(w, ready, at, |w.events|);
    CandidatesHold(w, ready, at, |w.events|);
    forall i: nat ensures i in group <==> i < |w.events| && Candidate(w, f, at, i) {
      assert Candidate(w, ready, at, i) <==> Candidate(w, f, at, i);
    }
    forall i: nat | i < |w.events| && group == [] ensures !Candidate(w, f, at, i) {
      assert i !in group;
    }
  }

  lemma AfterLocates(step: FlowStep, jobs: seq<Job>)
    requires AllLocates(step.submit) && |jobs| <= 1 && forall k :: 0 <= k < |jobs| ==> jobs[k].stage == StageAssociate
    ensures forall sweep, picks :: Swept(step.Then(FlowStep(jobs, sweep, [], picks))) <==> jobs != []
    ensures forall sweep :: step.Then(FlowStep(jobs, sweep, [], [])).located == step.located
  {
    forall sweep, picks ensures Swept(step.Then(FlowStep(jobs, sweep, [], picks))) <==> jobs != [] {
      var all := step.Then(FlowStep(jobs, sweep, [], picks)).submit;
      assert all == step.submit + jobs;
      assert jobs != [] ==> all[|step.submit|] == jobs[0];
    }
  }
}
