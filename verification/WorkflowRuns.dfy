/** What an interval of the mine's workflow does, and what holds over a whole run of them:
    internal/pipeline/pipeline.go. */
module WorkflowRuns {
  import opened Basics
  import opened Work
  import opened Triggers
  import opened Workflow
  import opened WorkflowLaws

  // ---------- One finished job ----------

  /** A job that can be reported finished: not yet done, and a pick or the workflow's own. */
  predicate Finishable(w: Setup, f: Flow, id: JobId)
  {
    id !in f.done && (id in f.issued || PickOf(w.events, id).Some?)
  }

  /** What the jobs a flow hands over are: identities one after the other from the next, for
      now, of its own two stages, and for events it knows. */
  ghost predicate Handed(w: Setup, from: JobId, at: Time, jobs: seq<Job>)
  {
    forall k :: 0 <= k < |jobs| ==>
      && jobs[k].id == from + k && jobs[k].submittedAt == at
      && match jobs[k].stage
         case StageAssociate => jobs[k].event == NO_EVENT && jobs[k].priority == w.plan.associate.priority &&
                                exists n: nat :: jobs[k].seconds == w.plan.associate.Cost(n)
         case StageLocate => 0 <= jobs[k].event < |w.events| && jobs[k].priority == w.plan.locate.priority &&
                             jobs[k].seconds == w.drawn(jobs[k].id)
         case StagePick => false
  }

  predicate AllLocates(jobs: seq<Job>) { forall k :: 0 <= k < |jobs| ==> jobs[k].stage == StageLocate }

  /** Nothing a flow knows is forgotten. */
  ghost predicate Grown(f: Flow, r: Flow)
  {
    && f.next <= r.next && f.done <= r.done && |r.tallies| == |f.tallies|
    && (forall id :: id in f.issued ==> id in r.issued && r.issued[id] == f.issued[id])
    && (forall i :: 0 <= i < |f.tallies| ==> r.tallies[i].processed >= f.tallies[i].processed)
    && r.lastSweep == f.lastSweep && r.swept == f.swept
  }

  lemma GrownThen(a: Flow, b: Flow, c: Flow)
    requires Grown(a, b) && Grown(b, c)
    ensures Grown(a, c)
  {
  }

  /** What one finished job makes the workflow do. */
  ghost predicate Taken(w: Setup, first: JobId, f: Flow, at: Time, id: JobId, r: Flow, step: FlowStep)
  {
    && Holds(w, first, r, []) && Grown(f, r)
    && r.done == f.done + {id} && r.next == f.next + |step.submit|
    && Handed(w, f.next, at, step.submit) && AllLocates(step.submit)
    && (step.located != [] ==>
          id in f.issued && forall k :: 0 <= k < |step.located| ==> step.located[k] in f.issued[id].events)
    && step.picks == (if id in f.issued then [] else [id])
    && !step.associate
  }

  lemma IssuedHas(w: Setup, first: JobId, f: Flow, id: JobId)
    requires Holds(w, first, f, [])
    ensures |f.tallies| == |w.events|
    ensures id in f.issued ==>
              && f.issued[id].stage != StagePick
              && (f.issued[id].stage == StageAssociate ==> Ascending(f.issued[id].events))
              && (forall k :: 0 <= k < |f.issued[id].events| ==>
                    f.issued[id].events[k] < |f.tallies| && f.tallies[f.issued[id].events[k]].processed >= MINIMUM_PICKS)
  {
    assert id in f.issued ==> Purposeful(f.issued[id], f.tallies);
  }

  lemma TakeSweep(w: Setup, first: JobId, f: Flow, at: Time, id: JobId)
    requires Laid(w.events, first) && Holds(w, first, f, []) && Indexed(w, f)
    requires id in f.issued && id !in f.done && f.issued[id].stage == StageAssociate
    ensures var (r, step) := Take(w, f, at, id);
            step.Ok? && Taken(w, first, f, at, id, r, step.value)
  {
    hide Holds, Laid, Indexed, Purposeful;
    IssuedHas(w, first, f, id);
    SweepFinishes(w, first, f, id);
    LocatesKeep(w, first, f.(done := f.done + {id}), at, f.issued[id].events);
  }

  lemma TakeLocate(w: Setup, first: JobId, f: Flow, at: Time, id: JobId)
    requires Laid(w.events, first) && Holds(w, first, f, []) && Indexed(w, f)
    requires id in f.issued && id !in f.done && f.issued[id].stage == StageLocate
    ensures var (r, step) := Take(w, f, at, id);
            step.Ok? && Taken(w, first, f, at, id, r, step.value)
  {
    hide Holds, Laid, Indexed;
    IssuedHas(w, first, f, id);
    MarkLocatedKeeps(f.tallies, f.issued[id].events);
    LocateFinishes(w, first, f, id, MarkLocated(f.tallies, f.issued[id].events).0);
  }

  lemma TakePick(w: Setup, first: JobId, f: Flow, at: Time, id: JobId)
    requires Laid(w.events, first) && Holds(w, first, f, []) && Indexed(w, f)
    requires PickOf(w.events, id).Some? && id !in f.done
    ensures var (r, step) := Take(w, f, at, id);
            step.Ok? && Taken(w, first, f, at, id, r, step.value)
  {
    hide Known, Tallied, Followed, Laid, PickOf, Indexed;
    var e := PickOf(w.events, id).value;
    IssuedHas(w, first, f, id);
    PickIsNotOwn(w, first, f, id, e);
    PickFinishes(w, first, f, id, e, f.completions + [at]);
  }

  /** A job is taken in exactly when it can be reported finished. */
  lemma TakeKeeps(w: Setup, first: JobId, f: Flow, at: Time, id: JobId)
    requires Laid(w.events, first) && Holds(w, first, f, []) && Indexed(w, f)
    ensures var (r, step) := Take(w, f, at, id);
            && (step.Ok? <==> Finishable(w, f, id))
            && (step.Ok? ==> Taken(w, first, f, at, id, r, step.value))
  {
    assert id in f.issued ==> Purposeful(f.issued[id], f.tallies) && f.issued[id].stage != StagePick;
    hide Holds, Laid, Taken, PickOf;
    if id !in f.done {
      if id in f.issued && f.issued[id].stage == StageAssociate {
        TakeSweep(w, first, f, at, id);
      } else if id in f.issued {
        TakeLocate(w, first, f, at, id);
      } else if PickOf(w.events, id).Some? {
        TakePick(w, first, f, at, id);
      }
    }
  }

  // ---------- Everything finished in an interval ----------

  function AsSet(ids: seq<JobId>): set<JobId> { set id | id in ids }

  function PicksAmong(issued: set<JobId>, finished: seq<JobId>): seq<JobId>
  {
    if finished == [] then []
    else (if finished[0] in issued then [] else [finished[0]]) + PicksAmong(issued, finished[1..])
  }

  /** Finished jobs that can all be reported, none twice. */
  predicate AllFinishable(w: Setup, f: Flow, finished: seq<JobId>)
  {
    && (forall k :: 0 <= k < |finished| ==> Finishable(w, f, finished[k]))
    && (forall k, l :: 0 <= k < l < |finished| ==> finished[k] != finished[l])
  }

  /** What everything finished in an interval makes of the workflow. Each event located had
      four picks processed before the interval began. */
  ghost predicate AllTaken(w: Setup, first: JobId, base: Flow, f: Flow, at: Time, finished: seq<JobId>, r: Flow, step: FlowStep)
  {
    && Holds(w, first, r, []) && Grown(f, r)
    && r.done == f.done + AsSet(finished) && r.next == f.next + |step.submit|
    && Handed(w, f.next, at, step.submit) && AllLocates(step.submit)
    && (forall k :: 0 <= k < |step.located| ==>
          step.located[k] < |base.tallies| && base.tallies[step.located[k]].processed >= MINIMUM_PICKS)
    && step.picks == PicksAmong(base.issued.Keys, finished)
    && !step.associate
  }

  lemma HandedJoin(w: Setup, from: JobId, at: Time, a: seq<Job>, b: seq<Job>)
    requires Handed(w, from, at, a) && Handed(w, from + |a|, at, b)
    ensures Handed(w, from, at, a + b)
  {
    forall k | |a| <= k < |a + b| ensures (a + b)[k].id == from + k {
      assert (a + b)[k] == b[k - |a|];
    }
  }

  /** After the first is taken, the rest can be reported exactly when they all could. */
  lemma RestFinishable(w: Setup, base: Flow, f: Flow, r: Flow, finished: seq<JobId>)
    requires finished != [] && Finishable(w, f, finished[0]) && Grown(f, r) && r.done == f.done + {finished[0]}
    requires forall k :: 0 <= k < |finished| ==> finished[k] in r.issued ==> finished[k] in f.issued
    ensures AllFinishable(w, f, finished) <==> AllFinishable(w, r, finished[1..])
  {
    hide PickOf;
    var rest := finished[1..];
    assert forall k :: 0 <= k < |rest| ==> rest[k] == finished[k + 1];
    if AllFinishable(w, r, rest) {
      forall k | 1 <= k < |finished| ensures Finishable(w, f, finished[k]) && finished[k] != finished[0] {
        assert Finishable(w, r, rest[k - 1]);
      }
      forall k, l | 1 <= k < l < |finished| ensures finished[k] != finished[l] {
        assert rest[k - 1] != rest[l - 1];
      }
    }
    if AllFinishable(w, f, finished) {
      forall k | 0 <= k < |rest| ensures Finishable(w, r, rest[k]) {
        assert Finishable(w, f, finished[k + 1]);
      }
    }
  }

  /** Identities below the next are issued or not for good. */
  lemma IssuedForGood(w: Setup, first: JobId, a: Flow, b: Flow, id: JobId)
    requires Holds(w, first, a, []) && Holds(w, first, b, []) && Grown(a, b) && id < a.next
    ensures id in b.issued <==> id in a.issued
    ensures id in a.issued ==>
              Purposeful(a.issued[id], a.tallies) && b.issued[id] == a.issued[id]
  {
  }

  /** An interval's finished jobs are taken in exactly when all can be reported and none is
      reported twice. */
  lemma {:induction false} TakeAllKeeps(w: Setup, first: JobId, base: Flow, f: Flow, at: Time, finished: seq<JobId>)
    requires Laid(w.events, first) && Holds(w, first, base, []) && Holds(w, first, f, []) && Grown(base, f) && Indexed(w, f)
    requires forall k :: 0 <= k < |finished| ==> finished[k] < base.next
    ensures var (r, step) := TakeAll(w, f, at, finished);
            && (step.Ok? <==> AllFinishable(w, f, finished))
            && (step.Ok? ==> AllTaken(w, first, base, f, at, finished, r, step.value))
    decreases |finished|
  {
    hide Holds, Laid, Take, Finishable, Handed, Indexed, Grown;
    if finished == [] {
      NothingTaken(w, first, base, f, at);
    } else {
      var id := finished[0];
      var (r1, one) := Take(w, f, at, id);
      TakeKeeps(w, first, f, at, id);
      TakeKeepsIndexed(w, f, at, id);
      if one.Ok? {
        GrownThen(base, f, r1);
        TakeAllKeeps(w, first, base, r1, at, finished[1..]);
        FirstTaken(w, first, base, f, at, finished, r1, one.value);
      }
    }
  }

  lemma NothingTaken(w: Setup, first: JobId, base: Flow, f: Flow, at: Time)
    requires Holds(w, first, f, [])
    ensures AllFinishable(w, f, []) && AllTaken(w, first, base, f, at, [], f, NO_STEP)
  {
    assert AsSet([]) == {};
  }

  lemma FirstTaken(w: Setup, first: JobId, base: Flow, f: Flow, at: Time, finished: seq<JobId>, r1: Flow, one: FlowStep)
    requires Holds(w, first, base, []) && Holds(w, first, f, []) && Grown(base, f) && Indexed(w, f)
    requires finished != [] && forall k :: 0 <= k < |finished| ==> finished[k] < base.next
    requires Finishable(w, f, finished[0]) && Taken(w, first, f, at, finished[0], r1, one) && Indexed(w, r1)
    ensures AllFinishable(w, f, finished) <==> AllFinishable(w, r1, finished[1..])
    ensures var (r, rest) := TakeAll(w, r1, at, finished[1..]);
            rest.Ok? && AllTaken(w, first, base, r1, at, finished[1..], r, rest.value) ==>
              AllTaken(w, first, base, f, at, finished, r, one.Then(rest.value))
  {
    hide Holds, TakeAll, Handed, Finishable, Purposeful;
    assert AllLocates(one.submit);
    forall k | 0 <= k < |finished| ensures finished[k] in r1.issued ==> finished[k] in f.issued {
      IssuedForGood(w, first, f, r1, finished[k]);
    }
    RestFinishable(w, base, f, r1, finished);
    IssuedForGood(w, first, base, f, finished[0]);
    var (r, rest) := TakeAll(w, r1, at, finished[1..]);
    if rest.Ok? && AllTaken(w, first, base, r1, at, finished[1..], r, rest.value) {
      HandedJoin(w, f.next, at, one.submit, rest.value.submit);
      assert finished == [finished[0]] + finished[1..];
      DoneJoin(f.done, finished);
      LocatedHadPicks(base, f, finished[0], one);
      GrownThen(f, r1, r);
      LocatedJoin(base, one.located, rest.value.located);
    }
  }

  lemma LocatedJoin(base: Flow, a: seq<nat>, b: seq<nat>)
    requires forall k :: 0 <= k < |a| ==> a[k] < |base.tallies| && base.tallies[a[k]].processed >= MINIMUM_PICKS
    requires forall k :: 0 <= k < |b| ==> b[k] < |base.tallies| && base.tallies[b[k]].processed >= MINIMUM_PICKS
    ensures forall k :: 0 <= k < |a + b| ==> (a + b)[k] < |base.tallies| && base.tallies[(a + b)[k]].processed >= MINIMUM_PICKS
  {
  }

  lemma DoneJoin(done: set<JobId>, finished: seq<JobId>)
    requires finished != []
    ensures (done + {finished[0]}) + AsSet(finished[1..]) == done + AsSet(finished)
  {
    assert finished == [finished[0]] + finished[1..];
  }

  lemma LocatedHadPicks(base: Flow, f: Flow, id: JobId, one: FlowStep)
    requires one.located != [] ==>
               id in f.issued && forall k :: 0 <= k < |one.located| ==> one.located[k] in f.issued[id].events
    requires id in f.issued ==> id in base.issued && f.issued[id] == base.issued[id] && Purposeful(base.issued[id], base.tallies)
    ensures forall k :: 0 <= k < |one.located| ==>
                          one.located[k] < |base.tallies| && base.tallies[one.located[k]].processed >= MINIMUM_PICKS
  {
  }

  // ---------- One interval ----------

  /** Whether a sweep was submitted. */
  predicate Swept(step: FlowStep) { exists k :: 0 <= k < |step.submit| && step.submit[k].stage == StageAssociate }

  /** What an interval makes of the workflow. */
  ghost predicate Advanced(w: Setup, first: JobId, f: Flow, at: Time, finished: seq<JobId>, r: Flow, step: FlowStep)
  {
    && Holds(w, first, r, []) && Indexed(w, r)
    && r.done == f.done + AsSet(finished) && r.next == f.next + |step.submit|
    && (forall id :: id in f.issued ==> id in r.issued && r.issued[id] == f.issued[id])
    && Handed(w, f.next, at, step.submit)
    && (forall k :: 0 <= k < |step.located| ==> step.located[k] < |f.tallies| && f.tallies[step.located[k]].processed >= MINIMUM_PICKS)
    && step.picks == PicksAmong(f.issued.Keys, finished)
    && |f.tallies| == |r.tallies| == |w.events|
    && (forall i :: 0 <= i < |f.tallies| ==> r.tallies[i].processed >= f.tallies[i].processed)
  }

  /** An interval goes through exactly when what finished can all be reported: each job of it
      a pick or the workflow's own, and none of them done before. */
  lemma AdvanceKeeps(w: Setup, first: JobId, f: Flow, at: Time, finished: seq<JobId>, valued: nat -> bool)
    requires Laid(w.events, first) && Holds(w, first, f, []) && Indexed(w, f)
    requires forall k :: 0 <= k < |finished| ==> finished[k] < f.next
    ensures var (r, step) := AdvanceFlow(w, f, at, finished, valued);
            && (step.Ok? <==> AllFinishable(w, f, finished))
            && (step.Ok? ==> Advanced(w, first, f, at, finished, r, step.value))
  {
    hide Holds, Laid, Indexed, SweepNow, Decide, Observe, TakeAll, Lately, AllFinishable, Handed, AllLocates;
    assert Grown(f, f);
    TakeAllKeeps(w, first, f, f, at, finished);
    TakeAllKeepsIndexed(w, f, at, finished);
    var (taken, step) := TakeAll(w, f, at, finished);
    if step.Ok? {
      var ready := taken.(completions := Lately(taken.completions, at - DRAIN_WINDOW));
      CompletionsDoNotMatter(w, first, taken, ready);
      SweepKeeps(w, first, ready, at);
      SweepIsHanded(w, first, ready, at);
      HandedJoin(w, f.next, at, step.value.submit, SweepNow(w, ready, at).1);
      KnownSize(w, first, f);
      KnownSize(w, first, ready);
      HandedNone(w, first, ready, at);
      KnownSize(w, first, SweepNow(w, ready, at).0);
      assert step.value.submit + [] == step.value.submit && step.value.located + [] == step.value.located && step.value.picks + [] == step.value.picks;
    }
  }

  lemma KnownSize(w: Setup, first: JobId, f: Flow)
    requires Holds(w, first, f, [])
    ensures |f.tallies| == |w.events| && Indexed(w, f)
  {
    KnownIsIndexed(w, first, f);
  }

  lemma HandedNone(w: Setup, first: JobId, f: Flow, at: Time)
    ensures Handed(w, f.next, at, [])
  {
  }

  lemma CompletionsDoNotMatter(w: Setup, first: JobId, f: Flow, r: Flow)
    requires Holds(w, first, f, []) && r == f.(completions := r.completions)
    ensures Holds(w, first, r, [])
  {
    assert Tallied(w, r) by {
      SameTallied(w, f, r);
    }
    forall i: nat ensures SweepsOf(r, i) == SweepsOf(f, i) && LocatesOf(r, i) == LocatesOf(f, i) {
      SameWork(f, r, i);
    }
    SameStages(f, r);
  }

  lemma SweepIsHanded(w: Setup, first: JobId, f: Flow, at: Time)
    requires Holds(w, first, f, []) && |f.tallies| == |w.events|
    ensures Handed(w, f.next, at, SweepNow(w, f, at).1)
  {
    var group := Candidates(w, f, at, |w.events|);
    assert w.plan.associate.Cost(|group|) == w.plan.associate.Cost(|group| as nat);
  }

  /** A sweep is submitted exactly when the trigger decides on one and there is something to
      group. Once it is, nothing is left to group; until then nothing about sweeping changes. */
  lemma SweepOutcome(w: Setup, first: JobId, f: Flow, at: Time, finished: seq<JobId>, valued: nat -> bool)
    requires Laid(w.events, first) && Holds(w, first, f, []) && Indexed(w, f)
    requires forall k :: 0 <= k < |finished| ==> finished[k] < f.next
    ensures var (taken, _) := TakeAll(w, f, at, finished);
            var (r, step) := AdvanceFlow(w, f, at, finished, valued);
            step.Ok? ==>
              && |taken.tallies| == |w.events| && |r.tallies| == |w.events|
              && SinceLast(taken, at) == SinceLast(f, at)
              && (Swept(step.value) <==>
                    Decide(w.plan.trigger, Observe(w, taken, at, valued)) && exists i: nat :: Candidate(w, taken, at, i))
              && (if Swept(step.value) then r.swept && r.lastSweep == at && forall i: nat :: !Candidate(w, r, at, i)
                  else r.swept == f.swept && r.lastSweep == f.lastSweep && r.tallies == taken.tallies)
  {
    hide Holds, Laid, Decide, Observe, TakeAll, Lately, AllFinishable, Handed, Candidates, Candidate;
    assert Grown(f, f);
    TakeAllKeeps(w, first, f, f, at, finished);
    var (taken, step) := TakeAll(w, f, at, finished);
    if step.Ok? {
      var ready := taken.(completions := Lately(taken.completions, at - DRAIN_WINDOW));
      CompletionsDoNotMatter(w, first, taken, ready);
      KnownSize(w, first, ready);
      GroupIsAll(w, taken, ready, at);
      LocatesThenSweep(step.value, SweepNow(w, ready, at).1);
      assert step.value.submit + [] == step.value.submit;
    }
  }

  lemma LocatesThenSweep(step: FlowStep, sweep: seq<Job>)
    requires AllLocates(step.submit) && (forall k :: 0 <= k < |sweep| ==> sweep[k].stage == StageAssociate)
    ensures Swept(step.Then(FlowStep(sweep, true, [], []))) <==> sweep != []
    ensures !Swept(step.Then(FlowStep([], false, [], [])))
  {
    var all := step.Then(FlowStep(sweep, true, [], []));
    if sweep != [] {
      assert all.submit[|step.submit|].stage == StageAssociate;
    }
  }

  lemma GroupIsAll(w: Setup, f: Flow, ready: Flow, at: Time)
    requires |f.tallies| == |w.events| && ready == f.(completions := ready.completions)
    ensures var (r, jobs) := SweepNow(w, ready, at);
            && |r.tallies| == |w.events|
            && (forall k :: 0 <= k < |jobs| ==> jobs[k].stage == StageAssociate)
            && (jobs != [] <==> exists i: nat :: Candidate(w, f, at, i))
            && (if jobs != [] then r.swept && r.lastSweep == at && forall i: nat :: !Candidate(w, r, at, i) else r == ready)
  {
    var group := Candidates(w, ready, at, |w.events|);
    CandidatesHold(w, ready, at, |w.events|);
    forall i: nat ensures Candidate(w, f, at, i) <==> i in group {}
    if group != [] {
      var i := group[0];
      assert i in group;
    }
    var (r, jobs) := SweepNow(w, ready, at);
    forall i: nat | i < |w.events| ensures jobs != [] ==> !Candidate(w, r, at, i) {
      assert i !in group ==> !Candidate(w, ready, at, i);
    }
  }

  // ---------- How long anything waits ----------

  lemma {:induction false} ReadyIsSeen(w: Setup, f: Flow, at: Time, n: nat, i: nat)
    requires i < n <= |f.tallies| == |w.events| && InWindow(w, at, w.events[i]) && f.tallies[i].unswept > 0
    ensures ReadyPicks(w, f, at, n) > 0
  {
    if i < n - 1 {
      ReadyIsSeen(w, f, at, n - 1, i);
    }
  }

  /** Bounded wait: when a trigger's bound has passed since the last sweep, an interval leaves
      no event in the window that has the picks to be located and something no sweep has
      grouped. */
  lemma WaitIsBounded(w: Setup, first: JobId, f: Flow, at: Time, finished: seq<JobId>, valued: nat -> bool)
    requires Laid(w.events, first) && Holds(w, first, f, []) && Indexed(w, f)
    requires forall k :: 0 <= k < |finished| ==> finished[k] < f.next
    requires WellFormed(w.plan.trigger) && Bound(w.plan.trigger).Some? && SinceLast(f, at) >= Bound(w.plan.trigger).value
    ensures var (r, step) := AdvanceFlow(w, f, at, finished, valued);
            step.Ok? ==> |r.tallies| == |w.events| && forall i: nat :: !Candidate(w, r, at, i)
  {
    hide AdvanceFlow, TakeAll, Holds, Laid, Decide;
    SweepOutcome(w, first, f, at, finished, valued);
    var taken := TakeAll(w, f, at, finished).0;
    var (r, step) := AdvanceFlow(w, f, at, finished, valued);
    if step.Ok? {
      if i: nat :| Candidate(w, taken, at, i) {
        ReadyIsSeen(w, taken, at, |w.events|, i);
        BoundIsMet(w.plan.trigger, Observe(w, taken, at, valued));
      } else {
        forall i: nat ensures !Candidate(w, r, at, i) {
          assert !Candidate(w, taken, at, i);
        }
      }
    }
  }

  /** And no sweep comes sooner than a trigger's gap after the last. */
  lemma GapIsObserved(w: Setup, first: JobId, f: Flow, at: Time, finished: seq<JobId>, valued: nat -> bool)
    requires Laid(w.events, first) && Holds(w, first, f, []) && Indexed(w, f)
    requires forall k :: 0 <= k < |finished| ==> finished[k] < f.next
    requires SinceLast(f, at) >= 0
    ensures var (r, step) := AdvanceFlow(w, f, at, finished, valued);
            step.Ok? && Swept(step.value) ==> SinceLast(f, at) >= Gap(w.plan.trigger)
  {
    hide AdvanceFlow, TakeAll, Holds, Laid, Decide, Swept;
    SweepOutcome(w, first, f, at, finished, valued);
    var taken := TakeAll(w, f, at, finished).0;
    var (r, step) := AdvanceFlow(w, f, at, finished, valued);
    if step.Ok? && Swept(step.value) {
      GapIsKept(w.plan.trigger, Observe(w, taken, at, valued));
    }
  }

  // ---------- Whole runs ----------

  /** An event is grouped by at most as many sweeps as it has picks past the third. */
  lemma SweepsAreFew(w: Setup, first: JobId, f: Flow, i: nat)
    requires Laid(w.events, first) && Holds(w, first, f, []) && i < |w.events|
    ensures |SweepsOf(f, i)| <= Max(0, w.events[i].picks - 3)
  {
    var e := w.events[i];
    RangeSize(e.firstJob, e.picks, DonePicks(e, f.done));
    assert SweepsOf(f, i) == {} ==> |SweepsOf(f, i)| == 0;
  }

  lemma {:induction false} RangeSize(from: int, n: nat, ids: set<int>)
    requires forall id :: id in ids ==> from <= id < from + n
    ensures |ids| <= n
    decreases n
  {
    if n == 0 {
      assert forall id :: id !in ids;
      assert ids == {};
    } else {
      RangeSize(from, n - 1, ids - {from + n - 1});
      assert ids <= (ids - {from + n - 1}) + {from + n - 1};
      assert |ids| <= |ids - {from + n - 1}| + 1;
    }
  }

  /** Each event has a locate for every finished sweep that grouped it; so once everything
      issued is done, each has as many locates as sweeps, and there are at least as many
      locates in all as sweeps. */
  lemma LocatesFollowSweeps(w: Setup, first: JobId, f: Flow)
    requires Holds(w, first, f, [])
    ensures forall i: nat :: |LocatesOf(f, i)| <= |SweepsOf(f, i)|
    ensures (forall id :: id in f.issued ==> id in f.done) ==>
              && (forall i: nat :: |LocatesOf(f, i)| == |SweepsOf(f, i)|)
              && |AllOf(f, StageLocate)| >= |AllOf(f, StageAssociate)|
  {
    forall i: nat ensures |SweepsOf(f, i) * f.done| <= |SweepsOf(f, i)| {
      assert SweepsOf(f, i) == (SweepsOf(f, i) * f.done) + (SweepsOf(f, i) - f.done);
    }
    if forall id :: id in f.issued ==> id in f.done {
      forall i: nat ensures SweepsOf(f, i) * f.done == SweepsOf(f, i) {}
      assert AllOf(f, StageAssociate) * f.done == AllOf(f, StageAssociate);
    }
  }

  /** One interval's input. */
  datatype Beat = Beat(at: Time, finished: seq<JobId>, valued: nat -> bool)

  /** A run whose every interval comes no earlier than the last and can be gone through. */
  ghost predicate Goes(w: Setup, first: JobId, f: Flow, since: Time, beats: seq<Beat>)
    requires Laid(w.events, first) && Holds(w, first, f, []) && Indexed(w, f)
    decreases |beats|
  {
    beats != [] ==>
      var b := beats[0];
      && b.at >= since && AllFinishable(w, f, b.finished) && (forall k :: 0 <= k < |b.finished| ==> b.finished[k] < f.next)
      && (AdvanceKeeps(w, first, f, b.at, b.finished, b.valued);
          Goes(w, first, AdvanceFlow(w, f, b.at, b.finished, b.valued).0, b.at, beats[1..]))
  }

  /** When sweeps are submitted over a run. */
  ghost function SweepTimes(w: Setup, first: JobId, f: Flow, since: Time, beats: seq<Beat>): seq<Time>
    requires Laid(w.events, first) && Holds(w, first, f, []) && Indexed(w, f) && Goes(w, first, f, since, beats)
    decreases |beats|
  {
    if beats == [] then []
    else
      var b := beats[0];
      AdvanceKeeps(w, first, f, b.at, b.finished, b.valued);
      var (r, step) := AdvanceFlow(w, f, b.at, b.finished, b.valued);
      (if Swept(step.value) then [b.at] else []) + SweepTimes(w, first, r, b.at, beats[1..])
  }

  /** Over a whole run sweeps are never closer together than the trigger's gap: at least the
      interval, for a trigger that sweeps on a timer. */
  lemma {:induction false} SweepsKeepApart(w: Setup, first: JobId, f: Flow, since: Time, beats: seq<Beat>)
    requires Laid(w.events, first) && Holds(w, first, f, []) && Indexed(w, f) && Goes(w, first, f, since, beats)
    requires since >= 0 && (f.swept ==> f.lastSweep <= since)
    ensures var times := SweepTimes(w, first, f, since, beats);
            && (times != [] ==> times[0] >= since && times[0] - (if f.swept then f.lastSweep else 0) >= Gap(w.plan.trigger))
            && (forall k :: 0 < k < |times| ==> times[k] - times[k - 1] >= Gap(w.plan.trigger))
    decreases |beats|
  {
    hide Laid, Holds, Indexed, AdvanceFlow, AllFinishable, Swept, TakeAll;
    if beats != [] {
      var b := beats[0];
      AdvanceKeeps(w, first, f, b.at, b.finished, b.valued);
      var (r, step) := AdvanceFlow(w, f, b.at, b.finished, b.valued);
      SweepOutcome(w, first, f, b.at, b.finished, b.valued);
      GapIsObserved(w, first, f, b.at, b.finished, b.valued);
      SweepsKeepApart(w, first, r, b.at, beats[1..]);
    }
  }
}
