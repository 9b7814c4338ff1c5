/** The planner's record of what it asked for, and where the queue holds the work: the two
    agree after every cycle. internal/intent/planner.go:431-482 with
    internal/queue/queue.go:679-746. */
module Agreement {
  import opened Basics
  import opened Work
  import opened Settings
  import opened Orchestrator
  import opened Reference
  import opened QueueState
  import opened QueueOps
  import opened QueueRuns
  import Planner

  /** A waiting pick is where the planner last asked for it to be. */
  predicate AgreesOn(requested: seq<Request>, jobs: Jobs, id: JobId)
  {
    id in jobs && jobs[id].waiting && 0 <= id < |requested| ==>
      jobs[id].job.priority == requested[id].priority && jobs[id].exempt == requested[id].exempt
  }

  ghost predicate Agree(requested: seq<Request>, jobs: Jobs) { forall id :: AgreesOn(requested, jobs, id) }

  /** A job never asked to move is asked to be where it was submitted. */
  ghost predicate Honest(site: Site, requested: seq<Request>)
  {
    && |requested| == |site.priorities|
    && forall id :: 0 <= id < |requested| && !requested[id].moved ==> requested[id].priority == site.priorities[id]
  }

  /** One request made and applied: it is either too late or it changes the job, and the queue
      holds the job where it was asked to be. */
  lemma OneAgrees(site: Site, s: Intent, requested: seq<Request>, q: Queue, at: Time, u: Update, state: EventState)
    requires Honest(site, requested) && Agree(requested, q.jobs)
    requires 0 <= u.job < |requested|
    requires var want := Want(s, state, site.priorities[u.job], requested[u.job]);
             want != requested[u.job] && u.priority == want.priority && u.exempt == want.exempt
    ensures var want := Want(s, state, site.priorities[u.job], requested[u.job]);
            var (r, applied) := ApplyOne(q, at, u);
            && Honest(site, requested[u.job := want]) && Agree(requested[u.job := want], r.jobs)
            && applied.changed + applied.tooLate == 1
  {
    hide Drop, PutIn;
    var want := Want(s, state, site.priorities[u.job], requested[u.job]);
    var r := ApplyOne(q, at, u).0;
    assert AgreesOn(requested, q.jobs, u.job);
    hide Want;
    var after := requested[u.job := want];
    forall id ensures AgreesOn(after, r.jobs, id) {
      assert AgreesOn(requested, q.jobs, id);
    }
  }

  /** Every request made of an event's picks, applied as a batch. */
  lemma {:induction false} AskAgrees(site: Site, s: Intent, cat: Catalogue, i: nat, at: Time, state: EventState,
                                     requested: seq<Request>, k: nat, q: Queue, when: Time)
    requires site.WellFormed() && i < |site.events| && cat.For(site) && k <= site.events[i].picks
    requires Honest(site, requested) && Agree(requested, q.jobs)
    ensures var (after, updates) := Ask(site, s, cat, i, at, state, requested, k);
            var (r, applied) := ApplyAll(q, when, updates);
            && Honest(site, after) && Agree(after, r.jobs)
            && applied.changed + applied.tooLate == |updates|
    decreases site.events[i].picks - k
  {
    hide Agree, Honest, Want, ApplyOne;
    if k < site.events[i].picks {
      var id := site.events[i].first + k;
      HonestSize(site, requested);
      var want := Want(s, state, site.priorities[id], requested[id]);
      if cat.finished[id] || want == requested[id] {
        AskAgrees(site, s, cat, i, at, state, requested, k + 1, q, when);
      } else {
        var update := Update(at, id, want.priority, state, s.deadlineFrom.FromChange?, want.exempt);
        OneAgrees(site, s, requested, q, when, update, state);
        var q1 := ApplyOne(q, when, update).0;
        AskAgrees(site, s, cat, i, at, state, requested[id := want], k + 1, q1, when);
        var rest := Ask(site, s, cat, i, at, state, requested[id := want], k + 1).1;
        assert ([update] + rest)[1..] == rest;
      }
    }
  }

  lemma HonestSize(site: Site, requested: seq<Request>)
    requires Honest(site, requested)
    ensures |requested| == |site.priorities|
  {
  }

  lemma {:induction false} ApplyAllJoins(q: Queue, at: Time, a: seq<Update>, b: seq<Update>)
    ensures var (r1, first) := ApplyAll(q, at, a);
            var (r2, second) := ApplyAll(r1, at, b);
            ApplyAll(q, at, a + b) == (r2, first.Plus(second))
    decreases |a|
  {
    hide ApplyOne;
    if a == [] {
      assert a + b == b;
    } else {
      assert (a + b)[0] == a[0] && (a + b)[1..] == a[1..] + b;
      ApplyAllJoins(ApplyOne(q, at, a[0]).0, at, a[1..], b);
    }
  }

  /** A whole cycle's requests, applied as one batch. */
  lemma {:induction false} StepsAgree(site: Site, m: Memory, cat: Catalogue, at: Time, todo: seq<nat>, q: Queue, when: Time)
    requires site.WellFormed() && cat.For(site) && m.For(site)
    requires forall j :: 0 <= j < |todo| ==> todo[j] < |site.events|
    requires Honest(site, m.requested) && Agree(m.requested, q.jobs)
    ensures var (after, plan) := Steps(site, m, cat, at, todo);
            var (r, applied) := ApplyAll(q, when, plan.updates);
            && Honest(site, after.requested) && Agree(after.requested, r.jobs)
            && applied.changed + applied.tooLate == |plan.updates|
    decreases |todo|
  {
    hide Agree, Honest, Assess, Ask, Announce;
    if todo != [] {
      if cat.remaining[todo[0]] == 0 {
        StepsAgree(site, m, cat, at, todo[1..], q, when);
      } else {
        var i, t := todo[0], Assess(site, m.settings, cat, todo[0], at);
        AskAgrees(site, m.settings, cat, i, at, t.state, m.requested, 0, q, when);
        var (m1, first) := Step(site, m, cat, at, i);
        var q1 := ApplyAll(q, when, first.updates).0;
        StepsAgree(site, m1, cat, at, todo[1..], q1, when);
        ApplyAllJoins(q, when, first.updates, Steps(site, m1, cat, at, todo[1..]).1.updates);
      }
    }
  }

  /** After every cycle each waiting pick's priority and exemption are what the planner has on
      record, and every update it made either changed a job or was too late to. */
  lemma CycleAgrees(site: Site, m: Memory, cat: Catalogue, at: Time, q: Queue, when: Time)
    requires site.WellFormed() && cat.For(site) && m.For(site)
    requires Honest(site, m.requested) && Agree(m.requested, q.jobs)
    ensures var (after, plan) := Cycle(site, m, cat, at);
            var (r, applied) := ApplyAll(q, when, plan.updates);
            && Honest(site, after.requested) && Agree(after.requested, r.jobs)
            && applied.changed + applied.tooLate == |plan.updates|
  {
    hide Agree, Honest, Steps;
    var ready := Opened(site, m, at);
    StepsAgree(site, ready, cat, at, ready.open, q, when);
  }

  // ---------- Intent off, and intent that only decays ----------

  /** What holds of a pick's request when intent is off. */
  predicate AsSubmitted(site: Site, requested: seq<Request>, id: JobId)
    requires |requested| == |site.priorities|
  {
    0 <= id < |requested| ==> !requested[id].Displaces(site.priorities[id])
  }

  /** With intent off, an open event's unfinished picks are all asked to be as submitted, and
      what was so already stays so. */
  lemma {:induction false} StepsLetGo(site: Site, m: Memory, cat: Catalogue, at: Time, todo: seq<nat>, id: JobId)
    requires site.WellFormed() && cat.For(site) && m.For(site) && m.settings.mode.Off?
    requires forall j :: 0 <= j < |todo| ==> todo[j] < |site.events|
    requires 0 <= id < |site.priorities| && !cat.finished[id]
    ensures var after := Steps(site, m, cat, at, todo).0;
            && |after.requested| == |site.priorities|
            && (AsSubmitted(site, m.requested, id) ==> AsSubmitted(site, after.requested, id))
            && (forall j :: 0 <= j < |todo| && cat.remaining[todo[j]] != 0 &&
                            site.events[todo[j]].first <= id < site.events[todo[j]].first + site.events[todo[j]].picks ==>
                              AsSubmitted(site, after.requested, id))
    decreases |todo|
  {
    if todo != [] {
      var i, rest := todo[0], todo[1..];
      assert forall j :: 0 <= j < |rest| ==> rest[j] == todo[j + 1];
      if cat.remaining[i] == 0 {
        StepsLetGo(site, m, cat, at, rest, id);
      } else {
        var t := Assess(site, m.settings, cat, i, at);
        Planner.AskSettles(site, m.settings, cat, i, at, t.state, m.requested, 0);
        Planner.AskTouchesOnlyItsOwn(site, m.settings, cat, i, at, t.state, m.requested, 0);
        var m1 := Step(site, m, cat, at, i).0;
        hide Ask, Announce;
        OffWantsAsSubmitted(m.settings, t.state, site.priorities[id], m.requested[id]);
        StepsLetGo(site, m1, cat, at, rest, id);
      }
    }
  }

  lemma OffWantsAsSubmitted(s: Intent, state: EventState, submitted: Priority, have: Request)
    requires s.mode.Off? && !state.Decayed? && !state.Promoted?
    ensures !Want(s, state, submitted, have).Displaces(submitted)
  {
  }

  /** An update that asks for a pick no higher than it was submitted. */
  predicate NoHigher(site: Site, u: Update) { 0 <= u.job < |site.priorities| && u.priority <= site.priorities[u.job] }

  ghost predicate Relaxing(site: Site, updates: seq<Update>) { forall n :: 0 <= n < |updates| ==> NoHigher(site, updates[n]) }

  /** Settings under which nothing is ever promoted never ask for a pick above where it was
      submitted. */
  lemma {:induction false} AskOnlyRelaxes(site: Site, s: Intent, cat: Catalogue, i: nat, at: Time, state: EventState,
                                          requested: seq<Request>, k: nat)
    requires site.WellFormed() && i < |site.events| && cat.For(site) && |requested| == |site.priorities|
    requires k <= site.events[i].picks && !state.Promoted?
    ensures var updates := Ask(site, s, cat, i, at, state, requested, k).1;
            Relaxing(site, updates)
    decreases site.events[i].picks - k
  {
    if k < site.events[i].picks {
      var id := site.events[i].first + k;
      var want := Want(s, state, site.priorities[id], requested[id]);
      AskOnlyRelaxes(site, s, cat, i, at, state, requested, k + 1);
      AskOnlyRelaxes(site, s, cat, i, at, state, requested[id := want], k + 1);
    }
  }

  lemma {:induction false} StepsOnlyRelax(site: Site, m: Memory, cat: Catalogue, at: Time, todo: seq<nat>)
    requires site.WellFormed() && cat.For(site) && m.For(site) && !m.settings.mode.Promotes()
    requires forall j :: 0 <= j < |todo| ==> todo[j] < |site.events|
    ensures var updates := Steps(site, m, cat, at, todo).1.updates;
            Relaxing(site, updates)
    decreases |todo|
  {
    hide Ask, Announce;
    if todo != [] {
      if cat.remaining[todo[0]] == 0 {
        StepsOnlyRelax(site, m, cat, at, todo[1..]);
      } else {
        var t := Assess(site, m.settings, cat, todo[0], at);
        AskOnlyRelaxes(site, m.settings, cat, todo[0], at, t.state, m.requested, 0);
        StepsOnlyRelax(site, Step(site, m, cat, at, todo[0]).0, cat, at, todo[1..]);
      }
    }
  }

  lemma CycleOnlyRelaxes(site: Site, m: Memory, cat: Catalogue, at: Time)
    requires site.WellFormed() && cat.For(site) && m.For(site) && !m.settings.mode.Promotes()
    ensures var updates := Cycle(site, m, cat, at).1.updates;
            Relaxing(site, updates)
  {
    var ready := Opened(site, m, at);
    StepsOnlyRelax(site, ready, cat, at, ready.open);
  }
}
