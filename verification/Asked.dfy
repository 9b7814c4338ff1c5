/** What a cycle of intent comes to, in the settings' own terms: where each job is asked to be, what
    is told of it, and who an event is judged by. internal/intent/planner.go:305-482. */
module Asked {
  import opened Basics
  import opened Settings
  import opened Observe
  import opened Orchestrator
  import opened Reference
  import Planner

  // ---------- Where a job is asked to be ----------

  /** A pick of an event, with work still to do. */
  predicate Unfinished(site: Site, cat: Catalogue, e: nat, id: JobId)
    requires cat.For(site)
  {
    && e < |site.events| && site.events[e].first <= id < site.events[e].first + site.events[e].picks
    && 0 <= id < |cat.finished| && !cat.finished[id]
  }

  /** Where settings put a job of an event in a state, and which class of job decides whether it may
      be the reason capacity is bought. */
  ghost predicate PutWhere(s: Intent, state: EventState, submitted: Priority, had: Request, now: Request)
  {
    var raised := state.Promoted? && s.promoteTo > submitted;
    var lowered := state.Decayed? && s.decayTo < submitted;
    var left := !raised && !lowered && !s.restore && !s.mode.Off? && had.priority < submitted;
    && (raised ==> now.priority == s.promoteTo && (now.exempt <==> ClassPromoted in s.burstExempt))
    && (lowered ==> now.priority == s.decayTo && (now.exempt <==> ClassDecayed in s.burstExempt))
    && (left ==> now.priority == had.priority && (now.exempt <==> ClassDecayed in s.burstExempt))
    && (!raised && !lowered && !left ==>
          now.priority == submitted && (now.exempt <==> had.moved && !s.mode.Off? && ClassRestored in s.burstExempt))
    && (now.moved <==> had.moved || now.priority != submitted)
  }

  lemma {:induction false} AskPuts(site: Site, s: Intent, cat: Catalogue, e: nat, at: Time, state: EventState, requested: seq<Request>, id: JobId)
    requires site.WellFormed() && cat.For(site) && |requested| == |site.priorities| && Unfinished(site, cat, e, id)
    ensures PutWhere(s, state, site.priorities[id], requested[id], Ask(site, s, cat, e, at, state, requested, 0).0[id])
  {
    Planner.AskSettles(site, s, cat, e, at, state, requested, 0);
  }

  /** One event's turn leaves what is asked of other events' jobs, and what they are judged, alone. */
  lemma StepIsOwn(site: Site, m: Memory, cat: Catalogue, at: Time, i: nat, e: nat, id: JobId)
    requires site.WellFormed() && cat.For(site) && m.For(site) && i < |site.events| && i != e && Unfinished(site, cat, e, id)
    ensures var r := Step(site, m, cat, at, i).0;
            r.For(site) && r.requested[id] == m.requested[id] && r.judged[e] == m.judged[e] && r.settings == m.settings
  {
    assert if i < e then Apart(site.events[i], site.events[e]) else Apart(site.events[e], site.events[i]);
    Planner.AskTouchesOnlyItsOwn(site, m.settings, cat, i, at, Assess(site, m.settings, cat, i, at).state, m.requested, 0);
  }

  lemma {:induction false} StepsLeave(site: Site, m: Memory, cat: Catalogue, at: Time, todo: seq<nat>, e: nat, id: JobId)
    requires site.WellFormed() && cat.For(site) && m.For(site) && Unfinished(site, cat, e, id)
    requires forall j :: 0 <= j < |todo| ==> todo[j] < |site.events| && todo[j] != e
    ensures var r := Steps(site, m, cat, at, todo).0; r.requested[id] == m.requested[id] && r.judged[e] == m.judged[e]
    decreases |todo|
  {
    hide Step;
    if todo != [] {
      assert forall j :: 0 <= j < |todo[1..]| ==> todo[1..][j] == todo[j + 1];
      if cat.remaining[todo[0]] == 0 {
        StepsLeave(site, m, cat, at, todo[1..], e, id);
      } else {
        StepIsOwn(site, m, cat, at, todo[0], e, id);
        StepsLeave(site, Step(site, m, cat, at, todo[0]).0, cat, at, todo[1..], e, id);
      }
    }
  }

  lemma {:induction false} StepsPut(site: Site, m: Memory, cat: Catalogue, at: Time, todo: seq<nat>, e: nat, id: JobId)
    requires site.WellFormed() && cat.For(site) && m.For(site) && Unfinished(site, cat, e, id) && cat.remaining[e] != 0
    requires Ascending(todo) && e in todo && forall j :: 0 <= j < |todo| ==> todo[j] < |site.events|
    ensures var r := Steps(site, m, cat, at, todo).0;
            && r.judged[e].state == Assess(site, m.settings, cat, e, at).state
            && PutWhere(m.settings, r.judged[e].state, site.priorities[id], m.requested[id], r.requested[id])
    decreases |todo|
  {
    hide Assess, PutWhere;
    var rest := todo[1..];
    assert forall j :: 0 <= j < |rest| ==> rest[j] == todo[j + 1];
    if todo[0] == e {
      var m1 := Step(site, m, cat, at, e).0;
      AskPuts(site, m.settings, cat, e, at, Assess(site, m.settings, cat, e, at).state, m.requested, id);
      StepsLeave(site, m1, cat, at, rest, e, id);
    } else {
      assert e in rest by {
        var k :| 0 <= k < |todo| && todo[k] == e;
        assert rest[k - 1] == e;
      }
      if cat.remaining[todo[0]] == 0 {
        StepsPut(site, m, cat, at, rest, e, id);
      } else {
        StepIsOwn(site, m, cat, at, todo[0], e, id);
        StepsPut(site, Step(site, m, cat, at, todo[0]).0, cat, at, rest, e, id);
      }
    }
  }

  /** The events a cycle judges: those open before it, and those that have happened since, while any
      of their work is left. */
  predicate InHand(site: Site, m: Memory, cat: Catalogue, at: Time, e: nat)
    requires cat.For(site)
  {
    e < |site.events| && (e in m.open || (m.next <= e && site.events[e].origin <= at)) && cat.remaining[e] != 0
  }

  lemma OpenedHolds(site: Site, m: Memory, at: Time, e: nat)
    requires site.WellFormed() && m.For(site)
    ensures e in Opened(site, m, at).open <==> e < |site.events| && (e in m.open || (m.next <= e && site.events[e].origin <= at))
  {
    var next := NextAfter(site.events, m.next, at);
    assert e < |site.events| && e > next ==> site.events[next].origin <= site.events[e].origin;
    assert e in Range(m.next, next) <==> m.next <= e < next by {
      if m.next <= e < next {
        assert Range(m.next, next)[e - m.next] == e;
      }
    }
    assert e in m.open ==> e < |site.events| by {
      if e in m.open {
        var j :| 0 <= j < |m.open| && m.open[j] == e;
      }
    }
  }

  /** After a cycle every unfinished pick of an event in hand is asked to be where the settings put
      it, for the state the event is then judged to be in. */
  lemma CycleAsks(site: Site, m: Memory, cat: Catalogue, at: Time, e: nat, id: JobId)
    requires site.WellFormed() && cat.For(site) && m.For(site) && InHand(site, m, cat, at, e) && Unfinished(site, cat, e, id)
    ensures var after := Cycle(site, m, cat, at).0;
            && after.judged[e].state == Assess(site, m.settings, cat, e, at).state
            && PutWhere(m.settings, after.judged[e].state, site.priorities[id], m.requested[id], after.requested[id])
  {
    hide Assess, PutWhere, Steps;
    var ready := Opened(site, m, at);
    OpenedHolds(site, m, at, e);
    StepsPut(site, ready, cat, at, ready.open, e, id);
  }

  /** And an event not in hand is left as it was. */
  lemma CycleLeaves(site: Site, m: Memory, cat: Catalogue, at: Time, e: nat, id: JobId)
    requires site.WellFormed() && cat.For(site) && m.For(site) && !InHand(site, m, cat, at, e) && Unfinished(site, cat, e, id)
    ensures var after := Cycle(site, m, cat, at).0; after.requested[id] == m.requested[id] && after.judged[e] == m.judged[e]
  {
    hide Steps;
    var ready := Opened(site, m, at);
    OpenedHolds(site, m, at, e);
    StepsSkip(site, ready, cat, at, ready.open, e, id);
  }

  lemma {:induction false} StepsSkip(site: Site, m: Memory, cat: Catalogue, at: Time, todo: seq<nat>, e: nat, id: JobId)
    requires site.WellFormed() && cat.For(site) && m.For(site) && Unfinished(site, cat, e, id)
    requires (e in todo ==> cat.remaining[e] == 0) && forall j :: 0 <= j < |todo| ==> todo[j] < |site.events|
    ensures var r := Steps(site, m, cat, at, todo).0; r.requested[id] == m.requested[id] && r.judged[e] == m.judged[e]
    decreases |todo|
  {
    hide Step;
    if todo != [] {
      assert forall j :: 0 <= j < |todo[1..]| ==> todo[1..][j] == todo[j + 1];
      if cat.remaining[todo[0]] == 0 {
        StepsSkip(site, m, cat, at, todo[1..], e, id);
      } else {
        StepIsOwn(site, m, cat, at, todo[0], e, id);
        StepsSkip(site, Step(site, m, cat, at, todo[0]).0, cat, at, todo[1..], e, id);
      }
    }
  }

  // ---------- What is told of it ----------

  /** Updates from an event's asking: one for each job whose request changed, saying what it became. */
  ghost predicate Tells(s: Intent, at: Time, state: EventState, before: seq<Request>, after: seq<Request>, updates: seq<Update>)
    requires |before| == |after|
  {
    && (forall k :: 0 <= k < |updates| ==> TellsOf(s, at, state, before, after, updates[k]))
    && (forall id :: 0 <= id < |before| && before[id] != after[id] ==> exists k :: 0 <= k < |updates| && updates[k].job == id)
    && (forall k, l :: 0 <= k < l < |updates| ==> updates[k].job != updates[l].job)
  }

  ghost predicate TellsOf(s: Intent, at: Time, state: EventState, before: seq<Request>, after: seq<Request>, u: Update)
    requires |before| == |after|
  {
    && 0 <= u.job < |before| && before[u.job] != after[u.job]
    && u.at == at && u.reason == state && u.priority == after[u.job].priority && u.exempt == after[u.job].exempt
    && (u.restart <==> s.deadlineFrom.FromChange?)
  }

  /** Every change of what is asked is told once, with when, why, and whether the deadline restarts. */
  lemma {:induction false} AskTells(site: Site, s: Intent, cat: Catalogue, e: nat, at: Time, state: EventState, requested: seq<Request>, k: nat)
    requires site.WellFormed() && e < |site.events| && cat.For(site) && |requested| == |site.priorities| && k <= site.events[e].picks
    ensures var (after, updates) := Ask(site, s, cat, e, at, state, requested, k);
            && Tells(s, at, state, requested, after, updates)
            && (forall j :: 0 <= j < |updates| ==>
                  site.events[e].first + k <= updates[j].job < site.events[e].first + site.events[e].picks && !cat.finished[updates[j].job])
    decreases site.events[e].picks - k
  {
    hide Want, TellsOf, Tells;
    NothingToTell(s, at, state, requested);
    if k < site.events[e].picks {
      var id := site.events[e].first + k;
      var want := Want(s, state, site.priorities[id], requested[id]);
      if cat.finished[id] || want == requested[id] {
        AskTells(site, s, cat, e, at, state, requested, k + 1);
      } else {
        var next := requested[id := want];
        AskTells(site, s, cat, e, at, state, next, k + 1);
        Planner.AskTouchesOnlyItsOwn(site, s, cat, e, at, state, next, k + 1);
        AskedIsTold(s, at, state, requested, id, want);
        TellsOneMore(s, at, state, requested, next, Ask(site, s, cat, e, at, state, next, k + 1).0,
                     Update(at, id, want.priority, state, s.deadlineFrom.FromChange?, want.exempt), Ask(site, s, cat, e, at, state, next, k + 1).1);
      }
    }
  }

  lemma NothingToTell(s: Intent, at: Time, state: EventState, requested: seq<Request>)
    ensures Tells(s, at, state, requested, requested, [])
  {
  }

  lemma AskedIsTold(s: Intent, at: Time, state: EventState, before: seq<Request>, id: JobId, want: Request)
    requires 0 <= id < |before| && want != before[id]
    ensures TellsOf(s, at, state, before, before[id := want], Update(at, id, want.priority, state, s.deadlineFrom.FromChange?, want.exempt))
  {
  }

  lemma TellsOneMore(s: Intent, at: Time, state: EventState, before: seq<Request>, next: seq<Request>, after: seq<Request>, u: Update, rest: seq<Update>)
    requires |before| == |next| == |after| && 0 <= u.job < |before| && next == before[u.job := next[u.job]]
    requires next[u.job] != before[u.job] && after[u.job] == next[u.job] && TellsOf(s, at, state, before, next, u)
    requires Tells(s, at, state, next, after, rest)
    ensures Tells(s, at, state, before, after, [u] + rest)
  {
    var all := [u] + rest;
    forall k | 0 <= k < |all| ensures TellsOf(s, at, state, before, after, all[k]) {
      assert k > 0 ==> all[k] == rest[k - 1] && TellsOf(s, at, state, next, after, rest[k - 1]);
    }
    forall id | 0 <= id < |before| && before[id] != after[id] ensures exists k :: 0 <= k < |all| && all[k].job == id {
      if id == u.job {
        assert all[0].job == id;
      } else {
        var k :| 0 <= k < |rest| && rest[k].job == id;
        assert all[k + 1].job == id;
      }
    }
    forall k, l | 0 <= k < l < |all| ensures all[k].job != all[l].job {
      assert all[l] == rest[l - 1] && TellsOf(s, at, state, next, after, rest[l - 1]);
      assert k > 0 ==> all[k] == rest[k - 1];
    }
  }

  /** What a cycle says of a job, as its event then is. */
  ghost predicate Told(site: Site, cat: Catalogue, m: Memory, after: Memory, at: Time, todo: seq<nat>, u: Update)
    requires cat.For(site) && |m.requested| == |after.requested| && |after.judged| == |site.events|
  {
    exists e: nat :: e in todo && ToldOf(site, cat, m, after, at, e, u)
  }

  ghost predicate ToldOf(site: Site, cat: Catalogue, m: Memory, after: Memory, at: Time, e: nat, u: Update)
    requires cat.For(site) && |m.requested| == |after.requested| && |after.judged| == |site.events|
  {
    Unfinished(site, cat, e, u.job) && TellsOf(m.settings, at, after.judged[e].state, m.requested, after.requested, u)
  }

  /** Every change of what is asked over some events' turns is told once. */
  ghost predicate TellsAll(site: Site, cat: Catalogue, m: Memory, after: Memory, at: Time, todo: seq<nat>, updates: seq<Update>)
    requires cat.For(site) && |m.requested| == |after.requested| && |after.judged| == |site.events|
  {
    && (forall k :: 0 <= k < |updates| ==> Told(site, cat, m, after, at, todo, updates[k]))
    && (forall id :: 0 <= id < |m.requested| && m.requested[id] != after.requested[id] ==> exists k :: 0 <= k < |updates| && updates[k].job == id)
    && (forall k, l :: 0 <= k < l < |updates| ==> updates[k].job != updates[l].job)
  }

  lemma StepTells(site: Site, m: Memory, cat: Catalogue, at: Time, i: nat)
    requires site.WellFormed() && cat.For(site) && m.For(site) && i < |site.events|
    ensures var (m1, plan) := Step(site, m, cat, at, i);
            && m1.For(site) && m1.settings == m.settings
            && TellsAll(site, cat, m, m1, at, [i], plan.updates)
            && (forall id :: 0 <= id < |m.requested| && m.requested[id] != m1.requested[id] ==>
                  site.events[i].first <= id < site.events[i].first + site.events[i].picks)
  {
    hide TellsOf, Assess, Announce;
    var t := Assess(site, m.settings, cat, i, at);
    AskTells(site, m.settings, cat, i, at, t.state, m.requested, 0);
    Planner.AskTouchesOnlyItsOwn(site, m.settings, cat, i, at, t.state, m.requested, 0);
    var (m1, plan) := Step(site, m, cat, at, i);
    forall k | 0 <= k < |plan.updates| ensures Told(site, cat, m, m1, at, [i], plan.updates[k]) {
      assert i in [i] && ToldOf(site, cat, m, m1, at, i, plan.updates[k]);
    }
  }

  /** What is told of one event's turn still holds after the others', and the other way about. */
  lemma ToldLasts(site: Site, cat: Catalogue, m: Memory, m1: Memory, r: Memory, at: Time, i: nat, rest: seq<nat>, u: Update)
    requires site.WellFormed() && cat.For(site) && m.For(site) && i < |site.events| && m1 == Step(site, m, cat, at, i).0 && m1.For(site)
    requires forall j :: 0 <= j < |rest| ==> rest[j] < |site.events| && rest[j] != i
    requires r == Steps(site, m1, cat, at, rest).0 && m1.settings == m.settings
    ensures Told(site, cat, m, m1, at, [i], u) ==> Told(site, cat, m, r, at, [i] + rest, u)
    ensures Told(site, cat, m1, r, at, rest, u) ==> Told(site, cat, m, r, at, [i] + rest, u)
  {
    hide Step, Steps;
    if Told(site, cat, m, m1, at, [i], u) {
      assert ToldOf(site, cat, m, m1, at, i, u);
      StepsLeave(site, m1, cat, at, rest, i, u.job);
      assert i in [i] + rest && ToldOf(site, cat, m, r, at, i, u);
    }
    if e: nat :| e in rest && ToldOf(site, cat, m1, r, at, e, u) {
      StepIsOwn(site, m, cat, at, i, e, u.job);
      assert e in [i] + rest && ToldOf(site, cat, m, r, at, e, u);
    }
  }

  lemma {:induction false} StepsTell(site: Site, m: Memory, cat: Catalogue, at: Time, todo: seq<nat>)
    requires site.WellFormed() && cat.For(site) && m.For(site) && Ascending(todo) && forall j :: 0 <= j < |todo| ==> todo[j] < |site.events|
    ensures var (r, plan) := Steps(site, m, cat, at, todo); TellsAll(site, cat, m, r, at, todo, plan.updates)
    decreases |todo|
  {
    hide Step, TellsAll;
    if todo == [] {
      NothingTold(site, cat, m, at);
    } else {
      var i, rest := todo[0], todo[1..];
      assert forall j :: 0 <= j < |rest| ==> rest[j] == todo[j + 1];
      assert todo == [i] + rest;
      if cat.remaining[i] == 0 {
        StepsTell(site, m, cat, at, rest);
        TellsMore(site, cat, m, Steps(site, m, cat, at, rest).0, at, i, rest, Steps(site, m, cat, at, rest).1.updates);
      } else {
        StepTells(site, m, cat, at, i);
        var (m1, first) := Step(site, m, cat, at, i);
        StepsTell(site, m1, cat, at, rest);
        var (r, more) := Steps(site, m1, cat, at, rest);
        TellsJoin(site, cat, m, m1, r, at, i, rest, first.updates, more.updates);
      }
    }
  }

  lemma NothingTold(site: Site, cat: Catalogue, m: Memory, at: Time)
    requires cat.For(site) && m.For(site)
    ensures TellsAll(site, cat, m, m, at, [], [])
  {
  }

  lemma TellsMore(site: Site, cat: Catalogue, m: Memory, r: Memory, at: Time, i: nat, rest: seq<nat>, updates: seq<Update>)
    requires cat.For(site) && m.For(site) && r.For(site) && TellsAll(site, cat, m, r, at, rest, updates)
    ensures TellsAll(site, cat, m, r, at, [i] + rest, updates)
  {
    hide ToldOf;
    forall k | 0 <= k < |updates| ensures Told(site, cat, m, r, at, [i] + rest, updates[k]) {
      assert Told(site, cat, m, r, at, rest, updates[k]);
      var e: nat :| e in rest && ToldOf(site, cat, m, r, at, e, updates[k]);
      assert e in [i] + rest;
    }
  }

  lemma TellsJoin(site: Site, cat: Catalogue, m: Memory, m1: Memory, r: Memory, at: Time, i: nat, rest: seq<nat>, first: seq<Update>, more: seq<Update>)
    requires site.WellFormed() && cat.For(site) && m.For(site) && i < |site.events| && m1 == Step(site, m, cat, at, i).0 && m1.For(site)
    requires forall j :: 0 <= j < |rest| ==> rest[j] < |site.events| && rest[j] != i
    requires r == Steps(site, m1, cat, at, rest).0 && m1.settings == m.settings
    requires TellsAll(site, cat, m, m1, at, [i], first) && TellsAll(site, cat, m1, r, at, rest, more)
    requires forall id :: 0 <= id < |m.requested| && m.requested[id] != m1.requested[id] ==>
               site.events[i].first <= id < site.events[i].first + site.events[i].picks
    ensures TellsAll(site, cat, m, r, at, [i] + rest, first + more)
  {
    hide Step, Steps, Told;
    var all := first + more;
    forall k | 0 <= k < |all| ensures Told(site, cat, m, r, at, [i] + rest, all[k]) {
      ToldLasts(site, cat, m, m1, r, at, i, rest, all[k]);
    }
    forall id | 0 <= id < |m.requested| && m.requested[id] != r.requested[id] ensures exists k :: 0 <= k < |all| && all[k].job == id {
      if m.requested[id] != m1.requested[id] {
        var k :| 0 <= k < |first| && first[k].job == id;
        assert all[k].job == id;
      } else {
        var k :| 0 <= k < |more| && more[k].job == id;
        assert all[|first| + k].job == id;
      }
    }
    forall k, l | 0 <= k < l < |all| ensures all[k].job != all[l].job {
      if k < |first| <= l {
        ToldApart(site, cat, m, m1, r, at, i, rest, all[k], all[l]);
      }
    }
  }

  lemma ToldApart(site: Site, cat: Catalogue, m: Memory, m1: Memory, r: Memory, at: Time, i: nat, rest: seq<nat>, a: Update, b: Update)
    requires site.WellFormed() && cat.For(site) && m.For(site) && m1.For(site) && r.For(site) && i < |site.events|
    requires forall j :: 0 <= j < |rest| ==> rest[j] < |site.events| && rest[j] != i
    requires Told(site, cat, m, m1, at, [i], a) && Told(site, cat, m1, r, at, rest, b)
    ensures a.job != b.job
  {
    hide TellsOf;
    assert ToldOf(site, cat, m, m1, at, i, a);
    var e: nat :| e in rest && ToldOf(site, cat, m1, r, at, e, b);
    assert if i < e then Apart(site.events[i], site.events[e]) else Apart(site.events[e], site.events[i]);
  }

  /** A cycle's updates are exactly the changes of what is asked, each told once: to where, whether it
      may be the reason capacity is bought, when, why, and whether its deadline restarts. */
  lemma CycleTells(site: Site, m: Memory, cat: Catalogue, at: Time)
    requires site.WellFormed() && cat.For(site) && m.For(site)
    ensures var (after, plan) := Cycle(site, m, cat, at);
            TellsAll(site, cat, m, after, at, Opened(site, m, at).open, plan.updates)
  {
    hide TellsAll, Steps;
    var ready := Opened(site, m, at);
    StepsTell(site, ready, cat, at, ready.open);
    var r, plan := Steps(site, ready, cat, at, ready.open).0, Cycle(site, m, cat, at).1;
    SameTold(site, cat, ready, m, r, Cycle(site, m, cat, at).0, at, ready.open, plan.updates);
  }

  lemma SameTold(site: Site, cat: Catalogue, a: Memory, b: Memory, r: Memory, after: Memory, at: Time, todo: seq<nat>, updates: seq<Update>)
    requires cat.For(site) && a.For(site) && b.For(site) && r.For(site) && after.For(site)
    requires a.settings == b.settings && a.requested == b.requested && r.requested == after.requested && r.judged == after.judged
    requires TellsAll(site, cat, a, r, at, todo, updates)
    ensures TellsAll(site, cat, b, after, at, todo, updates)
  {
    forall k | 0 <= k < |updates| ensures Told(site, cat, b, after, at, todo, updates[k]) {
      var e: nat :| e in todo && ToldOf(site, cat, a, r, at, e, updates[k]);
      assert ToldOf(site, cat, b, after, at, e, updates[k]);
    }
  }

  // ---------- Who an event is judged by ----------

  /** Unit k is the one named, at its distance; no unit is nearer, and those listed before it are
      farther. */
  ghost predicate FirstNearest(m: Metric, units: seq<Position>, from: Point, k: int, close: Close)
  {
    && 0 <= k < |units| && units[k].entity == close.entity && m.gap(units[k].at, from) == close.distance
    && (forall j :: 0 <= j < k ==> m.gap(units[j].at, from) > close.distance)
    && (forall j :: 0 <= j < |units| ==> m.gap(units[j].at, from) >= close.distance)
  }

  lemma {:induction false} NearestUnitIsFirstLeast(m: Metric, units: seq<Position>, from: Point)
    ensures var close := NearestUnit(m, units, from);
            && (close.None? <==> units == [])
            && (close.Some? ==> exists k :: FirstNearest(m, units, from, k, close.value))
  {
    if units != [] {
      var n := |units|;
      NearestUnitIsFirstLeast(m, units[..n - 1], from);
      var before, close := NearestUnit(m, units[..n - 1], from), NearestUnit(m, units, from);
      var d := m.gap(units[n - 1].at, from);
      var k := n - 1;
      if before.Some? {
        var l :| FirstNearest(m, units[..n - 1], from, l, before.value);
        assert forall j :: 0 <= j < n - 1 ==> units[..n - 1][j] == units[j];
        if before.value.distance <= d {
          k := l;
        }
      }
      assert FirstNearest(m, units, from, k, close.value);
    }
  }

  /** Someone protected could be within a distance of a point over the lookahead, or was when event i
      happened. */
  ghost predicate SomeoneWithin(site: Site, s: Intent, i: nat, from: Point, at: Time, within: real)
    requires i < |site.events|
  {
    || (exists k :: 0 <= k < |site.View(s.knowledge).reach(at, s.lookahead, s.protect)| &&
          Comes(site.metric, site.View(s.knowledge).reach(at, s.lookahead, s.protect)[k], from, within))
    || (exists k :: 0 <= k < |site.View(s.knowledge).positions(site.events[i].origin, s.protect)| &&
          site.metric.gap(site.View(s.knowledge).positions(site.events[i].origin, s.protect)[k].at, from) <= within)
  }

  predicate Comes(m: Metric, path: Path, q: Point, within: real)
  {
    PathDistance(m, path.points, q).Some? && PathDistance(m, path.points, q).value <= within
  }

  lemma ThreatIsLeast(site: Site, s: Intent, i: nat, from: Point, at: Time, within: real)
    requires i < |site.events|
    ensures var near := Threat(site, s, i, from, at); near.Some? && near.value.distance <= within <==> SomeoneWithin(site, s, i, from, at, within)
  {
    hide NearestOf, NearestUnit, PathDistance;
    var paths, units := site.View(s.knowledge).reach(at, s.lookahead, s.protect), site.View(s.knowledge).positions(site.events[i].origin, s.protect);
    NearestIsFirstLeast(site.metric, paths, from);
    NearestUnitIsFirstLeast(site.metric, units, from);
    var close, unit := NearestOf(site.metric, paths, from), NearestUnit(site.metric, units, from);
    if unit.Some? {
      var l :| FirstNearest(site.metric, units, from, l, unit.value);
    }
    if close.Some? {
      var k :| 0 <= k < |paths| && PathDistance(site.metric, paths[k].points, from) == Some(close.value.distance);
      assert close.value.distance <= within ==> Comes(site.metric, paths[k], from, within);
    }
    forall k | 0 <= k < |paths| && Comes(site.metric, paths[k], from, within) ensures close.Some? && close.value.distance <= within {
      assert !Nearer(PathDistance(site.metric, paths[k].points, from), Distance(close));
    }
  }

  /** An event is promoted exactly when promoting is on and someone protected could be, or was, within
      what its promote level carries and the margin; decayed exactly when it is not promoted, decaying
      is on, and no one could be or was within what its protect level carries and the margin; and
      otherwise kept. */
  lemma JudgedBy(site: Site, s: Intent, i: nat, x: Sighting, at: Time)
    requires i < |site.events|
    ensures var t := Judge(site, s, i, x, at);
            var promote, protect := site.hazard(x.magnitude, x.uncertainty, s.promoteLevel), site.hazard(x.magnitude, x.uncertainty, s.protectLevel);
            && (t.state == Promoted <==>
                  ((s.mode == Promote || s.mode == Both) && promote.Some? && SomeoneWithin(site, s, i, x.at, at, promote.value + s.margin)))
            && (t.state == Decayed <==>
                  (t.state != Promoted && (s.mode == Decay || s.mode == Both) &&
                   !(protect.Some? && SomeoneWithin(site, s, i, x.at, at, protect.value + s.margin))))
            && (t.state != Promoted && t.state != Decayed ==> t.state == Kept)
            && t.at == at && t.basis == x.basis
            && (t.state == Promoted ==> t.reach == promote.value + s.margin)
            && (t.state != Promoted && protect.Some? ==> t.reach == protect.value + s.margin)
  {
    hide Threat, SomeoneWithin;
    var promote, protect := site.hazard(x.magnitude, x.uncertainty, s.promoteLevel), site.hazard(x.magnitude, x.uncertainty, s.protectLevel);
    if promote.Some? {
      ThreatIsLeast(site, s, i, x.at, at, promote.value + s.margin);
    }
    if protect.Some? {
      ThreatIsLeast(site, s, i, x.at, at, protect.value + s.margin);
    }
  }

  /** What an event is judged on. Under the truth arm, what truly happened; otherwise its location, as
      strong as it was solved to be or else as settings suppose; and before it has one, if settings say
      so and a sensor heard it, its first sensor, no surer than the distance to the last of its first
      four. With intent off it is kept, and with nothing to go by it is unknown. */
  lemma AssessedOn(site: Site, s: Intent, cat: Catalogue, i: nat, at: Time)
    requires i < |site.events| && cat.For(site)
    ensures var t, x, sensors := Assess(site, s, cat, i, at), Sight(site, s, cat, i), site.events[i].triggers;
            && t.at == at
            && (s.mode == Off ==> t.state == Kept && t.basis == FromOff)
            && (s.mode != Off ==> (t.state == Unknown <==> x.None?) && (x.Some? ==> t == Judge(site, s, i, x.value, at)))
            && (s.knowledge == Truth ==> (x.Some? <==> i < |site.truths|) && (x.Some? ==> x.value == site.truths[i]))
            && (s.knowledge != Truth ==>
                  && (x.Some? <==> cat.location[i].Some? || (s.preLocation && sensors != []))
                  && (cat.location[i].Some? ==>
                        && x.value.at == cat.location[i].value.at && x.value.basis == FromLocation
                        && x.value.uncertainty == s.locationUncertainty
                        && (cat.location[i].value.magnitude == Some(x.value.magnitude) ||
                            (cat.location[i].value.magnitude == None && x.value.magnitude == s.preLocationMagnitude)))
                  && (cat.location[i].None? && x.Some? ==>
                        var fourth := if |sensors| >= 4 then sensors[3] else sensors[|sensors| - 1];
                        && x.value.at == sensors[0] && x.value.basis == FromSensors && x.value.magnitude == s.preLocationMagnitude
                        && x.value.uncertainty >= s.locationUncertainty && x.value.uncertainty >= site.metric.gap(sensors[0], fourth)
                        && (x.value.uncertainty == s.locationUncertainty || x.value.uncertainty == site.metric.gap(sensors[0], fourth))))
  {
    hide Threat;
  }

  /** The mine waits for an event's picks exactly when it has been judged and not decayed. */
  lemma ValuedIsNotDecayed(m: Memory, i: nat)
    ensures ValuedBy(m)(i) <==> i < |m.judged| && m.judged[i].state !in {Unset, Unknown, Decayed}
  {
  }

  // ---------- What is announced ----------

  /** A cycle announces an event's judgement exactly when it is not the one on record, but for a first
      one that says nothing; and says what was judged. */
  ghost predicate Announces(site: Site, m: Memory, cat: Catalogue, at: Time, todo: seq<nat>, changes: seq<Change>)
    requires cat.For(site) && |m.judged| == |site.events|
  {
    && (forall k :: 0 <= k < |changes| ==> Reported(site, m, cat, at, todo, changes[k]))
    && (forall e: nat :: e in todo && News(site, m, cat, at, e) ==> exists k :: 0 <= k < |changes| && changes[k].event == e)
    && (forall k, l :: 0 <= k < l < |changes| ==> changes[k].event < changes[l].event)
  }

  predicate Reported(site: Site, m: Memory, cat: Catalogue, at: Time, todo: seq<nat>, change: Change)
    requires cat.For(site) && |m.judged| == |site.events|
  {
    && change.event in todo && News(site, m, cat, at, change.event)
    && change.transition == Assess(site, m.settings, cat, change.event, at)
  }

  predicate News(site: Site, m: Memory, cat: Catalogue, at: Time, e: nat)
    requires cat.For(site) && |m.judged| == |site.events|
  {
    e < |site.events| && cat.remaining[e] != 0 &&
    var t, last := Assess(site, m.settings, cat, e, at), m.judged[e];
    && (t.state != last.state || t.basis != last.basis)
    && !(last.state == Unset && (t.state == Unknown || t.basis == FromOff))
  }

  lemma {:induction false} StepsAnnounce(site: Site, m: Memory, cat: Catalogue, at: Time, todo: seq<nat>)
    requires site.WellFormed() && cat.For(site) && m.For(site) && Ascending(todo) && forall j :: 0 <= j < |todo| ==> todo[j] < |site.events|
    ensures Announces(site, m, cat, at, todo, Steps(site, m, cat, at, todo).1.transitions)
    decreases |todo|
  {
    hide Assess, Ask;
    if todo != [] {
      var i, rest := todo[0], todo[1..];
      assert forall j :: 0 <= j < |rest| ==> rest[j] == todo[j + 1];
      assert todo == [i] + rest;
      var m1 := if cat.remaining[i] == 0 then m else Step(site, m, cat, at, i).0;
      StepsAnnounce(site, m1, cat, at, rest);
      AnnouncesOn(site, m, m1, cat, at, i, rest, if cat.remaining[i] == 0 then [] else Step(site, m, cat, at, i).1.transitions,
                  Steps(site, m1, cat, at, rest).1.transitions);
    }
  }

  lemma AnnouncesOn(site: Site, m: Memory, m1: Memory, cat: Catalogue, at: Time, i: nat, rest: seq<nat>, first: seq<Change>, more: seq<Change>)
    requires cat.For(site) && i < |site.events| && |m.judged| == |m1.judged| == |site.events| && m1.settings == m.settings
    requires forall e: nat :: e < |site.events| && e != i ==> m1.judged[e] == m.judged[e]
    requires forall j :: 0 <= j < |rest| ==> i < rest[j] < |site.events|
    requires Announces(site, m1, cat, at, rest, more)
    requires first == if News(site, m, cat, at, i) then [Change(i, Assess(site, m.settings, cat, i, at))] else []
    ensures Announces(site, m, cat, at, [i] + rest, first + more)
  {
    hide Assess, News, Reported;
    SameNews(site, m, m1, cat, at, i);
    var all, todo := first + more, [i] + rest;
    forall k | 0 <= k < |all| ensures Reported(site, m, cat, at, todo, all[k]) {
      ReportedOn(site, m, m1, cat, at, i, rest, first, more, k);
    }
    forall e: nat | e in todo && News(site, m, cat, at, e) ensures exists k :: 0 <= k < |all| && all[k].event == e {
      if e == i {
        assert all[0].event == e;
      } else {
        assert News(site, m1, cat, at, e);
        var k :| 0 <= k < |more| && more[k].event == e;
        assert all[|first| + k].event == e;
      }
    }
    forall k | 0 <= k < |more| ensures i < more[k].event {
      ReportedIn(site, m1, cat, at, rest, more[k]);
    }
  }

  lemma ReportedIn(site: Site, m: Memory, cat: Catalogue, at: Time, todo: seq<nat>, change: Change)
    requires cat.For(site) && |m.judged| == |site.events| && Reported(site, m, cat, at, todo, change)
    ensures change.event in todo
  {
    hide Assess, News;
  }

  lemma ReportedOn(site: Site, m: Memory, m1: Memory, cat: Catalogue, at: Time, i: nat, rest: seq<nat>, first: seq<Change>, more: seq<Change>, k: nat)
    requires cat.For(site) && i < |site.events| && |m.judged| == |m1.judged| == |site.events| && m1.settings == m.settings
    requires forall e: nat :: e < |site.events| && e != i ==> m1.judged[e] == m.judged[e]
    requires forall j :: 0 <= j < |rest| ==> i < rest[j] < |site.events|
    requires forall l :: 0 <= l < |more| ==> Reported(site, m1, cat, at, rest, more[l])
    requires first == if News(site, m, cat, at, i) then [Change(i, Assess(site, m.settings, cat, i, at))] else []
    requires k < |first + more|
    ensures Reported(site, m, cat, at, [i] + rest, (first + more)[k])
  {
    hide Assess, News;
    SameNews(site, m, m1, cat, at, i);
    if k >= |first| {
      assert Reported(site, m1, cat, at, rest, more[k - |first|]);
    }
  }

  lemma SameNews(site: Site, m: Memory, m1: Memory, cat: Catalogue, at: Time, i: nat)
    requires cat.For(site) && |m.judged| == |m1.judged| == |site.events| && m1.settings == m.settings
    requires forall e: nat :: e < |site.events| && e != i ==> m1.judged[e] == m.judged[e]
    ensures forall e: nat :: e != i ==> (News(site, m1, cat, at, e) <==> News(site, m, cat, at, e))
  {
    hide Assess;
  }

  lemma CycleAnnounces(site: Site, m: Memory, cat: Catalogue, at: Time)
    requires site.WellFormed() && cat.For(site) && m.For(site)
    ensures Announces(site, m, cat, at, Opened(site, m, at).open, Cycle(site, m, cat, at).1.transitions)
  {
    hide Steps, Assess;
    var ready := Opened(site, m, at);
    StepsAnnounce(site, ready, cat, at, ready.open);
    SameAnnounced(site, ready, m, cat, at, ready.open, Cycle(site, m, cat, at).1.transitions);
  }

  lemma SameAnnounced(site: Site, a: Memory, b: Memory, cat: Catalogue, at: Time, todo: seq<nat>, changes: seq<Change>)
    requires cat.For(site) && |a.judged| == |site.events| && a.judged == b.judged && a.settings == b.settings
    requires Announces(site, a, cat, at, todo, changes)
    ensures Announces(site, b, cat, at, todo, changes)
  {
    hide Assess;
    forall e: nat ensures News(site, a, cat, at, e) <==> News(site, b, cat, at, e) {}
  }
}
