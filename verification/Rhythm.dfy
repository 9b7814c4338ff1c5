/** What a sweep waits for, in terms of events, their picks and what has finished of them:
    internal/pipeline/trigger.go and internal/pipeline/pipeline.go:245-351. */
module Rhythm {
  import opened Basics
  import opened Work
  import opened Triggers
  import opened Workflow
  import opened WorkflowLaws
  import opened WorkflowRuns

  // ---------- Picks in flight ----------

  /** The picks of an event that have not finished. */
  function OutOf(e: Happening, done: set<JobId>): set<JobId>
  {
    set id: JobId | e.firstJob <= id < e.firstJob + e.picks && id !in done
  }

  /** Whether a pick is in flight: of one of the first n events, which has happened, and is one of those
      chosen. */
  predicate InFlight(w: Setup, done: set<JobId>, at: Time, chosen: nat -> bool, n: nat, id: JobId)
    requires n <= |w.events|
  {
    exists i: nat :: i < n && w.events[i].origin <= at && chosen(i) && id in OutOf(w.events[i], done)
  }

  function Flying(w: Setup, done: set<JobId>, at: Time, chosen: nat -> bool, n: nat, first: JobId): set<JobId>
    requires n <= |w.events|
  {
    set id: JobId | 0 <= id < first && InFlight(w, done, at, chosen, n, id)
  }

  lemma OutOfSize(e: Happening, done: set<JobId>)
    ensures |OutOf(e, done)| == e.picks - |DonePicks(e, done)|
  {
    var all := OutOf(e, done) + DonePicks(e, done);
    RunSize(e.firstJob, e.picks, all);
    assert OutOf(e, done) !! DonePicks(e, done);
  }

  lemma {:induction false} RunSize(from: int, n: nat, ids: set<int>)
    requires forall id :: id in ids <==> from <= id < from + n
    ensures |ids| == n
    decreases n
  {
    if n > 0 {
      RunSize(from, n - 1, ids - {from + n - 1});
    } else {
      assert forall id :: id !in ids;
      assert ids == {};
    }
  }

  /** The sum of what is left of each event's picks is how many are in flight. */
  lemma {:induction false} PendingCounts(w: Setup, first: JobId, f: Flow, at: Time, chosen: nat -> bool, n: nat)
    requires Laid(w.events, first) && n <= |f.tallies| == |w.events| && Tallied(w, f)
    ensures Pending(w, f, at, chosen, n) == |Flying(w, f.done, at, chosen, n, first)|
  {
    hide OutOf, DonePicks, SweepsOf;
    if n == 0 {
      assert Flying(w, f.done, at, chosen, 0, first) == {};
    } else {
      PendingCounts(w, first, f, at, chosen, n - 1);
      OutOfSize(w.events[n - 1], f.done);
      FlyingMore(w, first, f.done, at, chosen, n - 1);
    }
  }

  lemma FlyingMore(w: Setup, first: JobId, done: set<JobId>, at: Time, chosen: nat -> bool, n: nat)
    requires Laid(w.events, first) && n < |w.events|
    ensures |Flying(w, done, at, chosen, n + 1, first)| ==
            |Flying(w, done, at, chosen, n, first)| + if w.events[n].origin <= at && chosen(n) then |OutOf(w.events[n], done)| else 0
  {
    var was, now, more := Flying(w, done, at, chosen, n, first), Flying(w, done, at, chosen, n + 1, first), OutOf(w.events[n], done);
    forall id | id in more ensures id !in was && 0 <= id < first {
      forall i: nat | i < n ensures id !in OutOf(w.events[i], done) {}
    }
    assert now == was + if w.events[n].origin <= at && chosen(n) then more else {};
  }

  // ---------- Picks ready ----------

  /** What no sweep has grouped, of the events in the window: so many places for each. */
  function Unswept(w: Setup, f: Flow, at: Time, n: nat): set<(nat, nat)>
    requires n <= |f.tallies| == |w.events|
  {
    set i: nat, k: nat | i < n && k < f.tallies[i].unswept && InWindow(w, at, w.events[i]) :: (i, k)
  }

  lemma {:induction false} ReadyCounts(w: Setup, f: Flow, at: Time, n: nat)
    requires n <= |f.tallies| == |w.events|
    ensures ReadyPicks(w, f, at, n) == |Unswept(w, f, at, n)|
  {
    if n == 0 {
      assert Unswept(w, f, at, 0) == {};
    } else {
      ReadyCounts(w, f, at, n - 1);
      ReadyMore(w, f, at, n - 1);
    }
  }

  lemma ReadyMore(w: Setup, f: Flow, at: Time, n: nat)
    requires n < |f.tallies| == |w.events|
    ensures |Unswept(w, f, at, n + 1)| == |Unswept(w, f, at, n)| + if InWindow(w, at, w.events[n]) then f.tallies[n].unswept else 0
  {
    var own := if InWindow(w, at, w.events[n]) then Places(n, f.tallies[n].unswept) else {};
    PlacesSize(n, f.tallies[n].unswept, Places(n, f.tallies[n].unswept));
    var before, after := Unswept(w, f, at, n), Unswept(w, f, at, n + 1);
    forall p ensures (p in after <==> p in before || p in own) && !(p in before && p in own) {
      UnsweptHas(w, f, at, n, p);
      UnsweptHas(w, f, at, n + 1, p);
    }
    hide Unswept, Places;
    assert after == before + own;
    assert before !! own;
  }

  function Places(i: nat, n: nat): (r: set<(nat, nat)>)
    ensures forall p :: p in r <==> p.0 == i && p.1 < n
  {
    set k: nat | k < n :: (i, k)
  }

  lemma UnsweptHas(w: Setup, f: Flow, at: Time, n: nat, p: (nat, nat))
    requires n <= |f.tallies| == |w.events|
    ensures p in Unswept(w, f, at, n) <==> p.0 < n && p.1 < f.tallies[p.0].unswept && InWindow(w, at, w.events[p.0])
  {
  }

  lemma {:induction false} PlacesSize(i: nat, n: nat, places: set<(nat, nat)>)
    requires forall p :: p in places <==> p.0 == i && p.1 < n
    ensures |places| == n
    decreases n
  {
    if n > 0 {
      PlacesSize(i, n - 1, places - {(i, n - 1)});
    } else {
      assert places == {};
    }
  }

  // ---------- How fast picks finish ----------

  predicate InOrder(times: seq<Time>) { forall k, l :: 0 <= k < l < |times| ==> times[k] <= times[l] }

  function Since(times: seq<Time>, cutoff: Time): set<nat> { set k: nat | k < |times| && times[k] >= cutoff }

  /** What is kept of the completions is all of those recent enough. */
  lemma {:induction false} LatelyCounts(times: seq<Time>, cutoff: Time)
    requires InOrder(times)
    ensures |Lately(times, cutoff)| == |Since(times, cutoff)|
    decreases |times|
  {
    if times != [] && times[0] < cutoff {
      LatelyCounts(times[1..], cutoff);
      Shifted(times, cutoff);
    } else {
      var all := Since(times, cutoff);
      assert forall k: nat :: k in all <==> k < |times|;
      RunSizeNat(|times|, all);
    }
  }

  lemma {:induction false} RunSizeNat(n: nat, all: set<nat>)
    requires forall k: nat :: k in all <==> k < n
    ensures |all| == n
  {
    if n > 0 {
      RunSizeNat(n - 1, all - {n - 1});
    } else {
      assert all == {};
    }
  }

  lemma Shifted(times: seq<Time>, cutoff: Time)
    requires times != [] && times[0] < cutoff
    ensures |Since(times, cutoff)| == |Since(times[1..], cutoff)|
  {
    var a, b := Since(times[1..], cutoff), Since(times, cutoff);
    assert b == set k | k in a :: k + 1 by {
      forall k: nat ensures k in b <==> k > 0 && k - 1 in a {
        assert k > 0 && k < |times| ==> times[1..][k - 1] == times[k];
      }
      forall k: nat | k in b ensures k in set l | l in a :: l + 1 {
        assert k - 1 in a;
      }
    }
    OneToOne(a, b);
  }

  lemma {:induction false} OneToOne(a: set<nat>, b: set<nat>)
    requires b == set k | k in a :: k + 1
    ensures |b| == |a|
    decreases a
  {
    if a == {} {
      assert b == {};
    } else {
      var k :| k in a;
      assert k + 1 in b;
      var rest := set l | l in a - {k} :: l + 1;
      assert b - {k + 1} == rest by {
        forall x | x in b - {k + 1} ensures x in rest {
          assert x - 1 in a - {k};
        }
      }
      OneToOne(a - {k}, b - {k + 1});
    }
  }

  // ---------- When each kind of trigger calls for a sweep ----------

  /** With something to group, when a sweep is called for. `pending` is the picks in flight and `valued`
      those of events the mine values; `ready` is what no sweep has grouped; `recent` is how many picks
      finished in the last five minutes, or since the start. */
  predicate Calls(t: Trigger, pending: nat, valued: nat, ready: nat, recent: nat, at: Time, since: Time)
  {
    match t
    case FixedInterval(every) => since >= every
    case WhenDrained(deadline) => pending == 0 || 0 < deadline <= since
    case JustInTime(deadline) => valued == 0 || 0 < deadline <= since
    case Adaptive(least, most) =>
      && (least <= 0 || since >= least)
      && (0 < most <= since || pending == 0 || (most > 0 && recent > 0 && at > 0 && since + ClearsIn(pending, recent, at) > most))
    case UnderPressure(inner, backlog, floor) =>
      Calls(inner, pending, valued, ready, recent, at, since) || (0 < backlog <= ready && (floor <= 0 || since >= floor))
  }

  /** How long picks in flight take to clear, at the rate picks have been finishing. */
  function ClearsIn(pending: nat, recent: nat, at: Time): Time
    requires recent > 0 && at > 0
  {
    ClearsReal(pending, recent, at).Floor
  }

  function ClearsReal(pending: nat, recent: nat, at: Time): real
    requires recent > 0
  {
    pending as real * Min(at, DRAIN_WINDOW) as real / recent as real
  }

  lemma {:induction false} DecidesAsCalled(t: Trigger, pending: nat, valued: nat, ready: nat, recent: nat, at: Time, since: Time)
    requires ready > 0
    ensures Decide(t, Observation(pending, ready, valued, Rate(recent, at), since)) <==> Calls(t, pending, valued, ready, recent, at, since)
  {
    match t
    case UnderPressure(inner, _, _) => DecidesAsCalled(inner, pending, valued, ready, recent, at, since);
    case Adaptive(_, _) => RateClears(pending, recent, at);
    case _ =>
  }

  lemma RateClears(pending: nat, recent: nat, at: Time)
    ensures recent > 0 && at > 0 ==> Rate(recent, at) > 0.0 && (pending as real / Rate(recent, at)).Floor == ClearsIn(pending, recent, at)
    ensures !(recent > 0 && at > 0) ==> Rate(recent, at) <= 0.0
  {
    if recent > 0 && at > 0 {
      var rate, clears := Rate(recent, at), ClearsReal(pending, recent, at);
      RateIs(pending, recent, at);
      hide Rate, ClearsReal;
      assert pending as real / rate == clears;
    }
  }

  lemma RateIs(pending: nat, recent: nat, at: Time)
    requires recent > 0 && at > 0
    ensures Rate(recent, at) > 0.0 && pending as real / Rate(recent, at) == ClearsReal(pending, recent, at)
  {
    var over := Min(at, DRAIN_WINDOW) as real;
    Divides(pending as real, recent as real, over);
    hide Min;
  }

  lemma Divides(p: real, n: real, over: real)
    requires n > 0.0 && over > 0.0
    ensures n / over > 0.0 && p / (n / over) == p * over / n
  {
    var rate := n / over;
    assert rate * over == n;
    assert rate > 0.0;
    var a := p / rate;
    assert a * rate == p;
    assert a * n == a * rate * over;
    assert a * n == p * over;
    assert (a * n) / n == a;
  }

  // ---------- An interval ----------

  /** What an interval finds: the picks in flight once what finished is taken in. */
  function PicksOut(w: Setup, first: JobId, done: set<JobId>, at: Time, chosen: nat -> bool): set<JobId>
  {
    Flying(w, done, at, chosen, |w.events|, first)
  }

  /** Completions come in as time goes, none of them yet to come. */
  predicate Timely(f: Flow, at: Time) { InOrder(f.completions) && forall k :: 0 <= k < |f.completions| ==> f.completions[k] <= at }

  lemma {:induction false} TakeAllTimely(w: Setup, f: Flow, at: Time, finished: seq<JobId>)
    requires Indexed(w, f) && Timely(f, at)
    ensures Timely(TakeAll(w, f, at, finished).0, at)
    decreases |finished|
  {
    hide Indexed, Locates, MarkLocated;
    if finished != [] {
      TakeKeepsIndexed(w, f, at, finished[0]);
      TakeTimely(w, f, at, finished[0]);
      TakeAllTimely(w, Take(w, f, at, finished[0]).0, at, finished[1..]);
    }
  }

  lemma TakeTimely(w: Setup, f: Flow, at: Time, id: JobId)
    requires Indexed(w, f) && Timely(f, at)
    ensures Timely(Take(w, f, at, id).0, at)
  {
    hide Indexed, MarkLocated;
    if id in f.issued && f.issued[id].stage == StageAssociate {
      LocatesTimely(w, f.(done := f.done + {id}), at, f.issued[id].events);
    }
  }

  lemma {:induction false} LocatesTimely(w: Setup, f: Flow, at: Time, events: seq<nat>)
    ensures Locates(w, f, at, events).0.completions == f.completions
    decreases |events|
  {
    if events != [] {
      LocatesTimely(w, Issue(f, Job(0, at, w.plan.locate.priority, w.drawn(f.next), events[0], StageLocate), [events[0]]).0, at, events[1..]);
    }
  }

  /** They always do: nothing has come in when a run starts, and an interval keeps it so for every
      moment from its own on. */
  lemma StaysTimely(w: Setup, first: JobId, f: Flow, at: Time, finished: seq<JobId>, valued: nat -> bool, later: Time)
    requires Indexed(w, f) && Timely(f, at) && later >= at
    ensures Timely(Started(w.events, first), at)
    ensures Timely(AdvanceFlow(w, f, at, finished, valued).0, later)
  {
    hide Indexed, TakeAll, Decide, Observe, Candidates;
    TakeAllKeepsIndexed(w, f, at, finished);
    TakeAllTimely(w, f, at, finished);
    var taken := TakeAll(w, f, at, finished).0;
    LatelyTimely(taken.completions, at - DRAIN_WINDOW);
    assert forall t :: t in taken.completions ==> t <= at;
  }

  lemma {:induction false} LatelyTimely(times: seq<Time>, cutoff: Time)
    ensures InOrder(times) ==> InOrder(Lately(times, cutoff))
    ensures forall k :: 0 <= k < |Lately(times, cutoff)| ==> Lately(times, cutoff)[k] in times
  {
    if times != [] && times[0] < cutoff {
      LatelyTimely(times[1..], cutoff);
    }
  }

  /** What an event has to have to be grouped: to have happened within the window, four of its picks
      finished, and something of it that no sweep has grouped. */
  lemma CandidateHas(w: Setup, first: JobId, f: Flow, at: Time, i: nat)
    requires Holds(w, first, f, []) && |f.tallies| == |w.events|
    ensures Candidate(w, f, at, i) <==>
            (&& i < |w.events| && w.events[i].origin <= at <= w.events[i].origin + w.plan.window
             && |DonePicks(w.events[i], f.done)| >= 4 && f.tallies[i].unswept > 0)
  {
    hide DonePicks, SweepsOf;
  }

  /** How long there has been no sweep: since the last one, or since the start of the run. */
  function Waited(f: Flow, at: Time): Time { if f.swept then at - f.lastSweep else at }

  /** An interval sweeps exactly when there is something to group and its trigger calls for it: on what
      is then in flight, valued, ready and recently finished. */
  lemma SweepsWhenCalled(w: Setup, first: JobId, f: Flow, at: Time, finished: seq<JobId>, valued: nat -> bool)
    requires Laid(w.events, first) && Holds(w, first, f, []) && Indexed(w, f) && Timely(f, at)
    requires forall k :: 0 <= k < |finished| ==> finished[k] < f.next
    ensures var (taken, _) := TakeAll(w, f, at, finished);
            var (r, step) := AdvanceFlow(w, f, at, finished, valued);
            step.Ok? ==>
              && |taken.tallies| == |w.events| && taken.done == r.done == f.done + AsSet(finished)
              && (Swept(step.value) <==>
                    (exists i: nat :: Candidate(w, taken, at, i)) &&
                    Calls(w.plan.trigger, |PicksOut(w, first, r.done, at, _ => true)|, |PicksOut(w, first, r.done, at, valued)|,
                          |Unswept(w, taken, at, |w.events|)|, |Since(taken.completions, at - DRAIN_WINDOW)|, at, Waited(f, at)))
  {
    hide AdvanceFlow, TakeAll, Holds, Laid, Decide, Calls, Candidate, Swept, Timely, Rate;
    SweepOutcome(w, first, f, at, finished, valued);
    AdvanceKeeps(w, first, f, at, finished, valued);
    TakenHolds(w, first, f, at, finished);
    TakeAllTimely(w, f, at, finished);
    var (taken, taking) := TakeAll(w, f, at, finished);
    var (r, step) := AdvanceFlow(w, f, at, finished, valued);
    if step.Ok? {
      SeenAsCounted(w, first, taken, at, valued);
      if i: nat :| Candidate(w, taken, at, i) {
        CandidateIsReady(w, taken, at, i);
        DecidesAsCalled(w.plan.trigger, |PicksOut(w, first, r.done, at, _ => true)|, |PicksOut(w, first, r.done, at, valued)|,
                        |Unswept(w, taken, at, |w.events|)|, |Since(taken.completions, at - DRAIN_WINDOW)|, at, SinceLast(f, at));
      }
    }
  }

  lemma TakenHolds(w: Setup, first: JobId, f: Flow, at: Time, finished: seq<JobId>)
    requires Laid(w.events, first) && Holds(w, first, f, []) && Indexed(w, f)
    requires forall k :: 0 <= k < |finished| ==> finished[k] < f.next
    ensures var (r, step) := TakeAll(w, f, at, finished);
            && (step.Ok? <==> AllFinishable(w, f, finished))
            && (step.Ok? ==> Holds(w, first, r, []) && r.done == f.done + AsSet(finished))
  {
    hide Holds, TakeAll, AllFinishable, Handed, Laid;
    assert Grown(f, f);
    TakeAllKeeps(w, first, f, f, at, finished);
  }

  lemma SeenAsCounted(w: Setup, first: JobId, f: Flow, at: Time, valued: nat -> bool)
    requires Laid(w.events, first) && Holds(w, first, f, []) && |f.tallies| == |w.events| && Timely(f, at)
    ensures Observe(w, f, at, valued) ==
            Observation(|PicksOut(w, first, f.done, at, _ => true)|, |Unswept(w, f, at, |w.events|)|, |PicksOut(w, first, f.done, at, valued)|,
                        Rate(|Since(f.completions, at - DRAIN_WINDOW)|, at), SinceLast(f, at))
  {
    hide Laid, Tallied, Pending, ReadyPicks, Rate, Lately;
    PendingCounts(w, first, f, at, _ => true, |w.events|);
    PendingCounts(w, first, f, at, valued, |w.events|);
    ReadyCounts(w, f, at, |w.events|);
    LatelyCounts(f.completions, at - DRAIN_WINDOW);
  }

  lemma CandidateIsReady(w: Setup, f: Flow, at: Time, i: nat)
    requires |f.tallies| == |w.events| && Candidate(w, f, at, i)
    ensures |Unswept(w, f, at, |w.events|)| > 0
  {
    var none: nat := 0;
    assert (i, none) in Unswept(w, f, at, |w.events|);
  }

  /** No pick of a chosen event that has happened is unfinished. */
  predicate NoneOut(w: Setup, done: set<JobId>, at: Time, chosen: nat -> bool)
  {
    forall e: nat :: e < |w.events| && w.events[e].origin <= at && chosen(e) ==> OutOf(w.events[e], done) == {}
  }

  /** A pick in flight has an identity before any the workflow issues. */
  lemma NoneInFlight(w: Setup, first: JobId, done: set<JobId>, at: Time, chosen: nat -> bool)
    requires Laid(w.events, first)
    ensures |PicksOut(w, first, done, at, chosen)| == 0 <==> NoneOut(w, done, at, chosen)
  {
    var out := PicksOut(w, first, done, at, chosen);
    if NoneOut(w, done, at, chosen) {
      assert forall id :: id !in out;
      assert out == {};
    }
    if |out| == 0 {
      forall e: nat | e < |w.events| && w.events[e].origin <= at && chosen(e) ensures OutOf(w.events[e], done) == {} {
        forall id | id in OutOf(w.events[e], done) ensures id in out {}
      }
    }
  }

  /** Just in time: a sweep of what there is to group waits for the picks of events the mine values, and
      for no others, unless it has waited for as long as it may. */
  lemma JustInTimeWaitsForValued(w: Setup, first: JobId, f: Flow, at: Time, finished: seq<JobId>, valued: nat -> bool)
    requires Laid(w.events, first) && Holds(w, first, f, []) && Indexed(w, f) && Timely(f, at) && w.plan.trigger.JustInTime?
    requires forall k :: 0 <= k < |finished| ==> finished[k] < f.next
    ensures var (taken, _) := TakeAll(w, f, at, finished);
            var (r, step) := AdvanceFlow(w, f, at, finished, valued);
            step.Ok? ==>
              && |taken.tallies| == |w.events|
              && (Swept(step.value) <==>
                    (exists i: nat :: Candidate(w, taken, at, i)) &&
                    (NoneOut(w, r.done, at, valued) || 0 < w.plan.trigger.deadline <= Waited(f, at)))
  {
    hide AdvanceFlow, TakeAll, Holds, Laid, Candidate, Swept, Timely, NoneOut;
    SweepsWhenCalled(w, first, f, at, finished, valued);
    NoneInFlight(w, first, AdvanceFlow(w, f, at, finished, valued).0.done, at, valued);
  }

  /** When drained: it waits for every pick in flight. */
  lemma WhenDrainedWaitsForAll(w: Setup, first: JobId, f: Flow, at: Time, finished: seq<JobId>, valued: nat -> bool)
    requires Laid(w.events, first) && Holds(w, first, f, []) && Indexed(w, f) && Timely(f, at) && w.plan.trigger.WhenDrained?
    requires forall k :: 0 <= k < |finished| ==> finished[k] < f.next
    ensures var (taken, _) := TakeAll(w, f, at, finished);
            var (r, step) := AdvanceFlow(w, f, at, finished, valued);
            step.Ok? ==>
              && |taken.tallies| == |w.events|
              && (Swept(step.value) <==>
                    (exists i: nat :: Candidate(w, taken, at, i)) &&
                    (NoneOut(w, r.done, at, _ => true) || 0 < w.plan.trigger.deadline <= Waited(f, at)))
  {
    hide AdvanceFlow, TakeAll, Holds, Laid, Candidate, Swept, Timely, NoneOut;
    SweepsWhenCalled(w, first, f, at, finished, valued);
    NoneInFlight(w, first, AdvanceFlow(w, f, at, finished, valued).0.done, at, _ => true);
  }

  // ---------- What is submitted ----------

  /** The work of a sweep that has finished: for each event it grouped, in turn, one locate. */
  lemma {:induction false} OneLocateEach(w: Setup, f: Flow, at: Time, events: seq<nat>)
    ensures var (r, jobs) := Locates(w, f, at, events);
            && |jobs| == |events| && r.next == f.next + |events| && r == f.(next := r.next, issued := r.issued)
            && forall k :: 0 <= k < |events| ==>
                 && jobs[k] == Job(f.next + k, at, w.plan.locate.priority, w.drawn(f.next + k), events[k], StageLocate)
                 && jobs[k].id in r.issued && r.issued[jobs[k].id] == Issued(StageLocate, [events[k]])
    decreases |events|
  {
    if events != [] {
      var f1 := Issue(f, Job(0, at, w.plan.locate.priority, w.drawn(f.next), events[0], StageLocate), [events[0]]).0;
      OneLocateEach(w, f1, at, events[1..]);
      IssuedStay(w, f1, at, events[1..], f.next);
    }
  }

  lemma {:induction false} IssuedStay(w: Setup, f: Flow, at: Time, events: seq<nat>, id: JobId)
    requires id in f.issued && id < f.next
    ensures var r := Locates(w, f, at, events).0; id in r.issued && r.issued[id] == f.issued[id]
    decreases |events|
  {
    if events != [] {
      IssuedStay(w, Issue(f, Job(0, at, w.plan.locate.priority, w.drawn(f.next), events[0], StageLocate), [events[0]]).0, at, events[1..], id);
    }
  }

  function Grouped(w: Setup, f: Flow, at: Time): set<nat>
    requires |f.tallies| == |w.events|
  {
    set i: nat | i < |w.events| && Candidate(w, f, at, i)
  }

  /** A sweep is one job, of every event there is to group and no other; it costs as much as an empty one
      and as much again for each of them. */
  lemma SweepIsOfAll(w: Setup, f: Flow, at: Time)
    requires |f.tallies| == |w.events| && Grouped(w, f, at) != {}
    ensures var (r, jobs) := SweepNow(w, f, at);
            && |jobs| == 1 && jobs[0].id == f.next && jobs[0].submittedAt == at && jobs[0].stage == StageAssociate && jobs[0].event == NO_EVENT
            && jobs[0].priority == w.plan.associate.priority
            && jobs[0].seconds == w.plan.associate.seconds + w.plan.associate.perLocate * |Grouped(w, f, at)|
            && f.next in r.issued && r.issued[f.next].stage == StageAssociate
            && (forall i: nat :: i in r.issued[f.next].events <==> i in Grouped(w, f, at))
            && |r.tallies| == |f.tallies|
            && (forall i :: 0 <= i < |f.tallies| ==> r.tallies[i] == if i in Grouped(w, f, at) then f.tallies[i].(unswept := 0) else f.tallies[i])
  {
    var group := Candidates(w, f, at, |w.events|);
    CandidatesHold(w, f, at, |w.events|);
    forall i: nat ensures i in group <==> i in Grouped(w, f, at) {}
    var one :| one in Grouped(w, f, at);
    assert one in group;
    SizeOf(group, Grouped(w, f, at));
  }

  lemma {:induction false} SizeOf(events: seq<nat>, all: set<nat>)
    requires (forall k, l :: 0 <= k < l < |events| ==> events[k] < events[l]) && forall i: nat :: i in events <==> i in all
    ensures |events| == |all|
    decreases |events|
  {
    if events != [] {
      var n := |events| - 1;
      forall i: nat ensures i in events[..n] <==> i in all - {events[n]} {
        if i in events && i != events[n] {
          var k :| 0 <= k < |events| && events[k] == i;
          assert events[..n][k] == i;
        }
      }
      SizeOf(events[..n], all - {events[n]});
    } else {
      assert all == {};
    }
  }
}
