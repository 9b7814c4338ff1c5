/** What always holds of the mine's workflow, whatever finishes and whenever it sweeps:
    internal/pipeline/pipeline.go. */
module WorkflowLaws {
  import opened Basics
  import opened Work
  import opened Triggers
  import opened Workflow

  // ---------- What always holds ----------

  /** Events' picks are runs of jobs one after the other, all before the first identity the
      workflow may issue. */
  ghost predicate Laid(events: seq<Happening>, first: JobId)
  {
    && (forall i, j :: 0 <= i < j < |events| ==> events[i].firstJob + events[i].picks <= events[j].firstJob)
    && (forall i :: 0 <= i < |events| ==> 0 <= events[i].firstJob && events[i].firstJob + events[i].picks <= first)
  }

  /** The picks of an event that have finished. */
  function DonePicks(e: Happening, done: set<JobId>): set<JobId> { set id | id in done && e.firstJob <= id < e.firstJob + e.picks }

  predicate Ascending(events: seq<nat>) { forall k, l :: 0 <= k < l < |events| ==> events[k] < events[l] }

  /** What a job of the workflow's own was issued for: a sweep for events with the picks to
      solve for them, or a locate for one such event. */
  predicate Purposeful(work: Issued, tallies: seq<Tally>)
  {
    && (forall k :: 0 <= k < |work.events| ==> work.events[k] < |tallies| && tallies[work.events[k]].processed >= MINIMUM_PICKS)
    && match work.stage
       case StageAssociate => work.events != [] && Ascending(work.events)
       case StageLocate => |work.events| == 1
       case StagePick => false
  }

  function SweepsOf(f: Flow, i: nat): set<JobId>
  {
    set id | id in f.issued && f.issued[id].stage == StageAssociate && i in f.issued[id].events
  }

  function LocatesOf(f: Flow, i: nat): set<JobId>
  {
    set id | id in f.issued && f.issued[id].stage == StageLocate && i in f.issued[id].events
  }

  function AllOf(f: Flow, stage: Stage): set<JobId> { set id | id in f.issued && f.issued[id].stage == stage }

  /** Identities are issued one after the other, and only what was issued or is a pick is done. */
  ghost predicate Known(w: Setup, first: JobId, f: Flow)
  {
    && |f.tallies| == |w.events|
    && first <= f.next
    && (forall id :: id in f.issued <==> first <= id < f.next)
    && (forall id :: id in f.issued ==> Purposeful(f.issued[id], f.tallies))
    && (forall id :: id in f.done ==> id in f.issued || (id < first && PickOf(w.events, id).Some?))
  }

  /** Each event's tally is of its picks that are done, and it is grouped at most once for
      each pick past the third. */
  ghost predicate Tallied(w: Setup, f: Flow)
    requires |f.tallies| == |w.events|
  {
    forall i: nat :: i < |w.events| ==>
      && f.tallies[i].processed == |DonePicks(w.events[i], f.done)|
      && f.tallies[i].unswept <= f.tallies[i].processed
      && (SweepsOf(f, i) == {} || |SweepsOf(f, i)| + 3 <= f.tallies[i].processed - f.tallies[i].unswept)
  }

  /** Each sweep that is done has had a locate submitted for each event it grouped, but for
      those still owed. */
  ghost predicate Followed(f: Flow, owed: seq<nat>)
  {
    && Ascending(owed)
    && (forall i: nat :: |LocatesOf(f, i)| + (if i in owed then 1 else 0) == |SweepsOf(f, i) * f.done|)
    && |AllOf(f, StageLocate)| + |owed| >= |AllOf(f, StageAssociate) * f.done|
  }

  ghost predicate Holds(w: Setup, first: JobId, f: Flow, owed: seq<nat>)
  {
    Known(w, first, f) && Tallied(w, f) && Followed(f, owed)
  }

  lemma StartHolds(w: Setup, first: JobId)
    requires Laid(w.events, first)
    ensures Holds(w, first, Started(w.events, first), [])
  {
    var f := Started(w.events, first);
    forall i: nat ensures SweepsOf(f, i) == {} && LocatesOf(f, i) == {} {}
    assert AllOf(f, StageLocate) == {} && AllOf(f, StageAssociate) == {};
    forall i: nat | i < |w.events| ensures DonePicks(w.events[i], f.done) == {} {}
  }

  lemma KnownIsIndexed(w: Setup, first: JobId, f: Flow)
    requires Known(w, first, f)
    ensures Indexed(w, f)
  {
    forall id | id in f.issued ensures forall k :: 0 <= k < |f.issued[id].events| ==> f.issued[id].events[k] < |w.events| {
      assert Purposeful(f.issued[id], f.tallies);
    }
  }

  /** Where events' picks do not overlap, a job is a pick of exactly the event it is put to. */
  lemma PickIsOwn(events: seq<Happening>, first: JobId, id: JobId, i: nat)
    requires Laid(events, first) && i < |events|
    ensures PickOf(events, id) == Some(i) <==> events[i].firstJob <= id < events[i].firstJob + events[i].picks
  {
    LastFromHolds(events, id);
    var l := LastFrom(events, id);
    assert l > i ==> events[i].firstJob + events[i].picks <= events[l].firstJob;
  }

  // ---------- What one job more, issued or done, changes ----------

  lemma OneMore(s: set<JobId>, x: JobId, joins: bool)
    requires x !in s
    ensures |s + (if joins then {x} else {})| == |s| + (if joins then 1 else 0)
  {
    assert !joins ==> s + {} == s;
  }

  /** A job newly issued: it is not done, and joins the jobs of its own stage and events. */
  lemma IssuedJoins(w: Setup, first: JobId, f: Flow, work: Issued, i: nat)
    requires Known(w, first, f)
    ensures var r := f.(next := f.next + 1, issued := f.issued[f.next := work]);
            && f.next !in f.issued && f.next !in f.done
            && f.next !in LocatesOf(f, i) && f.next !in SweepsOf(f, i)
            && SweepsOf(r, i) * r.done == SweepsOf(f, i) * f.done
            && SweepsOf(r, i) == SweepsOf(f, i) + (if work.stage == StageAssociate && i in work.events then {f.next} else {})
            && LocatesOf(r, i) == LocatesOf(f, i) + (if work.stage == StageLocate && i in work.events then {f.next} else {})
  {
  }

  lemma IssuedJoinsAll(w: Setup, first: JobId, f: Flow, work: Issued, stage: Stage)
    requires Known(w, first, f)
    ensures var r := f.(next := f.next + 1, issued := f.issued[f.next := work]);
            && f.next !in AllOf(f, stage)
            && AllOf(r, stage) == AllOf(f, stage) + (if work.stage == stage then {f.next} else {})
            && AllOf(r, stage) * r.done == AllOf(f, stage) * f.done
  {
  }

  lemma IssuedIsKnown(w: Setup, first: JobId, f: Flow, work: Issued)
    requires Known(w, first, f) && Purposeful(work, f.tallies)
    ensures Known(w, first, f.(next := f.next + 1, issued := f.issued[f.next := work]))
  {
    hide Purposeful;
  }

  /** Events' tallies may change, so long as nothing processed is forgotten. */
  lemma KnownAsTalliesGrow(w: Setup, first: JobId, f: Flow, tallies: seq<Tally>)
    requires Known(w, first, f) && |tallies| == |f.tallies|
    requires forall i :: 0 <= i < |tallies| ==> tallies[i].processed >= f.tallies[i].processed
    ensures Known(w, first, f.(tallies := tallies))
  {
    forall id | id in f.issued ensures Purposeful(f.issued[id], tallies) {
      assert Purposeful(f.issued[id], f.tallies);
    }
  }

  /** A job of the workflow's own is no event's pick. */
  lemma OwnIsNoPick(w: Setup, first: JobId, f: Flow, id: JobId, i: nat)
    requires Laid(w.events, first) && Known(w, first, f) && id in f.issued && i < |w.events|
    ensures DonePicks(w.events[i], f.done + {id}) == DonePicks(w.events[i], f.done)
  {
  }

  /** A pick is no job of the workflow's own. */
  lemma PickIsNotOwn(w: Setup, first: JobId, f: Flow, id: JobId, e: nat)
    requires Laid(w.events, first) && Known(w, first, f) && PickOf(w.events, id) == Some(e) && e < |w.events|
    ensures id !in f.issued && id < first
  {
    PickIsOwn(w.events, first, id, e);
  }

  // ---------- One job finishing ----------

  /** A sweep finishing owes a locate to each event it grouped. */
  lemma SweepFinishes(w: Setup, first: JobId, f: Flow, id: JobId)
    requires Laid(w.events, first) && Holds(w, first, f, []) && id !in f.done
    requires id in f.issued && f.issued[id].stage == StageAssociate
    ensures Holds(w, first, f.(done := f.done + {id}), f.issued[id].events)
  {
    var r := f.(done := f.done + {id});
    assert Purposeful(f.issued[id], f.tallies);
    forall i: nat | i < |w.events| ensures DonePicks(w.events[i], r.done) == DonePicks(w.events[i], f.done) {
      OwnIsNoPick(w, first, f, id, i);
    }
    forall i: nat ensures SweepsOf(r, i) == SweepsOf(f, i) {}
    SweepFollows(f, id);
  }

  lemma SweepFollows(f: Flow, id: JobId)
    requires Followed(f, []) && id !in f.done && id in f.issued && f.issued[id].stage == StageAssociate
    requires f.issued[id].events != [] && Ascending(f.issued[id].events)
    ensures Followed(f.(done := f.done + {id}), f.issued[id].events)
  {
    hide SweepsOf, LocatesOf, AllOf;
    var r, events := f.(done := f.done + {id}), f.issued[id].events;
    forall i: nat ensures |LocatesOf(r, i)| + (if i in events then 1 else 0) == |SweepsOf(r, i) * r.done| {
      SweepIsDone(f, id, i);
      OneMore(SweepsOf(f, i) * f.done, id, i in events);
    }
    OneMore(AllOf(f, StageAssociate) * f.done, id, true);
    SweepIsDone(f, id, 0);
  }

  lemma SweepIsDone(f: Flow, id: JobId, i: nat)
    requires id !in f.done && id in f.issued && f.issued[id].stage == StageAssociate
    ensures var r := f.(done := f.done + {id});
            && LocatesOf(r, i) == LocatesOf(f, i)
            && SweepsOf(r, i) * r.done == (SweepsOf(f, i) * f.done) + (if i in f.issued[id].events then {id} else {})
            && AllOf(r, StageLocate) == AllOf(f, StageLocate)
            && AllOf(r, StageAssociate) * r.done == (AllOf(f, StageAssociate) * f.done) + {id}
  {
  }

  /** A locate submitted for the first event still owed one. */
  lemma LocateIssued(w: Setup, first: JobId, f: Flow, owed: seq<nat>)
    requires Laid(w.events, first) && Holds(w, first, f, owed) && owed != []
    requires owed[0] < |f.tallies| && f.tallies[owed[0]].processed >= MINIMUM_PICKS
    ensures Holds(w, first, f.(next := f.next + 1, issued := f.issued[f.next := Issued(StageLocate, [owed[0]])]), owed[1..])
  {
    hide Followed, Laid, SweepsOf, LocatesOf, DonePicks;
    var work := Issued(StageLocate, [owed[0]]);
    IssuedIsKnown(w, first, f, work);
    LocateFollows(w, first, f, owed);
    LocateTallied(w, first, f, work);
  }

  lemma LocateTallied(w: Setup, first: JobId, f: Flow, work: Issued)
    requires Known(w, first, f) && |f.tallies| == |w.events| && Tallied(w, f) && work.stage == StageLocate
    ensures Tallied(w, f.(next := f.next + 1, issued := f.issued[f.next := work]))
  {
    hide Known, DonePicks, SweepsOf;
    forall i: nat | i < |w.events| ensures SweepsOf(f.(next := f.next + 1, issued := f.issued[f.next := work]), i) == SweepsOf(f, i) {
      IssuedJoins(w, first, f, work, i);
    }
  }

  lemma LocateFollows(w: Setup, first: JobId, f: Flow, owed: seq<nat>)
    requires Known(w, first, f) && Followed(f, owed) && owed != []
    ensures Followed(f.(next := f.next + 1, issued := f.issued[f.next := Issued(StageLocate, [owed[0]])]), owed[1..])
  {
    hide Known, SweepsOf, LocatesOf, AllOf;
    var work := Issued(StageLocate, [owed[0]]);
    var r := f.(next := f.next + 1, issued := f.issued[f.next := work]);
    assert forall k :: 0 <= k < |owed[1..]| ==> owed[1..][k] == owed[k + 1];
    forall i: nat ensures |LocatesOf(r, i)| + (if i in owed[1..] then 1 else 0) == |SweepsOf(r, i) * r.done| {
      LocateFollowsAt(w, first, f, owed, i);
    }
    LocatesJoin(w, first, f, work);
  }

  lemma LocatesJoin(w: Setup, first: JobId, f: Flow, work: Issued)
    requires Known(w, first, f)
    ensures var r := f.(next := f.next + 1, issued := f.issued[f.next := work]);
            && |AllOf(r, StageLocate)| == |AllOf(f, StageLocate)| + (if work.stage == StageLocate then 1 else 0)
            && AllOf(r, StageAssociate) * r.done == AllOf(f, StageAssociate) * f.done
  {
    hide Known, AllOf;
    IssuedJoinsAll(w, first, f, work, StageAssociate);
    IssuedJoinsAll(w, first, f, work, StageLocate);
    OneMore(AllOf(f, StageLocate), f.next, work.stage == StageLocate);
  }

  lemma FirstOwed(owed: seq<nat>, i: nat)
    requires owed != [] && Ascending(owed)
    ensures (if i in owed then 1 else 0) == (if i == owed[0] then 1 else 0) + (if i in owed[1..] then 1 else 0)
  {
    assert owed == [owed[0]] + owed[1..];
  }

  lemma LocateFollowsAt(w: Setup, first: JobId, f: Flow, owed: seq<nat>, i: nat)
    requires Known(w, first, f) && owed != [] && Ascending(owed)
    requires |LocatesOf(f, i)| + (if i in owed then 1 else 0) == |SweepsOf(f, i) * f.done|
    ensures var r := f.(next := f.next + 1, issued := f.issued[f.next := Issued(StageLocate, [owed[0]])]);
            |LocatesOf(r, i)| + (if i in owed[1..] then 1 else 0) == |SweepsOf(r, i) * r.done|
  {
    hide Known, SweepsOf, LocatesOf;
    IssuedJoins(w, first, f, Issued(StageLocate, [owed[0]]), i);
    OneMore(LocatesOf(f, i), f.next, i == owed[0]);
    FirstOwed(owed, i);
  }

  /** The work a sweep submits when it finishes: a locate for each event owed one, with
      identities one after the other. */
  lemma {:induction false} LocatesKeep(w: Setup, first: JobId, f: Flow, at: Time, owed: seq<nat>)
    requires Laid(w.events, first) && Holds(w, first, f, owed)
    requires forall k :: 0 <= k < |owed| ==> owed[k] < |f.tallies| && f.tallies[owed[k]].processed >= MINIMUM_PICKS
    ensures var (r, jobs) := Locates(w, f, at, owed);
            && Holds(w, first, r, [])
            && r.next == f.next + |owed| && |jobs| == |owed|
            && (forall k :: 0 <= k < |owed| ==>
                  jobs[k] == Job(f.next + k, at, w.plan.locate.priority, w.drawn(f.next + k), owed[k], StageLocate))
            && r == f.(next := r.next, issued := r.issued)
            && (forall id :: id in f.issued ==> id in r.issued && r.issued[id] == f.issued[id])
    decreases |owed|
  {
    hide Laid, Holds;
    if owed != [] {
      NextIsNew(w, first, f, owed);
      LocateIssued(w, first, f, owed);
      var job := Job(0, at, w.plan.locate.priority, w.drawn(f.next), owed[0], StageLocate);
      LocatesKeep(w, first, Issue(f, job, [owed[0]]).0, at, owed[1..]);
    }
  }

  /** A locate finishing marks its event as located. */
  lemma LocateFinishes(w: Setup, first: JobId, f: Flow, id: JobId, tallies: seq<Tally>)
    requires Laid(w.events, first) && Holds(w, first, f, []) && id !in f.done
    requires id in f.issued && f.issued[id].stage == StageLocate
    requires |tallies| == |f.tallies|
    requires forall i :: 0 <= i < |tallies| ==> tallies[i].processed == f.tallies[i].processed && tallies[i].unswept == f.tallies[i].unswept
    ensures Holds(w, first, f.(done := f.done + {id}, tallies := tallies), [])
  {
    var r := f.(done := f.done + {id}, tallies := tallies);
    forall x | x in r.issued ensures Purposeful(r.issued[x], r.tallies) {
      assert Purposeful(f.issued[x], f.tallies);
    }
    forall i: nat | i < |w.events| ensures DonePicks(w.events[i], r.done) == DonePicks(w.events[i], f.done) {}
    forall i: nat ensures SweepsOf(r, i) == SweepsOf(f, i) && LocatesOf(r, i) == LocatesOf(f, i) {}
    forall i: nat ensures SweepsOf(r, i) * r.done == SweepsOf(f, i) * f.done {}
    assert AllOf(r, StageAssociate) == AllOf(f, StageAssociate) && AllOf(r, StageLocate) == AllOf(f, StageLocate);
    assert AllOf(r, StageAssociate) * r.done == AllOf(f, StageAssociate) * f.done;
  }

  /** A pick finishing is one more processed, and one more no sweep has grouped. */
  lemma PickFinishes(w: Setup, first: JobId, f: Flow, id: JobId, e: nat, completions: seq<Time>)
    requires Laid(w.events, first) && Holds(w, first, f, []) && id !in f.done
    requires PickOf(w.events, id) == Some(e) && e < |w.events|
    ensures var t := f.tallies[e];
            Holds(w, first, f.(done := f.done + {id}, completions := completions,
                               tallies := f.tallies[e := t.(processed := t.processed + 1, unswept := t.unswept + 1)]), [])
  {
    hide Tallied, Followed, Laid, Purposeful, PickOf;
    assert |f.tallies| == |w.events|;
    hide Known;
    var t := f.tallies[e];
    var tallies := f.tallies[e := t.(processed := t.processed + 1, unswept := t.unswept + 1)];
    var r := f.(done := f.done + {id}, completions := completions, tallies := tallies);
    PickIsNotOwn(w, first, f, id, e);
    PickIsKnown(w, first, f, id, e, completions, tallies);
    PickTallied(w, first, f, id, e);
    assert Tallied(w, r) by {
      SameTallied(w, r.(completions := f.completions), r);
    }
    SameFollowed(f, r, id);
  }

  lemma SameFollowed(a: Flow, b: Flow, id: JobId)
    requires Followed(a, []) && b.issued == a.issued && b.done == a.done + {id} && id !in a.issued
    ensures Followed(b, [])
  {
    hide SweepsOf, LocatesOf, AllOf;
    forall i: nat ensures |LocatesOf(b, i)| == |SweepsOf(b, i) * b.done| {
      SameWork(a, b, i);
      NotOwn(a, id, i);
    }
    SameStages(a, b);
    NotOwn(a, id, 0);
  }

  lemma NotOwn(f: Flow, id: JobId, i: nat)
    requires id !in f.issued
    ensures SweepsOf(f, i) * (f.done + {id}) == SweepsOf(f, i) * f.done
    ensures AllOf(f, StageAssociate) * (f.done + {id}) == AllOf(f, StageAssociate) * f.done
  {
  }

  lemma SameTallied(w: Setup, a: Flow, b: Flow)
    requires |a.tallies| == |w.events| && Tallied(w, a)
    requires b.tallies == a.tallies && b.issued == a.issued && b.done == a.done
    ensures Tallied(w, b)
  {
    forall i: nat | i < |w.events| ensures SweepsOf(b, i) == SweepsOf(a, i) {}
  }

  lemma SameWork(a: Flow, b: Flow, i: nat)
    requires a.issued == b.issued
    ensures SweepsOf(a, i) == SweepsOf(b, i) && LocatesOf(a, i) == LocatesOf(b, i)
  {
  }

  lemma SameStages(a: Flow, b: Flow)
    requires a.issued == b.issued
    ensures AllOf(a, StageAssociate) == AllOf(b, StageAssociate) && AllOf(a, StageLocate) == AllOf(b, StageLocate)
  {
  }

  lemma PickIsKnown(w: Setup, first: JobId, f: Flow, id: JobId, e: nat, completions: seq<Time>, tallies: seq<Tally>)
    requires Laid(w.events, first) && Known(w, first, f) && PickOf(w.events, id) == Some(e) && e < |w.events|
    requires |tallies| == |f.tallies| && forall i :: 0 <= i < |tallies| ==> tallies[i].processed >= f.tallies[i].processed
    ensures Known(w, first, f.(done := f.done + {id}, completions := completions, tallies := tallies))
  {
    hide Purposeful;
    PickIsNotOwn(w, first, f, id, e);
    KnownAsTalliesGrow(w, first, f, tallies);
  }

  lemma PickTallied(w: Setup, first: JobId, f: Flow, id: JobId, e: nat)
    requires Laid(w.events, first) && |f.tallies| == |w.events| && Tallied(w, f) && id !in f.done
    requires PickOf(w.events, id) == Some(e) && e < |w.events|
    ensures var t := f.tallies[e];
            Tallied(w, f.(done := f.done + {id},
                          tallies := f.tallies[e := t.(processed := t.processed + 1, unswept := t.unswept + 1)]))
  {
    var t := f.tallies[e];
    var r := f.(done := f.done + {id}, tallies := f.tallies[e := t.(processed := t.processed + 1, unswept := t.unswept + 1)]);
    hide Laid, DonePicks, SweepsOf;
    forall i: nat | i < |w.events|
      ensures |DonePicks(w.events[i], r.done)| == |DonePicks(w.events[i], f.done)| + (if i == e then 1 else 0)
      ensures SweepsOf(r, i) == SweepsOf(f, i)
    {
      OneMoreDone(w, first, f.done, id, e, i);
      SameWork(f, r, i);
    }
  }

  lemma OneMoreDone(w: Setup, first: JobId, done: set<JobId>, id: JobId, e: nat, i: nat)
    requires Laid(w.events, first) && PickOf(w.events, id) == Some(e) && e < |w.events| && i < |w.events| && id !in done
    ensures |DonePicks(w.events[i], done + {id})| == |DonePicks(w.events[i], done)| + (if i == e then 1 else 0)
  {
    PickIsOwn(w.events, first, id, i);
    assert DonePicks(w.events[i], done + {id}) == DonePicks(w.events[i], done) + (if i == e then {id} else {});
  }

  // ---------- Sweeping ----------

  /** A sweep takes every pick no sweep has grouped from the events it groups. */
  lemma SweepKeeps(w: Setup, first: JobId, f: Flow, at: Time)
    requires Laid(w.events, first) && Holds(w, first, f, [])
    ensures var (r, jobs) := SweepNow(w, f, at);
            && Holds(w, first, r, [])
            && r.next == f.next + |jobs| && |jobs| <= 1
            && r.done == f.done && r.completions == f.completions
            && (forall k :: 0 <= k < |jobs| ==> jobs[k].id == f.next && jobs[k].stage == StageAssociate && jobs[k].submittedAt == at)
            && (forall id :: id in f.issued ==> id in r.issued && r.issued[id] == f.issued[id])
            && (forall i: nat :: i < |w.events| ==> r.tallies[i].processed == f.tallies[i].processed)
  {
    hide Holds, Laid, Candidates, Emptied;
    NextIsNew(w, first, f, []);
    var group := Candidates(w, f, at, |w.events|);
    GroupIsReady(w, f, at);
    if group != [] {
      GroupIsIssued(w, first, f, SweepNow(w, f, at).0, group);
      EmptiedKeeps(f.tallies, group);
    }
  }

  lemma EmptiedKeeps(tallies: seq<Tally>, group: seq<nat>)
    ensures |Emptied(tallies, group)| == |tallies|
    ensures forall i :: 0 <= i < |tallies| ==> Emptied(tallies, group)[i].processed == tallies[i].processed
  {
  }

  lemma NextIsNew(w: Setup, first: JobId, f: Flow, owed: seq<nat>)
    requires Holds(w, first, f, owed)
    ensures |f.tallies| == |w.events| && f.next !in f.issued && f.next !in f.done && first <= f.next
  {
  }

  lemma GroupIsReady(w: Setup, f: Flow, at: Time)
    requires |f.tallies| == |w.events|
    ensures var group := Candidates(w, f, at, |w.events|);
            && Ascending(group)
            && forall k :: 0 <= k < |group| ==>
                             group[k] < |f.tallies| && f.tallies[group[k]].unswept > 0 && f.tallies[group[k]].processed >= MINIMUM_PICKS
  {
    var group := Candidates(w, f, at, |w.events|);
    CandidatesHold(w, f, at, |w.events|);
    forall k | 0 <= k < |group|
      ensures group[k] < |f.tallies| && f.tallies[group[k]].unswept > 0 && f.tallies[group[k]].processed >= MINIMUM_PICKS
    {
      var i := group[k];
      assert i in group && Candidate(w, f, at, i);
    }
  }

  lemma GroupIsIssued(w: Setup, first: JobId, f: Flow, r: Flow, group: seq<nat>)
    requires Laid(w.events, first) && Holds(w, first, f, [])
    requires group != [] && Ascending(group)
    requires forall k :: 0 <= k < |group| ==>
                           group[k] < |f.tallies| && f.tallies[group[k]].unswept > 0 && f.tallies[group[k]].processed >= MINIMUM_PICKS
    requires r == f.(tallies := Emptied(f.tallies, group), lastSweep := r.lastSweep, swept := true,
                     next := f.next + 1, issued := f.issued[f.next := Issued(StageAssociate, group)])
    ensures Holds(w, first, r, [])
  {
    hide Known, Tallied, Laid, SweepsOf, LocatesOf, AllOf;
    var work := Issued(StageAssociate, group);
    GroupIsKnown(w, first, f, r, group);
    GroupTallied(w, first, f, r, group);
    forall i: nat ensures |LocatesOf(r, i)| == |SweepsOf(r, i) * r.done| {
      GroupFollowsAt(w, first, f, r, group, i);
    }
    GroupFollows(w, first, f, r, group);
  }

  lemma GroupIsKnown(w: Setup, first: JobId, f: Flow, r: Flow, group: seq<nat>)
    requires Known(w, first, f) && group != [] && Ascending(group)
    requires forall k :: 0 <= k < |group| ==> group[k] < |f.tallies| && f.tallies[group[k]].processed >= MINIMUM_PICKS
    requires r == f.(tallies := Emptied(f.tallies, group), lastSweep := r.lastSweep, swept := true,
                     next := f.next + 1, issued := f.issued[f.next := Issued(StageAssociate, group)])
    ensures Known(w, first, r)
  {
    KnownAsTalliesGrow(w, first, f, r.tallies);
    IssuedIsKnown(w, first, f.(tallies := r.tallies), Issued(StageAssociate, group));
    hide Purposeful;
  }

  lemma GroupFollowsAt(w: Setup, first: JobId, f: Flow, r: Flow, group: seq<nat>, i: nat)
    requires Known(w, first, f) && |LocatesOf(f, i)| == |SweepsOf(f, i) * f.done|
    requires r.done == f.done && r.issued == f.issued[f.next := Issued(StageAssociate, group)]
    ensures |LocatesOf(r, i)| == |SweepsOf(r, i) * r.done|
  {
    hide Known;
    var work := Issued(StageAssociate, group);
    IssuedJoins(w, first, f, work, i);
    SameWork(r, f.(next := f.next + 1, issued := f.issued[f.next := work]), i);
    hide LocatesOf, SweepsOf;
    assert SweepsOf(r, i) * r.done == SweepsOf(f, i) * f.done;
  }

  lemma GroupFollows(w: Setup, first: JobId, f: Flow, r: Flow, group: seq<nat>)
    requires Known(w, first, f)
    requires r.done == f.done && r.issued == f.issued[f.next := Issued(StageAssociate, group)]
    ensures |AllOf(r, StageLocate)| == |AllOf(f, StageLocate)|
    ensures AllOf(r, StageAssociate) * r.done == AllOf(f, StageAssociate) * f.done
  {
    hide Known;
    var work := Issued(StageAssociate, group);
    LocatesJoin(w, first, f, work);
    SameStages(r, f.(next := f.next + 1, issued := f.issued[f.next := work]));
  }

  lemma GroupTallied(w: Setup, first: JobId, f: Flow, r: Flow, group: seq<nat>)
    requires Known(w, first, f) && Tallied(w, f)
    requires forall k :: 0 <= k < |group| ==>
                           group[k] < |f.tallies| && f.tallies[group[k]].unswept > 0 && f.tallies[group[k]].processed >= MINIMUM_PICKS
    requires r == f.(tallies := Emptied(f.tallies, group), lastSweep := r.lastSweep, swept := true,
                     next := f.next + 1, issued := f.issued[f.next := Issued(StageAssociate, group)])
    ensures |r.tallies| == |w.events| && Tallied(w, r)
  {
    var work := Issued(StageAssociate, group);
    assert |f.tallies| == |w.events|;
    forall i: nat | i < |w.events|
      ensures |SweepsOf(r, i)| == |SweepsOf(f, i)| + (if i in group then 1 else 0)
    {
      IssuedJoins(w, first, f, work, i);
      assert f.next !in SweepsOf(f, i);
      assert SweepsOf(r, i) == SweepsOf(f, i) + (if i in group then {f.next} else {});
    }
  }
}
