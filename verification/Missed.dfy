/** Two inputs on which a judgement skipped is not the one that would be made:
    internal/intent/planner.go:274-297 and internal/observe/observe.go:25-41. One breaks nothing
    the planner's inputs promise; the other breaks the half of a promise that is not written. */
module Missed {
  import opened Basics
  import opened Settings
  import opened Observe
  import opened Orchestrator
  import opened Reference
  import opened Settled
  import CatalogueOps
  import Tracks
  import Work

  // ---------- One person along a drift ----------

  const DECAY_WITHIN_TEN := Intent(
    Decay, Estimate, true, 1.0, ["person"], 0, Moderate, High, 0.0, 0.0, 0, 1, FromArrival, true, [])

  /** Along a straight drift: how far along it each point is. */
  function At(x: real): Point { Point(x, 0.0, 0.0) }

  /** One event of five picks, heard first by sensors three metres apart, and a hazard that
      carries farther from a larger magnitude and a wider uncertainty. */
  function LonePerson(view: Whereabouts): Site
  {
    Site([5, 5, 5, 5, 5], [EventWork(0, 0, 5, [At(0.0), At(3.0), At(6.0), At(9.0), At(12.0)])], [], Tracks.LINE,
         (magnitude, uncertainty, level) => Some((if magnitude > 2.0 then 100.0 else 10.0) + uncertainty), view, view)
  }

  /** One person, who stays 50 metres along the drift, on the ground given until one moment and
      other ground after it. */
  function Standing(until: seq<Point>, after: seq<Point>): Whereabouts
  {
    Whereabouts((t: Time, l: Time, protect: seq<Kind>) => if "person" in protect then [Path("p", if t <= 0 then until else after)] else [],
                (t: Time, protect: seq<Kind>) => if "person" in protect then [Position("p", At(50.0))] else [], 0.0)
  }

  /** The sensors' reading of that event. */
  const HEARD := Sighting(Point(0.0, 0.0, 0.0), 1.0, 9.0, FromSensors)

  /** A solver that answers, from four picks on, with a large magnitude at the first sensor. */
  const SOLVED := CatalogueOps.Workload(
    [Work.Job(0, 0, 5, 1, 0, Work.StagePick), Work.Job(1, 0, 5, 1, 0, Work.StagePick), Work.Job(2, 0, 5, 1, 0, Work.StagePick),
     Work.Job(3, 0, 5, 1, 0, Work.StagePick), Work.Job(4, 0, 5, 1, 0, Work.StagePick)],
    [EventWork(0, 0, 5, [At(0.0), At(3.0), At(6.0), At(9.0), At(12.0)])], false,
    (i, picks) => Some(Location(Point(0.0, 0.0, 0.0), Some(3.0))))

  lemma SolvedIsWellFormed()
    ensures SOLVED.WellFormed() && |SOLVED.jobs| == 5 && |SOLVED.events| == 1 && !SOLVED.deferred
    ensures SOLVED.events[0].first == 0 && SOLVED.events[0].picks == 5
    ensures forall k :: 0 <= k < 5 ==> SOLVED.jobs[k].event == 0
    ensures forall picks :: SOLVED.solve(0, picks) == Some(Location(At(0.0), Some(3.0)))
  {
  }

  /** The book of that workload with some of its picks noted and no location yet. */
  function Noted(done: seq<bool>, times: seq<Option<Time>>, n: nat): CatalogueOps.Book
  {
    CatalogueOps.Book(done, [n], [CatalogueOps.Record(times, None, None, None, None)])
  }

  lemma NoteOne(w: CatalogueOps.Workload, done: seq<bool>, times: seq<Option<Time>>, n: nat, k: nat, rest: seq<JobId>, touched: seq<nat>)
    requires w.WellFormed() && |w.jobs| == 5 && |w.events| == 1 && w.events[0].first == 0 && w.events[0].picks == 5
    requires forall k :: 0 <= k < 5 ==> w.jobs[k].event == 0
    requires |done| == |times| == 5 && k < 5 && !done[k] && (touched == [] || touched == [0])
    ensures CatalogueOps.Sized(w, Noted(done, times, n)) && CatalogueOps.Sized(w, Noted(done[k := true], times[k := Some(1)], n + 1))
    ensures CatalogueOps.NoteAll(w, Noted(done, times, n), 1, [k as JobId] + rest, touched) ==
            CatalogueOps.NoteAll(w, Noted(done[k := true], times[k := Some(1)], n + 1), 1, rest, [0])
  {
    hide CatalogueOps.Workload.WellFormed;
    var ids, b := [k as JobId] + rest, Noted(done, times, n);
    assert ids != [] && ids[0] == k && ids[1..] == rest;
    assert b.processed[0 := n + 1] == [n + 1];
    assert b.records[0 := b.records[0].(pickAt := times[k := Some(1)])] == [CatalogueOps.Record(times[k := Some(1)], None, None, None, None)];
    assert CatalogueOps.Note(w, b, 1, k) == Ok(Noted(done[k := true], times[k := Some(1)], n + 1));
    assert [] + [0] == [0];
  }

  /** The catalogue of that workload once four of the five picks are processed. */
  lemma SolvedByFour() returns (b: CatalogueOps.Book)
    ensures SOLVED.WellFormed() && CatalogueOps.Sized(SOLVED, CatalogueOps.Blank(SOLVED))
    ensures (b, Ok([0])) == CatalogueOps.ObserveAll(SOLVED, CatalogueOps.Blank(SOLVED), 1, [0, 1, 2, 3])
    ensures CatalogueOps.Sized(SOLVED, b)
    ensures CatalogueOps.Knows(SOLVED, b) == Catalogue([1], [Some(Location(At(0.0), Some(3.0)))], [true, true, true, true, false])
  {
    SolvedIsWellFormed();
    b := FourNoted(SOLVED);
  }

  lemma FourNoted(w: CatalogueOps.Workload) returns (b: CatalogueOps.Book)
    requires w.WellFormed() && |w.jobs| == 5 && |w.events| == 1 && !w.deferred && w.events[0].first == 0 && w.events[0].picks == 5
    requires forall k :: 0 <= k < 5 ==> w.jobs[k].event == 0
    requires forall picks :: w.solve(0, picks) == Some(Location(At(0.0), Some(3.0)))
    ensures CatalogueOps.Sized(w, CatalogueOps.Blank(w))
    ensures (b, Ok([0])) == CatalogueOps.ObserveAll(w, CatalogueOps.Blank(w), 1, [0, 1, 2, 3])
    ensures CatalogueOps.Sized(w, b)
    ensures CatalogueOps.Knows(w, b) == Catalogue([1], [Some(Location(At(0.0), Some(3.0)))], [true, true, true, true, false])
  {
    hide CatalogueOps.Workload.WellFormed, CatalogueOps.Blank, CatalogueOps.Settle, CatalogueOps.SettleAll, CatalogueOps.NoteAll;
    var some: Option<Time> := Some(1);
    var never := [None, None, None, None, None];
    var four := Noted([true, true, true, true, false], [some, some, some, some, None], 4);
    BlankIsNoted(w);
    var f, t := false, true;
    var none: Option<Time> := None;
    assert [f, f, f, f, f][0 := t] == [t, f, f, f, f] && never[0 := some] == [some, none, none, none, none];
    assert [t, f, f, f, f][1 := t] == [t, t, f, f, f] && [some, none, none, none, none][1 := some] == [some, some, none, none, none];
    assert [t, t, f, f, f][2 := t] == [t, t, t, f, f] && [some, some, none, none, none][2 := some] == [some, some, some, none, none];
    assert [t, t, t, f, f][3 := t] == [t, t, t, t, f] && [some, some, some, none, none][3 := some] == [some, some, some, some, none];
    NoteOne(w, [f, f, f, f, f], never, 0, 0, [1, 2, 3], []);
    NoteOne(w, [t, f, f, f, f], [some, none, none, none, none], 1, 1, [2, 3], [0]);
    NoteOne(w, [t, t, f, f, f], [some, some, none, none, none], 2, 2, [3], [0]);
    NoteOne(w, [t, t, t, f, f], [some, some, some, none, none], 3, 3, [], [0]);
    assert [0] + [1, 2, 3] == [0, 1, 2, 3] && [1] + [2, 3] == [1, 2, 3] && [2] + [3] == [2, 3] && [3] + [] == [3];
    assert CatalogueOps.NoteAll(w, four, 1, [], [0]) == (four, Ok([0])) by {
      NothingToNote(w, four);
    }
    assert CatalogueOps.NoteAll(w, CatalogueOps.Blank(w), 1, [0, 1, 2, 3], []) == (four, Ok([0]));
    b := CatalogueOps.Settle(w, four, 1, 0);
    SettledOnce(w, four, b);
  }

  lemma NothingToNote(w: CatalogueOps.Workload, b: CatalogueOps.Book)
    requires w.WellFormed() && CatalogueOps.Sized(w, b)
    ensures CatalogueOps.NoteAll(w, b, 1, [], [0]) == (b, Ok([0]))
  {
  }

  lemma BlankIsNoted(w: CatalogueOps.Workload)
    requires w.WellFormed() && |w.jobs| == 5 && |w.events| == 1 && w.events[0].picks == 5
    ensures CatalogueOps.Sized(w, CatalogueOps.Blank(w))
    ensures CatalogueOps.Blank(w) == Noted([false, false, false, false, false], [None, None, None, None, None], 0)
  {
    var b := CatalogueOps.Blank(w);
    assert CatalogueOps.NoTimes(5) == [None, None, None, None, None];
    assert b.done == [false, false, false, false, false] && b.processed == [0];
    assert b.records == [CatalogueOps.Untouched(5)];
  }

  lemma SettledOnce(w: CatalogueOps.Workload, four: CatalogueOps.Book, b: CatalogueOps.Book)
    requires w.WellFormed() && |w.events| == 1 && !w.deferred && w.events[0].first == 0 && w.events[0].picks == 5
    requires forall picks :: w.solve(0, picks) == Some(Location(At(0.0), Some(3.0)))
    requires CatalogueOps.Sized(w, four) && four.processed == [4] && four.records[0].located.None? && four.records[0].locatedAt.None?
    requires b == CatalogueOps.Settle(w, four, 1, 0)
    ensures CatalogueOps.SettleAll(w, four, 1, [0]) == b && CatalogueOps.Sized(w, b)
    ensures CatalogueOps.Knows(w, b) == Catalogue([1], [Some(Location(At(0.0), Some(3.0)))], four.done)
  {
    hide CatalogueOps.Workload.WellFormed;
    assert [0][1..] == [];
    assert CatalogueOps.SettleAll(w, b, 1, []) == b;
  }

  /** How near the one person is taken to be. */
  lemma StandingAt(until: seq<Point>, after: seq<Point>, t: Time, d: real)
    requires PathDistance(Tracks.LINE, if t <= 0 then until else after, At(0.0)) == Some(d)
    ensures NearestOf(Tracks.LINE, Standing(until, after).reach(t, 0, ["person"]), At(0.0)) == Some(Close("p", d))
  {
    var path := Path("p", if t <= 0 then until else after);
    assert "person" in ["person"];
    assert [path][..0] == [];
    assert NearestOf(Tracks.LINE, [], At(0.0)) == None;
  }

  /** Where the one person was when the event happened. */
  lemma StandingStruck(until: seq<Point>, after: seq<Point>)
    ensures Strike(LonePerson(Standing(until, after)), DECAY_WITHIN_TEN, 0, At(0.0)) == Some(Close("p", 50.0))
  {
    assert "person" in ["person"];
    assert [Position("p", At(50.0))][..0] == [];
    assert NearestUnit(Tracks.LINE, [], At(0.0)) == None;
  }

  lemma Ground(p: Point)
    ensures forall q :: PathDistance(Tracks.LINE, [p], q) == Some(Tracks.LINE.gap(p, q))
  {
  }

  lemma Stretch(p: Point, r: Point)
    ensures forall q :: PathDistance(Tracks.LINE, [p, r], q) == Some(MinReal(Tracks.LINE.gap(p, q), Tracks.LINE.segment(p, r, q)))
  {
    assert [p, r][..1] == [p];
  }

  /** How near the one person is taken to be to any point, if anyone asks. */
  lemma StandingNear(until: seq<Point>, after: seq<Point>, t: Time, lookahead: Time, protect: seq<Kind>, q: Point)
    requires until != [] && after != []
    ensures Distance(NearestOf(Tracks.LINE, Standing(until, after).reach(t, lookahead, protect), q)) ==
            if "person" in protect then PathDistance(Tracks.LINE, if t <= 0 then until else after, q) else None
  {
    var path := Path("p", if t <= 0 then until else after);
    assert [path][..0] == [];
    assert NearestOf(Tracks.LINE, [], q) == None;
  }

  /** The person never leaves the ground they are given, if it has the place they stand. */
  lemma StandingCovered(until: seq<Point>, after: seq<Point>)
    requires PathDistance(Tracks.LINE, until, At(50.0)) == Some(0.0) && PathDistance(Tracks.LINE, after, At(50.0)) == Some(0.0)
    ensures Covering(Tracks.LINE, Standing(until, after))
  {
    var w := Standing(until, after);
    forall t: Time, u: Time, lookahead: Time, protect: seq<Kind> | t <= u <= t + lookahead
      ensures forall unit :: unit in w.positions(u, protect) ==> Holds(Tracks.LINE, w.reach(t, lookahead, protect), unit)
    {
      forall unit | unit in w.positions(u, protect) ensures Holds(Tracks.LINE, w.reach(t, lookahead, protect), unit) {
        assert w.reach(t, lookahead, protect)[0].entity == unit.entity;
      }
    }
  }

  /** How that event is judged, seen at the start of the drift. */
  lemma StandingJudged(until: seq<Point>, after: seq<Point>, at: Time, x: Sighting, d: real)
    requires PathDistance(Tracks.LINE, if at <= 0 then until else after, At(0.0)) == Some(d) && 0.0 <= d <= 50.0 && x.at == At(0.0)
    ensures var site := LonePerson(Standing(until, after));
            var carries := (if x.magnitude > 2.0 then 100.0 else 10.0) + x.uncertainty;
            && Judge(site, DECAY_WITHIN_TEN, 0, x, at).state == (if d > carries then Decayed else Kept)
            && SlackAt(site, DECAY_WITHIN_TEN, 0, x, at) == Finite(AbsReal(d - carries))
  {
    hide NearestOf, Strike, PathDistance;
    StandingAt(until, after, at, d);
    StandingStruck(until, after);
    var site := LonePerson(Standing(until, after));
    assert Distance(Threat(site, DECAY_WITHIN_TEN, 0, At(0.0), at)) == Some(d);
  }

  /** What is known of that event before it is located and after. */
  lemma StandingSeen(view: Whereabouts, cat: Catalogue)
    requires |cat.location| == 1 && cat.For(LonePerson(view))
    ensures LonePerson(view).WellFormed()
    ensures Sight(LonePerson(view), DECAY_WITHIN_TEN, cat.(location := [None]), 0) == Some(HEARD)
    ensures cat.location[0].Some? && cat.location[0].value.magnitude.Some? ==>
              Sight(LonePerson(view), DECAY_WITHIN_TEN, cat, 0) ==
              Some(Sighting(cat.location[0].value.at, cat.location[0].value.magnitude.value, 0.0, FromLocation))
  {
    assert LonePerson(view).metric.gap(At(0.0), At(9.0)) == 9.0;
  }

  /** Someone whose ground never changes keeps every promise. */
  lemma StandingSteady(there: seq<Point>)
    requires there != []
    ensures Bounded(Tracks.LINE, Standing(there, there), 0.0)
  {
    hide NearestOf, PathDistance;
    var w := Standing(there, there);
    forall t1: Time, t2: Time, lookahead: Time, protect: seq<Kind>, q: Point | t1 <= t2
      ensures KeepsPace(Tracks.LINE, w, 0.0, t1, t2, lookahead, protect, q)
    {
      StandingNear(there, there, t1, lookahead, protect, q);
      StandingNear(there, there, t2, lookahead, protect, q);
    }
  }

  /** Ground taken back moves toward nothing. */
  lemma StandingToward(until: seq<Point>, after: seq<Point>)
    requires until != [] && after != []
    requires forall q :: PathDistance(Tracks.LINE, until, q).Some? && PathDistance(Tracks.LINE, after, q).Some? &&
                         PathDistance(Tracks.LINE, after, q).value >= PathDistance(Tracks.LINE, until, q).value
    ensures TowardBounded(Tracks.LINE, Standing(until, after), 0.0)
  {
    hide NearestOf, PathDistance;
    var w := Standing(until, after);
    forall t1: Time, t2: Time, lookahead: Time, protect: seq<Kind>, q: Point | t1 <= t2
      ensures var before := Distance(NearestOf(Tracks.LINE, w.reach(t1, lookahead, protect), q));
              var later := Distance(NearestOf(Tracks.LINE, w.reach(t2, lookahead, protect), q));
              later.Some? ==> before.Some? && later.value >= before.value - 0.0 * (t2 - t1) as real
    {
      StandingNear(until, after, t1, lookahead, protect, q);
      StandingNear(until, after, t2, lookahead, protect, q);
    }
  }

  /** A location found exactly at the first sensor, with a larger magnitude than was
      assumed, makes the event matter; the skip does not notice. It is found from the first four
      of the event's five picks, and no one moves. */
  lemma ALocationOnTheSensorIsMissed() returns (site: Site, cat: Catalogue, x: Sighting, b: CatalogueOps.Book)
    ensures Tracks.Straight(site.metric) && site.Steady() && Covering(site.metric, site.mine)
    ensures site.WellFormed() && |site.events| == 1 && site.events == SOLVED.events && cat.For(site)
    ensures SOLVED.WellFormed() && CatalogueOps.Sized(SOLVED, CatalogueOps.Blank(SOLVED)) && CatalogueOps.Sized(SOLVED, b)
    ensures (b, Ok([0])) == CatalogueOps.ObserveAll(SOLVED, CatalogueOps.Blank(SOLVED), 1, [0, 1, 2, 3])
    ensures cat == CatalogueOps.Knows(SOLVED, b) && cat.remaining[0] == 1
    ensures Sight(site, DECAY_WITHIN_TEN, cat.(location := [None]), 0) == Some(x) && Reading(site, DECAY_WITHIN_TEN, cat, 0, x)
    ensures MaySkip(site, DECAY_WITHIN_TEN, cat, 0, SlackAt(site, DECAY_WITHIN_TEN, 0, x, 0), 0, x.at, 1)
    ensures Judge(site, DECAY_WITHIN_TEN, 0, x, 0).state == Decayed
    ensures Assess(site, DECAY_WITHIN_TEN, cat, 0, 1).state == Kept
  {
    hide Bounded, NearestOf, PathDistance, Strike, Covering, Judge, SlackAt, CatalogueOps.ObserveAll, CatalogueOps.Blank, CatalogueOps.Sized, Tracks.Straight, Sight, Site.WellFormed;
    var there := STANDING;
    site := LonePerson(Standing(there, there));
    b := SolvedByFour();
    cat := CatalogueOps.Knows(SOLVED, b);
    x := HEARD;
    Tracks.LineIsStraight();
    FromFifty();
    StandingCovered(there, there);
    StandingSteady(there);
    StandingSeen(site.mine, cat);
    StandingJudged(there, there, 0, x, 50.0);
    StandingJudged(there, there, 1, Sighting(At(0.0), 3.0, 0.0, FromLocation), 50.0);
    assert cat.(location := cat.location[0 := None]) == cat.(location := [None]);
  }

  lemma FromFifty()
    ensures PathDistance(Tracks.LINE, STANDING, At(0.0)) == Some(50.0)
    ensures PathDistance(Tracks.LINE, STANDING, At(50.0)) == Some(0.0)
  {
    Ground(At(50.0));
  }

  /** Ground given to someone, and found at once to be ground they cannot be on, moves toward
      nothing, and no one leaves the ground they are given; and yet the skip keeps work that
      should have decayed. */
  lemma LeavingIsMissed() returns (site: Site, cat: Catalogue, x: Sighting)
    ensures Tracks.Straight(site.metric) && Covering(site.metric, site.mine) && site.Speed() >= 0.0
    ensures TowardBounded(site.metric, site.mine, site.Speed()) && !AwayBounded(site.metric, site.mine, site.Speed())
    ensures site.WellFormed() && |site.events| == 1 && site.events == SOLVED.events && cat.For(site)
    ensures CatalogueOps.Sized(SOLVED, CatalogueOps.Blank(SOLVED)) && cat == CatalogueOps.Knows(SOLVED, CatalogueOps.Blank(SOLVED))
    ensures Sight(site, DECAY_WITHIN_TEN, cat, 0) == Some(x)
    ensures MaySkip(site, DECAY_WITHIN_TEN, cat, 0, SlackAt(site, DECAY_WITHIN_TEN, 0, x, 0), 0, x.at, 1)
    ensures Judge(site, DECAY_WITHIN_TEN, 0, x, 0).state == Kept
    ensures Assess(site, DECAY_WITHIN_TEN, cat, 0, 1).state == Decayed
  {
    hide Bounded, NearestOf, PathDistance, Strike, Covering, Judge, Assess, MaySkip, SlackAt, TowardBounded, AwayBounded, CatalogueOps.Blank, CatalogueOps.Knows, CatalogueOps.Sized, Tracks.Straight, Sight, Site.WellFormed;
    NothingKnown();
    TakenBack();
    StandingKeepsPromises(WITHDRAWN, STANDING);
    StandingLeaves(WITHDRAWN, STANDING);
    site := LonePerson(Standing(WITHDRAWN, STANDING));
    cat := CatalogueOps.Knows(SOLVED, CatalogueOps.Blank(SOLVED));
    x := HEARD;
    StandingPassedOver(WITHDRAWN, STANDING, cat);
  }

  const WITHDRAWN: seq<Point> := [At(0.0), At(50.0)]
  const STANDING: seq<Point> := [At(50.0)]

  /** Ground with the place someone stands, taken back as far as it, keeps what is documented. */
  lemma StandingKeepsPromises(until: seq<Point>, after: seq<Point>)
    requires until != [] && after != []
    requires PathDistance(Tracks.LINE, until, At(50.0)) == Some(0.0) && PathDistance(Tracks.LINE, after, At(50.0)) == Some(0.0)
    requires forall q :: PathDistance(Tracks.LINE, until, q).Some? && PathDistance(Tracks.LINE, after, q).Some? &&
                         PathDistance(Tracks.LINE, after, q).value >= PathDistance(Tracks.LINE, until, q).value
    ensures var site := LonePerson(Standing(until, after));
            Tracks.Straight(site.metric) && Covering(site.metric, site.mine) && site.Speed() == 0.0 && TowardBounded(site.metric, site.mine, 0.0)
  {
    hide PathDistance, NearestOf, Covering, TowardBounded, Tracks.Straight;
    Tracks.LineIsStraight();
    StandingCovered(until, after);
    StandingToward(until, after);
  }

  /** Ground at the event while a judgement is made, and none near it after. */
  lemma StandingPassedOver(until: seq<Point>, after: seq<Point>, cat: Catalogue)
    requires cat == Catalogue([5], [None], [false, false, false, false, false])
    requires PathDistance(Tracks.LINE, until, At(0.0)) == Some(0.0) && PathDistance(Tracks.LINE, after, At(0.0)) == Some(50.0)
    ensures var site := LonePerson(Standing(until, after));
            && cat.For(site) && site.WellFormed() && Sight(site, DECAY_WITHIN_TEN, cat, 0) == Some(HEARD)
            && MaySkip(site, DECAY_WITHIN_TEN, cat, 0, SlackAt(site, DECAY_WITHIN_TEN, 0, HEARD, 0), 0, HEARD.at, 1)
            && Judge(site, DECAY_WITHIN_TEN, 0, HEARD, 0).state == Kept
            && Assess(site, DECAY_WITHIN_TEN, cat, 0, 1).state == Decayed
  {
    hide NearestOf, PathDistance, Judge, SlackAt, Sight, Site.WellFormed;
    var site := LonePerson(Standing(until, after));
    assert cat.(location := [None]) == cat;
    StandingSeen(site.mine, cat);
    StandingJudged(until, after, 0, HEARD, 0.0);
    StandingJudged(until, after, 1, HEARD, 50.0);
  }

  lemma NothingKnown()
    ensures SOLVED.WellFormed() && CatalogueOps.Sized(SOLVED, CatalogueOps.Blank(SOLVED))
    ensures CatalogueOps.Knows(SOLVED, CatalogueOps.Blank(SOLVED)) == Catalogue([5], [None], [false, false, false, false, false])
  {
    SolvedIsWellFormed();
    BlankIsNoted(SOLVED);
  }

  lemma TakenBack()
    ensures PathDistance(Tracks.LINE, WITHDRAWN, At(0.0)) == Some(0.0) && PathDistance(Tracks.LINE, STANDING, At(0.0)) == Some(50.0)
    ensures PathDistance(Tracks.LINE, WITHDRAWN, At(50.0)) == Some(0.0) && PathDistance(Tracks.LINE, STANDING, At(50.0)) == Some(0.0)
    ensures forall q :: PathDistance(Tracks.LINE, WITHDRAWN, q).Some? && PathDistance(Tracks.LINE, STANDING, q).Some? &&
                        PathDistance(Tracks.LINE, STANDING, q).value >= PathDistance(Tracks.LINE, WITHDRAWN, q).value
  {
    Ground(At(50.0));
    Stretch(At(0.0), At(50.0));
  }

  lemma StandingLeaves(until: seq<Point>, after: seq<Point>)
    requires until != [] && after != []
    requires PathDistance(Tracks.LINE, until, At(0.0)) == Some(0.0) && PathDistance(Tracks.LINE, after, At(0.0)) == Some(50.0)
    ensures !AwayBounded(Tracks.LINE, Standing(until, after), 0.0)
  {
    hide NearestOf, PathDistance;
    var w := Standing(until, after);
    assert "person" in ["person"];
    StandingNear(until, after, 0, 0, ["person"], At(0.0));
    StandingNear(until, after, 1, 0, ["person"], At(0.0));
    var before := Distance(NearestOf(Tracks.LINE, w.reach(0, 0, ["person"]), At(0.0)));
    var later := Distance(NearestOf(Tracks.LINE, w.reach(1, 0, ["person"]), At(0.0)));
    assert before == Some(0.0) && later == Some(50.0);
  }
}
