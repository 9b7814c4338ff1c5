/** Why a judgement may be skipped: the slack of a judgement, and what it protects.
    internal/intent/planner.go:265-347. */
module Settled {
  import opened Basics
  import opened Settings
  import opened Observe
  import opened Orchestrator
  import opened Reference

  /** The room a verdict leaves: any less travel than this, and it stands. */
  datatype Slack = Finite(metres: real) | Infinite {
    predicate Positive() { Infinite? || metres > 0.0 }

    /** Whether something moving this far could have crossed the boundary. */
    predicate CoveredBy(travel: real) { Finite? && travel >= metres }

    function Narrowed(metres': real): Slack
    {
      if Finite? then Finite(MinReal(metres, metres')) else Finite(metres')
    }
  }

  /** The least of the gaps between the distance and the boundaries the verdict was compared with. */
  function SlackOf(mode: Mode, promote: Option<real>, protect: Option<real>, d: Option<real>): Slack
  {
    var fromPromote :=
      if mode.Promotes() && promote.Some? && d.Some? then Infinite.Narrowed(AbsReal(d.value - promote.value)) else Infinite;
    if mode.Promotes() && promote.Some? && d.Some? && d.value <= promote.value then fromPromote
    else if d.Some? && protect.Some? then fromPromote.Narrowed(AbsReal(d.value - protect.value))
    else fromPromote
  }

  /** Nothing nearer or farther by less than the slack changes the verdict. */
  lemma SlackProtectsVerdict(mode: Mode, promote: Option<real>, protect: Option<real>,
                             d: Option<real>, d': Option<real>, travel: real)
    requires Near(d, d', travel)
    requires !SlackOf(mode, promote, protect, d).CoveredBy(travel)
    ensures Verdict(mode, promote, protect, d') == Verdict(mode, promote, protect, d)
  {
  }

  /** Taking the nearer of each and one common distance never moves them further apart. */
  lemma NearbyStaysNear(a: Option<Close>, b: Option<Close>, hit: Option<Close>, bound: real)
    requires Near(Distance(a), Distance(b), bound)
    requires bound >= 0.0
    ensures Near(Distance(Nearby(a, hit)), Distance(Nearby(b, hit)), bound)
  {
  }

  /** It is the most a judgement that may decay leaves: for any more travel than that there is a distance within
      the travel that is judged otherwise. */
  lemma SlackIsGreatest(mode: Mode, promote: Option<real>, protect: Option<real>, d: Option<real>, travel: real) returns (d': Option<real>)
    requires mode.Decays() && SlackOf(mode, promote, protect, d).Finite? && SlackOf(mode, promote, protect, d).metres < travel
    ensures Near(d, d', travel) && Verdict(mode, promote, protect, d') != Verdict(mode, promote, protect, d)
  {
    var slack := SlackOf(mode, promote, protect, d).metres;
    var turning :=
      if mode.Promotes() && promote.Some? && AbsReal(d.value - promote.value) == slack then promote.value else protect.value;
    d' := Some(if d.value > turning then turning else d.value + (slack + travel) / 2.0);
  }

  function SlackAt(site: Site, s: Intent, i: nat, sighting: Sighting, at: Time): Slack
    requires i < |site.events|
  {
    SlackOf(s.mode, ReachOf(site, s, sighting, s.promoteLevel), ReachOf(site, s, sighting, s.protectLevel),
            Distance(Threat(site, s, i, sighting.at, at)))
  }

  /** One sighting judged twice gives one verdict, if what could be moved in between is less than the
      first verdict's room. */
  lemma JudgementStands(site: Site, s: Intent, i: nat, sighting: Sighting, before: Time, now: Time)
    requires i < |site.events| && site.Steady() && site.Speed() >= 0.0 && before <= now
    requires !SlackAt(site, s, i, sighting, before).CoveredBy(site.Speed() * (now - before) as real)
    ensures Judge(site, s, i, sighting, now).state == Judge(site, s, i, sighting, before).state
    ensures Judge(site, s, i, sighting, now).basis == Judge(site, s, i, sighting, before).basis
  {
    var travel := site.Speed() * (now - before) as real;
    var view := site.View(s.knowledge);
    var then_ := NearestOf(site.metric, view.reach(before, s.lookahead, s.protect), sighting.at);
    var now_ := NearestOf(site.metric, view.reach(now, s.lookahead, s.protect), sighting.at);
    assert Bounded(site.metric, view, site.Speed());
    assert KeepsPace(site.metric, view, site.Speed(), before, now, s.lookahead, s.protect, sighting.at);
    assert Near(Distance(then_), Distance(now_), travel);
    NearbyStaysNear(then_, now_, Strike(site, s, i, sighting.at), travel);
    SlackProtectsVerdict(s.mode, ReachOf(site, s, sighting, s.promoteLevel), ReachOf(site, s, sighting, s.protectLevel),
                         Distance(Threat(site, s, i, sighting.at, before)),
                         Distance(Threat(site, s, i, sighting.at, now)), travel);
  }

  // ---------- When the same position is the same reading ----------

  /** A sighting the mine has had of event i: the one it has now, or the one its sensors
      gave before it had a location. */
  ghost predicate Reading(site: Site, s: Intent, cat: Catalogue, i: nat, x: Sighting)
    requires i < |site.events| && cat.For(site)
  {
    || Sight(site, s, cat, i) == Some(x)
    || Sight(site, s, cat.(location := cat.location[i := None]), i) == Some(x)
  }

  lemma ReadingLasts(site: Site, s: Intent, cat: Catalogue, later: Catalogue, i: nat, x: Sighting)
    requires i < |site.events| && cat.For(site) && later.For(site) && later.Follows(cat)
    requires Reading(site, s, cat, i, x)
    ensures Reading(site, s, later, i, x)
    ensures Sight(site, s, later, i).Some?
  {
  }

  /** A reading at the position the event is now seen at is the reading there is now,
      if and only if both come from the same kind of knowledge: a location that lands
      exactly on the first sensor is the one thing the position alone cannot tell. */
  lemma SamePositionSameReading(site: Site, s: Intent, cat: Catalogue, i: nat, x: Sighting, now: Sighting)
    requires i < |site.events| && cat.For(site)
    requires Reading(site, s, cat, i, x) && Sight(site, s, cat, i) == Some(now) && now.at == x.at
    ensures now == x <==> now.basis == x.basis
    ensures cat.OffSensors(site) ==> now == x
  {
  }

  /** The test the planner makes before skipping event i, on what it recorded. */
  predicate MaySkip(site: Site, s: Intent, cat: Catalogue, i: nat, slack: Slack, before: Time, from: Point, now: Time)
    requires i < |site.events| && cat.For(site)
  {
    && slack.Positive()
    && (site.Speed() <= 0.0 || !slack.CoveredBy((now - before) as real * site.Speed()))
    && (var sighting := Sight(site, s, cat, i);
        (if sighting.Some? then sighting.value.at else Point(0.0, 0.0, 0.0)) == from)
  }

  /** A skipped judgement is the one that would be made now if and only if no location
      has meanwhile appeared at the very point the sensors had been taken for. */
  lemma SkippingIsExact(site: Site, s: Intent, cat: Catalogue, i: nat, x: Sighting, before: Time, now: Time)
    requires i < |site.events| && cat.For(site) && site.Steady() && site.Speed() >= 0.0 && before <= now
    requires !s.mode.Off? && Reading(site, s, cat, i, x)
    requires MaySkip(site, s, cat, i, SlackAt(site, s, i, x, before), before, x.at, now)
    ensures var then_ := Judge(site, s, i, x, before);
            var now_ := Assess(site, s, cat, i, now);
            (now_.state == then_.state && now_.basis == then_.basis) <==>
            !(x.basis.FromSensors? && s.knowledge.Estimate? && cat.location[i].Some?)
  {
    ReadingLasts(site, s, cat, cat, i, x);
    var sighting := Sight(site, s, cat, i).value;
    if sighting.basis == x.basis {
      SamePositionSameReading(site, s, cat, i, x, sighting);
      StillCovered(site, SlackAt(site, s, i, x, before), before, now);
      JudgementStands(site, s, i, x, before, now);
    }
  }

  lemma StillCovered(site: Site, slack: Slack, before: Time, now: Time)
    requires site.Speed() >= 0.0 && before <= now && slack.Positive()
    requires site.Speed() <= 0.0 || !slack.CoveredBy((now - before) as real * site.Speed())
    ensures !slack.CoveredBy(site.Speed() * (now - before) as real)
  {
    if site.Speed() <= 0.0 {
      assert site.Speed() * (now - before) as real == 0.0;
    }
  }

  // ---------- What the skipping does rest on ----------

  /** Whatever the mode and the boundaries, a verdict whose slack the travel does not cover is
      the same at both distances. */
  ghost predicate SkipsSafely(d: Option<real>, d': Option<real>, travel: real)
  {
    forall mode, promote, protect ::
      !SlackOf(mode, promote, protect, d).CoveredBy(travel) ==> Verdict(mode, promote, protect, d') == Verdict(mode, promote, protect, d)
  }

  /** No less than nearness will do: where two distances are farther apart than the travel, there
      is a boundary between them that the slack of the first puts out of the travel's way. */
  lemma SkipsSafelyExactlyNear(d: Option<real>, d': Option<real>, travel: real)
    requires travel >= 0.0
    ensures SkipsSafely(d, d', travel) <==> Near(d, d', travel)
  {
    if Near(d, d', travel) {
      forall mode, promote, protect | !SlackOf(mode, promote, protect, d).CoveredBy(travel)
        ensures Verdict(mode, promote, protect, d') == Verdict(mode, promote, protect, d)
      {
        SlackProtectsVerdict(mode, promote, protect, d, d', travel);
      }
    } else {
      var between :=
        if d.None? then d'.value
        else if d'.None? then d.value + travel + 1.0
        else if d'.value > d.value then (d.value + travel + d'.value) / 2.0
        else (d'.value + d.value - travel) / 2.0;
      assert !SlackOf(Decay, None, Some(between), d).CoveredBy(travel);
      assert Verdict(Decay, None, Some(between), d') != Verdict(Decay, None, Some(between), d);
    }
  }

  /** Every skip over a reach is safe, wherever the event is. */
  ghost predicate Skippable(m: Metric, w: Whereabouts, speed: real)
  {
    forall t1: Time, t2: Time, lookahead: Time, protect: seq<Kind>, q: Point | t1 <= t2 ::
      SkipsSafely(Distance(NearestOf(m, w.reach(t1, lookahead, protect), q)),
                  Distance(NearestOf(m, w.reach(t2, lookahead, protect), q)), speed * (t2 - t1) as real)
  }

  /** The documented promise alone: no reach moves *toward* a point faster than `speed`. */
  ghost predicate TowardBounded(m: Metric, w: Whereabouts, speed: real)
  {
    forall t1: Time, t2: Time, lookahead: Time, protect: seq<Kind>, q: Point | t1 <= t2 ::
      var before := Distance(NearestOf(m, w.reach(t1, lookahead, protect), q));
      var after := Distance(NearestOf(m, w.reach(t2, lookahead, protect), q));
      after.Some? ==> before.Some? && after.value >= before.value - speed * (t2 - t1) as real
  }

  /** The other half: no reach withdraws *from* a point faster than `speed`, or altogether. */
  ghost predicate AwayBounded(m: Metric, w: Whereabouts, speed: real)
  {
    forall t1: Time, t2: Time, lookahead: Time, protect: seq<Kind>, q: Point | t1 <= t2 ::
      var before := Distance(NearestOf(m, w.reach(t1, lookahead, protect), q));
      var after := Distance(NearestOf(m, w.reach(t2, lookahead, protect), q));
      before.Some? ==> after.Some? && after.value <= before.value + speed * (t2 - t1) as real
  }

  /** Skips over a reach are safe exactly when it moves no faster than `speed` either way; so for
      one that keeps the documented promise, exactly when it keeps the other half too. */
  lemma SkippableExactlyBounded(m: Metric, w: Whereabouts, speed: real)
    requires speed >= 0.0
    ensures Skippable(m, w, speed) <==> Bounded(m, w, speed)
    ensures Bounded(m, w, speed) <==> TowardBounded(m, w, speed) && AwayBounded(m, w, speed)
    ensures TowardBounded(m, w, speed) ==> (Skippable(m, w, speed) <==> AwayBounded(m, w, speed))
  {
    hide NearestOf, SkipsSafely;
    forall t1: Time, t2: Time, lookahead: Time, protect: seq<Kind>, q: Point | t1 <= t2
      ensures KeepsPace(m, w, speed, t1, t2, lookahead, protect, q) <==>
              SkipsSafely(Distance(NearestOf(m, w.reach(t1, lookahead, protect), q)),
                          Distance(NearestOf(m, w.reach(t2, lookahead, protect), q)), speed * (t2 - t1) as real)
    {
      assert speed * (t2 - t1) as real >= 0.0;
      SkipsSafelyExactlyNear(Distance(NearestOf(m, w.reach(t1, lookahead, protect), q)),
                             Distance(NearestOf(m, w.reach(t2, lookahead, protect), q)), speed * (t2 - t1) as real);
    }
    if Bounded(m, w, speed) {
      BoundedIsBothWays(m, w, speed);
    }
    if TowardBounded(m, w, speed) && AwayBounded(m, w, speed) {
      BothWaysIsBounded(m, w, speed);
    }
  }

  lemma BoundedIsBothWays(m: Metric, w: Whereabouts, speed: real)
    requires Bounded(m, w, speed)
    ensures TowardBounded(m, w, speed) && AwayBounded(m, w, speed)
  {
    hide NearestOf;
    forall t1: Time, t2: Time, lookahead: Time, protect: seq<Kind>, q: Point | t1 <= t2
      ensures var before := Distance(NearestOf(m, w.reach(t1, lookahead, protect), q));
              var after := Distance(NearestOf(m, w.reach(t2, lookahead, protect), q));
              (before.Some? <==> after.Some?) && (after.Some? ==> AbsReal(before.value - after.value) <= speed * (t2 - t1) as real)
    {
      assert KeepsPace(m, w, speed, t1, t2, lookahead, protect, q);
    }
  }

  lemma BothWaysIsBounded(m: Metric, w: Whereabouts, speed: real)
    requires TowardBounded(m, w, speed) && AwayBounded(m, w, speed)
    ensures Bounded(m, w, speed)
  {
    hide NearestOf;
  }
}
