/** How the mine's map of closed ground did against the ground that was truly dangerous:
    internal/usecase/closure.go:116-313. How far ground motion carries is a parameter, and so is
    the distance between points. */
module ClosureMap {
  import opened Basics
  import opened Observe
  import opened Spans
  import opened Peak

  // ---------- What the map is read from ----------

  /** Ground is weighed by samples: a point, and the length it counts for. */
  datatype Placement = Placement(at: Point, metres: real)

  /** A location as the mine had it, with how far its zone reaches if it has one. */
  datatype Zone = Zone(at: Point, reach: Option<real>)

  /** One event: when and where it truly happened and how far it truly carried, when the mine
      first had a location and when its final one, and what they were. */
  datatype Occurrence = Occurrence(
    origin: Time, at: Point, radius: Option<real>,
    located: Option<Time>, processed: Option<Time>,
    first: Option<Zone>, final: Option<Zone>)

  datatype Drawn = Drawn(span: Span, at: Point, reach: real)

  // ---------- The zones an event contributed ----------

  /** A zone drawn for a while, if there is a location, it reaches the level, and there is any
      while to draw it for. */
  function Draw(from: Time, until: Time, zone: Option<Zone>, allowance: real): seq<Drawn>
  {
    if zone.None? || from >= until || zone.value.reach.None? then []
    else [Drawn(Span(from, until), zone.value.at, zone.value.reach.value + allowance)]
  }

  /** Up to two zones drawn, one after the other in time; at any moment in the window the one drawn
      is that of the location then gone by, as ClosuresAreGoneBy says. */
  method Closures(e: Occurrence, end: Time, allowance: real) returns (out: seq<Drawn>)
    ensures out == ClosuresOf(e, end, allowance)
  {
    out := [];
    if e.located.Some? {
      var until := end;
      if e.processed.Some? && e.processed.value < until {
        until := e.processed.value;
      }
      out := out + Draw(Max(e.located.value, e.origin), until, e.first, allowance);
    }
    if e.processed.Some? {
      out := out + Draw(Max(e.processed.value, e.origin), end, e.final, allowance);
    }
  }

  function ClosuresOf(e: Occurrence, end: Time, allowance: real): seq<Drawn>
  {
    (if e.located.Some? then
       Draw(Max(e.located.value, e.origin), if e.processed.Some? then Min(end, e.processed.value) else end, e.first, allowance)
     else []) +
    (if e.processed.Some? then Draw(Max(e.processed.value, e.origin), end, e.final, allowance) else [])
  }

  /** The location the map goes by at a moment of an event's window: its final one once there is
      one, even if that has no zone, and until then its first. */
  function GoesBy(e: Occurrence, end: Time, t: Time): Option<Zone>
  {
    if t < e.origin || t >= end then None
    else if e.processed.Some? && e.processed.value <= t then e.final
    else if e.located.Some? && e.located.value <= t then e.first
    else None
  }

  /** At every moment the zones drawn are exactly the zone of the location the map goes by. */
  lemma ClosuresAreGoneBy(e: Occurrence, end: Time, allowance: real, t: Time)
    ensures var out := ClosuresOf(e, end, allowance);
            var zone := GoesBy(e, end, t);
            && (forall k :: 0 <= k < |out| && out[k].span.Holds(t) ==>
                  zone.Some? && zone.value.reach.Some? && out[k].at == zone.value.at && out[k].reach == zone.value.reach.value + allowance)
            && (zone.Some? && zone.value.reach.Some? ==> exists k :: 0 <= k < |out| && out[k].span.Holds(t))
            && (forall k :: 0 <= k < |out| ==> out[k].span.from < out[k].span.until && e.origin <= out[k].span.from && out[k].span.until <= end)
  {
    hide Draw, GoesBy, Span.Holds;
    var from, until := if e.located.Some? then Max(e.located.value, e.origin) else end, if e.processed.Some? then Min(end, e.processed.value) else end;
    var later := if e.processed.Some? then Max(e.processed.value, e.origin) else end;
    var head, tail := Draw(from, until, e.first, allowance), Draw(later, end, e.final, allowance);
    DrawHolds(from, until, e.first, allowance, t);
    DrawHolds(later, end, e.final, allowance, t);
    GoesByEither(e, end, t);
    var out := ClosuresOf(e, end, allowance);
    assert out == head + tail;
    assert |head| > 0 ==> out[0] == head[0];
    assert |tail| > 0 ==> out[|head|] == tail[0];
  }

  /** A zone is drawn once, and holds from when it is drawn until it is not. */
  lemma DrawHolds(from: Time, until: Time, zone: Option<Zone>, allowance: real, t: Time)
    ensures var out := Draw(from, until, zone, allowance);
            && |out| <= 1
            && (|out| == 1 ==> from < until && out[0].span == Span(from, until) && zone.Some? && zone.value.reach.Some? &&
                               out[0].at == zone.value.at && out[0].reach == zone.value.reach.value + allowance)
            && (|out| == 1 && out[0].span.Holds(t) <==> zone.Some? && zone.value.reach.Some? && from <= t < until)
            && (from >= until ==> out == [])
  {
  }

  lemma GoesByEither(e: Occurrence, end: Time, t: Time)
    ensures var from, until := if e.located.Some? then Max(e.located.value, e.origin) else end, if e.processed.Some? then Min(end, e.processed.value) else end;
            var later := if e.processed.Some? then Max(e.processed.value, e.origin) else end;
            && (from <= t < until ==> GoesBy(e, end, t) == e.first)
            && (later <= t < end ==> GoesBy(e, end, t) == e.final)
            && (!(from <= t < until) && !(later <= t < end) ==> GoesBy(e, end, t) == None)
  {
  }

  /** A wider allowance draws the same zones for the same while, only wider. */
  lemma ClosuresWiden(e: Occurrence, end: Time, a: real, b: real)
    requires a <= b
    ensures var narrow, wide := ClosuresOf(e, end, a), ClosuresOf(e, end, b);
            |narrow| == |wide| && forall k :: 0 <= k < |narrow| ==>
              narrow[k].span == wide[k].span && narrow[k].at == wide[k].at && narrow[k].reach <= wide[k].reach
  {
  }

  // ---------- One sample of tunnel ----------

  /** When a sample was truly dangerous. */
  function Dangerous(events: seq<Occurrence>, gap: (Point, Point) -> real, s: Placement, window: Time): seq<Span>
  {
    if events == [] then []
    else
      var e := events[|events| - 1];
      Dangerous(events[..|events| - 1], gap, s, window) +
      if e.radius.Some? && gap(s.at, e.at) <= e.radius.value then [Span(e.origin, e.origin + window)] else []
  }

  function Within(drawn: seq<Drawn>, gap: (Point, Point) -> real, s: Placement): seq<Span>
  {
    if drawn == [] then []
    else
      var d := drawn[|drawn| - 1];
      Within(drawn[..|drawn| - 1], gap, s) + if gap(s.at, d.at) <= d.reach then [d.span] else []
  }

  /** When the map had a sample closed. */
  function Shut(events: seq<Occurrence>, gap: (Point, Point) -> real, s: Placement, window: Time, allowance: real): seq<Span>
  {
    if events == [] then []
    else
      var e := events[|events| - 1];
      Shut(events[..|events| - 1], gap, s, window, allowance) + Within(ClosuresOf(e, e.origin + window, allowance), gap, s)
  }

  lemma {:induction false} InstantsJoin(a: seq<Span>, b: seq<Span>)
    ensures Instants(a + b) == Instants(a) + Instants(b)
  {
    if a == [] {
      assert a + b == b;
    } else {
      assert (a + b)[1..] == a[1..] + b;
      InstantsJoin(a[1..], b);
    }
  }

  lemma {:induction false} DangerousLasts(events: seq<Occurrence>, gap: (Point, Point) -> real, s: Placement, window: Time)
    requires window > 0
    ensures Lasting(Dangerous(events, gap, s, window))
  {
    if events != [] {
      DangerousLasts(events[..|events| - 1], gap, s, window);
    }
  }

  lemma {:induction false} WithinLasts(drawn: seq<Drawn>, gap: (Point, Point) -> real, s: Placement)
    requires forall k :: 0 <= k < |drawn| ==> drawn[k].span.from < drawn[k].span.until
    ensures Lasting(Within(drawn, gap, s))
  {
    if drawn != [] {
      WithinLasts(drawn[..|drawn| - 1], gap, s);
    }
  }

  lemma {:induction false} ShutLasts(events: seq<Occurrence>, gap: (Point, Point) -> real, s: Placement, window: Time, allowance: real)
    ensures Lasting(Shut(events, gap, s, window, allowance))
  {
    hide ClosuresOf, Within, GoesBy;
    if events != [] {
      var e := events[|events| - 1];
      ShutLasts(events[..|events| - 1], gap, s, window, allowance);
      ClosuresAreGoneBy(e, e.origin + window, allowance, 0);
      WithinLasts(ClosuresOf(e, e.origin + window, allowance), gap, s);
    }
  }

  /** A wider allowance closes a sample whenever a narrower one does. */
  lemma {:induction false} WithinGrows(a: seq<Drawn>, b: seq<Drawn>, gap: (Point, Point) -> real, s: Placement)
    requires |a| == |b| && forall k :: 0 <= k < |a| ==> a[k].span == b[k].span && a[k].at == b[k].at && a[k].reach <= b[k].reach
    ensures Instants(Within(a, gap, s)) <= Instants(Within(b, gap, s))
  {
    if a != [] {
      var n := |a| - 1;
      WithinGrows(a[..n], b[..n], gap, s);
      InstantsJoin(Within(a[..n], gap, s), if gap(s.at, a[n].at) <= a[n].reach then [a[n].span] else []);
      InstantsJoin(Within(b[..n], gap, s), if gap(s.at, b[n].at) <= b[n].reach then [b[n].span] else []);
    }
  }

  lemma {:induction false} ShutGrows(events: seq<Occurrence>, gap: (Point, Point) -> real, s: Placement, window: Time, a: real, b: real)
    requires a <= b
    ensures Instants(Shut(events, gap, s, window, a)) <= Instants(Shut(events, gap, s, window, b))
  {
    hide ClosuresOf, Within, Instants;
    if events != [] {
      var n, e := |events| - 1, events[|events| - 1];
      ClosuresWiden(e, e.origin + window, a, b);
      ShutGrows(events[..n], gap, s, window, a, b);
      WithinGrows(ClosuresOf(e, e.origin + window, a), ClosuresOf(e, e.origin + window, b), gap, s);
      InstantsJoin(Shut(events[..n], gap, s, window, a), Within(ClosuresOf(e, e.origin + window, a), gap, s));
      InstantsJoin(Shut(events[..n], gap, s, window, b), Within(ClosuresOf(e, e.origin + window, b), gap, s));
    }
  }

  // ---------- What that comes to ----------

  /** The map goes by a location with a zone at a moment of an event's window, and the zone, with
      its allowance, reaches the sample. */
  predicate ClosedBy(e: Occurrence, gap: (Point, Point) -> real, s: Placement, window: Time, allowance: real, t: Time)
  {
    var zone := GoesBy(e, e.origin + window, t);
    zone.Some? && zone.value.reach.Some? && gap(s.at, zone.value.at) <= zone.value.reach.value + allowance
  }

  /** An event's ground motion reaches the sample, and its window is running. */
  predicate EndangeredBy(e: Occurrence, gap: (Point, Point) -> real, s: Placement, window: Time, t: Time)
  {
    e.radius.Some? && gap(s.at, e.at) <= e.radius.value && e.origin <= t < e.origin + window
  }

  /** The zones of some that reach a sample hold at the moments one of them does. */
  lemma {:induction false} WithinHolds(drawn: seq<Drawn>, gap: (Point, Point) -> real, s: Placement, t: Time)
    ensures t in Instants(Within(drawn, gap, s)) <==> exists k :: 0 <= k < |drawn| && drawn[k].span.Holds(t) && gap(s.at, drawn[k].at) <= drawn[k].reach
  {
    if drawn != [] {
      var n := |drawn| - 1;
      WithinHolds(drawn[..n], gap, s, t);
      InstantsJoin(Within(drawn[..n], gap, s), if gap(s.at, drawn[n].at) <= drawn[n].reach then [drawn[n].span] else []);
      assert forall k :: 0 <= k < n ==> drawn[..n][k] == drawn[k];
      OneSpan(drawn[n].span, t);
      if t in Instants(Within(drawn[..n], gap, s)) {
        var k :| 0 <= k < n && drawn[..n][k].span.Holds(t) && gap(s.at, drawn[..n][k].at) <= drawn[..n][k].reach;
        assert drawn[k].span.Holds(t);
      }
    }
  }

  lemma OneSpan(span: Span, t: Time)
    ensures t in Instants([span]) <==> span.from <= t < span.until
  {
    InstantsAreCovered([span]);
    assert [span][0].Holds(t) <==> span.from <= t < span.until;
  }

  lemma NoInstants()
    ensures Instants([]) == {}
  {
  }

  /** A sample is shut at a moment exactly when the location the map then goes by for some event
      has a zone that reaches it. */
  lemma {:induction false} ShutExactly(events: seq<Occurrence>, gap: (Point, Point) -> real, s: Placement, window: Time, allowance: real, t: Time)
    ensures t in Instants(Shut(events, gap, s, window, allowance)) <==>
            exists i :: 0 <= i < |events| && ClosedBy(events[i], gap, s, window, allowance, t)
  {
    hide ClosuresOf, Within, GoesBy, Instants, ClosedBy;
    if events == [] {
      NoInstants();
    } else {
      var n, e := |events| - 1, events[|events| - 1];
      ShutExactly(events[..n], gap, s, window, allowance, t);
      var drawn := ClosuresOf(e, e.origin + window, allowance);
      WithinHolds(drawn, gap, s, t);
      ClosedByDrawn(e, gap, s, window, allowance, t);
      InstantsJoin(Shut(events[..n], gap, s, window, allowance), Within(drawn, gap, s));
      assert forall i :: 0 <= i < n ==> events[..n][i] == events[i];
    }
  }

  lemma ClosedByDrawn(e: Occurrence, gap: (Point, Point) -> real, s: Placement, window: Time, allowance: real, t: Time)
    ensures var drawn := ClosuresOf(e, e.origin + window, allowance);
            ClosedBy(e, gap, s, window, allowance, t) <==>
              exists k :: 0 <= k < |drawn| && drawn[k].span.Holds(t) && gap(s.at, drawn[k].at) <= drawn[k].reach
  {
    hide ClosuresOf, GoesBy, Span.Holds;
    ClosuresAreGoneBy(e, e.origin + window, allowance, t);
  }

  /** A sample is dangerous at a moment exactly when some event's window is running and its ground
      motion reaches it. */
  lemma {:induction false} DangerousExactly(events: seq<Occurrence>, gap: (Point, Point) -> real, s: Placement, window: Time, t: Time)
    ensures t in Instants(Dangerous(events, gap, s, window)) <==>
            exists i :: 0 <= i < |events| && EndangeredBy(events[i], gap, s, window, t)
  {
    if events != [] {
      var n, e := |events| - 1, events[|events| - 1];
      DangerousExactly(events[..n], gap, s, window, t);
      OneSpan(Span(e.origin, e.origin + window), t);
      InstantsJoin(Dangerous(events[..n], gap, s, window), if e.radius.Some? && gap(s.at, e.at) <= e.radius.value then [Span(e.origin, e.origin + window)] else []);
      assert forall i :: 0 <= i < n ==> events[..n][i] == events[i];
    }
  }

  // ---------- The whole map ----------

  /** Ground and time: dangerous, shut, dangerous and left open, shut and not dangerous. */
  datatype Tally = Tally(hazard: real, closed: real, missed: real, false_: real) {
    function Plus(more: Tally): Tally { Tally(hazard + more.hazard, closed + more.closed, missed + more.missed, false_ + more.false_) }
  }

  /** One sample's share: its metres, for as many instants as each is true of it. */
  function ShareOf(metres: real, danger: set<Time>, shut: set<Time>): Tally
  {
    Tally(Times(metres, |danger|), Times(metres, |shut|), Times(metres, |danger - shut|), Times(metres, |shut - danger|))
  }

  function Times(metres: real, instants: nat): real { metres * instants as real }

  function TallyOf(samples: seq<Placement>, events: seq<Occurrence>, gap: (Point, Point) -> real, window: Time, allowance: real): Tally
  {
    if samples == [] then Tally(0.0, 0.0, 0.0, 0.0)
    else
      var s := samples[|samples| - 1];
      TallyOf(samples[..|samples| - 1], events, gap, window, allowance)
      .Plus(ShareOf(s.metres, Instants(Dangerous(events, gap, s, window)), Instants(Shut(events, gap, s, window, allowance))))
  }

  /** However it is added up, dangerous ground less what was missed is shut ground less what was
      shut for nothing: both are the ground that was rightly shut. */
  lemma {:induction false} AccountsBalance(samples: seq<Placement>, events: seq<Occurrence>, gap: (Point, Point) -> real, window: Time, allowance: real)
    ensures var t := TallyOf(samples, events, gap, window, allowance);
            t.hazard - t.missed == t.closed - t.false_
  {
    if samples != [] {
      var s := samples[|samples| - 1];
      AccountsBalance(samples[..|samples| - 1], events, gap, window, allowance);
      ShareBalances(s.metres, Instants(Dangerous(events, gap, s, window)), Instants(Shut(events, gap, s, window, allowance)));
    }
  }

  lemma ShareBalances(metres: real, danger: set<Time>, shut: set<Time>)
    ensures var t := ShareOf(metres, danger, shut);
            t.hazard - t.missed == Times(metres, |danger * shut|) == t.closed - t.false_
  {
    SizesSplit(danger, shut);
    SizesSplit(shut, danger);
    assert shut * danger == danger * shut;
  }

  lemma SizesSplit(a: set<Time>, b: set<Time>)
    ensures |a| == |a * b| + |a - b|
  {
    assert a == (a * b) + (a - b);
  }

  /** A larger allowance never misses more, and never closes less. */
  lemma {:induction false} AllowanceOnlyWidens(samples: seq<Placement>, events: seq<Occurrence>, gap: (Point, Point) -> real, window: Time, a: real, b: real)
    requires a <= b && forall k :: 0 <= k < |samples| ==> samples[k].metres >= 0.0
    ensures var narrow, wide := TallyOf(samples, events, gap, window, a), TallyOf(samples, events, gap, window, b);
            && wide.hazard == narrow.hazard
            && wide.missed <= narrow.missed && wide.closed >= narrow.closed && wide.false_ >= narrow.false_
  {
    if samples != [] {
      var s := samples[|samples| - 1];
      AllowanceOnlyWidens(samples[..|samples| - 1], events, gap, window, a, b);
      ShutGrows(events, gap, s, window, a, b);
      ShareWidens(s.metres, Instants(Dangerous(events, gap, s, window)),
                  Instants(Shut(events, gap, s, window, a)), Instants(Shut(events, gap, s, window, b)));
    }
  }

  lemma ShareWidens(metres: real, danger: set<Time>, narrow: set<Time>, wide: set<Time>)
    requires metres >= 0.0 && narrow <= wide
    ensures var a, b := ShareOf(metres, danger, narrow), ShareOf(metres, danger, wide);
            b.hazard == a.hazard && b.missed <= a.missed && b.closed >= a.closed && b.false_ >= a.false_
  {
    hide Times;
    Fewer(danger - wide, danger - narrow);
    Fewer(narrow, wide);
    Fewer(narrow - danger, wide - danger);
    Scales(metres, |danger - wide|, |danger - narrow|);
    Scales(metres, |narrow|, |wide|);
    Scales(metres, |narrow - danger|, |wide - danger|);
  }

  lemma Fewer(a: set<Time>, b: set<Time>)
    requires a <= b
    ensures |a| <= |b|
  {
    assert b == a + (b - a);
  }

  lemma Scales(metres: real, a: nat, b: nat)
    requires metres >= 0.0 && a <= b
    ensures Times(metres, a) <= Times(metres, b)
  {
  }

  /** The whole is the sum of its samples. */
  lemma {:induction false} TallyJoins(a: seq<Placement>, b: seq<Placement>, events: seq<Occurrence>, gap: (Point, Point) -> real, window: Time, allowance: real)
    ensures TallyOf(a + b, events, gap, window, allowance) == TallyOf(a, events, gap, window, allowance).Plus(TallyOf(b, events, gap, window, allowance))
    decreases |b|
  {
    hide Instants, Dangerous, Shut, ShareOf;
    if b == [] {
      assert a + b == a;
    } else {
      var n := |b| - 1;
      TallyJoins(a, b[..n], events, gap, window, allowance);
      assert (a + b)[..|a + b| - 1] == a + b[..n];
    }
  }

  /** And one sample is so many metres for so many instants. */
  lemma TallyOfOne(s: Placement, events: seq<Occurrence>, gap: (Point, Point) -> real, window: Time, allowance: real)
    ensures var danger, shut := Instants(Dangerous(events, gap, s, window)), Instants(Shut(events, gap, s, window, allowance));
            TallyOf([s], events, gap, window, allowance) ==
            Tally(s.metres * |danger| as real, s.metres * |shut| as real, s.metres * |danger - shut| as real, s.metres * |shut - danger| as real)
  {
    hide Instants, Dangerous, Shut;
  }

  // ---------- The most closed at once ----------

  /** One sample's stretches, each with its metres. */
  function Weighed(spans: seq<Span>, metres: real): seq<Closed>
  {
    if spans == [] then [] else [Closed(spans[0], metres)] + Weighed(spans[1..], metres)
  }

  predicate Touches(spans: seq<Span>, t: Time) { exists k :: 0 <= k < |spans| && spans[k].from <= t <= spans[k].until }

  /** A sample counts once at most: its stretches have time between them. */
  lemma {:induction false} WeighedOnce(spans: seq<Span>, metres: real, t: Time)
    requires Separate(spans)
    ensures ClosedAt(Weighed(spans, metres), t) == if Covered(spans, t) then metres else 0.0
    ensures ClosedThrough(Weighed(spans, metres), t) == if Touches(spans, t) then metres else 0.0
  {
    if spans != [] {
      var rest := spans[1..];
      SeparateRest(spans, 1);
      WeighedOnce(rest, metres, t);
      assert Weighed(spans, metres)[1..] == Weighed(rest, metres);
      FirstOrRest(spans, t);
    }
  }

  /** Some stretch holds, or touches, a moment if the first does or one of the rest does. */
  lemma FirstOrRest(spans: seq<Span>, t: Time)
    requires spans != []
    ensures Covered(spans, t) <==> spans[0].Holds(t) || Covered(spans[1..], t)
    ensures Touches(spans, t) <==> spans[0].from <= t <= spans[0].until || Touches(spans[1..], t)
  {
    var rest := spans[1..];
    if k :| 0 <= k < |spans| && spans[k].Holds(t) {
      assert k == 0 || rest[k - 1].Holds(t);
    }
    if k :| 0 <= k < |spans| && spans[k].from <= t <= spans[k].until {
      assert k == 0 || rest[k - 1].from <= t <= rest[k - 1].until;
    }
    if k :| 0 <= k < |rest| && rest[k].Holds(t) {
      assert spans[k + 1].Holds(t);
    }
    if k :| 0 <= k < |rest| && rest[k].from <= t <= rest[k].until {
      assert spans[k + 1].from <= t <= spans[k + 1].until;
    }
  }

  lemma {:induction false} ClosedJoins(a: seq<Closed>, b: seq<Closed>, t: Time)
    ensures ClosedAt(a + b, t) == ClosedAt(a, t) + ClosedAt(b, t)
    ensures ClosedThrough(a + b, t) == ClosedThrough(a, t) + ClosedThrough(b, t)
  {
    if a == [] {
      assert a + b == b;
    } else {
      assert (a + b)[1..] == a[1..] + b;
      ClosedJoins(a[1..], b, t);
    }
  }

  lemma {:induction false} WeighedHolds(spans: seq<Span>, metres: real)
    requires Lasting(spans) && metres > 0.0
    ensures forall c :: c in Weighed(spans, metres) ==> Real(c)
  {
    if spans != [] {
      assert spans[0].from < spans[0].until;
      WeighedHolds(spans[1..], metres);
    }
  }

  /** The metres of the samples shut at a moment. */
  function ShutAt(samples: seq<Placement>, events: seq<Occurrence>, gap: (Point, Point) -> real, window: Time, allowance: real, t: Time): real
  {
    if samples == [] then 0.0
    else
      var s := samples[|samples| - 1];
      ShutAt(samples[..|samples| - 1], events, gap, window, allowance, t) +
      if t in Instants(Shut(events, gap, s, window, allowance)) then s.metres else 0.0
  }

  /** Those shut at a moment, or just opened. */
  function ShutUntil(samples: seq<Placement>, events: seq<Occurrence>, gap: (Point, Point) -> real, window: Time, allowance: real, t: Time): real
  {
    if samples == [] then 0.0
    else
      var s := samples[|samples| - 1];
      var instants := Instants(Shut(events, gap, s, window, allowance));
      ShutUntil(samples[..|samples| - 1], events, gap, window, allowance, t) +
      if t in instants || t - 1 in instants then s.metres else 0.0
  }

  // ---------- Reading the map ----------

  /** Stretches joined up, by writing over an array of them. */
  method Merged(spans: seq<Span>) returns (merged: seq<Span>)
    requires Lasting(spans)
    ensures Separate(merged) && Instants(merged) == Instants(spans)
  {
    var a := new Span[|spans|](i requires 0 <= i < |spans| => spans[i]);
    assert a[..] == spans;
    var n := MergeInPlace(a);
    merged := a[..n];
    InstantsAreCovered(merged);
    InstantsAreCovered(spans);
  }

  /** How dangerous one sample was and how shut, in instants: each alone, and both. */
  method Measure(metres: real, dangerous: seq<Span>, shut: seq<Span>) returns (share: Tally)
    requires Separate(dangerous) && Separate(shut)
    ensures share == ShareOf(metres, Instants(dangerous), Instants(shut))
  {
    hide Instants, Separate;
    var hazardous := Length(dangerous);
    var closed := Length(shut);
    var both := Intersection(dangerous, shut);
    SizesBoth(Instants(dangerous), Instants(shut));
    share := Tally(Times(metres, hazardous), Times(metres, closed), Times(metres, hazardous - both), Times(metres, closed - both));
  }

  lemma SizesBoth(a: set<Time>, b: set<Time>)
    ensures |a - b| == |a| - |a * b| && |b - a| == |b| - |a * b|
  {
    SizesSplit(a, b);
    SizesSplit(b, a);
    assert b * a == a * b;
  }

  /** The samples an event endangers, in turn, and how many metres they are. */
  ghost predicate ZoneOf(samples: seq<Placement>, e: Occurrence, gap: (Point, Point) -> real, zone: seq<nat>)
  {
    && (forall j: nat :: j in zone <==> j < |samples| && Carries(e, gap, samples[j]))
    && Metres(samples, zone) == EndangeredMetres(samples, e, gap)
  }

  /** The samples an event endangers, each dangerous for its window. */
  method MarkDanger(samples: seq<Placement>, e: Occurrence, gap: (Point, Point) -> real, window: Time, dangerous: array<seq<Span>>,
                    ghost before: seq<Occurrence>) returns (zone: seq<nat>)
    requires dangerous.Length == |samples|
    requires forall j :: 0 <= j < |samples| ==> dangerous[j] == Dangerous(before, gap, samples[j], window)
    modifies dangerous
    ensures forall j :: 0 <= j < |samples| ==> dangerous[j] == Dangerous(before + [e], gap, samples[j], window)
    ensures ZoneOf(samples, e, gap, zone)
  {
    hide Dangerous, Metres, EndangeredMetres;
    NoMetres(samples, e, gap);
    forall j | 0 <= j < |samples|
      ensures Dangerous(before + [e], gap, samples[j], window) ==
              Dangerous(before, gap, samples[j], window) + if Carries(e, gap, samples[j]) then [Span(e.origin, e.origin + window)] else []
    {
      DangerNext(before, e, gap, samples[j], window);
    }
    zone := [];
    for j := 0 to |samples|
      invariant forall k :: 0 <= k < |samples| ==> dangerous[k] == Dangerous(if k < j then before + [e] else before, gap, samples[k], window)
      invariant forall k: nat :: k in zone <==> k < j && Carries(e, gap, samples[k])
      invariant Metres(samples, zone) == EndangeredMetres(samples[..j], e, gap)
    {
      MetresMore(samples, zone, e, gap, j);
      if e.radius.Some? && gap(samples[j].at, e.at) <= e.radius.value {
        dangerous[j] := dangerous[j] + [Span(e.origin, e.origin + window)];
        zone := zone + [j];
      }
    }
    assert samples[..|samples|] == samples;
  }

  lemma NoMetres(samples: seq<Placement>, e: Occurrence, gap: (Point, Point) -> real)
    ensures Metres(samples, []) == EndangeredMetres(samples[..0], e, gap)
  {
  }

  lemma MetresMore(samples: seq<Placement>, zone: seq<nat>, e: Occurrence, gap: (Point, Point) -> real, j: nat)
    requires j < |samples|
    ensures Metres(samples, zone + [j]) == Metres(samples, zone) + samples[j].metres
    ensures EndangeredMetres(samples[..j + 1], e, gap) ==
            EndangeredMetres(samples[..j], e, gap) + if Carries(e, gap, samples[j]) then samples[j].metres else 0.0
  {
    assert (zone + [j])[..|zone|] == zone;
    assert samples[..j + 1][..j] == samples[..j];
  }

  lemma DangerNext(events: seq<Occurrence>, e: Occurrence, gap: (Point, Point) -> real, s: Placement, window: Time)
    ensures Dangerous(events + [e], gap, s, window) ==
            Dangerous(events, gap, s, window) + if Carries(e, gap, s) then [Span(e.origin, e.origin + window)] else []
  {
    assert (events + [e])[..|events|] == events;
  }

  /** The metres of some samples, and of those an event endangers. */
  function Metres(samples: seq<Placement>, zone: seq<nat>): real
  {
    if zone == [] then 0.0
    else
      var j := zone[|zone| - 1];
      Metres(samples, zone[..|zone| - 1]) + if j < |samples| then samples[j].metres else 0.0
  }

  function EndangeredMetres(samples: seq<Placement>, e: Occurrence, gap: (Point, Point) -> real): real
  {
    if samples == [] then 0.0
    else
      var s := samples[|samples| - 1];
      EndangeredMetres(samples[..|samples| - 1], e, gap) + if Carries(e, gap, s) then s.metres else 0.0
  }

  /** The ground an event endangers is the sum of the metres of the samples it does. */
  lemma {:induction false} EndangeredJoins(a: seq<Placement>, b: seq<Placement>, e: Occurrence, gap: (Point, Point) -> real)
    ensures EndangeredMetres(a + b, e, gap) == EndangeredMetres(a, e, gap) + EndangeredMetres(b, e, gap)
    ensures forall s: Placement :: EndangeredMetres([s], e, gap) == if e.radius.Some? && gap(s.at, e.at) <= e.radius.value then s.metres else 0.0
    decreases |b|
  {
    if b == [] {
      assert a + b == a;
    } else {
      EndangeredJoins(a, b[..|b| - 1], e, gap);
      assert (a + b)[..|a + b| - 1] == a + b[..|b| - 1];
    }
  }

  /** The samples each zone of an event's shuts, for as long as it is drawn. */
  method MarkShut(samples: seq<Placement>, drawn: seq<Drawn>, gap: (Point, Point) -> real, shut: array<seq<Span>>)
    requires shut.Length == |samples|
    modifies shut
    ensures forall j :: 0 <= j < |samples| ==> shut[j] == old(shut[j]) + Within(drawn, gap, samples[j])
  {
    for d := 0 to |drawn|
      invariant forall k :: 0 <= k < |samples| ==> shut[k] == old(shut[k]) + Within(drawn[..d], gap, samples[k])
    {
      assert drawn[..d + 1][..d] == drawn[..d] && drawn[..d + 1][d] == drawn[d];
      for j := 0 to |samples|
        invariant forall k :: 0 <= k < |samples| ==> shut[k] == old(shut[k]) + Within(if k < j then drawn[..d + 1] else drawn[..d], gap, samples[k])
      {
        if gap(samples[j].at, drawn[d].at) <= drawn[d].reach {
          shut[j] := shut[j] + [drawn[d].span];
        }
      }
    }
    assert drawn[..|drawn|] == drawn;
  }

  /** The stretches every sample was dangerous for, and those it was shut for, event by event. */
  method Gather(samples: seq<Placement>, events: seq<Occurrence>, gap: (Point, Point) -> real, window: Time, allowance: real)
    returns (dangerous: array<seq<Span>>, shut: array<seq<Span>>, inZone: seq<seq<nat>>)
    ensures fresh(dangerous) && fresh(shut) && dangerous != shut && dangerous.Length == shut.Length == |samples|
    ensures forall j :: 0 <= j < |samples| ==> dangerous[j] == Dangerous(events, gap, samples[j], window)
    ensures forall j :: 0 <= j < |samples| ==> shut[j] == Shut(events, gap, samples[j], window, allowance)
    ensures |inZone| == |events| && forall i: nat :: i < |events| ==> ZoneOf(samples, events[i], gap, inZone[i])
  {
    hide Dangerous, Shut, Within, ClosuresOf, ZoneOf;
    dangerous, shut := new seq<Span>[|samples|](_ => []), new seq<Span>[|samples|](_ => []);
    inZone := [];
    NothingYet(samples, gap, window, allowance);
    assert events[..0] == [];
    for i := 0 to |events|
      invariant forall j :: 0 <= j < |samples| ==> dangerous[j] == Dangerous(events[..i], gap, samples[j], window)
      invariant forall j :: 0 <= j < |samples| ==> shut[j] == Shut(events[..i], gap, samples[j], window, allowance)
      invariant |inZone| == i && forall n: nat :: n < i ==> ZoneOf(samples, events[n], gap, inZone[n])
    {
      var e := events[i];
      assert events[..i + 1] == events[..i] + [e];
      var zone := MarkDanger(samples, e, gap, window, dangerous, events[..i]);
      ghost var before := inZone;
      inZone := inZone + [zone];
      forall n: nat | n <= i ensures ZoneOf(samples, events[n], gap, inZone[n]) {
        assert n < i ==> inZone[n] == before[n];
      }
      var drawn := Closures(e, e.origin + window, allowance);
      MarkShut(samples, drawn, gap, shut);
      forall j | 0 <= j < |samples| ensures shut[j] == Shut(events[..i + 1], gap, samples[j], window, allowance) {
        ShutNext(events[..i], e, gap, samples[j], window, allowance);
      }
    }
    assert events[..|events|] == events;
  }

  lemma NothingYet(samples: seq<Placement>, gap: (Point, Point) -> real, window: Time, allowance: real)
    ensures forall j :: 0 <= j < |samples| ==> Dangerous([], gap, samples[j], window) == [] && Shut([], gap, samples[j], window, allowance) == []
  {
  }

  lemma ShutNext(events: seq<Occurrence>, e: Occurrence, gap: (Point, Point) -> real, s: Placement, window: Time, allowance: real)
    ensures Shut(events + [e], gap, s, window, allowance) ==
            Shut(events, gap, s, window, allowance) + Within(ClosuresOf(e, e.origin + window, allowance), gap, s)
  {
    hide ClosuresOf, Within, GoesBy;
    assert (events + [e])[..|events|] == events;
  }

  /** Whether an event made a sample dangerous. */
  predicate Carries(e: Occurrence, gap: (Point, Point) -> real, s: Placement)
  {
    e.radius.Some? && gap(s.at, e.at) <= e.radius.value
  }

  /** How the map did by one event that endangered any ground. */
  datatype Report = Report(event: nat, metres: real, after: Option<Time>)

  /** Every sample an event endangered is shut at a moment. */
  ghost predicate AllShut(samples: seq<Placement>, events: seq<Occurrence>, gap: (Point, Point) -> real, window: Time, allowance: real, i: nat, t: Time)
    requires i < |events|
  {
    forall j :: 0 <= j < |samples| && Carries(events[i], gap, samples[j]) ==> t in Instants(Shut(events, gap, samples[j], window, allowance))
  }

  /** What a report says: how long after its event, and within its window, the map first had all
      the ground it endangered shut at once; or that it never did. */
  ghost predicate Says(samples: seq<Placement>, events: seq<Occurrence>, gap: (Point, Point) -> real, window: Time, allowance: real, r: Report)
  {
    && r.event < |events| && r.metres == EndangeredMetres(samples, events[r.event], gap)
    && (exists j :: 0 <= j < |samples| && Carries(events[r.event], gap, samples[j]))
    && (var origin := events[r.event].origin;
        if r.after.Some? then
          && 0 <= r.after.value < window && AllShut(samples, events, gap, window, allowance, r.event, origin + r.after.value)
          && forall t :: origin <= t < origin + r.after.value ==> !AllShut(samples, events, gap, window, allowance, r.event, t)
        else forall t :: origin <= t < origin + window ==> !AllShut(samples, events, gap, window, allowance, r.event, t))
  }

  /** The closure map of a run: how much ground was dangerous, shut, missed and shut for nothing;
      the most shut at once; and how the map did by each event that endangered any. */
  method ReadMap(samples: seq<Placement>, events: seq<Occurrence>, gap: (Point, Point) -> real, window: Time, allowance: real)
    returns (tally: Tally, most: real, reports: seq<Report>)
    requires window > 0 && forall j :: 0 <= j < |samples| ==> samples[j].metres > 0.0
    ensures tally == TallyOf(samples, events, gap, window, allowance)
    ensures forall t :: most >= ShutAt(samples, events, gap, window, allowance, t)
    ensures most == 0.0 || exists t :: most <= ShutUntil(samples, events, gap, window, allowance, t)
    ensures forall r :: r in reports ==> Says(samples, events, gap, window, allowance, r)
    ensures forall i: nat :: i < |events| ==>
              ((exists j :: 0 <= j < |samples| && Carries(events[i], gap, samples[j])) <==> exists r :: r in reports && r.event == i)
  {
    hide Dangerous, Shut, Instants, Says, Carries, ShutAt, ShutUntil, ClosedAt, ClosedThrough;
    var dangerous, shut, inZone := Gather(samples, events, gap, window, allowance);
    var merged;
    tally, merged, most := Reckon(samples, events, gap, window, allowance, dangerous[..], shut[..]);
    reports := [];
    for i := 0 to |events|
      invariant forall r :: r in reports ==> r.event < i && Says(samples, events, gap, window, allowance, r)
      invariant forall n: nat :: n < i ==>
                  ((exists j :: 0 <= j < |samples| && Carries(events[n], gap, samples[j])) <==> exists r :: r in reports && r.event == n)
    {
      var more := ReportOn(samples, events, gap, window, allowance, i, inZone[i], merged);
      ghost var before := reports;
      reports := reports + more;
      assert forall r :: r in reports <==> r in before || r in more;
    }
  }

  /** Every sample's stretches joined up and measured, and the most shut at once. */
  method Reckon(samples: seq<Placement>, events: seq<Occurrence>, gap: (Point, Point) -> real, window: Time, allowance: real,
                dangerous: seq<seq<Span>>, shut: seq<seq<Span>>) returns (tally: Tally, merged: seq<seq<Span>>, most: real)
    requires window > 0 && forall j :: 0 <= j < |samples| ==> samples[j].metres > 0.0
    requires |dangerous| == |shut| == |samples|
    requires forall j :: 0 <= j < |samples| ==> dangerous[j] == Dangerous(events, gap, samples[j], window)
    requires forall j :: 0 <= j < |samples| ==> shut[j] == Shut(events, gap, samples[j], window, allowance)
    ensures tally == TallyOf(samples, events, gap, window, allowance)
    ensures |merged| == |samples| && forall j :: 0 <= j < |merged| ==> Instants(merged[j]) == Instants(shut[j])
    ensures forall t :: most >= ShutAt(samples, events, gap, window, allowance, t)
    ensures most == 0.0 || exists t :: most <= ShutUntil(samples, events, gap, window, allowance, t)
  {
    hide Dangerous, Shut, Instants, ShareOf, ClosedAt, ClosedThrough, Weighed, Real;
    tally, merged := Tally(0.0, 0.0, 0.0, 0.0), [];
    var closed: seq<Closed> := [];
    assert samples[..0] == [];
    NothingShut();
    for j := 0 to |samples|
      invariant tally == TallyOf(samples[..j], events, gap, window, allowance)
      invariant |merged| == j && forall k :: 0 <= k < j ==> Instants(merged[k]) == Instants(shut[k])
      invariant forall c :: c in closed ==> Real(c)
      invariant forall t :: ClosedAt(closed, t) == ShutAt(samples[..j], events, gap, window, allowance, t)
      invariant forall t :: ClosedThrough(closed, t) == ShutUntil(samples[..j], events, gap, window, allowance, t)
    {
      var s := samples[j];
      assert samples[..j + 1][..j] == samples[..j];
      DangerousLasts(events, gap, s, window);
      ShutLasts(events, gap, s, window, allowance);
      var danger := Merged(dangerous[j]);
      var closures := Merged(shut[j]);
      var share := Measure(s.metres, danger, closures);
      tally := tally.Plus(share);
      merged := merged + [closures];
      SampleShut(samples[..j + 1], events, gap, window, allowance, closures, closed);
      closed := closed + Weighed(closures, s.metres);
    }
    assert samples[..|samples|] == samples;
    most := MostClosed(closed);
  }

  lemma NothingShut()
    ensures forall t :: ClosedAt([], t) == 0.0 && ClosedThrough([], t) == 0.0
  {
  }

  /** One more sample's stretches switched: at any moment the sample counts if it is shut. */
  lemma SampleShut(samples: seq<Placement>, events: seq<Occurrence>, gap: (Point, Point) -> real, window: Time, allowance: real,
                   closures: seq<Span>, closed: seq<Closed>)
    requires samples != [] && samples[|samples| - 1].metres > 0.0 && Separate(closures) && forall c :: c in closed ==> Real(c)
    requires Instants(closures) == Instants(Shut(events, gap, samples[|samples| - 1], window, allowance))
    requires forall t :: ClosedAt(closed, t) == ShutAt(samples[..|samples| - 1], events, gap, window, allowance, t)
    requires forall t :: ClosedThrough(closed, t) == ShutUntil(samples[..|samples| - 1], events, gap, window, allowance, t)
    ensures var after := closed + Weighed(closures, samples[|samples| - 1].metres);
            && (forall c :: c in after ==> Real(c))
            && (forall t :: ClosedAt(after, t) == ShutAt(samples, events, gap, window, allowance, t))
            && (forall t :: ClosedThrough(after, t) == ShutUntil(samples, events, gap, window, allowance, t))
  {
    hide Shut, Real, Weighed, ClosedAt, ClosedThrough;
    var metres := samples[|samples| - 1].metres;
    WeighedHolds(closures, metres);
    forall t
      ensures ClosedAt(closed + Weighed(closures, metres), t) == ShutAt(samples, events, gap, window, allowance, t)
      ensures ClosedThrough(closed + Weighed(closures, metres), t) == ShutUntil(samples, events, gap, window, allowance, t)
    {
      ClosedJoins(closed, Weighed(closures, metres), t);
      WeighedOnce(closures, metres, t);
      TouchedIsHeld(closures, t);
    }
  }

  /** A stretch touches a moment if it holds then or held just before. */
  lemma TouchedIsHeld(spans: seq<Span>, t: Time)
    requires Lasting(spans)
    ensures t in Instants(spans) <==> Covered(spans, t)
    ensures Touches(spans, t) <==> t in Instants(spans) || t - 1 in Instants(spans)
  {
    InstantsAreCovered(spans);
    if k :| 0 <= k < |spans| && spans[k].from <= t <= spans[k].until {
      assert spans[k].Holds(t) || spans[k].Holds(t - 1);
    }
  }

  /** How the map did by one event, if it endangered any ground. */
  method ReportOn(samples: seq<Placement>, events: seq<Occurrence>, gap: (Point, Point) -> real, window: Time, allowance: real, i: nat,
                  zone: seq<nat>, merged: seq<seq<Span>>) returns (reports: seq<Report>)
    requires window > 0 && i < |events| && |merged| == |samples|
    requires forall j: nat :: j in zone <==> j < |samples| && Carries(events[i], gap, samples[j])
    requires forall j :: 0 <= j < |merged| ==> Instants(merged[j]) == Instants(Shut(events, gap, samples[j], window, allowance))
    requires Metres(samples, zone) == EndangeredMetres(samples, events[i], gap)
    ensures forall r :: r in reports ==> r.event == i && Says(samples, events, gap, window, allowance, r)
    ensures (exists j :: 0 <= j < |samples| && Carries(events[i], gap, samples[j])) <==> exists r :: r in reports && r.event == i
  {
    hide Shut, Instants, Carries;
    if |zone| == 0 {
      assert forall j: nat :: j !in zone;
      return [];
    }
    forall k | 0 <= k < |zone| ensures zone[k] < |samples| {
      var j := zone[k];
      assert j in zone;
    }
    var metres := 0.0;
    var mine: seq<seq<Span>> := [];
    for k := 0 to |zone|
      invariant |mine| == k && forall l :: 0 <= l < k ==> mine[l] == merged[zone[l]]
      invariant metres == Metres(samples, zone[..k])
    {
      assert zone[..k + 1][..k] == zone[..k];
      metres := metres + samples[zone[k]].metres;
      mine := mine + [merged[zone[k]]];
    }
    assert zone[..|zone|] == zone;
    var origin := events[i].origin;
    var after := CompleteAfter(mine, origin, origin + window);
    forall t ensures AllCovered(mine, t) <==> AllShut(samples, events, gap, window, allowance, i, t) {
      MineAreAll(samples, events, gap, window, allowance, i, zone, merged, mine, t);
    }
    assert zone[0] in zone;
    var r := Report(i, metres, after);
    assert Carries(events[i], gap, samples[zone[0]]);
    assert Says(samples, events, gap, window, allowance, r);
    reports := [r];
    assert r in reports;
  }

  lemma MineAreAll(samples: seq<Placement>, events: seq<Occurrence>, gap: (Point, Point) -> real, window: Time, allowance: real, i: nat,
                   zone: seq<nat>, merged: seq<seq<Span>>, mine: seq<seq<Span>>, t: Time)
    requires i < |events| && |merged| == |samples| && |mine| == |zone|
    requires forall j: nat :: j in zone <==> j < |samples| && Carries(events[i], gap, samples[j])
    requires forall j :: 0 <= j < |merged| ==> Instants(merged[j]) == Instants(Shut(events, gap, samples[j], window, allowance))
    requires forall k :: 0 <= k < |zone| ==> zone[k] < |samples| && mine[k] == merged[zone[k]]
    ensures AllCovered(mine, t) <==> AllShut(samples, events, gap, window, allowance, i, t)
  {
    hide Shut, Instants, Carries, Covered;
    forall k | 0 <= k < |mine| ensures Covered(mine[k], t) <==> t in Instants(Shut(events, gap, samples[zone[k]], window, allowance)) {
      InstantsAreCovered(mine[k]);
    }
    if AllCovered(mine, t) {
      forall j | 0 <= j < |samples| && Carries(events[i], gap, samples[j]) ensures t in Instants(Shut(events, gap, samples[j], window, allowance)) {
        assert (j as nat) in zone;
        var k :| 0 <= k < |zone| && zone[k] == j;
        assert Covered(mine[k], t);
      }
    }
    if AllShut(samples, events, gap, window, allowance, i, t) {
      forall k | 0 <= k < |mine| ensures Covered(mine[k], t) {
        assert zone[k] in zone;
      }
    }
  }
}
