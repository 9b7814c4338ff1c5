/** Versioned settings, changed by plan and by hand, and the proof of when a run's record of them
    replays: internal/intent/control.go, internal/run/engine.go:577-620 and
    internal/domain/intent.go:343-402. */
module Control {
  import opened Basics
  import opened Settings

  // ---------- The settings in force ----------

  const INITIAL := "initial"
  const SCHEDULED := "schedule"

  datatype InForce = InForce(settings: Intent, version: int, source: string)

  function Begin(initial: Intent): InForce { InForce(initial, 1, INITIAL) }

  /** An operator's change, which may name the version it was made against. */
  datatype Act = Act(patch: Patch, expected: Option<int>, source: string)

  function PatchedBy(c: InForce, act: Act): (InForce, bool)
  {
    if act.expected.Some? && act.expected.value != c.version then (c, false)
    else
      match c.settings.Patched(act.patch)
      case Err => (c, false)
      case Ok(next) => (InForce(next, c.version + 1, act.source), true)
  }

  /** A recorded change put back in force, at the version it had if that is still to come. */
  function Replayed(c: InForce, settings: Intent, version: int, source: string): (InForce, bool)
  {
    if !settings.Usable() then (c, false)
    else (InForce(settings, if version <= c.version then c.version + 1 else version, source), true)
  }

  class Control {
    var settings: Intent
    var version: int
    var source: string

    function View(): InForce
      reads this
    {
      InForce(settings, version, source)
    }

    constructor (initial: Intent)
      ensures View() == Begin(initial)
    {
      settings, version, source := initial, 1, INITIAL;
    }

    /** A change is either refused and leaves everything as it was, or is in force at the next
        version. */
    method Patch(patch: Patch, expected: Option<int>, who: string) returns (ok: bool)
      modifies this
      ensures (View(), ok) == PatchedBy(old(View()), Act(patch, expected, who))
    {
      if expected.Some? && expected.value != version {
        return false;
      }
      var next := settings.Patched(patch);
      if next.Err? {
        return false;
      }
      settings, source := next.value, who;
      version := version + 1;
      return true;
    }

    method Replay(settings: Intent, version: int, source: string) returns (ok: bool)
      modifies this
      ensures (View(), ok) == Replayed(old(View()), settings, version, source)
    {
      if !settings.Usable() {
        return false;
      }
      var next := version;
      if next <= this.version {
        next := this.version + 1;
      }
      this.settings, this.version, this.source := settings, next, source;
      return true;
    }
  }

  /** What any change does: nothing, or a later version. */
  ghost predicate Later(a: InForce, b: InForce)
  {
    && (b.version > a.version || b == a)
    && (a.settings.Usable() ==> b.settings.Usable())
    && (a.source != "" ==> b.source != "")
  }

  /** An operator's change is accepted exactly when it names no version or the one in force, and
      either is blank or decodes to usable settings that are what it says where it says anything
      and what they were where it does not. Accepted, those are in force at the next version under
      the operator's name; refused, nothing is different. */
  lemma ChangeOutcome(c: InForce, act: Act)
    requires act.patch.blank ==> !act.patch.malformed
    ensures var (after, ok) := PatchedBy(c, act);
            && (ok <==> (act.expected.None? || act.expected.value == c.version) &&
                        (act.patch.blank || (!act.patch.malformed && exists next: Intent :: Follows(c.settings, act.patch, next) && next.Usable())))
            && (ok ==> after.version == c.version + 1 && after.source == act.source &&
                       if act.patch.blank then after.settings == c.settings else Follows(c.settings, act.patch, after.settings) && after.settings.Usable())
            && (!ok ==> after == c)
  {
    hide Follows, Intent.With, Intent.Usable;
    if !act.patch.blank {
      var with := c.settings.With(act.patch);
      FollowsOnce(c.settings, act.patch, with);
      forall n | Follows(c.settings, act.patch, n) ensures n == with {
        FollowsOnce(c.settings, act.patch, n);
      }
    }
  }

  /** Of two changes that name one version at most one is accepted; what is accepted is the next
      version, and what is refused leaves no trace. */
  lemma NoSilentOverwrite(c: InForce, a: Act, b: Act)
    requires a.expected.Some? && b.expected == a.expected
    ensures var (c1, first) := PatchedBy(c, a);
            var (c2, second) := PatchedBy(c1, b);
            && !(first && second)
            && (first ==> c2 == c1 && c1.version == c.version + 1)
            && (!first && !second ==> c2 == c)
  {
  }

  // ---------- A run's intent, cycle by cycle ----------

  /** A change planned for a cycle. */
  datatype Step = Step(cycle: int, patch: Patch, version: int, source: string)

  function Named(source: string): string { if source == "" then SCHEDULED else source }

  /** An operator's changes, one after the other; the refused change nothing. */
  function Acted(c: InForce, acts: seq<Act>): InForce
    decreases |acts|
  {
    if acts == [] then c else Acted(PatchedBy(c, acts[0]).0, acts[1..])
  }

  /** What an operator does while a cycle reads its settings: before each planned change is
      worked out, between that and putting it in force, and before the settings are read. */
  datatype Meanwhile = Meanwhile(before: nat -> seq<Act>, between: nat -> seq<Act>, last: seq<Act>)

  const QUIET := Meanwhile(_ => [], _ => [], [])

  /** The planned changes due by a cycle put in force, in turn; None if one does not apply. */
  function Due(c: InForce, schedule: seq<Step>, next: nat, cycle: int, meanwhile: Meanwhile): Option<(InForce, nat)>
    decreases |schedule| - next
  {
    if next < |schedule| && schedule[next].cycle <= cycle then
      var step := schedule[next];
      var read := Acted(c, meanwhile.before(next));
      var then_ := Acted(read, meanwhile.between(next));
      match read.settings.Patched(step.patch)
      case Err => None
      case Ok(settings) =>
        var (after, ok) := Replayed(then_, settings, step.version, Named(step.source));
        if ok then Due(after, schedule, next + 1, cycle, meanwhile) else None
    else Some((c, next))
  }

  /** The settings in force for each cycle, as far as the first that cannot be worked out. */
  function Reads(c: InForce, schedule: seq<Step>, next: nat, cycle: int, meanwhiles: seq<Meanwhile>): seq<InForce>
    decreases |meanwhiles|
  {
    if meanwhiles == [] then []
    else
      match Due(c, schedule, next, cycle, meanwhiles[0])
      case None => []
      case Some((after, next')) =>
        var read := Acted(after, meanwhiles[0].last);
        [read] + Reads(read, schedule, next', cycle + 1, meanwhiles[1..])
  }

  /** The settings of one cycle, and those of the cycles after it. */
  lemma ReadOneCycle(c: InForce, schedule: seq<Step>, next: nat, cycle: int, meanwhiles: seq<Meanwhile>)
    requires meanwhiles != []
    ensures match Due(c, schedule, next, cycle, meanwhiles[0])
            case None => Reads(c, schedule, next, cycle, meanwhiles) == []
            case Some((after, n)) =>
              var read := Acted(after, meanwhiles[0].last);
              Reads(c, schedule, next, cycle, meanwhiles) == [read] + Reads(read, schedule, n, cycle + 1, meanwhiles[1..])
  {
  }

  datatype Change = Change(cycle: int, inForce: InForce)

  /** What is recorded of the settings in force: each version, from the first cycle it is read. */
  function Recorded(seen: seq<InForce>, version: int, cycle: int): seq<Change>
  {
    if seen == [] then []
    else (if seen[0].version != version then [Change(cycle, seen[0])] else []) + Recorded(seen[1..], seen[0].version, cycle + 1)
  }

  // ---------- What any run's seen keep to ----------

  lemma {:induction false} ActedIsLater(c: InForce, acts: seq<Act>)
    requires forall k :: 0 <= k < |acts| ==> acts[k].source != ""
    ensures Later(c, Acted(c, acts))
    decreases |acts|
  {
    if acts != [] {
      ActedIsLater(PatchedBy(c, acts[0]).0, acts[1..]);
    }
  }

  /** Everyone who changes anything says who they are. */
  ghost predicate Signed(m: Meanwhile)
  {
    && (forall n, k :: 0 <= k < |m.before(n)| ==> m.before(n)[k].source != "")
    && (forall n, k :: 0 <= k < |m.between(n)| ==> m.between(n)[k].source != "")
    && (forall k :: 0 <= k < |m.last| ==> m.last[k].source != "")
  }

  lemma {:induction false} DueIsLater(c: InForce, schedule: seq<Step>, next: nat, cycle: int, m: Meanwhile)
    requires Signed(m)
    ensures var r := Due(c, schedule, next, cycle, m);
            r.Some? ==> Later(c, r.value.0)
    decreases |schedule| - next
  {
    if next < |schedule| && schedule[next].cycle <= cycle {
      var step := schedule[next];
      var read := Acted(c, m.before(next));
      var then_ := Acted(read, m.between(next));
      ActedIsLater(c, m.before(next));
      ActedIsLater(read, m.between(next));
      hide Acted;
      if read.settings.Patched(step.patch).Ok? {
        var (after, ok) := Replayed(then_, read.settings.Patched(step.patch).value, step.version, Named(step.source));
        if ok {
          DueIsLater(after, schedule, next + 1, cycle, m);
        }
      }
    }
  }

  /** Each cycle reads what the one before read, or a later version. */
  ghost predicate Progresses(c: InForce, seen: seq<InForce>)
    decreases |seen|
  {
    seen != [] ==> Later(c, seen[0]) && Progresses(seen[0], seen[1..])
  }

  /** Whatever is planned and whatever an operator does, and whenever, versions never go back
      and a version means one thing. */
  lemma {:induction false} ReadsProgress(c: InForce, schedule: seq<Step>, next: nat, cycle: int, meanwhiles: seq<Meanwhile>)
    requires forall k :: 0 <= k < |meanwhiles| ==> Signed(meanwhiles[k])
    ensures Progresses(c, Reads(c, schedule, next, cycle, meanwhiles))
    decreases |meanwhiles|
  {
    if meanwhiles != [] {
      var due := Due(c, schedule, next, cycle, meanwhiles[0]);
      if due.Some? {
        DueIsLater(c, schedule, next, cycle, meanwhiles[0]);
        ActedIsLater(due.value.0, meanwhiles[0].last);
        var read := Acted(due.value.0, meanwhiles[0].last);
        ReadsProgress(read, schedule, due.value.1, cycle + 1, meanwhiles[1..]);
        var rest := Reads(read, schedule, due.value.1, cycle + 1, meanwhiles[1..]);
        assert ([read] + rest)[1..] == rest;
      }
    }
  }

  /** Recorded versions strictly increase, in cycles that do. */
  lemma {:induction false} VersionsIncrease(c: InForce, seen: seq<InForce>, version: int, cycle: int)
    requires Progresses(c, seen) && version <= c.version
    ensures Increasing(Recorded(seen, version, cycle), version, cycle)
    ensures c.settings.Usable() ==> forall x :: x in Recorded(seen, version, cycle) ==> x.inForce.settings.Usable()
    decreases |seen|
  {
    if seen != [] {
      VersionsIncrease(seen[0], seen[1..], seen[0].version, cycle + 1);
      var rest := Recorded(seen[1..], seen[0].version, cycle + 1);
      HeadIncreases(Change(cycle, seen[0]), rest, version);
      if seen[0].version == version {
        assert Recorded(seen, version, cycle) == rest;
      }
    }
  }

  ghost predicate Increasing(changes: seq<Change>, version: int, cycle: int)
  {
    && (forall k :: 0 <= k < |changes| ==> changes[k].inForce.version > version && changes[k].cycle >= cycle)
    && (forall k, l :: 0 <= k < l < |changes| ==>
          changes[k].inForce.version < changes[l].inForce.version && changes[k].cycle < changes[l].cycle)
  }

  lemma HeadIncreases(first: Change, rest: seq<Change>, version: int)
    requires Increasing(rest, first.inForce.version, first.cycle + 1)
    ensures first.inForce.version > version ==> Increasing([first] + rest, version, first.cycle)
    ensures first.inForce.version >= version ==> Increasing(rest, version, first.cycle)
  {
  }

  // ---------- Replaying a record ----------

  /** A recorded change as a planned one. */
  function AsStep(change: Change): Step
  {
    Step(change.cycle, Whole(change.inForce.settings), change.inForce.version, change.inForce.source)
  }

  function AsSchedule(changes: seq<Change>): (r: seq<Step>)
    ensures |r| == |changes|
    ensures forall k :: 0 <= k < |r| ==> r[k] == AsStep(changes[k])
  {
    seq(|changes|, k requires 0 <= k < |changes| => AsStep(changes[k]))
  }

  /** A whole document makes any settings the ones it names, if they can be acted on. */
  lemma WholeIsWhole(current: Intent, s: Intent)
    ensures current.Patched(Whole(s)) == if s.Usable() then Ok(s) else Err
  {
  }

  /** Nothing is due before its cycle. */
  lemma NothingDue(c: InForce, schedule: seq<Step>, next: nat, cycle: int, m: Meanwhile)
    requires next < |schedule| ==> schedule[next].cycle > cycle
    ensures Due(c, schedule, next, cycle, m) == Some((c, next))
  {
  }

  /** A recorded change comes into force whole, at its own version and under its own source. */
  lemma ChangeIsDue(c: InForce, changes: seq<Change>, next: nat)
    requires next < |changes|
    requires changes[next].inForce.settings.Usable() && changes[next].inForce.source != "" && changes[next].inForce.version > c.version
    requires next + 1 < |changes| ==> changes[next + 1].cycle > changes[next].cycle
    ensures Acted(c, []) == c
    ensures Due(c, AsSchedule(changes), next, changes[next].cycle, QUIET) == Some((changes[next].inForce, next + 1))
  {
    var schedule, change := AsSchedule(changes), changes[next];
    WholeIsWhole(c.settings, change.inForce.settings);
    assert Acted(c, []) == c;
    NothingDue(change.inForce, schedule, next + 1, change.cycle, QUIET);
  }

  /** What a cycle adds to the record. */
  function Noted(c: InForce, read: InForce, cycle: int): seq<Change>
  {
    if read.version != c.version then [Change(cycle, read)] else []
  }

  /** From any cycle on: with the rest of a record planned, each cycle reads what it read. */
  lemma {:induction false} ReplayFrom(c: InForce, seen: seq<InForce>, cycle: int, before: seq<Change>, quiet: seq<Meanwhile>)
    requires Progresses(c, seen) && c.settings.Usable() && c.source != ""
    requires |quiet| == |seen| && forall k :: 0 <= k < |quiet| ==> quiet[k] == QUIET
    requires forall k :: 0 <= k < |before| ==> before[k].cycle < cycle
    ensures Reads(c, AsSchedule(before + Recorded(seen, c.version, cycle)), |before|, cycle, quiet) == seen
    decreases |seen|
  {
    if seen != [] {
      hide Due, Acted, Later, AsSchedule, Intent.Usable, Reads, Recorded, Progresses, Noted;
      var read, past := seen[0], before + Noted(c, seen[0], cycle);
      RecordedNext(c, seen, cycle, before);
      ReplayCycle(c, read, seen[1..], cycle, before);
      ReadOneCycle(c, AsSchedule(before + Recorded(seen, c.version, cycle)), |before|, cycle, quiet);
      ReplayFrom(read, seen[1..], cycle + 1, past, quiet[1..]);
      assert seen == [read] + seen[1..];
    }
  }

  lemma RecordedNext(c: InForce, seen: seq<InForce>, cycle: int, before: seq<Change>)
    requires seen != [] && Progresses(c, seen)
    requires forall k :: 0 <= k < |before| ==> before[k].cycle < cycle
    ensures Later(c, seen[0]) && Progresses(seen[0], seen[1..])
    ensures var past := before + Noted(c, seen[0], cycle);
            && (forall k :: 0 <= k < |past| ==> past[k].cycle < cycle + 1)
            && before + Recorded(seen, c.version, cycle) == past + Recorded(seen[1..], seen[0].version, cycle + 1)
  {
    hide Later;
    var rest := Recorded(seen[1..], seen[0].version, cycle + 1);
    assert before + (Noted(c, seen[0], cycle) + rest) == (before + Noted(c, seen[0], cycle)) + rest;
  }

  /** One cycle of a replay: the change recorded for it, if there is one, and nothing else. */
  lemma ReplayCycle(c: InForce, read: InForce, later: seq<InForce>, cycle: int, before: seq<Change>)
    requires Later(c, read) && Progresses(read, later) && c.settings.Usable() && c.source != ""
    ensures read.settings.Usable() && read.source != "" && Acted(read, []) == read
    ensures var noted := Noted(c, read, cycle);
            var changes := before + noted + Recorded(later, read.version, cycle + 1);
            Due(c, AsSchedule(changes), |before|, cycle, QUIET) == Some((read, |before + noted|))
  {
    hide Due, Recorded, Progresses, AsSchedule, Intent.Usable;
    var rest := Recorded(later, read.version, cycle + 1);
    VersionsIncrease(read, later, read.version, cycle + 1);
    assert rest != [] ==> rest[0].cycle > cycle;
    if read.version != c.version {
      NextIsFirst(before, Change(cycle, read), rest);
      ChangeIsDue(c, before + [Change(cycle, read)] + rest, |before|);
    } else {
      NextIsRest(before, rest);
      NothingDue(c, AsSchedule(before + [] + rest), |before|, cycle, QUIET);
    }
  }

  lemma NextIsFirst(before: seq<Change>, first: Change, rest: seq<Change>)
    ensures var all := before + [first] + rest; var n := |before|;
            |all| == n + 1 + |rest| && all[n] == first && (rest != [] ==> all[n + 1] == rest[0])
  {
  }

  lemma NextIsRest(before: seq<Change>, rest: seq<Change>)
    ensures var all := before + [] + rest; var n := |before|;
            |all| == n + |rest| && |AsSchedule(all)| == |all| && (rest != [] ==> all[n] == rest[0] && AsSchedule(all)[n].cycle == rest[0].cycle)
  {
  }

  function Quiet(n: nat): (r: seq<Meanwhile>)
    ensures |r| == n && forall k :: 0 <= k < n ==> r[k] == QUIET
  {
    seq(n, _ => QUIET)
  }

  /** The settings in force at each cycle of a run, what it records of them, and what a run
      given that record as its intent reads over the same cycles. */
  ghost function Replay(initial: Intent, schedule: seq<Step>, meanwhiles: seq<Meanwhile>): (seq<InForce>, seq<Change>, seq<InForce>)
  {
    var seen := Reads(Begin(initial), schedule, 0, 1, meanwhiles);
    var changes := Recorded(seen, 0, 1);
    (seen, changes, if changes == [] then []
                     else Reads(Begin(changes[0].inForce.settings), AsSchedule(changes[1..]), 0, 1, Quiet(|seen|)))
  }

  /** Record and replay: whatever was planned, whatever operators did and whenever they did it,
      a run given the settings of the first recorded change and the others as its schedule
      reads, at every cycle, the same settings at the same version from the same source, and
      records the same changes, exactly when the first version recorded is the first there was. */
  lemma ReplayReproduces(initial: Intent, schedule: seq<Step>, meanwhiles: seq<Meanwhile>)
    requires initial.Usable() && forall k :: 0 <= k < |meanwhiles| ==> Signed(meanwhiles[k])
    ensures var (seen, changes, again) := Replay(initial, schedule, meanwhiles);
            seen != [] ==>
              && changes != [] && changes[0].cycle == 1
              && (again == seen <==> changes[0].inForce.version == 1)
              && (again == seen ==> Recorded(again, 0, 1) == changes)
  {
    var (seen, changes, again) := Replay(initial, schedule, meanwhiles);
    ReadsProgress(Begin(initial), schedule, 0, 1, meanwhiles);
    if seen != [] {
      FirstIsRecorded(Begin(initial), seen);
      VersionsIncrease(Begin(initial), seen, 0, 1);
      var first := seen[0];
      if first.version == 1 {
        assert changes == [Change(1, first)] + Recorded(seen[1..], 1, 2);
        assert changes[1..] == [] + Recorded(seen, 1, 1);
        ReplayFrom(first, seen, 1, [], Quiet(|seen|));
      } else {
        LaterStartDiffers(seen, changes);
      }
    }
  }

  /** The first cycle is always recorded, and version 1 is only ever the initial settings. */
  lemma FirstIsRecorded(c: InForce, seen: seq<InForce>)
    requires Progresses(c, seen) && seen != [] && c.version == 1
    ensures Recorded(seen, 0, 1) == [Change(1, seen[0])] + Recorded(seen[1..], seen[0].version, 2)
    ensures seen[0].version == 1 ==> seen[0] == c
  {
  }

  /** When the settings were changed before the first cycle read them, a replay starts at the
      first version and the record does not. */
  lemma LaterStartDiffers(seen: seq<InForce>, changes: seq<Change>)
    requires seen != [] && changes != [] && changes[0] == Change(1, seen[0]) && seen[0].version != 1
    requires changes[1..] != [] ==> changes[1].cycle > 1
    ensures Reads(Begin(changes[0].inForce.settings), AsSchedule(changes[1..]), 0, 1, Quiet(|seen|)) != seen
  {
    var begin, schedule := Begin(changes[0].inForce.settings), AsSchedule(changes[1..]);
    NothingDue(begin, schedule, 0, 1, QUIET);
    assert Acted(begin, []) == begin;
  }

  /** Which is so exactly when nothing was planned for the first cycle and no operator's change was
      accepted before it read its settings. */
  lemma FirstIsOneExactly(initial: Intent, schedule: seq<Step>, meanwhiles: seq<Meanwhile>)
    requires meanwhiles != [] && forall k :: 0 <= k < |meanwhiles| ==> Signed(meanwhiles[k])
    ensures var (seen, changes, _) := Replay(initial, schedule, meanwhiles);
            seen != [] ==>
              && changes != []
              && (changes[0].inForce.version == 1 <==>
                  (schedule != [] ==> schedule[0].cycle > 1) && Acted(Begin(initial), meanwhiles[0].last) == Begin(initial))
  {
    var (seen, changes, again) := Replay(initial, schedule, meanwhiles);
    ReadsProgress(Begin(initial), schedule, 0, 1, meanwhiles);
    if seen != [] {
      FirstIsRecorded(Begin(initial), seen);
      var after := Due(Begin(initial), schedule, 0, 1, meanwhiles[0]).value.0;
      ActedIsLater(after, meanwhiles[0].last);
      if schedule != [] && schedule[0].cycle <= 1 {
        PlannedIsLater(Begin(initial), schedule, meanwhiles[0]);
      } else {
        NothingDue(Begin(initial), schedule, 0, 1, meanwhiles[0]);
      }
    }
  }

  /** A planned change put in force is a later version. */
  lemma PlannedIsLater(c: InForce, schedule: seq<Step>, m: Meanwhile)
    requires Signed(m) && schedule != [] && schedule[0].cycle <= 1
    ensures var r := Due(c, schedule, 0, 1, m); r.Some? ==> r.value.0.version > c.version
  {
    var step := schedule[0];
    var read := Acted(c, m.before(0));
    var then_ := Acted(read, m.between(0));
    ActedIsLater(c, m.before(0));
    ActedIsLater(read, m.between(0));
    var patched := read.settings.Patched(step.patch);
    if patched.Ok? {
      var (after, ok) := Replayed(then_, patched.value, step.version, Named(step.source));
      DueIsLater(after, schedule, 1, 1, m);
    }
  }

  /** An operator's change before the first cycle: even one to the settings there were is version 2,
      and a replay begins at version 1. */
  lemma ChangedBeforeTheFirst(initial: Intent, who: string)
    requires initial.Usable() && who != ""
    ensures var acts := [Act(Whole(initial), None, who)];
            var (seen, changes, again) := Replay(initial, [], [Meanwhile(_ => [], _ => [], acts)]);
            && Signed(Meanwhile(_ => [], _ => [], acts))
            && seen == [InForce(initial, 2, who)] && changes == [Change(1, InForce(initial, 2, who))]
            && again == [Begin(initial)] && again != seen
  {
    var acts := [Act(Whole(initial), None, who)];
    var m := Meanwhile(_ => [], _ => [], acts);
    WholeIsWhole(initial, initial);
    assert acts[1..] == [];
    assert Acted(Begin(initial), acts) == InForce(initial, 2, who);
    AloneIsRead(initial, [], m, InForce(initial, 2, who));
  }

  /** And so is a change planned for the first cycle. */
  lemma PlannedForTheFirst(initial: Intent)
    requires initial.Usable()
    ensures var (seen, changes, again) := Replay(initial, [Step(1, Whole(initial), 0, "")], [QUIET]);
            && seen == [InForce(initial, 2, SCHEDULED)] && changes == [Change(1, InForce(initial, 2, SCHEDULED))]
            && again == [Begin(initial)] && again != seen
  {
    var schedule := [Step(1, Whole(initial), 0, "")];
    WholeIsWhole(initial, initial);
    assert Acted(Begin(initial), []) == Begin(initial);
    assert Due(InForce(initial, 2, SCHEDULED), schedule, 1, 1, QUIET) == Some((InForce(initial, 2, SCHEDULED), 1));
    assert Acted(InForce(initial, 2, SCHEDULED), []) == InForce(initial, 2, SCHEDULED);
    AloneIsRead(initial, schedule, QUIET, InForce(initial, 2, SCHEDULED));
  }

  /** A run of one cycle, its record, and a replay of it. */
  lemma AloneIsRead(initial: Intent, schedule: seq<Step>, m: Meanwhile, read: InForce)
    requires var due := Due(Begin(initial), schedule, 0, 1, m); due.Some? && Acted(due.value.0, m.last) == read
    requires read.version != 0
    ensures var (seen, changes, again) := Replay(initial, schedule, [m]);
            seen == [read] && changes == [Change(1, read)] && again == [Begin(read.settings)]
  {
    var next := Due(Begin(initial), schedule, 0, 1, m).value.1;
    assert [m][1..] == [];
    assert Reads(read, schedule, next, 2, []) == [];
    var seen := Reads(Begin(initial), schedule, 0, 1, [m]);
    assert seen == [read];
    assert seen[1..] == [];
    assert Recorded(seen, 0, 1) == [Change(1, read)] + Recorded([], read.version, 2);
    var changes := [Change(1, read)];
    assert changes[1..] == [] && AsSchedule([]) == [];
    assert Quiet(1) == [QUIET] && Quiet(1)[1..] == [];
    var begin := Begin(read.settings);
    assert Acted(begin, []) == begin;
    assert Due(begin, [], 0, 1, QUIET) == Some((begin, 0));
    assert Reads(begin, [], 0, 2, []) == [];
    assert Reads(begin, [], 0, 1, [QUIET]) == [begin];
  }

  /** The schedule a record makes is one a run accepts: cycles from 1 on, in order, each
      change applying to what those before it left. */
  lemma ScheduleIsAccepted(initial: Intent, schedule: seq<Step>, meanwhiles: seq<Meanwhile>)
    requires initial.Usable() && forall k :: 0 <= k < |meanwhiles| ==> Signed(meanwhiles[k])
    ensures var (_, changes, _) := Replay(initial, schedule, meanwhiles);
            && (forall k :: 0 <= k < |changes| ==> changes[k].cycle >= 1)
            && (forall k, l :: 0 <= k < l < |changes| ==> changes[k].cycle < changes[l].cycle)
            && (forall k, s: Intent :: 0 <= k < |changes| ==> s.Patched(Whole(changes[k].inForce.settings)) == Ok(changes[k].inForce.settings))
  {
    var (seen, changes, _) := Replay(initial, schedule, meanwhiles);
    ReadsProgress(Begin(initial), schedule, 0, 1, meanwhiles);
    if seen != [] {
      FirstIsRecorded(Begin(initial), seen);
      VersionsIncrease(Begin(initial), seen, 0, 1);
    }
    forall k, s: Intent | 0 <= k < |changes|
      ensures s.Patched(Whole(changes[k].inForce.settings)) == Ok(changes[k].inForce.settings)
    {
      WholeIsWhole(s, changes[k].inForce.settings);
    }
  }
}
