/** What a batch of completions or of locates leaves on record of each event, said of the batch and
    not of its steps: internal/workload/catalogue.go:103-208. */
module LocationRecord {
  import opened Basics
  import opened Work
  import opened Reference
  import opened CatalogueOps

  /** All of an event's picks are processed, or enough of them to solve for where it was. */
  ghost predicate AllDone(w: Workload, done: seq<bool>, e: nat)
    requires e < |w.events|
  {
    |DoneOf(w, done, e)| == w.events[e].picks
  }

  ghost predicate EnoughDone(w: Workload, done: seq<bool>, e: nat)
    requires e < |w.events|
  {
    |DoneOf(w, done, e)| >= MINIMUM_PICKS
  }

  /** What the solver makes of the picks processed, if there are enough of them. */
  ghost function Answer(w: Workload, done: seq<bool>, e: nat): Option<Location>
    requires w.WellFormed() && |done| == |w.jobs| && e < |w.events|
  {
    if EnoughDone(w, done, e) then w.solve(e, done[w.events[e].first..w.events[e].first + w.events[e].picks]) else None
  }

  /** An event solved at a moment from the picks then processed: with no answer nothing is
      different; with one, its first location is this if it had none, and its final location is
      this if it is of all its picks. */
  ghost predicate Solved(w: Workload, done: seq<bool>, at: Time, e: nat, was: Record, now: Record)
    requires w.WellFormed() && |done| == |w.jobs| && e < |w.events|
  {
    var answer := Answer(w, done, e);
    && now.pickAt == was.pickAt && now.processedAt == was.processedAt
    && (answer.None? ==> now == was)
    && (answer.Some? ==>
          && (was.located.Some? ==> now.located == was.located && now.locatedAt == was.locatedAt)
          && (was.located.None? ==> now.located == answer && now.locatedAt == Some(at))
          && (AllDone(w, done, e) ==> now.final == answer)
          && (!AllDone(w, done, e) ==> now.final == was.final))
  }

  /** Locates that finish together: every event named is solved from the picks processed, and no
      other event's record is touched, however often and in whatever order they are named. */
  lemma {:induction false} LocateOutcome(w: Workload, b: Book, at: Time, events: seq<int>)
    requires w.WellFormed() && Booked(w, b)
    requires forall k :: 0 <= k < |events| ==> 0 <= events[k] < |w.events|
    ensures var r := Locate(w, b, at, events).0;
            && Booked(w, r) && r.done == b.done
            && forall e: nat :: e < |w.events| ==>
                 if e in events then Solved(w, b.done, at, e, b.records[e], r.records[e]) else r.records[e] == b.records[e]
    decreases |events|
  {
    hide RecordBooked, Solved, DoneOf;
    if events != [] {
      var i, rest := events[0], events[1..];
      assert forall k :: 0 <= k < |rest| ==> rest[k] == events[k + 1];
      var next := Solve(w, b, at, i);
      SolveKeeps(w, b, at, i);
      SolveIsSolved(w, b, at, i);
      LocateOutcome(w, next, at, rest);
      var r := Locate(w, next, at, rest).0;
      if (i as int) in rest {
        SolvedAgain(w, b.done, at, i, b.records[i], next.records[i], r.records[i]);
      }
    }
  }

  lemma SolveIsSolved(w: Workload, b: Book, at: Time, i: nat)
    requires w.WellFormed() && Booked(w, b) && i < |w.events|
    ensures Solved(w, b.done, at, i, b.records[i], Solve(w, b, at, i).records[i])
  {
    assert RecordBooked(w, b, i);
    hide DoneOf;
  }

  /** Solving twice from the same picks at the same moment is solving once. */
  lemma SolvedAgain(w: Workload, done: seq<bool>, at: Time, e: nat, was: Record, then_: Record, now: Record)
    requires w.WellFormed() && |done| == |w.jobs| && e < |w.events|
    requires Solved(w, done, at, e, was, then_) && Solved(w, done, at, e, then_, now)
    ensures Solved(w, done, at, e, was, now)
  {
    hide Answer, DoneOf;
  }

  // ---------- Completions ----------

  /** Some of the jobs that finished are picks of an event. */
  ghost predicate Touches(w: Workload, finished: seq<JobId>, e: nat)
  {
    exists k :: 0 <= k < |finished| && 0 <= finished[k] < |w.jobs| && w.jobs[finished[k]].event == e
  }

  /** An event's picks as recorded, with those that just finished: each at the time it did. */
  ghost predicate PicksNoted(w: Workload, at: Time, finished: seq<JobId>, e: nat, was: Record, now: Record)
    requires e < |w.events|
  {
    && |was.pickAt| == |now.pickAt| == w.events[e].picks
    && forall k :: 0 <= k < w.events[e].picks ==>
         now.pickAt[k] == if (w.events[e].first + k) in finished then Some(at) else was.pickAt[k]
  }

  lemma {:induction false} NotedOutcome(w: Workload, b: Book, at: Time, finished: seq<JobId>, touched: seq<nat>)
    requires w.WellFormed() && Booked(w, b) && NoteAll(w, b, at, finished, touched).1.Ok?
    requires Distinct(touched) && forall k :: 0 <= k < |touched| ==> touched[k] < |w.events|
    ensures var (noted, r) := NoteAll(w, b, at, finished, touched);
            && Booked(w, noted)
            && Distinct(r.value) && (forall k :: 0 <= k < |r.value| ==> r.value[k] < |w.events|)
            && (forall e: nat :: e in r.value <==> e in touched || Touches(w, finished, e))
            && forall e: nat :: e < |w.events| ==>
                 && PicksNoted(w, at, finished, e, b.records[e], noted.records[e])
                 && noted.records[e] == b.records[e].(pickAt := noted.records[e].pickAt)
    decreases |finished|
  {
    hide RecordBooked, PicksNoted, Touches;
    NoteAllKeeps(w, b, at, finished, touched);
    if finished == [] {
      NothingNoted(w, b, at);
    } else {
      var id, rest := finished[0], finished[1..];
      NoteKeeps(w, b, at, id);
      var next, i := Note(w, b, at, id).value, w.jobs[id].event;
      var touched' := if i in touched then touched else touched + [i];
      NotedOutcome(w, next, at, rest, touched');
      var (noted, r) := NoteAll(w, next, at, rest, touched');
      forall e: nat ensures Touches(w, finished, e) <==> e == i || Touches(w, rest, e) {
        TouchesFirst(w, finished, e);
      }
      forall e: nat | e < |w.events| ensures PicksNoted(w, at, finished, e, b.records[e], noted.records[e]) {
        NotedThen(w, b, at, finished, e, noted.records[e]);
      }
    }
  }

  predicate Distinct(s: seq<nat>) { forall i, j :: 0 <= i < j < |s| ==> s[i] != s[j] }

  lemma NothingNoted(w: Workload, b: Book, at: Time)
    requires Sized(w, b)
    ensures forall e: nat :: e < |w.events| ==> PicksNoted(w, at, [], e, b.records[e], b.records[e])
    ensures forall e: nat :: !Touches(w, [], e)
  {
  }

  lemma TouchesFirst(w: Workload, finished: seq<JobId>, e: nat)
    requires finished != [] && 0 <= finished[0] < |w.jobs|
    ensures Touches(w, finished, e) <==> e == w.jobs[finished[0]].event || Touches(w, finished[1..], e)
  {
    var rest := finished[1..];
    if k :| 0 <= k < |rest| && 0 <= rest[k] < |w.jobs| && w.jobs[rest[k]].event == e {
      assert finished[k + 1] == rest[k];
    }
    if k :| 0 <= k < |finished| && 0 <= finished[k] < |w.jobs| && w.jobs[finished[k]].event == e {
      assert k > 0 ==> rest[k - 1] == finished[k];
    }
  }

  lemma NotedThen(w: Workload, b: Book, at: Time, finished: seq<JobId>, e: nat, now: Record)
    requires w.WellFormed() && Booked(w, b) && finished != [] && Note(w, b, at, finished[0]).Ok? && e < |w.events|
    requires PicksNoted(w, at, finished[1..], e, Note(w, b, at, finished[0]).value.records[e], now)
    ensures PicksNoted(w, at, finished, e, b.records[e], now)
  {
    hide RecordBooked;
    var id := finished[0];
    var i := w.jobs[id].event;
    assert finished == [id] + finished[1..];
    assert i < e ==> Apart(w.events[i], w.events[e]);
    assert i > e ==> Apart(w.events[e], w.events[i]);
  }

  /** An event some of whose picks just finished: processed now if that was the last of them, and
      solved at once unless solving waits for a locate. */
  ghost predicate Concluded(w: Workload, done: seq<bool>, at: Time, e: nat, was: Record, now: Record)
    requires w.WellFormed() && |done| == |w.jobs| && e < |w.events|
  {
    var timed := was.(processedAt := now.processedAt);
    && now.processedAt == (if was.processedAt.None? && AllDone(w, done, e) then Some(at) else was.processedAt)
    && if w.deferred then now == timed else Solved(w, done, at, e, timed, now)
  }

  lemma SettleConcludes(w: Workload, b: Book, at: Time, i: nat)
    requires w.WellFormed() && Booked(w, b) && i < |w.events|
    ensures var r := Settle(w, b, at, i);
            && Concluded(w, b.done, at, i, b.records[i], r.records[i])
            && forall e: nat :: e < |w.events| && e != i ==> r.records[e] == b.records[e]
  {
    hide DoneOf, Solve, Solved;
    var record := b.records[i];
    assert RecordBooked(w, b, i);
    var next := if record.processedAt.None? && b.processed[i] == w.events[i].picks
                then b.(records := b.records[i := record.(processedAt := Some(at))]) else b;
    forall e | 0 <= e < |w.events| ensures RecordBooked(w, next, e) {
      assert RecordBooked(w, b, e);
    }
    if !w.deferred {
      SolveKeeps(w, next, at, i);
      SolveIsSolved(w, next, at, i);
      assert Relocated(next.records[i], Solve(w, next, at, i).records[i]);
    }
  }

  lemma {:induction false} SettledOutcome(w: Workload, b: Book, at: Time, touched: seq<nat>)
    requires w.WellFormed() && Booked(w, b) && Distinct(touched) && forall k :: 0 <= k < |touched| ==> touched[k] < |w.events|
    ensures var r := SettleAll(w, b, at, touched);
            && Booked(w, r) && r.done == b.done
            && forall e: nat :: e < |w.events| ==>
                 if e in touched then Concluded(w, b.done, at, e, b.records[e], r.records[e]) else r.records[e] == b.records[e]
    decreases |touched|
  {
    hide RecordBooked, Settle, Concluded;
    if touched != [] {
      var i, rest := touched[0], touched[1..];
      SettleKeeps(w, b, at, i);
      SettleConcludes(w, b, at, i);
      assert i !in rest;
      SettledOutcome(w, Settle(w, b, at, i), at, rest);
    }
  }

  /** Jobs that finish together, once accepted: each is on its event's record at the time it
      finished and no other pick's time is different; the events named are those they are picks
      of, each once; each of those is processed now if that was the last of it, and solved from
      what is then processed unless solving waits for a locate; and no other event is touched. */
  lemma ObserveOutcome(w: Workload, b: Book, at: Time, finished: seq<JobId>)
    requires w.WellFormed() && Booked(w, b) && ObserveAll(w, b, at, finished).1.Ok?
    ensures var (r, touched) := ObserveAll(w, b, at, finished);
            && Booked(w, r)
            && Distinct(touched.value) && (forall e: nat :: e in touched.value <==> Touches(w, finished, e))
            && forall e: nat :: e < |w.events| ==>
                 && PicksNoted(w, at, finished, e, b.records[e], r.records[e])
                 && if Touches(w, finished, e) then Concluded(w, r.done, at, e, b.records[e].(pickAt := r.records[e].pickAt), r.records[e])
                    else r.records[e] == b.records[e].(pickAt := r.records[e].pickAt)
  {
    hide RecordBooked, NoteAll, SettleAll, Touches, Solved, DoneOf;
    var (noted, touched) := NoteAll(w, b, at, finished, []);
    NoteAllKeepsSize(w, b, at, finished, []);
    NotedOutcome(w, b, at, finished, []);
    SettledOutcome(w, noted, at, touched.value);
    forall e: nat | e < |w.events|
      ensures SettleAll(w, noted, at, touched.value).records[e].pickAt == noted.records[e].pickAt
    {
      if e in touched.value {
        ConcludedKeepsPicks(w, noted.done, at, e, noted.records[e], SettleAll(w, noted, at, touched.value).records[e]);
      }
    }
  }

  lemma ConcludedKeepsPicks(w: Workload, done: seq<bool>, at: Time, e: nat, was: Record, now: Record)
    requires w.WellFormed() && |done| == |w.jobs| && e < |w.events| && Concluded(w, done, at, e, was, now)
    ensures now.pickAt == was.pickAt
  {
  }

  // ---------- Over a whole run ----------

  /** A final location is what the solver makes of all its event's picks; and where solving does
      not wait for a locate, an event has it as soon as they are processed. */
  ghost predicate FinalsAreOfAll(w: Workload, b: Book)
    requires w.WellFormed() && Sized(w, b)
  {
    forall e: nat :: e < |w.events| ==> FinalIsOfAll(w, b.done, e, b.records[e])
  }

  ghost predicate FinalIsOfAll(w: Workload, done: seq<bool>, e: nat, record: Record)
    requires w.WellFormed() && |done| == |w.jobs| && e < |w.events|
  {
    && (record.final.Some? ==> AllDone(w, done, e) && record.final == Answer(w, done, e))
    && (!w.deferred && AllDone(w, done, e) ==> record.final == Answer(w, done, e))
  }

  lemma BlankFinals(w: Workload)
    requires w.WellFormed()
    ensures Sized(w, Blank(w)) && FinalsAreOfAll(w, Blank(w))
  {
    forall e: nat | e < |w.events| ensures FinalIsOfAll(w, Blank(w).done, e, Blank(w).records[e]) {
      assert DoneOf(w, Blank(w).done, e) == {};
    }
  }

  /** Completions and locates that are accepted keep it so. */
  lemma ObserveKeepsFinals(w: Workload, b: Book, at: Time, finished: seq<JobId>)
    requires w.WellFormed() && Booked(w, b) && ObserveAll(w, b, at, finished).1.Ok? && FinalsAreOfAll(w, b)
    ensures var r := ObserveAll(w, b, at, finished).0; Sized(w, r) && FinalsAreOfAll(w, r)
  {
    hide RecordBooked, ObserveAll, Touches, FinalIsOfAll, Concluded;
    ObserveKeeps(w, b, at, finished);
    ObserveOutcome(w, b, at, finished);
    var r := ObserveAll(w, b, at, finished).0;
    forall e: nat | e < |w.events| ensures FinalIsOfAll(w, r.done, e, r.records[e]) {
      AllStaysDone(w, b.done, r.done, e);
      if Touches(w, finished, e) {
        ConcludedFinal(w, b.done, r.done, at, e, b.records[e], r.records[e]);
      } else {
        UntouchedStays(w, b.done, r.done, finished, e);
        FinalStays(w, b.done, r.done, e, b.records[e], r.records[e]);
      }
    }
  }

  lemma LocateKeepsFinals(w: Workload, b: Book, at: Time, events: seq<int>)
    requires w.WellFormed() && Booked(w, b) && FinalsAreOfAll(w, b)
    requires forall k :: 0 <= k < |events| ==> 0 <= events[k] < |w.events|
    ensures var r := Locate(w, b, at, events).0; Sized(w, r) && FinalsAreOfAll(w, r)
  {
    hide RecordBooked, Locate, DoneOf, Answer;
    LocateOutcome(w, b, at, events);
    var r := Locate(w, b, at, events).0;
    forall e: nat | e < |w.events| ensures FinalIsOfAll(w, r.done, e, r.records[e]) {
      assert FinalIsOfAll(w, b.done, e, b.records[e]);
    }
  }

  /** Picks are processed for good, and with all of them processed there is no more to process. */
  lemma AllStaysDone(w: Workload, before: seq<bool>, after: seq<bool>, e: nat)
    requires w.WellFormed() && |before| == |after| == |w.jobs| && e < |w.events|
    requires forall k :: 0 <= k < |w.jobs| && before[k] ==> after[k]
    ensures AllDone(w, before, e) ==> AllDone(w, after, e) && Answer(w, after, e) == Answer(w, before, e)
  {
    if AllDone(w, before, e) {
      var first, picks := w.events[e].first, w.events[e].picks;
      DoneIsInRange(w, after, e);
      assert DoneOf(w, before, e) <= DoneOf(w, after, e);
      Fewer(DoneOf(w, before, e), DoneOf(w, after, e));
      AllAreDone(w, before, e);
      AllAreDone(w, after, e);
      assert before[first..first + picks] == after[first..first + picks];
    }
  }

  lemma Fewer(a: set<int>, b: set<int>)
    requires a <= b
    ensures |a| <= |b|
  {
    assert b == a + (b - a);
  }

  lemma AllAreDone(w: Workload, done: seq<bool>, e: nat)
    requires w.WellFormed() && |done| == |w.jobs| && e < |w.events| && AllDone(w, done, e)
    ensures forall k :: w.events[e].first <= k < w.events[e].first + w.events[e].picks ==> done[k]
  {
    forall k | w.events[e].first <= k < w.events[e].first + w.events[e].picks ensures done[k] {
      if !done[k] {
        NotAll(w, done, e, k);
      }
    }
  }

  lemma NotAll(w: Workload, done: seq<bool>, e: nat, k: JobId)
    requires w.WellFormed() && |done| == |w.jobs| && e < |w.events|
    requires w.events[e].first <= k < w.events[e].first + w.events[e].picks && !done[k]
    ensures |DoneOf(w, done, e)| < w.events[e].picks
  {
    DoneIsInRange(w, done[k := true], e);
    assert DoneOf(w, done[k := true], e) == DoneOf(w, done, e) + {k};
  }

  lemma UntouchedStays(w: Workload, before: seq<bool>, after: seq<bool>, finished: seq<JobId>, e: nat)
    requires w.WellFormed() && |before| == |after| == |w.jobs| && e < |w.events| && !Touches(w, finished, e)
    requires forall k :: 0 <= k < |w.jobs| ==> (after[k] <==> before[k] || k in finished)
    ensures (AllDone(w, after, e) <==> AllDone(w, before, e)) && Answer(w, after, e) == Answer(w, before, e)
  {
    var first, picks := w.events[e].first, w.events[e].picks;
    forall k | first <= k < first + picks ensures after[k] == before[k] {
      PickIsOf(w, e, k);
      NotIfUntouched(w, finished, e, k);
    }
    assert DoneOf(w, after, e) == DoneOf(w, before, e);
    assert before[first..first + picks] == after[first..first + picks];
  }

  lemma PickIsOf(w: Workload, e: nat, k: JobId)
    requires w.WellFormed() && e < |w.events| && w.events[e].first <= k < w.events[e].first + w.events[e].picks
    ensures 0 <= k < |w.jobs| && w.jobs[k].event == e
  {
    var mine, its := w.events[e], w.events[w.jobs[k].event];
    assert !Apart(mine, its) && !Apart(its, mine);
  }

  lemma NotIfUntouched(w: Workload, finished: seq<JobId>, e: nat, k: JobId)
    requires 0 <= k < |w.jobs| && w.jobs[k].event == e && !Touches(w, finished, e)
    ensures k !in finished
  {
    assert forall n :: 0 <= n < |finished| ==> finished[n] != k;
  }

  lemma FinalStays(w: Workload, before: seq<bool>, after: seq<bool>, e: nat, was: Record, now: Record)
    requires w.WellFormed() && |before| == |after| == |w.jobs| && e < |w.events| && FinalIsOfAll(w, before, e, was)
    requires (AllDone(w, after, e) <==> AllDone(w, before, e)) && Answer(w, after, e) == Answer(w, before, e)
    requires now.final == was.final
    ensures FinalIsOfAll(w, after, e, now)
  {
    hide AllDone, Answer;
  }

  lemma ConcludedFinal(w: Workload, before: seq<bool>, after: seq<bool>, at: Time, e: nat, was: Record, now: Record)
    requires w.WellFormed() && |before| == |after| == |w.jobs| && e < |w.events| && FinalIsOfAll(w, before, e, was)
    requires AllDone(w, before, e) ==> AllDone(w, after, e) && Answer(w, after, e) == Answer(w, before, e)
    requires Concluded(w, after, at, e, was.(pickAt := now.pickAt), now)
    ensures FinalIsOfAll(w, after, e, now)
  {
    hide AllDone, Answer;
  }

  // ---------- What the planner may read ----------

  /** The planner is told how many of each event's picks are still to be processed, where the event
      was first located, and which jobs are done. */
  lemma KnowsWhatIsLeft(w: Workload, b: Book, e: nat)
    requires w.WellFormed() && Booked(w, b) && e < |w.events|
    ensures var k := Knows(w, b);
            && |k.remaining| == |k.location| == |w.events|
            && k.remaining[e] == |set id | w.events[e].first <= id < w.events[e].first + w.events[e].picks && 0 <= id < |b.done| && !b.done[id]|
            && k.location[e] == b.records[e].located && k.finished == b.done
  {
    var first, picks := w.events[e].first, w.events[e].picks;
    var done, left := DoneOf(w, b.done, e), set id | first <= id < first + picks && 0 <= id < |b.done| && !b.done[id];
    var all := DoneOf(w, seq(|b.done|, _ => true), e);
    AllOfThem(w, e, |b.done|);
    assert all == done + left && done !! left;
    assert RecordBooked(w, b, e);
  }

  lemma AllOfThem(w: Workload, e: nat, n: nat)
    requires w.WellFormed() && e < |w.events| && n == |w.jobs|
    ensures |DoneOf(w, seq(n, _ => true), e)| == w.events[e].picks
  {
    RunSize(w.events[e].first, w.events[e].picks, DoneOf(w, seq(n, _ => true), e));
  }

  lemma {:induction false} RunSize(from: int, n: nat, ids: set<int>)
    requires forall id :: id in ids <==> from <= id < from + n
    ensures |ids| == n
    decreases n
  {
    if n == 0 {
      assert forall id :: id in ids ==> from <= id < from;
      assert ids == {};
    } else {
      RunSize(from, n - 1, ids - {from + n - 1});
    }
  }
}
