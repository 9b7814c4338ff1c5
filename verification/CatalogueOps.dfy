/** What is recorded of picks and locations: internal/workload/catalogue.go. The solver that
    puts a location on an event from its processed picks is a parameter. */
module CatalogueOps {
  import opened Basics
  import opened Work
  import opened Reference

  // ---------- What is kept ----------

  /** A generated workload: its jobs by identity, and the run of them that is each event's
      picks. `solve` is the solver, given which of an event's picks are processed. */
  datatype Workload = Workload(jobs: seq<Job>, events: seq<EventWork>, deferred: bool, solve: (nat, seq<bool>) -> Option<Location>) {
    /** Every job is a pick of the one event in whose run it is. */
    ghost predicate WellFormed()
    {
      && (forall k :: 0 <= k < |jobs| ==>
            && 0 <= jobs[k].event < |events|
            && events[jobs[k].event].first <= k < events[jobs[k].event].first + events[jobs[k].event].picks)
      && (forall i :: 0 <= i < |events| ==> 0 <= events[i].first && events[i].first + events[i].picks <= |jobs|)
      && (forall i, j :: 0 <= i < j < |events| ==> Apart(events[i], events[j]))
    }
  }

  datatype Record = Record(
    pickAt: seq<Option<Time>>,
    processedAt: Option<Time>,
    locatedAt: Option<Time>,
    located: Option<Location>,
    final: Option<Location>)

  datatype Book = Book(done: seq<bool>, processed: seq<nat>, records: seq<Record>)

  function Blank(w: Workload): Book
  {
    Book(seq(|w.jobs|, _ => false), seq(|w.events|, _ => 0),
         seq(|w.events|, i requires 0 <= i < |w.events| => Untouched(w.events[i].picks)))
  }

  /** An event nothing is known of. */
  function Untouched(picks: nat): Record { Record(NoTimes(picks), None, None, None, None) }

  function NoTimes(n: nat): (r: seq<Option<Time>>)
    ensures |r| == n && forall k :: 0 <= k < n ==> r[k] == None
  {
    seq(n, _ => None)
  }

  predicate Sized(w: Workload, b: Book)
  {
    && |b.done| == |w.jobs| && |b.processed| == |w.events| && |b.records| == |w.events|
    && forall i :: 0 <= i < |w.events| ==> |b.records[i].pickAt| == w.events[i].picks
  }

  /** The picks of an event that are processed. */
  function DoneOf(w: Workload, done: seq<bool>, i: nat): set<JobId>
    requires i < |w.events|
  {
    set id | w.events[i].first <= id < w.events[i].first + w.events[i].picks && 0 <= id < |done| && done[id]
  }

  // ---------- What is done ----------

  /** One finished job recorded, if it is one of the mine's and not recorded already. */
  function Note(w: Workload, b: Book, at: Time, id: JobId): Result<Book>
    requires w.WellFormed() && Sized(w, b)
  {
    if id < 0 || id >= |w.jobs| || b.done[id] then Err
    else
      var i := w.jobs[id].event;
      var record := b.records[i];
      Ok(Book(b.done[id := true], b.processed[i := b.processed[i] + 1],
              b.records[i := record.(pickAt := record.pickAt[id - w.events[i].first := Some(at)])]))
  }

  /** Finished jobs recorded in turn, as far as the first that cannot be; with the events they
      were picks of, each once, in the order first met. */
  function NoteAll(w: Workload, b: Book, at: Time, finished: seq<JobId>, touched: seq<nat>): (r: (Book, Result<seq<nat>>))
    requires w.WellFormed() && Sized(w, b)
    decreases |finished|
  {
    if finished == [] then (b, Ok(touched))
    else
      match Note(w, b, at, finished[0])
      case Err => (b, Err)
      case Ok(next) =>
        var i := w.jobs[finished[0]].event;
        NoteAll(w, next, at, finished[1..], if i in touched then touched else touched + [i])
  }

  /** Which of an event's picks are processed, in order. */
  function PicksDone(w: Workload, b: Book, i: nat): seq<bool>
    requires w.WellFormed() && Sized(w, b) && i < |w.events|
  {
    b.done[w.events[i].first..w.events[i].first + w.events[i].picks]
  }

  /** A location put on an event, if it has the picks to solve for one: its first stands, and
      its final one is that of all its picks. */
  function Solve(w: Workload, b: Book, at: Time, i: nat): Book
    requires w.WellFormed() && Sized(w, b) && i < |w.events|
  {
    if b.processed[i] < MINIMUM_PICKS then b
    else
      var location := w.solve(i, PicksDone(w, b, i));
      if location.None? then b
      else
        var first := if b.records[i].locatedAt.None? then b.records[i].(locatedAt := Some(at), located := location) else b.records[i];
        b.(records := b.records[i := if b.processed[i] == w.events[i].picks then first.(final := location) else first])
  }

  /** An event some of whose picks were just processed. */
  function Settle(w: Workload, b: Book, at: Time, i: nat): Book
    requires w.WellFormed() && Sized(w, b) && i < |w.events|
  {
    var record := b.records[i];
    var next := if record.processedAt.None? && b.processed[i] == w.events[i].picks
                then b.(records := b.records[i := record.(processedAt := Some(at))]) else b;
    if w.deferred then next else Solve(w, next, at, i)
  }

  function SettleAll(w: Workload, b: Book, at: Time, touched: seq<nat>): (r: Book)
    requires w.WellFormed() && Sized(w, b) && forall k :: 0 <= k < |touched| ==> touched[k] < |w.events|
    decreases |touched|
  {
    if touched == [] then b else SettleAll(w, Settle(w, b, at, touched[0]), at, touched[1..])
  }

  function ObserveAll(w: Workload, b: Book, at: Time, finished: seq<JobId>): (r: (Book, Result<seq<nat>>))
    requires w.WellFormed() && Sized(w, b)
  {
    var (noted, touched) := NoteAll(w, b, at, finished, []);
    NoteAllKeepsSize(w, b, at, finished, []);
    if touched.Err? then (noted, Err) else (SettleAll(w, noted, at, touched.value), touched)
  }

  /** Events whose locate finished, solved in turn, as far as the first never detected. */
  function Locate(w: Workload, b: Book, at: Time, events: seq<int>): (Book, bool)
    requires w.WellFormed() && Sized(w, b)
    decreases |events|
  {
    if events == [] then (b, true)
    else if events[0] < 0 || events[0] >= |w.events| then (b, false)
    else Locate(w, Solve(w, b, at, events[0]), at, events[1..])
  }

  lemma {:induction false} NoteAllKeepsSize(w: Workload, b: Book, at: Time, finished: seq<JobId>, touched: seq<nat>)
    requires w.WellFormed() && Sized(w, b) && forall k :: 0 <= k < |touched| ==> touched[k] < |w.events|
    ensures var (noted, r) := NoteAll(w, b, at, finished, touched);
            Sized(w, noted) && (r.Ok? ==> forall k :: 0 <= k < |r.value| ==> r.value[k] < |w.events|)
    decreases |finished|
  {
    if finished != [] && Note(w, b, at, finished[0]).Ok? {
      var i := w.jobs[finished[0]].event;
      NoteAllKeepsSize(w, Note(w, b, at, finished[0]).value, at, finished[1..], if i in touched then touched else touched + [i]);
    }
  }

  // ---------- What always holds ----------

  /** The count of each event's processed picks is of those recorded; a location is only ever
      of four of them or more; a final one is of them all. */
  ghost predicate Booked(w: Workload, b: Book)
  {
    && Sized(w, b)
    && forall i :: 0 <= i < |w.events| ==> RecordBooked(w, b, i)
  }

  ghost predicate RecordBooked(w: Workload, b: Book, i: nat)
    requires Sized(w, b) && i < |w.events|
  {
    var record := b.records[i];
    && b.processed[i] == |DoneOf(w, b.done, i)|
    && (forall k :: 0 <= k < w.events[i].picks && w.events[i].first + k < |b.done| && w.events[i].first + k >= 0 ==>
          (record.pickAt[k].Some? <==> b.done[w.events[i].first + k]))
    && (record.located.Some? <==> record.locatedAt.Some?)
    && (record.located.Some? ==> b.processed[i] >= MINIMUM_PICKS)
    && (record.processedAt.Some? ==> b.processed[i] >= w.events[i].picks)
    && (record.final.Some? ==> b.processed[i] >= w.events[i].picks && record.located.Some?)
  }

  /** What the planner may read of the catalogue. */
  function Knows(w: Workload, b: Book): Catalogue
    requires Sized(w, b)
  {
    Catalogue(seq(|w.events|, i requires 0 <= i < |w.events| => Max(0, w.events[i].picks - b.processed[i])),
              seq(|w.events|, i requires 0 <= i < |w.events| => b.records[i].located),
              b.done)
  }

  lemma BlankIsKept(w: Workload)
    requires w.WellFormed()
    ensures Booked(w, Blank(w))
  {
    var b := Blank(w);
    forall i | 0 <= i < |w.events| ensures RecordBooked(w, b, i) {
      assert DoneOf(w, b.done, i) == {};
    }
  }

  lemma NoteDone(w: Workload, done: seq<bool>, id: JobId, i: nat)
    requires w.WellFormed() && |done| == |w.jobs| && 0 <= id < |w.jobs| && !done[id] && i < |w.events|
    ensures |DoneOf(w, done[id := true], i)| == |DoneOf(w, done, i)| + (if i == w.jobs[id].event then 1 else 0)
  {
    var e := w.jobs[id].event;
    assert i < e ==> Apart(w.events[i], w.events[e]);
    assert i > e ==> Apart(w.events[e], w.events[i]);
    assert id !in DoneOf(w, done, i);
    assert DoneOf(w, done[id := true], i) == DoneOf(w, done, i) + (if i == e then {id} else {});
  }

  lemma NoteKeepsRecord(w: Workload, b: Book, at: Time, id: JobId, i: nat)
    requires w.WellFormed() && Sized(w, b) && Note(w, b, at, id).Ok? && i < |w.events| && RecordBooked(w, b, i)
    ensures Sized(w, Note(w, b, at, id).value) && RecordBooked(w, Note(w, b, at, id).value, i)
  {
    NoteDone(w, b.done, id, i);
    hide DoneOf;
    var e := w.jobs[id].event;
    assert i < e ==> Apart(w.events[i], w.events[e]);
    assert i > e ==> Apart(w.events[e], w.events[i]);
  }

  /** Recording one finished job counts it for the event whose pick it is. */
  lemma NoteKeeps(w: Workload, b: Book, at: Time, id: JobId)
    requires w.WellFormed() && Booked(w, b)
    ensures var r := Note(w, b, at, id);
            && (r.Ok? <==> 0 <= id < |w.jobs| && !b.done[id])
            && (r.Ok? ==>
                  && Booked(w, r.value)
                  && r.value.done == b.done[id := true]
                  && Knows(w, r.value).location == Knows(w, b).location)
  {
    hide RecordBooked;
    var r := Note(w, b, at, id);
    if r.Ok? {
      forall i | 0 <= i < |w.events| ensures RecordBooked(w, r.value, i) {
        NoteKeepsRecord(w, b, at, id, i);
      }
    }
  }

  lemma DoneIsInRange(w: Workload, done: seq<bool>, i: nat)
    requires i < |w.events|
    ensures |DoneOf(w, done, i)| <= w.events[i].picks
  {
    InRange(w.events[i].first, w.events[i].picks, DoneOf(w, done, i));
  }

  lemma {:induction false} InRange(from: int, n: nat, ids: set<int>)
    requires forall id :: id in ids ==> from <= id < from + n
    ensures |ids| <= n
    decreases n
  {
    if n == 0 {
      assert forall id :: id !in ids;
      assert ids == {};
    } else {
      InRange(from, n - 1, ids - {from + n - 1});
      assert ids <= (ids - {from + n - 1}) + {from + n - 1};
      assert |ids| <= |ids - {from + n - 1}| + 1;
    }
  }

  /** A record but for what locating its event may change: its final location, and, if it had none,
      its first and when that was. */
  predicate Relocated(was: Record, now: Record)
  {
    && now == was.(locatedAt := now.locatedAt, located := now.located, final := now.final)
    && (was.located.Some? ==> now.located == was.located && now.locatedAt == was.locatedAt)
  }

  lemma SolveKeeps(w: Workload, b: Book, at: Time, i: nat)
    requires w.WellFormed() && Booked(w, b) && i < |w.events|
    ensures var r := Solve(w, b, at, i);
            && Booked(w, r) && r.done == b.done && r.processed == b.processed
            && (forall e :: 0 <= e < |w.events| && (e != i || b.records[e].located.Some?) ==> r.records[e].located == b.records[e].located)
            && (forall e :: 0 <= e < |w.events| && e != i ==> r.records[e] == b.records[e])
            && Relocated(b.records[i], r.records[i])
            && (r.records[i].located != b.records[i].located ==> exists d :: w.solve(i, d) == r.records[i].located)
            && (b.processed[i] >= MINIMUM_PICKS && w.solve(i, PicksDone(w, b, i)).Some? ==> r.records[i].located.Some?)
  {
    var r := Solve(w, b, at, i);
    assert RecordBooked(w, b, i);
    DoneIsInRange(w, b.done, i);
    forall e | 0 <= e < |w.events| ensures RecordBooked(w, r, e) {
      assert RecordBooked(w, b, e);
    }
  }

  lemma SettleKeeps(w: Workload, b: Book, at: Time, i: nat)
    requires w.WellFormed() && Booked(w, b) && i < |w.events|
    ensures var r := Settle(w, b, at, i);
            && Booked(w, r) && r.done == b.done && r.processed == b.processed
            && (forall e :: 0 <= e < |w.events| && (e != i || b.records[e].located.Some? || w.deferred) ==>
                  r.records[e].located == b.records[e].located)
            && (r.records[i].located != b.records[i].located ==> exists d :: w.solve(i, d) == r.records[i].located)
            && (r.records[i].processedAt.Some? <==> b.records[i].processedAt.Some? || b.processed[i] == w.events[i].picks)
  {
    var record := b.records[i];
    var next := if record.processedAt.None? && b.processed[i] == w.events[i].picks
                then b.(records := b.records[i := record.(processedAt := Some(at))]) else b;
    assert Booked(w, next) by {
      assert RecordBooked(w, b, i);
      forall e | 0 <= e < |w.events| ensures RecordBooked(w, next, e) {
        assert RecordBooked(w, b, e);
      }
    }
    hide Booked, Solve;
    if !w.deferred {
      SolveKeeps(w, next, at, i);
    }
  }

  /** Locations come from the solver and nowhere else. */
  ghost predicate FromSolver(w: Workload, b: Book)
    requires Sized(w, b)
  {
    forall i: nat :: i < |w.events| && b.records[i].located.Some? ==> exists d :: w.solve(i, d) == b.records[i].located
  }

  /** What any step of the catalogue's keeps: its counts, where its locations came from, and
      every location once made. */
  ghost predicate Onward(w: Workload, b: Book, r: Book)
    requires Sized(w, b)
  {
    && Booked(w, r)
    && (FromSolver(w, b) ==> FromSolver(w, r))
    && (forall i: nat :: i < |w.events| && b.records[i].located.Some? ==> r.records[i].located == b.records[i].located)
    && (forall k :: 0 <= k < |w.jobs| && b.done[k] ==> r.done[k])
  }

  lemma OnwardThen(w: Workload, a: Book, b: Book, c: Book)
    requires Sized(w, a) && Onward(w, a, b) && Onward(w, b, c)
    ensures Onward(w, a, c)
  {
    hide RecordBooked, FromSolver;
  }

  lemma OnwardSelf(w: Workload, b: Book)
    requires Booked(w, b)
    ensures Onward(w, b, b)
  {
  }

  /** What can be noted after the first is what could be noted with it. */
  lemma NotedFirst(before: seq<bool>, after: seq<bool>, finished: seq<JobId>)
    requires finished != [] && 0 <= finished[0] < |before| && !before[finished[0]] && after == before[finished[0] := true]
    ensures var rest := finished[1..];
            ((forall k :: 0 <= k < |rest| ==> 0 <= rest[k] < |after| && !after[rest[k]]) &&
             (forall k, l :: 0 <= k < l < |rest| ==> rest[k] != rest[l])) <==>
            ((forall k :: 0 <= k < |finished| ==> 0 <= finished[k] < |before| && !before[finished[k]]) &&
             (forall k, l :: 0 <= k < l < |finished| ==> finished[k] != finished[l]))
    ensures forall k :: k in finished <==> k == finished[0] || k in finished[1..]
  {
    var rest := finished[1..];
    assert finished == [finished[0]] + rest;
    if (forall k :: 0 <= k < |rest| ==> 0 <= rest[k] < |after| && !after[rest[k]]) && (forall k, l :: 0 <= k < l < |rest| ==> rest[k] != rest[l]) {
      forall k | 1 <= k < |finished| ensures 0 <= finished[k] < |before| && !before[finished[k]] && finished[k] != finished[0] {
        assert finished[k] == rest[k - 1];
      }
      forall k, l | 0 <= k < l < |finished| ensures finished[k] != finished[l] {
        assert k > 0 ==> finished[k] == rest[k - 1] && finished[l] == rest[l - 1];
      }
    }
    if (forall k :: 0 <= k < |finished| ==> 0 <= finished[k] < |before| && !before[finished[k]]) && (forall k, l :: 0 <= k < l < |finished| ==> finished[k] != finished[l]) {
      forall k | 0 <= k < |rest| ensures 0 <= rest[k] < |after| && !after[rest[k]] {
        assert rest[k] == finished[k + 1];
      }
      forall k, l | 0 <= k < l < |rest| ensures rest[k] != rest[l] {
        assert rest[k] == finished[k + 1] && rest[l] == finished[l + 1];
      }
    }
  }

  lemma {:induction false} NoteAllKeeps(w: Workload, b: Book, at: Time, finished: seq<JobId>, touched: seq<nat>)
    requires w.WellFormed() && Booked(w, b)
    ensures var (noted, r) := NoteAll(w, b, at, finished, touched);
            && (r.Ok? <==>
                  && (forall k :: 0 <= k < |finished| ==> 0 <= finished[k] < |w.jobs| && !b.done[finished[k]])
                  && (forall k, l :: 0 <= k < l < |finished| ==> finished[k] != finished[l]))
            && (r.Ok? ==>
                  && Onward(w, b, noted)
                  && (forall k :: 0 <= k < |w.jobs| ==> (noted.done[k] <==> b.done[k] || k in finished)))
    decreases |finished|
  {
    hide RecordBooked, Onward;
    OnwardSelf(w, b);
    if finished != [] {
      var id, rest := finished[0], finished[1..];
      NoteKeeps(w, b, at, id);
      if Note(w, b, at, id).Ok? {
        var next := Note(w, b, at, id).value;
        var i := w.jobs[id].event;
        var touched' := if i in touched then touched else touched + [i];
        NoteAllKeeps(w, next, at, rest, touched');
        NotedOnward(w, b, next, id);
        var (noted, r) := NoteAll(w, next, at, rest, touched');
        if r.Ok? {
          OnwardThen(w, b, next, noted);
        }
        NotedFirst(b.done, next.done, finished);
      }
    }
  }

  lemma NotedOnward(w: Workload, b: Book, next: Book, id: JobId)
    requires Booked(w, b) && Booked(w, next) && 0 <= id < |w.jobs|
    requires next.done == b.done[id := true] && Knows(w, next).location == Knows(w, b).location
    ensures Onward(w, b, next)
  {
    hide RecordBooked;
    forall i: nat | i < |w.events| ensures next.records[i].located == b.records[i].located {
      assert Knows(w, next).location[i] == Knows(w, b).location[i];
    }
  }

  lemma {:induction false} SettleAllKeeps(w: Workload, b: Book, at: Time, touched: seq<nat>)
    requires w.WellFormed() && Booked(w, b) && forall k :: 0 <= k < |touched| ==> touched[k] < |w.events|
    ensures Onward(w, b, SettleAll(w, b, at, touched)) && SettleAll(w, b, at, touched).done == b.done
    decreases |touched|
  {
    hide RecordBooked;
    if touched != [] {
      var next := Settle(w, b, at, touched[0]);
      SettleKeeps(w, b, at, touched[0]);
      SettledOnward(w, b, next, touched[0]);
      SettleAllKeeps(w, next, at, touched[1..]);
      OnwardThen(w, b, next, SettleAll(w, next, at, touched[1..]));
    }
  }

  lemma SettledOnward(w: Workload, b: Book, next: Book, i: nat)
    requires Booked(w, b) && Booked(w, next) && next.done == b.done && i < |w.events|
    requires forall e :: 0 <= e < |w.events| && (e != i || b.records[e].located.Some?) ==> next.records[e].located == b.records[e].located
    requires next.records[i].located != b.records[i].located ==> exists d :: w.solve(i, d) == next.records[i].located
    ensures Onward(w, b, next)
  {
    hide RecordBooked;
  }

  /** The catalogue takes in finished jobs exactly when each is one of the mine's, not taken in
      before and not named twice; and then it has exactly those more, has lost no location, and
      still counts every event's picks. */
  lemma ObserveKeeps(w: Workload, b: Book, at: Time, finished: seq<JobId>)
    requires w.WellFormed() && Booked(w, b)
    ensures var (next, r) := ObserveAll(w, b, at, finished);
            && (r.Ok? <==>
                  && (forall k :: 0 <= k < |finished| ==> 0 <= finished[k] < |w.jobs| && !b.done[finished[k]])
                  && (forall k, l :: 0 <= k < l < |finished| ==> finished[k] != finished[l]))
            && (r.Ok? ==>
                  && Onward(w, b, next)
                  && (forall k :: 0 <= k < |w.jobs| ==> (next.done[k] <==> b.done[k] || k in finished)))
  {
    hide RecordBooked, SettleAll, NoteAll;
    NoteAllKeeps(w, b, at, finished, []);
    NoteAllKeepsSize(w, b, at, finished, []);
    var (noted, touched) := NoteAll(w, b, at, finished, []);
    if touched.Ok? {
      SettleAllKeeps(w, noted, at, touched.value);
      OnwardThen(w, b, noted, SettleAll(w, noted, at, touched.value));
    }
  }

  /** Locates of events the mine detected are never refused. */
  lemma {:induction false} LocateKeeps(w: Workload, b: Book, at: Time, events: seq<int>)
    requires w.WellFormed() && Booked(w, b)
    ensures var (r, ok) := Locate(w, b, at, events);
            && (ok <==> forall k :: 0 <= k < |events| ==> 0 <= events[k] < |w.events|)
            && Onward(w, b, r) && r.done == b.done && r.processed == b.processed
            && (forall e :: 0 <= e < |w.events| ==> Relocated(b.records[e], r.records[e]))
            && (forall e: nat :: e < |w.events| && e !in events ==> r.records[e] == b.records[e])
    decreases |events|
  {
    hide RecordBooked;
    if events != [] {
      assert forall k :: 0 <= k < |events[1..]| ==> events[1..][k] == events[k + 1];
      if 0 <= events[0] < |w.events| {
        var next := Solve(w, b, at, events[0]);
        SolveKeeps(w, b, at, events[0]);
        SettledOnward(w, b, next, events[0]);
        LocateKeeps(w, next, at, events[1..]);
        OnwardThen(w, b, next, Locate(w, next, at, events[1..]).0);
      }
    }
  }

  /** What the planner knows only ever grows. */
  lemma OnwardFollows(w: Workload, b: Book, r: Book)
    requires Sized(w, b) && Onward(w, b, r)
    ensures Knows(w, r).Follows(Knows(w, b))
  {
    hide RecordBooked;
  }

  lemma SolveKeepsSize(w: Workload, b: Book, at: Time, i: nat)
    requires w.WellFormed() && Sized(w, b) && i < |w.events|
    ensures Sized(w, Solve(w, b, at, i))
  {
  }

  /** The catalogue in use: what it keeps is updated in place. */
  class MineCatalogue {
    const workload: Workload
    var done: seq<bool>
    var processed: seq<nat>
    var records: seq<Record>

    function View(): Book
      reads this
    {
      Book(done, processed, records)
    }

    constructor (workload: Workload)
      requires workload.WellFormed()
      ensures this.workload == workload && View() == Blank(workload)
    {
      this.workload := workload;
      done, processed := seq(|workload.jobs|, _ => false), seq(|workload.events|, _ => 0);
      records := seq(|workload.events|, i requires 0 <= i < |workload.events| => Untouched(workload.events[i].picks));
    }

    /** A location put on an event from the picks processed so far. */
    method SolveOne(i: nat, at: Time)
      requires workload.WellFormed() && Sized(workload, View()) && i < |workload.events|
      modifies this`records
      ensures View() == Solve(workload, old(View()), at, i)
    {
      if processed[i] < MINIMUM_PICKS {
        return;
      }
      var event := workload.events[i];
      var location := workload.solve(i, done[event.first..event.first + event.picks]);
      if location.None? {
        return;
      }
      if records[i].locatedAt.None? {
        records := records[i := records[i].(locatedAt := Some(at), located := location)];
      }
      if processed[i] == event.picks {
        records := records[i := records[i].(final := location)];
      }
      assert records == old(records)[i := records[i]];
    }

    /** A batch of completions taken in, proved to be ObserveAll, refusals included. */
    method ObserveFinished(at: Time, finished: seq<JobId>) returns (touched: Result<seq<nat>>)
      requires workload.WellFormed() && Sized(workload, View())
      modifies this
      ensures (View(), touched) == ObserveAll(workload, old(View()), at, finished)
    {
      NoteAllKeepsSize(workload, View(), at, finished, []);
      touched := NoteFinished(at, finished);
      if touched.Err? {
        return Err;
      }
      SettleTouched(at, touched.value);
    }

    method SettleTouched(at: Time, touched: seq<nat>)
      requires workload.WellFormed() && Sized(workload, View()) && forall k :: 0 <= k < |touched| ==> touched[k] < |workload.events|
      modifies this`records
      ensures View() == SettleAll(workload, old(View()), at, touched)
    {
      hide Solve;
      var k := 0;
      assert touched[0..] == touched;
      while k < |touched|
        invariant 0 <= k <= |touched| && Sized(workload, View())
        invariant SettleAll(workload, View(), at, touched[k..]) == SettleAll(workload, old(View()), at, touched)
      {
        assert touched[k..][0] == touched[k] && touched[k..][1..] == touched[k + 1..];
        var i := touched[k];
        if records[i].processedAt.None? && processed[i] == workload.events[i].picks {
          records := records[i := records[i].(processedAt := Some(at))];
        }
        SolveKeepsSize(workload, View(), at, i);
        if !workload.deferred {
          SolveOne(i, at);
        }
        k := k + 1;
      }
    }

    method NoteFinished(at: Time, finished: seq<JobId>) returns (touched: Result<seq<nat>>)
      requires workload.WellFormed() && Sized(workload, View())
      modifies this
      ensures (View(), touched) == NoteAll(workload, old(View()), at, finished, [])
    {
      var seen: seq<nat> := [];
      var k := 0;
      assert finished[0..] == finished;
      while k < |finished|
        invariant 0 <= k <= |finished| && Sized(workload, View())
        invariant NoteAll(workload, View(), at, finished[k..], seen) == NoteAll(workload, old(View()), at, finished, [])
      {
        assert finished[k..][0] == finished[k] && finished[k..][1..] == finished[k + 1..];
        var id := finished[k];
        if id < 0 || id >= |workload.jobs| {
          return Err;
        }
        if done[id] {
          return Err;
        }
        done := done[id := true];
        var event := workload.jobs[id].event;
        processed := processed[event := processed[event] + 1];
        var record := records[event];
        records := records[event := record.(pickAt := record.pickAt[id - workload.events[event].first := Some(at)])];
        if event !in seen {
          seen := seen + [event];
        }
        k := k + 1;
      }
      return Ok(seen);
    }

    /** Events whose locate finished, solved from the picks processed by then. */
    method LocateFinished(at: Time, events: seq<int>) returns (ok: bool)
      requires workload.WellFormed() && Sized(workload, View())
      modifies this`records
      ensures (View(), ok) == Locate(workload, old(View()), at, events)
    {
      var k := 0;
      assert events[0..] == events;
      while k < |events|
        invariant 0 <= k <= |events| && Sized(workload, View())
        invariant Locate(workload, View(), at, events[k..]) == Locate(workload, old(View()), at, events)
      {
        assert events[k..][0] == events[k] && events[k..][1..] == events[k + 1..];
        if events[k] < 0 || events[k] >= |workload.events| {
          return false;
        }
        SolveOne(events[k], at);
        k := k + 1;
      }
      return true;
    }
  }
}
