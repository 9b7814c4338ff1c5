/** What the queue's operations are for, on values, and what they keep:
    internal/queue/queue.go. Reprioritisation is stated here one update at a time, by taking
    a job out of its level and putting it in its place in another. */
module QueueOps {
  import opened Basics
  import opened Work
  import opened Sorting
  import opened Orchestrator
  import opened QueueState
  import opened Admission
  import opened Serving

  // ---------- An interval ----------

  ghost function Depth(q: Queue): nat { |Turns(q)| }

  /** The queue just before service: everything due admitted, and the peak noted. */
  ghost function Ready(q: Queue, to: Time): Queue
    requires q.next <= |q.arrivals| && q.nextPending <= |q.pending|
  {
    var admitted := Admitted(q, to);
    admitted.(peakDepth := Max(admitted.peakDepth, Depth(admitted)))
  }

  /** The interval's executor time spent on a queue that is ready. */
  ghost function Served(ready: Queue, executors: int, interval: Effort): Service
    requires Sound(ready)
  {
    TurnsAreServable(ready);
    Serve(Service(ready, Max(0, executors) * interval, [], 0), Turns(ready), interval)
  }

  /** The clock moved to an instant. Time only moves forward. */
  ghost function Advance(q: Queue, to: Time, executors: int): (Queue, Progress)
    requires Valid(q)
    requires to > q.now ==> StreamsInOrder(q, to)
  {
    if to <= q.now then (q, Progress(0, 0, []))
    else
      ReadyIsValid(q, to);
      var served := Served(Ready(q, to), executors, to - q.now);
      var overdue := Overdue(served.q);
      (Flag(served.q, overdue), Progress(|served.finished|, served.late + |overdue|, served.finished))
  }

  lemma ReadyIsValid(q: Queue, to: Time)
    requires Valid(q) && to > q.now && StreamsInOrder(q, to)
    ensures Valid(Ready(q, to))
  {
    AdmittedIsValid(q, to);
    var admitted := Admitted(q, to);
    assert Sound(Ready(q, to)) by {
      assert Placed(admitted.jobs, admitted.levels);
    }
  }

  lemma ServedIsSound(ready: Queue, executors: int, interval: Effort)
    requires Sound(ready) && interval > 0
    ensures var r := Served(ready, executors, interval);
            && Sound(r.q)
            && r.q.jobs.Keys == ready.jobs.Keys
            && r.q == ready.(levels := r.q.levels, running := r.q.running, jobs := r.q.jobs, exemptWaiting := r.q.exemptWaiting,
                             completed := r.q.completed, breached := r.q.breached, breachedAsSubmitted := r.q.breachedAsSubmitted)
            && r.late == r.q.breached - ready.breached
  {
    TurnsAreServable(ready);
    ServeKeeps(Service(ready, Max(0, executors) * interval, [], 0), Turns(ready), interval);
  }

  /** An interval keeps everything that holds, leaves no overdue waiting job uncounted, and
      reports as breached exactly what it adds to the count. */
  lemma AdvanceKeeps(q: Queue, to: Time, executors: int)
    requires Valid(q) && (to > q.now ==> StreamsInOrder(q, to))
    ensures var (r, progress) := Advance(q, to, executors);
            && Valid(r)
            && (to > q.now ==> Overdue(r) == {})
            && progress.breached == r.breached - q.breached
            && r.deadlines == q.deadlines && r.now == Max(to, q.now)
            && (to > q.now ==> r.jobs.Keys == Ready(q, to).jobs.Keys)
  {
    hide Served, Overdue, Flag, Sound, Awaited, Ready, StreamsInOrder;
    if to > q.now {
      ReadyIsValid(q, to);
      ReadyShape(q, to);
      FlaggedIsValid(Ready(q, to), executors, to - q.now);
    }
  }

  /** Service and counting on a queue that is ready. */
  lemma FlaggedIsValid(ready: Queue, executors: int, interval: Effort)
    requires Valid(ready) && interval > 0
    ensures var served := Served(ready, executors, interval);
            var r := Flag(served.q, Overdue(served.q));
            && Valid(r)
            && Overdue(r) == {}
            && served.late + |Overdue(served.q)| == r.breached - ready.breached
            && r.now == ready.now && r.deadlines == ready.deadlines
            && r.jobs.Keys == ready.jobs.Keys
  {
    hide Served, Overdue, Flag, Sound, Awaited;
    ServedIsSound(ready, executors, interval);
    var served := Served(ready, executors, interval).q;
    FlagKeeps(served);
    FlagShape(served, Overdue(served));
    AwaitedSame(ready, Flag(served, Overdue(served)));
  }

  lemma FlagShape(q: Queue, ids: set<JobId>)
    ensures var r := Flag(q, ids);
            && r == q.(jobs := r.jobs, breached := q.breached + |ids|) && r.jobs.Keys == q.jobs.Keys
            && (forall x :: x in q.jobs ==> r.jobs[x] == q.jobs[x].(breached := q.jobs[x].breached || x in ids))
  {
  }

  lemma ReadyShape(q: Queue, to: Time)
    requires Valid(q) && to > q.now
    ensures Ready(q, to).breached == q.breached && Ready(q, to).now == to && Ready(q, to).deadlines == q.deadlines
  {
    DueIsFresh(q, to);
    AdmitAllJobs(Moved(q, to), Due(q, to));
  }

  /** What is awaited does not depend on what becomes of admitted jobs. */
  lemma AwaitedSame(a: Queue, b: Queue)
    requires Valid(a) && Sound(b)
    requires b.jobs.Keys == a.jobs.Keys && b.now == a.now
    requires b.arrivals == a.arrivals && b.next == a.next && b.pending == a.pending && b.nextPending == a.nextPending
    ensures Valid(b)
  {
    assert forall x :: x in b.jobs <==> x in a.jobs.Keys;
  }

  // ---------- One update at a time ----------

  /** A level with a job put in its place. */
  function PutIn(jobs: Jobs, level: seq<JobId>, id: JobId): seq<JobId>
  {
    if level == [] || Before(jobs, id, level[0]) then [id] + level else [level[0]] + PutIn(jobs, level[1..], id)
  }

  /** What an update makes of the job it names. */
  function Retargeted(item: Item, at: Time, u: Update): Item
  {
    var moved := u.priority != item.job.priority;
    item.(exempt := u.exempt,
          job := item.job.(priority := u.priority),
          reprioritised := item.reprioritised || moved,
          deadlineFrom := if moved && u.restart then at else item.deadlineFrom)
  }

  /** One update applied: work already started is too late to move. */
  function ApplyOne(q: Queue, at: Time, u: Update): (Queue, Applied)
  {
    if u.job !in q.jobs || !q.jobs[u.job].waiting then (q, Applied(0, 1))
    else
      var item, next := q.jobs[u.job], Retargeted(q.jobs[u.job], at, u);
      var jobs := q.jobs[u.job := next];
      var rest := Drop(q.levels, item.job.priority, u.job);
      var p := next.job.priority;
      (q.(jobs := jobs,
          levels := if p == item.job.priority then q.levels else rest[p := PutIn(jobs, LevelAt(rest, p), u.job)],
          exemptWaiting := q.exemptWaiting + Bit(next.exempt) - Bit(item.exempt),
          reprioritised := q.reprioritised + Bit(next.reprioritised && !item.reprioritised)),
       Applied(if u.exempt != item.exempt || p != item.job.priority then 1 else 0, 0))
  }

  /** A batch of updates, one after the other. */
  function ApplyAll(q: Queue, at: Time, updates: seq<Update>): (Queue, Applied)
    decreases |updates|
  {
    if updates == [] then (q, Applied(0, 0))
    else
      var (q1, first) := ApplyOne(q, at, updates[0]);
      var (q2, rest) := ApplyAll(q1, at, updates[1..]);
      (q2, first.Plus(rest))
  }

  lemma {:induction false} PutInKeeps(jobs: Jobs, level: seq<JobId>, id: JobId)
    requires Ranked(jobs, level) && id in jobs && id !in level
    ensures Ranked(jobs, PutIn(jobs, level, id))
    ensures forall x :: x in PutIn(jobs, level, id) <==> x in level || x == id
  {
    if level != [] {
      assert level == [level[0]] + level[1..];
      if !Before(jobs, id, level[0]) {
        assert forall k :: 0 <= k < |level[1..]| ==> level[1..][k] == level[k + 1];
        PutInKeeps(jobs, level[1..], id);
        var r := PutIn(jobs, level[1..], id);
        forall k | 0 <= k < |r| ensures Before(jobs, level[0], r[k]) {
          assert r[k] in r;
          if r[k] != id {
            var l :| 0 <= l < |level[1..]| && level[1..][l] == r[k];
            assert Before(jobs, level[0], level[l + 1]);
          }
        }
      }
    }
  }

  /** A job put back in a level, wherever it now belongs. */
  lemma PutKeeps(jobs: Jobs, levels: Levels, id: JobId, item: Item)
    requires Placed(jobs, levels) && id in jobs && !jobs[id].waiting && item.waiting
    ensures var p, jobs' := item.job.priority, jobs[id := item];
            Placed(jobs', levels[p := PutIn(jobs', LevelAt(levels, p), id)])
  {
    var p, jobs' := item.job.priority, jobs[id := item];
    var levels' := levels[p := PutIn(jobs', LevelAt(levels, p), id)];
    forall r | r in levels ensures Ranked(jobs', levels[r]) && id !in levels[r] {
      assert id in LevelAt(levels, r) <==> Waits(jobs, id, r);
      RankedElsewhere(jobs, jobs', levels[r], id);
    }
    PutInKeeps(jobs', LevelAt(levels, p), id);
    forall r, x ensures x in LevelAt(levels', r) <==> Waits(jobs', x, r) {
      assert x in LevelAt(levels, r) <==> Waits(jobs, x, r);
    }
    assert id in levels'[p];
  }

  lemma ApplyOneKeeps(q: Queue, at: Time, u: Update)
    requires Sound(q) && at <= q.now
    ensures var r := ApplyOne(q, at, u).0;
            && Sound(r)
            && r.jobs.Keys == q.jobs.Keys
            && r == q.(jobs := r.jobs, levels := r.levels, exemptWaiting := r.exemptWaiting, reprioritised := r.reprioritised)
            && (forall x :: x in q.jobs && (x != u.job || !q.jobs[x].waiting) ==> r.jobs[x] == q.jobs[x])
  {
    hide Placed, Partitioned, Counted, Drop, PutIn;
    if u.job in q.jobs && q.jobs[u.job].waiting {
      RetargetedIsPlaced(q, at, u);
      RetargetedIsSane(q, at, u);
      RetargetedIsCounted(q, at, u);
    }
  }

  /** The job moved is in its place, and so is every other. */
  lemma RetargetedIsPlaced(q: Queue, at: Time, u: Update)
    requires Placed(q.jobs, q.levels) && u.job in q.jobs && q.jobs[u.job].waiting
    ensures var r := ApplyOne(q, at, u).0; Placed(r.jobs, r.levels)
  {
    hide Placed;
    var id, item, next := u.job, q.jobs[u.job], Retargeted(q.jobs[u.job], at, u);
    if next.job.priority == item.job.priority {
      RefiledSame(q.jobs, q.levels, id, next);
    } else {
      var gone := item.(waiting := false);
      DropKeeps(q.jobs, q.levels, id, gone);
      PutKeeps(q.jobs[id := gone], Drop(q.levels, item.job.priority, id), id, next);
      assert q.jobs[id := gone][id := next] == q.jobs[id := next];
    }
  }

  lemma RetargetedIsSane(q: Queue, at: Time, u: Update)
    requires Partitioned(q) && u.job in q.jobs && q.jobs[u.job].waiting && at <= q.now
    ensures Partitioned(ApplyOne(q, at, u).0) && ApplyOne(q, at, u).0.jobs.Keys == q.jobs.Keys
  {
    hide Drop, PutIn;
    assert Sane(q.jobs[u.job], u.job, u.job in q.running, q.now);
    assert q.jobs[u.job := Retargeted(q.jobs[u.job], at, u)].Keys == q.jobs.Keys;
  }

  lemma RetargetedIsCounted(q: Queue, at: Time, u: Update)
    requires Counted(q) && u.job in q.jobs && q.jobs[u.job].waiting
    ensures Counted(ApplyOne(q, at, u).0)
  {
    hide Drop, PutIn, Those;
    var id, next := u.job, Retargeted(q.jobs[u.job], at, u);
    Recount(q.jobs, id, next, IsCompleted);
    Recount(q.jobs, id, next, IsExempt);
    Recount(q.jobs, id, next, IsBreached);
    Recount(q.jobs, id, next, IsBreachedAsSubmitted);
    Recount(q.jobs, id, next, IsReprioritised);
    assert q.jobs[id := next].Keys == q.jobs.Keys;
  }

  /** Reprioritising keeps everything that holds. */
  lemma {:induction false} ApplyAllKeeps(q: Queue, at: Time, updates: seq<Update>)
    requires Sound(q) && at <= q.now
    ensures var r := ApplyAll(q, at, updates).0;
            && Sound(r)
            && r.jobs.Keys == q.jobs.Keys
            && r == q.(jobs := r.jobs, levels := r.levels, exemptWaiting := r.exemptWaiting, reprioritised := r.reprioritised)
    decreases |updates|
  {
    if updates != [] {
      ApplyOneKeeps(q, at, updates[0]);
      ApplyAllKeeps(ApplyOne(q, at, updates[0]).0, at, updates[1..]);
    }
  }

  /** Every update is either too late, or changes the job, or asks for what already is. */
  lemma {:induction false} AppliedAccounts(q: Queue, at: Time, updates: seq<Update>)
    ensures var applied := ApplyAll(q, at, updates).1;
            applied.changed + applied.tooLate <= |updates|
    decreases |updates|
  {
    if updates != [] {
      AppliedAccounts(ApplyOne(q, at, updates[0]).0, at, updates[1..]);
    }
  }

  // ---------- One way to place them ----------

  ghost predicate Within(a: seq<JobId>, b: seq<JobId>)
  {
    forall k :: 0 <= k < |a| ==> a[k] in b
  }

  lemma HeadIsLeast(jobs: Jobs, a: seq<JobId>, b: seq<JobId>)
    requires Ranked(jobs, a) && Ranked(jobs, b) && Within(a, b) && Within(b, a) && a != []
    ensures b != [] && a[0] == b[0]
  {
    assert a[0] in b;
    var i :| 0 <= i < |b| && b[i] == a[0];
    assert b[0] in a;
    var j :| 0 <= j < |a| && a[j] == b[0];
    assert i > 0 ==> Before(jobs, b[0], b[i]);
    assert j > 0 ==> Before(jobs, a[0], a[j]);
  }

  lemma TailWithin(jobs: Jobs, a: seq<JobId>, b: seq<JobId>)
    requires Ranked(jobs, a) && Within(a, b) && a != [] && b != [] && a[0] == b[0]
    ensures Ranked(jobs, a[1..]) && Within(a[1..], b[1..])
  {
    forall k | 0 <= k < |a[1..]| ensures a[1..][k] in b[1..] {
      assert Before(jobs, a[0], a[k + 1]);
      assert a[k + 1] in b;
      var l :| 0 <= l < |b| && b[l] == a[k + 1];
      assert b[1..][l - 1] == b[l];
    }
  }

  /** Two levels in order that hold the same jobs are the same level. */
  lemma {:induction false} RankedUnique(jobs: Jobs, a: seq<JobId>, b: seq<JobId>)
    requires Ranked(jobs, a) && Ranked(jobs, b) && Within(a, b) && Within(b, a)
    ensures a == b
  {
    hide Ranked, Within;
    if a != [] {
      HeadIsLeast(jobs, a, b);
      TailWithin(jobs, a, b);
      TailWithin(jobs, b, a);
      RankedUnique(jobs, a[1..], b[1..]);
      assert a == [a[0]] + a[1..] && b == [b[0]] + b[1..];
    } else if b != [] {
      HeadIsLeast(jobs, b, a);
    }
  }

  /** What each job is settles where every job waits: there is one way to place them. */
  lemma PlacedUnique(jobs: Jobs, a: Levels, b: Levels)
    requires Placed(jobs, a) && Placed(jobs, b)
    ensures a == b
  {
    forall p ensures LevelAt(a, p) == LevelAt(b, p) {
      var s, t := LevelAt(a, p), LevelAt(b, p);
      forall k | 0 <= k < |s| ensures s[k] in t {
        var x := s[k];
        assert x in s && Waits(jobs, x, p);
      }
      forall k | 0 <= k < |t| ensures t[k] in s {
        var x := t[k];
        assert x in t && Waits(jobs, x, p);
      }
      assert p in a ==> Ranked(jobs, a[p]);
      assert p in b ==> Ranked(jobs, b[p]);
      RankedUnique(jobs, s, t);
    }
    forall p ensures p in a <==> p in b {
      assert LevelAt(a, p) == LevelAt(b, p);
      assert p in a ==> a[p] != [];
      assert p in b ==> b[p] != [];
    }
    forall p ensures p in a.Keys <==> p in b.Keys {
      assert p in a <==> p in b;
    }
    assert a.Keys == b.Keys;
    forall p | p in a ensures a[p] == b[p] {
      assert LevelAt(a, p) == LevelAt(b, p);
    }
  }

  // ---------- Work handed over in flight ----------

  predicate Earlier(a: Job, b: Job) { a.submittedAt < b.submittedAt }

  /** Work that would be late on arrival counts from now. */
  function OnTime(job: Job, now: Time): Job { job.(submittedAt := Max(job.submittedAt, now)) }

  function AllOnTime(jobs: seq<Job>, now: Time): (r: seq<Job>)
    ensures |r| == |jobs| && forall i :: 0 <= i < |jobs| ==> r[i] == OnTime(jobs[i], now)
  {
    seq(|jobs|, i requires 0 <= i < |jobs| => OnTime(jobs[i], now))
  }

  predicate Pending(handed: seq<Job>, id: JobId) { exists i :: 0 <= i < |handed| && handed[i].id == id }

  /** Jobs handed over one by one; the first whose identity is taken refuses the rest. */
  function HandAll(q: Queue, jobs: seq<Job>): (r: (Queue, bool))
    requires q.nextPending <= |q.pending|
    ensures r.0.nextPending == q.nextPending <= |r.0.pending|
    decreases |jobs|
  {
    if jobs == [] then (q, true)
    else if jobs[0].id in q.jobs || Pending(Handed(q), jobs[0].id) then (q, false)
    else HandAll(q.(pending := q.pending + [OnTime(jobs[0], q.now)]), jobs[1..])
  }

  function Submit(q: Queue, jobs: seq<Job>): (Queue, bool)
    requires q.nextPending <= |q.pending|
  {
    var (r, ok) := HandAll(q, jobs);
    if ok then (r.(pending := r.pending[..r.nextPending] + StableSort(Handed(r), Earlier)), true) else (r, false)
  }

  /** Identities no one has: above every one admitted or pending, ascending, and not in the
      log to come. */
  ghost predicate FreshWork(q: Queue, jobs: seq<Job>)
    requires q.next <= |q.arrivals| && q.nextPending <= |q.pending|
  {
    && (forall i, j :: 0 <= i < j < |jobs| ==> jobs[i].id < jobs[j].id)
    && (forall i, x :: 0 <= i < |jobs| && x in q.jobs ==> x < jobs[i].id)
    && (forall i, j :: 0 <= i < |jobs| && 0 <= j < |Handed(q)| ==> Handed(q)[j].id < jobs[i].id)
    && (forall i, j :: 0 <= i < |jobs| && 0 <= j < |Log(q)| ==> Log(q)[j].id != jobs[i].id)
    && (forall i :: 0 <= i < |jobs| ==> jobs[i].seconds > 0)
  }

  /** Handing over in one piece: everything on time, behind what was pending. */
  lemma {:induction false} HandAllAppends(q: Queue, jobs: seq<Job>)
    requires q.nextPending <= |q.pending|
    requires forall i :: 0 <= i < |jobs| ==> jobs[i].id !in q.jobs && !Pending(Handed(q), jobs[i].id)
    requires forall i, j :: 0 <= i < j < |jobs| ==> jobs[i].id != jobs[j].id
    ensures HandAll(q, jobs) == (q.(pending := q.pending + AllOnTime(jobs, q.now)), true)
    decreases |jobs|
  {
    var onTime := AllOnTime(jobs, q.now);
    if jobs != [] {
      var next, rest := q.(pending := q.pending + [OnTime(jobs[0], q.now)]), jobs[1..];
      assert Handed(next) == Handed(q) + [OnTime(jobs[0], q.now)];
      forall i | 0 <= i < |rest| ensures !Pending(Handed(next), rest[i].id) {
        assert rest[i] == jobs[i + 1] && !Pending(Handed(q), jobs[i + 1].id);
        assert forall k :: 0 <= k < |Handed(q)| ==> Handed(q)[k].id != rest[i].id;
      }
      HandAllAppends(next, rest);
      assert q.pending + onTime == (q.pending + [OnTime(jobs[0], q.now)]) + AllOnTime(rest, q.now);
    } else {
      assert q.pending + onTime == q.pending;
    }
  }

  /** Among jobs for one moment, identities rise. */
  ghost predicate TiesRise(jobs: seq<Job>)
  {
    forall i, j :: 0 <= i < j < |jobs| && jobs[i].submittedAt == jobs[j].submittedAt ==> jobs[i].id < jobs[j].id
  }

  lemma {:induction false} InsertRises(x: Job, s: seq<Job>)
    requires Rising(s)
    requires forall i :: 0 <= i < |s| ==> s[i].id != x.id && (s[i].submittedAt == x.submittedAt ==> x.id < s[i].id)
    ensures Rising(Insert(x, s, Earlier))
    ensures forall y :: y in Insert(x, s, Earlier) <==> y == x || y in s
  {
    if s != [] && Earlier(s[0], x) {
      var rest := s[1..];
      assert forall i :: 0 <= i < |rest| ==> rest[i] == s[i + 1];
      InsertRises(x, rest);
      var r := Insert(x, rest, Earlier);
      assert s == [s[0]] + rest;
      HeadRises(s[0], x, rest, r);
    } else if s != [] {
      FirstRises(x, s);
    }
  }

  lemma HeadRises(head: Job, x: Job, rest: seq<Job>, r: seq<Job>)
    requires Rising([head] + rest) && Rising(r) && (forall y :: y in r ==> y == x || y in rest)
    requires Earlier(head, x) && head.id != x.id
    ensures Rising([head] + r)
  {
    forall i | 0 <= i < |r| ensures JobBefore(head, r[i]) && head.id != r[i].id {
      var y := r[i];
      assert y in r;
      if y in rest {
        var s := [head] + rest;
        var k :| 0 <= k < |rest| && rest[k] == y;
        assert s[0] == head && s[k + 1] == y;
      }
    }
  }

  lemma FirstRises(x: Job, s: seq<Job>)
    requires Rising(s) && s != [] && !Earlier(s[0], x)
    requires forall i :: 0 <= i < |s| ==> s[i].id != x.id && (s[i].submittedAt == x.submittedAt ==> x.id < s[i].id)
    ensures Rising([x] + s)
  {
    forall i | 0 <= i < |s| ensures JobBefore(x, s[i]) {
      assert i > 0 ==> JobBefore(s[0], s[i]);
    }
  }

  /** A stable sort by time leaves jobs in order of time and then identity. */
  lemma {:induction false} SortRises(s: seq<Job>)
    requires TiesRise(s) && forall i, j :: 0 <= i < j < |s| ==> s[i].id != s[j].id
    ensures Rising(StableSort(s, Earlier))
    ensures forall y :: y in StableSort(s, Earlier) <==> y in s
  {
    if s != [] {
      var rest := s[1..];
      assert forall i :: 0 <= i < |rest| ==> rest[i] == s[i + 1];
      SortRises(rest);
      var r := StableSort(rest, Earlier);
      forall i | 0 <= i < |r| ensures r[i].id != s[0].id && (r[i].submittedAt == s[0].submittedAt ==> s[0].id < r[i].id) {
        var y := r[i];
        assert y in r;
        var k :| 0 <= k < |rest| && rest[k] == y;
        assert s[k + 1] == y;
      }
      InsertRises(s[0], r);
      assert s == [s[0]] + rest;
    }
  }

  lemma SubmitSorts(q: Queue, jobs: seq<Job>)
    requires Valid(q) && FreshWork(q, jobs)
    ensures var r := q.pending[..q.nextPending] + StableSort(Handed(q) + AllOnTime(jobs, q.now), Earlier);
            && Submit(q, jobs) == (q.(pending := r), true)
            && r[q.nextPending..] == StableSort(Handed(q) + AllOnTime(jobs, q.now), Earlier)
  {
    hide Sound, Rising;
    forall i | 0 <= i < |jobs| ensures jobs[i].id !in q.jobs && !Pending(Handed(q), jobs[i].id) {
    }
    HandAllAppends(q, jobs);
    var handed := HandAll(q, jobs).0;
    assert Handed(handed) == Handed(q) + AllOnTime(jobs, q.now);
    assert handed.pending[..q.nextPending] == q.pending[..q.nextPending];
  }

  /** Fresh work is never refused, and joins what is pending in order of time. */
  lemma SubmitKeeps(q: Queue, jobs: seq<Job>)
    requires Valid(q) && FreshWork(q, jobs)
    ensures var (r, ok) := Submit(q, jobs);
            && ok && Valid(r)
            && r == q.(pending := r.pending) && |r.pending| == |q.pending| + |jobs|
            && (forall y :: y in Handed(r) <==> y in Handed(q) || y in AllOnTime(jobs, q.now))
  {
    var onTime := AllOnTime(jobs, q.now);
    var all := Handed(q) + onTime;
    SubmitSorts(q, jobs);
    JoinedTies(q, jobs, onTime);
    SortRises(all);
    var sorted := StableSort(all, Earlier);
    JoinedAwaited(q, jobs, sorted);
  }

  lemma JoinedTies(q: Queue, jobs: seq<Job>, onTime: seq<Job>)
    requires Valid(q) && FreshWork(q, jobs)
    requires |onTime| == |jobs| && forall i :: 0 <= i < |jobs| ==> onTime[i] == OnTime(jobs[i], q.now)
    ensures TiesRise(Handed(q) + onTime)
    ensures var all := Handed(q) + onTime; forall i, j :: 0 <= i < j < |all| ==> all[i].id != all[j].id
  {
    hide Sound;
  }

  lemma JoinedAwaited(q: Queue, jobs: seq<Job>, sorted: seq<Job>)
    requires Valid(q) && FreshWork(q, jobs) && Rising(sorted)
    requires forall y :: y in sorted <==> y in Handed(q) || y in AllOnTime(jobs, q.now)
    ensures Awaited(q.jobs, q.now, Log(q), sorted)
  {
    hide Sound, Rising;
    forall k | 0 <= k < |sorted|
      ensures sorted[k].submittedAt >= q.now && sorted[k].seconds > 0 && sorted[k].id !in q.jobs
      ensures sorted[k].submittedAt == q.now ==> forall x :: x in q.jobs ==> x < sorted[k].id
      ensures forall j :: 0 <= j < |Log(q)| ==> Log(q)[j].id != sorted[k].id
    {
      var y := sorted[k];
      assert y in sorted;
    }
  }
}
