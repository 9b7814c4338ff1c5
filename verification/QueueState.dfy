/** The job-level queue as a value, and what always holds of it:
    internal/queue/queue.go. Jobs are found by identity, which stands for the source's
    pointer to a queued job: the levels and the running list hold identities, and the jobs
    map holds what is known of each. */
module QueueState {
  import opened Basics
  import opened Work
  import opened Sorting

  // ---------- State ----------

  datatype Deadlines = Deadlines(levels: map<Priority, Time>, fallback: Time) {
    function For(priority: Priority): Time
    {
      if priority in levels then levels[priority] else fallback
    }
  }

  datatype Item = Item(
    job: Job,
    remaining: Effort,
    started: Option<Time>,
    moving: bool,
    reprioritised: bool,
    breached: bool,
    submitted: Priority,
    deadlineFrom: Time,
    exempt: bool,
    waiting: bool,
    breachedAsSubmitted: bool)

  type Jobs = map<JobId, Item>

  type Levels = map<Priority, seq<JobId>>

  datatype Queue = Queue(
    deadlines: Deadlines,
    arrivals: seq<Job>, next: nat,
    pending: seq<Job>, nextPending: nat,
    levels: Levels,
    running: seq<JobId>,
    now: Time,
    jobs: Jobs,
    exemptWaiting: int,
    submitted: int, completed: int, breached: int, breachedAsSubmitted: int, reprioritised: int,
    peakDepth: int)

  function LevelAt(levels: Levels, p: Priority): seq<JobId>
  {
    if p in levels then levels[p] else []
  }

  /** What a job's deadline is measured from. */
  function Origin(jobs: Jobs, id: JobId): Time { if id in jobs then jobs[id].deadlineFrom else 0 }

  /** Which of two jobs of one level goes first. It is total, so it settles where each job stands. */
  predicate Before(jobs: Jobs, a: JobId, b: JobId)
  {
    Origin(jobs, a) < Origin(jobs, b) || (Origin(jobs, a) == Origin(jobs, b) && a < b)
  }

  predicate Ranked(jobs: Jobs, level: seq<JobId>)
  {
    && (forall k :: 0 <= k < |level| ==> level[k] in jobs)
    && (forall k, l :: 0 <= k < l < |level| ==> Before(jobs, level[k], level[l]))
  }

  // ---------- What always holds ----------

  /** Whether a job waits at a level. */
  predicate Waits(jobs: Jobs, id: JobId, p: Priority)
  {
    id in jobs && jobs[id].waiting && jobs[id].job.priority == p
  }

  /** Each level holds exactly the jobs that wait at it, in deadline order, and no level is
      empty. */
  ghost predicate Placed(jobs: Jobs, levels: Levels)
  {
    && (forall p :: p in levels ==> levels[p] != [] && Ranked(jobs, levels[p]))
    && (forall p, id :: id in LevelAt(levels, p) <==> Waits(jobs, id, p))
  }

  predicate Distinct<T(==)>(s: seq<T>)
  {
    forall i, j :: 0 <= i < j < |s| ==> s[i] != s[j]
  }

  /** What one admitted job looks like at rest: not started and whole, started with work
      left, or done. */
  ghost predicate Sane(item: Item, id: JobId, isRunning: bool, now: Time)
  {
    && item.job.id == id
    && !item.moving
    && item.deadlineFrom <= now
    && item.job.submittedAt <= now
    && (item.waiting ==> item.started.None? && item.remaining == item.job.seconds && item.remaining > 0 && !isRunning)
    && (!item.waiting ==> item.started.Some? && item.remaining >= 0 && (isRunning <==> item.remaining > 0))
  }

  /** Each admitted job is in exactly one of waiting, running or completed. */
  ghost predicate Partitioned(q: Queue)
  {
    && Distinct(q.running)
    && (forall k :: 0 <= k < |q.running| ==> q.running[k] in q.jobs)
    && (forall id :: id in q.jobs ==> Sane(q.jobs[id], id, id in q.running, q.now))
  }

  predicate IsCompleted(item: Item) { !item.waiting && item.remaining <= 0 }

  predicate IsExempt(item: Item) { item.waiting && item.exempt }

  predicate IsBreached(item: Item) { item.breached }

  predicate IsBreachedAsSubmitted(item: Item) { item.breachedAsSubmitted }

  predicate IsReprioritised(item: Item) { item.reprioritised }

  /** The jobs of a kind. */
  function Those(jobs: Jobs, kind: Item -> bool): set<JobId> { set id | id in jobs && kind(jobs[id]) }

  /** Every counter is the number of jobs it counts, each once. */
  ghost predicate Counted(q: Queue)
  {
    && q.submitted == |q.jobs|
    && q.completed == |Those(q.jobs, IsCompleted)|
    && q.exemptWaiting == |Those(q.jobs, IsExempt)|
    && q.breached == |Those(q.jobs, IsBreached)|
    && q.breachedAsSubmitted == |Those(q.jobs, IsBreachedAsSubmitted)|
    && q.reprioritised == |Those(q.jobs, IsReprioritised)|
  }

  /** Work still to come, of one stream. */
  function Log(q: Queue): seq<Job>
    requires q.next <= |q.arrivals|
  {
    q.arrivals[q.next..]
  }

  function Handed(q: Queue): seq<Job>
    requires q.nextPending <= |q.pending|
  {
    q.pending[q.nextPending..]
  }

  predicate JobBefore(a: Job, b: Job)
  {
    a.submittedAt < b.submittedAt || (a.submittedAt == b.submittedAt && a.id < b.id)
  }

  ghost predicate Rising(jobs: seq<Job>)
  {
    && (forall i, j :: 0 <= i < j < |jobs| ==> JobBefore(jobs[i], jobs[j]))
    && (forall i, j :: 0 <= i < j < |jobs| ==> jobs[i].id != jobs[j].id)
  }

  /** Work to come takes some time to do, has identities of its own and is in order of
      submission. The log is all later than now once anything has been admitted; work
      handed over in flight is not earlier than now, and what is handed over for now has
      identities above every identity admitted before it. */
  ghost predicate Awaited(jobs: Jobs, now: Time, log: seq<Job>, handed: seq<Job>)
  {
    && Rising(log) && Rising(handed)
    && (forall i :: 0 <= i < |log| ==> log[i].id !in jobs && log[i].seconds > 0)
    && (forall i, id :: 0 <= i < |log| && id in jobs ==> log[i].submittedAt > now)
    && (forall i :: 0 <= i < |handed| ==> handed[i].submittedAt >= now && handed[i].seconds > 0)
    && (forall i :: 0 <= i < |handed| ==> handed[i].id !in jobs)
    && (forall i, id :: 0 <= i < |handed| && handed[i].submittedAt == now && id in jobs ==> id < handed[i].id)
    && (forall i, j :: 0 <= i < |handed| && 0 <= j < |log| ==> log[j].id != handed[i].id)
  }

  /** What holds of the work admitted, even in the middle of an operation. */
  ghost predicate Sound(q: Queue)
  {
    Placed(q.jobs, q.levels) && Partitioned(q) && Counted(q)
  }

  ghost predicate Valid(q: Queue)
  {
    && q.next <= |q.arrivals| && q.nextPending <= |q.pending|
    && Sound(q)
    && Awaited(q.jobs, q.now, Log(q), Handed(q))
  }

  // ---------- Counting ----------

  function Bit(b: bool): nat { if b then 1 else 0 }

  /** How changing or adding one job changes the count of a kind. */
  lemma Recount(jobs: Jobs, id: JobId, item: Item, kind: Item -> bool)
    ensures |Those(jobs[id := item], kind)| == |Those(jobs, kind)| - Bit(id in jobs && kind(jobs[id])) + Bit(kind(item))
  {
    var a, b := Those(jobs, kind), Those(jobs[id := item], kind);
    assert a - {id} == b - {id};
    WithOr(a, id);
    WithOr(b, id);
  }

  lemma WithOr(s: set<JobId>, id: JobId)
    ensures |s| == |s - {id}| + Bit(id in s)
  {
    assert s == if id in s then (s - {id}) + {id} else s - {id};
  }

  // ---------- Levels ----------

  function Drop(levels: Levels, p: Priority, id: JobId): Levels
  {
    var kept := Without(LevelAt(levels, p), id);
    if kept == [] then levels - {p} else levels[p := kept]
  }

  function Without(level: seq<JobId>, id: JobId): seq<JobId>
  {
    if level == [] then []
    else (if level[0] == id then [] else [level[0]]) + Without(level[1..], id)
  }

  /** The most urgent priority of some. */
  ghost function Highest(ps: set<Priority>): (p: Priority)
    requires ps != {}
    ensures p in ps && forall r :: r in ps ==> r <= p
  {
    HighestExists(ps);
    var p :| p in ps && forall r :: r in ps ==> r <= p;
    p
  }

  lemma {:induction false} HighestExists(ps: set<Priority>)
    requires ps != {}
    ensures exists p :: p in ps && forall r :: r in ps ==> r <= p
  {
    SomeMember(ps);
    var p: Priority :| p in ps;
    if ps != {p} {
      HighestExists(ps - {p});
      var r :| r in ps - {p} && forall x :: x in ps - {p} ==> x <= r;
      assert forall x :: x in ps ==> x == p || x in ps - {p};
      assert (if p < r then r else p) in ps;
    }
  }

  lemma {:induction false} WithoutKeeps(jobs: Jobs, level: seq<JobId>, id: JobId)
    requires Ranked(jobs, level)
    ensures Ranked(jobs, Without(level, id))
    ensures forall x :: x in Without(level, id) <==> x in level && x != id
  {
    if level != [] {
      var rest := level[1..];
      WithoutKeeps(jobs, rest, id);
      var r := Without(rest, id);
      assert level == [level[0]] + rest;
      forall k | 0 <= k < |r| ensures Before(jobs, level[0], r[k]) {
        assert r[k] in r;
        var l :| 0 <= l < |rest| && rest[l] == r[k];
        assert level[l + 1] == rest[l];
      }
    }
  }

  /** A job taken out of its level. */
  lemma DropKeeps(jobs: Jobs, levels: Levels, id: JobId, item: Item)
    requires Placed(jobs, levels)
    requires id in jobs && jobs[id].waiting && !item.waiting
    ensures Placed(jobs[id := item], Drop(levels, jobs[id].job.priority, id))
  {
    var p := jobs[id].job.priority;
    assert Waits(jobs, id, p);
    var jobs', levels' := jobs[id := item], Drop(levels, p, id);
    WithoutKeeps(jobs, levels[p], id);
    assert LevelAt(levels', p) == Without(levels[p], id);
    forall r | r != p ensures LevelAt(levels', r) == LevelAt(levels, r) {}
    forall r, x ensures x in LevelAt(levels', r) <==> Waits(jobs', x, r) {
      assert x in LevelAt(levels, r) <==> Waits(jobs, x, r);
    }
    forall r | r in levels' ensures levels'[r] != [] && Ranked(jobs', levels'[r]) {
      assert id in LevelAt(levels, r) <==> Waits(jobs, id, r);
      RankedElsewhere(jobs, jobs', levels'[r], id);
    }
  }

  /** A level without a job does not depend on that job. */
  lemma RankedElsewhere(jobs: Jobs, jobs': Jobs, level: seq<JobId>, id: JobId)
    requires Ranked(jobs, level) && id !in level
    requires forall x :: x in jobs && x != id ==> x in jobs' && jobs'[x].deadlineFrom == jobs[x].deadlineFrom
    ensures Ranked(jobs', level)
  {
    assert forall k :: 0 <= k < |level| ==> level[k] in level && level[k] != id;
  }

  /** A job put at the end of its level, behind everything already there. */
  lemma AppendKeeps(jobs: Jobs, levels: Levels, id: JobId, item: Item)
    requires Placed(jobs, levels)
    requires id !in jobs && item.waiting
    requires forall x :: Waits(jobs, x, item.job.priority) ==>
                           jobs[x].deadlineFrom < item.deadlineFrom || (jobs[x].deadlineFrom == item.deadlineFrom && x < id)
    ensures var p := item.job.priority;
            Placed(jobs[id := item], levels[p := LevelAt(levels, p) + [id]])
  {
    var p := item.job.priority;
    var jobs', levels' := jobs[id := item], levels[p := LevelAt(levels, p) + [id]];
    forall r, x ensures x in LevelAt(levels', r) <==> Waits(jobs', x, r) {
      assert x in LevelAt(levels, r) <==> Waits(jobs, x, r);
    }
    forall r | r in levels' ensures levels'[r] != [] && Ranked(jobs', levels'[r]) {
      var level := LevelAt(levels, r);
      assert id !in level;
      assert r in levels ==> Ranked(jobs, levels[r]);
      RankedElsewhere(jobs, jobs', level, id);
      forall k | 0 <= k < |level| && r == p ensures Before(jobs', level[k], id) {
        assert level[k] in level;
        assert Waits(jobs, level[k], p);
      }
    }
  }
}
