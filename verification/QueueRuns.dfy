/** Whole runs of the queue, under every interleaving of its operations:
    internal/queue/queue.go and internal/queue/composition_test.go. */
module QueueRuns {
  import opened Basics
  import opened Work
  import opened Orchestrator
  import opened QueueState
  import opened Admission
  import opened Serving
  import opened QueueOps
  import opened QueueLaws

  /** What is done to a queue: an interval, work handed over, or intent applied now. */
  datatype Op = Tick(to: Time, executors: int) | Hand(jobs: seq<Job>) | Move(updates: seq<Update>)

  /** What the mine keeps to: streams that do not disorder a level, and fresh identities. */
  ghost predicate Allowed(q: Queue, op: Op)
    requires Valid(q)
  {
    match op
    case Tick(to, _) => to > q.now ==> StreamsInOrder(q, to)
    case Hand(jobs) => FreshWork(q, jobs)
    case Move(_) => true
  }

  ghost function Do(q: Queue, op: Op): Queue
    requires Valid(q) && Allowed(q, op)
  {
    match op
    case Tick(to, executors) => Advance(q, to, executors).0
    case Hand(jobs) => Submit(q, jobs).0
    case Move(updates) => ApplyAll(q, q.now, updates).0
  }

  /** Breaches an operation reports. */
  ghost function Reports(q: Queue, op: Op): nat
    requires Valid(q) && Allowed(q, op)
  {
    if op.Tick? then Advance(q, op.to, op.executors).1.breached else 0
  }

  /** Every operation keeps everything that holds, and adds to the breaches what it reports. */
  lemma DoKeeps(q: Queue, op: Op)
    requires Valid(q) && Allowed(q, op)
    ensures Valid(Do(q, op))
    ensures Do(q, op).breached == q.breached + Reports(q, op)
    ensures Do(q, op).deadlines == q.deadlines && Do(q, op).now >= q.now
  {
    hide Sound, Awaited, StreamsInOrder, FreshWork;
    match op
    case Tick(to, executors) =>
      AdvanceKeeps(q, to, executors);
    case Hand(jobs) =>
      SubmitKeeps(q, jobs);
    case Move(updates) =>
      ApplyAllKeeps(q, q.now, updates);
      AwaitedSame(q, ApplyAll(q, q.now, updates).0);
  }

  /** A run whose every operation is allowed when it comes. */
  ghost predicate Lawful(q: Queue, ops: seq<Op>)
    requires Valid(q)
    decreases |ops|
  {
    ops != [] ==> Allowed(q, ops[0]) && (DoKeeps(q, ops[0]); Lawful(Do(q, ops[0]), ops[1..]))
  }

  ghost function RunAll(q: Queue, ops: seq<Op>): (Queue, nat)
    requires Valid(q) && Lawful(q, ops)
    decreases |ops|
  {
    if ops == [] then (q, 0)
    else
      DoKeeps(q, ops[0]);
      var (r, reported) := RunAll(Do(q, ops[0]), ops[1..]);
      (r, Reports(q, ops[0]) + reported)
  }

  /** Over a whole run every level stays in deadline order, each admitted job is in exactly
      one of waiting, running or completed, every counter counts each job once, and the
      breaches reported interval by interval are the breaches counted. */
  lemma {:induction false} RunKeeps(q: Queue, ops: seq<Op>)
    requires Valid(q) && Lawful(q, ops)
    ensures Valid(RunAll(q, ops).0)
    ensures RunAll(q, ops).0.breached == q.breached + RunAll(q, ops).1
    decreases |ops|
  {
    hide Do, Reports, Allowed, Sound, Awaited;
    if ops != [] {
      DoKeeps(q, ops[0]);
      RunKeeps(Do(q, ops[0]), ops[1..]);
    }
  }

  // ---------- Two SLAs for one job: as submitted, and as judged ----------

  /** For a job whose priority was never changed the two are the same; no job is judged by
      what it was submitted under before it starts. */
  predicate Fair(d: Deadlines, item: Item, now: Time)
  {
    && item.job.submittedAt <= item.deadlineFrom
    && (item.waiting ==> !item.breachedAsSubmitted)
    && (!item.reprioritised ==>
          && item.job.priority == item.submitted
          && item.deadlineFrom == item.job.submittedAt
          && (item.waiting && item.breached ==> LateAsSubmitted(d, item, now))
          && (!item.waiting ==> (item.breached <==> item.breachedAsSubmitted)))
  }

  /** A job that was only ever relaxed is late by what it was submitted under whenever it is
      late by what it holds. */
  predicate Relaxed(d: Deadlines, item: Item, now: Time)
  {
    && item.job.submittedAt <= item.deadlineFrom
    && item.job.priority <= item.submitted
    && (item.waiting && item.breached ==> LateAsSubmitted(d, item, now))
    && (!item.waiting && item.breached ==> item.breachedAsSubmitted)
  }

  /** Deadlines never shorten at lower levels. */
  ghost predicate LowerIsLonger(d: Deadlines)
  {
    forall p: Priority, s: Priority :: p <= s ==> d.For(p) >= d.For(s)
  }

  ghost predicate AllFair(q: Queue) { forall x :: x in q.jobs ==> Fair(q.deadlines, q.jobs[x], q.now) }

  ghost predicate AllRelaxed(q: Queue) { forall x :: x in q.jobs ==> Relaxed(q.deadlines, q.jobs[x], q.now) }

  /** A batch that moves no waiting job above the priority it was submitted with. */
  ghost predicate Relaxes(q: Queue, updates: seq<Update>)
  {
    forall k :: 0 <= k < |updates| && updates[k].job in q.jobs ==> updates[k].priority <= q.jobs[updates[k].job].submitted
  }

  /** What an interval makes of a job is fair if the job was. */
  lemma FairStep(d: Deadlines, item: Item, now: Time, interval: Effort, left: Effort)
    requires Fair(d, item, now)
    ensures var served := Outcome(d, now, item, interval, left);
            Fair(d, served.(breached := served.breached || (served.waiting && LateNow(d, served, now))), now)
  {
  }

  lemma RelaxedStep(d: Deadlines, item: Item, now: Time, interval: Effort, left: Effort)
    requires LowerIsLonger(d) && Relaxed(d, item, now)
    ensures var served := Outcome(d, now, item, interval, left);
            Relaxed(d, served.(breached := served.breached || (served.waiting && LateNow(d, served, now))), now)
  {
    assert d.For(item.job.priority) >= d.For(item.submitted);
  }

  /** Every job that is ready is fair, and relaxed, if every job was. */
  lemma ReadyItem(q: Queue, to: Time, x: JobId)
    requires Valid(q) && to > q.now && x in Ready(q, to).jobs
    ensures AllFair(q) ==> Fair(q.deadlines, Ready(q, to).jobs[x], to)
    ensures AllRelaxed(q) ==> Relaxed(q.deadlines, Ready(q, to).jobs[x], to)
  {
    hide Ready, Sound, Awaited;
    ReadyJobs(q, to, x);
  }

  lemma TickIsFair(q: Queue, to: Time, executors: int)
    requires Valid(q) && to > q.now && StreamsInOrder(q, to)
    ensures AllFair(q) ==> AllFair(Advance(q, to, executors).0)
    ensures LowerIsLonger(q.deadlines) && AllRelaxed(q) ==> AllRelaxed(Advance(q, to, executors).0)
  {
    hide Sound, StreamsInOrder, Awaited, Fair, Relaxed, Advance, LowerIsLonger, Outcome, LateNow, Ready;
    var r := Advance(q, to, executors).0;
    AdvanceKeeps(q, to, executors);
    forall x | x in r.jobs
      ensures AllFair(q) ==> Fair(q.deadlines, r.jobs[x], to)
      ensures LowerIsLonger(q.deadlines) && AllRelaxed(q) ==> Relaxed(q.deadlines, r.jobs[x], to)
    {
      assert x in r.jobs.Keys;
      ReadyItem(q, to, x);
      var left := AdvancedItem(q, to, executors, x);
      var item := Ready(q, to).jobs[x];
      if Fair(q.deadlines, item, to) {
        FairStep(q.deadlines, item, to, to - q.now, left);
      }
      if LowerIsLonger(q.deadlines) && Relaxed(q.deadlines, item, to) {
        RelaxedStep(q.deadlines, item, to, to - q.now, left);
      }
    }
  }

  lemma {:induction false} MoveIsFair(q: Queue, updates: seq<Update>)
    requires Sound(q)
    ensures AllFair(q) ==> AllFair(ApplyAll(q, q.now, updates).0)
    ensures AllRelaxed(q) && Relaxes(q, updates) ==> AllRelaxed(ApplyAll(q, q.now, updates).0)
    decreases |updates|
  {
    if updates != [] {
      var r, u := ApplyOne(q, q.now, updates[0]).0, updates[0];
      ApplyOneKeeps(q, q.now, u);
      MoveOneIsFair(q, u);
      if Relaxes(q, updates) {
        assert forall k :: 0 <= k < |updates[1..]| ==> updates[1..][k] == updates[k + 1];
        assert forall x :: x in q.jobs ==> r.jobs[x].submitted == q.jobs[x].submitted;
      }
      MoveIsFair(r, updates[1..]);
    }
  }

  lemma MoveOneIsFair(q: Queue, u: Update)
    requires Sound(q)
    ensures AllFair(q) ==> AllFair(ApplyOne(q, q.now, u).0)
    ensures AllRelaxed(q) && (u.job in q.jobs ==> u.priority <= q.jobs[u.job].submitted) ==> AllRelaxed(ApplyOne(q, q.now, u).0)
    ensures forall x :: x in q.jobs ==> x in ApplyOne(q, q.now, u).0.jobs && ApplyOne(q, q.now, u).0.jobs[x].submitted == q.jobs[x].submitted
  {
    hide Placed, Counted;
    ApplyOneKeeps(q, q.now, u);
    if u.job in q.jobs {
      assert Sane(q.jobs[u.job], u.job, u.job in q.running, q.now);
    }
  }

  lemma DoIsFair(q: Queue, op: Op)
    requires Valid(q) && Allowed(q, op)
    ensures AllFair(q) ==> AllFair(Do(q, op))
    ensures LowerIsLonger(q.deadlines) && AllRelaxed(q) && (op.Move? ==> Relaxes(q, op.updates)) ==> AllRelaxed(Do(q, op))
  {
    hide Sound, Awaited, StreamsInOrder, FreshWork, Fair, Relaxed, LowerIsLonger, Relaxes;
    match op
    case Tick(to, executors) =>
      if to > q.now {
        TickIsFair(q, to, executors);
      }
    case Hand(jobs) =>
      SubmitKeeps(q, jobs);
    case Move(updates) =>
      ApplyAllKeeps(q, q.now, updates);
      MoveIsFair(q, updates);
  }

  /** A run in which every batch only relaxes. */
  ghost predicate OnlyRelaxes(q: Queue, ops: seq<Op>)
    requires Valid(q) && Lawful(q, ops)
    decreases |ops|
  {
    ops != [] ==>
      && (ops[0].Move? ==> Relaxes(q, ops[0].updates))
      && (DoKeeps(q, ops[0]); OnlyRelaxes(Do(q, ops[0]), ops[1..]))
  }

  lemma {:induction false} RunIsFair(q: Queue, ops: seq<Op>)
    requires Valid(q) && Lawful(q, ops)
    ensures RunAll(q, ops).0.deadlines == q.deadlines
    ensures AllFair(q) ==> AllFair(RunAll(q, ops).0)
    ensures LowerIsLonger(q.deadlines) && AllRelaxed(q) && OnlyRelaxes(q, ops) ==> AllRelaxed(RunAll(q, ops).0)
    decreases |ops|
  {
    hide Do, Reports, Allowed, Sound, Awaited, AllFair, AllRelaxed, LowerIsLonger, Relaxes;
    if ops != [] {
      DoKeeps(q, ops[0]);
      DoIsFair(q, ops[0]);
      RunIsFair(Do(q, ops[0]), ops[1..]);
    }
  }

  /** Once a queue is drained every job has started. */
  lemma DrainedHasStarted(q: Queue, x: JobId)
    requires Valid(q) && Drained(q) && x in q.jobs
    ensures !q.jobs[x].waiting
  {
    TurnsHold(q);
    var turns := Turns(q);
    assert x in turns <==> x in q.running || (x in q.jobs && q.jobs[x].waiting);
  }

  /** Decay only relaxes: if deadlines never shorten at lower levels and intent never raises a
      job above where it was submitted, a drained run has no more breaches than it would be
      charged under the SLA its work was submitted with. */
  lemma DecayOnlyRelaxes(q: Queue, ops: seq<Op>)
    requires Valid(q) && Lawful(q, ops) && OnlyRelaxes(q, ops)
    requires LowerIsLonger(q.deadlines) && AllRelaxed(q)
    requires Drained(RunAll(q, ops).0)
    ensures RunAll(q, ops).0.breached <= RunAll(q, ops).0.breachedAsSubmitted
  {
    RunKeeps(q, ops);
    RunIsFair(q, ops);
    RelaxedBreachesNoMore(RunAll(q, ops).0);
  }

  lemma RelaxedBreachesNoMore(q: Queue)
    requires Valid(q) && Drained(q) && AllRelaxed(q)
    ensures q.breached <= q.breachedAsSubmitted
  {
    var late, lateThen := Those(q.jobs, IsBreached), Those(q.jobs, IsBreachedAsSubmitted);
    forall x | x in late ensures x in lateThen {
      DrainedHasStarted(q, x);
      assert Relaxed(q.deadlines, q.jobs[x], q.now);
    }
    SubsetSize(late, lateThen);
  }

  lemma SubsetSize(a: set<JobId>, b: set<JobId>)
    requires a <= b
    ensures |a| <= |b|
  {
    assert b == a + (b - a);
  }

  /** Without reprioritisation both counts agree. */
  lemma UntouchedCountsAgree(q: Queue, ops: seq<Op>)
    requires Valid(q) && Lawful(q, ops) && AllFair(q)
    requires Drained(RunAll(q, ops).0)
    requires RunAll(q, ops).0.reprioritised == 0
    ensures RunAll(q, ops).0.breached == RunAll(q, ops).0.breachedAsSubmitted
  {
    RunKeeps(q, ops);
    RunIsFair(q, ops);
    FairBreachesAgree(RunAll(q, ops).0);
  }

  lemma FairBreachesAgree(q: Queue)
    requires Valid(q) && Drained(q) && AllFair(q) && q.reprioritised == 0
    ensures q.breached == q.breachedAsSubmitted
  {
    var late, lateThen := Those(q.jobs, IsBreached), Those(q.jobs, IsBreachedAsSubmitted);
    forall x ensures x in late <==> x in lateThen {
      if x in q.jobs {
        DrainedHasStarted(q, x);
        assert Fair(q.deadlines, q.jobs[x], q.now);
        assert x !in Those(q.jobs, IsReprioritised);
      }
    }
    assert late == lateThen;
  }
}
