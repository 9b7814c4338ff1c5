/** The queue as it runs: internal/queue/queue.go. Its fields are updated in place by the
    source's own loops, with their early exits and their one-pass merge; every method is
    proved to do what the operation is for. */
module Simulator {
  import opened Basics
  import opened Work
  import opened Sorting
  import opened Orchestrator
  import opened QueueState
  import opened Admission
  import opened Serving
  import opened QueueOps
  import opened QueueLaws
  import opened Turning
  import opened OnePass
  import opened Snapshots

  class Simulator {
    const deadlines: Deadlines
    const arrivals: seq<Job>
    var next: nat
    var submittedWork: seq<Job>
    var nextSubmitted: nat
    var levels: Levels
    var running: seq<JobId>
    var now: Time
    var jobs: Jobs
    var exemptWaiting: int
    var submitted: int
    var completed: int
    var breached: int
    var breachedAsSubmitted: int
    var reprioritised: int
    var peakDepth: int

    function View(): Queue
      reads this
    {
      Queue(deadlines, arrivals, next, submittedWork, nextSubmitted, levels, running, now, jobs,
            exemptWaiting, submitted, completed, breached, breachedAsSubmitted, reprioritised, peakDepth)
    }

    /** A simulator over a job log, in any order. Its jobs have identities of their own, which
        rise among jobs of one submission time, and take some time to do. */
    constructor (log: seq<Job>, deadlines: Deadlines)
      requires forall i, j :: 0 <= i < j < |log| ==> log[i].id != log[j].id
      requires TiesRise(log)
      requires forall i :: 0 <= i < |log| ==> log[i].seconds > 0
      ensures View() == Queue(deadlines, StableSort(log, Earlier), 0, [], 0, map[], [], 0, map[], 0, 0, 0, 0, 0, 0, 0)
      ensures Valid(View())
      ensures forall i, j :: 0 <= i < j < |arrivals| ==> arrivals[i].submittedAt <= arrivals[j].submittedAt
    {
      this.deadlines := deadlines;
      arrivals := StableSort(log, Earlier);
      next, submittedWork, nextSubmitted := 0, [], 0;
      levels, running, now, jobs := map[], [], 0, map[];
      exemptWaiting, submitted, completed, breached, breachedAsSubmitted, reprioritised, peakDepth := 0, 0, 0, 0, 0, 0, 0;
      new;
      SortRises(log);
      var none: Jobs := map[];
      assert Those(none, IsCompleted) == {} && Those(none, IsExempt) == {} && Those(none, IsBreached) == {};
      assert Those(none, IsBreachedAsSubmitted) == {} && Those(none, IsReprioritised) == {};
      assert Log(View()) == arrivals;
      assert forall i, j :: 0 <= i < j < |arrivals| ==> JobBefore(arrivals[i], arrivals[j]);
      forall i | 0 <= i < |arrivals| ensures arrivals[i].seconds > 0 {
        var y := arrivals[i];
        assert y in arrivals;
      }
    }

    /** The queue as admission leaves it so far. */
    ghost function SoFar(q: Queue, to: Time): Queue
      requires q.next <= |q.arrivals| && q.nextPending <= |q.pending|
      reads this
    {
      Moved(q, to).(levels := levels, jobs := jobs, submitted := submitted)
    }

    method AdmitLog(to: Time, ghost q: Queue)
      requires next <= |arrivals| && nextSubmitted <= |submittedWork| && q == View()
      modifies this`next, this`levels, this`jobs, this`submitted
      ensures next == q.next + DueCount(Log(q), to)
      ensures AdmitAll(SoFar(q, to), q.pending[q.nextPending..q.nextPending + DueCount(Handed(q), to)]) == Admitted(q, to)
    {
      hide AdmitAll, Due, DueCount;
      ghost var end, handed := next + DueCount(Log(q), to), q.pending[q.nextPending..q.nextPending + DueCount(Handed(q), to)];
      DueSlices(q, to);
      while next < |arrivals| && arrivals[next].submittedAt <= to
        invariant q.next <= next <= end
        invariant AdmitAll(SoFar(q, to), arrivals[next..end] + handed) == Admitted(q, to)
      {
        assert next < end;
        assert arrivals[next..end] + handed == [arrivals[next]] + (arrivals[next + 1..end] + handed);
        AdmitFirst(SoFar(q, to), arrivals[next], arrivals[next + 1..end] + handed);
        AdmitJob(arrivals[next]);
        next := next + 1;
      }
      assert arrivals[next..end] + handed == handed;
    }

    method AdmitHanded(to: Time, ghost q: Queue)
      requires q.next <= |q.arrivals| && q.nextPending <= |q.pending|
      requires submittedWork == q.pending && nextSubmitted == q.nextPending
      requires AdmitAll(SoFar(q, to), q.pending[q.nextPending..q.nextPending + DueCount(Handed(q), to)]) == Admitted(q, to)
      modifies this`nextSubmitted, this`levels, this`jobs, this`submitted
      ensures nextSubmitted == q.nextPending + DueCount(Handed(q), to)
      ensures SoFar(q, to) == Admitted(q, to)
    {
      hide AdmitAll, Due, DueCount;
      ghost var end := q.nextPending + DueCount(Handed(q), to);
      DueSlices(q, to);
      while nextSubmitted < |submittedWork| && submittedWork[nextSubmitted].submittedAt <= to
        invariant q.nextPending <= nextSubmitted <= end
        invariant AdmitAll(SoFar(q, to), submittedWork[nextSubmitted..end]) == Admitted(q, to)
      {
        assert nextSubmitted < end;
        assert submittedWork[nextSubmitted..end] == [submittedWork[nextSubmitted]] + submittedWork[nextSubmitted + 1..end];
        AdmitFirst(SoFar(q, to), submittedWork[nextSubmitted], submittedWork[nextSubmitted + 1..end]);
        AdmitJob(submittedWork[nextSubmitted]);
        nextSubmitted := nextSubmitted + 1;
      }
      assert submittedWork[nextSubmitted..end] == [];
      AdmitNone(SoFar(q, to));
    }

    /** Everything submitted by now moved into the waiting levels: the log, then work handed
        over in flight. */
    method AdmitArrivals(to: Time)
      requires next <= |arrivals| && nextSubmitted <= |submittedWork|
      modifies this`next, this`nextSubmitted, this`levels, this`jobs, this`submitted
      ensures View().(now := to) == Admitted(old(View()), to)
    {
      ghost var q := View();
      AdmitLog(to, q);
      AdmitHanded(to, q);
    }

    /** One job into its level, its deadline starting to run. */
    method AdmitJob(job: Job)
      modifies this`levels, this`jobs, this`submitted
      ensures levels == old(levels)[job.priority := LevelAt(old(levels), job.priority) + [job.id]]
      ensures jobs == old(jobs)[job.id := Newly(job)]
      ensures submitted == old(submitted) + 1
    {
      levels := levels[job.priority := LevelAt(levels, job.priority) + [job.id]];
      jobs := jobs[job.id := Newly(job)];
      submitted := submitted + 1;
    }

    /** Both breach flags of a job about to start: against the level it holds, and against the one it
        was handed over at. */
    method JudgeStart(item: Item) returns (judged: Item, late: bool)
      modifies this`breached, this`breachedAsSubmitted
      ensures judged == Picked(deadlines, item, now).(waiting := item.waiting, started := item.started)
      ensures late <==> judged.breached && !item.breached
      ensures breached == old(breached) + Bit(late)
      ensures breachedAsSubmitted == old(breachedAsSubmitted) + Bit(judged.breachedAsSubmitted && !item.breachedAsSubmitted)
    {
      judged := item;
      if now - item.job.submittedAt > deadlines.For(item.submitted) && !item.breachedAsSubmitted {
        judged := judged.(breachedAsSubmitted := true);
        breachedAsSubmitted := breachedAsSubmitted + 1;
      }
      if item.breached || now - item.deadlineFrom <= deadlines.For(item.job.priority) {
        return judged, false;
      }
      breached := breached + 1;
      return judged.(breached := true), true;
    }

    /** The priorities present, most urgent first. */
    method SortedLevels() returns (out: seq<Priority>)
      ensures forall k, l :: 0 <= k < l < |out| ==> out[k] > out[l]
      ensures forall p :: p in out <==> p in levels
    {
      out := SortedKeys(levels.Keys);
    }

    static method SortedKeys(keys: set<Priority>) returns (out: seq<Priority>)
      ensures forall k, l :: 0 <= k < l < |out| ==> out[k] > out[l]
      ensures forall p :: p in out <==> p in keys
    {
      out := [];
      var left := keys;
      while left != {}
        invariant left <= keys
        invariant forall p :: p in keys <==> p in out || p in left
        invariant forall k, p :: 0 <= k < |out| && p in left ==> out[k] > p
        invariant forall k, l :: 0 <= k < l < |out| ==> out[k] > out[l]
        decreases left
      {
        HighestExists(left);
        var p :| p in left && forall r :: r in left ==> r <= p;
        out := out + [p];
        left := left - {p};
      }
    }

    /** The running list served from the front, finished jobs dropped from it as the loop goes; what the
        budget does not reach is as it was. */
    method ServeRunning(interval: Effort, budget: Effort) returns (left: Effort, finished: seq<JobId>)
      requires Sound(View()) && interval > 0 && budget > 0
      modifies this`running, this`jobs, this`completed
      ensures Sound(View()) && Servable(View(), ByUrgency(levels))
      ensures Servable(old(View()), Turns(old(View())))
      ensures Serve(Service(View(), left, finished, 0), ByUrgency(levels), interval) ==
              Serve(Service(old(View()), budget, [], 0), Turns(old(View())), interval)
    {
      hide Sound, Distinct, Serve, Give, ByUrgency;
      ghost var q := View();
      TurnsAreServable(q);
      finished, left := [], budget;
      var stillRunning: seq<JobId> := [];
      ghost var waiting := ByUrgency(levels);
      var i := 0;
      assert stillRunning + running[i..] == running && running[i..] + waiting == Turns(q);
      while i < |running| && left > 0
        invariant 0 <= i <= |running|
        invariant Sound(View().(running := stillRunning + running[i..]))
        invariant Servable(View().(running := stillRunning + running[i..]), running[i..] + waiting)
        invariant Serve(Service(View().(running := stillRunning + running[i..]), left, finished, 0), running[i..] + waiting, interval)
                  == Serve(Service(q, budget, [], 0), Turns(q), interval)
      {
        var id := running[i];
        ghost var rest := running[i + 1..];
        assert running[i..] == [id] + rest;
        assert stillRunning + ([id] + rest) == stillRunning + [id] + rest && [id] + rest + waiting == [id] + (rest + waiting);
        RunningTurn(Service(View().(running := stillRunning + running[i..]), left, finished, 0), stillRunning, id, rest, waiting, interval);
        var work := Share(interval, jobs[id].remaining, left);
        jobs := jobs[id := jobs[id].(remaining := jobs[id].remaining - work)];
        left := left - work;
        if jobs[id].remaining <= 0 {
          completed := completed + 1;
          finished := finished + [id];
        } else {
          stillRunning := stillRunning + [id];
        }
        i := i + 1;
      }
      ServeNoFurther(Service(View().(running := stillRunning + running[i..]), left, finished, 0), running[i..], waiting, interval);
      running := stillRunning + running[i..];
    }

    /** A waiting job started, its deadlines settled if it had not started before. */
    method PickUp(item: Item) returns (picked: Item, late: bool)
      requires item.started.None?
      modifies this`breached, this`breachedAsSubmitted
      ensures picked == Picked(deadlines, item, now)
      ensures picked.exempt == item.exempt && picked.remaining == item.remaining
      ensures late <==> picked.breached && !item.breached
      ensures breached == old(breached) + Bit(late)
      ensures breachedAsSubmitted == old(breachedAsSubmitted) + Bit(picked.breachedAsSubmitted && !item.breachedAsSubmitted)
    {
      picked, late := item, false;
      if item.started.None? {
        picked, late := JudgeStart(item.(started := Some(now)));
      }
      picked := picked.(waiting := false);
    }

    /** The head of a level picked up, and given its share. */
    method ServeHead(p: Priority, interval: Effort, budget: Effort) returns (work: Effort, done: bool, late: bool)
      requires p in levels && levels[p] != [] && levels[p][0] in jobs
      requires jobs[levels[p][0]].started.None?
      modifies this`levels, this`running, this`jobs, this`exemptWaiting, this`completed, this`breached, this`breachedAsSubmitted
      ensures var id := old(levels[p][0]);
              var item := old(jobs[id]);
              var picked := Picked(deadlines, item, now);
              && work == Share(interval, item.remaining, budget)
              && (done <==> item.remaining - work <= 0)
              && (late <==> picked.breached && !item.breached)
              && levels == old(levels)[p := old(levels[p])[1..]]
              && jobs == old(jobs)[id := picked.(remaining := item.remaining - work)]
              && running == (if done then old(running) else old(running) + [id])
              && exemptWaiting == old(exemptWaiting) - Bit(item.exempt)
              && completed == old(completed) + Bit(done)
              && breached == old(breached) + Bit(late)
              && breachedAsSubmitted == old(breachedAsSubmitted) + Bit(picked.breachedAsSubmitted && !item.breachedAsSubmitted)
    {
      hide Share, Picked;
      var id := levels[p][0];
      var item := jobs[id];
      work := Share(interval, item.remaining, budget);
      item, late := PickUp(item);
      item := item.(remaining := item.remaining - work);
      levels, jobs := levels[p := levels[p][1..]], jobs[id := item];
      if item.exempt {
        exemptWaiting := exemptWaiting - 1;
      }
      done := item.remaining <= 0;
      if done {
        completed := completed + 1;
      } else {
        running := running + [id];
      }
    }

    /** One level served from the front, until it is empty or the budget is spent. */
    method ServeLevel(p: Priority, interval: Effort, budget: Effort, begun: seq<JobId>, lateBefore: nat, ghost whole: Service)
      returns (rest: Effort, finished: seq<JobId>, lateStarts: nat)
      requires p in levels && (forall r :: r in levels && r > p ==> levels[r] == []) && interval > 0
      requires Underway(View(), budget, begun, lateBefore, interval, whole)
      modifies this`levels, this`running, this`jobs, this`exemptWaiting, this`completed, this`breached, this`breachedAsSubmitted
      ensures levels.Keys == old(levels).Keys && forall r :: r in levels && r != p ==> levels[r] == old(levels)[r]
      ensures rest <= 0 || levels[p] == []
      ensures Underway(View(), rest, finished, lateStarts, interval, whole)
    {
      hide Underway, Picked, Share;
      rest, finished, lateStarts := budget, begun, lateBefore;
      while rest > 0 && levels[p] != []
        invariant levels.Keys == old(levels).Keys && forall r :: r in levels && r != p ==> levels[r] == old(levels)[r]
        invariant Underway(View(), rest, finished, lateStarts, interval, whole)
        decreases |levels[p]|
      {
        var id := levels[p][0];
        ghost var before := View();
        TurnReady(before, p, rest, finished, lateStarts, interval, whole);
        var work, done, late := ServeHead(p, interval, rest);
        assert HeadServed(before, View(), p, id, interval, rest, work, done, late);
        TurnTaken(before, View(), p, rest, finished, lateStarts, interval, whole, work, done, late);
        finished := finished + (if done then [id] else []);
        lateStarts := lateStarts + (if late then 1 else 0);
        rest := rest - work;
      }
    }

    /** The levels in turn, most urgent first, until they are empty or the budget is spent. */
    method ServeLevels(interval: Effort, budget: Effort, begun: seq<JobId>, ghost whole: Service)
      returns (finished: seq<JobId>, lateStarts: nat, ghost left: Effort)
      requires Underway(View(), budget, begun, 0, interval, whole) && interval > 0
      modifies this`levels, this`running, this`jobs, this`exemptWaiting, this`completed, this`breached, this`breachedAsSubmitted
      ensures left <= 0 || forall p :: p in levels ==> levels[p] == []
      ensures Underway(View(), left, finished, lateStarts, interval, whole)
    {
      hide Underway;
      var order := SortedLevels();
      var rest := budget;
      finished, lateStarts := begun, 0;
      var k := 0;
      while k < |order| && rest > 0
        invariant 0 <= k <= |order|
        invariant levels.Keys == old(levels).Keys
        invariant rest > 0 ==> forall j :: 0 <= j < k ==> LevelAt(levels, order[j]) == []
        invariant Underway(View(), rest, finished, lateStarts, interval, whole)
      {
        assert order[k] in order;
        forall r | r in levels && r > order[k] ensures levels[r] == [] {
          assert r in order;
        }
        rest, finished, lateStarts := ServeLevel(order[k], interval, rest, finished, lateStarts, whole);
        k := k + 1;
      }
      left := rest;
      forall p | left > 0 && p in levels ensures levels[p] == [] {
        assert p in order;
      }
    }

    /** Then whatever is waiting, until the budget is spent. */
    method ServeWaiting(interval: Effort, budget: Effort, begun: seq<JobId>) returns (finished: seq<JobId>, lateStarts: nat, ghost left: Effort)
      requires Sound(View()) && interval > 0
      requires Servable(View(), ByUrgency(levels))
      modifies this`levels, this`running, this`jobs, this`exemptWaiting, this`completed, this`breached, this`breachedAsSubmitted
      ensures Service(View(), left, finished, lateStarts) ==
              Serve(Service(old(View()), budget, begun, 0), ByUrgency(old(levels)), interval)
    {
      PrunedIsPlaced(View());
      ghost var whole := Serve(Service(View(), budget, begun, 0), ByUrgency(levels), interval);
      assert Underway(View(), budget, begun, 0, interval, whole);
      finished, lateStarts, left := ServeLevels(interval, budget, begun, whole);
      ServedOut(View(), left, finished, lateStarts, interval, whole);
      PruneEmptyLevels();
    }

    /** The interval's executor time spent: on work in progress, then on what waits. */
    method ServeInterval(interval: Effort, executors: nat) returns (finished: seq<JobId>, lateStarts: nat, ghost left: Effort)
      requires Sound(View()) && interval > 0
      modifies this`levels, this`running, this`jobs, this`exemptWaiting, this`completed, this`breached, this`breachedAsSubmitted
      ensures Service(View(), left, finished, lateStarts) == Served(old(View()), executors, interval)
    {
      hide Sound, Servable, Serve, ByUrgency;
      var budget := executors * interval;
      TurnsAreServable(View());
      if budget <= 0 {
        ServeNothing(Service(View(), budget, [], 0), Turns(View()), interval);
        return [], 0, budget;
      }
      var rest, begun := ServeRunning(interval, budget);
      finished, lateStarts, left := ServeWaiting(interval, rest, begun);
    }

    /** One level's breaches counted: from the front, as far as the first job in time. */
    method CountLevel(p: Priority, ghost q: Queue, ghost found: set<JobId>) returns (n: nat, ghost more: set<JobId>)
      requires Sound(q) && p in levels
      requires levels == q.levels && now == q.now && deadlines == q.deadlines
      requires FlaggedIn(q.jobs, jobs, found) && forall id :: id in levels[p] ==> id !in found
      modifies this`jobs
      ensures FlaggedIn(q.jobs, jobs, found + more) && n == |more|
      ensures forall id :: id in more <==> id in levels[p] && id in Overdue(q)
    {
      var deadline := deadlines.For(p);
      var level := levels[p];
      LevelIsWaiting(q, p);
      hide Sound;
      n, more := 0, {};
      var k := 0;
      while k < |level|
        invariant 0 <= k <= |level|
        invariant FlaggedIn(q.jobs, jobs, found + more) && n == |more|
        invariant forall id :: id in more <==> id in level[..k] && id in Overdue(q)
      {
        var item := jobs[level[k]];
        if !item.breached {
          if now - item.deadlineFrom <= deadline {
            break;
          }
          jobs := jobs[level[k] := item.(breached := true)];
          n, more := n + 1, more + {level[k]};
        }
        k := k + 1;
      }
      RestInTime(q, p, k);
    }

    /** Waiting jobs past their deadline counted, each once, level by level in no particular
        order. */
    method CountBreaches() returns (n: nat)
      requires Sound(View())
      modifies this`jobs, this`breached
      ensures View() == Flag(old(View()), Overdue(old(View())))
      ensures n == |Overdue(old(View()))|
    {
      hide Sound, LateNow, Overdue, Flag, FlaggedIn, CountedBut;
      ghost var q := View();
      n := 0;
      var left := levels.Keys;
      ghost var found: set<JobId> := {};
      NothingCounted(q);
      while left != {}
        invariant left <= levels.Keys && breached == q.breached
        invariant FlaggedIn(q.jobs, jobs, found) && n == |found|
        invariant CountedBut(q, found, left)
        decreases left
      {
        SomeMember(left);
        var p :| p in left;
        LevelUncounted(q, found, left, p);
        var m, more := CountLevel(p, q, found);
        LevelDone(q, found, left, p, more);
        n, found := n + m, found + more;
        left := left - {p};
      }
      AllCounted(q, jobs, found);
      breached := breached + n;
    }

    /** The clock moved to an instant. */
    method Advance(to: Time, executors: int) returns (progress: Progress)
      requires Valid(View()) && (to > now ==> StreamsInOrder(View(), to))
      modifies this
      ensures (View(), progress) == QueueOps.Advance(old(View()), to, executors)
    {
      hide Sound, Awaited, StreamsInOrder, Overdue, Flag, Served, Ready;
      if to <= now {
        return Progress(0, 0, []);
      }
      ReadyIsValid(View(), to);
      var interval := to - now;
      ghost var q := View();
      Prepare(to);
      ServedIsSound(View(), executors, interval);
      var ready := if executors < 0 then 0 else executors;
      ServedByNoFewerThanNone(View(), executors, interval);
      var finished, lateStarts, left := ServeInterval(interval, ready);
      var late := CountBreaches();
      progress := Progress(|finished|, lateStarts + late, finished);
    }

    /** The clock moved, everything due admitted, and the peak noted before any is served. */
    method Prepare(to: Time)
      requires next <= |arrivals| && nextSubmitted <= |submittedWork|
      modifies this`now, this`next, this`nextSubmitted, this`levels, this`jobs, this`submitted, this`peakDepth
      ensures View() == Ready(old(View()), to)
    {
      hide Depth, Admitted;
      ghost var q := View();
      now := to;
      AdmitArrivals(to);
      AdmittedClock(q, to);
      var depth := DepthNow();
      if depth > peakDepth {
        peakDepth := depth;
      }
    }

    /** How much is waiting or running. */
    method DepthNow() returns (total: nat)
      ensures total == Depth(View())
    {
      total := |running|;
      var left := levels.Keys;
      ghost var uncounted := levels;
      while left != {}
        invariant uncounted.Keys == left <= levels.Keys
        invariant forall p :: p in uncounted ==> uncounted[p] == levels[p]
        invariant total + |ByUrgency(uncounted)| == Depth(View())
        decreases left
      {
        SomeMember(left);
        var p :| p in left;
        ByUrgencyWithout(uncounted, p);
        total := total + |levels[p]|;
        left, uncounted := left - {p}, uncounted - {p};
      }
    }

    /** Work handed over in flight, as far as the first job whose identity is taken. */
    method Submit(batch: seq<Job>) returns (ok: bool)
      requires nextSubmitted <= |submittedWork|
      modifies this`submittedWork
      ensures (View(), ok) == QueueOps.Submit(old(View()), batch)
    {
      ghost var q := View();
      hide Earlier;
      var k := 0;
      assert batch[0..] == batch;
      while k < |batch|
        invariant 0 <= k <= |batch| && nextSubmitted <= |submittedWork|
        invariant HandAll(View(), batch[k..]) == HandAll(q, batch)
      {
        var job := batch[k];
        assert batch[k..][0] == job && batch[k..][1..] == batch[k + 1..];
        if job.id in jobs {
          return false;
        }
        var i := nextSubmitted;
        while i < |submittedWork|
          invariant nextSubmitted <= i <= |submittedWork|
          invariant forall l :: nextSubmitted <= l < i ==> submittedWork[l].id != job.id
        {
          if submittedWork[i].id == job.id {
            assert Handed(View())[i - nextSubmitted].id == job.id;
            return false;
          }
          i := i + 1;
        }
        assert forall l :: 0 <= l < |Handed(View())| ==> Handed(View())[l] == submittedWork[nextSubmitted + l];
        if job.submittedAt < now {
          job := job.(submittedAt := now);
        }
        submittedWork := submittedWork + [job];
        k := k + 1;
      }
      submittedWork := submittedWork[..nextSubmitted] + StableSort(submittedWork[nextSubmitted..], Earlier);
      return true;
    }

    /** An update noted on a waiting job, which is marked if it has to move. */
    method NoteOn(item: Item, at: Time, u: Update) returns (noted: Item, changed: bool)
      modifies this`exemptWaiting, this`reprioritised
      ensures noted == Noted(item, at, u)
      ensures exemptWaiting == old(exemptWaiting) + Bit(noted.exempt) - Bit(item.exempt)
      ensures reprioritised == old(reprioritised) + Bit(noted.reprioritised && !item.reprioritised)
      ensures changed <==> u.exempt != item.exempt || u.priority != item.job.priority
    {
      noted, changed := item, false;
      if u.exempt != noted.exempt {
        noted := noted.(exempt := u.exempt);
        if noted.exempt {
          exemptWaiting := exemptWaiting + 1;
        } else {
          exemptWaiting := exemptWaiting - 1;
        }
        changed := true;
      }
      if u.priority != noted.job.priority {
        noted := noted.(moving := true, job := noted.job.(priority := u.priority));
        if !noted.reprioritised {
          noted := noted.(reprioritised := true);
          reprioritised := reprioritised + 1;
        }
        if u.restart {
          noted := noted.(deadlineFrom := at);
        }
        changed := true;
      }
    }

    /** One update noted, unless the job has started; the levels are left for afterwards. */
    method MarkOne(at: Time, u: Update, moving: seq<JobId>, leaving: set<Priority>, ghost q: Queue, ghost target: Queue)
      returns (applied: Applied, movers: seq<JobId>, left: set<Priority>)
      requires Sound(q) && Marked(q, target, jobs, moving, leaving)
      requires View() == target.(levels := q.levels, jobs := jobs)
      modifies this`jobs, this`exemptWaiting, this`reprioritised
      ensures Marked(q, ApplyOne(target, at, u).0, jobs, movers, left)
      ensures View() == ApplyOne(target, at, u).0.(levels := q.levels, jobs := jobs)
      ensures applied == ApplyOne(target, at, u).1
    {
      hide Sound, Marked, Noted, Retargeted;
      movers, left := moving, leaving;
      MarkedSame(q, target, jobs, moving, leaving, u.job);
      if u.job !in jobs || !jobs[u.job].waiting {
        return Applied(0, 1), movers, left;
      }
      var item := jobs[u.job];
      MarkedStep(q, target, jobs, moving, leaving, at, u);
      if u.priority != item.job.priority && !item.moving {
        left := left + {item.job.priority};
        movers := movers + [u.job];
      }
      var noted, changed := NoteOn(item, at, u);
      jobs := jobs[u.job := noted];
      applied := Applied(if changed then 1 else 0, 0);
    }

    /** Every update noted, in turn; the levels are left for afterwards. */
    method MarkAll(at: Time, updates: seq<Update>)
      returns (applied: Applied, moving: seq<JobId>, leaving: set<Priority>, ghost target: Queue)
      requires Sound(View()) && at <= now
      modifies this`jobs, this`exemptWaiting, this`reprioritised
      ensures (target, applied) == ApplyAll(old(View()), at, updates)
      ensures Marked(old(View()), target, jobs, moving, leaving)
      ensures Sound(target) && View() == target.(levels := old(levels), jobs := jobs)
    {
      hide Sound, ApplyOne, ApplyAll, Marked;
      ghost var q := View();
      applied, moving, leaving, target := Applied(0, 0), [], {}, q;
      NothingMarked(q);
      assert updates[0..] == updates;
      var k := 0;
      while k < |updates|
        invariant 0 <= k <= |updates|
        invariant Sound(target) && Marked(q, target, jobs, moving, leaving)
        invariant View() == target.(levels := q.levels, jobs := jobs)
        invariant ApplyAll(target, at, updates[k..]).0 == ApplyAll(q, at, updates).0
        invariant applied.Plus(ApplyAll(target, at, updates[k..]).1) == ApplyAll(q, at, updates).1
      {
        var u := updates[k];
        ApplyFrom(target, at, updates, k);
        ApplyOneKeeps(target, at, u);
        var one, movers, left := MarkOne(at, u, moving, leaving, q, target);
        applied, moving, leaving, target := applied.Plus(one), movers, left, ApplyOne(target, at, u).0;
        k := k + 1;
      }
      ApplyNone(target, at, updates[k..]);
    }

    /** A level without those marked to leave it. */
    method Keep(level: seq<JobId>) returns (kept: seq<JobId>)
      requires forall k :: 0 <= k < |level| ==> level[k] in jobs
      ensures kept == Staying(jobs, level)
    {
      kept := [];
      var i := 0;
      assert level[0..] == level;
      while i < |level|
        invariant 0 <= i <= |level|
        invariant kept + Staying(jobs, level[i..]) == Staying(jobs, level)
      {
        assert level[i..][1..] == level[i + 1..];
        if !jobs[level[i]].moving {
          kept := kept + [level[i]];
        }
        i := i + 1;
      }
    }

    /** Everyone marked taken out of the levels they were at. */
    method TakeOut(leaving: set<Priority>)
      requires forall p, k :: 0 <= k < |LevelAt(levels, p)| ==> LevelAt(levels, p)[k] in jobs
      modifies this`levels
      ensures forall p :: LevelAt(levels, p) == if p in leaving then Staying(jobs, LevelAt(old(levels), p)) else LevelAt(old(levels), p)
    {
      var order := SortedKeys(leaving);
      var k := 0;
      while k < |order|
        invariant 0 <= k <= |order|
        invariant forall p :: LevelAt(levels, p) ==
                              if p in order[..k] then Staying(jobs, LevelAt(old(levels), p)) else LevelAt(old(levels), p)
      {
        var p := order[k];
        assert p !in order[..k];
        var kept := Keep(LevelAt(levels, p));
        levels := levels[p := kept];
        assert order[..k + 1] == order[..k] + [p];
        k := k + 1;
      }
      assert order[..k] == order;
    }

    /** The jobs taken out sorted into the levels they now belong at, their marks removed. */
    method Collect(moving: seq<JobId>, ghost goal: Jobs) returns (arriving: Levels)
      requires Distinct(moving) && forall id :: id in moving <==> id in jobs && jobs[id].moving
      requires goal.Keys == jobs.Keys && forall id :: id in jobs ==> jobs[id].(moving := false) == goal[id]
      modifies this`jobs
      ensures jobs == goal
      ensures forall p :: Ranked(goal, LevelAt(arriving, p))
      ensures forall p, id :: id in LevelAt(arriving, p) <==> id in moving && id in goal && goal[id].job.priority == p
    {
      hide Ranked, ArrivedSoFar, Distinct, StableSort, Before;
      var now := jobs;
      var before := (a: JobId, b: JobId) => Before(now, a, b);
      var sorted := StableSort(moving, before);
      MoversInOrder(jobs, goal, moving, before);
      assert sorted[0..] == sorted;
      NoneArrived(goal, sorted);
      arriving := map[];
      var k := 0;
      while k < |sorted|
        invariant 0 <= k <= |sorted|
        invariant jobs.Keys == goal.Keys
        invariant forall id :: id in jobs ==> jobs[id] == if id in sorted[k..] then goal[id].(moving := true) else goal[id]
        invariant ArrivedSoFar(goal, arriving, sorted, k)
      {
        var id := sorted[k];
        var p := jobs[id].job.priority;
        SortedOnce(goal, sorted, k);
        ArrivesNext(goal, arriving, sorted, k);
        jobs := jobs[id := jobs[id].(moving := false)];
        arriving := arriving[p := LevelAt(arriving, p) + [id]];
        k := k + 1;
      }
      assert sorted[..k] == sorted && sorted[k..] == [];
      AllArrived(goal, arriving, sorted);
      forall id | id in jobs ensures jobs[id] == goal[id] {}
    }

    /** The merge by two indices, proved to be the one specified, ties included. */
    method Merge(level: seq<JobId>, arriving: seq<JobId>) returns (out: seq<JobId>)
      ensures out == Merged(jobs, level, arriving)
    {
      hide Before;
      out := [];
      var i, j := 0, 0;
      assert level[0..] == level && arriving[0..] == arriving;
      while i < |level| && j < |arriving|
        invariant 0 <= i <= |level| && 0 <= j <= |arriving|
        invariant out + Merged(jobs, level[i..], arriving[j..]) == Merged(jobs, level, arriving)
      {
        assert level[i..][1..] == level[i + 1..] && arriving[j..][1..] == arriving[j + 1..];
        if Before(jobs, arriving[j], level[i]) {
          out := out + [arriving[j]];
          j := j + 1;
        } else {
          out := out + [level[i]];
          i := i + 1;
        }
      }
      out := out + level[i..];
      out := out + arriving[j..];
    }

    /** Every arriving job merged into the level it arrives at. */
    method MergeIn(arriving: Levels)
      requires forall p :: Ranked(jobs, LevelAt(levels, p)) && Ranked(jobs, LevelAt(arriving, p))
      requires forall p, id :: id in LevelAt(levels, p) ==> id !in LevelAt(arriving, p)
      modifies this`levels
      ensures forall p :: Ranked(jobs, LevelAt(levels, p))
      ensures forall p, id :: id in LevelAt(levels, p) <==> id in LevelAt(old(levels), p) || id in LevelAt(arriving, p)
    {
      hide Ranked, Merged;
      var order := SortedKeys(arriving.Keys);
      var k := 0;
      while k < |order|
        invariant 0 <= k <= |order|
        invariant forall p :: LevelAt(levels, p) ==
                              if p in order[..k] then Merged(jobs, LevelAt(old(levels), p), LevelAt(arriving, p)) else LevelAt(old(levels), p)
      {
        var p := order[k];
        assert p !in order[..k] && p in order;
        var merged := Merge(LevelAt(levels, p), arriving[p]);
        levels := levels[p := merged];
        assert order[..k + 1] == order[..k] + [p];
        k := k + 1;
      }
      assert order[..k] == order;
      forall p
        ensures Ranked(jobs, LevelAt(levels, p))
        ensures forall id :: id in LevelAt(levels, p) <==> id in LevelAt(old(levels), p) || id in LevelAt(arriving, p)
      {
        MergedKeeps(jobs, LevelAt(old(levels), p), LevelAt(arriving, p));
      }
    }

    /** Intent applied to work still waiting, in one pass: what has to move is taken out of
        its level, and merged in deadline order into another. */
    method Reprioritise(at: Time, updates: seq<Update>) returns (applied: Applied)
      requires Valid(View()) && at <= now
      modifies this`levels, this`jobs, this`exemptWaiting, this`reprioritised
      ensures (View(), applied) == ApplyAll(old(View()), at, updates)
    {
      hide Sound, Awaited, Marked, ApplyAll, Distinct;
      ghost var q := View();
      var moving, leaving;
      ghost var target;
      applied, moving, leaving, target := MarkAll(at, updates);
      MarkedHolds(q, target, jobs, moving, leaving);
      if |moving| == 0 {
        NoneMoved(q, target, jobs, moving, leaving);
        return;
      }
      Resettle(moving, leaving, q, target);
    }

    /** Everyone marked moved to the level they now belong at. */
    method Resettle(moving: seq<JobId>, leaving: set<Priority>, ghost q: Queue, ghost target: Queue)
      requires Sound(q) && Sound(target) && Marked(q, target, jobs, moving, leaving) && levels == q.levels
      modifies this`levels, this`jobs
      ensures levels == target.levels && jobs == target.jobs
    {
      hide Sound, Marked, Ranked, Distinct, Staying, Waits;
      MarkedHolds(q, target, jobs, moving, leaving);
      LevelsHoldJobs(q, jobs);
      TakeOut(leaving);
      TakenOut(q, target, jobs, moving, leaving, levels);
      ghost var staying := levels;
      var arriving := Collect(moving, target.jobs);
      forall p, id | id in LevelAt(levels, p) ensures id !in LevelAt(arriving, p) {
        assert !(Waits(target.jobs, id, p) && id !in moving) ==> id !in LevelAt(staying, p);
        assert id in LevelAt(arriving, p) ==> id in moving;
      }
      MergeIn(arriving);
      MergedIsPlaced(target, moving, staying, arriving, levels);
      PruneEmptyLevels();
    }

    /** Arrivals inside the rate window, per level: from where the clock has reached back to
        the first that is too old. */
    method RecentArrivals(window: Time) returns (counts: map<Priority, nat>)
      requires next <= |arrivals| && forall i, j :: 0 <= i < j < |arrivals| ==> arrivals[i].submittedAt <= arrivals[j].submittedAt
      ensures counts == Recent(arrivals[..next], now - window)
      ensures forall p :: p in counts ==> counts[p] > 0
    {
      hide RecentAt, Recent;
      counts := map[];
      var cutoff := now - window;
      var i := next;
      while i > 0
        invariant 0 <= i <= next
        invariant forall p :: CountAt(counts, p) + RecentAt(arrivals[..i], cutoff, p) == RecentAt(arrivals[..next], cutoff, p)
        invariant forall p :: p in counts ==> counts[p] > 0
      {
        var job := arrivals[i - 1];
        if job.submittedAt < cutoff {
          break;
        }
        LastOfRecent(arrivals, i, cutoff);
        counts := counts[job.priority := CountAt(counts, job.priority) + 1];
        i := i - 1;
      }
      forall p ensures RecentAt(arrivals[..i], cutoff, p) == 0 {
        NoneRecent(arrivals[..i], cutoff, p);
      }
      CountsAreRecent(arrivals[..next], cutoff, counts);
    }

    /** The per-level picture of the queue. */
    method Snapshot(at: Time, window: Time) returns (picture: Picture)
      requires Valid(View())
      requires forall i, j :: 0 <= i < j < |arrivals| ==> arrivals[i].submittedAt <= arrivals[j].submittedAt
      ensures picture == Whole(jobs, levels, at, Recent(arrivals[..next], now - window))
    {
      hide Recent, Awaited, Whole, Shown, Placed, Partitioned, Counted;
      var counts := RecentArrivals(window);
      var shown := ShowLevels(at, counts);
      picture := ArrivalsToo(shown, counts);
      PictureIsWhole(jobs, levels, at, counts, shown, picture);
    }

    method ShowLevels(at: Time, counts: map<Priority, nat>) returns (shown: Picture)
      requires Sound(View())
      ensures forall p :: p in shown <==> p in levels && levels[p] != []
      ensures forall p :: p in shown ==> shown[p] == Shown(jobs, levels[p], at, CountAt(counts, p))
    {
      hide Sound, AgeOf;
      LevelsHoldJobs(View(), jobs);
      shown := map[];
      var left := levels.Keys;
      while left != {}
        invariant left <= levels.Keys
        invariant forall p :: p in shown <==> p in levels && p !in left && levels[p] != []
        invariant forall p :: p in shown ==> shown[p] == Shown(jobs, levels[p], at, CountAt(counts, p))
        decreases left
      {
        SomeMember(left);
        var p :| p in left;
        if |levels[p]| > 0 {
          shown := shown[p := Snapshots.Snapshot(|levels[p]|, AgeOf(jobs, levels[p][0], at), CountAt(counts, p))];
        }
        left := left - {p};
      }
    }

    /** Levels with arrivals and no one waiting added to the picture. */
    method ArrivalsToo(shown: Picture, counts: map<Priority, nat>) returns (picture: Picture)
      ensures forall p :: p in picture <==> p in shown || (p in counts && counts[p] > 0)
      ensures forall p :: p in picture ==> picture[p] == if p in shown then shown[p] else Snapshots.Snapshot(0, 0, counts[p])
    {
      picture := shown;
      var left := counts.Keys;
      while left != {}
        invariant left <= counts.Keys
        invariant forall p :: p in picture <==> p in shown || (p in counts && p !in left && counts[p] > 0)
        invariant forall p :: p in picture ==> picture[p] == if p in shown then shown[p] else Snapshots.Snapshot(0, 0, counts[p])
        decreases left
      {
        SomeMember(left);
        var p :| p in left;
        if p !in picture && counts[p] != 0 {
          picture := picture[p := Snapshots.Snapshot(0, 0, counts[p])];
        }
        left := left - {p};
      }
    }

    /** One level's two halves: depth and the age of the first of each. */
    method SplitLevel(p: Priority, at: Time) returns (counted: Snapshot, exempt: Snapshot)
      requires p in levels && forall k :: 0 <= k < |levels[p]| ==> levels[p][k] in jobs
      ensures counted == Shown(jobs, Half(jobs, levels[p], false), at, 0)
      ensures exempt == Shown(jobs, Half(jobs, levels[p], true), at, 0)
    {
      hide AgeOf;
      var level := levels[p];
      counted, exempt := Snapshots.Snapshot(0, 0, 0), Snapshots.Snapshot(0, 0, 0);
      var k := 0;
      while k < |level|
        invariant 0 <= k <= |level|
        invariant counted == Shown(jobs, Half(jobs, level[..k], false), at, 0)
        invariant exempt == Shown(jobs, Half(jobs, level[..k], true), at, 0)
      {
        assert level[..k + 1][..k] == level[..k];
        var kind := if jobs[level[k]].exempt then exempt else counted;
        if kind.depth == 0 {
          kind := kind.(oldest := AgeOf(jobs, level[k], at));
        }
        kind := kind.(depth := kind.depth + 1);
        if jobs[level[k]].exempt {
          exempt := kind;
        } else {
          counted := kind;
        }
        k := k + 1;
      }
      assert level[..k] == level;
    }

    /** The picture in two halves: work that may be the reason capacity is bought, and work
        that may not. With nothing exempt it is not worth splitting. */
    method SnapshotByBurst(at: Time, window: Time) returns (counted: Picture, exempt: Picture)
      requires Valid(View())
      requires forall i, j :: 0 <= i < j < |arrivals| ==> arrivals[i].submittedAt <= arrivals[j].submittedAt
      ensures counted == CountedHalf(jobs, levels, at, Recent(arrivals[..next], now - window))
      ensures exempt == ExemptHalf(jobs, levels, at)
    {
      hide Recent, Sound, Awaited, CountedHalf, ExemptHalf, Whole, Half, Shown;
      if exemptWaiting == 0 {
        counted := Snapshot(at, window);
        ShortcutIsExact(View(), at, Recent(arrivals[..next], now - window));
        return counted, map[];
      }
      var counts := RecentArrivals(window);
      var shown;
      shown, exempt := SplitLevels(at, counts);
      counted := ArrivalsToo(shown, counts);
      HalvesAreWhole(jobs, levels, at, counts, shown, counted, exempt);
    }

    method SplitLevels(at: Time, counts: map<Priority, nat>) returns (counted: Picture, exempt: Picture)
      requires Sound(View())
      ensures forall p :: p in counted <==> p in levels && Half(jobs, levels[p], false) != []
      ensures forall p :: p in counted ==> counted[p] == Shown(jobs, Half(jobs, levels[p], false), at, CountAt(counts, p))
      ensures forall p :: p in exempt <==> p in levels && Half(jobs, levels[p], true) != []
      ensures forall p :: p in exempt ==> exempt[p] == Shown(jobs, Half(jobs, levels[p], true), at, 0)
    {
      hide Sound, AgeOf, Half;
      LevelsHoldJobs(View(), jobs);
      counted, exempt := map[], map[];
      var left := levels.Keys;
      while left != {}
        invariant left <= levels.Keys
        invariant forall p :: p in counted <==> p in levels && p !in left && Half(jobs, levels[p], false) != []
        invariant forall p :: p in counted ==> counted[p] == Shown(jobs, Half(jobs, levels[p], false), at, CountAt(counts, p))
        invariant forall p :: p in exempt <==> p in levels && p !in left && Half(jobs, levels[p], true) != []
        invariant forall p :: p in exempt ==> exempt[p] == Shown(jobs, Half(jobs, levels[p], true), at, 0)
        decreases left
      {
        SomeMember(left);
        var p :| p in left;
        forall k | 0 <= k < |levels[p]| ensures levels[p][k] in jobs {
          assert LevelAt(levels, p)[k] in jobs;
        }
        var a, b := SplitLevel(p, at);
        if a.depth > 0 {
          counted := counted[p := a.(arrived := CountAt(counts, p))];
        }
        if b.depth > 0 {
          exempt := exempt[p := b];
        }
        left := left - {p};
      }
    }

    /** Whether everything has arrived and been served. */
    method Done() returns (done: bool)
      requires Valid(View())
      ensures done <==> Drained(View())
    {
      var depth := DepthNow();
      done := next >= |arrivals| && nextSubmitted >= |submittedWork| && depth == 0 && |running| == 0;
    }

    /** Levels with no one left in them removed. */
    method PruneEmptyLevels()
      modifies this`levels
      ensures levels == Pruned(old(levels))
    {
      var left := levels.Keys;
      while left != {}
        invariant left <= levels.Keys <= old(levels).Keys
        invariant forall p :: p in levels ==> levels[p] == old(levels)[p]
        invariant forall p :: p in old(levels) ==> (p in levels <==> old(levels)[p] != [] || p in left)
        decreases left
      {
        SomeMember(left);
        var p :| p in left;
        if levels[p] == [] {
          levels := levels - {p};
        }
        left := left - {p};
      }
      assert forall p :: p in levels ==> p in old(levels).Keys;
      forall p ensures p in levels <==> p in Pruned(old(levels)) {}
      assert levels.Keys == Pruned(old(levels)).Keys;
      forall p | p in levels ensures levels[p] == Pruned(old(levels))[p] {}
    }
  }
}
