/** Why one pass over a batch of updates does what applying them one at a time does:
    internal/queue/queue.go:679-765. */
module OnePass {
  import opened Basics
  import opened Sorting
  import opened Orchestrator
  import opened QueueState
  import opened QueueOps
  import opened Turning

  /** What an update makes of the job it names, marked if it has to move. */
  function Noted(item: Item, at: Time, u: Update): Item
  {
    Retargeted(item, at, u).(moving := item.moving || u.priority != item.job.priority)
  }

  /** A job part way through a pass: but for its mark it is as the updates so far make it,
      and unless marked it is where it was. */
  ghost predicate Noting(was: Item, item: Item, goal: Item, leaving: set<Priority>)
  {
    && item.(moving := false) == goal
    && item.waiting == was.waiting
    && (item.moving ==> was.waiting && was.job.priority in leaving)
    && (!item.moving ==> item.job.priority == was.job.priority && item.deadlineFrom == was.deadlineFrom)
  }

  /** Updates noted on the jobs they name: but for the marks on the jobs that have to move,
      each job is as it would be had the updates been applied one at a time. */
  ghost predicate Marked(q: Queue, target: Queue, jobs: Jobs, moving: seq<JobId>, leaving: set<Priority>)
  {
    && jobs.Keys == q.jobs.Keys && target.jobs.Keys == q.jobs.Keys
    && (forall id :: id in q.jobs ==> Noting(q.jobs[id], jobs[id], target.jobs[id], leaving))
    && Distinct(moving)
    && (forall id :: id in moving <==> id in q.jobs && jobs[id].moving)
    && (forall p :: p in leaving ==> p in q.levels)
  }

  lemma NothingMarked(q: Queue)
    requires Sound(q)
    ensures Marked(q, q, q.jobs, [], {})
  {
    forall id | id in q.jobs ensures Noting(q.jobs[id], q.jobs[id], q.jobs[id], {}) && !q.jobs[id].moving {
      assert Sane(q.jobs[id], id, id in q.running, q.now);
    }
  }

  lemma MarkedSame(q: Queue, target: Queue, jobs: Jobs, moving: seq<JobId>, leaving: set<Priority>, id: JobId)
    requires Marked(q, target, jobs, moving, leaving)
    ensures (id in jobs <==> id in target.jobs) && (id in jobs <==> id in q.jobs)
    ensures id in jobs ==> Noting(q.jobs[id], jobs[id], target.jobs[id], leaving)
    ensures id in jobs ==> jobs[id].(moving := false) == target.jobs[id]
    ensures id in jobs ==> jobs[id].waiting == target.jobs[id].waiting && jobs[id].exempt == target.jobs[id].exempt
    ensures id in jobs ==> jobs[id].job == target.jobs[id].job && jobs[id].reprioritised == target.jobs[id].reprioritised
  {
    assert (id in jobs.Keys <==> id in target.jobs.Keys) && (id in jobs.Keys <==> id in q.jobs.Keys);
    if id in jobs {
      assert Noting(q.jobs[id], jobs[id], target.jobs[id], leaving);
    }
  }

  lemma NotedIsNoting(was: Item, item: Item, goal: Item, leaving: set<Priority>, at: Time, u: Update)
    requires Noting(was, item, goal, leaving) && item.waiting
    ensures var left := if u.priority != item.job.priority && !item.moving then leaving + {item.job.priority} else leaving;
            Noting(was, Noted(item, at, u), Retargeted(goal, at, u), left)
    ensures Noted(item, at, u).exempt == Retargeted(goal, at, u).exempt
    ensures Noted(item, at, u).reprioritised == Retargeted(goal, at, u).reprioritised
    ensures Retargeted(goal, at, u).job.priority == u.priority
    ensures Noted(item, at, u).moving <==> item.moving || u.priority != item.job.priority
  {
  }

  /** One more job marked. */
  lemma OneMoreMarked(jobs: Jobs, jobs': Jobs, moving: seq<JobId>, id: JobId, first: bool)
    requires Distinct(moving) && forall x :: x in moving <==> x in jobs && jobs[x].moving
    requires id in jobs && (first ==> !jobs[id].moving)
    requires jobs'.Keys == jobs.Keys && forall x :: x in jobs ==> jobs'[x].moving == (jobs[x].moving || (x == id && first))
    ensures var movers := if first then moving + [id] else moving;
            && Distinct(movers) && forall x :: x in movers <==> x in jobs' && jobs'[x].moving
  {
    var movers := if first then moving + [id] else moving;
    forall x ensures x in movers <==> x in jobs' && jobs'[x].moving {
      assert x in jobs'.Keys <==> x in jobs.Keys;
    }
  }

  /** One update noted is one update applied, but for the levels. */
  lemma MarkedStep(q: Queue, target: Queue, jobs: Jobs, moving: seq<JobId>, leaving: set<Priority>, at: Time, u: Update)
    requires Sound(q) && Marked(q, target, jobs, moving, leaving)
    requires u.job in jobs && jobs[u.job].waiting
    ensures u.job in target.jobs
    ensures var item, goal := jobs[u.job], Retargeted(target.jobs[u.job], at, u);
            var noted := Noted(item, at, u);
            var first := u.priority != item.job.priority && !item.moving;
            && Marked(q, ApplyOne(target, at, u).0, jobs[u.job := noted],
                      if first then moving + [u.job] else moving, if first then leaving + {item.job.priority} else leaving)
            && noted.exempt == goal.exempt && noted.reprioritised == goal.reprioritised && goal.job.priority == u.priority
  {
    hide Sound, ApplyOne, Retargeted, Noting, Noted, Marked;
    var id := u.job;
    MarkedSame(q, target, jobs, moving, leaving, id);
    NotedIsNoting(q.jobs[id], jobs[id], target.jobs[id], leaving, at, u);
    MarkedHasLevel(q, target, jobs, moving, leaving, id);
    ApplyOneJobs(target, at, u);
    var item, noted := jobs[id], Noted(jobs[id], at, u);
    var first := u.priority != item.job.priority && !item.moving;
    var left := if first then leaving + {item.job.priority} else leaving;
    MarkedMore(q, target, ApplyOne(target, at, u).0, jobs, moving, leaving, left, id, noted, Retargeted(target.jobs[id], at, u), first);
  }

  lemma MarkedMore(q: Queue, target: Queue, r: Queue, jobs: Jobs, moving: seq<JobId>, leaving: set<Priority>, left: set<Priority>,
                   id: JobId, noted: Item, goal: Item, first: bool)
    requires Marked(q, target, jobs, moving, leaving) && id in q.jobs && Noting(q.jobs[id], noted, goal, left)
    requires r.jobs == target.jobs[id := goal] && leaving <= left && (forall p :: p in left && p !in leaving ==> p in q.levels)
    requires id in jobs && (first ==> !jobs[id].moving) && noted.moving == (jobs[id].moving || first)
    ensures Marked(q, r, jobs[id := noted], if first then moving + [id] else moving, left)
  {
    hide Noting;
    NotingStep(q.jobs, jobs, target.jobs, leaving, left, id, noted, goal);
    OneMoreMarked(jobs, jobs[id := noted], moving, id, first);
  }

  lemma NotingStep(was: Jobs, jobs: Jobs, goals: Jobs, leaving: set<Priority>, left: set<Priority>, id: JobId, noted: Item, goal: Item)
    requires jobs.Keys == was.Keys && goals.Keys == was.Keys && id in was && leaving <= left
    requires forall x :: x in was ==> Noting(was[x], jobs[x], goals[x], leaving)
    requires Noting(was[id], noted, goal, left)
    ensures forall x :: x in was ==> Noting(was[x], jobs[id := noted][x], goals[id := goal][x], left)
  {
    hide Noting;
    forall x | x in was ensures Noting(was[x], jobs[id := noted][x], goals[id := goal][x], left) {
      NotingMore(was[x], jobs[x], goals[x], leaving, left);
    }
  }

  lemma ApplyOneJobs(target: Queue, at: Time, u: Update)
    requires u.job in target.jobs && target.jobs[u.job].waiting
    ensures ApplyOne(target, at, u).0.jobs == target.jobs[u.job := Retargeted(target.jobs[u.job], at, u)]
  {
  }

  /** An unmarked waiting job is at the level it was at, and a marked one stays marked. */
  lemma MarkedHasLevel(q: Queue, target: Queue, jobs: Jobs, moving: seq<JobId>, leaving: set<Priority>, id: JobId)
    requires Sound(q) && Marked(q, target, jobs, moving, leaving) && id in jobs && jobs[id].waiting
    ensures !jobs[id].moving ==> jobs[id].job.priority in q.levels
  {
    assert id in q.jobs.Keys;
    assert Noting(q.jobs[id], jobs[id], target.jobs[id], leaving);
    assert Waits(q.jobs, id, q.jobs[id].job.priority) ==> id in LevelAt(q.levels, q.jobs[id].job.priority);
  }

  lemma NotingMore(was: Item, item: Item, goal: Item, leaving: set<Priority>, left: set<Priority>)
    requires leaving <= left
    ensures Noting(was, item, goal, leaving) ==> Noting(was, item, goal, left)
  {
  }

  lemma ApplyNone(target: Queue, at: Time, updates: seq<Update>)
    requires updates == []
    ensures ApplyAll(target, at, updates) == (target, Applied(0, 0))
  {
  }

  /** Applying a batch from part way. */
  lemma ApplyFrom(target: Queue, at: Time, updates: seq<Update>, k: nat)
    requires k < |updates|
    ensures var (next, one) := ApplyOne(target, at, updates[k]);
            var (r, applied) := ApplyAll(next, at, updates[k + 1..]);
            ApplyAll(target, at, updates[k..]) == (r, one.Plus(applied))
  {
    assert updates[k..][1..] == updates[k + 1..];
  }

  /** A level without the jobs marked to leave it. */
  function Staying(jobs: Jobs, level: seq<JobId>): seq<JobId>
  {
    if level == [] then []
    else (if level[0] in jobs && jobs[level[0]].moving then [] else [level[0]]) + Staying(jobs, level[1..])
  }

  lemma {:induction false} StayingKeeps(jobs: Jobs, goal: Jobs, level: seq<JobId>)
    requires Ranked(goal, level)
    ensures Ranked(goal, Staying(jobs, level))
    ensures forall id :: id in Staying(jobs, level) <==> id in level && !(id in jobs && jobs[id].moving)
  {
    if level != [] {
      var rest, kept := level[1..], Staying(jobs, level[1..]);
      StayingKeeps(jobs, goal, rest);
      assert level == [level[0]] + rest;
      forall k | 0 <= k < |kept| ensures Before(goal, level[0], kept[k]) && kept[k] in goal {
        assert kept[k] in kept;
        var l :| 0 <= l < |rest| && rest[l] == kept[k];
        assert level[l + 1] == rest[l];
      }
    }
  }

  lemma MarkedHolds(q: Queue, target: Queue, jobs: Jobs, moving: seq<JobId>, leaving: set<Priority>)
    requires Marked(q, target, jobs, moving, leaving)
    ensures Distinct(moving) && forall id :: id in moving <==> id in jobs && jobs[id].moving
    ensures target.jobs.Keys == jobs.Keys == q.jobs.Keys && forall id :: id in jobs ==> jobs[id].(moving := false) == target.jobs[id]
    ensures forall id :: id in moving ==> id in target.jobs && target.jobs[id].waiting
  {
    forall id | id in jobs ensures jobs[id].(moving := false) == target.jobs[id] {
      assert id in q.jobs.Keys;
      assert Noting(q.jobs[id], jobs[id], target.jobs[id], leaving);
    }
    forall id | id in moving ensures id in target.jobs && target.jobs[id].waiting {
      NoterAgrees(q, target, jobs, moving, leaving, id);
    }
    forall id ensures id in moving <==> id in jobs && jobs[id].moving {
      assert id in jobs.Keys <==> id in q.jobs.Keys;
    }
  }

  lemma LevelsHoldJobs(q: Queue, jobs: Jobs)
    requires Sound(q) && jobs.Keys == q.jobs.Keys
    ensures forall p, k :: 0 <= k < |LevelAt(q.levels, p)| ==> LevelAt(q.levels, p)[k] in jobs
  {
    forall p, k | 0 <= k < |LevelAt(q.levels, p)| ensures LevelAt(q.levels, p)[k] in jobs {
      assert Ranked(q.jobs, q.levels[p]) && q.levels[p][k] in q.jobs.Keys;
    }
  }

  /** What every level holds once the marked are out: who waits there unmarked. */
  lemma TakenOut(q: Queue, target: Queue, jobs: Jobs, moving: seq<JobId>, leaving: set<Priority>, levels: Levels)
    requires Sound(q) && Marked(q, target, jobs, moving, leaving)
    requires forall p :: LevelAt(levels, p) == if p in leaving then Staying(jobs, LevelAt(q.levels, p)) else LevelAt(q.levels, p)
    ensures forall p :: Ranked(target.jobs, LevelAt(levels, p))
    ensures forall p, id :: id in LevelAt(levels, p) <==> Waits(target.jobs, id, p) && id !in moving
  {
    hide Ranked, Distinct, Noting;
    forall p
      ensures Ranked(target.jobs, LevelAt(levels, p))
      ensures forall id :: id in LevelAt(levels, p) <==> Waits(target.jobs, id, p) && id !in moving
    {
      OneTakenOut(q, target, jobs, moving, leaving, p);
    }
  }

  lemma OneTakenOut(q: Queue, target: Queue, jobs: Jobs, moving: seq<JobId>, leaving: set<Priority>, p: Priority)
    requires Sound(q) && Marked(q, target, jobs, moving, leaving)
    ensures var level := if p in leaving then Staying(jobs, LevelAt(q.levels, p)) else LevelAt(q.levels, p);
            && Ranked(target.jobs, level)
            && forall id :: id in level <==> Waits(target.jobs, id, p) && id !in moving
  {
    var was := LevelAt(q.levels, p);
    var stay := Staying(jobs, was);
    assert Ranked(q.jobs, was) by {
      assert p in q.levels ==> Ranked(q.jobs, q.levels[p]);
    }
    assert forall id :: id in was <==> Waits(q.jobs, id, p);
    StayingKeeps(jobs, q.jobs, was);
    hide Sound, Distinct, Staying;
    forall id ensures id in was && id !in moving <==> Waits(target.jobs, id, p) && id !in moving {
      NoterAgrees(q, target, jobs, moving, leaving, id);
    }
    if p !in leaving {
      forall id | id in was ensures id !in moving {
        NoterAgrees(q, target, jobs, moving, leaving, id);
      }
    }
    var level := if p in leaving then stay else was;
    forall id ensures id in level <==> id in was && id !in moving {
      assert id in jobs.Keys <==> id in q.jobs.Keys;
    }
    forall k | 0 <= k < |level| ensures level[k] in target.jobs && Origin(target.jobs, level[k]) == Origin(q.jobs, level[k]) {
      var id := level[k];
      assert id in level;
      NoterAgrees(q, target, jobs, moving, leaving, id);
    }
  }

  lemma NoterAgrees(q: Queue, target: Queue, jobs: Jobs, moving: seq<JobId>, leaving: set<Priority>, id: JobId)
    requires Marked(q, target, jobs, moving, leaving)
    ensures id in q.jobs <==> id in target.jobs
    ensures id in q.jobs && id !in moving ==>
              && target.jobs[id].waiting == q.jobs[id].waiting && target.jobs[id].job.priority == q.jobs[id].job.priority
              && target.jobs[id].deadlineFrom == q.jobs[id].deadlineFrom
    ensures id in moving ==> id in q.jobs && q.jobs[id].waiting && q.jobs[id].job.priority in leaving && target.jobs[id].waiting
  {
    MarkedSame(q, target, jobs, moving, leaving, id);
  }

  /** With no one to move, the levels are already right. */
  lemma NoneMoved(q: Queue, target: Queue, jobs: Jobs, moving: seq<JobId>, leaving: set<Priority>)
    requires Sound(q) && Sound(target) && Marked(q, target, jobs, moving, leaving) && moving == []
    ensures jobs == target.jobs && target.levels == q.levels
  {
    MarkedHolds(q, target, jobs, moving, leaving);
    forall id | id in jobs ensures jobs[id] == target.jobs[id] {}
    forall id ensures id in q.jobs <==> id in target.jobs
      ensures id in q.jobs ==>
                && target.jobs[id].waiting == q.jobs[id].waiting && target.jobs[id].job.priority == q.jobs[id].job.priority
                && target.jobs[id].deadlineFrom == q.jobs[id].deadlineFrom
    {
      NoterAgrees(q, target, jobs, moving, leaving, id);
    }
    SamePlaces(q.jobs, target.jobs, q.levels);
    PlacedUnique(target.jobs, q.levels, target.levels);
  }

  lemma SamePlaces(a: Jobs, b: Jobs, levels: Levels)
    requires Placed(a, levels)
    requires forall id :: id in a <==> id in b
    requires forall id :: id in a ==>
                            a[id].waiting == b[id].waiting && a[id].job.priority == b[id].job.priority && a[id].deadlineFrom == b[id].deadlineFrom
    ensures Placed(b, levels)
  {
    forall p, id ensures id in LevelAt(levels, p) <==> Waits(b, id, p) {
      assert id in LevelAt(levels, p) <==> Waits(a, id, p);
    }
    forall p | p in levels ensures Ranked(b, levels[p]) {
      assert Ranked(a, levels[p]);
      var level := levels[p];
      forall k | 0 <= k < |level| ensures level[k] in b && Origin(b, level[k]) == Origin(a, level[k]) {
        assert level[k] in a;
      }
    }
  }

  /** The jobs to move, sorted into deadline order. */
  lemma MoversInOrder(jobs: Jobs, goal: Jobs, moving: seq<JobId>, before: (JobId, JobId) -> bool)
    requires Distinct(moving) && forall id :: id in moving ==> id in jobs
    requires goal.Keys == jobs.Keys && forall id :: id in jobs ==> jobs[id].deadlineFrom == goal[id].deadlineFrom
    requires forall a, b :: before(a, b) == Before(jobs, a, b)
    ensures Ranked(goal, StableSort(moving, before))
    ensures forall id :: id in StableSort(moving, before) <==> id in moving
  {
    var sorted := StableSort(moving, before);
    SortKeeps(moving, before);
    BeforeIsStrict(jobs, before);
    SortOrders(moving, before);
    SortPermutes(moving, before);
    DistinctIsMultiset(moving);
    forall k | 0 <= k < |sorted| ensures sorted[k] in jobs && sorted[k] in goal {
      var id := sorted[k];
      assert id in sorted && id in jobs.Keys;
    }
    hide Distinct, StableSort;
    forall k, l | 0 <= k < l < |sorted| ensures Before(goal, sorted[k], sorted[l]) {
      if sorted[k] == sorted[l] {
        TwiceInMultiset(sorted, k, l);
      }
      assert !before(sorted[l], sorted[k]);
    }
  }

  lemma BeforeIsStrict(jobs: Jobs, before: (JobId, JobId) -> bool)
    requires forall a, b :: before(a, b) == Before(jobs, a, b)
    ensures StrictWeak(before)
  {
    forall a, b, c ensures before(a, b) && before(b, c) ==> before(a, c) {}
    forall a, b, c ensures before(a, c) ==> before(a, b) || before(b, c) {}
  }

  lemma {:induction false} DistinctIsMultiset(ids: seq<JobId>)
    requires Distinct(ids)
    ensures forall id :: multiset(ids)[id] <= 1
  {
    if ids != [] {
      assert forall k :: 0 <= k < |ids[1..]| ==> ids[1..][k] == ids[k + 1];
      DistinctIsMultiset(ids[1..]);
      assert ids == [ids[0]] + ids[1..];
      assert ids[0] !in ids[1..];
    }
  }

  lemma TwiceInMultiset(ids: seq<JobId>, k: nat, l: nat)
    requires k < l < |ids| && ids[k] == ids[l]
    ensures multiset(ids)[ids[k]] >= 2
  {
    var a, b, c := ids[..k], ids[k + 1..l], ids[l + 1..];
    assert ids == a + [ids[k]] + b + [ids[l]] + c;
    assert multiset(ids) == multiset(a) + multiset{ids[k]} + multiset(b) + multiset{ids[l]} + multiset(c);
  }

  /** The first so many of the sorted movers, each at the end of its level. */
  ghost predicate ArrivedSoFar(goal: Jobs, arriving: Levels, sorted: seq<JobId>, k: nat)
    requires k <= |sorted|
  {
    && (forall p :: Ranked(goal, LevelAt(arriving, p)))
    && (forall p, id :: id in LevelAt(arriving, p) <==> id in sorted[..k] && id in goal && goal[id].job.priority == p)
  }

  lemma NoneArrived(goal: Jobs, sorted: seq<JobId>)
    ensures ArrivedSoFar(goal, map[], sorted, 0)
  {
  }

  lemma AllArrived(goal: Jobs, arriving: Levels, sorted: seq<JobId>)
    requires ArrivedSoFar(goal, arriving, sorted, |sorted|)
    ensures forall p :: Ranked(goal, LevelAt(arriving, p))
    ensures forall p, id :: id in LevelAt(arriving, p) <==> id in sorted && id in goal && goal[id].job.priority == p
  {
    assert sorted[..|sorted|] == sorted;
  }

  lemma ArrivesNext(goal: Jobs, arriving: Levels, sorted: seq<JobId>, k: nat)
    requires k < |sorted| && Ranked(goal, sorted) && ArrivedSoFar(goal, arriving, sorted, k)
    ensures var p := goal[sorted[k]].job.priority;
            ArrivedSoFar(goal, arriving[p := LevelAt(arriving, p) + [sorted[k]]], sorted, k + 1)
  {
    var p := goal[sorted[k]].job.priority;
    var level := LevelAt(arriving, p);
    forall i | 0 <= i < |level| ensures Before(goal, level[i], sorted[k]) {
      var id := level[i];
      assert id in level;
      var l :| 0 <= l < k && sorted[..k][l] == id;
      assert sorted[l] == id;
    }
    assert sorted[..k + 1] == sorted[..k] + [sorted[k]];
    var next := arriving[p := level + [sorted[k]]];
    forall r ensures LevelAt(next, r) == if r == p then level + [sorted[k]] else LevelAt(arriving, r) {}
    forall r ensures Ranked(goal, LevelAt(next, r)) {
      assert Ranked(goal, LevelAt(arriving, r));
    }
    forall r, id ensures id in LevelAt(next, r) <==> id in sorted[..k + 1] && id in goal && goal[id].job.priority == r {
      assert id in LevelAt(arriving, r) <==> id in sorted[..k] && id in goal && goal[id].job.priority == r;
    }
  }

  /** Who is sorted is sorted once. */
  lemma SortedOnce(goal: Jobs, sorted: seq<JobId>, k: nat)
    requires Ranked(goal, sorted) && k < |sorted|
    ensures sorted[k] in goal && sorted[k] !in sorted[k + 1..] && sorted[k..] == [sorted[k]] + sorted[k + 1..]
  {
    forall l | k < l < |sorted| ensures sorted[l] != sorted[k] {
      assert Before(goal, sorted[k], sorted[l]);
    }
  }

  /** Two levels in deadline order as one, the first's job first when neither is before the
      other. */
  function Merged(jobs: Jobs, level: seq<JobId>, arriving: seq<JobId>): seq<JobId>
    decreases |level| + |arriving|
  {
    if level == [] then arriving
    else if arriving == [] then level
    else if Before(jobs, arriving[0], level[0]) then [arriving[0]] + Merged(jobs, level, arriving[1..])
    else [level[0]] + Merged(jobs, level[1..], arriving)
  }

  lemma {:induction false} MergedKeeps(jobs: Jobs, level: seq<JobId>, arriving: seq<JobId>)
    requires Ranked(jobs, level) && Ranked(jobs, arriving) && forall id :: id in level ==> id !in arriving
    ensures Ranked(jobs, Merged(jobs, level, arriving))
    ensures forall id :: id in Merged(jobs, level, arriving) <==> id in level || id in arriving
    decreases |level| + |arriving|
  {
    if level != [] && arriving != [] {
      assert level == [level[0]] + level[1..] && arriving == [arriving[0]] + arriving[1..];
      var first := Before(jobs, arriving[0], level[0]);
      var a, b := if first then level else level[1..], if first then arriving[1..] else arriving;
      MergedKeeps(jobs, a, b);
      var head, rest := if first then arriving[0] else level[0], Merged(jobs, a, b);
      var x, y := level[0], arriving[0];
      assert x in level && y in arriving;
      HeadBeforeRest(jobs, head, a, b, rest);
    }
  }

  lemma HeadBeforeRest(jobs: Jobs, head: JobId, a: seq<JobId>, b: seq<JobId>, rest: seq<JobId>)
    requires head in jobs && Ranked(jobs, rest) && forall id :: id in rest ==> id in a || id in b
    requires forall k :: 0 <= k < |a| ==> Before(jobs, head, a[k])
    requires forall k :: 0 <= k < |b| ==> Before(jobs, head, b[k])
    ensures Ranked(jobs, [head] + rest)
  {
    forall k | 0 <= k < |rest| ensures Before(jobs, head, rest[k]) {
      var id := rest[k];
      assert id in rest;
      if id in a {
        var l :| 0 <= l < |a| && a[l] == id;
      } else {
        var l :| 0 <= l < |b| && b[l] == id;
      }
    }
  }

  /** Once what arrives is merged with what stayed, the levels hold who waits at them, in
      order: and there is one way to do that. */
  lemma MergedIsPlaced(target: Queue, moving: seq<JobId>, staying: Levels, arriving: Levels, levels: Levels)
    requires Sound(target)
    requires forall id :: id in moving ==> id in target.jobs && target.jobs[id].waiting
    requires forall p :: Ranked(target.jobs, LevelAt(levels, p))
    requires forall p, id :: id in LevelAt(staying, p) <==> Waits(target.jobs, id, p) && id !in moving
    requires forall p, id :: id in LevelAt(arriving, p) <==> id in moving && id in target.jobs && target.jobs[id].job.priority == p
    requires forall p, id :: id in LevelAt(levels, p) <==> id in LevelAt(staying, p) || id in LevelAt(arriving, p)
    ensures Pruned(levels) == target.levels
  {
    var pruned := Pruned(levels);
    assert forall p :: LevelAt(pruned, p) == LevelAt(levels, p);
    assert Placed(target.jobs, pruned) by {
      hide Ranked;
      forall p | p in pruned ensures pruned[p] != [] && Ranked(target.jobs, pruned[p]) {
        assert pruned[p] == LevelAt(levels, p);
      }
      forall p, id ensures id in LevelAt(pruned, p) <==> Waits(target.jobs, id, p) {
        assert id in LevelAt(levels, p) <==> id in LevelAt(staying, p) || id in LevelAt(arriving, p);
      }
    }
    PlacedUnique(target.jobs, pruned, target.levels);
  }
}
