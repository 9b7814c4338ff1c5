/** What a batch of updates comes to for each job it names and for the counts it gives:
    internal/queue/queue.go:660-746. */
module Updates {
  import opened Basics
  import opened Work
  import opened Orchestrator
  import opened QueueState
  import opened QueueOps
  import Agreement

  /** A job the batch can still do something about. */
  predicate InTime(q: Queue, id: JobId) { id in q.jobs && q.jobs[id].waiting }

  /** The last of the first n updates that names a job; -1 if none does. */
  function LastNaming(updates: seq<Update>, n: nat, id: JobId): (k: int)
    requires n <= |updates|
    ensures -1 <= k < n
    ensures k >= 0 ==> updates[k].job == id
    ensures forall l :: k < l < n ==> updates[l].job != id
  {
    if n == 0 then -1 else if updates[n - 1].job == id then n - 1 else LastNaming(updates, n - 1, id)
  }

  /** The priority an update finds a job at: where the last to name it put it, or where it was. */
  function PriorityFound(q: Queue, updates: seq<Update>, n: nat, id: JobId): Priority
    requires n <= |updates| && id in q.jobs
  {
    var k := LastNaming(updates, n, id);
    if k < 0 then q.jobs[id].job.priority else updates[k].priority
  }

  function ExemptFound(q: Queue, updates: seq<Update>, n: nat, id: JobId): bool
    requires n <= |updates| && id in q.jobs
  {
    var k := LastNaming(updates, n, id);
    if k < 0 then q.jobs[id].exempt else updates[k].exempt
  }

  /** Update k names a job and changes its priority. */
  predicate Moves(q: Queue, updates: seq<Update>, k: nat, id: JobId)
    requires k < |updates| && id in q.jobs
  {
    updates[k].job == id && updates[k].priority != PriorityFound(q, updates, k, id)
  }

  /** A job of the batch, after its first n updates. */
  ghost predicate Became(q: Queue, at: Time, updates: seq<Update>, n: nat, id: JobId, now: Item)
    requires n <= |updates| && id in q.jobs
  {
    var was := q.jobs[id];
    && now == was.(job := was.job.(priority := now.job.priority), exempt := now.exempt, deadlineFrom := now.deadlineFrom,
                   reprioritised := now.reprioritised)
    && now.job.priority == PriorityFound(q, updates, n, id) && now.exempt == ExemptFound(q, updates, n, id)
    && now.deadlineFrom == (if exists k :: 0 <= k < n && Moves(q, updates, k, id) && updates[k].restart then at else was.deadlineFrom)
    && (now.reprioritised <==> was.reprioritised || exists k :: 0 <= k < n && Moves(q, updates, k, id))
  }

  lemma NothingBecame(q: Queue, at: Time, updates: seq<Update>, id: JobId)
    requires id in q.jobs
    ensures Became(q, at, updates, 0, id, q.jobs[id])
  {
  }

  /** One update more. */
  lemma BecameNext(q: Queue, at: Time, updates: seq<Update>, n: nat, id: JobId, before: Item, after: Item)
    requires n < |updates| && id in q.jobs && Became(q, at, updates, n, id, before)
    requires after == if updates[n].job == id then Retargeted(before, at, updates[n]) else before
    ensures Became(q, at, updates, n + 1, id, after)
  {
    var u := updates[n];
    assert Moves(q, updates, n, id) <==> u.job == id && u.priority != before.job.priority;
    assert (exists k :: 0 <= k < n + 1 && Moves(q, updates, k, id)) <==>
           (exists k :: 0 <= k < n && Moves(q, updates, k, id)) || Moves(q, updates, n, id);
    assert (exists k :: 0 <= k < n + 1 && Moves(q, updates, k, id) && updates[k].restart) <==>
           (exists k :: 0 <= k < n && Moves(q, updates, k, id) && updates[k].restart) || (Moves(q, updates, n, id) && u.restart);
  }

  /** The first n updates, and one more. */
  lemma OneMore(q: Queue, at: Time, updates: seq<Update>, n: nat)
    requires n < |updates|
    ensures var (r, applied) := ApplyAll(q, at, updates[..n]);
            var (r1, one) := ApplyOne(r, at, updates[n]);
            ApplyAll(q, at, updates[..n + 1]) == (r1, applied.Plus(one))
  {
    hide ApplyOne;
    assert updates[..n + 1] == updates[..n] + [updates[n]];
    Agreement.ApplyAllJoins(q, at, updates[..n], [updates[n]]);
    var r := ApplyAll(q, at, updates[..n]).0;
    assert [updates[n]][1..] == [];
    assert ApplyAll(ApplyOne(r, at, updates[n]).0, at, []) == (ApplyOne(r, at, updates[n]).0, Applied(0, 0));
  }

  lemma {:induction false} BatchUpTo(q: Queue, at: Time, updates: seq<Update>, n: nat, id: JobId)
    requires n <= |updates|
    ensures var r := ApplyAll(q, at, updates[..n]).0;
            && (id in r.jobs <==> id in q.jobs)
            && (id in q.jobs && !q.jobs[id].waiting ==> r.jobs[id] == q.jobs[id])
            && (InTime(q, id) ==> Became(q, at, updates, n, id, r.jobs[id]) && r.jobs[id].waiting)
  {
    hide Became, Retargeted, ApplyAll, ApplyOne;
    if n == 0 {
      NoneApplied(q, at, updates);
      if id in q.jobs {
        NothingBecame(q, at, updates, id);
      }
    } else {
      BatchUpTo(q, at, updates, n - 1, id);
      OneMore(q, at, updates, n - 1);
      var r := ApplyAll(q, at, updates[..n - 1]).0;
      var r1 := ApplyOne(r, at, updates[n - 1]).0;
      assert ApplyAll(q, at, updates[..n]).0 == r1;
      StillWaits(r, at, updates[n - 1], id);
      if InTime(q, id) {
        BecameNext(q, at, updates, n - 1, id, r.jobs[id], r1.jobs[id]);
      }
    }
  }

  lemma NoneApplied(q: Queue, at: Time, updates: seq<Update>)
    ensures ApplyAll(q, at, updates[..0]) == (q, Applied(0, 0))
  {
  }

  lemma StillWaits(q: Queue, at: Time, u: Update, id: JobId)
    ensures var r := ApplyOne(q, at, u).0;
            && (id in r.jobs <==> id in q.jobs)
            && (id in q.jobs ==>
                  && r.jobs[id].waiting == q.jobs[id].waiting
                  && r.jobs[id] == if u.job == id && q.jobs[id].waiting then Retargeted(q.jobs[id], at, u) else q.jobs[id])
  {
  }

  /** What a batch makes of each job. One that has started is as it was. One that waits ends at the
      priority and exemption of the last update to name it; its deadline starts again exactly when
      some update changed its priority and asked for that, and is otherwise as it was; it counts as
      reprioritised from the first that changed its priority; and nothing else about it changes. */
  lemma BatchOutcome(q: Queue, at: Time, updates: seq<Update>, id: JobId)
    requires id in q.jobs
    ensures id in ApplyAll(q, at, updates).0.jobs
    ensures var was, now := q.jobs[id], ApplyAll(q, at, updates).0.jobs[id];
            var last := LastNaming(updates, |updates|, id);
            && (!was.waiting ==> now == was)
            && (was.waiting ==>
                  && now == was.(job := was.job.(priority := now.job.priority), exempt := now.exempt, deadlineFrom := now.deadlineFrom,
                                 reprioritised := now.reprioritised)
                  && (last >= 0 ==> now.job.priority == updates[last].priority && now.exempt == updates[last].exempt)
                  && (last < 0 ==> now == was)
                  && (now.deadlineFrom == at <==>
                        was.deadlineFrom == at || exists k :: 0 <= k < |updates| && Moves(q, updates, k, id) && updates[k].restart)
                  && (now.deadlineFrom != at ==> now.deadlineFrom == was.deadlineFrom)
                  && (now.reprioritised <==> was.reprioritised || exists k :: 0 <= k < |updates| && Moves(q, updates, k, id)))
  {
    assert updates[..|updates|] == updates;
    BatchUpTo(q, at, updates, |updates|, id);
  }

  /** A batch that asks for no restart moves no deadline. */
  lemma NoRestartKeepsDeadlines(q: Queue, at: Time, updates: seq<Update>, id: JobId)
    requires id in q.jobs && forall k :: 0 <= k < |updates| ==> !updates[k].restart
    ensures id in ApplyAll(q, at, updates).0.jobs && ApplyAll(q, at, updates).0.jobs[id].deadlineFrom == q.jobs[id].deadlineFrom
  {
    assert updates[..|updates|] == updates;
    BatchUpTo(q, at, updates, |updates|, id);
  }

  /** Update k finds its job waiting, and elsewhere or otherwise exempt than it asks. */
  predicate Changes(q: Queue, updates: seq<Update>, k: nat)
    requires k < |updates|
  {
    var id := updates[k].job;
    InTime(q, id) && (updates[k].priority != PriorityFound(q, updates, k, id) || updates[k].exempt != ExemptFound(q, updates, k, id))
  }

  function Changing(q: Queue, updates: seq<Update>, n: nat): set<nat>
    requires n <= |updates|
  {
    set k: nat | k < n && Changes(q, updates, k)
  }

  function Late(q: Queue, updates: seq<Update>, n: nat): set<nat>
    requires n <= |updates|
  {
    set k: nat | k < n && !InTime(q, updates[k].job)
  }

  lemma {:induction false} CountsUpTo(q: Queue, at: Time, updates: seq<Update>, n: nat)
    requires n <= |updates|
    ensures ApplyAll(q, at, updates[..n]).1 == Applied(|Changing(q, updates, n)|, |Late(q, updates, n)|)
  {
    hide ApplyAll, ApplyOne, Changes, InTime;
    if n == 0 {
      NoneApplied(q, at, updates);
      assert Changing(q, updates, 0) == {} && Late(q, updates, 0) == {};
    } else {
      CountsUpTo(q, at, updates, n - 1);
      OneMore(q, at, updates, n - 1);
      var r := ApplyAll(q, at, updates[..n - 1]).0;
      OneCounts(q, r, at, updates, n - 1);
      CountOneMore(q, updates, n - 1);
    }
  }

  lemma CountOneMore(q: Queue, updates: seq<Update>, n: nat)
    requires n < |updates|
    ensures |Changing(q, updates, n + 1)| == |Changing(q, updates, n)| + if Changes(q, updates, n) then 1 else 0
    ensures |Late(q, updates, n + 1)| == |Late(q, updates, n)| + if !InTime(q, updates[n].job) then 1 else 0
  {
    hide Changes, InTime;
    OneIn(Changing(q, updates, n), Changing(q, updates, n + 1), n, Changes(q, updates, n));
    OneIn(Late(q, updates, n), Late(q, updates, n + 1), n, !InTime(q, updates[n].job));
  }

  lemma OneIn(a: set<nat>, b: set<nat>, n: nat, joins: bool)
    requires n !in a && forall x :: x in b <==> x in a || (joins && x == n)
    ensures |b| == |a| + if joins then 1 else 0
  {
    assert b == a + if joins then {n} else {};
  }

  lemma OneCounts(q: Queue, r: Queue, at: Time, updates: seq<Update>, n: nat)
    requires n < |updates| && r == ApplyAll(q, at, updates[..n]).0
    ensures ApplyOne(r, at, updates[n]).1 == Applied(if Changes(q, updates, n) then 1 else 0, if !InTime(q, updates[n].job) then 1 else 0)
  {
    BatchUpTo(q, at, updates, n, updates[n].job);
  }

  /** The counts a batch gives: how many updates changed the job they named, and how many came once it
      had started, or for one there is not. */
  lemma BatchCounts(q: Queue, at: Time, updates: seq<Update>)
    ensures ApplyAll(q, at, updates).1 == Applied(|Changing(q, updates, |updates|)|, |Late(q, updates, |updates|)|)
  {
    assert updates[..|updates|] == updates;
    CountsUpTo(q, at, updates, |updates|);
  }
}
