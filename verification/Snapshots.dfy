/** What an autoscaler is shown of the queue: internal/queue/queue.go:430-511 and 557-571. */
module Snapshots {
  import opened Basics
  import opened Work
  import opened QueueState
  import opened Serving
  import opened Turning

  /** A level as reported: how much waits, how old the oldest is, and how many arrived lately. */
  datatype Snapshot = Snapshot(depth: nat, oldest: Time, arrived: nat)

  type Picture = map<Priority, Snapshot>

  function CountAt(counts: map<Priority, nat>, p: Priority): nat { if p in counts then counts[p] else 0 }

  function DepthAt(picture: Picture, p: Priority): nat { if p in picture then picture[p].depth else 0 }

  function ArrivedAt(picture: Picture, p: Priority): nat { if p in picture then picture[p].arrived else 0 }

  /** How many of some jobs were submitted at a level at or after a cutoff. */
  function RecentAt(log: seq<Job>, cutoff: Time, p: Priority): nat
  {
    if log == [] then 0
    else
      var last := log[|log| - 1];
      RecentAt(log[..|log| - 1], cutoff, p) + Bit(last.submittedAt >= cutoff && last.priority == p)
  }

  function LevelsOf(log: seq<Job>): set<Priority> { set job | job in log :: job.priority }

  /** How many of some jobs were submitted at each level at or after a cutoff: no level with none. */
  function Recent(log: seq<Job>, cutoff: Time): map<Priority, nat>
  {
    map p | p in LevelsOf(log) && RecentAt(log, cutoff, p) > 0 :: RecentAt(log, cutoff, p)
  }

  lemma {:induction false} RecentIsSomeones(log: seq<Job>, cutoff: Time, p: Priority)
    requires RecentAt(log, cutoff, p) > 0
    ensures p in LevelsOf(log)
  {
    var last := log[|log| - 1];
    assert last in log;
    if last.priority != p {
      RecentIsSomeones(log[..|log| - 1], cutoff, p);
      var job :| job in log[..|log| - 1] && job.priority == p;
      assert job in log;
    }
  }

  lemma CountsAreRecent(log: seq<Job>, cutoff: Time, counts: map<Priority, nat>)
    requires forall p :: CountAt(counts, p) == RecentAt(log, cutoff, p)
    requires forall p :: p in counts ==> counts[p] > 0
    ensures counts == Recent(log, cutoff)
  {
    hide RecentAt, LevelsOf;
    forall p ensures p in counts <==> p in Recent(log, cutoff) {
      if RecentAt(log, cutoff, p) > 0 {
        RecentIsSomeones(log, cutoff, p);
      }
      assert CountAt(counts, p) == RecentAt(log, cutoff, p);
    }
    forall p | p in counts ensures counts[p] == Recent(log, cutoff)[p] {
      assert CountAt(counts, p) == RecentAt(log, cutoff, p);
    }
  }

  lemma LastOfRecent(log: seq<Job>, n: nat, cutoff: Time)
    requires 0 < n <= |log|
    ensures forall p :: RecentAt(log[..n], cutoff, p) ==
                        RecentAt(log[..n - 1], cutoff, p) + Bit(log[n - 1].submittedAt >= cutoff && log[n - 1].priority == p)
  {
    assert log[..n][..n - 1] == log[..n - 1];
  }

  lemma {:induction false} NoneRecent(log: seq<Job>, cutoff: Time, p: Priority)
    requires forall k :: 0 <= k < |log| ==> log[k].submittedAt < cutoff
    ensures RecentAt(log, cutoff, p) == 0
  {
    if log != [] {
      NoneRecent(log[..|log| - 1], cutoff, p);
    }
  }

  /** Those of a level that may be the reason capacity is bought, or those that may not. */
  function Half(jobs: Jobs, level: seq<JobId>, exempt: bool): seq<JobId>
  {
    if level == [] then []
    else
      var last := level[|level| - 1];
      Half(jobs, level[..|level| - 1], exempt) + if last in jobs && jobs[last].exempt == exempt then [last] else []
  }

  function AgeOf(jobs: Jobs, id: JobId, now: Time): Time { Max(0, now - Origin(jobs, id)) }

  function Shown(jobs: Jobs, ids: seq<JobId>, now: Time, arrived: nat): Snapshot
  {
    Snapshot(|ids|, if ids == [] then 0 else AgeOf(jobs, ids[0], now), arrived)
  }

  /** The whole queue, level by level: a level is shown if anything waits or arrived there. */
  function Whole(jobs: Jobs, levels: Levels, now: Time, arrived: map<Priority, nat>): Picture
  {
    map p | p in levels.Keys + arrived.Keys && (LevelAt(levels, p) != [] || CountAt(arrived, p) > 0) ::
      Shown(jobs, LevelAt(levels, p), now, CountAt(arrived, p))
  }

  function HalfLevels(jobs: Jobs, levels: Levels, exempt: bool): Levels { map p | p in levels :: Half(jobs, levels[p], exempt) }

  /** The half that counts. What arrives, arrives as it was submitted, and is shown here. */
  function CountedHalf(jobs: Jobs, levels: Levels, now: Time, arrived: map<Priority, nat>): Picture
  {
    Whole(jobs, HalfLevels(jobs, levels, false), now, arrived)
  }

  function ExemptHalf(jobs: Jobs, levels: Levels, now: Time): Picture
  {
    Whole(jobs, HalfLevels(jobs, levels, true), now, map[])
  }

  /** A picture with a level for whatever waits, and then for whatever only arrived. */
  lemma PictureIsWhole(jobs: Jobs, levels: Levels, now: Time, arrived: map<Priority, nat>, shown: Picture, picture: Picture)
    requires forall p :: p in shown <==> p in levels && levels[p] != []
    requires forall p :: p in shown ==> shown[p] == Shown(jobs, levels[p], now, CountAt(arrived, p))
    requires forall p :: p in picture <==> p in shown || (p in arrived && arrived[p] > 0)
    requires forall p :: p in picture ==> picture[p] == if p in shown then shown[p] else Snapshot(0, 0, arrived[p])
    ensures picture == Whole(jobs, levels, now, arrived)
  {
    hide AgeOf;
    var whole := Whole(jobs, levels, now, arrived);
    forall p ensures p in picture <==> p in whole {
      assert p in picture ==> p in levels.Keys + arrived.Keys;
    }
    assert picture.Keys == whole.Keys;
    forall p | p in picture ensures picture[p] == whole[p] {
      assert p in whole;
    }
  }

  lemma {:induction false} HalvesMakeWhole(jobs: Jobs, level: seq<JobId>)
    requires forall k :: 0 <= k < |level| ==> level[k] in jobs
    ensures |Half(jobs, level, false)| + |Half(jobs, level, true)| == |level|
  {
    if level != [] {
      HalvesMakeWhole(jobs, level[..|level| - 1]);
    }
  }

  /** Level by level, the two halves' depths are the whole's, and every arrival is shown with
      the half that counts. */
  lemma HalvesAddUp(q: Queue, now: Time, arrived: map<Priority, nat>, p: Priority)
    requires Sound(q)
    ensures DepthAt(CountedHalf(q.jobs, q.levels, now, arrived), p) + DepthAt(ExemptHalf(q.jobs, q.levels, now), p)
            == DepthAt(Whole(q.jobs, q.levels, now, arrived), p)
    ensures ArrivedAt(CountedHalf(q.jobs, q.levels, now, arrived), p) == ArrivedAt(Whole(q.jobs, q.levels, now, arrived), p)
  {
    if p in q.levels {
      LevelIsWaiting(q, p);
      HalvesMakeWhole(q.jobs, q.levels[p]);
    }
  }

  lemma {:induction false} NoneExempt(jobs: Jobs, level: seq<JobId>)
    requires forall k :: 0 <= k < |level| ==> level[k] in jobs && !jobs[level[k]].exempt
    ensures Half(jobs, level, false) == level && Half(jobs, level, true) == []
  {
    if level != [] {
      NoneExempt(jobs, level[..|level| - 1]);
      assert level == level[..|level| - 1] + [level[|level| - 1]];
    }
  }

  /** With no exempt job waiting, by the queue's own count, the half that counts is the whole
      and the other is empty: which is what the count is kept for. */
  lemma ShortcutIsExact(q: Queue, now: Time, arrived: map<Priority, nat>)
    requires Sound(q) && q.exemptWaiting == 0
    ensures CountedHalf(q.jobs, q.levels, now, arrived) == Whole(q.jobs, q.levels, now, arrived)
    ensures ExemptHalf(q.jobs, q.levels, now) == map[]
  {
    hide Sound, Half, Shown;
    var rows, none := HalfLevels(q.jobs, q.levels, false), HalfLevels(q.jobs, q.levels, true);
    assert rows.Keys == q.levels.Keys && none.Keys == q.levels.Keys;
    forall p | p in q.levels ensures rows[p] == q.levels[p] && none[p] == [] {
      NoneExemptAt(q, p);
    }
    assert rows == q.levels;
    NothingShown(q.jobs, none, now);
  }

  lemma NothingShown(jobs: Jobs, levels: Levels, now: Time)
    requires forall p :: p in levels ==> levels[p] == []
    ensures Whole(jobs, levels, now, map[]) == map[]
  {
    hide Shown;
    var whole := Whole(jobs, levels, now, map[]);
    forall p ensures p !in whole {}
    assert whole.Keys == {};
  }

  /** Both halves' pictures, from the levels split one by one. */
  lemma HalvesAreWhole(jobs: Jobs, levels: Levels, now: Time, arrived: map<Priority, nat>,
                       shown: Picture, counted: Picture, exempt: Picture)
    requires forall p :: p in shown <==> p in levels && Half(jobs, levels[p], false) != []
    requires forall p :: p in shown ==> shown[p] == Shown(jobs, Half(jobs, levels[p], false), now, CountAt(arrived, p))
    requires forall p :: p in exempt <==> p in levels && Half(jobs, levels[p], true) != []
    requires forall p :: p in exempt ==> exempt[p] == Shown(jobs, Half(jobs, levels[p], true), now, 0)
    requires forall p :: p in counted <==> p in shown || (p in arrived && arrived[p] > 0)
    requires forall p :: p in counted ==> counted[p] == if p in shown then shown[p] else Snapshot(0, 0, arrived[p])
    ensures counted == CountedHalf(jobs, levels, now, arrived)
    ensures exempt == ExemptHalf(jobs, levels, now)
  {
    hide Half, Shown;
    PictureIsWhole(jobs, HalfLevels(jobs, levels, false), now, arrived, shown, counted);
    PictureIsWhole(jobs, HalfLevels(jobs, levels, true), now, map[], exempt, exempt);
  }

  lemma NoneExemptAt(q: Queue, p: Priority)
    requires Sound(q) && q.exemptWaiting == 0 && p in q.levels
    ensures Half(q.jobs, q.levels[p], false) == q.levels[p] && Half(q.jobs, q.levels[p], true) == []
  {
    LevelIsWaiting(q, p);
    var level := q.levels[p];
    forall k | 0 <= k < |level| ensures level[k] in q.jobs && !q.jobs[level[k]].exempt {
      assert Waits(q.jobs, level[k], p);
      assert level[k] !in Those(q.jobs, IsExempt);
    }
    NoneExempt(q.jobs, level);
  }

  // ---------- What a picture tells ----------

  /** Who waits at a level: all of them, or those of one half. */
  function WaitingAt(jobs: Jobs, p: Priority): set<JobId> { set id | id in jobs && Waits(jobs, id, p) }

  function WaitingIn(jobs: Jobs, p: Priority, exempt: bool): set<JobId> { set id | id in jobs && Waits(jobs, id, p) && jobs[id].exempt == exempt }

  /** A level is shown with how many wait there and the greatest time any of them has been waiting
      for, which is some waiting job's and never less than nothing. */
  ghost predicate Tells(shown: Snapshot, jobs: Jobs, who: set<JobId>, now: Time)
  {
    && shown.depth == |who|
    && (forall id :: id in who ==> id in jobs && shown.oldest >= now - jobs[id].deadlineFrom)
    && (if who == {} then shown.oldest == 0 else exists id :: id in who && id in jobs && shown.oldest == Max(0, now - jobs[id].deadlineFrom))
  }

  /** In deadline order the first has waited longest. */
  lemma FirstIsOldest(jobs: Jobs, ids: seq<JobId>, who: set<JobId>, now: Time, arrived: nat)
    requires Ranked(jobs, ids) && who == set id | id in ids
    ensures Tells(Shown(jobs, ids, now, arrived), jobs, who, now)
  {
    forall k, l | 0 <= k < l < |ids| ensures ids[k] != ids[l] {
      assert Before(jobs, ids[k], ids[l]);
    }
    SizeOf(ids);
    forall id | id in who ensures id in jobs && AgeOf(jobs, ids[0], now) >= now - jobs[id].deadlineFrom {
      var k :| 0 <= k < |ids| && ids[k] == id;
      assert k > 0 ==> Before(jobs, ids[0], ids[k]);
    }
    assert ids != [] ==> ids[0] in who;
  }

  lemma {:induction false} SizeOf(ids: seq<JobId>)
    requires forall k, l :: 0 <= k < l < |ids| ==> ids[k] != ids[l]
    ensures |set id | id in ids| == |ids|
    decreases |ids|
  {
    if ids != [] {
      var n := |ids| - 1;
      assert ids == ids[..n] + [ids[n]];
      assert (set id | id in ids) == (set id | id in ids[..n]) + {ids[n]};
      SizeOf(ids[..n]);
    }
  }

  lemma {:induction false} HalfIsRanked(jobs: Jobs, level: seq<JobId>, exempt: bool)
    requires Ranked(jobs, level)
    ensures Ranked(jobs, Half(jobs, level, exempt))
    ensures forall id :: id in Half(jobs, level, exempt) <==> id in level && id in jobs && jobs[id].exempt == exempt
  {
    if level != [] {
      var n := |level| - 1;
      var less := Half(jobs, level[..n], exempt);
      HalfIsRanked(jobs, level[..n], exempt);
      assert level == level[..n] + [level[n]];
      forall k | 0 <= k < |less| ensures Before(jobs, less[k], level[n]) {
        assert less[k] in less;
        var l :| 0 <= l < n && level[l] == less[k];
      }
    }
  }

  /** A level is in the whole picture exactly when someone waits there or work arrived there of
      late, and is then shown with everyone who waits; and likewise for each half. */
  lemma PictureTells(q: Queue, now: Time, arrived: map<Priority, nat>, p: Priority)
    requires Sound(q)
    ensures var whole := Whole(q.jobs, q.levels, now, arrived);
            && (p in whole <==> WaitingAt(q.jobs, p) != {} || CountAt(arrived, p) > 0)
            && (p in whole ==> Tells(whole[p], q.jobs, WaitingAt(q.jobs, p), now) && whole[p].arrived == CountAt(arrived, p))
    ensures var counted := CountedHalf(q.jobs, q.levels, now, arrived);
            && (p in counted <==> WaitingIn(q.jobs, p, false) != {} || CountAt(arrived, p) > 0)
            && (p in counted ==> Tells(counted[p], q.jobs, WaitingIn(q.jobs, p, false), now) && counted[p].arrived == CountAt(arrived, p))
    ensures var exempt := ExemptHalf(q.jobs, q.levels, now);
            && (p in exempt <==> WaitingIn(q.jobs, p, true) != {})
            && (p in exempt ==> Tells(exempt[p], q.jobs, WaitingIn(q.jobs, p, true), now) && exempt[p].arrived == 0)
  {
    var level := LevelAt(q.levels, p);
    LevelIsRanked(q, p);
    FirstIsOldest(q.jobs, level, WaitingAt(q.jobs, p), now, CountAt(arrived, p));
    HalfTells(q, now, arrived, p, false);
    HalfTells(q, now, map[], p, true);
    hide Sound, Tells, Shown, Half, Waits, Ranked, WaitingAt, WaitingIn;
    assert WaitingAt(q.jobs, p) == {} <==> level == [] by {
      NobodyThere(level, WaitingAt(q.jobs, p));
    }
  }

  lemma LevelIsRanked(q: Queue, p: Priority)
    requires Sound(q)
    ensures Ranked(q.jobs, LevelAt(q.levels, p))
    ensures WaitingAt(q.jobs, p) == set id | id in LevelAt(q.levels, p)
  {
  }

  lemma NobodyThere(ids: seq<JobId>, who: set<JobId>)
    requires who == set id | id in ids
    ensures who == {} <==> ids == []
  {
    assert ids != [] ==> ids[0] in who;
  }

  /** One half's levels, as the picture of it shows them. */
  lemma HalfTells(q: Queue, now: Time, arrived: map<Priority, nat>, p: Priority, exempt: bool)
    requires Sound(q)
    ensures var picture := Whole(q.jobs, HalfLevels(q.jobs, q.levels, exempt), now, arrived);
            && (p in picture <==> WaitingIn(q.jobs, p, exempt) != {} || CountAt(arrived, p) > 0)
            && (p in picture ==> Tells(picture[p], q.jobs, WaitingIn(q.jobs, p, exempt), now) && picture[p].arrived == CountAt(arrived, p))
  {
    var level := LevelAt(q.levels, p);
    var half, who := Half(q.jobs, level, exempt), WaitingIn(q.jobs, p, exempt);
    LevelIsRanked(q, p);
    HalfIsRanked(q.jobs, level, exempt);
    assert who == set id | id in half;
    FirstIsOldest(q.jobs, half, who, now, CountAt(arrived, p));
    NobodyThere(half, who);
    assert LevelAt(HalfLevels(q.jobs, q.levels, exempt), p) == half;
  }

  /** Which of some jobs were submitted at a level at or after a cutoff, by place. */
  function RecentPlaces(log: seq<Job>, cutoff: Time, p: Priority): set<nat>
  {
    set k: nat | k < |log| && log[k].submittedAt >= cutoff && log[k].priority == p
  }

  lemma {:induction false} RecentIsCount(log: seq<Job>, cutoff: Time, p: Priority)
    ensures RecentAt(log, cutoff, p) == |RecentPlaces(log, cutoff, p)|
  {
    if log == [] {
      assert RecentPlaces(log, cutoff, p) == {};
    } else {
      var n := |log| - 1;
      RecentIsCount(log[..n], cutoff, p);
      var less := RecentPlaces(log[..n], cutoff, p);
      assert forall k :: 0 <= k < n ==> log[..n][k] == log[k];
      assert RecentPlaces(log, cutoff, p) == less + if log[n].submittedAt >= cutoff && log[n].priority == p then {n as nat} else {};
    }
  }
}
