/** The scheduler object. Its fields are updated in place; its log is a ghost, and always agrees with them. */
module Scheduler {
  import opened Common
  import opened Portfolio
  import opened PortfolioHistory
  import opened PortfolioTheorems

  lemma SumByUpdate(tasks: seq<ScheduledTask>, i: nat, t: ScheduledTask, f: Measure)
    requires i < |tasks|
    ensures SumBy(tasks[i := t], f) == SumBy(tasks, f) - f(tasks[i]) + f(t)
  {
    ByRemoveAt(tasks, i, f);
    ByRemoveAt(tasks[i := t], i, f);
    assert RemoveAt(tasks[i := t], i) == RemoveAt(tasks, i);
  }

  /** One queued task more changes the metrics of its own project, by its own wait. */
  lemma MetricsAppend(s: State, q: seq<ScheduledTask>, t: ScheduledTask, p: string, now: int)
    ensures var before, after := CachedMetrics(s.(queued := q), p, now), CachedMetrics(s.(queued := q + [t]), p, now);
            after == if p != t.projectId then before
                     else before.(queuedCount := before.queuedCount + 1,
                                  totalWait := before.totalWait + WaitAt(t, now),
                                  longestWait := Max(before.longestWait, WaitAt(t, now)),
                                  lastWaitReason := t.lastWaitReason)
  {
    ByAppend(q, t, ByCount(p));
    ByAppend(q, t, ByWait(p, now));
    assert (q + [t])[..|q|] == q;
  }

  lemma NothingQueuedOrStarted(s: State, q: seq<ScheduledTask>, p: string, now: int)
    requires ValidCaches(s) && p !in s.startedWaitTotals && p !in Projects(q)
    ensures CachedMetrics(s.(queued := q), p, now) == ProjectWaitMetrics(p, 0, 0, 0, 0, None)
    decreases |q|
  {
    if q != [] {
      var n := |q| - 1;
      assert q == q[..n] + [q[n]];
      ProjectsAppend(q[..n], q[n]);
      NothingQueuedOrStarted(s, q[..n], p, now);
      MetricsAppend(s, q[..n], q[n], p, now);
    }
  }

  /** The accumulator of a project, new if there is none yet. */
  function AccumulatorFor(metrics: map<string, ProjectWaitMetrics>, p: string): ProjectWaitMetrics {
    if p in metrics then metrics[p] else ProjectWaitMetrics(p, 0, 0, 0, 0, None)
  }

  function Accumulated(m: ProjectWaitMetrics, t: ScheduledTask, now: int): ProjectWaitMetrics {
    m.(queuedCount := m.queuedCount + 1, totalWait := m.totalWait + WaitAt(t, now),
       longestWait := Max(m.longestWait, WaitAt(t, now)), lastWaitReason := t.lastWaitReason)
  }

  /** What the accumulator of a project stands for: its metrics, or those of a project without any task. */
  lemma AccumulatorIsMetrics(s: State, q: seq<ScheduledTask>, p: string, now: int)
    requires ValidCaches(s)
    ensures AccumulatorFor(Portfolio.WaitMetricsByProject(s.(queued := q), now), p) ==
            CachedMetrics(s.(queued := q), p, now)
  {
    if p !in s.startedWaitTotals && p !in Projects(q) {
      NothingQueuedOrStarted(s, q, p, now);
    }
    hide CachedMetrics, ValidCaches, Projects;
  }

  /** Adding one queued task to its project's accumulator gives the metrics with that task queued. */
  lemma AccumulateTask(s: State, q: seq<ScheduledTask>, t: ScheduledTask, now: int)
    requires ValidCaches(s)
    ensures var before := Portfolio.WaitMetricsByProject(s.(queued := q), now);
            Portfolio.WaitMetricsByProject(s.(queued := q + [t]), now) ==
            before[t.projectId := Accumulated(AccumulatorFor(before, t.projectId), t, now)]
  {
    ProjectsAppend(q, t);
    AccumulatorIsMetrics(s, q, t.projectId, now);
    EveryMetricsAppend(s, q, t, now);
    hide CachedMetrics, ValidCaches, Projects, Accumulated, AccumulatorFor;
  }

  lemma EveryMetricsAppend(s: State, q: seq<ScheduledTask>, t: ScheduledTask, now: int)
    ensures forall p ::
              CachedMetrics(s.(queued := q + [t]), p, now) ==
              if p == t.projectId then Accumulated(CachedMetrics(s.(queued := q), p, now), t, now)
              else CachedMetrics(s.(queued := q), p, now)
  {
    forall p
      ensures CachedMetrics(s.(queued := q + [t]), p, now) ==
              if p == t.projectId then Accumulated(CachedMetrics(s.(queued := q), p, now), t, now)
              else CachedMetrics(s.(queued := q), p, now)
    {
      MetricsAppend(s, q, t, p, now);
    }
  }

  class PortfolioScheduler {
    const limit: int
    const agingThreshold: int
    var queued: seq<ScheduledTask>
    var active: map<string, ScheduledTask>
    var startedWaitTotals: map<string, int>
    var startedWaitLongest: map<string, int>
    var startedWaitCounts: map<string, int>
    var lastWaitReasons: map<string, Option<WaitReason>>
    ghost var log: Log

    function Snapshot(): State
      reads this
    {
      State(limit, agingThreshold, queued, active,
            startedWaitTotals, startedWaitLongest, startedWaitCounts, lastWaitReasons)
    }

    ghost predicate Valid()
      reads this
    {
      Agrees(Snapshot(), log)
    }

    constructor (limit: int, agingThreshold: int)
      requires limit >= 1 && agingThreshold > 0
      ensures Valid() && Snapshot() == Empty(limit, agingThreshold) && log == []
    {
      this.limit, this.agingThreshold := limit, agingThreshold;
      queued, active := [], map[];
      startedWaitTotals, startedWaitLongest, startedWaitCounts, lastWaitReasons := map[], map[], map[], map[];
      log := [];
      new;
      EmptyValid(limit, agingThreshold);
    }

    /** Settings out of range are refused, the slot limit first. */
    static method Create(limit: int := DEFAULT_ACTIVE_SLOT_LIMIT, agingThreshold: int := DEFAULT_AGING_THRESHOLD)
      returns (r: Result<PortfolioScheduler, SchedulerError>)
      ensures limit < 1 ==> r == Failure(SlotLimitTooSmall)
      ensures limit >= 1 && agingThreshold <= 0 ==> r == Failure(ThresholdNotPositive)
      ensures limit >= 1 && agingThreshold > 0 ==>
                r.Success? && fresh(r.value) && r.value.Valid() && r.value.Snapshot() == Empty(limit, agingThreshold)
    {
      if limit < 1 {
        return Failure(SlotLimitTooSmall);
      }
      if agingThreshold <= 0 {
        return Failure(ThresholdNotPositive);
      }
      var scheduler := new PortfolioScheduler(limit, agingThreshold);
      r := Success(scheduler);
    }

    method IsScheduled(taskId: string) returns (scheduled: bool)
      ensures scheduled == Portfolio.IsScheduled(Snapshot(), taskId)
    {
      if taskId in active {
        return true;
      }
      for i := 0 to |queued|
        invariant forall j :: 0 <= j < i ==> Ids(queued)[j] != taskId
      {
        if queued[i].taskId == taskId {
          assert Ids(queued)[i] == taskId;
          return true;
        }
      }
      scheduled := false;
    }

    /** `None` when the task was accepted, otherwise the error raised. */
    method Enqueue(task: ScheduledTask, now: int) returns (error: Option<SchedulerError>)
      requires Valid()
      modifies this
      ensures Valid()
      ensures error == if Portfolio.IsScheduled(old(Snapshot()), task.taskId) then Some(AlreadyScheduled(task.taskId))
                       else None
      ensures error.Some? ==> Snapshot() == old(Snapshot()) && log == old(log)
      ensures error.None? ==>
                && Success(Snapshot()) == Portfolio.Enqueue(old(Snapshot()), task, now)
                && log == old(log) + [Accepted(task, now)]
    {
      hide Agrees;
      var scheduled := IsScheduled(task.taskId);
      if scheduled {
        return Some(AlreadyScheduled(task.taskId));
      }
      AcceptKeeps(Snapshot(), log, task, now);
      var reason := if task.blockedOnUserApproval then BlockedOnUserApproval else WaitingForSlot;
      queued := queued + [task.(enqueuedAt := Some(now), startedAt := None, totalWait := 0,
                                lastWaitReason := Some(reason), agingPromotionsApplied := 0)];
      log := log + [Accepted(task, now)];
      error := None;
    }

    /** The index with the highest priority, the earliest of those. */
    method SelectIndex() returns (index: nat)
      requires queued != []
      ensures index == BestIndex(queued)
      ensures IsBest(queued, index)
    {
      index := 0;
      for i := 1 to |queued|
        invariant IsBest(queued[..i], index)
      {
        assert queued[..i + 1] == queued[..i] + [queued[i]];
        if queued[index].priority < queued[i].priority {
          index := i;
        }
      }
      assert queued[..|queued|] == queued;
    }

    method StartNext(now: int) returns (started: Option<ScheduledTask>)
      requires Valid()
      modifies this
      ensures Valid()
      ensures started.None? <==> |old(active)| >= limit || old(queued) == []
      ensures started.None? ==> Snapshot() == old(Snapshot()) && log == old(log)
      ensures started.Some? ==>
                && IsBest(old(queued), BestIndex(old(queued)))
                && started.value == StartedRecord(old(queued)[BestIndex(old(queued))], now)
                && started.value.startedAt == Some(now) && RecordIsTrue(agingThreshold, old(log), started.value)
                && Snapshot() == Portfolio.StartNext(old(Snapshot()), now)
                && log == old(log) + [Started(started.value)]
    {
      hide Agrees;
      if |active| >= limit || queued == [] {
        return None;
      }
      StartKeeps(Snapshot(), log, now);
      NextRecordIsTrue(Snapshot(), log, now);
      hide RecordIsTrue;
      var index := SelectIndex();
      var task := queued[index];
      queued := queued[..index] + queued[index + 1..];
      var record := task.(startedAt := Some(now), totalWait := WaitAt(task, now));
      active := active[task.taskId := record];
      RecordStartedWait(record);
      log := log + [Started(record)];
      started := Some(record);
    }

    method RecordStartedWait(task: ScheduledTask)
      modifies this`startedWaitTotals, this`startedWaitLongest, this`startedWaitCounts, this`lastWaitReasons
      ensures Snapshot() == Portfolio.RecordStartedWait(old(Snapshot()), task)
    {
      var p := task.projectId;
      var total := if p in startedWaitTotals then startedWaitTotals[p] else 0;
      var longest := if p in startedWaitLongest then startedWaitLongest[p] else 0;
      startedWaitTotals := startedWaitTotals[p := total + task.totalWait];
      startedWaitLongest := startedWaitLongest[p := Max(longest, task.totalWait)];
      startedWaitCounts := startedWaitCounts[p := (if p in startedWaitCounts then startedWaitCounts[p] else 0) + 1];
      lastWaitReasons := lastWaitReasons[p := task.lastWaitReason];
    }

    method Complete(taskId: string)
      requires Valid()
      modifies this
      ensures Valid()
      ensures Snapshot() == Portfolio.Complete(old(Snapshot()), taskId)
      ensures log == old(log) + if taskId in old(active) then [Completed(taskId)] else []
    {
      hide Agrees;
      if taskId in active {
        CompleteKeeps(Snapshot(), log, taskId);
        log := log + [Completed(taskId)];
      }
      assert taskId !in active ==> active - {taskId} == active;
      active := active - {taskId};
    }

    method MarkBlockedOnUserApproval(taskId: string, blocked: bool) returns (error: Option<SchedulerError>)
      requires Valid()
      modifies this
      ensures Valid()
      ensures error == if Portfolio.IsScheduled(old(Snapshot()), taskId) then None else Some(NotScheduled(taskId))
      ensures error.Some? ==> Snapshot() == old(Snapshot()) && log == old(log)
      ensures error.None? ==>
                && Success(Snapshot()) == Mark(old(Snapshot()), taskId, blocked)
                && log == old(log) + [Marked(taskId, blocked)]
    {
      hide Agrees;
      ghost var found := FindTask(queued, taskId);
      if Mark(Snapshot(), taskId, blocked).Success? {
        MarkKeeps(Snapshot(), log, taskId, blocked);
      }
      var reason := if blocked then BlockedOnUserApproval else WaitingForSlot;
      for i := 0 to |queued|
        invariant Snapshot() == old(Snapshot()) && log == old(log)
        invariant forall j :: 0 <= j < i ==> queued[j].taskId != taskId
      {
        if queued[i].taskId == taskId {
          assert Ids(queued)[i] == taskId;
          assert found == Some(i);
          queued := queued[i := queued[i].(blockedOnUserApproval := blocked, lastWaitReason := Some(reason))];
          log := log + [Marked(taskId, blocked)];
          return None;
        }
      }
      assert found.None?;
      if taskId in active {
        active := active[taskId := active[taskId].(blockedOnUserApproval := blocked, lastWaitReason := Some(reason))];
        log := log + [Marked(taskId, blocked)];
        return None;
      }
      error := Some(NotScheduled(taskId));
    }

    /** Promote the queued tasks that are due; the result counts the priority levels added. */
    method ApplyAging(now: int, blockedIds: set<string>) returns (promotions: int)
      requires Valid()
      modifies this`queued, this`log
      ensures Valid()
      ensures Snapshot() == Portfolio.ApplyAging(old(Snapshot()), now, blockedIds)
      ensures AllAged(agingThreshold, old(queued), queued, now, blockedIds)
      ensures promotions == SumBy(queued, ByPriority()) - SumBy(old(queued), ByPriority())
      ensures log == old(log) + [Aged(now, blockedIds, promotions)]
    {
      hide Agrees;
      AgreesIsValid(Snapshot(), log);
      AgeKeeps(Snapshot(), log, now, blockedIds);
      AgeAllMeans(agingThreshold, queued, now, blockedIds);
      hide AllAged, AgingWindows, AgedBy, Crossed, ReasonOf, MostWindows;
      ghost var before, aged := queued, AgeAll(agingThreshold, queued, now, blockedIds);
      promotions := 0;
      for i := 0 to |queued|
        invariant |queued| == |before|
        invariant forall j :: 0 <= j < i ==> queued[j] == aged[j]
        invariant forall j :: i <= j < |queued| ==> queued[j] == before[j]
        invariant promotions == SumBy(queued, ByPriority()) - SumBy(before, ByPriority())
        invariant log == old(log)
      {
        var task := queued[i];
        ghost var was := queued;
        SumByUpdate(queued, i, aged[i], ByPriority());
        assert aged[i] == AgeTask(agingThreshold, task, now, blockedIds);
        assert task.priority == ByPriority()(task) && aged[i].priority == ByPriority()(aged[i]);
        if task.blockedOnUserApproval || task.taskId in blockedIds {
          queued := queued[i := task.(lastWaitReason := Some(BlockedOnUserApproval))];
        } else {
          var windows := AgingWindows(agingThreshold, task.enqueuedAt, now);
          var due := windows - task.agingPromotionsApplied;
          if due <= 0 {
            if task.lastWaitReason != Some(WaitingForSlot) {
              queued := queued[i := task.(lastWaitReason := Some(WaitingForSlot))];
            }
          } else {
            queued := queued[i := task.(priority := task.priority + due, lastWaitReason := Some(WaitingForSlot),
                                        agingPromotionsApplied := windows)];
            promotions := promotions + due;
          }
        }
        assert queued == was[i := aged[i]];
      }
      assert queued == aged;
      log := log + [Aged(now, blockedIds, promotions)];
    }

    /** The first loop of the metrics: what the caches say about every project ever started. */
    method StartedMetrics(now: int) returns (metrics: map<string, ProjectWaitMetrics>)
      requires ValidCaches(Snapshot())
      ensures metrics == Portfolio.WaitMetricsByProject(Snapshot().(queued := []), now)
    {
      metrics := map[];
      var projects := startedWaitTotals.Keys;
      while projects != {}
        invariant projects <= startedWaitTotals.Keys
        invariant metrics.Keys == startedWaitTotals.Keys - projects
        invariant forall p :: p in metrics ==> metrics[p] == CachedMetrics(Snapshot().(queued := []), p, now)
        decreases projects
      {
        var p :| p in projects;
        metrics := metrics[p := ProjectWaitMetrics(p, 0, startedWaitCounts[p], startedWaitTotals[p],
                                                   Max(0, startedWaitLongest[p]), lastWaitReasons[p])];
        projects := projects - {p};
      }
    }

    /** Metrics for every project ever started or now queued, as recomputing them from the history gives. */
    method WaitMetricsByProject(now: int) returns (metrics: map<string, ProjectWaitMetrics>)
      requires Valid()
      ensures metrics == RecomputedByProject(Starts(log), queued, now)
    {
      hide Agrees, Portfolio.WaitMetricsByProject, RecomputedByProject;
      AgreesIsValid(Snapshot(), log);
      AllMetricsAgree(Snapshot(), log, now);
      metrics := StartedMetrics(now);
      for i := 0 to |queued|
        invariant metrics == Portfolio.WaitMetricsByProject(Snapshot().(queued := queued[..i]), now)
      {
        var task := queued[i];
        var m := AccumulatorFor(metrics, task.projectId);
        var wait := WaitAt(task, now);
        AccumulateTask(Snapshot(), queued[..i], task, now);
        assert queued[..i + 1] == queued[..i] + [task];
        metrics := metrics[task.projectId :=
          m.(queuedCount := m.queuedCount + 1, totalWait := m.totalWait + wait,
             longestWait := Max(m.longestWait, wait), lastWaitReason := task.lastWaitReason)];
      }
      assert queued[..|queued|] == queued;
    }
  }
}
