/** What holds after any sequence of scheduler calls: conservation, metrics, path-independent aging. */
module PortfolioTheorems {
  import opened Common
  import opened Portfolio
  import opened PortfolioHistory

  // ---------------------------------------------------------------- conservation

  /**
   * The cap is never exceeded; ids are unique across queue and slots, each slot is held under its task's own
   * id; every acceptance is accounted for exactly once as waiting, holding a slot or completed; and the queue
   * is in order of acceptance.
   */
  lemma CapAndConservation(limit: int, agingThreshold: int, ops: seq<Operation>)
    requires limit >= 1 && agingThreshold > 0
    ensures var h := Run(limit, agingThreshold, ops);
            && |h.state.active| <= limit
            && NoDuplicates(Ids(h.state.queued))
            && (forall id :: id in h.state.active ==>
                  id !in Ids(h.state.queued) && h.state.active[id].taskId == id)
            && multiset(AcceptedIds(h.log)) ==
               multiset(Ids(h.state.queued)) + multiset(h.state.active.Keys) + multiset(CompletedIds(h.log))
            && Ids(h.state.queued) == Waiting(h.log)
  {
    RunAgrees(limit, agingThreshold, ops);
  }

  // ---------------------------------------------------------------- aging

  /** Entry i is an aging call, made since the latest acceptance of id, that did not skip it. */
  ghost predicate AgesAt(log: Log, id: string, i: int) {
    && 0 <= i < |log| && log[i].Aged?
    && !IsBlocked(log[..i], id) && id !in log[i].blockedIds
    && BirthOf(log[..i], id).Some?
    && forall j :: i < j < |log| && log[j].Accepted? ==> log[j].task.taskId != id
  }

  /** The times of those calls. This is a set: their order and number are not in it. */
  ghost function AgingTimes(log: Log, id: string): set<int> {
    set i | 0 <= i < |log| && AgesAt(log, id, i) :: log[i].now
  }

  /** The most thresholds crossed at any of the times, and zero if there are none. */
  ghost predicate IsMostWindows(agingThreshold: int, enqueuedAt: int, times: set<int>, w: int) {
    && (forall now, v :: now in times && Crossed(agingThreshold, enqueuedAt, now, v) ==> v <= w)
    && (w == 0 || exists now :: now in times && Crossed(agingThreshold, enqueuedAt, now, w))
  }

  /** The same in terms of the count the scheduler takes. */
  ghost predicate IsMostCounted(agingThreshold: int, enqueuedAt: int, times: set<int>, w: int)
    requires agingThreshold > 0
  {
    && (forall now :: now in times ==> AgingWindows(agingThreshold, Some(enqueuedAt), now) <= w)
    && (w == 0 || exists now :: now in times && AgingWindows(agingThreshold, Some(enqueuedAt), now) == w)
  }

  lemma CountedIsCrossed(agingThreshold: int, enqueuedAt: int, times: set<int>, w: int)
    requires agingThreshold > 0
    ensures IsMostCounted(agingThreshold, enqueuedAt, times, w) <==> IsMostWindows(agingThreshold, enqueuedAt, times, w)
  {
    forall now, v | Crossed(agingThreshold, enqueuedAt, now, v)
      ensures v == AgingWindows(agingThreshold, Some(enqueuedAt), now)
    {
      AgingWindowsCrossed(agingThreshold, enqueuedAt, now);
      CrossedOnce(agingThreshold, enqueuedAt, now, v, AgingWindows(agingThreshold, Some(enqueuedAt), now));
    }
    forall now
      ensures Crossed(agingThreshold, enqueuedAt, now, AgingWindows(agingThreshold, Some(enqueuedAt), now))
    {
      AgingWindowsCrossed(agingThreshold, enqueuedAt, now);
    }
    hide Crossed, AgingWindows;
  }

  lemma AgesAtBefore(log: Log, e: Event, id: string, i: int)
    requires i < |log|
    ensures AgesAt(log + [e], id, i) <==> AgesAt(log, id, i) && !(e.Accepted? && e.task.taskId == id)
  {
    var all := log + [e];
    assert 0 <= i ==> all[..i] == log[..i];
    assert all[|log|] == e;
    assert forall j :: 0 <= j < |log| ==> all[j] == log[j];
  }

  lemma AgesAtLast(log: Log, e: Event, id: string)
    ensures AgesAt(log + [e], id, |log|) <==>
            e.Aged? && BirthOf(log, id).Some? && !IsBlocked(log, id) && id !in e.blockedIds
  {
    assert (log + [e])[..|log|] == log;
  }

  lemma AgingTimesAppend(log: Log, e: Event, id: string)
    ensures AgingTimes(log + [e], id) ==
            if e.Accepted? && e.task.taskId == id then {}
            else if AgesAt(log + [e], id, |log|) then AgingTimes(log, id) + {e.now}
            else AgingTimes(log, id)
  {
    var all := log + [e];
    AgesAtLast(log, e, id);
    forall i | i < |log|
      ensures AgesAt(all, id, i) <==> AgesAt(log, id, i) && !(e.Accepted? && e.task.taskId == id)
    {
      AgesAtBefore(log, e, id, i);
    }
    hide AgesAt;
    forall i | 0 <= i < |log| && AgesAt(log, id, i) && AgesAt(all, id, i)
      ensures log[i].now in AgingTimes(all, id)
    {
      assert all[i] == log[i];
    }
  }

  /** The log's own count, taken call by call, is the largest one over the set of times. */
  lemma {:induction false} MostWindowsIsMost(agingThreshold: int, log: Log, id: string)
    requires agingThreshold > 0 && BirthOf(log, id).Some?
    ensures IsMostCounted(agingThreshold, BirthOf(log, id).value.now, AgingTimes(log, id),
                          MostWindows(agingThreshold, log, id))
  {
    var rest, e := log[..|log| - 1], log[|log| - 1];
    assert log == rest + [e];
    AgingTimesAppend(rest, e, id);
    AgesAtLast(rest, e, id);
    hide AgesAt, AgingTimes, AgingWindows;
    if !(e.Accepted? && e.task.taskId == id) {
      MostWindowsIsMost(agingThreshold, rest, id);
    }
  }

  /**
   * Aging is path-independent: a queued task's priority is its priority when accepted plus its promotions,
   * and these are the largest window count over the set of times of the aging calls that did not skip it.
   */
  lemma AgingIsPathIndependent(limit: int, agingThreshold: int, ops: seq<Operation>, i: nat)
    requires limit >= 1 && agingThreshold > 0
    requires i < |Run(limit, agingThreshold, ops).state.queued|
    ensures var h := Run(limit, agingThreshold, ops);
            var t := h.state.queued[i];
            var birth := BirthOf(h.log, t.taskId);
            && birth.Some? && t.enqueuedAt == Some(birth.value.now)
            && IsMostWindows(agingThreshold, birth.value.now, AgingTimes(h.log, t.taskId), t.agingPromotionsApplied)
            && t.priority == birth.value.task.priority + t.agingPromotionsApplied
  {
    RunAgrees(limit, agingThreshold, ops);
    var h := Run(limit, agingThreshold, ops);
    assert AgreesOnTask(agingThreshold, h.state.queued[i], h.log);
    var id := h.state.queued[i].taskId;
    MostWindowsIsMost(agingThreshold, h.log, id);
    CountedIsCrossed(agingThreshold, BirthOf(h.log, id).value.now, AgingTimes(h.log, id),
                     MostWindows(agingThreshold, h.log, id));
  }

  lemma MostWindowsIsUnique(agingThreshold: int, enqueuedAt: int, times: set<int>, v: int, w: int)
    requires agingThreshold > 0 && v >= 0 && w >= 0
    requires IsMostWindows(agingThreshold, enqueuedAt, times, v) && IsMostWindows(agingThreshold, enqueuedAt, times, w)
    ensures v == w
  {
    hide Crossed;
  }

  /**
   * Two runs, whatever their calls: tasks accepted at the same time with the same priority, and aged without
   * being skipped at the same set of times, in any order and however often, have the same priority.
   */
  lemma SameTimesSamePriority(limit: int, limit': int, agingThreshold: int,
                              ops: seq<Operation>, ops': seq<Operation>, i: nat, i': nat)
    requires limit >= 1 && limit' >= 1 && agingThreshold > 0
    requires i < |Run(limit, agingThreshold, ops).state.queued| && i' < |Run(limit', agingThreshold, ops').state.queued|
    requires var h, h' := Run(limit, agingThreshold, ops), Run(limit', agingThreshold, ops');
             var id, id' := h.state.queued[i].taskId, h'.state.queued[i'].taskId;
             var birth, birth' := BirthOf(h.log, id), BirthOf(h'.log, id');
             && birth.Some? && birth'.Some? && birth.value.now == birth'.value.now
             && birth.value.task.priority == birth'.value.task.priority
             && AgingTimes(h.log, id) == AgingTimes(h'.log, id')
    ensures Run(limit, agingThreshold, ops).state.queued[i].priority ==
            Run(limit', agingThreshold, ops').state.queued[i'].priority
  {
    AgingIsPathIndependent(limit, agingThreshold, ops, i);
    AgingIsPathIndependent(limit', agingThreshold, ops', i');
    hide Run, AgingTimes, IsMostWindows, BirthOf;
    var h, h' := Run(limit, agingThreshold, ops), Run(limit', agingThreshold, ops');
    var t, t' := h.state.queued[i], h'.state.queued[i'];
    assert t.agingPromotionsApplied >= 0 && t'.agingPromotionsApplied >= 0 by {
      PromotionsNonNegative(limit, agingThreshold, ops, i);
      PromotionsNonNegative(limit', agingThreshold, ops', i');
    }
    MostWindowsIsUnique(agingThreshold, BirthOf(h.log, t.taskId).value.now, AgingTimes(h.log, t.taskId),
                        t.agingPromotionsApplied, t'.agingPromotionsApplied);
  }

  lemma PromotionsNonNegative(limit: int, agingThreshold: int, ops: seq<Operation>, i: nat)
    requires limit >= 1 && agingThreshold > 0
    requires i < |Run(limit, agingThreshold, ops).state.queued|
    ensures Run(limit, agingThreshold, ops).state.queued[i].agingPromotionsApplied >= 0
  {
    RunAgrees(limit, agingThreshold, ops);
  }

  lemma WindowsFloor(agingThreshold: int, waited: int, n: int)
    requires agingThreshold > 0 && waited >= n * agingThreshold
    ensures waited / agingThreshold >= n
  {
    var quotient := waited / agingThreshold;
    assert waited < (quotient + 1) * agingThreshold;
    if quotient + 1 <= n {
      TimesMonotone(quotient + 1, n, agingThreshold);
    }
  }

  lemma WindowsMonotone(agingThreshold: int, enqueuedAt: int, now: int, later: int)
    requires agingThreshold > 0 && now <= later
    ensures AgingWindows(agingThreshold, Some(enqueuedAt), now) <= AgingWindows(agingThreshold, Some(enqueuedAt), later)
  {
    var n := AgingWindows(agingThreshold, Some(enqueuedAt), now);
    if n > 0 {
      assert now - enqueuedAt >= n * agingThreshold;
      WindowsFloor(agingThreshold, later - enqueuedAt, n);
    }
  }

  /** Of all the calls only one made at the latest time matters: the promotions are the thresholds crossed by then. */
  lemma OnlyLatestAgingMatters(agingThreshold: int, enqueuedAt: int, times: set<int>, w: int, latest: int)
    requires agingThreshold > 0 && w >= 0 && IsMostWindows(agingThreshold, enqueuedAt, times, w)
    requires latest in times && forall now :: now in times ==> now <= latest
    ensures Crossed(agingThreshold, enqueuedAt, latest, w)
  {
    CountedIsCrossed(agingThreshold, enqueuedAt, times, w);
    AgingWindowsCrossed(agingThreshold, enqueuedAt, latest);
    hide AgingWindows, Crossed, IsMostWindows;
    forall now | now in times
      ensures AgingWindows(agingThreshold, Some(enqueuedAt), now) <=
              AgingWindows(agingThreshold, Some(enqueuedAt), latest)
    {
      WindowsMonotone(agingThreshold, enqueuedAt, now, latest);
    }
  }

  /** The counts aging calls return add up to the promotions of all tasks queued or ever started. */
  lemma ReturnedLevelsConserved(limit: int, agingThreshold: int, ops: seq<Operation>)
    requires limit >= 1 && agingThreshold > 0
    ensures var h := Run(limit, agingThreshold, ops);
            LevelsReturned(h.log) ==
            SumBy(h.state.queued, ByPromotions()) + SumBy(Starts(h.log), ByPromotions())
  {
    RunAgrees(limit, agingThreshold, ops);
  }

  /** Aging never lowers a priority, and all it adds in priority it adds in promotions. */
  lemma LevelsAreDuePromotions(agingThreshold: int, q: seq<ScheduledTask>, now: int, blockedIds: set<string>)
    requires agingThreshold > 0
    ensures var aged := AgeAll(agingThreshold, q, now, blockedIds);
            && SumBy(aged, ByPriority()) - SumBy(q, ByPriority()) ==
               SumBy(aged, ByPromotions()) - SumBy(q, ByPromotions())
            && forall i :: 0 <= i < |q| ==> aged[i].priority >= q[i].priority
  {
    SumByShift(q, AgeAll(agingThreshold, q, now, blockedIds), ByPriority(), ByPromotions());
  }

  // ---------------------------------------------------------------- reasons

  /** After any calls, what a queued or an active task says about why it waits is what the log says. */
  lemma ReasonsAgree(limit: int, agingThreshold: int, ops: seq<Operation>)
    requires limit >= 1 && agingThreshold > 0
    ensures var h := Run(limit, agingThreshold, ops);
            && (forall i :: 0 <= i < |h.state.queued| ==>
                  h.state.queued[i].lastWaitReason == Some(ReasonOf(h.log, h.state.queued[i].taskId)))
            && (forall id :: id in h.state.active ==>
                  && h.state.active[id].lastWaitReason == Some(ReasonOf(h.log, id))
                  && h.state.active[id].blockedOnUserApproval == IsBlocked(h.log, id))
  {
    RunAgrees(limit, agingThreshold, ops);
    hide ReasonOf, IsBlocked;
    var h := Run(limit, agingThreshold, ops);
    forall i | 0 <= i < |h.state.queued|
      ensures h.state.queued[i].lastWaitReason == Some(ReasonOf(h.log, h.state.queued[i].taskId))
    {
      assert AgreesOnTask(agingThreshold, h.state.queued[i], h.log);
    }
    forall id | id in h.state.active
      ensures h.state.active[id].lastWaitReason == Some(ReasonOf(h.log, id))
      ensures h.state.active[id].blockedOnUserApproval == IsBlocked(h.log, id)
    {
      assert AgreesOnHolder(h.state.active[id], h.log);
    }
  }

  // ---------------------------------------------------------------- recorded waits

  /**
   * The record of a start says what the log before it says: the task as accepted, with the promotions it has had,
   * why it waited last, and that it waited from its acceptance to its start.
   */
  ghost predicate RecordIsTrue(agingThreshold: int, before: Log, record: ScheduledTask)
    requires agingThreshold > 0
  {
    var birth := BirthOf(before, record.taskId);
    && birth.Some? && record.startedAt.Some?
    && record.totalWait == Max(0, record.startedAt.value - birth.value.now)
    && AgreesOnTask(agingThreshold, record.(startedAt := None, totalWait := 0), before)
  }

  ghost predicate RecordsAreTrue(agingThreshold: int, log: Log)
    requires agingThreshold > 0
  {
    forall i :: 0 <= i < |log| && log[i].Started? ==> RecordIsTrue(agingThreshold, log[..i], log[i].record)
  }

  lemma RecordsAppend(agingThreshold: int, log: Log, e: Event)
    requires agingThreshold > 0 && RecordsAreTrue(agingThreshold, log)
    requires e.Started? ==> RecordIsTrue(agingThreshold, log, e.record)
    ensures RecordsAreTrue(agingThreshold, log + [e])
  {
    var all := log + [e];
    forall i | 0 <= i < |all| && all[i].Started?
      ensures RecordIsTrue(agingThreshold, all[..i], all[i].record)
    {
      assert all[..i] == log[..i];
    }
  }

  lemma NextRecordIsTrue(s: State, log: Log, now: int)
    requires Agrees(s, log) && CanStart(s)
    ensures RecordIsTrue(s.agingThreshold, log, NextRecord(s, now)) && NextRecord(s, now).startedAt == Some(now)
  {
    assert AgreesOnTask(s.agingThreshold, s.queued[BestIndex(s.queued)], log);
  }

  /**
   * After any calls, the record of each start is what the log before it says; its wait is the time from the latest
   * acceptance, and zero if the clock has gone back: the metrics rest on the times in the log.
   */
  lemma {:induction false} RecordedWaitsAreTrue(limit: int, agingThreshold: int, ops: seq<Operation>)
    requires limit >= 1 && agingThreshold > 0
    ensures RecordsAreTrue(agingThreshold, Run(limit, agingThreshold, ops).log)
  {
    if ops != [] {
      var h, op := Run(limit, agingThreshold, ops[..|ops| - 1]), ops[|ops| - 1];
      RecordedWaitsAreTrue(limit, agingThreshold, ops[..|ops| - 1]);
      RunAgrees(limit, agingThreshold, ops[..|ops| - 1]);
      PerformKeepsRecords(h, op);
    }
  }

  lemma PerformKeepsRecords(h: Traced, op: Operation)
    requires Agrees(h.state, h.log) && RecordsAreTrue(h.state.agingThreshold, h.log)
    ensures RecordsAreTrue(h.state.agingThreshold, Perform(h, op).log)
  {
    AgreesIsValid(h.state, h.log);
    if op.StartOp? && CanStart(h.state) {
      NextRecordIsTrue(h.state, h.log, op.now);
    }
    hide Agrees, RecordsAreTrue, RecordIsTrue, NextRecord, StartNext, ApplyAging, LevelsAdded;
    var log := Perform(h, op).log;
    if log != h.log {
      RecordsAppend(h.state.agingThreshold, h.log, log[|h.log|]);
    }
  }

  // ---------------------------------------------------------------- metrics

  /** A project's metrics recomputed from every record of a start and the current queue, without the caches. */
  function RecomputedMetrics(starts: seq<ScheduledTask>, q: seq<ScheduledTask>, p: string, now: int)
    : ProjectWaitMetrics
  {
    ProjectWaitMetrics(
      p,
      SumBy(q, ByCount(p)),
      SumBy(starts, ByCount(p)),
      SumBy(starts, ByRecordedWait(p)) + SumBy(q, ByWait(p, now)),
      Max(MaxBy(starts, ByRecordedWait(p)), MaxBy(q, ByWait(p, now))),
      LastReason(q, p, LastReason(starts, p, None)))
  }

  lemma {:induction false} NoReason(tasks: seq<ScheduledTask>, p: string, none: Option<WaitReason>)
    requires p !in Projects(tasks)
    ensures LastReason(tasks, p, none) == none
  {
    if tasks != [] {
      var n := |tasks| - 1;
      assert tasks == tasks[..n] + [tasks[n]];
      ProjectsAppend(tasks[..n], tasks[n]);
      NoReason(tasks[..n], p, none);
    }
  }

  lemma ProjectMetricsAgree(s: State, starts: seq<ScheduledTask>, p: string, now: int)
    requires ValidCaches(s) && AgreesOnCaches(s, starts)
    ensures CachedMetrics(s, p, now) == RecomputedMetrics(starts, s.queued, p, now)
  {
    if p !in Projects(starts) {
      AbsentProject(starts, p);
      NoReason(starts, p, None);
    } else {
      assert AgreesOnProject(s, starts, p);
    }
  }

  lemma EveryProjectAgrees(s: State, starts: seq<ScheduledTask>, now: int)
    requires ValidCaches(s) && AgreesOnCaches(s, starts)
    ensures forall p :: CachedMetrics(s, p, now) == RecomputedMetrics(starts, s.queued, p, now)
  {
    forall p
      ensures CachedMetrics(s, p, now) == RecomputedMetrics(starts, s.queued, p, now)
    {
      ProjectMetricsAgree(s, starts, p, now);
    }
  }

  /** All metrics, recomputed from the whole history for every project ever started or now queued. */
  function RecomputedByProject(starts: seq<ScheduledTask>, q: seq<ScheduledTask>, now: int)
    : map<string, ProjectWaitMetrics>
  {
    map p | p in Projects(starts) + Projects(q) :: RecomputedMetrics(starts, q, p, now)
  }

  lemma AllMetricsOfCaches(s: State, starts: seq<ScheduledTask>, now: int)
    requires ValidCaches(s) && AgreesOnCaches(s, starts)
    ensures WaitMetricsByProject(s, now) == RecomputedByProject(starts, s.queued, now)
  {
    EveryProjectAgrees(s, starts, now);
    hide CachedMetrics, RecomputedMetrics, ValidCaches, AgreesOnProject, Projects;
  }

  lemma AllMetricsAgree(s: State, log: Log, now: int)
    requires Agrees(s, log)
    ensures WaitMetricsByProject(s, now) == RecomputedByProject(Starts(log), s.queued, now)
  {
    AllMetricsOfCaches(s, Starts(log), now);
  }

  /** After any calls the metrics read from the caches are those recomputed from the whole history. */
  lemma MetricsAgreeWithHistory(limit: int, agingThreshold: int, ops: seq<Operation>, now: int)
    requires limit >= 1 && agingThreshold > 0
    ensures var h := Run(limit, agingThreshold, ops);
            WaitMetricsByProject(h.state, now) == RecomputedByProject(Starts(h.log), h.state.queued, now)
  {
    RunAgrees(limit, agingThreshold, ops);
    AllMetricsAgree(Run(limit, agingThreshold, ops).state, Run(limit, agingThreshold, ops).log, now);
  }

  lemma {:induction false} LastReasonRemoveAt(tasks: seq<ScheduledTask>, i: nat, p: string, none: Option<WaitReason>)
    requires i < |tasks| && tasks[i].projectId != p
    ensures LastReason(RemoveAt(tasks, i), p, none) == LastReason(tasks, p, none)
  {
    var n := |tasks| - 1;
    if i == n {
      assert RemoveAt(tasks, i) == tasks[..n];
    } else {
      LastReasonRemoveAt(tasks[..n], i, p, none);
      assert RemoveAt(tasks, i) == RemoveAt(tasks[..n], i) + [tasks[n]];
      assert RemoveAt(tasks, i)[..n - 1] == RemoveAt(tasks[..n], i);
    }
  }

  lemma OwnWaitsConserved(s: State, now: int)
    requires Valid(s) && CanStart(s)
    ensures var p := NextRecord(s, now).projectId;
            var before, after := CachedMetrics(s, p, now), CachedMetrics(StartNext(s, now), p, now);
            after == before.(queuedCount := before.queuedCount - 1, startedCount := before.startedCount + 1,
                             lastWaitReason := after.lastWaitReason)
  {
    var i, record := BestIndex(s.queued), NextRecord(s, now);
    assert s.queued[i].enqueuedAt.Some? && record.totalWait == WaitAt(s.queued[i], now) >= 0;
    ByRemoveAt(s.queued, i, ByCount(record.projectId));
    ByRemoveAt(s.queued, i, ByWait(record.projectId, now));
  }

  /** Removing another project's task changes nothing a project's metrics read from the queue. */
  lemma OthersRemoveAt(q: seq<ScheduledTask>, i: nat, p: string, now: int, none: Option<WaitReason>)
    requires i < |q| && q[i].projectId != p
    ensures SumBy(RemoveAt(q, i), ByCount(p)) == SumBy(q, ByCount(p))
    ensures SumBy(RemoveAt(q, i), ByWait(p, now)) == SumBy(q, ByWait(p, now))
    ensures MaxBy(RemoveAt(q, i), ByWait(p, now)) == MaxBy(q, ByWait(p, now))
    ensures LastReason(RemoveAt(q, i), p, none) == LastReason(q, p, none)
  {
    hide SumBy, MaxBy, LastReason, RemoveAt;
    ByRemoveAt(q, i, ByCount(p));
    ByRemoveAt(q, i, ByWait(p, now));
    LastReasonRemoveAt(q, i, p, none);
  }

  lemma OtherWaitsUntouched(s: State, now: int, p: string)
    requires Valid(s) && CanStart(s) && p != NextRecord(s, now).projectId
    ensures CachedMetrics(StartNext(s, now), p, now) == CachedMetrics(s, p, now)
  {
    hide Valid, BestIndex, SumBy, MaxBy, LastReason, RemoveAt, ByCount, ByWait, WaitAt;
    var none := if p in s.lastWaitReasons then s.lastWaitReasons[p] else None;
    OthersRemoveAt(s.queued, BestIndex(s.queued), p, now, none);
  }

  /**
   * Starting conserves waits: at the starting instant the started task's project keeps its total and its
   * longest wait, has one task fewer queued and one more started; no other project's metrics change at all.
   * The clock may have gone backwards.
   */
  lemma StartingConservesWaits(s: State, now: int, p: string)
    requires Valid(s) && CanStart(s)
    ensures var before, after := CachedMetrics(s, p, now), CachedMetrics(StartNext(s, now), p, now);
            if p == NextRecord(s, now).projectId then
              after == before.(queuedCount := before.queuedCount - 1, startedCount := before.startedCount + 1,
                               lastWaitReason := after.lastWaitReason)
            else after == before
  {
    hide Valid, CachedMetrics, StartNext;
    if p == NextRecord(s, now).projectId {
      OwnWaitsConserved(s, now);
    } else {
      OtherWaitsUntouched(s, now, p);
    }
  }
}
