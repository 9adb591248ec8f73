/** The portfolio scheduler's data and the meaning of its operations. Times and waits are in microseconds. */
module Portfolio {
  import opened Common

  datatype WaitReason = WaitingForSlot | BlockedOnUserApproval

  datatype ScheduledTask = ScheduledTask(
    taskId: string,
    projectId: string,
    priority: int,
    enqueuedAt: Option<int>,
    startedAt: Option<int>,
    totalWait: int,
    lastWaitReason: Option<WaitReason>,
    blockedOnUserApproval: bool,
    agingPromotionsApplied: int)

  datatype ProjectWaitMetrics = ProjectWaitMetrics(
    projectId: string,
    queuedCount: int,
    startedCount: int,
    totalWait: int,
    longestWait: int,
    lastWaitReason: Option<WaitReason>)

  /** The fields of a scheduler: its settings, its queue, its active map and its four caches. */
  datatype State = State(
    limit: int,
    agingThreshold: int,
    queued: seq<ScheduledTask>,
    active: map<string, ScheduledTask>,
    startedWaitTotals: map<string, int>,
    startedWaitLongest: map<string, int>,
    startedWaitCounts: map<string, int>,
    lastWaitReasons: map<string, Option<WaitReason>>)

  // ---------------------------------------------------------------- sums and maxima over tasks

  type Measure = ScheduledTask -> int

  function SumBy(tasks: seq<ScheduledTask>, f: Measure): int {
    if tasks == [] then 0 else SumBy(tasks[..|tasks| - 1], f) + f(tasks[|tasks| - 1])
  }

  /** The largest value, and zero when none is positive. */
  function MaxBy(tasks: seq<ScheduledTask>, f: Measure): (m: int)
    ensures m >= 0
  {
    if tasks == [] then 0 else Max(MaxBy(tasks[..|tasks| - 1], f), f(tasks[|tasks| - 1]))
  }

  function ByPriority(): Measure { (t: ScheduledTask) => t.priority }

  function ByPromotions(): Measure { (t: ScheduledTask) => t.agingPromotionsApplied }

  function ByCount(p: string): Measure { (t: ScheduledTask) => if t.projectId == p then 1 else 0 }

  /** The wait of a project's task if `now` ends it. */
  function ByWait(p: string, now: int): Measure { (t: ScheduledTask) => if t.projectId == p then WaitAt(t, now) else 0 }

  /** The wait recorded when a project's task was started. */
  function ByRecordedWait(p: string): Measure { (t: ScheduledTask) => if t.projectId == p then t.totalWait else 0 }

  lemma ByAppend(tasks: seq<ScheduledTask>, t: ScheduledTask, f: Measure)
    ensures SumBy(tasks + [t], f) == SumBy(tasks, f) + f(t)
    ensures MaxBy(tasks + [t], f) == Max(MaxBy(tasks, f), f(t))
  {
    assert (tasks + [t])[..|tasks|] == tasks;
  }

  lemma {:induction false} ByRemoveAt(tasks: seq<ScheduledTask>, i: nat, f: Measure)
    requires i < |tasks|
    ensures SumBy(tasks, f) == SumBy(RemoveAt(tasks, i), f) + f(tasks[i])
    ensures MaxBy(tasks, f) == Max(MaxBy(RemoveAt(tasks, i), f), f(tasks[i]))
  {
    var n := |tasks| - 1;
    if i == n {
      assert RemoveAt(tasks, i) == tasks[..n];
    } else {
      ByRemoveAt(tasks[..n], i, f);
      assert RemoveAt(tasks, i) == RemoveAt(tasks[..n], i) + [tasks[n]];
      ByAppend(RemoveAt(tasks[..n], i), tasks[n], f);
    }
  }

  lemma {:induction false} SumByShift(tasks: seq<ScheduledTask>, tasks': seq<ScheduledTask>, f: Measure, f': Measure)
    requires |tasks| == |tasks'|
    requires forall i :: 0 <= i < |tasks| ==> f(tasks'[i]) - f(tasks[i]) == f'(tasks'[i]) - f'(tasks[i])
    ensures SumBy(tasks', f) - SumBy(tasks, f) == SumBy(tasks', f') - SumBy(tasks, f')
  {
    if tasks != [] {
      SumByShift(tasks[..|tasks| - 1], tasks'[..|tasks| - 1], f, f');
    }
  }

  datatype SchedulerError =
    | SlotLimitTooSmall
    | ThresholdNotPositive
    | AlreadyScheduled(taskId: string)
    | NotScheduled(taskId: string)

  const DEFAULT_ACTIVE_SLOT_LIMIT := 3
  const DEFAULT_AGING_THRESHOLD := 24 * 60 * 60 * 1_000_000

  function Empty(limit: int, agingThreshold: int): State {
    State(limit, agingThreshold, [], map[], map[], map[], map[], map[])
  }

  function Ids(tasks: seq<ScheduledTask>): (ids: seq<string>)
    ensures |ids| == |tasks|
  {
    seq(|tasks|, i requires 0 <= i < |tasks| => tasks[i].taskId)
  }

  predicate IsScheduled(s: State, taskId: string) {
    taskId in s.active || taskId in Ids(s.queued)
  }

  function ReasonFor(blocked: bool): WaitReason {
    if blocked then BlockedOnUserApproval else WaitingForSlot
  }

  // ---------------------------------------------------------------- enqueue

  /** The record the queue keeps of an accepted task: whatever the caller claimed about waiting is reset. */
  function Enlisted(task: ScheduledTask, now: int): ScheduledTask {
    task.(enqueuedAt := Some(now), startedAt := None, totalWait := 0,
          lastWaitReason := Some(ReasonFor(task.blockedOnUserApproval)), agingPromotionsApplied := 0)
  }

  function Enqueue(s: State, task: ScheduledTask, now: int): Result<State, SchedulerError> {
    if IsScheduled(s, task.taskId) then Failure(AlreadyScheduled(task.taskId))
    else Success(s.(queued := s.queued + [Enlisted(task, now)]))
  }

  // ---------------------------------------------------------------- start

  /** The chosen index: no task has a higher priority, and no earlier one has the same. */
  ghost predicate IsBest(q: seq<ScheduledTask>, i: int) {
    && 0 <= i < |q|
    && (forall j :: 0 <= j < |q| ==> q[j].priority <= q[i].priority)
    && (forall j :: 0 <= j < i ==> q[j].priority < q[i].priority)
  }

  function BestIndex(q: seq<ScheduledTask>): (i: nat)
    requires q != []
    ensures IsBest(q, i)
  {
    var n := |q| - 1;
    if n == 0 then 0
    else
      var i := BestIndex(q[..n]);
      if q[i].priority < q[n].priority then n else i
  }

  function RemoveAt<T>(s: seq<T>, i: nat): (r: seq<T>)
    requires i < |s|
    ensures |r| == |s| - 1
    ensures forall k :: 0 <= k < |r| ==> r[k] == s[if k < i then k else k + 1]
  {
    s[..i] + s[i + 1..]
  }

  function WaitAt(task: ScheduledTask, now: int): int {
    match task.enqueuedAt
    case None => task.totalWait
    case Some(since) => Max(0, now - since)
  }

  function StartedRecord(task: ScheduledTask, now: int): ScheduledTask {
    task.(startedAt := Some(now), totalWait := WaitAt(task, now))
  }

  function CachedInt(m: map<string, int>, key: string): int {
    if key in m then m[key] else 0
  }

  function RecordStartedWait(s: State, task: ScheduledTask): State {
    var p := task.projectId;
    s.(startedWaitTotals := s.startedWaitTotals[p := CachedInt(s.startedWaitTotals, p) + task.totalWait],
       startedWaitLongest := s.startedWaitLongest[p := Max(CachedInt(s.startedWaitLongest, p), task.totalWait)],
       startedWaitCounts := s.startedWaitCounts[p := CachedInt(s.startedWaitCounts, p) + 1],
       lastWaitReasons := s.lastWaitReasons[p := task.lastWaitReason])
  }

  predicate CanStart(s: State) {
    |s.active| < s.limit && s.queued != []
  }

  function NextRecord(s: State, now: int): ScheduledTask
    requires CanStart(s)
  {
    StartedRecord(s.queued[BestIndex(s.queued)], now)
  }

  /** The chosen task leaves the queue and takes a slot. */
  function TakeSlot(s: State, now: int): State
    requires CanStart(s)
  {
    var record := NextRecord(s, now);
    s.(queued := RemoveAt(s.queued, BestIndex(s.queued)), active := s.active[record.taskId := record])
  }

  function StartNext(s: State, now: int): State
    requires CanStart(s)
  {
    RecordStartedWait(TakeSlot(s, now), NextRecord(s, now))
  }

  // ---------------------------------------------------------------- complete, mark

  function Complete(s: State, taskId: string): State {
    s.(active := s.active - {taskId})
  }

  function MarkTask(task: ScheduledTask, blocked: bool): ScheduledTask {
    task.(blockedOnUserApproval := blocked, lastWaitReason := Some(ReasonFor(blocked)))
  }

  function FindTask(q: seq<ScheduledTask>, taskId: string): (r: Option<nat>)
    ensures r.None? <==> taskId !in Ids(q)
    ensures r.Some? ==> r.value < |q| && q[r.value].taskId == taskId
    ensures r.Some? ==> forall j :: 0 <= j < r.value ==> q[j].taskId != taskId
  {
    if q == [] then None
    else
      var n := |q| - 1;
      var r := FindTask(q[..n], taskId);
      assert Ids(q) == Ids(q[..n]) + [q[n].taskId];
      assert forall j :: 0 <= j < n ==> Ids(q[..n])[j] == q[j].taskId;
      if r.Some? then r else if q[n].taskId == taskId then Some(n) else None
  }

  function Mark(s: State, taskId: string, blocked: bool): Result<State, SchedulerError> {
    var i := FindTask(s.queued, taskId);
    if i.Some? then Success(s.(queued := s.queued[i.value := MarkTask(s.queued[i.value], blocked)]))
    else if taskId in s.active then Success(s.(active := s.active[taskId := MarkTask(s.active[taskId], blocked)]))
    else Failure(NotScheduled(taskId))
  }

  // ---------------------------------------------------------------- aging

  /**
   * What a window count means: no crossing before more than one threshold has been waited, and from then on
   * the number of whole thresholds that fit into the wait.
   */
  ghost predicate Crossed(agingThreshold: int, since: int, now: int, w: int) {
    if now - since <= agingThreshold then w == 0
    else w >= 1 && w * agingThreshold <= now - since < (w + 1) * agingThreshold
  }

  /** Whole thresholds waited; exactly one threshold is not yet a crossing. */
  function AgingWindows(agingThreshold: int, enqueuedAt: Option<int>, now: int): (w: int)
    requires agingThreshold > 0
    ensures w >= 0
  {
    if enqueuedAt.None? then 0
    else
      var waited := now - enqueuedAt.value;
      if waited <= agingThreshold then 0 else waited / agingThreshold
  }

  /** Only one number is the window count. */
  lemma CrossedOnce(agingThreshold: int, since: int, now: int, v: int, w: int)
    requires agingThreshold > 0 && Crossed(agingThreshold, since, now, v) && Crossed(agingThreshold, since, now, w)
    ensures v == w
  {
    if v < w {
      TimesMonotone(v + 1, w, agingThreshold);
    } else if w < v {
      TimesMonotone(w + 1, v, agingThreshold);
    }
  }

  /** The count is the number of thresholds crossed. */
  lemma AgingWindowsCrossed(agingThreshold: int, since: int, now: int)
    requires agingThreshold > 0
    ensures Crossed(agingThreshold, since, now, AgingWindows(agingThreshold, Some(since), now))
  {
    var waited, w := now - since, AgingWindows(agingThreshold, Some(since), now);
    if waited > agingThreshold {
      assert waited == agingThreshold * w + waited % agingThreshold;
      assert (w + 1) * agingThreshold == w * agingThreshold + agingThreshold;
      if w < 1 {
        TimesMonotone(w, 0, agingThreshold);
      }
    }
  }

  lemma TimesMonotone(m: int, n: int, factor: int)
    requires m <= n && factor >= 0
    ensures m * factor <= n * factor
  {
  }

  function AgeTask(agingThreshold: int, task: ScheduledTask, now: int, blockedIds: set<string>): ScheduledTask
    requires agingThreshold > 0
  {
    if task.blockedOnUserApproval || task.taskId in blockedIds then
      task.(lastWaitReason := Some(BlockedOnUserApproval))
    else
      var windows := AgingWindows(agingThreshold, task.enqueuedAt, now);
      var due := windows - task.agingPromotionsApplied;
      if due <= 0 then task.(lastWaitReason := Some(WaitingForSlot))
      else task.(priority := task.priority + due, lastWaitReason := Some(WaitingForSlot),
                 agingPromotionsApplied := windows)
  }

  /**
   * What aging does to a task, w being the thresholds it has crossed: skipped, it is only noted as blocked;
   * otherwise it gets the promotions it has not had yet, each worth one level, and waits for a slot.
   */
  ghost predicate AgedBy(t: ScheduledTask, aged: ScheduledTask, blockedIds: set<string>, w: int) {
    if t.blockedOnUserApproval || t.taskId in blockedIds then
      aged == t.(lastWaitReason := Some(BlockedOnUserApproval))
    else if w <= t.agingPromotionsApplied then
      aged == t.(lastWaitReason := Some(WaitingForSlot))
    else
      aged == t.(lastWaitReason := Some(WaitingForSlot), agingPromotionsApplied := w,
                 priority := t.priority + (w - t.agingPromotionsApplied))
  }

  /** Every task is aged, in its place, by the thresholds crossed since it was enqueued. */
  ghost predicate AllAged(agingThreshold: int, q: seq<ScheduledTask>, aged: seq<ScheduledTask>, now: int,
                          blockedIds: set<string>) {
    && |aged| == |q|
    && forall i :: 0 <= i < |q| && q[i].enqueuedAt.Some? ==>
         exists w :: Crossed(agingThreshold, q[i].enqueuedAt.value, now, w) && AgedBy(q[i], aged[i], blockedIds, w)
  }

  lemma AgeAllMeans(agingThreshold: int, q: seq<ScheduledTask>, now: int, blockedIds: set<string>)
    requires agingThreshold > 0
    ensures AllAged(agingThreshold, q, AgeAll(agingThreshold, q, now, blockedIds), now, blockedIds)
  {
    hide AgingWindows, Crossed;
    var aged := AgeAll(agingThreshold, q, now, blockedIds);
    forall i | 0 <= i < |q| && q[i].enqueuedAt.Some?
      ensures exists w :: Crossed(agingThreshold, q[i].enqueuedAt.value, now, w) && AgedBy(q[i], aged[i], blockedIds, w)
    {
      AgingWindowsCrossed(agingThreshold, q[i].enqueuedAt.value, now);
      assert AgedBy(q[i], aged[i], blockedIds, AgingWindows(agingThreshold, q[i].enqueuedAt, now));
    }
  }

  function AgeAll(agingThreshold: int, q: seq<ScheduledTask>, now: int, blockedIds: set<string>)
    : (r: seq<ScheduledTask>)
    requires agingThreshold > 0
    ensures |r| == |q|
  {
    seq(|q|, i requires 0 <= i < |q| => AgeTask(agingThreshold, q[i], now, blockedIds))
  }

  function ApplyAging(s: State, now: int, blockedIds: set<string>): State
    requires s.agingThreshold > 0
  {
    s.(queued := AgeAll(s.agingThreshold, s.queued, now, blockedIds))
  }

  /** The priority levels an aging call adds over all queued tasks, which is what the call returns. */
  function LevelsAdded(s: State, now: int, blockedIds: set<string>): int
    requires s.agingThreshold > 0
  {
    SumBy(ApplyAging(s, now, blockedIds).queued, ByPriority()) - SumBy(s.queued, ByPriority())
  }

  // ---------------------------------------------------------------- metrics

  function LastReason(tasks: seq<ScheduledTask>, p: string, none: Option<WaitReason>): Option<WaitReason> {
    if tasks == [] then none
    else
      var t := tasks[|tasks| - 1];
      if t.projectId == p then t.lastWaitReason else LastReason(tasks[..|tasks| - 1], p, none)
  }

  function Projects(tasks: seq<ScheduledTask>): set<string> {
    set i | 0 <= i < |tasks| :: tasks[i].projectId
  }

  /** What the caches and the queue say about one project. */
  function CachedMetrics(s: State, p: string, now: int): ProjectWaitMetrics {
    ProjectWaitMetrics(
      p,
      SumBy(s.queued, ByCount(p)),
      CachedInt(s.startedWaitCounts, p),
      CachedInt(s.startedWaitTotals, p) + SumBy(s.queued, ByWait(p, now)),
      Max(Max(0, CachedInt(s.startedWaitLongest, p)), MaxBy(s.queued, ByWait(p, now))),
      LastReason(s.queued, p, if p in s.lastWaitReasons then s.lastWaitReasons[p] else None))
  }

  function WaitMetricsByProject(s: State, now: int): map<string, ProjectWaitMetrics> {
    map p | p in s.startedWaitTotals.Keys + Projects(s.queued) :: CachedMetrics(s, p, now)
  }

  // ---------------------------------------------------------------- the invariant on the fields

  /** Queued ids are distinct, and every queued task knows when it was enqueued. */
  ghost predicate ValidQueue(q: seq<ScheduledTask>) {
    && NoDuplicates(Ids(q))
    && (forall i :: 0 <= i < |q| ==> q[i].enqueuedAt.Some? && q[i].agingPromotionsApplied >= 0)
  }

  /** The cap holds, and each slot is held under its task's own id, which is not queued as well. */
  ghost predicate ValidSlots(s: State) {
    && |s.active| <= s.limit
    && (forall id :: id in s.active ==> s.active[id].taskId == id)
    && (forall id :: id in Ids(s.queued) ==> id !in s.active)
  }

  /** The four caches have entries for the same projects. */
  ghost predicate ValidCaches(s: State) {
    && s.startedWaitLongest.Keys == s.startedWaitTotals.Keys
    && s.startedWaitCounts.Keys == s.startedWaitTotals.Keys
    && s.lastWaitReasons.Keys == s.startedWaitTotals.Keys
    && (forall p :: p in s.startedWaitLongest ==> s.startedWaitLongest[p] >= 0)
  }

  ghost predicate Valid(s: State) {
    s.limit >= 1 && s.agingThreshold > 0 && ValidQueue(s.queued) && ValidSlots(s) && ValidCaches(s)
  }

  lemma EmptyValid(limit: int, agingThreshold: int)
    requires limit >= 1 && agingThreshold > 0
    ensures Valid(Empty(limit, agingThreshold))
  {
  }

  lemma EnqueueValid(s: State, task: ScheduledTask, now: int)
    requires Valid(s)
    ensures var r := Enqueue(s, task, now);
            r.Success? ==> Valid(r.value) && Ids(r.value.queued) == Ids(s.queued) + [task.taskId]
  {
    var r := Enqueue(s, task, now);
    if r.Success? {
      assert Ids(r.value.queued) == Ids(s.queued) + [task.taskId];
      assert forall i :: 0 <= i < |s.queued| ==> Ids(s.queued)[i] == s.queued[i].taskId;
    }
  }

  lemma IdsRemoveAt(q: seq<ScheduledTask>, i: nat)
    requires i < |q|
    ensures Ids(RemoveAt(q, i)) == RemoveAt(Ids(q), i)
  {
  }

  /** What is left after removing one of distinct elements is distinct and without it. */
  lemma RemoveAtDistinct<T>(s: seq<T>, i: nat)
    requires i < |s| && NoDuplicates(s)
    ensures NoDuplicates(RemoveAt(s, i)) && s[i] !in RemoveAt(s, i)
  {
  }

  lemma RemoveAtValid(q: seq<ScheduledTask>, i: nat)
    requires i < |q| && ValidQueue(q)
    ensures ValidQueue(RemoveAt(q, i)) && Ids(RemoveAt(q, i)) == RemoveAt(Ids(q), i)
    ensures q[i].taskId !in Ids(RemoveAt(q, i))
    ensures forall id :: id in Ids(RemoveAt(q, i)) ==> id in Ids(q)
  {
    IdsRemoveAt(q, i);
    RemoveAtDistinct(Ids(q), i);
  }

  lemma OneMoreKey(m: map<string, ScheduledTask>, id: string, t: ScheduledTask)
    requires id !in m
    ensures m[id := t].Keys == m.Keys + {id} && |m[id := t]| == |m| + 1
  {
    assert m[id := t].Keys == m.Keys + {id};
    assert |m[id := t].Keys| == |m.Keys| + 1;
  }

  /** A task that moves from the queue to a free slot leaves the slots in order. */
  lemma SlotTaken(s: State, q: seq<ScheduledTask>, t: ScheduledTask)
    requires ValidSlots(s) && |s.active| < s.limit
    requires t.taskId !in s.active && t.taskId !in Ids(q)
    requires forall id :: id in Ids(q) ==> id in Ids(s.queued)
    ensures ValidSlots(s.(queued := q, active := s.active[t.taskId := t]))
  {
    OneMoreKey(s.active, t.taskId, t);
    hide Ids;
  }

  lemma TakeSlotValid(s: State, now: int)
    requires Valid(s) && CanStart(s)
    ensures Valid(TakeSlot(s, now))
    ensures TakeSlot(s, now).active.Keys == s.active.Keys + {s.queued[BestIndex(s.queued)].taskId}
  {
    var i := BestIndex(s.queued);
    assert s.queued[i].taskId !in s.active by {
      assert Ids(s.queued)[i] == s.queued[i].taskId;
    }
    hide ValidQueue, ValidSlots, Ids, RemoveAt, BestIndex;
    RemoveAtValid(s.queued, i);
    SlotTaken(s, RemoveAt(s.queued, i), NextRecord(s, now));
    OneMoreKey(s.active, s.queued[i].taskId, NextRecord(s, now));
  }

  lemma StartNextValid(s: State, now: int)
    requires Valid(s) && CanStart(s)
    ensures Valid(StartNext(s, now))
    ensures Ids(StartNext(s, now).queued) == RemoveAt(Ids(s.queued), BestIndex(s.queued))
    ensures StartNext(s, now).active.Keys == s.active.Keys + {s.queued[BestIndex(s.queued)].taskId}
  {
    TakeSlotValid(s, now);
    RemoveAtValid(s.queued, BestIndex(s.queued));
    RecordStartedWaitValid(TakeSlot(s, now), NextRecord(s, now));
  }

  lemma RecordStartedWaitValid(s: State, task: ScheduledTask)
    requires Valid(s)
    ensures Valid(RecordStartedWait(s, task))
  {
  }

  lemma CompleteValid(s: State, taskId: string)
    requires Valid(s)
    ensures Valid(Complete(s, taskId))
  {
    var s' := Complete(s, taskId);
    assert s'.active.Keys <= s.active.Keys;
    SubsetSize(s'.active.Keys, s.active.Keys);
  }

  lemma SubsetSize<T>(a: set<T>, b: set<T>)
    requires a <= b
    ensures |a| <= |b|
  {
    assert b == a + (b - a);
  }

  lemma MarkValid(s: State, taskId: string, blocked: bool)
    requires Valid(s)
    ensures var r := Mark(s, taskId, blocked);
            && (r.Failure? <==> !IsScheduled(s, taskId))
            && (r.Success? ==> Valid(r.value) && Ids(r.value.queued) == Ids(s.queued)
                               && r.value.active.Keys == s.active.Keys)
  {
    var r := Mark(s, taskId, blocked);
    if r.Success? {
      assert Ids(r.value.queued) == Ids(s.queued);
      assert r.value.active.Keys == s.active.Keys;
      assert |r.value.active| == |s.active.Keys|;
    }
  }

  lemma ApplyAgingValid(s: State, now: int, blockedIds: set<string>)
    requires Valid(s)
    ensures Valid(ApplyAging(s, now, blockedIds))
    ensures Ids(ApplyAging(s, now, blockedIds).queued) == Ids(s.queued)
  {
    assert Ids(ApplyAging(s, now, blockedIds).queued) == Ids(s.queued);
  }
}
