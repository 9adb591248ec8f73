/**
 * The history of a scheduler, and the agreement of its fields with that history: the log alone determines
 * the queue, the slots, every priority, every promotion and every cached number.
 */
module PortfolioHistory {
  import opened Common
  import opened Portfolio

  /** One effective operation. Refused and ineffective calls leave no entry. */
  datatype Event =
    | Accepted(task: ScheduledTask, now: int)
    | Started(record: ScheduledTask)
    | Completed(taskId: string)
    | Marked(taskId: string, blocked: bool)
    | Aged(now: int, blockedIds: set<string>, levels: int)

  type Log = seq<Event>

  // ---------------------------------------------------------------- what a log says

  function Without(s: seq<string>, x: string): seq<string> {
    if s == [] then []
    else
      var last := s[|s| - 1];
      Without(s[..|s| - 1], x) + if last == x then [] else [last]
  }

  /** Ids accepted and not yet started, in order of acceptance. */
  function Waiting(log: Log): seq<string> {
    if log == [] then []
    else
      var rest, e := Waiting(log[..|log| - 1]), log[|log| - 1];
      match e
      case Accepted(task, _) => rest + [task.taskId]
      case Started(record) => Without(rest, record.taskId)
      case _ => rest
  }

  /** Ids started and not yet completed. */
  function Holding(log: Log): set<string> {
    if log == [] then {}
    else
      var rest, e := Holding(log[..|log| - 1]), log[|log| - 1];
      match e
      case Started(record) => rest + {record.taskId}
      case Completed(id) => rest - {id}
      case _ => rest
  }

  function Starts(log: Log): seq<ScheduledTask> {
    if log == [] then []
    else
      var rest, e := Starts(log[..|log| - 1]), log[|log| - 1];
      if e.Started? then rest + [e.record] else rest
  }

  function AcceptedIds(log: Log): seq<string> {
    if log == [] then []
    else
      var rest, e := AcceptedIds(log[..|log| - 1]), log[|log| - 1];
      if e.Accepted? then rest + [e.task.taskId] else rest
  }

  function CompletedIds(log: Log): seq<string> {
    if log == [] then []
    else
      var rest, e := CompletedIds(log[..|log| - 1]), log[|log| - 1];
      if e.Completed? then rest + [e.taskId] else rest
  }

  /** All the promotion levels that aging calls have returned. */
  function LevelsReturned(log: Log): int {
    if log == [] then 0
    else
      var e := log[|log| - 1];
      LevelsReturned(log[..|log| - 1]) + if e.Aged? then e.levels else 0
  }

  datatype Birth = Birth(task: ScheduledTask, now: int)

  /** The latest acceptance of an id: the task as given, and when. */
  function BirthOf(log: Log, id: string): (r: Option<Birth>)
    ensures r.Some? ==> r.value.task.taskId == id
  {
    if log == [] then None
    else
      var e := log[|log| - 1];
      if e.Accepted? && e.task.taskId == id then Some(Birth(e.task, e.now))
      else BirthOf(log[..|log| - 1], id)
  }

  /** Whether the latest word on an id is that it is blocked on user approval. */
  function IsBlocked(log: Log, id: string): bool {
    if log == [] then false
    else
      var e := log[|log| - 1];
      if e.Accepted? && e.task.taskId == id then e.task.blockedOnUserApproval
      else if e.Marked? && e.taskId == id then e.blocked
      else IsBlocked(log[..|log| - 1], id)
  }

  /**
   * Why an id waits, by the latest call that says so: its acceptance, a mark, or an aging call while it was
   * queued, which notes a task it skips as blocked and any other as waiting for a slot.
   */
  function ReasonOf(log: Log, id: string): WaitReason {
    if log == [] then WaitingForSlot
    else
      var rest, e := log[..|log| - 1], log[|log| - 1];
      match e
      case Accepted(task, _) =>
        if task.taskId != id then ReasonOf(rest, id)
        else if task.blockedOnUserApproval then BlockedOnUserApproval else WaitingForSlot
      case Marked(taskId, blocked) =>
        if taskId != id then ReasonOf(rest, id)
        else if blocked then BlockedOnUserApproval else WaitingForSlot
      case Aged(_, blockedIds, _) =>
        if id !in Waiting(rest) then ReasonOf(rest, id)
        else if IsBlocked(rest, id) || id in blockedIds then BlockedOnUserApproval else WaitingForSlot
      case _ => ReasonOf(rest, id)
  }

  /** The record of the latest start of an id. */
  function StartOf(log: Log, id: string): (r: Option<ScheduledTask>)
    ensures r.Some? ==> r.value.taskId == id
  {
    if log == [] then None
    else
      var e := log[|log| - 1];
      if e.Started? && e.record.taskId == id then Some(e.record) else StartOf(log[..|log| - 1], id)
  }

  /** The windows an id had waited at an aging call made after `log`, or zero if the call skipped it. */
  function WindowsCounted(agingThreshold: int, log: Log, id: string, now: int, blockedIds: set<string>): (w: int)
    requires agingThreshold > 0
    ensures w >= 0
  {
    var birth := BirthOf(log, id);
    if birth.None? || IsBlocked(log, id) || id in blockedIds then 0
    else AgingWindows(agingThreshold, Some(birth.value.now), now)
  }

  /** The largest window count of an id over the aging calls since its acceptance that did not skip it. */
  function MostWindows(agingThreshold: int, log: Log, id: string): (w: int)
    requires agingThreshold > 0
    ensures w >= 0
  {
    if log == [] then 0
    else
      var e, rest := log[|log| - 1], log[..|log| - 1];
      if e.Accepted? && e.task.taskId == id then 0
      else if e.Aged? then
        Max(MostWindows(agingThreshold, rest, id), WindowsCounted(agingThreshold, rest, id, e.now, e.blockedIds))
      else MostWindows(agingThreshold, rest, id)
  }

  // ---------------------------------------------------------------- agreement of the fields with the log

  ghost predicate AgreesOnIds(s: State, log: Log) {
    && Ids(s.queued) == Waiting(log)
    && s.active.Keys == Holding(log)
    && multiset(AcceptedIds(log)) == multiset(Waiting(log)) + multiset(Holding(log)) + multiset(CompletedIds(log))
  }

  /** The log says everything about a task that waits, whatever the caller's own record claimed. */
  ghost predicate AgreesOnTask(agingThreshold: int, t: ScheduledTask, log: Log)
    requires agingThreshold > 0
  {
    var birth := BirthOf(log, t.taskId);
    && birth.Some?
    && t.projectId == birth.value.task.projectId
    && t.enqueuedAt == Some(birth.value.now) && t.startedAt == None && t.totalWait == 0
    && t.blockedOnUserApproval == IsBlocked(log, t.taskId)
    && t.lastWaitReason == Some(ReasonOf(log, t.taskId))
    && t.agingPromotionsApplied == MostWindows(agingThreshold, log, t.taskId)
    && t.priority == birth.value.task.priority + t.agingPromotionsApplied
  }

  /** And about one that holds a slot: it is as it was started, but for what later marks said. */
  ghost predicate AgreesOnHolder(t: ScheduledTask, log: Log) {
    && StartOf(log, t.taskId).Some?
    && t == StartOf(log, t.taskId).value.(blockedOnUserApproval := IsBlocked(log, t.taskId),
                                          lastWaitReason := Some(ReasonOf(log, t.taskId)))
  }

  ghost predicate AgreesOnSlots(s: State, log: Log) {
    forall id :: id in s.active ==> AgreesOnHolder(s.active[id], log)
  }

  ghost predicate AgreesOnTasks(s: State, log: Log)
    requires s.agingThreshold > 0
  {
    forall i :: 0 <= i < |s.queued| ==> AgreesOnTask(s.agingThreshold, s.queued[i], log)
  }

  /** What the caches hold for a project is what recomputing from its records of starts gives. */
  ghost predicate AgreesOnProject(s: State, starts: seq<ScheduledTask>, p: string) {
    && CachedInt(s.startedWaitTotals, p) == SumBy(starts, ByRecordedWait(p))
    && CachedInt(s.startedWaitCounts, p) == SumBy(starts, ByCount(p))
    && CachedInt(s.startedWaitLongest, p) == MaxBy(starts, ByRecordedWait(p))
    && p in s.lastWaitReasons && s.lastWaitReasons[p] == LastReason(starts, p, None)
  }

  ghost predicate AgreesOnCaches(s: State, starts: seq<ScheduledTask>) {
    && s.startedWaitTotals.Keys == Projects(starts)
    && forall p :: p in Projects(starts) ==> AgreesOnProject(s, starts, p)
  }

  ghost predicate AgreesOnLevels(s: State, log: Log) {
    LevelsReturned(log) == SumBy(s.queued, ByPromotions()) + SumBy(Starts(log), ByPromotions())
  }

  ghost predicate Agrees(s: State, log: Log) {
    && Valid(s)
    && AgreesOnIds(s, log) && AgreesOnTasks(s, log) && AgreesOnSlots(s, log)
    && AgreesOnCaches(s, Starts(log)) && AgreesOnLevels(s, log)
  }

  lemma AgreesIsValid(s: State, log: Log)
    requires Agrees(s, log)
    ensures s.agingThreshold > 0 && ValidCaches(s)
  {
  }

  // ---------------------------------------------------------------- small facts

  lemma Unfold(log: Log, e: Event)
    ensures (log + [e])[..|log|] == log && (log + [e])[|log|] == e
  {
  }

  lemma {:induction false} WithoutAbsent(s: seq<string>, x: string)
    requires x !in s
    ensures Without(s, x) == s
  {
    if s != [] {
      WithoutAbsent(s[..|s| - 1], x);
    }
  }

  lemma {:induction false} WithoutIsRemoveAt(s: seq<string>, i: nat)
    requires i < |s| && NoDuplicates(s)
    ensures Without(s, s[i]) == RemoveAt(s, i)
  {
    var n := |s| - 1;
    if i == n {
      WithoutAbsent(s[..n], s[n]);
    } else {
      WithoutIsRemoveAt(s[..n], i);
    }
  }

  lemma {:induction false} ProjectsAppend(tasks: seq<ScheduledTask>, t: ScheduledTask)
    ensures Projects(tasks + [t]) == Projects(tasks) + {t.projectId}
  {
    var all := tasks + [t];
    forall p | p in Projects(tasks) + {t.projectId}
      ensures p in Projects(all)
    {
      if p == t.projectId {
        assert all[|tasks|].projectId == p;
      } else {
        var i :| 0 <= i < |tasks| && tasks[i].projectId == p;
        assert all[i].projectId == p;
      }
    }
  }

  lemma {:induction false} AbsentProject(tasks: seq<ScheduledTask>, p: string)
    requires p !in Projects(tasks)
    ensures SumBy(tasks, ByRecordedWait(p)) == SumBy(tasks, ByCount(p)) == MaxBy(tasks, ByRecordedWait(p)) == 0
  {
    if tasks != [] {
      var n := |tasks| - 1;
      assert tasks == tasks[..n] + [tasks[n]];
      ProjectsAppend(tasks[..n], tasks[n]);
      AbsentProject(tasks[..n], p);
    }
  }

  // ---------------------------------------------------------------- one queued task, one event

  /** Nothing an event says about other tasks changes what the log says about this one. */
  lemma TaskUnaffected(agingThreshold: int, t: ScheduledTask, log: Log, e: Event)
    requires agingThreshold > 0 && AgreesOnTask(agingThreshold, t, log)
    requires match e
             case Accepted(task, _) => task.taskId != t.taskId
             case Marked(id, _) => id != t.taskId
             case Aged(_, _, _) => false
             case _ => true
    ensures AgreesOnTask(agingThreshold, t, log + [e])
  {
    Unfold(log, e);
  }

  lemma TaskAccepted(agingThreshold: int, task: ScheduledTask, log: Log, now: int)
    requires agingThreshold > 0
    ensures AgreesOnTask(agingThreshold, Enlisted(task, now), log + [Accepted(task, now)])
  {
    Unfold(log, Accepted(task, now));
  }

  lemma TaskMarked(agingThreshold: int, t: ScheduledTask, log: Log, blocked: bool)
    requires agingThreshold > 0 && AgreesOnTask(agingThreshold, t, log)
    ensures AgreesOnTask(agingThreshold, MarkTask(t, blocked), log + [Marked(t.taskId, blocked)])
  {
    Unfold(log, Marked(t.taskId, blocked));
  }

  lemma TaskAged(agingThreshold: int, t: ScheduledTask, log: Log, now: int, blockedIds: set<string>, levels: int)
    requires agingThreshold > 0 && AgreesOnTask(agingThreshold, t, log) && t.taskId in Waiting(log)
    ensures AgreesOnTask(agingThreshold, AgeTask(agingThreshold, t, now, blockedIds),
                         log + [Aged(now, blockedIds, levels)])
  {
    Unfold(log, Aged(now, blockedIds, levels));
  }

  // ---------------------------------------------------------------- one held slot, one event

  /** What an event does not say about a task that holds a slot stays; an aging call says nothing of it. */
  lemma HolderUnaffected(t: ScheduledTask, log: Log, e: Event)
    requires AgreesOnHolder(t, log)
    requires match e
             case Accepted(task, _) => task.taskId != t.taskId
             case Started(record) => record.taskId != t.taskId
             case Marked(id, _) => id != t.taskId
             case Aged(_, _, _) => t.taskId !in Waiting(log)
             case Completed(_) => true
    ensures AgreesOnHolder(t, log + [e])
  {
    Unfold(log, e);
  }

  /** A call about no held slot, or an aging call, leaves the agreement on the slots. */
  lemma SlotsUnaffected(s: State, s': State, log: Log, e: Event)
    requires ValidSlots(s) && AgreesOnIds(s, log) && AgreesOnSlots(s, log)
    requires forall id :: id in s'.active ==> id in s.active && s'.active[id] == s.active[id]
    requires match e
             case Accepted(task, _) => task.taskId !in s.active
             case Started(record) => record.taskId !in s.active
             case Marked(id, _) => id !in s.active
             case _ => true
    ensures AgreesOnSlots(s', log + [e])
  {
    forall id | id in s'.active
      ensures AgreesOnHolder(s'.active[id], log + [e])
    {
      HolderUnaffected(s.active[id], log, e);
    }
  }

  lemma StartKeepsSlots(s: State, log: Log, now: int)
    requires Valid(s) && AgreesOnIds(s, log) && AgreesOnTasks(s, log) && AgreesOnSlots(s, log) && CanStart(s)
    ensures AgreesOnSlots(StartNext(s, now), log + [Started(NextRecord(s, now))])
  {
    var i, record := BestIndex(s.queued), NextRecord(s, now);
    var e := Started(record);
    assert Ids(s.queued)[i] == record.taskId && record.taskId !in s.active;
    assert AgreesOnTask(s.agingThreshold, s.queued[i], log);
    Unfold(log, e);
    assert AgreesOnHolder(record, log + [e]);
    forall id | id in s.active
      ensures AgreesOnHolder(s.active[id], log + [e])
    {
      HolderUnaffected(s.active[id], log, e);
    }
  }

  lemma MarkKeepsSlots(s: State, log: Log, id: string, blocked: bool)
    requires Valid(s) && AgreesOnIds(s, log) && AgreesOnSlots(s, log) && Mark(s, id, blocked).Success?
    ensures AgreesOnSlots(Mark(s, id, blocked).value, log + [Marked(id, blocked)])
  {
    var s', e := Mark(s, id, blocked).value, Marked(id, blocked);
    forall held | held in s'.active
      ensures AgreesOnHolder(s'.active[held], log + [e])
    {
      if held == id {
        Unfold(log, e);
      } else {
        HolderUnaffected(s.active[held], log, e);
      }
    }
  }

  // ---------------------------------------------------------------- every operation keeps the agreement

  lemma AcceptKeepsTasks(s: State, log: Log, task: ScheduledTask, now: int)
    requires s.agingThreshold > 0 && AgreesOnTasks(s, log) && !IsScheduled(s, task.taskId)
    ensures AgreesOnTasks(Enqueue(s, task, now).value, log + [Accepted(task, now)])
  {
    var s', e := Enqueue(s, task, now).value, Accepted(task, now);
    forall i | 0 <= i < |s'.queued|
      ensures AgreesOnTask(s.agingThreshold, s'.queued[i], log + [e])
    {
      if i < |s.queued| {
        assert Ids(s.queued)[i] == s.queued[i].taskId;
        TaskUnaffected(s.agingThreshold, s.queued[i], log, e);
      } else {
        TaskAccepted(s.agingThreshold, task, log, now);
      }
    }
  }

  lemma AcceptKeepsIds(s: State, log: Log, task: ScheduledTask, now: int)
    requires Valid(s) && AgreesOnIds(s, log) && !IsScheduled(s, task.taskId)
    ensures AgreesOnIds(Enqueue(s, task, now).value, log + [Accepted(task, now)])
  {
    EnqueueValid(s, task, now);
    Unfold(log, Accepted(task, now));
  }

  lemma AcceptKeepsLevels(s: State, log: Log, task: ScheduledTask, now: int)
    requires AgreesOnLevels(s, log) && !IsScheduled(s, task.taskId)
    ensures AgreesOnLevels(Enqueue(s, task, now).value, log + [Accepted(task, now)])
  {
    ByAppend(s.queued, Enlisted(task, now), ByPromotions());
    StartsAndLevelsUnaffected(log, Accepted(task, now));
  }

  lemma AcceptKeeps(s: State, log: Log, task: ScheduledTask, now: int)
    requires Agrees(s, log) && !IsScheduled(s, task.taskId)
    ensures Agrees(Enqueue(s, task, now).value, log + [Accepted(task, now)])
  {
    EnqueueValid(s, task, now);
    AcceptKeepsIds(s, log, task, now);
    AcceptKeepsTasks(s, log, task, now);
    AcceptKeepsLevels(s, log, task, now);
    StartsAndLevelsUnaffected(log, Accepted(task, now));
    SlotsUnaffected(s, Enqueue(s, task, now).value, log, Accepted(task, now));
  }

  /** Moving one id from a sequence of distinct ids to a set without it neither loses nor adds an id. */
  lemma MoveConserves(ids: seq<string>, i: nat, held: set<string>)
    requires i < |ids| && ids[i] !in held
    ensures multiset(RemoveAt(ids, i)) + multiset(held + {ids[i]}) == multiset(ids) + multiset(held)
  {
    assert ids == ids[..i] + [ids[i]] + ids[i + 1..];
    assert multiset(held + {ids[i]}) == multiset(held) + multiset{ids[i]};
  }

  lemma StartKeepsIds(s: State, log: Log, now: int)
    requires Valid(s) && AgreesOnIds(s, log) && CanStart(s)
    ensures AgreesOnIds(StartNext(s, now), log + [Started(NextRecord(s, now))])
  {
    var i, ids := BestIndex(s.queued), Ids(s.queued);
    StartNextValid(s, now);
    assert ids[i] == s.queued[i].taskId;
    WithoutIsRemoveAt(ids, i);
    MoveConserves(ids, i, Holding(log));
    Unfold(log, Started(NextRecord(s, now)));
  }

  lemma StartKeepsTasks(s: State, log: Log, now: int)
    requires s.agingThreshold > 0 && AgreesOnTasks(s, log) && CanStart(s)
    ensures AgreesOnTasks(StartNext(s, now), log + [Started(NextRecord(s, now))])
  {
    var i, s' := BestIndex(s.queued), StartNext(s, now);
    forall k | 0 <= k < |s'.queued|
      ensures AgreesOnTask(s.agingThreshold, s'.queued[k], log + [Started(NextRecord(s, now))])
    {
      TaskUnaffected(s.agingThreshold, s.queued[if k < i then k else k + 1], log, Started(NextRecord(s, now)));
    }
  }

  lemma RecordedAppend(starts: seq<ScheduledTask>, record: ScheduledTask, p: string)
    ensures SumBy(starts + [record], ByRecordedWait(p)) == SumBy(starts, ByRecordedWait(p)) + ByRecordedWait(p)(record)
    ensures SumBy(starts + [record], ByCount(p)) == SumBy(starts, ByCount(p)) + ByCount(p)(record)
    ensures MaxBy(starts + [record], ByRecordedWait(p)) ==
            Max(MaxBy(starts, ByRecordedWait(p)), ByRecordedWait(p)(record))
    ensures LastReason(starts + [record], p, None) ==
            if p == record.projectId then record.lastWaitReason else LastReason(starts, p, None)
  {
    ByAppend(starts, record, ByRecordedWait(p));
    ByAppend(starts, record, ByCount(p));
    assert (starts + [record])[..|starts|] == starts;
  }

  lemma RecordKeepsProject(s: State, starts: seq<ScheduledTask>, record: ScheduledTask, p: string)
    requires ValidCaches(s) && s.startedWaitTotals.Keys == Projects(starts)
    requires p in Projects(starts) ==> AgreesOnProject(s, starts, p)
    requires p in Projects(starts) || p == record.projectId
    ensures AgreesOnProject(RecordStartedWait(s, record), starts + [record], p)
  {
    RecordedAppend(starts, record, p);
    if p !in Projects(starts) {
      AbsentProject(starts, p);
    }
  }

  lemma RecordKeepsCaches(s: State, starts: seq<ScheduledTask>, record: ScheduledTask)
    requires ValidCaches(s) && AgreesOnCaches(s, starts)
    ensures AgreesOnCaches(RecordStartedWait(s, record), starts + [record])
  {
    ProjectsAppend(starts, record);
    forall p | p in Projects(starts + [record])
      ensures AgreesOnProject(RecordStartedWait(s, record), starts + [record], p)
    {
      RecordKeepsProject(s, starts, record, p);
    }
  }

  lemma StartKeepsLevels(s: State, log: Log, now: int)
    requires AgreesOnLevels(s, log) && CanStart(s)
    ensures AgreesOnLevels(StartNext(s, now), log + [Started(NextRecord(s, now))])
    ensures Starts(log + [Started(NextRecord(s, now))]) == Starts(log) + [NextRecord(s, now)]
  {
    var record := NextRecord(s, now);
    Unfold(log, Started(record));
    ByRemoveAt(s.queued, BestIndex(s.queued), ByPromotions());
    ByAppend(Starts(log), record, ByPromotions());
  }

  lemma StartKeeps(s: State, log: Log, now: int)
    requires Agrees(s, log) && CanStart(s)
    ensures Agrees(StartNext(s, now), log + [Started(NextRecord(s, now))])
  {
    var record := NextRecord(s, now);
    StartNextValid(s, now);
    StartKeepsIds(s, log, now);
    StartKeepsTasks(s, log, now);
    StartKeepsSlots(s, log, now);
    StartKeepsLevels(s, log, now);
    RecordKeepsCaches(TakeSlot(s, now), Starts(log), record);
  }

  /** Events that neither start a task nor age the queue do not touch starts and levels. */
  lemma StartsAndLevelsUnaffected(log: Log, e: Event)
    requires !e.Started? && !e.Aged?
    ensures Starts(log + [e]) == Starts(log) && LevelsReturned(log + [e]) == LevelsReturned(log)
  {
    Unfold(log, e);
  }

  lemma CompleteKeepsIds(s: State, log: Log, id: string)
    requires AgreesOnIds(s, log) && id in s.active
    ensures AgreesOnIds(Complete(s, id), log + [Completed(id)])
  {
    Unfold(log, Completed(id));
    assert multiset(Holding(log) - {id}) + multiset{id} == multiset(Holding(log));
  }

  lemma CompleteKeepsTasks(s: State, log: Log, id: string)
    requires s.agingThreshold > 0 && AgreesOnTasks(s, log)
    ensures AgreesOnTasks(Complete(s, id), log + [Completed(id)])
  {
    forall k | 0 <= k < |s.queued|
      ensures AgreesOnTask(s.agingThreshold, s.queued[k], log + [Completed(id)])
    {
      TaskUnaffected(s.agingThreshold, s.queued[k], log, Completed(id));
    }
  }

  lemma CompleteKeeps(s: State, log: Log, id: string)
    requires Agrees(s, log) && id in s.active
    ensures Agrees(Complete(s, id), log + [Completed(id)])
  {
    CompleteValid(s, id);
    CompleteKeepsIds(s, log, id);
    CompleteKeepsTasks(s, log, id);
    SlotsUnaffected(s, Complete(s, id), log, Completed(id));
    StartsAndLevelsUnaffected(log, Completed(id));
  }

  lemma MarkKeepsTasks(s: State, log: Log, id: string, blocked: bool)
    requires Valid(s) && AgreesOnTasks(s, log) && Mark(s, id, blocked).Success?
    ensures AgreesOnTasks(Mark(s, id, blocked).value, log + [Marked(id, blocked)])
  {
    var s', found := Mark(s, id, blocked).value, FindTask(s.queued, id);
    forall k | 0 <= k < |s'.queued|
      ensures AgreesOnTask(s.agingThreshold, s'.queued[k], log + [Marked(id, blocked)])
    {
      if found == Some(k) {
        TaskMarked(s.agingThreshold, s.queued[k], log, blocked);
      } else {
        assert Ids(s.queued)[k] == s.queued[k].taskId;
        assert found.Some? ==> Ids(s.queued)[found.value] == id;
        TaskUnaffected(s.agingThreshold, s.queued[k], log, Marked(id, blocked));
      }
    }
  }

  lemma MarkKeepsPromotions(s: State, id: string, blocked: bool)
    requires Mark(s, id, blocked).Success?
    ensures SumBy(Mark(s, id, blocked).value.queued, ByPromotions()) == SumBy(s.queued, ByPromotions())
  {
    var s', found := Mark(s, id, blocked).value, FindTask(s.queued, id);
    if found.Some? {
      var i := found.value;
      assert RemoveAt(s'.queued, i) == RemoveAt(s.queued, i);
      ByRemoveAt(s.queued, i, ByPromotions());
      ByRemoveAt(s'.queued, i, ByPromotions());
    }
  }

  lemma MarkKeepsIds(s: State, log: Log, id: string, blocked: bool)
    requires Valid(s) && AgreesOnIds(s, log) && Mark(s, id, blocked).Success?
    ensures AgreesOnIds(Mark(s, id, blocked).value, log + [Marked(id, blocked)])
  {
    MarkValid(s, id, blocked);
    Unfold(log, Marked(id, blocked));
  }

  lemma MarkKeeps(s: State, log: Log, id: string, blocked: bool)
    requires Agrees(s, log) && Mark(s, id, blocked).Success?
    ensures Agrees(Mark(s, id, blocked).value, log + [Marked(id, blocked)])
  {
    MarkValid(s, id, blocked);
    MarkKeepsIds(s, log, id, blocked);
    MarkKeepsTasks(s, log, id, blocked);
    MarkKeepsSlots(s, log, id, blocked);
    MarkKeepsPromotions(s, id, blocked);
    StartsAndLevelsUnaffected(log, Marked(id, blocked));
  }

  lemma AgeKeepsIds(s: State, log: Log, now: int, blockedIds: set<string>, levels: int)
    requires Valid(s) && AgreesOnIds(s, log)
    ensures AgreesOnIds(ApplyAging(s, now, blockedIds), log + [Aged(now, blockedIds, levels)])
  {
    ApplyAgingValid(s, now, blockedIds);
    Unfold(log, Aged(now, blockedIds, levels));
  }

  lemma AgeKeepsTasks(s: State, log: Log, now: int, blockedIds: set<string>, levels: int)
    requires s.agingThreshold > 0 && AgreesOnIds(s, log) && AgreesOnTasks(s, log)
    ensures AgreesOnTasks(ApplyAging(s, now, blockedIds), log + [Aged(now, blockedIds, levels)])
  {
    forall k | 0 <= k < |s.queued|
      ensures AgreesOnTask(s.agingThreshold, ApplyAging(s, now, blockedIds).queued[k],
                           log + [Aged(now, blockedIds, levels)])
    {
      assert Ids(s.queued)[k] == s.queued[k].taskId;
      TaskAged(s.agingThreshold, s.queued[k], log, now, blockedIds, levels);
    }
  }

  lemma AgeKeepsLevels(s: State, log: Log, now: int, blockedIds: set<string>)
    requires s.agingThreshold > 0 && AgreesOnLevels(s, log)
    ensures var log' := log + [Aged(now, blockedIds, LevelsAdded(s, now, blockedIds))];
            AgreesOnLevels(ApplyAging(s, now, blockedIds), log') && Starts(log') == Starts(log)
  {
    SumByShift(s.queued, ApplyAging(s, now, blockedIds).queued, ByPriority(), ByPromotions());
    Unfold(log, Aged(now, blockedIds, LevelsAdded(s, now, blockedIds)));
  }

  lemma AgeKeeps(s: State, log: Log, now: int, blockedIds: set<string>)
    requires Agrees(s, log)
    ensures Agrees(ApplyAging(s, now, blockedIds), log + [Aged(now, blockedIds, LevelsAdded(s, now, blockedIds))])
  {
    var levels := LevelsAdded(s, now, blockedIds);
    ApplyAgingValid(s, now, blockedIds);
    AgeKeepsIds(s, log, now, blockedIds, levels);
    AgeKeepsTasks(s, log, now, blockedIds, levels);
    SlotsUnaffected(s, ApplyAging(s, now, blockedIds), log, Aged(now, blockedIds, levels));
    AgeKeepsLevels(s, log, now, blockedIds);
  }

  // ---------------------------------------------------------------- whole runs

  datatype Operation =
    | EnqueueOp(task: ScheduledTask, now: int)
    | StartOp(now: int)
    | CompleteOp(taskId: string)
    | MarkOp(taskId: string, blocked: bool)
    | AgeOp(now: int, blockedIds: set<string>)

  datatype Traced = Traced(state: State, log: Log)

  /** One call, whatever it is: calls that raise or do nothing leave the state and the log alone. */
  function Perform(h: Traced, op: Operation): (h': Traced)
    requires h.state.agingThreshold > 0
    ensures h'.state.agingThreshold == h.state.agingThreshold && h'.state.limit == h.state.limit
  {
    var s := h.state;
    match op
    case EnqueueOp(task, now) =>
      var r := Enqueue(s, task, now);
      if r.Success? then Traced(r.value, h.log + [Accepted(task, now)]) else h
    case StartOp(now) =>
      if CanStart(s) then Traced(StartNext(s, now), h.log + [Started(NextRecord(s, now))]) else h
    case CompleteOp(id) =>
      if id in s.active then Traced(Complete(s, id), h.log + [Completed(id)]) else h
    case MarkOp(id, blocked) =>
      var r := Mark(s, id, blocked);
      if r.Success? then Traced(r.value, h.log + [Marked(id, blocked)]) else h
    case AgeOp(now, blockedIds) =>
      Traced(ApplyAging(s, now, blockedIds), h.log + [Aged(now, blockedIds, LevelsAdded(s, now, blockedIds))])
  }

  function Run(limit: int, agingThreshold: int, ops: seq<Operation>): (h: Traced)
    requires agingThreshold > 0
    ensures h.state.agingThreshold == agingThreshold && h.state.limit == limit
  {
    hide Perform;
    if ops == [] then Traced(Empty(limit, agingThreshold), [])
    else Perform(Run(limit, agingThreshold, ops[..|ops| - 1]), ops[|ops| - 1])
  }

  lemma PerformEnqueueKeeps(h: Traced, task: ScheduledTask, now: int)
    requires Agrees(h.state, h.log)
    ensures var h' := Perform(h, EnqueueOp(task, now)); Agrees(h'.state, h'.log)
  {
    if !IsScheduled(h.state, task.taskId) {
      AcceptKeeps(h.state, h.log, task, now);
    }
  }

  lemma PerformMarkKeeps(h: Traced, id: string, blocked: bool)
    requires Agrees(h.state, h.log)
    ensures var h' := Perform(h, MarkOp(id, blocked)); Agrees(h'.state, h'.log)
  {
    if Mark(h.state, id, blocked).Success? {
      MarkKeeps(h.state, h.log, id, blocked);
    }
  }

  lemma PerformKeeps(h: Traced, op: Operation)
    requires Agrees(h.state, h.log)
    ensures Agrees(Perform(h, op).state, Perform(h, op).log)
  {
    AgreesIsValid(h.state, h.log);
    hide Agrees, Enqueue, Mark, Valid, ValidCaches;
    match op
    case EnqueueOp(task, now) => PerformEnqueueKeeps(h, task, now);
    case StartOp(now) =>
      if CanStart(h.state) {
        StartKeeps(h.state, h.log, now);
      }
    case CompleteOp(id) =>
      if id in h.state.active {
        CompleteKeeps(h.state, h.log, id);
      }
    case MarkOp(id, blocked) => PerformMarkKeeps(h, id, blocked);
    case AgeOp(now, blockedIds) => AgeKeeps(h.state, h.log, now, blockedIds);
  }

  /** After any sequence of calls the fields agree with the history. */
  lemma {:induction false} RunAgrees(limit: int, agingThreshold: int, ops: seq<Operation>)
    requires limit >= 1 && agingThreshold > 0
    ensures var h := Run(limit, agingThreshold, ops); Agrees(h.state, h.log)
  {
    if ops == [] {
      EmptyValid(limit, agingThreshold);
    } else {
      RunAgrees(limit, agingThreshold, ops[..|ops| - 1]);
      PerformKeeps(Run(limit, agingThreshold, ops[..|ops| - 1]), ops[|ops| - 1]);
    }
  }
}
