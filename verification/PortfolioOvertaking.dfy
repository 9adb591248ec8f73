/** When a younger task is started before an older one, exactly. */
module PortfolioOvertaking {
  import opened Common
  import opened Portfolio
  import opened PortfolioHistory
  import opened PortfolioTheorems

  /** The latest acceptance of a came before the latest acceptance of b. */
  ghost predicate AcceptedBefore(log: Log, a: string, b: string) {
    if log == [] then false
    else
      var e, rest := log[|log| - 1], log[..|log| - 1];
      if e.Accepted? && e.task.taskId == b then BirthOf(rest, a).Some?
      else if e.Accepted? && e.task.taskId == a then false
      else AcceptedBefore(rest, a, b)
  }

  /** No aging call since b's acceptance skipped a. */
  ghost predicate NotSkippedSince(log: Log, a: string, b: string) {
    if log == [] then true
    else
      var e, rest := log[|log| - 1], log[..|log| - 1];
      if e.Accepted? && e.task.taskId == b then true
      else (e.Aged? ==> a !in e.blockedIds && !IsBlocked(rest, a)) && NotSkippedSince(rest, a, b)
  }

  /** Some aging call since b's acceptance was made at `time` or later. */
  ghost predicate AgedSince(log: Log, b: string, time: int) {
    if log == [] then false
    else
      var e, rest := log[|log| - 1], log[..|log| - 1];
      if e.Accepted? && e.task.taskId == b then false
      else (e.Aged? && e.now >= time) || AgedSince(rest, b, time)
  }

  ghost predicate Precedes(s: seq<string>, a: string, b: string) {
    exists i, j :: 0 <= i < j < |s| && s[i] == a && s[j] == b
  }

  lemma {:induction false} WithoutMultiset(s: seq<string>, x: string)
    ensures multiset(Without(s, x)) == multiset(s)[x := 0]
  {
    if s != [] {
      assert s == s[..|s| - 1] + [s[|s| - 1]];
      WithoutMultiset(s[..|s| - 1], x);
    }
  }

  lemma PrecedesAppend(s: seq<string>, last: string, a: string, b: string)
    ensures Precedes(s + [last], a, b) <==> Precedes(s, a, b) || (a in s && last == b)
  {
    var t := s + [last];
    if Precedes(t, a, b) {
      var i, j :| 0 <= i < j < |t| && t[i] == a && t[j] == b;
      assert s[i] == a;
      if j < |s| {
        assert s[j] == b;
      }
    }
    if Precedes(s, a, b) {
      var i, j :| 0 <= i < j < |s| && s[i] == a && s[j] == b;
      assert t[i] == a && t[j] == b;
    }
    if a in s && last == b {
      var i :| 0 <= i < |s| && s[i] == a;
      assert t[i] == a && t[|s|] == b;
    }
  }

  lemma {:induction false} WithoutPrecedes(s: seq<string>, x: string, a: string, b: string)
    requires Precedes(Without(s, x), a, b)
    ensures Precedes(s, a, b)
  {
    if s != [] {
      var front, last := s[..|s| - 1], s[|s| - 1];
      assert s == front + [last];
      WithoutMultiset(front, x);
      PrecedesAppend(front, last, a, b);
      PrecedesAppend(Without(front, x), last, a, b);
      if Precedes(Without(front, x), a, b) {
        WithoutPrecedes(front, x, a, b);
      } else {
        assert a in multiset(Without(front, x));
      }
    }
  }

  lemma {:induction false} WaitingWasAccepted(log: Log, a: string)
    requires a in Waiting(log)
    ensures BirthOf(log, a).Some?
  {
    var rest, e := log[..|log| - 1], log[|log| - 1];
    if !(e.Accepted? && e.task.taskId == a) {
      if e.Started? {
        WithoutMultiset(Waiting(rest), e.record.taskId);
        assert a in multiset(Waiting(log));
      }
      WaitingWasAccepted(rest, a);
    }
  }

  /** The order of the queue is the order of acceptance. */
  lemma {:induction false} QueueOrderIsAcceptanceOrder(log: Log, a: string, b: string)
    requires a != b && Precedes(Waiting(log), a, b) && multiset(Waiting(log))[a] == 1
    ensures AcceptedBefore(log, a, b)
  {
    var rest, e := log[..|log| - 1], log[|log| - 1];
    var w := Waiting(rest);
    var i, j :| 0 <= i < j < |Waiting(log)| && Waiting(log)[i] == a && Waiting(log)[j] == b;
    if e.Accepted? {
      assert Waiting(log) == w + [e.task.taskId];
      assert w[i] == a;
      if e.task.taskId == b {
        WaitingWasAccepted(rest, a);
      } else {
        assert w[j] == b;
        assert multiset(Waiting(log))[a] == multiset(w)[a] + if e.task.taskId == a then 1 else 0;
        QueueOrderIsAcceptanceOrder(rest, a, b);
      }
    } else {
      if e.Started? {
        WithoutMultiset(w, e.record.taskId);
        WithoutPrecedes(w, e.record.taskId, a, b);
      }
      QueueOrderIsAcceptanceOrder(rest, a, b);
    }
  }

  /** Being k thresholds older is worth k windows, once more than one threshold has been waited if k is one. */
  lemma OlderByWindows(agingThreshold: int, a: int, b: int, k: nat, now: int)
    requires agingThreshold > 0 && b - a >= k * agingThreshold
    ensures var wa, wb := AgingWindows(agingThreshold, Some(a), now), AgingWindows(agingThreshold, Some(b), now);
            && (wb >= 1 ==> wa >= wb + k)
            && (now >= b && (k != 1 || now - a > agingThreshold) ==> wa >= k)
  {
    var wb := AgingWindows(agingThreshold, Some(b), now);
    if wb >= 1 {
      assert now - b >= wb * agingThreshold;
      assert (wb + k) * agingThreshold == wb * agingThreshold + k * agingThreshold;
      TimesMonotone(0, k, agingThreshold);
      WindowsFloor(agingThreshold, now - a, wb + k);
    }
    if now >= b && (k > 1 || (k == 1 && now - a > agingThreshold)) {
      if k > 1 {
        TimesMonotone(2, k, agingThreshold);
      }
      WindowsFloor(agingThreshold, now - a, k);
    }
  }

  /** Whether `gap` is enough seniority against k levels of priority, if aging runs `late` after the younger came. */
  predicate IsSenior(agingThreshold: int, k: nat, gap: int, late: nat) {
    gap >= k * agingThreshold && !(k == 1 && gap == agingThreshold && late == 0)
  }

  lemma {:induction false} GapIsKept(agingThreshold: int, log: Log, a: string, b: string, k: nat, late: nat)
    requires agingThreshold > 0 && a != b && AcceptedBefore(log, a, b) && NotSkippedSince(log, a, b)
    requires BirthOf(log, a).Some? && BirthOf(log, b).Some?
    requires IsSenior(agingThreshold, k, BirthOf(log, b).value.now - BirthOf(log, a).value.now, late)
    ensures MostWindows(agingThreshold, log, b) >= 1 ==>
              MostWindows(agingThreshold, log, a) >= MostWindows(agingThreshold, log, b) + k
    ensures AgedSince(log, b, BirthOf(log, b).value.now + late) ==> MostWindows(agingThreshold, log, a) >= k
  {
    var e, rest := log[|log| - 1], log[..|log| - 1];
    if !(e.Accepted? && e.task.taskId == b) {
      GapIsKept(agingThreshold, rest, a, b, k, late);
      if e.Aged? {
        OlderByWindows(agingThreshold, BirthOf(log, a).value.now, BirthOf(log, b).value.now, k, e.now);
      }
    }
  }

  /**
   * The task at i is ahead of the one at j, which was accepted `gap` later with a priority at most k higher; no
   * aging call since then skipped the former and, unless k is zero, there was one `late` or more after it.
   */
  ghost predicate Contend(s: State, log: Log, i: nat, j: nat, k: nat, gap: int, late: nat) {
    && i < j < |s.queued|
    && var a, b := s.queued[i].taskId, s.queued[j].taskId;
    && BirthOf(log, a).Some? && BirthOf(log, b).Some?
    && BirthOf(log, b).value.now - BirthOf(log, a).value.now == gap
    && BirthOf(log, b).value.task.priority <= BirthOf(log, a).value.task.priority + k
    && NotSkippedSince(log, a, b)
    && (k == 0 || AgedSince(log, b, BirthOf(log, b).value.now + late))
  }

  lemma OnceOnly(s: seq<string>, i: nat)
    requires i < |s| && NoDuplicates(s)
    ensures multiset(s)[s[i]] == 1
  {
    assert s == s[..i] + [s[i]] + s[i + 1..];
    assert s[i] !in s[..i] && s[i] !in s[i + 1..];
  }

  lemma AheadWasAcceptedBefore(s: State, log: Log, i: nat, j: nat)
    requires Agrees(s, log) && i < j < |s.queued|
    ensures s.queued[i].taskId != s.queued[j].taskId && AcceptedBefore(log, s.queued[i].taskId, s.queued[j].taskId)
  {
    hide ValidCaches, ValidSlots, AgreesOnCaches, AgreesOnLevels, AgreesOnTasks;
    var ids := Ids(s.queued);
    assert ids[i] == s.queued[i].taskId && ids[j] == s.queued[j].taskId;
    OnceOnly(ids, i);
    QueueOrderIsAcceptanceOrder(log, ids[i], ids[j]);
  }

  /**
   * Bounded overtaking. A task accepted at least k thresholds after one ahead of it, with a priority at most k
   * higher, is not the one started next, provided aging has not skipped the one ahead and, unless k is zero,
   * has run since the younger was accepted. Only where k is one and the younger came exactly one threshold
   * later must aging have run later than its acceptance.
   */
  lemma BoundedOvertaking(s: State, log: Log, i: nat, j: nat, k: nat, gap: int, late: nat)
    requires Agrees(s, log) && Contend(s, log, i, j, k, gap, late)
    requires IsSenior(s.agingThreshold, k, gap, late)
    ensures s.queued[j].priority <= s.queued[i].priority
    ensures BestIndex(s.queued) != j
  {
    AheadWasAcceptedBefore(s, log, i, j);
    assert AgreesOnTask(s.agingThreshold, s.queued[i], log) && AgreesOnTask(s.agingThreshold, s.queued[j], log);
    GapIsKept(s.agingThreshold, log, s.queued[i].taskId, s.queued[j].taskId, k, late);
    hide Agrees, AcceptedBefore, BirthOf, NotSkippedSince, AgedSince, IsSenior, MostWindows, IsBlocked;
  }

  /** After these calls the task at j is started next, although it contends with the one at i. */
  ghost predicate Overtakes(limit: int, agingThreshold: int, ops: seq<Operation>, i: nat, j: nat,
                            k: nat, gap: int, late: nat)
    requires agingThreshold > 0
  {
    var h := Run(limit, agingThreshold, ops);
    limit >= 1 && CanStart(h.state) && Contend(h.state, h.log, i, j, k, gap, late) && BestIndex(h.state.queued) == j
  }

  /** Whatever the calls were, a task is not overtaken by one it is senior to. */
  lemma NeverOvertaken(limit: int, agingThreshold: int, ops: seq<Operation>, i: nat, j: nat,
                       k: nat, gap: int, late: nat)
    requires agingThreshold > 0 && IsSenior(agingThreshold, k, gap, late)
    ensures !Overtakes(limit, agingThreshold, ops, i, j, k, gap, late)
  {
    if Overtakes(limit, agingThreshold, ops, i, j, k, gap, late) {
      RunAgrees(limit, agingThreshold, ops);
      hide Run, Agrees, Contend, IsSenior, BestIndex;
      var h := Run(limit, agingThreshold, ops);
      BoundedOvertaking(h.state, h.log, i, j, k, gap, late);
    }
  }

  // ---------------------------------------------------------------- every smaller gap can be overtaken

  function PlainTask(id: string, priority: int): ScheduledTask {
    ScheduledTask(id, "p", priority, None, None, 0, None, false, 0)
  }

  /** Task a with priority 0 at time 0, task b with priority k at time `gap`, and one aging call. */
  function TwoTasks(k: nat, gap: int, now: int): seq<Operation> {
    [EnqueueOp(PlainTask("a", 0), 0), EnqueueOp(PlainTask("b", k), gap), AgeOp(now, {})]
  }

  lemma TwoWaiting(agingThreshold: int, k: nat, gap: int)
    requires agingThreshold > 0
    ensures var h := Run(1, agingThreshold, [EnqueueOp(PlainTask("a", 0), 0), EnqueueOp(PlainTask("b", k), gap)]);
            && h.state == Empty(1, agingThreshold).(
                 queued := [Enlisted(PlainTask("a", 0), 0), Enlisted(PlainTask("b", k), gap)])
            && h.log == [Accepted(PlainTask("a", 0), 0), Accepted(PlainTask("b", k), gap)]
  {
    var op1, op2 := EnqueueOp(PlainTask("a", 0), 0), EnqueueOp(PlainTask("b", k), gap);
    RunAppend(1, agingThreshold, [], op1);
    RunAppend(1, agingThreshold, [op1], op2);
    assert [] + [op1] == [op1] && [op1] + [op2] == [op1, op2];
    var h1 := Run(1, agingThreshold, [op1]);
    assert h1.state.queued == [Enlisted(PlainTask("a", 0), 0)] && h1.log == [Accepted(PlainTask("a", 0), 0)];
    assert Ids(h1.state.queued) == ["a"] && "a" != "b";
  }

  /** What the log of the two tasks says. */
  lemma TwoLogged(log: Log, k: nat, gap: int, now: int, levels: int)
    requires log == [Accepted(PlainTask("a", 0), 0), Accepted(PlainTask("b", k), gap), Aged(now, {}, levels)]
    ensures BirthOf(log, "a") == Some(Birth(PlainTask("a", 0), 0))
    ensures BirthOf(log, "b") == Some(Birth(PlainTask("b", k), gap))
    ensures NotSkippedSince(log, "a", "b") && forall time :: time <= now ==> AgedSince(log, "b", time)
  {
    var first := [Accepted(PlainTask("a", 0), 0)];
    var both := first + [Accepted(PlainTask("b", k), gap)];
    assert log[..2] == both && both[..1] == first && "a" != "b";
    assert !IsBlocked(first, "a") && !IsBlocked(both, "a");
    assert BirthOf(both, "a") == BirthOf(first, "a");
  }

  /** If the windows counted do not make up for the priorities, b overtakes a. */
  lemma OvertakenAt(agingThreshold: int, k: nat, gap: int, now: int, late: nat)
    requires agingThreshold > 0 && now >= gap + late
    requires AgingWindows(agingThreshold, Some(0), now) < AgingWindows(agingThreshold, Some(gap), now) + k
    ensures Overtakes(1, agingThreshold, TwoTasks(k, gap, now), 0, 1, k, gap, late)
  {
    TwoWaiting(agingThreshold, k, gap);
    var ops := TwoTasks(k, gap, now);
    RunAppend(1, agingThreshold, ops[..2], ops[2]);
    assert ops[..2] + [ops[2]] == ops;
    var h := Run(1, agingThreshold, ops);
    hide Run, AgingWindows, BirthOf, NotSkippedSince, AgedSince, IsBlocked;
    var a, b := h.state.queued[0], h.state.queued[1];
    assert a.priority == AgingWindows(agingThreshold, Some(0), now);
    assert b.priority == k + AgingWindows(agingThreshold, Some(gap), now);
    TwoLogged(h.log, k, gap, now, h.log[2].levels);
  }

  /** With less than k thresholds, b keeps its lead however late the aging call is. */
  lemma ShorterGapLosesLead(agingThreshold: int, k: nat, gap: int, m: nat)
    requires agingThreshold > 0 && m >= 2 && gap < k * agingThreshold
    ensures var now := gap + m * agingThreshold;
            AgingWindows(agingThreshold, Some(0), now) < AgingWindows(agingThreshold, Some(gap), now) + k
  {
    var now := gap + m * agingThreshold;
    TimesMonotone(2, m, agingThreshold);
    WindowsFloor(agingThreshold, now - gap, m);
    assert now < (m + k) * agingThreshold;
    var wa := AgingWindows(agingThreshold, Some(0), now);
    if wa >= m + k {
      TimesMonotone(m + k, wa, agingThreshold);
    }
  }

  ghost predicate CanBeOvertaken(agingThreshold: int, k: nat, gap: int, late: nat)
    requires agingThreshold > 0
  {
    exists limit, ops, i, j :: Overtakes(limit, agingThreshold, ops, i, j, k, gap, late)
  }

  /**
   * The exact bound: k levels of priority can overtake a gap of seniority if and only if the gap is shorter than
   * k thresholds, or k is one, the gap is exactly one threshold and no aging call later than the younger task's
   * acceptance is asked for: waiting exactly one threshold counts no window.
   */
  lemma OvertakingIsExact(agingThreshold: int, k: nat, gap: int, late: nat)
    requires agingThreshold > 0
    ensures CanBeOvertaken(agingThreshold, k, gap, late) <==>
            gap < k * agingThreshold || (k == 1 && gap == agingThreshold && late == 0)
  {
    hide Overtakes;
    if gap < k * agingThreshold {
      TimesMonotone(1, agingThreshold, late + 2);
      ShorterGapLosesLead(agingThreshold, k, gap, late + 2);
      OvertakenAt(agingThreshold, k, gap, gap + (late + 2) * agingThreshold, late);
    } else if k == 1 && gap == agingThreshold && late == 0 {
      OvertakenAt(agingThreshold, k, gap, gap, late);
    } else {
      forall limit, ops, i: nat, j: nat
        ensures !Overtakes(limit, agingThreshold, ops, i, j, k, gap, late)
      {
        NeverOvertaken(limit, agingThreshold, ops, i, j, k, gap, late);
      }
    }
  }

  lemma RunAppend(limit: int, agingThreshold: int, ops: seq<Operation>, op: Operation)
    requires agingThreshold > 0
    ensures Run(limit, agingThreshold, ops + [op]) == Perform(Run(limit, agingThreshold, ops), op)
  {
    assert (ops + [op])[..|ops|] == ops;
  }
}
