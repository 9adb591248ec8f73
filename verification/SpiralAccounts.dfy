/** Exact accounts of a run: how often each handler ran, each gate opened, each decision was taken. */
module SpiralAccounts {
  import opened Common
  import opened Spiral
  import opened SpiralRun
  import opened SpiralInvariants

  // ---------------------------------------------------------------- counting history

  datatype Pattern =
    | EntryOf(phase: Phase)             // the node of a phase entered its body and called its handler, if any
    | HandlerRun(phase: Phase)          // the handler of a phase ran
    | DecisionOf(phase: Phase, decision: Decision)
    | AnyPassed
    | AnyOpened
    | AnyDecision(decision: Decision)

  predicate Matches(e: Event, pattern: Pattern) {
    match pattern
    case EntryOf(p) => !e.Decided? && e.phase == p
    case HandlerRun(p) => !e.Decided? && e.phase == p && e.call.Returned?
    case DecisionOf(p, d) => e.Decided? && e.phase == p && e.decision == d
    case AnyPassed => e.Passed?
    case AnyOpened => e.Opened?
    case AnyDecision(d) => e.Decided? && e.decision == d
  }

  function Count(log: seq<Event>, pattern: Pattern): nat {
    if log == [] then 0
    else Count(log[..|log| - 1], pattern) + if Matches(log[|log| - 1], pattern) then 1 else 0
  }

  lemma CountAppend(log: seq<Event>, e: Event, pattern: Pattern)
    ensures Count(log + [e], pattern) == Count(log, pattern) + if Matches(e, pattern) then 1 else 0
  {
    assert (log + [e])[..|log|] == log;
  }

  /** The outputs handlers returned, in order, leaving out the calls that returned none. */
  function Outputs(log: seq<Event>): seq<string> {
    if log == [] then []
    else
      var e := log[|log| - 1];
      Outputs(log[..|log| - 1]) +
      match e
      case Passed(_, Returned(Some(output))) => [output]
      case Opened(_, Returned(Some(output))) => [output]
      case _ => []
  }

  function CountGated(g: Graph, phases: seq<Phase>): nat {
    if phases == [] then 0
    else CountGated(g, phases[..|phases| - 1]) + if phases[|phases| - 1] in g.gatePhases then 1 else 0
  }

  lemma CountGatedAppend(g: Graph, phases: seq<Phase>, p: Phase)
    ensures CountGated(g, phases + [p]) == CountGated(g, phases) + if p in g.gatePhases then 1 else 0
  {
    assert (phases + [p])[..|phases|] == phases;
  }

  function Flag(b: bool): nat {
    if b then 1 else 0
  }

  ghost predicate Rejected(m: Machine) {
    m.state.lastDecision == Some(Reject)
  }

  // ---------------------------------------------------------------- the account of one phase

  ghost predicate PhaseAccount(g: Graph, job: Job, m: Machine, p: Phase) {
    var entries := Count(m.log, EntryOf(p));
    var approves, revises := Count(m.log, DecisionOf(p, Approve)), Count(m.log, DecisionOf(p, Revise));
    var pauses, rejects := Count(m.log, DecisionOf(p, Pause)), Count(m.log, DecisionOf(p, Reject));
    if p in m.state.completedPhases then
      && rejects == 0
      && (if p in g.gatePhases then approves == 1 && entries == 1 + revises
          else approves == revises == pauses == 0 && entries == 1)
    else if Frontier(job, m.state) == Some(p) && p in g.gatePhases then
      && approves == 0 && rejects == Flag(Rejected(m))
      && entries == revises + Flag(m.state.pendingGateId.Some? || Rejected(m))
    else
      entries == approves == revises == pauses == rejects == 0
  }

  lemma PhaseAccountStep(g: Graph, job: Job, m: Machine, m': Machine, e: Event, p: Phase)
    requires AtFrontier(g, job, m.state) && AtFrontier(g, job, m'.state)
    requires StepShape(g, job, m, m', e) && PhaseAccount(g, job, m, p)
    ensures PhaseAccount(g, job, m', p)
  {
    CountAppend(m.log, e, EntryOf(p));
    forall d: Decision
      ensures Count(m'.log, DecisionOf(p, d)) ==
              Count(m.log, DecisionOf(p, d)) + Flag(Matches(e, DecisionOf(p, d)))
    {
      CountAppend(m.log, e, DecisionOf(p, d));
    }
  }

  // ---------------------------------------------------------------- the account of the whole run

  /** How many steps of each kind a history holds. */
  datatype Totals = Totals(passes: nat, opens: nat, approvals: nat, revisions: nat, pauses: nat, rejections: nat)

  function Tally(log: seq<Event>): Totals {
    Totals(Count(log, AnyPassed), Count(log, AnyOpened), Count(log, AnyDecision(Approve)),
           Count(log, AnyDecision(Revise)), Count(log, AnyDecision(Pause)), Count(log, AnyDecision(Reject)))
  }

  lemma TallyAppend(log: seq<Event>, e: Event)
    ensures var t := Tally(log);
            Tally(log + [e]) ==
            match e {
              case Passed(_, _) => t.(passes := t.passes + 1)
              case Opened(_, _) => t.(opens := t.opens + 1)
              case Decided(_, _, Approve) => t.(approvals := t.approvals + 1)
              case Decided(_, _, Revise) => t.(revisions := t.revisions + 1)
              case Decided(_, _, Pause) => t.(pauses := t.pauses + 1)
              case Decided(_, _, Reject) => t.(rejections := t.rejections + 1)
            }
  {
    CountAppend(log, e, AnyPassed);
    CountAppend(log, e, AnyOpened);
    CountAppend(log, e, AnyDecision(Approve));
    CountAppend(log, e, AnyDecision(Revise));
    CountAppend(log, e, AnyDecision(Pause));
    CountAppend(log, e, AnyDecision(Reject));
  }

  ghost predicate TotalAccount(g: Graph, m: Machine) {
    var gated, t := CountGated(g, m.state.completedPhases), Tally(m.log);
    && t.passes == |m.state.completedPhases| - gated
    && t.approvals == gated
    && t.rejections == Flag(Rejected(m))
    && t.opens == gated + t.revisions + t.rejections + Flag(m.state.pendingGateId.Some?)
    && |m.log| == t.passes + t.opens + t.approvals + t.revisions + t.pauses + t.rejections
  }

  lemma TotalAccountStep(g: Graph, job: Job, m: Machine, m': Machine, e: Event)
    requires AtFrontier(g, job, m.state) && AtFrontier(g, job, m'.state)
    requires StepShape(g, job, m, m', e) && TotalAccount(g, m)
    ensures TotalAccount(g, m')
  {
    var before, after := Tally(m.log), Tally(m'.log);
    TallyAppend(m.log, e);
    var gated, gated' := CountGated(g, m.state.completedPhases), CountGated(g, m'.state.completedPhases);
    assert gated' == gated + Flag(e.Decided? && e.decision == Approve) by {
      CountGatedAppend(g, m.state.completedPhases, e.phase);
    }
    assert |m'.state.completedPhases| ==
           |m.state.completedPhases| + Flag(e.Passed? || (e.Decided? && e.decision == Approve));
    assert Rejected(m') == (e.Decided? && e.decision == Reject);
  }

  // ---------------------------------------------------------------- order and content of the history

  ghost predicate Approval(job: Job, p: Phase, e: Event) {
    e == Decided(p, GateId(job.projectId, p), Approve)
  }

  ghost predicate Before(job: Job, p: Phase, q: Phase) {
    var d := Distinct(job.phaseSequence);
    exists i, j :: 0 <= i < j < |d| && d[i] == p && d[j] == q
  }

  /** Any step of phase q comes after the approval of every gated phase before q. */
  ghost predicate ApprovalOrder(g: Graph, job: Job, log: seq<Event>) {
    forall p, i :: 0 <= i < |log| && p in g.gatePhases && Before(job, p, log[i].phase) ==>
      exists j :: 0 <= j < i && Approval(job, p, log[j])
  }

  ghost predicate HistoryContent(g: Graph, job: Job, m: Machine) {
    && m.state.artifacts == Outputs(m.log)
    && (forall i :: 0 <= i < |m.log| && !m.log[i].Decided? ==>
          (m.log[i].call.Returned? <==> m.log[i].phase in g.handlers))
    && (forall i :: 0 <= i < |m.log| && m.log[i].Decided? ==>
          m.log[i].phase in g.gatePhases && m.log[i].gateId == GateId(job.projectId, m.log[i].phase))
    && CompletedWereApproved(g, job, m)
  }

  ghost predicate CompletedWereApproved(g: Graph, job: Job, m: Machine) {
    forall p :: p in m.state.completedPhases && p in g.gatePhases ==>
      exists j :: 0 <= j < |m.log| && Approval(job, p, m.log[j])
  }

  lemma HistoryContentStep(g: Graph, job: Job, m: Machine, m': Machine, e: Event)
    requires AtFrontier(g, job, m.state) && AtFrontier(g, job, m'.state)
    requires StepShape(g, job, m, m', e) && HistoryContent(g, job, m)
    ensures HistoryContent(g, job, m')
  {
    assert m'.log[..|m.log|] == m.log;
    forall p | p in m'.state.completedPhases && p in g.gatePhases
      ensures exists j :: 0 <= j < |m'.log| && Approval(job, p, m'.log[j])
    {
      if p in m.state.completedPhases {
        var j :| 0 <= j < |m.log| && Approval(job, p, m.log[j]);
        assert Approval(job, p, m'.log[j]);
      } else {
        assert Approval(job, p, m'.log[|m.log|]);
      }
    }
  }

  lemma BeforeFrontierApproved(g: Graph, job: Job, m: Machine, p: Phase, q: Phase)
    requires AtFrontier(g, job, m.state) && CompletedWereApproved(g, job, m)
    requires p in g.gatePhases && Before(job, p, q) && Frontier(job, m.state) == Some(q)
    ensures exists j :: 0 <= j < |m.log| && Approval(job, p, m.log[j])
  {
    var d := Distinct(job.phaseSequence);
    var a, b :| 0 <= a < b < |d| && d[a] == p && d[b] == q;
    assert b == |m.state.completedPhases|;
    assert p == d[..b][a];
  }

  lemma ApprovalOrderStep(g: Graph, job: Job, m: Machine, m': Machine, e: Event)
    requires AtFrontier(g, job, m.state) && CompletedWereApproved(g, job, m)
    requires StepShape(g, job, m, m', e) && ApprovalOrder(g, job, m.log)
    ensures ApprovalOrder(g, job, m'.log)
  {
    forall p, i | 0 <= i < |m'.log| && p in g.gatePhases && Before(job, p, m'.log[i].phase)
      ensures exists j :: 0 <= j < i && Approval(job, p, m'.log[j])
    {
      if i < |m.log| {
        assert m'.log[i] == m.log[i];
        var j :| 0 <= j < i && Approval(job, p, m.log[j]);
        assert Approval(job, p, m'.log[j]);
      } else {
        BeforeFrontierApproved(g, job, m, p, e.phase);
        var j :| 0 <= j < |m.log| && Approval(job, p, m.log[j]);
        assert Approval(job, p, m'.log[j]);
      }
    }
  }

  // ---------------------------------------------------------------- induction over a run

  ghost predicate Accounts(g: Graph, job: Job, m: Machine) {
    && AtFrontier(g, job, m.state)
    && (forall p :: PhaseAccount(g, job, m, p))
    && TotalAccount(g, m)
    && HistoryContent(g, job, m)
    && ApprovalOrder(g, job, m.log)
  }

  lemma AccountsStep(g: Graph, job: Job, m: Machine, m': Machine) returns (e: Event)
    requires Accounts(g, job, m) && Step(g, m, m')
    ensures StepShape(g, job, m, m', e) && Accounts(g, job, m')
  {
    e := FrontierStep(g, job, m, m');
    forall p
      ensures PhaseAccount(g, job, m', p)
    {
      PhaseAccountStep(g, job, m, m', e, p);
    }
    TotalAccountStep(g, job, m, m', e);
    HistoryContentStep(g, job, m, m', e);
    ApprovalOrderStep(g, job, m, m', e);
  }

  lemma {:induction false} AccountsInRun(g: Graph, job: Job, run: seq<Machine>, i: nat)
    requires IsRun(g, job, run) && i < |run|
    ensures Accounts(g, job, run[i])
  {
    if i > 0 {
      AccountsInRun(g, job, run, i - 1);
      var _ := AccountsStep(g, job, run[i - 1], run[i]);
    } else {
      FrontierInRun(g, job, run, 0);
    }
  }

  lemma ReachableAccounts(g: Graph, job: Job, m: Machine)
    requires Reachable(g, job, m)
    ensures Accounts(g, job, m)
  {
    var run: seq<Machine> :| IsRun(g, job, run) && run[|run| - 1] == m;
    AccountsInRun(g, job, run, |run| - 1);
  }

  // ---------------------------------------------------------------- theorems

  lemma {:induction false} HandlerRunsAreEntries(g: Graph, log: seq<Event>, p: Phase)
    requires forall i :: 0 <= i < |log| && !log[i].Decided? ==> (log[i].call.Returned? <==> log[i].phase in g.handlers)
    ensures Count(log, HandlerRun(p)) == if p in g.handlers then Count(log, EntryOf(p)) else 0
  {
    if log != [] {
      HandlerRunsAreEntries(g, log[..|log| - 1], p);
    }
  }

  /**
   * Exact handler accounting. A handler of an ungated phase has run once if the phase is completed and
   * never otherwise. A handler of a gated phase has run once plus once for each REVISE at its gate after
   * which the phase was entered again; the re-entry is outstanding exactly when the phase is next, its gate
   * is not pending and the run was not rejected. PAUSE and the re-execution on resume do not appear.
   */
  lemma HandlerAccounting(g: Graph, job: Job, m: Machine, p: Phase)
    requires Reachable(g, job, m) && p in g.handlers
    ensures var runs, revises := Count(m.log, HandlerRun(p)), Count(m.log, DecisionOf(p, Revise));
            if p !in g.gatePhases then runs == Flag(p in m.state.completedPhases)
            else if p in m.state.completedPhases then runs == 1 + revises
            else if Frontier(job, m.state) != Some(p) then runs == 0
            else if m.state.pendingGateId.Some? || Rejected(m) then runs == 1 + revises
            else runs == revises
  {
    ReachableAccounts(g, job, m);
    assert PhaseAccount(g, job, m, p);
    HandlerRunsAreEntries(g, m.log, p);
  }

  /** The artifacts are the outputs of the handler calls that returned one, in call order. */
  lemma ArtifactsAreOutputs(g: Graph, job: Job, m: Machine)
    requires Reachable(g, job, m)
    ensures m.state.artifacts == Outputs(m.log)
  {
    ReachableAccounts(g, job, m);
  }

  lemma StepAppends(g: Graph, job: Job, run: seq<Machine>, i: nat)
    requires IsRun(g, job, run) && 0 < i < |run|
    ensures run[i - 1].log <= run[i].log && |run[i].log| == |run[i - 1].log| + 1
    ensures run[i - 1].state.artifacts <= run[i].state.artifacts
    ensures run[i - 1].state.completedPhases <= run[i].state.completedPhases
  {
    FrontierInRun(g, job, run, i - 1);
    var _ := FrontierStep(g, job, run[i - 1], run[i]);
  }

  /** History, artifacts and completed phases only ever grow at the end. */
  lemma {:induction false} AppendOnly(g: Graph, job: Job, run: seq<Machine>, i: nat, j: nat)
    requires IsRun(g, job, run) && i <= j < |run|
    ensures run[i].log <= run[j].log && |run[j].log| == |run[i].log| + (j - i)
    ensures run[i].state.artifacts <= run[j].state.artifacts
    ensures run[i].state.completedPhases <= run[j].state.completedPhases
  {
    hide IsRun;
    if i < j {
      AppendOnly(g, job, run, i, j - 1);
      StepAppends(g, job, run, j);
    }
  }

  /**
   * Approval safety: a gated phase is completed if and only if an APPROVE was consumed while exactly its
   * gate was pending, and then there was exactly one; before that, no later phase took any step.
   */
  lemma ApprovalSafety(g: Graph, job: Job, m: Machine, p: Phase)
    requires Reachable(g, job, m) && p in g.gatePhases
    ensures p in m.state.completedPhases <==> exists j :: 0 <= j < |m.log| && Approval(job, p, m.log[j])
    ensures Count(m.log, DecisionOf(p, Approve)) == Flag(p in m.state.completedPhases)
    ensures forall i :: 0 <= i < |m.log| && Before(job, p, m.log[i].phase) ==>
              exists j :: 0 <= j < i && Approval(job, p, m.log[j])
  {
    ReachableAccounts(g, job, m);
    assert PhaseAccount(g, job, m, p);
    if j :| 0 <= j < |m.log| && Approval(job, p, m.log[j]) {
      CountIsPositive(m.log, DecisionOf(p, Approve), j);
    }
  }

  lemma {:induction false} CountIsPositive(log: seq<Event>, pattern: Pattern, i: nat)
    requires i < |log| && Matches(log[i], pattern)
    ensures Count(log, pattern) > 0
  {
    if i < |log| - 1 {
      CountIsPositive(log[..|log| - 1], pattern, i);
    }
  }

  /** The record of an APPROVE says what the state said: it was taken while that phase's gate was pending. */
  lemma DecisionsMatchPendingGate(g: Graph, job: Job, run: seq<Machine>, i: nat, p: Phase, gateId: string, d: Decision)
    requires IsRun(g, job, run) && 0 < i < |run| && run[i].log == run[i - 1].log + [Decided(p, gateId, d)]
    ensures run[i - 1].state.pendingGateId == Some(GateId(job.projectId, p))
    ensures gateId == GateId(job.projectId, p) && AtGate(g, run[i - 1])
  {
    var m := run[i - 1];
    FrontierInRun(g, job, run, i - 1);
    var e := FrontierStep(g, job, m, run[i]);
    assert (m.log + [Decided(p, gateId, d)])[|m.log|] == (m.log + [e])[|m.log|];
    assert e == Decided(p, gateId, d);
    RouterAtFrontier(g, job, m);
  }

  /**
   * The number of committed node steps, in every reachable state: one per ungated phase, two per gated
   * phase, two per REVISE (the decision and the reopened gate), one per PAUSE, two more for a reject
   * (its gate and the decision) and one for a gate that is open.
   */
  lemma StepCount(g: Graph, job: Job, m: Machine)
    requires Reachable(g, job, m)
    ensures var gated := CountGated(g, m.state.completedPhases);
            |m.log| == (|m.state.completedPhases| - gated) + 2 * gated
                       + 2 * Count(m.log, AnyDecision(Revise)) + Count(m.log, AnyDecision(Pause))
                       + 2 * Flag(Rejected(m)) + Flag(m.state.pendingGateId.Some?)
  {
    ReachableAccounts(g, job, m);
  }

  /** A finished run that was not rejected completed every phase and took exactly U + 2G + 2R + P steps. */
  lemma FinishedStepCount(g: Graph, job: Job, m: Machine)
    requires Reachable(g, job, m) && Finished(m) && !Rejected(m)
    ensures var d := Distinct(job.phaseSequence);
            var gated := CountGated(g, d);
            && m.state.completedPhases == d
            && |m.log| == (|d| - gated) + 2 * gated
                          + 2 * Count(m.log, AnyDecision(Revise)) + Count(m.log, AnyDecision(Pause))
  {
    ReachableAccounts(g, job, m);
    RouterAtFrontier(g, job, m);
    var d := Distinct(job.phaseSequence);
    assert d[..|d|] == d;
  }

  /** A rejected run takes no further step: the rejection is the last entry of the history, for good. */
  lemma RejectIsFinal(g: Graph, job: Job, run: seq<Machine>, i: nat)
    requires IsRun(g, job, run) && i < |run|
    ensures (exists j :: 0 <= j < |run[i].log| && run[i].log[j].Decided? && run[i].log[j].decision == Reject)
            <==> Rejected(run[i])
    ensures Rejected(run[i]) ==> i == |run| - 1 && Finished(run[i])
  {
    AccountsInRun(g, job, run, i);
    var m := run[i];
    if j :| 0 <= j < |m.log| && m.log[j].Decided? && m.log[j].decision == Reject {
      CountIsPositive(m.log, AnyDecision(Reject), j);
    }
    if Rejected(m) {
      CountHasWitness(m.log, AnyDecision(Reject));
      if i + 1 < |run| {
        assert Step(g, run[i + 1 - 1], run[i + 1]);
        var _ := AccountsStep(g, job, run[i], run[i + 1]);
      }
    }
  }

  lemma {:induction false} CountHasWitness(log: seq<Event>, pattern: Pattern)
    requires Count(log, pattern) > 0
    ensures exists i :: 0 <= i < |log| && Matches(log[i], pattern)
  {
    if !Matches(log[|log| - 1], pattern) {
      CountHasWitness(log[..|log| - 1], pattern);
      var i :| 0 <= i < |log| - 1 && Matches(log[..|log| - 1][i], pattern);
      assert Matches(log[i], pattern);
    }
  }

  /** The retrospective's outcome test: every phase of the spec is among the completed ones. */
  predicate OutcomeCompleted(job: Job, state: SpiralState) {
    forall p :: p in job.phaseSequence ==> p in state.completedPhases
  }

  /** On a finished run the retrospective says "completed" exactly when the run was not rejected. */
  lemma OutcomeIsNotRejected(g: Graph, job: Job, m: Machine)
    requires Reachable(g, job, m) && Finished(m)
    ensures OutcomeCompleted(job, m.state) <==> !Rejected(m)
  {
    ReachableAccounts(g, job, m);
    RouterAtFrontier(g, job, m);
    var d, k := Distinct(job.phaseSequence), |m.state.completedPhases|;
    if Rejected(m) {
      assert d[k] in job.phaseSequence && d[k] !in d[..k];
    } else {
      assert d[..k] == d;
    }
  }
}
