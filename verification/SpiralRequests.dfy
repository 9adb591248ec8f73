/** The approval requests of a run: which gates are asked about, in what order and how often. */
module SpiralRequests {
  import opened Common
  import opened Spiral
  import opened SpiralRun
  import opened SpiralInvariants
  import opened SpiralAccounts

  /** The gate ids that were answered, in order. */
  function AnsweredGates(log: seq<Event>): seq<string> {
    if log == [] then []
    else
      var e := log[|log| - 1];
      AnsweredGates(log[..|log| - 1]) + if e.Decided? then [e.gateId] else []
  }

  function Answers(log: seq<Event>): seq<Decision> {
    if log == [] then []
    else
      var e := log[|log| - 1];
      Answers(log[..|log| - 1]) + if e.Decided? then [e.decision] else []
  }

  lemma AnswersAppend(log: seq<Event>, e: Event)
    ensures Answers(log + [e]) == Answers(log) + if e.Decided? then [e.decision] else []
    ensures AnsweredGates(log + [e]) == AnsweredGates(log) + if e.Decided? then [e.gateId] else []
  {
    assert (log + [e])[..|log|] == log;
  }

  /** How often a phase's gate was answered. */
  function TimesAnswered(log: seq<Event>, p: Phase): nat {
    Count(log, DecisionOf(p, Approve)) + Count(log, DecisionOf(p, Revise))
    + Count(log, DecisionOf(p, Pause)) + Count(log, DecisionOf(p, Reject))
  }

  lemma TimesAnsweredAppend(log: seq<Event>, e: Event, p: Phase)
    ensures TimesAnswered(log + [e], p) == TimesAnswered(log, p) + Flag(e.Decided? && e.phase == p)
  {
    CountAppend(log, e, DecisionOf(p, Approve));
    CountAppend(log, e, DecisionOf(p, Revise));
    CountAppend(log, e, DecisionOf(p, Pause));
    CountAppend(log, e, DecisionOf(p, Reject));
  }

  /** The gate of each gated phase, in the order of `phases`, as often as it was answered. */
  ghost function InPhaseOrder(g: Graph, job: Job, phases: seq<Phase>, log: seq<Event>): seq<string> {
    if phases == [] then []
    else
      var p := phases[|phases| - 1];
      InPhaseOrder(g, job, phases[..|phases| - 1], log) +
      if p in g.gatePhases then Repeat(GateId(job.projectId, p), TimesAnswered(log, p)) else []
  }

  lemma {:induction false} InPhaseOrderSame(g: Graph, job: Job, phases: seq<Phase>, log: seq<Event>, log': seq<Event>)
    requires forall p :: p in phases ==> TimesAnswered(log, p) == TimesAnswered(log', p)
    ensures InPhaseOrder(g, job, phases, log) == InPhaseOrder(g, job, phases, log')
  {
    if phases != [] {
      InPhaseOrderSame(g, job, phases[..|phases| - 1], log, log');
    }
  }

  /** Phases not asked about yet add nothing. */
  lemma {:induction false} InPhaseOrderPrefix(g: Graph, job: Job, phases: seq<Phase>, k: nat, log: seq<Event>)
    requires k <= |phases|
    requires forall j :: k <= j < |phases| ==> TimesAnswered(log, phases[j]) == 0
    ensures InPhaseOrder(g, job, phases, log) == InPhaseOrder(g, job, phases[..k], log)
  {
    if k < |phases| {
      var front := phases[..|phases| - 1];
      InPhaseOrderPrefix(g, job, front, k, log);
      assert front[..k] == phases[..k];
    } else {
      assert phases[..k] == phases;
    }
  }

  lemma UntouchedAfterFrontier(g: Graph, job: Job, m: Machine, j: nat)
    requires Accounts(g, job, m)
    requires |m.state.completedPhases| < j < |Distinct(job.phaseSequence)|
    ensures TimesAnswered(m.log, Distinct(job.phaseSequence)[j]) == 0
  {
    var d, k := Distinct(job.phaseSequence), |m.state.completedPhases|;
    assert d[j] !in d[..k];
    assert PhaseAccount(g, job, m, d[j]);
  }

  lemma RequestStep(g: Graph, job: Job, m: Machine, m': Machine, e: Event)
    requires AtFrontier(g, job, m.state) && StepShape(g, job, m, m', e)
    requires var d := Distinct(job.phaseSequence);
             forall j :: |m.state.completedPhases| < j < |d| ==> TimesAnswered(m.log, d[j]) == 0
    requires AnsweredGates(m.log) == InPhaseOrder(g, job, Distinct(job.phaseSequence), m.log)
    ensures AnsweredGates(m'.log) == InPhaseOrder(g, job, Distinct(job.phaseSequence), m'.log)
  {
    var d, k := Distinct(job.phaseSequence), |m.state.completedPhases|;
    AnswersAppend(m.log, e);
    forall p
      ensures TimesAnswered(m'.log, p) == TimesAnswered(m.log, p) + Flag(e.Decided? && e.phase == p)
    {
      TimesAnsweredAppend(m.log, e, p);
    }
    if e.Decided? {
      DecidedRequestStep(g, job, d, k, m.log, m'.log, e);
    } else {
      InPhaseOrderSame(g, job, d, m.log, m'.log);
    }
  }

  lemma InPhaseOrderLast(g: Graph, job: Job, phases: seq<Phase>, k: nat, log: seq<Event>)
    requires k < |phases| && phases[k] in g.gatePhases
    ensures InPhaseOrder(g, job, phases[..k + 1], log) ==
            InPhaseOrder(g, job, phases[..k], log) +
            Repeat(GateId(job.projectId, phases[k]), TimesAnswered(log, phases[k]))
  {
    assert phases[..k + 1][..k] == phases[..k];
  }

  lemma RepeatOneMore(x: string, n: nat)
    ensures Repeat(x, n + 1) == Repeat(x, n) + [x]
  {
  }

  lemma DecidedRequestStep(g: Graph, job: Job, d: seq<Phase>, k: nat, log: seq<Event>, log': seq<Event>, e: Event)
    requires NoDuplicates(d) && k < |d| && e.phase == d[k] && d[k] in g.gatePhases
    requires forall p :: TimesAnswered(log', p) == TimesAnswered(log, p) + Flag(e.phase == p)
    requires forall j :: k < j < |d| ==> TimesAnswered(log, d[j]) == 0
    ensures InPhaseOrder(g, job, d, log') == InPhaseOrder(g, job, d, log) + [GateId(job.projectId, e.phase)]
  {
    hide TimesAnswered, GateId, InPhaseOrder, Repeat;
    InPhaseOrderPrefix(g, job, d, k + 1, log);
    InPhaseOrderPrefix(g, job, d, k + 1, log');
    InPhaseOrderLast(g, job, d, k, log);
    InPhaseOrderLast(g, job, d, k, log');
    assert d[k] !in d[..k];
    InPhaseOrderSame(g, job, d[..k], log, log');
    RepeatOneMore(GateId(job.projectId, d[k]), TimesAnswered(log, d[k]));
  }

  lemma RequestsAfterStep(g: Graph, job: Job, m: Machine, m': Machine)
    requires Accounts(g, job, m) && Step(g, m, m')
    requires AnsweredGates(m.log) == InPhaseOrder(g, job, Distinct(job.phaseSequence), m.log)
    ensures AnsweredGates(m'.log) == InPhaseOrder(g, job, Distinct(job.phaseSequence), m'.log)
  {
    assert AtFrontier(g, job, m.state);
    hide Accounts, StepShape, Step, InPhaseOrder, AnsweredGates, TimesAnswered, AtFrontier;
    var e := FrontierStep(g, job, m, m');
    forall j | |m.state.completedPhases| < j < |Distinct(job.phaseSequence)|
      ensures TimesAnswered(m.log, Distinct(job.phaseSequence)[j]) == 0
    {
      UntouchedAfterFrontier(g, job, m, j);
    }
    RequestStep(g, job, m, m', e);
  }

  lemma {:induction false} RequestsInRun(g: Graph, job: Job, run: seq<Machine>, i: nat)
    requires IsRun(g, job, run) && i < |run|
    ensures AnsweredGates(run[i].log) == InPhaseOrder(g, job, Distinct(job.phaseSequence), run[i].log)
  {
    if i > 0 {
      hide Accounts, Step, InPhaseOrder, AnsweredGates;
      RequestsInRun(g, job, run, i - 1);
      AccountsInRun(g, job, run, i - 1);
      RequestsAfterStep(g, job, run[i - 1], run[i]);
    } else {
      InPhaseOrderPrefix(g, job, Distinct(job.phaseSequence), 0, []);
    }
  }

  /**
   * The answered requests are the gated phases in distinct sequence order, each as often as it was
   * answered: once plus its revises and pauses when completed, and never after the gate that is next.
   */
  lemma RequestSequence(g: Graph, job: Job, m: Machine)
    requires Reachable(g, job, m)
    ensures AnsweredGates(m.log) == InPhaseOrder(g, job, Distinct(job.phaseSequence), m.log)
    ensures forall p :: p in g.gatePhases ==>
              TimesAnswered(m.log, p) ==
              if p in m.state.completedPhases then
                1 + Count(m.log, DecisionOf(p, Revise)) + Count(m.log, DecisionOf(p, Pause))
              else if Frontier(job, m.state) == Some(p) then
                Count(m.log, DecisionOf(p, Revise)) + Count(m.log, DecisionOf(p, Pause)) + Flag(Rejected(m))
              else 0
  {
    ReachableAccounts(g, job, m);
    forall p | p in g.gatePhases
      ensures PhaseAccount(g, job, m, p)
    {
    }
    var run: seq<Machine> :| IsRun(g, job, run) && run[|run| - 1] == m;
    RequestsInRun(g, job, run, |run| - 1);
  }

  // ---------------------------------------------------------------- decisions consumed

  lemma TickConsumesNothing(g: Graph, m: Machine)
    requires CanTick(g, m)
    ensures Answers(Tick(g, m).log) == Answers(m.log)
  {
    AnswersAppend(m.log, Tick(g, m).log[|m.log|]);
  }

  lemma ResumeConsumesOne(g: Graph, m: Machine, d: Decision)
    requires AtGate(g, m)
    ensures Answers(Resume(g, m, d).log) == Answers(m.log) + [d]
  {
    AnswersAppend(m.log, Resume(g, m, d).log[|m.log|]);
  }

  lemma {:induction false} SettleConsumesNothing(g: Graph, m: Machine)
    ensures Answers(Settle(g, m).log) == Answers(m.log)
    decreases Potential(m.state)
  {
    if CanTick(g, m) {
      TickConsumesNothing(g, m);
      TickDecreasesPotential(g, m);
      SettleConsumesNothing(g, Tick(g, m));
    }
  }

  /** The driver consumes a prefix of the decisions, one per interrupt, and all of them if it is still waiting. */
  lemma {:induction false} DriveConsumesPrefix(g: Graph, m: Machine, decisions: seq<Decision>) returns (n: nat)
    ensures n <= |decisions|
    ensures Answers(Drive(g, m, decisions).log) == Answers(m.log) + decisions[..n]
    ensures n == |decisions| || Finished(Drive(g, m, decisions))
    decreases |decisions|
  {
    hide Settle, Resume, RunNext, Answers;
    var s := Settle(g, m);
    SettleConsumesNothing(g, m);
    if decisions == [] || !AtGate(g, s) {
      n := 0;
    } else {
      ResumeConsumesOne(g, s, decisions[0]);
      var k := DriveConsumesPrefix(g, Resume(g, s, decisions[0]), decisions[1..]);
      n := k + 1;
      var rest := decisions[1..];
      assert decisions[..n] == [decisions[0]] + rest[..k];
    }
  }

  /** Only decisions that were given are ever recorded. */
  lemma AnswersWereGiven(g: Graph, job: Job, decisions: seq<Decision>)
    ensures var m := Drive(g, Start(job), decisions);
            && (forall d :: d in Answers(m.log) ==> d in decisions)
            && (Finished(m) || Answers(m.log) == decisions)
  {
    var n := DriveConsumesPrefix(g, Start(job), decisions);
    assert decisions == decisions[..n] + decisions[n..];
    assert [] + decisions[..n] == decisions[..n];
  }

  lemma {:induction false} NeverAnswered(log: seq<Event>, d: Decision, p: Phase)
    requires d !in Answers(log)
    ensures Count(log, DecisionOf(p, d)) == 0 && Count(log, AnyDecision(d)) == 0
  {
    if log != [] {
      NeverAnswered(log[..|log| - 1], d, p);
    }
  }

  lemma {:induction false} AnswersOnlyApprove(log: seq<Event>)
    requires forall d :: d in Answers(log) ==> d == Approve
    ensures |Answers(log)| == Count(log, AnyDecision(Approve))
  {
    if log != [] {
      var front := log[..|log| - 1];
      assert forall d :: d in Answers(front) ==> d in Answers(log);
      assert log[|log| - 1].Decided? ==> log[|log| - 1].decision in Answers(log);
      AnswersOnlyApprove(front);
    }
  }

  /** The gates of the gated phases among `phases`, each once, in order. */
  function GatesOf(g: Graph, job: Job, phases: seq<Phase>): seq<string> {
    if phases == [] then []
    else
      var p := phases[|phases| - 1];
      GatesOf(g, job, phases[..|phases| - 1]) + if p in g.gatePhases then [GateId(job.projectId, p)] else []
  }

  lemma {:induction false} OnceEach(g: Graph, job: Job, phases: seq<Phase>, log: seq<Event>)
    requires forall p :: p in phases && p in g.gatePhases ==> TimesAnswered(log, p) == 1
    ensures InPhaseOrder(g, job, phases, log) == GatesOf(g, job, phases)
  {
    if phases != [] {
      OnceEach(g, job, phases[..|phases| - 1], log);
      var p := phases[|phases| - 1];
      if p in g.gatePhases {
        assert TimesAnswered(log, p) == 1;
        assert Repeat(GateId(job.projectId, p), 1) == Repeat(GateId(job.projectId, p), 0) + [GateId(job.projectId, p)];
      }
    }
  }

  lemma {:induction false} CountGatedPrefix(g: Graph, phases: seq<Phase>, k: nat)
    requires k < |phases| && phases[k] in g.gatePhases
    ensures CountGated(g, phases[..k]) < CountGated(g, phases)
    decreases |phases|
  {
    if k < |phases| - 1 {
      CountGatedPrefix(g, phases[..|phases| - 1], k);
      assert phases[..|phases| - 1][..k] == phases[..k];
    }
  }

  lemma ApproveOnlyFinishes(g: Graph, job: Job, decisions: seq<Decision>)
    requires forall d :: d in decisions ==> d == Approve
    requires |decisions| >= CountGated(g, Distinct(job.phaseSequence))
    ensures var m := Drive(g, Start(job), decisions);
            Reachable(g, job, m) && Finished(m) && !Rejected(m)
  {
    var m, d := Drive(g, Start(job), decisions), Distinct(job.phaseSequence);
    var k := |m.state.completedPhases|;
    StartReachable(g, job);
    DriveReachable(g, job, Start(job), decisions);
    AnswersWereGiven(g, job, decisions);
    AnswersOnlyApprove(m.log);
    NeverAnswered(m.log, Reject, Plan);
    assert AtFrontier(g, job, m.state) && TotalAccount(g, m) by {
      ReachableAccounts(g, job, m);
    }
    if !Finished(m) {
      RouterAtFrontier(g, job, m);
      CountGatedPrefix(g, d, k);
      assert false;
    }
  }

  /**
   * With an approver that only approves and enough approvals, the run finishes with every distinct phase
   * completed, and the gates asked about are exactly the gated phases of the sequence, in order, once each.
   */
  lemma ApproveOnlyRun(g: Graph, job: Job, decisions: seq<Decision>)
    requires forall d :: d in decisions ==> d == Approve
    requires |decisions| >= CountGated(g, Distinct(job.phaseSequence))
    ensures var m, d := Drive(g, Start(job), decisions), Distinct(job.phaseSequence);
            && Finished(m) && m.state.completedPhases == d
            && AnsweredGates(m.log) == GatesOf(g, job, d)
  {
    var m, d := Drive(g, Start(job), decisions), Distinct(job.phaseSequence);
    ApproveOnlyFinishes(g, job, decisions);
    AnswersWereGiven(g, job, decisions);
    FinishedStepCount(g, job, m);
    RequestSequence(g, job, m);
    forall p | p in d && p in g.gatePhases
      ensures TimesAnswered(m.log, p) == 1
    {
      NeverAnswered(m.log, Revise, p);
      NeverAnswered(m.log, Pause, p);
    }
    OnceEach(g, job, d, m.log);
  }

  /** An approver that can only approve or reject is asked about each gate at most once. */
  lemma AskedAtMostOnce(g: Graph, job: Job, decisions: seq<Decision>, p: Phase)
    requires forall d :: d in decisions ==> d == Approve || d == Reject
    requires p in g.gatePhases
    ensures var m := Drive(g, Start(job), decisions);
            TimesAnswered(m.log, p) + Flag(m.state.pendingGateId == Some(GateId(job.projectId, p))) <= 1
  {
    var m := Drive(g, Start(job), decisions);
    StartReachable(g, job);
    DriveReachable(g, job, Start(job), decisions);
    RequestSequence(g, job, m);
    AnswersWereGiven(g, job, decisions);
    NeverAnswered(m.log, Revise, p);
    NeverAnswered(m.log, Pause, p);
    assert AtFrontier(g, job, m.state) by {
      ReachableAccounts(g, job, m);
    }
    var d, k := Distinct(job.phaseSequence), |m.state.completedPhases|;
    if m.state.pendingGateId == Some(GateId(job.projectId, p)) {
      GateIdsDiffer(job.projectId, p, d[k]);
      assert d[k] !in d[..k];
    }
  }
}
