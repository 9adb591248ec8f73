/** What every reachable state of a spiral keeps: the frontier, the accounts, the order of approvals. */
module SpiralInvariants {
  import opened Common
  import opened Spiral
  import opened SpiralRun

  // ---------------------------------------------------------------- frontier

  /** The first distinct phase of the job that is not completed. */
  ghost function Frontier(job: Job, state: SpiralState): Option<Phase> {
    var d := Distinct(job.phaseSequence);
    if |state.completedPhases| < |d| then Some(d[|state.completedPhases|]) else None
  }

  ghost predicate AtFrontier(g: Graph, job: Job, state: SpiralState) {
    var d := Distinct(job.phaseSequence);
    var k := |state.completedPhases|;
    && state.projectId == job.projectId && state.tier == job.tier
    && state.phaseSequence == job.phaseSequence && state.escalationsToday == 0
    && k <= |d| && state.completedPhases == d[..k]
    && (state.pendingGateId.Some? ==>
          && k < |d| && d[k] in g.gatePhases
          && state.pendingGateId.value == GateId(job.projectId, d[k])
          && state.lastDecision != Some(Reject))
    && (state.lastDecision == Some(Reject) ==> k < |d| && d[k] in g.gatePhases)
  }

  /** An output that was returned is the last artifact now; otherwise the artifacts are as they were. */
  ghost predicate AddsOutput(call: Call, before: seq<string>, after: seq<string>) {
    match call
    case Returned(Some(output)) =>
      && |after| == |before| + 1 && after[|before|] == output
      && forall i :: 0 <= i < |before| ==> after[i] == before[i]
    case _ => after == before
  }

  /** `m'` is `m` after the committed step that `e` records. */
  ghost predicate StepShape(g: Graph, job: Job, m: Machine, m': Machine, e: Event) {
    var d := Distinct(job.phaseSequence);
    var s, s', k := m.state, m'.state, |m.state.completedPhases|;
    && k < |d| && e.phase == d[k] && e.phase !in s.completedPhases
    && s.lastDecision != Some(Reject)
    && m'.log == m.log + [e]
    && match e {
         case Passed(p, call) =>
           && p !in g.gatePhases && (call.Returned? <==> p in g.handlers)
           && s.pendingGateId == None && s'.pendingGateId == None
           && s'.completedPhases == s.completedPhases + [p]
           && s'.lastDecision == s.lastDecision
           && AddsOutput(call, s.artifacts, s'.artifacts)
         case Opened(p, call) =>
           && p in g.gatePhases && (call.Returned? <==> p in g.handlers)
           && s.pendingGateId == None && s'.pendingGateId == Some(GateId(job.projectId, p))
           && s'.completedPhases == s.completedPhases
           && s'.lastDecision == s.lastDecision
           && AddsOutput(call, s.artifacts, s'.artifacts)
         case Decided(p, gateId, decision) =>
           && p in g.gatePhases && gateId == GateId(job.projectId, p)
           && s.pendingGateId == Some(gateId)
           && s'.completedPhases == (if decision == Approve then s.completedPhases + [p] else s.completedPhases)
           && s'.pendingGateId == (if decision == Pause then s.pendingGateId else None)
           && s'.lastDecision == Some(decision)
           && s'.artifacts == s.artifacts
       }
  }

  lemma RouterAtFrontier(g: Graph, job: Job, m: Machine)
    requires AtFrontier(g, job, m.state)
    ensures NextActivePhase(m.state) ==
            if m.state.lastDecision == Some(Reject) then None else Frontier(job, m.state)
  {
    RouterFollowsDistinct(job.phaseSequence, |m.state.completedPhases|);
  }

  lemma StepHasShape(g: Graph, job: Job, m: Machine, m': Machine) returns (e: Event)
    requires AtFrontier(g, job, m.state) && Step(g, m, m')
    ensures StepShape(g, job, m, m', e)
  {
    RouterAtFrontier(g, job, m);
    var d, k := Distinct(job.phaseSequence), |m.state.completedPhases|;
    assert d[k] !in d[..k];
    e := m'.log[|m.log|];
    hide Distinct, NextActivePhase, GateId;
  }

  lemma StepStaysAtFrontier(g: Graph, job: Job, m: Machine, m': Machine)
    requires AtFrontier(g, job, m.state) && Step(g, m, m')
    ensures AtFrontier(g, job, m'.state)
  {
    RouterAtFrontier(g, job, m);
    var d, k := Distinct(job.phaseSequence), |m.state.completedPhases|;
    assert d[..k] + [d[k]] == d[..k + 1];
    hide Distinct, NextActivePhase, GateId;
  }

  /** From a frontier state, every step has one of the three shapes and leads to a frontier state. */
  lemma FrontierStep(g: Graph, job: Job, m: Machine, m': Machine) returns (e: Event)
    requires AtFrontier(g, job, m.state) && Step(g, m, m')
    ensures StepShape(g, job, m, m', e)
    ensures AtFrontier(g, job, m'.state)
  {
    hide AtFrontier, StepShape, Step;
    e := StepHasShape(g, job, m, m');
    StepStaysAtFrontier(g, job, m, m');
  }

  /** In every reachable state the completed phases are a duplicate-free prefix of the distinct phases. */
  lemma {:induction false} FrontierInRun(g: Graph, job: Job, run: seq<Machine>, i: nat)
    requires IsRun(g, job, run) && i < |run|
    ensures AtFrontier(g, job, run[i].state)
  {
    if i > 0 {
      FrontierInRun(g, job, run, i - 1);
      var _ := FrontierStep(g, job, run[i - 1], run[i]);
    } else {
      assert Distinct(job.phaseSequence)[..0] == [];
    }
  }

  /**
   * Stated on the state alone: completed phases are distinct and a prefix of the distinct sequence,
   * and a pending gate is always the gate of the first phase not yet completed.
   */
  lemma FrontierInvariant(g: Graph, job: Job, m: Machine)
    requires Reachable(g, job, m)
    ensures m.state.completedPhases <= Distinct(job.phaseSequence)
    ensures NoDuplicates(m.state.completedPhases)
    ensures m.state.pendingGateId.Some? ==>
              var next := FirstUncompleted(job.phaseSequence, m.state.completedPhases);
              && next.Some? && next.value in g.gatePhases
              && m.state.pendingGateId == Some(GateId(job.projectId, next.value))
  {
    var run: seq<Machine> :| IsRun(g, job, run) && run[|run| - 1] == m;
    FrontierInRun(g, job, run, |run| - 1);
    RouterFollowsDistinct(job.phaseSequence, |m.state.completedPhases|);
  }

  /** On reachable states the potential is 2 * (distinct phases remaining) + (1 if no gate is pending). */
  lemma PotentialIsExact(g: Graph, job: Job, m: Machine)
    requires Reachable(g, job, m)
    ensures Potential(m.state) ==
            2 * (|Distinct(job.phaseSequence)| - |m.state.completedPhases|) +
            (if m.state.pendingGateId.None? then 1 else 0)
  {
    var run: seq<Machine> :| IsRun(g, job, run) && run[|run| - 1] == m;
    FrontierInRun(g, job, run, |run| - 1);
    RouterAtFrontier(g, job, m);
    var d, k := Distinct(job.phaseSequence), |m.state.completedPhases|;
    RemainingIsSuffix(job.phaseSequence, k);
    assert Remaining(m.state) == set p | p in d[k..];
  }

  lemma RemainingIsSuffix(sequence: seq<Phase>, k: nat)
    requires k <= |Distinct(sequence)|
    ensures (set p | p in sequence && p !in Distinct(sequence)[..k]) == (set p | p in Distinct(sequence)[k..])
    ensures |set p | p in Distinct(sequence)[k..]| == |Distinct(sequence)| - k
  {
    var d := Distinct(sequence);
    assert d == d[..k] + d[k..];
    forall p | p in d[k..]
      ensures p !in d[..k]
    {
      var i :| 0 <= i < |d[k..]| && d[k..][i] == p;
      assert d[k + i] == p;
    }
    SetOfDistinct(d[k..]);
  }

  lemma {:induction false} SetOfDistinct(s: seq<Phase>)
    requires NoDuplicates(s)
    ensures |set p | p in s| == |s|
  {
    if s != [] {
      SetOfDistinct(s[1..]);
      assert s == [s[0]] + s[1..];
      assert (set p | p in s) == {s[0]} + set p | p in s[1..];
      assert s[0] !in s[1..];
    }
  }
}
