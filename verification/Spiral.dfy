/** One project spiral: its serializable state, its router and the node run for each phase. */
module Spiral {
  import opened Common

  datatype Phase =
    | Interview | Discovery | Synthesis | Plan | RedTeam
    | SliceApproval | Implementation | Review | Retro

  const SPIRAL_PHASES: seq<Phase> :=
    [Interview, Discovery, Synthesis, Plan, RedTeam, SliceApproval, Implementation, Review, Retro]

  function PhaseName(phase: Phase): string {
    match phase
    case Interview => "interview"
    case Discovery => "discovery"
    case Synthesis => "synthesis"
    case Plan => "plan"
    case RedTeam => "red_team"
    case SliceApproval => "slice_approval"
    case Implementation => "implementation"
    case Review => "review"
    case Retro => "retro"
  }

  datatype Decision = Approve | Revise | Pause | Reject

  /** The state LangGraph checkpoints. `currentPhase` is `None` before any node has run. */
  datatype SpiralState = SpiralState(
    projectId: string,
    tier: string,
    phaseSequence: seq<Phase>,
    currentPhase: Option<Phase>,
    completedPhases: seq<Phase>,
    pendingGateId: Option<string>,
    lastDecision: Option<Decision>,
    artifacts: seq<string>,
    escalationsToday: int)

  datatype GateInterruptPayload = GateInterruptPayload(
    projectId: string, gateId: string, phase: Phase, summary: string)

  /** What became of the handler while a node ran: none injected, or it returned. */
  datatype Call = NoHandler | Returned(output: Option<string>)

  /** One committed node step. The sequence of these is the history of a run. */
  datatype Event =
    | Passed(phase: Phase, call: Call)
    | Opened(phase: Phase, call: Call)
    | Decided(phase: Phase, gateId: string, decision: Decision)

  /**
   * An injected handler sees the state, and may depend on everything that happened before in the
   * run: the history stands for whatever a stateful handler has kept from its earlier calls.
   */
  type Handler = (seq<Event>, SpiralState) -> Option<string>

  /** A compiled graph: the injected handlers and the phases policy marks as gates. */
  datatype Graph = Graph(handlers: map<Phase, Handler>, gatePhases: set<Phase>)

  /** A checkpoint together with the history that led to it. */
  datatype Machine = Machine(state: SpiralState, log: seq<Event>)

  /** What one execution of a node does: pause without touching the state, or commit an update. */
  datatype NodeResult =
    | Interrupt(payload: GateInterruptPayload)
    | Commit(machine: Machine)

  // ---------------------------------------------------------------- router

  function FirstUncompleted(sequence: seq<Phase>, completed: seq<Phase>): Option<Phase> {
    if sequence == [] then None
    else if sequence[0] !in completed then Some(sequence[0])
    else FirstUncompleted(sequence[1..], completed)
  }

  /** `None` is LangGraph's END. */
  function NextActivePhase(state: SpiralState): Option<Phase> {
    if state.lastDecision == Some(Reject) then None
    else FirstUncompleted(state.phaseSequence, state.completedPhases)
  }

  // ---------------------------------------------------------------- nodes

  function GateId(projectId: string, phase: Phase): string {
    projectId + ":" + PhaseName(phase)
  }

  function GatePayload(state: SpiralState, phase: Phase, gateId: string): GateInterruptPayload {
    GateInterruptPayload(state.projectId, gateId, phase,
                         "Approval required for phase '" + PhaseName(phase) + "'.")
  }

  function CallHandler(graph: Graph, phase: Phase, m: Machine): Call {
    if phase in graph.handlers then Returned(graph.handlers[phase](m.log, m.state)) else NoHandler
  }

  function Produced(call: Call): seq<string> {
    if call.Returned? && call.output.Some? then [call.output.value] else []
  }

  function CompletePhase(phase: Phase, state: SpiralState): seq<Phase> {
    if phase in state.completedPhases then state.completedPhases
    else state.completedPhases + [phase]
  }

  function DecisionUpdate(phase: Phase, state: SpiralState, decision: Decision): SpiralState {
    match decision
    case Approve =>
      state.(currentPhase := Some(phase), completedPhases := CompletePhase(phase, state),
             pendingGateId := None, lastDecision := Some(decision))
    case Revise =>
      state.(currentPhase := Some(phase), pendingGateId := None, lastDecision := Some(decision))
    case Pause =>
      state.(currentPhase := Some(phase), lastDecision := Some(decision))
    case Reject =>
      state.(currentPhase := Some(phase), pendingGateId := None, lastDecision := Some(Reject))
  }

  /** The node of `phase`. `resume` is the value a resumed interrupt returns, if there is one. */
  function RunPhase(graph: Graph, phase: Phase, m: Machine, resume: Option<Decision>): NodeResult {
    var state := m.state;
    if phase in graph.gatePhases then
      var gateId := GateId(state.projectId, phase);
      if state.pendingGateId == Some(gateId) then
        if resume.None? then Interrupt(GatePayload(state, phase, gateId))
        else
          Commit(Machine(DecisionUpdate(phase, state, resume.value),
                         m.log + [Decided(phase, gateId, resume.value)]))
      else
        var call := CallHandler(graph, phase, m);
        Commit(Machine(state.(currentPhase := Some(phase), pendingGateId := Some(gateId),
                              artifacts := state.artifacts + Produced(call)),
                       m.log + [Opened(phase, call)]))
    else
      var call := CallHandler(graph, phase, m);
      Commit(Machine(state.(currentPhase := Some(phase),
                            completedPhases := CompletePhase(phase, state),
                            pendingGateId := None,
                            artifacts := state.artifacts + Produced(call)),
                     m.log + [Passed(phase, call)]))
  }

  // ---------------------------------------------------------------- facts

  lemma PhaseNamesDiffer(a: Phase, b: Phase)
    requires PhaseName(a) == PhaseName(b)
    ensures a == b
  {
    var n := PhaseName(a);
    assert |n| == |PhaseName(b)| && n[0] == PhaseName(b)[0] && n[2] == PhaseName(b)[2];
  }

  /** A project's gates are told apart by their ids. */
  lemma GateIdsDiffer(projectId: string, a: Phase, b: Phase)
    requires GateId(projectId, a) == GateId(projectId, b)
    ensures a == b
  {
    var prefix := projectId + ":";
    assert (prefix + PhaseName(a))[|prefix|..] == PhaseName(a);
    assert (prefix + PhaseName(b))[|prefix|..] == PhaseName(b);
    PhaseNamesDiffer(a, b);
  }

  /** The phases go by their names, in the order of the spiral. */
  lemma PhasesByName()
    ensures |SPIRAL_PHASES| == 9
    ensures forall i :: 0 <= i < 9 ==>
              PhaseName(SPIRAL_PHASES[i]) ==
              ["interview", "discovery", "synthesis", "plan", "red_team", "slice_approval", "implementation",
               "review", "retro"][i]
  {
  }

  /** No phase name has a colon in it. */
  lemma NoColon(p: Phase)
    ensures ':' !in PhaseName(p)
  {
  }

  /** Gate ids tell projects apart too, even projects with colons in their own ids. */
  lemma GateIdsTellAll(projectId: string, a: Phase, projectId': string, b: Phase)
    requires GateId(projectId, a) == GateId(projectId', b)
    ensures projectId == projectId' && a == b
  {
    if |projectId| < |projectId'| {
      ShorterProjectDiffers(projectId, a, projectId', b);
    } else if |projectId'| < |projectId| {
      ShorterProjectDiffers(projectId', b, projectId, a);
    } else {
      var id := GateId(projectId, a);
      assert id[..|projectId|] == projectId && GateId(projectId', b)[..|projectId'|] == projectId';
      GateIdsDiffer(projectId, a, b);
    }
  }

  lemma ShorterProjectDiffers(projectId: string, a: Phase, projectId': string, b: Phase)
    requires |projectId| < |projectId'|
    ensures GateId(projectId, a) != GateId(projectId', b)
  {
    NoColon(a);
    hide PhaseName;
    var id, id' := GateId(projectId, a), GateId(projectId', b);
    assert id'[|projectId'|] == ':';
    assert |projectId'| < |id| ==> id[|projectId'|] == PhaseName(a)[|projectId'| - |projectId| - 1];
  }

  /** The phases of a sequence in order of first occurrence. */
  function Distinct(sequence: seq<Phase>): (d: seq<Phase>)
    ensures forall p :: p in d <==> p in sequence
    ensures NoDuplicates(d)
  {
    if sequence == [] then []
    else
      var front, last := sequence[..|sequence| - 1], sequence[|sequence| - 1];
      assert sequence == front + [last];
      if last in front then Distinct(front) else Distinct(front) + [last]
  }

  lemma {:induction false} FirstUncompletedAppend(front: seq<Phase>, last: Phase, done: seq<Phase>)
    ensures FirstUncompleted(front + [last], done) ==
            if FirstUncompleted(front, done).Some? then FirstUncompleted(front, done)
            else if last in done then None else Some(last)
  {
    var s := front + [last];
    if front == [] {
      assert s[1..] == [];
    } else {
      assert s[1..] == front[1..] + [last];
      FirstUncompletedAppend(front[1..], last, done);
    }
  }

  lemma {:induction false} FirstUncompletedIsNone(sequence: seq<Phase>, done: seq<Phase>)
    ensures FirstUncompleted(sequence, done).None? <==> forall p :: p in sequence ==> p in done
  {
    if sequence != [] {
      FirstUncompletedIsNone(sequence[1..], done);
      assert sequence == [sequence[0]] + sequence[1..];
    }
  }

  /** Walking a sequence with duplicates visits exactly its distinct phases, in order. */
  lemma {:induction false} RouterFollowsDistinct(sequence: seq<Phase>, k: nat)
    requires k <= |Distinct(sequence)|
    ensures FirstUncompleted(sequence, Distinct(sequence)[..k]) ==
            if k < |Distinct(sequence)| then Some(Distinct(sequence)[k]) else None
  {
    var d := Distinct(sequence);
    if sequence != [] {
      var front, last := sequence[..|sequence| - 1], sequence[|sequence| - 1];
      assert sequence == front + [last];
      var df := Distinct(front);
      FirstUncompletedAppend(front, last, d[..k]);
      if k <= |df| {
        RouterFollowsDistinct(front, k);
        assert d[..k] == df[..k];
        if k == |df| {
          assert df[..k] == df;
        }
      } else {
        assert d[..k] == d;
        FirstUncompletedIsNone(front, d);
      }
    }
  }
}
