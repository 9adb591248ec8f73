/** The runtime around the spiral: commit a node, route, repeat; pause at a gate; resume with a decision. */
module SpiralRun {
  import opened Common
  import opened Spiral

  /** What the driver is asked to run. */
  datatype Job = Job(projectId: string, tier: string, phaseSequence: seq<Phase>)

  function InitialState(job: Job): SpiralState {
    SpiralState(job.projectId, job.tier, job.phaseSequence, None, [], None, None, [], 0)
  }

  function Start(job: Job): Machine {
    Machine(InitialState(job), [])
  }

  /** One execution of the node the router picks; `None` at END. */
  function RunNext(g: Graph, m: Machine, resume: Option<Decision>): Option<NodeResult> {
    var next := NextActivePhase(m.state);
    if next.None? then None else Some(RunPhase(g, next.value, m, resume))
  }

  /** The run is interrupted: the next node surfaces a payload instead of committing. */
  predicate AtGate(g: Graph, m: Machine) {
    var r := RunNext(g, m, None);
    r.Some? && r.value.Interrupt?
  }

  /** The payload of the interrupt. */
  function PayloadAt(g: Graph, m: Machine): GateInterruptPayload
    requires AtGate(g, m)
  {
    RunNext(g, m, None).value.payload
  }

  predicate Finished(m: Machine) {
    NextActivePhase(m.state).None?
  }

  predicate CanTick(g: Graph, m: Machine) {
    !Finished(m) && !AtGate(g, m)
  }

  /** One committed step that consumes no decision. */
  function Tick(g: Graph, m: Machine): Machine
    requires CanTick(g, m)
  {
    RunNext(g, m, None).value.machine
  }

  /** The interrupted node runs again from its start, now with a decision to return. */
  function Resume(g: Graph, m: Machine, d: Decision): Machine
    requires AtGate(g, m)
  {
    RunNext(g, m, Some(d)).value.machine
  }

  // ---------------------------------------------------------------- termination

  function Remaining(state: SpiralState): set<Phase> {
    set p | p in state.phaseSequence && p !in state.completedPhases
  }

  /** Twice the distinct phases remaining, plus one unless the next phase's gate is already pending. */
  function Potential(state: SpiralState): nat {
    var next := NextActivePhase(state);
    2 * |Remaining(state)| +
    if next.Some? && state.pendingGateId == Some(GateId(state.projectId, next.value)) then 0 else 1
  }

  lemma {:induction false} RouterPicksRemaining(sequence: seq<Phase>, done: seq<Phase>)
    ensures var p := FirstUncompleted(sequence, done);
            p.Some? ==> p.value in sequence && p.value !in done
  {
    if sequence != [] && sequence[0] in done {
      RouterPicksRemaining(sequence[1..], done);
    }
  }

  /** Every step that consumes no decision strictly decreases the potential, from any state at all. */
  lemma TickDecreasesPotential(g: Graph, m: Machine)
    requires CanTick(g, m)
    ensures Potential(Tick(g, m).state) < Potential(m.state)
  {
    var m' := Tick(g, m);
    var p := NextActivePhase(m.state).value;
    RouterPicksRemaining(m.state.phaseSequence, m.state.completedPhases);
    if p in g.gatePhases {
      assert Remaining(m'.state) == Remaining(m.state);
    } else {
      assert Remaining(m'.state) == Remaining(m.state) - {p};
    }
  }

  /** There are only nine phases, so the potential is never above nineteen. */
  lemma PotentialIsSmall(state: SpiralState)
    ensures Potential(state) <= 2 * |SPIRAL_PHASES| + 1
  {
    forall p: Phase
      ensures p in SPIRAL_PHASES
    {
      PhaseIsListed(p);
    }
    hide Remaining, NextActivePhase;
    AtMostOf(SPIRAL_PHASES, Remaining(state));
  }

  lemma PhaseIsListed(p: Phase)
    ensures p in SPIRAL_PHASES
  {
    var i := match p
      case Interview => 0 case Discovery => 1 case Synthesis => 2 case Plan => 3 case RedTeam => 4
      case SliceApproval => 5 case Implementation => 6 case Review => 7 case Retro => 8;
    assert SPIRAL_PHASES[i] == p;
  }

  lemma {:induction false} AtMostOf(all: seq<Phase>, some: set<Phase>)
    requires forall p :: p in some ==> p in all
    ensures |some| <= |all|
  {
    if all != [] {
      assert all == [all[0]] + all[1..];
      AtMostOf(all[1..], some - {all[0]});
    } else {
      assert some == {};
    }
  }

  /** One `invoke`: commit and route until END or an interrupt. */
  function Settle(g: Graph, m: Machine): (s: Machine)
    ensures !CanTick(g, s)
    decreases Potential(m.state)
  {
    if CanTick(g, m) then
      TickDecreasesPotential(g, m);
      Settle(g, Tick(g, m))
    else m
  }

  /** One invocation commits no more nodes than the potential it starts from. */
  lemma {:induction false} InvocationIsShort(g: Graph, m: Machine)
    ensures |m.log| <= |Settle(g, m).log| <= |m.log| + Potential(m.state)
    ensures |Settle(g, m).log| <= |m.log| + 2 * |SPIRAL_PHASES| + 1
    decreases Potential(m.state)
  {
    PotentialIsSmall(m.state);
    if CanTick(g, m) {
      TickDecreasesPotential(g, m);
      InvocationIsShort(g, Tick(g, m));
    }
  }

  /** The driver: settle, and as long as the run is interrupted and decisions come, resume. */
  function Drive(g: Graph, m: Machine, decisions: seq<Decision>): (s: Machine)
    ensures !CanTick(g, s)
    decreases |decisions|
  {
    var s := Settle(g, m);
    if decisions == [] || !AtGate(g, s) then s
    else Drive(g, Resume(g, s, decisions[0]), decisions[1..])
  }

  /** Settling first changes nothing: only the checkpoint matters. */
  lemma DriveFromSettled(g: Graph, m: Machine, decisions: seq<Decision>)
    ensures Drive(g, Settle(g, m), decisions) == Drive(g, m, decisions)
  {
    assert Settle(g, Settle(g, m)) == Settle(g, m);
  }

  lemma DriveFromTick(g: Graph, m: Machine, decisions: seq<Decision>)
    requires CanTick(g, m)
    ensures Drive(g, Tick(g, m), decisions) == Drive(g, m, decisions)
  {
  }

  /** Stopping after any number of decisions and resuming from the saved state loses nothing. */
  lemma {:induction false} SplitAtAnyDecision(g: Graph, m: Machine, before: seq<Decision>, after: seq<Decision>)
    ensures Drive(g, Drive(g, m, before), after) == Drive(g, m, before + after)
    decreases |before|
  {
    var s := Settle(g, m);
    if before == [] {
      assert before + after == after;
      DriveFromSettled(g, m, after);
    } else if AtGate(g, s) {
      assert (before + after)[0] == before[0];
      assert (before + after)[1..] == before[1..] + after;
      SplitAtAnyDecision(g, Resume(g, s, before[0]), before[1..], after);
    } else {
      assert Settle(g, s) == s;
    }
  }

  // ---------------------------------------------------------------- runs

  /** A single committed step of either kind. */
  ghost predicate Step(g: Graph, m: Machine, m': Machine) {
    || (CanTick(g, m) && m' == Tick(g, m))
    || (AtGate(g, m) && exists d: Decision :: m' == Resume(g, m, d))
  }

  /** Every state the run of `job` goes through, one committed step after the other. */
  ghost predicate IsRun(g: Graph, job: Job, run: seq<Machine>) {
    && |run| > 0
    && run[0] == Start(job)
    && forall i :: 0 < i < |run| ==> Step(g, run[i - 1], run[i])
  }

  ghost predicate Reachable(g: Graph, job: Job, m: Machine) {
    exists run: seq<Machine> :: IsRun(g, job, run) && run[|run| - 1] == m
  }

  lemma ReachableStep(g: Graph, job: Job, m: Machine, m': Machine)
    requires Reachable(g, job, m) && Step(g, m, m')
    ensures Reachable(g, job, m')
  {
    hide Step;
    var run: seq<Machine> :| IsRun(g, job, run) && run[|run| - 1] == m;
    assert IsRun(g, job, run + [m']);
    assert (run + [m'])[|run + [m']| - 1] == m';
  }

  lemma {:induction false} SettleReachable(g: Graph, job: Job, m: Machine)
    requires Reachable(g, job, m)
    ensures Reachable(g, job, Settle(g, m))
    decreases Potential(m.state)
  {
    if CanTick(g, m) {
      TickDecreasesPotential(g, m);
      ReachableStep(g, job, m, Tick(g, m));
      SettleReachable(g, job, Tick(g, m));
    }
  }

  /** Whatever the driver ends in is a state of a run, so every theorem about runs holds of it. */
  lemma {:induction false} DriveReachable(g: Graph, job: Job, m: Machine, decisions: seq<Decision>)
    requires Reachable(g, job, m)
    ensures Reachable(g, job, Drive(g, m, decisions))
    decreases |decisions|
  {
    SettleReachable(g, job, m);
    var s := Settle(g, m);
    if decisions != [] && AtGate(g, s) {
      ReachableStep(g, job, s, Resume(g, s, decisions[0]));
      DriveReachable(g, job, Resume(g, s, decisions[0]), decisions[1..]);
    }
  }

  lemma StartReachable(g: Graph, job: Job)
    ensures Reachable(g, job, Start(job))
  {
    var run := [Start(job)];
    assert IsRun(g, job, run) && run[|run| - 1] == Start(job);
  }
}
