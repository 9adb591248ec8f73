/**
 * A recursive interpreter of a job over its distinct phases. It has no pending gate, no router and no
 * re-execution of nodes; the stepwise machine is proved to compute the same thing.
 */
module SpiralReference {
  import opened Common
  import opened Spiral
  import opened SpiralRun

  datatype Progress = Progress(
    done: seq<Phase>, current: Option<Phase>, last: Option<Decision>, artifacts: seq<string>, log: seq<Event>)

  const NOTHING_DONE := Progress([], None, None, [], [])

  datatype Outcome =
    | AllDone(progress: Progress)
    | Refused(progress: Progress)
    | Waiting(progress: Progress, gate: Phase)

  /** What a handler is shown. */
  function View(job: Job, pr: Progress): SpiralState {
    SpiralState(job.projectId, job.tier, job.phaseSequence, pr.current, pr.done, None, pr.last, pr.artifacts, 0)
  }

  function Work(g: Graph, job: Job, p: Phase, pr: Progress): Call {
    if p in g.handlers then Returned(g.handlers[p](pr.log, View(job, pr))) else NoHandler
  }

  /** The progress once the handler's work is in. */
  function Worked(pr: Progress, p: Phase, call: Call): Progress {
    match call
    case Returned(Some(output)) => pr.(current := Some(p), artifacts := pr.artifacts + [output])
    case _ => pr.(current := Some(p))
  }

  /** Do the phases still to do, one after the other. */
  function Walk(g: Graph, job: Job, todo: seq<Phase>, pr: Progress, decisions: seq<Decision>): Outcome
    decreases |decisions|, |todo|, 1
  {
    if todo == [] then AllDone(pr)
    else
      var p := todo[0];
      var call := Work(g, job, p, pr);
      var worked := Worked(pr, p, call);
      if p in g.gatePhases then
        Await(g, job, todo, worked.(log := pr.log + [Opened(p, call)]), decisions)
      else
        Walk(g, job, todo[1..], worked.(done := pr.done + [p], log := pr.log + [Passed(p, call)]), decisions)
  }

  /** The first phase is worked; ask about it until the answer moves the job. */
  function Await(g: Graph, job: Job, todo: seq<Phase>, pr: Progress, decisions: seq<Decision>): Outcome
    requires todo != []
    decreases |decisions|, |todo|, 0
  {
    var p := todo[0];
    if decisions == [] then Waiting(pr, p)
    else
      var answer, rest := decisions[0], decisions[1..];
      var heard := pr.(current := Some(p), last := Some(answer),
                       log := pr.log + [Decided(p, GateId(job.projectId, p), answer)]);
      match answer
      case Approve => Walk(g, job, todo[1..], heard.(done := pr.done + [p]), rest)
      case Revise => Walk(g, job, todo, heard, rest)
      case Pause => Await(g, job, todo, heard, rest)
      case Reject => Refused(heard)
  }

  /** The checkpoint that shows an outcome. */
  function Checkpoint(job: Job, o: Outcome): Machine {
    var state := View(job, o.progress);
    Machine(if o.Waiting? then state.(pendingGateId := Some(GateId(job.projectId, o.gate))) else state,
            o.progress.log)
  }

  ghost predicate InStep(job: Job, todo: seq<Phase>, pr: Progress) {
    && Distinct(job.phaseSequence) == pr.done + todo
    && pr.last != Some(Reject)
  }

  lemma RouterInStep(job: Job, todo: seq<Phase>, pr: Progress)
    requires InStep(job, todo, pr)
    ensures NextActivePhase(View(job, pr)) == if todo == [] then None else Some(todo[0])
    ensures todo != [] ==> todo[0] !in pr.done
  {
    var d := Distinct(job.phaseSequence);
    assert d[..|pr.done|] == pr.done;
    RouterFollowsDistinct(job.phaseSequence, |pr.done|);
    if todo != [] {
      assert d[|pr.done|] == todo[0];
    }
  }

  lemma {:induction false} WalkRefined(g: Graph, job: Job, todo: seq<Phase>, pr: Progress, decisions: seq<Decision>)
    requires InStep(job, todo, pr)
    ensures Drive(g, Machine(View(job, pr), pr.log), decisions) ==
            Checkpoint(job, Walk(g, job, todo, pr, decisions))
    decreases |decisions|, |todo|, 1
  {
    hide Distinct, Potential;
    var m := Machine(View(job, pr), pr.log);
    RouterInStep(job, todo, pr);
    if todo != [] {
      var p, call := todo[0], Work(g, job, todo[0], pr);
      assert CallHandler(g, p, m) == call;
      var worked := Worked(pr, p, call);
      if p in g.gatePhases {
        var next := worked.(log := pr.log + [Opened(p, call)]);
        assert Tick(g, m) == Checkpoint(job, Waiting(next, p));
        DriveFromTick(g, m, decisions);
        AwaitRefined(g, job, todo, next, decisions);
      } else {
        var next := worked.(done := pr.done + [p], log := pr.log + [Passed(p, call)]);
        assert Tick(g, m) == Machine(View(job, next), next.log);
        DriveFromTick(g, m, decisions);
        WalkRefined(g, job, todo[1..], next, decisions);
      }
    }
  }

  lemma {:induction false} AwaitRefined(g: Graph, job: Job, todo: seq<Phase>, pr: Progress, decisions: seq<Decision>)
    requires InStep(job, todo, pr) && todo != [] && todo[0] in g.gatePhases
    ensures Drive(g, Checkpoint(job, Waiting(pr, todo[0])), decisions) ==
            Checkpoint(job, Await(g, job, todo, pr, decisions))
    decreases |decisions|, |todo|, 0
  {
    var p := todo[0];
    var m := Checkpoint(job, Waiting(pr, p));
    RouterInStep(job, todo, pr);
    assert NextActivePhase(m.state) == Some(p);
    assert AtGate(g, m) && Settle(g, m) == m;
    if decisions != [] {
      var answer, rest := decisions[0], decisions[1..];
      var heard := pr.(current := Some(p), last := Some(answer),
                       log := pr.log + [Decided(p, GateId(job.projectId, p), answer)]);
      match answer
      case Approve =>
        var next := heard.(done := pr.done + [p]);
        assert Resume(g, m, answer) == Machine(View(job, next), next.log);
        WalkRefined(g, job, todo[1..], next, rest);
      case Revise =>
        assert Resume(g, m, answer) == Machine(View(job, heard), heard.log);
        WalkRefined(g, job, todo, heard, rest);
      case Pause =>
        assert Resume(g, m, answer) == Checkpoint(job, Waiting(heard, p));
        AwaitRefined(g, job, todo, heard, rest);
      case Reject =>
        assert Resume(g, m, answer) == Machine(View(job, heard), heard.log);
    }
  }

  /**
   * Refinement: from the driver's initial state, for every graph and every list of decisions, the machine
   * ends in exactly the checkpoint and history the interpreter computes over the distinct phases.
   */
  lemma Refinement(g: Graph, job: Job, decisions: seq<Decision>)
    ensures Drive(g, Start(job), decisions) ==
            Checkpoint(job, Walk(g, job, Distinct(job.phaseSequence), NOTHING_DONE, decisions))
  {
    WalkRefined(g, job, Distinct(job.phaseSequence), NOTHING_DONE, decisions);
  }
}
