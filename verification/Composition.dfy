/** The application that runs a gated project: invoke the graph, ask the approver, resume, repeat. */
module Composition {
  import opened Common
  import opened Spiral
  import opened SpiralRun
  import opened SpiralAccounts
  import opened SpiralRequests

  datatype ApprovalRequest = ApprovalRequest(
    projectId: string, gateId: string, message: string, idempotencyKey: string)

  /** The request that an interrupt payload is turned into. */
  function RequestOf(payload: GateInterruptPayload): ApprovalRequest {
    ApprovalRequest(payload.projectId, payload.gateId, payload.summary, payload.gateId)
  }

  function RequestFor(job: Job, p: Phase): ApprovalRequest {
    var id := job.projectId + ":" + PhaseName(p);
    ApprovalRequest(job.projectId, id, "Approval required for phase '" + PhaseName(p) + "'.", id)
  }

  /** The requests whose answers a history records. */
  function AnsweredRequests(job: Job, log: seq<Event>): seq<ApprovalRequest> {
    if log == [] then []
    else
      var e := log[|log| - 1];
      AnsweredRequests(job, log[..|log| - 1]) + if e.Decided? then [RequestFor(job, e.phase)] else []
  }

  /** The requests a run has made: those answered, and the one it waits on unless it is finished. */
  function RequestsOf(job: Job, m: Machine): seq<ApprovalRequest> {
    AnsweredRequests(job, m.log) + if Finished(m) then [] else [RequestFor(job, NextActivePhase(m.state).value)]
  }

  lemma AnsweredRequestsAppend(job: Job, log: seq<Event>, e: Event)
    ensures AnsweredRequests(job, log + [e]) ==
            AnsweredRequests(job, log) + if e.Decided? then [RequestFor(job, e.phase)] else []
  {
    assert (log + [e])[..|log|] == log;
  }

  function GateIdsOf(requests: seq<ApprovalRequest>): seq<string> {
    seq(|requests|, i requires 0 <= i < |requests| => requests[i].gateId)
  }

  lemma {:induction false} AnsweredRequestsAreGates(job: Job, log: seq<Event>)
    requires forall i :: 0 <= i < |log| && log[i].Decided? ==> log[i].gateId == GateId(job.projectId, log[i].phase)
    ensures GateIdsOf(AnsweredRequests(job, log)) == AnsweredGates(log)
  {
    if log != [] {
      AnsweredRequestsAreGates(job, log[..|log| - 1]);
    }
  }

  lemma {:induction false} SettleAnswersNothing(g: Graph, job: Job, m: Machine)
    ensures AnsweredRequests(job, Settle(g, m).log) == AnsweredRequests(job, m.log)
    decreases Potential(m.state)
  {
    if CanTick(g, m) {
      AnsweredRequestsAppend(job, m.log, Tick(g, m).log[|m.log|]);
      TickDecreasesPotential(g, m);
      SettleAnswersNothing(g, job, Tick(g, m));
    }
  }

  /** At an interrupt the payload names the gate of the phase at the frontier. */
  lemma PayloadAtGate(g: Graph, job: Job, m: Machine, d: Decision)
    requires Reachable(g, job, m) && AtGate(g, m)
    ensures var p := NextActivePhase(m.state).value;
            && RequestOf(PayloadAt(g, m)) == RequestFor(job, p) && PayloadAt(g, m).phase == p
            && AnsweredRequests(job, Resume(g, m, d).log) == AnsweredRequests(job, m.log) + [RequestFor(job, p)]
  {
    assert m.state.projectId == job.projectId by {
      ReachableAccounts(g, job, m);
    }
    AnsweredRequestsAppend(job, m.log, Resume(g, m, d).log[|m.log|]);
  }

  lemma FirstInterrupt(g: Graph, job: Job, answers: seq<Decision>)
    ensures var m := Settle(g, Start(job));
            && Reachable(g, job, m) && Settle(g, m) == m && AnsweredRequests(job, m.log) == []
            && Drive(g, m, answers) == Drive(g, Start(job), answers)
  {
    StartReachable(g, job);
    SettleReachable(g, job, Start(job));
    SettleAnswersNothing(g, job, Start(job));
    DriveFromSettled(g, Start(job), answers);
  }

  /** Resuming an interrupt leads to the next one: nothing is lost and one request more is answered. */
  lemma AnsweredInterrupt(g: Graph, job: Job, m: Machine, d: Decision, rest: seq<Decision>)
    requires Reachable(g, job, m) && AtGate(g, m) && Settle(g, m) == m
    ensures var m' := Settle(g, Resume(g, m, d));
            && Reachable(g, job, m') && Settle(g, m') == m'
            && AnsweredRequests(job, m'.log) == AnsweredRequests(job, Resume(g, m, d).log)
            && Drive(g, m', rest) == Drive(g, m, [d] + rest)
  {
    var r := Resume(g, m, d);
    ReachableStep(g, job, m, r);
    SettleReachable(g, job, r);
    SettleAnswersNothing(g, job, r);
    DriveFromSettled(g, r, rest);
    assert ([d] + rest)[1..] == rest;
  }

  lemma DriveStops(g: Graph, m: Machine, decisions: seq<Decision>)
    requires Settle(g, m) == m && (decisions == [] || Finished(m))
    ensures Drive(g, m, decisions) == m
  {
  }

  /**
   * An approval port as the driver sees it: the answers it is going to give, and the requests it has
   * received. A request with no answer left is one the human never answers.
   */
  class Approver {
    var answers: seq<Decision>
    var seen: seq<ApprovalRequest>

    constructor (answers: seq<Decision>)
      ensures this.answers == answers && seen == []
    {
      this.answers := answers;
      seen := [];
    }

    method RequestApproval(request: ApprovalRequest) returns (decision: Option<Decision>)
      modifies this
      ensures seen == old(seen) + [request]
      ensures decision == if old(answers) == [] then None else Some(old(answers)[0])
      ensures answers == if old(answers) == [] then [] else old(answers)[1..]
    {
      seen := seen + [request];
      if answers == [] {
        decision := None;
      } else {
        decision := Some(answers[0]);
        answers := answers[1..];
      }
    }
  }

  class TalismanApp {
    const graph: Graph
    var checkpoint: Machine

    constructor (graph: Graph, job: Job)
      ensures this.graph == graph && checkpoint == Start(job)
    {
      this.graph := graph;
      checkpoint := Start(job);
    }

    /** Execute nodes from the checkpoint until END or an interrupt; `resume` answers the interrupt it is at. */
    method Invoke(resume: Option<Decision>) returns (interrupt: Option<GateInterruptPayload>)
      requires resume.Some? ==> AtGate(graph, checkpoint)
      modifies this
      ensures checkpoint == Settle(graph, if resume.None? then old(checkpoint)
                                          else Resume(graph, old(checkpoint), resume.value))
      ensures interrupt.None? <==> Finished(checkpoint)
      ensures interrupt.Some? ==>
                AtGate(graph, checkpoint) && interrupt.value == PayloadAt(graph, checkpoint)
    {
      if resume.Some? {
        checkpoint := RunNext(graph, checkpoint, resume).value.machine;
      }
      ghost var first := checkpoint;
      while true
        invariant Settle(graph, checkpoint) == Settle(graph, first)
        decreases Potential(checkpoint.state)
      {
        var next := NextActivePhase(checkpoint.state);
        if next.None? {
          return None;
        }
        match RunPhase(graph, next.value, checkpoint, None) {
          case Interrupt(payload) =>
            return Some(payload);
          case Commit(m) =>
            TickDecreasesPotential(graph, checkpoint);
            checkpoint := m;
        }
      }
    }

    /** Run a project that is not gated: a single invocation. */
    method RunProject(job: Job) returns (final: SpiralState)
      modifies this
      ensures checkpoint == Settle(graph, Start(job)) && final == checkpoint.state
      ensures CountGated(graph, Distinct(job.phaseSequence)) == 0 ==>
                final.completedPhases == Distinct(job.phaseSequence)
    {
      checkpoint := Start(job);
      var _ := Invoke(None);
      final := checkpoint.state;
      if CountGated(graph, Distinct(job.phaseSequence)) == 0 {
        ApproveOnlyRun(graph, job, []);
      }
    }

    /**
     * Run a gated project. The result is the final state, or `None` if the approver left a gate unanswered;
     * then the checkpoint is the state to resume from.
     */
    method RunGatedProject(job: Job, approver: Approver) returns (final: Option<SpiralState>)
      requires approver as object != this
      modifies this, approver
      // checkpoint and history: by Refinement, those of the reference interpreter
      ensures checkpoint == Drive(graph, Start(job), old(approver.answers))
      ensures final == if Finished(checkpoint) then Some(checkpoint.state) else None
      // one request per interrupt: those that were answered, and the one that was not (see RequestsInPhaseOrder)
      ensures approver.seen == old(approver.seen) + RequestsOf(job, checkpoint)
    {
      hide AtGate, Drive, Settle, Resume, Reachable, AnsweredRequests, RequestOf, RequestFor, PayloadAt;
      ghost var answers, asked := approver.answers, approver.seen;
      FirstInterrupt(graph, job, answers);

      checkpoint := Start(job);
      var interrupt := Invoke(None);
      while interrupt.Some?
        invariant Reachable(graph, job, checkpoint) && Settle(graph, checkpoint) == checkpoint
        invariant interrupt.None? <==> Finished(checkpoint)
        invariant interrupt.Some? ==>
                    AtGate(graph, checkpoint) && interrupt.value == PayloadAt(graph, checkpoint)
        invariant Drive(graph, checkpoint, approver.answers) == Drive(graph, Start(job), answers)
        invariant approver.seen == asked + AnsweredRequests(job, checkpoint.log)
        decreases |approver.answers|
      {
        ghost var before, left := checkpoint, approver.answers;
        var decision := approver.RequestApproval(RequestOf(interrupt.value));
        if decision.None? {
          PayloadAtGate(graph, job, before, Approve);
          DriveStops(graph, checkpoint, []);
          return None;
        }
        PayloadAtGate(graph, job, before, decision.value);
        AnsweredInterrupt(graph, job, before, decision.value, approver.answers);
        assert left == [decision.value] + approver.answers;
        interrupt := Invoke(decision);
      }
      DriveStops(graph, checkpoint, approver.answers);
      final := Some(checkpoint.state);
    }
  }

  /** The gates the driver asks about follow the order of the distinct phases. */
  lemma RequestsInPhaseOrder(g: Graph, job: Job, m: Machine)
    requires Reachable(g, job, m)
    ensures GateIdsOf(AnsweredRequests(job, m.log)) == InPhaseOrder(g, job, Distinct(job.phaseSequence), m.log)
  {
    assert HistoryContent(g, job, m) by {
      ReachableAccounts(g, job, m);
    }
    AnsweredRequestsAreGates(job, m.log);
    RequestSequence(g, job, m);
  }

  /** Where no phase was answered twice, no two answered requests are for the same gate. */
  lemma {:induction false} AnsweredOnce(g: Graph, job: Job, log: seq<Event>)
    requires forall i :: 0 <= i < |log| && log[i].Decided? ==> log[i].phase in g.gatePhases
    requires forall p :: p in g.gatePhases ==> TimesAnswered(log, p) <= 1
    ensures NoDuplicates(GateIdsOf(AnsweredRequests(job, log)))
    ensures forall p :: TimesAnswered(log, p) == 0 ==>
              GateId(job.projectId, p) !in GateIdsOf(AnsweredRequests(job, log))
  {
    if log != [] {
      hide GateId, TimesAnswered, PhaseName;
      var front, e := log[..|log| - 1], log[|log| - 1];
      assert log == front + [e];
      forall p
        ensures TimesAnswered(log, p) == TimesAnswered(front, p) + Flag(e.Decided? && e.phase == p)
      {
        TimesAnsweredAppend(front, e, p);
      }
      AnsweredOnce(g, job, front);
      var answered := AnsweredRequests(job, front);
      if e.Decided? {
        assert GateIdsOf(answered + [RequestFor(job, e.phase)]) ==
               GateIdsOf(answered) + [GateId(job.projectId, e.phase)];
        assert TimesAnswered(front, e.phase) == 0;
        forall p | TimesAnswered(log, p) == 0
          ensures GateId(job.projectId, p) != GateId(job.projectId, e.phase)
        {
          if GateId(job.projectId, p) == GateId(job.projectId, e.phase) {
            GateIdsDiffer(job.projectId, p, e.phase);
          }
        }
      } else {
        assert answered + [] == answered;
      }
    }
  }

  lemma AnsweredOnceInRun(g: Graph, job: Job, decisions: seq<Decision>)
    requires forall d :: d in decisions ==> d == Approve || d == Reject
    ensures NoDuplicates(GateIdsOf(AnsweredRequests(job, Drive(g, Start(job), decisions).log)))
  {
    var m := Drive(g, Start(job), decisions);
    StartReachable(g, job);
    DriveReachable(g, job, Start(job), decisions);
    assert HistoryContent(g, job, m) by {
      ReachableAccounts(g, job, m);
    }
    forall p | p in g.gatePhases
      ensures TimesAnswered(m.log, p) <= 1
    {
      AskedAtMostOnce(g, job, decisions, p);
    }
    AnsweredOnce(g, job, m.log);
  }

  /** With only APPROVE and REJECT to answer, no gate is requested twice, the one waited on included. */
  lemma RequestedOnce(g: Graph, job: Job, decisions: seq<Decision>)
    requires forall d :: d in decisions ==> d == Approve || d == Reject
    ensures NoDuplicates(GateIdsOf(RequestsOf(job, Drive(g, Start(job), decisions))))
  {
    hide Drive, Settle, Resume, Reachable, AtGate, AnsweredRequests, RequestFor, RequestOf, PayloadAt;
    var m := Drive(g, Start(job), decisions);
    if Finished(m) {
      AnsweredOnceInRun(g, job, decisions);
      assert RequestsOf(job, m) == AnsweredRequests(job, m.log);
    } else {
      // waiting for p, as many requests as if it were approved next
      AtGateUnlessFinished(g, m);
      StartReachable(g, job);
      DriveReachable(g, job, Start(job), decisions);
      PayloadAtGate(g, job, m, Approve);
      DriveOneMore(g, Start(job), decisions, Approve);
      SettleAnswersNothing(g, job, Resume(g, m, Approve));
      AnsweredOnceInRun(g, job, decisions + [Approve]);
    }
  }

  lemma AtGateUnlessFinished(g: Graph, m: Machine)
    requires !CanTick(g, m) && !Finished(m)
    ensures AtGate(g, m)
  {
  }

  /** One decision more is one resume more. */
  lemma DriveOneMore(g: Graph, m: Machine, decisions: seq<Decision>, d: Decision)
    requires AtGate(g, Drive(g, m, decisions))
    ensures Drive(g, m, decisions + [d]) == Settle(g, Resume(g, Drive(g, m, decisions), d))
  {
    SplitAtAnyDecision(g, m, decisions, [d]);
  }

  // ---------------------------------------------------------------- which request an answer is for

  /** The i-th request was answered with APPROVE and is for p. */
  ghost predicate ApprovedAt(job: Job, log: seq<Event>, p: Phase, i: int) {
    && 0 <= i < |Answers(log)| && i < |AnsweredRequests(job, log)|
    && AnsweredRequests(job, log)[i] == RequestFor(job, p) && Answers(log)[i] == Approve
  }

  lemma {:induction false} RequestsMatchAnswers(job: Job, log: seq<Event>)
    ensures |AnsweredRequests(job, log)| == |Answers(log)|
  {
    if log != [] {
      RequestsMatchAnswers(job, log[..|log| - 1]);
    }
  }

  lemma {:induction false} AnswerOfEvent(job: Job, log: seq<Event>, p: Phase, j: nat) returns (i: nat)
    requires j < |log| && Approval(job, p, log[j])
    ensures ApprovedAt(job, log, p, i)
  {
    var front := log[..|log| - 1];
    RequestsMatchAnswers(job, front);
    if j == |front| {
      i := |Answers(front)|;
    } else {
      i := AnswerOfEvent(job, front, p, j);
    }
  }

  lemma {:induction false} EventOfAnswer(job: Job, log: seq<Event>, p: Phase, i: nat) returns (j: nat)
    requires ApprovedAt(job, log, p, i)
    requires forall k :: 0 <= k < |log| && log[k].Decided? ==> log[k].gateId == GateId(job.projectId, log[k].phase)
    ensures j < |log| && Approval(job, p, log[j])
  {
    hide PhaseName;
    var front := log[..|log| - 1];
    RequestsMatchAnswers(job, front);
    if i == |Answers(front)| {
      j := |front|;
      GateIdsDiffer(job.projectId, p, log[j].phase);
    } else {
      j := EventOfAnswer(job, front, p, i);
    }
  }

  /** A gated phase is completed if and only if one of the requests for it was answered with APPROVE. */
  lemma CompletedIffApproved(g: Graph, job: Job, m: Machine, p: Phase)
    requires Reachable(g, job, m) && p in g.gatePhases
    ensures p in m.state.completedPhases <==> exists i :: ApprovedAt(job, m.log, p, i)
  {
    hide Reachable, Accounts, Answers, AnsweredRequests;
    ApprovalSafety(g, job, m, p);
    assert HistoryContent(g, job, m) by {
      ReachableAccounts(g, job, m);
    }
    hide Approval;
    if j: nat :| j < |m.log| && Approval(job, p, m.log[j]) {
      var i := AnswerOfEvent(job, m.log, p, j);
    }
    if i :| ApprovedAt(job, m.log, p, i) {
      var j := EventOfAnswer(job, m.log, p, i);
    }
  }
}
