# Verified models of TalisMan's orchestration core

This project models three parts of TalisMan in Dafny and proves properties of them.

**The gated spiral.** A project walks a sequence of phases. The router picks the first phase of the sequence that
is not completed; the node of an ungated phase calls its handler and completes it; the node of a gated phase
first calls its handler and records a pending gate, then is executed again, interrupts, and on resume turns a
human decision into one of four updates (approve, revise, pause, reject). `Spiral` holds the state, router and
nodes, `SpiralRun` the runtime around them: commit a node, route, repeat; an interrupt leaves the state alone; a
resume re-executes the interrupted node with the decision supplied. The node to resume at is not stored beside
the state because it is the router's answer on that state. Every committed step appends one event to a history,
so that "how often did this handler run" and "what was asked" are questions about the history. A handler is a
function of the history and the state, which covers handlers that keep state of their own between calls.
`SpiralReference` is an interpreter over the distinct phases that knows no pending gates, router or re-execution;
the machine is proved to refine it. `Composition` holds the driver as a loop over a mutable checkpoint, and
`TelegramApproval` the approver that reads decisions from an id-ordered message stream, alone and under the driver.

**The portfolio scheduler.** `Portfolio` gives the meaning of each operation on the scheduler's fields;
`PortfolioHistory` relates the fields to a log of all effective calls; `PortfolioTheorems`, `PortfolioOvertaking`
and `PortfolioDrain` hold what follows for whole runs; `Scheduler.PortfolioScheduler` is the object whose methods
update the fields in place and keep the agreement with a ghost log. Times and waits are integers, in microseconds, passed in where the
program reads its clock; the clock may go backwards.

**The prompt printer.** `PhasePrompts` holds the text of a phase's prompt and `PromptBuilder` the builder;
`PromptFences` counts the prompt's fences and cuts the untrusted block out again, `PromptBudget` says what of the
prior artifacts is shown. The program's documentation (src/talisman_core/policies/phase_prompts.py:12-14) says that
any fence-like marker in an artifact is neutralised. No fence survives, but a marker of five equals signs can;
`PromptMarkers` proves exactly when.

## Model

| member | source | states |
|---|---|---|
| `Spiral.GateIdsDiffer` | src/talisman_core/workflow/spiral.py:90-93 | gate ids tell the phases of a project apart |
| `Spiral.GateIdsTellAll` | src/talisman_core/workflow/spiral.py:90-93 | gate ids tell phases and projects apart, whatever the project ids are |
| `Spiral.PhasesByName` | src/talisman_core/workflow/spiral.py:24-34 | the nine phases, in order, by their names |
| `Spiral.RouterFollowsDistinct` | src/talisman_core/workflow/spiral.py:84-87 | over a sequence with duplicates, the router visits exactly the distinct phases in order of first occurrence |
| `SpiralRun.TickDecreasesPotential` | src/talisman_core/workflow/spiral.py:187-207 | from any state, a step that takes no decision strictly decreases the potential, so every invocation ends |
| `SpiralRun.InvocationIsShort` | src/talisman_core/workflow/spiral.py:232-247 | one invocation commits at most as many nodes as the potential, never more than nineteen |
| `SpiralRun.SplitAtAnyDecision` | src/talisman_core/workflow/spiral.py:187-207 | stopping after any number of decisions and resuming from the saved state gives the same as running through |
| `SpiralRun.DriveReachable` | src/talisman_core/app/composition.py:126-137 | whatever the driver ends in is a state of a step-by-step run, so the theorems on runs apply to it |
| `SpiralInvariants.FrontierStep` | src/talisman_core/workflow/spiral.py:141-207 | every step from a frontier state has one of three exact shapes (passed, opened, decided) and leads to a frontier state |
| `SpiralInvariants.FrontierInvariant` | src/talisman_core/workflow/spiral.py:73-93 | in every reachable state the completed phases are a duplicate-free prefix of the distinct sequence, and a pending gate is the gate of the first uncompleted phase, which is gated |
| `SpiralInvariants.PotentialIsExact` | src/talisman_core/workflow/spiral.py:81-87 | on reachable states the potential is 2 * (distinct phases remaining) + (1 if no gate is pending) |
| `SpiralAccounts.HandlerAccounting` | src/talisman_core/workflow/spiral.py:118-130 | the exact number of runs of each handler in every reachable state: once for a completed ungated phase; once plus once per re-entered revise for a gated one; never for pause or resume |
| `SpiralAccounts.ArtifactsAreOutputs` | src/talisman_core/workflow/spiral.py:125-130 | the artifacts are exactly the outputs, other than None, that handlers returned, in call order |
| `SpiralAccounts.AppendOnly` | src/talisman_core/workflow/spiral.py:118-138 | along a run, history, artifacts and completed phases only grow at the end, one event a step |
| `SpiralAccounts.ApprovalSafety` | src/talisman_core/workflow/spiral.py:187-200 | a gated phase is completed if and only if an APPROVE was consumed at exactly its gate, exactly once, and no step of a later phase precedes it |
| `SpiralAccounts.DecisionsMatchPendingGate` | src/talisman_core/workflow/spiral.py:188-194 | a decision is recorded for a phase only in a step taken while exactly that phase's gate was pending |
| `SpiralAccounts.StepCount` | src/talisman_core/workflow/spiral.py:141-171 | the exact number of committed steps of every reachable state, from its completed phases, revises, pauses, rejection and open gate |
| `SpiralAccounts.FinishedStepCount` | src/talisman_core/workflow/spiral.py:187-207 | a finished run without reject has completed all distinct phases in exactly U + 2G + 2R + P steps |
| `SpiralAccounts.RejectIsFinal` | src/talisman_core/workflow/spiral.py:81-82 | a REJECT is the end of a run: it is in the history exactly when the last decision is REJECT, and no step follows |
| `SpiralAccounts.OutcomeIsNotRejected` | src/talisman_core/app/project_run.py:74-76 | on a finished run the retrospective's outcome is "completed" if and only if the run was not rejected |
| `SpiralReference.Refinement` | src/talisman_core/workflow/spiral.py:187-207 | for every graph, job and decision list the machine ends in exactly the checkpoint and history of the recursive interpreter over the distinct phases |
| `SpiralRequests.RequestSequence` | src/talisman_core/app/composition.py:126-137 | the answered requests are the gated phases in distinct order, each once plus its revises and pauses, none after the gate that is next |
| `SpiralRequests.AnswersWereGiven` | src/talisman_core/app/composition.py:126-137 | the driver records only decisions it was given, and all of them unless the run is finished |
| `SpiralRequests.ApproveOnlyRun` | src/talisman_core/app/composition.py:126-137 | an approve-only approver sees exactly the gates of the sequence filtered by the gate phases, once each in order, and the run completes every phase |
| `SpiralRequests.AskedAtMostOnce` | src/talisman_core/adapters/telegram/approver.py:77-79 | when only APPROVE and REJECT can be answered, each gate is asked about at most once |
| `Composition.TalismanApp.Invoke` | src/talisman_core/app/composition.py:126-136 | one invocation leaves the settled state in the checkpoint and reports the interrupt it stopped at, if any |
| `Composition.TalismanApp.RunProject` | src/talisman_core/app/composition.py:65-97 | a run without gates completes exactly the distinct phases of the sequence |
| `Composition.TalismanApp.RunGatedProject` | src/talisman_core/app/composition.py:99-144 | the loop computes the driver function on the approver's answers, and makes exactly one request per interrupt, each with its full content |
| `Composition.RequestsInPhaseOrder` | src/talisman_core/app/composition.py:127-135 | the gate ids of the requests come in the order of the distinct phases |
| `Composition.RequestedOnce` | src/talisman_core/app/composition.py:126-137 | when only APPROVE and REJECT can be answered, no two requests, the open one included, are for the same gate |
| `Composition.CompletedIffApproved` | src/talisman_core/app/composition.py:126-137 | a gated phase is completed if and only if one of the requests made for it was answered with APPROVE |
| `Portfolio.BestIndex` | src/talisman_core/scheduler/portfolio.py:137-140 | the chosen index has the highest priority, and every earlier one a lower priority |
| `PortfolioHistory.AcceptKeeps` | src/talisman_core/scheduler/portfolio.py:106-127 | enqueueing keeps the agreement of all fields with the log |
| `PortfolioHistory.StartKeeps` | src/talisman_core/scheduler/portfolio.py:129-150 | starting keeps it, caches included |
| `PortfolioHistory.MarkKeeps` | src/talisman_core/scheduler/portfolio.py:156-175 | marking a queued or active task keeps it |
| `PortfolioHistory.AgeKeeps` | src/talisman_core/scheduler/portfolio.py:177-212 | aging keeps it |
| `PortfolioHistory.RunAgrees` | src/talisman_core/scheduler/portfolio.py:63-212 | after any sequence of calls, refused and ineffective ones included, every field of every queued and active task, and the caches, are those the log determines |
| `PortfolioTheorems.CapAndConservation` | src/talisman_core/scheduler/portfolio.py:106-154 | the cap holds; ids are unique; slots are held under their own ids; accepted ids are, as a multiset, the waiting, active and completed ones; the queue is in order of acceptance |
| `PortfolioTheorems.AgingIsPathIndependent` | src/talisman_core/scheduler/portfolio.py:192-212 | a queued task's priority is its priority at acceptance plus its promotions, which are zero or the most thresholds crossed at any of the times in the set of times at which aging calls did not skip it |
| `PortfolioTheorems.SameTimesSamePriority` | src/talisman_core/scheduler/portfolio.py:192-212 | in two runs, tasks accepted alike and aged at the same set of times, in any order and however often, have the same priority |
| `PortfolioTheorems.OnlyLatestAgingMatters` | src/talisman_core/scheduler/portfolio.py:264-270 | the promotions are the thresholds crossed at the latest of those times |
| `Portfolio.AgingWindowsCrossed` | src/talisman_core/scheduler/portfolio.py:264-270 | the window count w is zero up to and including one threshold of waiting, and after that the one number with w thresholds, but not w + 1, in the wait |
| `PortfolioTheorems.ReasonsAgree` | src/talisman_core/scheduler/portfolio.py:115-210 | after any calls, the wait reason of each queued and active task is that of the latest call about it: acceptance and mark by their flag, aging by whether it skipped the task |
| `PortfolioTheorems.ReturnedLevelsConserved` | src/talisman_core/scheduler/portfolio.py:190-212 | the counts returned by all aging calls add up to the promotions of all tasks queued or ever started |
| `PortfolioTheorems.LevelsAreDuePromotions` | src/talisman_core/scheduler/portfolio.py:197-210 | aging never lowers a priority, and adds in priorities exactly what it adds in promotions |
| `PortfolioTheorems.MetricsAgreeWithHistory` | src/talisman_core/scheduler/portfolio.py:214-262 | after any calls the metrics read from the caches are those recomputed from all records of starts and the queue, for exactly the projects ever started or queued |
| `PortfolioTheorems.RecordedWaitsAreTrue` | src/talisman_core/scheduler/portfolio.py:142-145 | after any calls, each start record is what the log before it says of the task: project, priority, promotions, flag and reason, and as wait the time from the latest acceptance to the start, or zero if the clock went back |
| `PortfolioTheorems.StartingConservesWaits` | src/talisman_core/scheduler/portfolio.py:129-150 | at the starting instant the task's project keeps total and longest wait, one task moves from queued to started, and no other project's metrics change |
| `PortfolioOvertaking.BoundedOvertaking` | src/talisman_core/scheduler/portfolio.py:264-270 | a task accepted at least k thresholds later with at most k priority levels more is not started before the earlier one, if aging has not skipped the earlier one and, unless k is zero, has run once since (strictly later than the acceptance only for k = 1 and a gap of exactly one threshold) |
| `PortfolioOvertaking.NeverOvertaken` | src/talisman_core/scheduler/portfolio.py:129-140 | the same for the task started after any sequence of calls |
| `PortfolioOvertaking.OvertakingIsExact` | src/talisman_core/scheduler/portfolio.py:264-270 | the bound is exact: k levels can overtake a gap if and only if it is shorter than k thresholds, or k is one, it is exactly one threshold and no aging later than the younger task's acceptance is asked for |
| `PortfolioDrain.DrainIsStableSort` | src/talisman_core/scheduler/portfolio.py:137-141 | the order in which the queue is drained is descending and keeps each priority's order |
| `PortfolioDrain.StableSortIsUnique` | src/talisman_core/scheduler/portfolio.py:137-141 | there is only one such order |
| `PortfolioDrain.DrainRecordsInOrder` | src/talisman_core/scheduler/portfolio.py:129-154 | starting and completing in turn returns the records of exactly that order, whatever the clock shows |
| `Scheduler.PortfolioScheduler.Create` | src/talisman_core/scheduler/portfolio.py:66-86 | settings out of range are refused with their error, others give an empty valid scheduler |
| `Scheduler.PortfolioScheduler.IsScheduled` | src/talisman_core/scheduler/portfolio.py:102-104 | true exactly for ids queued or active |
| `Scheduler.PortfolioScheduler.Enqueue` | src/talisman_core/scheduler/portfolio.py:106-127 | a scheduled id is refused and nothing changes; otherwise the reset record is appended; fields and log stay in agreement |
| `Scheduler.PortfolioScheduler.SelectIndex` | src/talisman_core/scheduler/portfolio.py:137-140 | the loop finds the best index |
| `Scheduler.PortfolioScheduler.StartNext` | src/talisman_core/scheduler/portfolio.py:129-150 | nothing is started exactly when the cap is reached or the queue is empty; otherwise the best task moves to a slot, and its record has this start time and is what the log says of the task |
| `Scheduler.PortfolioScheduler.Complete` | src/talisman_core/scheduler/portfolio.py:152-154 | the slot is freed; no effect when the id is not active |
| `Scheduler.PortfolioScheduler.MarkBlockedOnUserApproval` | src/talisman_core/scheduler/portfolio.py:156-175 | the one task of that id is marked, queued or active; an unknown id is refused and nothing changes |
| `Scheduler.PortfolioScheduler.ApplyAging` | src/talisman_core/scheduler/portfolio.py:177-212 | the loop notes skipped tasks as blocked, gives every other queued task the promotions for the thresholds crossed that it has not had, one level each, and returns exactly the priority levels added |
| `Scheduler.PortfolioScheduler.WaitMetricsByProject` | src/talisman_core/scheduler/portfolio.py:214-250 | the two loops return the metrics recomputed from the whole history; no cache lookup fails |
| `PromptBuilder.BuildPhasePrompt` | src/talisman_core/policies/phase_prompts.py:77-128 | a name that is no phase's is refused; otherwise the prompt is the text of PromptReads, and with context its last fences enclose exactly the neutralised context |
| `PromptBuilder.PromptReads` | src/talisman_core/policies/phase_prompts.py:95-128 | the whole prompt, top to bottom: phase, goal, task; with context the notice and the fenced block; the general constraint last, followed for the implementation phase, and no other, by its own |
| `PhasePrompts.TasksBegin` | src/talisman_core/policies/phase_prompts.py:26-50 | each phase is given its own task |
| `PhasePrompts.KnownPhasesAreSpiralPhases` | src/talisman_core/policies/phase_prompts.py:72-74 | the names with a task are exactly the phases of the spiral, each with its own task |
| `PhasePrompts.CountAcrossBreak` | src/talisman_core/policies/phase_prompts.py:128 | a text without a line break occurs in joined lines exactly as often as in the lines |
| `PromptFences.NoFenceTail` | src/talisman_core/policies/phase_prompts.py:131-133 | a neutralised text has no run of five equals signs after "T ", as both fences do |
| `PromptFences.NeutralisedHasNoFence` | src/talisman_core/policies/phase_prompts.py:131-133 | left-to-right replacement leaves neither fence in the text |
| `PromptMarkers.UnmarkedStays` | src/talisman_core/policies/phase_prompts.py:131-133 | a text without a marker is left as it is |
| `PromptMarkers.FirstMarkerReplaced` | src/talisman_core/policies/phase_prompts.py:131-133 | the first marker from the left becomes "= = =", what is before it stays, and the rest is searched on from behind it |
| `PromptMarkers.MarkerSurvivesExactly` | src/talisman_core/policies/phase_prompts.py:131-133 | for every text: a fence marker survives neutralising if and only if the text has a run of equals signs, with none on either side, of length 9, 14, 19 and so on |
| `PromptMarkers.NineEqualsLeaveMarker` | src/talisman_core/policies/phase_prompts.py:131-133 | an input that leaves a marker: nine equals signs become "= = =====" |
| `PromptFences.FencesCounted` | src/talisman_core/policies/phase_prompts.py:95-128 | for every goal, each fence occurs in the prompt as often as in the goal, plus once if there is context |
| `PromptFences.FenceRoundTrip` | src/talisman_core/policies/phase_prompts.py:105-115 | for a goal free of the fences, each occurs exactly once and cutting between them gives exactly the neutralised context |
| `PromptFences.LastFencesRoundTrip` | src/talisman_core/policies/phase_prompts.py:105-128 | for every goal, cutting between the last fences gives exactly the neutralised context, and what follows depends on the phase alone |
| `PromptBudget.ContextWithinBudget` | src/talisman_core/policies/phase_prompts.py:136-145 | the fenced text is never longer than the budget and, before neutralising, a prefix of the newest-first join |
| `PromptBudget.JoinPlaces` | src/talisman_core/policies/phase_prompts.py:144-145 | in a join every part stands whole where the parts and separators before it end, followed by a separator unless it is the last |
| `PromptBudget.NewestWholeWhenTheyFit` | src/talisman_core/policies/phase_prompts.py:136-145 | the m newest artifacts stand whole at the beginning whenever their lengths and separators fit; all of them are the context when all fit |
| `PromptBudget.NewestFirst` | src/talisman_core/policies/phase_prompts.py:136-145 | the newest artifact stands whole at the beginning of the context whenever it fits the budget |
| `ApprovalWords.DecidesExactlyCommands` | src/talisman_core/adapters/telegram/approver.py:26-33 | a reply decides if and only if it is blanks, slashes, blanks, the word with each letter small or capital, blanks |
| `ApprovalWords.SpaceIsListed` | src/talisman_core/adapters/telegram/approver.py:28 | the blanks are exactly the characters stripped, one by one |
| `TelegramApproval.FetchedIsFilter` | src/talisman_core/adapters/telegram/approver.py:69-71 | a fetch returns exactly the arrived messages at or above the offset |
| `TelegramApproval.TelegramApprover.DrainPendingUpdates` | src/talisman_core/adapters/telegram/approver.py:82-88 | draining ends with a fetch at the new offset that found nothing: the offset is past every arrived message and before every other |
| `TelegramApproval.TelegramApprover.RequestApproval` | src/talisman_core/adapters/telegram/approver.py:56-80 | the gate is posted once, right after a fetch of this call that was made at the drained cursor and found nothing; the decision is that of the lowest-id message past that cursor that is in the operator's chat, allowlisted and a decision; without a decision all allowed fetches were made and none of the arrived messages decides |
| `TelegramApproval.RunOverTelegram` | src/talisman_core/app/composition.py:126-137 | a gated run over this approver posts exactly the requests of the run, no gate twice, each after its own draining; each answer is that of the first fresh deciding message, later gates are drained past it, so none decides two gates; a gated phase is completed exactly if its own request was approved by such a message; a run that stops early waited in vain for one |

## Left out

- LangGraph and its checkpointers: only commit, route, interrupt and resume are modelled. The router of a sequence
  with a phase outside the nine fails inside the library, so phases are an enumeration.
- Handlers that raise, and the incident dump: an exception leaves the driver, and no state follows it.
- Sending and decoding decision values: the enumeration stands for its strings.
- RunGatedProject, RunOverTelegram: an approver that never answers blocks the program; the methods return `None`
  then, with the checkpoint to resume from.
- TelegramApproval.TelegramApprover.RequestApproval: polls a given number of times, because nothing guarantees that a valid
  reply ever arrives; what it promises holds for every number.
- Messages are seen to arrive when a fetch finds them. The stream holds text messages only; fetch size limits, long
  polling and sleeping are not modelled. Fresh is what is past the drained offset, so a message between the last
  empty fetch and the posted gate counts as fresh.
- ApprovalWords.LowerChar: lowers ASCII letters only; no other character lowers to a letter of the two words.
- Waits are exact integers; rounding of floating-point seconds is not modelled.
- PhasePrompts.Count: counts overlapping positions, which bounds the count of non-overlapping ones and agrees with
  it at zero and one.
- The SQLite adapters, workers, containers, egress, gateway client, release and unit files, health and logging.
- Tier policy, lessons and the text of the retrospective beyond its outcome test.
