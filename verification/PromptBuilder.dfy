/** The builder of a phase's prompt, and what it promises whatever the goal and the artifacts say. */
module PromptBuilder {
  import opened Common
  import opened Spiral
  import opened PhasePrompts
  import opened PromptFences

  // ---------------------------------------------------------------- what a prompt reads, top to bottom

  ghost function HeadReads(p: Phase, goal: string): string {
    "# TalisMan phase: " + PhaseName(p) + "\n" + "\n"
    + "## Project goal" + "\n" + goal + "\n" + "\n"
    + "## Your task" + "\n" + Text(TaskOf(p)) + "\n"
  }

  ghost function ContextReads(context: string): string {
    if context == "" then ""
    else
      "\n" + Text(UNTRUSTED_HEADING) + "\n" + Text(UNTRUSTED_NOTICE) + "\n" + Text(DO_NOT_OBEY) + "\n"
      + "===== BEGIN UNTRUSTED CONTEXT =====" + "\n" + NeutraliseFences(context) + "\n"
      + "===== END UNTRUSTED CONTEXT =====" + "\n"
  }

  /** The last word: the general constraint, and for the implementation phase, and no other, its own. */
  ghost function FootReads(p: Phase): string {
    "\n" + Text(CONSTRAINTS_HEADING) + "\n" + Text(GENERAL_CONSTRAINT) + "\n"
    + if p == Implementation then Text(IMPLEMENTATION_CONSTRAINT) + "\n" else ""
  }

  lemma ConcatCons(line: string, lines: seq<string>)
    ensures ConcatLines([line] + lines) == line + "\n" + ConcatLines(lines)
  {
    assert ([line] + lines)[1..] == lines;
  }

  lemma ConcatThree(a: string, b: string, c: string)
    ensures ConcatLines([a, b, c]) == a + "\n" + b + "\n" + c + "\n"
  {
    ConcatCons(a, [b, c]);
    assert [a] + [b, c] == [a, b, c];
    ConcatLinesPair(b, c);
  }

  lemma ConcatFour(a: string, b: string, c: string, d: string)
    ensures ConcatLines([a, b, c, d]) == a + "\n" + b + "\n" + c + "\n" + d + "\n"
  {
    ConcatCons(a, [b, c, d]);
    assert [a] + [b, c, d] == [a, b, c, d];
    ConcatThree(b, c, d);
  }

  lemma ConcatSeven(a: string, b: string, c: string, d: string, e: string, f: string, g: string)
    ensures ConcatLines([a, b, c, d, e, f, g]) ==
            a + "\n" + b + "\n" + c + "\n" + d + "\n" + e + "\n" + f + "\n" + g + "\n"
  {
    ConcatLinesAppend([a, b, c, d], [e, f, g]);
    assert [a, b, c, d] + [e, f, g] == [a, b, c, d, e, f, g];
    ConcatFour(a, b, c, d);
    ConcatThree(e, f, g);
  }

  lemma HeadText(p: Phase, goal: string)
    ensures ConcatLines(HeadLines(PhaseName(p), goal, Text(TaskOf(p)))) == HeadReads(p, goal)
  {
    hide PhaseName, TaskOf, Text, ConcatLines;
    ConcatSeven("# TalisMan phase: " + PhaseName(p), "", "## Project goal", goal, "", "## Your task", Text(TaskOf(p)));
    assert forall s: string :: s + "" == s;
  }

  lemma ContextText(context: string)
    ensures ConcatLines(ContextLines(context)) == ContextReads(context)
  {
    hide NeutraliseFences, Text, ConcatLines;
    if context != "" {
      SevenAfterBlank(Text(UNTRUSTED_HEADING), Text(UNTRUSTED_NOTICE), Text(DO_NOT_OBEY),
                      FENCE_OPEN, NeutraliseFences(context), FENCE_CLOSE);
    } else {
      NoLines();
    }
  }

  lemma NoLines()
    ensures ConcatLines([]) == ""
  {
  }

  lemma SevenAfterBlank(b: string, c: string, d: string, e: string, f: string, g: string)
    ensures ConcatLines(["", b, c, d, e, f, g]) ==
            "\n" + b + "\n" + c + "\n" + d + "\n" + e + "\n" + f + "\n" + g + "\n"
  {
    ConcatSeven("", b, c, d, e, f, g);
    hide ConcatLines;
    assert "" + "\n" == "\n";
  }

  lemma FootOfPhase(p: Phase)
    ensures FootLines(PhaseName(p)) ==
            ["", Text(CONSTRAINTS_HEADING), Text(GENERAL_CONSTRAINT)] +
            if p == Implementation then [Text(IMPLEMENTATION_CONSTRAINT)] else []
  {
    hide Text;
    if PhaseName(p) == PhaseName(Implementation) {
      PhaseNamesDiffer(p, Implementation);
    }
    assert PhaseName(Implementation) == "implementation";
  }

  lemma FootIsRead(p: Phase)
    ensures FootText(p) == FootReads(p)
  {
    FootOfPhase(p);
    hide PhaseName, Text, FootLines;
    var general, own := ["", Text(CONSTRAINTS_HEADING), Text(GENERAL_CONSTRAINT)], [Text(IMPLEMENTATION_CONSTRAINT)];
    ConcatThree("", Text(CONSTRAINTS_HEADING), Text(GENERAL_CONSTRAINT));
    ConcatLinesAppend(general, own);
    ConcatCons(Text(IMPLEMENTATION_CONSTRAINT), []);
    assert [Text(IMPLEMENTATION_CONSTRAINT)] + [] == own;
    assert general + [] == general;
  }

  /** The prompt of a phase of the spiral, whatever the goal and the artifacts, in full. */
  lemma PromptReads(p: Phase, goal: string, artifacts: seq<string>, budget: int)
    ensures Prompt(p, goal, artifacts, budget) ==
            HeadReads(p, goal) + ContextReads(BoundedContext(artifacts, budget)) + FootReads(p)
  {
    hide Prompt, HeadReads, ContextReads, FootReads, BoundedContext, HeadLines, ContextLines, FootLines;
    hide PhaseName, Text, TaskOf, ConcatLines;
    var head, foot := HeadLines(PhaseName(p), goal, Text(TaskOf(p))), FootLines(PhaseName(p));
    var block := ContextLines(BoundedContext(artifacts, budget));
    PromptIsConcatLines(p, goal, artifacts, budget);
    ConcatLinesAppend(head + block, foot);
    ConcatLinesAppend(head, block);
    HeadText(p, goal);
    ContextText(BoundedContext(artifacts, budget));
    FootIsRead(p);
  }

  // ---------------------------------------------------------------- the builder

  /**
   * The last opening and the last closing fence enclose exactly the neutralised context, and what follows is
   * the text of the phase's foot.
   */
  ghost predicate Fenced(prompt: string, p: Phase, context: string) {
    exists i: int, j: int ::
      CutsOut(prompt, FENCE_OPEN, FENCE_CLOSE, i, j, NeutraliseFences(context), FootText(p))
  }

  /** A built prompt: the text in full, and with context, the fences around it. */
  ghost predicate IsPrompt(prompt: string, p: Phase, goal: string, context: string) {
    && prompt == HeadReads(p, goal) + ContextReads(context) + FootReads(p)
    && (context != "" ==> Fenced(prompt, p, context))
  }

  lemma PromptIsFenced(p: Phase, goal: string, artifacts: seq<string>, budget: int)
    requires BoundedContext(artifacts, budget) != ""
    ensures KnownPhase(PhaseName(p))
    ensures Fenced(PromptText(PhaseName(p), goal, artifacts, budget), p, BoundedContext(artifacts, budget))
  {
    KnownPhasesAreSpiralPhases(PhaseName(p));
    hide PhaseName, BoundedContext, NeutraliseFences, FootText, CutsOut, PromptText;
    var i, j := LastFencesRoundTrip(p, goal, artifacts, budget);
  }

  lemma NamedPrompt(phase: string, p: Phase, goal: string, artifacts: seq<string>, budget: int)
    requires PhaseName(p) == phase
    ensures KnownPhase(phase)
    ensures IsPrompt(PromptText(phase, goal, artifacts, budget), p, goal, BoundedContext(artifacts, budget))
  {
    KnownPhasesAreSpiralPhases(phase);
    PromptReads(p, goal, artifacts, budget);
    hide PhaseName, BoundedContext, PromptText, Fenced, KnownPhase, HeadReads, ContextReads, FootReads;
    if BoundedContext(artifacts, budget) != "" {
      PromptIsFenced(p, goal, artifacts, budget);
    }
  }

  lemma PromptsOfNames(phase: string, goal: string, artifacts: seq<string>, budget: int)
    ensures KnownPhase(phase) <==> exists p :: PhaseName(p) == phase
    ensures forall p :: PhaseName(p) == phase ==>
              IsPrompt(PromptText(phase, goal, artifacts, budget), p, goal, BoundedContext(artifacts, budget))
  {
    KnownPhasesAreSpiralPhases(phase);
    hide PhaseName, BoundedContext, PromptText, IsPrompt, KnownPhase;
    forall p | PhaseName(p) == phase
      ensures IsPrompt(PromptText(phase, goal, artifacts, budget), p, goal, BoundedContext(artifacts, budget))
    {
      NamedPrompt(phase, p, goal, artifacts, budget);
    }
  }

  method BuildPhasePrompt(phase: string, goal: string, artifacts: seq<string>, budget: int := DEFAULT_CONTEXT_BUDGET)
    returns (r: Result<string, PromptError>)
    ensures r == if KnownPhase(phase) then Success(PromptText(phase, goal, artifacts, budget))
                 else Failure(NoPromptTask(phase))
    ensures (forall p :: PhaseName(p) != phase) ==> r == Failure(NoPromptTask(phase))
    ensures forall p :: PhaseName(p) == phase ==>
              r.Success? && IsPrompt(r.value, p, goal, BoundedContext(artifacts, budget))
  {
    PromptsOfNames(phase, goal, artifacts, budget);
    hide TaskFor, ConstraintFor, BoundedContext, Join, HeadLines, BlockLines, ConstraintLines, PhaseName, IsPrompt;
    var task := TaskFor(phase);
    if task.None? {
      return Failure(NoPromptTask(phase));
    }
    var lines := HeadLines(phase, goal, task.value);
    var context := BoundedContext(artifacts, budget);
    if context != "" {
      lines := lines + BlockLines(context);
    }
    lines := lines + ConstraintLines();
    var constraint := ConstraintFor(phase);
    if constraint.Some? {
      lines := lines + [constraint.value];
    }
    assert lines == PromptLines(phase, task.value, goal, context);
    r := Success(Join(lines, "\n") + "\n");
  }
}
