/** The fences of a prompt: how many there are, and that cutting between them gives the context back. */
module PromptFences {
  import opened Spiral
  import opened PhasePrompts

  // ---------------------------------------------------------------- what neutralising leaves behind

  const FENCE_TAIL := "T ====="

  /** A fence, opening or closing. */
  predicate IsFence(f: string) {
    f == FENCE_OPEN || f == FENCE_CLOSE
  }

  /**
   * Equals signs at the start of a neutralised text are those of the original text; if there are two or more,
   * the original does not start with a marker.
   */
  lemma {:induction false} EqualsAreOriginal(text: string, k: nat)
    requires 1 <= k <= 5 && k <= |text| && NeutraliseFences(text)[..k] == FENCE_MARKER[..k]
    ensures text[..k] == FENCE_MARKER[..k]
    ensures k >= 2 ==> |text| < 5 || text[..5] != FENCE_MARKER
  {
    var r := NeutraliseFences(text);
    if |text| >= 5 {
      assert r[0] == FENCE_MARKER[..k][0];
      assert k >= 2 ==> r[1] == FENCE_MARKER[..k][1];
      if text[..5] == FENCE_MARKER {
        assert k == 1;
        assert text[0] == text[..5][0];
      } else if k >= 2 {
        var rest := NeutraliseFences(text[1..]);
        assert r == [text[0]] + rest;
        assert rest[..k - 1] == r[1..k] == FENCE_MARKER[1..k] == FENCE_MARKER[..k - 1];
        EqualsAreOriginal(text[1..], k - 1);
        assert text[..k] == [text[0]] + text[1..][..k - 1];
      }
    }
  }

  /** A neutralised text may contain a marker (see PromptMarkers), but never starts with one. */
  lemma NeverStartsWithMarker(text: string)
    ensures !IsAt(NeutraliseFences(text), FENCE_MARKER, 0)
  {
    if IsAt(NeutraliseFences(text), FENCE_MARKER, 0) {
      EqualsAreOriginal(text, 5);
    }
  }

  /** Past the end of `a`, occurrences in `a + b` are those in `b`. */
  lemma IsAtShift(a: string, b: string, needle: string, i: int)
    ensures i >= |a| ==> (IsAt(a + b, needle, i) <==> IsAt(b, needle, i - |a|))
  {
    if i >= |a| && i + |needle| <= |a + b| {
      assert (a + b)[i..i + |needle|] == b[i - |a|..i - |a| + |needle|];
    }
  }

  lemma TailAtStart(c: char, rest: string)
    ensures IsAt([c] + rest, FENCE_TAIL, 0) ==> |rest| >= 6 && rest[0] == ' ' && IsAt(rest, FENCE_MARKER, 1)
  {
    var r := [c] + rest;
    CharactersAgree(r, FENCE_TAIL, 0);
    if IsAt(r, FENCE_TAIL, 0) {
      assert rest[0] == r[0 + 1];
      assert rest[1..1 + 5] == r[..7][2..] == FENCE_TAIL[2..];
    }
  }

  lemma NoSpaceThenMarker(text: string)
    ensures |text| >= 6 && NeutraliseFences(text)[0] == ' ' ==> !IsAt(NeutraliseFences(text), FENCE_MARKER, 1)
  {
    if |text| >= 6 {
      if text[..5] == FENCE_MARKER {
        assert NeutraliseFences(text)[0] == DEFANGED[0];
      } else {
        IsAtShift([text[0]], NeutraliseFences(text[1..]), FENCE_MARKER, 1);
        NeverStartsWithMarker(text[1..]);
      }
    }
  }

  /** Nor does it contain one after a "T" and a space, as both fences do. */
  lemma {:induction false} NoFenceTail(text: string, i: int)
    ensures !IsAt(NeutraliseFences(text), FENCE_TAIL, i)
  {
    var r := NeutraliseFences(text);
    CharactersAgree(r, FENCE_TAIL, i);
    if |text| >= 5 {
      if text[..5] == FENCE_MARKER {
        NoFenceTail(text[5..], i - 5);
        IsAtShift(DEFANGED, NeutraliseFences(text[5..]), FENCE_TAIL, i);
        assert 0 <= i < 5 ==> r[i + 0] == DEFANGED[i];
        assert FENCE_TAIL[0] == 'T';
      } else {
        NoFenceTail(text[1..], i - 1);
        IsAtShift([text[0]], NeutraliseFences(text[1..]), FENCE_TAIL, i);
        TailAtStart(text[0], NeutraliseFences(text[1..]));
        NoSpaceThenMarker(text[1..]);
      }
    }
  }

  /** No fence survives neutralising. */
  lemma NeutralisedHasNoFence(text: string, f: string)
    requires IsFence(f)
    ensures Count(NeutraliseFences(text), f) == 0
  {
    var r := NeutraliseFences(text);
    var offset := |f| - 7;
    assert f[offset..] == FENCE_TAIL;
    forall i
      ensures !IsAt(r, f, i)
    {
      if IsAt(r, f, i) {
        assert r[i + offset..i + offset + 7] == r[i..i + |f|][offset..];
        assert IsAt(r, FENCE_TAIL, i + offset);
        NoFenceTail(text, i + offset);
      }
    }
    CountZero(r, f);
  }

  // ---------------------------------------------------------------- counting by lines

  function ConcatLines(lines: seq<string>): string {
    if lines == [] then "" else lines[0] + "\n" + ConcatLines(lines[1..])
  }

  function TotalCount(lines: seq<string>, needle: string): nat {
    if lines == [] then 0 else Count(lines[0], needle) + TotalCount(lines[1..], needle)
  }

  lemma {:induction false} JoinIsConcatLines(lines: seq<string>)
    requires lines != []
    ensures Join(lines, "\n") + "\n" == ConcatLines(lines)
  {
    if |lines| > 1 {
      JoinIsConcatLines(lines[1..]);
    } else {
      assert ConcatLines(lines[1..]) == "";
    }
  }

  lemma {:induction false} ConcatLinesAppend(a: seq<string>, b: seq<string>)
    ensures ConcatLines(a + b) == ConcatLines(a) + ConcatLines(b)
  {
    if a == [] {
      assert a + b == b;
    } else {
      assert (a + b)[1..] == a[1..] + b;
      ConcatLinesAppend(a[1..], b);
    }
  }

  lemma {:induction false} TotalCountAppend(a: seq<string>, b: seq<string>, needle: string)
    ensures TotalCount(a + b, needle) == TotalCount(a, needle) + TotalCount(b, needle)
  {
    if a == [] {
      assert a + b == b;
    } else {
      assert (a + b)[1..] == a[1..] + b;
      TotalCountAppend(a[1..], b, needle);
    }
  }

  lemma {:induction false} CountByLines(lines: seq<string>, needle: string)
    requires needle != "" && '\n' !in needle
    ensures Count(ConcatLines(lines), needle) == TotalCount(lines, needle)
  {
    if lines != [] {
      CountByLines(lines[1..], needle);
      CountAcrossBreak(lines[0], ConcatLines(lines[1..]), needle);
    }
  }

  /** Lines that hold no equals sign at all. */
  ghost predicate Plain(lines: seq<string>) {
    forall i :: 0 <= i < |lines| ==> '=' !in lines[i]
  }

  /** Like a fence: starting with an equals sign, and within a line. */
  ghost predicate Marking(f: string) {
    f != "" && f[0] == '=' && '\n' !in f
  }

  lemma FencesAreMarking()
    ensures Marking(FENCE_OPEN) && Marking(FENCE_CLOSE)
  {
  }

  lemma NoEqualsNoFence(line: string, f: string)
    requires '=' !in line && Marking(f)
    ensures Count(line, f) == 0
  {
    assert forall k :: 0 <= k < |line| ==> line[k] != '=';
    forall i
      ensures !IsAt(line, f, i)
    {
      CharactersAgree(line, f, i);
    }
    CountZero(line, f);
  }

  lemma {:induction false} PlainHasNoFence(lines: seq<string>, f: string)
    requires Plain(lines) && Marking(f)
    ensures TotalCount(lines, f) == 0
  {
    if lines != [] {
      NoEqualsNoFence(lines[0], f);
      PlainHasNoFence(lines[1..], f);
    }
  }

  lemma {:induction false} ShorterHasNone(s: string, needle: string)
    requires |s| < |needle|
    ensures Count(s, needle) == 0
  {
    if s != [] {
      ShorterHasNone(s[1..], needle);
    }
  }

  lemma NoClosingInOpening()
    ensures Count(FENCE_OPEN, FENCE_CLOSE) == 0
  {
    assert FENCE_OPEN[5] == ' ' && FENCE_OPEN[6] == 'B';
    assert FENCE_CLOSE[3] == '=' && FENCE_CLOSE[4] == '=' && FENCE_CLOSE[6] == 'E';
    forall i
      ensures !IsAt(FENCE_OPEN, FENCE_CLOSE, i)
    {
      CharactersAgree(FENCE_OPEN, FENCE_CLOSE, i);
    }
    CountZero(FENCE_OPEN, FENCE_CLOSE);
  }

  lemma {:induction false} CountItself(f: string)
    requires f != ""
    ensures Count(f, f) == 1 && Count(f[1..], f) == 0
  {
    ShorterHasNone(f[1..], f);
    assert f[0..0 + |f|] == f;
  }

  /** The opening fence occurs once in itself and not in the closing one. */
  lemma OpeningInFences()
    ensures Count(FENCE_OPEN, FENCE_OPEN) == 1 && Count(FENCE_CLOSE, FENCE_OPEN) == 0
  {
    CountItself(FENCE_OPEN);
    ShorterHasNone(FENCE_CLOSE, FENCE_OPEN);
  }

  /** The closing fence occurs once in itself and not in the opening one. */
  lemma ClosingInFences()
    ensures Count(FENCE_OPEN, FENCE_CLOSE) == 0 && Count(FENCE_CLOSE, FENCE_CLOSE) == 1
  {
    CountItself(FENCE_CLOSE);
    NoClosingInOpening();
  }

  lemma {:induction false} PlainText(pieces: seq<string>)
    requires Plain(pieces)
    ensures '=' !in Text(pieces)
  {
    if pieces != [] {
      PlainText(pieces[1..]);
    }
  }

  lemma PlainInterview() ensures Plain(TaskOf(Interview)) {}
  lemma PlainDiscovery() ensures Plain(TaskOf(Discovery)) {}
  lemma PlainSynthesis() ensures Plain(TaskOf(Synthesis)) {}
  lemma PlainPlan() ensures Plain(TaskOf(Plan)) {}
  lemma PlainRedTeam() ensures Plain(TaskOf(RedTeam)) {}
  lemma PlainSliceApproval() ensures Plain(TaskOf(SliceApproval)) {}
  lemma PlainImplementation() ensures Plain(TaskOf(Implementation)) {}
  lemma PlainReview() ensures Plain(TaskOf(Review)) {}
  lemma PlainRetro() ensures Plain(TaskOf(Retro)) {}

  lemma PlainTask(p: Phase)
    ensures '=' !in Text(TaskOf(p))
  {
    hide TaskOf;
    match p {
      case Interview => PlainInterview();
      case Discovery => PlainDiscovery();
      case Synthesis => PlainSynthesis();
      case Plan => PlainPlan();
      case RedTeam => PlainRedTeam();
      case SliceApproval => PlainSliceApproval();
      case Implementation => PlainImplementation();
      case Review => PlainReview();
      case Retro => PlainRetro();
    }
    PlainText(TaskOf(p));
  }

  lemma PlainName(p: Phase)
    ensures '=' !in PhaseName(p)
  {
  }

  lemma PlainConstraintsHeading()
    ensures '=' !in Text(CONSTRAINTS_HEADING)
  {
    hide Text;
    assert Plain(CONSTRAINTS_HEADING);
    PlainText(CONSTRAINTS_HEADING);
  }

  lemma PlainGeneralConstraint()
    ensures '=' !in Text(GENERAL_CONSTRAINT)
  {
    hide Text;
    assert Plain(GENERAL_CONSTRAINT);
    PlainText(GENERAL_CONSTRAINT);
  }

  lemma PlainImplementationConstraint()
    ensures '=' !in Text(IMPLEMENTATION_CONSTRAINT)
  {
    hide Text;
    assert Plain(IMPLEMENTATION_CONSTRAINT);
    PlainText(IMPLEMENTATION_CONSTRAINT);
  }

  lemma PlainUntrustedHeading()
    ensures '=' !in Text(UNTRUSTED_HEADING)
  {
    hide Text;
    assert Plain(UNTRUSTED_HEADING);
    PlainText(UNTRUSTED_HEADING);
  }

  lemma PlainUntrustedNotice()
    ensures '=' !in Text(UNTRUSTED_NOTICE)
  {
    hide Text;
    assert Plain(UNTRUSTED_NOTICE);
    PlainText(UNTRUSTED_NOTICE);
  }

  lemma PlainDoNotObey()
    ensures '=' !in Text(DO_NOT_OBEY)
  {
    hide Text;
    assert Plain(DO_NOT_OBEY);
    PlainText(DO_NOT_OBEY);
  }

  // ---------------------------------------------------------------- the prompt, line by line

  lemma CountAround(pre: seq<string>, line: string, post: seq<string>, f: string)
    requires Plain(pre) && Plain(post) && Marking(f)
    ensures TotalCount(pre + [line] + post, f) == Count(line, f)
  {
    PlainHasNoFence(pre, f);
    PlainHasNoFence(post, f);
    TotalCountAppend(pre + [line], post, f);
    TotalCountAppend(pre, [line], f);
    assert TotalCount([line], f) == Count(line, f) + TotalCount([], f);
  }

  /** The lines of the head hold a fence exactly as often as the goal does. */
  lemma HeadCount(p: Phase, goal: string, f: string)
    requires Marking(f)
    ensures TotalCount(HeadLines(PhaseName(p), goal, Text(TaskOf(p))), f) == Count(goal, f)
  {
    hide TaskOf, PhaseName, Text, Count, TotalCount, Marking;
    var pre := ["# TalisMan phase: " + PhaseName(p), "", "## Project goal"];
    var post := ["", "## Your task", Text(TaskOf(p))];
    PlainName(p);
    PlainTask(p);
    CountAround(pre, goal, post, f);
    assert HeadLines(PhaseName(p), goal, Text(TaskOf(p))) == pre + [goal] + post;
  }

  lemma FootCount(phase: string, f: string)
    requires Marking(f)
    ensures TotalCount(FootLines(phase), f) == 0
  {
    PlainConstraintsHeading();
    PlainGeneralConstraint();
    PlainImplementationConstraint();
    hide Text, TotalCount, Marking;
    PlainHasNoFence(FootLines(phase), f);
  }

  /** The lines before the opening fence. */
  function NoticeLines(): seq<string> {
    ["", Text(UNTRUSTED_HEADING), Text(UNTRUSTED_NOTICE), Text(DO_NOT_OBEY)]
  }

  lemma PlainNoticeLines()
    ensures Plain(NoticeLines())
  {
    PlainUntrustedHeading();
    PlainUntrustedNotice();
    PlainDoNotObey();
    hide Text;
  }

  lemma BlockCount(notice: seq<string>, a: string, inner: string, b: string, f: string)
    requires Plain(notice) && Marking(f) && Count(inner, f) == 0
    ensures TotalCount(notice + [a, inner, b], f) == Count(a, f) + Count(b, f)
  {
    PlainHasNoFence(notice, f);
    TotalCountAppend(notice, [a, inner, b], f);
    assert [a, inner, b][1..] == [inner, b] && [inner, b][1..] == [b] && [b][1..] == [];
    assert TotalCount([b], f) == Count(b, f) + TotalCount([], f);
    assert TotalCount([inner, b], f) == Count(inner, f) + TotalCount([b], f);
    assert TotalCount([a, inner, b], f) == Count(a, f) + TotalCount([inner, b], f);
  }

  /** What stands between head and foot when there is context: the notice and the fenced block. */
  lemma ContextCount(context: string, f: string)
    requires Marking(f) && IsFence(f) && context != ""
    ensures TotalCount(ContextLines(context), f) == Count(FENCE_OPEN, f) + Count(FENCE_CLOSE, f)
  {
    hide Text, NeutraliseFences, Count, TotalCount, Marking, IsFence, Plain;
    PlainNoticeLines();
    NeutralisedHasNoFence(context, f);
    BlockCount(NoticeLines(), FENCE_OPEN, NeutraliseFences(context), FENCE_CLOSE, f);
    assert ContextLines(context) == NoticeLines() + [FENCE_OPEN, NeutraliseFences(context), FENCE_CLOSE];
  }

  // ---------------------------------------------------------------- theorems

  /** The prompt of a phase of the spiral. */
  function Prompt(p: Phase, goal: string, artifacts: seq<string>, budget: int): string {
    KnownPhasesAreSpiralPhases(PhaseName(p));
    PromptText(PhaseName(p), goal, artifacts, budget)
  }

  lemma PromptIsConcatLines(p: Phase, goal: string, artifacts: seq<string>, budget: int)
    ensures Prompt(p, goal, artifacts, budget) ==
            ConcatLines(HeadLines(PhaseName(p), goal, Text(TaskOf(p))) +
                        ContextLines(BoundedContext(artifacts, budget)) + FootLines(PhaseName(p)))
  {
    KnownPhasesAreSpiralPhases(PhaseName(p));
    hide PhaseName, TaskOf, Text, TaskFor, BoundedContext, ContextLines, FootLines;
    JoinIsConcatLines(PromptLines(PhaseName(p), Text(TaskOf(p)), goal, BoundedContext(artifacts, budget)));
  }

  /**
   * For every goal, artifacts and budget, each fence occurs in the prompt as often as it does in the goal,
   * plus once if there is context.
   */
  lemma FencesCounted(p: Phase, goal: string, artifacts: seq<string>, budget: int)
    ensures var prompt := Prompt(p, goal, artifacts, budget);
            var n := if BoundedContext(artifacts, budget) == "" then 0 else 1;
            && Count(prompt, FENCE_OPEN) == Count(goal, FENCE_OPEN) + n
            && Count(prompt, FENCE_CLOSE) == Count(goal, FENCE_CLOSE) + n
  {
    hide Prompt, Count, BoundedContext;
    FencesAreMarking();
    OpeningInFences();
    ClosingInFences();
    assert IsFence(FENCE_OPEN) && IsFence(FENCE_CLOSE);
    PromptCount(p, goal, artifacts, budget, FENCE_OPEN);
    PromptCount(p, goal, artifacts, budget, FENCE_CLOSE);
  }

  lemma PromptCount(p: Phase, goal: string, artifacts: seq<string>, budget: int, f: string)
    requires Marking(f) && IsFence(f)
    ensures Count(Prompt(p, goal, artifacts, budget), f) ==
            Count(goal, f) +
            if BoundedContext(artifacts, budget) == "" then 0 else Count(FENCE_OPEN, f) + Count(FENCE_CLOSE, f)
  {
    hide PhaseName, TaskOf, Text, TaskFor, BoundedContext, HeadLines, ContextLines, FootLines, Count, IsFence, Prompt;
    var context := BoundedContext(artifacts, budget);
    var head := HeadLines(PhaseName(p), goal, Text(TaskOf(p)));
    var block, foot := ContextLines(context), FootLines(PhaseName(p));
    PromptIsConcatLines(p, goal, artifacts, budget);
    HeadCount(p, goal, f);
    FootCount(PhaseName(p), f);
    CountByLines(head + block + foot, f);
    TotalCountAppend(head + block, foot, f);
    TotalCountAppend(head, block, f);
    if context == "" {
      NoContextLines();
    } else {
      ContextCount(context, f);
    }
  }

  lemma NoContextLines()
    ensures ContextLines("") == []
  {
  }

  /** The last position at which `f` occurs. */
  ghost predicate IsLast(s: string, f: string, i: int) {
    IsAt(s, f, i) && forall k :: k > i ==> !IsAt(s, f, k)
  }

  lemma NothingAfter(before: string, f: string, rest: string)
    requires Marking(f) && Count(rest, f) == 0
    ensures IsLast(before + f + "\n" + rest, f, |before|)
  {
    var s, tail := before + f + "\n" + rest, f[1..] + "\n" + rest;
    assert s[|before|..|before| + |f|] == f;
    ShorterHasNone(f[1..], f);
    CountAcrossBreak(f[1..], rest, f);
    CountZero(tail, f);
    assert s == (before + f[..1]) + tail;
    forall k | k > |before|
      ensures !IsAt(s, f, k)
    {
      IsAtShift(before + f[..1], tail, f, k);
    }
  }

  /** A line that is a fence, with no fence in the lines after it, is the last occurrence. */
  lemma LastLine(above: seq<string>, f: string, below: seq<string>)
    requires Marking(f) && TotalCount(below, f) == 0
    ensures ConcatLines(above + [f] + below) == ConcatLines(above) + f + "\n" + ConcatLines(below)
    ensures IsLast(ConcatLines(above + [f] + below), f, |ConcatLines(above)|)
  {
    ConcatLinesAppend(above + [f], below);
    ConcatLinesAppend(above, [f]);
    assert ConcatLines([f]) == f + "\n" + ConcatLines([]);
    assert ConcatLines(above + [f] + below) == ConcatLines(above) + f + "\n" + ConcatLines(below);
    CountByLines(below, f);
    NothingAfter(ConcatLines(above), f, ConcatLines(below));
  }

  /**
   * The last f in s is at i and the last g at j; cutting after the line of f and before the line of g gives
   * `inner`, and `after` is what follows the line of g.
   */
  ghost predicate CutsOut(s: string, f: string, g: string, i: int, j: int, inner: string, after: string) {
    && IsLast(s, f, i) && IsLast(s, g, j)
    && i + |f| + 1 <= j - 1 && j + |g| + 1 <= |s|
    && s[i + |f| + 1..j - 1] == inner
    && s[j + |g| + 1..] == after
  }

  lemma CutShape(s: string, before: string, f: string, inner: string, g: string, after: string, j: int)
    requires s == before + f + "\n" + (inner + "\n" + g + "\n" + after)
    requires j == |before| + |f| + 1 + |inner| + 1
    requires IsLast(s, f, |before|)
    requires IsLast(s, g, j)
    ensures CutsOut(s, f, g, |before|, j, inner, after)
  {
    hide IsLast;
    assert s == (before + f + "\n") + inner + ("\n" + g + "\n" + after);
    assert s == (before + f + "\n" + inner + "\n" + g + "\n") + after;
  }

  /** Two fence lines around a line, and no fence in the line or below: both are last, and where they are. */
  lemma LastTwoLines(above: seq<string>, f: string, inner: string, g: string, below: seq<string>)
    requires Marking(f) && Marking(g) && Count(inner, f) == 0 && Count(g, f) == 0
    requires TotalCount(below, f) == 0 && TotalCount(below, g) == 0
    ensures var s := ConcatLines(above + [f, inner, g] + below);
            IsLast(s, f, |ConcatLines(above)|) && IsLast(s, g, |ConcatLines(above + [f, inner])|)
  {
    TotalCountPair(inner, g, below, f);
    hide Marking, Count, TotalCount, IsLast, ConcatLines;
    LastLine(above, f, [inner, g] + below);
    LastLine(above + [f, inner], g, below);
    assert above + [f] + ([inner, g] + below) == above + [f, inner, g] + below;
    assert above + [f, inner] + [g] + below == above + [f, inner, g] + below;
  }

  lemma ConcatBlock(above: seq<string>, f: string, inner: string, g: string, below: seq<string>)
    ensures ConcatLines(above + [f, inner, g] + below) ==
            ConcatLines(above) + f + "\n" + (inner + "\n" + g + "\n" + ConcatLines(below))
    ensures |ConcatLines(above + [f, inner])| == |ConcatLines(above)| + |f| + 1 + |inner| + 1
  {
    assert above + [f, inner, g] + below == (above + [f, inner]) + ([g] + below);
    ConcatLinesAppend(above + [f, inner], [g] + below);
    ConcatLinesAppend(above, [f, inner]);
    ConcatLinesPair(f, inner);
    assert ([g] + below)[1..] == below;
  }

  /** Two fence lines around a block: cutting after the first and before the second gives the block. */
  lemma CutOut(above: seq<string>, f: string, inner: string, g: string, below: seq<string>)
    requires Marking(f) && Marking(g) && Count(inner, f) == 0 && Count(g, f) == 0
    requires TotalCount(below, f) == 0 && TotalCount(below, g) == 0
    ensures CutsOut(ConcatLines(above + [f, inner, g] + below), f, g,
                    |ConcatLines(above)|, |ConcatLines(above + [f, inner])|, inner, ConcatLines(below))
  {
    LastTwoLines(above, f, inner, g, below);
    ConcatBlock(above, f, inner, g, below);
    hide CutsOut;
    CutShape(ConcatLines(above + [f, inner, g] + below), ConcatLines(above), f, inner, g, ConcatLines(below),
             |ConcatLines(above + [f, inner])|);
  }

  lemma ConcatLinesPair(a: string, b: string)
    ensures ConcatLines([a, b]) == a + "\n" + b + "\n"
  {
    assert [a, b][1..] == [b] && [b][1..] == [];
    assert ConcatLines([b]) == b + "\n" + ConcatLines([]);
  }

  lemma TotalCountPair(a: string, b: string, below: seq<string>, f: string)
    ensures TotalCount([a, b] + below, f) == Count(a, f) + Count(b, f) + TotalCount(below, f)
  {
    assert ([a, b] + below)[1..] == [b] + below && ([b] + below)[1..] == below;
  }

  /** The text of the foot, which depends on the phase alone. */
  function FootText(p: Phase): string {
    ConcatLines(FootLines(PhaseName(p)))
  }

  /**
   * Whatever the goal: cutting between the last opening and the last closing fence gives back exactly the
   * neutralised context, and what follows the closing fence depends on the phase alone.
   */
  lemma LastFencesRoundTrip(p: Phase, goal: string, artifacts: seq<string>, budget: int) returns (i: nat, j: nat)
    requires BoundedContext(artifacts, budget) != ""
    ensures CutsOut(Prompt(p, goal, artifacts, budget), FENCE_OPEN, FENCE_CLOSE, i, j,
                    NeutraliseFences(BoundedContext(artifacts, budget)), FootText(p))
  {
    FencesAreMarking();
    OpeningInFences();
    hide PhaseName, TaskOf, Text, TaskFor, BoundedContext, HeadLines, FootLines, Count, TotalCount, Prompt;
    hide NeutraliseFences, Marking, CutsOut;
    var context := BoundedContext(artifacts, budget);
    var head, foot := HeadLines(PhaseName(p), goal, Text(TaskOf(p))), FootLines(PhaseName(p));
    FootCount(PhaseName(p), FENCE_OPEN);
    FootCount(PhaseName(p), FENCE_CLOSE);
    NeutralisedHasNoFence(context, FENCE_OPEN);
    CutOut(head + NoticeLines(), FENCE_OPEN, NeutraliseFences(context), FENCE_CLOSE, foot);
    PromptIsConcatLines(p, goal, artifacts, budget);
    assert head + ContextLines(context) + foot ==
           head + NoticeLines() + [FENCE_OPEN, NeutraliseFences(context), FENCE_CLOSE] + foot;
    i := |ConcatLines(head + NoticeLines())|;
    j := |ConcatLines(head + NoticeLines() + [FENCE_OPEN, NeutraliseFences(context)])|;
  }

  /** Where each fence occurs once, there is only one place to cut. */
  lemma OnlyCut(s: string, f: string, g: string, i: int, j: int, i': int, j': int, inner: string, after: string)
    requires f != "" && g != "" && Count(s, f) == 1 && Count(s, g) == 1
    requires IsAt(s, f, i) && IsAt(s, g, j)
    requires CutsOut(s, f, g, i', j', inner, after)
    ensures CutsOut(s, f, g, i, j, inner, after)
  {
    hide Count;
    CountOne(s, f, i, i');
    CountOne(s, g, j, j');
  }

  /**
   * For a goal free of both fences each occurs exactly once, and cutting between them, wherever they are
   * found, gives back exactly the neutralised context.
   */
  lemma FenceRoundTrip(p: Phase, goal: string, artifacts: seq<string>, budget: int, i: int, j: int)
    requires BoundedContext(artifacts, budget) != ""
    requires Count(goal, FENCE_OPEN) == 0 && Count(goal, FENCE_CLOSE) == 0
    requires var prompt := Prompt(p, goal, artifacts, budget);
             IsAt(prompt, FENCE_OPEN, i) && IsAt(prompt, FENCE_CLOSE, j)
    ensures var prompt := Prompt(p, goal, artifacts, budget);
            && Count(prompt, FENCE_OPEN) == 1 && Count(prompt, FENCE_CLOSE) == 1
            && CutsOut(prompt, FENCE_OPEN, FENCE_CLOSE, i, j,
                       NeutraliseFences(BoundedContext(artifacts, budget)), FootText(p))
  {
    hide Count, Prompt, BoundedContext, NeutraliseFences, IsAt, CutsOut;
    var prompt := Prompt(p, goal, artifacts, budget);
    FencesCounted(p, goal, artifacts, budget);
    var i', j' := LastFencesRoundTrip(p, goal, artifacts, budget);
    OnlyCut(prompt, FENCE_OPEN, FENCE_CLOSE, i, j, i', j',
            NeutraliseFences(BoundedContext(artifacts, budget)), FootText(p));
  }
}
