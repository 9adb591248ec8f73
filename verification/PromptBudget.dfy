/** What of the prior artifacts a prompt shows: the newest first, whole as long as they fit the budget. */
module PromptBudget {
  import opened Common
  import opened PhasePrompts

  const SEPARATOR := "\n\n"

  function TotalLength(parts: seq<string>): nat {
    if parts == [] then 0 else |parts[0]| + TotalLength(parts[1..])
  }

  lemma {:induction false} TotalLengthAppend(a: seq<string>, b: seq<string>)
    ensures TotalLength(a + b) == TotalLength(a) + TotalLength(b)
  {
    if a == [] {
      assert a + b == b;
    } else {
      assert (a + b)[1..] == a[1..] + b;
      TotalLengthAppend(a[1..], b);
    }
  }

  lemma {:induction false} TotalLengthReversed(parts: seq<string>)
    ensures TotalLength(Reversed(parts)) == TotalLength(parts)
  {
    if parts != [] {
      assert Reversed(parts) == Reversed(parts[1..]) + [parts[0]];
      TotalLengthAppend(Reversed(parts[1..]), [parts[0]]);
      TotalLengthReversed(parts[1..]);
      assert TotalLength([parts[0]]) == |parts[0]| + TotalLength([]);
    }
  }

  lemma {:induction false} JoinLength(parts: seq<string>, separator: string)
    requires parts != []
    ensures |Join(parts, separator)| == TotalLength(parts) + |separator| * (|parts| - 1)
  {
    if |parts| > 1 {
      JoinLength(parts[1..], separator);
    } else {
      assert TotalLength(parts[1..]) == 0;
    }
  }

  /** `part` stands in the joined text from `start` on, up to its end or to a separator. */
  ghost predicate StandsAt(joined: string, part: string, start: nat, last: bool, separator: string) {
    && start + |part| <= |joined| && joined[start..start + |part|] == part
    && (if last then start + |part| == |joined| else separator <= joined[start + |part|..])
  }

  /** Part k stands where the parts and separators before it end; a separator follows unless it is the last. */
  lemma {:induction false} JoinPlaces(parts: seq<string>, k: nat, separator: string)
    requires k < |parts|
    ensures StandsAt(Join(parts, separator), parts[k], TotalLength(parts[..k]) + |separator| * k,
                     k + 1 == |parts|, separator)
    decreases k
  {
    if k == 0 {
      FirstPart(parts, separator);
    } else {
      var rest, before := parts[1..], parts[1..][..k - 1];
      assert Join(parts, separator) == (parts[0] + separator) + Join(rest, separator);
      assert parts[..k] == [parts[0]] + before;
      LengthCons(parts[0], before);
      hide Join, TotalLength, StandsAt;
      JoinPlaces(rest, k - 1, separator);
      assert |separator| * k == |separator| * (k - 1) + |separator|;
      PlaceShifts(parts[0] + separator, Join(rest, separator), parts[k],
                  TotalLength(before) + |separator| * (k - 1), k + 1 == |parts|, separator);
    }
  }

  lemma LengthCons(part: string, parts: seq<string>)
    ensures TotalLength([part] + parts) == |part| + TotalLength(parts)
  {
    assert ([part] + parts)[1..] == parts;
  }

  lemma FirstPart(parts: seq<string>, separator: string)
    requires parts != []
    ensures StandsAt(Join(parts, separator), parts[0], 0, 1 == |parts|, separator)
    ensures TotalLength(parts[..0]) == 0
  {
    if |parts| > 1 {
      assert Join(parts, separator) == parts[0] + (separator + Join(parts[1..], separator));
    }
  }

  lemma PlaceShifts(front: string, rest: string, part: string, start: nat, last: bool, separator: string)
    requires StandsAt(rest, part, start, last, separator)
    ensures StandsAt(front + rest, part, |front| + start, last, separator)
  {
    assert (front + rest)[|front| + start..|front| + start + |part|] == rest[start..start + |part|];
    assert (front + rest)[|front| + start + |part|..] == rest[start + |part|..];
  }

  /** Joining fewer parts gives a prefix. */
  lemma {:induction false} JoinPrefix(parts: seq<string>, m: nat, separator: string)
    requires m <= |parts|
    ensures Join(parts[..m], separator) <= Join(parts, separator)
  {
    if m == |parts| {
      assert parts[..m] == parts;
    } else if m > 1 {
      JoinPrefix(parts[1..], m - 1, separator);
      assert parts[..m][1..] == parts[1..][..m - 1];
    }
  }

  /** The fenced text is never longer than the budget, and before neutralising it begins the newest-first join. */
  lemma ContextWithinBudget(artifacts: seq<string>, budget: int)
    ensures |NeutraliseFences(BoundedContext(artifacts, budget))| <= Max(0, budget)
    ensures BoundedContext(artifacts, budget) <= Join(Reversed(artifacts), SEPARATOR)
    ensures |Join(Reversed(artifacts), SEPARATOR)| > budget > 0 ==> |BoundedContext(artifacts, budget)| == budget
  {
  }

  /**
   * The m newest artifacts stand whole at the beginning of the context, newest first, whenever their lengths
   * and separators fit the budget; if all do, they are the context.
   */
  lemma NewestWholeWhenTheyFit(artifacts: seq<string>, m: nat, budget: int)
    requires 1 <= m <= |artifacts|
    requires TotalLength(artifacts[|artifacts| - m..]) + 2 * (m - 1) <= budget
    ensures Join(Reversed(artifacts[|artifacts| - m..]), SEPARATOR) <= BoundedContext(artifacts, budget)
    ensures m == |artifacts| ==> BoundedContext(artifacts, budget) == Join(Reversed(artifacts), SEPARATOR)
  {
    var recent, newestFirst := artifacts[|artifacts| - m..], Reversed(artifacts);
    assert newestFirst[..m] == Reversed(recent);
    JoinPrefix(newestFirst, m, SEPARATOR);
    TotalLengthReversed(recent);
    JoinLength(Reversed(recent), SEPARATOR);
    if m == |artifacts| {
      assert recent == artifacts;
    }
  }

  /** The newest artifact alone: whole at the beginning whenever it fits. */
  lemma NewestFirst(artifacts: seq<string>, budget: int)
    requires artifacts != [] && |artifacts[|artifacts| - 1]| <= budget
    ensures artifacts[|artifacts| - 1] <= BoundedContext(artifacts, budget)
  {
    var n := |artifacts| - 1;
    assert artifacts[n..] == [artifacts[n]];
    assert TotalLength([artifacts[n]]) == |artifacts[n]| + TotalLength([]);
    assert Reversed(artifacts[n..]) == [artifacts[n]];
    NewestWholeWhenTheyFit(artifacts, 1, budget);
  }
}
