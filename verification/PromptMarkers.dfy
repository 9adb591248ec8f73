/** Which texts keep a fence marker, a run of five equals signs, through neutralising: exactly which runs leave one. */
module PromptMarkers {
  import opened PhasePrompts

  ghost predicate HasMarker(s: string) {
    exists i :: IsAt(s, FENCE_MARKER, i)
  }

  /** From i on there are n equals signs, and no other on either side. */
  ghost predicate MaximalRun(text: string, i: int, n: nat) {
    && 0 <= i && n > 0 && i + n <= |text|
    && (forall k :: i <= k < i + n ==> text[k] == '=')
    && (i == 0 || text[i - 1] != '=')
    && (i + n == |text| || text[i + n] != '=')
  }

  /** The lengths of runs that leave a marker: 9, 14, 19 and so on. */
  predicate Leaves(n: nat) {
    n >= 9 && n % 5 == 4
  }

  ghost predicate HasLeavingRun(text: string) {
    exists i, n :: MaximalRun(text, i, n) && Leaves(n)
  }

  lemma MarkerIsFiveEquals(s: string, i: int)
    ensures IsAt(s, FENCE_MARKER, i) <==> 0 <= i && i + 5 <= |s| && forall k :: i <= k < i + 5 ==> s[k] == '='
  {
    if 0 <= i && i + 5 <= |s| {
      if IsAt(s, FENCE_MARKER, i) {
        CharactersAgree(s, FENCE_MARKER, i);
        forall k | i <= k < i + 5
          ensures s[k] == '='
        {
          assert s[i + (k - i)] == FENCE_MARKER[k - i];
        }
      }
      if forall k :: i <= k < i + 5 ==> s[k] == '=' {
        assert s[i..i + 5] == FENCE_MARKER;
      }
    }
  }

  // ---------------------------------------------------------------- what replacing means

  lemma MarkerInRest(text: string, i: int)
    requires text != "" && i > 0
    ensures IsAt(text[1..], FENCE_MARKER, i - 1) <==> IsAt(text, FENCE_MARKER, i)
  {
    MarkerIsFiveEquals(text, i);
    MarkerIsFiveEquals(text[1..], i - 1);
  }

  /** A text without a marker stays as it is. */
  lemma {:induction false} UnmarkedStays(text: string)
    requires forall i :: !IsAt(text, FENCE_MARKER, i)
    ensures NeutraliseFences(text) == text
  {
    if |text| >= 5 {
      assert !IsAt(text, FENCE_MARKER, 0);
      forall i
        ensures !IsAt(text[1..], FENCE_MARKER, i)
      {
        if i >= 0 {
          MarkerInRest(text, i + 1);
        }
      }
      UnmarkedStays(text[1..]);
    }
  }

  lemma NeutraliseAtMarker(text: string)
    requires IsAt(text, FENCE_MARKER, 0)
    ensures NeutraliseFences(text) == "= = =" + NeutraliseFences(text[5..])
  {
  }

  lemma FirstCharacterStays(text: string)
    requires text != "" && !IsAt(text, FENCE_MARKER, 0)
    ensures NeutraliseFences(text) == [text[0]] + NeutraliseFences(text[1..])
  {
  }

  /** The first marker from the left is replaced, what is before it stays, and what is after it is searched on. */
  lemma {:induction false} FirstMarkerReplaced(text: string, i: nat)
    requires IsAt(text, FENCE_MARKER, i) && forall k :: k < i ==> !IsAt(text, FENCE_MARKER, k)
    ensures NeutraliseFences(text) == text[..i] + "= = =" + NeutraliseFences(text[i + 5..])
    decreases i
  {
    if i == 0 {
      NeutraliseAtMarker(text);
      hide NeutraliseFences;
      assert text[..0] + "= = =" == "= = =";
    } else {
      assert !IsAt(text, FENCE_MARKER, 0);
      FirstCharacterStays(text);
      FirstInRest(text, i);
      FirstMarkerReplaced(text[1..], i - 1);
      assert text[1..][i + 4..] == text[i + 5..];
      hide NeutraliseFences, IsAt;
      OneMoreBefore(text, i, "= = =", NeutraliseFences(text[i + 5..]));
    }
  }

  lemma FirstInRest(text: string, i: nat)
    requires i > 0 && IsAt(text, FENCE_MARKER, i) && forall k :: k < i ==> !IsAt(text, FENCE_MARKER, k)
    ensures IsAt(text[1..], FENCE_MARKER, i - 1)
    ensures forall k :: k < i - 1 ==> !IsAt(text[1..], FENCE_MARKER, k)
  {
    MarkerInRest(text, i);
    forall k | k < i - 1
      ensures !IsAt(text[1..], FENCE_MARKER, k)
    {
      if k >= 0 {
        MarkerInRest(text, k + 1);
      }
    }
  }

  lemma OneMoreBefore(text: string, i: nat, mid: string, end: string)
    requires 0 < i <= |text|
    ensures [text[0]] + (text[1..][..i - 1] + mid + end) == text[..i] + mid + end
  {
    assert [text[0]] + text[1..][..i - 1] == text[..i];
  }

  // ---------------------------------------------------------------- parts that no run joins

  /** No equals sign at the end of one part meets one at the beginning of the other. */
  predicate Apart(a: string, b: string) {
    a == "" || b == "" || a[|a| - 1] != '=' || b[0] != '='
  }

  lemma MarkerApart(a: string, b: string)
    requires Apart(a, b)
    ensures HasMarker(a + b) <==> HasMarker(a) || HasMarker(b)
  {
    var s := a + b;
    if i :| IsAt(s, FENCE_MARKER, i) {
      MarkerIsFiveEquals(s, i);
      MarkerIsFiveEquals(a, i);
      MarkerIsFiveEquals(b, i - |a|);
      if i < |a| < i + 5 {
        assert s[|a| - 1] == a[|a| - 1] && s[|a|] == b[0];
      }
    }
    if i :| IsAt(a, FENCE_MARKER, i) {
      MarkerIsFiveEquals(a, i);
      MarkerIsFiveEquals(s, i);
    }
    if i :| IsAt(b, FENCE_MARKER, i) {
      MarkerIsFiveEquals(b, i);
      MarkerIsFiveEquals(s, i + |a|);
    }
  }

  lemma RunIsInOnePart(a: string, b: string, i: int, n: nat)
    requires Apart(a, b) && MaximalRun(a + b, i, n)
    ensures MaximalRun(a, i, n) || MaximalRun(b, i - |a|, n)
  {
    var s := a + b;
    assert a != "" ==> s[|a| - 1] == a[|a| - 1];
    assert b != "" ==> s[|a|] == b[0];
    if i + n <= |a| {
      assert forall k :: 0 <= k < |a| ==> s[k] == a[k];
    } else if i >= |a| {
      assert forall k :: 0 <= k < |b| ==> b[k] == s[k + |a|];
    }
  }

  lemma RunStaysMaximal(a: string, b: string, i: int, n: nat)
    requires Apart(a, b)
    ensures MaximalRun(a, i, n) ==> MaximalRun(a + b, i, n)
    ensures MaximalRun(b, i, n) ==> MaximalRun(a + b, i + |a|, n)
  {
    if MaximalRun(a, i, n) {
      assert a[i + n - 1] == '=';
    }
    if MaximalRun(b, i, n) {
      assert b[i] == '=';
    }
  }

  lemma LeavingRunApart(a: string, b: string)
    requires Apart(a, b)
    ensures HasLeavingRun(a + b) <==> HasLeavingRun(a) || HasLeavingRun(b)
  {
    hide MaximalRun;
    if i, n :| MaximalRun(a + b, i, n) && Leaves(n) {
      RunIsInOnePart(a, b, i, n);
    }
    if i, n :| MaximalRun(a, i, n) && Leaves(n) {
      RunStaysMaximal(a, b, i, n);
    }
    if i, n :| MaximalRun(b, i, n) && Leaves(n) {
      RunStaysMaximal(a, b, i, n);
    }
  }

  // ---------------------------------------------------------------- a single run

  function Equals(n: nat): (s: string)
    ensures |s| == n && forall k :: 0 <= k < n ==> s[k] == '='
  {
    seq(n, _ => '=')
  }

  lemma LeavingRunOfEquals(n: nat)
    ensures HasLeavingRun(Equals(n)) <==> Leaves(n)
  {
    if Leaves(n) {
      assert MaximalRun(Equals(n), 0, n);
    }
    if i, m :| MaximalRun(Equals(n), i, m) && Leaves(m) {
      assert i == 0 && m == n;
    }
  }

  lemma NeutraliseFive(n: nat, rest: string)
    requires n >= 5
    ensures NeutraliseFences(Equals(n) + rest) == DEFANGED + NeutraliseFences(Equals(n - 5) + rest)
  {
    assert (Equals(n) + rest)[..5] == FENCE_MARKER;
    assert (Equals(n) + rest)[5..] == Equals(n - 5) + rest;
  }

  lemma NoMarkerAtStart(text: string, n: nat)
    requires n < 5 && n < |text| && text[n] != '='
    ensures !IsAt(text, FENCE_MARKER, 0)
  {
    MarkerIsFiveEquals(text, 0);
  }

  lemma NeutraliseFewer(n: nat)
    requires n < 5
    ensures NeutraliseFences(Equals(n)) == Equals(n)
  {
  }

  /** A run is neutralised on its own. */
  lemma {:induction false} NeutraliseRun(n: nat, rest: string)
    requires rest == "" || rest[0] != '='
    ensures NeutraliseFences(Equals(n) + rest) == NeutraliseFences(Equals(n)) + NeutraliseFences(rest)
  {
    hide NeutraliseFences;
    if n >= 5 {
      assert Equals(n) + "" == Equals(n) && Equals(n - 5) + "" == Equals(n - 5);
      NeutraliseFive(n, rest);
      NeutraliseFive(n, "");
      NeutraliseRun(n - 5, rest);
    } else {
      NeutraliseFewer(n);
      FewerStay(n, rest);
    }
  }

  lemma {:induction false} FewerStay(n: nat, rest: string)
    requires n < 5 && (rest == "" || rest[0] != '=')
    ensures NeutraliseFences(Equals(n) + rest) == Equals(n) + NeutraliseFences(rest)
  {
    hide NeutraliseFences;
    var text := Equals(n) + rest;
    if rest == "" {
      NeutraliseFewer(n);
      NeutraliseFewer(0);
      assert text == Equals(n) && rest == Equals(0);
    } else if n == 0 {
      assert text == rest;
    } else {
      NoMarkerAtStart(text, n);
      FirstCharacterStays(text);
      assert text[1..] == Equals(n - 1) + rest;
      assert Equals(n) == ['='] + Equals(n - 1);
      FewerStay(n - 1, rest);
    }
  }

  lemma NoMarkerInShort(s: string)
    requires |s| < 5 || (|s| == 6 && s[1] != '=')
    ensures !HasMarker(s)
  {
    forall i
      ensures !IsAt(s, FENCE_MARKER, i)
    {
      MarkerIsFiveEquals(s, i);
    }
  }

  /** Two replacements in a row keep no marker between them. */
  lemma NoMarkerBetween(s: string)
    ensures HasMarker(DEFANGED + (DEFANGED + s)) <==> HasMarker(DEFANGED + s)
  {
    var tail := " = =" + s;
    assert DEFANGED + (DEFANGED + s) == "= = ==" + tail;
    assert DEFANGED + s == "=" + tail;
    MarkerApart("= = ==", tail);
    MarkerApart("=", tail);
    NoMarkerInShort("= = ==");
    NoMarkerInShort("=");
  }

  /** One replacement followed by the r equals signs that are left over. */
  lemma MarkerAtEnd(r: nat)
    requires r < 5
    ensures HasMarker(DEFANGED + Equals(r)) <==> r == 4
  {
    var s := DEFANGED + Equals(r);
    if r == 4 {
      MarkerIsFiveEquals(s, 4);
    } else {
      assert s[1] == ' ' && s[3] == ' ';
      forall i
        ensures !IsAt(s, FENCE_MARKER, i)
      {
        MarkerIsFiveEquals(s, i);
      }
    }
  }

  lemma {:induction false} MarkerOfEquals(n: nat)
    ensures HasMarker(NeutraliseFences(Equals(n))) <==> Leaves(n)
  {
    if n < 5 {
      NoMarkerInShort(Equals(n));
    } else {
      assert Equals(n) + "" == Equals(n) && Equals(n - 5) + "" == Equals(n - 5);
      NeutraliseFive(n, "");
      if n < 10 {
        MarkerAtEnd(n - 5);
      } else {
        assert Equals(n - 10) + "" == Equals(n - 10);
        NeutraliseFive(n - 5, "");
        NoMarkerBetween(NeutraliseFences(Equals(n - 10)));
        MarkerOfEquals(n - 5);
      }
    }
  }

  // ---------------------------------------------------------------- the exact condition

  function LeadingEquals(text: string): (n: nat)
    ensures n <= |text| && text[..n] == Equals(n)
    ensures n < |text| ==> text[n] != '='
  {
    if text == "" || text[0] != '=' then 0
    else
      var n := LeadingEquals(text[1..]);
      assert text[..n + 1] == [text[0]] + text[1..][..n];
      n + 1
  }

  lemma PartsExactly(a: string, b: string, a': string, b': string)
    requires Apart(a, b) && Apart(a', b')
    requires (HasMarker(a') <==> HasLeavingRun(a)) && (HasMarker(b') <==> HasLeavingRun(b))
    ensures HasMarker(a' + b') <==> HasLeavingRun(a + b)
  {
    MarkerApart(a', b');
    LeavingRunApart(a, b);
  }

  lemma {:induction false} SurvivesByRuns(text: string)
    ensures HasMarker(NeutraliseFences(text)) <==> HasLeavingRun(text)
    decreases |text|
  {
    hide HasMarker, HasLeavingRun;
    var n := LeadingEquals(text);
    assert text == Equals(n) + text[n..];
    if n > 0 || text == "" {
      var rest := text[n..];
      if rest != "" {
        NoMarkerAtStart(rest, 0);
        FirstCharacterStays(rest);
      }
      NeutraliseRun(n, rest);
      MarkerOfEquals(n);
      LeavingRunOfEquals(n);
      if n > 0 {
        SurvivesByRuns(rest);
        PartsExactly(Equals(n), rest, NeutraliseFences(Equals(n)), NeutraliseFences(rest));
      } else {
        assert text == Equals(0);
      }
    } else {
      var c := [text[0]];
      NoMarkerAtStart(text, 0);
      FirstCharacterStays(text);
      SurvivesByRuns(text[1..]);
      NoMarkerInShort(c);
      NoRunInOther(c);
      PartsExactly(c, text[1..], c, NeutraliseFences(text[1..]));
      assert c + text[1..] == text;
    }
  }

  lemma NoRunInOther(s: string)
    requires |s| == 1
    ensures !HasLeavingRun(s)
  {
  }

  /**
   * A marker survives neutralising if and only if the text has a run of equals signs, with no other on either
   * side, of length 9, 14, 19 and so on: all but four are replaced, and those join the last one replaced.
   */
  lemma MarkerSurvivesExactly(text: string)
    ensures (exists i :: IsAt(NeutraliseFences(text), FENCE_MARKER, i)) <==>
            (exists i, n :: MaximalRun(text, i, n) && n >= 9 && n % 5 == 4)
  {
    SurvivesByRuns(text);
  }

  /** An instance: nine equals signs become "= = =====". */
  lemma NineEqualsLeaveMarker()
    ensures NeutraliseFences("=========") == "= = ====="
    ensures IsAt(NeutraliseFences("========="), FENCE_MARKER, 4)
  {
    var nine := "=========";
    assert nine[..5] == FENCE_MARKER && nine[5..] == "====";
    assert NeutraliseFences("====") == "====";
    assert DEFANGED + "====" == "= = =====";
    MarkerIsFiveEquals("= = =====", 4);
  }
}
