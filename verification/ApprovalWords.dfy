/** The words that decide a gate: exactly APPROVE or REJECT, in any case, with slashes and blanks around. */
module ApprovalWords {
  import opened Common
  import opened Spiral

  /** What `str.strip` removes. */
  predicate IsSpace(c: char) {
    || '\U{9}' <= c <= '\U{D}'
    || '\U{1C}' <= c <= '\U{20}'
    || c == '\U{85}' || c == '\U{A0}' || c == '\U{1680}'
    || '\U{2000}' <= c <= '\U{200A}'
    || c == '\U{2028}' || c == '\U{2029}' || c == '\U{202F}' || c == '\U{205F}' || c == '\U{3000}'
  }

  function LowerChar(c: char): char {
    if 'A' <= c <= 'Z' then (c as int + 32) as char else c
  }

  function Lower(s: string): (r: string)
    ensures |r| == |s|
  {
    seq(|s|, i requires 0 <= i < |s| => LowerChar(s[i]))
  }

  function StripLeft(s: string): string {
    if s != "" && IsSpace(s[0]) then StripLeft(s[1..]) else s
  }

  function StripRight(s: string): string {
    if s != "" && IsSpace(s[|s| - 1]) then StripRight(s[..|s| - 1]) else s
  }

  function Strip(s: string): string {
    StripRight(StripLeft(s))
  }

  function StripSlashes(s: string): string {
    if s != "" && s[0] == '/' then StripSlashes(s[1..]) else s
  }

  /** The word a reply comes down to. */
  function Normal(text: string): string {
    Strip(StripSlashes(Lower(Strip(text))))
  }

  function ParseDecision(text: string): Option<Decision> {
    var word := Normal(text);
    if word == "approve" then Some(Approve)
    else if word == "reject" then Some(Reject)
    else None
  }

  // ---------------------------------------------------------------- which texts those are

  ghost predicate AllSpace(s: string) {
    forall i :: 0 <= i < |s| ==> IsSpace(s[i])
  }

  ghost predicate AllSlash(s: string) {
    forall i :: 0 <= i < |s| ==> s[i] == '/'
  }

  /** The word, each of its letters small or capital. */
  ghost predicate InAnyCase(w: string, word: string) {
    && |w| == |word|
    && forall i :: 0 <= i < |w| ==>
         w[i] == word[i] || ('a' <= word[i] <= 'z' && w[i] as int == word[i] as int - 32)
  }

  ghost predicate SmallLetters(word: string) {
    forall i :: 0 <= i < |word| ==> 'a' <= word[i] <= 'z'
  }

  lemma LowerIsAnyCase(w: string, word: string)
    requires SmallLetters(word)
    ensures Lower(w) == word <==> InAnyCase(w, word)
  {
    assert forall i :: 0 <= i < |w| ==> Lower(w)[i] == LowerChar(w[i]);
    if InAnyCase(w, word) {
      assert forall i :: 0 <= i < |w| ==> Lower(w)[i] == word[i];
    }
    if Lower(w) == word {
      forall i | 0 <= i < |w|
        ensures w[i] == word[i] || w[i] as int == word[i] as int - 32
      {
        assert LowerChar(w[i]) == word[i];
      }
    }
  }

  /** The characters `str.strip` removes, one by one. */
  const WHITESPACE :=
    "\U{9}\U{A}\U{B}\U{C}\U{D}\U{1C}\U{1D}\U{1E}\U{1F} \U{85}\U{A0}\U{1680}"
    + "\U{2000}\U{2001}\U{2002}\U{2003}\U{2004}\U{2005}\U{2006}\U{2007}\U{2008}\U{2009}\U{200A}"
    + "\U{2028}\U{2029}\U{202F}\U{205F}\U{3000}"

  lemma SpaceIsListed(c: char)
    ensures IsSpace(c) <==> c in WHITESPACE
  {
  }

  /** Blanks, slashes, blanks, the word in any case, blanks. */
  ghost predicate Spelled(text: string, a: string, b: string, c: string, w: string, d: string, word: string) {
    text == a + b + c + w + d && AllSpace(a) && AllSlash(b) && AllSpace(c) && AllSpace(d) && InAnyCase(w, word)
  }

  ghost predicate IsCommand(text: string, word: string) {
    exists a, b, c, w, d :: Spelled(text, a, b, c, w, d, word)
  }

  /** A word of small letters that neither begins with what is stripped nor ends with a blank. */
  ghost predicate Bare(word: string) {
    word != "" && SmallLetters(word) && word[0] != '/' && !IsSpace(word[0]) && !IsSpace(word[|word| - 1])
  }

  lemma LowerKeeps(c: char)
    ensures IsSpace(LowerChar(c)) <==> IsSpace(c)
    ensures LowerChar(c) == '/' <==> c == '/'
  {
  }

  lemma LowerParts(a: string, b: string)
    ensures Lower(a + b) == Lower(a) + Lower(b)
  {
  }

  lemma {:induction false} StripLeftSplit(s: string) returns (a: string)
    ensures s == a + StripLeft(s) && AllSpace(a)
    ensures StripLeft(s) != "" ==> !IsSpace(StripLeft(s)[0])
  {
    a := "";
    if s != "" && IsSpace(s[0]) {
      var rest := StripLeftSplit(s[1..]);
      a := [s[0]] + rest;
    }
  }

  lemma {:induction false} StripRightSplit(s: string) returns (d: string)
    ensures s == StripRight(s) + d && AllSpace(d)
    ensures StripRight(s) != "" ==> !IsSpace(StripRight(s)[|StripRight(s)| - 1])
  {
    d := "";
    if s != "" && IsSpace(s[|s| - 1]) {
      var rest := StripRightSplit(s[..|s| - 1]);
      d := rest + [s[|s| - 1]];
    }
  }

  lemma {:induction false} StripSlashesSplit(s: string) returns (b: string)
    ensures s == b + StripSlashes(s) && AllSlash(b)
  {
    b := "";
    if s != "" && s[0] == '/' {
      var rest := StripSlashesSplit(s[1..]);
      b := [s[0]] + rest;
    }
  }

  lemma {:induction false} StripLeftOf(a: string, x: string)
    requires AllSpace(a) && (x == "" || !IsSpace(x[0]))
    ensures StripLeft(a + x) == x
  {
    if a == "" {
      assert a + x == x;
    } else {
      assert (a + x)[1..] == a[1..] + x;
      StripLeftOf(a[1..], x);
    }
  }

  lemma {:induction false} StripRightOf(x: string, d: string)
    requires AllSpace(d) && (x == "" || !IsSpace(x[|x| - 1]))
    ensures StripRight(x + d) == x
  {
    if d == "" {
      assert x + d == x;
    } else {
      assert (x + d)[..|x + d| - 1] == x + d[..|d| - 1];
      StripRightOf(x, d[..|d| - 1]);
    }
  }

  lemma {:induction false} StripSlashesOf(b: string, x: string)
    requires AllSlash(b) && (x == "" || x[0] != '/')
    ensures StripSlashes(b + x) == x
  {
    if b == "" {
      assert b + x == x;
    } else {
      assert (b + x)[1..] == b[1..] + x;
      StripSlashesOf(b[1..], x);
    }
  }

  /** Blanks on both sides go, nothing else. */
  lemma StripOf(a: string, x: string, d: string)
    requires AllSpace(a) && AllSpace(d) && x != "" && !IsSpace(x[0]) && !IsSpace(x[|x| - 1])
    ensures Strip(a + x + d) == x
  {
    assert a + x + d == a + (x + d);
    StripLeftOf(a, x + d);
    StripRightOf(x, d);
  }

  lemma StripSplit(s: string) returns (a: string, d: string)
    ensures s == a + Strip(s) + d && AllSpace(a) && AllSpace(d)
  {
    a := StripLeftSplit(s);
    d := StripRightSplit(StripLeft(s));
    assert s == a + (Strip(s) + d);
  }

  /** Without slashes, the blanks before and after the word are all that goes. */
  lemma UnslashedIsNormal(text: string, a: string, w: string, d: string, word: string)
    requires Bare(word) && w != "" && Lower(w) == word && text == a + w + d && AllSpace(a) && AllSpace(d)
    requires !IsSpace(w[0]) && !IsSpace(w[|w| - 1])
    ensures Normal(text) == word
  {
    hide Lower, StripLeft, StripRight, StripSlashes, Strip, AllSpace;
    StripOf(a, w, d);
    StripSlashesOf("", word);
    assert "" + word == word && AllSlash("");
    NothingToStrip(word);
  }

  lemma NothingToStrip(word: string)
    requires Bare(word)
    ensures Strip(word) == word
  {
    StripOf("", word, "");
    assert "" + word + "" == word;
  }

  /** With slashes, the blanks behind them go in a second round. */
  lemma SlashedIsNormal(text: string, a: string, b: string, c: string, w: string, d: string, word: string)
    requires Bare(word) && w != "" && Lower(w) == word && text == a + (b + (c + w)) + d
    requires AllSpace(a) && b != "" && AllSlash(b) && AllSpace(c) && AllSpace(d) && !IsSpace(w[|w| - 1])
    ensures Normal(text) == word
  {
    LowerParts(b, c + w);
    LowerParts(c, w);
    assert AllSlash(Lower(b)) && AllSpace(Lower(c));
    StripOf(a, b + (c + w), d);
    StripSlashesOf(Lower(b), Lower(c) + word);
    StripOf(Lower(c), word, "");
    assert Lower(c) + word + "" == Lower(c) + word;
  }

  lemma SpelledIsNormal(text: string, a: string, b: string, c: string, w: string, d: string, word: string)
    requires Bare(word) && Spelled(text, a, b, c, w, d, word)
    ensures Normal(text) == word
  {
    LowerIsAnyCase(w, word);
    LowerKeeps(w[0]);
    LowerKeeps(w[|w| - 1]);
    assert Lower(w)[0] == word[0] && Lower(w)[|w| - 1] == word[|word| - 1];
    hide Normal;
    assert text == a + (b + (c + w)) + d;
    if b == "" {
      assert text == (a + c) + w + d;
      UnslashedIsNormal(text, a + c, w, d, word);
    } else {
      SlashedIsNormal(text, a, b, c, w, d, word);
    }
  }

  /** A split of the lowered text is the lowering of a split of the text. */
  lemma LowerSplit(t: string, x: string, y: string)
    requires Lower(t) == x + y
    ensures t == t[..|x|] + t[|x|..] && Lower(t[..|x|]) == x && Lower(t[|x|..]) == y
  {
    assert (x + y)[..|x|] == x && (x + y)[|x|..] == y;
    assert Lower(t[..|x|]) == Lower(t)[..|x|] && Lower(t[|x|..]) == Lower(t)[|x|..];
  }

  lemma LowerReflects(t: string)
    ensures AllSpace(Lower(t)) ==> AllSpace(t)
    ensures AllSlash(Lower(t)) ==> AllSlash(t)
  {
    forall i | 0 <= i < |t|
      ensures (IsSpace(Lower(t)[i]) <==> IsSpace(t[i])) && (Lower(t)[i] == '/' <==> t[i] == '/')
    {
      LowerKeeps(t[i]);
    }
  }

  /** A split of the lowered text into four parts is the lowering of one of the text. */
  lemma LowerSplitFour(t: string, b: string, c: string, w: string, e: string)
    returns (b': string, c': string, w': string, e': string)
    requires Lower(t) == b + (c + (w + e))
    ensures t == b' + (c' + (w' + e'))
    ensures Lower(b') == b && Lower(c') == c && Lower(w') == w && Lower(e') == e
  {
    hide Lower;
    b' := t[..|b|];
    LowerSplit(t, b, c + (w + e));
    var t1 := t[|b|..];
    c' := t1[..|c|];
    LowerSplit(t1, c, w + e);
    var t2 := t1[|c|..];
    w', e' := t2[..|w|], t2[|w|..];
    LowerSplit(t2, w, e);
  }

  lemma NormalIsSpelled(text: string, word: string)
    requires SmallLetters(word) && Normal(text) == word
    ensures IsCommand(text, word)
  {
    hide Strip, StripSlashes, Lower, AllSpace, AllSlash, IsCommand;
    var a, d := StripSplit(text);
    var t := Strip(text);
    var b := StripSlashesSplit(Lower(t));
    var c, e := StripSplit(StripSlashes(Lower(t)));
    assert Lower(t) == b + (c + (word + e));
    var b', c', w, e' := LowerSplitFour(t, b, c, word, e);
    assert text == a + (b' + (c' + (w + e'))) + d;
    SpelledByParts(text, a, b', c', w, e', d, word);
  }

  lemma SpelledByParts(text: string, a: string, b: string, c: string, w: string, e: string, d: string, word: string)
    requires text == a + (b + (c + (w + e))) + d && AllSpace(a) && AllSpace(d)
    requires SmallLetters(word) && AllSlash(Lower(b)) && AllSpace(Lower(c)) && Lower(w) == word && AllSpace(Lower(e))
    ensures IsCommand(text, word)
  {
    LowerIsAnyCase(w, word);
    LowerReflects(b);
    LowerReflects(c);
    LowerReflects(e);
    assert text == a + b + c + w + (e + d);
    assert Spelled(text, a, b, c, w, e + d, word);
  }

  /** A reply decides if and only if it spells one of the two commands, and then decides as it says. */
  lemma DecidesExactlyCommands(text: string)
    ensures ParseDecision(text) == Some(Approve) <==> IsCommand(text, "approve")
    ensures ParseDecision(text) == Some(Reject) <==> IsCommand(text, "reject")
    ensures ParseDecision(text).Some? ==> ParseDecision(text).value == Approve || ParseDecision(text).value == Reject
  {
    CommandIsNormal(text, "approve");
    CommandIsNormal(text, "reject");
  }

  lemma CommandIsNormal(text: string, word: string)
    requires Bare(word)
    ensures Normal(text) == word <==> IsCommand(text, word)
  {
    if Normal(text) == word {
      NormalIsSpelled(text, word);
    }
    if a, b, c, w, d :| Spelled(text, a, b, c, w, d, word) {
      SpelledIsNormal(text, a, b, c, w, d, word);
    }
  }
}
