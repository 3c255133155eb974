/** The scoring rule (api/views.py): a pure verdict per submitted item.
    Multiple choice compares option tags exactly; crosswords compare
    answers after Python's `strip()` and `lower()`, taken over ASCII. */
module Scoring {
  import opened Models

  /** The verdict returned to the client and stored on the answer row. */
  datatype Verdict = Verdict(isCorrect: bool, pointsAwarded: int)

  /** Points for an item: its value when correct, otherwise nothing. */
  function Award(isCorrect: bool, points: nat): int
  {
    if isCorrect then points else 0
  }

  // ----- option tags -------------------------------------------------------

  function TagName(t: OptionTag): string
  {
    match t
    case A => "A"
    case B => "B"
    case C => "C"
    case D => "D"
  }

  /** Accepts exactly the strings "A", "B", "C" and "D". */
  function ParseTag(s: string): (r: Option<OptionTag>)
    ensures r.Some? <==> s in {"A", "B", "C", "D"}
    ensures r.Some? ==> TagName(r.value) == s
  {
    if s == "A" then Some(A)
    else if s == "B" then Some(B)
    else if s == "C" then Some(C)
    else if s == "D" then Some(D)
    else None
  }

  lemma ParseTagName(t: OptionTag)
    ensures ParseTag(TagName(t)) == Some(t)
  {
  }

  // ----- multiple choice ---------------------------------------------------

  function ScoreMcq(selected: OptionTag, question: MCQQuestion): (v: Verdict)
    ensures v.isCorrect <==> selected == question.correctOption
    ensures v.pointsAwarded == if v.isCorrect then question.points else 0
    ensures 0 <= v.pointsAwarded <= question.points
    ensures v.pointsAwarded > 0 ==> v.isCorrect
  {
    var correct := selected == question.correctOption;
    Verdict(correct, Award(correct, question.points))
  }

  /** Exactly one of the four tags is marked correct for any question. */
  lemma {:induction false} ExactlyOneTagCorrect(question: MCQQuestion)
    ensures ScoreMcq(question.correctOption, question) == Verdict(true, question.points)
    ensures forall t: OptionTag :: t != question.correctOption ==> ScoreMcq(t, question) == Verdict(false, 0)
  {
  }

  // ----- Python strip() and lower() over ASCII -----------------------------

  /** `str.isspace` on ASCII: tab, line feed, vertical tab, form feed,
      carriage return, the four information separators, and space. */
  predicate IsSpace(c: char)
  {
    9 <= c as int <= 13 || 28 <= c as int <= 32
  }

  predicate AllSpace(s: string)
  {
    forall i | 0 <= i < |s| :: IsSpace(s[i])
  }

  /** Drops leading whitespace: the result is the longest suffix of `s`
      that does not start with whitespace. */
  function TrimStart(s: string): (r: string)
    ensures |r| <= |s| && r == s[|s| - |r|..]
    ensures AllSpace(s[..|s| - |r|])
    ensures r == [] || !IsSpace(r[0])
  {
    if |s| > 0 && IsSpace(s[0]) then
      var r := TrimStart(s[1..]);
      assert forall i | 1 <= i < |s| - |r| :: s[i] == s[1..][..|s| - 1 - |r|][i - 1];
      r
    else s
  }

  /** Drops trailing whitespace: the result is the longest prefix of `s`
      that does not end with whitespace. */
  function TrimEnd(s: string): (r: string)
    ensures |r| <= |s| && r == s[..|r|]
    ensures AllSpace(s[|r|..])
    ensures r == [] || !IsSpace(r[|r| - 1])
  {
    if |s| > 0 && IsSpace(s[|s| - 1]) then
      var r := TrimEnd(s[..|s| - 1]);
      assert forall i | |r| <= i < |s| - 1 :: s[i] == s[..|s| - 1][|r|..][i - |r|];
      r
    else s
  }

  /** Python's `str.strip()` with no argument. */
  function Strip(s: string): (r: string)
    ensures |r| <= |s|
  {
    TrimEnd(TrimStart(s))
  }

  /** `r` is what remains of `s` once the whitespace run `s[..i]` and the
      whitespace run after `r` are removed. */
  predicate StrippedAt(s: string, r: string, i: nat)
  {
    i + |r| <= |s| && r == s[i..i + |r|] && AllSpace(s[..i]) && AllSpace(s[i + |r|..])
  }

  /** `Strip(s)` is the middle of `s` once all leading and trailing
      whitespace is removed, and it neither starts nor ends with whitespace. */
  lemma StripSpec(s: string)
    ensures exists i: nat :: StrippedAt(s, Strip(s), i)
    ensures Strip(s) == [] || (!IsSpace(Strip(s)[0]) && !IsSpace(Strip(s)[|Strip(s)| - 1]))
  {
    var t := TrimStart(s);
    var r := TrimEnd(t);
    var i := |s| - |t|;
    assert s[i + |r|..] == t[|r|..];
    assert r == s[i..i + |r|];
    assert StrippedAt(s, r, i);
    assert r == Strip(s);
  }

  function LowerChar(c: char): char
  {
    if 'A' <= c <= 'Z' then (c as int + 32) as char else c
  }

  /** Python's `str.lower()` on ASCII letters: no capital survives, each
      capital becomes its small letter in place, everything else is kept. */
  function Lower(s: string): (r: string)
    ensures |r| == |s|
    ensures forall i | 0 <= i < |r| :: !('A' <= r[i] <= 'Z')
    ensures forall i | 0 <= i < |s| && 'A' <= s[i] <= 'Z' :: r[i] as int == s[i] as int + 32
    ensures forall i | 0 <= i < |s| && !('A' <= s[i] <= 'Z') :: r[i] == s[i]
  {
    seq(|s|, i requires 0 <= i < |s| => LowerChar(s[i]))
  }

  /** The form both sides are compared in: `strip().lower()`. */
  function Normalize(s: string): (r: string)
    ensures |r| <= |s|
  {
    Lower(Strip(s))
  }

  /** A crossword answer matches its canonical answer. */
  predicate AnswerMatches(given: string, canonical: string)
  {
    Normalize(given) == Normalize(canonical)
  }

  function ScoreCrossword(answer: string, clue: CrosswordClue): (v: Verdict)
    ensures v.isCorrect <==> AnswerMatches(answer, clue.answer)
    ensures v.pointsAwarded == if v.isCorrect then clue.points else 0
    ensures 0 <= v.pointsAwarded <= clue.points
    ensures v.pointsAwarded > 0 ==> v.isCorrect
  {
    var correct := AnswerMatches(answer, clue.answer);
    Verdict(correct, Award(correct, clue.points))
  }

  // ----- lemmas about strip and lower --------------------------------------

  lemma {:induction false} TrimStartSpacePrefix(p: string, x: string)
    requires AllSpace(p)
    ensures TrimStart(p + x) == TrimStart(x)
  {
    if p == [] {
      assert p + x == x;
    } else {
      assert (p + x)[1..] == p[1..] + x;
      TrimStartSpacePrefix(p[1..], x);
    }
  }

  lemma {:induction false} TrimStartAppend(x: string, q: string)
    requires !AllSpace(x)
    ensures TrimStart(x + q) == TrimStart(x) + q
  {
    if IsSpace(x[0]) {
      assert (x + q)[1..] == x[1..] + q;
      TrimStartAppend(x[1..], q);
    }
  }

  lemma {:induction false} TrimEndSpaceSuffix(x: string, q: string)
    requires AllSpace(q)
    ensures TrimEnd(x + q) == TrimEnd(x)
  {
    if q == [] {
      assert x + q == x;
    } else {
      assert (x + q)[..|x + q| - 1] == x + q[..|q| - 1];
      TrimEndSpaceSuffix(x, q[..|q| - 1]);
    }
  }

  /** Whitespace around an answer does not change what it strips to. */
  lemma StripPadded(p: string, m: string, q: string)
    requires AllSpace(p) && AllSpace(q)
    ensures Strip(p + m + q) == Strip(m)
  {
    assert p + m + q == p + (m + q);
    TrimStartSpacePrefix(p, m + q);
    if AllSpace(m) {
      assert AllSpace(m + q);
      TrimStartSpacePrefix(m + q, []);
      assert m + q + [] == m + q;
      TrimStartSpacePrefix(m, []);
      assert m + [] == m;
    } else {
      TrimStartAppend(m, q);
      TrimEndSpaceSuffix(TrimStart(m), q);
    }
  }

  lemma {:induction false} TrimStartLower(s: string)
    ensures TrimStart(Lower(s)) == Lower(TrimStart(s))
  {
    if |s| > 0 && IsSpace(s[0]) {
      assert Lower(s)[1..] == Lower(s[1..]);
      TrimStartLower(s[1..]);
    }
  }

  lemma {:induction false} TrimEndLower(s: string)
    ensures TrimEnd(Lower(s)) == Lower(TrimEnd(s))
  {
    if |s| > 0 && IsSpace(s[|s| - 1]) {
      assert Lower(s)[..|s| - 1] == Lower(s[..|s| - 1]);
      TrimEndLower(s[..|s| - 1]);
    }
  }

  /** Stripping and lower-casing commute. */
  lemma StripLower(s: string)
    ensures Strip(Lower(s)) == Lower(Strip(s))
  {
    TrimStartLower(s);
    TrimEndLower(TrimStart(s));
  }

  lemma LowerIdempotent(s: string)
    ensures Lower(Lower(s)) == Lower(s)
  {
  }

  lemma StripIdempotent(s: string)
    ensures Strip(Strip(s)) == Strip(s)
  {
    StripSpec(s);
    StripUnpadded(Strip(s));
  }

  /** Normalizing twice is the same as normalizing once. */
  lemma NormalizeIdempotent(s: string)
    ensures Normalize(Normalize(s)) == Normalize(s)
  {
    StripLower(Strip(s));
    StripIdempotent(s);
    LowerIdempotent(Strip(s));
  }

  /** Answers equal up to ASCII case are judged alike. */
  lemma CaseInsensitive(s1: string, s2: string, canonical: string)
    requires Lower(s1) == Lower(s2)
    ensures AnswerMatches(s1, canonical) <==> AnswerMatches(s2, canonical)
  {
    StripLower(s1);
    StripLower(s2);
    LowerIdempotent(Strip(s1));
    LowerIdempotent(Strip(s2));
  }

  /** Leading and trailing whitespace on an answer is ignored. */
  lemma WhitespaceInsensitive(p: string, s: string, q: string, canonical: string)
    requires AllSpace(p) && AllSpace(q)
    ensures AnswerMatches(p + s + q, canonical) <==> AnswerMatches(s, canonical)
  {
    StripPadded(p, s, q);
  }

  /** A string without surrounding whitespace strips to itself. */
  lemma StripUnpadded(m: string)
    requires m == [] || (!IsSpace(m[0]) && !IsSpace(m[|m| - 1]))
    ensures Strip(m) == m
  {
  }

  lemma LowerPointwise(x: string, y: string)
    requires |x| == |y|
    requires forall i | 0 <= i < |x| :: LowerChar(x[i]) == LowerChar(y[i])
    ensures Lower(x) == Lower(y)
  {
  }

  /** " Cat " matches the canonical answer "CAT". The strings are passed as
      parameters so that the solver does not unfold the functions on
      literals. */
  lemma PaddedMixedCaseMatches(given: string, canonical: string)
    requires given == " Cat " && canonical == "CAT"
    ensures AnswerMatches(given, canonical)
  {
    var w := given[1..4];
    assert w == ['C', 'a', 't'];
    assert Lower(w) == Lower(canonical) by { LowerPointwise(w, canonical); }
    assert Strip(given) == w by {
      assert given == given[..1] + w + given[4..];
      StripPadded(given[..1], w, given[4..]);
      StripUnpadded(w);
    }
    assert Strip(canonical) == canonical by { StripUnpadded(canonical); }
  }

  /** Two strings without surrounding whitespace match when they agree
      letter by letter up to case. */
  lemma UnpaddedSameLowerMatch(x: string, y: string)
    requires x == [] || (!IsSpace(x[0]) && !IsSpace(x[|x| - 1]))
    requires y == [] || (!IsSpace(y[0]) && !IsSpace(y[|y| - 1]))
    requires |x| == |y|
    requires forall i | 0 <= i < |x| :: LowerChar(x[i]) == LowerChar(y[i])
    ensures AnswerMatches(x, y)
  {
    StripUnpadded(x);
    StripUnpadded(y);
    LowerPointwise(x, y);
  }

  /** "cat" matches the canonical answer "CAT". */
  lemma LowerCaseMatches(given: string, canonical: string)
    requires given == "cat" && canonical == "CAT"
    ensures AnswerMatches(given, canonical)
  {
    UnpaddedSameLowerMatch(given, canonical);
  }

  /** Two strings without surrounding whitespace and of different lengths
      never match. */
  lemma UnpaddedLengthMismatch(x: string, y: string)
    requires x == [] || (!IsSpace(x[0]) && !IsSpace(x[|x| - 1]))
    requires y == [] || (!IsSpace(y[0]) && !IsSpace(y[|y| - 1]))
    requires |x| != |y|
    ensures !AnswerMatches(x, y)
  {
    StripUnpadded(x);
    StripUnpadded(y);
  }

  /** No fuzzy matching: an extra letter or an inner space does not match. */
  lemma NoFuzzyMatch(given: string, canonical: string)
    requires given in {"cats", "c at"} && canonical == "CAT"
    ensures !AnswerMatches(given, canonical)
  {
    assert |given| == 4 && given[0] == 'c' && given[3] in {'s', 't'};
    UnpaddedLengthMismatch(given, canonical);
  }
}
