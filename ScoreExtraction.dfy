/**
 * The match score read from the model's answer (app.py:168-169). The answer
 * is searched for the label `MATCH_SCORE:`, optional whitespace and one or
 * more digits; the digits, read as a decimal integer, are the score, and
 * the score is 0 when the search finds nothing.
 *
 * `re.search` scans for the leftmost position where the pattern matches.
 * `\s*` and `\d+` are greedy, and since no character is both whitespace
 * and a digit, the whitespace never has to give anything back: an
 * occurrence of the label is usable exactly when the first non-whitespace
 * character after it is a digit, and the group is the maximal digit run
 * that starts there.
 *
 * The computed side (SkipSpaces, DigitRunEnd, UsableAt, FirstMatch,
 * ExtractScore) is tied to the declarative side (MatchesAt, CapturesAt)
 * by the lemmas below.
 */
module ScoreExtraction {
  import opened Wrappers

  /** The literal the pattern starts with; matched case-sensitively. */
  const Label: string := "MATCH_SCORE:"

  /** `\d`: an ASCII decimal digit. */
  predicate IsDigit(c: char) {
    '0' <= c <= '9'
  }

  /**
   * `\s`: the ASCII characters for which Python's `str.isspace` holds —
   * tab, line feed, vertical tab, form feed, carriage return (9-13), the
   * four information separators (28-31) and space (32).
   */
  predicate IsSpace(c: char) {
    var n := c as int;
    (9 <= n <= 13) || (28 <= n <= 32)
  }

  predicate AllDigits(ds: string) {
    forall t :: 0 <= t < |ds| ==> IsDigit(ds[t])
  }

  predicate DigitsBetween(s: string, lo: nat, hi: nat)
    requires lo <= hi <= |s|
  {
    forall t :: lo <= t < hi ==> IsDigit(s[t])
  }

  predicate AllSpaces(s: string, lo: nat, hi: nat)
    requires lo <= hi <= |s|
  {
    forall t :: lo <= t < hi ==> IsSpace(s[t])
  }

  function DigitValue(c: char): (d: nat)
    requires IsDigit(c)
    ensures d < 10
  {
    c as int - '0' as int
  }

  function DigitChar(d: nat): (c: char)
    requires d < 10
    ensures IsDigit(c) && DigitValue(c) == d
  {
    ('0' as int + d) as char
  }

  function Pow10(n: nat): (r: nat)
    ensures r >= 1
  {
    if n == 0 then 1 else 10 * Pow10(n - 1)
  }

  /** The number a run of digits denotes, read as `int` reads it: base 10, leading zeros allowed. */
  function DecimalValue(ds: string): nat
    requires AllDigits(ds)
  {
    if |ds| == 0 then 0 else 10 * DecimalValue(ds[..|ds| - 1]) + DigitValue(ds[|ds| - 1])
  }

  /** The canonical decimal spelling of n (no sign, no leading zero): the inverse of DecimalValue. */
  function ToDecimal(n: nat): (ds: string)
    ensures |ds| > 0 && AllDigits(ds)
    ensures ds[0] == '0' ==> n == 0
    decreases n
  {
    if n < 10 then [DigitChar(n)] else ToDecimal(n / 10) + [DigitChar(n % 10)]
  }

  /** The label occurs in s at position i (no anchoring: any position will do). */
  predicate LabelAt(s: string, i: nat) {
    i + |Label| <= |s| && s[i..i + |Label|] == Label
  }

  /** The end of the maximal run of whitespace in s that starts at k (greedy `\s*`). */
  function SkipSpaces(s: string, k: nat): (j: nat)
    requires k <= |s|
    ensures k <= j <= |s| && AllSpaces(s, k, j)
    ensures j == |s| || !IsSpace(s[j])
    decreases |s| - k
  {
    if k < |s| && IsSpace(s[k]) then SkipSpaces(s, k + 1) else k
  }

  /** The end of the maximal run of digits in s that starts at k (greedy `\d+`). */
  function DigitRunEnd(s: string, k: nat): (m: nat)
    requires k <= |s|
    ensures k <= m <= |s| && DigitsBetween(s, k, m)
    ensures m == |s| || !IsDigit(s[m])
    decreases |s| - k
  {
    if k < |s| && IsDigit(s[k]) then DigitRunEnd(s, k + 1) else k
  }

  /** The pattern matches at i: after the label and its whitespace comes a digit. */
  predicate UsableAt(s: string, i: nat) {
    LabelAt(s, i) && SkipSpaces(s, i + |Label|) < |s| && IsDigit(s[SkipSpaces(s, i + |Label|)])
  }

  /** The regular-expression reading of a match at i, with no reference to how it is found. */
  ghost predicate MatchesAt(s: string, i: nat) {
    LabelAt(s, i) &&
    exists k :: i + |Label| <= k < |s| && AllSpaces(s, i + |Label|, k) && IsDigit(s[k])
  }

  /** A match at i whose whitespace is s[i + |Label|..k] and whose group(1) is s[k..m]. */
  ghost predicate CapturesAt(s: string, i: nat, k: nat, m: nat) {
    LabelAt(s, i) && i + |Label| <= k < m <= |s| &&
    AllSpaces(s, i + |Label|, k) && DigitsBetween(s, k, m) &&
    (m == |s| || !IsDigit(s[m]))
  }

  /** The digits of s[k..m] as a string of their own. */
  function DigitSlice(s: string, k: nat, m: nat): (ds: string)
    requires k <= m <= |s| && DigitsBetween(s, k, m)
    ensures |ds| == m - k && AllDigits(ds)
  {
    assert forall t :: 0 <= t < m - k ==> s[k..m][t] == s[k + t];
    s[k..m]
  }

  /** The match `re.search` reports: a capture at i, and no match anywhere before i. */
  ghost predicate LeftmostCapture(s: string, i: nat, k: nat, m: nat) {
    CapturesAt(s, i, k, m) && forall j :: 0 <= j < i ==> !MatchesAt(s, j)
  }

  /** The value of group(1) of a match at i. */
  function ScoreAt(s: string, i: nat): nat
    requires UsableAt(s, i)
  {
    var k := SkipSpaces(s, i + |Label|);
    DecimalValue(DigitSlice(s, k, DigitRunEnd(s, k)))
  }

  /** The leftmost position at or after i where the pattern matches, as `re.search` scans. */
  function FirstMatch(s: string, i: nat): (r: Option<nat>)
    requires i <= |s|
    ensures r.Some? ==> i <= r.value < |s| && UsableAt(s, r.value)
    ensures forall j :: i <= j < (if r.Some? then r.value else |s|) ==> !UsableAt(s, j)
    decreases |s| - i
  {
    if i == |s| then None
    else if UsableAt(s, i) then Some(i)
    else FirstMatch(s, i + 1)
  }

  /** The score shown to the user: group(1) of the leftmost match as an integer, else 0. */
  function ExtractScore(s: string): nat {
    match FirstMatch(s, 0)
    case None => 0
    case Some(p) => ScoreAt(s, p)
  }

  // ---------------------------------------------------------------------
  // The computed search agrees with the regular-expression reading.
  // ---------------------------------------------------------------------

  /** Whitespace need not backtrack: the pattern matches at i exactly when the scan finds a digit. */
  lemma UsableIffMatches(s: string, i: nat)
    ensures UsableAt(s, i) <==> MatchesAt(s, i)
  {
  }

  /** group(1) is determined by the match position: whitespace and digit runs are both maximal. */
  lemma {:induction false} CaptureUnique(s: string, i: nat, k: nat, m: nat, k': nat, m': nat)
    requires CapturesAt(s, i, k, m) && CapturesAt(s, i, k', m')
    ensures k == k' && m == m'
  {
    assert IsDigit(s[k]) && IsDigit(s[k']);
    assert k == k';
    assert m < |s| ==> !IsDigit(s[m]);
    assert m' < |s| ==> !IsDigit(s[m']);
  }

  /** The computed score at a match position is the value of its capture. */
  lemma ScoreAtIsCapture(s: string, i: nat)
    requires UsableAt(s, i)
    ensures CapturesAt(s, i, SkipSpaces(s, i + |Label|), DigitRunEnd(s, SkipSpaces(s, i + |Label|)))
  {
  }

  /**
   * The leftmost match decides the score: if the pattern matches at i with
   * group(1) = s[k..m] and at no earlier position, the score is the value
   * of s[k..m]. A later occurrence never overrides an earlier usable one.
   */
  lemma ScoreOfLeftmostMatch(s: string, i: nat, k: nat, m: nat)
    requires CapturesAt(s, i, k, m)
    requires forall j :: 0 <= j < i ==> !MatchesAt(s, j)
    ensures ExtractScore(s) == DecimalValue(DigitSlice(s, k, m))
  {
    assert IsDigit(s[k]);
    UsableIffMatches(s, i);
    var r := FirstMatch(s, 0);
    if r.Some? {
      UsableIffMatches(s, r.value);
    }
    assert r == Some(i);
    ScoreAtIsCapture(s, i);
    var k' := SkipSpaces(s, i + |Label|);
    CaptureUnique(s, i, k, m, k', DigitRunEnd(s, k'));
  }

  /** With no usable occurrence of the label (or none at all), the score is 0. */
  lemma NoMatchScoresZero(s: string)
    requires forall i :: 0 <= i < |s| ==> !MatchesAt(s, i)
    ensures ExtractScore(s) == 0
  {
    var r := FirstMatch(s, 0);
    if r.Some? {
      UsableIffMatches(s, r.value);
    }
  }

  /** A non-zero score comes from a match of the pattern. */
  lemma NonzeroScoreHasMatch(s: string)
    requires ExtractScore(s) != 0
    ensures exists i :: 0 <= i < |s| && MatchesAt(s, i)
  {
    var p := FirstMatch(s, 0).value;
    UsableIffMatches(s, p);
  }

  /** FirstMatch skips only positions where the pattern does not match. */
  lemma FirstMatchIsLeftmost(s: string)
    ensures forall j :: 0 <= j < (if FirstMatch(s, 0).Some? then FirstMatch(s, 0).value else |s|) ==> !MatchesAt(s, j)
  {
    var r := FirstMatch(s, 0);
    forall j | 0 <= j < (if r.Some? then r.value else |s|)
      ensures !MatchesAt(s, j)
    {
      UsableIffMatches(s, j);
    }
  }

  // ---------------------------------------------------------------------
  // The search is unanchored.
  // ---------------------------------------------------------------------

  /** A match in p + s at or after |p| is a match in s. */
  lemma ShiftMatches(p: string, s: string, j: nat)
    requires MatchesAt(p + s, |p| + j)
    ensures MatchesAt(s, j)
  {
    var ps := p + s;
    var k :| |p| + j + |Label| <= k < |ps| && AllSpaces(ps, |p| + j + |Label|, k) && IsDigit(ps[k]);
    assert s[j..j + |Label|] == ps[|p| + j..|p| + j + |Label|];
    assert forall t :: j + |Label| <= t < k - |p| ==> s[t] == ps[|p| + t];
    assert IsDigit(s[k - |p|]);
  }

  /** A match one position into "M" + x is a match of x. */
  lemma ShiftMatchesBack(x: string, j: nat)
    requires MatchesAt("M" + x, j + 1)
    ensures MatchesAt(x, j)
  {
    ShiftMatches("M", x, j);
  }

  /** A capture in s is the same capture, shifted by |p|, in p + s. */
  lemma ShiftCaptures(p: string, s: string, i: nat, k: nat, m: nat)
    requires CapturesAt(s, i, k, m)
    ensures CapturesAt(p + s, |p| + i, |p| + k, |p| + m)
    ensures DigitSlice(p + s, |p| + k, |p| + m) == DigitSlice(s, k, m)
  {
  }

  /** No match of p + s starts inside a prefix p that has no `M`. */
  lemma NoMatchInPrefix(p: string, s: string)
    requires forall t :: 0 <= t < |p| ==> p[t] != 'M'
    ensures forall j :: 0 <= j < |p| ==> !MatchesAt(p + s, j)
  {
    var ps := p + s;
    forall j | 0 <= j < |p|
      ensures !LabelAt(ps, j)
    {
      assert ps[j] == p[j];
    }
  }

  /** A match of p + s at or after |p|, and before |p| + e, is a match of s before e. */
  lemma NoMatchAfterPrefix(p: string, s: string, e: nat)
    requires forall j :: 0 <= j < e ==> !MatchesAt(s, j)
    ensures forall j :: |p| <= j < |p| + e ==> !MatchesAt(p + s, j)
  {
    forall j | |p| <= j < |p| + e
      ensures !MatchesAt(p + s, j)
    {
      if MatchesAt(p + s, j) {
        ShiftMatches(p, s, j - |p|);
      }
    }
  }

  /** Positions before |p| where the pattern does not match do not affect the score of p + s. */
  lemma NonMatchingPrefixIgnored(p: string, s: string)
    requires forall j :: 0 <= j < |p| ==> !MatchesAt(p + s, j)
    ensures ExtractScore(p + s) == ExtractScore(s)
  {
    FirstMatchIsLeftmost(s);
    if FirstMatch(s, 0).None? {
      NoMatchAfterPrefix(p, s, |s|);
      NoMatchScoresZero(p + s);
    } else {
      ShiftedLeftmost(p, s, FirstMatch(s, 0).value);
    }
  }

  lemma ShiftedLeftmost(p: string, s: string, i: nat)
    requires forall j :: 0 <= j < |p| ==> !MatchesAt(p + s, j)
    requires forall j :: 0 <= j < i ==> !MatchesAt(s, j)
    requires UsableAt(s, i)
    ensures ExtractScore(p + s) == ExtractScore(s)
  {
    var k := SkipSpaces(s, i + |Label|);
    var m := DigitRunEnd(s, k);
    ScoreAtIsCapture(s, i);
    ScoreOfLeftmostMatch(s, i, k, m);
    ShiftedCaptureScore(p, s, i, k, m);
  }

  lemma ShiftedCaptureScore(p: string, s: string, i: nat, k: nat, m: nat)
    requires forall j :: 0 <= j < |p| ==> !MatchesAt(p + s, j)
    requires forall j :: 0 <= j < i ==> !MatchesAt(s, j)
    requires CapturesAt(s, i, k, m)
    ensures ExtractScore(p + s) == DecimalValue(DigitSlice(s, k, m))
  {
    ShiftCaptures(p, s, i, k, m);
    NoMatchAfterPrefix(p, s, i);
    ScoreOfLeftmostMatch(p + s, |p| + i, |p| + k, |p| + m);
  }

  /**
   * Text before the label is ignored: prefixing a response with text that
   * cannot start the label (it has no `M`) leaves the score unchanged.
   */
  lemma PrefixIgnored(p: string, s: string)
    requires forall t :: 0 <= t < |p| ==> p[t] != 'M'
    ensures ExtractScore(p + s) == ExtractScore(s)
  {
    NoMatchInPrefix(p, s);
    NonMatchingPrefixIgnored(p, s);
  }

  /**
   * An occurrence of the label whose first non-whitespace character is not
   * a digit (`MATCH_SCORE: N/A`, `MATCH_SCORE: <0-100>`, `MATCH_SCORE: -5`,
   * or a second label right after the first) is skipped, and the search
   * goes on in the text after its whitespace.
   */
  lemma UnusableOccurrenceSkipped(ws: string, s: string)
    requires forall t :: 0 <= t < |ws| ==> IsSpace(ws[t])
    requires s != [] && !IsSpace(s[0]) && !IsDigit(s[0])
    ensures ExtractScore(Label + ws + s) == ExtractScore(s)
  {
    UnusableLabelNoMatch(ws, s);
    LabelTailNoMatch(ws, s);
    NonMatchingPrefixIgnored(Label + ws, s);
  }

  /** The label itself does not match when its first non-whitespace character is not a digit. */
  lemma UnusableLabelNoMatch(ws: string, s: string)
    requires forall t :: 0 <= t < |ws| ==> IsSpace(ws[t])
    requires s != [] && !IsSpace(s[0]) && !IsDigit(s[0])
    ensures !MatchesAt(Label + ws + s, 0)
  {
    var ps := Label + ws + s;
    assert ps[..|Label|] == Label;
    assert forall t :: |Label| <= t < |Label| + |ws| ==> ps[t] == ws[t - |Label|];
    assert ps[|Label| + |ws|] == s[0];
    assert SkipSpaces(ps, |Label|) == |Label| + |ws|;
    UsableIffMatches(ps, 0);
  }

  /** No match starts inside the label or its whitespace, after the label's first character. */
  lemma LabelTailNoMatch(ws: string, s: string)
    requires forall t :: 0 <= t < |ws| ==> IsSpace(ws[t])
    ensures forall j :: 0 < j < |Label| + |ws| ==> !MatchesAt(Label + ws + s, j)
  {
    var q := Label[1..] + ws;
    assert Label + ws + s == "M" + (q + s);
    forall t | 0 <= t < |q|
      ensures q[t] != 'M'
    {
      if t < |Label| - 1 {
        assert q[t] == Label[t + 1];
      }
    }
    NoMatchInPrefix(q, s);
    forall j | 0 < j < |Label| + |ws|
      ensures !MatchesAt("M" + (q + s), j)
    {
      if MatchesAt("M" + (q + s), j) {
        ShiftMatchesBack(q + s, j - 1);
      }
    }
  }

  // ---------------------------------------------------------------------
  // Reading digits.
  // ---------------------------------------------------------------------

  /** Leading zeros do not change the value: `int("007") == 7`. */
  lemma {:induction false} LeadingZeroIgnored(ds: string)
    requires AllDigits(ds)
    ensures AllDigits("0" + ds) && DecimalValue("0" + ds) == DecimalValue(ds)
  {
    if |ds| > 0 {
      var zs := "0" + ds;
      assert zs[..|zs| - 1] == "0" + ds[..|ds| - 1];
      LeadingZeroIgnored(ds[..|ds| - 1]);
    }
  }

  /** A run of n digits denotes a number below 10^n: a score of at most two digits is below 100. */
  lemma {:induction false} DecimalValueBound(ds: string)
    requires AllDigits(ds)
    ensures DecimalValue(ds) < Pow10(|ds|)
  {
    if |ds| > 0 {
      DecimalValueBound(ds[..|ds| - 1]);
    }
  }

  /** Every natural number is read back from its decimal spelling; there is no upper bound. */
  lemma {:induction false} DecimalRoundTrip(n: nat)
    ensures DecimalValue(ToDecimal(n)) == n
    decreases n
  {
    if n >= 10 {
      var ds := ToDecimal(n);
      assert ds[..|ds| - 1] == ToDecimal(n / 10);
      DecimalRoundTrip(n / 10);
    }
  }

  /**
   * A well-formed answer `MATCH_SCORE:` + whitespace + the decimal spelling
   * of n, followed by anything that does not continue the number, scores
   * exactly n, for every n: the score is not clamped to 0-100.
   */
  lemma ScoreRoundTrip(n: nat, ws: string, rest: string)
    requires forall t :: 0 <= t < |ws| ==> IsSpace(ws[t])
    requires rest == [] || !IsDigit(rest[0])
    ensures ExtractScore(Label + ws + ToDecimal(n) + rest) == n
  {
    var ds := ToDecimal(n);
    var s := Label + ws + ds + rest;
    var k := |Label| + |ws|;
    var m := k + |ds|;
    assert s[..|Label|] == Label;
    assert forall t :: |Label| <= t < k ==> s[t] == ws[t - |Label|];
    assert forall t :: k <= t < m ==> s[t] == ds[t - k];
    assert m < |s| ==> s[m] == rest[0];
    assert s[k..m] == ds;
    ScoreOfLeftmostMatch(s, 0, k, m);
    DecimalRoundTrip(n);
  }
}
