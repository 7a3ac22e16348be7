/**
 * Edge cases of the score pattern `MATCH_SCORE:\s*(\d+)` on concrete model
 * answers (app.py:168-169), each derived from the general lemmas.
 */
module ScoreExamples {
  import opened ScoreExtraction

  /** No label at all: the score defaults to 0. */
  lemma EmptyAnswerScoresZero()
    ensures ExtractScore("") == 0
  {
  }

  /** The label is matched case-sensitively: a lower-case label is not a label. */
  lemma LowerCaseLabelScoresZero()
    ensures ExtractScore("match_score: 5") == 0
  {
    PrefixIgnored("match_score: 5", "");
    assert "match_score: 5" + "" == "match_score: 5";
  }

  /** The template's own format line, echoed back, yields no score. */
  lemma TemplatePlaceholderScoresZero()
    ensures ExtractScore("MATCH_SCORE: <0-100>") == 0
  {
    assert Label + " " + "<0-100>" == "MATCH_SCORE: <0-100>";
    assert "<0-100>" + "" == "<0-100>";
    UnusableOccurrenceSkipped(" ", "<0-100>");
    PrefixIgnored("<0-100>", "");
  }

  /** No sign is accepted, so the score is never negative: `-5` is not a match. */
  lemma NegativeScoreNotRead()
    ensures ExtractScore("MATCH_SCORE: -5") == 0
  {
    assert Label + " " + "-5" == "MATCH_SCORE: -5";
    assert "-5" + "" == "-5";
    UnusableOccurrenceSkipped(" ", "-5");
    PrefixIgnored("-5", "");
  }

  /** An unusable occurrence is skipped and a later usable one is read. */
  lemma PlaceholderThenScore()
    ensures ExtractScore("MATCH_SCORE: N/A\nMATCH_SCORE: 64") == 64
  {
    var second := "MATCH_SCORE: 64";
    var rest := "N/A\n" + second;
    assert Label + " " + rest == "MATCH_SCORE: N/A\nMATCH_SCORE: 64";
    assert ToDecimal(64) == "64";
    assert Label + " " + ToDecimal(64) + "" == second;
    ScoreRoundTrip(64, " ", "");
    PrefixIgnored("N/A\n", second);
    UnusableOccurrenceSkipped(" ", rest);
  }



  /** A label directly followed by another label is skipped; the second one is read. */
  lemma LabelAfterLabel()
    ensures ExtractScore("MATCH_SCORE: MATCH_SCORE: 70") == 70
  {
    assert ToDecimal(70) == "70";
    assert Label + " " + ToDecimal(70) + "" == "MATCH_SCORE: 70";
    assert Label + " " + "MATCH_SCORE: 70" == "MATCH_SCORE: MATCH_SCORE: 70";
    UnusableOccurrenceSkipped(" ", "MATCH_SCORE: 70");
    ScoreRoundTrip(70, " ", "");
  }

  /** Of two usable occurrences the first one wins. */
  lemma FirstOccurrenceWins()
    ensures ExtractScore("MATCH_SCORE: 82\nMATCH_SCORE: 40") == 82
  {
    assert ToDecimal(82) == "82";
    assert Label + " " + ToDecimal(82) + "\nMATCH_SCORE: 40" == "MATCH_SCORE: 82\nMATCH_SCORE: 40";
    ScoreRoundTrip(82, " ", "\nMATCH_SCORE: 40");
  }

  /** The score is not clamped to 100. */
  lemma ScoreAboveHundredKept()
    ensures ExtractScore("MATCH_SCORE: 150") == 150
  {
    assert ToDecimal(150) == "150";
    assert Label + " " + ToDecimal(150) + "" == "MATCH_SCORE: 150";
    ScoreRoundTrip(150, " ", "");
  }

  /** Leading zeros are read as `int` reads them, and no space is needed after the colon. */
  lemma LeadingZerosDropped()
    ensures ExtractScore("MATCH_SCORE:007") == 7
  {
    var s := "MATCH_SCORE:007";
    assert s[..|Label|] == Label;
    ScoreOfLeftmostMatch(s, 0, 12, 15);
    assert DigitSlice(s, 12, 15) == "0" + ("0" + ToDecimal(7));
    LeadingZeroIgnored(ToDecimal(7));
    LeadingZeroIgnored("0" + ToDecimal(7));
    DecimalRoundTrip(7);
  }

  /** The search is unanchored: the label may sit inside a longer word. */
  lemma LabelInsideWord()
    ensures ExtractScore("XMATCH_SCORE: 5") == 5
  {
    assert ToDecimal(5) == "5";
    assert Label + " " + ToDecimal(5) + "" == "MATCH_SCORE: 5";
    assert "X" + "MATCH_SCORE: 5" == "XMATCH_SCORE: 5";
    PrefixIgnored("X", "MATCH_SCORE: 5");
    ScoreRoundTrip(5, " ", "");
  }

  /** `\s*` spans line breaks and tabs. */
  lemma WhitespaceIncludesNewlines()
    ensures ExtractScore("MATCH_SCORE:\n\t 9") == 9
  {
    assert ToDecimal(9) == "9";
    assert Label + "\n\t " + ToDecimal(9) + "" == "MATCH_SCORE:\n\t 9";
    ScoreRoundTrip(9, "\n\t ", "");
  }

  /** The digit run ends at the first non-digit: `8 5` reads as 8. */
  lemma DigitRunStopsAtSpace()
    ensures ExtractScore("MATCH_SCORE: 8 5") == 8
  {
    assert ToDecimal(8) == "8";
    assert Label + " " + ToDecimal(8) + " 5" == "MATCH_SCORE: 8 5";
    ScoreRoundTrip(8, " ", " 5");
  }
}
