/**
 * One press of "Analyze Resume" once a file is uploaded (app.py:164-169):
 * the resume text comes from the PDF reader (`None` when it failed), and
 * only truthy text is analysed. The model is a parameter: the prompt goes
 * in, the answer text comes out.
 */
module Pipeline {
  import opened Wrappers
  import opened ScoreExtraction
  import opened Prompt

  /** What one analysis produces: the prompt sent, the raw answer (shown unchanged) and its score. */
  datatype Analysis = Analysis(prompt: string, response: string, score: nat)

  /** `if text:` ... `get_ai_suggestions(text, job_desc)` ... score extraction. */
  function Analyze(text: Option<string>, jd: Option<string>, model: string -> string): (r: Option<Analysis>)
    ensures r.Some? <==> Truthy(text)
    ensures r.Some? ==> |Preamble| + |text.value| + |JobHeading| + |Closing| <= |r.value.prompt|
    ensures r.Some? ==> ResumeOf(r.value.prompt, |text.value|) == text.value
    ensures r.Some? ==> JobOf(r.value.prompt, |text.value|) == JobField(jd)
    ensures r.Some? ==> r.value.response == model(r.value.prompt)
    ensures r.Some? ==> r.value.prompt == BuildPrompt(text.value, jd)
    ensures r.Some? ==> r.value.score == ExtractScore(r.value.response)
  {
    if Truthy(text) then
      var prompt := BuildPrompt(text.value, jd);
      PromptRoundTrip(text.value, jd);
      var response := model(prompt);
      Some(Analysis(prompt, response, ExtractScore(response)))
    else
      None
  }

  /** A failed or empty extraction produces no analysis and no score. */
  lemma NoTextNoScore(jd: Option<string>, model: string -> string)
    ensures Analyze(None, jd, model) == None
    ensures Analyze(Some(""), jd, model) == None
  {
  }

  /**
   * The score of an analysis is the value of group(1) of the answer's
   * leftmost match of the pattern, and 0 when the answer has no match.
   */
  lemma AnalysisScore(text: string, jd: Option<string>, model: string -> string)
    requires text != []
    ensures Analyze(Some(text), jd, model).Some?
    ensures var answer := Analyze(Some(text), jd, model).value.response;
      forall i: nat, k: nat, m: nat | LeftmostCapture(answer, i, k, m) ::
        Analyze(Some(text), jd, model).value.score == DecimalValue(DigitSlice(answer, k, m))
    ensures var answer := Analyze(Some(text), jd, model).value.response;
      (forall i: nat :: i < |answer| ==> !MatchesAt(answer, i)) ==>
        Analyze(Some(text), jd, model).value.score == 0
  {
    var answer := Analyze(Some(text), jd, model).value.response;
    forall i: nat, k: nat, m: nat | LeftmostCapture(answer, i, k, m)
      ensures ExtractScore(answer) == DecimalValue(DigitSlice(answer, k, m))
    {
      ScoreOfLeftmostMatch(answer, i, k, m);
    }
    if forall i: nat :: i < |answer| ==> !MatchesAt(answer, i) {
      NoMatchScoresZero(answer);
    }
  }

  /**
   * A resume, and an answer in the requested format, end to end: the score
   * is 82 and the answer is kept as the feedback text.
   */
  lemma CannedAnswer(jd: Option<string>)
    ensures var answer := "MATCH_SCORE: 82\n### Summary\nGood fit";
      Analyze(Some("Experienced Python developer"), jd, _ => answer) ==
        Some(Analysis(BuildPrompt("Experienced Python developer", jd), answer, 82))
  {
    var answer := "MATCH_SCORE: 82\n### Summary\nGood fit";
    assert ToDecimal(82) == "82";
    assert Label + " " + ToDecimal(82) + "\n### Summary\nGood fit" == answer;
    ScoreRoundTrip(82, " ", "\n### Summary\nGood fit");
  }
}
