/**
 * The request sent to the model (`get_ai_suggestions`, app.py:116-136): one
 * f-string with two holes, the resume text and the job description. The
 * template's line breaks are `\n` (Python normalises the source file's line
 * endings before reading the literal).
 */
module Prompt {
  import opened Wrappers

  /** Everything up to and including the `RESUME:` heading line. */
  const Preamble: string :=
    "\nYou are a professional ATS Resume Analyst.\n\nReturn strictly in this format:\n\n" +
    "MATCH_SCORE: <0-100>\nANALYSIS:\n- Summary feedback\n\n" +
    "IMPROVEMENTS:\n- STAR-based bullet points\n\n" +
    "KEYWORDS:\n- Missing skills list\n\n" +
    "RESUME:\n"

  /** The text between the resume and the job description. */
  const JobHeading: string := "\n\nJOB DESCRIPTION:\n"

  /** The line break that closes the template. */
  const Closing: string := "\n"

  /** What stands in for a missing or empty job description. */
  const DefaultJob: string := "General optimization"

  /** Python truthiness of an optional string: `None` and `""` are false, anything else is true. */
  predicate Truthy(o: Option<string>) {
    o.Some? && o.value != []
  }

  /** `job_description if job_description else "General optimization"`. */
  function JobField(jd: Option<string>): (f: string)
    ensures f != []
  {
    if Truthy(jd) then jd.value else DefaultJob
  }

  /** The complete prompt for a resume text and an optional job description. */
  function BuildPrompt(resume: string, jd: Option<string>): (p: string)
    ensures |p| == |Preamble| + |resume| + |JobHeading| + |JobField(jd)| + |Closing|
  {
    Preamble + resume + JobHeading + JobField(jd) + Closing
  }

  /** The resume hole of a prompt whose resume has n characters. */
  function ResumeOf(p: string, n: nat): string
    requires |Preamble| + n <= |p|
  {
    p[|Preamble|..|Preamble| + n]
  }

  /** The job-description hole of a prompt whose resume has n characters. */
  function JobOf(p: string, n: nat): string
    requires |Preamble| + n + |JobHeading| + |Closing| <= |p|
  {
    p[|Preamble| + n + |JobHeading|..|p| - |Closing|]
  }

  /**
   * Both holes are filled verbatim and untruncated: reading them back out
   * of the prompt gives the resume and the job field, and the fixed text
   * around them is the template's.
   */
  lemma PromptRoundTrip(resume: string, jd: Option<string>)
    ensures var p := BuildPrompt(resume, jd);
      ResumeOf(p, |resume|) == resume && JobOf(p, |resume|) == JobField(jd)
  {
  }

  /**
   * The resume sits immediately after the `RESUME:` line and immediately
   * before the `JOB DESCRIPTION:` heading, and the prompt ends with the
   * job field and a line break.
   */
  lemma PromptLayout(resume: string, jd: Option<string>)
    ensures var p := BuildPrompt(resume, jd);
      var a := |Preamble| + |resume|;
      p[..|Preamble|] == Preamble &&
      p[a..a + |JobHeading|] == JobHeading &&
      p[|p| - |Closing|..] == Closing
  {
  }

  /**
   * Two prompts that agree, built from resumes of the same length, come
   * from the same resume and the same job field: nothing is lost or merged.
   */
  lemma PromptInjective(r1: string, j1: Option<string>, r2: string, j2: Option<string>)
    requires |r1| == |r2| && BuildPrompt(r1, j1) == BuildPrompt(r2, j2)
    ensures r1 == r2 && JobField(j1) == JobField(j2)
  {
    PromptRoundTrip(r1, j1);
    PromptRoundTrip(r2, j2);
  }

  /**
   * The default clause appears exactly when the job description is falsy
   * (`None` or empty), or is itself the default text.
   */
  lemma DefaultSubstitution(jd: Option<string>)
    ensures JobField(jd) == DefaultJob <==> !Truthy(jd) || jd.value == DefaultJob
  {
  }

  /** A truthy job description is inserted as given, whitespace included. */
  lemma JobDescriptionVerbatim(jd: string)
    requires jd != []
    ensures JobField(Some(jd)) == jd
  {
  }

  /** Whitespace-only input is truthy in Python, so it is kept rather than replaced. */
  lemma WhitespaceJobKept()
    ensures JobOf(BuildPrompt("", Some("   ")), 0) == "   "
  {
    PromptRoundTrip("", Some("   "));
  }

  /** An empty or missing job description puts the default clause into the prompt. */
  lemma EmptyJobGetsDefault(resume: string)
    ensures JobOf(BuildPrompt(resume, Some("")), |resume|) == DefaultJob
    ensures JobOf(BuildPrompt(resume, None), |resume|) == DefaultJob
  {
    PromptRoundTrip(resume, Some(""));
    PromptRoundTrip(resume, None);
  }
}
