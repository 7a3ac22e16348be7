# ResumePro AI: prompt construction and match-score extraction

ResumePro AI is a Streamlit page (`app.py`). It reads the text of an uploaded
PDF resume, sends it with an optional job description to a Gemini model, and
shows the model's answer together with a match score. The score is read from
the answer with one regular-expression search. This project models the two
pieces of deterministic logic in that page and proves their properties:

- **Score extraction** (app.py:168-169): a search of the answer for the
  pattern `MATCH_SCORE:\s*(\d+)`; the captured digits, read as an integer, are
  the score, and the score is 0 when nothing matches. Module `ScoreExtraction`
  has two sides. The computed side is `SkipSpaces`, `DigitRunEnd`, `UsableAt`,
  `FirstMatch` and `ExtractScore`. The declarative side is `MatchesAt`,
  `CapturesAt` and `LeftmostCapture`, which read the pattern directly. The
  lemmas prove the two sides agree. Module `ScoreExamples` covers the edge
  cases on concrete answers.
- **Prompt construction** (app.py:116-136): the f-string template with the
  resume text and the job description (or `General optimization`) filled in.
  This is module `Prompt`.
- **The analysis guard** (app.py:164-169): analysis runs only when the
  extracted text is truthy. Module `Pipeline` covers this step, with the model
  passed in as a function from prompt to answer.

All three are pure computations in the source. The score extraction and the
guard are top-level statements of the script, and the prompt is the f-string
inside `get_ai_suggestions` (app.py:113-139). The one exception is that
function's call to the model, which goes over the network and is left out. The
model therefore uses functions and lemmas throughout. `Wrappers` holds the
`Option` type that stands for Python's `Optional`.

Facts about `app.py` that the model keeps:
- the label search is unanchored and case-sensitive;
- the score is not clamped to 0-100;
- the answer is shown unchanged (app.py:177), with the label still in it;
- a whitespace-only job description is truthy in Python, so it is inserted as is and is not replaced by the default;
- the score colour is a fixed style (app.py:80), not derived from the score.

## Model

| member | source | states |
|---|---|---|
| ScoreExtraction.ExtractScore | app.py:168-169 | the score: the decimal value of group(1) at the leftmost match, or 0 without a match; its meaning is proved by ScoreOfLeftmostMatch and NoMatchScoresZero against the regular-expression reading below |
| ScoreExtraction.MatchesAt | app.py:168 | the regular-expression reading of a match at i: the label at i, then whitespace only, then a digit |
| ScoreExtraction.CapturesAt | app.py:168 | a match at i whose whitespace ends at k and whose group(1) is the maximal digit run s[k..m] |
| ScoreExtraction.LeftmostCapture | app.py:168 | the match `re.search` reports: a capture at i with no match at any earlier position |
| ScoreExtraction.DecimalValue | app.py:169 | `int` on a run of ASCII digits: base 10 with leading zeros allowed; its properties are DecimalRoundTrip, LeadingZeroIgnored and DecimalValueBound |
| ScoreExtraction.DecimalValueBound | app.py:169 | a run of n digits denotes a number below 10^n |
| ScoreExtraction.SkipSpaces | app.py:168 | `\s*` is greedy: the result ends a run of whitespace that starts at k, and the run is maximal |
| ScoreExtraction.DigitRunEnd | app.py:168 | `(\d+)` is greedy: the result ends a run of digits that starts at k, and the run is maximal |
| ScoreExtraction.FirstMatch | app.py:168 | `re.search` scans left to right: the result is a usable position, and no position before it is usable; `None` means no position is usable |
| ScoreExtraction.UsableIffMatches | app.py:168 | the pattern matches at i exactly when the first non-whitespace character after the label is a digit (whitespace never backtracks) |
| ScoreExtraction.CaptureUnique | app.py:168 | the match position fixes group(1): at most one whitespace/digit split satisfies the pattern at a position |
| ScoreExtraction.ScoreAtIsCapture | app.py:168-169 | the computed whitespace end and digit end at a usable position form a capture of the pattern |
| ScoreExtraction.FirstMatchIsLeftmost | app.py:168 | every position the search skips fails the regular-expression reading of the pattern |
| ScoreExtraction.ScoreOfLeftmostMatch | app.py:168-169 | if the pattern's leftmost match is at i with group(1) = s[k..m], the score is the decimal value of s[k..m]; an earlier valid occurrence always beats a later one |
| ScoreExtraction.NoMatchScoresZero | app.py:169 | when no occurrence of the label is followed by optional whitespace and a digit (including text with no label), the score is 0 |
| ScoreExtraction.NonzeroScoreHasMatch | app.py:168-169 | a non-zero score implies that the pattern matches somewhere in the answer |
| ScoreExtraction.NonMatchingPrefixIgnored | app.py:168 | a prefix where the pattern matches nowhere does not change the score |
| ScoreExtraction.PrefixIgnored | app.py:168 | the search is unanchored: text before the label that contains no `M` leaves the score unchanged |
| ScoreExtraction.UnusableOccurrenceSkipped | app.py:168 | an occurrence whose first non-whitespace character is not a digit (including a second label straight after it) is skipped, and the score comes from the text after its whitespace |
| ScoreExtraction.LeadingZeroIgnored | app.py:169 | `int` ignores leading zeros: prepending `0` to a digit run keeps its value |
| ScoreExtraction.DecimalRoundTrip | app.py:169 | reading the decimal spelling of any n gives back n |
| ScoreExtraction.ScoreRoundTrip | app.py:168-169 | `MATCH_SCORE:`, then any whitespace, then the decimal spelling of n, then text that does not start with a digit, scores exactly n, for every n: the score is not clamped to 100 |
| ScoreExamples.EmptyAnswerScoresZero | app.py:169 | an empty answer scores 0 |
| ScoreExamples.LowerCaseLabelScoresZero | app.py:168 | `match_score: 5` scores 0 because the label is case-sensitive |
| ScoreExamples.TemplatePlaceholderScoresZero | app.py:121 | the template's own line `MATCH_SCORE: <0-100>` scores 0 when echoed back |
| ScoreExamples.NegativeScoreNotRead | app.py:168 | `MATCH_SCORE: -5` scores 0 because no sign is accepted |
| ScoreExamples.PlaceholderThenScore | app.py:168 | in `MATCH_SCORE: N/A` followed by `MATCH_SCORE: 64`, the first occurrence is skipped and the score is 64 |
| ScoreExamples.LabelAfterLabel | app.py:168 | `MATCH_SCORE: MATCH_SCORE: 70` scores 70: the first label is skipped and the second is read |
| ScoreExamples.FirstOccurrenceWins | app.py:168 | of `MATCH_SCORE: 82` followed by `MATCH_SCORE: 40`, the first gives the score 82 |
| ScoreExamples.ScoreAboveHundredKept | app.py:169 | `MATCH_SCORE: 150` scores 150, because nothing clamps it |
| ScoreExamples.LeadingZerosDropped | app.py:168-169 | `MATCH_SCORE:007` scores 7 |
| ScoreExamples.LabelInsideWord | app.py:168 | `XMATCH_SCORE: 5` scores 5, because the match may start inside a word |
| ScoreExamples.WhitespaceIncludesNewlines | app.py:168 | the whitespace after the label may contain newlines and tabs |
| ScoreExamples.DigitRunStopsAtSpace | app.py:168-169 | `MATCH_SCORE: 8 5` scores 8, because the digit run ends at the first non-digit |
| Prompt.Truthy | app.py:135 | Python truthiness of an optional string: `None` and `""` are false, every other string (whitespace included) is true |
| Prompt.JobField | app.py:135 | the job-description field of the prompt is never empty |
| Prompt.BuildPrompt | app.py:116-136 | the prompt has the length of the template plus the full resume and job field, so nothing is truncated |
| Prompt.PromptRoundTrip | app.py:116-136 | reading the two holes back out of the prompt gives the resume text verbatim and the job field |
| Prompt.PromptLayout | app.py:116-136 | the prompt starts with the template text that ends in `RESUME:\n`, the resume is followed immediately by `\n\nJOB DESCRIPTION:\n`, and the prompt ends with a line break |
| Prompt.PromptInjective | app.py:116-136 | equal prompts built from resumes of equal length have the same resume and the same job field |
| Prompt.DefaultSubstitution | app.py:135 | the field is `General optimization` exactly when the job description is `None` or empty, or is that text itself |
| Prompt.JobDescriptionVerbatim | app.py:135 | a non-empty job description is inserted as given |
| Prompt.WhitespaceJobKept | app.py:135 | a whitespace-only job description is kept, not replaced by the default |
| Prompt.EmptyJobGetsDefault | app.py:135 | with an empty or missing job description the prompt's job field is `General optimization` |
| Pipeline.Analyze | app.py:164-169 | an analysis happens exactly when the extracted text is truthy; its prompt is the template built from the text and the job description, carrying both verbatim; its answer is the model's reply to that prompt; its score is the score extracted from that answer |
| Pipeline.NoTextNoScore | app.py:164-165 | a failed (`None`) or empty extraction gives no analysis and no score |
| Pipeline.AnalysisScore | app.py:166-169 | the score of an analysis is the value of the leftmost match in the model's answer, or 0 when there is none |
| Pipeline.CannedAnswer | app.py:166-177 | for the answer `MATCH_SCORE: 82\n### Summary\nGood fit`, the score is 82 and the answer is kept unchanged as the feedback |

## Left out

- Page configuration, CSS, layout, widgets, the spinner, and HTML rendering (app.py:11-98, 142-191) are user interface and are not modelled. The same goes for the `run and uploaded_file` button and upload check (app.py:162).
- The progress bar `st.progress(score / 100)` (app.py:173) is not modelled: it is floating-point user interface. Because the score is not clamped, a score above 100 gives a value above 1.0. Streamlit accepts only 0.0-1.0 there, so such an answer raises an error before the feedback is shown.
- PDF text extraction through PyMuPDF (app.py:101-110) is a foreign library call. Its outcome is the `Option<string>` input of `Pipeline.Analyze`: `None` stands for the caught exception.
- The Gemini configuration and the `generate_content` network call (app.py:8-9, 114, 138-139) are foreign network calls. The model is a parameter `string -> string` of `Pipeline.Analyze`. A call that raises an exception is not modelled.
- ScoreExtraction.IsSpace and ScoreExtraction.IsDigit cover ASCII only. Python's `\s` and `\d` on `str` patterns also match non-ASCII whitespace and Unicode decimal digits, and `int` reads those digits too. The model uses the ASCII whitespace set for which `str.isspace` holds (tab, line feed, vertical tab, form feed, carriage return, the four separators 28-31, and space) and the digits `0`-`9`.
- ScoreExtraction.ExtractScore, ScoreExtraction.ScoreRoundTrip: `int` at app.py:169 raises `ValueError` for a digit string longer than Python's integer string conversion limit. That limit is 4300 digits by default, from CPython 3.11 and the 3.10.7 and 3.9.14 releases. The model reads a digit run of any length. The Python version the page runs on is not fixed by the source, and the uncaught exception would abort the page, so that error path is not modelled.
- Determinism of the prompt ("same inputs, same prompt") is not stated as a lemma. Dafny functions are deterministic by construction, so `Prompt.BuildPrompt` has it automatically.
