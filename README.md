# mathcli in Dafny

A verified model of the grading core of mathcli. The program checks a
student's handwritten or Markdown arithmetic work. It splits a solution into
`from = to` steps and checks each step with a rule-based evaluator. It
reconciles that rule verdict with a language model's verdict, classifies the
errors it finds and recommends practice. Beside that core sit a question
bank, a test-record index, a question matcher, the CLI's selection and
advice tables, and a Server-Sent Events parser for streamed model replies.

The model covers that logic and proves what the code promises. OCR, model
calls, sympy, `eval`, files and clocks are not modelled: they become
parameters of the model or are left out (see below).

Modules, one per component of the program:

- `Wrappers`, `Strings`, `Collections`, `Sorting`: `Option`/`Result` and the
  Python built-ins the program leans on. These are `strip`, `split`, `find`,
  `lower`, `int`, `float`, string comparison, `list(dict.fromkeys(...))`,
  slicing and the stable `sort(reverse=True)`.
- `Reconciliation` (`ai_processor.py`): merging the LLM and rule verdicts,
  `validate_solution`, the counters of `generate_feedback` and the keyword
  reading of an LLM text reply.
- `RuleVerifier` (`ai_processor.py`): `_normalize_expression`, the
  sign-splitting fraction evaluator, the fallback and sympy step verifiers
  (sympy is a partial oracle `string -> outcome`), `_apply_rule_verification`
  as an in-place update of an array of steps, and `_gcd`. The update loop is
  the generic `Collections.UpdateEach` applied to the per-step function
  `RuleChecked`; `CheckStep` is the loop body written out step by step and is
  proved to compute `RuleChecked`.
- `OcrParsing` (`ai_processor.py`): `_extract_basic_steps`,
  `_identify_problem_type` and the rule-based problem parser.
- `FractionSteps` (`ai_processor.py`): `_validate_steps_basic` and
  `_validate_fraction_steps`, both as written and corrected.
- `ErrorClassifier` (`markdown_grader.py`): the first-match-wins chain of
  error detectors, the knowledge-point, reason and suggestion tables, and the
  overall error analysis.
- `AnswerSheet` (`markdown_grader.py`): the line-driven `_parse_with_rules`
  loop, both as written and corrected. Also the simple step splitter, the
  value and question-number extractors and `extract_test_id_from_markdown`.
- `ChoiceGrading` (`markdown_grader.py`): grading a choice answer against the
  bank, the choice error classes and `_generate_practice_recommendations`.
- `QuestionMatcher` (`question_matcher.py`): text preprocessing, expression
  normalisation, Jaccard similarity, exact and expression matching, ranking
  and `search_questions`.
- `TestRecords` (`test_id_manager.py`): the in-memory records and
  question-to-tests document, as class `TestStore` whose methods update it.
- `QuestionModels` (`question_models.py`): the `__post_init__` checks and
  class `QuestionDatabase`, with its filters, error analysis and practice
  recommendation.
- `PracticeCli` (`cli.py`): the image-data log filter, the difficulty filter,
  the weighted selection, tag matching and the advice tables.
- `SseParser` (`tools/sse_parser/sse_parser.py`): line and stream parsing of
  Server-Sent Events, and the concatenation of streamed chat deltas.

Behaviours of the code that the model keeps as written:

- the fallback step verifier answers false when a side does not evaluate
  (ai_processor.py:546-560);
- `validate_solution` never passes suggestions, so its result carries the
  empty list `__post_init__` puts there (ai_processor.py:63-68, 620-699);
- the error classifier consults its detectors in the order of
  markdown_grader.py:840-862. A minus sign on one side only is a sign error
  as long as `abs(from_val - to_val)` does not raise
  (markdown_grader.py:866-890). When `eval` yields something that is not a
  number, such as the tuple of `1,000 - 5`, the sign detector's `except`
  answers false and the calculation detector's answers true
  (markdown_grader.py:935-947);
- the SSE parser lets a later `data` line replace the earlier one
  (tools/sse_parser/sse_parser.py:73), treats a line without a colon as data
  (:55) and strips field names and values fully (:31-39). Section 9.2.6 of
  the WHATWG HTML Living Standard instead appends each data line to the
  buffer followed by a line feed, and reads a line without a colon as a
  field named by the whole line with an empty value, so a bare `data` line
  appends an empty line.

## Model

| member | source | states |
|---|---|---|
| Reconciliation.DetermineFinalCorrectness | ai_processor.py:343-378 | the LLM verdict when present, else the rule verdict, else false |
| Reconciliation.AcceptanceNeedsPositiveVerdict | ai_processor.py:343-378 | a step is accepted iff the LLM says true, or there is no LLM verdict and the rule says true |
| Reconciliation.RuleVerdictIgnoredWhenLlmDecides | ai_processor.py:356-368 | once the LLM has a verdict, no rule verdict changes the outcome |
| Reconciliation.CorrectCountAll | ai_processor.py:641-665 | the correct-step count is at most the step count, and equals it iff every step is correct |
| Reconciliation.DisagreementsExact | ai_processor.py:649-655 | the disagreement list holds exactly the 1-based positions whose two verdicts exist and differ, ascending |
| Reconciliation.AgreementsBounded | ai_processor.py:873-876 | agreements plus disagreements never exceed the rule-verified or the LLM-verified count |
| Reconciliation.ConfidenceInUnitInterval | ai_processor.py:658-662 | confidence lies in [0, 1], and is at least 0.5 without rule verdicts |
| Reconciliation.ConfidenceMonotone | ai_processor.py:658-662 | more correct steps never lower the confidence |
| Reconciliation.ValidateSolution | ai_processor.py:620-699 | no steps gives the no_solution result; otherwise correct iff every step is correct, confidence from the counts, and the description lists the incorrect steps and the disagreements |
| Reconciliation.CountCorrect | ai_processor.py:642 | the count of steps marked correct, which `CorrectCountAll` bounds by the step count with equality iff all are correct |
| Reconciliation.TallyRuleVerdicts | ai_processor.py:645-656 | the loop counts exactly the rule-verified steps and collects exactly the disagreement positions `DisagreementsExact` characterises |
| Reconciliation.CollectIncorrectNotes | ai_processor.py:680-688 | the loop builds exactly the note list `NotesFollowIncorrectSteps` characterises |
| Reconciliation.NotesFollowIncorrectSteps | ai_processor.py:680-688 | one note per incorrect step, as many as the steps not counted correct, in step order, each naming its 1-based position with the rule or AI marker |
| Reconciliation.AdoptedNoteContradictsVerdict | ai_processor.py:665-671 | a step the rule marks wrong but the LLM marks right is counted correct while the note claims the rule result was adopted |
| Reconciliation.AgreementRateBounded | ai_processor.py:911-916 | the agreement rate lies in [0, 1] |
| Reconciliation.FeedbackCounters | ai_processor.py:866-916 | the counters of `generate_feedback` equal the step-list specifications, and the agreement rate lies in [0, 1] |
| Reconciliation.ParseLlmTextResponse | ai_processor.py:1174-1203 | correct iff a positive keyword and no negative keyword occurs; confidence 0.8 when any keyword occurs, else 0.3; the text becomes the error description when not correct |
| Reconciliation.IncorrectIsNotCorrect | ai_processor.py:1184-1188 | a text containing "incorrect" is never read as correct, though it contains "correct" |
| RuleVerifier.NormalizeExpression | ai_processor.py:508-525 | the result contains no `×`, `·` or `÷`, and empty input stays empty |
| RuleVerifier.NormalizeSlashFree | ai_processor.py:514-523 | on a text without `/` the result is as long as the stripped text and holds, at each position, its character with `×` and `·` mapped to `*` and `÷` to `/` |
| RuleVerifier.ReplaceGlyphsByChar | ai_processor.py:520-523 | the three `replace` calls map the text position by position: `×` and `·` to `*`, `÷` to `/`, everything else kept |
| Strings.ReplaceCharByChar | ai_processor.py:520-523 | replacing a character by one character keeps the length, turns each occurrence into the replacement and keeps every other character |
| RuleVerifier.RationalRewrite | ai_processor.py:517 | the `a/b` substitution never shortens the text and adds no character other than those of `Rational(, )` |
| RuleVerifier.RewriteWithoutSlash | ai_processor.py:517 | a text without a slash is left as it is by the substitution |
| RuleVerifier.RewriteLeadingFraction | ai_processor.py:517 | a leading `a/b` of two whole digit runs becomes `Rational(a, b)` and the substitution carries on after it |
| RuleVerifier.NormalizePlainText | ai_processor.py:508-525 | a text without `/`, `×`, `·` or `÷` is only stripped |
| RuleVerifier.NormalizeDigitFraction | ai_processor.py:508-525 | a text that strips to `a/b` of two digit runs becomes `Rational(a, b)` |
| RuleVerifier.NormalizeNotIdempotent | ai_processor.py:514-523 | normalizing `6÷3` gives `6/3`, and normalizing that again gives `Rational(6, 3)`: a second pass changes the text |
| RuleVerifier.FirstSign | ai_processor.py:567 | the position of the first `+` or `-`, or none when the text has no sign |
| RuleVerifier.SplitSigns | ai_processor.py:567 | splitting on signs while keeping them yields at least one piece |
| RuleVerifier.Signed | ai_processor.py:575-583 | a plus sign keeps the value, a minus sign negates it |
| RuleVerifier.AbsorbTerm | ai_processor.py:575-583 | a term without a value aborts the sum; a term with one adds its signed value |
| RuleVerifier.SumTermsAt | ai_processor.py:571-583 | folding from piece i is absorbing piece i, then folding the rest |
| RuleVerifier.SumStep | ai_processor.py:572-584 | a `+` or `-` piece sets the sign, a blank piece changes nothing, and a term either fails the sum or adds its value with the current sign |
| RuleVerifier.FractionValue | ai_processor.py:562-598 | when a signed expression has a value, every stripped piece of its split is a sign, empty, or a term with a value |
| RuleVerifier.SumAcceptsEveryPiece | ai_processor.py:571-583 | a sum that has a value accepted every one of its pieces |
| RuleVerifier.EvaluateFractionExpression | ai_processor.py:562-598 | the loop computes the value of the expression as the sign-split sum, or none when a term fails |
| RuleVerifier.SumSignPieces | ai_processor.py:568-586 | the loop over the sign-split pieces computes their sum, or none when a term fails |
| RuleVerifier.SignPieceSets | ai_processor.py:571-578 | a sign piece sets the sign rather than flipping it: of two sign pieces with only blanks between them, as the split yields them, the first has no effect |
| RuleVerifier.SplitDoubleMinus | ai_processor.py:567 | splitting `3 - -2` on signs yields `3 `, `-`, ` `, `-`, `2` |
| RuleVerifier.DoubleMinusSubtracts | ai_processor.py:562-598 | the evaluator reads `3 - -2` as 1, not 5: the second minus replaces the first |
| RuleVerifier.FailingTermFailsSum | ai_processor.py:579-598 | a term that cannot be evaluated makes the whole expression fail, wherever it stands |
| RuleVerifier.ZeroDenominatorHasNoValue | ai_processor.py:580-582 | a fraction term with denominator 0 has no value |
| RuleVerifier.NonIntegerNumeratorHasNoValue | ai_processor.py:580-582 | a fraction term whose numerator is not an integer has no value |
| RuleVerifier.VerifyFractionStep | ai_processor.py:546-560 | true iff both sides evaluate and differ by less than 1e-10 |
| RuleVerifier.FallbackFailsClosed | ai_processor.py:546-560 | a side that does not evaluate makes the step false; equal values make it true |
| RuleVerifier.VerifyStepWithSympy | ai_processor.py:527-544 | the sympy verdict when both sides parse, the fraction fallback when parsing raises a caught error, no verdict when another exception escapes |
| RuleVerifier.RuleCheckedIsReconciled | ai_processor.py:321-341 | after rule verification the step is reconciled, keeps its sides and its LLM verdict, and lacks a rule verdict only when verification raised |
| RuleVerifier.CheckStep | ai_processor.py:327-341 | one step becomes its rule-checked version, including the exception path |
| RuleVerifier.ApplyRuleVerification | ai_processor.py:321-341 | every step of the array is replaced by its rule-checked version |
| Collections.UpdateEach | ai_processor.py:326-341 | the loop over the steps replaces each element, in place, by the per-step function of its old value and touches nothing else |
| RuleVerifier.PyModBounds | ai_processor.py:505 | Python's `%` lies between 0 and the divisor, on the divisor's side |
| RuleVerifier.DividesCombination | ai_processor.py:502-506 | a common divisor of u and v divides u - v*q and u + v*q |
| RuleVerifier.CommonDivisorsStep | ai_processor.py:504-505 | one Euclid step with Python's `%` keeps the set of common divisors |
| RuleVerifier.Gcd | ai_processor.py:502-506 | the result divides both arguments and every common divisor divides it |
| FractionSteps.FractionAt | ai_processor.py:1120 | a `digits/digits` match at a position ends after it and within the text |
| FractionSteps.FirstFraction | ai_processor.py:1120-1121 | the leftmost position where a fraction starts, or none when no position has one |
| FractionSteps.FractionChain | ai_processor.py:1120-1121 | definition: the first `a/b (op c/d)*` run of the problem text, or none; `ValidateFractionSteps` returns the parsing error exactly when there is none |
| FractionSteps.StudentFraction | ai_processor.py:1137-1141 | definition: the value of an answer `digits/digits` with a non-zero denominator, else none; `ThirteenNinthsIsAFraction` and `CorrectedJudgesByValue` state its use |
| FractionSteps.AsWrittenRejectsOnlyThirteenNinths | ai_processor.py:1118-1166 | as written, the check rejects exactly when the text holds no fraction or the final answer is the literal `13/9` |
| FractionSteps.HardCodedAnswerRejectsCorrectSum | ai_processor.py:1139-1153 | 11/16 + 4/9 + 5/16 equals 13/9, yet the as-written check rejects the answer 13/9 to that problem |
| FractionSteps.ValidateFractionSteps | ai_processor.py:1106-1172 | (corrected) no fraction chain in the text gives the parsing error |
| FractionSteps.CorrectedJudgesByValue | ai_processor.py:1131-1166 | (corrected) an answer is rejected iff it is a fraction whose value differs from the value of the chain in the text |
| FractionSteps.ValidateFractionStepsAsWritten | ai_processor.py:1106-1172 | as written, the result is the parsing error, the hard-coded `13/9` rejection or a pass, and no fraction chain gives the parsing error |
| FractionSteps.ValidateStepsBasicAsWritten | ai_processor.py:1077-1104 | as written, no steps is a `no_steps` error, a fraction problem goes to the as-written fraction check, and any other problem passes with confidence 0.3 |
| FractionSteps.BasicCheckRejectsWorkedAnswer | ai_processor.py:1097-1098 | as written, the basic check rejects the correct answer 13/9 to the worked problem 11/16 + 4/9 + 5/16 |
| FractionSteps.ValidateStepsBasic | ai_processor.py:1077-1104 | (corrected) no steps is a `no_steps` error, a fraction problem goes to the corrected fraction check, and any other problem passes with confidence 0.3 |
| OcrParsing.IdentifyProblemType | ai_processor.py:600-618 | the type is the first cue found, in the order fraction, equation, arithmetic, word problem, else unknown; fraction and equation and unknown each hold iff their cue condition holds |
| OcrParsing.UpperCaseUnknownIsEquation | ai_processor.py:612 | an upper-case `X` also marks an equation, because the text is lower-cased first |
| OcrParsing.BasicSteps | ai_processor.py:299-319 | at most one step per line, each marked correct and carrying no verdicts |
| OcrParsing.ExtractBasicSteps | ai_processor.py:299-319 | the loop computes the step list of the lines: one step per line holding `=`, whose `to` is the stripped text after the last `=` and whose `from` is the previous step's `to`, or the stripped text before the first `=` when that is empty or the step is the first |
| OcrParsing.CarriedFrom | ai_processor.py:308-310 | definition: the previous step's `to` when there is one and it is non-empty, else the stripped text before the first `=`; used by `ExtractBasicSteps` and `BasicStepsFromLines` |
| OcrParsing.BasicStepsFrom | ai_processor.py:305-316 | the `from` of step k is the carried expression (the given one for k = 0, the previous `to` otherwise) when non-empty, else the stripped text before the first `=` of its line |
| OcrParsing.BasicStepsFromLines | ai_processor.py:299-319 | over all steps of the lines: one per line holding `=`, with the `to` and the `from` stated per step |
| OcrParsing.FirstStepFromFirstPart | ai_processor.py:305-310 | with nothing carried, the first step starts from the stripped text before the first `=` of the first equation line |
| OcrParsing.SplitAtPresentSeparator | ai_processor.py:306-307 | a line holding `=` splits into at least two parts, so the length guard always passes |
| OcrParsing.BasicStepsPerEquationLine | ai_processor.py:305-316 | exactly one step per line holding `=`, whose `to` is the stripped text after that line's last `=` |
| OcrParsing.BasicStepsChained | ai_processor.py:308-316 | each step starts where the previous one ended, unless that one ended in nothing |
| OcrParsing.FirstStepFrom | ai_processor.py:308 | the first step starts from the carried expression when it is non-empty |
| OcrParsing.BasicStepsTargetsHaveNoEquals | ai_processor.py:309 | no step's `to` contains `=` |
| OcrParsing.NonBlankLines | ai_processor.py:248 | the kept lines are stripped and non-empty |
| OcrParsing.ProblemIdInjective | ai_processor.py:270 | different counters give different problem ids |
| OcrParsing.CollectKeepsOpen | ai_processor.py:256-289 | the problem open at the start is saved first, with its id and text |
| OcrParsing.Collect | ai_processor.py:253-291 | definition: the problems the line loop collects, a header saving the open problem and opening the next; computed by `CollectProblems`, with `CollectKeepsOpen` and `CollectAtHeader` stating its steps |
| OcrParsing.CollectAtHeader | ai_processor.py:256-275 | at a header line the open problem is saved and a new one is opened with the next counter |
| OcrParsing.NumberedConcat | ai_processor.py:270-274 | consecutive numbering survives concatenation |
| OcrParsing.NumbersAtHeader | ai_processor.py:256-275 | the header step keeps the numbering consecutive |
| OcrParsing.CollectNumbers | ai_processor.py:254-289 | the saved problems are numbered consecutively, continuing the open one |
| OcrParsing.TitledConcat | ai_processor.py:271 | header titles survive concatenation |
| OcrParsing.TextsAtHeader | ai_processor.py:256-275 | the header step keeps each problem's text equal to its header line |
| OcrParsing.CollectTexts | ai_processor.py:254-289 | each problem opened carries its header line as its text, one problem per header line |
| OcrParsing.Verified | ai_processor.py:291-293 | rule verification keeps the problem's id, text and number of steps |
| OcrParsing.ParseWithRules | ai_processor.py:243-295 | the method returns the rule-parsed problems of the text |
| OcrParsing.CollectProblems | ai_processor.py:250-289 | the line loop and the final save compute the collected problems |
| OcrParsing.VerifyProblems | ai_processor.py:291-293 | every collected problem has its steps rule-verified, in order |
| OcrParsing.RuleParsedProblemsNumbered | ai_processor.py:243-295 | the parsed problems are numbered problem_1, problem_2, ... and carry the header lines as texts, in order |
| OcrParsing.RuleParsedStepsReconciled | ai_processor.py:291-293 | every step of every parsed problem carries a reconciled verdict |
| ErrorClassifier.CategoryNamesDistinct | markdown_grader.py:840-862 | the six category names are pairwise different, so a name identifies its category |
| ErrorClassifier.NumberAt | markdown_grader.py:903-904 | a number match at a position ends after it and within the text |
| ErrorClassifier.FindNumbers | markdown_grader.py:903-904 | the numbers found are at most as many as the characters scanned |
| ErrorClassifier.NoDigitsNoNumbers | markdown_grader.py:903-904 | a text without digits yields no numbers |
| ErrorClassifier.IsSignProcessingError | markdown_grader.py:894-918 | definition: the text before holds `(-`, both sides hold exactly two numbers and `a - (-b)` before equals `a - b` after; used by `HasSignError` |
| ErrorClassifier.DifferenceRaises | markdown_grader.py:866-873 | definition: neither value is `None` and one is not a number, so `abs(from_val - to_val)` raises; used by `HasSignError`, `HasCalculationError` and `RaisingDifferenceIsNoSignError` |
| ErrorClassifier.HasSignError | markdown_grader.py:864-892 | definition: false when the difference raises, else far-apart values with a sign-processing slip, a minus sign on one side only, or `(-` lost; its consequences are stated in `ClassifyIsFirstMatch`, `LoneMinusIsSignError` and `RaisingDifferenceIsNoSignError` |
| ErrorClassifier.HasFractionError | markdown_grader.py:920-922 | definition: `/` on either side; used by `Classify` and `KnowledgePoints` |
| ErrorClassifier.HasPowerError | markdown_grader.py:924-926 | definition: `²`, `³` or `**` in the text before only; used by `Classify` |
| ErrorClassifier.HasOrderError | markdown_grader.py:928-933 | definition: both parentheses in the text before only; used by `Classify` and `KnowledgePoints` |
| ErrorClassifier.HasCalculationError | markdown_grader.py:935-947 | definition: two numbers more than 0.001 apart, or a `None` value, or a difference that raises (the `except` falls through to true); used by `Classify` |
| ErrorClassifier.FirstTrue | markdown_grader.py:840-862 | the index of the first detector that fires, every earlier one silent |
| ErrorClassifier.Classify | markdown_grader.py:840-862 | the category is unknown exactly when no detector fires, and otherwise one of the five detector categories |
| ErrorClassifier.ClassifyIsFirstMatch | markdown_grader.py:840-862 | the category is that of the first detector that fires, in the order sign, fraction, power, order, calculation, else unknown |
| ErrorClassifier.UnknownNeedsAgreeingValues | markdown_grader.py:864-947 | unknown is reached only when both values are numbers that agree within 0.001, the minus signs match and no side holds a fraction |
| ErrorClassifier.LoneMinusIsSignError | markdown_grader.py:864-890 | a minus sign on one side only is a sign error whenever `abs(from_val - to_val)` does not raise |
| ErrorClassifier.RaisingDifferenceIsNoSignError | markdown_grader.py:840-947 | when the difference of the values raises, the step is neither a sign error nor unknown |
| ErrorClassifier.TupleStepIsCalculationError | markdown_grader.py:840-947 | with `1,000 - 5` evaluating to a tuple, rewriting it as `995` is a calculation error, not a sign error |
| ErrorClassifier.KnowledgePoints | markdown_grader.py:949-968 | each of the five points is listed iff its condition holds: "负数运算规则" iff either side contains `(-`, "分数运算" iff the fraction detector fires, "运算顺序" iff the order detector fires, "乘方运算" iff the power detector fires on the text before, "四则运算" iff the text before holds `+`, `-`, `×` or `÷` |
| ErrorClassifier.KnowledgePointsDistinct | markdown_grader.py:949-968 | the knowledge points never repeat |
| ErrorClassifier.KnowledgePointsOrdered | markdown_grader.py:949-968 | the points appear in the fixed order in which the checks append them |
| ErrorClassifier.Suggestions | markdown_grader.py:985-1020 | every category gets exactly three suggestions |
| ErrorClassifier.SuggestionsShareDefault | markdown_grader.py:985-1020 | the default advice goes exactly to calculation errors and unknown errors |
| ErrorClassifier.ErrorReason | markdown_grader.py:970-983 | definition: the fixed reason text of each category; used by `AnalyzeStep` |
| ErrorClassifier.AnalyzeStep | markdown_grader.py:808-838 | a step is correct iff its category is "无错误"; a correct step carries no points, reason or suggestions; an incorrect one carries three suggestions |
| ErrorClassifier.AnalysisParts | markdown_grader.py:1033-1038 | one summary part per distinct category |
| ErrorClassifier.OverallAnalysis | markdown_grader.py:1022-1040 | definition: "解答正确" for no categories, else the distinct categories in first-seen order, each with its count above one; computed by `GenerateOverallErrorAnalysis`, simplified by `DistinctCategoriesHaveNoCounts` |
| ErrorClassifier.CountCategories | markdown_grader.py:1026-1031 | the counting loop yields the categories in first-seen order, each with its number of occurrences |
| ErrorClassifier.GenerateOverallErrorAnalysis | markdown_grader.py:1022-1040 | the summary is "解答正确" for no categories, else each category once in first-seen order with its count when above one |
| ErrorClassifier.DistinctCategoriesHaveNoCounts | markdown_grader.py:797-803 | the caller passes a de-duplicated list, so no count is ever printed |
| AnswerSheet.LabelEnd | markdown_grader.py:582 | a label match starts with `*`, spans at least five characters and stays within the text |
| AnswerSheet.RemoveLabels | markdown_grader.py:582 | removing labels never lengthens the text |
| AnswerSheet.RemoveLabelsWithoutStars | markdown_grader.py:582 | a text without asterisks has nothing removed |
| AnswerSheet.LabelledValue | markdown_grader.py:579-583 | the value of a `**name**:` line is the stripped text after the colon |
| AnswerSheet.ExtractValue | markdown_grader.py:579-583 | definition: the line with its `**…**:` labels removed, stripped; `LabelledValue` states its value on a labelled line |
| AnswerSheet.QuestionNumberSkips | markdown_grader.py:587 | the search for a question number skips text without `第` |
| AnswerSheet.ExtractQuestionNumber | markdown_grader.py:585-588 | a line without `第` gives question number 0 |
| AnswerSheet.HeadingNumber | markdown_grader.py:585-588 | a heading `第<n>题` after text without `第` gives back n |
| AnswerSheet.QuestionHeaderNumber | markdown_grader.py:585-588 | the heading `### 第<n>题` gives back n |
| AnswerSheet.AnswerLetterFrom | markdown_grader.py:351 | a bracketed answer found from a position is a letter a-d occurring in the rest of the text |
| AnswerSheet.AnswerLetter | markdown_grader.py:351 | a bracketed answer is a letter a-d occurring in the line |
| AnswerSheet.AnswerLetterSkips | markdown_grader.py:351 | the search for a bracketed letter skips text without `(` |
| AnswerSheet.BracketedLetter | markdown_grader.py:349-353 | the first bracketed letter after text without `(` is the answer |
| AnswerSheet.StripParens | markdown_grader.py:372 | stripping brackets leaves no bracket at either end and never lengthens the text |
| AnswerSheet.LookAhead | markdown_grader.py:358-376 | the look-ahead stays within the lines and passes over blank lines only |
| AnswerSheet.FindBankRef | markdown_grader.py:300-305 | the entry found is in the list and carries the label; when none is found no entry carries it |
| AnswerSheet.QuestionsShadowMapping | markdown_grader.py:298-312 | a non-empty questions list decides alone: the mapping is never consulted |
| AnswerSheet.ResolveQuestion | markdown_grader.py:295-315 | definition: the bank id and type of a question number from the questions list, else the mapping, else `q_<n>` and `unknown`; `QuestionsShadowMapping` and `DefaultQuestionId` state its cases |
| AnswerSheet.DefaultQuestionId | markdown_grader.py:295-314 | without a list and without a mapping entry the question is `q_<n>` of type unknown |
| AnswerSheet.StartQuestion | markdown_grader.py:286-323 | a heading moves to the next line |
| AnswerSheet.QuestionLine | markdown_grader.py:325-395 | a line inside a question moves forward within the lines, or stays put only at a stalling fence with nothing changed |
| AnswerSheet.InfoLine | markdown_grader.py:266-283 | an information line moves to the next line and changes only the student and test fields |
| AnswerSheet.StepWith | markdown_grader.py:261-395 | one pass of the loop body moves forward within the lines, or stays put only at a stalling fence |
| AnswerSheet.Step | markdown_grader.py:261-395 | (corrected) one pass of the loop body always moves forward within the lines |
| AnswerSheet.StepAsWritten | markdown_grader.py:261-395 | as written, a loop pass never moves backwards, and a pass that does not move forward leaves the whole state as it was, so the loop repeats it forever |
| AnswerSheet.ParseWithRules | markdown_grader.py:240-407 | (corrected) the index-driven loop computes the parsed sheet, or the error an integer field raises |
| AnswerSheet.ParseSheet | markdown_grader.py:240-407 | definition: the line-driven parse from the initial state; computed by `ParseWithRules`, and `AnswersFollowHeadings` states its answers |
| AnswerSheet.FenceStalls | markdown_grader.py:385-388 | as written, a code fence line in a solution leaves the whole state unchanged; the corrected body moves past it and changes nothing else |
| AnswerSheet.StepReachesQuestionLine | markdown_grader.py:325-393 | a line that is neither information nor a heading goes to the current question |
| AnswerSheet.QuestionLineAtFence | markdown_grader.py:385-388 | at a fence in a solution the as-written body stays put and the corrected one moves on |
| AnswerSheet.UnstarredIsNotInfo | markdown_grader.py:325-383 | a line not opening with `*` matches none of the label branches |
| AnswerSheet.FenceNeverLeft | markdown_grader.py:261-395 | as written, every number of further loop passes from a fence in a solution stays at that fence |
| AnswerSheet.AnswerNumbers | markdown_grader.py:317 | one number per answer |
| AnswerSheet.HeaderNumbersSkip | markdown_grader.py:286 | lines that are not headings contribute no question numbers |
| AnswerSheet.AppendNumbers | markdown_grader.py:289 | the numbers of joined answer lists are the joined numbers |
| AnswerSheet.NotHeaderKeeps | markdown_grader.py:266-395 | moving past a non-heading line with the same answers and question keeps the numbers still to come |
| AnswerSheet.HeaderKeeps | markdown_grader.py:286-323 | a heading saves the question read so far and opens one numbered by the heading |
| AnswerSheet.LookAheadKeeps | markdown_grader.py:358-376 | skipping blank lines after an answer line keeps the numbers still to come |
| AnswerSheet.QuestionLineKeepsNumbers | markdown_grader.py:325-393 | a line inside a question keeps the answers and the question's number |
| AnswerSheet.HeaderIsNotInfo | markdown_grader.py:266-286 | a heading is never an information line |
| AnswerSheet.StepKeepsNumbers | markdown_grader.py:261-395 | each loop pass keeps the numbers still to come |
| AnswerSheet.ParseFromNumbers | markdown_grader.py:261-399 | the rest of the loop produces exactly the numbers still to come |
| AnswerSheet.AnswersFollowHeadings | markdown_grader.py:240-407 | a sheet that parses holds one answer per question heading, in heading order and numbered by the headings |
| AnswerSheet.ParseCalculationStepsSimple | markdown_grader.py:1367-1390 | the line loop computes the simple step list of the text |
| AnswerSheet.SimpleStepOfMakes | markdown_grader.py:1374-1388 | a stripped line holding `=` and not opening a fence makes exactly one step |
| AnswerSheet.SimpleStepsCount | markdown_grader.py:1372-1388 | one step per line that holds `=` and does not open a fence |
| AnswerSheet.SimpleStepsPrefix | markdown_grader.py:1372-1388 | reading one more line only extends the steps |
| AnswerSheet.StepMadeEarlier | markdown_grader.py:1372-1388 | a step made by an earlier line stays as it was |
| AnswerSheet.StepMadeLast | markdown_grader.py:1374-1388 | a step-making last line adds exactly one step, made from it |
| AnswerSheet.SimpleStepAt | markdown_grader.py:1367-1390 | step k comes from the k-th step line: stripped parts around its first and last `=`, with an empty `from` taken from the step before |
| AnswerSheet.TestIdAt | markdown_grader.py:151-156 | an id match is fourteen characters long |
| AnswerSheet.SearchLabelled | markdown_grader.py:158-163 | a labelled id found is fourteen characters long |
| AnswerSheet.FirstTestId | markdown_grader.py:155 | an id found is fourteen characters long |
| AnswerSheet.SearchMarked | markdown_grader.py:155 | an id found after the marker is fourteen characters long |
| AnswerSheet.ExtractTestId | markdown_grader.py:139-166 | the extracted id is fourteen characters long |
| AnswerSheet.TestIdAfterLabel | markdown_grader.py:139-166 | a well-formed id right after `试卷ID：` is found and returned upper-cased |
| ChoiceGrading.LookupId | markdown_grader.py:662 | a question found under an id is the bank's entry for that id; none is found only when no entry carries the id |
| ChoiceGrading.FindByText | markdown_grader.py:1068-1073 | a question found by text contains the text and is in the bank; none is found only when no bank question's text contains it |
| ChoiceGrading.FirstCorrectId | markdown_grader.py:681-685 | the id returned belongs to a choice marked correct; none is returned only when no choice is correct |
| ChoiceGrading.FirstCorrectIdIsFirst | markdown_grader.py:681-685 | the first choice marked correct is the one whose id is returned |
| ChoiceGrading.ContentOf | markdown_grader.py:1087-1093 | the content and the explanation are both empty when no choice id matches the lower-cased id |
| ChoiceGrading.ContentOfLastMatch | markdown_grader.py:1087-1093 | when choices match, the content and explanation read are those of the last match: later matches overwrite earlier ones |
| ChoiceGrading.ClassifyChoiceError | markdown_grader.py:1116-1130 | the category is one of the six names, and it is the plain calculation error exactly when none of the text cues is present |
| ChoiceGrading.ChoiceSuggestions | markdown_grader.py:1243-1272 | every category gets three suggestions |
| ChoiceGrading.ChoiceSuggestionsShared | markdown_grader.py:1243-1272 | equation, mixed-operation and calculation errors share the fallback advice, and the other categories each get their own |
| ChoiceGrading.KnowledgePoints | markdown_grader.py:1132-1154 | the points are exactly the mapped names of the mapped tags, plus `<chapter>相关概念` when the chapter is non-empty |
| ChoiceGrading.UnmappedTagsGiveNoPoints | markdown_grader.py:1146-1152 | tags outside the mapping and an empty chapter give no knowledge point |
| ChoiceGrading.MarkAfter | markdown_grader.py:1186 | the lazy `(.+?)[？?]` stops at the first question mark after the first character, and no line break comes before it |
| ChoiceGrading.QuestionExpressionFrom | markdown_grader.py:1184-1188 | an expression is found only in a text holding `计算：` |
| ChoiceGrading.QuestionValue | markdown_grader.py:1181-1192 | a question text without `计算：` has no computed value |
| ChoiceGrading.ChoiceValue | markdown_grader.py:1194-1203 | the value of a choice is the first number found in it, and there is none exactly when it holds no number |
| ChoiceGrading.ChoiceErrorReason | markdown_grader.py:1156-1179 | the reason names both values exactly when both exist and differ by 0.001 or more; it says the working was right exactly when they agree within 0.001; without a question value it is one of the cue-driven texts |
| ChoiceGrading.NoCueGivesBasicReason | markdown_grader.py:1170-1179 | without a question value and without any of the three cues the reason is the basic calculation error |
| ChoiceGrading.GradeChoiceQuestion | markdown_grader.py:657-720 | the id lookup, the text search and the scan for the first correct choice give the answer record the grading specification defines |
| ChoiceGrading.FindCorrectChoice | markdown_grader.py:679-684 | the scan returns the id `FirstCorrectIdIsFirst` characterises: that of the first choice marked correct, or none |
| ChoiceGrading.FindQuestionByText | markdown_grader.py:1068-1073 | the scan returns the question `FindByText` characterises: the first whose text contains the given text, or none |
| ChoiceGrading.AnalyzeChoiceError | markdown_grader.py:1075-1114 | the single pass over the choices reads the contents and explanations `ContentOfLastMatch` characterises for the student's and the correct choice, and the record carries the category, the knowledge points, the error reason and the suggestions the specifications above define |
| ChoiceGrading.GradedChoiceVerdict | markdown_grader.py:657-709 | grading changes only the verdict and the analysis; an analysis is present exactly when the verdict is wrong; the answer is right exactly when a question with choices is found, its first correct id is non-empty and the stripped, lower-cased answer equals it lower-cased |
| ChoiceGrading.MissingQuestionIsWrong | markdown_grader.py:664-677 | a question found neither by id nor by text makes the answer wrong with the missing id recorded |
| ChoiceGrading.GradingIgnoresCaseAndBlanks | markdown_grader.py:687 | two answers equal after stripping and lower-casing get the same verdict |
| ChoiceGrading.Reasons | markdown_grader.py:1740-1742 | one reason per choice error |
| ChoiceGrading.BestUpTo | markdown_grader.py:1745 | the best kind is among those scanned and no scanned kind is more frequent |
| ChoiceGrading.BestIsEarliest | markdown_grader.py:1745 | on a tie the kind counted first wins |
| ChoiceGrading.MostCommon | markdown_grader.py:1739-1745 | the most common reason occurs in the list and no reason occurs more often |
| ChoiceGrading.ReasonAdvice | markdown_grader.py:1744-1757 | the first of 符号处理, 计算错误, 概念理解 in the reason picks 正负数运算规则, 基础运算能力 or 数学概念理解, with none of them 选择题解题策略 (each an iff), always with that rule's own advice |
| ChoiceGrading.ChoiceAreasDiffer | markdown_grader.py:1747-1760 | the four choice areas are pairwise different |
| ChoiceGrading.ChoiceAdvice | markdown_grader.py:1734-1760 | wrong choices contribute exactly one pair and nothing otherwise: the advice for the most common reason, or 选择题解题策略 with the reading advice when no choice error was recorded |
| ChoiceGrading.WeakAreaAdviceShape | markdown_grader.py:1762-1772 | the weak areas contribute distinct areas, none of them a choice area, each with its own rule's advice |
| ChoiceGrading.AdvicePairsShape | markdown_grader.py:1734-1772 | all appended areas are distinct and each (area, advice) pair comes from one rule |
| ChoiceGrading.PracticeRecommendations | markdown_grader.py:1722-1780 | at most four areas, each paired with its own rule's suggestion; wrong choices put the choice pair first; the areas never repeat, so the next focus is exactly the first three of them |
| Collections.DedupeDistinct | markdown_grader.py:1776 | `dict.fromkeys` leaves a list without repeats as it is |
| ChoiceGrading.WeakAreaNames | markdown_grader.py:1762-1772 | each of the three weak areas adds its practice area exactly when it is listed |
| ChoiceGrading.PriorityAreasFollowWeakAreas | markdown_grader.py:1734-1772 | the sign, fraction and power practice areas are among the priority areas exactly when the matching weak area is listed |
| QuestionMatcher.CleanAppend | question_matcher.py:51-60 | joining two mappings with clean replacements keeps the replacements clean |
| QuestionMatcher.RowIsClean | question_matcher.py:51-60 | no replacement in any row of the matcher's mapping brings in a blank or full-width punctuation |
| QuestionMatcher.SymbolReplacementsAreClean | question_matcher.py:51-60 | no replacement in the matcher's mapping brings in a blank or full-width punctuation |
| QuestionMatcher.FullWidthAreKeys | question_matcher.py:51-60 | all six full-width marks that preprocessing strips are keys of the mapping |
| QuestionMatcher.SymbolMappingIsClean | question_matcher.py:51-60 | the matcher's own mapping is clean |
| QuestionMatcher.AbsentStaysAbsent | question_matcher.py:162-163 | a blank or full-width mark absent from the text is absent after the replacements |
| QuestionMatcher.KeyReplaced | question_matcher.py:162-163 | a full-width mark that is a key is gone after the replacements |
| QuestionMatcher.MappedHasNoFullWidth | question_matcher.py:162-163 | after a clean mapping no full-width mark is left |
| QuestionMatcher.CollapseSpaces | question_matcher.py:159 | collapsing never lengthens the text, empties only the empty text, keeps a non-blank first character and turns a blank one into a space |
| QuestionMatcher.CollapsedRuns | question_matcher.py:159 | after collapsing, every blank is a single space not followed by another blank |
| QuestionMatcher.DropNumberPrefix | question_matcher.py:166 | removing the question number never lengthens the text, leaves a text not starting with a digit unchanged and brings in no character |
| QuestionMatcher.SuffixKeepsChars | question_matcher.py:166 | the remainder after a number prefix holds only characters of the text |
| QuestionMatcher.RemoveFullWidth | question_matcher.py:169 | the result holds only characters of the text and no full-width mark |
| QuestionMatcher.RemoveFullWidthNoop | question_matcher.py:169 | a text without full-width marks is left unchanged |
| QuestionMatcher.PunctuationRemovalIsNoop | question_matcher.py:153-171 | with a clean mapping the punctuation removal step of preprocessing removes nothing |
| QuestionMatcher.PreprocessedShape | question_matcher.py:153-171 | the preprocessed text has no blank at either end and no full-width punctuation |
| QuestionMatcher.ReplaceSymbols | question_matcher.py:162-163 | the replacement loop gives the mapped text |
| QuestionMatcher.Preprocess | question_matcher.py:153-171 | the preprocessing steps give the preprocessed text |
| QuestionMatcher.CaretRewriteIsIdentity | question_matcher.py:322 | rewriting a caret and its digits as themselves changes nothing |
| QuestionMatcher.NormalizedHasNoSpace | question_matcher.py:312-324 | with a clean mapping a normalized expression holds no space and no full-width mark |
| QuestionMatcher.NormalizedSet | question_matcher.py:297-302 | the normalized form of every listed expression is in the set |
| QuestionMatcher.JaccardProperties | question_matcher.py:304-310 | the Jaccard index lies in [0, 1], is symmetric, and is 1 exactly when the sets are equal and non-empty |
| QuestionMatcher.SimilarityProperties | question_matcher.py:291-310 | the expression similarity lies in [0, 1], is symmetric, and is 1 exactly when both lists are non-empty with equal normalized sets |
| QuestionMatcher.ExactMatchSound | question_matcher.py:173-188 | the exact match is a bank question of the admitted type whose preprocessed text equals the text, and none is found only when no bank question is such |
| QuestionMatcher.FindExact | question_matcher.py:173-188 | the loop over the bank returns the first exact question |
| QuestionMatcher.ExpressionMatchesSound | question_matcher.py:244-268 | every expression match is an admitted bank question scoring between 0.7 and 1 |
| QuestionMatcher.ExpressionMatchesStep | question_matcher.py:251-266 | one more bank question adds only that question's verdict |
| QuestionMatcher.ExpressionMatch | question_matcher.py:244-268 | the loop over the bank gives the expression matches in bank order |
| QuestionMatcher.SimilarityOrder | question_matcher.py:138 | ordering by similarity is a total preorder, so the sort is well defined |
| QuestionMatcher.RankPicksFirstBest | question_matcher.py:136-149 | the answer is absent only without candidates; otherwise it is the first candidate with the highest similarity, listed first among at most five matches |
| QuestionMatcher.RankKeepsFiveBest | question_matcher.py:136-149 | no candidate left out of the five listed scores higher than the last one listed, and among candidates of equal similarity those listed come first in collection order |
| QuestionMatcher.RankBoundsCandidates | question_matcher.py:136-149 | with candidates there is an answer, and no candidate scores higher than it |
| QuestionMatcher.FindMatchingQuestion | question_matcher.py:93-151 | an empty bank gives no answer; any fuzzy, keyword or AI match gives one; an exact match makes the answer score at least 1.0; no collected match scores higher than the answer |
| QuestionMatcher.FirstBest | question_matcher.py:138-139 | the index found has the highest similarity, every earlier candidate scoring strictly less |
| QuestionMatcher.ExactMatchWins | question_matcher.py:113-139 | when an exact match exists the answer scores at least 1.0 |
| QuestionMatcher.HitsSound | question_matcher.py:411-426 | every hit is a bank question of the admitted type whose text contains the query ignoring case, and there are no more hits than questions |
| QuestionMatcher.SearchQuestions | question_matcher.py:411-426 | the search returns the hits in bank order, cut after the limit, but at least one hit even for a limit below one |
| QuestionMatcher.HitsAppend | question_matcher.py:415-421 | the hits of a split bank are the hits of its two parts in order |
| QuestionMatcher.NonPositiveLimitReturnsOne | question_matcher.py:421-424 | a limit below one still returns exactly one hit when there is one |
| TestRecords.TestIdPrefix | test_id_manager.py:64-68 | the prefix is two ASCII letters |
| TestRecords.GeneratedIdShape | test_id_manager.py:50-74 | a generated id is fourteen characters: the type's prefix, then the first twelve digest characters upper-cased, all upper-case hexadecimal |
| TestRecords.GenerateTestId | test_id_manager.py:50-74 | a generated id is fourteen characters and starts with the prefix of its type |
| TestRecords.PrefixIdentifiesType | test_id_manager.py:64-68 | two types with the same prefix other than `TS` are the same type |
| TestRecords.GeneratedIdIsRecognized | test_id_manager.py:50-74 | the answer-sheet reader recognizes a generated id wherever it stands in a text |
| TestRecords.Repeat | test_id_manager.py:106-109 | `n` copies of the id |
| TestRecords.AddToMappingsSpec | test_id_manager.py:105-109 | saving appends the test id once per occurrence of a question id to that question's list, creating absent lists, and changes no other list |
| TestRecords.FirstRecordSpec | test_id_manager.py:139-143 | the record found is the first one holding the id; none is found only when no record holds it |
| TestRecords.WithoutTest | test_id_manager.py:248 | filtering never lengthens the records |
| TestRecords.WithoutTestSpec | test_id_manager.py:248-252 | filtering keeps exactly the records with another id, and keeps them all exactly when no record has the id |
| TestRecords.SavedTestIsFound | test_id_manager.py:102-143 | a saved record is found by its id, and it is the one found unless an earlier record has the same id |
| TestRecords.DeletedTestIsGone | test_id_manager.py:248 | after a deletion no record carries the id |
| TestRecords.RemoveFirst | test_id_manager.py:257 | removal shortens a list holding the element by one and leaves any other list unchanged |
| TestRecords.RemoveFirstCounts | test_id_manager.py:257 | removal takes away one occurrence of the element and nothing else |
| TestRecords.DatePart | test_id_manager.py:220 | the date part is the prefix of the creation time before its first `T`, the whole time when it has none |
| TestRecords.SearchSpec | test_id_manager.py:198-231 | the search returns exactly the stored records that pass the type filter and the inclusive date bounds |
| TestRecords.Search | test_id_manager.py:198-231 | the search result is drawn from the stored records, each at most as often as it is stored |
| TestRecords.TypeCountsSpec | test_id_manager.py:291-295 | the type distribution has one entry per type present, holding its positive number of records |
| TestRecords.TypeCountPositive | test_id_manager.py:291-295 | a type with a positive count is carried by some record |
| TestRecords.CreatedOrder | test_id_manager.py:301 | ordering by creation time is a total preorder |
| TestRecords.RecentTestsSpec | test_id_manager.py:301 | the recent tests are at most five stored records, newest first, the first no older than any stored record |
| TestRecords.RecentTests | test_id_manager.py:301 | the recent tests are five stored records, or all of them when fewer are stored |
| TestRecords.RecentTestsAreNewest | test_id_manager.py:301 | no stored record left out is newer than the last one listed, and among records with the same timestamp those listed come first in stored order |
| TestRecords.TestStore.constructor | test_id_manager.py:30-48 | a new index has no records, no mappings and a zero count |
| TestRecords.TestStore.SaveTestRecord | test_id_manager.py:76-120 | saving appends the record stamped with the time and its question count, updates the mappings and the count, and keeps the index valid |
| TestRecords.TestStore.GetTestById | test_id_manager.py:126-143 | the lookup returns the first record with the id |
| TestRecords.TestStore.GetQuestionsByTestId | test_id_manager.py:149-161 | the question ids of the first record with the id, or none |
| TestRecords.TestStore.TestsOfQuestion | test_id_manager.py:163-176 | an unmapped question has no tests and a mapped one in a valid index has at least one |
| TestRecords.TestStore.SearchTests | test_id_manager.py:198-231 | the loop returns the records the search specification selects |
| TestRecords.TestStore.DeleteTest | test_id_manager.py:233-274 | as written, the deletion succeeds exactly when a record has the id and no mapping list would be left empty; on success the records are filtered and the id removed once from every list, otherwise nothing changes |
| TestRecords.TestStore.DeleteTestPruning | test_id_manager.py:233-270 | the corrected deletion succeeds exactly when a record has the id, filters the records and removes the id from every list, dropping lists left empty |
| TestRecords.TestStore.GetStatistics | test_id_manager.py:276-311 | the statistics report the record count, the type distribution, the mean question count, the mapped question count and the recent tests |
| TestRecords.FilterRecords | test_id_manager.py:248 | the loop keeps the records the filter specification keeps |
| TestRecords.RemoveEverywhere | test_id_manager.py:255-259 | the loop removes the id once from every list, and reports whether some list was left empty |
| TestRecords.DeletingOnlyTestFails | test_id_manager.py:255-259 | after one save of one question, deleting that test would empty its list, so the deletion as written fails |
| TestRecords.PruningDeletionEmptiesIndex | test_id_manager.py:255-259 | the corrected deletion of that test leaves no mapping |
| TestRecords.PrunedMappingsSpec | test_id_manager.py:255-259 | the corrected update keeps exactly the lists that still hold something, each with one occurrence of the id removed |
| QuestionModels.NewQuestion | question_models.py:94-108 | construction succeeds exactly when a choice question has choices and a calculation question has none; a built question is well formed and keeps its fields; otherwise `ValueError` |
| QuestionModels.NewQuestionRoundTrip | question_models.py:94-108 | rebuilding a well-formed question from its own fields gives it back |
| QuestionModels.NewStudentAnswer | question_models.py:130-146 | an answer keeps its fields and its timestamp when given, and is stamped with the current time otherwise |
| QuestionModels.NewDistribution | question_models.py:165-174 | construction succeeds exactly when the three shares add up to 1 within 0.01, and fails with `ValueError` otherwise |
| QuestionModels.QuestionsByDifficulty | question_models.py:249-252 | the result is exactly the bank's questions of that difficulty |
| QuestionModels.QuestionsByTags | question_models.py:254-257 | the result is exactly the bank's questions carrying one of the tags, and nothing for no tags |
| QuestionModels.QuestionsByTagsAppend | question_models.py:254-257 | filtering by tags keeps the bank order |
| QuestionModels.StudentErrors | question_models.py:259-262 | the result is exactly the student's incorrect answers |
| QuestionModels.StudentErrorsAppend | question_models.py:259-262 | filtering a student's errors keeps the answer order |
| QuestionModels.PrimaryErrors | question_models.py:269-271 | there are at most as many primary errors as answers |
| QuestionModels.PrimaryErrorsMembers | question_models.py:269-271 | the primary errors are exactly those of incorrect answers with an analysis |
| QuestionModels.PrimaryErrorsNone | question_models.py:269-271 | no analysed incorrect answer means no primary error |
| QuestionModels.PrimaryErrorsSnoc | question_models.py:269-272 | one more answer adds its primary error exactly when it is counted |
| QuestionModels.AffectedSnoc | question_models.py:274-276 | one more counted answer adds its question to its error type's set only |
| QuestionModels.AffectedByUnknownError | question_models.py:274-276 | an error type no counted answer has affects no question |
| QuestionModels.Tally | question_models.py:281-287 | one entry per distinct error type |
| QuestionModels.FrequencyOrder | question_models.py:289 | ordering by frequency is a total preorder |
| QuestionModels.CountPositive | question_models.py:272 | an error type that occurs is counted at least once |
| QuestionModels.ShareBounds | question_models.py:282 | a count between 1 and the total gives a share in (0, 1] |
| QuestionModels.EntrySpec | question_models.py:264-287 | the entry of an occurring error type has the share of all answers that counted it, in (0, 1], and exactly the questions of those answers |
| QuestionModels.SortedFromTally | question_models.py:289 | every sorted entry is an entry of the tally |
| QuestionModels.TallyCategories | question_models.py:281-287 | the tally's entries follow the distinct error types in first-seen order and are pairwise different |
| QuestionModels.CommonErrorsEntries | question_models.py:264-289 | the analysis lists one entry per error type, in descending frequency, each computed from the answers |
| QuestionModels.CommonErrors | question_models.py:264-289 | one entry per error type, in descending frequency |
| QuestionModels.CommonErrorsDistinct | question_models.py:264-289 | no error type has two entries |
| QuestionModels.CommonErrorsFromAnswers | question_models.py:264-289 | every entry's type is the primary error of a counted answer |
| QuestionModels.AnswersInCommonErrors | question_models.py:264-289 | every counted answer's primary error has an entry |
| QuestionModels.Ids | question_models.py:305-308 | the ids of the questions, in order |
| QuestionModels.QuestionsByTagsSnoc | question_models.py:305-308 | one more question is recommended exactly when it carries a weak area |
| QuestionModels.IdsSnoc | question_models.py:308 | one more question adds its id at the end |
| QuestionModels.RecommendationSpec | question_models.py:291-316 | the weak areas are the student's analysed primary errors, each once; the recommended ids are the first ten, in bank order, of questions tagged with a weak area; the progression is easy, medium, hard |
| QuestionModels.Recommendation | question_models.py:291-316 | the recommendation is for the given student, lists at most ten questions and carries the fixed progression |
| QuestionModels.NoErrorsNoRecommendation | question_models.py:291-316 | a student with no analysed wrong answer gets no recommended question |
| QuestionModels.QuestionDatabase.FromDict | question_models.py:224-238 | loading keeps the version (default 1.0) and the metadata and starts an empty bank with the default distribution, which passes its own check |
| QuestionModels.QuestionDatabase.AddQuestion | question_models.py:240-243 | adding appends the question, sets the metadata count to the bank size and changes nothing else |
| QuestionModels.QuestionDatabase.AddStudentAnswer | question_models.py:245-247 | adding appends the answer and changes nothing else |
| QuestionModels.QuestionDatabase.AnalyzeCommonErrors | question_models.py:264-289 | the loops give the common errors the specification defines |
| QuestionModels.QuestionDatabase.GeneratePracticeRecommendation | question_models.py:291-316 | the loops give the recommendation the specification defines |
| QuestionModels.TaggedIds | question_models.py:304-308 | the loop collects the ids of the tagged questions in bank order |
| QuestionModels.TalliedSkip | question_models.py:269-270 | an answer the analysis does not count keeps the tally |
| QuestionModels.TalliedCount | question_models.py:271-272 | a counted answer adds its type to the order when new and one to its count |
| QuestionModels.TalliedQuestions | question_models.py:274-276 | a counted answer adds its question to its type's set |
| QuestionModels.TalliedAdd | question_models.py:269-276 | a counted answer updates order, count and questions as the tally requires |
| QuestionModels.TalliedNext | question_models.py:269 | the tally of a prefix extended by the next answer is the tally of the longer prefix |
| QuestionModels.CountErrors | question_models.py:265-276 | the counting loop leaves the counts and question sets of every error type, in first-seen order |
| QuestionModels.TallyAnswers | question_models.py:278-287 | the entries built before sorting are the tally |
| PracticeCli.Base64Run | cli.py:39 | the run is the longest prefix of base64 characters |
| PracticeCli.IndexOfChar | cli.py:39 | the position of the first occurrence of the character, or the length when there is none |
| PracticeCli.DataUriMatch | cli.py:39 | a match starts with `data:image/`, lies within the text and is not followed by another base64 character |
| PracticeCli.DataUriMatchSound | cli.py:39 | what the scan matches is a data URI with a non-empty mime type free of `;` and a non-empty base64 payload |
| PracticeCli.IndexOfCharAt | cli.py:39 | the first occurrence of a character is found after a prefix free of it |
| PracticeCli.Base64RunAt | cli.py:39 | a base64 payload followed by a non-base64 character is matched whole |
| PracticeCli.DataUriMatchComplete | cli.py:39 | a complete data URI at the head of a text is matched whole |
| PracticeCli.RedactKeepsPrefix | cli.py:40 | text before the first `data:image/` is copied unchanged by the substitution |
| PracticeCli.Redact | cli.py:39-40 | the substitution turns only the empty message into the empty text |
| PracticeCli.RedactWithoutImage | cli.py:40 | a message without `data:image/` is left as it is by the substitution |
| PracticeCli.RedactReplacesUri | cli.py:39-40 | the first data URI is replaced by the placeholder and the rest is redacted in turn |
| PracticeCli.Truncated | cli.py:46 | the truncated message keeps the first 500 and the last 100 characters around the marker and is shorter than the original |
| PracticeCli.FilteredMessage | cli.py:32-47 | a message naming no image data and either short or without a 100-character base64 run is left unchanged |
| PracticeCli.LogRecord.constructor | cli.py:32-34 | a record holds its message |
| PracticeCli.ImageDataFilter.Filter | cli.py:32-47 | the filter always lets the record through and rewrites its message as the redaction rules say |
| PracticeCli.FilterTruncatesLongData | cli.py:42-46 | a message over 2000 characters with a long base64 run but no data URI marker is cut to 500 characters, the marker and 100 characters |
| PracticeCli.FilterRedactsDataUri | cli.py:37-40 | a message holding a data URI loses its payload to the placeholder |
| PracticeCli.ContainsInMiddle | cli.py:37 | a substring of a part is a substring of the whole |
| PracticeCli.ContainsInPrefix | cli.py:37 | a substring of a prefix is a substring of the whole |
| PracticeCli.ContainsInSuffix | cli.py:37 | a substring of a suffix is a substring of the whole |
| PracticeCli.ContainsAround | cli.py:46 | a pattern sharing no character with the marker cannot straddle it |
| PracticeCli.PatternsAvoidMarker | cli.py:37-46 | neither substring the filter tests for shares a character with the truncation marker |
| PracticeCli.TruncationIsFinal | cli.py:32-47 | a truncated message passes the filter again unchanged |
| PracticeCli.DifficultyRank | cli.py:662-667 | a difficulty has a rank exactly when it is easy, medium or hard, and the rank indexes it |
| PracticeCli.WithinRange | cli.py:669-676 | the result is exactly the questions whose difficulty (medium when absent) ranks within the bounds |
| PracticeCli.WithinRangeAppend | cli.py:670-676 | the difficulty filter keeps the bank order |
| PracticeCli.WithinRangeKeepsAll | cli.py:670-676 | a bank all within range passes whole |
| PracticeCli.FilterByDifficulty | cli.py:659-678 | an unknown bound returns the list unchanged; otherwise the result is exactly the questions within range, in order |
| PracticeCli.KeepWithinRange | cli.py:670-678 | the loop keeps exactly the questions whose known difficulty ranks within the bounds, in bank order |
| PracticeCli.Remaining | cli.py:722 | the remaining indices are exactly those below the bank size not yet seen |
| PracticeCli.RoomLeft | cli.py:721-724 | fewer seen indices than questions leave an index unseen, so the fill loop's break is never taken |
| PracticeCli.FirstDrawn | cli.py:713-718 | the dedupe loop keeps the draws in first-drawn order and its seen set holds exactly those |
| PracticeCli.DedupeStep | cli.py:714-718 | one more draw is kept exactly when it was not drawn before |
| PracticeCli.SelectIndices | cli.py:713-729 | the dedupe and fill loops give exactly `count` distinct indices in range, starting with the draws in first-drawn order |
| PracticeCli.Pick | cli.py:716 | the picked questions are those at the indices |
| PracticeCli.WeightedRandomSelection | cli.py:680-731 | nothing for an empty bank or a non-positive count, the whole bank when the count reaches its size, and otherwise exactly `count` questions at distinct positions led by the drawn ones |
| PracticeCli.SelectionIsDistinct | cli.py:680-731 | from a bank without repeats the selection has no repeats |
| PracticeCli.ExtractTags | cli.py:761-777 | a tag is inferred exactly when one of its words or its symbol occurs in the lower-cased text, and the tags come in the fixed order fraction, decimal, negative, equation, power |
| PracticeCli.SymbolsGiveTags | cli.py:766-775 | `/`, `.`, `-`, `=` and `^` each give their tag on their own |
| PracticeCli.ExtractedTagsDistinct | cli.py:761-777 | no tag is inferred twice |
| PracticeCli.LowerTwice | cli.py:764 | lower-casing twice is lower-casing once |
| PracticeCli.ExtractTagsIgnoresCase | cli.py:761-777 | tag inference ignores letter case |
| PracticeCli.QuestionMatches | cli.py:733-759 | a question matches exactly when some known error type has a tag among the question's tags, its own or those inferred from its text when it has none |
| PracticeCli.UnknownErrorTypesNeverMatch | cli.py:754-757 | error types outside the mapping never select a question |
| PracticeCli.InferredTagsAreMapped | cli.py:744-777 | every tag inferred from a text is one some error type stands for |
| PracticeCli.MinusSignMatchesSignErrors | cli.py:733-777 | an untagged question with a minus sign in its text is practice for sign errors |
| PracticeCli.OwnTagsOverrideText | cli.py:736-740 | a question's own tags decide and its text is not read |
| PracticeCli.OverallAssessment | cli.py:333-342 | the assessment is one of the four texts, each chosen exactly in its band cut at 90, 80 and 60 |
| PracticeCli.AssessmentMonotone | cli.py:333-342 | a higher accuracy never gets a worse band |
| PracticeCli.FiredAreas | cli.py:344-359 | the areas listed are exactly those whose rules fire |
| PracticeCli.PriorityAreas | cli.py:344-359 | at least one area; each rule's area is listed exactly when it fires; the encouragement stands alone, exactly when no rule fires |
| PracticeCli.PriorityAreaNames | cli.py:344-359 | one name per priority area, never none |
| PracticeCli.ErrorSuggestions | cli.py:365-375 | the error-count suggestions are exactly those whose rules fire |
| PracticeCli.AccuracySuggestion | cli.py:377-380 | at most one accuracy suggestion, the one whose band the accuracy is in |
| PracticeCli.SpecificSuggestions | cli.py:361-381 | at least one suggestion; each is listed exactly when its rule fires; the default stands alone, exactly when no rule fires |
| PracticeCli.SuggestionTexts | cli.py:361-381 | one text per suggestion, never none |
| PracticeCli.PrioritiesHaveSuggestions | cli.py:344-381 | every priority area other than the encouragement comes with the suggestion that addresses it |
| PracticeCli.NextSteps | cli.py:398-421 | three numbered steps, the recovery, consolidation or extension list exactly in its accuracy band |
| PracticeCli.NextStepsFollowAssessment | cli.py:333-421 | recovery steps go with the lowest assessment band and extension steps with the two best |
| PracticeCli.DetectQuestionType | cli.py:1528-1562 | the type is choice exactly when one of the choice patterns occurs, and calculation otherwise |
| PracticeCli.OptionLabelMeansChoice | cli.py:1538-1539 | a text holding an option label such as `B.` or `c)` is a choice question |
| SseParser.ParseLine | tools/sse_parser/sse_parser.py:29-55 | a blank line gives nothing; a parsed line sets at most one field; a non-blank line without a colon is data |
| SseParser.TrimFieldLine | tools/sse_parser/sse_parser.py:31 | stripping a `name: value` line drops only the space after the colon, and only when the value is empty |
| SseParser.FirstColonAfter | tools/sse_parser/sse_parser.py:37 | the line is split at the colon right after a colon-free name |
| SseParser.TrimAfterColon | tools/sse_parser/sse_parser.py:39 | stripping the value removes the space after the colon |
| SseParser.SplitFieldLine | tools/sse_parser/sse_parser.py:31-39 | a `name: value` line splits into that name and that value, whatever colons the value holds |
| SseParser.FieldLineParses | tools/sse_parser/sse_parser.py:29-52 | a `name: value` line is not blank and means what its name and value mean |
| SseParser.FieldLineSetsField | tools/sse_parser/sse_parser.py:41-46 | `data`, `event` and `id` lines put their value in their own field |
| SseParser.RetryLineSetsRetry | tools/sse_parser/sse_parser.py:47-49 | a `retry: n` line sets the retry delay to `n` |
| SseParser.IgnoredLines | tools/sse_parser/sse_parser.py:36-52 | a retry that is not an integer, and any unknown field name, give nothing |
| SseParser.EventBuilder.constructor | tools/sse_parser/sse_parser.py:60 | the event under construction starts with empty data and no other field |
| SseParser.EventBuilder.Absorb | tools/sse_parser/sse_parser.py:71-79 | a parsed line overwrites exactly the fields it gives a truthy value |
| SseParser.ParseStream | tools/sse_parser/sse_parser.py:57-79 | the loop over the lines yields the events the stream specification gives, each with data |
| SseParser.StreamEvents | tools/sse_parser/sse_parser.py:57-79 | every event the stream yields has data, and there are no more events than blank lines |
| SseParser.EmittedHaveData | tools/sse_parser/sse_parser.py:63-67 | every emitted event has data |
| SseParser.EventsNeedBlankLines | tools/sse_parser/sse_parser.py:62-68 | there are no more events than blank lines, so an event still under construction at the end is dropped |
| SseParser.ScanSnoc | tools/sse_parser/sse_parser.py:62 | the state after one more line is that line's step applied to the state before |
| SseParser.ScanDataLine | tools/sse_parser/sse_parser.py:70-73 | a non-blank line emits nothing and replaces the data only with data it holds |
| SseParser.LastDataLineWins | tools/sse_parser/sse_parser.py:62-79 | within a run of non-blank lines the last data line decides the data, and nothing is emitted |
| SseParser.EventCarriesLastData | tools/sse_parser/sse_parser.py:62-79 | the blank line after such a run emits one event carrying the last data line's data |
| SseParser.DatalessBlankLinesKeepState | tools/sse_parser/sse_parser.py:63-68 | blank lines while no data is pending change nothing, so an event name or id set before them carries over |
| SseParser.IgnoredLineKeepsState | tools/sse_parser/sse_parser.py:70-79 | a line that parses to nothing, or to nothing truthy, changes nothing |
| SseParser.EmptyValueChangesNothing | tools/sse_parser/sse_parser.py:70-77 | a `data`, `event` or `id` line with an empty value changes nothing |
| SseParser.ZeroRetryChangesNothing | tools/sse_parser/sse_parser.py:78-79 | `retry: 0` changes nothing |
| SseParser.GetFinds | tools/sse_parser/sse_parser.py:113 | a member is found exactly when one has that name, and what is found is such a member's value |
| SseParser.GetMembers | tools/sse_parser/sse_parser.py:158-161 | reading a member of the built object gives the dictionary's value |
| SseParser.ObjectDict | tools/sse_parser/sse_parser.py:113 | the dictionary `json.loads` builds reads, for every name, the last member of that name in the document |
| SseParser.ItemsOfObject | tools/sse_parser/sse_parser.py:132 | `items()` of a decoded object names each member once, with the last value the document gives it |
| SseParser.ChoiceKey | tools/sse_parser/sse_parser.py:118-119 | a choice has a key only when it is an object with an index |
| SseParser.PutValid | tools/sse_parser/sse_parser.py:140-151 | storing a key keeps each key listed once with a value |
| SseParser.MergeDeltaValid | tools/sse_parser/sse_parser.py:131-140 | merging a delta keeps the dictionary well formed and its content text |
| SseParser.MergeChoiceValid | tools/sse_parser/sse_parser.py:118-146 | merging one choice keeps the record table and its order consistent |
| SseParser.MergeChoicesValid | tools/sse_parser/sse_parser.py:116-146 | merging a choices array keeps the table and its order consistent |
| SseParser.MergeTopValid | tools/sse_parser/sse_parser.py:148-151 | merging top-level members keeps the dictionary well formed and free of `choices` |
| SseParser.MergeEventsValid | tools/sse_parser/sse_parser.py:107-155 | the state after any events is consistent |
| SseParser.MergeDeltaItems | tools/sse_parser/sse_parser.py:131-140 | the loop over a delta's items raises exactly when a `content` item is not text, and otherwise gives the merged delta; it is run on `items()` of the decoded delta, each name once with its last value |
| SseParser.BadContentPersists | tools/sse_parser/sse_parser.py:137 | once a non-text fragment is met, the delta has failed |
| SseParser.ChoiceCrashPersists | tools/sse_parser/sse_parser.py:117-146 | once a choice raises, the choices array has failed |
| SseParser.MergeChoiceList | tools/sse_parser/sse_parser.py:116-146 | the loop over a choices array raises exactly when some choice does, and otherwise gives the merged records |
| SseParser.MergeTopLevel | tools/sse_parser/sse_parser.py:148-151 | the loop gives the merged top-level dictionary |
| SseParser.MergeEventData | tools/sse_parser/sse_parser.py:107-155 | one event raises exactly when its data decodes to a non-object or one of its choices raises, names the exception by the kind of data, and otherwise is merged |
| SseParser.MergeEventsSnoc | tools/sse_parser/sse_parser.py:107 | one more event merges onto the state before it and adds its own failure |
| SseParser.ConcatenateSseData | tools/sse_parser/sse_parser.py:99-161 | the loops, run over `items()` of each decoded object, give the result the concatenation specification defines, including the exception a failure names |
| SseParser.Concatenate | tools/sse_parser/sse_parser.py:99-161 | a failure is the `TypeError` or `AttributeError` the merge raises; a success is an object naming each member once |
| SseParser.DataError | tools/sse_parser/sse_parser.py:116-149 | data that is not an object raises `AttributeError` exactly when it is a string without the substring `choices` or an array without the element `"choices"` (the membership test passes, `items()` fails); every other kind raises `TypeError` |
| SseParser.EventError | tools/sse_parser/sse_parser.py:107-155 | the exception a crashing event raises is `TypeError` or `AttributeError` |
| SseParser.CrashError | tools/sse_parser/sse_parser.py:107-155 | the exception of the first event that crashes is `TypeError` or `AttributeError` |
| SseParser.FirstCrashNamesFailure | tools/sse_parser/sse_parser.py:107-155 | the concatenation fails with the exception of the first event that raises |
| SseParser.StringDataRaisesAttributeError | tools/sse_parser/sse_parser.py:116-149 | an event whose data is a JSON string without `choices` makes the concatenation fail with `AttributeError` |
| SseParser.Assemble | tools/sse_parser/sse_parser.py:158-161 | the built result is an object naming each member once |
| SseParser.CrashesFromThereOn | tools/sse_parser/sse_parser.py:107-155 | once an event raises, the concatenation has failed |
| SseParser.ExtractFinalContent | tools/sse_parser/sse_parser.py:163-173 | anything but an object gives the empty text |
| SseParser.FoldChoice | tools/sse_parser/sse_parser.py:122-146 | a record exists once a choice of that index was merged |
| SseParser.FoldChoiceAppend | tools/sse_parser/sse_parser.py:117-146 | merging two runs of choice objects is merging one after the other |
| SseParser.MergeChoicesKeepTop | tools/sse_parser/sse_parser.py:116-146 | merging choices leaves the top-level dictionary alone |
| SseParser.MergeChoiceEntry | tools/sse_parser/sse_parser.py:118-146 | one choice object touches only the record of its own index |
| SseParser.MergeChoicesPerKey | tools/sse_parser/sse_parser.py:116-146 | merging a choices array treats each index on its own |
| SseParser.RecordPerIndex | tools/sse_parser/sse_parser.py:107-146 | the record of each index is what merging that index's choice objects alone, in arrival order, gives |
| SseParser.MergeDeltaAppends | tools/sse_parser/sse_parser.py:133-137 | merging a delta's items appends the text of their `content` items to the content so far |
| SseParser.DistinctContent | tools/sse_parser/sse_parser.py:132-137 | over items that name each member once, the appended text is that of the one `content` item, and the loop raises exactly when that item is not text |
| SseParser.RepeatedContentKeepsLast | tools/sse_parser/sse_parser.py:113-137 | a delta `{"content": a, "content": b}` contributes only `b` |
| SseParser.RecordFields | tools/sse_parser/sse_parser.py:122-146 | a record holds the first index value seen, the `content` text of each of its choice objects (the last `content` member of that object's delta) joined in arrival order, and the last `logprobs` and `finish_reason` given |
| SseParser.MergeChoicesOrder | tools/sse_parser/sse_parser.py:122-128 | the records are kept in the order their indices were first seen |
| SseParser.ChoicesInFirstSeenOrder | tools/sse_parser/sse_parser.py:107-159 | the choices are listed in the order their indices were first seen, one per index seen |
| SseParser.MergeTopLookup | tools/sse_parser/sse_parser.py:148-151 | a top-level member other than `choices` takes the event's value when it has one |
| SseParser.TopLevelLastWriteWins | tools/sse_parser/sse_parser.py:107-155 | every top-level member but `choices` has the value of the last event that has it |
| SseParser.AssembledFinalContent | tools/sse_parser/sse_parser.py:158-173 | the extractor reads the text of the first listed choice, or the empty text without choices |
| SseParser.FinalContentIsFirstChoiceText | tools/sse_parser/sse_parser.py:99-173 | the final content is the `content` text of each choice object of the first index seen, one per object, joined in arrival order |
| SseParser.NoBlankLine | tools/sse_parser/sse_parser.py:63 | a stream without blank lines counts none |
| SseParser.UnterminatedStreamGivesEmptyObject | tools/sse_parser/sse_parser.py:57-161 | a stream that never ends an event with a blank line yields no event and concatenates to an empty object |
| Strings.Trim | tools/sse_parser/sse_parser.py:31 | `strip()` leaves no whitespace at either end and never lengthens the text |
| Strings.TrimEmptyIff | tools/sse_parser/sse_parser.py:31 | a stripped line is empty exactly when every character of it is whitespace |
| Strings.TrimKeepsChars | tools/sse_parser/sse_parser.py:31 | stripping never introduces a character: every character of the result occurs in the text |
| Strings.TrimIdempotent | tools/sse_parser/sse_parser.py:31 | stripping a stripped text changes nothing |
| Strings.DigitRun | ai_processor.py:518 | the length of the longest prefix of ASCII digits: every character before it is a digit and the one at it, if any, is not |
| Strings.Find | tools/sse_parser/sse_parser.py:37 | the index found is an occurrence of the pattern, and one is found exactly when the text contains the pattern |
| Strings.FindIsFirst | tools/sse_parser/sse_parser.py:37 | no occurrence starts before the index found, so `split(':', 1)` cuts at the first colon |
| Strings.FindCharPrefixAvoids | tools/sse_parser/sse_parser.py:37 | the field name before the first separator does not contain the separator |
| Strings.FindFirstChar | tools/sse_parser/sse_parser.py:37 | a character that does not occur before index `j` but occurs at `j` is found at exactly `j` |
| Strings.Split | tools/sse_parser/sse_parser.py:59 | `split(sep)` with a non-empty separator always yields at least one part |
| Strings.JoinSplit | tools/sse_parser/sse_parser.py:59 | joining the parts of a split with the separator gives back the text |
| Strings.SplitPartsAvoid | tools/sse_parser/sse_parser.py:59 | after splitting on a character, no part contains that character |
| Strings.NatToString | tools/sse_parser/sse_parser.py:49 | `str(n)` is a digit string whose decimal value is `n`, with no leading zero unless `n` is zero |
| Strings.ParseIntOfNat | tools/sse_parser/sse_parser.py:49 | `int(str(n)) == n` |
| Strings.ParseFloatOfNat | ai_processor.py:584 | `float(str(n)) == n` |
| Strings.LexLeTotal | test_id_manager.py:224-226 | any two date strings compare one way or the other |
| Strings.LexLeAntisymmetric | test_id_manager.py:224-226 | strings each at most the other are equal |
| Strings.LexLessIsNotLe | test_id_manager.py:224-226 | `a < b` holds exactly when `b <= a` fails, so the "before date_from" test is the negation of "on or after date_from" |
| Strings.LexLeTransitive | test_id_manager.py:224-226 | string comparison is transitive |
| Sorting.SortDesc | question_matcher.py:138 | `sort(reverse=True)` returns a permutation of its input, of the same length |
| Sorting.SortDescSorted | question_matcher.py:138 | under a total preorder the sorted list is in non-increasing key order |
| Sorting.SortDescHead | test_id_manager.py:302 | the stable sort puts first the earliest element that carries the largest key |
| Sorting.SortDescStable | question_matcher.py:138 | the sort is stable: elements with equal keys keep their relative order |
| Sorting.PrefixKeepsLargest | question_matcher.py:147 | every element left out of a prefix of the sorted list has a key no larger than the last one kept |
| Sorting.PrefixStable | question_matcher.py:147 | the elements of a given key kept in a prefix of the sorted list are the first ones of that key in the input |
| Collections.Count | markdown_grader.py:1742 | a tally counts no more occurrences than the list has, and zero for an absent value |
| Collections.Dedupe | markdown_grader.py:1777 | `list(dict.fromkeys(xs))` holds the same values as `xs`, each once |
| Collections.DedupeSnoc | markdown_grader.py:1777 | appending a value already seen leaves the deduplicated list unchanged; a new value goes to its end |
| Collections.DedupeHead | markdown_grader.py:1777 | the first value of the list stays first after deduplication |
| Collections.Take | markdown_grader.py:1778 | `xs[:n]` is the prefix of length `min(n, len(xs))` |

## Left out

- OCR (`ocr_processor.py`), every OpenAI/DashScope call (`_parse_with_llm`, `_validate_with_llm`, `_ai_semantic_match`, the Markdown LLM parsing): foreign services. Their outputs are inputs of the model, such as an optional verdict per step.
- sympy and `eval` (`_verify_step_with_sympy`'s parser, `_calculate_correct_result`, `_evaluate_math_expression`, `_verify_calculation_with_sympy`, `_validate_fraction_problem`): foreign or host-code execution. They are a partial oracle parameter that returns a value, a parse failure or an escaping exception; the oracle of `_evaluate_math_expression` returns a number, `None` or a value that is not a number.
- Floating point: values are `real`. The tolerances 1e-10, 0.001 and 0.01 are kept as exact comparisons against those constants, with no rounding error modelled.
- Regular expressions: each is modelled only as the specific scan it performs, such as number prefixes, `第N题`, `(x)` answers, the test-id shape, data URIs and base64 runs.
- `_extract_math_expressions` (question_matcher.py) is the `extract` parameter of the expression matcher. The keyword, `difflib` and AI matchers are inputs to the ranking, not re-implemented.
- Strings: whitespace, `lower`, `upper` and `isdigit` are ASCII only. `int()`/`float()` accept plain decimal digits, without underscores, exponents, `inf`/`nan` or non-ASCII digits.
- md5, `datetime.now`, `uuid` and `random.choices`/`random.randint` are inputs: a 32-character hex digest, a timestamp string and sequences of picks and fills.
- File and JSON persistence: loading and saving the test records and question bank, answer logs and report writers. Only the in-memory document is modelled. `json.loads` in the SSE concatenator is an oracle decode that is given the parsed value, with last-key-wins objects.
- Exceptions carry only a name (`Failure(error)`), not the Python exception object or its message text.
- Logging calls and their configuration; `extract_content_from_choice`, `process_sse_file` and the `main` entry points (I/O).
- The front ends and scripts: the Gradio UI, the PDF generator, session files, `run.py`, `setup.py` and the argparse CLI.
- `_get_practice_focus` in cli.py and the gathering of `error_patterns` from the grading log: the advice tables take the counts as given.
- TestRecords.TestStore.GetStatistics: the average number of questions is not rounded to one decimal place, and the `database_info` entry (test_id_manager.py:310) is not returned.
- TestRecords.TestStore: of the metadata only `totalTests` is kept; the `last_updated` stamps written by the constructor, by saving and by deleting (test_id_manager.py:38, 112, 262) come from the clock and are not modelled.
- QuestionModels.RecommendationSpec: `list(set(...))` has no defined order in Python. The weak areas are taken in first-seen order, and only their membership and distinctness are what the source promises.
- QuestionModels.CommonErrorsEntries: `affected_questions` is a set, since the source builds it with `list(set(...))` and its order is unspecified.
- ChoiceGrading.GradeChoiceQuestion: a bank entry that is present but an empty dict (falsy in Python) is not distinguished from a present question.
- ChoiceGrading.MostCommon: the tie rule of `max()` (the first key reaching the maximum count wins) is stated in the separate lemma `ChoiceGrading.BestIsEarliest`, not in the function's own contract.
- AnswerSheet.ExtractTestId: its contract states only the length of the extracted id. That a well-formed labelled id is returned upper-cased is proved for the first label only, in `AnswerSheet.TestIdAfterLabel`.
- QuestionMatcher.Preprocess: the symbol map is a parameter (`self.symbol_mapping`). The properties hold for any map whose replacements contain no key, and `QuestionMatcher.SymbolMappingIsClean` proves that of the program's literal map.
- ChoiceGrading.ChoiceErrorReason: the message `计算错误：学生得到 …，正确答案是 …` keeps the two values as numbers (`WrongValue`); Python's `str()` of a float is not modelled.
- ChoiceGrading.QuestionValue: `_evaluate_math_expression` (its symbol replacements, `_normalize_negative_operations` and `eval`) is the `evaluate` oracle parameter.
- ChoiceGrading.KnowledgePoints: the points are a set, since `list(set(...))` has no defined order.
- TestRecords.Search: its own contract states only that the result is drawn from the stored records; `TestRecords.SearchSpec` states exactly which records pass.
- TestRecords.RecentTests: its own contract states the count and membership; the order and which records are kept are stated in `TestRecords.RecentTestsSpec` and `TestRecords.RecentTestsAreNewest`.
- TestRecords.GenerateTestId: its own contract states the length and the prefix; the upper-cased hexadecimal tail is stated in `TestRecords.GeneratedIdShape`.
- QuestionModels.CommonErrors: its own contract states the count and the order; what each entry holds is stated in `QuestionModels.CommonErrorsEntries`.
- QuestionModels.Recommendation: its own contract states the student, the bound of ten and the progression; the weak areas and the chosen questions are stated in `QuestionModels.RecommendationSpec`.
- PracticeCli.Redact: its own contract states only that empty stays empty; what is copied and what is replaced is stated in `PracticeCli.RedactKeepsPrefix`, `PracticeCli.RedactWithoutImage` and `PracticeCli.RedactReplacesUri`.
- RuleVerifier.RationalRewrite: its own contract states the length and the characters it may add; its effect on a slash-free text and on a leading `a/b` is stated in `RuleVerifier.RewriteWithoutSlash` and `RuleVerifier.RewriteLeadingFraction`.
- Strings.IsSpace: takes the six ASCII whitespace characters space, tab, line feed, carriage return, vertical tab and form feed; `str.strip()` and `\s` also strip U+001C to U+001F and the non-ASCII spaces, which the model leaves out as it does the rest of Python's Unicode tables.
- RuleVerifier.FractionValue: its own contract states only that a value means every piece was accepted; the fold is stated in `RuleVerifier.SumTermsAt` and `RuleVerifier.EvaluateFractionExpression`.
- ErrorClassifier.Classify: which detector wins is stated in `ErrorClassifier.ClassifyIsFirstMatch`.
- AnswerSheet.ExtractQuestionNumber: its own contract states only the line without `第`; the leftmost-match search is `AnswerSheet.QuestionNumberFrom`.
- SseParser.Concatenate: its own contract states the shape of the result; its contents are stated in `SseParser.TopLevelLastWriteWins`, `SseParser.ChoicesInFirstSeenOrder` and `SseParser.RecordPerIndex`.

## Findings

| source | as written | input that shows it | evidently intended | confidence | as-written member | corrected member |
|---|---|---|---|---|---|---|
| ai_processor.py:1143-1156 | `_validate_fraction_steps` rejects any final answer equal to the literal `13/9` | the worked problem 11/16 + 4/9 + 5/16, whose sum is 13/9, answered `13/9` | an answer is wrong only when its value differs from the value of the expression | not executed | FractionSteps.ValidateFractionStepsAsWritten, exhibited by FractionSteps.HardCodedAnswerRejectsCorrectSum and FractionSteps.BasicCheckRejectsWorkedAnswer | FractionSteps.ValidateFractionSteps, proved by FractionSteps.CorrectedJudgesByValue |
| markdown_grader.py:385-388 | in a solution section, a line starting with a code fence runs `continue` before `i += 1`, so the loop never advances | a sheet whose solution contains a line "```" after a `### 第1题` heading | skip the fence line and move to the next line | not executed | AnswerSheet.FenceStalls | AnswerSheet.Step |
| test_id_manager.py:255-259 | `delete_test` deletes a key of `question_mappings` while iterating over that dict, which raises. The handler returns False and writes nothing | save one test for one question, then delete that test | the test is removed and the emptied mapping entry is dropped | not executed | TestRecords.DeletingOnlyTestFails | TestRecords.PruningDeletionEmptiesIndex |
