/** The basic fallback validation of `ai_processor.py`:
    `_validate_steps_basic` and `_validate_fraction_steps`. The latter
    judges a fraction problem by a hard-coded answer; `ValidateFractionSteps`
    is the corrected version, which compares the student's final fraction
    with the value of the fraction chain in the problem text. */
module FractionSteps {
  import opened Wrappers
  import opened Strings
  import opened Reconciliation
  import opened RuleVerifier
  import opened OcrParsing

  // ---------------------------------------------------------------------
  // `re.search(r'(\d+/\d+(?:\s*[+\-×÷]\s*\d+/\d+)*)', text)`

  /** `\d+/\d+` starting at `i`: where the match ends. */
  function FractionAt(t: string, i: nat): (r: Option<nat>)
    requires i <= |t|
    ensures r.Some? ==> i < r.value <= |t|
  {
    var a := DigitRun(t[i..]);
    if a > 0 && i + a < |t| && t[i + a] == '/' then
      var b := DigitRun(t[i + a + 1..]);
      if b > 0 then Some(i + a + 1 + b) else None
    else None
  }

  /** `\s*` from `i`. */
  function SkipSpaces(t: string, i: nat): (j: nat)
    requires i <= |t|
    ensures i <= j <= |t|
    decreases |t| - i
  {
    if i < |t| && IsSpace(t[i]) then SkipSpaces(t, i + 1) else i
  }

  predicate IsChainOperator(c: char) {
    c == '+' || c == '-' || c == '×' || c == '÷'
  }

  /** The greedy `(?:\s*[+\-×÷]\s*\d+/\d+)*` after a fraction ending at `i`. */
  function ChainEnd(t: string, i: nat): (e: nat)
    requires i <= |t|
    ensures i <= e <= |t|
    decreases |t| - i
  {
    var j := SkipSpaces(t, i);
    if j < |t| && IsChainOperator(t[j]) then
      match FractionAt(t, SkipSpaces(t, j + 1))
      case Some(e) => ChainEnd(t, e)
      case None => i
    else i
  }

  /** The leftmost start, at or after `i`, of a fraction. */
  function FirstFraction(t: string, i: nat): (r: Option<nat>)
    requires i <= |t|
    ensures r.Some? ==> i <= r.value <= |t| && FractionAt(t, r.value).Some?
    ensures r.None? ==> forall k :: i <= k <= |t| ==> FractionAt(t, k).None?
    decreases |t| - i
  {
    if FractionAt(t, i).Some? then Some(i)
    else if i == |t| then None
    else FirstFraction(t, i + 1)
  }

  /** The text of the first match, if any. */
  function FractionChain(t: string): Option<string> {
    match FirstFraction(t, 0)
    case None => None
    case Some(s) => Some(t[s..ChainEnd(t, FractionAt(t, s).value)])
  }

  // ---------------------------------------------------------------------
  // The verdicts

  const ParsingError := ValidationResult(false, Some("parsing_error"), "无法解析题目中的分数表达式", [], 0.7)

  const HardCodedError := ValidationResult(
    false, Some("calculation_error"),
    "计算错误，11/16 + 5/16 不等于 16/16，应该等于 16/16 = 1，但还需要加上 4/9",
    ["先计算同分母的分数：11/16 + 5/16 = 16/16 = 1",
     "再加上剩余的分数：1 + 4/9 = 9/9 + 4/9 = 13/9",
     "注意检查每一步的计算是否正确"],
    0.9)

  const FractionPass := ValidationResult(true, None, "基本分数验证通过", [], 0.5)

  /** The student's final answer as a fraction: two runs of ASCII digits
      around one slash, and a non-zero denominator (`Fraction` raises
      otherwise). */
  function StudentFraction(answer: string): Option<real> {
    if '/' in answer then
      var parts := Split(answer, "/");
      if |parts| == 2 && parts[0] != [] && parts[1] != [] && AllDigits(parts[0]) && AllDigits(parts[1])
         && DigitsValue(parts[1]) != 0 then
        Some(DigitsValue(parts[0]) as real / DigitsValue(parts[1]) as real)
      else None
    else None
  }

  /** `_validate_fraction_steps` as written: no fraction in the text is a
      parsing error, a final answer of exactly `13/9` is a calculation
      error, and anything else passes. */
  function ValidateFractionStepsAsWritten(p: MathProblem): (r: ValidationResult)
    ensures r == ParsingError || r == HardCodedError || r == FractionPass
    ensures FractionChain(p.problemText).None? ==> r == ParsingError
  {
    if FractionChain(p.problemText).None? then ParsingError
    else
      var steps := p.studentSolution.steps;
      if steps != [] && StudentFraction(Last(steps).toExpr).Some? && Last(steps).toExpr == "13/9" then HardCodedError
      else FractionPass
  }

  /** The only answer the source ever rejects is `13/9`. */
  lemma AsWrittenRejectsOnlyThirteenNinths(p: MathProblem)
    ensures !ValidateFractionStepsAsWritten(p).isCorrect <==>
            FractionChain(p.problemText).None? ||
            (p.studentSolution.steps != [] && Last(p.studentSolution.steps).toExpr == "13/9")
  {
    var steps := p.studentSolution.steps;
    if steps != [] && Last(steps).toExpr == "13/9" {
      ThirteenNinthsIsAFraction();
    }
  }

  lemma ThirteenNinthsIsAFraction()
    ensures StudentFraction("13/9") == Some(13.0 / 9.0)
  {
    SplitOnceAt("13", "9", '/');
    assert "13/9" == "13" + ['/'] + "9";
    assert DigitsValue("13") == 13 by {
      assert "13"[..1] == "1";
    }
  }

  /** The problem the hard-coded check was written for, `11/16 + 4/9 + 5/16`,
      written as the fraction it opens with and the rest of the text. */
  const WorkedText := "11" + "/" + "16" + " + 4/9 + 5/16"

  const WorkedProblem := MathProblem(
    "problem_1", WorkedText,
    StudentSolution("", [SolutionStep("11/16 + 4/9 + 5/16", "13/9", true, None, None)], []),
    None, "fraction")

  /** A text that opens with `a/b` has a fraction at its start. */
  lemma FractionAtStart(a: string, b: string, rest: string)
    requires a != [] && b != [] && AllDigits(a) && AllDigits(b)
    requires rest == [] || !IsDigit(rest[0])
    ensures FractionAt(a + "/" + b + rest, 0) == Some(|a| + 1 + |b|)
  {
    var t := a + "/" + b + rest;
    assert t[0..] == a + ("/" + b + rest);
    DigitRunOfDigits(a, "/" + b + rest);
    assert t[|a| + 1..] == b + rest;
    DigitRunOfDigits(b, rest);
  }

  lemma WorkedProblemHasAFraction()
    ensures FirstFraction(WorkedText, 0) == Some(0)
  {
    FractionAtStart("11", "16", " + 4/9 + 5/16");
  }

  lemma WorkedSum()
    ensures 11.0 / 16.0 + 4.0 / 9.0 + 5.0 / 16.0 == 13.0 / 9.0
  {
  }

  /** 11/16 + 4/9 + 5/16 is 13/9, yet the source rejects 13/9 as the
      result of that sum. */
  lemma HardCodedAnswerRejectsCorrectSum()
    ensures 11.0 / 16.0 + 4.0 / 9.0 + 5.0 / 16.0 == 13.0 / 9.0
    ensures ValidateFractionStepsAsWritten(WorkedProblem) == HardCodedError
  {
    WorkedSum();
    WorkedProblemHasAFraction();
    ThirteenNinthsIsAFraction();
    assert Last(WorkedProblem.studentSolution.steps).toExpr == "13/9";
  }

  /** The corrected check: a final answer is a calculation error exactly
      when it is a fraction whose value differs from that of the fraction
      chain in the text. Chains that hold `×` or `÷`, or answers that are
      not plain fractions, are not judged. */
  function ValidateFractionSteps(p: MathProblem): (r: ValidationResult)
    ensures FractionChain(p.problemText).None? ==> r == ParsingError
  {
    match FractionChain(p.problemText)
    case None => ParsingError
    case Some(chain) =>
      var steps := p.studentSolution.steps;
      if steps == [] then FractionPass
      else match (StudentFraction(Last(steps).toExpr), FractionValue(chain))
        case (Some(a), Some(v)) =>
          if a == v then FractionPass
          else ValidationResult(false, Some("calculation_error"), "计算错误，最终结果与题目中的分数运算结果不一致", [], 0.9)
        case _ => FractionPass
  }

  /** The corrected check rejects an answer only when its value is wrong,
      and accepts every answer whose value is right. */
  lemma CorrectedJudgesByValue(p: MathProblem)
    requires FractionChain(p.problemText).Some? && p.studentSolution.steps != []
    ensures var a := StudentFraction(Last(p.studentSolution.steps).toExpr);
            var v := FractionValue(FractionChain(p.problemText).value);
            !ValidateFractionSteps(p).isCorrect <==> a.Some? && v.Some? && a.value != v.value
  {
  }

  /** `_validate_steps_basic` as written: no steps is an error, a fraction
      problem goes to the as-written fraction check, and anything else
      passes with low confidence. */
  function ValidateStepsBasicAsWritten(p: MathProblem): (r: ValidationResult)
    ensures p.studentSolution.steps == [] ==> !r.isCorrect && r.errorType == Some("no_steps")
    ensures p.studentSolution.steps != [] && p.problemType == "fraction" ==> r == ValidateFractionStepsAsWritten(p)
    ensures p.studentSolution.steps != [] && p.problemType != "fraction" ==> r.isCorrect && r.confidence == 0.3
  {
    if p.studentSolution.steps == [] then ValidationResult(false, Some("no_steps"), "未找到解答步骤", [], 0.8)
    else if p.problemType == "fraction" then ValidateFractionStepsAsWritten(p)
    else ValidationResult(true, None, "基本验证无法确定准确性", [], 0.3)
  }

  /** As written, the basic check rejects the right answer to the worked
      problem as a calculation error. */
  lemma BasicCheckRejectsWorkedAnswer()
    ensures ValidateStepsBasicAsWritten(WorkedProblem) == HardCodedError
  {
    HardCodedAnswerRejectsCorrectSum();
  }

  /** `_validate_steps_basic` with the corrected fraction check. */
  function ValidateStepsBasic(p: MathProblem): (r: ValidationResult)
    ensures p.studentSolution.steps == [] ==> !r.isCorrect && r.errorType == Some("no_steps")
    ensures p.studentSolution.steps != [] && p.problemType == "fraction" ==> r == ValidateFractionSteps(p)
    ensures p.studentSolution.steps != [] && p.problemType != "fraction" ==> r.isCorrect && r.confidence == 0.3
  {
    if p.studentSolution.steps == [] then ValidationResult(false, Some("no_steps"), "未找到解答步骤", [], 0.8)
    else if p.problemType == "fraction" then ValidateFractionSteps(p)
    else ValidationResult(true, None, "基本验证无法确定准确性", [], 0.3)
  }
}
