/** Step verdicts of `ai_processor.py` and how they are folded into a
    problem verdict: `SolutionStep`, `ValidationResult`,
    `_determine_final_correctness`, `validate_solution`, the counters of
    `generate_feedback` and the keyword fallback `_parse_llm_text_response`.
    LLM verdicts are inputs (`llmDetermine`); rule verdicts come from
    `RuleVerifier`. */
module Reconciliation {
  import opened Wrappers
  import opened Strings

  datatype SolutionStep = SolutionStep(
    fromExpr: string,
    toExpr: string,
    isCorrect: bool,
    llmDetermine: Option<bool>,
    ruleDetermine: Option<bool>)

  datatype ValidationResult = ValidationResult(
    isCorrect: bool,
    errorType: Option<string>,
    errorDescription: string,
    suggestions: seq<string>,
    confidence: real)

  /** `_determine_final_correctness`: the LLM verdict when there is one,
      otherwise the rule verdict, otherwise `false`. A disagreement is only
      logged. */
  function DetermineFinalCorrectness(llm: Option<bool>, rule: Option<bool>): (r: bool)
    ensures llm.Some? ==> r == llm.value
    ensures llm.None? && rule.Some? ==> r == rule.value
    ensures llm.None? && rule.None? ==> !r
  {
    match llm
    case Some(v) => v
    case None => rule.GetOr(false)
  }

  /** A step is accepted only on a positive verdict from the source that
      decides it: the merge never accepts on missing evidence. */
  lemma AcceptanceNeedsPositiveVerdict(llm: Option<bool>, rule: Option<bool>)
    ensures DetermineFinalCorrectness(llm, rule) <==>
            llm == Some(true) || (llm.None? && rule == Some(true))
  {
  }

  /** With an LLM verdict present, no rule verdict can change the outcome. */
  lemma RuleVerdictIgnoredWhenLlmDecides(v: bool, rule1: Option<bool>, rule2: Option<bool>)
    ensures DetermineFinalCorrectness(Some(v), rule1) == DetermineFinalCorrectness(Some(v), rule2)
  {
  }

  /** Both verdicts present and different (a "disagreement"). */
  predicate Disagrees(s: SolutionStep) {
    s.llmDetermine.Some? && s.ruleDetermine.Some? && s.llmDetermine.value != s.ruleDetermine.value
  }

  /** Both verdicts present and equal (an "agreement"). */
  predicate Agrees(s: SolutionStep) {
    s.llmDetermine.Some? && s.ruleDetermine.Some? && s.llmDetermine.value == s.ruleDetermine.value
  }

  /** The step's stored verdict is the merge of its two verdicts. */
  predicate Reconciled(s: SolutionStep) {
    s.isCorrect == DetermineFinalCorrectness(s.llmDetermine, s.ruleDetermine)
  }

  // ---- counting specifications, defined over prefixes so that loops can
  // ---- extend them one step at a time

  function CorrectCount(steps: seq<SolutionStep>): nat
    decreases |steps|
  {
    if steps == [] then 0
    else CorrectCount(steps[..|steps| - 1]) + (if steps[|steps| - 1].isCorrect then 1 else 0)
  }

  function RuleVerifiedCount(steps: seq<SolutionStep>): nat
    decreases |steps|
  {
    if steps == [] then 0
    else RuleVerifiedCount(steps[..|steps| - 1]) + (if steps[|steps| - 1].ruleDetermine.Some? then 1 else 0)
  }

  function LlmVerifiedCount(steps: seq<SolutionStep>): nat
    decreases |steps|
  {
    if steps == [] then 0
    else LlmVerifiedCount(steps[..|steps| - 1]) + (if steps[|steps| - 1].llmDetermine.Some? then 1 else 0)
  }

  function AgreementCount(steps: seq<SolutionStep>): nat
    decreases |steps|
  {
    if steps == [] then 0
    else AgreementCount(steps[..|steps| - 1]) + (if Agrees(steps[|steps| - 1]) then 1 else 0)
  }

  /** 1-based positions of the disagreeing steps, ascending. */
  function Disagreements(steps: seq<SolutionStep>): seq<nat>
    decreases |steps|
  {
    if steps == [] then []
    else Disagreements(steps[..|steps| - 1]) + (if Disagrees(steps[|steps| - 1]) then [|steps|] else [])
  }

  /** 1-based positions of the incorrect steps, ascending. */
  function IncorrectPositions(steps: seq<SolutionStep>): seq<nat>
    decreases |steps|
  {
    if steps == [] then []
    else IncorrectPositions(steps[..|steps| - 1]) + (if !steps[|steps| - 1].isCorrect then [|steps|] else [])
  }

  /** How each counter grows when the prefix grows by one step. */
  lemma CountersExtend(steps: seq<SolutionStep>, i: nat)
    requires i < |steps|
    ensures var p, s := steps[..i + 1], steps[i];
            CorrectCount(p) == CorrectCount(steps[..i]) + (if s.isCorrect then 1 else 0) &&
            RuleVerifiedCount(p) == RuleVerifiedCount(steps[..i]) + (if s.ruleDetermine.Some? then 1 else 0) &&
            LlmVerifiedCount(p) == LlmVerifiedCount(steps[..i]) + (if s.llmDetermine.Some? then 1 else 0) &&
            AgreementCount(p) == AgreementCount(steps[..i]) + (if Agrees(s) then 1 else 0) &&
            Disagreements(p) == Disagreements(steps[..i]) + (if Disagrees(s) then [i + 1] else []) &&
            IncorrectPositions(p) == IncorrectPositions(steps[..i]) + (if !s.isCorrect then [i + 1] else [])
  {
    assert steps[..i + 1][..i] == steps[..i];
  }

  lemma {:induction false} CorrectCountAll(steps: seq<SolutionStep>)
    ensures CorrectCount(steps) <= |steps|
    ensures CorrectCount(steps) == |steps| <==> forall i :: 0 <= i < |steps| ==> steps[i].isCorrect
    decreases |steps|
  {
    if steps != [] {
      var p := steps[..|steps| - 1];
      CorrectCountAll(p);
      assert forall i :: 0 <= i < |p| ==> p[i] == steps[i];
    }
  }

  /** The disagreement list holds exactly the 1-based positions of the
      steps whose two verdicts both exist and differ, in ascending order. */
  lemma {:induction false} DisagreementsExact(steps: seq<SolutionStep>)
    ensures forall k :: k in Disagreements(steps) <==> 1 <= k <= |steps| && Disagrees(steps[k - 1])
    ensures forall a, b :: 0 <= a < b < |Disagreements(steps)| ==> Disagreements(steps)[a] < Disagreements(steps)[b]
    decreases |steps|
  {
    if steps != [] {
      var p := steps[..|steps| - 1];
      DisagreementsExact(p);
      assert forall i :: 0 <= i < |p| ==> p[i] == steps[i];
      var d := Disagreements(steps);
      forall a, b | 0 <= a < b < |d|
        ensures d[a] < d[b]
      {
        if b >= |Disagreements(p)| {
          assert Disagreements(p)[a] in Disagreements(p);
        }
      }
    }
  }

  /** Every agreeing or disagreeing step was checked by both sides, so each
      count is bounded by both verification counts. */
  lemma {:induction false} AgreementsBounded(steps: seq<SolutionStep>)
    ensures AgreementCount(steps) + |Disagreements(steps)| <= RuleVerifiedCount(steps)
    ensures AgreementCount(steps) + |Disagreements(steps)| <= LlmVerifiedCount(steps)
    decreases |steps|
  {
    if steps != [] {
      AgreementsBounded(steps[..|steps| - 1]);
    }
  }

  // ---- confidence

  lemma RatioAtMostOne(x: real, d: real)
    requires 0.0 <= x <= d && d > 0.0
    ensures 0.0 <= x / d <= 1.0
  {
    assert x / d * d == x;
  }

  function Max(a: real, b: real): real {
    if a >= b then a else b
  }

  /** The confidence of `validate_solution`: the share of correct steps,
      raised to at least 0.5 when no step carries a rule verdict. */
  function Confidence(correct: nat, total: nat, anyRuleVerdict: bool): real
    requires total > 0
  {
    var share := correct as real / total as real;
    if anyRuleVerdict then share else Max(0.5, share)
  }

  lemma ConfidenceInUnitInterval(correct: nat, total: nat, anyRuleVerdict: bool)
    requires 0 < total && correct <= total
    ensures 0.0 <= Confidence(correct, total, anyRuleVerdict) <= 1.0
    ensures !anyRuleVerdict ==> Confidence(correct, total, anyRuleVerdict) >= 0.5
  {
    assert correct as real / total as real <= 1.0 by {
      assert correct as real <= total as real;
    }
  }

  /** More correct steps never lower the confidence. */
  lemma ConfidenceMonotone(c1: nat, c2: nat, total: nat, anyRuleVerdict: bool)
    requires 0 < total && c1 <= c2
    ensures Confidence(c1, total, anyRuleVerdict) <= Confidence(c2, total, anyRuleVerdict)
  {
    assert c1 as real / total as real <= c2 as real / total as real by {
      assert c1 as real <= c2 as real;
    }
  }

  // ---- descriptions

  function NatStrings(xs: seq<nat>): (r: seq<string>)
    ensures |r| == |xs|
  {
    seq(|xs|, i requires 0 <= i < |xs| => NatToString(xs[i]))
  }

  /** The note for one incorrect step, at 1-based position `pos`. */
  function IncorrectNote(s: SolutionStep, pos: nat): string {
    "步骤" + NatToString(pos) +
    (if s.ruleDetermine == Some(false) then "（数学计算错误）"
     else if s.llmDetermine == Some(false) && s.ruleDetermine.None? then "（AI判断错误）"
     else "")
  }

  function IncorrectNotes(steps: seq<SolutionStep>): seq<string>
    decreases |steps|
  {
    if steps == [] then []
    else
      var last := steps[|steps| - 1];
      IncorrectNotes(steps[..|steps| - 1]) + (if !last.isCorrect then [IncorrectNote(last, |steps|)] else [])
  }

  /** Description of a fully correct solution; disagreements are reported
      as resolved in favour of the rule verdict. */
  function CorrectDescription(disagreements: seq<nat>): string {
    "解答正确" +
    (if disagreements == [] then ""
     else "（注意：第" + Join(NatStrings(disagreements), ",") + "步AI和数学法则判断不一致，已采用数学法则结果）")
  }

  function IncorrectDescription(notes: seq<string>, disagreements: seq<nat>): string {
    "发现错误：" + Join(notes, ", ") +
    (if disagreements == [] then ""
     else "。第" + Join(NatStrings(disagreements), ",") + "步AI和数学法则判断不一致")
  }

  const NoSolution := ValidationResult(false, Some("no_solution"), "未找到学生解答步骤", [], 1.0)

  /** The notes pair up with the incorrect positions: one note per incorrect
      step, in order, each the note of the step at that position. */
  lemma {:induction false} NotesFollowIncorrectSteps(steps: seq<SolutionStep>)
    ensures |IncorrectNotes(steps)| == |IncorrectPositions(steps)| == |steps| - CorrectCount(steps)
    ensures forall k :: 0 <= k < |IncorrectNotes(steps)| ==>
              1 <= IncorrectPositions(steps)[k] <= |steps| &&
              IncorrectNotes(steps)[k] == IncorrectNote(steps[IncorrectPositions(steps)[k] - 1], IncorrectPositions(steps)[k])
    decreases |steps|
  {
    if steps != [] {
      var p := steps[..|steps| - 1];
      NotesFollowIncorrectSteps(p);
      CorrectCountAll(p);
      assert forall i :: 0 <= i < |p| ==> p[i] == steps[i];
    }
  }

  /** `validate_solution` for the problem's step list. */
  method ValidateSolution(steps: seq<SolutionStep>) returns (r: ValidationResult)
    ensures steps == [] ==> r == NoSolution
    ensures steps != [] ==> (r.isCorrect <==> forall i :: 0 <= i < |steps| ==> steps[i].isCorrect)
    ensures steps != [] ==> r.confidence == Confidence(CorrectCount(steps), |steps|, RuleVerifiedCount(steps) > 0)
    ensures steps != [] && r.isCorrect ==>
              r.errorType == None && r.errorDescription == CorrectDescription(Disagreements(steps))
    ensures steps != [] && !r.isCorrect ==>
              r.errorType == Some("step_analysis") &&
              r.errorDescription == IncorrectDescription(IncorrectNotes(steps), Disagreements(steps))
    ensures r.suggestions == []
  {
    if |steps| == 0 {
      return NoSolution;
    }
    var total := |steps|;
    var correct := CountCorrect(steps);
    var ruleVerified, disagreements := TallyRuleVerdicts(steps);
    var share := correct as real / total as real;
    var confidence := if ruleVerified > 0 then share else Max(0.5, share);
    CorrectCountAll(steps);
    if correct == total {
      return ValidationResult(true, None, CorrectDescription(disagreements), [], confidence);
    }
    var notes := CollectIncorrectNotes(steps);
    return ValidationResult(false, Some("step_analysis"), IncorrectDescription(notes, disagreements), [], confidence);
  }

  /** The first loop of `validate_solution`: counts the steps marked correct. */
  method CountCorrect(steps: seq<SolutionStep>) returns (correct: nat)
    ensures correct == CorrectCount(steps)
  {
    correct := 0;
    for i := 0 to |steps|
      invariant correct == CorrectCount(steps[..i])
    {
      assert steps[..i + 1][..i] == steps[..i];
      if steps[i].isCorrect {
        correct := correct + 1;
      }
    }
    assert steps[..|steps|] == steps;
  }

  /** The second loop of `validate_solution`: counts the rule-verified steps
      and collects the 1-based numbers of the steps where both verdicts exist
      and differ (the agreement counter it also keeps is never read). */
  method TallyRuleVerdicts(steps: seq<SolutionStep>) returns (ruleVerified: nat, disagreements: seq<nat>)
    ensures ruleVerified == RuleVerifiedCount(steps)
    ensures disagreements == Disagreements(steps)
  {
    var agreement := 0;
    ruleVerified, disagreements := 0, [];
    for i := 0 to |steps|
      invariant ruleVerified == RuleVerifiedCount(steps[..i])
      invariant agreement == AgreementCount(steps[..i])
      invariant disagreements == Disagreements(steps[..i])
    {
      assert steps[..i + 1][..i] == steps[..i];
      var step := steps[i];
      if step.ruleDetermine.Some? {
        ruleVerified := ruleVerified + 1;
        if step.llmDetermine.Some? {
          if step.ruleDetermine.value == step.llmDetermine.value {
            agreement := agreement + 1;
          } else {
            disagreements := disagreements + [i + 1];
          }
        }
      }
    }
    assert steps[..|steps|] == steps;
  }

  /** The third loop of `validate_solution`: one note per incorrect step, in
      step order. */
  method CollectIncorrectNotes(steps: seq<SolutionStep>) returns (notes: seq<string>)
    ensures notes == IncorrectNotes(steps)
  {
    notes := [];
    for i := 0 to |steps|
      invariant notes == IncorrectNotes(steps[..i])
    {
      assert steps[..i + 1][..i] == steps[..i];
      if !steps[i].isCorrect {
        notes := notes + [IncorrectNote(steps[i], i + 1)];
      }
    }
    assert steps[..|steps|] == steps;
  }

  /** The note that closes a correct description with disagreements says the
      rule verdict was adopted, yet for a reconciled step the stored verdict
      is the LLM's: here the rule said "wrong", the note says the rule was
      followed, and the step is still counted correct. */
  lemma AdoptedNoteContradictsVerdict()
    ensures var s := SolutionStep("1+1", "2", true, Some(true), Some(false));
            Reconciled(s) && Disagreements([s]) == [1] &&
            Contains(CorrectDescription(Disagreements([s])), "已采用数学法则结果") &&
            s.isCorrect != s.ruleDetermine.value
  {
    var s := SolutionStep("1+1", "2", true, Some(true), Some(false));
    assert [s][..0] == [];
    var d := CorrectDescription([1]);
    var note := "已采用数学法则结果";
    assert NatStrings([1]) == ["1"];
    assert d == "解答正确（注意：第1步AI和数学法则判断不一致，" + note + "）";
    ContainsAt(d, note, 24);
  }

  /** What `generate_feedback` counts about a step list. */
  datatype FeedbackSummary = FeedbackSummary(
    totalSteps: nat,
    correctSteps: nat,
    ruleVerifiedSteps: nat,
    aiLlmSteps: nat,
    agreements: nat,
    disagreementSteps: seq<nat>,
    errorSteps: seq<nat>,
    agreementRate: real)

  function Min(a: nat, b: nat): nat {
    if a <= b then a else b
  }

  lemma AgreementRateBounded(steps: seq<SolutionStep>, denominator: nat)
    requires denominator == if Min(RuleVerifiedCount(steps), LlmVerifiedCount(steps)) < 1 then 1
                            else Min(RuleVerifiedCount(steps), LlmVerifiedCount(steps))
    ensures 0.0 <= AgreementCount(steps) as real / denominator as real <= 1.0
  {
    AgreementsBounded(steps);
    RatioAtMostOne(AgreementCount(steps) as real, denominator as real);
  }

  /** The counters and lists of `generate_feedback`, in one pass. */
  method FeedbackCounters(steps: seq<SolutionStep>) returns (f: FeedbackSummary)
    ensures f.totalSteps == |steps| && f.correctSteps == CorrectCount(steps)
    ensures f.ruleVerifiedSteps == RuleVerifiedCount(steps) && f.aiLlmSteps == LlmVerifiedCount(steps)
    ensures f.agreements == AgreementCount(steps)
    ensures f.disagreementSteps == Disagreements(steps)
    ensures f.errorSteps == IncorrectPositions(steps)
    ensures f.agreementRate == f.agreements as real / (if Min(f.ruleVerifiedSteps, f.aiLlmSteps) < 1 then 1 else Min(f.ruleVerifiedSteps, f.aiLlmSteps)) as real
    ensures 0.0 <= f.agreementRate <= 1.0
  {
    var correct, rule, ai, agree := 0, 0, 0, 0;
    var dis: seq<nat> := [];
    var errors: seq<nat> := [];
    var i := 0;
    while i < |steps|
      invariant 0 <= i <= |steps|
      invariant correct == CorrectCount(steps[..i]) && rule == RuleVerifiedCount(steps[..i])
      invariant ai == LlmVerifiedCount(steps[..i]) && agree == AgreementCount(steps[..i])
      invariant dis == Disagreements(steps[..i]) && errors == IncorrectPositions(steps[..i])
    {
      CountersExtend(steps, i);
      var s := steps[i];
      if s.isCorrect { correct := correct + 1; } else { errors := errors + [i + 1]; }
      if s.ruleDetermine.Some? { rule := rule + 1; }
      if s.llmDetermine.Some? { ai := ai + 1; }
      if Agrees(s) { agree := agree + 1; }
      if Disagrees(s) { dis := dis + [i + 1]; }
      i := i + 1;
    }
    assert steps[..|steps|] == steps;
    var denominator := if Min(rule, ai) < 1 then 1 else Min(rule, ai);
    AgreementRateBounded(steps, denominator);
    f := FeedbackSummary(|steps|, correct, rule, ai, agree, dis, errors, agree as real / denominator as real);
  }

  /** `generate_feedback`'s headline for the given verdict. */
  function FeedbackText(validation: ValidationResult, disagreements: seq<nat>): string {
    if validation.isCorrect then
      "解答正确！所有步骤都是正确的。" +
      (if disagreements == [] then ""
       else " 注意：第" + Join(NatStrings(disagreements), ",") + "步存在AI和数学法则判断不一致。")
    else validation.errorDescription
  }

  // ---- keyword fallback for free-text LLM answers

  const PositiveKeywords: seq<string> := ["正确", "对的", "correct", "答案正确"]
  const NegativeKeywords: seq<string> := ["错误", "不对", "incorrect", "答案错误"]

  predicate MentionsAny(text: string, keywords: seq<string>) {
    exists k :: 0 <= k < |keywords| && Contains(Lower(text), keywords[k])
  }

  /** `_parse_llm_text_response`. */
  function ParseLlmTextResponse(text: string): (r: ValidationResult)
    ensures r.isCorrect <==> MentionsAny(text, PositiveKeywords) && !MentionsAny(text, NegativeKeywords)
    ensures r.confidence == if MentionsAny(text, PositiveKeywords) || MentionsAny(text, NegativeKeywords) then 0.8 else 0.3
    ensures r.isCorrect ==> r.errorDescription == "" && r.errorType == None
    ensures !r.isCorrect ==> r.errorDescription == text && r.errorType == Some("llm_analysis")
    ensures r.suggestions == ["请参考AI分析结果进行改正"]
  {
    var positive := MentionsAny(text, PositiveKeywords);
    var negative := MentionsAny(text, NegativeKeywords);
    var isCorrect := positive && !negative;
    ValidationResult(
      isCorrect,
      if isCorrect then None else Some("llm_analysis"),
      if isCorrect then "" else text,
      ["请参考AI分析结果进行改正"],
      if positive || negative then 0.8 else 0.3)
  }

  /** "incorrect" contains "correct", yet a text saying "incorrect" is never
      read as a positive verdict. */
  lemma IncorrectIsNotCorrect(text: string)
    requires Contains(Lower(text), "incorrect")
    ensures !ParseLlmTextResponse(text).isCorrect
    ensures ParseLlmTextResponse(text).confidence == 0.8
  {
    assert NegativeKeywords[2] == "incorrect";
  }
}
