/** Choice-question grading of `markdown_grader.py`: `_grade_choice_question`
    with its bank lookups, `_classify_choice_error`, the choice suggestion
    table, and `_generate_practice_recommendations`. The question bank is
    the list of `(id, question)` entries in the order the bank file lists
    them. */
module ChoiceGrading {
  import opened Wrappers
  import opened Strings
  import opened Collections
  import opened AnswerSheet
  import ErrorClassifier

  datatype BankChoice = BankChoice(id: string, content: string, explanation: string, isCorrect: bool)

  /** A bank question: the text, tags and chapter under `question_info`
      ("", [] and "" when absent) and its `choices` list, absent for
      calculation questions. */
  datatype BankQuestion = BankQuestion(text: string, choices: Option<seq<BankChoice>>, tags: seq<string>, chapter: string)

  type Bank = seq<(string, BankQuestion)>

  /** `question_bank.get(id)`. The bank is a dict, so its ids are
      distinct; on a list that repeated an id the first entry would win. */
  function LookupId(bank: Bank, id: string): (r: Option<BankQuestion>)
    ensures r.Some? ==> (id, r.value) in bank
    ensures r.None? ==> forall k :: 0 <= k < |bank| ==> bank[k].0 != id
  {
    if bank == [] then None
    else if bank[0].0 == id then Some(bank[0].1)
    else LookupId(bank[1..], id)
  }

  /** `_find_question_by_text`: the first question whose text contains the
      given text (so an empty text finds the first question). */
  function FindByText(bank: Bank, text: string): (r: Option<BankQuestion>)
    ensures r.Some? ==> Contains(r.value.text, text) && exists k :: 0 <= k < |bank| && bank[k].1 == r.value
    ensures r.None? ==> forall k :: 0 <= k < |bank| ==> !Contains(bank[k].1.text, text)
  {
    if bank == [] then None
    else if Contains(bank[0].1.text, text) then Some(bank[0].1)
    else
      var r := FindByText(bank[1..], text);
      assert forall k :: 0 <= k < |bank| - 1 ==> bank[1..][k] == bank[k + 1];
      r
  }

  /** The id of the first choice marked correct. */
  function FirstCorrectId(choices: seq<BankChoice>): (r: Option<string>)
    ensures r.Some? ==> exists k :: 0 <= k < |choices| && choices[k].isCorrect && choices[k].id == r.value
    ensures r.None? ==> forall k :: 0 <= k < |choices| ==> !choices[k].isCorrect
  {
    if choices == [] then None
    else if choices[0].isCorrect then Some(choices[0].id)
    else
      assert forall k :: 0 <= k < |choices| - 1 ==> choices[1..][k] == choices[k + 1];
      FirstCorrectId(choices[1..])
  }

  /** The id found belongs to a correct choice with no correct choice
      before it. */
  lemma {:induction false} FirstCorrectIdIsFirst(choices: seq<BankChoice>, k: nat)
    requires k < |choices| && choices[k].isCorrect
    requires forall j :: 0 <= j < k ==> !choices[j].isCorrect
    ensures FirstCorrectId(choices) == Some(choices[k].id)
    decreases k
  {
    if k > 0 {
      assert choices[1..][k - 1] == choices[k];
      FirstCorrectIdIsFirst(choices[1..], k - 1);
    }
  }

  /** The content and the explanation of the last choice whose lower-cased
      id is `id`, or "" for both (the loop of `_analyze_choice_error`
      overwrites on every match). */
  function ContentOf(choices: seq<BankChoice>, id: string): (r: (string, string))
    ensures (forall k :: 0 <= k < |choices| ==> Lower(choices[k].id) != id) ==> r == ("", "")
    decreases |choices|
  {
    if choices == [] then ("", "")
    else
      var last := choices[|choices| - 1];
      if Lower(last.id) == id then (last.content, last.explanation) else ContentOf(choices[..|choices| - 1], id)
  }

  /** Later matches overwrite earlier ones: the content and explanation read
      are those of the last choice whose lower-cased id matches. */
  lemma {:induction false} ContentOfLastMatch(choices: seq<BankChoice>, id: string, k: nat)
    requires k < |choices| && Lower(choices[k].id) == id
    requires forall j :: k < j < |choices| ==> Lower(choices[j].id) != id
    ensures ContentOf(choices, id) == (choices[k].content, choices[k].explanation)
    decreases |choices|
  {
    if k < |choices| - 1 {
      var init := choices[..|choices| - 1];
      assert init[k] == choices[k];
      forall j | k < j < |init| ensures Lower(init[j].id) != id {
        assert init[j] == choices[j];
      }
      ContentOfLastMatch(init, id, k);
    }
  }

  /** `_classify_choice_error`: a category read from the question text
      alone, first cue wins. */
  function ClassifyChoiceError(text: string): (r: string)
    ensures r in {"符号错误", "分数运算错误", "乘方运算错误", "方程求解错误", "混合运算错误", "计算错误"}
    ensures r == "计算错误" <==>
            !Contains(text, "符号") && !Contains(text, "负数") && !Contains(text, "正负") &&
            !Contains(text, "分数") && '/' !in text && !Contains(text, "乘方") && '²' !in text && '³' !in text &&
            !Contains(text, "方程") && '解' !in text && !Contains(text, "混合") && !('+' in text && '×' in text)
  {
    if Contains(text, "符号") || Contains(text, "负数") || Contains(text, "正负") then "符号错误"
    else if Contains(text, "分数") || '/' in text then "分数运算错误"
    else if Contains(text, "乘方") || '²' in text || '³' in text then "乘方运算错误"
    else if Contains(text, "方程") || '解' in text then "方程求解错误"
    else if Contains(text, "混合") || ('+' in text && '×' in text) then "混合运算错误"
    else "计算错误"
  }

  /** `_generate_choice_suggestions` (the tags are not consulted). */
  function ChoiceSuggestions(category: string): (r: seq<string>)
    ensures |r| == 3
  {
    if category == "符号错误" then ["重点练习正负数的运算规则", "注意负号的处理，特别是乘方运算", "多做符号相关的练习题"]
    else if category == "分数运算错误" then ["加强分数的通分和约分练习", "注意分数运算的基本法则", "练习分数的四则运算"]
    else if category == "乘方运算错误" then ["重点练习乘方的计算规则", "注意底数和指数的关系", "多做乘方相关的练习题"]
    else ["加强基础计算练习", "注意运算顺序", "仔细检查每一步计算"]
  }

  /** Equation, mixed-operation and plain calculation errors share one
      piece of advice. */
  lemma ChoiceSuggestionsShared(text: string)
    ensures var c := ClassifyChoiceError(text);
            ChoiceSuggestions(c) == ChoiceSuggestions("计算错误") <==>
            c == "方程求解错误" || c == "混合运算错误" || c == "计算错误"
  {
  }

  /** The student's choice as it is compared: stripped and lower-cased. */
  function StudentChoice(answer: SheetAnswer): string {
    Lower(Trim(answer.studentAnswer))
  }

  // ---------------------------------------------------------------------
  // `_extract_knowledge_points`

  /** `tag_mapping` */
  const TagPoints: map<string, string> := map[
    "有理数" := "有理数概念", "负数运算" := "负数运算规则", "乘方" := "乘方运算",
    "分数" := "分数运算", "方程" := "方程求解", "混合运算" := "运算顺序"]

  /** `_extract_knowledge_points`: the point of every mapped tag, and a note
      on the chapter when there is one. `list(set(...))` leaves the order
      unspecified, so the points are a set. */
  function KnowledgePoints(tags: seq<string>, chapter: string): (r: set<string>)
    ensures forall t :: t in tags && t in TagPoints ==> TagPoints[t] in r
    ensures chapter != [] ==> chapter + "相关概念" in r
    ensures forall p :: p in r ==> (exists t :: t in tags && t in TagPoints && TagPoints[t] == p) ||
                                   (chapter != [] && p == chapter + "相关概念")
  {
    (set t | t in tags && t in TagPoints :: TagPoints[t]) + (if chapter != [] then {chapter + "相关概念"} else {})
  }

  /** Tags outside the mapping and an empty chapter give no points. */
  lemma UnmappedTagsGiveNoPoints(tags: seq<string>)
    requires forall t :: t in tags ==> t !in TagPoints
    ensures KnowledgePoints(tags, "") == {}
  {
  }

  // ---------------------------------------------------------------------
  // `_analyze_choice_error_reason`

  /** The lazy `(.+?)[？?]` whose match began at `s`, scanning from `j` on
      one line: where the question mark that ends the shortest non-empty
      match stands. */
  function MarkAfter(t: string, s: nat, j: nat): (r: Option<nat>)
    requires s < j <= |t|
    ensures r.Some? ==> j <= r.value < |t| && (t[r.value] == '？' || t[r.value] == '?')
    ensures r.Some? ==> forall k :: j <= k < r.value ==> t[k] != '\n' && t[k] != '？' && t[k] != '?'
    decreases |t| - j
  {
    if j == |t| || t[j] == '\n' then None
    else if t[j] == '？' || t[j] == '?' then Some(j)
    else MarkAfter(t, s, j + 1)
  }

  /** The expression `re.search(r'计算：(.+?)[？?]', text)` captures at or
      after `i`, stripped: the leftmost `计算：` that a question mark
      follows on the same line. */
  function QuestionExpressionFrom(t: string, i: nat): (r: Option<string>)
    requires i <= |t|
    ensures r.Some? ==> Contains(t, "计算：")
    decreases |t| - i
  {
    if i + 3 < |t| && t[i..i + 3] == "计算：" && t[i + 3] != '\n' && MarkAfter(t, i + 3, i + 4).Some? then
      ContainsAt(t, "计算：", i);
      Some(Trim(t[i + 3..MarkAfter(t, i + 3, i + 4).value]))
    else if i == |t| then None
    else QuestionExpressionFrom(t, i + 1)
  }

  /** `_calculate_expression_value`: the captured expression evaluated by
      `_evaluate_math_expression` (the oracle `evaluate`), or nothing. */
  function QuestionValue(evaluate: string -> Option<real>, text: string): (r: Option<real>)
    ensures !Contains(text, "计算：") ==> r.None?
  {
    match QuestionExpressionFrom(text, 0)
    case Some(e) => evaluate(e)
    case None => None
  }

  /** `_parse_choice_value`: the first number in the choice content. */
  function ChoiceValue(content: string): (r: Option<real>)
    ensures r.Some? ==> r.value in ErrorClassifier.FindNumbers(content, 0)
    ensures r.None? <==> ErrorClassifier.FindNumbers(content, 0) == []
  {
    var ns := ErrorClassifier.FindNumbers(content, 0);
    if ns == [] then None else Some(ns[0])
  }

  /** The sentences given when the values cannot be compared. */
  const ChoiceReasonTexts: set<string> := {
    "符号处理错误，可能混淆了正负号规则", "分数运算错误，可能通分或约分有误",
    "乘方运算错误，可能混淆了底数和指数的关系", "基本计算错误"}

  /** `_analyze_choice_error_reason`: when the question's value and the
      student's value are both known, whether they agree within 0.001;
      otherwise a sentence chosen by the first cue of the question text. */
  function ChoiceErrorReason(questionValue: Option<real>, text: string, studentContent: string): (r: ChoiceReason)
    ensures r.WrongValue? <==>
            questionValue.Some? && ChoiceValue(studentContent).Some? &&
            !(ErrorClassifier.Abs(questionValue.value - ChoiceValue(studentContent).value) < 0.001)
    ensures r.WrongValue? ==> Some(r.correct) == questionValue && Some(r.student) == ChoiceValue(studentContent)
    ensures r == Canned("计算过程正确，但选择了错误选项") <==>
            questionValue.Some? && ChoiceValue(studentContent).Some? &&
            ErrorClassifier.Abs(questionValue.value - ChoiceValue(studentContent).value) < 0.001
    ensures questionValue.None? ==> r.Canned? && r.text in ChoiceReasonTexts
  {
    match (questionValue, ChoiceValue(studentContent))
    case (Some(c), Some(v)) =>
      if ErrorClassifier.Abs(c - v) < 0.001 then Canned("计算过程正确，但选择了错误选项") else WrongValue(v, c)
    case _ =>
      if Contains(text, "符号") then Canned("符号处理错误，可能混淆了正负号规则")
      else if Contains(text, "分数") then Canned("分数运算错误，可能通分或约分有误")
      else if Contains(text, "乘方") then Canned("乘方运算错误，可能混淆了底数和指数的关系")
      else Canned("基本计算错误")
  }

  /** Without a value for the question, a text with no cue gets the basic
      sentence. */
  lemma NoCueGivesBasicReason(text: string, studentContent: string)
    requires !Contains(text, "符号") && !Contains(text, "分数") && !Contains(text, "乘方")
    ensures ChoiceErrorReason(None, text, studentContent) == Canned("基本计算错误")
  {
  }

  /** `_analyze_choice_error` */
  function WrongChoiceAnalysis(evaluate: string -> Option<real>, answer: SheetAnswer, q: BankQuestion,
                               choices: seq<BankChoice>, correctId: string): ErrorAnalysis {
    var category := ClassifyChoiceError(answer.questionText);
    var (studentContent, studentExplanation) := ContentOf(choices, StudentChoice(answer));
    var (correctContent, correctExplanation) := ContentOf(choices, Lower(correctId));
    WrongChoice("wrong_choice", category, "选择了错误选项 " + Upper(StudentChoice(answer)),
                studentContent, correctContent, studentExplanation, correctExplanation,
                KnowledgePoints(q.tags, q.chapter),
                ChoiceErrorReason(QuestionValue(evaluate, answer.questionText), answer.questionText, studentContent),
                ChoiceSuggestions(category))
  }

  /** The question grading consults: by id, else by text. */
  function QuestionFor(answer: SheetAnswer, bank: Bank): Option<BankQuestion> {
    match LookupId(bank, answer.questionId)
    case Some(q) => Some(q)
    case None => FindByText(bank, answer.questionText)
  }

  /** The answer record after `_grade_choice_question`. */
  function GradedChoice(evaluate: string -> Option<real>, answer: SheetAnswer, bank: Bank): SheetAnswer {
    match QuestionFor(answer, bank)
    case None => answer.(isCorrect := Some(false), errorAnalysis := Some(QuestionMissing(answer.questionId)))
    case Some(q) =>
      match q.choices
      case None => answer.(isCorrect := Some(false), errorAnalysis := Some(NotInBank))
      case Some(choices) =>
        match FirstCorrectId(choices)
        case Some(id) =>
          if id == [] then answer.(isCorrect := Some(false), errorAnalysis := Some(NoCorrectChoice))
          else if StudentChoice(answer) == Lower(id) then answer.(isCorrect := Some(true), errorAnalysis := None)
          else answer.(isCorrect := Some(false), errorAnalysis := Some(WrongChoiceAnalysis(evaluate, answer, q, choices, id)))
        case None => answer.(isCorrect := Some(false), errorAnalysis := Some(NoCorrectChoice))
  }

  /** `_grade_choice_question`: the lookup by id, then by text, and the
      grading against the first choice marked correct. */
  method GradeChoiceQuestion(evaluate: string -> Option<real>, answer: SheetAnswer, bank: Bank) returns (r: SheetAnswer)
    ensures r == GradedChoice(evaluate, answer, bank)
  {
    var question := LookupId(bank, answer.questionId);
    if question.None? {
      question := FindQuestionByText(bank, answer.questionText);
    }
    assert question == QuestionFor(answer, bank);
    if question.None? {
      return answer.(isCorrect := Some(false), errorAnalysis := Some(QuestionMissing(answer.questionId)));
    }
    if question.value.choices.None? {
      return answer.(isCorrect := Some(false), errorAnalysis := Some(NotInBank));
    }
    var choices := question.value.choices.value;
    var correct := FindCorrectChoice(choices);
    if correct.None? || correct.value == [] {
      return answer.(isCorrect := Some(false), errorAnalysis := Some(NoCorrectChoice));
    }
    var id := correct.value;
    var student := Lower(Trim(answer.studentAnswer));
    if student == Lower(id) {
      return answer.(isCorrect := Some(true), errorAnalysis := None);
    }
    var analysis := AnalyzeChoiceError(evaluate, answer, question.value, choices, id);
    r := answer.(isCorrect := Some(false), errorAnalysis := Some(analysis));
  }

  /** The loop of `_grade_choice_question` that looks for the first choice
      marked correct. */
  method FindCorrectChoice(choices: seq<BankChoice>) returns (correct: Option<string>)
    ensures correct == FirstCorrectId(choices)
  {
    for k := 0 to |choices|
      invariant FirstCorrectId(choices) == FirstCorrectId(choices[k..])
    {
      assert choices[k..][1..] == choices[k + 1..];
      if choices[k].isCorrect {
        return Some(choices[k].id);
      }
    }
    return None;
  }

  /** `_find_question_by_text`: the scan over the bank in order. */
  method FindQuestionByText(bank: Bank, text: string) returns (question: Option<BankQuestion>)
    ensures question == FindByText(bank, text)
  {
    for i := 0 to |bank|
      invariant FindByText(bank, text) == FindByText(bank[i..], text)
    {
      assert bank[i..][1..] == bank[i + 1..];
      if Contains(bank[i].1.text, text) {
        return Some(bank[i].1);
      }
    }
    return None;
  }

  /** `_analyze_choice_error`: one pass over the choices reads the contents
      and explanations of the student's and of the correct choice. */
  method AnalyzeChoiceError(evaluate: string -> Option<real>, answer: SheetAnswer, q: BankQuestion,
                            choices: seq<BankChoice>, correctId: string) returns (e: ErrorAnalysis)
    ensures e == WrongChoiceAnalysis(evaluate, answer, q, choices, correctId)
  {
    var student, correct := Lower(Trim(answer.studentAnswer)), Lower(correctId);
    var studentContent, correctContent := "", "";
    var studentExplanation, correctExplanation := "", "";
    for k := 0 to |choices|
      invariant (studentContent, studentExplanation) == ContentOf(choices[..k], student)
      invariant (correctContent, correctExplanation) == ContentOf(choices[..k], correct)
    {
      assert choices[..k + 1][..k] == choices[..k];
      if Lower(choices[k].id) == student {
        studentContent, studentExplanation := choices[k].content, choices[k].explanation;
      }
      if Lower(choices[k].id) == correct {
        correctContent, correctExplanation := choices[k].content, choices[k].explanation;
      }
    }
    assert choices[..|choices|] == choices;
    var category := ClassifyChoiceError(answer.questionText);
    var reason := ChoiceErrorReason(QuestionValue(evaluate, answer.questionText), answer.questionText, studentContent);
    e := WrongChoice("wrong_choice", category, "选择了错误选项 " + Upper(student), studentContent, correctContent,
                     studentExplanation, correctExplanation, KnowledgePoints(q.tags, q.chapter), reason,
                     ChoiceSuggestions(category));
  }

  /** Grading sets the verdict and the analysis and nothing else; the
      answer is correct exactly when the bank gives a question with
      choices, its first correct choice has a non-empty id, and the
      stripped, lower-cased answer equals that id lower-cased. */
  lemma GradedChoiceVerdict(evaluate: string -> Option<real>, answer: SheetAnswer, bank: Bank)
    ensures var r := GradedChoice(evaluate, answer, bank);
            r.(isCorrect := answer.isCorrect, errorAnalysis := answer.errorAnalysis) == answer &&
            r.isCorrect.Some? && (r.errorAnalysis.None? <==> r.isCorrect == Some(true)) &&
            (r.isCorrect == Some(true) <==>
              var q := QuestionFor(answer, bank);
              q.Some? && q.value.choices.Some? &&
              var id := FirstCorrectId(q.value.choices.value);
              id.Some? && id.value != [] && Lower(Trim(answer.studentAnswer)) == Lower(id.value))
  {
  }

  /** An answer whose question is neither in the bank under its id nor
      found by its text is marked wrong, with the missing id recorded. */
  lemma MissingQuestionIsWrong(evaluate: string -> Option<real>, answer: SheetAnswer, bank: Bank)
    requires forall k :: 0 <= k < |bank| ==> bank[k].0 != answer.questionId && !Contains(bank[k].1.text, answer.questionText)
    ensures GradedChoice(evaluate, answer, bank).isCorrect == Some(false)
    ensures GradedChoice(evaluate, answer, bank).errorAnalysis == Some(QuestionMissing(answer.questionId))
  {
  }

  /** Case and surrounding blanks of the student's answer do not matter. */
  lemma GradingIgnoresCaseAndBlanks(evaluate: string -> Option<real>, answer: SheetAnswer, bank: Bank, other: string)
    requires Lower(Trim(other)) == Lower(Trim(answer.studentAnswer))
    ensures GradedChoice(evaluate, answer.(studentAnswer := other), bank).isCorrect ==
            GradedChoice(evaluate, answer, bank).isCorrect
  {
    assert QuestionFor(answer.(studentAnswer := other), bank) == QuestionFor(answer, bank);
  }

  // ---------------------------------------------------------------------
  // `_generate_practice_recommendations`

  /** The parts of the error analysis the recommendations read: the keys
      of `error_type_distribution`, `weak_areas`, and the `error_reason` of
      each choice error (absent reasons read as "未知原因"). */
  datatype ErrorSummary = ErrorSummary(errorTypes: set<string>, weakAreas: seq<string>, choiceReasons: seq<Option<string>>)

  datatype Recommendations = Recommendations(priorityAreas: seq<string>, practiceSuggestions: seq<string>, nextFocus: seq<string>)

  function Reasons(e: ErrorSummary): (r: seq<string>)
    ensures |r| == |e.choiceReasons|
  {
    seq(|e.choiceReasons|, i requires 0 <= i < |e.choiceReasons| => e.choiceReasons[i].GetOr("未知原因"))
  }

  /** `max(counts.items(), key=count)[0]` over the first `n` kinds: a later
      kind replaces the best so far only with a strictly larger count, so
      ties go to the kind seen first. */
  function BestUpTo(kinds: seq<string>, xs: seq<string>, n: nat): (r: string)
    requires 0 < n <= |kinds|
    ensures r in kinds[..n]
    ensures forall k :: 0 <= k < n ==> Count(xs, kinds[k]) <= Count(xs, r)
  {
    if n == 1 then kinds[0]
    else
      var b := BestUpTo(kinds, xs, n - 1);
      if Count(xs, kinds[n - 1]) > Count(xs, b) then kinds[n - 1] else b
  }

  /** On a tie the kind seen first wins: no kind before the best one is
      as frequent. */
  lemma {:induction false} BestIsEarliest(kinds: seq<string>, xs: seq<string>, n: nat, k: nat)
    requires k < n <= |kinds|
    requires Count(xs, kinds[k]) == Count(xs, BestUpTo(kinds, xs, n))
    ensures BestUpTo(kinds, xs, n) in kinds[..k + 1]
    decreases n
  {
    if n > 1 {
      var b := BestUpTo(kinds, xs, n - 1);
      assert k < n - 1 ==> Count(xs, kinds[k]) <= Count(xs, b);
      // When kind n - 1 beats the earlier best, it is the best and k == n - 1.
      if Count(xs, kinds[n - 1]) <= Count(xs, b) {
        if k < n - 1 {
          BestIsEarliest(kinds, xs, n - 1, k);
        } else {
          assert kinds[..n - 1] <= kinds[..k + 1];
        }
      }
    }
  }

  /** The most frequent reason, the earliest one on a tie. */
  function MostCommon(xs: seq<string>): (r: string)
    requires xs != []
    ensures r in xs
    ensures forall x :: x in xs ==> Count(xs, x) <= Count(xs, r)
  {
    var kinds := Dedupe(xs);
    assert xs[0] in kinds;
    var r := BestUpTo(kinds, xs, |kinds|);
    assert kinds[..|kinds|] == kinds;
    assert forall x :: x in xs ==> exists k :: 0 <= k < |kinds| && kinds[k] == x;
    r
  }

  // The (area, advice) pair each rule of `_generate_practice_recommendations`
  // appends.
  const SignRule := ("正负数运算规则", "重点练习正负数的加减乘除运算，特别注意符号变化规律")
  const ArithmeticRule := ("基础运算能力", "加强四则运算的基本功练习，提高计算准确性")
  const ConceptRule := ("数学概念理解", "深入理解相关数学概念，多做概念辨析题")
  const StrategyRule := ("选择题解题策略", "学习选择题的解题技巧，包括排除法、代入法等")
  const ReadingRule := ("选择题解题策略", "加强选择题的审题和选项分析能力")
  const SignedNumbersRule := ("正负数运算", "重点练习正负数的四则运算，掌握同号相加、异号相减的规律")
  const FractionRule := ("分数计算", "加强分数的加减乘除运算练习，特别注意通分和约分技巧")
  const PowerRule := ("乘方计算", "重点练习乘方的计算规则，理解底数、指数和幂的关系")

  /** Every pair a rule can append: an area always comes with its own
      rule's advice. */
  const AdviceRules: set<(string, string)> :=
    {SignRule, ArithmeticRule, ConceptRule, StrategyRule, ReadingRule, SignedNumbersRule, FractionRule, PowerRule}

  /** The areas the choice errors can contribute. */
  const ChoiceAreas: set<string> := {"正负数运算规则", "基础运算能力", "数学概念理解", "选择题解题策略"}

  /** The area and the advice for the most common choice-error reason: the
      first of the cues 符号处理, 计算错误, 概念理解 it contains picks the
      area, and a reason with none of them gets the strategy area. */
  function ReasonAdvice(reason: string): (r: (string, string))
    ensures r in AdviceRules && r.0 in ChoiceAreas
    ensures r.0 == "正负数运算规则" <==> Contains(reason, "符号处理")
    ensures r.0 == "基础运算能力" <==> !Contains(reason, "符号处理") && Contains(reason, "计算错误")
    ensures r.0 == "数学概念理解" <==>
              !Contains(reason, "符号处理") && !Contains(reason, "计算错误") && Contains(reason, "概念理解")
    ensures r.0 == "选择题解题策略" <==>
              !Contains(reason, "符号处理") && !Contains(reason, "计算错误") && !Contains(reason, "概念理解")
  {
    ChoiceAreasDiffer();
    if Contains(reason, "符号处理") then SignRule
    else if Contains(reason, "计算错误") then ArithmeticRule
    else if Contains(reason, "概念理解") then ConceptRule
    else StrategyRule
  }

  /** The four choice areas are pairwise different. */
  lemma ChoiceAreasDiffer()
    ensures "正负数运算规则" != "基础运算能力" && "正负数运算规则" != "数学概念理解" && "正负数运算规则" != "选择题解题策略"
    ensures "基础运算能力" != "数学概念理解" && "基础运算能力" != "选择题解题策略" && "数学概念理解" != "选择题解题策略"
  {
    assert "正负数运算规则"[0] != "选择题解题策略"[0];
    assert "基础运算能力"[0] != "数学概念理解"[0];
  }

  /** The pair contributed when choice questions were answered wrongly:
      the advice for the most common reason, or the reading advice when no
      choice error was recorded. */
  function ChoiceAdvice(e: ErrorSummary): (r: seq<(string, string)>)
    ensures |r| <= 1 && ("wrong_choice" in e.errorTypes <==> |r| == 1)
    ensures forall i :: 0 <= i < |r| ==> r[i].0 in ChoiceAreas && r[i] in AdviceRules
    ensures "wrong_choice" in e.errorTypes && e.choiceReasons == [] ==> r == [ReadingRule]
    ensures "wrong_choice" in e.errorTypes && e.choiceReasons != [] ==> r == [ReasonAdvice(MostCommon(Reasons(e)))]
  {
    if "wrong_choice" in e.errorTypes then
      if e.choiceReasons != [] then [ReasonAdvice(MostCommon(Reasons(e)))]
      else [ReadingRule]
    else []
  }

  /** The pairs contributed by the weak areas, sign before fraction before
      power. */
  function WeakAreaAdvice(weakAreas: seq<string>): seq<(string, string)> {
    (if "符号运算" in weakAreas then [SignedNumbersRule] else []) +
    (if "分数运算" in weakAreas then [FractionRule] else []) +
    (if "乘方运算" in weakAreas then [PowerRule] else [])
  }

  /** The weak areas contribute distinct areas, none of them a choice
      area, each with its own rule's advice. */
  lemma WeakAreaAdviceShape(w: seq<string>)
    ensures Distinct(Firsts(WeakAreaAdvice(w)))
    ensures forall i :: 0 <= i < |WeakAreaAdvice(w)| ==>
              WeakAreaAdvice(w)[i] in AdviceRules && WeakAreaAdvice(w)[i].0 !in ChoiceAreas
  {
    WeakNamesAreNoChoiceAreas();
    var a := Firsts(WeakAreaAdvice(w));
    assert "正负数运算" != "分数计算" && "正负数运算" != "乘方计算" && "分数计算" != "乘方计算";
    assert forall i :: 0 <= i < |a| ==> a[i] in ["正负数运算", "分数计算", "乘方计算"];
    forall i, j | 0 <= i < j < |a| ensures a[i] != a[j] {
      assert WeakAreaAdvice(w)[i] != WeakAreaAdvice(w)[j];
    }
  }

  /** The areas of all appended pairs are distinct, and each pair comes
      from one rule. */
  lemma AdvicePairsShape(e: ErrorSummary)
    ensures Distinct(Firsts(AdvicePairs(e)))
    ensures forall i :: 0 <= i < |AdvicePairs(e)| ==> AdvicePairs(e)[i] in AdviceRules
  {
    var head, weak := ChoiceAdvice(e), WeakAreaAdvice(e.weakAreas);
    FirstsAppend(head, weak);
    WeakAreaAdviceShape(e.weakAreas);
    var a := Firsts(AdvicePairs(e));
    forall i, j | 0 <= i < j < |a| ensures a[i] != a[j] {
      if i < |head| {
        assert a[i] == head[i].0 && a[j] == weak[j - |head|].0;
      } else {
        assert a[i] == Firsts(weak)[i - |head|] && a[j] == Firsts(weak)[j - |head|];
      }
    }
    forall i | 0 <= i < |AdvicePairs(e)| ensures AdvicePairs(e)[i] in AdviceRules {
      if i >= |head| {
        assert AdvicePairs(e)[i] == weak[i - |head|];
      }
    }
  }

  /** The (area, advice) pairs in the order they are appended. */
  function AdvicePairs(e: ErrorSummary): seq<(string, string)> {
    ChoiceAdvice(e) + WeakAreaAdvice(e.weakAreas)
  }

  function Firsts(ps: seq<(string, string)>): (r: seq<string>)
    ensures |r| == |ps| && forall i :: 0 <= i < |ps| ==> r[i] == ps[i].0
  {
    seq(|ps|, i requires 0 <= i < |ps| => ps[i].0)
  }

  function Seconds(ps: seq<(string, string)>): (r: seq<string>)
    ensures |r| == |ps| && forall i :: 0 <= i < |ps| ==> r[i] == ps[i].1
  {
    seq(|ps|, i requires 0 <= i < |ps| => ps[i].1)
  }

  /** `_generate_practice_recommendations` */
  function PracticeRecommendations(e: ErrorSummary): (r: Recommendations)
    ensures |r.priorityAreas| == |r.practiceSuggestions| <= 4
    ensures forall i :: 0 <= i < |r.priorityAreas| ==> (r.priorityAreas[i], r.practiceSuggestions[i]) in AdviceRules
    ensures "wrong_choice" in e.errorTypes ==>
              r.priorityAreas != [] && (r.priorityAreas[0], r.practiceSuggestions[0]) == ChoiceAdvice(e)[0]
    ensures Distinct(r.priorityAreas)
    ensures r.nextFocus == Take(r.priorityAreas, 3)
  {
    var pairs := AdvicePairs(e);
    var areas := Firsts(pairs);
    AdvicePairsShape(e);
    DedupeDistinct(areas);
    var focus := Take(Dedupe(areas), 3);
    assert "wrong_choice" in e.errorTypes ==> pairs[0] == ChoiceAdvice(e)[0];
    Recommendations(areas, Seconds(pairs), focus)
  }

  /** The weak areas contribute exactly the areas they name. */
  lemma WeakAreaNames(w: seq<string>)
    ensures var a := Firsts(WeakAreaAdvice(w));
            ("正负数运算" in a <==> "符号运算" in w) &&
            ("分数计算" in a <==> "分数运算" in w) &&
            ("乘方计算" in a <==> "乘方运算" in w)
  {
    var s1: seq<(string, string)> := if "符号运算" in w then [("正负数运算", "重点练习正负数的四则运算，掌握同号相加、异号相减的规律")] else [];
    var s2: seq<(string, string)> := if "分数运算" in w then [("分数计算", "加强分数的加减乘除运算练习，特别注意通分和约分技巧")] else [];
    var s3: seq<(string, string)> := if "乘方运算" in w then [("乘方计算", "重点练习乘方的计算规则，理解底数、指数和幂的关系")] else [];
    assert WeakAreaAdvice(w) == s1 + s2 + s3;
    FirstsAppend(s1 + s2, s3);
    FirstsAppend(s1, s2);
    assert Firsts(s1) == if "符号运算" in w then ["正负数运算"] else [];
    assert Firsts(s2) == if "分数运算" in w then ["分数计算"] else [];
    assert Firsts(s3) == if "乘方运算" in w then ["乘方计算"] else [];
    assert "正负数运算" != "分数计算" && "正负数运算" != "乘方计算" && "分数计算" != "乘方计算";
  }

  /** The choice-error area comes first, then one area per weak area the
      summary names, in the fixed order sign, fraction, power. */
  lemma PriorityAreasFollowWeakAreas(e: ErrorSummary)
    ensures var a := Firsts(AdvicePairs(e));
            ("正负数运算" in a <==> "符号运算" in e.weakAreas) &&
            ("分数计算" in a <==> "分数运算" in e.weakAreas) &&
            ("乘方计算" in a <==> "乘方运算" in e.weakAreas)
  {
    var head, weak := ChoiceAdvice(e), WeakAreaAdvice(e.weakAreas);
    FirstsAppend(head, weak);
    WeakAreaNames(e.weakAreas);
    WeakNamesAreNoChoiceAreas();
    NotAmongAreas(head, "正负数运算");
    NotAmongAreas(head, "分数计算");
    NotAmongAreas(head, "乘方计算");
  }

  /** The areas of two joined lists are the areas of each, joined. */
  lemma FirstsAppend(a: seq<(string, string)>, b: seq<(string, string)>)
    ensures Firsts(a + b) == Firsts(a) + Firsts(b)
  {
    assert |Firsts(a + b)| == |Firsts(a) + Firsts(b)|;
    forall i | 0 <= i < |a + b| ensures Firsts(a + b)[i] == (Firsts(a) + Firsts(b))[i] {
      if i < |a| {
        assert (a + b)[i] == a[i];
      } else {
        assert (a + b)[i] == b[i - |a|];
      }
    }
  }

  /** An area outside the choice areas is not among areas that all are. */
  lemma NotAmongAreas(ps: seq<(string, string)>, x: string)
    requires forall i :: 0 <= i < |ps| ==> ps[i].0 in ChoiceAreas
    requires x !in ChoiceAreas
    ensures x !in Firsts(ps)
  {
    forall i | 0 <= i < |ps| ensures Firsts(ps)[i] != x {
      assert Firsts(ps)[i] == ps[i].0;
    }
  }

  /** No weak-area name is one of the choice areas. */
  lemma WeakNamesAreNoChoiceAreas()
    ensures "正负数运算" !in ChoiceAreas && "分数计算" !in ChoiceAreas && "乘方计算" !in ChoiceAreas
  {
    assert |"正负数运算"| == 5 && |"分数计算"| == 4 && |"乘方计算"| == 4;
    assert |"正负数运算规则"| == 7 && |"基础运算能力"| == 6 && |"数学概念理解"| == 6 && |"选择题解题策略"| == 7;
  }
}
