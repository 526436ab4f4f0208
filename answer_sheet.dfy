/** The rule-based Markdown answer-sheet reader of `markdown_grader.py`:
    `_extract_value`, `_extract_question_number`, the line-driven
    `_parse_with_rules`, `_parse_calculation_steps_simple` and
    `extract_test_id_from_markdown`. The reader as written never leaves a
    code fence inside a solution; `Step` is the corrected loop body, which
    skips the fence line, and `StepAsWritten` keeps the stall. */
module AnswerSheet {
  import opened Wrappers
  import opened Strings
  import opened RuleVerifier
  import opened Reconciliation
  import FractionSteps
  import OcrParsing

  // ---------------------------------------------------------------------
  // `_extract_value`: `re.sub(r'\*\*.*?\*\*:\s*', '', line).strip()`

  /** Where a label match starting at the head of `t` ends: `**`, the
      shortest run without a line break up to `**:`, then blanks. */
  function LabelEnd(t: string): (r: Option<nat>)
    ensures r.Some? ==> 5 <= r.value <= |t| && t[0] == '*'
  {
    if StartsWith(t, "**") then
      match Find(t[2..], "**:")
      case Some(k) => if '\n' in t[2..2 + k] then None else Some(FractionSteps.SkipSpaces(t, k + 5))
      case None => None
    else None
  }

  /** Every label match removed, scanning from the left. */
  function RemoveLabels(t: string): (r: string)
    ensures |r| <= |t|
    decreases |t|
  {
    if t == [] then []
    else match LabelEnd(t)
      case Some(e) => RemoveLabels(t[e..])
      case None => [t[0]] + RemoveLabels(t[1..])
  }

  function ExtractValue(line: string): string {
    Trim(RemoveLabels(line))
  }

  /** A text without asterisks holds no label. */
  lemma {:induction false} RemoveLabelsWithoutStars(t: string)
    requires '*' !in t
    ensures RemoveLabels(t) == t
    decreases |t|
  {
    if t != [] {
      assert t[0] != '*';
      assert forall c :: c in t[1..] ==> c in t;
      RemoveLabelsWithoutStars(t[1..]);
    }
  }

  /** `SkipSpaces` finds where `strip` would start. */
  lemma {:induction false} SkipSpacesTrims(t: string, i: nat)
    requires i <= |t|
    ensures t[FractionSteps.SkipSpaces(t, i)..] == TrimStart(t[i..])
    decreases |t| - i
  {
    if i < |t| && IsSpace(t[i]) {
      assert t[i..][1..] == t[i + 1..];
      SkipSpacesTrims(t, i + 1);
    }
  }

  /** The first `**:` after a run without asterisks is the one after it. */
  lemma FindAfterStarless(a: string, b: string)
    requires '*' !in a
    ensures Find(a + "**:" + b, "**:") == Some(|a|)
  {
    var s := a + "**:" + b;
    assert s[|a|..|a| + 3] == "**:";
    FindIsFirst(s, "**:", |a|);
    var k := Find(s, "**:").value;
    assert s[k] == '*' by {
      assert s[k..k + 3] == "**:";
      assert s[k] == s[k..k + 3][0];
    }
  }

  /** A `**name**:` line yields the text after the colon, stripped. */
  lemma LabelledValue(name: string, v: string)
    requires '*' !in name && '\n' !in name && '*' !in v
    ensures ExtractValue("**" + name + "**:" + v) == Trim(v)
  {
    var t := "**" + name + "**:" + v;
    assert t[2..] == name + "**:" + v;
    FindAfterStarless(name, v);
    assert t[2..2 + |name|] == name;
    var start := |name| + 5;
    var e := FractionSteps.SkipSpaces(t, start);
    assert LabelEnd(t) == Some(e);
    assert t[start..] == v;
    SkipSpacesTrims(t, start);
    assert t[e..] == v[e - start..];
    assert forall c :: c in v[e - start..] ==> c in v;
    RemoveLabelsWithoutStars(t[e..]);
  }

  // ---------------------------------------------------------------------
  // `_extract_question_number`: `re.search(r'第\s*(\d+)\s*题', line)`

  /** `\s*(\d+)\s*题` from `i`. */
  function NumberBeforeMark(t: string, i: nat): Option<nat>
    requires i <= |t|
  {
    var a := FractionSteps.SkipSpaces(t, i);
    var d := DigitRun(t[a..]);
    var b := FractionSteps.SkipSpaces(t, a + d);
    if d > 0 && b < |t| && t[b] == '题' then Some(DigitsValue(t[a..a + d])) else None
  }

  function QuestionNumberAt(t: string, p: nat): Option<nat>
    requires p <= |t|
  {
    if p < |t| && t[p] == '第' then NumberBeforeMark(t, p + 1) else None
  }

  /** The leftmost match at or after `p`. */
  function QuestionNumberFrom(t: string, p: nat): Option<nat>
    requires p <= |t|
    decreases |t| - p
  {
    if p == |t| then None
    else match QuestionNumberAt(t, p)
      case Some(n) => Some(n)
      case None => QuestionNumberFrom(t, p + 1)
  }

  /** The number of a question heading, 0 when there is none. */
  function ExtractQuestionNumber(line: string): (r: nat)
    ensures '第' !in line ==> r == 0
  {
    var n := QuestionNumberFrom(line, 0);
    assert '第' !in line ==> n.None? by {
      if '第' !in line {
        QuestionNumberSkips(line, 0, |line|);
      }
    }
    n.GetOr(0)
  }

  lemma {:induction false} QuestionNumberSkips(t: string, p: nat, q: nat)
    requires p <= q <= |t|
    requires forall k :: p <= k < q ==> t[k] != '第'
    ensures QuestionNumberFrom(t, p) == QuestionNumberFrom(t, q)
    decreases q - p
  {
    if p < q {
      assert QuestionNumberAt(t, p) == None;
      QuestionNumberSkips(t, p + 1, q);
    }
  }

  /** A run of `e` digits at `a` followed directly by `题` is read as the
      value of those digits. */
  lemma DigitsBeforeMark(t: string, a: nat, e: nat)
    requires 0 < e && a + e < |t|
    requires forall i :: a <= i < a + e ==> IsDigit(t[i])
    requires t[a + e] == '题'
    ensures NumberBeforeMark(t, a) == Some(DigitsValue(t[a..a + e]))
  {
    DigitRunUpToMark(t[a..], e);
    assert FractionSteps.SkipSpaces(t, a) == a;
    assert FractionSteps.SkipSpaces(t, a + e) == a + e;
  }

  /** The digit run of `e` digits followed by `题` is exactly `e` long. */
  lemma DigitRunUpToMark(u: string, e: nat)
    requires e < |u| && u[e] == '题'
    requires forall i :: 0 <= i < e ==> IsDigit(u[i])
    ensures DigitRun(u) == e
  {
  }

  /** A heading `第<n>题` after text without `第` gives back `n`. */
  lemma HeadingNumber(pre: string, n: nat, post: string)
    requires '第' !in pre
    ensures ExtractQuestionNumber(pre + "第" + NatToString(n) + "题" + post) == n
  {
    var s := NatToString(n);
    var rest := "第" + s + ("题" + post);
    var t := pre + rest;
    assert pre + "第" + s + "题" + post == t;
    SkipTextWithoutMark(pre, rest);
    MarkedNumber(pre, s, "题" + post);
  }

  /** Text without `第` holds no match. */
  lemma SkipTextWithoutMark(pre: string, rest: string)
    requires '第' !in pre
    ensures QuestionNumberFrom(pre + rest, 0) == QuestionNumberFrom(pre + rest, |pre|)
  {
    var t := pre + rest;
    assert forall k :: 0 <= k < |pre| ==> t[k] == pre[k];
    QuestionNumberSkips(t, 0, |pre|);
  }

  /** `第`, digits and `题` at `p` form the match there. */
  lemma MarkedNumber(pre: string, s: string, post: string)
    requires AllDigits(s) && s != [] && post != [] && post[0] == '题'
    ensures QuestionNumberFrom(pre + ("第" + s + post), |pre|) == Some(DigitsValue(s))
  {
    var t, p := pre + ("第" + s + post), |pre|;
    assert t[p..] == "第" + s + post;
    var a := p + 1;
    var e := |s|;
    assert t[p] == '第';
    forall i | a <= i < a + e ensures IsDigit(t[i]) {
      assert t[i] == t[p..][i - p] == s[i - a];
    }
    assert t[a + e] == t[p..][1 + e] == '题';
    assert t[a..a + e] == s by {
      forall i | 0 <= i < e ensures t[a..a + e][i] == s[i] {
        assert t[a + i] == t[p..][1 + i];
      }
    }
    DigitsBeforeMark(t, a, e);
  }

  /** The heading the test generator writes gives back its number. */
  lemma QuestionHeaderNumber(n: nat)
    ensures ExtractQuestionNumber("### 第" + NatToString(n) + "题") == n
  {
    HeadingNumber("### ", n, "");
    assert "### " + "第" + NatToString(n) + "题" + "" == "### 第" + NatToString(n) + "题";
  }

  // ---------------------------------------------------------------------
  // The answer letter: `re.search(r'\(\s*([a-d])\s*\)', line)`

  function AnswerLetterAt(t: string, p: nat): Option<char>
    requires p <= |t|
  {
    if p < |t| && t[p] == '(' then
      var a := FractionSteps.SkipSpaces(t, p + 1);
      if a < |t| && 'a' <= t[a] <= 'd' then
        var b := FractionSteps.SkipSpaces(t, a + 1);
        if b < |t| && t[b] == ')' then Some(t[a]) else None
      else None
    else None
  }

  function AnswerLetterFrom(t: string, p: nat): (r: Option<char>)
    requires p <= |t|
    ensures r.Some? ==> 'a' <= r.value <= 'd' && r.value in t[p..]
    decreases |t| - p
  {
    if p == |t| then None
    else match AnswerLetterAt(t, p)
      case Some(c) => Some(c)
      case None => AnswerLetterFrom(t, p + 1)
  }

  function AnswerLetter(t: string): (r: Option<char>)
    ensures r.Some? ==> 'a' <= r.value <= 'd' && r.value in t
  {
    assert t[0..] == t;
    AnswerLetterFrom(t, 0)
  }

  lemma {:induction false} AnswerLetterSkips(t: string, p: nat, q: nat)
    requires p <= q <= |t|
    requires forall k :: p <= k < q ==> t[k] != '('
    ensures AnswerLetterFrom(t, p) == AnswerLetterFrom(t, q)
    decreases q - p
  {
    if p < q {
      AnswerLetterSkips(t, p + 1, q);
    }
  }

  /** The first bracketed letter is the answer. */
  lemma BracketedLetter(pre: string, c: char, post: string)
    requires '(' !in pre && 'a' <= c <= 'd'
    ensures AnswerLetter(pre + "(" + [c] + ")" + post) == Some(c)
  {
    var t := pre + "(" + [c] + ")" + post;
    assert forall k :: 0 <= k < |pre| ==> t[k] == pre[k];
    AnswerLetterSkips(t, 0, |pre|);
    assert t[|pre|] == '(' && t[|pre| + 1] == c && t[|pre| + 2] == ')';
    assert AnswerLetterAt(t, |pre|) == Some(c);
  }

  /** `s.strip('()')` */
  function StripParens(s: string): (r: string)
    ensures |r| <= |s|
    ensures r == [] || (r[0] != '(' && r[0] != ')' && r[|r| - 1] != '(' && r[|r| - 1] != ')')
    decreases |s|
  {
    if s != [] && (s[0] == '(' || s[0] == ')') then StripParens(s[1..])
    else if s != [] && (s[|s| - 1] == '(' || s[|s| - 1] == ')') then StripParens(s[..|s| - 1])
    else s
  }

  /** The look-ahead after an answer label without brackets: blank lines
      are skipped up to the next line opening with `**`; the first other
      line gives the answer, its bracketed letter or else its text without
      brackets. The index is where the main loop resumes: the answer line
      itself is read again there. */
  function LookAhead(lines: seq<string>, j: nat): (r: (nat, Option<string>))
    requires j <= |lines|
    ensures j <= r.0 <= |lines|
    ensures forall k :: j <= k < r.0 ==> Trim(lines[k]) == []
    decreases |lines| - j
  {
    if j < |lines| && !StartsWith(Trim(lines[j]), "**") then
      var a := Trim(lines[j]);
      if a != [] then
        (j, Some(match AnswerLetter(a) case Some(c) => [c] case None => Trim(StripParens(a))))
      else LookAhead(lines, j + 1)
    else (j, None)
  }

  // ---------------------------------------------------------------------
  // The parsed sheet

  datatype Choice = Choice(letter: string, content: string)

  /** What grading records about a wrong or ungradable answer. */
  datatype ErrorAnalysis =
    | QuestionMissing(questionId: string)
    | NoCorrectChoice
    | NotInBank
    | WrongChoice(errorType: string, category: string, description: string,
                  studentContent: string, correctContent: string,
                  studentExplanation: string, correctExplanation: string,
                  knowledgePoints: set<string>, reason: ChoiceReason, suggestions: seq<string>)

  /** The `error_analysis` text of a wrong choice: the canned sentences, or
      the two values when both are known and differ. */
  datatype ChoiceReason =
    | Canned(text: string)
    | WrongValue(student: real, correct: real)

  /** `MarkdownAnswer` */
  datatype SheetAnswer = SheetAnswer(
    questionNumber: string,
    questionId: string,
    questionText: string,
    questionType: string,
    studentAnswer: string,
    choices: Option<seq<Choice>>,
    isCorrect: Option<bool>,
    errorAnalysis: Option<ErrorAnalysis>)

  datatype TestInfo = TestInfo(
    generatedAt: Option<string>,
    errorTypes: Option<seq<string>>,
    totalQuestions: Option<int>,
    choiceQuestions: Option<int>,
    calculationQuestions: Option<int>)

  /** `MarkdownTest` */
  datatype AnswerSheetDoc = AnswerSheetDoc(student: map<string, string>, test: TestInfo, answers: seq<SheetAnswer>)

  /** An entry of the caller's `questions` list. */
  datatype BankRef = BankRef(questionNumber: Option<string>, id: Option<string>, questionType: Option<string>)

  /** An entry of the caller's `question_mapping`. */
  datatype MappingEntry = MappingEntry(questionId: Option<string>, questionType: Option<string>)

  datatype Section = NoSection | QuestionSection | ChoicesSection | SolutionSection

  /** The loop state: the line index, the collected data, the question
      being read and the section it is in. */
  datatype SheetState = SheetState(
    i: nat,
    student: map<string, string>,
    test: TestInfo,
    answers: seq<SheetAnswer>,
    current: Option<SheetAnswer>,
    section: Section)

  const InitialState := SheetState(0, map[], TestInfo(None, None, None, None, None), [], None, NoSection)

  function Pending(current: Option<SheetAnswer>): seq<SheetAnswer> {
    if current.Some? then [current.value] else []
  }

  /** The first entry of `questions` whose number label is `name`. */
  function FindBankRef(questions: seq<BankRef>, name: string): (r: Option<BankRef>)
    ensures r.Some? ==> r.value in questions && r.value.questionNumber == Some(name)
    ensures r.None? ==> forall q :: q in questions ==> q.questionNumber != Some(name)
  {
    if questions == [] then None
    else if questions[0].questionNumber == Some(name) then Some(questions[0])
    else FindBankRef(questions[1..], name)
  }

  /** The bank id and type of question `n`: from `questions` when that
      list is non-empty, else from `mapping`, else `q_<n>` and "unknown". */
  function ResolveQuestion(n: nat, questions: seq<BankRef>, mapping: map<string, MappingEntry>): (string, string) {
    var key := NatToString(n);
    var fallback := "q_" + key;
    if questions != [] then
      match FindBankRef(questions, "第 " + key + " 题")
      case Some(q) => (q.id.GetOr(fallback), q.questionType.GetOr("unknown"))
      case None => (fallback, "unknown")
    else if key in mapping then
      (mapping[key].questionId.GetOr(fallback), mapping[key].questionType.GetOr("unknown"))
    else (fallback, "unknown")
  }

  /** A non-empty `questions` list decides alone; the mapping is then not
      consulted, even for a number the list lacks. */
  lemma QuestionsShadowMapping(n: nat, questions: seq<BankRef>, m1: map<string, MappingEntry>, m2: map<string, MappingEntry>)
    requires questions != []
    ensures ResolveQuestion(n, questions, m1) == ResolveQuestion(n, questions, m2)
  {
  }

  /** Without a list and without a mapping entry the id is `q_<n>`. */
  lemma DefaultQuestionId(n: nat, mapping: map<string, MappingEntry>)
    requires NatToString(n) !in mapping
    ensures ResolveQuestion(n, [], mapping) == ("q_" + NatToString(n), "unknown")
  {
  }

  predicate IsQuestionHeader(line: string) {
    StartsWith(line, "### 第") && '题' in line
  }

  /** The length of the leading run without blanks. */
  function WordEnd(t: string): (n: nat)
    ensures n <= |t|
    decreases |t|
  {
    if t == [] || IsSpace(t[0]) then 0 else 1 + WordEnd(t[1..])
  }

  /** `s.split()[0]`, or nothing when `s` is blank (an `IndexError`). */
  function FirstWord(s: string): Option<string> {
    var t := TrimStart(s);
    if t == [] then None else Some(t[..WordEnd(t)])
  }

  /** `int(value)` of a label line. */
  function IntField(line: string): Result<int> {
    match ParseInt(ExtractValue(line))
    case Some(n) => Success(n)
    case None => Failure("invalid literal for int()")
  }

  /** `int(value.split()[0])` of a label line. */
  function LeadingIntField(line: string): Result<int> {
    match FirstWord(ExtractValue(line))
    case None => Failure("list index out of range")
    case Some(w) =>
      match ParseInt(w)
      case Some(n) => Success(n)
      case None => Failure("invalid literal for int()")
  }

  /** A question heading: the question read so far is saved and a new one
      begins. */
  function StartQuestion(st: SheetState, line: string, questions: seq<BankRef>, mapping: map<string, MappingEntry>): (r: SheetState)
    ensures r.i == st.i + 1
  {
    var n := ExtractQuestionNumber(line);
    var (id, kind) := ResolveQuestion(n, questions, mapping);
    st.(i := st.i + 1,
        answers := st.answers + Pending(st.current),
        current := Some(SheetAnswer(NatToString(n), id, "", kind, "", None, None, None)),
        section := QuestionSection)
  }

  /** A line inside a question (the branches that need a current
      question). `fenceStalls` keeps the `continue` that skips `i += 1`. */
  function QuestionLine(lines: seq<string>, st: SheetState, line: string, fenceStalls: bool): (r: SheetState)
    requires st.i < |lines| && st.current.Some?
    ensures r.i == st.i || st.i < r.i <= |lines|
    ensures r.i == st.i ==> fenceStalls && r == st
  {
    var q := st.current.value;
    var next := st.(i := st.i + 1);
    if StartsWith(line, "**题目**") then
      next.(current := Some(q.(questionText := ExtractValue(line))), section := QuestionSection)
    else if StartsWith(line, "**选项**") then
      next.(current := Some(q.(choices := Some([]))), section := ChoicesSection)
    else if st.section == ChoicesSection && StartsWith(line, "- ") then
      var text := Trim(line[2..]);
      if text == [] then next
      else
        var c := Choice([text[0]], if |text| > 2 then Trim(text[2..]) else "");
        next.(current := Some(q.(choices := Some(q.choices.GetOr([]) + [c]))))
    else if StartsWith(line, "**答案**") then
      if '(' in line && ')' in line then
        match AnswerLetter(line)
        case Some(c) => next.(current := Some(q.(studentAnswer := [c])))
        case None => next
      else
        var (j, v) := LookAhead(lines, st.i + 1);
        st.(i := j, current := if v.Some? then Some(q.(studentAnswer := v.value)) else st.current)
    else if StartsWith(line, "**解答过程**") || StartsWith(line, "**解答**") then
      next.(current := Some(q.(questionType := "calculation", studentAnswer := "")), section := SolutionSection)
    else if st.section == SolutionSection && line != [] then
      if StartsWith(line, "```") then (if fenceStalls then st else next)
      else next.(current := Some(q.(studentAnswer := if q.studentAnswer == [] then line else q.studentAnswer + "\n" + line)))
    else next
  }

  /** The student and test information labels, checked first. */
  predicate IsInfoLine(line: string) {
    StartsWith(line, "**姓名**") || StartsWith(line, "**学号**") || StartsWith(line, "**班级**") ||
    StartsWith(line, "**生成时间**") || StartsWith(line, "**重点练习**") || StartsWith(line, "**题目总数**") ||
    StartsWith(line, "**选择题**") || StartsWith(line, "**计算题**")
  }

  /** An information line sets one student or test field; a count that is
      not an integer raises. */
  function InfoLine(st: SheetState, line: string): (r: Result<SheetState>)
    ensures r.Success? ==> r.value == st.(i := st.i + 1, student := r.value.student, test := r.value.test)
  {
    var next := st.(i := st.i + 1);
    if StartsWith(line, "**姓名**") then Success(next.(student := st.student["name" := ExtractValue(line)]))
    else if StartsWith(line, "**学号**") then Success(next.(student := st.student["student_id" := ExtractValue(line)]))
    else if StartsWith(line, "**班级**") then Success(next.(student := st.student["class" := ExtractValue(line)]))
    else if StartsWith(line, "**生成时间**") then Success(next.(test := st.test.(generatedAt := Some(ExtractValue(line)))))
    else if StartsWith(line, "**重点练习**") then Success(next.(test := st.test.(errorTypes := Some(Split(ExtractValue(line), ", ")))))
    else if StartsWith(line, "**题目总数**") then
      match IntField(line)
      case Failure(e) => Failure(e)
      case Success(n) => Success(next.(test := st.test.(totalQuestions := Some(n))))
    else if StartsWith(line, "**选择题**") then
      match LeadingIntField(line)
      case Failure(e) => Failure(e)
      case Success(n) => Success(next.(test := st.test.(choiceQuestions := Some(n))))
    else if StartsWith(line, "**计算题**") then
      match LeadingIntField(line)
      case Failure(e) => Failure(e)
      case Success(n) => Success(next.(test := st.test.(calculationQuestions := Some(n))))
    else Success(next)
  }

  /** One pass of the loop body of `_parse_with_rules` on line `st.i`. */
  function StepWith(lines: seq<string>, st: SheetState, questions: seq<BankRef>, mapping: map<string, MappingEntry>, fenceStalls: bool): (r: Result<SheetState>)
    requires st.i < |lines|
    ensures r.Success? ==> r.value.i == st.i || st.i < r.value.i <= |lines|
    ensures r.Success? && r.value.i == st.i ==> fenceStalls && r.value == st
  {
    var line := Trim(lines[st.i]);
    if IsInfoLine(line) then InfoLine(st, line)
    else if IsQuestionHeader(line) then Success(StartQuestion(st, line, questions, mapping))
    else if st.current.None? then Success(st.(i := st.i + 1))
    else Success(QuestionLine(lines, st, line, fenceStalls))
  }

  /** The corrected loop body: a code fence line inside a solution is
      skipped. */
  function Step(lines: seq<string>, st: SheetState, questions: seq<BankRef>, mapping: map<string, MappingEntry>): (r: Result<SheetState>)
    requires st.i < |lines|
    ensures r.Success? ==> st.i < r.value.i <= |lines|
  {
    StepWith(lines, st, questions, mapping, false)
  }

  /** The loop body as written: a code fence line inside a solution hits
      `continue` before `i += 1`. */
  function StepAsWritten(lines: seq<string>, st: SheetState, questions: seq<BankRef>, mapping: map<string, MappingEntry>): (r: Result<SheetState>)
    requires st.i < |lines|
    ensures r.Success? ==> st.i <= r.value.i <= |lines|
    ensures r.Success? && r.value.i == st.i ==> r.value == st
  {
    StepWith(lines, st, questions, mapping, true)
  }

  /** The sheet once every line is read: the last question is saved. */
  function Finish(st: SheetState): AnswerSheetDoc {
    AnswerSheetDoc(st.student, st.test, st.answers + Pending(st.current))
  }

  /** The rest of the loop from `st` (corrected), or the exception an
      integer field raises. */
  function ParseFrom(lines: seq<string>, st: SheetState, questions: seq<BankRef>, mapping: map<string, MappingEntry>): Result<AnswerSheetDoc>
    requires st.i <= |lines|
    decreases |lines| - st.i
  {
    if st.i == |lines| then Success(Finish(st))
    else match Step(lines, st, questions, mapping)
      case Failure(e) => Failure(e)
      case Success(s) => ParseFrom(lines, s, questions, mapping)
  }

  function ParseSheet(content: string, questions: seq<BankRef>, mapping: map<string, MappingEntry>): Result<AnswerSheetDoc> {
    ParseFrom(Split(content, "\n"), InitialState, questions, mapping)
  }

  /** `_parse_with_rules` (corrected): the index-driven loop over the
      lines. */
  method ParseWithRules(content: string, questions: seq<BankRef>, mapping: map<string, MappingEntry>) returns (r: Result<AnswerSheetDoc>)
    ensures r == ParseSheet(content, questions, mapping)
  {
    var lines := Split(content, "\n");
    var st := InitialState;
    while st.i < |lines|
      invariant st.i <= |lines|
      invariant ParseFrom(lines, st, questions, mapping) == ParseSheet(content, questions, mapping)
      decreases |lines| - st.i
    {
      var next := Step(lines, st, questions, mapping);
      if next.Failure? {
        return Failure(next.error);
      }
      st := next.value;
    }
    r := Success(Finish(st));
  }

  // ---------------------------------------------------------------------
  // The code fence stall

  /** Line `st.i` is a code fence inside the solution of a question. */
  predicate AtFenceInSolution(lines: seq<string>, st: SheetState) {
    st.i < |lines| && st.current.Some? && st.section == SolutionSection && StartsWith(Trim(lines[st.i]), "```")
  }

  /** As written, such a line leaves the whole state unchanged, so the
      loop reads it again forever; the corrected body moves past it and
      changes nothing else. */
  lemma FenceStalls(lines: seq<string>, st: SheetState, questions: seq<BankRef>, mapping: map<string, MappingEntry>)
    requires AtFenceInSolution(lines, st)
    ensures StepAsWritten(lines, st, questions, mapping) == Success(st)
    ensures Step(lines, st, questions, mapping) == Success(st.(i := st.i + 1))
  {
    var line := Trim(lines[st.i]);
    FenceIsNoInfoNorHeader(line);
    StepReachesQuestionLine(lines, st, questions, mapping, true);
    QuestionLineAtFence(lines, st, line, true);
    StepReachesQuestionLine(lines, st, questions, mapping, false);
    QuestionLineAtFence(lines, st, line, false);
  }

  /** A fence line is neither an information line nor a heading. */
  lemma FenceIsNoInfoNorHeader(line: string)
    requires StartsWith(line, "```")
    ensures line[0] == '`' && !IsInfoLine(line) && !IsQuestionHeader(line)
  {
    assert line[0] == '`' by {
      assert line[..3] == "```";
    }
    UnstarredIsNotInfo(line);
    FirstCharDiffers(line, "### 第");
  }

  /** A line that is neither an information line nor a heading goes to
      the current question. */
  lemma StepReachesQuestionLine(lines: seq<string>, st: SheetState, questions: seq<BankRef>, mapping: map<string, MappingEntry>, fenceStalls: bool)
    requires st.i < |lines| && st.current.Some?
    requires !IsInfoLine(Trim(lines[st.i])) && !IsQuestionHeader(Trim(lines[st.i]))
    ensures StepWith(lines, st, questions, mapping, fenceStalls) == Success(QuestionLine(lines, st, Trim(lines[st.i]), fenceStalls))
  {
  }

  lemma QuestionLineAtFence(lines: seq<string>, st: SheetState, line: string, fenceStalls: bool)
    requires st.i < |lines| && st.current.Some? && st.section == SolutionSection
    requires StartsWith(line, "```") && line[0] == '`'
    ensures QuestionLine(lines, st, line, fenceStalls) == if fenceStalls then st else st.(i := st.i + 1)
  {
    FirstCharDiffers(line, "**题目**");
    FirstCharDiffers(line, "**选项**");
    FirstCharDiffers(line, "**答案**");
    FirstCharDiffers(line, "**解答过程**");
    FirstCharDiffers(line, "**解答**");
  }

  /** A line that does not open with `*` is no information line. */
  lemma UnstarredIsNotInfo(line: string)
    requires line != [] && line[0] != '*'
    ensures !IsInfoLine(line)
  {
    FirstCharDiffers(line, "**姓名**");
    FirstCharDiffers(line, "**学号**");
    FirstCharDiffers(line, "**班级**");
    FirstCharDiffers(line, "**生成时间**");
    FirstCharDiffers(line, "**重点练习**");
    FirstCharDiffers(line, "**题目总数**");
    FirstCharDiffers(line, "**选择题**");
    FirstCharDiffers(line, "**计算题**");
  }

  lemma FirstCharDiffers(line: string, p: string)
    requires line != [] && p != [] && line[0] != p[0]
    ensures !StartsWith(line, p)
  {
    if |p| <= |line| {
      assert line[..|p|][0] == line[0];
    }
  }

  /** Every run of the as-written loop from such a state stays there. */
  function RunAsWritten(lines: seq<string>, st: SheetState, questions: seq<BankRef>, mapping: map<string, MappingEntry>, n: nat): Result<SheetState>
    requires st.i <= |lines|
    decreases n
  {
    if n == 0 || st.i == |lines| then Success(st)
    else match StepAsWritten(lines, st, questions, mapping)
      case Failure(e) => Failure(e)
      case Success(s) =>
        if s.i <= |lines| then RunAsWritten(lines, s, questions, mapping, n - 1) else Success(s)
  }

  lemma {:induction false} FenceNeverLeft(lines: seq<string>, st: SheetState, questions: seq<BankRef>, mapping: map<string, MappingEntry>, n: nat)
    requires AtFenceInSolution(lines, st)
    ensures RunAsWritten(lines, st, questions, mapping, n) == Success(st)
    ensures st.i < |lines|
  {
    if n > 0 {
      FenceStalls(lines, st, questions, mapping);
      FenceNeverLeft(lines, st, questions, mapping, n - 1);
    }
  }

  // ---------------------------------------------------------------------
  // One answer per question heading

  function AnswerNumbers(answers: seq<SheetAnswer>): (r: seq<string>)
    ensures |r| == |answers|
  {
    seq(|answers|, k requires 0 <= k < |answers| => answers[k].questionNumber)
  }

  /** The numbers of the heading lines, in order. */
  function HeaderNumbers(lines: seq<string>): seq<string>
    decreases |lines|
  {
    if lines == [] then []
    else
      (if IsQuestionHeader(Trim(lines[0])) then [NatToString(ExtractQuestionNumber(Trim(lines[0])))] else [])
      + HeaderNumbers(lines[1..])
  }

  lemma {:induction false} HeaderNumbersSkip(lines: seq<string>, a: nat, b: nat)
    requires a <= b <= |lines|
    requires forall k :: a <= k < b ==> !IsQuestionHeader(Trim(lines[k]))
    ensures HeaderNumbers(lines[a..]) == HeaderNumbers(lines[b..])
    decreases b - a
  {
    if a < b {
      assert lines[a..][1..] == lines[a + 1..];
      HeaderNumbersSkip(lines, a + 1, b);
    }
  }

  /** The numbers still to be produced from a state. */
  function Outstanding(lines: seq<string>, st: SheetState): seq<string>
    requires st.i <= |lines|
  {
    AnswerNumbers(st.answers + Pending(st.current)) + HeaderNumbers(lines[st.i..])
  }

  lemma AppendNumbers(a: seq<SheetAnswer>, b: seq<SheetAnswer>)
    ensures AnswerNumbers(a + b) == AnswerNumbers(a) + AnswerNumbers(b)
  {
  }

  /** Moving past a line that is not a heading, with the same answers
      and the same question, keeps the numbers still to come. */
  lemma NotHeaderKeeps(lines: seq<string>, st: SheetState, s: SheetState)
    requires st.i < |lines| && !IsQuestionHeader(Trim(lines[st.i]))
    requires s.i == st.i + 1 && s.answers == st.answers && s.current.Some? == st.current.Some?
    requires s.current.Some? ==> s.current.value.questionNumber == st.current.value.questionNumber
    ensures Outstanding(lines, s) == Outstanding(lines, st)
  {
    assert lines[st.i..][1..] == lines[st.i + 1..];
    assert HeaderNumbers(lines[st.i..]) == HeaderNumbers(lines[st.i + 1..]);
    assert AnswerNumbers(s.answers + Pending(s.current)) == AnswerNumbers(st.answers + Pending(st.current)) by {
      AppendNumbers(st.answers, Pending(st.current));
      AppendNumbers(s.answers, Pending(s.current));
    }
  }

  /** A heading saves the question read so far and opens one numbered by
      the heading. */
  lemma HeaderKeeps(lines: seq<string>, st: SheetState, questions: seq<BankRef>, mapping: map<string, MappingEntry>)
    requires st.i < |lines| && IsQuestionHeader(Trim(lines[st.i]))
    ensures Outstanding(lines, StartQuestion(st, Trim(lines[st.i]), questions, mapping)) == Outstanding(lines, st)
  {
    var line := Trim(lines[st.i]);
    var s := StartQuestion(st, line, questions, mapping);
    assert HeaderNumbers(lines[st.i..]) == [NatToString(ExtractQuestionNumber(line))] + HeaderNumbers(lines[st.i + 1..]) by {
      assert lines[st.i..][1..] == lines[st.i + 1..];
    }
    assert AnswerNumbers(s.answers + Pending(s.current)) == AnswerNumbers(st.answers + Pending(st.current)) + [NatToString(ExtractQuestionNumber(line))] by {
      assert s.answers + Pending(s.current) == (st.answers + Pending(st.current)) + Pending(s.current);
      AppendNumbers(st.answers + Pending(st.current), Pending(s.current));
    }
  }

  /** An answer line without brackets skips the blank lines after it. */
  lemma LookAheadKeeps(lines: seq<string>, st: SheetState, s: SheetState)
    requires st.i < |lines| && !IsQuestionHeader(Trim(lines[st.i])) && st.current.Some?
    requires st.i + 1 <= s.i <= |lines| && forall k :: st.i + 1 <= k < s.i ==> Trim(lines[k]) == []
    requires s.answers == st.answers && s.current.Some? && s.current.value.questionNumber == st.current.value.questionNumber
    ensures Outstanding(lines, s) == Outstanding(lines, st)
  {
    NotHeaderKeeps(lines, st, s.(i := st.i + 1));
    HeaderNumbersSkip(lines, st.i + 1, s.i);
  }

  /** Reading a line inside a question keeps the question's number. */
  lemma QuestionLineKeepsNumbers(lines: seq<string>, st: SheetState, line: string)
    requires st.i < |lines| && st.current.Some? && line == Trim(lines[st.i]) && !IsQuestionHeader(line)
    ensures QuestionLine(lines, st, line, false).answers == st.answers
    ensures QuestionLine(lines, st, line, false).current.Some?
    ensures QuestionLine(lines, st, line, false).current.value.questionNumber == st.current.value.questionNumber
    ensures Outstanding(lines, QuestionLine(lines, st, line, false)) == Outstanding(lines, st)
  {
    var r := QuestionLine(lines, st, line, false);
    if r.i == st.i + 1 {
      NotHeaderKeeps(lines, st, r);
    } else {
      assert StartsWith(line, "**答案**") && !('(' in line && ')' in line);
      assert r.i == LookAhead(lines, st.i + 1).0;
      LookAheadKeeps(lines, st, r);
    }
  }

  /** A heading is not an information line. */
  lemma HeaderIsNotInfo(line: string)
    requires IsQuestionHeader(line)
    ensures !IsInfoLine(line)
  {
    assert line[0] == '#' by {
      assert line[..|"### 第"|] == "### 第";
    }
    UnstarredIsNotInfo(line);
  }

  /** A step keeps the numbers still to come. */
  lemma StepKeepsNumbers(lines: seq<string>, st: SheetState, questions: seq<BankRef>, mapping: map<string, MappingEntry>)
    requires st.i < |lines|
    requires Step(lines, st, questions, mapping).Success?
    ensures Outstanding(lines, Step(lines, st, questions, mapping).value) == Outstanding(lines, st)
  {
    var line := Trim(lines[st.i]);
    var s := Step(lines, st, questions, mapping).value;
    if IsInfoLine(line) {
      assert !IsQuestionHeader(line) by {
        if IsQuestionHeader(line) {
          HeaderIsNotInfo(line);
        }
      }
      assert s == InfoLine(st, line).value;
      NotHeaderKeeps(lines, st, s);
    } else if IsQuestionHeader(line) {
      HeaderKeeps(lines, st, questions, mapping);
    } else if st.current.None? {
      NotHeaderKeeps(lines, st, s);
    } else {
      assert s == QuestionLine(lines, st, line, false);
      QuestionLineKeepsNumbers(lines, st, line);
    }
  }

  lemma {:induction false} ParseFromNumbers(lines: seq<string>, st: SheetState, questions: seq<BankRef>, mapping: map<string, MappingEntry>)
    requires st.i <= |lines|
    requires ParseFrom(lines, st, questions, mapping).Success?
    ensures AnswerNumbers(ParseFrom(lines, st, questions, mapping).value.answers) == Outstanding(lines, st)
    decreases |lines| - st.i
  {
    if st.i < |lines| {
      StepKeepsNumbers(lines, st, questions, mapping);
      ParseFromNumbers(lines, Step(lines, st, questions, mapping).value, questions, mapping);
    }
  }

  /** A sheet that parses holds one answer per question heading, in the
      order of the headings and numbered by them. */
  lemma AnswersFollowHeadings(content: string, questions: seq<BankRef>, mapping: map<string, MappingEntry>)
    requires ParseSheet(content, questions, mapping).Success?
    ensures AnswerNumbers(ParseSheet(content, questions, mapping).value.answers) == HeaderNumbers(Split(content, "\n"))
  {
    var lines := Split(content, "\n");
    ParseFromNumbers(lines, InitialState, questions, mapping);
    assert lines[0..] == lines;
  }

  // ---------------------------------------------------------------------
  // `_parse_calculation_steps_simple`

  /** A stripped line that makes a step. */
  predicate MakesStep(line: string) {
    '=' in line && !StartsWith(line, "```")
  }

  /** The step made from `line` after the step `prev`, if any: marked
      correct and not yet judged, going to the stripped last part, and
      from the stripped first part unless that is empty, when it comes
      from where `prev` went. */
  function StepFrom(line: string, prev: Option<SolutionStep>): SolutionStep {
    var parts := Split(line, "=");
    var first := Trim(parts[0]);
    SolutionStep(if first == [] && prev.Some? then prev.value.toExpr else first, Trim(Last(parts)), true, None, None)
  }

  /** The step before index `j`, if any. */
  function Previous(steps: seq<SolutionStep>, j: nat): Option<SolutionStep>
    requires j <= |steps|
  {
    if j == 0 then None else Some(steps[j - 1])
  }

  /** The step of one stripped line, given the steps before it. */
  function SimpleStepOf(line: string, before: seq<SolutionStep>): seq<SolutionStep> {
    if MakesStep(line) && |Split(line, "=")| >= 2 then [StepFrom(line, Previous(before, |before|))] else []
  }

  /** The steps made from the first `n` lines. */
  function SimpleSteps(lines: seq<string>, n: nat): seq<SolutionStep>
    requires n <= |lines|
  {
    if n == 0 then []
    else
      var before := SimpleSteps(lines, n - 1);
      before + SimpleStepOf(Trim(lines[n - 1]), before)
  }

  /** `_parse_calculation_steps_simple` */
  method ParseCalculationStepsSimple(solutionText: string) returns (steps: seq<SolutionStep>)
    ensures var lines := Split(solutionText, "\n"); steps == SimpleSteps(lines, |lines|)
  {
    var lines := Split(solutionText, "\n");
    steps := [];
    var i := 0;
    while i < |lines|
      invariant 0 <= i <= |lines|
      invariant steps == SimpleSteps(lines, i)
    {
      var line := Trim(lines[i]);
      steps := steps + SimpleStepOf(line, steps);
      i := i + 1;
    }
  }

  /** The stripped lines among the first `n` that make a step. */
  function StepLines(lines: seq<string>, n: nat): seq<string>
    requires n <= |lines|
  {
    if n == 0 then []
    else StepLines(lines, n - 1) + (if MakesStep(Trim(lines[n - 1])) then [Trim(lines[n - 1])] else [])
  }

  /** A line that makes a step adds exactly that step. */
  lemma SimpleStepOfMakes(line: string, before: seq<SolutionStep>)
    requires MakesStep(line)
    ensures |SimpleStepOf(line, before)| == 1
    ensures SimpleStepOf(line, before)[0] == StepFrom(line, Previous(before, |before|))
  {
    OcrParsing.SplitAtPresentSeparator(line, '=');
  }

  /** One step per line that makes one. */
  lemma {:induction false} SimpleStepsCount(lines: seq<string>, n: nat)
    requires n <= |lines|
    ensures |SimpleSteps(lines, n)| == |StepLines(lines, n)|
  {
    if n > 0 {
      SimpleStepsCount(lines, n - 1);
      var line, before := Trim(lines[n - 1]), SimpleSteps(lines, n - 1);
      if MakesStep(line) {
        SimpleStepOfMakes(line, before);
        assert |SimpleSteps(lines, n)| == |before| + 1;
        assert |StepLines(lines, n)| == |StepLines(lines, n - 1)| + 1;
      } else {
        assert SimpleStepOf(line, before) == [];
        assert SimpleSteps(lines, n) == before;
      }
    }
  }

  lemma SimpleStepsPrefix(lines: seq<string>, n: nat)
    requires 0 < n <= |lines|
    ensures SimpleSteps(lines, n)[..|SimpleSteps(lines, n - 1)|] == SimpleSteps(lines, n - 1)
    ensures StepLines(lines, n)[..|StepLines(lines, n - 1)|] == StepLines(lines, n - 1)
  {
  }

  /** The `k`th step is made from the `k`th line that makes one, after
      the step before it. */
  ghost predicate StepMadeAt(lines: seq<string>, n: nat, k: nat)
    requires n <= |lines|
  {
    var r, sl := SimpleSteps(lines, n), StepLines(lines, n);
    k < |r| && k < |sl| && r[k] == StepFrom(sl[k], Previous(r, k))
  }

  /** A step made from the first `n - 1` lines stays as it was. */
  lemma StepMadeEarlier(lines: seq<string>, n: nat, k: nat)
    requires 0 < n <= |lines| && StepMadeAt(lines, n - 1, k)
    ensures StepMadeAt(lines, n, k)
  {
    SimpleStepsPrefix(lines, n);
    var before, slBefore := SimpleSteps(lines, n - 1), StepLines(lines, n - 1);
    var r, sl := SimpleSteps(lines, n), StepLines(lines, n);
    assert r[k] == before[k] && sl[k] == slBefore[k];
    assert Previous(r, k) == Previous(before, k);
  }

  /** A line that makes a step makes the last one so far. */
  lemma StepMadeLast(lines: seq<string>, n: nat)
    requires 0 < n <= |lines| && MakesStep(Trim(lines[n - 1]))
    ensures |SimpleSteps(lines, n)| == |SimpleSteps(lines, n - 1)| + 1
    ensures |StepLines(lines, n)| == |StepLines(lines, n - 1)| + 1
    ensures StepMadeAt(lines, n, |StepLines(lines, n - 1)|)
  {
    var before, slBefore, line := SimpleSteps(lines, n - 1), StepLines(lines, n - 1), Trim(lines[n - 1]);
    var r, sl := SimpleSteps(lines, n), StepLines(lines, n);
    var step := StepFrom(line, Previous(before, |before|));
    assert r == before + [step] by {
      SimpleStepOfMakes(line, before);
    }
    assert sl == slBefore + [line];
    assert |before| == |slBefore| by {
      SimpleStepsCount(lines, n - 1);
    }
    assert r[|before|] == step && sl[|before|] == line;
    assert Previous(r, |before|) == Previous(before, |before|);
  }

  /** There is one step per line that makes one, and the `k`th step is
      made from the `k`th such line after the step before it. */
  lemma {:induction false} SimpleStepAt(lines: seq<string>, n: nat, k: nat)
    requires n <= |lines| && k < |StepLines(lines, n)|
    ensures |SimpleSteps(lines, n)| == |StepLines(lines, n)|
    ensures SimpleSteps(lines, n)[k] == StepFrom(StepLines(lines, n)[k], Previous(SimpleSteps(lines, n), k))
  {
    SimpleStepsCount(lines, n);
    assert n > 0;
    if k < |StepLines(lines, n - 1)| {
      SimpleStepAt(lines, n - 1, k);
      SimpleStepsCount(lines, n - 1);
      assert StepMadeAt(lines, n - 1, k);
      StepMadeEarlier(lines, n, k);
    } else {
      assert MakesStep(Trim(lines[n - 1]));
      StepMadeLast(lines, n);
    }
    assert StepMadeAt(lines, n, k);
  }

  // ---------------------------------------------------------------------
  // `extract_test_id_from_markdown`

  predicate IsHexCi(c: char) {
    IsDigit(c) || 'A' <= c <= 'F' || 'a' <= c <= 'f'
  }

  /** `[A-Z]{2}[A-F0-9]{12}` without regard to case, at `p`: upper-cased. */
  function TestIdAt(t: string, p: nat): (r: Option<string>)
    ensures r.Some? ==> |r.value| == 14
  {
    if p + 14 <= |t| && IsAsciiLetter(t[p]) && IsAsciiLetter(t[p + 1]) && forall k :: p + 2 <= k < p + 14 ==> IsHexCi(t[k])
    then Some(Upper(t[p..p + 14]))
    else None
  }

  /** `name` at `p`, without regard to ASCII case. */
  predicate LabelAt(t: string, p: nat, name: string) {
    p + |name| <= |t| && forall k :: 0 <= k < |name| ==> LowerChar(t[p + k]) == LowerChar(name[k])
  }

  /** `name[：:]\s*` and an id, at `p`. */
  function LabelledIdAt(t: string, p: nat, name: string): Option<string> {
    var q := p + |name|;
    if LabelAt(t, p, name) && q < |t| && (t[q] == '：' || t[q] == ':') then
      TestIdAt(t, FractionSteps.SkipSpaces(t, q + 1))
    else None
  }

  function SearchLabelled(t: string, name: string, p: nat): (r: Option<string>)
    ensures r.Some? ==> |r.value| == 14
    decreases |t| - p
  {
    if p > |t| then None
    else match LabelledIdAt(t, p, name)
      case Some(id) => Some(id)
      case None => SearchLabelled(t, name, p + 1)
  }

  /** The first id at or after `p`. */
  function FirstTestId(t: string, p: nat): (r: Option<string>)
    ensures r.Some? ==> |r.value| == 14
    decreases |t| - p
  {
    if p > |t| then None
    else match TestIdAt(t, p)
      case Some(id) => Some(id)
      case None => FirstTestId(t, p + 1)
  }

  /** `试卷标识.*?` and an id: the first id after a marker. */
  function SearchMarked(t: string, p: nat): (r: Option<string>)
    ensures r.Some? ==> |r.value| == 14
    decreases |t| - p
  {
    if p > |t| then None
    else if LabelAt(t, p, "试卷标识") && FirstTestId(t, p + 4).Some? then FirstTestId(t, p + 4)
    else SearchMarked(t, p + 1)
  }

  /** The five patterns in order; the first that matches anywhere wins. */
  function ExtractTestId(markdown: string): (r: Option<string>)
    ensures r.Some? ==> |r.value| == 14
  {
    var p1 := SearchLabelled(markdown, "试卷ID", 0);
    var p2 := SearchLabelled(markdown, "试卷编号", 0);
    var p3 := SearchLabelled(markdown, "Test ID", 0);
    var p4 := SearchLabelled(markdown, "**试卷ID**", 0);
    if p1.Some? then p1
    else if p2.Some? then p2
    else if p3.Some? then p3
    else if p4.Some? then p4
    else SearchMarked(markdown, 0)
  }

  /** A well-formed id right after the first label is found and returned
      upper-cased. */
  lemma TestIdAfterLabel(id: string, post: string)
    requires |id| == 14 && IsAsciiLetter(id[0]) && IsAsciiLetter(id[1])
    requires forall k :: 2 <= k < 14 ==> IsHexCi(id[k])
    ensures ExtractTestId("试卷ID：" + id + post) == Some(Upper(id))
  {
    var t := "试卷ID：" + id + post;
    assert LabelAt(t, 0, "试卷ID");
    assert t[4] == '：';
    assert t[5] == id[0];
    assert FractionSteps.SkipSpaces(t, 5) == 5;
    assert t[5..19] == id;
    assert LabelledIdAt(t, 0, "试卷ID") == Some(Upper(id));
  }
}
