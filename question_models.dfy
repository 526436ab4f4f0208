/** The question-bank document of `question_models.py`: the checks that
    the dataclass constructors run, the in-memory `QuestionDatabase`, its
    filters, its error analysis and its practice recommendation. Python's
    floats are reals here. */
module QuestionModels {
  import opened Wrappers
  import opened Collections
  import Sorting

  // ---------------------------------------------------------------------
  // Questions

  datatype QuestionInfo = QuestionInfo(text: string, subject: string, grade: string, chapter: string,
                                       difficulty: string, tags: seq<string>, estimatedTime: int)

  datatype Choice = Choice(id: string, content: string, isCorrect: bool, explanation: string)

  datatype SolutionStep = SolutionStep(step: int, description: string, formula: string)

  datatype QuestionSettings = QuestionSettings(randomizeChoices: bool, multipleSelect: bool,
                                               hasNoneOfAbove: bool, showHint: bool,
                                               allowCalculator: bool, requireWorkShown: bool)

  /** `ChoiceAnswer` or `CalculationAnswer` */
  datatype CorrectAnswer =
    | ChoiceAnswer(kind: string, value: string, explanation: string)
    | CalculationAnswer(kind: string, value: string, unit: Option<string>, tolerance: real, explanation: string)

  datatype Question = Question(id: string, info: QuestionInfo, questionType: string,
                               correctAnswer: CorrectAnswer, choices: Option<seq<Choice>>,
                               solutionSteps: Option<seq<SolutionStep>>,
                               settings: Option<QuestionSettings>)

  /** Python's truth value of `self.choices`: neither `None` nor empty. */
  predicate HasChoices(choices: Option<seq<Choice>>) {
    choices.Some? && choices.value != []
  }

  /** A choice question offers choices and a calculation question offers
      none; any other type is not checked. */
  predicate WellFormed(q: Question) {
    (q.questionType == "choice" ==> HasChoices(q.choices)) &&
    (q.questionType == "calculation" ==> !HasChoices(q.choices))
  }

  /** `Question(...)` followed by `__post_init__`, which raises
      `ValueError` on a malformed question. */
  function NewQuestion(id: string, info: QuestionInfo, questionType: string, correctAnswer: CorrectAnswer,
                       choices: Option<seq<Choice>>, solutionSteps: Option<seq<SolutionStep>>,
                       settings: Option<QuestionSettings>): (r: Result<Question>)
    ensures r.Success? <==>
              (questionType == "choice" ==> HasChoices(choices)) &&
              (questionType == "calculation" ==> !HasChoices(choices))
    ensures r.Success? ==> WellFormed(r.value) && r.value.id == id && r.value.choices == choices
    ensures r.Failure? ==> r.error == "ValueError"
  {
    if questionType == "choice" && !HasChoices(choices) then Failure("ValueError")
    else if questionType == "calculation" && HasChoices(choices) then Failure("ValueError")
    else Success(Question(id, info, questionType, correctAnswer, choices, solutionSteps, settings))
  }

  /** Rebuilding a well-formed question from its fields gives it back. */
  lemma NewQuestionRoundTrip(q: Question)
    requires WellFormed(q)
    ensures NewQuestion(q.id, q.info, q.questionType, q.correctAnswer, q.choices, q.solutionSteps, q.settings)
            == Success(q)
  {
  }

  // ---------------------------------------------------------------------
  // Answers and the difficulty distribution

  datatype ErrorCategory = ErrorCategory(categoryId: string, name: string, description: string,
                                         subcategories: seq<map<string, string>>)

  datatype ErrorAnalysis = ErrorAnalysis(primaryError: string, secondaryError: Option<string>,
                                         errorDescription: string, suggestedRemediation: string)

  datatype StudentAnswer = StudentAnswer(answerId: string, questionId: string, studentId: string,
                                         selectedChoice: Option<string>, calculatedAnswer: Option<string>,
                                         isCorrect: bool, errorAnalysis: Option<ErrorAnalysis>,
                                         timestamp: string, timeSpent: int)

  /** `StudentAnswer(...)` followed by `__post_init__`, which stamps an
      answer without a timestamp with the current time `now`. */
  function NewStudentAnswer(answerId: string, questionId: string, studentId: string,
                            selectedChoice: Option<string>, calculatedAnswer: Option<string>,
                            isCorrect: bool, errorAnalysis: Option<ErrorAnalysis>,
                            timestamp: string, timeSpent: int, now: string): (r: StudentAnswer)
    ensures timestamp != "" ==> r.timestamp == timestamp
    ensures timestamp == "" ==> r.timestamp == now
    ensures r.timestamp != "" || now == ""
    ensures r.answerId == answerId && r.questionId == questionId && r.studentId == studentId
    ensures r.isCorrect == isCorrect && r.errorAnalysis == errorAnalysis
  {
    StudentAnswer(answerId, questionId, studentId, selectedChoice, calculatedAnswer, isCorrect, errorAnalysis,
                  if timestamp == "" then now else timestamp, timeSpent)
  }

  datatype DifficultyDistribution = DifficultyDistribution(easy: real, medium: real, hard: real)

  function Abs(x: real): real {
    if x < 0.0 then -x else x
  }

  /** `DifficultyDistribution(...)` followed by `__post_init__`, which
      raises `ValueError` when the shares do not add up to 1 within 0.01. */
  function NewDistribution(easy: real, medium: real, hard: real): (r: Result<DifficultyDistribution>)
    ensures r.Success? <==> 0.99 <= easy + medium + hard <= 1.01
    ensures r.Success? ==> r.value == DifficultyDistribution(easy, medium, hard)
    ensures r.Failure? ==> r.error == "ValueError"
  {
    if Abs(easy + medium + hard - 1.0) > 0.01 then Failure("ValueError")
    else Success(DifficultyDistribution(easy, medium, hard))
  }

  /** The distribution `_from_dict` builds. */
  const DefaultDistribution := DifficultyDistribution(0.3, 0.5, 0.2)

  // ---------------------------------------------------------------------
  // The filters `get_questions_by_difficulty`, `get_questions_by_tags`
  // and `get_student_errors`

  /** The questions of difficulty `difficulty`, in bank order. */
  function QuestionsByDifficulty(questions: seq<Question>, difficulty: string): (r: seq<Question>)
    ensures |r| <= |questions|
    ensures forall q :: q in r <==> q in questions && q.info.difficulty == difficulty
    decreases |questions|
  {
    if questions == [] then []
    else
      var init := questions[..|questions| - 1];
      var q := questions[|questions| - 1];
      assert questions == init + [q];
      QuestionsByDifficulty(init, difficulty) + (if q.info.difficulty == difficulty then [q] else [])
  }

  /** Some tag of `tags` is among the question's tags. */
  predicate HasAnyTag(q: Question, tags: seq<string>) {
    exists t :: t in tags && t in q.info.tags
  }

  /** The questions carrying one of `tags`, in bank order. */
  function QuestionsByTags(questions: seq<Question>, tags: seq<string>): (r: seq<Question>)
    ensures |r| <= |questions|
    ensures forall q :: q in r <==> q in questions && HasAnyTag(q, tags)
    ensures tags == [] ==> r == []
    decreases |questions|
  {
    if questions == [] then []
    else
      var init := questions[..|questions| - 1];
      var q := questions[|questions| - 1];
      assert questions == init + [q];
      QuestionsByTags(init, tags) + (if HasAnyTag(q, tags) then [q] else [])
  }

  /** Filtering a concatenation filters each part: the order of the bank
      is kept. */
  lemma {:induction false} QuestionsByTagsAppend(xs: seq<Question>, ys: seq<Question>, tags: seq<string>)
    ensures QuestionsByTags(xs + ys, tags) == QuestionsByTags(xs, tags) + QuestionsByTags(ys, tags)
    decreases |ys|
  {
    if ys != [] {
      var init := ys[..|ys| - 1];
      assert (xs + ys)[..|xs + ys| - 1] == xs + init;
      QuestionsByTagsAppend(xs, init, tags);
    } else {
      assert xs + ys == xs;
    }
  }

  /** The incorrect answers of student `studentId`. */
  function StudentErrors(answers: seq<StudentAnswer>, studentId: string): (r: seq<StudentAnswer>)
    ensures |r| <= |answers|
    ensures forall a :: a in r <==> a in answers && a.studentId == studentId && !a.isCorrect
    decreases |answers|
  {
    if answers == [] then []
    else
      var init := answers[..|answers| - 1];
      var a := answers[|answers| - 1];
      assert answers == init + [a];
      StudentErrors(init, studentId) + (if a.studentId == studentId && !a.isCorrect then [a] else [])
  }

  /** Filtering a concatenation filters each part: the answers keep their
      order. */
  lemma {:induction false} StudentErrorsAppend(xs: seq<StudentAnswer>, ys: seq<StudentAnswer>, studentId: string)
    ensures StudentErrors(xs + ys, studentId) == StudentErrors(xs, studentId) + StudentErrors(ys, studentId)
    decreases |ys|
  {
    if ys != [] {
      var init := ys[..|ys| - 1];
      assert (xs + ys)[..|xs + ys| - 1] == xs + init;
      StudentErrorsAppend(xs, init, studentId);
    } else {
      assert xs + ys == xs;
    }
  }

  // ---------------------------------------------------------------------
  // `analyze_common_errors`

  /** An answer the analysis counts: incorrect, with an error analysis. */
  predicate Analyzed(a: StudentAnswer) {
    !a.isCorrect && a.errorAnalysis.Some?
  }

  /** The primary error of every counted answer, in answer order. */
  function PrimaryErrors(answers: seq<StudentAnswer>): (r: seq<string>)
    ensures |r| <= |answers|
    decreases |answers|
  {
    if answers == [] then []
    else
      var init := answers[..|answers| - 1];
      var a := answers[|answers| - 1];
      assert answers == init + [a];
      PrimaryErrors(init) + (if Analyzed(a) then [a.errorAnalysis.value.primaryError] else [])
  }

  /** The questions of the counted answers whose primary error is `e`. */
  function AffectedQuestions(answers: seq<StudentAnswer>, e: string): set<string> {
    set a | a in answers && Analyzed(a) && a.errorAnalysis.value.primaryError == e :: a.questionId
  }

  /** The primary errors are those of the counted answers. */
  lemma {:induction false} PrimaryErrorsMembers(answers: seq<StudentAnswer>)
    ensures forall e :: e in PrimaryErrors(answers) <==>
              exists a :: a in answers && Analyzed(a) && a.errorAnalysis.value.primaryError == e
    decreases |answers|
  {
    if answers != [] {
      var init := answers[..|answers| - 1];
      var a := answers[|answers| - 1];
      assert answers == init + [a];
      PrimaryErrorsMembers(init);
    }
  }

  lemma {:induction false} PrimaryErrorsNone(answers: seq<StudentAnswer>)
    requires forall a :: a in answers ==> !Analyzed(a)
    ensures PrimaryErrors(answers) == []
    decreases |answers|
  {
    if answers != [] {
      var init := answers[..|answers| - 1];
      assert answers == init + [answers[|answers| - 1]];
      PrimaryErrorsNone(init);
    }
  }

  lemma PrimaryErrorsSnoc(answers: seq<StudentAnswer>, a: StudentAnswer)
    ensures PrimaryErrors(answers + [a]) ==
            PrimaryErrors(answers) + (if Analyzed(a) then [a.errorAnalysis.value.primaryError] else [])
  {
    assert (answers + [a])[..|answers|] == answers;
  }

  lemma AffectedSnoc(answers: seq<StudentAnswer>, a: StudentAnswer, e: string)
    ensures AffectedQuestions(answers + [a], e) ==
            AffectedQuestions(answers, e) +
              (if Analyzed(a) && a.errorAnalysis.value.primaryError == e then {a.questionId} else {})
  {
    assert forall x :: x in answers + [a] <==> x in answers || x == a;
  }

  /** An error type no counted answer has affects no question. */
  lemma AffectedByUnknownError(answers: seq<StudentAnswer>, e: string)
    requires e !in PrimaryErrors(answers)
    ensures AffectedQuestions(answers, e) == {}
  {
    PrimaryErrorsMembers(answers);
  }

  /** `affected_questions` is `list(...)` of a set, whose order Python
      leaves open: the model keeps the set. */
  datatype CommonError = CommonError(errorCategory: string, frequency: real, affectedQuestions: set<string>)

  /** `count / total_answers if total_answers > 0 else 0` */
  function Frequency(count: nat, total: nat): real {
    if total > 0 then count as real / total as real else 0.0
  }

  /** The entry for error type `e`. */
  function Entry(answers: seq<StudentAnswer>, e: string): CommonError {
    CommonError(e, Frequency(Count(PrimaryErrors(answers), e), |answers|), AffectedQuestions(answers, e))
  }

  /** One entry per error type, in the order the types first occur. */
  function Tally(answers: seq<StudentAnswer>): (r: seq<CommonError>)
    ensures |r| == |Dedupe(PrimaryErrors(answers))|
  {
    var types := Dedupe(PrimaryErrors(answers));
    seq(|types|, i requires 0 <= i < |types| => Entry(answers, types[i]))
  }

  /** The sort key of `analyze_common_errors`. */
  function FrequencyAtMost(a: CommonError, b: CommonError): bool {
    a.frequency <= b.frequency
  }

  lemma FrequencyOrder()
    ensures Sorting.TotalPreorder(FrequencyAtMost)
  {
  }

  /** What `analyze_common_errors` returns. */
  function CommonErrors(answers: seq<StudentAnswer>): (r: seq<CommonError>)
    ensures |r| == |Dedupe(PrimaryErrors(answers))|
    ensures Sorting.SortedDesc(r, FrequencyAtMost)
  {
    FrequencyOrder();
    Sorting.SortDescSorted(Tally(answers), FrequencyAtMost);
    Sorting.SortDesc(Tally(answers), FrequencyAtMost)
  }

  /** `c` is the entry of its error type: its frequency is the share of
      all answers that counted it, and its questions are those of the
      counted answers with that error. */
  ghost predicate IsEntryFor(answers: seq<StudentAnswer>, c: CommonError) {
    |answers| > 0 &&
    c.frequency == Count(PrimaryErrors(answers), c.errorCategory) as real / |answers| as real &&
    0.0 < c.frequency <= 1.0 &&
    forall q :: q in c.affectedQuestions <==>
      exists a :: a in answers && Analyzed(a) && a.errorAnalysis.value.primaryError == c.errorCategory &&
                  a.questionId == q
  }

  lemma {:induction false} CountPositive(xs: seq<string>, x: string)
    requires x in xs
    ensures Count(xs, x) >= 1
    decreases |xs|
  {
    var init := xs[..|xs| - 1];
    assert xs == init + [xs[|xs| - 1]];
    if xs[|xs| - 1] != x {
      CountPositive(init, x);
    }
  }

  /** A count between 1 and the total is a share in (0, 1]. */
  lemma ShareBounds(count: nat, total: nat)
    requires 1 <= count <= total
    ensures 0.0 < count as real / total as real <= 1.0
  {
    var f := count as real / total as real;
    assert f * total as real == count as real;
  }

  lemma EntrySpec(answers: seq<StudentAnswer>, e: string)
    requires e in PrimaryErrors(answers)
    ensures IsEntryFor(answers, Entry(answers, e))
  {
    var p := PrimaryErrors(answers);
    CountPositive(p, e);
    ShareBounds(Count(p, e), |answers|);
  }

  /** Every entry of the sorted list is an entry of the tally. */
  lemma SortedFromTally(answers: seq<StudentAnswer>, i: int)
    requires 0 <= i < |CommonErrors(answers)|
    ensures exists k :: 0 <= k < |Tally(answers)| && CommonErrors(answers)[i] == Tally(answers)[k]
  {
    assert CommonErrors(answers)[i] in multiset(Tally(answers));
  }

  /** The tally has one entry per type, the type of its `k`-th entry being
      the `k`-th distinct primary error. */
  lemma TallyCategories(answers: seq<StudentAnswer>)
    ensures forall k :: 0 <= k < |Tally(answers)| ==>
              Tally(answers)[k].errorCategory == Dedupe(PrimaryErrors(answers))[k]
    ensures Distinct(Tally(answers))
  {
    var types := Dedupe(PrimaryErrors(answers));
    var t := Tally(answers);
    forall i, j | 0 <= i < j < |t|
      ensures t[i] != t[j]
    {
      assert t[i].errorCategory == types[i] != types[j] == t[j].errorCategory;
    }
  }

  /** The entries of `analyze_common_errors` are in descending order of
      frequency, and each is computed from the answers as `IsEntryFor`
      says. */
  lemma CommonErrorsEntries(answers: seq<StudentAnswer>)
    ensures var r := CommonErrors(answers);
            |r| == |Dedupe(PrimaryErrors(answers))| &&
            Sorting.SortedDesc(r, FrequencyAtMost) &&
            forall i :: 0 <= i < |r| ==> IsEntryFor(answers, r[i])
  {
    var types := Dedupe(PrimaryErrors(answers));
    var t := Tally(answers);
    var r := CommonErrors(answers);
    FrequencyOrder();
    Sorting.SortDescSorted(t, FrequencyAtMost);
    TallyCategories(answers);
    forall i | 0 <= i < |r|
      ensures IsEntryFor(answers, r[i])
    {
      SortedFromTally(answers, i);
      var k :| 0 <= k < |t| && r[i] == t[k];
      assert types[k] in types;
      EntrySpec(answers, types[k]);
    }
  }

  /** No error type has two entries in `analyze_common_errors`. */
  lemma CommonErrorsDistinct(answers: seq<StudentAnswer>)
    ensures var r := CommonErrors(answers);
            forall i, j :: 0 <= i < j < |r| ==> r[i].errorCategory != r[j].errorCategory
  {
    var types := Dedupe(PrimaryErrors(answers));
    var t := Tally(answers);
    var r := CommonErrors(answers);
    TallyCategories(answers);
    Collections.PermutationKeepsDistinct(t, r);
    forall i, j | 0 <= i < j < |r|
      ensures r[i].errorCategory != r[j].errorCategory
    {
      SortedFromTally(answers, i);
      SortedFromTally(answers, j);
      var k :| 0 <= k < |t| && r[i] == t[k];
      var l :| 0 <= l < |t| && r[j] == t[l];
      if k != l {
        assert types[k] != types[l];
      }
    }
  }

  /** Every entry of `analyze_common_errors` is the primary error of a
      counted answer. */
  lemma CommonErrorsFromAnswers(answers: seq<StudentAnswer>)
    ensures var r := CommonErrors(answers);
            forall i :: 0 <= i < |r| ==>
              exists a :: a in answers && Analyzed(a) && a.errorAnalysis.value.primaryError == r[i].errorCategory
  {
    var p := PrimaryErrors(answers);
    var types := Dedupe(p);
    var t := Tally(answers);
    var r := CommonErrors(answers);
    TallyCategories(answers);
    PrimaryErrorsMembers(answers);
    forall i | 0 <= i < |r|
      ensures r[i].errorCategory in p
    {
      SortedFromTally(answers, i);
      var k :| 0 <= k < |t| && r[i] == t[k];
      assert types[k] in types;
    }
  }

  /** The primary error of every counted answer has an entry in
      `analyze_common_errors`. */
  lemma AnswersInCommonErrors(answers: seq<StudentAnswer>)
    ensures var r := CommonErrors(answers);
            forall a :: a in answers && Analyzed(a) ==>
              exists i :: 0 <= i < |r| && r[i].errorCategory == a.errorAnalysis.value.primaryError
  {
    var types := Dedupe(PrimaryErrors(answers));
    var t := Tally(answers);
    var r := CommonErrors(answers);
    TallyCategories(answers);
    PrimaryErrorsMembers(answers);
    forall a | a in answers && Analyzed(a)
      ensures exists i :: 0 <= i < |r| && r[i].errorCategory == a.errorAnalysis.value.primaryError
    {
      var e := a.errorAnalysis.value.primaryError;
      assert e in PrimaryErrors(answers);
      assert e in types;
      var k :| 0 <= k < |types| && types[k] == e;
      assert t[k] in multiset(r);
      var i :| 0 <= i < |r| && r[i] == t[k];
    }
  }

  // ---------------------------------------------------------------------
  // `generate_practice_recommendation`

  datatype PracticeRecommendation = PracticeRecommendation(studentId: string, weakAreas: seq<string>,
                                                           recommendedQuestions: seq<string>,
                                                           difficultyProgression: seq<string>)

  const Progression: seq<string> := ["easy", "medium", "hard"]

  /** How many questions a recommendation names at most. */
  const MaxRecommended: nat := 10

  /** The ids of `questions`, in order. */
  function Ids(questions: seq<Question>): (r: seq<string>)
    ensures |r| == |questions|
    ensures forall i :: 0 <= i < |r| ==> r[i] == questions[i].id
    decreases |questions|
  {
    if questions == [] then [] else Ids(questions[..|questions| - 1]) + [questions[|questions| - 1].id]
  }

  /** The distinct primary errors of the student's incorrect answers. */
  function WeakAreas(answers: seq<StudentAnswer>, studentId: string): seq<string> {
    Dedupe(PrimaryErrors(StudentErrors(answers, studentId)))
  }

  lemma QuestionsByTagsSnoc(questions: seq<Question>, q: Question, tags: seq<string>)
    ensures QuestionsByTags(questions + [q], tags) ==
            QuestionsByTags(questions, tags) + (if HasAnyTag(q, tags) then [q] else [])
  {
    assert (questions + [q])[..|questions|] == questions;
  }

  lemma IdsSnoc(questions: seq<Question>, q: Question)
    ensures Ids(questions + [q]) == Ids(questions) + [q.id]
  {
    assert (questions + [q])[..|questions|] == questions;
  }

  /** What `generate_practice_recommendation` returns. */
  function Recommendation(questions: seq<Question>, answers: seq<StudentAnswer>, studentId: string): (r: PracticeRecommendation)
    ensures r.studentId == studentId && r.difficultyProgression == Progression
    ensures |r.recommendedQuestions| <= MaxRecommended
  {
    var weak := WeakAreas(answers, studentId);
    PracticeRecommendation(studentId, weak, Take(Ids(QuestionsByTags(questions, weak)), MaxRecommended), Progression)
  }

  /** The weak areas are the student's primary errors, each once; the
      recommended ids are the first ten, in bank order, of the questions
      tagged with a weak area; the progression is fixed. */
  lemma RecommendationSpec(questions: seq<Question>, answers: seq<StudentAnswer>, studentId: string)
    ensures var r := Recommendation(questions, answers, studentId);
            var tagged := Ids(QuestionsByTags(questions, r.weakAreas));
            r.studentId == studentId &&
            Distinct(r.weakAreas) &&
            (forall e :: e in r.weakAreas <==>
               exists a :: a in answers && a.studentId == studentId && Analyzed(a) &&
                           a.errorAnalysis.value.primaryError == e) &&
            |r.recommendedQuestions| == (if |tagged| < 10 then |tagged| else 10) &&
            r.recommendedQuestions == tagged[..|r.recommendedQuestions|] &&
            (forall id :: id in r.recommendedQuestions ==>
               exists q :: q in questions && q.id == id && HasAnyTag(q, r.weakAreas)) &&
            r.difficultyProgression == ["easy", "medium", "hard"]
  {
    var r := Recommendation(questions, answers, studentId);
    PrimaryErrorsMembers(StudentErrors(answers, studentId));
    var qs := QuestionsByTags(questions, r.weakAreas);
    forall id | id in r.recommendedQuestions
      ensures exists q :: q in questions && q.id == id && HasAnyTag(q, r.weakAreas)
    {
      var i :| 0 <= i < |r.recommendedQuestions| && r.recommendedQuestions[i] == id;
      assert qs[i] in qs;
    }
  }

  /** A student without an analysed wrong answer gets no recommended
      question. */
  lemma NoErrorsNoRecommendation(questions: seq<Question>, answers: seq<StudentAnswer>, studentId: string)
    requires forall a :: a in answers && a.studentId == studentId ==> !Analyzed(a)
    ensures Recommendation(questions, answers, studentId).recommendedQuestions == []
  {
    PrimaryErrorsNone(StudentErrors(answers, studentId));
    assert WeakAreas(answers, studentId) == [];
  }

  // ---------------------------------------------------------------------
  // The database

  /** A metadata value: the model keeps text and numbers. */
  datatype MetaValue = Text(text: string) | Number(number: int)

  const TotalQuestionsKey := "total_questions"

  /** The parts of a loaded JSON document that `_from_dict` looks at, and
      the question and answer data it ignores. */
  datatype Document = Document(version: Option<string>, metadata: Option<map<string, MetaValue>>,
                               questions: seq<Question>, studentAnswers: seq<StudentAnswer>)

  class QuestionDatabase {
    var version: string
    var metadata: map<string, MetaValue>
    var questions: seq<Question>
    var errorCategories: seq<ErrorCategory>
    var studentAnswers: seq<StudentAnswer>
    var distribution: DifficultyDistribution
    var commonErrors: seq<CommonError>
    var recommendedPractice: seq<PracticeRecommendation>

    /** The metadata's question count is the size of the bank. */
    predicate Counted()
      reads this
    {
      TotalQuestionsKey in metadata && metadata[TotalQuestionsKey] == Number(|questions|)
    }

    /** `_from_dict`: keeps the version (default `1.0`) and the metadata
        and builds an empty bank with the default distribution, whatever
        questions and answers the document holds. */
    constructor FromDict(data: Document)
      ensures version == data.version.GetOr("1.0")
      ensures metadata == data.metadata.GetOr(map[])
      ensures questions == [] && errorCategories == [] && studentAnswers == []
      ensures NewDistribution(0.3, 0.5, 0.2) == Success(distribution)
      ensures commonErrors == [] && recommendedPractice == []
    {
      version := data.version.GetOr("1.0");
      metadata := data.metadata.GetOr(map[]);
      questions := [];
      errorCategories := [];
      studentAnswers := [];
      distribution := DefaultDistribution;
      commonErrors := [];
      recommendedPractice := [];
    }

    /** `add_question` */
    method AddQuestion(q: Question)
      modifies this
      ensures questions == old(questions) + [q]
      ensures metadata == old(metadata)[TotalQuestionsKey := Number(|questions|)]
      ensures Counted()
      ensures version == old(version) && errorCategories == old(errorCategories)
      ensures studentAnswers == old(studentAnswers) && distribution == old(distribution)
      ensures commonErrors == old(commonErrors) && recommendedPractice == old(recommendedPractice)
    {
      questions := questions + [q];
      metadata := metadata[TotalQuestionsKey := Number(|questions|)];
    }

    /** `add_student_answer` */
    method AddStudentAnswer(a: StudentAnswer)
      modifies this
      ensures studentAnswers == old(studentAnswers) + [a]
      ensures version == old(version) && metadata == old(metadata) && questions == old(questions)
      ensures errorCategories == old(errorCategories) && distribution == old(distribution)
      ensures commonErrors == old(commonErrors) && recommendedPractice == old(recommendedPractice)
    {
      studentAnswers := studentAnswers + [a];
    }

    /** `analyze_common_errors` */
    method AnalyzeCommonErrors() returns (r: seq<CommonError>)
      ensures r == CommonErrors(studentAnswers)
    {
      var entries := TallyAnswers(studentAnswers);
      r := Sorting.SortDesc(entries, FrequencyAtMost);
    }

    /** `generate_practice_recommendation` */
    method GeneratePracticeRecommendation(studentId: string) returns (r: PracticeRecommendation)
      ensures r == Recommendation(questions, studentAnswers, studentId)
    {
      var errors := StudentErrors(studentAnswers, studentId);
      var weak: seq<string> := [];
      if errors != [] {
        weak := Dedupe(PrimaryErrors(errors));
      }
      assert weak == WeakAreas(studentAnswers, studentId);
      var recommended: seq<string> := [];
      if weak != [] {
        recommended := TaggedIds(questions, weak);
      }
      r := PracticeRecommendation(studentId, weak, Take(recommended, MaxRecommended), Progression);
    }
  }

  /** The loop of `generate_practice_recommendation` over the bank. */
  method TaggedIds(questions: seq<Question>, weak: seq<string>) returns (recommended: seq<string>)
    ensures recommended == Ids(QuestionsByTags(questions, weak))
  {
    recommended := [];
    var i := 0;
    while i < |questions|
      invariant 0 <= i <= |questions|
      invariant recommended == Ids(QuestionsByTags(questions[..i], weak))
    {
      var q := questions[i];
      assert questions[..i + 1] == questions[..i] + [q];
      QuestionsByTagsSnoc(questions[..i], q, weak);
      IdsSnoc(QuestionsByTags(questions[..i], weak), q);
      if HasAnyTag(q, weak) {
        recommended := recommended + [q.id];
      }
      i := i + 1;
    }
    assert questions[..i] == questions;
  }

  /** What the counting loop of `analyze_common_errors` holds after the
      answers `seen`: `order` lists the keys of both dictionaries in
      insertion order, `counts` counts each error type and
      `questionErrors` collects its questions. */
  ghost predicate Tallied(seen: seq<StudentAnswer>, order: seq<string>, counts: map<string, nat>,
                          questionErrors: map<string, set<string>>) {
    order == Dedupe(PrimaryErrors(seen)) &&
    (forall e :: e in counts <==> e in order) &&
    (forall e :: e in questionErrors <==> e in order) &&
    (forall e :: e in counts ==> counts[e] == Count(PrimaryErrors(seen), e)) &&
    (forall e :: e in questionErrors ==> questionErrors[e] == AffectedQuestions(seen, e))
  }

  /** An answer the analysis does not count changes nothing. */
  lemma TalliedSkip(seen: seq<StudentAnswer>, a: StudentAnswer, order: seq<string>, counts: map<string, nat>,
                    questionErrors: map<string, set<string>>)
    requires Tallied(seen, order, counts, questionErrors) && !Analyzed(a)
    ensures Tallied(seen + [a], order, counts, questionErrors)
  {
    PrimaryErrorsSnoc(seen, a);
    assert PrimaryErrors(seen + [a]) == PrimaryErrors(seen);
    forall f
      ensures AffectedQuestions(seen + [a], f) == AffectedQuestions(seen, f)
    {
      AffectedSnoc(seen, a, f);
    }
  }

  /** A counted answer adds its error type to the order if new, and one
      to its count. */
  lemma TalliedCount(seen: seq<StudentAnswer>, a: StudentAnswer, order: seq<string>, counts: map<string, nat>)
    requires Analyzed(a)
    requires order == Dedupe(PrimaryErrors(seen))
    requires forall e :: e in counts <==> e in order
    requires forall e :: e in counts ==> counts[e] == Count(PrimaryErrors(seen), e)
    ensures var e := a.errorAnalysis.value.primaryError;
            var order' := if e in order then order else order + [e];
            var counts' := counts[e := if e in counts then counts[e] + 1 else 1];
            order' == Dedupe(PrimaryErrors(seen + [a])) &&
            (forall f :: f in counts' <==> f in order') &&
            (forall f :: f in counts' ==> counts'[f] == Count(PrimaryErrors(seen + [a]), f))
  {
    var e := a.errorAnalysis.value.primaryError;
    var p := PrimaryErrors(seen);
    PrimaryErrorsSnoc(seen, a);
    assert PrimaryErrors(seen + [a]) == p + [e];
    DedupeSnoc(p, e);
    var counts' := counts[e := if e in counts then counts[e] + 1 else 1];
    forall f | f in counts'
      ensures counts'[f] == Count(p + [e], f)
    {
      CountSnoc(p, e, f);
    }
  }

  /** A counted answer adds its question to the set of its error type. */
  lemma TalliedQuestions(seen: seq<StudentAnswer>, a: StudentAnswer, order: seq<string>,
                         questionErrors: map<string, set<string>>)
    requires Analyzed(a)
    requires order == Dedupe(PrimaryErrors(seen))
    requires forall e :: e in questionErrors <==> e in order
    requires forall e :: e in questionErrors ==> questionErrors[e] == AffectedQuestions(seen, e)
    ensures var e := a.errorAnalysis.value.primaryError;
            var order' := if e in order then order else order + [e];
            var qs := if e in questionErrors then questionErrors[e] else {};
            var questionErrors' := questionErrors[e := qs + {a.questionId}];
            (forall f :: f in questionErrors' <==> f in order') &&
            (forall f :: f in questionErrors' ==> questionErrors'[f] == AffectedQuestions(seen + [a], f))
  {
    var e := a.errorAnalysis.value.primaryError;
    var qs := if e in questionErrors then questionErrors[e] else {};
    var questionErrors' := questionErrors[e := qs + {a.questionId}];
    if e !in order {
      AffectedByUnknownError(seen, e);
    }
    forall f | f in questionErrors'
      ensures questionErrors'[f] == AffectedQuestions(seen + [a], f)
    {
      AffectedSnoc(seen, a, f);
    }
  }

  /** A counted answer updates the order, its count and its questions. */
  lemma TalliedAdd(seen: seq<StudentAnswer>, a: StudentAnswer, order: seq<string>, counts: map<string, nat>,
                   questionErrors: map<string, set<string>>)
    requires Tallied(seen, order, counts, questionErrors) && Analyzed(a)
    ensures var e := a.errorAnalysis.value.primaryError;
            Tallied(seen + [a],
                    if e in order then order else order + [e],
                    counts[e := if e in counts then counts[e] + 1 else 1],
                    questionErrors[e := (if e in questionErrors then questionErrors[e] else {}) + {a.questionId}])
  {
    TalliedCount(seen, a, order, counts);
    TalliedQuestions(seen, a, order, questionErrors);
  }

  lemma TalliedNext(answers: seq<StudentAnswer>, i: nat, order: seq<string>, counts: map<string, nat>,
                    questionErrors: map<string, set<string>>)
    requires i < |answers| && Tallied(answers[..i] + [answers[i]], order, counts, questionErrors)
    ensures Tallied(answers[..i + 1], order, counts, questionErrors)
  {
    Collections.PrefixSnoc(answers, i);
  }

  /** The counting loop of `analyze_common_errors`. */
  method CountErrors(answers: seq<StudentAnswer>)
    returns (order: seq<string>, counts: map<string, nat>, questionErrors: map<string, set<string>>)
    ensures Tallied(answers, order, counts, questionErrors)
  {
    counts := map[];
    questionErrors := map[];
    order := [];
    var i := 0;
    while i < |answers|
      invariant 0 <= i <= |answers|
      invariant Tallied(answers[..i], order, counts, questionErrors)
    {
      var a := answers[i];
      if Analyzed(a) {
        TalliedAdd(answers[..i], a, order, counts, questionErrors);
        var e := a.errorAnalysis.value.primaryError;
        counts := counts[e := if e in counts then counts[e] + 1 else 1];
        var qs := if e in questionErrors then questionErrors[e] else {};
        questionErrors := questionErrors[e := qs + {a.questionId}];
        if e !in order {
          order := order + [e];
        }
      } else {
        TalliedSkip(answers[..i], a, order, counts, questionErrors);
      }
      TalliedNext(answers, i, order, counts, questionErrors);
      i := i + 1;
    }
    assert answers[..i] == answers;
  }

  /** The entries `analyze_common_errors` builds before sorting. */
  method TallyAnswers(answers: seq<StudentAnswer>) returns (entries: seq<CommonError>)
    ensures entries == Tally(answers)
  {
    var order, counts, questionErrors := CountErrors(answers);
    var total := |answers|;
    ghost var t := Tally(answers);
    entries := [];
    var j := 0;
    while j < |order|
      invariant 0 <= j <= |order|
      invariant entries == t[..j]
    {
      var e := order[j];
      assert e in order;
      var c := counts[e];
      assert t[j] == Entry(answers, e);
      var entry := CommonError(e, Frequency(c, total), questionErrors[e]);
      assert entry == t[j];
      Collections.PrefixSnoc(t, j);
      entries := entries + [entry];
      j := j + 1;
    }
    assert t[..j] == t;
  }
}
