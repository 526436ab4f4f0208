/** The rule-based fallback parser of `ai_processor.py`: OCR text becomes
    a list of problems (`_parse_with_rules`), each problem's solution lines
    become steps (`_extract_basic_steps`), and a problem header gets a type
    (`_identify_problem_type`). */
module OcrParsing {
  import opened Wrappers
  import opened Strings
  import opened Reconciliation
  import opened RuleVerifier
  import Collections

  datatype CalculationStep = CalculationStep(fromExpr: string, toExpr: string, point: string, isCorrect: bool)

  datatype StudentSolution = StudentSolution(
    raw: string,
    steps: seq<SolutionStep>,
    calculation: seq<CalculationStep>)

  datatype MathProblem = MathProblem(
    problemId: string,
    problemText: string,
    studentSolution: StudentSolution,
    expectedAnswer: Option<string>,
    problemType: string)

  // ---------------------------------------------------------------------
  // `_identify_problem_type`

  predicate MentionsFraction(text: string) {
    '/' in text || Contains(text, "分数")
  }

  predicate MentionsEquation(text: string) {
    'x' in Lower(text) || Contains(text, "解方程")
  }

  predicate MentionsOperator(text: string) {
    '+' in text || '-' in text || '×' in text || '÷' in text
  }

  predicate MentionsWordProblem(text: string) {
    Contains(text, "应用题") || Contains(text, "问题")
  }

  /** `_identify_problem_type`: the first cue found, in the order fraction,
      equation, arithmetic, word problem; `"unknown"` when none is. */
  function IdentifyProblemType(text: string): (r: string)
    ensures r in {"fraction", "equation", "arithmetic", "word_problem", "unknown"}
    ensures r == "fraction" <==> MentionsFraction(text)
    ensures r == "equation" <==> !MentionsFraction(text) && MentionsEquation(text)
    ensures r == "unknown" <==>
            !MentionsFraction(text) && !MentionsEquation(text) && !MentionsOperator(text) && !MentionsWordProblem(text)
  {
    if MentionsFraction(text) then "fraction"
    else if MentionsEquation(text) then "equation"
    else if MentionsOperator(text) then "arithmetic"
    else if MentionsWordProblem(text) then "word_problem"
    else "unknown"
  }

  /** An upper-case `X` marks an equation as well, since the text is
      lower-cased before the search. */
  lemma UpperCaseUnknownIsEquation(text: string)
    requires !MentionsFraction(text)
    requires 'X' in text
    ensures IdentifyProblemType(text) == "equation"
  {
    var i :| 0 <= i < |text| && text[i] == 'X';
    assert Lower(text)[i] == 'x';
  }

  // ---------------------------------------------------------------------
  // `_extract_basic_steps`

  /** The step of one line holding `=`: `to` is the stripped last part, and
      `from` is the previous step's `to` when that is non-empty, else the
      stripped first part. */
  function StepOfLine(line: string, prev: string): SolutionStep
    requires |Split(line, "=")| >= 2
  {
    var parts := Split(line, "=");
    SolutionStep(if prev != [] then prev else Trim(parts[0]), Trim(Last(parts)), true, None, None)
  }

  /** The steps of `_extract_basic_steps`, with `prev` the `to` of the
      step before. */
  function BasicSteps(lines: seq<string>, prev: string): (r: seq<SolutionStep>)
    ensures |r| <= |lines|
    ensures forall k :: 0 <= k < |r| ==> r[k].isCorrect && r[k].llmDetermine.None? && r[k].ruleDetermine.None?
    decreases |lines|
  {
    if lines == [] then []
    else if '=' in lines[0] && |Split(lines[0], "=")| >= 2 then
      var s := StepOfLine(lines[0], prev);
      [s] + BasicSteps(lines[1..], s.toExpr)
    else BasicSteps(lines[1..], prev)
  }

  lemma BasicStepsHead(lines: seq<string>, prev: string)
    requires lines != []
    ensures BasicSteps(lines, prev) ==
            if '=' in lines[0] && |Split(lines[0], "=")| >= 2
            then [StepOfLine(lines[0], prev)] + BasicSteps(lines[1..], StepOfLine(lines[0], prev).toExpr)
            else BasicSteps(lines[1..], prev)
  {
  }

  /** `BasicStepsHead` for the lines from `i` on. */
  lemma BasicStepsAt(lines: seq<string>, i: nat, prev: string)
    requires i < |lines|
    ensures BasicSteps(lines[i..], prev) ==
            if '=' in lines[i] && |Split(lines[i], "=")| >= 2
            then [StepOfLine(lines[i], prev)] + BasicSteps(lines[i + 1..], StepOfLine(lines[i], prev).toExpr)
            else BasicSteps(lines[i + 1..], prev)
  {
    BasicStepsHead(lines[i..], prev);
    assert lines[i..][1..] == lines[i + 1..];
  }

  /** `_extract_basic_steps`: one pass over the lines, threading `prev`.
      Step k comes from the k-th line holding `=`: its `to` is the
      stripped last part, and its `from` is the `to` before it when that
      is non-empty, else the stripped first part. */
  method ExtractBasicSteps(solutionLines: seq<string>) returns (steps: seq<SolutionStep>)
    ensures steps == BasicSteps(solutionLines, "")
    ensures |steps| == |EquationLines(solutionLines)|
    ensures forall k :: 0 <= k < |steps| ==>
              steps[k].toExpr == Trim(Last(Split(EquationLines(solutionLines)[k], "=")))
    ensures forall k :: 0 <= k < |steps| ==>
              steps[k].fromExpr == CarriedFrom(steps, EquationLines(solutionLines), k)
  {
    steps := [];
    var prev := "";
    var i := 0;
    assert solutionLines[0..] == solutionLines;
    while i < |solutionLines|
      invariant 0 <= i <= |solutionLines|
      invariant steps + BasicSteps(solutionLines[i..], prev) == BasicSteps(solutionLines, "")
    {
      var line := solutionLines[i];
      BasicStepsAt(solutionLines, i, prev);
      if '=' in line {
        var parts := Split(line, "=");
        if |parts| >= 2 {
          var fromExpr := if prev != [] then prev else Trim(parts[0]);
          var toExpr := Trim(parts[|parts| - 1]);
          var step := SolutionStep(fromExpr, toExpr, true, None, None);
          assert step == StepOfLine(line, prev);
          Collections.AppendAssoc(steps, [step], BasicSteps(solutionLines[i + 1..], toExpr));
          steps := steps + [step];
          prev := toExpr;
        }
      }
      i := i + 1;
    }
    assert solutionLines[i..] == [];
    assert steps == BasicSteps(solutionLines, "");
    BasicStepsFromLines(solutionLines);
  }

  /** A line holding the separator splits into at least two parts. */
  lemma SplitAtPresentSeparator(s: string, c: char)
    requires c in s
    ensures |Split(s, [c])| >= 2
  {
    ContainsChar(s, c);
  }

  /** The lines holding `=`, in order. */
  function EquationLines(lines: seq<string>): seq<string>
    decreases |lines|
  {
    if lines == [] then []
    else (if '=' in lines[0] then [lines[0]] else []) + EquationLines(lines[1..])
  }

  /** Exactly one step per line holding `=`, and the `to` of each step is
      the stripped text after the last `=` of its line. */
  lemma {:induction false} BasicStepsPerEquationLine(lines: seq<string>, prev: string)
    ensures |BasicSteps(lines, prev)| == |EquationLines(lines)|
    ensures forall k :: 0 <= k < |EquationLines(lines)| ==>
              BasicSteps(lines, prev)[k].toExpr == Trim(Last(Split(EquationLines(lines)[k], "=")))
    decreases |lines|
  {
    if lines != [] {
      BasicStepsHead(lines, prev);
      if '=' in lines[0] {
        SplitAtPresentSeparator(lines[0], '=');
        var s := StepOfLine(lines[0], prev);
        var rest, eqs := BasicSteps(lines[1..], s.toExpr), EquationLines(lines[1..]);
        BasicStepsPerEquationLine(lines[1..], s.toExpr);
        assert EquationLines(lines) == [lines[0]] + eqs;
        forall k | 0 < k < |EquationLines(lines)|
          ensures BasicSteps(lines, prev)[k].toExpr == Trim(Last(Split(EquationLines(lines)[k], "=")))
        {
          assert BasicSteps(lines, prev)[k] == rest[k - 1];
          assert EquationLines(lines)[k] == eqs[k - 1];
        }
      } else {
        BasicStepsPerEquationLine(lines[1..], prev);
        assert EquationLines(lines) == EquationLines(lines[1..]);
      }
    }
  }

  /** The steps form a chain: each step starts where the previous one
      ended, unless that one ended in nothing. */
  lemma {:induction false} BasicStepsChained(lines: seq<string>, prev: string, k: nat)
    requires 0 < k < |BasicSteps(lines, prev)|
    requires BasicSteps(lines, prev)[k - 1].toExpr != []
    ensures BasicSteps(lines, prev)[k].fromExpr == BasicSteps(lines, prev)[k - 1].toExpr
    decreases |lines|
  {
    if '=' in lines[0] && |Split(lines[0], "=")| >= 2 {
      var s := StepOfLine(lines[0], prev);
      if k > 1 {
        BasicStepsChained(lines[1..], s.toExpr, k - 1);
      } else {
        assert BasicSteps(lines, prev)[0] == s;
        FirstStepFrom(lines[1..], s.toExpr);
      }
    } else {
      BasicStepsChained(lines[1..], prev, k);
    }
  }

  /** Where step k of a pass that starts with nothing carried begins: the
      `to` of the step before when that is non-empty, else the stripped
      text before the first `=` of its line. */
  function CarriedFrom(steps: seq<SolutionStep>, eqLines: seq<string>, k: nat): string
    requires k < |steps| && k < |eqLines|
  {
    if k > 0 && steps[k - 1].toExpr != [] then steps[k - 1].toExpr else Trim(Split(eqLines[k], "=")[0])
  }

  /** Where step k starts: at the carried `to` (`prev` for the first
      step) when that is non-empty, else at the stripped text before the
      first `=` of its line. */
  lemma {:induction false} BasicStepsFrom(lines: seq<string>, prev: string, k: nat)
    requires k < |EquationLines(lines)|
    ensures |BasicSteps(lines, prev)| == |EquationLines(lines)|
    ensures var steps := BasicSteps(lines, prev);
            var carry := if k == 0 then prev else steps[k - 1].toExpr;
            steps[k].fromExpr == if carry != [] then carry else Trim(Split(EquationLines(lines)[k], "=")[0])
    decreases |lines|
  {
    BasicStepsPerEquationLine(lines, prev);
    BasicStepsHead(lines, prev);
    if '=' in lines[0] {
      SplitAtPresentSeparator(lines[0], '=');
      var s := StepOfLine(lines[0], prev);
      var rest := BasicSteps(lines[1..], s.toExpr);
      assert EquationLines(lines) == [lines[0]] + EquationLines(lines[1..]);
      assert BasicSteps(lines, prev) == [s] + rest;
      if k > 0 {
        BasicStepsFrom(lines[1..], s.toExpr, k - 1);
        assert BasicSteps(lines, prev)[k] == rest[k - 1];
        assert EquationLines(lines)[k] == EquationLines(lines[1..])[k - 1];
        if k > 1 {
          assert BasicSteps(lines, prev)[k - 1] == rest[k - 2];
        }
      }
    } else {
      assert EquationLines(lines) == EquationLines(lines[1..]);
      BasicStepsFrom(lines[1..], prev, k);
    }
  }

  /** `BasicStepsFrom` and `BasicStepsPerEquationLine` for every step of
      a pass that starts with nothing carried. */
  lemma BasicStepsFromLines(lines: seq<string>)
    ensures |BasicSteps(lines, "")| == |EquationLines(lines)|
    ensures forall k :: 0 <= k < |BasicSteps(lines, "")| ==>
              BasicSteps(lines, "")[k].toExpr == Trim(Last(Split(EquationLines(lines)[k], "=")))
    ensures forall k :: 0 <= k < |BasicSteps(lines, "")| ==>
              BasicSteps(lines, "")[k].fromExpr == CarriedFrom(BasicSteps(lines, ""), EquationLines(lines), k)
  {
    BasicStepsPerEquationLine(lines, "");
    forall k | 0 <= k < |BasicSteps(lines, "")|
      ensures BasicSteps(lines, "")[k].fromExpr == CarriedFrom(BasicSteps(lines, ""), EquationLines(lines), k)
    {
      BasicStepsFrom(lines, "", k);
    }
  }

  /** With nothing carried, the first step starts at the stripped text
      before the first `=` of the first line holding one. */
  lemma FirstStepFromFirstPart(lines: seq<string>)
    requires EquationLines(lines) != []
    ensures BasicSteps(lines, "") != []
    ensures BasicSteps(lines, "")[0].fromExpr == Trim(Split(EquationLines(lines)[0], "=")[0])
  {
    BasicStepsFrom(lines, "", 0);
  }

  /** The first step starts from `prev` when that is non-empty. */
  lemma {:induction false} FirstStepFrom(lines: seq<string>, prev: string)
    requires prev != [] && |BasicSteps(lines, prev)| > 0
    ensures BasicSteps(lines, prev)[0].fromExpr == prev
    decreases |lines|
  {
    if !('=' in lines[0] && |Split(lines[0], "=")| >= 2) {
      FirstStepFrom(lines[1..], prev);
    }
  }

  /** No `to` holds an `=`. */
  lemma {:induction false} BasicStepsTargetsHaveNoEquals(lines: seq<string>, prev: string)
    ensures forall k :: 0 <= k < |BasicSteps(lines, prev)| ==> '=' !in BasicSteps(lines, prev)[k].toExpr
    decreases |lines|
  {
    if lines != [] {
      if '=' in lines[0] && |Split(lines[0], "=")| >= 2 {
        var parts := Split(lines[0], "=");
        SplitPartsAvoid(lines[0], '=', |parts| - 1);
        TrimKeepsChars(Last(parts));
        BasicStepsTargetsHaveNoEquals(lines[1..], StepOfLine(lines[0], prev).toExpr);
      } else {
        BasicStepsTargetsHaveNoEquals(lines[1..], prev);
      }
    }
  }

  // ---------------------------------------------------------------------
  // `_parse_with_rules`

  /** `re.match(r'^\d+\.', line)`: digits, then a dot. */
  predicate IsProblemHeader(line: string) {
    var n := DigitRun(line);
    0 < n < |line| && line[n] == '.'
  }

  /** A line kept as a solution line: it holds `=` or one of the
      operators `+ - × ÷ /`. */
  predicate LooksLikeSolutionLine(line: string) {
    '=' in line || '+' in line || '-' in line || '×' in line || '÷' in line || '/' in line
  }

  /** `[line.strip() for line in lines if line.strip()]` */
  function NonBlankLines(raw: seq<string>): (r: seq<string>)
    ensures forall i :: 0 <= i < |r| ==> r[i] != []
    decreases |raw|
  {
    if raw == [] then []
    else (if Trim(raw[0]) != [] then [Trim(raw[0])] else []) + NonBlankLines(raw[1..])
  }

  function ProblemId(n: nat): string {
    "problem_" + NatToString(n)
  }

  /** Different counters give different ids. */
  lemma ProblemIdInjective(m: nat, n: nat)
    requires ProblemId(m) == ProblemId(n)
    ensures m == n
  {
    assert NatToString(m) == ProblemId(m)[8..];
    assert NatToString(n) == ProblemId(n)[8..];
  }

  /** A problem as it is opened at its header line. */
  function Opened(line: string, counter: nat): MathProblem {
    MathProblem(ProblemId(counter), line, StudentSolution("", [], []), None, IdentifyProblemType(line))
  }

  /** A problem as it is saved, with the solution lines collected for it. */
  function Closed(p: MathProblem, solutionLines: seq<string>): MathProblem {
    p.(studentSolution := StudentSolution(Join(solutionLines, "\n"), BasicSteps(solutionLines, ""), []))
  }

  function OpenCount(current: Option<MathProblem>): nat {
    if current.Some? then 1 else 0
  }

  function Saved(current: Option<MathProblem>, solutionLines: seq<string>): seq<MathProblem> {
    if current.Some? then [Closed(current.value, solutionLines)] else []
  }

  /** The problems the loop of `_parse_with_rules` saves from `lines` on,
      given the open problem, the counter and the solution lines so far. */
  function Collect(lines: seq<string>, current: Option<MathProblem>, counter: nat, solutionLines: seq<string>): seq<MathProblem>
    decreases |lines|
  {
    if lines == [] then Saved(current, solutionLines)
    else if IsProblemHeader(lines[0]) then
      Saved(current, solutionLines) + Collect(lines[1..], Some(Opened(lines[0], counter)), counter + 1, [])
    else if current.Some? && LooksLikeSolutionLine(lines[0]) then
      Collect(lines[1..], current, counter, solutionLines + [lines[0]])
    else Collect(lines[1..], current, counter, solutionLines)
  }

  /** The header lines, in order. */
  function Headers(lines: seq<string>): seq<string>
    decreases |lines|
  {
    if lines == [] then []
    else (if IsProblemHeader(lines[0]) then [lines[0]] else []) + Headers(lines[1..])
  }

  /** The open problem is saved first, with its id and text. */
  lemma {:induction false} CollectKeepsOpen(lines: seq<string>, p: MathProblem, counter: nat, solutionLines: seq<string>)
    ensures |Collect(lines, Some(p), counter, solutionLines)| >= 1
    ensures Collect(lines, Some(p), counter, solutionLines)[0].problemId == p.problemId
    ensures Collect(lines, Some(p), counter, solutionLines)[0].problemText == p.problemText
    decreases |lines|
  {
    if lines != [] && !IsProblemHeader(lines[0]) {
      if LooksLikeSolutionLine(lines[0]) {
        CollectKeepsOpen(lines[1..], p, counter, solutionLines + [lines[0]]);
      } else {
        CollectKeepsOpen(lines[1..], p, counter, solutionLines);
      }
    }
  }

  /** `Collect` at a header line: the open problem is saved and a new one
      is opened. */
  lemma CollectAtHeader(lines: seq<string>, current: Option<MathProblem>, counter: nat, solutionLines: seq<string>)
    requires lines != [] && IsProblemHeader(lines[0])
    ensures Collect(lines, current, counter, solutionLines) ==
            Saved(current, solutionLines) + Collect(lines[1..], Some(Opened(lines[0], counter)), counter + 1, [])
  {
  }

  /** The problems carry the ids `problem_<base>`, `problem_<base + 1>`, … */
  predicate NumberedFrom(r: seq<MathProblem>, base: nat) {
    forall k :: 0 <= k < |r| ==> r[k].problemId == ProblemId(base + k)
  }

  /** Consecutive numbering survives concatenation. */
  lemma NumberedConcat(front: seq<MathProblem>, back: seq<MathProblem>, base: nat)
    requires NumberedFrom(front, base) && NumberedFrom(back, base + |front|)
    ensures NumberedFrom(front + back, base)
  {
    forall k | 0 <= k < |front + back|
      ensures (front + back)[k].problemId == ProblemId(base + k)
    {
      if k >= |front| {
        assert (front + back)[k] == back[k - |front|];
      }
    }
  }

  /** The header step of `CollectNumbers`. */
  lemma NumbersAtHeader(lines: seq<string>, current: Option<MathProblem>, counter: nat, solutionLines: seq<string>)
    requires lines != [] && IsProblemHeader(lines[0])
    requires current.Some? ==> counter >= 1 && current.value.problemId == ProblemId(counter - 1)
    requires NumberedFrom(Collect(lines[1..], Some(Opened(lines[0], counter)), counter + 1, []), counter)
    ensures NumberedFrom(Collect(lines, current, counter, solutionLines), counter - OpenCount(current))
  {
    var front, back := Saved(current, solutionLines), Collect(lines[1..], Some(Opened(lines[0], counter)), counter + 1, []);
    CollectAtHeader(lines, current, counter, solutionLines);
    SavedNumbered(current, solutionLines, counter);
    var base := counter - OpenCount(current);
    assert base + |front| == counter;
    NumberedConcat(front, back, base);
  }

  /** The saved problem keeps the number it was opened with. */
  lemma SavedNumbered(current: Option<MathProblem>, solutionLines: seq<string>, counter: nat)
    requires current.Some? ==> counter >= 1 && current.value.problemId == ProblemId(counter - 1)
    ensures |Saved(current, solutionLines)| == OpenCount(current)
    ensures NumberedFrom(Saved(current, solutionLines), counter - OpenCount(current))
  {
    if current.Some? {
      assert Saved(current, solutionLines)[0].problemId == current.value.problemId;
    }
  }

  /** The problems are numbered consecutively, continuing the open one. */
  lemma {:induction false} CollectNumbers(lines: seq<string>, current: Option<MathProblem>, counter: nat, solutionLines: seq<string>)
    requires current.Some? ==> counter >= 1 && current.value.problemId == ProblemId(counter - 1)
    ensures NumberedFrom(Collect(lines, current, counter, solutionLines), counter - OpenCount(current))
    decreases |lines|
  {
    if lines != [] {
      var rest := lines[1..];
      if IsProblemHeader(lines[0]) {
        CollectNumbers(rest, Some(Opened(lines[0], counter)), counter + 1, []);
        NumbersAtHeader(lines, current, counter, solutionLines);
      } else if current.Some? && LooksLikeSolutionLine(lines[0]) {
        CollectNumbers(rest, current, counter, solutionLines + [lines[0]]);
      } else {
        CollectNumbers(rest, current, counter, solutionLines);
      }
    }
  }

  /** From position `open` on, the problems carry the header lines as
      their texts, one each. */
  predicate TitledBy(r: seq<MathProblem>, headers: seq<string>, open: nat) {
    |r| == |headers| + open &&
    forall k :: open <= k < |r| ==> r[k].problemText == headers[k - open]
  }

  /** Titles survive concatenation. */
  lemma TitledConcat(front: seq<MathProblem>, back: seq<MathProblem>, line: string, headers: seq<string>, open: nat)
    requires |front| == open && |back| >= 1 && back[0].problemText == line
    requires TitledBy(back, headers, 1)
    ensures TitledBy(front + back, [line] + headers, open)
  {
    forall k | open <= k < |front + back|
      ensures (front + back)[k].problemText == ([line] + headers)[k - open]
    {
      assert (front + back)[k] == back[k - open];
    }
  }

  /** The header step of `CollectTexts`. */
  lemma TextsAtHeader(lines: seq<string>, current: Option<MathProblem>, counter: nat, solutionLines: seq<string>)
    requires lines != [] && IsProblemHeader(lines[0])
    requires TitledBy(Collect(lines[1..], Some(Opened(lines[0], counter)), counter + 1, []), Headers(lines[1..]), 1)
    ensures TitledBy(Collect(lines, current, counter, solutionLines), Headers(lines), OpenCount(current))
  {
    CollectAtHeader(lines, current, counter, solutionLines);
    CollectKeepsOpen(lines[1..], Opened(lines[0], counter), counter + 1, []);
    assert Headers(lines) == [lines[0]] + Headers(lines[1..]);
    TitledConcat(Saved(current, solutionLines), Collect(lines[1..], Some(Opened(lines[0], counter)), counter + 1, []),
                 lines[0], Headers(lines[1..]), OpenCount(current));
  }

  /** Each problem opened in `lines` carries its header line as its text,
      and there is one problem per header line plus the one already open. */
  lemma {:induction false} CollectTexts(lines: seq<string>, current: Option<MathProblem>, counter: nat, solutionLines: seq<string>)
    ensures TitledBy(Collect(lines, current, counter, solutionLines), Headers(lines), OpenCount(current))
    decreases |lines|
  {
    if lines != [] {
      var rest := lines[1..];
      if IsProblemHeader(lines[0]) {
        CollectTexts(rest, Some(Opened(lines[0], counter)), counter + 1, []);
        TextsAtHeader(lines, current, counter, solutionLines);
      } else if current.Some? && LooksLikeSolutionLine(lines[0]) {
        CollectTexts(rest, current, counter, solutionLines + [lines[0]]);
      } else {
        CollectTexts(rest, current, counter, solutionLines);
      }
    }
  }

  /** A problem after `_apply_rule_verification`. */
  function Verified(p: MathProblem, sympify: string -> SympyOutcome): (r: MathProblem)
    ensures r.problemId == p.problemId && r.problemText == p.problemText
    ensures |r.studentSolution.steps| == |p.studentSolution.steps|
  {
    var steps := p.studentSolution.steps;
    p.(studentSolution := p.studentSolution.(steps := seq(|steps|, i requires 0 <= i < |steps| => RuleChecked(steps[i], sympify))))
  }

  /** Every problem with its steps rule-checked. */
  function VerifiedAll(problems: seq<MathProblem>, sympify: string -> SympyOutcome): (r: seq<MathProblem>)
    ensures |r| == |problems| && forall k :: 0 <= k < |r| ==> r[k] == Verified(problems[k], sympify)
  {
    seq(|problems|, i requires 0 <= i < |problems| => Verified(problems[i], sympify))
  }

  /** Rule-checking keeps the numbering and the titles of the problems. */
  lemma VerifiedAllKeepsHeads(problems: seq<MathProblem>, sympify: string -> SympyOutcome, headers: seq<string>)
    requires NumberedFrom(problems, 1) && TitledBy(problems, headers, 0)
    ensures NumberedFrom(VerifiedAll(problems, sympify), 1) && TitledBy(VerifiedAll(problems, sympify), headers, 0)
  {
  }

  /** What `_parse_with_rules` returns for `ocrText`. */
  function RuleParsedProblems(ocrText: string, sympify: string -> SympyOutcome): seq<MathProblem> {
    VerifiedAll(Collect(NonBlankLines(Split(ocrText, "\n")), None, 1, []), sympify)
  }

  /** `_parse_with_rules`: the line loop, then rule verification of every
      problem's steps. */
  method ParseWithRules(ocrText: string, sympify: string -> SympyOutcome) returns (problems: seq<MathProblem>)
    ensures problems == RuleParsedProblems(ocrText, sympify)
  {
    var lines := NonBlankLines(Split(ocrText, "\n"));
    var collected := CollectProblems(lines);
    problems := VerifyProblems(collected, sympify);
  }

  /** The line loop of `_parse_with_rules`. */
  method CollectProblems(lines: seq<string>) returns (collected: seq<MathProblem>)
    ensures collected == Collect(lines, None, 1, [])
  {
    collected := [];
    var current: Option<MathProblem> := None;
    var counter := 1;
    var solutionLines: seq<string> := [];
    var i := 0;
    assert lines[0..] == lines;
    while i < |lines|
      invariant 0 <= i <= |lines|
      invariant collected + Collect(lines[i..], current, counter, solutionLines) == Collect(lines, None, 1, [])
    {
      var line := lines[i];
      assert lines[i..][1..] == lines[i + 1..];
      if IsProblemHeader(line) {
        if current.Some? {
          var steps := ExtractBasicSteps(solutionLines);
          collected := collected + [current.value.(studentSolution := StudentSolution(Join(solutionLines, "\n"), steps, []))];
        }
        current := Some(MathProblem(ProblemId(counter), line, StudentSolution("", [], []), None, IdentifyProblemType(line)));
        counter := counter + 1;
        solutionLines := [];
      } else if current.Some? && LooksLikeSolutionLine(line) {
        solutionLines := solutionLines + [line];
      }
      i := i + 1;
    }
    if current.Some? {
      var steps := ExtractBasicSteps(solutionLines);
      collected := collected + [current.value.(studentSolution := StudentSolution(Join(solutionLines, "\n"), steps, []))];
    }
    assert lines[i..] == [];
  }

  /** The closing loop of `_parse_with_rules`: `_apply_rule_verification`
      on each problem's steps, in place. */
  method VerifyProblems(collected: seq<MathProblem>, sympify: string -> SympyOutcome) returns (problems: seq<MathProblem>)
    ensures problems == VerifiedAll(collected, sympify)
  {
    problems := [];
    var k := 0;
    while k < |collected|
      invariant 0 <= k <= |collected|
      invariant problems == seq(k, j requires 0 <= j < k => Verified(collected[j], sympify))
    {
      var p := collected[k];
      var steps := p.studentSolution.steps;
      var buffer := new SolutionStep[|steps|](j requires 0 <= j < |steps| => steps[j]);
      ApplyRuleVerification(buffer, sympify);
      var verified := p.(studentSolution := p.studentSolution.(steps := buffer[..]));
      assert verified == Verified(p, sympify);
      problems := problems + [verified];
      k := k + 1;
    }
    assert problems == VerifiedAll(collected, sympify);
  }

  /** The parsed problems are numbered `problem_1`, `problem_2`, … and
      carry the header lines as their texts, in order: one problem per
      header line. */
  lemma RuleParsedProblemsNumbered(ocrText: string, sympify: string -> SympyOutcome)
    ensures NumberedFrom(RuleParsedProblems(ocrText, sympify), 1)
    ensures TitledBy(RuleParsedProblems(ocrText, sympify), Headers(NonBlankLines(Split(ocrText, "\n"))), 0)
  {
    var lines := NonBlankLines(Split(ocrText, "\n"));
    CollectNumbers(lines, None, 1, []);
    CollectTexts(lines, None, 1, []);
    VerifiedAllKeepsHeads(Collect(lines, None, 1, []), sympify, Headers(lines));
  }

  /** Every step of every parsed problem carries a reconciled verdict. */
  lemma RuleParsedStepsReconciled(ocrText: string, sympify: string -> SympyOutcome, k: nat, j: nat)
    requires k < |RuleParsedProblems(ocrText, sympify)|
    requires j < |RuleParsedProblems(ocrText, sympify)[k].studentSolution.steps|
    ensures Reconciled(RuleParsedProblems(ocrText, sympify)[k].studentSolution.steps[j])
  {
    var problems := Collect(NonBlankLines(Split(ocrText, "\n")), None, 1, []);
    RuleCheckedIsReconciled(problems[k].studentSolution.steps[j], sympify);
  }
}
