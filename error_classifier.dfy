/** The calculation-error classifier of `markdown_grader.py`: the
    first-match chain `_classify_calculation_error` over the `_has_*`
    detectors, the knowledge points, reasons and suggestions attached to a
    category, the per-step analysis and the overall summary.
    `_evaluate_math_expression` (which calls `eval`) is the oracle `eval`:
    a number, `None` where the source catches an exception, or a value that
    is not a number. */
module ErrorClassifier {
  import opened Wrappers
  import opened Strings
  import opened Collections
  import opened RuleVerifier

  /** What `_evaluate_math_expression` gives: a number, `None`, or a value
      that is not a number, such as the tuple `(1, -5)` that `eval` makes of
      `1,000 - 5`; `abs(a - b)` raises `TypeError` on such a value. */
  datatype Evaluation = Number(v: real) | NoValue | NotANumber

  datatype Category = SignError | FractionError | PowerError | OrderError | CalculationError | UnknownError

  /** The category as the source writes it. */
  function CategoryName(c: Category): string {
    match c
    case SignError => "符号错误"
    case FractionError => "分数运算错误"
    case PowerError => "乘方运算错误"
    case OrderError => "运算顺序错误"
    case CalculationError => "计算错误"
    case UnknownError => "未知错误"
  }

  lemma CategoryNamesDistinct(a: Category, b: Category)
    requires CategoryName(a) == CategoryName(b)
    ensures a == b
  {
  }

  function Abs(x: real): real {
    if x < 0.0 then -x else x
  }

  /** `abs(a - b) > 0.001` */
  predicate FarApart(a: real, b: real) {
    Abs(a - b) > 0.001
  }

  // ---------------------------------------------------------------------
  // `re.findall(r'-?\d+(?:\.\d+)?', s)`, with each match read as a number

  /** The value of a fraction digit run `f`: `0.f`. */
  function FractionDigitsValue(f: string): real
    requires AllDigits(f)
  {
    DigitsValue(f) as real / Pow10(|f|) as real
  }

  /** The number matched at `i`, if one starts there: where it ends and its
      value. */
  function NumberAt(t: string, i: nat): (r: Option<(nat, real)>)
    requires i <= |t|
    ensures r.Some? ==> i < r.value.0 <= |t|
  {
    var negative := i < |t| && t[i] == '-';
    var s := if negative then i + 1 else i;
    var a := DigitRun(t[s..]);
    if a == 0 then None
    else
      var whole := DigitsValue(t[s..s + a]) as real;
      var e := s + a;
      if e + 1 < |t| && t[e] == '.' && IsDigit(t[e + 1]) then
        var b := DigitRun(t[e + 1..]);
        var v := whole + FractionDigitsValue(t[e + 1..e + 1 + b]);
        Some((e + 1 + b, if negative then -v else v))
      else
        Some((e, if negative then -whole else whole))
  }

  /** All numbers from `i` on, left to right, without overlap. */
  function FindNumbers(t: string, i: nat): (r: seq<real>)
    requires i <= |t|
    ensures |r| <= |t| - i
    decreases |t| - i
  {
    if i == |t| then []
    else match NumberAt(t, i)
      case Some((e, v)) => [v] + FindNumbers(t, e)
      case None => FindNumbers(t, i + 1)
  }

  /** A text without digits holds no number. */
  lemma {:induction false} NoDigitsNoNumbers(t: string, i: nat)
    requires i <= |t|
    requires forall k :: i <= k < |t| ==> !IsDigit(t[k])
    ensures FindNumbers(t, i) == []
    decreases |t| - i
  {
    if i < |t| {
      var s := if t[i] == '-' then i + 1 else i;
      if s < |t| {
        assert t[s..][0] == t[s];
      }
      assert DigitRun(t[s..]) == 0;
      NoDigitsNoNumbers(t, i + 1);
    }
  }

  // ---------------------------------------------------------------------
  // The detectors

  /** `_is_sign_processing_error`: the text before holds `(-`, both sides
      hold exactly two numbers, and `a - (-b)` before equals `a - b` after
      (where `b` carries its own sign). */
  predicate IsSignProcessingError(fromExpr: string, toExpr: string) {
    Contains(fromExpr, "(-") &&
    var f := FindNumbers(fromExpr, 0);
    var t := FindNumbers(toExpr, 0);
    |f| == 2 && |t| == 2 && f[0] - (-f[1]) == t[0] - t[1]
  }

  /** `abs(from_val - to_val) > 0.001` is reached (neither value is `None`)
      and raises, because one value is not a number. */
  predicate DifferenceRaises(a: Evaluation, b: Evaluation) {
    !a.NoValue? && !b.NoValue? && (a.NotANumber? || b.NotANumber?)
  }

  /** `_has_sign_error`: when the difference raises, the `except` returns
      false before the minus-sign checks are reached. */
  predicate HasSignError(eval: string -> Evaluation, fromExpr: string, toExpr: string) {
    !DifferenceRaises(eval(fromExpr), eval(toExpr)) &&
    ((eval(fromExpr).Number? && eval(toExpr).Number? && FarApart(eval(fromExpr).v, eval(toExpr).v)
      && IsSignProcessingError(fromExpr, toExpr))
    || ('-' in fromExpr && '-' !in toExpr)
    || ('-' !in fromExpr && '-' in toExpr)
    || (Contains(fromExpr, "(-") && !Contains(toExpr, "(-")))
  }

  /** `_has_fraction_error` */
  predicate HasFractionError(fromExpr: string, toExpr: string) {
    '/' in fromExpr || '/' in toExpr
  }

  /** `_has_power_error`: only the text before is inspected. */
  predicate HasPowerError(fromExpr: string) {
    '²' in fromExpr || '³' in fromExpr || Contains(fromExpr, "**")
  }

  /** `_has_order_error`: only the text before is inspected. */
  predicate HasOrderError(fromExpr: string) {
    '(' in fromExpr && ')' in fromExpr
  }

  /** `_has_calculation_error`: the values differ by more than 0.001, or
      one of them is `None`, or the difference raises and the `except`
      falls through to `True`. */
  predicate HasCalculationError(eval: string -> Evaluation, fromExpr: string, toExpr: string) {
    match (eval(fromExpr), eval(toExpr))
    case (Number(a), Number(b)) => FarApart(a, b)
    case _ => true
  }

  /** `_classify_calculation_error`: the first detector that fires. */
  function Classify(eval: string -> Evaluation, fromExpr: string, toExpr: string): (r: Category)
    ensures r == UnknownError <==> true !in Detections(eval, fromExpr, toExpr)
    ensures r != UnknownError ==> r in ChainOrder
  {
    if HasSignError(eval, fromExpr, toExpr) then SignError
    else if HasFractionError(fromExpr, toExpr) then FractionError
    else if HasPowerError(fromExpr) then PowerError
    else if HasOrderError(fromExpr) then OrderError
    else if HasCalculationError(eval, fromExpr, toExpr) then CalculationError
    else UnknownError
  }

  /** The detector verdicts in the order the chain consults them. */
  function Detections(eval: string -> Evaluation, fromExpr: string, toExpr: string): seq<bool> {
    [HasSignError(eval, fromExpr, toExpr), HasFractionError(fromExpr, toExpr), HasPowerError(fromExpr),
     HasOrderError(fromExpr), HasCalculationError(eval, fromExpr, toExpr)]
  }

  const ChainOrder: seq<Category> := [SignError, FractionError, PowerError, OrderError, CalculationError]

  /** The index of the first `true`, or `|flags|` when there is none. */
  function FirstTrue(flags: seq<bool>): (r: nat)
    ensures r <= |flags|
    ensures r < |flags| ==> flags[r]
    ensures forall k :: 0 <= k < r ==> !flags[k]
  {
    if flags == [] then 0
    else if flags[0] then 0
    else 1 + FirstTrue(flags[1..])
  }

  /** The classifier picks the category of the first detector that fires,
      and "unknown" when none does. */
  lemma ClassifyIsFirstMatch(eval: string -> Evaluation, fromExpr: string, toExpr: string)
    ensures var k := FirstTrue(Detections(eval, fromExpr, toExpr));
            Classify(eval, fromExpr, toExpr) == if k < |ChainOrder| then ChainOrder[k] else UnknownError
  {
    var d := Detections(eval, fromExpr, toExpr);
    if d[0] {
      assert FirstTrue(d) == 0;
    } else if d[1] {
      assert FirstTrue(d) == 1 by { assert d[1..][0]; }
    } else if d[2] {
      assert FirstTrue(d) == 2 by { assert d[1..][1..][0]; }
    } else if d[3] {
      assert FirstTrue(d) == 3 by { assert d[1..][1..][1..][0]; }
    } else if d[4] {
      assert FirstTrue(d) == 4 by { assert d[1..][1..][1..][1..][0]; }
    } else {
      assert FirstTrue(d) == 5;
    }
  }

  /** "Unknown" is reached only when both values exist and agree within
      0.001, the minus signs match and neither side holds a fraction. */
  lemma UnknownNeedsAgreeingValues(eval: string -> Evaluation, fromExpr: string, toExpr: string)
    requires Classify(eval, fromExpr, toExpr) == UnknownError
    ensures eval(fromExpr).Number? && eval(toExpr).Number?
    ensures !FarApart(eval(fromExpr).v, eval(toExpr).v)
    ensures ('-' in fromExpr) == ('-' in toExpr)
    ensures '/' !in fromExpr && '/' !in toExpr
  {
  }

  /** A minus sign on one side only is a sign error whenever the
      difference of the values does not raise. */
  lemma LoneMinusIsSignError(eval: string -> Evaluation, fromExpr: string, toExpr: string)
    requires ('-' in fromExpr) != ('-' in toExpr)
    requires !DifferenceRaises(eval(fromExpr), eval(toExpr))
    ensures Classify(eval, fromExpr, toExpr) == SignError
  {
  }

  /** When the difference raises, the sign detector stays silent and the
      calculation detector fires, so the step is never a sign error and
      never unknown. */
  lemma RaisingDifferenceIsNoSignError(eval: string -> Evaluation, fromExpr: string, toExpr: string)
    requires DifferenceRaises(eval(fromExpr), eval(toExpr))
    ensures Classify(eval, fromExpr, toExpr) != SignError
    ensures Classify(eval, fromExpr, toExpr) != UnknownError
  {
  }

  /** `1,000 - 5` evaluates to a tuple, so rewriting it as `995` is a
      calculation error although only one side holds a minus sign. */
  lemma TupleStepIsCalculationError(eval: string -> Evaluation)
    requires eval("1,000 - 5") == NotANumber && eval("995") == Number(995.0)
    ensures Classify(eval, "1,000 - 5", "995") == CalculationError
  {
    var f, t := "1,000 - 5", "995";
    assert !HasSignError(eval, f, t);
    assert forall k :: 0 <= k < |f| ==> f[k] != '/' && f[k] != '²' && f[k] != '³' && f[k] != '*' && f[k] != '(';
    assert forall k :: 0 <= k < |t| ==> t[k] != '/';
    ContainsHead(f, "**");
  }

  // ---------------------------------------------------------------------
  // Knowledge points, reasons, suggestions

  /** `_extract_calculation_knowledge_points`, in the order the checks
      append. */
  function KnowledgePoints(fromExpr: string, toExpr: string): (r: seq<string>)
    ensures |r| <= 5
    ensures "负数运算规则" in r <==> Contains(fromExpr, "(-") || Contains(toExpr, "(-")
    ensures "分数运算" in r <==> HasFractionError(fromExpr, toExpr)
    ensures "乘方运算" in r <==> HasPowerError(fromExpr)
    ensures "运算顺序" in r <==> HasOrderError(fromExpr)
    ensures "四则运算" in r <==> '+' in fromExpr || '-' in fromExpr || '×' in fromExpr || '÷' in fromExpr
  {
    PointRanks();
    (if Contains(fromExpr, "(-") || Contains(toExpr, "(-") then ["负数运算规则"] else []) +
    (if '/' in fromExpr || '/' in toExpr then ["分数运算"] else []) +
    (if '²' in fromExpr || '³' in fromExpr || Contains(fromExpr, "**") then ["乘方运算"] else []) +
    (if '(' in fromExpr && ')' in fromExpr then ["运算顺序"] else []) +
    (if '+' in fromExpr || '-' in fromExpr || '×' in fromExpr || '÷' in fromExpr then ["四则运算"] else [])
  }

  /** The knowledge points never repeat. */
  lemma KnowledgePointsDistinct(fromExpr: string, toExpr: string)
    ensures Distinct(KnowledgePoints(fromExpr, toExpr))
  {
    var r := KnowledgePoints(fromExpr, toExpr);
    var all := ["负数运算规则", "分数运算", "乘方运算", "运算顺序", "四则运算"];
    assert forall i :: 0 <= i < |r| ==> r[i] in all;
    KnowledgePointsOrdered(fromExpr, toExpr);
  }

  function PointRank(p: string): nat {
    if p == "负数运算规则" then 0
    else if p == "分数运算" then 1
    else if p == "乘方运算" then 2
    else if p == "运算顺序" then 3
    else 4
  }

  lemma KnowledgePointsOrdered(fromExpr: string, toExpr: string)
    ensures RanksIncrease(KnowledgePoints(fromExpr, toExpr))
  {
    PresentPointsRanked(Contains(fromExpr, "(-") || Contains(toExpr, "(-"), '/' in fromExpr || '/' in toExpr,
                        '²' in fromExpr || '³' in fromExpr || Contains(fromExpr, "**"), '(' in fromExpr && ')' in fromExpr,
                        '+' in fromExpr || '-' in fromExpr || '×' in fromExpr || '÷' in fromExpr);
  }

  /** Whichever of the five checks fire, their points come in rank order. */
  lemma PresentPointsRanked(b0: bool, b1: bool, b2: bool, b3: bool, b4: bool)
    ensures RanksIncrease((if b0 then ["负数运算规则"] else []) + (if b1 then ["分数运算"] else []) +
                          (if b2 then ["乘方运算"] else []) + (if b3 then ["运算顺序"] else []) +
                          (if b4 then ["四则运算"] else []))
  {
    PointRanks();
    var p0 := [] + (if b0 then ["负数运算规则"] else []);
    AppendRanked([], b0, "负数运算规则", 0);
    var p1 := p0 + (if b1 then ["分数运算"] else []);
    AppendRanked(p0, b1, "分数运算", 1);
    var p2 := p1 + (if b2 then ["乘方运算"] else []);
    AppendRanked(p1, b2, "乘方运算", 2);
    var p3 := p2 + (if b3 then ["运算顺序"] else []);
    AppendRanked(p2, b3, "运算顺序", 3);
    AppendRanked(p3, b4, "四则运算", 4);
    assert p0 == (if b0 then ["负数运算规则"] else []);
  }

  /** The rank of each point is its place in the order of the checks. */
  lemma PointRanks()
    ensures PointRank("负数运算规则") == 0 && PointRank("分数运算") == 1 && PointRank("乘方运算") == 2 &&
            PointRank("运算顺序") == 3 && PointRank("四则运算") == 4
  {
    assert "分数运算"[0] != "负数运算规则"[0];
    assert "乘方运算"[0] != "负数运算规则"[0] && "乘方运算"[0] != "分数运算"[0];
    assert "运算顺序"[0] != "负数运算规则"[0] && "运算顺序"[0] != "分数运算"[0] && "运算顺序"[0] != "乘方运算"[0];
    assert "四则运算"[0] != "负数运算规则"[0] && "四则运算"[0] != "分数运算"[0] && "四则运算"[0] != "乘方运算"[0];
    assert "四则运算"[0] != "运算顺序"[0];
  }

  predicate RanksIncrease(r: seq<string>) {
    forall i, j :: 0 <= i < j < |r| ==> PointRank(r[i]) < PointRank(r[j])
  }

  /** Appending at most one point of a rank above all present keeps the
      ranks increasing. */
  lemma AppendRanked(xs: seq<string>, present: bool, p: string, k: nat)
    requires RanksIncrease(xs) && forall i :: 0 <= i < |xs| ==> PointRank(xs[i]) < k
    requires PointRank(p) == k
    ensures var ys := xs + (if present then [p] else []);
            RanksIncrease(ys) && forall i :: 0 <= i < |ys| ==> PointRank(ys[i]) < k + 1
  {
  }

  /** `_analyze_calculation_error_reason` */
  function ErrorReason(c: Category): string {
    match c
    case SignError => "符号处理错误，可能混淆了正负号规则或括号内的符号"
    case FractionError => "分数运算错误，可能通分、约分或分数四则运算有误"
    case PowerError => "乘方运算错误，可能混淆了底数和指数的关系"
    case OrderError => "运算顺序错误，可能没有按照正确的运算顺序进行计算"
    case CalculationError => "基本计算错误，可能加减乘除运算有误"
    case UnknownError => "未知错误类型"
  }

  const DefaultSuggestions: seq<string> := ["加强基础计算练习", "仔细检查每一步计算", "多做相关类型的练习题"]

  /** `_generate_calculation_suggestions` (the knowledge points are not
      consulted). */
  function Suggestions(c: Category): (r: seq<string>)
    ensures |r| == 3
  {
    match c
    case SignError => ["重点练习正负数的运算规则", "注意括号内符号的处理", "多做符号相关的练习题"]
    case FractionError => ["加强分数的通分和约分练习", "注意分数运算的基本法则", "练习分数的四则运算"]
    case PowerError => ["重点练习乘方的计算规则", "注意底数和指数的关系", "多做乘方相关的练习题"]
    case OrderError => ["复习运算顺序规则：先乘除后加减，有括号先算括号内", "注意括号的正确使用", "多做混合运算练习题"]
    case _ => DefaultSuggestions
  }

  /** Plain calculation errors and unknown errors get the same default
      advice; every other category gets advice of its own. */
  lemma SuggestionsShareDefault(c: Category)
    ensures Suggestions(c) == DefaultSuggestions <==> c == CalculationError || c == UnknownError
  {
  }

  // ---------------------------------------------------------------------
  // `_analyze_calculation_step`

  datatype StepAnalysis = StepAnalysis(
    stepNumber: nat,
    fromExpr: string,
    toExpr: string,
    isCorrect: bool,
    errorCategory: string,
    knowledgePoints: seq<string>,
    errorReason: string,
    suggestions: seq<string>)

  /** `_analyze_calculation_step`: a correct step is "无错误" with nothing
      attached; an incorrect one is classified and annotated. */
  function AnalyzeStep(eval: string -> Evaluation, fromExpr: string, toExpr: string, isCorrect: bool, stepNumber: nat): (r: StepAnalysis)
    ensures r.isCorrect <==> r.errorCategory == "无错误"
    ensures isCorrect ==> r.knowledgePoints == [] && r.suggestions == [] && r.errorReason == ""
    ensures !isCorrect ==> |r.suggestions| == 3
  {
    if isCorrect then StepAnalysis(stepNumber, fromExpr, toExpr, true, "无错误", [], "", [])
    else
      var c := Classify(eval, fromExpr, toExpr);
      StepAnalysis(stepNumber, fromExpr, toExpr, false, CategoryName(c), KnowledgePoints(fromExpr, toExpr),
                   ErrorReason(c), Suggestions(c))
  }

  // ---------------------------------------------------------------------
  // `_generate_overall_error_analysis`

  function AnalysisPart(category: string, count: nat): string {
    if count > 1 then category + "（" + NatToString(count) + "处）" else category
  }

  function AnalysisParts(kinds: seq<string>, categories: seq<string>): (r: seq<string>)
    ensures |r| == |kinds|
  {
    seq(|kinds|, i requires 0 <= i < |kinds| => AnalysisPart(kinds[i], Count(categories, kinds[i])))
  }

  /** The summary: each category once, in order of first appearance, with
      its count when it occurs more than once. */
  function OverallAnalysis(categories: seq<string>): string {
    if categories == [] then "解答正确"
    else "主要错误类型：" + Join(AnalysisParts(Dedupe(categories), categories), ", ")
  }

  /** The state of the counting loop after `seen`: the keys in insertion
      order and the count of each. */
  ghost predicate Tallied(seen: seq<string>, kinds: seq<string>, counts: map<string, nat>) {
    kinds == Dedupe(seen) &&
    (forall c :: c in counts <==> c in kinds) &&
    (forall c :: c in counts ==> counts[c] == Count(seen, c))
  }

  /** A category seen before is counted once more. */
  lemma TallyKnown(seen: seq<string>, c: string, kinds: seq<string>, counts: map<string, nat>)
    requires Tallied(seen, kinds, counts) && c in counts
    ensures Tallied(seen + [c], kinds, counts[c := counts[c] + 1])
  {
    DedupeSnoc(seen, c);
    forall d | d in counts
      ensures counts[c := counts[c] + 1][d] == Count(seen + [c], d)
    {
      CountSnoc(seen, c, d);
    }
  }

  /** A new category becomes the last key, counted once. */
  lemma TallyNew(seen: seq<string>, c: string, kinds: seq<string>, counts: map<string, nat>)
    requires Tallied(seen, kinds, counts) && c !in counts
    ensures Tallied(seen + [c], kinds + [c], counts[c := 1])
  {
    DedupeSnoc(seen, c);
    forall d | d in counts[c := 1]
      ensures counts[c := 1][d] == Count(seen + [c], d)
    {
      CountSnoc(seen, c, d);
    }
  }

  /** The counting loop of `_generate_overall_error_analysis`: a dict that
      keeps insertion order, as its key list and its map. */
  method CountCategories(categories: seq<string>) returns (kinds: seq<string>, counts: map<string, nat>)
    ensures kinds == Dedupe(categories)
    ensures forall c :: c in counts <==> c in kinds
    ensures forall c :: c in counts ==> counts[c] == Count(categories, c)
  {
    kinds := [];
    counts := map[];
    var i := 0;
    while i < |categories|
      invariant 0 <= i <= |categories|
      invariant Tallied(categories[..i], kinds, counts)
    {
      var c := categories[i];
      assert categories[..i + 1] == categories[..i] + [c];
      if c in counts {
        TallyKnown(categories[..i], c, kinds, counts);
        counts := counts[c := counts[c] + 1];
      } else {
        TallyNew(categories[..i], c, kinds, counts);
        counts := counts[c := 1];
        kinds := kinds + [c];
      }
      i := i + 1;
    }
    assert categories[..i] == categories;
  }

  /** `_generate_overall_error_analysis` */
  method GenerateOverallErrorAnalysis(categories: seq<string>) returns (r: string)
    ensures r == OverallAnalysis(categories)
  {
    if categories == [] {
      return "解答正确";
    }
    var kinds, counts := CountCategories(categories);
    var parts: seq<string> := [];
    var k := 0;
    while k < |kinds|
      invariant 0 <= k <= |kinds|
      invariant parts == AnalysisParts(kinds, categories)[..k]
    {
      parts := parts + [AnalysisPart(kinds[k], counts[kinds[k]])];
      k := k + 1;
    }
    assert parts == AnalysisParts(kinds, categories);
    r := "主要错误类型：" + Join(parts, ", ");
  }

  /** The caller passes `list(set(categories))`, whose entries are
      distinct, so no count is ever printed. */
  lemma DistinctCategoriesHaveNoCounts(categories: seq<string>)
    requires categories != [] && Distinct(categories)
    ensures OverallAnalysis(categories) == "主要错误类型：" + Join(Dedupe(categories), ", ")
  {
    var kinds := Dedupe(categories);
    forall i | 0 <= i < |kinds|
      ensures Count(categories, kinds[i]) == 1
    {
      DistinctCountOne(categories, kinds[i]);
    }
    assert AnalysisParts(kinds, categories) == kinds;
  }

  lemma {:induction false} DistinctCountOne(xs: seq<string>, x: string)
    requires Distinct(xs) && x in xs
    ensures Count(xs, x) == 1
    decreases |xs|
  {
    var init := xs[..|xs| - 1];
    assert Distinct(init);
    if xs[|xs| - 1] == x {
      assert x !in init;
    } else {
      assert x in init;
      DistinctCountOne(init, x);
    }
  }
}
