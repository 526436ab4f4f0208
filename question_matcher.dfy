/** The question matcher of `question_matcher.py`: text preprocessing, the
    exact matcher, the expression matcher with its Jaccard similarity, the
    ranking of `find_matching_question`, and `search_questions`. The fuzzy
    (difflib), keyword (jieba) and AI matchers are foreign: their result
    lists are inputs, and so is the regex extraction of math expressions. */
module QuestionMatcher {
  import opened Wrappers
  import opened Strings
  import opened Collections
  import Sorting

  // ---------------------------------------------------------------------
  // The symbol map: `symbol_mapping` as (key, replacement) pairs in the
  // dictionary's insertion order

  type SymbolMap = seq<(char, string)>

  /** The mapping the matcher is built with, row by row as it is written. */
  function SymbolRow(n: nat): SymbolMap {
    match n
    case 0 => [('×', "*"), ('÷', "/"), ('＋', "+"), ('－', "-")]
    case 1 => [('（', "("), ('）', ")"), ('【', "["), ('】', "]")]
    case 2 => [('｛', "{"), ('｝', "}"), ('，', ","), ('。', ".")]
    case 3 => [('：', ":"), ('；', ";"), ('？', "?"), ('！', "!")]
    case 4 => [('＝', "="), ('＜', "<"), ('＞', ">"), ('≤', "<="), ('≥', ">=")]
    case 5 => [('≠', "!="), ('±', "±"), ('∞', "∞"), ('√', "√")]
    case 6 => [('²', "^2"), ('³', "^3"), ('⁴', "^4"), ('⁵', "^5")]
    case 7 => [('¹', "^1"), ('⁰', "^0"), ('⁻', "^-"), ('⁺', "^+")]
    case _ => []
  }

  const SymbolMapping: SymbolMap :=
    SymbolRow(0) + SymbolRow(1) + SymbolRow(2) + SymbolRow(3) +
    SymbolRow(4) + SymbolRow(5) + SymbolRow(6) + SymbolRow(7)

  /** The full-width punctuation that the source removes after mapping. */
  predicate IsFullWidthPunct(c: char) {
    c == '，' || c == '。' || c == '；' || c == '：' || c == '！' || c == '？'
  }

  /** No replacement brings in a blank or full-width punctuation. */
  predicate CleanReplacements(symbols: SymbolMap) {
    forall k, x :: 0 <= k < |symbols| && x in symbols[k].1 ==> !IsFullWidthPunct(x) && !IsSpace(x)
  }

  /** `c` is a key of the mapping. */
  predicate IsKey(symbols: SymbolMap, c: char) {
    exists k :: 0 <= k < |symbols| && symbols[k].0 == c
  }

  /** A mapping whose replacements are clean and which has every
      full-width mark as a key. */
  predicate CleanSymbols(symbols: SymbolMap) {
    CleanReplacements(symbols) && forall c :: IsFullWidthPunct(c) ==> IsKey(symbols, c)
  }

  lemma CleanAppend(a: SymbolMap, b: SymbolMap)
    requires CleanReplacements(a) && CleanReplacements(b)
    ensures CleanReplacements(a + b)
  {
    forall k, x | 0 <= k < |a + b| && x in (a + b)[k].1
      ensures !IsFullWidthPunct(x) && !IsSpace(x)
    {
      if k >= |a| {
        assert (a + b)[k] == b[k - |a|];
      }
    }
  }

  lemma RowIsClean(n: nat)
    ensures CleanReplacements(SymbolRow(n))
  {
  }

  /** The replacements of the matcher's own mapping are clean. */
  lemma SymbolReplacementsAreClean()
    ensures CleanReplacements(SymbolMapping)
  {
    RowIsClean(0); RowIsClean(1); RowIsClean(2); RowIsClean(3);
    RowIsClean(4); RowIsClean(5); RowIsClean(6); RowIsClean(7);
    var m := SymbolRow(0);
    CleanAppend(m, SymbolRow(1)); m := m + SymbolRow(1);
    CleanAppend(m, SymbolRow(2)); m := m + SymbolRow(2);
    CleanAppend(m, SymbolRow(3)); m := m + SymbolRow(3);
    CleanAppend(m, SymbolRow(4)); m := m + SymbolRow(4);
    CleanAppend(m, SymbolRow(5)); m := m + SymbolRow(5);
    CleanAppend(m, SymbolRow(6)); m := m + SymbolRow(6);
    CleanAppend(m, SymbolRow(7)); m := m + SymbolRow(7);
    assert m == SymbolMapping;
  }

  /** All six full-width marks are keys of the matcher's own mapping. */
  lemma FullWidthAreKeys()
    ensures forall c :: IsFullWidthPunct(c) ==> IsKey(SymbolMapping, c)
  {
    var early := SymbolRow(0) + SymbolRow(1);
    assert |early| == 8;
    assert SymbolMapping == early + (SymbolRow(2) + SymbolRow(3)) + (SymbolRow(4) + SymbolRow(5) + SymbolRow(6) + SymbolRow(7));
    assert SymbolMapping[10].0 == '，' && SymbolMapping[11].0 == '。';
    assert SymbolMapping[12].0 == '：' && SymbolMapping[13].0 == '；';
    assert SymbolMapping[14].0 == '？' && SymbolMapping[15].0 == '！';
  }

  /** The matcher's own mapping is clean. */
  lemma SymbolMappingIsClean()
    ensures CleanSymbols(SymbolMapping)
  {
    SymbolReplacementsAreClean();
    FullWidthAreKeys();
  }

  /** `for old, new in mapping.items(): text = text.replace(old, new)` */
  function ApplySymbols(s: string, symbols: SymbolMap): string
    decreases |symbols|
  {
    if symbols == [] then s
    else ApplySymbols(ReplaceChar(s, symbols[0].0, symbols[0].1), symbols[1..])
  }

  /** A blank or full-width mark that is absent stays absent. */
  lemma {:induction false} AbsentStaysAbsent(s: string, symbols: SymbolMap, c: char)
    requires CleanReplacements(symbols)
    requires c !in s && (IsFullWidthPunct(c) || IsSpace(c))
    ensures c !in ApplySymbols(s, symbols)
    decreases |symbols|
  {
    if symbols != [] {
      assert CleanReplacements(symbols[1..]) by {
        forall k, x | 0 <= k < |symbols[1..]| && x in symbols[1..][k].1
          ensures !IsFullWidthPunct(x) && !IsSpace(x)
        {
          assert symbols[1..][k] == symbols[k + 1];
        }
      }
      assert c !in symbols[0].1;
      AbsentStaysAbsent(ReplaceChar(s, symbols[0].0, symbols[0].1), symbols[1..], c);
    }
  }

  /** A full-width key is gone after the mapping. */
  lemma {:induction false} KeyReplaced(s: string, symbols: SymbolMap, c: char)
    requires CleanReplacements(symbols) && IsFullWidthPunct(c) && IsKey(symbols, c)
    ensures c !in ApplySymbols(s, symbols)
    decreases |symbols|
  {
    var next := ReplaceChar(s, symbols[0].0, symbols[0].1);
    assert CleanReplacements(symbols[1..]) by {
      forall k, x | 0 <= k < |symbols[1..]| && x in symbols[1..][k].1
        ensures !IsFullWidthPunct(x) && !IsSpace(x)
      {
        assert symbols[1..][k] == symbols[k + 1];
      }
    }
    assert c !in symbols[0].1;
    if symbols[0].0 == c {
      AbsentStaysAbsent(next, symbols[1..], c);
    } else {
      var k :| 0 <= k < |symbols| && symbols[k].0 == c;
      assert symbols[1..][k - 1].0 == c;
      KeyReplaced(next, symbols[1..], c);
    }
  }

  /** After a clean mapping, none of the six full-width marks is left. */
  lemma MappedHasNoFullWidth(s: string, symbols: SymbolMap)
    requires CleanSymbols(symbols)
    ensures forall c :: c in ApplySymbols(s, symbols) ==> !IsFullWidthPunct(c)
  {
    forall c | IsFullWidthPunct(c)
      ensures c !in ApplySymbols(s, symbols)
    {
      KeyReplaced(s, symbols, c);
    }
  }

  // ---------------------------------------------------------------------
  // `_preprocess_text`

  /** `re.sub(r'\s+', ' ', s)`: every run of whitespace becomes one space. */
  function CollapseSpaces(s: string): (r: string)
    ensures |r| <= |s| && (r == [] <==> s == [])
    ensures s != [] && !IsSpace(s[0]) ==> r[0] == s[0]
    ensures s != [] && IsSpace(s[0]) ==> r[0] == ' '
    decreases |s|
  {
    if s == [] then []
    else if IsSpace(s[0]) then " " + CollapseSpaces(TrimStart(s[1..]))
    else [s[0]] + CollapseSpaces(s[1..])
  }

  /** After collapsing, whitespace is a single space between non-blank
      characters. */
  lemma {:induction false} CollapsedRuns(s: string)
    ensures var r := CollapseSpaces(s);
            forall i :: 0 <= i < |r| && IsSpace(r[i]) ==> r[i] == ' ' && (i + 1 < |r| ==> !IsSpace(r[i + 1]))
    decreases |s|
  {
    if s != [] {
      var rest := if IsSpace(s[0]) then TrimStart(s[1..]) else s[1..];
      CollapsedRuns(rest);
      var r := CollapseSpaces(s);
      assert r[1..] == CollapseSpaces(rest);
      forall i | 0 <= i < |r| && IsSpace(r[i])
        ensures r[i] == ' ' && (i + 1 < |r| ==> !IsSpace(r[i + 1]))
      {
        if i > 0 {
          assert r[i] == r[1..][i - 1];
          if i + 1 < |r| {
            assert r[i + 1] == r[1..][i];
          }
        } else if i + 1 < |r| && IsSpace(s[0]) {
          assert r[1] == CollapseSpaces(rest)[0];
        }
      }
    }
  }

  /** `re.sub(r'^\d+[\.\)]\s*', '', s)`: one leading question number. */
  function DropNumberPrefix(s: string): (r: string)
    ensures |r| <= |s|
    ensures s == [] || !IsDigit(s[0]) ==> r == s
    ensures forall c :: c in r ==> c in s
  {
    var a := DigitRun(s);
    if 0 < a < |s| && (s[a] == '.' || s[a] == ')') then
      SuffixKeepsChars(s, a + 1);
      TrimStart(s[a + 1..])
    else s
  }

  lemma SuffixKeepsChars(s: string, k: nat)
    requires k <= |s|
    ensures forall c :: c in TrimStart(s[k..]) ==> c in s
  {
    var t := s[k..];
    var r := TrimStart(t);
    TrimStartIsSuffix(t);
    forall c | c in r
      ensures c in s
    {
      var i :| 0 <= i < |r| && r[i] == c;
      assert r[i] == t[|t| - |r| + i] == s[k + |t| - |r| + i];
    }
  }

  /** `re.sub(r'[，。；：！？]', '', s)` */
  function RemoveFullWidth(s: string): (r: string)
    ensures forall c :: c in r ==> c in s && !IsFullWidthPunct(c)
    decreases |s|
  {
    if s == [] then []
    else (if IsFullWidthPunct(s[0]) then [] else [s[0]]) + RemoveFullWidth(s[1..])
  }

  lemma {:induction false} RemoveFullWidthNoop(s: string)
    requires forall c :: c in s ==> !IsFullWidthPunct(c)
    ensures RemoveFullWidth(s) == s
    decreases |s|
  {
    if s != [] {
      RemoveFullWidthNoop(s[1..]);
    }
  }

  /** `_preprocess_text` */
  function PreprocessText(symbols: SymbolMap, text: string): string {
    if text == [] then []
    else Trim(RemoveFullWidth(DropNumberPrefix(ApplySymbols(CollapseSpaces(Trim(text)), symbols))))
  }

  /** The punctuation removal finds nothing to remove: the symbol map has
      already turned all six marks into ASCII. */
  lemma PunctuationRemovalIsNoop(symbols: SymbolMap, text: string)
    requires CleanSymbols(symbols)
    ensures text != [] ==>
            var mapped := DropNumberPrefix(ApplySymbols(CollapseSpaces(Trim(text)), symbols));
            PreprocessText(symbols, text) == Trim(mapped)
  {
    if text != [] {
      var applied := ApplySymbols(CollapseSpaces(Trim(text)), symbols);
      MappedHasNoFullWidth(CollapseSpaces(Trim(text)), symbols);
      RemoveFullWidthNoop(DropNumberPrefix(applied));
    }
  }

  /** The preprocessed text has no blank at either end and no full-width
      punctuation, whatever the mapping. */
  lemma PreprocessedShape(symbols: SymbolMap, text: string)
    ensures var r := PreprocessText(symbols, text);
            (r == [] || (!IsSpace(r[0]) && !IsSpace(r[|r| - 1]))) &&
            forall c :: c in r ==> !IsFullWidthPunct(c)
  {
    if text != [] {
      var u := RemoveFullWidth(DropNumberPrefix(ApplySymbols(CollapseSpaces(Trim(text)), symbols)));
      TrimKeepsChars(u);
    }
  }

  /** The rebinding loop over the symbol map's items. */
  method ReplaceSymbols(text: string, symbols: SymbolMap) returns (t: string)
    ensures t == ApplySymbols(text, symbols)
  {
    t := text;
    var i := 0;
    while i < |symbols|
      invariant 0 <= i <= |symbols|
      invariant ApplySymbols(t, symbols[i..]) == ApplySymbols(text, symbols)
    {
      assert symbols[i..][1..] == symbols[i + 1..];
      t := ReplaceChar(t, symbols[i].0, symbols[i].1);
      i := i + 1;
    }
  }

  /** `_preprocess_text` */
  method Preprocess(symbols: SymbolMap, text: string) returns (r: string)
    ensures r == PreprocessText(symbols, text)
  {
    if text == [] {
      return [];
    }
    var t := ReplaceSymbols(CollapseSpaces(Trim(text)), symbols);
    r := Trim(RemoveFullWidth(DropNumberPrefix(t)));
  }

  // ---------------------------------------------------------------------
  // `_normalize_expression`

  /** `re.sub(r'\^(\d+)', r'^\1', s)`: a caret and its digits are written
      back as they were. */
  function CaretRewrite(s: string): string
    decreases |s|
  {
    if s == [] then []
    else if s[0] == '^' && DigitRun(s[1..]) > 0 then
      var d := DigitRun(s[1..]);
      "^" + s[1..1 + d] + CaretRewrite(s[1 + d..])
    else [s[0]] + CaretRewrite(s[1..])
  }

  /** The caret substitution is an identity rewrite. */
  lemma {:induction false} CaretRewriteIsIdentity(s: string)
    ensures CaretRewrite(s) == s
    decreases |s|
  {
    if s != [] {
      if s[0] == '^' && DigitRun(s[1..]) > 0 {
        var d := DigitRun(s[1..]);
        CaretRewriteIsIdentity(s[1 + d..]);
        assert s == "^" + s[1..1 + d] + s[1 + d..];
      } else {
        CaretRewriteIsIdentity(s[1..]);
      }
    }
  }

  /** `_normalize_expression`: spaces removed, symbols mapped, carets
      rewritten. */
  function NormalizeExpression(symbols: SymbolMap, expr: string): string {
    CaretRewrite(ApplySymbols(ReplaceChar(expr, ' ', ""), symbols))
  }

  /** With a clean mapping a normalized expression holds no space and
      no full-width mark. */
  lemma NormalizedHasNoSpace(symbols: SymbolMap, expr: string)
    requires CleanSymbols(symbols)
    ensures ' ' !in NormalizeExpression(symbols, expr)
    ensures forall c :: c in NormalizeExpression(symbols, expr) ==> !IsFullWidthPunct(c)
  {
    var mapped := ApplySymbols(ReplaceChar(expr, ' ', ""), symbols);
    CaretRewriteIsIdentity(mapped);
    AbsentStaysAbsent(ReplaceChar(expr, ' ', ""), symbols, ' ');
    MappedHasNoFullWidth(ReplaceChar(expr, ' ', ""), symbols);
  }

  // ---------------------------------------------------------------------
  // `_calculate_expression_similarity`

  /** `set(normalize(e) for e in exprs)` */
  function NormalizedSet(symbols: SymbolMap, exprs: seq<string>): (r: set<string>)
    ensures exprs != [] ==> NormalizeExpression(symbols, exprs[0]) in r
  {
    set e | e in exprs :: NormalizeExpression(symbols, e)
  }

  /** |A ∩ B| / |A ∪ B|; 0.0 for two empty sets. */
  function Jaccard(a: set<string>, b: set<string>): real {
    if a + b == {} then 0.0 else (|a * b| as real) / (|a + b| as real)
  }

  /** The similarity of two expression lists: the Jaccard index of their
      normalized sets, 0.0 when either list is empty. */
  function ExpressionSimilarity(symbols: SymbolMap, e1: seq<string>, e2: seq<string>): real {
    if e1 == [] || e2 == [] then 0.0 else Jaccard(NormalizedSet(symbols, e1), NormalizedSet(symbols, e2))
  }

  lemma SubsetCard(a: set<string>, b: set<string>)
    requires a <= b
    ensures |a| <= |b| && (|a| == |b| ==> a == b)
  {
    assert b == a + (b - a);
    assert |b| == |a| + |b - a|;
  }

  lemma RatioBounds(x: real, y: real)
    requires 0.0 <= x <= y && 0.0 < y
    ensures 0.0 <= x / y <= 1.0
    ensures x / y == 1.0 ==> x == y
  {
    assert x / y * y == x;
  }

  /** The Jaccard index lies in [0, 1], is symmetric, and is 1.0 exactly
      when the sets are equal and non-empty. */
  lemma JaccardProperties(a: set<string>, b: set<string>)
    ensures 0.0 <= Jaccard(a, b) <= 1.0
    ensures Jaccard(a, b) == Jaccard(b, a)
    ensures Jaccard(a, b) == 1.0 <==> a == b && a != {}
  {
    assert a * b == b * a && a + b == b + a;
    if a + b != {} {
      SubsetCard(a * b, a + b);
      RatioBounds(|a * b| as real, |a + b| as real);
      if Jaccard(a, b) == 1.0 {
        assert a * b == a + b;
        assert a == b by {
          assert forall z :: z in a ==> z in a + b;
          assert forall z :: z in b ==> z in a + b;
        }
      }
      if a == b && a != {} {
        assert a * b == a + b;
      }
    }
  }

  /** The similarity lies in [0, 1], is symmetric, and is 1.0 exactly when
      both lists normalize to the same non-empty set. */
  lemma SimilarityProperties(symbols: SymbolMap, e1: seq<string>, e2: seq<string>)
    ensures 0.0 <= ExpressionSimilarity(symbols, e1, e2) <= 1.0
    ensures ExpressionSimilarity(symbols, e1, e2) == ExpressionSimilarity(symbols, e2, e1)
    ensures ExpressionSimilarity(symbols, e1, e2) == 1.0 <==>
            e1 != [] && e2 != [] && NormalizedSet(symbols, e1) == NormalizedSet(symbols, e2)
  {
    if e1 != [] && e2 != [] {
      JaccardProperties(NormalizedSet(symbols, e1), NormalizedSet(symbols, e2));
    }
  }

  // ---------------------------------------------------------------------
  // The bank and the matchers

  /** A bank question as the matcher reads it: its `question_type` and the
      `question_info.text` ("" when absent). */
  datatype MatchQuestion = MatchQuestion(id: string, questionType: Option<string>, text: string)

  /** `question_type and question.get('question_type') != question_type`
      skips the entry; an absent or empty type filter admits all. */
  predicate Admits(questionType: Option<string>, q: MatchQuestion) {
    questionType.None? || questionType.value == [] || q.questionType == questionType
  }

  /** An admitted question with a text whose preprocessed form equals the
      (already preprocessed) text. */
  predicate IsExact(symbols: SymbolMap, text: string, questionType: Option<string>, q: MatchQuestion) {
    Admits(questionType, q) && q.text != [] && PreprocessText(symbols, q.text) == text
  }

  /** The first exact question of the bank. */
  function ExactMatch(symbols: SymbolMap, text: string, questionType: Option<string>, bank: seq<MatchQuestion>): Option<MatchQuestion>
    decreases |bank|
  {
    if bank == [] then None
    else if IsExact(symbols, text, questionType, bank[0]) then Some(bank[0])
    else ExactMatch(symbols, text, questionType, bank[1..])
  }

  /** The exact match is an exact question of the bank, and there is none
      only when no question of the bank is exact. */
  lemma {:induction false} ExactMatchSound(symbols: SymbolMap, text: string, questionType: Option<string>, bank: seq<MatchQuestion>)
    ensures var r := ExactMatch(symbols, text, questionType, bank);
            (r.Some? ==> r.value in bank && IsExact(symbols, text, questionType, r.value)) &&
            (r.None? <==> forall q :: q in bank ==> !IsExact(symbols, text, questionType, q))
    decreases |bank|
  {
    if bank != [] {
      if IsExact(symbols, text, questionType, bank[0]) {
        assert bank[0] in bank;
      } else {
        var rest := bank[1..];
        ExactMatchSound(symbols, text, questionType, rest);
        assert forall q :: q in bank <==> q == bank[0] || q in rest;
      }
    }
  }

  /** `_exact_match` */
  method FindExact(symbols: SymbolMap, text: string, questionType: Option<string>, bank: seq<MatchQuestion>) returns (r: Option<MatchQuestion>)
    ensures r == ExactMatch(symbols, text, questionType, bank)
  {
    var i := 0;
    while i < |bank|
      invariant 0 <= i <= |bank|
      invariant ExactMatch(symbols, text, questionType, bank[i..]) == ExactMatch(symbols, text, questionType, bank)
    {
      assert bank[i..][1..] == bank[i + 1..];
      var q := bank[i];
      if Admits(questionType, q) && q.text != [] {
        var processed := PreprocessText(symbols, q.text);
        assert IsExact(symbols, text, questionType, q) <==> text == processed;
        if text == processed {
          return Some(q);
        }
      }
      i := i + 1;
    }
    return None;
  }

  datatype Match = Match(question: MatchQuestion, similarity: real, how: string)

  /** The expression matcher's verdict on one question: its similarity to
      the text's expressions, when both have expressions and it reaches
      0.7. `extract` is `_extract_math_expressions`. */
  function ExpressionCandidate(symbols: SymbolMap, textExprs: seq<string>, questionType: Option<string>, q: MatchQuestion, extract: string -> seq<string>): seq<Match> {
    if !Admits(questionType, q) || q.text == [] then []
    else
      var qExprs := extract(q.text);
      if textExprs != [] && qExprs != [] && ExpressionSimilarity(symbols, textExprs, qExprs) >= 0.7
      then [Match(q, ExpressionSimilarity(symbols, textExprs, qExprs), "expression")]
      else []
  }

  function ExpressionMatches(symbols: SymbolMap, textExprs: seq<string>, questionType: Option<string>, bank: seq<MatchQuestion>, extract: string -> seq<string>): seq<Match>
    decreases |bank|
  {
    if bank == [] then []
    else ExpressionMatches(symbols, textExprs, questionType, bank[..|bank| - 1], extract) +
         ExpressionCandidate(symbols, textExprs, questionType, bank[|bank| - 1], extract)
  }

  /** Every expression match is an admitted bank question with a score
      in [0.7, 1]. */
  lemma {:induction false} ExpressionMatchesSound(symbols: SymbolMap, textExprs: seq<string>, questionType: Option<string>, bank: seq<MatchQuestion>, extract: string -> seq<string>)
    ensures forall m :: m in ExpressionMatches(symbols, textExprs, questionType, bank, extract) ==>
              m.question in bank && Admits(questionType, m.question) && 0.7 <= m.similarity <= 1.0
    decreases |bank|
  {
    if bank != [] {
      var init := bank[..|bank| - 1];
      ExpressionMatchesSound(symbols, textExprs, questionType, init, extract);
      var q := bank[|bank| - 1];
      if Admits(questionType, q) && q.text != [] {
        SimilarityProperties(symbols, textExprs, extract(q.text));
      }
      assert forall x :: x in init ==> x in bank;
    }
  }

  lemma ExpressionMatchesStep(symbols: SymbolMap, textExprs: seq<string>, questionType: Option<string>, bank: seq<MatchQuestion>, i: nat, extract: string -> seq<string>)
    requires i < |bank|
    ensures ExpressionMatches(symbols, textExprs, questionType, bank[..i + 1], extract) ==
            ExpressionMatches(symbols, textExprs, questionType, bank[..i], extract) + ExpressionCandidate(symbols, textExprs, questionType, bank[i], extract)
  {
    assert bank[..i + 1][..i] == bank[..i];
  }

  /** `_expression_match` */
  method ExpressionMatch(symbols: SymbolMap, text: string, questionType: Option<string>, bank: seq<MatchQuestion>, extract: string -> seq<string>) returns (matches: seq<Match>)
    ensures matches == ExpressionMatches(symbols, extract(text), questionType, bank, extract)
  {
    var textExprs := extract(text);
    matches := [];
    var i := 0;
    while i < |bank|
      invariant 0 <= i <= |bank|
      invariant matches == ExpressionMatches(symbols, textExprs, questionType, bank[..i], extract)
    {
      ExpressionMatchesStep(symbols, textExprs, questionType, bank, i, extract);
      var q := bank[i];
      if Admits(questionType, q) && q.text != [] {
        var qExprs := extract(q.text);
        if textExprs != [] && qExprs != [] {
          var similarity := ExpressionSimilarity(symbols, textExprs, qExprs);
          if similarity >= 0.7 {
            matches := matches + [Match(q, similarity, "expression")];
          }
        }
      }
      i := i + 1;
    }
    assert bank[..|bank|] == bank;
  }

  // ---------------------------------------------------------------------
  // `find_matching_question`

  datatype MatchResult = MatchResult(question: MatchQuestion, similarity: real, how: string, allMatches: seq<Match>)

  function LeSimilarity(a: Match, b: Match): bool {
    a.similarity <= b.similarity
  }

  lemma SimilarityOrder()
    ensures Sorting.TotalPreorder(LeSimilarity)
  {
  }

  /** The candidates in the order they are collected: the exact match,
      then the fuzzy, keyword, expression and AI matches. */
  function Candidates(exact: Option<MatchQuestion>, fuzzy: seq<Match>, keyword: seq<Match>, expression: seq<Match>, ai: seq<Match>): seq<Match> {
    (if exact.Some? then [Match(exact.value, 1.0, "exact")] else []) + fuzzy + keyword + expression + ai
  }

  /** The ranking step of `find_matching_question`: the candidates stably
      sorted by descending similarity; the first is the answer and the
      first five are kept. */
  function Rank(all: seq<Match>): Option<MatchResult> {
    if all == [] then None
    else
      var sorted := Sorting.SortDesc(all, LeSimilarity);
      Some(MatchResult(sorted[0].question, sorted[0].similarity, sorted[0].how, Take(sorted, 5)))
  }

  /** The answer is the first candidate with the highest similarity, so no
      candidate scores higher; at most five matches are listed, the answer
      first. */
  lemma RankPicksFirstBest(all: seq<Match>)
    ensures var r := Rank(all);
            (r.None? <==> all == []) &&
            (r.Some? ==>
              |r.value.allMatches| <= 5 && r.value.allMatches != [] &&
              r.value.allMatches[0] == Match(r.value.question, r.value.similarity, r.value.how) &&
              exists i :: 0 <= i < |all| && all[i] == r.value.allMatches[0] &&
                (forall j :: 0 <= j < |all| ==> all[j].similarity <= all[i].similarity) &&
                (forall j :: 0 <= j < i ==> all[j].similarity < all[i].similarity))
  {
    if all != [] {
      var i := FirstBest(all);
      SimilarityOrder();
      Sorting.SortDescHead(all, LeSimilarity, i);
    }
  }

  /** The listed matches are the five best: no candidate left out scores
      higher than the last one listed, and among candidates of equal
      similarity those listed are the first ones in collection order. */
  lemma RankKeepsFiveBest(all: seq<Match>, m: Match)
    requires all != []
    ensures var listed := Rank(all).value.allMatches;
            (forall c :: c in all ==> c in listed || c.similarity <= listed[|listed| - 1].similarity) &&
            Sorting.WithKeyOf(listed, m, LeSimilarity) <= Sorting.WithKeyOf(all, m, LeSimilarity)
  {
    SimilarityOrder();
    var sorted := Sorting.SortDesc(all, LeSimilarity);
    var n := if 5 < |all| then 5 else |all|;
    assert Rank(all).value.allMatches == sorted[..n];
    Sorting.PrefixKeepsLargest(all, LeSimilarity, n);
    Sorting.PrefixStable(all, LeSimilarity, n, m);
  }

  /** `find_matching_question`: no answer for an empty bank; otherwise the
      ranking of every matcher's candidates. */
  function FindMatchingQuestion(symbols: SymbolMap, ocrText: string, questionType: Option<string>, bank: seq<MatchQuestion>,
                                extract: string -> seq<string>, fuzzy: seq<Match>, keyword: seq<Match>, ai: seq<Match>): (r: Option<MatchResult>)
    ensures bank == [] ==> r.None?
    ensures bank != [] && (fuzzy != [] || keyword != [] || ai != []) ==> r.Some?
    ensures bank != [] && ExactMatch(symbols, PreprocessText(symbols, ocrText), questionType, bank).Some? ==>
              r.Some? && r.value.similarity >= 1.0
    ensures r.Some? ==> forall c :: c in fuzzy || c in keyword || c in ai ==> c.similarity <= r.value.similarity
  {
    if bank == [] then None
    else
      var text := PreprocessText(symbols, ocrText);
      var exact := ExactMatch(symbols, text, questionType, bank);
      var all := Candidates(exact, fuzzy, keyword, ExpressionMatches(symbols, extract(text), questionType, bank, extract), ai);
      RankBoundsCandidates(all);
      assert exact.Some? ==> all[0] == Match(exact.value, 1.0, "exact");
      Rank(all)
  }

  /** No candidate scores higher than the answer. */
  lemma RankBoundsCandidates(all: seq<Match>)
    ensures all != [] ==> Rank(all).Some?
    ensures Rank(all).Some? ==> forall c :: c in all ==> c.similarity <= Rank(all).value.similarity
  {
    RankPicksFirstBest(all);
    if all != [] {
      var r := Rank(all).value;
      var i :| 0 <= i < |all| && all[i] == r.allMatches[0] &&
               (forall j :: 0 <= j < |all| ==> all[j].similarity <= all[i].similarity) &&
               (forall j :: 0 <= j < i ==> all[j].similarity < all[i].similarity);
      forall c | c in all
        ensures c.similarity <= r.similarity
      {
        var j :| 0 <= j < |all| && all[j] == c;
      }
    }
  }

  /** The index of the first element with the highest similarity. */
  lemma FirstBest(all: seq<Match>) returns (i: nat)
    requires all != []
    ensures i < |all|
    ensures forall j :: 0 <= j < |all| ==> all[j].similarity <= all[i].similarity
    ensures forall j :: 0 <= j < i ==> all[j].similarity < all[i].similarity
  {
    i := 0;
    var k := 1;
    while k < |all|
      invariant 0 <= i < k <= |all|
      invariant forall j :: 0 <= j < k ==> all[j].similarity <= all[i].similarity
      invariant forall j :: 0 <= j < i ==> all[j].similarity < all[i].similarity
    {
      if all[k].similarity > all[i].similarity {
        i := k;
      }
      k := k + 1;
    }
  }

  /** An exact match scores 1.0, so the answer scores at least 1.0. */
  lemma ExactMatchWins(symbols: SymbolMap, ocrText: string, questionType: Option<string>, bank: seq<MatchQuestion>,
                       extract: string -> seq<string>, fuzzy: seq<Match>, keyword: seq<Match>, ai: seq<Match>)
    requires ExactMatch(symbols, PreprocessText(symbols, ocrText), questionType, bank).Some?
    ensures var r := FindMatchingQuestion(symbols, ocrText, questionType, bank, extract, fuzzy, keyword, ai);
            r.Some? && r.value.similarity >= 1.0
  {
    var text := PreprocessText(symbols, ocrText);
    var all := Candidates(ExactMatch(symbols, text, questionType, bank), fuzzy, keyword,
                          ExpressionMatches(symbols, extract(text), questionType, bank, extract), ai);
    assert bank != [];
    assert all[0].similarity == 1.0;
    RankPicksFirstBest(all);
  }

  // ---------------------------------------------------------------------
  // `search_questions`

  /** The admitted questions whose text contains the query, ignoring case,
      in bank order. */
  function Hits(query: string, questionType: Option<string>, bank: seq<MatchQuestion>): seq<MatchQuestion>
    decreases |bank|
  {
    if bank == [] then []
    else
      var q := bank[|bank| - 1];
      Hits(query, questionType, bank[..|bank| - 1]) +
      (if Admits(questionType, q) && Contains(Lower(q.text), Lower(query)) then [q] else [])
  }

  lemma {:induction false} HitsSound(query: string, questionType: Option<string>, bank: seq<MatchQuestion>)
    ensures forall q :: q in Hits(query, questionType, bank) ==>
              q in bank && Admits(questionType, q) && Contains(Lower(q.text), Lower(query))
    ensures |Hits(query, questionType, bank)| <= |bank|
    decreases |bank|
  {
    if bank != [] {
      HitsSound(query, questionType, bank[..|bank| - 1]);
      assert forall x :: x in bank[..|bank| - 1] ==> x in bank;
    }
  }

  /** The cap the loop honours: it checks the count only after appending,
      so a limit below one still lets one hit through. */
  function Cap(limit: int): nat {
    if limit < 1 then 1 else limit
  }

  /** `search_questions` */
  method SearchQuestions(query: string, questionType: Option<string>, bank: seq<MatchQuestion>, limit: int) returns (results: seq<MatchQuestion>)
    ensures results == Take(Hits(query, questionType, bank), Cap(limit))
  {
    results := [];
    var i := 0;
    while i < |bank|
      invariant 0 <= i <= |bank|
      invariant results == Hits(query, questionType, bank[..i])
      invariant |results| < Cap(limit)
    {
      HitsStep(query, questionType, bank, i);
      var q := bank[i];
      if Admits(questionType, q) && Contains(Lower(q.text), Lower(query)) {
        results := results + [q];
        if |results| >= limit {
          LimitReached(query, questionType, bank, i + 1, Cap(limit));
          return;
        }
      }
      i := i + 1;
    }
    assert bank[..|bank|] == bank;
  }

  /** The hits of a prefix one question longer. */
  lemma HitsStep(query: string, questionType: Option<string>, bank: seq<MatchQuestion>, i: nat)
    requires i < |bank|
    ensures Hits(query, questionType, bank[..i + 1]) ==
            Hits(query, questionType, bank[..i]) +
            (if Admits(questionType, bank[i]) && Contains(Lower(bank[i].text), Lower(query)) then [bank[i]] else [])
  {
    assert bank[..i + 1][..i] == bank[..i];
  }

  /** Once the hits of a prefix reach the cap, they are the capped hits of
      the whole bank. */
  lemma LimitReached(query: string, questionType: Option<string>, bank: seq<MatchQuestion>, i: nat, cap: nat)
    requires i <= |bank| && |Hits(query, questionType, bank[..i])| == cap
    ensures Take(Hits(query, questionType, bank), cap) == Hits(query, questionType, bank[..i])
  {
    HitsAppend(query, questionType, bank[..i], bank[i..]);
    assert bank[..i] + bank[i..] == bank;
  }

  /** Hits of a split bank are the hits of its parts. */
  lemma {:induction false} HitsAppend(query: string, questionType: Option<string>, b1: seq<MatchQuestion>, b2: seq<MatchQuestion>)
    ensures Hits(query, questionType, b1 + b2) == Hits(query, questionType, b1) + Hits(query, questionType, b2)
    decreases |b2|
  {
    if b2 != [] {
      HitsAppend(query, questionType, b1, b2[..|b2| - 1]);
      assert (b1 + b2)[..|b1 + b2| - 1] == b1 + b2[..|b2| - 1];
    } else {
      assert b1 + b2 == b1;
    }
  }

  /** A limit below one still returns the first hit. */
  lemma NonPositiveLimitReturnsOne(query: string, questionType: Option<string>, bank: seq<MatchQuestion>, limit: int)
    requires limit <= 0 && Hits(query, questionType, bank) != []
    ensures |Take(Hits(query, questionType, bank), Cap(limit))| == 1
  {
  }
}
