/** Rule verification of `ai_processor.py`: `_normalize_expression`, the
    fallback evaluator `_evaluate_fraction_expression` / `_verify_fraction_step`,
    the sympy comparison of `_verify_step_with_sympy` (sympy is an oracle
    here), `_apply_rule_verification` and `_gcd`. */
module RuleVerifier {
  import opened Wrappers
  import opened Strings
  import opened Reconciliation
  import Collections

  // ---------------------------------------------------------------------
  // `_normalize_expression`

  /** The characters the rewrite adds around the two digit runs. */
  const RationalSyntax: string := "Rational(, )"

  /** `re.sub(r'(\d+)/(\d+)', r'Rational(\1, \2)', s)`: scanning from the
      left, a maximal digit run, a slash and a second maximal digit run
      become `Rational(a, b)`. */
  function RationalRewrite(s: string): (r: string)
    ensures |r| >= |s|
    ensures forall c :: c in r ==> c in s || c in RationalSyntax
    decreases |s|
  {
    if s == [] then []
    else
      var a := DigitRun(s);
      if 0 < a && a + 1 < |s| && s[a] == '/' && IsDigit(s[a + 1]) then
        var b := DigitRun(s[a + 1..]);
        "Rational(" + s[..a] + ", " + s[a + 1..a + 1 + b] + ")" + RationalRewrite(s[a + 1 + b..])
      else [s[0]] + RationalRewrite(s[1..])
  }

  /** `_normalize_expression`: strip, rewrite digit fractions as
      `Rational(a, b)`, then map `×` and `·` to `*` and `÷` to `/`. */
  function NormalizeExpression(expr: string): (r: string)
    ensures '×' !in r && '·' !in r && '÷' !in r
    ensures expr == [] ==> r == []
  {
    if expr == [] then []
    else ReplaceChar(ReplaceChar(ReplaceChar(RationalRewrite(Trim(expr)), '×', "*"), '·', "*"), '÷', "/")
  }

  /** The operator glyph mapping of `_normalize_expression`: `×` and `·`
      become `*`, `÷` becomes `/`, every other character is kept. */
  function Glyph(c: char): char {
    if c == '×' || c == '·' then '*' else if c == '÷' then '/' else c
  }

  /** On a text without a slash the fraction rewrite does nothing, so
      normalizing only strips the text and maps each character by `Glyph`,
      position by position. */
  lemma NormalizeSlashFree(expr: string)
    requires '/' !in expr
    ensures |NormalizeExpression(expr)| == |Trim(expr)|
    ensures forall i :: 0 <= i < |Trim(expr)| ==> NormalizeExpression(expr)[i] == Glyph(Trim(expr)[i])
  {
    if expr != [] {
      TrimKeepsChars(expr);
      RewriteWithoutSlash(Trim(expr));
      ReplaceGlyphsByChar(Trim(expr));
    }
  }

  /** The three glyph replacements map the text character by character. */
  lemma ReplaceGlyphsByChar(t: string)
    ensures |ReplaceChar(ReplaceChar(ReplaceChar(t, '×', "*"), '·', "*"), '÷', "/")| == |t|
    ensures forall i :: 0 <= i < |t| ==>
              ReplaceChar(ReplaceChar(ReplaceChar(t, '×', "*"), '·', "*"), '÷', "/")[i] == Glyph(t[i])
  {
    var s1 := ReplaceChar(t, '×', "*");
    var s2 := ReplaceChar(s1, '·', "*");
    ReplaceCharByChar(t, '×', '*');
    ReplaceCharByChar(s1, '·', '*');
    ReplaceCharByChar(s2, '÷', '/');
  }

  /** Normalization is not idempotent: `÷` turns into `/` after the fraction
      rewrite has run, so a second pass rewrites the fraction it produced. */
  lemma NormalizeNotIdempotent()
    ensures NormalizeExpression("6÷3") == "6/3"
    ensures NormalizeExpression(NormalizeExpression("6÷3")) == "Rational(6, 3)"
  {
    NormalizeOnce();
    NormalizeTwice();
  }

  lemma NormalizeOnce()
    ensures NormalizeExpression("6÷3") == "6/3"
  {
    NormalizeTrimmed("6÷3");
    RewriteKeepsDivisionSign();
    ReplaceOperatorsOfDivision();
  }

  lemma ReplaceOperatorsOfDivision()
    ensures ReplaceChar(ReplaceChar(ReplaceChar("6÷3", '×', "*"), '·', "*"), '÷', "/") == "6/3"
  {
    var s1 := "6÷3";
    assert '×' !in s1 && '·' !in s1;
    assert ReplaceChar(s1, '÷', "/") == "6/3" by {
      assert s1[1..] == "÷3" && s1[1..][1..] == "3";
      assert ReplaceChar("3", '÷', "/") == "3";
      assert ReplaceChar("÷3", '÷', "/") == "/3";
    }
  }

  lemma NormalizeTwice()
    ensures NormalizeExpression("6/3") == "Rational(6, 3)"
  {
    NormalizeTrimmed("6/3");
    RewriteOfDigitFraction();
    ReplaceOperatorsOfRational();
  }

  /** A short text with no outer spaces is normalized without stripping. */
  lemma NormalizeTrimmed(expr: string)
    requires |expr| == 3 && !IsSpace(expr[0]) && !IsSpace(expr[2])
    ensures NormalizeExpression(expr) ==
            ReplaceChar(ReplaceChar(ReplaceChar(RationalRewrite(expr), '×', "*"), '·', "*"), '÷', "/")
  {
    TrimOfTrimmed(expr);
  }

  lemma ReplaceOperatorsOfRational()
    ensures ReplaceChar(ReplaceChar(ReplaceChar("Rational(6, 3)", '×', "*"), '·', "*"), '÷', "/") == "Rational(6, 3)"
  {
    var s2 := "Rational(6, 3)";
    assert '×' !in s2 && '·' !in s2 && '÷' !in s2;
  }

  lemma RewriteKeepsDivisionSign()
    ensures RationalRewrite("6÷3") == "6÷3"
  {
    assert DigitRun("6÷3") == 1;
    assert "6÷3"[1..] == "÷3";
    assert "÷3"[1..] == "3";
    assert RationalRewrite("3") == "3";
    assert RationalRewrite("÷3") == "÷3";
  }

  lemma RewriteOfDigitFraction()
    ensures RationalRewrite("6/3") == "Rational(6, 3)"
  {
    assert DigitRun("6/3") == 1;
    assert "6/3"[2..] == "3";
    assert DigitRun("3") == 1;
    assert "3"[1..] == "";
  }

  /** A text without a slash is left as it is by the fraction rewrite. */
  lemma {:induction false} RewriteWithoutSlash(s: string)
    requires '/' !in s
    ensures RationalRewrite(s) == s
    decreases |s|
  {
    if s != [] {
      var a := DigitRun(s);
      if a < |s| {
        assert s[a] in s;
      }
      assert forall c :: c in s[1..] ==> c in s;
      RewriteWithoutSlash(s[1..]);
      assert [s[0]] + s[1..] == s;
    }
  }

  /** A leading `a/b` of two whole digit runs becomes `Rational(a, b)`,
      and the rewrite carries on with what follows. */
  lemma RewriteLeadingFraction(a: string, b: string, rest: string)
    requires a != [] && b != [] && AllDigits(a) && AllDigits(b)
    requires rest == [] || !IsDigit(rest[0])
    ensures RationalRewrite(a + "/" + b + rest) == "Rational(" + a + ", " + b + ")" + RationalRewrite(rest)
  {
    var s := a + "/" + b + rest;
    var head, tail := a + "/", b + rest;
    assert s == head + tail && |head| == |a| + 1;
    assert s == a + ("/" + tail);
    DigitRunOfDigits(a, "/" + tail);
    assert s[|a|] == '/' && s[|a| + 1] == b[0];
    assert s[|a| + 1..] == tail;
    DigitRunOfDigits(b, rest);
    assert s[..|a|] == a;
    assert s[|a| + 1..|a| + 1 + |b|] == b;
    assert s[|a| + 1 + |b|..] == rest;
  }

  /** The text a digit fraction is rewritten to holds no operator glyph. */
  lemma RationalCallHasNoGlyph(a: string, b: string)
    requires AllDigits(a) && AllDigits(b)
    ensures forall c :: c in "Rational(" + a + ", " + b + ")" ==> c != '×' && c != '·' && c != '÷'
  {
    var head, sep, close := "Rational(", ", ", ")";
    assert forall c :: c in head ==> c != '×' && c != '·' && c != '÷';
    assert forall c :: c in sep ==> c != '×' && c != '·' && c != '÷';
    assert forall c :: c in a ==> IsDigit(c);
    assert forall c :: c in b ==> IsDigit(c);
  }

  /** Normalizing a text with no slash and no operator glyph only strips
      it. */
  lemma NormalizePlainText(expr: string)
    requires '/' !in expr && '×' !in expr && '·' !in expr && '÷' !in expr
    ensures NormalizeExpression(expr) == Trim(expr)
  {
    if expr != [] {
      TrimKeepsChars(expr);
      RewriteWithoutSlash(Trim(expr));
    }
  }

  /** A text that is one digit fraction once stripped normalizes to the
      `Rational` call of its two numbers. */
  lemma NormalizeDigitFraction(expr: string, a: string, b: string)
    requires a != [] && b != [] && AllDigits(a) && AllDigits(b)
    requires Trim(expr) == a + "/" + b
    ensures NormalizeExpression(expr) == "Rational(" + a + ", " + b + ")"
  {
    assert expr != [];
    RewriteLeadingFraction(a, b, []);
    assert a + "/" + b + [] == a + "/" + b;
    RationalCallHasNoGlyph(a, b);
  }

  // ---------------------------------------------------------------------
  // `_evaluate_fraction_expression`

  predicate IsSignChar(c: char) {
    c == '+' || c == '-'
  }

  function FirstSign(s: string): (r: Option<nat>)
    ensures r.Some? ==> r.value < |s| && IsSignChar(s[r.value])
    ensures r.Some? ==> forall i :: 0 <= i < r.value ==> !IsSignChar(s[i])
    ensures r.None? ==> forall i :: 0 <= i < |s| ==> !IsSignChar(s[i])
    decreases |s|
  {
    if s == [] then None
    else if IsSignChar(s[0]) then Some(0)
    else match FirstSign(s[1..])
      case None => None
      case Some(k) => Some(k + 1)
  }

  /** `re.split(r'([+\-])', s)`: the text between signs, with each sign
      kept as a piece of its own. */
  function SplitSigns(s: string): (r: seq<string>)
    ensures |r| >= 1
    decreases |s|
  {
    match FirstSign(s)
    case None => [s]
    case Some(k) => [s[..k], [s[k]]] + SplitSigns(s[k + 1..])
  }

  /** One term: `int(num) / int(den)` when it holds a slash (exactly one
      slash is allowed), else `float(term)`. `None` stands for the
      ValueError or ZeroDivisionError the source turns into `None`. */
  function TermValue(part: string): Option<real> {
    if '/' in part then
      var pieces := Split(part, "/");
      if |pieces| != 2 then None
      else match (ParseInt(pieces[0]), ParseInt(pieces[1]))
        case (Some(n), Some(d)) => if d == 0 then None else Some(n as real / d as real)
        case _ => None
    else ParseFloat(part)
  }

  /** `current_sign`, which only ever holds 1 or -1. */
  datatype Sign = Plus | Minus

  /** `current_sign * v` */
  function Signed(sign: Sign, v: real): (r: real)
    ensures sign == Plus ==> r == v
    ensures sign == Minus ==> r + v == 0.0
  {
    if sign == Minus then -v else v
  }

  /** The effect of one stripped piece on the running `(result, sign)`:
      a sign piece sets the sign (it does not flip it), an empty piece
      changes nothing, any other piece adds the signed value, and a piece
      without a value aborts the evaluation. */
  function Absorb(p: string, result: real, sign: Sign): Option<(real, Sign)> {
    if p == "+" then Some((result, Plus))
    else if p == "-" then Some((result, Minus))
    else if p == [] then Some((result, sign))
    else match TermValue(p)
      case None => None
      case Some(v) => Some((result + Signed(sign, v), sign))
  }

  lemma AbsorbTerm(p: string, result: real, sign: Sign)
    requires p != "+" && p != "-" && p != []
    ensures TermValue(p).None? ==> Absorb(p, result, sign).None?
    ensures TermValue(p).Some? ==> Absorb(p, result, sign) == Some((result + Signed(sign, TermValue(p).value), sign))
  {
  }

  /** Folds the pieces left to right; the first failing piece makes the
      whole result `None`. */
  function SumTerms(parts: seq<string>, result: real, sign: Sign): Option<real>
    decreases |parts|
  {
    if parts == [] then Some(result)
    else match Absorb(Trim(parts[0]), result, sign)
      case None => None
      case Some(st) => SumTerms(parts[1..], st.0, st.1)
  }

  lemma SumTermsAt(parts: seq<string>, i: nat, result: real, sign: Sign)
    requires i < |parts|
    ensures Absorb(Trim(parts[i]), result, sign).None? ==> SumTerms(parts[i..], result, sign).None?
    ensures Absorb(Trim(parts[i]), result, sign).Some? ==>
              var st := Absorb(Trim(parts[i]), result, sign).value;
              SumTerms(parts[i..], result, sign) == SumTerms(parts[i + 1..], st.0, st.1)
  {
    assert parts[i..][1..] == parts[i + 1..];
  }

  /** One piece of the loop: a sign sets the sign, a blank piece changes
      nothing, a term is added with the current sign or fails the sum. */
  lemma SumStep(parts: seq<string>, i: nat, part: string, result: real, sign: Sign)
    requires i < |parts| && part == Trim(parts[i])
    ensures part == "+" ==> SumTerms(parts[i..], result, sign) == SumTerms(parts[i + 1..], result, Plus)
    ensures part == "-" ==> SumTerms(parts[i..], result, sign) == SumTerms(parts[i + 1..], result, Minus)
    ensures part == [] ==> SumTerms(parts[i..], result, sign) == SumTerms(parts[i + 1..], result, sign)
    ensures part != "+" && part != "-" && part != [] ==>
              SumTerms(parts[i..], result, sign) ==
                if TermValue(part).None? then None
                else SumTerms(parts[i + 1..], result + Signed(sign, TermValue(part).value), sign)
  {
    SumTermsAt(parts, i, result, sign);
    if part == "+" {
      assert Absorb(part, result, sign) == Some((result, Plus));
    } else if part == "-" {
      assert Absorb(part, result, sign) == Some((result, Minus));
    } else if part == [] {
      assert Absorb(part, result, sign) == Some((result, sign));
    } else {
      SumStepTerm(parts, i, part, result, sign);
    }
  }

  /** The term case of `SumStep`. */
  lemma SumStepTerm(parts: seq<string>, i: nat, part: string, result: real, sign: Sign)
    requires i < |parts| && part == Trim(parts[i])
    requires part != "+" && part != "-" && part != []
    ensures TermValue(part).None? ==> SumTerms(parts[i..], result, sign).None?
    ensures TermValue(part).Some? ==>
              SumTerms(parts[i..], result, sign) == SumTerms(parts[i + 1..], result + Signed(sign, TermValue(part).value), sign)
  {
    var q := parts[i..];
    assert q[0] == parts[i] && q[1..] == parts[i + 1..];
    assert Trim(q[0]) == part;
    AbsorbTerm(part, result, sign);
    SumHead(q, result, sign);
    if TermValue(part).Some? {
      var st := (result + Signed(sign, TermValue(part).value), sign);
      assert Absorb(Trim(q[0]), result, sign) == Some(st);
      assert SumTerms(q, result, sign) == SumTerms(q[1..], st.0, st.1);
    }
  }

  /** The fold takes its first piece. */
  lemma SumHead(q: seq<string>, result: real, sign: Sign)
    requires q != []
    ensures Absorb(Trim(q[0]), result, sign).None? ==> SumTerms(q, result, sign).None?
    ensures Absorb(Trim(q[0]), result, sign).Some? ==>
              SumTerms(q, result, sign) ==
                SumTerms(q[1..], Absorb(Trim(q[0]), result, sign).value.0, Absorb(Trim(q[0]), result, sign).value.1)
  {
  }

  /** A stripped piece the loop accepts: a sign, nothing, or a term with a
      value. */
  predicate Accepted(p: string) {
    p == "+" || p == "-" || p == [] || TermValue(p).Some?
  }

  /** `_evaluate_fraction_expression` as a function of the text. */
  function FractionValue(expr: string): (r: Option<real>)
    ensures r.Some? && ('+' in expr || '-' in expr) ==>
              forall k :: 0 <= k < |SplitSigns(expr)| ==> Accepted(Trim(SplitSigns(expr)[k]))
  {
    if '+' in expr || '-' in expr then
      SumAcceptsEveryPiece(SplitSigns(expr), 0.0, Plus);
      SumTerms(SplitSigns(expr), 0.0, Plus)
    else TermValue(expr)
  }

  /** A sum that has a value accepted every piece. */
  lemma SumAcceptsEveryPiece(parts: seq<string>, result: real, sign: Sign)
    ensures SumTerms(parts, result, sign).Some? ==> forall k :: 0 <= k < |parts| ==> Accepted(Trim(parts[k]))
  {
    forall k | 0 <= k < |parts| && !Accepted(Trim(parts[k]))
      ensures SumTerms(parts, result, sign).None?
    {
      FailingTermFailsSum(parts, result, sign, k);
    }
  }

  /** `_evaluate_fraction_expression`: a text without a sign is a single
      term; otherwise its pieces are summed. */
  method EvaluateFractionExpression(expr: string) returns (r: Option<real>)
    ensures r == FractionValue(expr)
  {
    if !('+' in expr || '-' in expr) {
      return TermValue(expr);
    }
    r := SumSignPieces(SplitSigns(expr));
  }

  /** The sign-splitting loop of `_evaluate_fraction_expression`. */
  method SumSignPieces(parts: seq<string>) returns (r: Option<real>)
    ensures r == SumTerms(parts, 0.0, Plus)
  {
    var result := 0.0;
    var currentSign := Plus;
    var i := 0;
    assert parts[0..] == parts;
    while i < |parts|
      invariant 0 <= i <= |parts|
      invariant SumTerms(parts[i..], result, currentSign) == SumTerms(parts, 0.0, Plus)
    {
      var part := Trim(parts[i]);
      SumStep(parts, i, part, result, currentSign);
      if part == "+" {
        currentSign := Plus;
      } else if part == "-" {
        currentSign := Minus;
      } else if part != [] {
        var v := TermValue(part);
        if v.None? {
          return None;
        }
        var next := result + Signed(currentSign, v.value);
        assert SumTerms(parts[i..], result, currentSign) == SumTerms(parts[i + 1..], next, currentSign);
        result := next;
      }
      i := i + 1;
    }
    return Some(result);
  }

  function SignOf(p: string): Sign {
    if p == "+" then Plus else Minus
  }

  /** A repeated sign counts once: `re.split` leaves a blank piece between
      two signs, and of the two signs the later one decides. */
  lemma SignPieceSets(rest: seq<string>, result: real, sign: Sign, s1: string, gap: string, s2: string)
    requires s1 == "+" || s1 == "-"
    requires s2 == "+" || s2 == "-"
    requires Trim(gap) == []
    ensures SumTerms([s1, gap, s2] + rest, result, sign) == SumTerms([s2] + rest, result, sign)
  {
    TrimOfTrimmed(s1);
    TrimOfTrimmed(s2);
    var all := [s1, gap, s2] + rest;
    assert all[0] == s1 && all[1..] == [gap, s2] + rest;
    assert SumTerms(all, result, sign) == SumTerms([gap, s2] + rest, result, SignOf(s1));
    assert ([gap, s2] + rest)[0] == gap && ([gap, s2] + rest)[1..] == [s2] + rest;
    assert SumTerms([gap, s2] + rest, result, SignOf(s1)) == SumTerms([s2] + rest, result, SignOf(s1));
    assert ([s2] + rest)[0] == s2 && ([s2] + rest)[1..] == rest;
    assert SumTerms([s2] + rest, result, SignOf(s1)) == SumTerms(rest, result, SignOf(s2));
  }

  /** `3 - -2` is split into `3 `, `-`, ` `, `-`, `2`. */
  lemma SplitDoubleMinus()
    ensures SplitSigns("3 - -2") == ["3 ", "-", " ", "-", "2"]
  {
    var s := "3 - -2";
    var t := " -2";
    assert s[0] == '3' && s[1] == ' ' && s[2] == '-';
    assert s[1..][1..] == "- -2";
    assert FirstSign("- -2") == Some(0);
    assert FirstSign(s[1..][1..]) == Some(0);
    assert FirstSign(s[1..]) == Some(1);
    assert FirstSign(s) == Some(2);
    assert s[..2] == "3 " && [s[2]] == "-" && s[3..] == t;
    assert t[0] == ' ' && t[1] == '-' && t[1..] == "-2";
    assert FirstSign(t[1..]) == Some(0);
    assert FirstSign(t) == Some(1);
    assert t[..1] == " " && [t[1]] == "-" && t[2..] == "2";
    assert FirstSign("2") == None;
    assert SplitSigns(t) == [" ", "-"] + ["2"];
  }

  lemma TermOfDigit(c: char, n: nat)
    requires n < 10 && c == DigitChar(n)
    ensures TermValue([c]) == Some(n as real)
  {
    ParseFloatOfNat(n);
    assert NatToString(n) == [c];
    assert '/' !in [c];
  }

  lemma TrimmedPieces()
    ensures Trim("3 ") == "3" && Trim(" ") == [] && Trim("2") == "2"
  {
    TrimEndDropsSpace("3", ' ');
    TrimOfTrimmed("3");
    TrimEmptyIff(" ");
    TrimOfTrimmed("2");
  }

  /** The leading `3` is added with the initial plus sign. */
  lemma FirstPieceThree(rest: seq<string>)
    ensures SumTerms(["3 "] + rest, 0.0, Plus) == SumTerms(rest, 3.0, Plus)
  {
    TrimmedPieces();
    TermOfDigit('3', 3);
    assert (["3 "] + rest)[1..] == rest;
  }

  /** A minus sign followed by the term `2` subtracts 2. */
  lemma MinusTwo(result: real, sign: Sign)
    ensures SumTerms(["-", "2"], result, sign) == Some(result - 2.0)
  {
    TrimmedPieces();
    TrimOfTrimmed("-");
    TermOfDigit('2', 2);
    assert ["-", "2"][1..] == ["2"];
    assert ["2"][1..] == [];
  }

  lemma DoubleMinusHasSign()
    ensures '-' in "3 - -2"
  {
    assert "3 - -2"[2] == '-';
  }

  /** The second minus of `3 - -2` sets the sign rather than flipping it,
      so the expression is worth 1, not 5. */
  lemma DoubleMinusSubtracts()
    ensures FractionValue("3 - -2") == Some(1.0)
  {
    DoubleMinusHasSign();
    SplitDoubleMinus();
    DoubleMinusPieces("3 - -2");
  }

  /** The pieces of `3 - -2` add up to 1. */
  lemma DoubleMinusPieces(e: string)
    requires '-' in e
    requires SplitSigns(e) == ["3 ", "-", " ", "-", "2"]
    ensures FractionValue(e) == Some(1.0)
  {
    var rest := ["-", " ", "-"] + ["2"];
    assert SplitSigns(e) == ["3 "] + rest;
    FirstPieceThree(rest);
    TrimmedPieces();
    SignPieceSets(["2"], 3.0, Plus, "-", " ", "-");
    assert ["-"] + ["2"] == ["-", "2"];
    MinusTwo(3.0, Plus);
  }

  /** A term that fails to evaluate makes the whole sum fail, wherever it
      stands. */
  lemma {:induction false} FailingTermFailsSum(parts: seq<string>, result: real, sign: Sign, k: nat)
    requires k < |parts|
    requires Trim(parts[k]) != "+" && Trim(parts[k]) != "-" && Trim(parts[k]) != []
    requires TermValue(Trim(parts[k])).None?
    ensures SumTerms(parts, result, sign).None?
    decreases k
  {
    if k == 0 {
      AbsorbTerm(Trim(parts[0]), result, sign);
    } else {
      var rest := parts[1..];
      assert rest[k - 1] == parts[k];
      match Absorb(Trim(parts[0]), result, sign)
      case None =>
      case Some(st) => FailingTermFailsSum(rest, st.0, st.1, k - 1);
    }
  }

  /** A slash term with a zero denominator has no value. */
  lemma ZeroDenominatorHasNoValue(num: string, den: string)
    requires '/' !in num && '/' !in den
    requires ParseInt(den) == Some(0)
    ensures TermValue(num + "/" + den).None?
  {
    var part := num + "/" + den;
    assert part[|num|] == '/';
    SplitOnceAt(num, den, '/');
  }

  /** A slash term whose numerator is not an integer has no value. */
  lemma NonIntegerNumeratorHasNoValue(num: string, den: string)
    requires '/' !in num && '/' !in den
    requires ParseInt(num).None?
    ensures TermValue(num + "/" + den).None?
  {
    var part := num + "/" + den;
    assert part[|num|] == '/';
    SplitOnceAt(num, den, '/');
  }

  lemma SplitOnceAt(a: string, b: string, c: char)
    requires c !in a && c !in b
    ensures Split(a + [c] + b, [c]) == [a, b]
  {
    var s := a + [c] + b;
    assert s[|a|..|a| + 1] == [c];
    FindIsFirst(s, [c], |a|);
    var i := Find(s, [c]).value;
    assert s[i..i + 1] == [c];
    assert s[i] == c;
    assert forall k :: 0 <= k < |a| ==> s[k] == a[k] && a[k] != c;
    assert s[..i] == a;
    assert s[i + 1..] == b;
    ContainsChar(b, c);
    assert Find(b, [c]).None?;
    assert Split(b, [c]) == [b];
    assert Split(s, [c]) == [s[..i]] + Split(s[i + 1..], [c]);
  }

  // ---------------------------------------------------------------------
  // `_verify_fraction_step`

  const Tolerance: real := 0.0000000001

  /** `_verify_fraction_step`: both sides evaluate and differ by less than
      1e-10; any side that fails to evaluate makes the step false. */
  predicate FractionStepHolds(fromExpr: string, toExpr: string) {
    match (FractionValue(fromExpr), FractionValue(toExpr))
    case (Some(a), Some(b)) => -Tolerance < a - b < Tolerance
    case _ => false
  }

  method VerifyFractionStep(fromExpr: string, toExpr: string) returns (r: bool)
    ensures r == FractionStepHolds(fromExpr, toExpr)
  {
    var a := EvaluateFractionExpression(fromExpr);
    var b := EvaluateFractionExpression(toExpr);
    if a.Some? && b.Some? {
      return -Tolerance < a.value - b.value < Tolerance;
    }
    return false;
  }

  /** An unparseable side makes the fallback say "incorrect", never
      "unknown"; equal values make it say "correct". */
  lemma FallbackFailsClosed(fromExpr: string, toExpr: string)
    ensures FractionValue(fromExpr).None? || FractionValue(toExpr).None? ==> !FractionStepHolds(fromExpr, toExpr)
    ensures FractionValue(fromExpr).Some? && FractionValue(fromExpr) == FractionValue(toExpr) ==> FractionStepHolds(fromExpr, toExpr)
  {
  }

  // ---------------------------------------------------------------------
  // `_verify_step_with_sympy`, with sympy as an oracle

  /** What `sp.sympify` does with a text: a value, one of the exceptions the
      source catches (SympifyError, ValueError, TypeError), or any other
      exception, which escapes to the caller. */
  datatype SympyOutcome = Parsed(value: real) | ParseFailure | Crash

  /** The verdict of `_verify_step_with_sympy`; `None` means an exception
      escaped it. Sympy parses `from` first, then `to`. */
  function SympyVerdict(sympify: string -> SympyOutcome, fromExpr: string, toExpr: string): Option<bool> {
    match sympify(fromExpr)
    case Crash => None
    case ParseFailure => Some(FractionStepHolds(fromExpr, toExpr))
    case Parsed(a) =>
      match sympify(toExpr)
      case Crash => None
      case ParseFailure => Some(FractionStepHolds(fromExpr, toExpr))
      case Parsed(b) => Some(a - b == 0.0)
  }

  method VerifyStepWithSympy(sympify: string -> SympyOutcome, fromExpr: string, toExpr: string) returns (r: Option<bool>)
    ensures r == SympyVerdict(sympify, fromExpr, toExpr)
  {
    var a := sympify(fromExpr);
    if a.Crash? {
      return None;
    }
    if a.Parsed? {
      var b := sympify(toExpr);
      if b.Crash? {
        return None;
      }
      if b.Parsed? {
        return Some(a.value - b.value == 0.0);
      }
    }
    var fallback := VerifyFractionStep(fromExpr, toExpr);
    return Some(fallback);
  }

  // ---------------------------------------------------------------------
  // `_apply_rule_verification`

  /** The step after rule verification: the rule verdict of its normalized
      sides and the merged verdict, or, when verification raised, no rule
      verdict and the LLM verdict (false when absent). */
  function RuleChecked(s: SolutionStep, sympify: string -> SympyOutcome): SolutionStep {
    WithRuleVerdict(s, SympyVerdict(sympify, NormalizeExpression(s.fromExpr), NormalizeExpression(s.toExpr)))
  }

  /** A step with rule verdict `v` recorded and its correctness merged; for
      `v == None` the merge gives the LLM verdict, false when absent, which
      is what the exception handler sets. */
  function WithRuleVerdict(s: SolutionStep, v: Option<bool>): SolutionStep {
    s.(ruleDetermine := v, isCorrect := DetermineFinalCorrectness(s.llmDetermine, v))
  }

  /** Both paths of `_apply_rule_verification`, including the exception
      handler, leave the step reconciled, keep its sides and its LLM
      verdict, and a rule verdict is present unless verification raised. */
  lemma RuleCheckedIsReconciled(s: SolutionStep, sympify: string -> SympyOutcome)
    ensures Reconciled(RuleChecked(s, sympify))
    ensures RuleChecked(s, sympify).fromExpr == s.fromExpr && RuleChecked(s, sympify).toExpr == s.toExpr
    ensures RuleChecked(s, sympify).llmDetermine == s.llmDetermine
    ensures RuleChecked(s, sympify).ruleDetermine.None? <==>
            SympyVerdict(sympify, NormalizeExpression(s.fromExpr), NormalizeExpression(s.toExpr)).None?
  {
  }

  /** The body of the loop in `_apply_rule_verification`, for one step. */
  method CheckStep(step: SolutionStep, sympify: string -> SympyOutcome) returns (r: SolutionStep)
    ensures r == RuleChecked(step, sympify)
  {
    var fromExpr := NormalizeExpression(step.fromExpr);
    var toExpr := NormalizeExpression(step.toExpr);
    var verdict := VerifyStepWithSympy(sympify, fromExpr, toExpr);
    r := step;
    if verdict.Some? {
      r := r.(ruleDetermine := verdict);
      r := r.(isCorrect := DetermineFinalCorrectness(r.llmDetermine, r.ruleDetermine));
    } else {
      r := r.(ruleDetermine := None);
      r := r.(isCorrect := if r.llmDetermine.Some? then r.llmDetermine.value else false);
    }
  }

  /** `_apply_rule_verification`: every step of the problem is updated in
      place, in order, by the check `CheckStep` performs. */
  method ApplyRuleVerification(steps: array<SolutionStep>, sympify: string -> SympyOutcome)
    modifies steps
    ensures forall i :: 0 <= i < steps.Length ==> steps[i] == RuleChecked(old(steps[i]), sympify)
  {
    Collections.UpdateEach(steps, s => RuleChecked(s, sympify));
  }

  // ---------------------------------------------------------------------
  // `_gcd`

  /** Python's `a // b` (rounds toward negative infinity). */
  function PyFloorDiv(a: int, b: int): int
    requires b != 0
  {
    if b > 0 then a / b else (-a) / (-b)
  }

  /** Python's `a % b` (takes the sign of `b`). */
  function PyMod(a: int, b: int): int
    requires b != 0
  {
    a - b * PyFloorDiv(a, b)
  }

  lemma PyModBounds(a: int, b: int)
    requires b != 0
    ensures b > 0 ==> 0 <= PyMod(a, b) < b
    ensures b < 0 ==> b < PyMod(a, b) <= 0
  {
    if b < 0 {
      var q := (-a) / (-b);
      assert -a == (-b) * q + (-a) % (-b);
    }
  }

  ghost predicate Divides(d: int, x: int) {
    exists k :: x == d * k
  }

  /** A common divisor of `u` and `v` divides `u - v * q` and `u + v * q`. */
  lemma DividesCombination(d: int, u: int, v: int, q: int)
    requires Divides(d, u) && Divides(d, v)
    ensures Divides(d, u - v * q) && Divides(d, u + v * q)
  {
    var m :| u == d * m;
    var n :| v == d * n;
    assert v * q == d * (n * q);
    assert u - v * q == d * (m - n * q);
    assert u + v * q == d * (m + n * q);
  }

  /** One Euclid step keeps the common divisors. */
  lemma CommonDivisorsStep(x: int, y: int, d: int)
    requires y != 0
    ensures Divides(d, x) && Divides(d, y) <==> Divides(d, y) && Divides(d, PyMod(x, y))
  {
    var q := PyFloorDiv(x, y);
    assert PyMod(x, y) == x - y * q;
    if Divides(d, x) && Divides(d, y) {
      DividesCombination(d, x, y, q);
    }
    if Divides(d, y) && Divides(d, PyMod(x, y)) {
      DividesCombination(d, PyMod(x, y), y, q);
      assert x == PyMod(x, y) + y * q;
    }
  }

  /** `_gcd`: Euclid's loop with Python's `%`. The result divides both
      arguments and every common divisor divides it. */
  method Gcd(a: int, b: int) returns (g: int)
    ensures Divides(g, a) && Divides(g, b)
    ensures forall d :: Divides(d, a) && Divides(d, b) ==> Divides(d, g)
  {
    var x, y := a, b;
    while y != 0
      invariant forall d :: Divides(d, x) && Divides(d, y) <==> Divides(d, a) && Divides(d, b)
      decreases if y < 0 then -y else y
    {
      PyModBounds(x, y);
      forall d
        ensures Divides(d, x) && Divides(d, y) <==> Divides(d, y) && Divides(d, PyMod(x, y))
      {
        CommonDivisorsStep(x, y, d);
      }
      x, y := y, PyMod(x, y);
    }
    assert x == x * 1;
    assert 0 == x * 0;
    assert Divides(x, x) && Divides(x, 0);
    forall d | Divides(d, a) && Divides(d, b)
      ensures Divides(d, x)
    {
    }
    g := x;
  }
}
