/** The test-paper index of `test_id_manager.py`: test ids, and the
    document of test records and question-to-test mappings. The JSON file
    is the state of a `TestStore` object; every operation that loads,
    changes and writes the file is a method that changes the object. The
    clock and the md5 digest are parameters. */
module TestRecords {
  import opened Wrappers
  import opened Strings
  import opened Collections
  import Sorting
  import AnswerSheet

  // ---------------------------------------------------------------------
  // `generate_test_id`

  predicate IsLowerHex(c: char) {
    IsDigit(c) || 'a' <= c <= 'f'
  }

  predicate IsUpperHex(c: char) {
    IsDigit(c) || 'A' <= c <= 'F'
  }

  /** The shape of `hashlib.md5(...).hexdigest()`. */
  predicate IsMd5Hex(digest: string) {
    |digest| == 32 && forall i :: 0 <= i < 32 ==> IsLowerHex(digest[i])
  }

  /** The prefix table, with `TS` for any other type. */
  function TestIdPrefix(testType: string): (r: string)
    ensures |r| == 2 && IsAsciiLetter(r[0]) && IsAsciiLetter(r[1])
  {
    if testType == "practice" then "PR"
    else if testType == "exam" then "EX"
    else if testType == "homework" then "HW"
    else "TS"
  }

  /** `generate_test_id`: the type prefix and the first twelve digest
      characters upper-cased. `digest` is the md5 of the type, the sorted
      ids and the time. */
  function GenerateTestId(testType: string, digest: string): (r: string)
    requires IsMd5Hex(digest)
    ensures |r| == 14 && r[..2] == TestIdPrefix(testType)
  {
    TestIdPrefix(testType) + Upper(digest[..12])
  }

  /** A generated id is fourteen characters: the prefix of its type, then
      twelve upper-case hexadecimal digits. */
  lemma GeneratedIdShape(testType: string, digest: string)
    requires IsMd5Hex(digest)
    ensures var id := GenerateTestId(testType, digest);
            |id| == 14 && id[..2] == TestIdPrefix(testType) &&
            (forall i :: 2 <= i < 14 ==> IsUpperHex(id[i])) &&
            id[2..] == Upper(digest[..12])
  {
    var id := GenerateTestId(testType, digest);
    forall i | 2 <= i < 14
      ensures IsUpperHex(id[i])
    {
      assert id[i] == UpperChar(digest[i - 2]);
    }
  }

  /** The prefix names the type: the three known types get their own
      prefix, and every other type gets `TS`. */
  lemma PrefixIdentifiesType(t1: string, t2: string)
    requires TestIdPrefix(t1) == TestIdPrefix(t2) && TestIdPrefix(t1) != "TS"
    ensures t1 == t2
  {
  }

  /** The answer-sheet reader recognizes a generated id wherever it
      appears, and reads it back unchanged. */
  lemma GeneratedIdIsRecognized(testType: string, digest: string, t: string, p: nat)
    requires IsMd5Hex(digest)
    requires p + 14 <= |t| && t[p..p + 14] == GenerateTestId(testType, digest)
    ensures AnswerSheet.TestIdAt(t, p) == Some(GenerateTestId(testType, digest))
  {
    var id := GenerateTestId(testType, digest);
    GeneratedIdShape(testType, digest);
    assert forall k :: 0 <= k < 14 ==> t[p + k] == id[k];
    assert forall k :: p + 2 <= k < p + 14 ==> AnswerSheet.IsHexCi(t[k]) by {
      forall k | p + 2 <= k < p + 14
        ensures AnswerSheet.IsHexCi(t[k])
      {
        assert t[k] == id[k - p];
      }
    }
    assert Upper(id) == id by {
      assert forall i :: 0 <= i < 2 ==> UpperChar(id[i]) == id[i];
      assert forall i :: 2 <= i < 14 ==> UpperChar(id[i]) == id[i];
    }
  }

  // ---------------------------------------------------------------------
  // The document

  /** The fields of `test_info` the index reads. */
  datatype TestInfo = TestInfo(testType: Option<string>)

  /** One entry of `test_records`. */
  datatype TestRecord = TestRecord(testId: string, questionIds: seq<string>, testInfo: TestInfo,
                                   createdAt: string, totalQuestions: nat)

  /** The mapping lists after `test_id` is appended for each question id,
      in order. */
  function AddToMappings(m: map<string, seq<string>>, questionIds: seq<string>, testId: string): map<string, seq<string>>
    decreases |questionIds|
  {
    if questionIds == [] then m
    else
      var before := AddToMappings(m, questionIds[..|questionIds| - 1], testId);
      var q := questionIds[|questionIds| - 1];
      before[q := (if q in before then before[q] else []) + [testId]]
  }

  /** `n` copies of `x`. */
  function Repeat(x: string, n: nat): (r: seq<string>)
    ensures |r| == n && forall i :: 0 <= i < n ==> r[i] == x
  {
    if n == 0 then [] else Repeat(x, n - 1) + [x]
  }

  /** Saving appends the test id once per occurrence of a question id to
      that question's list, creating the list when absent; no other list
      changes. */
  lemma {:induction false} AddToMappingsSpec(m: map<string, seq<string>>, questionIds: seq<string>, testId: string)
    ensures var r := AddToMappings(m, questionIds, testId);
            (forall q :: q in r <==> q in m || q in questionIds) &&
            (forall q :: q in r ==> r[q] == (if q in m then m[q] else []) + Repeat(testId, Count(questionIds, q)))
    decreases |questionIds|
  {
    if questionIds != [] {
      var init := questionIds[..|questionIds| - 1];
      AddToMappingsSpec(m, init, testId);
      var last := questionIds[|questionIds| - 1];
      assert questionIds == init + [last];
      forall q
        ensures q in questionIds <==> q in init || q == last
      {
      }
    } else {
      forall q | q in m
        ensures m[q] == m[q] + Repeat(testId, Count(questionIds, q))
      {
      }
    }
  }

  /** The first record with the id. */
  function FirstRecord(records: seq<TestRecord>, testId: string): Option<TestRecord>
    decreases |records|
  {
    if records == [] then None
    else if records[0].testId == testId then Some(records[0])
    else FirstRecord(records[1..], testId)
  }

  /** The first record with the id is the record at the lowest index
      holding it; there is none only when no record holds it. */
  lemma {:induction false} FirstRecordSpec(records: seq<TestRecord>, testId: string)
    ensures var r := FirstRecord(records, testId);
            (r.None? <==> forall i :: 0 <= i < |records| ==> records[i].testId != testId) &&
            (r.Some? ==> exists i :: 0 <= i < |records| && records[i] == r.value && r.value.testId == testId &&
                                   forall j :: 0 <= j < i ==> records[j].testId != testId)
    decreases |records|
  {
    if records != [] && records[0].testId != testId {
      FirstRecordSpec(records[1..], testId);
      var r := FirstRecord(records, testId);
      if r.Some? {
        var i :| 0 <= i < |records[1..]| && records[1..][i] == r.value && r.value.testId == testId &&
                 forall j :: 0 <= j < i ==> records[1..][j].testId != testId;
        assert records[i + 1] == r.value;
        forall j | 0 <= j < i + 1
          ensures records[j].testId != testId
        {
          if j > 0 {
            assert records[j] == records[1..][j - 1];
          }
        }
      } else {
        forall i | 0 <= i < |records|
          ensures records[i].testId != testId
        {
          if i > 0 {
            assert records[i] == records[1..][i - 1];
          }
        }
      }
    }
  }

  /** The records without the id, in order. */
  function WithoutTest(records: seq<TestRecord>, testId: string): (r: seq<TestRecord>)
    ensures |r| <= |records|
    decreases |records|
  {
    if records == [] then []
    else WithoutTest(records[..|records| - 1], testId) +
         (if records[|records| - 1].testId != testId then [records[|records| - 1]] else [])
  }

  /** Filtering keeps exactly the records with another id, and shortens
      the list exactly when some record holds the id. */
  lemma {:induction false} WithoutTestSpec(records: seq<TestRecord>, testId: string)
    ensures forall r :: r in WithoutTest(records, testId) <==> r in records && r.testId != testId
    ensures |WithoutTest(records, testId)| == |records| <==> forall i :: 0 <= i < |records| ==> records[i].testId != testId
    decreases |records|
  {
    if records != [] {
      var init := records[..|records| - 1];
      WithoutTestSpec(init, testId);
      assert records == init + [records[|records| - 1]];
      if |WithoutTest(records, testId)| == |records| {
        forall i | 0 <= i < |records|
          ensures records[i].testId != testId
        {
          if i < |init| {
            assert records[i] == init[i];
          }
        }
      }
    }
  }

  /** A saved record is found by its id; it is the one returned unless an
      earlier record has the same id. */
  lemma {:induction false} SavedTestIsFound(records: seq<TestRecord>, rec: TestRecord)
    ensures FirstRecord(records + [rec], rec.testId).Some?
    ensures FirstRecord(records, rec.testId).None? ==> FirstRecord(records + [rec], rec.testId) == Some(rec)
    decreases |records|
  {
    if records != [] {
      assert (records + [rec])[1..] == records[1..] + [rec];
      SavedTestIsFound(records[1..], rec);
    }
  }

  /** After a deletion no record carries the id. */
  lemma DeletedTestIsGone(records: seq<TestRecord>, testId: string)
    ensures FirstRecord(WithoutTest(records, testId), testId).None?
  {
    var kept := WithoutTest(records, testId);
    WithoutTestSpec(records, testId);
    FirstRecordSpec(kept, testId);
    forall i | 0 <= i < |kept|
      ensures kept[i].testId != testId
    {
      assert kept[i] in kept;
    }
  }

  /** `test_ids.remove(test_id)`: the first occurrence goes. */
  function RemoveFirst(xs: seq<string>, x: string): (r: seq<string>)
    ensures x in xs ==> |r| == |xs| - 1
    ensures x !in xs ==> r == xs
    decreases |xs|
  {
    if xs == [] then []
    else if xs[0] == x then xs[1..]
    else [xs[0]] + RemoveFirst(xs[1..], x)
  }

  /** Removal takes away one occurrence of `x` and nothing else. */
  lemma {:induction false} RemoveFirstCounts(xs: seq<string>, x: string)
    ensures multiset(RemoveFirst(xs, x)) == multiset(xs) - multiset{x}
    decreases |xs|
  {
    if xs != [] {
      assert xs == [xs[0]] + xs[1..];
      if xs[0] != x {
        RemoveFirstCounts(xs[1..], x);
      }
    }
  }

  /** The mapping lists after the first occurrence of the id is removed
      from each. */
  function RemovedFromMappings(m: map<string, seq<string>>, testId: string): map<string, seq<string>> {
    map q | q in m :: RemoveFirst(m[q], testId)
  }

  /** Some list holds the id and nothing else once it is removed. */
  predicate EmptiesAMapping(m: map<string, seq<string>>, testId: string) {
    exists q :: q in m && testId in m[q] && RemoveFirst(m[q], testId) == []
  }

  /** The corrected update: lists left empty are deleted. */
  function PrunedMappings(m: map<string, seq<string>>, testId: string): map<string, seq<string>> {
    map q | q in m && RemoveFirst(m[q], testId) != [] :: RemoveFirst(m[q], testId)
  }

  /** Type filter of `search_tests`: an absent or empty type admits all. */
  predicate TypeMatches(rec: TestRecord, testType: Option<string>) {
    testType.None? || testType.value == [] || rec.testInfo.testType == testType
  }

  /** `created_at.split("T")[0]` */
  function DatePart(createdAt: string): (r: string)
    ensures |r| <= |createdAt| && r == createdAt[..|r|] && 'T' !in r
    ensures 'T' !in createdAt ==> r == createdAt
  {
    FindCharPrefixAvoids(createdAt, 'T');
    ContainsChar(createdAt, 'T');
    match Find(createdAt, "T")
    case Some(i) => createdAt[..i]
    case None => createdAt
  }

  /** Date filter of `search_tests`: with a bound given, a record with a
      creation time passes when its date part is within the inclusive
      bounds, compared as strings; a record without one passes. */
  predicate DateMatches(rec: TestRecord, dateFrom: Option<string>, dateTo: Option<string>) {
    var hasFrom := dateFrom.Some? && dateFrom.value != [];
    var hasTo := dateTo.Some? && dateTo.value != [];
    !(hasFrom || hasTo) || rec.createdAt == [] ||
    ((!hasFrom || LexLe(dateFrom.value, DatePart(rec.createdAt))) &&
     (!hasTo || LexLe(DatePart(rec.createdAt), dateTo.value)))
  }

  function Search(records: seq<TestRecord>, testType: Option<string>, dateFrom: Option<string>, dateTo: Option<string>): (r: seq<TestRecord>)
    ensures |r| <= |records|
    ensures multiset(r) <= multiset(records)
    decreases |records|
  {
    if records == [] then []
    else
      var rec := records[|records| - 1];
      assert records == records[..|records| - 1] + [rec];
      Search(records[..|records| - 1], testType, dateFrom, dateTo) +
      (if TypeMatches(rec, testType) && DateMatches(rec, dateFrom, dateTo) then [rec] else [])
  }

  lemma SearchStep(records: seq<TestRecord>, i: nat, testType: Option<string>, dateFrom: Option<string>, dateTo: Option<string>)
    requires i < |records|
    ensures Search(records[..i + 1], testType, dateFrom, dateTo) ==
            Search(records[..i], testType, dateFrom, dateTo) +
            (if TypeMatches(records[i], testType) && DateMatches(records[i], dateFrom, dateTo) then [records[i]] else [])
  {
    assert records[..i + 1][..i] == records[..i];
  }

  /** The search result is the records that pass both filters, in their
      stored order. */
  lemma {:induction false} SearchSpec(records: seq<TestRecord>, testType: Option<string>, dateFrom: Option<string>, dateTo: Option<string>)
    ensures forall r :: r in Search(records, testType, dateFrom, dateTo) <==>
              r in records && TypeMatches(r, testType) && DateMatches(r, dateFrom, dateTo)
    ensures |Search(records, testType, dateFrom, dateTo)| <= |records|
    decreases |records|
  {
    if records != [] {
      var init := records[..|records| - 1];
      SearchSpec(init, testType, dateFrom, dateTo);
      assert records == init + [records[|records| - 1]];
    }
  }

  /** `test_info.get("test_type", "unknown")` */
  function TypeName(rec: TestRecord): string {
    rec.testInfo.testType.GetOr("unknown")
  }

  /** `type_distribution` */
  function TypeCounts(records: seq<TestRecord>): map<string, nat>
    decreases |records|
  {
    if records == [] then map[]
    else
      var m := TypeCounts(records[..|records| - 1]);
      var t := TypeName(records[|records| - 1]);
      m[t := (if t in m then m[t] else 0) + 1]
  }

  /** How many records carry the type. */
  function TypeCount(records: seq<TestRecord>, t: string): nat
    decreases |records|
  {
    if records == [] then 0
    else TypeCount(records[..|records| - 1], t) + (if TypeName(records[|records| - 1]) == t then 1 else 0)
  }

  /** The distribution has one entry per type present, holding the number
      of records of that type. */
  lemma {:induction false} TypeCountsSpec(records: seq<TestRecord>)
    ensures forall t :: t in TypeCounts(records) <==> exists i :: 0 <= i < |records| && TypeName(records[i]) == t
    ensures forall t :: t in TypeCounts(records) ==> TypeCounts(records)[t] == TypeCount(records, t) > 0
    decreases |records|
  {
    if records != [] {
      var init := records[..|records| - 1];
      TypeCountsSpec(init);
      var m := TypeCounts(init);
      var last := TypeName(records[|records| - 1]);
      forall t
        ensures t !in m ==> TypeCount(init, t) == 0
      {
        if t !in m && TypeCount(init, t) != 0 {
          TypeCountPositive(init, t);
        }
      }
      forall t
        ensures (t in TypeCounts(records)) <==> exists i :: 0 <= i < |records| && TypeName(records[i]) == t
      {
        if exists i :: 0 <= i < |records| && TypeName(records[i]) == t {
          var i :| 0 <= i < |records| && TypeName(records[i]) == t;
          if i < |init| {
            assert init[i] == records[i];
          }
        }
        if t in m {
          var i :| 0 <= i < |init| && TypeName(init[i]) == t;
          assert records[i] == init[i];
        }
      }
    }
  }

  lemma {:induction false} TypeCountPositive(records: seq<TestRecord>, t: string)
    requires TypeCount(records, t) > 0
    ensures exists i :: 0 <= i < |records| && TypeName(records[i]) == t
    decreases |records|
  {
    var init := records[..|records| - 1];
    if TypeName(records[|records| - 1]) != t {
      TypeCountPositive(init, t);
      var i :| 0 <= i < |init| && TypeName(init[i]) == t;
      assert records[i] == init[i];
    }
  }

  function SumQuestions(records: seq<TestRecord>): nat
    decreases |records|
  {
    if records == [] then 0 else SumQuestions(records[..|records| - 1]) + records[|records| - 1].totalQuestions
  }

  /** `x.get("created_at", "")` orders the records. */
  function CreatedNoLater(a: TestRecord, b: TestRecord): bool {
    LexLe(a.createdAt, b.createdAt)
  }

  lemma CreatedOrder()
    ensures Sorting.TotalPreorder(CreatedNoLater)
  {
    forall a: TestRecord, b: TestRecord
      ensures CreatedNoLater(a, b) || CreatedNoLater(b, a)
    {
      LexLeTotal(a.createdAt, b.createdAt);
    }
    forall a: TestRecord, b: TestRecord, c: TestRecord | CreatedNoLater(a, b) && CreatedNoLater(b, c)
      ensures CreatedNoLater(a, c)
    {
      LexLeTransitive(a.createdAt, b.createdAt, c.createdAt);
    }
  }

  /** `get_statistics` */
  datatype Statistics = Statistics(totalTests: nat, typeDistribution: map<string, nat>,
                                   averageQuestions: real, totalQuestionsMapped: nat,
                                   recentTests: seq<TestRecord>)

  function RecentTests(records: seq<TestRecord>): (r: seq<TestRecord>)
    ensures |r| == if |records| < 5 then |records| else 5
    ensures forall x :: x in r ==> x in records
  {
    var sorted := Sorting.SortDesc(records, CreatedNoLater);
    assert forall x :: x in sorted ==> x in multiset(sorted);
    Take(sorted, 5)
  }

  /** At most five recent tests, newest first, all of them stored, and no
      stored test newer than the first. */
  lemma RecentTestsSpec(records: seq<TestRecord>)
    ensures var r := RecentTests(records);
            |r| == (if |records| < 5 then |records| else 5) &&
            (forall i, j :: 0 <= i < j < |r| ==> LexLe(r[j].createdAt, r[i].createdAt)) &&
            (forall x :: x in r ==> x in records) &&
            (r != [] ==> forall x :: x in records ==> LexLe(x.createdAt, r[0].createdAt))
  {
    CreatedOrder();
    var s := Sorting.SortDesc(records, CreatedNoLater);
    Sorting.SortDescSorted(records, CreatedNoLater);
    var r := RecentTests(records);
    assert r == s[..|r|];
    forall x | x in r
      ensures x in records
    {
      assert x in multiset(s);
    }
    if r != [] {
      forall x | x in records
        ensures LexLe(x.createdAt, r[0].createdAt)
      {
        assert x in multiset(s);
        var k :| 0 <= k < |s| && s[k] == x;
        if k > 0 {
          assert CreatedNoLater(s[k], s[0]);
        } else {
          LexLeTotal(x.createdAt, x.createdAt);
        }
      }
    }
  }

  /** The recent tests are the five newest: no stored test left out is
      newer than the last one listed, and among tests created at the same
      time those listed are the first ones stored. */
  lemma RecentTestsAreNewest(records: seq<TestRecord>, t: TestRecord)
    requires records != []
    ensures var r := RecentTests(records);
            (forall x :: x in records ==> x in r || LexLe(x.createdAt, r[|r| - 1].createdAt)) &&
            Sorting.WithKeyOf(r, t, CreatedNoLater) <= Sorting.WithKeyOf(records, t, CreatedNoLater)
  {
    CreatedOrder();
    var n := if 5 < |records| then 5 else |records|;
    assert RecentTests(records) == Sorting.SortDesc(records, CreatedNoLater)[..n];
    Sorting.PrefixKeepsLargest(records, CreatedNoLater, n);
    Sorting.PrefixStable(records, CreatedNoLater, n, t);
  }

  // ---------------------------------------------------------------------
  // The store

  class TestStore {
    var records: seq<TestRecord>
    var mappings: map<string, seq<string>>
    var totalTests: nat

    /** The metadata count matches the records, and no mapping list is
        empty. */
    predicate Valid()
      reads this
    {
      totalTests == |records| && forall q :: q in mappings ==> mappings[q] != []
    }

    /** `_init_database` */
    constructor ()
      ensures Valid()
      ensures records == [] && mappings == map[] && totalTests == 0
    {
      records := [];
      mappings := map[];
      totalTests := 0;
    }

    /** `save_test_record` */
    method SaveTestRecord(testId: string, questionIds: seq<string>, testInfo: TestInfo, now: string) returns (ok: bool)
      requires Valid()
      modifies this
      ensures Valid() && ok
      ensures records == old(records) + [TestRecord(testId, questionIds, testInfo, now, |questionIds|)]
      ensures mappings == AddToMappings(old(mappings), questionIds, testId)
    {
      records := records + [TestRecord(testId, questionIds, testInfo, now, |questionIds|)];
      var m := mappings;
      var i := 0;
      while i < |questionIds|
        invariant 0 <= i <= |questionIds|
        invariant m == AddToMappings(mappings, questionIds[..i], testId)
        invariant forall q :: q in m ==> m[q] != []
      {
        assert questionIds[..i + 1][..i] == questionIds[..i];
        var q := questionIds[i];
        if q !in m {
          m := m[q := []];
        }
        m := m[q := m[q] + [testId]];
        i := i + 1;
      }
      assert questionIds[..|questionIds|] == questionIds;
      mappings := m;
      totalTests := |records|;
      ok := true;
    }

    /** `get_test_by_id` */
    method GetTestById(testId: string) returns (r: Option<TestRecord>)
      ensures r == FirstRecord(records, testId)
    {
      var i := 0;
      while i < |records|
        invariant 0 <= i <= |records|
        invariant FirstRecord(records[i..], testId) == FirstRecord(records, testId)
      {
        assert records[i..][1..] == records[i + 1..];
        if records[i].testId == testId {
          return Some(records[i]);
        }
        i := i + 1;
      }
      return None;
    }

    /** `get_questions_by_test_id` */
    method GetQuestionsByTestId(testId: string) returns (ids: seq<string>)
      ensures ids == match FirstRecord(records, testId) case Some(rec) => rec.questionIds case None => []
    {
      var rec := GetTestById(testId);
      ids := if rec.Some? then rec.value.questionIds else [];
    }

    /** `get_tests_by_question_id` */
    function TestsOfQuestion(questionId: string): (r: seq<string>)
      reads this
      ensures questionId !in mappings ==> r == []
      ensures Valid() && questionId in mappings ==> r != []
    {
      if questionId in mappings then mappings[questionId] else []
    }

    /** `search_tests` */
    method SearchTests(testType: Option<string>, dateFrom: Option<string>, dateTo: Option<string>) returns (found: seq<TestRecord>)
      ensures found == Search(records, testType, dateFrom, dateTo)
    {
      var rs := records;
      found := [];
      var i := 0;
      while i < |rs|
        invariant 0 <= i <= |rs|
        invariant found == Search(rs[..i], testType, dateFrom, dateTo)
      {
        SearchStep(rs, i, testType, dateFrom, dateTo);
        var rec := rs[i];
        var skip := false;
        if testType.Some? && testType.value != [] && rec.testInfo.testType != testType {
          skip := true;
        } else if (dateFrom.Some? && dateFrom.value != []) || (dateTo.Some? && dateTo.value != []) {
          if rec.createdAt != [] {
            var testDate := DatePart(rec.createdAt);
            LexLessIsNotLe(testDate, dateFrom.GetOr([]));
            LexLessIsNotLe(dateTo.GetOr([]), testDate);
            if dateFrom.Some? && dateFrom.value != [] && LexLess(testDate, dateFrom.value) {
              skip := true;
            } else if dateTo.Some? && dateTo.value != [] && LexLess(dateTo.value, testDate) {
              skip := true;
            }
          }
        }
        assert skip == !(TypeMatches(rec, testType) && DateMatches(rec, dateFrom, dateTo));
        if !skip {
          found := found + [rec];
        }
        i := i + 1;
      }
      assert rs[..|rs|] == rs;
    }

    /** `delete_test` as written: the mapping loop deletes an emptied list
        while iterating over the dictionary, which raises, so the call
        fails and nothing is written. */
    method DeleteTest(testId: string) returns (ok: bool)
      requires Valid()
      modifies this
      ensures Valid()
      ensures ok <==> (exists i :: 0 <= i < |old(records)| && old(records)[i].testId == testId) &&
                      !EmptiesAMapping(old(mappings), testId)
      ensures ok ==> records == WithoutTest(old(records), testId) &&
                     mappings == RemovedFromMappings(old(mappings), testId)
      ensures !ok ==> records == old(records) && mappings == old(mappings) && totalTests == old(totalTests)
    {
      var kept := FilterRecords(records, testId);
      WithoutTestSpec(records, testId);
      if |kept| == |records| {
        return false;
      }
      var updated, emptied := RemoveEverywhere(mappings, testId);
      if emptied {
        return false;
      }
      records := kept;
      mappings := updated;
      totalTests := |records|;
      ok := true;
    }

    /** `delete_test` as evidently intended: an emptied list is deleted
        and the call succeeds. */
    method DeleteTestPruning(testId: string) returns (ok: bool)
      requires Valid()
      modifies this
      ensures Valid()
      ensures ok <==> exists i :: 0 <= i < |old(records)| && old(records)[i].testId == testId
      ensures ok ==> records == WithoutTest(old(records), testId) &&
                     mappings == PrunedMappings(old(mappings), testId)
      ensures !ok ==> records == old(records) && mappings == old(mappings) && totalTests == old(totalTests)
    {
      var kept := FilterRecords(records, testId);
      WithoutTestSpec(records, testId);
      if |kept| == |records| {
        return false;
      }
      var updated, _ := RemoveEverywhere(mappings, testId);
      var pruned := map q | q in updated && updated[q] != [] :: updated[q];
      records := kept;
      mappings := pruned;
      totalTests := |records|;
      ok := true;
    }

    /** `get_statistics` */
    method GetStatistics() returns (s: Statistics)
      ensures s.totalTests == |records| && s.totalQuestionsMapped == |mappings|
      ensures s.typeDistribution == TypeCounts(records)
      ensures s.averageQuestions == if records == [] then 0.0 else (SumQuestions(records) as real) / (|records| as real)
      ensures s.recentTests == RecentTests(records)
    {
      var counts: map<string, nat> := map[];
      var sum := 0;
      var i := 0;
      while i < |records|
        invariant 0 <= i <= |records|
        invariant counts == TypeCounts(records[..i]) && sum == SumQuestions(records[..i])
      {
        assert records[..i + 1][..i] == records[..i];
        var t := TypeName(records[i]);
        counts := counts[t := (if t in counts then counts[t] else 0) + 1];
        sum := sum + records[i].totalQuestions;
        i := i + 1;
      }
      assert records[..|records|] == records;
      var average := if records == [] then 0.0 else (sum as real) / (|records| as real);
      s := Statistics(|records|, counts, average, |mappings|, RecentTests(records));
    }
  }

  /** `[r for r in records if r["test_id"] != test_id]` */
  method FilterRecords(records: seq<TestRecord>, testId: string) returns (kept: seq<TestRecord>)
    ensures kept == WithoutTest(records, testId)
  {
    kept := [];
    var i := 0;
    while i < |records|
      invariant 0 <= i <= |records|
      invariant kept == WithoutTest(records[..i], testId)
    {
      assert records[..i + 1][..i] == records[..i];
      if records[i].testId != testId {
        kept := kept + [records[i]];
      }
      i := i + 1;
    }
    assert records[..|records|] == records;
  }

  /** The mapping loop of `delete_test`: the first occurrence of the id is
      removed from every list, and `emptied` reports whether a list was
      left empty. */
  method RemoveEverywhere(m: map<string, seq<string>>, testId: string) returns (updated: map<string, seq<string>>, emptied: bool)
    ensures updated == RemovedFromMappings(m, testId)
    ensures emptied <==> EmptiesAMapping(m, testId)
  {
    updated := m;
    emptied := false;
    var pending := m.Keys;
    while pending != {}
      invariant pending <= m.Keys && updated.Keys == m.Keys
      invariant forall q :: q in m ==> updated[q] == if q in pending then m[q] else RemoveFirst(m[q], testId)
      invariant emptied <==> exists q :: q in m && q !in pending && testId in m[q] && RemoveFirst(m[q], testId) == []
      decreases |pending|
    {
      var q :| q in pending;
      var ids := m[q];
      if testId in ids {
        ids := RemoveFirst(ids, testId);
        if ids == [] {
          emptied := true;
        }
      }
      updated := updated[q := ids];
      pending := pending - {q};
    }
  }

  // ---------------------------------------------------------------------
  // What the two deletions do to a fresh store holding one test

  /** A fresh store after one test with one question is saved. */
  function OneTestMappings(testId: string, questionId: string): map<string, seq<string>> {
    AddToMappings(map[], [questionId], testId)
  }

  /** As written, deleting the only test of a question fails: its list
      would be left empty. */
  lemma DeletingOnlyTestFails(testId: string, questionId: string)
    ensures OneTestMappings(testId, questionId) == map[questionId := [testId]]
    ensures EmptiesAMapping(OneTestMappings(testId, questionId), testId)
  {
    var m := OneTestMappings(testId, questionId);
    var ids := [questionId];
    assert ids[..|ids| - 1] == [];
    var before := AddToMappings(map[], ids[..|ids| - 1], testId);
    assert before == map[];
    assert m == before[questionId := [] + [testId]];
    assert [] + [testId] == [testId];
    assert RemoveFirst(m[questionId], testId) == [];
  }

  /** The pruning deletion of that test leaves no mapping at all. */
  lemma PruningDeletionEmptiesIndex(testId: string, questionId: string)
    ensures PrunedMappings(OneTestMappings(testId, questionId), testId) == map[]
  {
    DeletingOnlyTestFails(testId, questionId);
  }

  /** The pruning deletion removes one occurrence of the id from every
      list and keeps every list that still holds something. */
  lemma PrunedMappingsSpec(m: map<string, seq<string>>, testId: string)
    ensures forall q :: q in PrunedMappings(m, testId) <==> q in m && RemoveFirst(m[q], testId) != []
    ensures forall q :: q in PrunedMappings(m, testId) ==>
              multiset(PrunedMappings(m, testId)[q]) == multiset(m[q]) - multiset{testId}
  {
    forall q | q in PrunedMappings(m, testId)
      ensures multiset(PrunedMappings(m, testId)[q]) == multiset(m[q]) - multiset{testId}
    {
      RemoveFirstCounts(m[q], testId);
    }
  }
}
