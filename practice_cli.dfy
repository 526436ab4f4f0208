/** The log filter and the rule tables of `cli.py` that filter, pick and
    describe practice questions. The draws of `random` are inputs and
    accuracies are reals. */
module PracticeCli {
  import opened Wrappers
  import opened Strings
  import opened Collections

  // ---------------------------------------------------------------------
  // Log redaction (`ImageDataFilter`)

  const ImagePrefix: string := "data:image/"
  const Base64Marker: string := ";base64,"
  /** The second substring the filter looks for before it redacts. */
  const Base64Tag: string := "base64,"
  const RedactedUri: string := "data:image/[REDACTED_BASE64_IMAGE_DATA]"
  const TruncationMarker: string := "...[TRUNCATED_LARGE_DATA]..."

  /** The character class `[A-Za-z0-9+/=]`. */
  predicate IsBase64Char(c: char) {
    'A' <= c <= 'Z' || 'a' <= c <= 'z' || '0' <= c <= '9' || c == '+' || c == '/' || c == '='
  }

  predicate AllBase64(s: string) {
    forall i :: 0 <= i < |s| ==> IsBase64Char(s[i])
  }

  /** Length of the longest run of base64 characters at the head of `s`. */
  function Base64Run(s: string): (n: nat)
    ensures n <= |s| && AllBase64(s[..n])
    ensures n < |s| ==> !IsBase64Char(s[n])
    decreases |s|
  {
    if s == [] || !IsBase64Char(s[0]) then 0
    else
      var m := Base64Run(s[1..]);
      assert s[..m + 1] == [s[0]] + s[1..][..m];
      m + 1
  }

  /** Position of the first `c` in `s`, or `|s|` when there is none. */
  function IndexOfChar(s: string, c: char): (k: nat)
    ensures k <= |s| && c !in s[..k]
    ensures k < |s| ==> s[k] == c
    decreases |s|
  {
    if s == [] || s[0] == c then 0
    else
      var m := IndexOfChar(s[1..], c);
      assert s[..m + 1] == [s[0]] + s[1..][..m];
      m + 1
  }

  /** `data:image/<mime>;base64,<payload>` with a non-empty mime type free
      of `;` and a non-empty base64 payload. */
  ghost predicate DataUri(m: string, mime: string, payload: string) {
    m == ImagePrefix + mime + Base64Marker + payload &&
    mime != [] && ';' !in mime && payload != [] && AllBase64(payload)
  }

  /** Length of the match of `[^;]+;base64,[A-Za-z0-9+/=]+` at the head of
      `rest`, the part of a data URI after `data:image/`. `[^;]+` can only
      end at the first `;`, and the payload is taken greedily. */
  function MimeAndPayload(rest: string): (r: Option<nat>)
    ensures r.Some? ==> |Base64Marker| < r.value <= |rest|
    ensures r.Some? && r.value < |rest| ==> !IsBase64Char(rest[r.value])
  {
    var k := IndexOfChar(rest, ';');
    if k == 0 || !StartsWith(rest[k..], Base64Marker) then None
    else
      var n := Base64Run(rest[k + |Base64Marker|..]);
      if n == 0 then None else Some(k + |Base64Marker| + n)
  }

  /** Length of the match of `data:image/[^;]+;base64,[A-Za-z0-9+/=]+` at
      the head of `s`, if there is one. */
  function DataUriMatch(s: string): (r: Option<nat>)
    ensures r.Some? ==> |ImagePrefix| < r.value <= |s| && StartsWith(s, ImagePrefix)
    ensures r.Some? && r.value < |s| ==> !IsBase64Char(s[r.value])
  {
    if !StartsWith(s, ImagePrefix) then None
    else match MimeAndPayload(s[|ImagePrefix|..])
      case None => None
      case Some(m) => Some(|ImagePrefix| + m)
  }

  /** What `DataUriMatch` finds is a data URI. */
  lemma DataUriMatchSound(s: string)
    requires DataUriMatch(s).Some?
    ensures exists mime, payload :: DataUri(s[..DataUriMatch(s).value], mime, payload)
  {
    var rest := s[|ImagePrefix|..];
    var k := IndexOfChar(rest, ';');
    var tail := rest[k + |Base64Marker|..];
    var n := Base64Run(tail);
    var mime, payload := rest[..k], tail[..n];
    assert s[..|ImagePrefix| + k + |Base64Marker| + n] == ImagePrefix + mime + Base64Marker + payload;
    assert DataUri(s[..DataUriMatch(s).value], mime, payload);
  }

  lemma {:induction false} IndexOfCharAt(a: string, c: char, b: string)
    requires c !in a && b != [] && b[0] == c
    ensures IndexOfChar(a + b, c) == |a|
    decreases |a|
  {
    if a != [] {
      assert (a + b)[1..] == a[1..] + b;
      IndexOfCharAt(a[1..], c, b);
    }
  }

  lemma {:induction false} Base64RunAt(payload: string, post: string)
    requires AllBase64(payload)
    requires post == [] || !IsBase64Char(post[0])
    ensures Base64Run(payload + post) == |payload|
    decreases |payload|
  {
    if payload != [] {
      assert (payload + post)[1..] == payload[1..] + post;
      Base64RunAt(payload[1..], post);
    } else {
      assert payload + post == post;
    }
  }

  lemma MimeAndPayloadOf(rest: string, k: nat, n: nat)
    requires k == IndexOfChar(rest, ';') && k > 0 && StartsWith(rest[k..], Base64Marker)
    requires n == Base64Run(rest[k + |Base64Marker|..]) && n > 0
    ensures MimeAndPayload(rest) == Some(k + |Base64Marker| + n)
  {
  }

  /** Where the first `;` and the base64 marker of `<mime>;base64,<y>` lie. */
  lemma MarkerAfterMime(mime: string, y: string)
    requires ';' !in mime
    ensures var rest := mime + (Base64Marker + y);
            IndexOfChar(rest, ';') == |mime| && StartsWith(rest[|mime|..], Base64Marker) &&
            rest[|mime| + |Base64Marker|..] == y
  {
    var z := Base64Marker + y;
    assert z[0] == ';';
    IndexOfCharAt(mime, ';', z);
    SplitThree(mime, Base64Marker, y);
  }

  /** After the prefix, a mime type free of `;` and the base64 marker are
      passed over and the payload run is taken. */
  lemma MimeAndPayloadAt(mime: string, y: string)
    requires mime != [] && ';' !in mime && Base64Run(y) > 0
    ensures MimeAndPayload(mime + (Base64Marker + y)) == Some(|mime| + |Base64Marker| + Base64Run(y))
  {
    MarkerAfterMime(mime, y);
    MimeAndPayloadOf(mime + (Base64Marker + y), |mime|, Base64Run(y));
  }

  lemma DataUriMatchOf(s: string, x: string, m: nat)
    requires StartsWith(s, ImagePrefix) && s[|ImagePrefix|..] == x && MimeAndPayload(x) == Some(m)
    ensures DataUriMatch(s) == Some(|ImagePrefix| + m)
  {
  }

  /** The pieces of a data URI followed by more text. */
  lemma DataUriParts(uri: string, mime: string, payload: string, post: string)
    requires DataUri(uri, mime, payload)
    ensures var s, x := uri + post, mime + (Base64Marker + (payload + post));
            StartsWith(s, ImagePrefix) && s[|ImagePrefix|..] == x &&
            |uri| == |ImagePrefix| + (|mime| + |Base64Marker| + |payload|)
  {
    var x := mime + (Base64Marker + (payload + post));
    Regroup(ImagePrefix, mime, Base64Marker, payload, post);
    SplitConcat(ImagePrefix, x);
  }

  /** A data URI whose payload is not followed by another base64
      character is matched whole. */
  lemma DataUriMatchComplete(uri: string, mime: string, payload: string, post: string)
    requires DataUri(uri, mime, payload)
    requires post == [] || !IsBase64Char(post[0])
    ensures DataUriMatch(uri + post) == Some(|uri|)
  {
    var x := mime + (Base64Marker + (payload + post));
    var m := |mime| + |Base64Marker| + |payload|;
    DataUriParts(uri, mime, payload, post);
    Base64RunAt(payload, post);
    MimeAndPayloadAt(mime, payload + post);
    assert MimeAndPayload(x) == Some(m);
    DataUriMatchOf(uri + post, x, m);
    assert |uri| == |ImagePrefix| + m;
  }

  /** `re.sub(pattern, RedactedUri, s)`: scanning left to right, every
      data URI becomes the placeholder. */
  function Redact(s: string): (r: string)
    ensures r == [] <==> s == []
    decreases |s|
  {
    if s == [] then []
    else match DataUriMatch(s)
      case Some(n) => RedactedUri + Redact(s[n..])
      case None => [s[0]] + Redact(s[1..])
  }

  /** No `data:image/` starts at position `i` of `s`. */
  predicate NoImageAt(s: string, i: nat)
    requires i <= |s|
  {
    !StartsWith(s[i..], ImagePrefix)
  }

  /** No `data:image/` starts in the first `k` positions of `s`. */
  predicate NoImageBefore(s: string, k: nat)
    requires k <= |s|
  {
    forall i :: 0 <= i < k ==> NoImageAt(s, i)
  }

  /** Text before the first `data:image/` is copied unchanged. */
  lemma {:induction false} RedactKeepsPrefix(s: string, k: nat)
    requires k <= |s| && NoImageBefore(s, k)
    ensures Redact(s) == s[..k] + Redact(s[k..])
    decreases k
  {
    if k > 0 {
      assert NoImageAt(s, 0) && s[0..] == s;
      assert DataUriMatch(s) == None;
      var t := s[1..];
      forall i | 0 <= i < k - 1
        ensures NoImageAt(t, i)
      {
        assert NoImageAt(s, i + 1);
        assert t[i..] == s[i + 1..];
      }
      RedactKeepsPrefix(t, k - 1);
      assert t[k - 1..] == s[k..];
      PrefixCons(s, k);
      ConsShift(s[0], t[..k - 1], Redact(s[k..]), Redact(s), Redact(t));
    }
  }

  lemma ConsShift(x: char, a: string, b: string, r: string, r': string)
    requires r == [x] + r' && r' == a + b
    ensures r == [x] + a + b
  {
  }

  /** A message without `data:image/` is left as it is. */
  lemma RedactWithoutImage(s: string)
    requires !Contains(s, ImagePrefix)
    ensures Redact(s) == s
  {
    forall i | 0 <= i < |s|
      ensures NoImageAt(s, i)
    {
      if StartsWith(s[i..], ImagePrefix) {
        assert s[i..i + |ImagePrefix|] == ImagePrefix;
        ContainsAt(s, ImagePrefix, i);
      }
    }
    RedactKeepsPrefix(s, |s|);
  }

  /** The first data URI of a message is replaced by the placeholder, and
      the rest of the message is redacted in turn. */
  lemma RedactReplacesUri(pre: string, uri: string, mime: string, payload: string, post: string)
    requires DataUri(uri, mime, payload)
    requires post == [] || !IsBase64Char(post[0])
    requires NoImageBefore(pre + uri + post, |pre|)
    ensures Redact(pre + uri + post) == pre + RedactedUri + Redact(post)
  {
    var s := pre + uri + post;
    RedactKeepsPrefix(s, |pre|);
    AppendAssoc(pre, uri, post);
    SplitConcat(pre, uri + post);
    DataUriMatchComplete(uri, mime, payload, post);
    SplitConcat(uri, post);
    AppendAssoc(pre, RedactedUri, Redact(post));
  }

  /** A hundred base64 characters start at `i`. */
  predicate Base64WindowAt(s: string, i: nat) {
    i + 100 <= |s| && AllBase64(s[i..i + 100])
  }

  /** `re.search(r'[A-Za-z0-9+/=]{100,}', s)` */
  predicate HasLongBase64Run(s: string) {
    exists i: nat :: i <= |s| && Base64WindowAt(s, i)
  }

  /** `msg[:500] + marker + msg[-100:]` */
  function Truncated(msg: string): (r: string)
    requires |msg| > 2000
    ensures |r| == 500 + |TruncationMarker| + 100 < |msg|
    ensures r[..500] == msg[..500] && r[|r| - 100..] == msg[|msg| - 100..]
  {
    msg[..500] + TruncationMarker + msg[|msg| - 100..]
  }

  /** The message `ImageDataFilter.filter` leaves in the record. A message
      naming both `data:image/` and `base64,` is redacted even when it holds
      no complete data URI, and is then never truncated. */
  function FilteredMessage(msg: string): (r: string)
    ensures (!(Contains(msg, ImagePrefix) && Contains(msg, Base64Tag)) &&
             (|msg| <= 2000 || !HasLongBase64Run(msg))) ==> r == msg
  {
    if Contains(msg, ImagePrefix) && Contains(msg, Base64Tag) then Redact(msg)
    else if |msg| > 1000 && HasLongBase64Run(msg) && |msg| > 2000 then Truncated(msg)
    else msg
  }

  /** The record whose `msg` the filter rewrites. */
  class LogRecord {
    var msg: string

    constructor (msg: string)
      ensures this.msg == msg
    {
      this.msg := msg;
    }
  }

  class ImageDataFilter {
    constructor () {}

    /** Rewrites `record.msg` and always lets the record through. */
    method Filter(record: LogRecord) returns (keep: bool)
      modifies record
      ensures keep
      ensures record.msg == FilteredMessage(old(record.msg))
    {
      var msg := record.msg;
      if msg != [] {
        if Contains(msg, ImagePrefix) && Contains(msg, Base64Tag) {
          record.msg := Redact(msg);
        } else if |msg| > 1000 && HasLongBase64Run(msg) {
          if |msg| > 2000 {
            record.msg := msg[..500] + TruncationMarker + msg[|msg| - 100..];
          }
        }
      }
      return true;
    }
  }

  /** A long message with a long base64 run but no data URI keeps its
      first 500 and last 100 characters around the marker. */
  lemma FilterTruncatesLongData(msg: string)
    requires !(Contains(msg, ImagePrefix) && Contains(msg, Base64Tag))
    requires |msg| > 2000 && HasLongBase64Run(msg)
    ensures FilteredMessage(msg) == msg[..500] + TruncationMarker + msg[|msg| - 100..]
    ensures |FilteredMessage(msg)| == 500 + |TruncationMarker| + 100
  {
  }

  /** A message holding a data URI loses its payload. */
  lemma FilterRedactsDataUri(pre: string, uri: string, mime: string, payload: string, post: string)
    requires DataUri(uri, mime, payload)
    requires post == [] || !IsBase64Char(post[0])
    requires NoImageBefore(pre + uri + post, |pre|)
    ensures FilteredMessage(pre + uri + post) == pre + RedactedUri + Redact(post)
  {
    SplitConcat(ImagePrefix, mime + Base64Marker + payload);
    AppendAssoc(ImagePrefix, mime + Base64Marker, payload);
    AppendAssoc(ImagePrefix, mime, Base64Marker);
    ContainsAt(uri, ImagePrefix, 0);
    assert Base64Marker[1..] == Base64Tag;
    ContainsAt(Base64Marker, Base64Tag, 1);
    ContainsInMiddle(ImagePrefix + mime, Base64Marker, payload, Base64Tag);
    ContainsInMiddle(pre, uri, post, ImagePrefix);
    ContainsInMiddle(pre, uri, post, Base64Tag);
    RedactReplacesUri(pre, uri, mime, payload, post);
  }

  lemma ContainsInMiddle(a: string, b: string, c: string, p: string)
    requires Contains(b, p)
    ensures Contains(a + b + c, p)
  {
    var i := ContainsWitness(b, p);
    var s := a + b + c;
    forall k | 0 <= k < |p|
      ensures s[|a| + i + k] == p[k]
    {
      assert b[i..i + |p|][k] == p[k];
    }
    assert s[|a| + i..|a| + i + |p|] == p;
    ContainsAt(s, p, |a| + i);
  }

  lemma ContainsInPrefix(s: string, n: nat, p: string)
    requires n <= |s| && Contains(s[..n], p)
    ensures Contains(s, p)
  {
    ContainsInMiddle([], s[..n], s[n..], p);
    assert [] + s[..n] + s[n..] == s;
  }

  lemma ContainsInSuffix(s: string, n: nat, p: string)
    requires n <= |s| && Contains(s[n..], p)
    ensures Contains(s, p)
  {
    ContainsInMiddle(s[..n], s[n..], [], p);
    assert s[..n] + s[n..] + [] == s;
  }

  /** A pattern none of whose characters occurs in `m` cannot straddle it. */
  lemma ContainsAround(a: string, m: string, b: string, p: string)
    requires m != [] && p != [] && forall j :: 0 <= j < |p| ==> p[j] !in m
    ensures Contains(a + m + b, p) ==> Contains(a, p) || Contains(b, p)
  {
    var t := a + m + b;
    if Contains(t, p) {
      var i := ContainsWitness(t, p);
      // An occurrence overlapping `m` would put a character of `m` in `p`.
      var q := if i < |a| then |a| else i;
      assert i <= q < i + |p| ==> t[q] == p[q - i] by {
        if i <= q < i + |p| {
          assert t[i..i + |p|][q - i] == p[q - i];
        }
      }
      assert |a| <= q < |a| + |m| ==> t[q] == m[q - |a|];
      if i + |p| <= |a| {
        forall k | 0 <= k < |p|
          ensures a[i + k] == p[k]
        {
          assert t[i..i + |p|][k] == p[k];
        }
        assert a[i..i + |p|] == p;
        ContainsAt(a, p, i);
      } else if i >= |a| + |m| {
        var j := i - |a| - |m|;
        forall k | 0 <= k < |p|
          ensures b[j + k] == p[k]
        {
          assert t[i..i + |p|][k] == p[k];
        }
        assert b[j..j + |p|] == p;
        ContainsAt(b, p, j);
      }
    }
  }

  /** Neither substring the filter looks for can straddle the marker. */
  lemma PatternsAvoidMarker()
    ensures forall j :: 0 <= j < |ImagePrefix| ==> ImagePrefix[j] !in TruncationMarker
    ensures forall j :: 0 <= j < |Base64Tag| ==> Base64Tag[j] !in TruncationMarker
  {
  }

  /** A truncated message passes the filter again unchanged. */
  lemma TruncationIsFinal(msg: string)
    requires !(Contains(msg, ImagePrefix) && Contains(msg, Base64Tag))
    requires |msg| > 2000 && HasLongBase64Run(msg)
    ensures FilteredMessage(FilteredMessage(msg)) == FilteredMessage(msg)
  {
    var a, b := msg[..500], msg[|msg| - 100..];
    var t := Truncated(msg);
    assert FilteredMessage(msg) == t;
    PatternsAvoidMarker();
    ContainsAround(a, TruncationMarker, b, ImagePrefix);
    ContainsAround(a, TruncationMarker, b, Base64Tag);
    if Contains(a, ImagePrefix) { ContainsInPrefix(msg, 500, ImagePrefix); }
    if Contains(b, ImagePrefix) { ContainsInSuffix(msg, |msg| - 100, ImagePrefix); }
    if Contains(a, Base64Tag) { ContainsInPrefix(msg, 500, Base64Tag); }
    if Contains(b, Base64Tag) { ContainsInSuffix(msg, |msg| - 100, Base64Tag); }
    assert !(Contains(t, ImagePrefix) && Contains(t, Base64Tag));
  }

  // ---------------------------------------------------------------------
  // Picking practice questions from the bank

  /** A bank question as the practice generator reads it: the optional
      `question_info.difficulty`, `question_info.tags`, and the texts
      `question_info.text` and `question.text` (empty when absent). */
  datatype BankQuestion = BankQuestion(id: string, difficulty: Option<string>, tags: seq<string>,
                                       infoText: string, questionText: string)

  const DifficultyOrder: seq<string> := ["easy", "medium", "hard"]

  /** `difficulty_order.index(d)`; `None` where Python raises `ValueError`. */
  function DifficultyRank(d: string): (r: Option<nat>)
    ensures r.Some? <==> d in DifficultyOrder
    ensures r.Some? ==> r.value < |DifficultyOrder| && DifficultyOrder[r.value] == d
  {
    if d == "easy" then Some(0)
    else if d == "medium" then Some(1)
    else if d == "hard" then Some(2)
    else None
  }

  /** The difficulty a question is filed under, `medium` when it has none. */
  function DifficultyOf(q: BankQuestion): string {
    q.difficulty.GetOr("medium")
  }

  predicate InDifficultyRange(q: BankQuestion, lo: nat, hi: nat) {
    var r := DifficultyRank(DifficultyOf(q));
    r.Some? && lo <= r.value <= hi
  }

  /** The questions whose difficulty ranks between `lo` and `hi`, in bank
      order. */
  function WithinRange(questions: seq<BankQuestion>, lo: nat, hi: nat): (r: seq<BankQuestion>)
    ensures forall q :: q in r <==> q in questions && InDifficultyRange(q, lo, hi)
    ensures |r| <= |questions|
    decreases |questions|
  {
    if questions == [] then []
    else
      var last := questions[|questions| - 1];
      assert questions == questions[..|questions| - 1] + [last];
      WithinRange(questions[..|questions| - 1], lo, hi) + (if InDifficultyRange(last, lo, hi) then [last] else [])
  }

  /** Filtering commutes with concatenation, so bank order is kept. */
  lemma {:induction false} WithinRangeAppend(a: seq<BankQuestion>, b: seq<BankQuestion>, lo: nat, hi: nat)
    ensures WithinRange(a + b, lo, hi) == WithinRange(a, lo, hi) + WithinRange(b, lo, hi)
    decreases |b|
  {
    if b == [] {
      assert a + b == a;
    } else {
      var b' := b[..|b| - 1];
      assert (a + b)[..|a + b| - 1] == a + b';
      assert (a + b)[|a + b| - 1] == b[|b| - 1];
      WithinRangeAppend(a, b', lo, hi);
    }
  }

  /** A bank whose questions all lie in range passes whole. */
  lemma {:induction false} WithinRangeKeepsAll(questions: seq<BankQuestion>, lo: nat, hi: nat)
    requires forall k :: 0 <= k < |questions| ==> InDifficultyRange(questions[k], lo, hi)
    ensures WithinRange(questions, lo, hi) == questions
    decreases |questions|
  {
    if questions != [] {
      var init, last := questions[..|questions| - 1], questions[|questions| - 1];
      assert questions == init + [last];
      WithinRangeKeepsAll(init, lo, hi);
      WithinRangeSnoc(init, last, lo, hi);
    }
  }

  lemma WithinRangeSnoc(a: seq<BankQuestion>, q: BankQuestion, lo: nat, hi: nat)
    ensures WithinRange(a + [q], lo, hi) == WithinRange(a, lo, hi) + (if InDifficultyRange(q, lo, hi) then [q] else [])
  {
    assert (a + [q])[..|a|] == a;
  }

  lemma WithinRangeStep(questions: seq<BankQuestion>, i: nat, lo: nat, hi: nat)
    requires i < |questions|
    ensures WithinRange(questions[..i + 1], lo, hi) ==
            WithinRange(questions[..i], lo, hi) + (if InDifficultyRange(questions[i], lo, hi) then [questions[i]] else [])
  {
    assert questions[..i + 1] == questions[..i] + [questions[i]];
    WithinRangeSnoc(questions[..i], questions[i], lo, hi);
  }

  /** `_filter_by_difficulty`: an unknown bound name leaves the list as it
      is; otherwise the questions of a known difficulty within the bounds
      are kept in order. */
  method FilterByDifficulty(questions: seq<BankQuestion>, minDifficulty: string, maxDifficulty: string)
    returns (filtered: seq<BankQuestion>)
    ensures minDifficulty !in DifficultyOrder || maxDifficulty !in DifficultyOrder ==> filtered == questions
    ensures minDifficulty in DifficultyOrder && maxDifficulty in DifficultyOrder ==>
              filtered == WithinRange(questions, DifficultyRank(minDifficulty).value,
                                      DifficultyRank(maxDifficulty).value)
  {
    var minRank := DifficultyRank(minDifficulty);
    var maxRank := DifficultyRank(maxDifficulty);
    if minRank.None? || maxRank.None? {
      return questions;
    }
    filtered := KeepWithinRange(questions, minRank.value, maxRank.value);
  }

  /** The filtering loop of `_filter_by_difficulty`, once both bounds are
      known ranks. */
  method KeepWithinRange(questions: seq<BankQuestion>, lo: nat, hi: nat) returns (filtered: seq<BankQuestion>)
    ensures filtered == WithinRange(questions, lo, hi)
  {
    filtered := [];
    for i := 0 to |questions|
      invariant filtered == WithinRange(questions[..i], lo, hi)
    {
      var q := questions[i];
      var rank := DifficultyRank(DifficultyOf(q));
      WithinRangeStep(questions, i, lo, hi);
      if rank.Some? && lo <= rank.value <= hi {
        filtered := filtered + [q];
      }
    }
    assert questions[..|questions|] == questions;
  }

  /** `[i for i in range(n) if i not in seen]` */
  function Remaining(n: nat, seen: set<nat>): (r: seq<nat>)
    ensures forall i: nat :: i in r <==> i < n && i !in seen
    decreases n
  {
    if n == 0 then [] else Remaining(n - 1, seen) + (if n - 1 in seen then [] else [n - 1])
  }

  /** Fewer than `n` indices below `n` leave one out. */
  lemma {:induction false} RoomLeft(n: nat, seen: set<nat>)
    requires |seen| < n && forall x :: x in seen ==> x < n
    ensures exists i :: 0 <= i < n && i !in seen
    decreases n
  {
    if n - 1 in seen {
      var rest := seen - {n - 1};
      assert |rest| == |seen| - 1;
      RoomLeft(n - 1, rest);
      var i :| 0 <= i < n - 1 && i !in rest;
      assert i !in seen;
    }
  }

  /** Indices into a bank of `n` questions that `_weighted_random_selection`
      may return: distinct, in range, and starting with the first-seen
      order of the draws of `random.choices`. */
  predicate IsSelection(n: nat, picks: seq<nat>, indices: seq<nat>) {
    Distinct(indices) &&
    (forall k :: 0 <= k < |indices| ==> indices[k] < n) &&
    |Dedupe(picks)| <= |indices| && indices[..|Dedupe(picks)|] == Dedupe(picks)
  }

  /** The dedupe loop of `_weighted_random_selection`, on indices: the
      draws in first-drawn order, and the set of indices seen. */
  method FirstDrawn(picks: seq<nat>) returns (indices: seq<nat>, seen: set<nat>)
    ensures indices == Dedupe(picks)
    ensures (forall x :: x in seen <==> x in indices) && |seen| == |indices|
  {
    seen := {};
    indices := [];
    for k := 0 to |picks|
      invariant indices == Dedupe(picks[..k])
      invariant forall x :: x in seen <==> x in indices
      invariant |seen| == |indices|
    {
      DedupeStep(picks, k);
      if picks[k] !in seen {
        indices := indices + [picks[k]];
        seen := seen + {picks[k]};
      }
    }
    assert picks[..|picks|] == picks;
  }

  lemma DedupeStep(xs: seq<nat>, k: nat)
    requires k < |xs|
    ensures Dedupe(xs[..k + 1]) == if xs[k] in Dedupe(xs[..k]) then Dedupe(xs[..k]) else Dedupe(xs[..k]) + [xs[k]]
  {
    PrefixSnoc(xs, k);
    DedupeSnoc(xs[..k], xs[k]);
  }

  /** The dedupe and fill loops of `_weighted_random_selection`, on
      indices. `fills[k]` is the `k`-th draw of `random.choice`, taken
      modulo the number of indices left. The fill loop never runs out of
      indices, so its `break` is never taken. */
  method SelectIndices(n: nat, count: nat, picks: seq<nat>, fills: seq<nat>) returns (indices: seq<nat>)
    requires count < n && |picks| == count && |fills| >= count
    requires forall k :: 0 <= k < |picks| ==> picks[k] < n
    ensures |indices| == count && IsSelection(n, picks, indices)
  {
    var seen;
    indices, seen := FirstDrawn(picks);
    forall k | 0 <= k < |indices|
      ensures indices[k] < n
    {
      assert indices[k] in picks;
    }
    ghost var first := indices;
    var round := 0;
    while |indices| < count
      invariant |first| <= |indices| <= count && indices[..|first|] == first
      invariant Distinct(indices) && forall k :: 0 <= k < |indices| ==> indices[k] < n
      invariant forall x :: x in seen <==> x in indices
      invariant |seen| == |indices|
      invariant round == |indices| - |first|
      decreases count - |indices|
    {
      RoomLeft(n, seen);
      var remaining := Remaining(n, seen);
      var j :| 0 <= j < n && j !in seen;
      assert j in remaining;
      var next := remaining[fills[round] % |remaining|];
      indices := indices + [next];
      seen := seen + {next};
      round := round + 1;
    }
  }

  /** The questions at `indices`. */
  function Pick(questions: seq<BankQuestion>, indices: seq<nat>): (r: seq<BankQuestion>)
    requires forall k :: 0 <= k < |indices| ==> indices[k] < |questions|
    ensures |r| == |indices| && forall k :: 0 <= k < |indices| ==> r[k] == questions[indices[k]]
  {
    seq(|indices|, k requires 0 <= k < |indices| => questions[indices[k]])
  }

  /** `_weighted_random_selection`: no questions for an empty bank or a
      non-positive count, a copy of the bank when it holds no more than
      `count`, and otherwise `count` questions at distinct positions,
      first those drawn by `random.choices` (`picks`) in first-drawn
      order, then fills. */
  method WeightedRandomSelection(questions: seq<BankQuestion>, count: int, picks: seq<nat>, fills: seq<nat>)
    returns (selected: seq<BankQuestion>)
    requires 0 < count < |questions| ==> |picks| == count && |fills| >= count
    requires forall k :: 0 <= k < |picks| ==> picks[k] < |questions|
    ensures questions == [] || count <= 0 ==> selected == []
    ensures questions != [] && count >= |questions| ==> selected == questions
    ensures 0 < count < |questions| ==>
              |selected| == count &&
              exists indices :: IsSelection(|questions|, picks, indices) && selected == Pick(questions, indices)
  {
    if questions == [] || count <= 0 {
      return [];
    }
    if count >= |questions| {
      return questions;
    }
    var indices := SelectIndices(|questions|, count, picks, fills);
    selected := [];
    for k := 0 to |indices|
      invariant selected == Pick(questions, indices[..k])
    {
      selected := selected + [questions[indices[k]]];
    }
    assert indices[..|indices|] == indices;
  }

  /** Distinct bank entries give distinct selected questions. */
  lemma SelectionIsDistinct(questions: seq<BankQuestion>, picks: seq<nat>, indices: seq<nat>)
    requires Distinct(questions) && IsSelection(|questions|, picks, indices)
    ensures Distinct(Pick(questions, indices))
  {
  }

  // ---------------------------------------------------------------------
  // Matching questions to error types

  /** The tags `_extract_tags_from_text` can append, in the order of its
      checks. */
  const TagNames: seq<string> := ["分数运算", "小数运算", "负数运算", "方程", "乘方"]

  /** The keywords of check `k`, looked for in the lower-cased text. */
  predicate Cue(k: nat, t: string)
    requires k < 5
  {
    match k
    case 0 => Contains(t, "分数") || Contains(t, "fraction") || '/' in t
    case 1 => Contains(t, "小数") || Contains(t, "decimal") || '.' in t
    case 2 => Contains(t, "负数") || Contains(t, "negative") || '-' in t
    case 3 => Contains(t, "方程") || Contains(t, "equation") || '=' in t
    case _ => Contains(t, "乘方") || Contains(t, "power") || '^' in t
  }

  /** The position of a tag among the checks. */
  function TagRank(tag: string): nat {
    if tag == "分数运算" then 0 else if tag == "小数运算" then 1 else if tag == "负数运算" then 2
    else if tag == "方程" then 3 else 4
  }

  lemma TagRanks()
    ensures forall k :: 0 <= k < 5 ==> TagRank(TagNames[k]) == k
  {
    assert TagRank(TagNames[0]) == 0;
    assert TagRank(TagNames[1]) == 1;
    assert TagRank(TagNames[2]) == 2;
    assert TagRank(TagNames[3]) == 3;
    assert TagRank(TagNames[4]) == 4;
  }

  /** The checks from `k` on. */
  function TagsFrom(t: string, k: nat): (tags: seq<string>)
    requires k <= 5
    ensures forall s :: s in tags <==> exists j :: k <= j < 5 && TagNames[j] == s && Cue(j, t)
    ensures forall i :: 0 <= i < |tags| ==> k <= TagRank(tags[i]) && TagNames[TagRank(tags[i])] == tags[i]
    ensures forall i, j :: 0 <= i < j < |tags| ==> TagRank(tags[i]) < TagRank(tags[j])
    decreases 5 - k
  {
    if k == 5 then []
    else
      TagRanks();
      (if Cue(k, t) then [TagNames[k]] else []) + TagsFrom(t, k + 1)
  }

  /** `_extract_tags_from_text`: each check whose keyword occurs in the
      lower-cased text appends its tag, so the tags are exactly those of the
      checks that fire, each once, in the order of the checks. */
  function ExtractTags(text: string): (tags: seq<string>)
    ensures forall s :: s in tags <==> exists k :: 0 <= k < 5 && TagNames[k] == s && Cue(k, Lower(text))
    ensures forall i, j :: 0 <= i < j < |tags| ==> TagRank(tags[i]) < TagRank(tags[j])
  {
    TagsFrom(Lower(text), 0)
  }

  /** A check that fires contributes its tag. */
  lemma CueGivesTag(text: string, k: nat)
    requires k < 5 && Cue(k, Lower(text))
    ensures TagNames[k] in ExtractTags(text)
  {
  }

  /** Lower-casing keeps every character that is not an upper-case letter. */
  lemma LowerKeeps(text: string, c: char)
    requires c in text && !('A' <= c <= 'Z')
    ensures c in Lower(text)
  {
    var i :| 0 <= i < |text| && text[i] == c;
    assert Lower(text)[i] == c;
  }

  /** A slash, a full stop, a minus, an equals sign or a caret is enough
      for its tag. */
  lemma SymbolsGiveTags(text: string)
    ensures '/' in text ==> "分数运算" in ExtractTags(text)
    ensures '.' in text ==> "小数运算" in ExtractTags(text)
    ensures '-' in text ==> "负数运算" in ExtractTags(text)
    ensures '=' in text ==> "方程" in ExtractTags(text)
    ensures '^' in text ==> "乘方" in ExtractTags(text)
  {
    if '/' in text {
      LowerKeeps(text, '/');
      CueGivesTag(text, 0);
    }
    if '.' in text {
      LowerKeeps(text, '.');
      CueGivesTag(text, 1);
    }
    if '-' in text {
      LowerKeeps(text, '-');
      CueGivesTag(text, 2);
    }
    if '=' in text {
      LowerKeeps(text, '=');
      CueGivesTag(text, 3);
    }
    if '^' in text {
      LowerKeeps(text, '^');
      CueGivesTag(text, 4);
    }
  }

  /** No tag is inferred twice. */
  lemma ExtractedTagsDistinct(text: string)
    ensures Distinct(ExtractTags(text))
  {
  }

  lemma LowerTwice(s: string)
    ensures Lower(Lower(s)) == Lower(s)
  {
  }

  /** Tag inference ignores letter case. */
  lemma ExtractTagsIgnoresCase(text: string)
    ensures ExtractTags(Lower(text)) == ExtractTags(text)
    ensures ExtractTags(Upper(text)) == ExtractTags(text)
  {
    LowerTwice(text);
    assert Lower(Upper(text)) == Lower(text);
  }

  /** `error_type_mapping`: the tags each known error type stands for. */
  function MappedTags(errorType: string): Option<seq<string>> {
    if errorType == "符号错误" then Some(["负数运算", "符号", "负号", "正负号", "有理数", "乘方"])
    else if errorType == "计算错误" then Some(["计算", "运算", "四则运算", "算术"])
    else if errorType == "分数运算" then Some(["分数", "分数运算"])
    else if errorType == "小数运算" then Some(["小数", "小数运算"])
    else if errorType == "混合运算" then Some(["混合运算", "综合运算"])
    else if errorType == "方程" then Some(["方程", "一元一次方程", "解方程"])
    else if errorType == "乘方" then Some(["乘方", "幂运算"])
    else None
  }

  /** `question_info.text`, or `question.text` when that is empty. */
  function QuestionText(q: BankQuestion): string {
    if q.infoText != [] then q.infoText else q.questionText
  }

  /** The question's own tags, or those inferred from its text when it has
      none. */
  function QuestionTags(q: BankQuestion): seq<string> {
    if q.tags != [] then q.tags else ExtractTags(QuestionText(q))
  }

  /** `errorType` is known and one of its tags is among `tags`. */
  predicate MatchesErrorType(tags: seq<string>, errorType: string) {
    MappedTags(errorType).Some? && exists t :: t in MappedTags(errorType).value && t in tags
  }

  /** `_question_matches_error_types`, which returns at the first error
      type that matches. */
  function QuestionMatches(q: BankQuestion, errorTypes: seq<string>): (r: bool)
    ensures r <==> exists e :: e in errorTypes && MatchesErrorType(QuestionTags(q), e)
    decreases |errorTypes|
  {
    if errorTypes == [] then false
    else if MatchesErrorType(QuestionTags(q), errorTypes[0]) then true
    else
      assert forall e :: e in errorTypes ==> e == errorTypes[0] || e in errorTypes[1..];
      QuestionMatches(q, errorTypes[1..])
  }

  /** Error types outside the mapping never select a question. */
  lemma UnknownErrorTypesNeverMatch(q: BankQuestion, errorTypes: seq<string>)
    requires forall e :: e in errorTypes ==> MappedTags(e).None?
    ensures !QuestionMatches(q, errorTypes)
  {
  }

  /** Every tag inferred from a text is one some error type stands for. */
  lemma InferredTagsAreMapped(text: string)
    ensures forall t :: t in ExtractTags(text) ==>
              exists e :: MappedTags(e).Some? && t in MappedTags(e).value
  {
    forall t | t in ExtractTags(text)
      ensures exists e :: MappedTags(e).Some? && t in MappedTags(e).value
    {
      var k :| 0 <= k < 5 && TagNames[k] == t && Cue(k, Lower(text));
      TagNameMapped(k);
    }
  }

  lemma TagNameMapped(k: nat)
    requires k < 5
    ensures exists e :: MappedTags(e).Some? && TagNames[k] in MappedTags(e).value
  {
    if k == 0 {
      assert TagNames[k] in MappedTags("分数运算").value;
    } else if k == 1 {
      assert TagNames[k] in MappedTags("小数运算").value;
    } else if k == 2 {
      assert TagNames[k] in MappedTags("符号错误").value;
    } else if k == 3 {
      assert TagNames[k] in MappedTags("方程").value;
    } else {
      assert TagNames[k] in MappedTags("乘方").value;
    }
  }

  /** An untagged question with a minus sign in its text is practice for
      sign errors. */
  lemma MinusSignMatchesSignErrors(q: BankQuestion)
    requires q.tags == [] && '-' in QuestionText(q)
    ensures QuestionMatches(q, ["符号错误"])
  {
    var text := QuestionText(q);
    SymbolsGiveTags(text);
    assert MatchesErrorType(QuestionTags(q), "符号错误");
  }

  /** A question's own tags decide; its text is then not read. */
  lemma OwnTagsOverrideText(q: BankQuestion, text: string, errorTypes: seq<string>)
    requires q.tags != []
    ensures QuestionMatches(q.(infoText := text), errorTypes) == QuestionMatches(q, errorTypes)
  {
  }

  // ---------------------------------------------------------------------
  // Learning recommendations

  const AssessmentTexts: seq<string> := [
    "优秀！数学基础扎实，计算准确性很高。",
    "良好！大部分题目都能正确解答，还有小幅提升空间。",
    "及格！基本概念掌握，但在计算准确性上需要加强练习。",
    "需要加强！建议重点复习基础概念和计算方法。"
  ]

  /** `_get_overall_assessment`: four bands cut at 90, 80 and 60. */
  function OverallAssessment(accuracy: real): (r: string)
    ensures r in AssessmentTexts
    ensures r == AssessmentTexts[0] <==> accuracy >= 90.0
    ensures r == AssessmentTexts[1] <==> 80.0 <= accuracy < 90.0
    ensures r == AssessmentTexts[2] <==> 60.0 <= accuracy < 80.0
    ensures r == AssessmentTexts[3] <==> accuracy < 60.0
  {
    if accuracy >= 90.0 then AssessmentTexts[0]
    else if accuracy >= 80.0 then AssessmentTexts[1]
    else if accuracy >= 60.0 then AssessmentTexts[2]
    else AssessmentTexts[3]
  }

  /** The better the accuracy, the better the band. */
  lemma AssessmentMonotone(a: real, b: real)
    requires a <= b
    ensures exists i, j :: 0 <= j <= i < 4 && OverallAssessment(a) == AssessmentTexts[i] &&
                           OverallAssessment(b) == AssessmentTexts[j]
  {
    var i := if a >= 90.0 then 0 else if a >= 80.0 then 1 else if a >= 60.0 then 2 else 3;
    var j := if b >= 90.0 then 0 else if b >= 80.0 then 1 else if b >= 60.0 then 2 else 3;
    assert OverallAssessment(a) == AssessmentTexts[i];
    assert OverallAssessment(b) == AssessmentTexts[j];
  }

  /** The error counts gathered over the wrong answers. */
  datatype ErrorPatterns = ErrorPatterns(fractionOperations: nat, decimalOperations: nat, mixedOperations: nat,
                                         calculationErrors: nat, conceptErrors: nat, stepLogicErrors: nat)

  /** `calculation_errors > total_problems * 0.3` */
  predicate ManyCalculationErrors(p: ErrorPatterns, totalProblems: nat) {
    p.calculationErrors as real > totalProblems as real * 0.3
  }

  /** Some rule of `_identify_priority_areas` fires. */
  predicate HasPriority(p: ErrorPatterns, totalProblems: nat) {
    p.fractionOperations > 0 || p.decimalOperations > 0 || p.mixedOperations > 0 ||
    ManyCalculationErrors(p, totalProblems) || p.stepLogicErrors > 0
  }

  /** The entries `_identify_priority_areas` can list. */
  datatype Area = FractionArea | DecimalArea | MixedArea | AccuracyArea | StepLogicArea | SteadyArea

  /** Whether the rule that lists `a` fires; the encouragement has none. */
  predicate AreaFires(p: ErrorPatterns, totalProblems: nat, a: Area) {
    match a
    case FractionArea => p.fractionOperations > 0
    case DecimalArea => p.decimalOperations > 0
    case MixedArea => p.mixedOperations > 0
    case AccuracyArea => ManyCalculationErrors(p, totalProblems)
    case StepLogicArea => p.stepLogicErrors > 0
    case SteadyArea => false
  }

  function AreaName(a: Area): string {
    match a
    case FractionArea => "分数运算"
    case DecimalArea => "小数运算"
    case MixedArea => "混合运算"
    case AccuracyArea => "计算准确性"
    case StepLogicArea => "解题步骤逻辑"
    case SteadyArea => "继续保持当前水平"
  }

  /** The areas whose rules fire, in rule order. */
  function FiredAreas(p: ErrorPatterns, totalProblems: nat): (r: seq<Area>)
    ensures forall a :: a in r <==> AreaFires(p, totalProblems, a)
  {
    (if p.fractionOperations > 0 then [FractionArea] else []) +
    (if p.decimalOperations > 0 then [DecimalArea] else []) +
    (if p.mixedOperations > 0 then [MixedArea] else []) +
    (if ManyCalculationErrors(p, totalProblems) then [AccuracyArea] else []) +
    (if p.stepLogicErrors > 0 then [StepLogicArea] else [])
  }

  /** `_identify_priority_areas`: one area per rule that fires, in rule
      order, or the single encouragement when none does. */
  function PriorityAreas(p: ErrorPatterns, totalProblems: nat): (r: seq<Area>)
    ensures r != []
    ensures forall a :: a != SteadyArea ==> (a in r <==> AreaFires(p, totalProblems, a))
    ensures SteadyArea in r <==> r == [SteadyArea]
    ensures r == [SteadyArea] <==> !HasPriority(p, totalProblems)
  {
    var areas := FiredAreas(p, totalProblems);
    if areas == [] then [SteadyArea] else areas
  }

  /** The list `_identify_priority_areas` returns. */
  function PriorityAreaNames(p: ErrorPatterns, totalProblems: nat): (r: seq<string>)
    ensures |r| == |PriorityAreas(p, totalProblems)| > 0
  {
    var areas := PriorityAreas(p, totalProblems);
    seq(|areas|, k requires 0 <= k < |areas| => AreaName(areas[k]))
  }

  /** The entries `_get_specific_suggestions` can list. */
  datatype Suggestion =
    | FractionDrill | DecimalDrill | OrderOfOperations | AccuracyDrill | StepReasoning
    | Challenge | BackToBasics | KeepHabits

  /** Whether the error-count rule that lists `s` fires. */
  predicate ErrorRuleFires(p: ErrorPatterns, s: Suggestion) {
    match s
    case FractionDrill => p.fractionOperations > 0
    case DecimalDrill => p.decimalOperations > 0
    case OrderOfOperations => p.mixedOperations > 0
    case AccuracyDrill => p.calculationErrors > 0
    case StepReasoning => p.stepLogicErrors > 0
    case _ => false
  }

  /** Whether the accuracy rule (one `if`/`elif`) lists `s`. */
  predicate AccuracyRuleFires(accuracy: real, s: Suggestion) {
    match s
    case Challenge => accuracy >= 90.0
    case BackToBasics => accuracy < 60.0
    case _ => false
  }

  predicate SuggestionFires(p: ErrorPatterns, accuracy: real, s: Suggestion) {
    ErrorRuleFires(p, s) || AccuracyRuleFires(accuracy, s)
  }

  function SuggestionText(s: Suggestion): string {
    match s
    case FractionDrill => "加强分数的加减乘除运算练习，特别注意通分和约分"
    case DecimalDrill => "练习小数的四则运算，注意小数点位置的对齐"
    case OrderOfOperations => "复习运算顺序规则，先乘除后加减，有括号先算括号内"
    case AccuracyDrill => "提高计算准确性，建议多做基础计算练习"
    case StepReasoning => "注意解题步骤的逻辑性，每一步都要有明确的数学依据"
    case Challenge => "可以尝试更复杂的综合性题目来挑战自己"
    case BackToBasics => "建议从基础题目开始，逐步提高难度"
    case KeepHabits => "继续保持良好的学习习惯"
  }

  /** The suggestions of the five error-count rules, in rule order. */
  function ErrorSuggestions(p: ErrorPatterns): (r: seq<Suggestion>)
    ensures forall s :: s in r <==> ErrorRuleFires(p, s)
  {
    (if p.fractionOperations > 0 then [FractionDrill] else []) +
    (if p.decimalOperations > 0 then [DecimalDrill] else []) +
    (if p.mixedOperations > 0 then [OrderOfOperations] else []) +
    (if p.calculationErrors > 0 then [AccuracyDrill] else []) +
    (if p.stepLogicErrors > 0 then [StepReasoning] else [])
  }

  /** The suggestion of the accuracy rule, if any. */
  function AccuracySuggestion(accuracy: real): (r: seq<Suggestion>)
    ensures |r| <= 1
    ensures forall s :: s in r <==> AccuracyRuleFires(accuracy, s)
  {
    if accuracy >= 90.0 then [Challenge] else if accuracy < 60.0 then [BackToBasics] else []
  }

  /** `_get_specific_suggestions`: one suggestion per kind of error seen,
      one for very high or very low accuracy, or the single default. The
      concept-error count is not read. */
  function SpecificSuggestions(p: ErrorPatterns, accuracy: real): (r: seq<Suggestion>)
    ensures r != []
    ensures forall s :: s != KeepHabits ==> (s in r <==> SuggestionFires(p, accuracy, s))
    ensures KeepHabits in r <==> r == [KeepHabits]
    ensures r == [KeepHabits] <==> forall s :: !SuggestionFires(p, accuracy, s)
  {
    var suggestions := ErrorSuggestions(p) + AccuracySuggestion(accuracy);
    assert KeepHabits !in suggestions;
    assert suggestions != [] ==> SuggestionFires(p, accuracy, suggestions[0]);
    if suggestions == [] then [KeepHabits] else suggestions
  }

  /** The list `_get_specific_suggestions` returns. */
  function SuggestionTexts(p: ErrorPatterns, accuracy: real): (r: seq<string>)
    ensures |r| == |SpecificSuggestions(p, accuracy)| > 0
  {
    var suggestions := SpecificSuggestions(p, accuracy);
    seq(|suggestions|, k requires 0 <= k < |suggestions| => SuggestionText(suggestions[k]))
  }

  /** The suggestion that addresses a priority area. */
  function Addressing(a: Area): Option<Suggestion> {
    match a
    case FractionArea => Some(FractionDrill)
    case DecimalArea => Some(DecimalDrill)
    case MixedArea => Some(OrderOfOperations)
    case AccuracyArea => Some(AccuracyDrill)
    case StepLogicArea => Some(StepReasoning)
    case SteadyArea => None
  }

  /** Every priority area but the encouragement comes with a suggestion
      that addresses it: more than 30% calculation errors means at least
      one. */
  lemma PrioritiesHaveSuggestions(p: ErrorPatterns, totalProblems: nat, accuracy: real)
    ensures forall a :: a in PriorityAreas(p, totalProblems) && a != SteadyArea ==>
              Addressing(a).Some? && Addressing(a).value in SpecificSuggestions(p, accuracy)
  {
    if ManyCalculationErrors(p, totalProblems) {
      assert p.calculationErrors > 0;
    }
  }

  const RecoverySteps: seq<string> := ["1. 复习基础概念和运算法则", "2. 每天完成基础计算练习", "3. 重点关注错误题目的解题方法"]
  const ConsolidationSteps: seq<string> := ["1. 针对错误题目进行专项练习", "2. 提高计算准确性和速度", "3. 加强混合运算的练习"]
  const ExtensionSteps: seq<string> := ["1. 保持当前良好的学习状态", "2. 可以尝试更有挑战性的题目", "3. 帮助同学解答疑问，巩固知识"]

  /** `_get_next_steps`: three numbered steps for accuracy below 60, below
      80, or at least 80. The number of problems is not read. */
  function NextSteps(accuracy: real, totalProblems: nat): (r: seq<string>)
    ensures |r| == 3
    ensures forall k :: 0 <= k < 3 ==> StartsWith(r[k], [DigitChar(k + 1), '.', ' '])
    ensures r == RecoverySteps <==> accuracy < 60.0
    ensures r == ConsolidationSteps <==> 60.0 <= accuracy < 80.0
    ensures r == ExtensionSteps <==> accuracy >= 80.0
  {
    if accuracy < 60.0 then RecoverySteps
    else if accuracy < 80.0 then ConsolidationSteps
    else ExtensionSteps
  }

  /** The next steps agree with the assessment band: recovery for the
      lowest band, extension for the two best. */
  lemma NextStepsFollowAssessment(accuracy: real, totalProblems: nat)
    ensures NextSteps(accuracy, totalProblems) == RecoverySteps <==> OverallAssessment(accuracy) == AssessmentTexts[3]
    ensures NextSteps(accuracy, totalProblems) == ExtensionSteps <==> OverallAssessment(accuracy) in AssessmentTexts[..2]
  {
  }

  // ---------------------------------------------------------------------
  // Question type detection

  /** `[A-D][\.\)]` or `[a-d][\.\)]` at position `i`. */
  predicate OptionLabelAt(text: string, i: nat)
    requires i + 1 < |text|
  {
    ('A' <= text[i] <= 'D' || 'a' <= text[i] <= 'd') && (text[i + 1] == '.' || text[i + 1] == ')')
  }

  predicate HasOptionLabel(text: string) {
    exists i: nat :: i + 1 < |text| && OptionLabelAt(text, i)
  }

  /** `a` starts at `i` and `b` at `j`, with no line break between them. */
  predicate OnOneLineAt(text: string, a: string, b: string, i: nat, j: nat) {
    i + |a| <= j && j + |b| <= |text| && text[i..i + |a|] == a && text[j..j + |b|] == b &&
    '\n' !in text[i + |a|..j]
  }

  /** `re.search(a + '.*?' + b, text)`: `.` does not match a line break. */
  predicate OnOneLine(text: string, a: string, b: string) {
    exists i: nat, j: nat :: i <= |text| && j <= |text| && OnOneLineAt(text, a, b, i, j)
  }

  /** A pattern of `choice_patterns` occurs in the text. */
  predicate LooksLikeChoice(text: string) {
    HasOptionLabel(text) || Contains(text, "选择") || OnOneLine(text, "下列", "正确") ||
    OnOneLine(text, "哪个", "是")
  }

  /** `_detect_question_type`: the choice patterns are tried first; the
      calculation patterns cannot change the outcome, since the default is
      `calculation` too. */
  function DetectQuestionType(text: string): (r: string)
    ensures r == "choice" || r == "calculation"
    ensures r == "choice" <==> LooksLikeChoice(text)
  {
    if LooksLikeChoice(text) then "choice" else "calculation"
  }

  /** An option label such as `B.` anywhere makes a choice question, even
      in a text that also asks to calculate. */
  lemma OptionLabelMeansChoice(pre: string, letter: char, mark: char, post: string)
    requires 'A' <= letter <= 'D' || 'a' <= letter <= 'd'
    requires mark == '.' || mark == ')'
    ensures DetectQuestionType(pre + [letter, mark] + post) == "choice"
  {
    var text := pre + [letter, mark] + post;
    assert text[|pre|] == letter && text[|pre| + 1] == mark;
    assert OptionLabelAt(text, |pre|);
  }
}
