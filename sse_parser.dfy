/** The Server-Sent Events tool: a line parser, a stream parser that
    assembles events between blank lines, and a concatenator that joins the
    streamed `choices[*].delta.content` fragments of a chat-completion
    response into one JSON object. */
module SseParser {
  import opened Wrappers
  import opened Strings
  import opened Collections

  // ---------------------------------------------------------------------
  // Lines
  // ---------------------------------------------------------------------

  /** One event: its data and the optional event name, id and retry delay. */
  datatype SseEvent = SseEvent(data: string, event: Option<string>, id: Option<string>, retry: Option<int>)

  /** The event `parse_sse_stream` starts from: empty data, nothing else. */
  const NoEvent := SseEvent("", None, None, None)

  /** A parsed line fills in at most one field. */
  predicate SingleField(e: SseEvent) {
    (e.data != [] ==> e.event.None? && e.id.None? && e.retry.None?) &&
    (e.event.Some? ==> e.data == [] && e.id.None? && e.retry.None?) &&
    (e.id.Some? ==> e.data == [] && e.event.None? && e.retry.None?) &&
    (e.retry.Some? ==> e.data == [] && e.event.None? && e.id.None?)
  }

  /** The field a `field: value` line names, once both sides are stripped. */
  function FieldEvent(field: string, value: string): Option<SseEvent> {
    if field == "data" then Some(SseEvent(value, None, None, None))
    else if field == "event" then Some(SseEvent("", Some(value), None, None))
    else if field == "id" then Some(SseEvent("", None, Some(value), None))
    else if field == "retry" then
      match ParseInt(value)
      case Some(n) => Some(SseEvent("", None, None, Some(n)))
      case None => None
    else None
  }

  /** `parse_sse_line`: nothing for a blank line; a line without a colon is
      data; otherwise the line is split at its first colon into a field
      name and a value, and only `data`, `event`, `id` and a `retry` that
      parses as an integer give an event. */
  function ParseLine(line: string): (r: Option<SseEvent>)
    ensures IsBlank(line) ==> r.None?
    ensures r.Some? ==> SingleField(r.value)
    ensures ':' !in Trim(line) && !IsBlank(line) ==> r.Some? && r.value.data != []
  {
    var t := Trim(line);
    if t == [] then None
    else
      FindCharPrefixAvoids(t, ':');
      match Find(t, ":")
      case None => Some(SseEvent(t, None, None, None))
      case Some(c) => FieldEvent(Trim(t[..c]), Trim(t[c + 1..]))
  }

  /** Stripping `name: value` only drops the space after the colon when
      the value is empty. */
  lemma TrimFieldLine(name: string, value: string)
    requires Trim(name) == name && Trim(value) == value
    ensures Trim(name + ": " + value) == if value == [] then name + ":" else name + ": " + value
  {
    var line := name + ": " + value;
    if value == [] {
      var h := name + ":";
      assert line == h + " " && !IsSpace(h[0]);
      assert TrimStart(line) == line;
      TrimEndDropsSpace(h, ' ');
      TrimOfTrimmed(h);
    } else {
      assert !IsSpace(line[0]) && line[|line| - 1] == value[|value| - 1];
      TrimOfTrimmed(line);
    }
  }

  /** The first colon of `name:...` is the one after a colon-free name. */
  lemma FirstColonAfter(name: string, t: string)
    requires ':' !in name && |t| > |name| && t[..|name|] == name && t[|name|] == ':'
    ensures Find(t, ":") == Some(|name|)
  {
    FindFirstChar(t, ':', |name|);
  }

  /** The value after `: ` is stripped of the space. */
  lemma TrimAfterColon(value: string)
    requires Trim(value) == value
    ensures Trim(" " + value) == value
  {
    assert (" " + value)[1..] == value;
    assert TrimStart(" " + value) == TrimStart(value);
  }

  /** A `name: value` line, with a name free of colons and both parts
      without surrounding whitespace, is split between the name and the
      value, whatever colons the value holds. */
  lemma SplitFieldLine(name: string, value: string)
    requires ':' !in name && Trim(name) == name && Trim(value) == value
    ensures var t := Trim(name + ": " + value);
            Find(t, ":") == Some(|name|) && Trim(t[..|name|]) == name && Trim(t[|name| + 1..]) == value
  {
    TrimFieldLine(name, value);
    var t := Trim(name + ": " + value);
    assert t[..|name|] == name && t[|name|] == ':';
    FirstColonAfter(name, t);
    if value != [] {
      assert t[|name| + 1..] == " " + value;
      TrimAfterColon(value);
    } else {
      assert t[|name| + 1..] == [];
    }
  }

  /** A `name: value` line means what its name and value mean. */
  lemma FieldLineParses(name: string, value: string)
    requires ':' !in name && Trim(name) == name && Trim(value) == value
    ensures !IsBlank(name + ": " + value)
    ensures ParseLine(name + ": " + value) == FieldEvent(name, value)
  {
    TrimFieldLine(name, value);
    SplitFieldLine(name, value);
  }

  /** `data: v`, `event: v` and `id: v` put `v` in their field; a value
      may hold colons of its own. */
  lemma FieldLineSetsField(name: string, value: string)
    requires name == "data" || name == "event" || name == "id"
    requires Trim(value) == value
    ensures name == "data" ==> ParseLine(name + ": " + value) == Some(SseEvent(value, None, None, None))
    ensures name == "event" ==> ParseLine(name + ": " + value) == Some(SseEvent("", Some(value), None, None))
    ensures name == "id" ==> ParseLine(name + ": " + value) == Some(SseEvent("", None, Some(value), None))
  {
    FieldLineParses(name, value);
  }

  /** `retry: n` sets the retry delay to `n`. */
  lemma RetryLineSetsRetry(n: nat)
    ensures ParseLine("retry: " + NatToString(n)) == Some(SseEvent("", None, None, Some(n)))
  {
    var v := NatToString(n);
    assert IsDigit(v[0]) && IsDigit(v[|v| - 1]);
    TrimOfTrimmed(v);
    TrimOfTrimmed("retry");
    FieldLineParses("retry", v);
    ParseIntOfNat(n);
    RetryFieldEvent(v, n);
    assert "retry" + ": " == "retry: ";
  }

  lemma RetryFieldEvent(value: string, n: int)
    requires ParseInt(value) == Some(n)
    ensures FieldEvent("retry", value) == Some(SseEvent("", None, None, Some(n)))
  {
    assert "retry" != "data" && "retry" != "event" && "retry" != "id";
  }

  /** A retry value that is not an integer, and any field other than the
      four known ones (a comment line `: text` among them), give nothing. */
  lemma IgnoredLines(name: string, value: string)
    requires ':' !in name && Trim(name) == name && Trim(value) == value
    requires name != "data" && name != "event" && name != "id"
    requires name == "retry" ==> ParseInt(value).None?
    ensures ParseLine(name + ": " + value) == None
  {
    FieldLineParses(name, value);
  }

  // ---------------------------------------------------------------------
  // The stream
  // ---------------------------------------------------------------------

  /** The event being built after a line that parsed as `e`: only the
      fields `e` gives a truthy value (a non-empty string, a non-zero
      retry) are copied. */
  function Absorbed(cur: SseEvent, e: SseEvent): SseEvent {
    SseEvent(
      if e.data != [] then e.data else cur.data,
      if e.event.Some? && e.event.value != [] then e.event else cur.event,
      if e.id.Some? && e.id.value != [] then e.id else cur.id,
      if e.retry.Some? && e.retry.value != 0 then e.retry else cur.retry)
  }

  /** The event under construction in `parse_sse_stream`, whose fields each
      line updates in place. */
  class EventBuilder {
    var data: string
    var event: Option<string>
    var id: Option<string>
    var retry: Option<int>

    function Current(): SseEvent
      reads this
    {
      SseEvent(data, event, id, retry)
    }

    constructor()
      ensures Current() == NoEvent
    {
      data := "";
      event := None;
      id := None;
      retry := None;
    }

    /** Copies the fields the parsed line `e` sets. */
    method Absorb(e: SseEvent)
      modifies this
      ensures Current() == Absorbed(old(Current()), e)
    {
      if e.data != [] {
        data := e.data;
      }
      if e.event.Some? && e.event.value != [] {
        event := e.event;
      }
      if e.id.Some? && e.id.value != [] {
        id := e.id;
      }
      if e.retry.Some? && e.retry.value != 0 {
        retry := e.retry;
      }
    }
  }

  /** The event under construction and the events emitted so far. */
  datatype ScanState = ScanState(pending: SseEvent, emitted: seq<SseEvent>)

  /** One line of the stream: a blank line emits the pending event if its
      data is non-empty and starts a new one; any other line is parsed and
      absorbed. */
  function ScanLine(s: ScanState, line: string): ScanState {
    if IsBlank(line) then
      if s.pending.data != [] then ScanState(NoEvent, s.emitted + [s.pending]) else s
    else
      match ParseLine(line)
      case None => s
      case Some(e) => ScanState(Absorbed(s.pending, e), s.emitted)
  }

  /** The state after the given lines. */
  function Scan(lines: seq<string>): ScanState
    decreases |lines|
  {
    if lines == [] then ScanState(NoEvent, [])
    else ScanLine(Scan(lines[..|lines| - 1]), lines[|lines| - 1])
  }

  /** What `parse_sse_stream` yields: the stream is cut at every `\n`, and
      an event still under construction at the end is dropped. */
  function StreamEvents(stream: string): (r: seq<SseEvent>)
    ensures forall k :: 0 <= k < |r| ==> r[k].data != []
    ensures |r| <= BlankLines(Split(stream, "\n"))
  {
    EmittedHaveData(Split(stream, "\n"));
    EventsNeedBlankLines(Split(stream, "\n"));
    Scan(Split(stream, "\n")).emitted
  }

  /** `parse_sse_stream`, collected into a list. */
  method ParseStream(stream: string) returns (events: seq<SseEvent>)
    ensures events == StreamEvents(stream)
    ensures forall k :: 0 <= k < |events| ==> events[k].data != []
  {
    var lines := Split(stream, "\n");
    var current := new EventBuilder();
    events := [];
    for i := 0 to |lines|
      invariant fresh(current)
      invariant Scan(lines[..i]) == ScanState(current.Current(), events)
    {
      PrefixSnoc(lines, i);
      assert (lines[..i] + [lines[i]])[..i] == lines[..i];
      var line := lines[i];
      if IsBlank(line) {
        if current.data != [] {
          events := events + [current.Current()];
          current := new EventBuilder();
        }
      } else {
        var e := ParseLine(line);
        if e.Some? {
          current.Absorb(e.value);
        }
      }
    }
    assert lines[..|lines|] == lines;
    EmittedHaveData(lines);
  }

  /** Every emitted event has data. */
  lemma {:induction false} EmittedHaveData(lines: seq<string>)
    ensures forall k :: 0 <= k < |Scan(lines).emitted| ==> Scan(lines).emitted[k].data != []
    decreases |lines|
  {
    if lines != [] {
      EmittedHaveData(lines[..|lines| - 1]);
    }
  }

  /** The number of blank lines. */
  function BlankLines(lines: seq<string>): nat
    decreases |lines|
  {
    if lines == [] then 0
    else BlankLines(lines[..|lines| - 1]) + (if IsBlank(lines[|lines| - 1]) then 1 else 0)
  }

  /** Only a blank line emits, and at most one event: a stream without a
      blank line yields nothing, however much data it carries. */
  lemma {:induction false} EventsNeedBlankLines(lines: seq<string>)
    ensures |Scan(lines).emitted| <= BlankLines(lines)
    decreases |lines|
  {
    if lines != [] {
      EventsNeedBlankLines(lines[..|lines| - 1]);
    }
  }

  /** The data of a line: what a `data` line or a colon-free line holds. */
  function LineData(line: string): string {
    match ParseLine(line)
    case Some(e) => e.data
    case None => ""
  }

  /** The data of the last line of `block` that has some. */
  function LastData(block: seq<string>): string
    decreases |block|
  {
    if block == [] then ""
    else if LineData(block[|block| - 1]) != [] then LineData(block[|block| - 1])
    else LastData(block[..|block| - 1])
  }

  /** The state after one more line. */
  lemma ScanSnoc(lines: seq<string>, line: string)
    ensures Scan(lines + [line]) == ScanLine(Scan(lines), line)
  {
    assert (lines + [line])[..|lines|] == lines;
  }

  /** A non-blank line emits nothing and sets the data it holds, if any. */
  lemma ScanDataLine(s: ScanState, line: string)
    requires !IsBlank(line)
    ensures ScanLine(s, line).emitted == s.emitted
    ensures ScanLine(s, line).pending.data == if LineData(line) != [] then LineData(line) else s.pending.data
  {
  }

  /** Within a run of non-blank lines a later data line overwrites the data
      of an earlier one rather than being appended to it, and nothing is
      emitted. */
  lemma {:induction false} LastDataLineWins(pre: seq<string>, block: seq<string>)
    requires forall k :: 0 <= k < |block| ==> !IsBlank(block[k])
    ensures Scan(pre + block).emitted == Scan(pre).emitted
    ensures Scan(pre + block).pending.data ==
            if LastData(block) != [] then LastData(block) else Scan(pre).pending.data
    decreases |block|
  {
    if block != [] {
      var b := block[..|block| - 1];
      var line := block[|block| - 1];
      assert block == b + [line];
      assert pre + block == (pre + b) + [line];
      assert forall k :: 0 <= k < |b| ==> b[k] == block[k];
      LastDataLineWins(pre, b);
      ScanSnoc(pre + b, line);
      ScanDataLine(Scan(pre + b), line);
    } else {
      assert pre + block == pre;
    }
  }

  /** So the event a blank line closes carries the data of the last data
      line before it. */
  lemma EventCarriesLastData(pre: seq<string>, block: seq<string>)
    requires forall k :: 0 <= k < |block| ==> !IsBlank(block[k])
    requires LastData(block) != []
    ensures |Scan(pre + block + [""]).emitted| == |Scan(pre).emitted| + 1
    ensures Scan(pre + block + [""]).emitted[|Scan(pre).emitted|].data == LastData(block)
  {
    LastDataLineWins(pre, block);
    ScanSnoc(pre + block, "");
  }

  /** Blank lines while no data is pending change nothing: an event name or
      id set before them carries over to the next event. */
  lemma {:induction false} DatalessBlankLinesKeepState(lines: seq<string>, blanks: seq<string>)
    requires Scan(lines).pending.data == []
    requires forall k :: 0 <= k < |blanks| ==> IsBlank(blanks[k])
    ensures Scan(lines + blanks) == Scan(lines)
    decreases |blanks|
  {
    if blanks != [] {
      var b := blanks[..|blanks| - 1];
      var line := blanks[|blanks| - 1];
      assert blanks == b + [line];
      assert lines + blanks == (lines + b) + [line];
      assert forall k :: 0 <= k < |b| ==> b[k] == blanks[k];
      DatalessBlankLinesKeepState(lines, b);
      ScanSnoc(lines + b, line);
    } else {
      assert lines + blanks == lines;
    }
  }

  /** A non-blank line that parses to nothing, or to nothing truthy, leaves
      the state as it was. */
  lemma IgnoredLineKeepsState(lines: seq<string>, line: string)
    requires !IsBlank(line)
    requires ParseLine(line).Some? ==> Absorbed(Scan(lines).pending, ParseLine(line).value) == Scan(lines).pending
    ensures Scan(lines + [line]) == Scan(lines)
  {
    ScanSnoc(lines, line);
  }

  /** A field with an empty value leaves the event under construction as
      it was. */
  lemma EmptyValueChangesNothing(lines: seq<string>, name: string)
    requires name == "data" || name == "event" || name == "id"
    ensures Scan(lines + [name + ": "]) == Scan(lines)
  {
    FieldLineParses(name, "");
    assert name + ": " + "" == name + ": ";
    IgnoredLineKeepsState(lines, name + ": ");
  }

  /** `retry: 0` leaves the event under construction as it was. */
  lemma ZeroRetryChangesNothing(lines: seq<string>)
    ensures Scan(lines + ["retry: 0"]) == Scan(lines)
  {
    RetryLineSetsRetry(0);
    assert NatToString(0) == "0";
    assert "retry: " + "0" == "retry: 0";
    IgnoredLineKeepsState(lines, "retry: 0");
  }

  // ---------------------------------------------------------------------
  // JSON values and dictionaries
  // ---------------------------------------------------------------------

  /** A decoded JSON value; an object keeps its members in document order. */
  datatype Json =
    | JNull
    | JBool(b: bool)
    | JNum(n: real)
    | JStr(s: string)
    | JArr(items: seq<Json>)
    | JObj(members: seq<(string, Json)>)

  /** `obj[name]` on a decoded object: the value of the last member with
      that name, as `json.loads` keeps the last of repeated names. */
  function Get(members: seq<(string, Json)>, name: string): Option<Json>
    decreases |members|
  {
    if members == [] then None
    else if members[|members| - 1].0 == name then Some(members[|members| - 1].1)
    else Get(members[..|members| - 1], name)
  }

  /** A member is found exactly when one has that name, and what is found
      is the value of such a member. */
  lemma {:induction false} GetFinds(members: seq<(string, Json)>, name: string)
    ensures Get(members, name).Some? ==> (name, Get(members, name).value) in members
    ensures Get(members, name).None? <==> forall i :: 0 <= i < |members| ==> members[i].0 != name
    decreases |members|
  {
    if members != [] {
      var p := members[..|members| - 1];
      GetFinds(p, name);
      if Get(members, name).None? {
        forall i | 0 <= i < |members|
          ensures members[i].0 != name
        {
          if i < |p| {
            assert members[i] == p[i];
          }
        }
      }
    }
  }

  /** A dictionary the concatenator builds: its keys in insertion order
      and their values. */
  datatype Dict = Dict(keys: seq<string>, values: map<string, Json>)

  const EmptyDict := Dict([], map[])

  predicate ValidDict(d: Dict) {
    Distinct(d.keys) && (forall k :: k in d.keys ==> k in d.values) && (forall k :: k in d.values ==> k in d.keys)
  }

  /** `d[k] = v`: a new key goes last, an old one keeps its place. */
  function Put(d: Dict, k: string, v: Json): (r: Dict)
  {
    Dict(if k in d.values then d.keys else d.keys + [k], d.values[k := v])
  }

  function Lookup(d: Dict, k: string): Option<Json> {
    if k in d.values then Some(d.values[k]) else None
  }

  /** The dictionary as a JSON object. */
  function Members(d: Dict): seq<(string, Json)>
    requires ValidDict(d)
  {
    seq(|d.keys|, i requires 0 <= i < |d.keys| => (d.keys[i], d.values[d.keys[i]]))
  }

  /** Reading a member of the built object gives the dictionary's value. */
  lemma GetMembers(d: Dict, k: string)
    requires ValidDict(d)
    ensures Get(Members(d), k) == Lookup(d, k)
  {
    var m := Members(d);
    GetFinds(m, k);
    if k in d.values {
      var i :| 0 <= i < |d.keys| && d.keys[i] == k;
      assert m[i].0 == k;
    }
    if Get(m, k).Some? {
      var i :| 0 <= i < |m| && m[i] == (k, Get(m, k).value);
    }
  }

  /** The dictionary `json.loads` builds from an object's members: a name
      repeated in the document keeps its first place and its last value. */
  function ObjectDict(members: seq<(string, Json)>): (r: Dict)
    ensures ValidDict(r)
    ensures forall k :: Lookup(r, k) == Get(members, k)
    decreases |members|
  {
    if members == [] then EmptyDict
    else
      var (k, v) := members[|members| - 1];
      Put(ObjectDict(members[..|members| - 1]), k, v)
  }

  /** `obj.items()` of a decoded object: each name once, with its last value. */
  function Items(members: seq<(string, Json)>): seq<(string, Json)> {
    Members(ObjectDict(members))
  }

  /** No name occurs twice. */
  predicate NamesDistinct(items: seq<(string, Json)>) {
    forall i, j :: 0 <= i < j < |items| ==> items[i].0 != items[j].0
  }

  /** The items of a decoded object name each member once, and reading a
      name from them reads the last member of that name in the document. */
  lemma ItemsOfObject(members: seq<(string, Json)>, k: string)
    ensures NamesDistinct(Items(members))
    ensures Get(Items(members), k) == Get(members, k)
  {
    var d := ObjectDict(members);
    GetMembers(d, k);
    assert forall i :: 0 <= i < |d.keys| ==> Items(members)[i].0 == d.keys[i];
  }

  // ---------------------------------------------------------------------
  // The concatenator, as a specification
  // ---------------------------------------------------------------------

  /** A string value, or nothing for a value that is not one. */
  function Text(v: Json): string {
    if v.JStr? then v.s else ""
  }

  /** The text held under `content`, or nothing. */
  function ContentOf(d: Dict): string {
    match Lookup(d, "content")
    case Some(JStr(s)) => s
    case _ => ""
  }

  /** Content, when present, is text. */
  predicate ContentIsText(d: Dict) {
    Lookup(d, "content").Some? ==> Lookup(d, "content").value.JStr?
  }

  /** Merging the items of one `delta`: `content` fragments are appended
      to the text so far, any other key is overwritten. */
  function MergeDelta(delta: Dict, items: seq<(string, Json)>): (r: Dict)
    decreases |items|
  {
    if items == [] then delta
    else
      var d := MergeDelta(delta, items[..|items| - 1]);
      var (k, v) := items[|items| - 1];
      if k == "content" then Put(d, "content", JStr(ContentOf(d) + Text(v))) else Put(d, k, v)
  }

  /** What the concatenator keeps for one choice index. */
  datatype ChoiceAcc = ChoiceAcc(index: Json, delta: Dict, logprobs: Json, finishReason: Json)

  predicate ValidChoice(c: ChoiceAcc) {
    ValidDict(c.delta) && ContentIsText(c.delta)
  }

  /** The record a choice index starts with. */
  function NewChoice(index: Json): ChoiceAcc {
    ChoiceAcc(index, EmptyDict, JNull, JNull)
  }

  /** Merging one choice object into its index's record. */
  function AbsorbChoice(cur: ChoiceAcc, c: seq<(string, Json)>): (r: ChoiceAcc)
  {
    ChoiceAcc(cur.index,
      match Get(c, "delta") case Some(JObj(d)) => MergeDelta(cur.delta, Items(d)) case _ => cur.delta,
      Get(c, "logprobs").GetOr(cur.logprobs),
      Get(c, "finish_reason").GetOr(cur.finishReason))
  }

  /** The dictionary key an index value becomes: `True` and `False` are the
      keys 1 and 0; arrays and objects cannot be keys. */
  function HashKey(index: Json): Option<Json> {
    match index
    case JBool(b) => Some(JNum(if b then 1.0 else 0.0))
    case JArr(_) => None
    case JObj(_) => None
    case _ => Some(index)
  }

  /** The key of a choice that is an object with an index. */
  function ChoiceKey(c: Json): (r: Option<Json>)
    ensures r.Some? ==> c.JObj? && Get(c.members, "index").Some?
  {
    if c.JObj? then
      match Get(c.members, "index")
      case Some(index) => HashKey(index)
      case None => None
    else None
  }

  /** The `choices` array of a decoded event, if it has one. */
  function EventChoices(j: Json): seq<Json> {
    if j.JObj? then
      match Get(j.members, "choices")
      case Some(JArr(cs)) => cs
      case _ => []
    else []
  }

  /** The top-level dictionary, the choice keys in first-seen order and the
      record of each. */
  datatype Acc = Acc(top: Dict, order: seq<Json>, table: map<Json, ChoiceAcc>)

  predicate ValidAcc(a: Acc) {
    ValidDict(a.top) && Lookup(a.top, "choices").None? &&
    Distinct(a.order) && (forall k :: k in a.order ==> k in a.table) && (forall k :: k in a.table ==> k in a.order) &&
    forall k :: k in a.table ==> ValidChoice(a.table[k])
  }

  const NoAcc := Acc(EmptyDict, [], map[])

  /** Merging one element of a `choices` array. */
  function MergeChoice(a: Acc, c: Json): (r: Acc)
  {
    match ChoiceKey(c)
    case None => a
    case Some(key) =>
      var cur := if key in a.table then a.table[key] else NewChoice(Get(c.members, "index").value);
      Acc(a.top, if key in a.table then a.order else a.order + [key],
          a.table[key := AbsorbChoice(cur, c.members)])
  }

  function MergeChoices(a: Acc, cs: seq<Json>): (r: Acc)
    decreases |cs|
  {
    if cs == [] then a else MergeChoice(MergeChoices(a, cs[..|cs| - 1]), cs[|cs| - 1])
  }

  /** Merging the top-level members of an event other than `choices`. */
  function MergeTop(top: Dict, members: seq<(string, Json)>): (r: Dict)
    decreases |members|
  {
    if members == [] then top
    else
      var d := MergeTop(top, members[..|members| - 1]);
      var (k, v) := members[|members| - 1];
      if k == "choices" then d else Put(d, k, v)
  }

  /** The decoded object an event carries, if its data decodes to one. */
  function EventObject(e: SseEvent, decode: string -> Option<Json>): Option<seq<(string, Json)>> {
    if e.data == [] then None
    else
      match decode(e.data)
      case Some(JObj(m)) => Some(m)
      case _ => None
  }

  function MergeEvent(a: Acc, e: SseEvent, decode: string -> Option<Json>): (r: Acc)
  {
    match EventObject(e, decode)
    case None => a
    case Some(m) =>
      var b := MergeChoices(a, EventChoices(JObj(m)));
      Acc(MergeTop(b.top, Items(m)), b.order, b.table)
  }

  function MergeEvents(events: seq<SseEvent>, decode: string -> Option<Json>): (r: Acc)
    decreases |events|
  {
    if events == [] then NoAcc
    else MergeEvent(MergeEvents(events[..|events| - 1], decode), events[|events| - 1], decode)
  }

  /** One choice record as the object the result lists. */
  function ChoiceJson(c: ChoiceAcc): Json
    requires ValidDict(c.delta)
  {
    JObj([("index", c.index), ("delta", JObj(Members(c.delta))), ("logprobs", c.logprobs),
          ("finish_reason", c.finishReason)])
  }

  /** The result object: the top-level members, then `choices` if any
      choice was seen. */
  function Assemble(a: Acc): (r: Json)
    requires ValidAcc(a)
    ensures r.JObj? && NamesDistinct(r.members)
  {
    var choices := seq(|a.order|, i requires 0 <= i < |a.order| => ChoiceJson(a.table[a.order[i]]));
    var m := Members(a.top);
    assert forall i :: 0 <= i < |m| ==> m[i].0 == a.top.keys[i] && m[i].0 in a.top.values;
    JObj(m + if a.order == [] then [] else [("choices", JArr(choices))])
  }

  /** A choice that stops the concatenator with an exception: an index that
      cannot be a dictionary key, or a `delta` whose `content` is not text. */
  predicate ChoiceCrashes(c: Json) {
    c.JObj? &&
    match Get(c.members, "index")
    case None => false
    case Some(index) =>
      HashKey(index).None? ||
      match Get(c.members, "delta")
      case Some(JObj(d)) => Get(d, "content").Some? && !Get(d, "content").value.JStr?
      case _ => false
  }

  /** Some `content` item is not text. */
  predicate BadContent(items: seq<(string, Json)>)
    decreases |items|
  {
    items != [] &&
    (BadContent(items[..|items| - 1]) ||
     (items[|items| - 1].0 == "content" && !items[|items| - 1].1.JStr?))
  }

  /** Some choice crashes. */
  predicate AnyChoiceCrashes(cs: seq<Json>)
    decreases |cs|
  {
    cs != [] && (AnyChoiceCrashes(cs[..|cs| - 1]) || ChoiceCrashes(cs[|cs| - 1]))
  }

  /** An event that stops the concatenator: its data decodes to something
      other than an object, or one of its choices crashes. */
  predicate EventCrashes(e: SseEvent, decode: string -> Option<Json>) {
    e.data != [] &&
    match decode(e.data)
    case None => false
    case Some(j) => !j.JObj? || AnyChoiceCrashes(EventChoices(j))
  }

  /** The exception data that is not an object raises. `'choices' in data`
      is a substring test on a string and an element test on an array, and
      raises on anything else; a string or array holding `choices` then
      fails at `data['choices']`, and one without it at `data.items()`. */
  function DataError(j: Json): (r: string)
    requires !j.JObj?
    ensures r == "AttributeError" <==> (j.JStr? && !Contains(j.s, "choices")) || (j.JArr? && JStr("choices") !in j.items)
  {
    match j
    case JStr(t) => if Contains(t, "choices") then "TypeError" else "AttributeError"
    case JArr(xs) => if JStr("choices") in xs then "TypeError" else "AttributeError"
    case _ => "TypeError"
  }

  /** The exception a crashing event raises: that of its data when it is
      not an object, else the `TypeError` of a choice. */
  function EventError(e: SseEvent, decode: string -> Option<Json>): (r: string)
    requires EventCrashes(e, decode)
    ensures r == "TypeError" || r == "AttributeError"
  {
    var j := decode(e.data).value;
    if j.JObj? then "TypeError" else DataError(j)
  }

  /** Some event crashes. */
  predicate AnyCrash(events: seq<SseEvent>, decode: string -> Option<Json>)
    decreases |events|
  {
    events != [] && (AnyCrash(events[..|events| - 1], decode) || EventCrashes(events[|events| - 1], decode))
  }

  /** The exception of the first event that crashes. */
  function CrashError(events: seq<SseEvent>, decode: string -> Option<Json>): (r: string)
    requires AnyCrash(events, decode)
    ensures r == "TypeError" || r == "AttributeError"
    decreases |events|
  {
    var p := events[..|events| - 1];
    if AnyCrash(p, decode) then CrashError(p, decode) else EventError(events[|events| - 1], decode)
  }

  /** What `concatenate_sse_data` returns for the events of a stream. */
  function Concatenate(events: seq<SseEvent>, decode: string -> Option<Json>): (r: Result<Json>)
    ensures r.Failure? ==> r.error == "TypeError" || r.error == "AttributeError"
    ensures r.Success? ==> r.value.JObj? && NamesDistinct(r.value.members)
  {
    if AnyCrash(events, decode) then Failure(CrashError(events, decode))
    else
      MergeEventsValid(events, decode);
      Success(Assemble(MergeEvents(events, decode)))
  }

  lemma PutValid(d: Dict, k: string, v: Json)
    requires ValidDict(d)
    ensures ValidDict(Put(d, k, v))
  {
  }

  lemma {:induction false} MergeDeltaValid(delta: Dict, items: seq<(string, Json)>)
    requires ValidDict(delta) && ContentIsText(delta)
    ensures ValidDict(MergeDelta(delta, items)) && ContentIsText(MergeDelta(delta, items))
    decreases |items|
  {
    if items != [] {
      var d := MergeDelta(delta, items[..|items| - 1]);
      MergeDeltaValid(delta, items[..|items| - 1]);
      var (k, v) := items[|items| - 1];
      if k == "content" {
        PutValid(d, "content", JStr(ContentOf(d) + Text(v)));
      } else {
        PutValid(d, k, v);
      }
    }
  }

  lemma MergeChoiceValid(a: Acc, c: Json)
    requires ValidAcc(a)
    ensures ValidAcc(MergeChoice(a, c))
  {
    match ChoiceKey(c)
    case None =>
    case Some(key) =>
      var cur := if key in a.table then a.table[key] else NewChoice(Get(c.members, "index").value);
      match Get(c.members, "delta")
      case Some(JObj(d)) => MergeDeltaValid(cur.delta, Items(d));
      case _ =>
  }

  lemma {:induction false} MergeChoicesValid(a: Acc, cs: seq<Json>)
    requires ValidAcc(a)
    ensures ValidAcc(MergeChoices(a, cs))
    decreases |cs|
  {
    if cs != [] {
      MergeChoicesValid(a, cs[..|cs| - 1]);
      MergeChoiceValid(MergeChoices(a, cs[..|cs| - 1]), cs[|cs| - 1]);
    }
  }

  lemma {:induction false} MergeTopValid(top: Dict, members: seq<(string, Json)>)
    requires ValidDict(top) && Lookup(top, "choices").None?
    ensures ValidDict(MergeTop(top, members)) && Lookup(MergeTop(top, members), "choices").None?
    decreases |members|
  {
    if members != [] {
      var d := MergeTop(top, members[..|members| - 1]);
      MergeTopValid(top, members[..|members| - 1]);
      var (k, v) := members[|members| - 1];
      if k != "choices" {
        PutValid(d, k, v);
      }
    }
  }

  lemma {:induction false} MergeEventsValid(events: seq<SseEvent>, decode: string -> Option<Json>)
    ensures ValidAcc(MergeEvents(events, decode))
    decreases |events|
  {
    if events != [] {
      var a := MergeEvents(events[..|events| - 1], decode);
      MergeEventsValid(events[..|events| - 1], decode);
      match EventObject(events[|events| - 1], decode)
      case None =>
      case Some(m) =>
        MergeChoicesValid(a, EventChoices(JObj(m)));
        var b := MergeChoices(a, EventChoices(JObj(m)));
        MergeTopValid(b.top, Items(m));
    }
  }

  // ---------------------------------------------------------------------
  // The concatenator
  // ---------------------------------------------------------------------

  /** The loop over the items of one `delta`: a fragment that is not text
      cannot be appended and raises. */
  method MergeDeltaItems(delta: Dict, items: seq<(string, Json)>) returns (r: Dict, crashed: bool)
    ensures crashed <==> BadContent(items)
    ensures !crashed ==> r == MergeDelta(delta, items)
  {
    r := delta;
    for i := 0 to |items|
      invariant r == MergeDelta(delta, items[..i])
      invariant !BadContent(items[..i])
    {
      PrefixSnoc(items, i);
      assert (items[..i] + [items[i]])[..i] == items[..i];
      var (k, v) := items[i];
      if k == "content" {
        if !v.JStr? {
          BadContentPersists(items, i, |items|);
          assert items[..|items|] == items;
          return r, true;
        }
        r := Put(r, "content", JStr(ContentOf(r) + v.s));
      } else {
        r := Put(r, k, v);
      }
    }
    assert items[..|items|] == items;
    crashed := false;
  }

  lemma {:induction false} BadContentPersists(items: seq<(string, Json)>, i: nat, j: nat)
    requires i < j <= |items| && items[i].0 == "content" && !items[i].1.JStr?
    ensures BadContent(items[..j])
    decreases j
  {
    assert items[..j][..j - 1] == items[..j - 1];
    if i < j - 1 {
      BadContentPersists(items, i, j - 1);
    }
  }

  lemma {:induction false} ChoiceCrashPersists(cs: seq<Json>, i: nat, j: nat)
    requires i < j <= |cs| && ChoiceCrashes(cs[i])
    ensures AnyChoiceCrashes(cs[..j])
    decreases j
  {
    assert cs[..j][..j - 1] == cs[..j - 1];
    if i < j - 1 {
      ChoiceCrashPersists(cs, i, j - 1);
    }
  }

  /** The loop over a `choices` array: each object with an index is merged
      into the record of its index, created on first sight. */
  method MergeChoiceList(a: Acc, cs: seq<Json>) returns (r: Acc, crashed: bool)
    ensures crashed <==> AnyChoiceCrashes(cs)
    ensures !crashed ==> r == MergeChoices(a, cs)
  {
    r := a;
    for i := 0 to |cs|
      invariant r == MergeChoices(a, cs[..i])
      invariant !AnyChoiceCrashes(cs[..i])
    {
      PrefixSnoc(cs, i);
      assert (cs[..i] + [cs[i]])[..i] == cs[..i];
      var c := cs[i];
      if c.JObj? && Get(c.members, "index").Some? {
        var index := Get(c.members, "index").value;
        var key := HashKey(index);
        if key.None? {
          ChoiceCrashPersists(cs, i, |cs|);
          assert cs[..|cs|] == cs;
          return r, true;
        }
        var cur := if key.value in r.table then r.table[key.value] else NewChoice(index);
        var delta := cur.delta;
        match Get(c.members, "delta") {
          case Some(JObj(d)) =>
            var bad;
            delta, bad := MergeDeltaItems(delta, Items(d));
            ItemsOfObject(d, "content");
            DistinctContent(Items(d));
            if bad {
              ChoiceCrashPersists(cs, i, |cs|);
              assert cs[..|cs|] == cs;
              return r, true;
            }
          case _ =>
        }
        var merged := ChoiceAcc(cur.index, delta, Get(c.members, "logprobs").GetOr(cur.logprobs),
                                Get(c.members, "finish_reason").GetOr(cur.finishReason));
        r := Acc(r.top, if key.value in r.table then r.order else r.order + [key.value],
                 r.table[key.value := merged]);
      }
    }
    assert cs[..|cs|] == cs;
    crashed := false;
  }

  /** The loop over the top-level members of an event. */
  method MergeTopLevel(top: Dict, members: seq<(string, Json)>) returns (r: Dict)
    ensures r == MergeTop(top, members)
  {
    r := top;
    for i := 0 to |members|
      invariant r == MergeTop(top, members[..i])
    {
      PrefixSnoc(members, i);
      assert (members[..i] + [members[i]])[..i] == members[..i];
      var (k, v) := members[i];
      if k != "choices" {
        r := Put(r, k, v);
      }
    }
    assert members[..|members|] == members;
  }

  /** The body of the loop over events: one event's data is decoded and
      its choices and top-level members merged. */
  method MergeEventData(a: Acc, e: SseEvent, decode: string -> Option<Json>) returns (r: Acc, crashed: bool, error: string)
    ensures crashed <==> EventCrashes(e, decode)
    ensures crashed ==> error == EventError(e, decode)
    ensures !crashed ==> r == MergeEvent(a, e, decode)
  {
    r, crashed, error := a, false, "";
    if e.data != [] && decode(e.data).Some? {
      var data := decode(e.data).value;
      match data {
        case JObj(_) =>
        case JStr(t) =>
          error := if Contains(t, "choices") then "TypeError" else "AttributeError";
          return r, true, error;
        case JArr(xs) =>
          error := if JStr("choices") in xs then "TypeError" else "AttributeError";
          return r, true, error;
        case _ =>
          return r, true, "TypeError";
      }
      error := "TypeError";
      r, crashed := MergeChoiceList(a, EventChoices(data));
      if !crashed {
        var top := MergeTopLevel(r.top, Items(data.members));
        r := Acc(top, r.order, r.table);
      }
    }
  }

  lemma MergeEventsSnoc(events: seq<SseEvent>, i: nat, decode: string -> Option<Json>)
    requires i < |events|
    ensures MergeEvents(events[..i + 1], decode) == MergeEvent(MergeEvents(events[..i], decode), events[i], decode)
    ensures AnyCrash(events[..i + 1], decode) == (AnyCrash(events[..i], decode) || EventCrashes(events[i], decode))
  {
    assert events[..i + 1][..i] == events[..i];
  }

  /** `concatenate_sse_data`: the events of the stream are decoded with
      `decode`; data that does not decode is skipped, and anything other
      than an object raises. */
  method ConcatenateSseData(stream: string, decode: string -> Option<Json>) returns (r: Result<Json>)
    ensures r == Concatenate(StreamEvents(stream), decode)
  {
    var events := ParseStream(stream);
    var acc := NoAcc;
    for i := 0 to |events|
      invariant acc == MergeEvents(events[..i], decode)
      invariant !AnyCrash(events[..i], decode)
    {
      MergeEventsSnoc(events, i, decode);
      var crashed, error;
      acc, crashed, error := MergeEventData(acc, events[i], decode);
      if crashed {
        FirstCrashNamesFailure(events, i, |events|, decode);
        assert events[..|events|] == events;
        return Failure(error);
      }
    }
    assert events[..|events|] == events;
    MergeEventsValid(events, decode);
    r := Success(Assemble(acc));
  }

  /** Once an event crashes, the concatenation has failed. */
  lemma {:induction false} CrashesFromThereOn(events: seq<SseEvent>, i: nat, j: nat, decode: string -> Option<Json>)
    requires i < j <= |events| && EventCrashes(events[i], decode)
    ensures AnyCrash(events[..j], decode)
    decreases j
  {
    assert events[..j][..j - 1] == events[..j - 1];
    if i < j - 1 {
      CrashesFromThereOn(events, i, j - 1, decode);
    }
  }

  /** The failure carries the exception of the first event that crashes. */
  lemma {:induction false} FirstCrashNamesFailure(events: seq<SseEvent>, i: nat, j: nat, decode: string -> Option<Json>)
    requires i < j <= |events| && EventCrashes(events[i], decode) && !AnyCrash(events[..i], decode)
    ensures AnyCrash(events[..j], decode) && CrashError(events[..j], decode) == EventError(events[i], decode)
    decreases j
  {
    assert events[..j][..j - 1] == events[..j - 1];
    if i < j - 1 {
      FirstCrashNamesFailure(events, i, j - 1, decode);
    } else {
      assert events[..j][j - 1] == events[i];
    }
  }

  /** Event data that decodes to a string without `choices` fails with an
      `AttributeError` at `data.items()`, not a `TypeError`. */
  lemma StringDataRaisesAttributeError(e: SseEvent, decode: string -> Option<Json>, t: string)
    requires e.data != [] && decode(e.data) == Some(JStr(t)) && !Contains(t, "choices")
    ensures Concatenate([e], decode) == Failure("AttributeError")
  {
    assert [e][..0] == [];
  }

  /** `extract_final_content`: the `content` of the first choice's `delta`,
      whatever its type, or `""` wherever the lookup fails. */
  function ExtractFinalContent(data: Json): (r: Json)
    ensures !data.JObj? ==> r == JStr("")
  {
    if !data.JObj? then JStr("")
    else
      match Get(data.members, "choices")
      case Some(JArr(items)) =>
        if items != [] && items[0].JObj? then
          match Get(items[0].members, "delta")
          case Some(JObj(d)) => Get(d, "content").GetOr(JStr(""))
          case _ => JStr("")
        else JStr("")
      case _ => JStr("")
  }

  // ---------------------------------------------------------------------
  // What the concatenation means
  // ---------------------------------------------------------------------

  /** The choice objects of `cs` whose index is `key`, in order. */
  function ChoicesWithKey(cs: seq<Json>, key: Json): seq<seq<(string, Json)>>
    decreases |cs|
  {
    if cs == [] then []
    else
      var c := cs[|cs| - 1];
      ChoicesWithKey(cs[..|cs| - 1], key) + if ChoiceKey(c) == Some(key) then [c.members] else []
  }

  /** The choice objects with index `key` over all events, in arrival order. */
  function ChoicesFor(events: seq<SseEvent>, decode: string -> Option<Json>, key: Json): seq<seq<(string, Json)>>
    decreases |events|
  {
    if events == [] then []
    else
      ChoicesFor(events[..|events| - 1], decode, key) +
      match EventObject(events[|events| - 1], decode)
      case Some(m) => ChoicesWithKey(EventChoices(JObj(m)), key)
      case None => []
  }

  function IndexOf(c: seq<(string, Json)>): Json {
    Get(c, "index").GetOr(JNull)
  }

  /** The record of one index after the given choice objects, merged alone. */
  function FoldChoice(entry: Option<ChoiceAcc>, cs: seq<seq<(string, Json)>>): (r: Option<ChoiceAcc>)
    ensures cs != [] ==> r.Some?
    decreases |cs|
  {
    if cs == [] then entry
    else
      var prev := FoldChoice(entry, cs[..|cs| - 1]);
      var cur := if prev.Some? then prev.value else NewChoice(IndexOf(cs[|cs| - 1]));
      Some(AbsorbChoice(cur, cs[|cs| - 1]))
  }

  function Entry(a: Acc, key: Json): Option<ChoiceAcc> {
    if key in a.table then Some(a.table[key]) else None
  }

  lemma {:induction false} FoldChoiceAppend(entry: Option<ChoiceAcc>, xs: seq<seq<(string, Json)>>, ys: seq<seq<(string, Json)>>)
    ensures FoldChoice(entry, xs + ys) == FoldChoice(FoldChoice(entry, xs), ys)
    decreases |ys|
  {
    if ys == [] {
      assert xs + ys == xs;
    } else {
      var p := ys[..|ys| - 1];
      assert (xs + ys)[..|xs + ys| - 1] == xs + p;
      FoldChoiceAppend(entry, xs, p);
    }
  }

  /** Merging choices leaves the top-level dictionary alone. */
  lemma {:induction false} MergeChoicesKeepTop(a: Acc, cs: seq<Json>)
    ensures MergeChoices(a, cs).top == a.top
    decreases |cs|
  {
    if cs != [] {
      MergeChoicesKeepTop(a, cs[..|cs| - 1]);
    }
  }

  /** One choice object only touches the record of its own index. */
  lemma MergeChoiceEntry(b: Acc, c: Json, key: Json)
    ensures Entry(MergeChoice(b, c), key) ==
            if ChoiceKey(c) == Some(key) then FoldChoice(Entry(b, key), [c.members]) else Entry(b, key)
  {
    if ChoiceKey(c) == Some(key) {
      assert [c.members][..0] == [];
    }
  }

  /** Merging a `choices` array treats each index on its own. */
  lemma {:induction false} MergeChoicesPerKey(a: Acc, cs: seq<Json>, key: Json)
    ensures Entry(MergeChoices(a, cs), key) == FoldChoice(Entry(a, key), ChoicesWithKey(cs, key))
    decreases |cs|
  {
    if cs != [] {
      var p := cs[..|cs| - 1];
      var c := cs[|cs| - 1];
      var b := MergeChoices(a, p);
      MergeChoicesPerKey(a, p, key);
      MergeChoiceEntry(b, c, key);
      var ms := ChoicesWithKey(p, key);
      if ChoiceKey(c) == Some(key) {
        assert ChoicesWithKey(cs, key) == ms + [c.members];
        FoldChoiceAppend(Entry(a, key), ms, [c.members]);
      } else {
        assert ChoicesWithKey(cs, key) == ms + [];
        assert ms + [] == ms;
      }
    }
  }

  /** The record of each index is what merging that index's choice objects
      alone, in arrival order, gives: other indices do not disturb it. */
  lemma {:induction false} RecordPerIndex(events: seq<SseEvent>, decode: string -> Option<Json>, key: Json)
    ensures Entry(MergeEvents(events, decode), key) == FoldChoice(None, ChoicesFor(events, decode, key))
    decreases |events|
  {
    if events != [] {
      var p := events[..|events| - 1];
      var e := events[|events| - 1];
      RecordPerIndex(p, decode, key);
      var a := MergeEvents(p, decode);
      var before := ChoicesFor(p, decode, key);
      match EventObject(e, decode)
      case None =>
        assert MergeEvents(events, decode) == a;
        assert ChoicesFor(events, decode, key) == before + [];
        assert before + [] == before;
      case Some(m) =>
        var cs := EventChoices(JObj(m));
        assert Entry(MergeEvents(events, decode), key) == Entry(MergeChoices(a, cs), key);
        MergeChoicesPerKey(a, cs, key);
        assert ChoicesFor(events, decode, key) == before + ChoicesWithKey(cs, key);
        FoldChoiceAppend(None, before, ChoicesWithKey(cs, key));
    }
  }

  /** The `content` items of a list of items, joined. */
  function ContentText(items: seq<(string, Json)>): string
    decreases |items|
  {
    if items == [] then ""
    else
      var (k, v) := items[|items| - 1];
      ContentText(items[..|items| - 1]) + if k == "content" then Text(v) else ""
  }

  /** The text a choice object's `delta` carries under `content`: the last
      `content` member of the document, as `json.loads` keeps it. */
  function DeltaText(c: seq<(string, Json)>): string {
    match Get(c, "delta")
    case Some(JObj(d)) => (match Get(d, "content") case Some(v) => Text(v) case None => "")
    case _ => ""
  }

  /** Over items that name each member once, the joined `content` text is
      the text of the one `content` item, and it is bad exactly when that
      item is not text. */
  lemma {:induction false} DistinctContent(items: seq<(string, Json)>)
    requires NamesDistinct(items)
    ensures ContentText(items) == (match Get(items, "content") case Some(v) => Text(v) case None => "")
    ensures BadContent(items) <==> Get(items, "content").Some? && !Get(items, "content").value.JStr?
    decreases |items|
  {
    if items != [] {
      var p := items[..|items| - 1];
      assert NamesDistinct(p);
      DistinctContent(p);
      if items[|items| - 1].0 == "content" {
        GetFinds(p, "content");
      }
    }
  }

  /** The `content` texts of the given choice objects, joined in order. */
  function Texts(cs: seq<seq<(string, Json)>>): string
    decreases |cs|
  {
    if cs == [] then "" else Texts(cs[..|cs| - 1]) + DeltaText(cs[|cs| - 1])
  }

  /** The value of member `name` in the last choice object that has one,
      or null. */
  function LastMember(cs: seq<seq<(string, Json)>>, name: string): Json
    decreases |cs|
  {
    if cs == [] then JNull
    else
      match Get(cs[|cs| - 1], name)
      case Some(v) => v
      case None => LastMember(cs[..|cs| - 1], name)
  }

  /** Merging the items of a `delta` appends their `content` text to the
      content so far. */
  lemma {:induction false} MergeDeltaAppends(delta: Dict, items: seq<(string, Json)>)
    ensures ContentOf(MergeDelta(delta, items)) == ContentOf(delta) + ContentText(items)
    decreases |items|
  {
    if items != [] {
      MergeDeltaAppends(delta, items[..|items| - 1]);
    }
  }

  /** A `delta` that repeats `content` contributes only its last value: the
      dictionary `json.loads` builds holds one entry per name. */
  lemma RepeatedContentKeepsLast(a: string, b: string)
    ensures ContentOf(MergeDelta(EmptyDict, Items([("content", JStr(a)), ("content", JStr(b))]))) == b
  {
    var d := [("content", JStr(a)), ("content", JStr(b))];
    MergeDeltaAppends(EmptyDict, Items(d));
    ItemsOfObject(d, "content");
    DistinctContent(Items(d));
  }

  /** What the record of one index holds: the first index value seen, the
      `content` text of every choice object joined in arrival order (one
      text per object: the last `content` member of its `delta`), and the
      last `logprobs` and `finish_reason` given. */
  lemma {:induction false} RecordFields(cs: seq<seq<(string, Json)>>)
    requires cs != []
    ensures FoldChoice(None, cs).value.index == IndexOf(cs[0])
    ensures ContentOf(FoldChoice(None, cs).value.delta) == Texts(cs)
    ensures FoldChoice(None, cs).value.logprobs == LastMember(cs, "logprobs")
    ensures FoldChoice(None, cs).value.finishReason == LastMember(cs, "finish_reason")
    decreases |cs|
  {
    var p := cs[..|cs| - 1];
    var c := cs[|cs| - 1];
    if p != [] {
      RecordFields(p);
      assert p[0] == cs[0];
    }
    match Get(c, "delta")
    case Some(JObj(d)) =>
      var cur := if p != [] then FoldChoice(None, p).value else NewChoice(IndexOf(c));
      MergeDeltaAppends(cur.delta, Items(d));
      ItemsOfObject(d, "content");
      DistinctContent(Items(d));
    case _ =>
  }

  /** The keys of the choice objects of `cs`, in order. */
  function KeysIn(cs: seq<Json>): seq<Json>
    decreases |cs|
  {
    if cs == [] then []
    else
      KeysIn(cs[..|cs| - 1]) +
      match ChoiceKey(cs[|cs| - 1])
      case Some(k) => [k]
      case None => []
  }

  /** The keys of every choice object of every event, in arrival order. */
  function KeysSeen(events: seq<SseEvent>, decode: string -> Option<Json>): seq<Json>
    decreases |events|
  {
    if events == [] then []
    else
      KeysSeen(events[..|events| - 1], decode) +
      match EventObject(events[|events| - 1], decode)
      case Some(m) => KeysIn(EventChoices(JObj(m)))
      case None => []
  }

  lemma {:induction false} MergeChoicesOrder(a: Acc, cs: seq<Json>, seen: seq<Json>)
    requires a.order == Dedupe(seen)
    requires forall k :: k in a.table <==> k in seen
    ensures MergeChoices(a, cs).order == Dedupe(seen + KeysIn(cs))
    ensures forall k :: k in MergeChoices(a, cs).table <==> k in seen + KeysIn(cs)
    decreases |cs|
  {
    if cs == [] {
      assert seen + KeysIn(cs) == seen;
    } else {
      var p := cs[..|cs| - 1];
      var c := cs[|cs| - 1];
      var b := MergeChoices(a, p);
      MergeChoicesOrder(a, p, seen);
      var s := seen + KeysIn(p);
      assert MergeChoices(a, cs) == MergeChoice(b, c);
      match ChoiceKey(c)
      case Some(k) =>
        assert KeysIn(cs) == KeysIn(p) + [k];
        AppendAssoc(seen, KeysIn(p), [k]);
        DedupeSnoc(s, k);
        assert k in b.table <==> k in s;
      case None =>
        assert KeysIn(cs) == KeysIn(p) + [];
        assert KeysIn(p) + [] == KeysIn(p);
    }
  }

  /** The choices are listed in the order their indices were first seen. */
  lemma {:induction false} ChoicesInFirstSeenOrder(events: seq<SseEvent>, decode: string -> Option<Json>)
    ensures MergeEvents(events, decode).order == Dedupe(KeysSeen(events, decode))
    ensures forall k :: k in MergeEvents(events, decode).table <==> k in KeysSeen(events, decode)
    decreases |events|
  {
    if events != [] {
      var p := events[..|events| - 1];
      var e := events[|events| - 1];
      var a := MergeEvents(p, decode);
      ChoicesInFirstSeenOrder(p, decode);
      match EventObject(e, decode)
      case None =>
        assert MergeEvents(events, decode) == a;
        assert KeysSeen(events, decode) == KeysSeen(p, decode) + [];
        assert KeysSeen(p, decode) + [] == KeysSeen(p, decode);
      case Some(m) =>
        var cs := EventChoices(JObj(m));
        assert MergeEvents(events, decode).order == MergeChoices(a, cs).order;
        assert MergeEvents(events, decode).table == MergeChoices(a, cs).table;
        assert KeysSeen(events, decode) == KeysSeen(p, decode) + KeysIn(cs);
        MergeChoicesOrder(a, cs, KeysSeen(p, decode));
    }
  }

  lemma {:induction false} MergeTopLookup(top: Dict, members: seq<(string, Json)>, k: string)
    requires k != "choices"
    ensures Lookup(MergeTop(top, members), k) == if Get(members, k).Some? then Get(members, k) else Lookup(top, k)
    decreases |members|
  {
    if members != [] {
      MergeTopLookup(top, members[..|members| - 1], k);
    }
  }

  /** The value of top-level member `k` in the last event that has one. */
  function LastTop(events: seq<SseEvent>, decode: string -> Option<Json>, k: string): Option<Json>
    decreases |events|
  {
    if events == [] then None
    else
      match EventObject(events[|events| - 1], decode)
      case Some(m) => if Get(m, k).Some? then Get(m, k) else LastTop(events[..|events| - 1], decode, k)
      case None => LastTop(events[..|events| - 1], decode, k)
  }

  /** Every top-level member but `choices` takes the value of the last event
      that has it; events whose data does not decode are skipped. */
  lemma {:induction false} TopLevelLastWriteWins(events: seq<SseEvent>, decode: string -> Option<Json>, k: string)
    requires k != "choices"
    ensures Lookup(MergeEvents(events, decode).top, k) == LastTop(events, decode, k)
    decreases |events|
  {
    if events != [] {
      var p := events[..|events| - 1];
      TopLevelLastWriteWins(p, decode, k);
      match EventObject(events[|events| - 1], decode)
      case Some(m) =>
        MergeChoicesKeepTop(MergeEvents(p, decode), EventChoices(JObj(m)));
        MergeTopLookup(MergeEvents(p, decode).top, Items(m), k);
        ItemsOfObject(m, k);
      case None =>
    }
  }

  /** What the extractor reads from an assembled result: the text of the
      first listed choice, or nothing when no choice was seen. */
  lemma AssembledFinalContent(a: Acc)
    requires ValidAcc(a)
    ensures ExtractFinalContent(Assemble(a)) ==
            JStr(if a.order == [] then "" else ContentOf(a.table[a.order[0]].delta))
  {
    var top := Members(a.top);
    GetMembers(a.top, "choices");
    if a.order == [] {
      assert top + [] == top;
    } else {
      var c := a.table[a.order[0]];
      var fields := [("index", c.index), ("delta", JObj(Members(c.delta))), ("logprobs", c.logprobs),
                     ("finish_reason", c.finishReason)];
      assert |"finish_reason"| != |"delta"| && |"logprobs"| != |"delta"|;
      assert fields[..3][..2] == fields[..2];
      assert Get(fields, "delta") == Get(fields[..3], "delta");
      assert Get(fields[..3], "delta") == Get(fields[..2], "delta");
      assert Get(fields, "delta") == Some(JObj(Members(c.delta)));
      GetMembers(c.delta, "content");
    }
  }

  /** The final content of a successful concatenation is the `content`
      text of every choice object of the first index seen, joined in
      arrival order. */
  lemma FinalContentIsFirstChoiceText(events: seq<SseEvent>, decode: string -> Option<Json>)
    requires Concatenate(events, decode).Success?
    ensures ExtractFinalContent(Concatenate(events, decode).value) ==
            JStr(if KeysSeen(events, decode) == [] then ""
                 else Texts(ChoicesFor(events, decode, KeysSeen(events, decode)[0])))
  {
    var a := MergeEvents(events, decode);
    var keys := KeysSeen(events, decode);
    MergeEventsValid(events, decode);
    AssembledFinalContent(a);
    ChoicesInFirstSeenOrder(events, decode);
    if keys != [] {
      DedupeHead(keys);
      var key := keys[0];
      RecordPerIndex(events, decode, key);
      var cs := ChoicesFor(events, decode, key);
      assert Entry(a, key) == Some(a.table[key]);
      RecordFields(cs);
    }
  }

  /** No line of the stream is blank. */
  lemma {:induction false} NoBlankLine(lines: seq<string>)
    requires forall i :: 0 <= i < |lines| ==> !IsBlank(lines[i])
    ensures BlankLines(lines) == 0
    decreases |lines|
  {
    if lines != [] {
      NoBlankLine(lines[..|lines| - 1]);
    }
  }

  /** A stream that never ends an event with a blank line concatenates to
      an empty object, whatever data its lines carry. */
  lemma UnterminatedStreamGivesEmptyObject(stream: string, decode: string -> Option<Json>)
    requires forall i :: 0 <= i < |Split(stream, "\n")| ==> !IsBlank(Split(stream, "\n")[i])
    ensures StreamEvents(stream) == []
    ensures Concatenate(StreamEvents(stream), decode) == Success(JObj([]))
  {
    var lines := Split(stream, "\n");
    NoBlankLine(lines);
    EventsNeedBlankLines(lines);
    NoEventsGiveEmptyObject(decode);
  }

  lemma NoEventsGiveEmptyObject(decode: string -> Option<Json>)
    ensures Concatenate([], decode) == Success(JObj([]))
  {
    MergeEventsValid([], decode);
    assert Members(EmptyDict) == [];
    assert Assemble(NoAcc) == JObj([]);
  }
}
