/**
 The CSV export of usage events, and a reader for section 2 of RFC 4180.
 */
module Csv {
  import opened Base

  const HEADER: seq<string> := [
    "request_id", "created_at", "virtual_key_id", "logical_model", "upstream_model_id", "provider_id", "source_id",
    "client_source", "account_id", "protocol_in", "protocol_upstream", "mode", "status_code", "success", "retry_count",
    "latency_ms", "ttft_ms", "input_tokens", "output_tokens", "reasoning_tokens", "cached_tokens", "cache_read_tokens",
    "cache_creation_tokens", "total_tokens", "usage_source", "degraded", "route_id", "streamed", "error_summary",
    "fallback_reason", "response_model", "requested_reasoning_effort", "response_reasoning_effort"]

  const COLUMNS: nat := 33

  /** The rendered columns of one event; absent values are empty. */
  type Event = values: seq<string> | |values| == COLUMNS witness seq(COLUMNS, _ => "")

  // ---------------------------------------------------------------------------
  // The printer.
  // ---------------------------------------------------------------------------

  predicate Special(c: char) {
    c == ',' || c == '"' || c == '\n' || c == '\r'
  }

  predicate Plain(value: string) {
    forall c :: c in value ==> !Special(c)
  }

  /** Every quote doubled. */
  function Escape(value: string): string {
    if value == "" then ""
    else (if value[0] == '"' then "\"\"" else [value[0]]) + Escape(value[1..])
  }

  function Field(value: string): string {
    if Plain(value) then value else "\"" + Escape(value) + "\""
  }

  function Join(values: seq<string>): string {
    if values == [] then ""
    else if |values| == 1 then Field(values[0])
    else Join(values[..|values| - 1]) + "," + Field(values[|values| - 1])
  }

  function Document(records: seq<seq<string>>): string {
    if records == [] then ""
    else Document(records[..|records| - 1]) + Join(records[|records| - 1]) + "\n"
  }

  method CsvField(value: string) returns (r: string)
    ensures r == Field(value)
  {
    var special := false;
    var i := 0;
    while i < |value|
      invariant 0 <= i <= |value|
      invariant special <==> exists j :: 0 <= j < i && Special(value[j])
    {
      special := special || Special(value[i]);
      i := i + 1;
    }
    if !special {
      return value;
    }
    assert !Plain(value) by {
      var j :| 0 <= j < |value| && Special(value[j]);
      assert value[j] in value;
    }
    r := "\"";
    i := 0;
    while i < |value|
      invariant 0 <= i <= |value|
      invariant r == "\"" + Escape(value[..i])
    {
      EscapeSnoc(value[..i], value[i]);
      assert value[..i + 1] == value[..i] + [value[i]];
      r := r + if value[i] == '"' then "\"\"" else [value[i]];
      i := i + 1;
    }
    assert value[..i] == value;
    r := r + "\"";
  }

  /** A field is quoted exactly when a comma, a quote or a line break occurs in it, and is otherwise the
      value; inside the quotes nothing but quotes is changed. */
  lemma {:induction false} FieldIs(value: string)
    ensures !(',' in value || '"' in value || '\n' in value || '\r' in value) ==> Field(value) == value
    ensures ',' in value || '"' in value || '\n' in value || '\r' in value ==>
              Field(value) == "\"" + Escape(value) + "\""
    ensures '"' !in value ==> Escape(value) == value
  {
    if '"' !in value {
      EscapeUnquoted(value);
    }
  }

  lemma {:induction false} EscapeUnquoted(value: string)
    requires '"' !in value
    ensures Escape(value) == value
  {
    if value != "" {
      assert value == [value[0]] + value[1..];
      EscapeUnquoted(value[1..]);
    }
  }

  lemma {:induction false} EscapeSnoc(value: string, c: char)
    ensures Escape(value + [c]) == Escape(value) + if c == '"' then "\"\"" else [c]
  {
    if value == "" {
      assert value + [c] == [c];
      assert [c][1..] == "";
    } else {
      assert (value + [c])[1..] == value[1..] + [c];
      EscapeSnoc(value[1..], c);
    }
  }

  method JoinFields(values: seq<string>) returns (line: string)
    ensures line == Join(values)
  {
    line := "";
    var i := 0;
    while i < |values|
      invariant 0 <= i <= |values|
      invariant line == Join(values[..i])
    {
      var field := CsvField(values[i]);
      assert values[..i + 1][..i] == values[..i];
      line := if i == 0 then field else line + "," + field;
      i := i + 1;
    }
    assert values[..i] == values;
  }

  lemma {:induction false} RecordsStep(header: seq<string>, events: seq<Event>, i: nat)
    requires i < |events|
    ensures Document([header] + Records(events[..i + 1]))
         == Document([header] + Records(events[..i])) + Join(events[i]) + "\n"
  {
    assert [header] + Records(events[..i + 1]) == [header] + Records(events[..i]) + [events[i]];
    DocumentSnoc([header] + Records(events[..i]), events[i]);
  }

  lemma {:induction false} HeaderRecord(header: seq<string>, events: seq<Event>)
    ensures Document([header] + Records(events[..0])) == Join(header) + "\n"
  {
    assert [header] + Records(events[..0]) == [] + [header];
    DocumentSnoc([], header);
  }

  /** Header first, then one line per event. */
  method ExportLines(header: seq<string>, events: seq<Event>) returns (output: string)
    ensures output == Document([header] + Records(events))
  {
    output := JoinFields(header);
    output := output + "\n";
    HeaderRecord(header, events);
    var i := 0;
    while i < |events|
      invariant 0 <= i <= |events|
      invariant output == Document([header] + Records(events[..i]))
    {
      var line := JoinFields(events[i]);
      RecordsStep(header, events, i);
      output := output + line + "\n";
      i := i + 1;
    }
    assert events[..i] == events;
  }

  /** Lines end in one line feed: without special characters in the values there is one for each record,
      no carriage return and no quote. */
  lemma {:induction false} PlainDocument(records: seq<seq<string>>)
    requires forall i, j :: 0 <= i < |records| && 0 <= j < |records[i]| ==> Plain(records[i][j])
    ensures multiset(Document(records))['\n'] == |records|
    ensures '\r' !in Document(records) && '"' !in Document(records)
  {
    if records != [] {
      var n := |records| - 1;
      PlainDocument(records[..n]);
      PlainJoin(records[n]);
      OneMoreLine(Document(records[..n]), Join(records[n]));
    }
  }

  lemma {:induction false} OneMoreLine(text: string, line: string)
    requires '\n' !in line
    ensures multiset(text + line + "\n")['\n'] == multiset(text)['\n'] + 1
  {
    assert '\n' !in multiset(line);
    assert text + line + "\n" == (text + line) + ['\n'];
  }

  lemma {:induction false} PlainJoin(values: seq<string>)
    requires forall j :: 0 <= j < |values| ==> Plain(values[j])
    ensures '\n' !in Join(values) && '\r' !in Join(values) && '"' !in Join(values)
  {
    if |values| > 1 {
      PlainJoin(values[..|values| - 1]);
    }
  }

  lemma {:induction false} DocumentSnoc(records: seq<seq<string>>, values: seq<string>)
    ensures Document(records + [values]) == Document(records) + Join(values) + "\n"
  {
    assert (records + [values])[..|records|] == records;
  }

  method UsageEventsCsv(events: seq<Event>) returns (output: string)
    ensures output == Document([HEADER] + Records(events))
    ensures Parse(output) == Some([HEADER] + Records(events))
  {
    output := ExportLines(HEADER, events);
    CsvRoundTrip(HEADER, events);
  }

  function Records(events: seq<Event>): (r: seq<seq<string>>)
    ensures |r| == |events| && forall i :: 0 <= i < |events| ==> r[i] == events[i]
  {
    seq(|events|, i requires 0 <= i < |events| => events[i])
  }

  // ---------------------------------------------------------------------------
  // The reader: one character at a time.
  // ---------------------------------------------------------------------------

  datatype Mode =
    | FieldStart | Unquoted | Quoted
    | QuoteSeen // a quote inside a quoted field: its end, or half of an escaped quote
    | AfterReturn

  datatype Reader =
    | Reading(mode: Mode, field: string, record: seq<string>, records: seq<seq<string>>)
    | Failed

  const START := Reading(FieldStart, "", [], [])

  function EndField(r: Reader): Reader
    requires r.Reading?
  {
    Reading(FieldStart, "", r.record + [r.field], r.records)
  }

  function EndRecord(r: Reader): Reader
    requires r.Reading?
  {
    Reading(FieldStart, "", [], r.records + [r.record + [r.field]])
  }

  function Read(r: Reader, c: char): Reader {
    if r.Failed? then Failed
    else match r.mode
      case Quoted => if c == '"' then r.(mode := QuoteSeen) else r.(field := r.field + [c])
      case AfterReturn => if c == '\n' then EndRecord(r) else Failed
      case FieldStart =>
        if c == '"' then r.(mode := Quoted)
        else if c == ',' then EndField(r)
        else if c == '\n' then EndRecord(r)
        else if c == '\r' then r.(mode := AfterReturn)
        else r.(mode := Unquoted, field := [c])
      case Unquoted =>
        if c == '"' then Failed
        else if c == ',' then EndField(r)
        else if c == '\n' then EndRecord(r)
        else if c == '\r' then r.(mode := AfterReturn)
        else r.(field := r.field + [c])
      case QuoteSeen =>
        if c == '"' then r.(mode := Quoted, field := r.field + [c])
        else if c == ',' then EndField(r)
        else if c == '\n' then EndRecord(r)
        else if c == '\r' then r.(mode := AfterReturn)
        else Failed
  }

  function ReadAll(r: Reader, s: string): Reader
    decreases |s|
  {
    if s == "" then r else ReadAll(Read(r, s[0]), s[1..])
  }

  /** The records of a document; the last one need not end in a line break. */
  function Parse(s: string): Option<seq<seq<string>>> {
    match ReadAll(START, s)
    case Failed => None
    case Reading(mode, field, record, records) =>
      if mode.Quoted? || mode.AfterReturn? then None
      else if mode.FieldStart? && record == [] then Some(records)
      else Some(records + [record + [field]])
  }

  // ---------------------------------------------------------------------------
  // Round trip.
  // ---------------------------------------------------------------------------

  lemma {:induction false} ReadAllAppend(r: Reader, s: string, t: string)
    ensures ReadAll(r, s + t) == ReadAll(ReadAll(r, s), t)
    decreases |s|
  {
    if s == "" {
      assert s + t == t;
    } else {
      assert (s + t)[0] == s[0] && (s + t)[1..] == s[1..] + t;
      ReadAllAppend(Read(r, s[0]), s[1..], t);
    }
  }

  lemma {:induction false} ReadOne(r: Reader, c: char)
    ensures ReadAll(r, [c]) == Read(r, c)
  {
    assert [c][1..] == "";
  }

  lemma {:induction false} ReadUnquoted(r: Reader, s: string)
    requires r.Reading? && r.mode.Unquoted? && Plain(s)
    ensures ReadAll(r, s) == r.(field := r.field + s)
    decreases |s|
  {
    if s == "" {
      assert r.field + s == r.field;
    } else {
      assert s[0] in s;
      ReadUnquoted(Read(r, s[0]), s[1..]);
      assert r.field + s == r.field + [s[0]] + s[1..];
    }
  }

  lemma {:induction false} ReadEscapedOne(r: Reader, c: char)
    requires r.Reading? && r.mode.Quoted?
    ensures ReadAll(r, if c == '"' then "\"\"" else [c]) == r.(field := r.field + [c])
  {
    if c == '"' {
      assert "\"\"" == "\"" + "\"";
      ReadAllAppend(r, "\"", "\"");
      ReadOne(r, '"');
      ReadOne(r.(mode := QuoteSeen), '"');
    } else {
      ReadOne(r, c);
    }
  }

  lemma {:induction false} ReadEscaped(r: Reader, s: string)
    requires r.Reading? && r.mode.Quoted?
    ensures ReadAll(r, Escape(s)) == r.(field := r.field + s)
    decreases |s|
  {
    if s == "" {
      assert r.field + s == r.field;
    } else {
      var head := if s[0] == '"' then "\"\"" else [s[0]];
      var next := r.(field := r.field + [s[0]]);
      ReadAllAppend(r, head, Escape(s[1..]));
      ReadEscapedOne(r, s[0]);
      ReadEscaped(next, s[1..]);
      assert r.field + s == r.field + [s[0]] + s[1..];
    }
  }

  /** Where the reader stands after one printed field: the value is read, and the next
      comma or line break ends it. */
  ghost predicate AtFieldEnd(r: Reader, value: string, record: seq<string>, records: seq<seq<string>>) {
    && r.Reading? && r.field == value && r.record == record && r.records == records
    && (r.mode.FieldStart? || r.mode.Unquoted? || r.mode.QuoteSeen?)
  }

  lemma {:induction false} ReadField(record: seq<string>, records: seq<seq<string>>, value: string)
    ensures AtFieldEnd(ReadAll(Reading(FieldStart, "", record, records), Field(value)), value, record, records)
  {
    var r := Reading(FieldStart, "", record, records);
    if value == "" {
      assert Field(value) == "";
    } else if Plain(value) {
      assert value[0] in value;
      ReadUnquoted(Read(r, value[0]), value[1..]);
      assert [value[0]] + value[1..] == value;
    } else {
      var quoted := r.(mode := Quoted);
      assert Field(value) == "\"" + (Escape(value) + "\"");
      ReadAllAppend(r, "\"", Escape(value) + "\"");
      ReadOne(r, '"');
      ReadAllAppend(quoted, Escape(value), "\"");
      ReadEscaped(quoted, value);
      assert "" + value == value;
      ReadOne(quoted.(field := value), '"');
    }
  }

  lemma {:induction false} ReadNextField(mid: Reader, last: string, init: seq<string>, records: seq<seq<string>>,
                                         value: string)
    requires AtFieldEnd(mid, last, init, records)
    ensures AtFieldEnd(ReadAll(mid, "," + Field(value)), value, init + [last], records)
  {
    ReadAllAppend(mid, ",", Field(value));
    ReadOne(mid, ',');
    ReadField(init + [last], records, value);
  }

  lemma {:induction false} JoinSnoc(values: seq<string>)
    requires |values| > 1
    ensures Join(values) == Join(values[..|values| - 1]) + ("," + Field(values[|values| - 1]))
  {
  }

  lemma {:induction false} ReadJoin(records: seq<seq<string>>, values: seq<string>)
    requires values != []
    ensures AtFieldEnd(ReadAll(Reading(FieldStart, "", [], records), Join(values)), values[|values| - 1],
                       values[..|values| - 1], records)
  {
    var r, n := Reading(FieldStart, "", [], records), |values| - 1;
    if n == 0 {
      ReadField([], records, values[0]);
      assert values[..0] == [];
    } else {
      var init := values[..n];
      ReadJoin(records, init);
      JoinSnoc(values);
      ReadJoinStep(r, Join(init), init, records, values[n]);
    }
  }

  lemma {:induction false} ReadJoinStep(r: Reader, text: string, init: seq<string>, records: seq<seq<string>>,
                                        value: string)
    requires init != [] && AtFieldEnd(ReadAll(r, text), init[|init| - 1], init[..|init| - 1], records)
    ensures AtFieldEnd(ReadAll(r, text + ("," + Field(value))), value, init, records)
  {
    ReadAllAppend(r, text, "," + Field(value));
    ReadNextField(ReadAll(r, text), init[|init| - 1], init[..|init| - 1], records, value);
    assert init[..|init| - 1] + [init[|init| - 1]] == init;
  }

  lemma {:induction false} ReadRecord(records: seq<seq<string>>, values: seq<string>)
    requires values != []
    ensures ReadAll(Reading(FieldStart, "", [], records), Join(values) + "\n")
         == Reading(FieldStart, "", [], records + [values])
  {
    var r := Reading(FieldStart, "", [], records);
    ReadAllAppend(r, Join(values), "\n");
    ReadJoin(records, values);
    ReadOne(ReadAll(r, Join(values)), '\n');
    assert values[..|values| - 1] + [values[|values| - 1]] == values;
  }

  lemma {:induction false} ReadDocument(records: seq<seq<string>>)
    requires forall i :: 0 <= i < |records| ==> records[i] != []
    ensures ReadAll(START, Document(records)) == Reading(FieldStart, "", [], records)
  {
    if records != [] {
      var n := |records| - 1;
      ReadDocument(records[..n]);
      DocumentSnoc(records[..n], records[n]);
      assert records[..n] + [records[n]] == records;
      ReadAllAppend(START, Document(records[..n]), Join(records[n]) + "\n");
      ReadRecord(records[..n], records[n]);
      assert Document(records) == Document(records[..n]) + (Join(records[n]) + "\n");
    }
  }

  /** Reading what was printed gives back every record, whatever the values hold. */
  lemma {:induction false} PrintedIsParsed(records: seq<seq<string>>)
    requires forall i :: 0 <= i < |records| ==> records[i] != []
    ensures Parse(Document(records)) == Some(records)
  {
    ReadDocument(records);
  }

  /** Reading an export gives back the header and every value of every event, whatever mix
      of commas, quotes and line breaks the values hold. */
  lemma {:induction false} CsvRoundTrip(header: seq<string>, events: seq<Event>)
    requires header != []
    ensures Parse(Document([header] + Records(events))) == Some([header] + Records(events))
  {
    PrintedIsParsed([header] + Records(events));
  }

  /** So two exports are the same text only for the same events. */
  lemma {:induction false} CsvIsInjective(header: seq<string>, a: seq<Event>, b: seq<Event>)
    requires header != [] && Document([header] + Records(a)) == Document([header] + Records(b))
    ensures a == b
  {
    CsvRoundTrip(header, a);
    CsvRoundTrip(header, b);
    SameRecords(header, a, b);
  }

  lemma {:induction false} SameRecords(header: seq<string>, a: seq<Event>, b: seq<Event>)
    requires [header] + Records(a) == [header] + Records(b)
    ensures a == b
  {
    var r, s := [header] + Records(a), [header] + Records(b);
    forall i | 0 <= i < |a| ensures a[i] == b[i] {
      assert r[i + 1] == s[i + 1];
    }
  }
}
