/** JSON Lines (`_jsonl_bytes`, `_load_jsonl`): what is written is read back exactly when no
    string of any record holds U+0085, U+2028 or U+2029, which the writer leaves as they are and
    the reader takes for line ends. */
module JsonLines {
  import opened Wrappers
  import opened Lines

  /** A JSON value; object fields are listed in key order, as they are written. */
  datatype Json =
    | Null
    | Boolean(value: bool)
    | Number(text: string)
    | Text(chars: string)
    | Array(items: seq<Json>)
    | Object(fields: seq<Field>)
  datatype Field = Field(key: string, value: Json)

  // ----- The writer -----

  function HexDigit(n: nat): char
    requires n < 16
  {
    if n < 10 then ('0' as int + n) as char else ('a' as int + (n - 10)) as char
  }

  /** Quotation marks, backslashes and control characters are escaped, everything else is raw. */
  function Escape(c: char): string {
    if c == '"' then "\\\""
    else if c == '\\' then "\\\\"
    else if c == '\n' then "\\n"
    else if c == '\r' then "\\r"
    else if c == '\t' then "\\t"
    else if c as int == 0x0c then "\\f"
    else if c as int == 0x08 then "\\b"
    else if c as int < 0x20 then "\\u00" + [HexDigit(c as int / 16), HexDigit(c as int % 16)]
    else [c]
  }

  function EscapeAll(s: string): string {
    if s == "" then "" else EscapeAll(s[..|s| - 1]) + Escape(s[|s| - 1])
  }

  function Quote(s: string): string {
    ['"'] + EscapeAll(s) + ['"']
  }

  /** `json.dumps(value, ensure_ascii=False, sort_keys=True, separators=(",", ":"))`. */
  function Dumps(value: Json): string {
    match value
    case Null => "null"
    case Boolean(b) => if b then "true" else "false"
    case Number(text) => text
    case Text(chars) => Quote(chars)
    case Array(items) => "[" + DumpItems(items) + "]"
    case Object(fields) => "{" + DumpFields(fields) + "}"
  }

  function Comma(first: bool): string {
    if first then "" else ","
  }

  function DumpItems(items: seq<Json>): string {
    if items == [] then ""
    else
      var last := |items| - 1;
      DumpItems(items[..last]) + Comma(last == 0) + Dumps(items[last])
  }

  function DumpFields(fields: seq<Field>): string {
    if fields == [] then ""
    else
      var last := |fields| - 1;
      DumpFields(fields[..last]) + Comma(last == 0) + Quote(fields[last].key) + ":" + Dumps(fields[last].value)
  }

  function Jsonl(records: seq<Json>): string {
    if records == [] then "" else Dumps(records[0]) + "\n" + Jsonl(records[1..])
  }

  // ----- The reader -----

  datatype LoadError = InvalidLine(number: nat) | NotObject(number: nat)

  /** Parse every line into an object. */
  function Loaded(lines: seq<string>, parse: string -> Option<Json>): Option<seq<Json>> {
    if lines == [] then Some([])
    else
      var last := |lines| - 1;
      var before, value := Loaded(lines[..last], parse), parse(lines[last]);
      if before.None? || value.None? || !value.value.Object? then None else Some(before.value + [value.value])
  }

  lemma {:induction false} LoadedFails(lines: seq<string>, parse: string -> Option<Json>, n: nat)
    requires n <= |lines| && Loaded(lines[..n], parse).None?
    ensures Loaded(lines, parse).None?
    decreases |lines|
  {
    if n < |lines| {
      assert lines[..|lines| - 1][..n] == lines[..n];
      LoadedFails(lines[..|lines| - 1], parse, n);
    } else {
      assert lines[..n] == lines;
    }
  }

  /** `_load_jsonl`. */
  method LoadJsonl(text: string, parse: string -> Option<Json>) returns (r: Result<seq<Json>, LoadError>)
    ensures r.Success? <==> Loaded(SplitLines(text), parse).Some?
    ensures r.Success? ==> r.value == Loaded(SplitLines(text), parse).value
  {
    var lines := SplitLines(text);
    var records: seq<Json> := [];
    for i := 0 to |lines|
      invariant Loaded(lines[..i], parse) == Some(records)
    {
      assert lines[..i + 1][..i] == lines[..i];
      var value := parse(lines[i]);
      if value.None? || !value.value.Object? {
        LoadedFails(lines, parse, i + 1);
        return Failure(if value.None? then InvalidLine(i + 1) else NotObject(i + 1));
      }
      records := records + [value.value];
    }
    assert lines[..|lines|] == lines;
    return Success(records);
  }

  // ----- Where a serialized record can break -----

  /** The three line boundaries the writer leaves raw. */
  predicate Breaks(c: char) {
    c as int in {0x85, 0x2028, 0x2029}
  }

  predicate Unbroken(s: string) {
    forall k :: 0 <= k < |s| ==> !Breaks(s[k])
  }

  /** No string of the value, key or text, holds one of them. */
  predicate LineSafe(value: Json) {
    match value
    case Null => true
    case Boolean(_) => true
    case Number(_) => true
    case Text(chars) => Unbroken(chars)
    case Array(items) => forall i :: 0 <= i < |items| ==> LineSafe(items[i])
    case Object(fields) => forall i :: 0 <= i < |fields| ==> Unbroken(fields[i].key) && LineSafe(fields[i].value)
  }

  /** Number texts are plain ASCII without control characters. */
  predicate NumbersPlain(value: Json) {
    match value
    case Number(text) => forall k :: 0 <= k < |text| ==> 0x20 < text[k] as int < 0x7f
    case Array(items) => forall i :: 0 <= i < |items| ==> NumbersPlain(items[i])
    case Object(fields) => forall i :: 0 <= i < |fields| ==> NumbersPlain(fields[i].value)
    case _ => true
  }

  /** Only those three boundaries occur, and they occur exactly when `safe` fails. */
  predicate Written(s: string, safe: bool) {
    && (forall k :: 0 <= k < |s| && Boundary(s[k]) ==> Breaks(s[k]))
    && (Unbroken(s) <==> safe)
  }

  lemma {:induction false} WrittenConcat(a: string, b: string, safeA: bool, safeB: bool)
    requires Written(a, safeA) && Written(b, safeB)
    ensures Written(a + b, safeA && safeB)
  {
    hide Boundary, Breaks;
    var all := a + b;
    if Unbroken(all) {
      forall k | 0 <= k < |a|
        ensures !Breaks(a[k])
      {
        assert all[k] == a[k];
      }
      forall k | 0 <= k < |b|
        ensures !Breaks(b[k])
      {
        assert all[|a| + k] == b[k];
      }
    }
  }

  lemma {:induction false} PlainWritten(s: string)
    requires forall k :: 0 <= k < |s| ==> 0x20 <= s[k] as int < 0x7f
    ensures Written(s, true)
  {
  }

  lemma {:induction false} EscapeWritten(c: char)
    ensures Written(Escape(c), !Breaks(c))
  {
    if c as int < 0x20 || c == '"' || c == '\\' {
      PlainWritten(Escape(c));
    } else {
      assert Escape(c) == [c];
      assert Escape(c)[0] == c;
    }
  }

  lemma {:induction false} EscapeAllWritten(s: string)
    ensures Written(EscapeAll(s), Unbroken(s))
  {
    hide Breaks, Boundary, Escape;
    if s != "" {
      var front, last := s[..|s| - 1], s[|s| - 1];
      assert s == front + [last];
      EscapeAllWritten(front);
      EscapeWritten(last);
      WrittenConcat(EscapeAll(front), Escape(last), Unbroken(front), !Breaks(last));
      assert Unbroken(s) <==> Unbroken(front) && !Breaks(last);
    }
  }

  lemma {:induction false} QuoteWritten(s: string)
    ensures Written(Quote(s), Unbroken(s))
  {
    hide Written, Unbroken;
    EscapeAllWritten(s);
    PlainWritten(['"']);
    WrittenConcat(['"'], EscapeAll(s), true, Unbroken(s));
    WrittenConcat(['"'] + EscapeAll(s), ['"'], Unbroken(s), true);
  }

  lemma {:induction false} Wrapped(open: string, s: string, close: string, safe: bool)
    requires Written(open, true) && Written(s, safe) && Written(close, true)
    ensures Written(open + s + close, safe)
  {
    hide Written;
    WrittenConcat(open, s, true, safe);
    WrittenConcat(open + s, close, safe, true);
  }

  /** The line ends in a serialized value are exactly the unescaped ones of its strings. */
  lemma {:induction false} DumpsWritten(value: Json)
    requires NumbersPlain(value)
    ensures Written(Dumps(value), LineSafe(value))
    decreases value
  {
    hide Written, Quote, Unbroken;
    match value
    case Null => PlainWritten("null");
    case Boolean(b) => PlainWritten(if b then "true" else "false");
    case Number(text) => PlainWritten(text);
    case Text(chars) => QuoteWritten(chars);
    case Array(items) =>
      ItemsWritten(value, items);
      PlainWritten("[");
      PlainWritten("]");
      Wrapped("[", DumpItems(items), "]", LineSafe(value));
    case Object(fields) =>
      FieldsWritten(value, fields);
      PlainWritten("{");
      PlainWritten("}");
      Wrapped("{", DumpFields(fields), "}", LineSafe(value));
  }

  predicate ItemsSafe(items: seq<Json>) {
    forall i :: 0 <= i < |items| ==> LineSafe(items[i])
  }

  lemma {:induction false} ItemsWritten(value: Json, items: seq<Json>)
    requires forall i :: 0 <= i < |items| ==> items[i] < value && NumbersPlain(items[i])
    ensures Written(DumpItems(items), ItemsSafe(items))
    decreases value, |items|
  {
    hide Written, Dumps;
    if items == [] {
      PlainWritten("");
    } else {
      var last := |items| - 1;
      ItemsWritten(value, items[..last]);
      DumpsWritten(items[last]);
      PlainWritten(Comma(last == 0));
      WrittenConcat(DumpItems(items[..last]), Comma(last == 0), ItemsSafe(items[..last]), true);
      WrittenConcat(DumpItems(items[..last]) + Comma(last == 0), Dumps(items[last]), ItemsSafe(items[..last]),
                    LineSafe(items[last]));
      assert ItemsSafe(items) <==> ItemsSafe(items[..last]) && LineSafe(items[last]);
    }
  }

  predicate FieldsSafe(fields: seq<Field>) {
    forall i :: 0 <= i < |fields| ==> Unbroken(fields[i].key) && LineSafe(fields[i].value)
  }

  lemma {:induction false} FieldsWritten(value: Json, fields: seq<Field>)
    requires forall i :: 0 <= i < |fields| ==> fields[i].value < value && NumbersPlain(fields[i].value)
    ensures Written(DumpFields(fields), FieldsSafe(fields))
    decreases value, |fields|
  {
    hide Written, Dumps, Quote, Unbroken;
    if fields == [] {
      PlainWritten("");
    } else {
      var last := |fields| - 1;
      var before, key := DumpFields(fields[..last]), Quote(fields[last].key);
      FieldsWritten(value, fields[..last]);
      DumpsWritten(fields[last].value);
      QuoteWritten(fields[last].key);
      PlainWritten(Comma(last == 0));
      PlainWritten(":");
      WrittenConcat(before, Comma(last == 0), FieldsSafe(fields[..last]), true);
      WrittenConcat(before + Comma(last == 0), key, FieldsSafe(fields[..last]), Unbroken(fields[last].key));
      var safe := FieldsSafe(fields[..last]) && Unbroken(fields[last].key);
      WrittenConcat(before + Comma(last == 0) + key, ":", safe, true);
      WrittenConcat(before + Comma(last == 0) + key + ":", Dumps(fields[last].value), safe,
                    LineSafe(fields[last].value));
      assert FieldsSafe(fields) <==> safe && LineSafe(fields[last].value);
    }
  }

  // ----- The round trip -----

  lemma {:induction false} LoadedCount(lines: seq<string>, parse: string -> Option<Json>)
    requires Loaded(lines, parse).Some?
    ensures |Loaded(lines, parse).value| == |lines|
  {
    if lines != [] {
      LoadedCount(lines[..|lines| - 1], parse);
    }
  }

  lemma {:induction false} LoadedCons(line: string, head: Json, rest: seq<string>, tail: seq<Json>,
                                      parse: string -> Option<Json>)
    requires parse(line) == Some(head) && head.Object? && Loaded(rest, parse) == Some(tail)
    ensures Loaded([line] + rest, parse) == Some([head] + tail)
    decreases |rest|
  {
    var lines := [line] + rest;
    if rest == [] {
      assert lines[..0] == [] && lines[|lines| - 1] == line;
      assert [head] + tail == [] + [head];
    } else {
      var last := |rest| - 1;
      var front := Loaded(rest[..last], parse).value;
      LoadedCons(line, head, rest[..last], front, parse);
      assert lines[..|lines| - 1] == [line] + rest[..last];
      assert lines[|lines| - 1] == rest[last];
      assert [head] + tail == ([head] + front) + [parse(rest[last]).value];
    }
  }

  /** The parser inverts the writer on these records. */
  predicate Parses(records: seq<Json>, parse: string -> Option<Json>) {
    forall i :: 0 <= i < |records| ==>
      records[i].Object? && NumbersPlain(records[i]) && parse(Dumps(records[i])) == Some(records[i])
  }

  predicate AllLineSafe(records: seq<Json>) {
    forall i :: 0 <= i < |records| ==> LineSafe(records[i])
  }

  lemma {:induction false} RecordLines(record: Json)
    requires record.Object? && NumbersPlain(record)
    ensures SplitLines(Dumps(record) + "\n") != []
    ensures LineSafe(record) ==> SplitLines(Dumps(record) + "\n") == [Dumps(record)]
    ensures !LineSafe(record) ==> |SplitLines(Dumps(record) + "\n")| >= 2
  {
    hide SplitLines, Dumps, LineSafe, NumbersPlain;
    var line := Dumps(record);
    DumpsWritten(record);
    if LineSafe(record) {
      SingleLine(line);
    } else {
      var k :| 0 <= k < |line| && Breaks(line[k]);
      forall m | 0 <= m < |line|
        ensures line[m] != '\r'
      {
      }
      BrokenLine(line, k);
    }
  }

  lemma {:induction false} SplitFirst(record: Json, rest: seq<Json>)
    ensures SplitLines(Jsonl([record] + rest)) == SplitLines(Dumps(record) + "\n") + SplitLines(Jsonl(rest))
  {
    hide SplitLines, Dumps;
    assert ([record] + rest)[1..] == rest;
    LinesConcat(Dumps(record) + "\n", Jsonl(rest));
  }

  lemma {:induction false} NothingWritten(parse: string -> Option<Json>)
    ensures Loaded(SplitLines(Jsonl([])), parse) == Some([])
  {
    assert SplitLines("") == [];
  }

  lemma {:induction false} OneMoreReturns(record: Json, rest: seq<Json>, parse: string -> Option<Json>)
    requires record.Object? && NumbersPlain(record) && LineSafe(record) && parse(Dumps(record)) == Some(record)
    requires Loaded(SplitLines(Jsonl(rest)), parse) == Some(rest)
    ensures Loaded(SplitLines(Jsonl([record] + rest)), parse) == Some([record] + rest)
  {
    hide SplitLines, Dumps, LineSafe, NumbersPlain, Jsonl;
    SplitFirst(record, rest);
    RecordLines(record);
    LoadedCons(Dumps(record), record, SplitLines(Jsonl(rest)), rest, parse);
  }

  /** Records without the three characters are read back as written. */
  lemma {:induction false} SafeRecordsReturn(records: seq<Json>, parse: string -> Option<Json>)
    requires Parses(records, parse) && AllLineSafe(records)
    ensures Loaded(SplitLines(Jsonl(records)), parse) == Some(records)
  {
    hide SplitLines, Dumps, LineSafe, NumbersPlain, Loaded, Jsonl;
    if records == [] {
      NothingWritten(parse);
    } else {
      SafeRecordsReturn(records[1..], parse);
      assert records == [records[0]] + records[1..];
      assert LineSafe(records[0]);
      OneMoreReturns(records[0], records[1..], parse);
    }
  }

  /** Otherwise the file has more lines than records. */
  lemma {:induction false} UnsafeRecordsBreak(records: seq<Json>)
    requires forall i :: 0 <= i < |records| ==> records[i].Object? && NumbersPlain(records[i])
    ensures |SplitLines(Jsonl(records))| >= |records|
    ensures !AllLineSafe(records) ==> |SplitLines(Jsonl(records))| > |records|
  {
    if records != [] {
      hide SplitLines, Dumps, LineSafe, NumbersPlain, Jsonl;
      UnsafeRecordsBreak(records[1..]);
      assert records == [records[0]] + records[1..];
      SplitFirst(records[0], records[1..]);
      RecordLines(records[0]);
      if AllLineSafe(records[1..]) && LineSafe(records[0]) {
        forall i | 0 <= i < |records|
          ensures LineSafe(records[i])
        {
          assert i > 0 ==> records[i] == records[1..][i - 1];
        }
      }
    }
  }

  /** The round trip holds if and only if no string of any record holds U+0085, U+2028 or U+2029. */
  lemma {:induction false} RoundTripIff(records: seq<Json>, parse: string -> Option<Json>)
    requires Parses(records, parse)
    ensures Loaded(SplitLines(Jsonl(records)), parse) == Some(records) <==> AllLineSafe(records)
  {
    hide SplitLines, Dumps, LineSafe, NumbersPlain, Jsonl, Loaded;
    if AllLineSafe(records) {
      SafeRecordsReturn(records, parse);
    } else {
      UnsafeRecordsBreak(records);
      if Loaded(SplitLines(Jsonl(records)), parse).Some? {
        LoadedCount(SplitLines(Jsonl(records)), parse);
      }
    }
  }

  /** A record that does not come back: its one text is U+2028. */
  lemma {:induction false} LineSeparatorBreaks(parse: string -> Option<Json>)
    ensures var record := Object([Field("text", Text("\U{2028}"))]);
      Loaded(SplitLines(Jsonl([record])), parse) != Some([record])
  {
    hide SplitLines, Dumps, Jsonl, Loaded;
    var record := Object([Field("text", Text("\U{2028}"))]);
    var field := record.fields[0];
    assert Breaks(field.value.chars[0]);
    assert !LineSafe(field.value);
    assert !LineSafe(record);
    assert !AllLineSafe([record]) by { assert [record][0] == record; }
    UnsafeRecordsBreak([record]);
    if Loaded(SplitLines(Jsonl([record])), parse).Some? {
      LoadedCount(SplitLines(Jsonl([record])), parse);
    }
  }

  // ----- What is written -----

  /** How a character is written: seven have an escape of their own, the other control characters are
      written by number, and everything else is left as it is. */
  lemma {:induction false} EscapeIs(c: char)
    ensures Escape('"') == ['\\', '"'] && Escape('\\') == ['\\', '\\']
    ensures Escape('\n') == ['\\', 'n'] && Escape('\r') == ['\\', 'r'] && Escape('\t') == ['\\', 't']
    ensures c as int == 0x0c ==> Escape(c) == ['\\', 'f']
    ensures c as int == 0x08 ==> Escape(c) == ['\\', 'b']
    ensures c as int < 0x20 && c as int !in {0x08, 0x09, 0x0a, 0x0c, 0x0d} ==>
      Escape(c) == ['\\', 'u', '0', '0', "01"[c as int / 16], "0123456789abcdef"[c as int % 16]]
    ensures c as int >= 0x20 && c != '"' && c != '\\' ==> Escape(c) == [c]
  {
    HexDigitIs(c as int % 16);
    HexDigitIs(c as int / 16 % 16);
  }

  lemma {:induction false} HexDigitIs(n: nat)
    requires n < 16
    ensures HexDigit(n) == "0123456789abcdef"[n]
  {
  }

  /** Items and fields are separated by single commas. */
  lemma {:induction false} ItemsAreSeparated(items: seq<Json>, item: Json)
    ensures DumpItems([]) == "" && DumpItems([item]) == Dumps(item)
    ensures items != [] ==> DumpItems(items + [item]) == DumpItems(items) + "," + Dumps(item)
  {
    hide Dumps;
    assert (items + [item])[..|items|] == items;
    assert [item][..0] == [];
  }

  lemma {:induction false} FieldsAreSeparated(fields: seq<Field>, field: Field)
    ensures DumpFields([]) == "" && DumpFields([field]) == Quote(field.key) + ":" + Dumps(field.value)
    ensures fields != [] ==>
      DumpFields(fields + [field]) == DumpFields(fields) + "," + Quote(field.key) + ":" + Dumps(field.value)
  {
    hide Dumps, Quote;
    assert (fields + [field])[..|fields|] == fields;
    assert [field][..0] == [];
  }

  /** A file is one line per record. */
  lemma {:induction false} RecordsAreLines(record: Json, rest: seq<Json>)
    ensures Jsonl([]) == "" && Jsonl([record] + rest) == Dumps(record) + "\n" + Jsonl(rest)
  {
    hide Dumps;
    assert ([record] + rest)[1..] == rest;
  }
}
