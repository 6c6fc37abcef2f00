/**
 * The import parser (server/lib/csv.js): a first pass that splits the text into
 * records, a second pass that splits each record into trimmed fields, and the mapping
 * of every record after the first onto the header row.
 */
module Csv {
  import opened Wrappers
  import opened Js
  import opened Text

  const EmptyContent := "CSV content is empty."
  const HeaderRequired := "CSV header row is required."

  // ---------------------------------------------------------------------
  // Pass 1: records

  /**
   * The first pass from index `i`, in quote state `inQuotes`, with the record read so far
   * and the records already pushed: a doubled quote inside quotes adds one quote and skips
   * both; any other quote flips the state and is dropped; a newline outside quotes ends the
   * record; a carriage return is dropped; anything else is added. At the end a non-empty
   * last record is kept.
   */
  function Pass1From(text: string, i: nat, inQuotes: bool, current: string, lines: seq<string>): seq<string>
    decreases |text| - i
  {
    if i >= |text| then (if current != "" then lines + [current] else lines)
    else
      var c := text[i];
      if c == '"' && inQuotes && i + 1 < |text| && text[i + 1] == '"' then
        Pass1From(text, i + 2, inQuotes, current + ['"'], lines)
      else if c == '"' then Pass1From(text, i + 1, !inQuotes, current, lines)
      else if c == '\n' && !inQuotes then Pass1From(text, i + 1, inQuotes, "", lines + [current])
      else if c != '\r' then Pass1From(text, i + 1, inQuotes, current + [c], lines)
      else Pass1From(text, i + 1, inQuotes, current, lines)
  }

  /** The records of `text`. */
  function Records(text: string): seq<string>
  {
    Pass1From(text, 0, false, "", [])
  }

  /** The first loop of parseCSV, with its index skipping. */
  method SplitRecords(text: string) returns (lines: seq<string>)
    ensures lines == Records(text)
  {
    var current := "";
    var inQuotes := false;
    lines := [];
    var i := 0;
    while i < |text|
      invariant 0 <= i <= |text|
      invariant Pass1From(text, i, inQuotes, current, lines) == Records(text)
      decreases |text| - i
    {
      var c := text[i];
      if c == '"' && inQuotes && i + 1 < |text| && text[i + 1] == '"' {
        current := current + ['"'];
        i := i + 2;
      } else if c == '"' {
        inQuotes := !inQuotes;
        i := i + 1;
      } else if c == '\n' && !inQuotes {
        lines := lines + [current];
        current := "";
        i := i + 1;
      } else {
        if c != '\r' {
          current := current + [c];
        }
        i := i + 1;
      }
    }
    if current != "" {
      lines := lines + [current];
    }
  }

  predicate NoCarriageReturn(s: string)
  {
    forall k :: 0 <= k < |s| ==> s[k] != '\r'
  }

  lemma {:induction false} Pass1FromNoCarriageReturn(text: string, i: nat, inQuotes: bool, current: string, lines: seq<string>)
    requires NoCarriageReturn(current) && forall l :: l in lines ==> NoCarriageReturn(l)
    ensures forall l :: l in Pass1From(text, i, inQuotes, current, lines) ==> NoCarriageReturn(l)
    decreases |text| - i
  {
    if i < |text| {
      var c := text[i];
      if c == '"' && inQuotes && i + 1 < |text| && text[i + 1] == '"' {
        Pass1FromNoCarriageReturn(text, i + 2, inQuotes, current + ['"'], lines);
      } else if c == '"' {
        Pass1FromNoCarriageReturn(text, i + 1, !inQuotes, current, lines);
      } else if c == '\n' && !inQuotes {
        Pass1FromNoCarriageReturn(text, i + 1, inQuotes, "", lines + [current]);
      } else if c != '\r' {
        Pass1FromNoCarriageReturn(text, i + 1, inQuotes, current + [c], lines);
      } else {
        Pass1FromNoCarriageReturn(text, i + 1, inQuotes, current, lines);
      }
    }
  }

  /** No record contains a carriage return. */
  lemma RecordsHaveNoCarriageReturn(text: string)
    ensures forall l :: l in Records(text) ==> NoCarriageReturn(l)
  {
    Pass1FromNoCarriageReturn(text, 0, false, "", []);
  }

  predicate NoQuote(s: string)
  {
    forall k :: 0 <= k < |s| ==> s[k] != '"'
  }

  /**
   * Records of quote-free text, defined directly: split at every newline, carriage
   * returns dropped, and the piece after the last newline kept only when it is non-empty.
   */
  function LinesOf(rest: string, current: string): seq<string>
  {
    if rest == [] then (if current != "" then [current] else [])
    else if rest[0] == '\n' then [current] + LinesOf(rest[1..], "")
    else if rest[0] == '\r' then LinesOf(rest[1..], current)
    else LinesOf(rest[1..], current + [rest[0]])
  }

  lemma {:induction false} Pass1FromQuoteFree(text: string, i: nat, current: string, lines: seq<string>)
    requires i <= |text| && NoQuote(text)
    ensures Pass1From(text, i, false, current, lines) == lines + LinesOf(text[i..], current)
    decreases |text| - i
  {
    if i < |text| {
      assert text[i..][0] == text[i] && text[i..][1..] == text[i + 1..];
      var c := text[i];
      if c == '\n' {
        Pass1FromQuoteFree(text, i + 1, "", lines + [current]);
      } else if c != '\r' {
        Pass1FromQuoteFree(text, i + 1, current + [c], lines);
      } else {
        Pass1FromQuoteFree(text, i + 1, current, lines);
      }
    }
  }

  /** On text without quotes the first pass is the plain newline split. */
  lemma RecordsOfQuoteFreeText(text: string)
    requires NoQuote(text)
    ensures Records(text) == LinesOf(text, "")
  {
    Pass1FromQuoteFree(text, 0, "", []);
    assert text[0..] == text;
  }

  /** One step of the first pass over an ordinary character: it is added to the record. */
  lemma Pass1Plain(text: string, i: nat, inQuotes: bool, current: string, lines: seq<string>, next: string)
    requires i < |text| && text[i] != '"' && text[i] != '\r' && !(text[i] == '\n' && !inQuotes)
    requires next == current + [text[i]]
    ensures Pass1From(text, i, inQuotes, current, lines) == Pass1From(text, i + 1, inQuotes, next, lines)
  {
  }

  /** A doubled quote inside quotes adds one quote and skips both characters. */
  lemma Pass1DoubledQuote(text: string, i: nat, current: string, lines: seq<string>, next: string)
    requires i + 1 < |text| && text[i] == '"' && text[i + 1] == '"'
    requires next == current + ['"']
    ensures Pass1From(text, i, true, current, lines) == Pass1From(text, i + 2, true, next, lines)
  {
  }

  /** A newline outside quotes ends the record. */
  lemma Pass1Newline(text: string, i: nat, current: string, lines: seq<string>, next: seq<string>)
    requires i < |text| && text[i] == '\n'
    requires next == lines + [current]
    ensures Pass1From(text, i, false, current, lines) == Pass1From(text, i + 1, false, "", next)
  {
  }

  /** One step of the second pass over an ordinary character: it is added to the field. */
  lemma FieldsPlain(line: string, i: nat, quoted: bool, field: string, fields: seq<string>, next: string)
    requires i < |line| && line[i] != '"' && !(line[i] == ',' && !quoted)
    requires next == field + [line[i]]
    ensures FieldsFrom(line, i, quoted, field, fields) == FieldsFrom(line, i + 1, quoted, next, fields)
  {
  }

  /** Inside quotes a comma is kept and the quotes themselves are dropped. */
  lemma QuotedCommaKept()
    ensures Records("\"a,b\"") == ["a,b"]
  {
    var t := "\"a,b\"";
    calc {
      Records(t);
      Pass1From(t, 1, true, "", []);
      == { Pass1Plain(t, 1, true, "", [], "a"); }
      Pass1From(t, 2, true, "a", []);
      == { Pass1Plain(t, 2, true, "a", [], "a,"); }
      Pass1From(t, 3, true, "a,", []);
      == { Pass1Plain(t, 3, true, "a,", [], "a,b"); }
      Pass1From(t, 4, true, "a,b", []);
      Pass1From(t, 5, false, "a,b", []);
    }
  }

  /** Inside quotes a newline does not end the record. */
  lemma QuotedNewlineKept()
    ensures Records("\"a\nb\"") == ["a\nb"]
  {
    var t := "\"a\nb\"";
    calc {
      Records(t);
      Pass1From(t, 1, true, "", []);
      == { Pass1Plain(t, 1, true, "", [], "a"); }
      Pass1From(t, 2, true, "a", []);
      == { Pass1Plain(t, 2, true, "a", [], "a\n"); }
      Pass1From(t, 3, true, "a\n", []);
      == { Pass1Plain(t, 3, true, "a\n", [], "a\nb"); }
      Pass1From(t, 4, true, "a\nb", []);
      Pass1From(t, 5, false, "a\nb", []);
    }
  }

  /** A doubled quote inside quotes becomes one quote. */
  lemma DoubledQuoteInsideQuotes()
    ensures Records("\"x\"\"y\"") == ["x\"y"]
  {
    var t := "\"x\"\"y\"";
    calc {
      Records(t);
      Pass1From(t, 1, true, "", []);
      == { Pass1Plain(t, 1, true, "", [], "x"); }
      Pass1From(t, 2, true, "x", []);
      == { Pass1DoubledQuote(t, 2, "x", [], "x\""); }
      Pass1From(t, 4, true, "x\"", []);
      == { Pass1Plain(t, 4, true, "x\"", [], "x\"y"); }
      Pass1From(t, 5, true, "x\"y", []);
      Pass1From(t, 6, false, "x\"y", []);
    }
  }

  // ---------------------------------------------------------------------
  // Pass 2: fields

  /**
   * The second pass over one record: quotes behave as in the first pass, and a comma
   * outside quotes ends the field; every field is trimmed when it is pushed.
   */
  function FieldsFrom(line: string, i: nat, quoted: bool, field: string, fields: seq<string>): seq<string>
    decreases |line| - i
  {
    if i >= |line| then fields + [Trim(field)]
    else
      var c := line[i];
      if c == '"' && quoted && i + 1 < |line| && line[i + 1] == '"' then
        FieldsFrom(line, i + 2, quoted, field + ['"'], fields)
      else if c == '"' then FieldsFrom(line, i + 1, !quoted, field, fields)
      else if c == ',' && !quoted then FieldsFrom(line, i + 1, quoted, "", fields + [Trim(field)])
      else FieldsFrom(line, i + 1, quoted, field + [c], fields)
  }

  function Fields(line: string): seq<string>
  {
    FieldsFrom(line, 0, false, "", [])
  }

  /** The loop over one record in the second pass of parseCSV. */
  method SplitFields(line: string) returns (fields: seq<string>)
    ensures fields == Fields(line)
  {
    var field := "";
    var quoted := false;
    fields := [];
    var i := 0;
    while i < |line|
      invariant 0 <= i <= |line|
      invariant FieldsFrom(line, i, quoted, field, fields) == Fields(line)
      decreases |line| - i
    {
      var c := line[i];
      if c == '"' && quoted && i + 1 < |line| && line[i + 1] == '"' {
        field := field + ['"'];
        i := i + 2;
      } else if c == '"' {
        quoted := !quoted;
        i := i + 1;
      } else if c == ',' && !quoted {
        fields := fields + [Trim(field)];
        field := "";
        i := i + 1;
      } else {
        field := field + [c];
        i := i + 1;
      }
    }
    fields := fields + [Trim(field)];
  }

  /**
   * The number of commas outside quotes from index `i`, tracking only the quote state
   * (a doubled quote inside quotes leaves it unchanged).
   */
  function UnquotedCommas(line: string, i: nat, quoted: bool): nat
    decreases |line| - i
  {
    if i >= |line| then 0
    else if line[i] == '"' && quoted && i + 1 < |line| && line[i + 1] == '"' then UnquotedCommas(line, i + 2, quoted)
    else if line[i] == '"' then UnquotedCommas(line, i + 1, !quoted)
    else if line[i] == ',' && !quoted then 1 + UnquotedCommas(line, i + 1, quoted)
    else UnquotedCommas(line, i + 1, quoted)
  }

  lemma {:induction false} FieldsFromCount(line: string, i: nat, quoted: bool, field: string, fields: seq<string>)
    ensures |FieldsFrom(line, i, quoted, field, fields)| == |fields| + 1 + UnquotedCommas(line, i, quoted)
    decreases |line| - i
  {
    if i < |line| {
      var c := line[i];
      if c == '"' && quoted && i + 1 < |line| && line[i + 1] == '"' {
        FieldsFromCount(line, i + 2, quoted, field + ['"'], fields);
      } else if c == '"' {
        FieldsFromCount(line, i + 1, !quoted, field, fields);
      } else if c == ',' && !quoted {
        FieldsFromCount(line, i + 1, quoted, "", fields + [Trim(field)]);
      } else {
        FieldsFromCount(line, i + 1, quoted, field + [c], fields);
      }
    }
  }

  /** A record has one field more than it has commas outside quotes. */
  lemma FieldCount(line: string)
    ensures |Fields(line)| == 1 + UnquotedCommas(line, 0, false)
  {
    FieldsFromCount(line, 0, false, "", []);
  }

  predicate Trimmed(s: string)
  {
    Trim(s) == s
  }

  lemma {:induction false} FieldsFromTrimmed(line: string, i: nat, quoted: bool, field: string, fields: seq<string>)
    requires forall f :: f in fields ==> Trimmed(f)
    ensures forall f :: f in FieldsFrom(line, i, quoted, field, fields) ==> Trimmed(f)
    decreases |line| - i
  {
    TrimIdempotent(field);
    if i < |line| {
      var c := line[i];
      if c == '"' && quoted && i + 1 < |line| && line[i + 1] == '"' {
        FieldsFromTrimmed(line, i + 2, quoted, field + ['"'], fields);
      } else if c == '"' {
        FieldsFromTrimmed(line, i + 1, !quoted, field, fields);
      } else if c == ',' && !quoted {
        FieldsFromTrimmed(line, i + 1, quoted, "", fields + [Trim(field)]);
      } else {
        FieldsFromTrimmed(line, i + 1, quoted, field + [c], fields);
      }
    }
  }

  /** Every field is trimmed. */
  lemma FieldsAreTrimmed(line: string)
    ensures forall f :: f in Fields(line) ==> Trimmed(f)
  {
    FieldsFromTrimmed(line, 0, false, "", []);
  }

  // ---------------------------------------------------------------------
  // Header mapping

  /** `row[index] !== undefined ? row[index] : ""`. */
  function Cell(row: seq<string>, index: nat): string
  {
    if index < |row| then row[index] else ""
  }

  /** `headers[j]` does not occur again after index `j`. */
  predicate LastOccurrence(headers: seq<string>, j: nat)
    requires j < |headers|
  {
    forall k :: j < k < |headers| ==> headers[k] != headers[j]
  }

  /** The object of one record: every header in order gets its cell, so a repeated header keeps the last. */
  function RowObject(headers: seq<string>, row: seq<string>): map<string, string>
  {
    if headers == [] then map[]
    else RowObject(headers[..|headers| - 1], row)[headers[|headers| - 1] := Cell(row, |headers| - 1)]
  }

  /** The object has exactly the header keys. */
  lemma {:induction false} RowObjectKeys(headers: seq<string>, row: seq<string>)
    ensures RowObject(headers, row).Keys == set h | h in headers
  {
    if headers != [] {
      var n := |headers| - 1;
      RowObjectKeys(headers[..n], row);
      assert forall h :: h in headers <==> h in headers[..n] || h == headers[n];
    }
  }

  /** The value of a header is the cell under its last occurrence ("" when the record is short). */
  lemma {:induction false} RowObjectValues(headers: seq<string>, row: seq<string>, j: nat)
    requires j < |headers| && LastOccurrence(headers, j)
    ensures headers[j] in RowObject(headers, row) && RowObject(headers, row)[headers[j]] == Cell(row, j)
  {
    var n := |headers| - 1;
    if j < n {
      var prefix := headers[..n];
      assert prefix[j] == headers[j];
      assert headers[j] != headers[n];
      assert LastOccurrence(prefix, j) by {
        forall k | j < k < n ensures prefix[k] != prefix[j] { assert prefix[k] == headers[k]; }
      }
      RowObjectValues(prefix, row, j);
    }
  }

  /** The fields of every record. */
  function FieldRows(lines: seq<string>): (rows: seq<seq<string>>)
    ensures |rows| == |lines| && forall i :: 0 <= i < |lines| ==> rows[i] == Fields(lines[i])
  {
    seq(|lines|, i requires 0 <= i < |lines| => Fields(lines[i]))
  }

  /** One object per record. */
  function Objects(headers: seq<string>, rows: seq<seq<string>>): (objs: seq<map<string, string>>)
    ensures |objs| == |rows| && forall i :: 0 <= i < |rows| ==> objs[i] == RowObject(headers, rows[i])
  {
    seq(|rows|, i requires 0 <= i < |rows| => RowObject(headers, rows[i]))
  }

  predicate NoEmptyCell(headers: seq<string>)
  {
    forall k :: 0 <= k < |headers| ==> headers[k] != ""
  }

  /** The parse result: one object per record after the header row. */
  function ParseCsv(text: Value): (r: Result<seq<map<string, string>>, string>)
    ensures r.Failure? ==> r.error == EmptyContent || r.error == HeaderRequired
    ensures !text.Str? || AllWhitespace(text.s) ==> r == Failure(EmptyContent)
    ensures text.Str? && Records(text.s) == [] ==> r == Failure(EmptyContent)
    ensures text.Str? && !AllWhitespace(text.s) && Records(text.s) != [] ==>
              (r.Success? <==> NoEmptyCell(Fields(Records(text.s)[0])))
    ensures r.Success? ==>
              var rows := Records(text.s);
              && rows != []
              && |r.value| == |rows| - 1
              && NoEmptyCell(Fields(rows[0]))
              && forall i :: 0 <= i < |r.value| ==> r.value[i] == RowObject(Fields(rows[0]), Fields(rows[i + 1]))
  {
    if !text.Str? || Trim(text.s) == "" then Failure(EmptyContent)
    else
      var lines := Records(text.s);
      if lines == [] then Failure(EmptyContent)
      else
        var headers := Fields(lines[0]);
        if !NoEmptyCell(headers) then Failure(HeaderRequired)
        else Success(Objects(headers, FieldRows(lines[1..])))
  }

  /** Each object has exactly the header keys. */
  lemma ParsedObjectsHaveHeaderKeys(text: Value)
    requires ParseCsv(text).Success?
    ensures forall o :: o in ParseCsv(text).value ==> o.Keys == set h | h in Fields(Records(text.s)[0])
  {
    var rows := Records(text.s);
    forall o | o in ParseCsv(text).value ensures o.Keys == set h | h in Fields(rows[0]) {
      var i :| 0 <= i < |ParseCsv(text).value| && ParseCsv(text).value[i] == o;
      RowObjectKeys(Fields(rows[0]), Fields(rows[i + 1]));
    }
  }

  /** The second loop of parseCSV: the fields of every record. */
  method SplitAllFields(lines: seq<string>) returns (rows: seq<seq<string>>)
    ensures rows == FieldRows(lines)
  {
    rows := [];
    var i := 0;
    while i < |lines|
      invariant 0 <= i <= |lines| && |rows| == i
      invariant forall k :: 0 <= k < i ==> rows[k] == Fields(lines[k])
    {
      var fields := SplitFields(lines[i]);
      rows := rows + [fields];
      i := i + 1;
    }
  }

  /** `headers.every((header) => header)`. */
  method EveryCellNonEmpty(headers: seq<string>) returns (ok: bool)
    ensures ok == NoEmptyCell(headers)
  {
    var k := 0;
    while k < |headers|
      invariant 0 <= k <= |headers|
      invariant forall j :: 0 <= j < k ==> headers[j] != ""
    {
      if headers[k] == "" {
        return false;
      }
      k := k + 1;
    }
    return true;
  }

  /** `rows.slice(1).map(...)`: the object of every record after the header row. */
  method MapRecords(headers: seq<string>, rows: seq<seq<string>>) returns (objects: seq<map<string, string>>)
    requires |rows| >= 1
    ensures objects == Objects(headers, rows[1..])
  {
    objects := [];
    var j := 1;
    while j < |rows|
      invariant 1 <= j <= |rows| && |objects| == j - 1
      invariant forall m :: 0 <= m < j - 1 ==> objects[m] == RowObject(headers, rows[m + 1])
    {
      objects := objects + [RowObject(headers, rows[j])];
      j := j + 1;
    }
  }

  /**
   * parseCSV: rejects text that is not a string or is blank, splits the records, splits
   * each record into fields, rejects a header row with an empty cell, and maps every
   * later record onto the headers.
   */
  method ParseCSV(text: Value) returns (r: Result<seq<map<string, string>>, string>)
    ensures r == ParseCsv(text)
  {
    if !text.Str? || Trim(text.s) == "" {
      return Failure(EmptyContent);
    }
    var lines := SplitRecords(text.s);
    var rows := SplitAllFields(lines);
    if |rows| == 0 {
      return Failure(EmptyContent);
    }
    // `rows[0].map((header) => header.trim())`: the fields are trimmed already.
    var headers := seq(|rows[0]|, i requires 0 <= i < |rows[0]| => Trim(rows[0][i]));
    assert headers == rows[0] by {
      FieldsAreTrimmed(lines[0]);
      forall i | 0 <= i < |rows[0]| ensures headers[i] == rows[0][i] { assert rows[0][i] in Fields(lines[0]); }
    }
    var ok := EveryCellNonEmpty(headers);
    if !ok {
      return Failure(HeaderRequired);
    }
    var objects := MapRecords(headers, rows);
    assert rows[1..] == FieldRows(lines[1..]);
    r := Success(objects);
  }

  /** Text made only of quotes is not blank, yet it has no record, so it is rejected as empty. */
  lemma OnlyQuotesIsEmpty()
    ensures ParseCsv(Str("\"\"")) == Failure(EmptyContent)
  {
    var t := "\"\"";
    calc {
      Records(t);
      Pass1From(t, 1, true, "", []);
      Pass1From(t, 2, false, "", []);
    }
  }

  /** The records of the exported text `name` / `"a,b"`. */
  lemma ExportedRecords()
    ensures Records("name\n\"a,b\"") == ["name", "a,b"]
  {
    var t := "name\n\"a,b\"";
    calc {
      Records(t);
      == { Pass1Plain(t, 0, false, "", [], "n"); }
      Pass1From(t, 1, false, "n", []);
      == { Pass1Plain(t, 1, false, "n", [], "na"); }
      Pass1From(t, 2, false, "na", []);
      == { Pass1Plain(t, 2, false, "na", [], "nam"); }
      Pass1From(t, 3, false, "nam", []);
      == { Pass1Plain(t, 3, false, "nam", [], "name"); }
      Pass1From(t, 4, false, "name", []);
      == { Pass1Newline(t, 4, "name", [], ["name"]); }
      Pass1From(t, 5, false, "", ["name"]);
      Pass1From(t, 6, true, "", ["name"]);
      == { Pass1Plain(t, 6, true, "", ["name"], "a"); }
      Pass1From(t, 7, true, "a", ["name"]);
      == { Pass1Plain(t, 7, true, "a", ["name"], "a,"); }
      Pass1From(t, 8, true, "a,", ["name"]);
      == { Pass1Plain(t, 8, true, "a,", ["name"], "a,b"); }
      Pass1From(t, 9, true, "a,b", ["name"]);
      Pass1From(t, 10, false, "a,b", ["name"]);
    }
  }

  lemma FieldsOfName()
    ensures Fields("name") == ["name"]
  {
    TrimNoop("name");
    calc {
      Fields("name");
      == { FieldsPlain("name", 0, false, "", [], "n"); }
      FieldsFrom("name", 1, false, "n", []);
      == { FieldsPlain("name", 1, false, "n", [], "na"); }
      FieldsFrom("name", 2, false, "na", []);
      == { FieldsPlain("name", 2, false, "na", [], "nam"); }
      FieldsFrom("name", 3, false, "nam", []);
      == { FieldsPlain("name", 3, false, "nam", [], "name"); }
      FieldsFrom("name", 4, false, "name", []);
    }
  }

  lemma FieldsOfQuotedComma()
    ensures Fields("a,b") == ["a", "b"]
  {
    TrimNoop("a");
    TrimNoop("b");
    calc {
      Fields("a,b");
      == { FieldsPlain("a,b", 0, false, "", [], "a"); }
      FieldsFrom("a,b", 1, false, "a", []);
      FieldsFrom("a,b", 2, false, "", ["a"]);
      == { FieldsPlain("a,b", 2, false, "", ["a"], "b"); }
      FieldsFrom("a,b", 3, false, "b", ["a"]);
    }
  }

  /**
   * Import does not invert export: the export writes a name containing a comma in quotes,
   * the first pass drops the quotes, and the second pass splits at the comma.
   */
  lemma QuotedCommaDoesNotRoundTrip()
    ensures ParseCsv(Str("name\n\"a,b\"")) == Success([map["name" := "a"]])
  {
    var t := "name\n\"a,b\"";
    TrimNoop(t);
    ExportedRecords();
    FieldsOfName();
    FieldsOfQuotedComma();
    assert ["name", "a,b"][1..] == ["a,b"];
    assert FieldRows(["a,b"]) == [["a", "b"]];
    assert RowObject(["name"], ["a", "b"]) == map["name" := "a"] by {
      assert ["name"][..0] == [];
    }
    assert NoEmptyCell(["name"]);
    assert Objects(["name"], [["a", "b"]]) == [map["name" := "a"]];
    assert Trim(t) != "";
  }
}
