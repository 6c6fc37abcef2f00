/**
 * The CSV export routes (server/routes/export.js): the cell encoder and the document
 * builder, and the row builders of the players, payments, attendance and stats exports.
 */
module Export {
  import opened Wrappers
  import opened Js
  import opened Text
  import opened Club
  import opened PaymentStatus
  import opened FeeCopies
  import opened Fines
  import Csv

  // ---------------------------------------------------------------------
  // csvEscape and toCsv

  /** The characters `/[",\n]/` looks for. */
  predicate IsSpecial(c: char)
  {
    c == '"' || c == ',' || c == '\n'
  }

  predicate NeedsQuotes(s: string)
  {
    exists k :: 0 <= k < |s| && IsSpecial(s[k])
  }

  /** The text of a cell: "" for null and undefined, `String(value)` otherwise. */
  function CellText(v: Value): (r: string)
    ensures v.Null? || v.Undefined? ==> r == ""
    ensures v.Str? ==> r == v.s
  {
    if v.Null? || v.Undefined? then "" else StringOf(v)
  }

  function QuoteHead(c: char): string
  {
    if c == '"' then "\"\"" else [c]
  }

  /** `str.replace(/"/g, "\"\"")`. */
  function DoubleQuotes(s: string): (r: string)
    ensures |r| >= |s|
  {
    if s == [] then [] else QuoteHead(s[0]) + DoubleQuotes(s[1..])
  }

  /**
   * csvEscape: a text containing a quote, a comma or a newline is wrapped in quotes with its
   * quotes doubled; any other text, and "" for null or undefined, is written as it is.
   */
  function CsvEscape(v: Value): (r: string)
    ensures v.Null? || v.Undefined? ==> r == ""
    ensures !NeedsQuotes(CellText(v)) ==> r == CellText(v)
    ensures NeedsQuotes(CellText(v)) ==> |r| >= |CellText(v)| + 2 && r[0] == '"' && r[|r| - 1] == '"'
  {
    var s := CellText(v);
    if NeedsQuotes(s) then "\"" + DoubleQuotes(s) + "\"" else s
  }

  /** Inside quotes, the encoding of one character is read back as that character. */
  lemma Pass1ReadsQuoteHead(pre: string, c: char, rest: string, current: string, lines: seq<string>)
    requires c != '\r'
    ensures var text := pre + QuoteHead(c) + rest;
            Csv.Pass1From(text, |pre|, true, current, lines)
            == Csv.Pass1From(text, |pre| + |QuoteHead(c)|, true, current + [c], lines)
  {
    var text := pre + QuoteHead(c) + rest;
    if c == '"' {
      assert text[|pre|] == '"' && text[|pre| + 1] == '"';
      Csv.Pass1DoubledQuote(text, |pre|, current, lines, current + [c]);
    } else {
      assert text[|pre|] == c;
      Csv.Pass1Plain(text, |pre|, true, current, lines, current + [c]);
    }
  }

  /** The first pass of the import parser, inside quotes, turns a doubled text back into the text. */
  lemma {:induction false} Pass1ReadsDoubled(pre: string, s: string, post: string, current: string, lines: seq<string>)
    requires Csv.NoCarriageReturn(s)
    ensures var text := pre + DoubleQuotes(s) + post;
            Csv.Pass1From(text, |pre|, true, current, lines)
            == Csv.Pass1From(text, |pre| + |DoubleQuotes(s)|, true, current + s, lines)
    decreases |s|
  {
    if s == [] {
      assert current + s == current;
    } else {
      var h := QuoteHead(s[0]);
      var d := DoubleQuotes(s[1..]);
      assert DoubleQuotes(s) == h + d;
      assert pre + DoubleQuotes(s) + post == pre + h + (d + post) == (pre + h) + d + post;
      Pass1ReadsQuoteHead(pre, s[0], d + post, current, lines);
      assert Csv.NoCarriageReturn(s[1..]) by {
        forall k | 0 <= k < |s[1..]| ensures s[1..][k] != '\r' { assert s[1..][k] == s[k + 1]; }
      }
      Pass1ReadsDoubled(pre + h, s[1..], post, current + [s[0]], lines);
      assert current + [s[0]] + s[1..] == current + s;
    }
  }

  /** Outside quotes, a run with no quote, newline or carriage return is added to the record. */
  lemma {:induction false} Pass1ReadsPlain(text: string, i: nat, current: string, lines: seq<string>)
    requires i <= |text|
    requires forall k :: i <= k < |text| ==> text[k] != '"' && text[k] != '\n' && text[k] != '\r'
    requires current + text[i..] != ""
    ensures Csv.Pass1From(text, i, false, current, lines) == lines + [current + text[i..]]
    decreases |text| - i
  {
    if i < |text| {
      Csv.Pass1Plain(text, i, false, current, lines, current + [text[i]]);
      assert (current + [text[i]]) + text[i + 1..] == current + text[i..];
      Pass1ReadsPlain(text, i + 1, current + [text[i]], lines);
    } else {
      assert current + text[i..] == current;
    }
  }

  /** A quoted cell is read back through its quotes, doubled quotes and all. */
  lemma QuotedReadsBack(s: string)
    requires s != "" && Csv.NoCarriageReturn(s)
    ensures Csv.Records("\"" + DoubleQuotes(s) + "\"") == [s]
  {
    var d := DoubleQuotes(s);
    var q := "\"" + d + "\"";
    assert q[0] == '"' && q[1 + |d|] == '"';
    assert Csv.Pass1From(q, 0, false, "", []) == Csv.Pass1From(q, 1, true, "", []);
    Pass1ReadsDoubled("\"", s, "\"", "", []);
    assert "" + s == s;
    assert Csv.Pass1From(q, 1 + |d|, true, s, []) == Csv.Pass1From(q, |q|, false, s, []);
  }

  /** A cell with nothing to quote is one record of itself. */
  lemma PlainReadsBack(s: string)
    requires s != "" && !NeedsQuotes(s) && Csv.NoCarriageReturn(s)
    ensures Csv.Records(s) == [s]
  {
    assert forall k :: 0 <= k < |s| ==> !IsSpecial(s[k]);
    Pass1ReadsPlain(s, 0, "", []);
    assert "" + s[0..] == s;
  }

  /**
   * The encoder and the first pass of the import parser are inverse on one cell: an
   * encoded non-empty text without carriage returns is read back as exactly that text.
   * (The second pass then splits it again at its commas; see Csv.QuotedCommaDoesNotRoundTrip.)
   */
  lemma EscapedTextReadsBack(s: string)
    requires s != "" && Csv.NoCarriageReturn(s)
    ensures Csv.Records(CsvEscape(Str(s))) == [s]
  {
    if NeedsQuotes(s) {
      QuotedReadsBack(s);
    } else {
      PlainReadsBack(s);
    }
  }

  /** `parts.join(sep)`. */
  function Join(parts: seq<string>, sep: char): string
  {
    if parts == [] then ""
    else if |parts| == 1 then parts[0]
    else parts[0] + [sep] + Join(parts[1..], sep)
  }

  /** The pieces of `s` between occurrences of `sep`, in order: the reference for reading lines back. */
  function Split(s: string, sep: char): (r: seq<string>)
    ensures |r| >= 1
  {
    if s == [] then [""]
    else
      var rest := Split(s[1..], sep);
      if s[0] == sep then [""] + rest else [[s[0]] + rest[0]] + rest[1..]
  }

  predicate Free(s: string, sep: char)
  {
    forall k :: 0 <= k < |s| ==> s[k] != sep
  }

  lemma {:induction false} SplitFree(a: string, sep: char)
    requires Free(a, sep)
    ensures Split(a, sep) == [a]
  {
    if a != [] {
      assert Free(a[1..], sep) by {
        forall k | 0 <= k < |a[1..]| ensures a[1..][k] != sep { assert a[1..][k] == a[k + 1]; }
      }
      SplitFree(a[1..], sep);
      assert [a[0]] + a[1..] == a;
    }
  }

  lemma {:induction false} SplitAppend(a: string, b: string, sep: char)
    requires Free(a, sep)
    ensures Split(a + [sep] + b, sep) == [a] + Split(b, sep)
  {
    var s := a + [sep] + b;
    if a == [] {
      assert s[0] == sep && s[1..] == b;
    } else {
      assert s[0] == a[0] && s[1..] == a[1..] + [sep] + b;
      assert Free(a[1..], sep) by {
        forall k | 0 <= k < |a[1..]| ensures a[1..][k] != sep { assert a[1..][k] == a[k + 1]; }
      }
      SplitAppend(a[1..], b, sep);
      assert [a[0]] + a[1..] == a;
    }
  }

  /** Joining pieces that do not contain the separator and splitting again gives the pieces back. */
  lemma {:induction false} SplitJoin(parts: seq<string>, sep: char)
    requires parts != []
    requires forall i :: 0 <= i < |parts| ==> Free(parts[i], sep)
    ensures Split(Join(parts, sep), sep) == parts
  {
    if |parts| == 1 {
      SplitFree(parts[0], sep);
    } else {
      SplitJoin(parts[1..], sep);
      SplitAppend(parts[0], Join(parts[1..], sep), sep);
      assert [parts[0]] + parts[1..] == parts;
    }
  }

  lemma {:induction false} JoinFree(parts: seq<string>, sep: char, c: char)
    requires c != sep
    requires forall i :: 0 <= i < |parts| ==> Free(parts[i], c)
    ensures Free(Join(parts, sep), c)
  {
    if |parts| > 1 {
      JoinFree(parts[1..], sep, c);
      var j := parts[0] + [sep] + Join(parts[1..], sep);
      forall k | 0 <= k < |j| ensures j[k] != c {
        if k > |parts[0]| { assert j[k] == Join(parts[1..], sep)[k - |parts[0]| - 1]; }
      }
    }
  }

  /** `row.map(csvEscape)`. */
  function EscapeEach(row: seq<Value>): (r: seq<string>)
    ensures |r| == |row|
    ensures forall i :: 0 <= i < |row| ==> r[i] == CsvEscape(row[i])
  {
    seq(|row|, i requires 0 <= i < |row| => CsvEscape(row[i]))
  }

  function RowLine(row: seq<Value>): string
  {
    Join(EscapeEach(row), ',')
  }

  /** The lines toCsv collects: the header line, then one line per row. */
  function CsvLines(headers: seq<string>, rows: seq<seq<Value>>): (r: seq<string>)
    ensures |r| == |rows| + 1
    ensures r[0] == Join(headers, ',')
    ensures forall i :: 0 <= i < |rows| ==> r[i + 1] == RowLine(rows[i])
  {
    var body := seq(|rows|, i requires 0 <= i < |rows| => RowLine(rows[i]));
    assert forall i :: 0 <= i < |rows| ==> ([Join(headers, ',')] + body)[i + 1] == body[i];
    [Join(headers, ',')] + body
  }

  /** toCsv: pushes the header line and each row's line, then joins them with newlines. */
  method ToCsv(headers: seq<string>, rows: seq<seq<Value>>) returns (csv: string)
    ensures csv == Join(CsvLines(headers, rows), '\n')
  {
    var lines := [Join(headers, ',')];
    for i := 0 to |rows|
      invariant lines == CsvLines(headers, rows[..i])
    {
      CsvLinesSnoc(headers, rows, i);
      lines := lines + [RowLine(rows[i])];
    }
    assert rows[..|rows|] == rows;
    csv := Join(lines, '\n');
  }

  /** One more row adds its line at the end. */
  lemma CsvLinesSnoc(headers: seq<string>, rows: seq<seq<Value>>, i: nat)
    requires i < |rows|
    ensures CsvLines(headers, rows[..i + 1]) == CsvLines(headers, rows[..i]) + [RowLine(rows[i])]
  {
    var a, b := CsvLines(headers, rows[..i + 1]), CsvLines(headers, rows[..i]) + [RowLine(rows[i])];
    assert |a| == |b|;
    forall k | 0 <= k < |a| ensures a[k] == b[k] {
      if k > 0 { assert rows[..i + 1][k - 1] == rows[k - 1]; }
    }
  }

  lemma FreeConcat(a: string, b: string, c: char)
    requires Free(a, c) && Free(b, c)
    ensures Free(a + b, c)
  {
    forall k | 0 <= k < |a + b| ensures (a + b)[k] != c {
      if k >= |a| { assert (a + b)[k] == b[k - |a|]; }
    }
  }

  lemma {:induction false} DoubleQuotesFree(s: string, c: char)
    requires c != '"' && Free(s, c)
    ensures Free(DoubleQuotes(s), c)
  {
    if s != [] {
      assert Free(s[1..], c) by {
        forall k | 0 <= k < |s[1..]| ensures s[1..][k] != c { assert s[1..][k] == s[k + 1]; }
      }
      DoubleQuotesFree(s[1..], c);
      FreeConcat(QuoteHead(s[0]), DoubleQuotes(s[1..]), c);
    }
  }

  /** Escaping a cell adds no newline. */
  lemma EscapeFree(v: Value)
    requires Free(CellText(v), '\n')
    ensures Free(CsvEscape(v), '\n')
  {
    var s := CellText(v);
    if NeedsQuotes(s) {
      DoubleQuotesFree(s, '\n');
      FreeConcat("\"", DoubleQuotes(s), '\n');
      FreeConcat("\"" + DoubleQuotes(s), "\"", '\n');
    }
  }

  /** A row whose cells hold no newline is written on one line. */
  lemma RowLineFree(row: seq<Value>)
    requires forall j :: 0 <= j < |row| ==> Free(CellText(row[j]), '\n')
    ensures Free(RowLine(row), '\n')
  {
    forall j | 0 <= j < |row| ensures Free(EscapeEach(row)[j], '\n') {
      EscapeFree(row[j]);
    }
    JoinFree(EscapeEach(row), ',', '\n');
  }

  /**
   * When no header and no cell text contains a newline, the document is exactly
   * rows.length + 1 lines: the headers joined by commas, then each row's escaped cells.
   */
  lemma CsvLineCount(headers: seq<string>, rows: seq<seq<Value>>)
    requires forall h :: h in headers ==> Free(h, '\n')
    requires forall i, j :: 0 <= i < |rows| && 0 <= j < |rows[i]| ==> Free(CellText(rows[i][j]), '\n')
    ensures Split(Join(CsvLines(headers, rows), '\n'), '\n') == CsvLines(headers, rows)
    ensures |Split(Join(CsvLines(headers, rows), '\n'), '\n')| == |rows| + 1
  {
    var lines := CsvLines(headers, rows);
    forall i | 0 <= i < |lines| ensures Free(lines[i], '\n') {
      if i == 0 {
        JoinFree(headers, ',', '\n');
      } else {
        RowLineFree(rows[i - 1]);
      }
    }
    SplitJoin(lines, '\n');
  }

  // ---------------------------------------------------------------------
  // players.csv

  const PlayersHeader := ["id", "name", "nickname", "position", "email", "memberSinceYear"]

  /** A players.csv row: the text fields ("" when blank) and the export's member-since year. */
  function PlayersRow(p: Player, currentYear: int): (r: seq<Value>)
    ensures |r| == |PlayersHeader|
    ensures r[5] == Num(ExportMemberSinceYear(p, currentYear))
  {
    [Str(p.id), Str(p.name), Str(p.nickname), Str(p.position), Str(p.email),
     Num(ExportMemberSinceYear(p, currentYear))]
  }

  // ---------------------------------------------------------------------
  // payments.csv

  const PaymentsHeader := ["id", "name", "nickname", "yearKey", "yearlyExpected", "yearlyPaid", "yearlyStatus",
                           "monthKey", "monthlyExpected", "monthlyPaid", "monthlyStatus"]

  datatype PaymentsLine = PaymentsLine(
    id: string, name: string, nickname: string,
    yearKey: string, yearlyExpected: Value, yearlyPaid: int, yearlyStatus: PayStatus,
    monthKey: string, monthlyExpected: Value, monthlyPaid: int, monthlyStatus: PayStatus)

  /**
   * A payments.csv row: the latest yearly key (the current year when there is none), the
   * latest monthly key ("" when there is none), the fees as stored, what was paid and the
   * lower-case status of each.
   */
  function PaymentsLineOf(settings: Settings, p: Player, currentYear: int): (l: PaymentsLine)
    ensures p.yearly == map[] ==> l.yearKey == IntToString(currentYear)
    ensures p.yearly != map[] && MaxString(p.yearly.Keys) != "" ==>
              l.yearKey in p.yearly && forall k :: k in p.yearly ==> StrLe(k, l.yearKey)
    ensures p.monthly != map[] && MaxString(p.monthly.Keys) != "" ==>
              l.monthKey in p.monthly && forall k :: k in p.monthly ==> StrLe(k, l.monthKey)
    ensures l.monthKey == "" ==> l.monthlyExpected == Num(0)
    ensures l.yearlyExpected == (if ParseInt(l.yearKey) == Some(ExportMemberSinceYear(p, currentYear))
                                 then settings.fees.newMemberYearly else settings.fees.renewalYearly)
    ensures l.yearlyPaid == PaidFor(p.yearly, l.yearKey) && l.monthlyPaid == PaidFor(p.monthly, l.monthKey)
    ensures l.yearlyStatus == DeriveStatus(ToNumber(l.yearlyExpected), Some(l.yearlyPaid))
    ensures l.monthlyStatus == DeriveStatus(ToNumber(l.monthlyExpected), Some(l.monthlyPaid))
  {
    var memberSince := ExportMemberSinceYear(p, currentYear);
    var yearKey := LatestKeyOr(p.yearly.Keys, IntToString(currentYear));
    var monthKey := LatestKeyOr(p.monthly.Keys, "");
    var yearlyExpected := if ParseInt(yearKey) == Some(memberSince)
                          then settings.fees.newMemberYearly else settings.fees.renewalYearly;
    var monthlyExpected := if monthKey != "" then CopiedMonthlyExpected(settings.fees.monthlySchedule, monthKey) else Num(0);
    var yearlyPaid := PaidFor(p.yearly, yearKey);
    var monthlyPaid := PaidFor(p.monthly, monthKey);
    PaymentsLine(p.id, p.name, p.nickname,
                 yearKey, yearlyExpected, yearlyPaid, DeriveStatus(ToNumber(yearlyExpected), Some(yearlyPaid)),
                 monthKey, monthlyExpected, monthlyPaid, DeriveStatus(ToNumber(monthlyExpected), Some(monthlyPaid)))
  }

  function PaymentsCells(l: PaymentsLine): (r: seq<Value>)
    ensures |r| == |PaymentsHeader|
  {
    [Str(l.id), Str(l.name), Str(l.nickname),
     Str(l.yearKey), l.yearlyExpected, Num(l.yearlyPaid), Str(LowerName(l.yearlyStatus)),
     Str(l.monthKey), l.monthlyExpected, Num(l.monthlyPaid), Str(LowerName(l.monthlyStatus))]
  }

  /**
   * With numeric fees, a well-formed schedule and a member whose member-since year does not
   * come from the season, the exported amounts are the server's, and the exported status is
   * the server's status in lower case for every payment of at least 0.
   */
  lemma PaymentsLineAgreesWithServer(settings: Settings, p: Player, currentYear: int)
    requires settings.fees.newMemberYearly.Num? && settings.fees.renewalYearly.Num?
    requires WellFormedSchedule(settings.fees.monthlySchedule)
    requires StoredSinceYear(p).Some? || SubscriptionYearNumbers(p) != []
    ensures var l := PaymentsLineOf(settings, p, currentYear);
      && OrZero(l.yearlyExpected) == YearlyExpected(settings, p, l.yearKey, currentYear)
      && (l.monthKey != "" ==> OrZero(l.monthlyExpected) == MonthlyExpected(settings.fees.monthlySchedule, l.monthKey))
      && (l.yearlyPaid >= 0 ==>
            l.yearlyStatus == StatusFromPaid(Num(OrZero(l.yearlyExpected)), Num(l.yearlyPaid)).status)
      && (l.monthlyPaid >= 0 && l.monthKey != "" ==>
            l.monthlyStatus == StatusFromPaid(Num(OrZero(l.monthlyExpected)), Num(l.monthlyPaid)).status)
  {
    var l := PaymentsLineOf(settings, p, currentYear);
    ExportMemberSinceYearSkipsSeason(settings, p, currentYear);
    DeriveStatusVsServer(ToNumber(l.yearlyExpected), Some(l.yearlyPaid));
    if l.monthKey != "" {
      CopyAgreesWithServer(settings.fees.monthlySchedule, l.monthKey);
      DeriveStatusVsServer(ToNumber(l.monthlyExpected), Some(l.monthlyPaid));
    }
  }

  // ---------------------------------------------------------------------
  // attendance.csv

  const AttendanceHeader := ["date", "id", "name", "nickname", "present"]

  datatype AttendanceLine = AttendanceLine(date: string, id: string, name: string, nickname: string, present: bool)

  /** Every date any member has an attendance entry for. */
  function AllDates(players: seq<Player>): (r: set<string>)
  {
    if players == [] then {} else AllDates(players[..|players| - 1]) + players[|players| - 1].attendance.Keys
  }

  lemma {:induction false} AllDatesMembers(players: seq<Player>)
    ensures forall d :: d in AllDates(players) <==> exists i :: 0 <= i < |players| && d in players[i].attendance
  {
    if players != [] {
      var front := players[..|players| - 1];
      AllDatesMembers(front);
      forall d | d in AllDates(players) ensures exists i :: 0 <= i < |players| && d in players[i].attendance {
        if d !in players[|players| - 1].attendance {
          assert d in AllDates(front);
          var i :| 0 <= i < |front| && d in front[i].attendance;
          assert players[i] == front[i];
        }
      }
      forall d | exists i :: 0 <= i < |players| && d in players[i].attendance ensures d in AllDates(players) {
        var i :| 0 <= i < |players| && d in players[i].attendance;
        if i < |front| { assert front[i] == players[i]; }
      }
    }
  }

  /** The forEach that adds every attendance key of every member to `dateSet`. */
  method CollectDates(players: seq<Player>) returns (dateSet: set<string>)
    ensures dateSet == AllDates(players)
  {
    dateSet := {};
    for i := 0 to |players|
      invariant dateSet == AllDates(players[..i])
    {
      assert players[..i + 1][..i] == players[..i];
      dateSet := dateSet + players[i].attendance.Keys;
    }
    assert players[..|players|] == players;
  }

  /** `Boolean(player?.attendance?.[date])`. */
  function AttendanceLineOf(date: string, p: Player): (l: AttendanceLine)
    ensures l.present <==> date in p.attendance && Truthy(p.attendance[date])
  {
    AttendanceLine(date, p.id, p.name, p.nickname, date in p.attendance && Truthy(p.attendance[date]))
  }

  /** One date's rows, one per member in list order. */
  function DateRows(date: string, players: seq<Player>): (r: seq<AttendanceLine>)
    ensures |r| == |players|
    ensures forall j :: 0 <= j < |players| ==> r[j] == AttendanceLineOf(date, players[j])
  {
    seq(|players|, j requires 0 <= j < |players| => AttendanceLineOf(date, players[j]))
  }

  /** The rows of the export: for each date in order, one row per member. */
  function Grid(dates: seq<string>, players: seq<Player>): seq<AttendanceLine>
  {
    if dates == [] then [] else Grid(dates[..|dates| - 1], players) + DateRows(dates[|dates| - 1], players)
  }

  lemma MulStep(a: nat, b: nat)
    ensures (a + 1) * b == a * b + b
  {
  }

  /** The export has one row per pair of a date and a member. */
  lemma {:induction false} GridLength(dates: seq<string>, players: seq<Player>)
    ensures |Grid(dates, players)| == |dates| * |players|
  {
    if dates != [] {
      GridLength(dates[..|dates| - 1], players);
      MulStep(|dates| - 1, |players|);
    }
  }

  /** The row of date d and member j sits at d·|players| + j. */
  lemma {:induction false} GridEntry(dates: seq<string>, players: seq<Player>, d: nat, j: nat)
    requires d < |dates| && j < |players|
    ensures |Grid(dates, players)| == |dates| * |players|
    ensures d * |players| + j < |dates| * |players|
    ensures Grid(dates, players)[d * |players| + j] == AttendanceLineOf(dates[d], players[j])
  {
    var n, m := |players|, |dates|;
    var front := dates[..m - 1];
    GridLength(dates, players);
    GridLength(front, players);
    MulStep(m - 1, n);
    var k := d * n + j;
    if d < m - 1 {
      GridEntry(front, players, d, j);
      assert front[d] == dates[d];
    } else {
      assert k == (m - 1) * n + j;
    }
  }

  /** The inner forEach: one date's rows pushed after those already collected. */
  method PushDateRows(rows: seq<AttendanceLine>, date: string, players: seq<Player>) returns (r: seq<AttendanceLine>)
    ensures r == rows + DateRows(date, players)
  {
    r := rows;
    for j := 0 to |players|
      invariant r == rows + DateRows(date, players)[..j]
    {
      r := r + [AttendanceLineOf(date, players[j])];
      assert DateRows(date, players)[..j + 1] == DateRows(date, players)[..j] + [AttendanceLineOf(date, players[j])];
    }
    assert DateRows(date, players)[..|players|] == DateRows(date, players);
  }

  /** The outer forEach over the sorted dates. */
  method GridRows(dates: seq<string>, players: seq<Player>) returns (rows: seq<AttendanceLine>)
    ensures rows == Grid(dates, players)
  {
    rows := [];
    for i := 0 to |dates|
      invariant rows == Grid(dates[..i], players)
    {
      rows := PushDateRows(rows, dates[i], players);
      assert dates[..i + 1][..i] == dates[..i];
    }
    assert dates[..|dates|] == dates;
  }

  /** The attendance export: the distinct dates in ascending order, then for each date one row per member. */
  method AttendanceRows(players: seq<Player>) returns (dates: seq<string>, rows: seq<AttendanceLine>)
    ensures StrictlyIncreasing(dates) && forall d :: d in dates <==> exists i :: 0 <= i < |players| && d in players[i].attendance
    ensures rows == Grid(dates, players)
    ensures |rows| == |dates| * |players|
  {
    var dateSet := CollectDates(players);
    AllDatesMembers(players);
    dates := SortedMembers(dateSet);
    rows := GridRows(dates, players);
    GridLength(dates, players);
  }

  function AttendanceCells(l: AttendanceLine): (r: seq<Value>)
    ensures |r| == |AttendanceHeader|
  {
    [Str(l.date), Str(l.id), Str(l.name), Str(l.nickname), Bool(l.present)]
  }

  // ---------------------------------------------------------------------
  // stats.csv

  const StatsHeader := ["id", "name", "nickname", "goals", "assists", "yellow", "red", "yellowPaid", "redPaid",
                        "yellowOwed", "redOwed", "finesOwed", "status"]

  /** `settings.discipline?.yellowFine ?? 500` and `redFine ?? 1000`, as the numbers JS multiplies by. */
  function StatsRates(settings: Settings): (r: (Option<int>, Option<int>))
    ensures settings.discipline.yellowFine.Undefined? || settings.discipline.yellowFine.Null? ==> r.0 == Some(500)
    ensures settings.discipline.redFine.Undefined? || settings.discipline.redFine.Null? ==> r.1 == Some(1000)
    ensures settings.discipline.yellowFine.Num? ==> r.0 == Some(settings.discipline.yellowFine.n)
    ensures settings.discipline.redFine.Num? ==> r.1 == Some(settings.discipline.redFine.n)
  {
    (ToNumber(Coalesce(settings.discipline.yellowFine, Num(500))),
     ToNumber(Coalesce(settings.discipline.redFine, Num(1000))))
  }

  datatype StatsLine = StatsLine(
    id: string, name: string, nickname: string,
    goals: int, assists: int, cards: Cards,
    yellowOwed: nat, redOwed: nat, finesOwed: Option<int>, status: FineStatus)

  /** The status ladder of the export; a fine that is not a number is not 0, so it is never cleared. */
  function StatsStatus(c: Cards, finesOwed: Option<int>): FineStatus
  {
    if c.yellow + c.red == 0 then NoCards
    else if finesOwed == Some(0) then Cleared
    else if PaidCount(c) == 0 then Pending
    else Incomplete
  }

  /** The status text of stats.csv. */
  function StatsLabel(s: FineStatus): string
  {
    match s
    case NoCards => "no_cards"
    case Cleared => "cleared"
    case Pending => "pending"
    case Incomplete => "incomplete"
  }

  /**
   * A stats.csv row: the counts read with `Number(x) || 0`, the unpaid cards clamped at 0 and
   * the fine at the export's rates (not a number when a rate is not).
   */
  function StatsLineOf(settings: Settings, p: Player): (l: StatsLine)
    ensures l.cards == CardsOf(p.stats, p.discipline)
    ensures l.yellowOwed == OwedYellow(l.cards) && l.redOwed == OwedRed(l.cards)
    ensures StatsRates(settings).0.Some? && StatsRates(settings).1.Some? ==>
              l.finesOwed == Some(FineOwed(l.cards, StatsRates(settings).0.value, StatsRates(settings).1.value))
    ensures StatsRates(settings).0.None? || StatsRates(settings).1.None? ==> l.finesOwed.None?
    ensures l.status == StatsStatus(l.cards, l.finesOwed)
  {
    var c := CardsOf(p.stats, p.discipline);
    var rates := StatsRates(settings);
    var fines := if rates.0.Some? && rates.1.Some? then Some(FineOwed(c, rates.0.value, rates.1.value)) else None;
    StatsLine(p.id, p.name, p.nickname, OrZero(p.stats.goals), OrZero(p.stats.assists), c,
              OwedYellow(c), OwedRed(c), fines, StatsStatus(c, fines))
  }

  function StatsCells(l: StatsLine): (r: seq<Value>)
    ensures |r| == |StatsHeader|
  {
    [Str(l.id), Str(l.name), Str(l.nickname), Num(l.goals), Num(l.assists),
     Num(l.cards.yellow), Num(l.cards.red), Num(l.cards.yellowPaid), Num(l.cards.redPaid),
     Num(l.yellowOwed), Num(l.redOwed), NumberValue(l.finesOwed), Str(StatsLabel(l.status))]
  }

  /**
   * With numeric rates the export's status is the shared fine ladder; with a rate that is
   * not a number a member with cards is never cleared.
   */
  lemma StatsStatusIsFineLadder(settings: Settings, p: Player)
    ensures var l := StatsLineOf(settings, p);
      && (StatsRates(settings).0.Some? && StatsRates(settings).1.Some? ==>
            l.status == FineStatusOf(l.cards, StatsRates(settings).0.value, StatsRates(settings).1.value))
      && (StatsRates(settings).0.None? || StatsRates(settings).1.None? ==>
            l.status != Cleared)
  {
  }

  /** `??` keeps a rate of 0: a zero fine is not replaced by the default. */
  lemma ZeroRateIsKept(settings: Settings)
    requires settings.discipline.yellowFine == Num(0)
    ensures StatsRates(settings).0 == Some(0)
    ensures forall p :: StatsLineOf(settings, p).finesOwed.Some? ==>
              StatsLineOf(settings, p).finesOwed.value == OwedRed(CardsOf(p.stats, p.discipline)) * StatsRates(settings).1.value
  {
  }
}
