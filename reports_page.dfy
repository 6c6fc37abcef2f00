/**
 * The reports page (client/js/pages/reports.js): per-member monthly, yearly and fines
 * tables with their totals. Each table row is reduced to a `Line` (what is expected and
 * what was paid) or to the member's `Cards`; the totals are sums over those rows, which
 * the page accumulates in `forEach` loops.
 */
module ReportsPage {
  import opened Js
  import opened Club
  import opened PaymentStatus
  import opened FeeCopies
  import opened Fines

  /** The report badge: computeStatus of the monthly and yearly tables. */
  datatype ReportStatus = ReportCleared | ReportPending | ReportIncomplete

  /**
   * computeStatus(expected, paid): cleared when the payment reaches what is expected (so
   * a zero expected amount is cleared), else pending when nothing was paid, else incomplete.
   */
  function ComputeStatus(expected: int, paid: int): (r: ReportStatus)
    ensures r == ReportCleared <==> paid >= expected
    ensures r == ReportPending <==> paid < expected && paid == 0
    ensures r == ReportIncomplete <==> paid < expected && paid != 0
  {
    if paid >= expected then ReportCleared
    else if paid == 0 then ReportPending
    else ReportIncomplete
  }

  /**
   * With a positive expected amount the report badge is the server's status (cleared for
   * PAID); with nothing expected the report calls every payment of at least the expected
   * amount cleared, which the server never calls PAID.
   */
  lemma ComputeStatusVsServer(expected: int, paid: int)
    ensures expected > 0 ==>
      (ComputeStatus(expected, paid) == ReportCleared <==> StatusFromPaid(Num(expected), Num(paid)).status == PAID)
      && (ComputeStatus(expected, paid) == ReportPending <==> StatusFromPaid(Num(expected), Num(paid)).status == PENDING)
      && (ComputeStatus(expected, paid) == ReportIncomplete <==> StatusFromPaid(Num(expected), Num(paid)).status == INCOMPLETE)
    ensures expected <= 0 && paid >= expected ==>
      ComputeStatus(expected, paid) == ReportCleared && StatusFromPaid(Num(expected), Num(paid)).status != PAID
  {
  }

  /** One row of the monthly or yearly table. */
  datatype Line = Line(expected: int, paid: int)

  /** `Math.min(paid, expected)`: the part of the payment the totals count as collected. */
  function Collected(l: Line): int
  {
    Min(l.paid, l.expected)
  }

  /**
   * `Math.max(0, expected - paid)`: what the row still owes. It and the collected part
   * make up the expected amount, and it is 0 exactly when the row is cleared.
   */
  function Remaining(l: Line): (r: nat)
    ensures r + Collected(l) == l.expected
    ensures r == 0 <==> ComputeStatus(l.expected, l.paid) == ReportCleared
  {
    Max0(l.expected - l.paid)
  }

  function ExpectedSum(lines: seq<Line>): int
  {
    if lines == [] then 0 else ExpectedSum(lines[..|lines| - 1]) + lines[|lines| - 1].expected
  }

  function CollectedSum(lines: seq<Line>): int
  {
    if lines == [] then 0 else CollectedSum(lines[..|lines| - 1]) + Collected(lines[|lines| - 1])
  }

  function RemainingSum(lines: seq<Line>): int
  {
    if lines == [] then 0 else RemainingSum(lines[..|lines| - 1]) + Remaining(lines[|lines| - 1])
  }

  /**
   * The table's Outstanding (expected total minus collected total) is the sum of the
   * rows' remaining amounts, so it is never negative and the collected total never
   * exceeds the expected total.
   */
  lemma {:induction false} OutstandingIsRemaining(lines: seq<Line>)
    ensures ExpectedSum(lines) - CollectedSum(lines) == RemainingSum(lines)
    ensures RemainingSum(lines) >= 0
    ensures CollectedSum(lines) <= ExpectedSum(lines)
  {
    if lines != [] {
      OutstandingIsRemaining(lines[..|lines| - 1]);
    }
  }

  /** Nothing is outstanding exactly when every row is cleared. */
  lemma {:induction false} NothingOutstandingIffAllCleared(lines: seq<Line>)
    ensures ExpectedSum(lines) == CollectedSum(lines)
            <==> forall i :: 0 <= i < |lines| ==> ComputeStatus(lines[i].expected, lines[i].paid) == ReportCleared
  {
    if lines != [] {
      var init := lines[..|lines| - 1];
      NothingOutstandingIffAllCleared(init);
      OutstandingIsRemaining(init);
      OutstandingIsRemaining(lines);
      assert forall i :: 0 <= i < |init| ==> init[i] == lines[i];
    }
  }

  /** With nothing paid below zero and nothing expected below zero, the collected total is not negative. */
  lemma {:induction false} CollectedNotNegative(lines: seq<Line>)
    requires forall i :: 0 <= i < |lines| ==> lines[i].paid >= 0 && lines[i].expected >= 0
    ensures CollectedSum(lines) >= 0
  {
    if lines != [] {
      CollectedNotNegative(lines[..|lines| - 1]);
    }
  }

  /** Rows that all expect the same amount expect the number of rows times it in total. */
  lemma {:induction false} SameExpectedSum(lines: seq<Line>, expected: int)
    requires forall i :: 0 <= i < |lines| ==> lines[i].expected == expected
    ensures ExpectedSum(lines) == |lines| * expected
  {
    if lines != [] {
      SameExpectedSum(lines[..|lines| - 1], expected);
      assert (|lines| - 1) * expected + expected == |lines| * expected;
    }
  }

  // ---------------------------------------------------------------------
  // The monthly table

  /** The monthly rows: the month's fee for everyone and `Number(monthly[monthKey].paid) || 0`. */
  function MonthlyLines(players: seq<Player>, monthKey: string, monthlyExpected: int): (r: seq<Line>)
    ensures |r| == |players|
    ensures forall i :: 0 <= i < |r| ==> r[i] == Line(monthlyExpected, PaidFor(players[i].monthly, monthKey))
  {
    seq(|players|, i requires 0 <= i < |players| => Line(monthlyExpected, PaidFor(players[i].monthly, monthKey)))
  }

  /**
   * renderMonthly's totals: the expected total is the number of members times the fee in
   * effect, and the collected total adds each member's payment up to that fee.
   */
  method RenderMonthly(players: seq<Player>, monthKey: string, monthlyExpected: int)
    returns (expectedTotal: int, collected: int)
    ensures expectedTotal == |players| * monthlyExpected
    ensures expectedTotal == ExpectedSum(MonthlyLines(players, monthKey, monthlyExpected))
    ensures collected == CollectedSum(MonthlyLines(players, monthKey, monthlyExpected))
  {
    var lines := MonthlyLines(players, monthKey, monthlyExpected);
    SameExpectedSum(lines, monthlyExpected);
    expectedTotal := |players| * monthlyExpected;
    collected := 0;
    for i := 0 to |players|
      invariant collected == CollectedSum(lines[..i])
    {
      var paid := PaidFor(players[i].monthly, monthKey);
      assert lines[..i + 1][..i] == lines[..i];
      collected := collected + Min(paid, monthlyExpected);
    }
    assert lines[..|players|] == lines;
  }

  // ---------------------------------------------------------------------
  // The yearly table

  /** The yearly rows: the new-member or renewal fee by the member-since year, and the year's payment. */
  function YearlyLines(players: seq<Player>, settings: Settings, yearKey: string): (r: seq<Line>)
    ensures |r| == |players|
    ensures forall i :: 0 <= i < |r| ==>
              r[i] == Line(ClientYearlyFee(settings, players[i], yearKey), PaidFor(players[i].yearly, yearKey))
  {
    seq(|players|, i requires 0 <= i < |players| =>
      Line(ClientYearlyFee(settings, players[i], yearKey), PaidFor(players[i].yearly, yearKey)))
  }

  /** renderYearly's totals: each member's fee and each member's payment up to that fee, added up. */
  method RenderYearly(players: seq<Player>, settings: Settings, yearKey: string)
    returns (expectedTotal: int, collected: int)
    ensures expectedTotal == ExpectedSum(YearlyLines(players, settings, yearKey))
    ensures collected == CollectedSum(YearlyLines(players, settings, yearKey))
  {
    var lines := YearlyLines(players, settings, yearKey);
    expectedTotal := 0;
    collected := 0;
    for i := 0 to |players|
      invariant expectedTotal == ExpectedSum(lines[..i])
      invariant collected == CollectedSum(lines[..i])
    {
      var expected := ClientYearlyFee(settings, players[i], yearKey);
      var paid := PaidFor(players[i].yearly, yearKey);
      assert lines[..i + 1][..i] == lines[..i];
      expectedTotal := expectedTotal + expected;
      collected := collected + Min(paid, expected);
    }
    assert lines[..|players|] == lines;
  }

  // ---------------------------------------------------------------------
  // The fines table

  /** Each member's cards as the fines table reads them. */
  function FineCards(players: seq<Player>): (r: seq<Cards>)
    ensures |r| == |players|
    ensures forall i :: 0 <= i < |r| ==> r[i] == CardsOf(players[i].stats, players[i].discipline)
  {
    seq(|players|, i requires 0 <= i < |players| => CardsOf(players[i].stats, players[i].discipline))
  }

  function OwedSum(cards: seq<Cards>, yellowFine: int, redFine: int): int
  {
    if cards == [] then 0
    else OwedSum(cards[..|cards| - 1], yellowFine, redFine) + FineOwed(cards[|cards| - 1], yellowFine, redFine)
  }

  function ClearedSum(cards: seq<Cards>, yellowFine: int, redFine: int): int
  {
    if cards == [] then 0
    else ClearedSum(cards[..|cards| - 1], yellowFine, redFine) + ClearedAmount(cards[|cards| - 1], yellowFine, redFine)
  }

  /** The value of every card received. */
  function IncurredSum(cards: seq<Cards>, yellowFine: int, redFine: int): int
  {
    if cards == [] then 0
    else
      var c := cards[|cards| - 1];
      IncurredSum(cards[..|cards| - 1], yellowFine, redFine) + c.yellow * yellowFine + c.red * redFine
  }

  /** The owed total and the cleared total together are the value of every card received. */
  lemma {:induction false} OwedPlusClearedTotals(cards: seq<Cards>, yellowFine: int, redFine: int)
    ensures OwedSum(cards, yellowFine, redFine) + ClearedSum(cards, yellowFine, redFine) == IncurredSum(cards, yellowFine, redFine)
  {
    if cards != [] {
      OwedPlusClearedTotals(cards[..|cards| - 1], yellowFine, redFine);
      OwedPlusClearedIsIncurred(cards[|cards| - 1], yellowFine, redFine);
    }
  }

  /** With non-negative rates the owed total is not negative, and 0 exactly when no member owes a fine. */
  lemma {:induction false} NothingOwedIffNoRowOwes(cards: seq<Cards>, yellowFine: int, redFine: int)
    ensures yellowFine >= 0 && redFine >= 0 ==> OwedSum(cards, yellowFine, redFine) >= 0
    ensures yellowFine >= 0 && redFine >= 0 ==>
              (OwedSum(cards, yellowFine, redFine) == 0
               <==> forall i :: 0 <= i < |cards| ==> FineOwed(cards[i], yellowFine, redFine) == 0)
  {
    if cards != [] {
      var init := cards[..|cards| - 1];
      NothingOwedIffNoRowOwes(init, yellowFine, redFine);
      assert forall i :: 0 <= i < |init| ==> init[i] == cards[i];
    }
  }

  /**
   * The fines table's "Outstanding" as the page computes it: the owed total minus the
   * cleared total. The owed total already leaves out the cards paid for, so this takes
   * the cleared amount off twice.
   */
  function OutstandingAsWritten(cards: seq<Cards>, yellowFine: int, redFine: int): (r: int)
    ensures r + 2 * ClearedSum(cards, yellowFine, redFine) == IncurredSum(cards, yellowFine, redFine)
  {
    OwedPlusClearedTotals(cards, yellowFine, redFine);
    OwedSum(cards, yellowFine, redFine) - ClearedSum(cards, yellowFine, redFine)
  }

  /**
   * One member with two yellow cards of which one is paid, at 500 per yellow card: 500 is
   * owed and the page shows the fine as incomplete, but the page's Outstanding is 0.
   */
  lemma OutstandingAsWrittenMissesOwedFine()
    ensures var cards := [Cards(2, 0, 1, 0)];
      && OwedSum(cards, 500, 1000) == 500
      && ClearedSum(cards, 500, 1000) == 500
      && FineStatusOf(cards[0], 500, 1000) == Incomplete
      && OutstandingAsWritten(cards, 500, 1000) == 0
  {
    var c := Cards(2, 0, 1, 0);
    var cards := [c];
    assert cards[..0] == [];
    assert OwedYellow(c) == 1 && OwedRed(c) == 0;
    assert FineOwed(c, 500, 1000) == 500;
    assert ClearedAmount(c, 500, 1000) == 500;
    assert OwedSum(cards, 500, 1000) == OwedSum([], 500, 1000) + FineOwed(c, 500, 1000);
    assert ClearedSum(cards, 500, 1000) == ClearedSum([], 500, 1000) + ClearedAmount(c, 500, 1000);
  }

  /**
   * What the fines table has outstanding: what is still owed. It and the cleared total
   * make up the value of every card, and with non-negative rates it is 0 exactly when no
   * member owes a fine.
   */
  function FinesOutstanding(cards: seq<Cards>, yellowFine: int, redFine: int): (r: int)
    ensures r + ClearedSum(cards, yellowFine, redFine) == IncurredSum(cards, yellowFine, redFine)
    ensures yellowFine >= 0 && redFine >= 0 ==>
              (r == 0 <==> forall i :: 0 <= i < |cards| ==> FineOwed(cards[i], yellowFine, redFine) == 0)
  {
    OwedPlusClearedTotals(cards, yellowFine, redFine);
    NothingOwedIffNoRowOwes(cards, yellowFine, redFine);
    OwedSum(cards, yellowFine, redFine)
  }

  /**
   * renderFines' totals: the fines still owed, the value of the cards paid for, and the
   * Outstanding the page shows, the owed total minus the cleared total. That falls short
   * of what is really outstanding by the cleared total.
   */
  method RenderFines(players: seq<Player>, yellowFine: int, redFine: int)
    returns (owedTotal: int, clearedTotal: int, outstanding: int)
    ensures owedTotal == OwedSum(FineCards(players), yellowFine, redFine)
    ensures clearedTotal == ClearedSum(FineCards(players), yellowFine, redFine)
    ensures outstanding == OutstandingAsWritten(FineCards(players), yellowFine, redFine)
    ensures outstanding == FinesOutstanding(FineCards(players), yellowFine, redFine) - clearedTotal
  {
    var cards := FineCards(players);
    owedTotal := 0;
    clearedTotal := 0;
    for i := 0 to |players|
      invariant owedTotal == OwedSum(cards[..i], yellowFine, redFine)
      invariant clearedTotal == ClearedSum(cards[..i], yellowFine, redFine)
    {
      var c := CardsOf(players[i].stats, players[i].discipline);
      assert cards[..i + 1][..i] == cards[..i];
      owedTotal := owedTotal + FineOwed(c, yellowFine, redFine);
      clearedTotal := clearedTotal + ClearedAmount(c, yellowFine, redFine);
    }
    assert cards[..|players|] == cards;
    outstanding := owedTotal - clearedTotal;
  }
}
