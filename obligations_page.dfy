/**
 * The obligations page (client/js/pages/obligations.js): one row per member with what
 * is owed for the selected year and month and for fines, a status badge, and the rows
 * ordered pending first, then by amount owed, then by name.
 */
module ObligationsPage {
  import opened Js
  import opened Text
  import opened Seqs
  import opened Club
  import opened PaymentStatus
  import opened FeeCopies
  import opened Fines
  import opened Search

  /** The badge of the obligations pages. */
  datatype DueStatus = DueCleared | DuePending | DueIncomplete

  /**
   * computeStatus(totalOwed, paidTotals): cleared when nothing is owed, else pending
   * when nothing at all was paid, else incomplete. The visitor obligations page carries
   * the same function.
   */
  function ComputeStatus(totalOwed: int, paidTotals: int): (r: DueStatus)
    ensures r == DueCleared <==> totalOwed == 0
    ensures r == DuePending <==> totalOwed != 0 && paidTotals == 0
    ensures r == DueIncomplete <==> totalOwed != 0 && paidTotals != 0
  {
    if totalOwed == 0 then DueCleared
    else if paidTotals == 0 then DuePending
    else DueIncomplete
  }

  /** What the page has selected: the year and month, the fee in effect for the month and the fine rates. */
  datatype Selection = Selection(
    settings: Settings,
    yearKey: string,
    monthKey: string,
    monthlyExpected: int,
    yellowFine: int,
    redFine: int)

  datatype Row = Row(
    player: Player,
    yearlyOwed: nat,
    monthlyOwed: nat,
    fines: FineSummary,
    totalOwed: int,
    status: DueStatus)

  /**
   * One member's row. With non-negative fine rates the total owed is not negative, and
   * the row is cleared exactly when the year's fee and the month's fee are paid in full
   * and no fine is owed.
   */
  function RowOf(p: Player, sel: Selection): (r: Row)
    ensures r.player == p
    ensures r.totalOwed == r.monthlyOwed + r.yearlyOwed + r.fines.fineOwed
    ensures r.fines == SummaryOf(CardsOf(p.stats, p.discipline), sel.yellowFine, sel.redFine)
    ensures sel.yellowFine >= 0 && sel.redFine >= 0 ==> r.totalOwed >= 0
    ensures sel.yellowFine >= 0 && sel.redFine >= 0 ==>
              (r.status == DueCleared <==>
                 PaidFor(p.yearly, sel.yearKey) >= ClientYearlyFee(sel.settings, p, sel.yearKey)
                 && PaidFor(p.monthly, sel.monthKey) >= sel.monthlyExpected
                 && r.fines.fineOwed == 0)
  {
    var yearlyExpected := ClientYearlyFee(sel.settings, p, sel.yearKey);
    var yearlyPaid := PaidFor(p.yearly, sel.yearKey);
    var yearlyOwed := Max0(yearlyExpected - yearlyPaid);
    var monthlyPaid := PaidFor(p.monthly, sel.monthKey);
    var monthlyOwed := Max0(sel.monthlyExpected - monthlyPaid);
    var fines := SummaryOf(CardsOf(p.stats, p.discipline), sel.yellowFine, sel.redFine);
    var totalOwed := monthlyOwed + yearlyOwed + fines.fineOwed;
    Row(p, yearlyOwed, monthlyOwed, fines, totalOwed,
        ComputeStatus(totalOwed, yearlyPaid + monthlyPaid + fines.paidCount))
  }

  /** `statusRank`: pending 3, incomplete 2, cleared 1. */
  function Rank(s: DueStatus): int
  {
    match s
    case DuePending => 3
    case DueIncomplete => 2
    case DueCleared => 1
  }

  /** The comparator: higher rank first, then the larger amount owed, then the name in order. */
  predicate RowBefore(a: Row, b: Row)
  {
    Rank(a.status) > Rank(b.status)
    || (Rank(a.status) == Rank(b.status) && a.totalOwed > b.totalOwed)
    || (Rank(a.status) == Rank(b.status) && a.totalOwed == b.totalOwed && StrLt(a.player.name, b.player.name))
  }

  lemma RowBeforeIsStrictOrder()
    ensures StrictOrder(RowBefore)
  {
    forall a: Row ensures !RowBefore(a, a) {
      StrLtIrreflexive(a.player.name);
    }
    forall a: Row, b: Row, c: Row | RowBefore(a, b) && RowBefore(b, c) ensures RowBefore(a, c) {
      if Rank(a.status) == Rank(b.status) == Rank(c.status) && a.totalOwed == b.totalOwed == c.totalOwed {
        StrLtTransitive(a.player.name, b.player.name, c.player.name);
      }
    }
  }

  /** The rows in the page's order. */
  predicate InDisplayOrder(r: seq<Row>)
  {
    forall i, j :: 0 <= i < j < |r| ==>
      && Rank(r[i].status) >= Rank(r[j].status)
      && (Rank(r[i].status) == Rank(r[j].status) ==> r[i].totalOwed >= r[j].totalOwed)
      && ((Rank(r[i].status) == Rank(r[j].status) && r[i].totalOwed == r[j].totalOwed)
          ==> StrLe(r[i].player.name, r[j].player.name))
  }

  /** `rows.sort(...)`: the same rows, pending before incomplete before cleared, then by amount and name. */
  function SortRows(rows: seq<Row>): (r: seq<Row>)
    ensures multiset(r) == multiset(rows)
    ensures InDisplayOrder(r)
  {
    var sorted := Sort(rows, RowBefore);
    RowBeforeIsStrictOrder();
    SortSorted(rows, RowBefore);
    forall i, j | 0 <= i < j < |sorted| ensures StrLe(sorted[i].player.name, sorted[j].player.name) || RowBefore(sorted[i], sorted[j]) {
      StrLtTotal(sorted[i].player.name, sorted[j].player.name);
    }
    sorted
  }

  /** `players.map(...)`: one row per member, in the members' order. */
  function RowsOf(players: seq<Player>, sel: Selection): (r: seq<Row>)
    ensures |r| == |players|
    ensures forall i :: 0 <= i < |r| ==> r[i] == RowOf(players[i], sel)
  {
    seq(|players|, i requires 0 <= i < |players| => RowOf(players[i], sel))
  }

  /** Any reordering of the rows of some members has one row per member and only theirs. */
  lemma ReorderedRows(players: seq<Player>, sel: Selection, r: seq<Row>)
    requires multiset(r) == multiset(RowsOf(players, sel))
    ensures |r| == |players|
    ensures forall k :: 0 <= k < |r| ==> r[k].player in players
  {
    var rows := RowsOf(players, sel);
    assert |r| == |rows| by {
      assert |multiset(r)| == |multiset(rows)|;
    }
    forall k | 0 <= k < |r| ensures r[k].player in players {
      assert r[k] in multiset(rows);
      var i :| 0 <= i < |rows| && rows[i] == r[k];
    }
  }

  /**
   * renderTable after applyFilters: the rows of the members the search keeps, one per
   * member, in display order.
   */
  function ObligationRows(players: seq<Player>, query: string, sel: Selection): (r: seq<Row>)
    ensures multiset(r) == multiset(RowsOf(SearchPlayers(players, query), sel))
    ensures InDisplayOrder(r)
    ensures |r| <= |players|
    ensures forall k :: 0 <= k < |r| ==> r[k].player in players && Matches(query, r[k].player.name, r[k].player.nickname)
  {
    var kept := SearchPlayers(players, query);
    var r := SortRows(RowsOf(kept, sel));
    ReorderedRows(kept, sel, r);
    r
  }
}
