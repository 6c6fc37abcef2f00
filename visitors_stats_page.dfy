/**
 * The visitor stats page (client/js/pages/visitors-stats.js): each visitor's cards, the
 * fine owed at the settings' rates, the status ladder, and the check the edit form runs
 * before it sends the counts.
 */
module VisitorsStatsPage {
  import opened Wrappers
  import opened Js
  import opened Club
  import opened Fines
  import opened Search
  import Visitors

  /** The rates of `defaultSettings`, used when the settings cannot be loaded. */
  const DefaultYellowFine := 500
  const DefaultRedFine := 1000

  /**
   * computeStatus(fineOwed, paidTotal, yellow, red): no cards at all; else cleared when
   * nothing is owed; else pending when nothing is paid; else incomplete.
   */
  function ComputeStatus(fineOwed: int, paidTotal: int, yellow: int, red: int): (r: FineStatus)
    ensures r == NoCards <==> yellow + red == 0
    ensures r == Cleared <==> yellow + red != 0 && fineOwed == 0
    ensures r == Pending <==> yellow + red != 0 && fineOwed != 0 && paidTotal == 0
    ensures r == Incomplete <==> yellow + red != 0 && fineOwed != 0 && paidTotal != 0
  {
    if yellow + red == 0 then NoCards
    else if fineOwed == 0 then Cleared
    else if paidTotal == 0 then Pending
    else Incomplete
  }

  /** One line of the table. */
  datatype VisitorFineRow = VisitorFineRow(visitor: Visitor, fine: FineSummary, status: FineStatus)

  /**
   * A visitor's line: computeFine on the cards read with `Number(x) || 0`, and
   * computeStatus on its result. The unpaid counts are never negative and the fine is
   * the unpaid cards times the rates.
   */
  function RowOf(v: Visitor, yellowFine: int, redFine: int): (r: VisitorFineRow)
    ensures r.visitor == v && r.fine == SummaryOf(VisitorCards(v), yellowFine, redFine)
    ensures r.fine.fineOwed == r.fine.owedYellow * yellowFine + r.fine.owedRed * redFine
    ensures r.status == FineStatusOf(VisitorCards(v), yellowFine, redFine)
  {
    var c := VisitorCards(v);
    var fine := SummaryOf(c, yellowFine, redFine);
    VisitorFineRow(v, fine, ComputeStatus(fine.fineOwed, fine.paidCount, c.yellow, c.red))
  }

  /** applyFilters then renderTable: the lines of the visitors the search keeps. */
  function Rows(visitors: seq<Visitor>, query: string, yellowFine: int, redFine: int): (r: seq<VisitorFineRow>)
    ensures |r| == |SearchVisitors(visitors, query)|
    ensures forall i :: 0 <= i < |r| ==> r[i] == RowOf(SearchVisitors(visitors, query)[i], yellowFine, redFine)
    ensures forall i :: 0 <= i < |r| ==> r[i].visitor in visitors
  {
    var kept := SearchVisitors(visitors, query);
    seq(|kept|, i requires 0 <= i < |kept| => RowOf(kept[i], yellowFine, redFine))
  }

  /** The four inputs of the edit form, as typed. */
  datatype CardsForm = CardsForm(yellow: string, red: string, yellowPaid: string, redPaid: string)

  /** The body of the save request. */
  datatype CardsPayload = CardsPayload(yellow: int, red: int, yellowPaid: int, redPaid: int)

  const NonNegativeError := "Values must be non-negative."

  predicate Acceptable(s: string)
  {
    ToNumber(Str(s)).Some? && ToNumber(Str(s)).value >= 0
  }

  /**
   * The save guard: every input must be a finite number at least 0, or the page shows
   * "Values must be non-negative." and sends nothing; otherwise it sends exactly the
   * numbers entered, without capping the paid counters.
   */
  function SaveCheck(f: CardsForm): (r: Result<CardsPayload, string>)
    ensures r.Success? <==> Acceptable(f.yellow) && Acceptable(f.red) && Acceptable(f.yellowPaid) && Acceptable(f.redPaid)
    ensures r.Failure? ==> r.error == NonNegativeError
    ensures r.Success? ==>
              && r.value.yellow == ToNumber(Str(f.yellow)).value && r.value.red == ToNumber(Str(f.red)).value
              && r.value.yellowPaid == ToNumber(Str(f.yellowPaid)).value
              && r.value.redPaid == ToNumber(Str(f.redPaid)).value
  {
    var y, rd := ToNumber(Str(f.yellow)), ToNumber(Str(f.red));
    var yp, rp := ToNumber(Str(f.yellowPaid)), ToNumber(Str(f.redPaid));
    if y.None? || rd.None? || y.value < 0 || rd.value < 0 || yp.None? || rp.None? || yp.value < 0 || rp.value < 0 then
      Failure(NonNegativeError)
    else
      Success(CardsPayload(y.value, rd.value, yp.value, rp.value))
  }

  /**
   * Whatever the form sends, the server's stats route accepts the counts and stores them
   * as sent, and caps each paid counter at its card count there.
   */
  lemma ServerAcceptsSavedCards(f: CardsForm, v: Visitor)
    requires SaveCheck(f).Success?
    ensures var p := SaveCheck(f).value;
            && Visitors.CardsCheck(Num(p.yellow), Num(p.red)) == Success((p.yellow, p.red))
            && var c := VisitorCards(Visitors.SetCards(v, p.yellow, p.red, Num(p.yellowPaid), Num(p.redPaid)));
               && c.yellow == p.yellow && c.red == p.red
               && c.yellowPaid == Min(p.yellowPaid, p.yellow) && c.redPaid == Min(p.redPaid, p.red)
  {
  }
}
