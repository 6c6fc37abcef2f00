/**
 * The visitor obligations page (client/js/pages/visitors-obligations.js): for the
 * selected session, each visitor's play fee still owed, the fines owed, the total and
 * a status badge. The play fee goes through the shared client `paymentStatus` helper,
 * which is not part of this model; it is read here as the server's statusFromPaid,
 * which that helper mirrors.
 */
module VisitorsObligationsPage {
  import opened Js
  import opened Club
  import opened PaymentStatus
  import opened Fines
  import opened Search
  import ObligationsPage

  /** The fee of one session, fixed on this page. */
  const SessionFee := 1000

  /** `Number(payments.sessions[sessionDate].paid) || 0`: 0 when the session has no record. */
  function SessionPaid(v: Visitor, sessionDate: string): (r: int)
    ensures sessionDate !in v.sessions ==> r == 0
    ensures sessionDate in v.sessions ==> r == OrZero(v.sessions[sessionDate].paid)
  {
    PaidFor(v.sessions, sessionDate)
  }

  datatype VisitorObligationRow = VisitorObligationRow(
    visitor: Visitor,
    paid: int,
    playOwed: int,
    fines: FineSummary,
    totalOwed: int,
    status: ObligationsPage.DueStatus)

  /**
   * One visitor's line: the play fee still owed of the 1000, the fines at the settings'
   * rates, their sum, and the obligations badge on the total and everything paid.
   */
  function RowOf(v: Visitor, sessionDate: string, yellowFine: int, redFine: int): (r: VisitorObligationRow)
    ensures r.visitor == v && r.paid == SessionPaid(v, sessionDate)
    ensures r.playOwed == (if r.paid < SessionFee then SessionFee - r.paid else 0)
    ensures r.fines == SummaryOf(VisitorCards(v), yellowFine, redFine)
    ensures r.totalOwed == r.playOwed + r.fines.fineOwed
    ensures r.status == ObligationsPage.ComputeStatus(r.totalOwed, r.paid + r.fines.paidCount)
  {
    var paid := SessionPaid(v, sessionDate);
    var playOwed := StatusFromPaid(Num(SessionFee), Num(paid)).remaining;
    var fines := SummaryOf(VisitorCards(v), yellowFine, redFine);
    var totalOwed := playOwed + fines.fineOwed;
    VisitorObligationRow(v, paid, playOwed, fines, totalOwed,
                         ObligationsPage.ComputeStatus(totalOwed, paid + fines.paidCount))
  }

  /**
   * With non-negative rates the total is never negative and the visitor is cleared
   * exactly when the session is paid in full and no fine is owed; a session with no
   * payment leaves the whole 1000 owed, so it is never cleared.
   */
  lemma RowLaws(v: Visitor, sessionDate: string, yellowFine: int, redFine: int)
    requires yellowFine >= 0 && redFine >= 0
    ensures var r := RowOf(v, sessionDate, yellowFine, redFine);
            && r.totalOwed >= r.playOwed >= 0
            && (r.status == ObligationsPage.DueCleared <==> r.paid >= SessionFee && r.fines.fineOwed == 0)
            && (sessionDate !in v.sessions ==> r.playOwed == SessionFee && r.status != ObligationsPage.DueCleared)
  {
  }

  /** applyFilters then renderTable: the lines of the visitors the search keeps. */
  function Rows(visitors: seq<Visitor>, query: string, sessionDate: string, yellowFine: int, redFine: int)
    : (r: seq<VisitorObligationRow>)
    ensures |r| == |SearchVisitors(visitors, query)|
    ensures forall i :: 0 <= i < |r| ==> r[i] == RowOf(SearchVisitors(visitors, query)[i], sessionDate, yellowFine, redFine)
    ensures forall i :: 0 <= i < |r| ==> r[i].visitor in visitors
  {
    var kept := SearchVisitors(visitors, query);
    seq(|kept|, i requires 0 <= i < |kept| => RowOf(kept[i], sessionDate, yellowFine, redFine))
  }
}
