/**
 * The disciplinary fine rules shared by the member and visitor pages and the
 * stats export: unpaid cards are clamped at zero, the fine owed is the unpaid
 * yellow cards times the yellow rate plus the unpaid red cards times the red
 * rate, and the status follows the "No cards / Cleared / Pending / Incomplete" ladder.
 */
module Fines {
  import opened Js
  import opened Club

  /** Card counts and paid counters as the pages read them (`Number(x) || 0`). */
  datatype Cards = Cards(yellow: int, red: int, yellowPaid: int, redPaid: int)

  function CardsOf(stats: Stats, discipline: Discipline): Cards
  {
    Cards(OrZero(stats.yellow), OrZero(stats.red), OrZero(discipline.yellowPaid), OrZero(discipline.redPaid))
  }

  function VisitorCards(v: Visitor): Cards
  {
    Cards(OrZero(v.yellow), OrZero(v.red), OrZero(v.discipline.yellowPaid), OrZero(v.discipline.redPaid))
  }

  /** `Math.max(0, x)`. */
  function Max0(x: int): (r: nat)
    ensures r >= x && (x >= 0 ==> r == x)
  {
    if x > 0 then x else 0
  }

  function Min(a: int, b: int): int
  {
    if a < b then a else b
  }

  /** Unpaid yellow cards, never negative. */
  function OwedYellow(c: Cards): nat
  {
    Max0(c.yellow - c.yellowPaid)
  }

  /** Unpaid red cards, never negative. */
  function OwedRed(c: Cards): nat
  {
    Max0(c.red - c.redPaid)
  }

  /** `owedYellow * yellowFine + owedRed * redFine`. */
  function FineOwed(c: Cards, yellowFine: int, redFine: int): (r: int)
    ensures yellowFine >= 0 && redFine >= 0 ==> r >= 0
  {
    OwedYellow(c) * yellowFine + OwedRed(c) * redFine
  }

  /** `yellowPaid + redPaid`. */
  function PaidCount(c: Cards): int
  {
    c.yellowPaid + c.redPaid
  }

  datatype FineStatus = NoCards | Cleared | Pending | Incomplete

  /** The text the pages show for a fine status. */
  function FineLabel(s: FineStatus): string
  {
    match s
    case NoCards => "No cards"
    case Cleared => "Cleared"
    case Pending => "Pending"
    case Incomplete => "Incomplete"
  }

  /**
   * The status ladder: no cards at all; else cleared when nothing is owed; else pending
   * when no card has been paid; else incomplete.
   */
  function FineStatusOf(c: Cards, yellowFine: int, redFine: int): (r: FineStatus)
    ensures r == NoCards <==> c.yellow + c.red == 0
    ensures r == Cleared <==> c.yellow + c.red != 0 && FineOwed(c, yellowFine, redFine) == 0
    ensures r == Pending <==> c.yellow + c.red != 0 && FineOwed(c, yellowFine, redFine) != 0 && PaidCount(c) == 0
    ensures r == Incomplete <==> c.yellow + c.red != 0 && FineOwed(c, yellowFine, redFine) != 0 && PaidCount(c) != 0
  {
    if c.yellow + c.red == 0 then NoCards
    else if FineOwed(c, yellowFine, redFine) == 0 then Cleared
    else if PaidCount(c) == 0 then Pending
    else Incomplete
  }

  /** The value of the cards already paid for, counting at most the cards received. */
  function ClearedAmount(c: Cards, yellowFine: int, redFine: int): int
  {
    Min(c.yellowPaid, c.yellow) * yellowFine + Min(c.redPaid, c.red) * redFine
  }

  /** What is owed plus what is cleared is the value of every card received. */
  lemma OwedPlusClearedIsIncurred(c: Cards, yellowFine: int, redFine: int)
    ensures FineOwed(c, yellowFine, redFine) + ClearedAmount(c, yellowFine, redFine)
            == c.yellow * yellowFine + c.red * redFine
  {
    assert OwedYellow(c) + Min(c.yellowPaid, c.yellow) == c.yellow;
    assert OwedRed(c) + Min(c.redPaid, c.red) == c.red;
    calc {
      FineOwed(c, yellowFine, redFine) + ClearedAmount(c, yellowFine, redFine);
      (OwedYellow(c) + Min(c.yellowPaid, c.yellow)) * yellowFine + (OwedRed(c) + Min(c.redPaid, c.red)) * redFine;
    }
  }

  /** What the pages show for a member's or visitor's cards. */
  datatype FineSummary = FineSummary(owedYellow: nat, owedRed: nat, fineOwed: int, paidCount: int)

  /**
   * getFineSummary / computeFine / computeFines: the unpaid cards of each colour are
   * the ones the paid counter does not cover, the fine owed and the value of the cards
   * already paid for add up to the value of every card received, and `paidCount` counts
   * the cards marked paid (which may exceed the cards received).
   */
  function SummaryOf(c: Cards, yellowFine: int, redFine: int): (r: FineSummary)
    ensures r.owedYellow + Min(c.yellowPaid, c.yellow) == c.yellow
    ensures r.owedRed + Min(c.redPaid, c.red) == c.red
    ensures r.fineOwed + ClearedAmount(c, yellowFine, redFine) == c.yellow * yellowFine + c.red * redFine
    ensures r.paidCount == c.yellowPaid + c.redPaid
    ensures yellowFine >= 0 && redFine >= 0 ==> r.fineOwed >= 0
  {
    OwedPlusClearedIsIncurred(c, yellowFine, redFine);
    FineSummary(OwedYellow(c), OwedRed(c), FineOwed(c, yellowFine, redFine), PaidCount(c))
  }

  /** With positive rates nothing is owed exactly when every card has been paid for. */
  lemma NothingOwedIffAllPaid(c: Cards, yellowFine: int, redFine: int)
    requires yellowFine > 0 && redFine > 0
    ensures FineOwed(c, yellowFine, redFine) == 0 <==> c.yellowPaid >= c.yellow && c.redPaid >= c.red
  {
    if c.yellowPaid < c.yellow {
      assert OwedYellow(c) * yellowFine > 0;
      assert OwedRed(c) * redFine >= 0;
    }
    if c.redPaid < c.red {
      assert OwedRed(c) * redFine > 0;
      assert OwedYellow(c) * yellowFine >= 0;
    }
  }

  /** Paid counters kept within the card counts (as the visitor stats route stores them) need no clamping. */
  lemma CappedCountersOwe(c: Cards, yellowFine: int, redFine: int)
    requires 0 <= c.yellowPaid <= c.yellow && 0 <= c.redPaid <= c.red
    ensures FineOwed(c, yellowFine, redFine) == (c.yellow - c.yellowPaid) * yellowFine + (c.red - c.redPaid) * redFine
    ensures ClearedAmount(c, yellowFine, redFine) == c.yellowPaid * yellowFine + c.redPaid * redFine
  {
  }
}
