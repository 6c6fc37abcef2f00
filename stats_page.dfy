/**
 * The stats page (client/js/pages/stats.js): each member's goals, assists and cards
 * read through safeNumber, a fines column at fixed rates, a table sorted by a chosen
 * column, the header clicks that choose it, and the edit form's payload.
 */
module StatsPage {
  import opened Js
  import opened Text
  import opened Seqs
  import opened Club
  import opened PaymentStatus
  import opened Fines

  /** FINE_YELLOW and FINE_RED: this page does not read the fine settings. */
  const FineYellow := 500
  const FineRed := 1000

  /** safeNumber: the number when it is finite and not negative, else 0. */
  function SafeNumber(v: Value): (r: nat)
    ensures IsFinite(v) && ToNumber(v).value >= 0 ==> r == ToNumber(v).value
    ensures !(IsFinite(v) && ToNumber(v).value >= 0) ==> r == 0
  {
    match ToNumber(v)
    case Some(n) => if n >= 0 then n else 0
    case None => 0
  }

  datatype StatLine = StatLine(goals: nat, assists: nat, yellow: nat, red: nat)

  /** getStats. */
  function GetStats(p: Player): StatLine
  {
    StatLine(SafeNumber(p.stats.goals), SafeNumber(p.stats.assists), SafeNumber(p.stats.yellow), SafeNumber(p.stats.red))
  }

  /** The cards as getStats and getDiscipline read them. */
  function SafeCards(p: Player): Cards
  {
    Cards(SafeNumber(p.stats.yellow), SafeNumber(p.stats.red),
          SafeNumber(p.discipline.yellowPaid), SafeNumber(p.discipline.redPaid))
  }

  datatype StatsFine = StatsFine(owedYellow: nat, owedRed: nat, fineOwed: nat, status: PayStatus)

  /**
   * getFineSummary: the fine at 500 per yellow and 1000 per red card; the badge is paid
   * when nothing is owed, else pending when no card is marked paid, else incomplete.
   */
  function FineSummaryOf(p: Player): (r: StatsFine)
    ensures r.fineOwed == FineOwed(SafeCards(p), FineYellow, FineRed)
    ensures r.owedYellow == OwedYellow(SafeCards(p)) && r.owedRed == OwedRed(SafeCards(p))
    ensures r.status == PAID <==> r.fineOwed == 0
    ensures r.status == PENDING <==> r.fineOwed != 0 && PaidCount(SafeCards(p)) == 0
    ensures r.status == INCOMPLETE <==> r.fineOwed != 0 && PaidCount(SafeCards(p)) != 0
  {
    var c := SafeCards(p);
    var fineOwed := FineOwed(c, FineYellow, FineRed);
    var status := if fineOwed == 0 then PAID else if PaidCount(c) == 0 then PENDING else INCOMPLETE;
    StatsFine(OwedYellow(c), OwedRed(c), fineOwed, status)
  }

  /**
   * The stats badge is the shared fine ladder with "No cards" folded into paid: paid
   * exactly when the ladder says no cards or cleared, and otherwise the same status.
   */
  lemma StatsBadgeIsFineLadder(p: Player)
    ensures FineSummaryOf(p).status == PAID
            <==> FineStatusOf(SafeCards(p), FineYellow, FineRed) in {NoCards, Cleared}
    ensures FineSummaryOf(p).status == PENDING <==> FineStatusOf(SafeCards(p), FineYellow, FineRed) == Pending
    ensures FineSummaryOf(p).status == INCOMPLETE <==> FineStatusOf(SafeCards(p), FineYellow, FineRed) == Incomplete
  {
    var c := SafeCards(p);
    if c.yellow + c.red == 0 {
      assert OwedYellow(c) == 0 && OwedRed(c) == 0;
    }
  }

  // ---------------------------------------------------------------------
  // Sorting

  /** The sortable columns. */
  datatype StatKey = Goals | Assists | Yellow | Red

  datatype SortDir = Asc | Desc

  function StatOf(s: StatLine, key: StatKey): nat
  {
    match key
    case Goals => s.goals
    case Assists => s.assists
    case Yellow => s.yellow
    case Red => s.red
  }

  /** `x` comes before `y` in direction `dir`. */
  predicate Ahead(x: int, y: int, dir: SortDir)
  {
    if dir == Desc then x > y else x < y
  }

  /**
   * The comparator of sortPlayers: the chosen column in the chosen direction; on a tie,
   * assists in the same direction unless the column is assists; then the name A to Z.
   */
  predicate StatsBefore(key: StatKey, dir: SortDir, a: Player, b: Player)
  {
    var x, y := StatOf(GetStats(a), key), StatOf(GetStats(b), key);
    var ax, bx := GetStats(a).assists, GetStats(b).assists;
    if x != y then Ahead(x, y, dir)
    else if key != Assists && ax != bx then Ahead(ax, bx, dir)
    else StrLt(a.name, b.name)
  }

  function StatsOrder(key: StatKey, dir: SortDir): (Player, Player) -> bool
  {
    (a: Player, b: Player) => StatsBefore(key, dir, a, b)
  }

  lemma StatsOrderIsStrict(key: StatKey, dir: SortDir)
    ensures StrictOrder(StatsOrder(key, dir))
  {
    forall a: Player ensures !StatsBefore(key, dir, a, a) {
      StrLtIrreflexive(a.name);
    }
    forall a: Player, b: Player, c: Player | StatsBefore(key, dir, a, b) && StatsBefore(key, dir, b, c)
      ensures StatsBefore(key, dir, a, c)
    {
      if StatOf(GetStats(a), key) == StatOf(GetStats(b), key) == StatOf(GetStats(c), key)
         && (key == Assists || GetStats(a).assists == GetStats(b).assists == GetStats(c).assists)
      {
        StrLtTransitive(a.name, b.name, c.name);
      }
    }
  }

  /** The table's order for a column and direction. */
  predicate OrderedBy(r: seq<Player>, key: StatKey, dir: SortDir)
  {
    forall i, j :: 0 <= i < j < |r| ==>
      var x, y := StatOf(GetStats(r[i]), key), StatOf(GetStats(r[j]), key);
      var ax, bx := GetStats(r[i]).assists, GetStats(r[j]).assists;
      && (x == y || Ahead(x, y, dir))
      && (x == y && key != Assists ==> ax == bx || Ahead(ax, bx, dir))
      && (x == y && (key == Assists || ax == bx) ==> StrLe(r[i].name, r[j].name))
  }

  /**
   * sortPlayers: a sorted copy, the same members (the input is left as it is), ordered by
   * the column in the direction chosen, ties broken by assists and then by name.
   */
  function SortPlayers(players: seq<Player>, key: StatKey, dir: SortDir): (r: seq<Player>)
    ensures multiset(r) == multiset(players)
    ensures OrderedBy(r, key, dir)
  {
    var sorted := Sort(players, StatsOrder(key, dir));
    StatsOrderIsStrict(key, dir);
    SortSorted(players, StatsOrder(key, dir));
    forall i, j | 0 <= i < j < |sorted| ensures !StatsBefore(key, dir, sorted[j], sorted[i]) {
      assert !StatsOrder(key, dir)(sorted[j], sorted[i]);
    }
    forall i, j | 0 <= i < j < |sorted| ensures StrLe(sorted[i].name, sorted[j].name) || StrLt(sorted[j].name, sorted[i].name) {
      StrLtTotal(sorted[i].name, sorted[j].name);
    }
    sorted
  }

  /** `state.sortKey` and `state.sortDir`: the column the table is sorted by. */
  class SortState {
    var sortKey: StatKey
    var sortDir: SortDir

    /** The page opens sorted by goals, most first. */
    constructor ()
      ensures sortKey == Goals && sortDir == Desc
    {
      sortKey := Goals;
      sortDir := Desc;
    }

    /** A click on a column header: the same column flips the direction; another column is chosen, most first. */
    method ClickHeader(key: StatKey)
      modifies this
      ensures (sortKey, sortDir) == NextSort(old(sortKey), old(sortDir), key)
    {
      if sortKey == key {
        sortDir := if sortDir == Asc then Desc else Asc;
      } else {
        sortKey := key;
        sortDir := Desc;
      }
    }
  }

  /** The column and direction after a click on the header of `clicked`. */
  function NextSort(key: StatKey, dir: SortDir, clicked: StatKey): (r: (StatKey, SortDir))
    ensures r.0 == clicked
    ensures key == clicked ==> r.1 != dir
    ensures key != clicked ==> r.1 == Desc
  {
    if key == clicked then (key, if dir == Asc then Desc else Asc) else (clicked, Desc)
  }

  /**
   * Two clicks on the same header: back to the starting direction if it was already the
   * sort column, otherwise that column fewest first.
   */
  lemma ClickingTwice(key: StatKey, dir: SortDir, clicked: StatKey)
    ensures var once := NextSort(key, dir, clicked);
            var twice := NextSort(once.0, once.1, clicked);
            twice == (if key == clicked then (key, dir) else (clicked, Asc))
  {
  }

  // ---------------------------------------------------------------------
  // The edit form

  datatype StatsPayload = StatsPayload(goals: nat, assists: nat, yellow: nat, red: nat, yellowPaid: nat, redPaid: nat)

  /** The inputs of the edit form, as typed. */
  datatype StatsForm = StatsForm(goals: string, assists: string, yellow: string, red: string,
                                 yellowPaid: string, redPaid: string)

  /** The save handler's payload: every input through safeNumber, so every value is at least 0. */
  function SavePayload(f: StatsForm): (r: StatsPayload)
    ensures r.goals == SafeNumber(Str(f.goals)) && r.assists == SafeNumber(Str(f.assists))
    ensures r.yellow == SafeNumber(Str(f.yellow)) && r.red == SafeNumber(Str(f.red))
    ensures r.yellowPaid == SafeNumber(Str(f.yellowPaid)) && r.redPaid == SafeNumber(Str(f.redPaid))
    ensures forall v :: v in [r.goals, r.assists, r.yellow, r.red, r.yellowPaid, r.redPaid] ==> v >= 0
  {
    StatsPayload(SafeNumber(Str(f.goals)), SafeNumber(Str(f.assists)), SafeNumber(Str(f.yellow)),
                 SafeNumber(Str(f.red)), SafeNumber(Str(f.yellowPaid)), SafeNumber(Str(f.redPaid)))
  }

  /** openModal: the form filled with the member's stats as the page shows them. */
  function OpenedForm(p: Player): StatsForm
  {
    var s := GetStats(p);
    StatsForm(StringOf(Num(s.goals)), StringOf(Num(s.assists)), StringOf(Num(s.yellow)), StringOf(Num(s.red)),
              StringOf(Num(SafeNumber(p.discipline.yellowPaid))), StringOf(Num(SafeNumber(p.discipline.redPaid))))
  }

  lemma SafeNumberOfShown(n: nat)
    ensures SafeNumber(Str(StringOf(Num(n)))) == n
  {
    NumberStringRoundTrip(n);
  }

  /** Saving the form as it was opened sends back exactly the numbers the page showed. */
  lemma SavingUnchangedFormKeepsStats(p: Player)
    ensures var r := SavePayload(OpenedForm(p));
            var s := GetStats(p);
            && r.goals == s.goals && r.assists == s.assists && r.yellow == s.yellow && r.red == s.red
            && r.yellowPaid == SafeNumber(p.discipline.yellowPaid) && r.redPaid == SafeNumber(p.discipline.redPaid)
  {
    var s := GetStats(p);
    SafeNumberOfShown(s.goals);
    SafeNumberOfShown(s.assists);
    SafeNumberOfShown(s.yellow);
    SafeNumberOfShown(s.red);
    SafeNumberOfShown(SafeNumber(p.discipline.yellowPaid));
    SafeNumberOfShown(SafeNumber(p.discipline.redPaid));
  }
}
