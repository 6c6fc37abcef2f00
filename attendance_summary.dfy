/**
 * The attendance summary page (client/js/pages/attendance-summary.js): for the last
 * `range` sessions, each member's count of sessions attended, the percentage and the
 * current streak, and the five best of each. The session dates are given; the streak is
 * `Streak.TrailingPresent`, which `Streak.ComputeStreak` computes.
 */
module AttendanceSummary {
  import opened Wrappers
  import opened Js
  import opened Seqs
  import opened Club
  import opened Streak
  import opened Search

  /**
   * `saturdays.slice(-Number(range))`: the last `range` sessions, all of them when the
   * range is 0 or not a number, and always a run at the end of the list.
   */
  function RecentSessions(sessions: seq<string>, range: Value): (r: seq<string>)
    ensures |r| <= |sessions| && r == sessions[|sessions| - |r|..]
    ensures ToNumber(range).None? || ToNumber(range) == Some(0) ==> r == sessions
    ensures ToNumber(range).Some? && ToNumber(range).value > 0 ==>
              |r| == if ToNumber(range).value < |sessions| then ToNumber(range).value else |sessions|
  {
    match ToNumber(range)
    case None => SliceFrom(sessions, 0)
    case Some(n) => SliceFrom(sessions, -n)
  }

  /** The reduce over the recent sessions: one for each that the member attended. */
  function PresentCount(attendance: map<string, Value>, dates: seq<string>): (r: nat)
    ensures r <= |dates|
  {
    if dates == [] then 0
    else PresentCount(attendance, dates[..|dates| - 1]) + (if PresentOn(attendance, dates[|dates| - 1]) then 1 else 0)
  }

  /** The count is the full total exactly when every session was attended, and 0 exactly when none was. */
  lemma {:induction false} PresentCountBounds(attendance: map<string, Value>, dates: seq<string>)
    ensures PresentCount(attendance, dates) == |dates| <==> forall i :: 0 <= i < |dates| ==> PresentOn(attendance, dates[i])
    ensures PresentCount(attendance, dates) == 0 <==> forall i :: 0 <= i < |dates| ==> !PresentOn(attendance, dates[i])
  {
    if dates != [] {
      var init := dates[..|dates| - 1];
      PresentCountBounds(attendance, init);
      assert forall i :: 0 <= i < |init| ==> init[i] == dates[i];
    }
  }

  /** A streak no longer than the recent sessions is all attended in them, so it is at most the count. */
  lemma {:induction false} StreakWithinRangeIsCounted(attendance: map<string, Value>, dates: seq<string>)
    ensures TrailingPresent(attendance, dates) <= PresentCount(attendance, dates)
  {
    if dates != [] {
      StreakWithinRangeIsCounted(attendance, dates[..|dates| - 1]);
    }
  }

  /**
   * `total ? Math.round((present / total) * 100) : 0`, in whole numbers: the nearest
   * whole percentage, halves rounded up.
   */
  function Percent(present: nat, total: nat): (r: nat)
    ensures total == 0 ==> r == 0
  {
    if total == 0 then 0 else (200 * present + total) / (2 * total)
  }

  lemma MulNonNeg(x: int, y: int)
    requires x >= 0 && y >= 0
    ensures x * y >= 0
  {
  }

  /** Whole-number division has one quotient. */
  lemma DivUnique(a: int, d: int, q: int, m: int)
    requires d > 0 && 0 <= m < d && a == d * q + m
    ensures a / d == q
  {
    var q', m' := a / d, a % d;
    assert a == d * q' + m';
    if q' > q {
      MulNonNeg(d, q' - q - 1);
      assert false;
    } else if q' < q {
      MulNonNeg(d, q - q' - 1);
      assert false;
    }
  }

  /** The percentage is within half a point of `100 * present / total`, rounding a half up. */
  lemma PercentRounds(present: nat, total: nat)
    requires total > 0
    ensures var r := Percent(present, total);
            2 * total * r <= 200 * present + total < 2 * total * (r + 1)
  {
    var a, d := 200 * present + total, 2 * total;
    var q, m := a / d, a % d;
    assert a == d * q + m && 0 <= m < d;
    assert d * (q + 1) == d * q + d;
  }

  /**
   * The percentage is 100 when every one of some sessions was attended, 0 when none was,
   * and never more than 100 when present is at most total.
   */
  lemma PercentBounds(present: nat, total: nat)
    ensures present <= total ==> Percent(present, total) <= 100
    ensures 0 < present == total ==> Percent(present, total) == 100
    ensures present == 0 ==> Percent(present, total) == 0
  {
    if total > 0 {
      var a, d := 200 * present + total, 2 * total;
      assert Percent(present, total) == a / d;
      if present == total {
        DivUnique(a, d, 100, total);
      }
      if present == 0 {
        DivUnique(a, d, 0, total);
      }
      if present <= total && a / d > 100 {
        var q, m := a / d, a % d;
        assert a == d * q + m && 0 <= m < d;
        MulNonNeg(d, q - 101);
        assert false;
      }
    }
  }

  /** One line of the table. */
  datatype SummaryRow = SummaryRow(player: Player, present: nat, total: nat, percent: nat, streak: nat)

  /** A member's line: sessions attended among the recent ones, the percentage, and the streak over all sessions. */
  function SummaryRowOf(p: Player, sessions: seq<string>, recent: seq<string>): (r: SummaryRow)
    ensures r.player == p && r.total == |recent|
    ensures r.present <= r.total && r.percent <= 100
    ensures r.streak <= |sessions|
  {
    var present := PresentCount(p.attendance, recent);
    PercentBounds(present, |recent|);
    SummaryRow(p, present, |recent|, Percent(present, |recent|), TrailingPresent(p.attendance, sessions))
  }

  /** The table: the members the search keeps, each with their line. */
  function SummaryRows(players: seq<Player>, query: string, sessions: seq<string>, range: Value): (r: seq<SummaryRow>)
    ensures |r| == |SearchPlayers(players, query)|
    ensures forall i :: 0 <= i < |r| ==>
              r[i] == SummaryRowOf(SearchPlayers(players, query)[i], sessions, RecentSessions(sessions, range))
    ensures forall i :: 0 <= i < |r| ==> r[i].player in players && Matches(query, r[i].player.name, r[i].player.nickname)
  {
    var kept := SearchPlayers(players, query);
    var recent := RecentSessions(sessions, range);
    var r := seq(|kept|, i requires 0 <= i < |kept| => SummaryRowOf(kept[i], sessions, recent));
    forall i | 0 <= i < |r| ensures r[i].player in players && Matches(query, r[i].player.name, r[i].player.nickname) {
      assert r[i].player == kept[i] && kept[i] in kept;
    }
    r
  }

  /** The orders of the two boards. */
  function PercentKey(row: SummaryRow): int
  {
    row.percent
  }

  function StreakKey(row: SummaryRow): int
  {
    row.streak
  }

  /** `topPercent`: at most five lines, highest percentage first, taken from the lines. */
  function TopPercent(rows: seq<SummaryRow>): (r: seq<SummaryRow>)
    ensures |r| == if |rows| < 5 then |rows| else 5
    ensures forall i, j :: 0 <= i < j < |r| ==> r[i].percent >= r[j].percent
    ensures multiset(r) <= multiset(rows)
  {
    TopBy(rows, PercentKey, 5)
  }

  /** No line `topPercent` leaves out has a higher percentage than one it keeps. */
  lemma TopPercentLeavesNoHigher(rows: seq<SummaryRow>, x: SummaryRow, y: SummaryRow)
    requires x in multiset(rows) - multiset(TopPercent(rows)) && y in TopPercent(rows)
    ensures x.percent <= y.percent
  {
    TopByLeavesNoGreater(rows, PercentKey, 5, x, y);
  }

  /** `topStreaks`: at most five lines, longest streak first, taken from the lines. */
  function TopStreaks(rows: seq<SummaryRow>): (r: seq<SummaryRow>)
    ensures |r| == if |rows| < 5 then |rows| else 5
    ensures forall i, j :: 0 <= i < j < |r| ==> r[i].streak >= r[j].streak
    ensures multiset(r) <= multiset(rows)
  {
    TopBy(rows, StreakKey, 5)
  }

  /** No line `topStreaks` leaves out has a longer streak than one it keeps. */
  lemma TopStreaksLeavesNoLonger(rows: seq<SummaryRow>, x: SummaryRow, y: SummaryRow)
    requires x in multiset(rows) - multiset(TopStreaks(rows)) && y in TopStreaks(rows)
    ensures x.streak <= y.streak
  {
    TopByLeavesNoGreater(rows, StreakKey, 5, x, y);
  }
}
