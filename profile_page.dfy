/**
 * The member profile page (client/js/pages/profile.js): the month the payment panel
 * opens on, and the attendance streak and fines panels. The member-since year is
 * `FeeCopies.ClientMemberSinceYear`, the streak `Streak.ComputeStreak` and the fine
 * ladder `Fines.FineStatusOf`.
 */
module ProfilePage {
  import opened Js
  import opened Text
  import opened Club

  /** The keys of `payments.monthly` and `subscriptions.months`. */
  function MonthKeys(p: Player): set<string>
  {
    p.monthly.Keys + p.subscriptionMonths
  }

  /**
   * getLatestMonth: the greatest of the member's month keys, or "" when there are none.
   * Every month key sorts at or before the result, which is one of them unless it is "".
   */
  function LatestMonth(p: Player): (r: string)
    ensures r == "" || r in MonthKeys(p)
    ensures forall k :: k in MonthKeys(p) ==> StrLe(k, r)
    ensures MonthKeys(p) == {} ==> r == ""
  {
    LatestKeyOr(MonthKeys(p), "")
  }

  /** A month key other than "" makes the latest month a real key. */
  lemma LatestMonthOfNonEmptyKey(p: Player)
    ensures (exists k :: k in MonthKeys(p) && k != "") ==> LatestMonth(p) != "" && LatestMonth(p) in MonthKeys(p)
  {
    if exists k :: k in MonthKeys(p) && k != "" {
      var k :| k in MonthKeys(p) && k != "";
      assert StrLe(k, LatestMonth(p));
    }
  }

  /**
   * The options of the month selector: the latest month when there is one, otherwise the
   * single fallback `${season}-01`. There is always exactly one option; with no month keys
   * it is the fallback, and with any non-empty key it is the member's latest month.
   */
  function MonthOptions(p: Player, season: Value): (r: seq<string>)
    ensures |r| == 1
    ensures MonthKeys(p) == {} ==> r == [StringOf(season) + "-01"]
    ensures (exists k :: k in MonthKeys(p) && k != "") ==>
              r[0] in MonthKeys(p) && forall k :: k in MonthKeys(p) ==> StrLe(k, r[0])
  {
    var latest := LatestMonth(p);
    LatestMonthOfNonEmptyKey(p);
    if latest != "" then [latest] else [StringOf(season) + "-01"]
  }
}
