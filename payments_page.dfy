/**
 * The payments page (client/js/pages/payments.js): the year and month it opens on, the
 * years and months it offers, each member's yearly and monthly badge, the edit form's
 * live preview and the amounts it saves.
 */
module PaymentsPage {
  import opened Wrappers
  import opened Js
  import opened Text
  import opened Seqs
  import opened Club
  import opened PaymentStatus
  import opened FeeCopies
  import opened Fines

  /** DEFAULT_MONTHLY_EXPECTED and DEFAULT_YEARLY_EXPECTED. */
  const DefaultMonthlyExpected := 3000
  const DefaultYearlyExpected := 0

  // ---------------------------------------------------------------------
  // The amounts shown for a member

  datatype Amounts = Amounts(expected: Value, paid: Value)

  /**
   * getYearlyPayment and getMonthlyPayment: the stored record's amounts, with a missing
   * (null or undefined) expected amount read as the default and a missing payment as 0.
   */
  function PaymentOf(records: map<string, PaymentRecord>, key: string, defaultExpected: int): (r: Amounts)
    ensures key !in records ==> r == Amounts(Num(defaultExpected), Num(0))
    ensures key in records && (records[key].expected.Undefined? || records[key].expected.Null?) ==>
              r.expected == Num(defaultExpected)
    ensures key in records && !records[key].expected.Undefined? && !records[key].expected.Null? ==>
              r.expected == records[key].expected
    ensures key in records && (records[key].paid.Undefined? || records[key].paid.Null?) ==> r.paid == Num(0)
    ensures key in records && !records[key].paid.Undefined? && !records[key].paid.Null? ==>
              r.paid == records[key].paid
  {
    if key in records then
      Amounts(Coalesce(records[key].expected, Num(defaultExpected)), Coalesce(records[key].paid, Num(0)))
    else
      Amounts(Num(defaultExpected), Num(0))
  }

  function YearlyPayment(p: Player, yearKey: string): Amounts
  {
    PaymentOf(p.yearly, yearKey, DefaultYearlyExpected)
  }

  function MonthlyPayment(p: Player, monthKey: string): Amounts
  {
    PaymentOf(p.monthly, monthKey, DefaultMonthlyExpected)
  }

  /** A table badge: deriveStatus on the amounts read with `Number`. */
  function BadgeOf(a: Amounts): PayStatus
  {
    DeriveStatus(ToNumber(a.expected), ToNumber(a.paid))
  }

  /**
   * A month with no record shows 3000 due and a pending badge; a year with no record shows
   * nothing due, and is pending too.
   */
  lemma MissingRecordsArePending(p: Player, yearKey: string, monthKey: string)
    ensures monthKey !in p.monthly ==>
              MonthlyPayment(p, monthKey).expected == Num(3000) && BadgeOf(MonthlyPayment(p, monthKey)) == PENDING
    ensures yearKey !in p.yearly ==>
              YearlyPayment(p, yearKey).expected == Num(0) && BadgeOf(YearlyPayment(p, yearKey)) == PENDING
  {
  }

  /**
   * A stored record of numbers gets the badge that the server's statusFromPaid gives it,
   * except when a positive amount is due and the payment is negative.
   */
  lemma BadgeOfNumbersVsServer(records: map<string, PaymentRecord>, key: string, defaultExpected: int)
    requires key in records && records[key].expected.Num? && records[key].paid.Num?
    requires !(records[key].expected.n > 0 && records[key].paid.n < 0)
    ensures BadgeOf(PaymentOf(records, key, defaultExpected))
            == StatusFromPaid(records[key].expected, records[key].paid).status
  {
    var e, p := records[key].expected.n, records[key].paid.n;
    DeriveStatusVsServer(Some(e), Some(p));
  }

  // ---------------------------------------------------------------------
  // The keys the page offers

  /** The two kinds of key: a "YYYY" year or a "YYYY-MM" month. */
  datatype Field = Yearly | Monthly

  /** One member's keys of a kind: the payment records' and the subscriptions'. */
  function KeysOf(p: Player, field: Field): set<string>
  {
    match field
    case Yearly => p.yearly.Keys + p.subscriptionYears
    case Monthly => p.monthly.Keys + p.subscriptionMonths
  }

  /** Every member's keys of a kind. */
  function AllKeys(players: seq<Player>, field: Field): set<string>
  {
    if players == [] then {}
    else AllKeys(players[..|players| - 1], field) + KeysOf(players[|players| - 1], field)
  }

  lemma AllKeysStep(players: seq<Player>, i: nat, field: Field)
    requires i < |players|
    ensures AllKeys(players[..i + 1], field) == AllKeys(players[..i], field) + KeysOf(players[i], field)
  {
    assert players[..i + 1][..i] == players[..i];
  }

  /** AllKeys holds exactly the keys some member has. */
  lemma {:induction false} AllKeysMembers(players: seq<Player>, field: Field)
    ensures forall k :: k in AllKeys(players, field) <==>
              exists i :: 0 <= i < |players| && k in KeysOf(players[i], field)
  {
    if players != [] {
      var n := |players| - 1;
      var init := players[..n];
      AllKeysMembers(init, field);
      forall k ensures k in AllKeys(players, field) <==> exists i :: 0 <= i < |players| && k in KeysOf(players[i], field) {
        if k in AllKeys(init, field) {
          var i :| 0 <= i < |init| && k in KeysOf(init[i], field);
          assert players[i] == init[i];
        }
        if exists i :: 0 <= i < |players| && k in KeysOf(players[i], field) {
          var i :| 0 <= i < |players| && k in KeysOf(players[i], field);
          if i < n {
            assert init[i] == players[i];
          }
        }
      }
    }
  }

  /**
   * getLatestKey: every key of the kind collected from every member, sorted, and the last
   * one taken, or the fallback when there is none (or the greatest is "").
   */
  method GetLatestKey(players: seq<Player>, field: Field, fallback: string) returns (r: string)
    ensures r == LatestKeyOr(AllKeys(players, field), fallback)
  {
    var keys: set<string> := {};
    for i := 0 to |players|
      invariant keys == AllKeys(players[..i], field)
    {
      assert players[..i + 1][..i] == players[..i];
      keys := keys + KeysOf(players[i], field);
    }
    assert players[..|players|] == players;
    r := LatestKeyOr(keys, fallback);
  }

  /**
   * The latest key is the fallback when no member has a key, and otherwise, unless every
   * key is "", the greatest key some member has.
   */
  lemma LatestKeyIsGreatest(players: seq<Player>, field: Field, fallback: string)
    ensures AllKeys(players, field) == {} ==> LatestKeyOr(AllKeys(players, field), fallback) == fallback
    ensures (exists k :: k in AllKeys(players, field) && k != "") ==>
              var r := LatestKeyOr(AllKeys(players, field), fallback);
              && (exists i :: 0 <= i < |players| && r in KeysOf(players[i], field))
              && forall i, k :: 0 <= i < |players| && k in KeysOf(players[i], field) ==> StrLe(k, r)
  {
    var keys := AllKeys(players, field);
    AllKeysMembers(players, field);
    if exists k :: k in keys && k != "" {
      var k :| k in keys && k != "";
      assert StrLe(k, MaxString(keys));
      var r := LatestKeyOr(keys, fallback);
      forall i, k | 0 <= i < |players| && k in KeysOf(players[i], field) ensures StrLe(k, r) {
        assert k in keys;
      }
    }
  }

  /** buildAvailableKeys: the current key and every member's keys, sorted, each once. */
  function AvailableKeys(players: seq<Player>, field: Field, now: string): (r: seq<string>)
    ensures StrictlyIncreasing(r)
    ensures forall k :: k in r <==> k == now || k in AllKeys(players, field)
    ensures now in r
  {
    SortedMembers({now} + AllKeys(players, field))
  }

  /** The year and month the page opens on are among the ones it offers. */
  lemma SelectedKeyIsAvailable(players: seq<Player>, field: Field, now: string)
    ensures LatestKeyOr(AllKeys(players, field), now) in AvailableKeys(players, field, now)
  {
  }

  /** The loop of buildAvailableKeys: both sets, seeded with the current year and month. */
  method CollectKeys(players: seq<Player>, nowYear: string, nowMonth: string) returns (yearSet: set<string>, monthSet: set<string>)
    ensures yearSet == {nowYear} + AllKeys(players, Yearly)
    ensures monthSet == {nowMonth} + AllKeys(players, Monthly)
  {
    yearSet, monthSet := {nowYear}, {nowMonth};
    for i := 0 to |players|
      invariant yearSet == {nowYear} + AllKeys(players[..i], Yearly)
      invariant monthSet == {nowMonth} + AllKeys(players[..i], Monthly)
    {
      AllKeysStep(players, i, Yearly);
      AllKeysStep(players, i, Monthly);
      yearSet := yearSet + KeysOf(players[i], Yearly);
      monthSet := monthSet + KeysOf(players[i], Monthly);
    }
    assert players[..|players|] == players;
  }

  /** The fields of `state` that loading the members sets. */
  class PaymentsState {
    var yearKey: string
    var monthKey: string
    var years: seq<string>
    var months: seq<string>

    constructor ()
      ensures yearKey == "" && monthKey == "" && years == [] && months == []
    {
      yearKey, monthKey, years, months := "", "", [], [];
    }

    /** buildAvailableKeys: the two sets, seeded with the current year and month, then sorted. */
    method BuildAvailableKeys(players: seq<Player>, nowYear: string, nowMonth: string)
      modifies this
      ensures years == AvailableKeys(players, Yearly, nowYear)
      ensures months == AvailableKeys(players, Monthly, nowMonth)
      ensures yearKey == old(yearKey) && monthKey == old(monthKey)
    {
      var yearSet, monthSet := CollectKeys(players, nowYear, nowMonth);
      years := SortedMembers(yearSet);
      months := SortedMembers(monthSet);
    }

    /** loadPlayers after the fetch: the latest year and month, then the keys on offer. */
    method LoadPlayers(players: seq<Player>, nowYear: string, nowMonth: string)
      modifies this
      ensures yearKey == LatestKeyOr(AllKeys(players, Yearly), nowYear)
      ensures monthKey == LatestKeyOr(AllKeys(players, Monthly), nowMonth)
      ensures years == AvailableKeys(players, Yearly, nowYear)
      ensures months == AvailableKeys(players, Monthly, nowMonth)
    {
      yearKey := GetLatestKey(players, Yearly, nowYear);
      monthKey := GetLatestKey(players, Monthly, nowMonth);
      BuildAvailableKeys(players, nowYear, nowMonth);
    }
  }

  // ---------------------------------------------------------------------
  // The month selector

  predicate InYear(yearKey: string, m: string)
  {
    IsPrefix(yearKey + "-", m)
  }

  /** Filtering keeps a strictly increasing list strictly increasing. */
  lemma FilterIncreasing(s: seq<string>, keep: string -> bool)
    ensures StrictlyIncreasing(s) ==> StrictlyIncreasing(Filter(s, keep))
  {
    if StrictlyIncreasing(s) {
      assert Chain(s, StrLt);
      FilterChain(s, keep, StrLt);
      assert Chain(Filter(s, keep), StrLt);
    }
  }

  /**
   * getMonthsForYear: the offered months of the year, in their order, or the single
   * month `${year}-01` when there are none. Every month returned is in that year.
   */
  function MonthsForYear(months: seq<string>, yearKey: string): (r: seq<string>)
    ensures |r| > 0
    ensures forall m :: m in r ==> InYear(yearKey, m)
    ensures (exists m :: m in months && InYear(yearKey, m)) ==>
              forall m :: m in r <==> m in months && InYear(yearKey, m)
    ensures !(exists m :: m in months && InYear(yearKey, m)) ==> r == [yearKey + "-01"]
    ensures StrictlyIncreasing(months) ==> StrictlyIncreasing(r)
  {
    var keep := (m: string) => InYear(yearKey, m);
    var inYear := Filter(months, keep);
    FilterIncreasing(months, keep);
    assert (yearKey + "-01")[..|yearKey + "-"|] == yearKey + "-";
    if |inYear| > 0 then
      assert inYear[0] in inYear;
      inYear
    else
      assert forall m :: m in months ==> !InYear(yearKey, m);
      [yearKey + "-01"]
  }

  /**
   * fillModal's month: the selected month when the year offers it, else the year's last
   * month, which is its latest when the offered months are sorted.
   */
  function ModalMonth(months: seq<string>, yearKey: string, monthKey: string): (r: string)
    ensures r in MonthsForYear(months, yearKey)
    ensures InYear(yearKey, r)
    ensures monthKey in MonthsForYear(months, yearKey) ==> r == monthKey
    ensures StrictlyIncreasing(months) && monthKey !in MonthsForYear(months, yearKey) ==>
              forall m :: m in MonthsForYear(months, yearKey) ==> StrLe(m, r)
  {
    var forYear := MonthsForYear(months, yearKey);
    var last := forYear[|forYear| - 1];
    ChainLast(forYear, StrLt);
    assert StrictlyIncreasing(forYear) ==> Chain(forYear, StrLt);
    if monthKey in forYear then monthKey else last
  }

  // ---------------------------------------------------------------------
  // The preview and the saved amounts

  /** `Math.max(0, Number(input.value || 0))`: None when the text is not a number (NaN). */
  function ClampInput(s: string): (r: Option<nat>)
    ensures ToNumber(Str(s)).None? <==> r.None?
    ensures ToNumber(Str(s)).Some? ==> r == Some(Max0(ToNumber(Str(s)).value))
  {
    match ToNumber(Or(Str(s), Num(0)))
    case None => None
    case Some(n) => Some(Max0(n))
  }

  function AsInt(n: Option<nat>): Option<int>
  {
    match n
    case Some(k) => Some(k)
    case None => None
  }

  datatype PreviewResult = PreviewResult(remaining: Option<nat>, status: PayStatus)

  /**
   * updateYearlyPreview and updateMonthlyPreview: both inputs clamped, the remainder
   * `max(0, expected - paid)` (NaN when either is not a number) and the badge.
   */
  function Preview(expectedInput: string, paidInput: string): (r: PreviewResult)
    ensures r.remaining.Some? <==> ClampInput(expectedInput).Some? && ClampInput(paidInput).Some?
    ensures r.remaining.Some? ==>
              r.remaining.value + Min(ClampInput(paidInput).value, ClampInput(expectedInput).value)
              == ClampInput(expectedInput).value
    ensures r.status == DeriveStatus(AsInt(ClampInput(expectedInput)), AsInt(ClampInput(paidInput)))
  {
    var e, p := ClampInput(expectedInput), ClampInput(paidInput);
    var remaining := if e.Some? && p.Some? then Some(Max0(e.value - p.value)) else None;
    PreviewResult(remaining, DeriveStatus(AsInt(e), AsInt(p)))
  }

  /**
   * With something due, the preview says paid exactly when nothing remains; with nothing
   * due, it is incomplete for any payment and pending otherwise.
   */
  lemma PreviewPaidIffNothingRemains(expectedInput: string, paidInput: string)
    requires ClampInput(expectedInput).Some? && ClampInput(paidInput).Some?
    ensures var r := Preview(expectedInput, paidInput);
            var e, p := ClampInput(expectedInput).value, ClampInput(paidInput).value;
            && (e > 0 ==> (r.status == PAID <==> r.remaining == Some(0)))
            && (e == 0 ==> (r.status == INCOMPLETE <==> p > 0) && (r.status == PENDING <==> p == 0))
  {
  }

  /** The body of the save request: the keys chosen and the four clamped amounts. */
  datatype PaymentsPayload = PaymentsPayload(
    yearKey: string,
    monthKey: string,
    yearlyExpected: Option<nat>,
    yearlyPaid: Option<nat>,
    monthlyExpected: Option<nat>,
    monthlyPaid: Option<nat>)

  /** The form, as typed. */
  datatype PaymentsForm = PaymentsForm(
    yearKey: string,
    monthKey: string,
    yearlyExpected: string,
    yearlyPaid: string,
    monthlyExpected: string,
    monthlyPaid: string)

  /**
   * The save handler's payload: every amount is either not a number (sent as null) or the
   * typed number raised to at least 0.
   */
  function SavePayload(f: PaymentsForm): (r: PaymentsPayload)
    ensures r.yearKey == f.yearKey && r.monthKey == f.monthKey
    ensures forall a :: a in [r.yearlyExpected, r.yearlyPaid, r.monthlyExpected, r.monthlyPaid] ==>
              a.None? || a.value >= 0
    ensures r.yearlyExpected == ClampInput(f.yearlyExpected) && r.yearlyPaid == ClampInput(f.yearlyPaid)
    ensures r.monthlyExpected == ClampInput(f.monthlyExpected) && r.monthlyPaid == ClampInput(f.monthlyPaid)
  {
    PaymentsPayload(f.yearKey, f.monthKey, ClampInput(f.yearlyExpected), ClampInput(f.yearlyPaid),
                    ClampInput(f.monthlyExpected), ClampInput(f.monthlyPaid))
  }

  /** A stored number shown in the form and saved unchanged comes back clamped to at least 0. */
  lemma ShownNumberSavesClamped(n: int)
    ensures ClampInput(StringOf(Num(n))) == Some(Max0(n))
  {
    NumberStringRoundTrip(n);
  }
}
