/**
 * The server's fee and status rules (server/lib/paymentStatus.js): the monthly fee
 * from the time-versioned schedule, the member-since year, the two yearly fee tiers,
 * the status of a payment against what is expected, and a member's payment summary.
 */
module PaymentStatus {
  import opened Wrappers
  import opened Js
  import opened Text
  import opened Seqs
  import opened Club

  // ---------------------------------------------------------------------
  // The schedule in ascending `from` order

  predicate FromBefore(a: FeeEntry, b: FeeEntry)
  {
    StrLt(a.from, b.from)
  }

  lemma FromBeforeStrictOrder()
    ensures StrictOrder(FromBefore)
  {
    StrLeTotalOrder();
    forall a: FeeEntry ensures !FromBefore(a, a) { StrLtIrreflexive(a.from); }
  }

  predicate AscendingFrom(s: seq<FeeEntry>)
  {
    forall i, j :: 0 <= i < j < |s| ==> StrLe(s[i].from, s[j].from)
  }

  /** `[...schedule].sort((a, b) => String(a.from).localeCompare(String(b.from)))`. */
  function SortSchedule(schedule: seq<FeeEntry>): (r: seq<FeeEntry>)
    ensures multiset(r) == multiset(schedule) && |r| == |schedule|
  {
    Sort(schedule, FromBefore)
  }

  lemma SortScheduleAscending(schedule: seq<FeeEntry>)
    ensures AscendingFrom(SortSchedule(schedule))
  {
    FromBeforeStrictOrder();
    SortSorted(schedule, FromBefore);
    var r := SortSchedule(schedule);
    forall i, j | 0 <= i < j < |r| ensures StrLe(r[i].from, r[j].from) {
      StrLtTotal(r[i].from, r[j].from);
    }
  }

  // ---------------------------------------------------------------------
  // Monthly fee

  /** Whether the loop of getMonthlyExpected takes this entry's amount for `monthKey`. */
  predicate Applies(e: FeeEntry, monthKey: string)
  {
    e.from != "" && StrLe(e.from, monthKey) && IsFinite(e.amount)
  }

  /** The entries of `s` that apply to `monthKey`, in order. */
  function Applying(s: seq<FeeEntry>, monthKey: string): (r: seq<FeeEntry>)
    ensures |r| <= |s|
  {
    if s == [] then []
    else (if Applies(s[0], monthKey) then [s[0]] else []) + Applying(s[1..], monthKey)
  }

  /** An entry is among the applying ones exactly when it is in the list and applies. */
  lemma {:induction false} ApplyingMembers(s: seq<FeeEntry>, monthKey: string)
    ensures forall e :: e in Applying(s, monthKey) <==> e in s && Applies(e, monthKey)
  {
    if s != [] {
      ApplyingMembers(s[1..], monthKey);
      assert s == [s[0]] + s[1..];
    }
  }

  lemma {:induction false} ApplyingSnoc(s: seq<FeeEntry>, x: FeeEntry, monthKey: string)
    ensures Applying(s + [x], monthKey) == Applying(s, monthKey) + (if Applies(x, monthKey) then [x] else [])
  {
    if s != [] {
      assert (s + [x])[1..] == s[1..] + [x];
      ApplyingSnoc(s[1..], x, monthKey);
    }
  }

  lemma {:induction false} ApplyingAscending(s: seq<FeeEntry>, monthKey: string)
    requires AscendingFrom(s)
    ensures AscendingFrom(Applying(s, monthKey))
  {
    if s != [] {
      ApplyingAscending(s[1..], monthKey);
      ApplyingMembers(s[1..], monthKey);
      var rest := Applying(s[1..], monthKey);
      forall e | e in rest ensures StrLe(s[0].from, e.from) {
        var k :| 0 <= k < |s[1..]| && s[1..][k] == e;
        assert s[k + 1] == e;
      }
    }
  }

  /** An entry that does not apply can be inserted anywhere without changing which entries apply. */
  lemma {:induction false} ApplyingInsert(x: FeeEntry, s: seq<FeeEntry>, monthKey: string)
    requires !Applies(x, monthKey)
    ensures Applying(Insert(x, s, FromBefore), monthKey) == Applying(s, monthKey)
  {
    if s == [] || FromBefore(x, s[0]) {
      assert ([x] + s)[1..] == s;
    } else {
      ApplyingInsert(x, s[1..], monthKey);
      assert ([s[0]] + Insert(x, s[1..], FromBefore))[1..] == Insert(x, s[1..], FromBefore);
    }
  }

  lemma {:induction false} ApplyingSameMonth(s: seq<FeeEntry>, m1: string, m2: string)
    requires forall e :: e in s ==> (Applies(e, m1) <==> Applies(e, m2))
    ensures Applying(s, m1) == Applying(s, m2)
  {
    if s != [] { ApplyingSameMonth(s[1..], m1, m2); }
  }

  lemma {:induction false} ApplyingNone(s: seq<FeeEntry>, monthKey: string)
    requires forall e :: e in s ==> !Applies(e, monthKey)
    ensures Applying(s, monthKey) == []
  {
    if s != [] { ApplyingNone(s[1..], monthKey); }
  }

  /** The amount of the last applying entry, or the fallback when none applies. */
  function LastAmountOr(applying: seq<FeeEntry>, fallback: int): int
  {
    if applying == [] then fallback else OrZero(applying[|applying| - 1].amount)
  }

  lemma CandidateStep(s: seq<FeeEntry>, i: nat, monthKey: string, fallback: int)
    requires i < |s|
    ensures LastAmountOr(Applying(s[..i + 1], monthKey), fallback)
            == if Applies(s[i], monthKey) then ToNumber(s[i].amount).value
               else LastAmountOr(Applying(s[..i], monthKey), fallback)
  {
    ApplyingSnoc(s[..i], s[i], monthKey);
    assert s[..i + 1] == s[..i] + [s[i]];
  }

  /** The fee in effect for `monthKey`: getMonthlyExpected, as a function of the schedule. */
  function MonthlyExpected(schedule: seq<FeeEntry>, monthKey: string): (r: int)
    ensures schedule == [] ==> r == 0
  {
    if schedule == [] then 0
    else
      var sorted := SortSchedule(schedule);
      LastAmountOr(Applying(sorted, monthKey), OrZero(sorted[0].amount))
  }

  /**
   * getMonthlyExpected: sorts a copy of the schedule, starts from the earliest entry's
   * amount and walks the entries in order, taking the amount of each one whose `from`
   * is set, not after `monthKey` and whose amount is a finite number.
   */
  method GetMonthlyExpected(settings: Settings, monthKey: string) returns (candidate: int)
    ensures candidate == MonthlyExpected(settings.fees.monthlySchedule, monthKey)
  {
    var schedule := settings.fees.monthlySchedule;
    if |schedule| == 0 {
      return 0;
    }
    var sorted := SortSchedule(schedule);
    candidate := OrZero(sorted[0].amount);
    var i := 0;
    while i < |sorted|
      invariant 0 <= i <= |sorted|
      invariant candidate == LastAmountOr(Applying(sorted[..i], monthKey), OrZero(sorted[0].amount))
    {
      var item := sorted[i];
      CandidateStep(sorted, i, monthKey, OrZero(sorted[0].amount));
      if item.from != "" && StrLe(item.from, monthKey) {
        var amount := ToNumber(item.amount);
        if amount.Some? {
          candidate := amount.value;
        }
      }
      i := i + 1;
    }
    assert sorted[..|sorted|] == sorted;
  }

  /** Sorting keeps the entries. */
  lemma InSorted(schedule: seq<FeeEntry>)
    ensures forall e :: e in SortSchedule(schedule) <==> e in schedule
  {
    var r := SortSchedule(schedule);
    forall e ensures e in r <==> e in schedule {
      assert e in r <==> e in multiset(r);
      assert e in schedule <==> e in multiset(schedule);
    }
  }

  /** The last entry of an ascending list has the latest `from`. */
  lemma LastIsLatest(s: seq<FeeEntry>)
    requires s != [] && AscendingFrom(s)
    ensures forall f :: f in s ==> StrLe(f.from, s[|s| - 1].from)
  {
    forall f | f in s ensures StrLe(f.from, s[|s| - 1].from) {
      var j :| 0 <= j < |s| && s[j] == f;
      if j < |s| - 1 { assert StrLe(s[j].from, s[|s| - 1].from); }
    }
  }

  /**
   * When some entry applies, the fee is the amount of an applying entry whose `from`
   * is the latest among the applying entries.
   */
  lemma MonthlyExpectedLatestApplying(schedule: seq<FeeEntry>, monthKey: string)
    requires exists e :: e in schedule && Applies(e, monthKey)
    ensures exists e :: e in schedule && Applies(e, monthKey)
                        && MonthlyExpected(schedule, monthKey) == ToNumber(e.amount).value
                        && forall f :: f in schedule && Applies(f, monthKey) ==> StrLe(f.from, e.from)
  {
    var sorted := SortSchedule(schedule);
    var applying := Applying(sorted, monthKey);
    InSorted(schedule);
    ApplyingMembers(sorted, monthKey);
    var e0 :| e0 in schedule && Applies(e0, monthKey);
    assert e0 in applying;
    SortScheduleAscending(schedule);
    ApplyingAscending(sorted, monthKey);
    LastIsLatest(applying);
    var last := applying[|applying| - 1];
    assert last in applying;
    assert MonthlyExpected(schedule, monthKey) == OrZero(last.amount);
  }

  /** When no entry applies, the fee is the (number or 0) amount of an entry with the earliest `from`. */
  lemma MonthlyExpectedFallback(schedule: seq<FeeEntry>, monthKey: string)
    requires schedule != []
    requires forall e :: e in schedule ==> !Applies(e, monthKey)
    ensures exists e :: e in schedule && MonthlyExpected(schedule, monthKey) == OrZero(e.amount)
                        && forall f :: f in schedule ==> StrLe(e.from, f.from)
  {
    var sorted := SortSchedule(schedule);
    var applying := Applying(sorted, monthKey);
    forall e | e in sorted ensures !Applies(e, monthKey) {
      assert e in multiset(schedule);
    }
    ApplyingNone(sorted, monthKey);
    var first := sorted[0];
    SortScheduleAscending(schedule);
    assert first in multiset(schedule);
    forall f | f in schedule ensures StrLe(first.from, f.from) {
      assert f in multiset(sorted);
      var j :| 0 <= j < |sorted| && sorted[j] == f;
      if j > 0 { assert StrLe(sorted[0].from, sorted[j].from); }
    }
  }

  /**
   * Adding an entry that does not apply to `monthKey` (one later than `monthKey`, one with
   * no `from`, or one whose amount is not a number) keeps the fee, as long as some entry
   * already applies. Without that condition the new entry may become the earliest one,
   * which is the fallback.
   */
  lemma AddingNonApplyingEntryKeepsFee(schedule: seq<FeeEntry>, e: FeeEntry, monthKey: string)
    requires exists f :: f in schedule && Applies(f, monthKey)
    requires !Applies(e, monthKey)
    ensures MonthlyExpected(schedule + [e], monthKey) == MonthlyExpected(schedule, monthKey)
  {
    SortSnoc(schedule, e, FromBefore);
    ApplyingInsert(e, SortSchedule(schedule), monthKey);
    var f :| f in schedule && Applies(f, monthKey);
    assert f in multiset(SortSchedule(schedule));
    ApplyingMembers(SortSchedule(schedule), monthKey);
  }

  /** The special case of an entry that starts after `monthKey`. */
  lemma AddingLaterEntryKeepsFee(schedule: seq<FeeEntry>, e: FeeEntry, monthKey: string)
    requires exists f :: f in schedule && Applies(f, monthKey)
    requires StrLt(monthKey, e.from)
    ensures MonthlyExpected(schedule + [e], monthKey) == MonthlyExpected(schedule, monthKey)
  {
    StrLtAsymmetric(monthKey, e.from);
    StrLtIrreflexive(monthKey);
    AddingNonApplyingEntryKeepsFee(schedule, e, monthKey);
  }

  /** Between two months with no schedule boundary in (m1, m2], the fee does not change. */
  lemma MonthlyExpectedConstantBetweenBoundaries(schedule: seq<FeeEntry>, m1: string, m2: string)
    requires StrLe(m1, m2)
    requires forall e :: e in schedule ==> !(StrLt(m1, e.from) && StrLe(e.from, m2))
    ensures MonthlyExpected(schedule, m1) == MonthlyExpected(schedule, m2)
  {
    if schedule != [] {
      var sorted := SortSchedule(schedule);
      forall e | e in sorted ensures Applies(e, m1) <==> Applies(e, m2) {
        assert e in multiset(schedule);
        if StrLe(e.from, m1) { StrLeTransitive(e.from, m1, m2); }
        StrLtTotal(e.from, m1);
      }
      ApplyingSameMonth(sorted, m1, m2);
    }
  }

  lemma ApplyingTwo(a: FeeEntry, b: FeeEntry, monthKey: string)
    ensures Applying([a, b], monthKey)
            == (if Applies(a, monthKey) then [a] else []) + (if Applies(b, monthKey) then [b] else [])
  {
    assert [a, b][1..] == [b] && [b][1..] == [];
  }

  /** Two entries in strictly ascending `from` order are sorted already. */
  lemma SortTwoAscending(a: FeeEntry, b: FeeEntry)
    requires StrLt(a.from, b.from)
    ensures SortSchedule([a, b]) == [a, b]
  {
    var s := [a, b];
    assert s[..1] == [a] && s[..1][..0] == [];
    assert Sort([a], FromBefore) == [a];
    StrLtAsymmetric(a.from, b.from);
    assert !FromBefore(b, a);
  }

  /** The schedule [{2026-01: 2000}, {2026-02: 3000}], sorted already. */
  function ExampleSchedule(): (s: seq<FeeEntry>)
    ensures SortSchedule(s) == s
  {
    StrLtAtFirstDifference("2026-01", "2026-02", 6);
    SortTwoAscending(FeeEntry("2026-01", Num(2000)), FeeEntry("2026-02", Num(3000)));
    [FeeEntry("2026-01", Num(2000)), FeeEntry("2026-02", Num(3000))]
  }

  /**
   * A schedule of two dated entries in ascending order, the earlier with a numeric amount:
   * the later amount from its month on when it is a number, the earlier one otherwise
   * (including the months before both, where the earliest entry is the fallback).
   */
  lemma TwoEntrySchedule(a: FeeEntry, b: FeeEntry, monthKey: string)
    requires a.from != "" && StrLt(a.from, b.from) && a.amount.Num?
    ensures MonthlyExpected([a, b], monthKey)
            == if StrLe(b.from, monthKey) && IsFinite(b.amount) then ToNumber(b.amount).value else a.amount.n
  {
    SortTwoAscending(a, b);
    ApplyingTwo(a, b, monthKey);
    if StrLe(b.from, monthKey) {
      StrLeTransitive(a.from, b.from, monthKey);
    }
  }

  /** In 2026-01 the first entry is in effect. */
  lemma ScheduleExampleFirstMonth()
    ensures MonthlyExpected(ExampleSchedule(), "2026-01") == 2000
  {
    var s := ExampleSchedule();
    StrLtAtFirstDifference("2026-01", "2026-02", 6);
    StrLtAsymmetric("2026-01", "2026-02");
    TwoEntrySchedule(s[0], s[1], "2026-01");
  }

  /** In 2026-03 the later entry is in effect. */
  lemma ScheduleExampleLaterMonth()
    ensures MonthlyExpected(ExampleSchedule(), "2026-03") == 3000
  {
    var s := ExampleSchedule();
    StrLtAtFirstDifference("2026-01", "2026-02", 6);
    StrLtAtFirstDifference("2026-02", "2026-03", 6);
    TwoEntrySchedule(s[0], s[1], "2026-03");
  }

  /** In 2025-12, before every entry, the earliest entry is the fallback. */
  lemma ScheduleExampleBeforeAll()
    ensures MonthlyExpected(ExampleSchedule(), "2025-12") == 2000
  {
    var s := ExampleSchedule();
    StrLtAtFirstDifference("2026-01", "2026-02", 6);
    StrLtAtFirstDifference("2025-12", "2026-02", 3);
    StrLtAsymmetric("2025-12", "2026-02");
    TwoEntrySchedule(s[0], s[1], "2025-12");
  }

  // ---------------------------------------------------------------------
  // Member-since year and yearly fee

  /** `membership.memberSinceYear` when it is a number greater than 0. */
  function StoredSinceYear(p: Player): Option<int>
  {
    match ToNumber(p.memberSinceYear)
    case Some(n) => if n > 0 then Some(n) else None
    case None => None
  }

  /** `keys.map((year) => Number(year)).filter((year) => Number.isFinite(year))`. */
  function YearNumbers(keys: seq<string>): (r: seq<int>)
    ensures forall y :: y in r <==> exists k :: k in keys && ParseInt(k) == Some(y)
  {
    if keys == [] then []
    else
      var rest := YearNumbers(keys[1..]);
      assert forall k :: k in keys <==> k == keys[0] || k in keys[1..];
      match ParseInt(keys[0])
      case Some(y) => [y] + rest
      case None => rest
  }

  /** The numeric keys of `subscriptions.year`. */
  function SubscriptionYearNumbers(p: Player): seq<int>
  {
    YearNumbers(SortedMembers(p.subscriptionYears))
  }

  /** The numbers of `subscriptions.year` are exactly the values of its numeric keys. */
  lemma SubscriptionYearNumbersMembers(p: Player)
    ensures forall y :: y in SubscriptionYearNumbers(p) <==> exists k :: k in p.subscriptionYears && ParseInt(k) == Some(y)
  {
    var keys := SortedMembers(p.subscriptionYears);
    forall y ensures y in YearNumbers(keys) <==> exists k :: k in p.subscriptionYears && ParseInt(k) == Some(y) {
      if y in YearNumbers(keys) {
        var k :| k in keys && ParseInt(k) == Some(y);
        assert k in p.subscriptionYears;
      }
      if exists k :: k in p.subscriptionYears && ParseInt(k) == Some(y) {
        var k :| k in p.subscriptionYears && ParseInt(k) == Some(y);
        assert k in keys;
      }
    }
  }

  /** The earliest numeric subscription year is a numeric key, and no numeric key is earlier. */
  lemma EarliestSubscriptionYear(p: Player)
    requires SubscriptionYearNumbers(p) != []
    ensures var m := MinInt(SubscriptionYearNumbers(p));
      && (exists k :: k in p.subscriptionYears && ParseInt(k) == Some(m))
      && forall k :: k in p.subscriptionYears && ParseInt(k).Some? ==> m <= ParseInt(k).value
  {
    SubscriptionYearNumbersMembers(p);
    var years := SubscriptionYearNumbers(p);
    var m := MinInt(years);
    forall k | k in p.subscriptionYears && ParseInt(k).Some? ensures m <= ParseInt(k).value {
      assert ParseInt(k).value in years;
    }
  }

  /** Without numeric subscription years, no key of `subscriptions.year` reads as a number. */
  lemma NoNumericSubscriptionYear(p: Player)
    requires SubscriptionYearNumbers(p) == []
    ensures forall k :: k in p.subscriptionYears ==> ParseInt(k).None?
  {
    SubscriptionYearNumbersMembers(p);
  }

  /** `years.sort((a, b) => a - b)[0]`: the least number of a non-empty list. */
  function MinInt(s: seq<int>): (m: int)
    requires s != []
    ensures m in s && forall y :: y in s ==> m <= y
  {
    if |s| == 1 then s[0]
    else
      var rest := MinInt(s[1..]);
      assert forall y :: y in s <==> y == s[0] || y in s[1..];
      if s[0] <= rest then s[0] else rest
  }

  /**
   * getMemberSinceYear: the stored year if it is a number above 0; else the earliest
   * numeric subscription year; else `Number(settings.season) || currentYear`.
   */
  function MemberSinceYear(settings: Settings, p: Player, currentYear: int): (y: int)
    ensures StoredSinceYear(p).Some? ==> y == StoredSinceYear(p).value && y > 0
    ensures StoredSinceYear(p).None? && SubscriptionYearNumbers(p) != [] ==>
              (exists k :: k in p.subscriptionYears && ParseInt(k) == Some(y))
              && forall k :: k in p.subscriptionYears && ParseInt(k).Some? ==> y <= ParseInt(k).value
    ensures StoredSinceYear(p).None? && SubscriptionYearNumbers(p) == [] ==>
              (forall k :: k in p.subscriptionYears ==> ParseInt(k).None?)
              && y == NumberOr(settings.season, currentYear)
  {
    match StoredSinceYear(p)
    case Some(n) => n
    case None =>
      var years := SubscriptionYearNumbers(p);
      if years != [] then
        EarliestSubscriptionYear(p);
        MinInt(years)
      else
        NoNumericSubscriptionYear(p);
        NumberOr(settings.season, currentYear)
  }

  /** `Number(yearKey) === memberSinceYear`: the year in which the new-member fee applies. */
  predicate IsNewMemberYear(settings: Settings, p: Player, yearKey: string, currentYear: int)
  {
    ParseInt(yearKey) == Some(MemberSinceYear(settings, p, currentYear))
  }

  /** getYearlyExpected: the new-member or the renewal fee, 0 when the fee is not a number. */
  function YearlyExpected(settings: Settings, p: Player, yearKey: string, currentYear: int): int
  {
    if IsNewMemberYear(settings, p, yearKey, currentYear)
    then OrZero(settings.fees.newMemberYearly)
    else OrZero(settings.fees.renewalYearly)
  }

  /**
   * The new-member fee is charged for the member-since year (written as a year key) and
   * for no other year number; every other year key pays the renewal fee.
   */
  lemma NewMemberFeeOnlyInMemberSinceYear(settings: Settings, p: Player, currentYear: int, yearKey: string)
    ensures YearlyExpected(settings, p, IntToString(MemberSinceYear(settings, p, currentYear)), currentYear)
            == OrZero(settings.fees.newMemberYearly)
    ensures ParseInt(yearKey) != Some(MemberSinceYear(settings, p, currentYear)) ==>
              YearlyExpected(settings, p, yearKey, currentYear) == OrZero(settings.fees.renewalYearly)
    ensures forall y1, y2 :: IsNewMemberYear(settings, p, y1, currentYear) && IsNewMemberYear(settings, p, y2, currentYear)
              ==> ParseInt(y1) == ParseInt(y2)
  {
    IntToStringRoundTrip(MemberSinceYear(settings, p, currentYear));
  }

  // ---------------------------------------------------------------------
  // Status of a payment

  datatype PayStatus = PAID | PENDING | INCOMPLETE

  datatype StatusResult = StatusResult(status: PayStatus, remaining: int)

  /**
   * statusFromPaid: with a positive expected amount, paying it all is PAID, paying
   * nothing is PENDING and anything else INCOMPLETE, and `remaining` is what is still
   * due; with nothing expected, nothing remains and any payment makes it INCOMPLETE.
   */
  function StatusFromPaid(expected: Value, paid: Value): (r: StatusResult)
    ensures var e, p := OrZero(expected), OrZero(paid);
      && (r.status == PAID <==> e > 0 && p >= e)
      && (r.status == PENDING <==> (e > 0 && p == 0) || (e <= 0 && p <= 0))
      && (r.status == INCOMPLETE <==> (e > 0 && p != 0 && p < e) || (e <= 0 && p > 0))
      && r.remaining == (if e > 0 && p < e then e - p else 0)
  {
    var expectedNum := OrZero(expected);
    var paidNum := OrZero(paid);
    if expectedNum > 0 then
      if paidNum >= expectedNum then StatusResult(PAID, 0)
      else if paidNum == 0 then StatusResult(PENDING, expectedNum)
      else StatusResult(INCOMPLETE, if expectedNum - paidNum > 0 then expectedNum - paidNum else 0)
    else if paidNum > 0 then StatusResult(INCOMPLETE, 0)
    else StatusResult(PENDING, 0)
  }

  /** For a payment of at least 0, what remains lies between 0 and what is expected. */
  lemma RemainingBounds(expected: Value, paid: Value)
    requires OrZero(paid) >= 0
    ensures 0 <= StatusFromPaid(expected, paid).remaining
    ensures OrZero(expected) > 0 ==> StatusFromPaid(expected, paid).remaining <= OrZero(expected)
    ensures OrZero(expected) <= 0 ==> StatusFromPaid(expected, paid).remaining == 0
  {
  }

  /** Paying what remains settles the payment. */
  lemma PayingRemainingSettles(expected: int, paid: int)
    requires expected > 0
    ensures StatusFromPaid(Num(expected), Num(paid + StatusFromPaid(Num(expected), Num(paid)).remaining)).status == PAID
  {
  }

  // ---------------------------------------------------------------------
  // A member's payment summary

  datatype Section = Section(expected: int, paid: int, remaining: int, status: PayStatus)

  datatype PaymentSummary = PaymentSummary(yearly: Section, monthly: Section)

  /** `Number(records?.[key]?.paid) || 0`. */
  function PaidFor(records: map<string, PaymentRecord>, key: string): (r: int)
    ensures key !in records ==> r == 0
  {
    if key in records then OrZero(records[key].paid) else 0
  }

  function SectionOf(expected: int, paid: int): Section
  {
    var st := StatusFromPaid(Num(expected), Num(paid));
    Section(expected, paid, st.remaining, st.status)
  }

  /**
   * getPlayerPaymentSummary: null for an unknown id; otherwise, for the first member with
   * that id, the yearly and monthly expected amounts, what was paid (0 when there is no
   * record) and the status of each.
   */
  function PlayerPaymentSummary(players: seq<Player>, settings: Settings, playerId: string,
                                yearKey: string, monthKey: string, currentYear: int): (r: Option<PaymentSummary>)
    ensures r.None? <==> forall k :: 0 <= k < |players| ==> players[k].id != playerId
    ensures r.Some? ==>
      var p := players[FindPlayer(players, playerId).value];
      var y, m := r.value.yearly, r.value.monthly;
      && p.id == playerId
      && y.expected == YearlyExpected(settings, p, yearKey, currentYear)
      && y.paid == PaidFor(p.yearly, yearKey)
      && StatusResult(y.status, y.remaining) == StatusFromPaid(Num(y.expected), Num(y.paid))
      && m.expected == MonthlyExpected(settings.fees.monthlySchedule, monthKey)
      && m.paid == PaidFor(p.monthly, monthKey)
      && StatusResult(m.status, m.remaining) == StatusFromPaid(Num(m.expected), Num(m.paid))
  {
    match FindPlayer(players, playerId)
    case None => None
    case Some(k) =>
      var p := players[k];
      Some(PaymentSummary(
        SectionOf(YearlyExpected(settings, p, yearKey, currentYear), PaidFor(p.yearly, yearKey)),
        SectionOf(MonthlyExpected(settings.fees.monthlySchedule, monthKey), PaidFor(p.monthly, monthKey))))
  }
}
