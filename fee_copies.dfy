/**
 * The copies of the fee and status rules that live outside server/lib/paymentStatus.js:
 * the schedule lookup repeated in the import and export routes and in the reports and
 * obligations pages, the member-since year of the export route and of the profile,
 * reports and obligations pages, and the lower-case status of the export route and the
 * payments page. Each is modelled once, with its exact relation to the server rule.
 */
module FeeCopies {
  import opened Wrappers
  import opened Js
  import opened Text
  import opened Seqs
  import opened Club
  import opened PaymentStatus

  // ---------------------------------------------------------------------
  // The copied schedule lookup

  /** The copy's test `item.from <= monthKey`; it checks neither that `from` is set nor the amount. */
  predicate Reached(e: FeeEntry, monthKey: string)
  {
    StrLe(e.from, monthKey)
  }

  /** The entries of `s` the copy's loop takes, in order. */
  function ReachedEntries(s: seq<FeeEntry>, monthKey: string): (r: seq<FeeEntry>)
    ensures |r| <= |s|
  {
    if s == [] then []
    else (if Reached(s[0], monthKey) then [s[0]] else []) + ReachedEntries(s[1..], monthKey)
  }

  lemma {:induction false} ReachedSnoc(s: seq<FeeEntry>, x: FeeEntry, monthKey: string)
    ensures ReachedEntries(s + [x], monthKey) == ReachedEntries(s, monthKey) + (if Reached(x, monthKey) then [x] else [])
  {
    if s != [] {
      assert (s + [x])[1..] == s[1..] + [x];
      ReachedSnoc(s[1..], x, monthKey);
    }
  }

  lemma {:induction false} ReachedMembers(s: seq<FeeEntry>, monthKey: string)
    ensures forall e :: e in ReachedEntries(s, monthKey) ==> e in s
  {
    if s != [] {
      ReachedMembers(s[1..], monthKey);
      assert s == [s[0]] + s[1..];
    }
  }

  /** The raw amount of the last reached entry, or the fallback. */
  function LastRawAmountOr(reached: seq<FeeEntry>, fallback: Value): Value
  {
    if reached == [] then fallback else reached[|reached| - 1].amount
  }

  lemma CopyCandidateStep(s: seq<FeeEntry>, i: nat, monthKey: string, fallback: Value)
    requires i < |s|
    ensures LastRawAmountOr(ReachedEntries(s[..i + 1], monthKey), fallback)
            == if Reached(s[i], monthKey) then s[i].amount
               else LastRawAmountOr(ReachedEntries(s[..i], monthKey), fallback)
  {
    ReachedSnoc(s[..i], s[i], monthKey);
    assert s[..i + 1] == s[..i] + [s[i]];
  }

  /**
   * The copied getMonthlyExpected as a function: 0 for an empty schedule, else the raw
   * amount of the last sorted entry whose `from` is not after `monthKey`, else the raw
   * amount of the earliest entry.
   */
  function CopiedMonthlyExpected(schedule: seq<FeeEntry>, monthKey: string): (r: Value)
    ensures schedule == [] ==> r == Num(0)
  {
    if schedule == [] then Num(0)
    else
      var sorted := SortSchedule(schedule);
      LastRawAmountOr(ReachedEntries(sorted, monthKey), sorted[0].amount)
  }

  /**
   * The copied getMonthlyExpected (import.js, export.js, reports.js, obligations.js):
   * sorts a copy of the schedule by `from`, starts from the earliest entry's amount and
   * takes the amount of every entry whose `from` is not after `monthKey`.
   */
  method CopiedGetMonthlyExpected(settings: Settings, monthKey: string) returns (candidate: Value)
    ensures candidate == CopiedMonthlyExpected(settings.fees.monthlySchedule, monthKey)
  {
    var schedule := settings.fees.monthlySchedule;
    if |schedule| == 0 {
      return Num(0);
    }
    var sorted := SortSchedule(schedule);
    candidate := sorted[0].amount;
    var i := 0;
    while i < |sorted|
      invariant 0 <= i <= |sorted|
      invariant candidate == LastRawAmountOr(ReachedEntries(sorted[..i], monthKey), sorted[0].amount)
    {
      CopyCandidateStep(sorted, i, monthKey, sorted[0].amount);
      if StrLe(sorted[i].from, monthKey) {
        candidate := sorted[i].amount;
      }
      i := i + 1;
    }
    assert sorted[..|sorted|] == sorted;
  }

  /** The result of the copy is always the amount of one of the entries (or 0 without entries). */
  lemma CopiedIsAnEntryAmount(schedule: seq<FeeEntry>, monthKey: string)
    requires schedule != []
    ensures exists e :: e in schedule && CopiedMonthlyExpected(schedule, monthKey) == e.amount
  {
    var sorted := SortSchedule(schedule);
    var reached := ReachedEntries(sorted, monthKey);
    ReachedMembers(sorted, monthKey);
    InSorted(schedule);
    if reached != [] {
      assert reached[|reached| - 1] in reached;
    } else {
      assert sorted[0] in sorted;
    }
  }

  /** Every entry has a `from` and a numeric amount. */
  predicate WellFormedSchedule(schedule: seq<FeeEntry>)
  {
    forall e :: e in schedule ==> e.from != "" && IsFinite(e.amount)
  }

  lemma {:induction false} ReachedIsApplying(s: seq<FeeEntry>, monthKey: string)
    requires WellFormedSchedule(s)
    ensures ReachedEntries(s, monthKey) == Applying(s, monthKey)
  {
    if s != [] {
      assert s[0] in s;
      assert WellFormedSchedule(s[1..]) by {
        forall e | e in s[1..] ensures e in s { }
      }
      ReachedIsApplying(s[1..], monthKey);
    }
  }

  /** On a schedule whose entries all have a `from` and a numeric amount, the copy computes the server's fee. */
  lemma CopyAgreesWithServer(schedule: seq<FeeEntry>, monthKey: string)
    requires WellFormedSchedule(schedule)
    ensures ToNumber(CopiedMonthlyExpected(schedule, monthKey)) == Some(MonthlyExpected(schedule, monthKey))
  {
    if schedule != [] {
      var sorted := SortSchedule(schedule);
      InSorted(schedule);
      assert WellFormedSchedule(sorted);
      ReachedIsApplying(sorted, monthKey);
      var applying := Applying(sorted, monthKey);
      ApplyingMembers(sorted, monthKey);
      if applying != [] {
        assert applying[|applying| - 1] in applying;
      } else {
        assert sorted[0] in sorted;
      }
    }
  }

  /** A schedule whose later entry has the amount "tbd". */
  function TbdSchedule(): (s: seq<FeeEntry>)
    ensures SortSchedule(s) == s
  {
    StrLtAtFirstDifference("2026-01", "2026-02", 6);
    SortTwoAscending(FeeEntry("2026-01", Num(2000)), FeeEntry("2026-02", Str("tbd")));
    [FeeEntry("2026-01", Num(2000)), FeeEntry("2026-02", Str("tbd"))]
  }

  /**
   * Where the copies differ: in 2026-03 the server skips the non-numeric amount and keeps
   * 2000, while the copies return the text "tbd".
   */
  lemma CopyDiffersOnNonNumericAmount()
    ensures CopiedMonthlyExpected(TbdSchedule(), "2026-03") == Str("tbd")
    ensures MonthlyExpected(TbdSchedule(), "2026-03") == 2000
  {
    var s := TbdSchedule();
    StrLtAtFirstDifference("2026-01", "2026-02", 6);
    StrLtAtFirstDifference("2026-02", "2026-03", 6);
    TbdIsNotANumber();
    TwoEntrySchedule(s[0], s[1], "2026-03");
    CopiedTwoEntrySchedule(s[0], s[1], "2026-03");
  }

  /** The copy on two entries in ascending order: the later amount from its month on, whatever it is. */
  lemma CopiedTwoEntrySchedule(a: FeeEntry, b: FeeEntry, monthKey: string)
    requires StrLt(a.from, b.from)
    ensures CopiedMonthlyExpected([a, b], monthKey) == if StrLe(b.from, monthKey) then b.amount else a.amount
  {
    SortTwoAscending(a, b);
    ReachedTwo(a, b, monthKey);
    assert CopiedMonthlyExpected([a, b], monthKey) == LastRawAmountOr(ReachedEntries([a, b], monthKey), a.amount);
  }

  lemma ReachedTwo(a: FeeEntry, b: FeeEntry, monthKey: string)
    ensures ReachedEntries([a, b], monthKey)
            == (if Reached(a, monthKey) then [a] else []) + (if Reached(b, monthKey) then [b] else [])
  {
    assert [a, b][1..] == [b] && [b][1..] == [];
  }

  lemma TbdIsNotANumber()
    ensures ToNumber(Str("tbd")).None?
  {
    TrimNoop("tbd");
  }

  // ---------------------------------------------------------------------
  // The copied member-since year

  /** export.js getMemberSinceYear: as the server's, but falls back to the current year directly. */
  function ExportMemberSinceYear(p: Player, currentYear: int): (y: int)
  {
    match StoredSinceYear(p)
    case Some(n) => n
    case None =>
      var years := SubscriptionYearNumbers(p);
      if years != [] then MinInt(years) else currentYear
  }

  /**
   * The export's year is the server's with the season step removed; it differs from the
   * server's only for a member with neither a stored year nor a numeric subscription year.
   */
  lemma ExportMemberSinceYearSkipsSeason(settings: Settings, p: Player, currentYear: int)
    ensures ExportMemberSinceYear(p, currentYear) == MemberSinceYear(settings.(season := Undefined), p, currentYear)
    ensures StoredSinceYear(p).Some? || SubscriptionYearNumbers(p) != [] ==>
              ExportMemberSinceYear(p, currentYear) == MemberSinceYear(settings, p, currentYear)
  {
  }

  /**
   * getMemberSinceYear of the profile, reports and obligations pages: as the server's,
   * but the last step returns `settings.season` as it is stored, with no current-year step.
   */
  function ClientMemberSinceYear(season: Value, p: Player): (y: Value)
    ensures StoredSinceYear(p).Some? ==> y == Num(StoredSinceYear(p).value)
    ensures StoredSinceYear(p).None? && SubscriptionYearNumbers(p) == [] ==> y == season
  {
    match StoredSinceYear(p)
    case Some(n) => Num(n)
    case None =>
      var years := SubscriptionYearNumbers(p);
      if years != [] then Num(MinInt(years)) else season
  }

  /** The page's year is the server's whenever the server does not reach its last step. */
  lemma ClientMemberSinceYearVsServer(settings: Settings, p: Player, currentYear: int)
    ensures settings.season.Num? && settings.season.n != 0 ==>
              ClientMemberSinceYear(settings.season, p) == Num(MemberSinceYear(settings, p, currentYear))
    ensures StoredSinceYear(p).Some? || SubscriptionYearNumbers(p) != [] ==>
              ClientMemberSinceYear(settings.season, p) == Num(MemberSinceYear(settings, p, currentYear))
  {
  }

  /** The pages' `Number(yearKey) === memberSinceYear`: only a number can be strictly equal to a number. */
  predicate ClientIsNewMemberYear(season: Value, p: Player, yearKey: string)
  {
    var y := ClientMemberSinceYear(season, p);
    y.Num? && ParseInt(yearKey) == Some(y.n)
  }

  /**
   * The yearly fee the pages use. The pages add the stored fee as it is; here it is read
   * with `OrZero`, which is the same value for the finite numbers the settings route stores.
   */
  function ClientYearlyFee(settings: Settings, p: Player, yearKey: string): int
  {
    if ClientIsNewMemberYear(settings.season, p, yearKey)
    then OrZero(settings.fees.newMemberYearly)
    else OrZero(settings.fees.renewalYearly)
  }

  /** With a non-zero numeric season, the pages charge the server's yearly fee. */
  lemma ClientYearlyFeeAgreesWithServer(settings: Settings, p: Player, yearKey: string, currentYear: int)
    requires settings.season.Num? && settings.season.n != 0
    ensures ClientYearlyFee(settings, p, yearKey) == YearlyExpected(settings, p, yearKey, currentYear)
  {
    ClientMemberSinceYearVsServer(settings, p, currentYear);
  }

  // ---------------------------------------------------------------------
  // The lower-case status of export.js and payments.js

  /** A JS number: `Some(n)` for a finite value, `None` for NaN. */
  function NumberValue(n: Option<int>): Value
  {
    match n
    case Some(k) => Num(k)
    case None => NaN
  }

  /**
   * deriveStatus: with nothing expected, any payment is incomplete; else paying it all is
   * paid; else any positive payment is incomplete; else pending. A NaN operand makes
   * every comparison false.
   */
  function DeriveStatus(expected: Option<int>, paid: Option<int>): (r: PayStatus)
    ensures r == PAID <==> expected.Some? && paid.Some? && expected.value > 0 && paid.value >= expected.value
    ensures r == INCOMPLETE <==> paid.Some? && paid.value > 0 && !(expected.Some? && expected.value > 0 && paid.value >= expected.value)
    ensures r == PENDING <==> !(paid.Some? && paid.value > 0) && !(expected.Some? && paid.Some? && expected.value > 0 && paid.value >= expected.value)
  {
    if expected.Some? && expected.value <= 0 then
      (if paid.Some? && paid.value > 0 then INCOMPLETE else PENDING)
    else if expected.Some? && paid.Some? && paid.value >= expected.value then PAID
    else if paid.Some? && paid.value > 0 then INCOMPLETE
    else PENDING
  }

  /** The badge text: "paid", "pending" or "incomplete". */
  function LowerName(s: PayStatus): string
  {
    match s
    case PAID => "paid"
    case PENDING => "pending"
    case INCOMPLETE => "incomplete"
  }

  /**
   * deriveStatus agrees with the server's statusFromPaid in every case (NaN included, which
   * the server reads as 0) except a positive expected amount with a negative payment,
   * which the server calls INCOMPLETE and deriveStatus pending.
   */
  lemma DeriveStatusVsServer(expected: Option<int>, paid: Option<int>)
    ensures DeriveStatus(expected, paid) != StatusFromPaid(NumberValue(expected), NumberValue(paid)).status
            <==> expected.Some? && paid.Some? && expected.value > 0 && paid.value < 0
    ensures expected.Some? && paid.Some? && expected.value > 0 && paid.value < 0 ==>
              DeriveStatus(expected, paid) == PENDING
              && StatusFromPaid(NumberValue(expected), NumberValue(paid)).status == INCOMPLETE
  {
  }
}
