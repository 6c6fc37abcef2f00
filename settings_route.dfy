/**
 * PATCH /settings (server/routes/settings.js): a chain of guards on the request body,
 * then the new settings built from the old ones with the validated fields replaced.
 */
module SettingsRoute {
  import opened Wrappers
  import opened Js
  import opened Text
  import opened Club
  import opened PaymentStatus

  /**
   * The fields of the request body the route reads, as sent (Undefined when absent,
   * including the fields of a missing `fees` or `attendance` object).
   */
  datatype SettingsPayload = SettingsPayload(
    clubName: Value, season: Value, currencySymbol: Value,
    monthly: Value, newMemberYearly: Value, renewalYearly: Value,
    startDate: Value, lockFuture: Value)

  const ClubNameError := HttpError(400, "Club name is required.")
  const SeasonError := HttpError(400, "Season must be a number >= 2000.")
  const CurrencyError := HttpError(400, "Currency symbol is required.")
  const FeesError := HttpError(400, "Fees must be non-negative numbers.")
  const StartDateError := HttpError(400, "Attendance start date must be YYYY-MM-DD.")
  const LockFutureError := HttpError(400, "Attendance lockFuture must be boolean.")

  /** isNonEmptyString: a string with something besides white space. */
  predicate IsNonEmptyString(v: Value)
  {
    v.Str? && Trim(v.s) != ""
  }

  predicate SeasonOk(p: SettingsPayload)
  {
    ToNumber(p.season).Some? && ToNumber(p.season).value >= 2000
  }

  /** `String(currencySymbol || "").trim()`. */
  function CurrencyOf(p: SettingsPayload): string
  {
    TextField(p.currencySymbol)
  }

  predicate CurrencyOk(p: SettingsPayload)
  {
    CurrencyOf(p) != "" && |CurrencyOf(p)| <= 3
  }

  predicate FeeOk(v: Value)
  {
    ToNumber(v).Some? && ToNumber(v).value >= 0
  }

  predicate FeesOk(p: SettingsPayload)
  {
    FeeOk(p.monthly) && FeeOk(p.newMemberYearly) && FeeOk(p.renewalYearly)
  }

  predicate StartDateOk(p: SettingsPayload)
  {
    IsDateKey(TextOr(p.startDate))
  }

  /**
   * The PATCH body check and the new settings. The guards fail in this order: club name,
   * season, currency symbol, fees, start date, lockFuture. On success the club name is
   * trimmed, the season and the three fees are numbers, `fees` holds exactly the three
   * fees, `attendance` exactly the start date and lockFuture, and every other key (the
   * fine rates) is the old one.
   */
  function PatchSettingsResult(settings: Settings, p: SettingsPayload): (r: Result<Settings, HttpError>)
    ensures !IsNonEmptyString(p.clubName) ==> r == Failure(ClubNameError)
    ensures IsNonEmptyString(p.clubName) && !SeasonOk(p) ==> r == Failure(SeasonError)
    ensures IsNonEmptyString(p.clubName) && SeasonOk(p) && !CurrencyOk(p) ==> r == Failure(CurrencyError)
    ensures IsNonEmptyString(p.clubName) && SeasonOk(p) && CurrencyOk(p) && !FeesOk(p) ==> r == Failure(FeesError)
    ensures IsNonEmptyString(p.clubName) && SeasonOk(p) && CurrencyOk(p) && FeesOk(p) && !StartDateOk(p) ==>
              r == Failure(StartDateError)
    ensures IsNonEmptyString(p.clubName) && SeasonOk(p) && CurrencyOk(p) && FeesOk(p) && StartDateOk(p) && !p.lockFuture.Bool? ==>
              r == Failure(LockFutureError)
    ensures r.Success? <==>
              IsNonEmptyString(p.clubName) && SeasonOk(p) && CurrencyOk(p) && FeesOk(p) && StartDateOk(p) && p.lockFuture.Bool?
    ensures r.Success? ==>
              && r.value.clubName == Trim(p.clubName.s)
              && r.value.season == Num(ToNumber(p.season).value)
              && r.value.currencySymbol == CurrencyOf(p)
              && r.value.fees == Fees(Num(ToNumber(p.monthly).value), [], Num(ToNumber(p.newMemberYearly).value),
                                      Num(ToNumber(p.renewalYearly).value))
              && r.value.attendance == AttendanceConfig(TextOr(p.startDate), p.lockFuture)
              && r.value.discipline == settings.discipline
  {
    if !IsNonEmptyString(p.clubName) then Failure(ClubNameError)
    else if !SeasonOk(p) then Failure(SeasonError)
    else if !CurrencyOk(p) then Failure(CurrencyError)
    else if !FeesOk(p) then Failure(FeesError)
    else if !StartDateOk(p) then Failure(StartDateError)
    else if !p.lockFuture.Bool? then Failure(LockFutureError)
    else
      Success(settings.(
        clubName := Trim(p.clubName.s),
        season := Num(ToNumber(p.season).value),
        currencySymbol := CurrencyOf(p),
        fees := Fees(Num(ToNumber(p.monthly).value), [], Num(ToNumber(p.newMemberYearly).value),
                     Num(ToNumber(p.renewalYearly).value)),
        attendance := AttendanceConfig(TextOr(p.startDate), p.lockFuture)))
  }

  /**
   * The rebuilt `fees` has no `monthlySchedule`, so after a successful PATCH every month's
   * server-side monthly fee is 0, whatever `fees.monthly` was set to.
   */
  lemma PatchDropsSchedule(settings: Settings, p: SettingsPayload, monthKey: string)
    requires PatchSettingsResult(settings, p).Success?
    ensures MonthlyExpected(PatchSettingsResult(settings, p).value.fees.monthlySchedule, monthKey) == 0
  {
  }

  /** The season a PATCH stores is a whole number of at least 2000. */
  lemma PatchedSeasonIsValid(settings: Settings, p: SettingsPayload)
    requires PatchSettingsResult(settings, p).Success?
    ensures PatchSettingsResult(settings, p).value.season.Num?
    ensures PatchSettingsResult(settings, p).value.season.n >= 2000
  {
  }

  /** PATCH /settings: settings.json is written with the new settings, or not at all on an error. */
  method PatchSettings(st: Store, p: SettingsPayload) returns (r: Result<Settings, HttpError>)
    modifies st
    ensures r == PatchSettingsResult(old(st.settings), p)
    ensures r.Failure? ==> st.settings == old(st.settings) && st.trace == old(st.trace)
    ensures r.Success? ==> st.settings == r.value && st.trace == old(st.trace) + [WriteSettings]
    ensures st.players == old(st.players) && st.visitors == old(st.visitors)
    ensures st.notes == old(st.notes) && st.activity == old(st.activity)
  {
    r := PatchSettingsResult(st.settings, p);
    if r.Success? {
      st.SaveSettings(r.value);
    }
  }
}
