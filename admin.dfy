/**
 * Season administration (server/routes/admin.js): the five reset flags, the reset
 * applied to every member, and the rollover and reset-season handlers with the order
 * in which they validate, back up, write the settings and reset.
 */
module Admin {
  import opened Wrappers
  import opened Js
  import opened Club

  /** The request's `reset` object, each flag as sent (Undefined when absent). */
  datatype ResetRequest = ResetRequest(
    attendance: Value, monthlyPayments: Value, yearlyPayments: Value, stats: Value, disciplinePaid: Value)

  datatype ResetFlags = ResetFlags(
    attendance: bool, monthlyPayments: bool, yearlyPayments: bool, stats: bool, disciplinePaid: bool)

  const NoReset := ResetFlags(false, false, false, false, false)

  /** validateReset: every one of the five flags is a boolean. */
  predicate ValidateReset(r: ResetRequest)
  {
    r.attendance.Bool? && r.monthlyPayments.Bool? && r.yearlyPayments.Bool? && r.stats.Bool? && r.disciplinePaid.Bool?
  }

  /** The flags of a valid request. */
  function FlagsOf(r: ResetRequest): (f: ResetFlags)
    requires ValidateReset(r)
    ensures f.attendance == r.attendance.b && f.monthlyPayments == r.monthlyPayments.b
    ensures f.yearlyPayments == r.yearlyPayments.b && f.stats == r.stats.b && f.disciplinePaid == r.disciplinePaid.b
  {
    ResetFlags(r.attendance.b, r.monthlyPayments.b, r.yearlyPayments.b, r.stats.b, r.disciplinePaid.b)
  }

  /** validateReset accepts a request exactly when it is the request of some set of flags. */
  lemma ValidateResetIffFlags(r: ResetRequest)
    ensures ValidateReset(r) <==> exists f: ResetFlags :: r == RequestOf(f)
  {
    if ValidateReset(r) {
      assert r == RequestOf(FlagsOf(r));
    }
  }

  /** The request that sends exactly these flags. */
  function RequestOf(f: ResetFlags): (r: ResetRequest)
    ensures ValidateReset(r) && FlagsOf(r) == f
  {
    ResetRequest(Bool(f.attendance), Bool(f.monthlyPayments), Bool(f.yearlyPayments), Bool(f.stats), Bool(f.disciplinePaid))
  }

  /**
   * The reset of one member: each set flag clears its own field (attendance, monthly
   * payments, yearly payments, the four stats, the two paid counters) and nothing else.
   */
  function ResetPlayer(p: Player, f: ResetFlags): (q: Player)
    ensures q.attendance == (if f.attendance then map[] else p.attendance)
    ensures q.monthly == (if f.monthlyPayments then map[] else p.monthly)
    ensures q.yearly == (if f.yearlyPayments then map[] else p.yearly)
    ensures q.stats == (if f.stats then ZeroStats else p.stats)
    ensures q.discipline == (if f.disciplinePaid then ZeroDiscipline else p.discipline)
    ensures q.(attendance := p.attendance, monthly := p.monthly, yearly := p.yearly,
               stats := p.stats, discipline := p.discipline) == p
  {
    var p1 := if f.attendance then p.(attendance := map[]) else p;
    var p2 := if f.monthlyPayments then p1.(monthly := map[]) else p1;
    var p3 := if f.yearlyPayments then p2.(yearly := map[]) else p2;
    var p4 := if f.stats then p3.(stats := ZeroStats) else p3;
    if f.disciplinePaid then p4.(discipline := ZeroDiscipline) else p4
  }

  /** Either flag set in either of two resets. */
  function Union(f: ResetFlags, g: ResetFlags): ResetFlags
  {
    ResetFlags(f.attendance || g.attendance, f.monthlyPayments || g.monthlyPayments,
               f.yearlyPayments || g.yearlyPayments, f.stats || g.stats, f.disciplinePaid || g.disciplinePaid)
  }

  /** With every flag false a member is left as it was. */
  lemma NoResetKeepsPlayer(p: Player)
    ensures ResetPlayer(p, NoReset) == p
  {
  }

  /** Resetting twice with the same flags is resetting once. */
  lemma ResetPlayerIdempotent(p: Player, f: ResetFlags)
    ensures ResetPlayer(ResetPlayer(p, f), f) == ResetPlayer(p, f)
  {
  }

  /** Two resets in a row are one reset with the union of their flags: the flags are independent. */
  lemma ResetPlayerCompose(p: Player, f: ResetFlags, g: ResetFlags)
    ensures ResetPlayer(ResetPlayer(p, f), g) == ResetPlayer(p, Union(f, g))
  {
  }

  /** The reset of every member, in order. */
  function ResetAll(players: seq<Player>, f: ResetFlags): (r: seq<Player>)
    ensures |r| == |players|
    ensures forall i :: 0 <= i < |r| ==> r[i] == ResetPlayer(players[i], f)
  {
    seq(|players|, i requires 0 <= i < |players| => ResetPlayer(players[i], f))
  }

  /**
   * applyReset: reads db.json, applies the flags to every member and writes db.json back;
   * nothing else is touched.
   */
  method ApplyReset(st: Store, f: ResetFlags)
    modifies st
    ensures st.players == ResetAll(old(st.players), f)
    ensures st.trace == old(st.trace) + [WriteDb]
    ensures st.settings == old(st.settings) && st.visitors == old(st.visitors)
    ensures st.notes == old(st.notes) && st.activity == old(st.activity)
  {
    var players := st.players;
    var i := 0;
    while i < |players|
      invariant 0 <= i <= |players| && |players| == |old(st.players)|
      invariant forall k :: 0 <= k < i ==> players[k] == ResetPlayer(old(st.players)[k], f)
      invariant forall k :: i <= k < |players| ==> players[k] == old(st.players)[k]
    {
      players := players[i := ResetPlayer(players[i], f)];
      i := i + 1;
    }
    st.SaveDb(players);
  }

  const SeasonError := HttpError(400, "New season year must be >= current season year.")
  const FlagsError := HttpError(400, "Reset flags must be boolean.")

  /**
   * The rollover guards, in order: the new year must be a finite number not below the
   * current season (a season that is not a number does not block), then the flags must be
   * booleans. On success, the new season.
   */
  function RolloverCheck(settings: Settings, newSeasonYear: Value, reset: ResetRequest): (r: Result<int, HttpError>)
    ensures r.Success? <==>
              ToNumber(newSeasonYear).Some?
              && !(ToNumber(settings.season).Some? && ToNumber(newSeasonYear).value < ToNumber(settings.season).value)
              && ValidateReset(reset)
    ensures r.Success? ==> r.value == ToNumber(newSeasonYear).value
    ensures r.Failure? ==> r.error == SeasonError || r.error == FlagsError
    ensures r == Failure(FlagsError) ==> IsFinite(newSeasonYear) && !ValidateReset(reset)
  {
    var currentSeason := ToNumber(settings.season);
    var newSeason := ToNumber(newSeasonYear);
    if newSeason.None? || (currentSeason.Some? && newSeason.value < currentSeason.value) then Failure(SeasonError)
    else if !ValidateReset(reset) then Failure(FlagsError)
    else Success(newSeason.value)
  }

  /** A rollover never moves a numeric season backwards. */
  lemma RolloverNeverDecreasesSeason(settings: Settings, newSeasonYear: Value, reset: ResetRequest)
    requires settings.season.Num?
    ensures RolloverCheck(settings, newSeasonYear, reset).Success? ==>
              RolloverCheck(settings, newSeasonYear, reset).value >= settings.season.n
  {
  }

  /**
   * POST /rollover: on a failed guard nothing is backed up or written. Otherwise both
   * files are backed up as they were, settings.json is written with the new season, and
   * then db.json is written with every member reset.
   */
  method Rollover(st: Store, newSeasonYear: Value, reset: ResetRequest) returns (r: Result<int, HttpError>)
    modifies st
    ensures r == RolloverCheck(old(st.settings), newSeasonYear, reset)
    ensures r.Failure? ==>
              st.trace == old(st.trace) && st.players == old(st.players) && st.settings == old(st.settings)
    ensures r.Success? ==>
              st.trace == old(st.trace) + [Backup(old(st.players), old(st.settings)), WriteSettings, WriteDb]
              && st.settings == old(st.settings).(season := Num(r.value))
              && st.players == ResetAll(old(st.players), FlagsOf(reset))
    ensures st.visitors == old(st.visitors) && st.notes == old(st.notes) && st.activity == old(st.activity)
  {
    r := RolloverCheck(st.settings, newSeasonYear, reset);
    if r.Failure? {
      return;
    }
    st.BackupAll();
    st.SaveSettings(st.settings.(season := Num(r.value)));
    ApplyReset(st, FlagsOf(reset));
  }

  /**
   * POST /reset-season: invalid flags are rejected before anything else; otherwise both
   * files are backed up, db.json is written with every member reset, and the season,
   * unchanged, is returned.
   */
  method ResetSeason(st: Store, reset: ResetRequest) returns (r: Result<Value, HttpError>)
    modifies st
    ensures !ValidateReset(reset) ==>
              r == Failure(FlagsError) && st.trace == old(st.trace) && st.players == old(st.players)
    ensures ValidateReset(reset) ==>
              r == Success(old(st.settings).season)
              && st.trace == old(st.trace) + [Backup(old(st.players), old(st.settings)), WriteDb]
              && st.players == ResetAll(old(st.players), FlagsOf(reset))
    ensures st.settings == old(st.settings) && st.visitors == old(st.visitors)
    ensures st.notes == old(st.notes) && st.activity == old(st.activity)
  {
    if !ValidateReset(reset) {
      return Failure(FlagsError);
    }
    var season := st.settings.season;
    st.BackupAll();
    ApplyReset(st, FlagsOf(reset));
    r := Success(season);
  }
}
