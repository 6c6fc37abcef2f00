/**
 * The dashboard overview (server/routes/overview.js): the year and month keys, the
 * member rows with their payment summaries, the createdAt backfill, and the per-status
 * counts.
 */
module Overview {
  import opened Wrappers
  import opened Js
  import opened Text
  import opened Club
  import opened PaymentStatus
  import Seqs

  const YearKeyError := HttpError(400, "yearKey must be YYYY.")
  const MonthKeyError := HttpError(400, "monthKey must be YYYY-MM.")

  /** `new Date(0).toISOString()`. */
  const EpochIso := "1970-01-01T00:00:00.000Z"

  /**
   * The keys of the request: `String(q.yearKey || settings.season || currentYear)` and
   * `String(q.monthKey || currentMonthKey)`, rejected unless they match `^\d{4}$` and
   * `^\d{4}-\d{2}$`, the year first.
   */
  function ResolveKeys(queryYear: Value, queryMonth: Value, season: Value, currentYear: int, currentMonthKey: string)
    : (r: Result<(string, string), HttpError>)
    ensures var y := StringOf(Or(Or(queryYear, season), Num(currentYear)));
            var m := StringOf(Or(queryMonth, Str(currentMonthKey)));
      && (r == Failure(YearKeyError) <==> !IsYearKey(y))
      && (r == Failure(MonthKeyError) <==> IsYearKey(y) && !IsMonthKey(m))
      && (r.Success? <==> IsYearKey(y) && IsMonthKey(m))
      && (r.Success? ==> r.value == (y, m))
  {
    var yearKey := StringOf(Or(Or(queryYear, season), Num(currentYear)));
    var monthKey := StringOf(Or(queryMonth, Str(currentMonthKey)));
    if !IsYearKey(yearKey) then Failure(YearKeyError)
    else if !IsMonthKey(monthKey) then Failure(MonthKeyError)
    else Success((yearKey, monthKey))
  }

  /** A query key given as text is used as it is, whatever the season. */
  lemma QueryKeyWins(q: string, queryMonth: Value, season: Value, currentYear: int, currentMonthKey: string)
    requires q != []
    ensures ResolveKeys(Str(q), queryMonth, season, currentYear, currentMonthKey).Success? ==>
              ResolveKeys(Str(q), queryMonth, season, currentYear, currentMonthKey).value.0 == q
  {
  }

  /** The backfill of one member: a missing createdAt becomes the epoch; a present one is kept. */
  function Backfill(p: Player): (q: Player)
    ensures q.createdAt != ""
    ensures p.createdAt != "" ==> q == p
    ensures p.createdAt == "" ==> q == p.(createdAt := EpochIso)
  {
    if p.createdAt == "" then p.(createdAt := EpochIso) else p
  }

  function BackfillAll(players: seq<Player>): (r: seq<Player>)
    ensures |r| == |players| && forall i :: 0 <= i < |r| ==> r[i] == Backfill(players[i])
  {
    seq(|players|, i requires 0 <= i < |players| => Backfill(players[i]))
  }

  /** `players.some((player) => !player.createdAt)`. */
  predicate SomeMissingCreatedAt(players: seq<Player>)
  {
    exists i :: 0 <= i < |players| && players[i].createdAt == ""
  }

  /** After the backfill no member lacks createdAt, so the check that follows it is always false. */
  lemma BackfillLeavesNoneMissing(players: seq<Player>)
    ensures !SomeMissingCreatedAt(BackfillAll(players))
  {
  }

  /** One row of the response. */
  datatype OverviewRow = OverviewRow(
    id: string, name: string, nickname: string, position: string, createdAt: string,
    yearly: Option<Section>, monthly: Option<Section>)

  datatype Counts = Counts(
    totalMembers: nat,
    yearlyPaid: nat, yearlyPending: nat, yearlyIncomplete: nat,
    monthlyPaid: nat, monthlyPending: nat, monthlyIncomplete: nat)

  datatype OverviewResponse = OverviewResponse(rows: seq<OverviewRow>, counts: Counts, yearKey: string, monthKey: string)

  function RowOf(p: Player, summary: Option<PaymentSummary>): OverviewRow
  {
    OverviewRow(p.id, p.name, p.nickname, p.position, p.createdAt,
                if summary.Some? then Some(summary.value.yearly) else None,
                if summary.Some? then Some(summary.value.monthly) else None)
  }

  /** Two member lists that differ at most in createdAt. */
  predicate SameButCreatedAt(ps: seq<Player>, qs: seq<Player>)
  {
    |ps| == |qs| && forall i :: 0 <= i < |ps| ==> qs[i] == ps[i].(createdAt := qs[i].createdAt)
  }

  /** Lists with the same ids in the same order find the same index. */
  lemma {:induction false} FindIgnoresCreatedAt(ps: seq<Player>, qs: seq<Player>, id: string)
    requires SameButCreatedAt(ps, qs)
    ensures FindPlayer(qs, id) == FindPlayer(ps, id)
  {
    if |ps| > 0 {
      assert qs[0].id == ps[0].id;
      assert SameButCreatedAt(ps[1..], qs[1..]) by {
        forall i | 0 <= i < |ps[1..]| ensures qs[1..][i] == ps[1..][i].(createdAt := qs[1..][i].createdAt) {
          assert qs[i + 1] == ps[i + 1].(createdAt := qs[i + 1].createdAt);
        }
      }
      FindIgnoresCreatedAt(ps[1..], qs[1..], id);
    }
  }

  /** The payment summary does not depend on createdAt. */
  lemma SummaryIgnoresCreatedAt(ps: seq<Player>, qs: seq<Player>, settings: Settings, id: string,
                                yearKey: string, monthKey: string, currentYear: int)
    requires SameButCreatedAt(ps, qs)
    ensures PlayerPaymentSummary(qs, settings, id, yearKey, monthKey, currentYear)
            == PlayerPaymentSummary(ps, settings, id, yearKey, monthKey, currentYear)
  {
    FindIgnoresCreatedAt(ps, qs, id);
    var a := FindPlayer(ps, id);
    if a.Some? {
      var p := ps[a.value];
      var q := qs[a.value];
      assert StoredSinceYear(q) == StoredSinceYear(p);
      assert SubscriptionYearNumbers(q) == SubscriptionYearNumbers(p);
      assert YearlyExpected(settings, q, yearKey, currentYear) == YearlyExpected(settings, p, yearKey, currentYear);
    }
  }

  /** The rows: each member, backfilled, with its payment summary (null sections for none). */
  function OverviewRows(players: seq<Player>, settings: Settings, yearKey: string, monthKey: string, currentYear: int)
    : (r: seq<OverviewRow>)
    ensures |r| == |players|
    ensures forall i :: 0 <= i < |r| ==>
              && r[i].id == players[i].id
              && r[i].createdAt != ""
              && (players[i].createdAt != "" ==> r[i].createdAt == players[i].createdAt)
  {
    seq(|players|, i requires 0 <= i < |players| =>
      RowOf(Backfill(players[i]), PlayerPaymentSummary(players, settings, players[i].id, yearKey, monthKey, currentYear)))
  }

  /** Every member is in the list, so every row has both sections. */
  lemma EveryRowHasSections(players: seq<Player>, settings: Settings, yearKey: string, monthKey: string, currentYear: int)
    ensures forall i :: 0 <= i < |players| ==>
              OverviewRows(players, settings, yearKey, monthKey, currentYear)[i].yearly.Some?
              && OverviewRows(players, settings, yearKey, monthKey, currentYear)[i].monthly.Some?
  {
    forall i | 0 <= i < |players|
      ensures PlayerPaymentSummary(players, settings, players[i].id, yearKey, monthKey, currentYear).Some?
    {
      assert players[i].id == players[i].id;
    }
  }

  // ---------------------------------------------------------------------
  // Counts

  /** The bucket a section is counted in: PAID, INCOMPLETE, and everything else (null included) pending. */
  function Bucket(s: Option<Section>): PayStatus
  {
    if s.Some? && s.value.status == PAID then PAID
    else if s.Some? && s.value.status == INCOMPLETE then INCOMPLETE
    else PENDING
  }

  function SectionFor(r: OverviewRow, yearly: bool): Option<Section>
  {
    if yearly then r.yearly else r.monthly
  }

  /** How many rows have their yearly (or monthly) section in bucket `b`. */
  function CountBucket(rows: seq<OverviewRow>, yearly: bool, b: PayStatus): (n: nat)
    ensures n <= |rows|
  {
    if rows == [] then 0
    else CountBucket(rows[..|rows| - 1], yearly, b) + (if Bucket(SectionFor(rows[|rows| - 1], yearly)) == b then 1 else 0)
  }

  /** The three buckets partition the rows. */
  lemma {:induction false} BucketsPartition(rows: seq<OverviewRow>, yearly: bool)
    ensures CountBucket(rows, yearly, PAID) + CountBucket(rows, yearly, PENDING) + CountBucket(rows, yearly, INCOMPLETE) == |rows|
  {
    if rows != [] {
      BucketsPartition(rows[..|rows| - 1], yearly);
    }
  }

  /** The counts of a list of rows. */
  function Tally(rows: seq<OverviewRow>): (c: Counts)
    ensures c.totalMembers == |rows|
    ensures c.yearlyPaid + c.yearlyPending + c.yearlyIncomplete == |rows|
    ensures c.monthlyPaid + c.monthlyPending + c.monthlyIncomplete == |rows|
  {
    BucketsPartition(rows, true);
    BucketsPartition(rows, false);
    Counts(|rows|,
           CountBucket(rows, true, PAID), CountBucket(rows, true, PENDING), CountBucket(rows, true, INCOMPLETE),
           CountBucket(rows, false, PAID), CountBucket(rows, false, PENDING), CountBucket(rows, false, INCOMPLETE))
  }

  /** One more row adds one to its yearly bucket and one to its monthly bucket. */
  lemma TallyStep(rows: seq<OverviewRow>, i: nat)
    requires i < |rows|
    ensures var t, u := Tally(rows[..i]), Tally(rows[..i + 1]);
            var y, m := Bucket(rows[i].yearly), Bucket(rows[i].monthly);
            && u.yearlyPaid == t.yearlyPaid + (if y == PAID then 1 else 0)
            && u.yearlyPending == t.yearlyPending + (if y == PENDING then 1 else 0)
            && u.yearlyIncomplete == t.yearlyIncomplete + (if y == INCOMPLETE then 1 else 0)
            && u.monthlyPaid == t.monthlyPaid + (if m == PAID then 1 else 0)
            && u.monthlyPending == t.monthlyPending + (if m == PENDING then 1 else 0)
            && u.monthlyIncomplete == t.monthlyIncomplete + (if m == INCOMPLETE then 1 else 0)
  {
    assert rows[..i + 1][..i] == rows[..i] && rows[..i + 1][i] == rows[i];
  }

  /** The counting loop: one increment per row for its yearly bucket and one for its monthly bucket. */
  method CountStatuses(rows: seq<OverviewRow>) returns (c: Counts)
    ensures c == Tally(rows)
  {
    c := Counts(|rows|, 0, 0, 0, 0, 0, 0);
    var i := 0;
    while i < |rows|
      invariant 0 <= i <= |rows|
      invariant c.totalMembers == |rows|
      invariant c.yearlyPaid == Tally(rows[..i]).yearlyPaid && c.monthlyPaid == Tally(rows[..i]).monthlyPaid
      invariant c.yearlyPending == Tally(rows[..i]).yearlyPending && c.monthlyPending == Tally(rows[..i]).monthlyPending
      invariant c.yearlyIncomplete == Tally(rows[..i]).yearlyIncomplete
      invariant c.monthlyIncomplete == Tally(rows[..i]).monthlyIncomplete
    {
      TallyStep(rows, i);
      var y := Bucket(rows[i].yearly);
      var m := Bucket(rows[i].monthly);
      if y == PAID { c := c.(yearlyPaid := c.yearlyPaid + 1); }
      else if y == INCOMPLETE { c := c.(yearlyIncomplete := c.yearlyIncomplete + 1); }
      else { c := c.(yearlyPending := c.yearlyPending + 1); }
      if m == PAID { c := c.(monthlyPaid := c.monthlyPaid + 1); }
      else if m == INCOMPLETE { c := c.(monthlyIncomplete := c.monthlyIncomplete + 1); }
      else { c := c.(monthlyPending := c.monthlyPending + 1); }
      i := i + 1;
    }
    assert rows[..|rows|] == rows;
  }

  /** The whole response of GET /overview for the stored members and settings. */
  function OverviewOf(players: seq<Player>, settings: Settings, queryYear: Value, queryMonth: Value,
                      currentYear: int, currentMonthKey: string): (r: Result<OverviewResponse, HttpError>)
    ensures r.Success? ==> |r.value.rows| == |players| && r.value.counts.totalMembers == |players|
    ensures r.Failure? <==> ResolveKeys(queryYear, queryMonth, settings.season, currentYear, currentMonthKey).Failure?
  {
    match ResolveKeys(queryYear, queryMonth, settings.season, currentYear, currentMonthKey)
    case Failure(e) => Failure(e)
    case Success(keys) =>
      var rows := OverviewRows(players, settings, keys.0, keys.1, currentYear);
      Success(OverviewResponse(rows, Tally(rows), keys.0, keys.1))
  }

  /** The row the loop builds at index `i`, over a copy backfilled up to there, is the row of the specification. */
  lemma RowStep(players: seq<Player>, backfilled: seq<Player>, settings: Settings, yearKey: string, monthKey: string,
                currentYear: int, i: nat)
    requires SameButCreatedAt(players, backfilled) && i < |players| && backfilled[i] == Backfill(players[i])
    ensures RowOf(backfilled[i], PlayerPaymentSummary(backfilled, settings, backfilled[i].id, yearKey, monthKey, currentYear))
            == OverviewRows(players, settings, yearKey, monthKey, currentYear)[i]
  {
    SummaryIgnoresCreatedAt(players, backfilled, settings, players[i].id, yearKey, monthKey, currentYear);
  }

  /** One step of the backfill loop: member `i` is backfilled, the others are as they were. */
  lemma BackfillStep(players: seq<Player>, before: seq<Player>, after: seq<Player>, i: nat)
    requires i < |players| == |before|
    requires forall k :: 0 <= k < i ==> before[k] == Backfill(players[k])
    requires forall k :: i <= k < |players| ==> before[k] == players[k]
    requires after == before[i := Backfill(before[i])]
    ensures |after| == |players|
    ensures forall k :: 0 <= k < i + 1 ==> after[k] == Backfill(players[k])
    ensures forall k :: i + 1 <= k < |players| ==> after[k] == players[k]
    ensures SameButCreatedAt(players, after)
  {
  }

  /**
   * The backfill loop of the handler: each member without createdAt gets the epoch in the
   * in-memory copy, and its row is built from its payment summary, looked up in the copy
   * as backfilled so far. RowStep shows that this is the row of the specification.
   */
  method BuildRows(players: seq<Player>, settings: Settings, yearKey: string, monthKey: string, currentYear: int)
    returns (backfilled: seq<Player>, rows: seq<OverviewRow>)
    ensures backfilled == BackfillAll(players)
    ensures rows == OverviewRows(players, settings, yearKey, monthKey, currentYear)
  {
    ghost var spec := OverviewRows(players, settings, yearKey, monthKey, currentYear);
    backfilled := players;
    rows := [];
    var i := 0;
    while i < |players|
      invariant 0 <= i <= |players| && |backfilled| == |players| && |rows| == i
      invariant forall k :: 0 <= k < i ==> backfilled[k] == Backfill(players[k])
      invariant forall k :: i <= k < |players| ==> backfilled[k] == players[k]
      invariant rows == spec[..i]
    {
      ghost var before := backfilled;
      backfilled := backfilled[i := Backfill(backfilled[i])];
      BackfillStep(players, before, backfilled, i);
      var summary := PlayerPaymentSummary(backfilled, settings, backfilled[i].id, yearKey, monthKey, currentYear);
      RowStep(players, backfilled, settings, yearKey, monthKey, currentYear, i);
      Seqs.PrefixExtend(spec, i);
      rows := rows + [RowOf(backfilled[i], summary)];
      i := i + 1;
    }
    assert spec[..|players|] == spec;
    assert backfilled == BackfillAll(players);
  }

  /** `if (missingCreatedAt) fs.writeFile(dbPath, ...)`: db.json gets the backfilled members only when asked. */
  method SaveIfMissing(st: Store, missing: bool, backfilled: seq<Player>)
    modifies st
    ensures missing ==> st.players == backfilled && st.trace == old(st.trace) + [WriteDb]
    ensures !missing ==> st.players == old(st.players) && st.trace == old(st.trace)
    ensures st.settings == old(st.settings) && st.visitors == old(st.visitors)
    ensures st.notes == old(st.notes) && st.activity == old(st.activity)
  {
    if missing {
      st.SaveDb(backfilled);
    }
  }

  /**
   * GET /overview as written: the missing-createdAt check runs over the list the loop has
   * already backfilled, so it never finds one and db.json is never written.
   */
  method GetOverview(st: Store, queryYear: Value, queryMonth: Value, currentYear: int, currentMonthKey: string)
    returns (r: Result<OverviewResponse, HttpError>)
    modifies st
    ensures r == OverviewOf(old(st.players), old(st.settings), queryYear, queryMonth, currentYear, currentMonthKey)
    ensures st.players == old(st.players) && st.trace == old(st.trace)
    ensures st.settings == old(st.settings) && st.visitors == old(st.visitors)
    ensures st.notes == old(st.notes) && st.activity == old(st.activity)
  {
    var keys := ResolveKeys(queryYear, queryMonth, st.settings.season, currentYear, currentMonthKey);
    if keys.Failure? {
      return Failure(keys.error);
    }
    var yearKey, monthKey := keys.value.0, keys.value.1;
    var backfilled, rows := BuildRows(st.players, st.settings, yearKey, monthKey, currentYear);
    BackfillLeavesNoneMissing(st.players);
    var missing := SomeMissingCreatedAt(backfilled);
    SaveIfMissing(st, missing, backfilled);
    var counts := CountStatuses(rows);
    r := Success(OverviewResponse(rows, counts, yearKey, monthKey));
  }

  /**
   * GET /overview with the check taken before the backfill: when some member lacked
   * createdAt, db.json is written with the backfilled members.
   */
  method GetOverviewPersisting(st: Store, queryYear: Value, queryMonth: Value, currentYear: int, currentMonthKey: string)
    returns (r: Result<OverviewResponse, HttpError>)
    modifies st
    ensures r == OverviewOf(old(st.players), old(st.settings), queryYear, queryMonth, currentYear, currentMonthKey)
    ensures r.Success? && SomeMissingCreatedAt(old(st.players)) ==>
              st.players == BackfillAll(old(st.players)) && st.trace == old(st.trace) + [WriteDb]
    ensures !(r.Success? && SomeMissingCreatedAt(old(st.players))) ==>
              st.players == old(st.players) && st.trace == old(st.trace)
    ensures st.settings == old(st.settings) && st.visitors == old(st.visitors)
    ensures st.notes == old(st.notes) && st.activity == old(st.activity)
  {
    var keys := ResolveKeys(queryYear, queryMonth, st.settings.season, currentYear, currentMonthKey);
    if keys.Failure? {
      return Failure(keys.error);
    }
    var yearKey, monthKey := keys.value.0, keys.value.1;
    var missing := SomeMissingCreatedAt(st.players);
    var backfilled, rows := BuildRows(st.players, st.settings, yearKey, monthKey, currentYear);
    var counts := CountStatuses(rows);
    r := Success(OverviewResponse(rows, counts, yearKey, monthKey));
    SaveIfMissing(st, missing, backfilled);
  }

  /** After the persisting handler every stored member has a createdAt. */
  lemma PersistedMembersHaveCreatedAt(players: seq<Player>)
    requires SomeMissingCreatedAt(players)
    ensures forall i :: 0 <= i < |players| ==> BackfillAll(players)[i].createdAt != ""
    ensures forall i :: 0 <= i < |players| && players[i].createdAt != "" ==> BackfillAll(players)[i] == players[i]
  {
  }
}
