/**
 * The visitor routes (server/routes/visitors.js): create and edit a visitor, record a
 * session payment, set the card counts with the paid counters capped, record a batch of
 * attendance, promote a visitor to a member, and delete a visitor.
 */
module Visitors {
  import opened Wrappers
  import opened Js
  import opened Text
  import opened Club
  import opened Fines
  import opened FeeCopies
  import opened Attendance
  import Activity

  const NameRequired := HttpError(400, "Name is required.")
  const SessionDateError := HttpError(400, "Session date must be YYYY-MM-DD.")
  const PaidError := HttpError(400, "Paid amount must be non-negative.")
  const CardsError := HttpError(400, "Card counts must be non-negative.")
  const SaturdayError := HttpError(400, "Attendance can only be recorded for Saturdays.")
  const PositionError := HttpError(400, "Position is not supported.")

  /** The fee of one session, fixed by the payments route. */
  const SessionFee := 1000

  // ---------------------------------------------------------------------
  // Create and edit

  /** A new visitor: no attendance, no session payments, no cards and nothing paid. */
  function NewVisitor(id: string, name: string, nickname: string, notes: string, now: string): (v: Visitor)
    ensures v.id == id && v.name == name && v.nickname == nickname && v.notes == notes && v.createdAt == now
    ensures v.attendance == map[] && v.sessions == map[]
    ensures v.yellow == Num(0) && v.red == Num(0) && v.discipline == ZeroDiscipline
  {
    Visitor(id, name, nickname, notes, now, map[], map[], Num(0), Num(0), ZeroDiscipline)
  }

  /** A new visitor owes no fine and its fine status is "No cards". */
  lemma NewVisitorOwesNothing(id: string, name: string, nickname: string, notes: string, now: string, yellowFine: int, redFine: int)
    ensures var c := VisitorCards(NewVisitor(id, name, nickname, notes, now));
      c == Cards(0, 0, 0, 0) && FineOwed(c, yellowFine, redFine) == 0 && FineStatusOf(c, yellowFine, redFine) == NoCards
  {
    var c := VisitorCards(NewVisitor(id, name, nickname, notes, now));
    assert c == Cards(0, 0, 0, 0);
    assert OwedYellow(c) == 0 && OwedRed(c) == 0;
  }

  /**
   * POST /visitors: a name that is empty once trimmed is rejected and nothing is written;
   * otherwise the new visitor, with its trimmed texts, is appended and visitors.json written.
   */
  method CreateVisitor(st: Store, name: Value, nickname: Value, notes: Value, id: string, now: string)
    returns (r: Result<Visitor, HttpError>)
    modifies st
    ensures TextField(name) == "" ==>
              r == Failure(NameRequired) && st.visitors == old(st.visitors) && st.trace == old(st.trace)
    ensures TextField(name) != "" ==>
              && r == Success(NewVisitor(id, TextField(name), TextField(nickname), TextField(notes), now))
              && st.visitors == old(st.visitors) + [r.value]
              && st.trace == old(st.trace) + [WriteVisitors]
    ensures st.players == old(st.players) && st.settings == old(st.settings)
    ensures st.notes == old(st.notes) && st.activity == old(st.activity)
  {
    var n := TextField(name);
    if n == "" {
      return Failure(NameRequired);
    }
    var v := NewVisitor(id, n, TextField(nickname), TextField(notes), now);
    st.SaveVisitors(st.visitors + [v]);
    r := Success(v);
  }

  /** The edit: the name only when the new one is not empty, the nickname and notes always. */
  function EditVisitor(v: Visitor, name: string, nickname: string, notes: string): (w: Visitor)
    ensures w.name == (if name != "" then name else v.name)
    ensures w.nickname == nickname && w.notes == notes
    ensures w.(name := v.name, nickname := v.nickname, notes := v.notes) == v
  {
    v.(name := if name != "" then name else v.name, nickname := nickname, notes := notes)
  }

  /** PATCH /visitors/:id: 404 for an unknown id, else the first visitor with the id is edited. */
  method PatchVisitor(st: Store, id: string, name: Value, nickname: Value, notes: Value)
    returns (r: Result<Visitor, HttpError>)
    modifies st
    ensures FindVisitor(old(st.visitors), id).None? ==>
              r == Failure(NotFound) && st.visitors == old(st.visitors) && st.trace == old(st.trace)
    ensures FindVisitor(old(st.visitors), id).Some? ==>
              var k := FindVisitor(old(st.visitors), id).value;
              && r == Success(EditVisitor(old(st.visitors)[k], TextField(name), TextField(nickname), TextField(notes)))
              && st.visitors == old(st.visitors)[k := r.value]
              && st.trace == old(st.trace) + [WriteVisitors]
    ensures st.players == old(st.players) && st.settings == old(st.settings)
    ensures st.notes == old(st.notes) && st.activity == old(st.activity)
  {
    var found := FindVisitor(st.visitors, id);
    if found.None? {
      return Failure(NotFound);
    }
    var k := found.value;
    var v := EditVisitor(st.visitors[k], TextField(name), TextField(nickname), TextField(notes));
    st.SaveVisitors(st.visitors[k := v]);
    r := Success(v);
  }

  // ---------------------------------------------------------------------
  // Session payments

  /**
   * The payment guards, in order: the trimmed session date must be YYYY-MM-DD, then the
   * paid amount must be a finite number of at least 0.
   */
  function SessionPaymentCheck(sessionDate: Value, paid: Value): (r: Result<(string, int), HttpError>)
    ensures r.Success? <==> IsDateKey(TextField(sessionDate)) && ToNumber(paid).Some? && ToNumber(paid).value >= 0
    ensures r.Success? ==> r.value == (TextField(sessionDate), ToNumber(paid).value)
    ensures !IsDateKey(TextField(sessionDate)) ==> r == Failure(SessionDateError)
    ensures IsDateKey(TextField(sessionDate)) && r.Failure? ==> r == Failure(PaidError)
  {
    var date := TextField(sessionDate);
    var amount := ToNumber(paid);
    if !IsDateKey(date) then Failure(SessionDateError)
    else if amount.None? || amount.value < 0 then Failure(PaidError)
    else Success((date, amount.value))
  }

  /** `payments.sessions[date] = {expected: 1000, paid}`. */
  function RecordSession(v: Visitor, date: string, paid: int): (w: Visitor)
    ensures date in w.sessions && w.sessions[date] == PaymentRecord(Num(SessionFee), Num(paid))
    ensures forall d :: d != date ==> (d in w.sessions <==> d in v.sessions)
    ensures forall d :: d != date && d in v.sessions ==> w.sessions[d] == v.sessions[d]
    ensures w.(sessions := v.sessions) == v
  {
    v.(sessions := v.sessions[date := PaymentRecord(Num(SessionFee), Num(paid))])
  }

  /**
   * PATCH /visitors/:id/payments: 404 for an unknown id, then the payment guards; on success
   * the session's record is set and visitors.json written. Nothing is written on an error.
   */
  method PaySession(st: Store, id: string, sessionDate: Value, paid: Value) returns (r: Result<Visitor, HttpError>)
    modifies st
    ensures FindVisitor(old(st.visitors), id).None? ==> r == Failure(NotFound)
    ensures FindVisitor(old(st.visitors), id).Some? && SessionPaymentCheck(sessionDate, paid).Failure? ==>
              r == Failure(SessionPaymentCheck(sessionDate, paid).error)
    ensures r.Failure? ==> st.visitors == old(st.visitors) && st.trace == old(st.trace)
    ensures FindVisitor(old(st.visitors), id).Some? && SessionPaymentCheck(sessionDate, paid).Success? ==>
              var k := FindVisitor(old(st.visitors), id).value;
              var checked := SessionPaymentCheck(sessionDate, paid).value;
              && r == Success(RecordSession(old(st.visitors)[k], checked.0, checked.1))
              && st.visitors == old(st.visitors)[k := r.value]
              && st.trace == old(st.trace) + [WriteVisitors]
    ensures st.players == old(st.players) && st.settings == old(st.settings)
    ensures st.notes == old(st.notes) && st.activity == old(st.activity)
  {
    var found := FindVisitor(st.visitors, id);
    if found.None? {
      return Failure(NotFound);
    }
    var check := SessionPaymentCheck(sessionDate, paid);
    if check.Failure? {
      return Failure(check.error);
    }
    var k := found.value;
    var v := RecordSession(st.visitors[k], check.value.0, check.value.1);
    st.SaveVisitors(st.visitors[k := v]);
    r := Success(v);
  }

  // ---------------------------------------------------------------------
  // Cards

  /** The card guard: both counts finite and at least 0. */
  function CardsCheck(yellow: Value, red: Value): (r: Result<(int, int), HttpError>)
    ensures r.Success? <==> (ToNumber(yellow).Some? && ToNumber(red).Some?
                             && ToNumber(yellow).value >= 0 && ToNumber(red).value >= 0)
    ensures r.Success? ==> r.value == (ToNumber(yellow).value, ToNumber(red).value)
    ensures r.Failure? ==> r.error == CardsError
  {
    var y, rd := ToNumber(yellow), ToNumber(red);
    if y.None? || rd.None? || y.value < 0 || rd.value < 0 then Failure(CardsError)
    else Success((y.value, rd.value))
  }

  /**
   * `Math.max(0, Math.min(isFinite(paid) ? paid : 0, count))`: a paid counter kept between
   * 0 and the card count, a non-finite one read as 0.
   */
  function CapPaid(paid: Value, count: int): (r: int)
    ensures 0 <= r && (count >= 0 ==> r <= count)
    ensures !IsFinite(paid) ==> r == 0
    ensures IsFinite(paid) && 0 <= ToNumber(paid).value <= count ==> r == ToNumber(paid).value
    ensures IsFinite(paid) && ToNumber(paid).value > count ==> r == Max0(count)
    ensures IsFinite(paid) && ToNumber(paid).value < 0 ==> r == 0
  {
    var p := if IsFinite(paid) then ToNumber(paid).value else 0;
    Max0(Min(p, count))
  }

  /** The stored cards: `stats = {yellow, red}` and the capped `discipline`. */
  function SetCards(v: Visitor, yellow: int, red: int, yellowPaid: Value, redPaid: Value): (w: Visitor)
    ensures w.yellow == Num(yellow) && w.red == Num(red)
    ensures w.discipline == Discipline(Num(CapPaid(yellowPaid, yellow)), Num(CapPaid(redPaid, red)))
    ensures w.(yellow := v.yellow, red := v.red, discipline := v.discipline) == v
  {
    v.(yellow := Num(yellow), red := Num(red), discipline := Discipline(Num(CapPaid(yellowPaid, yellow)), Num(CapPaid(redPaid, red))))
  }

  /**
   * After the stats route the paid counters lie between 0 and the card counts, so what a
   * visitor owes is exactly the unpaid cards times the rates.
   */
  lemma StoredCardsAreCapped(v: Visitor, yellow: int, red: int, yellowPaid: Value, redPaid: Value, yellowFine: int, redFine: int)
    requires yellow >= 0 && red >= 0
    ensures var c := VisitorCards(SetCards(v, yellow, red, yellowPaid, redPaid));
      && c.yellow == yellow && c.red == red
      && 0 <= c.yellowPaid <= c.yellow && 0 <= c.redPaid <= c.red
      && FineOwed(c, yellowFine, redFine) == (c.yellow - c.yellowPaid) * yellowFine + (c.red - c.redPaid) * redFine
  {
    var w := SetCards(v, yellow, red, yellowPaid, redPaid);
    var yp, rp := CapPaid(yellowPaid, yellow), CapPaid(redPaid, red);
    assert w.yellow == Num(yellow) && w.red == Num(red) && w.discipline == Discipline(Num(yp), Num(rp));
    var c := VisitorCards(w);
    assert c == Cards(yellow, red, yp, rp);
    CappedCountersOwe(c, yellowFine, redFine);
  }

  /**
   * PATCH /visitors/:id/stats: 404 for an unknown id, then the card guard; on success the
   * counts and the capped counters are stored. `yellowPaid` and `redPaid` are the fields of
   * `req.body.discipline || {}` (Undefined when absent).
   */
  method SetVisitorStats(st: Store, id: string, yellow: Value, red: Value, yellowPaid: Value, redPaid: Value)
    returns (r: Result<Visitor, HttpError>)
    modifies st
    ensures FindVisitor(old(st.visitors), id).None? ==> r == Failure(NotFound)
    ensures FindVisitor(old(st.visitors), id).Some? && CardsCheck(yellow, red).Failure? ==> r == Failure(CardsError)
    ensures r.Failure? ==> st.visitors == old(st.visitors) && st.trace == old(st.trace)
    ensures FindVisitor(old(st.visitors), id).Some? && CardsCheck(yellow, red).Success? ==>
              var k := FindVisitor(old(st.visitors), id).value;
              var counts := CardsCheck(yellow, red).value;
              && r == Success(SetCards(old(st.visitors)[k], counts.0, counts.1, yellowPaid, redPaid))
              && st.visitors == old(st.visitors)[k := r.value]
              && st.trace == old(st.trace) + [WriteVisitors]
    ensures st.players == old(st.players) && st.settings == old(st.settings)
    ensures st.notes == old(st.notes) && st.activity == old(st.activity)
  {
    var found := FindVisitor(st.visitors, id);
    if found.None? {
      return Failure(NotFound);
    }
    var check := CardsCheck(yellow, red);
    if check.Failure? {
      return Failure(CardsError);
    }
    var k := found.value;
    var v := SetCards(st.visitors[k], check.value.0, check.value.1, yellowPaid, redPaid);
    st.SaveVisitors(st.visitors[k := v]);
    r := Success(v);
  }

  // ---------------------------------------------------------------------
  // Batch attendance

  function VisitorId(v: Visitor): string
  {
    v.id
  }

  /** `visitor.attendance[date] = Boolean(present)`. */
  function MarkVisitor(v: Visitor, date: string, present: bool): (w: Visitor)
    ensures date in w.attendance && w.attendance[date] == Bool(present)
    ensures forall d :: d != date ==> (d in w.attendance <==> d in v.attendance)
    ensures forall d :: d != date && d in v.attendance ==> w.attendance[d] == v.attendance[d]
    ensures w.(attendance := v.attendance) == v
  {
    v.(attendance := v.attendance[date := Bool(present)])
  }

  lemma MarkVisitorLaws()
    ensures MarkLaws(VisitorId, MarkVisitor)
  {
    forall v: Visitor, d, a, b ensures MarkVisitor(MarkVisitor(v, d, a), d, b) == MarkVisitor(v, d, b) {
      assert v.attendance[d := Bool(a)][d := Bool(b)] == v.attendance[d := Bool(b)];
    }
  }

  /**
   * For visitors: unknown ids are ignored, and the first visitor with an id that an update
   * names ends with `attendance[date]` from the last update naming it.
   */
  lemma VisitorsBatchLastWins(visitors: seq<Visitor>, date: string, updates: seq<AttendanceUpdate>)
    ensures var r := ApplyUpdates(visitors, date, updates, VisitorId, MarkVisitor);
      && |r| == |visitors|
      && forall k :: 0 <= k < |visitors| ==>
           r[k] == (if FindVisitor(visitors, visitors[k].id) == Some(k) && LastPresent(updates, visitors[k].id).Some?
                    then MarkVisitor(visitors[k], date, LastPresent(updates, visitors[k].id).value)
                    else visitors[k])
  {
    MarkVisitorLaws();
    ApplyUpdatesLastWins(visitors, date, updates, VisitorId, MarkVisitor);
    forall id | true ensures FindBy(visitors, VisitorId, id) == FindVisitor(visitors, id) {
      FindVisitorIsFindBy(visitors, id);
    }
  }

  lemma FindVisitorIsFindBy(visitors: seq<Visitor>, id: string)
    ensures FindBy(visitors, VisitorId, id) == FindVisitor(visitors, id)
  {
  }

  /**
   * PATCH /visitors/attendance/:date: the date must be YYYY-MM-DD, then a Saturday (the
   * calendar test is the parameter `isSaturday`), then `updates` must be an array; all
   * three are checked before visitors.json is read. Then the updates are applied in order.
   */
  method VisitorAttendance(st: Store, date: string, isSaturday: string -> bool, updates: Option<seq<AttendanceUpdate>>)
    returns (r: Result<bool, HttpError>)
    modifies st
    ensures !IsDateKey(date) ==> r == Failure(DateError)
    ensures IsDateKey(date) && !isSaturday(date) ==> r == Failure(SaturdayError)
    ensures IsDateKey(date) && isSaturday(date) && updates.None? ==> r == Failure(UpdatesError)
    ensures r.Failure? ==> st.visitors == old(st.visitors) && st.trace == old(st.trace)
    ensures IsDateKey(date) && isSaturday(date) && updates.Some? ==>
              && r == Success(true)
              && st.visitors == ApplyUpdates(old(st.visitors), date, updates.value, VisitorId, MarkVisitor)
              && st.trace == old(st.trace) + [WriteVisitors]
    ensures st.players == old(st.players) && st.settings == old(st.settings)
    ensures st.notes == old(st.notes) && st.activity == old(st.activity)
  {
    if !IsDateKey(date) {
      return Failure(DateError);
    }
    if !isSaturday(date) {
      return Failure(SaturdayError);
    }
    if updates.None? {
      return Failure(UpdatesError);
    }
    var us := updates.value;
    var visitors := st.visitors;
    for i := 0 to |us|
      invariant visitors == ApplyUpdates(old(st.visitors), date, us[..i], VisitorId, MarkVisitor)
    {
      assert us[..i + 1][..i] == us[..i];
      var found := FindBy(visitors, VisitorId, us[i].id);
      if found.Some? {
        var k := found.value;
        visitors := visitors[k := visitors[k].(attendance := visitors[k].attendance[date := Bool(Truthy(us[i].present))])];
      }
    }
    assert us[..|us|] == us;
    st.SaveVisitors(visitors);
    r := Success(true);
  }

  // ---------------------------------------------------------------------
  // Promotion

  /** `String(position || "FW").trim()`, accepted when it is one of the club's positions. */
  function PositionCheck(position: Value): (r: Result<string, HttpError>)
    ensures r.Success? <==> Trim(StringOf(Or(position, Str("FW")))) in AllowedPositions
    ensures r.Success? ==> r.value == Trim(StringOf(Or(position, Str("FW")))) && r.value in AllowedPositions
    ensures r.Failure? ==> r.error == PositionError
    ensures !Truthy(position) ==> r == Success("FW")
  {
    TrimNoop("FW");
    var p := Trim(StringOf(Or(position, Str("FW"))));
    if p in AllowedPositions then Success(p) else Failure(PositionError)
  }

  /** `s.padStart(2, "0")`. */
  function PadStart2(s: string): (r: string)
    ensures |s| >= 2 ==> r == s
    ensures |s| < 2 ==> |r| == 2 && r[2 - |s|..] == s
  {
    if |s| >= 2 then s else if |s| == 1 then "0" + s else "00"
  }

  /** The promoted member's year key: `String(settings.season || currentYear)`. */
  function PromotionYearKey(season: Value, currentYear: int): string
  {
    StringOf(Or(season, Num(currentYear)))
  }

  /**
   * The member made from a visitor: the visitor's name and nickname, the position, no
   * email, `memberSinceYear = Number(yearKey)`, one pending subscription year and month,
   * zero stats, no attendance, no payment records and no discipline object.
   */
  function PromotedPlayer(v: Visitor, position: string, id: string, now: string, season: Value,
                          currentYear: int, currentMonth: int): (p: Player)
    ensures var yearKey := PromotionYearKey(season, currentYear);
      && p.memberSinceYear == NumberValue(ToNumber(Str(yearKey)))
      && p.subscriptionYears == {yearKey}
      && p.subscriptionMonths == {yearKey + "-" + PadStart2(IntToString(currentMonth))}
    ensures p.id == id && p.name == v.name && p.nickname == v.nickname && p.position == position
    ensures p.email == "" && p.createdAt == now
    ensures p.stats == ZeroStats && p.attendance == map[] && p.yearly == map[] && p.monthly == map[]
    ensures p.discipline == NoDiscipline
  {
    var yearKey := PromotionYearKey(season, currentYear);
    var monthKey := yearKey + "-" + PadStart2(IntToString(currentMonth));
    Player(id, v.name, v.nickname, position, "", now, NumberValue(ToNumber(Str(yearKey))),
           {yearKey}, {monthKey}, map[], map[], map[], ZeroStats, NoDiscipline)
  }

  /** With a numeric season (not 0) the promoted member's memberSinceYear is that season. */
  lemma PromotedMemberSinceSeason(v: Visitor, position: string, id: string, now: string, season: int,
                                  currentYear: int, currentMonth: int)
    requires season != 0
    ensures PromotedPlayer(v, position, id, now, Num(season), currentYear, currentMonth).memberSinceYear == Num(season)
  {
    NumberStringRoundTrip(season);
  }

  /** The log line of a promotion: the name, with the nickname in brackets when there is one. */
  function PromotionMessage(v: Visitor): (m: string)
    ensures v.nickname == "" ==> m == "Visitor promoted to member: " + v.name
    ensures v.nickname != "" ==> m == "Visitor promoted to member: " + v.name + " (" + v.nickname + ")"
  {
    "Visitor promoted to member: " + (if v.nickname != "" then v.name + " (" + v.nickname + ")" else v.name)
  }

  /**
   * POST /visitors/:id/promote: 404 for an unknown id, then the position guard, both before
   * anything is written. On success the member is appended to db.json, the visitor is removed
   * from visitors.json, and one activity entry is logged, in that order.
   */
  method PromoteVisitor(st: Store, visitorId: string, position: Value, newId: string, now: string,
                        currentYear: int, currentMonth: int, activityId: string, timestamp: int)
    returns (r: Result<Player, HttpError>)
    modifies st
    ensures FindVisitor(old(st.visitors), visitorId).None? ==> r == Failure(NotFound)
    ensures FindVisitor(old(st.visitors), visitorId).Some? && PositionCheck(position).Failure? ==> r == Failure(PositionError)
    ensures r.Failure? ==>
              && st.visitors == old(st.visitors) && st.players == old(st.players)
              && st.activity == old(st.activity) && st.trace == old(st.trace)
    ensures FindVisitor(old(st.visitors), visitorId).Some? && PositionCheck(position).Success? ==>
              var k := FindVisitor(old(st.visitors), visitorId).value;
              var v := old(st.visitors)[k];
              && r == Success(PromotedPlayer(v, PositionCheck(position).value, newId, now, old(st.settings).season, currentYear, currentMonth))
              && st.players == old(st.players) + [r.value]
              && st.visitors == RemoveAt(old(st.visitors), k)
              && st.activity == old(st.activity) + [ActivityEntry(activityId, PromotionMessage(v), timestamp)]
              && st.trace == old(st.trace) + [WriteDb, WriteVisitors, WriteActivity]
    ensures st.settings == old(st.settings) && st.notes == old(st.notes)
  {
    var found := FindVisitor(st.visitors, visitorId);
    if found.None? {
      return Failure(NotFound);
    }
    var k := found.value;
    var v := st.visitors[k];
    var pos := PositionCheck(position);
    if pos.Failure? {
      return Failure(PositionError);
    }
    var p := PromotedPlayer(v, pos.value, newId, now, st.settings.season, currentYear, currentMonth);
    CommitPromotion(st, k, p, activityId, timestamp);
    r := Success(p);
  }

  /** The writes of a promotion: the member appended, the visitor removed, the log entry added. */
  method CommitPromotion(st: Store, k: nat, p: Player, activityId: string, timestamp: int)
    requires k < |st.visitors|
    modifies st
    ensures st.players == old(st.players) + [p]
    ensures st.visitors == RemoveAt(old(st.visitors), k)
    ensures st.activity == old(st.activity) + [ActivityEntry(activityId, PromotionMessage(old(st.visitors)[k]), timestamp)]
    ensures st.trace == old(st.trace) + [WriteDb, WriteVisitors, WriteActivity]
    ensures st.settings == old(st.settings) && st.notes == old(st.notes)
  {
    var v := st.visitors[k];
    st.SaveDb(st.players + [p]);
    st.SaveVisitors(RemoveAt(st.visitors, k));
    Activity.LogActivity(st, activityId, PromotionMessage(v), timestamp);
  }

  /** DELETE /visitors/:id: 404 for an unknown id, else exactly that visitor is removed. */
  method DeleteVisitor(st: Store, id: string) returns (r: Result<bool, HttpError>)
    modifies st
    ensures FindVisitor(old(st.visitors), id).None? ==>
              r == Failure(NotFound) && st.visitors == old(st.visitors) && st.trace == old(st.trace)
    ensures FindVisitor(old(st.visitors), id).Some? ==>
              && r == Success(true)
              && st.visitors == RemoveAt(old(st.visitors), FindVisitor(old(st.visitors), id).value)
              && st.trace == old(st.trace) + [WriteVisitors]
    ensures st.players == old(st.players) && st.settings == old(st.settings)
    ensures st.notes == old(st.notes) && st.activity == old(st.activity)
  {
    var found := FindVisitor(st.visitors, id);
    if found.None? {
      return Failure(NotFound);
    }
    st.SaveVisitors(RemoveAt(st.visitors, found.value));
    r := Success(true);
  }

  /** Deleting removes one visitor with the id and keeps the others in order. */
  lemma DeleteRemovesOne(visitors: seq<Visitor>, id: string)
    requires FindVisitor(visitors, id).Some?
    ensures var k := FindVisitor(visitors, id).value;
      var r := RemoveAt(visitors, k);
      && |r| == |visitors| - 1
      && multiset(r) + multiset{visitors[k]} == multiset(visitors)
      && visitors[k].id == id
  {
    RemoveAtMultiset(visitors, FindVisitor(visitors, id).value);
  }
}
