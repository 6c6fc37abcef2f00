/**
 * Batch attendance (server/routes/attendance.js, and the visitors' copy in
 * server/routes/visitors.js): for each `{id, present}` update, the first record with
 * that id gets `attendance[date] = Boolean(present)`. The fold over the updates is
 * stated once for any kind of record, with its id and its "mark" operation.
 */
module Attendance {
  import opened Wrappers
  import opened Js
  import opened Text
  import opened Club

  /** `items.find(item => item.id === id)`, as an index. */
  function FindBy<T>(items: seq<T>, idOf: T -> string, id: string): (r: Option<nat>)
    ensures r.Some? ==> r.value < |items| && idOf(items[r.value]) == id
                        && forall k :: 0 <= k < r.value ==> idOf(items[k]) != id
    ensures r.None? ==> forall k :: 0 <= k < |items| ==> idOf(items[k]) != id
  {
    if |items| == 0 then None
    else if idOf(items[0]) == id then Some(0)
    else match FindBy(items[1..], idOf, id)
      case None => None
      case Some(k) => Some(k + 1)
  }

  /** Lists with the same ids in the same places find the same index. */
  lemma FindBySameIds<T>(xs: seq<T>, ys: seq<T>, idOf: T -> string, id: string)
    requires |xs| == |ys| && forall k :: 0 <= k < |xs| ==> idOf(xs[k]) == idOf(ys[k])
    ensures FindBy(xs, idOf, id) == FindBy(ys, idOf, id)
  {
  }

  /** One update: unknown ids are ignored, else the first record with the id is marked. */
  function ApplyUpdate<T>(items: seq<T>, date: string, u: AttendanceUpdate,
                          idOf: T -> string, mark: (T, string, bool) -> T): seq<T>
  {
    match FindBy(items, idOf, u.id)
    case None => items
    case Some(k) => items[k := mark(items[k], date, Truthy(u.present))]
  }

  /** `updates.forEach(...)`: the updates in order. */
  function ApplyUpdates<T>(items: seq<T>, date: string, updates: seq<AttendanceUpdate>,
                           idOf: T -> string, mark: (T, string, bool) -> T): seq<T>
  {
    if updates == [] then items
    else
      var n := |updates| - 1;
      ApplyUpdate(ApplyUpdates(items, date, updates[..n], idOf, mark), date, updates[n], idOf, mark)
  }

  /** The index of the last update for `id`, if there is one. */
  function LastUpdateFor(updates: seq<AttendanceUpdate>, id: string): (r: Option<nat>)
    ensures r.None? ==> forall i :: 0 <= i < |updates| ==> updates[i].id != id
    ensures r.Some? ==> r.value < |updates| && updates[r.value].id == id
                        && forall j :: r.value < j < |updates| ==> updates[j].id != id
  {
    if updates == [] then None
    else if updates[|updates| - 1].id == id then Some(|updates| - 1)
    else LastUpdateFor(updates[..|updates| - 1], id)
  }

  /** `Boolean(present)` of the last update for `id`, if there is one. */
  function LastPresent(updates: seq<AttendanceUpdate>, id: string): Option<bool>
  {
    match LastUpdateFor(updates, id)
    case None => None
    case Some(i) => Some(Truthy(updates[i].present))
  }

  /** What a "mark" operation must satisfy: it keeps the id and the last mark for a date wins. */
  ghost predicate MarkLaws<T(!new)>(idOf: T -> string, mark: (T, string, bool) -> T)
  {
    && (forall t, d, b :: idOf(mark(t, d, b)) == idOf(t))
    && (forall t, d, a, b :: mark(mark(t, d, a), d, b) == mark(t, d, b))
  }

  /**
   * The batch as a whole: the record list keeps its length and its ids, and the record at
   * index k is marked with the LAST update for its id when it is the first record with
   * that id, and is unchanged otherwise (unknown ids and duplicates are ignored).
   */
  lemma {:induction false} ApplyUpdatesLastWins<T(!new)>(items: seq<T>, date: string, updates: seq<AttendanceUpdate>,
                                                         idOf: T -> string, mark: (T, string, bool) -> T)
    requires MarkLaws(idOf, mark)
    ensures var r := ApplyUpdates(items, date, updates, idOf, mark);
      && |r| == |items|
      && (forall k :: 0 <= k < |items| ==> idOf(r[k]) == idOf(items[k]))
      && forall k :: 0 <= k < |items| ==>
           r[k] == (if FindBy(items, idOf, idOf(items[k])) == Some(k) && LastPresent(updates, idOf(items[k])).Some?
                    then mark(items[k], date, LastPresent(updates, idOf(items[k])).value)
                    else items[k])
  {
    if updates != [] {
      var n := |updates| - 1;
      var u := updates[n];
      ApplyUpdatesLastWins(items, date, updates[..n], idOf, mark);
      var prev := ApplyUpdates(items, date, updates[..n], idOf, mark);
      FindBySameIds(prev, items, idOf, u.id);
      var r := ApplyUpdate(prev, date, u, idOf, mark);
      forall k | 0 <= k < |items|
        ensures r[k] == (if FindBy(items, idOf, idOf(items[k])) == Some(k) && LastPresent(updates, idOf(items[k])).Some?
                         then mark(items[k], date, LastPresent(updates, idOf(items[k])).value)
                         else items[k])
      {
        var id := idOf(items[k]);
        if u.id == id {
          assert LastPresent(updates, id) == Some(Truthy(u.present));
        } else {
          assert LastPresent(updates, id) == LastPresent(updates[..n], id);
          match FindBy(prev, idOf, u.id)
          case None =>
          case Some(j) => assert j != k;
        }
      }
    }
  }

  // ---------------------------------------------------------------------
  // Members

  function PlayerId(p: Player): string
  {
    p.id
  }

  /** `player.attendance[date] = Boolean(present)`. */
  function MarkPlayer(p: Player, date: string, present: bool): (q: Player)
    ensures date in q.attendance && q.attendance[date] == Bool(present)
    ensures forall d :: d != date ==> (d in q.attendance <==> d in p.attendance)
    ensures forall d :: d != date && d in p.attendance ==> q.attendance[d] == p.attendance[d]
    ensures q.(attendance := p.attendance) == p
  {
    p.(attendance := p.attendance[date := Bool(present)])
  }

  lemma MarkPlayerLaws()
    ensures MarkLaws(PlayerId, MarkPlayer)
  {
    forall p: Player, d, a, b ensures MarkPlayer(MarkPlayer(p, d, a), d, b) == MarkPlayer(p, d, b) {
      assert p.attendance[d := Bool(a)][d := Bool(b)] == p.attendance[d := Bool(b)];
    }
  }

  /**
   * For members: after the batch, the first member with an id that some update names has
   * `attendance[date]` equal to `Boolean(present)` of the last update naming it, and every
   * other member, and every other date, is as it was.
   */
  lemma PlayersBatchLastWins(players: seq<Player>, date: string, updates: seq<AttendanceUpdate>)
    ensures var r := ApplyUpdates(players, date, updates, PlayerId, MarkPlayer);
      && |r| == |players|
      && forall k :: 0 <= k < |players| ==>
           r[k] == (if FindPlayer(players, players[k].id) == Some(k) && LastPresent(updates, players[k].id).Some?
                    then MarkPlayer(players[k], date, LastPresent(updates, players[k].id).value)
                    else players[k])
  {
    MarkPlayerLaws();
    ApplyUpdatesLastWins(players, date, updates, PlayerId, MarkPlayer);
    forall id | true ensures FindBy(players, PlayerId, id) == FindPlayer(players, id) {
      FindPlayerIsFindBy(players, id);
    }
  }

  lemma FindPlayerIsFindBy(players: seq<Player>, id: string)
    ensures FindBy(players, PlayerId, id) == FindPlayer(players, id)
  {
  }

  /** Two updates for the same member on the same date: only the second one counts. */
  lemma SecondUpdateWins(players: seq<Player>, date: string, id: string, first: Value, second: Value)
    ensures ApplyUpdates(players, date, [AttendanceUpdate(id, first), AttendanceUpdate(id, second)], PlayerId, MarkPlayer)
         == ApplyUpdates(players, date, [AttendanceUpdate(id, second)], PlayerId, MarkPlayer)
  {
    var u1, u2 := AttendanceUpdate(id, first), AttendanceUpdate(id, second);
    assert [u1, u2][..1] == [u1];
    assert [u2][..0] == [];
    assert [u1][..0] == [];
    MarkPlayerLaws();
    match FindBy(players, PlayerId, id)
    case None =>
    case Some(k) =>
      var once := players[k := MarkPlayer(players[k], date, Truthy(first))];
      FindBySameIds(once, players, PlayerId, id);
  }

  const DateError := HttpError(400, "Date must be in YYYY-MM-DD format.")
  const UpdatesError := HttpError(400, "Updates are required.")

  /**
   * PATCH /attendance/:date. A date that is not YYYY-MM-DD, and then an `updates` that is
   * not an array (None), are rejected before db.json is read or written; otherwise the
   * updates are applied in order and db.json is written.
   */
  method PatchAttendance(st: Store, date: string, updates: Option<seq<AttendanceUpdate>>) returns (r: Result<bool, HttpError>)
    modifies st
    ensures !IsDateKey(date) ==> r == Failure(DateError) && st.trace == old(st.trace) && st.players == old(st.players)
    ensures IsDateKey(date) && updates.None? ==>
              r == Failure(UpdatesError) && st.trace == old(st.trace) && st.players == old(st.players)
    ensures IsDateKey(date) && updates.Some? ==>
              r == Success(true)
              && st.players == ApplyUpdates(old(st.players), date, updates.value, PlayerId, MarkPlayer)
              && st.trace == old(st.trace) + [WriteDb]
    ensures st.settings == old(st.settings) && st.visitors == old(st.visitors)
    ensures st.notes == old(st.notes) && st.activity == old(st.activity)
  {
    if !IsDateKey(date) {
      return Failure(DateError);
    }
    if updates.None? {
      return Failure(UpdatesError);
    }
    var us := updates.value;
    var players := st.players;
    for i := 0 to |us|
      invariant players == ApplyUpdates(old(st.players), date, us[..i], PlayerId, MarkPlayer)
    {
      assert us[..i + 1][..i] == us[..i];
      var found := FindBy(players, PlayerId, us[i].id);
      if found.Some? {
        var k := found.value;
        players := players[k := players[k].(attendance := players[k].attendance[date := Bool(Truthy(us[i].present))])];
      }
    }
    assert us[..|us|] == us;
    st.SaveDb(players);
    r := Success(true);
  }
}
