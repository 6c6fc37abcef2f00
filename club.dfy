/**
 * The club's persisted data: members ("players"), visitors, settings, notes and
 * the activity log, plus the in-memory store the server routes read and write.
 * JSON fields whose values the code coerces (`Number(x) || 0`, `Boolean(x)`) are
 * kept as `Js.Value`; fields the code only copies are strings.
 */
module Club {
  import opened Wrappers
  import opened Js

  /** A `{expected, paid}` payment record. */
  datatype PaymentRecord = PaymentRecord(expected: Value, paid: Value)

  /** `stats`: goals, assists and card counts. */
  datatype Stats = Stats(goals: Value, assists: Value, yellow: Value, red: Value)

  /** `discipline`: how many of the yellow and red cards have been paid for. */
  datatype Discipline = Discipline(yellowPaid: Value, redPaid: Value)

  const ZeroStats := Stats(Num(0), Num(0), Num(0), Num(0))
  const ZeroDiscipline := Discipline(Num(0), Num(0))
  /** A record with no `discipline` object: both counters read as undefined. */
  const NoDiscipline := Discipline(Undefined, Undefined)

  /**
   * A member. `createdAt` is "" when the record has none; `subscriptionYears` and
   * `subscriptionMonths` are the keys of `subscriptions.year` and `subscriptions.months`;
   * `yearly` and `monthly` are `payments.yearly` and `payments.monthly`.
   */
  datatype Player = Player(
    id: string,
    name: string,
    nickname: string,
    position: string,
    email: string,
    createdAt: string,
    memberSinceYear: Value,
    subscriptionYears: set<string>,
    subscriptionMonths: set<string>,
    yearly: map<string, PaymentRecord>,
    monthly: map<string, PaymentRecord>,
    attendance: map<string, Value>,
    stats: Stats,
    discipline: Discipline)

  /** A visitor: attendance and cards like a member, payments keyed by session date. */
  datatype Visitor = Visitor(
    id: string,
    name: string,
    nickname: string,
    notes: string,
    createdAt: string,
    attendance: map<string, Value>,
    sessions: map<string, PaymentRecord>,
    yellow: Value,
    red: Value,
    discipline: Discipline)

  /** One `{from, amount}` entry of the monthly fee schedule; `from` is a "YYYY-MM" key. */
  datatype FeeEntry = FeeEntry(from: string, amount: Value)

  datatype Fees = Fees(
    monthly: Value,
    monthlySchedule: seq<FeeEntry>,
    newMemberYearly: Value,
    renewalYearly: Value)

  datatype AttendanceConfig = AttendanceConfig(startDate: string, lockFuture: Value)

  /** `settings.discipline`: the fine per unpaid yellow and red card. */
  datatype FineRates = FineRates(yellowFine: Value, redFine: Value)

  datatype Settings = Settings(
    clubName: string,
    season: Value,
    currencySymbol: string,
    fees: Fees,
    attendance: AttendanceConfig,
    discipline: FineRates)

  /** A note; times are milliseconds since the epoch, `updatedAt` None on records that lack it. */
  datatype Note = Note(id: string, text: string, createdAt: int, updatedAt: Option<int>, pinned: bool, tag: string)

  datatype ActivityEntry = ActivityEntry(id: string, message: string, timestamp: int)

  /** One entry of a batch attendance request. */
  datatype AttendanceUpdate = AttendanceUpdate(id: string, present: Value)

  /** An HTTP error response: status code and body text. */
  datatype HttpError = HttpError(status: int, message: string)

  const NotFound := HttpError(404, "")

  /**
   * What the routes did to the files, in order. `Backup` is `backupAll()`, which copies
   * db.json and settings.json as they were at that moment.
   */
  datatype Event =
    | Backup(players: seq<Player>, settings: Settings)
    | WriteDb
    | WriteSettings
    | WriteVisitors
    | WriteNotes
    | WriteActivity

  /** The positions a member may play. */
  const AllowedPositions: set<string> :=
    {"FW", "CM", "CDM", "CAM", "LM", "RM", "CB", "RB", "LB", "LW", "RW", "GK", "DF", "MF"}

  /** `list.findIndex(item => item.id === id)`, None for -1. */
  function FindPlayer(players: seq<Player>, id: string): (r: Option<nat>)
    ensures r.Some? ==> r.value < |players| && players[r.value].id == id
                        && forall k :: 0 <= k < r.value ==> players[k].id != id
    ensures r.None? ==> forall k :: 0 <= k < |players| ==> players[k].id != id
  {
    if |players| == 0 then None
    else if players[0].id == id then Some(0)
    else match FindPlayer(players[1..], id)
      case None => None
      case Some(k) => Some(k + 1)
  }

  function FindVisitor(visitors: seq<Visitor>, id: string): (r: Option<nat>)
    ensures r.Some? ==> r.value < |visitors| && visitors[r.value].id == id
                        && forall k :: 0 <= k < r.value ==> visitors[k].id != id
    ensures r.None? ==> forall k :: 0 <= k < |visitors| ==> visitors[k].id != id
  {
    if |visitors| == 0 then None
    else if visitors[0].id == id then Some(0)
    else match FindVisitor(visitors[1..], id)
      case None => None
      case Some(k) => Some(k + 1)
  }

  function FindNote(notes: seq<Note>, id: string): (r: Option<nat>)
    ensures r.Some? ==> r.value < |notes| && notes[r.value].id == id
                        && forall k :: 0 <= k < r.value ==> notes[k].id != id
    ensures r.None? ==> forall k :: 0 <= k < |notes| ==> notes[k].id != id
  {
    if |notes| == 0 then None
    else if notes[0].id == id then Some(0)
    else match FindNote(notes[1..], id)
      case None => None
      case Some(k) => Some(k + 1)
  }

  /** `list.splice(i, 1)`. */
  function RemoveAt<T>(s: seq<T>, i: nat): (r: seq<T>)
    requires i < |s|
    ensures |r| == |s| - 1
    ensures forall k :: 0 <= k < i ==> r[k] == s[k]
    ensures forall k :: i <= k < |r| ==> r[k] == s[k + 1]
  {
    s[..i] + s[i + 1..]
  }

  /** Removing one element takes exactly that element out of the multiset. */
  lemma RemoveAtMultiset<T>(s: seq<T>, i: nat)
    requires i < |s|
    ensures multiset(RemoveAt(s, i)) + multiset{s[i]} == multiset(s)
  {
    assert s == s[..i] + [s[i]] + s[i + 1..];
  }

  /**
   * The JSON files under the server's data directory, held in memory: db.json (players),
   * settings.json, visitors.json, notes.json and activity.json, with the trace of
   * backups and writes the routes performed.
   */
  class Store {
    var players: seq<Player>
    var settings: Settings
    var visitors: seq<Visitor>
    var notes: seq<Note>
    var activity: seq<ActivityEntry>
    var trace: seq<Event>

    constructor (players: seq<Player>, settings: Settings, visitors: seq<Visitor>,
                 notes: seq<Note>, activity: seq<ActivityEntry>)
      ensures this.players == players && this.settings == settings && this.visitors == visitors
      ensures this.notes == notes && this.activity == activity && this.trace == []
    {
      this.players := players;
      this.settings := settings;
      this.visitors := visitors;
      this.notes := notes;
      this.activity := activity;
      this.trace := [];
    }

    /** `backupAll()`: copies db.json and settings.json as they are now. */
    method BackupAll()
      modifies this
      ensures trace == old(trace) + [Backup(players, settings)]
      ensures players == old(players) && settings == old(settings) && visitors == old(visitors)
      ensures notes == old(notes) && activity == old(activity)
    {
      trace := trace + [Backup(players, settings)];
    }

    /** `writeJson` of db.json: the members are now `ps`. */
    method SaveDb(ps: seq<Player>)
      modifies this
      ensures players == ps && trace == old(trace) + [WriteDb]
      ensures settings == old(settings) && visitors == old(visitors)
      ensures notes == old(notes) && activity == old(activity)
    {
      players := ps;
      trace := trace + [WriteDb];
    }

    /** `writeJson` of settings.json. */
    method SaveSettings(s: Settings)
      modifies this
      ensures settings == s && trace == old(trace) + [WriteSettings]
      ensures players == old(players) && visitors == old(visitors)
      ensures notes == old(notes) && activity == old(activity)
    {
      settings := s;
      trace := trace + [WriteSettings];
    }

    /** `writeJson` of visitors.json. */
    method SaveVisitors(vs: seq<Visitor>)
      modifies this
      ensures visitors == vs && trace == old(trace) + [WriteVisitors]
      ensures players == old(players) && settings == old(settings)
      ensures notes == old(notes) && activity == old(activity)
    {
      visitors := vs;
      trace := trace + [WriteVisitors];
    }

    /** `writeJson` of notes.json. */
    method SaveNotes(ns: seq<Note>)
      modifies this
      ensures notes == ns && trace == old(trace) + [WriteNotes]
      ensures players == old(players) && settings == old(settings)
      ensures visitors == old(visitors) && activity == old(activity)
    {
      notes := ns;
      trace := trace + [WriteNotes];
    }

    /** `writeJson` of activity.json. */
    method SaveActivity(es: seq<ActivityEntry>)
      modifies this
      ensures activity == es && trace == old(trace) + [WriteActivity]
      ensures players == old(players) && settings == old(settings)
      ensures visitors == old(visitors) && notes == old(notes)
    {
      activity := es;
      trace := trace + [WriteActivity];
    }
  }
}
