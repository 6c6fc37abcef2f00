/**
 * The CSV import routes (server/routes/import.js): new members from a players CSV, with
 * row validation and de-duplication on the normalised (name, nickname) pair, and payment
 * records from a payments CSV.
 */
module CsvImport {
  import opened Wrappers
  import opened Js
  import opened Text
  import opened Club
  import opened FeeCopies
  import Csv

  /** getCsvBody: a text body as it is, else the `csv` text of a JSON body, else "". */
  function CsvBody(body: Value, bodyCsv: Value): (r: string)
    ensures body.Str? ==> r == body.s
    ensures !body.Str? && Truthy(body) && bodyCsv.Str? ==> r == bodyCsv.s
    ensures !body.Str? && !(Truthy(body) && bodyCsv.Str?) ==> r == ""
  {
    if body.Str? then body.s else if Truthy(body) && bodyCsv.Str? then bodyCsv.s else ""
  }

  /** `String(row.key || "")`: the cell, or "" when the column is absent. */
  function FieldOf(row: map<string, string>, key: string): string
  {
    if key in row then row[key] else ""
  }

  /** `Number(row.key)`: an absent column is undefined, which is not a number. */
  function NumberField(row: map<string, string>, key: string): Option<int>
  {
    if key in row then ParseInt(row[key]) else None
  }

  /** The components of normalizePair: trimmed and lower-cased. */
  function Normalize(s: string): string
  {
    ToLower(Trim(s))
  }

  /** The de-duplication key `${name}::${nickname}` of normalizePair's result. */
  function Key(name: string, nickname: string): string
  {
    Normalize(name) + "::" + Normalize(nickname)
  }

  lemma NormalizeFacts(s: string)
    ensures Normalize(s) == Normalize(Trim(s))
    ensures |Normalize(s)| == |Trim(s)|
    ensures Normalize(s) == "" <==> Trim(s) == ""
  {
    TrimIdempotent(s);
  }

  /** Trimming the cells first, as the import does, does not change the key. */
  lemma KeyIgnoresCaseAndSpace(name: string, nickname: string)
    ensures Key(Trim(name), Trim(nickname)) == Key(name, nickname)
  {
    TrimIdempotent(name);
    TrimIdempotent(nickname);
  }

  /**
   * The joined key can collide: the member "a::b" with nickname "c" and the member "a" with
   * nickname "b::c" have different pairs but the same key, so the second is skipped.
   */
  lemma KeyCollision()
    ensures Key("a::b", "c") == Key("a", "b::c")
    ensures Normalize("a::b") != Normalize("a")
  {
    TrimNoop("a::b");
    TrimNoop("a");
    TrimNoop("c");
    TrimNoop("b::c");
    assert ToLower("a::b") == "a::b";
    assert ToLower("a") == "a";
    assert ToLower("c") == "c";
    assert ToLower("b::c") == "b::c";
  }

  /** normalizePair of a member's name and nickname, with the normalisation `norm` (the routes use Normalize). */
  function PairOf(p: Player, norm: string -> string): (string, string)
  {
    (norm(p.name), norm(p.nickname))
  }

  /**
   * The members import is stated for any key function on (name, nickname); the route uses
   * `Key`. Keeping the key abstract keeps the proofs about the list and the key set apart
   * from the text processing inside the key.
   */
  function PlayerKey(p: Player, key: (string, string) -> string): string
  {
    key(p.name, p.nickname)
  }

  /** `new Set(players.map(...))`: the keys of a member list. */
  function KeysOf(players: seq<Player>, key: (string, string) -> string): (r: set<string>)
    ensures forall k :: 0 <= k < |players| ==> PlayerKey(players[k], key) in r
    ensures forall x :: x in r ==> exists k :: 0 <= k < |players| && PlayerKey(players[k], key) == x
  {
    set k | 0 <= k < |players| :: PlayerKey(players[k], key)
  }

  lemma KeysOfSnoc(players: seq<Player>, p: Player, key: (string, string) -> string)
    ensures KeysOf(players + [p], key) == KeysOf(players, key) + {PlayerKey(p, key)}
  {
    var ps := players + [p];
    forall x | x in KeysOf(ps, key) ensures x in KeysOf(players, key) + {PlayerKey(p, key)} {
      var k :| 0 <= k < |ps| && PlayerKey(ps[k], key) == x;
      if k < |players| { assert ps[k] == players[k]; }
    }
    assert ps[|players|] == p;
    forall x | x in KeysOf(players, key) ensures x in KeysOf(ps, key) {
      var k :| 0 <= k < |players| && PlayerKey(players[k], key) == x;
      assert ps[k] == players[k];
    }
  }

  // ---------------------------------------------------------------------
  // Importing members

  /** The cells of a players row the import reads: trimmed texts, and `Number(row.memberSinceYear)`. */
  datatype PlayerRow = PlayerRow(name: string, nickname: string, position: string, memberSinceYear: Option<int>)

  function PlayerRowOf(row: map<string, string>): (c: PlayerRow)
    ensures Trimmed(c.name) && Trimmed(c.nickname) && Trimmed(c.position)
  {
    TrimIdempotent(FieldOf(row, "name"));
    TrimIdempotent(FieldOf(row, "nickname"));
    TrimIdempotent(FieldOf(row, "position"));
    PlayerRow(Trim(FieldOf(row, "name")), Trim(FieldOf(row, "nickname")), Trim(FieldOf(row, "position")),
              NumberField(row, "memberSinceYear"))
  }

  predicate Trimmed(s: string)
  {
    Trim(s) == s
  }

  /** The running state of the players import: the list, the keys seen and the two counters. */
  datatype ImportState = ImportState(players: seq<Player>, existing: set<string>, created: nat, skipped: nat)

  /** A row is accepted when its name and position are set and the position is one of the club's. */
  predicate ValidPlayerRow(c: PlayerRow)
  {
    c.name != "" && c.position != "" && c.position in AllowedPositions
  }

  /** The member created from an accepted row: its memberSinceYear is the row's when it is a number, else the season. */
  function NewPlayer(c: PlayerRow, id: string, season: int): (p: Player)
    ensures p.memberSinceYear == Num(if c.memberSinceYear.Some? then c.memberSinceYear.value else season)
    ensures p.name == c.name && p.nickname == c.nickname && p.position == c.position
    ensures p.yearly == map[] && p.monthly == map[] && p.attendance == map[]
    ensures p.stats == ZeroStats && p.discipline == ZeroDiscipline
  {
    var year := if c.memberSinceYear.Some? then c.memberSinceYear.value else season;
    Player(id, c.name, c.nickname, c.position, "", "", Num(year), {}, {}, map[], map[], map[], ZeroStats, ZeroDiscipline)
  }

  /** One row of the forEach: skip an invalid row or a known key, else add the member and its key. */
  function ImportStep(st: ImportState, c: PlayerRow, id: string, season: int, key: (string, string) -> string): ImportState
  {
    if !ValidPlayerRow(c) then st.(skipped := st.skipped + 1)
    else if key(c.name, c.nickname) in st.existing then st.(skipped := st.skipped + 1)
    else ImportState(st.players + [NewPlayer(c, id, season)], st.existing + {key(c.name, c.nickname)}, st.created + 1, st.skipped)
  }

  /** The state after the given rows, the k-th row's new member taking the id `idOf(k)`. */
  function ImportRows(players: seq<Player>, rows: seq<PlayerRow>, idOf: nat -> string, season: int, key: (string, string) -> string): ImportState
  {
    if rows == [] then ImportState(players, KeysOf(players, key), 0, 0)
    else
      var n := |rows| - 1;
      ImportStep(ImportRows(players, rows[..n], idOf, season, key), rows[n], idOf(n), season, key)
  }

  /**
   * Every row is either created or skipped; the member list keeps the members it had and
   * grows by exactly the members created; the key set is exactly the keys of the list.
   */
  lemma {:induction false} ImportCounts(players: seq<Player>, rows: seq<PlayerRow>, idOf: nat -> string, season: int, key: (string, string) -> string)
    ensures var st := ImportRows(players, rows, idOf, season, key);
      && st.created + st.skipped == |rows|
      && |st.players| == |players| + st.created
      && st.players[..|players|] == players
      && st.existing == KeysOf(st.players, key)
  {
    if rows != [] {
      var n := |rows| - 1;
      ImportCounts(players, rows[..n], idOf, season, key);
      var prev := ImportRows(players, rows[..n], idOf, season, key);
      var c := rows[n];
      if ValidPlayerRow(c) && key(c.name, c.nickname) !in prev.existing {
        var p := NewPlayer(c, idOf(n), season);
        KeysOfSnoc(prev.players, p, key);
        assert (prev.players + [p])[..|players|] == prev.players[..|players|];
      }
    }
  }

  /**
   * Nothing is imported twice: every member the import adds has a key that no member before
   * it in the list has, existing or imported, and it has a name and an allowed position.
   */
  lemma {:induction false} ImportedAreNewAndValid(players: seq<Player>, rows: seq<PlayerRow>, idOf: nat -> string, season: int, key: (string, string) -> string)
    ensures var ps := ImportRows(players, rows, idOf, season, key).players;
      forall k :: |players| <= k < |ps| ==>
        && ps[k].name != "" && ps[k].position in AllowedPositions
        && forall j :: 0 <= j < k ==> PlayerKey(ps[j], key) != PlayerKey(ps[k], key)
  {
    if rows != [] {
      var n := |rows| - 1;
      ImportedAreNewAndValid(players, rows[..n], idOf, season, key);
      ImportCounts(players, rows[..n], idOf, season, key);
      var prev := ImportRows(players, rows[..n], idOf, season, key);
      var ps := ImportRows(players, rows, idOf, season, key).players;
      var c := rows[n];
      if ValidPlayerRow(c) && key(c.name, c.nickname) !in prev.existing {
        var p := NewPlayer(c, idOf(n), season);
        assert ps == prev.players + [p];
        assert PlayerKey(p, key) == key(c.name, c.nickname);
        forall k | |players| <= k < |ps|
          ensures ps[k].name != "" && ps[k].position in AllowedPositions
          ensures forall j :: 0 <= j < k ==> PlayerKey(ps[j], key) != PlayerKey(ps[k], key)
        {
          if k < |prev.players| {
            assert ps[k] == prev.players[k];
            forall j | 0 <= j < k ensures PlayerKey(ps[j], key) != PlayerKey(ps[k], key) { assert ps[j] == prev.players[j]; }
          } else {
            assert ps[k] == p;
            forall j | 0 <= j < k ensures PlayerKey(ps[j], key) != PlayerKey(ps[k], key) {
              assert ps[j] == prev.players[j];
            }
          }
        }
      }
    }
  }

  /** A row whose key is already known is skipped, and nothing else about the state changes. */
  lemma DuplicateRowIsSkipped(st: ImportState, c: PlayerRow, id: string, season: int, key: (string, string) -> string)
    requires key(c.name, c.nickname) in st.existing
    ensures ImportStep(st, c, id, season, key) == st.(skipped := st.skipped + 1)
  {
  }

  /** `rows.map(...)` of the cells each row contributes. */
  function PlayerRows(rows: seq<map<string, string>>): (r: seq<PlayerRow>)
    ensures |r| == |rows| && forall i :: 0 <= i < |rows| ==> r[i] == PlayerRowOf(rows[i])
  {
    seq(|rows|, i requires 0 <= i < |rows| => PlayerRowOf(rows[i]))
  }

  /** The forEach over the rows' cells, with the key set and the two counters; the route passes `Key`. */
  method ImportLoop(players: seq<Player>, cells: seq<PlayerRow>, idOf: nat -> string, season: int, keyOf: (string, string) -> string)
    returns (result: seq<Player>, created: nat, skipped: nat)
    ensures ImportRows(players, cells, idOf, season, keyOf) == ImportState(result, KeysOf(result, keyOf), created, skipped)
  {
    var existing := KeysOf(players, keyOf);
    result, created, skipped := players, 0, 0;
    for i := 0 to |cells|
      invariant ImportRows(players, cells[..i], idOf, season, keyOf) == ImportState(result, existing, created, skipped)
    {
      assert cells[..i + 1][..i] == cells[..i];
      var c := cells[i];
      if c.name == "" || c.position == "" || c.position !in AllowedPositions {
        skipped := skipped + 1;
      } else {
        var key := keyOf(c.name, c.nickname);
        if key in existing {
          skipped := skipped + 1;
        } else {
          result := result + [NewPlayer(c, idOf(i), season)];
          existing := existing + {key};
          created := created + 1;
        }
      }
    }
    assert cells[..|cells|] == cells;
    ImportCounts(players, cells, idOf, season, keyOf);
  }

  /**
   * POST /import/players: parses the CSV (a parse error is returned before anything is
   * read or written), imports the rows with the season `Number(season) || currentYear`,
   * then backs up and writes db.json.
   */
  method ImportPlayers(st: Store, csvText: string, currentYear: int, idOf: nat -> string)
    returns (r: Result<(nat, nat), string>)
    modifies st
    ensures var parsed := Csv.ParseCsv(Str(csvText));
      && (parsed.Failure? ==> r == Failure(parsed.error) && st.players == old(st.players) && st.trace == old(st.trace))
      && (parsed.Success? ==>
            var res := ImportRows(old(st.players), PlayerRows(parsed.value), idOf, NumberOr(old(st.settings.season), currentYear), Key);
            && r == Success((res.created, res.skipped))
            && st.players == res.players
            && st.trace == old(st.trace) + [Backup(old(st.players), old(st.settings)), WriteDb])
    ensures st.settings == old(st.settings) && st.visitors == old(st.visitors)
    ensures st.notes == old(st.notes) && st.activity == old(st.activity)
  {
    var parsed := Csv.ParseCSV(Str(csvText));
    if parsed.Failure? {
      return Failure(parsed.error);
    }
    var season := NumberOr(st.settings.season, currentYear);
    var players, created, skipped := ImportLoop(st.players, PlayerRows(parsed.value), idOf, season, Key);
    st.BackupAll();
    st.SaveDb(players);
    r := Success((created, skipped));
  }

  // ---------------------------------------------------------------------
  // Importing payments

  /** An entry of the `notFound` list. */
  datatype Unmatched = Unmatched(name: string, nickname: string, yearKey: string, monthKey: string)

  datatype PaymentsState = PaymentsState(players: seq<Player>, updated: nat, notFound: seq<Unmatched>)

  /** The cells of a payments row the import reads: trimmed texts, and `Number(...)` of the two amounts. */
  datatype PaymentRow = PaymentRow(name: string, nickname: string, yearKey: string, monthKey: string,
                                   yearlyPaid: Option<int>, monthlyPaid: Option<int>)

  function PaymentRowOf(row: map<string, string>): PaymentRow
  {
    PaymentRow(Trim(FieldOf(row, "name")), Trim(FieldOf(row, "nickname")),
               Trim(FieldOf(row, "yearKey")), Trim(FieldOf(row, "monthKey")),
               NumberField(row, "yearlyPaid"), NumberField(row, "monthlyPaid"))
  }

  function PaymentRows(rows: seq<map<string, string>>): (r: seq<PaymentRow>)
    ensures |r| == |rows| && forall i :: 0 <= i < |rows| ==> r[i] == PaymentRowOf(rows[i])
  {
    seq(|rows|, i requires 0 <= i < |rows| => PaymentRowOf(rows[i]))
  }

  /** A payment row is used when both keys have the right shape and both amounts are numbers of at least 0. */
  predicate ValidPaymentRow(c: PaymentRow)
  {
    && IsYearKey(c.yearKey) && IsMonthKey(c.monthKey)
    && c.yearlyPaid.Some? && c.yearlyPaid.value >= 0 && c.monthlyPaid.Some? && c.monthlyPaid.value >= 0
  }

  /** The first index holding `x`. */
  function IndexOf<T(==)>(s: seq<T>, x: T): (r: Option<nat>)
    ensures r.Some? ==> r.value < |s| && s[r.value] == x && forall k :: 0 <= k < r.value ==> s[k] != x
    ensures r.None? ==> forall k :: 0 <= k < |s| ==> s[k] != x
  {
    if s == [] then None
    else if s[0] == x then Some(0)
    else match IndexOf(s[1..], x)
      case None => None
      case Some(k) => Some(k + 1)
  }

  function PairsOf(players: seq<Player>, norm: string -> string): (r: seq<(string, string)>)
    ensures |r| == |players| && forall k :: 0 <= k < |players| ==> r[k] == PairOf(players[k], norm)
  {
    seq(|players|, k requires 0 <= k < |players| => PairOf(players[k], norm))
  }

  /**
   * `players.find(...)`: the first member whose normalised name and nickname are both the
   * row's. The two parts are compared separately, so the key collision of the players
   * import cannot happen here.
   */
  function FindPair(players: seq<Player>, name: string, nickname: string, norm: string -> string): (r: Option<nat>)
    ensures r.Some? ==> r.value < |players| && PairOf(players[r.value], norm) == (norm(name), norm(nickname))
                        && forall k :: 0 <= k < r.value ==> PairOf(players[k], norm) != (norm(name), norm(nickname))
    ensures r.None? ==> forall k :: 0 <= k < |players| ==> PairOf(players[k], norm) != (norm(name), norm(nickname))
  {
    IndexOf(PairsOf(players, norm), (norm(name), norm(nickname)))
  }

  /**
   * The yearly fee the import records: `Number(memberSinceYear) || Number(yearKey)` is
   * compared with the year, so a member without a stored year pays the new-member fee.
   */
  function ImportYearlyExpected(fees: Fees, p: Player, yearKey: string): (r: Value)
  {
    var year := ParseInt(yearKey);
    var since := NumberOr(p.memberSinceYear, if year.Some? then year.value else 0);
    if year == Some(since) then fees.newMemberYearly else fees.renewalYearly
  }

  /** The member after a payment row: both records overwritten, everything else kept. */
  function WritePayment(p: Player, settings: Settings, c: PaymentRow): Player
    requires ValidPaymentRow(c)
  {
    p.(yearly := p.yearly[c.yearKey := PaymentRecord(ImportYearlyExpected(settings.fees, p, c.yearKey), Num(c.yearlyPaid.value))],
       monthly := p.monthly[c.monthKey := PaymentRecord(CopiedMonthlyExpected(settings.fees.monthlySchedule, c.monthKey),
                                                       Num(c.monthlyPaid.value))])
  }

  /** One row of the forEach: dropped, not found, or written to the first matching member. */
  function PaymentsStep(st: PaymentsState, settings: Settings, c: PaymentRow, norm: string -> string): PaymentsState
  {
    if !ValidPaymentRow(c) then st
    else match FindPair(st.players, c.name, c.nickname, norm)
      case None => st.(notFound := st.notFound + [Unmatched(c.name, c.nickname, c.yearKey, c.monthKey)])
      case Some(k) => st.(players := st.players[k := WritePayment(st.players[k], settings, c)], updated := st.updated + 1)
  }

  function ApplyPayments(players: seq<Player>, settings: Settings, rows: seq<PaymentRow>, norm: string -> string): PaymentsState
  {
    if rows == [] then PaymentsState(players, 0, [])
    else PaymentsStep(ApplyPayments(players, settings, rows[..|rows| - 1], norm), settings, rows[|rows| - 1], norm)
  }

  /** How many rows are dropped for a bad key or amount. */
  function Dropped(rows: seq<PaymentRow>): nat
  {
    if rows == [] then 0
    else Dropped(rows[..|rows| - 1]) + if ValidPaymentRow(rows[|rows| - 1]) then 0 else 1
  }

  /**
   * The payments import keeps every member in place and changes only payment records:
   * each row is dropped, reported as not found or counted as updated, and nothing but
   * `payments.yearly` and `payments.monthly` of any member changes.
   */
  lemma {:induction false} PaymentsCounts(players: seq<Player>, settings: Settings, rows: seq<PaymentRow>, norm: string -> string)
    ensures var st := ApplyPayments(players, settings, rows, norm);
      && st.updated + |st.notFound| + Dropped(rows) == |rows|
      && |st.players| == |players|
      && forall k :: 0 <= k < |players| ==>
           st.players[k].(yearly := players[k].yearly, monthly := players[k].monthly) == players[k]
  {
    if rows != [] {
      PaymentsCounts(players, settings, rows[..|rows| - 1], norm);
    }
  }

  /**
   * A valid row that matches a member writes both records of the first such member:
   * `payments.yearly[yearKey]` with the paid amount and the recorded yearly fee, and
   * `payments.monthly[monthKey]` with the paid amount and the copied schedule's fee; the
   * other members are untouched.
   */
  lemma MatchedRowWritesBothRecords(st: PaymentsState, settings: Settings, c: PaymentRow, norm: string -> string)
    requires ValidPaymentRow(c)
    requires FindPair(st.players, c.name, c.nickname, norm).Some?
    ensures var k := FindPair(st.players, c.name, c.nickname, norm).value;
      var after := PaymentsStep(st, settings, c, norm);
      && after.updated == st.updated + 1 && after.notFound == st.notFound
      && after.players[k].yearly[c.yearKey] ==
           PaymentRecord(ImportYearlyExpected(settings.fees, st.players[k], c.yearKey), Num(c.yearlyPaid.value))
      && after.players[k].monthly[c.monthKey] ==
           PaymentRecord(CopiedMonthlyExpected(settings.fees.monthlySchedule, c.monthKey), Num(c.monthlyPaid.value))
      && forall j :: 0 <= j < |st.players| && j != k ==> after.players[j] == st.players[j]
  {
  }

  /** A valid row that matches no member is reported with its four texts and changes nothing else. */
  lemma UnmatchedRowIsReported(st: PaymentsState, settings: Settings, c: PaymentRow, norm: string -> string)
    requires ValidPaymentRow(c)
    requires FindPair(st.players, c.name, c.nickname, norm).None?
    ensures PaymentsStep(st, settings, c, norm) == st.(notFound := st.notFound + [Unmatched(c.name, c.nickname, c.yearKey, c.monthKey)])
  {
  }

  /** A member with no stored member-since year is charged the new-member fee for the imported year. */
  lemma MissingSinceYearChargesNewMemberFee(fees: Fees, p: Player, yearKey: string)
    requires IsYearKey(yearKey)
    requires ToNumber(p.memberSinceYear).None? || ToNumber(p.memberSinceYear) == Some(0)
    ensures ImportYearlyExpected(fees, p, yearKey) == fees.newMemberYearly
  {
    ParseIntOfDigits(yearKey);
  }

  lemma ApplyPaymentsSnoc(players: seq<Player>, settings: Settings, cells: seq<PaymentRow>, norm: string -> string, i: nat)
    requires i < |cells|
    ensures ApplyPayments(players, settings, cells[..i + 1], norm)
            == PaymentsStep(ApplyPayments(players, settings, cells[..i], norm), settings, cells[i], norm)
  {
    assert cells[..i + 1][..i] == cells[..i] && cells[..i + 1][i] == cells[i];
  }

  /** The forEach over the payment rows' cells; the route passes `Normalize`. */
  method PaymentsLoop(players: seq<Player>, settings: Settings, cells: seq<PaymentRow>, norm: string -> string)
    returns (result: seq<Player>, updated: nat, notFound: seq<Unmatched>)
    ensures ApplyPayments(players, settings, cells, norm) == PaymentsState(result, updated, notFound)
  {
    result, updated, notFound := players, 0, [];
    for i := 0 to |cells|
      invariant ApplyPayments(players, settings, cells[..i], norm) == PaymentsState(result, updated, notFound)
    {
      ApplyPaymentsSnoc(players, settings, cells, norm, i);
      var c := cells[i];
      if ValidPaymentRow(c) {
        var found := FindPair(result, c.name, c.nickname, norm);
        if found.None? {
          notFound := notFound + [Unmatched(c.name, c.nickname, c.yearKey, c.monthKey)];
        } else {
          var k := found.value;
          var monthlyExpected := CopiedGetMonthlyExpected(settings, c.monthKey);
          var p := result[k];
          p := p.(yearly := p.yearly[c.yearKey := PaymentRecord(ImportYearlyExpected(settings.fees, p, c.yearKey),
                                                                Num(c.yearlyPaid.value))],
                  monthly := p.monthly[c.monthKey := PaymentRecord(monthlyExpected, Num(c.monthlyPaid.value))]);
          assert p == WritePayment(result[k], settings, c);
          result := result[k := p];
          updated := updated + 1;
        }
      }
    }
    assert cells[..|cells|] == cells;
  }

  /** POST /import/payments: parse, apply the rows, then back up and write db.json. */
  method ImportPayments(st: Store, csvText: string) returns (r: Result<(nat, seq<Unmatched>), string>)
    modifies st
    ensures var parsed := Csv.ParseCsv(Str(csvText));
      && (parsed.Failure? ==> r == Failure(parsed.error) && st.players == old(st.players) && st.trace == old(st.trace))
      && (parsed.Success? ==>
            var res := ApplyPayments(old(st.players), old(st.settings), PaymentRows(parsed.value), Normalize);
            && r == Success((res.updated, res.notFound))
            && st.players == res.players
            && st.trace == old(st.trace) + [Backup(old(st.players), old(st.settings)), WriteDb])
    ensures st.settings == old(st.settings) && st.visitors == old(st.visitors)
    ensures st.notes == old(st.notes) && st.activity == old(st.activity)
  {
    var parsed := Csv.ParseCSV(Str(csvText));
    if parsed.Failure? {
      return Failure(parsed.error);
    }
    var players, updated, notFound := PaymentsLoop(st.players, st.settings, PaymentRows(parsed.value), Normalize);
    st.BackupAll();
    st.SaveDb(players);
    r := Success((updated, notFound));
  }
}
