# Achievers club ledger: dues, fines and the routes that feed them

This Dafny project models the core of a small football club's membership
ledger. Members (players) owe a monthly subscription, a yearly fee and fines for
yellow and red cards. Visitors owe a per-session play fee and their own fines.

- **Server.** The Express routes keep the club's data in JSON files: `db.json` for
  players, plus settings, visitors, notes and the activity log. They validate each
  request, change the records, and back up or write the files.
- **Client.** The browser pages read the same data and recompute statuses, totals,
  sort orders and top lists.

The model follows the program's structure, one module per source file:

- **Shared rules** (`payment_status.dfy`, `fines.dfy`, `fee_copies.dfy`):
  - `PaymentStatus` is the server's fee and status rules (`server/lib/paymentStatus.js`):
    - the time-versioned monthly fee schedule;
    - the member-since year;
    - the new-member and renewal yearly fees;
    - the five-case `statusFromPaid` table;
    - the player payment summary.
  - `Fines` is the fine rules every page repeats: owed cards clamped at zero, the fine
    owed at the two rates, and the "No cards / Cleared / Pending / Incomplete" ladder.
  - `FeeCopies` is the copies of the fee rules in the export, import and client pages,
    each with a lemma stating that it agrees with the server's version, or exactly how
    it differs.
- **Routes.** Each route is a method on a `Store` class (`club.dfy`). The class holds
  the persisted collections and a `trace` of backup and write events, so effect order
  is stated outright (for example "validate, then back up, then write settings, then
  reset"). There is one module per route:
  - `Admin` (reset and rollover);
  - `Overview`;
  - `Csv` (the two-pass parser, written as loops over the characters);
  - `Export`, `CsvImport`, `Visitors`, `SettingsRoute`, `Notes`, `Attendance` and
    `Activity`.
- **Client pages.** Each page is a module of functions over the records, with methods
  where the page loops:
  - `ProfilePage`, `ReportsPage`, `ObligationsPage`, `StatsPage` and `PaymentsPage`;
  - `AttendanceSummary`, `VisitorsStatsPage` and `VisitorsObligationsPage`.
  - `Streak` and `Search` hold the streak count and the search filter that several
    pages share.
- **Helpers.** `Js` reads the JSON values the code coerces with `Number(...)`,
  `Boolean(...)` and `||` (a `Value` datatype). `Seqs` holds a stable insertion sort
  by a strict order and a generic "top n". `Text` holds trimming, lower-casing,
  date-key formats and string order.

Money and card counts are integers.

These inputs are parameters:

- ids from `nanoid` and `randomUUID`;
- the current date, year and month, and timestamps;
- the list of session (Saturday) dates.

Two behaviours of the code that the model keeps as they are:

- **Overview route.** GET /overview backfills `createdAt` inside the read path and,
  as written, never saves it (see Findings).
- **Missing fee data.** Missing fee data defaults per call site: 0 in most places,
  3000 for the payments page's monthly expected.

## Model

| member | source | states |
|---|---|---|
| PaymentStatus.SortSchedule | server/lib/paymentStatus.js:5 | the sorted copy holds exactly the schedule's entries, as many as there were |
| PaymentStatus.SortScheduleAscending | server/lib/paymentStatus.js:5 | the sorted copy is in non-decreasing `from` order |
| PaymentStatus.ApplyingMembers | server/lib/paymentStatus.js:8-12 | an entry is taken by the loop exactly when it is in the schedule, has a `from` not after the month and a finite amount |
| PaymentStatus.GetMonthlyExpected | server/lib/paymentStatus.js:1-16 | the loop's candidate is the fee function of the schedule and month: 0 for an empty schedule, else the last applying amount with the earliest entry's amount as fallback |
| PaymentStatus.MonthlyExpectedLatestApplying | server/lib/paymentStatus.js:5-15 | when some entry applies, the fee is the amount of an applying entry whose `from` is the latest of all applying entries |
| PaymentStatus.MonthlyExpectedFallback | server/lib/paymentStatus.js:6 | when no entry applies, the fee is the amount (`Number(x) \|\| 0`) of an entry with the earliest `from` |
| PaymentStatus.AddingNonApplyingEntryKeepsFee | server/lib/paymentStatus.js:8-13 | appending an entry that does not apply leaves the fee unchanged, provided some entry already applies |
| PaymentStatus.AddingLaterEntryKeepsFee | server/lib/paymentStatus.js:9 | appending an entry that starts after the month leaves the fee unchanged, provided some entry already applies |
| PaymentStatus.MonthlyExpectedConstantBetweenBoundaries | server/lib/paymentStatus.js:9 | two months with no schedule boundary between them have the same fee |
| PaymentStatus.ScheduleExampleFirstMonth | server/lib/paymentStatus.js:1-16 | for the schedule [2026-01: 2000, 2026-02: 3000], 2026-01 costs 2000 |
| PaymentStatus.ScheduleExampleLaterMonth | server/lib/paymentStatus.js:1-16 | for the same schedule, 2026-03 costs 3000 |
| PaymentStatus.ScheduleExampleBeforeAll | server/lib/paymentStatus.js:6 | for the same schedule, 2025-12 (before every entry) falls back to the earliest amount, 2000 |
| PaymentStatus.YearNumbers | server/lib/paymentStatus.js:22-24 | the numbers kept are exactly the values of the keys that read as finite numbers |
| PaymentStatus.EarliestSubscriptionYear | server/lib/paymentStatus.js:25-28 | the first of the sorted years is the value of a numeric key and no numeric key is smaller |
| PaymentStatus.NoNumericSubscriptionYear | server/lib/paymentStatus.js:25 | with no numbers left, no key of `subscriptions.year` reads as a number |
| PaymentStatus.MemberSinceYear | server/lib/paymentStatus.js:18-31 | a stored year above 0 wins; else the least numeric subscription year; else `Number(season) \|\| currentYear` |
| PaymentStatus.NewMemberFeeOnlyInMemberSinceYear | server/lib/paymentStatus.js:33-40 | the member-since year pays the new-member fee, every key of another year number pays the renewal fee, and only one year number is the new-member year |
| PaymentStatus.StatusFromPaid | server/lib/paymentStatus.js:42-61 | with a positive expected amount: PAID iff paid covers it, PENDING iff paid is 0, else INCOMPLETE, remaining the shortfall; with nothing expected: INCOMPLETE iff paid > 0, remaining 0 |
| PaymentStatus.RemainingBounds | server/lib/paymentStatus.js:42-61 | for a payment of at least 0, remaining lies between 0 and the expected amount, and is 0 when nothing is expected |
| PaymentStatus.PayingRemainingSettles | server/lib/paymentStatus.js:47-53 | paying the remaining amount on top of what was paid gives PAID |
| PaymentStatus.PaidFor | server/lib/paymentStatus.js:68 | a key without a record counts as paid 0 |
| PaymentStatus.PlayerPaymentSummary | server/lib/paymentStatus.js:63-89 | null exactly when no member has the id; otherwise the first such member's yearly and monthly expected amounts, payments and statusFromPaid results |
| FeeCopies.ReachedMembers | client/js/pages/reports.js:102-104 | every entry the copied loop takes (`from <= monthKey`) is an entry of the schedule |
| FeeCopies.CopiedGetMonthlyExpected | client/js/pages/reports.js:96-105 | the copied loop's candidate is the copied lookup: the raw amount of the last sorted entry with `from <= monthKey`, the first sorted entry's amount otherwise, 0 for an empty schedule |
| FeeCopies.CopiedIsAnEntryAmount | server/routes/export.js:50-59 | for a non-empty schedule the copy always returns the amount of one of its entries, unconverted |
| FeeCopies.ReachedIsApplying | server/routes/import.js:52-61 | when every entry has a `from` and a finite amount, the copy takes exactly the entries the server rule takes |
| FeeCopies.CopyAgreesWithServer | client/js/pages/obligations.js:60-69 | on such a well-formed schedule the copied lookup's amount reads as the number server/lib/paymentStatus.js charges |
| FeeCopies.CopyDiffersOnNonNumericAmount | client/js/pages/reports.js:96-105 | a later entry with the amount "tbd" makes the copy return "tbd" where the server rule skips it and charges 2000 |
| FeeCopies.ExportMemberSinceYearSkipsSeason | server/routes/export.js:30-41 | the export route's member-since year is the server rule with no season, and equals the server rule whenever a stored year or a numeric subscription year exists |
| FeeCopies.ClientMemberSinceYear | client/js/pages/reports.js:60-71 | a stored year above 0 wins; with no stored year and no numeric subscription year the page falls back to the season value as it is |
| FeeCopies.ClientMemberSinceYearVsServer | client/js/pages/profile.js:79-90 | with a numeric non-zero season, or whenever a stored or numeric subscription year exists, the page's year is the server's |
| FeeCopies.ClientYearlyFeeAgreesWithServer | client/js/pages/reports.js:150-154 | with a numeric non-zero season, the pages' yearly fee (new-member fee when `Number(yearKey) === memberSinceYear`, else the renewal fee) is the server's getYearlyExpected, both reading the stored fees as numbers (see Left out) |
| FeeCopies.DeriveStatus | client/js/pages/payments.js:79-88 | paid iff something is expected and the payment covers it; incomplete iff a positive payment falls short or nothing is expected; pending otherwise, NaN counting as neither |
| FeeCopies.DeriveStatusVsServer | server/routes/export.js:43-48 | the lower-case badge differs from the server's statusFromPaid exactly when a positive amount is expected and the payment is negative: then it says pending where the server says incomplete |
| Fines.FineOwed | client/js/pages/profile.js:230-233 | with non-negative rates the fine owed is never negative |
| Fines.FineStatusOf | client/js/pages/profile.js:236-241 | "No cards" iff no card was received; else "Cleared" iff nothing is owed; else "Pending" iff no card is marked paid; else "Incomplete" |
| Fines.OwedPlusClearedIsIncurred | client/js/pages/reports.js:190-219 | a member's amount owed plus the amount cleared (`Math.min(paid, cards)` times the rate) is the value of every card received |
| Fines.SummaryOf | client/js/pages/obligations.js:95-113 | the cards owed plus the cards paid for (capped at the cards received) are the cards received, the fine owed plus the cleared amount is the value of all cards, the paid count is the sum of the counters, and the fine is never negative at non-negative rates |
| Fines.NothingOwedIffAllPaid | client/js/pages/profile.js:228-233 | with positive rates nothing is owed exactly when both counters reach their card counts |
| Fines.CappedCountersOwe | server/routes/visitors.js:153-160 | when the counters are within the card counts, as the route stores them, the fine is the unpaid cards times the rates and the cleared amount the paid cards times the rates |
| Club.FindPlayer | server/routes/attendance.js:37 | the index found holds the id and no earlier member does; None means no member has the id |
| Club.FindVisitor | server/routes/visitors.js:203 | the first visitor with the id, or None when there is none |
| Club.FindNote | server/routes/notes.js:118 | the first note with the id, or None when there is none |
| Club.RemoveAt | server/routes/notes.js:123 | `splice(i, 1)`: one element fewer, the ones before `i` kept, the ones after shifted down by one |
| Club.Store.BackupAll | server/lib/backup.js:24-29 | records a backup of the data and settings as they are now and changes nothing else |
| Admin.FlagsOf | server/routes/admin.js:20-29 | a request that passes validateReset carries exactly the five boolean flags read from it |
| Admin.ValidateResetIffFlags | server/routes/admin.js:20-29 | a request is valid exactly when each of its five fields is a boolean, i.e. it is the request of some set of flags |
| Admin.RequestOf | server/routes/admin.js:20-29 | every set of five booleans makes a valid request that reads back as the same flags |
| Admin.ResetPlayer | server/routes/admin.js:35-51 | each flag clears only its own field (attendance, payments.monthly, payments.yearly, stats, discipline) and every other field of the member is kept |
| Admin.NoResetKeepsPlayer | server/routes/admin.js:35-51 | with every flag false a member is left exactly as it was |
| Admin.ResetPlayerIdempotent | server/routes/admin.js:35-51 | applying the same reset twice is the same as applying it once |
| Admin.ResetPlayerCompose | server/routes/admin.js:35-51 | two resets in a row are one reset with the union of their flags, so the monthly reset never touches the yearly payments and the other way round |
| Admin.ResetAll | server/routes/admin.js:35 | every member is reset, in order, and none is added or dropped |
| Admin.ApplyReset | server/routes/admin.js:31-54 | the members become the reset members, one database write is recorded, and settings, visitors, notes and activity are unchanged |
| Admin.RolloverCheck | server/routes/admin.js:59-71 | accepted exactly when the new season is a finite number not below a numeric current season and the flags are valid; a bad year is reported before bad flags |
| Admin.RolloverNeverDecreasesSeason | server/routes/admin.js:63 | an accepted rollover's season is at least the current numeric season |
| Admin.Rollover | server/routes/admin.js:56-82 | a rejection writes nothing and backs nothing up; an acceptance records backup, then the settings write with the new season, then the reset members' write, in that order |
| Admin.ResetSeason | server/routes/admin.js:84-100 | invalid flags are rejected before any backup; otherwise backup, then the reset, the season returned unchanged and the settings never written |
| Overview.ResolveKeys | server/routes/overview.js:27-38 | the year key is the query's, else the season, else the current year, and must be four digits; the month key the query's or the current month and must be YYYY-MM; the year is checked first |
| Overview.QueryKeyWins | server/routes/overview.js:27 | a non-empty year in the query is the year used |
| Overview.Backfill | server/routes/overview.js:41-43 | a member without createdAt gets the epoch time; one with it is unchanged |
| Overview.BackfillAll | server/routes/overview.js:40-43 | every member is backfilled, in order |
| Overview.BackfillLeavesNoneMissing | server/routes/overview.js:56 | after the mapping no member lacks createdAt, so the route's persistence test is always false |
| Overview.FindIgnoresCreatedAt | server/routes/overview.js:44 | backfilling createdAt does not change which member an id finds |
| Overview.SummaryIgnoresCreatedAt | server/routes/overview.js:44 | so the payment summary computed on the partly backfilled list is the one of the original list |
| Overview.OverviewRows | server/routes/overview.js:40-54 | one row per member, in order, with its id and a createdAt that is never empty and is the stored one when there was one |
| Overview.EveryRowHasSections | server/routes/overview.js:51-52 | every row's member is found, so its yearly and monthly sections are never null |
| Overview.BucketsPartition | server/routes/overview.js:71-81 | each row falls in exactly one of Paid, Pending and Incomplete, so the three counts add up to the rows |
| Overview.Tally | server/routes/overview.js:61-81 | totalMembers is the number of rows, and the yearly and the monthly counts each sum to it |
| Overview.CountStatuses | server/routes/overview.js:71-81 | the counting loop yields the tally, a missing section or any status other than PAID and INCOMPLETE counting as pending |
| Overview.OverviewOf | server/routes/overview.js:23-83 | fails exactly when a key is malformed; otherwise one row per member and totalMembers the number of members |
| Overview.BuildRows | server/routes/overview.js:40-54 | the mapping loop backfills every member and builds the rows of the original list |
| Overview.PersistedMembersHaveCreatedAt | server/routes/overview.js:41-43 | the list the corrected route writes has createdAt on every member and leaves members that had one unchanged |
| Csv.SplitRecords | server/lib/csv.js:6-36 | the record pass yields the record list: a doubled quote inside quotes adds one quote, other quotes only toggle, a newline outside quotes ends a record, `\r` is dropped, a non-empty last record is kept |
| Csv.RecordsHaveNoCarriageReturn | server/lib/csv.js:32-34 | no record holds a `\r` |
| Csv.RecordsOfQuoteFreeText | server/lib/csv.js:11-36 | text without quotes splits at every newline, with the `\r`s removed and an empty last piece dropped |
| Csv.QuotedCommaKept | server/lib/csv.js:21-23 | in the record pass a quoted "a,b" is one record `a,b` with the quotes removed |
| Csv.QuotedNewlineKept | server/lib/csv.js:26 | a newline inside quotes does not end the record |
| Csv.DoubledQuoteInsideQuotes | server/lib/csv.js:15-19 | `"x""y"` is the record `x"y` |
| Csv.SplitFields | server/lib/csv.js:38-62 | the field pass yields the field list of a record |
| Csv.FieldCount | server/lib/csv.js:54-61 | a record has one field more than it has commas outside quotes |
| Csv.FieldsAreTrimmed | server/lib/csv.js:55-61 | every field is trimmed of surrounding whitespace |
| Csv.RowObjectKeys | server/lib/csv.js:75-78 | each object has exactly the header names as keys |
| Csv.RowObjectValues | server/lib/csv.js:77 | each header's value is the cell in its column (the last such column for a repeated header), or "" when the row is shorter |
| Csv.ParseCsv | server/lib/csv.js:1-81 | a non-string or blank input, or one with no records, fails with "CSV content is empty."; otherwise it succeeds exactly when no header cell is empty, giving one object per record after the header |
| Csv.ParsedObjectsHaveHeaderKeys | server/lib/csv.js:74-80 | every parsed object's keys are the header names |
| Csv.SplitAllFields | server/lib/csv.js:38-63 | the loop over the records splits each into its fields |
| Csv.EveryCellNonEmpty | server/lib/csv.js:69-72 | the header test is true exactly when no header cell is empty |
| Csv.MapRecords | server/lib/csv.js:74-80 | every row after the header becomes its object, in order |
| Csv.ParseCSV | server/lib/csv.js:1-81 | the imperative parser returns exactly the specified result, error or objects |
| Csv.OnlyQuotesIsEmpty | server/lib/csv.js:36 | the input `""` is not blank but yields no record, so it fails as empty content |
| Csv.ExportedRecords | server/lib/csv.js:11-36 | the export's `name` header over the escaped value `"a,b"` gives the records `name` and `a,b` |
| Csv.FieldsOfName | server/lib/csv.js:38-62 | the record `name` is the single field `name` |
| Csv.FieldsOfQuotedComma | server/lib/csv.js:54-58 | the record `a,b`, its quotes already removed by the record pass, splits into two fields |
| Csv.QuotedCommaDoesNotRoundTrip | server/lib/csv.js:1-81 | so a cell the export quoted because it holds a comma reads back truncated at the comma |
| Export.CellText | server/routes/export.js:15 | null and undefined become "", a string is itself |
| Export.CsvEscape | server/routes/export.js:14-20 | null and undefined give ""; a value with no quote, comma or newline is written as it is; any other is wrapped in quotes with room for its doubled quotes |
| Export.EscapedTextReadsBack | server/routes/export.js:14-20 | an escaped non-empty value without `\r` is read back by the import's record pass as exactly that value, as one record |
| Export.SplitJoin | server/routes/export.js:27 | joining parts that hold no separator and splitting again gives the parts back |
| Export.EscapeEach | server/routes/export.js:25 | every cell of a row is escaped, in order |
| Export.CsvLines | server/routes/export.js:22-28 | the lines are the joined header line followed by one line per row, so one more line than rows |
| Export.ToCsv | server/routes/export.js:22-28 | the loop's text is the lines joined by newlines |
| Export.CsvLineCount | server/routes/export.js:22-28 | when no header or cell holds a newline, the text splits back at newlines into exactly those lines, `rows.length + 1` of them |
| Export.PlayersRow | server/routes/export.js:65-72 | six cells, the last the export's member-since year |
| Export.PaymentsLineOf | server/routes/export.js:92-122 | the greatest yearly key (the current year when there is none) and the greatest monthly key (or ""); the new-member fee when that year is the member-since year, else the renewal fee; monthly 0 with no month; paid read with `Number(x) \|\| 0`; the lower-case badges |
| Export.PaymentsCells | server/routes/export.js:110-122 | eleven cells, matching the header |
| Export.PaymentsLineAgreesWithServer | server/routes/export.js:100-108 | with numeric fees, a well-formed schedule and a stored or numeric subscription year, the exported amounts are the server's and for payments of at least 0 so are the badges |
| Export.AllDatesMembers | server/routes/export.js:153-156 | a date is collected exactly when some member has an attendance entry for it |
| Export.CollectDates | server/routes/export.js:153-156 | the loop collects exactly those dates |
| Export.AttendanceLineOf | server/routes/export.js:161 | present is `Boolean(attendance[date])`: an entry that exists and is truthy |
| Export.DateRows | server/routes/export.js:160-169 | one line per member for a date, in member order |
| Export.GridLength | server/routes/export.js:159-170 | the export has dates times members lines |
| Export.GridEntry | server/routes/export.js:159-170 | the line of date d and member j is at position `d * members + j`, and it is that member's presence on that date |
| Export.PushDateRows | server/routes/export.js:160-169 | the inner loop appends a date's lines |
| Export.GridRows | server/routes/export.js:159-170 | the outer loop builds the whole grid |
| Export.AttendanceRows | server/routes/export.js:149-170 | the dates come sorted and distinct, exactly those some member attended or missed, and the rows are the grid over them |
| Export.AttendanceCells | server/routes/export.js:162-168 | five cells, matching the header |
| Export.StatsRates | server/routes/export.js:188-189 | `?? 500` and `?? 1000`: only null or undefined take the default, a number (0 included) is kept |
| Export.StatsLineOf | server/routes/export.js:190-228 | the cards read with `Number(x) \|\| 0`, the unpaid counts clamped at 0, the fines the unpaid cards times the rates (not a number when a rate is not), and the status ladder |
| Export.StatsCells | server/routes/export.js:213-227 | thirteen cells, matching the header |
| Export.StatsStatusIsFineLadder | server/routes/export.js:204-211 | with numeric rates the status is the shared fine ladder; with a non-numeric rate it is never cleared |
| Export.ZeroRateIsKept | server/routes/export.js:188 | a yellow rate of 0 stays 0, so only red cards are fined |
| CsvImport.CsvBody | server/routes/import.js:39-43 | a string body is the text; else a truthy body's string `csv` field; else "" |
| CsvImport.NormalizeFacts | server/routes/import.js:45-50 | normalising ignores surrounding whitespace, keeps the trimmed length, and is empty exactly when the trimmed text is |
| CsvImport.KeyIgnoresCaseAndSpace | server/routes/import.js:94-95 | the dedup key of the trimmed name and nickname is the key of the raw ones |
| CsvImport.KeyCollision | server/routes/import.js:79 | the `name::nickname` key confuses the pair ("a::b", "c") with ("a", "b::c") although the names differ |
| CsvImport.KeysOf | server/routes/import.js:76-81 | the existing keys are exactly the keys of the stored members |
| CsvImport.KeysOfSnoc | server/routes/import.js:124 | adding a member adds exactly its key |
| CsvImport.PlayerRowOf | server/routes/import.js:84-87 | name, nickname and position are read trimmed |
| CsvImport.NewPlayer | server/routes/import.js:101-120 | the new member keeps the row's name, nickname and position, takes a finite memberSinceYear or else the season, and starts with empty payments and attendance and zero stats and counters |
| CsvImport.ImportCounts | server/routes/import.js:83-126 | created plus skipped is the number of rows, the members grow by exactly `created`, the old members stay first and unchanged, and the key set stays the keys of the members |
| CsvImport.ImportedAreNewAndValid | server/routes/import.js:89-99 | every member added has a name and an allowed position and a key no earlier member has |
| CsvImport.DuplicateRowIsSkipped | server/routes/import.js:96-99 | a row whose key is already known only adds one to skipped |
| CsvImport.PlayerRows | server/routes/import.js:83-87 | every parsed object is read as a row, in order |
| CsvImport.ImportLoop | server/routes/import.js:83-126 | the loop's members and counts are those of the fold |
| CsvImport.ImportPlayers | server/routes/import.js:65-134 | a parse error is returned with nothing written; otherwise the fold over the rows with the season `Number(season) \|\| currentYear`, a backup and then one database write, and the counts returned |
| CsvImport.PaymentRows | server/routes/import.js:147-153 | every parsed object is read as a payment row, in order |
| CsvImport.IndexOf | server/routes/import.js:162-165 | the first position holding the value, or None when none does |
| CsvImport.PairsOf | server/routes/import.js:163 | each member's normalised pair, in order |
| CsvImport.FindPair | server/routes/import.js:161-165 | the first member whose normalised name and nickname match the row's, or None |
| CsvImport.PaymentsCounts | server/routes/import.js:147-190 | updated plus not-found plus dropped rows is the number of rows; no member is added or removed and only payment records change |
| CsvImport.MatchedRowWritesBothRecords | server/routes/import.js:172-189 | a good row for a known member writes its yearly record (fee by member-since year) and its monthly record (the copied schedule lookup), counts one update and changes no other member |
| CsvImport.UnmatchedRowIsReported | server/routes/import.js:167-170 | a good row for an unknown member is only appended to notFound |
| CsvImport.MissingSinceYearChargesNewMemberFee | server/routes/import.js:172-174 | a member with no usable memberSinceYear is charged the new-member fee for the row's year |
| CsvImport.PaymentsLoop | server/routes/import.js:147-190 | the loop's members and counts are those of the fold |
| CsvImport.ImportPayments | server/routes/import.js:136-198 | a parse error is returned with nothing written; otherwise the fold over the rows, a backup and then one database write, and the counts returned |
| Visitors.NewVisitor | server/routes/visitors.js:64-74 | the new visitor keeps the trimmed name, nickname and notes, and starts with no attendance, no sessions, zero cards and zero paid counters |
| Visitors.NewVisitorOwesNothing | server/routes/visitors.js:72-73 | a new visitor has no cards, owes no fine at any rates and shows "No cards" |
| Visitors.CreateVisitor | server/routes/visitors.js:53-83 | an empty trimmed name is rejected with "Name is required." and nothing written; otherwise the visitor is appended and the file written once |
| Visitors.EditVisitor | server/routes/visitors.js:94-99 | a non-empty name replaces the old one, an empty one keeps it; nickname and notes are always overwritten; nothing else changes |
| Visitors.PatchVisitor | server/routes/visitors.js:85-105 | an unknown id is a 404 with nothing written; otherwise only that visitor is replaced by its edit and the file written once |
| Visitors.SessionPaymentCheck | server/routes/visitors.js:116-125 | accepted exactly when the trimmed date is YYYY-MM-DD and paid is a finite number at least 0; the date is checked first |
| Visitors.RecordSession | server/routes/visitors.js:127-129 | the session date gets `{expected: 1000, paid}`, every other session and field is kept |
| Visitors.PaySession | server/routes/visitors.js:107-135 | 404 for an unknown id, then the date or amount error, each with nothing written; otherwise only that visitor gets the session record and the file is written once |
| Visitors.CardsCheck | server/routes/visitors.js:146-151 | accepted exactly when both card counts are finite numbers at least 0 |
| Visitors.CapPaid | server/routes/visitors.js:156-157 | the stored counter is between 0 and the card count: a non-finite value gives 0, a value in range is kept, a larger one is capped at the count |
| Visitors.SetCards | server/routes/visitors.js:159-160 | the counts are stored as given with the capped counters; nothing else changes |
| Visitors.StoredCardsAreCapped | server/routes/visitors.js:153-160 | after the stats route the counters never exceed the cards, so the fine owed is exactly the unpaid cards times the rates |
| Visitors.SetVisitorStats | server/routes/visitors.js:137-166 | 404 for an unknown id, then the card error, each with nothing written; otherwise only that visitor's cards change and the file is written once |
| Visitors.MarkVisitor | server/routes/visitors.js:190-191 | the date is set to `Boolean(present)` and every other date and field is kept |
| Visitors.MarkVisitorLaws | server/routes/visitors.js:190-191 | marking keeps the id, a later mark of the same date overrides an earlier one, and marks of different visitors do not interfere |
| Visitors.VisitorsBatchLastWins | server/routes/visitors.js:187-192 | after the batch each visitor that an id finds first carries the last value sent for it; unknown ids and other visitors are left unchanged |
| Visitors.FindVisitorIsFindBy | server/routes/visitors.js:188 | the batch's lookup is the route's `find` by id |
| Visitors.VisitorAttendance | server/routes/visitors.js:168-198 | a bad date, then a non-Saturday, then a missing update list are rejected with nothing written; otherwise the batch is applied and the file written once |
| Visitors.PositionCheck | server/routes/visitors.js:212-216 | the position is `String(position \|\| "FW").trim()`, accepted exactly when it is an allowed position; a missing one is FW |
| Visitors.PadStart2 | server/routes/visitors.js:220 | a string of two or more characters is kept; a shorter one is padded on the left to two |
| Visitors.PromotedPlayer | server/routes/visitors.js:219-236 | the member keeps the visitor's name and nickname, has memberSinceYear `Number(yearKey)`, one pending subscription year and month, zero stats, no attendance or payments, and no discipline record |
| Visitors.PromotedMemberSinceSeason | server/routes/visitors.js:219-228 | with a non-zero numeric season the promoted member's memberSinceYear is that season |
| Visitors.PromotionMessage | server/routes/visitors.js:245 | "Visitor promoted to member: " and the name, with the nickname in parentheses when there is one |
| Visitors.PromoteVisitor | server/routes/visitors.js:200-252 | 404 for an unknown id, then the position error, each changing nothing; otherwise the member is appended, the visitor removed, the activity logged, and the writes happen in the order db, visitors, activity |
| Visitors.DeleteVisitor | server/routes/visitors.js:254-268 | 404 for an unknown id with nothing written; otherwise exactly that visitor is removed and the file written once |
| Visitors.DeleteRemovesOne | server/routes/visitors.js:257-262 | the list loses exactly the visitor with the id and keeps every other |
| SettingsRoute.PatchSettingsResult | server/routes/settings.js:31-90 | rejected in this order: club name, season a finite number at least 2000, currency symbol of one to three characters, fees finite and not negative, start date YYYY-MM-DD, lockFuture a boolean; on success the name trimmed, the season and fees as numbers, the schedule dropped, attendance exactly {startDate, lockFuture}, and every other setting (discipline included) kept |
| SettingsRoute.PatchDropsSchedule | server/routes/settings.js:88 | after a successful patch every month's scheduled fee is 0, because the schedule is gone |
| SettingsRoute.PatchedSeasonIsValid | server/routes/settings.js:41-45 | a saved season is always a number of at least 2000 |
| SettingsRoute.PatchSettings | server/routes/settings.js:31-97 | a rejection writes nothing; an acceptance stores the new settings with one write and changes nothing else |
| Notes.PageLimit | server/routes/notes.js:22 | at least 1; a usable number is kept; a missing or non-numeric limit is 20 |
| Notes.PageNumber | server/routes/notes.js:23 | at least 1; a usable number is kept; a missing or non-numeric page is 1 |
| Notes.Filtered | server/routes/notes.js:30-40 | every note kept has lower-cased text containing the query and a time within the optional bounds, and every such note is kept |
| Notes.FilteredMultiplicity | server/routes/notes.js:30-40 | a note that passes both filters is kept as many times as it occurs, and no other note is kept |
| Notes.FilteredAppend | server/routes/notes.js:30-40 | filtering keeps the notes' order: the kept notes of `a + b` are those of `a` followed by those of `b` |
| Notes.FilteredCountsKept | server/routes/notes.js:30-40 | the filtered list has exactly one entry per position whose note passes both filters |
| Notes.EmptySearchKeepsAll | server/routes/notes.js:31 | no query and no dates keep every note |
| Notes.Results | server/routes/notes.js:42-44 | the kept notes, newest first by `updatedAt \|\| createdAt` |
| Notes.Slice | server/routes/notes.js:48 | `slice(start, end)`: the elements from start up to end, cut at the list's end, empty past it |
| Notes.TotalPages | server/routes/notes.js:46 | `max(1, ceil(total / limit))`: at least 1, the pages hold every note, and the last page is not empty when there are notes |
| Notes.PageOf | server/routes/notes.js:45-50 | the page has the total, the page number and totalPages, and holds at most `limit` items from position `(page - 1) * limit` |
| Notes.ListNotes | server/routes/notes.js:19-54 | page and totalPages at least 1, at most `limit` items, each matching the search, newest first, and total the number of positions whose note matches the search and the bounds |
| Notes.PageItemsAreResults | server/routes/notes.js:42-48 | the items of any page match the search and are newest first |
| Notes.EveryResultOnItsPage | server/routes/notes.js:46-48 | the i-th result is on page `i / limit + 1` at position `i % limit`, and that page is within totalPages |
| Notes.PagePastTheEndIsEmpty | server/routes/notes.js:47-48 | a page after the last has no items |
| Notes.NewNote | server/routes/notes.js:64-72 | the new note keeps the trimmed text, `Boolean(pinned)` and the trimmed tag, with createdAt and updatedAt both now |
| Notes.CreateNote | server/routes/notes.js:56-81 | empty trimmed text is rejected with nothing written; otherwise the note is appended and the file written once |
| Notes.EditNote | server/routes/notes.js:92-106 | text sent but empty is rejected; each field sent replaces the old one, each field not sent is kept; updatedAt becomes now; id and createdAt never change |
| Notes.EmptyEditTouchesOnly | server/routes/notes.js:106 | a patch with no fields only refreshes updatedAt |
| Notes.PatchNote | server/routes/notes.js:83-113 | 404 for an unknown id, the text error for empty text, each with nothing written; otherwise only that note is replaced and the file written once |
| Notes.DeleteNote | server/routes/notes.js:115-129 | 404 for an unknown id with nothing written; otherwise exactly that note is removed and the file written once |
| Activity.LogActivity | server/routes/activity.js:19-28 | one entry with the id, message and time is appended, one write recorded, nothing else changed |
| Activity.LatestActivity | server/routes/activity.js:33-35 | ten entries (all of them when fewer), newest first, all taken from the log |
| Activity.LatestActivityLeavesNoLater | server/routes/activity.js:33-35 | every entry left out is no later than every entry returned, so these are the ten most recent |
| Attendance.FindBy | server/routes/attendance.js:37 | the first item with the id, or None when there is none |
| Attendance.LastUpdateFor | server/routes/attendance.js:36-41 | the last update sent for an id, or None when there is none |
| Attendance.ApplyUpdatesLastWins | server/routes/attendance.js:36-41 | for any marking that keeps ids and lets the later mark win: each item that its id finds first carries the last value sent for it, every other item is unchanged, and none is added |
| Attendance.MarkPlayer | server/routes/attendance.js:39-40 | the date is set to `Boolean(present)`; every other date and field is kept |
| Attendance.MarkPlayerLaws | server/routes/attendance.js:39-40 | marking a member satisfies those laws |
| Attendance.PlayersBatchLastWins | server/routes/attendance.js:36-41 | after the batch each member carries the last value sent for its id on that date; unknown ids are ignored |
| Attendance.FindPlayerIsFindBy | server/routes/attendance.js:37 | the batch's lookup is the route's `find` by id |
| Attendance.SecondUpdateWins | server/routes/attendance.js:36-41 | two updates for the same id leave what the second alone leaves |
| Attendance.PatchAttendance | server/routes/attendance.js:18-48 | a bad date, then a missing update list, are rejected with nothing written; otherwise the batch is applied and one write recorded |
| Streak.TrailingPresent | client/js/pages/profile.js:166-174 | the streak is never longer than the list of sessions |
| Streak.StreakIsTrailingRun | client/js/pages/profile.js:168-171 | the last `streak` sessions were all attended (a stored `true`), and the session just before them, if any, was not |
| Streak.MissedLastSessionGivesZero | client/js/pages/profile.js:171 | missing the latest session gives a streak of 0 |
| Streak.HistoryBeforeAMissIsIgnored | client/js/pages/attendance-summary.js:52-60 | once a later session was missed, older sessions do not change the streak |
| Streak.ComputeStreak | client/js/pages/attendance-summary.js:52-60 | the backward loop with its early break returns the length of the trailing run |
| Search.SearchPlayers | client/js/pages/obligations.js:193-199 | keeps exactly the members whose lower-cased name or nickname contains the query, all of them for an empty query, and never more than there were |
| Search.SearchVisitors | client/js/pages/visitors-stats.js:94-100 | the same filter over visitors |
| Search.NameContainingQueryMatches | client/js/pages/stats.js:95-100 | a lower-cased name that contains the query makes the record match |
| ProfilePage.LatestMonth | client/js/pages/profile.js:92-98 | the greatest of the payment and subscription month keys, "" when there are none; no key sorts after it |
| ProfilePage.LatestMonthOfNonEmptyKey | client/js/pages/profile.js:97 | with any month key other than "", the result is a real key and not "" |
| ProfilePage.MonthOptions | client/js/pages/profile.js:253-268 | exactly one option: the latest month when it is not empty, else `${season}-01` |
| ReportsPage.ComputeStatus | client/js/pages/reports.js:107-111 | Cleared iff the payment covers the amount; else Pending iff nothing is paid; else Incomplete |
| ReportsPage.ComputeStatusVsServer | client/js/pages/reports.js:107-111 | for a positive amount the report's status is the server's statusFromPaid; with nothing expected the report says Cleared where the server never says PAID |
| ReportsPage.Remaining | client/js/pages/reports.js:122-124 | a line's remaining plus what it collects is its amount, and remaining is 0 exactly when the line is Cleared |
| ReportsPage.OutstandingIsRemaining | client/js/pages/reports.js:136-139 | Outstanding (expected total minus collected) is the sum of the lines' remaining amounts, so it is never negative and collected never exceeds expected |
| ReportsPage.NothingOutstandingIffAllCleared | client/js/pages/reports.js:136-139 | Outstanding is 0 exactly when every line is Cleared |
| ReportsPage.CollectedNotNegative | client/js/pages/reports.js:124 | with amounts and payments at least 0 the collected total is at least 0 |
| ReportsPage.SameExpectedSum | client/js/pages/reports.js:116 | the monthly expected total `players.length * monthlyExpected` is the sum of the lines' amounts |
| ReportsPage.MonthlyLines | client/js/pages/reports.js:120-124 | one line per member with the month's amount and the member's payment |
| ReportsPage.RenderMonthly | client/js/pages/reports.js:113-141 | the loop's expected total is members times the amount, and both totals are the sums over the lines |
| ReportsPage.YearlyLines | client/js/pages/reports.js:149-157 | one line per member with its own yearly fee and payment |
| ReportsPage.RenderYearly | client/js/pages/reports.js:143-176 | the loop's totals are the sums over the lines |
| ReportsPage.FineCards | client/js/pages/reports.js:184-189 | each member's cards read with `Number(x) \|\| 0` |
| ReportsPage.OwedPlusClearedTotals | client/js/pages/reports.js:215-219 | Total Owed plus Total Cleared is the value of every card received |
| ReportsPage.NothingOwedIffNoRowOwes | client/js/pages/reports.js:215 | with non-negative rates Total Owed is never negative and is 0 exactly when no member owes a fine |
| ReportsPage.OutstandingAsWritten | client/js/pages/reports.js:235 | the page's Outstanding, Total Owed minus Total Cleared, is the value of all cards minus twice the cleared amount |
| ReportsPage.OutstandingAsWrittenMissesOwedFine | client/js/pages/reports.js:235 | one member with 2 yellow cards, 1 paid, at 500 per card, owes 500 and is Incomplete, yet the page shows Outstanding 0 |
| ReportsPage.FinesOutstanding | client/js/pages/reports.js:233-235 | the intended Outstanding, the value of all cards minus what is cleared, is 0 exactly when no member owes a fine |
| ReportsPage.RenderFines | client/js/pages/reports.js:178-237 | the loop's Total Owed and Total Cleared are the sums over the members, and the Outstanding it shows is Total Owed minus Total Cleared, the intended value less the cleared total |
| ObligationsPage.ComputeStatus | client/js/pages/obligations.js:115-119 | Cleared iff nothing is owed; else Pending iff nothing is paid; else Incomplete |
| ObligationsPage.RowOf | client/js/pages/obligations.js:126-153 | the total is monthly owed plus yearly owed plus the fine, the fine is the shared summary, and at non-negative rates the total is never negative and the row is Cleared exactly when both fees are paid in full and no fine is owed |
| ObligationsPage.RowBeforeIsStrictOrder | client/js/pages/obligations.js:162-168 | the row comparator (status rank, then total owed, then name) is a strict order |
| ObligationsPage.SortRows | client/js/pages/obligations.js:162-168 | the sorted rows are the same rows, Pending before Incomplete before Cleared, larger totals first within a status, then by name |
| ObligationsPage.RowsOf | client/js/pages/obligations.js:126 | one row per member, in order |
| ObligationsPage.ReorderedRows | client/js/pages/obligations.js:162 | any reordering of the rows keeps one row per member and only members |
| ObligationsPage.ObligationRows | client/js/pages/obligations.js:193-199 | the table is the rows of exactly the members the search keeps, in display order, never more than the members |
| PaymentsPage.PaymentOf | client/js/pages/payments.js:94-108 | a missing record gives the default amount and paid 0; a null or undefined field takes its default (`??`); any other value is kept as stored |
| PaymentsPage.MissingRecordsArePending | client/js/pages/payments.js:44-45 | with no record the month shows 3000 expected and the year 0 expected, and both badges are pending |
| PaymentsPage.BadgeOfNumbersVsServer | client/js/pages/payments.js:117-120 | for numeric records the table's badge is the server's statusFromPaid, except for a negative payment against a positive amount |
| PaymentsPage.AllKeysMembers | client/js/pages/payments.js:67-74 | a key is collected exactly when some member has it among its payment or subscription keys for that field |
| PaymentsPage.GetLatestKey | client/js/pages/payments.js:65-77 | the loop yields the greatest collected key, or the fallback when it is "" or there are none |
| PaymentsPage.LatestKeyIsGreatest | client/js/pages/payments.js:75-76 | no keys give the fallback; with any non-empty key the result is some member's key and no key sorts after it |
| PaymentsPage.AvailableKeys | client/js/pages/payments.js:144-145 | the selector's keys are sorted and distinct, and are exactly the current key plus every collected key |
| PaymentsPage.SelectedKeyIsAvailable | client/js/pages/payments.js:226-228 | the key the page selects on load is always one of the selector's options |
| PaymentsPage.CollectKeys | client/js/pages/payments.js:135-143 | the loop gathers the current year and month plus every member's yearly and monthly keys |
| PaymentsPage.PaymentsState.BuildAvailableKeys | client/js/pages/payments.js:134-146 | the year and month options become the sorted key sets; the selected keys are untouched |
| PaymentsPage.PaymentsState.LoadPlayers | client/js/pages/payments.js:221-232 | the selected year and month become the latest keys (the current ones as fallback) and the options the available keys |
| PaymentsPage.MonthsForYear | client/js/pages/payments.js:159-163 | never empty and only months of the year; exactly the known months of that year when there is one, else `${yearKey}-01`; sorted known months stay sorted |
| PaymentsPage.ModalMonth | client/js/pages/payments.js:192-196 | the month the modal opens on is one offered for the year, is the selected month whenever that is offered, and otherwise, with the sorted month list, is the latest month offered |
| PaymentsPage.ClampInput | client/js/pages/payments.js:290-293 | `Math.max(0, Number(x \|\| 0))`: not a number stays not a number, anything else is raised to at least 0 |
| PaymentsPage.Preview | client/js/pages/payments.js:165-183 | a remainder exists exactly when both inputs are numbers, and remainder plus what the payment covers is the amount; the badge is the lower-case status of the clamped inputs |
| PaymentsPage.PreviewPaidIffNothingRemains | client/js/pages/payments.js:165-183 | with a positive amount the preview says paid exactly when nothing remains; with nothing due it says incomplete for a positive payment and pending otherwise |
| PaymentsPage.SavePayload | client/js/pages/payments.js:288-305 | the keys are sent as selected and every amount is clamped, so none sent is negative |
| PaymentsPage.ShownNumberSavesClamped | client/js/pages/payments.js:201-204 | saving a number the form was filled with sends that number raised to at least 0 |
| StatsPage.SafeNumber | client/js/pages/stats.js:48-51 | the value when it reads as a finite number at least 0, else 0 |
| StatsPage.FineSummaryOf | client/js/pages/stats.js:69-79 | the fine at 500 per unpaid yellow and 1000 per unpaid red card; the badge is paid iff nothing is owed, else pending iff no card is marked paid, else incomplete |
| StatsPage.StatsBadgeIsFineLadder | client/js/pages/stats.js:69-79 | the badge is the shared fine ladder with "No cards" shown as paid |
| StatsPage.StatsOrderIsStrict | client/js/pages/stats.js:81-92 | the comparator is a strict order for every column and direction |
| StatsPage.SortPlayers | client/js/pages/stats.js:81-92 | the same members, ordered by the column in the chosen direction, ties by assists in that direction (unless sorting by assists) and then by name |
| StatsPage.SortState.constructor | client/js/pages/stats.js:176-188 | the table opens sorted by goals, most first |
| StatsPage.SortState.ClickHeader | client/js/pages/stats.js:176-188 | a click moves the sort to the column given by the click rule |
| StatsPage.NextSort | client/js/pages/stats.js:176-188 | the clicked column becomes the sort column; the same column flips the direction, a new one starts most first |
| StatsPage.ClickingTwice | client/js/pages/stats.js:176-188 | two clicks on the sort column restore its direction; two on another column sort it fewest first |
| StatsPage.SavePayload | client/js/pages/stats.js:207-220 | every input goes through safeNumber, so every value sent is at least 0 |
| StatsPage.SafeNumberOfShown | client/js/pages/stats.js:137-150 | a count the form shows reads back as the same count |
| StatsPage.SavingUnchangedFormKeepsStats | client/js/pages/stats.js:137-150 | saving the form as it was opened sends back exactly the numbers the page showed |
| AttendanceSummary.RecentSessions | client/js/pages/attendance-summary.js:88-90 | `slice(-Number(range))`: always a run at the end of the sessions; all of them for a range of 0 or not a number; otherwise the last `range`, or all when there are fewer |
| AttendanceSummary.PresentCount | client/js/pages/attendance-summary.js:99-101 | the count of attended sessions is at most the number of sessions |
| AttendanceSummary.PresentCountBounds | client/js/pages/attendance-summary.js:99-102 | the count equals the total exactly when every recent session was attended, and is 0 exactly when none was |
| AttendanceSummary.StreakWithinRangeIsCounted | client/js/pages/attendance-summary.js:99-104 | over the same sessions the streak never exceeds the count of sessions attended |
| AttendanceSummary.Percent | client/js/pages/attendance-summary.js:103 | 0 when there are no sessions |
| AttendanceSummary.PercentRounds | client/js/pages/attendance-summary.js:103 | for a non-empty range the percentage is within half a point of `100 * present / total`, a half rounded up |
| AttendanceSummary.PercentBounds | client/js/pages/attendance-summary.js:103 | 100 when every session was attended, 0 when none was, never above 100 |
| AttendanceSummary.SummaryRowOf | client/js/pages/attendance-summary.js:98-117 | a member's line: total the number of recent sessions, present at most the total, the percentage at most 100, the streak at most the number of all sessions |
| AttendanceSummary.SummaryRows | client/js/pages/attendance-summary.js:87-118 | one line per member the search keeps, in order, each over the recent sessions |
| AttendanceSummary.TopPercent | client/js/pages/attendance-summary.js:122-124 | at most five lines, highest percentage first, taken from the lines |
| AttendanceSummary.TopPercentLeavesNoHigher | client/js/pages/attendance-summary.js:122-124 | no line left out has a higher percentage than a line kept |
| AttendanceSummary.TopStreaks | client/js/pages/attendance-summary.js:125-127 | at most five lines, longest streak first, taken from the lines |
| AttendanceSummary.TopStreaksLeavesNoLonger | client/js/pages/attendance-summary.js:125-127 | no line left out has a longer streak than a line kept |
| VisitorsStatsPage.ComputeStatus | client/js/pages/visitors-stats.js:60-66 | "No cards" iff no cards; else Cleared iff nothing is owed; else Pending iff nothing is paid; else Incomplete |
| VisitorsStatsPage.RowOf | client/js/pages/visitors-stats.js:47-58 | the visitor's fine is the shared summary of its cards, the unpaid cards times the rates, and its status the shared fine ladder |
| VisitorsStatsPage.Rows | client/js/pages/visitors-stats.js:68-102 | one line per visitor the search keeps, in order |
| VisitorsStatsPage.SaveCheck | client/js/pages/visitors-stats.js:143-172 | sent exactly when all four inputs are finite numbers at least 0, and then exactly the numbers entered; otherwise "Values must be non-negative." and nothing sent |
| VisitorsStatsPage.ServerAcceptsSavedCards | client/js/pages/visitors-stats.js:164-172 | whatever the form sends passes the stats route's checks, which stores the counts as sent and caps each paid counter at its card count |
| VisitorsObligationsPage.SessionPaid | client/js/pages/visitors-obligations.js:87 | a session without a record counts as paid 0 |
| VisitorsObligationsPage.RowOf | client/js/pages/visitors-obligations.js:86-92 | the play fee owed is what is left of the 1000, the fines are the shared summary, the total their sum, and the status the obligations ladder on the total and everything paid |
| VisitorsObligationsPage.RowLaws | client/js/pages/visitors-obligations.js:88-92 | at non-negative rates the total is at least the play fee owed, which is at least 0; Cleared exactly when the session is paid in full and no fine is owed; a session without a payment owes the full 1000 and is never Cleared |
| VisitorsObligationsPage.Rows | client/js/pages/visitors-obligations.js:107-115 | one line per visitor the search keeps, in order |
| PaymentStatus.MonthlyExpected | server/lib/paymentStatus.js:2-3 | an empty or missing schedule costs 0 |
| FeeCopies.CopiedMonthlyExpected | client/js/pages/reports.js:97-98 | an empty schedule gives 0 in the copies too |
| Overview.GetOverview | server/routes/overview.js:23-87 | the route answers the overview of the members as read, and its persistence branch never writes, so the backfilled createdAt values are never saved |
| Overview.GetOverviewPersisting | server/routes/overview.js:40-59 | the intended route: same answer, and when some member lacked createdAt the backfilled list is written once |

## Left out

- File and network I/O are left out: `fs` reads and writes, the JSON files, Express routing, `fetch`/`apiFetch`. The store is an in-memory `Store` object, and a backup or a write is an event appended to its `trace`.
- `server/lib/backup.js` is one `Backup` event in the trace. Its timestamped file copies are not modelled.
- Ids (`nanoid`, `crypto.randomUUID`), clocks (`new Date()`, `Date.now()`) and the current year, month and day are parameters, because they cannot be computed.
- Calendar arithmetic is not modelled because it depends on the time zone: `buildSaturdayList`, `getSaturdays`, `isSaturday`, `getLatestAttendanceDate`, `isFutureDate`, and the mixing of local time with `toISOString`. The session dates are a given sequence, and "is a Saturday" is a predicate passed as a parameter.
- ProfilePage: the list of the last six sessions on the profile is not modelled, because it is built from the date list above and is display only.
- Floating point is not modelled. Percentages use exact whole-number rounding with halves rounded up, where the code uses `Math.round` on a float. It is not modelled what `Math.round` does on values that are not exactly halves. Rank-bar widths and `formatRelativeTime` are left out.
- Js.ToNumber reads a string as a number only when, after trimming, it is an optional sign followed by decimal digits (or is empty). Decimals, exponents, hex and `Infinity` are read as not a number, and so are objects and arrays. Amounts and card counts are integers throughout.
- `Number(x) || 0` is read as "absent or not a number gives 0", without reproducing every NaN rule.
- `localeCompare` on names and keys is read as string order by Unicode code point (`Text.StrLt`). For characters outside the Basic Multilingual Plane this differs from UTF-16 code-unit order. Locale collation is not modelled.
- ClientYearlyFeeAgreesWithServer: holds only because FeeCopies.ClientYearlyFee reads the stored fees with `Number(x) || 0` as the server does. The pages add the stored value as it is, so a missing fee gives NaN and a string fee concatenates. The two agree only for the finite numbers that PUT /settings stores (server/routes/settings.js:53-66).
- FeeCopies.ClientYearlyFee, ReportsPage.YearlyLines, ReportsPage.RenderYearly, ReportsPage.RenderFines, ObligationsPage.RowOf, VisitorsStatsPage.RowOf, VisitorsObligationsPage.RowOf and Fines.SummaryOf (as the profile page uses it, client/js/pages/profile.js:230-231) take the yearly fees and the fine rates as integers. The fine rates are read raw at client/js/pages/visitors-stats.js:55-56 and client/js/pages/visitors-obligations.js:72-73 as well. The pages use `state.settings.fees.*` and `state.settings.discipline.*` raw, so a missing or non-numeric setting (NaN, string concatenation) is not modelled. The settings route stores only finite non-negative fees. It does not validate the fine rates.
- ReportsPage.MonthlyLines, ReportsPage.RenderMonthly and ObligationsPage's `Selection.monthlyExpected` take the month's fee as an integer parameter. The pages' copied lookup returns the stored amount raw (FeeCopies.CopiedMonthlyExpected, which can be a string, FeeCopies.CopyDiffersOnNonNumericAmount). Nothing in the model ties that parameter to it.
- Text.ToLower folds only the ASCII letters A-Z, where `toLowerCase` folds all of Unicode. This affects the case-insensitive matching of Search.QueryOf, Search.Matches, Notes.QueryOf, Notes.Keep, CsvImport.Normalize and CsvImport.Key on names with non-ASCII letters.
- Notes.NoteTime: note times are integers, where the route compares `new Date(...)` values. An unparsable date is NaN there (server/routes/notes.js:36, 43). Every comparison with NaN is false, so such a note passes both date filters and makes the sort's comparator NaN. That case is not modelled.
- SettingsRoute.CurrencyOk counts the characters of the trimmed symbol. The route's `length` counts UTF-16 code units, so a symbol outside the Basic Multilingual Plane counts once here and twice there.
- A `null` element of the `updates` array makes the attendance routes throw on the property read (server/routes/attendance.js:37, server/routes/visitors.js:188). The model's update entries are always records, so that error path is not modelled.
- Concurrent requests and last-writer-wins races on the JSON files are left out, because every route is modelled as one sequential transformation.
- VisitorsObligationsPage: the client helper `window.paymentStatus.statusFromPaid` is not part of this model. The page's call is read as the server's `statusFromPaid`, which that helper mirrors.
- The client pages `visitors.js` and `visitors-payments.js` are not modelled. Besides the unseen `window.paymentStatus` helper they hold only label mapping and DOM work.
- The attendance-entry pages `attendance.js` and `visitors-attendance.js` are not modelled, because they are date-driven session lists and checkbox state.
- These client pages are display or form plumbing and are not modelled:
  - `dashboard.js`, `players.js`, `settings.js`, `notes.js` and `activity.js` in the client, with their pagination display;
  - `app.js` and `sidebar-loader.js`;
  - `server/routes/players.js` and `server/server.js`.
- Rendering, modals, toasts and navigation are not modelled. The helpers `formatCurrency`, `formatStatusLabel`, `formatDisplayName` and `populateSelect` are display only and are left out too.
- In-place sorts (`Array.prototype.sort`) are modelled on sequences, as a stable sort returning a new sequence. This covers Seqs.Sort, ObligationsPage.SortRows, StatsPage.SortPlayers, AttendanceSummary.TopPercent/TopStreaks, Notes.Results and Activity.LatestActivity. Aliasing of the sorted array is not modelled. JavaScript's sort is also stable, so the order of equal elements is the same.
- PaymentsPage: `getLatestKey` collects the keys into a set instead of an array with repeats. Only its maximum is used, so nothing observable changes.
- StatsPage: a sort key other than the four columns cannot occur in the model, because the column is an enumerated type.

## Findings

| source | as written | input that shows it | evidently intended | confidence | as-written member | corrected member |
|---|---|---|---|---|---|---|
| server/routes/overview.js:56-59 | the `missingCreatedAt` test runs over `db.players` after the `map` has already set `createdAt` on every member, so it is always false and db.json is never written | any db.json with a member lacking `createdAt`: the response shows the epoch date, but the file keeps the member without one | test for a missing `createdAt` before the backfill, and write db.json when one was missing | not executed | Overview.GetOverview (with Overview.BackfillLeavesNoneMissing) | Overview.GetOverviewPersisting (with Overview.PersistedMembersHaveCreatedAt) |
| client/js/pages/reports.js:235 | the fines "Outstanding" is `owedTotal - clearedTotal`, but `owedTotal` already excludes the paid cards, so the cleared amount is taken off twice | one member with 2 yellow cards, 1 paid, fines 500/1000: Total Owed 500, Total Cleared 500, Outstanding 0, while the row says Incomplete with 500 owed | Outstanding is what is still owed: the value of all cards minus what is cleared, which equals the owed total | not executed | ReportsPage.RenderFines (with ReportsPage.OutstandingAsWritten and ReportsPage.OutstandingAsWrittenMissesOwedFine) | ReportsPage.FinesOutstanding |
