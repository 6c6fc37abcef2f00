/**
 * The notes routes (server/routes/notes.js): GET searches, filters by date, sorts the
 * newest first and cuts one page; POST, PATCH and DELETE change notes.json.
 */
module Notes {
  import opened Wrappers
  import opened Js
  import opened Text
  import opened Club
  import opened Seqs

  const TextRequired := HttpError(400, "Note text is required.")

  // ---------------------------------------------------------------------
  // GET /notes

  /** `Math.max(1, Number(limit) || 20)`. */
  function PageLimit(limit: Value): (r: int)
    ensures r >= 1
    ensures NumberOr(limit, 20) >= 1 ==> r == NumberOr(limit, 20)
    ensures !IsFinite(limit) ==> r == 20
  {
    var n := NumberOr(limit, 20);
    if n > 1 then n else 1
  }

  /** `Math.max(1, Number(page) || 1)`. */
  function PageNumber(page: Value): (r: int)
    ensures r >= 1
    ensures NumberOr(page, 1) >= 1 ==> r == NumberOr(page, 1)
    ensures !IsFinite(page) ==> r == 1
  {
    var n := NumberOr(page, 1);
    if n > 1 then n else 1
  }

  /** The search text: `String(q || "").trim().toLowerCase()`. */
  function QueryOf(q: Value): string
  {
    ToLower(TextField(q))
  }

  /** The time a note sorts and filters by: `updatedAt || createdAt`. */
  function NoteTime(n: Note): int
  {
    if n.updatedAt.Some? then n.updatedAt.value else n.createdAt
  }

  /**
   * A note is kept when the search is empty or its lower-cased text includes it, and its
   * time is not before `fromTime` nor after `toTime`; a bound is None when its query
   * parameter is empty or not a date.
   */
  predicate Keep(n: Note, q: string, fromTime: Option<int>, toTime: Option<int>)
  {
    && (q == "" || Contains(ToLower(n.text), q))
    && (fromTime.None? || NoteTime(n) >= fromTime.value)
    && (toTime.None? || NoteTime(n) <= toTime.value)
  }

  /** The two filters, keeping the notes' order. */
  function Filtered(notes: seq<Note>, q: string, fromTime: Option<int>, toTime: Option<int>): (r: seq<Note>)
    ensures |r| <= |notes| && multiset(r) <= multiset(notes)
    ensures forall i :: 0 <= i < |r| ==> Keep(r[i], q, fromTime, toTime)
    ensures forall i :: 0 <= i < |notes| && Keep(notes[i], q, fromTime, toTime) ==> notes[i] in r
  {
    if notes == [] then []
    else
      var n := |notes| - 1;
      assert notes == notes[..n] + [notes[n]];
      var front := Filtered(notes[..n], q, fromTime, toTime);
      assert forall i :: 0 <= i < n ==> notes[..n][i] == notes[i];
      if Keep(notes[n], q, fromTime, toTime) then front + [notes[n]] else front
  }

  /** The last note is kept at the end exactly when it passes the filters. */
  lemma FilteredLast(s: seq<Note>, q: string, fromTime: Option<int>, toTime: Option<int>)
    requires s != []
    ensures var n := |s| - 1;
      Filtered(s, q, fromTime, toTime)
      == Filtered(s[..n], q, fromTime, toTime) + if Keep(s[n], q, fromTime, toTime) then [s[n]] else []
  {
  }

  /** The last note of `b` is the last of `a + b`, and is kept there exactly when it passes the filters. */
  lemma FilteredAppendLast(a: seq<Note>, b: seq<Note>, q: string, fromTime: Option<int>, toTime: Option<int>)
    requires b != []
    ensures var n := |b| - 1;
      Filtered(a + b, q, fromTime, toTime)
      == Filtered(a + b[..n], q, fromTime, toTime) + if Keep(b[n], q, fromTime, toTime) then [b[n]] else []
  {
    var n := |b| - 1;
    assert a + b == (a + b[..n]) + [b[n]];
    FilteredSnoc(a + b[..n], b[n], q, fromTime, toTime);
  }

  /** One more note: it is kept at the end exactly when it passes the filters. */
  lemma FilteredSnoc(s: seq<Note>, x: Note, q: string, fromTime: Option<int>, toTime: Option<int>)
    ensures Filtered(s + [x], q, fromTime, toTime)
            == Filtered(s, q, fromTime, toTime) + if Keep(x, q, fromTime, toTime) then [x] else []
  {
    assert (s + [x])[..|s|] == s;
  }

  /** Filtering keeps the order: the kept notes of `a + b` are those of `a`, then those of `b`. */
  lemma {:induction false} FilteredAppend(a: seq<Note>, b: seq<Note>, q: string, fromTime: Option<int>, toTime: Option<int>)
    ensures Filtered(a + b, q, fromTime, toTime) == Filtered(a, q, fromTime, toTime) + Filtered(b, q, fromTime, toTime)
  {
    if b == [] {
      assert a + b == a;
    } else {
      var n := |b| - 1;
      var front, last := b[..n], b[n];
      var k := if Keep(last, q, fromTime, toTime) then [last] else [];
      FilteredAppendLast(a, b, q, fromTime, toTime);
      FilteredLast(b, q, fromTime, toTime);
      FilteredAppend(a, front, q, fromTime, toTime);
      Seqs.AppendAssoc(Filtered(a, q, fromTime, toTime), Filtered(front, q, fromTime, toTime), k);
    }
  }

  /** Each note that passes the filters is kept as often as it occurs, and no other note is kept. */
  lemma {:induction false} FilteredMultiplicity(notes: seq<Note>, q: string, fromTime: Option<int>, toTime: Option<int>)
    ensures forall x :: multiset(Filtered(notes, q, fromTime, toTime))[x]
                        == if Keep(x, q, fromTime, toTime) then multiset(notes)[x] else 0
  {
    if notes != [] {
      var n := |notes| - 1;
      var init, last := notes[..n], notes[n];
      assert notes == init + [last];
      FilteredMultiplicity(init, q, fromTime, toTime);
      FilteredSnoc(init, last, q, fromTime, toTime);
      var k := if Keep(last, q, fromTime, toTime) then [last] else [];
      assert multiset(Filtered(notes, q, fromTime, toTime)) == multiset(Filtered(init, q, fromTime, toTime)) + multiset(k);
      assert multiset(notes) == multiset(init) + multiset{last};
    }
  }

  /** The positions of the notes the filters keep. */
  function KeptIndices(notes: seq<Note>, q: string, fromTime: Option<int>, toTime: Option<int>): set<nat>
  {
    set i: nat | i < |notes| && Keep(notes[i], q, fromTime, toTime)
  }

  /** The kept positions of a list with one more note: those of the front, and the new one if kept. */
  lemma KeptIndicesSnoc(notes: seq<Note>, q: string, fromTime: Option<int>, toTime: Option<int>)
    requires notes != []
    ensures var n := |notes| - 1;
      KeptIndices(notes, q, fromTime, toTime)
      == KeptIndices(notes[..n], q, fromTime, toTime) + if Keep(notes[n], q, fromTime, toTime) then {n} else {}
  {
    var n := |notes| - 1;
    var front := KeptIndices(notes[..n], q, fromTime, toTime);
    forall i: nat | i < n ensures (i in front) == (i in KeptIndices(notes, q, fromTime, toTime)) {
      assert notes[..n][i] == notes[i];
    }
  }

  /** The filtered list has one entry per kept position. */
  lemma {:induction false} FilteredCountsKept(notes: seq<Note>, q: string, fromTime: Option<int>, toTime: Option<int>)
    ensures |Filtered(notes, q, fromTime, toTime)| == |KeptIndices(notes, q, fromTime, toTime)|
  {
    if notes == [] {
      assert KeptIndices(notes, q, fromTime, toTime) == {};
    } else {
      var n := |notes| - 1;
      var init := notes[..n];
      FilteredCountsKept(init, q, fromTime, toTime);
      KeptIndicesSnoc(notes, q, fromTime, toTime);
      var front := KeptIndices(init, q, fromTime, toTime);
      assert n !in front;
      if Keep(notes[n], q, fromTime, toTime) {
        assert |front + {n}| == |front| + 1;
      }
    }
  }

  /** With no search and no bounds every note is kept. */
  lemma EmptySearchKeepsAll(notes: seq<Note>)
    ensures Filtered(notes, "", None, None) == notes
  {
    if notes != [] {
      var n := |notes| - 1;
      EmptySearchKeepsAll(notes[..n]);
      assert notes == notes[..n] + [notes[n]];
    }
  }

  /** The comparator `time(b) - time(a)`: the newer note comes first. */
  predicate Newer(a: Note, b: Note)
  {
    NoteTime(a) > NoteTime(b)
  }

  /** The search results, newest first (ties keep their order). */
  function Results(notes: seq<Note>, q: string, fromTime: Option<int>, toTime: Option<int>): (r: seq<Note>)
    ensures multiset(r) == multiset(Filtered(notes, q, fromTime, toTime))
    ensures forall i, j :: 0 <= i < j < |r| ==> NoteTime(r[i]) >= NoteTime(r[j])
  {
    var r := Sort(Filtered(notes, q, fromTime, toTime), Newer);
    assert StrictOrder(Newer);
    SortSorted(Filtered(notes, q, fromTime, toTime), Newer);
    r
  }

  /** `s.slice(start, end)` for `0 <= start <= end`. */
  function Slice<T>(s: seq<T>, start: nat, end: nat): (r: seq<T>)
    requires start <= end
    ensures |r| <= end - start
    ensures forall i :: 0 <= i < |r| ==> start + i < |s| && r[i] == s[start + i]
    ensures start <= |s| ==> r == s[start..if end < |s| then end else |s|]
    ensures start > |s| ==> r == []
  {
    if start >= |s| then [] else s[start..if end < |s| then end else |s|]
  }

  /** Euclidean division of a natural number by a positive one. */
  lemma DivMod(a: nat, b: int)
    requires b >= 1
    ensures a == (a / b) * b + a % b && 0 <= a % b < b
  {
  }

  lemma MulMonotone(x: int, y: int, b: int)
    requires b >= 1 && x <= y
    ensures x * b <= y * b
  {
    assert y * b - x * b == (y - x) * b;
  }

  /** `Math.max(1, Math.ceil(total / limit))`. */
  function TotalPages(total: nat, limit: int): (r: int)
    requires limit >= 1
    ensures r >= 1
    ensures total <= r * limit
    ensures total > 0 ==> (r - 1) * limit < total
  {
    if total == 0 then 1
    else
      var t := (total + limit - 1) / limit;
      DivMod(total + limit - 1, limit);
      assert (t - 1) * limit == t * limit - limit;
      MulMonotone(if t < 1 then t else 1, 1, limit);
      if t > 1 then t else 1
  }

  datatype NotesPage = NotesPage(items: seq<Note>, total: nat, page: int, totalPages: int)

  /** `(page - 1) * limit`, the index of a page's first item. */
  function PageStart(page: int, limit: int): (r: nat)
    requires page >= 1 && limit >= 1
    ensures r == (page - 1) * limit
  {
    MulMonotone(0, page - 1, limit);
    (page - 1) * limit
  }

  /** One page of the sorted results: items `(page - 1) * limit` up to `page * limit`. */
  function PageOf(sorted: seq<Note>, limit: int, page: int): (r: NotesPage)
    requires limit >= 1 && page >= 1
    ensures r.total == |sorted| && r.page == page && r.totalPages == TotalPages(|sorted|, limit)
    ensures |r.items| <= limit
    ensures r.items == Slice(sorted, PageStart(page, limit), PageStart(page, limit) + limit)
  {
    var start := PageStart(page, limit);
    NotesPage(Slice(sorted, start, start + limit), |sorted|, page, TotalPages(|sorted|, limit))
  }

  /**
   * GET /notes: at most `limit` items (at least 1; 20 by default) from page `page` (at
   * least 1), every item a kept note, newest first, with the total count of kept notes.
   */
  function ListNotes(notes: seq<Note>, limit: Value, page: Value, q: Value, fromTime: Option<int>, toTime: Option<int>)
    : (r: NotesPage)
    ensures r.page >= 1 && r.totalPages >= 1 && r.total <= r.totalPages * PageLimit(limit)
    ensures |r.items| <= PageLimit(limit)
    ensures r.total == |Filtered(notes, QueryOf(q), fromTime, toTime)|
    ensures r.total == |KeptIndices(notes, QueryOf(q), fromTime, toTime)|
    ensures forall i :: 0 <= i < |r.items| ==> Keep(r.items[i], QueryOf(q), fromTime, toTime)
    ensures forall i, j :: 0 <= i < j < |r.items| ==> NoteTime(r.items[i]) >= NoteTime(r.items[j])
  {
    FilteredCountsKept(notes, QueryOf(q), fromTime, toTime);
    var sorted := Results(notes, QueryOf(q), fromTime, toTime);
    var lim, pg := PageLimit(limit), PageNumber(page);
    PageItemsAreResults(notes, QueryOf(q), fromTime, toTime, lim, pg);
    PageOf(sorted, lim, pg)
  }

  /** The items of a page are kept notes, newest first, and the total counts every kept note. */
  lemma PageItemsAreResults(notes: seq<Note>, q: string, fromTime: Option<int>, toTime: Option<int>, limit: int, page: int)
    requires limit >= 1 && page >= 1
    ensures var sorted := Results(notes, q, fromTime, toTime);
      var r := PageOf(sorted, limit, page);
      && r.total == |Filtered(notes, q, fromTime, toTime)|
      && (forall i :: 0 <= i < |r.items| ==> Keep(r.items[i], q, fromTime, toTime))
      && (forall i, j :: 0 <= i < j < |r.items| ==> NoteTime(r.items[i]) >= NoteTime(r.items[j]))
  {
    var sorted := Results(notes, q, fromTime, toTime);
    var filtered := Filtered(notes, q, fromTime, toTime);
    assert |sorted| == |multiset(sorted)| == |multiset(filtered)| == |filtered|;
    PageOfSortedKept(sorted, filtered, q, fromTime, toTime, limit, page);
  }

  lemma PageOfSortedKept(sorted: seq<Note>, filtered: seq<Note>, q: string, fromTime: Option<int>, toTime: Option<int>,
                         limit: int, page: int)
    requires limit >= 1 && page >= 1
    requires multiset(sorted) == multiset(filtered)
    requires forall i :: 0 <= i < |filtered| ==> Keep(filtered[i], q, fromTime, toTime)
    requires forall i, j :: 0 <= i < j < |sorted| ==> NoteTime(sorted[i]) >= NoteTime(sorted[j])
    ensures var r := PageOf(sorted, limit, page);
      && (forall i :: 0 <= i < |r.items| ==> Keep(r.items[i], q, fromTime, toTime))
      && (forall i, j :: 0 <= i < j < |r.items| ==> NoteTime(r.items[i]) >= NoteTime(r.items[j]))
  {
    var r := PageOf(sorted, limit, page);
    var k := PageStart(page, limit);
    forall i | 0 <= i < |r.items| ensures Keep(r.items[i], q, fromTime, toTime) {
      assert r.items[i] == sorted[k + i];
      assert sorted[k + i] in multiset(filtered);
    }
    forall i, j | 0 <= i < j < |r.items| ensures NoteTime(r.items[i]) >= NoteTime(r.items[j]) {
      assert r.items[i] == sorted[k + i] && r.items[j] == sorted[k + j];
    }
  }

  /**
   * The pages partition the results: the i-th result is item `i % limit` of page
   * `i / limit + 1`, and that page is within `totalPages`.
   */
  lemma EveryResultOnItsPage(sorted: seq<Note>, limit: int, i: nat)
    requires limit >= 1 && i < |sorted|
    ensures var page := i / limit + 1;
      && page <= TotalPages(|sorted|, limit)
      && i % limit < |PageOf(sorted, limit, page).items|
      && PageOf(sorted, limit, page).items[i % limit] == sorted[i]
  {
    var page := i / limit + 1;
    var t := TotalPages(|sorted|, limit);
    DivMod(i, limit);
    assert (page - 1) * limit == (i / limit) * limit;
    if page > t {
      MulMonotone(t, i / limit, limit);
    }
    var start := PageStart(page, limit);
    assert start + i % limit == i;
  }

  /** A page past the last one is empty. */
  lemma PagePastTheEndIsEmpty(sorted: seq<Note>, limit: int, page: int)
    requires limit >= 1 && page > TotalPages(|sorted|, limit)
    ensures PageOf(sorted, limit, page).items == []
  {
    MulMonotone(TotalPages(|sorted|, limit), page - 1, limit);
  }

  // ---------------------------------------------------------------------
  // POST, PATCH and DELETE

  /** `req.body.tag ? String(req.body.tag).trim() : ""`. */
  function TagOf(tag: Value): string
  {
    if Truthy(tag) then Trim(StringOf(tag)) else ""
  }

  /** A new note: the trimmed text, created and updated now, `Boolean(pinned)`, the trimmed tag. */
  function NewNote(id: string, text: string, pinned: Value, tag: Value, now: int): (n: Note)
    ensures n.createdAt == now && n.updatedAt == Some(now) && NoteTime(n) == n.createdAt
    ensures n.id == id && n.text == text && n.pinned == Truthy(pinned) && n.tag == TagOf(tag)
  {
    Note(id, text, now, Some(now), Truthy(pinned), TagOf(tag))
  }

  /** POST /notes: blank text is rejected, else the note is appended and notes.json written. */
  method CreateNote(st: Store, text: Value, pinned: Value, tag: Value, id: string, now: int)
    returns (r: Result<Note, HttpError>)
    modifies st
    ensures TextField(text) == "" ==>
              r == Failure(TextRequired) && st.notes == old(st.notes) && st.trace == old(st.trace)
    ensures TextField(text) != "" ==>
              && r == Success(NewNote(id, TextField(text), pinned, tag, now))
              && st.notes == old(st.notes) + [r.value]
              && st.trace == old(st.trace) + [WriteNotes]
    ensures st.players == old(st.players) && st.settings == old(st.settings)
    ensures st.visitors == old(st.visitors) && st.activity == old(st.activity)
  {
    var t := TextField(text);
    if t == "" {
      return Failure(TextRequired);
    }
    var n := NewNote(id, t, pinned, tag, now);
    st.SaveNotes(st.notes + [n]);
    r := Success(n);
  }

  /**
   * The PATCH of one note: a text that is sent must not be blank; the text, `pinned` and
   * `tag` change only when sent (not undefined); `updatedAt` is always now; the id and
   * creation time are kept.
   */
  function EditNote(n: Note, text: Value, pinned: Value, tag: Value, now: int): (r: Result<Note, HttpError>)
    ensures r.Failure? <==> !text.Undefined? && TextField(text) == ""
    ensures r.Failure? ==> r.error == TextRequired
    ensures r.Success? ==>
              && r.value.text == (if text.Undefined? then n.text else TextField(text))
              && r.value.pinned == (if pinned.Undefined? then n.pinned else Truthy(pinned))
              && r.value.tag == (if tag.Undefined? then n.tag else TextField(tag))
              && r.value.updatedAt == Some(now)
              && r.value.id == n.id && r.value.createdAt == n.createdAt
  {
    if !text.Undefined? && TextField(text) == "" then Failure(TextRequired)
    else
      var t := if text.Undefined? then n.text else TextField(text);
      var p := if pinned.Undefined? then n.pinned else Truthy(pinned);
      var g := if tag.Undefined? then n.tag else TextField(tag);
      Success(n.(text := t, pinned := p, tag := g, updatedAt := Some(now)))
  }

  /** An edit that sends nothing only refreshes `updatedAt`. */
  lemma EmptyEditTouchesOnly(n: Note, now: int)
    ensures EditNote(n, Undefined, Undefined, Undefined, now) == Success(n.(updatedAt := Some(now)))
  {
  }

  /** PATCH /notes/:id: 404 for an unknown id; nothing is written on an error. */
  method PatchNote(st: Store, id: string, text: Value, pinned: Value, tag: Value, now: int)
    returns (r: Result<Note, HttpError>)
    modifies st
    ensures FindNote(old(st.notes), id).None? ==> r == Failure(NotFound)
    ensures FindNote(old(st.notes), id).Some? ==>
              r == EditNote(old(st.notes)[FindNote(old(st.notes), id).value], text, pinned, tag, now)
    ensures r.Failure? ==> st.notes == old(st.notes) && st.trace == old(st.trace)
    ensures r.Success? ==>
              && st.notes == old(st.notes)[FindNote(old(st.notes), id).value := r.value]
              && st.trace == old(st.trace) + [WriteNotes]
    ensures st.players == old(st.players) && st.settings == old(st.settings)
    ensures st.visitors == old(st.visitors) && st.activity == old(st.activity)
  {
    var found := FindNote(st.notes, id);
    if found.None? {
      return Failure(NotFound);
    }
    r := EditNote(st.notes[found.value], text, pinned, tag, now);
    if r.Success? {
      st.SaveNotes(st.notes[found.value := r.value]);
    }
  }

  /** DELETE /notes/:id: 404 for an unknown id, else exactly the first note with the id is removed. */
  method DeleteNote(st: Store, id: string) returns (r: Result<bool, HttpError>)
    modifies st
    ensures FindNote(old(st.notes), id).None? ==>
              r == Failure(NotFound) && st.notes == old(st.notes) && st.trace == old(st.trace)
    ensures FindNote(old(st.notes), id).Some? ==>
              && r == Success(true)
              && st.notes == RemoveAt(old(st.notes), FindNote(old(st.notes), id).value)
              && st.trace == old(st.trace) + [WriteNotes]
    ensures st.players == old(st.players) && st.settings == old(st.settings)
    ensures st.visitors == old(st.visitors) && st.activity == old(st.activity)
  {
    var found := FindNote(st.notes, id);
    if found.None? {
      return Failure(NotFound);
    }
    st.SaveNotes(RemoveAt(st.notes, found.value));
    r := Success(true);
  }
}
