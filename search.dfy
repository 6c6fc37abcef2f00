/**
 * The search box of the client pages (obligations, stats, attendance summary, visitor
 * stats and visitor obligations): the typed text is trimmed and lower-cased, and a
 * record is kept when the query is empty or occurs in its lower-cased name or nickname.
 */
module Search {
  import opened Text
  import opened Seqs
  import opened Club

  /** `searchInput.value.trim().toLowerCase()`. */
  function QueryOf(input: string): string
  {
    ToLower(Trim(input))
  }

  /** `!query || name.toLowerCase().includes(query) || nickname.toLowerCase().includes(query)`. */
  predicate Matches(query: string, name: string, nickname: string)
  {
    query == "" || Contains(ToLower(name), query) || Contains(ToLower(nickname), query)
  }

  /** The members the search keeps, in their order. */
  function SearchPlayers(players: seq<Player>, query: string): (r: seq<Player>)
    ensures forall p :: p in r <==> p in players && Matches(query, p.name, p.nickname)
    ensures |r| <= |players|
    ensures query == "" ==> r == players
  {
    Filter(players, (p: Player) => Matches(query, p.name, p.nickname))
  }

  /** The visitors the search keeps, in their order. */
  function SearchVisitors(visitors: seq<Visitor>, query: string): (r: seq<Visitor>)
    ensures forall v :: v in r <==> v in visitors && Matches(query, v.name, v.nickname)
    ensures |r| <= |visitors|
    ensures query == "" ==> r == visitors
  {
    Filter(visitors, (v: Visitor) => Matches(query, v.name, v.nickname))
  }

  /** A name that holds the query keeps its record whatever else is typed around it. */
  lemma NameContainingQueryMatches(query: string, name: string, nickname: string, before: string, after: string)
    requires ToLower(name) == before + query + after
    ensures Matches(query, name, nickname)
  {
    ContainsIffOccurs(ToLower(name), query);
    assert OccursAt(ToLower(name), query, |before|) by {
      assert ToLower(name)[|before|..|before| + |query|] == query;
    }
  }
}
