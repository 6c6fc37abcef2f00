/**
 * computeStreak, which the profile page and the attendance summary page each carry
 * word for word: walking the session dates from the latest backwards, it counts the
 * sessions the member attended until the first one they missed.
 */
module Streak {
  import opened Js

  /** `attendance[date] === true`: only a stored `true` counts, not any truthy value. */
  predicate PresentOn(attendance: map<string, Value>, date: string)
  {
    date in attendance && attendance[date] == Bool(true)
  }

  /** The number of sessions at the end of `sessions` that were all attended. */
  function TrailingPresent(attendance: map<string, Value>, sessions: seq<string>): (r: nat)
    ensures r <= |sessions|
  {
    if sessions == [] || !PresentOn(attendance, sessions[|sessions| - 1]) then 0
    else 1 + TrailingPresent(attendance, sessions[..|sessions| - 1])
  }

  /**
   * The streak is exactly the run of attended sessions at the end: each of the last
   * `r` sessions was attended, and the one before them, if any, was missed.
   */
  lemma {:induction false} StreakIsTrailingRun(attendance: map<string, Value>, sessions: seq<string>)
    ensures var r := TrailingPresent(attendance, sessions);
      && (forall k :: |sessions| - r <= k < |sessions| ==> PresentOn(attendance, sessions[k]))
      && (r < |sessions| ==> !PresentOn(attendance, sessions[|sessions| - 1 - r]))
  {
    if sessions != [] && PresentOn(attendance, sessions[|sessions| - 1]) {
      var init := sessions[..|sessions| - 1];
      StreakIsTrailingRun(attendance, init);
      var r := TrailingPresent(attendance, sessions);
      forall k | |sessions| - r <= k < |sessions| ensures PresentOn(attendance, sessions[k]) {
        if k < |sessions| - 1 {
          assert sessions[k] == init[k];
        }
      }
      if r < |sessions| {
        assert sessions[|sessions| - 1 - r] == init[|init| - 1 - (r - 1)];
      }
    }
  }

  /** A missed latest session ends the streak, whatever the older history. */
  lemma MissedLastSessionGivesZero(attendance: map<string, Value>, sessions: seq<string>)
    requires sessions != [] && !PresentOn(attendance, sessions[|sessions| - 1])
    ensures TrailingPresent(attendance, sessions) == 0
  {
  }

  /** Sessions before a missed one do not affect the streak. */
  lemma {:induction false} HistoryBeforeAMissIsIgnored(attendance: map<string, Value>, older: seq<string>, recent: seq<string>)
    requires exists k :: 0 <= k < |recent| && !PresentOn(attendance, recent[k])
    ensures TrailingPresent(attendance, older + recent) == TrailingPresent(attendance, recent)
  {
    var all := older + recent;
    assert all[|all| - 1] == recent[|recent| - 1];
    if PresentOn(attendance, recent[|recent| - 1]) {
      var init := recent[..|recent| - 1];
      var k :| 0 <= k < |recent| && !PresentOn(attendance, recent[k]);
      assert k < |recent| - 1 && init[k] == recent[k];
      assert all[..|all| - 1] == older + init;
      HistoryBeforeAMissIsIgnored(attendance, older, init);
    }
  }

  /** computeStreak: the loop from the latest session back, stopping at the first miss. */
  method ComputeStreak(attendance: map<string, Value>, sessions: seq<string>) returns (count: nat)
    ensures count == TrailingPresent(attendance, sessions)
  {
    count := 0;
    var i := |sessions|;
    assert sessions[..i] == sessions;
    while i > 0
      invariant 0 <= i <= |sessions|
      invariant TrailingPresent(attendance, sessions) == count + TrailingPresent(attendance, sessions[..i])
      decreases i
    {
      if PresentOn(attendance, sessions[i - 1]) {
        assert sessions[..i][..i - 1] == sessions[..i - 1];
        count := count + 1;
        i := i - 1;
      } else {
        assert sessions[..i][i - 1] == sessions[i - 1];
        break;
      }
    }
  }
}
