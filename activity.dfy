/**
 * The activity log (server/routes/activity.js): logActivity appends one entry to
 * activity.json, and GET returns the ten most recent entries, latest first.
 */
module Activity {
  import opened Club
  import opened Seqs

  /**
   * logActivity(message): appends `{id, message, timestamp}` and writes the log back.
   * The function takes the message only; a second argument a caller passes (the
   * promote route passes a type) is not part of the entry.
   */
  method LogActivity(st: Store, id: string, message: string, timestamp: int)
    modifies st
    ensures st.activity == old(st.activity) + [ActivityEntry(id, message, timestamp)]
    ensures st.trace == old(st.trace) + [WriteActivity]
    ensures st.players == old(st.players) && st.settings == old(st.settings)
    ensures st.visitors == old(st.visitors) && st.notes == old(st.notes)
  {
    st.SaveActivity(st.activity + [ActivityEntry(id, message, timestamp)]);
  }

  /** The order of the activity list: the entry's timestamp. */
  function TimestampKey(e: ActivityEntry): int
  {
    e.timestamp
  }

  /**
   * GET /activity: sorted latest first and cut to ten. At most ten entries come back,
   * in non-increasing timestamp order, all taken from the log.
   */
  function LatestActivity(activity: seq<ActivityEntry>): (r: seq<ActivityEntry>)
    ensures |r| == if |activity| < 10 then |activity| else 10
    ensures forall i, j :: 0 <= i < j < |r| ==> r[i].timestamp >= r[j].timestamp
    ensures multiset(r) <= multiset(activity)
  {
    TopBy(activity, TimestampKey, 10)
  }

  /** Every entry GET /activity leaves out is no later than every entry it returns. */
  lemma LatestActivityLeavesNoLater(activity: seq<ActivityEntry>, x: ActivityEntry, y: ActivityEntry)
    requires x in multiset(activity) - multiset(LatestActivity(activity)) && y in LatestActivity(activity)
    ensures x.timestamp <= y.timestamp
  {
    TopByLeavesNoGreater(activity, TimestampKey, 10, x, y);
  }
}
