/** Events and the recency order the orchestrator ranks them by. */
module Events {

  /** A timestamped event. Events are objects: two events are the same event
      only when they are the same object, even if their fields agree. */
  class Event {
    const timestamp: int
    const data: string

    constructor (timestamp: int, data: string)
      ensures this.timestamp == timestamp && this.data == data
    {
      this.timestamp := timestamp;
      this.data := data;
    }
  }

  /** Most recent first: timestamps never increase along the sequence. */
  predicate MostRecentFirst(s: seq<Event>)
  {
    forall i, j :: 0 <= i < j < |s| ==> s[i].timestamp >= s[j].timestamp
  }

  /** Inserts `e` into a most-recent-first sequence, keeping it so. */
  function InsertByRecency(s: seq<Event>, e: Event): (r: seq<Event>)
    requires MostRecentFirst(s)
    ensures multiset(r) == multiset(s) + multiset{e}
    ensures |r| == |s| + 1
    ensures r[0] == e || (s != [] && r[0] == s[0])
    ensures MostRecentFirst(r)
  {
    if s == [] || e.timestamp >= s[0].timestamp then
      ConsRecent(e, s);
      [e] + s
    else
      var rest := InsertByRecency(s[1..], e);
      assert s == [s[0]] + s[1..];
      assert multiset([s[0]] + rest) == multiset{s[0]} + multiset(rest);
      ConsRecent(s[0], rest);
      [s[0]] + rest
  }

  /** An event at least as recent as the head of a most-recent-first
      sequence may be put in front of it. */
  lemma ConsRecent(x: Event, s: seq<Event>)
    requires MostRecentFirst(s)
    requires s != [] ==> x.timestamp >= s[0].timestamp
    ensures MostRecentFirst([x] + s)
  {
  }

  /** Sorts events most recent first. The caller relies on nothing but this
      contract, so the order among events with equal timestamps is left open,
      as it is for the unstable sort the orchestrator calls. */
  method SortByRecency(events: seq<Event>) returns (sorted: seq<Event>)
    ensures multiset(sorted) == multiset(events)
    ensures MostRecentFirst(sorted)
  {
    sorted := [];
    var k := 0;
    while k < |events|
      invariant k <= |events|
      invariant multiset(sorted) == multiset(events[..k])
      invariant MostRecentFirst(sorted)
    {
      assert events[..k + 1] == events[..k] + [events[k]];
      sorted := InsertByRecency(sorted, events[k]);
      k := k + 1;
    }
    assert events[..k] == events;
  }

  /** The first element of a most-recent-first sequence is at least as recent
      as every element of it. */
  lemma {:induction false} FirstIsMostRecent(s: seq<Event>, x: Event)
    requires MostRecentFirst(s)
    requires x in multiset(s)
    ensures x.timestamp <= s[0].timestamp
  {
    var j :| 0 <= j < |s| && s[j] == x;
    if j > 0 {
      assert s[0].timestamp >= s[j].timestamp;
    }
  }
}
