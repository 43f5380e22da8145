/** An abstract min-priority queue of events keyed by timestamp, standing for
    the library priority queue the orchestrator fills. Only its observable
    behaviour is modelled: Peek and Dequeue yield an element of smallest
    timestamp, which one among equal timestamps being left open. */
module PriorityQueues {
  import opened Events

  /** `m` is held in `h` and no event in `h` is older than it. */
  ghost predicate IsMinimum(m: Event, h: multiset<Event>)
  {
    m in h && forall x :: x in h ==> m.timestamp <= x.timestamp
  }

  /** A position of an oldest event in a non-empty sequence. */
  function MinIndex(s: seq<Event>): (i: nat)
    requires s != []
    ensures i < |s|
    ensures forall j :: 0 <= j < |s| ==> s[i].timestamp <= s[j].timestamp
  {
    if |s| == 1 then 0
    else
      var k := MinIndex(s[1..]) + 1;
      if s[0].timestamp <= s[k].timestamp then 0 else k
  }

  lemma MinIndexIsMinimum(s: seq<Event>)
    requires s != []
    ensures IsMinimum(s[MinIndex(s)], multiset(s))
  {
    var i := MinIndex(s);
    forall x | x in multiset(s) ensures s[i].timestamp <= x.timestamp {
      var j :| 0 <= j < |s| && s[j] == x;
    }
  }

  class MinHeap {
    /** Storage; its order carries no meaning, only its multiset does. */
    var items: seq<Event>

    /** The events currently held. */
    ghost function Contents(): multiset<Event>
      reads this
    {
      multiset(items)
    }

    /** The initial capacity is only a sizing hint; the queue is unbounded. */
    constructor (initialCapacity: nat)
      ensures Contents() == multiset{}
    {
      items := [];
    }

    function Count(): (n: nat)
      reads this
      ensures n == |Contents()|
    {
      |items|
    }

    method Peek() returns (m: Event)
      requires Count() > 0
      ensures IsMinimum(m, Contents())
    {
      MinIndexIsMinimum(items);
      m := items[MinIndex(items)];
    }

    method Dequeue() returns (m: Event)
      requires Count() > 0
      modifies this
      ensures IsMinimum(m, old(Contents()))
      ensures Contents() == old(Contents()) - multiset{m}
      ensures Count() == old(Count()) - 1
    {
      MinIndexIsMinimum(items);
      var i := MinIndex(items);
      m := items[i];
      assert items == items[..i] + [m] + items[i + 1..];
      items := items[..i] + items[i + 1..];
    }

    method Enqueue(e: Event)
      modifies this
      ensures Contents() == old(Contents()) + multiset{e}
      ensures Count() == old(Count()) + 1
    {
      items := items + [e];
    }
  }
}
