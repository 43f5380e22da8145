/** The event orchestrator: a set of incoming FIFO queues of events, one
    outgoing queue, and the greedy selection that moves the most recent
    peeked head to the outgoing queue until it holds three events. */
module Orchestration {
  import opened Events
  import opened PriorityQueues
  import opened Rounds
  import opened HeapOffers

  /** The outgoing queue is filled up to this many events. */
  const TargetCount := 3

  /** Declared by the orchestrator as its processing limit, but never read. */
  const MaxEvents := 5

  class EventOrchestrator {
    /** The incoming queues, each head first. */
    var incoming: seq<seq<Event>>
    /** The outgoing queue, head first. */
    var outgoing: seq<Event>

    /** Each given list becomes an incoming queue, in the same order and with
        its events in the same order; the outgoing queue starts empty. */
    constructor (incomingEvents: seq<seq<Event>>)
      ensures incoming == incomingEvents && outgoing == []
    {
      incoming := [];
      outgoing := [];
      new;
      for k := 0 to |incomingEvents|
        invariant incoming == incomingEvents[..k] && outgoing == []
      {
        incoming := incoming + [incomingEvents[k]];
      }
      assert incomingEvents[..|incomingEvents|] == incomingEvents;
    }

    /** The heads of the non-empty queues among the first five, in queue
        order; nothing is dequeued. */
    method PeekHeads() returns (currentEvents: seq<Event>)
      requires |incoming| >= ScannedQueues
      ensures currentEvents == Heads(incoming)
    {
      currentEvents := [];
      for i := 0 to ScannedQueues
        invariant currentEvents == HeadsUpTo(incoming, i)
      {
        if |incoming[i]| > 0 {
          currentEvents := currentEvents + [incoming[i][0]];
        }
      }
    }

    /** Dequeues `e` from the first of the first five queues whose head is
        that very event; no queue changes when none is. */
    method DequeueFirstHeadedBy(e: Event)
      requires |incoming| >= ScannedQueues
      modifies this`incoming
      ensures incoming == DequeueFrom(old(incoming), e)
    {
      for i := 0 to ScannedQueues
        invariant incoming == old(incoming)
        invariant FirstHeadedBy(incoming, e, 0) == FirstHeadedBy(incoming, e, i)
      {
        if |incoming[i]| > 0 && incoming[i][0] == e {
          incoming := incoming[i := incoming[i][1..]];
          return;
        }
      }
    }

    /** Moves events to the outgoing queue, one per round, until it holds
        three; a call that finds three or more already there changes nothing.
        The bounded min-heap lives for the whole call and takes no part in the
        choice of events. The caller must supply at least five queues and,
        among the first five, enough events to reach three. */
    method ProcessMostRecentEvents()
      requires |incoming| >= ScannedQueues
      requires |outgoing| >= TargetCount || Backlog(incoming) >= TargetCount - |outgoing|
      modifies this
      ensures |old(outgoing)| >= TargetCount ==> outgoing == old(outgoing) && incoming == old(incoming)
      ensures |outgoing| == if |old(outgoing)| >= TargetCount then |old(outgoing)| else TargetCount
      ensures outgoing[..|old(outgoing)|] == old(outgoing)
      ensures IsRun(old(incoming), outgoing[|old(outgoing)|..], incoming)
      ensures multiset(Flatten(incoming)) + multiset(outgoing)
        == multiset(Flatten(old(incoming))) + multiset(old(outgoing))
      ensures |incoming| == |old(incoming)|
      ensures forall j :: 0 <= j < |incoming| ==> SuffixOf(incoming[j], old(incoming)[j])
    {
      var minHeap := new MinHeap(HeapCapacity);
      ghost var offered: multiset<Event> := multiset{};
      ghost var dropped: multiset<Event> := multiset{};
      ghost var picks: seq<Event> := [];
      while |outgoing| < TargetCount
        invariant |incoming| >= ScannedQueues
        invariant outgoing == old(outgoing) + picks
        invariant |old(outgoing)| < TargetCount ==> |outgoing| <= TargetCount
        invariant |old(outgoing)| >= TargetCount ==> picks == []
        invariant |outgoing| >= TargetCount || Backlog(incoming) >= TargetCount - |outgoing|
        invariant IsRun(old(incoming), picks, incoming)
        invariant minHeap.Contents() + dropped == offered
        invariant RecentWindow(minHeap.Contents(), dropped)
        decreases TargetCount - |outgoing|
      {
        ghost var before := incoming;
        var moved, peeked, dropped' := Round(minHeap, dropped);
        offered := offered + multiset(peeked);
        dropped := dropped';
        RunExtend(old(incoming), picks, before, moved);
        AppendAssociates(old(outgoing), picks, [moved]);
        picks := picks + [moved];
      }
      AppendSplits(old(outgoing), picks);
      RunConserves(old(incoming), picks, incoming);
      RunOnlyDequeuesHeads(old(incoming), picks, incoming);
    }

    /** One round: peeks the heads of the first five queues, ranks them most
        recent first, offers them in that order to the heap, then dequeues a
        most recent head from the first queue it heads and enqueues it on the
        outgoing queue. */
    method Round(minHeap: MinHeap, ghost dropped: multiset<Event>)
        returns (moved: Event, ghost peeked: seq<Event>, ghost dropped': multiset<Event>)
      requires |incoming| >= ScannedQueues && Backlog(incoming) > 0
      requires RecentWindow(minHeap.Contents(), dropped)
      modifies this, minHeap
      ensures multiset(peeked) == multiset(Heads(old(incoming)))
      ensures minHeap.Contents() + dropped' == old(minHeap.Contents()) + dropped + multiset(peeked)
      ensures RecentWindow(minHeap.Contents(), dropped')
      ensures IsMostRecentHead(old(incoming), moved)
      ensures incoming == DequeueFrom(old(incoming), moved)
      ensures Backlog(incoming) + 1 == Backlog(old(incoming))
      ensures outgoing == old(outgoing) + [moved]
    {
      var currentEvents := PeekHeads();
      BacklogHasHead(incoming);
      currentEvents := SortByRecency(currentEvents);
      dropped' := OfferAll(minHeap, currentEvents, dropped);
      peeked := currentEvents;

      var mostRecentEvent := currentEvents[0];
      MostRecentOfSorted(incoming, currentEvents);
      DequeueFromMovesOne(incoming, mostRecentEvent);
      DequeueFirstHeadedBy(mostRecentEvent);

      outgoing := outgoing + [mostRecentEvent];
      moved := mostRecentEvent;
    }

    /** Empties the outgoing queue, yielding its events in the order they are
        written out. */
    method PrintOutgoingQueue() returns (printed: seq<Event>)
      modifies this`outgoing
      ensures printed == old(outgoing) && outgoing == []
    {
      printed := [];
      while |outgoing| > 0
        invariant printed + outgoing == old(outgoing)
      {
        var e := outgoing[0];
        outgoing := outgoing[1..];
        printed := printed + [e];
      }
    }
  }

  /** Stated apart so that the loop's proof sees only this fact about
      sequences, not the reasoning behind it. */
  lemma AppendAssociates(a: seq<Event>, b: seq<Event>, c: seq<Event>)
    ensures a + b + c == a + (b + c)
  {
  }

  /** Stated apart for the same reason as `AppendAssociates`. */
  lemma AppendSplits(a: seq<Event>, b: seq<Event>)
    ensures (a + b)[..|a|] == a && (a + b)[|a|..] == b
  {
  }

  /** The first of the ranked heads is a most recent head. */
  lemma MostRecentOfSorted(qs: seq<seq<Event>>, sorted: seq<Event>)
    requires |qs| >= ScannedQueues
    requires multiset(sorted) == multiset(Heads(qs))
    requires MostRecentFirst(sorted) && sorted != []
    ensures IsMostRecentHead(qs, sorted[0])
  {
    assert sorted[0] in multiset(Heads(qs));
    var j :| 0 <= j < |Heads(qs)| && Heads(qs)[j] == sorted[0];
    var i := HeadsUpToFrom(qs, ScannedQueues, j);
    forall k | 0 <= k < ScannedQueues && qs[k] != []
      ensures qs[k][0].timestamp <= sorted[0].timestamp
    {
      assert qs[k][0] in multiset(sorted);
      FirstIsMostRecent(sorted, qs[k][0]);
    }
  }
}
