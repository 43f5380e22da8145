/** How the orchestrator fills its auxiliary min-heap: every peeked head is
    offered to it, and it is kept to the most recent events offered, at most
    three of them. */
module HeapOffers {
  import opened Events
  import opened PriorityQueues

  /** The heap never holds more than this many events. */
  const HeapCapacity := 3

  /** No event in `dropped` is more recent than an event in `kept`. */
  ghost predicate Dominates(kept: multiset<Event>, dropped: multiset<Event>)
  {
    forall x, y :: x in dropped && y in kept ==> x.timestamp <= y.timestamp
  }

  /** `kept` is a window of the most recent events offered, the others having
      been `dropped`: it holds at most `HeapCapacity` events, it is full as
      soon as anything was dropped, and nothing dropped is more recent than
      anything kept. */
  ghost predicate RecentWindow(kept: multiset<Event>, dropped: multiset<Event>)
  {
    && |kept| <= HeapCapacity
    && (dropped != multiset{} ==> |kept| == HeapCapacity)
    && Dominates(kept, dropped)
  }

  /** `kept'` is what a heap holding `kept`, at most `HeapCapacity` events,
      holds once `e` is offered to it: `e` is added while there is room; once
      full, the heap is unchanged exactly when `e` is no more recent than
      everything held, and otherwise an oldest event, strictly older than
      `e`, has made way for it. */
  ghost predicate OfferedTo(kept: multiset<Event>, e: Event, kept': multiset<Event>)
  {
    && |kept'| == (if |kept| < HeapCapacity then |kept| + 1 else |kept|)
    && (|kept| < HeapCapacity ==> kept' == kept + multiset{e})
    && (|kept| == HeapCapacity ==>
         ((kept' == kept) <==> (forall x :: x in kept ==> e.timestamp <= x.timestamp)))
    && (|kept| == HeapCapacity && kept' != kept ==>
         exists m :: m in kept && IsMinimum(m, kept) && m.timestamp < e.timestamp
           && kept' == kept - multiset{m} + multiset{e})
  }

  /** Offers one event to the bounded heap: it is added while the heap has
      room; once full, it replaces an oldest event only when it is strictly
      more recent than that event, and is dropped otherwise. */
  method Offer(heap: MinHeap, e: Event)
    requires heap.Count() <= HeapCapacity
    modifies heap
    ensures OfferedTo(old(heap.Contents()), e, heap.Contents())
  {
    if heap.Count() < HeapCapacity {
      heap.Enqueue(e);
    } else {
      var oldest := heap.Peek();
      if e.timestamp > oldest.timestamp {
        var m := heap.Dequeue();
        heap.Enqueue(e);
        assert m.timestamp == oldest.timestamp;
        assert heap.Contents()[m] < old(heap.Contents())[m];
      }
    }
  }

  /** Offers the events one by one, in order, to the bounded heap. What was
      held and what was offered ends up either held or dropped, and the heap
      stays a window of the most recent of them. */
  method OfferAll(heap: MinHeap, events: seq<Event>, ghost dropped: multiset<Event>)
      returns (ghost dropped': multiset<Event>)
    requires RecentWindow(heap.Contents(), dropped)
    modifies heap
    ensures heap.Contents() + dropped' == old(heap.Contents()) + dropped + multiset(events)
    ensures RecentWindow(heap.Contents(), dropped')
  {
    dropped' := dropped;
    for k := 0 to |events|
      invariant heap.Contents() + dropped' == old(heap.Contents()) + dropped + multiset(events[..k])
      invariant RecentWindow(heap.Contents(), dropped')
    {
      ghost var before := heap.Contents();
      var e := events[k];
      Offer(heap, e);
      ghost var was := dropped';
      dropped' := OfferOutcome(before, dropped', e, heap.Contents());
      OfferedPrefix(events, k, heap.Contents() + dropped', before + was,
                    old(heap.Contents()) + dropped);
    }
    assert events[..|events|] == events;
  }

  /** Whatever one offer does, the event offered ends up held or dropped and
      the heap stays a window of the most recent events. */
  lemma OfferOutcome(kept: multiset<Event>, dropped: multiset<Event>, e: Event, kept': multiset<Event>)
      returns (dropped': multiset<Event>)
    requires RecentWindow(kept, dropped)
    requires OfferedTo(kept, e, kept')
    ensures kept' + dropped' == kept + dropped + multiset{e}
    ensures RecentWindow(kept', dropped')
  {
    if |kept| < HeapCapacity {
      dropped' := dropped;
    } else if kept' == kept {
      dropped' := dropped + multiset{e};
      OfferDropped(kept, dropped, e);
    } else {
      var m :| m in kept && IsMinimum(m, kept) && m.timestamp < e.timestamp
        && kept' == kept - multiset{m} + multiset{e};
      dropped' := dropped + multiset{m};
      OfferReplaced(kept, dropped, e, m);
    }
  }

  /** An event no more recent than anything held may be dropped. */
  lemma OfferDropped(kept: multiset<Event>, dropped: multiset<Event>, e: Event)
    requires Dominates(kept, dropped)
    requires forall x :: x in kept ==> e.timestamp <= x.timestamp
    ensures Dominates(kept, dropped + multiset{e})
  {
  }

  /** An oldest held event may make room for a strictly more recent one. */
  lemma OfferReplaced(kept: multiset<Event>, dropped: multiset<Event>, e: Event, m: Event)
    requires Dominates(kept, dropped)
    requires IsMinimum(m, kept) && m.timestamp < e.timestamp
    ensures kept - multiset{m} + multiset{e} + (dropped + multiset{m}) == kept + dropped + multiset{e}
    ensures Dominates(kept - multiset{m} + multiset{e}, dropped + multiset{m})
  {
    assert kept == kept - multiset{m} + multiset{m};
    forall x, y | x in dropped + multiset{m} && y in kept - multiset{m} + multiset{e}
      ensures x.timestamp <= y.timestamp
    {
      if y != e {
        assert y in kept;
      }
    }
  }

  /** Bookkeeping for one more offer in a run of offers. */
  lemma OfferedPrefix(events: seq<Event>, k: nat, now: multiset<Event>, before: multiset<Event>, start: multiset<Event>)
    requires k < |events|
    requires now == before + multiset{events[k]}
    requires before == start + multiset(events[..k])
    ensures now == start + multiset(events[..k + 1])
  {
    assert events[..k + 1] == events[..k] + [events[k]];
  }
}
