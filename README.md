# Event orchestrator

A Dafny model of `EventOrchestrator` (`OrchestrationPseudo.cs`), together with proofs about it.
The orchestrator owns a list of incoming FIFO queues of timestamped events and one outgoing queue.
`ProcessMostRecentEvents` runs rounds until the outgoing queue holds three events. Each round:

- peeks the head of each non-empty queue among the first five;
- sorts those heads most recent first;
- offers them to a min-heap that keeps at most three events;
- dequeues the first-ranked head from the first queue whose head is that very object;
- enqueues it on the outgoing queue.

`PrintOutgoingQueue` drains the outgoing queue.

How each part is modelled:

- **Events.** `Event` is a Dafny class, so `==` between events is object identity, as at line 67 of the source.
- **The orchestrator.** It is a class `EventOrchestrator` with two fields that its methods reassign: `incoming: seq<seq<Event>>` (each queue head first) and `outgoing: seq<Event>`.
- **Its loops.** `ProcessMostRecentEvents` and the loops inside it are methods with `while`/`for` loops. Each is proved against value-level definitions in module `Rounds`:
  - `Heads` gives the events peeked in a round.
  - `FirstHeadedBy` and `DequeueFrom` give the identity-matching dequeue.
  - `IsRun` describes a sequence of rounds. At each step it allows any most recent head, so the tie order of the sort stays open.
- **The library containers.** The sort and the priority queue the source calls are `SortByRecency` and the class `MinHeap`. Each is specified only by what the library promises: a most-recent-first permutation, and some minimum, respectively.
- **The min-heap's state.** It is captured by the invariant `RecentWindow`: at most three events are held, and no event the heap turned away or evicted is more recent than one it holds. The heap lives for the whole call, as in the source, and takes no part in choosing the event moved.

Modules: `Events` (events.dfy), `PriorityQueues` (min_heap.dfy), `HeapOffers` (heap_offers.dfy), `Rounds` (rounds.dfy), `Orchestration` (orchestrator.dfy), `Scenario` (scenario.dfy).

## Model

| member | source | states |
|---|---|---|
| Events.Event.constructor | OrchestrationPseudo.cs:4-8 | An event carries the given timestamp and data. |
| Events.InsertByRecency | OrchestrationPseudo.cs:46 | Inserting into a most-recent-first sequence gives a most-recent-first sequence of the same events plus the new one. |
| Events.SortByRecency | OrchestrationPseudo.cs:45-46 | The result is a permutation of the heads and has non-increasing timestamps. The order among equal timestamps is left open. |
| Events.FirstIsMostRecent | OrchestrationPseudo.cs:46 | The first element of a most-recent-first sequence is at least as recent as any element of it. |
| PriorityQueues.MinIndex | OrchestrationPseudo.cs:55 | A position of an oldest event in a non-empty sequence. |
| PriorityQueues.MinHeap.constructor | OrchestrationPseudo.cs:31 | A new priority queue is empty, whatever capacity hint it is given. |
| PriorityQueues.MinHeap.Count | OrchestrationPseudo.cs:51 | The count is the number of events held. |
| PriorityQueues.MinHeap.Peek | OrchestrationPseudo.cs:55 | Yields a held event with no older event held. |
| PriorityQueues.MinHeap.Dequeue | OrchestrationPseudo.cs:57 | Removes and yields one oldest held event; nothing else changes and the count drops by one. |
| PriorityQueues.MinHeap.Enqueue | OrchestrationPseudo.cs:53 | Adds exactly the event; the count grows by one. |
| HeapOffers.Offer | OrchestrationPseudo.cs:51-59 | Below capacity the event is added. At capacity the heap is unchanged exactly when the event is no newer than every held event. Otherwise one oldest event, strictly older than the offered one, is replaced by it. |
| HeapOffers.OfferAll | OrchestrationPseudo.cs:49-60 | After offering the ranked heads in order, each event is either held or dropped, nothing is lost or invented, and the heap stays a window of at most three of the most recent events offered. |
| HeapOffers.OfferOutcome | OrchestrationPseudo.cs:51-59 | Any outcome of one offer keeps the window invariant and accounts for the offered event. |
| HeapOffers.OfferReplaced | OrchestrationPseudo.cs:55-58 | Evicting an oldest held event for a strictly more recent one keeps every dropped event no newer than every held one. |
| Rounds.HeadsUpTo | OrchestrationPseudo.cs:37-43 | Exactly one event is peeked per non-empty queue among the first n (the count is the number of such queues), and every such queue's head is among those peeked. |
| Rounds.HeadsUpToFrom | OrchestrationPseudo.cs:39-41 | Every peeked event is the head of one of the queues scanned. |
| Rounds.FirstHeadedBy | OrchestrationPseudo.cs:65-72 | Finds the first scanned queue whose head is the object itself, and no earlier queue is headed by it. It gives five when there is none. |
| Rounds.BacklogHasHead | OrchestrationPseudo.cs:64 | Whenever a scanned queue holds an event, some head is peeked, so the first ranked head exists. |
| Rounds.DequeueFromShape | OrchestrationPseudo.cs:65-72 | Dequeuing a peeked head removes it from the first scanned queue it heads. Every other queue is unchanged, and each queue ends as a suffix of itself. |
| Rounds.DequeueFromMovesOne | OrchestrationPseudo.cs:62-72 | One round removes exactly the moved event from the incoming events, counted by identity, and lowers the scanned backlog by one. |
| Rounds.FlattenDequeue | OrchestrationPseudo.cs:69 | Dequeuing one queue's head removes exactly that event from the events of all queues. |
| Rounds.OnlyMostRecentHead | OrchestrationPseudo.cs:64-72 | When one scanned head is strictly the most recent, it is the only event a round can move, and it comes off its own queue. |
| Rounds.RunExtend | OrchestrationPseudo.cs:33-76 | A sequence of rounds followed by one more round is a sequence of rounds. |
| Rounds.RunConserves | OrchestrationPseudo.cs:33-76 | Over any number of rounds, the events left in the queues plus the events moved are exactly the events at the start, and the scanned backlog drops by one per round. |
| Rounds.RunOnlyDequeuesHeads | OrchestrationPseudo.cs:62-72 | Over any number of rounds, each queue only loses events from its head, and the queues after the fifth are untouched. |
| Orchestration.EventOrchestrator.constructor | OrchestrationPseudo.cs:19-26 | Incoming queue i holds exactly the i-th given list, in order, and the outgoing queue is empty. |
| Orchestration.EventOrchestrator.PeekHeads | OrchestrationPseudo.cs:36-43 | The loop collects, in queue order, the heads of the non-empty queues among the first five, and dequeues nothing. |
| Orchestration.EventOrchestrator.DequeueFirstHeadedBy | OrchestrationPseudo.cs:65-72 | The loop dequeues the event from the first scanned queue whose head is that object, and only from it. |
| Orchestration.EventOrchestrator.Round | OrchestrationPseudo.cs:35-75 | The event moved in a round is a head at least as recent as every peeked head. It leaves the first queue it heads and is appended to the outgoing queue. The heap is offered every peeked head and stays bounded. |
| Orchestration.EventOrchestrator.ProcessMostRecentEvents | OrchestrationPseudo.cs:28-77 | With three or more outgoing events the call changes nothing. Otherwise it runs exactly as many rounds as it takes to bring the outgoing count up to three, and ends with three. Earlier outgoing events are kept in order, and every moved event was a most recent head when moved. No event is lost or duplicated, and each queue only loses heads. |
| Orchestration.EventOrchestrator.PrintOutgoingQueue | OrchestrationPseudo.cs:79-86 | Yields the outgoing events in queue order and leaves the outgoing queue empty. |
| Orchestration.MostRecentOfSorted | OrchestrationPseudo.cs:46-64 | The first of the sorted heads is a most recent head of the scanned queues. |
| Scenario.ExampleQueues | OrchestrationPseudo.cs:94-112 | Builds the two example queues of five events, padded with three empty queues; the first three events of the second queue are newer than the first queue's head. |
| Scenario.SecondQueueWins | OrchestrationPseudo.cs:94-108 | With the example data, each of the three rounds must take the next head of the second queue. |
| Scenario.ExampleRun | OrchestrationPseudo.cs:92-117 | The example writes out the events with timestamps 3, 6 and 7, that is Event2-1, Event2-2 and Event2-3. |

## Left out

- The console output of `PrintOutgoingQueue` is I/O. The drain returns the events in the order they would be written.
- The internals of the library priority queue and of the library sort are not modelled. `MinHeap` keeps its events in an unordered sequence and finds a minimum by a linear scan. `SortByRecency` sorts by insertion. Callers rely only on the contracts.
- Events.SortByRecency: the tie order of the library sort is unspecified, and so is which equally old event the priority queue yields. The model leaves both open, so `ProcessMostRecentEvents` guarantees that `IsRun` holds for its picks; it does not fix one particular sequence of picks.
- The source reads past the end of the list of queues when fewer than five are given (lines 39 and 67). The model makes five queues a precondition. The entry point at line 112 passes only two queues, so `Scenario.ExampleRun` pads the example with three empty queues.
- Running out of events is also a precondition. When no scanned queue has a head, the source indexes an empty list at line 64. The model instead requires that the first five queues together hold enough events to reach three outgoing events. Nothing models early termination or a short output, because the source has none.
- The outgoing target and the heap capacity are the constants 3, as in the source. The target is not a parameter and is not validated. `MaxEvents` (line 16) is declared and never used, in the source as in the model.
- The min-heap is created once per call (line 31) and keeps its contents across rounds; it is not rebuilt each round. The loop at line 33 has no handling for running out of events.
- `ProcessMostRecentEvents` does not report the heap's final state, because the heap is local to the call in the source too. Its invariant is stated and proved for each round in `Round`.
- `Event`'s setters are never used by the orchestrator, so the timestamp and data of an event are immutable in the model.
