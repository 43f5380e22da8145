/** The example run of the orchestrator's entry point: two queues of five
    events each, padded with three empty queues so that the five queues the
    orchestrator scans exist. */
module Scenario {
  import opened Events
  import opened Rounds
  import opened Orchestration

  /** The example data: the entry point's two queues of five events each,
      padded with three empty queues. */
  method ExampleQueues() returns (q0: seq<seq<Event>>)
    ensures SecondQueueAhead(q0)
    ensures q0[1][0].timestamp == 3 && q0[1][0].data == "Event2-1"
    ensures q0[1][1].timestamp == 6 && q0[1][1].data == "Event2-2"
    ensures q0[1][2].timestamp == 7 && q0[1][2].data == "Event2-3"
  {
    var e11 := new Event(1, "Event1-1");
    var e12 := new Event(2, "Event1-2");
    var e13 := new Event(5, "Event1-3");
    var e14 := new Event(9, "Event1-4");
    var e15 := new Event(14, "Event1-5");
    var e21 := new Event(3, "Event2-1");
    var e22 := new Event(6, "Event2-2");
    var e23 := new Event(7, "Event2-3");
    var e24 := new Event(10, "Event2-4");
    var e25 := new Event(15, "Event2-5");
    var queue1 := [e11, e12, e13, e14, e15];
    var queue2 := [e21, e22, e23, e24, e25];
    q0 := [queue1, queue2, [], [], []];
  }

  /** The events written out by the example run: the first three events of
      the second queue, in order. */
  method ExampleRun() returns (timestamps: seq<int>, data: seq<string>)
    ensures timestamps == [3, 6, 7]
    ensures data == ["Event2-1", "Event2-2", "Event2-3"]
  {
    var q0 := ExampleQueues();
    var orchestrator := new EventOrchestrator(q0);
    QueueInBacklog(q0, 1);
    orchestrator.ProcessMostRecentEvents();
    var out := orchestrator.PrintOutgoingQueue();
    SecondQueueWins(q0, out, orchestrator.incoming);
    timestamps := [out[0].timestamp, out[1].timestamp, out[2].timestamp];
    data := [out[0].data, out[1].data, out[2].data];
  }

  /** Five queues, the last three empty, and the head of the first queue
      older than each of the first three events of the second. */
  predicate SecondQueueAhead(q0: seq<seq<Event>>)
  {
    && |q0| == ScannedQueues && q0[2] == q0[3] == q0[4] == []
    && q0[0] != [] && |q0[1]| >= 3
    && forall k :: 0 <= k < 3 ==> q0[0][0].timestamp < q0[1][k].timestamp
  }

  /** With the first queue's head older than the first three events of the
      second queue and the other scanned queues empty, every round of a
      three-round run takes the head of the second queue. */
  lemma SecondQueueWins(q0: seq<seq<Event>>, out: seq<Event>, qs: seq<seq<Event>>)
    requires SecondQueueAhead(q0)
    requires IsRun(q0, out, qs) && |out| == 3
    ensures out == q0[1][..3]
  {
    var q1 := q0[1 := q0[1][1..]];
    var q2 := q1[1 := q0[1][2..]];
    OnlyMostRecentHead(q0, 1, out[0]);
    assert IsRun(q1, out[1..], qs);
    OnlyMostRecentHead(q1, 1, out[1]);
    assert IsRun(q2, out[2..], qs) by {
      assert out[1..][1..] == out[2..];
    }
    OnlyMostRecentHead(q2, 1, out[2]);
  }
}
