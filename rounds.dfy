/** The round-by-round meaning of the orchestrator's selection, stated on
    values: the incoming queues are a sequence of FIFO queues (head first),
    and a run is the list of events moved to the outgoing queue. */
module Rounds {
  import opened Events

  /** Only the first five incoming queues are ever peeked or dequeued. */
  const ScannedQueues := 5

  /** `e` is, itself, the head of queue `i`. */
  predicate HeadedBy(qs: seq<seq<Event>>, i: nat, e: Event)
    requires i < |qs|
  {
    qs[i] != [] && qs[i][0] == e
  }

  /** The heads of the non-empty queues among the first `n`, in queue order. */
  function HeadsUpTo(qs: seq<seq<Event>>, n: nat): (hs: seq<Event>)
    requires n <= |qs|
    ensures |hs| == |set i | 0 <= i < n && qs[i] != []|
    ensures forall i :: 0 <= i < n && qs[i] != [] ==> qs[i][0] in hs
  {
    if n == 0 then
      []
    else
      var before := HeadsUpTo(qs, n - 1);
      var nonEmpty := set i | 0 <= i < n - 1 && qs[i] != [];
      if qs[n - 1] != [] then
        assert (set i | 0 <= i < n && qs[i] != []) == nonEmpty + {n - 1};
        before + [qs[n - 1][0]]
      else
        assert (set i | 0 <= i < n && qs[i] != []) == nonEmpty;
        before
  }

  /** Every peeked event is the head of one of the queues peeked. */
  lemma {:induction false} HeadsUpToFrom(qs: seq<seq<Event>>, n: nat, j: nat) returns (i: nat)
    requires n <= |qs| && j < |HeadsUpTo(qs, n)|
    ensures i < n && HeadedBy(qs, i, HeadsUpTo(qs, n)[j])
  {
    var before := HeadsUpTo(qs, n - 1);
    if j < |before| {
      i := HeadsUpToFrom(qs, n - 1, j);
    } else {
      i := n - 1;
    }
  }

  /** The events the orchestrator peeks in one round. */
  function Heads(qs: seq<seq<Event>>): seq<Event>
    requires |qs| >= ScannedQueues
  {
    HeadsUpTo(qs, ScannedQueues)
  }

  /** `e` heads one of the scanned queues and no scanned queue has a more
      recent head. */
  ghost predicate IsMostRecentHead(qs: seq<seq<Event>>, e: Event)
    requires |qs| >= ScannedQueues
  {
    && (exists i :: 0 <= i < ScannedQueues && HeadedBy(qs, i, e))
    && forall i :: 0 <= i < ScannedQueues && qs[i] != [] ==> qs[i][0].timestamp <= e.timestamp
  }

  /** The first scanned queue, from `i` on, whose head is the object `e`;
      `ScannedQueues` when there is none. */
  function FirstHeadedBy(qs: seq<seq<Event>>, e: Event, i: nat): (k: nat)
    requires |qs| >= ScannedQueues && i <= ScannedQueues
    ensures i <= k <= ScannedQueues
    ensures k < ScannedQueues ==> HeadedBy(qs, k, e)
    ensures forall j :: i <= j < k ==> !HeadedBy(qs, j, e)
    decreases ScannedQueues - i
  {
    if i == ScannedQueues then i
    else if HeadedBy(qs, i, e) then i
    else FirstHeadedBy(qs, e, i + 1)
  }

  /** The queues after `e` is dequeued from the first scanned queue it heads;
      the queues are unchanged when it heads none. */
  function DequeueFrom(qs: seq<seq<Event>>, e: Event): (r: seq<seq<Event>>)
    requires |qs| >= ScannedQueues
    ensures |r| == |qs|
  {
    var k := FirstHeadedBy(qs, e, 0);
    if k < ScannedQueues then qs[k := qs[k][1..]] else qs
  }

  /** `picks` is a possible sequence of rounds from `qs`, ending in `qs'`:
      each round takes a most recent peeked head and dequeues it from the
      first scanned queue whose head it is. */
  ghost predicate IsRun(qs: seq<seq<Event>>, picks: seq<Event>, qs': seq<seq<Event>>)
    decreases |picks|
  {
    |qs| >= ScannedQueues &&
    if picks == [] then qs' == qs
    else IsMostRecentHead(qs, picks[0]) && IsRun(DequeueFrom(qs, picks[0]), picks[1..], qs')
  }

  /** All events of all queues, queue by queue. */
  function Flatten(qs: seq<seq<Event>>): seq<Event>
  {
    if qs == [] then [] else qs[0] + Flatten(qs[1..])
  }

  /** The number of events waiting in the scanned queues. */
  function Backlog(qs: seq<seq<Event>>): nat
    requires |qs| >= ScannedQueues
  {
    |Flatten(qs[..ScannedQueues])|
  }

  /** `a` is what is left of queue `b` after dequeuing some of its heads. */
  predicate SuffixOf(a: seq<Event>, b: seq<Event>)
  {
    |a| <= |b| && a == b[|b| - |a|..]
  }

  // ---------------------------------------------------------------------
  // Lemmas about the queues

  /** Dequeuing the head of queue `i` removes exactly that event from the
      events of all queues. */
  lemma {:induction false} FlattenDequeue(qs: seq<seq<Event>>, i: nat)
    requires i < |qs| && qs[i] != []
    ensures multiset(Flatten(qs[i := qs[i][1..]])) + multiset{qs[i][0]} == multiset(Flatten(qs))
  {
    var q := qs[i][1..];
    if i == 0 {
      assert qs[i := q] == [q] + qs[1..];
      assert qs[i := q][1..] == qs[1..];
      assert qs[0] == [qs[0][0]] + q;
    } else {
      FlattenDequeue(qs[1..], i - 1);
      assert qs[i := q][1..] == qs[1..][i - 1 := q];
      assert qs[1..][i - 1] == qs[i];
      assert Flatten(qs[i := q]) == qs[0] + Flatten(qs[1..][i - 1 := q]);
      assert Flatten(qs) == qs[0] + Flatten(qs[1..]);
      calc {
        multiset(Flatten(qs[i := q])) + multiset{qs[i][0]};
        multiset(qs[0]) + (multiset(Flatten(qs[1..][i - 1 := q])) + multiset{qs[1..][i - 1][0]});
        multiset(qs[0]) + multiset(Flatten(qs[1..]));
        multiset(Flatten(qs));
      }
    }
  }

  lemma {:induction false} FlattenUpdateLength(qs: seq<seq<Event>>, i: nat, q: seq<Event>)
    requires i < |qs|
    ensures |Flatten(qs[i := q])| + |qs[i]| == |Flatten(qs)| + |q|
  {
    if i > 0 {
      FlattenUpdateLength(qs[1..], i - 1, q);
      assert qs[i := q][1..] == qs[1..][i - 1 := q];
    }
  }

  lemma {:induction false} FlattenEmpty(qs: seq<seq<Event>>)
    requires forall j :: 0 <= j < |qs| ==> qs[j] == []
    ensures Flatten(qs) == []
  {
    if qs != [] {
      FlattenEmpty(qs[1..]);
    }
  }

  /** A positive backlog means that some head is peeked. */
  lemma BacklogHasHead(qs: seq<seq<Event>>)
    requires |qs| >= ScannedQueues
    requires Backlog(qs) > 0
    ensures Heads(qs) != []
  {
    if forall j :: 0 <= j < ScannedQueues ==> qs[j] == [] {
      FlattenEmpty(qs[..ScannedQueues]);
    } else {
      var j :| 0 <= j < ScannedQueues && qs[j] != [];
      assert HeadedBy(qs, j, qs[j][0]);
      assert qs[j][0] in Heads(qs);
    }
  }

  /** The first scanned queue headed by a peeked head exists. */
  lemma FirstHeadedByFound(qs: seq<seq<Event>>, e: Event)
    requires |qs| >= ScannedQueues
    requires exists i :: 0 <= i < ScannedQueues && HeadedBy(qs, i, e)
    ensures FirstHeadedBy(qs, e, 0) < ScannedQueues
  {
    var i :| 0 <= i < ScannedQueues && HeadedBy(qs, i, e);
  }

  /** Dequeuing a peeked head takes it off the first scanned queue it heads
      and leaves every other queue as it was. */
  lemma DequeueFromShape(qs: seq<seq<Event>>, e: Event)
    requires |qs| >= ScannedQueues
    requires exists i :: 0 <= i < ScannedQueues && HeadedBy(qs, i, e)
    ensures var k := FirstHeadedBy(qs, e, 0);
      && k < ScannedQueues
      && qs[k][0] == e
      && DequeueFrom(qs, e) == qs[k := qs[k][1..]]
    ensures forall j :: 0 <= j < |qs| ==> SuffixOf(DequeueFrom(qs, e)[j], qs[j])
  {
    FirstHeadedByFound(qs, e);
    var k := FirstHeadedBy(qs, e, 0);
    forall j | 0 <= j < |qs| ensures SuffixOf(DequeueFrom(qs, e)[j], qs[j]) {
      if j != k {
        assert qs[j][|qs[j]| - |qs[j]|..] == qs[j];
      }
    }
  }

  /** Dequeuing a peeked head removes exactly that event from the events of
      all queues, and one event from the backlog. */
  lemma DequeueFromMovesOne(qs: seq<seq<Event>>, e: Event)
    requires |qs| >= ScannedQueues
    requires exists i :: 0 <= i < ScannedQueues && HeadedBy(qs, i, e)
    ensures multiset(Flatten(DequeueFrom(qs, e))) + multiset{e} == multiset(Flatten(qs))
    ensures Backlog(DequeueFrom(qs, e)) + 1 == Backlog(qs)
  {
    FirstHeadedByFound(qs, e);
    var k := FirstHeadedBy(qs, e, 0);
    var tail := qs[k][1..];
    assert DequeueFrom(qs, e) == qs[k := tail];
    FlattenDequeue(qs, k);
    BacklogUpdate(qs, k, tail);
  }

  lemma BacklogUpdate(qs: seq<seq<Event>>, k: nat, tail: seq<Event>)
    requires |qs| >= ScannedQueues && k < ScannedQueues
    ensures Backlog(qs[k := tail]) + |qs[k]| == Backlog(qs) + |tail|
  {
    assert qs[k := tail][..ScannedQueues] == qs[..ScannedQueues][k := tail];
    assert qs[..ScannedQueues][k] == qs[k];
    FlattenUpdateLength(qs[..ScannedQueues], k, tail);
  }

  /** Every event of a scanned queue counts towards the backlog. */
  lemma QueueInBacklog(qs: seq<seq<Event>>, i: nat)
    requires |qs| >= ScannedQueues && i < ScannedQueues
    ensures |qs[i]| <= Backlog(qs)
  {
    BacklogUpdate(qs, i, []);
  }

  /** When one scanned head is strictly more recent than every other one, it
      is the only possible choice of a round, and it is dequeued from its own
      queue. */
  lemma OnlyMostRecentHead(qs: seq<seq<Event>>, i: nat, x: Event)
    requires |qs| >= ScannedQueues && i < ScannedQueues && qs[i] != []
    requires forall j :: 0 <= j < ScannedQueues && j != i && qs[j] != [] ==> qs[j][0].timestamp < qs[i][0].timestamp
    requires IsMostRecentHead(qs, x)
    ensures x == qs[i][0]
    ensures DequeueFrom(qs, x) == qs[i := qs[i][1..]]
  {
    FirstHeadedByFound(qs, x);
  }

  lemma SuffixOfTrans(a: seq<Event>, b: seq<Event>, c: seq<Event>)
    requires SuffixOf(a, b) && SuffixOf(b, c)
    ensures SuffixOf(a, c)
  {
    assert c[|c| - |b|..][|b| - |a|..] == c[|c| - |a|..];
  }

  // ---------------------------------------------------------------------
  // Lemmas about runs

  /** A run extended by one more round is a run. */
  lemma {:induction false} RunExtend(qs: seq<seq<Event>>, picks: seq<Event>, mid: seq<seq<Event>>, e: Event)
    requires IsRun(qs, picks, mid)
    requires |mid| >= ScannedQueues && IsMostRecentHead(mid, e)
    ensures IsRun(qs, picks + [e], DequeueFrom(mid, e))
    decreases |picks|
  {
    if picks == [] {
      assert picks + [e] == [e];
      assert IsRun(DequeueFrom(qs, e), [], DequeueFrom(mid, e));
    } else {
      RunExtend(DequeueFrom(qs, picks[0]), picks[1..], mid, e);
      assert (picks + [e])[1..] == picks[1..] + [e];
    }
  }

  /** Every event is moved exactly once: what a run leaves in the queues and
      what it has picked are, together, the events it started with (counted
      by identity), and the backlog of the scanned queues drops by one per
      round. */
  lemma {:induction false} RunConserves(qs: seq<seq<Event>>, picks: seq<Event>, qs': seq<seq<Event>>)
    requires IsRun(qs, picks, qs')
    ensures |qs'| == |qs|
    ensures multiset(Flatten(qs')) + multiset(picks) == multiset(Flatten(qs))
    ensures Backlog(qs') + |picks| == Backlog(qs)
    decreases |picks|
  {
    if picks != [] {
      var e := picks[0];
      DequeueFromMovesOne(qs, e);
      RunConserves(DequeueFrom(qs, e), picks[1..], qs');
      assert picks == [e] + picks[1..];
    }
  }

  /** A run only ever dequeues heads: each queue ends as a suffix of what it
      was, so the events left keep their FIFO order, and the queues beyond the
      scanned ones are untouched. */
  lemma {:induction false} RunOnlyDequeuesHeads(qs: seq<seq<Event>>, picks: seq<Event>, qs': seq<seq<Event>>)
    requires IsRun(qs, picks, qs')
    ensures |qs'| == |qs|
    ensures forall j :: 0 <= j < |qs| ==> SuffixOf(qs'[j], qs[j])
    ensures forall j :: ScannedQueues <= j < |qs| ==> qs'[j] == qs[j]
    decreases |picks|
  {
    if picks == [] {
      forall j | 0 <= j < |qs| ensures SuffixOf(qs'[j], qs[j]) {
        assert qs[j][|qs[j]| - |qs[j]|..] == qs[j];
      }
    } else {
      var e := picks[0];
      var mid := DequeueFrom(qs, e);
      DequeueFromShape(qs, e);
      RunOnlyDequeuesHeads(mid, picks[1..], qs');
      forall j | 0 <= j < |qs| ensures SuffixOf(qs'[j], qs[j]) {
        SuffixOfTrans(qs'[j], mid[j], qs[j]);
      }
    }
  }
}
