/** The live task timeline: one list of messages per task, written by the
    `task:message` event handler, which may be delivered late, out of order or twice. */
module TaskMessages {
  import opened StableSort

  datatype Message = Message(taskId: string, seqNo: int, payload: string)

  type Cache = map<string, seq<Message>>

  function SeqNo(m: Message): int { m.seqNo }

  function Lookup(c: Cache, task: string): seq<Message> {
    if task in c then c[task] else []
  }

  predicate HasSeq(ms: seq<Message>, n: int) {
    exists m :: m in ms && m.seqNo == n
  }

  /** What one event does to a task's list. */
  ghost function Merge(prev: seq<Message>, m: Message): seq<Message> {
    if HasSeq(prev, m.seqNo) then prev else Sort(prev + [m], SeqNo)
  }

  ghost function Deliver(c: Cache, m: Message): Cache {
    c[m.taskId := Merge(Lookup(c, m.taskId), m)]
  }

  ghost function DeliverAll(c: Cache, ms: seq<Message>): Cache
    decreases |ms|
  {
    if |ms| == 0 then c else DeliverAll(Deliver(c, ms[0]), ms[1..])
  }

  /** The query client entries the handler writes. */
  class Timeline {
    var entries: Cache

    method OnTaskMessage(m: Message)
      modifies this
      ensures entries == Deliver(old(entries), m)
    {
      var prev := if m.taskId in entries then entries[m.taskId] else [];
      if HasSeq(prev, m.seqNo) {
        entries := entries[m.taskId := prev];
      } else {
        entries := entries[m.taskId := Sort(prev + [m], SeqNo)];
      }
    }
  }

  ghost predicate OrderedList(t: string, ms: seq<Message>) {
    StrictlySorted(ms, SeqNo) && forall m :: m in ms ==> m.taskId == t
  }

  /** Every list holds only its own task's messages, in strictly increasing order. */
  ghost predicate Ordered(c: Cache) {
    forall t :: t in c ==> OrderedList(t, c[t])
  }

  lemma MergeIsOrdered(prev: seq<Message>, m: Message)
    requires StrictlySorted(prev, SeqNo)
    ensures StrictlySorted(Merge(prev, m), SeqNo)
  {
    if !HasSeq(prev, m.seqNo) {
      SortedIsSorted(prev, SeqNo);
      SortSnoc(prev, m, SeqNo);
      InsertStrictlySorted(prev, m, SeqNo);
    }
  }

  lemma MergeMembers(prev: seq<Message>, m: Message, x: Message)
    ensures x in Merge(prev, m) <==> x in prev || (x == m && !HasSeq(prev, m.seqNo))
  {
    SortMembers(prev + [m], SeqNo);
  }

  lemma MergedListIsOrdered(prev: seq<Message>, m: Message)
    requires OrderedList(m.taskId, prev)
    ensures OrderedList(m.taskId, Merge(prev, m))
  {
    MergeIsOrdered(prev, m);
    forall x | x in Merge(prev, m) ensures x.taskId == m.taskId { MergeMembers(prev, m, x); }
  }

  lemma DeliverKeepsOrder(c: Cache, m: Message)
    requires Ordered(c)
    ensures Ordered(Deliver(c, m))
  {
    assert OrderedList(m.taskId, Lookup(c, m.taskId));
    MergedListIsOrdered(Lookup(c, m.taskId), m);
    forall t | t in Deliver(c, m) ensures OrderedList(t, Deliver(c, m)[t]) {
      if t != m.taskId { assert OrderedList(t, c[t]); }
    }
  }

  /** A delivery adds the message unless its number is taken. */
  lemma DeliverAdds(c: Cache, m: Message, x: Message)
    ensures x in Lookup(Deliver(c, m), x.taskId)
       <==> x in Lookup(c, x.taskId) || (x == m && !HasSeq(Lookup(c, m.taskId), m.seqNo))
  {
    MergeMembers(Lookup(c, m.taskId), m, x);
  }

  lemma {:induction false} DeliveriesKeepOrder(c: Cache, ms: seq<Message>)
    requires Ordered(c)
    ensures Ordered(DeliverAll(c, ms))
    decreases |ms|
  {
    if |ms| == 0 {
    } else {
      DeliverKeepsOrder(c, ms[0]);
      DeliveriesKeepOrder(Deliver(c, ms[0]), ms[1..]);
    }
  }

  /** Within the cache and the messages, a task and sequence number determine the message. */
  ghost predicate SeqDetermines(c: Cache, ms: seq<Message>) {
    forall x, y :: Known(c, ms, x) && Known(c, ms, y) && x.taskId == y.taskId && x.seqNo == y.seqNo ==> x == y
  }

  ghost predicate Known(c: Cache, ms: seq<Message>, x: Message) {
    x in ms || x in Lookup(c, x.taskId)
  }

  lemma KnownAfterDelivery(c: Cache, ms: seq<Message>)
    requires Ordered(c) && SeqDetermines(c, ms) && |ms| != 0
    ensures forall y :: Known(Deliver(c, ms[0]), ms[1..], y) <==> Known(c, ms, y)
  {
    var m, c' := ms[0], Deliver(c, ms[0]);
    forall y { DeliverAdds(c, m, y); }
    assert forall y :: y in ms <==> y == m || y in ms[1..];
    if HasSeq(Lookup(c, m.taskId), m.seqNo) {
      var z :| z in Lookup(c, m.taskId) && z.seqNo == m.seqNo;
      assert Known(c, ms, z) && Known(c, ms, m);
    }
  }

  /** After any deliveries the cache holds what it held plus what was delivered. */
  lemma {:induction false} DeliveredExactly(c: Cache, ms: seq<Message>, x: Message)
    requires Ordered(c) && SeqDetermines(c, ms)
    ensures x in Lookup(DeliverAll(c, ms), x.taskId) <==> Known(c, ms, x)
    decreases |ms|
  {
    if |ms| == 0 {
    } else {
      DeliverKeepsOrder(c, ms[0]);
      KnownAfterDelivery(c, ms);
      DeliveredExactly(Deliver(c, ms[0]), ms[1..], x);
    }
  }

  ghost function Tasks(ms: seq<Message>): set<string> {
    set m | m in ms :: m.taskId
  }

  lemma {:induction false} DeliveredTasks(c: Cache, ms: seq<Message>)
    ensures DeliverAll(c, ms).Keys == c.Keys + Tasks(ms)
    decreases |ms|
  {
    if |ms| == 0 {
    } else {
      DeliveredTasks(Deliver(c, ms[0]), ms[1..]);
      assert Tasks(ms) == {ms[0].taskId} + Tasks(ms[1..]) by {
        assert forall m :: m in ms <==> m == ms[0] || m in ms[1..];
      }
    }
  }

  ghost predicate SameMessages(ms: seq<Message>, ns: seq<Message>) {
    forall x :: x in ms <==> x in ns
  }

  lemma SameListForTask(c: Cache, ms: seq<Message>, ns: seq<Message>, t: string)
    requires Ordered(c) && SeqDetermines(c, ms) && SeqDetermines(c, ns) && SameMessages(ms, ns)
    ensures Lookup(DeliverAll(c, ms), t) == Lookup(DeliverAll(c, ns), t)
  {
    var a, b := DeliverAll(c, ms), DeliverAll(c, ns);
    DeliveriesKeepOrder(c, ms);
    DeliveriesKeepOrder(c, ns);
    forall x: Message ensures x in Lookup(a, t) <==> x in Lookup(b, t) {
      DeliveredExactly(c, ms, x);
      DeliveredExactly(c, ns, x);
    }
    StrictlySortedUnique(Lookup(a, t), Lookup(b, t), SeqNo);
  }

  lemma SameTasks(c: Cache, ms: seq<Message>, ns: seq<Message>)
    requires SameMessages(ms, ns)
    ensures DeliverAll(c, ms).Keys == DeliverAll(c, ns).Keys
  {
    DeliveredTasks(c, ms);
    DeliveredTasks(c, ns);
    assert Tasks(ms) == Tasks(ns);
  }

  lemma DeterminedAlike(c: Cache, ms: seq<Message>, ns: seq<Message>)
    requires SeqDetermines(c, ms) && SameMessages(ms, ns)
    ensures SeqDetermines(c, ns)
  {
    forall x ensures Known(c, ms, x) <==> Known(c, ns, x) {}
  }

  lemma SameLists(a: Cache, b: Cache)
    requires a.Keys == b.Keys && forall t :: Lookup(a, t) == Lookup(b, t)
    ensures a == b
  {
    forall t | t in a.Keys ensures a[t] == b[t] { assert Lookup(a, t) == Lookup(b, t); }
  }

  /** Reordering and duplicating deliveries does not change the final cache. */
  lemma {:induction false} DeliveryOrderIsIrrelevant(c: Cache, ms: seq<Message>, ns: seq<Message>)
    requires Ordered(c) && SeqDetermines(c, ms) && SameMessages(ms, ns)
    ensures DeliverAll(c, ms) == DeliverAll(c, ns)
  {
    DeterminedAlike(c, ms, ns);
    SameTasks(c, ms, ns);
    forall t ensures Lookup(DeliverAll(c, ms), t) == Lookup(DeliverAll(c, ns), t) {
      SameListForTask(c, ms, ns, t);
    }
    SameLists(DeliverAll(c, ms), DeliverAll(c, ns));
  }

  lemma {:induction false} CachedMessagesStay(c: Cache, ms: seq<Message>, x: Message)
    requires Ordered(c) && x in Lookup(c, x.taskId)
    ensures x in Lookup(DeliverAll(c, ms), x.taskId)
    decreases |ms|
  {
    if |ms| == 0 {
    } else {
      DeliverKeepsOrder(c, ms[0]);
      DeliverAdds(c, ms[0], x);
      CachedMessagesStay(Deliver(c, ms[0]), ms[1..], x);
    }
  }

  ghost predicate OrderIrrelevant(ms: seq<Message>) {
    forall ns :: SameMessages(ms, ns) ==> DeliverAll(map[], ms) == DeliverAll(map[], ns)
  }

  /** From an empty cache the outcome is independent of the order exactly when
      a sequence number determines its message: of two different messages with
      one number, whichever arrives first wins. */
  lemma OrderIrrelevantIff(ms: seq<Message>)
    ensures OrderIrrelevant(ms) <==> SeqDetermines(map[], ms)
  {
    if SeqDetermines(map[], ms) {
      forall ns | SameMessages(ms, ns) ensures DeliverAll(map[], ms) == DeliverAll(map[], ns) {
        DeliveryOrderIsIrrelevant(map[], ms, ns);
      }
    } else {
      var x, y :| Known(map[], ms, x) && Known(map[], ms, y) && x.taskId == y.taskId && x.seqNo == y.seqNo && x != y;
      CollisionBreaksOrder(ms, x, y);
    }
  }

  lemma OrderIrrelevantFor(ms: seq<Message>, x: Message)
    requires OrderIrrelevant(ms) && x in ms
    ensures DeliverAll(map[], [x] + ms) == DeliverAll(map[], ms)
  {
    RepeatedMessage(ms, x);
  }

  lemma CollisionBreaksOrder(ms: seq<Message>, x: Message, y: Message)
    requires x in ms && y in ms && x.taskId == y.taskId && x.seqNo == y.seqNo && x != y
    ensures !OrderIrrelevant(ms)
  {
    CollisionsDependOnOrder(ms, x, y);
    if OrderIrrelevant(ms) {
      OrderIrrelevantFor(ms, x);
      OrderIrrelevantFor(ms, y);
    }
  }

  lemma RepeatedMessage(ms: seq<Message>, x: Message)
    requires x in ms
    ensures SameMessages(ms, [x] + ms)
  {
  }

  lemma CollisionsDependOnOrder(ms: seq<Message>, x: Message, y: Message)
    requires x.taskId == y.taskId && x.seqNo == y.seqNo && x != y
    ensures DeliverAll(map[], [x] + ms) != DeliverAll(map[], [y] + ms)
  {
    FirstDeliveredWins(x, ms);
    FirstDeliveredWins(y, ms);
    DeliveriesKeepOrder(map[], [x] + ms);
    StrictKeysDiffer(Lookup(DeliverAll(map[], [x] + ms), x.taskId), SeqNo, x, y);
  }

  lemma FirstDeliveredWins(x: Message, ms: seq<Message>)
    ensures x in Lookup(DeliverAll(map[], [x] + ms), x.taskId)
  {
    var c: Cache := map[];
    assert ([x] + ms)[1..] == ms;
    DeliverAdds(c, x, x);
    DeliverKeepsOrder(c, x);
    CachedMessagesStay(Deliver(c, x), ms, x);
  }
}
