/**
 * The k-way merge inside `DataList.Output` (DataList.cs) and `DataList3.Output`
 * (Collection3DataList.cs): one enumerator per in-memory sorted set, a sorted
 * queue holding at most one current record per set, duplicates across sets
 * skipped. The byte-level writing around it lives in `RunBuffer`.
 */
module KWay {
  import opened Records
  import opened Wrappers

  predicate SortedBufs(bufs: seq<seq<Node>>) { forall i :: 0 <= i < |bufs| ==> Sorted(bufs[i]) }

  // ---------------------------------------------------------------------
  // Reference result

  /** Adds the records of `xs` one by one to a sorted set view. */
  function InsertAll(s: seq<Node>, xs: seq<Node>): (r: seq<Node>)
    requires Sorted(s)
    ensures Sorted(r) && Elems(r) == Elems(s) + Elems(xs)
    decreases |xs|
  {
    if xs == [] then s
    else
      ElemsConcat([xs[0]], xs[1..]);
      assert xs == [xs[0]] + xs[1..];
      InsertAll(Insert(s, xs[0]), xs[1..])
  }

  /** Every record of every buffer once, in ascending order. */
  function SortedUnion(bufs: seq<seq<Node>>): (r: seq<Node>)
    ensures Sorted(r) && Elems(r) == UnionOf(bufs)
  {
    if bufs == [] then [] else InsertAll(SortedUnion(bufs[..|bufs| - 1]), bufs[|bufs| - 1])
  }

  // ---------------------------------------------------------------------
  // Enumerator positions

  /** `cur[i]` is how many records enumerator i has moved past. */
  predicate PosOk(bufs: seq<seq<Node>>, cur: seq<nat>)
  {
    |cur| == |bufs| && forall i :: 0 <= i < |bufs| ==> cur[i] <= |bufs[i]|
  }

  /** Records not yet reached by their enumerator. */
  function Pending(bufs: seq<seq<Node>>, cur: seq<nat>): nat
    requires PosOk(bufs, cur)
  {
    if bufs == [] then 0
    else Pending(bufs[..|bufs| - 1], cur[..|cur| - 1]) + (|bufs[|bufs| - 1]| - cur[|cur| - 1])
  }

  /** Moving enumerator i from cur[i] to p takes p - cur[i] records off the pending count. */
  lemma {:induction false} PendingMove(bufs: seq<seq<Node>>, cur: seq<nat>, i: nat, p: nat)
    requires PosOk(bufs, cur) && i < |bufs| && cur[i] <= p <= |bufs[i]|
    ensures PosOk(bufs, cur[i := p])
    ensures Pending(bufs, cur[i := p]) == Pending(bufs, cur) - (p - cur[i])
    decreases |bufs|
  {
    var n := |bufs|;
    var cur' := cur[i := p];
    if i < n - 1 {
      assert cur'[..n - 1] == cur[..n - 1][i := p];
      PendingMove(bufs[..n - 1], cur[..n - 1], i, p);
    } else {
      assert cur'[..n - 1] == cur[..n - 1];
    }
  }

  /** With nothing pending every enumerator is at its end. */
  lemma {:induction false} PendingZero(bufs: seq<seq<Node>>, cur: seq<nat>)
    requires PosOk(bufs, cur) && Pending(bufs, cur) == 0
    ensures forall i :: 0 <= i < |bufs| ==> cur[i] == |bufs[i]|
    decreases |bufs|
  {
    if bufs != [] {
      var n := |bufs|;
      PendingZero(bufs[..n - 1], cur[..n - 1]);
      forall i | 0 <= i < n ensures cur[i] == |bufs[i]| {
        if i < n - 1 { assert cur[..n - 1][i] == cur[i]; }
      }
    }
  }

  lemma {:induction false} PendingSnoc(bufs: seq<seq<Node>>, cur: seq<nat>, i: nat, j: nat)
    requires i < |bufs| && |cur| == i && PosOk(bufs[..i], cur) && j <= |bufs[i]|
    ensures PosOk(bufs[..i + 1], cur + [j])
    ensures Pending(bufs[..i + 1], cur + [j]) == Pending(bufs[..i], cur) + (|bufs[i]| - j)
  {
    assert bufs[..i + 1][..i] == bufs[..i];
    assert (cur + [j])[..i] == cur;
  }

  // ---------------------------------------------------------------------
  // The merge state

  /** A queue entry holds the current record of its enumerator. */
  predicate AtCursor(bufs: seq<seq<Node>>, cur: seq<nat>, e: Entry)
    requires |cur| == |bufs|
  {
    e.src < |bufs| && 0 < cur[e.src] <= |bufs[e.src]| && e.key == bufs[e.src][cur[e.src] - 1]
  }

  /**
   * The state between two iterations of the output loop: `count` is the
   * number of queued plus not yet enumerated records, an enumerator without
   * a queue entry is exhausted, everything enumerated was written or is
   * queued, and what was written is ascending and below every queued key.
   */
  predicate MergeInv(bufs: seq<seq<Node>>, queue: seq<Entry>, cur: seq<nat>, count: int, emitted: seq<Node>)
  {
    SortedBufs(bufs) && PosOk(bufs, cur) && SortedQ(queue)
    && QueueAtCursors(bufs, queue, cur) && IdleExhausted(bufs, queue, cur)
    && count == |queue| + Pending(bufs, cur)
    && Sorted(emitted) && BelowQueue(emitted, queue)
    && Consumed(bufs, queue, cur, emitted)
    && (forall x :: x in emitted ==> x in UnionOf(bufs))
  }

  predicate QueueAtCursors(bufs: seq<seq<Node>>, queue: seq<Entry>, cur: seq<nat>)
    requires |cur| == |bufs|
  {
    forall e :: e in queue ==> AtCursor(bufs, cur, e)
  }

  /** An enumerator without a queue entry has no records left. */
  predicate IdleExhausted(bufs: seq<seq<Node>>, queue: seq<Entry>, cur: seq<nat>)
    requires PosOk(bufs, cur)
  {
    forall i :: 0 <= i < |bufs| && cur[i] < |bufs[i]| ==> 0 < cur[i] && Entry(bufs[i][cur[i] - 1], i) in queue
  }

  predicate BelowQueue(emitted: seq<Node>, queue: seq<Entry>)
  {
    forall x, e :: x in emitted && e in queue ==> Less(x, e.key)
  }

  /** Every record an enumerator moved past was written or is queued. */
  predicate Consumed(bufs: seq<seq<Node>>, queue: seq<Entry>, cur: seq<nat>, emitted: seq<Node>)
    requires PosOk(bufs, cur)
  {
    forall i, j :: 0 <= i < |bufs| && 0 <= j < cur[i] ==> bufs[i][j] in emitted || ContainsKey(queue, bufs[i][j])
  }

  /** While records remain the queue is not empty, so `Keys[0]` exists. */
  lemma {:induction false} QueueNonEmpty(bufs: seq<seq<Node>>, queue: seq<Entry>, cur: seq<nat>, count: int, emitted: seq<Node>)
    requires MergeInv(bufs, queue, cur, count, emitted) && count > 0
    ensures queue != []
  {
    if queue == [] {
      assert forall i :: 0 <= i < |bufs| ==> cur[i] == |bufs[i]|;
      PendingAllDone(bufs, cur);
    }
  }

  /** Nothing is pending once every enumerator is at its end. */
  lemma {:induction false} PendingAllDone(bufs: seq<seq<Node>>, cur: seq<nat>)
    requires PosOk(bufs, cur) && forall i :: 0 <= i < |bufs| ==> cur[i] == |bufs[i]|
    ensures Pending(bufs, cur) == 0
    decreases |bufs|
  {
    if bufs != [] {
      var n := |bufs|;
      PendingAllDone(bufs[..n - 1], cur[..n - 1]);
    }
  }

  /** When the count reaches zero everything was written: the output holds every record once, ascending. */
  lemma {:induction false} MergeDone(bufs: seq<seq<Node>>, queue: seq<Entry>, cur: seq<nat>, emitted: seq<Node>)
    requires MergeInv(bufs, queue, cur, 0, emitted)
    ensures emitted == SortedUnion(bufs)
  {
    PendingZero(bufs, cur);
    forall x | x in UnionOf(bufs) ensures x in emitted {
      var i :| 0 <= i < |bufs| && x in bufs[i];
      var j :| 0 <= j < |bufs[i]| && bufs[i][j] == x;
      assert !ContainsKey(queue, x);
    }
    assert Elems(emitted) == UnionOf(bufs);
    SortedUnique(emitted, SortedUnion(bufs));
  }

  // ---------------------------------------------------------------------
  // The steps of the merge

  /**
   * The duplicate-skipping loop: starting from `b[p-1]`, moves past records
   * that are already queued; `next` is the first one that is not, or None
   * when the enumerator ran out. `skipped` is how often the loop decremented
   * the count.
   */
  method SkipDuplicates(b: seq<Node>, queue: seq<Entry>, p: nat) returns (p': nat, next: Option<Node>, skipped: nat)
    requires 0 < p <= |b|
    ensures p <= p' <= |b|
    ensures next.Some? ==> next.value == b[p' - 1] && !ContainsKey(queue, next.value)
    ensures next.None? ==> p' == |b|
    ensures forall j :: p - 1 <= j < p' - (if next.Some? then 1 else 0) ==> ContainsKey(queue, b[j])
    ensures skipped == p' - p + (if next.Some? then 0 else 1)
  {
    p', next, skipped := p, Some(b[p - 1]), 0;
    while next.Some? && ContainsKey(queue, next.value)
      invariant p <= p' <= |b|
      invariant next.Some? ==> next.value == b[p' - 1]
      invariant next.None? ==> p' == |b|
      invariant forall j :: p - 1 <= j < p' - (if next.Some? then 1 else 0) ==> ContainsKey(queue, b[j])
      invariant skipped == p' - p + (if next.Some? then 0 else 1)
      decreases |b| - p' + (if next.Some? then 1 else 0)
    {
      if p' < |b| {
        p' := p' + 1;
        next := Some(b[p' - 1]);
      } else {
        next := None;
      }
      skipped := skipped + 1;
    }
  }

  /** Entries in a queue without its head come from other enumerators than the head's. */
  lemma {:induction false} TailOtherSources(bufs: seq<seq<Node>>, queue: seq<Entry>, cur: seq<nat>)
    requires |cur| == |bufs| && SortedQ(queue) && queue != []
    requires forall e :: e in queue ==> AtCursor(bufs, cur, e)
    ensures forall e :: e in queue[1..] ==> e.src != queue[0].src && Less(queue[0].key, e.key)
  {
    SortedQTail(queue);
    assert queue[0] in queue;
    forall e | e in queue[1..] ensures e.src != queue[0].src && Less(queue[0].key, e.key) {
      var k :| 0 <= k < |queue[1..]| && queue[1..][k] == e;
      assert Keys(queue[1..])[k] == e.key && e.key in Keys(queue[1..]);
      assert e in queue;
    }
  }

  /**
   * One iteration of the output loop without the write: takes the smallest
   * queued record, moves its enumerator past duplicates and queues the next
   * record of that enumerator.
   */
  method Advance(bufs: seq<seq<Node>>, queue: seq<Entry>, cur: seq<nat>, count: int, ghost emitted: seq<Node>)
    returns (dn: Node, queue': seq<Entry>, cur': seq<nat>, count': int)
    requires MergeInv(bufs, queue, cur, count, emitted) && count > 0
    ensures queue != [] && dn == queue[0].key
    ensures MergeInv(bufs, queue', cur', count', emitted + [dn])
    ensures 0 <= count' < count
  {
    QueueNonEmpty(bufs, queue, cur, count, emitted);
    HeadInQueue(bufs, queue, cur);
    SortedQTail(queue);
    dn := queue[0].key;
    var i := queue[0].src;
    var q1 := queue[1..];
    count' := count - 1;
    cur' := cur;
    var next: Option<Node> := None;
    if cur[i] < |bufs[i]| {
      var p', skipped;
      p', next, skipped := SkipDuplicates(bufs[i], q1, cur[i] + 1);
      PendingMove(bufs, cur, i, p');
      cur' := cur[i := p'];
      count' := count' - skipped;
      assert forall j :: cur[i] <= j < cur'[i] - (if next.Some? then 1 else 0) ==> ContainsKey(q1, bufs[i][j]);
    }
    queue' := q1;
    if next.Some? {
      queue' := QInsert(q1, next.value, i);
    }
    StepFactsIntro(bufs, queue, cur, next, queue', cur');
    MergeStep(bufs, queue, cur, count, emitted, next, queue', cur', count');
  }

  /** What `Advance` establishes about the enumerator i of the head entry. */
  predicate StepFacts(bufs: seq<seq<Node>>, queue: seq<Entry>, cur: seq<nat>,
                      next: Option<Node>, queue': seq<Entry>, cur': seq<nat>)
    requires PosOk(bufs, cur) && SortedQ(queue) && queue != [] && queue[0].src < |bufs|
  {
    var i, q1 := queue[0].src, queue[1..];
    SortedQTail(queue);
    PosOk(bufs, cur') && (forall k :: 0 <= k < |cur| && k != i ==> cur'[k] == cur[k]) && cur[i] <= cur'[i]
    && (cur[i] == |bufs[i]| ==> cur'[i] == cur[i] && next.None?)
    && (next.Some? ==> cur[i] < cur'[i] && next.value == bufs[i][cur'[i] - 1] && !ContainsKey(q1, next.value))
    && (next.None? ==> cur'[i] == |bufs[i]|)
    && (forall j :: cur[i] <= j < cur'[i] - (if next.Some? then 1 else 0) ==> ContainsKey(q1, bufs[i][j]))
    && queue' == (if next.Some? then QInsert(q1, next.value, i) else q1)
  }

  /** `StepFacts` from its conjuncts, stated one by one. */
  lemma {:induction false} StepFactsIntro(bufs: seq<seq<Node>>, queue: seq<Entry>, cur: seq<nat>,
                       next: Option<Node>, queue': seq<Entry>, cur': seq<nat>)
    requires PosOk(bufs, cur) && SortedQ(queue) && queue != [] && queue[0].src < |bufs|
    requires PosOk(bufs, cur') && (forall k :: 0 <= k < |cur| && k != queue[0].src ==> cur'[k] == cur[k])
    requires cur[queue[0].src] <= cur'[queue[0].src]
    requires cur[queue[0].src] == |bufs[queue[0].src]| ==> cur'[queue[0].src] == cur[queue[0].src] && next.None?
    requires next.Some? ==> cur[queue[0].src] < cur'[queue[0].src] && next.value == bufs[queue[0].src][cur'[queue[0].src] - 1]
    requires next.Some? ==> !ContainsKey(queue[1..], next.value)
    requires next.None? ==> cur'[queue[0].src] == |bufs[queue[0].src]|
    requires forall j :: cur[queue[0].src] <= j < cur'[queue[0].src] - (if next.Some? then 1 else 0) ==>
      ContainsKey(queue[1..], bufs[queue[0].src][j])
    requires queue' == if next.Some? then QInsert(queue[1..], next.value, queue[0].src) else queue[1..]
    ensures StepFacts(bufs, queue, cur, next, queue', cur')
  {
  }

  lemma {:induction false} HeadInQueue(bufs: seq<seq<Node>>, queue: seq<Entry>, cur: seq<nat>)
    requires |cur| == |bufs| && QueueAtCursors(bufs, queue, cur) && queue != []
    ensures AtCursor(bufs, cur, queue[0])
  {
    assert queue[0] in queue;
  }

  /** Membership in the new queue. */
  lemma {:induction false} StepMembers(bufs: seq<seq<Node>>, queue: seq<Entry>, cur: seq<nat>,
                    next: Option<Node>, queue': seq<Entry>, cur': seq<nat>)
    requires PosOk(bufs, cur) && SortedQ(queue) && queue != [] && queue[0].src < |bufs|
    requires StepFacts(bufs, queue, cur, next, queue', cur')
    ensures SortedQ(queue')
    ensures forall e :: e in queue' <==> e in queue[1..] || (next.Some? && e == Entry(next.value, queue[0].src))
    ensures forall k :: ContainsKey(queue[1..], k) ==> ContainsKey(queue', k)
    ensures next.Some? ==> ContainsKey(queue', next.value)
    ensures |queue'| == |queue| - 1 + (if next.Some? then 1 else 0)
  {
    SortedQTail(queue);
    var q1 := queue[1..];
    if next.Some? {
      QInsertMembers(q1, next.value, queue[0].src);
      forall k | ContainsKey(q1, k) ensures ContainsKey(queue', k) {
        assert k in Elems(Keys(q1));
        assert k in Elems(Keys(queue'));
      }
      assert next.value in Elems(Keys(queue'));
    }
  }

  /** The written records stay ascending and below every queued key. */
  lemma {:induction false} StepOrder(bufs: seq<seq<Node>>, queue: seq<Entry>, cur: seq<nat>, emitted: seq<Node>,
                  next: Option<Node>, queue': seq<Entry>, cur': seq<nat>)
    requires SortedBufs(bufs) && PosOk(bufs, cur) && SortedQ(queue) && QueueAtCursors(bufs, queue, cur)
    requires Sorted(emitted) && BelowQueue(emitted, queue)
    requires queue != [] && queue[0].src < |bufs|
    requires StepFacts(bufs, queue, cur, next, queue', cur')
    ensures Sorted(emitted + [queue[0].key])
    ensures BelowQueue(emitted + [queue[0].key], queue')
  {
    var i, dn, q1 := queue[0].src, queue[0].key, queue[1..];
    HeadInQueue(bufs, queue, cur);
    TailOtherSources(bufs, queue, cur);
    StepMembers(bufs, queue, cur, next, queue', cur');
    assert forall x :: x in emitted ==> Less(x, dn);
    SortedSnoc(emitted, dn);
    if next.Some? {
      assert Less(dn, next.value) by {
        assert dn == bufs[i][cur[i] - 1];
        assert Sorted(bufs[i]);
      }
    }
    forall x, e | x in emitted + [dn] && e in queue' ensures Less(x, e.key) {
      if e in q1 {
        if x in emitted { assert e in queue; }
      } else {
        if x in emitted { LessTransitive(x, dn, e.key); }
      }
    }
  }

  /** Queue entries sit at their cursors, and a buffer without one is exhausted. */
  lemma {:induction false} StepCursors(bufs: seq<seq<Node>>, queue: seq<Entry>, cur: seq<nat>,
                    next: Option<Node>, queue': seq<Entry>, cur': seq<nat>)
    requires PosOk(bufs, cur) && SortedQ(queue) && QueueAtCursors(bufs, queue, cur) && IdleExhausted(bufs, queue, cur)
    requires queue != [] && queue[0].src < |bufs|
    requires StepFacts(bufs, queue, cur, next, queue', cur')
    ensures QueueAtCursors(bufs, queue', cur') && IdleExhausted(bufs, queue', cur')
  {
    StepAtCursors(bufs, queue, cur, next, queue', cur');
    StepIdle(bufs, queue, cur, next, queue', cur');
  }

  lemma {:induction false} StepAtCursors(bufs: seq<seq<Node>>, queue: seq<Entry>, cur: seq<nat>,
                      next: Option<Node>, queue': seq<Entry>, cur': seq<nat>)
    requires PosOk(bufs, cur) && SortedQ(queue) && QueueAtCursors(bufs, queue, cur)
    requires queue != [] && queue[0].src < |bufs|
    requires StepFacts(bufs, queue, cur, next, queue', cur')
    ensures QueueAtCursors(bufs, queue', cur')
  {
    var i, q1 := queue[0].src, queue[1..];
    TailOtherSources(bufs, queue, cur);
    StepMembers(bufs, queue, cur, next, queue', cur');
    TailAtCursors(bufs, queue, cur, cur');
    if next.Some? {
      assert AtCursor(bufs, cur', Entry(next.value, i));
    }
    JoinAtCursors(bufs, q1, next, i, queue', cur');
  }

  /** The queue after a step is the tail plus the head's next record, each at its cursor. */
  lemma {:induction false} JoinAtCursors(bufs: seq<seq<Node>>, q1: seq<Entry>, next: Option<Node>, i: nat,
                                         queue': seq<Entry>, cur': seq<nat>)
    requires |cur'| == |bufs| && QueueAtCursors(bufs, q1, cur')
    requires next.Some? ==> AtCursor(bufs, cur', Entry(next.value, i))
    requires forall e :: e in queue' <==> e in q1 || (next.Some? && e == Entry(next.value, i))
    ensures QueueAtCursors(bufs, queue', cur')
  {
  }

  /** The entries behind the head stay at their cursors while only the head's enumerator moves. */
  lemma {:induction false} TailAtCursors(bufs: seq<seq<Node>>, queue: seq<Entry>, cur: seq<nat>, cur': seq<nat>)
    requires |cur| == |bufs| == |cur'| && queue != [] && QueueAtCursors(bufs, queue, cur)
    requires forall e :: e in queue[1..] ==> e.src != queue[0].src
    requires forall k :: 0 <= k < |cur| && k != queue[0].src ==> cur'[k] == cur[k]
    ensures QueueAtCursors(bufs, queue[1..], cur')
  {
    forall e | e in queue[1..] ensures AtCursor(bufs, cur', e) {
      assert e in queue;
    }
  }

  lemma {:induction false} StepIdle(bufs: seq<seq<Node>>, queue: seq<Entry>, cur: seq<nat>,
                 next: Option<Node>, queue': seq<Entry>, cur': seq<nat>)
    requires PosOk(bufs, cur) && SortedQ(queue) && IdleExhausted(bufs, queue, cur)
    requires queue != [] && queue[0].src < |bufs|
    requires StepFacts(bufs, queue, cur, next, queue', cur')
    ensures IdleExhausted(bufs, queue', cur')
  {
    StepMembers(bufs, queue, cur, next, queue', cur');
    forall k | 0 <= k < |bufs| && cur'[k] < |bufs[k]| ensures 0 < cur'[k] && Entry(bufs[k][cur'[k] - 1], k) in queue' {
      if k != queue[0].src {
        IdleOther(bufs, queue, cur, cur', k);
      }
    }
  }

  /** An enumerator other than the head's keeps its entry. */
  lemma {:induction false} IdleOther(bufs: seq<seq<Node>>, queue: seq<Entry>, cur: seq<nat>, cur': seq<nat>, k: nat)
    requires PosOk(bufs, cur) && IdleExhausted(bufs, queue, cur) && queue != []
    requires PosOk(bufs, cur') && k < |bufs| && k != queue[0].src && cur'[k] == cur[k] && cur[k] < |bufs[k]|
    ensures 0 < cur'[k] && Entry(bufs[k][cur'[k] - 1], k) in queue[1..]
  {
    var e := Entry(bufs[k][cur[k] - 1], k);
    assert e in queue;
    assert queue == [queue[0]] + queue[1..];
  }

  /** Every enumerated record was written or is queued. */
  lemma {:induction false} StepConsumed(bufs: seq<seq<Node>>, queue: seq<Entry>, cur: seq<nat>, emitted: seq<Node>,
                     next: Option<Node>, queue': seq<Entry>, cur': seq<nat>)
    requires PosOk(bufs, cur) && SortedQ(queue) && Consumed(bufs, queue, cur, emitted)
    requires queue != [] && queue[0].src < |bufs|
    requires StepFacts(bufs, queue, cur, next, queue', cur')
    ensures Consumed(bufs, queue', cur', emitted + [queue[0].key])
  {
    var i, dn, q1 := queue[0].src, queue[0].key, queue[1..];
    SortedQTail(queue);
    StepMembers(bufs, queue, cur, next, queue', cur');
    forall k, j | 0 <= k < |bufs| && 0 <= j < cur'[k] ensures bufs[k][j] in emitted + [dn] || ContainsKey(queue', bufs[k][j]) {
      var x := bufs[k][j];
      if k != i || j < cur[k] {
        assert j < cur[k] by { if k != i { assert cur'[k] == cur[k]; } }
        assert x in emitted || ContainsKey(queue, x);
        if x !in emitted && x != dn {
          assert x in Keys(queue);
          assert ContainsKey(q1, x);
        }
      } else if next.Some? && j == cur'[i] - 1 {
        assert x == next.value;
      } else {
        assert ContainsKey(q1, x);
      }
    }
  }

  /** The invariant holds again after `Advance`. */
  lemma {:induction false} MergeStep(bufs: seq<seq<Node>>, queue: seq<Entry>, cur: seq<nat>, count: int, emitted: seq<Node>,
                  next: Option<Node>, queue': seq<Entry>, cur': seq<nat>, count': int)
    requires MergeInv(bufs, queue, cur, count, emitted) && queue != [] && queue[0].src < |bufs|
    requires StepFacts(bufs, queue, cur, next, queue', cur')
    requires count' == |queue| - 1 + (if next.Some? then 1 else 0) + Pending(bufs, cur')
    ensures MergeInv(bufs, queue', cur', count', emitted + [queue[0].key])
  {
    HeadInQueue(bufs, queue, cur);
    StepMembers(bufs, queue, cur, next, queue', cur');
    StepOrder(bufs, queue, cur, emitted, next, queue', cur');
    StepCursors(bufs, queue, cur, next, queue', cur');
    StepConsumed(bufs, queue, cur, emitted, next, queue', cur');
  }

  // ---------------------------------------------------------------------
  // Seeding the queue

  /** Total number of records in the buffers (the sum of the `_nodes.Count`s). */
  function TotalLen(bufs: seq<seq<Node>>): nat
  {
    if bufs == [] then 0 else TotalLen(bufs[..|bufs| - 1]) + |bufs[|bufs| - 1]|
  }

  /** The state after the first i enumerators have been seeded. */
  predicate SeedInv(bufs: seq<seq<Node>>, i: nat, queue: seq<Entry>, cur: seq<nat>, count: int)
  {
    i <= |bufs| && SortedBufs(bufs) && PosOk(bufs[..i], cur) && SortedQ(queue)
    && QueueAtCursors(bufs[..i], queue, cur) && IdleExhausted(bufs[..i], queue, cur)
    && count == |queue| + Pending(bufs[..i], cur)
    && Consumed(bufs[..i], queue, cur, [])
    && count <= TotalLen(bufs[..i])
  }

  /**
   * The seeding loop: each enumerator contributes its first record that is
   * not queued yet; records skipped on the way are taken off `count`.
   */
  method Seed(bufs: seq<seq<Node>>) returns (queue: seq<Entry>, cur: seq<nat>, count: int)
    requires SortedBufs(bufs)
    ensures MergeInv(bufs, queue, cur, count, [])
    ensures count <= TotalLen(bufs)
    ensures count == SeedCount(bufs)
  {
    queue, cur, count := [], [], 0;
    for i := 0 to |bufs|
      invariant SeedInv(bufs, i, queue, cur, count)
      invariant SeededAs(bufs, i, queue, count)
    {
      var added, j, queue', count' := SeedOne(bufs, i, queue, count);
      SeedStep(bufs, i, queue, cur, count, added, j, queue', count');
      queue, count, cur := queue', count', cur + [j];
    }
    assert bufs[..|bufs|] == bufs;
  }

  /** The index of the first record of `b`, from `from` on, that is not queued; `|b|` when there is none. */
  function FirstFresh(b: seq<Node>, q: seq<Entry>, from: nat): (k: nat)
    requires from <= |b|
    ensures from <= k <= |b|
    ensures k < |b| ==> !ContainsKey(q, b[k])
    ensures forall t :: from <= t < k ==> ContainsKey(q, b[t])
    decreases |b| - from
  {
    if from == |b| || !ContainsKey(q, b[from]) then from else FirstFresh(b, q, from + 1)
  }

  /**
   * One enumerator's turn in the seeding loop, as a function: its first
   * record not queued yet is queued, and the count grows by the size of the
   * enumerator less the records passed over before it.
   */
  function SeedTurn(b: seq<Node>, q: seq<Entry>, c: int, i: nat): (r: (seq<Entry>, int))
    requires SortedQ(q)
    ensures SortedQ(r.0)
  {
    var k := FirstFresh(b, q, 0);
    if k < |b| then (QInsert(q, b[k], i), c + |b| - k) else (q, c)
  }

  /** The seeding loop as a function: the queue and the count once the first i enumerators are seeded. */
  function SeedState(bufs: seq<seq<Node>>, i: nat): (r: (seq<Entry>, int))
    requires i <= |bufs|
    ensures SortedQ(r.0)
  {
    if i == 0 then ([], 0)
    else
      var prev := SeedState(bufs, i - 1);
      SeedTurn(bufs[i - 1], prev.0, prev.1, i - 1)
  }

  /** The `count` that `Output` adds to `_totalCount`. */
  function SeedCount(bufs: seq<seq<Node>>): int
  {
    SeedState(bufs, |bufs|).1
  }

  /** The queue and count are those of `SeedState` after i enumerators. */
  predicate SeededAs(bufs: seq<seq<Node>>, i: nat, queue: seq<Entry>, count: int)
  {
    i <= |bufs| && SeedState(bufs, i) == (queue, count)
  }

  /** `FirstFresh` is the only index with its two properties. */
  lemma {:induction false} FirstFreshIs(b: seq<Node>, q: seq<Entry>, k': nat)
    requires k' <= |b| && (k' < |b| ==> !ContainsKey(q, b[k']))
    requires forall t :: 0 <= t < k' ==> ContainsKey(q, b[t])
    ensures FirstFresh(b, q, 0) == k'
  {
    var k := FirstFresh(b, q, 0);
    assert k <= k' by { if k' < |b| { assert !ContainsKey(q, b[k']); } }
    assert k' <= k by { if k < |b| { assert !ContainsKey(q, b[k]); } }
  }




  /**
   * Enumerator i's turn in the seeding loop: it moves to its first record
   * not queued yet and queues it; every record passed over is taken off
   * `count`.
   */
  method SeedOne(bufs: seq<seq<Node>>, i: nat, q0: seq<Entry>, c0: int) returns (added: bool, j: nat, queue: seq<Entry>, count: int)
    requires i < |bufs| && SortedQ(q0)
    ensures SeedFacts(bufs, i, q0, c0, added, j, queue, count)
    ensures (queue, count) == SeedTurn(bufs[i], q0, c0, i)
  {
    var b := bufs[i];
    queue, count := q0, c0 + |b|;
    j, added := 0, false;
    while j < |b| && !added
      invariant 0 <= j <= |b|
      invariant !added ==> queue == q0 && count == c0 + |b| - j
      invariant !added ==> forall t :: 0 <= t < j ==> ContainsKey(q0, b[t])
      invariant added ==> 0 < j && !ContainsKey(q0, b[j - 1]) && queue == QInsert(q0, b[j - 1], i)
      invariant added ==> count == c0 + |b| - j + 1 && forall t :: 0 <= t < j - 1 ==> ContainsKey(q0, b[t])
    {
      j := j + 1;
      var x := b[j - 1];
      if !ContainsKey(queue, x) {
        queue := QInsert(queue, x, i);
        added := true;
      } else {
        count := count - 1;
      }
    }
    FirstFreshIs(b, q0, if added then j - 1 else |b|);
  }

  /** What the inner seeding loop leaves behind for enumerator i. */
  predicate SeedFacts(bufs: seq<seq<Node>>, i: nat, q0: seq<Entry>, c0: int, added: bool, j: nat, queue: seq<Entry>, count: int)
    requires i < |bufs| && SortedQ(q0)
  {
    j <= |bufs[i]|
    && (!added ==> j == |bufs[i]| && queue == q0 && count == c0 + |bufs[i]| - j)
    && (!added ==> forall t :: 0 <= t < j ==> ContainsKey(q0, bufs[i][t]))
    && (added ==> 0 < j && !ContainsKey(q0, bufs[i][j - 1]) && queue == QInsert(q0, bufs[i][j - 1], i))
    && (added ==> count == c0 + |bufs[i]| - j + 1 && forall t :: 0 <= t < j - 1 ==> ContainsKey(q0, bufs[i][t]))
  }

  lemma {:induction false} SeedStep(bufs: seq<seq<Node>>, i: nat, q0: seq<Entry>, cur: seq<nat>, c0: int,
                 added: bool, j: nat, queue: seq<Entry>, count: int)
    requires SeedInv(bufs, i, q0, cur, c0) && i < |bufs|
    requires SeedFacts(bufs, i, q0, c0, added, j, queue, count)
    ensures SeedInv(bufs, i + 1, queue, cur + [j], count)
  {
    var pre, pre' := bufs[..i], bufs[..i + 1];
    assert pre'[..i] == pre;
    PendingSnoc(bufs, cur, i, j);
    assert TotalLen(pre') == TotalLen(pre) + |bufs[i]|;
    SeedMembers(bufs, i, q0, c0, added, j, queue, count);
    SeedCursors(bufs, i, q0, cur, c0, added, j, queue, count);
    SeedConsumed(bufs, i, q0, cur, c0, added, j, queue, count);
  }

  lemma {:induction false} SeedMembers(bufs: seq<seq<Node>>, i: nat, q0: seq<Entry>, c0: int, added: bool, j: nat, queue: seq<Entry>, count: int)
    requires i < |bufs| && SortedQ(q0)
    requires SeedFacts(bufs, i, q0, c0, added, j, queue, count)
    ensures SortedQ(queue)
    ensures forall e :: e in queue <==> e in q0 || (added && e == Entry(bufs[i][j - 1], i))
    ensures forall k :: ContainsKey(q0, k) ==> ContainsKey(queue, k)
    ensures added ==> ContainsKey(queue, bufs[i][j - 1])
  {
    if added {
      QInsertMembers(q0, bufs[i][j - 1], i);
      forall k | ContainsKey(q0, k) ensures ContainsKey(queue, k) {
        assert k in Elems(Keys(q0));
        assert k in Elems(Keys(queue));
      }
      assert bufs[i][j - 1] in Elems(Keys(queue));
    }
  }

  lemma {:induction false} SeedCursors(bufs: seq<seq<Node>>, i: nat, q0: seq<Entry>, cur: seq<nat>, c0: int,
                    added: bool, j: nat, queue: seq<Entry>, count: int)
    requires SeedInv(bufs, i, q0, cur, c0) && i < |bufs|
    requires SeedFacts(bufs, i, q0, c0, added, j, queue, count)
    ensures PosOk(bufs[..i + 1], cur + [j])
    ensures QueueAtCursors(bufs[..i + 1], queue, cur + [j]) && IdleExhausted(bufs[..i + 1], queue, cur + [j])
  {
    SeedMembers(bufs, i, q0, c0, added, j, queue, count);
    SeedAtCursors(bufs, i, q0, cur, added, j, queue);
    SeedIdle(bufs, i, q0, cur, added, j, queue);
  }

  lemma {:induction false} SeedAtCursors(bufs: seq<seq<Node>>, i: nat, q0: seq<Entry>, cur: seq<nat>, added: bool, j: nat, queue: seq<Entry>)
    requires i < |bufs| && PosOk(bufs[..i], cur) && QueueAtCursors(bufs[..i], q0, cur) && j <= |bufs[i]|
    requires added ==> 0 < j
    requires forall e :: e in queue <==> e in q0 || (added && e == Entry(bufs[i][j - 1], i))
    ensures PosOk(bufs[..i + 1], cur + [j]) && QueueAtCursors(bufs[..i + 1], queue, cur + [j])
  {
    var pre, pre', cur' := bufs[..i], bufs[..i + 1], cur + [j];
    forall e | e in queue ensures AtCursor(pre', cur', e) {
      if e in q0 {
        assert AtCursor(pre, cur, e);
        assert pre'[e.src] == pre[e.src] && cur'[e.src] == cur[e.src];
      }
    }
  }

  lemma {:induction false} SeedIdle(bufs: seq<seq<Node>>, i: nat, q0: seq<Entry>, cur: seq<nat>, added: bool, j: nat, queue: seq<Entry>)
    requires i < |bufs| && PosOk(bufs[..i], cur) && IdleExhausted(bufs[..i], q0, cur) && j <= |bufs[i]|
    requires added ==> 0 < j
    requires !added ==> j == |bufs[i]|
    requires forall e :: e in queue <==> e in q0 || (added && e == Entry(bufs[i][j - 1], i))
    ensures PosOk(bufs[..i + 1], cur + [j]) && IdleExhausted(bufs[..i + 1], queue, cur + [j])
  {
    var pre, pre', cur' := bufs[..i], bufs[..i + 1], cur + [j];
    forall k | 0 <= k < |pre'| && cur'[k] < |pre'[k]| ensures 0 < cur'[k] && Entry(pre'[k][cur'[k] - 1], k) in queue {
      if k < i {
        assert pre'[k] == pre[k] && cur'[k] == cur[k];
        assert Entry(pre[k][cur[k] - 1], k) in q0;
      }
    }
  }

  lemma {:induction false} SeedConsumed(bufs: seq<seq<Node>>, i: nat, q0: seq<Entry>, cur: seq<nat>, c0: int,
                     added: bool, j: nat, queue: seq<Entry>, count: int)
    requires SeedInv(bufs, i, q0, cur, c0) && i < |bufs|
    requires SeedFacts(bufs, i, q0, c0, added, j, queue, count)
    ensures PosOk(bufs[..i + 1], cur + [j])
    ensures Consumed(bufs[..i + 1], queue, cur + [j], [])
  {
    var pre, pre', cur' := bufs[..i], bufs[..i + 1], cur + [j];
    SeedMembers(bufs, i, q0, c0, added, j, queue, count);
    forall k, t | 0 <= k < |pre'| && 0 <= t < cur'[k] ensures pre'[k][t] in [] || ContainsKey(queue, pre'[k][t]) {
      if k < i {
        assert pre'[k] == pre[k] && cur'[k] == cur[k];
        assert ContainsKey(q0, pre[k][t]);
      }
    }
  }

  lemma {:induction false} SortedSnoc(s: seq<Node>, x: Node)
    requires Sorted(s) && forall y :: y in s ==> Less(y, x)
    ensures Sorted(s + [x])
  {
    var r := s + [x];
    forall i, j | 0 <= i < j < |r| ensures Less(r[i], r[j]) {
      if j == |s| { assert r[i] in s; }
    }
  }

  lemma {:induction false} QInsertMembers(q: seq<Entry>, k: Node, v: nat)
    requires SortedQ(q) && !ContainsKey(q, k)
    ensures forall e :: e in QInsert(q, k, v) <==> e in q || e == Entry(k, v)
  {
    var r := QInsert(q, k, v);
    assert multiset(r) == multiset(q) + multiset{Entry(k, v)};
    forall e ensures e in r <==> e in q || e == Entry(k, v) {
      assert e in r <==> e in multiset(r);
      assert e in q <==> e in multiset(q);
    }
  }

  lemma {:induction false} KeyOfMember(q: seq<Entry>, e: Entry)
    requires e in q
    ensures ContainsKey(q, e.key)
  {
    var k :| 0 <= k < |q| && q[k] == e;
    assert Keys(q)[k] == e.key;
  }
}
