/**
 * `DataMerger` (DataMerger.cs): merge-as-you-read over the numbered run
 * files. Run file n (1-based in the file names) is `runs[n - 1]`, already
 * decoded; `pos[i]` is how many records reader i has returned. The queue is
 * the `SortedList<DataNode, DataIOReader>`, each entry naming its reader.
 */
module Merger {
  import opened Records
  import opened Wrappers
  import opened KWay

  /** Every queue entry names an existing reader. */
  predicate SrcOk(runs: seq<seq<Node>>, queue: seq<Entry>)
  {
    forall e :: e in queue ==> e.src < |runs|
  }

  /** At most one queue entry per reader. */
  predicate OnePerSource(queue: seq<Entry>)
  {
    forall e, e' :: e in queue && e' in queue && e.src == e'.src ==> e == e'
  }

  /**
   * The duplicate-skipping loop `while (dnNext != null && ContainsKey(dnNext))
   * dnNext = reader.ReadNode();`, reading from reader s. Returns the first
   * record not queued (or None at end of stream) and the new positions.
   */
  function SkipFrom(runs: seq<seq<Node>>, queue: seq<Entry>, pos: seq<nat>, s: nat, next: Option<Node>): (r: (Option<Node>, seq<nat>))
    requires PosOk(runs, pos) && s < |runs|
    ensures PosOk(runs, r.1)
    ensures forall k :: 0 <= k < |pos| && k != s ==> r.1[k] == pos[k]
    ensures pos[s] <= r.1[s]
    ensures r.0.Some? ==> !ContainsKey(queue, r.0.value)
    ensures if next.Some? && ContainsKey(queue, next.value) then
              (r.0.Some? ==> pos[s] < r.1[s] && r.0.value == runs[s][r.1[s] - 1])
              && (r.0.None? ==> r.1[s] == |runs[s]|)
            else r == (next, pos)
    ensures forall j :: pos[s] <= j < r.1[s] - (if r.0.Some? then 1 else 0) ==> ContainsKey(queue, runs[s][j])
    decreases |runs[s]| - pos[s] + (if next.Some? then 1 else 0)
  {
    if next.Some? && ContainsKey(queue, next.value) then
      if pos[s] < |runs[s]| then
        var pos' := pos[s := pos[s] + 1];
        var r := SkipFrom(runs, queue, pos', s, Some(runs[s][pos[s]]));
        assert forall j :: pos[s] < j < r.1[s] - (if r.0.Some? then 1 else 0) ==> ContainsKey(queue, runs[s][j]);
        r
      else (None, pos)
    else (next, pos)
  }

  /** `if (dnNext != null) _dataQueue.Add(dnNext, reader)`. */
  function Push(queue: seq<Entry>, next: Option<Node>, src: nat): (r: seq<Entry>)
    requires SortedQ(queue) && (next.Some? ==> !ContainsKey(queue, next.value))
    ensures SortedQ(r)
    ensures |r| == |queue| + (if next.Some? then 1 else 0)
    ensures forall e :: e in r <==> e in queue || (next.Some? && e == Entry(next.value, src))
  {
    if next.Some? then
      QInsertMembers(queue, next.value, src);
      QInsert(queue, next.value, src)
    else queue
  }

  /** One `ReadNode` of reader i: the next record, or None at end of stream. */
  function ReadAt(runs: seq<seq<Node>>, pos: seq<nat>, i: nat): (r: (Option<Node>, seq<nat>))
    requires PosOk(runs, pos) && i < |runs|
    ensures PosOk(runs, r.1)
    ensures r.0.Some? <==> pos[i] < |runs[i]|
    ensures r.0.Some? ==> r.0.value == runs[i][pos[i]] && r.1 == pos[i := pos[i] + 1]
    ensures r.0.None? ==> r.1 == pos
  {
    if pos[i] < |runs[i]| then (Some(runs[i][pos[i]]), pos[i := pos[i] + 1]) else (None, pos)
  }

  /** The read and skip of `GetNextDataNode`, on the reader of the head entry. */
  function NextRead(runs: seq<seq<Node>>, queue: seq<Entry>, pos: seq<nat>): (r: (Option<Node>, seq<nat>))
    requires PosOk(runs, pos) && SrcOk(runs, queue) && queue != []
    ensures queue[0].src < |runs| && PosOk(runs, r.1)
    ensures forall k :: 0 <= k < |pos| && k != queue[0].src ==> r.1[k] == pos[k]
    ensures pos[queue[0].src] <= r.1[queue[0].src]
    ensures pos[queue[0].src] == |runs[queue[0].src]| ==> r == (None, pos)
    ensures r.0.Some? ==> pos[queue[0].src] < r.1[queue[0].src] && !ContainsKey(queue, r.0.value)
    ensures r.0.Some? ==> r.0.value == runs[queue[0].src][r.1[queue[0].src] - 1]
    ensures r.0.None? ==> r.1[queue[0].src] == |runs[queue[0].src]|
    ensures forall j :: pos[queue[0].src] <= j < r.1[queue[0].src] - (if r.0.Some? then 1 else 0) ==>
      ContainsKey(queue, runs[queue[0].src][j])
  {
    assert queue[0] in queue;
    var s := queue[0].src;
    var (n0, p0) := ReadAt(runs, pos, s);
    var r := SkipFrom(runs, queue, p0, s, n0);
    ReadThenSkip(runs, queue, pos, s, n0, p0, r);
    r
  }

  /** The read at the cursor followed by the skip of queued keys, in terms of the cursor before the read. */
  lemma {:induction false} ReadThenSkip(runs: seq<seq<Node>>, queue: seq<Entry>, pos: seq<nat>, s: nat,
                                        n0: Option<Node>, p0: seq<nat>, r: (Option<Node>, seq<nat>))
    requires PosOk(runs, pos) && s < |runs| && (n0, p0) == ReadAt(runs, pos, s) && r == SkipFrom(runs, queue, p0, s, n0)
    ensures PosOk(runs, r.1)
    ensures forall k :: 0 <= k < |pos| && k != s ==> r.1[k] == pos[k]
    ensures pos[s] <= r.1[s]
    ensures pos[s] == |runs[s]| ==> r == (None, pos)
    ensures r.0.Some? ==> pos[s] < r.1[s] && !ContainsKey(queue, r.0.value)
    ensures r.0.Some? ==> r.0.value == runs[s][r.1[s] - 1]
    ensures r.0.None? ==> r.1[s] == |runs[s]|
    ensures forall j :: pos[s] <= j < r.1[s] - (if r.0.Some? then 1 else 0) ==> ContainsKey(queue, runs[s][j])
  {
    if n0.Some? && ContainsKey(queue, n0.value) {
      assert p0[s] == pos[s] + 1;
    } else {
      assert r == (n0, p0);
    }
  }

  /**
   * `GetNextDataNode`: returns the least key, reads its reader's next
   * record that is not queued, adds it under the head's reader and then
   * removes the entry at index 0.
   */
  function Next(runs: seq<seq<Node>>, queue: seq<Entry>, pos: seq<nat>): (r: (Option<Node>, seq<Entry>, seq<nat>))
    requires PosOk(runs, pos) && SortedQ(queue) && SrcOk(runs, queue)
    ensures PosOk(runs, r.2) && SortedQ(r.1) && SrcOk(runs, r.1)
    ensures r.0.None? <==> queue == []
    ensures queue != [] ==> r.0 == Some(queue[0].key)
    ensures r.0.Some? ==> forall e :: e in queue ==> e.key == r.0.value || Less(r.0.value, e.key)
    ensures |r.1| <= |queue|
    ensures queue != [] ==> |r.1| + Pending(runs, r.2) < |queue| + Pending(runs, pos)
  {
    if queue == [] then (None, queue, pos)
    else
      assert queue[0] in queue;
      var s := queue[0].src;
      var (nx, p1) := NextRead(runs, queue, pos);
      var q1 := Push(queue, nx, s);
      SortedQTail(q1);
      assert forall e :: e in q1[1..] ==> e in q1;
      assert p1 == pos[s := p1[s]];
      PendingMove(runs, pos, s, p1[s]);
      forall e | e in queue ensures e.key == queue[0].key || Less(queue[0].key, e.key) {
        var k :| 0 <= k < |queue| && queue[k] == e;
        assert Keys(queue)[k] == e.key;
        if k > 0 { assert Less(Keys(queue)[0], Keys(queue)[k]); }
      }
      (Some(queue[0].key), q1[1..], p1)
  }

  /** The records `Merge` writes: `GetNextDataNode` until the queue is empty. */
  function Drain(runs: seq<seq<Node>>, queue: seq<Entry>, pos: seq<nat>): (out: seq<Node>)
    requires PosOk(runs, pos) && SortedQ(queue) && SrcOk(runs, queue)
    ensures queue == [] <==> out == []
    decreases |queue| + Pending(runs, pos)
  {
    if queue == [] then []
    else
      var r := Next(runs, queue, pos);
      [r.0.value] + Drain(runs, r.1, r.2)
  }

  /**
   * `InitializeQueue` as written, from file index n on: reader n reads its
   * first record; while that record is already queued, the replacement is
   * read from the reader of the entry at index 0, and whatever comes out is
   * queued under reader n.
   */
  function InitFrom(runs: seq<seq<Node>>, n: nat, queue: seq<Entry>, pos: seq<nat>): (r: (seq<Entry>, seq<nat>))
    requires PosOk(runs, pos) && SortedQ(queue) && SrcOk(runs, queue) && n <= |runs|
    ensures PosOk(runs, r.1) && SortedQ(r.0) && SrcOk(runs, r.0)
    ensures |r.0| <= |queue| + (|runs| - n)
    ensures forall e :: e in r.0 ==> e in queue || n <= e.src
    decreases |runs| - n
  {
    if n == |runs| then (queue, pos)
    else
      var (n0, p0) := ReadAt(runs, pos, n);
      var s := if queue == [] then n else queue[0].src;
      assert queue != [] ==> queue[0] in queue;
      var (nx, p1) := SkipFrom(runs, queue, p0, s, n0);
      var q1 := Push(queue, nx, n);
      InitFrom(runs, n + 1, q1, p1)
  }

  function Zeros(runs: seq<seq<Node>>): (pos: seq<nat>)
    ensures PosOk(runs, pos) && forall i :: 0 <= i < |pos| ==> pos[i] == 0
  {
    seq(|runs|, _ => 0)
  }

  // ---------------------------------------------------------------------
  // The cursor started correctly

  /**
   * The k-way merge state of `KWay.MergeInv` with its count made implicit:
   * every queue entry is its reader's current record, readers without an
   * entry are exhausted, and what was returned is ascending, below the queue,
   * and covers everything read.
   */
  predicate Merging(runs: seq<seq<Node>>, queue: seq<Entry>, pos: seq<nat>, emitted: seq<Node>)
  {
    PosOk(runs, pos) && SrcOk(runs, queue) && MergeInv(runs, queue, pos, |queue| + Pending(runs, pos), emitted)
  }

  /** Records after a reader's current one lie above it. */
  lemma {:induction false} AboveCursor(runs: seq<seq<Node>>, queue: seq<Entry>, pos: seq<nat>)
    requires SortedBufs(runs) && PosOk(runs, pos) && QueueAtCursors(runs, queue, pos) && queue != []
    ensures queue[0].src < |runs| && 0 < pos[queue[0].src]
    ensures forall j :: pos[queue[0].src] <= j < |runs[queue[0].src]| ==> Less(queue[0].key, runs[queue[0].src][j])
  {
    HeadInQueue(runs, queue, pos);
    var s := queue[0].src;
    forall j | pos[s] <= j < |runs[s]| ensures Less(queue[0].key, runs[s][j]) {
      assert Sorted(runs[s]);
    }
  }

  /** A queued key above the head is queued in the tail. */
  lemma {:induction false} InTail(queue: seq<Entry>, x: Node)
    requires SortedQ(queue) && queue != [] && ContainsKey(queue, x) && Less(queue[0].key, x)
    ensures ContainsKey(queue[1..], x)
  {
    SortedQTail(queue);
  }

  /** Inserting above the head keeps the head in front. */
  lemma {:induction false} PushAboveHead(queue: seq<Entry>, k: Node, v: nat)
    requires SortedQ(queue) && queue != [] && !ContainsKey(queue, k) && Less(queue[0].key, k)
    ensures !ContainsKey(queue[1..], k)
    ensures QInsert(queue, k, v)[1..] == QInsert(queue[1..], k, v)
  {
    SortedQTail(queue);
    assert !Less(k, queue[0].key);
    assert QInsert(queue, k, v) == QInsertTail(queue, k, v);
  }

  /** `Next` is the step `KWay.Advance` takes, in the sense of `KWay.StepFacts`. */
  lemma {:induction false} NextFacts(runs: seq<seq<Node>>, queue: seq<Entry>, pos: seq<nat>, nx: Option<Node>, q': seq<Entry>, p1: seq<nat>)
    requires SortedBufs(runs) && PosOk(runs, pos) && SortedQ(queue) && SrcOk(runs, queue)
    requires QueueAtCursors(runs, queue, pos) && queue != []
    requires nx == NextRead(runs, queue, pos).0 && p1 == NextRead(runs, queue, pos).1
    requires q' == Next(runs, queue, pos).1
    ensures StepFacts(runs, queue, pos, nx, q', p1)
  {
    NextQueue(runs, queue, pos, nx, q');
    NextSkipped(runs, queue, pos, nx, p1);
    NextReadFacts(runs, queue, pos, nx, p1);
    StepFactsIntro(runs, queue, pos, nx, q', p1);
  }

  /** What `NextRead` leaves behind, in the terms `KWay.StepFacts` uses. */
  lemma {:induction false} NextReadFacts(runs: seq<seq<Node>>, queue: seq<Entry>, pos: seq<nat>, nx: Option<Node>, p1: seq<nat>)
    requires PosOk(runs, pos) && SrcOk(runs, queue) && queue != []
    requires nx == NextRead(runs, queue, pos).0 && p1 == NextRead(runs, queue, pos).1
    ensures queue[0].src < |runs| && PosOk(runs, p1)
    ensures forall k :: 0 <= k < |pos| && k != queue[0].src ==> p1[k] == pos[k]
    ensures pos[queue[0].src] <= p1[queue[0].src]
    ensures pos[queue[0].src] == |runs[queue[0].src]| ==> p1[queue[0].src] == pos[queue[0].src] && nx.None?
    ensures nx.Some? ==> pos[queue[0].src] < p1[queue[0].src] && nx.value == runs[queue[0].src][p1[queue[0].src] - 1]
    ensures nx.None? ==> p1[queue[0].src] == |runs[queue[0].src]|
  {
  }

  /** Under the merge invariant the queue after `Next` is `KWay.Advance`'s. */
  lemma {:induction false} NextQueue(runs: seq<seq<Node>>, queue: seq<Entry>, pos: seq<nat>, nx: Option<Node>, q': seq<Entry>)
    requires SortedBufs(runs) && PosOk(runs, pos) && SortedQ(queue) && SrcOk(runs, queue)
    requires QueueAtCursors(runs, queue, pos) && queue != []
    requires nx == NextRead(runs, queue, pos).0 && q' == Next(runs, queue, pos).1
    ensures SortedQ(queue[1..])
    ensures nx.Some? ==> !ContainsKey(queue[1..], nx.value)
    ensures q' == if nx.Some? then QInsert(queue[1..], nx.value, queue[0].src) else queue[1..]
  {
    SortedQTail(queue);
    var s := queue[0].src;
    AboveCursor(runs, queue, pos);
    assert q' == Push(queue, nx, s)[1..];
    if nx.Some? {
      PushAboveHead(queue, nx.value, s);
    }
  }

  /** Under the merge invariant the records skipped by `Next` are queued in the tail. */
  lemma {:induction false} NextSkipped(runs: seq<seq<Node>>, queue: seq<Entry>, pos: seq<nat>, nx: Option<Node>, p1: seq<nat>)
    requires SortedBufs(runs) && PosOk(runs, pos) && SortedQ(queue) && SrcOk(runs, queue)
    requires QueueAtCursors(runs, queue, pos) && queue != []
    requires nx == NextRead(runs, queue, pos).0 && p1 == NextRead(runs, queue, pos).1
    ensures queue[0].src < |p1|
    ensures forall j :: pos[queue[0].src] <= j < p1[queue[0].src] - (if nx.Some? then 1 else 0) ==>
      ContainsKey(queue[1..], runs[queue[0].src][j])
  {
    var s := queue[0].src;
    AboveCursor(runs, queue, pos);
    forall j | pos[s] <= j < p1[s] - (if nx.Some? then 1 else 0) ensures ContainsKey(queue[1..], runs[s][j]) {
      InTail(queue, runs[s][j]);
    }
  }

  /** One `GetNextDataNode` from a correctly started cursor keeps it correct. */
  lemma {:induction false} NextMerge(runs: seq<seq<Node>>, queue: seq<Entry>, pos: seq<nat>, emitted: seq<Node>)
    requires Merging(runs, queue, pos, emitted) && queue != []
    ensures Merging(runs, Next(runs, queue, pos).1, Next(runs, queue, pos).2, emitted + [queue[0].key])
    ensures forall e :: e in queue[1..] ==> e in Next(runs, queue, pos).1
    ensures forall e :: e in Next(runs, queue, pos).1 ==> e in queue[1..] || e.src == queue[0].src
  {
    var r := Next(runs, queue, pos);
    var nx := NextRead(runs, queue, pos).0;
    assert r.2 == NextRead(runs, queue, pos).1;
    NextFacts(runs, queue, pos, nx, r.1, r.2);
    MergeStep(runs, queue, pos, |queue| + Pending(runs, pos), emitted, nx, r.1, r.2, |r.1| + Pending(runs, r.2));
    StepMembers(runs, queue, pos, nx, r.1, r.2);
  }

  /** A correctly started cursor whose queue ran empty has returned every record once, ascending. */
  lemma {:induction false} DrainDone(runs: seq<seq<Node>>, pos: seq<nat>, emitted: seq<Node>)
    requires Merging(runs, [], pos, emitted)
    ensures emitted == SortedUnion(runs)
  {
    assert forall i :: 0 <= i < |runs| ==> pos[i] == |runs[i]|;
    PendingAllDone(runs, pos);
    MergeDone(runs, [], pos, emitted);
  }

  /** Queuing under a reader with no entry yet keeps one entry per reader. */
  lemma {:induction false} PushOnePerSource(queue: seq<Entry>, next: Option<Node>, n: nat)
    requires SortedQ(queue) && (next.Some? ==> !ContainsKey(queue, next.value))
    requires OnePerSource(queue) && forall e :: e in queue ==> e.src < n
    ensures OnePerSource(Push(queue, next, n)) && forall e :: e in Push(queue, next, n) ==> e.src < n + 1
  {
    var q := Push(queue, next, n);
    forall e, e' | e in q && e' in q && e.src == e'.src ensures e == e' {
      assert e in queue <==> e' in queue;
    }
  }

  /** Each round queues at most one entry, under its own reader, so sources never repeat. */
  lemma {:induction false} InitFromOnePerSource(runs: seq<seq<Node>>, n: nat, queue: seq<Entry>, pos: seq<nat>)
    requires PosOk(runs, pos) && SortedQ(queue) && SrcOk(runs, queue) && n <= |runs|
    requires OnePerSource(queue) && forall e :: e in queue ==> e.src < n
    ensures OnePerSource(InitFrom(runs, n, queue, pos).0)
    decreases |runs| - n
  {
    if n < |runs| {
      var (n0, p0) := ReadAt(runs, pos, n);
      var s := if queue == [] then n else queue[0].src;
      assert queue != [] ==> queue[0] in queue;
      var (nx, p1) := SkipFrom(runs, queue, p0, s, n0);
      PushOnePerSource(queue, nx, n);
      InitFromOnePerSource(runs, n + 1, Push(queue, nx, n), p1);
    }
  }

  /** The queue `InitializeQueue` builds holds at most one entry per run file, so at most one per file. */
  lemma {:induction false} InitShape(runs: seq<seq<Node>>)
    ensures var init := InitFrom(runs, 0, [], Zeros(runs));
      |init.0| <= |runs| && OnePerSource(init.0) && (runs == [] ==> init.0 == [])
  {
    InitFromOnePerSource(runs, 0, [], Zeros(runs));
  }

  /** One round of the `InitializeQueue` loop, as `InitFrom` unfolds it. */
  lemma {:induction false} InitStep(runs: seq<seq<Node>>, n: nat, queue: seq<Entry>, p0: seq<nat>,
                 n1: Option<Node>, p1: seq<nat>, nx: Option<Node>, p2: seq<nat>, q2: seq<Entry>)
    requires PosOk(runs, p0) && SortedQ(queue) && SrcOk(runs, queue) && n < |runs|
    requires n1 == ReadAt(runs, p0, n).0 && p1 == ReadAt(runs, p0, n).1
    requires nx == SkipFrom(runs, queue, p1, if queue == [] then n else queue[0].src, n1).0
    requires p2 == SkipFrom(runs, queue, p1, if queue == [] then n else queue[0].src, n1).1
    requires q2 == Push(queue, nx, n)
    ensures PosOk(runs, p2) && SortedQ(q2) && SrcOk(runs, q2)
    ensures InitFrom(runs, n + 1, q2, p2) == InitFrom(runs, n, queue, p0)
  {
    assert queue != [] ==> queue[0] in queue;
  }

  /** Past the last file `InitFrom` leaves the queue and positions as they are. */
  lemma {:induction false} InitDone(runs: seq<seq<Node>>, queue: seq<Entry>, pos: seq<nat>, target: (seq<Entry>, seq<nat>))
    requires PosOk(runs, pos) && SortedQ(queue) && SrcOk(runs, queue)
    requires InitFrom(runs, |runs|, queue, pos) == target
    ensures (queue, pos) == target
  {
  }

  /** `Drain` returns the head and drains what `Next` leaves. */
  lemma {:induction false} DrainNext(runs: seq<seq<Node>>, queue: seq<Entry>, pos: seq<nat>)
    requires PosOk(runs, pos) && SortedQ(queue) && SrcOk(runs, queue) && queue != []
    ensures Next(runs, queue, pos).0.Some?
    ensures Drain(runs, queue, pos) == [Next(runs, queue, pos).0.value] + Drain(runs, Next(runs, queue, pos).1, Next(runs, queue, pos).2)
  {
  }

  /** The record in hand, as a sequence. */
  function Cur(d: Option<Node>): seq<Node> { if d.Some? then [d.value] else [] }

  /** One step of the cursor moves the head of what it has left into the record in hand. */
  lemma {:induction false} DrainStep(runs: seq<seq<Node>>, queue: seq<Entry>, pos: seq<nat>)
    requires PosOk(runs, pos) && SortedQ(queue) && SrcOk(runs, queue)
    ensures Next(runs, queue, pos).0.None? ==> Next(runs, queue, pos).1 == []
    ensures Drain(runs, queue, pos) == Cur(Next(runs, queue, pos).0) + Drain(runs, Next(runs, queue, pos).1, Next(runs, queue, pos).2)
  {
    if queue != [] {
      DrainNext(runs, queue, pos);
    }
  }

  lemma {:induction false} AppendShift(out: seq<Node>, x: Node, rest: seq<Node>)
    ensures (out + [x]) + rest == out + ([x] + rest)
  {
  }

  // ---------------------------------------------------------------------
  // The merger object

  /**
   * `DataMerger`: one reader per run file and the sorted queue of their
   * current records. The directory listing becomes `runs`, one entry per
   * numbered run file, each already decoded.
   */
  class DataMerger {
    const runs: seq<seq<Node>>
    var pos: seq<nat>
    var queue: seq<Entry>

    predicate Valid()
      reads this
    {
      PosOk(runs, pos) && SortedQ(queue) && SrcOk(runs, queue)
    }

    /** The records the cursor has still to return. */
    ghost function Remaining(): seq<Node>
      reads this
      requires Valid()
    {
      Drain(runs, queue, pos)
    }

    /** Readers at the start of their files, empty queue. */
    constructor(runs: seq<seq<Node>>)
      ensures this.runs == runs && queue == [] && pos == Zeros(runs) && Valid()
    {
      this.runs := runs;
      pos := Zeros(runs);
      queue := [];
    }

    /** `DataIOReader.ReadNode` on reader i. */
    method ReadNode(i: nat) returns (r: Option<Node>)
      requires Valid() && i < |runs|
      modifies this`pos
      ensures Valid() && (r, pos) == ReadAt(runs, old(pos), i)
    {
      if pos[i] < |runs[i]| {
        r := Some(runs[i][pos[i]]);
        pos := pos[i := pos[i] + 1];
      } else {
        r := None;
      }
    }

    /**
     * The loop shared by `GetNextDataNode` and `InitializeQueue`: while the
     * record in hand is already queued, read the next one from the reader of
     * the entry at index 0. That reader is s whenever the queue is not empty.
     */
    method SkipQueued(dnNext: Option<Node>, ghost s: nat) returns (r: Option<Node>)
      requires Valid() && s < |runs| && (queue != [] ==> s == queue[0].src)
      modifies this`pos
      ensures Valid() && (r, pos) == SkipFrom(runs, queue, old(pos), s, dnNext)
    {
      r := dnNext;
      while r.Some? && ContainsKey(queue, r.value)
        invariant Valid()
        invariant SkipFrom(runs, queue, pos, s, r) == SkipFrom(runs, queue, old(pos), s, dnNext)
        decreases |runs[s]| - pos[s] + (if r.Some? then 1 else 0)
      {
        r := ReadNode(queue[0].src);
      }
    }

    /**
     * Returns the least queued key (None on an empty queue); the head's
     * reader then reads past records already queued, the survivor is added
     * under that reader and the entry at index 0 is removed.
     */
    method GetNextDataNode() returns (r: Option<Node>)
      requires Valid()
      modifies this`pos, this`queue
      ensures Valid() && (r, queue, pos) == Next(runs, old(queue), old(pos))
      ensures old(Remaining()) == Cur(r) + Remaining() && (r.None? ==> queue == [])
    {
      DrainStep(runs, queue, pos);
      if queue == [] {
        return None;
      }
      assert queue[0] in queue;
      var s := queue[0].src;
      r := Some(queue[0].key);
      ghost var p0 := pos;
      var dnNext := ReadNode(s);
      ghost var n1, p1 := dnNext, pos;
      dnNext := SkipQueued(dnNext, s);
      assert NextRead(runs, queue, p0) == SkipFrom(runs, queue, p1, s, n1);
      queue := Push(queue, dnNext, s);
      queue := queue[1..];
      SortedQTail(Push(old(queue), dnNext, s));
    }

    /**
     * `InitializeQueue` as written: reader n (file n + 1) reads its first
     * record; while that record is queued, the replacement is read from the
     * reader of the entry at index 0, and the survivor is queued under
     * reader n.
     */
    method InitializeQueue()
      requires Valid() && queue == [] && pos == Zeros(runs)
      modifies this`pos, this`queue
      ensures Valid() && (queue, pos) == InitFrom(runs, 0, [], Zeros(runs))
    {
      if |runs| == 0 {
        return;
      }
      InitRounds();
    }

    /** The loop of `InitializeQueue`, one `InitRound` per reader. */
    method InitRounds()
      requires Valid()
      modifies this`pos, this`queue
      ensures Valid() && (queue, pos) == InitFrom(runs, 0, old(queue), old(pos))
    {
      ghost var target := InitFrom(runs, 0, queue, pos);
      for n := 0 to |runs|
        invariant Valid()
        invariant InitFrom(runs, n, queue, pos) == target
      {
        InitRound(n);
      }
      InitDone(runs, queue, pos, target);
    }

    /** One round of the `InitializeQueue` loop: reader n's first record that is not queued joins the queue. */
    method InitRound(n: nat)
      requires Valid() && n < |runs|
      modifies this`pos, this`queue
      ensures Valid() && InitFrom(runs, n + 1, queue, pos) == InitFrom(runs, n, old(queue), old(pos))
    {
      ghost var p0, q0 := pos, queue;
      var dnNext := ReadNode(n);
      ghost var n1, p1 := dnNext, pos;
      assert queue != [] ==> queue[0] in queue;
      dnNext := SkipQueued(dnNext, if queue == [] then n else queue[0].src);
      queue := Push(queue, dnNext, n);
      InitStep(runs, n, q0, p0, n1, p1, dnNext, pos, queue);
    }

    /**
     * `InitializeQueue` with the replacement read from reader n itself: the
     * seeding of the in-memory merge. The cursor then starts correctly.
     */
    method InitializeQueueFixed()
      requires Valid() && queue == [] && pos == Zeros(runs) && SortedBufs(runs)
      modifies this`pos, this`queue
      ensures Valid() && Merging(runs, queue, pos, [])
    {
      var count;
      queue, pos, count := Seed(runs);
      assert forall e :: e in queue ==> AtCursor(runs, pos, e);
    }

    /**
     * `Merge` as written: nothing when the merged file exists already;
     * otherwise the queue is initialised and every record `GetNextDataNode`
     * returns is written, until the queue is empty.
     */
    method Merge(mergedExists: bool) returns (written: Option<seq<Node>>)
      requires Valid() && queue == [] && pos == Zeros(runs)
      modifies this`pos, this`queue
      ensures Valid()
      ensures mergedExists ==> written == None
      ensures !mergedExists ==> queue == []
      ensures !mergedExists ==> written == Some(Drain(runs, InitFrom(runs, 0, [], Zeros(runs)).0, InitFrom(runs, 0, [], Zeros(runs)).1))
    {
      if mergedExists {
        return None;
      }
      InitializeQueue();
      var out := WriteAll();
      written := Some(out);
    }

    /** The writing loop of `Merge`: every record the cursor returns, until the queue is empty. */
    method WriteAll() returns (out: seq<Node>)
      requires Valid()
      modifies this`pos, this`queue
      ensures Valid() && queue == [] && out == Drain(runs, old(queue), old(pos))
    {
      ghost var all := Remaining();
      out := [];
      while queue != []
        invariant Valid() && out + Remaining() == all
        decreases |queue| + Pending(runs, pos)
      {
        ghost var out0, rest0 := out, Remaining();
        var dn := GetNextDataNode();
        out := out + [dn.value];
        AppendShift(out0, dn.value, Remaining());
      }
    }

    /**
     * `Merge` over `InitializeQueueFixed`: the written file holds every
     * record of every run file exactly once, ascending.
     */
    method MergeFixed(mergedExists: bool) returns (written: Option<seq<Node>>)
      requires Valid() && queue == [] && pos == Zeros(runs) && SortedBufs(runs)
      modifies this`pos, this`queue
      ensures Valid()
      ensures mergedExists ==> written == None
      ensures !mergedExists ==> queue == [] && written == Some(SortedUnion(runs))
    {
      if mergedExists {
        return None;
      }
      InitializeQueueFixed();
      var out := [];
      while queue != []
        invariant Valid() && Merging(runs, queue, pos, out)
        decreases |queue| + Pending(runs, pos)
      {
        NextMerge(runs, queue, pos, out);
        var dn := GetNextDataNode();
        out := out + [dn.value];
      }
      DrainDone(runs, pos, out);
      written := Some(out);
    }
  }

  // ---------------------------------------------------------------------
  // Two-way merge

  /** The leading records equal to x removed: the duplicate-removal loops of `MergeTwoFiles`. */
  function DropEq(s: seq<Node>, x: Node): (r: seq<Node>)
    ensures |r| <= |s| && r == s[|s| - |r|..]
    ensures r != [] ==> r[0] != x
    ensures forall k :: 0 <= k < |s| - |r| ==> s[k] == x
  {
    if s != [] && s[0] == x then
      var r := DropEq(s[1..], x);
      assert s[1..][|s| - 1 - |r|..] == s[|s| - |r|..];
      assert forall k :: 1 <= k < |s| - |r| ==> s[k] == s[1..][k - 1];
      r
    else s
  }

  /**
   * The records `MergeTwoFiles` writes from the records of file M and of
   * file N: the smaller head is written; after M's head, N's equal head and
   * M's repeats of it are read past; the rest of the longer file is copied.
   */
  function TwoWay(m: seq<Node>, n: seq<Node>): seq<Node>
    decreases |m| + |n|
  {
    if m == [] then n
    else if n == [] then m
    else if CompareTo(m[0], n[0]) <= 0 then [m[0]] + TwoWay(DropEq(m[1..], m[0]), DropEq(n, m[0]))
    else [n[0]] + TwoWay(m, n[1..])
  }

  /** On strictly ascending files the duplicate removal drops at most N's equal head. */
  lemma {:induction false} DropOnSorted(m: seq<Node>, n: seq<Node>)
    requires Sorted(m) && Sorted(n) && m != [] && n != []
    ensures DropEq(m[1..], m[0]) == m[1..]
    ensures DropEq(n, m[0]) == if n[0] == m[0] then n[1..] else n
  {
    SortedTail(m);
    SortedTail(n);
    if m[1..] != [] { assert m[1..][0] in m[1..]; }
    if n[0] == m[0] {
      assert DropEq(n, m[0]) == DropEq(n[1..], m[0]);
      if n[1..] != [] { assert n[1..][0] in n[1..]; }
    }
  }

  /** A head below everything in both rest files is below everything their merge holds. */
  lemma {:induction false} HeadBelow(x: Node, m: seq<Node>, n: seq<Node>, t: seq<Node>)
    requires Elems(t) == Elems(m) + Elems(n)
    requires forall y :: y in m ==> Less(x, y)
    requires forall y :: y in n ==> Less(x, y)
    ensures forall y :: y in t ==> Less(x, y)
  {
    forall y | y in t ensures Less(x, y) {
      assert y in Elems(m) + Elems(n);
    }
  }

  /** From two strictly ascending files the merge is strictly ascending and holds the records of both. */
  lemma {:induction false} TwoWaySorted(m: seq<Node>, n: seq<Node>)
    requires Sorted(m) && Sorted(n)
    ensures Sorted(TwoWay(m, n)) && Elems(TwoWay(m, n)) == Elems(m) + Elems(n)
    decreases |m| + |n|
  {
    if m == [] || n == [] {
    } else if CompareTo(m[0], n[0]) <= 0 {
      SortedTail(m);
      SortedTail(n);
      DropOnSorted(m, n);
      var n' := if n[0] == m[0] then n[1..] else n;
      ElemsConcat([m[0]], m[1..]);
      ElemsConcat([n[0]], n[1..]);
      TwoWaySorted(m[1..], n');
      var t := TwoWay(m[1..], n');
      assert TwoWay(m, n) == [m[0]] + t;
      forall y | y in n' ensures Less(m[0], y) {
        if n[0] != m[0] && y != n[0] { LessTransitive(m[0], n[0], y); }
      }
      HeadBelow(m[0], m[1..], n', t);
      SortedCons(m[0], t);
      ElemsConcat([m[0]], t);
    } else {
      SortedTail(m);
      SortedTail(n);
      ElemsConcat([n[0]], n[1..]);
      TwoWaySorted(m, n[1..]);
      var t := TwoWay(m, n[1..]);
      assert TwoWay(m, n) == [n[0]] + t;
      forall y | y in m ensures Less(n[0], y) {
        if y != m[0] { LessTransitive(n[0], m[0], y); }
      }
      HeadBelow(n[0], m, n[1..], t);
      SortedCons(n[0], t);
      ElemsConcat([n[0]], t);
    }
  }

  /** So on run files the two-way merge agrees with the k-way merge of the two. */
  lemma {:induction false} TwoWayIsUnion(m: seq<Node>, n: seq<Node>)
    requires Sorted(m) && Sorted(n)
    ensures TwoWay(m, n) == SortedUnion([m, n])
  {
    TwoWaySorted(m, n);
    assert [m, n][..1] == [m] && [m][..0] == [];
    assert UnionOf([m, n]) == Elems(m) + Elems(n);
    SortedUnique(TwoWay(m, n), SortedUnion([m, n]));
  }

  lemma {:induction false} TwoWayTakesM(m: seq<Node>, n: seq<Node>)
    requires m != [] && n != [] && CompareTo(m[0], n[0]) <= 0
    ensures TwoWay(m, n) == [m[0]] + TwoWay(DropEq(m[1..], m[0]), DropEq(n, m[0]))
  {
  }

  lemma {:induction false} TwoWayTakesN(m: seq<Node>, n: seq<Node>)
    requires m != [] && n != [] && CompareTo(m[0], n[0]) > 0
    ensures TwoWay(m, n) == [n[0]] + TwoWay(m, n[1..])
  {
  }

  /** The record in hand (if any) followed by the unread rest of the file. */
  function Rest(d: Option<Node>, s: seq<Node>, i: nat): seq<Node>
    requires i <= |s|
  {
    if d.Some? then [d.value] + s[i..] else []
  }

  /** `DataIOReader.ReadNode` on a file whose first i records were read. */
  method ReadFrom(s: seq<Node>, i: nat) returns (d: Option<Node>, i': nat)
    requires i <= |s|
    ensures i <= i' <= |s| && (d.None? <==> i == |s|) && (d.None? ==> i' == |s|)
    ensures Rest(d, s, i') == s[i..]
  {
    if i < |s| {
      d, i' := Some(s[i]), i + 1;
      assert s[i..] == [s[i]] + s[i + 1..];
    } else {
      d, i' := None, i;
    }
  }

  /** The loops that read past records equal to x in one file. */
  method SkipEqual(s: seq<Node>, d: Option<Node>, i: nat, x: Node) returns (d': Option<Node>, i': nat)
    requires i <= |s| && (d.None? ==> i == |s|)
    ensures i' <= |s| && (d'.None? ==> i' == |s|)
    ensures Rest(d', s, i') == DropEq(Rest(d, s, i), x)
  {
    d', i' := d, i;
    while d'.Some? && CompareTo(d'.value, x) == 0
      invariant i' <= |s| && (d'.None? ==> i' == |s|)
      invariant DropEq(Rest(d', s, i'), x) == DropEq(Rest(d, s, i), x)
      decreases |Rest(d', s, i')|
    {
      ghost var r0 := Rest(d', s, i');
      d', i' := ReadFrom(s, i');
      assert Rest(d', s, i') == r0[1..];
    }
  }

  /**
   * One round of the first loop of `MergeTwoFiles`: the smaller head x is
   * written and the readers move past it (and past its duplicates when x
   * came from M).
   */
  method WriteSmaller(m: seq<Node>, n: seq<Node>, dnM: Option<Node>, i: nat, dnN: Option<Node>, j: nat)
    returns (x: Node, dnM': Option<Node>, i': nat, dnN': Option<Node>, j': nat)
    requires i <= |m| && j <= |n| && dnM.Some? && dnN.Some?
    ensures i' <= |m| && (dnM'.None? ==> i' == |m|)
    ensures j' <= |n| && (dnN'.None? ==> j' == |n|)
    ensures TwoWay(Rest(dnM, m, i), Rest(dnN, n, j)) == [x] + TwoWay(Rest(dnM', m, i'), Rest(dnN', n, j'))
    ensures |Rest(dnM', m, i')| + |Rest(dnN', n, j')| < |Rest(dnM, m, i)| + |Rest(dnN, n, j)|
  {
    ghost var rm, rn := Rest(dnM, m, i), Rest(dnN, n, j);
    if CompareTo(dnM.value, dnN.value) <= 0 {
      x := dnM.value;
      dnN', j' := SkipEqual(n, dnN, j, x);
      dnM', i' := ReadFrom(m, i);
      assert Rest(dnM', m, i') == rm[1..];
      dnM', i' := SkipEqual(m, dnM', i', x);
      TwoWayTakesM(rm, rn);
    } else {
      x := dnN.value;
      dnM', i' := dnM, i;
      dnN', j' := ReadFrom(n, j);
      assert Rest(dnN', n, j') == rn[1..];
      TwoWayTakesN(rm, rn);
    }
  }

  /** `MergeTwoFiles`: the two files merged into a new one, as written. */
  method MergeTwoFiles(m: seq<Node>, n: seq<Node>) returns (out: seq<Node>)
    ensures out == TwoWay(m, n)
  {
    var dnM, i, dnN, j;
    out, dnM, i, dnN, j := MergeHeads(m, n);
    var restM := CopyRest(m, dnM, i);
    var restN := CopyRest(n, dnN, j);
    out := out + restM + restN;
  }

  /** Once a file has run out the rest of the merge is the other file. */
  lemma {:induction false} TwoWayOneEmpty(out: seq<Node>, m: seq<Node>, n: seq<Node>, goal: seq<Node>)
    requires m == [] || n == []
    requires out + TwoWay(m, n) == goal
    ensures out + m + n == goal
  {
    if m == [] {
      assert out + m + n == out + n;
    } else {
      assert out + m + n == out + m;
    }
  }

  /** The first loop of `MergeTwoFiles`: smaller heads are written until one file runs out. */
  method MergeHeads(m: seq<Node>, n: seq<Node>) returns (out: seq<Node>, dnM: Option<Node>, i: nat, dnN: Option<Node>, j: nat)
    ensures i <= |m| && (dnM.None? ==> i == |m|)
    ensures j <= |n| && (dnN.None? ==> j == |n|)
    ensures dnM.None? || dnN.None?
    ensures out + Rest(dnM, m, i) + Rest(dnN, n, j) == TwoWay(m, n)
  {
    ghost var goal := TwoWay(m, n);
    out := [];
    dnM, i := ReadFrom(m, 0);
    dnN, j := ReadFrom(n, 0);
    assert m[0..] == m && n[0..] == n;
    while dnM.Some? && dnN.Some?
      invariant i <= |m| && (dnM.None? ==> i == |m|)
      invariant j <= |n| && (dnN.None? ==> j == |n|)
      invariant out + TwoWay(Rest(dnM, m, i), Rest(dnN, n, j)) == goal
      decreases |Rest(dnM, m, i)| + |Rest(dnN, n, j)|
    {
      ghost var o0 := out;
      var x;
      x, dnM, i, dnN, j := WriteSmaller(m, n, dnM, i, dnN, j);
      out := out + [x];
      ghost var t := TwoWay(Rest(dnM, m, i), Rest(dnN, n, j));
      assert o0 + ([x] + t) == out + t;
    }
    TwoWayOneEmpty(out, Rest(dnM, m, i), Rest(dnN, n, j), goal);
  }

  /** The closing loops of `MergeTwoFiles`: the record in hand and every one after it, copied. */
  method CopyRest(s: seq<Node>, d: Option<Node>, i: nat) returns (out: seq<Node>)
    requires i <= |s| && (d.None? ==> i == |s|)
    ensures out == Rest(d, s, i)
    ensures d.Some? ==> out == [d.value] + s[i..]
  {
    out := [];
    var dn: Option<Node>, k: nat := d, i;
    while dn.Some?
      invariant k <= |s| && (dn.None? ==> k == |s|)
      invariant out + Rest(dn, s, k) == Rest(d, s, i)
      decreases |Rest(dn, s, k)|
    {
      ghost var o0, r0 := out, Rest(dn, s, k);
      out := out + [dn.value];
      dn, k := ReadFrom(s, k);
      assert o0 + r0 == out + Rest(dn, s, k);
    }
  }

  function N(g: int): Node { Node(0, 0, 0, g) }

  /** Two run files, [5, 7] and [5, 6] by G. */
  function R(): seq<seq<Node>> { [[N(5), N(7)], [N(5), N(6)]] }

  lemma {:induction false} ZerosR()
    ensures Zeros(R()) == [0, 0]
  {
  }

  /** Reader 1 reads 5, which is queued under reader 1. */
  lemma {:induction false} InitFirst()
    ensures PosOk(R(), [1, 0]) && SortedQ([Entry(N(5), 0)]) && SrcOk(R(), [Entry(N(5), 0)])
    ensures InitFrom(R(), 0, [], [0, 0]) == InitFrom(R(), 1, [Entry(N(5), 0)], [1, 0])
  {
    assert [0, 0][0 := 1] == [1, 0];
    InitStep(R(), 0, [], [0, 0], Some(N(5)), [1, 0], Some(N(5)), [1, 0], [Entry(N(5), 0)]);
  }

  /** Reader 2 reads 5, already queued; the replacement comes from reader 1. */
  lemma {:induction false} SkipSecond()
    ensures SkipFrom(R(), [Entry(N(5), 0)], [1, 1], 0, Some(N(5))) == (Some(N(7)), [2, 1])
  {
    assert Keys([Entry(N(5), 0)]) == [N(5)];
    assert [1, 1][0 := 2] == [2, 1];
  }

  lemma {:induction false} InitSecond()
    ensures InitFrom(R(), 1, [Entry(N(5), 0)], [1, 0]) == ([Entry(N(5), 0), Entry(N(7), 1)], [2, 1])
  {
    var e5, e7 := Entry(N(5), 0), Entry(N(7), 1);
    assert [1, 0][1 := 1] == [1, 1];
    SkipSecond();
    assert QInsert([e5], N(7), 1) == [e5, e7];
    InitStep(R(), 1, [e5], [1, 0], Some(N(5)), [1, 1], Some(N(7)), [2, 1], [e5, e7]);
  }

  lemma {:induction false} InitExample()
    ensures InitFrom(R(), 0, [], Zeros(R())) == ([Entry(N(5), 0), Entry(N(7), 1)], [2, 1])
  {
    ZerosR();
    InitFirst();
    InitSecond();
  }

  lemma {:induction false} NextExample1()
    ensures Next(R(), [Entry(N(5), 0), Entry(N(7), 1)], [2, 1]) == (Some(N(5)), [Entry(N(7), 1)], [2, 1])
  {
    var e5, e7 := Entry(N(5), 0), Entry(N(7), 1);
    assert Keys([e5, e7]) == [N(5), N(7)];
  }

  lemma {:induction false} NextExample2()
    ensures Next(R(), [Entry(N(7), 1)], [2, 1]) == (Some(N(7)), [Entry(N(7), 1)], [2, 2])
  {
    var e7, e6 := Entry(N(7), 1), Entry(N(6), 1);
    assert [2, 1][1 := 2] == [2, 2];
    assert Keys([e7]) == [N(7)];
    assert QInsert([e7], N(6), 1) == [e6, e7];
  }

  lemma {:induction false} NextExample3()
    ensures Next(R(), [Entry(N(7), 1)], [2, 2]) == (Some(N(7)), [], [2, 2])
  {
  }

  lemma {:induction false} DrainLast()
    ensures Drain(R(), [Entry(N(7), 1)], [2, 2]) == [N(7)]
  {
    NextExample3();
  }

  lemma {:induction false} DrainMiddle()
    ensures Drain(R(), [Entry(N(7), 1)], [2, 1]) == [N(7), N(7)]
  {
    NextExample2();
    DrainLast();
  }

  /** The cursor over the queue `InitializeQueue` leaves returns 5, 7, 7. */
  lemma {:induction false} DrainExample()
    ensures Drain(R(), [Entry(N(5), 0), Entry(N(7), 1)], [2, 1]) == [N(5), N(7), N(7)]
  {
    NextExample1();
    DrainMiddle();
  }

  /** 5, 7, 7 repeats 7 and misses the 6 of reader 2. */
  lemma {:induction false} ExampleFlaws()
    ensures N(6) in UnionOf(R()) && N(6) !in [N(5), N(7), N(7)] && !Sorted([N(5), N(7), N(7)])
  {
    assert N(6) in R()[1];
    var d := [N(5), N(7), N(7)];
    assert d[1] == d[2] && !Less(d[1], d[2]);
  }

  /**
   * Runs [5, 7] and [5, 6] (by G): reader 2's first record 5 is queued, so
   * the replacement 7 is read from reader 1 but queued under reader 2. The
   * cursor then returns 5, 7, 7: 7 twice, and 6 is lost.
   */
  lemma {:induction false} InitializeQueueLosesRecord()
    ensures var init := InitFrom(R(), 0, [], Zeros(R()));
      Drain(R(), init.0, init.1) == [N(5), N(7), N(7)]
      && N(6) in UnionOf(R()) && N(6) !in Drain(R(), init.0, init.1)
      && !Sorted(Drain(R(), init.0, init.1))
  {
    InitExample();
    DrainExample();
    ExampleFlaws();
  }
}
