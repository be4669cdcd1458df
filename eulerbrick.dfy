/**
 * `EulerBrick` (EulerBrick.cs): the per-thread (m, n) search over
 * `DataSet` candidates with its shared counters and best candidate, and the
 * brute-force enumeration of Euler bricks with edges in [low, high).
 */
module Bricks {
  import opened Records
  import opened Utils
  import Generator
  import Finder

  // ---------------------------------------------------------------------
  // The (m, n) pairs one search thread visits

  /** n, n + 2, ... below m, each paired with m. */
  function NPairs(m: int, n: int): seq<(int, int)>
    decreases m - n
  {
    if n < m then [(m, n)] + NPairs(m, n + 2) else []
  }

  /** Every m from first up to and including last, in order, n starting at the other parity. */
  function Visits(first: int, last: int): seq<(int, int)>
    decreases last - first + 1
  {
    if first <= last then Visits(first, last - 1) + NPairs(last, Generator.StartN(last)) else []
  }

  lemma {:induction false} NPairsExact(m: int, n0: int, p: (int, int))
    ensures p in NPairs(m, n0) <==> p.0 == m && n0 <= p.1 < m && (p.1 - n0) % 2 == 0
    decreases m - n0
  {
    if n0 < m {
      NPairsExact(m, n0 + 2, p);
    }
  }

  /** For m = 0, 1, 2, ...: m / 2 pairs. */
  lemma {:induction false} NPairsCount(m: int, n0: int)
    requires 1 <= n0 <= m + 1
    ensures |NPairs(m, n0)| == (m - n0 + 1) / 2
    decreases m - n0
  {
    if n0 < m {
      NPairsCount(m, n0 + 2);
    }
  }

  /**
   * The visited pairs are exactly those with m in [first, last], 1 <= n < m
   * and m, n of opposite parity, which is what makes (m, n) give a triple.
   */
  lemma {:induction false} VisitsExact(first: int, last: int, p: (int, int))
    ensures p in Visits(first, last) <==> first <= p.0 <= last && 1 <= p.1 < p.0 && (p.0 - p.1) % 2 == 1
    decreases last - first + 1
  {
    if first <= last {
      VisitsExact(first, last - 1, p);
      RowExact(last, p);
      assert Visits(first, last) == Visits(first, last - 1) + NPairs(last, Generator.StartN(last));
      assert p.0 == last ==> (p.0 - p.1) % 2 == (last - p.1) % 2;
    }
  }

  /** The n loop for m visits exactly the n in [1, m) of the other parity. */
  lemma RowExact(m: int, p: (int, int))
    ensures p in NPairs(m, Generator.StartN(m)) <==> p.0 == m && 1 <= p.1 < m && (m - p.1) % 2 == 1
  {
    NPairsExact(m, Generator.StartN(m), p);
    Generator.OtherParity(m, p.1);
  }

  /** Each m >= 0 contributes m / 2 pairs. */
  lemma {:induction false} VisitsStep(first: int, last: int)
    requires 0 <= first <= last
    ensures |Visits(first, last)| == |Visits(first, last - 1)| + last / 2
  {
    NPairsCount(last, Generator.StartN(last));
  }

  // ---------------------------------------------------------------------
  // What one visit leaves behind

  /** The struct default of `_maxSearchedCandidate`, with check 0. */
  const Blank: DataSet := DataSet(false, 0, 0, Node(0, 0, 0, 0), Node(0, 0, 0, 0), 0, 0)

  /** ds is `DataSet(ds.m, ds.n)` after `DataCheck`: its two check values and the `valid` flag. */
  predicate Sound(ds: DataSet)
  {
    ds.check >= 0 && ds.check2 >= 0 &&
    ds.check == CheckOf(ds.m, ds.n) && ds.check2 == Check2Of(ds.m, ds.n) &&
    ds.valid == (LastDigitWorthTesting(ds.check) || LastDigitWorthTesting(ds.check2))
  }

  /** log[i] is what the visit of ps[i] produced. */
  predicate Logged(log: seq<DataSet>, ps: seq<(int, int)>)
  {
    |log| == |ps| &&
    (forall i :: 0 <= i < |log| ==> log[i].m == ps[i].0 && log[i].n == ps[i].1) &&
    (forall ds :: ds in log ==> Sound(ds))
  }

  /** The verdict of `DataCheck`: a check value ending in 1, 5 or 9 is a perfect square. */
  ghost predicate Accepts(ds: DataSet)
  {
    (ds.check >= 0 && LastDigitWorthTesting(ds.check) && IsSquare(ds.check)) ||
    (ds.check2 >= 0 && LastDigitWorthTesting(ds.check2) && IsSquare(ds.check2))
  }

  /** The number of logged candidates `DataCheck` accepted. */
  ghost function Hits(log: seq<DataSet>): (h: nat)
    ensures h <= |log|
  {
    if log == [] then 0
    else Hits(log[..|log| - 1]) + (if Accepts(log[|log| - 1]) then 1 else 0)
  }

  /** The best candidate after seeing ds: replaced only by a valid one with a larger check. */
  function Better(best: DataSet, ds: DataSet): DataSet
  {
    if ds.valid && ds.check > best.check then ds else best
  }

  /** The best candidate after the whole log, starting from best. */
  function Champion(log: seq<DataSet>, best: DataSet): DataSet
  {
    if log == [] then best else Better(Champion(log[..|log| - 1], best), log[|log| - 1])
  }

  lemma {:induction false} HitsAppend(a: seq<DataSet>, b: seq<DataSet>)
    ensures Hits(a + b) == Hits(a) + Hits(b)
    decreases |b|
  {
    if b == [] {
      assert a + b == a;
    } else {
      HitsAppend(a, b[..|b| - 1]);
      assert (a + b)[..|a + b| - 1] == a + b[..|b| - 1];
    }
  }

  lemma {:induction false} ChampionAppend(a: seq<DataSet>, b: seq<DataSet>, best: DataSet)
    ensures Champion(a + b, best) == Champion(b, Champion(a, best))
    decreases |b|
  {
    if b == [] {
      assert a + b == a;
    } else {
      ChampionAppend(a, b[..|b| - 1], best);
      assert (a + b)[..|a + b| - 1] == a + b[..|b| - 1];
    }
  }

  /**
   * The best candidate never has a smaller check than where it started, no
   * valid logged candidate beats it, and it is either the starting one or a
   * valid logged candidate.
   */
  lemma {:induction false} ChampionIsBest(log: seq<DataSet>, best: DataSet)
    ensures Champion(log, best).check >= best.check
    ensures forall i :: 0 <= i < |log| && log[i].valid ==> log[i].check <= Champion(log, best).check
    ensures Champion(log, best) == best || (Champion(log, best) in log && Champion(log, best).valid)
    decreases |log|
  {
    if log != [] {
      var init := log[..|log| - 1];
      ChampionIsBest(init, best);
      assert forall i :: 0 <= i < |init| ==> log[i] == init[i];
    }
  }

  lemma {:induction false} LoggedAppend(a: seq<DataSet>, p: seq<(int, int)>, b: seq<DataSet>, q: seq<(int, int)>)
    requires Logged(a, p) && Logged(b, q)
    ensures Logged(a + b, p + q)
  {
    assert forall i :: |a| <= i < |a + b| ==> (a + b)[i] == b[i - |a|] && (p + q)[i] == q[i - |a|];
  }

  /** One m of `SearchEulerBrickThread`: the log of row m extends the log of rows from..m-1. */
  lemma {:induction false} ThreadStep(from: int, m: int, log: seq<DataSet>, row: seq<DataSet>, best: DataSet)
    requires from <= m
    requires Logged(log, Visits(from, m - 1)) && Logged(row, NPairs(m, Generator.StartN(m)))
    ensures Logged(log + row, Visits(from, m))
    ensures Hits(log + row) == Hits(log) + Hits(row)
    ensures Champion(log + row, best) == Champion(row, Champion(log, best))
  {
    HitsAppend(log, row);
    ChampionAppend(log, row, best);
    LoggedAppend(log, Visits(from, m - 1), row, NPairs(m, Generator.StartN(m)));
  }

  // ---------------------------------------------------------------------
  // The brute-force brick enumeration

  /** Edges i > j > k and G = i^2 + j^2 + k^2, the squares taken in UInt64. */
  datatype Brick = Brick(i: int, j: int, k: int, g: int)

  /** All three face diagonals are integers. */
  ghost predicate IsBrick(i: int, j: int, k: int)
  {
    IsSquare(Finder.Sq64(i) + Finder.Sq64(j)) &&
    IsSquare(Finder.Sq64(j) + Finder.Sq64(k)) &&
    IsSquare(Finder.Sq64(k) + Finder.Sq64(i))
  }

  function BrickOf(i: int, j: int, k: int): Brick
  {
    Brick(i, j, k, Finder.Sq64(i) + Finder.Sq64(j) + Finder.Sq64(k))
  }

  /**
   * The face test the enumeration applies. The loops below are proved for
   * any test that agrees with `IsBrick`, so that their proofs need not
   * look inside the three square tests.
   */
  type FaceTest = (int, int, int) -> bool

  ghost predicate TestsBricks(test: FaceTest)
  {
    forall i, j, k {:trigger IsBrick(i, j, k)} :: test(i, j, k) == IsBrick(i, j, k)
  }

  /** The bricks reported for (i, j) with the smallest edge from k up to j - 1. */
  ghost function KFrom(test: FaceTest, i: int, j: int, k: int): seq<Brick>
    decreases j - k
  {
    if k < j then (if test(i, j, k) then [BrickOf(i, j, k)] else []) + KFrom(test, i, j, k + 1) else []
  }

  /** The bricks reported for i with the middle edge from j up to i - 1. */
  ghost function JFrom(test: FaceTest, lo: int, i: int, j: int): seq<Brick>
    decreases i - j
  {
    if j < i then KFrom(test, i, j, lo) + JFrom(test, lo, i, j + 1) else []
  }

  /** The bricks reported with the largest edge from i up to hi - 1. */
  ghost function IFrom(test: FaceTest, lo: int, i: int, hi: int): seq<Brick>
    decreases hi - i
  {
    if i < hi then JFrom(test, lo, i, lo) + IFrom(test, lo, i + 1, hi) else []
  }

  /** Everything `GenerateAllEulerBricks` reports, in order. */
  ghost function Bricks(lo: int, hi: int): seq<Brick>
  {
    IFrom((i, j, k) => IsBrick(i, j, k), lo, lo, hi)
  }

  /** A brick with edges in [lo, hi), largest first, and its G. */
  ghost predicate Reportable(lo: int, hi: int, b: Brick)
  {
    lo <= b.k < b.j < b.i < hi && IsBrick(b.i, b.j, b.k) && b == BrickOf(b.i, b.j, b.k)
  }

  lemma {:induction false} KFromExact(test: FaceTest, i: int, j: int, k: int, b: Brick)
    ensures b in KFrom(test, i, j, k) <==> b.i == i && b.j == j && k <= b.k < j && test(i, j, b.k) && b == BrickOf(i, j, b.k)
    decreases j - k
  {
    if k < j {
      KFromExact(test, i, j, k + 1, b);
    }
  }

  lemma {:induction false} JFromExact(test: FaceTest, lo: int, i: int, j: int, b: Brick)
    ensures b in JFrom(test, lo, i, j) <==> b.i == i && j <= b.j < i && lo <= b.k < b.j && test(i, b.j, b.k) && b == BrickOf(i, b.j, b.k)
    decreases i - j
  {
    if j < i {
      KFromExact(test, i, j, lo, b);
      JFromExact(test, lo, i, j + 1, b);
    }
  }

  lemma {:induction false} IFromExact(test: FaceTest, lo: int, i: int, hi: int, b: Brick)
    ensures b in IFrom(test, lo, i, hi) <==>
      i <= b.i < hi && lo <= b.k < b.j < b.i && test(b.i, b.j, b.k) && b == BrickOf(b.i, b.j, b.k)
    decreases hi - i
  {
    if i < hi {
      JFromExact(test, lo, i, lo, b);
      IFromExact(test, lo, i + 1, hi, b);
    }
  }

  /** A brick is reported exactly when its edges lie in [lo, hi) and its three face diagonals are integers. */
  lemma BricksExact(lo: int, hi: int, b: Brick)
    ensures b in Bricks(lo, hi) <==> Reportable(lo, hi, b)
  {
    IFromExact((i, j, k) => IsBrick(i, j, k), lo, lo, hi, b);
  }

  lemma {:induction false} KFromSame(test: FaceTest, i: int, j: int, k: int)
    requires TestsBricks(test)
    ensures KFrom(test, i, j, k) == KFrom((i, j, k) => IsBrick(i, j, k), i, j, k)
    decreases j - k
  {
    if k < j {
      assert test(i, j, k) == IsBrick(i, j, k);
      KFromSame(test, i, j, k + 1);
    }
  }

  lemma {:induction false} JFromSame(test: FaceTest, lo: int, i: int, j: int)
    requires TestsBricks(test)
    ensures JFrom(test, lo, i, j) == JFrom((i, j, k) => IsBrick(i, j, k), lo, i, j)
    decreases i - j
  {
    if j < i {
      KFromSame(test, i, j, lo);
      JFromSame(test, lo, i, j + 1);
    }
  }

  /** Any test that agrees with `IsBrick` reports the same bricks. */
  lemma {:induction false} IFromSame(test: FaceTest, lo: int, i: int, hi: int)
    requires TestsBricks(test)
    ensures IFrom(test, lo, i, hi) == IFrom((i, j, k) => IsBrick(i, j, k), lo, i, hi)
    decreases hi - i
  {
    if i < hi {
      JFromSame(test, lo, i, lo);
      IFromSame(test, lo, i + 1, hi);
    }
  }

  /** `IsBrick` itself, seen only through `TestsBricks`. */
  lemma BrickTest() returns (test: FaceTest)
    ensures TestsBricks(test)
  {
    test := (i, j, k) => IsBrick(i, j, k);
  }

  /** Fewer than three distinct edges available: nothing is found. */
  lemma BricksNone(lo: int, hi: int)
    requires hi < lo + 3
    ensures Bricks(lo, hi) == []
  {
    if Bricks(lo, hi) != [] {
      BricksExact(lo, hi, Bricks(lo, hi)[0]);
    }
  }

  lemma AppendAssoc<T>(a: seq<T>, b: seq<T>, c: seq<T>)
    ensures a + (b + c) == (a + b) + c
  {
  }

  /** Lexicographic order on (i, j, k): the order of the three loops. */
  predicate Earlier(x: Brick, y: Brick)
  {
    x.i < y.i || (x.i == y.i && (x.j < y.j || (x.j == y.j && x.k < y.k)))
  }

  predicate Ascending(s: seq<Brick>)
  {
    forall p, q :: 0 <= p < q < |s| ==> Earlier(s[p], s[q])
  }

  lemma {:induction false} AscendingJoin(s: seq<Brick>, t: seq<Brick>)
    requires Ascending(s) && Ascending(t)
    requires forall x, y :: x in s && y in t ==> Earlier(x, y)
    ensures Ascending(s + t)
  {
    forall p, q | 0 <= p < q < |s + t|
      ensures Earlier((s + t)[p], (s + t)[q])
    {
      if q < |s| {
        assert (s + t)[p] == s[p] && (s + t)[q] == s[q];
      } else if p < |s| {
        assert (s + t)[p] == s[p] && (s + t)[q] == t[q - |s|];
      } else {
        assert (s + t)[p] == t[p - |s|] && (s + t)[q] == t[q - |s|];
      }
    }
  }

  lemma {:induction false} KFromAscending(test: FaceTest, i: int, j: int, k: int)
    ensures Ascending(KFrom(test, i, j, k))
    decreases j - k
  {
    if k < j {
      KFromAscending(test, i, j, k + 1);
      var head := if test(i, j, k) then [BrickOf(i, j, k)] else [];
      forall x, y | x in head && y in KFrom(test, i, j, k + 1)
        ensures Earlier(x, y)
      {
        KFromExact(test, i, j, k + 1, y);
      }
      AscendingJoin(head, KFrom(test, i, j, k + 1));
    }
  }

  lemma {:induction false} JFromAscending(test: FaceTest, lo: int, i: int, j: int)
    ensures Ascending(JFrom(test, lo, i, j))
    decreases i - j
  {
    if j < i {
      KFromAscending(test, i, j, lo);
      JFromAscending(test, lo, i, j + 1);
      forall x, y | x in KFrom(test, i, j, lo) && y in JFrom(test, lo, i, j + 1)
        ensures Earlier(x, y)
      {
        KFromExact(test, i, j, lo, x);
        JFromExact(test, lo, i, j + 1, y);
      }
      AscendingJoin(KFrom(test, i, j, lo), JFrom(test, lo, i, j + 1));
    }
  }

  lemma {:induction false} IFromAscending(test: FaceTest, lo: int, i: int, hi: int)
    ensures Ascending(IFrom(test, lo, i, hi))
    decreases hi - i
  {
    if i < hi {
      JFromAscending(test, lo, i, lo);
      IFromAscending(test, lo, i + 1, hi);
      forall x, y | x in JFrom(test, lo, i, lo) && y in IFrom(test, lo, i + 1, hi)
        ensures Earlier(x, y)
      {
        JFromExact(test, lo, i, lo, x);
        IFromExact(test, lo, i + 1, hi, y);
      }
      AscendingJoin(JFrom(test, lo, i, lo), IFrom(test, lo, i + 1, hi));
    }
  }

  /** The report lists the bricks in loop order, so no brick is counted twice. */
  lemma BricksAscending(lo: int, hi: int)
    ensures Ascending(Bricks(lo, hi))
  {
    IFromAscending((i, j, k) => IsBrick(i, j, k), lo, lo, hi);
  }

  // ---------------------------------------------------------------------
  // The class

  class EulerBrick {
    const low: int
    const high: int
    var totalSearchCount: int
    var totalPerfectCuboidFound: int
    var maxSearchedCandidate: DataSet

    constructor(low: int, high: int)
      requires InU64(low) && InU64(high)
      ensures this.low == low && this.high == high
      ensures totalSearchCount == 0 && totalPerfectCuboidFound == 0
      ensures maxSearchedCandidate == Blank
    {
      this.low := low;
      this.high := high;
      totalSearchCount := 0;
      totalPerfectCuboidFound := 0;
      maxSearchedCandidate := Blank;
    }

    /**
     * `SearchEulerBrickThread` for the chunk [from, hi]: m runs from `from`
     * up to the smaller of hi and `high`. `log` holds the checked `DataSet`
     * of every visited pair, in order.
     */
    method SearchEulerBrickThread(from: int, hi: int) returns (ghost log: seq<DataSet>)
      requires InU64(from) && InU64(hi) && InU64(high)
      modifies this
      ensures Logged(log, Visits(from, if hi > high then high else hi))
      ensures totalSearchCount == old(totalSearchCount) + |log|
      ensures totalPerfectCuboidFound == old(totalPerfectCuboidFound) + Hits(log)
      ensures maxSearchedCandidate == Champion(log, old(maxSearchedCandidate))
    {
      var top := if hi > high then high else hi;
      var m := from;
      log := [];
      while m <= top
        invariant from <= m && (m <= top + 1 || m == from)
        invariant Logged(log, Visits(from, m - 1))
        invariant totalSearchCount == old(totalSearchCount) + |log|
        invariant totalPerfectCuboidFound == old(totalPerfectCuboidFound) + Hits(log)
        invariant maxSearchedCandidate == Champion(log, old(maxSearchedCandidate))
        decreases top - m
      {
        ghost var log0 := log;
        var row := SearchRow(m);
        ThreadStep(from, m, log0, row, old(maxSearchedCandidate));
        log := log0 + row;
        m := m + 1;
      }
    }

    /** The n loop of `SearchEulerBrickThread` for one m. */
    method SearchRow(m: int) returns (ghost row: seq<DataSet>)
      requires InU64(m)
      modifies this
      ensures Logged(row, NPairs(m, Generator.StartN(m)))
      ensures totalSearchCount == old(totalSearchCount) + |row|
      ensures totalPerfectCuboidFound == old(totalPerfectCuboidFound) + Hits(row)
      ensures maxSearchedCandidate == Champion(row, old(maxSearchedCandidate))
    {
      var n := 1 + m % 2;
      row := [];
      ghost var seen: seq<(int, int)> := [];
      while n < m
        invariant 1 <= n
        invariant seen + NPairs(m, n) == NPairs(m, Generator.StartN(m))
        invariant Logged(row, seen)
        invariant totalSearchCount == old(totalSearchCount) + |row|
        invariant totalPerfectCuboidFound == old(totalPerfectCuboidFound) + Hits(row)
        invariant maxSearchedCandidate == Champion(row, old(maxSearchedCandidate))
        decreases m - n
      {
        ghost var row0 := row;
        var ds := Visit(m, n);
        row := row + [ds];
        assert row[..|row| - 1] == row0;
        LoggedAppend(row0, seen, [ds], [(m, n)]);
        AppendAssoc(seen, [(m, n)], NPairs(m, n + 2));
        seen := seen + [(m, n)];
        n := n + 2;
      }
    }

    /** One (m, n): build the `DataSet`, check it, count it, keep it if it is the best so far. */
    method Visit(m: int, n: int) returns (ds: DataSet)
      requires InU64(m) && InU64(n)
      modifies this
      ensures Logged([ds], [(m, n)])
      ensures totalSearchCount == old(totalSearchCount) + 1
      ensures totalPerfectCuboidFound == old(totalPerfectCuboidFound) + (if Accepts(ds) then 1 else 0)
      ensures maxSearchedCandidate == Better(old(maxSearchedCandidate), ds)
    {
      ds := NewDataSet(m, n);
      var found;
      found, ds := DataCheck(ds);
      if found {
        totalPerfectCuboidFound := totalPerfectCuboidFound + 1;
      }
      if ds.valid && ds.check > maxSearchedCandidate.check {
        maxSearchedCandidate := ds;
      }
      totalSearchCount := totalSearchCount + 1;
    }

    /**
     * `GenerateAllEulerBricks`: every i > j > k in [low, high) whose three
     * face diagonals are integers is counted and reported with its G.
     */
    method GenerateAllEulerBricks() returns (found: int, ghost reported: seq<Brick>)
      ensures reported == Bricks(low, high)
      ensures found == |reported|
    {
      ghost var test := BrickTest();
      found := 0;
      reported := [];
      var i := low;
      while i < high
        invariant low <= i && (i <= high || i == low)
        invariant reported + IFrom(test, low, i, high) == IFrom(test, low, low, high)
        invariant found == |reported|
        decreases high - i
      {
        ghost var more;
        found, more := JRow(low, i, found, test);
        AppendAssoc(reported, more, IFrom(test, low, i + 1, high));
        reported := reported + more;
        i := i + 1;
      }
      IFromSame(test, low, low, high);
    }
  }

  /** The j loop of `GenerateAllEulerBricks` for one i. */
  method JRow(lo: int, i: int, found0: int, ghost test: FaceTest) returns (found: int, ghost reported: seq<Brick>)
    requires TestsBricks(test)
    ensures reported == JFrom(test, lo, i, lo)
    ensures found == found0 + |reported|
  {
    found := found0;
    reported := [];
    var j := lo;
    while j < i
      invariant lo <= j && (j <= i || j == lo)
      invariant reported + JFrom(test, lo, i, j) == JFrom(test, lo, i, lo)
      invariant found == found0 + |reported|
      decreases i - j
    {
      ghost var more;
      found, more := KRow(lo, i, j, found, test);
      AppendAssoc(reported, more, JFrom(test, lo, i, j + 1));
      reported := reported + more;
      j := j + 1;
    }
  }

  /** The k loop of `GenerateAllEulerBricks` for one (i, j). */
  method KRow(lo: int, i: int, j: int, found0: int, ghost test: FaceTest) returns (found: int, ghost reported: seq<Brick>)
    requires TestsBricks(test)
    ensures reported == KFrom(test, i, j, lo)
    ensures found == found0 + |reported|
  {
    found := found0;
    reported := [];
    var k := lo;
    while k < j
      invariant lo <= k && (k <= j || k == lo)
      invariant reported + KFrom(test, i, j, k) == KFrom(test, i, j, lo)
      invariant found == found0 + |reported|
      decreases j - k
    {
      ghost var rep0 := reported;
      var face, g := Faces(i, j, k, test);
      if face {
        found := found + 1;
        reported := reported + [Brick(i, j, k, g)];
        AppendAssoc(rep0, [BrickOf(i, j, k)], KFrom(test, i, j, k + 1));
      }
      k := k + 1;
    }
  }

  /** The three face-diagonal tests of `GenerateAllEulerBricks` for one (i, j, k), and G. */
  method Faces(i: int, j: int, k: int, ghost test: FaceTest) returns (face: bool, g: int)
    requires TestsBricks(test)
    ensures face <==> test(i, j, k)
    ensures face ==> Brick(i, j, k, g) == BrickOf(i, j, k)
  {
    assert test(i, j, k) == IsBrick(i, j, k);
    var i2, j2, k2 := (i * i) % U64, (j * j) % U64, (k * k) % U64;
    face := IsPerfectSquare(i2 + j2, StartBit(i2 + j2));
    if face {
      face := IsPerfectSquare(j2 + k2, StartBit(j2 + k2));
    }
    if face {
      face := IsPerfectSquare(k2 + i2, StartBit(k2 + i2));
    }
    g := 0;
    if face {
      g := i2 + j2 + k2;
    }
  }
}
