/**
 * The Pythagorean-triple generator `PPT_Formula_m_n` (PPT_Formula_m_n.cs):
 * Euclid's formula k(m^2 - n^2), 2kmn, k(m^2 + n^2) enumerated over m, over
 * n of the other parity and over odd k, the filters each triple must pass,
 * the flush-then-add into the per-thread buffers, the fixed test data and
 * the (unused) binary search `FindValue`.
 */
module Generator {
  import opened Records
  import opened Wrappers
  import opened Codec
  import opened RunBuffer
  import Finder

  // ---------------------------------------------------------------------
  // The last-digit table

  /** `ValidLastDigit[x, y]`: x is the last digit of X^2, y that of Y^2. */
  const ValidLastDigit: seq<seq<int>> := [
    [1, 1, 0, 0, 1, 1, 1, 0, 0, 1],
    [1, 0, 0, 0, 1, 0, 0, 0, 0, 0],
    [0, 0, 0, 0, 0, 0, 0, 0, 0, 0],
    [0, 0, 0, 0, 0, 0, 0, 0, 0, 0],
    [1, 1, 0, 0, 0, 1, 1, 0, 0, 0],
    [1, 0, 0, 0, 1, 0, 0, 0, 0, 0],
    [1, 0, 0, 0, 1, 0, 0, 0, 0, 1],
    [0, 0, 0, 0, 0, 0, 0, 0, 0, 0],
    [0, 0, 0, 0, 0, 0, 0, 0, 0, 0],
    [1, 0, 0, 0, 0, 0, 1, 0, 0, 0]
  ]

  /** The table entry for a pair of digits. */
  predicate Accepts(x: int, y: int)
    requires 0 <= x < 10 && 0 <= y < 10
  {
    ValidLastDigit[x][y] == 1
  }

  /** The accepted digit pairs, each listed once with the smaller digit first. */
  predicate ListedPair(x: int, y: int)
  {
    (x == 0 && (y == 0 || y == 1 || y == 4 || y == 5 || y == 6 || y == 9)) ||
    (x == 1 && y == 4) || (x == 4 && (y == 5 || y == 6)) || (x == 6 && y == 9)
  }

  /** The digits a perfect square can end in. */
  predicate SquareEnding(d: int) { d == 0 || d == 1 || d == 4 || d == 5 || d == 6 || d == 9 }

  /** The table accepts exactly the listed pairs and their mirror images. */
  lemma TableIsListedPairs()
    ensures forall x, y | 0 <= x < 10 && 0 <= y < 10 :: Accepts(x, y) <==> ListedPair(x, y) || ListedPair(y, x)
  {
    forall x, y | 0 <= x < 10 && 0 <= y < 10
      ensures Accepts(x, y) <==> ListedPair(x, y) || ListedPair(y, x)
    {
      assert x == 0 || x == 1 || x == 2 || x == 3 || x == 4 || x == 5 || x == 6 || x == 7 || x == 8 || x == 9;
      assert y == 0 || y == 1 || y == 2 || y == 3 || y == 4 || y == 5 || y == 6 || y == 7 || y == 8 || y == 9;
    }
  }

  /** The order of the two legs does not matter to the table. */
  lemma TableSymmetric()
    ensures forall x, y | 0 <= x < 10 && 0 <= y < 10 :: Accepts(x, y) == Accepts(y, x)
  {
    TableIsListedPairs();
  }

  /**
   * Every accepted pair is consistent with X^2 + Y^2 = Z^2 in the last
   * digit: both digits, and their sum, end a square. In particular the rows
   * and columns 2, 3, 7 and 8 are empty.
   */
  lemma TableRespectsSquares()
    ensures forall x, y | 0 <= x < 10 && 0 <= y < 10 && Accepts(x, y) ::
      SquareEnding(x) && SquareEnding(y) && SquareEnding((x + y) % 10)
  {
    TableIsListedPairs();
  }

  /** The last digit of a square is one of 0, 1, 4, 5, 6, 9. */
  lemma {:induction false} LastDigitOfSquare(r: int)
    ensures SquareEnding((r * r) % 10)
  {
    var q, s := r / 10, r % 10;
    assert r * r == 10 * (10 * q * q + 2 * q * s) + s * s;
    assert (r * r) % 10 == (s * s) % 10;
    assert s == 0 || s == 1 || s == 2 || s == 3 || s == 4 || s == 5 || s == 6 || s == 7 || s == 8 || s == 9;
  }

  /**
   * The digit the generator looks up: the square is taken in 64-bit
   * arithmetic, so it wraps modulo 2^64 before the last digit is read.
   */
  function Digit64(x: int): (d: int)
    ensures 0 <= d < 10
  {
    (x * x) % U64 % 10
  }

  /** Once X^2 exceeds 64 bits the digit read is not the last digit of X^2. */
  lemma WrappedDigit()
    ensures Digit64(0x1_0000_0000) == 0
    ensures (0x1_0000_0000 * 0x1_0000_0000) % 10 == 6
  {
  }

  // ---------------------------------------------------------------------
  // The known conditions on an edge

  /**
   * `CheckKnownConditionOnEdge(n, isOdd)`: an edge passes when it reaches the
   * minimum for even edges and, when odd, also the minimum for odd edges.
   */
  function CheckEdge(n: int, isOdd: bool, minOdd: int, minEven: int): (ok: bool)
    ensures ok <==> n >= minEven && (isOdd ==> n >= minOdd)
  {
    !((isOdd && n < minOdd) || n < minEven)
  }

  /** `CheckKnownConditionOnEdge(n)`: the parity is the lowest bit of n. */
  function CheckEdgeOf(n: int, minOdd: int, minEven: int): (ok: bool)
    ensures minEven <= minOdd ==> (ok <==> n >= (if n % 2 == 1 then minOdd else minEven))
  {
    CheckEdge(n, n % 2 == 1, minOdd, minEven)
  }

  // ---------------------------------------------------------------------
  // The enumeration, as functions

  /** `_minValue`, `_maxValue`, `Min_Odd`, `Min_Even`. */
  datatype Limits = Limits(minValue: int, maxValue: int, minOdd: int, minEven: int)

  /** The triple k(m^2 - n^2), 2kmn, k(m^2 + n^2). */
  datatype Cand = Cand(m: int, n: int, k: int)

  function Hyp(m: int, n: int): int { m * m + n * n }
  function OddLeg(m: int, n: int): int { m * m - n * n }
  function EvenLeg(m: int, n: int): int { (m * n) * 2 }

  function X(c: Cand): int { c.k * OddLeg(c.m, c.n) }
  function Y(c: Cand): int { c.k * EvenLeg(c.m, c.n) }
  function Z(c: Cand): int { c.k * Hyp(c.m, c.n) }

  /** Euclid's formula gives a Pythagorean triple. */
  lemma {:induction false} Pythagorean(c: Cand)
    ensures X(c) * X(c) + Y(c) * Y(c) == Z(c) * Z(c)
  {
    var u, v, w := c.m * c.m, c.n * c.n, c.m * c.n;
    assert w * w == u * v;
    assert OddLeg(c.m, c.n) * OddLeg(c.m, c.n) + EvenLeg(c.m, c.n) * EvenLeg(c.m, c.n)
      == Hyp(c.m, c.n) * Hyp(c.m, c.n) by {
      assert (u - v) * (u - v) + (w * 2) * (w * 2) == (u + v) * (u + v);
    }
    var a, b, h := OddLeg(c.m, c.n), EvenLeg(c.m, c.n), Hyp(c.m, c.n);
    assert (c.k * a) * (c.k * a) + (c.k * b) * (c.k * b) == (c.k * c.k) * (a * a + b * b);
    assert (c.k * h) * (c.k * h) == (c.k * c.k) * (h * h);
  }

  /** What becomes of one candidate triple in the k loop. */
  datatype Verdict = Dropped | Skipped | Added

  /** The filters of one round of the k loop: k not a multiple of 3, both edges, then the digit table. */
  function Judge(lim: Limits, c: Cand): Verdict
  {
    if c.k % 3 != 0 && CheckEdgeOf(X(c), lim.minOdd, lim.minEven) && CheckEdgeOf(Y(c), lim.minOdd, lim.minEven) then
      (if Accepts(Digit64(X(c)), Digit64(Y(c))) then Added else Skipped)
    else Dropped
  }

  /** The triples handed to the buffer, in order, and how many the table skipped. */
  datatype Gen = Gen(cands: seq<Cand>, skipped: nat)

  function Join(a: Gen, b: Gen): Gen { Gen(a.cands + b.cands, a.skipped + b.skipped) }

  function Step(v: Verdict, c: Cand): Gen
  {
    match v
    case Added => Gen([c], 0)
    case Skipped => Gen([], 1)
    case Dropped => Gen([], 0)
  }

  /**
   * The k loop for one (m, n), from k down by twos while the hypotenuse is
   * not a multiple of 3, k is positive and k(m^2 + n^2) exceeds the minimum.
   */
  function KLoop(judge: Cand -> Verdict, lim: Limits, m: int, n: int, k: int): Gen
    decreases k
  {
    if Hyp(m, n) % 3 != 0 && k > 0 && k * Hyp(m, n) > lim.minValue then
      if k <= 1 then Step(judge(Cand(m, n, k)), Cand(m, n, k))
      else Join(Step(judge(Cand(m, n, k)), Cand(m, n, k)), KLoop(judge, lim, m, n, k - 2))
    else Gen([], 0)
  }

  /** The largest odd k with k(m^2 + n^2) within the maximum. */
  function TopK(maxValue: int, p: int): int
    requires p > 0
  {
    var k := maxValue / p;
    if k % 2 == 0 then k - 1 else k
  }

  /** Two apart by an even gap from n + 2 is an even gap from n. */
  lemma {:induction false} EvenGap(a: int, b: int)
    requires (a - (b + 2)) % 2 == 0
    ensures (a - b) % 2 == 0
  {
  }

  /** Below the start of the k loop by an even step: odd, and within the maximum. */
  lemma {:induction false} TopKOdd(maxValue: int, p: int, k: int)
    requires p > 0 && k <= TopK(maxValue, p) && (TopK(maxValue, p) - k) % 2 == 0
    ensures k % 2 == 1 && k <= maxValue / p
  {
  }

  /** The n loop for one m, from n up by twos, stopping at the first hypotenuse above the maximum. */
  function NLoop(judge: Cand -> Verdict, lim: Limits, m: int, n: int): Gen
    requires 1 <= n
    decreases m - n
  {
    if n < m then
      var p := Hyp(m, n);
      if p > lim.maxValue || lim.maxValue / p == 0 then Gen([], 0)
      else Join(KLoop(judge, lim, m, n, TopK(lim.maxValue, p)), NLoop(judge, lim, m, n + 2))
    else Gen([], 0)
  }

  /** The first n for a given m: `1 + m % 2`, of the other parity. */
  function StartN(m: int): (n: int)
    ensures n == 1 + m % 2
  {
    if m % 2 == 0 then 1 else 2
  }

  /** The m loop of one thread, from m up to and including top; n starts at the other parity. */
  function MLoop(judge: Cand -> Verdict, lim: Limits, m: int, top: int): Gen
    requires 0 <= m
    decreases top - m
  {
    if m <= top then Join(NLoop(judge, lim, m, StartN(m)), MLoop(judge, lim, m + 1, top)) else Gen([], 0)
  }

  /** Every property a generated triple has, stated without the loops. */
  predicate Proper(judge: Cand -> Verdict, lim: Limits, lo: int, top: int, c: Cand)
  {
    lo <= c.m <= top && 1 <= c.n < c.m && (c.m - c.n) % 2 == 1 &&
    c.k > 0 && c.k % 2 == 1 && Hyp(c.m, c.n) % 3 != 0 &&
    lim.minValue < Z(c) <= lim.maxValue && judge(c) == Added
  }

  lemma {:induction false} MulLeftMono(a: int, b: int, p: int)
    requires a <= b && p >= 0
    ensures a * p <= b * p
  {
  }

  /** k(m^2 + n^2) within the maximum is the same as k at most the integer quotient. */
  lemma {:induction false} QuotientBound(k: int, p: int, maxValue: int)
    requires p > 0
    ensures k * p <= maxValue <==> k <= maxValue / p
  {
    var q, r := maxValue / p, maxValue % p;
    assert maxValue == q * p + r && 0 <= r < p;
    if k <= q {
      MulLeftMono(k, q, p);
    } else {
      MulLeftMono(q + 1, k, p);
    }
  }

  /** The properties of the candidates one run of the k loop adds. */
  predicate InKLoop(judge: Cand -> Verdict, lim: Limits, m: int, n: int, k: int, c: Cand)
  {
    c.m == m && c.n == n && 0 < c.k <= k && (k - c.k) % 2 == 0 && Hyp(m, n) % 3 != 0 &&
    Z(c) > lim.minValue && judge(c) == Added
  }

  /** Every candidate the k loop adds has the properties. */
  lemma {:induction false} KLoopSound(judge: Cand -> Verdict, lim: Limits, m: int, n: int, k: int, c: Cand)
    requires c in KLoop(judge, lim, m, n, k).cands
    ensures InKLoop(judge, lim, m, n, k, c)
    decreases k
  {
    var here := Cand(m, n, k);
    if c !in Step(judge(here), here).cands {
      KLoopSound(judge, lim, m, n, k - 2, c);
    }
  }

  /** The k loop adds every candidate with the properties. */
  lemma {:induction false} KLoopComplete(judge: Cand -> Verdict, lim: Limits, m: int, n: int, k: int, c: Cand)
    requires Hyp(m, n) > 0 && InKLoop(judge, lim, m, n, k, c)
    ensures c in KLoop(judge, lim, m, n, k).cands
    decreases k
  {
    MulLeftMono(c.k, k, Hyp(m, n));
    if c.k < k {
      KLoopComplete(judge, lim, m, n, k - 2, c);
    }
  }

  /** The properties of the candidates the n loop adds from a given n. */
  predicate InNLoop(judge: Cand -> Verdict, lim: Limits, m: int, n: int, c: Cand)
  {
    c.m == m && n <= c.n < m && (c.n - n) % 2 == 0 && c.k > 0 && c.k % 2 == 1 &&
    Hyp(m, c.n) % 3 != 0 && lim.minValue < Z(c) <= lim.maxValue && judge(c) == Added
  }

  lemma {:induction false} HypPositive(m: int, n: int)
    requires 1 <= n
    ensures Hyp(m, n) > 0
  {
  }

  /** A candidate of the k loop that one round of the n loop runs has the properties. */
  lemma {:induction false} FromKLoop(judge: Cand -> Verdict, lim: Limits, m: int, n: int, c: Cand)
    requires 1 <= n < m && 0 < Hyp(m, n) <= lim.maxValue
    requires c in KLoop(judge, lim, m, n, TopK(lim.maxValue, Hyp(m, n))).cands
    ensures InNLoop(judge, lim, m, n, c)
  {
    var p := Hyp(m, n);
    KLoopSound(judge, lim, m, n, TopK(lim.maxValue, p), c);
    assert c == Cand(m, n, c.k);
    TopKOdd(lim.maxValue, p, c.k);
    QuotientBound(c.k, p, lim.maxValue);
  }

  /** Every candidate the n loop adds has the properties. */
  lemma {:induction false} NLoopSound(judge: Cand -> Verdict, lim: Limits, m: int, n: int, c: Cand)
    requires 1 <= n && c in NLoop(judge, lim, m, n).cands
    ensures InNLoop(judge, lim, m, n, c)
    decreases m - n
  {
    HypPositive(m, n);
    var k := TopK(lim.maxValue, Hyp(m, n));
    if c in KLoop(judge, lim, m, n, k).cands {
      FromKLoop(judge, lim, m, n, c);
    } else {
      NLoopSound(judge, lim, m, n + 2, c);
      EvenGap(c.n, n);
    }
  }

  /** The n loop adds every candidate with the properties. */
  lemma {:induction false} NLoopComplete(judge: Cand -> Verdict, lim: Limits, m: int, n: int, c: Cand)
    requires 1 <= n && InNLoop(judge, lim, m, n, c)
    ensures c in NLoop(judge, lim, m, n).cands
    decreases m - n
  {
    HypWithin(lim, m, n, c);
    HypPositive(m, n);
    if c.n == n {
      ToKLoop(judge, lim, m, n, c);
    } else {
      NLoopComplete(judge, lim, m, n + 2, c);
    }
  }

  /** The hypotenuse base of an earlier n is within the maximum, so the n loop has not stopped. */
  lemma {:induction false} HypWithin(lim: Limits, m: int, n: int, c: Cand)
    requires 1 <= n <= c.n && c.m == m && 0 < c.k && Z(c) <= lim.maxValue
    ensures Hyp(m, n) <= lim.maxValue && lim.maxValue / Hyp(m, n) != 0
  {
    MulLeftMono(n, c.n, n);
    MulLeftMono(n, c.n, c.n);
    MulLeftMono(1, c.k, Hyp(m, c.n));
    QuotientBound(1, Hyp(m, n), lim.maxValue);
  }

  /** A candidate with the properties for this very n is one of its k loop. */
  lemma {:induction false} ToKLoop(judge: Cand -> Verdict, lim: Limits, m: int, n: int, c: Cand)
    requires 1 <= n && c.n == n && InNLoop(judge, lim, m, n, c) && 0 < Hyp(m, n)
    ensures c in KLoop(judge, lim, m, n, TopK(lim.maxValue, Hyp(m, n))).cands
  {
    QuotientBound(c.k, Hyp(m, n), lim.maxValue);
    KLoopComplete(judge, lim, m, n, TopK(lim.maxValue, Hyp(m, n)), c);
  }

  /** Every candidate a thread adds has the properties. */
  lemma {:induction false} MLoopSound(judge: Cand -> Verdict, lim: Limits, m: int, top: int, c: Cand)
    requires 0 <= m && c in MLoop(judge, lim, m, top).cands
    ensures Proper(judge, lim, m, top, c)
    decreases top - m
  {
    if c in NLoop(judge, lim, m, StartN(m)).cands {
      NLoopSound(judge, lim, m, StartN(m), c);
      OtherParity(m, c.n);
    } else {
      MLoopSound(judge, lim, m + 1, top, c);
    }
  }

  /** A thread adds every candidate with the properties. */
  lemma {:induction false} MLoopComplete(judge: Cand -> Verdict, lim: Limits, m: int, top: int, c: Cand)
    requires 0 <= m && Proper(judge, lim, m, top, c)
    ensures c in MLoop(judge, lim, m, top).cands
    decreases top - m
  {
    if c.m == m {
      OtherParity(m, c.n);
      assert InNLoop(judge, lim, m, StartN(m), c) by {
        assert Hyp(m, c.n) == Hyp(c.m, c.n);
      }
      NLoopComplete(judge, lim, m, StartN(m), c);
    } else {
      MLoopComplete(judge, lim, m + 1, top, c);
    }
  }

  /** n runs over 1 + (m & 1), 3 + (m & 1), ...: exactly the n >= 1 of the other parity. */
  lemma {:induction false} OtherParity(m: int, n: int)
    ensures 1 <= n && (m - n) % 2 == 1 <==> StartN(m) <= n && (n - StartN(m)) % 2 == 0
  {
  }

  /**
   * The candidates a thread hands to its buffer are exactly those with the
   * properties: m in range, n of the other parity below m, odd k, the
   * hypotenuse base not a multiple of 3, k(m^2 + n^2) strictly above the
   * minimum and within the maximum, and accepted by the filters.
   */
  lemma MLoopExact(judge: Cand -> Verdict, lim: Limits, lo: int, top: int)
    requires 0 <= lo
    ensures forall c :: c in MLoop(judge, lim, lo, top).cands <==> Proper(judge, lim, lo, top, c)
  {
    forall c
      ensures c in MLoop(judge, lim, lo, top).cands <==> Proper(judge, lim, lo, top, c)
    {
      if c in MLoop(judge, lim, lo, top).cands {
        MLoopSound(judge, lim, lo, top, c);
      }
      if Proper(judge, lim, lo, top, c) {
        MLoopComplete(judge, lim, lo, top, c);
      }
    }
  }

  /** The filters of the generator with its limits, as the verdict function of the loops. */
  function Filter(lim: Limits): Cand -> Verdict
  {
    c => Judge(lim, c)
  }

  /**
   * `judge` gives the verdicts of the generator's filters. The agreement is
   * brought into play only where a `Judge` term already appears, so the loops
   * above the innermost one reason about verdicts without unfolding them.
   */
  ghost predicate JudgedBy(judge: Cand -> Verdict, lim: Limits)
  {
    forall c {:trigger Judge(lim, c)} :: judge(c) == Judge(lim, c)
  }

  /**
   * `rows(n)` is what the n loop for m produces from n on; as with
   * `JudgedBy`, only an `NLoop` term brings the agreement into play.
   */
  ghost predicate Tabulates(rows: int -> Gen, judge: Cand -> Verdict, lim: Limits, m: int)
  {
    forall n {:trigger NLoop(judge, lim, m, n)} :: 1 <= n ==> rows(n) == NLoop(judge, lim, m, n)
  }

  /** Past m the n loop produces nothing. */
  lemma TabulatedEnd(rows: int -> Gen, judge: Cand -> Verdict, lim: Limits, m: int, n: int)
    requires Tabulates(rows, judge, lim, m) && 1 <= n && m <= n
    ensures rows(n) == Gen([], 0)
  {
    assert rows(n) == NLoop(judge, lim, m, n);
  }

  /** The filters themselves are such a verdict function. */
  lemma FilterJudges(lim: Limits)
    ensures JudgedBy(Filter(lim), lim)
  {
  }

  /** The candidates' concatenation, regrouped after one more round. */
  lemma {:induction false} CandsShift(done: seq<Cand>, step: seq<Cand>, rest: seq<Cand>, goal: seq<Cand>)
    requires done + (step + rest) == goal
    ensures (done + step) + rest == goal
  {
    assert done + (step + rest) == (done + step) + rest;
  }

  // ---------------------------------------------------------------------
  // The generator object

  /** The buffers a thread adds to and the shared spill state, ready for `Output`. */
  predicate Sink(dl: DataList, lists: seq<DataList>, statics: Spill)
    reads statics, statics.dir, lists
  {
    statics.Valid() && statics.layout == NodeLayout && statics.NoRunFileAhead() && dl in lists && Ready(lists)
  }

  /** Every buffer is sorted and holds records that fit in 64 bits. */
  predicate Ready(lists: seq<DataList>)
    reads lists
  {
    forall i :: 0 <= i < |lists| ==> lists[i].Valid() && AllFit(lists[i].nodes)
  }

  /**
   * The double-checked lock before each add: when the shared count has
   * reached the file size, every buffer is spilled to the next run file.
   * With no run file numbered ahead, the spill cannot fail.
   */
  method FlushIfDue(lists: seq<DataList>, statics: Spill)
    requires statics.Valid() && statics.layout == NodeLayout && statics.NoRunFileAhead() && Ready(lists)
    modifies statics, statics.writeBuffer, statics.dir, lists
    ensures statics.Valid() && statics.NoRunFileAhead() && Ready(lists)
    ensures var due := old(statics.readyToWriteCount) >= old(statics.countInFile);
      statics.fileIndex == old(statics.fileIndex) + (if due then 1 else 0) &&
      (!due ==> statics.dir.files == old(statics.dir.files) && statics.readyToWriteCount == old(statics.readyToWriteCount)
                && Contents(lists) == old(Contents(lists))) &&
      (due ==>
         statics.dir.files == old(statics.dir.files)[statics.fileIndex := RunFile(NodeLayout, old(Contents(lists)))] &&
         statics.readyToWriteCount == 0 && forall i :: 0 <= i < |lists| ==> lists[i].nodes == [])
    ensures statics.countInFile == old(statics.countInFile)
  {
    if statics.readyToWriteCount >= statics.countInFile {
      var r;
      ghost var seeded;
      r, seeded := Output(lists, statics);
      assert r.Ok?;
    }
  }

  /**
   * The innermost branch of the k loop: flush when due, then add the pair
   * to this thread's buffer.
   */
  method AddCandidate(dl: DataList, lists: seq<DataList>, statics: Spill, key: int, pair: int, value: int)
    requires Sink(dl, lists, statics) && InU64(key) && InU64(pair) && InU64(value)
    modifies statics, statics.writeBuffer, statics.dir, lists
    ensures Sink(dl, lists, statics)
    ensures (if key <= pair then Node(key, pair, 0, value) else Node(pair, key, 0, value)) in dl.nodes
    ensures var due := old(statics.readyToWriteCount) >= old(statics.countInFile);
      statics.fileIndex == old(statics.fileIndex) + (if due then 1 else 0) &&
      (!due ==> statics.dir.files == old(statics.dir.files)) &&
      (due ==>
         statics.dir.files == old(statics.dir.files)[statics.fileIndex := RunFile(NodeLayout, old(Contents(lists)))] &&
         statics.readyToWriteCount == 1)
  {
    FlushIfDue(lists, statics);
    dl.AddPair(key, pair, value, statics);
    forall i | 0 <= i < |lists| ensures lists[i].Valid() && AllFit(lists[i].nodes) {
      if lists[i] == dl {
        forall x | x in dl.nodes ensures Fits64(x) {
          assert x in Elems(dl.nodes);
        }
      }
    }
  }

  const Cap: int := 0x4000_0000_0000_0000

  /** Holder of the class-wide counter `_skipped`. */
  class Tally {
    var skipped: int

    constructor ()
      ensures skipped == 0
    {
      skipped := 0;
    }
  }

  class PPTFormula {
    /** `_low`: the integer square root of the lower bound. */
    const low: int
    /** `_high`: one more than the integer square root of the upper bound; m stays at or below it. */
    const high: int
    const minValue: int
    const maxValue: int
    /** `Min_Odd` and `Min_Even`, from the application settings. */
    const minOdd: int
    const minEven: int
    /** `_squares[i] == (i + 1)^2`. */
    var squares: array<int>
    /** `_dataLists`: one buffer per thread. */
    var dataLists: seq<DataList>
    /** The static `_skipped`: triples the digit table turned away, counted across every generator. */
    const tally: Tally

    function Lim(): Limits
    {
      Limits(minValue, maxValue, minOdd, minEven)
    }

    /** The maximum is below 2^62, so every edge and hypotenuse within it fits in 64 bits. */
    predicate Bounded()
    {
      0 <= maxValue < Cap
    }

    /** `high` is one more than the integer square root of the maximum: every square the generator forms fits in 64 bits. */
    predicate Valid()
    {
      Bounded() && 1 <= high && (high - 1) * (high - 1) <= maxValue < high * high
    }

    predicate SquaresReady()
      reads this, squares
    {
      squares.Length == high && forall i :: 0 <= i < high ==> squares[i] == (i + 1) * (i + 1)
    }

    constructor (low: int, high: int, minValue: int, maxValue: int, minOdd: int, minEven: int)
      ensures this.low == low && this.high == high && this.minValue == minValue && this.maxValue == maxValue
      ensures this.minOdd == minOdd && this.minEven == minEven
      ensures dataLists == [] && fresh(tally) && tally.skipped == 0 && squares.Length == 0
    {
      this.low, this.high, this.minValue, this.maxValue := low, high, minValue, maxValue;
      this.minOdd, this.minEven := minOdd, minEven;
      squares := new int[0];
      dataLists := [];
      tally := new Tally();
    }

    /** The table of squares `GeneratePT_mn2` builds before starting the threads. */
    method FillSquares()
      requires 0 <= high
      modifies this`squares
      ensures SquaresReady() && fresh(squares)
    {
      var table := new int[high];
      for i := 0 to high
        invariant forall t :: 0 <= t < i ==> table[t] == (t + 1) * (t + 1)
      {
        table[i] := (i + 1) * (i + 1);
      }
      squares := table;
    }

    /**
     * `GeneratePTThread`: every m from `lowM` to the smaller of `highM` and
     * `high`, every n of the other parity below m, every odd k from the
     * largest within the maximum downwards. The candidates handed to `dl`
     * and the skip count are those of `MLoop`; `MLoopExact` characterises them.
     */
    method GeneratePTThread(lowM: int, highM: int, dl: DataList, statics: Spill, ghost judge: Cand -> Verdict) returns (ghost sent: seq<Cand>)
      requires Valid() && SquaresReady() && 1 <= lowM && Sink(dl, dataLists, statics) && JudgedBy(judge, Lim())
      modifies tally, statics, statics.writeBuffer, statics.dir, dataLists
      ensures Sink(dl, dataLists, statics)
      ensures var top := if highM > high then high else highM;
        sent == MLoop(judge, Lim(), lowM, top).cands &&
        tally.skipped == old(tally.skipped) + MLoop(judge, Lim(), lowM, top).skipped
    {
      var top := if highM > high then high else highM;
      ghost var lim := Lim();
      ghost var goal := MLoop(judge, lim, lowM, top);
      sent := [];
      var m := lowM;
      while m <= top
        invariant lowM <= m
        invariant Sink(dl, dataLists, statics)
        invariant sent + MLoop(judge, lim, m, top).cands == goal.cands
        invariant tally.skipped - old(tally.skipped) + MLoop(judge, lim, m, top).skipped == goal.skipped
        decreases top - m
      {
        MLoopStep(judge, lim, m, top);
        ghost var got := NRun(m, dl, statics, judge, n => if 1 <= n then NLoop(judge, lim, m, n) else Gen([], 0));
        CandsShift(sent, got, MLoop(judge, lim, m + 1, top).cands, goal.cands);
        sent := sent + got;
        m := m + 1;
      }
    }

    /** The n loop of `GeneratePTThread` for one m, against the table `rows` of `NLoop` for that m. */
    method NRun(m: int, dl: DataList, statics: Spill, ghost judge: Cand -> Verdict, ghost rows: int -> Gen) returns (ghost got: seq<Cand>)
      requires Valid() && SquaresReady() && 1 <= m <= high && Sink(dl, dataLists, statics) && JudgedBy(judge, Lim())
      requires Tabulates(rows, judge, Lim(), m)
      modifies tally, statics, statics.writeBuffer, statics.dir, dataLists
      ensures Sink(dl, dataLists, statics)
      ensures got == rows(StartN(m)).cands
      ensures tally.skipped == old(tally.skipped) + rows(StartN(m)).skipped
    {
      var n := 1 + m % 2;
      ghost var goal := rows(n);
      got := [];
      while n < m
        invariant 1 <= n
        invariant Sink(dl, dataLists, statics)
        invariant got + rows(n).cands == goal.cands
        invariant tally.skipped - old(tally.skipped) + rows(n).skipped == goal.skipped
        decreases m - n
      {
        var stop;
        ghost var part, row;
        stop, part, row := NRound(m, n, dl, statics, judge, rows);
        if stop {
          break;
        }
        CandsShift(got, part, rows(n + 2).cands, goal.cands);
        got := got + part;
        n := n + 2;
      }
      if m <= n {
        TabulatedEnd(rows, judge, Lim(), m, n);
      }
    }

    /**
     * The body of the n loop for one n: the squares, the two early exits
     * (`stop`), and otherwise the k loop from the largest odd k within the
     * maximum.
     */
    method NRound(m: int, n: int, dl: DataList, statics: Spill, ghost judge: Cand -> Verdict, ghost rows: int -> Gen)
      returns (stop: bool, ghost part: seq<Cand>, ghost row: Gen)
      requires Valid() && SquaresReady() && 1 <= n < m <= high && Sink(dl, dataLists, statics) && JudgedBy(judge, Lim())
      requires Tabulates(rows, judge, Lim(), m)
      modifies tally, statics, statics.writeBuffer, statics.dir, dataLists
      ensures Sink(dl, dataLists, statics)
      ensures stop ==> rows(n) == Gen([], 0) && tally.skipped == old(tally.skipped)
      ensures !stop ==> rows(n) == Join(row, rows(n + 2))
      ensures !stop ==> part == row.cands && tally.skipped == old(tally.skipped) + row.skipped
    {
      var m2 := squares[m - 1];
      var n2 := squares[n - 1];
      var m2MinusN2 := m2 - n2;
      var mn2 := (m * n) * 2;
      var m2PlusN2 := m2 + n2;
      assert m2 == m * m && n2 == n * n;
      HypPositive(m, n);
      NLoopStep(judge, Lim(), m, n);
      assert rows(n) == NLoop(judge, Lim(), m, n) && rows(n + 2) == NLoop(judge, Lim(), m, n + 2);
      if m2PlusN2 > maxValue {
        return true, [], Gen([], 0);
      }
      var k := maxValue / m2PlusN2;
      if k == 0 {
        return true, [], Gen([], 0);
      }
      if k % 2 == 0 {
        k := k - 1;
      }
      row := KLoop(judge, Lim(), m, n, k);
      part := KRun(m, n, k, m2PlusN2, m2MinusN2, mn2, dl, statics, judge);
      stop := false;
    }

    /** The k loop of `GeneratePTThread` for one (m, n), with the running products of k. */
    method KRun(m: int, n: int, k0: int, p: int, q: int, r: int, dl: DataList, statics: Spill, ghost judge: Cand -> Verdict) returns (ghost part: seq<Cand>)
      requires Valid() && 1 <= n < m && p == Hyp(m, n) && q == OddLeg(m, n) && r == EvenLeg(m, n)
      requires 0 < p <= maxValue && k0 == TopK(maxValue, p)
      requires Sink(dl, dataLists, statics) && JudgedBy(judge, Lim())
      modifies tally, statics, statics.writeBuffer, statics.dir, dataLists
      ensures Sink(dl, dataLists, statics)
      ensures part == KLoop(judge, Lim(), m, n, k0).cands
      ensures tally.skipped == old(tally.skipped) + KLoop(judge, Lim(), m, n, k0).skipped
    {
      var k := k0;
      var zk, xk, yk := p * k, q * k, r * k;
      var z2, x2, y2 := p * 2, q * 2, r * 2;
      var gr := p % 3;
      ghost var goal := KLoop(judge, Lim(), m, n, k0);
      part := [];
      QuotientBound(k0, p, maxValue);
      while gr != 0 && k > 0 && zk > minValue
        invariant zk == k * p && xk == k * q && yk == k * r && zk <= maxValue
        invariant Sink(dl, dataLists, statics)
        invariant part + KLoop(judge, Lim(), m, n, k).cands == goal.cands
        invariant tally.skipped - old(tally.skipped) + KLoop(judge, Lim(), m, n, k).skipped == goal.skipped
        decreases k
      {
        ghost var here := Cand(m, n, k);
        KLoopStep(judge, Lim(), m, n, k);
        LegsWithin(m, n, k, Lim());
        ghost var added := KRound(m, n, k, xk, yk, zk, dl, statics);
        ghost var step := Step(Judge(Lim(), here), here);
        ghost var part0 := part;
        part := part + added;
        if k <= 1 {
          break;
        }
        CandsShift(part0, step.cands, KLoop(judge, Lim(), m, n, k - 2).cands, goal.cands);
        NextRound(k, p, q, r);
        k := k - 2;
        zk, xk, yk := zk - z2, xk - x2, yk - y2;
      }
    }

    /**
     * `GenerateTestData`: two buffers, eight adds, a spill, four more adds
     * and a second spill. Each spill that finds its file absent writes the
     * listed batch; the result is the shared record count.
     */
    method GenerateTestData(statics: Spill) returns (r: Result<int>, ghost first: seq<seq<Node>>, ghost second: seq<seq<Node>>)
      requires statics.Valid() && statics.layout == NodeLayout
      modifies this`dataLists, statics, statics.writeBuffer, statics.dir
      ensures IsFirstBatch(first) && BufsFit(first)
      ensures var f1 := old(statics.fileIndex) + 1; var files := old(statics.dir.files);
        f1 in files ==> r.Err? && statics.fileIndex == f1 && statics.dir.files == files
      ensures var f1, f2 := old(statics.fileIndex) + 1, old(statics.fileIndex) + 2; var files := old(statics.dir.files);
        f1 !in files ==>
          IsSecondBatch(second) && BufsFit(second) && statics.fileIndex == f2 && (r.Err? <==> f2 in files)
          && (r.Err? ==> statics.dir.files == files[f1 := RunFile(NodeLayout, first)])
          && (r.Ok? ==> statics.dir.files == files[f1 := RunFile(NodeLayout, first)][f2 := RunFile(NodeLayout, second)])
      ensures r.Ok? ==> r.value == statics.totalCount
    {
      var l0, l1, r1;
      l0, l1, r1, first := SpillFirstBatch(statics);
      dataLists := [l0, l1];
      if r1.Err? {
        return Err(r1.message), first, [];
      }
      var r2;
      r2, second := SpillSecondBatch(l0, l1, statics);
      if r2.Err? {
        return Err(r2.message), first, second;
      }
      r := Ok(statics.totalCount);
    }

    /** The body of the k loop for one k: the filters, then either the add or the skip count. */
    method KRound(m: int, n: int, k: int, xk: int, yk: int, zk: int, dl: DataList, statics: Spill) returns (ghost added: seq<Cand>)
      requires xk == X(Cand(m, n, k)) && yk == Y(Cand(m, n, k)) && zk == Z(Cand(m, n, k))
      requires InU64(xk) && InU64(yk) && InU64(zk)
      requires Sink(dl, dataLists, statics)
      modifies tally, statics, statics.writeBuffer, statics.dir, dataLists
      ensures Sink(dl, dataLists, statics)
      ensures added == Step(Judge(Lim(), Cand(m, n, k)), Cand(m, n, k)).cands
      ensures tally.skipped == old(tally.skipped) + Step(Judge(Lim(), Cand(m, n, k)), Cand(m, n, k)).skipped
    {
      added := [];
      if k % 3 != 0 && CheckEdgeOf(xk, minOdd, minEven) && CheckEdgeOf(yk, minOdd, minEven) {
        var x2 := (xk * xk) % U64;
        var y2 := (yk * yk) % U64;
        var xr := x2 % 10;
        var yr := y2 % 10;
        if ValidLastDigit[xr][yr] == 1 {
          AddCandidate(dl, dataLists, statics, xk, yk, zk);
          added := [Cand(m, n, k)];
        } else {
          tally.skipped := tally.skipped + 1;
        }
      }
    }
  }

  /** One round of the m loop. */
  lemma {:induction false} MLoopStep(judge: Cand -> Verdict, lim: Limits, m: int, top: int)
    requires 0 <= m <= top
    ensures MLoop(judge, lim, m, top) == Join(NLoop(judge, lim, m, StartN(m)), MLoop(judge, lim, m + 1, top))
  {
  }

  /** One round of the n loop, while n is below m. */
  lemma {:induction false} NLoopStep(judge: Cand -> Verdict, lim: Limits, m: int, n: int)
    requires 1 <= n < m
    ensures Hyp(m, n) > 0
    ensures NLoop(judge, lim, m, n) ==
      if Hyp(m, n) > lim.maxValue || lim.maxValue / Hyp(m, n) == 0 then Gen([], 0)
      else Join(KLoop(judge, lim, m, n, TopK(lim.maxValue, Hyp(m, n))), NLoop(judge, lim, m, n + 2))
  {
    HypPositive(m, n);
  }

  /** One round of the k loop, while its condition holds. */
  lemma {:induction false} KLoopStep(judge: Cand -> Verdict, lim: Limits, m: int, n: int, k: int)
    requires Hyp(m, n) % 3 != 0 && k > 0 && k * Hyp(m, n) > lim.minValue
    ensures var here := Cand(m, n, k);
      KLoop(judge, lim, m, n, k) ==
        if k <= 1 then Step(judge(here), here) else Join(Step(judge(here), here), KLoop(judge, lim, m, n, k - 2))
  {
  }

  /** The running products of the k loop, two rounds of k further down. */
  lemma {:induction false} NextRound(k: int, p: int, q: int, r: int)
    ensures (k - 2) * p == k * p - p * 2 && (k - 2) * q == k * q - q * 2 && (k - 2) * r == k * r - r * 2
  {
  }

  /** Both legs lie between 0 and the hypotenuse, which is within the maximum below 2^62. */
  lemma {:induction false} LegsWithin(m: int, n: int, k: int, lim: Limits)
    requires 1 <= n < m && 0 < k && k * Hyp(m, n) <= lim.maxValue < Cap
    ensures InU64(k * OddLeg(m, n)) && InU64(k * EvenLeg(m, n)) && InU64(k * Hyp(m, n))
  {
    var u, v, w, d := m * m, n * n, m * n, m - n;
    MulLeftMono(n, m, n);
    MulLeftMono(n, m, m);
    assert 0 <= u - v;
    assert d * d == u - 2 * w + v;
    assert 0 <= d * d;
    assert 0 <= OddLeg(m, n) <= Hyp(m, n) && 0 <= EvenLeg(m, n) <= Hyp(m, n);
    MulLeftMono(0, OddLeg(m, n), k);
    MulLeftMono(OddLeg(m, n), Hyp(m, n), k);
    MulLeftMono(0, EvenLeg(m, n), k);
    MulLeftMono(EvenLeg(m, n), Hyp(m, n), k);
  }

  /** Every candidate a thread hands over is a Pythagorean triple within the limits that passed every filter. */
  lemma {:induction false} ThreadTriples(judge: Cand -> Verdict, lim: Limits, lo: int, top: int, c: Cand)
    requires 0 <= lo && JudgedBy(judge, lim) && c in MLoop(judge, lim, lo, top).cands
    ensures X(c) * X(c) + Y(c) * Y(c) == Z(c) * Z(c)
    ensures lim.minValue < Z(c) <= lim.maxValue && c.k % 2 == 1 && c.k % 3 != 0 && Hyp(c.m, c.n) % 3 != 0
    ensures CheckEdgeOf(X(c), lim.minOdd, lim.minEven) && CheckEdgeOf(Y(c), lim.minOdd, lim.minEven)
    ensures Accepts(Digit64(X(c)), Digit64(Y(c)))
  {
    MLoopSound(judge, lim, lo, top, c);
    assert judge(c) == Judge(lim, c);
    Pythagorean(c);
  }

  /**
   * Under `Valid`, every square and hypotenuse base of the generator fits
   * in 64 bits, so unbounded integers model its arithmetic exactly.
   */
  lemma {:induction false} ProductsFit(maxValue: int, high: int, m: int, n: int)
    requires 0 <= maxValue < Cap && 1 <= high && (high - 1) * (high - 1) <= maxValue
    requires 1 <= n < m <= high
    ensures InU64(m * m) && InU64(Hyp(m, n)) && InU64(EvenLeg(m, n))
  {
    var h := 0x8000_0000;
    if high - 1 >= h {
      MulLeftMono(h, high - 1, h);
      MulLeftMono(h, high - 1, high - 1);
      assert false;
    }
    MulLeftMono(m, h, m);
    MulLeftMono(m, h, h);
    MulLeftMono(n, m, n);
    MulLeftMono(n, m, m);
    var d := m - n;
    assert d * d == m * m - 2 * (m * n) + n * n;
    assert 0 <= d * d;
  }

  /**
   * The constructor: a lower bound below 2 is refused; the square roots,
   * computed in floating point by the constructor, are parameters.
   */
  method NewFormula(low: int, high: int, sqrtLow: int, sqrtHigh: int, minOdd: int, minEven: int) returns (r: Result<PPTFormula>)
    ensures r.Err? <==> low < 2
    ensures r.Ok? ==> fresh(r.value) && r.value.low == sqrtLow && r.value.high == sqrtHigh + 1
    ensures r.Ok? ==> r.value.minValue == low && r.value.maxValue == high && r.value.minOdd == minOdd && r.value.minEven == minEven
    ensures r.Ok? && 0 <= high < Cap && 0 <= sqrtHigh && sqrtHigh * sqrtHigh <= high < (sqrtHigh + 1) * (sqrtHigh + 1) ==> r.value.Valid()
  {
    if low < 2 {
      return Err("Low cannot be less than 2");
    }
    var f := new PPTFormula(sqrtLow, sqrtHigh + 1, low, high, minOdd, minEven);
    return Ok(f);
  }

  // ---------------------------------------------------------------------
  // Test data

  /** The buffers at the first `Output` of `GenerateTestData`, in sorted order. */
  function FirstBatch(): seq<seq<Node>>
  {
    [[Node(44, 267, 0, 270), Node(120, 125, 0, 270), Node(44, 267, 0, 271), Node(125, 240, 0, 271), Node(117, 244, 0, 272)],
     [Node(117, 244, 0, 270), Node(44, 267, 0, 272), Node(126, 239, 0, 272)]]
  }

  /** The buffers at the second `Output`. */
  function SecondBatch(): seq<seq<Node>>
  {
    [[Node(117, 244, 0, 271), Node(220, 240, 0, 271)],
     [Node(49, 267, 0, 271), Node(125, 240, 0, 271)]]
  }

  /** Two buffers, each sorted, holding exactly the records of `FirstBatch()`. */
  predicate IsFirstBatch(b: seq<seq<Node>>)
  {
    |b| == 2 && Sorted(b[0]) && Sorted(b[1]) &&
    Elems(b[0]) == {Node(44, 267, 0, 270), Node(120, 125, 0, 270), Node(44, 267, 0, 271), Node(125, 240, 0, 271), Node(117, 244, 0, 272)} &&
    Elems(b[1]) == {Node(117, 244, 0, 270), Node(44, 267, 0, 272), Node(126, 239, 0, 272)}
  }

  /** Two buffers, each sorted, holding exactly the records of `SecondBatch()`. */
  predicate IsSecondBatch(b: seq<seq<Node>>)
  {
    |b| == 2 && Sorted(b[0]) && Sorted(b[1]) &&
    Elems(b[0]) == {Node(117, 244, 0, 271), Node(220, 240, 0, 271)} &&
    Elems(b[1]) == {Node(49, 267, 0, 271), Node(125, 240, 0, 271)}
  }

  /** The listed batches are sorted and hold the listed records. */
  lemma BatchesWellFormed()
    ensures IsFirstBatch(FirstBatch()) && IsSecondBatch(SecondBatch())
  {
  }

  /** Sorted buffers are fixed by their records: each batch has exactly one listing. */
  lemma FirstBatchListed(b: seq<seq<Node>>)
    ensures IsFirstBatch(b) <==> b == FirstBatch()
  {
    BatchesWellFormed();
    if IsFirstBatch(b) {
      SortedUnique(b[0], FirstBatch()[0]);
      SortedUnique(b[1], FirstBatch()[1]);
    }
  }

  lemma SecondBatchListed(b: seq<seq<Node>>)
    ensures IsSecondBatch(b) <==> b == SecondBatch()
  {
    BatchesWellFormed();
    if IsSecondBatch(b) {
      SortedUnique(b[0], SecondBatch()[0]);
      SortedUnique(b[1], SecondBatch()[1]);
    }
  }

  /** The first eight adds of `GenerateTestData`, into two empty buffers. */
  method AddFirstBatch(l0: DataList, l1: DataList, statics: Spill)
    requires l0 != l1 && l0.Valid() && l1.Valid() && l0.nodes == [] && l1.nodes == []
    modifies l0, l1, statics
    ensures l0.Valid() && l1.Valid() && IsFirstBatch([l0.nodes, l1.nodes])
    ensures statics.readyToWriteCount == old(statics.readyToWriteCount) + 8
    ensures unchanged(statics`totalCount, statics`fileIndex, statics`writeIndex, statics`countInFile, statics`totalThreads)
  {
    l0.AddPair(44, 267, 271, statics);
    l0.AddPair(125, 240, 271, statics);
    l0.AddPair(44, 267, 270, statics);
    l1.AddPair(117, 244, 270, statics);
    l0.AddPair(125, 120, 270, statics);
    l1.AddPair(44, 267, 272, statics);
    l0.AddPair(117, 244, 272, statics);
    l1.AddPair(126, 239, 272, statics);
  }

  /** Two new buffers holding the first batch. */
  method NewFirstBatch(statics: Spill) returns (l0: DataList, l1: DataList, ghost first: seq<seq<Node>>)
    modifies statics
    ensures fresh(l0) && fresh(l1) && l0 != l1 && l0.Valid() && l1.Valid()
    ensures first == [l0.nodes, l1.nodes] && IsFirstBatch(first) && BufsFit(first)
    ensures unchanged(statics`totalCount, statics`fileIndex, statics`writeIndex, statics`countInFile, statics`totalThreads)
  {
    l0 := new DataList();
    l1 := new DataList();
    AddFirstBatch(l0, l1, statics);
    first := [l0.nodes, l1.nodes];
    BatchFits(first);
  }

  /** The start of `GenerateTestData`: two new buffers, the first eight adds and the first `Output`. */
  method SpillFirstBatch(statics: Spill) returns (l0: DataList, l1: DataList, r: Result<()>, ghost first: seq<seq<Node>>)
    requires statics.Valid() && statics.layout == NodeLayout
    modifies statics, statics.writeBuffer, statics.dir
    ensures fresh(l0) && fresh(l1) && l0 != l1 && l0.Valid() && l1.Valid() && AllFit(l0.nodes) && AllFit(l1.nodes)
    ensures IsFirstBatch(first) && BufsFit(first)
    ensures statics.Valid() && statics.fileIndex == old(statics.fileIndex) + 1
    ensures r.Err? <==> statics.fileIndex in old(statics.dir.files)
    ensures r.Ok? ==> statics.dir.files == old(statics.dir.files)[statics.fileIndex := RunFile(NodeLayout, first)]
    ensures r.Ok? ==> l0.nodes == [] && l1.nodes == []
    ensures r.Err? ==> statics.dir.files == old(statics.dir.files)
  {
    l0, l1, first := NewFirstBatch(statics);
    var lists := [l0, l1];
    assert Contents(lists) == first;
    ghost var seeded;
    r, seeded := Output(lists, statics);
    assert AllFit(l0.nodes) && AllFit(l1.nodes) by {
      if r.Err? {
        assert Contents(lists) == first;
      }
    }
  }

  /** The four adds after the first spill. */
  method AddSecondBatch(l0: DataList, l1: DataList, statics: Spill)
    requires l0 != l1 && l0.Valid() && l1.Valid() && AllFit(l0.nodes) && AllFit(l1.nodes)
    modifies l0, l1, statics
    ensures l0.Valid() && l1.Valid() && AllFit(l0.nodes) && AllFit(l1.nodes)
    ensures Elems(l0.nodes) == old(Elems(l0.nodes)) + {Node(117, 244, 0, 271), Node(220, 240, 0, 271)}
    ensures Elems(l1.nodes) == old(Elems(l1.nodes)) + {Node(49, 267, 0, 271), Node(125, 240, 0, 271)}
    ensures old(l0.nodes) == [] && old(l1.nodes) == [] ==> IsSecondBatch([l0.nodes, l1.nodes])
    ensures statics.readyToWriteCount == old(statics.readyToWriteCount) + 4
    ensures unchanged(statics`totalCount, statics`fileIndex, statics`writeIndex, statics`countInFile, statics`totalThreads)
  {
    l0.AddPair(117, 244, 271, statics);
    l1.AddPair(125, 240, 271, statics);
    l1.AddPair(49, 267, 271, statics);
    l0.AddPair(220, 240, 271, statics);
    forall x | x in l0.nodes ensures Fits64(x) {
      assert x in Elems(l0.nodes);
    }
    forall x | x in l1.nodes ensures Fits64(x) {
      assert x in Elems(l1.nodes);
    }
  }

  lemma BatchFits(b: seq<seq<Node>>)
    requires IsFirstBatch(b)
    ensures BufsFit(b)
  {
    forall i, x | 0 <= i < 2 && x in b[i] ensures Fits64(x) {
      assert x in Elems(b[i]);
    }
  }

  /** The end of `GenerateTestData`: the four further adds and the second `Output`. */
  method SpillSecondBatch(l0: DataList, l1: DataList, statics: Spill) returns (r: Result<()>, ghost second: seq<seq<Node>>)
    requires l0 != l1 && l0.Valid() && l1.Valid() && AllFit(l0.nodes) && AllFit(l1.nodes)
    requires statics.Valid() && statics.layout == NodeLayout
    modifies l0, l1, statics, statics.writeBuffer, statics.dir
    ensures old(l0.nodes) == [] && old(l1.nodes) == [] ==> IsSecondBatch(second)
    ensures BufsFit(second)
    ensures statics.Valid() && statics.fileIndex == old(statics.fileIndex) + 1
    ensures r.Err? <==> statics.fileIndex in old(statics.dir.files)
    ensures r.Ok? ==> statics.dir.files == old(statics.dir.files)[statics.fileIndex := RunFile(NodeLayout, second)]
    ensures r.Err? ==> statics.dir.files == old(statics.dir.files)
  {
    AddSecondBatch(l0, l1, statics);
    second := [l0.nodes, l1.nodes];
    var lists := [l0, l1];
    assert Contents(lists) == second;
    ghost var seeded;
    r, seeded := Output(lists, statics);
  }

  /**
   * The G = 271 records of the test data, over both run files, are the
   * five-record group on which the finder reports its one match.
   */
  lemma TestDataGroup()
    ensures (set x | x in UnionOf(FirstBatch()) + UnionOf(SecondBatch()) && x.g == 271) == Elems(Finder.TestGroup())
  {
  }

  // ---------------------------------------------------------------------
  // FindValue

  /** Non-decreasing order, the order of the square table `FindValue` searches. */
  predicate Ascending(s: seq<int>)
  {
    forall i, j :: 0 <= i < j < |s| ==> s[i] <= s[j]
  }

  /**
   * The binary search of `FindValue` as written: a probe above the value
   * moves `high` to `mid - 1` although `high` is exclusive, so the record
   * at `mid - 1` is never looked at again.
   */
  function SearchAsWritten(s: seq<int>, v: int, low: int, high: int): (r: int)
    requires 0 <= low && high <= |s|
    ensures r == -1 || (low <= r < high && s[r] == v)
    decreases high - low
  {
    if low >= high then -1
    else
      var mid := (low + high) / 2;
      if s[mid] == v then mid
      else if s[mid] < v then SearchAsWritten(s, v, mid + 1, high)
      else SearchAsWritten(s, v, low, mid - 1)
  }

  /** `FindValue`: the loop computes the search above; a hit is a position of the value. */
  method FindValue(a: array<int>, value: int) returns (r: int)
    ensures r == SearchAsWritten(a[..], value, 0, a.Length)
    ensures r == -1 || (0 <= r < a.Length && a[r] == value)
  {
    var high := a.Length;
    var low := 0;
    while low < high
      invariant 0 <= low && high <= a.Length
      invariant SearchAsWritten(a[..], value, low, high) == SearchAsWritten(a[..], value, 0, a.Length)
      decreases high - low
    {
      var mid := (low + high) / 2;
      if a[mid] == value {
        return mid;
      }
      if a[mid] < value {
        low := mid + 1;
      } else {
        high := mid - 1;
      }
    }
    return -1;
  }

  /** A present value that the written search reports as absent. */
  lemma FindValueMissesFirst()
    ensures Ascending([1, 2, 3]) && 1 in [1, 2, 3]
    ensures SearchAsWritten([1, 2, 3], 1, 0, 3) == -1
  {
  }

  /**
   * The evidently intended search: `high = mid` keeps `high` exclusive.
   * On an ascending array it reports a position of the value exactly when
   * the value is present.
   */
  method FindValueFixed(a: array<int>, value: int) returns (r: int)
    ensures r == -1 || (0 <= r < a.Length && a[r] == value)
    ensures Ascending(a[..]) ==> (r == -1 <==> value !in a[..])
  {
    var high := a.Length;
    var low := 0;
    while low < high
      invariant 0 <= low <= high <= a.Length
      invariant Ascending(a[..]) ==> forall i :: 0 <= i < a.Length && a[i] == value ==> low <= i < high
      decreases high - low
    {
      var mid := (low + high) / 2;
      if a[mid] == value {
        return mid;
      }
      if a[mid] < value {
        low := mid + 1;
      } else {
        high := mid;
      }
    }
    return -1;
  }
}
