/**
 * `Finder` (Finder.cs): cuts the merged stream of records into groups of
 * equal G and searches each group for edges A, B and a record (C, D) with
 * A^2 + B^2 = C^2 or D^2. The stream is what the merge cursor of `Merger`
 * still has to return; `previous` is the record read ahead of it.
 */
module Finder {
  import opened Records
  import opened Wrappers
  import opened KWay
  import opened Merger

  // ---------------------------------------------------------------------
  // Grouping

  /** The number of leading records whose G is g. */
  function GroupLen(g: int, s: seq<Node>): (k: nat)
    ensures k <= |s|
    ensures forall t :: 0 <= t < k ==> s[t].g == g
    ensures k < |s| ==> s[k].g != g
  {
    if s != [] && s[0].g == g then 1 + GroupLen(g, s[1..]) else 0
  }

  /** The `SortedSet` that adding the records of xs one by one builds: ascending, each once. */
  ghost function SetOf(xs: seq<Node>): (r: seq<Node>)
    ensures Sorted(r) && Elems(r) == Elems(xs)
  {
    assert Sorted(InsertAll([], xs)) && Elems(InsertAll([], xs)) == Elems(xs);
    var r :| Sorted(r) && Elems(r) == Elems(xs);
    r
  }

  /**
   * `GetNextKeyDataList` on the stream s: the first same-G group, as a
   * sorted set, that has at least minCount records and a G of at least low;
   * skipped plus the sizes of the groups passed over on the way; and the
   * stream after the group returned. An empty set means the stream ran out.
   */
  ghost function KeyList(s: seq<Node>, skipped: nat, minCount: nat, low: int): (r: (seq<Node>, nat, seq<Node>))
    decreases |s|
  {
    if s == [] then ([], skipped, [])
    else
      var k := GroupLen(s[0].g, s);
      var grp := SetOf(s[..k]);
      assert s[0] in Elems(s[..k]);
      if |grp| < minCount || grp[0].g < low then KeyList(s[k..], skipped + |grp|, minCount, low)
      else (grp, skipped, s[k..])
  }

  /** What is left after the call is a suffix of the stream. */
  lemma {:induction false} KeyListRest(s: seq<Node>, skipped: nat, minCount: nat, low: int)
    ensures var r := KeyList(s, skipped, minCount, low); |r.2| <= |s| && r.2 == s[|s| - |r.2|..]
    decreases |s|
  {
    if s != [] {
      var k := GroupLen(s[0].g, s);
      var grp := SetOf(s[..k]);
      assert s[0] in Elems(s[..k]);
      if |grp| < minCount || grp[0].g < low {
        KeyListRest(s[k..], skipped + |grp|, minCount, low);
      }
    }
  }

  /** An empty set is returned only when the stream has run out. */
  lemma {:induction false} KeyListEmpty(s: seq<Node>, skipped: nat, minCount: nat, low: int)
    ensures var r := KeyList(s, skipped, minCount, low); r.0 == [] ==> r.2 == []
    decreases |s|
  {
    if s != [] {
      var k := GroupLen(s[0].g, s);
      var grp := SetOf(s[..k]);
      assert s[0] in Elems(s[..k]);
      if |grp| < minCount || grp[0].g < low {
        KeyListEmpty(s[k..], skipped + |grp|, minCount, low);
      }
    }
  }

  /**
   * A set returned is ascending, holds records of the stream that all have
   * one G of at least low, has at least minCount records, and the record
   * after it (the new `previous`) has another G.
   */
  lemma {:induction false} KeyListShape(s: seq<Node>, skipped: nat, minCount: nat, low: int)
    ensures var r := KeyList(s, skipped, minCount, low);
      r.0 != [] ==>
        (Sorted(r.0) && |r.0| >= minCount && r.0[0].g >= low
         && (forall x :: x in r.0 ==> x in s && x.g == r.0[0].g)
         && (r.2 != [] ==> r.2[0].g != r.0[0].g))
    decreases |s|
  {
    if s != [] {
      var k := GroupLen(s[0].g, s);
      var grp := SetOf(s[..k]);
      assert s[0] in Elems(s[..k]);
      if |grp| < minCount || grp[0].g < low {
        KeyListShape(s[k..], skipped + |grp|, minCount, low);
      } else {
        forall x | x in grp ensures x in s && x.g == grp[0].g {
          assert x in Elems(s[..k]) && grp[0] in Elems(s[..k]);
        }
      }
    }
  }

  /**
   * On a strictly ascending stream every record read is either in the set
   * returned or counted as skipped.
   */
  lemma {:induction false} KeyListCounts(s: seq<Node>, skipped: nat, minCount: nat, low: int)
    requires Sorted(s)
    ensures var r := KeyList(s, skipped, minCount, low); r.1 + |r.0| == skipped + |s| - |r.2|
    decreases |s|
  {
    if s != [] {
      var k := GroupLen(s[0].g, s);
      var grp := SetOf(s[..k]);
      assert Sorted(s[..k]);
      SortedUnique(grp, s[..k]);
      assert Sorted(s[k..]);
      KeyListCounts(s[k..], skipped + |grp|, minCount, low);
    }
  }

  /** `GetNextKeyDataListGroup` on the stream s: count calls of `GetNextKeyDataList`. */
  ghost function KeyLists(s: seq<Node>, count: nat, minCount: nat, low: int): (r: (seq<seq<Node>>, nat, seq<Node>))
    ensures |r.0| == count
    decreases count
  {
    if count == 0 then ([], 0, s)
    else
      var prev := KeyLists(s, count - 1, minCount, low);
      var last := KeyList(prev.2, 0, minCount, low);
      (prev.0 + [last.0], prev.1 + last.1, last.2)
  }

  /** One more call of `GetNextKeyDataList` extends `KeyLists` by its group. */
  lemma {:induction false} KeyListsStep(s: seq<Node>, count: nat, minCount: nat, low: int, prev: (seq<seq<Node>>, nat, seq<Node>),
                     group: seq<Node>, skippedOne: nat, groups: seq<seq<Node>>, skipped: nat, rest: seq<Node>)
    requires prev == KeyLists(s, count, minCount, low)
    requires (group, skippedOne, rest) == KeyList(prev.2, 0, minCount, low)
    requires groups == prev.0 + [group] && skipped == prev.1 + skippedOne
    ensures (groups, skipped, rest) == KeyLists(s, count + 1, minCount, low)
  {
  }

  /**
   * Groups come out in stream order: once one is empty the stream has run
   * out, and every later one is empty too.
   */
  lemma {:induction false} KeyListsTail(s: seq<Node>, count: nat, minCount: nat, low: int)
    ensures forall p :: 0 <= p < count && KeyLists(s, count, minCount, low).0[p] == [] ==>
      KeyLists(s, count, minCount, low).2 == []
    ensures forall p, q :: 0 <= p < q < count && KeyLists(s, count, minCount, low).0[p] == [] ==>
      KeyLists(s, count, minCount, low).0[q] == []
    decreases count
  {
    if count > 0 {
      var prev := KeyLists(s, count - 1, minCount, low);
      KeyListsTail(s, count - 1, minCount, low);
      var last := KeyList(prev.2, 0, minCount, low);
      KeyListEmpty(prev.2, 0, minCount, low);
      var r := KeyLists(s, count, minCount, low);
      assert r.0 == prev.0 + [last.0] && r.2 == last.2;
      forall p | 0 <= p < count && r.0[p] == [] ensures r.2 == [] {
        if p < count - 1 {
          assert prev.0[p] == r.0[p];
        }
      }
      forall p, q | 0 <= p < q < count && r.0[p] == [] ensures r.0[q] == [] {
        assert prev.0[p] == r.0[p];
        if q < count - 1 {
          assert r.0[q] == prev.0[q];
        } else {
          assert r.0[q] == last.0;
        }
      }
    }
  }

  // ---------------------------------------------------------------------
  // The pair search of `CheckDataListA`

  /** A candidate the search reports, with the indices it came from. */
  datatype Found = Found(i: nat, j: nat, k: nat, a: int, b: int, c: int, d: int, e: int, f: int, g: int)

  /** `key * key` on UInt64: the square wraps modulo 2^64. */
  function Sq64(x: int): int { (x * x) % U64 }

  /** The precomputed `squares[t, 0]` and `squares[t, 1]`. */
  function SqA(data: seq<Node>, t: nat): int requires t < |data| { Sq64(data[t].a) }
  function SqB(data: seq<Node>, t: nat): int requires t < |data| { Sq64(data[t].b) }

  predicate Odd(x: int) { x % 2 == 1 }

  /** A record whose squared short or long edge is ab2. */
  predicate Matches(data: seq<Node>, ab2: int, t: nat) requires t < |data|
  {
    ab2 == SqA(data, t) || ab2 == SqB(data, t)
  }

  /**
   * The binary search for a record in [lo, hi] matching ab2: on a miss, the
   * upper half is dropped when ab2 is below C^2 or above D^2, the lower half
   * otherwise.
   */
  function Probe(data: seq<Node>, ab2: int, lo: int, hi: int): (r: Option<nat>)
    requires 0 <= lo && hi < |data|
    ensures r.Some? ==> lo <= r.value <= hi && Matches(data, ab2, r.value)
    decreases hi - lo + 1
  {
    if lo > hi then None
    else
      var mid := (lo + hi) / 2;
      if Matches(data, ab2, mid) then Some(mid)
      else if ab2 < SqA(data, mid) || SqB(data, mid) < ab2 then Probe(data, ab2, lo, mid - 1)
      else Probe(data, ab2, mid + 1, hi)
  }

  /** Records p <= q in order: short edges ascending, long edges descending, short below long, by squares. */
  predicate Ordered(data: seq<Node>, p: nat, q: nat)
    requires p < |data| && q < |data|
  {
    SqA(data, p) <= SqA(data, q) && SqB(data, q) <= SqB(data, p) && SqA(data, q) <= SqB(data, q)
  }

  /** Every two records of [lo, hi] are in order. */
  predicate Monotone(data: seq<Node>, lo: int, hi: int)
    requires 0 <= lo && hi < |data|
  {
    forall p, q :: lo <= p <= q <= hi ==> Ordered(data, p, q)
  }

  /** On such a group every narrowing step drops only records that cannot match: a miss means no match. */
  lemma {:induction false} ProbeComplete(data: seq<Node>, ab2: int, lo: int, hi: int)
    requires 0 <= lo && hi < |data| && Monotone(data, lo, hi)
    ensures Probe(data, ab2, lo, hi).None? ==> forall t :: lo <= t <= hi ==> !Matches(data, ab2, t)
    decreases hi - lo + 1
  {
    if lo <= hi {
      var mid := (lo + hi) / 2;
      if !Matches(data, ab2, mid) {
        ProbeNarrows(data, ab2, lo, hi, mid);
        if ab2 < SqA(data, mid) || SqB(data, mid) < ab2 {
          MonotoneWithin(data, lo, hi, lo, mid - 1);
          ProbeComplete(data, ab2, lo, mid - 1);
          NoMatchAbove(data, ab2, lo, hi, mid);
        } else {
          MonotoneWithin(data, lo, hi, mid + 1, hi);
          ProbeComplete(data, ab2, mid + 1, hi);
          NoMatchBelow(data, ab2, lo, hi, mid);
        }
      }
    }
  }

  /** A miss at mid: the search goes on in the half `Probe` keeps. */
  lemma {:induction false} ProbeNarrows(data: seq<Node>, ab2: int, lo: int, hi: int, mid: int)
    requires 0 <= lo <= hi < |data| && mid == (lo + hi) / 2 && !Matches(data, ab2, mid)
    ensures ab2 < SqA(data, mid) || SqB(data, mid) < ab2 ==> Probe(data, ab2, lo, hi) == Probe(data, ab2, lo, mid - 1)
    ensures !(ab2 < SqA(data, mid) || SqB(data, mid) < ab2) ==> Probe(data, ab2, lo, hi) == Probe(data, ab2, mid + 1, hi)
  {
  }

  /** One round of the search loop: a match at mid ends it, a miss narrows it as `Probe` does. */
  lemma {:induction false} ProbeStep(data: seq<Node>, ab2: int, lo: int, hi: int, mid: int, c2: int, d2: int)
    requires 0 <= lo <= hi < |data| && mid == (lo + hi) / 2 && c2 == SqA(data, mid) && d2 == SqB(data, mid)
    ensures ab2 == c2 || ab2 == d2 ==> Probe(data, ab2, lo, hi) == Some(mid)
    ensures !(ab2 == c2 || ab2 == d2) && (ab2 < c2 || d2 < ab2) ==> Probe(data, ab2, lo, hi) == Probe(data, ab2, lo, mid - 1)
    ensures !(ab2 == c2 || ab2 == d2 || ab2 < c2 || d2 < ab2) ==> Probe(data, ab2, lo, hi) == Probe(data, ab2, mid + 1, hi)
  {
  }

  lemma {:induction false} MonotoneWithin(data: seq<Node>, lo: int, hi: int, lo': int, hi': int)
    requires 0 <= lo <= lo' && hi' <= hi < |data| && Monotone(data, lo, hi)
    ensures Monotone(data, lo', hi')
  {
  }

  /** Below C^2 or above D^2 at mid: nothing from mid up matches. */
  lemma {:induction false} NoMatchAbove(data: seq<Node>, ab2: int, lo: int, hi: int, mid: int)
    requires 0 <= lo <= mid <= hi < |data| && Monotone(data, lo, hi)
    requires !Matches(data, ab2, mid) && (ab2 < SqA(data, mid) || SqB(data, mid) < ab2)
    ensures forall t :: mid <= t <= hi ==> !Matches(data, ab2, t)
  {
    forall t | mid <= t <= hi ensures !Matches(data, ab2, t) {
      assert Ordered(data, mid, t);
    }
  }

  /** Between C^2 and D^2 at mid without a match there: nothing from mid down matches. */
  lemma {:induction false} NoMatchBelow(data: seq<Node>, ab2: int, lo: int, hi: int, mid: int)
    requires 0 <= lo <= mid <= hi < |data| && Monotone(data, lo, hi)
    requires !Matches(data, ab2, mid) && SqA(data, mid) <= ab2 <= SqB(data, mid)
    ensures forall t :: lo <= t <= mid ==> !Matches(data, ab2, t)
  {
    forall t | lo <= t <= mid ensures !Matches(data, ab2, t) {
      assert Ordered(data, t, mid);
    }
  }

  /** The report for pair (i, j) given the search result. */
  function Hit(data: seq<Node>, i: nat, j: nat, r: Option<nat>): seq<Found>
    requires i < j < |data| && (r.Some? ==> r.value < |data|)
  {
    if r.Some? then
      [Found(i, j, r.value, data[i].a, data[j].a, data[r.value].a, data[r.value].b, data[j].b, data[i].b, data[0].g)]
    else []
  }

  /**
   * The j-loop of row i from j on: pairs of two odd short edges are passed
   * over, the loop stops at the first B not below the bound for F, and each
   * other pair searches the records after j.
   */
  function Pairs(data: seq<Node>, half: int -> int, i: nat, j: nat): seq<Found>
    requires i < j
    decreases |data| - j
  {
    if j >= |data| - 1 then []
    else if Odd(data[i].a) && Odd(data[j].a) then Pairs(data, half, i, j + 1)
    else if !(data[j].a < half(data[i].b)) then []
    else Hit(data, i, j, Probe(data, SqA(data, i) + SqA(data, j), j + 1, |data| - 1)) + Pairs(data, half, i, j + 1)
  }

  /** The i-loop from i on: stops at the first A not below the bound for G. */
  function Rows(data: seq<Node>, gBound: int, half: int -> int, i: nat): seq<Found>
    decreases |data| - i
  {
    if i >= |data| - 2 then []
    else if !(data[i].a < gBound) then []
    else Pairs(data, half, i, i + 1) + Rows(data, gBound, half, i + 1)
  }

  /** What makes a report: its indices, its edges, the Pythagorean match and the loop bounds. */
  predicate Sound(data: seq<Node>, gBound: int, half: int -> int, f: Found)
  {
    f.i < f.j < f.k < |data|
    && f.a == data[f.i].a && f.f == data[f.i].b && f.b == data[f.j].a && f.e == data[f.j].b
    && f.c == data[f.k].a && f.d == data[f.k].b && f.g == data[0].g
    && Matches(data, SqA(data, f.i) + SqA(data, f.j), f.k)
    && !(Odd(f.a) && Odd(f.b)) && f.a < gBound && f.b < half(f.f)
  }

  /** Lexicographic order on the pair (i, j) of a report. */
  predicate PairBefore(x: Found, y: Found) { x.i < y.i || (x.i == y.i && x.j < y.j) }

  lemma {:induction false} PairsSound(data: seq<Node>, gBound: int, half: int -> int, i: nat, j: nat)
    requires i < j && i < |data| && data[i].a < gBound
    ensures forall f :: f in Pairs(data, half, i, j) ==> Sound(data, gBound, half, f) && f.i == i && j <= f.j
    decreases |data| - j
  {
    if j < |data| - 1 {
      if Odd(data[i].a) && Odd(data[j].a) {
        PairsSound(data, gBound, half, i, j + 1);
      } else if data[j].a < half(data[i].b) {
        PairsSound(data, gBound, half, i, j + 1);
      }
    }
  }

  lemma {:induction false} PairsOrdered(data: seq<Node>, half: int -> int, i: nat, j: nat)
    requires i < j
    ensures forall f :: f in Pairs(data, half, i, j) ==> f.i == i && j <= f.j
    ensures forall p, q :: 0 <= p < q < |Pairs(data, half, i, j)| ==>
      Pairs(data, half, i, j)[p].j < Pairs(data, half, i, j)[q].j
    decreases |data| - j
  {
    if j < |data| - 1 {
      PairsOrdered(data, half, i, j + 1);
      var rest := Pairs(data, half, i, j + 1);
      if !(Odd(data[i].a) && Odd(data[j].a)) && data[j].a < half(data[i].b) {
        var hit := Hit(data, i, j, Probe(data, SqA(data, i) + SqA(data, j), j + 1, |data| - 1));
        var all := hit + rest;
        forall p, q | 0 <= p < q < |all| ensures all[p].j < all[q].j {
          assert all[q] == rest[q - |hit|] && rest[q - |hit|] in rest;
          if p >= |hit| {
            assert all[p] == rest[p - |hit|];
          }
        }
        forall f | f in all ensures f.i == i && j <= f.j {
          if f !in hit {
            assert f in rest;
          }
        }
      }
    }
  }

  /** Every report is sound. */
  lemma {:induction false} RowsSound(data: seq<Node>, gBound: int, half: int -> int, i: nat)
    ensures forall f :: f in Rows(data, gBound, half, i) ==> Sound(data, gBound, half, f) && i <= f.i
    decreases |data| - i
  {
    if i < |data| - 2 && data[i].a < gBound {
      PairsSound(data, gBound, half, i, i + 1);
      RowsSound(data, gBound, half, i + 1);
    }
  }

  /** The reports come in strictly increasing (i, j) order, so each pair yields at most one. */
  lemma {:induction false} RowsOrdered(data: seq<Node>, gBound: int, half: int -> int, i: nat)
    ensures forall f :: f in Rows(data, gBound, half, i) ==> i <= f.i
    ensures forall p, q :: 0 <= p < q < |Rows(data, gBound, half, i)| ==>
      PairBefore(Rows(data, gBound, half, i)[p], Rows(data, gBound, half, i)[q])
    decreases |data| - i
  {
    if i < |data| - 2 && data[i].a < gBound {
      PairsOrdered(data, half, i, i + 1);
      RowsOrdered(data, gBound, half, i + 1);
      var a, b := Pairs(data, half, i, i + 1), Rows(data, gBound, half, i + 1);
      assert forall q :: 0 <= q < |a| ==> a[q] in a;
      assert forall q :: 0 <= q < |b| ==> b[q] in b;
    }
  }

  /**
   * On a group ordered as `Monotone` says, a pair (i, j) that the j-loop
   * reaches, that is not two odd edges and whose B is below the bound for F,
   * is reported whenever a record after j matches.
   */
  lemma {:induction false} PairsComplete(data: seq<Node>, half: int -> int, i: nat, j0: nat, j: nat, t: nat)
    requires i < j0 <= j < t < |data| && Monotone(data, j + 1, |data| - 1)
    requires forall j' :: j0 <= j' < j ==> (Odd(data[i].a) && Odd(data[j'].a)) || data[j'].a < half(data[i].b)
    requires !(Odd(data[i].a) && Odd(data[j].a)) && data[j].a < half(data[i].b)
    requires Matches(data, SqA(data, i) + SqA(data, j), t)
    ensures exists f :: f in Pairs(data, half, i, j0) && f.j == j
  {
    var k := PairsWitness(data, half, i, j0, j, t);
    var ps := Pairs(data, half, i, j0);
    assert ps[k] in ps;
  }

  /**
   * Completeness of the whole search: a pair (i, j) that the i-loop and the
   * j-loop both reach and that has a match after j is reported.
   */
  lemma {:induction false} RowsComplete(data: seq<Node>, gBound: int, half: int -> int, i: nat, j: nat, t: nat)
    requires i < j < t < |data| && i < |data| - 2 && Monotone(data, j + 1, |data| - 1)
    requires forall i' :: 0 <= i' <= i ==> data[i'].a < gBound
    requires forall j' :: i < j' < j ==> (Odd(data[i].a) && Odd(data[j'].a)) || data[j'].a < half(data[i].b)
    requires !(Odd(data[i].a) && Odd(data[j].a)) && data[j].a < half(data[i].b)
    requires Matches(data, SqA(data, i) + SqA(data, j), t)
    ensures exists f :: f in Rows(data, gBound, half, 0) && f.i == i && f.j == j
  {
    var k := RowsWitness(data, gBound, half, 0, i, j, t);
    var rs := Rows(data, gBound, half, 0);
    assert rs[k] in rs;
  }

  /** Where in the reports from row i0 on `RowsComplete`'s report sits, by induction on i - i0. */
  lemma {:induction false} RowsWitness(data: seq<Node>, gBound: int, half: int -> int, i0: nat, i: nat, j: nat, t: nat) returns (k: nat)
    requires i0 <= i < j < t < |data| && i < |data| - 2 && Monotone(data, j + 1, |data| - 1)
    requires forall i' :: i0 <= i' <= i ==> data[i'].a < gBound
    requires forall j' :: i < j' < j ==> (Odd(data[i].a) && Odd(data[j'].a)) || data[j'].a < half(data[i].b)
    requires !(Odd(data[i].a) && Odd(data[j].a)) && data[j].a < half(data[i].b)
    requires Matches(data, SqA(data, i) + SqA(data, j), t)
    ensures k < |Rows(data, gBound, half, i0)| && Rows(data, gBound, half, i0)[k].i == i && Rows(data, gBound, half, i0)[k].j == j
    decreases i - i0
  {
    if i0 == i {
      var k' := PairsWitness(data, half, i, i + 1, j, t);
      k := RowsFromPairs(data, gBound, half, i0, k');
    } else {
      var k' := RowsWitness(data, gBound, half, i0 + 1, i, j, t);
      k := RowsKeeps(data, gBound, half, i0, k');
    }
  }

  /** A report of row i0 is one from row i0 on. */
  lemma {:induction false} RowsFromPairs(data: seq<Node>, gBound: int, half: int -> int, i0: nat, k: nat) returns (k': nat)
    requires i0 < |data| - 2 && data[i0].a < gBound && k < |Pairs(data, half, i0, i0 + 1)|
    ensures k' < |Rows(data, gBound, half, i0)| && Rows(data, gBound, half, i0)[k'] == Pairs(data, half, i0, i0 + 1)[k]
  {
    RowsStep(data, gBound, half, i0);
    k' := k;
  }

  /** A report from row i0 + 1 on is one from row i0 on, when the i-loop goes on past i0. */
  lemma {:induction false} RowsKeeps(data: seq<Node>, gBound: int, half: int -> int, i0: nat, k: nat) returns (k': nat)
    requires i0 < |data| - 2 && data[i0].a < gBound && k < |Rows(data, gBound, half, i0 + 1)|
    ensures k' < |Rows(data, gBound, half, i0)| && Rows(data, gBound, half, i0)[k'] == Rows(data, gBound, half, i0 + 1)[k]
  {
    RowsStep(data, gBound, half, i0);
    k' := |Pairs(data, half, i0, i0 + 1)| + k;
  }

  /** Where in the reports from j0 on `PairsComplete`'s report sits, by induction on j - j0. */
  lemma {:induction false} PairsWitness(data: seq<Node>, half: int -> int, i: nat, j0: nat, j: nat, t: nat) returns (k: nat)
    requires i < j0 <= j < t < |data| && Monotone(data, j + 1, |data| - 1)
    requires forall j' :: j0 <= j' < j ==> (Odd(data[i].a) && Odd(data[j'].a)) || data[j'].a < half(data[i].b)
    requires !(Odd(data[i].a) && Odd(data[j].a)) && data[j].a < half(data[i].b)
    requires Matches(data, SqA(data, i) + SqA(data, j), t)
    ensures k < |Pairs(data, half, i, j0)| && Pairs(data, half, i, j0)[k].i == i && Pairs(data, half, i, j0)[k].j == j
    decreases j - j0
  {
    if j0 < j {
      k := PairsWitness(data, half, i, j0 + 1, j, t);
      k := PairsKeeps(data, half, i, j0, k);
    } else {
      PairsHit(data, half, i, j0, t);
      k := 0;
    }
  }

  /** A report of the j-loop from j0 + 1 on is one from j0 on too, when the loop goes on past j0. */
  lemma {:induction false} PairsKeeps(data: seq<Node>, half: int -> int, i: nat, j0: nat, k: nat) returns (k': nat)
    requires i < j0 < |data| - 1 && ((Odd(data[i].a) && Odd(data[j0].a)) || data[j0].a < half(data[i].b))
    requires k < |Pairs(data, half, i, j0 + 1)|
    ensures k' < |Pairs(data, half, i, j0)| && Pairs(data, half, i, j0)[k'] == Pairs(data, half, i, j0 + 1)[k]
  {
    if Odd(data[i].a) && Odd(data[j0].a) {
      k' := k;
    } else {
      k' := |Hit(data, i, j0, Probe(data, SqA(data, i) + SqA(data, j0), j0 + 1, |data| - 1))| + k;
    }
  }

  /** A pair the j-loop searches and that has a match is reported first among the reports from j on. */
  lemma {:induction false} PairsHit(data: seq<Node>, half: int -> int, i: nat, j: nat, t: nat)
    requires i < j < t < |data| && Monotone(data, j + 1, |data| - 1)
    requires !(Odd(data[i].a) && Odd(data[j].a)) && data[j].a < half(data[i].b)
    requires Matches(data, SqA(data, i) + SqA(data, j), t)
    ensures 0 < |Pairs(data, half, i, j)| && Pairs(data, half, i, j)[0].i == i && Pairs(data, half, i, j)[0].j == j
  {
    ProbeComplete(data, SqA(data, i) + SqA(data, j), j + 1, |data| - 1);
    var r := Probe(data, SqA(data, i) + SqA(data, j), j + 1, |data| - 1);
    assert j + 1 <= t <= |data| - 1;
    assert r.Some?;
  }

  /** The G = 271 group of the test data, ordered by short edge. */
  function TestGroup(): seq<Node>
  {
    [Node(44, 267, 0, 271), Node(49, 267, 0, 271), Node(117, 244, 0, 271), Node(125, 240, 0, 271), Node(220, 240, 0, 271)]
  }

  /** Below 2^32 the wrapped square is the square. */
  lemma {:induction false} Sq64Small(x: int)
    requires 0 <= x < 0x1_0000_0000
    ensures Sq64(x) == x * x
  {
    assert x * x < 0x1_0000_0000 * 0x1_0000_0000 by {
      MulStrict(x, 0x1_0000_0000);
    }
  }

  lemma {:induction false} MulStrict(x: nat, y: nat)
    requires x < y
    ensures x * x < y * y
  {
  }

  lemma {:induction false} TestSquares()
    ensures SqA(TestGroup(), 0) == 1936 && SqA(TestGroup(), 1) == 2401 && SqA(TestGroup(), 2) == 13689
    ensures SqA(TestGroup(), 3) == 15625 && SqA(TestGroup(), 4) == 48400
    ensures SqB(TestGroup(), 2) == 59536 && SqB(TestGroup(), 3) == 57600 && SqB(TestGroup(), 4) == 57600
  {
    Sq64Small(44); Sq64Small(49); Sq64Small(117); Sq64Small(125); Sq64Small(220);
    Sq64Small(244); Sq64Small(240);
  }

  lemma {:induction false} TestGroupRow1(half: int -> int)
    requires half(267) == 188
    ensures Pairs(TestGroup(), half, 1, 2) == []
  {
  }

  lemma {:induction false} TestProbes()
    ensures Probe(TestGroup(), 4337, 2, 4) == None
    ensures Probe(TestGroup(), 15625, 3, 4) == Some(3)
    ensures Probe(TestGroup(), 17561, 4, 4) == None
  {
    TestSquares();
    var d := TestGroup();
    assert Probe(d, 4337, 2, 4) == Probe(d, 4337, 2, 2);
    assert Probe(d, 4337, 2, 2) == Probe(d, 4337, 2, 1);
  }

  lemma {:induction false} TestGroupRow0(half: int -> int)
    requires half(267) == 188
    ensures Pairs(TestGroup(), half, 0, 1) == [Found(0, 2, 3, 44, 117, 125, 240, 244, 267, 271)]
  {
    TestSquares();
    TestProbes();
    var d := TestGroup();
    assert Pairs(d, half, 0, 4) == [];
    assert Pairs(d, half, 0, 3) == [];
    assert Pairs(d, half, 0, 2) == [Found(0, 2, 3, 44, 117, 125, 240, 244, 267, 271)];
  }

  /**
   * With floor(sqrt(3)/3 * 271) = 156 and floor(sqrt(2)/2 * 267) = 188,
   * floor(sqrt(2)/2 * 244) = 172, the search reports exactly A = 44,
   * B = 117, C = 125, D = 240.
   */
  lemma {:induction false} TestGroupFinds(half: int -> int)
    requires half(267) == 188 && half(244) == 172
    ensures Rows(TestGroup(), 156, half, 0) == [Found(0, 2, 3, 44, 117, 125, 240, 244, 267, 271)]
  {
    TestGroupRow0(half);
    TestGroupRow1(half);
    assert Rows(TestGroup(), 156, half, 3) == [];
    assert Pairs(TestGroup(), half, 2, 3) == [];
  }

  /** The reports of `CheckDataListA` on one group; `third` gives the bound for A from G. */
  function Reports(data: seq<Node>, third: int -> int, half: int -> int): (r: seq<Found>)
    ensures data == [] ==> r == []
  {
    if data == [] then [] else Rows(data, third(data[0].g), half, 0)
  }

  /** The reports of `CheckDataListGroup`: those of each group in turn. */
  function GroupReports(groups: seq<seq<Node>>, third: int -> int, half: int -> int): seq<Found>
  {
    if groups == [] then [] else Reports(groups[0], third, half) + GroupReports(groups[1..], third, half)
  }

  /** The groups from n on: those of group n, then those of the rest. */
  lemma {:induction false} GroupReportsStep(groups: seq<seq<Node>>, third: int -> int, half: int -> int, n: nat)
    requires n < |groups|
    ensures GroupReports(groups[n..], third, half) == Reports(groups[n], third, half) + GroupReports(groups[n + 1..], third, half)
  {
    assert groups[n..][1..] == groups[n + 1..];
  }

  /** Column c of the tables: the short edge for 0, the long edge for 1. */
  function Edge(n: Node, c: int): int { if c == 0 then n.a else n.b }

  /** The `squares` and `sqrt2s` tables of `CheckDataListA`, filled. */
  predicate Tables(data: seq<Node>, half: int -> int, squares: array2<int>, sqrt2s: array2<int>)
    reads squares, sqrt2s
  {
    squares.Length0 == |data| && squares.Length1 == 2 && sqrt2s.Length0 == |data| && sqrt2s.Length1 == 2
    && (forall t :: 0 <= t < |data| ==> squares[t, 0] == SqA(data, t) && squares[t, 1] == SqB(data, t))
    && (forall t :: 0 <= t < |data| ==> sqrt2s[t, 0] == half(data[t].a) && sqrt2s[t, 1] == half(data[t].b))
  }

  /**
   * `pairs(j)` is what the j-loop of row i reports from j on; only a `Pairs`
   * term brings the agreement into play, so the loop itself never unfolds
   * the searches.
   */
  ghost predicate PairsTable(pairs: int -> seq<Found>, data: seq<Node>, half: int -> int, i: nat)
  {
    forall j {:trigger Pairs(data, half, i, j)} :: i < j ==> pairs(j) == Pairs(data, half, i, j)
  }

  /** At the last record the j-loop reports nothing more. */
  lemma PairsTableEnd(pairs: int -> seq<Found>, data: seq<Node>, half: int -> int, i: nat, j: nat)
    requires PairsTable(pairs, data, half, i) && i < j && |data| - 1 <= j
    ensures pairs(j) == []
  {
    assert pairs(j) == Pairs(data, half, i, j);
  }

  /** Two odd short edges: the j-loop passes j over. */
  lemma {:induction false} PairsSkip(data: seq<Node>, half: int -> int, i: nat, j: nat)
    requires i < j < |data| - 1 && Odd(data[i].a) && Odd(data[j].a)
    ensures Pairs(data, half, i, j) == Pairs(data, half, i, j + 1)
  {
  }

  /** B not below the bound for F: the j-loop ends. */
  lemma {:induction false} PairsStop(data: seq<Node>, half: int -> int, i: nat, j: nat)
    requires i < j < |data| - 1 && !(Odd(data[i].a) && Odd(data[j].a)) && !(data[j].a < half(data[i].b))
    ensures Pairs(data, half, i, j) == []
  {
  }

  /** Otherwise pair (i, j) is searched with A^2 + B^2. */
  lemma {:induction false} PairsSearch(data: seq<Node>, half: int -> int, i: nat, j: nat, ab2: int)
    requires i < j < |data| - 1 && !(Odd(data[i].a) && Odd(data[j].a)) && data[j].a < half(data[i].b)
    requires ab2 == SqA(data, i) + SqA(data, j)
    ensures Pairs(data, half, i, j) == Hit(data, i, j, Probe(data, ab2, j + 1, |data| - 1)) + Pairs(data, half, i, j + 1)
  {
    PairsUnfold(data, half, i, j);
  }

  /** `Pairs` one step on, when pair (i, j) is searched. */
  lemma {:induction false} PairsUnfold(data: seq<Node>, half: int -> int, i: nat, j: nat)
    requires i < j < |data| - 1 && !(Odd(data[i].a) && Odd(data[j].a)) && data[j].a < half(data[i].b)
    ensures Pairs(data, half, i, j) == Hit(data, i, j, Probe(data, SqA(data, i) + SqA(data, j), j + 1, |data| - 1)) + Pairs(data, half, i, j + 1)
  {
  }

  /** A below the bound for G: row i is searched. */
  lemma {:induction false} RowsStep(data: seq<Node>, gBound: int, half: int -> int, i: nat)
    requires i < |data| - 2 && data[i].a < gBound
    ensures Rows(data, gBound, half, i) == Pairs(data, half, i, i + 1) + Rows(data, gBound, half, i + 1)
  {
  }

  /** Appending the reports of one step to those of the steps before. */
  lemma {:induction false} ReportsShift(done: seq<Found>, step: seq<Found>, rest: seq<Found>, goal: seq<Found>)
    requires done + (step + rest) == goal
    ensures (done + step) + rest == goal
  {
    assert (done + step) + rest == done + (step + rest);
  }

  /** The pre-calculation loop of `CheckDataListA`: squares and bounds of both edges of every record. */
  method Tabulate(data: seq<Node>, half: int -> int) returns (squares: array2<int>, sqrt2s: array2<int>)
    ensures fresh(squares) && fresh(sqrt2s) && Tables(data, half, squares, sqrt2s)
  {
    squares := new int[|data|, 2];
    sqrt2s := new int[|data|, 2];
    for i := 0 to |data|
      invariant forall t, c :: 0 <= t < i && 0 <= c < 2 ==> squares[t, c] == Sq64(Edge(data[t], c))
      invariant forall t, c :: 0 <= t < i && 0 <= c < 2 ==> sqrt2s[t, c] == half(Edge(data[t], c))
      modifies squares, sqrt2s
    {
      var key, pair := data[i].a, data[i].b;
      FillRow(squares, sqrt2s, i, Sq64(key), Sq64(pair), half(key), half(pair));
    }
  }

  /** One round of `Tabulate`: row i of both tables. */
  method FillRow(squares: array2<int>, sqrt2s: array2<int>, i: nat, keySq: int, pairSq: int, keyBound: int, pairBound: int)
    requires squares != sqrt2s && i < squares.Length0 && i < sqrt2s.Length0 && squares.Length1 == 2 && sqrt2s.Length1 == 2
    modifies squares, sqrt2s
    ensures squares[i, 0] == keySq && squares[i, 1] == pairSq && sqrt2s[i, 0] == keyBound && sqrt2s[i, 1] == pairBound
    ensures forall t, c :: 0 <= t < squares.Length0 && 0 <= c < 2 && t != i ==> squares[t, c] == old(squares[t, c])
    ensures forall t, c :: 0 <= t < sqrt2s.Length0 && 0 <= c < 2 && t != i ==> sqrt2s[t, c] == old(sqrt2s[t, c])
  {
    squares[i, 0] := keySq;
    squares[i, 1] := pairSq;
    sqrt2s[i, 0] := keyBound;
    sqrt2s[i, 1] := pairBound;
  }

  // ---------------------------------------------------------------------
  // The finder object

  lemma {:induction false} SliceStep(s: seq<Node>, c: nat, x: Node, rest: seq<Node>)
    requires c < |s| && [x] + rest == s[c..]
    ensures rest == s[c + 1..]
  {
    assert s[c..] == [s[c]] + s[c + 1..];
  }

  /** A prefix of the group that stops at the end or at another G is the whole group. */
  lemma {:induction false} GroupEnd(g: int, s: seq<Node>, c: nat)
    requires c <= GroupLen(g, s) && (c == |s| || s[c].g != g)
    ensures c == GroupLen(g, s)
  {
  }

  lemma {:induction false} ElemsStep(s: seq<Node>, c: nat)
    requires c < |s|
    ensures Elems(s[..c + 1]) == Elems(s[..c]) + {s[c]}
  {
    assert s[..c + 1] == s[..c] + [s[c]];
    ElemsConcat(s[..c], [s[c]]);
  }

  /** One record of the current group joins the set. */
  lemma {:induction false} TakeStep(g: int, s0: seq<Node>, c: nat, k: nat, x: Node, rest: seq<Node>, set0: seq<Node>, set1: seq<Node>)
    requires k == GroupLen(g, s0) && c <= k && [x] + rest == s0[c..] && x.g == g
    requires Elems(set0) == Elems(s0[..c]) && Elems(set1) == Elems(set0) + {x}
    ensures c < k && rest == s0[c + 1..] && Elems(set1) == Elems(s0[..c + 1])
  {
    assert s0[c] == x;
    SliceStep(s0, c, x, rest);
    ElemsStep(s0, c);
  }

  /** When the group ends the set holds exactly its records. */
  lemma {:induction false} TakeDone(g: int, s0: seq<Node>, c: nat, k: nat, dn: Option<Node>, rest: seq<Node>, dnSet: seq<Node>)
    requires k == GroupLen(g, s0) && c <= k && Cur(dn) + rest == s0[c..] && (dn.None? ==> rest == [])
    requires dn.Some? ==> dn.value.g != g
    requires Sorted(dnSet) && Elems(dnSet) == Elems(s0[..c])
    ensures c == k && dnSet == SetOf(s0[..k])
  {
    if dn.None? {
      assert |s0[c..]| == 0;
    } else {
      assert s0[c..][0] == dn.value;
    }
    GroupEnd(g, s0, c);
    SortedUnique(dnSet, SetOf(s0[..k]));
  }

  /** A group `GetNextKeyDataList` passes over adds its size to the count and leaves the rest. */
  lemma {:induction false} KeyListSkip(target: (seq<Node>, nat, seq<Node>), s: seq<Node>, skipped: nat, skipped': nat, minCount: nat, low: int, k: nat, grp: seq<Node>, rest: seq<Node>)
    requires target == KeyList(s, skipped, minCount, low)
    requires s != [] && k == GroupLen(s[0].g, s) && grp == SetOf(s[..k]) && rest == s[k..]
    requires |grp| < minCount || (|grp| > 0 && grp[0].g < low)
    requires skipped' == skipped + |grp|
    ensures target == KeyList(rest, skipped', minCount, low)
  {
  }

  /** A group `GetNextKeyDataList` keeps is its result. */
  lemma {:induction false} KeyListKeep(target: (seq<Node>, nat, seq<Node>), s: seq<Node>, skipped: nat, minCount: nat, low: int, k: nat, grp: seq<Node>, rest: seq<Node>)
    requires target == KeyList(s, skipped, minCount, low)
    requires s != [] && k == GroupLen(s[0].g, s) && grp == SetOf(s[..k]) && rest == s[k..]
    requires !(|grp| < minCount || (|grp| > 0 && grp[0].g < low))
    ensures grp != [] && target.0 == grp && target.1 == skipped && target.2 == rest
  {
    assert s[0] in Elems(s[..k]);
  }

  /** The number of groups `GetNextKeyDataListGroup` asks for. */
  const GroupCount: nat := 1000

  class Finder {
    const reader: DataMerger
    var previous: Option<Node>
    const low: int
    const high: int
    var foundTarget: int
    var report: seq<Found>

    predicate Valid()
      reads this, reader
    {
      reader.Valid() && (previous.None? ==> reader.queue == [])
    }

    /** The records still to come: the one in hand, then what the cursor has left. */
    ghost function Stream(): seq<Node>
      reads this, reader
      requires Valid()
    {
      Cur(previous) + reader.Remaining()
    }

    /** Opens the cursor over the run files, initialises its queue and reads the first record. */
    constructor(runs: seq<seq<Node>>, low: int, high: int)
      ensures Valid() && fresh(reader) && reader.runs == runs
      ensures Stream() == Drain(runs, InitFrom(runs, 0, [], Zeros(runs)).0, InitFrom(runs, 0, [], Zeros(runs)).1)
      ensures this.low == low && this.high == high && foundTarget == 0 && report == []
    {
      var r := new DataMerger(runs);
      r.InitializeQueue();
      var first := r.GetNextDataNode();
      reader := r;
      previous := first;
      this.low := low;
      this.high := high;
      foundTarget := 0;
      report := [];
    }

    /**
     * The inner loop of `GetNextKeyDataList`, which always starts on an empty
     * set: adds the records from dn on whose G equals that of `previous`, then
     * leaves `previous` on the first record of the next group.
     */
    method TakeGroup(dn0: Option<Node>, ghost s0: seq<Node>) returns (dn: Option<Node>, dnSet: seq<Node>)
      requires Valid() && previous.Some? && (dn0.None? ==> reader.queue == [])
      requires s0 == Cur(dn0) + reader.Remaining()
      modifies this`previous, reader`pos, reader`queue
      ensures Valid() && dn == previous
      ensures var k := GroupLen(old(previous).value.g, s0);
        Stream() == s0[k..] && dnSet == SetOf(s0[..k])
    {
      ghost var k := GroupLen(previous.value.g, s0);
      ghost var c := 0;
      dn, dnSet := dn0, [];
      while dn.Some? && previous.value.g == dn.value.g
        invariant reader.Valid() && (dn.None? ==> reader.queue == []) && Sorted(dnSet)
        invariant c <= k && Cur(dn) + reader.Remaining() == s0[c..]
        invariant Elems(dnSet) == Elems(s0[..c])
        modifies reader`pos, reader`queue
        decreases |s0| - c
      {
        ghost var set0, r0 := dnSet, reader.Remaining();
        dnSet := Insert(dnSet, dn.value);
        TakeStep(previous.value.g, s0, c, k, dn.value, r0, set0, dnSet);
        dn := reader.GetNextDataNode();
        c := c + 1;
      }
      TakeDone(previous.value.g, s0, c, k, dn, reader.Remaining(), dnSet);
      previous := dn;
    }

    /**
     * `GetNextKeyDataList`: reads whole groups of equal G until one has at
     * least minCount records and a G of at least `low`; returns it (empty
     * when the cursor ran out) and how many records the groups passed over
     * held. `previous` is left on the first record of the next group.
     */
    method GetNextKeyDataList(minCount: nat) returns (dnSet: seq<Node>, skipped: nat)
      requires Valid()
      modifies this`previous, reader`pos, reader`queue
      ensures Valid() && (dnSet, skipped, Stream()) == KeyList(old(Stream()), 0, minCount, low)
    {
      dnSet := [];
      var dn := previous;
      skipped := 0;
      ghost var st := Stream();
      ghost var target := KeyList(st, 0, minCount, low);
      while dn.Some? && |dnSet| == 0
        invariant Valid() && dn == previous && st == Stream()
        invariant dn.None? ==> st == []
        invariant dnSet == [] ==> target == KeyList(st, skipped, minCount, low)
        invariant dnSet != [] ==> target.0 == dnSet && target.1 == skipped && target.2 == st
        decreases |st|
      {
        ghost var s0 := st;
        ghost var k := GroupLen(s0[0].g, s0);
        dn, dnSet := TakeGroup(dn, s0);
        st := Stream();
        if |dnSet| < minCount || (|dnSet| > 0 && dnSet[0].g < low) {
          ghost var grp, skipped0 := dnSet, skipped;
          skipped := skipped + |dnSet|;
          dnSet := [];
          KeyListSkip(target, s0, skipped0, skipped, minCount, low, k, grp, st);
        } else {
          KeyListKeep(target, s0, skipped, minCount, low, k, dnSet, st);
        }
      }
    }

    /** `GetNextKeyDataListGroup`: `GroupCount` calls of `GetNextKeyDataList`, skipped counts summed. */
    method GetNextKeyDataListGroup(minCount: nat) returns (groups: seq<seq<Node>>, skipped: nat)
      requires Valid()
      modifies this`previous, reader`pos, reader`queue
      ensures Valid() && (groups, skipped, Stream()) == KeyLists(old(Stream()), GroupCount, minCount, low)
    {
      groups, skipped := [], 0;
      ghost var s0 := Stream();
      for i := 0 to GroupCount
        invariant Valid() && (groups, skipped, Stream()) == KeyLists(s0, i, minCount, low)
      {
        ghost var prev := KeyLists(s0, i, minCount, low);
        var group, skippedOne := GetNextKeyDataList(minCount);
        groups := groups + [group];
        skipped := skipped + skippedOne;
        KeyListsStep(s0, i, minCount, low, prev, group, skippedOne, groups, skipped, Stream());
      }
    }

    /** `CheckDataListGroup`: `CheckDataListA` on each group in turn. */
    method CheckDataListGroup(groups: seq<seq<Node>>, third: int -> int, half: int -> int)
      modifies this`foundTarget, this`report
      ensures report == old(report) + GroupReports(groups, third, half)
      ensures foundTarget == old(foundTarget) + |GroupReports(groups, third, half)|
    {
      ghost var goal := old(report) + GroupReports(groups, third, half);
      assert groups[0..] == groups;
      for n := 0 to |groups|
        invariant report + GroupReports(groups[n..], third, half) == goal
        invariant foundTarget - |report| == old(foundTarget) - |old(report)|
      {
        ghost var r0 := report;
        GroupReportsStep(groups, third, half, n);
        CheckDataListA(groups[n], third, half);
        ReportsShift(r0, Reports(groups[n], third, half), GroupReports(groups[n + 1..], third, half), goal);
      }
      assert groups[|groups|..] == [];
    }

    /**
     * `CheckDataListA` on one group of equal G, sorted: nothing for an empty
     * group; otherwise the squares and bounds are tabulated and the i-loop
     * runs from A = `data[0].a` while A is below `third(G)`, each row running
     * the j-loop of `CheckPairs`. Each report is one line of the summary
     * file and one increment of `_foundTarget`.
     */
    method CheckDataListA(data: seq<Node>, third: int -> int, half: int -> int)
      modifies this`foundTarget, this`report
      ensures report == old(report) + Reports(data, third, half)
      ensures foundTarget == old(foundTarget) + |Reports(data, third, half)|
    {
      var nodeCount := |data|;
      if nodeCount == 0 {
        return;
      }
      var g := data[0].g;
      var squares, sqrt2s := Tabulate(data, half);
      var gSqrt3 := third(g);
      CheckRows(data, gSqrt3, half, squares, sqrt2s);
    }

    /** The i-loop of `CheckDataListA`: the reports of `Rows`. */
    method CheckRows(data: seq<Node>, gSqrt3: int, half: int -> int, squares: array2<int>, sqrt2s: array2<int>)
      requires Tables(data, half, squares, sqrt2s)
      modifies this`foundTarget, this`report
      ensures report == old(report) + Rows(data, gSqrt3, half, 0)
      ensures foundTarget == old(foundTarget) + |Rows(data, gSqrt3, half, 0)|
    {
      var nodeCount := |data|;
      ghost var goal := old(report) + Rows(data, gSqrt3, half, 0);
      var i := 0;
      while i < nodeCount - 2
        invariant report + Rows(data, gSqrt3, half, i) == goal
        invariant foundTarget - |report| == old(foundTarget) - |old(report)|
        decreases nodeCount - i
      {
        if !(data[i].a < gSqrt3) {
          break;
        }
        ghost var r0 := report;
        RowsStep(data, gSqrt3, half, i);
        CheckPairs(data, half, i, squares, sqrt2s, j => if i < j then Pairs(data, half, i, j) else []);
        ReportsShift(r0, Pairs(data, half, i, i + 1), Rows(data, gSqrt3, half, i + 1), goal);
        i := i + 1;
      }
    }

    /** The j-loop of `CheckDataListA` for row i: the reports of `Pairs`. */
    method CheckPairs(data: seq<Node>, half: int -> int, i: nat, squares: array2<int>, sqrt2s: array2<int>,
                      ghost pairs: int -> seq<Found>)
      requires i < |data| - 2 && Tables(data, half, squares, sqrt2s) && PairsTable(pairs, data, half, i)
      modifies this`foundTarget, this`report
      ensures report == old(report) + pairs(i + 1)
      ensures foundTarget == old(foundTarget) + |pairs(i + 1)|
    {
      var aIsOdd := data[i].a % 2 == 1;
      var a2 := squares[i, 0];
      var fSqrt2 := sqrt2s[i, 1];
      ghost var goal := old(report) + pairs(i + 1);
      var j := i + 1;
      while j < |data| - 1
        invariant i < j && Tables(data, half, squares, sqrt2s)
        invariant aIsOdd == Odd(data[i].a) && a2 == SqA(data, i) && fSqrt2 == half(data[i].b)
        invariant report + pairs(j) == goal
        invariant foundTarget - |report| == old(foundTarget) - |old(report)|
        decreases |data| - j
      {
        ghost var r0 := report;
        var stop;
        ghost var step;
        stop, step := PairRound(data, half, i, j, aIsOdd, a2, fSqrt2, squares, sqrt2s, pairs);
        if stop {
          break;
        }
        ReportsShift(r0, step, pairs(j + 1), goal);
        j := j + 1;
      }
      if |data| - 1 <= j {
        PairsTableEnd(pairs, data, half, i, j);
      }
    }

    /**
     * The body of the j-loop for one j: pass over two odd short edges, stop
     * at a B not below the bound for F, otherwise search the records after j.
     */
    method PairRound(data: seq<Node>, half: int -> int, i: nat, j: nat, aIsOdd: bool, a2: int, fSqrt2: int,
                     squares: array2<int>, sqrt2s: array2<int>, ghost pairs: int -> seq<Found>)
      returns (stop: bool, ghost step: seq<Found>)
      requires i < j < |data| - 1 && Tables(data, half, squares, sqrt2s) && PairsTable(pairs, data, half, i)
      requires aIsOdd == Odd(data[i].a) && a2 == SqA(data, i) && fSqrt2 == half(data[i].b)
      modifies this`foundTarget, this`report
      ensures stop ==> pairs(j) == [] && report == old(report) && foundTarget == old(foundTarget)
      ensures !stop ==> pairs(j) == step + pairs(j + 1)
      ensures !stop ==> report == old(report) + step && foundTarget == old(foundTarget) + |step|
    {
      assert pairs(j) == Pairs(data, half, i, j) && pairs(j + 1) == Pairs(data, half, i, j + 1);
      var bIsOdd := data[j].a % 2 == 1;
      if aIsOdd && bIsOdd {
        PairsSkip(data, half, i, j);
        return false, [];
      }
      var b2 := squares[j, 0];
      if !(data[j].a < fSqrt2) {
        PairsStop(data, half, i, j);
        return true, [];
      }
      var ab2 := a2 + b2;
      PairsSearch(data, half, i, j, ab2);
      SearchPair(data, i, j, ab2, squares);
      step := Hit(data, i, j, Probe(data, ab2, j + 1, |data| - 1));
      stop := false;
    }

    /**
     * The binary search of `CheckDataListA` for pair (i, j) over the records
     * after j: on a match the report is added and the search stops.
     */
    method SearchPair(data: seq<Node>, i: nat, j: nat, ab2: int, squares: array2<int>)
      requires i < j < |data| && squares.Length0 == |data| && squares.Length1 == 2
      requires forall t :: 0 <= t < |data| ==> squares[t, 0] == SqA(data, t) && squares[t, 1] == SqB(data, t)
      modifies this`foundTarget, this`report
      ensures report == old(report) + Hit(data, i, j, Probe(data, ab2, j + 1, |data| - 1))
      ensures foundTarget == old(foundTarget) + |Hit(data, i, j, Probe(data, ab2, j + 1, |data| - 1))|
    {
      var low, high := j + 1, |data| - 1;
      ghost var r := Probe(data, ab2, j + 1, |data| - 1);
      while low <= high
        invariant j + 1 <= low && high <= |data| - 1
        invariant Probe(data, ab2, low, high) == r
        invariant report == old(report) && foundTarget == old(foundTarget)
        decreases high - low
      {
        var middle := (low + high) / 2;
        var c2, d2 := squares[middle, 0], squares[middle, 1];
        ProbeStep(data, ab2, low, high, middle, c2, d2);
        if ab2 == c2 || ab2 == d2 {
          report := report + [Found(i, j, middle, data[i].a, data[j].a, data[middle].a, data[middle].b, data[j].b, data[i].b, data[0].g)];
          foundTarget := foundTarget + 1;
          return;
        } else if ab2 < c2 || d2 < ab2 {
          high := middle - 1;
        } else {
          low := middle + 1;
        }
      }
    }
  }
}
