/**
 * The candidate record shared by `DataNode` (utils.cs) and `DataNode3`
 * (Collection3DataList.cs), the two comparators, and the sorted-sequence
 * views used for `SortedSet<DataNode>` and `SortedList<DataNode, _>`.
 */
module Records {

  /** Edges a <= b [<= c] and the common value g. `DataNode` leaves c = 0 for a pair. */
  datatype Node = Node(a: int, b: int, c: int, g: int)

  const U64: int := 0x1_0000_0000_0000_0000

  predicate InU64(x: int) { 0 <= x < U64 }

  /** Every field is representable as an unsigned 64-bit integer. */
  predicate Fits64(n: Node) { InU64(n.a) && InU64(n.b) && InU64(n.c) && InU64(n.g) }

  /** Lexicographic order on (g, a, b, c), written independently of `CompareTo`. */
  predicate LexLess(x: Node, y: Node)
  {
    x.g < y.g || (x.g == y.g && (x.a < y.a || (x.a == y.a && (x.b < y.b || (x.b == y.b && x.c < y.c)))))
  }

  /** `DataNode.CompareTo`: compares G, then A, then B, then C. */
  function CompareTo(x: Node, y: Node): (r: int)
    ensures r == -1 || r == 0 || r == 1
    ensures r == 0 <==> x == y
    ensures r < 0 <==> LexLess(x, y)
    ensures r > 0 <==> LexLess(y, x)
  {
    if x.g != y.g then (if x.g > y.g then 1 else -1)
    else if x.a != y.a then (if x.a > y.a then 1 else -1)
    else if x.b != y.b then (if x.b > y.b then 1 else -1)
    else if x.c != y.c then (if x.c > y.c then 1 else -1)
    else 0
  }

  /** `DataNode3.CompareTo`: G decides only when both are nonzero and differ. */
  function CompareTo3(x: Node, y: Node): (r: int)
    requires x.g >= 0 && y.g >= 0
    ensures r == -1 || r == 0 || r == 1
    ensures r == 0 <==> x.a == y.a && x.b == y.b && x.c == y.c && (x.g == y.g || x.g == 0 || y.g == 0)
    ensures x.g > 0 && y.g > 0 ==> r == CompareTo(x, y)
  {
    if x.g > 0 && y.g > 0 && x.g != y.g then (if x.g > y.g then 1 else -1)
    else if x.a != y.a then (if x.a > y.a then 1 else -1)
    else if x.b != y.b then (if x.b > y.b then 1 else -1)
    else if x.c != y.c then (if x.c > y.c then 1 else -1)
    else 0
  }

  /** Swapping the arguments of `CompareTo` negates the result. */
  lemma {:induction false} CompareToAntisymmetric(x: Node, y: Node)
    ensures CompareTo(y, x) == -CompareTo(x, y)
  {
  }

  predicate Less(x: Node, y: Node) { CompareTo(x, y) < 0 }

  /** `CompareTo` is a strict total order, as `SortedSet` and `SortedList` need. */
  lemma {:induction false} LessTransitive(x: Node, y: Node, z: Node)
    requires Less(x, y) && Less(y, z)
    ensures Less(x, z)
  {
  }

  lemma {:induction false} LessTotal(x: Node, y: Node)
    ensures x == y || Less(x, y) || Less(y, x)
  {
  }

  /** Records with G = 0 on both sides break transitivity of `CompareTo3`. */
  lemma {:induction false} CompareTo3NotTransitive()
    ensures var x, y, z := Node(1, 0, 0, 5), Node(2, 0, 0, 0), Node(3, 0, 0, 1);
      CompareTo3(x, y) < 0 && CompareTo3(y, z) < 0 && CompareTo3(z, x) < 0
  {
  }

  // ---------------------------------------------------------------------
  // Sorted sequences: the in-order view of a SortedSet<DataNode>.

  function Elems(s: seq<Node>): set<Node> { set x | x in s }

  predicate Sorted(s: seq<Node>)
  {
    forall i, j {:trigger Less(s[i], s[j])} :: 0 <= i < j < |s| ==> Less(s[i], s[j])
  }

  lemma {:induction false} ElemsConcat(s: seq<Node>, t: seq<Node>)
    ensures Elems(s + t) == Elems(s) + Elems(t)
  {
    assert forall x :: x in s + t <==> x in s || x in t;
  }

  /** Putting a smaller element in front keeps a sequence sorted. */
  lemma {:induction false} SortedCons(x: Node, s: seq<Node>)
    requires Sorted(s) && forall y :: y in s ==> Less(x, y)
    ensures Sorted([x] + s)
  {
    var r := [x] + s;
    forall i, j | 0 <= i < j < |r| ensures Less(r[i], r[j]) {
      if i == 0 { assert r[j] == s[j - 1]; } else { assert r[i] == s[i - 1] && r[j] == s[j - 1]; }
    }
  }

  /** `SortedSet.Add`: set semantics on the sorted view. */
  function Insert(s: seq<Node>, x: Node): (r: seq<Node>)
    requires Sorted(s)
    ensures Sorted(r)
    ensures Elems(r) == Elems(s) + {x}
    ensures |r| == if x in s then |s| else |s| + 1
  {
    if s == [] then [x]
    else if x == s[0] then s
    else if Less(x, s[0]) then
      assert forall i :: 0 <= i < |s| ==> Less(x, s[i]) by {
        forall i | 0 <= i < |s| ensures Less(x, s[i]) {
          if i > 0 { LessTransitive(x, s[0], s[i]); }
        }
      }
      assert forall y :: y in s ==> Less(x, y);
      SortedCons(x, s);
      ElemsConcat([x], s);
      [x] + s
    else
      var t := Insert(s[1..], x);
      assert Elems(s) == {s[0]} + Elems(s[1..]);
      assert x !in s ==> x !in s[1..];
      assert x in s ==> x in s[1..];
      LessTotal(x, s[0]);
      forall y | y in t ensures Less(s[0], y) {
        assert y in Elems(t);
        if y != x {
          var i :| 0 <= i < |s[1..]| && s[1..][i] == y;
          assert s[i + 1] == y;
        }
      }
      SortedCons(s[0], t);
      ElemsConcat([s[0]], t);
      ElemsConcat([s[0]], s[1..]);
      assert s == [s[0]] + s[1..];
      [s[0]] + t
  }

  /** The tail of a sorted sequence is sorted and lies above its head. */
  lemma {:induction false} SortedTail(s: seq<Node>)
    requires Sorted(s) && s != []
    ensures Sorted(s[1..]) && s == [s[0]] + s[1..]
    ensures forall y :: y in s[1..] ==> Less(s[0], y)
  {
    var t := s[1..];
    forall i, j | 0 <= i < j < |t| ensures Less(t[i], t[j]) {
      assert Less(s[i + 1], s[j + 1]);
    }
    forall y | y in t ensures Less(s[0], y) {
      var k :| 0 <= k < |t| && t[k] == y;
      assert Less(s[0], s[k + 1]);
    }
  }

  /** A strictly sorted sequence holds no element twice. */
  lemma {:induction false} SortedCard(s: seq<Node>)
    requires Sorted(s)
    ensures |Elems(s)| == |s|
  {
    if s != [] {
      SortedTail(s);
      SortedCard(s[1..]);
      assert Elems(s) == {s[0]} + Elems(s[1..]);
      assert s[0] !in Elems(s[1..]);
    }
  }

  /** A strictly sorted sequence is determined by its elements. */
  lemma {:induction false} SortedUnique(s: seq<Node>, t: seq<Node>)
    requires Sorted(s) && Sorted(t) && Elems(s) == Elems(t)
    ensures s == t
  {
    SortedCard(s);
    SortedCard(t);
    if s != [] {
      SortedTail(s);
      SortedTail(t);
      assert s[0] in Elems(t);
      assert t[0] in Elems(s);
      CompareToAntisymmetric(s[0], t[0]);
      if s[0] != t[0] {
        assert false;
      }
      assert Elems(s[1..]) == Elems(s) - {s[0]} by {
        assert s[0] !in s[1..];
      }
      assert Elems(t[1..]) == Elems(t) - {t[0]} by {
        assert t[0] !in t[1..];
      }
      SortedUnique(s[1..], t[1..]);
    }
  }

  /** The union of the elements of several sorted buffers or runs. */
  function UnionOf(bufs: seq<seq<Node>>): (u: set<Node>)
    ensures forall i, x :: 0 <= i < |bufs| && x in bufs[i] ==> x in u
    ensures forall x :: x in u ==> exists i :: 0 <= i < |bufs| && x in bufs[i]
  {
    if bufs == [] then {} else UnionOf(bufs[..|bufs| - 1]) + Elems(bufs[|bufs| - 1])
  }

  // ---------------------------------------------------------------------
  // SortedList<DataNode, V>: entries ordered by key, keys unique.

  /** One queue entry: the key record and the index of the source it came from. */
  datatype Entry = Entry(key: Node, src: nat)

  function Keys(q: seq<Entry>): (ks: seq<Node>)
    ensures |ks| == |q| && forall i :: 0 <= i < |q| ==> ks[i] == q[i].key
  {
    if q == [] then [] else [q[0].key] + Keys(q[1..])
  }

  predicate SortedQ(q: seq<Entry>) { Sorted(Keys(q)) }

  /** `SortedList.ContainsKey`. */
  predicate ContainsKey(q: seq<Entry>, k: Node) { k in Keys(q) }

  /** `SortedList.Add` of a key that is not yet present. */
  function QInsert(q: seq<Entry>, k: Node, v: nat): (r: seq<Entry>)
    requires SortedQ(q) && !ContainsKey(q, k)
    ensures SortedQ(r)
    ensures |r| == |q| + 1
    ensures multiset(r) == multiset(q) + multiset{Entry(k, v)}
    ensures Elems(Keys(r)) == Elems(Keys(q)) + {k}
    decreases |q|, 1
  {
    if q == [] then [Entry(k, v)]
    else if Less(k, q[0].key) then
      var r := [Entry(k, v)] + q;
      assert Keys(r) == [k] + Keys(q);
      forall y | y in Keys(q) ensures Less(k, y) {
        var i :| 0 <= i < |q| && Keys(q)[i] == y;
        if i > 0 { assert Less(Keys(q)[0], Keys(q)[i]); LessTransitive(k, q[0].key, y); }
      }
      SortedCons(k, Keys(q));
      ElemsConcat([k], Keys(q));
      r
    else
      QInsertTail(q, k, v)
  }

  /** The tail of a sorted queue is sorted and lies above its head. */
  lemma {:induction false} SortedQTail(q: seq<Entry>)
    requires SortedQ(q) && q != []
    ensures Keys(q) == [q[0].key] + Keys(q[1..])
    ensures SortedQ(q[1..])
    ensures forall y :: y in Keys(q[1..]) ==> Less(q[0].key, y)
  {
    var tl := q[1..];
    forall i, j | 0 <= i < j < |tl| ensures Less(Keys(tl)[i], Keys(tl)[j]) {
      assert Keys(q)[i + 1] == Keys(tl)[i] && Keys(q)[j + 1] == Keys(tl)[j];
    }
    forall y | y in Keys(tl) ensures Less(q[0].key, y) {
      var i :| 0 <= i < |tl| && Keys(tl)[i] == y;
      assert Less(Keys(q)[0], Keys(q)[i + 1]);
    }
  }

  /** The case of `QInsert` where the new key goes after the first entry. */
  function QInsertTail(q: seq<Entry>, k: Node, v: nat): (r: seq<Entry>)
    requires SortedQ(q) && !ContainsKey(q, k) && q != [] && !Less(k, q[0].key)
    ensures SortedQ(r)
    ensures |r| == |q| + 1
    ensures multiset(r) == multiset(q) + multiset{Entry(k, v)}
    ensures Elems(Keys(r)) == Elems(Keys(q)) + {k}
    decreases |q|, 0
  {
    var tl := q[1..];
    SortedQTail(q);
    var t := QInsert(tl, k, v);
    LessTotal(k, q[0].key);
    assert forall y :: y in Keys(t) ==> Less(q[0].key, y) by {
      forall y | y in Keys(t) ensures Less(q[0].key, y) {
        assert y in Elems(Keys(t));
      }
    }
    var r := [q[0]] + t;
    assert Keys(r) == [q[0].key] + Keys(t);
    SortedCons(q[0].key, Keys(t));
    ElemsConcat([q[0].key], Keys(t));
    ElemsConcat([q[0].key], Keys(tl));
    assert q == [q[0]] + tl;
    r
  }
}
