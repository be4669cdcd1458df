/**
 * The on-disk record formats: `DataNode.Write` / `DataNode.Read` (utils.cs) and
 * `DataNode3.Write` / `DataNode3.Read` (Collection3DataList.cs), the byte-array
 * writers used by the spill buffers, and the `ReadNode` readers.
 */
module Codec {
  import opened Records
  import opened Wrappers

  newtype Byte = x: int | 0 <= x < 256

  /** Which record class a file holds. */
  datatype Layout = NodeLayout | Node3Layout

  function Pow256(n: nat): (p: nat)
    ensures p > 0
  {
    if n == 0 then 1 else 256 * Pow256(n - 1)
  }

  lemma {:induction false} Pow256Eight()
    ensures Pow256(8) == U64
  {
  }

  /** `BitConverter.GetBytes` on a little-endian machine: n bytes, least significant first. */
  function LeBytes(v: nat, n: nat): (s: seq<Byte>)
    ensures |s| == n
  {
    if n == 0 then [] else [(v % 256) as Byte] + LeBytes(v / 256, n - 1)
  }

  /** The unsigned little-endian value of a byte sequence. */
  function FromLe(s: seq<Byte>): (v: nat)
    ensures v < Pow256(|s|)
  {
    if s == [] then 0 else s[0] as nat + 256 * FromLe(s[1..])
  }

  /** Reading back what `LeBytes` wrote gives the value. */
  lemma {:induction false} FromLeBytes(v: nat, n: nat)
    requires v < Pow256(n)
    ensures FromLe(LeBytes(v, n)) == v
  {
    if n > 0 {
      FromLeBytes(v / 256, n - 1);
      assert LeBytes(v, n)[1..] == LeBytes(v / 256, n - 1);
    }
  }

  /** Reads a stored field as an unsigned 64-bit value. */
  lemma {:induction false} FieldRoundTrip(v: int)
    requires InU64(v)
    ensures FromLe(LeBytes(v, 8)) == v
  {
    Pow256Eight();
    FromLeBytes(v, 8);
  }

  /** Bytes per record as the reader consumes them: DataNode reads A, B, G; DataNode3 reads A, B, C, G. */
  function RecordSize(layout: Layout): nat
  {
    if layout == NodeLayout then 24 else 32
  }

  /** Whether the record's C field is written. DataNode writes it only when it is positive. */
  predicate WritesC(layout: Layout, n: Node) { layout == Node3Layout || n.c > 0 }

  /** `DataNode.Write` / `DataNode3.Write`: the fields as unsigned 64-bit little-endian values. */
  function Encode(layout: Layout, n: Node): (s: seq<Byte>)
    requires Fits64(n)
    ensures |s| == if WritesC(layout, n) then 32 else 24
    ensures |s| % 8 == 0
  {
    LeBytes(n.a, 8) + LeBytes(n.b, 8) + (if WritesC(layout, n) then LeBytes(n.c, 8) else []) + LeBytes(n.g, 8)
  }

  /** `DataNode.Read` / `DataNode3.Read` on one complete record. */
  function Decode(layout: Layout, s: seq<Byte>): (n: Node)
    requires |s| >= RecordSize(layout)
    ensures Fits64(n)
    ensures layout == NodeLayout ==> n.c == 0
  {
    Pow256Eight();
    if layout == NodeLayout then
      Node(FromLe(s[0..8]), FromLe(s[8..16]), 0, FromLe(s[16..24]))
    else
      Node(FromLe(s[0..8]), FromLe(s[8..16]), FromLe(s[16..24]), FromLe(s[24..32]))
  }

  /** A record the layout's reader gives back unchanged. */
  predicate Storable(layout: Layout, n: Node) { Fits64(n) && (layout == NodeLayout ==> n.c == 0) }

  lemma {:induction false} Quarters(w: seq<Byte>, x: seq<Byte>, y: seq<Byte>, z: seq<Byte>)
    requires |w| == 8 && |x| == 8 && |y| == 8
    ensures var s := w + x + y + z; s[0..8] == w && s[8..16] == x && s[16..24] == y && s[24..24 + |z|] == z
  {
  }

  /** Writing a storable record and reading it back gives the record. */
  lemma {:induction false} DecodeEncode(layout: Layout, n: Node)
    requires Storable(layout, n)
    ensures |Encode(layout, n)| == RecordSize(layout)
    ensures Decode(layout, Encode(layout, n)) == n
  {
    var la, lb, lc, lg := LeBytes(n.a, 8), LeBytes(n.b, 8), LeBytes(n.c, 8), LeBytes(n.g, 8);
    FieldRoundTrip(n.a);
    FieldRoundTrip(n.b);
    FieldRoundTrip(n.c);
    FieldRoundTrip(n.g);
    if layout == NodeLayout {
      Quarters(la, lb, lg, []);
      assert Encode(layout, n) == la + lb + lg + [];
    } else {
      Quarters(la, lb, lc, lg);
    }
  }

  /** The DataNode reader takes only the pair: a record written with C > 0 reads back with C as its G. */
  lemma {:induction false} DecodeTripleAsPair(n: Node)
    requires Fits64(n) && n.c > 0
    ensures Decode(NodeLayout, Encode(NodeLayout, n)) == Node(n.a, n.b, 0, n.c)
  {
    var la, lb, lc, lg := LeBytes(n.a, 8), LeBytes(n.b, 8), LeBytes(n.c, 8), LeBytes(n.g, 8);
    FieldRoundTrip(n.a);
    FieldRoundTrip(n.b);
    FieldRoundTrip(n.c);
    Quarters(la, lb, lc, lg);
  }

  predicate AllFit(xs: seq<Node>) { forall x :: x in xs ==> Fits64(x) }

  /** The bytes of a file holding the records in order. */
  function EncodeAll(layout: Layout, xs: seq<Node>): (s: seq<Byte>)
    requires AllFit(xs)
    ensures |s| % 8 == 0
  {
    if xs == [] then [] else EncodeAll(layout, xs[..|xs| - 1]) + Encode(layout, xs[|xs| - 1])
  }

  lemma {:induction false} EncodeAllSnoc(layout: Layout, xs: seq<Node>, x: Node)
    requires AllFit(xs) && Fits64(x)
    ensures EncodeAll(layout, xs + [x]) == EncodeAll(layout, xs) + Encode(layout, x)
  {
    assert (xs + [x])[..|xs|] == xs;
  }

  lemma {:induction false} EncodeAllCons(layout: Layout, x: Node, xs: seq<Node>)
    requires AllFit(xs) && Fits64(x)
    ensures EncodeAll(layout, [x] + xs) == Encode(layout, x) + EncodeAll(layout, xs)
    decreases |xs|
  {
    var ys := [x] + xs;
    assert AllFit(ys);
    if xs == [] {
      assert ys[..0] == [];
    } else {
      var init, last := xs[..|xs| - 1], xs[|xs| - 1];
      assert AllFit(init) by { forall y | y in init ensures Fits64(y) { assert y in xs; } }
      EncodeAllCons(layout, x, init);
      assert ys[..|ys| - 1] == [x] + init;
      assert ys[|ys| - 1] == last;
      var e, ei, el := Encode(layout, x), EncodeAll(layout, init), Encode(layout, last);
      assert EncodeAll(layout, ys) == (e + ei) + el;
      assert EncodeAll(layout, xs) == ei + el;
      assert (e + ei) + el == e + (ei + el);
    }
  }

  /** The records a reader returns before it reports the end of the stream. */
  function DecodeAll(layout: Layout, s: seq<Byte>): seq<Node>
    decreases |s|
  {
    if |s| < RecordSize(layout) then []
    else [Decode(layout, s[..RecordSize(layout)])] + DecodeAll(layout, s[RecordSize(layout)..])
  }

  /** A file of storable records reads back as exactly those records. */
  lemma {:induction false} DecodeAllEncodeAll(layout: Layout, xs: seq<Node>)
    requires AllFit(xs) && forall x :: x in xs ==> Storable(layout, x)
    ensures DecodeAll(layout, EncodeAll(layout, xs)) == xs
  {
    if xs != [] {
      var x := xs[0];
      assert AllFit(xs[1..]) by { forall y | y in xs[1..] ensures Fits64(y) { assert y in xs; } }
      EncodeAllCons(layout, x, xs[1..]);
      assert xs == [x] + xs[1..];
      DecodeEncode(layout, x);
      DecodeAllEncodeAll(layout, xs[1..]);
      var s := EncodeAll(layout, xs);
      var size := RecordSize(layout);
      assert s[..size] == Encode(layout, x);
      assert s[size..] == EncodeAll(layout, xs[1..]);
    }
  }

  // ---------------------------------------------------------------------
  // Writing into a byte array

  /** `after` is `before` with `chunk` copied in at `start`. */
  predicate Spliced(after: seq<Byte>, before: seq<Byte>, start: nat, chunk: seq<Byte>)
  {
    |after| == |before| && start + |chunk| <= |before|
    && after == before[..start] + chunk + before[start + |chunk|..]
  }

  lemma {:induction false} SplicedThen(a: seq<Byte>, b: seq<Byte>, c: seq<Byte>, start: nat, c1: seq<Byte>, c2: seq<Byte>)
    requires Spliced(b, a, start, c1) && Spliced(c, b, start + |c1|, c2)
    ensures Spliced(c, a, start, c1 + c2)
  {
    var e := a[..start] + (c1 + c2) + a[start + |c1| + |c2|..];
    assert |c| == |e|;
    forall k | 0 <= k < |c| ensures c[k] == e[k] {
      if k < start {
      } else if k < start + |c1| {
        assert c[k] == b[k];
      } else if k < start + |c1| + |c2| {
      } else {
        assert c[k] == b[k];
      }
    }
  }

  /** `Write(byte[], int, UInt64)`: copies the eight bytes of `BitConverter.GetBytes(data)`. */
  method WriteU64(arr: array<Byte>, start: nat, data: int) returns (next: nat)
    requires InU64(data) && start + 8 <= arr.Length
    modifies arr
    ensures next == start + 8
    ensures Spliced(arr[..], old(arr[..]), start, LeBytes(data, 8))
  {
    var converted := LeBytes(data, 8);
    next := start;
    for i := 0 to 8
      invariant next == start + i
      invariant forall k :: 0 <= k < arr.Length ==>
        arr[k] == if start <= k < next then converted[k - start] else old(arr[k])
    {
      arr[next] := converted[i];
      next := next + 1;
    }
    assert arr[..] == old(arr[..])[..start] + converted + old(arr[..])[next..];
  }

  /** `DataNode.Write(byte[], int)` / `DataNode3.Write(byte[], int)`. */
  method WriteNode(layout: Layout, arr: array<Byte>, start: nat, n: Node) returns (next: nat)
    requires Fits64(n) && start + |Encode(layout, n)| <= arr.Length
    modifies arr
    ensures next == start + |Encode(layout, n)|
    ensures Spliced(arr[..], old(arr[..]), start, Encode(layout, n))
  {
    ghost var a0 := arr[..];
    next := WriteU64(arr, start, n.a);
    ghost var a1 := arr[..];
    next := WriteU64(arr, next, n.b);
    SplicedThen(a0, a1, arr[..], start, LeBytes(n.a, 8), LeBytes(n.b, 8));
    ghost var chunk := LeBytes(n.a, 8) + LeBytes(n.b, 8);
    ghost var third: seq<Byte> := if WritesC(layout, n) then LeBytes(n.c, 8) else [];
    if WritesC(layout, n) {
      ghost var a2 := arr[..];
      next := WriteU64(arr, next, n.c);
      SplicedThen(a0, a2, arr[..], start, chunk, third);
    } else {
      assert chunk + third == chunk;
    }
    chunk := chunk + third;
    ghost var a3 := arr[..];
    next := WriteU64(arr, next, n.g);
    SplicedThen(a0, a3, arr[..], start, chunk, LeBytes(n.g, 8));
    assert chunk + LeBytes(n.g, 8) == Encode(layout, n);
  }

  // ---------------------------------------------------------------------
  // Reading a run file

  /** `DataIOReader` / `DataIOReader3`: a binary reader over one run file. */
  class RunReader {
    const layout: Layout
    const data: seq<Byte>
    var pos: nat

    predicate Valid()
      reads this
    {
      pos <= |data|
    }

    /** Opens the file at its start. */
    constructor (layout: Layout, data: seq<Byte>)
      ensures this.layout == layout && this.data == data
      ensures Valid() && pos == 0
    {
      this.layout := layout;
      this.data := data;
      pos := 0;
    }

    /** `Reset`: reopens the file. */
    method Reset()
      modifies this
      ensures Valid() && pos == 0
    {
      pos := 0;
    }

    /** The records still to be read. */
    function Unread(): seq<Node>
      requires Valid()
      reads this
    {
      DecodeAll(layout, data[pos..])
    }

    /**
     * `ReadNode`: the next record, or None (null) once fewer bytes remain than a
     * record needs; the failed read leaves the stream at its end.
     */
    method ReadNode() returns (r: Option<Node>)
      requires Valid()
      modifies this
      ensures Valid()
      ensures r.None? <==> old(Unread()) == []
      ensures r.None? ==> pos == |data| && Unread() == []
      ensures r.Some? ==> old(Unread()) == [r.value] + Unread()
    {
      var size := RecordSize(layout);
      if pos + size <= |data| {
        var record := data[pos..pos + size];
        assert data[pos..][size..] == data[pos + size..];
        assert data[pos..][..size] == record;
        pos := pos + size;
        return Some(Decode(layout, record));
      }
      pos := |data|;
      return None;
    }
  }
}
