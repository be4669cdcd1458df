/**
 * Integer helpers of `Utils` and the record constructors of `DataNode`
 * (utils.cs), plus the Euler-brick arithmetic of `DataSet` and `DataSet1`.
 */
module Utils {
  import opened Records
  import opened Wrappers

  // ---------------------------------------------------------------------
  // Perfect squares

  function Sq(r: int): int { r * r }

  ghost predicate IsSquare(n: int) { exists r: nat :: Sq(r) == n }

  /** 1, 4, 16, 64, ... */
  predicate IsPow4(b: nat) { b == 1 || (b >= 4 && b % 4 == 0 && IsPow4(b / 4)) }

  /**
   * A starting `bit` for `IsPerfectSquare`: a power of four above N / 4.
   * It stands for the seed the source derives from `BigInteger.Log(N, 2)`.
   */
  function StartBit(n: nat): (b: nat)
    ensures IsPow4(b) && n < 4 * b
  {
    if n < 4 then 1
    else
      var b := StartBit(n / 4);
      Pow4Times4(b);
      4 * b
  }

  lemma {:induction false} MulMono(x: nat, y: nat)
    requires x < y
    ensures x * x < y * y
  {
    assert x * x <= x * y;
    assert x * y < y * y;
  }

  /** Between y^2 and (y+1)^2 the only square is y^2. */
  lemma {:induction false} SquareBetween(n: nat, y: nat)
    requires y * y <= n < (y + 1) * (y + 1)
    ensures IsSquare(n) <==> n == y * y
  {
    if IsSquare(n) {
      var r: nat :| Sq(r) == n;
      if r < y { MulMono(r, y); }
      if r > y + 1 { MulMono(y + 1, r); }
    }
    if n == y * y { assert Sq(y) == n; }
  }

  /** One step of the root extraction when the next bit of the root is 0. */
  lemma {:induction false} SqrtStepSkip(n: nat, num: int, res: int, y: nat, bit: nat)
    requires res == y * (4 * bit) && num + y * y * (4 * bit) == n
    requires num < res + bit
    ensures res / 2 == (2 * y) * bit
    ensures num + (2 * y) * (2 * y) * bit == n
    ensures n < (2 * y + 1) * (2 * y + 1) * bit
  {
    assert res == 2 * ((2 * y) * bit);
    assert (2 * y) * (2 * y) * bit == y * y * (4 * bit);
    assert (2 * y + 1) * (2 * y + 1) * bit == y * y * (4 * bit) + y * (4 * bit) + bit;
  }

  /** One step of the root extraction when the next bit of the root is 1. */
  lemma {:induction false} SqrtStepTake(n: nat, num: int, res: int, y: nat, bit: nat)
    requires res == y * (4 * bit) && num + y * y * (4 * bit) == n
    requires num >= res + bit
    requires n < (y + 1) * (y + 1) * (4 * bit)
    ensures res / 2 + bit == (2 * y + 1) * bit
    ensures (num - (res + bit)) + (2 * y + 1) * (2 * y + 1) * bit == n
    ensures n < (2 * y + 1 + 1) * (2 * y + 1 + 1) * bit
  {
    assert res == 2 * ((2 * y) * bit);
    assert (2 * y + 1) * (2 * y + 1) * bit == y * y * (4 * bit) + y * (4 * bit) + bit;
    assert (2 * y + 2) * (2 * y + 2) * bit == (y + 1) * (y + 1) * (4 * bit);
  }

  /** When the last bit has been placed, the remainder is zero exactly for squares. */
  lemma {:induction false} SqrtDone(n: nat, num: int, y: nat, scale: nat)
    requires IsPow4(scale) && scale / 4 == 0
    requires 0 <= num && num + y * y * scale == n && n < (y + 1) * (y + 1) * scale
    ensures num == 0 <==> IsSquare(n)
  {
    assert scale == 1;
    SquareBetween(n, y);
  }

  /** A power of four other than 1 is four times a power of four. */
  lemma {:induction false} Pow4Quarter(s: nat)
    requires IsPow4(s) && s / 4 > 0
    ensures s == 4 * (s / 4) && IsPow4(s / 4)
  {
  }

  lemma {:induction false} Pow4Times4(b: nat)
    requires IsPow4(b)
    ensures IsPow4(4 * b)
  {
    assert (4 * b) / 4 == b;
  }

  /**
   * `Utils.IsPerfectSquare`: digit-by-digit integer square root. `bit` is
   * the starting power of four; the first loop lowers it to the largest
   * power of four not above N.
   */
  method IsPerfectSquare(n: nat, bit0: nat) returns (r: bool)
    requires IsPow4(bit0) && n < 4 * bit0
    ensures r <==> IsSquare(n)
  {
    var bit: nat := bit0;
    var num: int := n;
    var res := 0;
    while bit > num
      invariant (IsPow4(bit) && n < 4 * bit) || (bit == 0 && n == 0)
      invariant num == n
    {
      bit := bit / 4;
    }
    ghost var y: nat := 0;
    ghost var scale: nat := if bit == 0 then 1 else 4 * bit;
    if bit != 0 { Pow4Times4(bit); }
    while bit > 0
      invariant IsPow4(scale) && bit == scale / 4
      invariant res == y * scale
      invariant 0 <= num && num + y * y * scale == n
      invariant n < (y + 1) * (y + 1) * scale
    {
      Pow4Quarter(scale);
      if num < res + bit {
        SqrtStepSkip(n, num, res, y, bit);
        res := res / 2;
        y := 2 * y;
      } else {
        SqrtStepTake(n, num, res, y, bit);
        num := num - (res + bit);
        res := res / 2 + bit;
        y := 2 * y + 1;
      }
      scale := bit;
      bit := bit / 4;
    }
    SqrtDone(n, num, y, scale);
    r := num == 0;
  }

  /** `Utils.BigDataAbsoluteSquareDiff`: |a^2 - b^2|. */
  function BigDataAbsoluteSquareDiff(a: int, b: int): (r: int)
    ensures r == a * a - b * b || r == b * b - a * a
    ensures a >= 0 && b >= 0 ==> r >= 0
  {
    if a > b then a * a - b * b else b * b - a * a
  }

  /** `Utils.InOrder`: swaps the two values when the first is larger. */
  method InOrder(a: int, b: int) returns (a': int, b': int, swapped: bool)
    ensures a' <= b'
    ensures swapped <==> a > b
    ensures if swapped then a' == b && b' == a else a' == a && b' == b
  {
    a', b', swapped := a, b, false;
    if a' > b' {
      var temp := b';
      b' := a';
      a' := temp;
      swapped := true;
    }
  }

  // ---------------------------------------------------------------------
  // DataNode constructors

  /** The three-argument `DataNode` constructor: a Pythagorean pair, C = 0. */
  method NewPair(x: int, y: int, g: int) returns (n: Node)
    ensures n.a <= n.b && ((n.a == x && n.b == y) || (n.a == y && n.b == x))
    ensures n.c == 0 && n.g == g
  {
    var a, b, _ := InOrder(x, y);
    n := Node(a, b, 0, g);
  }

  /** The four-argument `DataNode` constructor: three compare-swaps sort the edges. */
  method NewTriple(x: int, y: int, z: int, g: int) returns (n: Node)
    ensures n.a <= n.b <= n.c && Perm3(n.a, n.b, n.c, x, y, z)
    ensures n.g == g
  {
    var a, b, c := x, y, z;
    var swapped;
    a, b, swapped := InOrder(a, b);
    a, c, swapped := InOrder(a, c);
    b, c, swapped := InOrder(b, c);
    n := Node(a, b, c, g);
  }

  /** (x, y, G) and (y, x, G) build identical records. */
  method PairIsCanonical(x: int, y: int, g: int) returns (n1: Node, n2: Node)
    ensures n1 == n2
    ensures CompareTo(n1, n2) == 0
  {
    n1 := NewPair(x, y, g);
    n2 := NewPair(y, x, g);
  }

  // ---------------------------------------------------------------------
  // DataSet: Euler brick derived from the Pythagorean triple of (m, n)

  /** One (m, n) candidate and its two perfect-cuboid check values. */
  datatype DataSet = DataSet(valid: bool, m: int, n: int, pt: Node, eb: Node, check: int, check2: int)

  /** Unsigned 64-bit arithmetic wraps. */
  function Wrap(x: int): int { x % U64 }

  /** m^2, n^2 and 2mn computed in UInt64 do not wrap. */
  predicate NoWrap(m: int, n: int) { 0 <= m && 0 <= n && m * m < U64 && n * n < U64 && 2 * (m * n) < U64 }

  /** The triple (m^2 - n^2, 2mn, m^2 + n^2) as `DataSet` computes it, with UInt64 products. */
  function TripleA(m: int, n: int): int { Wrap(m * m) - Wrap(n * n) }
  function TripleB(m: int, n: int): int { Wrap(Wrap(m * n) * 2) }
  function TripleC(m: int, n: int): int { Wrap(m * m) + Wrap(n * n) }

  /** Without wrap-around, (m, n) gives a Pythagorean triple. */
  lemma {:induction false} EuclidTriple(m: int, n: int)
    requires NoWrap(m, n)
    ensures var a, b, c := TripleA(m, n), TripleB(m, n), TripleC(m, n);
      a * a + b * b == c * c
  {
    var u, v, w := m * m, n * n, m * n;
    assert w * w == u * v by {
      assert (m * n) * (m * n) == (m * m) * (n * n);
    }
    WrapSmall(u);
    WrapSmall(v);
    WrapSmall(w);
    WrapSmall(w * 2);
    SquareSum(u, v, w);
  }

  lemma {:induction false} WrapSmall(x: int)
    requires 0 <= x < U64
    ensures Wrap(x) == x
  {
  }

  lemma {:induction false} SquareSum(u: int, v: int, w: int)
    requires w * w == u * v
    ensures (u - v) * (u - v) + (w * 2) * (w * 2) == (u + v) * (u + v)
  {
    assert (u - v) * (u - v) == u * u - 2 * (u * v) + v * v;
    assert (u + v) * (u + v) == u * u + 2 * (u * v) + v * v;
    assert (w * 2) * (w * 2) == 4 * (w * w);
  }

  /** The brick edges of Sierpinski's construction for a triple (a, b, c). */
  function BrickX(a: int, b: int, c: int): int { a * BigDataAbsoluteSquareDiff(b * 2, c) }
  function BrickY(a: int, b: int, c: int): int { b * BigDataAbsoluteSquareDiff(a * 2, c) }
  function BrickZ(a: int, b: int, c: int): int { (a * 4) * b * c }

  lemma {:induction false} CubeIdentity(u: int, v: int)
    ensures u * ((3 * v - u) * (3 * v - u)) + v * ((3 * u - v) * (3 * u - v)) == (u + v) * (u + v) * (u + v)
  {
    assert (3 * v - u) * (3 * v - u) == 9 * (v * v) - 6 * (u * v) + u * u;
    assert (3 * u - v) * (3 * u - v) == 9 * (u * u) - 6 * (u * v) + v * v;
    assert u * (9 * (v * v) - 6 * (u * v) + u * u) == 9 * (u * (v * v)) - 6 * (u * (u * v)) + u * (u * u);
    assert v * (9 * (u * u) - 6 * (u * v) + v * v) == 9 * (v * (u * u)) - 6 * (v * (u * v)) + v * (v * v);
    assert (u + v) * (u + v) * (u + v) == u * (u * u) + 3 * (u * (u * v)) + 3 * (u * (v * v)) + v * (v * v);
  }

  lemma {:induction false} SquareOfDiff(a: int, b: int, c: int, u: int, v: int)
    requires u == a * a && v == b * b && u + v == c * c
    ensures var d := BigDataAbsoluteSquareDiff(b * 2, c); d * d == (3 * v - u) * (3 * v - u)
  {
    var d := BigDataAbsoluteSquareDiff(b * 2, c);
    assert (b * 2) * (b * 2) - c * c == 3 * v - u;
    assert d == 3 * v - u || d == -(3 * v - u);
  }

  /** X^2 + Y^2 = c^6 and X^2 + Y^2 + Z^2 = c^2 (c^4 + 16 a^2 b^2) whenever a^2 + b^2 = c^2. */
  lemma {:induction false} BrickIdentity(a: int, b: int, c: int)
    requires a * a + b * b == c * c
    ensures var X, Y := BrickX(a, b, c), BrickY(a, b, c);
      X * X + Y * Y == c * c * (c * c) * (c * c)
    ensures var X, Y, Z := BrickX(a, b, c), BrickY(a, b, c), BrickZ(a, b, c);
      X * X + Y * Y + Z * Z == c * c * ((a * a * (b * b)) * 16 + c * c * c * c)
  {
    var u, v, w := a * a, b * b, c * c;
    var dp, dq := BigDataAbsoluteSquareDiff(b * 2, c), BigDataAbsoluteSquareDiff(a * 2, c);
    SquareOfDiff(a, b, c, u, v);
    SquareOfDiff(b, a, c, v, u);
    var X, Y, Z := BrickX(a, b, c), BrickY(a, b, c), BrickZ(a, b, c);
    assert X * X == u * (dp * dp) by { MulSq(a, dp); }
    assert Y * Y == v * (dq * dq) by { MulSq(b, dq); }
    ZSquare(a, b, c);
    CubeIdentity(u, v);
    assert X * X + Y * Y == w * w * w;
    Fourth(c);
    assert c * c * ((a * a * (b * b)) * 16 + c * c * c * c) == w * ((u * v) * 16 + w * w);
    Distrib(w, (u * v) * 16, w * w);
  }

  lemma {:induction false} Distrib(w: int, p: int, q: int)
    ensures w * (p + q) == w * p + w * q
  {
  }

  lemma {:induction false} ZSquare(a: int, b: int, c: int)
    ensures BrickZ(a, b, c) * BrickZ(a, b, c) == 16 * ((a * a) * (b * b)) * (c * c)
  {
    var p := a * 4;
    var q := p * b;
    MulSq(q, c);
    MulSq(p, b);
    MulSq(a, 4);
    var u, v, w := a * a, b * b, c * c;
    assert q * q == (u * 16) * v;
    assert (q * c) * (q * c) == ((u * 16) * v) * w;
  }

  lemma {:induction false} MulSq(p: int, q: int)
    ensures (p * q) * (p * q) == (p * p) * (q * q)
  {
  }

  lemma {:induction false} Fourth(c: int)
    ensures c * c * c * c == (c * c) * (c * c)
  {
  }

  /** `check` of `DataSet(m, n)`: 16 a^2 b^2 + c^4 for the (wrapped) triple of (m, n). */
  function CheckOf(m: int, n: int): int
  {
    var a, b, c := TripleA(m, n), TripleB(m, n), TripleC(m, n);
    (a * a * (b * b)) * 16 + c * c * c * c
  }

  /** `check2` of `DataSet(m, n)`: the sum of the three face-diagonal products, squared. */
  function Check2Of(m: int, n: int): int
  {
    var a, b, c := TripleA(m, n), TripleB(m, n), TripleC(m, n);
    var xy := BigDataAbsoluteSquareDiff(b * 2, c) * BigDataAbsoluteSquareDiff(a * 2, c);
    var yz := BrickY(a, b, c) * (c * 4);
    var zx := (BrickZ(a, b, c) * 4) * BrickX(a, b, c);
    xy * xy + yz * yz + zx * zx
  }

  /** The `DataSet(m, n)` constructor. */
  method NewDataSet(m: int, n: int) returns (ds: DataSet)
    requires InU64(m) && InU64(n)
    ensures ds.m == m && ds.n == n && !ds.valid
    ensures ds.check >= 0 && ds.check2 >= 0
    ensures ds.check == CheckOf(m, n) && ds.check2 == Check2Of(m, n)
    ensures ds.pt.g == TripleC(m, n) && ds.pt.c == 0
    ensures NoWrap(m, n) ==> ds.pt.a * ds.pt.a + ds.pt.b * ds.pt.b == ds.pt.g * ds.pt.g
    ensures NoWrap(m, n) ==> ds.eb.g == ds.pt.g * ds.pt.g * ds.check
    ensures ds.eb.a <= ds.eb.b <= ds.eb.c
    ensures ds.eb.g == ds.eb.a * ds.eb.a + ds.eb.b * ds.eb.b + ds.eb.c * ds.eb.c
  {
    var a, b, c := TripleA(m, n), TripleB(m, n), TripleC(m, n);
    var pt := NewPair(a, b, c);
    var b_diff_c := BigDataAbsoluteSquareDiff(b * 2, c);
    var a_diff_c := BigDataAbsoluteSquareDiff(a * 2, c);
    var X, Y, Z := BrickX(a, b, c), BrickY(a, b, c), BrickZ(a, b, c);
    var G := X * X + Y * Y + Z * Z;
    var eb := NewTriple(X, Y, Z, G);
    var check := (a * a * (b * b)) * 16 + c * c * c * c;
    var xyNoAB := b_diff_c * a_diff_c;
    var yzNoAB := Y * (c * 4);
    var zxNoAB := (Z * 4) * X;
    var check2 := xyNoAB * xyNoAB + yzNoAB * yzNoAB + zxNoAB * zxNoAB;
    SumOfSquaresNonNeg(a * b, c * c, 0);
    assert check >= 0 by { MulSq(a, b); Fourth(c); }
    SumOfSquaresNonNeg(xyNoAB, yzNoAB, zxNoAB);
    SumSquaresPerm(eb.a, eb.b, eb.c, X, Y, Z);
    if NoWrap(m, n) {
      assert pt.a * pt.a + pt.b * pt.b == a * a + b * b;
      EuclidTriple(m, n);
      BrickIdentity(a, b, c);
    }
    ds := DataSet(false, m, n, pt, eb, check, check2);
  }

  lemma {:induction false} SumOfSquaresNonNeg(x: int, y: int, z: int)
    ensures x * x + y * y + z * z >= 0
  {
  }

  lemma {:induction false} SumSquaresPerm(p: int, q: int, r: int, x: int, y: int, z: int)
    requires Perm3(p, q, r, x, y, z)
    ensures p * p + q * q + r * r == x * x + y * y + z * z
  {
  }

  /** (p, q, r) is a reordering of (x, y, z). */
  predicate Perm3(p: int, q: int, r: int, x: int, y: int, z: int)
  {
    (p == x && ((q == y && r == z) || (q == z && r == y)))
    || (p == y && ((q == x && r == z) || (q == z && r == x)))
    || (p == z && ((q == x && r == y) || (q == y && r == x)))
  }

  /** The last-digit pre-check: only values ending in 1, 5 or 9 go on to the square test. */
  predicate LastDigitWorthTesting(v: nat) { v % 10 == 1 || v % 10 == 5 || v % 10 == 9 }

  /** `DataSet.DataCheck`: returns the verdict and the DataSet with `valid` updated. */
  method DataCheck(ds: DataSet) returns (found: bool, ds': DataSet)
    requires ds.check >= 0 && ds.check2 >= 0
    ensures found <==>
      ((LastDigitWorthTesting(ds.check) && IsSquare(ds.check))
       || (LastDigitWorthTesting(ds.check2) && IsSquare(ds.check2)))
    ensures ds'.valid == (ds.valid || LastDigitWorthTesting(ds.check) || LastDigitWorthTesting(ds.check2))
    ensures ds' == ds.(valid := ds'.valid)
  {
    ds' := ds;
    var lastD := ds.check % 10;
    if lastD == 1 || lastD == 5 || lastD == 9 {
      ds' := ds'.(valid := true);
      var sq := IsPerfectSquare(ds.check, StartBit(ds.check));
      if sq {
        return true, ds';
      }
    }
    lastD := ds.check2 % 10;
    if lastD == 1 || lastD == 5 || lastD == 9 {
      ds' := ds'.(valid := true);
      var sq := IsPerfectSquare(ds.check2, StartBit(ds.check2));
      if sq {
        return true, ds';
      }
    }
    return false, ds';
  }

  // ---------------------------------------------------------------------
  // DataSet1

  datatype DataSet1 = DataSet1(valid: bool, m: int, n: int, n8: int, sums: int, check: int)

  /** The polynomial behind `DataSet1.check`: m^8 + 68 m^6 n^2 - 122 m^4 n^4 + 68 m^2 n^6 + n^8. */
  function Check1(m: int, n: int): int
  {
    var m2, n2 := m * m, n * n;
    (m2 * m2) * (m2 * m2) + 68 * ((m2 * m2) * m2) * n2 - 122 * (m2 * m2) * (n2 * n2) + 68 * m2 * ((n2 * n2) * n2) + (n2 * n2) * (n2 * n2)
  }

  /** The `DataSet1(m, n)` constructor. */
  function NewDataSet1(m: int, n: int): (ds: DataSet1)
    requires InU64(m) && InU64(n)
    ensures !ds.valid && ds.m == m && ds.n == n
    ensures ds.check == Check1(m, n) && ds.check - ds.sums == ds.n8
    ensures ds.n8 == 0 <==> n == 0
    ensures ds.check >= 0
  {
    Check1NonNeg(m, n);
    var m2 := m * m;
    var m4 := m2 * m2;
    var m6 := m4 * m2;
    var m8 := m4 * m4;
    var n2 := n * n;
    var n4 := n2 * n2;
    var n6 := n4 * n2;
    var n8 := n4 * n4;
    var sums := m8 + 68 * m6 * n2 - 122 * m4 * n4 + 68 * m2 * n6;
    assert n8 == 0 <==> n == 0 by {
      if n != 0 { assert n2 > 0; assert n4 > 0; }
    }
    DataSet1(false, m, n, n8, sums, sums + n8)
  }

  /**
   * The polynomial of `DataSet1` is never negative: with u = m^2 and
   * v = n^2 it is (u^2 + 34uv + v^2)^2 - 1280 u^2 v^2, and
   * u^2 + 34uv + v^2 >= 36uv, so it is at least 16 u^2 v^2.
   */
  lemma {:induction false} Check1NonNeg(m: int, n: int)
    ensures Check1(m, n) >= 16 * (((m * m) * (n * n)) * ((m * m) * (n * n)))
  {
    var u, v := m * m, n * n;
    QuarticForm(u, v);
    SumBound(u, v);
    assert Check1(m, n) == (u * u + 34 * (u * v) + v * v) * (u * u + 34 * (u * v) + v * v) - 1280 * ((u * v) * (u * v));
  }

  /** For u, v >= 0: (u^2 + 34uv + v^2)^2 >= 1296 (uv)^2, because u^2 + v^2 >= 2uv. */
  lemma {:induction false} SumBound(u: int, v: int)
    requires 0 <= u && 0 <= v
    ensures (u * u + 34 * (u * v) + v * v) * (u * u + 34 * (u * v) + v * v) >= 1296 * ((u * v) * (u * v))
  {
    TwoSquares(u, v);
    assert 0 <= u * v;
    SquareBound(u * u, v * v, u * v);
  }

  /** u^2 + v^2 >= 2uv, because (u - v)^2 >= 0. */
  lemma {:induction false} TwoSquares(u: int, v: int)
    ensures u * u + v * v >= 2 * (u * v)
  {
    var d := u - v;
    assert d * d >= 0;
    assert d * d == u * u - 2 * (u * v) + v * v;
  }

  /** With a + b >= 2w >= 0: (a + 34w + b)^2 >= (36w)^2. */
  lemma {:induction false} SquareBound(a: int, b: int, w: int)
    requires 0 <= w && a + b >= 2 * w
    ensures (a + 34 * w + b) * (a + 34 * w + b) >= 1296 * (w * w)
  {
    MulLe(36 * w, a + 34 * w + b);
    assert (36 * w) * (36 * w) == 1296 * (w * w);
  }

  /** The quartic of `Check1` in u = m^2, v = n^2 as a difference of squares. */
  lemma {:induction false} QuarticForm(u: int, v: int)
    ensures (u * u) * (u * u) + 68 * ((u * u) * u) * v - 122 * (u * u) * (v * v) + 68 * u * ((v * v) * v) + (v * v) * (v * v)
         == (u * u + 34 * (u * v) + v * v) * (u * u + 34 * (u * v) + v * v) - 1280 * ((u * v) * (u * v))
  {
    Monomials(u, v);
    QuadraticInAW(u * u, v * v, u * v);
  }

  /** The degree-four monomials in u and v, written over u^2, v^2 and uv. */
  lemma {:induction false} Monomials(u: int, v: int)
    ensures ((u * u) * u) * v == (u * u) * (u * v)
    ensures (u * u) * (v * v) == (u * v) * (u * v)
    ensures u * ((v * v) * v) == (u * v) * (v * v)
  {
  }

  /** With ab = w^2: a^2 + 68aw - 122w^2 + 68wb + b^2 = (a + 34w + b)^2 - 1280w^2. */
  lemma {:induction false} QuadraticInAW(a: int, b: int, w: int)
    requires a * b == w * w
    ensures a * a + 68 * (a * w) - 122 * (w * w) + 68 * (w * b) + b * b
         == (a + 34 * w + b) * (a + 34 * w + b) - 1280 * (w * w)
  {
    SquareOfSum(a, 34 * w, b);
    assert a * (34 * w) == 34 * (a * w) && (34 * w) * b == 34 * (w * b);
    assert (34 * w) * (34 * w) == 1156 * (w * w);
  }

  lemma {:induction false} SquareOfSum(x: int, y: int, z: int)
    ensures (x + y + z) * (x + y + z) == x * x + 2 * (x * y) + 2 * (x * z) + y * y + 2 * (y * z) + z * z
  {
    assert (x + y + z) * (x + y + z) == x * (x + y + z) + y * (x + y + z) + z * (x + y + z);
  }

  lemma {:induction false} MulLe(x: int, y: int)
    requires 0 <= x <= y
    ensures x * x <= y * y
  {
    assert x * x <= x * y;
    assert x * y <= y * y;
  }

  /** `DataSet1.DataCheck`; a zero n8 raises DivideByZeroException in the source. */
  method DataCheck1(ds: DataSet1) returns (r: Result<bool>, ds': DataSet1)
    requires ds.check >= 0
    ensures r.Err? <==> ds.n8 == 0
    ensures r.Ok? ==> (r.value <==> ds.sums % ds.n8 == 0 && IsSquare(ds.check))
    ensures ds'.valid == (ds.valid || (ds.n8 != 0 && ds.sums % ds.n8 == 0))
    ensures ds' == ds.(valid := ds'.valid)
  {
    ds' := ds;
    if ds.n8 == 0 {
      return Err("DivideByZeroException"), ds';
    }
    var result := TruncDiv(ds.sums, ds.n8);
    if ds.sums == result * ds.n8 {
      ds' := ds'.(valid := true);
      var sq := IsPerfectSquare(ds.check, StartBit(ds.check));
      return Ok(sq), ds';
    }
    return Ok(false), ds';
  }

  function Abs(x: int): nat { if x < 0 then -x else x }

  /**
   * C#'s BigInteger division, which truncates toward zero: q * y lies
   * between 0 and x, less than one |y| away from x.
   */
  function TruncDiv(x: int, y: int): (q: int)
    requires y != 0
    ensures x >= 0 ==> 0 <= q * y <= x
    ensures x < 0 ==> x <= q * y <= 0
    ensures x - q * y < Abs(y) && q * y - x < Abs(y)
    ensures x == q * y <==> x % y == 0
  {
    var d, r := x / y, x % y;
    assert x == d * y + r && 0 <= r < Abs(y);
    MultipleSign(d, y);
    if x >= 0 || r == 0 then d else if y > 0 then d + 1 else d - 1
  }

  /** A nonzero multiple of y is at least |y| away from 0; its neighbours are one y away. */
  lemma {:induction false} MultipleSign(d: int, y: int)
    requires y != 0
    ensures d * y < 0 ==> d * y + Abs(y) <= 0
    ensures d * y > 0 ==> d * y >= Abs(y)
    ensures (d + 1) * y == d * y + y && (d - 1) * y == d * y - y
  {
    if y > 0 {
      if d <= -1 { assert (d + 1) * y <= 0; }
      if d >= 1 { assert (d - 1) * y >= 0; }
    } else {
      if d >= 1 { assert (d - 1) * y <= 0; }
      if d <= -1 { assert (d + 1) * y >= 0; }
    }
  }

}
