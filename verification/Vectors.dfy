/** Cosine similarity over the reals; the square root is a parameter with its
    defining property. */
module Vectors {
  ghost predicate RootLike(sqrt: real -> real) {
    forall x: real :: x >= 0.0 ==> sqrt(x) >= 0.0 && sqrt(x) * sqrt(x) == x
  }

  // ----- Cosine -----

  function Dot(a: seq<real>, b: seq<real>): real
    requires |a| == |b|
  {
    if a == [] then 0.0 else Dot(a[..|a| - 1], b[..|b| - 1]) + a[|a| - 1] * b[|b| - 1]
  }

  function Cosine(a: seq<real>, b: seq<real>, sqrt: real -> real): real {
    if |a| != |b| || a == [] then 0.0
    else Ratio(Dot(a, b), sqrt(Dot(a, a)), sqrt(Dot(b, b)))
  }

  function Ratio(dot: real, normA: real, normB: real): real {
    var denom := normA * normB;
    if denom > 0.0 then dot / denom else 0.0
  }

  method CosineSimilarity(a: seq<real>, b: seq<real>, sqrt: real -> real) returns (c: real)
    ensures c == Cosine(a, b, sqrt)
  {
    if |a| != |b| || a == [] { return 0.0; }
    var dot, ma, mb := 0.0, 0.0, 0.0;
    for i := 0 to |a|
      invariant dot == Dot(a[..i], b[..i]) && ma == Dot(a[..i], a[..i]) && mb == Dot(b[..i], b[..i])
    {
      assert a[..i + 1][..i] == a[..i] && b[..i + 1][..i] == b[..i];
      dot := dot + a[i] * b[i];
      ma := ma + a[i] * a[i];
      mb := mb + b[i] * b[i];
    }
    assert a[..|a|] == a && b[..|b|] == b;
    var denom := sqrt(ma) * sqrt(mb);
    return if denom > 0.0 then dot / denom else 0.0;
  }

  lemma SquareNonNegative(x: real)
    ensures x * x >= 0.0
  {
  }

  lemma ProductNonNegative(x: real, y: real)
    requires x >= 0.0 && y >= 0.0
    ensures x * y >= 0.0
  {
  }

  /** Of two numbers the one with the smaller square is not the larger. */
  lemma SquareOrder(x: real, y: real)
    requires y >= 0.0 && x * x <= y * y
    ensures -y <= x <= y
  {
    if x > y { SquareStrict(y, x); }
    if -x > y { SquareStrict(y, -x); }
  }

  lemma SquareStrict(y: real, x: real)
    requires 0.0 <= y < x
    ensures x * x > y * y
  {
    PositiveProduct(x - y, x + y);
    assert x * x - y * y == (x - y) * (x + y);
  }

  lemma PositiveProduct(x: real, y: real)
    requires x > 0.0 && y > 0.0
    ensures x * y > 0.0
  {
  }

  lemma MonotoneProduct(p: real, q: real, r: real)
    requires p <= q && r >= 0.0
    ensures p * r <= q * r
  {
    assert (q - p) * r >= 0.0;
  }

  /** The cross term of the induction: 2*d*x*y <= p*y*y + q*x*x. */
  lemma CrossTerm(d: real, p: real, q: real, x: real, y: real)
    requires d * d <= p * q && p >= 0.0 && q >= 0.0
    ensures 2.0 * (d * (x * y)) <= p * (y * y) + q * (x * x)
  {
    var u, v, t := p * (y * y), q * (x * x), 2.0 * (d * (x * y));
    var w := (x * y) * (x * y);
    SquareNonNegative(x);
    SquareNonNegative(y);
    SquareNonNegative(x * y);
    ProductNonNegative(p, y * y);
    ProductNonNegative(q, x * x);
    MonotoneProduct(d * d, p * q, w);
    Regroup(d, x * y);
    RegroupPair(p, q, x, y);
    SquareNonNegative(u - v);
    assert (u - v) * (u - v) == (u + v) * (u + v) - 4.0 * (u * v);
    SquareOrder(t, u + v);
  }

  lemma Regroup(d: real, z: real)
    ensures (2.0 * (d * z)) * (2.0 * (d * z)) == 4.0 * ((d * d) * (z * z))
  {
    assert (d * z) * (d * z) == (d * d) * (z * z);
  }

  lemma RegroupPair(p: real, q: real, x: real, y: real)
    ensures (p * (y * y)) * (q * (x * x)) == (p * q) * ((x * y) * (x * y))
  {
    assert (y * y) * (x * x) == (x * y) * (x * y);
  }

  lemma {:induction false} DotSelf(a: seq<real>)
    ensures Dot(a, a) >= 0.0
  {
    if a != [] {
      DotSelf(a[..|a| - 1]);
      SquareNonNegative(a[|a| - 1]);
    }
  }

  /** The Cauchy-Schwarz inequality for the sums the loop builds. */
  lemma {:induction false} CauchySchwarz(a: seq<real>, b: seq<real>)
    requires |a| == |b|
    ensures Dot(a, b) * Dot(a, b) <= Dot(a, a) * Dot(b, b)
  {
    if a != [] {
      var a', b', x, y := a[..|a| - 1], b[..|b| - 1], a[|a| - 1], b[|b| - 1];
      CauchySchwarz(a', b');
      DotSelf(a');
      DotSelf(b');
      var d, p, q := Dot(a', b'), Dot(a', a'), Dot(b', b');
      CrossTerm(d, p, q, x, y);
      Expand(d, p, q, x, y);
    }
  }

  lemma Expand(d: real, p: real, q: real, x: real, y: real)
    requires d * d <= p * q && 2.0 * (d * (x * y)) <= p * (y * y) + q * (x * x)
    ensures (d + x * y) * (d + x * y) <= (p + x * x) * (q + y * y)
  {
    var z := x * y;
    assert (d + z) * (d + z) == d * d + 2.0 * (d * z) + z * z;
    assert (p + x * x) * (q + y * y) == p * q + p * (y * y) + q * (x * x) + (x * x) * (y * y);
    assert (x * x) * (y * y) == z * z;
  }

  /** The similarity lies between -1 and 1. */
  lemma CosineBounded(a: seq<real>, b: seq<real>, sqrt: real -> real)
    requires RootLike(sqrt)
    ensures -1.0 <= Cosine(a, b, sqrt) <= 1.0
  {
    hide Dot, Ratio;
    if |a| == |b| && a != [] {
      var p, q, d := Dot(a, a), Dot(b, b), Dot(a, b);
      DotSelf(a);
      DotSelf(b);
      CauchySchwarz(a, b);
      RootsBound(d, p, q, sqrt(p), sqrt(q));
    }
  }

  lemma RootsBound(d: real, p: real, q: real, r: real, s: real)
    requires d * d <= p * q && r >= 0.0 && s >= 0.0 && r * r == p && s * s == q
    ensures -1.0 <= Ratio(d, r, s) <= 1.0
  {
    RegroupRoots(r, s);
    ProductNonNegative(r, s);
    SquareOrder(d, r * s);
    if r * s > 0.0 { RatioBounded(d, r * s); }
  }

  lemma RegroupRoots(r: real, s: real)
    ensures (r * s) * (r * s) == (r * r) * (s * s)
  {
  }

  lemma RatioBounded(d: real, denom: real)
    requires denom > 0.0 && -denom <= d <= denom
    ensures -1.0 <= d / denom <= 1.0
  {
  }

  // ----- What the similarity says -----

  /** The products may be summed from the front as well. */
  lemma {:induction false} DotFront(a: seq<real>, b: seq<real>)
    requires |a| == |b| > 0
    ensures Dot(a, b) == a[0] * b[0] + Dot(a[1..], b[1..])
  {
    var n := |a| - 1;
    if n > 0 {
      DotFront(a[..n], b[..n]);
      assert a[..n][1..] == a[1..][..n - 1] && b[..n][1..] == b[1..][..n - 1];
    } else {
      assert Dot([], []) == 0.0;
    }
  }

  predicate NonZero(a: seq<real>) {
    exists i | 0 <= i < |a| :: a[i] != 0.0
  }

  lemma {:induction false} NonZeroDot(a: seq<real>)
    ensures Dot(a, a) > 0.0 <==> NonZero(a)
  {
    if a != [] {
      var n := |a| - 1;
      NonZeroDot(a[..n]);
      DotSelf(a[..n]);
      SquareNonNegative(a[n]);
      SumPositive(Dot(a[..n], a[..n]), a[n]);
      if NonZero(a[..n]) {
        var i :| 0 <= i < n && a[..n][i] != 0.0;
        assert a[i] != 0.0;
      }
      if NonZero(a) {
        var i :| 0 <= i < |a| && a[i] != 0.0;
        assert i < n ==> a[..n][i] != 0.0;
      }
    }
  }

  lemma ProductPositive(x: real, y: real, z: real)
    requires x > 0.0 && y > 0.0 && z == x * y
    ensures z > 0.0
  {
  }

  lemma SquarePositive(x: real, z: real)
    requires z == x * x && x != 0.0
    ensures z > 0.0
  {
    if x > 0.0 {
      ProductPositive(x, x, z);
    } else {
      var u := -x;
      assert z == u * u;
      ProductPositive(u, u, z);
    }
  }

  lemma SumPositive(d: real, x: real)
    requires d >= 0.0
    ensures d + x * x > 0.0 <==> d > 0.0 || x != 0.0
  {
    var z := x * x;
    if x != 0.0 {
      SquarePositive(x, z);
      assert d + z > 0.0;
    } else {
      assert z == 0.0;
    }
  }

  function Opposite(a: seq<real>): (b: seq<real>)
    ensures |b| == |a| && forall i | 0 <= i < |a| :: b[i] == -a[i]
  {
    seq(|a|, i requires 0 <= i < |a| => -a[i])
  }

  lemma {:induction false} DotOpposite(a: seq<real>)
    ensures Dot(a, Opposite(a)) == -Dot(a, a) && Dot(Opposite(a), Opposite(a)) == Dot(a, a)
  {
    if a != [] {
      var n := |a| - 1;
      DotOpposite(a[..n]);
      assert Opposite(a)[..n] == Opposite(a[..n]);
      assert a[n] * -a[n] == -(a[n] * a[n]) && -a[n] * -a[n] == a[n] * a[n];
    }
  }

  /** A vector that is not zero is as similar to itself as can be, and to its opposite
      as little as can be. */
  lemma CosineOfItself(a: seq<real>, sqrt: real -> real)
    requires RootLike(sqrt) && NonZero(a)
    ensures Cosine(a, a, sqrt) == 1.0 && Cosine(a, Opposite(a), sqrt) == -1.0
  {
    hide Dot;
    NonZeroDot(a);
    DotOpposite(a);
    var p := Dot(a, a);
    assert sqrt(p) * sqrt(p) == p;
    WholeRatio(p);
  }

  lemma WholeRatio(p: real)
    requires p > 0.0
    ensures p / p == 1.0 && (-p) / p == -1.0
  {
  }

  /** The similarity has the sign of the sum of products; it is 0 for vectors that are
      zero, empty or of different lengths. */
  lemma CosineSign(a: seq<real>, b: seq<real>, sqrt: real -> real)
    requires RootLike(sqrt)
    ensures |a| != |b| || !NonZero(a) || !NonZero(b) ==> Cosine(a, b, sqrt) == 0.0
    ensures |a| == |b| && NonZero(a) && NonZero(b) ==>
      (Cosine(a, b, sqrt) > 0.0 <==> Dot(a, b) > 0.0) && (Cosine(a, b, sqrt) < 0.0 <==> Dot(a, b) < 0.0)
  {
    hide Dot;
    if |a| == |b| && a != [] {
      NonZeroDot(a);
      NonZeroDot(b);
      DotSelf(a);
      DotSelf(b);
      RootSign(Dot(a, a), sqrt);
      RootSign(Dot(b, b), sqrt);
      var r, s := sqrt(Dot(a, a)), sqrt(Dot(b, b));
      if r > 0.0 && s > 0.0 {
        PositiveProduct(r, s);
        RatioSign(Dot(a, b), r * s);
      } else {
        assert r * s == 0.0;
      }
    }
  }

  lemma RootSign(p: real, sqrt: real -> real)
    requires RootLike(sqrt) && p >= 0.0
    ensures sqrt(p) >= 0.0 && (sqrt(p) > 0.0 <==> p > 0.0)
  {
    var r := sqrt(p);
    assert r * r == p;
    RootOf(r, p);
  }

  lemma RootOf(r: real, p: real)
    requires r >= 0.0 && r * r == p
    ensures r > 0.0 <==> p > 0.0
  {
    if r != 0.0 {
      SquarePositive(r, p);
    } else {
      assert p == 0.0;
    }
  }

  lemma RatioSign(d: real, denom: real)
    requires denom > 0.0
    ensures (d / denom > 0.0 <==> d > 0.0) && (d / denom < 0.0 <==> d < 0.0)
  {
    var q := d / denom;
    assert q * denom == d;
    if q > 0.0 { PositiveProduct(q, denom); }
    if q < 0.0 { PositiveProduct(-q, denom); }
  }
}
