/** Inner products and the cosine of two vectors. */
module Vectors {

  type Vector = seq<real>

  /** The shorter length counts. */
  function Inner(a: Vector, b: Vector): real {
    if a == [] || b == [] then 0.0 else a[0] * b[0] + Inner(a[1..], b[1..])
  }

  /** The square root, through the facts used. */
  ghost predicate SquareRoot(sqrt: real -> real) {
    forall x: real :: x >= 0.0 ==> sqrt(x) >= 0.0 && sqrt(x) * sqrt(x) == x
  }

  function Product(x: real, y: real): real { x * y }

  /** A quotient that is 0 over 0. */
  function Ratio(p: real, d: real): real { if d == 0.0 then 0.0 else p / d }

  function Square(x: real): real { Product(x, x) }

  lemma SquareNonNegative(x: real)
    ensures x * x >= 0.0
  {
  }

  lemma {:induction false} InnerNonNegative(a: Vector)
    ensures Inner(a, a) >= 0.0
  {
    if a != [] {
      InnerNonNegative(a[1..]);
      SquareNonNegative(a[0]);
    }
  }

  lemma {:induction false} InnerSymmetric(a: Vector, b: Vector)
    ensures Inner(a, b) == Inner(b, a)
  {
    if a != [] && b != [] {
      InnerSymmetric(a[1..], b[1..]);
    }
  }

  lemma ProductNonNegative(x: real, y: real)
    requires x >= 0.0 && y >= 0.0
    ensures x * y >= 0.0
  {
  }

  lemma ProductPositive(x: real, y: real)
    requires x > 0.0 && y > 0.0
    ensures x * y > 0.0 && Product(x, y) > 0.0
  {
  }

  lemma SquareGrows(x: real, y: real)
    requires 0.0 <= y < x
    ensures y * y < x * x
  {
    ProductPositive(x - y, x + y);
    assert (x - y) * (x + y) == x * x - y * y;
  }

  lemma SquareOrder(x: real, y: real)
    requires y >= 0.0 && x * x <= y * y
    ensures -y <= x <= y
  {
    if x > y {
      SquareGrows(x, y);
    } else if -x > y {
      SquareGrows(-x, y);
    }
  }

  /** One coordinate more: `d` is the inner product of the rest, `u` and `v` its squares. */
  lemma MixedTerm(a: real, b: real, d: real, u: real, v: real)
    requires u >= 0.0 && v >= 0.0 && d * d <= u * v
    ensures 2.0 * a * b * d <= a * a * v + b * b * u
  {
    var p, q, x := a * a * v, b * b * u, 2.0 * a * b * d;
    SquareNonNegative(a);
    SquareNonNegative(b);
    ProductNonNegative(a * a, v);
    ProductNonNegative(b * b, u);
    var c := a * b;
    SquareNonNegative(c);
    assert x * x == 4.0 * (c * c) * (d * d);
    ProductNonNegative(c * c, u * v - d * d);
    assert p * q == (c * c) * (u * v);
    SquareNonNegative(p - q);
    assert (p + q) * (p + q) == (p - q) * (p - q) + 4.0 * (p * q);
    SquareOrder(x, p + q);
  }

  lemma InnerStep(a: Vector, b: Vector)
    requires a != [] && b != []
    ensures Inner(a, b) == a[0] * b[0] + Inner(a[1..], b[1..])
  {
  }

  /** `p` is no larger than the two lengths together, whose squares these are. */
  predicate Within(p: real, u: real, v: real) { u >= 0.0 && v >= 0.0 && p * p <= u * v }

  lemma WithinStep(x: real, y: real, d: real, u: real, v: real)
    requires Within(d, u, v)
    ensures Within(x * y + d, x * x + u, y * y + v)
  {
    SquareNonNegative(x);
    SquareNonNegative(y);
    Expanded(x, y, d, u, v);
  }

  lemma EmptyWithin(a: Vector, b: Vector)
    requires a == [] || b == []
    ensures Within(Inner(a, b), Inner(a, a), Inner(b, b))
  {
    InnerNonNegative(a);
    InnerNonNegative(b);
    ProductNonNegative(Inner(a, a), Inner(b, b));
  }

  /** The inequality of Cauchy and Schwarz. */
  lemma {:induction false} CauchySchwarz(a: Vector, b: Vector)
    ensures Within(Inner(a, b), Inner(a, a), Inner(b, b))
    decreases |a|
  {
    if a == [] || b == [] {
      EmptyWithin(a, b);
    } else {
      var s, t := a[1..], b[1..];
      CauchySchwarz(s, t);
      WithinStep(a[0], b[0], Inner(s, t), Inner(s, s), Inner(t, t));
      InnerStep(a, b);
      InnerStep(a, a);
      InnerStep(b, b);
    }
  }

  lemma Expanded(x: real, y: real, d: real, u: real, v: real)
    requires u >= 0.0 && v >= 0.0 && d * d <= u * v
    ensures (x * y + d) * (x * y + d) <= (x * x + u) * (y * y + v)
  {
    MixedTerm(x, y, d, u, v);
    assert (x * y + d) * (x * y + d) == x * x * y * y + 2.0 * x * y * d + d * d;
    assert (x * x + u) * (y * y + v) == x * x * y * y + (x * x * v + y * y * u) + u * v;
  }

  function Length(sqrt: real -> real, a: Vector): real { sqrt(Inner(a, a)) }

  lemma LengthIsRoot(sqrt: real -> real, a: Vector)
    requires SquareRoot(sqrt)
    ensures Length(sqrt, a) >= 0.0 && Square(Length(sqrt, a)) == Inner(a, a)
  {
    InnerNonNegative(a);
    assert sqrt(Inner(a, a)) >= 0.0;
  }

  lemma QuotientAtMost(x: real, y: real)
    requires y > 0.0 && x <= y
    ensures x / y <= 1.0
  {
    var r := x / y;
    assert r * y == x;
    assert r * y <= 1.0 * y;
  }

  lemma QuotientRange(x: real, y: real)
    requires y > 0.0 && -y <= x <= y
    ensures -1.0 <= x / y <= 1.0
  {
    QuotientAtMost(x, y);
    QuotientAtMost(-x, y);
    assert (-x) / y == -(x / y);
  }

  lemma Divided(p: real, x: real, d: real)
    requires d != 0.0 && x * d == p
    ensures p / d == x
  {
  }

  lemma ProductNotZero(x: real, y: real)
    requires x != 0.0 && y != 0.0
    ensures x * y != 0.0 && Product(x, y) != 0.0
  {
    var p, q := if x > 0.0 then x else -x, if y > 0.0 then y else -y;
    ProductPositive(p, q);
    assert x * y == p * q || x * y == -(p * q);
  }

  /** The cosine from the inner product and the two lengths; 0 for a zero vector. */
  function Cosine(p: real, m: real, n: real): real {
    if m == 0.0 || n == 0.0 then 0.0 else
      ProductNotZero(m, n);
      p / Product(m, n)
  }

  lemma CosineBound(p: real, m: real, n: real, u: real, v: real)
    requires m >= 0.0 && n >= 0.0 && Square(m) == u && Square(n) == v && Within(p, u, v)
    ensures -1.0 <= Cosine(p, m, n) <= 1.0
  {
    if m > 0.0 && n > 0.0 {
      ProductPositive(m, n);
      assert (m * n) * (m * n) == (m * m) * (n * n);
      SquareOrder(p, m * n);
      QuotientRange(p, m * n);
    }
  }

  function CosineOf(sqrt: real -> real, a: Vector, b: Vector): real {
    Cosine(Inner(a, b), Length(sqrt, a), Length(sqrt, b))
  }

  /** The cosine of two vectors lies between -1 and 1. */
  lemma CosineRange(sqrt: real -> real, a: Vector, b: Vector)
    requires SquareRoot(sqrt)
    ensures -1.0 <= CosineOf(sqrt, a, b) <= 1.0
  {
    LengthIsRoot(sqrt, a);
    LengthIsRoot(sqrt, b);
    CauchySchwarz(a, b);
    CosineBound(Inner(a, b), Length(sqrt, a), Length(sqrt, b), Inner(a, a), Inner(b, b));
  }

  lemma CosineOfSquare(p: real, m: real)
    requires m != 0.0 && Square(m) == p
    ensures Cosine(p, m, m) == 1.0
  {
    ProductNotZero(m, m);
    Divided(p, 1.0, Square(m));
  }

  /** A vector that is not zero has cosine 1 with itself. */
  lemma CosineOfSelf(sqrt: real -> real, a: Vector)
    requires SquareRoot(sqrt) && Length(sqrt, a) != 0.0
    ensures CosineOf(sqrt, a, a) == 1.0
  {
    LengthIsRoot(sqrt, a);
    CosineOfSquare(Inner(a, a), Length(sqrt, a));
  }

  function Scaled(c: real, a: Vector): (r: Vector)
    ensures |r| == |a|
  {
    if a == [] then [] else [c * a[0]] + Scaled(c, a[1..])
  }

  lemma {:induction false} InnerScaled(c: real, a: Vector, b: Vector)
    ensures Inner(Scaled(c, a), b) == Times(c, Inner(a, b))
  {
    if a != [] && b != [] {
      InnerScaled(c, a[1..], b[1..]);
      InnerStep(a, b);
      InnerStep(Scaled(c, a), b);
      assert Scaled(c, a)[1..] == Scaled(c, a[1..]);
      Associated(c, a[0], b[0], Inner(a[1..], b[1..]));
    }
  }

  lemma Associated(c: real, x: real, y: real, rest: real)
    ensures (c * x) * y + c * rest == c * (x * y + rest)
  {
  }

  lemma ScaledSquare(c: real, n: real)
    ensures (c * n) * (c * n) == c * (c * (n * n))
  {
  }

  lemma RootUnique(x: real, y: real)
    requires x >= 0.0 && y >= 0.0 && x * x == y * y
    ensures x == y
  {
    SquareOrder(x, y);
    SquareOrder(y, x);
  }

  function Times(c: real, x: real): real { c * x }

  lemma TimesRoot(c: real, p: real, n: real, r: real)
    requires c > 0.0 && n >= 0.0 && r >= 0.0 && Square(n) == p && Square(r) == Times(c, Times(c, p))
    ensures r == Times(c, n)
  {
    ProductNonNegative(c, n);
    ScaledSquare(c, n);
    RootUnique(r, c * n);
  }

  lemma LengthScaled(sqrt: real -> real, c: real, a: Vector)
    requires SquareRoot(sqrt) && c > 0.0
    ensures Length(sqrt, Scaled(c, a)) == Times(c, Length(sqrt, a))
  {
    InnerScaled(c, a, Scaled(c, a));
    InnerSymmetric(a, Scaled(c, a));
    InnerScaled(c, a, a);
    LengthIsRoot(sqrt, a);
    LengthIsRoot(sqrt, Scaled(c, a));
    TimesRoot(c, Inner(a, a), Length(sqrt, a), Length(sqrt, Scaled(c, a)));
  }

  lemma TimesNotZero(c: real, x: real)
    requires c != 0.0 && x != 0.0
    ensures Times(c, x) != 0.0
  {
    ProductNotZero(c, x);
  }

  lemma SameQuotient(c: real, p: real, m: real, n: real, r: real, k: real)
    requires m != 0.0 && n != 0.0 && k != 0.0 && k == c * m && r == c * p
    ensures Cosine(r, k, n) == Cosine(p, m, n)
  {
    ProductNotZero(m, n);
    ProductNotZero(k, n);
    var x, d, e := Cosine(p, m, n), m * n, k * n;
    assert x * d == p;
    assert e == c * d;
    assert x * e == c * (x * d);
    Divided(r, x, e);
  }

  lemma CosineScaled(c: real, p: real, m: real, n: real)
    requires c > 0.0
    ensures Cosine(Times(c, p), Times(c, m), n) == Cosine(p, m, n)
  {
    if m != 0.0 && n != 0.0 {
      TimesNotZero(c, m);
      SameQuotient(c, p, m, n, Times(c, p), Times(c, m));
    }
  }

  /** Only the direction counts. */
  lemma CosineIgnoresLength(sqrt: real -> real, c: real, a: Vector, b: Vector)
    requires SquareRoot(sqrt) && c > 0.0
    ensures CosineOf(sqrt, Scaled(c, a), b) == CosineOf(sqrt, a, b)
  {
    InnerScaled(c, a, b);
    LengthScaled(sqrt, c, a);
    CosineScaled(c, Inner(a, b), Length(sqrt, a), Length(sqrt, b));
  }

  lemma CosineSwaps(p: real, m: real, n: real)
    ensures Cosine(p, m, n) == Cosine(p, n, m)
  {
    assert m * n == n * m;
  }

  lemma CosineSymmetric(sqrt: real -> real, a: Vector, b: Vector)
    ensures CosineOf(sqrt, a, b) == CosineOf(sqrt, b, a)
  {
    InnerSymmetric(a, b);
    CosineSwaps(Inner(a, b), Length(sqrt, a), Length(sqrt, b));
  }
}
