/**
 Dot products, norms and cosine similarity over exact reals.  The square root is an argument: any
 function that gives each vector the non-negative number whose square is its sum of squares.
 */
module Vectors {
  import opened Common

  type Vector = seq<real>

  function Dot(a: Vector, b: Vector): real
    requires |a| == |b|
  {
    if a == [] then 0.0 else a[0] * b[0] + Dot(a[1..], b[1..])
  }

  function SumOfSquares(v: Vector): real { Dot(v, v) }

  predicate IsNorm(v: Vector, n: real) { n >= 0.0 && n * n == SumOfSquares(v) }

  /** `norm` is l2_norm with an exact square root. */
  ghost predicate Exact(norm: Vector -> real) { forall v :: IsNorm(v, norm(v)) }

  function Scale(c: real, v: Vector): (r: Vector)
    ensures |r| == |v|
  {
    seq(|v|, i requires 0 <= i < |v| => c * v[i])
  }

  datatype VectorError = ZeroVector | DimensionMismatch

  /** Each value divided by the norm. */
  function NormalizeVector(v: Vector, norm: Vector -> real): Result<Vector, VectorError> {
    if norm(v) == 0.0 then Err(ZeroVector) else Ok(Scale(1.0 / norm(v), v))
  }

  function Ratio(d: real, p: real, q: real): real
    requires p != 0.0 && q != 0.0
  {
    d / (p * q)
  }

  function CosineSimilarity(left: Vector, right: Vector, norm: Vector -> real): Result<real, VectorError> {
    if |left| != |right| then Err(DimensionMismatch)
    else if norm(left) == 0.0 || norm(right) == 0.0 then Ok(0.0)
    else Ok(Ratio(Dot(left, right), norm(left), norm(right)))
  }

  // ----- Cauchy-Schwarz

  lemma SquareNonNegative(x: real)
    ensures x * x >= 0.0
  {
  }

  lemma {:induction false} SumOfSquaresNonNegative(v: Vector)
    ensures SumOfSquares(v) >= 0.0
  {
    if v != [] {
      SquareNonNegative(v[0]);
      SumOfSquaresNonNegative(v[1..]);
    }
  }

  lemma ProductPositive(x: real, y: real)
    requires x > 0.0 && y > 0.0
    ensures x * y > 0.0
  {
  }

  lemma SquareOrder(u: real, v: real)
    requires v >= 0.0 && u * u <= v * v
    ensures -v <= u <= v
  {
    assert (u - v) * (u + v) == (-u - v) * (-u + v) == u * u - v * v;
    if u > v {
      ProductPositive(u - v, u + v);
    } else if u < -v {
      ProductPositive(-u - v, -u + v);
    }
  }

  /** One more coordinate keeps the inequality d*d <= a*b of the others. */
  lemma CauchyStep(x: real, y: real, d: real, a: real, b: real)
    requires a >= 0.0 && b >= 0.0 && d * d <= a * b
    ensures (x * y + d) * (x * y + d) <= (x * x + a) * (y * y + b)
  {
    var u, v := 2.0 * (x * y) * d, x * x * b + y * y * a;
    var xy := x * y;
    SquareNonNegative(x);
    SquareNonNegative(y);
    SquareNonNegative(xy);
    assert x * x * b >= 0.0 && y * y * a >= 0.0;
    var w := x * x * b - y * y * a;
    SquareNonNegative(w);
    assert v * v == w * w + 4.0 * ((xy * xy) * (a * b));
    assert u * u == 4.0 * ((xy * xy) * (d * d));
    assert (xy * xy) * (d * d) <= (xy * xy) * (a * b);
    SquareOrder(u, v);
    assert (xy + d) * (xy + d) == xy * xy + u + d * d;
    assert (x * x + a) * (y * y + b) == xy * xy + v + a * b;
  }

  lemma {:induction false} CauchySchwarz(a: Vector, b: Vector)
    requires |a| == |b|
    ensures Dot(a, b) * Dot(a, b) <= SumOfSquares(a) * SumOfSquares(b)
  {
    if a != [] {
      CauchySchwarz(a[1..], b[1..]);
      SumOfSquaresNonNegative(a[1..]);
      SumOfSquaresNonNegative(b[1..]);
      CauchyStep(a[0], b[0], Dot(a[1..], b[1..]), SumOfSquares(a[1..]), SumOfSquares(b[1..]));
    }
  }

  lemma NormProduct(p: real, q: real, m: real, n: real)
    requires p * p == m && q * q == n
    ensures (p * q) * (p * q) == m * n
  {
  }

  lemma QuotientInUnitInterval(d: real, p: real, q: real)
    requires p > 0.0 && q > 0.0 && d * d <= (p * q) * (p * q)
    ensures -1.0 <= Ratio(d, p, q) <= 1.0
  {
    ProductPositive(p, q);
    SquareOrder(d, p * q);
  }

  /** Cosine similarity lies between -1 and 1 for all vectors of equal dimension. */
  lemma CosineInRange(left: Vector, right: Vector, norm: Vector -> real)
    requires Exact(norm) && |left| == |right|
    ensures CosineSimilarity(left, right, norm).Ok?
    ensures -1.0 <= CosineSimilarity(left, right, norm).value <= 1.0
  {
    assert IsNorm(left, norm(left)) && IsNorm(right, norm(right));
    var p, q := norm(left), norm(right);
    if p != 0.0 && q != 0.0 {
      CauchySchwarz(left, right);
      NormProduct(p, q, SumOfSquares(left), SumOfSquares(right));
      QuotientInUnitInterval(Dot(left, right), p, q);
    }
  }

  // ----- what the dot product and the cosine are

  function UnitVector(n: nat, i: nat): (r: Vector)
    ensures |r| == n
  {
    seq(n, j requires 0 <= j < n => if j == i then 1.0 else 0.0)
  }

  function Plus(a: Vector, b: Vector): (r: Vector)
    requires |a| == |b|
    ensures |r| == |a|
  {
    seq(|a|, i requires 0 <= i < |a| => a[i] + b[i])
  }

  lemma {:induction false} DotZero(a: Vector, b: Vector)
    requires |a| == |b| && forall i | 0 <= i < |a| :: a[i] == 0.0
    ensures Dot(a, b) == 0.0
  {
    if a != [] { DotZero(a[1..], b[1..]); }
  }

  /** The dot product with the i-th unit vector is the i-th coordinate... */
  lemma {:induction false} DotPicks(v: Vector, i: nat)
    requires i < |v|
    ensures Dot(UnitVector(|v|, i), v) == v[i]
  {
    var e := UnitVector(|v|, i);
    if i == 0 {
      DotZero(e[1..], v[1..]);
    } else {
      assert e[1..] == UnitVector(|v| - 1, i - 1);
      DotPicks(v[1..], i - 1);
    }
  }

  /** ...and it is additive, which with DotScale and DotPicks leaves only one function. */
  lemma {:induction false} DotAdds(a: Vector, b: Vector, c: Vector)
    requires |a| == |b| == |c|
    ensures Dot(Plus(a, b), c) == Dot(a, c) + Dot(b, c)
  {
    if a != [] {
      assert Plus(a, b)[1..] == Plus(a[1..], b[1..]);
      DotAdds(a[1..], b[1..], c[1..]);
      assert (a[0] + b[0]) * c[0] == a[0] * c[0] + b[0] * c[0];
    }
  }

  /** `r` is `d` divided by both norms. */
  predicate IsQuotient(r: real, d: real, p: real, q: real) { p != 0.0 && q != 0.0 && r * (p * q) == d }

  lemma RatioTimes(d: real, p: real, q: real)
    requires p != 0.0 && q != 0.0
    ensures IsQuotient(Ratio(d, p, q), d, p, q)
  {
  }

  /**
   The cosine is the dot product over the norms.  It is refused exactly for different lengths, and zero
   if either vector is zero.
   */
  lemma CosineMeaning(left: Vector, right: Vector, norm: Vector -> real)
    requires Exact(norm)
    ensures var r := CosineSimilarity(left, right, norm);
            && (r == Err(DimensionMismatch) <==> |left| != |right|)
            && (|left| == |right| ==> r.Ok?)
            && (|left| == |right| && (AllZero(left) || AllZero(right)) ==> r == Ok(0.0))
            && (|left| == |right| && !AllZero(left) && !AllZero(right) ==>
                  IsQuotient(r.value, Dot(left, right), norm(left), norm(right)))
  {
    ZeroNorm(left, norm);
    ZeroNorm(right, norm);
    CosineCases(left, right, norm);
  }

  lemma ZeroNorm(v: Vector, norm: Vector -> real)
    requires Exact(norm)
    ensures norm(v) == 0.0 <==> AllZero(v)
  {
    ZeroVectorsFail(v, norm);
  }

  lemma CosineCases(left: Vector, right: Vector, norm: Vector -> real)
    ensures var r := CosineSimilarity(left, right, norm);
            && (r == Err(DimensionMismatch) <==> |left| != |right|)
            && (|left| == |right| ==> r.Ok?)
            && (|left| == |right| && (norm(left) == 0.0 || norm(right) == 0.0) ==> r == Ok(0.0))
            && (|left| == |right| && norm(left) != 0.0 && norm(right) != 0.0 ==>
                  IsQuotient(r.value, Dot(left, right), norm(left), norm(right)))
  {
    if |left| == |right| && norm(left) != 0.0 && norm(right) != 0.0 {
      RatioTimes(Dot(left, right), norm(left), norm(right));
    }
  }

  /** Between a vector and itself the cosine is one. */
  lemma CosineOfSelf(v: Vector, norm: Vector -> real)
    requires Exact(norm) && !AllZero(v)
    ensures CosineSimilarity(v, v, norm) == Ok(1.0)
  {
    ZeroVectorsFail(v, norm);
    assert IsNorm(v, norm(v));
    RatioOne(Dot(v, v), norm(v));
  }

  lemma RatioOne(d: real, n: real)
    requires n != 0.0 && n * n == d
    ensures Ratio(d, n, n) == 1.0
  {
    SquareNonNegative(n);
    if d == 0.0 { SquareZero(n); }
    RatioTimes(d, n, n);
    var x := Ratio(d, n, n) - 1.0;
    assert x * d == Ratio(d, n, n) * d - d == 0.0;
    if x > 0.0 { ProductPositive(x, d); }
    if x < 0.0 { ProductPositive(-x, d); }
  }

  // ----- scaling

  lemma ScaleTail(c: real, v: Vector)
    requires v != []
    ensures Scale(c, v)[1..] == Scale(c, v[1..])
  {
    var a, b := Scale(c, v)[1..], Scale(c, v[1..]);
    forall i | 0 <= i < |a| ensures a[i] == b[i] { assert v[1..][i] == v[i + 1]; }
  }

  lemma {:induction false} DotScale(c: real, a: Vector, b: Vector)
    requires |a| == |b|
    ensures Dot(Scale(c, a), b) == c * Dot(a, b)
  {
    if a != [] {
      ScaleTail(c, a);
      DotScale(c, a[1..], b[1..]);
      assert c * a[0] * b[0] == c * (a[0] * b[0]);
    }
  }

  lemma {:induction false} DotSymmetric(a: Vector, b: Vector)
    requires |a| == |b|
    ensures Dot(a, b) == Dot(b, a)
  {
    if a != [] { DotSymmetric(a[1..], b[1..]); }
  }

  lemma NormUnique(v: Vector, m: real, n: real)
    requires IsNorm(v, m) && IsNorm(v, n)
    ensures m == n
  {
    SquareOrder(m, n);
    SquareOrder(n, m);
  }

  lemma NormScale(c: real, v: Vector, norm: Vector -> real)
    requires Exact(norm) && c > 0.0
    ensures norm(Scale(c, v)) == c * norm(v)
  {
    assert IsNorm(v, norm(v)) && IsNorm(Scale(c, v), norm(Scale(c, v)));
    DotScale(c, v, Scale(c, v));
    DotSymmetric(v, Scale(c, v));
    DotScale(c, v, v);
    var n := norm(v);
    assert (c * n) * (c * n) == c * (c * (n * n));
    NormUnique(Scale(c, v), norm(Scale(c, v)), c * n);
  }

  lemma CancelFactor(c: real, d: real, p: real, q: real, d': real, p': real)
    requires c > 0.0 && p > 0.0 && q > 0.0 && d' == c * d && p' == c * p
    ensures p' > 0.0 && Ratio(d', p', q) == Ratio(d, p, q)
  {
    ProductPositive(p, q);
    ProductPositive(c, p * q);
    var m, r := p * q, d / (p * q);
    assert p' * q == c * m;
    assert r * m == d;
    assert r * (c * m) == c * d;
  }

  /** Stretching one vector does not change the cosine. */
  lemma CosineIgnoresScale(c: real, left: Vector, right: Vector, norm: Vector -> real)
    requires Exact(norm) && c > 0.0
    ensures CosineSimilarity(Scale(c, left), right, norm) == CosineSimilarity(left, right, norm)
  {
    if |left| == |right| {
      NormScale(c, left, norm);
      DotScale(c, left, right);
      assert IsNorm(left, norm(left)) && IsNorm(right, norm(right));
      var p, q := norm(left), norm(right);
      if p != 0.0 && q != 0.0 {
        CancelFactor(c, Dot(left, right), p, q, Dot(Scale(c, left), right), norm(Scale(c, left)));
      }
    }
  }

  lemma CosineSymmetric(left: Vector, right: Vector, norm: Vector -> real)
    ensures CosineSimilarity(left, right, norm) == CosineSimilarity(right, left, norm)
  {
    if |left| == |right| {
      DotSymmetric(left, right);
      assert norm(left) * norm(right) == norm(right) * norm(left);
    }
  }

  // ----- normalisation

  lemma InversePositive(n: real)
    requires n > 0.0
    ensures 1.0 / n > 0.0 && (1.0 / n) * n == 1.0
  {
  }

  /** A normalised vector has norm one, so normalising it again changes nothing. */
  lemma NormalizeIsIdempotent(v: Vector, norm: Vector -> real)
    requires Exact(norm) && NormalizeVector(v, norm).Ok?
    ensures norm(NormalizeVector(v, norm).value) == 1.0
    ensures NormalizeVector(NormalizeVector(v, norm).value, norm) == NormalizeVector(v, norm)
  {
    assert IsNorm(v, norm(v));
    InversePositive(norm(v));
    NormScale(1.0 / norm(v), v, norm);
    var u := NormalizeVector(v, norm).value;
    assert Scale(1.0 / 1.0, u) == u;
  }

  predicate AllZero(v: Vector) { forall i | 0 <= i < |v| :: v[i] == 0.0 }

  /** Exactly the zero vectors cannot be normalised. */
  lemma ZeroVectorsFail(v: Vector, norm: Vector -> real)
    requires Exact(norm)
    ensures NormalizeVector(v, norm).Err? <==> AllZero(v)
  {
    assert IsNorm(v, norm(v));
    SumOfSquaresZero(v);
    if norm(v) > 0.0 { ProductPositive(norm(v), norm(v)); }
  }

  lemma SquareZero(x: real)
    requires x * x == 0.0
    ensures x == 0.0
  {
    SquareOrder(x, 0.0);
  }

  lemma {:induction false} SumOfSquaresZero(v: Vector)
    ensures SumOfSquares(v) == 0.0 <==> AllZero(v)
  {
    if v != [] {
      var rest := v[1..];
      SumOfSquaresZero(rest);
      SumOfSquaresNonNegative(rest);
      SquareNonNegative(v[0]);
      if SumOfSquares(v) == 0.0 {
        SquareZero(v[0]);
        forall i | 0 <= i < |v| ensures v[i] == 0.0 { assert i == 0 || v[i] == rest[i - 1]; }
      }
      if AllZero(v) {
        forall i | 0 <= i < |rest| ensures rest[i] == 0.0 { assert rest[i] == v[i + 1]; }
      }
    }
  }

  /** Normalising either vector leaves the cosine as it was. */
  lemma CosineOfNormalized(left: Vector, right: Vector, norm: Vector -> real)
    requires Exact(norm) && NormalizeVector(left, norm).Ok? && NormalizeVector(right, norm).Ok?
    ensures CosineSimilarity(NormalizeVector(left, norm).value, NormalizeVector(right, norm).value, norm)
         == CosineSimilarity(left, right, norm)
  {
    assert IsNorm(left, norm(left)) && IsNorm(right, norm(right));
    InversePositive(norm(left));
    InversePositive(norm(right));
    var l, r := NormalizeVector(left, norm).value, NormalizeVector(right, norm).value;
    CosineIgnoresScale(1.0 / norm(left), left, r, norm);
    CosineSymmetric(left, r, norm);
    CosineIgnoresScale(1.0 / norm(right), right, left, norm);
    CosineSymmetric(right, left, norm);
  }
}
