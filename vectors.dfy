/** Real-valued embedding vectors: dot product, L2 normalisation and the
    facts about unit vectors that cosine-similarity search relies on. */
module Vectors {

  type Vector = seq<real>

  function Dot(a: Vector, b: Vector): real
    requires |a| == |b|
    decreases |a|
  {
    if |a| == 0 then 0.0 else a[0] * b[0] + Dot(a[1..], b[1..])
  }

  /** `numpy.linalg.norm` is a foreign call; the model receives it as a
      function that is assumed to return the Euclidean length. */
  type NormFn = Vector -> real

  ghost predicate IsL2Norm(norm: NormFn) {
    forall v: Vector :: 0.0 <= norm(v) && norm(v) * norm(v) == Dot(v, v)
  }

  /** The vector's squared length is positive: not the zero vector. */
  predicate NonZero(v: Vector) { Dot(v, v) > 0.0 }

  predicate IsUnit(u: Vector) { Dot(u, u) == 1.0 }

  /** `v / n`, element by element. */
  function Normalize(v: Vector, n: real): (u: Vector)
    requires n != 0.0
    ensures |u| == |v|
  {
    seq(|v|, i requires 0 <= i < |v| => v[i] / n)
  }

  function Sub(a: Vector, b: Vector): (d: Vector)
    requires |a| == |b|
    ensures |d| == |a|
  {
    seq(|a|, i requires 0 <= i < |a| => a[i] - b[i])
  }

  function Add(a: Vector, b: Vector): (d: Vector)
    requires |a| == |b|
    ensures |d| == |a|
  {
    seq(|a|, i requires 0 <= i < |a| => a[i] + b[i])
  }

  lemma {:induction false} DotSelfNonNegative(a: Vector)
    ensures Dot(a, a) >= 0.0
    decreases |a|
  {
    if |a| > 0 {
      DotSelfNonNegative(a[1..]);
      assert a[0] * a[0] >= 0.0;
    }
  }

  lemma {:induction false} DotSymmetric(a: Vector, b: Vector)
    requires |a| == |b|
    ensures Dot(a, b) == Dot(b, a)
    decreases |a|
  {
    if |a| > 0 { DotSymmetric(a[1..], b[1..]); }
  }

  /** One step of `DotDivideLeft`, on scalars. */
  lemma DivideStep(x: real, y: real, d: real, n: real)
    requires n != 0.0
    ensures (x / n) * y + d / n == (x * y + d) / n
  {
    assert (x / n) * y == (x * y) / n;
  }

  lemma DivideTwice(x: real, n: real, m: real)
    requires n != 0.0 && m != 0.0
    ensures (x / m) / n == x / (n * m)
  {}

  /** Dividing the first argument by a constant divides the dot product by it. */
  lemma {:induction false} DotDivideLeft(a: Vector, b: Vector, n: real)
    requires |a| == |b| && n != 0.0
    ensures Dot(Normalize(a, n), b) == Dot(a, b) / n
    decreases |a|
  {
    if |a| > 0 {
      var na := Normalize(a, n);
      assert na[1..] == Normalize(a[1..], n);
      DotDivideLeft(a[1..], b[1..], n);
      DivideStep(a[0], b[0], Dot(a[1..], b[1..]), n);
    }
  }

  /** Dividing both arguments by constants divides the dot product by their product. */
  lemma DotNormalize(a: Vector, b: Vector, n: real, m: real)
    requires |a| == |b| && n != 0.0 && m != 0.0
    ensures Dot(Normalize(a, n), Normalize(b, m)) == Dot(a, b) / (n * m)
  {
    var nb := Normalize(b, m);
    DotDivideLeft(a, nb, n);
    DotSymmetric(a, nb);
    DotDivideLeft(b, a, m);
    DotSymmetric(a, b);
    DivideTwice(Dot(a, b), n, m);
  }

  /** A non-zero vector divided by its norm has unit length (the norm is positive). */
  lemma NormalizedIsUnit(v: Vector, norm: NormFn)
    requires IsL2Norm(norm) && NonZero(v)
    ensures norm(v) > 0.0
    ensures IsUnit(Normalize(v, norm(v)))
  {
    var n := norm(v);
    assert n * n == Dot(v, v) > 0.0;
    DotNormalize(v, v, n, n);
    assert Dot(v, v) / (n * n) == 1.0;
  }

  lemma DistributeDiff(x: real, y: real, z: real)
    ensures (x - y) * z == x * z - y * z
  {}

  lemma DistributeSum(x: real, y: real, z: real)
    ensures (x + y) * z == x * z + y * z
  {}

  /** The dot product is linear in its first argument: differences. */
  lemma {:induction false} DotSubLeft(a: Vector, b: Vector, c: Vector)
    requires |a| == |b| == |c|
    ensures Dot(Sub(a, b), c) == Dot(a, c) - Dot(b, c)
    decreases |a|
  {
    if |a| > 0 {
      var d := Sub(a, b);
      assert d[1..] == Sub(a[1..], b[1..]);
      assert d[0] == a[0] - b[0];
      DotSubLeft(a[1..], b[1..], c[1..]);
      DistributeDiff(a[0], b[0], c[0]);
    }
  }

  /** The dot product is linear in its first argument: sums. */
  lemma {:induction false} DotAddLeft(a: Vector, b: Vector, c: Vector)
    requires |a| == |b| == |c|
    ensures Dot(Add(a, b), c) == Dot(a, c) + Dot(b, c)
    decreases |a|
  {
    if |a| > 0 {
      var d := Add(a, b);
      assert d[1..] == Add(a[1..], b[1..]);
      assert d[0] == a[0] + b[0];
      DotAddLeft(a[1..], b[1..], c[1..]);
      DistributeSum(a[0], b[0], c[0]);
    }
  }

  /** The cosine similarity of two unit vectors lies in [-1, 1]. */
  lemma CosineBounds(a: Vector, b: Vector)
    requires |a| == |b| && IsUnit(a) && IsUnit(b)
    ensures -1.0 <= Dot(a, b) <= 1.0
  {
    var d, t := Sub(a, b), Add(a, b);
    DotSymmetric(a, b);
    // |a - b|^2 = 2 - 2 a.b >= 0
    DotSubLeft(a, b, d);
    DotSymmetric(a, d);
    DotSymmetric(b, d);
    DotSubLeft(a, b, a);
    DotSubLeft(a, b, b);
    DotSelfNonNegative(d);
    // |a + b|^2 = 2 + 2 a.b >= 0
    DotAddLeft(a, b, t);
    DotSymmetric(a, t);
    DotSymmetric(b, t);
    DotAddLeft(a, b, a);
    DotAddLeft(a, b, b);
    DotSelfNonNegative(t);
  }
}
