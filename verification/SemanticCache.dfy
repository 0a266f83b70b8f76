/**
 The cosine similarity and the bounded cache of internal/gateway/semantic_cache.go, over
 exact reals. The square root is a parameter, known only by its defining property.
 */
module SemanticCache {
  type Vector = seq<real>

  // ---------- similarity ----------

  ghost predicate IsSqrt(sqrt: real -> real) {
    forall x: real :: x >= 0.0 ==> sqrt(x) >= 0.0 && sqrt(x) * sqrt(x) == x
  }

  function Dot(a: Vector, b: Vector): real
    requires |a| == |b|
  {
    if a == [] then 0.0
    else
      var n := |a| - 1;
      Dot(a[..n], b[..n]) + a[n] * b[n]
  }

  function NormSquared(a: Vector): real {
    Dot(a, a)
  }

  // The quotient of a dot product and two norms.
  function Cosine(d: real, s: real, t: real): real {
    if s == 0.0 || t == 0.0 then 0.0
    else
      assert s * t != 0.0;
      d / (s * t)
  }

  function Similarity(sqrt: real -> real, a: Vector, b: Vector): real {
    if |a| != |b| || |a| == 0 then 0.0
    else Cosine(Dot(a, b), sqrt(NormSquared(a)), sqrt(NormSquared(b)))
  }

  lemma DotSnoc(a: Vector, b: Vector, n: nat)
    requires n < |a| == |b|
    ensures Dot(a[..n + 1], b[..n + 1]) == Dot(a[..n], b[..n]) + a[n] * b[n]
  {
    assert a[..n + 1][..n] == a[..n] && b[..n + 1][..n] == b[..n];
  }

  method CosineSimilarity(sqrt: real -> real, a: Vector, b: Vector) returns (r: real)
    ensures r == Similarity(sqrt, a, b)
  {
    if |a| != |b| || |a| == 0 {
      return 0.0;
    }
    var dot, normA, normB := 0.0, 0.0, 0.0;
    for i := 0 to |a|
      invariant dot == Dot(a[..i], b[..i])
      invariant normA == NormSquared(a[..i]) && normB == NormSquared(b[..i])
    {
      DotSnoc(a, b, i);
      DotSnoc(a, a, i);
      DotSnoc(b, b, i);
      var ai, bi := a[i], b[i];
      dot := dot + ai * bi;
      normA := normA + ai * ai;
      normB := normB + bi * bi;
    }
    assert a[..|a|] == a && b[..|b|] == b;
    hide Dot, NormSquared;
    assert Similarity(sqrt, a, b) == Cosine(dot, sqrt(normA), sqrt(normB));
    normA, normB := sqrt(normA), sqrt(normB);
    if normA == 0.0 || normB == 0.0 {
      return 0.0;
    }
    assert normA * normB != 0.0;
    return dot / (normA * normB);
  }

  // ---------- the algebra of the dot product ----------

  function Mix(x: real, u: real, y: real, v: real): real {
    x * u + y * v
  }

  // x*a + y*b
  function Combine(x: real, a: Vector, y: real, b: Vector): (c: Vector)
    requires |a| == |b|
    ensures |c| == |a| && forall i :: 0 <= i < |a| ==> c[i] == Mix(x, a[i], y, b[i])
  {
    seq(|a|, i requires 0 <= i < |a| => Mix(x, a[i], y, b[i]))
  }

  lemma CombineInit(x: real, a: Vector, y: real, b: Vector, n: nat)
    requires n <= |a| == |b|
    ensures Combine(x, a, y, b)[..n] == Combine(x, a[..n], y, b[..n])
  {
    hide Mix;
  }

  lemma {:induction false} DotIsSymmetric(a: Vector, b: Vector)
    requires |a| == |b|
    ensures Dot(a, b) == Dot(b, a)
  {
    if a != [] {
      var n := |a| - 1;
      DotIsSymmetric(a[..n], b[..n]);
      assert a[n] * b[n] == b[n] * a[n];
    }
  }

  lemma DotLast(a: Vector, b: Vector, w: real)
    requires |a| == |b| > 0 && w == a[|a| - 1]
    ensures Dot(a, b) == Dot(a[..|a| - 1], b[..|a| - 1]) + w * b[|a| - 1]
  {
  }

  lemma DotOfNothing(a: Vector, b: Vector)
    requires a == b == []
    ensures Dot(a, b) == 0.0
  {
  }

  lemma MixOfNothing(x: real, y: real)
    ensures Mix(x, 0.0, y, 0.0) == 0.0
  {
  }

  lemma {:induction false} DotOfCombination(x: real, a: Vector, y: real, b: Vector, c: Vector)
    requires |a| == |b| == |c|
    ensures Dot(Combine(x, a, y, b), c) == Mix(x, Dot(a, c), y, Dot(b, c))
  {
    hide *;
    if a == [] {
      MixOfNothing(x, y);
      DotOfNothing(Combine(x, a, y, b), c);
      DotOfNothing(a, c);
      DotOfNothing(b, c);
    } else {
      var n := |a| - 1;
      DotOfCombination(x, a[..n], y, b[..n], c[..n]);
      CombineInit(x, a, y, b, n);
      DotLast(a, c, a[n]);
      DotLast(b, c, b[n]);
      DotLast(Combine(x, a, y, b), c, Mix(x, a[n], y, b[n]));
      Distribute(x, Dot(a[..n], c[..n]), a[n], Dot(a, c), y, Dot(b[..n], c[..n]), b[n], Dot(b, c), c[n]);
    }
  }

  lemma Distribute(x: real, p: real, u: real, e: real, y: real, q: real, v: real, f: real, w: real)
    requires e == p + u * w && f == q + v * w
    ensures Mix(x, p, y, q) + Mix(x, u, y, v) * w == Mix(x, e, y, f)
  {
    assert (x * u + y * v) * w == x * (u * w) + y * (v * w);
  }

  lemma {:induction false} NormIsNotNegative(a: Vector)
    ensures NormSquared(a) >= 0.0
  {
    if a != [] {
      var n := |a| - 1;
      NormIsNotNegative(a[..n]);
      assert a[n] * a[n] >= 0.0;
    }
  }

  predicate IsZero(a: Vector) {
    forall i :: 0 <= i < |a| ==> a[i] == 0.0
  }

  lemma {:induction false} NormIsZeroIffVectorIs(a: Vector)
    ensures NormSquared(a) == 0.0 <==> IsZero(a)
  {
    if a != [] {
      var n := |a| - 1;
      NormIsZeroIffVectorIs(a[..n]);
      NormIsNotNegative(a[..n]);
      SquareIsPositive(a[n], NormSquared(a) - NormSquared(a[..n]));
      assert IsZero(a) <==> IsZero(a[..n]) && a[n] == 0.0 by {
        assert forall i :: 0 <= i < n ==> a[i] == a[..n][i];
      }
    }
  }

  lemma SquareIsPositive(x: real, q: real)
    requires q == x * x
    ensures q >= 0.0
    ensures q == 0.0 <==> x == 0.0
  {
    if x < 0.0 {
      ProductIsPositive(-x, -x, q);
    } else if x > 0.0 {
      ProductIsPositive(x, x, q);
    }
  }

  lemma ProductIsPositive(u: real, v: real, q: real)
    requires u > 0.0 && v > 0.0 && q == u * v
    ensures q > 0.0
  {
  }

  // The squared norm of x*a + y*b, from those of a and b and their dot product.
  function MixedNorm(x: real, y: real, p: real, d: real, q: real): real {
    x * x * p + 2.0 * x * y * d + y * y * q
  }

  lemma NormOfCombination(x: real, a: Vector, y: real, b: Vector)
    requires |a| == |b|
    ensures NormSquared(Combine(x, a, y, b)) == MixedNorm(x, y, NormSquared(a), Dot(a, b), NormSquared(b))
  {
    hide *;
    var c := Combine(x, a, y, b);
    DotOfCombination(x, a, y, b, c);
    DotIsSymmetric(a, c);
    DotIsSymmetric(b, c);
    DotOfCombination(x, a, y, b, a);
    DotOfCombination(x, a, y, b, b);
    DotIsSymmetric(a, b);
    NormIsDot(a);
    NormIsDot(b);
    NormIsDot(c);
    Expand(x, y, Dot(a, a), Dot(a, b), Dot(b, b));
  }

  lemma NormIsDot(a: Vector)
    ensures NormSquared(a) == Dot(a, a)
  {
  }

  lemma Expand(x: real, y: real, p: real, d: real, q: real)
    ensures Mix(x, Mix(x, p, y, d), y, Mix(x, d, y, q)) == MixedNorm(x, y, p, d, q)
  {
    var m, k := y * d, x * d;
    assert x * (x * p + m) == x * (x * p) + x * m;
    assert y * (k + y * q) == y * k + y * (y * q);
    assert x * m == x * y * d;
    assert y * k == x * y * d;
    assert x * (x * p) == x * x * p;
    assert y * (y * q) == y * y * q;
  }

  lemma CauchySchwarz(a: Vector, b: Vector)
    requires |a| == |b|
    ensures Dot(a, b) * Dot(a, b) <= NormSquared(a) * NormSquared(b)
  {
    var p, d, q := NormSquared(a), Dot(a, b), NormSquared(b);
    NormOfCombination(q, a, -d, b);
    NormIsNotNegative(Combine(q, a, -d, b));
    NormIsNotNegative(b);
    if q == 0.0 {
      NormIsZeroIffVectorIs(b);
      DotWithZero(a, b);
    } else {
      hide *;
      DivideOut(p, d, q);
    }
  }

  lemma SignOfProduct(u: real, v: real)
    requires u > 0.0
    ensures u * v >= 0.0 <==> v >= 0.0
    ensures u * v == 0.0 <==> v == 0.0
  {
  }

  lemma DivideOut(p: real, d: real, q: real)
    requires q > 0.0
    requires MixedNorm(q, -d, p, d, q) >= 0.0
    ensures d * d <= p * q
  {
    assert q * q * p + 2.0 * q * (-d) * d + (-d) * (-d) * q == q * (p * q - d * d);
    SignOfProduct(q, p * q - d * d);
  }

  lemma {:induction false} DotWithZero(a: Vector, b: Vector)
    requires |a| == |b| && IsZero(b)
    ensures Dot(a, b) == 0.0
  {
    if a != [] {
      DotWithZero(a[..|a| - 1], b[..|a| - 1]);
    }
  }

  // ---------- what the similarity means ----------

  // Both norms, in the case in which the code divides by them.
  lemma Norms(sqrt: real -> real, a: Vector) returns (s: real)
    requires IsSqrt(sqrt)
    ensures s == sqrt(NormSquared(a)) && s >= 0.0 && s * s == NormSquared(a)
    ensures s == 0.0 <==> IsZero(a)
  {
    NormIsNotNegative(a);
    NormIsZeroIffVectorIs(a);
    s := sqrt(NormSquared(a));
    SquareIsPositive(s, NormSquared(a));
  }

  lemma SquareGrows(u: real, v: real)
    requires u >= 0.0
    ensures u < v ==> u * u < v * v
  {
    if u < v {
      var w := v - u;
      assert v * v == (u + w) * (u + w) == u * u + 2.0 * (u * w) + w * w;
      assert u * w >= 0.0 && w * w > 0.0;
    }
  }

  lemma SquaresOrder(u: real, v: real)
    requires u >= 0.0 && v * v <= u * u
    ensures -u <= v <= u
  {
    SquareGrows(u, v);
    SquareGrows(u, -v);
    assert (-v) * (-v) == v * v;
  }

  lemma QuotientOrder(d: real, u: real)
    requires u > 0.0
    ensures -u <= d <= u ==> -1.0 <= d / u <= 1.0
    ensures d / u == 1.0 <==> d == u
  {
    var r := d / u;
    assert r * u == d;
    if -u <= d <= u {
      SignOfProduct(u, 1.0 - r);
      SignOfProduct(u, r + 1.0);
      assert u * (1.0 - r) == u - d && u * (r + 1.0) == d + u;
    }
  }

  lemma SameProduct(u: real, v: real, x: real, y: real)
    requires u == v && x == y
    ensures u * x == v * y
  {
  }

  lemma SquareOfProduct(s: real, t: real)
    requires s >= 0.0 && t >= 0.0
    ensures (s * t) * (s * t) == (s * s) * (t * t)
    ensures s * t >= 0.0
    ensures s * t == 0.0 <==> s == 0.0 || t == 0.0
  {
  }

  lemma BoundByRoots(d: real, p: real, q: real, s: real, t: real)
    requires d * d <= p * q && s * s == p && t * t == q && s >= 0.0 && t >= 0.0
    ensures -1.0 <= Cosine(d, s, t) <= 1.0
  {
    SquareOfProduct(s, t);
    SameProduct(s * s, p, t * t, q);
    SquaresOrder(s * t, d);
    if s != 0.0 && t != 0.0 {
      QuotientOrder(d, s * t);
    }
  }

  /** The similarity lies in [-1, 1]. */
  lemma SimilarityIsBounded(sqrt: real -> real, a: Vector, b: Vector)
    requires IsSqrt(sqrt)
    ensures -1.0 <= Similarity(sqrt, a, b) <= 1.0
  {
    hide Cosine;
    if |a| == |b| && |a| > 0 {
      var s := Norms(sqrt, a);
      var t := Norms(sqrt, b);
      CauchySchwarz(a, b);
      BoundByRoots(Dot(a, b), NormSquared(a), NormSquared(b), s, t);
    }
  }

  lemma CosineIsSymmetric(d: real, s: real, t: real)
    ensures Cosine(d, s, t) == Cosine(d, t, s)
  {
    assert s * t == t * s;
  }

  lemma SimilarityIsSymmetric(sqrt: real -> real, a: Vector, b: Vector)
    ensures Similarity(sqrt, a, b) == Similarity(sqrt, b, a)
  {
    hide Cosine;
    if |a| == |b| {
      DotIsSymmetric(a, b);
      CosineIsSymmetric(Dot(a, b), sqrt(NormSquared(a)), sqrt(NormSquared(b)));
    }
  }

  function Scale(c: real, a: Vector): (r: Vector)
    ensures |r| == |a| && forall i :: 0 <= i < |a| ==> r[i] == c * a[i]
  {
    seq(|a|, i requires 0 <= i < |a| => c * a[i])
  }

  lemma DotOfScaled(c: real, a: Vector, b: Vector)
    requires |a| == |b|
    ensures Dot(Scale(c, a), b) == c * Dot(a, b)
    ensures NormSquared(Scale(c, a)) == c * c * NormSquared(a)
  {
    hide Dot;
    ScaleIsCombination(c, a);
    DotOfCombination(c, a, 0.0, a, b);
    NormOfCombination(c, a, 0.0, a);
  }

  lemma ScaleIsCombination(c: real, a: Vector)
    ensures Scale(c, a) == Combine(c, a, 0.0, a)
  {
  }

  /** Stretching either vector does not change the similarity. */
  lemma SimilarityIgnoresLength(sqrt: real -> real, c: real, a: Vector, b: Vector)
    requires IsSqrt(sqrt) && c > 0.0
    ensures Similarity(sqrt, Scale(c, a), b) == Similarity(sqrt, a, b) == Similarity(sqrt, a, Scale(c, b))
  {
    StretchFirst(sqrt, c, a, b);
    StretchFirst(sqrt, c, b, a);
    SimilarityIsSymmetric(sqrt, a, b);
    SimilarityIsSymmetric(sqrt, a, Scale(c, b));
  }

  lemma StretchFirst(sqrt: real -> real, c: real, a: Vector, b: Vector)
    requires IsSqrt(sqrt) && c > 0.0
    ensures Similarity(sqrt, Scale(c, a), b) == Similarity(sqrt, a, b)
  {
    hide Cosine, Scale, Dot, IsZero;
    if |a| == |b| && |a| > 0 {
      DotOfScaled(c, a, b);
      var s := Norms(sqrt, a);
      var r := Norms(sqrt, Scale(c, a));
      var t := Norms(sqrt, b);
      ScaledRoot(c, NormSquared(a), s, r);
      CancelScale(c, Dot(a, b), s, t, Dot(Scale(c, a), b), r);
    }
  }

  lemma ScaledRoot(c: real, p: real, s: real, r: real)
    requires c > 0.0 && s >= 0.0 && r >= 0.0 && s * s == p && r * r == c * c * p
    ensures r == c * s && (r == 0.0 <==> s == 0.0)
  {
    var u := c * s;
    SquareOfProduct(c, s);
    SameProduct(c * c, c * c, s * s, p);
    assert u * u == r * r;
    SquaresOrder(u, r);
    SquaresOrder(r, u);
  }

  lemma CancelScale(c: real, d: real, s: real, t: real, e: real, r: real)
    requires c > 0.0 && s >= 0.0 && t >= 0.0 && e == c * d && r == c * s
    ensures Cosine(e, r, t) == Cosine(d, s, t)
  {
    SquareOfProduct(c, s);
    if s != 0.0 && t != 0.0 {
      SquareOfProduct(s, t);
      var u := s * t;
      var q := d / u;
      assert q * u == d;
      SignOfProduct(c, u);
      assert r * t == c * u;
      assert q * (c * u) == c * (q * u) == e;
      QuotientIs(e, c * u, q);
    }
  }

  lemma QuotientIs(e: real, m: real, q: real)
    requires m > 0.0 && q * m == e
    ensures e / m == q
  {
  }

  lemma CosineIsOneIffParallel(a: Vector, b: Vector, s: real, t: real)
    requires |a| == |b| && s > 0.0 && t > 0.0
    requires s * s == NormSquared(a) && t * t == NormSquared(b)
    ensures Cosine(Dot(a, b), s, t) == 1.0 <==> Scale(t, a) == Scale(s, b)
  {
    hide *;
    NormOfCombination(t, a, -s, b);
    NormIsZeroIffVectorIs(Combine(t, a, -s, b));
    GapIsZero(t, a, s, b);
    CosineIsOne(s, t, Dot(a, b), NormSquared(a), NormSquared(b));
  }

  /** The similarity is 1 exactly when neither vector is zero and they point the same way:
      the unit vectors agree. */
  lemma SimilarityIsOneIffParallel(sqrt: real -> real, a: Vector, b: Vector)
    requires IsSqrt(sqrt) && |a| == |b|
    ensures Similarity(sqrt, a, b) == 1.0 <==>
      !IsZero(a) && !IsZero(b) && Scale(sqrt(NormSquared(b)), a) == Scale(sqrt(NormSquared(a)), b)
  {
    var s := Norms(sqrt, a);
    var t := Norms(sqrt, b);
    assert |a| == 0 ==> IsZero(a);
    hide IsZero, Scale, Dot, NormSquared, IsSqrt, Cosine;
    CosineIsZero(Dot(a, b), s, t);
    if !IsZero(a) && !IsZero(b) {
      CosineIsOneIffParallel(a, b, s, t);
    }
  }

  lemma GapIsZero(t: real, a: Vector, s: real, b: Vector)
    requires |a| == |b|
    ensures IsZero(Combine(t, a, -s, b)) <==> Scale(t, a) == Scale(s, b)
  {
    var gap := Combine(t, a, -s, b);
    if IsZero(gap) {
      assert forall i :: 0 <= i < |a| ==> gap[i] == 0.0;
    } else {
      var i :| 0 <= i < |a| && gap[i] != 0.0;
      assert Scale(t, a)[i] != Scale(s, b)[i];
    }
  }

  lemma CosineIsZero(d: real, s: real, t: real)
    ensures s == 0.0 || t == 0.0 ==> Cosine(d, s, t) == 0.0
  {
  }

  // The cosine is 1 exactly when the squared norm of t*a - s*b is 0.
  lemma CosineIsOne(s: real, t: real, d: real, p: real, q: real)
    requires s > 0.0 && t > 0.0 && s * s == p && t * t == q
    ensures Cosine(d, s, t) == 1.0 <==> MixedNorm(t, -s, p, d, q) == 0.0
  {
    SquareOfProduct(s, t);
    var u := s * t;
    QuotientOrder(d, u);
    SignOfProduct(2.0 * u, u - d);
    assert t * t * p == u * u by {
      SameProduct(s * s, p, t * t, t * t);
    }
    assert (-s) * (-s) * q == u * u by {
      SameProduct((-s) * (-s), s * s, q, t * t);
    }
    assert 2.0 * t * (-s) * d == -2.0 * u * d;
    assert 2.0 * u * (u - d) == u * u + -2.0 * u * d + u * u;
  }

  lemma SelfSimilarityIsOne(sqrt: real -> real, a: Vector)
    requires IsSqrt(sqrt) && !IsZero(a)
    ensures Similarity(sqrt, a, a) == 1.0
  {
    SimilarityIsOneIffParallel(sqrt, a, a);
  }

  /** The dot product adds up over the parts of the vectors, wherever they are split. */
  lemma {:induction false} DotOfConcat(a: Vector, b: Vector, c: Vector, d: Vector)
    requires |a| == |c| && |b| == |d|
    ensures Dot(a + b, c + d) == Dot(a, c) + Dot(b, d)
    ensures |b| == 1 ==> Dot(b, d) == b[0] * d[0]
  {
    if b == [] {
      assert a + b == a && c + d == c;
    } else {
      var n := |b| - 1;
      assert (a + b)[..|a| + n] == a + b[..n] && (c + d)[..|a| + n] == c + d[..n];
      DotOfConcat(a, b[..n], c, d[..n]);
    }
  }

  // What a cosine is, without roots: this and the sign determine it.
  ghost predicate IsCosine(r: real, d: real, p: real, q: real) {
    r * r * (p * q) == d * d && (r > 0.0 <==> d > 0.0) && (r < 0.0 <==> d < 0.0)
  }

  /** The similarity of vectors of one length is the cosine of their angle: its square times both
      squared norms is the squared dot product, and it has the sign of the dot product. */
  lemma SimilarityIsCosine(sqrt: real -> real, a: Vector, b: Vector)
    requires IsSqrt(sqrt) && |a| == |b|
    ensures var r := Similarity(sqrt, a, b);
      && r * r * (NormSquared(a) * NormSquared(b)) == Dot(a, b) * Dot(a, b)
      && (r > 0.0 <==> Dot(a, b) > 0.0) && (r < 0.0 <==> Dot(a, b) < 0.0)
  {
    MeetsCosine(sqrt, a, b);
    hide Similarity, Dot, NormSquared, IsSqrt;
  }

  lemma MeetsCosine(sqrt: real -> real, a: Vector, b: Vector)
    requires IsSqrt(sqrt) && |a| == |b|
    ensures IsCosine(Similarity(sqrt, a, b), Dot(a, b), NormSquared(a), NormSquared(b))
  {
    var s := Norms(sqrt, a);
    var t := Norms(sqrt, b);
    CauchySchwarz(a, b);
    DotOfNothingIsZero(a, b);
    hide Dot, NormSquared, IsSqrt, IsZero, IsCosine, Cosine;
    CosineOfNothing();
    CosineOfRoots(Dot(a, b), NormSquared(a), NormSquared(b), s, t);
  }

  lemma DotOfNothingIsZero(a: Vector, b: Vector)
    requires |a| == |b|
    ensures a == [] ==> Dot(a, b) == NormSquared(a) == NormSquared(b) == 0.0
  {
  }

  lemma CosineOfNothing()
    ensures IsCosine(0.0, 0.0, 0.0, 0.0)
  {
  }

  lemma CosineOfRoots(d: real, p: real, q: real, s: real, t: real)
    requires s >= 0.0 && t >= 0.0 && s * s == p && t * t == q && d * d <= p * q
    ensures IsCosine(Cosine(d, s, t), d, p, q)
  {
    var u, r := s * t, Cosine(d, s, t);
    SquareOfProduct(s, t);
    SameProduct(s * s, p, t * t, q);
    if s == 0.0 || t == 0.0 {
      CosineIsZero(d, s, t);
      SquareIsPositive(d, d * d);
    } else {
      QuotientTimes(d, s, t, r);
      hide Cosine;
      SquareOfQuotient(r, u, d);
      SameProduct(r * r, r * r, u * u, p * q);
      SignOfProduct(u, r);
      SignOfProduct(u, -r);
    }
  }

  lemma SquareOfQuotient(r: real, u: real, d: real)
    requires r * u == d
    ensures r * r * (u * u) == d * d && u * r == d && u * -r == -d
  {
    assert r * r * (u * u) == (r * u) * (r * u);
    SameProduct(r * u, d, r * u, d);
  }

  lemma QuotientTimes(d: real, s: real, t: real, r: real)
    requires r == Cosine(d, s, t) && s != 0.0 && t != 0.0
    ensures r * (s * t) == d
  {
    assert s * t != 0.0;
  }

  /** 7 and 24 are the legs of a right triangle with hypotenuse 25. */
  lemma SimilarityExample(sqrt: real -> real)
    requires IsSqrt(sqrt)
    ensures Similarity(sqrt, [1.0, 0.0], [24.0, 7.0]) == 0.96
  {
    var a, b := [1.0, 0.0], [24.0, 7.0];
    DotOfPair(1.0, 0.0, 24.0, 7.0);
    DotOfPair(1.0, 0.0, 1.0, 0.0);
    DotOfPair(24.0, 7.0, 24.0, 7.0);
    SimilarityIsCosine(sqrt, a, b);
    hide Similarity, Dot, IsSqrt;
    var r := Similarity(sqrt, a, b);
    SameSquare(r, 0.96);
  }

  lemma DotOfPair(u: real, v: real, x: real, y: real)
    ensures Dot([u, v], [x, y]) == u * x + v * y
  {
    assert [u, v] == [u] + [v] && [x, y] == [x] + [y];
    DotOfConcat([u], [v], [x], [y]);
    DotOfConcat([], [u], [], [x]);
  }

  lemma SameSquare(u: real, v: real)
    requires u > 0.0 && v > 0.0 && u * u == v * v
    ensures u == v
  {
    SquareGrows(u, v);
    SquareGrows(v, u);
  }

  // The angle is acute and its squared cosine at least the squared threshold.
  ghost predicate Reaches(d: real, p: real, q: real, threshold: real) {
    d > 0.0 && threshold * threshold * (p * q) <= d * d
  }

  lemma DifferentLengths(sqrt: real -> real, a: Vector, b: Vector)
    requires |a| != |b|
    ensures Similarity(sqrt, a, b) == 0.0
  {
  }

  lemma SimilarityReaches(sqrt: real -> real, a: Vector, b: Vector, threshold: real)
    requires IsSqrt(sqrt) && threshold > 0.0
    ensures Similarity(sqrt, a, b) >= threshold <==>
      |a| == |b| && Reaches(Dot(a, b), NormSquared(a), NormSquared(b), threshold)
  {
    hide *;
    if |a| == |b| {
      MeetsCosine(sqrt, a, b);
      CauchySchwarz(a, b);
      NormIsNotNegative(a);
      NormIsNotNegative(b);
      CosineReaches(Similarity(sqrt, a, b), Dot(a, b), NormSquared(a), NormSquared(b), threshold);
    } else {
      DifferentLengths(sqrt, a, b);
    }
  }

  /** At a positive threshold exactly the vectors of the same length, at an acute angle whose squared
      cosine is at least the squared threshold, are similar enough. */
  lemma AboveThreshold(sqrt: real -> real, a: Vector, b: Vector, threshold: real)
    requires IsSqrt(sqrt) && threshold > 0.0
    ensures Similarity(sqrt, a, b) >= threshold <==>
      && |a| == |b| && Dot(a, b) > 0.0
      && threshold * threshold * (NormSquared(a) * NormSquared(b)) <= Dot(a, b) * Dot(a, b)
  {
    hide *;
    SimilarityReaches(sqrt, a, b, threshold);
    if |a| == |b| {
      ReachesMeans(Dot(a, b), NormSquared(a), NormSquared(b), threshold);
    }
  }

  lemma ReachesMeans(d: real, p: real, q: real, threshold: real)
    ensures Reaches(d, p, q, threshold) <==> d > 0.0 && threshold * threshold * (p * q) <= d * d
  {
  }

  lemma CosineReaches(r: real, d: real, p: real, q: real, threshold: real)
    requires IsCosine(r, d, p, q) && p >= 0.0 && q >= 0.0 && d * d <= p * q && threshold > 0.0
    ensures r >= threshold <==> Reaches(d, p, q, threshold)
  {
    if d > 0.0 {
      ProductIsPositive(d, d, d * d);
      SquaresCompare(threshold, r);
      ScaleCompare(threshold * threshold, r * r, p * q);
    }
  }

  lemma SquaresCompare(u: real, v: real)
    requires u > 0.0 && v > 0.0
    ensures u <= v <==> u * u <= v * v
  {
    SquareGrows(u, v);
    SquareGrows(v, u);
  }

  lemma ScaleCompare(x: real, y: real, c: real)
    requires c > 0.0
    ensures x <= y <==> x * c <= y * c
  {
    SignOfProduct(c, y - x);
    assert c * (y - x) == y * c - x * c;
  }

  // ---------- the cache ----------

  datatype Entry = Entry(embedding: Vector, response: string)

  // The last n elements, or all of them.
  function Last<T>(s: seq<T>, n: nat): seq<T> {
    if |s| <= n then s else s[|s| - n..]
  }

  ghost predicate Matches(sqrt: real -> real, query: Vector, threshold: real, e: Entry) {
    Similarity(sqrt, query, e.embedding) >= threshold
  }

  class SemanticCache {
    var entries: seq<Entry>
    const maxSize: int
    // Every pair stored so far, oldest first.
    ghost var log: seq<Entry>

    ghost predicate Valid()
      reads this
    {
      && maxSize >= 0
      && entries == Last(log, maxSize)
    }

    // Allocating with a negative capacity panics.
    constructor (maxSize: int)
      requires maxSize >= 0
      ensures Valid() && log == [] && this.maxSize == maxSize
    {
      this.entries, this.maxSize, this.log := [], maxSize, [];
    }

    /** After any run the entries are exactly the last maxSize stores in order. Storing panics,
        leaving everything as it was, exactly when maxSize is 0: there is no oldest entry to drop. */
    method Store(embedding: Vector, response: string) returns (panicked: bool)
      requires Valid()
      modifies this
      ensures Valid()
      ensures panicked <==> maxSize == 0
      ensures log == old(log) + if panicked then [] else [Entry(embedding, response)]
    {
      var kept := entries;
      if |kept| >= maxSize {
        if kept == [] {
          assert log + [] == log;
          return true;
        }
        kept := kept[1..];
      }
      entries := kept + [Entry(embedding, response)];
      log := log + [Entry(embedding, response)];
      return false;
    }

    /** The response of the oldest entry that is similar enough. */
    method Lookup(sqrt: real -> real, embedding: Vector, threshold: real)
      returns (response: string, hit: bool, ghost at: nat)
      requires Valid()
      ensures hit <==> exists e :: e in entries && Matches(sqrt, embedding, threshold, e)
      ensures hit ==> at < |entries| && Matches(sqrt, embedding, threshold, entries[at])
      ensures hit ==> response == entries[at].response
      ensures hit ==> forall i :: 0 <= i < at ==> !Matches(sqrt, embedding, threshold, entries[i])
      ensures !hit ==> response == ""
    {
      for i := 0 to |entries|
        invariant forall k :: 0 <= k < i ==> !Matches(sqrt, embedding, threshold, entries[k])
      {
        var similarity := CosineSimilarity(sqrt, embedding, entries[i].embedding);
        if similarity >= threshold {
          assert Matches(sqrt, embedding, threshold, entries[i]);
          return entries[i].response, true, i;
        }
      }
      return "", false, 0;
    }

    method Len() returns (n: nat)
      requires Valid()
      ensures n == if |log| <= maxSize then |log| else maxSize
    {
      return |entries|;
    }
  }

  /** The order is kept: the i-th entry from the end is the i-th store from the end. */
  lemma EntriesAreInOrder(log: seq<Entry>, maxSize: nat, i: nat)
    requires 1 <= i <= |Last(log, maxSize)|
    ensures i <= |log| && Last(log, maxSize)[|Last(log, maxSize)| - i] == log[|log| - i]
    ensures |Last(log, maxSize)| == if |log| <= maxSize then |log| else maxSize
  {
  }

  /** A stored nonzero embedding that fewer than maxSize later stores followed is found again at
      every threshold up to 1. */
  lemma StoredIsFound(sqrt: real -> real, log: seq<Entry>, maxSize: nat, k: nat, threshold: real)
    requires IsSqrt(sqrt) && threshold <= 1.0
    requires k < |log| && |log| - k <= maxSize && !IsZero(log[k].embedding)
    ensures log[k] in Last(log, maxSize)
    ensures Matches(sqrt, log[k].embedding, threshold, log[k])
  {
    SelfSimilarityIsOne(sqrt, log[k].embedding);
    var kept := Last(log, maxSize);
    assert kept[k - (|log| - |kept|)] == log[k];
  }
}
