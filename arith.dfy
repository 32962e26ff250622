/** Facts about real arithmetic used by the bound proofs: weighted means of
    values in [lo, hi] stay in [lo, hi]. Each step is its own small lemma so
    that the solver sees few products at a time. */
module Arith {

  lemma MulNonneg(a: real, b: real)
    requires 0.0 <= a && 0.0 <= b
    ensures 0.0 <= a * b
  {
  }

  lemma MulMono(a: real, u: real, v: real)
    requires a >= 0.0 && u <= v
    ensures a * u <= a * v
  {
    assert a * v - a * u == a * (v - u);
  }

  lemma SumLe4(a0: real, a1: real, a2: real, a3: real, b0: real, b1: real, b2: real, b3: real)
    requires a0 <= b0 && a1 <= b1 && a2 <= b2 && a3 <= b3
    ensures a0 + a1 + a2 + a3 <= b0 + b1 + b2 + b3
  {
  }

  lemma Distrib4(f: real, a: real, b: real, c: real, d: real)
    ensures f * (a + b + c + d) == a * f + b * f + c * f + d * f
  {
  }

  lemma Cancel(total: real, v: real)
    requires total > 0.0
    ensures (1.0 / total) * (v * total) == v
  {
  }

  /** A numerator between lo * total and hi * total, divided by a positive
      total, lies in [lo, hi]. */
  lemma MeanWithin(num: real, total: real, lo: real, hi: real)
    requires total > 0.0 && lo * total <= num <= hi * total
    ensures lo <= (1.0 / total) * num <= hi
  {
    var inv := 1.0 / total;
    MulMono(inv, lo * total, num);
    MulMono(inv, num, hi * total);
    Cancel(total, lo);
    Cancel(total, hi);
  }

  lemma WeightedLo(w0: real, w1: real, w2: real, w3: real, v0: real, v1: real, v2: real, v3: real, lo: real)
    requires 0.0 <= w0 && 0.0 <= w1 && 0.0 <= w2 && 0.0 <= w3
    requires lo <= v0 && lo <= v1 && lo <= v2 && lo <= v3
    ensures lo * (w0 + w1 + w2 + w3) <= w0 * v0 + w1 * v1 + w2 * v2 + w3 * v3
  {
    var l0, l1, l2, l3 := w0 * lo, w1 * lo, w2 * lo, w3 * lo;
    var p0, p1, p2, p3 := w0 * v0, w1 * v1, w2 * v2, w3 * v3;
    MulMono(w0, lo, v0);
    assert l0 <= p0;
    MulMono(w1, lo, v1);
    assert l1 <= p1;
    MulMono(w2, lo, v2);
    assert l2 <= p2;
    MulMono(w3, lo, v3);
    assert l3 <= p3;
    SumLe4(l0, l1, l2, l3, p0, p1, p2, p3);
    Distrib4(lo, w0, w1, w2, w3);
  }

  lemma WeightedHi(w0: real, w1: real, w2: real, w3: real, v0: real, v1: real, v2: real, v3: real, hi: real)
    requires 0.0 <= w0 && 0.0 <= w1 && 0.0 <= w2 && 0.0 <= w3
    requires v0 <= hi && v1 <= hi && v2 <= hi && v3 <= hi
    ensures w0 * v0 + w1 * v1 + w2 * v2 + w3 * v3 <= hi * (w0 + w1 + w2 + w3)
  {
    var h0, h1, h2, h3 := w0 * hi, w1 * hi, w2 * hi, w3 * hi;
    var p0, p1, p2, p3 := w0 * v0, w1 * v1, w2 * v2, w3 * v3;
    MulMono(w0, v0, hi);
    assert p0 <= h0;
    MulMono(w1, v1, hi);
    assert p1 <= h1;
    MulMono(w2, v2, hi);
    assert p2 <= h2;
    MulMono(w3, v3, hi);
    assert p3 <= h3;
    SumLe4(p0, p1, p2, p3, h0, h1, h2, h3);
    Distrib4(hi, w0, w1, w2, w3);
  }

  /** Weighted mean of four values, zero when the weights sum to zero or
      less. */
  function Mean4(w0: real, w1: real, w2: real, w3: real, v0: real, v1: real, v2: real, v3: real): real
  {
    var total := w0 + w1 + w2 + w3;
    if total > 0.0 then (1.0 / total) * (w0 * v0 + w1 * v1 + w2 * v2 + w3 * v3) else 0.0
  }

  /** A mean of values in [lo, hi] with non-negative weights lies in
      [lo, hi] (zero included, for the degenerate case). */
  lemma Mean4Bounded(w0: real, w1: real, w2: real, w3: real, v0: real, v1: real, v2: real, v3: real, lo: real, hi: real)
    requires 0.0 <= w0 && 0.0 <= w1 && 0.0 <= w2 && 0.0 <= w3 && lo <= 0.0 <= hi
    requires lo <= v0 <= hi && lo <= v1 <= hi && lo <= v2 <= hi && lo <= v3 <= hi
    ensures lo <= Mean4(w0, w1, w2, w3, v0, v1, v2, v3) <= hi
  {
    if w0 + w1 + w2 + w3 > 0.0 {
      WeightedLo(w0, w1, w2, w3, v0, v1, v2, v3, lo);
      WeightedHi(w0, w1, w2, w3, v0, v1, v2, v3, hi);
      MeanWithin(w0 * v0 + w1 * v1 + w2 * v2 + w3 * v3, w0 + w1 + w2 + w3, lo, hi);
    }
  }

  /** One Jacobi relaxation of the implicit diffusion equation with
      coefficient a: (c + a * (l + r + b + t)) / (1 + 4a). */
  function Relax(a: real, c: real, l: real, r: real, b: real, t: real): real
    requires a >= 0.0
  {
    (1.0 / (1.0 + 4.0 * a)) * (c + a * (l + r + b + t))
  }

  lemma RelaxLo(c: real, sum: real, a: real, lo: real)
    requires a >= 0.0 && lo <= c && 4.0 * lo <= sum
    ensures lo * (1.0 + 4.0 * a) <= c + a * sum
  {
    MulMono(a, 4.0 * lo, sum);
    assert lo * (1.0 + 4.0 * a) == lo + a * (4.0 * lo);
  }

  lemma RelaxHi(c: real, sum: real, a: real, hi: real)
    requires a >= 0.0 && c <= hi && sum <= 4.0 * hi
    ensures c + a * sum <= hi * (1.0 + 4.0 * a)
  {
    MulMono(a, sum, 4.0 * hi);
    assert hi * (1.0 + 4.0 * a) == hi + a * (4.0 * hi);
  }

  /** The relaxation is a weighted mean of the centre (weight 1) and its
      four neighbours (weight a each), so it stays within bounds they share. */
  lemma RelaxBounded(a: real, c: real, l: real, r: real, b: real, t: real, lo: real, hi: real)
    requires a >= 0.0
    requires lo <= c <= hi && lo <= l <= hi && lo <= r <= hi && lo <= b <= hi && lo <= t <= hi
    ensures lo <= Relax(a, c, l, r, b, t) <= hi
  {
    var sum := l + r + b + t;
    RelaxLo(c, sum, a, lo);
    RelaxHi(c, sum, a, hi);
    MeanWithin(c + a * sum, 1.0 + 4.0 * a, lo, hi);
  }

  lemma RelaxStill(c: real, l: real, r: real, b: real, t: real)
    ensures Relax(0.0, c, l, r, b, t) == c
  {
  }

  /** Sum of a sequence of reals: the sum of all but the last element, plus
      the last. */
  function Sum(r: seq<real>): real
  {
    if |r| == 0 then 0.0 else Sum(r[..|r| - 1]) + r[|r| - 1]
  }

  /** A product kept as a function application, so that equal factors give
      equal products by congruence alone. */
  function Mul(a: real, b: real): real { a * b }

  /** Scaling four values by f scales the sum of their squares by f * f. */
  lemma SquaresScale(f: real, x: real, y: real, z: real, w: real)
    ensures Mul(f * x, f * x) + Mul(f * y, f * y) + Mul(f * z, f * z) + Mul(f * w, f * w)
         == Mul(f * f, Mul(x, x) + Mul(y, y) + Mul(z, z) + Mul(w, w))
  {
    Square(f, x); Square(f, y); Square(f, z); Square(f, w);
    Distrib4(f * f, x * x, y * y, z * z, w * w);
  }

  /** A central difference of a linear function spans two units. */
  lemma CentralDifference(a: real, i: real)
    ensures Mul(a, i + 1.0) - Mul(a, i - 1.0) == 2.0 * a
  {
  }

  lemma HalfOfTwice(d: real, x: real, s: real)
    requires d > 0.0 && x == 2.0 * s
    ensures (-0.5 / d) * x == -s / d
  {
  }

  lemma TwiceScaled(d: real, x: real, a: real)
    requires x == 2.0 * a
    ensures -d * x == -(2.0 * Mul(a, d))
  {
  }

  lemma NoDifference(f: real, x: real, y: real)
    requires x == y
    ensures f * (x - y) == 0.0
  {
  }

  /** Every element multiplied by g. */
  function ScaleAll(g: real, r: seq<real>): (q: seq<real>)
    ensures |q| == |r|
  {
    seq(|r|, k requires 0 <= k < |r| => Mul(g, r[k]))
  }

  /** A common factor comes out of a sum. */
  lemma {:induction false} SumScale(g: real, r: seq<real>)
    ensures Sum(ScaleAll(g, r)) == g * Sum(r)
  {
    if |r| > 0 {
      var t := r[..|r| - 1];
      assert ScaleAll(g, r)[..|r| - 1] == ScaleAll(g, t);
      assert Sum(ScaleAll(g, r)) == Sum(ScaleAll(g, t)) + Mul(g, r[|r| - 1]);
      SumScale(g, t);
      ScaledSum(g, Sum(t), r[|r| - 1], Sum(ScaleAll(g, t)), Mul(g, r[|r| - 1]), Sum(r));
    }
  }

  /** Scaling distributes over a sum given as separately scaled parts. */
  lemma ScaledSum(g: real, a: real, b: real, ga: real, gb: real, e: real)
    requires ga == g * a
    requires gb == g * b
    requires e == a + b
    ensures ga + gb == g * e
  {
  }

  lemma Square(f: real, v: real)
    ensures (f * v) * (f * v) == f * f * (v * v)
  {
  }

  lemma Distrib2(f: real, a: real, b: real)
    ensures f * a + f * b == f * (a + b)
  {
  }

  /** Stam's nested bilinear form s0 (t0 a + t1 b) + s1 (t0 c + t1 d), taps
      a = (i0, j0), b = (i0, j1), c = (i1, j0), d = (i1, j1). */
  function Lerp2(s0: real, s1: real, t0: real, t1: real, a: real, b: real, c: real, d: real): real
  {
    s0 * (t0 * a + t1 * b) + s1 * (t0 * c + t1 * d)
  }

  /** A convex combination of two values in [lo, hi] stays in [lo, hi]. */
  lemma LerpBounded(s0: real, s1: real, a: real, b: real, lo: real, hi: real)
    requires 0.0 <= s0 && 0.0 <= s1 && s0 + s1 == 1.0
    requires lo <= a <= hi && lo <= b <= hi
    ensures lo <= s0 * a + s1 * b <= hi
  {
    LerpLo(s0, s1, a, b, lo);
    LerpLo(s0, s1, -a, -b, -hi);
    assert s0 * -a + s1 * -b == -(s0 * a + s1 * b);
  }

  lemma LerpLo(s0: real, s1: real, a: real, b: real, lo: real)
    requires 0.0 <= s0 && 0.0 <= s1 && s0 + s1 == 1.0
    requires lo <= a && lo <= b
    ensures lo <= s0 * a + s1 * b
  {
    var l0, l1 := s0 * lo, s1 * lo;
    MulMono(s0, lo, a);
    assert l0 <= s0 * a;
    MulMono(s1, lo, b);
    assert l1 <= s1 * b;
    assert l0 + l1 == lo;
  }

  lemma Lerp2Bounded(s0: real, s1: real, t0: real, t1: real, a: real, b: real, c: real, d: real, lo: real, hi: real)
    requires 0.0 <= s0 && 0.0 <= s1 && s0 + s1 == 1.0
    requires 0.0 <= t0 && 0.0 <= t1 && t0 + t1 == 1.0
    requires lo <= a <= hi && lo <= b <= hi && lo <= c <= hi && lo <= d <= hi
    ensures lo <= Lerp2(s0, s1, t0, t1, a, b, c, d) <= hi
  {
    LerpBounded(t0, t1, a, b, lo, hi);
    LerpBounded(t0, t1, c, d, lo, hi);
    LerpBounded(s0, s1, t0 * a + t1 * b, t0 * c + t1 * d, lo, hi);
  }

  /** With weights that each sum to one, the product weights s_a t_b sum to
      one, so the weighted mean over them is Stam's nested form. */
  lemma MeanIsLerp2(s0: real, s1: real, t0: real, t1: real, a: real, b: real, c: real, d: real)
    requires s0 + s1 == 1.0 && t0 + t1 == 1.0
    ensures Mean4(s0 * t0, s1 * t0, s0 * t1, s1 * t1, a, c, b, d) == Lerp2(s0, s1, t0, t1, a, b, c, d)
  {
    Distrib2(t0, s0, s1);
    Distrib2(t1, s0, s1);
    assert s0 * t0 + s1 * t0 + s0 * t1 + s1 * t1 == 1.0;
    assert s0 * (t0 * a + t1 * b) == (s0 * t0) * a + (s0 * t1) * b;
    assert s1 * (t0 * c + t1 * d) == (s1 * t0) * c + (s1 * t1) * d;
  }

  /** Damping by a factor in [0, 1] keeps a value inside any [lo, hi] that
      contains 0. */
  lemma DampBounded(f: real, v: real, lo: real, hi: real)
    requires 0.0 <= f <= 1.0 && lo <= 0.0 <= hi && lo <= v <= hi
    ensures lo <= f * v <= hi
  {
    if v >= 0.0 {
      MulMono(v, f, 1.0);
      MulNonneg(f, v);
    } else {
      MulMono(-v, f, 1.0);
    }
  }

  /** Adding a share g in [0, 1] of a non-negative c lands between v and
      v + c. */
  lemma ShareBounded(v: real, g: real, c: real)
    requires 0.0 <= g <= 1.0 && 0.0 <= c
    ensures v <= v + g * c <= v + c
  {
    MulNonneg(g, c);
    MulMono(c, g, 1.0);
  }

  /** `mix(a, b, t)` of WGSL: a (1 - t) + b t. */
  function MixR(a: real, b: real, t: real): real { a * (1.0 - t) + b * t }

  lemma MixSame(a: real, t: real)
    ensures MixR(a, a, t) == a
  {
  }

  /** Dividing by 2h with h = 1 / d is multiplying by d / 2, and the factor
      comes out of the difference of two such quotients. */
  lemma HalfStepQuotient(d: real, p: real, q: real)
    requires d > 0.0
    ensures p / (2.0 * (1.0 / d)) - q / (2.0 * (1.0 / d)) == d * (p * 0.5 - q * 0.5)
  {
    assert 2.0 * (1.0 / d) == 2.0 / d;
    assert p / (2.0 / d) == d * (p * 0.5);
    assert q / (2.0 / d) == d * (q * 0.5);
  }

  /** Two decrements by g1 dt 0.3 and g2 dt 0.3 make one by (g1 + g2) dt 0.3. */
  lemma DecrementsAdd(y: real, g1: real, g2: real, dt: real)
    ensures y - g1 * dt * 0.3 - g2 * dt * 0.3 == y - (g1 + g2) * dt * 0.3
  {
  }

  /** (p - 1) / (n - 1) * m: a position of [1, n] carried to the same
      fraction of the interval between 0 and m, whatever the sign of m. */
  function Rescale(p: real, n: real, m: real): (q: real)
    requires 1.0 <= p <= n && n > 1.0
    ensures m >= 0.0 ==> 0.0 <= q <= m
    ensures m < 0.0 ==> m <= q <= 0.0
    ensures q == 0.0 <==> p == 1.0 || m == 0.0
  {
    UnitFraction(p - 1.0, n - 1.0);
    var f := (p - 1.0) / (n - 1.0);
    assert p == 1.0 <==> f == 0.0;
    if m >= 0.0 then
      MulNonneg(f, m);
      MulMono(m, f, 1.0);
      f * m
    else
      MulNonneg(f, -m);
      MulMono(-m, f, 1.0);
      f * m
  }

  lemma UnitFraction(a: real, b: real)
    requires 0.0 <= a <= b && b > 0.0
    ensures 0.0 <= a / b <= 1.0
  {
  }
}
