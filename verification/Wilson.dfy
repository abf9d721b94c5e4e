/**
  The Wilson lower bound over exact reals. A square root is a parameter: the non-negative
  number whose square is the radicand.
 */
module Wilson {
  const WILSON_Z: real := 1.96
  const Z2: real := WILSON_Z * WILSON_Z

  predicate IsRoot(s: real, x: real) { s >= 0.0 && s * s == x }

  function Share(ok: int, total: int): real
    requires total > 0
  {
    ok as real / total as real
  }

  /** The variance of the share. */
  function Spread(p: real, n: real): real
    requires n != 0.0
  {
    p * (1.0 - p) / n
  }

  function Tail(n: real): real
    requires n != 0.0
  {
    NonZeroSquare(n);
    Z2 / (4.0 * n * n)
  }

  lemma NonZeroSquare(n: real)
    requires n != 0.0
    ensures 4.0 * n * n != 0.0
  {
  }

  /** What `wilson_lower` takes the square root of. */
  function Radicand(ok: int, total: int): real
    requires total > 0
  {
    var p, n := Share(ok, total), total as real;
    Spread(p, n) + Tail(n)
  }

  /** The bound before it is clamped at zero. */
  function Unclamped(ok: int, total: int, root: real): real
    requires total > 0
  {
    var p, n := Share(ok, total), total as real;
    var denom := 1.0 + Z2 / n;
    (p + Z2 / (2.0 * n)) / denom - WILSON_Z * root / denom
  }

  function Max(a: real, b: real): real { if a >= b then a else b }

  /** `wilson_lower`. */
  function WilsonLower(ok: int, total: int, root: real): real {
    if total <= 0 then 0.0 else Max(0.0, Unclamped(ok, total, root))
  }

  /** A sample, and the root of its radicand. */
  predicate Sample(ok: int, total: int, root: real) {
    0 <= ok <= total && total > 0 && IsRoot(root, Radicand(ok, total))
  }

  // ----- Small facts of real arithmetic -----

  lemma MulLe(a: real, b: real, c: real)
    requires a <= b && c >= 0.0
    ensures a * c <= b * c
  {
  }

  lemma ProductNonNegative(a: real, b: real)
    requires a >= 0.0 && b >= 0.0
    ensures a * b >= 0.0
  {
  }

  lemma MulLt(a: real, b: real, c: real)
    requires a < b && c > 0.0
    ensures a * c < b * c
  {
  }

  lemma Cancel(a: real, b: real, c: real)
    requires c > 0.0 && a * c <= b * c
    ensures a <= b
  {
    if a > b { MulLt(b, a, c); }
  }

  lemma SquareLt(a: real, b: real)
    requires 0.0 <= a < b
    ensures a * a < b * b
  {
    MulLt(0.0, b - a, b + a);
    assert (b - a) * (b + a) == b * b - a * a;
  }

  lemma SquareLe(a: real, b: real)
    requires 0.0 <= a && 0.0 <= b
    ensures a <= b <==> a * a <= b * b
  {
    if a < b { SquareLt(a, b); }
    if b < a { SquareLt(b, a); }
  }

  lemma SquareNonNegative(a: real)
    ensures a * a >= 0.0
  {
    if a >= 0.0 { MulLe(0.0, a, a); } else { MulLe(0.0, 0.0 - a, 0.0 - a); }
  }

  /** Dividing `n * u^2 >= k * a * b` by `u <= b`. */
  lemma Halve(n: real, u: real, k: real, a: real, b: real)
    requires n > 0.0 && 0.0 <= u <= b && b > 0.0 && n * (u * u) >= k * (a * b)
    ensures n * u >= k * a
  {
    MulLe(u, b, n * u);
    assert n * (u * u) == u * (n * u) && k * (a * b) == k * a * b;
    Cancel(k * a, n * u, b);
  }

  lemma RootUnique(s: real, t: real, x: real)
    requires IsRoot(s, x) && IsRoot(t, x)
    ensures s == t
  {
    SquareLe(s, t);
    SquareLe(t, s);
  }

  // ----- The bound without its fractions: n the sample size, p the share, r the scaled root -----

  /** `n` times the root, freed of the denominators. */
  predicate Scaled(n: real, p: real, r: real) {
    n > 0.0 && 0.0 <= p <= 1.0 && r >= 0.0 && r * r == n * (p * (1.0 - p)) + Z2 / 4.0
  }

  /** `w` is the unclamped bound. */
  predicate Bound(n: real, p: real, r: real, w: real) {
    w * (n + Z2) == n * p + Z2 / 2.0 - WILSON_Z * r
  }

  lemma DivMul(a: real, b: real)
    requires b != 0.0
    ensures a / b * b == a
  {
  }

  lemma ShareIn(ok: int, total: int)
    requires 0 <= ok <= total && total > 0
    ensures 0.0 <= Share(ok, total) <= 1.0
  {
    var p, n := Share(ok, total), total as real;
    DivMul(ok as real, n);
    if p < 0.0 { MulLt(p, 0.0, n); }
    if p > 1.0 { MulLt(1.0, p, n); }
  }

  lemma Expand(n: real, a: real, b: real, x: real, root: real)
    requires n > 0.0 && x == a / n + b / (4.0 * n * n) && root * root == x
    ensures (n * root) * (n * root) == n * a + b / 4.0
  {
    var q := a / n;
    DivMul(a, n);
    var m := 4.0 * n * n;
    SquareLt(0.0, n);
    assert m == 4.0 * (n * n);
    var c := b / m;
    DivMul(b, m);
    assert (n * root) * (n * root) == n * n * (root * root);
    assert n * n * (q + c) == n * (q * n) + (n * n) * c;
    assert (n * n) * c == c * m / 4.0;
  }

  lemma ScaledSample(ok: int, total: int, root: real)
    requires Sample(ok, total, root)
    ensures Scaled(total as real, Share(ok, total), total as real * root)
  {
    var n, p := total as real, Share(ok, total);
    ShareIn(ok, total);
    Expand(n, p * (1.0 - p), Z2, Radicand(ok, total), root);
    assert n * root >= 0.0;
  }

  lemma OneDenominator(n: real, p: real, root: real, w: real)
    requires n > 0.0 && 1.0 + Z2 / n != 0.0
    requires w == (p + Z2 / (2.0 * n)) / (1.0 + Z2 / n) - WILSON_Z * root / (1.0 + Z2 / n)
    ensures w * (n + Z2) == n * p + Z2 / 2.0 - WILSON_Z * (n * root)
  {
    var q := Z2 / n;
    DivMul(Z2, n);
    var h := Z2 / (2.0 * n);
    DivMul(Z2, 2.0 * n);
    assert h * n == Z2 / 2.0;
    var d := 1.0 + q;
    var c, e := (p + h) / d, WILSON_Z * root / d;
    DivMul(p + h, d);
    DivMul(WILSON_Z * root, d);
    assert n + Z2 == d * n;
    assert w * (n + Z2) == (c * d) * n - (e * d) * n;
    assert (p + h) * n == n * p + h * n;
  }

  lemma QuotientPositive(a: real, n: real)
    requires a > 0.0 && n > 0.0
    ensures a / n > 0.0
  {
    DivMul(a, n);
    if a / n <= 0.0 { MulLe(a / n, 0.0, n); }
  }

  lemma BoundSample(ok: int, total: int, root: real)
    requires Sample(ok, total, root)
    ensures Bound(total as real, Share(ok, total), total as real * root, Unclamped(ok, total, root))
  {
    QuotientPositive(Z2, total as real);
    hide Radicand, Share, IsRoot;
    OneDenominator(total as real, Share(ok, total), root, Unclamped(ok, total, root));
  }

  /** How far `a` is from the bound, before the root is taken off. */
  function Slack(n: real, p: real, a: real): real {
    n * (p - a) + Z2 * (0.5 - a)
  }

  /** Zero at the two roots of the quadratic. */
  function Gap(n: real, p: real, a: real): real {
    n * ((p - a) * (p - a)) - Z2 * (a * (1.0 - a))
  }

  /** The identity the whole file turns on. */
  lemma SlackSquared(n: real, p: real, r: real, a: real)
    requires Scaled(n, p, r)
    ensures Slack(n, p, a) * Slack(n, p, a) - (WILSON_Z * r) * (WILSON_Z * r) == (n + Z2) * Gap(n, p, a)
  {
    var u, v := p - a, 0.5 - a;
    SquareOfSum(n * u, Z2 * v, n, Z2, u, v);
    RootTerm(n, p * (1.0 - p), r, WILSON_Z, Z2);
    Shifted(p, a);
    SlackTerms(n, Z2, u * u, u * v, v * v, p * (1.0 - p), a * (1.0 - a));
  }

  lemma SquareOfSum(x: real, y: real, n: real, z2: real, u: real, v: real)
    requires x == n * u && y == z2 * v
    ensures (x + y) * (x + y) == n * n * (u * u) + 2.0 * n * z2 * (u * v) + z2 * z2 * (v * v)
  {
    assert x * x == n * n * (u * u) && y * y == z2 * z2 * (v * v) && x * y == n * z2 * (u * v);
  }

  lemma RootTerm(n: real, pq: real, r: real, z: real, z2: real)
    requires z2 == z * z && r * r == n * pq + z2 / 4.0
    ensures (z * r) * (z * r) == z2 * n * pq + z2 * z2 / 4.0
  {
    assert (z * r) * (z * r) == z2 * (r * r);
  }

  lemma Shifted(p: real, a: real)
    ensures 2.0 * ((p - a) * (0.5 - a)) - p * (1.0 - p) == (p - a) * (p - a) - a * (1.0 - a)
    ensures (0.5 - a) * (0.5 - a) - 0.25 == 0.0 - a * (1.0 - a)
  {
  }

  lemma SlackTerms(n: real, z2: real, uu: real, uv: real, vv: real, pq: real, ab: real)
    requires 2.0 * uv - pq == uu - ab && vv - 0.25 == 0.0 - ab
    ensures n * n * uu + 2.0 * n * z2 * uv + z2 * z2 * vv - (z2 * n * pq + z2 * z2 / 4.0)
            == (n + z2) * (n * uu - z2 * ab)
  {
    var nz, zz, nn := n * z2, z2 * z2, n * n;
    assert 2.0 * n * z2 * uv - z2 * n * pq == nz * (2.0 * uv - pq) == nz * uu - nz * ab;
    assert zz * vv - zz / 4.0 == zz * (vv - 0.25) == 0.0 - zz * ab;
    assert (n + z2) * (n * uu - z2 * ab) == nn * uu - nz * ab + nz * uu - zz * ab;
  }

  lemma SlackOfBound(n: real, p: real, r: real, w: real, a: real)
    requires Scaled(n, p, r) && Bound(n, p, r, w)
    ensures w >= a <==> Slack(n, p, a) >= WILSON_Z * r
    ensures w == a <==> Slack(n, p, a) == WILSON_Z * r
  {
    var m := n + Z2;
    assert Slack(n, p, a) - WILSON_Z * r == w * m - a * m;
    if w > a { MulLt(a, w, m); }
    if w < a { MulLt(w, a, m); }
  }

  /** Where the gap is not negative, the slack is not negative exactly up to the share. */
  lemma SlackSign(n: real, p: real, a: real)
    requires n > 0.0 && 0.0 <= p <= 1.0 && 0.0 <= a < 1.0 && Gap(n, p, a) >= 0.0
    ensures Slack(n, p, a) >= 0.0 <==> p >= a
  {
    if p >= a {
      Halve(n, p - a, Z2, a, 1.0 - a);
    } else {
      assert a * (1.0 - a) == (1.0 - a) * a && (p - a) * (p - a) == (a - p) * (a - p);
      Halve(n, a - p, Z2, 1.0 - a, a);
    }
  }

  lemma ScaledThreshold(n: real, p: real, r: real, w: real, a: real)
    requires Scaled(n, p, r) && Bound(n, p, r, w) && 0.0 <= a < 1.0
    ensures w >= a <==> p >= a && Gap(n, p, a) >= 0.0
  {
    var x, y, g, m := Slack(n, p, a), WILSON_Z * r, Gap(n, p, a), n + Z2;
    SlackOfBound(n, p, r, w, a);
    SlackSquared(n, p, r, a);
    if x >= 0.0 { SquareLe(y, x); }
    if g >= 0.0 {
      SlackSign(n, p, a);
      MulLe(0.0, g, m);
    } else {
      MulLt(g, 0.0, m);
    }
  }

  lemma ScaledRoot(n: real, p: real, r: real, w: real)
    requires Scaled(n, p, r) && Bound(n, p, r, w)
    ensures Gap(n, p, w) == 0.0 && 0.0 <= w <= p
  {
    SlackOfBound(n, p, r, w, w);
    SlackSquared(n, p, r, w);
    var g, m := Gap(n, p, w), n + Z2;
    assert m * g == 0.0;
    if g > 0.0 { MulLt(0.0, g, m); }
    if g < 0.0 { MulLt(g, 0.0, m); }
    assert Gap(n, p, 0.0) == n * (p * p) >= 0.0;
    ScaledThreshold(n, p, r, w, 0.0);
    BelowShare(n, p, r, w);
  }

  lemma BelowShare(n: real, p: real, r: real, w: real)
    requires Scaled(n, p, r) && Bound(n, p, r, w)
    ensures w <= p
  {
    SlackOfBound(n, p, r, w, p);
    SlackSquared(n, p, r, p);
    var x, y := Slack(n, p, p), WILSON_Z * r;
    ProductNonNegative(p, 1.0 - p);
    assert Gap(n, p, p) == 0.0 - Z2 * (p * (1.0 - p));
    MulLe(Gap(n, p, p), 0.0, n + Z2);
    if x > y { SquareLe(x, y); }
    if w > p { SlackOfBound(n, p, r, w, p); }
  }

  // ----- What the bound promises -----

  /**
    For every threshold below one: the bound reaches it exactly when the share does and its
    distance to the share is large enough for the sample size.
   */
  lemma Threshold(ok: int, total: int, root: real, a: real)
    requires Sample(ok, total, root) && 0.0 <= a < 1.0
    ensures var p, n := Share(ok, total), total as real;
            WilsonLower(ok, total, root) >= a <==>
              p >= a && n * ((p - a) * (p - a)) >= Z2 * (a * (1.0 - a))
  {
    Unneeded(ok, total, root);
    ScaledSample(ok, total, root);
    BoundSample(ok, total, root);
    ScaledThreshold(total as real, Share(ok, total), total as real * root, Unclamped(ok, total, root), a);
  }

  /** Over exact reals the clamp at zero never acts. */
  lemma Unneeded(ok: int, total: int, root: real)
    requires Sample(ok, total, root)
    ensures WilsonLower(ok, total, root) == Unclamped(ok, total, root)
  {
    ScaledSample(ok, total, root);
    BoundSample(ok, total, root);
    ScaledRoot(total as real, Share(ok, total), total as real * root, Unclamped(ok, total, root));
  }

  /** `a` solves `(p - a)^2 = z^2 * a * (1 - a) / n`. */
  predicate Solves(ok: int, total: int, a: real)
    requires total > 0
  {
    Gap(total as real, Share(ok, total), a) == 0.0
  }

  /** The bound is the smaller root of the quadratic, between zero and the share, and below one. */
  lemma SmallerRoot(ok: int, total: int, root: real, a: real)
    requires Sample(ok, total, root)
    ensures var w := WilsonLower(ok, total, root);
            && Solves(ok, total, w) && 0.0 <= w <= Share(ok, total) && w < 1.0
            && (0.0 <= a <= 1.0 && Solves(ok, total, a) ==> w <= a)
  {
    var n, p, r, w := total as real, Share(ok, total), total as real * root, Unclamped(ok, total, root);
    Unneeded(ok, total, root);
    ScaledSample(ok, total, root);
    BoundSample(ok, total, root);
    ScaledRoot(n, p, r, w);
    BelowOne(n, p, r, w);
    if 0.0 <= a < 1.0 && Solves(ok, total, a) && a <= p {
      SlackSign(n, p, a);
      SlackSquared(n, p, r, a);
      SquareLe(Slack(n, p, a), WILSON_Z * r);
      SquareLe(WILSON_Z * r, Slack(n, p, a));
      SlackOfBound(n, p, r, w, a);
    }
  }

  lemma BelowOne(n: real, p: real, r: real, w: real)
    requires Scaled(n, p, r) && Bound(n, p, r, w) && w <= p
    ensures w < 1.0
  {
    if w >= 1.0 {
      assert p == 1.0;
      MulLe(1.0, w, n + Z2);
    }
  }

  lemma GapGrows(n: real, p: real, q: real, w: real)
    requires n > 0.0 && w <= p <= q && Gap(n, p, w) >= 0.0
    ensures Gap(n, q, w) >= 0.0
  {
    SquareLe(p - w, q - w);
    MulLe((p - w) * (p - w), (q - w) * (q - w), n);
  }

  lemma GapScales(n: real, m: real, p: real, w: real)
    requires n <= m && Gap(n, p, w) >= 0.0
    ensures Gap(m, p, w) >= 0.0
  {
    SquareNonNegative(p - w);
    MulLe(n, m, (p - w) * (p - w));
  }

  /** At a fixed sample size, one more success never lowers the bound. */
  lemma MonotoneInSuccesses(ok: int, more: int, total: int, root: real, moreRoot: real)
    requires Sample(ok, total, root) && Sample(more, total, moreRoot) && ok <= more
    ensures WilsonLower(ok, total, root) <= WilsonLower(more, total, moreRoot)
  {
    hide WilsonLower, Radicand, IsRoot, Gap, Share;
    var w := WilsonLower(ok, total, root);
    ShareGrows(ok, more, total);
    SmallerRoot(ok, total, root, 0.0);
    GapGrows(total as real, Share(ok, total), Share(more, total), w);
    Reaches(more, total, moreRoot, w);
  }

  lemma ShareGrows(ok: int, more: int, total: int)
    requires total > 0 && ok <= more
    ensures Share(ok, total) <= Share(more, total)
  {
    DivMul(ok as real, total as real);
    DivMul(more as real, total as real);
    Cancel(Share(ok, total), Share(more, total), total as real);
  }

  lemma Reaches(ok: int, total: int, root: real, a: real)
    requires Sample(ok, total, root) && 0.0 <= a < 1.0
    requires Share(ok, total) >= a && Gap(total as real, Share(ok, total), a) >= 0.0
    ensures WilsonLower(ok, total, root) >= a
  {
    hide WilsonLower, Radicand, IsRoot, Share;
    Threshold(ok, total, root, a);
  }

  /** The same share of a larger sample is never trusted less. */
  lemma MonotoneInSize(ok: int, total: int, root: real, more: int, bigger: int, moreRoot: real)
    requires Sample(ok, total, root) && Sample(more, bigger, moreRoot)
    requires total <= bigger && Share(more, bigger) == Share(ok, total)
    ensures WilsonLower(ok, total, root) <= WilsonLower(more, bigger, moreRoot)
  {
    hide WilsonLower, Radicand, IsRoot, Gap, Share;
    var w := WilsonLower(ok, total, root);
    SmallerRoot(ok, total, root, 0.0);
    GapScales(total as real, bigger as real, Share(ok, total), w);
    Reaches(more, bigger, moreRoot, w);
  }

  /** In particular when both counts are scaled by the same factor. */
  lemma MonotoneInScale(ok: int, total: int, root: real, factor: int, scaledRoot: real)
    requires Sample(ok, total, root) && factor >= 1 && Sample(factor * ok, factor * total, scaledRoot)
    ensures WilsonLower(ok, total, root) <= WilsonLower(factor * ok, factor * total, scaledRoot)
  {
    hide WilsonLower, Radicand, IsRoot, Gap, Share;
    SameShare(ok, total, factor);
    AtLeast(total, factor);
    MonotoneInSize(ok, total, root, factor * ok, factor * total, scaledRoot);
  }

  lemma AtLeast(total: int, factor: int)
    requires total > 0 && factor >= 1
    ensures total <= factor * total
  {
  }

  lemma SameShare(ok: int, total: int, factor: int)
    requires total > 0 && factor >= 1 && factor * total > 0
    ensures Share(factor * ok, factor * total) == Share(ok, total)
  {
    var f, n, m := factor as real, total as real, (factor * total) as real;
    var p, q := Share(ok, total), Share(factor * ok, factor * total);
    DivMul(ok as real, n);
    DivMul((factor * ok) as real, m);
    assert m == f * n && (factor * ok) as real == f * (ok as real);
    assert q * m == f * (p * n) == p * m;
    Cancel(p, q, m);
    Cancel(q, p, m);
  }

  /** A perfect record of `n` probes is trusted to `n / (n + z^2)`. */
  lemma PerfectRecord(total: int, root: real)
    requires Sample(total, total, root)
    ensures WilsonLower(total, total, root) == total as real / (total as real + Z2)
  {
    var n, w := total as real, WilsonLower(total, total, root);
    assert Share(total, total) == 1.0;
    ScaledSample(total, total, root);
    BoundSample(total, total, root);
    Unneeded(total, total, root);
    RootUnique(n * root, WILSON_Z / 2.0, Z2 / 4.0);
    assert w * (n + Z2) == n;
    DivMul(n, n + Z2);
    Cancel(w, n / (n + Z2), n + Z2);
    Cancel(n / (n + Z2), w, n + Z2);
  }

  /** A record without a success is not trusted at all. */
  lemma NoSuccess(total: int, root: real)
    requires Sample(0, total, root)
    ensures WilsonLower(0, total, root) == 0.0
  {
    SmallerRoot(0, total, root, 0.0);
  }
}
