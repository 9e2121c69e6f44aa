/** The few facts about products and floor division that the proofs need. */
module Arithmetic {

  lemma MulMono(a: nat, b: nat, c: nat)
    requires a <= b
    ensures a * c <= b * c
    ensures c * a <= c * b
  {
  }

  /** A product of bounded factors is bounded by the product of the bounds. */
  lemma MulBound(a: nat, b: nat, aMax: nat, bMax: nat)
    requires a <= aMax && b <= bMax
    ensures 0 <= a * b <= aMax * bMax
  {
    MulMono(a, aMax, b);
    MulMono(b, bMax, aMax);
  }

  lemma DivUnique(n: int, d: nat, q: int, r: nat)
    requires 0 < d && n == q * d + r && r < d
    ensures n / d == q && n % d == r
  {
    var q', r' := n / d, n % d;
    assert n == q' * d + r';
    assert (q - q') * d == r' - r;
    assert (q' - q) * d == r - r';
    if q - q' >= 1 {
      MulMono(1, q - q', d);
    } else if q' - q >= 1 {
      MulMono(1, q' - q, d);
    }
  }

  /** Floor division is bracketed by the exact quotient. */
  lemma DivBracket(n: nat, d: nat)
    requires 0 < d
    ensures (n / d) * d <= n < (n / d) * d + d
    ensures 0 <= n / d <= n
  {
    assert n == (n / d) * d + n % d;
    if n / d > n {
      MulMono(n + 1, n / d, d);
      assert (n + 1) * d == n * d + d;
      MulMono(1, d, n);
    }
  }

  /** A common scale cancels, and an addend below the scale never shows. */
  lemma DivScaled(n: nat, d: nat, scale: nat, extra: nat)
    requires 0 < d && extra < scale
    ensures 0 < d * scale
    ensures (n * scale + extra) / (d * scale) == n / d
  {
    var q, r := n / d, n % d;
    MulMono(1, d, scale);
    assert n == q * d + r;
    assert n * scale == (q * d) * scale + r * scale;
    assert (q * d) * scale == q * (d * scale);
    MulMono(r + 1, d, scale);
    assert (r + 1) * scale == r * scale + scale;
    DivUnique(n * scale + extra, d * scale, q, r * scale + extra);
  }

  /** Rounding to the scale leaves a multiple of the scale alone. */
  lemma DivExact(n: nat, scale: nat, extra: nat)
    requires extra < scale
    ensures (n * scale + extra) / scale == n
  {
    DivUnique(n * scale + extra, scale, n, extra);
  }

  lemma DivMono(a: nat, b: nat, d: nat)
    requires a <= b && 0 < d
    ensures a / d <= b / d
  {
    DivBracket(a, d);
    DivBracket(b, d);
    if a / d > b / d {
      MulMono(b / d + 1, a / d, d);
    }
  }

  /** `q` bounds the floor quotient as soon as `n < (q + 1) * d`. */
  lemma DivAtMost(n: nat, d: nat, q: nat)
    requires 0 < d && n < (q + 1) * d
    ensures n / d <= q
  {
    DivBracket(n, d);
    if n / d > q {
      MulMono(q + 1, n / d, d);
    }
  }

  lemma DivAtLeast(n: nat, d: nat, q: nat)
    requires 0 < d && q * d <= n
    ensures q <= n / d
  {
    DivBracket(n, d);
    if n / d < q {
      MulMono(n / d + 1, q, d);
    }
  }
}
