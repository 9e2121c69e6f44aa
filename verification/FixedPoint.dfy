/**
 The fixed-point numbers every amount passes through: spl-math's `PreciseNumber`, a natural
 number scaled by 10^12 and held in 256 bits. Its source is not part of the repository, so
 its rounding rules are this model's assumption:
 multiplication and division add half a unit before the flooring division, a product that does not
 fit falls back to dividing the larger operand first, and a conversion back to an
 integer rounds half up. A conversion of more than 128 bits panics, which is `None` here.
 */
module FixedPoint {
  import opened Wrappers
  import opened MachineInts
  import opened Arithmetic

  const ONE: nat := 1_000_000_000_000
  const HALF: nat := 500_000_000_000
  const U256_LIMIT: nat := 0x1_0000_0000_0000_0000_0000_0000_0000_0000_0000_0000_0000_0000_0000_0000_0000_0000

  /** The scaled representation: `p` stands for p / 10^12. */
  type Precise = p: int | 0 <= p < U256_LIMIT

  function Fit(raw: nat): Option<Precise> {
    if raw < U256_LIMIT then Some(raw) else None
  }

  function New(v: u128): Option<Precise> {
    Fit(v * ONE)
  }

  function CheckedAdd(a: Precise, b: Precise): Option<Precise> {
    Fit(a + b)
  }

  function CheckedSub(a: Precise, b: Precise): Option<Precise> {
    if b <= a then Some(a - b) else None
  }

  function CheckedMul(a: Precise, b: Precise): Option<Precise> {
    if a * b < U256_LIMIT then
      var bumped :- Fit(a * b + HALF);
      Fit(bumped / ONE)
    else if a >= b then
      Fit((a / ONE) * b)
    else
      Fit((b / ONE) * a)
  }

  function CheckedDiv(a: Precise, b: Precise): Option<Precise> {
    if b == 0 then None
    else if a * ONE < U256_LIMIT then
      var bumped :- Fit(a * ONE + HALF);
      Fit(bumped / b)
    else
      var bumped :- Fit(a + HALF);
      Fit((bumped / b) * ONE)
  }

  function Floor(a: Precise): Option<Precise> {
    Fit((a / ONE) * ONE)
  }

  function ToImprecise(a: Precise): Option<u128> {
    var bumped :- Fit(a + HALF);
    if bumped / ONE <= U128_MAX then Some(bumped / ONE) else None
  }

  /** `to_imprecise` followed by `u64::try_from`. */
  function ToAmount(a: Precise): Option<u64> {
    var whole :- ToImprecise(a);
    ToU64(whole)
  }

  // ---------------------------------------------------------------- single steps

  /** Every integer up to 128 bits is represented exactly. */
  lemma NewIsExact(v: u128)
    ensures New(v) == Some(v * ONE)
  {
  }

  /** Multiplying by a whole number loses nothing, on either branch of the multiplication. */
  lemma MulByWhole(n: nat, p: Precise)
    requires n * ONE < U256_LIMIT && n * p < U256_LIMIT
    requires n * ONE * p < U256_LIMIT ==> n * ONE * p + HALF < U256_LIMIT
    requires n * ONE * p >= U256_LIMIT ==> n * ONE >= p || p % ONE == 0
    ensures CheckedMul(n * ONE, p) == Some(n * p)
    ensures CheckedMul(p, n * ONE) == Some(n * p)
  {
    assert n * ONE * p == (n * p) * ONE && p * (n * ONE) == n * ONE * p;
    DivExact(n * p, ONE, HALF);
    DivExact(n, ONE, 0);
    if n * ONE * p >= U256_LIMIT && p % ONE == 0 {
      assert p == (p / ONE) * ONE;
      assert (p / ONE) * (n * ONE) == n * ((p / ONE) * ONE);
    }
  }

  /** Dividing by a whole number is plain floor division of the representation. */
  lemma DivByWhole(p: Precise, d: nat)
    requires 0 < d && d * ONE < U256_LIMIT
    requires p * ONE + HALF < U256_LIMIT
    ensures CheckedDiv(p, d * ONE) == Some(p / d)
  {
    DivScaled(p, d, ONE, HALF);
    DivBracket(p, d);
  }

  /** Conversion back is rounding half up. */
  lemma ToAmountIs(p: Precise)
    requires p + HALF < U256_LIMIT && (p + HALF) / ONE <= U128_MAX
    ensures ToAmount(p) == ToU64((p + HALF) / ONE)
  {
  }

  /** Scaling up, dividing and flooring back is floor division. */
  lemma FloorOfScaledQuotient(x: nat, d: nat)
    requires 0 < d
    ensures (x * ONE / d) / ONE == x / d
  {
    var q, r := x / d, x % d;
    var s, t := (r * ONE) / d, (r * ONE) % d;
    assert x * ONE == (q * d) * ONE + r * ONE && r * ONE == s * d + t;
    assert (q * d) * ONE == (q * ONE) * d;
    DivUnique(x * ONE, d, q * ONE + s, t);
    assert s < ONE by {
      DivBracket(r * ONE, d);
      MulMono(r + 1, d, ONE);
      if s >= ONE {
        MulMono(ONE, s, d);
      }
    }
    DivUnique(q * ONE + s, ONE, q, s);
  }

  // ---------------------------------------------------------------- pipelines

  /** The pipeline amount * bps / 10000 that every commission and share goes through. */
  function MulBps(amount: u64, bps: u16): Option<u64> {
    var amountPrecise :- New(amount);
    var bpsPrecise :- New(bps);
    var bsp :- New(10_000);
    var product :- CheckedMul(amountPrecise, bpsPrecise);
    var part :- CheckedDiv(product, bsp);
    ToAmount(part)
  }

  /** amount * bps / 10000 rounded half up: the closed form of `MulBps`. */
  function RoundedBps(amount: u64, bps: u16): nat {
    (amount * bps + 5000) / 10_000
  }

  /** The pipeline part / whole * total that staking payouts and redemptions go through. */
  function MulShare(part: u64, whole: u64, total: u64): Option<u64> {
    var partPrecise :- New(part);
    var wholePrecise :- New(whole);
    var totalPrecise :- New(total);
    var share :- CheckedDiv(partPrecise, wholePrecise);
    var amount :- CheckedMul(share, totalPrecise);
    ToAmount(amount)
  }

  /** The share truncated at 10^-12, times the total, rounded half up: the closed form of `MulShare`. */
  function RoundedShare(part: u64, whole: u64, total: u64): nat
    requires 0 < whole
  {
    (total * (part * ONE / whole) + HALF) / ONE
  }

  lemma MulBpsClosedForm(amount: u64, bps: u16)
    ensures MulBps(amount, bps) == ToU64(RoundedBps(amount, bps))
    ensures bps <= 10_000 ==> RoundedBps(amount, bps) <= amount
  {
    MulBound(amount, bps, U64_MAX, U16_MAX);
    assert amount * (bps * ONE) == (amount * bps) * ONE;
    assert amount * ONE * (bps * ONE) == ((amount * bps) * ONE) * ONE;
    MulByWhole(amount, bps * ONE);
    DivByTenThousand(amount * bps);
    if bps <= 10_000 {
      MulMono(bps, 10_000, amount);
      DivAtMost(amount * bps + 5000, 10_000, amount);
    }
  }

  /** A share in basis points is the exact one rounded half up. */
  lemma BpsAccuracy(amount: u64, bps: u16)
    ensures 10_000 * RoundedBps(amount, bps) <= amount * bps + 5000 < 10_000 * RoundedBps(amount, bps) + 10_000
  {
    MulBound(amount, bps, U64_MAX, U16_MAX);
    DivBracket(amount * bps + 5000, 10_000);
  }

  /** Dividing a whole number by 10000 is exact, because 10^12 is a multiple of 10^4. */
  lemma DivByTenThousand(x: nat)
    requires x <= U64_MAX * U16_MAX
    ensures CheckedDiv(x * ONE, 10_000 * ONE) == Some(x * 100_000_000)
    ensures ToAmount(x * 100_000_000) == ToU64((x + 5000) / 10_000)
  {
    DivByWhole(x * ONE, 10_000);
    DivScaled(x + 5000, 10_000, 100_000_000, 0);
    ToAmountIs(x * 100_000_000);
  }

  lemma MulShareClosedForm(part: u64, whole: u64, total: u64)
    ensures whole == 0 ==> MulShare(part, whole, total) == None
    ensures 0 < whole ==> MulShare(part, whole, total) == ToU64(RoundedShare(part, whole, total))
  {
    if 0 < whole {
      DivByWhole(part * ONE, whole);
      var share := part * ONE / whole;
      DivBracket(part * ONE, whole);
      MulBound(total, share, U64_MAX, U64_MAX * ONE);
      MulBound(total * share, ONE, U64_MAX * U64_MAX * ONE, ONE);
      assert total * ONE * share == (total * share) * ONE;
      MulByWhole(total, share);
      DivBracket(total * share + HALF, ONE);
      assert (total * share + HALF) / ONE <= U128_MAX by {
        DivAtMost(total * share + HALF, ONE, U128_MAX);
      }
      ToAmountIs(total * share);
    }
  }

  /**
   How far one share may be from its exact value total * part / whole: never more than the total,
   at most a half above, and less than 1/2 + total / 10^12 below.
   */
  lemma ShareAccuracy(part: u64, whole: u64, total: u64)
    requires part <= whole && 0 < whole
    ensures RoundedShare(part, whole, total) <= total
    ensures 2 * whole * RoundedShare(part, whole, total) <= 2 * total * part + whole
    ensures 2 * ONE * whole * RoundedShare(part, whole, total)
         > 2 * ONE * total * part - whole * (2 * total + ONE)
  {
    ShareUnderWhole(part, whole, total);
    ShareBelow(part, whole, total);
    ShareAbove(part, whole, total);
  }

  lemma ShareUnderWhole(part: u64, whole: u64, total: u64)
    requires part <= whole && 0 < whole
    ensures part * ONE / whole <= ONE
    ensures RoundedShare(part, whole, total) <= total
  {
    var q := part * ONE / whole;
    MulMono(part, whole, ONE);
    assert (ONE + 1) * whole == whole * ONE + whole;
    DivAtMost(part * ONE, whole, ONE);
    MulMono(q, ONE, total);
    DivAtMost(total * q + HALF, ONE, total);
  }

  /** At most half a unit above; this bound does not need part <= whole. */
  lemma ShareBelow(part: u64, whole: u64, total: u64)
    requires 0 < whole
    ensures 2 * whole * RoundedShare(part, whole, total) <= 2 * total * part + whole
  {
    var q := part * ONE / whole;
    var p := RoundedShare(part, whole, total);
    DivBracket(part * ONE, whole);
    DivBracket(total * q + HALF, ONE);
    MulMono(p * ONE, total * q + HALF, whole);
    MulMono(q * whole, part * ONE, total);
    ShareBelowProducts(part, whole, total, q, p);
  }

  lemma ShareBelowProducts(part: nat, whole: nat, total: nat, q: nat, p: nat)
    requires (p * ONE) * whole <= (total * q + HALF) * whole
    requires total * (q * whole) <= total * (part * ONE)
    ensures 2 * whole * p <= 2 * total * part + whole
  {
    var wp, tp, tqw := whole * p, total * part, total * (q * whole);
    assert (p * ONE) * whole == wp * ONE;
    assert (total * q + HALF) * whole == tqw + HALF * whole;
    assert total * (part * ONE) == tp * ONE;
    assert 2 * whole * p == 2 * wp && 2 * total * part == 2 * tp;
  }

  /** Less than 1/2 + total / 10^12 below. */
  lemma ShareAbove(part: u64, whole: u64, total: u64)
    requires 0 < whole
    ensures 2 * ONE * whole * RoundedShare(part, whole, total)
         > 2 * ONE * total * part - whole * (2 * total + ONE)
  {
    var q := part * ONE / whole;
    var p := RoundedShare(part, whole, total);
    DivBracket(part * ONE, whole);
    DivBracket(total * q + HALF, ONE);
    MulMono(total * q + HALF + 1, p * ONE + ONE, whole);
    MulMono(part * ONE, q * whole + whole, total);
    ShareAboveProducts(part, whole, total, q, p);
  }

  lemma ShareAboveProducts(part: nat, whole: nat, total: nat, q: nat, p: nat)
    requires 0 < whole
    requires (total * q + HALF + 1) * whole <= (p * ONE + ONE) * whole
    requires total * (part * ONE) <= total * (q * whole + whole)
    ensures 2 * ONE * whole * p > 2 * ONE * total * part - whole * (2 * total + ONE)
  {
    var wp, tp, tqw, tw := whole * p, total * part, total * (q * whole), total * whole;
    assert (total * q + HALF + 1) * whole == tqw + HALF * whole + whole;
    assert (p * ONE + ONE) * whole == wp * ONE + ONE * whole;
    assert total * (part * ONE) == tp * ONE;
    assert total * (q * whole + whole) == tqw + tw;
    assert 2 * ONE * whole * p == 2 * ONE * wp && 2 * ONE * total * part == 2 * ONE * tp;
    assert whole * (2 * total + ONE) == 2 * tw + ONE * whole;
  }
}
