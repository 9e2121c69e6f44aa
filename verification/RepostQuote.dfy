/**
 The constant-product quote for a repost fee and the pool-token amount of a liquidity deposit
 (human/src/lib.rs), proved equal to their integer closed forms for every 64-bit input.
 */
module RepostQuote {
  import opened Wrappers
  import opened MachineInts
  import opened Arithmetic
  import opened FixedPoint

  const COEFF: nat := 1_000_000_000

  /** Tokens received for `amountIn` lamports against the given pool balances. */
  function CalculateTokensForRepostFee(amountIn: u64, wsolAmount: u64, tokenAmount: u64): Option<u64> {
    var input :- New(amountIn);
    var coeff :- New(COEFF);
    var wsol :- New(wsolAmount);
    var aBalance :- CheckedMul(wsol, coeff);
    var tokens :- New(tokenAmount);
    var bBalance :- CheckedMul(tokens, coeff);
    var constProd :- CheckedMul(aBalance, bBalance);
    var a :- CheckedAdd(aBalance, input);
    var ba :- CheckedMul(bBalance, a);
    var y :- CheckedSub(ba, constProd);
    var amountOut :- CheckedDiv(y, a);
    ToAmount(amountOut)
  }

  /** The quote before conversion, at scale 10^12: floor of tokens * 10^9 * in * 10^12 / (wsol * 10^9 + in). */
  function RawQuote(amountIn: u64, wsolAmount: u64, tokenAmount: u64): nat
    requires 0 < wsolAmount || 0 < amountIn
  {
    MulBound(tokenAmount * COEFF, amountIn, U64_MAX * COEFF, U64_MAX);
    QuotientOf(tokenAmount * COEFF * amountIn, wsolAmount * COEFF + amountIn)
  }

  function QuotientOf(x: nat, d: nat): nat
    requires 0 < d
  {
    x * ONE / d
  }

  /** A raw product of two whole numbers never falls in the gap just below 2^256 where adding half overflows. */
  lemma WholeProductFits(k: nat)
    requires k * (ONE * ONE) < U256_LIMIT
    ensures k * (ONE * ONE) + HALF < U256_LIMIT
  {
    assert k <= U256_LIMIT / (ONE * ONE);
  }

  /** Products of whole numbers are exact whether or not the raw product overflows 256 bits. */
  lemma WholeMul(n: nat, m: nat)
    requires n * ONE < U256_LIMIT && m * ONE < U256_LIMIT && n * m * ONE < U256_LIMIT
    ensures CheckedMul(n * ONE, m * ONE) == Some(n * m * ONE)
  {
    assert n * ONE * (m * ONE) == (n * m) * (ONE * ONE);
    assert n * (m * ONE) == n * m * ONE;
    if n * ONE * (m * ONE) < U256_LIMIT {
      WholeProductFits(n * m);
    }
    DivExact(m, ONE, 0);
    MulByWhole(n, m * ONE);
  }

  /** The bounds under which no 256-bit step of the quote can fail. */
  lemma QuoteBounds(amountIn: u64, wsolAmount: u64, tokenAmount: u64)
    ensures wsolAmount * COEFF <= U64_MAX * COEFF
    ensures tokenAmount * COEFF <= U64_MAX * COEFF
    ensures 0 <= (tokenAmount * COEFF) * (wsolAmount * COEFF + amountIn)
              <= (U64_MAX * COEFF) * (U64_MAX * COEFF + U64_MAX)
    ensures 0 <= (wsolAmount * COEFF) * (tokenAmount * COEFF) <= (U64_MAX * COEFF) * (U64_MAX * COEFF)
    ensures 0 <= (tokenAmount * COEFF) * amountIn <= (U64_MAX * COEFF) * U64_MAX
  {
    MulBound(tokenAmount * COEFF, wsolAmount * COEFF + amountIn, U64_MAX * COEFF, U64_MAX * COEFF + U64_MAX);
    MulBound(wsolAmount * COEFF, tokenAmount * COEFF, U64_MAX * COEFF, U64_MAX * COEFF);
    MulBound(tokenAmount * COEFF, amountIn, U64_MAX * COEFF, U64_MAX);
  }

  /** The numerator of the quote: tokens * (wsol + in) - wsol * tokens is tokens * in, exactly. */
  lemma QuoteNumerator(a0: nat, b: nat, input: nat)
    requires (a0 + input) * ONE < U256_LIMIT && b * ONE < U256_LIMIT
    requires a0 * b * ONE < U256_LIMIT && b * (a0 + input) * ONE < U256_LIMIT
    ensures CheckedMul(a0 * ONE, b * ONE) == Some(a0 * b * ONE)
    ensures CheckedMul(b * ONE, (a0 + input) * ONE) == Some(b * (a0 + input) * ONE)
    ensures CheckedSub(b * (a0 + input) * ONE, a0 * b * ONE) == Some(b * input * ONE)
  {
    WholeMul(a0, b);
    WholeMul(b, a0 + input);
    MulMono(0, b, input);
    assert b * (a0 + input) == a0 * b + b * input;
  }

  /** The last two steps: the division and the conversion of the quotient. */
  lemma QuoteQuotient(n: nat, a: nat, bound: nat)
    requires 0 < a && a * ONE < U256_LIMIT
    requires n * ONE * ONE + HALF < U256_LIMIT
    requires QuotientOf(n, a) <= bound * ONE && bound <= U64_MAX * COEFF
    ensures CheckedDiv(n * ONE, a * ONE) == Some(QuotientOf(n, a))
    ensures ToAmount(QuotientOf(n, a)) == ToU64((QuotientOf(n, a) + HALF) / ONE)
  {
    DivByWhole(n * ONE, a);
    DivAtMost(QuotientOf(n, a) + HALF, ONE, bound);
    ToAmountIs(QuotientOf(n, a));
  }

  /**
   The quote is exact for all inputs: it is the raw quotient rounded half up, and fails only when
   both the pool side and the input are zero or when the result exceeds 64 bits.
   */
  lemma QuoteClosedForm(amountIn: u64, wsolAmount: u64, tokenAmount: u64)
    ensures wsolAmount == 0 && amountIn == 0 ==>
              CalculateTokensForRepostFee(amountIn, wsolAmount, tokenAmount) == None
    ensures 0 < wsolAmount || 0 < amountIn ==>
              CalculateTokensForRepostFee(amountIn, wsolAmount, tokenAmount) ==
              ToU64((RawQuote(amountIn, wsolAmount, tokenAmount) + HALF) / ONE)
  {
    var a0, b := wsolAmount * COEFF, tokenAmount * COEFF;
    QuoteBounds(amountIn, wsolAmount, tokenAmount);
    WholeMul(wsolAmount, COEFF);
    WholeMul(tokenAmount, COEFF);
    QuoteNumerator(a0, b, amountIn);
    assert a0 * ONE + amountIn * ONE == (a0 + amountIn) * ONE;
    if 0 < a0 + amountIn {
      QuoteUnderReserve(amountIn, wsolAmount, tokenAmount);
      QuoteQuotient(b * amountIn, a0 + amountIn, b);
    }
  }

  /** A quote never exceeds the scaled token reserve. */
  lemma QuoteUnderReserve(amountIn: u64, wsolAmount: u64, tokenAmount: u64)
    requires 0 < wsolAmount || 0 < amountIn
    ensures RawQuote(amountIn, wsolAmount, tokenAmount) <= tokenAmount * COEFF * ONE
  {
    var b, a := tokenAmount * COEFF, wsolAmount * COEFF + amountIn;
    MulMono(amountIn, a, b * ONE);
    assert b * amountIn * ONE == (b * ONE) * amountIn;
    assert (b * ONE + 1) * a == (b * ONE) * a + a;
    DivAtMost(b * amountIn * ONE, a, b * ONE);
  }

  /**
   The pool never loses: after taking the input and paying the raw quote,
   the product of the balances has not decreased.
   */
  lemma ConstantProductHolds(amountIn: u64, wsolAmount: u64, tokenAmount: u64)
    requires 0 < wsolAmount || 0 < amountIn
    ensures (wsolAmount * COEFF + amountIn)
              * (tokenAmount * COEFF * ONE - RawQuote(amountIn, wsolAmount, tokenAmount))
         >= (wsolAmount * COEFF) * (tokenAmount * COEFF * ONE)
  {
    var a0, b, a := wsolAmount * COEFF, tokenAmount * COEFF, wsolAmount * COEFF + amountIn;
    var q := RawQuote(amountIn, wsolAmount, tokenAmount);
    DivBracket(b * amountIn * ONE, a);
    assert a * (b * ONE - q) == a * (b * ONE) - q * a;
    assert a * (b * ONE) == a0 * (b * ONE) + amountIn * (b * ONE);
    assert amountIn * (b * ONE) == b * amountIn * ONE;
  }

  /** Nor is the buyer paid less than the product asks for, by more than a unit of the last digit. */
  lemma QuoteIsTight(amountIn: u64, wsolAmount: u64, tokenAmount: u64)
    requires 0 < wsolAmount || 0 < amountIn
    ensures (RawQuote(amountIn, wsolAmount, tokenAmount) + 1) * (wsolAmount * COEFF + amountIn)
          > tokenAmount * COEFF * ONE * amountIn
  {
    var b, a := tokenAmount * COEFF, wsolAmount * COEFF + amountIn;
    assert b * amountIn * ONE == b * ONE * amountIn;
    DivBracket(b * amountIn * ONE, a);
  }

  /** Paying more never yields fewer tokens. */
  lemma QuoteIsMonotone(lesser: u64, greater: u64, wsolAmount: u64, tokenAmount: u64)
    requires lesser <= greater
    requires 0 < wsolAmount || 0 < lesser
    ensures RawQuote(lesser, wsolAmount, tokenAmount) <= RawQuote(greater, wsolAmount, tokenAmount)
    ensures var less := CalculateTokensForRepostFee(lesser, wsolAmount, tokenAmount);
            var more := CalculateTokensForRepostFee(greater, wsolAmount, tokenAmount);
            more.Some? ==> less.Some? && less.value <= more.value
  {
    var a0, s := wsolAmount * COEFF, tokenAmount * COEFF * ONE;
    var q := RawQuote(lesser, wsolAmount, tokenAmount);
    // q * (a0 + greater) <= s * greater, because q is at most s and q * (a0 + lesser) <= s * lesser
    QuoteUnderReserve(lesser, wsolAmount, tokenAmount);
    assert tokenAmount * COEFF * lesser * ONE == s * lesser;
    assert tokenAmount * COEFF * greater * ONE == s * greater;
    DivBracket(s * lesser, a0 + lesser);
    MulMono(q, s, greater - lesser);
    assert q * (a0 + greater) == q * (a0 + lesser) + q * (greater - lesser);
    assert s * greater == s * lesser + s * (greater - lesser);
    DivAtLeast(s * greater, a0 + greater, q);
    DivMono(q + HALF, RawQuote(greater, wsolAmount, tokenAmount) + HALF, ONE);
    QuoteClosedForm(lesser, wsolAmount, tokenAmount);
    QuoteClosedForm(greater, wsolAmount, tokenAmount);
  }

  /** The two quotes that the repository's own test pins. */
  lemma PinnedQuotes()
    ensures CalculateTokensForRepostFee(10_000_000, 10_000, 1) == Some(1000)
    ensures CalculateTokensForRepostFee(10_000_000, 2_000_010_000, 200_001) == Some(1000)
  {
    QuoteClosedForm(10_000_000, 10_000, 1);
    QuoteClosedForm(10_000_000, 2_000_010_000, 200_001);
  }

  // ---------------------------------------------------------------- pool tokens

  /** Pool tokens bought by `wsolAmount`: the source's multiply, divide, floor, convert. */
  function CalculatePoolTokens(wsolAmount: u64, poolTokenSupply: u64, swapTokenBalance: u64): Option<u64> {
    var wsol :- New(wsolAmount);
    var supply :- New(poolTokenSupply);
    var balance :- New(swapTokenBalance);
    var product :- CheckedMul(wsol, supply);
    var ratio :- CheckedDiv(product, balance);
    var whole :- Floor(ratio);
    ToAmount(whole)
  }

  lemma PoolTokensClosedForm(wsolAmount: u64, poolTokenSupply: u64, swapTokenBalance: u64)
    ensures swapTokenBalance == 0 ==>
              CalculatePoolTokens(wsolAmount, poolTokenSupply, swapTokenBalance) == None
    ensures 0 < swapTokenBalance ==>
              CalculatePoolTokens(wsolAmount, poolTokenSupply, swapTokenBalance) ==
              ToU64(wsolAmount * poolTokenSupply / swapTokenBalance)
  {
    var x := wsolAmount * poolTokenSupply;
    MulBound(wsolAmount, poolTokenSupply, U64_MAX, U64_MAX);
    WholeMul(wsolAmount, poolTokenSupply);
    if 0 < swapTokenBalance {
      DivByWhole(x * ONE, swapTokenBalance);
      FloorOfScaledQuotient(x, swapTokenBalance);
      DivBracket(x, swapTokenBalance);
      DivBracket(x * ONE, swapTokenBalance);
      DivExact(x / swapTokenBalance, ONE, HALF);
      ToAmountIs((x / swapTokenBalance) * ONE);
    }
  }
}
