/** Commission splits of a purchase (human/src/state.rs). */
module BuySplits {
  import opened Wrappers
  import opened MachineInts
  import opened Arithmetic
  import opened FixedPoint

  const BUY_COMMISSION: u16 := 1000
  const TREASURY_COMMISSION: u16 := 8000

  datatype BuySplit = BuySplit(ownerSplit: u64, commission: u64, treasurySplit: u64, tokenCommission: u64)

  function CalculateSplitByLamports(lamports: u64): Option<BuySplit> {
    var commission :- MulBps(lamports, BUY_COMMISSION);
    var treasurySplit :- MulBps(lamports, TREASURY_COMMISSION);
    var afterCommission :- ToU64(lamports - commission);
    var ownerSplit :- ToU64(afterCommission - treasurySplit);
    Some(BuySplit(ownerSplit, commission, treasurySplit, 0))
  }

  function CalculateSplit(pricePerChatlan: u64, tokenAmount: u64): Option<BuySplit> {
    var lamports :- ToU64(pricePerChatlan * tokenAmount);
    var tokenCommission :- MulBps(tokenAmount, BUY_COMMISSION);
    var split :- CalculateSplitByLamports(lamports);
    Some(split.(tokenCommission := tokenCommission))
  }

  /**
   Two rounded shares of less than the whole never exceed it together: this is what keeps
   the subtractions that follow them from failing.
   */
  lemma TwoRoundedSharesFit(amount: u64, first: u16, second: u16)
    requires first + second < 10_000
    ensures RoundedBps(amount, first) + RoundedBps(amount, second) <= amount
  {
    var a, b := amount * first, amount * second;
    DivBracket(a + 5000, 10_000);
    DivBracket(b + 5000, 10_000);
    assert a + b == amount * (first + second);
    MulMono(first + second, 9_999, amount);
    if amount == 0 {
      assert a == 0 && b == 0;
    }
  }

  /** Every lamport amount splits, and the three parts add up to it. */
  lemma SplitByLamportsIsTotal(lamports: u64)
    ensures var split := CalculateSplitByLamports(lamports);
            && split.Some?
            && split.value.commission == RoundedBps(lamports, 1000)
            && split.value.treasurySplit == RoundedBps(lamports, 8000)
            && split.value.ownerSplit + split.value.commission + split.value.treasurySplit == lamports
  {
    MulBpsClosedForm(lamports, BUY_COMMISSION);
    MulBpsClosedForm(lamports, TREASURY_COMMISSION);
    TwoRoundedSharesFit(lamports, BUY_COMMISSION, TREASURY_COMMISSION);
  }

  /** A purchase splits exactly when its price fits 64 bits; the token commission is its own rounded share. */
  lemma SplitSucceedsIffPriceFits(pricePerChatlan: u64, tokenAmount: u64)
    ensures var split := CalculateSplit(pricePerChatlan, tokenAmount);
            && (split.Some? <==> pricePerChatlan * tokenAmount <= U64_MAX)
            && (split.Some? ==>
                  && split.value.ownerSplit + split.value.commission + split.value.treasurySplit
                     == pricePerChatlan * tokenAmount
                  && split.value.commission == RoundedBps(pricePerChatlan * tokenAmount, 1000)
                  && split.value.treasurySplit == RoundedBps(pricePerChatlan * tokenAmount, 8000)
                  && split.value.tokenCommission == RoundedBps(tokenAmount, 1000))
  {
    MulBound(pricePerChatlan, tokenAmount, U64_MAX, U64_MAX);
    MulBpsClosedForm(tokenAmount, BUY_COMMISSION);
    if pricePerChatlan * tokenAmount <= U64_MAX {
      SplitByLamportsIsTotal(pricePerChatlan * tokenAmount);
    }
  }
}
