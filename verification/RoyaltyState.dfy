/** Entities of the royalty program and the arithmetic on them (royalty/src/state.rs). */
module RoyaltyState {
  import opened Wrappers
  import opened MachineInts
  import opened Arithmetic
  import opened FixedPoint
  import opened BuySplits

  type Pubkey = nat

  datatype Error =
    | LessThanDepositMinimum
    | BlackistedForEnroll
    | VoucherNotEligible
    | Overflow
    | InvalidVoucher
    | NotEnoughToStartDistribution
    | TemporaryUnavailable
    | InsufficientBalance
    | UnrelinquishedVotes
    | AccountNotRentExempt
    | InvalidArgument
    | AccountAlreadyInitialized
    | IllegalOwner             // a token wallet of the instruction does not exist
    | TransferFailed           // an error of the token or system program
    | Panic                    // a failed assertion

  datatype Settings = Settings(minTokenToEnroll: u64, ownerFee: u16, hostFee: u16, hostFlatFee: u32)

  datatype Split = Split(distributeAmount: u64, ownerComission: u64, hostComission: u64)

  datatype Distribution = Distribution(distributeAmount: u64, seenVouchers: u32)

  datatype Voucher = Voucher(dropIdx: u32, balance: u64, lastDistribution: i64)

  // ---------------------------------------------------------------- commission split

  /** `Settings::valid`: the addition saturates at 16 bits. */
  predicate ValidSettings(s: Settings) {
    Min(s.ownerFee + s.hostFee, U16_MAX) < 10_000
  }

  function CalculateSplit(s: Settings, balance: u64, numVouchers: u32): Option<Split> {
    var ownerSplit :- MulBps(balance, s.ownerFee);
    var hostSplit :- MulBps(balance, s.hostFee);
    var hostFlatFee :- ToU32(s.hostFlatFee * numVouchers);
    var hostTotal :- ToU64(hostSplit + hostFlatFee);
    var afterOwner :- ToU64(balance - ownerSplit);
    var remaining :- ToU64(afterOwner - hostTotal);
    Some(Split(remaining, ownerSplit, hostTotal))
  }

  /**
   With valid settings a split exists exactly when the flat fees fit 32 bits and everything charged is
   covered by the balance. Its three parts then add up to the balance.
   */
  lemma SplitExistsIffCovered(s: Settings, balance: u64, numVouchers: u32)
    requires ValidSettings(s)
    ensures var split := CalculateSplit(s, balance, numVouchers);
            var owner, host := RoundedBps(balance, s.ownerFee), RoundedBps(balance, s.hostFee);
            && (split.Some? <==>
                  && s.hostFlatFee * numVouchers <= U32_MAX
                  && owner + host + s.hostFlatFee * numVouchers <= balance)
            && (split.Some? ==>
                  && split.value.ownerComission == owner
                  && split.value.hostComission == host + s.hostFlatFee * numVouchers
                  && split.value.distributeAmount + split.value.ownerComission + split.value.hostComission == balance)
  {
    MulBpsClosedForm(balance, s.ownerFee);
    MulBpsClosedForm(balance, s.hostFee);
    MulBound(s.hostFlatFee, numVouchers, U32_MAX, U32_MAX);
  }

  /** Without a flat fee every balance splits. */
  lemma SplitIsTotalWithoutFlatFee(s: Settings, balance: u64, numVouchers: u32)
    requires ValidSettings(s) && s.hostFlatFee == 0
    ensures var split := CalculateSplit(s, balance, numVouchers);
            && split.Some?
            && split.value.distributeAmount + split.value.ownerComission + split.value.hostComission == balance
  {
    SplitExistsIffCovered(s, balance, numVouchers);
    TwoRoundedSharesFit(balance, s.ownerFee, s.hostFee);
  }

  /**
   With a flat fee it need not: the repository's property test expects a split for every balance, but
   a flat fee of 1 and an empty balance are in its range.
   */
  lemma FlatFeeCanExceedBalance()
    ensures var s := Settings(10_000, 0, 0, 1);
            ValidSettings(s) && CalculateSplit(s, 0, 10) == None
  {
    SplitExistsIffCovered(Settings(10_000, 0, 0, 1), 0, 10);
  }

  // ---------------------------------------------------------------- payout to one voucher

  /** What one voucher receives of a distribution: the closed form of the fixed-point pipeline. */
  function Payout(balance: u64, totalTokens: u64, distributeAmount: u64): nat {
    if totalTokens == 0 then 0 else RoundedShare(balance, totalTokens, distributeAmount)
  }

  lemma PayoutAccuracy(balance: u64, totalTokens: u64, distributeAmount: u64)
    requires balance <= totalTokens
    ensures Payout(balance, totalTokens, distributeAmount) <= distributeAmount
    ensures 2 * totalTokens * Payout(balance, totalTokens, distributeAmount)
         <= 2 * distributeAmount * balance + totalTokens
    ensures 0 < totalTokens ==>
              2 * ONE * totalTokens * Payout(balance, totalTokens, distributeAmount)
              > 2 * ONE * distributeAmount * balance - totalTokens * (2 * distributeAmount + ONE)
  {
    if 0 < totalTokens {
      ShareAccuracy(balance, totalTokens, distributeAmount);
    }
  }

  /** The effect of `distribute_to` on the distribution and the voucher, with the amount to send. */
  function DistributedTo(d: Distribution, v: Voucher, dropIdx: u32, totalTokens: u64, now: i64)
    : Result<(Distribution, Voucher, u64), Error>
  {
    if v.dropIdx != dropIdx then Failure(VoucherNotEligible)
    else if totalTokens == 0 then Failure(Overflow)
    else if v.balance * ONE / totalTokens > ONE then Failure(Panic)
    else
      var seen :- ToU32(d.seenVouchers + 1).OkOr(Overflow);
      var lamports :- ToU64(Payout(v.balance, totalTokens, d.distributeAmount)).OkOr(Overflow);
      var nextDrop :- ToU32(v.dropIdx + 1).OkOr(Overflow);
      Success((d.(seenVouchers := seen), v.(dropIdx := nextDrop, lastDistribution := now), lamports))
  }

  /**
   `distribute_to`, with the fixed-point steps of the source. The two records it mutates are returned; it
   either does all of its work or leaves both alone.
   */
  method DistributeTo(d: Distribution, v: Voucher, dropIdx: u32, totalTokens: u64, now: i64)
    returns (r: Result<(Distribution, Voucher, u64), Error>)
    ensures r == DistributedTo(d, v, dropIdx, totalTokens, now)
  {
    if v.dropIdx != dropIdx {
      return Failure(VoucherNotEligible);
    }
    NewIsExact(v.balance);
    NewIsExact(totalTokens);
    NewIsExact(d.distributeAmount);
    NewIsExact(1);
    var balance, total, amount := New(v.balance).value, New(totalTokens).value, New(d.distributeAmount).value;
    PayoutSteps(v.balance, totalTokens, d.distributeAmount);
    var owned := CheckedDiv(balance, total);
    if owned.None? {
      return Failure(Overflow);
    }
    if owned.value > New(1).value {
      return Failure(Panic);
    }
    var part := CheckedMul(amount, owned.value);
    if d.seenVouchers == U32_MAX {
      return Failure(Overflow);
    }
    var seen := d.seenVouchers + 1;
    var lamports :- ToAmount(part.value).OkOr(Overflow);
    if v.dropIdx == U32_MAX {
      return Failure(Overflow);
    }
    return Success((d.(seenVouchers := seen), v.(dropIdx := v.dropIdx + 1, lastDistribution := now), lamports));
  }

  /** Division, multiplication and conversion compose to `Payout`. */
  lemma PayoutSteps(balance: u64, totalTokens: u64, distributeAmount: u64)
    ensures CheckedDiv(balance * ONE, totalTokens * ONE)
         == (if totalTokens == 0 then None else Some(balance * ONE / totalTokens))
    ensures 0 < totalTokens ==>
              var part := CheckedMul(distributeAmount * ONE, balance * ONE / totalTokens);
              part.Some? && ToAmount(part.value) == ToU64(Payout(balance, totalTokens, distributeAmount))
  {
    if 0 < totalTokens {
      var share := balance * ONE / totalTokens;
      DivByWhole(balance * ONE, totalTokens);
      DivBracket(balance * ONE, totalTokens);
      MulBound(distributeAmount, share, U64_MAX, U64_MAX * ONE);
      assert distributeAmount * ONE * share == (distributeAmount * share) * ONE;
      MulByWhole(distributeAmount, share);
      DivAtMost(distributeAmount * share + HALF, ONE, U128_MAX);
      ToAmountIs(distributeAmount * share);
    }
  }
}
