/** The round account, its time windows and the redemption formula (round/src/state.rs). */
module RoundState {
  import opened Wrappers
  import opened MachineInts
  import opened FixedPoint

  type Pubkey = nat

  /** Every account a sale touches; derived addresses are injective in what they are derived from. */
  datatype Address =
    | Key(key: Pubkey)
    | AssociatedWallet(owner: Pubkey)   // the owner's associated wallet for the bid mint
    | BidWallet
    | OfferWallet
    | Authority                         // owns both wallets; a temporary wallet is opened at this address

  datatype Error =
    | Overflow
    | SuspiciousOfferInterval
    | NoDelegatedAmount
    | BiddingNotStarted
    | BiddingEnded
    | InactivityTimeoutHasNotPassed
    | CantWithdrawAcceptedOffer
    | OfferIsNotPending
    | OfferTimedOut
    | BiddingStillGoing
    | CantWithdrawWithoutUserSignature
    | CantRedeemNotAcceptedRound
    | CantCancelStartedRound
    | VouchersNotWithdrawn
    | CantCloseBeforeHeirTimeout
    | CantCloseDuringReconciliation
    | CantWithdrawDuringReconciliation
    | CantContributeFiatNotInReconciliation
    | AccountMissing           // an account of the instruction does not exist
    | TransferFailed           // an error of the token or system program
    | Panic                    // a failed assertion or an unwrapped None

  datatype Status = Pending | Accepted | Rejected | Reconciliation

  datatype Round = Round(
    status: Status,
    recipient: Address,
    payer: Pubkey,
    vouchersCount: u64,
    biddingStart: i64,
    biddingEnd: i64,
    totalBid: Option<u64>,
    totalOffer: Option<u64>,
    targetBid: u64,
    returnWallet: Address)

  datatype Voucher = Voucher(payer: Pubkey, amountContributed: u64)

  /** Seven days in seconds. */
  const WITHDRAWAL_ENABLED_AFTER_INACTIVITY_TIMEOUT: i64 := 604_800

  // ---------------------------------------------------------------- guards

  function HeirTimeoutDate(r: Round): Result<i64, Error> {
    ToI64(r.biddingEnd + WITHDRAWAL_ENABLED_AFTER_INACTIVITY_TIMEOUT).OkOr(Overflow)
  }

  function CanWithdrawDueHeirInactivity(r: Round, now: i64): Result<bool, Error> {
    var date :- HeirTimeoutDate(r);
    Success(now > date)
  }

  function AssertCanAcceptOrReject(r: Round, now: i64): Check<Error> {
    if r.status != Pending then Denied(OfferIsNotPending)
    else
      match CanWithdrawDueHeirInactivity(r, now)
      case Failure(e) => Denied(e)
      case Success(timedOut) =>
        if timedOut then Denied(OfferTimedOut)
        else Need(now >= r.biddingEnd, BiddingStillGoing)
  }

  function AssertCanContribute(r: Round, now: i64): Check<Error> {
    if now < r.biddingStart then Denied(BiddingNotStarted)
    else Need(r.biddingEnd >= now, BiddingEnded)
  }

  function AssertReconciliation(r: Round): Check<Error> {
    Need(r.status == Reconciliation, CantContributeFiatNotInReconciliation)
  }

  function AssertCanWithdraw(r: Round, now: i64, userIsSigner: bool): Check<Error> {
    if now < r.biddingStart then Denied(BiddingNotStarted)
    else if r.status == Reconciliation then Denied(CantWithdrawAcceptedOffer)
    else if r.status == Accepted then Denied(CantWithdrawDuringReconciliation)
    else if r.status == Pending && now > r.biddingEnd && CanWithdrawDueHeirInactivity(r, now).Failure? then
      Denied(CanWithdrawDueHeirInactivity(r, now).error)
    else if r.status == Pending && now > r.biddingEnd && !CanWithdrawDueHeirInactivity(r, now).value then
      Denied(InactivityTimeoutHasNotPassed)
    else Need(userIsSigner || now >= r.biddingEnd, CantWithdrawWithoutUserSignature)
  }

  function AssertCanRejectBid(r: Round, now: i64): Check<Error> {
    if r.status != Pending then Denied(OfferIsNotPending)
    else if now < r.biddingEnd then Denied(BiddingStillGoing)
    else
      match HeirTimeoutDate(r)
      case Failure(e) => Denied(e)
      case Success(date) => Need(now <= date, OfferTimedOut)
  }

  function AssertCanRedeem(r: Round): Check<Error> {
    Need(r.status == Accepted, CantRedeemNotAcceptedRound)
  }

  function AssertCanCancel(r: Round, now: i64): Check<Error> {
    Need(now <= r.biddingStart, CantCancelStartedRound)
  }

  function AssertCanClose(r: Round, now: i64): Check<Error> {
    if r.vouchersCount > 0 then Denied(VouchersNotWithdrawn)
    else
      match r.status
      case Accepted => Passed
      case Rejected => Passed
      case Reconciliation => Denied(CantCloseDuringReconciliation)
      case Pending =>
        match HeirTimeoutDate(r)
        case Failure(e) => Denied(e)
        case Success(date) => Need(now > date, CantCloseBeforeHeirTimeout)
  }

  /** The heir has gone missing: more than seven days have passed since bidding ended. */
  predicate TimedOut(r: Round, now: i64) {
    now > r.biddingEnd + WITHDRAWAL_ENABLED_AFTER_INACTIVITY_TIMEOUT
  }

  /**
   When bids can be taken back: always after a rejection; while pending, up to the end of bidding and again
   once the heir has timed out. Before the end of bidding only the user can do it.
   */
  lemma WithdrawWindow(r: Round, now: i64, signed: bool)
    requires r.biddingStart < r.biddingEnd
    ensures AssertCanWithdraw(r, now, signed).Passed? <==>
              && r.biddingStart <= now
              && (signed || r.biddingEnd <= now)
              && (r.status == Rejected || (r.status == Pending && (now <= r.biddingEnd || TimedOut(r, now))))
  {
  }

  /**
   The heir's window and the withdrawals of a pending round touch at one instant only, the end of bidding;
   the heir can act in exactly one of the two windows once bidding has ended.
   */
  lemma HeirAndUsersTakeTurns(r: Round, now: i64)
    requires r.biddingStart < r.biddingEnd && r.status == Pending
    requires r.biddingEnd + WITHDRAWAL_ENABLED_AFTER_INACTIVITY_TIMEOUT <= I64_MAX
    ensures AssertCanAcceptOrReject(r, now).Passed? && AssertCanWithdraw(r, now, true).Passed? ==> now == r.biddingEnd
    ensures AssertCanAcceptOrReject(r, now).Passed? && AssertCanContribute(r, now).Passed? ==> now == r.biddingEnd
    ensures r.biddingEnd < now ==>
              (AssertCanAcceptOrReject(r, now).Passed? <==> AssertCanWithdraw(r, now, false).Denied?)
    ensures AssertCanAcceptOrReject(r, now).Passed? <==> AssertCanRejectBid(r, now).Passed?
    ensures AssertCanClose(r, now).Passed? <==> r.vouchersCount == 0 && TimedOut(r, now)
  {
  }

  /**
   A withdrawal from an accepted round is refused with the error for reconciliations, and the other way round; the
   repository's property test expects the error for accepted rounds, at any time after the end of bidding.
   */
  lemma WithdrawErrorsAreSwapped(r: Round, now: i64, signed: bool)
    requires r.biddingStart <= now
    ensures r.status == Accepted ==> AssertCanWithdraw(r, now, signed) == Denied(CantWithdrawDuringReconciliation)
    ensures r.status == Reconciliation ==> AssertCanWithdraw(r, now, signed) == Denied(CantWithdrawAcceptedOffer)
  {
  }

  /**
   A pending round whose timeout does not fit 64 bits can never be settled, withdrawn from or closed after its
   end.
   */
  lemma TimeoutBeyondClock(r: Round, now: i64)
    requires r.status == Pending && r.biddingEnd < now
    requires r.biddingEnd + WITHDRAWAL_ENABLED_AFTER_INACTIVITY_TIMEOUT > I64_MAX
    ensures AssertCanAcceptOrReject(r, now) == Denied(Overflow)
    ensures r.biddingStart < r.biddingEnd ==> AssertCanWithdraw(r, now, true) == Denied(Overflow)
    ensures AssertCanRejectBid(r, now) == Denied(Overflow)
    ensures AssertCanClose(r, now).Denied?
  {
  }

  // ---------------------------------------------------------------- redemption

  function CalculateRedeemAmount(targetBid: u64, bidBalance: u64, userBid: u64, totalOffer: u64): Option<u64> {
    MulShare(userBid, Max(targetBid, bidBalance), totalOffer)
  }

  /** A redemption succeeds exactly when there was something to bid for; it never pays more than the offer. */
  lemma RedeemAmountAccuracy(targetBid: u64, bidBalance: u64, userBid: u64, totalOffer: u64)
    requires userBid <= Max(targetBid, bidBalance)
    ensures var whole := Max(targetBid, bidBalance);
            var amount := CalculateRedeemAmount(targetBid, bidBalance, userBid, totalOffer);
            && (amount.Some? <==> 0 < whole)
            && (amount.Some? ==>
                  && amount.value <= totalOffer
                  && 2 * whole * amount.value <= 2 * totalOffer * userBid + whole
                  && 2 * ONE * whole * amount.value > 2 * ONE * totalOffer * userBid - whole * (2 * totalOffer + ONE))
  {
    var whole := Max(targetBid, bidBalance);
    MulShareClosedForm(userBid, whole, totalOffer);
    if 0 < whole {
      ShareAccuracy(userBid, whole, totalOffer);
    }
  }

  lemma RedeemAmountIs(targetBid: u64, bidBalance: u64, userBid: u64, totalOffer: u64, expected: u64)
    requires 0 < Max(targetBid, bidBalance)
    requires RoundedShare(userBid, Max(targetBid, bidBalance), totalOffer) == expected
    ensures CalculateRedeemAmount(targetBid, bidBalance, userBid, totalOffer) == Some(expected)
  {
    MulShareClosedForm(userBid, Max(targetBid, bidBalance), totalOffer);
  }

  /** The five rows of the repository's table. */
  lemma PinnedRedemptions()
    ensures CalculateRedeemAmount(100, 100, 10, 100) == Some(10)
    ensures CalculateRedeemAmount(1000, 10_000, 10_000, 100) == Some(100)
    ensures CalculateRedeemAmount(10_000, 10_000, 9000, 1000) == Some(900)
    ensures CalculateRedeemAmount(26_250, 10_000, 9000, 2500) == Some(857)
    ensures CalculateRedeemAmount(5_500, 25_000, 899, 500) == Some(18)
  {
    RedeemAmountIs(100, 100, 10, 100, 10);
    RedeemAmountIs(1000, 10_000, 10_000, 100, 100);
    RedeemAmountIs(10_000, 10_000, 9000, 1000, 900);
    RedeemAmountIs(26_250, 10_000, 9000, 2500, 857);
    RedeemAmountIs(5_500, 25_000, 899, 500, 18);
  }
}
