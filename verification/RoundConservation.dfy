/** No instruction of the round creates or destroys tokens or lamports. */
module RoundConservation {
  import opened MachineInts
  import opened Sums
  import opened RoundState
  import opened RoundSteps
  import opened RoundInvariant

  /** The rents locked up in the round's own two wallets. */
  ghost function LockedRent(rent: u64, bids: Ledger, offers: Ledger): nat {
    (if BidWallet in bids then rent else 0) + (if OfferWallet in offers then rent else 0)
  }

  /** Offer tokens, bid tokens unless they are wrapped SOL, and bids and lamports together are all conserved. */
  ghost predicate Conserved(s: Sale, t: Sale) {
    && Sum(t.offers) == Sum(s.offers)
    && (!s.native ==> Sum(t.bids) == Sum(s.bids))
    && Sum(t.bids) + Sum(t.lamports) + LockedRent(t.walletRent, t.bids, t.offers)
       == Sum(s.bids) + Sum(s.lamports) + LockedRent(s.walletRent, s.bids, s.offers)
  }

  lemma CreditAdds(lamports: Ledger, to: Address, amount: nat)
    requires Credit(lamports, to, amount).Success?
    ensures Sum(Credit(lamports, to, amount).value) == Sum(lamports) + amount
  {
    SumWithBalance(lamports, to, Balance(lamports, to) + amount);
  }

  lemma ReturnBidConserves(s: Sale, user: Pubkey, currentPayer: Pubkey)
    requires user in s.vouchers && ReturnBid(s, user, currentPayer).Success?
    ensures Conserved(s, ReturnBid(s, user, currentPayer).value)
  {
    var amount := s.vouchers[user].amountContributed;
    ReturnBidEffect(s, user, currentPayer);
    RefundEffect(s.native, s.walletRent, s.bids, s.lamports, user, currentPayer, amount);
    if !s.native {
      TokenRefundEffect(s.walletRent, s.bids, s.lamports, user, currentPayer, amount);
    }
  }

  lemma TakeBidsConserves(native: bool, rent: u64, bids: Ledger, lamports: Ledger, recipient: Address, payer: Address)
    requires BidWallet in bids && TakeBids(native, rent, bids, lamports, recipient, payer).Success?
    ensures var r := TakeBids(native, rent, bids, lamports, recipient, payer).value;
            && (!native ==> Sum(r.0) == Sum(bids) && r.0.Keys == bids.Keys && r.1 == lamports)
            && (native ==> r.0 == bids - {BidWallet} && Sum(r.0) + Sum(r.1) == Sum(bids) + Sum(lamports) + rent)
  {
    if native {
      var unwrapped := Credit(lamports, Authority, rent + bids[BidWallet]).value;
      CreditAdds(lamports, Authority, rent + bids[BidWallet]);
      MoveConserves(unwrapped, Authority, recipient, bids[BidWallet]);
      MoveConserves(Pay(unwrapped, Authority, recipient, bids[BidWallet]).value, Authority, payer, rent);
      SumRemove(bids, BidWallet);
    } else {
      TransferEffect(bids, BidWallet, recipient, bids[BidWallet]);
    }
  }

  lemma CloseBidWalletConserves(native: bool, rent: u64, bids: Ledger, lamports: Ledger, payer: Address)
    requires CloseBidWallet(native, rent, bids, lamports, payer).Success?
    ensures var r := CloseBidWallet(native, rent, bids, lamports, payer).value;
            && r.0 == bids - {BidWallet}
            && (!native ==> Sum(r.0) == Sum(bids))
            && Sum(r.0) + Sum(r.1) == Sum(bids) + Sum(lamports) + (if BidWallet in bids then rent else 0)
  {
    if BidWallet in bids {
      CreditAdds(lamports, payer, rent + (if native then bids[BidWallet] else 0));
      SumRemove(bids, BidWallet);
    } else {
      assert bids - {BidWallet} == bids;
    }
  }

  lemma CloseAllConserves(s: Sale)
    requires OfferWallet in s.offers && CloseAll(s).Success?
    ensures Conserved(s, CloseAll(s).value)
  {
    TransferEffect(s.offers, OfferWallet, s.round.returnWallet, s.offers[OfferWallet]);
    var offers := Transfer(s.offers, OfferWallet, s.round.returnWallet, s.offers[OfferWallet]).value;
    SumRemove(offers, OfferWallet);
    CreditAdds(s.lamports, Key(s.round.payer), s.walletRent);
    var refunded := Credit(s.lamports, Key(s.round.payer), s.walletRent).value;
    CloseBidWalletConserves(s.native, s.walletRent, s.bids, refunded, Key(s.round.payer));
  }

  lemma VoucherStepConserves(s: Sale, op: Op)
    requires op.ContributeBid? || op.WithdrawBid? || op.RejectUserBid? || op.RedeemVoucher? || op.RecordOffchain?
    requires Apply(s, op).Success?
    ensures Conserved(s, Apply(s, op).value)
  {
    match op
    case ContributeBid(user, payer, from, delegated) =>
      ContributeEffect(s, user, payer, from, delegated);
      TransferEffect(s.bids, from, BidWallet, delegated.value);
    case WithdrawBid(user, currentPayer, _) => ReturnBidConserves(s, user, currentPayer);
    case RejectUserBid(user, currentPayer) => ReturnBidConserves(s, user, currentPayer);
    case RedeemVoucher(user, wallet) =>
      TransferEffect(s.offers, OfferWallet, wallet, RedeemAmount(s.round, s.vouchers[user].amountContributed).value);
    case RecordOffchain(_, _, _) =>
  }

  lemma EndingStepConserves(s: Sale, op: Op)
    requires op.AcceptBids? || op.RejectBids? || op.FinishReconciling? || op.CancelRound? || op.CloseRound?
    requires Apply(s, op).Success?
    ensures Conserved(s, Apply(s, op).value)
  {
    match op
    case AcceptBids(payer, _) =>
      TakeBidsConserves(s.native, s.walletRent, s.bids, s.lamports, s.round.recipient, payer);
    case RejectBids => TransferEffect(s.offers, OfferWallet, s.round.returnWallet, s.offers[OfferWallet]);
    case FinishReconciling =>
    case CancelRound => CloseAllConserves(s);
    case CloseRound => CloseAllConserves(s);
  }

  lemma StepConserves(s: Sale, op: Op)
    requires !op.Outsiders?
    ensures Conserved(s, Step(s, op)) && Step(s, op).native == s.native
  {
    if Apply(s, op).Success? && !op.TimePasses? {
      match op
      case ContributeBid(_, _, _, _) => VoucherStepConserves(s, op);
      case WithdrawBid(_, _, _) => VoucherStepConserves(s, op);
      case RejectUserBid(_, _) => VoucherStepConserves(s, op);
      case RedeemVoucher(_, _) => VoucherStepConserves(s, op);
      case RecordOffchain(_, _, _) => VoucherStepConserves(s, op);
      case _ => EndingStepConserves(s, op);
    }
  }

  /** Whatever the instructions do, without outsiders every token and lamport stays accounted for. */
  lemma {:induction false} RunConserves(s: Sale, ops: seq<Op>)
    requires forall i :: 0 <= i < |ops| ==> !ops[i].Outsiders?
    ensures Conserved(s, Run(s, ops)) && Run(s, ops).native == s.native
  {
    if ops != [] {
      var last := |ops| - 1;
      RunConserves(s, ops[..last]);
      StepConserves(Run(s, ops[..last]), ops[last]);
    }
  }
}
