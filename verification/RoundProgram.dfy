/**
 The instructions of the sale round as they run, updating the accounts in place in the order of the source. Each
 one is proved to do exactly what its transition function says, including which error it returns; what a failed
 instruction has already written is undone by the runtime, in `Process`.
 */
module RoundProgram {
  import opened Wrappers
  import opened MachineInts
  import opened Sums
  import opened RoundState
  import opened RoundSteps
  import opened RoundInvariant

  class SaleRound {
    const recipient: Address
    const payer: Pubkey
    const biddingStart: i64
    const biddingEnd: i64
    const targetBid: u64
    const returnWallet: Address
    const native: bool
    const walletRent: u64

    // the round account
    var status: Status
    var vouchersCount: u64
    var totalBid: Option<u64>
    var totalOffer: Option<u64>
    var live: bool

    // the other accounts and the clock
    var vouchers: map<Pubkey, Voucher>
    var offchain: map<Pubkey, Voucher>
    var bids: Ledger
    var offers: Ledger
    var lamports: Ledger
    var now: i64

    function Account(): Round
      reads this
    {
      Round(status, recipient, payer, vouchersCount, biddingStart, biddingEnd, totalBid, totalOffer, targetBid,
            returnWallet)
    }

    ghost function View(): Sale
      reads this
    {
      Sale(Account(), live, vouchers, offchain, bids, offers, lamports, now, native, walletRent)
    }

    /** The handler behaved as `expected` says; a failed one may leave anything behind. */
    ghost predicate Did(expected: Result<Sale, Error>, r: Result<(), Error>)
      reads this
    {
      match expected
      case Success(after) => r == Success(()) && View() == after
      case Failure(e) => r == Failure(e)
    }

    constructor (terms: Round, offerAmount: u64, bids: Ledger, offers: Ledger, lamports: Ledger,
                 now: i64, native: bool, walletRent: u64)
      ensures View() == Sale(terms.(status := Pending, vouchersCount := 0, totalBid := None,
                                    totalOffer := Some(offerAmount)),
                             true, map[], map[], bids, offers, lamports, now, native, walletRent)
    {
      recipient, payer, returnWallet := terms.recipient, terms.payer, terms.returnWallet;
      biddingStart, biddingEnd, targetBid := terms.biddingStart, terms.biddingEnd, terms.targetBid;
      this.native, this.walletRent, this.now := native, walletRent, now;
      status, vouchersCount, totalBid, totalOffer, live := Pending, 0, None, Some(offerAmount), true;
      vouchers, offchain := map[], map[];
      this.bids, this.offers, this.lamports := bids, offers, lamports;
    }

    static method Create(terms: Round, delegated: Option<u64>, bids: Ledger, offers: Ledger, lamports: Ledger,
                         now: i64, native: bool, walletRent: u64)
      returns (r: Result<SaleRound, Error>)
      ensures match CreateRound(terms, delegated, bids, offers, lamports, now, native, walletRent)
              case Failure(e) => r == Failure(e)
              case Success(s) => r.Success? && fresh(r.value) && r.value.View() == s && Inv(s) && Solvent(s, 0)
    {
      if terms.returnWallet !in offers || OfferWallet in offers || BidWallet in bids || Authority in bids {
        return Failure(AccountMissing);
      }
      if delegated.None? || delegated.value == 0 {
        return Failure(NoDelegatedAmount);
      }
      if terms.biddingStart >= terms.biddingEnd {
        return Failure(SuspiciousOfferInterval);
      }
      var funded :- Transfer(offers[OfferWallet := 0], terms.returnWallet, OfferWallet, delegated.value);
      var round :=
        new SaleRound(terms, delegated.value, bids[BidWallet := 0], funded, lamports, now, native, walletRent);
      CreatedInv(terms, delegated, bids, offers, lamports, now, native, walletRent);
      return Success(round);
    }

    /** The clock moves on between instructions. */
    method PassTime(until: i64)
      requires now <= until
      modifies this
      ensures View() == Step(old(View()), TimePasses(until))
    {
      now := until;
    }

    // -------------------------------------------------------------- bidding

    method Contribute(user: Pubkey, contributor: Pubkey, from: Address, delegated: Option<u64>)
      returns (r: Result<(), Error>)
      modifies this
      ensures Did(RoundSteps.Contribute(old(View()), user, contributor, from, delegated), r)
    {
      if !live || BidWallet !in bids || from !in bids {
        return Failure(AccountMissing);
      }
      :- AssertCanContribute(Account(), now);
      if from == BidWallet || delegated.None? || delegated.value == 0 {
        return Failure(NoDelegatedAmount);
      }
      var paid :- Transfer(bids, from, BidWallet, delegated.value);
      bids := paid;
      r := AddToVoucher(user, contributor, delegated.value);
    }

    /** Adds to the user's voucher, which is recorded and counted the first time. */
    method AddToVoucher(user: Pubkey, contributor: Pubkey, amount: u64) returns (r: Result<(), Error>)
      modifies this
      ensures var s := old(View());
              var before := if user in s.vouchers then s.vouchers[user] else Voucher(contributor, 0);
              var more := if user in s.vouchers then 0 else 1;
              if before.amountContributed + amount > U64_MAX || s.round.vouchersCount + more > U64_MAX then
                r == Failure(Overflow)
              else
                && r == Success(())
                && var total: u64 := before.amountContributed + amount;
                && View() == s.(vouchers := s.vouchers[user := before.(amountContributed := total)],
                                round := s.round.(vouchersCount := s.round.vouchersCount + more))
    {
      var known := user in vouchers;
      var voucher := if known then vouchers[user] else Voucher(contributor, 0);
      var total :- ToU64(voucher.amountContributed + amount).OkOr(Overflow);
      vouchers := vouchers[user := voucher.(amountContributed := total)];
      if known {
        return Success(());
      }
      var count :- ToU64(vouchersCount + 1).OkOr(Overflow);
      vouchersCount := count;
      return Success(());
    }

    /** Creates the temporary wallet; an address that holds lamports cannot be created. */
    method OpenTemporary(currentPayer: Pubkey) returns (r: Result<(), Error>)
      modifies this
      ensures var rented := Pay(old(lamports), Key(currentPayer), Authority, walletRent);
              if Balance(old(lamports), Authority) != 0 || Authority in old(bids) || rented.Failure? then
                r == Failure(TransferFailed)
              else
                r == Success(())
                && View() == old(View()).(lamports := rented.value[Authority := 0], bids := old(bids)[Authority := 0])
    {
      if Balance(lamports, Authority) != 0 || Authority in bids {
        return Failure(TransferFailed);
      }
      var rented :- Pay(lamports, Key(currentPayer), Authority, walletRent);
      lamports, bids := rented[Authority := 0], bids[Authority := 0];
      return Success(());
    }

    /** The temporary wallet for wrapped SOL: opened, filled, and closed to the current payer. */
    method Unwrap(currentPayer: Pubkey, amount: u64) returns (r: Result<(), Error>)
      modifies this
      ensures match Unwrapped(walletRent, old(bids), old(lamports), currentPayer, amount)
              case Success(after) => Did(Success(old(View()).(bids := after.0, lamports := after.1)), r)
              case Failure(e) => r == Failure(e)
    {
      var _ :- OpenTemporary(currentPayer);
      var moved :- Transfer(bids, BidWallet, Authority, amount);
      bids := moved;
      var closed :- Credit(lamports, Key(currentPayer), walletRent + bids[Authority]);
      bids, lamports := bids - {Authority}, closed;
      return Success(());
    }

    /** `refund_bid_to_recipient`: straight to the user's wallet, or unwrapped to the current payer, who pays. */
    method RefundBid(user: Pubkey, currentPayer: Pubkey, amount: u64) returns (r: Result<(), Error>)
      modifies this
      ensures match Refund(native, walletRent, old(bids), old(lamports), user, currentPayer, amount)
              case Success(after) => Did(Success(old(View()).(bids := after.0, lamports := after.1)), r)
              case Failure(e) => r == Failure(e)
    {
      if !native {
        var paid :- Transfer(bids, BidWallet, AssociatedWallet(user), amount);
        bids := paid;
        return Success(());
      }
      var _ :- Unwrap(currentPayer, amount);
      var paid :- Pay(lamports, Key(currentPayer), Key(user), amount);
      lamports := paid;
      return Success(());
    }

    /** The common part of `withdraw` and `reject_bid`: the refund, the counter, and the voucher on the way out. */
    method GiveBack(user: Pubkey, currentPayer: Pubkey) returns (r: Result<(), Error>)
      requires user in vouchers
      modifies this
      ensures Did(ReturnBid(old(View()), user, currentPayer), r)
    {
      var _ :- RefundBid(user, currentPayer, vouchers[user].amountContributed);
      var count :- ToU64(vouchersCount - 1).OkOr(Overflow);
      vouchersCount := count;
      vouchers := vouchers - {user};
      return Success(());
    }

    method Withdraw(user: Pubkey, currentPayer: Pubkey, signed: bool) returns (r: Result<(), Error>)
      modifies this
      ensures Did(RoundSteps.Withdraw(old(View()), user, currentPayer, signed), r)
    {
      if !live || user !in vouchers || BidWallet !in bids {
        return Failure(AccountMissing);
      }
      :- AssertCanWithdraw(Account(), now, signed);
      r := GiveBack(user, currentPayer);
    }

    method RejectBid(user: Pubkey, currentPayer: Pubkey) returns (r: Result<(), Error>)
      modifies this
      ensures Did(RoundSteps.RejectBid(old(View()), user, currentPayer), r)
    {
      if !live || user !in vouchers || BidWallet !in bids {
        return Failure(AccountMissing);
      }
      :- AssertCanRejectBid(Account(), now);
      r := GiveBack(user, currentPayer);
    }

    // -------------------------------------------------------------- the heir's decision

    /** `transfer_bid_to_recipient` */
    method SendBids(rentPayer: Address) returns (r: Result<(), Error>)
      requires BidWallet in bids
      modifies this
      ensures match TakeBids(native, walletRent, old(bids), old(lamports), recipient, rentPayer)
              case Success(after) => Did(Success(old(View()).(bids := after.0, lamports := after.1)), r)
              case Failure(e) => r == Failure(e)
    {
      var balance := bids[BidWallet];
      if native {
        var unwrapped :- Credit(lamports, Authority, walletRent + balance);
        bids, lamports := bids - {BidWallet}, unwrapped;
        var sent :- Pay(lamports, Authority, recipient, balance);
        lamports := sent;
        var refunded :- Pay(lamports, Authority, rentPayer, walletRent);
        lamports := refunded;
        return Success(());
      }
      var sent :- Transfer(bids, BidWallet, recipient, balance);
      bids := sent;
      return Success(());
    }

    /** Records both balances, then hands over the bids, then decides. */
    method Accept(rentPayer: Address, reconcile: bool) returns (r: Result<(), Error>)
      modifies this
      ensures Did(RoundSteps.Accept(old(View()), rentPayer, reconcile), r)
    {
      if !live || BidWallet !in bids || OfferWallet !in offers {
        return Failure(AccountMissing);
      }
      :- AssertCanAcceptOrReject(Account(), now);
      totalBid := Some(bids[BidWallet]);
      totalOffer := Some(offers[OfferWallet]);
      var _ :- SendBids(rentPayer);
      status := if reconcile then Reconciliation else Accepted;
      return Success(());
    }

    method RecordOffchainContribution(user: Pubkey, contributor: Pubkey, amount: u64) returns (r: Result<(), Error>)
      modifies this
      ensures Did(RoundSteps.RecordOffchainContribution(old(View()), user, contributor, amount), r)
    {
      if !live {
        return Failure(AccountMissing);
      }
      :- AssertReconciliation(Account());
      if user in offchain {
        return Success(());
      }
      offchain := offchain[user := Voucher(contributor, amount)];
      var count :- ToU64(vouchersCount + 1).OkOr(Overflow);
      vouchersCount := count;
      return Success(());
    }

    method FinishReconciliation() returns (r: Result<(), Error>)
      modifies this
      ensures Did(RoundSteps.FinishReconciliation(old(View())), r)
    {
      if !live {
        return Failure(AccountMissing);
      }
      :- AssertReconciliation(Account());
      status := Accepted;
      return Success(());
    }

    /** Decides, then sends the offer back. */
    method Reject() returns (r: Result<(), Error>)
      modifies this
      ensures Did(RoundSteps.Reject(old(View())), r)
    {
      if !live || OfferWallet !in offers || returnWallet !in offers {
        return Failure(AccountMissing);
      }
      :- AssertCanAcceptOrReject(Account(), now);
      status := Rejected;
      var home :- Transfer(offers, OfferWallet, returnWallet, offers[OfferWallet]);
      offers := home;
      return Success(());
    }

    // -------------------------------------------------------------- redemption and the end

    method Redeem(user: Pubkey, wallet: Address) returns (r: Result<(), Error>)
      modifies this
      ensures Did(RoundSteps.Redeem(old(View()), user, wallet), r)
    {
      if !live || user !in vouchers || wallet !in offers || OfferWallet !in offers {
        return Failure(AccountMissing);
      }
      :- AssertCanRedeem(Account());
      var amount :- RedeemAmount(Account(), vouchers[user].amountContributed);
      var count :- ToU64(vouchersCount - 1).OkOr(Overflow);
      vouchersCount := count;
      var paid :- Transfer(offers, OfferWallet, wallet, amount);
      offers := paid;
      vouchers := vouchers - {user};
      return Success(());
    }

    /** Closing the offer wallet after its balance went home. */
    method ReturnOffer() returns (r: Result<(), Error>)
      requires OfferWallet in offers
      modifies this
      ensures match ReturnedOffer(old(View()))
              case Success(after) => Did(Success(old(View()).(offers := after.0, lamports := after.1)), r)
              case Failure(e) => r == Failure(e)
    {
      var home :- Transfer(offers, OfferWallet, returnWallet, offers[OfferWallet]);
      offers := home;
      if offers[OfferWallet] != 0 {
        return Failure(TransferFailed);
      }
      var refunded :- Credit(lamports, Key(payer), walletRent);
      offers, lamports := offers - {OfferWallet}, refunded;
      return Success(());
    }

    /** Closing the bid wallet if it still exists. */
    method CloseBid() returns (r: Result<(), Error>)
      modifies this
      ensures match CloseBidWallet(native, walletRent, old(bids), old(lamports), Key(payer))
              case Success(after) => Did(Success(old(View()).(bids := after.0, lamports := after.1)), r)
              case Failure(e) => r == Failure(e)
    {
      if BidWallet !in bids {
        return Success(());
      }
      if !native && bids[BidWallet] != 0 {
        return Failure(TransferFailed);
      }
      var refunded :- Credit(lamports, Key(payer), walletRent + (if native then bids[BidWallet] else 0));
      bids, lamports := bids - {BidWallet}, refunded;
      return Success(());
    }

    /** The offer goes home and both wallets are closed; the common part of `cancel` and `close`. */
    method CloseWallets() returns (r: Result<(), Error>)
      requires OfferWallet in offers
      modifies this
      ensures Did(CloseAll(old(View())), r)
    {
      var _ :- ReturnOffer();
      var _ :- CloseBid();
      live := false;
      return Success(());
    }

    method Cancel() returns (r: Result<(), Error>)
      modifies this
      ensures Did(RoundSteps.Cancel(old(View())), r)
    {
      if !live || returnWallet !in offers || OfferWallet !in offers || BidWallet !in bids {
        return Failure(AccountMissing);
      }
      :- AssertCanCancel(Account(), now);
      if vouchersCount != 0 {
        return Failure(Panic);
      }
      r := CloseWallets();
    }

    method Close() returns (r: Result<(), Error>)
      modifies this
      ensures Did(RoundSteps.Close(old(View())), r)
    {
      if !live || returnWallet !in offers || OfferWallet !in offers {
        return Failure(AccountMissing);
      }
      :- AssertCanClose(Account(), now);
      r := CloseWallets();
    }

    // -------------------------------------------------------------- the runtime

    method Dispatch(op: Op) returns (r: Result<(), Error>)
      requires !op.TimePasses? && !op.Outsiders?
      modifies this
      ensures Did(Apply(old(View()), op), r)
    {
      match op
      case ContributeBid(user, contributor, from, delegated) => r := Contribute(user, contributor, from, delegated);
      case WithdrawBid(user, currentPayer, signed) => r := Withdraw(user, currentPayer, signed);
      case RejectUserBid(user, currentPayer) => r := RejectBid(user, currentPayer);
      case AcceptBids(rentPayer, reconcile) => r := Accept(rentPayer, reconcile);
      case RecordOffchain(user, contributor, amount) => r := RecordOffchainContribution(user, contributor, amount);
      case FinishReconciling => r := FinishReconciliation();
      case RejectBids => r := Reject();
      case RedeemVoucher(user, wallet) => r := Redeem(user, wallet);
      case CancelRound => r := Cancel();
      case CloseRound => r := Close();
    }

    /** Puts everything an instruction may write back to earlier values. */
    method Restore(account: Round, wasLive: bool, notes: map<Pubkey, Voucher>, offchainNotes: map<Pubkey, Voucher>,
                   bidding: Ledger, offering: Ledger, money: Ledger, time: i64)
      modifies this
      ensures View() == Sale(old(Account()).(status := account.status, vouchersCount := account.vouchersCount,
                                             totalBid := account.totalBid, totalOffer := account.totalOffer),
                             wasLive, notes, offchainNotes, bidding, offering, money, time, native, walletRent)
    {
      status, vouchersCount, live := account.status, account.vouchersCount, wasLive;
      totalBid, totalOffer := account.totalBid, account.totalOffer;
      vouchers, offchain := notes, offchainNotes;
      bids, offers, lamports, now := bidding, offering, money, time;
    }

    /** One instruction as a transaction: whatever a failed one has already written is rolled back. */
    method Process(op: Op) returns (r: Result<(), Error>)
      requires !op.TimePasses? && !op.Outsiders?
      modifies this
      ensures View() == Step(old(View()), op)
      ensures r == (match Apply(old(View()), op)
                    case Success(_) => Success(())
                    case Failure(e) => Failure(e))
    {
      var account, wasLive := Account(), live;
      var notes, offchainNotes := vouchers, offchain;
      var bidding, offering, money := bids, offers, lamports;
      var time := now;
      r := Dispatch(op);
      if r.Failure? {
        Restore(account, wasLive, notes, offchainNotes, bidding, offering, money, time);
      }
    }
  }
}
