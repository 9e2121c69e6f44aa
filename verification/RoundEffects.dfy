/**
 What every instruction of the round does to every account, and exactly when it goes through: who pays, who is paid,
 and what stays as it was.
 */
module RoundEffects {
  import opened Wrappers
  import opened MachineInts
  import opened Sums
  import opened RoundState
  import opened RoundSteps
  import opened RoundInvariant
  import opened RoundClosing
  import opened RoundProgress

  /** The same wallets, with `amount` moved from one to the other. */
  ghost predicate Moved(before: Ledger, from: Address, to: Address, amount: nat, after: Ledger) {
    && after.Keys == before.Keys
    && (forall a :: Balance(after, a) == Balance(before, a)
                      - (if a == from then amount else 0) + (if a == to then amount else 0))
  }

  lemma TransferMoves(wallets: Ledger, from: Address, to: Address, amount: u64)
    requires Transfer(wallets, from, to, amount).Success?
    ensures Moved(wallets, from, to, amount, Transfer(wallets, from, to, amount).value)
  {
    TransferEffect(wallets, from, to, amount);
    MoveConserves(wallets, from, to, amount);
  }

  // ---------------------------------------------------------------- creating

  /**
   A round is created exactly with an offer in the return wallet, none of its wallets there yet and an interval to bid
   in. The offer then is in the offer wallet, the bid wallet is open and empty, and nothing has been bid.
   */
  lemma CreateSucceedsIff(round: Round, delegated: Option<u64>, bids: Ledger, offers: Ledger, lamports: Ledger,
                          now: i64, native: bool, walletRent: u64)
    requires Sum(offers) <= U64_MAX
    ensures var r := CreateRound(round, delegated, bids, offers, lamports, now, native, walletRent);
            && (r.Success? <==>
                  && round.returnWallet in offers && OfferWallet !in offers && BidWallet !in bids && Authority !in bids
                  && delegated.Some? && 0 < delegated.value <= offers[round.returnWallet]
                  && round.biddingStart < round.biddingEnd)
            && (r.Success? ==>
                  && r.value == Sale(round.(status := Pending, vouchersCount := 0, totalBid := None,
                                            totalOffer := delegated),
                                     true, map[], map[], bids[BidWallet := 0], r.value.offers, lamports, now, native,
                                     walletRent)
                  && Moved(offers[OfferWallet := 0], round.returnWallet, OfferWallet, delegated.value, r.value.offers))
  {
    if OfferWallet !in offers && delegated.Some? {
      SumUpdate(offers, OfferWallet, 0);
      TransferSucceedsIff(offers[OfferWallet := 0], round.returnWallet, OfferWallet, delegated.value);
      if Transfer(offers[OfferWallet := 0], round.returnWallet, OfferWallet, delegated.value).Success? {
        TransferMoves(offers[OfferWallet := 0], round.returnWallet, OfferWallet, delegated.value);
      }
    }
  }

  // ---------------------------------------------------------------- bidding

  ghost function ContributedBy(s: Sale, user: Pubkey): nat {
    if user in s.vouchers then s.vouchers[user].amountContributed else 0
  }

  /** Who gets the voucher's rent back: whoever contributed first for the user. */
  ghost function VoucherPayer(s: Sale, user: Pubkey, payer: Pubkey): Pubkey {
    if user in s.vouchers then s.vouchers[user].payer else payer
  }

  /** The tokens are in the bid wallet, the voucher has grown and counts once. */
  ghost predicate Contributed(s: Sale, user: Pubkey, payer: Pubkey, from: Address, amount: u64, t: Sale) {
    && Moved(s.bids, from, BidWallet, amount, t.bids)
    && ContributedBy(s, user) + amount <= U64_MAX
    && t.vouchers == s.vouchers[user := Voucher(VoucherPayer(s, user, payer), ContributedBy(s, user) + amount)]
    && t.round == s.round.(vouchersCount := t.round.vouchersCount)
    && t.round.vouchersCount == s.round.vouchersCount + (if user in s.vouchers then 0 else 1)
    && t == s.(bids := t.bids, vouchers := t.vouchers, round := t.round)
  }

  /** A contribution goes through exactly from the start to the end of bidding, of delegated tokens that are there. */
  lemma ContributeSucceedsIff(s: Sale, user: Pubkey, payer: Pubkey, from: Address, delegated: Option<u64>)
    requires Sum(s.bids) <= U64_MAX
    ensures Contribute(s, user, payer, from, delegated).Success? <==>
              && s.live && BidWallet in s.bids && from in s.bids && from != BidWallet
              && s.round.biddingStart <= s.now <= s.round.biddingEnd
              && delegated.Some? && 0 < delegated.value <= s.bids[from]
              && ContributedBy(s, user) + delegated.value <= U64_MAX
              && (user in s.vouchers || s.round.vouchersCount < U64_MAX)
    ensures Contribute(s, user, payer, from, delegated).Success? ==>
              Contributed(s, user, payer, from, delegated.value, Contribute(s, user, payer, from, delegated).value)
  {
    if delegated.Some? {
      TransferSucceedsIff(s.bids, from, BidWallet, delegated.value);
      if Contribute(s, user, payer, from, delegated).Success? {
        TransferMoves(s.bids, from, BidWallet, delegated.value);
      }
    }
  }

  /** The bid is back with its user and the voucher is gone. */
  ghost predicate BidReturned(s: Sale, user: Pubkey, t: Sale) {
    && user in s.vouchers && 0 < s.round.vouchersCount
    && Refunded(s.native, s.bids, s.lamports, user, s.vouchers[user].amountContributed, t.bids, t.lamports)
    && t == s.(bids := t.bids, lamports := t.lamports, vouchers := s.vouchers - {user},
               round := s.round.(vouchersCount := s.round.vouchersCount - 1))
  }

  lemma ReturnBidSucceedsIff(s: Sale, donated: nat, user: Pubkey, currentPayer: Pubkey)
    requires Inv(s) && Solvent(s, donated) && s.live && Undecided(s.round.status) && user in s.vouchers
    requires Sum(s.bids) + Sum(s.lamports) <= U64_MAX
    ensures ReturnBid(s, user, currentPayer).Success? <==>
              CanBePaid(s.native, s.walletRent, s.bids, s.lamports, user, currentPayer)
    ensures ReturnBid(s, user, currentPayer).Success? ==> BidReturned(s, user, ReturnBid(s, user, currentPayer).value)
  {
    var amount := s.vouchers[user].amountContributed;
    assert Amounts(s.vouchers)[user] == amount;
    SumHasTerm(Amounts(s.vouchers), user);
    CountOneLess(s.round.vouchersCount, s.vouchers, s.offchain, user);
    if CanBePaid(s.native, s.walletRent, s.bids, s.lamports, user, currentPayer) {
      RefundSucceeds(s.native, s.walletRent, s.bids, s.lamports, user, currentPayer, amount);
    } else if Refund(s.native, s.walletRent, s.bids, s.lamports, user, currentPayer, amount).Success? {
      RefundNeedsPayment(s.native, s.walletRent, s.bids, s.lamports, user, currentPayer, amount);
    }
    if ReturnBid(s, user, currentPayer).Success? {
      ReturnBidEffect(s, user, currentPayer);
    }
  }

  /** When bids can be taken back, by the user or, after the end of bidding, by anybody for the user. */
  predicate WithdrawalsOpen(r: Round, now: i64, signed: bool) {
    && r.biddingStart <= now && (signed || r.biddingEnd <= now)
    && (r.status == Rejected || (r.status == Pending && (now <= r.biddingEnd || TimedOut(r, now))))
  }

  /** A bid is taken back exactly while withdrawals are open and there is somewhere to pay to. */
  lemma RefundSucceedsIff(s: Sale, donated: nat, user: Pubkey, currentPayer: Pubkey, signed: bool)
    requires Inv(s) && Solvent(s, donated) && Sum(s.bids) + Sum(s.lamports) <= U64_MAX
    ensures Withdraw(s, user, currentPayer, signed).Success? <==>
              && s.live && user in s.vouchers && WithdrawalsOpen(s.round, s.now, signed)
              && CanBePaid(s.native, s.walletRent, s.bids, s.lamports, user, currentPayer)
    ensures Withdraw(s, user, currentPayer, signed).Success? ==>
              BidReturned(s, user, Withdraw(s, user, currentPayer, signed).value)
  {
    WithdrawWindow(s.round, s.now, signed);
    if s.live && user in s.vouchers && WithdrawalsOpen(s.round, s.now, signed) {
      ReturnBidSucceedsIff(s, donated, user, currentPayer);
    }
  }

  // ---------------------------------------------------------------- the heir's decision

  /** The heir's seven days: a pending round from the end of bidding on, as long as the clock can count them. */
  predicate HeirMayDecide(r: Round, now: i64) {
    && r.status == Pending && r.biddingEnd <= now && !TimedOut(r, now)
    && r.biddingEnd + WITHDRAWAL_ENABLED_AFTER_INACTIVITY_TIMEOUT <= I64_MAX
  }

  lemma HeirWindow(r: Round, now: i64)
    ensures AssertCanAcceptOrReject(r, now).Passed? <==> HeirMayDecide(r, now)
    ensures AssertCanRejectBid(r, now).Passed? <==> HeirMayDecide(r, now)
  {
  }

  /** The heir turns a single bid down exactly in that window, when there is somewhere to pay to. */
  lemma RejectBidSucceedsIff(s: Sale, donated: nat, user: Pubkey, currentPayer: Pubkey)
    requires Inv(s) && Solvent(s, donated) && Sum(s.bids) + Sum(s.lamports) <= U64_MAX
    ensures RejectBid(s, user, currentPayer).Success? <==>
              && s.live && user in s.vouchers && HeirMayDecide(s.round, s.now)
              && CanBePaid(s.native, s.walletRent, s.bids, s.lamports, user, currentPayer)
    ensures RejectBid(s, user, currentPayer).Success? ==> BidReturned(s, user, RejectBid(s, user, currentPayer).value)
  {
    HeirWindow(s.round, s.now);
    if s.live && user in s.vouchers && HeirMayDecide(s.round, s.now) {
      ReturnBidSucceedsIff(s, donated, user, currentPayer);
    }
  }

  /** The recipient gained the balance and the payer the rent; they may be the same. */
  ghost predicate PaidOut(before: Ledger, recipient: Address, balance: nat, payer: Address, rent: nat, after: Ledger) {
    forall a :: Balance(after, a) == Balance(before, a)
                  + (if a == recipient then balance else 0) + (if a == payer then rent else 0)
  }

  /** All bids are the recipient's: as lamports, with the wallet's rent for the payer, or as tokens. */
  ghost predicate BidsHandedOver(s: Sale, payer: Address, t: Sale) {
    && BidWallet in s.bids
    && (s.native ==>
          && t.bids == s.bids - {BidWallet}
          && PaidOut(s.lamports, s.round.recipient, s.bids[BidWallet], payer, s.walletRent, t.lamports))
    && (!s.native ==>
          && t.lamports == s.lamports
          && Moved(s.bids, BidWallet, s.round.recipient, s.bids[BidWallet], t.bids))
  }

  lemma CreditEffect(lamports: Ledger, to: Address, amount: nat)
    requires Credit(lamports, to, amount).Success?
    ensures var after := Credit(lamports, to, amount).value;
            && (forall a :: Balance(after, a) == Balance(lamports, a) + (if a == to then amount else 0))
            && Sum(after) == Sum(lamports) + amount
  {
    SumWithBalance(lamports, to, Balance(lamports, to) + amount);
  }

  ghost predicate LamportsMoved(before: Ledger, from: Address, to: Address, amount: nat, after: Ledger) {
    && Sum(after) == Sum(before)
    && (forall a :: Balance(after, a) == Balance(before, a)
                      - (if a == from then amount else 0) + (if a == to then amount else 0))
  }

  lemma PayEffect(lamports: Ledger, from: Address, to: Address, amount: u64)
    requires Sum(lamports) <= U64_MAX && amount <= Balance(lamports, from)
    ensures Pay(lamports, from, to, amount).Success?
    ensures LamportsMoved(lamports, from, to, amount, Pay(lamports, from, to, amount).value)
  {
    MoveSucceeds(lamports, from, to, amount);
    MoveConserves(lamports, from, to, amount);
  }

  lemma CreditSucceeds(lamports: Ledger, to: Address, amount: nat)
    requires Sum(lamports) + amount <= U64_MAX
    ensures Credit(lamports, to, amount).Success?
  {
    SumWithBalance(lamports, to, 0);
  }

  /** The closed wallet's lamports pass through the authority's account. */
  function PassedThrough(lamports: Ledger, recipient: Address, balance: u64, payer: Address, rent: u64)
    : Result<Ledger, Error>
  {
    var unwrapped :- Credit(lamports, Authority, rent + balance);
    var sent :- Pay(unwrapped, Authority, recipient, balance);
    Pay(sent, Authority, payer, rent)
  }

  lemma PassedThroughIsPaidOut(lamports: Ledger, recipient: Address, balance: u64, payer: Address, rent: u64)
    requires Sum(lamports) + balance + rent <= U64_MAX
    ensures PassedThrough(lamports, recipient, balance, payer, rent).Success?
    ensures PaidOut(lamports, recipient, balance, payer, rent,
                    PassedThrough(lamports, recipient, balance, payer, rent).value)
  {
    CreditSucceeds(lamports, Authority, rent + balance);
    CreditEffect(lamports, Authority, rent + balance);
    var unwrapped := Credit(lamports, Authority, rent + balance).value;
    PayEffect(unwrapped, Authority, recipient, balance);
    var sent := Pay(unwrapped, Authority, recipient, balance).value;
    PayEffect(sent, Authority, payer, rent);
    PassedOn(lamports, unwrapped, sent, Pay(sent, Authority, payer, rent).value, recipient, balance, payer, rent);
  }

  lemma PassedOn(before: Ledger, unwrapped: Ledger, sent: Ledger, after: Ledger, recipient: Address, balance: nat,
                 payer: Address, rent: nat)
    requires forall a :: Balance(unwrapped, a) == Balance(before, a) + (if a == Authority then rent + balance else 0)
    requires LamportsMoved(unwrapped, Authority, recipient, balance, sent)
    requires LamportsMoved(sent, Authority, payer, rent, after)
    ensures PaidOut(before, recipient, balance, payer, rent, after)
  {
    forall a
      ensures Balance(after, a) == Balance(before, a)
                + (if a == recipient then balance else 0) + (if a == payer then rent else 0)
    {
      assert Balance(sent, a) - Balance(unwrapped, a)
          == (if a == recipient then balance else 0) - (if a == Authority then balance else 0);
    }
  }

  lemma NativeBidsShape(rent: u64, bids: Ledger, lamports: Ledger, recipient: Address, payer: Address)
    requires BidWallet in bids
    ensures TakeBids(true, rent, bids, lamports, recipient, payer)
         == (match PassedThrough(lamports, recipient, bids[BidWallet], payer, rent)
             case Success(after) => Success((bids - {BidWallet}, after))
             case Failure(e) => Failure(e))
  {
  }

  lemma NativeBidsTaken(rent: u64, bids: Ledger, lamports: Ledger, recipient: Address, payer: Address)
    requires BidWallet in bids && Sum(lamports) + bids[BidWallet] + rent <= U64_MAX
    ensures var r := TakeBids(true, rent, bids, lamports, recipient, payer);
            && r.Success? && r.value.0 == bids - {BidWallet}
            && PaidOut(lamports, recipient, bids[BidWallet], payer, rent, r.value.1)
  {
    NativeBidsShape(rent, bids, lamports, recipient, payer);
    PassedThroughIsPaidOut(lamports, recipient, bids[BidWallet], payer, rent);
  }

  lemma TokenBidsTaken(rent: u64, bids: Ledger, lamports: Ledger, recipient: Address, payer: Address)
    requires BidWallet in bids && Sum(bids) <= U64_MAX
    ensures var r := TakeBids(false, rent, bids, lamports, recipient, payer);
            && (r.Success? <==> recipient in bids)
            && (r.Success? ==> Moved(bids, BidWallet, recipient, bids[BidWallet], r.value.0) && r.value.1 == lamports)
  {
    TransferSucceedsIff(bids, BidWallet, recipient, bids[BidWallet]);
    if recipient in bids {
      TransferMoves(bids, BidWallet, recipient, bids[BidWallet]);
    }
  }

  lemma TakeBidsSucceedsIff(s: Sale, payer: Address)
    requires BidWallet in s.bids && Sum(s.bids) + Sum(s.lamports) + s.walletRent <= U64_MAX
    ensures var r := TakeBids(s.native, s.walletRent, s.bids, s.lamports, s.round.recipient, payer);
            && (r.Success? <==> s.native || s.round.recipient in s.bids)
            && (r.Success? ==> BidsHandedOver(s, payer, s.(bids := r.value.0, lamports := r.value.1)))
  {
    SumHasTerm(s.bids, BidWallet);
    if s.native {
      NativeBidsTaken(s.walletRent, s.bids, s.lamports, s.round.recipient, payer);
    } else {
      TokenBidsTaken(s.walletRent, s.bids, s.lamports, s.round.recipient, payer);
    }
  }

  /**
   The heir accepts exactly in that window, with both wallets there and, unless the bids are wrapped SOL, a wallet of
   the recipient. All bids are then the recipient's, both totals are on record, and the round is accepted, or under
   reconciliation if asked for.
   */
  lemma AcceptSucceedsIff(s: Sale, payer: Address, reconcile: bool)
    requires Sum(s.bids) + Sum(s.lamports) + s.walletRent <= U64_MAX
    ensures Accept(s, payer, reconcile).Success? <==>
              && s.live && BidWallet in s.bids && OfferWallet in s.offers && HeirMayDecide(s.round, s.now)
              && (s.native || s.round.recipient in s.bids)
    ensures Accept(s, payer, reconcile).Success? ==>
              var t := Accept(s, payer, reconcile).value;
              && BidsHandedOver(s, payer, t)
              && t == s.(bids := t.bids, lamports := t.lamports, round := t.round)
              && t.round == s.round.(status := t.round.status, totalBid := Some(s.bids[BidWallet]),
                                     totalOffer := Some(s.offers[OfferWallet]))
              && t.round.status == (if reconcile then Reconciliation else Accepted)
  {
    HeirWindow(s.round, s.now);
    if BidWallet in s.bids {
      TakeBidsSucceedsIff(s, payer);
    }
  }

  /** The heir rejects exactly in that window, with both offer wallets there; the whole offer is home at once. */
  lemma RejectSucceedsIff(s: Sale)
    requires Sum(s.offers) <= U64_MAX
    ensures Reject(s).Success? <==>
              && s.live && OfferWallet in s.offers && s.round.returnWallet in s.offers && HeirMayDecide(s.round, s.now)
    ensures Reject(s).Success? ==>
              var t := Reject(s).value;
              && Moved(s.offers, OfferWallet, s.round.returnWallet, s.offers[OfferWallet], t.offers)
              && (s.round.returnWallet != OfferWallet ==> t.offers[OfferWallet] == 0)
              && t == s.(offers := t.offers, round := s.round.(status := Rejected))
  {
    HeirWindow(s.round, s.now);
    if OfferWallet in s.offers {
      TransferSucceedsIff(s.offers, OfferWallet, s.round.returnWallet, s.offers[OfferWallet]);
      if s.round.returnWallet in s.offers {
        TransferMoves(s.offers, OfferWallet, s.round.returnWallet, s.offers[OfferWallet]);
      }
    }
  }

  // ---------------------------------------------------------------- reconciliation and redemption

  /** Off-chain contributions are recorded only while reconciling, once per user; the first one counts. */
  lemma RecordSucceedsIff(s: Sale, user: Pubkey, payer: Pubkey, amount: u64)
    ensures RecordOffchainContribution(s, user, payer, amount).Success? <==>
              && s.live && s.round.status == Reconciliation
              && (user in s.offchain || s.round.vouchersCount < U64_MAX)
    ensures RecordOffchainContribution(s, user, payer, amount).Success? ==>
              var t := RecordOffchainContribution(s, user, payer, amount).value;
              if user in s.offchain then t == s
              else
                && s.round.vouchersCount < U64_MAX
                && t == s.(offchain := s.offchain[user := Voucher(payer, amount)],
                           round := s.round.(vouchersCount := s.round.vouchersCount + 1))
  {
  }

  /** Finishing turns a reconciliation into an acceptance, and nothing else can be finished. */
  lemma FinishSucceedsIff(s: Sale)
    ensures FinishReconciliation(s).Success? <==> s.live && s.round.status == Reconciliation
    ensures FinishReconciliation(s).Success? ==>
              var t := FinishReconciliation(s).value;
              t.round.status == Accepted && t == s.(round := s.round.(status := Accepted))
  {
  }

  /** Vouchers are redeemed only once the round is accepted, reconciliation included. */
  lemma RedeemNeedsAcceptance(s: Sale, user: Pubkey, wallet: Address)
    requires Redeem(s, user, wallet).Success?
    ensures s.live && s.round.status == Accepted && user in s.vouchers && OfferWallet in s.offers && wallet in s.offers
    ensures var t := Redeem(s, user, wallet).value;
            && t.offers.Keys == s.offers.Keys && OfferWallet in t.offers
            && (forall a :: a != OfferWallet && a != wallet ==> Balance(t.offers, a) == Balance(s.offers, a))
            && Balance(t.offers, OfferWallet) + Balance(t.offers, wallet)
               == Balance(s.offers, OfferWallet) + Balance(s.offers, wallet)
  {
    TransferMoves(s.offers, OfferWallet, wallet, RedeemAmount(s.round, s.vouchers[user].amountContributed).value);
  }

  // ---------------------------------------------------------------- the end

  /** What ending a round pays its payer: the rents of the wallets closed, and the wrapped SOL left over. */
  ghost function EndingPays(s: Sale): nat {
    s.walletRent
    + (if BidWallet in s.bids then s.walletRent + (if s.native then s.bids[BidWallet] else 0) else 0)
  }

  /** The offer is home, both wallets are gone, their lamports are the payer's, and nothing else changed. */
  ghost predicate Ended(s: Sale, t: Sale) {
    && OfferWallet in s.offers && s.round.returnWallet in s.offers
    && t.offers.Keys == s.offers.Keys - {OfferWallet}
    && (forall a :: a in t.offers.Keys ==>
          Balance(t.offers, a) == Balance(s.offers, a)
                                  + (if a == s.round.returnWallet then s.offers[OfferWallet] else 0))
    && t.bids == s.bids - {BidWallet}
    && (forall a :: Balance(t.lamports, a) == Balance(s.lamports, a)
                      + (if a == Key(s.round.payer) then EndingPays(s) else 0))
    && t == s.(live := false, offers := t.offers, bids := t.bids, lamports := t.lamports)
  }

  lemma CloseBidWalletEffect(native: bool, rent: u64, bids: Ledger, lamports: Ledger, payer: Address)
    requires CloseBidWallet(native, rent, bids, lamports, payer).Success?
    ensures var r, more := CloseBidWallet(native, rent, bids, lamports, payer).value,
                           if BidWallet in bids then rent + (if native then bids[BidWallet] else 0) else 0;
            && r.0 == bids - {BidWallet}
            && (forall a :: Balance(r.1, a) == Balance(lamports, a) + (if a == payer then more else 0))
  {
    if BidWallet in bids {
      CreditEffect(lamports, payer, rent + (if native then bids[BidWallet] else 0));
    } else {
      assert bids - {BidWallet} == bids;
    }
  }

  lemma ReturnedOfferEffect(s: Sale)
    requires OfferWallet in s.offers && s.round.returnWallet != OfferWallet && ReturnedOffer(s).Success?
    ensures var (offers, lamports) := ReturnedOffer(s).value;
            && s.round.returnWallet in s.offers && offers.Keys == s.offers.Keys - {OfferWallet}
            && (forall a :: a in offers.Keys ==>
                  Balance(offers, a) == Balance(s.offers, a)
                                        + (if a == s.round.returnWallet then s.offers[OfferWallet] else 0))
            && (forall a :: Balance(lamports, a) == Balance(s.lamports, a)
                              + (if a == Key(s.round.payer) then s.walletRent else 0))
  {
    TransferMoves(s.offers, OfferWallet, s.round.returnWallet, s.offers[OfferWallet]);
    CreditEffect(s.lamports, Key(s.round.payer), s.walletRent);
    var moved := Transfer(s.offers, OfferWallet, s.round.returnWallet, s.offers[OfferWallet]).value;
    forall a | a in ReturnedOffer(s).value.0.Keys
      ensures Balance(ReturnedOffer(s).value.0, a) == Balance(moved, a)
    {
    }
  }

  lemma CloseAllEnds(s: Sale)
    requires OfferWallet in s.offers && s.round.returnWallet != OfferWallet && CloseAll(s).Success?
    ensures Ended(s, CloseAll(s).value)
  {
    ReturnedOfferEffect(s);
    CloseBidWalletEffect(s.native, s.walletRent, s.bids, ReturnedOffer(s).value.1, Key(s.round.payer));
  }

  /** Closing and cancelling end a round alike, the one after the decision, the other before bidding has started. */
  lemma EndingEffect(s: Sale)
    requires s.round.returnWallet != OfferWallet
    ensures Close(s).Success? ==>
              s.live && s.round.vouchersCount == 0 && MayEnd(s.round, s.now) && Ended(s, Close(s).value)
    ensures Cancel(s).Success? ==>
              s.live && s.round.vouchersCount == 0 && s.now <= s.round.biddingStart && Ended(s, Cancel(s).value)
  {
    if OfferWallet in s.offers && CloseAll(s).Success? {
      CloseAllEnds(s);
    }
  }

  // ---------------------------------------------------------------- refusals

  /** With all accounts there, a contribution is refused outside the bidding interval, then without an amount. */
  lemma ContributeRefusals(s: Sale, user: Pubkey, payer: Pubkey, from: Address, delegated: Option<u64>)
    requires s.live && BidWallet in s.bids && from in s.bids
    ensures var r := Contribute(s, user, payer, from, delegated);
            && (s.now < s.round.biddingStart ==> r == Failure(BiddingNotStarted))
            && (s.round.biddingStart <= s.now && s.round.biddingEnd < s.now ==> r == Failure(BiddingEnded))
            && (s.round.biddingStart <= s.now <= s.round.biddingEnd && (delegated.None? || delegated.value == 0) ==>
                  r == Failure(NoDelegatedAmount))
  {
  }

  /** What the heir is told outside the window: decided already, too late, or too early. */
  lemma DecisionRefusals(s: Sale, payer: Address, reconcile: bool)
    requires s.live && BidWallet in s.bids && OfferWallet in s.offers && s.round.returnWallet in s.offers
    requires s.round.biddingEnd + WITHDRAWAL_ENABLED_AFTER_INACTIVITY_TIMEOUT <= I64_MAX
    ensures var accepted, rejected := Accept(s, payer, reconcile), Reject(s);
            && (s.round.status != Pending ==>
                  accepted == Failure(OfferIsNotPending) && rejected == Failure(OfferIsNotPending))
            && (s.round.status == Pending && TimedOut(s.round, s.now) ==>
                  accepted == Failure(OfferTimedOut) && rejected == Failure(OfferTimedOut))
            && (s.round.status == Pending && s.now < s.round.biddingEnd ==>
                  accepted == Failure(BiddingStillGoing) && rejected == Failure(BiddingStillGoing))
  {
  }

  /** Why a bid cannot be taken back: bidding has not begun, it is the heir's turn, or the user has not signed. */
  lemma WithdrawRefusals(s: Sale, user: Pubkey, currentPayer: Pubkey, signed: bool)
    requires s.live && user in s.vouchers && BidWallet in s.bids && s.round.biddingStart < s.round.biddingEnd
    ensures var r := Withdraw(s, user, currentPayer, signed);
            && (s.now < s.round.biddingStart ==> r == Failure(BiddingNotStarted))
            && (s.round.biddingEnd < s.now && HeirMayDecide(s.round, s.now) ==>
                  r == Failure(InactivityTimeoutHasNotPassed))
            && (s.round.biddingStart <= s.now < s.round.biddingEnd && Undecided(s.round.status) && !signed ==>
                  r == Failure(CantWithdrawWithoutUserSignature))
  {
  }

  /** Why a round cannot end, and why a voucher cannot be redeemed. */
  lemma EndingRefusals(s: Sale, user: Pubkey, wallet: Address)
    requires s.live && OfferWallet in s.offers && s.round.returnWallet in s.offers && BidWallet in s.bids
    ensures 0 < s.round.vouchersCount ==> Close(s) == Failure(VouchersNotWithdrawn)
    ensures s.round.vouchersCount == 0 && s.round.status == Reconciliation ==>
              Close(s) == Failure(CantCloseDuringReconciliation)
    ensures s.round.vouchersCount == 0 && (s.round.status == Pending && !TimedOut(s.round, s.now))
            && s.round.biddingEnd + WITHDRAWAL_ENABLED_AFTER_INACTIVITY_TIMEOUT <= I64_MAX ==>
              Close(s) == Failure(CantCloseBeforeHeirTimeout)
    ensures s.round.biddingStart < s.now ==> Cancel(s) == Failure(CantCancelStartedRound)
    ensures user in s.vouchers && wallet in s.offers && s.round.status != Accepted ==>
              Redeem(s, user, wallet) == Failure(CantRedeemNotAcceptedRound)
  {
  }
}
