/**
 The instructions of the sale round as functions on the accounts they touch (round/src/lib.rs).
 An instruction that fails leaves every account as it was, so a failure carries no state.
 */
module RoundSteps {
  import opened Wrappers
  import opened MachineInts
  import opened Sums
  import opened RoundState

  /** Token wallets of one mint, or lamports: what each address holds. A wallet exists when it has an entry. */
  type Ledger = map<Address, u64>

  /**
   One round with all its vouchers. In `lamports` a token wallet counts only for what it holds beyond its
   rent and its wrapped tokens; `native` says that the bid mint is wrapped SOL.
   */
  datatype Sale = Sale(
    round: Round,
    live: bool,
    vouchers: map<Pubkey, Voucher>,
    offchain: map<Pubkey, Voucher>,
    bids: Ledger,
    offers: Ledger,
    lamports: Ledger,
    now: i64,
    native: bool,
    walletRent: u64)

  // ---------------------------------------------------------------- token and system program

  /** A token transfer between two existing wallets. */
  function Transfer(wallets: Ledger, from: Address, to: Address, amount: u64): Result<Ledger, Error> {
    if from !in wallets || to !in wallets then Failure(TransferFailed)
    else
      Move(wallets, from, to, amount).OkOr(TransferFailed)
  }

  function Pay(lamports: Ledger, from: Address, to: Address, amount: u64): Result<Ledger, Error> {
    Move(lamports, from, to, amount).OkOr(TransferFailed)
  }

  /** Lamports released by closing a wallet. */
  function Credit(lamports: Ledger, to: Address, amount: nat): Result<Ledger, Error> {
    var grown :- ToU64(Balance(lamports, to) + amount).OkOr(TransferFailed);
    Success(lamports[to := grown])
  }

  // ---------------------------------------------------------------- bidding

  function CreateRound(round: Round, delegated: Option<u64>, bids: Ledger, offers: Ledger, lamports: Ledger,
                       now: i64, native: bool, walletRent: u64): Result<Sale, Error>
  {
    if round.returnWallet !in offers || OfferWallet in offers then Failure(AccountMissing)
    else
      :- Need(BidWallet !in bids && Authority !in bids, AccountMissing);
      :- Need(delegated.Some? && delegated.value != 0, NoDelegatedAmount);
      :- Need(round.biddingStart < round.biddingEnd, SuspiciousOfferInterval);
      var funded :- Transfer(offers[OfferWallet := 0], round.returnWallet, OfferWallet, delegated.value);
      var created := round.(status := Pending, vouchersCount := 0, totalBid := None, totalOffer := delegated);
      Success(Sale(created, true, map[], map[], bids[BidWallet := 0], funded, lamports, now, native, walletRent))
  }

  /** Adds a bid to the user's voucher, opening it the first time. */
  function Contribute(s: Sale, user: Pubkey, payer: Pubkey, from: Address,
                      delegated: Option<u64>): Result<Sale, Error> {
    if !s.live || BidWallet !in s.bids || from !in s.bids then Failure(AccountMissing)
    else
      :- AssertCanContribute(s.round, s.now);
      // nobody can spend from the round's own wallet
      :- Need(from != BidWallet && delegated.Some? && delegated.value != 0, NoDelegatedAmount);
      var bids :- Transfer(s.bids, from, BidWallet, delegated.value);
      var before := if user in s.vouchers then s.vouchers[user] else Voucher(payer, 0);
      var amount :- ToU64(before.amountContributed + delegated.value).OkOr(Overflow);
      var vouchers := s.vouchers[user := before.(amountContributed := amount)];
      if user in s.vouchers then Success(s.(bids := bids, vouchers := vouchers))
      else
        var count :- ToU64(s.round.vouchersCount + 1).OkOr(Overflow);
        Success(s.(bids := bids, vouchers := vouchers, round := s.round.(vouchersCount := count)))
  }

  /**
   Unwraps SOL through a temporary wallet at the authority's address: the current payer opens it for its rent, it
   is filled from the bid wallet, and closing it sends all of it to the current payer.
   */
  function Unwrapped(rent: u64, bids: Ledger, lamports: Ledger, currentPayer: Pubkey, amount: u64)
    : Result<(Ledger, Ledger), Error>
  {
    if Balance(lamports, Authority) != 0 || Authority in bids then Failure(TransferFailed)
    else
      var rented :- Pay(lamports, Key(currentPayer), Authority, rent);
      var moved :- Transfer(bids[Authority := 0], BidWallet, Authority, amount);
      var closed :- Credit(rented[Authority := 0], Key(currentPayer), rent + moved[Authority]);
      Success((moved - {Authority}, closed))
  }

  /**
   Pays a bid back. Tokens go to the user's associated wallet; wrapped SOL is unwrapped to the current payer, who
   then pays the user.
   */
  function Refund(native: bool, rent: u64, bids: Ledger, lamports: Ledger, user: Pubkey, currentPayer: Pubkey,
                  amount: u64): Result<(Ledger, Ledger), Error>
  {
    if !native then
      var paid :- Transfer(bids, BidWallet, AssociatedWallet(user), amount);
      Success((paid, lamports))
    else
      var (left, closed) :- Unwrapped(rent, bids, lamports, currentPayer, amount);
      var paid :- Pay(closed, Key(currentPayer), Key(user), amount);
      Success((left, paid))
  }

  /** The common part of `withdraw` and `reject_bid`: the voucher is refunded in full and closed. */
  function ReturnBid(s: Sale, user: Pubkey, currentPayer: Pubkey): Result<Sale, Error>
    requires user in s.vouchers
  {
    var amount := s.vouchers[user].amountContributed;
    var (bids, lamports) :- Refund(s.native, s.walletRent, s.bids, s.lamports, user, currentPayer, amount);
    var count :- ToU64(s.round.vouchersCount - 1).OkOr(Overflow);
    Success(s.(bids := bids, lamports := lamports, vouchers := s.vouchers - {user},
               round := s.round.(vouchersCount := count)))
  }

  function Withdraw(s: Sale, user: Pubkey, currentPayer: Pubkey, signed: bool): Result<Sale, Error> {
    if !s.live || user !in s.vouchers || BidWallet !in s.bids then Failure(AccountMissing)
    else
      :- AssertCanWithdraw(s.round, s.now, signed);
      ReturnBid(s, user, currentPayer)
  }

  function RejectBid(s: Sale, user: Pubkey, currentPayer: Pubkey): Result<Sale, Error> {
    if !s.live || user !in s.vouchers || BidWallet !in s.bids then Failure(AccountMissing)
    else
      :- AssertCanRejectBid(s.round, s.now);
      ReturnBid(s, user, currentPayer)
  }

  // ---------------------------------------------------------------- the heir's decision

  /** Hands all bids to the recipient; wrapped SOL is unwrapped on the way and the wallet's rent refunded. */
  function TakeBids(native: bool, rent: u64, bids: Ledger, lamports: Ledger, recipient: Address, payer: Address)
    : Result<(Ledger, Ledger), Error>
    requires BidWallet in bids
  {
    if native then
      var unwrapped :- Credit(lamports, Authority, rent + bids[BidWallet]);
      var sent :- Pay(unwrapped, Authority, recipient, bids[BidWallet]);
      var refunded :- Pay(sent, Authority, payer, rent);
      Success((bids - {BidWallet}, refunded))
    else
      var sent :- Transfer(bids, BidWallet, recipient, bids[BidWallet]);
      Success((sent, lamports))
  }

  function Accept(s: Sale, payer: Address, reconcile: bool): Result<Sale, Error> {
    if !s.live || BidWallet !in s.bids || OfferWallet !in s.offers then Failure(AccountMissing)
    else
      :- AssertCanAcceptOrReject(s.round, s.now);
      var (bids, lamports) :- TakeBids(s.native, s.walletRent, s.bids, s.lamports, s.round.recipient, payer);
      Success(s.(bids := bids, lamports := lamports,
                 round := s.round.(totalBid := Some(s.bids[BidWallet]), totalOffer := Some(s.offers[OfferWallet]),
                                   status := if reconcile then Reconciliation else Accepted)))
  }

  /** Counts an off-chain contribution, once per user. */
  function RecordOffchainContribution(s: Sale, user: Pubkey, payer: Pubkey, amount: u64): Result<Sale, Error> {
    if !s.live then Failure(AccountMissing)
    else
      :- AssertReconciliation(s.round);
      if user in s.offchain then Success(s)
      else
        var count :- ToU64(s.round.vouchersCount + 1).OkOr(Overflow);
        Success(s.(offchain := s.offchain[user := Voucher(payer, amount)], round := s.round.(vouchersCount := count)))
  }

  function FinishReconciliation(s: Sale): Result<Sale, Error> {
    if !s.live then Failure(AccountMissing)
    else
      :- AssertReconciliation(s.round);
      Success(s.(round := s.round.(status := Accepted)))
  }

  function Reject(s: Sale): Result<Sale, Error> {
    if !s.live || OfferWallet !in s.offers || s.round.returnWallet !in s.offers then Failure(AccountMissing)
    else
      :- AssertCanAcceptOrReject(s.round, s.now);
      var offers :- Transfer(s.offers, OfferWallet, s.round.returnWallet, s.offers[OfferWallet]);
      Success(s.(offers := offers, round := s.round.(status := Rejected)))
  }

  // ---------------------------------------------------------------- redemption and the end

  function RedeemAmount(r: Round, bid: u64): Result<u64, Error> {
    if r.totalBid.None? || r.totalOffer.None? then Failure(Panic)
    else
      var target := if r.targetBid != 0 then r.targetBid else r.totalBid.value;
      CalculateRedeemAmount(target, r.totalBid.value, bid, r.totalOffer.value).OkOr(Overflow)
  }

  function Redeem(s: Sale, user: Pubkey, wallet: Address): Result<Sale, Error> {
    if !s.live || user !in s.vouchers || wallet !in s.offers || OfferWallet !in s.offers then Failure(AccountMissing)
    else
      :- AssertCanRedeem(s.round);
      var amount :- RedeemAmount(s.round, s.vouchers[user].amountContributed);
      var count :- ToU64(s.round.vouchersCount - 1).OkOr(Overflow);
      var offers :- Transfer(s.offers, OfferWallet, wallet, amount);
      Success(s.(offers := offers, vouchers := s.vouchers - {user}, round := s.round.(vouchersCount := count)))
  }

  /** Closing the bid wallet: only wrapped SOL may still be in it, and goes to `payer` with the rent. */
  function CloseBidWallet(native: bool, rent: u64, bids: Ledger, lamports: Ledger, payer: Address)
    : Result<(Ledger, Ledger), Error>
  {
    if BidWallet !in bids then Success((bids, lamports))
    else
      :- Need(native || bids[BidWallet] == 0, TransferFailed);
      var paid :- Credit(lamports, payer, rent + (if native then bids[BidWallet] else 0));
      Success((bids - {BidWallet}, paid))
  }

  /** Sends the whole offer back and closes its wallet. */
  function ReturnedOffer(s: Sale): Result<(Ledger, Ledger), Error>
    requires OfferWallet in s.offers
  {
    var offers :- Transfer(s.offers, OfferWallet, s.round.returnWallet, s.offers[OfferWallet]);
    :- Need(offers[OfferWallet] == 0, TransferFailed);
    var refunded :- Credit(s.lamports, Key(s.round.payer), s.walletRent);
    Success((offers - {OfferWallet}, refunded))
  }

  /** Closes both wallets and the round. */
  function CloseAll(s: Sale): Result<Sale, Error>
    requires OfferWallet in s.offers
  {
    var (offers, refunded) :- ReturnedOffer(s);
    var (bids, lamports) :- CloseBidWallet(s.native, s.walletRent, s.bids, refunded, Key(s.round.payer));
    Success(s.(live := false, offers := offers, bids := bids, lamports := lamports))
  }

  function Cancel(s: Sale): Result<Sale, Error> {
    if !s.live || s.round.returnWallet !in s.offers || OfferWallet !in s.offers || BidWallet !in s.bids then
      Failure(AccountMissing)
    else
      :- AssertCanCancel(s.round, s.now);
      :- Need(s.round.vouchersCount == 0, Panic);
      CloseAll(s)
  }

  function Close(s: Sale): Result<Sale, Error> {
    if !s.live || s.round.returnWallet !in s.offers || OfferWallet !in s.offers then Failure(AccountMissing)
    else
      :- AssertCanClose(s.round, s.now);
      CloseAll(s)
  }

  // ---------------------------------------------------------------- all steps

  /** Every instruction, the passing of time, and what outsiders can do to the accounts involved. */
  datatype Op =
    | ContributeBid(user: Pubkey, payer: Pubkey, from: Address, delegated: Option<u64>)
    | WithdrawBid(user: Pubkey, currentPayer: Pubkey, signed: bool)
    | RejectUserBid(user: Pubkey, currentPayer: Pubkey)
    | AcceptBids(rentPayer: Address, reconcile: bool)
    | RecordOffchain(user: Pubkey, payer: Pubkey, amount: u64)
    | FinishReconciling
    | RejectBids
    | RedeemVoucher(user: Pubkey, wallet: Address)
    | CancelRound
    | CloseRound
    | TimePasses(until: i64)
    | Outsiders(bids: Ledger, offers: Ledger, lamports: Ledger)

  /** Others move tokens and lamports as they like, but can only add to what the round owns. */
  function OutsideChange(s: Sale, bids: Ledger, offers: Ledger, lamports: Ledger): Result<Sale, Error> {
    if (BidWallet in bids) != (BidWallet in s.bids) || Balance(bids, BidWallet) < Balance(s.bids, BidWallet) then
      Failure(TransferFailed)
    else
      :- Need(OfferWallet in offers <==> OfferWallet in s.offers, TransferFailed);
      :- Need(Balance(s.offers, OfferWallet) <= Balance(offers, OfferWallet), TransferFailed);
      :- Need(Authority !in bids && Balance(s.lamports, Authority) <= Balance(lamports, Authority), TransferFailed);
      Success(s.(bids := bids, offers := offers, lamports := lamports))
  }

  function Apply(s: Sale, op: Op): Result<Sale, Error> {
    match op
    case ContributeBid(user, payer, from, delegated) => Contribute(s, user, payer, from, delegated)
    case WithdrawBid(user, currentPayer, signed) => Withdraw(s, user, currentPayer, signed)
    case RejectUserBid(user, currentPayer) => RejectBid(s, user, currentPayer)
    case AcceptBids(rentPayer, reconcile) => Accept(s, rentPayer, reconcile)
    case RecordOffchain(user, payer, amount) => RecordOffchainContribution(s, user, payer, amount)
    case FinishReconciling => FinishReconciliation(s)
    case RejectBids => Reject(s)
    case RedeemVoucher(user, wallet) => Redeem(s, user, wallet)
    case CancelRound => Cancel(s)
    case CloseRound => Close(s)
    case TimePasses(until) =>
      :- Need(s.now <= until, Panic);
      Success(s.(now := until))
    case Outsiders(bids, offers, lamports) => OutsideChange(s, bids, offers, lamports)
  }

  /** A failed step changes nothing. */
  function Step(s: Sale, op: Op): Sale {
    match Apply(s, op)
    case Success(after) => after
    case Failure(_) => s
  }

  function Run(s: Sale, ops: seq<Op>): Sale {
    if ops == [] then s else Step(Run(s, ops[..|ops| - 1]), ops[|ops| - 1])
  }

  /** No step of the run fails. */
  ghost predicate AllSucceed(s: Sale, ops: seq<Op>) {
    ops == [] ||
    (var last := |ops| - 1;
     AllSucceed(s, ops[..last]) && Apply(Run(s, ops[..last]), ops[last]).Success?)
  }
}
