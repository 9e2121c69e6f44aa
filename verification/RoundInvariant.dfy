/** What every reachable state of a sale round satisfies: counting, phases, and to the last token what it holds. */
module RoundInvariant {
  import opened Wrappers
  import opened MachineInts
  import opened Sums
  import opened RoundState
  import opened RoundSteps

  ghost function Amounts(vouchers: map<Pubkey, Voucher>): map<Pubkey, nat> {
    map u | u in vouchers :: vouchers[u].amountContributed
  }

  /** What the live vouchers have contributed together. */
  ghost function Contributions(vouchers: map<Pubkey, Voucher>): nat {
    Sum(Amounts(vouchers))
  }

  predicate Undecided(status: Status) {
    status == Pending || status == Rejected
  }

  ghost predicate Counted(count: nat, vouchers: map<Pubkey, Voucher>, offchain: map<Pubkey, Voucher>) {
    count == |vouchers.Keys| + |offchain.Keys|
  }

  /** Which parts of the round go with which status. */
  ghost predicate Phased(r: Round, now: i64, offchain: map<Pubkey, Voucher>) {
    && r.biddingStart < r.biddingEnd
    && r.returnWallet != OfferWallet
    && (Undecided(r.status) ==> offchain.Keys == {})
    && (!Undecided(r.status) ==> r.totalBid.Some? && r.totalOffer.Some?)
    && (r.status != Pending ==> r.biddingEnd <= now)
  }

  /** Which wallets exist: both until the end, except that accepting a native round closes its bid wallet. */
  ghost predicate WalletsOpen(live: bool, status: Status, native: bool, bids: Ledger, offers: Ledger) {
    && Authority !in bids
    && (live <==> OfferWallet in offers)
    && (live && (Undecided(status) || !native) ==> BidWallet in bids)
    && (!live ==> BidWallet !in bids)
  }

  ghost predicate Inv(s: Sale) {
    && Counted(s.round.vouchersCount, s.vouchers, s.offchain)
    && Phased(s.round, s.now, s.offchain)
    && WalletsOpen(s.live, s.round.status, s.native, s.bids, s.offers)
    && (!s.live ==> s.round.vouchersCount == 0)
  }

  /** Until the heir accepts, the bid wallet holds the contributions and whatever was donated to it. */
  ghost predicate Solvent(s: Sale, donated: nat) {
    s.live && Undecided(s.round.status) ==>
      BidWallet in s.bids && s.bids[BidWallet] == Contributions(s.vouchers) + donated
  }

  // ---------------------------------------------------------------- vouchers and wallets

  lemma ContributionsUpdate(vouchers: map<Pubkey, Voucher>, u: Pubkey, v: Voucher)
    ensures Contributions(vouchers[u := v])
         == Contributions(vouchers) - (if u in vouchers then vouchers[u].amountContributed else 0) + v.amountContributed
  {
    assert Amounts(vouchers[u := v]) == Amounts(vouchers)[u := v.amountContributed];
    SumUpdate(Amounts(vouchers), u, v.amountContributed);
  }

  lemma ContributionsRemove(vouchers: map<Pubkey, Voucher>, u: Pubkey)
    requires u in vouchers
    ensures Contributions(vouchers - {u}) == Contributions(vouchers) - vouchers[u].amountContributed
  {
    assert Amounts(vouchers - {u}) == Amounts(vouchers) - {u};
    SumRemove(Amounts(vouchers), u);
  }

  lemma CountOneLess(count: nat, vouchers: map<Pubkey, Voucher>, offchain: map<Pubkey, Voucher>, u: Pubkey)
    requires Counted(count, vouchers, offchain) && u in vouchers
    ensures 0 < count && Counted(count - 1, vouchers - {u}, offchain)
  {
    assert vouchers.Keys == (vouchers - {u}).Keys + {u};
  }

  lemma CountOneMore(vouchers: map<Pubkey, Voucher>, u: Pubkey, v: Voucher)
    ensures |vouchers[u := v].Keys| == |vouchers.Keys| + (if u in vouchers then 0 else 1)
  {
    assert vouchers[u := v].Keys == vouchers.Keys + {u};
  }

  /** A token transfer opens and closes no wallet, conserves the total and touches only its two ends. */
  lemma TransferEffect(wallets: Ledger, from: Address, to: Address, amount: u64)
    requires Transfer(wallets, from, to, amount).Success?
    ensures var after := Transfer(wallets, from, to, amount).value;
            && after.Keys == wallets.Keys && from in wallets && to in wallets
            && Sum(after) == Sum(wallets)
            && after[from] == wallets[from] - (if from == to then 0 else amount)
            && after[to] == wallets[to] + (if from == to then 0 else amount)
            && (forall a :: a in wallets && a != from && a != to ==> after[a] == wallets[a])
  {
    MoveConserves(wallets, from, to, amount);
    var after := Transfer(wallets, from, to, amount).value;
    assert after.Keys == wallets.Keys;
    forall a | a in wallets && a != from && a != to
      ensures after[a] == wallets[a]
    {
      assert Balance(after, a) == Balance(wallets, a);
    }
  }

  /** Transfers out of a wallet with a supply that fits 64 bits fail only for lack of tokens. */
  lemma TransferSucceedsIff(wallets: Ledger, from: Address, to: Address, amount: u64)
    requires Sum(wallets) <= U64_MAX
    ensures Transfer(wallets, from, to, amount).Success? <==>
              from in wallets && to in wallets && amount <= wallets[from]
  {
    if from in wallets && to in wallets && amount <= wallets[from] {
      MoveSucceeds(wallets, from, to, amount);
    }
  }

  // ---------------------------------------------------------------- refunds

  /**
   Both ways of refunding take exactly the bid out of the bid wallet and give exactly that to the user: as
   tokens, or as lamports with the temporary wallet gone and the current payer paid back in full.
   */
  ghost predicate Refunded(native: bool, bids: Ledger, lamports: Ledger, user: Pubkey, amount: u64,
                           bidsAfter: Ledger, lamportsAfter: Ledger)
  {
    && BidWallet in bids && bidsAfter.Keys == bids.Keys
    && bidsAfter[BidWallet] == bids[BidWallet] - amount
    && (native ==>
          && (forall a :: a in bids && a != BidWallet ==> bidsAfter[a] == bids[a])
          && Balance(lamportsAfter, Key(user)) == Balance(lamports, Key(user)) + amount
          && (forall a :: a != Key(user) ==> Balance(lamportsAfter, a) == Balance(lamports, a)))
    && (!native ==>
          && lamportsAfter == lamports
          && AssociatedWallet(user) in bids
          && bidsAfter[AssociatedWallet(user)] == bids[AssociatedWallet(user)] + amount
          && (forall a :: a in bids && a != BidWallet && a != AssociatedWallet(user) ==> bidsAfter[a] == bids[a]))
  }

  lemma TokenRefundEffect(rent: u64, bids: Ledger, lamports: Ledger, user: Pubkey, currentPayer: Pubkey, amount: u64)
    requires Refund(false, rent, bids, lamports, user, currentPayer, amount).Success?
    ensures var r := Refund(false, rent, bids, lamports, user, currentPayer, amount).value;
            Refunded(false, bids, lamports, user, amount, r.0, r.1) && Sum(r.0) == Sum(bids)
  {
    TransferEffect(bids, BidWallet, AssociatedWallet(user), amount);
  }

  /** The temporary wallet ends up with the bid and nothing else. */
  lemma TemporaryWallet(bids: Ledger, amount: u64)
    requires Authority !in bids
    requires Transfer(bids[Authority := 0], BidWallet, Authority, amount).Success?
    ensures var moved := Transfer(bids[Authority := 0], BidWallet, Authority, amount).value;
            && BidWallet in bids && Authority in moved && moved[Authority] == amount
            && (moved - {Authority}).Keys == bids.Keys
            && moved[BidWallet] == bids[BidWallet] - amount
            && (forall a :: a in bids && a != BidWallet ==> (moved - {Authority})[a] == bids[a])
            && Sum(moved - {Authority}) == Sum(bids) - amount
  {
    var widened := bids[Authority := 0];
    TransferEffect(widened, BidWallet, Authority, amount);
    SumUpdate(bids, Authority, 0);
    var moved := Transfer(widened, BidWallet, Authority, amount).value;
    SumRemove(moved, Authority);
    assert (moved - {Authority}).Keys == bids.Keys;
  }

  /** The current payer's lamports between opening the temporary wallet and closing it. */
  function AfterTemporaryWallet(rent: u64, lamports: Ledger, currentPayer: Pubkey, amount: u64): Result<Ledger, Error> {
    var rented :- Pay(lamports, Key(currentPayer), Authority, rent);
    Credit(rented[Authority := 0], Key(currentPayer), rent + amount)
  }

  /** The rent goes out and comes back, with what the temporary wallet held. */
  lemma RentComesBack(rent: u64, lamports: Ledger, currentPayer: Pubkey, amount: u64)
    requires Balance(lamports, Authority) == 0
    requires AfterTemporaryWallet(rent, lamports, currentPayer, amount).Success?
    ensures var closed := AfterTemporaryWallet(rent, lamports, currentPayer, amount).value;
            && (forall a :: Balance(closed, a) == Balance(lamports, a) + (if a == Key(currentPayer) then amount else 0))
            && Sum(closed) == Sum(lamports) + amount
  {
    MoveConserves(lamports, Key(currentPayer), Authority, rent);
    var rented := Pay(lamports, Key(currentPayer), Authority, rent).value;
    SumWithBalance(rented, Authority, 0);
    var emptied := rented[Authority := 0];
    SumWithBalance(emptied, Key(currentPayer), Balance(emptied, Key(currentPayer)) + rent + amount);
  }

  /** The user is paid what the temporary wallet held, whoever the payer in between. */
  lemma UserGetsLamports(rent: u64, lamports: Ledger, user: Pubkey, currentPayer: Pubkey, amount: u64)
    requires Balance(lamports, Authority) == 0
    requires AfterTemporaryWallet(rent, lamports, currentPayer, amount).Success?
    requires var closed := AfterTemporaryWallet(rent, lamports, currentPayer, amount).value;
             Pay(closed, Key(currentPayer), Key(user), amount).Success?
    ensures var closed := AfterTemporaryWallet(rent, lamports, currentPayer, amount).value;
            var paid := Pay(closed, Key(currentPayer), Key(user), amount).value;
            && (forall a :: Balance(paid, a) == Balance(lamports, a) + (if a == Key(user) then amount else 0))
            && Sum(paid) == Sum(lamports) + amount
  {
    RentComesBack(rent, lamports, currentPayer, amount);
    MoveConserves(AfterTemporaryWallet(rent, lamports, currentPayer, amount).value, Key(currentPayer),
                  Key(user), amount);
  }

  /** The wSOL branch, step by step. */
  lemma NativeRefundShape(rent: u64, bids: Ledger, lamports: Ledger, user: Pubkey, currentPayer: Pubkey, amount: u64)
    requires Refund(true, rent, bids, lamports, user, currentPayer, amount).Success?
    ensures Authority !in bids && Balance(lamports, Authority) == 0
    ensures Transfer(bids[Authority := 0], BidWallet, Authority, amount).Success?
    ensures AfterTemporaryWallet(rent, lamports, currentPayer, amount).Success?
    ensures var closed := AfterTemporaryWallet(rent, lamports, currentPayer, amount).value;
            && Pay(closed, Key(currentPayer), Key(user), amount).Success?
            && Refund(true, rent, bids, lamports, user, currentPayer, amount).value
               == (Transfer(bids[Authority := 0], BidWallet, Authority, amount).value - {Authority},
                   Pay(closed, Key(currentPayer), Key(user), amount).value)
  {
    TemporaryWallet(bids, amount);
  }

  lemma NativeRefundEffect(rent: u64, bids: Ledger, lamports: Ledger, user: Pubkey, currentPayer: Pubkey, amount: u64)
    requires Refund(true, rent, bids, lamports, user, currentPayer, amount).Success?
    ensures var r := Refund(true, rent, bids, lamports, user, currentPayer, amount).value;
            && Refunded(true, bids, lamports, user, amount, r.0, r.1)
            && Sum(r.0) + Sum(r.1) == Sum(bids) + Sum(lamports)
  {
    NativeRefundShape(rent, bids, lamports, user, currentPayer, amount);
    TemporaryWallet(bids, amount);
    UserGetsLamports(rent, lamports, user, currentPayer, amount);
  }

  /** Whoever is the current payer, it is net unchanged by a refund (unless it is the user being refunded). */
  lemma RefundEffect(native: bool, rent: u64, bids: Ledger, lamports: Ledger, user: Pubkey,
                     currentPayer: Pubkey, amount: u64)
    requires Refund(native, rent, bids, lamports, user, currentPayer, amount).Success?
    ensures var r := Refund(native, rent, bids, lamports, user, currentPayer, amount).value;
            && Refunded(native, bids, lamports, user, amount, r.0, r.1)
            && (currentPayer != user ==> Balance(r.1, Key(currentPayer)) == Balance(lamports, Key(currentPayer)))
            && Sum(r.0) + Sum(r.1) == Sum(bids) + Sum(lamports)
  {
    if native {
      NativeRefundEffect(rent, bids, lamports, user, currentPayer, amount);
    } else {
      TokenRefundEffect(rent, bids, lamports, user, currentPayer, amount);
    }
  }

  lemma ReturnBidEffect(s: Sale, user: Pubkey, currentPayer: Pubkey)
    requires user in s.vouchers && ReturnBid(s, user, currentPayer).Success?
    ensures var t := ReturnBid(s, user, currentPayer).value;
            && Refunded(s.native, s.bids, s.lamports, user, s.vouchers[user].amountContributed, t.bids, t.lamports)
            && t == s.(bids := t.bids, lamports := t.lamports, vouchers := s.vouchers - {user},
                       round := s.round.(vouchersCount := s.round.vouchersCount - 1))
  {
    RefundEffect(s.native, s.walletRent, s.bids, s.lamports, user, currentPayer, s.vouchers[user].amountContributed);
  }

  // ---------------------------------------------------------------- every step keeps the invariant

  lemma CreatedInv(round: Round, delegated: Option<u64>, bids: Ledger, offers: Ledger, lamports: Ledger,
                   now: i64, native: bool, walletRent: u64)
    requires CreateRound(round, delegated, bids, offers, lamports, now, native, walletRent).Success?
    ensures var s := CreateRound(round, delegated, bids, offers, lamports, now, native, walletRent).value;
            Inv(s) && Solvent(s, 0) && s.round.status == Pending && s.offers[OfferWallet] == delegated.value
  {
    TransferEffect(offers[OfferWallet := 0], round.returnWallet, OfferWallet, delegated.value);
    var s := CreateRound(round, delegated, bids, offers, lamports, now, native, walletRent).value;
    assert Amounts(s.vouchers) == map[];
    assert s.vouchers.Keys == {} && s.offchain.Keys == {};
  }

  /** A contribution moves the delegated amount and adds it to the voucher, which is counted when new. */
  lemma ContributeEffect(s: Sale, user: Pubkey, payer: Pubkey, from: Address, delegated: Option<u64>)
    requires Contribute(s, user, payer, from, delegated).Success?
    ensures var t := Contribute(s, user, payer, from, delegated).value;
            && s.live && from != BidWallet && delegated.Some? && 0 < delegated.value
            && Transfer(s.bids, from, BidWallet, delegated.value) == Success(t.bids)
            && user in t.vouchers && t.vouchers == s.vouchers[user := t.vouchers[user]]
            && t.vouchers[user].amountContributed
               == (if user in s.vouchers then s.vouchers[user].amountContributed else 0) + delegated.value
            && t.round == s.round.(vouchersCount := s.round.vouchersCount + (if user in s.vouchers then 0 else 1))
            && t == s.(bids := t.bids, vouchers := t.vouchers, round := t.round)
  {
  }

  lemma ContributeKeeps(s: Sale, user: Pubkey, payer: Pubkey, from: Address, delegated: Option<u64>, donated: nat)
    requires Inv(s) && Solvent(s, donated) && Contribute(s, user, payer, from, delegated).Success?
    ensures var t := Contribute(s, user, payer, from, delegated).value; Inv(t) && Solvent(t, donated)
  {
    ContributeEffect(s, user, payer, from, delegated);
    var t := Contribute(s, user, payer, from, delegated).value;
    TransferEffect(s.bids, from, BidWallet, delegated.value);
    ContributionsUpdate(s.vouchers, user, t.vouchers[user]);
    CountOneMore(s.vouchers, user, t.vouchers[user]);
    ContributedInv(s, t);
  }

  lemma ContributedInv(s: Sale, t: Sale)
    requires Inv(s) && s.live && t.bids.Keys == s.bids.Keys
    requires t.round == s.round.(vouchersCount := t.round.vouchersCount)
    requires t == s.(bids := t.bids, vouchers := t.vouchers, round := t.round)
    requires t.round.vouchersCount - s.round.vouchersCount == |t.vouchers.Keys| - |s.vouchers.Keys|
    ensures Inv(t)
  {
  }

  lemma ReturnBidKeeps(s: Sale, user: Pubkey, currentPayer: Pubkey, donated: nat)
    requires Inv(s) && Solvent(s, donated) && s.live && user in s.vouchers && ReturnBid(s, user, currentPayer).Success?
    ensures var t := ReturnBid(s, user, currentPayer).value; Inv(t) && Solvent(t, donated)
  {
    ReturnBidEffect(s, user, currentPayer);
    ContributionsRemove(s.vouchers, user);
    CountOneLess(s.round.vouchersCount, s.vouchers, s.offchain, user);
  }

  lemma AcceptKeeps(s: Sale, payer: Address, reconcile: bool)
    requires Inv(s) && Accept(s, payer, reconcile).Success?
    ensures Inv(Accept(s, payer, reconcile).value)
  {
    if !s.native {
      TransferEffect(s.bids, BidWallet, s.round.recipient, s.bids[BidWallet]);
    }
  }

  lemma RecordKeeps(s: Sale, user: Pubkey, payer: Pubkey, amount: u64)
    requires Inv(s) && RecordOffchainContribution(s, user, payer, amount).Success?
    ensures Inv(RecordOffchainContribution(s, user, payer, amount).value)
  {
    CountOneMore(s.offchain, user, Voucher(payer, amount));
  }

  lemma RejectKeeps(s: Sale, donated: nat)
    requires Inv(s) && Solvent(s, donated) && Reject(s).Success?
    ensures Inv(Reject(s).value) && Solvent(Reject(s).value, donated)
  {
    TransferEffect(s.offers, OfferWallet, s.round.returnWallet, s.offers[OfferWallet]);
  }

  lemma RedeemKeeps(s: Sale, user: Pubkey, wallet: Address)
    requires Inv(s) && Redeem(s, user, wallet).Success?
    ensures Inv(Redeem(s, user, wallet).value)
  {
    var amount := RedeemAmount(s.round, s.vouchers[user].amountContributed).value;
    TransferEffect(s.offers, OfferWallet, wallet, amount);
    CountOneLess(s.round.vouchersCount, s.vouchers, s.offchain, user);
  }

  /** Closing sends the offer home, removes both wallets and leaves the rest of the round as it was. */
  lemma CloseAllEffect(s: Sale)
    requires OfferWallet in s.offers && s.round.returnWallet != OfferWallet && CloseAll(s).Success?
    ensures var t := CloseAll(s).value;
            && s.round.returnWallet in t.offers
            && t.offers[s.round.returnWallet] == s.offers[s.round.returnWallet] + s.offers[OfferWallet]
            && OfferWallet !in t.offers && BidWallet !in t.bids
            && t.bids == s.bids - {BidWallet}
            && t == s.(live := false, offers := t.offers, bids := t.bids, lamports := t.lamports)
  {
    TransferEffect(s.offers, OfferWallet, s.round.returnWallet, s.offers[OfferWallet]);
    assert BidWallet !in s.bids ==> s.bids - {BidWallet} == s.bids;
  }

  lemma CloseAllKeeps(s: Sale)
    requires Inv(s) && s.live && s.round.vouchersCount == 0 && CloseAll(s).Success?
    ensures Inv(CloseAll(s).value) && !CloseAll(s).value.live
  {
    CloseAllEffect(s);
  }

  /** Tokens that reach the bid wallet from outside while the round is undecided. */
  ghost function DonatedBy(s: Sale, op: Op): nat {
    if op.Outsiders? && Apply(s, op).Success? then Balance(op.bids, BidWallet) - Balance(s.bids, BidWallet) else 0
  }

  ghost function Donated(s: Sale, ops: seq<Op>): nat {
    if ops == [] then 0
    else
      var last := |ops| - 1;
      Donated(s, ops[..last]) + DonatedBy(Run(s, ops[..last]), ops[last])
  }

  lemma VoucherStepKeeps(s: Sale, op: Op, donated: nat)
    requires op.ContributeBid? || op.WithdrawBid? || op.RejectUserBid? || op.RedeemVoucher? || op.RecordOffchain?
    requires Inv(s) && Solvent(s, donated) && Apply(s, op).Success?
    ensures Inv(Apply(s, op).value) && Solvent(Apply(s, op).value, donated)
  {
    match op
    case ContributeBid(user, payer, from, delegated) => ContributeKeeps(s, user, payer, from, delegated, donated);
    case WithdrawBid(user, currentPayer, signed) => ReturnBidKeeps(s, user, currentPayer, donated);
    case RejectUserBid(user, currentPayer) => ReturnBidKeeps(s, user, currentPayer, donated);
    case RedeemVoucher(user, wallet) => RedeemKeeps(s, user, wallet);
    case RecordOffchain(user, payer, amount) => RecordKeeps(s, user, payer, amount);
  }

  lemma EndingStepKeeps(s: Sale, op: Op, donated: nat)
    requires op.AcceptBids? || op.RejectBids? || op.FinishReconciling? || op.CancelRound? || op.CloseRound?
    requires Inv(s) && Solvent(s, donated) && Apply(s, op).Success?
    ensures Inv(Apply(s, op).value) && Solvent(Apply(s, op).value, donated)
  {
    match op
    case AcceptBids(payer, reconcile) => AcceptKeeps(s, payer, reconcile);
    case RejectBids => RejectKeeps(s, donated);
    case FinishReconciling =>
    case CancelRound => CloseAllKeeps(s);
    case CloseRound => CloseAllKeeps(s);
  }

  lemma StepKeeps(s: Sale, op: Op, donated: nat)
    requires Inv(s) && Solvent(s, donated)
    ensures Inv(Step(s, op)) && Solvent(Step(s, op), donated + DonatedBy(s, op))
  {
    if Apply(s, op).Success? {
      match op
      case TimePasses(until) =>
      case Outsiders(bids, offers, lamports) =>
      case ContributeBid(_, _, _, _) => VoucherStepKeeps(s, op, donated);
      case WithdrawBid(_, _, _) => VoucherStepKeeps(s, op, donated);
      case RejectUserBid(_, _) => VoucherStepKeeps(s, op, donated);
      case RedeemVoucher(_, _) => VoucherStepKeeps(s, op, donated);
      case RecordOffchain(_, _, _) => VoucherStepKeeps(s, op, donated);
      case _ => EndingStepKeeps(s, op, donated);
    }
  }

  /**
   Over every run: the counter is the number of vouchers, on-chain and off-chain, and until the heir accepts
   the bid wallet holds exactly what the live vouchers contributed plus what outsiders gave it.
   */
  lemma {:induction false} RunKeepsInvariant(s: Sale, donated: nat, ops: seq<Op>)
    requires Inv(s) && Solvent(s, donated)
    ensures Inv(Run(s, ops)) && Solvent(Run(s, ops), donated + Donated(s, ops))
  {
    if ops != [] {
      var last := |ops| - 1;
      RunKeepsInvariant(s, donated, ops[..last]);
      StepKeeps(Run(s, ops[..last]), ops[last], donated + Donated(s, ops[..last]));
    }
  }

  /** Hence no decrement of the counter underflows, and a closed round leaves no voucher of either kind behind. */
  lemma CounterIsSound(s: Sale, donated: nat, ops: seq<Op>, user: Pubkey)
    requires Inv(s) && Solvent(s, donated)
    ensures var t := Run(s, ops);
            && (user in t.vouchers ==> 0 < t.round.vouchersCount)
            && (t.round.vouchersCount == 0 <==> t.vouchers == map[] && t.offchain == map[])
            && (!t.live ==> t.vouchers == map[] && t.offchain == map[])
  {
    RunKeepsInvariant(s, donated, ops);
    var t := Run(s, ops);
    if user in t.vouchers {
      CountOneLess(t.round.vouchersCount, t.vouchers, t.offchain, user);
    }
    if t.round.vouchersCount == 0 {
      assert t.vouchers.Keys == {} && t.offchain.Keys == {};
    }
  }

  // ---------------------------------------------------------------- phases

  /** A status can only move forward, and the terms and recorded totals of an accepted round stay. */
  ghost predicate Follows(r: Round, t: Round) {
    && t.recipient == r.recipient && t.payer == r.payer && t.biddingStart == r.biddingStart
    && t.biddingEnd == r.biddingEnd && t.targetBid == r.targetBid && t.returnWallet == r.returnWallet
    && (r.status != Pending ==> t.totalBid == r.totalBid && t.totalOffer == r.totalOffer)
    && (r.status == t.status || r.status == Pending || (r.status == Reconciliation && t.status == Accepted))
  }

  lemma VoucherStepFollows(s: Sale, op: Op)
    requires op.ContributeBid? || op.WithdrawBid? || op.RejectUserBid? || op.RedeemVoucher? || op.RecordOffchain?
    requires Apply(s, op).Success?
    ensures var t := Apply(s, op).value; Follows(s.round, t.round) && t.now == s.now && t.live == s.live
  {
  }

  lemma StepFollows(s: Sale, op: Op)
    ensures Follows(s.round, Step(s, op).round)
    ensures s.now <= Step(s, op).now && (Step(s, op).live ==> s.live)
  {
    match op
    case ContributeBid(_, _, _, _) => if Apply(s, op).Success? { VoucherStepFollows(s, op); }
    case WithdrawBid(_, _, _) => if Apply(s, op).Success? { VoucherStepFollows(s, op); }
    case RejectUserBid(_, _) => if Apply(s, op).Success? { VoucherStepFollows(s, op); }
    case RedeemVoucher(_, _) => if Apply(s, op).Success? { VoucherStepFollows(s, op); }
    case RecordOffchain(_, _, _) => if Apply(s, op).Success? { VoucherStepFollows(s, op); }
    case _ =>
  }

  /** Rejected rounds stay rejected, accepted rounds stay accepted, and time and closing are irreversible. */
  lemma {:induction false} RunRespectsPhases(s: Sale, ops: seq<Op>)
    ensures Follows(s.round, Run(s, ops).round)
    ensures s.now <= Run(s, ops).now && (Run(s, ops).live ==> s.live)
  {
    if ops != [] {
      var last := |ops| - 1;
      RunRespectsPhases(s, ops[..last]);
      StepFollows(Run(s, ops[..last]), ops[last]);
    }
  }

  /**
   Once the heir has accepted, no run ever refunds or rejects again; once it has rejected, none redeems or
   accepts.
   */
  lemma RefundAndRedemptionExclude(s: Sale, ops: seq<Op>, user: Pubkey, currentPayer: Pubkey, signed: bool,
                                   wallet: Address)
    ensures s.round.status == Accepted || s.round.status == Reconciliation ==>
              && Withdraw(Run(s, ops), user, currentPayer, signed).Failure?
              && RejectBid(Run(s, ops), user, currentPayer).Failure?
              && Reject(Run(s, ops)).Failure?
    ensures s.round.status == Rejected ==>
              && Redeem(Run(s, ops), user, wallet).Failure?
              && Accept(Run(s, ops), Key(currentPayer), signed).Failure?
  {
    RunRespectsPhases(s, ops);
  }
}
