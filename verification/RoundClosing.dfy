/** Exactly when a round can be closed, in every status, and what keeps one open for good. */
module RoundClosing {
  import opened Wrappers
  import opened MachineInts
  import opened Sums
  import opened RoundState
  import opened RoundSteps
  import opened RoundInvariant

  // ---------------------------------------------------------------- closing succeeds

  /** The supplies fit 64 bits, rents included, as those of real mints and lamports do. */
  ghost predicate SuppliesFit(s: Sale) {
    Sum(s.offers) <= U64_MAX && Sum(s.bids) + Sum(s.lamports) + 2 * s.walletRent <= U64_MAX
  }

  /** The status and the clock allow the round to end. */
  predicate MayEnd(r: Round, now: i64) {
    match r.status
    case Accepted => true
    case Rejected => true
    case Reconciliation => false
    case Pending => TimedOut(r, now)
  }

  /** The bid wallet is gone or can be closed: only wrapped SOL may still be in it. */
  ghost predicate BidWalletClosable(native: bool, bids: Ledger) {
    BidWallet !in bids || native || bids[BidWallet] == 0
  }

  lemma RentsFit(lamports: Ledger, payer: Address, rent: u64, more: nat)
    requires Sum(lamports) + 2 * rent + more <= U64_MAX
    ensures Credit(lamports, payer, rent).Success?
    ensures Credit(Credit(lamports, payer, rent).value, payer, rent + more).Success?
    ensures Credit(Credit(lamports, payer, rent).value, payer, rent).Success?
  {
    SumWithBalance(lamports, payer, Balance(lamports, payer));
  }

  lemma ReturnedOfferSucceedsIff(s: Sale)
    requires OfferWallet in s.offers && s.round.returnWallet != OfferWallet && SuppliesFit(s)
    ensures ReturnedOffer(s).Success? <==> s.round.returnWallet in s.offers
    ensures ReturnedOffer(s).Success? ==>
              Credit(s.lamports, Key(s.round.payer), s.walletRent) == Success(ReturnedOffer(s).value.1)
  {
    TransferSucceedsIff(s.offers, OfferWallet, s.round.returnWallet, s.offers[OfferWallet]);
    RentsFit(s.lamports, Key(s.round.payer), s.walletRent, 0);
    if s.round.returnWallet in s.offers {
      TransferEffect(s.offers, OfferWallet, s.round.returnWallet, s.offers[OfferWallet]);
    }
  }

  lemma CloseBidWalletSucceedsIff(s: Sale)
    requires SuppliesFit(s)
    ensures Credit(s.lamports, Key(s.round.payer), s.walletRent).Success?
    ensures var refunded := Credit(s.lamports, Key(s.round.payer), s.walletRent).value;
            CloseBidWallet(s.native, s.walletRent, s.bids, refunded, Key(s.round.payer)).Success?
            <==> BidWalletClosable(s.native, s.bids)
  {
    if BidWallet in s.bids {
      SumHasTerm(s.bids, BidWallet);
    }
    RentsFit(s.lamports, Key(s.round.payer), s.walletRent, if BidWallet in s.bids then s.bids[BidWallet] else 0);
  }

  lemma CloseAllSucceedsIff(s: Sale)
    requires OfferWallet in s.offers && s.round.returnWallet != OfferWallet && SuppliesFit(s)
    ensures CloseAll(s).Success? <==> s.round.returnWallet in s.offers && BidWalletClosable(s.native, s.bids)
  {
    ReturnedOfferSucceedsIff(s);
    CloseBidWalletSucceedsIff(s);
  }

  lemma CanCloseIff(s: Sale)
    requires Inv(s)
    ensures AssertCanClose(s.round, s.now).Passed? <==>
              MayEnd(s.round, s.now) && s.vouchers.Keys == {} && s.offchain.Keys == {}
  {
    assert s.round.vouchersCount == 0 <==> s.vouchers.Keys == {} && s.offchain.Keys == {};
  }

  /** The round is closed and its whole offer is back where it came from. */
  ghost predicate OfferReturned(s: Sale, t: Sale) {
    && !t.live
    && s.round.returnWallet in s.offers && s.round.returnWallet in t.offers && OfferWallet in s.offers
    && (var before: int := s.offers[s.round.returnWallet];
        t.offers[s.round.returnWallet] == before + s.offers[OfferWallet])
  }

  /**
   In every status: a round closes exactly when it may end, no voucher of either kind is left, the return wallet
   exists and the bid wallet can be closed. The whole offer then goes home.
   */
  lemma CloseSucceedsIff(s: Sale)
    requires Inv(s) && s.live && SuppliesFit(s)
    ensures Close(s).Success? <==>
              && MayEnd(s.round, s.now)
              && s.vouchers.Keys == {} && s.offchain.Keys == {}
              && s.round.returnWallet in s.offers
              && BidWalletClosable(s.native, s.bids)
    ensures Close(s).Success? ==> OfferReturned(s, Close(s).value)
  {
    CanCloseIff(s);
    CloseAllSucceedsIff(s);
    if Close(s).Success? {
      CloseAllEffect(s);
    }
  }

  /** The same for a cancellation, which is possible up to the start of bidding. */
  lemma CancelSucceedsIff(s: Sale)
    requires Inv(s) && s.live && SuppliesFit(s)
    ensures Cancel(s).Success? <==>
              && s.now <= s.round.biddingStart
              && s.vouchers.Keys == {}
              && s.round.returnWallet in s.offers
              && BidWalletClosable(s.native, s.bids)
    ensures Cancel(s).Success? ==> OfferReturned(s, Cancel(s).value)
  {
    assert s.round.vouchersCount == 0 <==> s.vouchers.Keys == {} && s.offchain.Keys == {};
    CloseAllSucceedsIff(s);
    if Cancel(s).Success? {
      CloseAllEffect(s);
    }
  }

  // ---------------------------------------------------------------- off-chain vouchers stay

  lemma OffchainStays(s: Sale, op: Op)
    ensures s.offchain.Keys <= Step(s, op).offchain.Keys
  {
  }

  lemma {:induction false} OffchainStaysInRun(s: Sale, ops: seq<Op>)
    ensures s.offchain.Keys <= Run(s, ops).offchain.Keys
  {
    if ops != [] {
      var last := |ops| - 1;
      OffchainStaysInRun(s, ops[..last]);
      OffchainStays(Run(s, ops[..last]), ops[last]);
    }
  }

  /** No instruction gives up an off-chain voucher, so a round that recorded one can never be closed or cancelled. */
  lemma OffchainBlocksClosing(s: Sale, donated: nat, ops: seq<Op>)
    requires Inv(s) && Solvent(s, donated) && s.offchain != map[]
    ensures 0 < Run(s, ops).round.vouchersCount
    ensures Close(Run(s, ops)).Failure? && Cancel(Run(s, ops)).Failure?
  {
    RunKeepsInvariant(s, donated, ops);
    OffchainStaysInRun(s, ops);
    var user :| user in s.offchain;
    assert user in Run(s, ops).offchain.Keys;
  }

  // ---------------------------------------------------------------- tokens nobody can take out

  /**
   The tokens in the bid wallet that no voucher is refunded from: what was donated, as long as the heir has not
   accepted, and everything afterwards.
   */
  ghost function Leftover(s: Sale, donated: nat): nat {
    if Undecided(s.round.status) then donated else Balance(s.bids, BidWallet)
  }

  /** The heir has decided or can no longer decide, so no acceptance will ever empty the bid wallet. */
  predicate Decided(r: Round, now: i64) {
    r.status != Pending || TimedOut(r, now)
  }

  lemma DecidedStays(s: Sale, op: Op)
    requires Decided(s.round, s.now)
    ensures Decided(Step(s, op).round, Step(s, op).now)
    ensures Undecided(Step(s, op).round.status) <==> Undecided(s.round.status)
  {
    StepFollows(s, op);
    if op.AcceptBids? || op.RejectBids? {
      assert s.round.status == Pending ==> Apply(s, op).Failure?;
    }
  }

  /** After the acceptance of a token round nothing is taken out of its bid wallet any more. */
  lemma AcceptedBidsStay(s: Sale, op: Op)
    requires Inv(s) && s.live && !s.native && !Undecided(s.round.status) && 0 < Balance(s.bids, BidWallet)
    ensures Balance(s.bids, BidWallet) <= Balance(Step(s, op).bids, BidWallet)
    ensures Step(s, op).live
  {
    match op
    case ContributeBid(user, payer, from, delegated) =>
      if Apply(s, op).Success? {
        ContributeEffect(s, user, payer, from, delegated);
        TransferEffect(s.bids, from, BidWallet, delegated.value);
      }
    case CancelRound =>
      assert !BidWalletClosable(s.native, s.bids);
    case CloseRound =>
      assert !BidWalletClosable(s.native, s.bids);
    case _ =>
  }

  /** Leftover tokens never shrink, and a token round with some never closes. */
  lemma LeftoverStays(s: Sale, donated: nat, op: Op)
    requires Inv(s) && Solvent(s, donated) && s.live && !s.native && Decided(s.round, s.now)
    requires 0 < Leftover(s, donated)
    ensures Leftover(s, donated) <= Leftover(Step(s, op), donated + DonatedBy(s, op))
    ensures Step(s, op).live && !Step(s, op).native && Decided(Step(s, op).round, Step(s, op).now)
  {
    DecidedStays(s, op);
    LeftoverKeepsOpen(s, donated);
    if !Undecided(s.round.status) {
      AcceptedBidsStay(s, op);
    }
    if op.CloseRound? || op.CancelRound? {
      assert Apply(s, op).Failure?;
    }
  }

  lemma LeftoverKeepsOpen(s: Sale, donated: nat)
    requires Inv(s) && Solvent(s, donated) && !s.native && 0 < Leftover(s, donated)
    ensures Close(s).Failure? && Cancel(s).Failure?
  {
    if s.live {
      assert BidWallet in s.bids && 0 < s.bids[BidWallet];
      CloseAllNeedsClosable(s);
    }
  }

  lemma CloseAllNeedsClosable(s: Sale)
    requires OfferWallet in s.offers && !BidWalletClosable(s.native, s.bids)
    ensures CloseAll(s).Failure?
  {
  }

  /** A decided token round with at least `least` leftover tokens. */
  ghost predicate Stuck(s: Sale, donated: nat, least: nat) {
    && Inv(s) && Solvent(s, donated)
    && s.live && !s.native && Decided(s.round, s.now)
    && least <= Leftover(s, donated)
  }

  lemma StuckStep(s: Sale, donated: nat, least: nat, op: Op)
    requires Stuck(s, donated, least) && 0 < least
    ensures Stuck(Step(s, op), donated + DonatedBy(s, op), least)
  {
    LeftoverStays(s, donated, op);
    StepKeeps(s, op, donated);
  }

  lemma {:induction false} StuckRun(s: Sale, donated: nat, least: nat, ops: seq<Op>)
    requires Stuck(s, donated, least) && 0 < least
    ensures Stuck(Run(s, ops), donated + Donated(s, ops), least)
  {
    if ops != [] {
      var m, before := Run(s, ops[..|ops| - 1]), donated + Donated(s, ops[..|ops| - 1]);
      StuckRun(s, donated, least, ops[..|ops| - 1]);
      StuckStep(m, before, least, ops[|ops| - 1]);
    }
  }

  /**
   In a round that is not wrapped SOL, tokens in the bid wallet that belong to no refundable voucher stay there: from
   the heir's decision or timeout on, no run ever closes or cancels a round with any.
   */
  lemma LeftoverBlocksClosing(s: Sale, donated: nat, ops: seq<Op>)
    requires Inv(s) && Solvent(s, donated) && s.live && !s.native && Decided(s.round, s.now)
    requires 0 < Leftover(s, donated)
    ensures Run(s, ops).live && Close(Run(s, ops)).Failure? && Cancel(Run(s, ops)).Failure?
    ensures Leftover(s, donated) <= Leftover(Run(s, ops), donated + Donated(s, ops))
  {
    StuckRun(s, donated, Leftover(s, donated), ops);
    LeftoverKeepsOpen(Run(s, ops), donated + Donated(s, ops));
  }

  // ---------------------------------------------------------------- a late bid

  /** An offer of two tokens for two tokens; users 1 and 2 have one bid token each. */
  function TwoTokensOffered(): Result<Sale, Error> {
    CreateRound(Round(Pending, Key(8), 7, 0, 0, 10, None, None, 2, Key(9)), Some(2),
                map[Key(1) := 1, Key(2) := 1, Key(8) := 0], map[Key(9) := 2, Key(1) := 0, Key(2) := 0],
                map[], 0, false, 0)
  }

  /** In the second bidding ends, user 1 bids and the heir accepts. */
  function AcceptedAtTheEnd(s: Sale): Sale {
    var atEnd := Step(s, TimePasses(10));
    Step(Step(atEnd, ContributeBid(1, 1, Key(1), Some(1))), AcceptBids(Key(7), false))
  }

  /** In the same second user 2 bids. */
  function LateBid(s: Sale): Sale {
    Step(s, ContributeBid(2, 2, Key(2), Some(1)))
  }

  function BothRedeemed(s: Sale): Sale {
    Step(Step(s, RedeemVoucher(1, Key(1))), RedeemVoucher(2, Key(2)))
  }

  ghost predicate AtTheEnd(s: Sale, count: u64, vouchers: map<Pubkey, Voucher>, collected: u64, offered: u64) {
    && s.live && !s.native && s.now == 10 && s.offchain == map[]
    && s.round == Round(Accepted, Key(8), 7, count, 0, 10, Some(1), Some(2), 2, Key(9))
    && s.vouchers == vouchers
    && Key(1) in s.bids && Key(2) in s.bids && Key(8) in s.bids && BidWallet in s.bids && s.bids[BidWallet] == collected
    && Key(1) in s.offers && Key(2) in s.offers && OfferWallet in s.offers && s.offers[OfferWallet] == offered
    && s.offers[Key(1)] + offered <= 2 && s.offers[Key(2)] == 0
  }

  lemma TwoTokensOfferedIs()
    ensures TwoTokensOffered().Success?
    ensures var s := TwoTokensOffered().value;
            && s.live && !s.native && s.vouchers == map[] && s.offchain == map[] && s.now == 0
            && s.round == Round(Pending, Key(8), 7, 0, 0, 10, None, Some(2), 2, Key(9))
            && s.bids == map[Key(1) := 1, Key(2) := 1, Key(8) := 0, BidWallet := 0]
            && s.offers == map[Key(9) := 0, Key(1) := 0, Key(2) := 0, OfferWallet := 2]
  {
  }

  lemma AcceptedAtTheEndIs()
    ensures TwoTokensOffered().Success?
    ensures var t := AcceptedAtTheEnd(TwoTokensOffered().value);
            AtTheEnd(t, 1, map[1 := Voucher(1, 1)], 0, 2) && t.bids[Key(2)] == 1
  {
    TwoTokensOfferedIs();
    var atEnd := Step(TwoTokensOffered().value, TimePasses(10));
    assert atEnd == TwoTokensOffered().value.(now := 10);
    FirstBidAtTheEnd(atEnd);
  }

  lemma FirstBidAtTheEnd(s: Sale)
    requires s.live && !s.native && s.vouchers == map[] && s.offchain == map[] && s.now == 10
    requires s.round == Round(Pending, Key(8), 7, 0, 0, 10, None, Some(2), 2, Key(9))
    requires s.bids == map[Key(1) := 1, Key(2) := 1, Key(8) := 0, BidWallet := 0]
    requires s.offers == map[Key(9) := 0, Key(1) := 0, Key(2) := 0, OfferWallet := 2]
    ensures var t := Step(Step(s, ContributeBid(1, 1, Key(1), Some(1))), AcceptBids(Key(7), false));
            AtTheEnd(t, 1, map[1 := Voucher(1, 1)], 0, 2) && t.bids[Key(2)] == 1
  {
    var b := Step(s, ContributeBid(1, 1, Key(1), Some(1)));
    assert b == s.(vouchers := map[1 := Voucher(1, 1)], round := s.round.(vouchersCount := 1),
                   bids := map[Key(1) := 0, Key(2) := 1, Key(8) := 0, BidWallet := 1]);
  }

  lemma LateBidIs(s: Sale)
    requires AtTheEnd(s, 1, map[1 := Voucher(1, 1)], 0, 2) && s.bids[Key(2)] == 1
    ensures AtTheEnd(LateBid(s), 2, map[1 := Voucher(1, 1), 2 := Voucher(2, 1)], 1, 2)
  {
    MoveLateBid(s.bids);
    assert s.vouchers[2 := Voucher(2, 1)] == map[1 := Voucher(1, 1), 2 := Voucher(2, 1)];
    assert LateBid(s).bids == s.bids[Key(2) := 0][BidWallet := 1];
  }

  lemma MoveLateBid(bids: Ledger)
    requires Key(2) in bids && BidWallet in bids && bids[Key(2)] == 1 && bids[BidWallet] == 0
    ensures Transfer(bids, Key(2), BidWallet, 1) == Success(bids[Key(2) := 0][BidWallet := 1])
  {
  }

  lemma HalfOfTwo(r: Round)
    requires r.totalBid == Some(1) && r.totalOffer == Some(2) && r.targetBid == 2
    ensures RedeemAmount(r, 1) == Success(1)
  {
    RedeemAmountIs(2, 1, 1, 2, 1);
  }

  lemma FirstRedeemed(s: Sale)
    requires AtTheEnd(s, 2, map[1 := Voucher(1, 1), 2 := Voucher(2, 1)], 1, 2)
    ensures AtTheEnd(Step(s, RedeemVoucher(1, Key(1))), 1, map[2 := Voucher(2, 1)], 1, 1)
  {
    HalfOfTwo(s.round);
    assert s.vouchers - {1} == map[2 := Voucher(2, 1)];
  }

  lemma SecondRedeemed(s: Sale)
    requires AtTheEnd(s, 1, map[2 := Voucher(2, 1)], 1, 1)
    ensures var t := Step(s, RedeemVoucher(2, Key(2)));
            && t.live && t.vouchers == map[] && t.offchain == map[] && t.round.vouchersCount == 0
            && t.round.status == Accepted && !t.native && BidWallet in t.bids && t.bids[BidWallet] == 1
  {
    HalfOfTwo(s.round);
    assert s.vouchers - {2} == map[];
  }

  /**
   A contribution can follow the acceptance within the second bidding ends. The late bidder is served like everybody
   else, but the bid stays in the wallet: without any outsider and with every voucher redeemed, this round, run from
   its creation, can never be closed again.
   */
  lemma LateBidBlocksClosing(ops: seq<Op>)
    ensures TwoTokensOffered().Success?
    ensures var t := BothRedeemed(LateBid(AcceptedAtTheEnd(TwoTokensOffered().value)));
            && t.live && t.vouchers == map[] && t.offchain == map[] && t.round.vouchersCount == 0
            && t.round.status == Accepted
            && Close(Run(t, ops)).Failure? && Cancel(Run(t, ops)).Failure?
  {
    AcceptedAtTheEndIs();
    var accepted := AcceptedAtTheEnd(TwoTokensOffered().value);
    LateBidIs(accepted);
    FirstRedeemed(LateBid(accepted));
    SecondRedeemed(Step(LateBid(accepted), RedeemVoucher(1, Key(1))));
    LateBidInv();
    LeftoverBlocksClosing(BothRedeemed(LateBid(accepted)), 0, ops);
  }

  /** The six steps keep the invariant, as all steps do. */
  lemma LateBidInv()
    requires TwoTokensOffered().Success?
    ensures var t := BothRedeemed(LateBid(AcceptedAtTheEnd(TwoTokensOffered().value)));
            Inv(t) && (!Undecided(t.round.status) ==> Solvent(t, 0))
  {
    var s := TwoTokensOffered().value;
    CreatedInv(Round(Pending, Key(8), 7, 0, 0, 10, None, None, 2, Key(9)), Some(2),
               map[Key(1) := 1, Key(2) := 1, Key(8) := 0], map[Key(9) := 2, Key(1) := 0, Key(2) := 0],
               map[], 0, false, 0);
    StepKeeps(s, TimePasses(10), 0);
    var s1 := Step(s, TimePasses(10));
    StepKeeps(s1, ContributeBid(1, 1, Key(1), Some(1)), 0);
    var s2 := Step(s1, ContributeBid(1, 1, Key(1), Some(1)));
    StepKeeps(s2, AcceptBids(Key(7), false), 0);
    var s3 := Step(s2, AcceptBids(Key(7), false));
    StepKeeps(s3, ContributeBid(2, 2, Key(2), Some(1)), 0);
    StepKeeps(LateBid(s3), RedeemVoucher(1, Key(1)), 0);
    StepKeeps(Step(LateBid(s3), RedeemVoucher(1, Key(1))), RedeemVoucher(2, Key(2)), 0);
  }
}
