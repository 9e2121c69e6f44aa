/**
 Redemption over whole runs: what the redeemers of an accepted round receive, alone and together, and
 exactly when all of them can be served.
 */
module RoundRedemption {
  import opened Wrappers
  import opened MachineInts
  import opened Arithmetic
  import opened FixedPoint
  import opened Sums
  import opened RoundState
  import opened RoundSteps
  import opened RoundInvariant

  // ---------------------------------------------------------------- one redemption

  /** What a bid is a share of: the target, or all bids if they exceed it. */
  function Whole(r: Round): nat
    requires r.totalBid.Some?
  {
    Max(r.targetBid, r.totalBid.value)
  }

  /** The offer tokens a bid is worth. */
  function Worth(r: Round, bid: u64): u64
    requires r.totalBid.Some? && r.totalOffer.Some? && bid <= r.totalBid.value
  {
    if Whole(r) == 0 then 0
    else
      ShareUnderWhole(bid, Whole(r), r.totalOffer.value);
      RoundedShare(bid, Whole(r), r.totalOffer.value)
  }

  /** The heir has accepted, strictly after the end of bidding. */
  ghost predicate Settled(s: Sale) {
    && Inv(s) && !Undecided(s.round.status) && s.round.biddingEnd < s.now
    && Contributions(s.vouchers) <= s.round.totalBid.value
  }

  lemma RedeemAmountIsWorth(r: Round, bid: u64)
    requires r.totalBid.Some? && r.totalOffer.Some? && bid <= r.totalBid.value && 0 < Whole(r)
    ensures RedeemAmount(r, bid) == Success(Worth(r, bid))
    ensures Worth(r, bid) <= r.totalOffer.value
  {
    MulShareClosedForm(bid, Whole(r), r.totalOffer.value);
    ShareAccuracy(bid, Whole(r), r.totalOffer.value);
  }

  lemma BidWithinTotal(s: Sale, user: Pubkey)
    requires Settled(s) && user in s.vouchers
    ensures s.vouchers[user].amountContributed <= s.round.totalBid.value
  {
    assert Amounts(s.vouchers)[user] == s.vouchers[user].amountContributed;
    SumHasTerm(Amounts(s.vouchers), user);
  }

  /** What the voucher of `u` is worth. */
  ghost function WorthOf(s: Sale, u: Pubkey): u64
    requires Settled(s) && u in s.vouchers
  {
    BidWithinTotal(s, u);
    Worth(s.round, s.vouchers[u].amountContributed)
  }

  /** The user's voucher is consumed and `amount` moves from the offer wallet to `wallet`; nothing else changes. */
  ghost predicate Redeemed(s: Sale, user: Pubkey, wallet: Address, amount: u64, t: Sale) {
    && user in s.vouchers && OfferWallet in s.offers && wallet in s.offers
    && Transfer(s.offers, OfferWallet, wallet, amount) == Success(t.offers)
    && t == s.(offers := t.offers, vouchers := s.vouchers - {user},
               round := s.round.(vouchersCount := t.round.vouchersCount))
    && t.round.vouchersCount == s.round.vouchersCount - 1
  }

  lemma RedeemShape(s: Sale, user: Pubkey, wallet: Address)
    requires Redeem(s, user, wallet).Success?
    ensures user in s.vouchers && RedeemAmount(s.round, s.vouchers[user].amountContributed).Success?
    ensures Redeemed(s, user, wallet, RedeemAmount(s.round, s.vouchers[user].amountContributed).value,
                    Redeem(s, user, wallet).value)
  {
  }

  lemma RedeemNeedsBids(r: Round, bid: u64)
    requires RedeemAmount(r, bid).Success?
    ensures r.totalBid.Some? && r.totalOffer.Some? && 0 < Whole(r)
  {
    if Whole(r) == 0 {
      MulShareClosedForm(bid, 0, r.totalOffer.value);
    }
  }

  /** A redemption pays exactly what the bid is worth. */
  lemma RedeemEffect(s: Sale, user: Pubkey, wallet: Address)
    requires Settled(s) && Redeem(s, user, wallet).Success?
    ensures user in s.vouchers && 0 < Whole(s.round)
    ensures Redeemed(s, user, wallet, WorthOf(s, user), Redeem(s, user, wallet).value)
  {
    RedeemShape(s, user, wallet);
    BidWithinTotal(s, user);
    RedeemNeedsBids(s.round, s.vouchers[user].amountContributed);
    RedeemAmountIsWorth(s.round, s.vouchers[user].amountContributed);
  }

  lemma CoveredIsRedeemed(s: Sale, user: Pubkey, wallet: Address)
    requires Settled(s) && s.live && s.round.status == Accepted && Sum(s.offers) <= U64_MAX
    requires user in s.vouchers && wallet in s.offers && 0 < Whole(s.round)
    ensures Redeem(s, user, wallet).Success? <==> WorthOf(s, user) <= s.offers[OfferWallet]
  {
    BidWithinTotal(s, user);
    RedeemAmountIsWorth(s.round, s.vouchers[user].amountContributed);
    CountOneLess(s.round.vouchersCount, s.vouchers, s.offchain, user);
    TransferSucceedsIff(s.offers, OfferWallet, wallet, WorthOf(s, user));
  }

  lemma RedeemNeeds(s: Sale, user: Pubkey, wallet: Address)
    requires Redeem(s, user, wallet).Success?
    ensures s.live && s.round.status == Accepted && user in s.vouchers && wallet in s.offers
    ensures s.round.totalBid.Some? && s.round.totalOffer.Some? && 0 < Whole(s.round)
  {
    RedeemNeedsBids(s.round, s.vouchers[user].amountContributed);
  }

  /**
   A voucher can be redeemed exactly once the round is accepted, reconciliation included, with something bid and the
   offer wallet still covering its worth.
   */
  lemma RedeemSucceedsIff(s: Sale, user: Pubkey, wallet: Address)
    requires Settled(s) && Sum(s.offers) <= U64_MAX
    ensures Redeem(s, user, wallet).Success? <==>
              && s.live && s.round.status == Accepted && user in s.vouchers && wallet in s.offers
              && 0 < Whole(s.round) && WorthOf(s, user) <= s.offers[OfferWallet]
  {
    if Redeem(s, user, wallet).Success? {
      RedeemNeeds(s, user, wallet);
    }
    if s.live && s.round.status == Accepted && user in s.vouchers && wallet in s.offers && 0 < Whole(s.round) {
      CoveredIsRedeemed(s, user, wallet);
    }
  }

  // ---------------------------------------------------------------- all redemptions of a run

  /** One redemption as seen from outside: `payout` is by how much the offer wallet shrank. */
  datatype Redemption = Redemption(user: Pubkey, bid: nat, wallet: Address, payout: int)

  ghost function RedemptionsOf(s: Sale, op: Op): seq<Redemption> {
    if op.RedeemVoucher? && Apply(s, op).Success? then
      [Redemption(op.user, s.vouchers[op.user].amountContributed, op.wallet,
                  Balance(s.offers, OfferWallet) - Balance(Step(s, op).offers, OfferWallet))]
    else []
  }

  ghost function Redemptions(s: Sale, ops: seq<Op>): seq<Redemption> {
    if ops == [] then []
    else
      var last := |ops| - 1;
      Redemptions(s, ops[..last]) + RedemptionsOf(Run(s, ops[..last]), ops[last])
  }

  ghost function TotalBids(log: seq<Redemption>): nat {
    if log == [] then 0 else TotalBids(log[..|log| - 1]) + log[|log| - 1].bid
  }

  ghost function TotalPayouts(log: seq<Redemption>): int {
    if log == [] then 0 else TotalPayouts(log[..|log| - 1]) + log[|log| - 1].payout
  }

  /** Each payout is the exact share up to a half above, and up to 1/2 + offer / 10^12 below. */
  ghost predicate FairPayout(r: Redemption, whole: nat, offer: nat) {
    && 0 < whole && r.payout <= offer
    && 2 * whole * r.payout <= 2 * offer * r.bid + whole
    && (r.wallet != OfferWallet ==>
          2 * ONE * whole * r.payout > 2 * ONE * offer * r.bid - whole * (2 * offer + ONE))
  }

  ghost predicate AllFair(log: seq<Redemption>, whole: nat, offer: nat) {
    forall i :: 0 <= i < |log| ==> FairPayout(log[i], whole, offer)
  }

  lemma PayoutIsWorth(s: Sale, op: Op)
    requires Settled(s) && op.RedeemVoucher? && Apply(s, op).Success?
    ensures op.user in s.vouchers && 0 < Whole(s.round)
    ensures RedemptionsOf(s, op)[0].payout == (if op.wallet == OfferWallet then 0 else WorthOf(s, op.user))
  {
    RedeemEffect(s, op.user, op.wallet);
    TransferEffect(s.offers, OfferWallet, op.wallet, WorthOf(s, op.user));
  }

  lemma RedemptionIsFair(s: Sale, op: Op)
    requires Settled(s) && op.RedeemVoucher? && Apply(s, op).Success?
    ensures FairPayout(RedemptionsOf(s, op)[0], Whole(s.round), s.round.totalOffer.value)
  {
    PayoutIsWorth(s, op);
    BidWithinTotal(s, op.user);
    FairFromAccuracy(RedemptionsOf(s, op)[0], Whole(s.round), s.round.totalOffer.value);
  }

  lemma RedemptionKeepsSettled(s: Sale, op: Op)
    requires Settled(s) && op.RedeemVoucher? && Apply(s, op).Success?
    ensures Settled(Step(s, op)) && op.user in s.vouchers
    ensures Contributions(Step(s, op).vouchers) == Contributions(s.vouchers) - s.vouchers[op.user].amountContributed
  {
    RedeemShape(s, op.user, op.wallet);
    RedeemKeeps(s, op.user, op.wallet);
    ContributionsRemove(s.vouchers, op.user);
  }

  /** A payout the redeemer sends back to the offer wallet is zero, and trivially within the upper bounds. */
  lemma FairFromAccuracy(r: Redemption, whole: u64, offer: u64)
    requires 0 < whole && r.bid <= whole
    requires r.payout == (if r.wallet == OfferWallet then 0 else RoundedShare(r.bid, whole, offer))
    ensures FairPayout(r, whole, offer)
  {
    ShareAccuracy(r.bid, whole, offer);
    if r.payout == 0 {
      assert 2 * whole * r.payout == 0;
      MulBound(2 * offer, r.bid, 2 * offer, r.bid);
    }
  }

  /** Once settled, vouchers leave by redemption only. */
  lemma OtherStepsKeepVouchers(s: Sale, op: Op)
    requires Settled(s) && !op.RedeemVoucher?
    ensures Step(s, op).vouchers == s.vouchers
  {
  }

  lemma SettledStep(s: Sale, op: Op)
    requires Settled(s)
    ensures Settled(Step(s, op))
    ensures var t, log := Step(s, op), RedemptionsOf(s, op);
            && Whole(t.round) == Whole(s.round) && t.round.totalOffer == s.round.totalOffer
            && t.round.totalBid == s.round.totalBid
            && AllFair(log, Whole(s.round), s.round.totalOffer.value)
            && TotalBids(log) + Contributions(t.vouchers) == Contributions(s.vouchers)
  {
    StepFollows(s, op);
    StepKeeps(s, op, 0);
    if op.RedeemVoucher? && Apply(s, op).Success? {
      RedemptionIsFair(s, op);
      RedemptionKeepsSettled(s, op);
    } else if !op.RedeemVoucher? {
      OtherStepsKeepVouchers(s, op);
    }
  }

  lemma {:induction false} TotalBidsConcat(a: seq<Redemption>, b: seq<Redemption>)
    ensures TotalBids(a + b) == TotalBids(a) + TotalBids(b)
  {
    if b == [] {
      assert a + b == a;
    } else {
      var last := |b| - 1;
      assert (a + b)[..|a + b| - 1] == a + b[..last];
      TotalBidsConcat(a, b[..last]);
    }
  }

  lemma {:induction false} SettledRun(s: Sale, ops: seq<Op>)
    requires Settled(s)
    ensures Settled(Run(s, ops))
    ensures var t, log := Run(s, ops), Redemptions(s, ops);
            && Whole(t.round) == Whole(s.round) && t.round.totalOffer == s.round.totalOffer
            && t.round.totalBid == s.round.totalBid
            && AllFair(log, Whole(s.round), s.round.totalOffer.value)
            && TotalBids(log) + Contributions(t.vouchers) == Contributions(s.vouchers)
  {
    if ops != [] {
      var last := |ops| - 1;
      var m := Run(s, ops[..last]);
      SettledRun(s, ops[..last]);
      SettledStep(m, ops[last]);
      TotalBidsConcat(Redemptions(s, ops[..last]), RedemptionsOf(m, ops[last]));
    }
  }

  /** One amount at most a half above its exact share. */
  ghost predicate HalfUp(payout: int, bid: nat, whole: nat, offer: nat) {
    2 * whole * payout <= 2 * offer * bid + whole
  }

  /** A total of `n` amounts at most n halves above the exact share of all their bids. */
  ghost predicate TotalHalfUp(total: int, bids: nat, n: nat, whole: nat, offer: nat) {
    2 * (whole * total) <= 2 * (offer * bids) + n * whole
  }

  /** Rounding errors add up. */
  lemma HalvesAdd(total: int, bids: nat, n: nat, payout: int, bid: nat, whole: nat, offer: nat)
    requires TotalHalfUp(total, bids, n, whole, offer) && HalfUp(payout, bid, whole, offer)
    ensures TotalHalfUp(total + payout, bids + bid, n + 1, whole, offer)
  {
    assert whole * (total + payout) == whole * total + whole * payout;
    assert offer * (bids + bid) == offer * bids + offer * bid;
    assert (n + 1) * whole == n * whole + whole;
    assert 2 * whole * payout == 2 * (whole * payout) && 2 * offer * bid == 2 * (offer * bid);
  }

  lemma {:induction false} TotalPayoutsBound(log: seq<Redemption>, whole: nat, offer: nat)
    requires AllFair(log, whole, offer)
    ensures TotalHalfUp(TotalPayouts(log), TotalBids(log), |log|, whole, offer)
  {
    if log != [] {
      var last := |log| - 1;
      TotalPayoutsBound(log[..last], whole, offer);
      FairIsHalfUp(log[last], whole, offer);
      HalvesAdd(TotalPayouts(log[..last]), TotalBids(log[..last]), last, log[last].payout, log[last].bid, whole, offer);
    }
  }

  lemma FairIsHalfUp(r: Redemption, whole: nat, offer: nat)
    requires FairPayout(r, whole, offer)
    ensures HalfUp(r.payout, r.bid, whole, offer)
  {
  }

  lemma CancelWhole(whole: nat, offer: nat, total: int, bids: nat, n: nat)
    requires 0 < whole && bids <= whole && TotalHalfUp(total, bids, n, whole, offer)
    ensures 2 * total <= 2 * offer + n
  {
    MulMono(bids, whole, offer);
    assert 2 * (offer * whole) + n * whole == (2 * offer + n) * whole;
    assert (2 * offer + n + 1) * whole == (2 * offer + n) * whole + whole;
    assert 2 * total * whole == 2 * (whole * total);
    if 2 * total > 2 * offer + n {
      MulMono(2 * offer + n + 1, 2 * total, whole);
    }
  }

  /**
   Redemption fairness. After an acceptance later than the end of bidding, whatever happens next: what was
   redeemed and what is still live add up to the contributions accepted, which are within `total_bid`; every
   payout is a fair share of the offer; and k redemptions together exceed the offer by at most k/2.
   */
  lemma RedemptionsAreFair(s: Sale, donated: nat, payer: Address, reconcile: bool, ops: seq<Op>)
    requires Inv(s) && Solvent(s, donated) && s.round.biddingEnd < s.now
    requires Accept(s, payer, reconcile).Success?
    ensures var t := Accept(s, payer, reconcile).value;
            var log := Redemptions(t, ops);
            && t.round.totalBid == Some(s.bids[BidWallet]) && t.round.totalOffer == Some(s.offers[OfferWallet])
            && Contributions(s.vouchers) + donated == t.round.totalBid.value
            && TotalBids(log) + Contributions(Run(t, ops).vouchers) == Contributions(s.vouchers)
            && AllFair(log, Whole(t.round), t.round.totalOffer.value)
            && 2 * TotalPayouts(log) <= 2 * t.round.totalOffer.value + |log|
  {
    var t := Accept(s, payer, reconcile).value;
    AcceptKeeps(s, payer, reconcile);
    assert Settled(t);
    SettledRun(t, ops);
    var log := Redemptions(t, ops);
    if log != [] {
      assert FairPayout(log[0], Whole(t.round), t.round.totalOffer.value);
      TotalPayoutsBound(log, Whole(t.round), t.round.totalOffer.value);
      CancelWhole(Whole(t.round), t.round.totalOffer.value, TotalPayouts(log), TotalBids(log), |log|);
    }
  }

  // ---------------------------------------------------------------- serving everybody

  /** A redemption somebody intends to make. */
  datatype Claim = Claim(user: Pubkey, wallet: Address)

  function ClaimOps(claims: seq<Claim>): seq<Op> {
    seq(|claims|, i requires 0 <= i < |claims| => RedeemVoucher(claims[i].user, claims[i].wallet))
  }

  ghost function Claimants(claims: seq<Claim>): set<Pubkey> {
    set c | c in claims :: c.user
  }

  /** Nobody claims twice, and every wallet to be paid into exists. */
  ghost predicate Claimable(s: Sale, claims: seq<Claim>) {
    && (forall i :: 0 <= i < |claims| ==>
          claims[i].user in s.vouchers.Keys && claims[i].wallet in s.offers.Keys && claims[i].wallet != OfferWallet)
    && (forall i, j :: 0 <= i < j < |claims| ==> claims[i].user != claims[j].user)
  }

  /** What each voucher is worth. */
  ghost function Worths(s: Sale): map<Pubkey, nat>
    requires Settled(s)
  {
    map u | u in s.vouchers :: WorthOf(s, u)
  }

  ghost function Restrict(worths: map<Pubkey, nat>, users: set<Pubkey>): map<Pubkey, nat> {
    map u | u in users && u in worths :: worths[u]
  }

  lemma RestrictAddOne(worths: map<Pubkey, nat>, users: set<Pubkey>, u: Pubkey)
    requires u in worths && u !in users
    ensures Sum(Restrict(worths, users + {u})) == Sum(Restrict(worths, users)) + worths[u]
  {
    assert Restrict(worths, users + {u}) == Restrict(worths, users)[u := worths[u]];
    SumUpdate(Restrict(worths, users), u, worths[u]);
  }

  lemma ClaimantsAddOne(s: Sale, claims: seq<Claim>)
    requires claims != [] && Claimable(s, claims)
    ensures var last := |claims| - 1;
            && Claimable(s, claims[..last])
            && claims[last].user !in Claimants(claims[..last])
            && Claimants(claims) == Claimants(claims[..last]) + {claims[last].user}
            && ClaimOps(claims)[..last] == ClaimOps(claims[..last])
  {
    var last := |claims| - 1;
    assert claims == claims[..last] + [claims[last]];
  }

  /** The state after serving `users` their worths. */
  ghost predicate Served(s: Sale, worths: map<Pubkey, nat>, users: set<Pubkey>, t: Sale) {
    && OfferWallet in s.offers && OfferWallet in t.offers && t.offers.Keys == s.offers.Keys
    && t.vouchers == s.vouchers - users && t.live == s.live
    && t.round == s.round.(vouchersCount := t.round.vouchersCount)
    && t.offers[OfferWallet] == s.offers[OfferWallet] - Sum(Restrict(worths, users))
    && Sum(t.offers) == Sum(s.offers)
  }

  lemma ServeOne(s: Sale, worths: map<Pubkey, nat>, users: set<Pubkey>, m: Sale, user: Pubkey, wallet: Address, t: Sale)
    requires Served(s, worths, users, m) && user !in users && wallet != OfferWallet
    requires user in worths && worths[user] <= U64_MAX && Redeemed(m, user, wallet, worths[user], t)
    ensures Served(s, worths, users + {user}, t)
  {
    TransferEffect(m.offers, OfferWallet, wallet, worths[user]);
    RestrictAddOne(worths, users, user);
    assert t.vouchers == s.vouchers - (users + {user});
  }

  /** A voucher not yet served keeps its worth. */
  lemma SameWorth(s: Sale, worths: map<Pubkey, nat>, users: set<Pubkey>, m: Sale, user: Pubkey)
    requires Settled(s) && Settled(m) && Served(s, worths, users, m) && user in s.vouchers && user !in users
    ensures user in m.vouchers && WorthOf(m, user) == WorthOf(s, user) && Whole(m.round) == Whole(s.round)
  {
  }

  /** One more claim succeeds exactly when what is left covers it. */
  lemma ServeNext(s: Sale, users: set<Pubkey>, m: Sale, user: Pubkey, wallet: Address)
    requires Settled(s) && Settled(m) && Served(s, Worths(s), users, m) && Sum(s.offers) <= U64_MAX
    requires s.live && s.round.status == Accepted && 0 < Whole(s.round)
    requires user in s.vouchers && user !in users && wallet in s.offers && wallet != OfferWallet
    ensures Redeem(m, user, wallet).Success? <==>
              Sum(Restrict(Worths(s), users + {user})) <= s.offers[OfferWallet]
    ensures Redeem(m, user, wallet).Success? ==>
              Served(s, Worths(s), users + {user}, Redeem(m, user, wallet).value)
  {
    var worths := Worths(s);
    SameWorth(s, worths, users, m, user);
    RedeemSucceedsIff(m, user, wallet);
    RestrictAddOne(worths, users, user);
    if Redeem(m, user, wallet).Success? {
      RedeemEffect(m, user, wallet);
      ServeOne(s, worths, users, m, user, wallet, Redeem(m, user, wallet).value);
    }
  }

  lemma LastClaim(s: Sale, claims: seq<Claim>)
    requires claims != []
    ensures var last, m := |claims| - 1, Run(s, ClaimOps(claims[..|claims| - 1]));
            && (AllSucceed(s, ClaimOps(claims)) <==>
                  AllSucceed(s, ClaimOps(claims[..last])) && Redeem(m, claims[last].user, claims[last].wallet).Success?)
            && (Redeem(m, claims[last].user, claims[last].wallet).Success? ==>
                  Run(s, ClaimOps(claims)) == Redeem(m, claims[last].user, claims[last].wallet).value)
  {
    assert ClaimOps(claims)[..|claims| - 1] == ClaimOps(claims[..|claims| - 1]);
  }

  lemma NothingServed(s: Sale, worths: map<Pubkey, nat>)
    requires OfferWallet in s.offers
    ensures Sum(Restrict(worths, {})) == 0 && Served(s, worths, {}, s)
  {
    assert Restrict(worths, {}) == map[];
    assert s.vouchers - {} == s.vouchers;
  }

  lemma {:induction false} ClaimsServed(s: Sale, claims: seq<Claim>)
    requires Settled(s) && s.live && s.round.status == Accepted && Sum(s.offers) <= U64_MAX
    requires 0 < Whole(s.round) && Claimable(s, claims)
    ensures AllSucceed(s, ClaimOps(claims)) <==> Sum(Restrict(Worths(s), Claimants(claims))) <= s.offers[OfferWallet]
    ensures AllSucceed(s, ClaimOps(claims)) ==> Served(s, Worths(s), Claimants(claims), Run(s, ClaimOps(claims)))
  {
    if claims == [] {
      NothingServed(s, Worths(s));
    } else {
      var last := |claims| - 1;
      var before := Claimants(claims[..last]);
      var m := Run(s, ClaimOps(claims[..last]));
      ClaimantsAddOne(s, claims);
      LastClaim(s, claims);
      ClaimsServed(s, claims[..last]);
      RestrictAddOne(Worths(s), before, claims[last].user);
      SettledRun(s, ClaimOps(claims[..last]));
      if AllSucceed(s, ClaimOps(claims[..last])) {
        ServeNext(s, before, m, claims[last].user, claims[last].wallet);
      }
    }
  }

  lemma AllServed(s: Sale, worths: map<Pubkey, nat>, t: Sale)
    requires worths.Keys == s.vouchers.Keys
    ensures Restrict(worths, s.vouchers.Keys) == worths
    ensures Served(s, worths, s.vouchers.Keys, t) ==>
              t.vouchers == map[] && Balance(t.offers, OfferWallet) == Balance(s.offers, OfferWallet) - Sum(worths)
  {
    assert Restrict(worths, s.vouchers.Keys) == worths;
    assert s.vouchers - s.vouchers.Keys == map[];
  }

  /**
   All voucher holders can redeem, in whatever order, exactly when the offer wallet covers what the vouchers
   are worth together; then no voucher is left and the remainder stays in the wallet.
   */
  lemma EverybodyRedeemsIff(s: Sale, claims: seq<Claim>)
    requires Settled(s) && s.live && s.round.status == Accepted && Sum(s.offers) <= U64_MAX
    requires 0 < Whole(s.round) && Claimable(s, claims) && Claimants(claims) == s.vouchers.Keys
    ensures AllSucceed(s, ClaimOps(claims)) <==> Sum(Worths(s)) <= Balance(s.offers, OfferWallet)
    ensures AllSucceed(s, ClaimOps(claims)) ==>
              var t := Run(s, ClaimOps(claims));
              && t.vouchers == map[]
              && Balance(t.offers, OfferWallet) == Balance(s.offers, OfferWallet) - Sum(Worths(s))
  {
    ClaimsServed(s, claims);
    assert Worths(s).Keys == s.vouchers.Keys;
    AllServed(s, Worths(s), Run(s, ClaimOps(claims)));
  }

  ghost predicate AllHalfUp(bids: map<Pubkey, nat>, worths: map<Pubkey, nat>, whole: nat, offer: nat) {
    bids.Keys == worths.Keys && forall u :: u in bids.Keys ==> HalfUp(worths[u], bids[u], whole, offer)
  }

  lemma AllHalfUpRemove(bids: map<Pubkey, nat>, worths: map<Pubkey, nat>, u: Pubkey, whole: nat, offer: nat)
    requires AllHalfUp(bids, worths, whole, offer)
    ensures AllHalfUp(bids - {u}, worths - {u}, whole, offer)
  {
  }

  lemma {:induction false} SumWorthsBound(bids: map<Pubkey, nat>, worths: map<Pubkey, nat>, whole: nat, offer: nat)
    requires AllHalfUp(bids, worths, whole, offer)
    ensures TotalHalfUp(Sum(worths), Sum(bids), |bids|, whole, offer)
    decreases |bids|
  {
    if bids.Keys == {} {
      assert bids == map[] && worths == map[];
    } else {
      var u :| u in bids.Keys;
      SumRemove(bids, u);
      SumRemove(worths, u);
      assert |bids| == |bids - {u}| + 1;
      AllHalfUpRemove(bids, worths, u, whole, offer);
      SumWorthsBound(bids - {u}, worths - {u}, whole, offer);
      HalvesAdd(Sum(worths - {u}), Sum(bids - {u}), |bids - {u}|, worths[u], bids[u], whole, offer);
    }
  }

  lemma WorthRoundsUpByHalf(s: Sale, u: Pubkey)
    requires Settled(s) && u in s.vouchers && 0 < Whole(s.round)
    ensures HalfUp(WorthOf(s, u), s.vouchers[u].amountContributed, Whole(s.round), s.round.totalOffer.value)
  {
    BidWithinTotal(s, u);
    ShareBelow(s.vouchers[u].amountContributed, Whole(s.round), s.round.totalOffer.value);
  }

  /** Half a token per voucher beyond the recorded offer is always enough. */
  lemma WorthsWithinHalfEach(s: Sale)
    requires Settled(s) && 0 < Whole(s.round)
    ensures 2 * Sum(Worths(s)) <= 2 * s.round.totalOffer.value + |s.vouchers|
  {
    forall u | u in Amounts(s.vouchers).Keys
      ensures HalfUp(Worths(s)[u], Amounts(s.vouchers)[u], Whole(s.round), s.round.totalOffer.value)
    {
      WorthRoundsUpByHalf(s, u);
    }
    assert Amounts(s.vouchers).Keys == s.vouchers.Keys == Worths(s).Keys;
    SumWorthsBound(Amounts(s.vouchers), Worths(s), Whole(s.round), s.round.totalOffer.value);
    assert |Amounts(s.vouchers)| == |Amounts(s.vouchers).Keys| == |s.vouchers|;
    CancelWhole(Whole(s.round), s.round.totalOffer.value, Sum(Worths(s)), Contributions(s.vouchers), |s.vouchers|);
  }

  /** With half a token per voucher to spare in the offer wallet, nobody can be left out. */
  lemma SpareTokensServeEverybody(s: Sale, claims: seq<Claim>)
    requires Settled(s) && s.live && s.round.status == Accepted && Sum(s.offers) <= U64_MAX
    requires 0 < Whole(s.round) && Claimable(s, claims) && Claimants(claims) == s.vouchers.Keys
    requires 2 * s.round.totalOffer.value + |s.vouchers| <= 2 * Balance(s.offers, OfferWallet)
    ensures AllSucceed(s, ClaimOps(claims))
  {
    WorthsWithinHalfEach(s);
    EverybodyRedeemsIff(s, claims);
  }

  // ---------------------------------------------------------------- the last redeemer can be left out

  /** An offer of one token; users 1 and 2 have one bid token each. */
  function OneTokenOffered(): Result<Sale, Error> {
    CreateRound(Round(Pending, Key(8), 7, 0, 0, 10, None, None, 0, Key(9)), Some(1),
                map[Key(1) := 1, Key(2) := 1, Key(8) := 0], map[Key(9) := 1, Key(1) := 0, Key(2) := 0],
                map[], 0, false, 0)
  }

  function FirstBidIn(s: Sale): Sale {
    Step(s, ContributeBid(1, 1, Key(1), Some(1)))
  }

  /** Both bids are in. */
  function BothBidsIn(s: Sale): Sale {
    Step(FirstBidIn(s), ContributeBid(2, 2, Key(2), Some(1)))
  }

  /** Bidding is over and the heir has accepted. */
  function BidsAccepted(s: Sale): Sale {
    Step(Step(s, TimePasses(11)), AcceptBids(Key(7), false))
  }

  /** Two accepted bids of one token each for an offer of one token. */
  ghost predicate TwoBidsForOneToken(t: Sale) {
    && t.live && t.round.status == Accepted && t.round.vouchersCount == 2
    && t.vouchers == map[1 := Voucher(1, 1), 2 := Voucher(2, 1)]
    && t.round.totalBid == Some(2) && t.round.totalOffer == Some(1) && t.round.targetBid == 0
    && t.offers == map[Key(9) := 0, Key(1) := 0, Key(2) := 0, OfferWallet := 1]
  }

  lemma OneTokenOfferedIs()
    ensures OneTokenOffered().Success?
    ensures var s := OneTokenOffered().value;
            && s.live && !s.native && s.vouchers == map[] && s.now == 0
            && s.round == Round(Pending, Key(8), 7, 0, 0, 10, None, Some(1), 0, Key(9))
            && s.bids == map[Key(1) := 1, Key(2) := 1, Key(8) := 0, BidWallet := 0]
            && s.offers == map[Key(9) := 0, Key(1) := 0, Key(2) := 0, OfferWallet := 1]
  {
  }

  lemma FirstBidInIs()
    requires OneTokenOffered().Success?
    ensures var s := OneTokenOffered().value;
            && FirstBidIn(s) == s.(vouchers := map[1 := Voucher(1, 1)], round := s.round.(vouchersCount := 1),
                                   bids := map[Key(1) := 0, Key(2) := 1, Key(8) := 0, BidWallet := 1])
  {
    OneTokenOfferedIs();
  }

  lemma BothBidsInIs()
    requires OneTokenOffered().Success?
    ensures var s := OneTokenOffered().value;
            BothBidsIn(s) == s.(vouchers := map[1 := Voucher(1, 1), 2 := Voucher(2, 1)],
                                round := s.round.(vouchersCount := 2),
                                bids := map[Key(1) := 0, Key(2) := 0, Key(8) := 0, BidWallet := 2])
  {
    OneTokenOfferedIs();
    FirstBidInIs();
  }

  lemma AcceptTwoBids(b: Sale)
    requires b.live && !b.native && b.now <= 11 && b.vouchers == map[1 := Voucher(1, 1), 2 := Voucher(2, 1)]
    requires b.round.status == Pending && b.round.biddingEnd == 10 && b.round.vouchersCount == 2
    requires b.round.targetBid == 0 && b.round.recipient == Key(8)
    requires Key(8) in b.bids && b.bids[Key(8)] == 0 && BidWallet in b.bids && b.bids[BidWallet] == 2
    requires b.offers == map[Key(9) := 0, Key(1) := 0, Key(2) := 0, OfferWallet := 1]
    ensures TwoBidsForOneToken(BidsAccepted(b))
  {
  }

  lemma BidsAcceptedIs()
    ensures OneTokenOffered().Success?
    ensures TwoBidsForOneToken(BidsAccepted(BothBidsIn(OneTokenOffered().value)))
  {
    OneTokenOfferedIs();
    BothBidsInIs();
    AcceptTwoBids(BothBidsIn(OneTokenOffered().value));
  }

  lemma WorthOneToken(r: Round)
    requires r.totalBid == Some(2) && r.totalOffer == Some(1) && r.targetBid == 0
    ensures RedeemAmount(r, 1) == Success(1)
  {
    RedeemAmountIs(2, 2, 1, 1, 1);
  }

  lemma FirstRedeemerServed(t: Sale, first: Pubkey, second: Pubkey)
    requires TwoBidsForOneToken(t) && ((first == 1 && second == 2) || (first == 2 && second == 1))
    ensures Redeem(t, first, Key(first)).Success?
    ensures var u := Redeem(t, first, Key(first)).value;
            && u.live && u.round == t.round.(vouchersCount := 1)
            && u.vouchers == map[second := t.vouchers[second]]
            && Key(second) in u.offers && OfferWallet in u.offers && u.offers[OfferWallet] == 0
  {
    WorthOneToken(t.round);
    assert t.vouchers - {first} == map[second := t.vouchers[second]];
  }

  lemma SecondRedeemerBlocked(u: Sale, second: Pubkey, payer: Pubkey, signed: bool)
    requires u.live && u.round.status == Accepted && u.round.vouchersCount == 1 && second in u.vouchers
    requires u.round.totalBid == Some(2) && u.round.totalOffer == Some(1) && u.round.targetBid == 0
    requires u.vouchers[second].amountContributed == 1
    requires Key(second) in u.offers && OfferWallet in u.offers && u.offers[OfferWallet] == 0
    ensures Redeem(u, second, Key(second)) == Failure(TransferFailed)
    ensures Withdraw(u, second, payer, signed).Failure? && Close(u).Failure?
  {
    WorthOneToken(u.round);
  }

  /**
   Each of two equal bids for one token is worth half a token, which rounds up to the whole one: after either
   redemption the other voucher can neither be redeemed nor refunded, and the round cannot be closed.
   */
  lemma LastRedeemerBlocked(first: Pubkey, second: Pubkey, payer: Pubkey, signed: bool)
    requires (first == 1 && second == 2) || (first == 2 && second == 1)
    ensures OneTokenOffered().Success?
    ensures var t := BidsAccepted(BothBidsIn(OneTokenOffered().value));
            && Redeem(t, first, Key(first)).Success?
            && (var u := Redeem(t, first, Key(first)).value;
                && Redeem(u, second, Key(second)) == Failure(TransferFailed)
                && Withdraw(u, second, payer, signed).Failure?
                && Close(u).Failure?)
  {
    BidsAcceptedIs();
    var t := BidsAccepted(BothBidsIn(OneTokenOffered().value));
    FirstRedeemerServed(t, first, second);
    SecondRedeemerBlocked(Redeem(t, first, Key(first)).value, second, payer, signed);
  }
}
