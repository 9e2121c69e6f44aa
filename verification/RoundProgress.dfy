/** Winding a round up: exactly when contributors can be paid back, and what that leaves to close. */
module RoundProgress {
  import opened MachineInts
  import opened Sums
  import opened RoundState
  import opened RoundSteps
  import opened RoundInvariant
  import opened RoundClosing

  // ---------------------------------------------------------------- refunds succeed

  lemma AfterTemporaryWalletSucceeds(rent: u64, lamports: Ledger, currentPayer: Pubkey, amount: u64)
    requires Balance(lamports, Authority) == 0 && rent <= Balance(lamports, Key(currentPayer))
    requires Sum(lamports) + amount <= U64_MAX
    ensures AfterTemporaryWallet(rent, lamports, currentPayer, amount).Success?
  {
    MoveSucceeds(lamports, Key(currentPayer), Authority, rent);
    MoveConserves(lamports, Key(currentPayer), Authority, rent);
    SumWithBalance(lamports, Key(currentPayer), 0);
  }

  lemma TemporaryTransferSucceeds(bids: Ledger, amount: u64)
    requires Authority !in bids && BidWallet in bids && amount <= bids[BidWallet] && Sum(bids) <= U64_MAX
    ensures Transfer(bids[Authority := 0], BidWallet, Authority, amount).Success?
    ensures Transfer(bids[Authority := 0], BidWallet, Authority, amount).value.Keys == bids.Keys + {Authority}
    ensures Transfer(bids[Authority := 0], BidWallet, Authority, amount).value[Authority] == amount
  {
    SumUpdate(bids, Authority, 0);
    TransferSucceedsIff(bids[Authority := 0], BidWallet, Authority, amount);
    TransferEffect(bids[Authority := 0], BidWallet, Authority, amount);
  }

  lemma UserCanBePaid(rent: u64, lamports: Ledger, user: Pubkey, currentPayer: Pubkey, amount: u64)
    requires Balance(lamports, Authority) == 0 && rent <= Balance(lamports, Key(currentPayer))
    requires Sum(lamports) + amount <= U64_MAX
    ensures AfterTemporaryWallet(rent, lamports, currentPayer, amount).Success?
    ensures var closed := AfterTemporaryWallet(rent, lamports, currentPayer, amount).value;
            Pay(closed, Key(currentPayer), Key(user), amount).Success?
  {
    AfterTemporaryWalletSucceeds(rent, lamports, currentPayer, amount);
    RentComesBack(rent, lamports, currentPayer, amount);
    MoveSucceeds(AfterTemporaryWallet(rent, lamports, currentPayer, amount).value, Key(currentPayer),
                 Key(user), amount);
  }

  lemma NativeRefundSucceeds(rent: u64, bids: Ledger, lamports: Ledger, user: Pubkey, currentPayer: Pubkey, amount: u64)
    requires Balance(lamports, Authority) == 0 && Authority !in bids && rent <= Balance(lamports, Key(currentPayer))
    requires BidWallet in bids && amount <= bids[BidWallet] && Sum(bids) + Sum(lamports) <= U64_MAX
    ensures Refund(true, rent, bids, lamports, user, currentPayer, amount).Success?
  {
    SumHasTerm(bids, BidWallet);
    TemporaryTransferSucceeds(bids, amount);
    UserCanBePaid(rent, lamports, user, currentPayer, amount);
  }

  /** What a refund needs besides the tokens: a wallet to pay into, or a payer for the temporary one. */
  ghost predicate CanBePaid(native: bool, rent: u64, bids: Ledger, lamports: Ledger, user: Pubkey,
                            currentPayer: Pubkey) {
    if native then Balance(lamports, Authority) == 0 && rent <= Balance(lamports, Key(currentPayer))
    else AssociatedWallet(user) in bids
  }

  lemma RefundSucceeds(native: bool, rent: u64, bids: Ledger, lamports: Ledger, user: Pubkey,
                       currentPayer: Pubkey, amount: u64)
    requires Authority !in bids && BidWallet in bids && amount <= bids[BidWallet]
    requires CanBePaid(native, rent, bids, lamports, user, currentPayer)
    requires Sum(bids) + Sum(lamports) <= U64_MAX
    ensures Refund(native, rent, bids, lamports, user, currentPayer, amount).Success?
  {
    if native {
      NativeRefundSucceeds(rent, bids, lamports, user, currentPayer, amount);
    } else {
      TransferSucceedsIff(bids, BidWallet, AssociatedWallet(user), amount);
    }
  }

  // ---------------------------------------------------------------- winding up

  /** A refund somebody triggers, with or without the user's signature. */
  datatype Payback = Payback(user: Pubkey, currentPayer: Pubkey)

  function RefundOps(paybacks: seq<Payback>): seq<Op> {
    seq(|paybacks|, i requires 0 <= i < |paybacks| => WithdrawBid(paybacks[i].user, paybacks[i].currentPayer, false))
  }

  ghost function Refundees(paybacks: seq<Payback>): set<Pubkey> {
    set p | p in paybacks :: p.user
  }

  /** Undecided and past the heir's window: from here on anybody may trigger refunds. */
  ghost predicate Unwinding(s: Sale, donated: nat) {
    && Inv(s) && Solvent(s, donated) && s.live
    && (s.round.status == Rejected || (s.round.status == Pending && TimedOut(s.round, s.now)))
    && Sum(s.bids) + Sum(s.lamports) <= U64_MAX
  }

  /** Nobody is refunded twice. */
  ghost predicate Refundable(s: Sale, paybacks: seq<Payback>) {
    && (forall i :: 0 <= i < |paybacks| ==> paybacks[i].user in s.vouchers.Keys)
    && (forall i, j :: 0 <= i < j < |paybacks| ==> paybacks[i].user != paybacks[j].user)
  }

  /** What the i-th refund needs. A payer may also use what it was itself refunded before. */
  ghost predicate PaidInTurn(s: Sale, paybacks: seq<Payback>, i: nat)
    requires i < |paybacks|
  {
    var payer := paybacks[i].currentPayer;
    if s.native then
      && Balance(s.lamports, Authority) == 0
      && s.walletRent <= Balance(s.lamports, Key(payer))
                         + (if payer in Refundees(paybacks[..i]) && payer in s.vouchers
                            then s.vouchers[payer].amountContributed else 0)
    else AssociatedWallet(paybacks[i].user) in s.bids
  }

  ghost predicate AllPaidInTurn(s: Sale, paybacks: seq<Payback>) {
    forall i :: 0 <= i < |paybacks| ==> PaidInTurn(s, paybacks, i)
  }

  /** Every one of `users` got back exactly what it contributed and nobody else's balance changed. */
  ghost predicate Repaid(s: Sale, users: set<Pubkey>, t: Sale) {
    && t.bids.Keys == s.bids.Keys
    && (s.native ==>
          (forall a :: Balance(t.lamports, a) == Balance(s.lamports, a)
             + (if a.Key? && a.key in users && a.key in s.vouchers then s.vouchers[a.key].amountContributed else 0)))
    && (!s.native ==>
          && t.lamports == s.lamports
          && (forall a :: a in s.bids && a != BidWallet ==>
                t.bids[a] == s.bids[a] + (if a.AssociatedWallet? && a.owner in users && a.owner in s.vouchers
                                          then s.vouchers[a.owner].amountContributed else 0)))
  }

  /** What the refunds leave alone. */
  ghost predicate SameTerms(s: Sale, t: Sale) {
    && t.round == s.round.(vouchersCount := t.round.vouchersCount)
    && t.live == s.live && t.now == s.now && t.native == s.native && t.walletRent == s.walletRent
    && t.offers == s.offers && t.offchain == s.offchain
    && Sum(t.bids) + Sum(t.lamports) == Sum(s.bids) + Sum(s.lamports)
  }

  lemma BidWithinWallet(s: Sale, donated: nat, user: Pubkey)
    requires Unwinding(s, donated) && user in s.vouchers
    ensures s.vouchers[user].amountContributed <= s.bids[BidWallet]
  {
    assert Amounts(s.vouchers)[user] == s.vouchers[user].amountContributed;
    SumHasTerm(Amounts(s.vouchers), user);
  }

  lemma RefundNeedsPayment(native: bool, rent: u64, bids: Ledger, lamports: Ledger, user: Pubkey, currentPayer: Pubkey,
                           amount: u64)
    requires Refund(native, rent, bids, lamports, user, currentPayer, amount).Success?
    ensures CanBePaid(native, rent, bids, lamports, user, currentPayer)
  {
  }

  /**
   While unwinding, an unsigned withdrawal succeeds exactly when there is somewhere to pay to: the user's wallet
   exists, or, for wrapped SOL, the payer has the rent and the authority's address holds no lamports.
   */
  lemma WithdrawSucceedsIff(s: Sale, donated: nat, user: Pubkey, currentPayer: Pubkey)
    requires Unwinding(s, donated) && user in s.vouchers
    ensures Withdraw(s, user, currentPayer, false).Success? <==>
              CanBePaid(s.native, s.walletRent, s.bids, s.lamports, user, currentPayer)
  {
    WithdrawWindow(s.round, s.now, false);
    BidWithinWallet(s, donated, user);
    CountOneLess(s.round.vouchersCount, s.vouchers, s.offchain, user);
    if CanBePaid(s.native, s.walletRent, s.bids, s.lamports, user, currentPayer) {
      RefundSucceeds(s.native, s.walletRent, s.bids, s.lamports, user, currentPayer,
                     s.vouchers[user].amountContributed);
    } else if Withdraw(s, user, currentPayer, false).Success? {
      RefundNeedsPayment(s.native, s.walletRent, s.bids, s.lamports, user, currentPayer,
                         s.vouchers[user].amountContributed);
    }
  }

  lemma ReturnBidKeepsUnwinding(s: Sale, donated: nat, user: Pubkey, currentPayer: Pubkey)
    requires Unwinding(s, donated) && user in s.vouchers && ReturnBid(s, user, currentPayer).Success?
    ensures var t := ReturnBid(s, user, currentPayer).value;
            && t.vouchers == s.vouchers - {user} && Unwinding(t, donated) && SameTerms(s, t)
            && Refunded(s.native, s.bids, s.lamports, user, s.vouchers[user].amountContributed, t.bids, t.lamports)
  {
    ReturnBidEffect(s, user, currentPayer);
    ReturnBidKeeps(s, user, currentPayer, donated);
    RefundEffect(s.native, s.walletRent, s.bids, s.lamports, user, currentPayer, s.vouchers[user].amountContributed);
  }

  lemma RepaidOneMore(s: Sale, users: set<Pubkey>, m: Sale, user: Pubkey, t: Sale)
    requires Repaid(s, users, m) && m.native == s.native && user in s.vouchers && user !in users
    requires Refunded(s.native, m.bids, m.lamports, user, s.vouchers[user].amountContributed, t.bids, t.lamports)
    ensures Repaid(s, users + {user}, t)
  {
  }

  /** After the refunds of `users`, what a refund needs can be read off the original balances. */
  lemma PaidAfter(s: Sale, users: set<Pubkey>, m: Sale, user: Pubkey, payer: Pubkey)
    requires Repaid(s, users, m)
    ensures CanBePaid(s.native, s.walletRent, m.bids, m.lamports, user, payer) <==>
              (if s.native then
                 && Balance(s.lamports, Authority) == 0
                 && s.walletRent <= Balance(s.lamports, Key(payer))
                                    + (if payer in users && payer in s.vouchers
                                       then s.vouchers[payer].amountContributed else 0)
               else AssociatedWallet(user) in s.bids)
  {
  }

  lemma LastPayback(s: Sale, paybacks: seq<Payback>)
    requires paybacks != []
    ensures var last, m := |paybacks| - 1, Run(s, RefundOps(paybacks[..|paybacks| - 1]));
            && Refundees(paybacks) == Refundees(paybacks[..last]) + {paybacks[last].user}
            && (AllSucceed(s, RefundOps(paybacks)) <==>
                  AllSucceed(s, RefundOps(paybacks[..last]))
                  && Withdraw(m, paybacks[last].user, paybacks[last].currentPayer, false).Success?)
            && (Withdraw(m, paybacks[last].user, paybacks[last].currentPayer, false).Success? ==>
                  Run(s, RefundOps(paybacks))
                  == Withdraw(m, paybacks[last].user, paybacks[last].currentPayer, false).value)
  {
    var last := |paybacks| - 1;
    assert RefundOps(paybacks)[..last] == RefundOps(paybacks[..last]);
    assert paybacks == paybacks[..last] + [paybacks[last]];
  }

  /** The state after refunding `users`. */
  ghost predicate Unwound(s: Sale, donated: nat, users: set<Pubkey>, t: Sale) {
    Unwinding(t, donated) && SameTerms(s, t) && Repaid(s, users, t) && t.vouchers == s.vouchers - users
  }

  /** One more refund after those of `users`. */
  lemma PayNext(s: Sale, donated: nat, users: set<Pubkey>, m: Sale, user: Pubkey, currentPayer: Pubkey)
    requires Unwound(s, donated, users, m) && user in s.vouchers && user !in users
    ensures Withdraw(m, user, currentPayer, false).Success? <==>
              CanBePaid(s.native, s.walletRent, m.bids, m.lamports, user, currentPayer)
    ensures Withdraw(m, user, currentPayer, false).Success? ==>
              Unwound(s, donated, users + {user}, Withdraw(m, user, currentPayer, false).value)
  {
    WithdrawSucceedsIff(m, donated, user, currentPayer);
    if Withdraw(m, user, currentPayer, false).Success? {
      ReturnBidKeepsUnwinding(m, donated, user, currentPayer);
      var t := ReturnBid(m, user, currentPayer).value;
      RepaidOneMore(s, users, m, user, t);
      assert t.vouchers == s.vouchers - (users + {user});
    }
  }

  lemma NothingUnwound(s: Sale, donated: nat)
    requires Unwinding(s, donated)
    ensures Unwound(s, donated, {}, s)
  {
    assert s.vouchers - {} == s.vouchers;
  }

  lemma RefundablePrefix(s: Sale, paybacks: seq<Payback>)
    requires Refundable(s, paybacks) && paybacks != []
    ensures var last := |paybacks| - 1;
            && Refundable(s, paybacks[..last])
            && paybacks[last].user in s.vouchers && paybacks[last].user !in Refundees(paybacks[..last])
  {
  }

  lemma InTurnPrefix(s: Sale, paybacks: seq<Payback>)
    requires paybacks != []
    ensures var last := |paybacks| - 1;
            AllPaidInTurn(s, paybacks) <==> AllPaidInTurn(s, paybacks[..last]) && PaidInTurn(s, paybacks, last)
  {
    var last := |paybacks| - 1;
    forall i | 0 <= i < last
      ensures PaidInTurn(s, paybacks, i) <==> PaidInTurn(s, paybacks[..last], i)
    {
      assert paybacks[..last][..i] == paybacks[..i];
    }
  }

  lemma PaybackStep(s: Sale, donated: nat, paybacks: seq<Payback>)
    requires Refundable(s, paybacks) && paybacks != []
    requires AllSucceed(s, RefundOps(paybacks[..|paybacks| - 1]))
    requires Unwound(s, donated, Refundees(paybacks[..|paybacks| - 1]), Run(s, RefundOps(paybacks[..|paybacks| - 1])))
    ensures AllSucceed(s, RefundOps(paybacks)) <==> PaidInTurn(s, paybacks, |paybacks| - 1)
    ensures AllSucceed(s, RefundOps(paybacks)) ==>
              Unwound(s, donated, Refundees(paybacks), Run(s, RefundOps(paybacks)))
  {
    var last := |paybacks| - 1;
    var m := Run(s, RefundOps(paybacks[..last]));
    LastPayback(s, paybacks);
    RefundablePrefix(s, paybacks);
    PayNext(s, donated, Refundees(paybacks[..last]), m, paybacks[last].user, paybacks[last].currentPayer);
    PaidAfter(s, Refundees(paybacks[..last]), m, paybacks[last].user, paybacks[last].currentPayer);
  }

  /** Refunds in any order all succeed exactly when each of them can be paid in its turn. */
  lemma {:induction false} PaybacksSucceedIff(s: Sale, donated: nat, paybacks: seq<Payback>)
    requires Unwinding(s, donated) && Refundable(s, paybacks)
    ensures AllSucceed(s, RefundOps(paybacks)) <==> AllPaidInTurn(s, paybacks)
    ensures AllSucceed(s, RefundOps(paybacks)) ==>
              Unwound(s, donated, Refundees(paybacks), Run(s, RefundOps(paybacks)))
  {
    if paybacks == [] {
      NothingUnwound(s, donated);
    } else {
      RefundablePrefix(s, paybacks);
      PaybacksSucceedIff(s, donated, paybacks[..|paybacks| - 1]);
      InTurnPrefix(s, paybacks);
      LastPayback(s, paybacks);
      if AllSucceed(s, RefundOps(paybacks[..|paybacks| - 1])) {
        PaybackStep(s, donated, paybacks);
      }
    }
  }

  /**
   Winding up. Once the heir has rejected or has been silent for seven days, unsigned refunds of all vouchers in any
   order succeed exactly when each can be paid in its turn, and then repay every contributor in full. Closing then
   succeeds, and returns the whole offer, exactly if no tokens were donated to a bid wallet that is not wrapped SOL.
   */
  lemma UnwindingSucceedsIff(s: Sale, donated: nat, paybacks: seq<Payback>)
    requires Unwinding(s, donated) && SuppliesFit(s) && s.round.returnWallet in s.offers
    requires Refundable(s, paybacks) && Refundees(paybacks) == s.vouchers.Keys
    ensures AllSucceed(s, RefundOps(paybacks)) <==> AllPaidInTurn(s, paybacks)
    ensures AllSucceed(s, RefundOps(paybacks)) ==>
              && Repaid(s, s.vouchers.Keys, Run(s, RefundOps(paybacks)))
              && WoundUp(s, donated, Run(s, RefundOps(paybacks)))
  {
    PaybacksSucceedIff(s, donated, paybacks);
    if AllSucceed(s, RefundOps(paybacks)) {
      AllPaidBack(s, donated, Run(s, RefundOps(paybacks)));
    }
  }

  /** No voucher is left, and whether and how the round closes. */
  ghost predicate WoundUp(s: Sale, donated: nat, t: Sale) {
    && t.vouchers.Keys == {} && t.round.vouchersCount == 0
    && (Close(t).Success? <==> s.native || donated == 0)
    && (Close(t).Success? ==> OfferReturned(s, Close(t).value))
  }

  lemma AllPaidBack(s: Sale, donated: nat, t: Sale)
    requires Unwound(s, donated, s.vouchers.Keys, t) && SuppliesFit(s) && s.round.returnWallet in s.offers
    ensures WoundUp(s, donated, t)
  {
    assert t.vouchers.Keys == {};
    assert Amounts(t.vouchers) == map[];
    CloseSucceedsIff(t);
  }

  // ---------------------------------------------------------------- when wrapped SOL cannot be unwrapped

  lemma AuthorityLamportsStay(s: Sale, op: Op)
    requires s.native && 0 < Balance(s.lamports, Authority)
    ensures Step(s, op).native && 0 < Balance(Step(s, op).lamports, Authority)
  {
    if op.AcceptBids? && Apply(s, op).Success? {
      AcceptKeepsAuthority(s.walletRent, s.bids, s.lamports, s.round.recipient, op.rentPayer);
    } else if (op.CancelRound? || op.CloseRound?) && Apply(s, op).Success? {
      ClosingKeepsAuthority(s);
    } else if op.WithdrawBid? || op.RejectUserBid? {
      assert Apply(s, op).Failure?;
    }
  }

  lemma AcceptKeepsAuthority(rent: u64, bids: Ledger, lamports: Ledger, recipient: Address, payer: Address)
    requires BidWallet in bids && TakeBids(true, rent, bids, lamports, recipient, payer).Success?
    ensures var after := TakeBids(true, rent, bids, lamports, recipient, payer).value.1;
            Balance(lamports, Authority) <= Balance(after, Authority)
  {
    var unwrapped := Credit(lamports, Authority, rent + bids[BidWallet]).value;
    MoveConserves(unwrapped, Authority, recipient, bids[BidWallet]);
    MoveConserves(Pay(unwrapped, Authority, recipient, bids[BidWallet]).value, Authority, payer, rent);
  }

  lemma ClosingKeepsAuthority(s: Sale)
    requires OfferWallet in s.offers && CloseAll(s).Success?
    ensures Balance(CloseAll(s).value.lamports, Authority) == Balance(s.lamports, Authority)
  {
  }

  lemma {:induction false} AuthorityLamportsStayInRun(s: Sale, ops: seq<Op>)
    requires s.native && 0 < Balance(s.lamports, Authority)
    ensures Run(s, ops).native && 0 < Balance(Run(s, ops).lamports, Authority)
  {
    if ops != [] {
      var m := Run(s, ops[..|ops| - 1]);
      AuthorityLamportsStayInRun(s, ops[..|ops| - 1]);
      AuthorityLamportsStay(m, ops[|ops| - 1]);
      assert Run(s, ops) == Step(m, ops[|ops| - 1]);
    }
  }

  /**
   The temporary wallet is created at the authority's address, which fails for an address holding lamports, and no
   instruction takes them away: once any have arrived there, no refund of a native round ever succeeds again.
   */
  lemma AuthorityLamportsBlockRefunds(s: Sale, ops: seq<Op>, user: Pubkey, currentPayer: Pubkey, signed: bool)
    requires s.native && 0 < Balance(s.lamports, Authority)
    ensures Withdraw(Run(s, ops), user, currentPayer, signed).Failure?
    ensures RejectBid(Run(s, ops), user, currentPayer).Failure?
  {
    AuthorityLamportsStayInRun(s, ops);
  }
}
