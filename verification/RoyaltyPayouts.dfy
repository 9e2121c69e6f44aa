/**
 What the vouchers of a distribution receive together, what that leaves on the state account, and exactly
 when a distribution can be completed.
 */
module RoyaltyPayouts {
  import opened MachineInts
  import opened Arithmetic
  import opened FixedPoint
  import opened Sums
  import opened RoyaltyState
  import opened RoyaltySteps
  import opened RoyaltyInvariant
  import opened RoyaltyAccounting

  // ---------------------------------------------------------------- totals

  ghost function Payouts(vouchers: map<Pubkey, Voucher>, users: set<Pubkey>, tokens: u64,
                         amount: u64): map<Pubkey, nat> {
    map u | u in users && u in vouchers :: Payout(vouchers[u].balance, tokens, amount)
  }

  /** What `users` receive together when `amount` is distributed over `tokens` staked. */
  ghost function TotalPayout(vouchers: map<Pubkey, Voucher>, users: set<Pubkey>, tokens: u64, amount: u64): nat {
    Sum(Payouts(vouchers, users, tokens, amount))
  }

  ghost function Stakes(vouchers: map<Pubkey, Voucher>, users: set<Pubkey>): map<Pubkey, nat> {
    map u | u in users && u in vouchers :: vouchers[u].balance
  }

  lemma TotalAddOne(vouchers: map<Pubkey, Voucher>, users: set<Pubkey>, u: Pubkey, tokens: u64, amount: u64)
    requires u in vouchers && u !in users
    ensures TotalPayout(vouchers, users + {u}, tokens, amount)
         == TotalPayout(vouchers, users, tokens, amount) + Payout(vouchers[u].balance, tokens, amount)
  {
    var before := Payouts(vouchers, users, tokens, amount);
    assert Payouts(vouchers, users + {u}, tokens, amount) == before[u := Payout(vouchers[u].balance, tokens, amount)];
    SumUpdate(before, u, Payout(vouchers[u].balance, tokens, amount));
  }

  lemma StakesAddOne(vouchers: map<Pubkey, Voucher>, users: set<Pubkey>, u: Pubkey)
    requires u in vouchers && u !in users
    ensures Sum(Stakes(vouchers, users + {u})) == Sum(Stakes(vouchers, users)) + vouchers[u].balance
  {
    var before := Stakes(vouchers, users);
    assert Stakes(vouchers, users + {u}) == before[u := vouchers[u].balance];
    SumUpdate(before, u, vouchers[u].balance);
  }

  /** Totals depend on the balances only. */
  lemma TotalFrozen(vouchers: map<Pubkey, Voucher>, later: map<Pubkey, Voucher>, users: set<Pubkey>,
                    tokens: u64, amount: u64)
    requires Balances(later) == Balances(vouchers)
    ensures TotalPayout(later, users, tokens, amount) == TotalPayout(vouchers, users, tokens, amount)
  {
    assert later.Keys == Balances(later).Keys == Balances(vouchers).Keys == vouchers.Keys;
    forall u | u in vouchers.Keys
      ensures later[u].balance == vouchers[u].balance
    {
      assert Balances(later)[u] == Balances(vouchers)[u];
    }
    assert Payouts(later, users, tokens, amount) == Payouts(vouchers, users, tokens, amount);
  }

  lemma {:induction false} TotalUnion(vouchers: map<Pubkey, Voucher>, a: set<Pubkey>, b: set<Pubkey>,
                                      tokens: u64, amount: u64)
    requires b <= vouchers.Keys && a !! b
    ensures TotalPayout(vouchers, a + b, tokens, amount)
         == TotalPayout(vouchers, a, tokens, amount) + TotalPayout(vouchers, b, tokens, amount)
    decreases b
  {
    if b == {} {
      assert a + b == a;
      assert Payouts(vouchers, b, tokens, amount) == map[];
    } else {
      var u :| u in b;
      TotalUnion(vouchers, a, b - {u}, tokens, amount);
      TotalAddOne(vouchers, a + (b - {u}), u, tokens, amount);
      TotalAddOne(vouchers, b - {u}, u, tokens, amount);
      assert a + (b - {u}) + {u} == a + b && b - {u} + {u} == b;
    }
  }

  /** What `users` receive together is within the rounding bounds of what they stake. */
  ghost predicate Bounded(vouchers: map<Pubkey, Voucher>, users: set<Pubkey>, tokens: u64, amount: u64) {
    Within(tokens, TotalPayout(vouchers, users, tokens, amount), amount, Sum(Stakes(vouchers, users)), |users|)
  }

  /** One more user is one more rounding error. */
  lemma BoundedAddOne(vouchers: map<Pubkey, Voucher>, rest: set<Pubkey>, u: Pubkey, tokens: u64, amount: u64)
    requires Bounded(vouchers, rest, tokens, amount) && u in vouchers && u !in rest
    requires 0 < tokens && vouchers[u].balance <= tokens
    ensures Bounded(vouchers, rest + {u}, tokens, amount)
  {
    TotalAddOne(vouchers, rest, u, tokens, amount);
    StakesAddOne(vouchers, rest, u);
    PayoutBounds(vouchers[u].balance, tokens, amount);
    WithinAdds(tokens, TotalPayout(vouchers, rest, tokens, amount), amount, Sum(Stakes(vouchers, rest)), |rest|,
               Payout(vouchers[u].balance, tokens, amount), vouchers[u].balance);
  }

  lemma NobodyBounded(vouchers: map<Pubkey, Voucher>, tokens: u64, amount: u64)
    ensures Bounded(vouchers, {}, tokens, amount)
  {
    assert Payouts(vouchers, {}, tokens, amount) == map[] && Stakes(vouchers, {}) == map[];
  }

  /** Rounding errors add up: at most a half above, and 1/2 + D / 10^12 below, per voucher. */
  lemma {:induction false} TotalBounds(vouchers: map<Pubkey, Voucher>, users: set<Pubkey>, tokens: u64, amount: u64)
    requires users <= vouchers.Keys && 0 < tokens
    requires forall u :: u in users ==> vouchers[u].balance <= tokens
    ensures Bounded(vouchers, users, tokens, amount)
    decreases users
  {
    if users == {} {
      NobodyBounded(vouchers, tokens, amount);
    } else {
      var u :| u in users;
      TotalBounds(vouchers, users - {u}, tokens, amount);
      BoundedAddOne(vouchers, users - {u}, u, tokens, amount);
      assert users - {u} + {u} == users;
    }
  }

  ghost predicate Within(tokens: nat, total: nat, amount: nat, stakes: nat, n: nat) {
    TotalAtMost(tokens, total, amount, stakes, n) && TotalAtLeast(tokens, total, amount, stakes, n)
  }

  ghost predicate TotalAtMost(tokens: nat, total: nat, amount: nat, stakes: nat, n: nat) {
    2 * (tokens * total) <= 2 * (amount * stakes) + n * tokens
  }

  ghost predicate TotalAtLeast(tokens: nat, total: nat, amount: nat, stakes: nat, n: nat) {
    2 * ONE * (tokens * total) + n * (tokens * (2 * amount + ONE)) >= 2 * ONE * (amount * stakes) + n
  }

  lemma PayoutBounds(balance: u64, tokens: u64, amount: u64)
    requires 0 < tokens && balance <= tokens
    ensures Within(tokens, Payout(balance, tokens, amount), amount, balance, 1)
  {
    PayoutAccuracy(balance, tokens, amount);
    SingleBounds(tokens, Payout(balance, tokens, amount), amount, balance);
  }

  lemma SingleBounds(tokens: nat, payout: nat, amount: nat, balance: nat)
    requires 2 * tokens * payout <= 2 * amount * balance + tokens
    requires 2 * ONE * tokens * payout > 2 * ONE * amount * balance - tokens * (2 * amount + ONE)
    ensures TotalAtMost(tokens, payout, amount, balance, 1)
    ensures TotalAtLeast(tokens, payout, amount, balance, 1)
  {
    assert 2 * tokens * payout == 2 * (tokens * payout) && 2 * amount * balance == 2 * (amount * balance);
    assert 2 * ONE * tokens * payout == 2 * ONE * (tokens * payout);
    assert 2 * ONE * amount * balance == 2 * ONE * (amount * balance);
  }

  lemma AtMostAdds(tokens: nat, total: nat, amount: nat, stakes: nat, n: nat, payout: nat, balance: nat)
    requires TotalAtMost(tokens, total, amount, stakes, n) && TotalAtMost(tokens, payout, amount, balance, 1)
    ensures TotalAtMost(tokens, total + payout, amount, stakes + balance, n + 1)
  {
    assert tokens * (total + payout) == tokens * total + tokens * payout;
    assert amount * (stakes + balance) == amount * stakes + amount * balance;
    assert (n + 1) * tokens == n * tokens + tokens;
  }

  lemma AtLeastAdds(tokens: nat, total: nat, amount: nat, stakes: nat, n: nat, payout: nat, balance: nat)
    requires TotalAtLeast(tokens, total, amount, stakes, n) && TotalAtLeast(tokens, payout, amount, balance, 1)
    ensures TotalAtLeast(tokens, total + payout, amount, stakes + balance, n + 1)
  {
    var slack := tokens * (2 * amount + ONE);
    assert tokens * (total + payout) == tokens * total + tokens * payout;
    assert amount * (stakes + balance) == amount * stakes + amount * balance;
    assert (n + 1) * slack == n * slack + slack;
  }

  lemma WithinAdds(tokens: nat, total: nat, amount: nat, stakes: nat, n: nat, payout: nat, balance: nat)
    requires Within(tokens, total, amount, stakes, n) && Within(tokens, payout, amount, balance, 1)
    ensures Within(tokens, total + payout, amount, stakes + balance, n + 1)
  {
    AtMostAdds(tokens, total, amount, stakes, n, payout, balance);
    AtLeastAdds(tokens, total, amount, stakes, n, payout, balance);
  }

  /** When the stakes involved are at most all the tokens, the tokens cancel. */
  lemma CancelTokens(tokens: nat, total: nat, amount: nat, stakes: nat, n: nat)
    requires 0 < tokens && stakes <= tokens
    requires TotalAtMost(tokens, total, amount, stakes, n)
    ensures 2 * total <= 2 * amount + n
  {
    MulMono(stakes, tokens, amount);
    assert tokens * (2 * total) <= tokens * (2 * amount + n);
    if 2 * total > 2 * amount + n {
      MulMono(2 * amount + n + 1, 2 * total, tokens);
    }
  }

  lemma CancelBelow(scale: nat, tokens: nat, total: nat, amount: nat, n: nat, unit: nat)
    requires 0 < n
    requires scale * (tokens * total) + n * (tokens * unit) >= scale * (amount * tokens) + n
    ensures scale * total + n * unit > scale * amount
  {
    var sum, bound := scale * total + n * unit, scale * amount;
    assert sum * tokens == scale * (tokens * total) + n * (tokens * unit) by {
      assert scale * total * tokens == scale * (tokens * total);
      assert n * unit * tokens == n * (tokens * unit);
    }
    assert bound * tokens == scale * (amount * tokens);
    if sum <= bound {
      MulMono(sum, bound, tokens);
    }
  }

  lemma CancelTokensBelow(tokens: nat, total: nat, amount: nat, n: nat)
    requires 0 < n
    requires TotalAtLeast(tokens, total, amount, tokens, n)
    ensures 2 * ONE * total > 2 * ONE * amount - n * (2 * amount + ONE)
  {
    CancelBelow(2 * ONE, tokens, total, amount, n, 2 * amount + ONE);
  }

  /**
   Payout accuracy: n vouchers holding all the tokens receive together at most D + n/2 and more than
   D - n(1/2 + D/10^12); any part of them at most D plus half their number.
   */
  lemma DistributionAccuracy(s: System, users: set<Pubkey>, amount: u64)
    requires Consistent(s) && 0 < s.state.tokensHeld && users <= s.vouchers.Keys
    ensures 2 * TotalPayout(s.vouchers, users, s.state.tokensHeld, amount) <= 2 * amount + |users|
    ensures var n, total := s.state.vouchersCount, TotalPayout(s.vouchers, s.vouchers.Keys, s.state.tokensHeld, amount);
            users == s.vouchers.Keys ==> 2 * ONE * total > 2 * ONE * amount - n * (2 * amount + ONE)
    ensures forall u :: u in users ==> Payout(s.vouchers[u].balance, s.state.tokensHeld, amount) <= amount
  {
    var tokens := s.state.tokensHeld;
    assert s.vouchers.Keys == {} ==> Balances(s.vouchers) == map[];
    forall u | u in s.vouchers.Keys
      ensures s.vouchers[u].balance <= tokens
      ensures Payout(s.vouchers[u].balance, tokens, amount) <= amount
    {
      BalanceWithinStake(s, u);
      PayoutAccuracy(s.vouchers[u].balance, tokens, amount);
    }
    TotalBounds(s.vouchers, users, tokens, amount);
    SumMono(Stakes(s.vouchers, users), Balances(s.vouchers));
    CancelTokens(tokens, TotalPayout(s.vouchers, users, tokens, amount), amount,
                 Sum(Stakes(s.vouchers, users)), |users|);
    if users == s.vouchers.Keys {
      assert Stakes(s.vouchers, users) == Balances(s.vouchers);
      CancelTokensBelow(tokens, TotalPayout(s.vouchers, users, tokens, amount), amount, |users|);
    }
  }

  // ---------------------------------------------------------------- lamport accounting

  /** What the running distribution has paid and still has to pay. */
  ghost function TotalOf(s: System, users: set<Pubkey>): nat
    requires s.state.distribution.Some?
  {
    TotalPayout(s.vouchers, users, s.state.tokensHeld, s.state.distribution.value.distributeAmount)
  }

  ghost function PaidSoFar(s: System): nat
    requires s.state.distribution.Some?
  {
    TotalOf(s, Seen(s.vouchers, s.state.dropIdx))
  }

  lemma PayOneAccounting(s: System, user: Pubkey, now: i64)
    requires s.state.distribution.Some? && PayOne(s, user, now).Success?
    ensures var t := PayOne(s, user, now).value;
            Balance(t.lamports, StateAccount) + PaidSoFar(t) == Balance(s.lamports, StateAccount) + PaidSoFar(s)
  {
    PayOneEffect(s, user, now);
    var t := PayOne(s, user, now).value;
    var d := s.state.distribution.value.distributeAmount;
    SeenGrows(s.vouchers, user, t.vouchers[user], s.state.dropIdx);
    TotalFrozen(s.vouchers, t.vouchers, Seen(t.vouchers, s.state.dropIdx), s.state.tokensHeld, d);
    TotalAddOne(s.vouchers, Seen(s.vouchers, s.state.dropIdx), user, s.state.tokensHeld, d);
  }

  lemma {:induction false} BatchAccounting(s: System, batch: seq<Pubkey>, now: i64)
    requires s.state.distribution.Some? && PayBatch(s, batch, now).Success?
    ensures var t := PayBatch(s, batch, now).value;
            Balance(t.lamports, StateAccount) + PaidSoFar(t) == Balance(s.lamports, StateAccount) + PaidSoFar(s)
  {
    if batch != [] {
      var last := |batch| - 1;
      BatchAccounting(s, batch[..last], now);
      PayOneAccounting(PayBatch(s, batch[..last], now).value, batch[last], now);
    }
  }

  /** While distributing, the state account holds R + 2 + D, less what was paid, plus what was donated since. */
  ghost predicate Accounted(s: System, donated: nat) {
    s.state.distribution.Some? ==>
      Balance(s.lamports, StateAccount) + PaidSoFar(s)
      == s.stateRent + 2 + s.state.distribution.value.distributeAmount + donated
  }

  lemma StartedAccounted(s: System, donated: nat)
    requires Tidy(s) && Accounted(s, donated) && Started(s).Success?
    ensures Accounted(Started(s).value, if s.state.distribution.Some? then donated else 0)
  {
    if s.state.distribution.None? {
      var t := Started(s).value;
      StartShape(WithOverride(s));
      IdleMeansNoneSeen(s);
      assert Payouts(t.vouchers, {}, t.state.tokensHeld, t.state.distribution.value.distributeAmount) == map[];
    }
  }

  lemma IdleMeansNoneSeen(s: System)
    requires Tidy(s) && s.state.distribution.None?
    ensures Seen(s.vouchers, s.state.dropIdx) == {}
  {
  }

  lemma DistributeAccounted(s: System, batch: seq<Pubkey>, now: i64, donated: nat)
    requires Tidy(s) && Accounted(s, donated) && Distribute(s, batch, now).Success?
    ensures Accounted(Distribute(s, batch, now).value, if s.state.distribution.Some? then donated else 0)
  {
    StartedAccounted(s, donated);
    BatchAccounting(Started(s).value, batch, now);
    PayBatchFrozen(Started(s).value, batch, now);
  }

  lemma OtherStepsAccounted(s: System, op: Op, donated: nat)
    requires Accounted(s, donated) && Apply(s, op).Success? && s.state.distribution.Some?
    requires op.ClaimReward? || op.SyncWeight? || op.SendLamports? || op.OutsideTokens?
    ensures Accounted(Apply(s, op).value,
                      donated + (if op.SendLamports? && op.to == StateAccount then op.amount else 0))
  {
    match op
    case ClaimReward(user) =>
      MoveConserves(s.lamports, VoucherAccount(user), SystemAccount(user),
                    Balance(s.lamports, VoucherAccount(user)) - s.voucherRent);
    case SendLamports(from, to, amount) =>
      MoveConserves(s.lamports, SystemAccount(from), to, amount);
    case SyncWeight(user, funder, voucher) => SyncEffect(s, user, funder, voucher);
    case _ =>
  }

  lemma StepAccounted(t: Trace, op: Op)
    requires Tidy(t.sys) && Accounted(t.sys, t.donated)
    ensures Accounted(TraceStep(t, op).sys, TraceStep(t, op).donated)
  {
    if Apply(t.sys, op).Success? {
      match op
      case DistributeTo(batch, now) => DistributeAccounted(t.sys, batch, now, t.donated);
      case DepositTokens(user, funder, amount) => DepositVouchers(t.sys, user, funder, amount);
      case WithdrawTokens(_, _, _, _, _) => WithdrawVouchers(t.sys, op);
      case _ =>
        OtherStepsKeepVouchers(t.sys, op);
        if t.sys.state.distribution.Some? {
          OtherStepsAccounted(t.sys, op, t.donated);
        }
    }
  }

  /** The state account is accounted for to the lamport over every run. */
  lemma {:induction false} LamportsAreAccountedFor(s: System, ops: seq<Op>)
    requires Initial(s)
    ensures Accounted(RunTrace(s, ops).sys, RunTrace(s, ops).donated)
  {
    if ops != [] {
      LamportsAreAccountedFor(s, ops[..|ops| - 1]);
      TraceFollowsRun(s, ops[..|ops| - 1]);
      RunKeepsOrder(s, ops[..|ops| - 1]);
      StepAccounted(RunTrace(s, ops[..|ops| - 1]), ops[|ops| - 1]);
    }
  }

  /** Every step conserves lamports; the program neither creates nor destroys any. */
  lemma DistributeConservesLamports(s: System, batch: seq<Pubkey>, now: i64)
    requires Distribute(s, batch, now).Success?
    ensures Sum(Distribute(s, batch, now).value.lamports) == Sum(s.lamports)
  {
    StartedShape(s);
    PayBatchFrozen(Started(s).value, batch, now);
  }
}
