/**
 Freezing, batching and completion of a distribution: what cannot change while it runs, that the choice of
 batches is irrelevant, and exactly when the remaining vouchers can be paid.
 */
module RoyaltyProgress {
  import opened Wrappers
  import opened MachineInts
  import opened Arithmetic
  import opened FixedPoint
  import opened Sequences
  import opened Sums
  import opened RoyaltyState
  import opened RoyaltySteps
  import opened RoyaltyInvariant
  import opened RoyaltyAccounting
  import opened RoyaltyPayouts

  // ---------------------------------------------------------------- frozen snapshot

  /** The snapshot a distribution is computed from. */
  ghost predicate SameSnapshot(s: System, t: System) {
    && Balances(t.vouchers) == Balances(s.vouchers)
    && t.state.tokensHeld == s.state.tokensHeld
    && t.state.vouchersCount == s.state.vouchersCount
  }

  /** While a distribution runs, everything but distributing leaves the whole state record and the snapshot alone. */
  lemma FrozenWhileDistributing(s: System, op: Op)
    requires s.state.distribution.Some? && Apply(s, op).Success? && !op.DistributeTo?
    ensures !op.DepositTokens? && !op.WithdrawTokens?
    ensures SameSnapshot(s, Apply(s, op).value) && Apply(s, op).value.state == s.state
  {
    if op.WithdrawTokens? {
      WithdrawVouchers(s, op);
    } else if !op.DepositTokens? {
      OtherStepsKeepVouchers(s, op);
    }
  }

  /** Distributing keeps the snapshot and the amount; each paid voucher brings the end one closer. */
  lemma DistributeAdvances(s: System, batch: seq<Pubkey>, now: i64)
    requires s.state.distribution.Some? && Distribute(s, batch, now).Success?
    ensures SameSnapshot(s, Distribute(s, batch, now).value)
    ensures Advanced(s.state, Distribute(s, batch, now).value.state, |batch|)
  {
    PayBatchFrozen(WithOverride(s), batch, now);
  }

  /** `n` more vouchers seen: the distribution goes on with the same amount, or it is complete. */
  ghost predicate Advanced(s: State, t: State, n: nat)
    requires s.distribution.Some?
  {
    var d := s.distribution.value;
    match t.distribution
    case Some(e) =>
      && e.distributeAmount == d.distributeAmount
      && e.seenVouchers == d.seenVouchers + n
      && t.dropIdx == s.dropIdx
    case None => d.seenVouchers + n == s.vouchersCount && t.dropIdx == s.dropIdx + 1
  }

  // ---------------------------------------------------------------- batching

  /** Paying two batches in turn is paying their concatenation. */
  lemma {:induction false} BatchesCompose(s: System, a: seq<Pubkey>, b: seq<Pubkey>, now: i64)
    requires s.state.distribution.Some?
    ensures PayBatch(s, a + b, now)
         == (match PayBatch(s, a, now)
             case Success(m) => PayBatch(m, b, now)
             case Failure(e) => Failure(e))
  {
    if b == [] {
      assert a + b == a;
    } else {
      var last := |b| - 1;
      BatchesCompose(s, a, b[..last], now);
      assert (a + b)[..|a + b| - 1] == a + b[..last];
    }
  }

  /** However the vouchers are batched, the outcome is the same, down to the error. */
  lemma BatchingIsIrrelevant(s: System, a: seq<Pubkey>, b: seq<Pubkey>, now: i64)
    requires s.state.distribution.Some?
    requires Distribute(s, a, now).Success? && Distribute(s, a, now).value.state.distribution.Some?
    ensures Distribute(Distribute(s, a, now).value, b, now) == Distribute(s, a + b, now)
  {
    BatchesCompose(WithOverride(s), a, b, now);
    var m := PayBatch(WithOverride(s), a, now).value;
    PayBatchFrozen(WithOverride(s), a, now);
    assert Distribute(s, a, now).value == m;
    assert WithOverride(m) == m;
  }

  /** A batch that goes through could also have been sent in two parts. */
  lemma BatchCanBeSplit(s: System, a: seq<Pubkey>, b: seq<Pubkey>, now: i64)
    requires Orderly(s) && s.state.distribution.Some? && b != []
    requires Distribute(s, a + b, now).Success?
    ensures Distribute(s, a, now).Success? && Distribute(s, a, now).value.state.distribution.Some?
  {
    var started := WithOverride(s);
    BatchesCompose(started, a, b, now);
    var m := PayBatch(started, a, now).value;
    PayBatchFrozen(started, a, now);
    PayBatchFrozen(m, b, now);
    PayBatchKeeps(started, a + b, now);
    BatchOnlySpends(m, b, now);
    var t := PayBatch(m, b, now).value;
    AllSeen(t.vouchers, t.state.dropIdx, t.state.distribution.value);
  }

  lemma {:induction false} BatchOnlySpends(s: System, batch: seq<Pubkey>, now: i64)
    requires s.state.distribution.Some? && PayBatch(s, batch, now).Success?
    ensures Balance(PayBatch(s, batch, now).value.lamports, StateAccount) <= Balance(s.lamports, StateAccount)
  {
    if batch != [] {
      var last := |batch| - 1;
      BatchOnlySpends(s, batch[..last], now);
      PayOneEffect(PayBatch(s, batch[..last], now).value, batch[last], now);
    }
  }

  // ---------------------------------------------------------------- when a batch can be paid

  ghost function BatchUsers(batch: seq<Pubkey>): set<Pubkey> {
    set u | u in batch
  }

  /**
   An unpaid voucher that nothing can be distributed to: nothing is staked, or the voucher holds so much more than
   `tokens_held` that its share comes out above one.
   */
  ghost predicate Unpayable(s: System, user: Pubkey) {
    && user in s.vouchers && s.vouchers[user].dropIdx == s.state.dropIdx
    && (s.state.tokensHeld == 0 || s.vouchers[user].balance * ONE / s.state.tokensHeld > ONE)
  }

  /** What a batch needs: vouchers with a share, a drop index to move to, and lamports for every payout. */
  ghost predicate BatchPayable(s: System, batch: seq<Pubkey>)
    requires s.state.distribution.Some?
  {
    batch != [] ==>
      && (forall u :: u in batch ==> !Unpayable(s, u))
      && s.state.dropIdx < U32_MAX
      && TotalOf(s, BatchUsers(batch)) <= Balance(s.lamports, StateAccount)
  }

  /** One payment succeeds exactly when the voucher has a share and the lamports are there. */
  lemma PayOneSucceedsIff(s: System, user: Pubkey, now: i64)
    requires Tidy(s) && s.state.distribution.Some?
    requires user in s.vouchers && s.vouchers[user].dropIdx == s.state.dropIdx
    ensures PayOne(s, user, now).Success? <==>
              && !Unpayable(s, user) && s.state.dropIdx < U32_MAX
              && PayoutTo(s, user) <= Balance(s.lamports, StateAccount)
  {
    SomebodyUnseen(s, user);
    if PayoutTo(s, user) <= Balance(s.lamports, StateAccount) {
      MoveSucceeds(s.lamports, StateAccount, VoucherAccount(user), PayoutTo(s, user));
    }
  }

  /** While balances add up, a voucher has a share as soon as anything is staked. */
  lemma UnpayableIffNothingStaked(s: System, user: Pubkey)
    requires Backed(s) && user in s.vouchers && s.vouchers[user].dropIdx == s.state.dropIdx
    ensures Unpayable(s, user) <==> s.state.tokensHeld == 0
  {
    if 0 < s.state.tokensHeld {
      BalanceWithinStake(s, user);
      ShareUnderWhole(s.vouchers[user].balance, s.state.tokensHeld, 0);
    }
  }

  lemma SomebodyUnseen(s: System, user: Pubkey)
    requires Tidy(s) && s.state.distribution.Some?
    requires user in s.vouchers && s.vouchers[user].dropIdx == s.state.dropIdx
    ensures s.state.distribution.value.seenVouchers < s.state.vouchersCount
  {
    AllSeen(s.vouchers, s.state.dropIdx, s.state.distribution.value);
    assert user !in Seen(s.vouchers, s.state.dropIdx);
  }

  lemma UsersGrow(batch: seq<Pubkey>)
    requires batch != [] && AllDistinct(batch)
    ensures var last := |batch| - 1;
            && BatchUsers(batch) == BatchUsers(batch[..last]) + {batch[last]}
            && batch[last] !in BatchUsers(batch[..last])
            && AllDistinct(batch[..last])
  {
    var last := |batch| - 1;
    assert batch == batch[..last] + [batch[last]];
  }

  /** Before the turn of `user` the lamports for it are still there. */
  lemma EnoughLeft(s: System, before: seq<Pubkey>, user: Pubkey, now: i64)
    requires s.state.distribution.Some? && PayBatch(s, before, now).Success?
    requires user in s.vouchers && user !in BatchUsers(before)
    ensures var m := PayBatch(s, before, now).value;
            && user in m.vouchers && m.vouchers[user].dropIdx == s.vouchers[user].dropIdx
            && (Unpayable(m, user) <==> Unpayable(s, user))
            && PayoutTo(m, user) == PayoutTo(s, user)
            && Balance(m.lamports, StateAccount) == Balance(s.lamports, StateAccount) - TotalOf(s, BatchUsers(before))
  {
    var m := PayBatch(s, before, now).value;
    PayBatchFrozen(s, before, now);
    BatchEffect(s, before, now);
    SameStakes(s, m, user);
    BatchCost(s, before, now);
  }

  /** A batch costs exactly the payouts of its users. */
  lemma {:induction false} BatchCost(s: System, batch: seq<Pubkey>, now: i64)
    requires s.state.distribution.Some? && PayBatch(s, batch, now).Success?
    ensures Balance(PayBatch(s, batch, now).value.lamports, StateAccount)
         == Balance(s.lamports, StateAccount) - TotalOf(s, BatchUsers(batch))
  {
    var d := s.state.distribution.value.distributeAmount;
    if batch == [] {
      assert Payouts(s.vouchers, BatchUsers(batch), s.state.tokensHeld, d) == map[];
    } else {
      var last := |batch| - 1;
      var m := PayBatch(s, batch[..last], now).value;
      BatchCost(s, batch[..last], now);
      BatchEffect(s, batch, now);
      UsersGrow(batch);
      PayBatchFrozen(s, batch[..last], now);
      SameStakes(s, m, batch[last]);
      PayOneEffect(m, batch[last], now);
      TotalAddOne(s.vouchers, BatchUsers(batch[..last]), batch[last], s.state.tokensHeld, d);
    }
  }

  lemma UnpayableIsNotPaid(s: System, user: Pubkey, now: i64)
    requires s.state.distribution.Some? && Unpayable(s, user)
    ensures PayOne(s, user, now).Failure?
  {
  }

  /** No batch can name it. */
  lemma {:induction false} UnpayableNotInBatch(s: System, user: Pubkey, batch: seq<Pubkey>, now: i64)
    requires s.state.distribution.Some? && Unpayable(s, user) && PayBatch(s, batch, now).Success?
    ensures user !in batch && Unpayable(PayBatch(s, batch, now).value, user)
  {
    if batch != [] {
      var last := |batch| - 1;
      var m := PayBatch(s, batch[..last], now).value;
      UnpayableNotInBatch(s, user, batch[..last], now);
      if batch[last] == user {
        UnpayableIsNotPaid(m, user, now);
      }
      PayOneEffect(m, batch[last], now);
    }
  }

  lemma PaidMeansPayable(s: System, batch: seq<Pubkey>, now: i64)
    requires s.state.distribution.Some? && PayBatch(s, batch, now).Success?
    ensures BatchPayable(s, batch)
  {
    if batch != [] {
      forall u | u in batch
        ensures !Unpayable(s, u)
      {
        if Unpayable(s, u) {
          UnpayableNotInBatch(s, u, batch, now);
        }
      }
      var last := |batch| - 1;
      PayOneEffect(PayBatch(s, batch[..last], now).value, batch[last], now);
      PayBatchFrozen(s, batch[..last], now);
      BatchCost(s, batch, now);
    }
  }

  lemma PrefixPayable(s: System, batch: seq<Pubkey>)
    requires s.state.distribution.Some? && Payees(s, batch) && BatchPayable(s, batch) && batch != []
    ensures var last := |batch| - 1;
            && Payees(s, batch[..last]) && BatchPayable(s, batch[..last])
            && batch[last] in s.vouchers && s.vouchers[batch[last]].dropIdx == s.state.dropIdx
            && batch[last] !in BatchUsers(batch[..last]) && !Unpayable(s, batch[last])
            && TotalOf(s, BatchUsers(batch)) == TotalOf(s, BatchUsers(batch[..last])) + PayoutTo(s, batch[last])
  {
    var last := |batch| - 1;
    UsersGrow(batch);
    assert batch[last] in batch;
    assert forall u :: u in batch[..last] ==> u in batch;
    TotalAddOne(s.vouchers, BatchUsers(batch[..last]), batch[last], s.state.tokensHeld,
                s.state.distribution.value.distributeAmount);
  }

  lemma {:induction false} PayableMeansPaid(s: System, batch: seq<Pubkey>, now: i64)
    requires Tidy(s) && s.state.distribution.Some? && Payees(s, batch) && BatchPayable(s, batch)
    ensures PayBatch(s, batch, now).Success?
  {
    if batch != [] {
      var last := |batch| - 1;
      PrefixPayable(s, batch);
      PayableMeansPaid(s, batch[..last], now);
      EnoughLeft(s, batch[..last], batch[last], now);
      PayBatchFrozen(s, batch[..last], now);
      PayBatchKeeps(s, batch[..last], now);
      PayOneSucceedsIff(PayBatch(s, batch[..last], now).value, batch[last], now);
    }
  }

  /** A batch of distinct unpaid vouchers is paid exactly when it is payable. */
  lemma BatchSucceedsIffPayable(s: System, batch: seq<Pubkey>, now: i64)
    requires Tidy(s) && s.state.distribution.Some? && Payees(s, batch)
    ensures PayBatch(s, batch, now).Success? <==> BatchPayable(s, batch)
  {
    if PayBatch(s, batch, now).Success? {
      PaidMeansPayable(s, batch, now);
    } else if BatchPayable(s, batch) {
      PayableMeansPaid(s, batch, now);
    }
  }

  // ---------------------------------------------------------------- completion

  /** An enumeration of the vouchers that are still to be paid. */
  ghost predicate Remaining(s: System, batch: seq<Pubkey>) {
    AllDistinct(batch) && BatchUsers(batch) == Unpaid(s.vouchers, s.state.dropIdx)
  }

  lemma {:induction false} UsersCount(batch: seq<Pubkey>)
    requires AllDistinct(batch)
    ensures |BatchUsers(batch)| == |batch|
  {
    if batch != [] {
      UsersGrow(batch);
      UsersCount(batch[..|batch| - 1]);
    }
  }

  lemma RemainingCount(s: System, batch: seq<Pubkey>)
    requires Orderly(s) && s.state.distribution.Some? && Remaining(s, batch)
    ensures Payees(s, batch) && batch != []
    ensures s.state.distribution.value.seenVouchers + |batch| == s.state.vouchersCount
  {
    var seen, unpaid := Seen(s.vouchers, s.state.dropIdx), Unpaid(s.vouchers, s.state.dropIdx);
    UsersCount(batch);
    assert seen !! unpaid && |seen + unpaid| == |seen| + |unpaid|;
    forall u | u in batch
      ensures u in s.vouchers && s.vouchers[u].dropIdx == s.state.dropIdx
    {
      assert u in BatchUsers(batch);
    }
  }

  /**
   Paying the remaining vouchers, in any order, completes the distribution exactly when each of them has a share, the
   drop index can grow, and the state account covers its rent and all remaining payouts.
   */
  lemma CompletesIff(s: System, batch: seq<Pubkey>, now: i64)
    requires Orderly(s) && s.state.distribution.Some? && Remaining(s, batch)
    ensures Distribute(s, batch, now).Success? <==>
              && (forall u :: u in Unpaid(s.vouchers, s.state.dropIdx) ==> !Unpayable(s, u))
              && s.state.dropIdx < U32_MAX
              && s.stateRent + TotalOf(s, Unpaid(s.vouchers, s.state.dropIdx)) <= Balance(s.lamports, StateAccount)
    ensures Distribute(s, batch, now).Success? ==>
              var t := Distribute(s, batch, now).value;
              t.state.distribution.None? && t.state.dropIdx == s.state.dropIdx + 1
  {
    var started := WithOverride(s);
    RemainingCount(s, batch);
    SameUsers(s, batch);
    BatchSucceedsIffPayable(started, batch, now);
    if PayBatch(started, batch, now).Success? {
      PayBatchFrozen(started, batch, now);
      BatchCost(started, batch, now);
      SettlesIff(PayBatch(started, batch, now).value);
    }
  }

  lemma SameUsers(s: System, batch: seq<Pubkey>)
    requires Remaining(s, batch)
    ensures forall u :: u in batch <==> u in Unpaid(s.vouchers, s.state.dropIdx)
  {
    assert forall u :: u in batch <==> u in BatchUsers(batch);
  }

  lemma SettlesIff(s: System)
    requires s.state.distribution.Some? && s.state.distribution.value.seenVouchers == s.state.vouchersCount
    ensures Settle(s).Success? <==> s.stateRent <= Balance(s.lamports, StateAccount) && s.state.dropIdx < U32_MAX
    ensures Settle(s).Success? ==>
              Settle(s).value.state.distribution.None? && Settle(s).value.state.dropIdx == s.state.dropIdx + 1
  {
  }

  /** While balances add up, all remaining vouchers have a share as soon as anything is staked. */
  lemma RemainingHaveShares(s: System, batch: seq<Pubkey>)
    requires Inv(s) && s.state.distribution.Some? && Remaining(s, batch)
    ensures (forall u :: u in Unpaid(s.vouchers, s.state.dropIdx) ==> !Unpayable(s, u)) <==> 0 < s.state.tokensHeld
  {
    RemainingCount(s, batch);
    SameUsers(s, batch);
    forall u | u in Unpaid(s.vouchers, s.state.dropIdx)
      ensures Unpayable(s, u) <==> s.state.tokensHeld == 0
    {
      UnpayableIffNothingStaked(s, u);
    }
    assert batch[0] in batch;
  }

  /**
   On an accounted state the lamport condition is one on rounding alone: all payouts together may exceed the
   distributed amount by at most two lamports plus what was donated since the start.
   */
  lemma CompletionDependsOnOvershoot(s: System, donated: nat, batch: seq<Pubkey>, now: i64)
    requires Inv(s) && Accounted(s, donated) && s.state.distribution.Some? && Remaining(s, batch)
    ensures Distribute(s, batch, now).Success? <==>
              && 0 < s.state.tokensHeld
              && s.state.dropIdx < U32_MAX
              && TotalOf(s, s.vouchers.Keys) <= s.state.distribution.value.distributeAmount + 2 + donated
  {
    var seen, unpaid := Seen(s.vouchers, s.state.dropIdx), Unpaid(s.vouchers, s.state.dropIdx);
    CompletesIff(s, batch, now);
    RemainingHaveShares(s, batch);
    TotalUnion(s.vouchers, seen, unpaid, s.state.tokensHeld, s.state.distribution.value.distributeAmount);
    assert seen + unpaid == s.vouchers.Keys;
  }

  /** Along every run with vouchers of this state, at most five of them, rounding can never stop a distribution. */
  lemma FiveVouchersAlwaysComplete(s: System, ops: seq<Op>, batch: seq<Pubkey>, now: i64)
    requires Initial(s) && AllOwnVouchers(ops)
    requires var t := Run(s, ops);
             && t.state.distribution.Some? && Remaining(t, batch)
             && 0 < t.state.tokensHeld && t.state.dropIdx < U32_MAX && t.state.vouchersCount <= 5
    ensures Distribute(Run(s, ops), batch, now).Success?
    ensures Distribute(Run(s, ops), batch, now).value.state.distribution.None?
  {
    TraceFollowsRun(s, ops);
    LamportsAreAccountedFor(s, ops);
    RunKeepsInvariant(s, ops);
    var t := Run(s, ops);
    CompletionDependsOnOvershoot(t, RunTrace(s, ops).donated, batch, now);
    DistributionAccuracy(t, t.vouchers.Keys, t.state.distribution.value.distributeAmount);
    CompletesIff(t, batch, now);
  }

  /**
   The rent assertion fails exactly when payouts overshoot the distributed amount by more than two lamports and
   donations.
   */
  lemma RentAssertionFailsIffOvershoot(s: System, donated: nat, batch: seq<Pubkey>, now: i64)
    requires s.state.distribution.Some? && Accounted(s, donated) && PayBatch(s, batch, now).Success?
    ensures var paid := PayBatch(s, batch, now).value;
            Settle(paid) == Failure(Panic) <==>
              PaidSoFar(paid) > s.state.distribution.value.distributeAmount + 2 + donated
  {
    BatchAccounting(s, batch, now);
    PayBatchFrozen(s, batch, now);
  }

  /** So it never does with at most five vouchers, whatever the batch. */
  lemma RentAssertionHoldsForFive(s: System, donated: nat, batch: seq<Pubkey>, now: i64)
    requires Consistent(s) && s.state.distribution.Some? && Accounted(s, donated)
    requires 0 < s.state.tokensHeld && s.state.vouchersCount <= 5
    requires PayBatch(s, batch, now).Success?
    ensures Settle(PayBatch(s, batch, now).value) != Failure(Panic)
  {
    var paid := PayBatch(s, batch, now).value;
    RentAssertionFailsIffOvershoot(s, donated, batch, now);
    PayBatchFrozen(s, batch, now);
    PayBatchKeeps(s, batch, now);
    AllSeen(paid.vouchers, paid.state.dropIdx, paid.state.distribution.value);
    DistributionAccuracy(paid, Seen(paid.vouchers, paid.state.dropIdx), paid.state.distribution.value.distributeAmount);
  }

  // ---------------------------------------------------------------- when it cannot be completed

  /** The payout of one of eight equal stakes when the amount is 4 above a multiple of 8: its half is rounded up. */
  lemma EighthRoundsUp(balance: u64, amount: u64)
    requires 0 < balance && 8 * balance <= U64_MAX && amount % 8 == 4
    ensures Payout(balance, 8 * balance, amount) == amount / 8 + 1
  {
    DivScaled(125_000_000_000, 1, balance, 0);
    assert balance * ONE == (8 * balance) * 125_000_000_000;
    DivUnique(balance * ONE, 8 * balance, 125_000_000_000, 0);
    assert amount * 125_000_000_000 + HALF == (amount / 8 + 1) * ONE;
    DivExact(amount / 8 + 1, ONE, 0);
  }

  lemma EqualTotal(vouchers: map<Pubkey, Voucher>, tokens: u64, amount: u64, payout: nat)
    requires forall u :: u in Payouts(vouchers, vouchers.Keys, tokens, amount) ==>
               Payouts(vouchers, vouchers.Keys, tokens, amount)[u] == payout
    ensures TotalPayout(vouchers, vouchers.Keys, tokens, amount) == |vouchers.Keys| * payout
  {
    var payouts := Payouts(vouchers, vouchers.Keys, tokens, amount);
    SumConstant(payouts, payout);
    assert payouts.Keys == vouchers.Keys;
  }

  /**
   Completion does fail: eight equal stakes and an amount 4 above a multiple of 8 overshoot by four lamports, so
   without a donation of at least two the last vouchers of such a distribution cannot be paid.
   */
  lemma EightEqualStakesGetStuck(s: System, donated: nat, batch: seq<Pubkey>, now: i64, balance: u64)
    requires Inv(s) && Accounted(s, donated) && s.state.distribution.Some? && Remaining(s, batch)
    requires donated < 2 && 0 < balance
    requires |s.vouchers.Keys| == 8 && (forall u :: u in s.vouchers.Keys ==> s.vouchers[u].balance == balance)
    requires s.state.tokensHeld == 8 * balance
    requires s.state.distribution.value.distributeAmount % 8 == 4
    ensures Distribute(s, batch, now).Failure?
  {
    var d := s.state.distribution.value.distributeAmount;
    CompletionDependsOnOvershoot(s, donated, batch, now);
    EighthRoundsUp(balance, d);
    EqualTotal(s.vouchers, s.state.tokensHeld, d, d / 8 + 1);
  }

  /** A distribution can be started exactly when the account holds enough above rent and the running totals fit. */
  lemma StartsIff(s: System)
    requires Sum(s.lamports) <= U64_MAX
    ensures var excess := Balance(s.lamports, StateAccount) - s.stateRent - 1;
            && (Start(s).Success? <==>
                  && DISTRIBUTION_MINIMUM_LAMPORTS <= excess
                  && s.state.totalDistributed + excess <= U64_MAX
                  && s.state.totalUserDistributed + (excess - 1) - HostCommission(excess - 1) <= U64_MAX)
            && (Start(s).Success? ==>
                  Start(s).value.state.distribution
                  == Some(Distribution(excess - 1 - HostCommission(excess - 1), 0)))
  {
    var excess := Balance(s.lamports, StateAccount) - s.stateRent - 1;
    if DISTRIBUTION_MINIMUM_LAMPORTS <= excess {
      MulBpsClosedForm(excess - 1, 250);
      MoveSucceeds(s.lamports, StateAccount, SystemAccount(s.owner), 0);
      MoveConserves(s.lamports, StateAccount, SystemAccount(s.owner), 0);
      var toOwner := Move(s.lamports, StateAccount, SystemAccount(s.owner), 0).value;
      MoveSucceeds(toOwner, StateAccount, SystemAccount(s.host), HostCommission(excess - 1));
    }
  }

  // ---------------------------------------------------------------- when it never ends

  lemma UnpayableDistribute(s: System, user: Pubkey, batch: seq<Pubkey>, now: i64)
    requires Tidy(s) && s.state.distribution.Some? && Unpayable(s, user) && Distribute(s, batch, now).Success?
    ensures var t := Distribute(s, batch, now).value;
            && t.state.distribution.Some? && t.state.dropIdx == s.state.dropIdx && Unpayable(t, user)
            && t.state.distribution.value.distributeAmount == s.state.distribution.value.distributeAmount
  {
    var paid := PayBatch(WithOverride(s), batch, now).value;
    UnpayableNotInBatch(WithOverride(s), user, batch, now);
    PayBatchFrozen(WithOverride(s), batch, now);
    PayBatchKeeps(WithOverride(s), batch, now);
    SomebodyUnseen(paid, user);
  }

  lemma UnpayableStep(s: System, user: Pubkey, op: Op)
    requires Tidy(s) && s.state.distribution.Some? && Unpayable(s, user)
    ensures var t := Step(s, op);
            && t.state.distribution.Some? && t.state.dropIdx == s.state.dropIdx && Unpayable(t, user)
            && t.state.distribution.value.distributeAmount == s.state.distribution.value.distributeAmount
  {
    if Apply(s, op).Success? {
      if op.DistributeTo? {
        UnpayableDistribute(s, user, op.batch, op.now);
      } else {
        FrozenWhileDistributing(s, op);
        OtherStepsKeepVouchers(s, op);
      }
    }
  }

  /** One such voucher keeps the distribution open for good, and with it all deposits and withdrawals frozen. */
  lemma {:induction false} UnpayableVoucherNeverEnds(s: System, user: Pubkey, ops: seq<Op>)
    requires Orderly(s) && s.state.distribution.Some? && Unpayable(s, user)
    ensures var t := Run(s, ops);
            && t.state.distribution.Some? && t.state.dropIdx == s.state.dropIdx && Unpayable(t, user)
            && t.state.distribution.value.distributeAmount == s.state.distribution.value.distributeAmount
  {
    if ops != [] {
      UnpayableVoucherNeverEnds(s, user, ops[..|ops| - 1]);
      OrderFrom(s, ops[..|ops| - 1]);
      UnpayableStep(Run(s, ops[..|ops| - 1]), user, ops[|ops| - 1]);
    }
  }

  /**
   A distribution begun with nothing staked but vouchers still open never ends: no instruction can pay a voucher,
   and deposits and withdrawals stay frozen.
   */
  lemma {:induction false} NothingStakedNeverEnds(s: System, ops: seq<Op>)
    requires Orderly(s) && s.state.distribution.Some? && s.state.tokensHeld == 0
    ensures var t := Run(s, ops);
            Orderly(t) && t.state.distribution == s.state.distribution && t.state.tokensHeld == 0
  {
    if ops != [] {
      NothingStakedNeverEnds(s, ops[..|ops| - 1]);
      StepKeeps(Run(s, ops[..|ops| - 1]), ops[|ops| - 1]);
      NothingStakedStep(Run(s, ops[..|ops| - 1]), ops[|ops| - 1]);
    }
  }

  lemma NothingStakedStep(s: System, op: Op)
    requires s.state.distribution.Some? && s.state.distribution.value.seenVouchers < s.state.vouchersCount
    requires s.state.tokensHeld == 0
    ensures Step(s, op).state.distribution == s.state.distribution && Step(s, op).state.tokensHeld == 0
  {
    if Apply(s, op).Success? {
      if op.DistributeTo? {
        DistributeAdvances(s, op.batch, op.now);
        NothingToPayWithoutStake(s, op.batch, op.now);
      } else {
        FrozenWhileDistributing(s, op);
      }
    }
  }

  lemma NothingToPayWithoutStake(s: System, batch: seq<Pubkey>, now: i64)
    requires s.state.distribution.Some? && s.state.tokensHeld == 0 && Distribute(s, batch, now).Success?
    ensures batch == []
  {
    if batch != [] {
      var m := PayBatch(WithOverride(s), batch[..|batch| - 1], now).value;
      PayBatchFrozen(WithOverride(s), batch[..|batch| - 1], now);
      PayOneEffect(m, batch[|batch| - 1], now);
    }
  }
}
