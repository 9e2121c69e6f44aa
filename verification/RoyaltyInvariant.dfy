/**
 What every reachable state of the royalty program satisfies: counts, phases, rents and solvency over all runs, stakes
 and votes over those in which every withdrawal and synchronisation is passed a voucher of this state.
 */
module RoyaltyInvariant {
  import opened Wrappers
  import opened MachineInts
  import opened Sums
  import opened RoyaltyState
  import opened RoyaltySteps

  ghost function Balances(vouchers: map<Pubkey, Voucher>): map<Pubkey, nat> {
    map u | u in vouchers :: vouchers[u].balance
  }

  /** No recorded weight but the owner's exceeds that user's stake. */
  ghost predicate WeightsWithin(weights: map<Pubkey, u64>, stakes: map<Pubkey, nat>, owner: Pubkey) {
    forall u :: u in weights.Keys && u != owner ==> u in stakes.Keys && weights[u] <= stakes[u]
  }

  /** The recorded maximum covers all stakes; before the first stake there need not be one. */
  ghost predicate MaximumCovers(maxWeight: Option<u64>, tokensHeld: nat) {
    if maxWeight.Some? then tokensHeld <= maxWeight.value else tokensHeld == 0
  }

  /** The vouchers already paid in the running distribution. */
  ghost function Seen(vouchers: map<Pubkey, Voucher>, dropIdx: nat): set<Pubkey> {
    set u | u in vouchers && vouchers[u].dropIdx == dropIdx + 1
  }

  ghost function Unpaid(vouchers: map<Pubkey, Voucher>, dropIdx: nat): set<Pubkey> {
    set u | u in vouchers && vouchers[u].dropIdx == dropIdx
  }

  /** While idle every voucher is at the state's drop index; while distributing `seen_vouchers` counts those ahead. */
  ghost predicate Phased(vouchers: map<Pubkey, Voucher>, dropIdx: nat, distribution: Option<Distribution>) {
    match distribution
    case None => vouchers.Keys == Unpaid(vouchers, dropIdx)
    case Some(d) =>
      && vouchers.Keys == Unpaid(vouchers, dropIdx) + Seen(vouchers, dropIdx)
      && |Seen(vouchers, dropIdx)| == d.seenVouchers
  }

  /** Every voucher account keeps its rent. */
  ghost predicate RentsKept(lamports: map<Account, u64>, users: set<Pubkey>, rent: u64) {
    forall u :: u in users ==> rent <= Balance(lamports, VoucherAccount(u))
  }

  /** Every voucher is counted, the owner never stakes, and the stake wallet covers `tokens_held`. */
  ghost predicate Tidy(s: System) {
    && |s.vouchers.Keys| == s.state.vouchersCount
    && s.owner !in s.vouchers.Keys
    && StakeWallet in s.tokens && s.state.tokensHeld <= Balance(s.tokens, StakeWallet)
    && MaximumCovers(s.maxWeight, s.state.tokensHeld)
    && Phased(s.vouchers, s.state.dropIdx, s.state.distribution)
    && Sum(s.lamports) <= U64_MAX
    && RentsKept(s.lamports, s.vouchers.Keys, s.voucherRent)
  }

  /** Voucher balances add up to `tokens_held`, and back the recorded weights. */
  ghost predicate Backed(s: System) {
    && Sum(Balances(s.vouchers)) == s.state.tokensHeld
    && WeightsWithin(s.weights, Balances(s.vouchers), s.owner)
  }

  /** Everything but the end of a distribution; it holds between two turns of the loop as well. */
  ghost predicate Consistent(s: System) {
    Tidy(s) && Backed(s)
  }

  /** The invariant of every reachable state: a distribution that is still running has somebody left to pay. */
  ghost predicate Orderly(s: System) {
    && Tidy(s)
    && (s.state.distribution.Some? ==> s.state.distribution.value.seenVouchers < s.state.vouchersCount)
  }

  /** What holds besides as long as no voucher of another state is passed. */
  ghost predicate Inv(s: System) {
    Orderly(s) && Backed(s)
  }

  lemma InitialInv(s: System)
    requires Initial(s)
    ensures Inv(s)
  {
    assert Balances(s.vouchers) == map[];
    assert s.vouchers.Keys == {};
  }

  // ---------------------------------------------------------------- parts of the invariant

  lemma BalancesUpdate(vouchers: map<Pubkey, Voucher>, u: Pubkey, v: Voucher)
    ensures Balances(vouchers[u := v]) == Balances(vouchers)[u := v.balance]
    ensures Sum(Balances(vouchers[u := v]))
         == Sum(Balances(vouchers)) - (if u in vouchers then vouchers[u].balance else 0) + v.balance
  {
    assert Balances(vouchers[u := v]) == Balances(vouchers)[u := v.balance];
    SumUpdate(Balances(vouchers), u, v.balance);
  }

  /** Larger stakes, or a new staker, keep the weights within bounds. */
  lemma WeightsGrow(weights: map<Pubkey, u64>, vouchers: map<Pubkey, Voucher>, u: Pubkey, v: Voucher, owner: Pubkey)
    requires WeightsWithin(weights, Balances(vouchers), owner)
    requires u in vouchers ==> vouchers[u].balance <= v.balance
    ensures WeightsWithin(weights, Balances(vouchers[u := v]), owner)
  {
    BalancesUpdate(vouchers, u, v);
  }

  /** A smaller stake does too, as long as its weight is recorded with it. */
  lemma WeightsFollow(weights: map<Pubkey, u64>, vouchers: map<Pubkey, Voucher>, u: Pubkey, v: Voucher, owner: Pubkey)
    requires WeightsWithin(weights, Balances(vouchers), owner)
    ensures WeightsWithin(weights[u := v.balance], Balances(vouchers[u := v]), owner)
  {
    BalancesUpdate(vouchers, u, v);
  }

  /** The same vouchers at the same drop indices. */
  ghost predicate SameDrops(vouchers: map<Pubkey, Voucher>, later: map<Pubkey, Voucher>) {
    && later.Keys == vouchers.Keys
    && (forall u :: u in vouchers.Keys ==> later[u].dropIdx == vouchers[u].dropIdx)
  }

  /** Rewriting vouchers without touching their drop indices changes no phase. */
  lemma PhasedSame(vouchers: map<Pubkey, Voucher>, later: map<Pubkey, Voucher>, dropIdx: nat,
                   distribution: Option<Distribution>)
    requires Phased(vouchers, dropIdx, distribution) && SameDrops(vouchers, later)
    ensures Phased(later, dropIdx, distribution)
  {
    assert Seen(later, dropIdx) == Seen(vouchers, dropIdx);
    assert Unpaid(later, dropIdx) == Unpaid(vouchers, dropIdx);
  }

  lemma PhasedOpen(vouchers: map<Pubkey, Voucher>, u: Pubkey, v: Voucher, dropIdx: nat)
    requires Phased(vouchers, dropIdx, None) && v.dropIdx == dropIdx
    ensures Phased(vouchers[u := v], dropIdx, None)
  {
    assert vouchers[u := v].Keys == vouchers.Keys + {u};
    assert Unpaid(vouchers[u := v], dropIdx) == Unpaid(vouchers, dropIdx) + {u};
  }

  /** A transfer out of anything but a voucher account keeps every rent and the supply. */
  lemma RentsMove(lamports: map<Account, u64>, from: Account, to: Account, amount: u64, users: set<Pubkey>, rent: u64)
    requires RentsKept(lamports, users, rent) && Move(lamports, from, to, amount).Some?
    requires from.VoucherAccount? ==> amount + rent <= Balance(lamports, from)
    ensures RentsKept(Move(lamports, from, to, amount).value, users, rent)
    ensures Sum(Move(lamports, from, to, amount).value) == Sum(lamports)
  {
    MoveConserves(lamports, from, to, amount);
  }

  lemma BalanceWithinStake(s: System, u: Pubkey)
    requires Backed(s) && u in s.vouchers
    ensures s.vouchers[u].balance <= s.state.tokensHeld
  {
    SumHasTerm(Balances(s.vouchers), u);
  }

  // ---------------------------------------------------------------- recording weights

  /** The supply, the state account and every voucher account are as before. */
  ghost predicate SameHoldings(before: map<Account, u64>, after: map<Account, u64>) {
    && Sum(after) == Sum(before)
    && Balance(after, StateAccount) == Balance(before, StateAccount)
    && (forall u :: Balance(after, VoucherAccount(u)) == Balance(before, VoucherAccount(u)))
  }

  /** Creating a record costs the funder its rent and moves nothing else. */
  lemma CreateRecordEffect(lamports: map<Account, u64>, funder: Pubkey, to: Account, rent: u64)
    requires to.WeightRecord? || to.MaxWeightRecord?
    requires CreateAccount(lamports, funder, to, rent).Success?
    ensures var after := CreateAccount(lamports, funder, to, rent).value;
            && SameHoldings(lamports, after)
            && (forall a :: a != SystemAccount(funder) && a != to ==> Balance(after, a) == Balance(lamports, a))
            && Balance(after, SystemAccount(funder)) == Balance(lamports, SystemAccount(funder)) - rent
  {
    MoveConserves(lamports, SystemAccount(funder), to, rent);
  }

  lemma SaveWeightEffect(s: System, user: Pubkey, weight: u64, funder: Pubkey)
    requires SaveWeight(s, user, weight, funder).Success?
    ensures var t := SaveWeight(s, user, weight, funder).value;
            && t == s.(lamports := t.lamports, weights := s.weights[user := weight])
            && SameHoldings(s.lamports, t.lamports)
  {
    if user !in s.weights {
      CreateRecordEffect(s.lamports, funder, WeightRecord(user), s.weightRent);
    }
  }

  lemma SaveMaximumEffect(s: System, weight: u64, funder: Pubkey)
    requires SaveMaximum(s, weight, funder).Success?
    ensures var t := SaveMaximum(s, weight, funder).value;
            && t == s.(lamports := t.lamports, maxWeight := Some(weight))
            && SameHoldings(s.lamports, t.lamports)
  {
    if s.maxWeight.None? {
      CreateRecordEffect(s.lamports, funder, MaxWeightRecord, s.maxWeightRent);
    }
  }

  /** The recorded maximum is all that could vote. */
  lemma RecordMaxWeightEffect(s: System, wallets: map<TokenWallet, u64>, funder: Pubkey)
    requires RecordMaxWeight(s, wallets, funder).Success?
    ensures var t := RecordMaxWeight(s, wallets, funder).value;
            && t == s.(lamports := t.lamports, maxWeight := t.maxWeight)
            && t.maxWeight == Some(s.state.tokensHeld + Balance(wallets, VaultWallet)
                                   + Balance(wallets, UserWallet(s.owner)))
            && SameHoldings(s.lamports, t.lamports)
  {
    SaveMaximumEffect(s, MaxVoteWeight(s, wallets).value, funder);
  }

  lemma RecordBothEffect(s: System, wallets: map<TokenWallet, u64>, user: Pubkey, weight: u64, funder: Pubkey)
    requires RecordBoth(s, wallets, user, weight, funder).Success?
    ensures var t := RecordBoth(s, wallets, user, weight, funder).value;
            && t == s.(lamports := t.lamports, weights := s.weights[user := weight], maxWeight := t.maxWeight)
            && t.maxWeight == Some(s.state.tokensHeld + Balance(wallets, VaultWallet)
                                   + Balance(wallets, UserWallet(s.owner)))
            && SameHoldings(s.lamports, t.lamports)
  {
    SaveWeightEffect(s, user, weight, funder);
    SaveMaximumEffect(SaveWeight(s, user, weight, funder).value, MaxVoteWeight(s, wallets).value, funder);
  }

  // ---------------------------------------------------------------- staking keeps the invariant

  /** A first voucher: counted, empty, and at the current drop index. */
  lemma OpenedTidy(s: System, t: System, user: Pubkey)
    requires Tidy(s) && s.state.distribution.None? && user !in s.vouchers && user != s.owner
    requires t == s.(lamports := t.lamports, vouchers := t.vouchers,
                     state := s.state.(vouchersCount := t.state.vouchersCount))
    requires t.vouchers == s.vouchers[user := Voucher(s.state.dropIdx, 0, 0)]
    requires t.state.vouchersCount == s.state.vouchersCount + 1
    requires Sum(t.lamports) == Sum(s.lamports)
    requires forall u :: u != user ==> Balance(t.lamports, VoucherAccount(u)) == Balance(s.lamports, VoucherAccount(u))
    requires s.voucherRent <= Balance(t.lamports, VoucherAccount(user))
    ensures Tidy(t)
  {
    PhasedOpen(s.vouchers, user, Voucher(s.state.dropIdx, 0, 0), s.state.dropIdx);
    assert t.vouchers.Keys == s.vouchers.Keys + {user};
  }

  lemma OpenVoucherKeeps(s: System, user: Pubkey, funder: Pubkey, amount: u64)
    requires Tidy(s) && s.state.distribution.None? && user != s.owner
    requires OpenVoucher(s, user, funder, amount).Success?
    ensures var t := OpenVoucher(s, user, funder, amount).value;
            && Tidy(t) && (Backed(s) ==> Backed(t)) && user in t.vouchers
            && (user !in s.vouchers ==> t.vouchers == s.vouchers[user := Voucher(s.state.dropIdx, 0, 0)])
            && (user in s.vouchers ==> t == s)
            && t.tokens == s.tokens && t.owner == s.owner
            && t.state == s.state.(vouchersCount := t.state.vouchersCount)
  {
    if user !in s.vouchers {
      var t, v := OpenVoucher(s, user, funder, amount).value, Voucher(s.state.dropIdx, 0, 0);
      MoveConserves(s.lamports, SystemAccount(funder), VoucherAccount(user), s.voucherRent);
      OpenedTidy(s, t, user);
      if Backed(s) {
        BalancesUpdate(s.vouchers, user, v);
        WeightsGrow(s.weights, s.vouchers, user, v, s.owner);
      }
    }
  }

  /** A staking instruction rewrites the total and the maximum, and leaves lamports and drop indices alone. */
  lemma RestakedTidy(s: System, t: System)
    requires Tidy(s) && SameDrops(s.vouchers, t.vouchers) && SameHoldings(s.lamports, t.lamports)
    requires t == s.(lamports := t.lamports, tokens := t.tokens, vouchers := t.vouchers, weights := t.weights,
                     maxWeight := t.maxWeight, state := s.state.(tokensHeld := t.state.tokensHeld))
    requires StakeWallet in t.tokens && t.state.tokensHeld <= Balance(t.tokens, StakeWallet)
    requires t.maxWeight.Some? && t.state.tokensHeld <= t.maxWeight.value
    ensures Tidy(t)
  {
    PhasedSame(s.vouchers, t.vouchers, s.state.dropIdx, s.state.distribution);
  }

  /** A changed stake: either it grew, or its new weight was recorded with it. */
  lemma RestakedBacked(s: System, t: System, user: Pubkey, v: Voucher)
    requires Backed(s) && user in s.vouchers
    requires t.owner == s.owner && t.vouchers == s.vouchers[user := v]
    requires t.state.tokensHeld == s.state.tokensHeld - s.vouchers[user].balance + v.balance
    requires || t.weights == s.weights[user := v.balance]
             || (t.weights == s.weights && s.vouchers[user].balance <= v.balance)
    ensures Backed(t)
  {
    BalancesUpdate(s.vouchers, user, v);
    if t.weights == s.weights[user := v.balance] {
      WeightsFollow(s.weights, s.vouchers, user, v, s.owner);
    } else {
      WeightsGrow(s.weights, s.vouchers, user, v, s.owner);
    }
  }

  /** Putting tokens in. */
  lemma StakeEffect(s: System, user: Pubkey, amount: u64)
    requires user in s.vouchers && Stake(s, user, amount).Success?
    ensures var t, v := Stake(s, user, amount).value, s.vouchers[user];
            && v.balance + amount <= U64_MAX && s.state.tokensHeld + amount <= U64_MAX
            && t == s.(tokens := t.tokens, vouchers := s.vouchers[user := v.(balance := v.balance + amount)],
                       state := s.state.(tokensHeld := s.state.tokensHeld + amount))
            && t.tokens.Keys >= s.tokens.Keys
            && Balance(t.tokens, StakeWallet) == Balance(s.tokens, StakeWallet) + amount
  {
    MoveConserves(s.tokens, UserWallet(user), StakeWallet, amount);
  }

  lemma StakeKeeps(s: System, user: Pubkey, amount: u64, wallets: map<TokenWallet, u64>, funder: Pubkey)
    requires Tidy(s) && user in s.vouchers && Stake(s, user, amount).Success?
    requires RecordMaxWeight(Stake(s, user, amount).value, wallets, funder).Success?
    ensures var t := RecordMaxWeight(Stake(s, user, amount).value, wallets, funder).value;
            Tidy(t) && (Backed(s) ==> Backed(t)) && t.state.distribution == s.state.distribution
  {
    var m := Stake(s, user, amount).value;
    var t := RecordMaxWeight(m, wallets, funder).value;
    StakeEffect(s, user, amount);
    RecordMaxWeightEffect(m, wallets, funder);
    RestakedTidy(s, t);
    if Backed(s) {
      RestakedBacked(s, t, user, m.vouchers[user]);
    }
  }

  lemma DepositKeeps(s: System, user: Pubkey, funder: Pubkey, amount: u64)
    requires Orderly(s) && Deposit(s, user, funder, amount).Success?
    ensures var t := Deposit(s, user, funder, amount).value;
            Orderly(t) && (Backed(s) ==> Backed(t))
  {
    OpenVoucherKeeps(WithOverride(s), user, funder, amount);
    StakeKeeps(OpenVoucher(WithOverride(s), user, funder, amount).value, user, amount, s.tokens, funder);
  }

  /** A withdrawal, field by field; a voucher of another state is not one of these. */
  ghost predicate Withdrawn(s: System, user: Pubkey, amount: u64, voucher: VoucherArg, t: System) {
    && VoucherBalance(s, user, voucher).Some? && amount <= VoucherBalance(s, user, voucher).value
    && amount <= s.state.tokensHeld
    && t == s.(lamports := t.lamports, tokens := t.tokens, vouchers := t.vouchers, weights := t.weights,
               maxWeight := t.maxWeight, state := s.state.(tokensHeld := s.state.tokensHeld - amount))
    && t.vouchers == (if voucher.Foreign? then s.vouchers
                      else s.vouchers[user := s.vouchers[user].(balance := s.vouchers[user].balance - amount)])
    && t.weights == s.weights[user := VoucherBalance(s, user, voucher).value - amount]
    && t.tokens.Keys >= s.tokens.Keys
    && Balance(t.tokens, StakeWallet) == Balance(s.tokens, StakeWallet) - amount
    && t.maxWeight.Some? && t.state.tokensHeld <= t.maxWeight.value
    && SameHoldings(s.lamports, t.lamports)
  }

  lemma WithdrawSteps(s: System, user: Pubkey, amount: u64, openVotes: bool, funder: Pubkey, voucher: VoucherArg)
    requires Withdraw(s, user, amount, openVotes, funder, voucher).Success?
    ensures VoucherBalance(s, user, voucher).Some? && amount <= VoucherBalance(s, user, voucher).value
    ensures s.state.distribution.None?
    ensures Unstake(s, user, amount, voucher).Success?
    ensures RecordBoth(Unstake(s, user, amount, voucher).value, s.tokens, user,
                       VoucherBalance(s, user, voucher).value - amount, funder)
         == Withdraw(s, user, amount, openVotes, funder, voucher)
  {
  }

  lemma UnstakeEffect(s: System, user: Pubkey, amount: u64, voucher: VoucherArg)
    requires VoucherBalance(s, user, voucher).Some? && amount <= VoucherBalance(s, user, voucher).value
    requires Unstake(s, user, amount, voucher).Success?
    ensures var m := Unstake(s, user, amount, voucher).value;
            && amount <= s.state.tokensHeld
            && m == s.(tokens := m.tokens, vouchers := m.vouchers,
                       state := s.state.(tokensHeld := s.state.tokensHeld - amount))
            && m.vouchers == (if voucher.Foreign? then s.vouchers
                              else s.vouchers[user := s.vouchers[user].(balance := s.vouchers[user].balance - amount)])
            && m.tokens.Keys >= s.tokens.Keys
            && Balance(m.tokens, StakeWallet) == Balance(s.tokens, StakeWallet) - amount
            && Balance(m.tokens, UserWallet(user)) == Balance(s.tokens, UserWallet(user)) + amount
  {
    MoveConserves(s.tokens, StakeWallet, UserWallet(user), amount);
  }

  lemma WithdrawEffect(s: System, user: Pubkey, amount: u64, openVotes: bool, funder: Pubkey, voucher: VoucherArg)
    requires Withdraw(s, user, amount, openVotes, funder, voucher).Success?
    ensures Withdrawn(s, user, amount, voucher, Withdraw(s, user, amount, openVotes, funder, voucher).value)
  {
    WithdrawSteps(s, user, amount, openVotes, funder, voucher);
    UnstakeEffect(s, user, amount, voucher);
    RecordBothEffect(Unstake(s, user, amount, voucher).value, s.tokens, user,
                     VoucherBalance(s, user, voucher).value - amount, funder);
  }

  lemma WithdrawnTidy(s: System, user: Pubkey, amount: u64, voucher: VoucherArg, t: System)
    requires Tidy(s) && Withdrawn(s, user, amount, voucher, t)
    ensures Tidy(t)
  {
    RestakedTidy(s, t);
  }

  lemma WithdrawnBacked(s: System, user: Pubkey, amount: u64, t: System)
    requires Backed(s) && Withdrawn(s, user, amount, Own, t)
    ensures Backed(t)
  {
    RestakedBacked(s, t, user, t.vouchers[user]);
  }

  lemma ClaimKeeps(s: System, user: Pubkey)
    requires Orderly(s) && Claim(s, user).Success?
    ensures Orderly(Claim(s, user).value) && (Backed(s) ==> Backed(Claim(s, user).value))
  {
    var amount := Balance(s.lamports, VoucherAccount(user)) - s.voucherRent;
    RentsMove(s.lamports, VoucherAccount(user), SystemAccount(user), amount, s.vouchers.Keys, s.voucherRent);
  }

  /** Synchronising writes the two records and nothing else. */
  lemma SyncEffect(s: System, user: Pubkey, funder: Pubkey, voucher: VoucherArg)
    requires SyncWeightRecord(s, user, funder, voucher).Success?
    ensures var t := SyncWeightRecord(s, user, funder, voucher).value;
            && WeightOf(s, user, voucher).Success?
            && t == s.(lamports := t.lamports, weights := s.weights[user := WeightOf(s, user, voucher).value],
                       maxWeight := t.maxWeight)
            && t.maxWeight == Some(s.state.tokensHeld + Balance(s.tokens, VaultWallet)
                                   + Balance(s.tokens, UserWallet(s.owner)))
            && SameHoldings(s.lamports, t.lamports)
  {
    var weight := WeightOf(s, user, voucher).value;
    SaveWeightEffect(s, user, weight, funder);
    RecordMaxWeightEffect(SaveWeight(s, user, weight, funder).value, s.tokens, funder);
  }

  lemma SyncKeeps(s: System, user: Pubkey, funder: Pubkey, voucher: VoucherArg)
    requires Orderly(s) && SyncWeightRecord(s, user, funder, voucher).Success?
    ensures var t := SyncWeightRecord(s, user, funder, voucher).value;
            Orderly(t) && (Backed(s) && voucher.Own? ==> Backed(t))
  {
    SyncEffect(s, user, funder, voucher);
    RestakedTidy(s, SyncWeightRecord(s, user, funder, voucher).value);
    if user in s.vouchers {
      assert Balances(s.vouchers)[user] == s.vouchers[user].balance;
    }
  }

  lemma OutsideKeeps(s: System, op: Op)
    requires Orderly(s) && (op.SendLamports? || op.OutsideTokens?) && Apply(s, op).Success?
    ensures Orderly(Apply(s, op).value) && (Backed(s) ==> Backed(Apply(s, op).value))
  {
    if op.SendLamports? {
      RentsMove(s.lamports, SystemAccount(op.from), op.to, op.amount, s.vouchers.Keys, s.voucherRent);
    }
  }

  // ---------------------------------------------------------------- distributing keeps the invariant

  /** What a distribution step leaves alone: stakes, votes, tokens and the distributed amount. */
  ghost predicate Frozen(s: System, t: System)
    requires s.state.distribution.Some? && t.state.distribution.Some?
  {
    && t == s.(lamports := t.lamports, vouchers := t.vouchers,
               state := s.state.(distribution := t.state.distribution))
    && Balances(t.vouchers) == Balances(s.vouchers)
    && t.vouchers.Keys == s.vouchers.Keys
    && t.state.distribution.value.distributeAmount == s.state.distribution.value.distributeAmount
    && Sum(t.lamports) == Sum(s.lamports)
  }

  /** Lamports only ever leave the state account, for the host, and the distributed amount is what stays above R + 2. */
  lemma StartShape(s: System)
    requires Start(s).Success?
    ensures var t := Start(s).value;
            && t == s.(lamports := t.lamports,
                       state := s.state.(totalDistributed := t.state.totalDistributed,
                                         totalUserDistributed := t.state.totalUserDistributed,
                                         distribution := t.state.distribution))
            && t.state.distribution.value.seenVouchers == 0
            && Balance(t.lamports, StateAccount) == s.stateRent + 2 + t.state.distribution.value.distributeAmount
            && Sum(t.lamports) == Sum(s.lamports)
            && (forall u :: Balance(t.lamports, VoucherAccount(u)) == Balance(s.lamports, VoucherAccount(u)))
  {
    var commission := HostCommission(Balance(s.lamports, StateAccount) - s.stateRent - 2);
    CommissionsPaid(s.lamports, s.owner, s.host, commission);
  }

  /** The owner's commission of nothing and the host's leave the state account. */
  lemma CommissionsPaid(lamports: map<Account, u64>, owner: Pubkey, host: Pubkey, commission: u64)
    requires Move(lamports, StateAccount, SystemAccount(owner), 0).Some?
    requires Move(Move(lamports, StateAccount, SystemAccount(owner), 0).value, StateAccount, SystemAccount(host),
                  commission).Some?
    ensures var toOwner := Move(lamports, StateAccount, SystemAccount(owner), 0).value;
            var toHost := Move(toOwner, StateAccount, SystemAccount(host), commission).value;
            && Sum(toHost) == Sum(lamports)
            && Balance(toHost, StateAccount) == Balance(lamports, StateAccount) - commission
            && (forall u :: Balance(toHost, VoucherAccount(u)) == Balance(lamports, VoucherAccount(u)))
  {
    var toOwner := Move(lamports, StateAccount, SystemAccount(owner), 0).value;
    MoveConserves(lamports, StateAccount, SystemAccount(owner), 0);
    MoveConserves(toOwner, StateAccount, SystemAccount(host), commission);
  }

  /** Any change of the state's counters and lamports that starts a distribution. */
  lemma OpenedDistributionKeeps(s: System, t: System)
    requires Tidy(s) && s.state.distribution.None?
    requires t == s.(lamports := t.lamports,
                     state := s.state.(totalDistributed := t.state.totalDistributed,
                                       totalUserDistributed := t.state.totalUserDistributed,
                                       distribution := t.state.distribution))
    requires t.state.distribution.Some? && t.state.distribution.value.seenVouchers == 0
    requires Sum(t.lamports) == Sum(s.lamports)
    requires forall u :: Balance(t.lamports, VoucherAccount(u)) == Balance(s.lamports, VoucherAccount(u))
    ensures Tidy(t)
  {
    PhasedStart(s.vouchers, s.state.dropIdx, t.state.distribution.value);
  }

  lemma PhasedStart(vouchers: map<Pubkey, Voucher>, dropIdx: nat, d: Distribution)
    requires Phased(vouchers, dropIdx, None) && d.seenVouchers == 0
    ensures Phased(vouchers, dropIdx, Some(d))
  {
    assert Seen(vouchers, dropIdx) == {};
  }

  /** One payment: who it goes to, how much it is, and everything that stays. */
  lemma PayOneEffect(s: System, user: Pubkey, now: i64)
    requires s.state.distribution.Some? && PayOne(s, user, now).Success?
    ensures var t, d := PayOne(s, user, now).value, s.state.distribution.value;
            && user in s.vouchers && s.vouchers[user].dropIdx == s.state.dropIdx < U32_MAX
            && 0 < s.state.tokensHeld
            && (var v := s.vouchers[user];
                var amount := Payout(v.balance, s.state.tokensHeld, d.distributeAmount);
                && t.vouchers == s.vouchers[user := v.(dropIdx := v.dropIdx + 1, lastDistribution := now)]
                && Balance(t.lamports, StateAccount) == Balance(s.lamports, StateAccount) - amount
                && Balance(t.lamports, VoucherAccount(user)) == Balance(s.lamports, VoucherAccount(user)) + amount)
            && (forall a :: a != StateAccount && a != VoucherAccount(user) ==>
                  Balance(t.lamports, a) == Balance(s.lamports, a))
            && t.state.distribution.value.seenVouchers == d.seenVouchers + 1
            && Frozen(s, t)
  {
    var v := s.vouchers[user];
    var (d, w, amount) := DistributedTo(s.state.distribution.value, v, s.state.dropIdx, s.state.tokensHeld, now).value;
    MoveConserves(s.lamports, StateAccount, VoucherAccount(user), amount);
    BalancesUpdate(s.vouchers, user, w);
    assert Balances(s.vouchers)[user := w.balance] == Balances(s.vouchers);
  }

  /** Paying a voucher moves it from the unpaid to the seen ones. */
  lemma SeenGrows(vouchers: map<Pubkey, Voucher>, u: Pubkey, v: Voucher, dropIdx: nat)
    requires u in vouchers && vouchers[u].dropIdx == dropIdx && v.dropIdx == dropIdx + 1
    ensures u !in Seen(vouchers, dropIdx)
    ensures Seen(vouchers[u := v], dropIdx) == Seen(vouchers, dropIdx) + {u}
  {
  }

  lemma UnpaidShrinks(vouchers: map<Pubkey, Voucher>, u: Pubkey, v: Voucher, dropIdx: nat)
    requires u in vouchers && vouchers[u].dropIdx == dropIdx && v.dropIdx == dropIdx + 1
    ensures Unpaid(vouchers[u := v], dropIdx) == Unpaid(vouchers, dropIdx) - {u}
  {
  }

  lemma PhasedPay(vouchers: map<Pubkey, Voucher>, u: Pubkey, v: Voucher, dropIdx: nat, d: Distribution, e: Distribution)
    requires Phased(vouchers, dropIdx, Some(d)) && e.seenVouchers == d.seenVouchers + 1
    requires u in vouchers && vouchers[u].dropIdx == dropIdx && v.dropIdx == dropIdx + 1
    ensures Phased(vouchers[u := v], dropIdx, Some(e))
  {
    SeenGrows(vouchers, u, v, dropIdx);
    UnpaidShrinks(vouchers, u, v, dropIdx);
    assert vouchers[u := v].Keys == vouchers.Keys;
  }

  lemma PayOneKeeps(s: System, user: Pubkey, now: i64)
    requires s.state.distribution.Some? && PayOne(s, user, now).Success? && Tidy(s)
    ensures Tidy(PayOne(s, user, now).value)
  {
    PayOneEffect(s, user, now);
    var t := PayOne(s, user, now).value;
    PhasedPay(s.vouchers, user, t.vouchers[user], s.state.dropIdx, s.state.distribution.value,
              t.state.distribution.value);
    assert RentsKept(t.lamports, t.vouchers.Keys, t.voucherRent);
  }

  /** A whole batch changes nothing but lamports, drop indices and the number of seen vouchers. */
  lemma {:induction false} PayBatchFrozen(s: System, batch: seq<Pubkey>, now: i64)
    requires s.state.distribution.Some? && PayBatch(s, batch, now).Success?
    ensures var t := PayBatch(s, batch, now).value;
            && Frozen(s, t)
            && t.state.distribution.value.seenVouchers == s.state.distribution.value.seenVouchers + |batch|
  {
    if batch != [] {
      var last := |batch| - 1;
      PayBatchFrozen(s, batch[..last], now);
      PayOneEffect(PayBatch(s, batch[..last], now).value, batch[last], now);
    }
  }

  lemma {:induction false} PayBatchTidy(s: System, batch: seq<Pubkey>, now: i64)
    requires s.state.distribution.Some? && PayBatch(s, batch, now).Success?
    requires Tidy(s)
    ensures Tidy(PayBatch(s, batch, now).value)
  {
    if batch != [] {
      var last := |batch| - 1;
      PayBatchTidy(s, batch[..last], now);
      PayOneKeeps(PayBatch(s, batch[..last], now).value, batch[last], now);
    }
  }

  lemma PayBatchKeeps(s: System, batch: seq<Pubkey>, now: i64)
    requires s.state.distribution.Some? && PayBatch(s, batch, now).Success?
    requires Tidy(s)
    ensures Tidy(PayBatch(s, batch, now).value)
    ensures Backed(s) ==> Backed(PayBatch(s, batch, now).value)
  {
    PayBatchTidy(s, batch, now);
    PayBatchFrozen(s, batch, now);
  }

  /** The counting argument: as many seen vouchers as vouchers means that every voucher has been seen. */
  lemma AllSeen(vouchers: map<Pubkey, Voucher>, dropIdx: nat, d: Distribution)
    requires Phased(vouchers, dropIdx, Some(d))
    ensures d.seenVouchers <= |vouchers.Keys|
    ensures d.seenVouchers == |vouchers.Keys| ==>
              && vouchers.Keys == Seen(vouchers, dropIdx)
              && Phased(vouchers, dropIdx + 1, None)
  {
    var seen := Seen(vouchers, dropIdx);
    assert seen <= vouchers.Keys;
    assert |vouchers.Keys - seen| == |vouchers.Keys| - |seen|;
    assert Unpaid(vouchers, dropIdx + 1) == seen;
  }

  /** A distribution that closes once everybody was seen, or stays open while somebody was not. */
  lemma SettledKeeps(s: System, t: System)
    requires Tidy(s) && s.state.distribution.Some?
    requires if s.state.distribution.value.seenVouchers == s.state.vouchersCount
             then t.state == s.state.(dropIdx := t.state.dropIdx, distribution := None)
                  && t.state.dropIdx == s.state.dropIdx + 1
             else t.state == s.state
    requires t == s.(state := t.state)
    ensures Orderly(t) && (Backed(s) ==> Backed(t))
  {
    AllSeen(s.vouchers, s.state.dropIdx, s.state.distribution.value);
  }

  lemma SettleKeeps(s: System)
    requires s.state.distribution.Some? && Settle(s).Success? && Tidy(s)
    ensures Orderly(Settle(s).value) && (Backed(s) ==> Backed(Settle(s).value))
  {
    SettledKeeps(s, Settle(s).value);
  }

  /** A distribution that runs already is only given the overridden fees; a fresh one moves the host's lamports too. */
  lemma StartedShape(s: System)
    requires Started(s).Success?
    ensures var t := Started(s).value;
            && t == s.(lamports := t.lamports,
                       state := s.state.(settings := t.state.settings,
                                         totalDistributed := t.state.totalDistributed,
                                         totalUserDistributed := t.state.totalUserDistributed,
                                         distribution := t.state.distribution))
            && Sum(t.lamports) == Sum(s.lamports)
  {
    if s.state.distribution.None? {
      StartShape(WithOverride(s));
    }
  }

  lemma StartedKeeps(s: System)
    requires Orderly(s) && Started(s).Success?
    ensures Tidy(Started(s).value) && (Backed(s) ==> Backed(Started(s).value))
  {
    StartedShape(s);
    if s.state.distribution.None? {
      StartShape(WithOverride(s));
      OpenedDistributionKeeps(WithOverride(s), Start(WithOverride(s)).value);
    }
  }

  lemma DistributeKeeps(s: System, batch: seq<Pubkey>, now: i64)
    requires Orderly(s) && Distribute(s, batch, now).Success?
    ensures Orderly(Distribute(s, batch, now).value)
    ensures Backed(s) ==> Backed(Distribute(s, batch, now).value)
  {
    StartedKeeps(s);
    PayBatchKeeps(Started(s).value, batch, now);
    SettleKeeps(PayBatch(Started(s).value, batch, now).value);
  }

  // ---------------------------------------------------------------- all runs

  lemma WithdrawKeeps(s: System, op: Op)
    requires Orderly(s) && op.WithdrawTokens? && Apply(s, op).Success?
    ensures Orderly(Apply(s, op).value)
    ensures Backed(s) && op.voucher.Own? ==> Backed(Apply(s, op).value)
  {
    WithdrawEffect(s, op.user, op.amount, op.openVotes, op.funder, op.voucher);
    WithdrawnTidy(s, op.user, op.amount, op.voucher, Apply(s, op).value);
    if Backed(s) && op.voucher.Own? {
      WithdrawnBacked(s, op.user, op.amount, Apply(s, op).value);
    }
  }

  lemma StepKeeps(s: System, op: Op)
    requires Orderly(s)
    ensures Orderly(Step(s, op))
    ensures Backed(s) && UsesOwnVoucher(op) ==> Backed(Step(s, op))
  {
    if Apply(s, op).Success? {
      match op
      case DepositTokens(user, funder, amount) => DepositKeeps(s, user, funder, amount);
      case WithdrawTokens(_, _, _, _, _) => WithdrawKeeps(s, op);
      case ClaimReward(user) => ClaimKeeps(s, user);
      case SyncWeight(user, funder, voucher) => SyncKeeps(s, user, funder, voucher);
      case DistributeTo(batch, now) => DistributeKeeps(s, batch, now);
      case SendLamports(_, _, _) => OutsideKeeps(s, op);
      case OutsideTokens(_) => OutsideKeeps(s, op);
    }
  }

  lemma {:induction false} OrderFrom(s: System, ops: seq<Op>)
    requires Orderly(s)
    ensures Orderly(Run(s, ops))
  {
    if ops != [] {
      OrderFrom(s, ops[..|ops| - 1]);
      StepKeeps(Run(s, ops[..|ops| - 1]), ops[|ops| - 1]);
    }
  }

  /** Counts, phases, rents, the stake wallet and the maximum stay in order over every run from initialisation. */
  lemma RunKeepsOrder(s: System, ops: seq<Op>)
    requires Initial(s)
    ensures Orderly(Run(s, ops))
  {
    InitialInv(s);
    OrderFrom(s, ops);
  }

  /** And as long as every voucher passed is one of this state, balances and weights agree with them. */
  lemma {:induction false} RunKeepsInvariant(s: System, ops: seq<Op>)
    requires Initial(s) && AllOwnVouchers(ops)
    ensures Inv(Run(s, ops))
  {
    if ops == [] {
      InitialInv(s);
    } else {
      RunKeepsInvariant(s, ops[..|ops| - 1]);
      StepKeeps(Run(s, ops[..|ops| - 1]), ops[|ops| - 1]);
    }
  }

  // ---------------------------------------------------------------- vouchers of other states

  /** A weight the user's own stake covers; the owner votes with free tokens. */
  ghost predicate WeightBacked(s: System, user: Pubkey, weight: nat) {
    user == s.owner || (user in s.vouchers && weight <= s.vouchers[user].balance)
  }

  /** Tokens taken out and a weight recorded while no voucher of this state changes. */
  lemma BackedIff(s: System, t: System, user: Pubkey, amount: nat, weight: u64)
    requires Backed(s) && t.owner == s.owner && t.vouchers == s.vouchers
    requires t.state.tokensHeld == s.state.tokensHeld - amount && t.weights == s.weights[user := weight]
    ensures Backed(t) <==> amount == 0 && WeightBacked(s, user, weight)
  {
    assert user in t.weights.Keys && t.weights[user] == weight;
  }

  lemma ForeignVoucherBackedIff(s: System, op: Op)
    requires Backed(s) && !UsesOwnVoucher(op) && Apply(s, op).Success?
    ensures Backed(Apply(s, op).value) <==>
              && WeightBacked(s, op.user, op.voucher.balance)
              && (op.WithdrawTokens? ==> op.amount == 0)
  {
    if op.WithdrawTokens? {
      WithdrawEffect(s, op.user, op.amount, op.openVotes, op.funder, op.voucher);
      BackedIff(s, Apply(s, op).value, op.user, op.amount, op.voucher.balance - op.amount);
    } else {
      SyncEffect(s, op.user, op.funder, op.voucher);
      BackedIff(s, Apply(s, op).value, op.user, 0, WeightOf(s, op.user, op.voucher).value);
    }
  }

  /**
   Neither instruction asks which state a voucher belongs to. Passed one of another state, a withdrawal keeps the
   invariant exactly when it takes nothing out and what it records is covered here, a synchronisation exactly when
   what it records is.
   */
  lemma ForeignVoucherKeepsInvariantIff(s: System, op: Op)
    requires Inv(s) && !UsesOwnVoucher(op) && Apply(s, op).Success?
    ensures Inv(Step(s, op)) <==>
              && WeightBacked(s, op.user, op.voucher.balance)
              && (op.WithdrawTokens? ==> op.amount == 0)
  {
    StepKeeps(s, op);
    ForeignVoucherBackedIff(s, op);
  }

  // ---------------------------------------------------------------- votes

  ghost function StakerWeights(s: System): map<Pubkey, nat> {
    map u | u in s.weights && u != s.owner :: s.weights[u]
  }

  /**
   In every state reached with vouchers of this state only, the recorded weights of the stakers never add up to more
   than the recorded maximum.
   */
  lemma VotesNeverExceedMaximum(s: System, ops: seq<Op>)
    requires Initial(s) && AllOwnVouchers(ops)
    ensures var t := Run(s, ops);
            && Sum(StakerWeights(t)) <= t.state.tokensHeld <= Balance(t.tokens, StakeWallet)
            && (t.maxWeight.Some? ==> Sum(StakerWeights(t)) <= t.maxWeight.value)
            && (t.maxWeight.None? ==> Sum(StakerWeights(t)) == 0)
  {
    RunKeepsInvariant(s, ops);
    var t := Run(s, ops);
    SumMono(StakerWeights(t), Balances(t.vouchers));
  }

  /** A claim is always possible, pays out everything above rent, and leaves nothing to claim. */
  lemma ClaimAlwaysPays(s: System, user: Pubkey)
    requires Orderly(s) && user in s.vouchers
    ensures Claim(s, user).Success?
    ensures var t := Claim(s, user).value;
            && Balance(t.lamports, VoucherAccount(user)) == s.voucherRent
            && Balance(t.lamports, SystemAccount(user))
               == Balance(s.lamports, SystemAccount(user)) + Balance(s.lamports, VoucherAccount(user)) - s.voucherRent
  {
    ClaimMove(s.lamports, user, s.voucherRent);
  }

  lemma ClaimMove(lamports: map<Account, u64>, user: Pubkey, rent: u64)
    requires Sum(lamports) <= U64_MAX && rent <= Balance(lamports, VoucherAccount(user))
    ensures var amount := Balance(lamports, VoucherAccount(user)) - rent;
            var moved := Move(lamports, VoucherAccount(user), SystemAccount(user), amount);
            && moved.Some?
            && Balance(moved.value, VoucherAccount(user)) == rent
            && Balance(moved.value, SystemAccount(user)) == Balance(lamports, SystemAccount(user)) + amount
  {
    var amount := Balance(lamports, VoucherAccount(user)) - rent;
    MoveSucceeds(lamports, VoucherAccount(user), SystemAccount(user), amount);
    MoveConserves(lamports, VoucherAccount(user), SystemAccount(user), amount);
  }
}
