/**
 What every instruction of the royalty program does to every account: who pays, who is paid, what is recorded, and what
 stays as it was. Amounts are stated from the accounts before the instruction alone.
 */
module RoyaltyEffects {
  import opened Wrappers
  import opened MachineInts
  import opened FixedPoint
  import opened Sums
  import opened RoyaltyState
  import opened RoyaltySteps
  import opened RoyaltyInvariant
  import opened RoyaltyAccounting
  import opened RoyaltyPayouts
  import opened RoyaltyProgress
  import opened RoyaltyStaking

  // ---------------------------------------------------------------- records

  /** What could vote beside `held` staked tokens: the vault and the owner's free tokens. */
  ghost function AllVotes(s: System, held: int): int {
    held + Balance(s.tokens, VaultWallet) + Balance(s.tokens, UserWallet(s.owner))
  }

  /** The funder paid the rent of a new account, and nobody else's lamports moved. */
  ghost predicate Rented(before: map<Account, u64>, funder: Pubkey, to: Account, rent: nat, after: map<Account, u64>) {
    forall a :: Balance(after, a) == Balance(before, a)
                  + (if a == to then rent else 0) - (if a == SystemAccount(funder) then rent else 0)
  }

  lemma CreateAccountRents(lamports: map<Account, u64>, funder: Pubkey, to: Account, rent: u64)
    requires CreateAccount(lamports, funder, to, rent).Success? && to != SystemAccount(funder)
    ensures Rented(lamports, funder, to, rent, CreateAccount(lamports, funder, to, rent).value)
  {
    MoveConserves(lamports, SystemAccount(funder), to, rent);
  }

  lemma SaveWeightRents(s: System, user: Pubkey, weight: u64, funder: Pubkey)
    requires SaveWeight(s, user, weight, funder).Success?
    ensures Rented(s.lamports, funder, WeightRecord(user), WeightRent(s, user),
                   SaveWeight(s, user, weight, funder).value.lamports)
  {
    if user !in s.weights {
      CreateAccountRents(s.lamports, funder, WeightRecord(user), s.weightRent);
    }
  }

  lemma SaveMaximumRents(s: System, weight: u64, funder: Pubkey)
    requires SaveMaximum(s, weight, funder).Success?
    ensures Rented(s.lamports, funder, MaxWeightRecord, MaximumRent(s), SaveMaximum(s, weight, funder).value.lamports)
  {
    if s.maxWeight.None? {
      CreateAccountRents(s.lamports, funder, MaxWeightRecord, s.maxWeightRent);
    }
  }

  /** The funder paid for two accounts, as far as they were missing. */
  ghost predicate RentedBoth(before: map<Account, u64>, funder: Pubkey, first: Account, firstRent: nat, second: Account,
                             secondRent: nat, after: map<Account, u64>)
  {
    forall a :: Balance(after, a) == Balance(before, a)
                  + (if a == first then firstRent else 0) + (if a == second then secondRent else 0)
                  - (if a == SystemAccount(funder) then firstRent + secondRent else 0)
  }

  lemma RentsAdd(before: map<Account, u64>, between: map<Account, u64>, after: map<Account, u64>, funder: Pubkey,
                 first: Account, firstRent: nat, second: Account, secondRent: nat)
    requires Rented(before, funder, first, firstRent, between) && Rented(between, funder, second, secondRent, after)
    ensures RentedBoth(before, funder, first, firstRent, second, secondRent, after)
  {
    forall a
      ensures Balance(after, a) == Balance(before, a)
                + (if a == first then firstRent else 0) + (if a == second then secondRent else 0)
                - (if a == SystemAccount(funder) then firstRent + secondRent else 0)
    {
      assert Balance(between, a) == Balance(before, a)
               + (if a == first then firstRent else 0) - (if a == SystemAccount(funder) then firstRent else 0);
    }
  }

  lemma RecordsRented(s: System, user: Pubkey, weight: u64, maximum: u64, funder: Pubkey)
    requires SaveWeight(s, user, weight, funder).Success?
    requires SaveMaximum(SaveWeight(s, user, weight, funder).value, maximum, funder).Success?
    ensures RentedBoth(s.lamports, funder, WeightRecord(user), WeightRent(s, user), MaxWeightRecord, MaximumRent(s),
                       SaveMaximum(SaveWeight(s, user, weight, funder).value, maximum, funder).value.lamports)
  {
    var m := SaveWeight(s, user, weight, funder).value;
    SaveWeightRents(s, user, weight, funder);
    SaveWeightEffect(s, user, weight, funder);
    SaveMaximumRents(m, maximum, funder);
    RentsAdd(s.lamports, m.lamports, SaveMaximum(m, maximum, funder).value.lamports, funder, WeightRecord(user),
             WeightRent(s, user), MaxWeightRecord, MaximumRent(s));
  }

  // ---------------------------------------------------------------- synchronising

  /**
   The weight recorded is the vault and the free tokens for the owner, and otherwise the balance of the voucher passed;
   the maximum is everything that could vote.
   */
  lemma SynchronisationEffect(s: System, user: Pubkey, funder: Pubkey, voucher: VoucherArg)
    requires SyncWeightRecord(s, user, funder, voucher).Success?
    ensures var t := SyncWeightRecord(s, user, funder, voucher).value;
            && user in t.weights && t.weights == s.weights[user := t.weights[user]]
            && (user == s.owner ==>
                  t.weights[user] == Balance(s.tokens, UserWallet(s.owner)) + Balance(s.tokens, VaultWallet))
            && (user != s.owner && voucher.Own? ==>
                  user in s.vouchers && t.weights[user] == s.vouchers[user].balance)
            && (user != s.owner && voucher.Foreign? ==> t.weights[user] == voucher.balance)
            && t.maxWeight.Some? && t.maxWeight.value == AllVotes(s, s.state.tokensHeld)
            && RentedBoth(s.lamports, funder, WeightRecord(user), WeightRent(s, user), MaxWeightRecord, MaximumRent(s),
                          t.lamports)
            && t == s.(weights := t.weights, maxWeight := t.maxWeight, lamports := t.lamports)
  {
    var weight := WeightOf(s, user, voucher).value;
    var m := SaveWeight(s, user, weight, funder).value;
    SyncEffect(s, user, funder, voucher);
    RecordsRented(s, user, weight, MaxVoteWeight(m, s.tokens).value, funder);
  }

  // ---------------------------------------------------------------- taking out and putting in

  /** `amount` tokens went from one wallet to another, different one. */
  ghost predicate TokensMoved(before: map<TokenWallet, u64>, from: TokenWallet, to: TokenWallet, amount: nat,
                              after: map<TokenWallet, u64>)
  {
    forall w :: Balance(after, w) == Balance(before, w)
                  - (if w == from then amount else 0) + (if w == to then amount else 0)
  }

  /** The voucher passed is debited if it is one of this state, and what it still holds is the recorded weight. */
  ghost predicate VoucherDebited(s: System, user: Pubkey, amount: u64, voucher: VoucherArg, t: System) {
    && (voucher.Own? ==>
          && user in s.vouchers && amount <= s.vouchers[user].balance
          && t.vouchers == s.vouchers[user := s.vouchers[user].(balance := s.vouchers[user].balance - amount)]
          && t.weights == s.weights[user := s.vouchers[user].balance - amount])
    && (voucher.Foreign? ==>
          && amount <= voucher.balance
          && t.vouchers == s.vouchers && t.weights == s.weights[user := voucher.balance - amount])
  }

  /** What a withdrawal leaves behind. */
  ghost predicate TakenOut(s: System, user: Pubkey, amount: u64, voucher: VoucherArg, t: System) {
    && VoucherDebited(s, user, amount, voucher, t)
    && TokensMoved(s.tokens, StakeWallet, UserWallet(user), amount, t.tokens)
    && amount <= s.state.tokensHeld && t.state == s.state.(tokensHeld := s.state.tokensHeld - amount)
    && t.maxWeight.Some? && t.maxWeight.value == AllVotes(s, s.state.tokensHeld - amount)
    && t == s.(vouchers := t.vouchers, weights := t.weights, tokens := t.tokens, state := t.state,
               maxWeight := t.maxWeight, lamports := t.lamports)
  }

  lemma UnstakeMoves(s: System, user: Pubkey, amount: u64, voucher: VoucherArg)
    requires VoucherBalance(s, user, voucher).Some? && amount <= VoucherBalance(s, user, voucher).value
    requires Unstake(s, user, amount, voucher).Success?
    ensures TokensMoved(s.tokens, StakeWallet, UserWallet(user), amount, Unstake(s, user, amount, voucher).value.tokens)
  {
    MoveConserves(s.tokens, StakeWallet, UserWallet(user), amount);
  }

  /** `m` is the state with the tokens taken out, before anything is recorded. */
  lemma RecordedAfterUnstaking(s: System, user: Pubkey, amount: u64, voucher: VoucherArg, m: System, t: System)
    requires VoucherBalance(s, user, voucher).Some? && amount <= VoucherBalance(s, user, voucher).value
    requires amount <= s.state.tokensHeld
    requires m == s.(tokens := m.tokens, vouchers := m.vouchers,
                     state := s.state.(tokensHeld := s.state.tokensHeld - amount))
    requires m.vouchers == if voucher.Foreign? then s.vouchers
                           else s.vouchers[user := s.vouchers[user].(balance := s.vouchers[user].balance - amount)]
    requires TokensMoved(s.tokens, StakeWallet, UserWallet(user), amount, m.tokens)
    requires t == m.(lamports := t.lamports, maxWeight := t.maxWeight,
                     weights := m.weights[user := VoucherBalance(s, user, voucher).value - amount])
    requires t.maxWeight.Some? && t.maxWeight.value == AllVotes(s, m.state.tokensHeld)
    ensures TakenOut(s, user, amount, voucher, t)
  {
  }

  lemma WithdrawalBooks(s: System, user: Pubkey, amount: u64, openVotes: bool, funder: Pubkey, voucher: VoucherArg)
    requires Withdraw(s, user, amount, openVotes, funder, voucher).Success?
    ensures TakenOut(s, user, amount, voucher, Withdraw(s, user, amount, openVotes, funder, voucher).value)
  {
    WithdrawSteps(s, user, amount, openVotes, funder, voucher);
    UnstakeEffect(s, user, amount, voucher);
    UnstakeMoves(s, user, amount, voucher);
    var m, left := Unstake(s, user, amount, voucher).value, VoucherBalance(s, user, voucher).value - amount;
    RecordBothEffect(m, s.tokens, user, left, funder);
    RecordedAfterUnstaking(s, user, amount, voucher, m,
                           Withdraw(s, user, amount, openVotes, funder, voucher).value);
  }

  lemma RecordBothRents(s: System, wallets: map<TokenWallet, u64>, user: Pubkey, weight: u64, funder: Pubkey)
    requires RecordBoth(s, wallets, user, weight, funder).Success?
    ensures RentedBoth(s.lamports, funder, WeightRecord(user), WeightRent(s, user), MaxWeightRecord, MaximumRent(s),
                       RecordBoth(s, wallets, user, weight, funder).value.lamports)
  {
    RecordsRented(s, user, weight, MaxVoteWeight(s, wallets).value, funder);
  }

  lemma WithdrawalRents(s: System, user: Pubkey, amount: u64, openVotes: bool, funder: Pubkey, voucher: VoucherArg)
    requires Withdraw(s, user, amount, openVotes, funder, voucher).Success?
    ensures RentedBoth(s.lamports, funder, WeightRecord(user), WeightRent(s, user), MaxWeightRecord, MaximumRent(s),
                       Withdraw(s, user, amount, openVotes, funder, voucher).value.lamports)
  {
    WithdrawSteps(s, user, amount, openVotes, funder, voucher);
    UnstakeEffect(s, user, amount, voucher);
    RecordBothRents(Unstake(s, user, amount, voucher).value, s.tokens, user,
                    VoucherBalance(s, user, voucher).value - amount, funder);
  }

  /** A withdrawal as seen from outside, with either kind of voucher. */
  lemma WithdrawalEffect(s: System, user: Pubkey, amount: u64, openVotes: bool, funder: Pubkey, voucher: VoucherArg)
    requires Withdraw(s, user, amount, openVotes, funder, voucher).Success?
    ensures TakenOut(s, user, amount, voucher, Withdraw(s, user, amount, openVotes, funder, voucher).value)
    ensures RentedBoth(s.lamports, funder, WeightRecord(user), WeightRent(s, user), MaxWeightRecord, MaximumRent(s),
                       Withdraw(s, user, amount, openVotes, funder, voucher).value.lamports)
  {
    WithdrawalBooks(s, user, amount, openVotes, funder, voucher);
    WithdrawalRents(s, user, amount, openVotes, funder, voucher);
  }

  /** The voucher as a deposit finds it. */
  ghost function VoucherBefore(s: System, user: Pubkey): Voucher {
    if user in s.vouchers then s.vouchers[user] else Voucher(s.state.dropIdx, 0, 0)
  }

  lemma OpenVoucherRents(s: System, user: Pubkey, funder: Pubkey, amount: u64)
    requires OpenVoucher(s, user, funder, amount).Success?
    ensures var m := OpenVoucher(s, user, funder, amount).value;
            && Rented(s.lamports, funder, VoucherAccount(user), VoucherRent(s, user), m.lamports)
            && user in m.vouchers && m.vouchers == s.vouchers[user := VoucherBefore(s, user)]
            && m.state == s.state.(vouchersCount := m.state.vouchersCount)
            && m.state.vouchersCount == s.state.vouchersCount + (if user in s.vouchers then 0 else 1)
            && m == s.(lamports := m.lamports, vouchers := m.vouchers, state := m.state)
  {
    if user !in s.vouchers {
      CreateAccountRents(s.lamports, funder, VoucherAccount(user), s.voucherRent);
    } else {
      assert s.vouchers == s.vouchers[user := VoucherBefore(s, user)];
    }
  }

  lemma StakeMoves(s: System, user: Pubkey, amount: u64)
    requires user in s.vouchers && Stake(s, user, amount).Success?
    ensures TokensMoved(s.tokens, UserWallet(user), StakeWallet, amount, Stake(s, user, amount).value.tokens)
  {
    MoveConserves(s.tokens, UserWallet(user), StakeWallet, amount);
  }

  /** The settings every deposit and distribution puts in place: a commission of 2.5% for the host and nothing else. */
  ghost function HostOnly(state: State): State {
    state.(settings := Settings(0, 0, 250, 0))
  }

  /** What a deposit leaves behind. */
  ghost predicate Deposited(s: System, user: Pubkey, amount: u64, t: System) {
    var before := VoucherBefore(s, user);
    && before.balance + amount <= U64_MAX
    && t.vouchers == s.vouchers[user := before.(balance := before.balance + amount)]
    && t.state == HostOnly(s.state).(vouchersCount := t.state.vouchersCount, tokensHeld := t.state.tokensHeld)
    && t.state.vouchersCount == s.state.vouchersCount + (if user in s.vouchers then 0 else 1)
    && t.state.tokensHeld == s.state.tokensHeld + amount
    && TokensMoved(s.tokens, UserWallet(user), StakeWallet, amount, t.tokens)
    && t.maxWeight.Some? && t.maxWeight.value == AllVotes(s, s.state.tokensHeld + amount)
    && t == s.(vouchers := t.vouchers, state := t.state, tokens := t.tokens, lamports := t.lamports,
               maxWeight := t.maxWeight)
  }

  lemma DepositSteps(s: System, user: Pubkey, funder: Pubkey, amount: u64)
    requires Deposit(s, user, funder, amount).Success?
    ensures var m := OpenVoucher(WithOverride(s), user, funder, amount);
            && m.Success? && user in m.value.vouchers && Stake(m.value, user, amount).Success?
            && var staked := Stake(m.value, user, amount).value;
            && MaxVoteWeight(staked, s.tokens).Some?
            && SaveMaximum(staked, MaxVoteWeight(staked, s.tokens).value, funder) == Deposit(s, user, funder, amount)
  {
  }

  lemma DepositBooks(s: System, user: Pubkey, funder: Pubkey, amount: u64)
    requires Deposit(s, user, funder, amount).Success?
    ensures Deposited(s, user, amount, Deposit(s, user, funder, amount).value)
  {
    DepositSteps(s, user, funder, amount);
    OpenVoucherRents(WithOverride(s), user, funder, amount);
    var m := OpenVoucher(WithOverride(s), user, funder, amount).value;
    var staked := Stake(m, user, amount).value;
    StakeEffect(m, user, amount);
    StakeMoves(m, user, amount);
    SaveMaximumEffect(staked, MaxVoteWeight(staked, s.tokens).value, funder);
    RewriteTwice(s.vouchers, user, m.vouchers[user], staked.vouchers[user]);
  }

  lemma RewriteTwice(vouchers: map<Pubkey, Voucher>, u: Pubkey, v: Voucher, w: Voucher)
    ensures vouchers[u := v][u := w] == vouchers[u := w]
  {
  }

  lemma DepositRents(s: System, user: Pubkey, funder: Pubkey, amount: u64)
    requires Deposit(s, user, funder, amount).Success?
    ensures RentedBoth(s.lamports, funder, VoucherAccount(user), VoucherRent(s, user), MaxWeightRecord, MaximumRent(s),
                       Deposit(s, user, funder, amount).value.lamports)
  {
    DepositSteps(s, user, funder, amount);
    OpenVoucherRents(WithOverride(s), user, funder, amount);
    var m := OpenVoucher(WithOverride(s), user, funder, amount).value;
    var staked := Stake(m, user, amount).value;
    StakeEffect(m, user, amount);
    SaveMaximumRents(staked, MaxVoteWeight(staked, s.tokens).value, funder);
    RentsAdd(s.lamports, m.lamports, Deposit(s, user, funder, amount).value.lamports, funder, VoucherAccount(user),
             VoucherRent(s, user), MaxWeightRecord, MaximumRent(s));
  }

  /** A deposit as seen from outside, first or not. */
  lemma DepositEffect(s: System, user: Pubkey, funder: Pubkey, amount: u64)
    requires Deposit(s, user, funder, amount).Success?
    ensures Deposited(s, user, amount, Deposit(s, user, funder, amount).value)
    ensures RentedBoth(s.lamports, funder, VoucherAccount(user), VoucherRent(s, user), MaxWeightRecord, MaximumRent(s),
                       Deposit(s, user, funder, amount).value.lamports)
  {
    DepositBooks(s, user, funder, amount);
    DepositRents(s, user, funder, amount);
  }

  // ---------------------------------------------------------------- claiming

  /** Everything above rent goes from the voucher account to its user. */
  lemma ClaimEffect(s: System, user: Pubkey)
    requires Claim(s, user).Success?
    ensures user in s.vouchers && s.voucherRent <= Balance(s.lamports, VoucherAccount(user))
    ensures var t, amount := Claim(s, user).value, Balance(s.lamports, VoucherAccount(user)) - s.voucherRent;
            && (forall a :: Balance(t.lamports, a) == Balance(s.lamports, a)
                  + (if a == SystemAccount(user) then amount else 0)
                  - (if a == VoucherAccount(user) then amount else 0))
            && t == s.(lamports := t.lamports)
  {
    MoveConserves(s.lamports, VoucherAccount(user), SystemAccount(user),
                  Balance(s.lamports, VoucherAccount(user)) - s.voucherRent);
  }

  // ---------------------------------------------------------------- distributing

  /** A batch touches the state account and the accounts of the vouchers it names. */
  lemma {:induction false} BatchLeavesOthers(s: System, batch: seq<Pubkey>, now: i64)
    requires s.state.distribution.Some? && PayBatch(s, batch, now).Success?
    ensures forall a :: a != StateAccount && !(a.VoucherAccount? && a.user in batch) ==>
              Balance(PayBatch(s, batch, now).value.lamports, a) == Balance(s.lamports, a)
  {
    if batch != [] {
      var last := |batch| - 1;
      BatchLeavesOthers(s, batch[..last], now);
      PayOneEffect(PayBatch(s, batch[..last], now).value, batch[last], now);
      assert batch == batch[..last] + [batch[last]];
    }
  }

  /** Its vouchers are marked with the time. */
  ghost predicate Marked(vouchers: map<Pubkey, Voucher>, batch: seq<Pubkey>, now: i64, after: map<Pubkey, Voucher>) {
    && after.Keys == vouchers.Keys
    && (forall u :: u in vouchers.Keys ==>
          after[u].lastDistribution == (if u in batch then now else vouchers[u].lastDistribution))
  }

  lemma MarkOneMore(vouchers: map<Pubkey, Voucher>, batch: seq<Pubkey>, now: i64, between: map<Pubkey, Voucher>,
                    u: Pubkey, v: Voucher)
    requires Marked(vouchers, batch, now, between) && u in between && v.lastDistribution == now
    ensures Marked(vouchers, batch + [u], now, between[u := v])
  {
    assert between[u := v].Keys == between.Keys;
  }

  lemma PayOneMarks(s: System, user: Pubkey, now: i64)
    requires s.state.distribution.Some? && PayOne(s, user, now).Success?
    ensures var after := PayOne(s, user, now).value.vouchers;
            && user in s.vouchers && user in after && after == s.vouchers[user := after[user]]
            && after[user].lastDistribution == now
  {
  }

  lemma {:induction false} BatchMarks(s: System, batch: seq<Pubkey>, now: i64)
    requires s.state.distribution.Some? && PayBatch(s, batch, now).Success?
    ensures Marked(s.vouchers, batch, now, PayBatch(s, batch, now).value.vouchers)
  {
    if batch != [] {
      var last := |batch| - 1;
      var m := PayBatch(s, batch[..last], now).value;
      BatchMarks(s, batch[..last], now);
      PayOneMarks(m, batch[last], now);
      MarkOneMore(s.vouchers, batch[..last], now, m.vouchers, batch[last],
                  PayBatch(s, batch, now).value.vouchers[batch[last]]);
      assert batch == batch[..last] + [batch[last]];
    }
  }

  /** What a batch paid out of a distribution of `amount`, beside a commission for the host. */
  ghost predicate LamportsPaid(s: System, batch: seq<Pubkey>, amount: u64, commission: nat, after: map<Account, u64>) {
    forall a :: Balance(after, a) == Balance(s.lamports, a)
                  + (if a == SystemAccount(s.host) then commission else 0)
                  + (if a.VoucherAccount? && a.user in s.vouchers && a.user in batch
                     then Payout(s.vouchers[a.user].balance, s.state.tokensHeld, amount) else 0)
                  - (if a == StateAccount
                     then commission + TotalPayout(s.vouchers, BatchUsers(batch), s.state.tokensHeld, amount) else 0)
  }

  /** The vouchers of a batch are one drop further and marked with the time; stakes do not change. */
  ghost predicate VouchersAdvanced(s: System, batch: seq<Pubkey>, now: i64, after: map<Pubkey, Voucher>) {
    && after.Keys == s.vouchers.Keys
    && (forall u :: u in batch ==> u in s.vouchers && s.vouchers[u].dropIdx == s.state.dropIdx)
    && (forall u :: u in s.vouchers.Keys ==>
          && after[u].balance == s.vouchers[u].balance
          && after[u].dropIdx == s.vouchers[u].dropIdx + (if u in batch then 1 else 0)
          && after[u].lastDistribution == (if u in batch then now else s.vouchers[u].lastDistribution))
  }

  lemma BatchPaysLamports(s: System, batch: seq<Pubkey>, now: i64)
    requires s.state.distribution.Some? && PayBatch(s, batch, now).Success?
    ensures LamportsPaid(s, batch, s.state.distribution.value.distributeAmount, 0,
                         PayBatch(s, batch, now).value.lamports)
  {
    BatchLeavesOthers(s, batch, now);
    BatchEffect(s, batch, now);
    BatchCost(s, batch, now);
  }

  lemma BatchAdvancesVouchers(s: System, batch: seq<Pubkey>, now: i64)
    requires s.state.distribution.Some? && PayBatch(s, batch, now).Success?
    ensures VouchersAdvanced(s, batch, now, PayBatch(s, batch, now).value.vouchers)
  {
    BatchMarks(s, batch, now);
    BatchEffect(s, batch, now);
    PayBatchFrozen(s, batch, now);
    forall u | u in s.vouchers.Keys
      ensures PayBatch(s, batch, now).value.vouchers[u].balance == s.vouchers[u].balance
    {
      SameStakes(s, PayBatch(s, batch, now).value, u);
    }
  }

  /** After a batch the distribution goes on, or it is complete and the next drop can come. */
  ghost predicate MovedOn(s: State, amount: u64, seen: nat, t: State) {
    if seen == s.vouchersCount then
      s.dropIdx < U32_MAX && t == s.(dropIdx := s.dropIdx + 1, distribution := None)
    else
      seen <= U32_MAX && t == s.(distribution := Some(Distribution(amount, seen)))
  }

  lemma SettleMovesOn(s: System)
    requires s.state.distribution.Some? && Settle(s).Success?
    ensures var d, t := s.state.distribution.value, Settle(s).value;
            MovedOn(s.state, d.distributeAmount, d.seenVouchers, t.state) && t == s.(state := t.state)
  {
  }

  /** What paying a batch of a distribution of `amount` with `seen` vouchers behind it does. */
  ghost predicate BatchPaid(s: System, batch: seq<Pubkey>, now: i64, amount: u64, seen: nat, t: System) {
    && LamportsPaid(s, batch, amount, 0, t.lamports)
    && VouchersAdvanced(s, batch, now, t.vouchers)
    && MovedOn(s.state, amount, seen + |batch|, t.state)
    && t == s.(lamports := t.lamports, vouchers := t.vouchers, state := t.state)
  }

  lemma SettledBatch(s: System, batch: seq<Pubkey>, now: i64, d: Distribution, paid: System, t: System)
    requires s.state.distribution == Some(d) && paid.state.distribution.Some? && Frozen(s, paid)
    requires paid.state.distribution.value.seenVouchers == d.seenVouchers + |batch|
    requires LamportsPaid(s, batch, d.distributeAmount, 0, paid.lamports)
    requires VouchersAdvanced(s, batch, now, paid.vouchers)
    requires MovedOn(paid.state, d.distributeAmount, d.seenVouchers + |batch|, t.state) && t == paid.(state := t.state)
    ensures BatchPaid(s, batch, now, d.distributeAmount, d.seenVouchers, t)
  {
  }

  /** Paying a batch of a running distribution, from the state the payments start in. */
  lemma PaidBatchEffect(s: System, batch: seq<Pubkey>, now: i64)
    requires s.state.distribution.Some?
    requires PayBatch(s, batch, now).Success? && Settle(PayBatch(s, batch, now).value).Success?
    ensures var d, t := s.state.distribution.value, Settle(PayBatch(s, batch, now).value).value;
            BatchPaid(s, batch, now, d.distributeAmount, d.seenVouchers, t)
  {
    var paid := PayBatch(s, batch, now).value;
    BatchPaysLamports(s, batch, now);
    BatchAdvancesVouchers(s, batch, now);
    PayBatchFrozen(s, batch, now);
    SettleMovesOn(paid);
    SettledBatch(s, batch, now, s.state.distribution.value, paid, Settle(paid).value);
  }

  lemma DistributeSteps(s: System, batch: seq<Pubkey>, now: i64)
    requires Distribute(s, batch, now).Success?
    ensures Started(s).Success? && PayBatch(Started(s).value, batch, now).Success?
    ensures Settle(PayBatch(Started(s).value, batch, now).value) == Distribute(s, batch, now)
  {
  }

  /** While a distribution runs, distributing pays its vouchers out of the state account, and nobody else. */
  lemma LaterDistributeEffect(s: System, batch: seq<Pubkey>, now: i64)
    requires s.state.distribution.Some? && Distribute(s, batch, now).Success?
    ensures var d, t := s.state.distribution.value, Distribute(s, batch, now).value;
            && LamportsPaid(s, batch, d.distributeAmount, 0, t.lamports)
            && VouchersAdvanced(s, batch, now, t.vouchers)
            && MovedOn(HostOnly(s.state), d.distributeAmount, d.seenVouchers + |batch|, t.state)
            && t == s.(lamports := t.lamports, vouchers := t.vouchers, state := t.state)
  {
    DistributeSteps(s, batch, now);
    PaidBatchEffect(WithOverride(s), batch, now);
    OverridePaysTheSame(s, batch, now, s.state.distribution.value, Distribute(s, batch, now).value);
  }

  lemma OverridePaysTheSame(s: System, batch: seq<Pubkey>, now: i64, d: Distribution, t: System)
    requires BatchPaid(WithOverride(s), batch, now, d.distributeAmount, d.seenVouchers, t)
    ensures LamportsPaid(s, batch, d.distributeAmount, 0, t.lamports)
    ensures VouchersAdvanced(s, batch, now, t.vouchers)
    ensures MovedOn(HostOnly(s.state), d.distributeAmount, d.seenVouchers + |batch|, t.state)
    ensures t == s.(lamports := t.lamports, vouchers := t.vouchers, state := t.state)
  {
  }

  /** Starting: the host's commission and the totals. */
  ghost predicate CommissionTaken(s: System, commission: nat, after: map<Account, u64>) {
    forall a :: Balance(after, a) == Balance(s.lamports, a)
                  + (if a == SystemAccount(s.host) then commission else 0)
                  - (if a == StateAccount then commission else 0)
  }

  lemma CommissionsMove(s: System, commission: u64)
    requires Move(s.lamports, StateAccount, SystemAccount(s.owner), 0).Some?
    requires Move(Move(s.lamports, StateAccount, SystemAccount(s.owner), 0).value, StateAccount, SystemAccount(s.host),
                  commission).Some?
    ensures var toOwner := Move(s.lamports, StateAccount, SystemAccount(s.owner), 0).value;
            CommissionTaken(s, commission, Move(toOwner, StateAccount, SystemAccount(s.host), commission).value)
  {
    var toOwner := Move(s.lamports, StateAccount, SystemAccount(s.owner), 0).value;
    MoveConserves(s.lamports, StateAccount, SystemAccount(s.owner), 0);
    MoveConserves(toOwner, StateAccount, SystemAccount(s.host), commission);
  }

  /** The state record of a distribution just started. */
  ghost predicate JustStarted(s: State, received: nat, amount: nat, t: State) {
    && s.totalDistributed + received <= U64_MAX && s.totalUserDistributed + amount <= U64_MAX && amount <= U64_MAX
    && t == s.(totalDistributed := s.totalDistributed + received,
               totalUserDistributed := s.totalUserDistributed + amount,
               distribution := Some(Distribution(amount, 0)))
  }

  /** What starting with this commission computes. */
  ghost predicate StartedWith(s: System, commission: u64, t: System) {
    var whole := Balance(s.lamports, StateAccount) - s.stateRent - 2;
    && 499_999_999 <= whole && commission <= whole
    && Move(s.lamports, StateAccount, SystemAccount(s.owner), 0).Some?
    && Move(Move(s.lamports, StateAccount, SystemAccount(s.owner), 0).value, StateAccount, SystemAccount(s.host),
            commission) == Some(t.lamports)
    && JustStarted(s.state, whole + 1, whole - commission, t.state)
    && t == s.(lamports := t.lamports, state := t.state)
  }

  lemma StartSteps(s: System)
    requires Start(s).Success?
    ensures StartedWith(s, HostCommission(Balance(s.lamports, StateAccount) - s.stateRent - 2), Start(s).value)
  {
    MulBpsClosedForm(Balance(s.lamports, StateAccount) - s.stateRent - 2, 250);
  }

  lemma CommissionAndPayments(s: System, m: System, batch: seq<Pubkey>, amount: u64, commission: nat,
                              after: map<Account, u64>)
    requires m.vouchers == s.vouchers && m.state.tokensHeld == s.state.tokensHeld && m.host == s.host
    requires CommissionTaken(s, commission, m.lamports) && LamportsPaid(m, batch, amount, 0, after)
    ensures LamportsPaid(s, batch, amount, commission, after)
  {
    forall a
      ensures Balance(after, a) == Balance(s.lamports, a)
                + (if a == SystemAccount(s.host) then commission else 0)
                + (if a.VoucherAccount? && a.user in s.vouchers && a.user in batch
                   then Payout(s.vouchers[a.user].balance, s.state.tokensHeld, amount) else 0)
                - (if a == StateAccount
                   then commission + TotalPayout(s.vouchers, BatchUsers(batch), s.state.tokensHeld, amount) else 0)
    {
      assert Balance(m.lamports, a) == Balance(s.lamports, a)
               + (if a == SystemAccount(s.host) then commission else 0) - (if a == StateAccount then commission else 0);
    }
  }

  /** The state record after the first call of a distribution of `amount`, `seen` of whose vouchers it paid. */
  ghost predicate Opened(s: State, received: nat, amount: nat, seen: nat, t: State) {
    && t == s.(settings := Settings(0, 0, 250, 0), totalDistributed := t.totalDistributed,
               totalUserDistributed := t.totalUserDistributed, dropIdx := t.dropIdx, distribution := t.distribution)
    && t.totalDistributed == s.totalDistributed + received
    && t.totalUserDistributed == s.totalUserDistributed + amount
    && (seen == s.vouchersCount ==> t.dropIdx == s.dropIdx + 1 && t.distribution.None?)
    && (seen != s.vouchersCount ==>
          && t.dropIdx == s.dropIdx && t.distribution.Some?
          && t.distribution.value.distributeAmount == amount && t.distribution.value.seenVouchers == seen)
  }

  lemma StartedAndMovedOn(s: State, received: nat, amount: u64, seen: nat, m: State, t: State)
    requires JustStarted(HostOnly(s), received, amount, m) && MovedOn(m, amount, seen, t)
    ensures Opened(s, received, amount, seen, t)
  {
  }

  /** What the state account holds above its rent and two lamports. */
  ghost function Distributable(s: System): int {
    Balance(s.lamports, StateAccount) - s.stateRent - 2
  }

  /** A distribution has just started: the host has its commission, and nobody else gained. */
  ghost predicate StartedFrom(s: System, m: System) {
    var whole := Distributable(s);
    && 499_999_999 <= whole && 0 <= RoundedBps(whole, 250) <= whole
    && CommissionTaken(s, RoundedBps(whole, 250), m.lamports)
    && JustStarted(HostOnly(s.state), whole + 1, whole - RoundedBps(whole, 250), m.state)
    && m == s.(lamports := m.lamports, state := m.state)
  }

  lemma StartedEffect(s: System)
    requires s.state.distribution.None? && Started(s).Success?
    ensures StartedFrom(s, Started(s).value)
  {
    StartSteps(WithOverride(s));
    StartedWithOverride(s, HostCommission(Distributable(s)), Started(s).value);
  }

  lemma StartedWithOverride(s: System, commission: u64, m: System)
    requires StartedWith(WithOverride(s), commission, m) && commission == RoundedBps(Distributable(s), 250)
    ensures StartedFrom(s, m)
  {
    CommissionsMove(s, commission);
  }

  /** The outcome of the first call of a distribution. */
  ghost predicate FirstDistributed(s: System, batch: seq<Pubkey>, now: i64, t: System) {
    var whole := Distributable(s);
    && 499_999_999 <= whole && 0 <= RoundedBps(whole, 250) <= whole <= U64_MAX
    && LamportsPaid(s, batch, whole - RoundedBps(whole, 250), RoundedBps(whole, 250), t.lamports)
    && VouchersAdvanced(s, batch, now, t.vouchers)
    && Opened(s.state, whole + 1, whole - RoundedBps(whole, 250), |batch|, t.state)
    && t == s.(lamports := t.lamports, vouchers := t.vouchers, state := t.state)
  }

  lemma StartedAndPaid(s: System, m: System, batch: seq<Pubkey>, now: i64, d: Distribution, t: System)
    requires StartedFrom(s, m) && m.state.distribution == Some(d)
    requires BatchPaid(m, batch, now, d.distributeAmount, d.seenVouchers, t)
    ensures FirstDistributed(s, batch, now, t)
  {
    var whole := Distributable(s);
    CommissionAndPayments(s, m, batch, d.distributeAmount, RoundedBps(whole, 250), t.lamports);
    StartedAndMovedOn(s.state, whole + 1, d.distributeAmount, |batch|, m.state, t.state);
  }

  /**
   The first call of a distribution. Of what the state account holds above its rent and two lamports, the host gets 2.5%
   rounded half up and the owner nothing; the vouchers named share the rest, and both totals are kept.
   */
  lemma FirstDistributeEffect(s: System, batch: seq<Pubkey>, now: i64)
    requires s.state.distribution.None? && Distribute(s, batch, now).Success?
    ensures FirstDistributed(s, batch, now, Distribute(s, batch, now).value)
  {
    DistributeSteps(s, batch, now);
    StartedEffect(s);
    var m := Started(s).value;
    PaidBatchEffect(m, batch, now);
    StartedAndPaid(s, m, batch, now, m.state.distribution.value, Distribute(s, batch, now).value);
  }

  /** In particular nobody but the host gains from starting: not the owner, and no other system account. */
  lemma HostGetsTheCommission(s: System, batch: seq<Pubkey>, now: i64, key: Pubkey)
    requires s.state.distribution.None? && Distribute(s, batch, now).Success?
    ensures var t, have := Distribute(s, batch, now).value, Balance(s.lamports, StateAccount);
            && s.stateRent + 2 <= have
            && Balance(t.lamports, SystemAccount(key)) == Balance(s.lamports, SystemAccount(key))
                 + (if key == s.host then RoundedBps(have - s.stateRent - 2, 250) else 0)
            && t.state.totalDistributed == s.state.totalDistributed + have - s.stateRent - 1
            && t.state.totalUserDistributed == s.state.totalUserDistributed + (have - s.stateRent - 2)
                                               - RoundedBps(have - s.stateRent - 2, 250)
  {
    FirstDistributeEffect(s, batch, now);
  }

  // ---------------------------------------------------------------- refusals

  /** A deposit is refused for a missing wallet, then for the wrong user, then while distributing. */
  lemma DepositRefusals(s: System, user: Pubkey, funder: Pubkey, amount: u64)
    ensures var r, there := Deposit(s, user, funder, amount), WalletsExist(s.tokens, user, s.owner);
            && (!there ==> r == Failure(IllegalOwner))
            && (there && (user == s.owner || user == s.host) ==> r == Failure(BlackistedForEnroll))
            && (there && user != s.owner && user != s.host && s.state.distribution.Some? ==>
                  r == Failure(TemporaryUnavailable))
  {
  }

  /** A withdrawal is refused for a missing account, for open votes, while distributing, and by the amount, in turn. */
  lemma WithdrawRefusals(s: System, user: Pubkey, amount: u64, openVotes: bool, funder: Pubkey)
    ensures var r := Withdraw(s, user, amount, openVotes, funder, Own);
            && (user !in s.vouchers ==> r == Failure(InvalidArgument))
            && (user in s.vouchers ==>
                  var there, left := WalletsExist(s.tokens, user, s.owner), s.vouchers[user].balance - amount;
                  && (!there ==> r == Failure(IllegalOwner))
                  && (there && openVotes ==> r == Failure(UnrelinquishedVotes))
                  && (there && !openVotes && s.state.distribution.Some? ==> r == Failure(TemporaryUnavailable))
                  && (there && !openVotes && s.state.distribution.None? && left < 0 ==>
                        r == Failure(InsufficientBalance))
                  && (there && !openVotes && s.state.distribution.None? ==>
                        (0 < left < s.state.settings.minTokenToEnroll ==> r == Failure(LessThanDepositMinimum))))
  {
  }

  /** A distribution is not started below the rent and half a SOL. */
  lemma StartRefusals(s: System, batch: seq<Pubkey>, now: i64)
    requires s.state.distribution.None? && s.stateRent < U64_MAX
    ensures var r, excess := Distribute(s, batch, now), Balance(s.lamports, StateAccount) - s.stateRent - 1;
            && (excess < 0 ==> r == Failure(AccountNotRentExempt))
            && (0 <= excess < 500_000_000 ==> r == Failure(NotEnoughToStartDistribution))
  {
  }

  /** A voucher is not paid if it is unknown, then if it was paid already, then without a share. */
  lemma PaymentRefusals(s: System, user: Pubkey, now: i64)
    requires s.state.distribution.Some?
    ensures var r := Distribute(s, [user], now);
            && (user !in s.vouchers ==> r == Failure(InvalidVoucher))
            && (user in s.vouchers && s.vouchers[user].dropIdx != s.state.dropIdx ==> r == Failure(VoucherNotEligible))
            && (user in s.vouchers && s.vouchers[user].dropIdx == s.state.dropIdx && s.state.tokensHeld == 0 ==>
                  r == Failure(Overflow))
            && (user in s.vouchers && s.vouchers[user].dropIdx == s.state.dropIdx && 0 < s.state.tokensHeld ==>
                  (s.vouchers[user].balance * ONE / s.state.tokensHeld > ONE ==> r == Failure(Panic)))
  {
    assert [user][..0] == [];
    assert PayBatch(WithOverride(s), [], now) == Success(WithOverride(s));
  }
}
