/** Exactly when stakes can be put in and taken out, and what a run of first deposits leads to. */
module RoyaltyStaking {
  import opened Wrappers
  import opened MachineInts
  import opened Sums
  import opened RoyaltyState
  import opened RoyaltySteps
  import opened RoyaltyInvariant

  // ---------------------------------------------------------------- supplies

  /** The three wallets that vote are different ones, so together they hold at most the supply. */
  lemma VotingWalletsFit(tokens: map<TokenWallet, u64>, owner: Pubkey)
    ensures Balance(tokens, StakeWallet) + Balance(tokens, VaultWallet) + Balance(tokens, UserWallet(owner))
         <= Sum(tokens)
  {
    SumWithBalance(tokens, StakeWallet, 0);
    var withoutStake := tokens[StakeWallet := 0];
    SumWithBalance(withoutStake, VaultWallet, 0);
    SumWithBalance(withoutStake[VaultWallet := 0], UserWallet(owner), 0);
  }

  /** The maximum always fits 64 bits while the stake is covered and the supply does. */
  lemma MaximumFits(s: System, wallets: map<TokenWallet, u64>)
    requires s.state.tokensHeld <= Balance(wallets, StakeWallet) && Sum(wallets) <= U64_MAX
    ensures MaxVoteWeight(s, wallets).Some?
  {
    VotingWalletsFit(wallets, s.owner);
  }

  // ---------------------------------------------------------------- records

  lemma CreateSucceedsIff(lamports: map<Account, u64>, funder: Pubkey, to: Account, rent: u64)
    requires Sum(lamports) <= U64_MAX
    ensures CreateAccount(lamports, funder, to, rent).Success? <==>
              Balance(lamports, to) == 0 && rent <= Balance(lamports, SystemAccount(funder))
  {
    if rent <= Balance(lamports, SystemAccount(funder)) {
      MoveSucceeds(lamports, SystemAccount(funder), to, rent);
    }
  }

  /** A record exists already, or nobody has sent lamports to its address. */
  ghost predicate MaximumWritable(s: System) {
    s.maxWeight.Some? || Balance(s.lamports, MaxWeightRecord) == 0
  }

  ghost predicate WeightWritable(s: System, user: Pubkey) {
    user in s.weights || Balance(s.lamports, WeightRecord(user)) == 0
  }

  function MaximumRent(s: System): u64 {
    if s.maxWeight.Some? then 0 else s.maxWeightRent
  }

  function WeightRent(s: System, user: Pubkey): u64 {
    if user in s.weights then 0 else s.weightRent
  }

  /** Both records can be written: their addresses are free, and the funder has the rent of those to create. */
  ghost predicate CanRecord(s: System, user: Pubkey, funder: Pubkey) {
    && WeightWritable(s, user) && MaximumWritable(s)
    && WeightRent(s, user) + MaximumRent(s) <= Balance(s.lamports, SystemAccount(funder))
  }

  lemma SaveMaximumSucceedsIff(s: System, weight: u64, funder: Pubkey)
    requires Sum(s.lamports) <= U64_MAX
    ensures SaveMaximum(s, weight, funder).Success? <==>
              MaximumWritable(s) && MaximumRent(s) <= Balance(s.lamports, SystemAccount(funder))
  {
    CreateSucceedsIff(s.lamports, funder, MaxWeightRecord, s.maxWeightRent);
  }

  /** The maximum record and the rent for it once the weight is saved. */
  lemma WeightSaved(s: System, user: Pubkey, weight: u64, funder: Pubkey)
    requires Sum(s.lamports) <= U64_MAX
    ensures SaveWeight(s, user, weight, funder).Success? <==>
              WeightWritable(s, user) && WeightRent(s, user) <= Balance(s.lamports, SystemAccount(funder))
    ensures SaveWeight(s, user, weight, funder).Success? ==>
              var t := SaveWeight(s, user, weight, funder).value;
              && Sum(t.lamports) == Sum(s.lamports) && t.maxWeight == s.maxWeight && t.maxWeightRent == s.maxWeightRent
              && Balance(t.lamports, MaxWeightRecord) == Balance(s.lamports, MaxWeightRecord)
              && Balance(t.lamports, SystemAccount(funder))
                 == Balance(s.lamports, SystemAccount(funder)) - WeightRent(s, user)
  {
    CreateSucceedsIff(s.lamports, funder, WeightRecord(user), s.weightRent);
    if user !in s.weights && SaveWeight(s, user, weight, funder).Success? {
      CreateRecordEffect(s.lamports, funder, WeightRecord(user), s.weightRent);
    }
  }

  lemma SaveBothSucceedsIff(s: System, user: Pubkey, weight: u64, maximum: u64, funder: Pubkey)
    requires Sum(s.lamports) <= U64_MAX
    ensures (SaveWeight(s, user, weight, funder).Success?
             && SaveMaximum(SaveWeight(s, user, weight, funder).value, maximum, funder).Success?)
            <==> CanRecord(s, user, funder)
  {
    WeightSaved(s, user, weight, funder);
    if SaveWeight(s, user, weight, funder).Success? {
      SaveMaximumSucceedsIff(SaveWeight(s, user, weight, funder).value, maximum, funder);
    }
  }

  // ---------------------------------------------------------------- leaving

  /** The supplies fit 64 bits and the stake wallet covers what is staked. */
  ghost predicate Funded(s: System) {
    Sum(s.tokens) <= U64_MAX && Sum(s.lamports) <= U64_MAX && s.state.tokensHeld <= Balance(s.tokens, StakeWallet)
  }

  lemma UnstakeSucceedsIff(s: System, user: Pubkey, amount: u64, voucher: VoucherArg)
    requires Funded(s)
    requires VoucherBalance(s, user, voucher).Some? && amount <= VoucherBalance(s, user, voucher).value
    ensures Unstake(s, user, amount, voucher).Success? <==> amount <= s.state.tokensHeld
  {
    if amount <= s.state.tokensHeld {
      MoveSucceeds(s.tokens, StakeWallet, UserWallet(user), amount);
    }
  }

  /** Tokens taken out, both records can be written exactly when they could before. */
  lemma UnstakedRecordsIff(s: System, user: Pubkey, amount: u64, voucher: VoucherArg, weight: u64, funder: Pubkey)
    requires Funded(s)
    requires VoucherBalance(s, user, voucher).Some? && amount <= VoucherBalance(s, user, voucher).value
    requires Unstake(s, user, amount, voucher).Success?
    ensures RecordBoth(Unstake(s, user, amount, voucher).value, s.tokens, user, weight, funder).Success?
       <==> CanRecord(s, user, funder)
  {
    var m := Unstake(s, user, amount, voucher).value;
    UnstakeEffect(s, user, amount, voucher);
    MaximumFits(m, s.tokens);
    SaveBothSucceedsIff(m, user, weight, MaxVoteWeight(m, s.tokens).value, funder);
  }

  /** The steps of a withdrawal that can fail once its checks are passed. */
  ghost predicate UnstakesAndRecords(s: System, user: Pubkey, amount: u64, voucher: VoucherArg, weight: u64,
                                     funder: Pubkey)
    requires VoucherBalance(s, user, voucher).Some? && amount <= VoucherBalance(s, user, voucher).value
  {
    && Unstake(s, user, amount, voucher).Success?
    && RecordBoth(Unstake(s, user, amount, voucher).value, s.tokens, user, weight, funder).Success?
  }

  lemma UnstakesAndRecordsIff(s: System, user: Pubkey, amount: u64, voucher: VoucherArg, weight: u64, funder: Pubkey)
    requires Funded(s)
    requires VoucherBalance(s, user, voucher).Some? && amount <= VoucherBalance(s, user, voucher).value
    ensures UnstakesAndRecords(s, user, amount, voucher, weight, funder) <==>
              amount <= s.state.tokensHeld && CanRecord(s, user, funder)
  {
    UnstakeSucceedsIff(s, user, amount, voucher);
    if Unstake(s, user, amount, voucher).Success? {
      UnstakedRecordsIff(s, user, amount, voucher, weight, funder);
    }
  }

  /** What the stake allows: the amount is covered and leaves nothing or at least the enrolment minimum. */
  ghost predicate Withdrawable(s: System, user: Pubkey, amount: u64, voucher: VoucherArg) {
    var balance := VoucherBalance(s, user, voucher);
    && balance.Some? && amount <= balance.value && amount <= s.state.tokensHeld
    && (amount == balance.value || s.state.settings.minTokenToEnroll <= balance.value - amount)
  }

  ghost predicate WithdrawalGoesThrough(s: System, user: Pubkey, amount: u64, funder: Pubkey, voucher: VoucherArg)
    requires VoucherBalance(s, user, voucher).Some? && amount <= VoucherBalance(s, user, voucher).value
  {
    var left := VoucherBalance(s, user, voucher).value - amount;
    && (left == 0 || s.state.settings.minTokenToEnroll <= left)
    && UnstakesAndRecords(s, user, amount, voucher, left, funder)
  }

  lemma WithdrawalGoesThroughIff(s: System, user: Pubkey, amount: u64, funder: Pubkey, voucher: VoucherArg)
    requires Funded(s)
    requires VoucherBalance(s, user, voucher).Some? && amount <= VoucherBalance(s, user, voucher).value
    ensures WithdrawalGoesThrough(s, user, amount, funder, voucher) <==>
              Withdrawable(s, user, amount, voucher) && CanRecord(s, user, funder)
  {
    UnstakesAndRecordsIff(s, user, amount, voucher, VoucherBalance(s, user, voucher).value - amount, funder);
  }

  lemma WithdrawIsItsSteps(s: System, user: Pubkey, amount: u64, openVotes: bool, funder: Pubkey, voucher: VoucherArg)
    ensures Withdraw(s, user, amount, openVotes, funder, voucher).Success? <==>
              && VoucherBalance(s, user, voucher).Some? && amount <= VoucherBalance(s, user, voucher).value
              && !openVotes && s.state.distribution.None? && WalletsExist(s.tokens, user, s.owner)
              && WithdrawalGoesThrough(s, user, amount, funder, voucher)
  {
  }

  /**
   A withdrawal succeeds exactly when no votes are open, no distribution runs, the stake allows the amount, the wallets
   exist and both records can be written.
   */
  lemma WithdrawSucceedsIff(s: System, user: Pubkey, amount: u64, openVotes: bool, funder: Pubkey, voucher: VoucherArg)
    requires Orderly(s) && Sum(s.tokens) <= U64_MAX
    ensures Withdraw(s, user, amount, openVotes, funder, voucher).Success? <==>
              && !openVotes && s.state.distribution.None? && Withdrawable(s, user, amount, voucher)
              && WalletsExist(s.tokens, user, s.owner) && CanRecord(s, user, funder)
  {
    var balance := VoucherBalance(s, user, voucher);
    WithdrawIsItsSteps(s, user, amount, openVotes, funder, voucher);
    if balance.Some? && amount <= balance.value {
      WithdrawalGoesThroughIff(s, user, amount, funder, voucher);
    }
  }

  /**
   In particular, over every run with vouchers of this state, a staker can take everything out of an idle state exactly
   when no votes are open, the wallets exist and the records can be written.
   */
  lemma StakersCanLeave(s: System, ops: seq<Op>, user: Pubkey, openVotes: bool, funder: Pubkey)
    requires Initial(s) && AllOwnVouchers(ops)
    ensures var t := Run(s, ops);
            user in t.vouchers && t.state.distribution.None? && Sum(t.tokens) <= U64_MAX ==>
              (Withdraw(t, user, t.vouchers[user].balance, openVotes, funder, Own).Success? <==>
                 !openVotes && WalletsExist(t.tokens, user, t.owner) && CanRecord(t, user, funder))
  {
    RunKeepsInvariant(s, ops);
    var t := Run(s, ops);
    if user in t.vouchers && Sum(t.tokens) <= U64_MAX {
      BalanceWithinStake(t, user);
      WithdrawSucceedsIff(t, user, t.vouchers[user].balance, openVotes, funder, Own);
    }
  }

  lemma WeightFits(s: System, user: Pubkey, voucher: VoucherArg)
    requires Sum(s.tokens) <= U64_MAX
    ensures WeightOf(s, user, voucher).Success? <==> user == s.owner || VoucherBalance(s, user, voucher).Some?
  {
    VotingWalletsFit(s.tokens, s.owner);
  }

  lemma SavedMaximum(s: System, user: Pubkey, weight: u64, funder: Pubkey)
    requires SaveWeight(s, user, weight, funder).Success?
    ensures MaxVoteWeight(SaveWeight(s, user, weight, funder).value, s.tokens) == MaxVoteWeight(s, s.tokens)
  {
  }

  lemma SyncRecordsIff(s: System, user: Pubkey, weight: u64, funder: Pubkey)
    requires Funded(s)
    ensures (SaveWeight(s, user, weight, funder).Success?
             && RecordMaxWeight(SaveWeight(s, user, weight, funder).value, s.tokens, funder).Success?)
            <==> CanRecord(s, user, funder)
  {
    MaximumFits(s, s.tokens);
    SaveBothSucceedsIff(s, user, weight, MaxVoteWeight(s, s.tokens).value, funder);
    if SaveWeight(s, user, weight, funder).Success? {
      SavedMaximum(s, user, weight, funder);
    }
  }

  /** A synchronisation succeeds exactly with a weight, the two wallets, and both records to be written. */
  lemma SyncSucceedsIff(s: System, user: Pubkey, funder: Pubkey, voucher: VoucherArg)
    requires Orderly(s) && Sum(s.tokens) <= U64_MAX
    ensures SyncWeightRecord(s, user, funder, voucher).Success? <==>
              && (user == s.owner || VoucherBalance(s, user, voucher).Some?)
              && VaultWallet in s.tokens && UserWallet(s.owner) in s.tokens && CanRecord(s, user, funder)
  {
    WeightFits(s, user, voucher);
    if WeightOf(s, user, voucher).Success? {
      SyncRecordsIff(s, user, WeightOf(s, user, voucher).value, funder);
    }
  }

  // ---------------------------------------------------------------- joining

  /** The voucher is there already, or its account can be created and counted. */
  ghost predicate CanEnroll(s: System, user: Pubkey) {
    user in s.vouchers || (Balance(s.lamports, VoucherAccount(user)) == 0 && s.state.vouchersCount < U32_MAX)
  }

  function VoucherRent(s: System, user: Pubkey): u64 {
    if user in s.vouchers then 0 else s.voucherRent
  }

  /** A voucher opened, if need be: its rent is paid and the address of the maximum record is untouched. */
  lemma VoucherOpened(s: System, user: Pubkey, funder: Pubkey, amount: u64)
    requires Sum(s.lamports) <= U64_MAX && s.state.settings.minTokenToEnroll == 0
    ensures OpenVoucher(s, user, funder, amount).Success? <==>
              CanEnroll(s, user) && VoucherRent(s, user) <= Balance(s.lamports, SystemAccount(funder))
    ensures OpenVoucher(s, user, funder, amount).Success? ==>
              var t := OpenVoucher(s, user, funder, amount).value;
              && t == s.(lamports := t.lamports, vouchers := t.vouchers, state := t.state)
              && OpeningPaid(s.lamports, t.lamports, user, funder, VoucherRent(s, user))
  {
    CreateSucceedsIff(s.lamports, funder, VoucherAccount(user), s.voucherRent);
    if user !in s.vouchers && OpenVoucher(s, user, funder, amount).Success? {
      MoveConserves(s.lamports, SystemAccount(funder), VoucherAccount(user), s.voucherRent);
    }
  }

  /** The funder paid the rent, and only the voucher account of the user gained. */
  ghost predicate OpeningPaid(before: map<Account, u64>, after: map<Account, u64>, user: Pubkey, funder: Pubkey,
                              rent: nat) {
    && Sum(after) == Sum(before)
    && Balance(after, SystemAccount(funder)) == Balance(before, SystemAccount(funder)) - rent
    && (forall a :: a != SystemAccount(funder) && a != VoucherAccount(user) ==> Balance(after, a) == Balance(before, a))
  }

  lemma StakedFits(s: System, user: Pubkey, amount: u64)
    requires Consistent(s) && Sum(s.tokens) <= U64_MAX && user in s.vouchers
    requires amount <= Balance(s.tokens, UserWallet(user))
    ensures var moved := Move(s.tokens, UserWallet(user), StakeWallet, amount);
            && moved.Some? && Sum(moved.value) == Sum(s.tokens)
            && s.state.tokensHeld + amount <= Balance(moved.value, StakeWallet) <= Sum(s.tokens)
            && s.vouchers[user].balance + amount <= Sum(s.tokens)
  {
    BalanceWithinStake(s, user);
    MoveSucceeds(s.tokens, UserWallet(user), StakeWallet, amount);
    MoveConserves(s.tokens, UserWallet(user), StakeWallet, amount);
    SumWithBalance(Move(s.tokens, UserWallet(user), StakeWallet, amount).value, StakeWallet, 0);
  }

  lemma StakeSucceedsIff(s: System, user: Pubkey, amount: u64)
    requires Consistent(s) && Sum(s.tokens) <= U64_MAX && user in s.vouchers
    ensures Stake(s, user, amount).Success? <==> amount <= Balance(s.tokens, UserWallet(user))
  {
    if amount <= Balance(s.tokens, UserWallet(user)) {
      StakedFits(s, user, amount);
    }
  }

  /** The maximum after a deposit fits: the tokens put in are still counted in the user's wallet, not the voters'. */
  lemma StakedMaximumFits(s: System, user: Pubkey, amount: u64)
    requires Consistent(s) && Sum(s.tokens) <= U64_MAX && user in s.vouchers && user != s.owner
    requires Stake(s, user, amount).Success?
    ensures MaxVoteWeight(Stake(s, user, amount).value, s.tokens).Some?
  {
    var m := Stake(s, user, amount).value;
    MoveConserves(s.tokens, UserWallet(user), StakeWallet, amount);
    MaximumFits(m, m.tokens);
  }

  /** Once the voucher is there, the tokens and the maximum record decide. */
  lemma EnrolledStakeSucceedsIff(s: System, user: Pubkey, amount: u64, funder: Pubkey)
    requires Consistent(s) && Sum(s.tokens) <= U64_MAX && user in s.vouchers && user != s.owner
    ensures (Stake(s, user, amount).Success?
             && RecordMaxWeight(Stake(s, user, amount).value, s.tokens, funder).Success?)
            <==> && amount <= Balance(s.tokens, UserWallet(user))
                 && MaximumWritable(s) && MaximumRent(s) <= Balance(s.lamports, SystemAccount(funder))
  {
    StakeSucceedsIff(s, user, amount);
    if Stake(s, user, amount).Success? {
      var m := Stake(s, user, amount).value;
      StakedMaximumFits(s, user, amount);
      SaveMaximumSucceedsIff(m, MaxVoteWeight(m, s.tokens).value, funder);
    }
  }

  /** The steps after the voucher was opened, in terms of the state before. */
  lemma OpenedStakeSucceedsIff(s: System, user: Pubkey, funder: Pubkey, amount: u64)
    requires Consistent(s) && Sum(s.tokens) <= U64_MAX && user != s.owner && s.state.distribution.None?
    requires s.state.settings.minTokenToEnroll == 0 && OpenVoucher(s, user, funder, amount).Success?
    ensures var m := OpenVoucher(s, user, funder, amount).value;
            && user in m.vouchers
            && ((Stake(m, user, amount).Success?
                 && RecordMaxWeight(Stake(m, user, amount).value, s.tokens, funder).Success?)
                <==> && amount <= Balance(s.tokens, UserWallet(user)) && MaximumWritable(s)
                     && VoucherRent(s, user) + MaximumRent(s) <= Balance(s.lamports, SystemAccount(funder)))
  {
    VoucherOpened(s, user, funder, amount);
    OpenVoucherKeeps(s, user, funder, amount);
    EnrolledStakeSucceedsIff(OpenVoucher(s, user, funder, amount).value, user, amount, funder);
  }

  /** What a deposit needs besides a free voucher: the token wallets, the maximum record, and the rents of both. */
  ghost predicate CanPayIn(s: System, user: Pubkey, funder: Pubkey, amount: u64) {
    && WalletsExist(s.tokens, user, s.owner) && amount <= Balance(s.tokens, UserWallet(user))
    && MaximumWritable(s)
    && VoucherRent(s, user) + MaximumRent(s) <= Balance(s.lamports, SystemAccount(funder))
  }

  /** The steps of a deposit that can fail. */
  lemma DepositIsItsSteps(s: System, user: Pubkey, funder: Pubkey, amount: u64)
    ensures var enrolled := OpenVoucher(WithOverride(s), user, funder, amount);
            Deposit(s, user, funder, amount).Success? <==>
              && WalletsExist(s.tokens, user, s.owner)
              && user != s.owner && user != s.host && s.state.distribution.None?
              && enrolled.Success? && Stake(enrolled.value, user, amount).Success?
              && RecordMaxWeight(Stake(enrolled.value, user, amount).value, s.tokens, funder).Success?
  {
  }

  /**
   A deposit succeeds exactly outside distributions, for others than owner and host, with the tokens, a voucher, the
   maximum record and their rents at hand.
   */
  lemma DepositSucceedsIff(s: System, user: Pubkey, funder: Pubkey, amount: u64)
    requires Inv(s) && Sum(s.tokens) <= U64_MAX
    ensures Deposit(s, user, funder, amount).Success? <==>
              && user != s.owner && user != s.host && s.state.distribution.None?
              && CanEnroll(s, user) && CanPayIn(s, user, funder, amount)
  {
    var over := WithOverride(s);
    VoucherOpened(over, user, funder, amount);
    DepositIsItsSteps(s, user, funder, amount);
    if user != s.owner && s.state.distribution.None? && OpenVoucher(over, user, funder, amount).Success? {
      OpenedStakeSucceedsIff(over, user, funder, amount);
    }
  }

  /** The lamports of a first deposit: voucher and maximum record are paid by the funder, nothing else moves. */
  ghost predicate DepositPaid(s: System, user: Pubkey, funder: Pubkey, after: map<Account, u64>) {
    && Balance(after, SystemAccount(funder))
       == Balance(s.lamports, SystemAccount(funder)) - s.voucherRent - MaximumRent(s)
    && Balance(after, StateAccount) == Balance(s.lamports, StateAccount)
    && (forall u :: u != user ==> Balance(after, VoucherAccount(u)) == Balance(s.lamports, VoucherAccount(u)))
    && (forall u :: Balance(after, WeightRecord(u)) == Balance(s.lamports, WeightRecord(u)))
  }

  lemma MaximumSaved(s: System, weight: u64, funder: Pubkey)
    requires SaveMaximum(s, weight, funder).Success?
    ensures var after := SaveMaximum(s, weight, funder).value.lamports;
            && Balance(after, SystemAccount(funder)) == Balance(s.lamports, SystemAccount(funder)) - MaximumRent(s)
            && (forall a :: a != SystemAccount(funder) && a != MaxWeightRecord ==>
                  Balance(after, a) == Balance(s.lamports, a))
  {
    if s.maxWeight.None? {
      CreateRecordEffect(s.lamports, funder, MaxWeightRecord, s.maxWeightRent);
    }
  }

  lemma FirstDepositPaid(s: System, user: Pubkey, funder: Pubkey, amount: u64)
    requires Sum(s.lamports) <= U64_MAX && Deposit(s, user, funder, amount).Success? && user !in s.vouchers
    ensures DepositPaid(s, user, funder, Deposit(s, user, funder, amount).value.lamports)
  {
    var m := OpenVoucher(WithOverride(s), user, funder, amount).value;
    var staked := Stake(m, user, amount).value;
    VoucherOpened(WithOverride(s), user, funder, amount);
    StakeEffect(m, user, amount);
    MaximumSaved(staked, MaxVoteWeight(staked, s.tokens).value, funder);
  }

  /** A first deposit, field by field. */
  lemma FirstDepositEffect(s: System, user: Pubkey, funder: Pubkey, amount: u64)
    requires Deposit(s, user, funder, amount).Success? && user !in s.vouchers
    ensures var t := Deposit(s, user, funder, amount).value;
            && t.vouchers == s.vouchers[user := Voucher(s.state.dropIdx, amount, 0)]
            && t.state == FeesOverridden(s.state).(vouchersCount := t.state.vouchersCount,
                                                   tokensHeld := t.state.tokensHeld)
            && t.state.vouchersCount == s.state.vouchersCount + 1
            && t.state.tokensHeld == s.state.tokensHeld + amount
            && Move(s.tokens, UserWallet(user), StakeWallet, amount) == Some(t.tokens)
            && t.maxWeight.Some?
            && t == s.(state := t.state, vouchers := t.vouchers, tokens := t.tokens, lamports := t.lamports,
                       maxWeight := t.maxWeight)
  {
    var m := OpenVoucher(WithOverride(s), user, funder, amount).value;
    StakeEffect(m, user, amount);
    RecordMaxWeightEffect(Stake(m, user, amount).value, s.tokens, funder);
    assert m.vouchers[user := Voucher(s.state.dropIdx, amount, 0)]
        == s.vouchers[user := Voucher(s.state.dropIdx, amount, 0)];
  }

  function FeesOverridden(state: State): State {
    state.(settings := Overridden(state.settings))
  }

  // ---------------------------------------------------------------- a run of first deposits

  function Total(stakes: seq<nat>): nat {
    if stakes == [] then 0 else Total(stakes[..|stakes| - 1]) + stakes[|stakes| - 1]
  }

  /** Users 0, 1, 2, ... deposit their stakes; `funder` pays for the vouchers and the maximum record. */
  function DepositOps(stakes: seq<u64>, funder: Pubkey): seq<Op> {
    seq(|stakes|, i requires 0 <= i < |stakes| => DepositTokens(i, funder, stakes[i]))
  }

  /** User u holds the u-th stake, and nobody else holds a voucher. */
  ghost predicate HoldsStakes(vouchers: map<Pubkey, Voucher>, stakes: seq<u64>) {
    && (forall u :: u in vouchers.Keys <==> 0 <= u < |stakes|)
    && (forall u :: u in vouchers.Keys ==> vouchers[u] == Voucher(0, stakes[u], 0))
  }

  /** The first users can deposit: wallets, addresses and the funder's lamports. */
  ghost predicate CanAllDeposit(s: System, stakes: seq<u64>, funder: Pubkey) {
    && Initial(s) && Sum(s.tokens) <= U64_MAX
    && |stakes| <= s.owner && |stakes| <= s.host && |stakes| <= U32_MAX
    && |stakes| * s.voucherRent + s.maxWeightRent <= Balance(s.lamports, SystemAccount(funder))
    && Balance(s.lamports, MaxWeightRecord) == 0
    && (forall u :: 0 <= u < |stakes| ==>
          && WalletsExist(s.tokens, u, s.owner)
          && stakes[u] <= Balance(s.tokens, UserWallet(u)) && Balance(s.lamports, VoucherAccount(u)) == 0)
  }

  /** The state record and the vouchers once the given stakes are in. */
  ghost predicate Booked(state: State, vouchers: map<Pubkey, Voucher>, stakes: seq<u64>) {
    && HoldsStakes(vouchers, stakes)
    && state.vouchersCount == |stakes| && state.tokensHeld == Total(stakes)
    && state.dropIdx == 0 && state.distribution.None?
    && state.totalDistributed == 0 && state.totalUserDistributed == 0
  }

  /** Wallets and accounts: the first n deposits are paid for, the others still can be. */
  ghost predicate PaidFor(s: System, stakes: seq<u64>, n: nat, funder: Pubkey, t: System)
    requires n <= |stakes|
  {
    && Sum(t.tokens) == Sum(s.tokens) && t.tokens.Keys >= s.tokens.Keys
    && Balance(t.lamports, StateAccount) == Balance(s.lamports, StateAccount)
    && Balance(t.lamports, SystemAccount(funder))
       == Balance(s.lamports, SystemAccount(funder)) - n * s.voucherRent - (if n == 0 then 0 else s.maxWeightRent)
    && (forall u :: n <= u < |stakes| ==>
          && Balance(t.tokens, UserWallet(u)) == Balance(s.tokens, UserWallet(u))
          && Balance(t.lamports, VoucherAccount(u)) == Balance(s.lamports, VoucherAccount(u)))
    && RecordsAfter(s, n, t)
  }

  /** The first deposit creates the maximum record; nobody has a weight record. */
  ghost predicate RecordsAfter(s: System, n: nat, t: System) {
    && (n == 0 ==> t.maxWeight.None? && Balance(t.lamports, MaxWeightRecord) == Balance(s.lamports, MaxWeightRecord))
    && (0 < n ==> t.maxWeight.Some?)
    && t.weights == s.weights
    && (forall u :: Balance(t.lamports, WeightRecord(u)) == Balance(s.lamports, WeightRecord(u)))
  }

  ghost predicate SameAddresses(s: System, t: System) {
    && t.owner == s.owner && t.host == s.host && t.stateRent == s.stateRent && t.voucherRent == s.voucherRent
    && t.weightRent == s.weightRent && t.maxWeightRent == s.maxWeightRent
  }

  /** The state after the deposits of the first n users. */
  ghost predicate Deposited(s: System, stakes: seq<u64>, n: nat, funder: Pubkey, t: System)
    requires n <= |stakes|
  {
    Inv(t) && SameAddresses(s, t) && Booked(t.state, t.vouchers, stakes[..n]) && PaidFor(s, stakes, n, funder, t)
  }

  lemma NextCanPayIn(s: System, stakes: seq<u64>, n: nat, funder: Pubkey, t: System)
    requires CanAllDeposit(s, stakes, funder) && n < |stakes| && Deposited(s, stakes, n, funder, t)
    ensures n !in t.vouchers && CanEnroll(t, n) && CanPayIn(t, n, funder, stakes[n])
  {
    RentLeft(|stakes|, n, s.voucherRent, Balance(s.lamports, SystemAccount(funder)) - s.maxWeightRent);
    assert WalletsExist(s.tokens, n, s.owner);
  }

  lemma NextDepositSucceeds(s: System, stakes: seq<u64>, n: nat, funder: Pubkey, t: System)
    requires CanAllDeposit(s, stakes, funder) && n < |stakes| && Deposited(s, stakes, n, funder, t)
    ensures Deposit(t, n, funder, stakes[n]).Success? && n !in t.vouchers
  {
    NextCanPayIn(s, stakes, n, funder, t);
    DepositSucceedsIff(t, n, funder, stakes[n]);
  }

  lemma RentLeft(count: nat, n: nat, rent: nat, balance: nat)
    requires n < count && count * rent <= balance
    ensures rent <= balance - n * rent
  {
    assert count * rent == n * rent + rent + (count - n - 1) * rent;
  }

  lemma BookedOneMore(state: State, vouchers: map<Pubkey, Voucher>, stakes: seq<u64>, n: nat, after: State)
    requires n < |stakes| && Booked(state, vouchers, stakes[..n])
    requires after == FeesOverridden(state).(vouchersCount := after.vouchersCount, tokensHeld := after.tokensHeld)
    requires after.vouchersCount == state.vouchersCount + 1 && after.tokensHeld == state.tokensHeld + stakes[n]
    ensures Booked(after, vouchers[n := Voucher(0, stakes[n], 0)], stakes[..n + 1])
  {
    assert stakes[..n + 1][..n] == stakes[..n];
  }

  lemma PaidForOneMore(s: System, stakes: seq<u64>, n: nat, funder: Pubkey, t: System, after: System)
    requires n < |stakes| && PaidFor(s, stakes, n, funder, t) && SameAddresses(s, t)
    requires Move(t.tokens, UserWallet(n), StakeWallet, stakes[n]) == Some(after.tokens)
    requires DepositPaid(t, n, funder, after.lamports) && after.maxWeight.Some? && after.weights == t.weights
    ensures PaidFor(s, stakes, n + 1, funder, after)
  {
    MoveConserves(t.tokens, UserWallet(n), StakeWallet, stakes[n]);
    assert (n + 1) * s.voucherRent == n * s.voucherRent + s.voucherRent;
  }

  lemma NextDeposited(s: System, stakes: seq<u64>, n: nat, funder: Pubkey, t: System)
    requires CanAllDeposit(s, stakes, funder) && n < |stakes| && Deposited(s, stakes, n, funder, t)
    ensures Deposit(t, n, funder, stakes[n]).Success?
    ensures Deposited(s, stakes, n + 1, funder, Deposit(t, n, funder, stakes[n]).value)
  {
    NextDepositSucceeds(s, stakes, n, funder, t);
    FirstDepositEffect(t, n, funder, stakes[n]);
    FirstDepositPaid(t, n, funder, stakes[n]);
    DepositKeeps(t, n, funder, stakes[n]);
    var after := Deposit(t, n, funder, stakes[n]).value;
    BookedOneMore(t.state, t.vouchers, stakes, n, after.state);
    PaidForOneMore(s, stakes, n, funder, t, after);
  }

  lemma NothingDeposited(s: System, stakes: seq<u64>, funder: Pubkey)
    requires CanAllDeposit(s, stakes, funder)
    ensures Deposited(s, stakes, 0, funder, s)
  {
    InitialInv(s);
    assert stakes[..0] == [];
    NothingBooked(s.state, s.vouchers);
    NothingPaid(s, stakes, funder);
  }

  lemma NothingBooked(state: State, vouchers: map<Pubkey, Voucher>)
    requires state == State(state.settings, 0, 0, 0, None, 0, 0) && vouchers == map[]
    ensures Booked(state, vouchers, [])
  {
    assert vouchers.Keys == {};
  }

  lemma NothingPaid(s: System, stakes: seq<u64>, funder: Pubkey)
    requires s.maxWeight.None?
    ensures PaidFor(s, stakes, 0, funder, s)
  {
    assert 0 * s.voucherRent == 0;
  }

  lemma OneMoreOp(s: System, stakes: seq<u64>, n: nat, funder: Pubkey)
    requires n < |stakes|
    ensures Run(s, DepositOps(stakes, funder)[..n + 1])
         == Step(Run(s, DepositOps(stakes, funder)[..n]), DepositTokens(n, funder, stakes[n]))
  {
    assert DepositOps(stakes, funder)[..n + 1][..n] == DepositOps(stakes, funder)[..n];
  }

  /** From an initial state in which they can pay, the first users all enrol with their stakes. */
  lemma {:induction false} DepositsSucceed(s: System, stakes: seq<u64>, n: nat, funder: Pubkey)
    requires CanAllDeposit(s, stakes, funder) && n <= |stakes|
    ensures Deposited(s, stakes, n, funder, Run(s, DepositOps(stakes, funder)[..n]))
  {
    if n == 0 {
      NothingDeposited(s, stakes, funder);
    } else {
      DepositsSucceed(s, stakes, n - 1, funder);
      NextDeposited(s, stakes, n - 1, funder, Run(s, DepositOps(stakes, funder)[..n - 1]));
      OneMoreOp(s, stakes, n - 1, funder);
    }
  }
}
