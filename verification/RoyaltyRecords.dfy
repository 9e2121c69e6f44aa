/**
 Accounts that can never be created. Voting records and vouchers are created at derived addresses that must not hold
 lamports yet, and nothing ever takes lamports away from such an address: whoever sends some there first stops every
 later instruction that would create the account.
 */
module RoyaltyRecords {
  import opened MachineInts
  import opened Sums
  import opened RoyaltyState
  import opened RoyaltySteps
  import opened RoyaltyInvariant

  /** The user has no weight record, and its address holds lamports. */
  ghost predicate WeightBlocked(s: System, user: Pubkey) {
    user !in s.weights.Keys && 0 < Balance(s.lamports, WeightRecord(user))
  }

  /** The same for the record of the maximum. */
  ghost predicate MaximumBlocked(s: System) {
    s.maxWeight.None? && 0 < Balance(s.lamports, MaxWeightRecord)
  }

  /** The same for the user's voucher. */
  ghost predicate VoucherBlocked(s: System, user: Pubkey) {
    user !in s.vouchers.Keys && 0 < Balance(s.lamports, VoucherAccount(user))
  }

  ghost predicate StillBlocked(s: System, t: System) {
    && (forall u :: WeightBlocked(s, u) ==> WeightBlocked(t, u))
    && (forall u :: VoucherBlocked(s, u) ==> VoucherBlocked(t, u))
    && (MaximumBlocked(s) ==> MaximumBlocked(t))
  }

  /** Addresses that no instruction debits: those of the records and of vouchers that do not exist. */
  predicate Untouched(vouchers: map<Pubkey, Voucher>, a: Account) {
    a.WeightRecord? || a.MaxWeightRecord? || (a.VoucherAccount? && a.user !in vouchers)
  }

  ghost predicate AddressesKept(vouchers: map<Pubkey, Voucher>, before: map<Account, u64>, after: map<Account, u64>) {
    forall a :: Untouched(vouchers, a) ==> Balance(before, a) <= Balance(after, a)
  }

  lemma MoveKeepsAddresses(vouchers: map<Pubkey, Voucher>, lamports: map<Account, u64>, from: Account, to: Account,
                           amount: u64)
    requires !Untouched(vouchers, from) && Move(lamports, from, to, amount).Some?
    ensures AddressesKept(vouchers, lamports, Move(lamports, from, to, amount).value)
  {
    MoveConserves(lamports, from, to, amount);
  }

  /** An instruction that creates no account unblocks none. */
  lemma NothingCreated(s: System, t: System)
    requires AddressesKept(s.vouchers, s.lamports, t.lamports)
    requires t.vouchers.Keys == s.vouchers.Keys && t.weights == s.weights && t.maxWeight == s.maxWeight
    ensures StillBlocked(s, t)
  {
    forall u
      ensures WeightBlocked(s, u) ==> WeightBlocked(t, u)
      ensures VoucherBlocked(s, u) ==> VoucherBlocked(t, u)
    {
      assert Untouched(s.vouchers, WeightRecord(u));
      assert u !in s.vouchers ==> Untouched(s.vouchers, VoucherAccount(u));
    }
    assert Untouched(s.vouchers, MaxWeightRecord);
  }

  // ---------------------------------------------------------------- creating accounts

  /** Creating an account raises the balances of no other, and its own was zero. */
  lemma CreateKeepsAddresses(lamports: map<Account, u64>, funder: Pubkey, to: Account, rent: u64)
    requires CreateAccount(lamports, funder, to, rent).Success?
    ensures Balance(lamports, to) == 0
    ensures forall a :: a != SystemAccount(funder) ==>
              Balance(lamports, a) <= Balance(CreateAccount(lamports, funder, to, rent).value, a)
  {
    MoveConserves(lamports, SystemAccount(funder), to, rent);
  }

  lemma SaveWeightBlocked(s: System, user: Pubkey, weight: u64, funder: Pubkey)
    requires SaveWeight(s, user, weight, funder).Success?
    ensures !WeightBlocked(s, user) && StillBlocked(s, SaveWeight(s, user, weight, funder).value)
  {
    if user !in s.weights {
      CreateKeepsAddresses(s.lamports, funder, WeightRecord(user), s.weightRent);
    }
  }

  lemma SaveMaximumBlocked(s: System, weight: u64, funder: Pubkey)
    requires SaveMaximum(s, weight, funder).Success?
    ensures !MaximumBlocked(s) && StillBlocked(s, SaveMaximum(s, weight, funder).value)
  {
    if s.maxWeight.None? {
      CreateKeepsAddresses(s.lamports, funder, MaxWeightRecord, s.maxWeightRent);
    }
  }

  lemma OpenVoucherBlocked(s: System, user: Pubkey, funder: Pubkey, amount: u64)
    requires OpenVoucher(s, user, funder, amount).Success?
    ensures !VoucherBlocked(s, user) && StillBlocked(s, OpenVoucher(s, user, funder, amount).value)
  {
    if user !in s.vouchers {
      CreateKeepsAddresses(s.lamports, funder, VoucherAccount(user), s.voucherRent);
    }
  }

  // ---------------------------------------------------------------- instructions

  lemma DepositBlocked(s: System, user: Pubkey, funder: Pubkey, amount: u64)
    requires Deposit(s, user, funder, amount).Success?
    ensures !MaximumBlocked(s) && !VoucherBlocked(s, user) && StillBlocked(s, Deposit(s, user, funder, amount).value)
  {
    var m := OpenVoucher(WithOverride(s), user, funder, amount).value;
    var staked := Stake(m, user, amount).value;
    OpenVoucherBlocked(WithOverride(s), user, funder, amount);
    StakeEffect(m, user, amount);
    NothingCreated(m, staked);
    SaveMaximumBlocked(staked, MaxVoteWeight(staked, s.tokens).value, funder);
  }

  lemma WithdrawBlocked(s: System, user: Pubkey, amount: u64, openVotes: bool, funder: Pubkey, voucher: VoucherArg)
    requires Withdraw(s, user, amount, openVotes, funder, voucher).Success?
    ensures !WeightBlocked(s, user) && !MaximumBlocked(s)
    ensures StillBlocked(s, Withdraw(s, user, amount, openVotes, funder, voucher).value)
  {
    WithdrawSteps(s, user, amount, openVotes, funder, voucher);
    var m, left := Unstake(s, user, amount, voucher).value, VoucherBalance(s, user, voucher).value - amount;
    UnstakeEffect(s, user, amount, voucher);
    NothingCreated(s, m);
    SaveWeightBlocked(m, user, left, funder);
    SaveMaximumBlocked(SaveWeight(m, user, left, funder).value, MaxVoteWeight(m, s.tokens).value, funder);
  }

  lemma SyncBlocked(s: System, user: Pubkey, funder: Pubkey, voucher: VoucherArg)
    requires SyncWeightRecord(s, user, funder, voucher).Success?
    ensures !WeightBlocked(s, user) && !MaximumBlocked(s)
    ensures StillBlocked(s, SyncWeightRecord(s, user, funder, voucher).value)
  {
    var weight := WeightOf(s, user, voucher).value;
    var m := SaveWeight(s, user, weight, funder).value;
    SaveWeightBlocked(s, user, weight, funder);
    SaveMaximumBlocked(m, MaxVoteWeight(m, s.tokens).value, funder);
  }

  lemma {:induction false} BatchKeepsAddresses(s: System, batch: seq<Pubkey>, now: i64)
    requires s.state.distribution.Some? && PayBatch(s, batch, now).Success?
    ensures AddressesKept(s.vouchers, s.lamports, PayBatch(s, batch, now).value.lamports)
  {
    if batch != [] {
      var last := |batch| - 1;
      BatchKeepsAddresses(s, batch[..last], now);
      PayBatchFrozen(s, batch[..last], now);
      PayOneEffect(PayBatch(s, batch[..last], now).value, batch[last], now);
    }
  }

  lemma StartKeepsAddresses(s: System)
    requires Start(s).Success?
    ensures AddressesKept(s.vouchers, s.lamports, Start(s).value.lamports)
  {
    var commission := HostCommission(Balance(s.lamports, StateAccount) - s.stateRent - 2);
    var toOwner := Move(s.lamports, StateAccount, SystemAccount(s.owner), 0).value;
    MoveKeepsAddresses(s.vouchers, s.lamports, StateAccount, SystemAccount(s.owner), 0);
    MoveKeepsAddresses(s.vouchers, toOwner, StateAccount, SystemAccount(s.host), commission);
  }

  lemma DistributeBlocked(s: System, batch: seq<Pubkey>, now: i64)
    requires Distribute(s, batch, now).Success?
    ensures StillBlocked(s, Distribute(s, batch, now).value)
  {
    if s.state.distribution.None? {
      StartKeepsAddresses(WithOverride(s));
    }
    StartedShape(s);
    BatchKeepsAddresses(Started(s).value, batch, now);
    PayBatchFrozen(Started(s).value, batch, now);
    NothingCreated(s, Distribute(s, batch, now).value);
  }

  lemma OtherStepBlocked(s: System, op: Op)
    requires Apply(s, op).Success? && (op.ClaimReward? || op.SendLamports? || op.OutsideTokens?)
    ensures StillBlocked(s, Apply(s, op).value)
  {
    match op {
      case ClaimReward(user) =>
        MoveKeepsAddresses(s.vouchers, s.lamports, VoucherAccount(user), SystemAccount(user),
                           Balance(s.lamports, VoucherAccount(user)) - s.voucherRent);
      case SendLamports(from, to, amount) =>
        MoveKeepsAddresses(s.vouchers, s.lamports, SystemAccount(from), to, amount);
      case OutsideTokens(_) =>
    }
    NothingCreated(s, Apply(s, op).value);
  }

  /** No step of anybody unblocks an account, and a step that would create a blocked one fails. */
  lemma StepStaysBlocked(s: System, op: Op)
    ensures StillBlocked(s, Step(s, op))
    ensures MaximumBlocked(s) && (op.DepositTokens? || op.WithdrawTokens? || op.SyncWeight?) ==> Apply(s, op).Failure?
    ensures (op.WithdrawTokens? || op.SyncWeight?) && WeightBlocked(s, op.user) ==> Apply(s, op).Failure?
    ensures op.DepositTokens? && VoucherBlocked(s, op.user) ==> Apply(s, op).Failure?
  {
    if Apply(s, op).Success? {
      match op
      case DepositTokens(user, funder, amount) => DepositBlocked(s, user, funder, amount);
      case WithdrawTokens(user, amount, openVotes, funder, voucher) =>
        WithdrawBlocked(s, user, amount, openVotes, funder, voucher);
      case SyncWeight(user, funder, voucher) => SyncBlocked(s, user, funder, voucher);
      case DistributeTo(batch, now) => DistributeBlocked(s, batch, now);
      case _ => OtherStepBlocked(s, op);
    }
  }

  lemma {:induction false} RunStaysBlocked(s: System, ops: seq<Op>)
    ensures StillBlocked(s, Run(s, ops))
  {
    if ops != [] {
      RunStaysBlocked(s, ops[..|ops| - 1]);
      StepStaysBlocked(Run(s, ops[..|ops| - 1]), ops[|ops| - 1]);
    }
  }

  // ---------------------------------------------------------------- blocked for good

  /**
   A staker without a weight record to whose record address anybody has sent lamports can never take the stake out nor
   synchronise the weight again: over every run, each later attempt fails, whoever pays and whichever voucher is passed.
   */
  lemma WeightRecordLamportsBlockLeaving(s: System, user: Pubkey, ops: seq<Op>, op: Op)
    requires user !in s.weights && 0 < Balance(s.lamports, WeightRecord(user))
    requires (op.WithdrawTokens? || op.SyncWeight?) && op.user == user
    ensures Apply(Run(s, ops), op).Failure?
  {
    assert WeightBlocked(s, user);
    RunStaysBlocked(s, ops);
    StepStaysBlocked(Run(s, ops), op);
  }

  /** Lamports on the address of the missing maximum record stop every deposit, withdrawal and synchronisation. */
  lemma MaximumRecordLamportsBlockStaking(s: System, ops: seq<Op>, op: Op)
    requires s.maxWeight.None? && 0 < Balance(s.lamports, MaxWeightRecord)
    requires op.DepositTokens? || op.WithdrawTokens? || op.SyncWeight?
    ensures Apply(Run(s, ops), op).Failure?
  {
    assert MaximumBlocked(s);
    RunStaysBlocked(s, ops);
    StepStaysBlocked(Run(s, ops), op);
  }

  /** Lamports on the address of the missing voucher stop every deposit of that user. */
  lemma VoucherLamportsBlockJoining(s: System, user: Pubkey, ops: seq<Op>, op: Op)
    requires user !in s.vouchers && 0 < Balance(s.lamports, VoucherAccount(user))
    requires op.DepositTokens? && op.user == user
    ensures Apply(Run(s, ops), op).Failure?
  {
    assert VoucherBlocked(s, user);
    RunStaysBlocked(s, ops);
    StepStaysBlocked(Run(s, ops), op);
  }
}
