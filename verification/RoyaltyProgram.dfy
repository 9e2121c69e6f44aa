/**
 The instructions of the royalty program as they run, updating the accounts in place in the order of the source. Each
 one is proved to do exactly what its transition function says, including which error it returns; what a failed
 instruction has already written is undone by the runtime, in `Process`.
 */
module RoyaltyProgram {
  import opened Wrappers
  import opened MachineInts
  import opened FixedPoint
  import opened Sums
  import opened RoyaltyState
  import opened RoyaltySteps

  /** The rent minimums of the accounts involved. */
  datatype Rents = Rents(state: u64, wallet: u64, voucher: u64, weight: u64, maxWeight: u64)

  class Royalty {
    const owner: Pubkey
    const host: Pubkey
    const stateRent: u64
    const voucherRent: u64
    const weightRent: u64
    const maxWeightRent: u64

    // the state account
    var settings: Settings
    var dropIdx: u32
    var vouchersCount: u32
    var tokensHeld: u64
    var distribution: Option<Distribution>
    var totalDistributed: u64
    var totalUserDistributed: u64

    // the other accounts
    var vouchers: map<Pubkey, Voucher>
    var lamports: map<Account, u64>
    var tokens: map<TokenWallet, u64>
    var weights: map<Pubkey, u64>
    var maxWeight: Option<u64>

    function StateAccountData(): State
      reads this
    {
      State(settings, dropIdx, vouchersCount, tokensHeld, distribution, totalDistributed, totalUserDistributed)
    }

    ghost function View(): System
      reads this
    {
      System(owner, host, stateRent, voucherRent, weightRent, maxWeightRent, StateAccountData(), vouchers, lamports,
             tokens, weights, maxWeight)
    }

    /** The handler behaved as `expected` says; a failed one may leave anything behind. */
    ghost predicate Did(expected: Result<System, Error>, r: Result<(), Error>)
      reads this
    {
      match expected
      case Success(after) => r == Success(()) && View() == after
      case Failure(e) => r == Failure(e)
    }

    constructor (owner: Pubkey, host: Pubkey, rents: Rents, settings: Settings, lamports: map<Account, u64>,
                 tokens: map<TokenWallet, u64>)
      requires ValidSettings(settings) && Sum(lamports) <= U64_MAX && StakeWallet in tokens
      ensures Initial(View())
      ensures View() == System(owner, host, rents.state, rents.voucher, rents.weight, rents.maxWeight,
                               State(settings, 0, 0, 0, None, 0, 0), map[], lamports, tokens, map[], None)
    {
      this.owner, this.host := owner, host;
      stateRent, voucherRent, weightRent, maxWeightRent := rents.state, rents.voucher, rents.weight, rents.maxWeight;
      this.settings := settings;
      dropIdx, vouchersCount, tokensHeld, distribution := 0, 0, 0, None;
      totalDistributed, totalUserDistributed := 0, 0;
      vouchers, weights, maxWeight := map[], map[], None;
      this.lamports, this.tokens := lamports, tokens;
    }

    /**
     `process_initialize`: refuses a state account without its rent, creates the stake wallet, and refuses settings
     whose fees reach 100%.
     */
    static method Initialize(owner: Pubkey, host: Pubkey, rents: Rents, settings: Settings, lamports: map<Account, u64>,
                             tokens: map<TokenWallet, u64>, feePayer: Pubkey)
      returns (r: Result<Royalty, Error>)
      requires Sum(lamports) <= U64_MAX
      ensures var created := CreateAccount(lamports, feePayer, WalletAccount, rents.wallet);
              && (r.Success? <==>
                    && rents.state <= Balance(lamports, StateAccount) && StakeWallet !in tokens
                    && created.Success? && settings.ownerFee + settings.hostFee < 10_000)
              && (r.Success? ==>
                    && fresh(r.value) && Initial(r.value.View())
                    && r.value.View() == System(owner, host, rents.state, rents.voucher, rents.weight, rents.maxWeight,
                                                State(settings, 0, 0, 0, None, 0, 0), map[], created.value,
                                                tokens[StakeWallet := 0], map[], None))
      ensures r.Failure? ==>
                r.error == if Balance(lamports, StateAccount) < rents.state then AccountNotRentExempt
                           else if StakeWallet in tokens then AccountAlreadyInitialized
                           else if CreateAccount(lamports, feePayer, WalletAccount, rents.wallet).Failure?
                           then TransferFailed else InvalidArgument
    {
      if Balance(lamports, StateAccount) < rents.state {
        return Failure(AccountNotRentExempt);
      }
      if StakeWallet in tokens {
        return Failure(AccountAlreadyInitialized);
      }
      if Balance(lamports, WalletAccount) != 0 {
        return Failure(TransferFailed);
      }
      var created :- Move(lamports, SystemAccount(feePayer), WalletAccount, rents.wallet).OkOr(TransferFailed);
      var wallets := tokens[StakeWallet := 0];
      if Min(settings.ownerFee + settings.hostFee, U16_MAX) >= 10_000 {
        return Failure(InvalidArgument);
      }
      MoveConserves(lamports, SystemAccount(feePayer), WalletAccount, rents.wallet);
      var royalty := new Royalty(owner, host, rents, settings, created, wallets);
      return Success(royalty);
    }

    // -------------------------------------------------------------- staking

    /** Deposit and distribute set the fees before anything else. */
    method OverrideFees()
      modifies this
      ensures View() == WithOverride(old(View()))
    {
      settings := settings.(hostFee := 250, hostFlatFee := 0, ownerFee := 0, minTokenToEnroll := 0);
    }

    /** `create_account`: the address must be unused, and the funder pays the rent. */
    method OpenAccount(funder: Pubkey, to: Account, rent: u64) returns (r: Result<(), Error>)
      modifies this`lamports
      ensures match CreateAccount(old(lamports), funder, to, rent)
              case Success(after) => r == Success(()) && lamports == after
              case Failure(e) => r == Failure(e)
    {
      if Balance(lamports, to) != 0 {
        return Failure(TransferFailed);
      }
      var rented :- Move(lamports, SystemAccount(funder), to, rent).OkOr(TransferFailed);
      lamports := rented;
      return Success(());
    }

    /** `update_voter_weight`: creates the user's record the first time. */
    method UpdateWeight(user: Pubkey, balance: u64, funder: Pubkey) returns (r: Result<(), Error>)
      modifies this
      ensures Did(SaveWeight(old(View()), user, balance, funder), r)
    {
      if user !in weights {
        var _ :- OpenAccount(funder, WeightRecord(user), weightRent);
      }
      weights := weights[user := balance];
      return Success(());
    }

    /** `update_max_voter_weight`: creates the record the first time. */
    method UpdateMaximum(weight: u64, funder: Pubkey) returns (r: Result<(), Error>)
      modifies this
      ensures Did(SaveMaximum(old(View()), weight, funder), r)
    {
      if maxWeight.None? {
        var _ :- OpenAccount(funder, MaxWeightRecord, maxWeightRent);
      }
      maxWeight := Some(weight);
      return Success(());
    }

    /** The stake, and the vault and the owner's wallet as first read, added with overflow checks. */
    method SumVotes(wallets: map<TokenWallet, u64>) returns (r: Result<u64, Error>)
      ensures r == MaxVoteWeight(View(), wallets).OkOr(Overflow)
    {
      var withVault :- ToU64(tokensHeld + Balance(wallets, VaultWallet)).OkOr(Overflow);
      var weight :- ToU64(withVault + Balance(wallets, UserWallet(owner))).OkOr(Overflow);
      return Success(weight);
    }

    /** Creates, counts and initialises the voucher of a first-time depositor. */
    method EnsureVoucher(user: Pubkey, funder: Pubkey, amount: u64) returns (r: Result<(), Error>)
      modifies this
      ensures Did(OpenVoucher(old(View()), user, funder, amount), r)
      ensures r.Success? ==> user in vouchers
    {
      if user in vouchers {
        return Success(());
      }
      if amount < settings.minTokenToEnroll {
        return Failure(LessThanDepositMinimum);
      }
      var _ :- OpenAccount(funder, VoucherAccount(user), voucherRent);
      var count :- ToU32(vouchersCount + 1).OkOr(Overflow);
      vouchersCount := count;
      vouchers := vouchers[user := Voucher(dropIdx, 0, 0)];
      return Success(());
    }

    /** A token transfer by the token program. */
    method MoveTokens(from: TokenWallet, to: TokenWallet, amount: u64) returns (r: Result<(), Error>)
      modifies this`tokens
      ensures match Move(old(tokens), from, to, amount)
              case Some(after) => r == Success(()) && tokens == after
              case None => r == Failure(TransferFailed)
    {
      var moved :- Move(tokens, from, to, amount).OkOr(TransferFailed);
      tokens := moved;
      return Success(());
    }

    /** The token transfer and the two credits of a deposit. */
    method AddStake(user: Pubkey, amount: u64) returns (r: Result<(), Error>)
      requires user in vouchers
      modifies this
      ensures Did(Stake(old(View()), user, amount), r)
    {
      var _ :- MoveTokens(UserWallet(user), StakeWallet, amount);
      var balance :- ToU64(vouchers[user].balance + amount).OkOr(Overflow);
      vouchers := vouchers[user := vouchers[user].(balance := balance)];
      var held :- ToU64(tokensHeld + amount).OkOr(Overflow);
      tokensHeld := held;
      return Success(());
    }

    method Deposit(user: Pubkey, funder: Pubkey, amount: u64) returns (r: Result<(), Error>)
      modifies this
      ensures Did(RoyaltySteps.Deposit(old(View()), user, funder, amount), r)
    {
      if !WalletsExist(tokens, user, owner) {
        return Failure(IllegalOwner);
      }
      var wallets := tokens;
      OverrideFees();
      if user == owner || user == host {
        return Failure(BlackistedForEnroll);
      }
      if distribution.Some? {
        return Failure(TemporaryUnavailable);
      }
      var _ :- EnsureVoucher(user, funder, amount);
      var _ :- AddStake(user, amount);
      var maximum :- SumVotes(wallets);
      r := UpdateMaximum(maximum, funder);
    }

    /** The balance of the voucher account passed. */
    method ReadVoucher(user: Pubkey, voucher: VoucherArg) returns (r: Result<u64, Error>)
      ensures r == VoucherBalance(View(), user, voucher).OkOr(InvalidArgument)
    {
      if voucher.Foreign? {
        return Success(voucher.balance);
      }
      if user !in vouchers {
        return Failure(InvalidArgument);
      }
      return Success(vouchers[user].balance);
    }

    /** The token transfer and the two debits of a withdrawal. */
    method RemoveStake(user: Pubkey, amount: u64, voucher: VoucherArg) returns (r: Result<(), Error>)
      requires voucher.Own? ==> user in vouchers && amount <= vouchers[user].balance
      modifies this
      ensures Did(Unstake(old(View()), user, amount, voucher), r)
    {
      var _ :- MoveTokens(StakeWallet, UserWallet(user), amount);
      if voucher.Own? {
        vouchers := vouchers[user := vouchers[user].(balance := vouchers[user].balance - amount)];
      }
      var held :- ToU64(tokensHeld - amount).OkOr(Overflow);
      tokensHeld := held;
      return Success(());
    }

    /** The maximum is computed first, then both records are written. */
    method UpdateRecords(wallets: map<TokenWallet, u64>, user: Pubkey, weight: u64, funder: Pubkey)
      returns (r: Result<(), Error>)
      modifies this
      ensures Did(RecordBoth(old(View()), wallets, user, weight, funder), r)
    {
      var maximum :- SumVotes(wallets);
      var _ :- UpdateWeight(user, weight, funder);
      r := UpdateMaximum(maximum, funder);
    }

    method Withdraw(user: Pubkey, amount: u64, openVotes: bool, funder: Pubkey, voucher: VoucherArg)
      returns (r: Result<(), Error>)
      modifies this
      ensures Did(RoyaltySteps.Withdraw(old(View()), user, amount, openVotes, funder, voucher), r)
    {
      var balance :- ReadVoucher(user, voucher);
      if !WalletsExist(tokens, user, owner) {
        return Failure(IllegalOwner);
      }
      var wallets := tokens;
      if openVotes {
        return Failure(UnrelinquishedVotes);
      }
      if distribution.Some? {
        return Failure(TemporaryUnavailable);
      }
      if balance < amount {
        return Failure(InsufficientBalance);
      }
      var afterBalance := balance - amount;
      if afterBalance != 0 && afterBalance < settings.minTokenToEnroll {
        return Failure(LessThanDepositMinimum);
      }
      var _ :- RemoveStake(user, amount, voucher);
      r := UpdateRecords(wallets, user, afterBalance, funder);
    }

    method Claim(user: Pubkey) returns (r: Result<(), Error>)
      modifies this
      ensures Did(RoyaltySteps.Claim(old(View()), user), r)
    {
      if user !in vouchers {
        return Failure(InvalidArgument);
      }
      if Balance(lamports, VoucherAccount(user)) < voucherRent {
        return Failure(AccountNotRentExempt);
      }
      var withdrawAmount := Balance(lamports, VoucherAccount(user)) - voucherRent;
      lamports := lamports[VoucherAccount(user) := Balance(lamports, VoucherAccount(user)) - withdrawAmount];
      var grown :- ToU64(Balance(lamports, SystemAccount(user)) + withdrawAmount).OkOr(Overflow);
      lamports := lamports[SystemAccount(user) := grown];
      return Success(());
    }

    /** The owner's free tokens, or the balance of the voucher account passed. */
    method ReadWeight(user: Pubkey, voucher: VoucherArg) returns (r: Result<u64, Error>)
      ensures r == WeightOf(View(), user, voucher)
    {
      if user == owner {
        r := ToU64(Balance(tokens, UserWallet(owner)) + Balance(tokens, VaultWallet)).OkOr(Overflow);
      } else {
        r := ReadVoucher(user, voucher);
      }
    }

    method SyncWeightRecord(user: Pubkey, funder: Pubkey, voucher: VoucherArg) returns (r: Result<(), Error>)
      modifies this
      ensures Did(RoyaltySteps.SyncWeightRecord(old(View()), user, funder, voucher), r)
    {
      if VaultWallet !in tokens || UserWallet(owner) !in tokens {
        return Failure(IllegalOwner);
      }
      var balance :- ReadWeight(user, voucher);
      var _ :- UpdateWeight(user, balance, funder);
      var maximum :- SumVotes(tokens);
      r := UpdateMaximum(maximum, funder);
    }

    // -------------------------------------------------------------- distribution

    /** Pays a commission out of the state account. */
    method PayCommission(to: Pubkey, amount: u64) returns (r: Result<(), Error>)
      modifies this
      ensures match Move(old(lamports), StateAccount, SystemAccount(to), amount)
              case Some(after) => Did(Success(old(View()).(lamports := after)), r)
              case None => r == Failure(Overflow)
    {
      var left :- ToU64(Balance(lamports, StateAccount) - amount).OkOr(Overflow);
      lamports := lamports[StateAccount := left];
      var grown :- ToU64(Balance(lamports, SystemAccount(to)) + amount).OkOr(Overflow);
      lamports := lamports[SystemAccount(to) := grown];
      return Success(());
    }

    /** Opens a distribution: the commissions, the running totals and the amount. */
    method Open() returns (r: Result<(), Error>)
      requires settings == Overridden(settings)
      modifies this
      ensures Did(Start(old(View())), r)
    {
      var minimumBalance :- ToU64(stateRent + 1).OkOr(Panic);
      if Balance(lamports, StateAccount) < minimumBalance {
        return Failure(AccountNotRentExempt);
      }
      var excessBalance := Balance(lamports, StateAccount) - minimumBalance;
      if excessBalance < DISTRIBUTION_MINIMUM_LAMPORTS {
        return Failure(NotEnoughToStartDistribution);
      }
      var amountToDistribute := excessBalance - 1;
      OverriddenSplit(settings, amountToDistribute, vouchersCount);
      var split := CalculateSplit(settings, amountToDistribute, vouchersCount).value;
      r := PayCommission(owner, split.ownerComission);
      if r.Failure? {
        return;
      }
      var _ :- PayCommission(host, split.hostComission);
      r := RecordOpening(excessBalance, split.distributeAmount);
    }

    /** The running totals and the new distribution. */
    method RecordOpening(excessBalance: u64, amount: u64) returns (r: Result<(), Error>)
      modifies this
      ensures var s := old(View());
              if s.state.totalDistributed + excessBalance > U64_MAX
                 || s.state.totalUserDistributed + amount > U64_MAX then
                r == Failure(Overflow)
              else
                && r == Success(())
                && var total: u64 := s.state.totalDistributed + excessBalance;
                && var userTotal: u64 := s.state.totalUserDistributed + amount;
                && View() == s.(state := s.state.(totalDistributed := total, totalUserDistributed := userTotal,
                                                  distribution := Some(Distribution(amount, 0))))
    {
      var total :- ToU64(totalDistributed + excessBalance).OkOr(Overflow);
      totalDistributed := total;
      var userTotal :- ToU64(totalUserDistributed + amount).OkOr(Overflow);
      totalUserDistributed := userTotal;
      distribution := Some(Distribution(amount, 0));
      return Success(());
    }

    /** One turn of the loop, on the caller's copy of the distribution. */
    method PayVoucher(user: Pubkey, now: i64, dist: Distribution) returns (r: Result<Distribution, Error>)
      modifies this
      ensures match PayOne(WithDistribution(old(View()), dist), user, now)
              case Success(s) =>
                r.Success? && s == WithDistribution(View(), r.value) && distribution == old(distribution)
              case Failure(e) => r == Failure(e)
    {
      if user !in vouchers {
        return Failure(InvalidVoucher);
      }
      var step :- RoyaltyState.DistributeTo(dist, vouchers[user], dropIdx, tokensHeld, now);
      vouchers := vouchers[user := step.1];
      var left :- ToU64(Balance(lamports, StateAccount) - step.2).OkOr(Overflow);
      lamports := lamports[StateAccount := left];
      var grown :- ToU64(Balance(lamports, VoucherAccount(user)) + step.2).OkOr(Overflow);
      lamports := lamports[VoucherAccount(user) := grown];
      return Success(step.0);
    }

    /** The loop over the vouchers of a batch. The state keeps its distribution until the end of the instruction. */
    method PayVouchers(batch: seq<Pubkey>, now: i64) returns (r: Result<Distribution, Error>)
      requires distribution.Some?
      modifies this
      ensures match PayBatch(old(View()), batch, now)
              case Success(s) => r.Success? && s == WithDistribution(View(), r.value)
              case Failure(e) => r == Failure(e)
    {
      var dist := distribution.value;
      ghost var started := View();
      for i := 0 to |batch|
        invariant distribution == old(distribution)
        invariant PayBatch(started, batch[..i], now) == Success(WithDistribution(View(), dist))
      {
        BatchStep(started, batch, i, now);
        dist :- PayVoucher(batch[i], now, dist);
      }
      assert batch[..|batch|] == batch;
      return Success(dist);
    }

    /** The rent assertion, and closing the distribution if every voucher was seen. */
    method Finish(dist: Distribution) returns (r: Result<(), Error>)
      modifies this
      ensures Did(Settle(WithDistribution(old(View()), dist)), r)
    {
      if Balance(lamports, StateAccount) < stateRent {
        return Failure(Panic);
      }
      if dist.seenVouchers == vouchersCount {
        var next :- ToU32(dropIdx + 1).OkOr(Overflow);
        dropIdx := next;
        distribution := None;
        return Success(());
      }
      distribution := Some(dist);
      return Success(());
    }

    method Distribute(batch: seq<Pubkey>, now: i64) returns (r: Result<(), Error>)
      modifies this
      ensures Did(RoyaltySteps.Distribute(old(View()), batch, now), r)
    {
      OverrideFees();
      if distribution.None? {
        var _ :- Open();
      }
      var dist :- PayVouchers(batch, now);
      r := Finish(dist);
    }

    // -------------------------------------------------------------- the runtime

    method Dispatch(op: Op) returns (r: Result<(), Error>)
      requires !op.SendLamports? && !op.OutsideTokens?
      modifies this
      ensures Did(Apply(old(View()), op), r)
    {
      match op
      case DepositTokens(user, funder, amount) => r := Deposit(user, funder, amount);
      case WithdrawTokens(user, amount, openVotes, funder, voucher) =>
        r := Withdraw(user, amount, openVotes, funder, voucher);
      case ClaimReward(user) => r := Claim(user);
      case SyncWeight(user, funder, voucher) => r := SyncWeightRecord(user, funder, voucher);
      case DistributeTo(batch, now) => r := Distribute(batch, now);
    }

    /** Puts everything an instruction may write back to earlier values. */
    method Restore(account: State, notes: map<Pubkey, Voucher>, money: map<Account, u64>,
                   wallets: map<TokenWallet, u64>, records: map<Pubkey, u64>, maximum: Option<u64>)
      modifies this
      ensures View() == System(owner, host, stateRent, voucherRent, weightRent, maxWeightRent, account, notes, money,
                               wallets, records, maximum)
    {
      settings, dropIdx, vouchersCount := account.settings, account.dropIdx, account.vouchersCount;
      tokensHeld, distribution := account.tokensHeld, account.distribution;
      totalDistributed, totalUserDistributed := account.totalDistributed, account.totalUserDistributed;
      vouchers, lamports, tokens, weights, maxWeight := notes, money, wallets, records, maximum;
    }

    /** One instruction as a transaction: whatever a failed one has already written is rolled back. */
    method Process(op: Op) returns (r: Result<(), Error>)
      requires !op.SendLamports? && !op.OutsideTokens?
      modifies this
      ensures View() == Step(old(View()), op)
      ensures r == (match Apply(old(View()), op)
                    case Success(_) => Success(())
                    case Failure(e) => Failure(e))
    {
      var account := StateAccountData();
      var notes, money, wallets, records, maximum := vouchers, lamports, tokens, weights, maxWeight;
      r := Dispatch(op);
      if r.Failure? {
        Restore(account, notes, money, wallets, records, maximum);
      }
    }
  }

  /** The system with another distribution in its state. */
  ghost function WithDistribution(s: System, d: Distribution): (t: System)
    ensures t.state.distribution.Some?
  {
    s.(state := s.state.(distribution := Some(d)))
  }

  /** With the overridden fees the owner gets nothing and the host its 2.5%; this split never fails. */
  lemma OverriddenSplit(s: Settings, amount: u64, numVouchers: u32)
    requires s == Overridden(s)
    ensures CalculateSplit(s, amount, numVouchers)
         == Some(Split(amount - HostCommission(amount), 0, HostCommission(amount)))
  {
    SplitIsTotalWithoutFlatFee(s, amount, numVouchers);
    SplitExistsIffCovered(s, amount, numVouchers);
    assert RoundedBps(amount, 0) == 0;
  }

  /** A failing turn of the loop fails the whole batch; a successful one extends the prefix. */
  lemma BatchStep(s: System, batch: seq<Pubkey>, i: nat, now: i64)
    requires s.state.distribution.Some? && i < |batch| && PayBatch(s, batch[..i], now).Success?
    ensures PayBatch(s, batch[..i + 1], now) == PayOne(PayBatch(s, batch[..i], now).value, batch[i], now)
    ensures PayBatch(s, batch[..i + 1], now).Failure? ==>
              PayBatch(s, batch, now) == PayBatch(s, batch[..i + 1], now)
  {
    assert batch[..i + 1][..i] == batch[..i];
    if PayBatch(s, batch[..i + 1], now).Failure? {
      FailureSticks(s, batch, i + 1, now);
    }
  }

  lemma {:induction false} FailureSticks(s: System, batch: seq<Pubkey>, i: nat, now: i64)
    requires s.state.distribution.Some? && i <= |batch| && PayBatch(s, batch[..i], now).Failure?
    ensures PayBatch(s, batch, now) == PayBatch(s, batch[..i], now)
    decreases |batch|
  {
    if i < |batch| {
      var last := |batch| - 1;
      assert batch[..last][..i] == batch[..i];
      FailureSticks(s, batch[..last], i, now);
    } else {
      assert batch[..i] == batch;
    }
  }
}
