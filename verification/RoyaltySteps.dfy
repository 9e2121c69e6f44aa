/**
 The transitions of the royalty program as functions on the accounts they touch (royalty/src/lib.rs).
 An instruction that fails leaves every account as it was, so a failure carries no state.
 */
module RoyaltySteps {
  import opened Wrappers
  import opened MachineInts
  import opened FixedPoint
  import opened Sums
  import opened RoyaltyState

  /** Accounts holding lamports. Derived addresses are injective, so a voucher account is named by its user. */
  datatype Account =
    | StateAccount
    | WalletAccount            // the lamports of the stake wallet
    | VoucherAccount(user: Pubkey)
    | WeightRecord(user: Pubkey)
    | MaxWeightRecord
    | SystemAccount(key: Pubkey)

  /** Token wallets of the staking mint; the owner's associated wallet is `UserWallet(owner)`. */
  datatype TokenWallet = StakeWallet | VaultWallet | UserWallet(user: Pubkey)

  datatype State = State(
    settings: Settings,
    dropIdx: u32,
    vouchersCount: u32,
    tokensHeld: u64,
    distribution: Option<Distribution>,
    totalDistributed: u64,
    totalUserDistributed: u64)

  /** The voucher passed to an instruction: the user's voucher of this state, or one of another state. */
  datatype VoucherArg = Own | Foreign(balance: u64)

  /**
   One royalty state with all its vouchers. A wallet exists when it has an entry in `tokens`, a weight record when it
   has one in `weights`, and the maximum record when `maxWeight` is there. The rent minimums are opaque constants.
   */
  datatype System = System(
    owner: Pubkey,
    host: Pubkey,
    stateRent: u64,
    voucherRent: u64,
    weightRent: u64,
    maxWeightRent: u64,
    state: State,
    vouchers: map<Pubkey, Voucher>,
    lamports: map<Account, u64>,
    tokens: map<TokenWallet, u64>,
    weights: map<Pubkey, u64>,
    maxWeight: Option<u64>)

  const DISTRIBUTION_MINIMUM_LAMPORTS: u64 := 500_000_000

  /** `process_initialize` on a state account that already exists. */
  ghost predicate Initial(s: System) {
    && ValidSettings(s.state.settings)
    && s.state == State(s.state.settings, 0, 0, 0, None, 0, 0)
    && s.vouchers == map[] && s.weights == map[] && s.maxWeight == None
    && StakeWallet in s.tokens
    && Sum(s.lamports) <= U64_MAX
  }

  /** Deposit and distribute overwrite the fees this way before doing anything else. */
  function Overridden(settings: Settings): Settings {
    settings.(hostFee := 250, hostFlatFee := 0, ownerFee := 0, minTokenToEnroll := 0)
  }

  function WithOverride(s: System): System {
    s.(state := s.state.(settings := Overridden(s.state.settings)))
  }

  /** Everything that could vote: the stake, and the vault and the owner's wallet as the instruction found them. */
  function MaxVoteWeight(s: System, wallets: map<TokenWallet, u64>): Option<u64> {
    var withVault :- ToU64(s.state.tokensHeld + Balance(wallets, VaultWallet));
    ToU64(withVault + Balance(wallets, UserWallet(s.owner)))
  }

  /** `create_account` of the system program: the address must not hold lamports yet. */
  function CreateAccount(lamports: map<Account, u64>, funder: Pubkey, to: Account, rent: u64)
    : Result<map<Account, u64>, Error>
  {
    if Balance(lamports, to) != 0 then Failure(TransferFailed)
    else Move(lamports, SystemAccount(funder), to, rent).OkOr(TransferFailed)
  }

  /** Writes the user's weight record, creating it the first time. */
  function SaveWeight(s: System, user: Pubkey, weight: u64, funder: Pubkey): Result<System, Error> {
    if user in s.weights then Success(s.(weights := s.weights[user := weight]))
    else
      var lamports :- CreateAccount(s.lamports, funder, WeightRecord(user), s.weightRent);
      Success(s.(lamports := lamports, weights := s.weights[user := weight]))
  }

  /** Writes the record of the maximum, creating it the first time. */
  function SaveMaximum(s: System, weight: u64, funder: Pubkey): Result<System, Error> {
    if s.maxWeight.Some? then Success(s.(maxWeight := Some(weight)))
    else
      var lamports :- CreateAccount(s.lamports, funder, MaxWeightRecord, s.maxWeightRent);
      Success(s.(lamports := lamports, maxWeight := Some(weight)))
  }

  function RecordMaxWeight(s: System, wallets: map<TokenWallet, u64>, funder: Pubkey): Result<System, Error> {
    var weight :- MaxVoteWeight(s, wallets).OkOr(Overflow);
    SaveMaximum(s, weight, funder)
  }

  /** The wallets that an instruction of `user` reads must exist. */
  predicate WalletsExist(tokens: map<TokenWallet, u64>, user: Pubkey, owner: Pubkey) {
    StakeWallet in tokens && UserWallet(user) in tokens && VaultWallet in tokens && UserWallet(owner) in tokens
  }

  // ---------------------------------------------------------------- staking

  /** Creates the voucher of a first-time depositor; its account must not hold lamports yet. */
  function OpenVoucher(s: System, user: Pubkey, funder: Pubkey, amount: u64): Result<System, Error> {
    if user in s.vouchers then Success(s)
    else
      :- Need(s.state.settings.minTokenToEnroll <= amount, LessThanDepositMinimum);
      var lamports :- CreateAccount(s.lamports, funder, VoucherAccount(user), s.voucherRent);
      var count :- ToU32(s.state.vouchersCount + 1).OkOr(Overflow);
      Success(s.(lamports := lamports,
                 state := s.state.(vouchersCount := count),
                 vouchers := s.vouchers[user := Voucher(s.state.dropIdx, 0, 0)]))
  }

  /** Moves tokens into the stake and credits the voucher. */
  function Stake(s: System, user: Pubkey, amount: u64): Result<System, Error>
    requires user in s.vouchers
  {
    var v := s.vouchers[user];
    var tokens :- Move(s.tokens, UserWallet(user), StakeWallet, amount).OkOr(TransferFailed);
    var balance :- ToU64(v.balance + amount).OkOr(Overflow);
    var held :- ToU64(s.state.tokensHeld + amount).OkOr(Overflow);
    Success(s.(tokens := tokens,
               vouchers := s.vouchers[user := v.(balance := balance)],
               state := s.state.(tokensHeld := held)))
  }

  function Deposit(s: System, user: Pubkey, funder: Pubkey, amount: u64): Result<System, Error> {
    if !WalletsExist(s.tokens, user, s.owner) then Failure(IllegalOwner)
    else
      :- Need(user != s.owner && user != s.host, BlackistedForEnroll);
      :- Need(s.state.distribution.None?, TemporaryUnavailable);
      var enrolled :- OpenVoucher(WithOverride(s), user, funder, amount);
      var staked :- Stake(enrolled, user, amount);
      RecordMaxWeight(staked, s.tokens, funder)
  }

  /** The balance of the voucher passed; the instruction does not ask which state it belongs to. */
  function VoucherBalance(s: System, user: Pubkey, voucher: VoucherArg): Option<u64> {
    match voucher
    case Own => if user in s.vouchers then Some(s.vouchers[user].balance) else None
    case Foreign(balance) => Some(balance)
  }

  /** Moves tokens out of the stake and debits the voucher passed and the stake of this state. */
  function Unstake(s: System, user: Pubkey, amount: u64, voucher: VoucherArg): Result<System, Error>
    requires voucher.Own? ==> user in s.vouchers && amount <= s.vouchers[user].balance
  {
    var tokens :- Move(s.tokens, StakeWallet, UserWallet(user), amount).OkOr(TransferFailed);
    var vouchers :=
      if voucher.Foreign? then s.vouchers
      else s.vouchers[user := s.vouchers[user].(balance := s.vouchers[user].balance - amount)];
    var held :- ToU64(s.state.tokensHeld - amount).OkOr(Overflow);
    Success(s.(tokens := tokens, vouchers := vouchers, state := s.state.(tokensHeld := held)))
  }

  /** The maximum is computed first; then the remaining weight is recorded, and the maximum after it. */
  function RecordBoth(s: System, wallets: map<TokenWallet, u64>, user: Pubkey, weight: u64, funder: Pubkey)
    : Result<System, Error>
  {
    var maximum :- MaxVoteWeight(s, wallets).OkOr(Overflow);
    var weighed :- SaveWeight(s, user, weight, funder);
    SaveMaximum(weighed, maximum, funder)
  }

  function Withdraw(s: System, user: Pubkey, amount: u64, openVotes: bool, funder: Pubkey, voucher: VoucherArg)
    : Result<System, Error>
  {
    var balance :- VoucherBalance(s, user, voucher).OkOr(InvalidArgument);
    :- Need(WalletsExist(s.tokens, user, s.owner), IllegalOwner);
    :- Need(!openVotes, UnrelinquishedVotes);
    :- Need(s.state.distribution.None?, TemporaryUnavailable);
    :- Need(amount <= balance, InsufficientBalance);
    var left := balance - amount;
    :- Need(left == 0 || s.state.settings.minTokenToEnroll <= left, LessThanDepositMinimum);
    var unstaked :- Unstake(s, user, amount, voucher);
    RecordBoth(unstaked, s.tokens, user, left, funder)
  }

  /** Sends everything above the rent minimum from a voucher account to its user. */
  function Claim(s: System, user: Pubkey): Result<System, Error> {
    if user !in s.vouchers then Failure(InvalidArgument)
    else
      var amount :- ToU64(Balance(s.lamports, VoucherAccount(user)) - s.voucherRent).OkOr(AccountNotRentExempt);
      var lamports :- Move(s.lamports, VoucherAccount(user), SystemAccount(user), amount).OkOr(Overflow);
      Success(s.(lamports := lamports))
  }

  /** The weight a user may vote with: the owner's free tokens, or the balance of the voucher passed. */
  function WeightOf(s: System, user: Pubkey, voucher: VoucherArg): Result<u64, Error> {
    if user == s.owner then
      ToU64(Balance(s.tokens, UserWallet(s.owner)) + Balance(s.tokens, VaultWallet)).OkOr(Overflow)
    else VoucherBalance(s, user, voucher).OkOr(InvalidArgument)
  }

  function SyncWeightRecord(s: System, user: Pubkey, funder: Pubkey, voucher: VoucherArg): Result<System, Error> {
    if VaultWallet !in s.tokens || UserWallet(s.owner) !in s.tokens then Failure(IllegalOwner)
    else
      var weight :- WeightOf(s, user, voucher);
      var weighed :- SaveWeight(s, user, weight, funder);
      RecordMaxWeight(weighed, s.tokens, funder)
  }

  // ---------------------------------------------------------------- distribution

  /** The host's 2.5%, rounded half up; the stakers get the rest. */
  function HostCommission(amount: u64): u64 {
    MulBpsClosedForm(amount, 250);
    RoundedBps(amount, 250)
  }

  /** Opens a distribution of everything above the rent minimum but two lamports. */
  function Start(s: System): Result<System, Error> {
    var have := Balance(s.lamports, StateAccount);
    var minimum :- ToU64(s.stateRent + 1).OkOr(Panic);
    :- Need(minimum <= have, AccountNotRentExempt);
    :- Need(DISTRIBUTION_MINIMUM_LAMPORTS <= have - minimum, NotEnoughToStartDistribution);
    var amount := have - minimum - 1;
    var commission := HostCommission(amount);
    var toOwner :- Move(s.lamports, StateAccount, SystemAccount(s.owner), 0).OkOr(Overflow);
    var toHost :- Move(toOwner, StateAccount, SystemAccount(s.host), commission).OkOr(Overflow);
    var total :- ToU64(s.state.totalDistributed + (have - minimum)).OkOr(Overflow);
    var userTotal :- ToU64(s.state.totalUserDistributed + (amount - commission)).OkOr(Overflow);
    Success(s.(lamports := toHost,
               state := s.state.(totalDistributed := total,
                                 totalUserDistributed := userTotal,
                                 distribution := Some(Distribution(amount - commission, 0)))))
  }

  /** One turn of the loop over vouchers. */
  function PayOne(s: System, user: Pubkey, now: i64): Result<System, Error>
    requires s.state.distribution.Some?
    ensures PayOne(s, user, now).Success? ==> PayOne(s, user, now).value.state.distribution.Some?
  {
    if user !in s.vouchers then Failure(InvalidVoucher)
    else
      var (d, v, toSend) :-
        DistributedTo(s.state.distribution.value, s.vouchers[user], s.state.dropIdx, s.state.tokensHeld, now);
      var lamports :- Move(s.lamports, StateAccount, VoucherAccount(user), toSend).OkOr(Overflow);
      Success(s.(lamports := lamports,
                 vouchers := s.vouchers[user := v],
                 state := s.state.(distribution := Some(d))))
  }

  function PayBatch(s: System, batch: seq<Pubkey>, now: i64): Result<System, Error>
    requires s.state.distribution.Some?
    ensures PayBatch(s, batch, now).Success? ==> PayBatch(s, batch, now).value.state.distribution.Some?
  {
    if batch == [] then Success(s)
    else
      var last := |batch| - 1;
      var paid :- PayBatch(s, batch[..last], now);
      PayOne(paid, batch[last], now)
  }

  /** The rent assertion, and closing the distribution once every voucher has been seen. */
  function Settle(s: System): Result<System, Error>
    requires s.state.distribution.Some?
  {
    if Balance(s.lamports, StateAccount) < s.stateRent then Failure(Panic)
    else
      if s.state.distribution.value.seenVouchers == s.state.vouchersCount then
        var next :- ToU32(s.state.dropIdx + 1).OkOr(Overflow);
        Success(s.(state := s.state.(dropIdx := next, distribution := None)))
      else Success(s)
  }

  /** The state the vouchers are paid from: the running distribution, or a freshly started one. */
  function Started(s: System): Result<System, Error>
    ensures Started(s).Success? ==> Started(s).value.state.distribution.Some?
  {
    if s.state.distribution.Some? then Success(WithOverride(s)) else Start(WithOverride(s))
  }

  function Distribute(s: System, batch: seq<Pubkey>, now: i64): Result<System, Error> {
    var started :- Started(s);
    var paid :- PayBatch(started, batch, now);
    Settle(paid)
  }

  // ---------------------------------------------------------------- all steps

  /** Every instruction, plus what outsiders can do to the accounts involved. */
  datatype Op =
    | DepositTokens(user: Pubkey, funder: Pubkey, amount: u64)
    | WithdrawTokens(user: Pubkey, amount: u64, openVotes: bool, funder: Pubkey, voucher: VoucherArg)
    | ClaimReward(user: Pubkey)
    | SyncWeight(user: Pubkey, funder: Pubkey, voucher: VoucherArg)
    | DistributeTo(batch: seq<Pubkey>, now: i64)
    | SendLamports(from: Pubkey, to: Account, amount: u64)
    | OutsideTokens(tokens: map<TokenWallet, u64>)

  function Apply(s: System, op: Op): Result<System, Error> {
    match op
    case DepositTokens(user, funder, amount) => Deposit(s, user, funder, amount)
    case WithdrawTokens(user, amount, openVotes, funder, voucher) =>
      Withdraw(s, user, amount, openVotes, funder, voucher)
    case ClaimReward(user) => Claim(s, user)
    case SyncWeight(user, funder, voucher) => SyncWeightRecord(s, user, funder, voucher)
    case DistributeTo(batch, now) => Distribute(s, batch, now)
    case SendLamports(from, to, amount) =>
      var lamports :- Move(s.lamports, SystemAccount(from), to, amount).OkOr(TransferFailed);
      Success(s.(lamports := lamports))
    case OutsideTokens(tokens) =>
      // transfers, mints and burns by others: nobody but the program takes tokens out of the stake
      :- Need(StakeWallet in tokens && Balance(s.tokens, StakeWallet) <= Balance(tokens, StakeWallet), TransferFailed);
      Success(s.(tokens := tokens))
  }

  /** The voucher passed, if any, is one of this state. */
  predicate UsesOwnVoucher(op: Op) {
    (op.WithdrawTokens? || op.SyncWeight?) ==> op.voucher.Own?
  }

  predicate AllOwnVouchers(ops: seq<Op>) {
    forall i :: 0 <= i < |ops| ==> UsesOwnVoucher(ops[i])
  }

  /** A failed step changes nothing. */
  function Step(s: System, op: Op): System {
    match Apply(s, op)
    case Success(after) => after
    case Failure(_) => s
  }

  function Run(s: System, ops: seq<Op>): System {
    if ops == [] then s else Step(Run(s, ops[..|ops| - 1]), ops[|ops| - 1])
  }
}
