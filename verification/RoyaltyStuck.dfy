/**
 Runs that go wrong. A payout total beyond what the state account can cover is never completed by any run without
 donations, and runs from initialisation reach such a distribution with six vouchers, so five is the largest number that
 is always safe. Others reach a distribution with nothing staked, a stake that is locked, and states in which a voucher
 of another state was used.
 */
module RoyaltyStuck {
  import opened Wrappers
  import opened MachineInts
  import opened Arithmetic
  import opened FixedPoint
  import opened Sums
  import opened RoyaltyState
  import opened RoyaltySteps
  import opened RoyaltyInvariant
  import opened RoyaltyRecords
  import opened RoyaltyPayouts
  import opened RoyaltyProgress
  import opened RoyaltyStaking

  // ---------------------------------------------------------------- overshooting distributions

  /** Lamports that a step sends to the state account from outside. */
  ghost function DonatedBy(s: System, op: Op): nat {
    if op.SendLamports? && op.to == StateAccount && Apply(s, op).Success? then op.amount else 0
  }

  ghost function Donated(s: System, ops: seq<Op>): nat {
    if ops == [] then 0
    else
      var last := |ops| - 1;
      Donated(s, ops[..last]) + DonatedBy(Run(s, ops[..last]), ops[last])
  }

  /** The same distribution as in `s` is still running in `t`. */
  ghost predicate StillRunning(s: System, t: System, donated: nat)
    requires s.state.distribution.Some?
  {
    && Orderly(t) && Accounted(t, donated) && SameSnapshot(s, t)
    && t.state.distribution.Some? && t.state.dropIdx == s.state.dropIdx
    && t.state.distribution.value.distributeAmount == s.state.distribution.value.distributeAmount
  }

  /** All vouchers together are due more than the state account can ever pay while keeping its rent. */
  ghost predicate Overshoots(s: System, donated: nat)
    requires s.state.distribution.Some?
  {
    TotalOf(s, s.vouchers.Keys) > s.state.distribution.value.distributeAmount + 2 + donated
  }

  lemma SameTotal(s: System, t: System, donated: nat)
    requires s.state.distribution.Some? && StillRunning(s, t, donated)
    ensures TotalOf(t, t.vouchers.Keys) == TotalOf(s, s.vouchers.Keys)
  {
    assert t.vouchers.Keys == Balances(t.vouchers).Keys == Balances(s.vouchers).Keys == s.vouchers.Keys;
    TotalFrozen(s.vouchers, t.vouchers, s.vouchers.Keys, s.state.tokensHeld,
                s.state.distribution.value.distributeAmount);
  }

  /** With every voucher paid the rent assertion would have failed, so a step that succeeds has not paid them all. */
  lemma OvershootStaysOpen(s: System, donated: nat, batch: seq<Pubkey>, now: i64)
    requires Orderly(s) && Accounted(s, donated) && s.state.distribution.Some? && Overshoots(s, donated)
    requires Distribute(s, batch, now).Success?
    ensures Distribute(s, batch, now).value.state.distribution.Some?
  {
    var over := WithOverride(s);
    var paid := PayBatch(over, batch, now).value;
    RentAssertionFailsIffOvershoot(over, donated, batch, now);
    PayBatchFrozen(over, batch, now);
    PayBatchKeeps(over, batch, now);
    AllSeen(paid.vouchers, paid.state.dropIdx, paid.state.distribution.value);
    TotalFrozen(s.vouchers, paid.vouchers, s.vouchers.Keys, s.state.tokensHeld,
                s.state.distribution.value.distributeAmount);
  }

  lemma DistributeStillRunning(s: System, t: System, donated: nat, batch: seq<Pubkey>, now: i64)
    requires s.state.distribution.Some? && StillRunning(s, t, donated) && Overshoots(s, donated)
    requires Distribute(t, batch, now).Success?
    ensures StillRunning(s, Distribute(t, batch, now).value, donated)
  {
    SameTotal(s, t, donated);
    OvershootStaysOpen(t, donated, batch, now);
    DistributeKeeps(t, batch, now);
    DistributeAdvances(t, batch, now);
    DistributeAccounted(t, batch, now, donated);
  }

  lemma OtherStepStillRunning(s: System, t: System, donated: nat, op: Op)
    requires s.state.distribution.Some? && StillRunning(s, t, donated)
    requires !op.DistributeTo? && Apply(t, op).Success?
    ensures StillRunning(s, Apply(t, op).value, donated + DonatedBy(t, op))
  {
    StepKeeps(t, op);
    FrozenWhileDistributing(t, op);
    OtherStepsAccounted(t, op, donated);
  }

  lemma StillRunningStep(s: System, t: System, donated: nat, op: Op)
    requires s.state.distribution.Some? && StillRunning(s, t, donated)
    requires Overshoots(s, donated + DonatedBy(t, op))
    ensures StillRunning(s, Step(t, op), donated + DonatedBy(t, op))
  {
    if Apply(t, op).Success? {
      if op.DistributeTo? {
        DistributeStillRunning(s, t, donated, op.batch, op.now);
      } else {
        OtherStepStillRunning(s, t, donated, op);
      }
    }
  }

  lemma {:induction false} StillRunningRun(s: System, donated: nat, ops: seq<Op>)
    requires Orderly(s) && Accounted(s, donated) && s.state.distribution.Some?
    requires Overshoots(s, donated + Donated(s, ops))
    ensures StillRunning(s, Run(s, ops), donated + Donated(s, ops))
  {
    if ops != [] {
      var m, before := Run(s, ops[..|ops| - 1]), donated + Donated(s, ops[..|ops| - 1]);
      StillRunningRun(s, donated, ops[..|ops| - 1]);
      StillRunningStep(s, m, before, ops[|ops| - 1]);
    }
  }

  /**
   A distribution whose payouts exceed its amount by more than two lamports and everything donated to the state account
   is never completed: whatever happens and however its vouchers are batched, it is still the one running.
   */
  lemma OvershootNeverCompletes(s: System, donated: nat, ops: seq<Op>)
    requires Orderly(s) && Accounted(s, donated) && s.state.distribution.Some?
    requires TotalOf(s, s.vouchers.Keys) > s.state.distribution.value.distributeAmount + 2 + donated + Donated(s, ops)
    ensures var t := Run(s, ops);
            && t.state.distribution.Some? && t.state.dropIdx == s.state.dropIdx
            && t.state.distribution.value.distributeAmount == s.state.distribution.value.distributeAmount
  {
    StillRunningRun(s, donated, ops);
  }

  // ---------------------------------------------------------------- payouts of a list of stakes

  ghost function PayoutsOf(stakes: seq<u64>, tokens: u64, amount: u64): nat {
    if stakes == [] then 0
    else PayoutsOf(stakes[..|stakes| - 1], tokens, amount) + Payout(stakes[|stakes| - 1], tokens, amount)
  }

  lemma PayoutsAppend(stakes: seq<u64>, stake: u64, tokens: u64, amount: u64)
    ensures PayoutsOf(stakes + [stake], tokens, amount)
         == PayoutsOf(stakes, tokens, amount) + Payout(stake, tokens, amount)
  {
    assert (stakes + [stake])[..|stakes|] == stakes;
  }

  ghost function UsersBelow(n: nat): set<Pubkey> {
    if n == 0 then {} else UsersBelow(n - 1) + {n - 1}
  }

  lemma {:induction false} UsersBelowAre(n: nat)
    ensures forall u: int :: u in UsersBelow(n) <==> 0 <= u < n
  {
    if n > 0 {
      UsersBelowAre(n - 1);
    }
  }

  lemma {:induction false} TotalOfPrefix(vouchers: map<Pubkey, Voucher>, stakes: seq<u64>, n: nat, tokens: u64,
                                         amount: u64)
    requires HoldsStakes(vouchers, stakes) && n <= |stakes|
    ensures TotalPayout(vouchers, UsersBelow(n), tokens, amount) == PayoutsOf(stakes[..n], tokens, amount)
  {
    if n == 0 {
      assert Payouts(vouchers, {}, tokens, amount) == map[];
    } else {
      TotalOfPrefix(vouchers, stakes, n - 1, tokens, amount);
      UsersBelowAre(n - 1);
      TotalAddOne(vouchers, UsersBelow(n - 1), n - 1, tokens, amount);
      assert stakes[..n - 1] + [stakes[n - 1]] == stakes[..n];
      PayoutsAppend(stakes[..n - 1], stakes[n - 1], tokens, amount);
    }
  }

  /** What all holders of the stakes are due. */
  lemma TotalOfStakes(vouchers: map<Pubkey, Voucher>, stakes: seq<u64>, tokens: u64, amount: u64)
    requires HoldsStakes(vouchers, stakes)
    ensures TotalPayout(vouchers, vouchers.Keys, tokens, amount) == PayoutsOf(stakes, tokens, amount)
  {
    TotalOfPrefix(vouchers, stakes, |stakes|, tokens, amount);
    UsersBelowAre(|stakes|);
    assert UsersBelow(|stakes|) == vouchers.Keys;
    assert stakes[..|stakes|] == stakes;
  }

  /** The same total from a list of the single payouts. */
  lemma {:induction false} PayoutsListed(stakes: seq<u64>, payouts: seq<nat>, tokens: u64, amount: u64)
    requires |payouts| == |stakes|
    requires forall i :: 0 <= i < |stakes| ==> payouts[i] == Payout(stakes[i], tokens, amount)
    ensures PayoutsOf(stakes, tokens, amount) == Total(payouts)
  {
    if stakes != [] {
      PayoutsListed(stakes[..|stakes| - 1], payouts[..|payouts| - 1], tokens, amount);
    }
  }

  lemma SixTerms(p: nat, q: nat, r: nat)
    ensures Total([p, p, p, q, r, r]) == 3 * p + q + 2 * r
  {
    TotalAppend([], p);
    TotalAppend([p], p);
    TotalAppend([p, p], p);
    TotalAppend([p, p, p], q);
    TotalAppend([p, p, p, q], r);
    TotalAppend([p, p, p, q, r], r);
    assert [] + [p] == [p] && [p] + [p] == [p, p] && [p, p] + [p] == [p, p, p] && [p, p, p] + [q] == [p, p, p, q];
    assert [p, p, p, q] + [r] == [p, p, p, q, r] && [p, p, p, q, r] + [r] == [p, p, p, q, r, r];
  }

  lemma TotalAppend(stakes: seq<nat>, stake: nat)
    ensures Total(stakes + [stake]) == Total(stakes) + stake
  {
    assert (stakes + [stake])[..|stakes|] == stakes;
  }

  /** A stake of k sixteenths is paid its share rounded half up. */
  lemma SixteenthsRound(k: nat, b: nat, stake: u64, tokens: u64, amount: u64)
    requires 0 < b && stake == k * b && tokens == 16 * b
    ensures Payout(stake, tokens, amount) == (amount * k + 8) / 16
  {
    var unit := 62_500_000_000;
    assert stake * ONE == (k * unit) * tokens by {
      assert k * b * ONE == (k * unit) * (16 * b);
    }
    DivUnique(stake * ONE, tokens, k * unit, 0);
    assert amount * (k * unit) == (amount * k) * unit;
    DivScaled(amount * k + 8, 16, unit, 0);
  }

  /** Six users staking 1, 1, 1, 3, 5 and 5 sixteenths of the total. */
  predicate AreSixStakes(stakes: seq<u64>, b: nat) {
    && |stakes| == 6 && 0 < b && 16 * b <= U64_MAX
    && stakes[0] == b && stakes[1] == b && stakes[2] == b
    && stakes[3] == 3 * b && stakes[4] == 5 * b && stakes[5] == 5 * b
  }

  lemma SixStakesTotal(stakes: seq<u64>, b: nat)
    requires AreSixStakes(stakes, b)
    ensures Total(stakes) == 16 * b
  {
    SixTerms(b, 3 * b, 5 * b);
    assert stakes == [b, b, b, 3 * b, 5 * b, 5 * b];
  }

  lemma SixPayouts(stakes: seq<u64>, tokens: u64, amount: u64, p: nat, q: nat, r: nat)
    requires |stakes| == 6 && stakes[1] == stakes[0] && stakes[2] == stakes[0] && stakes[5] == stakes[4]
    requires Payout(stakes[0], tokens, amount) == p && Payout(stakes[3], tokens, amount) == q
    requires Payout(stakes[4], tokens, amount) == r
    ensures PayoutsOf(stakes, tokens, amount) == 3 * p + q + 2 * r
  {
    PayoutsListed(stakes, [p, p, p, q, r, r], tokens, amount);
    SixTerms(p, q, r);
  }

  lemma SixHalvesUp(amount: nat)
    requires amount % 16 == 8
    ensures 3 * ((amount * 1 + 8) / 16) + (amount * 3 + 8) / 16 + 2 * ((amount * 5 + 8) / 16) == amount + 3
  {
  }

  /** With an amount 8 above a multiple of 16 all six halves round up. */
  lemma SixStakesOvershoot(stakes: seq<u64>, b: nat, amount: u64)
    requires AreSixStakes(stakes, b) && amount % 16 == 8
    ensures PayoutsOf(stakes, 16 * b, amount) == amount + 3
  {
    SixteenthsRound(1, b, b, 16 * b, amount);
    SixteenthsRound(3, b, 3 * b, 16 * b, amount);
    SixteenthsRound(5, b, 5 * b, 16 * b, amount);
    SixPayouts(stakes, 16 * b, amount, (amount * 1 + 8) / 16, (amount * 3 + 8) / 16, (amount * 5 + 8) / 16);
    SixHalvesUp(amount);
  }

  // ---------------------------------------------------------------- from initialisation

  function TokensFor(stakes: seq<u64>): map<TokenWallet, u64> {
    if stakes == [] then map[]
    else TokensFor(stakes[..|stakes| - 1])[UserWallet(|stakes| - 1) := stakes[|stakes| - 1]]
  }

  lemma {:induction false} TokensForAre(stakes: seq<u64>)
    ensures Sum(TokensFor(stakes)) == Total(stakes)
    ensures forall u: int :: 0 <= u < |stakes| ==> Balance(TokensFor(stakes), UserWallet(u)) == stakes[u]
    ensures forall u: int :: |stakes| <= u ==> UserWallet(u) !in TokensFor(stakes)
    ensures forall u: int :: 0 <= u < |stakes| ==> UserWallet(u) in TokensFor(stakes)
    ensures StakeWallet !in TokensFor(stakes) && VaultWallet !in TokensFor(stakes)
  {
    if stakes != [] {
      var last := |stakes| - 1;
      TokensForAre(stakes[..last]);
      SumUpdate(TokensFor(stakes[..last]), UserWallet(last), stakes[last]);
    }
  }

  const FUNDER: Pubkey := 200

  const OTHER: Pubkey := 99

  function WalletsFor(stakes: seq<u64>): map<TokenWallet, u64> {
    TokensFor(stakes)[StakeWallet := 0][VaultWallet := 0][UserWallet(100) := 0][UserWallet(OTHER) := 0]
  }

  /**
   A freshly initialised state with users about to stake, lamports already received, empty wallets of the vault, the
   owner and another user, and one SOL for the rents.
   */
  ghost function Fresh(stakes: seq<u64>, received: u64): System
    requires |stakes| < OTHER
  {
    System(100, 101, 1_000_000, 2_000_000, 2_032_320, 1_566_000, State(Settings(0, 0, 250, 0), 0, 0, 0, None, 0, 0),
           map[], map[StateAccount := received, SystemAccount(FUNDER) := 1_000_000_000],
           WalletsFor(stakes), map[], None)
  }

  lemma FreshTokens(stakes: seq<u64>)
    requires |stakes| < OTHER
    ensures var tokens := WalletsFor(stakes);
            && UserWallet(OTHER) in tokens && Sum(tokens) == Total(stakes)
            && (forall u :: 0 <= u < |stakes| ==>
                  WalletsExist(tokens, u, 100) && Balance(tokens, UserWallet(u)) == stakes[u])
  {
    TokensForAre(stakes);
    var tokens := TokensFor(stakes);
    SumWithBalance(tokens, StakeWallet, 0);
    SumWithBalance(tokens[StakeWallet := 0], VaultWallet, 0);
    SumWithBalance(tokens[StakeWallet := 0][VaultWallet := 0], UserWallet(100), 0);
    SumWithBalance(tokens[StakeWallet := 0][VaultWallet := 0][UserWallet(100) := 0], UserWallet(OTHER), 0);
  }

  lemma FreshCanDeposit(stakes: seq<u64>, received: u64)
    requires |stakes| < OTHER && Total(stakes) <= U64_MAX && received <= 1_000_000_000
    ensures CanAllDeposit(Fresh(stakes, received), stakes, FUNDER)
  {
    FreshTokens(stakes);
    var s := Fresh(stakes, received);
    SumUpdate(map[], StateAccount, received);
    SumUpdate(map[StateAccount := received], SystemAccount(FUNDER), 1_000_000_000);
    assert s.lamports == map[StateAccount := received][SystemAccount(FUNDER) := 1_000_000_000];
    assert map[][StateAccount := received] == map[StateAccount := received];
  }

  /** Starting gives the amount less the host's commission. */
  lemma StartAmount(s: System, amount: u64)
    requires Sum(s.lamports) <= U64_MAX && s.state.totalDistributed == 0 && s.state.totalUserDistributed == 0
    requires Balance(s.lamports, StateAccount) == s.stateRent + 2 + amount && 500_000_000 <= amount
    ensures Start(s).Success?
    ensures Start(s).value.state.distribution == Some(Distribution(amount - HostCommission(amount), 0))
  {
    StartsIff(s);
    assert HostCommission(amount) <= amount by {
      MulBpsClosedForm(amount, 250);
    }
  }

  /** Starting a distribution without paying anybody yet. */
  lemma StartsRunning(s: System, amount: u64, now: i64)
    requires Orderly(s) && s.state.distribution.None? && 0 < s.state.vouchersCount
    requires s.state.totalDistributed == 0 && s.state.totalUserDistributed == 0
    requires Balance(s.lamports, StateAccount) == s.stateRent + 2 + amount && 500_000_000 <= amount
    ensures Distribute(s, [], now).Success? && Distribute(s, [], now) == Start(WithOverride(s))
    ensures var t := Distribute(s, [], now).value;
            && t.vouchers == s.vouchers && t.state.tokensHeld == s.state.tokensHeld
            && t.state.dropIdx == s.state.dropIdx
            && t.state.distribution == Some(Distribution(amount - HostCommission(amount), 0))
            && Orderly(t) && Accounted(t, 0)
  {
    StartAmount(WithOverride(s), amount);
    StartShape(WithOverride(s));
    SettlesOpen(Start(WithOverride(s)).value);
    DistributeKeeps(s, [], now);
    DistributeAccounted(s, [], now, 0);
  }

  lemma SettlesOpen(s: System)
    requires s.state.distribution.Some? && s.state.distribution.value.seenVouchers < s.state.vouchersCount
    requires s.stateRent <= Balance(s.lamports, StateAccount)
    ensures Settle(s) == Success(s)
  {
  }

  /** The users stake and a distribution is opened. */
  ghost function Opened(s: System, stakes: seq<u64>, now: i64): Result<System, Error> {
    Distribute(Run(s, DepositOps(stakes, FUNDER)), [], now)
  }

  /** A consistent state in which `amount` is about to be distributed over the stakes. */
  ghost predicate JustOpened(t: System, stakes: seq<u64>, amount: int) {
    && Orderly(t) && Accounted(t, 0) && HoldsStakes(t.vouchers, stakes) && t.state.tokensHeld == Total(stakes)
    && t.state.distribution.Some? && t.state.distribution.value.distributeAmount == amount
  }

  lemma OpenedRuns(s: System, stakes: seq<u64>, amount: u64, now: i64)
    requires CanAllDeposit(s, stakes, FUNDER) && stakes != []
    requires Balance(s.lamports, StateAccount) == s.stateRent + 2 + amount && 500_000_000 <= amount
    ensures Opened(s, stakes, now).Success?
    ensures JustOpened(Opened(s, stakes, now).value, stakes, amount - HostCommission(amount))
  {
    DepositsSucceed(s, stakes, |stakes|, FUNDER);
    assert DepositOps(stakes, FUNDER)[..|stakes|] == DepositOps(stakes, FUNDER) && stakes[..|stakes|] == stakes;
    StartsRunning(Run(s, DepositOps(stakes, FUNDER)), amount, now);
  }

  /** A distribution over six such stakes overshoots by three. */
  lemma SixStakesRunForever(t: System, stakes: seq<u64>, b: nat, amount: int, ops: seq<Op>)
    requires AreSixStakes(stakes, b) && amount % 16 == 8 && JustOpened(t, stakes, amount)
    ensures t.state.distribution.Some? && StaysOpen(t, ops)
  {
    SixStakesTotal(stakes, b);
    TotalOfStakes(t.vouchers, stakes, 16 * b, amount);
    SixStakesOvershoot(stakes, b, amount);
    if Donated(t, ops) == 0 {
      OvershootNeverCompletes(t, 0, ops);
    }
  }

  /** Unless lamports are donated to the state account, the distribution is still open after the run. */
  ghost predicate StaysOpen(t: System, ops: seq<Op>) {
    Donated(t, ops) == 0 ==> Run(t, ops).state.distribution.Some?
  }

  /**
   Six vouchers are already too many. From any initial state in which six users can stake 1, 1, 1, 3, 5 and 5 sixteenths
   and the amount after the host's commission is 8 above a multiple of 16: the deposits succeed, the distribution opens,
   and whatever happens next, without a lamport donated it never completes.
   */
  lemma SixStakersGetStuck(s: System, stakes: seq<u64>, b: nat, amount: u64, now: i64, ops: seq<Op>)
    requires AreSixStakes(stakes, b) && CanAllDeposit(s, stakes, FUNDER)
    requires Balance(s.lamports, StateAccount) == s.stateRent + 2 + amount && 500_000_000 <= amount
    requires (amount - HostCommission(amount)) % 16 == 8
    ensures Opened(s, stakes, now).Success? && Opened(s, stakes, now).value.state.distribution.Some?
    ensures StaysOpen(Opened(s, stakes, now).value, ops)
  {
    OpenedRuns(s, stakes, amount, now);
    SixStakesRunForever(Opened(s, stakes, now).value, stakes, b, amount - HostCommission(amount), ops);
  }

  const SIX_STAKES: seq<u64> := [1, 1, 1, 3, 5, 5]

  /** There are such states: 16 tokens, and half a SOL received. */
  lemma SixStakersExist()
    ensures AreSixStakes(SIX_STAKES, 1) && CanAllDeposit(Fresh(SIX_STAKES, 501_000_010), SIX_STAKES, FUNDER)
    ensures var s := Fresh(SIX_STAKES, 501_000_010);
            Balance(s.lamports, StateAccount) == s.stateRent + 2 + 500_000_008
    ensures (500_000_008 - HostCommission(500_000_008)) % 16 == 8
  {
    SixStakesTotal(SIX_STAKES, 1);
    FreshCanDeposit(SIX_STAKES, 501_000_010);
    assert HostCommission(500_000_008) == 12_500_000;
  }

  /** The run of the two lemmas together, on that state. */
  lemma StartedDistributionGetsStuck(now: i64, ops: seq<Op>)
    ensures var s := Fresh(SIX_STAKES, 501_000_010);
            && Initial(s) && Opened(s, SIX_STAKES, now).Success?
            && Opened(s, SIX_STAKES, now).value.state.distribution.Some?
            && StaysOpen(Opened(s, SIX_STAKES, now).value, ops)
  {
    SixStakersExist();
    SixStakersGetStuck(Fresh(SIX_STAKES, 501_000_010), SIX_STAKES, 1, 500_000_008, now, ops);
  }

  /**
   So do eight equal stakes: with an amount 4 above a multiple of 8 they overshoot by four, and less than two donated
   lamports never complete the distribution.
   */
  lemma EightEqualStakesNeverComplete(s: System, donated: nat, ops: seq<Op>, balance: u64)
    requires Orderly(s) && Accounted(s, donated) && s.state.distribution.Some?
    requires donated + Donated(s, ops) < 2 && 0 < balance
    requires |s.vouchers.Keys| == 8 && (forall u :: u in s.vouchers.Keys ==> s.vouchers[u].balance == balance)
    requires s.state.tokensHeld == 8 * balance
    requires s.state.distribution.value.distributeAmount % 8 == 4
    ensures Run(s, ops).state.distribution.Some?
  {
    var d := s.state.distribution.value.distributeAmount;
    EighthRoundsUp(balance, d);
    EqualTotal(s.vouchers, s.state.tokensHeld, d, d / 8 + 1);
    OvershootNeverCompletes(s, donated, ops);
  }

  // ---------------------------------------------------------------- nothing staked

  /** One user of a fresh state stakes. */
  ghost function OneStaker(stake: u64): System {
    Run(Fresh([stake], 501_000_010), DepositOps([stake], FUNDER))
  }

  /** What the run of one deposit leads to; the funder has still most of the SOL. */
  ghost predicate Joined(t: System, stake: u64) {
    && Inv(t) && Booked(t.state, t.vouchers, [stake]) && t.weights == map[]
    && t.owner == 100 && t.stateRent == 1_000_000
    && Sum(t.tokens) == stake && WalletsExist(t.tokens, 0, 100) && UserWallet(OTHER) in t.tokens
    && Balance(t.lamports, StateAccount) == 501_000_010
    && Balance(t.lamports, SystemAccount(FUNDER)) == 996_434_000
    && t.weightRent == 2_032_320 && t.maxWeight.Some?
    && (forall u :: Balance(t.lamports, WeightRecord(u)) == 0)
  }

  lemma OneStakeTotal(stake: u64)
    ensures Total([stake]) == stake
  {
    TotalAppend([], stake);
    assert [] + [stake] == [stake];
  }

  lemma OneStakerJoins(stake: u64)
    ensures Initial(Fresh([stake], 501_000_010)) && Joined(OneStaker(stake), stake)
  {
    var s := Fresh([stake], 501_000_010);
    OneStakeTotal(stake);
    FreshCanDeposit([stake], 501_000_010);
    FreshTokens([stake]);
    DepositsSucceed(s, [stake], 1, FUNDER);
    assert DepositOps([stake], FUNDER)[..1] == DepositOps([stake], FUNDER) && [stake][..1] == [stake];
    var t := OneStaker(stake);
    assert WalletsExist(s.tokens, 0, 100) && t.tokens.Keys >= s.tokens.Keys;
  }

  /** Nobody has been paid yet, and 500 million lamports are there to distribute. */
  ghost predicate Ready(t: System) {
    && Orderly(t) && t.state.vouchersCount == 1 && t.state.dropIdx == 0
    && t.state.distribution.None? && t.state.totalDistributed == 0 && t.state.totalUserDistributed == 0
    && Balance(t.lamports, StateAccount) == t.stateRent + 2 + 500_000_008
  }

  /** The only staker takes the token out again. */
  lemma StakerLeaves(staked: System)
    requires Joined(staked, 1)
    ensures var left := Apply(staked, WithdrawTokens(0, 1, false, FUNDER, Own));
            left.Success? && Ready(left.value) && left.value.state.tokensHeld == 0
  {
    OneStakeTotal(1);
    WithdrawSucceedsIff(staked, 0, 1, false, FUNDER, Own);
    WithdrawEffect(staked, 0, 1, false, FUNDER, Own);
    StepKeeps(staked, WithdrawTokens(0, 1, false, FUNDER, Own));
  }

  lemma EmptyDistributionNeverEnds(t: System, now: i64, ops: seq<Op>)
    requires Ready(t) && t.state.tokensHeld == 0
    ensures var started := Distribute(t, [], now);
            && started.Success? && started.value.state.distribution == Some(Distribution(487_500_008, 0))
            && Run(started.value, ops).state.distribution == started.value.state.distribution
  {
    StartsRunning(t, 500_000_008, now);
    assert HostCommission(500_000_008) == 12_500_000;
    NothingStakedNeverEnds(Distribute(t, [], now).value, ops);
  }

  /**
   From initialisation: one user stakes a token and withdraws it again, lamports arrive, and a distribution is started.
   Nothing is staked and the voucher is still counted, so no run ever ends this distribution.
   */
  lemma EmptiedRoyaltyNeverEnds(now: i64, ops: seq<Op>)
    ensures Initial(Fresh([1], 501_000_010))
    ensures var emptied := Apply(OneStaker(1), WithdrawTokens(0, 1, false, FUNDER, Own));
            && emptied.Success?
            && var started := Distribute(emptied.value, [], now);
            && started.Success? && started.value.state.distribution == Some(Distribution(487_500_008, 0))
            && Run(started.value, ops).state.distribution == started.value.state.distribution
  {
    OneStakerJoins(1);
    StakerLeaves(OneStaker(1));
    EmptyDistributionNeverEnds(Apply(OneStaker(1), WithdrawTokens(0, 1, false, FUNDER, Own)).value, now, ops);
  }

  // ---------------------------------------------------------------- locked stakes

  lemma StakeLocks(t: System, stake: u64, ops: seq<Op>, op: Op)
    requires Joined(t, stake) && (op.WithdrawTokens? || op.SyncWeight?) && op.user == 0
    ensures Locked(t, stake, ops, op)
  {
    MoveSucceeds(t.lamports, SystemAccount(FUNDER), WeightRecord(0), 1);
    MoveConserves(t.lamports, SystemAccount(FUNDER), WeightRecord(0), 1);
    assert t.vouchers == map[0 := Voucher(0, stake, 0)];
    WeightRecordLamportsBlockLeaving(Step(t, SendLamports(FUNDER, WeightRecord(0), 1)), 0, ops, op);
  }

  /** With one lamport sent to the record's address, the stake is idle and `op` fails after every later run. */
  ghost predicate Locked(t: System, stake: u64, ops: seq<Op>, op: Op) {
    var sent := Apply(t, SendLamports(FUNDER, WeightRecord(0), 1));
    && sent.Success? && sent.value.state.distribution.None?
    && sent.value.vouchers == map[0 := Voucher(0, stake, 0)]
    && Apply(Run(sent.value, ops), op).Failure?
  }

  /**
   From initialisation: one user stakes, and somebody sends a lamport to the address of the weight record that user has
   not created yet. No distribution runs and no votes are open, yet over every later run each attempt of that user to
   take the stake out, or to synchronise the weight, fails.
   */
  lemma LamportOnRecordLocksStake(stake: u64, ops: seq<Op>, op: Op)
    requires (op.WithdrawTokens? || op.SyncWeight?) && op.user == 0
    ensures Initial(Fresh([stake], 501_000_010)) && Locked(OneStaker(stake), stake, ops, op)
  {
    OneStakerJoins(stake);
    StakeLocks(OneStaker(stake), stake, ops, op);
  }

  // ---------------------------------------------------------------- vouchers of other states

  lemma ForeignWeightCounts(t: System)
    requires Joined(t, 1)
    ensures Outvoted(Apply(t, SyncWeight(OTHER, FUNDER, Foreign(2))))
  {
    OneStakeTotal(1);
    VotingWalletsFit(t.tokens, t.owner);
    SyncSucceedsIff(t, OTHER, FUNDER, Foreign(2));
    SyncEffect(t, OTHER, FUNDER, Foreign(2));
    SumUpdate(map[], OTHER, 2);
    assert StakerWeights(SyncWeightRecord(t, OTHER, FUNDER, Foreign(2)).value) == map[][OTHER := 2];
  }

  /** The step succeeded, and the stakers' weights exceed the maximum. */
  ghost predicate Outvoted(r: Result<System, Error>) {
    r.Success? && r.value.maxWeight.Some? && Sum(StakerWeights(r.value)) > r.value.maxWeight.value
  }

  /**
   From initialisation: one user stakes a token, and another one's weight is synchronised from a voucher of another
   state that holds two. The weights recorded for this state then exceed the maximum recorded for it.
   */
  lemma ForeignWeightExceedsMaximum()
    ensures Initial(Fresh([1], 501_000_010))
    ensures Outvoted(Apply(OneStaker(1), SyncWeight(OTHER, FUNDER, Foreign(2))))
  {
    OneStakerJoins(1);
    ForeignWeightCounts(OneStaker(1));
  }

  /** One of the two tokens staked is withdrawn with a voucher of another state. */
  lemma ForeignWithdrawal(staked: System)
    requires Joined(staked, 2)
    ensures var undercut := Apply(staked, WithdrawTokens(OTHER, 1, false, FUNDER, Foreign(1)));
            && undercut.Success? && Ready(undercut.value) && undercut.value.state.tokensHeld == 1
            && undercut.value.vouchers == map[0 := Voucher(0, 2, 0)]
  {
    OneStakeTotal(2);
    WithdrawSucceedsIff(staked, OTHER, 1, false, FUNDER, Foreign(1));
    WithdrawEffect(staked, OTHER, 1, false, FUNDER, Foreign(1));
    StepKeeps(staked, WithdrawTokens(OTHER, 1, false, FUNDER, Foreign(1)));
    assert staked.vouchers == map[0 := Voucher(0, 2, 0)];
  }

  lemma UndercutNeverEnds(t: System, now: i64, ops: seq<Op>)
    requires Ready(t) && t.state.tokensHeld == 1 && t.vouchers == map[0 := Voucher(0, 2, 0)]
    ensures var started := Distribute(t, [], now);
            && started.Success? && started.value.state.distribution.Some?
            && Run(started.value, ops).state.distribution.Some? && Run(started.value, ops).state.dropIdx == 0
  {
    StartsRunning(t, 500_000_008, now);
    var started := Distribute(t, [], now).value;
    assert started.vouchers[0].balance * ONE / started.state.tokensHeld == 2 * ONE;
    UnpayableVoucherNeverEnds(started, 0, ops);
  }

  /**
   From initialisation: one user stakes two tokens and one of them is withdrawn with a voucher of another state, so that
   the remaining voucher holds more than `tokens_held`. A distribution started then is never completed by any run,
   although there is only one voucher.
   */
  lemma ForeignWithdrawalFreezes(now: i64, ops: seq<Op>)
    ensures Initial(Fresh([2], 501_000_010))
    ensures var undercut := Apply(OneStaker(2), WithdrawTokens(OTHER, 1, false, FUNDER, Foreign(1)));
            && undercut.Success?
            && var started := Distribute(undercut.value, [], now);
            && started.Success? && started.value.state.distribution.Some?
            && Run(started.value, ops).state.distribution.Some? && Run(started.value, ops).state.dropIdx == 0
  {
    OneStakerJoins(2);
    ForeignWithdrawal(OneStaker(2));
    UndercutNeverEnds(Apply(OneStaker(2), WithdrawTokens(OTHER, 1, false, FUNDER, Foreign(1))).value, now, ops);
  }
}
