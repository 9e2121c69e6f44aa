# Verified model of the human protocol programs

This project models four token and lamport state machines of the repository, the fixed-point arithmetic under
them and the byte layout of one account, and proves what they keep over every run.

| part | files | what is modelled |
|---|---|---|
| fixed point | `Wrappers`, `MachineInts`, `Sequences`, `Arithmetic`, `FixedPoint`, `RepostQuote`, `BuySplits` | the `PreciseNumber` pipelines of every program, with their integer closed forms |
| vesting | `Vesting` | `VestState::next_period` and runs of it against a vault |
| fanout | `Sums`, `FanoutSplit`, `Fanout` | the rounding split and the payment loop |
| royalty | `RoyaltyState`, `RoyaltySteps`, `RoyaltyProgram` | staking, voter weights, batched distribution and claims |
| | `RoyaltyInvariant`, `RoyaltyAccounting`, `RoyaltyPayouts`, `RoyaltyProgress` | invariant, exactly-once, lamport accounting, completion |
| | `RoyaltyEffects` | what every instruction does to every account |
| | `RoyaltyStaking`, `RoyaltyRecords`, `RoyaltyStuck` | when stakes go in and out, accounts that can never be created, and the runs that lock stakes or never end |
| sale round | `RoundState`, `RoundSteps`, `RoundProgram` | all instructions of the round and its time windows |
| | `RoundInvariant`, `RoundConservation`, `RoundRedemption` | counting and solvency, conservation, fairness |
| | `RoundEffects` | when each instruction goes through, and what it does to every account |
| | `RoundClosing`, `RoundProgress` | when a round closes, and winding it up |
| account bytes | `Borsh`, `Entity`, `ContractState`, `Layout`, `Migration`, `FixState` | Borsh encoding, entity storage, V3 to V4 migration, in-place repair |

`dafny verify dfyconfig.toml` checks all of it.

## How to read it

Royalty and the sale round appear twice. `...Steps` gives every instruction as a function from the accounts it touches
to a `Result`; `...Program` gives it as a method of a class that writes those accounts in place, in the order of the
source, proved to do exactly what the function says, including which error comes first. A handler that fails may have
written some accounts already; `Process` is the transaction around it, which puts them back. The fanout's class works
the same way against `AfterDistribute`. What a transition means is stated separately in `...Effects`, balance by balance
and field by field, from the accounts before it alone. Lemmas about runs are stated over the functions: an operation
list is any sequence of instructions, of time passing, and of what outsiders can do to the accounts, and a failed
instruction leaves everything as it was.

Modelling decisions:

- An instruction is one atomic step. A panic, a failed checked operation and an error all leave the accounts
  unchanged; the workspace builds with overflow checks, so an overflow is a panic.
- Signatures, ownership, derived addresses and the list of passed accounts are preconditions of a step. Derived
  addresses are injective: the voucher account of a user is named by the user. Rent minimums are opaque constants.
- Which voucher a royalty withdrawal or synchronisation is passed is not a precondition, because the code does not ask:
  it is an argument of the step, the user's voucher of this state (`Own`) or one of another state with its balance
  (`Foreign`). Results that need the former say so (`AllOwnVouchers`); the others hold over all runs.
- Royalty accounts are created as the system program does it: the funder pays the rent, and the address must not hold
  lamports yet. A token wallet exists when it has an entry, be it zero. The vault is neither the stake wallet nor a user's
  associated wallet.
- `PreciseNumber` comes from spl-math, which is not part of the repository. The model assumes a natural number
  scaled by 10^12 in 256 bits; multiplication and division add half a unit before flooring, a product that does not
  fit divides the larger operand first, a dividend that does not fit divides before scaling, and the conversion
  back to an integer rounds half up. The repository's own expected values (`PinnedQuotes`, `PinnedRedemptions`)
  are theorems of this model.
- Token transfers and lamport moves are checked moves between balances (`Sums.Move`). In a native sale round a
  wrapped-SOL wallet's lamports are its rent plus its token balance.
- Who pays how much is stated as differences of balances seen from outside, not as what an instruction returns.

## What the code does not promise

Where a property one would expect of the code fails, the model keeps the code and states exactly when it holds.

- **Fanout split** (fanout/src/state.rs:31-38). The property test at fanout/src/state.rs:79-90 expects a split for
  every amount from 10 up. The difference is taken between signed casts, so two members with 5000 shares each and
  the amount 2^63 - 1 have none (`SplitFailsAtSignBoundary`); `SplitIsExact` gives the exact condition.
- **Fanout initialisation** (fanout/src/lib.rs:26-37) accepts a repeated address; such a fanout can never
  distribute (`RepeatedAddressBlocksDistribution`).
- **Royalty flat fee** (royalty/src/state.rs:116-122). The property test at royalty/src/state.rs:302-320 expects a
  split for every balance; a flat fee can exceed a small balance (`FlatFeeCanExceedBalance`), and
  `SplitExistsIffCovered` says when a split exists.
- **Royalty distribution** (royalty/src/lib.rs:641-653). Payouts are rounded half up one by one, and only two
  lamports are kept back. Up to five vouchers completion is guaranteed (`FiveVouchersAlwaysComplete`). Six are too many:
  from initialisation, six users with 1, 1, 1, 3, 5 and 5 tokens reach a distribution that no run without a donation
  completes (`SixStakersGetStuck`, `StartedDistributionGetsStuck`), and so do eight equal stakes
  (`EightEqualStakesNeverComplete`). `CompletesIff` and `CompletionDependsOnOvershoot` are exact.
- **Royalty voting records** (royalty/src/lib.rs:846-873). The first withdrawal or synchronisation of a user creates
  the weight record, and the first deposit the record of the maximum, with an instruction that fails if the address
  holds lamports already. Nothing takes them away again, so one lamport on the address of a missing weight record keeps
  that user's stake in for good (`WeightRecordLamportsBlockLeaving`; from initialisation `LamportOnRecordLocksStake`),
  lamports on the address of the missing maximum record stop all staking (`MaximumRecordLamportsBlockStaking`), and
  on that of a missing voucher the user's deposits (`VoucherLamportsBlockJoining`). `DepositSucceedsIff`,
  `WithdrawSucceedsIff` and `SyncSucceedsIff` give the exact conditions, with the rents the funder needs.
- **Royalty vouchers of other states** (royalty/src/lib.rs:359-361 and 743-750). Distributing and claiming check the
  state a voucher names (royalty/src/lib.rs:631 and 681); withdrawing and synchronising do not. Passed a voucher of another
  state they keep the invariant only as far as `ForeignVoucherKeepsInvariantIff` says: otherwise recorded weights can
  exceed the recorded maximum (`ForeignWeightExceedsMaximum`), and a voucher can hold more than `tokens_held`, with
  which no distribution completes (`UnpayableVoucherNeverEnds`; from initialisation `ForeignWithdrawalFreezes`).
  Counts, phases, rents, exactly-once payment and the accounting of lamports hold regardless (`RunKeepsOrder`).
- **Royalty with nothing staked** (royalty/src/state.rs:159). A distribution begun with no stake but a voucher still
  counted never ends (`NothingStakedNeverEnds`); a deposit, a full withdrawal and a distribution lead there
  (`EmptiedRoyaltyNeverEnds`).
- **Vesting leftover** (human/src/vest.rs:230-232). The fuzz test asserts a leftover of at most one token. A completed
  run leaves the last vault modulo the parts of its last call, so that holds for every supply exactly when the last
  call releases at most two parts (`LeftoverAtMostOne`). With gaps the test can draw, the last call can release three,
  and a supply of two is then left whole (`TwoTokensLeftOver`). A clock before deployment counts as all periods elapsed
  (`ElapsedPartsClosedForm`).
- **Round redemption** (round/src/lib.rs:342-368). Redemptions are rounded half up too, so the last redeemer can be
  left out, after which the round cannot be closed (`LastRedeemerBlocked`); `EverybodyRedeemsIff` is the exact
  condition and `SpareTokensServeEverybody` one that is easy to arrange.
- **Round closing** (round/src/lib.rs:454-513). `CloseSucceedsIff` is exact in every status: the status and the clock
  allow it, no voucher of either kind is left, the return wallet exists, and the bid wallet is gone, wrapped SOL or
  empty. Besides a redeemer left out, three things keep a round open for good: an off-chain voucher, which nothing gives up
  (`OffchainBlocksClosing`); tokens donated to a bid wallet that is not wrapped SOL (`LeftoverBlocksClosing`); and a
  contribution in the very second bidding ends, after the heir has accepted in that second, because contributing does
  not look at the status (round/src/lib.rs:89-91). `LateBidBlocksClosing` is such a run from creation, without any
  outsider and with every voucher redeemed.
- **Round refunds in wrapped SOL** (round/src/lib.rs:572-598). The temporary wallet is created at the authority's
  address, which fails if that address holds lamports, and no instruction takes them away: once any have arrived, no
  refund of a native round succeeds again (`AuthorityLamportsBlockRefunds`). Refunds of a token round need the user's
  associated wallet. `WithdrawSucceedsIff` and `UnwindingSucceedsIff` are exact.
- **Round withdrawal errors** (round/src/state.rs:128-134). The code answers a withdrawal from an accepted round
  with `CantWithdrawDuringReconciliation` and one during reconciliation with `CantWithdrawAcceptedOffer`; the
  property test at round/src/state.rs:437-452 expects the former case to give the latter error
  (`WithdrawErrorsAreSwapped`). The model follows the code.
- **Round timeout** (round/src/state.rs:166-170). A bidding end within seven days of the largest clock value
  leaves a pending round that can be neither settled, withdrawn from nor closed (`TimeoutBeyondClock`).

## Model

| member | source | states |
|---|---|---|
| `FixedPoint.FloorOfScaledQuotient` | human/src/vest.rs:54-60 | dividing at scale 10^12 and flooring is integer floor division, so the clock loses nothing |
| `FixedPoint.MulBpsClosedForm` | human/src/state.rs:124-136 | the multiply, divide by 10000, convert pipeline is floor((x·bps + 5000)/10000) for every 64-bit amount, and at most the amount for at most 10000 basis points |
| `FixedPoint.BpsAccuracy` | human/src/state.rs:124-136 | a basis-point share is the exact share rounded half up |
| `FixedPoint.MulShareClosedForm` | royalty/src/state.rs:153-173 | the divide, multiply, convert pipeline never fails in 256 bits unless the whole is zero, and equals the share truncated at 10^-12 times the total rounded half up |
| `FixedPoint.ShareAccuracy` | round/src/state.rs:211-222 | one share is at most the total, at most a half above its exact value and less than 1/2 + total/10^12 below |
| `RepostQuote.QuoteClosedForm` | human/src/lib.rs:1242-1266 | for all 64-bit inputs no 256-bit step fails or loses precision on either branch of the multiplication; the quote is the exact quotient rounded half up, missing only for an empty pool side with no input or beyond 64 bits |
| `RepostQuote.QuoteUnderReserve` | human/src/lib.rs:1257-1263 | a quote never exceeds the token reserve |
| `RepostQuote.ConstantProductHolds` | human/src/lib.rs:1257-1263 | taking the input and paying the raw quote never decreases the product of the balances |
| `RepostQuote.QuoteIsTight` | human/src/lib.rs:1257-1263 | nor is the buyer paid less than the product asks for by more than one unit at scale 10^12 |
| `RepostQuote.QuoteIsMonotone` | human/src/lib.rs:1242-1266 | paying more never yields fewer tokens, and a quote for more implies one for less |
| `RepostQuote.PinnedQuotes` | human/src/lib.rs:1841-1848 | the two quotes the repository's test pins |
| `RepostQuote.PoolTokensClosedForm` | human/src/lib.rs:704-724 | pool tokens are the integer floor of wsol·supply/balance, failing only for an empty balance or beyond 64 bits |
| `BuySplits.TwoRoundedSharesFit` | human/src/state.rs:138-140 | two rounded shares of less than 100% together never exceed the amount, so the subtractions cannot fail |
| `BuySplits.SplitByLamportsIsTotal` | human/src/state.rs:116-148 | every lamport amount splits, the commissions are rounded half up, and the three parts add up to the input |
| `BuySplits.SplitSucceedsIffPriceFits` | human/src/state.rs:95-114 | a purchase splits exactly when price times amount fits 64 bits, with 10% and 80% of the price rounded half up for commission and treasury, the rest for the owner, and 10% of the tokens |
| `Vesting.ElapsedPartsClosedForm` | human/src/vest.rs:49-61 | from deployment on the fixed-point clock is integer division clamped to all parts; before it the unsigned cast makes every part elapsed; the subtraction fails exactly on 64-bit overflow |
| `Vesting.ReleaseIsEqualParts` | human/src/vest.rs:63-87 | a call releases for every missed period the vault divided by the periods left, rounded down, and moves on to the clock |
| `Vesting.VestState.NextPeriod` | human/src/vest.rs:40-88 | completed, overflow, nothing due, or the released amount and the advanced period count; none of the later checked steps can fail and the amount never exceeds the vault |
| `Vesting.CallStaysLinear` | human/src/vest.rs:63-87 | one call keeps S(N-p) ≤ N·v ≤ S(N-p) + N·p, and a completing call leaves less than the parts it paid |
| `Vesting.VestedFollowsClock` | human/src/vest.rs:61-85 | over any run the vested periods are exactly the clock's as of the last call, so they never decrease |
| `Vesting.VaultTracksSchedule` | human/src/vest.rs:191-232 | over any sequence of call times the vault stays within p tokens of linear; after completion the leftover is below the parts of the last call |
| `Vesting.PathIndependence` | human/src/vest.rs:63-87 | two runs ending at the same time vest the same periods and differ by at most one token per period |
| `Vesting.CompletedRunLeaves` | human/src/vest.rs:73-85 | a run whose last call completes the schedule with m parts leaves what was in the vault before that call, modulo m |
| `Vesting.LeftoverAtMostOne` | human/src/vest.rs:230-232 | for the runs that complete with m parts in their last call, the leftover of at most one asserted by the fuzz test holds for every supply if and only if m is at most two; otherwise a supply of two leaves two |
| `Vesting.TwoTokensLeftOver` | human/src/vest.rs:190-232 | every schedule of three parts or more has a run with gaps the fuzz test can draw, half a part to two parts and 1000 seconds, whose last call releases three parts and leaves two of two tokens |
| `Vesting.BothSchedulesLeaveTwo` | human/src/consts.rs:23-31 | so do the release and the dev schedule of the crate |
| `Vesting.RunVesting` | human/src/vest.rs:179-207 | the vault loop for arbitrary call times: it computes the specified run, sent plus vault is the supply, and the two-sided linear bound holds |
| `FanoutSplit.SumValues` | fanout/src/state.rs:31 | the sum of the map's values, missing when it exceeds 64 bits |
| `FanoutSplit.CalculateSplit` | fanout/src/state.rs:15-41 | the loop, the sum and the in-place correction compute the specified split, with every panic of the signed casts as no split |
| `FanoutSplit.SharesNearAmount` | fanout/src/state.rs:23-32 | rounded shares miss the amount by at most n/2, those after the first by at most (n-1)/2 |
| `FanoutSplit.SplitIsExact` | fanout/src/state.rs:15-41 | for distinct members a split exists exactly when the stated guard on rounded shares holds; it then sums to the amount, others get their rounded share and the first the rest |
| `FanoutSplit.FirstMemberAccuracy` | fanout/src/state.rs:34-38 | the first member ends within (n-1)/2 lamports of its exact share |
| `FanoutSplit.SplitBelowSignBoundary` | fanout/src/state.rs:31-38 | for amounts up to 2^63 - 6 a split exists exactly when the other shares fit the amount, in particular whenever 2·share0·amount ≥ 10000(n-1) |
| `FanoutSplit.SplitFailsAtSignBoundary` | fanout/src/state.rs:79-90 | two equal members and 2^63 - 1 lamports have no split although the property test's range includes them |
| `Fanout.FanoutProgram.Initialize` | fanout/src/lib.rs:21-44 | accepts exactly 1 to 10 members with positive shares adding up to 10000, and then resets the statistics |
| `Fanout.FanoutProgram.PayOne` | fanout/src/lib.rs:66-83 | one turn of the loop, writing member, fanout and statistics in place, succeeds exactly when the account is an unseen member other than the fanout and no sum overflows |
| `Fanout.FanoutProgram.PayMembers` | fanout/src/lib.rs:63-83 | the loop succeeds exactly for distinct payable accounts and leaves the specified balances, lamports and running total |
| `Fanout.FanoutProgram.Distribute` | fanout/src/lib.rs:46-91 | succeeds exactly under the stated condition, with the specified new state |
| `Fanout.FanoutProgram.Process` | fanout/src/lib.rs:46-91 | as a transaction a failed distribution changes nothing: what it has already paid is rolled back |
| `Fanout.EveryMemberSeen` | fanout/src/lib.rs:63-88 | by pigeonhole a successful distribution names every member exactly once and pays the whole excess |
| `Fanout.RepeatedAddressBlocksDistribution` | fanout/src/lib.rs:26-42 | a fanout initialised with a repeated address can never distribute |
| `Fanout.DistributionPaysMembers` | fanout/src/lib.rs:66-90 | every member's balance grows by exactly its split, nobody else's changes, and exactly the rent minimum remains |
| `Fanout.DistributionConserves` | fanout/src/lib.rs:71-80 | a distribution conserves lamports |
| `Fanout.InflowIsAccountedFor` | fanout/src/lib.rs:46-91 | over whole runs total inflow equals the current excess plus `distributed` |
| `RoyaltyState.SplitExistsIffCovered` | royalty/src/state.rs:92-129 | with valid settings a split exists exactly when the flat fees fit 32 bits and all fees fit the balance, and its parts add up to the balance |
| `RoyaltyState.SplitIsTotalWithoutFlatFee` | royalty/src/state.rs:84-129 | with valid settings and no flat fee every balance splits |
| `RoyaltyState.FlatFeeCanExceedBalance` | royalty/src/state.rs:302-320 | an empty balance and a flat fee of one have no split although the property test's range includes them |
| `RoyaltyState.PayoutAccuracy` | royalty/src/state.rs:153-173 | a voucher's payout is at most D, at most a half above and less than 1/2 + D/10^12 below its exact share |
| `RoyaltyState.PayoutSteps` | royalty/src/state.rs:153-173 | the fixed-point division, multiplication and conversion compose to the closed form |
| `RoyaltyState.DistributeTo` | royalty/src/state.rs:140-179 | eligibility, division by zero, the 100% assertion, both counters and the payout, in the order of the source |
| `RoyaltyProgram.Royalty.Initialize` | royalty/src/lib.rs:125-182 | succeeds exactly for a rent-exempt state account without a stake wallet, a fee payer who can create that wallet at a free address, and fees below 100%, and starts from the initial state; the first failing check decides the error |
| `RoyaltyProgram.Royalty.OpenAccount` | royalty/src/lib.rs:854-864 | creating an account moves its rent from the funder and fails without it or if the address holds lamports |
| `RoyaltyProgram.Royalty.UpdateWeight` | royalty/src/lib.rs:784-815 | writes the weight record, creating it the first time |
| `RoyaltyProgram.Royalty.UpdateMaximum` | royalty/src/lib.rs:817-844 | writes the maximum record, creating it the first time |
| `RoyaltyProgram.Royalty.EnsureVoucher` | royalty/src/lib.rs:269-297 | a first depositor gets a voucher that is paid for, counted and at the current drop; others are left alone |
| `RoyaltyProgram.Royalty.AddStake` | royalty/src/lib.rs:301-319 | the token transfer, the voucher and the total stake change together as specified |
| `RoyaltyProgram.Royalty.Deposit` | royalty/src/lib.rs:211-339 | in-place deposit does exactly what its transition says: wallets, fee override, blacklist, freeze, first voucher, stake, and the maximum recorded or its record created |
| `RoyaltyProgram.Royalty.RemoveStake` | royalty/src/lib.rs:399-415 | the token transfer and both debits change together as specified, on whichever voucher was passed |
| `RoyaltyProgram.Royalty.UpdateRecords` | royalty/src/lib.rs:417-443 | computes the maximum from the wallets as first read, then writes both records, creating what is missing |
| `RoyaltyProgram.Royalty.Withdraw` | royalty/src/lib.rs:354-446 | in-place withdrawal with any voucher of the user does exactly what its transition says, recording the remaining weight and the maximum |
| `RoyaltyProgram.Royalty.Claim` | royalty/src/lib.rs:674-708 | in-place claim does exactly what its transition says |
| `RoyaltyProgram.Royalty.SyncWeightRecord` | royalty/src/lib.rs:721-782 | in-place weight synchronisation does exactly what its transition says, for the owner and for stakers with any of their vouchers |
| `RoyaltyProgram.Royalty.Open` | royalty/src/lib.rs:554-622 | starting a distribution in place pays the commissions of the overridden fees and records totals and amount as specified |
| `RoyaltyProgram.Royalty.PayVoucher` | royalty/src/lib.rs:626-645 | one turn of the loop writes voucher and lamports in place exactly as one specified payment, on a local copy of the distribution |
| `RoyaltyProgram.Royalty.PayVouchers` | royalty/src/lib.rs:626-645 | the loop over a batch computes exactly the recursive payment of the batch, including its first error |
| `RoyaltyProgram.Royalty.Finish` | royalty/src/lib.rs:647-668 | the rent assertion and the completion test, storing the state |
| `RoyaltyProgram.Royalty.Distribute` | royalty/src/lib.rs:534-669 | in-place distribution does exactly what its transition says |
| `RoyaltyProgram.Royalty.Process` | royalty/src/lib.rs:53-108 | every instruction as a transaction is one step of the model: what a failed one has already written is rolled back |
| `RoyaltyEffects.SynchronisationEffect` | royalty/src/lib.rs:737-779 | a synchronisation records wallet plus vault for the owner and otherwise the balance of the voucher passed, and as maximum the stake, the vault and the owner's wallet; the funder pays for the records that were missing and nothing else changes |
| `RoyaltyEffects.WithdrawalEffect` | royalty/src/lib.rs:399-443 | a withdrawal moves the tokens to the user, debits stake and voucher, records what the voucher still holds and the new maximum; the funder pays for missing records and nothing else changes |
| `RoyaltyEffects.DepositEffect` | royalty/src/lib.rs:244-336 | a deposit moves the tokens in, credits stake and voucher, leaves a host fee of 2.5% and no other in the settings, and records stake plus vault plus owner's wallet as maximum; the funder pays for voucher and record if missing |
| `RoyaltyEffects.ClaimEffect` | royalty/src/lib.rs:685-702 | a claim moves everything above rent to the user and nothing else |
| `RoyaltyEffects.FirstDistributeEffect` | royalty/src/lib.rs:554-668 | the call that starts a distribution, account by account: of what lies above R + 2 the host gets 2.5% rounded half up, the owner nothing, the named vouchers their shares of the rest; totals, drop indices, time stamps and the distribution are as the source leaves them |
| `RoyaltyEffects.HostGetsTheCommission` | royalty/src/lib.rs:578-622 | in particular starting pays the host exactly that commission and no other system account anything, and adds have - R - 1 and D to the two totals |
| `RoyaltyEffects.LaterDistributeEffect` | royalty/src/lib.rs:626-668 | later calls pay the named vouchers their shares out of the state account, and nobody else |
| `RoyaltyEffects.DepositRefusals` | royalty/src/lib.rs:215-267 | which error refuses a deposit, in order |
| `RoyaltyEffects.WithdrawRefusals` | royalty/src/lib.rs:358-397 | which error refuses a withdrawal, in order |
| `RoyaltyEffects.StartRefusals` | royalty/src/lib.rs:560-573 | which error refuses to start a distribution |
| `RoyaltyEffects.PaymentRefusals` | royalty/src/lib.rs:629-639 | which error refuses to pay a voucher, in order |
| `RoyaltyInvariant.RunKeepsOrder` | royalty/src/lib.rs:211-782 | over every run: all vouchers are counted, the stake wallet and the recorded maximum cover `tokens_held`, drop indices match the phase with `seen_vouchers` counting those ahead and short of all, rents are kept |
| `RoyaltyInvariant.RunKeepsInvariant` | royalty/src/lib.rs:211-782 | over every run whose withdrawals and synchronisations are passed vouchers of this state, also: balances sum to `tokens_held` and cover the recorded weights |
| `RoyaltyInvariant.ForeignVoucherKeepsInvariantIff` | royalty/src/lib.rs:359-361 | a step passed a voucher of another state keeps the invariant exactly when it takes nothing out and the recorded weight is covered by the stake here |
| `RoyaltyInvariant.VotesNeverExceedMaximum` | royalty/src/lib.rs:737-779 | in every state reached with vouchers of this state recorded staker weights sum to at most `tokens_held`, which is at most the staking wallet and the recorded maximum |
| `RoyaltyInvariant.ClaimAlwaysPays` | royalty/src/lib.rs:685-702 | a claim never fails, pays everything above rent and leaves exactly the rent |
| `RoyaltyInvariant.StartShape` | royalty/src/lib.rs:554-619 | starting leaves the state account with R + 2 + D lamports and touches no voucher |
| `RoyaltyInvariant.PayOneEffect` | royalty/src/lib.rs:626-645 | one payment: one eligible voucher, one payout moved, one drop further, everything else frozen |
| `RoyaltyInvariant.PayBatchFrozen` | royalty/src/lib.rs:626-645 | a batch changes only lamports, drop indices and the seen counter, which grows by the batch size |
| `RoyaltyInvariant.AllSeen` | royalty/src/lib.rs:655-663 | as many seen as vouchers means every voucher is one drop ahead, so closing restores the idle phase |
| `RoyaltyAccounting.BatchEffect` | royalty/src/state.rs:146-148 | a successful batch names distinct unpaid vouchers; exactly those advance and receive their payout |
| `RoyaltyAccounting.DistributePays` | royalty/src/lib.rs:626-668 | a distribute step pays each named voucher its share of the amount and advances exactly the named vouchers |
| `RoyaltyAccounting.EveryVoucherPaidOncePerDrop` | royalty/src/lib.rs:534-669 | over every run each voucher was paid exactly once for every drop since it was opened, in order, however vouchers were batched |
| `RoyaltyPayouts.DistributionAccuracy` | royalty/src/state.rs:153-173 | n vouchers holding all tokens receive at most D + n/2 and more than D - n(1/2 + D/10^12); any part of them at most D plus half their number |
| `RoyaltyPayouts.LamportsAreAccountedFor` | royalty/src/lib.rs:560-653 | over every run, while distributing, the state account holds R + 2 + D less what was paid plus what was donated since the start |
| `RoyaltyPayouts.DistributeConservesLamports` | royalty/src/lib.rs:584-645 | distributing conserves lamports over state, owner, host and vouchers |
| `RoyaltyProgress.FrozenWhileDistributing` | royalty/src/lib.rs:265-267 | while a distribution runs deposits and withdrawals fail and no other instruction changes balances, counts or the amount |
| `RoyaltyProgress.DistributeAdvances` | royalty/src/lib.rs:626-668 | distributing keeps the snapshot and the amount, and each payment brings completion one closer |
| `RoyaltyProgress.BatchingIsIrrelevant` | royalty/src/lib.rs:624-668 | two batches in turn have the same outcome as their concatenation, down to the error |
| `RoyaltyProgress.BatchCanBeSplit` | royalty/src/lib.rs:624-668 | a batch that goes through could have been sent in two parts |
| `RoyaltyProgress.BatchSucceedsIffPayable` | royalty/src/lib.rs:626-645 | distinct unpaid vouchers can be paid exactly when tokens are staked, each share is at most one, the index can grow and the lamports cover the payouts |
| `RoyaltyProgress.CompletesIff` | royalty/src/lib.rs:626-668 | in every reachable state paying the remaining vouchers in any order completes the distribution exactly when tokens are staked, each share is at most one, the index can grow and lamports cover rent and payouts |
| `RoyaltyProgress.CompletionDependsOnOvershoot` | royalty/src/lib.rs:641-653 | while balances add up, completion takes only a stake, an index that can grow, and payouts exceeding D by at most two lamports plus donations |
| `RoyaltyProgress.FiveVouchersAlwaysComplete` | royalty/src/lib.rs:576-653 | along every run with vouchers of this state a distribution over at most five vouchers can always be completed |
| `RoyaltyProgress.RentAssertionFailsIffOvershoot` | royalty/src/lib.rs:647-653 | the rent assertion fires exactly when payouts overshoot D by more than two lamports and donations |
| `RoyaltyProgress.RentAssertionHoldsForFive` | royalty/src/lib.rs:647-653 | while balances add up it never fires with at most five vouchers, whatever the batch |
| `RoyaltyProgress.EightEqualStakesGetStuck` | royalty/src/lib.rs:576-653 | eight equal stakes and an amount 4 above a multiple of 8 cannot be completed without a donation of two lamports |
| `RoyaltyProgress.StartsIff` | royalty/src/lib.rs:554-622 | a distribution starts exactly when the excess reaches the minimum and both totals fit, with the stated amount |
| `RoyaltyProgress.PayOneSucceedsIff` | royalty/src/lib.rs:638-646 | an unpaid voucher can be paid exactly when tokens are staked, its share is at most one, the index can grow and the lamports are there |
| `RoyaltyProgress.UnpayableVoucherNeverEnds` | royalty/src/state.rs:153-166 | a voucher holding so much more than `tokens_held` that its share exceeds one keeps its distribution open over every run |
| `RoyaltyProgress.NothingStakedNeverEnds` | royalty/src/state.rs:159 | a distribution begun with nothing staked and a voucher open never ends |
| `RoyaltyStaking.WithdrawSucceedsIff` | royalty/src/lib.rs:354-443 | with a supply of 64 bits a withdrawal succeeds exactly without open votes and distribution, for an amount covered by the voucher passed and by `tokens_held` that leaves nothing or the minimum, with all wallets there, free or existing records, and the rents to create them |
| `RoyaltyStaking.StakersCanLeave` | royalty/src/lib.rs:354-443 | in every idle state reached with vouchers of this state a staker can withdraw everything exactly when no votes are open, the wallets exist and the records can be written |
| `RoyaltyStaking.SyncSucceedsIff` | royalty/src/lib.rs:721-782 | a synchronisation succeeds exactly with a voucher or for the owner, when both wallets exist and both records can be written |
| `RoyaltyStaking.DepositSucceedsIff` | royalty/src/lib.rs:211-336 | a deposit succeeds exactly outside distributions, for others than owner and host, with the wallets and tokens, a voucher or a free address for it, a maximum record or a free address for it, and the rents of what is missing |
| `RoyaltyStaking.DepositsSucceed` | royalty/src/lib.rs:265-336 | from any initial state in which the funder can pay for the vouchers and the maximum record, the first users all enrol, with exactly their stakes on the books |
| `RoyaltyRecords.StepStaysBlocked` | royalty/src/lib.rs:846-864 | no instruction takes lamports from the address of a missing record or voucher, and one that would create an account at an address with lamports fails |
| `RoyaltyRecords.WeightRecordLamportsBlockLeaving` | royalty/src/lib.rs:424-433 | lamports on the address of a missing weight record make every later withdrawal and synchronisation of that user fail, over every run |
| `RoyaltyRecords.MaximumRecordLamportsBlockStaking` | royalty/src/lib.rs:328-336 | lamports on the address of the missing maximum record make every later deposit, withdrawal and synchronisation fail |
| `RoyaltyRecords.VoucherLamportsBlockJoining` | royalty/src/lib.rs:269-284 | lamports on the address of a missing voucher make every later deposit of that user fail |
| `RoyaltyStuck.OvershootNeverCompletes` | royalty/src/lib.rs:626-668 | a distribution whose payouts exceed its amount by more than two lamports plus all donations is still running after every run, however batched |
| `RoyaltyStuck.SixStakesOvershoot` | royalty/src/state.rs:153-173 | six stakes of 1, 1, 1, 3, 5 and 5 sixteenths overshoot an amount 8 above a multiple of 16 by three lamports |
| `RoyaltyStuck.SixStakersGetStuck` | royalty/src/lib.rs:211-669 | from every initial state that lets six such users stake and pay all rents and opens such an amount: all of it succeeds, and no run without a donation completes the distribution |
| `RoyaltyStuck.StartedDistributionGetsStuck` | royalty/src/lib.rs:534-669 | the same on a concrete run from initialisation, so five is the largest number of vouchers that is always safe |
| `RoyaltyStuck.EightEqualStakesNeverComplete` | royalty/src/lib.rs:626-668 | eight equal stakes and an amount 4 above a multiple of 8 are never completed with less than two donated lamports |
| `RoyaltyStuck.EmptiedRoyaltyNeverEnds` | royalty/src/state.rs:159 | from initialisation, a deposit, a full withdrawal and a distribution lead to one that no run ends |
| `RoyaltyStuck.LamportOnRecordLocksStake` | royalty/src/lib.rs:846-864 | from initialisation, a deposit and one lamport sent to the address of the weight record: every later attempt of the staker to leave fails |
| `RoyaltyStuck.ForeignWeightExceedsMaximum` | royalty/src/lib.rs:742-751 | from initialisation, a deposit and a synchronisation with a voucher of another state record more weight than the maximum |
| `RoyaltyStuck.ForeignWithdrawalFreezes` | royalty/src/lib.rs:359-415 | from initialisation, a deposit, a withdrawal with a voucher of another state and a distribution over the one voucher left, which no run completes |
| `RoundState.WithdrawWindow` | round/src/state.rs:123-148 | bids can be taken back exactly after a rejection, or while pending up to the end of bidding or once the heir timed out, unsigned only from the end of bidding on |
| `RoundState.HeirAndUsersTakeTurns` | round/src/state.rs:80-202 | the heir's window touches those of contributors and withdrawals at one instant only, and after it ends exactly one side can act |
| `RoundState.WithdrawErrorsAreSwapped` | round/src/state.rs:128-134 | accepted rounds answer a withdrawal with the error for reconciliations and the other way round, unlike the property test |
| `RoundState.TimeoutBeyondClock` | round/src/state.rs:166-174 | a timeout that overflows blocks settling, withdrawing and closing a pending round |
| `RoundState.RedeemAmountAccuracy` | round/src/state.rs:205-223 | an amount exists exactly when there was something to bid for, never exceeds the offer, and is within the stated rounding of the exact share |
| `RoundState.PinnedRedemptions` | round/src/state.rs:265-304 | the five rows of the repository's table |
| `RoundProgram.SaleRound.Create` | round/src/lib.rs:37-86 | creation succeeds as its transition says and establishes the invariant with nothing donated |
| `RoundProgram.SaleRound.Contribute` | round/src/lib.rs:89-155 | in-place contribution does exactly what its transition says |
| `RoundProgram.SaleRound.AddToVoucher` | round/src/lib.rs:122-154 | the amount is added to the voucher, which is recorded and counted the first time; both additions are checked |
| `RoundProgram.SaleRound.Unwrap` | round/src/lib.rs:573-622 | the temporary wallet is opened, filled and closed to the current payer, leaving the specified wallets and lamports |
| `RoundProgram.SaleRound.RefundBid` | round/src/lib.rs:536-636 | both refund branches compute the specified wallets and lamports, step by step |
| `RoundProgram.SaleRound.GiveBack` | round/src/lib.rs:164-173 | the refund, the counter and the closed voucher, as specified |
| `RoundProgram.SaleRound.Withdraw` | round/src/lib.rs:158-192 | in-place withdrawal does exactly what its transition says |
| `RoundProgram.SaleRound.RejectBid` | round/src/lib.rs:314-339 | in-place rejection of one bid does exactly what its transition says |
| `RoundProgram.SaleRound.SendBids` | round/src/lib.rs:638-712 | both branches of handing over the bids |
| `RoundProgram.SaleRound.Accept` | round/src/lib.rs:194-225 | in-place acceptance records both balances, hands over the bids and then decides, exactly as its transition says |
| `RoundProgram.SaleRound.RecordOffchainContribution` | round/src/lib.rs:228-274 | counts an off-chain contribution once per user |
| `RoundProgram.SaleRound.FinishReconciliation` | round/src/lib.rs:276-291 | reconciliation ends in acceptance |
| `RoundProgram.SaleRound.Reject` | round/src/lib.rs:293-312 | in-place rejection does exactly what its transition says |
| `RoundProgram.SaleRound.Redeem` | round/src/lib.rs:342-379 | in-place redemption does exactly what its transition says |
| `RoundProgram.SaleRound.CloseWallets` | round/src/lib.rs:477-513 | the offer goes home and both wallets are closed, as specified |
| `RoundProgram.SaleRound.Cancel` | round/src/lib.rs:382-452 | in-place cancellation does exactly what its transition says |
| `RoundProgram.SaleRound.Close` | round/src/lib.rs:454-522 | in-place closing does exactly what its transition says |
| `RoundProgram.SaleRound.Process` | round/src/lib.rs:33-534 | every instruction as a transaction is one step of the model: what a failed one has already written is rolled back |
| `RoundEffects.CreateSucceedsIff` | round/src/lib.rs:37-81 | a round is created exactly with a delegated offer that is there, an interval and none of its wallets; the offer is then in the offer wallet and everything else as stated |
| `RoundEffects.ContributeSucceedsIff` | round/src/lib.rs:89-152 | a contribution goes through exactly from the start to the end of bidding with delegated tokens that are there; it moves them to the bid wallet and into the voucher, whose first payer stays |
| `RoundEffects.RefundSucceedsIff` | round/src/lib.rs:158-192 | a bid is taken back exactly while withdrawals are open and there is somewhere to pay to; exactly that bid is repaid |
| `RoundEffects.RejectBidSucceedsIff` | round/src/lib.rs:314-339 | the heir turns a bid down exactly in the decision window when there is somewhere to pay to; exactly that bid is repaid |
| `RoundEffects.AcceptSucceedsIff` | round/src/lib.rs:638-712 | the heir accepts exactly in the window; native bids go to the recipient as lamports and the wallet's rent to the payer, token bids to the recipient's wallet, both totals are recorded, and the status is reconciliation exactly if asked for |
| `RoundEffects.RejectSucceedsIff` | round/src/lib.rs:293-301 | the heir rejects exactly in the window with both wallets there; the whole offer is then in the return wallet, the offer wallet is empty, and only the status changes besides |
| `RoundEffects.RecordSucceedsIff` | round/src/lib.rs:228-274 | off-chain contributions are recorded exactly while reconciling, and counted once per user |
| `RoundEffects.FinishSucceedsIff` | round/src/lib.rs:276-291 | a reconciliation, and nothing else, is finished by turning into an acceptance |
| `RoundEffects.RedeemNeedsAcceptance` | round/src/lib.rs:342-368 | a redemption happens only in an accepted round and moves offer tokens from the offer wallet to the wallet named, and between no others |
| `RoundEffects.EndingEffect` | round/src/lib.rs:477-513 | closing and cancelling send the offer home, remove both wallets, and pay the round's payer their rents and the wrapped SOL left over, and nobody else |
| `RoundEffects.ContributeRefusals` | round/src/state.rs:96-107 | which error refuses a contribution |
| `RoundEffects.DecisionRefusals` | round/src/state.rs:80-94 | which error refuses the heir's decision |
| `RoundEffects.WithdrawRefusals` | round/src/state.rs:123-148 | which error refuses to give a bid back |
| `RoundEffects.EndingRefusals` | round/src/state.rs:176-202 | which error refuses closing, cancelling and redeeming |
| `RoundInvariant.RunKeepsInvariant` | round/src/lib.rs:120-173 | over every run `vouchers_count` is the number of on-chain and off-chain vouchers, and until acceptance the bid wallet holds exactly the live contributions plus donations |
| `RoundInvariant.CounterIsSound` | round/src/lib.rs:168-173 | no decrement underflows, and zero or a closed round means no voucher of either kind is left |
| `RoundInvariant.RefundEffect` | round/src/lib.rs:536-636 | both refund branches move exactly the voucher's amount to its user, leave every other balance and the temporary wallet as before, and the current payer net unchanged |
| `RoundInvariant.ContributeEffect` | round/src/lib.rs:105-152 | a contribution moves the delegated amount and adds it to a voucher that is counted when new |
| `RoundInvariant.CloseAllEffect` | round/src/lib.rs:477-513 | closing adds the whole offer to the return wallet and removes both wallets |
| `RoundInvariant.RunRespectsPhases` | round/src/state.rs:57-67 | statuses only move forward, terms and recorded totals stay, time and closing are irreversible |
| `RoundInvariant.RefundAndRedemptionExclude` | round/src/state.rs:123-181 | after acceptance no run ever refunds or rejects, after rejection none redeems or accepts |
| `RoundConservation.StepConserves` | round/src/lib.rs:536-779 | every instruction conserves offer tokens, bid tokens, and bids, lamports and locked rents together |
| `RoundConservation.RunConserves` | round/src/lib.rs:37-522 | so does every run without outsiders |
| `RoundRedemption.RedeemEffect` | round/src/lib.rs:342-368 | a redemption pays exactly what the bid is worth and consumes the voucher |
| `RoundRedemption.RedeemSucceedsIff` | round/src/lib.rs:342-368 | after a late acceptance a voucher can be redeemed exactly when the round is accepted and no longer under reconciliation, something was bid and the offer wallet covers its worth |
| `RoundRedemption.RedemptionsAreFair` | round/src/lib.rs:201-202 | after an acceptance later than the end of bidding: redeemed and live bids add up to the accepted contributions, within `total_bid`; each payout is a fair share; k payouts total at most `total_offer` + k/2 |
| `RoundRedemption.EverybodyRedeemsIff` | round/src/lib.rs:342-368 | all vouchers can be redeemed in any order exactly when the offer wallet covers their worths together |
| `RoundRedemption.SpareTokensServeEverybody` | round/src/lib.rs:342-368 | half a token per voucher beyond `total_offer` is always enough |
| `RoundRedemption.LastRedeemerBlocked` | round/src/state.rs:217-222 | from creation on: two bids of one token for one token, and whoever redeems second can neither redeem nor withdraw, and the round cannot close |
| `RoundClosing.CloseSucceedsIff` | round/src/lib.rs:454-513 | in every status a round closes exactly when it may end, no voucher of either kind is left, the return wallet exists and the bid wallet is gone, wrapped SOL or empty; the whole offer then goes home |
| `RoundClosing.CancelSucceedsIff` | round/src/lib.rs:382-440 | up to the start of bidding a round is cancelled exactly without vouchers, with a return wallet and a closable bid wallet |
| `RoundClosing.OffchainBlocksClosing` | round/src/lib.rs:228-274 | a round that recorded an off-chain contribution can never be closed or cancelled |
| `RoundClosing.LeftoverBlocksClosing` | round/src/lib.rs:502-513 | once the heir has decided or timed out, tokens in a non-native bid wallet that no voucher is refunded from never shrink, and no run closes a round with any |
| `RoundClosing.LateBidBlocksClosing` | round/src/state.rs:96-107 | from creation: a bid in the second bidding ends, after the acceptance, is redeemed like every other but leaves a round without vouchers that no run ever closes |
| `RoundProgress.WithdrawSucceedsIff` | round/src/lib.rs:158-173 | past the heir's window or after a rejection an unsigned withdrawal succeeds exactly if the user's wallet exists, or for wrapped SOL the payer has the rent and the authority address holds no lamports |
| `RoundProgress.PaybacksSucceedIff` | round/src/lib.rs:536-636 | a sequence of such refunds succeeds exactly when each can be paid in its turn, counting what a payer was itself refunded before |
| `RoundProgress.UnwindingSucceedsIff` | round/src/lib.rs:158-173 | refunds of all vouchers in any order succeed exactly when each can be paid in its turn; every contributor is then repaid in full, and closing succeeds exactly for wrapped SOL or without donations |
| `RoundProgress.AuthorityLamportsBlockRefunds` | round/src/lib.rs:572-598 | once the authority address of a native round holds lamports, every later withdrawal and bid rejection fails, over every run |
| `Borsh.LittleEndianRoundTrip` | human/src/lib.rs:1822-1826 | decoding little-endian bytes returns the encoded value |
| `Borsh.LittleEndianCanonical` | human/src/lib.rs:1822-1826 | every byte string of that length is the encoding of its value |
| `Borsh.LittleEndianBytes` | human/src/lib.rs:1822-1826 | byte i of an encoding is the i-th base-256 digit of the number, the lowest first |
| `Borsh.FromLittleEndianDigits` | human/src/lib.rs:1822-1826 | byte i of what is decoded is the i-th base-256 digit of the result |
| `Layout.V4Layout` | human/src/state.rs:16-46 | an account written in the current layout has magic 0x45 and every field at its stated offset, integers little-endian and signed ones in two's complement; the bytes behind the encoding stay |
| `Layout.V4LayoutRead` | human/src/state.rs:16-46 | and what is read from an account is what lies at those offsets |
| `Layout.V3Layout` | human/src/state.rs:289-313 | the same for the old layout and magic 0x44 |
| `Layout.V3LayoutRead` | human/src/state.rs:289-313 | and for reading it |
| `Entity.RoundTrip` | common/src/entity.rs:22-56 | over any old contents, what was serialized is what is deserialized |
| `Entity.ReadsIff` | common/src/entity.rs:40-56 | reading succeeds exactly for a large enough account with the right magic and a decodable payload; each failure has its error |
| `Entity.WriteBackIsIdentity` | common/src/entity.rs:139-149 | saving an entity that was not changed changes no byte |
| `Entity.LastWriteWins` | common/src/entity.rs:22-38 | a second, shorter entity fully replaces the first |
| `Entity.SerializeTo` | common/src/entity.rs:22-38 | writes in place exactly the magic byte and the encoding over the old bytes, or fails and writes nothing |
| `Entity.InitializeEntity` | common/src/entity.rs:103-111 | refuses an initialized account and otherwise serializes |
| `Entity.EntityGuard.Open` | common/src/entity.rs:86-100 | ownership, then every deserialization error, then a working copy |
| `Entity.EntityGuard.Replace` | common/src/entity.rs:86-149 | opening, changing and saving an entity succeeds exactly for an owned, readable account and a fitting entity, which is then read back; otherwise no byte changes |
| `Entity.EntityGuard.Drop` | common/src/entity.rs:139-149 | saves the working copy exactly when it fits; it reads back equal, and an unchanged one leaves the bytes alone |
| `Migration.V4IsLawful` | human/src/state.rs:16-46 | the current layout round-trips in front of any bytes and only its own encodings can be read |
| `Migration.V3IsLawful` | human/src/state.rs:289-313 | so does the old layout |
| `Migration.V4Fits` | human/src/state.rs:10-12 | every state takes 219 to 299 bytes, so the size assertion cannot fail |
| `Migration.InitState` | human/src/state.rs:243-281 | succeeds exactly on a large enough zeroed account, which then reads as the given addresses, nothing sold, vesting from now, and no drop or round |
| `Migration.TryMigrateState` | human/src/state.rs:206-241 | rewrites the buffer in place as specified, or fails and leaves it alone |
| `Migration.MigrationRoundTrip` | human/src/state.rs:224-235 | migrating any readable old account succeeds, and decoding the result yields exactly the migrated state |
| `Migration.MigrationKeepsFields` | human/src/state.rs:315-347 | field by field: what migration keeps, replaces and fills in, down to the defaults of a drop in progress |
| `Migration.WrittenThenMigrated` | human/src/state.rs:206-241 | an old state written over any bytes and then migrated reads as its migration |
| `Migration.MigratesIffReadable` | human/src/state.rs:213-240 | migration succeeds exactly on current accounts and readable old ones, and repeating it changes nothing |
| `FixState.TryFixState` | human/src/lib.rs:1805-1834 | zeroes the tail in place as specified, and fails without a change on an index out of range |
| `FixState.RepairInBytes` | human/src/lib.rs:1812-1833 | in bytes: nothing changes exactly when the round tag is 0 or 1 and the little-endian count behind it is at most 1000; otherwise everything from that tag on becomes zero and everything before it stays |
| `FixState.ReadsByOffset` | human/src/lib.rs:1812-1826 | the hand-computed offsets agree with the encoder: a buffer is readable exactly when both option tags are in order, and the fields are where the repair looks |
| `FixState.RepairIsIdempotent` | human/src/lib.rs:1828-1833 | repairing twice is repairing once |
| `FixState.RepairLeavesReadableState` | human/src/lib.rs:1805-1834 | on any long enough current buffer the repair never fails, keeps all fields before the round in progress, and leaves a readable state exactly when the drop tag is in order |
| `FixState.EncodingsUntouchedIff` | human/src/lib.rs:1828-1833 | an account written by the program is left alone exactly when it has completed at most 1000 rounds; otherwise only its round fields are reset |

## Left out

- Escrow, NFT metadata, compressed NFTs, token swaps, governance votes and instruction builders: foreign programs and plumbing around the modelled ones.
- Account lists, signer and owner checks, `check_no_other_programs`, logs and events: preconditions of a step or without effect on the accounts.
- The other royalty states: a voucher of one appears only as the balance it is passed with, and what happens to it is not recorded.
- `process_migrate` of royalty and `migrate` of round: one-off copies of fields.
- Rents of voucher and round accounts when a sale round creates or closes them: their payers are assumed to have them, they are returned to recorded payers, and they touch neither bids nor offers. The rents of the two token wallets are modelled when they are closed.
- Lamports sent to a wrapped-SOL wallet without synchronising it: they never become tokens.
- The runtime's own rent check on system accounts that receive lamports, and frozen or foreign-mint token accounts.
- The case of one mint both bid and offered: the bid and the offer tokens have separate ledgers here.
- Off-chain vouchers beyond their count: no instruction redeems or closes them.
- The delegation of tokens that a contribution spends: it is a parameter of the step, with the delegated amount.
- Drop creation, admin changes, `can_repost`, `can_redeem`, `process_vest` and `process_claim_round_vesting`: short and without invariants of their own.
- RoundRedemption.RedemptionsAreFair: excludes an acceptance at the very second bidding ends, when a contribution can still follow it; the solvency results include that second.
- Entity.InitializeEntity: the account is given by its bytes, its address and owner are checked before.
- FixState.RepairLeavesReadableState: is stated for buffers of at least 300 bytes; accounts have 513.
