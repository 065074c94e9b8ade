# Verification of the staking contracts

This project models the staking contracts (`StakedToken`, `StakedTokenV2`/`V3`, `StakedTokenV2Rev3`), the
reward distribution they share with the incentives controller, and the governance power they
delegate, and proves what holds in every run of them.

**What runs.** `StakedToken.dfy` is a state machine: the storage of one proxied staking contract, the
chain's clock and block number, the staked tokens held and the rewards paid out, with one transition for
each external call. A call that reverts leaves the state as it was. A `Run` is a deployment followed by
any actions; the properties are lemmas about all runs, or about every state a run reaches. An upgrade is
an action that keeps the storage and swaps the constants of the implementation, so one run can start with
the first version's balance records, go on with delegated power, and rewind the distribution with the
third revision. `StakedTokenContract.dfy`, `DistributionManager.dfy`, `DelegationStore.dfy` and the class
in `IncentivesController.dfy` are the same contracts as classes that update their storage in place, with
the loops and the order of writes of the source; each method is proved to do exactly what the state machine does,
and `Contract` keeps its run beside its storage, so every theorem about runs holds of it after each
transaction.

**What is proved.**

- *Governance power.* Recorded powers are the sums they stand for in every state, add up to the supply,
  survive the upgrade from balance records, can be read back at past blocks exactly where stated, and never
  change in the past (`Delegation.dfy`, `Governance.dfy`).
- *Rewards.* The lazily updated index refines a payout by the second, two-sided, for each user
  (`Payout.dfy`) and in total (`Solvency.dfy`); which seconds the index updates cover and pay for, and
  exactly which runs pay for none twice (`IndexUpdates.dfy`, `Rewind.dfy`); the view and the claim agree,
  also over lists of assets with repetitions (`Claims.dfy`).
- *Withdrawals.* Nobody redeems without having announced it long enough before; merging and splitting
  stakes buys no time (`Cooldown.dfy`, `CooldownSafety.dfy`).
- *Effects.* What each call does to the whole storage in every run, down to each account, and exactly when
  cooldowns, delegations, configurations and upgrades go through (`Effects.dfy`).
- *Bookkeeping and liveness.* Balances add up to a supply that is backed (`Bookkeeping.dfy`). In every
  state of every run a stake, a redemption, a transfer, a claim and the view go through exactly on their
  own guards and where the accrual fits 256 bits; and it always fits as long as the emission so far, times
  the precision of the index, does, and totals configured for the contract are none or at least a positive
  supply (`Liveness.dfy`).
- *Incentives.* Exactly when reports and claims go through and what they accrue, pay and leave; over every
  run what accrues is claimed or still unclaimed, and what is claimed is paid, with the premium
  (`IncentivesController.dfy`).

**What is assumed of the environment** (`Possible`, `Feasible`, `ValidConfig` in `StakedToken.dfy`): time
moves forward and, like the block number, stays below 2^128; nobody calls as the zero address; the staked
token has a supply below 2^128, of which the contract cannot hold more than there is; upgrades go to
implementations that delegate; no initializer rewinds into the future; a configured rate fits its 128
bits. Two conditions on the clock are named where they matter: `RefusesUnannounced` (it is past the
cooldown period and the unstake window together, or not past the period) and `ClockAllows` (there is no
cooldown to merge into, or the clock is not younger than period and window together). Whether an external
token accepts a transfer is an input of the action. Sums are checked against 2^256 and casts to 128 bits
drop the high bits, as in the source; other arguments of calls are not bounded by 2^256, which allows more
calls than the machine does.

**How storage is written down.** Addresses are natural numbers, with 0 the zero address. A mapping reads
as zero where it has no key. The snapshots of a user and their count are one sequence. The distribution
manager and the records of each type of power, which the source inherits, are objects the contract owns.
`rewardsPaid` and `stakedTokenHeld` are the external tokens' own ledgers as far as they concern the
contract. Staking, redeeming and transferring are each written as two or three functions, and as many
methods, in the source's order.

**Where the code says more than its comments.** The comment on `getPowerAtBlock` promises the power of a
user at a block. For proposition power after an upgrade from balance records the code returns zero before
a user's first record, and the current balance while there is none. `ReadingExactIff` states for every user
with or without records, and every block, when the reading is right; `UnrecordedReadingExact` that without
records it is right from the upgrade on. `configureAssets` takes the total staked from its caller: with a
total between zero and the supply the code can give out more than the emission, and with none or one above
the supply less than the shares; `ConfiguredTotalSafeIff` and `ConfiguredTotalFullIff` state when it does
neither. A rewind can pay for seconds that were paid for before: `AtMostOnceIff` states for all runs when
none is, `RewindRepaysIff` and `RewindPaysTwiceIff` what one rewind does. A redemption needs a cooldown only
if the clock refuses who has none, as `UnannouncedGoesThroughIff` states. `Counterexamples.dfy` has runs
with wrong readings, with rewards beyond and below the emission, with a holder locked in, with a second taken
back, with a redemption nobody announced, and with seconds paid twice; all their arguments fit their types.

## Model

| member | source | states |
|---|---|---|
| Snapshots.WriteReadsBack | contracts/proposals/extend-stkaave-distribution/StakedTokenV2Rev3.sol:1372-1394 | one write keeps one entry per block in increasing order, decides every reading from its block on, and changes none at an earlier block |
| DelegationStore.Store.WriteSnapshot | contracts/proposals/extend-stkaave-distribution/StakedTokenV2Rev3.sol:1372-1394 | overwrites the entry of the current block or appends one, for the owner and nobody else |
| DelegationStore.Store.SearchByBlockNumber | contracts/proposals/extend-stkaave-distribution/StakedTokenV2Rev3.sol:1309-1347 | the binary search ends and returns what scanning back from the newest entry finds: the last value not after the block, zero before the first entry, the balance without entries; a future block reverts |
| DelegationStore.Store.MoveDelegates | contracts/proposals/extend-stkaave-distribution/StakedTokenV2Rev3.sol:1245-1300 | the in-place move does the specified move, or reverts with the same reason |
| DelegationStore.Store.DelegateByType | contracts/proposals/extend-stkaave-distribution/StakedTokenV2Rev3.sol:1219-1236 | in-place delegation does the specified delegation; the zero delegatee reverts |
| DelegationStore.Store.SnapshotBalances | contracts/lib/ERC20WithSnapshot.sol:80-104 | the first version's hook records both new balances, the outside excepted |
| Delegation.MoveKeeps | contracts/proposals/extend-stkaave-distribution/StakedTokenV2Rev3.sol:1812-1849 | moving tokens an account owns never fails in the hook, and afterwards every account's power is again the sum of the balances of its delegators; records only grow |
| Delegation.DelegateKeeps | contracts/proposals/extend-stkaave-distribution/StakedTokenV2Rev3.sol:1219-1236 | delegating to anyone succeeds and keeps every account's power equal to the sum of its delegators' balances; records only grow |
| Delegation.CreditInFullIff | contracts/proposals/extend-stkaave-distribution/StakedTokenV2Rev3.sol:1281-1298 | the cast to 128 bits records an increased power in full exactly when it fits |
| Delegation.RecordBalancesIsMove | contracts/lib/ERC20WithSnapshot.sol:80-96 | where nobody has delegated, the first version's hook does what the later hook does |
| Governance.PowersAlwaysExact | contracts/proposals/extend-stkaave-distribution/StakedTokenV2Rev3.sol:1219-1300 | in every state of every run, for both types, each account's recorded power (its balance without a record) is the sum of the balances of the accounts whose delegatee it is; records are ordered and not later than the current block |
| Governance.PowersAddUp | contracts/proposals/extend-stkaave-distribution/StakedTokenV2Rev3.sol:1245-1300 | in every state the powers of one type of all delegatees of holders sum to the supply |
| Governance.UpgradeKeepsPowers | contracts/lib/GovernancePowerWithSnapshot.sol:19-26 | in every reachable state of the first version both powers are the balance and an account without a record holds nothing; the upgrade changes no power and they are exact |
| Governance.TimeTravel | contracts/proposals/extend-stkaave-distribution/StakedTokenV2Rev3.sol:1190-1202 | `getPowerAtBlock` for any block up to now is the sum, at the end of that block, of the balances of the accounts whose delegatee was then the user |
| Governance.ReadingExactIff | contracts/proposals/extend-stkaave-distribution/StakedTokenV2Rev3.sol:1317-1331 | in any run, also an upgraded one, and for every user a reading is the true power exactly from the first record on, or where the balance at the end of the block was what the reading falls back to: zero for a recorded user, the current balance without records |
| Governance.UnrecordedReadingExact | contracts/proposals/extend-stkaave-distribution/StakedTokenV2Rev3.sol:1317-1321 | the reading of a user without records is the true power at every block from the upgrade on, and for voting power at every block |
| Counterexamples.PastPowerReadsZero | contracts/proposals/extend-stkaave-distribution/StakedTokenV2Rev3.sol:1328-1331 | a run across the upgrade in which proposition power held at the end of a block reads zero there |
| Counterexamples.PastPowerReadsBalance | contracts/proposals/extend-stkaave-distribution/StakedTokenV2Rev3.sol:1317-1321 | a run across the upgrade in which a user without power at the end of a block reads the balance acquired later |
| Governance.PastIsImmutable | contracts/proposals/extend-stkaave-distribution/StakedTokenV2Rev3.sol:1309-1394 | no continuation of a run changes a recorded user's reading at a past block |
| Distribution.IndexAtIs | contracts/stake/AaveDistributionManager.sol:212-234 | when it does not revert, the new index is the old one plus emission times the running seconds since the last update, per staked token, rounded down |
| Distribution.GainBounds | contracts/stake/AaveDistributionManager.sol:229-233 | spread over the supply an update gives out at most the emission, and loses less than one unit of index for each token |
| Distribution.RewardBounds | contracts/stake/AaveDistributionManager.sol:196-202 | accrued rewards are the user's gain rounded down by less than one unit |
| Distribution.ConfiguredTotalSafeIff | contracts/stake/AaveDistributionManager.sol:45-61 | an update under a given total never gives out more than was emitted, whatever the rate and time, exactly when the total is zero or not below the supply |
| Distribution.ConfiguredTotalFullIff | contracts/stake/AaveDistributionManager.sol:45-61 | it gives out the emission up to one unit of index for each token, whatever the rate and time, exactly when the total is positive and not above the supply; so both hold exactly at the true supply |
| Counterexamples.RewardsBeyondEmission | contracts/stake/AaveDistributionManager.sol:45-61 | for every rate of 128 bits, a run in which it is emitted for one second and, after a configuration with half the supply, twice of it is owed |
| Counterexamples.RewardsBelowEmission | contracts/stake/AaveDistributionManager.sol:45-61 | the same run with no total, after which nothing is owed, and with twice the supply, after which half is |
| Distribution.PokeIndependence | contracts/stake/AaveDistributionManager.sol:76-99 | if one update succeeds, so do k updates up to the same time, and they leave the index at most where it would and less than k below, also across the end of the distribution |
| DistributionManager.Manager.UpdateAssetStateInternal | contracts/stake/AaveDistributionManager.sol:76-99 | the stored index and time after an update, the index returned, no write when already updated this second |
| DistributionManager.Manager.UpdateUserAssetInternal | contracts/stake/AaveDistributionManager.sol:109-131 | the asset and the user's index after an update and the rewards returned, or the same revert |
| DistributionManager.Manager.ConfigureAssets | contracts/stake/AaveDistributionManager.sol:45-67 | only the emission manager; the loop updates each asset before changing its rate, and stops at the first failure |
| DistributionManager.Manager.ClaimRewards | contracts/stake/AaveDistributionManager.sol:139-157 | the loop's sum and storage are those of the assets updated one after the other |
| DistributionManager.Manager.GetUnclaimedRewards | contracts/stake/AaveDistributionManager.sol:165-187 | the loop's sum over untouched storage, or the first revert |
| Claims.ClaimIsDistinctView | contracts/stake/AaveDistributionManager.sol:139-187 | for every list, repeated or not, claiming accrues exactly what the view over the distinct assets shows, and reverts exactly when it does |
| Claims.ViewAgainstClaim | contracts/stake/AaveDistributionManager.sol:139-187 | over distinct assets claim and view agree; over any list the claim is at most the view |
| Claims.UnclaimedIs | contracts/stake/AaveDistributionManager.sol:165-187 | the view over any list is the sum of the floored gains of its stakes, and reverts exactly when an index, a gain or the sum does not fit 256 bits |
| Rewards.ConfigureIs | contracts/stake/AaveDistributionManager.sol:45-67 | a configuration of any list succeeds exactly when the indexes of the assets it names fit, and makes of each asset what its first total and its last rate say, and nothing of any other |
| Cooldown.MergeCreatesNoSeniority | contracts/stake/StakedTokenV2.sol:278-310 | received tokens move a running cooldown forward, never past now, and never below the weighted average of both times, up to rounding |
| Cooldown.MergeIsAverage | contracts/stake/StakedTokenV2.sol:278-310 | the merged time is zero if there was none or it had expired, the old one if the senders' time is earlier, and otherwise the weighted average of both rounded down, where an expired sender counts from now; `MergedIsUnique`: no other time is |
| Cooldown.ExpiredAgreesWithRedeem | contracts/stake/StakedTokenV2.sol:289-309 | a cooldown is cleared by a merge exactly when `redeem` would refuse it as too old; when never having started counts as too old, and when as started |
| Cooldown.RedeemWindowIff | contracts/stake/StakedTokenV2.sol:146-155 | the window is open exactly from the second after start and cooldown period to the end of the unstake window after it; before that and after it each has its own reason |
| Cooldown.SplittingBuysNoTime | contracts/stake/StakedTokenV2.sol:295-307 | merging an amount in k pieces gives a time at most that of merging it at once, and less than k seconds earlier |
| CooldownSafety.StakingInPiecesBuysNoTime | contracts/stake/StakedTokenV2.sol:120-137 | the same for k stakes against one stake in any reachable state |
| CooldownSafety.OthersOnlyDelay | contracts/stake/StakedTokenV2.sol:222-232 | no action but the user's own `cooldown` starts the user's cooldown or moves it back; each leaves it zero or between its old value and now |
| CooldownSafety.RedeemWasAnnounced | contracts/stake/StakedTokenV2.sol:144-183 | where the clock refuses who has no cooldown, whoever redeems has called `cooldown`, and more than the cooldown period has passed since the latest such call |
| Bookkeeping.BooksHold | contracts/lib/ERC20.sol:160-193 | in every state balances sum to the supply, the contract holds at least as many staked tokens, no cooldown lies in the future and only holders have one |
| Bookkeeping.AverageSucceedsIff | contracts/stake/StakedTokenV2.sol:286-306 | in every such state, for amounts that fit with the balance in 128 bits, the next cooldown can be computed exactly when there is none yet or the clock is not younger than period and window: the average neither divides by zero nor overflows |
| Solvency.IndexesWellFormed | contracts/stake/AaveDistributionManager.sol:76-131 | in every state no user index is ahead of its asset, no update lies in the future, an emitting asset has been updated; no step decreases an index |
| IndexUpdates.IndexFrozenAfterEnd | contracts/stake/AaveDistributionManager.sol:218-225 | once updated at or past the end, the index, the end and the implementation stay in every continuation of the run without an upgrade |
| IndexUpdates.OneImplementationCovers | contracts/stake/AaveDistributionManager.sol:212-234 | in every run under one implementation the index updates cover each second from the first timestamp to the last update or the end exactly once, and no other |
| Solvency.ViewRevertsOnlyOnOverflow | contracts/stake/AaveDistributionManager.sol:196-234 | in every state neither subtraction nor division of the view can fail |
| Solvency.ViewShowsPending | contracts/stake/StakedTokenV2.sol:317-326 | the view is what is claimable plus the pending amount that the bounds on all rewards speak of |
| Solvency.RewardsWithinEmission | contracts/stake/StakedTokenV2.sol:120-262 | over every run, across upgrades and rewinds, rewards paid, claimable and pending are at most the emission, if totals configured for the contract are zero or not below the supply; a second counts when it passes and whenever an upgrade makes it payable |
| Solvency.RewardsNearEmission | contracts/stake/AaveDistributionManager.sol:45-131 | with true totals they fall short by at most one unit for each accrual and each account with a balance and a unit of index for each staked token at each update |
| Solvency.TakesNothingBackIff | contracts/proposals/extend-stkaave-distribution/StakedTokenV2Rev3.sol:1544-1547 | the condition on the timestamps under which an upgrade leaves every payable second payable |
| Counterexamples.SecondTakenBack | contracts/stake/AaveDistributionManager.sol:218-225 | a run in which a second is emitted and, after an upgrade to an earlier end, nothing is owed |
| Solvency.ClaimPaysView | contracts/stake/StakedTokenV2.sol:190-200 | claiming everything succeeds exactly when the view does and the token accepts, pays exactly the view and leaves nothing claimable |
| Liveness.IndexWithinBudget | contracts/stake/AaveDistributionManager.sol:212-234 | over every run with totals that are none or at least a positive supply, the index and what it can still gain are at most the emission, at the precision of the index |
| Liveness.EmissionFits | contracts/stake/AaveDistributionManager.sol:196-234 | while that emission fits 256 bits they always fit, for every account |
| Liveness.ViewSucceedsIff | contracts/stake/StakedTokenV2.sol:317-326 | in every state the view reverts exactly when the new index, the gain or its sum with what is claimable does not fit 256 bits |
| Liveness.RedeemGoesThroughIff | contracts/stake/StakedTokenV2.sol:144-171 | in every state a redemption goes through exactly when the amount is not zero, the time is later than cooldown and cooldown period and not later than those and the window, the accrual fits and the token accepts: records, casts, backing and subtraction never stop it |
| Liveness.AnnouncedGetsOut | contracts/stake/StakedTokenV2.sol:144-183 | after `cooldown` by a holder and blocks that take longer than the cooldown period and not longer than it and the window, a redemption of any amount goes through where the accrual fits |
| Liveness.UnannouncedGoesThroughIff | contracts/stake/StakedTokenV2.sol:146-156 | that of a user who never called `cooldown` exactly when the accrual fits and the clock is past the cooldown period and not past the window after it |
| Counterexamples.RedeemsUnannounced | contracts/stake/StakedTokenV2.sol:146-156 | a run in which a staker redeems at once without a call of `cooldown` |
| Liveness.TransferGoesThroughIff | contracts/stake/StakedTokenV2.sol:208-236 | a transfer exactly when both ends exist, the balance suffices, the clock allows a merge and both accruals fit: hook, casts and average never stop it |
| Liveness.StakeGoesThroughIff | contracts/stake/StakedTokenV2.sol:120-137 | a stake exactly when the amount is not zero and exists, the recipient exists, the token accepts, the clock allows a merge and the accrual fits |
| Liveness.ClaimGoesThroughIff | contracts/stake/StakedTokenV2.sol:190-200 | a claim exactly when the accrual fits, it asks for everything or for no more than the view shows, and the token accepts |
| Counterexamples.HolderLockedIn | contracts/stake/AaveDistributionManager.sol:196-202 | after a configuration with a total of one, at a rate and a stake of 128 bits whose product is large, every redemption of the holder reverts, although the window is open and the emission fits 256 bits |
| Effects.CooldownStarts | contracts/stake/StakedTokenV2.sol:177-183 | in every run `cooldown` goes through exactly for accounts with a balance, sets their cooldown to now, which is not zero, and does nothing else |
| Effects.StakeDoes | contracts/stake/StakedTokenV2.sol:120-137 | what a stake does to the whole storage in every run: balances, supply, delegatees, indexes, claimable rewards and the merged cooldown |
| Effects.RedeemDoes | contracts/stake/StakedTokenV2.sol:144-171 | what a redemption does: at most the balance leaves, what was gained becomes claimable, and the cooldown ends with the last token |
| Effects.RedeemRefused | contracts/stake/StakedTokenV2.sol:146-155 | outside the window the reason says on which side of it the clock is |
| Effects.ZeroIsRefused | contracts/stake/StakedTokenV2.sol:145 | nothing is staked or redeemed for an amount of zero |
| Effects.TransferDoes | contracts/stake/StakedTokenV2.sol:208-236 | what a transfer does, also to oneself: both accruals, both balances, the recipient's merged and the sender's cleared cooldown |
| Effects.ClaimDoes | contracts/stake/StakedTokenV2.sol:190-200 | what a claim does: the amount, or everything gained, is paid to the account and the rest stays claimable |
| Effects.DelegateGoesThroughIff | contracts/proposals/extend-stkaave-distribution/StakedTokenV2Rev3.sol:1219-1236 | in every run delegating goes through exactly to anyone but the zero address, oneself included, under an implementation that delegates; the delegatee is then the one named, and the balance has gone from the power of the old one to that of the new one |
| Effects.ConfigureGoesThroughIff | contracts/stake/AaveDistributionManager.sol:45-67 | in every run a configuration goes through exactly for the emission manager and where the indexes fit; it changes the assets named as stated, and nothing else |
| Effects.UpgradeGoesThroughIff | contracts/proposals/extend-stkaave-distribution/StakedTokenV2Rev3.sol:1526-1547 | an upgrade goes through exactly to a higher revision; it swaps the implementation and, if that rewinds, sets the last update of the contract's asset to 1620594720 |
| Effects.RoundingInNumbers | contracts/stake/AaveDistributionManager.sol:196-234 | the rounding of the index and of an account's rewards with the precision written out, eighteen decimals |
| Effects.WordsInNumbers | contracts/proposals/extend-stkaave-distribution/StakedTokenV2Rev3.sol:1281-1298 | words have 128 and 256 bits, and the cast of a power keeps the low 128 |
| Payout.LazyIndexIsFair | contracts/stake/AaveDistributionManager.sol:76-131 | a user's rewards never exceed the exact rational shares of all seconds, and fall short by less than one unit for each accrual and the pending amount, and the balance at the index's precision for each update |
| Rewind.AtMostOnceIff | contracts/proposals/extend-stkaave-distribution/StakedTokenV2Rev3.sol:1544-1547 | in every run, whatever it configures and upgrades to, no second is paid for (or covered) twice exactly when no index update that pays (or covers) starts before the end of the latest second, below its own end, that was paid for (or covered) before |
| Rewind.NoSecondPaidTwice | contracts/proposals/extend-stkaave-distribution/StakedTokenV2Rev3.sol:943-966 | in every run in which no rewind goes back before the end of the latest second covered (or paid for), each second is covered (or paid for) by at most one index update, and not payable again |
| Rewind.EndedIsClean | contracts/proposals/extend-stkaave-distribution/StakedTokenV2Rev3.sol:943-966 | rewinds are such if at every one all earlier distributions had ended by its timestamp, whatever was upgraded to in between |
| Rewind.RewindRepaysIff | contracts/proposals/extend-stkaave-distribution/StakedTokenV2Rev3.sol:1544-1547 | in any run, a rewind makes a second payable that was covered (or paid for) before exactly when it goes back before the end of the latest such second before now and the new end |
| Rewind.RewindPaysTwiceIff | contracts/proposals/extend-stkaave-distribution/StakedTokenV2Rev3.sol:1544-1547 | if none was counted twice before, the first index update after a rewind, whenever it comes, counts some second twice exactly when the rewind goes back before the end of the latest second counted below the end of that update |
| Counterexamples.SecondsPaidTwice | contracts/proposals/extend-stkaave-distribution/StakedTokenV2Rev3.sol:1544-1547 | a run in which a staker is paid 20 for twenty seconds and, at the same time, 10 again after a rewind over ten of them |
| Rewind.RewindExtendsBudget | contracts/proposals/extend-stkaave-distribution/StakedTokenV2Rev3.sol:1526-1547 | a rewind to where the old distribution had ended and the new one had not extends the emission by the rate for each second from the rewind to now or the new end, and by nothing else |
| Rewind.EmissionCountsEntries | contracts/stake/AaveDistributionManager.sol:212-234 | what an action adds to the emission is the rate for each second that passes or becomes payable by it |
| Rewind.BudgetedOnceIff | contracts/proposals/extend-stkaave-distribution/StakedTokenV2Rev3.sol:1544-1547 | in every run each second of the clock enters the emission at most once exactly when, at every upgrade while there are stakers, the last second that entered before the end of a range it opens, before or after what was payable, lies before that range |
| Rewind.BudgetedOnce | contracts/proposals/extend-stkaave-distribution/StakedTokenV2Rev3.sol:1544-1547 | if no rewind goes back over covered seconds and no upgrade takes a payable one back, every second of the clock enters the emission at most once |
| Counterexamples.SecondBudgetedTwice | contracts/proposals/extend-stkaave-distribution/StakedTokenV2Rev3.sol:1544-1547 | a run in which an upgrade takes a second back and another gives it back, so that it enters the emission twice although the index never rose |
| Rewind.InitializersRunOnce | contracts/proposals/extend-stkaave-distribution/StakedTokenV2Rev3.sol:854-861 | after an initializer has run, no later state lets it or one of an earlier revision run again |
| StakedTokenContract.Contract.constructor | contracts/stake/StakedTokenV2.sol:76-96 | a deployment, also of an implementation that rewinds, starts the empty run |
| StakedTokenContract.Contract.BeforeTokenTransfer | contracts/stake/StakedTokenV2.sol:383-427 | both powers move between the delegatees before any balance does, or balances are recorded in the first version |
| StakedTokenContract.Contract.MoveTokens | contracts/lib/ERC20.sol:160-173 | balances after a transfer, also to oneself, with the hook before them |
| StakedTokenContract.Contract.Mint | contracts/lib/ERC20.sol:175-183 | balance and supply after minting |
| StakedTokenContract.Contract.Burn | contracts/lib/ERC20.sol:185-193 | balance and supply after burning |
| StakedTokenContract.Contract.UpdateCurrentUnclaimedRewards | contracts/stake/StakedTokenV2.sol:245-262 | what is unclaimed, written only when asked to and when something accrued |
| StakedTokenContract.Contract.GetTotalRewardsBalance | contracts/stake/StakedTokenV2.sol:317-326 | the view, which in any state of the contract reverts only on overflow |
| StakedTokenContract.Contract.Stake | contracts/stake/StakedTokenV2.sol:120-137 | the whole state after a stake, or the same revert |
| StakedTokenContract.Contract.Redeem | contracts/stake/StakedTokenV2.sol:144-171 | the whole state after a redemption, clamped to the balance, or the same revert |
| StakedTokenContract.Contract.StartCooldown | contracts/stake/StakedTokenV2.sol:177-183 | the cooldown starts now, for holders only |
| StakedTokenContract.Contract.ClaimRewards | contracts/stake/StakedTokenV2.sol:190-200 | what is paid and what stays claimable, or the same revert |
| StakedTokenContract.Contract.Transfer | contracts/stake/StakedTokenV2.sol:208-236 | the whole state after a transfer: both accruals, the merged and the cleared cooldown, balances and powers |
| StakedTokenContract.Contract.DelegateByType | contracts/proposals/extend-stkaave-distribution/StakedTokenV2Rev3.sol:1142-1144 | one type's records and delegates change, the other's stay |
| StakedTokenContract.Contract.UpgradeTo | contracts/proposals/extend-stkaave-distribution/StakedTokenV2Rev3.sol:1526-1547 | storage stays, constants change, the third revision rewinds the distribution, an old revision reverts |
| StakedTokenContract.Contract.Execute | contracts/stake/StakedTokenV2.sol:120-262 | a transaction does exactly one step or, reverting, nothing; afterwards the storage is again that of the run, with exact powers, sound books and indexes; where the clock refuses who has no cooldown, a redemption was announced |
| StakedTokenContract.Contract.GetPowerAtBlock | contracts/proposals/extend-stkaave-distribution/StakedTokenV2Rev3.sol:1190-1202 | the binary search on the contract's storage returns the true power at the end of the block |
| IncentivesController.LedgerBalances | contracts/stake/AaveIncentivesController.sol:67-77 | over every run, whatever the assets report, what accrued to a user is what was claimed plus what is unclaimed |
| IncentivesController.PaidAtMostPremium | contracts/stake/AaveIncentivesController.sol:140-149 | over every run a user is paid at most the claims and the premium on them |
| IncentivesController.StakedClaimsPayPremium | contracts/stake/AaveIncentivesController.sol:143-146 | if every claim was staked the payments fall short of it by less than one unit for each claim |
| IncentivesController.PaidExactly | contracts/stake/AaveIncentivesController.sol:140-149 | over every run, whichever claims were staked, a user is paid exactly what was claimed and the floored premium on each staked claim |
| IncentivesController.UnstakedClaimsPayExactly | contracts/stake/AaveIncentivesController.sol:147-149 | who never staked a claim is paid exactly what was claimed |
| IncentivesController.ClaimTakesView | contracts/stake/AaveIncentivesController.sol:84-141 | a claim, staked or not, succeeds only if the view over the distinct assets does, and takes the smaller of the amount asked for and what that shows; unstaked and accepted it always succeeds then |
| IncentivesController.HandleActionIs | contracts/stake/AaveIncentivesController.sol:67-77 | in every run a report goes through exactly when the new index, the gain and its sum with what is unclaimed fit; it brings the asset to now under the reported supply, settles the user, and accrues the floored gain of the reported balance to nobody else |
| IncentivesController.ClaimIs | contracts/stake/AaveIncentivesController.sol:110-153 | in every run a claim of a positive amount goes through exactly when the gains of the distinct assets and their sum fit and, unless there is nothing, the premium fits and the token accepts; it claims the smaller of the amount and what there is, pays that and the premium if staked, and leaves the rest |
| IncentivesController.ClaimOfNothing | contracts/stake/AaveIncentivesController.sol:116-118 | a claim of zero changes and pays nothing |
| IncentivesController.RewardsBalanceIs | contracts/stake/AaveIncentivesController.sol:84-101 | the view over any list is what is unclaimed and the floored gain of each stake, and reverts exactly when one or the sum does not fit |
| IncentivesController.ConfiguredIs | contracts/stake/AaveDistributionManager.sol:45-67 | a configuration goes through exactly for the emission manager and where the indexes fit, and changes the assets named as stated |
| IncentivesController.Controller.HandleAction | contracts/stake/AaveIncentivesController.sol:67-77 | the ledger after an asset reports an action, or the same revert |
| IncentivesController.Controller.GetRewardsBalance | contracts/stake/AaveIncentivesController.sol:84-101 | the view: unclaimed plus not yet accrued |
| IncentivesController.Controller.ClaimRewards | contracts/stake/AaveIncentivesController.sol:110-153 | the ledger after a claim and the amount paid, premium included; nothing happens for a zero amount |

## Left out

- Governance.TimeTravel: does not claim proposition power for runs that start with the first version, because it is false there; `ReadingExactIff` states exactly when a reading is right.
- Payout.LazyIndexIsFair: both sides need true totals in `configureAssets` and upgrades that take no payable second back; without them the code can pay more or less than the shares, as `ConfiguredTotalSafeIff`, `ConfiguredTotalFullIff` and `TakesNothingBackIff` say.
- Rewind.NoSecondPaidTwice: clean rewinds suffice and are easy to check, but are not necessary; `AtMostOnceIff` gives the exact condition for all runs.
- Rewind.BudgetedOnce: sufficient conditions that are easy to check; `BudgetedOnceIff` gives the exact one. That no second is paid twice is not enough, as the run of `SecondBudgetedTwice` shows.
- CooldownSafety.RedeemWasAnnounced: assumes that the clock refuses who has no cooldown, because it is false otherwise; `UnannouncedGoesThroughIff` says so exactly, and `RedeemsUnannounced` has a run.
- `delegate`, which is two `delegateByType` calls in one transaction, is two actions in the same block.
- Allowances, `transferFrom`, names, symbols, decimals and events: they touch nothing the properties speak of.
- Signatures (`permit`, `delegateBySig`, `delegateByTypeBySig`): they end in the delegation step that is modelled.
- The governance contract's `onTransfer` hook is a trusted contract and taken to do nothing; calls back into the staking contract are not part of this model.
- Proxies, admin rights and storage slots: an upgrade is an action anybody's administrator may take.
- `totalSupplyAt`, which ignores its block argument.
- The return value of the reward token's `transferFrom` in the incentives controller, which the code ignores: a payment either goes through or reverts the claim.
- What the assets of the incentives controller report is an input; nothing is assumed of it.
- `StakedTokenBptV2Rev2` and `StakedTokenV3` are not written down a second time: they are the same machine with other constants.
- Deployment, proposals, user-interface helpers and the TypeScript tooling.
