/** Runs in which promises fail: that a past power can be read back, that as much is given out as
    is emitted, that a holder gets out and nobody else does, and that no second is paid for twice. */
module Counterexamples {
  import opened Evm
  import opened Sums
  import opened Distribution
  import opened Cooldown
  import opened Snapshots
  import opened Delegation
  import opened StakedToken
  import opened Arithmetic
  import opened Rewards
  import opened Solvency
  import opened Governance
  import opened CooldownSafety
  import opened IndexUpdates
  import opened Rewind
  import opened Liveness

  const SELF: Address := 100
  const MANAGER: Address := 200
  const CONFIG := Config(SELF, MANAGER, UINT128 - 1)

  // ---------- proposition power after an upgrade ----------

  const FIRST := Implementation(1, false, false, Terms(0, 0), 0)
  const SECOND := Implementation(2, true, false, Terms(0, 0), 0)

  function Waited(block: nat): Run {
    if block == 0 then Deploy(FIRST, 1, 0) else After(Deploy(FIRST, 1, 0), NextBlock(1))
  }

  /** Account `u` stakes under the first version. */
  function Staked(u: Address, block: nat): Run {
    After(Waited(block), Stake(u, 1, true))
  }

  function StakedState(u: Address, block: nat): State {
    State(1 + block, block, FIRST, 1, map[u := 1], 1, map[SELF := AssetData(0, 1 + block, 0, map[])],
          map[], map[], map[u := 0], DelegationData(map[u := [Snapshot(block, 1)]], map[]), NO_DELEGATION, 1)
  }

  lemma WaitedIs(block: nat)
    requires block <= 1
    ensures Feasible(CONFIG, Waited(block))
    ensures Final(CONFIG, Waited(block))
         == State(1 + block, block, FIRST, 1, map[], 0, map[], map[], map[], map[], NO_DELEGATION, NO_DELEGATION, 0)
  {
  }

  lemma NothingAccruesAtFirst(s: State, u: Address)
    requires s.assets == map[] && 0 < s.now < UINT128
    ensures AccrueBeforeStake(CONFIG, s, u) == Ok(s.(assets := map[SELF := AssetData(0, s.now, 0, map[])]))
  {
  }

  lemma StakedIs(u: Address, block: nat)
    requires u != ZERO && block <= 1
    ensures Feasible(CONFIG, Staked(u, block))
    ensures Final(CONFIG, Staked(u, block)) == StakedState(u, block)
  {
    var s, t := Final(CONFIG, Waited(block)), StakedState(u, block);
    WaitedIs(block);
    NothingAccruesAtFirst(s, u);
    var s1 := s.(assets := map[SELF := AssetData(0, 1 + block, 0, map[])]);
    var s2 := s1.(stakersCooldowns := map[u := 0]);
    assert Write([], block, 1) == [Snapshot(block, 1)];
    assert RecordBalances(map[], NO_DELEGATION, block, ZERO, u, 1) == Ok(t.voting);
    assert BeforeTokenTransfer(s2, ZERO, u, 1) == Ok((t.voting, NO_DELEGATION));
    assert Mint(s2, u, 1) == Ok(t.(stakedTokenHeld := 0));
    assert StakeStep(CONFIG, s, u, 1, true) == Ok(t);
  }

  function Upgraded(s: State): State {
    s.(impl := SECOND, lastInitializedRevision := 2)
  }

  lemma NothingAccrues(s: State, last: nat, u: Address)
    requires s.assets == map[SELF := AssetData(0, last, 0, map[])]
    requires s.now < UINT128 && s.stakerRewardsToClaim == map[]
    ensures UpdateCurrentUnclaimedRewards(CONFIG, s, u, true)
         == Ok((s.(assets := map[SELF := AssetData(0, s.now, 0, map[])]), 0))
  {
    assert s.assets[SELF := AssetData(0, s.now, 0, map[])] == map[SELF := AssetData(0, s.now, 0, map[])];
  }

  lemma MoveOn(s: State, u: Address, v: Address)
    requires u != v && u != ZERO && v != ZERO
    requires s.impl == SECOND && s.block == 1 && s.balances == map[u := 1] && s.proposition == NO_DELEGATION
    requires s.voting == StakedState(u, 0).voting
    ensures MoveTokens(s, u, v, 1).Ok?
    ensures MoveTokens(s, u, v, 1).value.block == 1
    ensures History(MoveTokens(s, u, v, 1).value.proposition.snapshots, u) == [Snapshot(1, 0)]
  {
    assert Write([], 1, 0) == [Snapshot(1, 0)];
    assert History(Record(s.voting, 1, u, 0).snapshots, v) == [];
    assert History(Record(s.proposition, 1, u, 0).snapshots, v) == [];
  }

  lemma SendOn(s: State, u: Address, v: Address)
    requires u != v && u != ZERO && v != ZERO
    requires s == Upgraded(StakedState(u, 0)).(now := 2, block := 1)
    ensures TransferStep(CONFIG, s, u, v, 1).Ok?
    ensures TransferStep(CONFIG, s, u, v, 1).value.block == 1
    ensures History(TransferStep(CONFIG, s, u, v, 1).value.proposition.snapshots, u) == [Snapshot(1, 0)]
  {
    var s1 := s.(assets := map[SELF := AssetData(0, 2, 0, map[])]);
    NothingAccrues(s, 1, u);
    NothingAccrues(s1, 2, v);
    var s2 := s1.(stakersCooldowns := s1.stakersCooldowns[v := 0]);
    assert TransferStep(CONFIG, s, u, v, 1) == MoveTokens(s2, u, v, 1);
    MoveOn(s2, u, v);
  }

  /** Upgraded in the block of the stake, and all of it sent on in the next one. */
  function SentOn(u: Address, v: Address): Run {
    After(UpgradedLater(u), Transfer(u, v, 1))
  }

  lemma UpgradedIs(u: Address)
    requires u != ZERO
    ensures var r := After(Staked(u, 0), Upgrade(SECOND));
      Feasible(CONFIG, r) && Final(CONFIG, r) == Upgraded(StakedState(u, 0))
  {
    StakedIs(u, 0);
  }

  function UpgradedLater(u: Address): Run {
    After(After(Staked(u, 0), Upgrade(SECOND)), NextBlock(1))
  }

  lemma UpgradedLaterIs(u: Address)
    requires u != ZERO
    ensures var r := UpgradedLater(u);
      && Feasible(CONFIG, r)
      && Final(CONFIG, r) == Upgraded(StakedState(u, 0)).(now := 2, block := 1)
      && StateAt(CONFIG, r, 0).balances == map[u := 1]
  {
    UpgradedIs(u);
    assert StateAt(CONFIG, UpgradedLater(u), 0) == StateAt(CONFIG, After(Staked(u, 0), Upgrade(SECOND)), 0);
  }

  lemma {:induction false} SentFrom(r: Run, u: Address, v: Address)
    requires u != v && u != ZERO && v != ZERO
    requires Feasible(CONFIG, r) && Final(CONFIG, r) == Upgraded(StakedState(u, 0)).(now := 2, block := 1)
    ensures var q := After(r, Transfer(u, v, 1));
      && Feasible(CONFIG, q) && Final(CONFIG, q).block == 1
      && RecordOf(CONFIG, q, PropositionPower, u) == [Snapshot(1, 0)]
      && StateAt(CONFIG, q, 0) == StateAt(CONFIG, r, 0)
  {
    SendOn(Final(CONFIG, r), u, v);
  }

  lemma SentOnRecord(u: Address, v: Address)
    requires u != v && u != ZERO && v != ZERO
    ensures Feasible(CONFIG, SentOn(u, v))
    ensures Final(CONFIG, SentOn(u, v)).block == 1
    ensures RecordOf(CONFIG, SentOn(u, v), PropositionPower, u) == [Snapshot(1, 0)]
    ensures StateAt(CONFIG, SentOn(u, v), 0).balances == map[u := 1]
  {
    UpgradedLaterIs(u);
    SentFrom(UpgradedLater(u), u, v);
  }

  /** Account `u` had its power at the end of block 0, and the reading there is zero. */
  lemma PastPowerReadsZero(u: Address, v: Address)
    requires u != v && u != ZERO && v != ZERO
    ensures Feasible(CONFIG, SentOn(u, v))
    ensures GetPowerAtBlock(Final(CONFIG, SentOn(u, v)), PropositionPower, u, 0) == Ok(0)
    ensures TruePower(StateAt(CONFIG, SentOn(u, v), 0), PropositionPower, u) == 1
  {
    SentOnRecord(u, v);
    ReadingExactIff(CONFIG, SentOn(u, v), PropositionPower, u, 0);
    OwnPowerBefore(CONFIG, SentOn(u, v), PropositionPower, u, 0);
  }

  lemma StartedAtZero(u: Address)
    requires u != ZERO
    ensures StateAt(CONFIG, Staked(u, 1), 0) == Final(CONFIG, Deploy(FIRST, 1, 0))
  {
    WaitedIs(1);
    StakedIs(u, 1);
    assert StateAt(CONFIG, Staked(u, 1), 0) == StateAt(CONFIG, Waited(1), 0);
    assert StateAt(CONFIG, Waited(1), 0) == StateAt(CONFIG, Deploy(FIRST, 1, 0), 0);
  }

  /** Account `u` had no power at the end of block 0, and the reading there is what it got later. */
  lemma PastPowerReadsBalance(u: Address)
    requires u != ZERO
    ensures var r := After(Staked(u, 1), Upgrade(SECOND));
      && Feasible(CONFIG, r)
      && GetPowerAtBlock(Final(CONFIG, r), PropositionPower, u, 0) == Ok(1)
      && TruePower(StateAt(CONFIG, r, 0), PropositionPower, u) == 0
  {
    var r := After(Staked(u, 1), Upgrade(SECOND));
    StakedIs(u, 1);
    assert Final(CONFIG, r) == Upgraded(StakedState(u, 1));
    StartedAtZero(u);
    assert StateAt(CONFIG, r, 0) == StateAt(CONFIG, Staked(u, 1), 0);
    ReadingExactIff(CONFIG, r, PropositionPower, u, 0);
    OwnPowerBefore(CONFIG, r, PropositionPower, u, 0);
  }

  // ---------- one staker ----------

  const TERMS := Terms(10, 1000)
  const START: nat := 100
  const PAYING := Implementation(1, true, false, TERMS, 1000)

  function SoleStaker(impl: Implementation, now: nat, u: Address, stake: nat): Run {
    After(Deploy(impl, now, 0), Stake(u, stake, true))
  }

  /** Account `u` staked everything there is, nothing was claimed, and the distribution is as given. */
  ghost predicate Sole(s: State, impl: Implementation, now: nat, u: Address, stake: nat, a: AssetData) {
    && s.now == now && s.impl == impl && s.lastInitializedRevision == impl.revision
    && s.balances == map[u := stake] && s.totalSupply == stake
    && s.assets == map[SELF := a]
    && s.rewardsPaid == map[] && s.stakerRewardsToClaim == map[] && s.stakersCooldowns == map[u := 0]
  }

  lemma SoleStakerIs(impl: Implementation, now: nat, u: Address, stake: nat)
    requires u != ZERO && 0 < stake < UINT128 && impl.hasDelegation && !impl.rewinds && 0 < now < UINT128
    ensures var r := SoleStaker(impl, now, u, stake);
      && Feasible(CONFIG, r) && Final(CONFIG, r).block == 0 && Budget(CONFIG, r) == 0
      && Sole(Final(CONFIG, r), impl, now, u, stake, AssetData(0, now, 0, map[]))
  {
    var s := Final(CONFIG, Deploy(impl, now, 0));
    var s1 := s.(assets := map[SELF := AssetData(0, now, 0, map[])]);
    NothingAccruesAtFirst(s, u);
    var s2 := s1.(stakersCooldowns := map[u := 0]);
    assert Mint(s2, u, stake).Ok?;
    assert StakeStep(CONFIG, s, u, stake, true).Ok?;
    assert Budget(CONFIG, Deploy(impl, now, 0)) == 0;
  }

  /** A rate from here on, with `total` given as the total staked. */
  function Configuration(rate: nat, total: nat): Action {
    ConfigureAssets(MANAGER, [AssetConfigInput(rate, total, SELF)])
  }

  lemma Configures(s: State, rate: nat, total: nat, a: AssetData, index: nat)
    requires s.assets == map[SELF := a] && s.now < UINT128
    requires UpdateState(s.now, s.impl.distributionEnd, a, total)
      == Ok(a.(index := index, lastUpdateTimestamp := s.now))
    ensures Step(CONFIG, s, Configuration(rate, total))
         == Ok(s.(assets := map[SELF := AssetData(rate, s.now, index, a.users)]))
  {
    var c, b := AssetConfigInput(rate, total, SELF), a.(index := index, lastUpdateTimestamp := s.now);
    assert s.assets[SELF := b] == map[SELF := b];
    assert UpdateAsset(s.now, s.impl.distributionEnd, s.assets, SELF, total) == Ok(map[SELF := b]);
    assert map[SELF := b][SELF := b.(emissionPerSecond := rate)] == map[SELF := b.(emissionPerSecond := rate)];
    assert [c][..0] == [];
    assert Configure(s.now, s.impl.distributionEnd, s.assets, [c])
      == ConfigureOne(s.now, s.impl.distributionEnd, s.assets, c);
  }

  function Emitting(impl: Implementation, now: nat, u: Address, stake: nat, rate: nat): Run {
    After(SoleStaker(impl, now, u, stake), Configuration(rate, stake))
  }

  lemma EmittingIs(impl: Implementation, now: nat, u: Address, stake: nat, rate: nat)
    requires u != ZERO && 0 < stake < UINT128 && impl.hasDelegation && !impl.rewinds && 0 < now < UINT128
    requires rate < UINT128
    ensures var r := Emitting(impl, now, u, stake, rate);
      && Feasible(CONFIG, r) && Final(CONFIG, r).block == 0 && Budget(CONFIG, r) == 0
      && Sole(Final(CONFIG, r), impl, now, u, stake, AssetData(rate, now, 0, map[]))
  {
    SoleStakerIs(impl, now, u, stake);
    Configures(Final(CONFIG, SoleStaker(impl, now, u, stake)), rate, stake, AssetData(0, now, 0, map[]), 0);
  }

  function EmittingFor(impl: Implementation, now: nat, u: Address, stake: nat, rate: nat, seconds: nat): Run {
    After(Emitting(impl, now, u, stake, rate), NextBlock(seconds))
  }

  lemma EmittingForIs(impl: Implementation, now: nat, u: Address, stake: nat, rate: nat, seconds: nat)
    requires u != ZERO && 0 < stake < UINT128 && impl.hasDelegation && !impl.rewinds && 0 < now < UINT128
    requires rate < UINT128 && 0 < seconds && now + seconds < UINT128
    ensures var r := EmittingFor(impl, now, u, stake, rate, seconds);
      && Feasible(CONFIG, r) && Budget(CONFIG, r) == rate * Window(now, now + seconds, impl.distributionEnd)
      && Sole(Final(CONFIG, r), impl, now + seconds, u, stake, AssetData(rate, now, 0, map[]))
  {
    EmittingIs(impl, now, u, stake, rate);
    RunningIsWindow(now, seconds, impl.distributionEnd);
  }

  lemma SecondEmitted(u: Address, stake: nat, rate: nat)
    requires u != ZERO && 0 < stake < UINT128 && rate < UINT128
    ensures var r := EmittingFor(PAYING, START, u, stake, rate, 1);
      && Feasible(CONFIG, r) && Budget(CONFIG, r) == rate
      && Sole(Final(CONFIG, r), PAYING, START + 1, u, stake, AssetData(rate, START, 0, map[]))
  {
    EmittingForIs(PAYING, START, u, stake, rate, 1);
    assert rate * Window(START, START + 1, 1000) == rate;
  }

  lemma SoleRewards(s: State, impl: Implementation, now: nat, u: Address, stake: nat, a: AssetData)
    requires Sole(s, impl, now, u, stake, a) && a.users == map[]
    ensures AllRewards(CONFIG, s) == stake * IndexNow(CONFIG, s) / PRECISION
  {
    assert s.balances.Keys == {u};
    SumSingle({u}, PendingNow(CONFIG, s), u);
    assert Total(map[]) == 0 by {
      SumZero({}, Amounts(map[]));
    }
  }

  // ---------- configured totals ----------

  /** A second later the rate is configured again, with some total. */
  function Reconfigured(u: Address, stake: nat, rate: nat, total: nat): Run {
    After(EmittingFor(PAYING, START, u, stake, rate, 1), Configuration(rate, total))
  }

  lemma RateFits(rate: nat, total: nat)
    requires rate < UINT128
    ensures rate * 1 * PRECISION < UINT256 && Gain(rate, 1, total) < UINT256
  {
    MulLe(PRECISION, rate, UINT128);
    GainWithinEmission(rate, 1, total);
  }

  lemma SecondLater(rate: nat, total: nat)
    requires rate < UINT128
    ensures UpdateState(START + 1, 1000, AssetData(rate, START, 0, map[]), total)
         == Ok(AssetData(rate, START + 1, Gain(rate, 1, total), map[]))
  {
    RateFits(rate, total);
    UpdateStateSucceedsIff(START + 1, 1000, AssetData(rate, START, 0, map[]), total);
    UpdateStateIs(START + 1, 1000, AssetData(rate, START, 0, map[]), total);
  }

  lemma ReconfiguredIs(u: Address, stake: nat, rate: nat, total: nat)
    requires u != ZERO && 0 < stake < UINT128 && rate < UINT128
    ensures var r := Reconfigured(u, stake, rate, total);
      && Feasible(CONFIG, r) && Budget(CONFIG, r) == rate
      && Sole(Final(CONFIG, r), PAYING, START + 1, u, stake, AssetData(rate, START + 1, Gain(rate, 1, total), map[]))
      && IndexNow(CONFIG, Final(CONFIG, r)) == Gain(rate, 1, total)
  {
    SecondEmitted(u, stake, rate);
    SecondLater(rate, total);
    var s := Final(CONFIG, EmittingFor(PAYING, START, u, stake, rate, 1));
    Configures(s, rate, total, AssetData(rate, START, 0, map[]), Gain(rate, 1, total));
    IndexAlreadyNow(CONFIG, Final(CONFIG, Reconfigured(u, stake, rate, total)));
  }

  /** With half the supply as the total, the rate of one second is emitted and twice that is owed. */
  lemma RewardsBeyondEmission(u: Address, rate: nat)
    requires u != ZERO && 0 < rate < UINT128
    ensures var r := Reconfigured(u, 2, rate, 1);
      Feasible(CONFIG, r) && Budget(CONFIG, r) == rate && AllRewards(CONFIG, Final(CONFIG, r)) == 2 * rate
  {
    ReconfiguredIs(u, 2, rate, 1);
    SoleRewards(Final(CONFIG, Reconfigured(u, 2, rate, 1)), PAYING, START + 1, u, 2,
      AssetData(rate, START + 1, Gain(rate, 1, 1), map[]));
  }

  /** With none nothing is owed, and with twice the supply half of it. */
  lemma RewardsBelowEmission(u: Address, rate: nat)
    requires u != ZERO && 0 < rate < UINT128
    ensures var r := Reconfigured(u, 2, rate, 0);
      Feasible(CONFIG, r) && Budget(CONFIG, r) == rate && AllRewards(CONFIG, Final(CONFIG, r)) == 0
    ensures var r := Reconfigured(u, 2, rate, 4);
      Feasible(CONFIG, r) && Budget(CONFIG, r) == rate && AllRewards(CONFIG, Final(CONFIG, r)) == rate / 2
  {
    ReconfiguredIs(u, 2, rate, 0);
    SoleRewards(Final(CONFIG, Reconfigured(u, 2, rate, 0)), PAYING, START + 1, u, 2,
      AssetData(rate, START + 1, Gain(rate, 1, 0), map[]));
    ReconfiguredIs(u, 2, rate, 4);
    SoleRewards(Final(CONFIG, Reconfigured(u, 2, rate, 4)), PAYING, START + 1, u, 2,
      AssetData(rate, START + 1, Gain(rate, 1, 4), map[]));
    assert Gain(rate, 1, 4) == rate * (PRECISION / 4);
  }

  /** With a rate and a stake large enough the holder is locked in: every redemption reverts, although
      the window is open and the emission fits. */
  lemma HolderLockedIn(u: Address, stake: nat, rate: nat, to: Address, amount: nat, accepts: bool)
    requires u != ZERO && 0 < stake < UINT128 && rate < UINT128
    requires UINT256 <= stake * (rate * PRECISION)
    ensures var r := Reconfigured(u, stake, rate, 1);
      && Feasible(CONFIG, r) && Budget(CONFIG, r) * PRECISION < UINT256
      && MayRedeem(Final(CONFIG, r), u)
      && Step(CONFIG, Final(CONFIG, r), Redeem(u, to, amount, accepts)).Revert?
  {
    RateFits(rate, 1);
    ReconfiguredIs(u, stake, rate, 1);
    RedeemGoesThroughIff(CONFIG, Reconfigured(u, stake, rate, 1), u, to, amount, accepts);
    assert !AccrualFits(CONFIG, Final(CONFIG, Reconfigured(u, stake, rate, 1)), u);
  }

  /** There are such a rate and such a stake. */
  lemma SuchHolderExists()
    ensures exists stake: nat, rate: nat ::
      0 < stake < UINT128 && rate < UINT128 && UINT256 <= stake * (rate * PRECISION)
  {
    var stake: nat, rate: nat := UINT128 - 1, UINT128 - 1;
    assert UINT256 <= stake * (rate * PRECISION);
  }

  // ---------- upgrades that take seconds back ----------

  const CUT := Implementation(2, true, false, TERMS, START)
  const RESTORED := Implementation(3, true, false, TERMS, 1000)

  /** A second is emitted, and then cut off by an upgrade to an earlier end. */
  function TakenBack(u: Address, rate: nat): Run {
    After(EmittingFor(PAYING, START, u, 1, rate, 1), Upgrade(CUT))
  }

  /** The emitted second becomes payable if the old end had cut it off and the new one does not. */
  lemma PayableAgain(s: State, impl: Implementation, n: nat)
    requires UpgradeStep(CONFIG, s, impl).Ok? && !impl.rewinds
    requires s.now == START + 1 && LastUpdate(CONFIG, s) == START
    requires n == if START < impl.distributionEnd && s.impl.distributionEnd <= START then 1 else 0
    ensures CountSeconds(START + 1, NewlyPayable(CONFIG, s, UpgradeStep(CONFIG, s, impl).value)) == n
  {
    var t := UpgradeStep(CONFIG, s, impl).value;
    forall x: nat
      ensures NewlyPayable(CONFIG, s, t)(x) <==> START <= x < START + n
    {
      PayableIs(CONFIG, s, x);
      PayableIs(CONFIG, t, x);
    }
    CountInterval(START + 1, NewlyPayable(CONFIG, s, t), START, START + n);
  }

  lemma {:induction false} SoleUpgrades(
      r: Run, from: Implementation, impl: Implementation, u: Address, rate: nat, n: nat)
    requires Feasible(CONFIG, r) && from.revision < impl.revision && impl.hasDelegation && !impl.rewinds
    requires Sole(Final(CONFIG, r), from, START + 1, u, 1, AssetData(rate, START, 0, map[]))
    requires n == if START < impl.distributionEnd && from.distributionEnd <= START then 1 else 0
    ensures var q := After(r, Upgrade(impl));
      && Feasible(CONFIG, q) && Budget(CONFIG, q) == Budget(CONFIG, r) + rate * n
      && Sole(Final(CONFIG, q), impl, START + 1, u, 1, AssetData(rate, START, 0, map[]))
  {
    PayableAgain(Final(CONFIG, r), impl, n);
  }

  lemma NothingOwed(s: State, u: Address, rate: nat)
    requires Sole(s, CUT, START + 1, u, 1, AssetData(rate, START, 0, map[]))
    ensures AllRewards(CONFIG, s) == 0
  {
    NoGain(rate, 1);
    assert IndexNow(CONFIG, s) == 0;
    SoleRewards(s, CUT, START + 1, u, 1, AssetData(rate, START, 0, map[]));
  }

  /** The rate of a second is emitted and, after the upgrade, nothing is owed. */
  lemma SecondTakenBack(u: Address, rate: nat)
    requires u != ZERO && 0 < rate < UINT128
    ensures var r := TakenBack(u, rate);
      && Feasible(CONFIG, r) && Budget(CONFIG, r) == rate && AllRewards(CONFIG, Final(CONFIG, r)) == 0
      && Sole(Final(CONFIG, r), CUT, START + 1, u, 1, AssetData(rate, START, 0, map[]))
  {
    var r := EmittingFor(PAYING, START, u, 1, rate, 1);
    SecondEmitted(u, 1, rate);
    SoleUpgrades(r, PAYING, CUT, u, rate, 0);
    NothingOwed(Final(CONFIG, After(r, Upgrade(CUT))), u, rate);
  }

  /** Another upgrade gives it back, so that it enters the budget twice, although the index was never
      raised. */
  lemma SecondBudgetedTwice(u: Address, rate: nat)
    requires u != ZERO && 0 < rate < UINT128
    ensures var r := After(TakenBack(u, rate), Upgrade(RESTORED));
      && Feasible(CONFIG, r) && Final(CONFIG, r).now == START + 1
      && Budget(CONFIG, r) == 2 * rate && SelfAsset(CONFIG, Final(CONFIG, r)).index == 0
  {
    SecondTakenBack(u, rate);
    SoleUpgrades(TakenBack(u, rate), CUT, RESTORED, u, rate, 1);
  }

  // ---------- a redemption nobody announced ----------

  /** Where the clock is past the cooldown period but not past the window, a staker redeems at once. */
  lemma RedeemsUnannounced(u: Address, to: Address)
    requires u != ZERO
    ensures var r := SoleStaker(PAYING, START, u, 1);
      && Feasible(CONFIG, r) && LastCooldown(CONFIG, r, u) == Never
      && Step(CONFIG, Final(CONFIG, r), Redeem(u, to, 1, true)).Ok?
  {
    var r := SoleStaker(PAYING, START, u, 1);
    SoleStakerIs(PAYING, START, u, 1);
    assert LastCooldown(CONFIG, Deploy(PAYING, START, 0), u) == Never;
    IndexAlreadyNow(CONFIG, Final(CONFIG, r));
    UnannouncedGoesThroughIff(CONFIG, r, u, to, 1);
  }

  // ---------- seconds paid twice ----------

  const RUNNING := Implementation(1, true, false, TERMS, REWIND_TIMESTAMP + 100)
  const REWINDING := Implementation(2, true, true, TERMS, REWIND_TIMESTAMP + 1000)

  const CLAIM_ALL: nat := UINT256 - 1

  lemma ClaimPays(s: State, u: Address)
    requires Ready(CONFIG, s) && AccrualFits(CONFIG, s, u)
    ensures ClaimStep(CONFIG, s, u, CLAIM_ALL, true).Ok?
    ensures var t := ClaimStep(CONFIG, s, u, CLAIM_ALL, true).value;
      && Get(t.rewardsPaid, u) == Get(s.rewardsPaid, u) + Get(s.stakerRewardsToClaim, u) + PendingNow(CONFIG, s)(u)
      && Get(t.stakerRewardsToClaim, u) == 0
  {
    UpdateSucceedsIff(CONFIG, s, u, false);
    ViewIsAccrual(CONFIG, s, u);
    ViewShowsPending(CONFIG, s, u);
  }

  lemma ClaimSettles(s: State, u: Address)
    requires Ready(CONFIG, s) && ClaimStep(CONFIG, s, u, CLAIM_ALL, true).Ok?
    ensures var t := ClaimStep(CONFIG, s, u, CLAIM_ALL, true).value;
      && SameEnvironment(s, t) && SameTokens(s, t)
      && var a := SelfAsset(CONFIG, t);
         && a.emissionPerSecond == SelfAsset(CONFIG, s).emissionPerSecond && a.lastUpdateTimestamp == s.now
         && a.index == IndexNow(CONFIG, s) == Get(a.users, u)
  {
    ClaimParts(CONFIG, s, u, CLAIM_ALL, true);
    AccruePreserves(CONFIG, s, u);
  }

  /** What claiming everything does, as far as it goes here. */
  lemma ClaimsAll(s: State, u: Address, pending: nat)
    requires Ready(CONFIG, s) && AccrualFits(CONFIG, s, u)
    requires Get(s.stakerRewardsToClaim, u) == 0 && PendingNow(CONFIG, s)(u) == pending
    ensures ClaimStep(CONFIG, s, u, CLAIM_ALL, true).Ok?
    ensures var t := ClaimStep(CONFIG, s, u, CLAIM_ALL, true).value;
      && SameEnvironment(s, t) && SameTokens(s, t)
      && Get(t.rewardsPaid, u) == Get(s.rewardsPaid, u) + pending && Get(t.stakerRewardsToClaim, u) == 0
      && var a := SelfAsset(CONFIG, t);
         && a.emissionPerSecond == SelfAsset(CONFIG, s).emissionPerSecond && a.lastUpdateTimestamp == s.now
         && a.index == IndexNow(CONFIG, s) == Get(a.users, u)
  {
    ClaimPays(s, u);
    ClaimSettles(s, u);
  }

  /** A token staked ten seconds before the timestamp of the rewind, a rate of one, and a claim
      ten seconds after it. */
  function PaidOnce(u: Address): Run {
    After(EmittingFor(RUNNING, REWIND_TIMESTAMP - 10, u, 1, 1, 20), ClaimRewards(u, u, CLAIM_ALL, true))
  }

  lemma NothingPaidYet(u: Address)
    requires u != ZERO
    ensures Times(CONFIG, Paid, EmittingFor(RUNNING, REWIND_TIMESTAMP - 10, u, 1, 1, 20), REWIND_TIMESTAMP) == 0
  {
    var now := REWIND_TIMESTAMP - 10;
    var r := Deploy(RUNNING, now, 0);
    SoleStakerIs(RUNNING, now, u, 1);
    PayableIs(CONFIG, Final(CONFIG, r), REWIND_TIMESTAMP);
    TimesAfter(CONFIG, Paid, r, Stake(u, 1, true), REWIND_TIMESTAMP);
    var q := SoleStaker(RUNNING, now, u, 1);
    PayableIs(CONFIG, Final(CONFIG, q), REWIND_TIMESTAMP);
    TimesAfter(CONFIG, Paid, q, Configuration(1, 1), REWIND_TIMESTAMP);
    EmittingIs(RUNNING, now, u, 1, 1);
    TimesAfter(CONFIG, Paid, Emitting(RUNNING, now, u, 1, 1), NextBlock(20), REWIND_TIMESTAMP);
  }

  /** The account of `u` at the claims. */
  ghost predicate Settled(s: State, impl: Implementation, last: nat, u: Address, paid: nat) {
    var a := SelfAsset(CONFIG, s);
    && s.now == REWIND_TIMESTAMP + 10 && s.impl == impl && s.lastInitializedRevision == impl.revision
    && Get(s.balances, u) == 1 && s.totalSupply == 1
    && a.emissionPerSecond == 1 && a.lastUpdateTimestamp == last
    && a.index == Get(a.users, u) == paid * PRECISION
    && Get(s.rewardsPaid, u) == paid && Get(s.stakerRewardsToClaim, u) == 0
  }

  lemma ClaimsTwenty(s: State, u: Address)
    requires Ready(CONFIG, s)
    requires Sole(s, RUNNING, REWIND_TIMESTAMP + 10, u, 1, AssetData(1, REWIND_TIMESTAMP - 10, 0, map[]))
    ensures ClaimStep(CONFIG, s, u, CLAIM_ALL, true).Ok?
    ensures Settled(ClaimStep(CONFIG, s, u, CLAIM_ALL, true).value, RUNNING, REWIND_TIMESTAMP + 10, u, 20)
  {
    assert IndexNow(CONFIG, s) == 20 * PRECISION;
    ClaimsAll(s, u, 20);
  }

  lemma PaidOnceIs(u: Address)
    requires u != ZERO
    ensures Feasible(CONFIG, PaidOnce(u))
    ensures Settled(Final(CONFIG, PaidOnce(u)), RUNNING, REWIND_TIMESTAMP + 10, u, 20)
    ensures Times(CONFIG, Paid, PaidOnce(u), REWIND_TIMESTAMP) == 1
  {
    var r := EmittingFor(RUNNING, REWIND_TIMESTAMP - 10, u, 1, 1, 20);
    EmittingForIs(RUNNING, REWIND_TIMESTAMP - 10, u, 1, 1, 20);
    IndexesWellFormed(CONFIG, r);
    var s := Final(CONFIG, r);
    ClaimsTwenty(s, u);
    NothingPaidYet(u);
    PayableIs(CONFIG, s, REWIND_TIMESTAMP);
    TimesAfter(CONFIG, Paid, r, ClaimRewards(u, u, CLAIM_ALL, true), REWIND_TIMESTAMP);
  }

  function PaidTwice(u: Address): Run {
    After(After(PaidOnce(u), Upgrade(REWINDING)), ClaimRewards(u, u, CLAIM_ALL, true))
  }

  lemma RewoundIs(u: Address)
    requires u != ZERO
    ensures var q := After(PaidOnce(u), Upgrade(REWINDING));
      && Feasible(CONFIG, q)
      && Times(CONFIG, Paid, q, REWIND_TIMESTAMP) == 1
      && Settled(Final(CONFIG, q), REWINDING, REWIND_TIMESTAMP, u, 20)
  {
    PaidOnceIs(u);
    UpgradeParts(CONFIG, Final(CONFIG, PaidOnce(u)), REWINDING);
    AdministrativeParts(CONFIG, Final(CONFIG, PaidOnce(u)), Upgrade(REWINDING));
    TimesAfter(CONFIG, Paid, PaidOnce(u), Upgrade(REWINDING), REWIND_TIMESTAMP);
  }

  lemma ClaimsTen(s: State, u: Address)
    requires Ready(CONFIG, s) && Settled(s, REWINDING, REWIND_TIMESTAMP, u, 20)
    ensures ClaimStep(CONFIG, s, u, CLAIM_ALL, true).Ok?
    ensures var t := ClaimStep(CONFIG, s, u, CLAIM_ALL, true).value;
      && t.now == s.now && Get(t.rewardsPaid, u) == 30
      && SelfAsset(CONFIG, s).index < SelfAsset(CONFIG, t).index && LastUpdate(CONFIG, t) == s.now
  {
    assert IndexNow(CONFIG, s) == 30 * PRECISION;
    ClaimsAll(s, u, 10);
  }

  lemma {:induction false} PaidAgain(q: Run, u: Address)
    requires Feasible(CONFIG, q) && Settled(Final(CONFIG, q), REWINDING, REWIND_TIMESTAMP, u, 20)
    ensures var r := After(q, ClaimRewards(u, u, CLAIM_ALL, true));
      && Feasible(CONFIG, r) && Final(CONFIG, r).now == Final(CONFIG, q).now
      && Get(Final(CONFIG, r).rewardsPaid, u) == 30
      && Times(CONFIG, Paid, r, REWIND_TIMESTAMP) == Times(CONFIG, Paid, q, REWIND_TIMESTAMP) + 1
  {
    IndexesWellFormed(CONFIG, q);
    var s := Final(CONFIG, q);
    ClaimsTen(s, u);
    PayableIs(CONFIG, s, REWIND_TIMESTAMP);
    TimesAfter(CONFIG, Paid, q, ClaimRewards(u, u, CLAIM_ALL, true), REWIND_TIMESTAMP);
  }

  /** At the same time, and for the same ten seconds, the account is paid again after the rewind. */
  lemma SecondsPaidTwice(u: Address)
    requires u != ZERO
    ensures Feasible(CONFIG, PaidTwice(u))
    ensures Final(CONFIG, PaidTwice(u)).now == Final(CONFIG, PaidOnce(u)).now
    ensures Get(Final(CONFIG, PaidOnce(u)).rewardsPaid, u) == 20
    ensures Get(Final(CONFIG, PaidTwice(u)).rewardsPaid, u) == 30
    ensures Times(CONFIG, Paid, PaidTwice(u), REWIND_TIMESTAMP) == 2
  {
    PaidOnceIs(u);
    RewoundIs(u);
    PaidAgain(After(PaidOnce(u), Upgrade(REWINDING)), u);
  }
}
