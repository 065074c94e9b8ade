/** What nobody can be kept from: in every state of every run exactly when a stake, a redemption,
    a transfer or a claim goes through, and that no arithmetic stops one as long as the emission
    so far fits the machine word. */
module Liveness {
  import opened Arithmetic
  import opened Evm
  import opened Sums
  import opened Distribution
  import opened Cooldown
  import opened Delegation
  import opened StakedToken
  import opened Bookkeeping
  import opened Governance
  import opened CooldownSafety
  import opened Rewards
  import opened Solvency

  // ---------- the index stays within the emission ----------

  /** The totals given for the contract itself: none, or at least a supply that is not zero. */
  ghost predicate StrictTotals(cfg: Config, s: State, inputs: seq<AssetConfigInput>) {
    forall i :: 0 <= i < |inputs| && inputs[i].underlyingAsset == cfg.self
      ==> inputs[i].totalStaked == 0 || 0 < s.totalSupply <= inputs[i].totalStaked
  }

  ghost predicate StrictlyConfigured(cfg: Config, r: Run) {
    match r
    case Deploy(_, _, _) => true
    case After(prior, a) =>
      && StrictlyConfigured(cfg, prior)
      && (a.ConfigureAssets? && Step(cfg, Final(cfg, prior), a).Ok? ==> StrictTotals(cfg, Final(cfg, prior), a.inputs))
  }

  /** True totals are strict, and strict ones safe. */
  lemma {:induction false} StrictIsSafe(cfg: Config, r: Run)
    ensures Steady(cfg, r) ==> StrictlyConfigured(cfg, r)
    ensures StrictlyConfigured(cfg, r) ==> SafelyConfigured(cfg, r)
  {
    if r.Deploy? {
    } else {
      StrictIsSafe(cfg, r.prior);
    }
  }

  /** The index, and as much again as it can still gain from what was emitted. */
  function IndexBound(cfg: Config, s: State): nat {
    SelfAsset(cfg, s).index + Emitted(cfg, s) * PRECISION
  }

  lemma GainWithinEmission(e: nat, w: nat, total: nat)
    ensures Gain(e, w, total) <= e * w * PRECISION
  {
    if total > 0 {
      GainBounds(e, w, total);
      MulLe(Gain(e, w, total), 1, total);
    }
  }

  lemma IndexNowBound(cfg: Config, s: State)
    ensures IndexNow(cfg, s) <= IndexBound(cfg, s)
  {
    var a := SelfAsset(cfg, s);
    GainWithinEmission(a.emissionPerSecond, Window(a.lastUpdateTimestamp, s.now, s.impl.distributionEnd),
      s.totalSupply);
  }

  lemma UpdatedBound(cfg: Config, s: State, t: State)
    requires SelfAsset(cfg, t).lastUpdateTimestamp == t.now && SelfAsset(cfg, t).index <= IndexBound(cfg, s)
    ensures IndexBound(cfg, t) <= IndexBound(cfg, s)
  {
    NothingEmittedYet(cfg, t);
  }

  lemma ConfigureOneBound(cfg: Config, s: State, c: AssetConfigInput)
    requires Ready(cfg, s) && ConfigureOne(s.now, s.impl.distributionEnd, s.assets, c).Ok?
    requires c.underlyingAsset == cfg.self ==> c.totalStaked == 0 || 0 < s.totalSupply <= c.totalStaked
    ensures var t := s.(assets := ConfigureOne(s.now, s.impl.distributionEnd, s.assets, c).value);
      IndexBound(cfg, t) <= IndexBound(cfg, s)
  {
    ConfigureOneKeeps(s.now, s.impl.distributionEnd, s.assets, c);
    var t := s.(assets := ConfigureOne(s.now, s.impl.distributionEnd, s.assets, c).value);
    if c.underlyingAsset == cfg.self {
      var a := SelfAsset(cfg, s);
      GainWithinEmission(a.emissionPerSecond, Window(a.lastUpdateTimestamp, s.now, s.impl.distributionEnd),
        c.totalStaked);
      UpdatedBound(cfg, s, t);
    }
  }

  lemma {:induction false} ConfigureBound(cfg: Config, s: State, inputs: seq<AssetConfigInput>)
    requires Ready(cfg, s) && Configure(s.now, s.impl.distributionEnd, s.assets, inputs).Ok?
    requires StrictTotals(cfg, s, inputs)
    ensures var t := s.(assets := Configure(s.now, s.impl.distributionEnd, s.assets, inputs).value);
      IndexBound(cfg, t) <= IndexBound(cfg, s)
  {
    if inputs == [] {
    } else {
      var prefix, c := inputs[..|inputs| - 1], inputs[|inputs| - 1];
      ConfigureBound(cfg, s, prefix);
      ConfigureReady(cfg, s, prefix);
      ConfigureOneBound(cfg, s.(assets := Configure(s.now, s.impl.distributionEnd, s.assets, prefix).value), c);
    }
  }

  lemma AccrueBound(cfg: Config, s: State, u: Address)
    requires Ready(cfg, s) && Accrue(cfg, s, u).Ok?
    ensures IndexBound(cfg, Accrue(cfg, s, u).value) <= IndexBound(cfg, s)
  {
    AccruePreserves(cfg, s, u);
    IndexNowBound(cfg, s);
    UpdatedBound(cfg, s, Accrue(cfg, s, u).value);
  }

  lemma AccruedReady(cfg: Config, s: State, u: Address)
    requires Ready(cfg, s) && Accrue(cfg, s, u).Ok?
    ensures Ready(cfg, Accrue(cfg, s, u).value)
  {
    AccrueParts(cfg, s, u);
    AccruePreserves(cfg, s, u);
  }

  lemma AccrueBothBound(cfg: Config, s: State, from: Address, to: Address)
    requires Ready(cfg, s) && AccrueBoth(cfg, s, from, to).Ok?
    ensures IndexBound(cfg, AccrueBoth(cfg, s, from, to).value) <= IndexBound(cfg, s)
  {
    AccrueBound(cfg, s, from);
    if from != to {
      AccruedReady(cfg, s, from);
      AccrueBound(cfg, Accrue(cfg, s, from).value, to);
    }
  }

  lemma AccruingBound(cfg: Config, s: State, a: Action)
    requires Ready(cfg, s) && Accruing(a) && Step(cfg, s, a).Ok?
    ensures IndexBound(cfg, Step(cfg, s, a).value) <= IndexBound(cfg, s)
  {
    var t := Step(cfg, s, a).value;
    AccruingUpdates(cfg, s, a);
    match a
    case Stake(u, amount, accepts) =>
      StakeParts(cfg, s, u, amount, accepts);
      AccrueBound(cfg, s, u);
      UpdatedBound(cfg, s, t);
    case Redeem(u, to, amount, accepts) =>
      RedeemParts(cfg, s, u, to, amount, accepts);
      AccrueBound(cfg, s, u);
      UpdatedBound(cfg, s, t);
    case Transfer(from, to, amount) =>
      TransferParts(cfg, s, from, to, amount);
      AccrueBothBound(cfg, s, from, to);
      UpdatedBound(cfg, s, t);
    case ClaimRewards(u, _, amount, accepts) =>
      ClaimParts(cfg, s, u, amount, accepts);
      AccrueBound(cfg, s, u);
      UpdatedBound(cfg, s, t);
  }

  lemma StepBound(cfg: Config, s: State, a: Action)
    requires Ready(cfg, s) && Step(cfg, s, a).Ok?
    requires a.ConfigureAssets? ==> StrictTotals(cfg, s, a.inputs)
    ensures IndexBound(cfg, Step(cfg, s, a).value) <= IndexBound(cfg, s) + EmissionOf(cfg, s, a) * PRECISION
  {
    if Accruing(a) {
      AccruingBound(cfg, s, a);
    } else {
      match a
      case NextBlock(seconds) => TimeEmits(cfg, s, seconds);
      case ConfigureAssets(sender, inputs) =>
        ConfigureParts(cfg, s, sender, inputs);
        ConfigureBound(cfg, s, inputs);
      case Upgrade(impl) =>
        UpgradeParts(cfg, s, impl);
        UpgradeEmits(cfg, s, impl);
      case _ => AdministrativeParts(cfg, s, a);
    }
  }

  /** The index never exceeds the emission, each unit counted for a single token. */
  lemma {:induction false} IndexWithinBudget(cfg: Config, r: Run)
    requires Feasible(cfg, r) && StrictlyConfigured(cfg, r)
    ensures IndexBound(cfg, Final(cfg, r)) <= Budget(cfg, r) * PRECISION
  {
    if r.Deploy? {
    } else {
      IndexWithinBudget(cfg, r.prior);
      IndexesWellFormed(cfg, r.prior);
      if Step(cfg, Final(cfg, r.prior), r.act).Ok? {
        StepBound(cfg, Final(cfg, r.prior), r.act);
      }
    }
  }

  // ---------- when an update of rewards succeeds ----------

  /** The index up to now, what the user gained by it and what is claimable with it fit a word. */
  ghost predicate AccrualFits(cfg: Config, s: State, u: Address) {
    var a := SelfAsset(cfg, s);
    var seconds := Window(a.lastUpdateTimestamp, s.now, s.impl.distributionEnd);
    var gained := Get(s.balances, u) * (IndexNow(cfg, s) - Get(a.users, u));
    && IndexFits(a.emissionPerSecond, seconds, s.totalSupply, a.index)
    && gained < UINT256
    && Get(s.stakerRewardsToClaim, u) + gained / PRECISION < UINT256
  }

  lemma UpdateAssetSucceedsIff(cfg: Config, s: State)
    requires Ready(cfg, s)
    ensures var a := SelfAsset(cfg, s);
      var m := UpdateAsset(s.now, s.impl.distributionEnd, s.assets, cfg.self, s.totalSupply);
      && (m.Ok? <==> IndexFits(a.emissionPerSecond, Window(a.lastUpdateTimestamp, s.now, s.impl.distributionEnd),
            s.totalSupply, a.index))
      && (m.Ok? ==> Asset(m.value, cfg.self).users == a.users && Asset(m.value, cfg.self).index == IndexNow(cfg, s))
  {
    var a := SelfAsset(cfg, s);
    assert AssetInv(a, s.now);
    UpdateStateSucceedsIff(s.now, s.impl.distributionEnd, a, s.totalSupply);
    if UpdateState(s.now, s.impl.distributionEnd, a, s.totalSupply).Ok? {
      UpdateStateIs(s.now, s.impl.distributionEnd, a, s.totalSupply);
    }
  }

  lemma UpdateSucceedsIff(cfg: Config, s: State, u: Address, updateStorage: bool)
    requires Ready(cfg, s)
    ensures UpdateCurrentUnclaimedRewards(cfg, s, u, updateStorage).Ok? <==> AccrualFits(cfg, s, u)
  {
    assert AssetInv(SelfAsset(cfg, s), s.now);
    UpdateAssetSucceedsIff(cfg, s);
    var m := UpdateAsset(s.now, s.impl.distributionEnd, s.assets, cfg.self, s.totalSupply);
    if m.Ok? {
      SettleSucceedsIff(m.value, u, cfg.self, Get(s.balances, u));
    }
  }

  /** What an accrual leaves of another account's. */
  lemma AccrualSpares(cfg: Config, s: State, from: Address, to: Address)
    requires Ready(cfg, s) && from != to && Accrue(cfg, s, from).Ok?
    ensures var s1 := Accrue(cfg, s, from).value;
      && Ready(cfg, s1) && SelfAsset(cfg, s1).lastUpdateTimestamp == s1.now
      && IndexNow(cfg, s1) == IndexNow(cfg, s)
      && Get(s1.balances, to) == Get(s.balances, to)
      && Get(SelfAsset(cfg, s1).users, to) == Get(SelfAsset(cfg, s).users, to)
      && Get(s1.stakerRewardsToClaim, to) == Get(s.stakerRewardsToClaim, to)
  {
    AccruePreserves(cfg, s, from);
    AccruedReady(cfg, s, from);
    IndexAlreadyNow(cfg, Accrue(cfg, s, from).value);
  }

  lemma FitsAfterAccrual(cfg: Config, s: State, from: Address, to: Address)
    requires Ready(cfg, s) && from != to && AccrualFits(cfg, s, from) && Accrue(cfg, s, from).Ok?
    ensures AccrualFits(cfg, Accrue(cfg, s, from).value, to) <==> AccrualFits(cfg, s, to)
  {
    AccrualSpares(cfg, s, from, to);
  }

  lemma BothUpdatesSucceedIff(cfg: Config, s: State, from: Address, to: Address)
    requires Ready(cfg, s)
    ensures RewardsUpdatable(cfg, s, from, to) <==> AccrualFits(cfg, s, from) && AccrualFits(cfg, s, to)
  {
    UpdateSucceedsIff(cfg, s, from, true);
    if from != to && AccrualFits(cfg, s, from) {
      UpdateIsAccrue(cfg, s, from);
      AccruedReady(cfg, s, from);
      FitsAfterAccrual(cfg, s, from, to);
      UpdateSucceedsIff(cfg, Accrue(cfg, s, from).value, to, true);
    }
  }

  // ---------- an emission that fits ----------

  /** Index and worth lie within an emission of `n`, which fits the machine word. */
  ghost predicate Funded(cfg: Config, s: State, n: nat) {
    && Ready(cfg, s)
    && IndexBound(cfg, s) <= n * PRECISION < UINT256
    && Worth(cfg, s) <= n * PRECISION
  }

  lemma UnsettledOne(b: Balances, users: map<Address, nat>, index: nat, u: Address)
    requires forall v :: Get(users, v) <= index
    ensures 0 <= Get(b, u) * (index - Get(users, u)) <= TotalUnsettled(b, users, index)
  {
    var f := Unsettled(b, users, index);
    forall v
      ensures 0 <= f(v)
    {
      MulLe(Get(b, v), 0, index - Get(users, v));
    }
    assert f(u) == Get(b, u) * (index - Get(users, u));
    SumAtLeast(b.Keys, f, u);
  }

  lemma UnsettledNow(cfg: Config, s: State)
    requires Ready(cfg, s)
    ensures TotalUnsettled(s.balances, SelfAsset(cfg, s).users, IndexNow(cfg, s))
         <= TotalUnsettled(s.balances, SelfAsset(cfg, s).users, SelfAsset(cfg, s).index) + Emitted(cfg, s) * PRECISION
  {
    var a, index := SelfAsset(cfg, s), IndexNow(cfg, s);
    assert AssetInv(a, s.now);
    GainSpread(cfg, s);
    UnsettledIndex(s.balances, a.users, a.index, index - a.index);
  }

  /** One account's claimable and pending rewards lie within the worth of the whole. */
  lemma OneWithinWorth(cfg: Config, s: State, u: Address)
    requires Ready(cfg, s)
    ensures var gained := Get(s.balances, u) * (IndexNow(cfg, s) - Get(SelfAsset(cfg, s).users, u));
      0 <= gained && PRECISION * Get(s.stakerRewardsToClaim, u) + gained <= Worth(cfg, s)
  {
    var a, index := SelfAsset(cfg, s), IndexNow(cfg, s);
    assert AssetInv(a, s.now);
    UnsettledOne(s.balances, a.users, index, u);
    UnsettledNow(cfg, s);
    TotalAtLeast(s.stakerRewardsToClaim, u);
    TotalAtLeast(s.rewardsPaid, u);
  }

  lemma FundedFits(cfg: Config, s: State, n: nat, u: Address)
    requires Funded(cfg, s, n)
    ensures AccrualFits(cfg, s, u)
  {
    IndexNowBound(cfg, s);
    OneWithinWorth(cfg, s, u);
    DivBounds(Get(s.balances, u) * (IndexNow(cfg, s) - Get(SelfAsset(cfg, s).users, u)), PRECISION);
  }

  // ---------- whole runs ----------

  /** The emission so far, at the precision of the index, fits a machine word. */
  ghost predicate WithinWord(cfg: Config, r: Run) {
    StrictlyConfigured(cfg, r) && Budget(cfg, r) * PRECISION < UINT256
  }

  lemma {:induction false} AlwaysFunded(cfg: Config, r: Run)
    requires Feasible(cfg, r) && WithinWord(cfg, r)
    ensures Funded(cfg, Final(cfg, r), Budget(cfg, r))
  {
    StrictIsSafe(cfg, r);
    IndexesWellFormed(cfg, r);
    IndexWithinBudget(cfg, r);
    WorthWithinBudget(cfg, r);
  }

  /** So no accrual overflows. */
  lemma {:induction false} EmissionFits(cfg: Config, r: Run, u: Address)
    requires Feasible(cfg, r) && WithinWord(cfg, r)
    ensures AccrualFits(cfg, Final(cfg, r), u)
  {
    AlwaysFunded(cfg, r);
    FundedFits(cfg, Final(cfg, r), Budget(cfg, r), u);
  }

  // ---------- what goes through ----------

  /** The view reverts exactly when the accrual does not fit. */
  lemma {:induction false} ViewSucceedsIff(cfg: Config, r: Run, u: Address)
    requires Feasible(cfg, r)
    ensures GetTotalRewardsBalance(cfg, Final(cfg, r), u).Ok? <==> AccrualFits(cfg, Final(cfg, r), u)
  {
    IndexesWellFormed(cfg, r);
    UpdateSucceedsIff(cfg, Final(cfg, r), u, false);
    ViewIsAccrual(cfg, Final(cfg, r), u);
  }

  /** The clock is past the cooldown period of `u`, and not past the window after it. */
  ghost predicate MayRedeem(s: State, u: Address) {
    var ready := Get(s.stakersCooldowns, u) + s.impl.terms.cooldownSeconds;
    ready < s.now <= ready + s.impl.terms.unstakeWindow
  }

  /** A redemption goes through exactly when the amount is not zero, the clock is past the user's
      cooldown and not past the window, the accrual fits and the token accepts. */
  lemma {:induction false} RedeemGoesThroughIff(
      cfg: Config, r: Run, u: Address, to: Address, amount: nat, accepts: bool)
    requires Feasible(cfg, r) && u != ZERO
    ensures var s := Final(cfg, r);
      Step(cfg, s, Redeem(u, to, amount, accepts)).Ok?
      <==> amount != 0 && MayRedeem(s, u) && AccrualFits(cfg, s, u) && accepts
  {
    IndexesWellFormed(cfg, r);
    UpdateSucceedsIff(cfg, Final(cfg, r), u, true);
    RedeemWindowIff(Final(cfg, r).impl.terms, Final(cfg, r).now, Get(Final(cfg, r).stakersCooldowns, u));
    RedeemNeedsUpdate(cfg, r, u, to, amount, accepts);
  }

  /** Whoever never announced it gets out exactly when the accrual fits and the clock does not refuse
      that: when it is past the cooldown period and not past the window after it. */
  lemma {:induction false} UnannouncedGoesThroughIff(cfg: Config, r: Run, u: Address, to: Address, amount: nat)
    requires Feasible(cfg, r) && u != ZERO && amount != 0
    requires LastCooldown(cfg, r, u).Never?
    ensures Step(cfg, Final(cfg, r), Redeem(u, to, amount, true)).Ok?
       <==> !RefusesUnannounced(Final(cfg, r)) && AccrualFits(cfg, Final(cfg, r), u)
  {
    CooldownWasCalled(cfg, r, u);
    RedeemGoesThroughIff(cfg, r, u, to, amount, true);
  }

  /** `later` continues `q` with nothing but new blocks. */
  ghost predicate OnlyTime(q: Run, later: Run) {
    later == q || (later.After? && later.act.NextBlock? && OnlyTime(q, later.prior))
  }

  /** The seconds that the new blocks take. */
  ghost function SecondsPassed(q: Run, later: Run): nat
    requires OnlyTime(q, later)
    decreases later
  {
    if later == q then 0 else SecondsPassed(q, later.prior) + later.act.seconds
  }

  lemma {:induction false} TimePasses(cfg: Config, q: Run, later: Run)
    requires OnlyTime(q, later)
    ensures var s, t := Final(cfg, q), Final(cfg, later);
      t == s.(now := s.now + SecondsPassed(q, later), block := t.block) && s.block <= t.block
    decreases later
  {
    if later == q {
    } else {
      TimePasses(cfg, q, later.prior);
    }
  }

  /** From the announcement to the exit: after a holder's `cooldown`, and any number of blocks that
      take longer than the cooldown period but not longer than it and the window, the redemption of
      any amount goes through where the accrual fits and the token accepts. */
  lemma {:induction false} AnnouncedGetsOut(cfg: Config, r: Run, later: Run, u: Address, to: Address, amount: nat)
    requires Feasible(cfg, later) && Feasible(cfg, r) && u != ZERO && amount != 0
    requires Get(Final(cfg, r).balances, u) != 0
    requires OnlyTime(After(r, StartCooldown(u)), later)
    requires var waited, terms := SecondsPassed(After(r, StartCooldown(u)), later), Final(cfg, r).impl.terms;
      terms.cooldownSeconds < waited <= terms.cooldownSeconds + terms.unstakeWindow
    requires AccrualFits(cfg, Final(cfg, later), u)
    ensures Step(cfg, Final(cfg, later), Redeem(u, to, amount, true)).Ok?
  {
    TimePasses(cfg, After(r, StartCooldown(u)), later);
    RedeemGoesThroughIff(cfg, later, u, to, amount, true);
  }

  /** A transfer goes through exactly when both ends exist, the balance suffices, the clock allows a
      merge into the recipient's cooldown and both accruals fit. */
  lemma {:induction false} TransferGoesThroughIff(cfg: Config, r: Run, from: Address, to: Address, amount: nat)
    requires Feasible(cfg, r)
    ensures var s := Final(cfg, r);
      TransferStep(cfg, s, from, to, amount).Ok?
      <==> && from != ZERO && to != ZERO && amount <= Get(s.balances, from)
           && (from == to || ClockAllows(s, to))
           && AccrualFits(cfg, s, from) && AccrualFits(cfg, s, to)
  {
    IndexesWellFormed(cfg, r);
    BothUpdatesSucceedIff(cfg, Final(cfg, r), from, to);
    TransferNeedsUpdates(cfg, r, from, to, amount);
  }

  /** A claim goes through exactly when the accrual fits, it asks for everything or for no more than
      the view shows, and the token accepts. */
  lemma {:induction false} ClaimGoesThroughIff(cfg: Config, r: Run, u: Address, to: Address, amount: nat, accepts: bool)
    requires Feasible(cfg, r)
    ensures var s, view := Final(cfg, r), GetTotalRewardsBalance(cfg, Final(cfg, r), u);
      && (view.Ok? <==> AccrualFits(cfg, s, u))
      && (Step(cfg, s, ClaimRewards(u, to, amount, accepts)).Ok?
          <==> AccrualFits(cfg, s, u) && accepts && (amount == UINT256 - 1 || amount <= view.value))
  {
    ViewSucceedsIff(cfg, r, u);
    IndexesWellFormed(cfg, r);
    ViewIsAccrual(cfg, Final(cfg, r), u);
  }

  lemma UpdateKeepsClaimable(cfg: Config, s: State, v: Address, u: Address)
    requires UpdateCurrentUnclaimedRewards(cfg, s, v, true).Ok? && Get(s.stakerRewardsToClaim, u) < UINT256
    ensures Accrue(cfg, s, v).Ok? && Get(Accrue(cfg, s, v).value.stakerRewardsToClaim, u) < UINT256
  {
    UpdateIsAccrue(cfg, s, v);
  }

  lemma StakeKeepsClaimable(cfg: Config, s: State, v: Address, u: Address)
    requires AccrueBeforeStake(cfg, s, v).Ok? && Get(s.stakerRewardsToClaim, u) < UINT256
    ensures Accrue(cfg, s, v).Ok? && Get(Accrue(cfg, s, v).value.stakerRewardsToClaim, u) < UINT256
  {
    StakeAccrues(cfg, s, v);
  }

  lemma ClaimableStep(cfg: Config, s: State, a: Action, u: Address)
    requires Step(cfg, s, a).Ok? && Get(s.stakerRewardsToClaim, u) < UINT256
    ensures Get(Step(cfg, s, a).value.stakerRewardsToClaim, u) < UINT256
  {
    match a
    case Stake(v, amount, accepts) =>
      StakeParts(cfg, s, v, amount, accepts);
      StakeKeepsClaimable(cfg, s, v, u);
    case Redeem(v, to, amount, accepts) =>
      RedeemParts(cfg, s, v, to, amount, accepts);
      UpdateKeepsClaimable(cfg, s, v, u);
    case Transfer(from, to, amount) =>
      TransferParts(cfg, s, from, to, amount);
      TransferNeeds(cfg, s, from, to, amount);
      UpdateKeepsClaimable(cfg, s, from, u);
      if from != to {
        UpdateIsAccrue(cfg, s, from);
        UpdateKeepsClaimable(cfg, Accrue(cfg, s, from).value, to, u);
      }
    case ClaimRewards(v, _, amount, accepts) =>
      ClaimParts(cfg, s, v, amount, accepts);
      UpdateReads(cfg, s, v);
    case _ => AdministrativeParts(cfg, s, a);
  }

  /** What is claimable always fits the word it is stored in. */
  lemma {:induction false} ClaimableFits(cfg: Config, r: Run, u: Address)
    ensures Get(Final(cfg, r).stakerRewardsToClaim, u) < UINT256
  {
    if r.Deploy? {
    } else {
      ClaimableFits(cfg, r.prior, u);
      if Step(cfg, Final(cfg, r.prior), r.act).Ok? {
        ClaimableStep(cfg, Final(cfg, r.prior), r.act, u);
      }
    }
  }

  lemma UpdateBeforeStake(cfg: Config, s: State, u: Address)
    requires Get(s.stakerRewardsToClaim, u) < UINT256
    ensures AccrueBeforeStake(cfg, s, u).Ok? <==> UpdateCurrentUnclaimedRewards(cfg, s, u, true).Ok?
    ensures AccrueBeforeStake(cfg, s, u).Ok? ==> AccrueBeforeStake(cfg, s, u) == Accrue(cfg, s, u)
  {
  }

  lemma MintSucceeds(cfg: Config, s: State, s1: State, u: Address, amount: nat)
    requires Books(cfg, s) && GovInv(s) && u != ZERO && s.stakedTokenHeld + amount <= cfg.stakedTokenSupply
    requires SameEnvironment(s, s1) && SameTokens(s, s1) && SamePower(s, s1)
    ensures Mint(s1, u, amount).Ok?
  {
    HookSucceeds(cfg, s, ZERO, u, amount);
    TotalAtLeast(s.balances, u);
    assert BeforeTokenTransfer(s1, ZERO, u, amount) == BeforeTokenTransfer(s, ZERO, u, amount);
  }

  lemma StakeSucceeds(cfg: Config, s: State, u: Address, amount: nat)
    requires Books(cfg, s) && GovInv(s) && ClockAllows(s, u) && u != ZERO && amount != 0
    requires AccrueBeforeStake(cfg, s, u).Ok?
    requires s.stakedTokenHeld + amount <= cfg.stakedTokenSupply
    ensures StakeStep(cfg, s, u, amount, true).Ok?
  {
    StakeAccrues(cfg, s, u);
    AccrueParts(cfg, s, u);
    TotalAtLeast(s.balances, u);
    AverageSucceedsIff(cfg, s, 0, amount, u);
    var s1, c := Accrue(cfg, s, u).value, Get(s.stakersCooldowns, u);
    var next := GetNextCooldownTimestamp(s.impl.terms, s.now, 0, amount, c, Get(s.balances, u)).value;
    var s2 := s1.(stakersCooldowns := s1.stakersCooldowns[u := next]);
    MintSucceeds(cfg, s, s2, u, amount);
    MintParts(s2, u, amount);
  }

  lemma StakeNeeds(cfg: Config, s: State, u: Address, amount: nat, accepts: bool)
    requires StakeStep(cfg, s, u, amount, accepts).Ok?
    ensures amount != 0 && u != ZERO && accepts && s.stakedTokenHeld + amount <= cfg.stakedTokenSupply
    ensures ClockAllows(s, u) && AccrueBeforeStake(cfg, s, u).Ok?
  {
    StakeParts(cfg, s, u, amount, accepts);
  }

  /** A stake goes through exactly when the amount is not zero, the recipient exists, the accrual
      fits, the token accepts an amount that exists and the clock allows a merge into the recipient's
      cooldown. */
  lemma {:induction false} StakeGoesThroughIff(cfg: Config, r: Run, u: Address, amount: nat, accepts: bool)
    requires Feasible(cfg, r)
    ensures var s := Final(cfg, r);
      Step(cfg, s, Stake(u, amount, accepts)).Ok?
      <==> && amount != 0 && u != ZERO && ClockAllows(s, u) && AccrualFits(cfg, s, u)
           && accepts && s.stakedTokenHeld + amount <= cfg.stakedTokenSupply
  {
    PowersAlwaysExact(cfg, r);
    IndexesWellFormed(cfg, r);
    ClaimableFits(cfg, r, u);
    var s := Final(cfg, r);
    UpdateSucceedsIff(cfg, s, u, true);
    UpdateBeforeStake(cfg, s, u);
    if StakeStep(cfg, s, u, amount, accepts).Ok? {
      StakeNeeds(cfg, s, u, amount, accepts);
    } else if
      && amount != 0 && u != ZERO && ClockAllows(s, u) && AccrualFits(cfg, s, u)
      && accepts && s.stakedTokenHeld + amount <= cfg.stakedTokenSupply
    {
      StakeSucceeds(cfg, s, u, amount);
    }
  }
}
