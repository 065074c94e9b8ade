/** Rewards over whole runs: what the contract has paid and owes is what was emitted second by
    second to its stakers, never more, and less only by the rounding of its updates. */
module Solvency {
  import opened Arithmetic
  import opened Evm
  import opened Sums
  import opened Distribution
  import opened Claims
  import opened Delegation
  import opened StakedToken
  import opened Bookkeeping
  import opened Rewards

  // ---------- indexes over runs ----------

  lemma AccrueBothIs(cfg: Config, s: State, from: Address, to: Address)
    requires AssetsInv(s.assets, s.now) && 0 < s.now < UINT128
    requires AccrueBoth(cfg, s, from, to).Ok?
    ensures var t := AccrueBoth(cfg, s, from, to).value;
      AssetsInv(t.assets, s.now) && IndexesGrow(s.assets, t.assets)
  {
    AccrueIs(cfg, s, from);
    var s1 := Accrue(cfg, s, from).value;
    if from != to {
      AccrueParts(cfg, s, from);
      AccrueIs(cfg, s1, to);
    }
  }

  lemma AssetsLater(m: Assets, now: nat, later: nat)
    requires AssetsInv(m, now) && now <= later
    ensures AssetsInv(m, later)
  {
    forall x
      ensures AssetInv(Asset(m, x), later)
    {
      assert AssetInv(Asset(m, x), now);
    }
  }

  lemma RewindKeeps(cfg: Config, s: State, impl: Implementation)
    requires AssetsInv(s.assets, s.now) && UpgradeStep(cfg, s, impl).Ok?
    requires impl.rewinds ==> REWIND_TIMESTAMP <= s.now
    ensures var t := UpgradeStep(cfg, s, impl).value;
      AssetsInv(t.assets, t.now) && IndexesGrow(s.assets, t.assets)
  {
    UpgradeParts(cfg, s, impl);
    var t := UpgradeStep(cfg, s, impl).value;
    forall x
      ensures AssetInv(Asset(t.assets, x), t.now)
    {
      assert AssetInv(Asset(s.assets, x), s.now);
    }
  }

  lemma AssetsStep(cfg: Config, s: State, a: Action)
    requires Books(cfg, s) && AssetsInv(s.assets, s.now) && Possible(s, a)
    ensures var t := Apply(cfg, s, a);
      AssetsInv(t.assets, t.now) && IndexesGrow(s.assets, t.assets)
  {
    if Step(cfg, s, a).Ok? {
      match a
      case Stake(u, amount, accepts) =>
        StakeParts(cfg, s, u, amount, accepts);
        AccrueIs(cfg, s, u);
      case Redeem(u, to, amount, accepts) =>
        RedeemParts(cfg, s, u, to, amount, accepts);
        AccrueIs(cfg, s, u);
      case Transfer(from, to, amount) =>
        TransferParts(cfg, s, from, to, amount);
        AccrueBothIs(cfg, s, from, to);
      case ClaimRewards(u, _, amount, accepts) =>
        ClaimParts(cfg, s, u, amount, accepts);
        AccrueIs(cfg, s, u);
      case ConfigureAssets(sender, inputs) =>
        ConfigureParts(cfg, s, sender, inputs);
        ConfigureKeeps(s.now, s.impl.distributionEnd, s.assets, inputs);
      case Upgrade(impl) => RewindKeeps(cfg, s, impl);
      case NextBlock(seconds) => AssetsLater(s.assets, s.now, s.now + seconds);
      case _ => AdministrativeParts(cfg, s, a);
    }
  }

  /** In every state of every run no user's index is ahead of the asset's, no asset is ahead of
      time, an asset emits only once it has been updated; and no index ever decreases. */
  lemma {:induction false} IndexesWellFormed(cfg: Config, r: Run)
    requires Feasible(cfg, r)
    ensures Books(cfg, Final(cfg, r)) && AssetsInv(Final(cfg, r).assets, Final(cfg, r).now)
    ensures r.After? ==> IndexesGrow(Final(cfg, r.prior).assets, Final(cfg, r).assets)
  {
    BooksHold(cfg, r);
    if r.Deploy? {
    } else {
      IndexesWellFormed(cfg, r.prior);
      AssetsStep(cfg, Final(cfg, r.prior), r.act);
    }
  }

  /** So neither subtraction of an update can fail: its view reverts only on overflow. */
  lemma {:induction false} ViewRevertsOnlyOnOverflow(cfg: Config, r: Run, u: Address)
    requires Feasible(cfg, r)
    ensures var v := GetTotalRewardsBalance(cfg, Final(cfg, r), u); v.Ok? || v == Revert(Overflow)
  {
    IndexesWellFormed(cfg, r);
    var s := Final(cfg, r);
    var a := SelfAsset(cfg, s);
    assert AssetInv(a, s.now);
    SingleView(s.now, s.impl.distributionEnd, s.assets, u, UserStakeInput(cfg.self, Get(s.balances, u), s.totalSupply));
    var index := IndexAt(s.now, s.impl.distributionEnd, a, s.totalSupply);
    assert index.Ok? || index == Revert(Overflow);
    if index.Ok? {
      IndexAtIs(s.now, s.impl.distributionEnd, a, s.totalSupply);
      assert Get(a.users, u) <= index.value;
    }
  }

  // ---------- the second-by-second reference ----------

  /** The seconds from `from` on, `count` of them, in which the distribution is running. */
  function RunningSeconds(from: nat, count: nat, end: nat): nat {
    if count == 0 then 0 else RunningSeconds(from, count - 1, end) + if from + count - 1 < end then 1 else 0
  }

  function CountSeconds(n: nat, p: nat -> bool): nat {
    if n == 0 then 0 else CountSeconds(n - 1, p) + if p(n - 1) then 1 else 0
  }

  /** The seconds the next update will pay for. */
  function Payable(cfg: Config, s: State): nat -> bool {
    (t: nat) => SelfAsset(cfg, s).lastUpdateTimestamp <= t < Min(s.now, s.impl.distributionEnd)
  }

  /** The seconds that `t` will pay for and `s` would not have. */
  function NewlyPayable(cfg: Config, s: State, t: State): nat -> bool {
    (x: nat) => Payable(cfg, t)(x) && !Payable(cfg, s)(x)
  }

  /** What one action adds to the emission: each passing second the rate, while there are
      stakers and the distribution runs; at an upgrade the rate for each second that it makes
      payable, be it for the first time or again. */
  function EmissionOf(cfg: Config, s: State, a: Action): nat {
    if s.totalSupply == 0 || Step(cfg, s, a).Revert? then 0
    else
      match a
      case NextBlock(seconds) =>
        SelfAsset(cfg, s).emissionPerSecond * RunningSeconds(s.now, seconds, s.impl.distributionEnd)
      case Upgrade(_) =>
        SelfAsset(cfg, s).emissionPerSecond * CountSeconds(s.now, NewlyPayable(cfg, s, Step(cfg, s, a).value))
      case _ => 0
  }

  function Budget(cfg: Config, r: Run): nat {
    match r
    case Deploy(_, _, _) => 0
    case After(prior, a) => Budget(cfg, prior) + EmissionOf(cfg, Final(cfg, prior), a)
  }

  lemma {:induction false} RunningIsWindow(from: nat, count: nat, end: nat)
    ensures RunningSeconds(from, count, end) == Window(from, from + count, end)
  {
    if count == 0 {
    } else {
      RunningIsWindow(from, count - 1, end);
    }
  }

  lemma {:induction false} CountInterval(n: nat, p: nat -> bool, lo: nat, hi: nat)
    requires forall t: nat :: p(t) <==> lo <= t < hi
    ensures CountSeconds(n, p) == if lo < Min(n, hi) then Min(n, hi) - lo else 0
  {
    if n == 0 {
    } else {
      CountInterval(n - 1, p, lo, hi);
    }
  }

  lemma {:induction false} CountSplit(n: nat, p: nat -> bool, q: nat -> bool, d: nat -> bool)
    requires forall t: nat :: d(t) <==> p(t) && !q(t)
    ensures CountSeconds(n, p) <= CountSeconds(n, q) + CountSeconds(n, d)
  {
    if n == 0 {
    } else {
      CountSplit(n - 1, p, q, d);
    }
  }

  lemma PayableIsWindow(cfg: Config, s: State)
    ensures CountSeconds(s.now, Payable(cfg, s))
         == Window(SelfAsset(cfg, s).lastUpdateTimestamp, s.now, s.impl.distributionEnd)
  {
    CountInterval(s.now, Payable(cfg, s), SelfAsset(cfg, s).lastUpdateTimestamp, Min(s.now, s.impl.distributionEnd));
  }

  // ---------- one step ----------

  /** Everything paid, owed or emitted since the last update, scaled. */
  ghost function Worth(cfg: Config, s: State): int {
    Owed(cfg, s) + Emitted(cfg, s) * PRECISION
  }

  /** How many times an action accrues to a user. */
  function AccrualsOf(a: Action): nat {
    match a
    case Stake(_, _, _) => 1
    case Redeem(_, _, _, _) => 1
    case ClaimRewards(_, _, _, _) => 1
    case Transfer(from, to, _) => if from == to then 1 else 2
    case _ => 0
  }

  /** The step adds `emitted` to the worth, less at most the rounding of its accruals and of
      its index update. */
  ghost predicate Preserves(cfg: Config, s: State, t: State, accruals: nat, emitted: nat) {
    && Worth(cfg, t) <= Worth(cfg, s) + emitted * PRECISION
    && Worth(cfg, s) + emitted * PRECISION <= Worth(cfg, t) + accruals * PRECISION + Dust(cfg, s)
  }

  lemma NothingEmittedYet(cfg: Config, s: State)
    requires SelfAsset(cfg, s).lastUpdateTimestamp == s.now
    ensures Emitted(cfg, s) == 0 && Dust(cfg, s) == 0
  {
    assert SelfAsset(cfg, s).emissionPerSecond * 0 == 0;
  }

  ghost predicate Ready(cfg: Config, s: State) {
    Books(cfg, s) && AssetsInv(s.assets, s.now)
  }

  lemma AccruePreserves(cfg: Config, s: State, u: Address)
    requires Ready(cfg, s) && Accrue(cfg, s, u).Ok?
    ensures var t := Accrue(cfg, s, u).value;
      && Accrued(cfg, s, t, u) && AssetsInv(t.assets, t.now)
      && SameEnvironment(s, t) && SameTokens(s, t)
      && Emitted(cfg, t) == 0 && Dust(cfg, t) == 0
      && Preserves(cfg, s, t, 1, 0)
  {
    var t := Accrue(cfg, s, u).value;
    assert AssetInv(SelfAsset(cfg, s), s.now);
    AccrueParts(cfg, s, u);
    AccrueIs(cfg, s, u);
    AccrueOwed(cfg, s, t, u);
    NothingEmittedYet(cfg, t);
  }

  /** Moving tokens of accounts that are up to date changes no worth. */
  lemma MovePreserves(cfg: Config, s1: State, t: State, from: Address, to: Address, amount: nat)
    requires SameEnvironment(s1, t) && SameRewards(s1, t)
    requires from != ZERO ==> amount <= Get(s1.balances, from)
    requires t.balances == Shift(s1.balances, from, to, amount)
    requires SelfAsset(cfg, s1).lastUpdateTimestamp == s1.now
    requires from != ZERO ==> Get(SelfAsset(cfg, s1).users, from) == SelfAsset(cfg, s1).index
    requires to != ZERO ==> Get(SelfAsset(cfg, s1).users, to) == SelfAsset(cfg, s1).index
    ensures Worth(cfg, t) == Worth(cfg, s1)
  {
    UnsettledShift(s1.balances, SelfAsset(cfg, s1).users, SelfAsset(cfg, s1).index, from, to, amount);
    NothingEmittedYet(cfg, s1);
    NothingEmittedYet(cfg, t);
  }

  lemma StakePreserves(cfg: Config, s: State, u: Address, amount: nat, accepts: bool)
    requires Ready(cfg, s) && StakeStep(cfg, s, u, amount, accepts).Ok?
    ensures Preserves(cfg, s, StakeStep(cfg, s, u, amount, accepts).value, 1, 0)
  {
    StakeParts(cfg, s, u, amount, accepts);
    AccruePreserves(cfg, s, u);
    MovePreserves(cfg, Accrue(cfg, s, u).value, StakeStep(cfg, s, u, amount, accepts).value, ZERO, u, amount);
  }

  lemma RedeemPreserves(cfg: Config, s: State, u: Address, to: Address, amount: nat, accepts: bool)
    requires Ready(cfg, s) && RedeemStep(cfg, s, u, to, amount, accepts).Ok?
    ensures Preserves(cfg, s, RedeemStep(cfg, s, u, to, amount, accepts).value, 1, 0)
  {
    RedeemParts(cfg, s, u, to, amount, accepts);
    AccruePreserves(cfg, s, u);
    MovePreserves(cfg, Accrue(cfg, s, u).value, RedeemStep(cfg, s, u, to, amount, accepts).value, u, ZERO,
      Min(amount, Get(s.balances, u)));
  }

  /** Two accruals in one call: the second finds the index up to date. */
  lemma AccrueBothPreserves(cfg: Config, s: State, from: Address, to: Address)
    requires Ready(cfg, s) && AccrueBoth(cfg, s, from, to).Ok?
    ensures var t := AccrueBoth(cfg, s, from, to).value;
      && SameEnvironment(s, t) && SameTokens(s, t)
      && SelfAsset(cfg, t).lastUpdateTimestamp == t.now
      && Get(SelfAsset(cfg, t).users, from) == SelfAsset(cfg, t).index
      && Get(SelfAsset(cfg, t).users, to) == SelfAsset(cfg, t).index
      && Preserves(cfg, s, t, if from == to then 1 else 2, 0)
  {
    AccruePreserves(cfg, s, from);
    var s1 := Accrue(cfg, s, from).value;
    if from != to {
      AccrueParts(cfg, s, from);
      AccruePreserves(cfg, s1, to);
      IndexAlreadyNow(cfg, s1);
    }
  }

  lemma IndexAlreadyNow(cfg: Config, s: State)
    requires SelfAsset(cfg, s).lastUpdateTimestamp == s.now
    ensures IndexNow(cfg, s) == SelfAsset(cfg, s).index
  {
    NoGain(SelfAsset(cfg, s).emissionPerSecond, s.totalSupply);
  }

  lemma TransferPreserves(cfg: Config, s: State, from: Address, to: Address, amount: nat)
    requires Ready(cfg, s) && TransferStep(cfg, s, from, to, amount).Ok?
    ensures Preserves(cfg, s, TransferStep(cfg, s, from, to, amount).value, if from == to then 1 else 2, 0)
  {
    TransferParts(cfg, s, from, to, amount);
    AccrueBothPreserves(cfg, s, from, to);
    MovePreserves(cfg, AccrueBoth(cfg, s, from, to).value, TransferStep(cfg, s, from, to, amount).value, from, to,
      amount);
  }

  lemma ClaimPreserves(cfg: Config, s: State, u: Address, amount: nat, accepts: bool)
    requires Ready(cfg, s) && ClaimStep(cfg, s, u, amount, accepts).Ok?
    ensures Preserves(cfg, s, ClaimStep(cfg, s, u, amount, accepts).value, 1, 0)
  {
    ClaimParts(cfg, s, u, amount, accepts);
    AccruePreserves(cfg, s, u);
    var s1, t := Accrue(cfg, s, u).value, ClaimStep(cfg, s, u, amount, accepts).value;
    TotalUpdate(s1.stakerRewardsToClaim, u, Get(t.stakerRewardsToClaim, u));
    TotalUpdate(s1.rewardsPaid, u, Get(t.rewardsPaid, u));
    NothingEmittedYet(cfg, t);
  }

  lemma TimeEmits(cfg: Config, s: State, seconds: nat)
    requires Ready(cfg, s)
    ensures Emitted(cfg, Step(cfg, s, NextBlock(seconds)).value)
      == Emitted(cfg, s) + EmissionOf(cfg, s, NextBlock(seconds))
  {
    var a, end := SelfAsset(cfg, s), s.impl.distributionEnd;
    assert AssetInv(a, s.now);
    WindowAdds(a.lastUpdateTimestamp, s.now, s.now + seconds, end);
    RunningIsWindow(s.now, seconds, end);
    Distribute(a.emissionPerSecond, Window(a.lastUpdateTimestamp, s.now, end), Window(s.now, s.now + seconds, end));
  }

  lemma TimePreserves(cfg: Config, s: State, seconds: nat)
    requires Ready(cfg, s)
    ensures Worth(cfg, Step(cfg, s, NextBlock(seconds)).value)
         == Worth(cfg, s) + EmissionOf(cfg, s, NextBlock(seconds)) * PRECISION
  {
    TimeEmits(cfg, s, seconds);
  }

  lemma UpgradeEmits(cfg: Config, s: State, impl: Implementation)
    requires UpgradeStep(cfg, s, impl).Ok?
    ensures Emitted(cfg, UpgradeStep(cfg, s, impl).value) <= Emitted(cfg, s) + EmissionOf(cfg, s, Upgrade(impl))
  {
    UpgradeParts(cfg, s, impl);
    var t := UpgradeStep(cfg, s, impl).value;
    PayableIsWindow(cfg, s);
    PayableIsWindow(cfg, t);
    CountSplit(s.now, Payable(cfg, t), Payable(cfg, s), NewlyPayable(cfg, s, t));
    var e, w := SelfAsset(cfg, s).emissionPerSecond, CountSeconds(s.now, Payable(cfg, s));
    var v, d := CountSeconds(s.now, Payable(cfg, t)), CountSeconds(s.now, NewlyPayable(cfg, s, t));
    MulLe(e, v, w + d);
    Distribute(e, w, d);
  }

  lemma UpgradeWorth(cfg: Config, s: State, impl: Implementation)
    requires UpgradeStep(cfg, s, impl).Ok?
    ensures var t := UpgradeStep(cfg, s, impl).value;
      Worth(cfg, t) <= Worth(cfg, s) + EmissionOf(cfg, s, Upgrade(impl)) * PRECISION
  {
    UpgradeParts(cfg, s, impl);
    AdministrativeParts(cfg, s, Upgrade(impl));
    UpgradeEmits(cfg, s, impl);
  }

  // ---------- configuring ----------

  /** The totals given for the contract itself: none, or at least the supply. */
  ghost predicate SafeTotals(cfg: Config, s: State, inputs: seq<AssetConfigInput>) {
    forall i :: 0 <= i < |inputs| && inputs[i].underlyingAsset == cfg.self
      ==> inputs[i].totalStaked == 0 || s.totalSupply <= inputs[i].totalStaked
  }

  /** The true totals. */
  ghost predicate TrueTotals(cfg: Config, s: State, inputs: seq<AssetConfigInput>) {
    forall i :: 0 <= i < |inputs| && inputs[i].underlyingAsset == cfg.self ==> inputs[i].totalStaked == s.totalSupply
  }

  lemma ConfigureSelfWorth(cfg: Config, s: State, t: State, c: AssetConfigInput)
    requires Ready(cfg, s) && c.underlyingAsset == cfg.self
    requires c.totalStaked == 0 || s.totalSupply <= c.totalStaked
    requires var a := SelfAsset(cfg, s);
      && t == s.(assets := t.assets)
      && SelfAsset(cfg, t) == a.(
           index := a.index + Gain(a.emissionPerSecond,
             Window(a.lastUpdateTimestamp, s.now, s.impl.distributionEnd), c.totalStaked),
           lastUpdateTimestamp := s.now,
           emissionPerSecond := c.emissionPerSecond)
    ensures Worth(cfg, t) <= Worth(cfg, s)
    ensures c.totalStaked == s.totalSupply ==> Worth(cfg, s) <= Worth(cfg, t) + Dust(cfg, s)
  {
    var a := SelfAsset(cfg, s);
    assert AssetInv(a, s.now);
    var w := Window(a.lastUpdateTimestamp, s.now, s.impl.distributionEnd);
    var gain := Gain(a.emissionPerSecond, w, c.totalStaked);
    UnsettledIndex(s.balances, a.users, a.index, gain);
    NothingEmittedYet(cfg, t);
    if c.totalStaked == s.totalSupply {
      GainSpread(cfg, s);
    } else {
      LargeTotalIsSafe(a.emissionPerSecond, w, c.totalStaked, s.totalSupply);
    }
  }

  lemma ConfigureOneWorth(cfg: Config, s: State, c: AssetConfigInput)
    requires Ready(cfg, s) && ConfigureOne(s.now, s.impl.distributionEnd, s.assets, c).Ok?
    requires c.underlyingAsset == cfg.self ==> c.totalStaked == 0 || s.totalSupply <= c.totalStaked
    ensures var t := s.(assets := ConfigureOne(s.now, s.impl.distributionEnd, s.assets, c).value);
      && Worth(cfg, t) <= Worth(cfg, s)
      && (c.underlyingAsset == cfg.self && c.totalStaked == s.totalSupply
        ==> Worth(cfg, s) <= Worth(cfg, t) + Dust(cfg, s))
      && (c.underlyingAsset != cfg.self ==> Worth(cfg, s) == Worth(cfg, t) && SelfAsset(cfg, t) == SelfAsset(cfg, s))
      && (c.underlyingAsset == cfg.self ==> SelfAsset(cfg, t).lastUpdateTimestamp == t.now)
  {
    ConfigureOneKeeps(s.now, s.impl.distributionEnd, s.assets, c);
    if c.underlyingAsset == cfg.self {
      ConfigureSelfWorth(cfg, s, s.(assets := ConfigureOne(s.now, s.impl.distributionEnd, s.assets, c).value), c);
    }
  }

  lemma {:induction false} ConfigureReady(cfg: Config, s: State, inputs: seq<AssetConfigInput>)
    requires Ready(cfg, s) && Configure(s.now, s.impl.distributionEnd, s.assets, inputs).Ok?
    ensures Ready(cfg, s.(assets := Configure(s.now, s.impl.distributionEnd, s.assets, inputs).value))
  {
    ConfigureKeeps(s.now, s.impl.distributionEnd, s.assets, inputs);
  }

  lemma {:induction false} ConfigureWorth(cfg: Config, s: State, inputs: seq<AssetConfigInput>)
    requires Ready(cfg, s) && Configure(s.now, s.impl.distributionEnd, s.assets, inputs).Ok?
    requires SafeTotals(cfg, s, inputs)
    ensures var t := s.(assets := Configure(s.now, s.impl.distributionEnd, s.assets, inputs).value);
      && Worth(cfg, t) <= Worth(cfg, s)
      && (SelfAsset(cfg, t) == SelfAsset(cfg, s) || SelfAsset(cfg, t).lastUpdateTimestamp == s.now)
      && (TrueTotals(cfg, s, inputs) ==>
            Worth(cfg, s) <= Worth(cfg, t) + if SelfAsset(cfg, t) == SelfAsset(cfg, s) then 0 else Dust(cfg, s))
  {
    if inputs == [] {
    } else {
      var prefix, c := inputs[..|inputs| - 1], inputs[|inputs| - 1];
      ConfigureWorth(cfg, s, prefix);
      var q := s.(assets := Configure(s.now, s.impl.distributionEnd, s.assets, prefix).value);
      ConfigureReady(cfg, s, prefix);
      ConfigureOneWorth(cfg, q, c);
    }
  }

  /** The dust of a step: the supply, if the step updated the index. */
  function DustOf(cfg: Config, s: State, a: Action): nat {
    match Step(cfg, s, a)
    case Revert(_) => 0
    case Ok(t) =>
      if !a.Upgrade? && SelfAsset(cfg, t).lastUpdateTimestamp != SelfAsset(cfg, s).lastUpdateTimestamp
      then s.totalSupply else 0
  }

  lemma ConfigureDust(cfg: Config, s: State, sender: Address, inputs: seq<AssetConfigInput>)
    requires ConfigureStep(cfg, s, sender, inputs).Ok?
    requires var t := ConfigureStep(cfg, s, sender, inputs).value;
      SelfAsset(cfg, t) == SelfAsset(cfg, s) || SelfAsset(cfg, t).lastUpdateTimestamp == s.now
    ensures DustOf(cfg, s, ConfigureAssets(sender, inputs))
         == if SelfAsset(cfg, ConfigureStep(cfg, s, sender, inputs).value) == SelfAsset(cfg, s) then 0 else Dust(cfg, s)
  {
  }

  lemma {:induction false} ConfigurePreserves(cfg: Config, s: State, sender: Address, inputs: seq<AssetConfigInput>)
    requires Ready(cfg, s) && ConfigureStep(cfg, s, sender, inputs).Ok? && SafeTotals(cfg, s, inputs)
    ensures var t := ConfigureStep(cfg, s, sender, inputs).value;
      && Worth(cfg, t) <= Worth(cfg, s)
      && (TrueTotals(cfg, s, inputs)
          ==> Worth(cfg, s) <= Worth(cfg, t) + DustOf(cfg, s, ConfigureAssets(sender, inputs)))
  {
    ConfigureParts(cfg, s, sender, inputs);
    ConfigureWorth(cfg, s, inputs);
    ConfigureDust(cfg, s, sender, inputs);
  }

  /** The calls that update an account's rewards. */
  ghost predicate Accruing(a: Action) {
    a.Stake? || a.Redeem? || a.ClaimRewards? || a.Transfer?
  }

  lemma AccruingPreserves(cfg: Config, s: State, a: Action)
    requires Ready(cfg, s) && Accruing(a) && Step(cfg, s, a).Ok?
    ensures Preserves(cfg, s, Step(cfg, s, a).value, AccrualsOf(a), 0)
  {
    match a
    case Stake(u, amount, accepts) => StakePreserves(cfg, s, u, amount, accepts);
    case Redeem(u, to, amount, accepts) => RedeemPreserves(cfg, s, u, to, amount, accepts);
    case Transfer(from, to, amount) => TransferPreserves(cfg, s, from, to, amount);
    case ClaimRewards(u, _, amount, accepts) => ClaimPreserves(cfg, s, u, amount, accepts);
  }

  lemma AccruingUpdates(cfg: Config, s: State, a: Action)
    requires Ready(cfg, s) && Accruing(a) && Step(cfg, s, a).Ok?
    ensures SelfAsset(cfg, Step(cfg, s, a).value).lastUpdateTimestamp == s.now
  {
    match a
    case Stake(u, amount, accepts) =>
      StakeParts(cfg, s, u, amount, accepts);
      AccruePreserves(cfg, s, u);
    case Redeem(u, to, amount, accepts) =>
      RedeemParts(cfg, s, u, to, amount, accepts);
      AccruePreserves(cfg, s, u);
    case Transfer(from, to, amount) =>
      TransferParts(cfg, s, from, to, amount);
      AccrueBothPreserves(cfg, s, from, to);
    case ClaimRewards(u, to, amount, accepts) =>
      ClaimParts(cfg, s, u, amount, accepts);
      AccruePreserves(cfg, s, u);
  }

  /** No step gives out more than is emitted. */
  lemma StepWorth(cfg: Config, s: State, a: Action)
    requires Ready(cfg, s) && Possible(s, a)
    requires a.ConfigureAssets? && Step(cfg, s, a).Ok? ==> SafeTotals(cfg, s, a.inputs)
    ensures Worth(cfg, Apply(cfg, s, a)) <= Worth(cfg, s) + EmissionOf(cfg, s, a) * PRECISION
  {
    if Step(cfg, s, a).Ok? {
      if Accruing(a) {
        AccruingPreserves(cfg, s, a);
      } else {
        match a
        case NextBlock(seconds) => TimePreserves(cfg, s, seconds);
        case ConfigureAssets(sender, inputs) => ConfigurePreserves(cfg, s, sender, inputs);
        case Upgrade(impl) => UpgradeWorth(cfg, s, impl);
        case _ => AdministrativeParts(cfg, s, a);
      }
    }
  }

  /** The upgrade leaves every second payable that was: nothing was pending, or the new last
      update is not later and the new end does not cut the pending seconds. */
  ghost predicate TakesNothingBack(cfg: Config, s: State, impl: Implementation) {
    var last, hi := SelfAsset(cfg, s).lastUpdateTimestamp, Min(s.now, s.impl.distributionEnd);
    hi <= last || ((impl.rewinds ==> REWIND_TIMESTAMP <= last) && hi <= impl.distributionEnd)
  }

  /** From when on seconds are payable after the upgrade. */
  function UpgradedUpdate(cfg: Config, s: State, impl: Implementation): nat {
    if impl.rewinds then REWIND_TIMESTAMP else SelfAsset(cfg, s).lastUpdateTimestamp
  }

  lemma UpgradedPayable(cfg: Config, s: State, impl: Implementation, x: nat)
    requires UpgradeStep(cfg, s, impl).Ok?
    ensures Payable(cfg, UpgradeStep(cfg, s, impl).value)(x)
       <==> UpgradedUpdate(cfg, s, impl) <= x < Min(s.now, impl.distributionEnd)
    ensures Payable(cfg, s)(x) <==> SelfAsset(cfg, s).lastUpdateTimestamp <= x < Min(s.now, s.impl.distributionEnd)
  {
    UpgradeParts(cfg, s, impl);
    var t := UpgradeStep(cfg, s, impl).value;
    assert Payable(cfg, t)(x) <==> SelfAsset(cfg, t).lastUpdateTimestamp <= x < Min(t.now, t.impl.distributionEnd);
  }

  lemma TakesNothingBackIff(cfg: Config, s: State, impl: Implementation)
    requires UpgradeStep(cfg, s, impl).Ok?
    ensures TakesNothingBack(cfg, s, impl)
       <==> forall x: nat :: Payable(cfg, s)(x) ==> Payable(cfg, UpgradeStep(cfg, s, impl).value)(x)
  {
    var t := UpgradeStep(cfg, s, impl).value;
    forall x: nat
      ensures Payable(cfg, t)(x)
         <==> UpgradedUpdate(cfg, s, impl) <= x < Min(s.now, impl.distributionEnd)
      ensures Payable(cfg, s)(x) <==> SelfAsset(cfg, s).lastUpdateTimestamp <= x < Min(s.now, s.impl.distributionEnd)
    {
      UpgradedPayable(cfg, s, impl, x);
    }
    var last, hi := SelfAsset(cfg, s).lastUpdateTimestamp, Min(s.now, s.impl.distributionEnd);
    if last < hi {
      assert Payable(cfg, s)(last) && Payable(cfg, s)(hi - 1);
    }
  }

  lemma {:induction false} CountJoin(n: nat, p: nat -> bool, q: nat -> bool, d: nat -> bool)
    requires forall t: nat :: d(t) <==> p(t) && !q(t)
    requires forall t: nat :: q(t) ==> p(t)
    ensures CountSeconds(n, p) == CountSeconds(n, q) + CountSeconds(n, d)
  {
    if n == 0 {
    } else {
      CountJoin(n - 1, p, q, d);
    }
  }

  /** Then the seconds payable after it are those before and the newly payable ones. */
  lemma UpgradedWindow(cfg: Config, s: State, impl: Implementation)
    requires UpgradeStep(cfg, s, impl).Ok? && TakesNothingBack(cfg, s, impl)
    ensures var t := UpgradeStep(cfg, s, impl).value;
      Window(SelfAsset(cfg, t).lastUpdateTimestamp, t.now, t.impl.distributionEnd)
      == Window(SelfAsset(cfg, s).lastUpdateTimestamp, s.now, s.impl.distributionEnd)
         + CountSeconds(s.now, NewlyPayable(cfg, s, t))
  {
    var t := UpgradeStep(cfg, s, impl).value;
    UpgradeParts(cfg, s, impl);
    TakesNothingBackIff(cfg, s, impl);
    PayableIsWindow(cfg, s);
    PayableIsWindow(cfg, t);
    CountJoin(s.now, Payable(cfg, t), Payable(cfg, s), NewlyPayable(cfg, s, t));
  }

  lemma FullUpgrade(cfg: Config, s: State, impl: Implementation)
    requires UpgradeStep(cfg, s, impl).Ok? && TakesNothingBack(cfg, s, impl)
    ensures Worth(cfg, UpgradeStep(cfg, s, impl).value) == Worth(cfg, s) + EmissionOf(cfg, s, Upgrade(impl)) * PRECISION
  {
    UpgradeParts(cfg, s, impl);
    AdministrativeParts(cfg, s, Upgrade(impl));
    UpgradedWindow(cfg, s, impl);
    Distribute(SelfAsset(cfg, s).emissionPerSecond,
      Window(SelfAsset(cfg, s).lastUpdateTimestamp, s.now, s.impl.distributionEnd),
      CountSeconds(s.now, NewlyPayable(cfg, s, UpgradeStep(cfg, s, impl).value)));
  }

  /** A step under true totals that takes no payable second back. */
  ghost predicate SteadyStep(cfg: Config, s: State, a: Action) {
    Step(cfg, s, a).Ok? ==>
      && (a.ConfigureAssets? ==> TrueTotals(cfg, s, a.inputs))
      && (a.Upgrade? ==> TakesNothingBack(cfg, s, a.impl))
  }

  lemma AccruingDust(cfg: Config, s: State, a: Action)
    requires Ready(cfg, s) && Accruing(a) && Step(cfg, s, a).Ok?
    ensures DustOf(cfg, s, a) == Dust(cfg, s) && EmissionOf(cfg, s, a) == 0
  {
    AccruingUpdates(cfg, s, a);
  }

  /** No step loses more than the rounding of its accruals and of its index update. */
  lemma StepDust(cfg: Config, s: State, a: Action)
    requires Ready(cfg, s) && Possible(s, a) && SteadyStep(cfg, s, a) && Step(cfg, s, a).Ok?
    ensures Worth(cfg, s) + EmissionOf(cfg, s, a) * PRECISION
         <= Worth(cfg, Apply(cfg, s, a)) + AccrualsOf(a) * PRECISION + DustOf(cfg, s, a)
  {
    if Accruing(a) {
      AccruingPreserves(cfg, s, a);
      AccruingDust(cfg, s, a);
    } else {
      match a
      case NextBlock(seconds) => TimePreserves(cfg, s, seconds);
      case ConfigureAssets(sender, inputs) => ConfigurePreserves(cfg, s, sender, inputs);
      case Upgrade(impl) => FullUpgrade(cfg, s, impl);
      case _ => AdministrativeParts(cfg, s, a);
    }
  }

  // ---------- whole runs ----------

  ghost predicate SafelyConfigured(cfg: Config, r: Run) {
    match r
    case Deploy(_, _, _) => true
    case After(prior, a) =>
      && SafelyConfigured(cfg, prior)
      && (a.ConfigureAssets? && Step(cfg, Final(cfg, prior), a).Ok? ==> SafeTotals(cfg, Final(cfg, prior), a.inputs))
  }

  ghost predicate Steady(cfg: Config, r: Run) {
    match r
    case Deploy(_, _, _) => true
    case After(prior, a) => Steady(cfg, prior) && SteadyStep(cfg, Final(cfg, prior), a)
  }

  function Accruals(cfg: Config, r: Run): nat {
    match r
    case Deploy(_, _, _) => 0
    case After(prior, a) => Accruals(cfg, prior) + if Step(cfg, Final(cfg, prior), a).Ok? then AccrualsOf(a) else 0
  }

  function TotalDust(cfg: Config, r: Run): nat {
    match r
    case Deploy(_, _, _) => 0
    case After(prior, a) => TotalDust(cfg, prior) + DustOf(cfg, Final(cfg, prior), a)
  }

  lemma NothingAtFirst(cfg: Config, impl: Implementation, now: nat, block: nat)
    ensures Worth(cfg, Fresh(cfg, impl, now, block)) == 0
  {
    var s := Fresh(cfg, impl, now, block);
    assert Total(map[]) == 0;
    assert TotalUnsettled(map[], map[], 0) == 0;
  }

  lemma {:induction false} WorthWithinBudget(cfg: Config, r: Run)
    requires Feasible(cfg, r) && SafelyConfigured(cfg, r)
    ensures Worth(cfg, Final(cfg, r)) <= Budget(cfg, r) * PRECISION
  {
    match r
    case Deploy(impl, now, block) => NothingAtFirst(cfg, impl, now, block);
    case After(prior, a) =>
      WorthWithinBudget(cfg, prior);
      IndexesWellFormed(cfg, prior);
      StepWorth(cfg, Final(cfg, prior), a);
  }

  lemma {:induction false} WorthNearBudget(cfg: Config, r: Run)
    requires Feasible(cfg, r) && Steady(cfg, r)
    ensures Budget(cfg, r) * PRECISION <= Worth(cfg, Final(cfg, r)) + Accruals(cfg, r) * PRECISION + TotalDust(cfg, r)
  {
    if r.After? {
      WorthNearBudget(cfg, r.prior);
      IndexesWellFormed(cfg, r.prior);
      if Step(cfg, Final(cfg, r.prior), r.act).Ok? {
        StepDust(cfg, Final(cfg, r.prior), r.act);
      }
    } else {
      NothingAtFirst(cfg, r.impl, r.now, r.block);
    }
  }

  /** What each holder would accrue if updated now. */
  ghost function PendingNow(cfg: Config, s: State): Address -> int {
    (u: Address) => Get(s.balances, u) * (IndexNow(cfg, s) - Get(SelfAsset(cfg, s).users, u)) / PRECISION
  }

  /** All rewards: paid, claimable and pending. */
  ghost function AllRewards(cfg: Config, s: State): int {
    Total(s.rewardsPaid) + Total(s.stakerRewardsToClaim) + Sum(s.balances.Keys, PendingNow(cfg, s))
  }

  /** The view shows what is claimable and pending. */
  lemma ViewShowsPending(cfg: Config, s: State, u: Address)
    requires Ready(cfg, s) && GetTotalRewardsBalance(cfg, s, u).Ok?
    ensures GetTotalRewardsBalance(cfg, s, u).value == Get(s.stakerRewardsToClaim, u) + PendingNow(cfg, s)(u)
  {
    SingleView(s.now, s.impl.distributionEnd, s.assets, u, UserStakeInput(cfg.self, Get(s.balances, u), s.totalSupply));
    assert AssetInv(SelfAsset(cfg, s), s.now);
    IndexAtIs(s.now, s.impl.distributionEnd, SelfAsset(cfg, s), s.totalSupply);
  }

  /** The accounts with a balance. */
  function Holders(s: State): set<Address> {
    set u | u in s.balances && s.balances[u] != 0
  }

  lemma OnlyHoldersGain(cfg: Config, s: State)
    ensures Sum(s.balances.Keys, PendingNow(cfg, s)) == Sum(Holders(s), PendingNow(cfg, s))
    ensures var gains := Unsettled(s.balances, SelfAsset(cfg, s).users, IndexNow(cfg, s));
      Sum(s.balances.Keys, gains) == Sum(Holders(s), gains)
  {
    var gains := Unsettled(s.balances, SelfAsset(cfg, s).users, IndexNow(cfg, s));
    forall u | u in s.balances.Keys - Holders(s)
      ensures gains(u) == 0 && PendingNow(cfg, s)(u) == 0
    {
      assert Get(s.balances, u) == 0;
      assert 0 * (IndexNow(cfg, s) - Get(SelfAsset(cfg, s).users, u)) == 0;
    }
    SumSupport(s.balances.Keys, Holders(s), gains);
    SumSupport(s.balances.Keys, Holders(s), PendingNow(cfg, s));
  }

  /** The pending amounts are the gains up to now, each rounded down. */
  lemma PendingFloors(cfg: Config, s: State)
    requires Ready(cfg, s)
    ensures var n := Sum(s.balances.Keys, PendingNow(cfg, s));
      var gains := TotalUnsettled(s.balances, SelfAsset(cfg, s).users, IndexNow(cfg, s));
      PRECISION * n <= gains <= PRECISION * n + PRECISION * |Holders(s)|
  {
    OnlyHoldersGain(cfg, s);
    var gains := Unsettled(s.balances, SelfAsset(cfg, s).users, IndexNow(cfg, s));
    SumFloors(Holders(s), gains, PRECISION, PendingNow(cfg, s));
  }

  lemma RewardsAgainstWorth(cfg: Config, s: State)
    requires Ready(cfg, s)
    ensures AllRewards(cfg, s) * PRECISION <= Worth(cfg, s)
    ensures Worth(cfg, s) <= (AllRewards(cfg, s) + |Holders(s)|) * PRECISION + Dust(cfg, s)
  {
    var a, index := SelfAsset(cfg, s), IndexNow(cfg, s);
    assert AssetInv(a, s.now);
    GainSpread(cfg, s);
    UnsettledIndex(s.balances, a.users, a.index, index - a.index);
    PendingFloors(cfg, s);
  }

  /** Solvency. In every run, across upgrades and rewinds, as long as the totals given for the
      contract are none or not below the supply: all rewards paid, claimable and pending are
      at most what was emitted second by second. */
  lemma {:induction false} RewardsWithinEmission(cfg: Config, r: Run)
    requires Feasible(cfg, r) && SafelyConfigured(cfg, r)
    ensures AllRewards(cfg, Final(cfg, r)) <= Budget(cfg, r)
  {
    IndexesWellFormed(cfg, r);
    WorthWithinBudget(cfg, r);
    RewardsAgainstWorth(cfg, Final(cfg, r));
  }

  /** The dust bound. With true totals and upgrades that take nothing back, they fall short of
      it by at most one unit for each accrual and each account with a balance, and, scaled, a
      unit of index for each token staked at each index update. */
  lemma {:induction false} RewardsNearEmission(cfg: Config, r: Run)
    requires Feasible(cfg, r) && Steady(cfg, r)
    ensures var s := Final(cfg, r);
      Budget(cfg, r) * PRECISION
      <= (AllRewards(cfg, s) + Accruals(cfg, r) + |Holders(s)|) * PRECISION + TotalDust(cfg, r) + s.totalSupply
  {
    IndexesWellFormed(cfg, r);
    WorthNearBudget(cfg, r);
    RewardsAgainstWorth(cfg, Final(cfg, r));
  }

  // ---------- the view and the claim ----------

  lemma ViewIsAccrual(cfg: Config, s: State, u: Address)
    requires Ready(cfg, s)
    ensures var view, r := GetTotalRewardsBalance(cfg, s, u), UpdateCurrentUnclaimedRewards(cfg, s, u, false);
      && (view.Ok? <==> r.Ok?)
      && (view.Ok? ==> r.value.1 == view.value)
  {
    var stake := UserStakeInput(cfg.self, Get(s.balances, u), s.totalSupply);
    SingleView(s.now, s.impl.distributionEnd, s.assets, u, stake);
    forall x
      ensures Get(Asset(s.assets, x).users, u) <= Asset(s.assets, x).index
    {
      assert AssetInv(Asset(s.assets, x), s.now);
    }
    FirstUpdate(s.now, s.impl.distributionEnd, s.assets, s.assets, u, stake);
  }

  /** In every state of every run, claiming everything pays exactly what the view shows, and
      succeeds exactly when the view does and the token accepts. */
  lemma {:induction false} ClaimPaysView(cfg: Config, r: Run, u: Address, to: Address, accepts: bool)
    requires Feasible(cfg, r)
    ensures var s := Final(cfg, r);
      var view, claim := GetTotalRewardsBalance(cfg, s, u), Step(cfg, s, ClaimRewards(u, to, UINT256 - 1, accepts));
      && (claim.Ok? <==> view.Ok? && accepts)
      && (claim.Ok? ==>
           && Get(claim.value.rewardsPaid, u) == Get(s.rewardsPaid, u) + view.value
           && Get(claim.value.stakerRewardsToClaim, u) == 0)
  {
    IndexesWellFormed(cfg, r);
    ViewIsAccrual(cfg, Final(cfg, r), u);
  }
}
