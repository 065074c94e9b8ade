/** When the index of the contract's own asset is updated over a run, and over which seconds. */
module IndexUpdates {
  import opened Evm
  import opened Distribution
  import opened StakedToken
  import opened Bookkeeping
  import opened Rewards
  import opened Solvency

  function LastUpdate(cfg: Config, s: State): nat {
    SelfAsset(cfg, s).lastUpdateTimestamp
  }

  lemma {:induction false} ConfigureTimes(cfg: Config, s: State, inputs: seq<AssetConfigInput>)
    requires AssetsInv(s.assets, s.now) && 0 < s.now < UINT128
    requires Configure(s.now, s.impl.distributionEnd, s.assets, inputs).Ok?
    ensures var t := s.(assets := Configure(s.now, s.impl.distributionEnd, s.assets, inputs).value);
      LastUpdate(cfg, t) == LastUpdate(cfg, s) || LastUpdate(cfg, t) == s.now
  {
    if inputs == [] {
    } else {
      var prefix := inputs[..|inputs| - 1];
      ConfigureTimes(cfg, s, prefix);
      ConfigureKeeps(s.now, s.impl.distributionEnd, s.assets, prefix);
      ConfigureOneKeeps(s.now, s.impl.distributionEnd,
        Configure(s.now, s.impl.distributionEnd, s.assets, prefix).value, inputs[|inputs| - 1]);
    }
  }

  /** Apart from an upgrade, a step leaves the time of the last update or sets it to now. */
  lemma UpdateTimes(cfg: Config, s: State, a: Action)
    requires Ready(cfg, s) && Step(cfg, s, a).Ok? && !a.Upgrade?
    ensures var t := Step(cfg, s, a).value;
      && t.impl == s.impl
      && (LastUpdate(cfg, t) == LastUpdate(cfg, s) || LastUpdate(cfg, t) == s.now)
  {
    if !a.NextBlock? {
      EnvironmentStep(cfg, s, a);
    }
    if Accruing(a) {
      AccruingUpdates(cfg, s, a);
    } else if a.ConfigureAssets? {
      ConfigureParts(cfg, s, a.sender, a.inputs);
      ConfigureTimes(cfg, s, a.inputs);
    } else {
      AdministrativeParts(cfg, s, a);
    }
  }

  /** `later` continues `r` without another upgrade. */
  ghost predicate SameImplementation(cfg: Config, r: Run, later: Run) {
    later == r || (
      && later.After?
      && SameImplementation(cfg, r, later.prior)
      && !(later.act.Upgrade? && Step(cfg, Final(cfg, later.prior), later.act).Ok?))
  }

  // ---------- after the end ----------

  lemma {:induction false} ConfigureFrozen(cfg: Config, s: State, inputs: seq<AssetConfigInput>)
    requires AssetsInv(s.assets, s.now) && 0 < s.now < UINT128
    requires s.impl.distributionEnd <= LastUpdate(cfg, s)
    requires Configure(s.now, s.impl.distributionEnd, s.assets, inputs).Ok?
    ensures var a := Asset(Configure(s.now, s.impl.distributionEnd, s.assets, inputs).value, cfg.self);
      a.index == SelfAsset(cfg, s).index && s.impl.distributionEnd <= a.lastUpdateTimestamp
  {
    if inputs == [] {
    } else {
      var prefix, c := inputs[..|inputs| - 1], inputs[|inputs| - 1];
      ConfigureFrozen(cfg, s, prefix);
      var m := Configure(s.now, s.impl.distributionEnd, s.assets, prefix).value;
      ConfigureKeeps(s.now, s.impl.distributionEnd, s.assets, prefix);
      assert AssetInv(Asset(m, cfg.self), s.now);
      ConfigureOneKeeps(s.now, s.impl.distributionEnd, m, c);
      NoGain(Asset(m, cfg.self).emissionPerSecond, c.totalStaked);
    }
  }

  lemma AccrueFrozen(cfg: Config, s: State, u: Address)
    requires Ready(cfg, s) && Accrue(cfg, s, u).Ok?
    requires s.impl.distributionEnd <= LastUpdate(cfg, s)
    ensures SelfAsset(cfg, Accrue(cfg, s, u).value).index == SelfAsset(cfg, s).index
    ensures s.impl.distributionEnd <= LastUpdate(cfg, Accrue(cfg, s, u).value)
  {
    assert AssetInv(SelfAsset(cfg, s), s.now);
    AccrueIs(cfg, s, u);
    NoGain(SelfAsset(cfg, s).emissionPerSecond, s.totalSupply);
  }

  lemma AccrueBothFrozen(cfg: Config, s: State, from: Address, to: Address)
    requires Ready(cfg, s) && AccrueBoth(cfg, s, from, to).Ok?
    requires s.impl.distributionEnd <= LastUpdate(cfg, s)
    ensures SelfAsset(cfg, AccrueBoth(cfg, s, from, to).value).index == SelfAsset(cfg, s).index
  {
    AccrueFrozen(cfg, s, from);
    if from != to {
      AccruePreserves(cfg, s, from);
      AccrueParts(cfg, s, from);
      AccrueFrozen(cfg, Accrue(cfg, s, from).value, to);
    }
  }

  lemma AccruingFrozen(cfg: Config, s: State, a: Action)
    requires Ready(cfg, s) && Accruing(a) && Step(cfg, s, a).Ok?
    requires s.impl.distributionEnd <= LastUpdate(cfg, s)
    ensures SelfAsset(cfg, Step(cfg, s, a).value).index == SelfAsset(cfg, s).index
  {
    match a
    case Stake(u, amount, accepts) =>
      StakeParts(cfg, s, u, amount, accepts);
      AccrueFrozen(cfg, s, u);
    case Redeem(u, to, amount, accepts) =>
      RedeemParts(cfg, s, u, to, amount, accepts);
      AccrueFrozen(cfg, s, u);
    case ClaimRewards(u, to, amount, accepts) =>
      ClaimParts(cfg, s, u, amount, accepts);
      AccrueFrozen(cfg, s, u);
    case Transfer(from, to, amount) =>
      TransferParts(cfg, s, from, to, amount);
      AccrueBothFrozen(cfg, s, from, to);
  }

  lemma {:induction false} FrozenStep(cfg: Config, r: Run, a: Action)
    requires Feasible(cfg, After(r, a))
    requires !(a.Upgrade? && Step(cfg, Final(cfg, r), a).Ok?)
    requires Final(cfg, r).impl.distributionEnd <= LastUpdate(cfg, Final(cfg, r))
    ensures var s, t := Final(cfg, r), Final(cfg, After(r, a));
      && SelfAsset(cfg, t).index == SelfAsset(cfg, s).index
      && t.impl == s.impl && t.impl.distributionEnd <= LastUpdate(cfg, t)
  {
    IndexesWellFormed(cfg, r);
    var s := Final(cfg, r);
    assert AssetInv(SelfAsset(cfg, s), s.now);
    if Step(cfg, s, a).Ok? {
      UpdateTimes(cfg, s, a);
      if Accruing(a) {
        AccruingFrozen(cfg, s, a);
      } else if a.ConfigureAssets? {
        ConfigureParts(cfg, s, a.sender, a.inputs);
        ConfigureFrozen(cfg, s, a.inputs);
      } else {
        AdministrativeParts(cfg, s, a);
      }
    }
  }

  /** Once the index has been updated at or past the end of the distribution it stays as it is,
      whatever anyone does, for as long as the implementation stays. */
  lemma {:induction false} IndexFrozenAfterEnd(cfg: Config, r: Run, later: Run)
    requires Feasible(cfg, r) && Feasible(cfg, later) && SameImplementation(cfg, r, later)
    requires Final(cfg, r).impl.distributionEnd <= LastUpdate(cfg, Final(cfg, r))
    ensures var s, t := Final(cfg, r), Final(cfg, later);
      && SelfAsset(cfg, t).index == SelfAsset(cfg, s).index
      && t.impl == s.impl && t.impl.distributionEnd <= LastUpdate(cfg, t)
    decreases later
  {
    if later == r {
    } else {
      IndexFrozenAfterEnd(cfg, r, later.prior);
      FrozenStep(cfg, later.prior, later.act);
    }
  }

  // ---------- which seconds the updates cover ----------

  /** Whether the step updates the index. */
  ghost predicate Updates(cfg: Config, s: State, a: Action) {
    && Step(cfg, s, a).Ok? && !a.Upgrade?
    && LastUpdate(cfg, Step(cfg, s, a).value) != LastUpdate(cfg, s)
  }

  /** Whether it raises it while somebody holds tokens, so that somebody is paid. */
  ghost predicate Raises(cfg: Config, s: State, a: Action) {
    && Updates(cfg, s, a) && s.totalSupply > 0
    && SelfAsset(cfg, s).index < SelfAsset(cfg, Step(cfg, s, a).value).index
  }

  /** What is counted of a second: the index updates that cover it, or those that pay for it. */
  datatype Count = Covered | Paid

  ghost predicate Counts(cfg: Config, c: Count, s: State, a: Action) {
    match c
    case Covered => Updates(cfg, s, a)
    case Paid => Raises(cfg, s, a)
  }

  ghost predicate CountsSecond(cfg: Config, c: Count, s: State, a: Action, x: nat) {
    Counts(cfg, c, s, a) && Payable(cfg, s)(x)
  }

  /** How many index updates of the run cover second `x`, or pay for it. */
  ghost function Times(cfg: Config, c: Count, r: Run, x: nat): nat {
    match r
    case Deploy(_, _, _) => 0
    case After(prior, a) =>
      Times(cfg, c, prior, x) + if CountsSecond(cfg, c, Final(cfg, prior), a, x) then 1 else 0
  }

  lemma PayableIs(cfg: Config, s: State, x: nat)
    ensures Payable(cfg, s)(x) <==> LastUpdate(cfg, s) <= x < Min(s.now, s.impl.distributionEnd)
  {
  }

  lemma CoverExtends(cfg: Config, s: State, a: Action, first: nat, n: nat, x: nat)
    requires Ready(cfg, s) && Step(cfg, s, a).Ok? && !a.Upgrade?
    requires first <= LastUpdate(cfg, s)
    requires n == if first <= x < Min(LastUpdate(cfg, s), s.impl.distributionEnd) then 1 else 0
    ensures var t := Step(cfg, s, a).value;
      && first <= LastUpdate(cfg, t) && t.impl == s.impl
      && n + (if Updates(cfg, s, a) && Payable(cfg, s)(x) then 1 else 0)
         == if first <= x < Min(LastUpdate(cfg, t), t.impl.distributionEnd) then 1 else 0
  {
    assert AssetInv(SelfAsset(cfg, s), s.now);
    UpdateTimes(cfg, s, a);
    PayableIs(cfg, s, x);
  }

  /** Under one implementation the updates cover each second from the first timestamp to the
      last update, up to the end of the distribution, exactly once, and no other second. */
  lemma {:induction false} OneImplementationCovers(
      cfg: Config, impl: Implementation, now: nat, block: nat, later: Run, x: nat)
    requires Feasible(cfg, later) && SameImplementation(cfg, Deploy(impl, now, block), later)
    ensures var first, s := LastUpdate(cfg, Fresh(cfg, impl, now, block)), Final(cfg, later);
      && first <= LastUpdate(cfg, s) && s.impl == impl
      && Times(cfg, Covered, later, x) == if first <= x < Min(LastUpdate(cfg, s), impl.distributionEnd) then 1 else 0
    decreases later
  {
    if later == Deploy(impl, now, block) {
    } else {
      OneImplementationCovers(cfg, impl, now, block, later.prior, x);
      IndexesWellFormed(cfg, later.prior);
      var s := Final(cfg, later.prior);
      if Step(cfg, s, later.act).Ok? {
        CoverExtends(cfg, s, later.act, LastUpdate(cfg, Fresh(cfg, impl, now, block)),
          Times(cfg, Covered, later.prior, x), x);
      }
    }
  }
}
