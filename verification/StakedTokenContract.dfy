/** The staking contract as it runs: storage updated step by step, rolled back when a call
    reverts. Its run so far is kept beside it, so that what holds of all runs holds of it. */
module StakedTokenContract {
  import opened Evm
  import opened Distribution
  import opened Cooldown
  import opened Snapshots
  import opened Delegation
  import opened StakedToken
  import opened Bookkeeping
  import opened Rewards
  import opened Solvency
  import Governance
  import CooldownSafety
  import opened DistributionManager
  import opened DelegationStore

  /** What holds in every state of every run. */
  lemma {:induction false} EveryState(cfg: Config, r: Run)
    requires Feasible(cfg, r)
    ensures var s := Final(cfg, r); Books(cfg, s) && Governance.GovInv(s) && AssetsInv(s.assets, s.now)
  {
    Governance.PowersAlwaysExact(cfg, r);
    IndexesWellFormed(cfg, r);
  }

  lemma {:induction false} EveryRedemption(cfg: Config, r: Run, a: Action)
    requires Feasible(cfg, r) && RefusesUnannounced(Final(cfg, r)) && a.Redeem? && Step(cfg, Final(cfg, r), a).Ok?
    ensures CooldownSafety.Announced(cfg, r, Step(cfg, Final(cfg, r), a).value, a.sender)
  {
    CooldownSafety.RedeemWasAnnounced(cfg, r, a.sender, a.to, a.amount, a.tokenAccepts);
    EnvironmentStep(cfg, Final(cfg, r), a);
  }

  /** What holds after every transaction. */
  lemma {:induction false} EveryTransaction(cfg: Config, r: Run, a: Action)
    requires Feasible(cfg, r) && Possible(Final(cfg, r), a)
    ensures Feasible(cfg, After(r, a)) && Final(cfg, After(r, a)) == Apply(cfg, Final(cfg, r), a)
    ensures var t := Apply(cfg, Final(cfg, r), a);
      && Books(cfg, t) && Governance.GovInv(t) && AssetsInv(t.assets, t.now)
      && (a.Redeem? && Step(cfg, Final(cfg, r), a).Ok? && RefusesUnannounced(Final(cfg, r))
          ==> CooldownSafety.Announced(cfg, r, t, a.sender))
  {
    EveryState(cfg, After(r, a));
    if a.Redeem? && Step(cfg, Final(cfg, r), a).Ok? && RefusesUnannounced(Final(cfg, r)) {
      EveryRedemption(cfg, r, a);
    }
  }

  class Contract {
    const cfg: Config
    const manager: Manager
    const voting: Store
    const proposition: Store
    var now: nat
    var block: nat
    var impl: Implementation
    var lastInitializedRevision: nat
    var balances: map<Address, nat>
    var totalSupply: nat
    var stakerRewardsToClaim: map<Address, nat>
    var rewardsPaid: map<Address, nat>
    var stakersCooldowns: map<Address, nat>
    var stakedTokenHeld: nat
    ghost var run: Run

    function Model(): State
      reads this, manager, voting, proposition
    {
      State(now, block, impl, lastInitializedRevision, balances, totalSupply, manager.assets,
            stakerRewardsToClaim, rewardsPaid, stakersCooldowns, voting.Contents(), proposition.Contents(),
            stakedTokenHeld)
    }

    ghost predicate Linked()
      reads this, manager
    {
      && voting != proposition
      && manager.distributionEnd == impl.distributionEnd
      && manager.emissionManager == cfg.emissionManager
    }

    /** The storage is what the run so far has made of a fresh deployment. */
    ghost predicate Valid()
      reads this, manager, voting, proposition
    {
      Linked() && Feasible(cfg, run) && Model() == Final(cfg, run)
    }

    constructor (cfg: Config, impl: Implementation, now: nat, block: nat)
      requires Feasible(cfg, Deploy(impl, now, block))
      ensures Valid() && run == Deploy(impl, now, block) && this.cfg == cfg
      ensures fresh(manager) && fresh(voting) && fresh(proposition)
    {
      var m := new Manager(cfg.emissionManager, impl.distributionEnd);
      m.assets := Initialized(cfg, map[], impl);
      var v := new Store();
      var p := new Store();
      manager, voting, proposition := m, v, p;
      this.cfg, this.impl, this.now, this.block := cfg, impl, now, block;
      lastInitializedRevision := impl.revision;
      balances, stakerRewardsToClaim, rewardsPaid, stakersCooldowns := map[], map[], map[], map[];
      totalSupply, stakedTokenHeld := 0, 0;
      run := Deploy(impl, now, block);
    }

    // ---------- tokens ----------

    method BeforeTokenTransfer(from: Address, to: Address, amount: nat) returns (r: Result<()>)
      requires Linked()
      modifies voting`snapshots, proposition`snapshots
      ensures r.Ok? ==>
        && StakedToken.BeforeTokenTransfer(old(Model()), from, to, amount)
          == Ok((voting.Contents(), proposition.Contents()))
        && Model() == old(Model()).(voting := voting.Contents(), proposition := proposition.Contents())
      ensures r.Revert? ==> StakedToken.BeforeTokenTransfer(old(Model()), from, to, amount) == Revert(r.reason)
    {
      if impl.hasDelegation {
        var votingFromDelegatee, votingToDelegatee :=
          Delegatee(voting.delegates, from), Delegatee(voting.delegates, to);
        var _ :- voting.MoveDelegates(balances, block, votingFromDelegatee, votingToDelegatee, amount);
        var propFromDelegatee, propToDelegatee :=
          Delegatee(proposition.delegates, from), Delegatee(proposition.delegates, to);
        var _ :- proposition.MoveDelegates(balances, block, propFromDelegatee, propToDelegatee, amount);
      } else {
        var _ :- voting.SnapshotBalances(balances, block, from, to, amount);
      }
      return Ok(());
    }

    method MoveTokens(from: Address, to: Address, amount: nat) returns (r: Result<()>)
      requires Linked()
      modifies this`balances, voting`snapshots, proposition`snapshots
      ensures r.Ok? ==> StakedToken.MoveTokens(old(Model()), from, to, amount) == Ok(Model())
      ensures r.Revert? ==> StakedToken.MoveTokens(old(Model()), from, to, amount) == Revert(r.reason)
    {
      var _ :- Require(from != ZERO, ZeroAddress);
      var _ :- Require(to != ZERO, ZeroAddress);
      var _ :- BeforeTokenTransfer(from, to, amount);
      var left :- Sub(Get(balances, from), amount);
      balances := balances[from := left];
      var sum :- Add(Get(balances, to), amount);
      balances := balances[to := sum];
      return Ok(());
    }

    method Mint(account: Address, amount: nat) returns (r: Result<()>)
      requires Linked()
      modifies this`balances, this`totalSupply, voting`snapshots, proposition`snapshots
      ensures r.Ok? ==> StakedToken.Mint(old(Model()), account, amount) == Ok(Model())
      ensures r.Revert? ==> StakedToken.Mint(old(Model()), account, amount) == Revert(r.reason)
    {
      var _ :- Require(account != ZERO, ZeroAddress);
      var _ :- BeforeTokenTransfer(ZERO, account, amount);
      totalSupply :- Add(totalSupply, amount);
      var sum :- Add(Get(balances, account), amount);
      balances := balances[account := sum];
      return Ok(());
    }

    method Burn(account: Address, amount: nat) returns (r: Result<()>)
      requires Linked()
      modifies this`balances, this`totalSupply, voting`snapshots, proposition`snapshots
      ensures r.Ok? ==> StakedToken.Burn(old(Model()), account, amount) == Ok(Model())
      ensures r.Revert? ==> StakedToken.Burn(old(Model()), account, amount) == Revert(r.reason)
    {
      var _ :- Require(account != ZERO, ZeroAddress);
      var _ :- BeforeTokenTransfer(account, ZERO, amount);
      var left :- Sub(Get(balances, account), amount);
      balances := balances[account := left];
      totalSupply :- Sub(totalSupply, amount);
      return Ok(());
    }

    // ---------- rewards ----------

    method UpdateCurrentUnclaimedRewards(user: Address, userBalance: nat, updateStorage: bool) returns (r: Result<nat>)
      requires Linked() && userBalance == Get(balances, user)
      modifies this`stakerRewardsToClaim, manager`assets
      ensures r.Ok? ==>
        StakedToken.UpdateCurrentUnclaimedRewards(cfg, old(Model()), user, updateStorage)
        == Ok((Model(), r.value))
      ensures r.Revert? ==>
        StakedToken.UpdateCurrentUnclaimedRewards(cfg, old(Model()), user, updateStorage)
        == Revert(r.reason)
    {
      var accruedRewards :- manager.UpdateUserAssetInternal(now, user, cfg.self, userBalance, totalSupply);
      var unclaimedRewards :- Add(Get(stakerRewardsToClaim, user), accruedRewards);
      if accruedRewards != 0 {
        if updateStorage {
          stakerRewardsToClaim := stakerRewardsToClaim[user := unclaimedRewards];
        }
      }
      return Ok(unclaimedRewards);
    }

    method AccrueBeforeStake(user: Address, userBalance: nat) returns (r: Result<()>)
      requires Linked() && userBalance == Get(balances, user)
      modifies this`stakerRewardsToClaim, manager`assets
      ensures r.Ok? ==> StakedToken.AccrueBeforeStake(cfg, old(Model()), user) == Ok(Model())
      ensures r.Revert? ==> StakedToken.AccrueBeforeStake(cfg, old(Model()), user) == Revert(r.reason)
    {
      var accruedRewards :- manager.UpdateUserAssetInternal(now, user, cfg.self, userBalance, totalSupply);
      if accruedRewards != 0 {
        var sum :- Add(Get(stakerRewardsToClaim, user), accruedRewards);
        stakerRewardsToClaim := stakerRewardsToClaim[user := sum];
      }
      return Ok(());
    }

    /** The view; for claiming everything it is the amount that will be paid. */
    method GetTotalRewardsBalance(staker: Address) returns (r: Result<nat>)
      requires Valid()
      ensures r == StakedToken.GetTotalRewardsBalance(cfg, Model(), staker)
      ensures r.Ok? || r == Revert(Overflow)
    {
      var userStakeInputs := [UserStakeInput(cfg.self, Get(balances, staker), totalSupply)];
      ViewRevertsOnlyOnOverflow(cfg, run, staker);
      var pending :- manager.GetUnclaimedRewards(now, staker, userStakeInputs);
      return Add(Get(stakerRewardsToClaim, staker), pending);
    }

    // ---------- external calls ----------

    /** The second half of a stake. */
    method Deposit(onBehalfOf: Address, amount: nat, tokenAccepts: bool) returns (r: Result<()>)
      requires Linked()
      modifies this`balances, this`totalSupply, this`stakedTokenHeld, voting`snapshots, proposition`snapshots
      ensures r.Ok? ==> StakedToken.Deposit(cfg, old(Model()), onBehalfOf, amount, tokenAccepts) == Ok(Model())
      ensures r.Revert? ==>
        StakedToken.Deposit(cfg, old(Model()), onBehalfOf, amount, tokenAccepts) == Revert(r.reason)
    {
      var _ :- Mint(onBehalfOf, amount);
      var _ :- Require(tokenAccepts && stakedTokenHeld + amount <= cfg.stakedTokenSupply, PaymentFailed);
      stakedTokenHeld := stakedTokenHeld + amount;
      return Ok(());
    }

    method Stake(onBehalfOf: Address, amount: nat, tokenAccepts: bool) returns (r: Result<()>)
      requires Linked()
      modifies this, manager`assets, voting`snapshots, proposition`snapshots
      ensures r.Ok? ==> StakeStep(cfg, old(Model()), onBehalfOf, amount, tokenAccepts) == Ok(Model())
      ensures r.Revert? ==> StakeStep(cfg, old(Model()), onBehalfOf, amount, tokenAccepts) == Revert(r.reason)
      ensures Linked() && run == old(run)
    {
      var _ :- Require(amount != 0, InvalidZeroAmount);
      var balanceOfUser := Get(balances, onBehalfOf);
      var _ :- AccrueBeforeStake(onBehalfOf, balanceOfUser);
      var next :- GetNextCooldownTimestamp(impl.terms, now, 0, amount, Get(stakersCooldowns, onBehalfOf),
        balanceOfUser);
      stakersCooldowns := stakersCooldowns[onBehalfOf := next];
      r := Deposit(onBehalfOf, amount, tokenAccepts);
    }

    /** The second half of a redemption. */
    method Withdraw(
        sender: Address, to: Address, balance: nat, amountToRedeem: nat, tokenAccepts: bool) returns (r: Result<()>)
      requires Linked() && amountToRedeem <= balance
      modifies this`balances, this`totalSupply, this`stakersCooldowns, this`stakedTokenHeld
      modifies voting`snapshots, proposition`snapshots
      ensures r.Ok? ==>
        StakedToken.Withdraw(cfg, old(Model()), sender, to, balance, amountToRedeem, tokenAccepts) == Ok(Model())
      ensures r.Revert? ==>
        StakedToken.Withdraw(cfg, old(Model()), sender, to, balance, amountToRedeem, tokenAccepts) == Revert(r.reason)
    {
      var _ :- Burn(sender, amountToRedeem);
      if balance - amountToRedeem == 0 {
        stakersCooldowns := stakersCooldowns[sender := 0];
      }
      var _ :- Require(tokenAccepts, PaymentFailed);
      var held :- Sub(stakedTokenHeld, amountToRedeem, PaymentFailed);
      if to != cfg.self {
        stakedTokenHeld := held;
      }
      return Ok(());
    }

    method Redeem(sender: Address, to: Address, amount: nat, tokenAccepts: bool) returns (r: Result<()>)
      requires Linked()
      modifies this, manager`assets, voting`snapshots, proposition`snapshots
      ensures r.Ok? ==> RedeemStep(cfg, old(Model()), sender, to, amount, tokenAccepts) == Ok(Model())
      ensures r.Revert? ==> RedeemStep(cfg, old(Model()), sender, to, amount, tokenAccepts) == Revert(r.reason)
      ensures Linked() && run == old(run)
    {
      var _ :- Require(amount != 0, InvalidZeroAmount);
      var cooldownStartTimestamp := Get(stakersCooldowns, sender);
      var _ :- RedeemWindow(impl.terms, now, cooldownStartTimestamp);
      var balanceOfMessageSender := Get(balances, sender);
      var amountToRedeem := if amount > balanceOfMessageSender then balanceOfMessageSender else amount;
      var _ :- UpdateCurrentUnclaimedRewards(sender, balanceOfMessageSender, true);
      r := Withdraw(sender, to, balanceOfMessageSender, amountToRedeem, tokenAccepts);
    }

    method StartCooldown(sender: Address) returns (r: Result<()>)
      modifies this`stakersCooldowns
      ensures r.Ok? ==> CooldownStep(old(Model()), sender) == Ok(Model())
      ensures r.Revert? ==> CooldownStep(old(Model()), sender) == Revert(r.reason)
    {
      var _ :- Require(Get(balances, sender) != 0, InvalidBalanceOnCooldown);
      stakersCooldowns := stakersCooldowns[sender := now];
      return Ok(());
    }

    method ClaimRewards(sender: Address, amount: nat, tokenAccepts: bool) returns (r: Result<()>)
      requires Linked()
      modifies this, manager`assets
      ensures r.Ok? ==> ClaimStep(cfg, old(Model()), sender, amount, tokenAccepts) == Ok(Model())
      ensures r.Revert? ==> ClaimStep(cfg, old(Model()), sender, amount, tokenAccepts) == Revert(r.reason)
      ensures Linked() && run == old(run)
    {
      var newTotalRewards :- UpdateCurrentUnclaimedRewards(sender, Get(balances, sender), false);
      var amountToClaim := if amount == UINT256 - 1 then newTotalRewards else amount;
      var left :- Sub(newTotalRewards, amountToClaim, InvalidAmount);
      stakerRewardsToClaim := stakerRewardsToClaim[sender := left];
      var _ :- Require(tokenAccepts, PaymentFailed);
      rewardsPaid := rewardsPaid[sender := Get(rewardsPaid, sender) + amountToClaim];
      return Ok(());
    }

    /** The recipient's cooldown moves, and the sender's ends with the last token. */
    method MergeCooldowns(
        from: Address, to: Address, amount: nat, balanceOfFrom: nat, balanceOfTo: nat) returns (r: Result<()>)
      modifies this`stakersCooldowns
      ensures r.Ok? ==>
        StakedToken.MergeCooldowns(old(Model()), from, to, amount, balanceOfFrom, balanceOfTo) == Ok(Model())
      ensures r.Revert? ==>
        StakedToken.MergeCooldowns(old(Model()), from, to, amount, balanceOfFrom, balanceOfTo) == Revert(r.reason)
    {
      var previousSenderCooldown := Get(stakersCooldowns, from);
      var next :- GetNextCooldownTimestamp(impl.terms, now, previousSenderCooldown, amount,
        Get(stakersCooldowns, to), balanceOfTo);
      stakersCooldowns := stakersCooldowns[to := next];
      if balanceOfFrom == amount && previousSenderCooldown != 0 {
        stakersCooldowns := stakersCooldowns[from := 0];
      }
      return Ok(());
    }

    /** What a transfer to another account does before the tokens move. */
    method SettleRecipient(from: Address, to: Address, amount: nat, balanceOfFrom: nat) returns (r: Result<()>)
      requires Linked()
      modifies this`stakerRewardsToClaim, this`stakersCooldowns, manager`assets
      ensures r.Ok? ==> StakedToken.SettleRecipient(cfg, old(Model()), from, to, amount, balanceOfFrom) == Ok(Model())
      ensures r.Revert? ==>
        StakedToken.SettleRecipient(cfg, old(Model()), from, to, amount, balanceOfFrom) == Revert(r.reason)
    {
      if from == to {
        return Ok(());
      }
      var balanceOfTo := Get(balances, to);
      var _ :- UpdateCurrentUnclaimedRewards(to, balanceOfTo, true);
      r := MergeCooldowns(from, to, amount, balanceOfFrom, balanceOfTo);
    }

    method Transfer(from: Address, to: Address, amount: nat) returns (r: Result<()>)
      requires Linked()
      modifies this, manager`assets, voting`snapshots, proposition`snapshots
      ensures r.Ok? ==> TransferStep(cfg, old(Model()), from, to, amount) == Ok(Model())
      ensures r.Revert? ==> TransferStep(cfg, old(Model()), from, to, amount) == Revert(r.reason)
      ensures Linked() && run == old(run)
    {
      var balanceOfFrom := Get(balances, from);
      var _ :- UpdateCurrentUnclaimedRewards(from, balanceOfFrom, true);
      var _ :- SettleRecipient(from, to, amount, balanceOfFrom);
      r := MoveTokens(from, to, amount);
    }

    method DelegateByType(delegator: Address, delegatee: Address, kind: DelegationType) returns (r: Result<()>)
      requires Linked()
      modifies voting, proposition
      ensures r.Ok? ==> DelegateStep(old(Model()), delegator, delegatee, kind) == Ok(Model())
      ensures r.Revert? ==> DelegateStep(old(Model()), delegator, delegatee, kind) == Revert(r.reason)
    {
      var _ :- Require(impl.hasDelegation, NoSuchFunction);
      match kind
      case VotingPower => r := voting.DelegateByType(balances, block, delegator, delegatee);
      case PropositionPower => r := proposition.DelegateByType(balances, block, delegator, delegatee);
    }

    method UpgradeTo(next: Implementation) returns (r: Result<()>)
      requires Linked()
      modifies this`impl, this`lastInitializedRevision, manager
      ensures r.Ok? ==> UpgradeStep(cfg, old(Model()), next) == Ok(Model()) && Linked()
      ensures r.Revert? ==> UpgradeStep(cfg, old(Model()), next) == Revert(r.reason)
    {
      var _ :- Require(next.revision > lastInitializedRevision, AlreadyInitialized);
      impl, manager.distributionEnd := next, next.distributionEnd;
      lastInitializedRevision := next.revision;
      if next.rewinds {
        manager.assets := manager.assets[cfg.self :=
          Asset(manager.assets, cfg.self).(lastUpdateTimestamp := REWIND_TIMESTAMP)];
      }
      return Ok(());
    }

    method ConfigureAssets(sender: Address, inputs: seq<AssetConfigInput>) returns (r: Result<()>)
      requires Linked()
      modifies manager`assets
      ensures r.Ok? ==> ConfigureStep(cfg, old(Model()), sender, inputs) == Ok(Model())
      ensures r.Revert? ==> ConfigureStep(cfg, old(Model()), sender, inputs) == Revert(r.reason)
    {
      r := manager.ConfigureAssets(now, sender, inputs);
    }

    // ---------- transactions ----------

    method DispatchAdministrative(a: Action) returns (r: Result<()>)
      requires Linked() && Administrative(a)
      modifies this, manager, voting, proposition
      ensures r.Ok? ==> Step(cfg, old(Model()), a) == Ok(Model()) && Linked()
      ensures r.Revert? ==> Step(cfg, old(Model()), a) == Revert(r.reason)
      ensures run == old(run)
    {
      match a
      case NextBlock(seconds) =>
        now, block := now + seconds, block + 1;
        r := Ok(());
      case StartCooldown(sender) => r := StartCooldown(sender);
      case Delegate(delegator, delegatee, kind) => r := DelegateByType(delegator, delegatee, kind);
      case ConfigureAssets(sender, inputs) => r := ConfigureAssets(sender, inputs);
      case Donate(amount) =>
        var _ :- Require(stakedTokenHeld + amount <= cfg.stakedTokenSupply, PaymentFailed);
        stakedTokenHeld := stakedTokenHeld + amount;
        r := Ok(());
      case Upgrade(next) => r := UpgradeTo(next);
    }

    method Dispatch(a: Action) returns (r: Result<()>)
      requires Linked()
      modifies this, manager, voting, proposition
      ensures r.Ok? ==> Step(cfg, old(Model()), a) == Ok(Model()) && Linked()
      ensures r.Revert? ==> Step(cfg, old(Model()), a) == Revert(r.reason)
      ensures run == old(run)
    {
      match a
      case Stake(onBehalfOf, amount, tokenAccepts) => r := Stake(onBehalfOf, amount, tokenAccepts);
      case Redeem(sender, to, amount, tokenAccepts) => r := Redeem(sender, to, amount, tokenAccepts);
      case ClaimRewards(sender, to, amount, tokenAccepts) => r := ClaimRewards(sender, amount, tokenAccepts);
      case Transfer(from, to, amount) => r := Transfer(from, to, amount);
      case _ => r := DispatchAdministrative(a);
    }

    method RestoreStores(s: State)
      requires voting != proposition
      modifies manager, voting, proposition
      ensures manager.assets == s.assets && manager.distributionEnd == s.impl.distributionEnd
      ensures voting.Contents() == s.voting && proposition.Contents() == s.proposition
    {
      manager.assets, manager.distributionEnd := s.assets, s.impl.distributionEnd;
      voting.snapshots, voting.delegates := s.voting.snapshots, s.voting.delegates;
      proposition.snapshots, proposition.delegates := s.proposition.snapshots, s.proposition.delegates;
    }

    /** Undo everything a call did. */
    method Restore(s: State)
      requires voting != proposition
      modifies this, manager, voting, proposition
      ensures Model() == s && manager.distributionEnd == s.impl.distributionEnd && run == old(run)
    {
      RestoreStores(s);
      now, block, impl, lastInitializedRevision := s.now, s.block, s.impl, s.lastInitializedRevision;
      balances, totalSupply, stakedTokenHeld := s.balances, s.totalSupply, s.stakedTokenHeld;
      stakerRewardsToClaim, rewardsPaid, stakersCooldowns := s.stakerRewardsToClaim, s.rewardsPaid, s.stakersCooldowns;
    }

    /** A call that reverts is rolled back. */
    method Transact(a: Action) returns (r: Result<()>)
      requires Linked()
      modifies this, manager, voting, proposition
      ensures Linked() && run == old(run)
      ensures r.Ok? ==> Step(cfg, old(Model()), a) == Ok(Model())
      ensures r.Revert? ==> Step(cfg, old(Model()), a) == Revert(r.reason) && Model() == old(Model())
    {
      var before := Model();
      r := Dispatch(a);
      if r.Revert? {
        Restore(before);
      }
    }

    /** One transaction. The contract does exactly the step of the state machine, or nothing if
        the call reverts, and every property of reachable states holds of it again. */
    method Execute(a: Action) returns (r: Result<()>)
      requires Valid() && Possible(Model(), a)
      modifies this, manager, voting, proposition
      ensures Valid() && run == After(old(run), a)
      ensures r.Ok? ==> Step(cfg, old(Model()), a) == Ok(Model())
      ensures r.Revert? ==> Step(cfg, old(Model()), a) == Revert(r.reason) && Model() == old(Model())
      ensures Books(cfg, Model()) && Governance.GovInv(Model()) && AssetsInv(manager.assets, now)
      ensures a.Redeem? && r.Ok? && RefusesUnannounced(old(Model()))
          ==> CooldownSafety.Announced(cfg, old(run), Model(), a.sender)
    {
      r := Transact(a);
      EveryTransaction(cfg, run, a);
      run := After(run, a);
    }

    /** The power of a user at a block, found by binary search: the balances, at the end of that
        block, of the accounts whose delegatee the user then was. */
    method GetPowerAtBlock(user: Address, blockNumber: nat, kind: DelegationType) returns (r: Result<nat>)
      requires Valid()
      ensures r == Governance.GetPowerAtBlock(Model(), kind, user, blockNumber)
      ensures blockNumber > block ==> r == Revert(InvalidBlockNumber)
      ensures
        && user != ZERO && blockNumber <= block
        && (kind.VotingPower? || Governance.FirstImplementation(run).hasDelegation)
        ==>
        r.Ok? && r.value == Governance.TruePower(Governance.StateAt(cfg, run, blockNumber), kind, user)
    {
      Governance.PowersAlwaysExact(cfg, run);
      assert WrittenBy(History(Governance.Data(Model(), kind).snapshots, user), block);
      if
        && user != ZERO && blockNumber <= block
        && (kind.VotingPower? || Governance.FirstImplementation(run).hasDelegation)
      {
        Governance.TimeTravel(cfg, run, kind, user, blockNumber);
      }
      match kind
      case VotingPower => r := voting.SearchByBlockNumber(balances, block, user, blockNumber);
      case PropositionPower => r := proposition.SearchByBlockNumber(balances, block, user, blockNumber);
    }
  }
}
