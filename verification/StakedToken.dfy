/** The staking contract as a state machine: its storage, the chain's clock, the tokens it
    holds, one transition per external call, and runs of such transitions. */
module StakedToken {
  import opened Evm
  import opened Distribution
  import opened Cooldown
  import opened Delegation

  datatype DelegationType = VotingPower | PropositionPower

  /** An implementation behind the proxy: its constants and what its initializer does. */
  datatype Implementation = Implementation(
    revision: nat,
    hasDelegation: bool,  // the first version records balances, later ones delegated power
    rewinds: bool,        // the third revision of the second version rewinds the distribution
    terms: Terms,
    distributionEnd: nat)

  const REWIND_TIMESTAMP: nat := 1620594720

  datatype Config = Config(self: Address, emissionManager: Address, stakedTokenSupply: nat)

  datatype State = State(
    now: nat,
    block: nat,
    impl: Implementation,
    lastInitializedRevision: nat,
    balances: Balances,
    totalSupply: nat,
    assets: Assets,
    stakerRewardsToClaim: map<Address, nat>,
    rewardsPaid: map<Address, nat>,
    stakersCooldowns: map<Address, nat>,
    voting: DelegationData,
    proposition: DelegationData,
    stakedTokenHeld: nat)

  /** External calls, with the answer of the token called where one is called. */
  datatype Action =
    | NextBlock(seconds: nat)
    | Stake(onBehalfOf: Address, amount: nat, tokenAccepts: bool)
    | Redeem(sender: Address, to: Address, amount: nat, tokenAccepts: bool)
    | StartCooldown(sender: Address)
    | ClaimRewards(sender: Address, to: Address, amount: nat, tokenAccepts: bool)
    | Transfer(from: Address, to: Address, amount: nat)
    | Delegate(delegator: Address, delegatee: Address, kind: DelegationType)
    | ConfigureAssets(sender: Address, inputs: seq<AssetConfigInput>)
    | Donate(amount: nat)
    | Upgrade(impl: Implementation)

  // ---------- tokens ----------

  /** The voting and proposition powers after the hook that precedes every token movement. */
  function BeforeTokenTransfer(
      s: State, from: Address, to: Address, amount: nat): Result<(DelegationData, DelegationData)>
  {
    if s.impl.hasDelegation then
      var v :- Move(s.balances, s.voting, s.block,
                    Delegatee(s.voting.delegates, from), Delegatee(s.voting.delegates, to), amount);
      var p :- Move(s.balances, s.proposition, s.block,
                    Delegatee(s.proposition.delegates, from), Delegatee(s.proposition.delegates, to), amount);
      Ok((v, p))
    else
      var v :- RecordBalances(s.balances, s.voting, s.block, from, to, amount);
      Ok((v, s.proposition))
  }

  function MoveTokens(s: State, from: Address, to: Address, amount: nat): Result<State> {
    var _ :- Require(from != ZERO, ZeroAddress);
    var _ :- Require(to != ZERO, ZeroAddress);
    var h :- BeforeTokenTransfer(s, from, to, amount);
    var left :- Sub(Get(s.balances, from), amount);
    var b := s.balances[from := left];
    var sum :- Add(Get(b, to), amount);
    Ok(s.(voting := h.0, proposition := h.1, balances := b[to := sum]))
  }

  function Mint(s: State, account: Address, amount: nat): Result<State> {
    var _ :- Require(account != ZERO, ZeroAddress);
    var h :- BeforeTokenTransfer(s, ZERO, account, amount);
    var supply :- Add(s.totalSupply, amount);
    var sum :- Add(Get(s.balances, account), amount);
    Ok(s.(voting := h.0, proposition := h.1, totalSupply := supply, balances := s.balances[account := sum]))
  }

  function Burn(s: State, account: Address, amount: nat): Result<State> {
    var _ :- Require(account != ZERO, ZeroAddress);
    var h :- BeforeTokenTransfer(s, account, ZERO, amount);
    var left :- Sub(Get(s.balances, account), amount);
    var supply :- Sub(s.totalSupply, amount);
    Ok(s.(voting := h.0, proposition := h.1, balances := s.balances[account := left], totalSupply := supply))
  }

  // ---------- rewards ----------

  /** Update the user's index; the result is what accrued since the last update. */
  function Touch(cfg: Config, s: State, user: Address): Result<(State, nat)> {
    var r :- UpdateUserAsset(s.now, s.impl.distributionEnd, s.assets, user, cfg.self, Get(s.balances, user),
      s.totalSupply);
    Ok((s.(assets := r.0), r.1))
  }

  function UpdateCurrentUnclaimedRewards(
      cfg: Config, s: State, user: Address, updateStorage: bool): Result<(State, nat)>
  {
    var t :- Touch(cfg, s, user);
    var unclaimed :- Add(Get(t.0.stakerRewardsToClaim, user), t.1);
    Ok((if t.1 != 0 && updateStorage
        then t.0.(stakerRewardsToClaim := t.0.stakerRewardsToClaim[user := unclaimed])
        else t.0,
        unclaimed))
  }

  function GetTotalRewardsBalance(cfg: Config, s: State, staker: Address): Result<nat> {
    var pending :- Unclaimed(s.now, s.impl.distributionEnd, s.assets, staker,
                             [UserStakeInput(cfg.self, Get(s.balances, staker), s.totalSupply)]);
    Add(Get(s.stakerRewardsToClaim, staker), pending)
  }

  // ---------- external calls ----------

  /** Staking adds to the claimable rewards only if something accrued. */
  function AccrueBeforeStake(cfg: Config, s: State, user: Address): Result<State> {
    var t :- Touch(cfg, s, user);
    if t.1 == 0 then Ok(t.0)
    else
      var sum :- Add(Get(t.0.stakerRewardsToClaim, user), t.1);
      Ok(t.0.(stakerRewardsToClaim := t.0.stakerRewardsToClaim[user := sum]))
  }

  /** The second half of a stake: the tokens and the payment. */
  function Deposit(cfg: Config, s: State, onBehalfOf: Address, amount: nat, tokenAccepts: bool): Result<State> {
    var t :- Mint(s, onBehalfOf, amount);
    var _ :- Require(tokenAccepts && t.stakedTokenHeld + amount <= cfg.stakedTokenSupply, PaymentFailed);
    Ok(t.(stakedTokenHeld := t.stakedTokenHeld + amount))
  }

  function StakeStep(cfg: Config, s: State, onBehalfOf: Address, amount: nat, tokenAccepts: bool): Result<State> {
    var _ :- Require(amount != 0, InvalidZeroAmount);
    var balanceOfUser := Get(s.balances, onBehalfOf);
    var s1 :- AccrueBeforeStake(cfg, s, onBehalfOf);
    var next :- GetNextCooldownTimestamp(s1.impl.terms, s1.now, 0, amount, Get(s1.stakersCooldowns, onBehalfOf),
      balanceOfUser);
    var s2 := s1.(stakersCooldowns := s1.stakersCooldowns[onBehalfOf := next]);
    Deposit(cfg, s2, onBehalfOf, amount, tokenAccepts)
  }

  /** The second half of a redemption: the tokens, the cooldown of who leaves, the payment. */
  function Withdraw(
      cfg: Config, s: State, sender: Address, to: Address, balance: nat, amountToRedeem: nat,
      tokenAccepts: bool): Result<State>
    requires amountToRedeem <= balance
  {
    var s1 :- Burn(s, sender, amountToRedeem);
    var s2 := if balance - amountToRedeem == 0 then s1.(stakersCooldowns := s1.stakersCooldowns[sender := 0]) else s1;
    var _ :- Require(tokenAccepts, PaymentFailed);
    var held :- Sub(s2.stakedTokenHeld, amountToRedeem, PaymentFailed);
    Ok(if to == cfg.self then s2 else s2.(stakedTokenHeld := held))
  }

  function RedeemStep(
      cfg: Config, s: State, sender: Address, to: Address, amount: nat, tokenAccepts: bool): Result<State>
  {
    var _ :- Require(amount != 0, InvalidZeroAmount);
    var _ :- RedeemWindow(s.impl.terms, s.now, Get(s.stakersCooldowns, sender));
    var balance := Get(s.balances, sender);
    var amountToRedeem := if amount > balance then balance else amount;
    var r :- UpdateCurrentUnclaimedRewards(cfg, s, sender, true);
    Withdraw(cfg, r.0, sender, to, balance, amountToRedeem, tokenAccepts)
  }

  function CooldownStep(s: State, sender: Address): Result<State> {
    var _ :- Require(Get(s.balances, sender) != 0, InvalidBalanceOnCooldown);
    Ok(s.(stakersCooldowns := s.stakersCooldowns[sender := s.now]))
  }

  function ClaimStep(cfg: Config, s: State, sender: Address, amount: nat, tokenAccepts: bool): Result<State> {
    var r :- UpdateCurrentUnclaimedRewards(cfg, s, sender, false);
    var amountToClaim := if amount == UINT256 - 1 then r.1 else amount;
    var left :- Sub(r.1, amountToClaim, InvalidAmount);
    var _ :- Require(tokenAccepts, PaymentFailed);
    Ok(r.0.(stakerRewardsToClaim := r.0.stakerRewardsToClaim[sender := left],
            rewardsPaid := r.0.rewardsPaid[sender := Get(r.0.rewardsPaid, sender) + amountToClaim]))
  }

  /** The recipient's cooldown after a transfer, and the sender's, which ends with the last token. */
  function MergeCooldowns(
      s: State, from: Address, to: Address, amount: nat, balanceOfFrom: nat, balanceOfTo: nat): Result<State>
  {
    var previousSenderCooldown := Get(s.stakersCooldowns, from);
    var next :- GetNextCooldownTimestamp(s.impl.terms, s.now, previousSenderCooldown, amount,
      Get(s.stakersCooldowns, to), balanceOfTo);
    var c := s.stakersCooldowns[to := next];
    Ok(s.(stakersCooldowns := if balanceOfFrom == amount && previousSenderCooldown != 0 then c[from := 0] else c))
  }

  /** What a transfer to another account does before the tokens move. */
  function SettleRecipient(
      cfg: Config, s: State, from: Address, to: Address, amount: nat, balanceOfFrom: nat): Result<State>
  {
    if from == to then Ok(s)
    else
      var balanceOfTo := Get(s.balances, to);
      var r :- UpdateCurrentUnclaimedRewards(cfg, s, to, true);
      MergeCooldowns(r.0, from, to, amount, balanceOfFrom, balanceOfTo)
  }

  function TransferStep(cfg: Config, s: State, from: Address, to: Address, amount: nat): Result<State> {
    var balanceOfFrom := Get(s.balances, from);
    var r :- UpdateCurrentUnclaimedRewards(cfg, s, from, true);
    var s1 :- SettleRecipient(cfg, r.0, from, to, amount, balanceOfFrom);
    MoveTokens(s1, from, to, amount)
  }

  function DelegateStep(s: State, delegator: Address, delegatee: Address, kind: DelegationType): Result<State> {
    var _ :- Require(s.impl.hasDelegation, NoSuchFunction);
    match kind
    case VotingPower =>
      var v :- DelegateTo(s.balances, s.voting, s.block, delegator, delegatee);
      Ok(s.(voting := v))
    case PropositionPower =>
      var p :- DelegateTo(s.balances, s.proposition, s.block, delegator, delegatee);
      Ok(s.(proposition := p))
  }

  function ConfigureStep(cfg: Config, s: State, sender: Address, inputs: seq<AssetConfigInput>): Result<State> {
    var _ :- Require(sender == cfg.emissionManager, OnlyEmissionManager);
    var m :- Configure(s.now, s.impl.distributionEnd, s.assets, inputs);
    Ok(s.(assets := m))
  }

  function UpgradeStep(cfg: Config, s: State, impl: Implementation): Result<State> {
    var _ :- Require(impl.revision > s.lastInitializedRevision, AlreadyInitialized);
    Ok(s.(impl := impl, lastInitializedRevision := impl.revision, assets := Initialized(cfg, s.assets, impl)))
  }

  function Step(cfg: Config, s: State, a: Action): Result<State> {
    match a
    case NextBlock(seconds) => Ok(s.(now := s.now + seconds, block := s.block + 1))
    case Stake(onBehalfOf, amount, tokenAccepts) => StakeStep(cfg, s, onBehalfOf, amount, tokenAccepts)
    case Redeem(sender, to, amount, tokenAccepts) => RedeemStep(cfg, s, sender, to, amount, tokenAccepts)
    case StartCooldown(sender) => CooldownStep(s, sender)
    case ClaimRewards(sender, to, amount, tokenAccepts) => ClaimStep(cfg, s, sender, amount, tokenAccepts)
    case Transfer(from, to, amount) => TransferStep(cfg, s, from, to, amount)
    case Delegate(delegator, delegatee, kind) => DelegateStep(s, delegator, delegatee, kind)
    case ConfigureAssets(sender, inputs) => ConfigureStep(cfg, s, sender, inputs)
    case Donate(amount) =>
      var _ :- Require(s.stakedTokenHeld + amount <= cfg.stakedTokenSupply, PaymentFailed);
      Ok(s.(stakedTokenHeld := s.stakedTokenHeld + amount))
    case Upgrade(impl) => UpgradeStep(cfg, s, impl)
  }

  /** A reverted call leaves everything as it was. */
  function Apply(cfg: Config, s: State, a: Action): State {
    match Step(cfg, s, a)
    case Ok(t) => t
    case Revert(_) => s
  }

  // ---------- runs ----------

  /** What an implementation's initializer does to the distribution of the contract itself. */
  function Initialized(cfg: Config, m: Assets, impl: Implementation): Assets {
    if impl.rewinds
    then m[cfg.self := Asset(m, cfg.self).(lastUpdateTimestamp := REWIND_TIMESTAMP)]
    else m
  }

  function Fresh(cfg: Config, impl: Implementation, now: nat, block: nat): State {
    State(now, block, impl, impl.revision, map[], 0, Initialized(cfg, map[], impl), map[], map[], map[],
          NO_DELEGATION, NO_DELEGATION, 0)
  }

  datatype Run = Deploy(impl: Implementation, now: nat, block: nat) | After(prior: Run, act: Action)

  function Final(cfg: Config, r: Run): State {
    match r
    case Deploy(impl, now, block) => Fresh(cfg, impl, now, block)
    case After(prior, a) => Apply(cfg, Final(cfg, prior), a)
  }

  /** Who has no cooldown cannot redeem: the clock is past the cooldown period and the window
      together, or not past the period. */
  ghost predicate RefusesUnannounced(s: State) {
    s.now <= s.impl.terms.cooldownSeconds || s.impl.terms.cooldownSeconds + s.impl.terms.unstakeWindow < s.now
  }

  /** No initializer rewinds into the future. */
  ghost predicate RewindsBack(impl: Implementation, now: nat) {
    impl.rewinds ==> REWIND_TIMESTAMP <= now
  }

  ghost predicate RatesFit(inputs: seq<AssetConfigInput>) {
    forall i :: 0 <= i < |inputs| ==> inputs[i].emissionPerSecond < UINT128
  }

  /** What the chain and the administrator guarantee of the next action: time goes on and stays
      within 128 bits, nobody calls as the zero address, a new implementation delegates and
      does not rewind into the future, and a configured rate fits its 128 bits. */
  ghost predicate Possible(s: State, a: Action) {
    match a
    case NextBlock(seconds) => seconds > 0 && s.now + seconds < UINT128 && s.block + 1 < UINT128
    case Delegate(delegator, _, _) => delegator != ZERO
    case Upgrade(impl) => impl.hasDelegation && RewindsBack(impl, s.now)
    case ConfigureAssets(_, inputs) => RatesFit(inputs)
    case _ => true
  }

  ghost predicate ValidConfig(cfg: Config) {
    cfg.self != ZERO && cfg.stakedTokenSupply < UINT128
  }

  ghost predicate Feasible(cfg: Config, r: Run) {
    match r
    case Deploy(impl, now, block) => ValidConfig(cfg) && 0 < now < UINT128 && block < UINT128 && RewindsBack(impl, now)
    case After(prior, a) => Feasible(cfg, prior) && Possible(Final(cfg, prior), a)
  }

  /** `later` is `r` with further actions. */
  ghost predicate Continues(r: Run, later: Run) {
    later == r || (later.After? && Continues(r, later.prior))
  }

  // ---------- the parts of a call ----------

  ghost predicate SameRewards(s: State, t: State) {
    t.assets == s.assets && t.stakerRewardsToClaim == s.stakerRewardsToClaim && t.rewardsPaid == s.rewardsPaid
  }

  ghost predicate SameTokens(s: State, t: State) {
    t.balances == s.balances && t.totalSupply == s.totalSupply && t.stakedTokenHeld == s.stakedTokenHeld
  }

  ghost predicate SamePower(s: State, t: State) {
    t.voting == s.voting && t.proposition == s.proposition
  }

  ghost predicate SameEnvironment(s: State, t: State) {
    t.now == s.now && t.block == s.block && t.impl == s.impl && t.lastInitializedRevision == s.lastInitializedRevision
  }

  /** The update of the user's rewards that every movement of tokens begins with. */
  function Accrue(cfg: Config, s: State, user: Address): Result<State> {
    var t :- Touch(cfg, s, user);
    Ok(if t.1 == 0 then t.0
       else t.0.(stakerRewardsToClaim := t.0.stakerRewardsToClaim[user := Get(t.0.stakerRewardsToClaim, user) + t.1]))
  }

  /** `t` is `s` after the tokens, and the power they carry, went from `from` to `to`. */
  ghost predicate TokensMoved(s: State, t: State, from: Address, to: Address, amount: nat) {
    && (from != ZERO ==> amount <= Get(s.balances, from))
    && t.balances == Shift(s.balances, from, to, amount)
    && BeforeTokenTransfer(s, from, to, amount) == Ok((t.voting, t.proposition))
  }

  lemma MoveTokensParts(s: State, from: Address, to: Address, amount: nat)
    requires MoveTokens(s, from, to, amount).Ok?
    ensures var t := MoveTokens(s, from, to, amount).value;
      && from != ZERO && to != ZERO
      && TokensMoved(s, t, from, to, amount)
      && t.totalSupply == s.totalSupply && t.stakedTokenHeld == s.stakedTokenHeld
      && SameEnvironment(s, t) && SameRewards(s, t) && t.stakersCooldowns == s.stakersCooldowns
  {
  }

  lemma MintParts(s: State, account: Address, amount: nat)
    requires Mint(s, account, amount).Ok?
    ensures var t := Mint(s, account, amount).value;
      && account != ZERO
      && TokensMoved(s, t, ZERO, account, amount)
      && t.totalSupply == s.totalSupply + amount && t.stakedTokenHeld == s.stakedTokenHeld
      && SameEnvironment(s, t) && SameRewards(s, t) && t.stakersCooldowns == s.stakersCooldowns
  {
  }

  lemma BurnParts(s: State, account: Address, amount: nat)
    requires Burn(s, account, amount).Ok?
    ensures var t := Burn(s, account, amount).value;
      && account != ZERO
      && TokensMoved(s, t, account, ZERO, amount)
      && t.totalSupply + amount == s.totalSupply && t.stakedTokenHeld == s.stakedTokenHeld
      && SameEnvironment(s, t) && SameRewards(s, t) && t.stakersCooldowns == s.stakersCooldowns
  {
  }

  lemma AccrueParts(cfg: Config, s: State, user: Address)
    requires Accrue(cfg, s, user).Ok?
    ensures var t := Accrue(cfg, s, user).value;
      && SameEnvironment(s, t) && SameTokens(s, t) && SamePower(s, t)
      && t.stakersCooldowns == s.stakersCooldowns && t.rewardsPaid == s.rewardsPaid
  {
  }

  /** Moving tokens reads nothing that accruing or the cooldowns change. */
  lemma MovedAlike(s: State, s1: State, t: State, from: Address, to: Address, amount: nat)
    requires SameEnvironment(s, s1) && SameTokens(s, s1) && SamePower(s, s1)
    requires TokensMoved(s1, t, from, to, amount)
    ensures TokensMoved(s, t, from, to, amount)
  {
  }

  lemma StakeAccrues(cfg: Config, s: State, u: Address)
    requires AccrueBeforeStake(cfg, s, u).Ok?
    ensures Accrue(cfg, s, u) == AccrueBeforeStake(cfg, s, u)
  {
  }

  lemma StakeParts(cfg: Config, s: State, u: Address, amount: nat, tokenAccepts: bool)
    requires StakeStep(cfg, s, u, amount, tokenAccepts).Ok?
    ensures var t := StakeStep(cfg, s, u, amount, tokenAccepts).value;
      && u != ZERO && SameEnvironment(s, t)
      && Accrue(cfg, s, u).Ok? && SameRewards(Accrue(cfg, s, u).value, t)
      && TokensMoved(s, t, ZERO, u, amount)
      && t.totalSupply == s.totalSupply + amount
      && t.stakedTokenHeld == s.stakedTokenHeld + amount <= cfg.stakedTokenSupply
      && var next := GetNextCooldownTimestamp(s.impl.terms, s.now, 0, amount, Get(s.stakersCooldowns, u),
        Get(s.balances, u));
         next.Ok? && t.stakersCooldowns == s.stakersCooldowns[u := next.value]
  {
    StakeAccrues(cfg, s, u);
    AccrueParts(cfg, s, u);
    var s1 := Accrue(cfg, s, u).value;
    var next := GetNextCooldownTimestamp(s1.impl.terms, s1.now, 0, amount, Get(s1.stakersCooldowns, u),
      Get(s.balances, u)).value;
    var s2 := s1.(stakersCooldowns := s1.stakersCooldowns[u := next]);
    MintParts(s2, u, amount);
    MovedAlike(s, s2, Mint(s2, u, amount).value, ZERO, u, amount);
  }

  lemma UpdateIsAccrue(cfg: Config, s: State, u: Address)
    requires UpdateCurrentUnclaimedRewards(cfg, s, u, true).Ok?
    ensures Accrue(cfg, s, u) == Ok(UpdateCurrentUnclaimedRewards(cfg, s, u, true).value.0)
  {
  }

  lemma RedeemParts(cfg: Config, s: State, u: Address, to: Address, amount: nat, tokenAccepts: bool)
    requires RedeemStep(cfg, s, u, to, amount, tokenAccepts).Ok?
    ensures var t := RedeemStep(cfg, s, u, to, amount, tokenAccepts).value;
      var out := Min(amount, Get(s.balances, u));
      && u != ZERO && SameEnvironment(s, t)
      && RedeemWindow(s.impl.terms, s.now, Get(s.stakersCooldowns, u)).Ok?
      && Accrue(cfg, s, u).Ok? && SameRewards(Accrue(cfg, s, u).value, t)
      && TokensMoved(s, t, u, ZERO, out)
      && t.totalSupply + out == s.totalSupply
      && t.stakedTokenHeld + (if to == cfg.self then 0 else out) == s.stakedTokenHeld
      && t.stakersCooldowns == if out == Get(s.balances, u) then s.stakersCooldowns[u := 0] else s.stakersCooldowns
  {
    UpdateIsAccrue(cfg, s, u);
    AccrueParts(cfg, s, u);
    var s1 := Accrue(cfg, s, u).value;
    var out := Min(amount, Get(s.balances, u));
    BurnParts(s1, u, out);
    MovedAlike(s, s1, Burn(s1, u, out).value, u, ZERO, out);
  }

  /** The rewards of a transfer: the sender's, then the recipient's if it is another account. */
  function AccrueBoth(cfg: Config, s: State, from: Address, to: Address): Result<State> {
    var t :- Accrue(cfg, s, from);
    if from == to then Ok(t) else Accrue(cfg, t, to)
  }

  function CooldownsAfterTransfer(s: State, from: Address, to: Address, amount: nat): Result<map<Address, nat>> {
    if from == to then Ok(s.stakersCooldowns)
    else
      var previous := Get(s.stakersCooldowns, from);
      var next :- GetNextCooldownTimestamp(s.impl.terms, s.now, previous, amount, Get(s.stakersCooldowns, to),
        Get(s.balances, to));
      var c := s.stakersCooldowns[to := next];
      Ok(if Get(s.balances, from) == amount && previous != 0 then c[from := 0] else c)
  }

  lemma RecipientParts(cfg: Config, s: State, from: Address, to: Address, amount: nat)
    requires from != to && SettleRecipient(cfg, s, from, to, amount, Get(s.balances, from)).Ok?
    ensures var t := SettleRecipient(cfg, s, from, to, amount, Get(s.balances, from)).value;
      && Accrue(cfg, s, to).Ok? && CooldownsAfterTransfer(s, from, to, amount).Ok?
      && t == Accrue(cfg, s, to).value.(stakersCooldowns := CooldownsAfterTransfer(s, from, to, amount).value)
  {
    UpdateIsAccrue(cfg, s, to);
    AccrueParts(cfg, s, to);
  }

  /** The state in which a transfer moves the tokens. */
  lemma TransferBefore(cfg: Config, s: State, from: Address, to: Address, amount: nat)
    requires TransferStep(cfg, s, from, to, amount).Ok?
    ensures AccrueBoth(cfg, s, from, to).Ok? && CooldownsAfterTransfer(s, from, to, amount).Ok?
    ensures var s1 := AccrueBoth(cfg, s, from, to).value;
      && SameEnvironment(s, s1) && SameTokens(s, s1) && SamePower(s, s1)
      && TransferStep(cfg, s, from, to, amount)
         == MoveTokens(s1.(stakersCooldowns := CooldownsAfterTransfer(s, from, to, amount).value), from, to, amount)
  {
    UpdateIsAccrue(cfg, s, from);
    AccrueParts(cfg, s, from);
    var s1 := Accrue(cfg, s, from).value;
    if from != to {
      RecipientParts(cfg, s1, from, to, amount);
      AccrueParts(cfg, s1, to);
    }
  }

  lemma TransferParts(cfg: Config, s: State, from: Address, to: Address, amount: nat)
    requires TransferStep(cfg, s, from, to, amount).Ok?
    ensures var t := TransferStep(cfg, s, from, to, amount).value;
      && from != ZERO && to != ZERO && SameEnvironment(s, t)
      && AccrueBoth(cfg, s, from, to).Ok? && SameRewards(AccrueBoth(cfg, s, from, to).value, t)
      && TokensMoved(s, t, from, to, amount)
      && t.totalSupply == s.totalSupply && t.stakedTokenHeld == s.stakedTokenHeld
      && CooldownsAfterTransfer(s, from, to, amount) == Ok(t.stakersCooldowns)
  {
    TransferBefore(cfg, s, from, to, amount);
    var s1 := AccrueBoth(cfg, s, from, to).value;
    var s2 := s1.(stakersCooldowns := CooldownsAfterTransfer(s, from, to, amount).value);
    MoveTokensParts(s2, from, to, amount);
    MovedAlike(s, s2, MoveTokens(s2, from, to, amount).value, from, to, amount);
  }

  /** Without writing it, the update of the rewards finds what accruing would leave. */
  lemma UpdateReads(cfg: Config, s: State, u: Address)
    requires UpdateCurrentUnclaimedRewards(cfg, s, u, false).Ok?
    ensures Accrue(cfg, s, u).Ok?
    ensures var r, s1 := UpdateCurrentUnclaimedRewards(cfg, s, u, false).value, Accrue(cfg, s, u).value;
      && r.0 == s.(assets := s1.assets) && r.1 == Get(s1.stakerRewardsToClaim, u)
      && s1 == s.(assets := s1.assets, stakerRewardsToClaim := s1.stakerRewardsToClaim)
      && (s1.stakerRewardsToClaim == s.stakerRewardsToClaim
          || s1.stakerRewardsToClaim == s.stakerRewardsToClaim[u := r.1])
  {
  }

  lemma ClaimParts(cfg: Config, s: State, u: Address, amount: nat, tokenAccepts: bool)
    requires ClaimStep(cfg, s, u, amount, tokenAccepts).Ok?
    ensures var t := ClaimStep(cfg, s, u, amount, tokenAccepts).value;
      && SameEnvironment(s, t) && SameTokens(s, t) && SamePower(s, t) && t.stakersCooldowns == s.stakersCooldowns
      && Accrue(cfg, s, u).Ok?
      && var s1 := Accrue(cfg, s, u).value;
         var paid := if amount == UINT256 - 1 then Get(s1.stakerRewardsToClaim, u) else amount;
         && t.assets == s1.assets
         && paid <= Get(s1.stakerRewardsToClaim, u)
         && t.stakerRewardsToClaim == s1.stakerRewardsToClaim[u := Get(s1.stakerRewardsToClaim, u) - paid]
         && t.rewardsPaid == s1.rewardsPaid[u := Get(s1.rewardsPaid, u) + paid]
  {
    UpdateReads(cfg, s, u);
  }

  lemma DelegateParts(s: State, delegator: Address, delegatee: Address, kind: DelegationType)
    requires DelegateStep(s, delegator, delegatee, kind).Ok?
    ensures var t := DelegateStep(s, delegator, delegatee, kind).value;
      && s.impl.hasDelegation && delegatee != ZERO
      && t == s.(voting := t.voting, proposition := t.proposition)
      && (if kind.VotingPower? then DelegateTo(s.balances, s.voting, s.block, delegator, delegatee) == Ok(t.voting)
          else t.voting == s.voting)
      && (if kind.PropositionPower?
        then DelegateTo(s.balances, s.proposition, s.block, delegator, delegatee) == Ok(t.proposition)
          else t.proposition == s.proposition)
  {
  }

  lemma {:induction false} ConfigureParts(cfg: Config, s: State, sender: Address, inputs: seq<AssetConfigInput>)
    requires ConfigureStep(cfg, s, sender, inputs).Ok?
    ensures var t := ConfigureStep(cfg, s, sender, inputs).value;
      && sender == cfg.emissionManager
      && t == s.(assets := t.assets)
      && Configure(s.now, s.impl.distributionEnd, s.assets, inputs) == Ok(t.assets)
  {
  }

  lemma UpgradeParts(cfg: Config, s: State, impl: Implementation)
    requires UpgradeStep(cfg, s, impl).Ok?
    ensures var t := UpgradeStep(cfg, s, impl).value;
      && impl.revision > s.lastInitializedRevision
      && t == s.(impl := impl, lastInitializedRevision := impl.revision, assets := t.assets)
      && (forall x :: Asset(t.assets, x) ==
            if impl.rewinds && x == cfg.self then Asset(s.assets, x).(lastUpdateTimestamp := REWIND_TIMESTAMP)
              else Asset(s.assets, x))
  {
  }

  /** The calls that move neither staked tokens nor rewards. */
  ghost predicate Administrative(a: Action) {
    a.NextBlock? || a.StartCooldown? || a.Delegate? || a.ConfigureAssets? || a.Donate? || a.Upgrade?
  }

  lemma AdministrativeParts(cfg: Config, s: State, a: Action)
    requires Administrative(a) && Step(cfg, s, a).Ok?
    ensures var t := Step(cfg, s, a).value;
      && t.balances == s.balances && t.totalSupply == s.totalSupply
      && t.stakerRewardsToClaim == s.stakerRewardsToClaim && t.rewardsPaid == s.rewardsPaid
      && (if a.Donate? then s.stakedTokenHeld <= t.stakedTokenHeld <= cfg.stakedTokenSupply
          else t.stakedTokenHeld == s.stakedTokenHeld)
      && (a.NextBlock? || a.Upgrade? || SameEnvironment(s, t))
      && (a.ConfigureAssets? || a.Upgrade? || t.assets == s.assets)
      && (a.Delegate? || SamePower(s, t))
      && (a.StartCooldown? || t.stakersCooldowns == s.stakersCooldowns)
  {
    match a
    case Delegate(delegator, delegatee, kind) => DelegateParts(s, delegator, delegatee, kind);
    case ConfigureAssets(sender, inputs) => ConfigureParts(cfg, s, sender, inputs);
    case Upgrade(impl) => UpgradeParts(cfg, s, impl);
    case NextBlock(_) =>
    case StartCooldown(_) =>
    case Donate(_) =>
  }
}
