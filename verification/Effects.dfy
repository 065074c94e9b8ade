/** What each call does to the whole storage, and when the calls without conditions on rewards go
    through, in terms of balances, times and sums alone. */
module Effects {
  import opened Evm
  import opened Distribution
  import opened Cooldown
  import opened Delegation
  import opened StakedToken
  import opened Bookkeeping
  import opened Governance
  import opened Rewards
  import opened Solvency

  // ---------- rewards ----------

  /** The contract's index is up to now, `us` are settled, and no other asset is touched. */
  ghost predicate IndexesBrought(cfg: Config, s: State, t: State, us: set<Address>) {
    var a, b, index := SelfAsset(cfg, s), SelfAsset(cfg, t), IndexNow(cfg, s);
    && b.emissionPerSecond == a.emissionPerSecond && b.lastUpdateTimestamp == s.now && b.index == index
    && (forall v :: Get(b.users, v) == if v in us then index else Get(a.users, v))
    && (forall x :: x != cfg.self ==> Asset(t.assets, x) == Asset(s.assets, x))
  }

  /** What `us` gained, rounded down, became claimable. */
  ghost predicate GainsClaimable(cfg: Config, s: State, t: State, us: set<Address>) {
    forall v :: Get(t.stakerRewardsToClaim, v)
      == Get(s.stakerRewardsToClaim, v) + if v in us then PendingNow(cfg, s)(v) else 0
  }

  lemma AccrueBrings(cfg: Config, s: State, u: Address)
    requires Ready(cfg, s) && Accrue(cfg, s, u).Ok?
    ensures IndexesBrought(cfg, s, Accrue(cfg, s, u).value, {u})
  {
    AccrueUnfolds(cfg, s, u);
    UpdateUserAssetIs(s.now, s.impl.distributionEnd, s.assets, u, cfg.self, Get(s.balances, u), s.totalSupply);
  }

  lemma AccrueGains(cfg: Config, s: State, u: Address)
    requires Ready(cfg, s) && Accrue(cfg, s, u).Ok?
    ensures GainsClaimable(cfg, s, Accrue(cfg, s, u).value, {u})
  {
    AccrueUnfolds(cfg, s, u);
    UpdateUserAssetIs(s.now, s.impl.distributionEnd, s.assets, u, cfg.self, Get(s.balances, u), s.totalSupply);
    assert Get(Accrue(cfg, s, u).value.stakerRewardsToClaim, u)
      == Get(s.stakerRewardsToClaim, u) + PendingNow(cfg, s)(u);
  }

  /** The rewards after accruing, with the rest of the call not touching them. */
  lemma AccrueDoes(cfg: Config, s: State, t: State, u: Address)
    requires Ready(cfg, s) && Accrue(cfg, s, u).Ok? && SameRewards(Accrue(cfg, s, u).value, t)
    ensures IndexesBrought(cfg, s, t, {u}) && GainsClaimable(cfg, s, t, {u}) && t.rewardsPaid == s.rewardsPaid
  {
    AccrueBrings(cfg, s, u);
    AccrueGains(cfg, s, u);
    AccrueParts(cfg, s, u);
  }

  lemma BroughtTwice(cfg: Config, s: State, s1: State, t: State, from: Address, to: Address)
    requires s1.now == s.now && IndexNow(cfg, s1) == IndexNow(cfg, s)
    requires IndexesBrought(cfg, s, s1, {from}) && IndexesBrought(cfg, s1, t, {to})
    ensures IndexesBrought(cfg, s, t, {from, to})
  {
  }

  lemma PendingSame(cfg: Config, s: State, s1: State, v: Address)
    requires IndexNow(cfg, s1) == IndexNow(cfg, s) && s1.balances == s.balances
    requires Get(SelfAsset(cfg, s1).users, v) == Get(SelfAsset(cfg, s).users, v)
    ensures PendingNow(cfg, s1)(v) == PendingNow(cfg, s)(v)
  {
  }

  lemma GainedTwice(cfg: Config, s: State, s1: State, t: State, from: Address, to: Address)
    requires from != to && PendingNow(cfg, s1)(to) == PendingNow(cfg, s)(to)
    requires GainsClaimable(cfg, s, s1, {from}) && GainsClaimable(cfg, s1, t, {to})
    ensures GainsClaimable(cfg, s, t, {from, to})
  {
  }

  lemma AccruedIsReady(cfg: Config, s: State, u: Address)
    requires Ready(cfg, s) && Accrue(cfg, s, u).Ok?
    ensures var s1 := Accrue(cfg, s, u).value;
      && Ready(cfg, s1) && s1.now == s.now && s1.balances == s.balances
      && IndexNow(cfg, s1) == IndexNow(cfg, s)
  {
    AccruePreserves(cfg, s, u);
    AccrueParts(cfg, s, u);
    IndexAlreadyNow(cfg, Accrue(cfg, s, u).value);
  }

  lemma AccrueBothDoes(cfg: Config, s: State, t: State, from: Address, to: Address)
    requires Ready(cfg, s) && AccrueBoth(cfg, s, from, to).Ok? && SameRewards(AccrueBoth(cfg, s, from, to).value, t)
    ensures IndexesBrought(cfg, s, t, {from, to}) && GainsClaimable(cfg, s, t, {from, to})
    ensures t.rewardsPaid == s.rewardsPaid
  {
    if from == to {
      AccrueDoes(cfg, s, t, from);
      assert {from, to} == {from};
    } else {
      var s1 := Accrue(cfg, s, from).value;
      AccrueDoes(cfg, s, s1, from);
      AccruedIsReady(cfg, s, from);
      AccrueDoes(cfg, s1, t, to);
      BroughtTwice(cfg, s, s1, t, from, to);
      PendingSame(cfg, s, s1, to);
      GainedTwice(cfg, s, s1, t, from, to);
    }
  }

  // ---------- tokens ----------

  /** `amount` went from `from` to `to`, the zero address standing for outside; nobody's delegatee
      changed. */
  ghost predicate BalancesMoved(s: State, t: State, from: Address, to: Address, amount: nat) {
    && (forall v :: v != ZERO ==>
          Get(t.balances, v)
          == Get(s.balances, v) - (if v == from then amount else 0) + (if v == to then amount else 0))
    && t.voting.delegates == s.voting.delegates && t.proposition.delegates == s.proposition.delegates
  }

  lemma DelegatesStay(cfg: Config, s: State, t: State, from: Address, to: Address, amount: nat)
    requires Books(cfg, s) && LedgerInv(cfg, t) && GovInv(s)
    requires TokensMoved(s, t, from, to, amount) && SameEnvironment(s, t)
    ensures t.voting.delegates == s.voting.delegates && t.proposition.delegates == s.proposition.delegates
  {
    VotingMoved(s, t, from, to, amount);
    PropositionMoved(s, t, from, to, amount);
  }

  lemma ShiftIs(b: Balances, from: Address, to: Address, amount: nat, v: Address)
    requires v != ZERO && (from != ZERO ==> amount <= Get(b, from))
    ensures Get(Shift(b, from, to, amount), v)
         == Get(b, v) - (if v == from then amount else 0) + (if v == to then amount else 0)
  {
  }

  lemma MovedDoes(cfg: Config, s: State, t: State, from: Address, to: Address, amount: nat)
    requires Books(cfg, s) && LedgerInv(cfg, t) && GovInv(s)
    requires TokensMoved(s, t, from, to, amount) && SameEnvironment(s, t)
    ensures BalancesMoved(s, t, from, to, amount)
  {
    DelegatesStay(cfg, s, t, from, to, amount);
    forall v | v != ZERO
      ensures Get(t.balances, v)
           == Get(s.balances, v) - (if v == from then amount else 0) + (if v == to then amount else 0)
    {
      ShiftIs(s.balances, from, to, amount, v);
    }
  }

  /** Only `u`'s cooldown changed, to `c`. */
  ghost predicate CooldownSet(s: State, t: State, u: Address, c: nat) {
    forall v :: Get(t.stakersCooldowns, v) == if v == u then c else Get(s.stakersCooldowns, v)
  }

  lemma StakeMerges(cfg: Config, s: State, u: Address, amount: nat, accepts: bool)
    requires Books(cfg, s) && StakeStep(cfg, s, u, amount, accepts).Ok?
    ensures var t := StakeStep(cfg, s, u, amount, accepts).value;
      var next := Get(t.stakersCooldowns, u);
      && CooldownSet(s, t, u, next)
      && Merged(s.impl.terms, s.now, 0, amount, Get(s.stakersCooldowns, u), Get(s.balances, u), next)
  {
    StakeParts(cfg, s, u, amount, accepts);
    MergeIsAverage(s.impl.terms, s.now, 0, amount, Get(s.stakersCooldowns, u), Get(s.balances, u));
  }

  lemma StakeMoves(cfg: Config, s: State, u: Address, amount: nat, accepts: bool)
    requires Ready(cfg, s) && GovInv(s) && StakeStep(cfg, s, u, amount, accepts).Ok?
    ensures var t := StakeStep(cfg, s, u, amount, accepts).value;
      && SameEnvironment(s, t) && BalancesMoved(s, t, ZERO, u, amount)
      && t.totalSupply == s.totalSupply + amount && t.stakedTokenHeld == s.stakedTokenHeld + amount
      && IndexesBrought(cfg, s, t, {u}) && GainsClaimable(cfg, s, t, {u}) && t.rewardsPaid == s.rewardsPaid
  {
    StakeLedger(cfg, s, u, amount, accepts);
    StakeParts(cfg, s, u, amount, accepts);
    AccrueDoes(cfg, s, StakeStep(cfg, s, u, amount, accepts).value, u);
    MovedDoes(cfg, s, StakeStep(cfg, s, u, amount, accepts).value, ZERO, u, amount);
  }

  /** A stake. */
  lemma {:induction false} StakeDoes(cfg: Config, r: Run, u: Address, amount: nat, accepts: bool)
    requires Feasible(cfg, r) && Step(cfg, Final(cfg, r), Stake(u, amount, accepts)).Ok?
    ensures var s, t := Final(cfg, r), Step(cfg, Final(cfg, r), Stake(u, amount, accepts)).value;
      var next := Get(t.stakersCooldowns, u);
      && SameEnvironment(s, t) && t.rewardsPaid == s.rewardsPaid
      && BalancesMoved(s, t, ZERO, u, amount)
      && t.totalSupply == s.totalSupply + amount && t.stakedTokenHeld == s.stakedTokenHeld + amount
      && IndexesBrought(cfg, s, t, {u}) && GainsClaimable(cfg, s, t, {u})
      && CooldownSet(s, t, u, next)
      && Merged(s.impl.terms, s.now, 0, amount, Get(s.stakersCooldowns, u), Get(s.balances, u), next)
  {
    PowersAlwaysExact(cfg, r);
    IndexesWellFormed(cfg, r);
    StakeMoves(cfg, Final(cfg, r), u, amount, accepts);
    StakeMerges(cfg, Final(cfg, r), u, amount, accepts);
  }

  lemma RedeemMoves(cfg: Config, s: State, u: Address, to: Address, amount: nat, accepts: bool)
    requires Ready(cfg, s) && GovInv(s) && RedeemStep(cfg, s, u, to, amount, accepts).Ok?
    ensures var t := RedeemStep(cfg, s, u, to, amount, accepts).value;
      && SameEnvironment(s, t) && BalancesMoved(s, t, u, ZERO, Min(amount, Get(s.balances, u)))
      && IndexesBrought(cfg, s, t, {u}) && GainsClaimable(cfg, s, t, {u}) && t.rewardsPaid == s.rewardsPaid
  {
    RedeemLedger(cfg, s, u, to, amount, accepts);
    RedeemParts(cfg, s, u, to, amount, accepts);
    AccrueDoes(cfg, s, RedeemStep(cfg, s, u, to, amount, accepts).value, u);
    MovedDoes(cfg, s, RedeemStep(cfg, s, u, to, amount, accepts).value, u, ZERO, Min(amount, Get(s.balances, u)));
  }

  lemma RedeemBurns(cfg: Config, s: State, u: Address, to: Address, amount: nat, accepts: bool)
    requires RedeemStep(cfg, s, u, to, amount, accepts).Ok?
    ensures var t, out := RedeemStep(cfg, s, u, to, amount, accepts).value, Min(amount, Get(s.balances, u));
      && t.totalSupply == s.totalSupply - out
      && t.stakedTokenHeld == s.stakedTokenHeld - (if to == cfg.self then 0 else out)
      && CooldownSet(s, t, u, if out == Get(s.balances, u) then 0 else Get(s.stakersCooldowns, u))
  {
    RedeemParts(cfg, s, u, to, amount, accepts);
  }

  /** A redemption, of at most the balance; the last token ends the cooldown. */
  lemma {:induction false} RedeemDoes(cfg: Config, r: Run, u: Address, to: Address, amount: nat, accepts: bool)
    requires Feasible(cfg, r) && Step(cfg, Final(cfg, r), Redeem(u, to, amount, accepts)).Ok?
    ensures var s, t := Final(cfg, r), Step(cfg, Final(cfg, r), Redeem(u, to, amount, accepts)).value;
      var out := Min(amount, Get(s.balances, u));
      && SameEnvironment(s, t) && t.rewardsPaid == s.rewardsPaid
      && BalancesMoved(s, t, u, ZERO, out)
      && t.totalSupply == s.totalSupply - out
      && t.stakedTokenHeld == s.stakedTokenHeld - (if to == cfg.self then 0 else out)
      && IndexesBrought(cfg, s, t, {u}) && GainsClaimable(cfg, s, t, {u})
      && CooldownSet(s, t, u, if out == Get(s.balances, u) then 0 else Get(s.stakersCooldowns, u))
  {
    PowersAlwaysExact(cfg, r);
    IndexesWellFormed(cfg, r);
    RedeemMoves(cfg, Final(cfg, r), u, to, amount, accepts);
    RedeemBurns(cfg, Final(cfg, r), u, to, amount, accepts);
  }

  /** The cooldowns after a transfer to another account: the recipient's is the merged one, counting the
      tokens from the sender's, and the sender's ends with the last token. */
  ghost predicate CooldownsTransferred(s: State, t: State, from: Address, to: Address, amount: nat) {
    var c, d := Get(s.stakersCooldowns, from), Get(s.stakersCooldowns, to);
    && Merged(s.impl.terms, s.now, c, amount, d, Get(s.balances, to), Get(t.stakersCooldowns, to))
    && Get(t.stakersCooldowns, from) == (if amount == Get(s.balances, from) then 0 else c)
    && (forall v :: v != from && v != to ==> Get(t.stakersCooldowns, v) == Get(s.stakersCooldowns, v))
  }

  lemma CooldownsDo(cfg: Config, s: State, t: State, from: Address, to: Address, amount: nat)
    requires Books(cfg, s) && from != to
    requires CooldownsAfterTransfer(s, from, to, amount) == Ok(t.stakersCooldowns)
    ensures CooldownsTransferred(s, t, from, to, amount)
  {
    MergeIsAverage(s.impl.terms, s.now, Get(s.stakersCooldowns, from), amount, Get(s.stakersCooldowns, to),
      Get(s.balances, to));
  }

  lemma {:induction false} TransferDoes(cfg: Config, r: Run, from: Address, to: Address, amount: nat)
    requires Feasible(cfg, r) && Step(cfg, Final(cfg, r), Transfer(from, to, amount)).Ok?
    ensures var s, t := Final(cfg, r), Step(cfg, Final(cfg, r), Transfer(from, to, amount)).value;
      && SameEnvironment(s, t) && t.rewardsPaid == s.rewardsPaid
      && BalancesMoved(s, t, from, to, amount)
      && t.totalSupply == s.totalSupply && t.stakedTokenHeld == s.stakedTokenHeld
      && IndexesBrought(cfg, s, t, {from, to}) && GainsClaimable(cfg, s, t, {from, to})
      && (if from == to then t.stakersCooldowns == s.stakersCooldowns
          else CooldownsTransferred(s, t, from, to, amount))
  {
    var s := Final(cfg, r);
    PowersAlwaysExact(cfg, r);
    IndexesWellFormed(cfg, r);
    LedgerStep(cfg, s, Transfer(from, to, amount));
    TransferParts(cfg, s, from, to, amount);
    var t := TransferStep(cfg, s, from, to, amount).value;
    AccrueBothDoes(cfg, s, t, from, to);
    MovedDoes(cfg, s, t, from, to, amount);
    if from != to {
      CooldownsDo(cfg, s, t, from, to, amount);
    }
  }

  lemma ClaimSettles(cfg: Config, s: State, u: Address, amount: nat, accepts: bool)
    requires Ready(cfg, s) && ClaimStep(cfg, s, u, amount, accepts).Ok?
    ensures IndexesBrought(cfg, s, ClaimStep(cfg, s, u, amount, accepts).value, {u})
  {
    ClaimParts(cfg, s, u, amount, accepts);
    AccrueBrings(cfg, s, u);
    AccrueParts(cfg, s, u);
  }

  /** `u` was paid, and the rest stays claimable. */
  ghost predicate PaidOut(cfg: Config, s: State, t: State, u: Address, paid: int) {
    var total := Get(s.stakerRewardsToClaim, u) + PendingNow(cfg, s)(u);
    && 0 <= paid <= total
    && (forall v :: Get(t.rewardsPaid, v) == Get(s.rewardsPaid, v) + if v == u then paid else 0)
    && (forall v :: Get(t.stakerRewardsToClaim, v) == if v == u then total - paid else Get(s.stakerRewardsToClaim, v))
  }

  /** What a claim of `amount` pays. */
  ghost function ClaimPayment(cfg: Config, s: State, u: Address, amount: nat): int {
    if amount == UINT256 - 1 then Get(s.stakerRewardsToClaim, u) + PendingNow(cfg, s)(u) else amount
  }

  /** Everything, or so much of what is claimable, left `s1` for `t`. */
  ghost predicate Withdrawn(s1: State, t: State, u: Address, amount: nat) {
    var claimable := Get(s1.stakerRewardsToClaim, u);
    var paid := if amount == UINT256 - 1 then claimable else amount;
    && paid <= claimable
    && t.stakerRewardsToClaim == s1.stakerRewardsToClaim[u := claimable - paid]
    && t.rewardsPaid == s1.rewardsPaid[u := Get(s1.rewardsPaid, u) + paid]
  }

  lemma ClaimWithdraws(cfg: Config, s: State, u: Address, amount: nat, accepts: bool)
    requires ClaimStep(cfg, s, u, amount, accepts).Ok?
    ensures Accrue(cfg, s, u).Ok?
    ensures Withdrawn(Accrue(cfg, s, u).value, ClaimStep(cfg, s, u, amount, accepts).value, u, amount)
  {
    ClaimParts(cfg, s, u, amount, accepts);
  }

  lemma WithdrawnIsPaidOut(cfg: Config, s: State, s1: State, t: State, u: Address, amount: nat)
    requires GainsClaimable(cfg, s, s1, {u}) && s1.rewardsPaid == s.rewardsPaid && Withdrawn(s1, t, u, amount)
    ensures PaidOut(cfg, s, t, u, ClaimPayment(cfg, s, u, amount))
  {
    assert Get(s1.stakerRewardsToClaim, u) == Get(s.stakerRewardsToClaim, u) + PendingNow(cfg, s)(u);
  }

  lemma ClaimPaysOut(cfg: Config, s: State, u: Address, amount: nat, accepts: bool)
    requires Ready(cfg, s) && ClaimStep(cfg, s, u, amount, accepts).Ok?
    ensures PaidOut(cfg, s, ClaimStep(cfg, s, u, amount, accepts).value, u, ClaimPayment(cfg, s, u, amount))
  {
    ClaimWithdraws(cfg, s, u, amount, accepts);
    AccrueGains(cfg, s, u);
    AccrueParts(cfg, s, u);
    WithdrawnIsPaidOut(cfg, s, Accrue(cfg, s, u).value, ClaimStep(cfg, s, u, amount, accepts).value, u, amount);
  }

  /** A claim of everything, or of so much. */
  lemma {:induction false} ClaimDoes(cfg: Config, r: Run, u: Address, to: Address, amount: nat, accepts: bool)
    requires Feasible(cfg, r) && Step(cfg, Final(cfg, r), ClaimRewards(u, to, amount, accepts)).Ok?
    ensures var s, t := Final(cfg, r), Step(cfg, Final(cfg, r), ClaimRewards(u, to, amount, accepts)).value;
      && SameEnvironment(s, t) && SameTokens(s, t) && SamePower(s, t) && t.stakersCooldowns == s.stakersCooldowns
      && IndexesBrought(cfg, s, t, {u})
      && PaidOut(cfg, s, t, u, ClaimPayment(cfg, s, u, amount))
  {
    IndexesWellFormed(cfg, r);
    ClaimParts(cfg, Final(cfg, r), u, amount, accepts);
    ClaimSettles(cfg, Final(cfg, r), u, amount, accepts);
    ClaimPaysOut(cfg, Final(cfg, r), u, amount, accepts);
  }

  // ---------- cooldowns ----------

  /** `cooldown` goes through for holders, and only for them; it starts the caller's cooldown now, and
      does nothing else. */
  lemma {:induction false} CooldownStarts(cfg: Config, r: Run, u: Address)
    requires Feasible(cfg, r)
    ensures var s, step := Final(cfg, r), Step(cfg, Final(cfg, r), StartCooldown(u));
      && (step.Ok? <==> Get(s.balances, u) != 0)
      && (step.Revert? ==> step.reason == InvalidBalanceOnCooldown)
      && (step.Ok? ==>
           && step.value == s.(stakersCooldowns := step.value.stakersCooldowns)
           && CooldownSet(s, step.value, u, s.now))
      && 0 < s.now
  {
    BooksHold(cfg, r);
  }

  // ---------- delegation ----------

  function Other(kind: DelegationType): DelegationType {
    match kind
    case VotingPower => PropositionPower
    case PropositionPower => VotingPower
  }

  /** The delegator's delegatee is the one named, the delegator's balance has gone from the old
      delegatee's power to the new one's, and nothing else has changed. */
  ghost predicate Delegated(s: State, t: State, delegator: Address, delegatee: Address, kind: DelegationType) {
    var b, ds, ds' := Get(s.balances, delegator), Data(s, kind).delegates, Data(t, kind).delegates;
    && t == s.(voting := t.voting, proposition := t.proposition)
    && Data(t, Other(kind)) == Data(s, Other(kind))
    && (forall v :: Delegatee(ds', v) == if v == delegator then delegatee else Delegatee(ds, v))
    && (forall v ::
          TruePower(t, kind, v)
          == TruePower(s, kind, v)
             - (if v == Delegatee(ds, delegator) then b else 0) + (if v == delegatee then b else 0))
  }

  lemma DelegatesRedirected(s: State, t: State, delegator: Address, delegatee: Address, kind: DelegationType)
    requires delegatee != ZERO && t == s.(voting := t.voting, proposition := t.proposition)
    requires Data(t, Other(kind)) == Data(s, Other(kind))
    requires Data(t, kind).delegates == Data(s, kind).delegates[delegator := delegatee]
    ensures Delegated(s, t, delegator, delegatee, kind)
  {
    var b, ds := Get(s.balances, delegator), Data(s, kind).delegates;
    forall v
      ensures TruePower(t, kind, v)
           == TruePower(s, kind, v)
              - (if v == Delegatee(ds, delegator) then b else 0) + (if v == delegatee then b else 0)
    {
      DelegatedRedirect(s.balances, ds, v, delegator, delegatee);
    }
  }

  lemma DelegateSucceeds(cfg: Config, s: State, delegator: Address, delegatee: Address, kind: DelegationType)
    requires Books(cfg, s) && GovInv(s) && s.impl.hasDelegation && delegator != ZERO && delegatee != ZERO
    ensures DelegateStep(s, delegator, delegatee, kind).Ok?
    ensures Data(DelegateStep(s, delegator, delegatee, kind).value, kind).delegates
         == Data(s, kind).delegates[delegator := delegatee]
  {
    match kind
    case VotingPower => DelegateKeeps(s.balances, s.voting, s.block, delegator, delegatee);
    case PropositionPower => DelegateKeeps(s.balances, s.proposition, s.block, delegator, delegatee);
  }

  lemma DelegateDoes(cfg: Config, s: State, delegator: Address, delegatee: Address, kind: DelegationType)
    requires Books(cfg, s) && GovInv(s) && s.impl.hasDelegation && delegator != ZERO && delegatee != ZERO
    ensures DelegateStep(s, delegator, delegatee, kind).Ok?
    ensures Delegated(s, DelegateStep(s, delegator, delegatee, kind).value, delegator, delegatee, kind)
  {
    DelegateSucceeds(cfg, s, delegator, delegatee, kind);
    DelegateParts(s, delegator, delegatee, kind);
    DelegatesRedirected(s, DelegateStep(s, delegator, delegatee, kind).value, delegator, delegatee, kind);
  }

  lemma DelegateRefused(s: State, delegator: Address, delegatee: Address, kind: DelegationType)
    requires !s.impl.hasDelegation || delegatee == ZERO
    ensures DelegateStep(s, delegator, delegatee, kind)
         == Revert(if s.impl.hasDelegation then InvalidDelegatee else NoSuchFunction)
  {
  }

  /** Delegating goes through to anybody, back to oneself included, whenever the implementation has it. */
  lemma {:induction false} DelegateGoesThroughIff(
      cfg: Config, r: Run, delegator: Address, delegatee: Address, kind: DelegationType)
    requires Feasible(cfg, r) && delegator != ZERO
    ensures var s, step := Final(cfg, r), Step(cfg, Final(cfg, r), Delegate(delegator, delegatee, kind));
      && (step.Ok? <==> s.impl.hasDelegation && delegatee != ZERO)
      && (step.Ok? ==> Delegated(s, step.value, delegator, delegatee, kind))
      && (step.Revert? ==> step.reason == if s.impl.hasDelegation then InvalidDelegatee else NoSuchFunction)
  {
    PowersAlwaysExact(cfg, r);
    if Final(cfg, r).impl.hasDelegation && delegatee != ZERO {
      DelegateDoes(cfg, Final(cfg, r), delegator, delegatee, kind);
    } else {
      DelegateRefused(Final(cfg, r), delegator, delegatee, kind);
    }
  }

  // ---------- administration ----------

  /** A configuration goes through exactly when the emission manager makes it and the indexes fit; it
      changes the assets it names, each by its first total and its last rate, and nothing else. */
  lemma {:induction false} ConfigureGoesThroughIff(
      cfg: Config, r: Run, sender: Address, inputs: seq<AssetConfigInput>)
    requires Feasible(cfg, r)
    ensures var s, step := Final(cfg, r), Step(cfg, Final(cfg, r), ConfigureAssets(sender, inputs));
      && (step.Ok? <==> sender == cfg.emissionManager && InputsFit(s.now, s.impl.distributionEnd, s.assets, inputs))
      && (sender != cfg.emissionManager ==> step == Revert(OnlyEmissionManager))
      && (step.Ok? ==>
           && step.value == s.(assets := step.value.assets)
           && forall x :: Asset(step.value.assets, x)
                == ConfiguredAsset(s.now, s.impl.distributionEnd, Asset(s.assets, x), inputs, x))
  {
    IndexesWellFormed(cfg, r);
    ConfigureIs(Final(cfg, r).now, Final(cfg, r).impl.distributionEnd, Final(cfg, r).assets, inputs);
  }

  /** An upgrade goes through exactly to a higher revision than any before; it swaps the implementation
      and, if that rewinds, sets the last update of the contract's own asset back to 1620594720. */
  lemma {:induction false} UpgradeGoesThroughIff(cfg: Config, r: Run, impl: Implementation)
    ensures var s, step := Final(cfg, r), Step(cfg, Final(cfg, r), Upgrade(impl));
      && (step.Ok? <==> impl.revision > s.lastInitializedRevision)
      && (step.Revert? ==> step.reason == AlreadyInitialized)
      && (step.Ok? ==>
           && step.value == s.(impl := impl, lastInitializedRevision := impl.revision, assets := step.value.assets)
           && forall x :: Asset(step.value.assets, x)
                == if impl.rewinds && x == cfg.self then Asset(s.assets, x).(lastUpdateTimestamp := 1620594720)
                   else Asset(s.assets, x))
  {
    if UpgradeStep(cfg, Final(cfg, r), impl).Ok? {
      UpgradeParts(cfg, Final(cfg, r), impl);
    }
  }

  // ---------- reasons ----------

  /** Nothing is staked or redeemed for an amount of zero. */
  lemma ZeroIsRefused(cfg: Config, s: State, u: Address, to: Address, accepts: bool)
    ensures Step(cfg, s, Stake(u, 0, accepts)) == Revert(InvalidZeroAmount)
    ensures Step(cfg, s, Redeem(u, to, 0, accepts)) == Revert(InvalidZeroAmount)
  {
  }

  /** Outside the window the reason says on which side. */
  lemma {:induction false} RedeemRefused(cfg: Config, r: Run, u: Address, to: Address, amount: nat, accepts: bool)
    requires Feasible(cfg, r) && amount > 0
    ensures var s := Final(cfg, r);
      var ready := Get(s.stakersCooldowns, u) + s.impl.terms.cooldownSeconds;
      && (s.now <= ready < UINT256 ==> Step(cfg, s, Redeem(u, to, amount, accepts)) == Revert(InsufficientCooldown))
      && (ready + s.impl.terms.unstakeWindow < s.now
          ==> Step(cfg, s, Redeem(u, to, amount, accepts)) == Revert(UnstakeWindowFinished))
  {
    BooksHold(cfg, r);
    RedeemWindowIff(Final(cfg, r).impl.terms, Final(cfg, r).now, Get(Final(cfg, r).stakersCooldowns, u));
  }

  // ---------- numbers ----------

  /** The rounding of the index and of an account's rewards, with the precision written out: eighteen
      decimals. */
  lemma RoundingInNumbers(cfg: Config, s: State, u: Address)
    requires Ready(cfg, s)
    ensures var a := SelfAsset(cfg, s);
      var emitted := a.emissionPerSecond * Window(a.lastUpdateTimestamp, s.now, s.impl.distributionEnd);
      var gain := IndexNow(cfg, s) - a.index;
      s.totalSupply > 0 ==>
        s.totalSupply * gain <= emitted * 1_000_000_000_000_000_000 < s.totalSupply * gain + s.totalSupply
    ensures var gained := Get(s.balances, u) * (IndexNow(cfg, s) - Get(SelfAsset(cfg, s).users, u));
      var pending := PendingNow(cfg, s)(u);
      1_000_000_000_000_000_000 * pending <= gained < 1_000_000_000_000_000_000 * pending + 1_000_000_000_000_000_000
  {
    var a := SelfAsset(cfg, s);
    if s.totalSupply > 0 {
      GainBounds(a.emissionPerSecond, Window(a.lastUpdateTimestamp, s.now, s.impl.distributionEnd), s.totalSupply);
    }
  }

  /** Words have 128 and 256 bits, and a cast keeps the low ones. */
  lemma WordsInNumbers(x: nat)
    ensures UINT128 == 18446744073709551616 * 18446744073709551616 && UINT256 == UINT128 * UINT128
    ensures Cast128(x) < UINT128 && exists high: nat :: x == high * UINT128 + Cast128(x)
  {
    if x < UINT128 {
      assert x == 0 * UINT128 + Cast128(x);
    } else {
      assert x == x / UINT128 * UINT128 + Cast128(x);
    }
  }
}
