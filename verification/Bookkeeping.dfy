/** Tokens and cooldowns over whole runs: balances add up to the supply, the supply is backed
    by tokens held, and only holders have a cooldown. */
module Bookkeeping {
  import opened Evm
  import opened Sums
  import opened Cooldown
  import opened Delegation
  import opened StakedToken

  ghost predicate ClockInv(s: State) {
    0 < s.now < UINT128 && s.block < UINT128
  }

  ghost predicate LedgerInv(cfg: Config, s: State) {
    && Total(s.balances) == s.totalSupply
    && s.totalSupply <= s.stakedTokenHeld <= cfg.stakedTokenSupply
    && Get(s.balances, ZERO) == 0
  }

  ghost predicate CooldownInv(s: State) {
    forall u :: Get(s.stakersCooldowns, u) <= s.now && (Get(s.stakersCooldowns, u) != 0 ==> Get(s.balances, u) != 0)
  }

  ghost predicate Books(cfg: Config, s: State) {
    ValidConfig(cfg) && ClockInv(s) && LedgerInv(cfg, s) && CooldownInv(s)
  }

  lemma ShiftedBalance(b: Balances, from: Address, to: Address, amount: nat, u: Address)
    requires from != ZERO ==> amount <= Get(b, from)
    requires from != to
    ensures Get(Shift(b, from, to, amount), u)
         == Get(b, u) - (if u == from && u != ZERO then amount else 0) + (if u == to && u != ZERO then amount else 0)
  {
  }

  lemma StakeLedger(cfg: Config, s: State, u: Address, amount: nat, accepts: bool)
    requires LedgerInv(cfg, s) && StakeStep(cfg, s, u, amount, accepts).Ok?
    ensures LedgerInv(cfg, StakeStep(cfg, s, u, amount, accepts).value)
  {
    StakeParts(cfg, s, u, amount, accepts);
    TotalShift(s.balances, ZERO, u, amount);
    ShiftedBalance(s.balances, ZERO, u, amount, ZERO);
  }

  lemma RedeemLedger(cfg: Config, s: State, u: Address, to: Address, amount: nat, accepts: bool)
    requires LedgerInv(cfg, s) && RedeemStep(cfg, s, u, to, amount, accepts).Ok?
    ensures LedgerInv(cfg, RedeemStep(cfg, s, u, to, amount, accepts).value)
  {
    RedeemParts(cfg, s, u, to, amount, accepts);
    TotalShift(s.balances, u, ZERO, Min(amount, Get(s.balances, u)));
    ShiftedBalance(s.balances, u, ZERO, Min(amount, Get(s.balances, u)), ZERO);
  }

  lemma TransferLedger(cfg: Config, s: State, from: Address, to: Address, amount: nat)
    requires LedgerInv(cfg, s) && TransferStep(cfg, s, from, to, amount).Ok?
    ensures LedgerInv(cfg, TransferStep(cfg, s, from, to, amount).value)
  {
    TransferParts(cfg, s, from, to, amount);
    TotalShift(s.balances, from, to, amount);
    assert Get(Shift(s.balances, from, to, amount), ZERO) == Get(s.balances, ZERO);
  }

  lemma LedgerStep(cfg: Config, s: State, a: Action)
    requires LedgerInv(cfg, s) && Step(cfg, s, a).Ok?
    ensures LedgerInv(cfg, Step(cfg, s, a).value)
  {
    match a
    case Stake(u, amount, accepts) => StakeLedger(cfg, s, u, amount, accepts);
    case Redeem(u, to, amount, accepts) => RedeemLedger(cfg, s, u, to, amount, accepts);
    case Transfer(from, to, amount) => TransferLedger(cfg, s, from, to, amount);
    case ClaimRewards(u, _, amount, accepts) => ClaimParts(cfg, s, u, amount, accepts);
    case _ => AdministrativeParts(cfg, s, a);
  }

  lemma StakeCooldowns(cfg: Config, s: State, u: Address, amount: nat, accepts: bool)
    requires Books(cfg, s) && StakeStep(cfg, s, u, amount, accepts).Ok?
    ensures CooldownInv(StakeStep(cfg, s, u, amount, accepts).value)
  {
    StakeParts(cfg, s, u, amount, accepts);
    NextNeverEarlier(s.impl.terms, s.now, 0, amount, Get(s.stakersCooldowns, u), Get(s.balances, u));
    var t := StakeStep(cfg, s, u, amount, accepts).value;
    forall v
      ensures Get(t.stakersCooldowns, v) <= t.now && (Get(t.stakersCooldowns, v) != 0 ==> Get(t.balances, v) != 0)
    {
      ShiftedBalance(s.balances, ZERO, u, amount, v);
    }
  }

  lemma RedeemCooldowns(cfg: Config, s: State, u: Address, to: Address, amount: nat, accepts: bool)
    requires Books(cfg, s) && RedeemStep(cfg, s, u, to, amount, accepts).Ok?
    ensures CooldownInv(RedeemStep(cfg, s, u, to, amount, accepts).value)
  {
    RedeemParts(cfg, s, u, to, amount, accepts);
    var t := RedeemStep(cfg, s, u, to, amount, accepts).value;
    forall v
      ensures Get(t.stakersCooldowns, v) <= t.now && (Get(t.stakersCooldowns, v) != 0 ==> Get(t.balances, v) != 0)
    {
      ShiftedBalance(s.balances, u, ZERO, Min(amount, Get(s.balances, u)), v);
    }
  }

  lemma CooldownMerged(cfg: Config, s: State, from: Address, to: Address, amount: nat, v: Address)
    requires Books(cfg, s) && from != to && TransferStep(cfg, s, from, to, amount).Ok?
    ensures var t := TransferStep(cfg, s, from, to, amount).value;
      Get(t.stakersCooldowns, v) <= s.now && (Get(t.stakersCooldowns, v) != 0 ==> Get(t.balances, v) != 0)
  {
    TransferParts(cfg, s, from, to, amount);
    ShiftedBalance(s.balances, from, to, amount, v);
    NextNeverEarlier(s.impl.terms, s.now, Get(s.stakersCooldowns, from), amount, Get(s.stakersCooldowns, to),
      Get(s.balances, to));
  }

  lemma TransferCooldowns(cfg: Config, s: State, from: Address, to: Address, amount: nat)
    requires Books(cfg, s) && TransferStep(cfg, s, from, to, amount).Ok?
    ensures CooldownInv(TransferStep(cfg, s, from, to, amount).value)
  {
    TransferParts(cfg, s, from, to, amount);
    var t := TransferStep(cfg, s, from, to, amount).value;
    if from == to {
      assert forall v :: Get(t.balances, v) == Get(s.balances, v);
    } else {
      forall v
        ensures Get(t.stakersCooldowns, v) <= t.now && (Get(t.stakersCooldowns, v) != 0 ==> Get(t.balances, v) != 0)
      {
        CooldownMerged(cfg, s, from, to, amount, v);
      }
    }
  }

  lemma StartCooldowns(s: State, u: Address)
    requires CooldownInv(s) && CooldownStep(s, u).Ok?
    ensures CooldownInv(CooldownStep(s, u).value)
  {
    var t := CooldownStep(s, u).value;
    assert forall v :: Get(t.stakersCooldowns, v) == if v == u then s.now else Get(s.stakersCooldowns, v);
  }

  lemma AdministrativeCooldowns(cfg: Config, s: State, a: Action)
    requires CooldownInv(s) && Administrative(a) && !a.StartCooldown? && Step(cfg, s, a).Ok?
    ensures CooldownInv(Step(cfg, s, a).value)
  {
    AdministrativeParts(cfg, s, a);
    assert s.now <= Step(cfg, s, a).value.now by {
      if a.Upgrade? {
        UpgradeParts(cfg, s, a.impl);
      }
    }
  }

  lemma CooldownsStep(cfg: Config, s: State, a: Action)
    requires Books(cfg, s) && Step(cfg, s, a).Ok?
    ensures CooldownInv(Step(cfg, s, a).value)
  {
    match a
    case Stake(u, amount, accepts) => StakeCooldowns(cfg, s, u, amount, accepts);
    case Redeem(u, to, amount, accepts) => RedeemCooldowns(cfg, s, u, to, amount, accepts);
    case Transfer(from, to, amount) => TransferCooldowns(cfg, s, from, to, amount);
    case ClaimRewards(u, _, amount, accepts) => ClaimParts(cfg, s, u, amount, accepts);
    case StartCooldown(u) => StartCooldowns(s, u);
    case _ => AdministrativeCooldowns(cfg, s, a);
  }

  /** Only a new block moves the clock, and only an upgrade changes the implementation. */
  lemma EnvironmentStep(cfg: Config, s: State, a: Action)
    requires Step(cfg, s, a).Ok? && !a.NextBlock? && !a.Upgrade?
    ensures SameEnvironment(s, Step(cfg, s, a).value)
  {
    match a
    case Stake(u, amount, accepts) => StakeParts(cfg, s, u, amount, accepts);
    case Redeem(u, to, amount, accepts) => RedeemParts(cfg, s, u, to, amount, accepts);
    case Transfer(from, to, amount) => TransferParts(cfg, s, from, to, amount);
    case ClaimRewards(u, _, amount, accepts) => ClaimParts(cfg, s, u, amount, accepts);
    case _ => AdministrativeParts(cfg, s, a);
  }

  lemma BooksStep(cfg: Config, s: State, a: Action)
    requires Books(cfg, s) && Possible(s, a)
    ensures Books(cfg, Apply(cfg, s, a))
  {
    if Step(cfg, s, a).Ok? {
      LedgerStep(cfg, s, a);
      CooldownsStep(cfg, s, a);
      if !a.NextBlock? && !a.Upgrade? {
        EnvironmentStep(cfg, s, a);
      }
    }
  }

  /** In every state of every run: balances add up to the supply, the contract holds at least
      as many staked tokens, and an account with a cooldown holds tokens. */
  lemma {:induction false} BooksHold(cfg: Config, r: Run)
    requires Feasible(cfg, r)
    ensures Books(cfg, Final(cfg, r))
  {
    match r
    case Deploy(impl, now, block) =>
      assert Total(map[]) == 0 by {
        SumZero({}, Amounts(map[]));
      }
    case After(prior, a) =>
      BooksHold(cfg, prior);
      BooksStep(cfg, Final(cfg, prior), a);
  }

  // ---------- no arithmetic stops a holder ----------

  lemma MulMonotone(a: nat, b: nat, c: nat, d: nat)
    requires a <= c && b <= d
    ensures a * b <= c * d
  {
    assert a * b <= c * b <= c * d;
  }

  /** The clock allows a merge into the cooldown of `u`: there is none, or the clock is not younger
      than the cooldown period and the window together. */
  ghost predicate ClockAllows(s: State, u: Address) {
    Get(s.stakersCooldowns, u) == 0 || s.impl.terms.cooldownSeconds + s.impl.terms.unstakeWindow <= s.now
  }

  /** The weighted average divides by a positive number and overflows only for amounts that
      cannot exist: for any amount that fits with the balance in 128 bits it succeeds exactly when
      the clock allows it. */
  lemma AverageSucceedsIff(cfg: Config, s: State, from: nat, amount: nat, u: Address)
    requires Books(cfg, s) && from <= s.now && amount + Get(s.balances, u) < UINT128
    ensures ClockAllows(s, u)
       <==> GetNextCooldownTimestamp(s.impl.terms, s.now, from, amount, Get(s.stakersCooldowns, u),
              Get(s.balances, u)).Ok?
  {
    var to, b := Get(s.stakersCooldowns, u), Get(s.balances, u);
    if ClockAllows(s, u) {
      var e := if s.now - s.impl.terms.cooldownSeconds - s.impl.terms.unstakeWindow > from then s.now else from;
      MulMonotone(amount, e, amount, UINT128);
      MulMonotone(b, to, b, UINT128);
      assert (amount + b) * UINT128 == amount * UINT128 + b * UINT128;
    }
  }
}
