/** One user's rewards over whole runs, against the payout they stand for: each second the
    user's exact share of the emission. */
module Payout {
  import opened Arithmetic
  import opened Evm
  import opened Distribution
  import opened Delegation
  import opened StakedToken
  import opened Rewards
  import opened Solvency

  // ---------- the reference ----------

  /** What one second of emission is worth to `u`, exactly. */
  function SharePerSecond(cfg: Config, s: State, u: Address): real {
    if s.totalSupply == 0 then 0.0
    else (Get(s.balances, u) * SelfAsset(cfg, s).emissionPerSecond) as real / s.totalSupply as real
  }

  /** The seconds one by one. */
  function ShareOver(from: nat, count: nat, end: nat, share: real): real {
    if count == 0 then 0.0 else ShareOver(from, count - 1, end, share) + if from + count - 1 < end then share else 0.0
  }

  /** The user's shares of what one action adds to the emission. */
  function FairShareOf(cfg: Config, s: State, a: Action, u: Address): real {
    if Step(cfg, s, a).Revert? then 0.0
    else
      match a
      case NextBlock(seconds) => ShareOver(s.now, seconds, s.impl.distributionEnd, SharePerSecond(cfg, s, u))
      case Upgrade(_) => ShareOfNewSeconds(cfg, s, Step(cfg, s, a).value, u)
      case _ => 0.0
  }

  function FairPayout(cfg: Config, r: Run, u: Address): real {
    match r
    case Deploy(_, _, _) => 0.0
    case After(prior, a) => FairPayout(cfg, prior, u) + FairShareOf(cfg, Final(cfg, prior), a, u)
  }

  /** The seconds that become payable only by an upgrade. */
  function ShareOfNewSeconds(cfg: Config, s: State, t: State, u: Address): real {
    Shares(cfg, s, CountSeconds(s.now, NewlyPayable(cfg, s, t)), u)
  }

  function Shares(cfg: Config, s: State, seconds: nat, u: Address): real {
    seconds as real * SharePerSecond(cfg, s, u)
  }

  // ---------- the user's account ----------

  /** Paid, claimable and gained so far, scaled. */
  function Earned(cfg: Config, s: State, u: Address): int {
    var a := SelfAsset(cfg, s);
    PRECISION * (Get(s.rewardsPaid, u) + Get(s.stakerRewardsToClaim, u))
      + Get(s.balances, u) * (a.index - Get(a.users, u))
  }

  /** The exact share of `emitted`, scaled. */
  function ShareOf(b: nat, emitted: nat, total: nat): real {
    if total == 0 then 0.0 else (b * (emitted * PRECISION)) as real / total as real
  }

  function EmittedSince(cfg: Config, s: State): nat {
    var a := SelfAsset(cfg, s);
    a.emissionPerSecond * Window(a.lastUpdateTimestamp, s.now, s.impl.distributionEnd)
  }

  /** The user's exact share of what was emitted since the last update, scaled. */
  function FairPending(cfg: Config, s: State, u: Address): real {
    ShareOf(Get(s.balances, u), EmittedSince(cfg, s), s.totalSupply)
  }

  function UserWorth(cfg: Config, s: State, u: Address): real {
    Earned(cfg, s, u) as real + FairPending(cfg, s, u)
  }

  lemma Quotient(x: int, y: int, n: nat)
    requires n > 0
    ensures x * n <= y ==> x as real <= y as real / n as real
    ensures y <= x * n ==> y as real / n as real <= x as real
  {
    var q := y as real / n as real;
    assert q * n as real == y as real;
    assert (x * n) as real == x as real * n as real;
  }

  lemma ShareBelow(b: nat, gain: nat, m: nat, total: nat)
    requires total * gain <= m
    ensures b * gain * total <= b * m
  {
    MulLe(b, total * gain, m);
    assert b * gain * total == b * (total * gain);
  }

  lemma ShareAbove(b: nat, gain: nat, m: nat, total: nat)
    requires m <= total * gain + total
    ensures b * m <= (b * gain + b) * total
  {
    MulLe(b, m, total * (gain + 1));
    assert (b * gain + b) * total == b * (total * (gain + 1));
  }

  /** What a balance gains by one index update is its exact share, less at most its own size. */
  lemma GainIsShare(b: nat, gain: nat, emitted: nat, total: nat)
    requires total > 0
    requires total * gain <= emitted * PRECISION < total * gain + total
    ensures (b * gain) as real <= ShareOf(b, emitted, total) <= (b * gain + b) as real
  {
    var m := emitted * PRECISION;
    ShareBelow(b, gain, m, total);
    ShareAbove(b, gain, m, total);
    Quotient(b * gain, b * m, total);
    Quotient(b * gain + b, b * m, total);
  }

  lemma NoShare(b: nat, total: nat)
    ensures ShareOf(b, 0, total) == 0.0
  {
    if total > 0 {
      assert b * (0 * PRECISION) == 0;
      assert 0.0 / total as real == 0.0;
    }
  }

  lemma ShareAdds(b: nat, x: nat, y: nat, total: nat)
    ensures ShareOf(b, x + y, total) == ShareOf(b, x, total) + ShareOf(b, y, total)
  {
    if total > 0 {
      var p, q, n := b * (x * PRECISION), b * (y * PRECISION), total as real;
      assert b * ((x + y) * PRECISION) == p + q;
      assert (p + q) as real / n == p as real / n + q as real / n;
    }
  }

  // ---------- one step ----------

  /** The step adds at most nothing to the user's worth and takes at most `loss`. */
  ghost predicate Near(cfg: Config, s: State, t: State, u: Address, loss: int) {
    UserWorth(cfg, t, u) <= UserWorth(cfg, s, u) <= UserWorth(cfg, t, u) + loss as real
  }

  /** The dust of an index update for one user. */
  function UserDust(cfg: Config, s: State, u: Address): nat {
    if SelfAsset(cfg, s).lastUpdateTimestamp == s.now then 0 else Get(s.balances, u)
  }

  lemma UpToDateWorth(cfg: Config, s: State, u: Address)
    requires SelfAsset(cfg, s).lastUpdateTimestamp == s.now
    ensures UserWorth(cfg, s, u) == Earned(cfg, s, u) as real
  {
    assert EmittedSince(cfg, s) == SelfAsset(cfg, s).emissionPerSecond * 0 == 0;
    NoShare(Get(s.balances, u), s.totalSupply);
  }

  /** The user's gain from bringing the index up to now, against the exact share. */
  lemma FairGain(cfg: Config, s: State, u: Address)
    requires Ready(cfg, s)
    ensures var g := Get(s.balances, u) * (IndexNow(cfg, s) - SelfAsset(cfg, s).index);
      g as real <= FairPending(cfg, s, u) <= (g + UserDust(cfg, s, u)) as real
  {
    var a := SelfAsset(cfg, s);
    assert AssetInv(a, s.now);
    var b, w, gain := Get(s.balances, u), Window(a.lastUpdateTimestamp, s.now, s.impl.distributionEnd),
      IndexNow(cfg, s) - a.index;
    if s.totalSupply == 0 {
      assert b * 0 == 0;
    } else if a.lastUpdateTimestamp == s.now {
      IndexAlreadyNow(cfg, s);
      assert b * 0 == 0;
      assert EmittedSince(cfg, s) == a.emissionPerSecond * 0 == 0;
      NoShare(b, s.totalSupply);
    } else {
      GainBounds(a.emissionPerSecond, w, s.totalSupply);
      GainIsShare(b, gain, a.emissionPerSecond * w, s.totalSupply);
    }
  }

  /** The state after an index update of the own asset under the true supply, and possibly the
      settlement of one account. */
  lemma EarnedAfter(cfg: Config, s: State, t: State, v: Address, u: Address)
    requires Accrued(cfg, s, t, v) && t.balances == s.balances && t.rewardsPaid == s.rewardsPaid
    ensures var now := EarnedNow(cfg, s, u);
      Earned(cfg, t, u) <= now <= Earned(cfg, t, u) + if u == v then PRECISION else 0
  {
    var index := IndexNow(cfg, s);
    EarnedNowIs(cfg, s, u);
    if u == v {
      assert Get(t.balances, u) * (index - index) == 0;
    }
  }

  /** The account as it would be with the index up to now. */
  function EarnedNow(cfg: Config, s: State, u: Address): int {
    Earned(cfg, s, u) + Get(s.balances, u) * (IndexNow(cfg, s) - SelfAsset(cfg, s).index)
  }

  lemma EarnedNowIs(cfg: Config, s: State, u: Address)
    ensures EarnedNow(cfg, s, u)
         == PRECISION * (Get(s.rewardsPaid, u) + Get(s.stakerRewardsToClaim, u))
            + Get(s.balances, u) * (IndexNow(cfg, s) - Get(SelfAsset(cfg, s).users, u))
  {
    var a := SelfAsset(cfg, s);
    Distribute(Get(s.balances, u), a.index - Get(a.users, u), IndexNow(cfg, s) - a.index);
  }

  /** The worth is the account with the index up to now, and at most the dust more. */
  lemma WorthNow(cfg: Config, s: State, u: Address)
    requires Ready(cfg, s)
    ensures EarnedNow(cfg, s, u) as real <= UserWorth(cfg, s, u) <= (EarnedNow(cfg, s, u) + UserDust(cfg, s, u)) as real
  {
    FairGain(cfg, s, u);
  }

  lemma NearByAccounts(cfg: Config, s: State, t: State, u: Address, loss: nat)
    requires Ready(cfg, s) && SelfAsset(cfg, t).lastUpdateTimestamp == t.now
    requires Earned(cfg, t, u) <= EarnedNow(cfg, s, u) <= Earned(cfg, t, u) + loss
    ensures Near(cfg, s, t, u, loss + UserDust(cfg, s, u))
  {
    WorthNow(cfg, s, u);
    UpToDateWorth(cfg, t, u);
  }

  lemma AccrueNear(cfg: Config, s: State, v: Address, u: Address)
    requires Ready(cfg, s) && Accrue(cfg, s, v).Ok?
    ensures Near(cfg, s, Accrue(cfg, s, v).value, u, (if u == v then PRECISION else 0) + UserDust(cfg, s, u))
  {
    var t := Accrue(cfg, s, v).value;
    AccruePreserves(cfg, s, v);
    AccrueParts(cfg, s, v);
    EarnedAfter(cfg, s, t, v, u);
    NearByAccounts(cfg, s, t, u, if u == v then PRECISION else 0);
  }

  /** Moving the tokens of accounts that are up to date changes nobody's worth. */
  lemma MoveNear(cfg: Config, s1: State, t: State, from: Address, to: Address, amount: nat, u: Address)
    requires SameEnvironment(s1, t) && SameRewards(s1, t)
    requires from != ZERO ==> amount <= Get(s1.balances, from)
    requires t.balances == Shift(s1.balances, from, to, amount)
    requires SelfAsset(cfg, s1).lastUpdateTimestamp == s1.now
    requires from != ZERO ==> Get(SelfAsset(cfg, s1).users, from) == SelfAsset(cfg, s1).index
    requires to != ZERO ==> Get(SelfAsset(cfg, s1).users, to) == SelfAsset(cfg, s1).index
    ensures UserWorth(cfg, t, u) == UserWorth(cfg, s1, u)
  {
    UpToDateWorth(cfg, s1, u);
    UpToDateWorth(cfg, t, u);
    if u != ZERO && (u == from || u == to) {
      assert Get(s1.balances, u) * 0 == 0 == Get(t.balances, u) * 0;
    } else {
      assert Get(t.balances, u) == Get(s1.balances, u);
    }
  }

  lemma StakeNear(cfg: Config, s: State, v: Address, amount: nat, accepts: bool, u: Address)
    requires Ready(cfg, s) && StakeStep(cfg, s, v, amount, accepts).Ok?
    ensures Near(cfg, s, StakeStep(cfg, s, v, amount, accepts).value, u,
      (if u == v then PRECISION else 0) + UserDust(cfg, s, u))
  {
    StakeParts(cfg, s, v, amount, accepts);
    AccruePreserves(cfg, s, v);
    AccrueNear(cfg, s, v, u);
    MoveNear(cfg, Accrue(cfg, s, v).value, StakeStep(cfg, s, v, amount, accepts).value, ZERO, v, amount, u);
  }

  lemma RedeemNear(cfg: Config, s: State, v: Address, to: Address, amount: nat, accepts: bool, u: Address)
    requires Ready(cfg, s) && RedeemStep(cfg, s, v, to, amount, accepts).Ok?
    ensures Near(cfg, s, RedeemStep(cfg, s, v, to, amount, accepts).value, u,
      (if u == v then PRECISION else 0) + UserDust(cfg, s, u))
  {
    RedeemParts(cfg, s, v, to, amount, accepts);
    AccruePreserves(cfg, s, v);
    AccrueNear(cfg, s, v, u);
    MoveNear(cfg, Accrue(cfg, s, v).value, RedeemStep(cfg, s, v, to, amount, accepts).value, v, ZERO,
      Min(amount, Get(s.balances, v)), u);
  }

  lemma AccrueBothNear(cfg: Config, s: State, from: Address, to: Address, u: Address)
    requires Ready(cfg, s) && AccrueBoth(cfg, s, from, to).Ok?
    ensures Near(cfg, s, AccrueBoth(cfg, s, from, to).value, u,
      (if u == from || u == to then PRECISION else 0) + UserDust(cfg, s, u))
  {
    AccruePreserves(cfg, s, from);
    AccrueNear(cfg, s, from, u);
    if from != to {
      AccrueParts(cfg, s, from);
      AccrueNear(cfg, Accrue(cfg, s, from).value, to, u);
    }
  }

  lemma TransferNear(cfg: Config, s: State, from: Address, to: Address, amount: nat, u: Address)
    requires Ready(cfg, s) && TransferStep(cfg, s, from, to, amount).Ok?
    ensures Near(cfg, s, TransferStep(cfg, s, from, to, amount).value, u,
      (if u == from || u == to then PRECISION else 0) + UserDust(cfg, s, u))
  {
    TransferParts(cfg, s, from, to, amount);
    AccrueBothPreserves(cfg, s, from, to);
    AccrueBothNear(cfg, s, from, to, u);
    MoveNear(cfg, AccrueBoth(cfg, s, from, to).value, TransferStep(cfg, s, from, to, amount).value, from, to,
      amount, u);
  }

  lemma ClaimEarned(cfg: Config, s1: State, t: State, v: Address, paid: nat, u: Address)
    requires t.assets == s1.assets && t.balances == s1.balances
    requires paid <= Get(s1.stakerRewardsToClaim, v)
    requires t.stakerRewardsToClaim == s1.stakerRewardsToClaim[v := Get(s1.stakerRewardsToClaim, v) - paid]
    requires t.rewardsPaid == s1.rewardsPaid[v := Get(s1.rewardsPaid, v) + paid]
    ensures Earned(cfg, t, u) == Earned(cfg, s1, u)
  {
    assert Get(t.rewardsPaid, u) + Get(t.stakerRewardsToClaim, u)
      == Get(s1.rewardsPaid, u) + Get(s1.stakerRewardsToClaim, u);
  }

  lemma ClaimAccount(cfg: Config, s: State, v: Address, amount: nat, accepts: bool, u: Address)
    requires ClaimStep(cfg, s, v, amount, accepts).Ok?
    ensures Accrue(cfg, s, v).Ok?
    ensures var s1, t := Accrue(cfg, s, v).value, ClaimStep(cfg, s, v, amount, accepts).value;
      t.now == s.now && t.assets == s1.assets && Earned(cfg, t, u) == Earned(cfg, s1, u)
  {
    ClaimParts(cfg, s, v, amount, accepts);
    AccrueParts(cfg, s, v);
    var s1, t := Accrue(cfg, s, v).value, ClaimStep(cfg, s, v, amount, accepts).value;
    ClaimEarned(cfg, s1, t, v, if amount == UINT256 - 1 then Get(s1.stakerRewardsToClaim, v) else amount, u);
  }

  lemma ClaimNear(cfg: Config, s: State, v: Address, amount: nat, accepts: bool, u: Address)
    requires Ready(cfg, s) && ClaimStep(cfg, s, v, amount, accepts).Ok?
    ensures Near(cfg, s, ClaimStep(cfg, s, v, amount, accepts).value, u,
      (if u == v then PRECISION else 0) + UserDust(cfg, s, u))
  {
    ClaimAccount(cfg, s, v, amount, accepts, u);
    AccruePreserves(cfg, s, v);
    AccrueParts(cfg, s, v);
    EarnedAfter(cfg, s, Accrue(cfg, s, v).value, v, u);
    NearByAccounts(cfg, s, ClaimStep(cfg, s, v, amount, accepts).value, u, if u == v then PRECISION else 0);
  }

  /** Bringing the index up to now under the true total, whatever the new rate. */
  lemma IndexNear(cfg: Config, s: State, t: State, u: Address)
    requires Ready(cfg, s) && t == s.(assets := t.assets)
    requires SelfAsset(cfg, t).lastUpdateTimestamp == s.now && SelfAsset(cfg, t).index == IndexNow(cfg, s)
    requires SelfAsset(cfg, t).users == SelfAsset(cfg, s).users
    ensures Near(cfg, s, t, u, UserDust(cfg, s, u))
  {
    EarnedNowIs(cfg, s, u);
    NearByAccounts(cfg, s, t, u, 0);
  }

  lemma OtherAssetNear(cfg: Config, s: State, t: State, u: Address)
    requires t == s.(assets := t.assets) && SelfAsset(cfg, t) == SelfAsset(cfg, s)
    ensures UserWorth(cfg, t, u) == UserWorth(cfg, s, u)
  {
  }

  lemma ConfigureOneNear(cfg: Config, s: State, c: AssetConfigInput, u: Address)
    requires Ready(cfg, s) && ConfigureOne(s.now, s.impl.distributionEnd, s.assets, c).Ok?
    requires c.underlyingAsset == cfg.self ==> c.totalStaked == s.totalSupply
    ensures var t := s.(assets := ConfigureOne(s.now, s.impl.distributionEnd, s.assets, c).value);
      && (if c.underlyingAsset == cfg.self
          then SelfAsset(cfg, t).lastUpdateTimestamp == s.now && Near(cfg, s, t, u, UserDust(cfg, s, u))
          else SelfAsset(cfg, t) == SelfAsset(cfg, s) && UserWorth(cfg, t, u) == UserWorth(cfg, s, u))
  {
    ConfigureOneKeeps(s.now, s.impl.distributionEnd, s.assets, c);
    var t := s.(assets := ConfigureOne(s.now, s.impl.distributionEnd, s.assets, c).value);
    if c.underlyingAsset == cfg.self {
      IndexNear(cfg, s, t, u);
    } else {
      OtherAssetNear(cfg, s, t, u);
    }
  }

  lemma {:induction false} ConfigureNear(cfg: Config, s: State, inputs: seq<AssetConfigInput>, u: Address)
    requires Ready(cfg, s) && Configure(s.now, s.impl.distributionEnd, s.assets, inputs).Ok?
    requires TrueTotals(cfg, s, inputs)
    ensures var t := s.(assets := Configure(s.now, s.impl.distributionEnd, s.assets, inputs).value);
      && Ready(cfg, t)
      && (SelfAsset(cfg, t) == SelfAsset(cfg, s) || SelfAsset(cfg, t).lastUpdateTimestamp == s.now)
      && Near(cfg, s, t, u, if SelfAsset(cfg, t) == SelfAsset(cfg, s) then 0 else UserDust(cfg, s, u))
  {
    if inputs == [] {
    } else {
      var prefix, c := inputs[..|inputs| - 1], inputs[|inputs| - 1];
      ConfigureNear(cfg, s, prefix, u);
      var q := s.(assets := Configure(s.now, s.impl.distributionEnd, s.assets, prefix).value);
      ConfigureKeeps(s.now, s.impl.distributionEnd, s.assets, inputs);
      ConfigureOneNear(cfg, q, c, u);
    }
  }

  lemma {:induction false} ShareOverIs(from: nat, count: nat, end: nat, share: real)
    ensures ShareOver(from, count, end, share) == RunningSeconds(from, count, end) as real * share
  {
    if count == 0 {
    } else {
      ShareOverIs(from, count - 1, end, share);
    }
  }

  lemma ShareOfSeconds(b: nat, e: nat, n: nat, total: nat)
    requires total > 0
    ensures ShareOf(b, e * n, total) == n as real * ((b * e) as real / total as real) * PRECISION as real
  {
    assert b * (e * n * PRECISION) == b * e * n * PRECISION;
    var x := (b * e) as real;
    assert (b * e * n * PRECISION) as real == x * n as real * PRECISION as real;
    assert x * (n as real * PRECISION as real) / total as real == x / total as real * (n as real * PRECISION as real);
  }

  lemma PendingLater(cfg: Config, s: State, seconds: nat, u: Address)
    requires Ready(cfg, s)
    ensures var t, n := Step(cfg, s, NextBlock(seconds)).value, RunningSeconds(s.now, seconds, s.impl.distributionEnd);
      FairPending(cfg, t, u)
        == FairPending(cfg, s, u) + ShareOf(Get(s.balances, u), SelfAsset(cfg, s).emissionPerSecond * n, s.totalSupply)
  {
    var a, end := SelfAsset(cfg, s), s.impl.distributionEnd;
    assert AssetInv(a, s.now);
    WindowAdds(a.lastUpdateTimestamp, s.now, s.now + seconds, end);
    RunningIsWindow(s.now, seconds, end);
    WiderWindow(cfg, s, Step(cfg, s, NextBlock(seconds)).value, RunningSeconds(s.now, seconds, end), u);
  }

  lemma SharesOfSeconds(cfg: Config, s: State, seconds: nat, u: Address)
    ensures var n := RunningSeconds(s.now, seconds, s.impl.distributionEnd);
      ShareOf(Get(s.balances, u), SelfAsset(cfg, s).emissionPerSecond * n, s.totalSupply)
      == ShareOver(s.now, seconds, s.impl.distributionEnd, SharePerSecond(cfg, s, u)) * PRECISION as real
  {
    ShareOverIs(s.now, seconds, s.impl.distributionEnd, SharePerSecond(cfg, s, u));
    NewSeconds(cfg, s, RunningSeconds(s.now, seconds, s.impl.distributionEnd), u);
  }

  /** Time adds to the user's worth exactly the shares of the seconds passed. */
  lemma TimeNear(cfg: Config, s: State, seconds: nat, u: Address)
    requires Ready(cfg, s)
    ensures UserWorth(cfg, Step(cfg, s, NextBlock(seconds)).value, u)
         == UserWorth(cfg, s, u)
           + ShareOver(s.now, seconds, s.impl.distributionEnd, SharePerSecond(cfg, s, u)) * PRECISION as real
  {
    PendingLater(cfg, s, seconds, u);
    SharesOfSeconds(cfg, s, seconds, u);
  }

  // ---------- whole runs ----------

  /** How often an action accrues to `u`. */
  function UserAccruals(a: Action, u: Address): nat {
    match a
    case Stake(v, _, _) => if u == v then 1 else 0
    case Redeem(v, _, _, _) => if u == v then 1 else 0
    case ClaimRewards(v, _, _, _) => if u == v then 1 else 0
    case Transfer(from, to, _) => if u == from || u == to then 1 else 0
    case _ => 0
  }

  /** The user's balance, if the step updated the index. */
  function UserDustOf(cfg: Config, s: State, a: Action, u: Address): nat {
    match Step(cfg, s, a)
    case Revert(_) => 0
    case Ok(t) =>
      if !a.Upgrade? && SelfAsset(cfg, t).lastUpdateTimestamp != SelfAsset(cfg, s).lastUpdateTimestamp
        then Get(s.balances, u) else 0
  }

  lemma AccruingNear(cfg: Config, s: State, a: Action, u: Address)
    requires Ready(cfg, s) && Accruing(a) && Step(cfg, s, a).Ok?
    ensures Near(cfg, s, Step(cfg, s, a).value, u, PRECISION * UserAccruals(a, u) + UserDust(cfg, s, u))
  {
    match a
    case Stake(v, amount, accepts) => StakeNear(cfg, s, v, amount, accepts, u);
    case Redeem(v, to, amount, accepts) => RedeemNear(cfg, s, v, to, amount, accepts, u);
    case Transfer(from, to, amount) => TransferNear(cfg, s, from, to, amount, u);
    case ClaimRewards(v, _, amount, accepts) => ClaimNear(cfg, s, v, amount, accepts, u);
  }

  /** A wider window adds the share of the seconds added. */
  lemma WiderWindow(cfg: Config, s: State, t: State, n: nat, u: Address)
    requires t.balances == s.balances && t.totalSupply == s.totalSupply
    requires var a, b := SelfAsset(cfg, s), SelfAsset(cfg, t);
      && b.emissionPerSecond == a.emissionPerSecond
      && Window(b.lastUpdateTimestamp, t.now, t.impl.distributionEnd)
        == Window(a.lastUpdateTimestamp, s.now, s.impl.distributionEnd) + n
    ensures FairPending(cfg, t, u)
         == FairPending(cfg, s, u) + ShareOf(Get(s.balances, u), SelfAsset(cfg, s).emissionPerSecond * n, s.totalSupply)
  {
    var a := SelfAsset(cfg, s);
    Distribute(a.emissionPerSecond, Window(a.lastUpdateTimestamp, s.now, s.impl.distributionEnd), n);
    ShareAdds(Get(s.balances, u), EmittedSince(cfg, s), a.emissionPerSecond * n, s.totalSupply);
  }

  lemma NewSeconds(cfg: Config, s: State, n: nat, u: Address)
    ensures ShareOf(Get(s.balances, u), SelfAsset(cfg, s).emissionPerSecond * n, s.totalSupply)
         == n as real * SharePerSecond(cfg, s, u) * PRECISION as real
  {
    if s.totalSupply > 0 {
      ShareOfSeconds(Get(s.balances, u), SelfAsset(cfg, s).emissionPerSecond, n, s.totalSupply);
    }
  }

  lemma WorthAdds(cfg: Config, s: State, t: State, n: nat, u: Address)
    requires t.balances == s.balances && t.totalSupply == s.totalSupply && Earned(cfg, t, u) == Earned(cfg, s, u)
    requires var a, b := SelfAsset(cfg, s), SelfAsset(cfg, t);
      && b.emissionPerSecond == a.emissionPerSecond
      && Window(b.lastUpdateTimestamp, t.now, t.impl.distributionEnd)
        == Window(a.lastUpdateTimestamp, s.now, s.impl.distributionEnd) + n
    ensures UserWorth(cfg, t, u) == UserWorth(cfg, s, u) + Shares(cfg, s, n, u) * PRECISION as real
  {
    WiderWindow(cfg, s, t, n, u);
    NewSeconds(cfg, s, n, u);
  }

  lemma UpgradeEarned(cfg: Config, s: State, impl: Implementation, t: State, u: Address)
    requires UpgradeStep(cfg, s, impl) == Ok(t)
    ensures Earned(cfg, t, u) == Earned(cfg, s, u)
    ensures t.balances == s.balances && t.totalSupply == s.totalSupply
    ensures SelfAsset(cfg, t).emissionPerSecond == SelfAsset(cfg, s).emissionPerSecond
  {
    UpgradeParts(cfg, s, impl);
    AdministrativeParts(cfg, s, Upgrade(impl));
  }

  /** An upgrade that takes nothing back adds exactly the shares of the newly payable seconds. */
  lemma UpgradeNear(cfg: Config, s: State, impl: Implementation, t: State, u: Address)
    requires UpgradeStep(cfg, s, impl) == Ok(t) && TakesNothingBack(cfg, s, impl)
    ensures UserWorth(cfg, t, u) == UserWorth(cfg, s, u) + ShareOfNewSeconds(cfg, s, t, u) * PRECISION as real
  {
    UpgradeEarned(cfg, s, impl, t, u);
    assert Window(SelfAsset(cfg, t).lastUpdateTimestamp, t.now, t.impl.distributionEnd)
        == Window(SelfAsset(cfg, s).lastUpdateTimestamp, s.now, s.impl.distributionEnd)
          + CountSeconds(s.now, NewlyPayable(cfg, s, t)) by {
      UpgradedWindow(cfg, s, impl);
    }
    WorthAdds(cfg, s, t, CountSeconds(s.now, NewlyPayable(cfg, s, t)), u);
  }

  lemma AdministrativeNear(cfg: Config, s: State, a: Action, u: Address)
    requires Administrative(a) && !a.NextBlock? && !a.Upgrade? && !a.ConfigureAssets? && Step(cfg, s, a).Ok?
    ensures UserWorth(cfg, Step(cfg, s, a).value, u) == UserWorth(cfg, s, u)
  {
    AdministrativeParts(cfg, s, a);
  }

  /** Any step other than the passing of time and upgrades. */
  lemma StepNear(cfg: Config, s: State, a: Action, u: Address)
    requires Ready(cfg, s) && SteadyStep(cfg, s, a) && Step(cfg, s, a).Ok? && !a.NextBlock? && !a.Upgrade?
    ensures Near(cfg, s, Step(cfg, s, a).value, u, PRECISION * UserAccruals(a, u) + UserDustOf(cfg, s, a, u))
  {
    if Accruing(a) {
      AccruingNear(cfg, s, a, u);
      AccruingUpdates(cfg, s, a);
    } else {
      match a
      case ConfigureAssets(sender, inputs) =>
        ConfigureParts(cfg, s, sender, inputs);
        ConfigureNear(cfg, s, inputs, u);
      case _ => AdministrativeNear(cfg, s, a, u);
    }
  }

  function UserAccrualsOver(cfg: Config, r: Run, u: Address): nat {
    match r
    case Deploy(_, _, _) => 0
    case After(prior, a) =>
      UserAccrualsOver(cfg, prior, u) + if Step(cfg, Final(cfg, prior), a).Ok? then UserAccruals(a, u) else 0
  }

  function UserDustOver(cfg: Config, r: Run, u: Address): nat {
    match r
    case Deploy(_, _, _) => 0
    case After(prior, a) => UserDustOver(cfg, prior, u) + UserDustOf(cfg, Final(cfg, prior), a, u)
  }

  lemma NothingEarnedAtFirst(cfg: Config, impl: Implementation, now: nat, block: nat, u: Address)
    ensures UserWorth(cfg, Fresh(cfg, impl, now, block), u) == 0.0
  {
  }

  /** How far a step may fall behind the user's shares. */
  function LossOf(cfg: Config, s: State, a: Action, u: Address): nat {
    PRECISION * (if Step(cfg, s, a).Ok? then UserAccruals(a, u) else 0) + UserDustOf(cfg, s, a, u)
  }

  lemma StepIsFair(cfg: Config, s: State, a: Action, u: Address)
    requires Ready(cfg, s) && SteadyStep(cfg, s, a)
    ensures var before, after := UserWorth(cfg, s, u), UserWorth(cfg, Apply(cfg, s, a), u);
      after <= before + FairShareOf(cfg, s, a, u) * PRECISION as real <= after + LossOf(cfg, s, a, u) as real
  {
    if Step(cfg, s, a).Ok? {
      match a
      case NextBlock(seconds) => TimeNear(cfg, s, seconds, u);
      case Upgrade(impl) => UpgradeNear(cfg, s, impl, Step(cfg, s, a).value, u);
      case _ => StepNear(cfg, s, a, u);
    }
  }

  /** How far the run may. */
  function LossOver(cfg: Config, r: Run, u: Address): nat {
    PRECISION * UserAccrualsOver(cfg, r, u) + UserDustOver(cfg, r, u)
  }

  lemma {:induction false} LossAdds(cfg: Config, r: Run, a: Action, u: Address)
    ensures LossOver(cfg, After(r, a), u) == LossOver(cfg, r, u) + LossOf(cfg, Final(cfg, r), a, u)
  {
  }

  /** The user's worth against the fair payout, along the run. */
  lemma {:induction false} WorthIsFair(cfg: Config, r: Run, u: Address)
    requires Feasible(cfg, r) && Steady(cfg, r)
    ensures var fair, worth := FairPayout(cfg, r, u) * PRECISION as real, UserWorth(cfg, Final(cfg, r), u);
      worth <= fair <= worth + LossOver(cfg, r, u) as real
  {
    match r
    case Deploy(impl, now, block) => NothingEarnedAtFirst(cfg, impl, now, block, u);
    case After(prior, a) =>
      WorthIsFair(cfg, prior, u);
      IndexesWellFormed(cfg, prior);
      StepIsFair(cfg, Final(cfg, prior), a, u);
      LossAdds(cfg, prior, a, u);
  }

  /** All rewards of one user: paid, claimable and, rounded down, pending. */
  ghost function UserRewards(cfg: Config, s: State, u: Address): int {
    Get(s.rewardsPaid, u) + Get(s.stakerRewardsToClaim, u) + PendingNow(cfg, s)(u)
  }

  lemma FloorOf(c: int, x: int)
    ensures PRECISION * (c + x / PRECISION) <= PRECISION * c + x < PRECISION * (c + x / PRECISION + 1)
  {
  }

  lemma RewardsOfWorth(cfg: Config, s: State, u: Address)
    requires Ready(cfg, s)
    ensures (PRECISION * UserRewards(cfg, s, u)) as real <= UserWorth(cfg, s, u)
    ensures UserWorth(cfg, s, u) < (PRECISION * (UserRewards(cfg, s, u) + 1) + Get(s.balances, u)) as real
  {
    WorthNow(cfg, s, u);
    EarnedNowIs(cfg, s, u);
    FloorOf(Get(s.rewardsPaid, u) + Get(s.stakerRewardsToClaim, u),
            Get(s.balances, u) * (IndexNow(cfg, s) - Get(SelfAsset(cfg, s).users, u)));
  }

  /** The lazy index refines the payout by the second. In every run with true totals whose
      upgrades take nothing back, what a user has been paid, can claim and has pending never
      exceeds the user's exact shares of all seconds, and falls short of them by less than one
      unit for the pending amount and each accrual, and, scaled, the user's balance for each
      index update. */
  lemma {:induction false} LazyIndexIsFair(cfg: Config, r: Run, u: Address)
    requires Feasible(cfg, r) && Steady(cfg, r)
    ensures var s := Final(cfg, r);
      var got, fair := (PRECISION * UserRewards(cfg, s, u)) as real, FairPayout(cfg, r, u) * PRECISION as real;
      && got <= fair
      && fair < got + (PRECISION * (UserAccrualsOver(cfg, r, u) + 1) + UserDustOver(cfg, r, u)
        + Get(s.balances, u)) as real
  {
    IndexesWellFormed(cfg, r);
    WorthIsFair(cfg, r, u);
    RewardsOfWorth(cfg, Final(cfg, r), u);
  }
}
