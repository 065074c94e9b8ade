/** What one update does to the rewards: to the asset's index, to the user's, and to the sum
    of everything owed. */
module Rewards {
  import opened Arithmetic
  import opened Evm
  import opened Sums
  import opened Distribution
  import opened Delegation
  import opened StakedToken

  // ---------- indexes ----------

  /** No user is ahead of the asset, the asset not ahead of time, and emission started only
      after a first update. */
  ghost predicate AssetInv(a: AssetData, now: nat) {
    && a.lastUpdateTimestamp <= now
    && (forall u :: Get(a.users, u) <= a.index)
    && (a.emissionPerSecond != 0 ==> a.lastUpdateTimestamp != 0)
  }

  ghost predicate AssetsInv(m: Assets, now: nat) {
    forall x :: AssetInv(Asset(m, x), now)
  }

  /** Indexes never decrease, the asset's and every user's. */
  ghost predicate IndexesGrow(m: Assets, m': Assets) {
    forall x :: Asset(m, x).index <= Asset(m', x).index
      && forall u :: Get(Asset(m, x).users, u) <= Get(Asset(m', x).users, u)
  }

  lemma UpdateKeeps(now: nat, end: nat, m: Assets, x: Address, total: nat)
    requires AssetsInv(m, now) && 0 < now < UINT128
    requires UpdateAsset(now, end, m, x, total).Ok?
    ensures var m' := UpdateAsset(now, end, m, x, total).value;
      && AssetsInv(m', now) && IndexesGrow(m, m')
      && Asset(m', x) == Asset(m, x).(
           index := Asset(m, x).index
             + Gain(Asset(m, x).emissionPerSecond, Window(Asset(m, x).lastUpdateTimestamp, now, end), total),
           lastUpdateTimestamp := now)
      && forall y :: y != x ==> Asset(m', y) == Asset(m, y)
  {
    var m' := UpdateAsset(now, end, m, x, total).value;
    assert AssetInv(Asset(m, x), now);
    UpdateStateIs(now, end, Asset(m, x), total);
    assert forall y :: y != x ==> Asset(m', y) == Asset(m, y);
  }

  lemma SettleKeeps(m: Assets, user: Address, x: Address, staked: nat, now: nat)
    requires AssetsInv(m, now)
    requires Settle(m, user, x, staked).Ok?
    ensures var m' := Settle(m, user, x, staked).value.0;
      && AssetsInv(m', now) && IndexesGrow(m, m')
      && Asset(m', x) == Asset(m, x).(users := Asset(m', x).users)
      && (forall v :: Get(Asset(m', x).users, v) == if v == user then Asset(m, x).index else Get(Asset(m, x).users, v))
      && (forall y :: y != x ==> Asset(m', y) == Asset(m, y))
    ensures var accrued, gained := Settle(m, user, x, staked).value.1, Asset(m, x).index - Get(Asset(m, x).users, user);
      gained >= 0 && PRECISION * accrued <= staked * gained < PRECISION * accrued + PRECISION
  {
    var a := Asset(m, x);
    assert AssetInv(a, now);
    var m' := Settle(m, user, x, staked).value.0;
    var userIndex := Get(a.users, user);
    if userIndex != a.index && staked != 0 {
      RewardBounds(staked, a.index, userIndex);
    }
    assert forall y :: Asset(m', y) == if y == x then Asset(m', x) else Asset(m, y);
    assert forall v :: Get(Asset(m', x).users, v) == if v == user then a.index else Get(a.users, v);
  }

  lemma ConfigureOneKeeps(now: nat, end: nat, m: Assets, c: AssetConfigInput)
    requires AssetsInv(m, now) && 0 < now < UINT128
    requires ConfigureOne(now, end, m, c).Ok?
    ensures var m', x := ConfigureOne(now, end, m, c).value, c.underlyingAsset;
      && AssetsInv(m', now) && IndexesGrow(m, m')
      && Asset(m', x) == Asset(m, x).(
           index := Asset(m, x).index
             + Gain(Asset(m, x).emissionPerSecond, Window(Asset(m, x).lastUpdateTimestamp, now, end), c.totalStaked),
           lastUpdateTimestamp := now,
           emissionPerSecond := c.emissionPerSecond)
      && forall y :: y != x ==> Asset(m', y) == Asset(m, y)
  {
    var x := c.underlyingAsset;
    UpdateKeeps(now, end, m, x, c.totalStaked);
    var q, m' := UpdateAsset(now, end, m, x, c.totalStaked).value, ConfigureOne(now, end, m, c).value;
    assert forall y :: y != x ==> Asset(m', y) == Asset(q, y);
    assert AssetInv(Asset(q, x), now);
  }

  lemma {:induction false} ConfigureKeeps(now: nat, end: nat, m: Assets, inputs: seq<AssetConfigInput>)
    requires AssetsInv(m, now) && 0 < now < UINT128
    requires Configure(now, end, m, inputs).Ok?
    ensures var m' := Configure(now, end, m, inputs).value;
      AssetsInv(m', now) && IndexesGrow(m, m')
  {
    if inputs == [] {
    } else {
      var prefix, c := inputs[..|inputs| - 1], inputs[|inputs| - 1];
      ConfigureKeeps(now, end, m, prefix);
      ConfigureOneKeeps(now, end, Configure(now, end, m, prefix).value, c);
    }
  }

  // ---------- one user's update ----------

  lemma SettleSucceedsIff(m: Assets, u: Address, x: Address, b: nat)
    requires Get(Asset(m, x).users, u) <= Asset(m, x).index
    ensures var gained, r := b * (Asset(m, x).index - Get(Asset(m, x).users, u)), Settle(m, u, x, b);
      (r.Ok? <==> gained < UINT256) && (r.Ok? ==> r.value.1 == gained / PRECISION)
  {
    if b == 0 || Get(Asset(m, x).users, u) == Asset(m, x).index {
      assert b * (Asset(m, x).index - Get(Asset(m, x).users, u)) == 0;
    }
  }

  /** `b` is `a` with the index brought up to now under `total`, and settled for `user`. */
  ghost predicate Accounted(now: nat, end: nat, a: AssetData, b: AssetData, user: Address, total: nat) {
    && b.emissionPerSecond == a.emissionPerSecond && b.lastUpdateTimestamp == now
    && b.index == a.index + Gain(a.emissionPerSecond, Window(a.lastUpdateTimestamp, now, end), total)
    && (forall v :: Get(b.users, v) == if v == user then b.index else Get(a.users, v))
  }

  /** The update of a user on an asset succeeds exactly when the index and the gain fit; it brings the
      asset up to now, settles the user, touches nothing else, and gives the gain rounded down. */
  lemma UpdateUserAssetIs(now: nat, end: nat, m: Assets, user: Address, x: Address, staked: nat, total: nat)
    requires AssetsInv(m, now) && 0 < now < UINT128
    ensures var a, r := Asset(m, x), UpdateUserAsset(now, end, m, user, x, staked, total);
      var w := Window(a.lastUpdateTimestamp, now, end);
      var gained := staked * (a.index + Gain(a.emissionPerSecond, w, total) - Get(a.users, user));
      && (r.Ok? <==> IndexFits(a.emissionPerSecond, w, total, a.index) && gained < UINT256)
      && (r.Ok? ==>
           && Accounted(now, end, a, Asset(r.value.0, x), user, total)
           && (forall y :: y != x ==> Asset(r.value.0, y) == Asset(m, y))
           && r.value.1 == gained / PRECISION)
  {
    var a := Asset(m, x);
    assert AssetInv(a, now);
    UpdateStateSucceedsIff(now, end, a, total);
    var q := UpdateAsset(now, end, m, x, total);
    if q.Ok? {
      UpdateKeeps(now, end, m, x, total);
      assert AssetInv(Asset(q.value, x), now);
      SettleSucceedsIff(q.value, user, x, staked);
      if Settle(q.value, user, x, staked).Ok? {
        SettleKeeps(q.value, user, x, staked, now);
      }
    }
  }

  // ---------- a configuration ----------

  /** Where a list first names an asset; its length if it does not. */
  function FirstInput(inputs: seq<AssetConfigInput>, x: Address): (i: nat)
    ensures i <= |inputs| && (i < |inputs| ==> inputs[i].underlyingAsset == x)
    ensures forall k :: 0 <= k < i ==> inputs[k].underlyingAsset != x
  {
    if inputs == [] then 0
    else
      var before := FirstInput(inputs[..|inputs| - 1], x);
      if before < |inputs| - 1 || inputs[before].underlyingAsset == x then before else |inputs|
  }

  /** Where it last names it. */
  function LastInput(inputs: seq<AssetConfigInput>, x: Address): (i: nat)
    ensures i <= |inputs| && (i < |inputs| ==> inputs[i].underlyingAsset == x)
    ensures forall k :: i < k < |inputs| ==> inputs[k].underlyingAsset != x
    ensures i == |inputs| ==> forall k :: 0 <= k < i ==> inputs[k].underlyingAsset != x
  {
    if inputs == [] then 0
    else if inputs[|inputs| - 1].underlyingAsset == x then |inputs| - 1
    else
      var before := LastInput(inputs[..|inputs| - 1], x);
      if before < |inputs| - 1 then before else |inputs|
  }

  /** What a configuration makes of asset `x`: brought up to now under the first total given for it, and
      emitting at the last rate given for it. */
  function ConfiguredAsset(now: nat, end: nat, a: AssetData, inputs: seq<AssetConfigInput>, x: Address): AssetData {
    var first, last := FirstInput(inputs, x), LastInput(inputs, x);
    if first == |inputs| || last == |inputs| then a
    else
      a.(index := a.index
           + Gain(a.emissionPerSecond, Window(a.lastUpdateTimestamp, now, end), inputs[first].totalStaked),
         lastUpdateTimestamp := now,
         emissionPerSecond := inputs[last].emissionPerSecond)
  }

  ghost predicate InputFits(now: nat, end: nat, a: AssetData, c: AssetConfigInput) {
    IndexFits(a.emissionPerSecond, Window(a.lastUpdateTimestamp, now, end), c.totalStaked, a.index)
  }

  /** The index of each asset fits under the first total given for it. */
  ghost predicate InputsFit(now: nat, end: nat, m: Assets, inputs: seq<AssetConfigInput>) {
    forall i :: 0 <= i < |inputs| && FirstInput(inputs, inputs[i].underlyingAsset) == i
      ==> InputFits(now, end, Asset(m, inputs[i].underlyingAsset), inputs[i])
  }

  lemma InputsFitAppend(now: nat, end: nat, m: Assets, inputs: seq<AssetConfigInput>)
    requires inputs != []
    ensures var n := |inputs| - 1;
      var prefix, c := inputs[..n], inputs[n];
      InputsFit(now, end, m, inputs)
      <==> InputsFit(now, end, m, prefix)
           && (FirstInput(prefix, c.underlyingAsset) == n ==> InputFits(now, end, Asset(m, c.underlyingAsset), c))
  {
    var n := |inputs| - 1;
    var prefix := inputs[..n];
    forall i | 0 <= i < n
      ensures FirstInput(inputs, inputs[i].underlyingAsset) == FirstInput(prefix, prefix[i].underlyingAsset)
    {
    }
    if InputsFit(now, end, m, inputs) {
      forall i | 0 <= i < n && FirstInput(prefix, prefix[i].underlyingAsset) == i
        ensures InputFits(now, end, Asset(m, prefix[i].underlyingAsset), prefix[i])
      {
        assert FirstInput(inputs, inputs[i].underlyingAsset) == i;
      }
    }
  }

  lemma ConfigureOneSucceedsIff(now: nat, end: nat, m: Assets, c: AssetConfigInput)
    requires AssetsInv(m, now)
    ensures ConfigureOne(now, end, m, c).Ok? <==> InputFits(now, end, Asset(m, c.underlyingAsset), c)
  {
    assert AssetInv(Asset(m, c.underlyingAsset), now);
    UpdateStateSucceedsIff(now, end, Asset(m, c.underlyingAsset), c.totalStaked);
  }

  lemma UpToDateGainsNothing(now: nat, end: nat, a: AssetData, total: nat)
    requires a.lastUpdateTimestamp == now
    ensures Gain(a.emissionPerSecond, Window(a.lastUpdateTimestamp, now, end), total) == 0
  {
    NoGain(a.emissionPerSecond, total);
  }

  /** One more input makes of every asset what the longer list does. */
  lemma ConfiguredAppend(now: nat, end: nat, m: Assets, q: Assets, inputs: seq<AssetConfigInput>, x: Address)
    requires inputs != [] && AssetsInv(q, now) && 0 < now < UINT128
    requires var n := |inputs| - 1;
      && (forall y :: Asset(q, y) == ConfiguredAsset(now, end, Asset(m, y), inputs[..n], y))
      && ConfigureOne(now, end, q, inputs[n]).Ok?
    ensures Asset(ConfigureOne(now, end, q, inputs[|inputs| - 1]).value, x)
         == ConfiguredAsset(now, end, Asset(m, x), inputs, x)
  {
    var n := |inputs| - 1;
    var prefix, c := inputs[..n], inputs[n];
    ConfigureOneKeeps(now, end, q, c);
    assert Asset(q, x) == ConfiguredAsset(now, end, Asset(m, x), prefix, x);
    if x == c.underlyingAsset && FirstInput(prefix, x) < n {
      UpToDateGainsNothing(now, end, Asset(q, x), c.totalStaked);
    }
  }

  /** A configuration succeeds exactly when the indexes fit, and makes of every asset what its first
      total and its last rate say, and nothing of an asset that it does not name. */
  lemma {:induction false} ConfigureIs(now: nat, end: nat, m: Assets, inputs: seq<AssetConfigInput>)
    requires AssetsInv(m, now) && 0 < now < UINT128
    ensures var r := Configure(now, end, m, inputs);
      && (r.Ok? <==> InputsFit(now, end, m, inputs))
      && (r.Ok? ==> forall x :: Asset(r.value, x) == ConfiguredAsset(now, end, Asset(m, x), inputs, x))
  {
    if inputs == [] {
    } else {
      var n := |inputs| - 1;
      var prefix, c := inputs[..n], inputs[n];
      ConfigureIs(now, end, m, prefix);
      InputsFitAppend(now, end, m, inputs);
      var q := Configure(now, end, m, prefix);
      if q.Ok? {
        ConfigureKeeps(now, end, m, prefix);
        ConfigureOneSucceedsIff(now, end, q.value, c);
        if ConfigureOne(now, end, q.value, c).Ok? {
          forall x
            ensures Asset(ConfigureOne(now, end, q.value, c).value, x)
                 == ConfiguredAsset(now, end, Asset(m, x), inputs, x)
          {
            ConfiguredAppend(now, end, m, q.value, inputs, x);
          }
        }
      }
    }
  }

  // ---------- one accrual ----------

  function SelfAsset(cfg: Config, s: State): AssetData {
    Asset(s.assets, cfg.self)
  }

  /** The index of the contract's own asset as of now. */
  function IndexNow(cfg: Config, s: State): nat {
    var a := SelfAsset(cfg, s);
    a.index + Gain(a.emissionPerSecond, Window(a.lastUpdateTimestamp, s.now, s.impl.distributionEnd), s.totalSupply)
  }

  /** `t` is `s` after user `u` accrued: the index is as of now for the asset and for `u`, and
      the rewards of `u` grew by what `u` gained, rounded down. */
  ghost predicate Accrued(cfg: Config, s: State, t: State, u: Address) {
    var a, b, index := SelfAsset(cfg, s), SelfAsset(cfg, t), IndexNow(cfg, s);
    && b.emissionPerSecond == a.emissionPerSecond && b.lastUpdateTimestamp == s.now && b.index == index
    && (forall v :: Get(b.users, v) == if v == u then index else Get(a.users, v))
    && (forall v :: v != u ==> Get(t.stakerRewardsToClaim, v) == Get(s.stakerRewardsToClaim, v))
    && (t.stakerRewardsToClaim == s.stakerRewardsToClaim
      || t.stakerRewardsToClaim == s.stakerRewardsToClaim[u := Get(t.stakerRewardsToClaim, u)])
    && Get(a.users, u) <= index
    && var accrued := Get(t.stakerRewardsToClaim, u) - Get(s.stakerRewardsToClaim, u);
       var gained := Get(s.balances, u) * (index - Get(a.users, u));
       PRECISION * accrued <= gained < PRECISION * accrued + PRECISION
  }

  lemma AccrueUnfolds(cfg: Config, s: State, u: Address)
    requires Accrue(cfg, s, u).Ok?
    ensures var t := Accrue(cfg, s, u).value;
      var m := UpdateAsset(s.now, s.impl.distributionEnd, s.assets, cfg.self, s.totalSupply);
      && m.Ok? && Settle(m.value, u, cfg.self, Get(s.balances, u)).Ok?
      && var (assets, accrued) := Settle(m.value, u, cfg.self, Get(s.balances, u)).value;
         && t.assets == assets
         && Get(t.stakerRewardsToClaim, u) == Get(s.stakerRewardsToClaim, u) + accrued
         && (t.stakerRewardsToClaim == s.stakerRewardsToClaim
             || t.stakerRewardsToClaim == s.stakerRewardsToClaim[u := Get(t.stakerRewardsToClaim, u)])
  {
  }

  lemma AccrueIs(cfg: Config, s: State, u: Address)
    requires AssetsInv(s.assets, s.now) && 0 < s.now < UINT128
    requires Accrue(cfg, s, u).Ok?
    ensures var t := Accrue(cfg, s, u).value;
      Accrued(cfg, s, t, u) && AssetsInv(t.assets, s.now) && IndexesGrow(s.assets, t.assets)
  {
    AccrueUnfolds(cfg, s, u);
    var m := UpdateAsset(s.now, s.impl.distributionEnd, s.assets, cfg.self, s.totalSupply).value;
    UpdateKeeps(s.now, s.impl.distributionEnd, s.assets, cfg.self, s.totalSupply);
    assert Asset(m, cfg.self).index == IndexNow(cfg, s);
    SettleKeeps(m, u, cfg.self, Get(s.balances, u), s.now);
    assert AssetInv(Asset(m, cfg.self), s.now);
  }

  // ---------- sums of what is owed ----------

  ghost function Unsettled(b: Balances, users: map<Address, nat>, index: nat): Address -> int {
    (u: Address) => Get(b, u) * (index - Get(users, u))
  }

  /** What the balances have gained since their owners' last updates, scaled. */
  ghost function TotalUnsettled(b: Balances, users: map<Address, nat>, index: nat): int {
    Sum(b.Keys, Unsettled(b, users, index))
  }

  lemma UnsettledIndex(b: Balances, users: map<Address, nat>, index: nat, gain: nat)
    ensures TotalUnsettled(b, users, index + gain) == TotalUnsettled(b, users, index) + gain * Total(b)
  {
    var f, g := Unsettled(b, users, index), Unsettled(b, users, index + gain);
    forall u
      ensures g(u) == f(u) + gain * Amounts(b)(u)
    {
      Distribute(Get(b, u), index - Get(users, u), gain);
    }
    SumLinear(b.Keys, f, Amounts(b), gain, g);
  }

  lemma UnsettledSettle(b: Balances, users: map<Address, nat>, users': map<Address, nat>, index: nat, u: Address)
    requires forall v :: Get(users', v) == if v == u then index else Get(users, v)
    ensures TotalUnsettled(b, users', index) == TotalUnsettled(b, users, index) - Get(b, u) * (index - Get(users, u))
  {
    var f, g := Unsettled(b, users, index), Unsettled(b, users', index);
    forall v | v != u
      ensures f(v) == g(v)
    {
    }
    assert g(u) == Get(b, u) * 0;
    if u in b {
      SumPoint(b.Keys, f, g, u);
      assert b.Keys + {u} == b.Keys;
    } else {
      SumSame(b.Keys, f, g);
      assert f(u) == 0 * (index - Get(users, u));
    }
  }

  lemma UnsettledUpdate(b: Balances, users: map<Address, nat>, index: nat, u: Address, v: nat)
    requires Get(users, u) == index
    ensures TotalUnsettled(b[u := v], users, index) == TotalUnsettled(b, users, index)
  {
    var f, g := Unsettled(b, users, index), Unsettled(b[u := v], users, index);
    assert f(u) == 0 && g(u) == 0;
    SumPoint(b.Keys, f, g, u);
    assert b[u := v].Keys == b.Keys + {u};
  }

  lemma UnsettledLower(b: Balances, users: map<Address, nat>, index: nat, from: Address, amount: nat)
    requires from != ZERO ==> amount <= Get(b, from) && Get(users, from) == index
    ensures TotalUnsettled(Lower(b, from, amount), users, index) == TotalUnsettled(b, users, index)
  {
    if from != ZERO {
      UnsettledUpdate(b, users, index, from, Get(b, from) - amount);
    }
  }

  lemma UnsettledRaise(b: Balances, users: map<Address, nat>, index: nat, to: Address, amount: nat)
    requires to != ZERO ==> Get(users, to) == index
    ensures TotalUnsettled(Raise(b, to, amount), users, index) == TotalUnsettled(b, users, index)
  {
    if to != ZERO {
      UnsettledUpdate(b, users, index, to, Get(b, to) + amount);
    }
  }

  /** Moving the tokens of accounts that have just accrued changes nothing that is owed. */
  lemma UnsettledShift(b: Balances, users: map<Address, nat>, index: nat, from: Address, to: Address, amount: nat)
    requires from != ZERO ==> amount <= Get(b, from) && Get(users, from) == index
    requires to != ZERO ==> Get(users, to) == index
    ensures TotalUnsettled(Shift(b, from, to, amount), users, index) == TotalUnsettled(b, users, index)
  {
    UnsettledLower(b, users, index, from, amount);
    UnsettledRaise(Lower(b, from, amount), users, index, to, amount);
  }

  /** Everything paid, claimable or gained so far, scaled by the precision of the index. */
  ghost function Owed(cfg: Config, s: State): int {
    var a := SelfAsset(cfg, s);
    PRECISION * (Total(s.rewardsPaid) + Total(s.stakerRewardsToClaim)) + TotalUnsettled(s.balances, a.users, a.index)
  }

  /** What has been emitted to stakers since the last update. */
  function Emitted(cfg: Config, s: State): nat {
    var a := SelfAsset(cfg, s);
    if s.totalSupply == 0 then 0
    else a.emissionPerSecond * Window(a.lastUpdateTimestamp, s.now, s.impl.distributionEnd)
  }

  lemma ClaimableAfter(cfg: Config, s: State, t: State, u: Address)
    requires Accrued(cfg, s, t, u)
    ensures Total(t.stakerRewardsToClaim)
         == Total(s.stakerRewardsToClaim) + Get(t.stakerRewardsToClaim, u) - Get(s.stakerRewardsToClaim, u)
  {
    TotalUpdate(s.stakerRewardsToClaim, u, Get(t.stakerRewardsToClaim, u));
  }

  /** The dust of one index update: less than a unit of index for each staked token. */
  function Dust(cfg: Config, s: State): nat {
    if SelfAsset(cfg, s).lastUpdateTimestamp == s.now then 0 else s.totalSupply
  }

  lemma GainSpread(cfg: Config, s: State)
    requires SelfAsset(cfg, s).lastUpdateTimestamp <= s.now
    ensures var gain := IndexNow(cfg, s) - SelfAsset(cfg, s).index;
      gain >= 0 && gain * s.totalSupply <= Emitted(cfg, s) * PRECISION <= gain * s.totalSupply + Dust(cfg, s)
  {
    var a := SelfAsset(cfg, s);
    var w := Window(a.lastUpdateTimestamp, s.now, s.impl.distributionEnd);
    if s.totalSupply > 0 {
      if w == 0 {
        NoGain(a.emissionPerSecond, s.totalSupply);
      } else {
        GainBounds(a.emissionPerSecond, w, s.totalSupply);
      }
    }
  }

  lemma NoGain(e: nat, total: nat)
    ensures Gain(e, 0, total) == 0 && e * 0 * PRECISION == 0
  {
    assert e * 0 * PRECISION == 0;
    if total > 0 {
      assert 0 / total == 0;
    }
  }

  lemma UnsettledAfter(cfg: Config, s: State, t: State, u: Address)
    requires Accrued(cfg, s, t, u) && t.balances == s.balances
    ensures var a, b, index := SelfAsset(cfg, s), SelfAsset(cfg, t), IndexNow(cfg, s);
      TotalUnsettled(t.balances, b.users, b.index)
      == TotalUnsettled(s.balances, a.users, a.index) + (index - a.index) * Total(s.balances)
         - Get(s.balances, u) * (index - Get(a.users, u))
  {
    var a, b, index := SelfAsset(cfg, s), SelfAsset(cfg, t), IndexNow(cfg, s);
    UnsettledIndex(s.balances, a.users, a.index, index - a.index);
    UnsettledSettle(s.balances, a.users, b.users, index, u);
  }

  /** An accrual turns what was emitted into what is owed, up to less than one unit for the
      user and the dust of the index update. */
  lemma AccrueOwed(cfg: Config, s: State, t: State, u: Address)
    requires Accrued(cfg, s, t, u) && SelfAsset(cfg, s).lastUpdateTimestamp <= s.now
    requires t.balances == s.balances && t.rewardsPaid == s.rewardsPaid
    requires Total(s.balances) == s.totalSupply
    ensures Owed(cfg, t) <= Owed(cfg, s) + Emitted(cfg, s) * PRECISION
    ensures Owed(cfg, s) + Emitted(cfg, s) * PRECISION <= Owed(cfg, t) + PRECISION + Dust(cfg, s)
  {
    GainSpread(cfg, s);
    UnsettledAfter(cfg, s, t, u);
    ClaimableAfter(cfg, s, t, u);
  }
}
