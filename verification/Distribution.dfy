/** Reward distribution by a lazily updated index: what the manager computes, and the
    rounding of one update. */
module Distribution {
  import opened Arithmetic
  import opened Evm

  const PRECISION: nat := 1_000_000_000_000_000_000

  datatype AssetData = AssetData(
    emissionPerSecond: nat,
    lastUpdateTimestamp: nat,
    index: nat,
    users: map<Address, nat>)

  const UNCONFIGURED := AssetData(0, 0, 0, map[])

  type Assets = map<Address, AssetData>

  datatype AssetConfigInput = AssetConfigInput(emissionPerSecond: nat, totalStaked: nat, underlyingAsset: Address)

  datatype UserStakeInput = UserStakeInput(underlyingAsset: Address, stakedByUser: nat, totalStaked: nat)

  function Asset(m: Assets, x: Address): AssetData {
    if x in m then m[x] else UNCONFIGURED
  }

  function GetRewards(principalUserBalance: nat, reserveIndex: nat, userIndex: nat): Result<nat> {
    var gained :- Sub(reserveIndex, userIndex);
    var scaled :- Mul(principalUserBalance, gained);
    Div(scaled, PRECISION)
  }

  function GetAssetIndex(
      now: nat, end: nat, currentIndex: nat, emissionPerSecond: nat, lastUpdateTimestamp: nat,
      totalBalance: nat): Result<nat>
  {
    if emissionPerSecond == 0 || totalBalance == 0 || lastUpdateTimestamp == now || lastUpdateTimestamp >= end then
      Ok(currentIndex)
    else
      var currentTimestamp := if now > end then end else now;
      var timeDelta :- Sub(currentTimestamp, lastUpdateTimestamp);
      var emitted :- Mul(emissionPerSecond, timeDelta);
      var scaled :- Mul(emitted, PRECISION);
      var perToken :- Div(scaled, totalBalance);
      Add(perToken, currentIndex)
  }

  function IndexAt(now: nat, end: nat, a: AssetData, totalStaked: nat): Result<nat> {
    GetAssetIndex(now, end, a.index, a.emissionPerSecond, a.lastUpdateTimestamp, totalStaked)
  }

  function UpdateState(now: nat, end: nat, a: AssetData, totalStaked: nat): Result<AssetData> {
    if now == a.lastUpdateTimestamp then Ok(a)
    else
      var newIndex :- IndexAt(now, end, a, totalStaked);
      Ok(a.(index := newIndex, lastUpdateTimestamp := Cast128(now)))
  }

  function UpdateAsset(now: nat, end: nat, m: Assets, x: Address, totalStaked: nat): Result<Assets> {
    if now == Asset(m, x).lastUpdateTimestamp then Ok(m)
    else
      var a :- UpdateState(now, end, Asset(m, x), totalStaked);
      Ok(m[x := a])
  }

  /** Bring the user's index up to the asset's; the rewards in between are the result. */
  function Settle(m: Assets, user: Address, x: Address, stakedByUser: nat): Result<(Assets, nat)> {
    var a := Asset(m, x);
    var userIndex := Get(a.users, user);
    if userIndex == a.index then Ok((m, 0))
    else
      var accrued :- if stakedByUser != 0 then GetRewards(stakedByUser, a.index, userIndex) else Ok(0);
      Ok((m[x := a.(users := a.users[user := a.index])], accrued))
  }

  function UpdateUserAsset(
      now: nat, end: nat, m: Assets, user: Address, x: Address, stakedByUser: nat,
      totalStaked: nat): Result<(Assets, nat)>
  {
    var m' :- UpdateAsset(now, end, m, x, totalStaked);
    Settle(m', user, x, stakedByUser)
  }

  function ConfigureOne(now: nat, end: nat, m: Assets, c: AssetConfigInput): Result<Assets> {
    var m' :- UpdateAsset(now, end, m, c.underlyingAsset, c.totalStaked);
    Ok(m'[c.underlyingAsset := Asset(m', c.underlyingAsset).(emissionPerSecond := c.emissionPerSecond)])
  }

  function Configure(now: nat, end: nat, m: Assets, inputs: seq<AssetConfigInput>): Result<Assets> {
    if inputs == [] then Ok(m)
    else
      var m' :- Configure(now, end, m, inputs[..|inputs| - 1]);
      ConfigureOne(now, end, m', inputs[|inputs| - 1])
  }

  /** One more stake, after those that left the assets and the sum in `before`. */
  function ClaimOne(
      now: nat, end: nat, before: (Assets, nat), user: Address, s: UserStakeInput): Result<(Assets, nat)>
  {
    var one :- UpdateUserAsset(now, end, before.0, user, s.underlyingAsset, s.stakedByUser, s.totalStaked);
    var sum :- Add(before.1, one.1);
    Ok((one.0, sum))
  }

  function ClaimAll(now: nat, end: nat, m: Assets, user: Address, stakes: seq<UserStakeInput>): Result<(Assets, nat)> {
    if stakes == [] then Ok((m, 0))
    else
      var before :- ClaimAll(now, end, m, user, stakes[..|stakes| - 1]);
      ClaimOne(now, end, before, user, stakes[|stakes| - 1])
  }

  function UnclaimedOne(now: nat, end: nat, m: Assets, user: Address, s: UserStakeInput): Result<nat> {
    var a := Asset(m, s.underlyingAsset);
    var assetIndex :- IndexAt(now, end, a, s.totalStaked);
    GetRewards(s.stakedByUser, assetIndex, Get(a.users, user))
  }

  function Unclaimed(now: nat, end: nat, m: Assets, user: Address, stakes: seq<UserStakeInput>): Result<nat> {
    if stakes == [] then Ok(0)
    else
      var before :- Unclaimed(now, end, m, user, stakes[..|stakes| - 1]);
      var one :- UnclaimedOne(now, end, m, user, stakes[|stakes| - 1]);
      Add(before, one)
  }

  // ---------- the rounding of one update ----------

  /** The seconds of `[last, now)` in which rewards are emitted. */
  function Window(last: nat, now: nat, end: nat): nat {
    if last < now && last < end then Min(now, end) - last else 0
  }

  /** What an update adds to the index. */
  function Gain(emission: nat, seconds: nat, total: nat): nat {
    if total == 0 then 0 else emission * seconds * PRECISION / total
  }

  lemma WindowAdds(last: nat, mid: nat, now: nat, end: nat)
    requires last <= mid <= now
    ensures Window(last, mid, end) + Window(mid, now, end) == Window(last, now, end)
  {
  }

  /** The checked computation, when it does not revert, adds exactly the gain of the window. */
  lemma IndexAtIs(now: nat, end: nat, a: AssetData, total: nat)
    requires a.lastUpdateTimestamp <= now
    requires IndexAt(now, end, a, total).Ok?
    ensures IndexAt(now, end, a, total).value
         == a.index + Gain(a.emissionPerSecond, Window(a.lastUpdateTimestamp, now, end), total)
  {
    var e, w := a.emissionPerSecond, Window(a.lastUpdateTimestamp, now, end);
    if e == 0 || w == 0 {
      assert e * w == 0;
      if total > 0 {
        assert 0 / total == 0;
      }
    }
  }

  /** Nothing to compute, or the products and the new index fit a word. */
  ghost predicate IndexFits(emission: nat, seconds: nat, total: nat, index: nat) {
    || emission == 0 || seconds == 0 || total == 0
    || (emission * seconds * PRECISION < UINT256 && index + Gain(emission, seconds, total) < UINT256)
  }

  lemma IndexAtSucceedsIff(now: nat, end: nat, a: AssetData, total: nat)
    requires a.lastUpdateTimestamp <= now
    ensures IndexAt(now, end, a, total).Ok?
       <==> IndexFits(a.emissionPerSecond, Window(a.lastUpdateTimestamp, now, end), total, a.index)
  {
    var e, w := a.emissionPerSecond, Window(a.lastUpdateTimestamp, now, end);
    assert e * w <= e * w * PRECISION;
  }

  /** Spread over all stakers, an update gives out at most what was emitted, and loses less
      than one unit of index per staked token. */
  lemma GainBounds(emission: nat, seconds: nat, total: nat)
    requires total > 0
    ensures total * Gain(emission, seconds, total) <= emission * seconds * PRECISION
    ensures emission * seconds * PRECISION < total * Gain(emission, seconds, total) + total
  {
    DivBounds(emission * seconds * PRECISION, total);
  }

  lemma RewardBounds(principal: nat, reserveIndex: nat, userIndex: nat)
    requires GetRewards(principal, reserveIndex, userIndex).Ok?
    ensures userIndex <= reserveIndex
    ensures var r := GetRewards(principal, reserveIndex, userIndex).value;
      PRECISION * r <= principal * (reserveIndex - userIndex) < PRECISION * r + PRECISION
  {
  }

  /** Updating with a total not below the supply never gives out more than is emitted. */
  lemma LargeTotalIsSafe(e: nat, w: nat, total: nat, supply: nat)
    requires total == 0 || supply <= total
    ensures supply * Gain(e, w, total) <= e * w * PRECISION
  {
    if total > 0 {
      GainBounds(e, w, total);
      MulLe(Gain(e, w, total), supply, total);
    }
  }

  /** With a smaller one, an emission of that size overpays within a second. */
  lemma SmallTotalOverpays(total: nat, supply: nat)
    requires 0 < total < supply
    ensures supply * Gain(total, 1, total) > total * 1 * PRECISION
  {
    var g := Gain(total, 1, total);
    GainBounds(total, 1, total);
    Distribute(total, g, 1);
    Cancel(total, PRECISION, g + 1);
    MulLe(supply, PRECISION, g);
  }

  /** Configuring with a total other than the true supply can give out more than was emitted;
      it never does, whatever the emission and the time, exactly when the total is zero or
      not below the supply. */
  lemma ConfiguredTotalSafeIff(total: nat, supply: nat)
    ensures (total == 0 || supply <= total)
       <==> forall e: nat, w: nat :: supply * Gain(e, w, total) <= e * w * PRECISION
  {
    if total == 0 || supply <= total {
      forall e: nat, w: nat
        ensures supply * Gain(e, w, total) <= e * w * PRECISION
      {
        LargeTotalIsSafe(e, w, total, supply);
      }
    } else {
      SmallTotalOverpays(total, supply);
    }
  }

  lemma SmallTotalIsFull(e: nat, w: nat, total: nat, supply: nat)
    requires 0 < total <= supply
    ensures e * w * PRECISION <= supply * Gain(e, w, total) + supply
  {
    var g := Gain(e, w, total);
    GainBounds(e, w, total);
    MulLe(g, total, supply);
  }

  /** With a larger one, an emission of that size over as many seconds as there are tokens
      leaves out more than a unit of index for each of them. */
  lemma LargeTotalUnderpays(total: nat, supply: nat)
    requires 0 < supply < total
    ensures Gain(total, supply, total) == supply * PRECISION
    ensures total * supply * PRECISION > supply * (supply * PRECISION) + supply
  {
    var p := supply * PRECISION;
    assert total * supply * PRECISION == total * p;
    ExactDivision(total, p);
    MulLe(p, supply + 1, total);
    Distribute(p, supply, 1);
  }

  /** It gives out the emission up to the rounding of one update exactly when the total is
      positive and not above the supply. */
  lemma ConfiguredTotalFullIff(total: nat, supply: nat)
    requires supply > 0
    ensures 0 < total <= supply
       <==> forall e: nat, w: nat :: e * w * PRECISION <= supply * Gain(e, w, total) + supply
  {
    if 0 < total <= supply {
      forall e: nat, w: nat
        ensures e * w * PRECISION <= supply * Gain(e, w, total) + supply
      {
        SmallTotalIsFull(e, w, total, supply);
      }
    } else if total == 0 {
      assert supply * Gain(supply, 1, 0) == 0;
      assert supply * 1 * PRECISION > supply * Gain(supply, 1, 0) + supply;
    } else {
      LargeTotalUnderpays(total, supply);
      assert total * supply * PRECISION > supply * Gain(total, supply, total) + supply;
    }
  }

  // ---------- how often the index is updated hardly matters ----------

  /** Updates at each of `times`, in turn. */
  function Poked(end: nat, a: AssetData, total: nat, times: seq<nat>): Result<AssetData> {
    if times == [] then Ok(a)
    else
      var b :- Poked(end, a, total, times[..|times| - 1]);
      UpdateState(times[|times| - 1], end, b, total)
  }

  ghost predicate InTurn(last: nat, times: seq<nat>) {
    && (forall i :: 0 <= i < |times| ==> last <= times[i] < UINT128)
    && (forall i, j :: 0 <= i < j < |times| ==> times[i] <= times[j])
  }

  lemma UpdateStateIs(now: nat, end: nat, a: AssetData, total: nat)
    requires a.lastUpdateTimestamp <= now < UINT128
    requires UpdateState(now, end, a, total).Ok?
    ensures UpdateState(now, end, a, total).value
         == a.(index := a.index + Gain(a.emissionPerSecond, Window(a.lastUpdateTimestamp, now, end), total),
               lastUpdateTimestamp := now)
  {
    if now == a.lastUpdateTimestamp {
      assert a.emissionPerSecond * 0 == 0;
      if total > 0 {
        assert 0 / total == 0;
      }
    } else {
      IndexAtIs(now, end, a, total);
    }
  }

  /** The index has grown by `x` after `k` updates, in which `emitted` was to be given out. */
  ghost predicate Rounded(total: nat, x: int, k: nat, emitted: int) {
    total * x <= emitted <= total * x + total * k
  }

  lemma RoundedStep(total: nat, x: nat, k: nat, e: nat, w1: nat, w2: nat)
    requires total > 0
    requires Rounded(total, x, k, e * w1 * PRECISION)
    ensures var y := x + Gain(e, w2, total);
      && Rounded(total, y, k + 1, e * (w1 + w2) * PRECISION)
      && e * (w1 + w2) * PRECISION < total * y + total * (k + 1)
  {
    var g := Gain(e, w2, total);
    GainBounds(e, w2, total);
    Distribute(e, w1, w2);
    Distribute(total, x, g);
    Distribute(total, k, 1);
  }

  lemma {:induction false} PokedBounds(end: nat, a: AssetData, total: nat, times: seq<nat>)
    requires total > 0 && InTurn(a.lastUpdateTimestamp, times)
    requires Poked(end, a, total, times).Ok?
    ensures var p := Poked(end, a, total, times).value;
      var emitted := a.emissionPerSecond * Window(a.lastUpdateTimestamp, p.lastUpdateTimestamp, end) * PRECISION;
      && p.emissionPerSecond == a.emissionPerSecond
      && p.lastUpdateTimestamp == (if times == [] then a.lastUpdateTimestamp else times[|times| - 1])
      && a.index <= p.index
      && Rounded(total, p.index - a.index, |times|, emitted)
      && (times != [] ==> emitted < total * (p.index - a.index) + total * |times|)
  {
    if times == [] {
    } else {
      var prefix, now := times[..|times| - 1], times[|times| - 1];
      PokedBounds(end, a, total, prefix);
      var b := Poked(end, a, total, prefix).value;
      UpdateStateIs(now, end, b, total);
      WindowAdds(a.lastUpdateTimestamp, b.lastUpdateTimestamp, now, end);
      RoundedStep(total, b.index - a.index, |prefix|, a.emissionPerSecond,
        Window(a.lastUpdateTimestamp, b.lastUpdateTimestamp, end), Window(b.lastUpdateTimestamp, now, end));
    }
  }

  /** Two roundings of the same emission, with k updates and with one. */
  lemma CompareRoundings(total: nat, x: nat, k: nat, y: nat, emitted: int)
    requires total > 0
    requires total * x <= emitted < total * x + total * k
    requires total * y <= emitted < total * y + total
    ensures x <= y < x + k
  {
    Distribute(total, y, 1);
    Cancel(total, x, y + 1);
    Distribute(total, x, k);
    Cancel(total, y, x + k);
  }

  lemma UpdateStateSucceedsIff(now: nat, end: nat, a: AssetData, total: nat)
    requires a.lastUpdateTimestamp <= now
    ensures UpdateState(now, end, a, total).Ok?
       <==> IndexFits(a.emissionPerSecond, Window(a.lastUpdateTimestamp, now, end), total, a.index)
  {
    IndexAtSucceedsIff(now, end, a, total);
  }

  lemma FitsEarlier(e: nat, w: nat, later: nat, total: nat, index: nat)
    requires w <= later && IndexFits(e, later, total, index)
    ensures IndexFits(e, w, total, index)
  {
    if e != 0 && w != 0 && total != 0 {
      MulLe(e, w, later);
      var g, h := Gain(e, w, total), Gain(e, later, total);
      GainBounds(e, w, total);
      GainBounds(e, later, total);
      Distribute(total, h, 1);
      Cancel(total, g, h + 1);
    }
  }

  /** An index that has grown at most by rounding still fits where the whole does. */
  lemma FitsAfterPokes(e: nat, w1: nat, w2: nat, total: nat, index: nat, x: nat, k: nat)
    requires total > 0 && IndexFits(e, w1 + w2, total, index)
    requires Rounded(total, x, k, e * w1 * PRECISION)
    ensures IndexFits(e, w2, total, index + x)
  {
    if e != 0 && w2 != 0 {
      var g, h := Gain(e, w2, total), Gain(e, w1 + w2, total);
      MulLe(e, w2, w1 + w2);
      RoundedStep(total, x, k, e, w1, w2);
      GainBounds(e, w1 + w2, total);
      Distribute(total, h, 1);
      Cancel(total, x + g, h + 1);
    }
  }

  /** If the one update succeeds, so do the many. */
  lemma {:induction false} PokedSucceeds(end: nat, a: AssetData, total: nat, times: seq<nat>)
    requires total > 0 && times != [] && InTurn(a.lastUpdateTimestamp, times)
    requires UpdateState(times[|times| - 1], end, a, total).Ok?
    ensures Poked(end, a, total, times).Ok?
  {
    var prefix, now := times[..|times| - 1], times[|times| - 1];
    var e, last := a.emissionPerSecond, a.lastUpdateTimestamp;
    UpdateStateSucceedsIff(now, end, a, total);
    if prefix == [] {
    } else {
      var mid := prefix[|prefix| - 1];
      WindowAdds(last, mid, now, end);
      FitsEarlier(e, Window(last, mid, end), Window(last, now, end), total, a.index);
      UpdateStateSucceedsIff(mid, end, a, total);
      PokedSucceeds(end, a, total, prefix);
      PokedBounds(end, a, total, prefix);
      var b := Poked(end, a, total, prefix).value;
      FitsAfterPokes(e, Window(last, mid, end), Window(mid, now, end), total, a.index, b.index - a.index, |prefix|);
      UpdateStateSucceedsIff(now, end, b, total);
    }
  }

  /** Updating at k points of an interval succeeds if one update at its end does, and leaves the
      index at most where that would, and less than k units below. */
  lemma {:induction false} PokeIndependence(end: nat, a: AssetData, total: nat, times: seq<nat>)
    requires total > 0 && times != [] && InTurn(a.lastUpdateTimestamp, times)
    requires UpdateState(times[|times| - 1], end, a, total).Ok?
    ensures Poked(end, a, total, times).Ok?
    ensures var p := Poked(end, a, total, times).value;
      var q := UpdateState(times[|times| - 1], end, a, total).value;
      && p.lastUpdateTimestamp == q.lastUpdateTimestamp
      && p.index <= q.index <= p.index + (|times| - 1)
  {
    PokedSucceeds(end, a, total, times);
    var now := times[|times| - 1];
    var p := Poked(end, a, total, times).value;
    var e, w := a.emissionPerSecond, Window(a.lastUpdateTimestamp, now, end);
    PokedBounds(end, a, total, times);
    UpdateStateIs(now, end, a, total);
    GainBounds(e, w, total);
    CompareRoundings(total, p.index - a.index, |times|, Gain(e, w, total), e * w * PRECISION);
  }
}
