/** The distribution manager as it runs: storage updated in place, lists walked by loops. */
module DistributionManager {
  import opened Evm
  import opened Distribution

  lemma {:induction false} ConfigureStops(now: nat, end: nat, m: Assets, inputs: seq<AssetConfigInput>, k: nat)
    requires k <= |inputs| && Configure(now, end, m, inputs[..k]).Revert?
    ensures Configure(now, end, m, inputs) == Configure(now, end, m, inputs[..k])
  {
    if k < |inputs| {
      var prefix := inputs[..|inputs| - 1];
      assert prefix[..k] == inputs[..k];
      ConfigureStops(now, end, m, prefix, k);
    } else {
      assert inputs[..k] == inputs;
    }
  }

  lemma {:induction false} ClaimStops(now: nat, end: nat, m: Assets, user: Address, stakes: seq<UserStakeInput>, k: nat)
    requires k <= |stakes| && ClaimAll(now, end, m, user, stakes[..k]).Revert?
    ensures ClaimAll(now, end, m, user, stakes) == ClaimAll(now, end, m, user, stakes[..k])
  {
    if k < |stakes| {
      var prefix := stakes[..|stakes| - 1];
      assert prefix[..k] == stakes[..k];
      ClaimStops(now, end, m, user, prefix, k);
    } else {
      assert stakes[..k] == stakes;
    }
  }

  lemma {:induction false} UnclaimedStops(
      now: nat, end: nat, m: Assets, user: Address, stakes: seq<UserStakeInput>, k: nat)
    requires k <= |stakes| && Unclaimed(now, end, m, user, stakes[..k]).Revert?
    ensures Unclaimed(now, end, m, user, stakes) == Unclaimed(now, end, m, user, stakes[..k])
  {
    if k < |stakes| {
      var prefix := stakes[..|stakes| - 1];
      assert prefix[..k] == stakes[..k];
      UnclaimedStops(now, end, m, user, prefix, k);
    } else {
      assert stakes[..k] == stakes;
    }
  }

  class Manager {
    var assets: Assets
    var distributionEnd: nat
    const emissionManager: Address

    constructor (emissionManager: Address, distributionEnd: nat)
      ensures assets == map[]
      ensures this.distributionEnd == distributionEnd && this.emissionManager == emissionManager
    {
      assets := map[];
      this.distributionEnd := distributionEnd;
      this.emissionManager := emissionManager;
    }

    method UpdateAssetStateInternal(now: nat, underlyingAsset: Address, totalStaked: nat) returns (r: Result<nat>)
      modifies this`assets
      ensures r.Ok? ==>
        && UpdateAsset(now, distributionEnd, old(assets), underlyingAsset, totalStaked) == Ok(assets)
        && r.value == Asset(assets, underlyingAsset).index
      ensures r.Revert? ==>
        UpdateAsset(now, distributionEnd, old(assets), underlyingAsset, totalStaked)
        == Revert(r.reason)
    {
      var assetConfig := Asset(assets, underlyingAsset);
      var oldIndex, lastUpdateTimestamp := assetConfig.index, assetConfig.lastUpdateTimestamp;
      if now == lastUpdateTimestamp {
        return Ok(oldIndex);
      }
      var newIndex :- GetAssetIndex(now, distributionEnd, oldIndex, assetConfig.emissionPerSecond,
        lastUpdateTimestamp, totalStaked);
      if newIndex != oldIndex {
        assetConfig := assetConfig.(index := newIndex);
        assets := assets[underlyingAsset := assetConfig];
      }
      assets := assets[underlyingAsset := assetConfig.(lastUpdateTimestamp := Cast128(now))];
      assert assets == old(assets)[underlyingAsset := assetConfig.(lastUpdateTimestamp := Cast128(now))];
      return Ok(newIndex);
    }

    method UpdateUserAssetInternal(
        now: nat, user: Address, asset: Address, stakedByUser: nat, totalStaked: nat) returns (r: Result<nat>)
      modifies this`assets
      ensures r.Ok? ==>
        UpdateUserAsset(now, distributionEnd, old(assets), user, asset, stakedByUser, totalStaked)
        == Ok((assets, r.value))
      ensures r.Revert? ==>
        UpdateUserAsset(now, distributionEnd, old(assets), user, asset, stakedByUser, totalStaked)
        == Revert(r.reason)
    {
      var userIndex := Get(Asset(assets, asset).users, user);
      var accruedRewards := 0;
      var newIndex :- UpdateAssetStateInternal(now, asset, totalStaked);
      if userIndex != newIndex {
        if stakedByUser != 0 {
          accruedRewards :- GetRewards(stakedByUser, newIndex, userIndex);
        }
        var assetData := Asset(assets, asset);
        assets := assets[asset := assetData.(users := assetData.users[user := newIndex])];
      }
      return Ok(accruedRewards);
    }

    method ConfigureAssets(now: nat, sender: Address, inputs: seq<AssetConfigInput>) returns (r: Result<()>)
      modifies this`assets
      ensures sender != emissionManager ==> r == Revert(OnlyEmissionManager)
      ensures sender == emissionManager && r.Ok? ==> Configure(now, distributionEnd, old(assets), inputs) == Ok(assets)
      ensures sender == emissionManager && r.Revert?
        ==> Configure(now, distributionEnd, old(assets), inputs) == Revert(r.reason)
    {
      var _ :- Require(sender == emissionManager, OnlyEmissionManager);
      for i := 0 to |inputs|
        invariant Configure(now, distributionEnd, old(assets), inputs[..i]) == Ok(assets)
      {
        var c := inputs[i];
        assert inputs[..i + 1][..i] == inputs[..i];
        var u := UpdateAssetStateInternal(now, c.underlyingAsset, c.totalStaked);
        if u.Revert? {
          ConfigureStops(now, distributionEnd, old(assets), inputs, i + 1);
          return Revert(u.reason);
        }
        assets := assets[c.underlyingAsset :=
          Asset(assets, c.underlyingAsset).(emissionPerSecond := c.emissionPerSecond)];
      }
      assert inputs[..|inputs|] == inputs;
      return Ok(());
    }

    method ClaimRewards(now: nat, user: Address, stakes: seq<UserStakeInput>) returns (r: Result<nat>)
      modifies this`assets
      ensures r.Ok? ==> ClaimAll(now, distributionEnd, old(assets), user, stakes) == Ok((assets, r.value))
      ensures r.Revert? ==> ClaimAll(now, distributionEnd, old(assets), user, stakes) == Revert(r.reason)
    {
      var accruedRewards := 0;
      for i := 0 to |stakes|
        invariant ClaimAll(now, distributionEnd, old(assets), user, stakes[..i]) == Ok((assets, accruedRewards))
      {
        assert stakes[..i + 1][..i] == stakes[..i];
        var one := UpdateUserAssetInternal(now, user, stakes[i].underlyingAsset, stakes[i].stakedByUser,
          stakes[i].totalStaked);
        if one.Revert? {
          ClaimStops(now, distributionEnd, old(assets), user, stakes, i + 1);
          return Revert(one.reason);
        }
        var sum := Add(accruedRewards, one.value);
        if sum.Revert? {
          ClaimStops(now, distributionEnd, old(assets), user, stakes, i + 1);
          return Revert(sum.reason);
        }
        accruedRewards := sum.value;
      }
      assert stakes[..|stakes|] == stakes;
      return Ok(accruedRewards);
    }

    method GetUnclaimedRewards(now: nat, user: Address, stakes: seq<UserStakeInput>) returns (r: Result<nat>)
      ensures r == Unclaimed(now, distributionEnd, assets, user, stakes)
    {
      var accruedRewards := 0;
      for i := 0 to |stakes|
        invariant Unclaimed(now, distributionEnd, assets, user, stakes[..i]) == Ok(accruedRewards)
      {
        assert stakes[..i + 1][..i] == stakes[..i];
        var assetConfig := Asset(assets, stakes[i].underlyingAsset);
        var assetIndex := GetAssetIndex(now, distributionEnd, assetConfig.index, assetConfig.emissionPerSecond,
                                        assetConfig.lastUpdateTimestamp, stakes[i].totalStaked);
        if assetIndex.Revert? {
          UnclaimedStops(now, distributionEnd, assets, user, stakes, i + 1);
          return assetIndex;
        }
        var one := GetRewards(stakes[i].stakedByUser, assetIndex.value, Get(assetConfig.users, user));
        if one.Revert? {
          UnclaimedStops(now, distributionEnd, assets, user, stakes, i + 1);
          return one;
        }
        var sum := Add(accruedRewards, one.value);
        if sum.Revert? {
          UnclaimedStops(now, distributionEnd, assets, user, stakes, i + 1);
          return sum;
        }
        accruedRewards := sum.value;
      }
      assert stakes[..|stakes|] == stakes;
      return Ok(accruedRewards);
    }
  }
}
