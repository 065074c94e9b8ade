/** Claiming over a list of assets pays what the view over that list, each asset taken once,
    shows. */
module Claims {
  import opened Arithmetic
  import opened Evm
  import opened Distribution

  ghost predicate Mentions(stakes: seq<UserStakeInput>, x: Address) {
    exists i :: 0 <= i < |stakes| && stakes[i].underlyingAsset == x
  }

  /** The first mention of each asset. */
  ghost function Distinct(stakes: seq<UserStakeInput>): seq<UserStakeInput> {
    if stakes == [] then []
    else
      var prefix, s := stakes[..|stakes| - 1], stakes[|stakes| - 1];
      Distinct(prefix) + if Mentions(prefix, s.underlyingAsset) then [] else [s]
  }

  ghost predicate NoRepeats(stakes: seq<UserStakeInput>) {
    forall i, j :: 0 <= i < j < |stakes| ==> stakes[i].underlyingAsset != stakes[j].underlyingAsset
  }

  /** No user is ahead of an asset. */
  ghost predicate UsersBehind(m: Assets, user: Address) {
    forall x :: Get(Asset(m, x).users, user) <= Asset(m, x).index
  }

  ghost predicate UpToDate(m: Assets, user: Address, x: Address, now: nat) {
    Asset(m, x).lastUpdateTimestamp == now && Get(Asset(m, x).users, user) == Asset(m, x).index
  }

  function AmountOf(r: Result<(Assets, nat)>): Result<nat> {
    match r
    case Ok(p) => Ok(p.1)
    case Revert(e) => Revert(e)
  }

  lemma ZeroReward(index: nat)
    ensures forall b: nat :: GetRewards(b, index, index) == Ok(0)
    ensures forall i: nat :: i <= index ==> GetRewards(0, index, i) == Ok(0)
  {
  }

  /** The first update of an asset accrues what the view shows and leaves it up to date. */
  lemma FirstUpdate(now: nat, end: nat, m: Assets, m': Assets, user: Address, s: UserStakeInput)
    requires now < UINT128
    requires Asset(m', s.underlyingAsset) == Asset(m, s.underlyingAsset)
    requires UsersBehind(m, user)
    ensures var r := UpdateUserAsset(now, end, m', user, s.underlyingAsset, s.stakedByUser, s.totalStaked);
      && AmountOf(r) == UnclaimedOne(now, end, m, user, s)
      && (r.Ok? ==> UpToDate(r.value.0, user, s.underlyingAsset, now))
      && (r.Ok? ==> forall x :: x != s.underlyingAsset ==> Asset(r.value.0, x) == Asset(m', x))
  {
    var a := Asset(m, s.underlyingAsset);
    var r := IndexAt(now, end, a, s.totalStaked);
    assert Get(a.users, user) <= a.index;
    if r.Ok? {
      assert r.value >= a.index;
      ZeroReward(r.value);
    }
  }

  lemma ViewAppend(now: nat, end: nat, m: Assets, user: Address, d: seq<UserStakeInput>, s: UserStakeInput)
    ensures var before, one := Unclaimed(now, end, m, user, d), UnclaimedOne(now, end, m, user, s);
      Unclaimed(now, end, m, user, d + [s])
      == if before.Revert? then before else if one.Revert? then one else Add(before.value, one.value)
  {
    assert (d + [s])[..|d|] == d;
  }

  /** After claiming over `stakes` the mentioned assets are up to date and the others untouched. */
  ghost predicate Claimed(m: Assets, m': Assets, user: Address, stakes: seq<UserStakeInput>, now: nat) {
    forall x :: if Mentions(stakes, x) then UpToDate(m', user, x, now) else Asset(m', x) == Asset(m, x)
  }

  lemma {:induction false} MentionsLast(stakes: seq<UserStakeInput>, x: Address)
    requires stakes != []
    ensures Mentions(stakes, x) <==> Mentions(stakes[..|stakes| - 1], x) || x == stakes[|stakes| - 1].underlyingAsset
  {
    var prefix := stakes[..|stakes| - 1];
    assert forall i :: 0 <= i < |prefix| ==> prefix[i] == stakes[i];
  }

  /** Claiming an up-to-date asset again does nothing. */
  lemma ClaimAgain(now: nat, end: nat, m: Assets, user: Address, s: UserStakeInput)
    requires UpToDate(m, user, s.underlyingAsset, now)
    ensures UpdateUserAsset(now, end, m, user, s.underlyingAsset, s.stakedByUser, s.totalStaked) == Ok((m, 0))
  {
  }

  /** Claiming over `stakes` is the view over the distinct assets. */
  ghost predicate ClaimsView(now: nat, end: nat, m: Assets, user: Address, stakes: seq<UserStakeInput>) {
    var r := ClaimAll(now, end, m, user, stakes);
    && AmountOf(r) == Unclaimed(now, end, m, user, Distinct(stakes))
    && (r.Ok? ==> r.value.1 < UINT256 && Claimed(m, r.value.0, user, stakes, now))
  }

  lemma {:induction false} ClaimRepeated(
      now: nat, end: nat, m: Assets, user: Address, prefix: seq<UserStakeInput>, s: UserStakeInput)
    requires Mentions(prefix, s.underlyingAsset) && ClaimsView(now, end, m, user, prefix)
    ensures ClaimsView(now, end, m, user, prefix + [s])
  {
    var stakes := prefix + [s];
    assert stakes[..|prefix|] == prefix && stakes[|prefix|] == s;
    assert Distinct(stakes) == Distinct(prefix);
    var before := ClaimAll(now, end, m, user, prefix);
    if before.Ok? {
      assert UpToDate(before.value.0, user, s.underlyingAsset, now);
      ClaimAgain(now, end, before.value.0, user, s);
      forall x
        ensures Mentions(stakes, x) <==> Mentions(prefix, x)
      {
        MentionsLast(stakes, x);
      }
    }
  }

  lemma ClaimedAlso(
      m: Assets, q: Assets, m': Assets, user: Address, stakes: seq<UserStakeInput>, s: UserStakeInput, now: nat)
    requires Claimed(m, q, user, stakes, now)
    requires UpToDate(m', user, s.underlyingAsset, now)
    requires forall x :: x != s.underlyingAsset ==> Asset(m', x) == Asset(q, x)
    ensures Claimed(m, m', user, stakes + [s], now)
  {
    assert (stakes + [s])[..|stakes|] == stakes;
    forall x
      ensures if Mentions(stakes + [s], x) then UpToDate(m', user, x, now) else Asset(m', x) == Asset(m, x)
    {
      MentionsLast(stakes + [s], x);
    }
  }

  lemma ClaimAppend(now: nat, end: nat, m: Assets, user: Address, prefix: seq<UserStakeInput>, s: UserStakeInput)
    ensures var before := ClaimAll(now, end, m, user, prefix);
      ClaimAll(now, end, m, user, prefix + [s])
      == if before.Revert? then before else ClaimOne(now, end, before.value, user, s)
  {
    assert (prefix + [s])[..|prefix|] == prefix;
  }

  lemma DistinctAppend(prefix: seq<UserStakeInput>, s: UserStakeInput)
    ensures Distinct(prefix + [s]) == Distinct(prefix) + if Mentions(prefix, s.underlyingAsset) then [] else [s]
  {
    assert (prefix + [s])[..|prefix|] == prefix;
  }

  lemma {:induction false} ClaimNew(
      now: nat, end: nat, m: Assets, user: Address, prefix: seq<UserStakeInput>, s: UserStakeInput)
    requires now < UINT128 && UsersBehind(m, user)
    requires !Mentions(prefix, s.underlyingAsset) && ClaimsView(now, end, m, user, prefix)
    ensures ClaimsView(now, end, m, user, prefix + [s])
  {
    DistinctAppend(prefix, s);
    ClaimAppend(now, end, m, user, prefix, s);
    ViewAppend(now, end, m, user, Distinct(prefix), s);
    var before := ClaimAll(now, end, m, user, prefix);
    if before.Ok? {
      FirstUpdate(now, end, m, before.value.0, user, s);
      var r := UpdateUserAsset(now, end, before.value.0, user, s.underlyingAsset, s.stakedByUser, s.totalStaked);
      if r.Ok? {
        ClaimedAlso(m, before.value.0, r.value.0, user, prefix, s, now);
      }
    }
  }

  lemma {:induction false} ClaimSequence(now: nat, end: nat, m: Assets, user: Address, stakes: seq<UserStakeInput>)
    requires now < UINT128 && UsersBehind(m, user)
    ensures ClaimsView(now, end, m, user, stakes)
  {
    if stakes == [] {
    } else {
      var prefix, s := stakes[..|stakes| - 1], stakes[|stakes| - 1];
      ClaimSequence(now, end, m, user, prefix);
      assert stakes == prefix + [s];
      if Mentions(prefix, s.underlyingAsset) {
        ClaimRepeated(now, end, m, user, prefix, s);
      } else {
        ClaimNew(now, end, m, user, prefix, s);
      }
    }
  }

  /** For every list of assets, repeated or not: claiming reverts exactly when the view over
      the distinct assets does, and accrues exactly what that view shows. */
  lemma {:induction false} ClaimIsDistinctView(
      now: nat, end: nat, m: Assets, user: Address, stakes: seq<UserStakeInput>)
    requires now < UINT128 && UsersBehind(m, user)
    ensures AmountOf(ClaimAll(now, end, m, user, stakes)) == Unclaimed(now, end, m, user, Distinct(stakes))
  {
    ClaimSequence(now, end, m, user, stakes);
  }

  lemma {:induction false} DistinctOfDistinct(stakes: seq<UserStakeInput>)
    requires NoRepeats(stakes)
    ensures Distinct(stakes) == stakes
  {
    if stakes == [] {
    } else {
      var prefix := stakes[..|stakes| - 1];
      DistinctOfDistinct(prefix);
      assert !Mentions(prefix, stakes[|stakes| - 1].underlyingAsset);
    }
  }

  lemma {:induction false} DistinctViewAtMost(now: nat, end: nat, m: Assets, user: Address, stakes: seq<UserStakeInput>)
    requires Unclaimed(now, end, m, user, stakes).Ok?
    ensures var d := Unclaimed(now, end, m, user, Distinct(stakes));
      d.Ok? && d.value <= Unclaimed(now, end, m, user, stakes).value
  {
    if stakes == [] {
    } else {
      var prefix, s := stakes[..|stakes| - 1], stakes[|stakes| - 1];
      DistinctViewAtMost(now, end, m, user, prefix);
      var d := Distinct(prefix);
      assert prefix + [s] == stakes;
      ViewAppend(now, end, m, user, prefix, s);
      if Mentions(prefix, s.underlyingAsset) {
        assert Distinct(stakes) == d;
      } else {
        assert Distinct(stakes) == d + [s];
        ViewAppend(now, end, m, user, d, s);
      }
    }
  }

  /** Over a list without repetitions a claim pays the view; over any list it never pays more. */
  lemma {:induction false} ViewAgainstClaim(now: nat, end: nat, m: Assets, user: Address, stakes: seq<UserStakeInput>)
    requires now < UINT128 && UsersBehind(m, user)
    ensures var claim, view := AmountOf(ClaimAll(now, end, m, user, stakes)), Unclaimed(now, end, m, user, stakes);
      && (NoRepeats(stakes) ==> claim == view)
      && (view.Ok? ==> claim.Ok? && claim.value <= view.value)
  {
    ClaimIsDistinctView(now, end, m, user, stakes);
    if NoRepeats(stakes) {
      DistinctOfDistinct(stakes);
    }
    if Unclaimed(now, end, m, user, stakes).Ok? {
      DistinctViewAtMost(now, end, m, user, stakes);
    }
  }

  // ---------- the view as a sum ----------

  /** The index of an asset brought up to now under `total`. */
  function NewIndex(now: nat, end: nat, a: AssetData, total: nat): nat {
    a.index + Gain(a.emissionPerSecond, Window(a.lastUpdateTimestamp, now, end), total)
  }

  /** What `user` gained by a stake since the last settlement, scaled. */
  function Gained(now: nat, end: nat, m: Assets, user: Address, s: UserStakeInput): int {
    var a := Asset(m, s.underlyingAsset);
    s.stakedByUser * (NewIndex(now, end, a, s.totalStaked) - Get(a.users, user))
  }

  ghost predicate StakeFits(now: nat, end: nat, m: Assets, user: Address, s: UserStakeInput) {
    var a := Asset(m, s.underlyingAsset);
    && IndexFits(a.emissionPerSecond, Window(a.lastUpdateTimestamp, now, end), s.totalStaked, a.index)
    && Gained(now, end, m, user, s) < UINT256
  }

  lemma UnclaimedOneIs(now: nat, end: nat, m: Assets, user: Address, s: UserStakeInput)
    requires UsersBehind(m, user) && Asset(m, s.underlyingAsset).lastUpdateTimestamp <= now
    ensures var r := UnclaimedOne(now, end, m, user, s);
      && (r.Ok? <==> StakeFits(now, end, m, user, s))
      && (r.Ok? ==> r.value == Gained(now, end, m, user, s) / PRECISION)
    ensures 0 <= Gained(now, end, m, user, s)
  {
    var a := Asset(m, s.underlyingAsset);
    assert Get(a.users, user) <= a.index;
    MulLe(s.stakedByUser, 0, NewIndex(now, end, a, s.totalStaked) - Get(a.users, user));
    IndexAtSucceedsIff(now, end, a, s.totalStaked);
    if IndexAt(now, end, a, s.totalStaked).Ok? {
      IndexAtIs(now, end, a, s.totalStaked);
    }
  }

  /** What was gained by all stakes of a list, each rounded down. */
  function Pendings(now: nat, end: nat, m: Assets, user: Address, stakes: seq<UserStakeInput>): int {
    if stakes == [] then 0
    else Gained(now, end, m, user, stakes[0]) / PRECISION + Pendings(now, end, m, user, stakes[1..])
  }

  lemma {:induction false} PendingsAppend(
      now: nat, end: nat, m: Assets, user: Address, stakes: seq<UserStakeInput>, s: UserStakeInput)
    ensures Pendings(now, end, m, user, stakes + [s])
         == Pendings(now, end, m, user, stakes) + Gained(now, end, m, user, s) / PRECISION
  {
    if stakes == [] {
      assert [] + [s] == [s];
    } else {
      assert (stakes + [s])[1..] == stakes[1..] + [s];
      PendingsAppend(now, end, m, user, stakes[1..], s);
    }
  }

  ghost predicate StakesFit(now: nat, end: nat, m: Assets, user: Address, stakes: seq<UserStakeInput>) {
    && (forall s :: s in stakes ==> StakeFits(now, end, m, user, s))
    && Pendings(now, end, m, user, stakes) < UINT256
  }

  /** The view over any list is the sum of what was gained by each stake, and reverts exactly when one
      of the gains, or the sum, does not fit. */
  lemma {:induction false} UnclaimedIs(now: nat, end: nat, m: Assets, user: Address, stakes: seq<UserStakeInput>)
    requires UsersBehind(m, user) && forall x :: Asset(m, x).lastUpdateTimestamp <= now
    ensures 0 <= Pendings(now, end, m, user, stakes)
    ensures var r := Unclaimed(now, end, m, user, stakes);
      && (r.Ok? <==> StakesFit(now, end, m, user, stakes))
      && (r.Ok? ==> r.value == Pendings(now, end, m, user, stakes))
  {
    if stakes == [] {
    } else {
      var prefix, s := stakes[..|stakes| - 1], stakes[|stakes| - 1];
      assert stakes == prefix + [s];
      UnclaimedIs(now, end, m, user, prefix);
      UnclaimedOneIs(now, end, m, user, s);
      PendingsAppend(now, end, m, user, prefix, s);
      ViewAppend(now, end, m, user, prefix, s);
      assert forall x :: x in stakes <==> x in prefix || x == s;
    }
  }

  lemma SingleView(now: nat, end: nat, m: Assets, user: Address, s: UserStakeInput)
    ensures Unclaimed(now, end, m, user, [s]) == UnclaimedOne(now, end, m, user, s)
  {
    ViewAppend(now, end, m, user, [], s);
    assert [] + [s] == [s];
    var one := UnclaimedOne(now, end, m, user, s);
    if one.Ok? {
      assert one.value < UINT256;
    }
  }
}
