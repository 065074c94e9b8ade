/** The incentives controller: rewards over many assets, whose balances the assets report,
    claimed up to what is unclaimed, with a premium when the claim is staked. */
module IncentivesController {
  import opened Arithmetic
  import opened Evm
  import opened Distribution
  import opened Claims
  import opened Rewards
  import opened DistributionManager

  datatype Ledger = Ledger(now: nat, assets: Assets, unclaimed: map<Address, nat>)

  datatype ControllerTerms = ControllerTerms(distributionEnd: nat, emissionManager: Address, extraPsmReward: nat)

  /** Calls, with what the assets report to them and whether the payment goes through. */
  datatype Event =
    | Wait(seconds: nat)
    | Configured(sender: Address, inputs: seq<AssetConfigInput>)
    | HandleAction(asset: Address, user: Address, userBalance: nat, totalSupply: nat)
    | Claim(user: Address, stakes: seq<UserStakeInput>, amount: nat, staked: bool, accepts: bool)

  /** What a call accrues, claims and pays. */
  datatype Receipt = Receipt(accrued: nat, claimed: nat, paid: nat)

  const NOTHING := Receipt(0, 0, 0)

  function Plus(a: Receipt, b: Receipt): Receipt {
    Receipt(a.accrued + b.accrued, a.claimed + b.claimed, a.paid + b.paid)
  }

  function Payment(t: ControllerTerms, amountToClaim: nat, staked: bool): Result<nat> {
    if !staked then Ok(amountToClaim)
    else
      var scaled :- Mul(amountToClaim, t.extraPsmReward);
      Add(amountToClaim, scaled / 100)
  }

  function HandleStep(
      t: ControllerTerms, l: Ledger, asset: Address, user: Address, userBalance: nat,
      totalSupply: nat): Result<(Ledger, Receipt)>
  {
    var r :- UpdateUserAsset(l.now, t.distributionEnd, l.assets, user, asset, userBalance, totalSupply);
    if r.1 == 0 then Ok((l.(assets := r.0), NOTHING))
    else
      var sum :- Add(Get(l.unclaimed, user), r.1);
      Ok((l.(assets := r.0, unclaimed := l.unclaimed[user := sum]), Receipt(r.1, 0, 0)))
  }

  function ClaimStep(
      t: ControllerTerms, l: Ledger, user: Address, stakes: seq<UserStakeInput>, amount: nat, staked: bool,
      accepts: bool): Result<(Ledger, Receipt)>
  {
    if amount == 0 then Ok((l, NOTHING))
    else
      var r :- ClaimAll(l.now, t.distributionEnd, l.assets, user, stakes);
      var total :- if r.1 != 0 then Add(Get(l.unclaimed, user), r.1) else Ok(Get(l.unclaimed, user));
      if total == 0 then Ok((l.(assets := r.0), NOTHING))
      else
        var amountToClaim := if amount > total then total else amount;
        var paid :- Payment(t, amountToClaim, staked);
        var _ :- Require(accepts, PaymentFailed);
        Ok((l.(assets := r.0, unclaimed := l.unclaimed[user := total - amountToClaim]),
          Receipt(r.1, amountToClaim, paid)))
  }

  function EventStep(t: ControllerTerms, l: Ledger, e: Event): Result<(Ledger, Receipt)> {
    match e
    case Wait(seconds) => Ok((l.(now := l.now + seconds), NOTHING))
    case Configured(sender, inputs) =>
      var _ :- Require(sender == t.emissionManager, OnlyEmissionManager);
      var m :- Configure(l.now, t.distributionEnd, l.assets, inputs);
      Ok((l.(assets := m), NOTHING))
    case HandleAction(asset, user, userBalance, totalSupply) => HandleStep(t, l, asset, user, userBalance, totalSupply)
    case Claim(user, stakes, amount, staked, accepts) => ClaimStep(t, l, user, stakes, amount, staked, accepts)
  }

  function RewardsBalance(t: ControllerTerms, l: Ledger, user: Address, stakes: seq<UserStakeInput>): Result<nat> {
    var pending :- Unclaimed(l.now, t.distributionEnd, l.assets, user, stakes);
    Add(Get(l.unclaimed, user), pending)
  }

  // ---------- runs ----------

  datatype Log = Started(now: nat) | Then(prior: Log, event: Event)

  function Current(t: ControllerTerms, g: Log): Ledger {
    match g
    case Started(now) => Ledger(now, map[], map[])
    case Then(prior, e) =>
      match EventStep(t, Current(t, prior), e)
      case Ok(r) => r.0
      case Revert(_) => Current(t, prior)
  }

  /** The receipt of the last call, if it was one of `user`'s. */
  function LastReceipt(t: ControllerTerms, g: Log, user: Address): Receipt
    requires g.Then?
  {
    match EventStep(t, Current(t, g.prior), g.event)
    case Ok(r) => if (g.event.HandleAction? || g.event.Claim?) && g.event.user == user then r.1 else NOTHING
    case Revert(_) => NOTHING
  }

  function Totals(t: ControllerTerms, g: Log, user: Address): Receipt {
    match g
    case Started(_) => NOTHING
    case Then(prior, _) => Plus(Totals(t, prior, user), LastReceipt(t, g, user))
  }

  function StakedClaims(t: ControllerTerms, g: Log, user: Address): nat {
    match g
    case Started(_) => 0
    case Then(prior, e) =>
      StakedClaims(t, prior, user) + if LastReceipt(t, g, user).claimed > 0 && e.staked then 1 else 0
  }

  ghost predicate AlwaysStaked(t: ControllerTerms, g: Log, user: Address) {
    match g
    case Started(_) => true
    case Then(prior, e) => AlwaysStaked(t, prior, user) && (LastReceipt(t, g, user).claimed > 0 ==> e.staked)
  }

  ghost predicate Timely(t: ControllerTerms, g: Log) {
    match g
    case Started(now) => 0 < now < UINT128
    case Then(prior, e) => Timely(t, prior) && (e.Wait? ==> Current(t, prior).now + e.seconds < UINT128)
  }

  lemma StepBalances(t: ControllerTerms, l: Ledger, e: Event, user: Address)
    requires EventStep(t, l, e).Ok?
    ensures var r := EventStep(t, l, e).value;
      var mine := if (e.HandleAction? || e.Claim?) && e.user == user then r.1 else NOTHING;
      Get(l.unclaimed, user) + mine.accrued == Get(r.0.unclaimed, user) + mine.claimed
  {
  }

  /** The ledger. In every run, whatever the assets report: everything that ever accrued to a
      user has been claimed or is still unclaimed. */
  lemma {:induction false} LedgerBalances(t: ControllerTerms, g: Log, user: Address)
    ensures Totals(t, g, user).accrued == Totals(t, g, user).claimed + Get(Current(t, g).unclaimed, user)
  {
    if g.Started? {
    } else {
      LedgerBalances(t, g.prior, user);
      var l := Current(t, g.prior);
      if EventStep(t, l, g.event).Ok? {
        StepBalances(t, l, g.event, user);
      }
    }
  }

  lemma PaymentBounds(t: ControllerTerms, claimed: nat, staked: bool)
    requires Payment(t, claimed, staked).Ok?
    ensures var paid := Payment(t, claimed, staked).value;
      && paid * 100 <= claimed * (100 + t.extraPsmReward)
      && (staked ==> claimed * (100 + t.extraPsmReward) < paid * 100 + 100)
      && (claimed == 0 ==> paid == 0)
  {
    var x := claimed * t.extraPsmReward;
    assert claimed * (100 + t.extraPsmReward) == claimed * 100 + x;
  }

  lemma {:induction false} ReceiptBounds(t: ControllerTerms, g: Log, user: Address)
    requires g.Then?
    ensures var r := LastReceipt(t, g, user);
      && r.paid * 100 <= r.claimed * (100 + t.extraPsmReward)
      && (r.claimed > 0 ==> g.event.Claim?)
      && (r.claimed > 0 && g.event.staked ==> r.claimed * (100 + t.extraPsmReward) < r.paid * 100 + 100)
  {
    var l := Current(t, g.prior);
    if EventStep(t, l, g.event).Ok? && g.event.Claim? && EventStep(t, l, g.event).value.1 != NOTHING {
      PaymentBounds(t, EventStep(t, l, g.event).value.1.claimed, g.event.staked);
    }
  }

  /** Paid at most what was claimed, at `rate` percent. */
  ghost predicate WithinPremium(r: Receipt, rate: nat) {
    r.paid * 100 <= r.claimed * rate
  }

  /** And less than one unit less for each of `n` claims. */
  ghost predicate NearPremium(r: Receipt, rate: nat, n: nat) {
    r.claimed * rate <= r.paid * 100 + 99 * n
  }

  lemma PremiumAdds(a: Receipt, b: Receipt, rate: nat, n: nat, k: nat)
    ensures WithinPremium(a, rate) && WithinPremium(b, rate) ==> WithinPremium(Plus(a, b), rate)
    ensures NearPremium(a, rate, n) && NearPremium(b, rate, k) ==> NearPremium(Plus(a, b), rate, n + k)
  {
    assert (a.claimed + b.claimed) * rate == a.claimed * rate + b.claimed * rate;
  }

  /** The receipt of one call. */
  lemma {:induction false} ReceiptPremium(t: ControllerTerms, g: Log, user: Address)
    requires g.Then?
    ensures var last, rate := LastReceipt(t, g, user), 100 + t.extraPsmReward;
      && WithinPremium(last, rate)
      && (last.claimed > 0 && g.event.Claim? && g.event.staked ==> NearPremium(last, rate, 1))
      && (last.claimed == 0 ==> NearPremium(last, rate, 0))
  {
    ReceiptBounds(t, g, user);
    var last := LastReceipt(t, g, user);
    if last.claimed == 0 {
      assert last.claimed * (100 + t.extraPsmReward) == 0;
    }
  }

  /** The premium. Over every run a user is paid at most what was claimed plus the premium on it. */
  lemma {:induction false} PaidAtMostPremium(t: ControllerTerms, g: Log, user: Address)
    ensures WithinPremium(Totals(t, g, user), 100 + t.extraPsmReward)
  {
    if g.Started? {
    } else {
      PaidAtMostPremium(t, g.prior, user);
      ReceiptPremium(t, g, user);
      PremiumAdds(Totals(t, g.prior, user), LastReceipt(t, g, user), 100 + t.extraPsmReward, 0, 0);
    }
  }

  /** One call more, staked if it claims. */
  lemma {:induction false} StakedOnce(t: ControllerTerms, g: Log, user: Address)
    requires g.Then? && AlwaysStaked(t, g, user)
    ensures var n := if LastReceipt(t, g, user).claimed > 0 then 1 else 0;
      && AlwaysStaked(t, g.prior, user)
      && StakedClaims(t, g, user) == StakedClaims(t, g.prior, user) + n
      && NearPremium(LastReceipt(t, g, user), 100 + t.extraPsmReward, n)
  {
    ReceiptBounds(t, g, user);
    ReceiptPremium(t, g, user);
  }

  /** If every claim was staked, the user is paid less than one unit less for each claim. */
  lemma {:induction false} StakedClaimsPayPremium(t: ControllerTerms, g: Log, user: Address)
    requires AlwaysStaked(t, g, user)
    ensures NearPremium(Totals(t, g, user), 100 + t.extraPsmReward, StakedClaims(t, g, user))
  {
    if g.Started? {
    } else {
      var last := LastReceipt(t, g, user);
      StakedClaimsPayPremium(t, g.prior, user);
      StakedOnce(t, g, user);
      PremiumAdds(Totals(t, g.prior, user), last, 100 + t.extraPsmReward,
        StakedClaims(t, g.prior, user), if last.claimed > 0 then 1 else 0);
    }
  }

  /** The premium of the last call, if it was a staked claim of `user`'s. */
  function LastPremium(t: ControllerTerms, g: Log, user: Address): nat
    requires g.Then?
  {
    var claimed := LastReceipt(t, g, user).claimed;
    if g.event.Claim? && g.event.staked then claimed * t.extraPsmReward / 100 else 0
  }

  function Premiums(t: ControllerTerms, g: Log, user: Address): nat {
    match g
    case Started(_) => 0
    case Then(prior, _) => Premiums(t, prior, user) + LastPremium(t, g, user)
  }

  lemma PaymentIs(t: ControllerTerms, claimed: nat, staked: bool)
    ensures var premium, r := if staked then claimed * t.extraPsmReward / 100 else 0, Payment(t, claimed, staked);
      && (r.Ok? <==> !staked || (claimed * t.extraPsmReward < UINT256 && claimed + premium < UINT256))
      && (r.Ok? ==> r.value == claimed + premium)
  {
  }

  lemma {:induction false} ReceiptIsExact(t: ControllerTerms, g: Log, user: Address)
    requires g.Then?
    ensures LastReceipt(t, g, user).paid == LastReceipt(t, g, user).claimed + LastPremium(t, g, user)
  {
    var l := Current(t, g.prior);
    if EventStep(t, l, g.event).Ok? && g.event.Claim? && EventStep(t, l, g.event).value.1 != NOTHING {
      PaymentIs(t, EventStep(t, l, g.event).value.1.claimed, g.event.staked);
    }
    assert 0 * t.extraPsmReward / 100 == 0;
  }

  /** Over every run, whichever claims were staked, a user is paid exactly what was claimed and the
      premium, rounded down, on each staked claim. */
  lemma {:induction false} PaidExactly(t: ControllerTerms, g: Log, user: Address)
    ensures Totals(t, g, user).paid == Totals(t, g, user).claimed + Premiums(t, g, user)
  {
    if g.Started? {
    } else {
      PaidExactly(t, g.prior, user);
      ReceiptIsExact(t, g, user);
    }
  }

  ghost predicate NeverStaked(t: ControllerTerms, g: Log, user: Address) {
    match g
    case Started(_) => true
    case Then(prior, e) => NeverStaked(t, prior, user) && (e.Claim? && e.user == user ==> !e.staked)
  }

  /** Who never staked a claim is paid exactly what was claimed. */
  lemma {:induction false} UnstakedClaimsPayExactly(t: ControllerTerms, g: Log, user: Address)
    requires NeverStaked(t, g, user)
    ensures Totals(t, g, user).paid == Totals(t, g, user).claimed && Premiums(t, g, user) == 0
  {
    if g.Started? {
    } else {
      UnstakedClaimsPayExactly(t, g.prior, user);
      ReceiptIsExact(t, g, user);
      assert 0 * t.extraPsmReward / 100 == 0;
    }
  }

  // ---------- the view and the claim ----------

  lemma {:induction false} ClaimAllKeeps(now: nat, end: nat, m: Assets, user: Address, stakes: seq<UserStakeInput>)
    requires AssetsInv(m, now) && 0 < now < UINT128
    requires ClaimAll(now, end, m, user, stakes).Ok?
    ensures AssetsInv(ClaimAll(now, end, m, user, stakes).value.0, now)
  {
    if stakes == [] {
    } else {
      var prefix, s := stakes[..|stakes| - 1], stakes[|stakes| - 1];
      ClaimAllKeeps(now, end, m, user, prefix);
      var q := ClaimAll(now, end, m, user, prefix).value.0;
      UpdateKeeps(now, end, q, s.underlyingAsset, s.totalStaked);
      SettleKeeps(UpdateAsset(now, end, q, s.underlyingAsset, s.totalStaked).value, user, s.underlyingAsset,
        s.stakedByUser, now);
    }
  }

  lemma StepKeepsIndexes(t: ControllerTerms, l: Ledger, e: Event)
    requires AssetsInv(l.assets, l.now) && 0 < l.now < UINT128
    requires EventStep(t, l, e).Ok?
    ensures var r := EventStep(t, l, e).value.0; AssetsInv(r.assets, r.now)
  {
    match e
    case Wait(seconds) =>
      forall x
        ensures AssetInv(Asset(l.assets, x), l.now + seconds)
      {
        assert AssetInv(Asset(l.assets, x), l.now);
      }
    case Configured(_, inputs) => ConfigureKeeps(l.now, t.distributionEnd, l.assets, inputs);
    case HandleAction(asset, user, userBalance, totalSupply) =>
      UpdateKeeps(l.now, t.distributionEnd, l.assets, asset, totalSupply);
      SettleKeeps(UpdateAsset(l.now, t.distributionEnd, l.assets, asset, totalSupply).value, user, asset,
        userBalance, l.now);
    case Claim(user, stakes, amount, _, _) =>
      if amount != 0 {
        ClaimAllKeeps(l.now, t.distributionEnd, l.assets, user, stakes);
      }
  }

  lemma {:induction false} IndexesStayWellFormed(t: ControllerTerms, g: Log)
    requires Timely(t, g)
    ensures var l := Current(t, g); AssetsInv(l.assets, l.now) && 0 < l.now < UINT128
  {
    if g.Started? {
    } else {
      IndexesStayWellFormed(t, g.prior);
      if EventStep(t, Current(t, g.prior), g.event).Ok? {
        StepKeepsIndexes(t, Current(t, g.prior), g.event);
      }
    }
  }

  lemma StepFits(t: ControllerTerms, l: Ledger, e: Event, user: Address)
    requires EventStep(t, l, e).Ok? && Get(l.unclaimed, user) < UINT256
    ensures Get(EventStep(t, l, e).value.0.unclaimed, user) < UINT256
  {
  }

  /** What is unclaimed always fits the word it is stored in. */
  lemma {:induction false} UnclaimedFits(t: ControllerTerms, g: Log, user: Address)
    ensures Get(Current(t, g).unclaimed, user) < UINT256
  {
    if g.Started? {
    } else {
      UnclaimedFits(t, g.prior, user);
      if EventStep(t, Current(t, g.prior), g.event).Ok? {
        StepFits(t, Current(t, g.prior), g.event, user);
      }
    }
  }

  lemma {:induction false} ClaimedAmount(
    t: ControllerTerms, l: Ledger, user: Address, stakes: seq<UserStakeInput>, amount: nat, staked: bool, accepts: bool)
    requires amount > 0 && Get(l.unclaimed, user) < UINT256
    ensures var claim := ClaimStep(t, l, user, stakes, amount, staked, accepts);
      var all := AmountOf(ClaimAll(l.now, t.distributionEnd, l.assets, user, stakes));
      && (claim.Ok? ==>
           && all.Ok? && Get(l.unclaimed, user) + all.value < UINT256
           && claim.value.1.claimed == Min(amount, Get(l.unclaimed, user) + all.value))
      && (all.Ok? && Get(l.unclaimed, user) + all.value < UINT256 && !staked && accepts ==> claim.Ok?)
  {
  }

  /** In every state of every run a claim, staked or not, succeeds only if the view over the
      distinct assets of its list does, and claims the smaller of what it asks for and what that
      view shows; without a premium and a refusing token it always succeeds then. */
  lemma {:induction false} ClaimTakesView(
    t: ControllerTerms, g: Log, user: Address, stakes: seq<UserStakeInput>, amount: nat, staked: bool, accepts: bool)
    requires Timely(t, g) && amount > 0
    ensures var l := Current(t, g);
      var view := RewardsBalance(t, l, user, Distinct(stakes));
      var claim := ClaimStep(t, l, user, stakes, amount, staked, accepts);
      && (NoRepeats(stakes) ==> Distinct(stakes) == stakes)
      && (claim.Ok? ==> view.Ok? && claim.value.1.claimed == Min(amount, view.value))
      && (view.Ok? && !staked && accepts ==> claim.Ok?)
  {
    IndexesStayWellFormed(t, g);
    UnclaimedFits(t, g, user);
    var l := Current(t, g);
    forall x
      ensures Get(Asset(l.assets, x).users, user) <= Asset(l.assets, x).index
    {
      assert AssetInv(Asset(l.assets, x), l.now);
    }
    ClaimedAmount(t, l, user, stakes, amount, staked, accepts);
    ClaimIsDistinctView(l.now, t.distributionEnd, l.assets, user, stakes);
    if NoRepeats(stakes) {
      DistinctOfDistinct(stakes);
    }
  }

  // ---------- what each call does ----------

  /** An action that an asset reports goes through exactly when the new index, the user's gain and what
      is unclaimed with it fit. It brings the asset up to now under the reported supply, settles the
      user, adds the gain of the reported balance, rounded down, to what the user has unclaimed, and
      changes nothing else. */
  lemma {:induction false} HandleActionIs(
      t: ControllerTerms, g: Log, asset: Address, user: Address, userBalance: nat, totalSupply: nat)
    requires Timely(t, g)
    ensures var l, end := Current(t, g), t.distributionEnd;
      var a := Asset(l.assets, asset);
      var w := Window(a.lastUpdateTimestamp, l.now, end);
      var index := a.index + Gain(a.emissionPerSecond, w, totalSupply);
      var gained := userBalance * (index - Get(a.users, user));
      var accrued := gained / PRECISION;
      var r := EventStep(t, l, HandleAction(asset, user, userBalance, totalSupply));
      && (r.Ok? <==>
           && IndexFits(a.emissionPerSecond, w, totalSupply, a.index)
           && gained < UINT256 && Get(l.unclaimed, user) + accrued < UINT256)
      && (r.Ok? ==>
           var k := r.value.0;
           && k.now == l.now && r.value.1.accrued == accrued && r.value.1.claimed == r.value.1.paid == 0
           && Accounted(l.now, end, a, Asset(k.assets, asset), user, totalSupply)
           && (forall x :: x != asset ==> Asset(k.assets, x) == Asset(l.assets, x))
           && (forall v :: Get(k.unclaimed, v) == Get(l.unclaimed, v) + if v == user then accrued else 0))
  {
    var l := Current(t, g);
    IndexesStayWellFormed(t, g);
    UnclaimedFits(t, g, user);
    assert AssetInv(Asset(l.assets, asset), l.now);
    GainedIsNatural(l, t.distributionEnd, asset, user, userBalance, totalSupply);
    UpdateUserAssetIs(l.now, t.distributionEnd, l.assets, user, asset, userBalance, totalSupply);
  }

  lemma GainedIsNatural(l: Ledger, end: nat, asset: Address, user: Address, userBalance: nat, totalSupply: nat)
    requires Get(Asset(l.assets, asset).users, user) <= Asset(l.assets, asset).index
    ensures var a := Asset(l.assets, asset);
      0 <= userBalance * (a.index + Gain(a.emissionPerSecond, Window(a.lastUpdateTimestamp, l.now, end), totalSupply)
                          - Get(a.users, user))
  {
    var a := Asset(l.assets, asset);
    var gain := Gain(a.emissionPerSecond, Window(a.lastUpdateTimestamp, l.now, end), totalSupply);
    MulLe(userBalance, 0, a.index + gain - Get(a.users, user));
  }

  lemma {:induction false} DistinctIsMentioned(stakes: seq<UserStakeInput>, s: UserStakeInput)
    requires s in Distinct(stakes)
    ensures Mentions(stakes, s.underlyingAsset)
  {
    var prefix, last := stakes[..|stakes| - 1], stakes[|stakes| - 1];
    MentionsLast(stakes, s.underlyingAsset);
    if s in Distinct(prefix) {
      DistinctIsMentioned(prefix, s);
    }
  }

  /** Each distinct stake has brought its asset up to now and settled the user; other assets are
      untouched. */
  ghost predicate ClaimLeaves(
      now: nat, end: nat, m: Assets, m': Assets, user: Address, stakes: seq<UserStakeInput>)
  {
    && (forall s :: s in Distinct(stakes)
          ==> Accounted(now, end, Asset(m, s.underlyingAsset), Asset(m', s.underlyingAsset), user, s.totalStaked))
    && (forall x :: !Mentions(stakes, x) ==> Asset(m', x) == Asset(m, x))
  }

  lemma ClaimLeavesAppend(
      now: nat, end: nat, m: Assets, q: Assets, user: Address, prefix: seq<UserStakeInput>, s: UserStakeInput)
    requires AssetsInv(q, now) && 0 < now < UINT128
    requires ClaimLeaves(now, end, m, q, user, prefix) && !Mentions(prefix, s.underlyingAsset)
    requires UpdateUserAsset(now, end, q, user, s.underlyingAsset, s.stakedByUser, s.totalStaked).Ok?
    ensures var r := UpdateUserAsset(now, end, q, user, s.underlyingAsset, s.stakedByUser, s.totalStaked).value;
      ClaimLeaves(now, end, m, r.0, user, prefix + [s])
  {
    UpdateUserAssetIs(now, end, q, user, s.underlyingAsset, s.stakedByUser, s.totalStaked);
    DistinctAppend(prefix, s);
    assert (prefix + [s])[..|prefix|] == prefix;
    forall x
      ensures Mentions(prefix + [s], x) <==> Mentions(prefix, x) || x == s.underlyingAsset
    {
      MentionsLast(prefix + [s], x);
    }
    forall d | d in Distinct(prefix)
      ensures d.underlyingAsset != s.underlyingAsset
    {
      DistinctIsMentioned(prefix, d);
    }
  }

  lemma RepeatLeaves(
      now: nat, end: nat, m: Assets, q: Assets, user: Address, prefix: seq<UserStakeInput>, s: UserStakeInput)
    requires ClaimLeaves(now, end, m, q, user, prefix) && Mentions(prefix, s.underlyingAsset)
    ensures ClaimLeaves(now, end, m, q, user, prefix + [s])
  {
    DistinctAppend(prefix, s);
    assert (prefix + [s])[..|prefix|] == prefix;
    forall x
      ensures Mentions(prefix + [s], x) <==> Mentions(prefix, x)
    {
      MentionsLast(prefix + [s], x);
    }
  }

  lemma {:induction false} ClaimAllLeaves(now: nat, end: nat, m: Assets, user: Address, stakes: seq<UserStakeInput>)
    requires AssetsInv(m, now) && 0 < now < UINT128 && UsersBehind(m, user)
    requires ClaimAll(now, end, m, user, stakes).Ok?
    ensures ClaimLeaves(now, end, m, ClaimAll(now, end, m, user, stakes).value.0, user, stakes)
  {
    if stakes == [] {
    } else {
      var prefix, s := stakes[..|stakes| - 1], stakes[|stakes| - 1];
      assert stakes == prefix + [s];
      ClaimAppend(now, end, m, user, prefix, s);
      ClaimAllLeaves(now, end, m, user, prefix);
      ClaimAllKeeps(now, end, m, user, prefix);
      var q := ClaimAll(now, end, m, user, prefix).value.0;
      if Mentions(prefix, s.underlyingAsset) {
        ClaimSequence(now, end, m, user, prefix);
        assert UpToDate(q, user, s.underlyingAsset, now);
        ClaimAgain(now, end, q, user, s);
        RepeatLeaves(now, end, m, q, user, prefix, s);
      } else {
        ClaimLeavesAppend(now, end, m, q, user, prefix, s);
      }
    }
  }

  /** What the user could claim over the list, each asset taken once. */
  function Claimable(t: ControllerTerms, l: Ledger, user: Address, distinct: seq<UserStakeInput>): int {
    Get(l.unclaimed, user) + Pendings(l.now, t.distributionEnd, l.assets, user, distinct)
  }

  lemma {:induction false} ClaimAllIs(t: ControllerTerms, g: Log, user: Address, stakes: seq<UserStakeInput>)
    requires Timely(t, g)
    ensures var l := Current(t, g);
      var r := ClaimAll(l.now, t.distributionEnd, l.assets, user, stakes);
      && 0 <= Pendings(l.now, t.distributionEnd, l.assets, user, Distinct(stakes))
      && (r.Ok? <==> StakesFit(l.now, t.distributionEnd, l.assets, user, Distinct(stakes)))
      && (r.Ok? ==>
           && r.value.1 == Pendings(l.now, t.distributionEnd, l.assets, user, Distinct(stakes))
           && ClaimLeaves(l.now, t.distributionEnd, l.assets, r.value.0, user, stakes))
  {
    var l := Current(t, g);
    IndexesStayWellFormed(t, g);
    forall x
      ensures Get(Asset(l.assets, x).users, user) <= Asset(l.assets, x).index
      ensures Asset(l.assets, x).lastUpdateTimestamp <= l.now
    {
      assert AssetInv(Asset(l.assets, x), l.now);
    }
    ClaimIsDistinctView(l.now, t.distributionEnd, l.assets, user, stakes);
    UnclaimedIs(l.now, t.distributionEnd, l.assets, user, Distinct(stakes));
    if ClaimAll(l.now, t.distributionEnd, l.assets, user, stakes).Ok? {
      ClaimAllLeaves(l.now, t.distributionEnd, l.assets, user, stakes);
    }
  }

  /** A claim of nothing does nothing. */
  lemma ClaimOfNothing(
      t: ControllerTerms, l: Ledger, user: Address, stakes: seq<UserStakeInput>, staked: bool, accepts: bool)
    ensures EventStep(t, l, Claim(user, stakes, 0, staked, accepts)) == Ok((l, NOTHING))
  {
  }

  lemma ClaimSucceedsIff(
      t: ControllerTerms, l: Ledger, user: Address, stakes: seq<UserStakeInput>, amount: nat, staked: bool,
      accepts: bool)
    requires amount > 0 && Get(l.unclaimed, user) < UINT256
    ensures var all := ClaimAll(l.now, t.distributionEnd, l.assets, user, stakes);
      ClaimStep(t, l, user, stakes, amount, staked, accepts).Ok?
      <==> && all.Ok? && Get(l.unclaimed, user) + all.value.1 < UINT256
           && (Get(l.unclaimed, user) + all.value.1 > 0 ==>
                accepts && Payment(t, Min(amount, Get(l.unclaimed, user) + all.value.1), staked).Ok?)
  {
  }

  lemma ClaimLedger(
      t: ControllerTerms, l: Ledger, user: Address, stakes: seq<UserStakeInput>, amount: nat, staked: bool,
      accepts: bool)
    requires amount > 0 && ClaimStep(t, l, user, stakes, amount, staked, accepts).Ok?
    ensures ClaimAll(l.now, t.distributionEnd, l.assets, user, stakes).Ok?
    ensures var all := ClaimAll(l.now, t.distributionEnd, l.assets, user, stakes).value;
      var k := ClaimStep(t, l, user, stakes, amount, staked, accepts).value.0;
      var total := Get(l.unclaimed, user) + all.1;
      && k.now == l.now && k.assets == all.0
      && (forall v :: Get(k.unclaimed, v) == if v == user then total - Min(amount, total) else Get(l.unclaimed, v))
  {
  }

  lemma ClaimReceipt(
      t: ControllerTerms, l: Ledger, user: Address, stakes: seq<UserStakeInput>, amount: nat, staked: bool,
      accepts: bool)
    requires amount > 0 && ClaimStep(t, l, user, stakes, amount, staked, accepts).Ok?
    ensures ClaimAll(l.now, t.distributionEnd, l.assets, user, stakes).Ok?
    ensures var all := ClaimAll(l.now, t.distributionEnd, l.assets, user, stakes).value;
      var receipt := ClaimStep(t, l, user, stakes, amount, staked, accepts).value.1;
      var total := Get(l.unclaimed, user) + all.1;
      && receipt.accrued == all.1 && receipt.claimed == Min(amount, total)
      && (if total == 0 then receipt.paid == 0 else Payment(t, Min(amount, total), staked) == Ok(receipt.paid))
  {
  }

  /** Any other goes through exactly when the gains and their sum with what is unclaimed fit and,
      unless there is nothing to claim, the premium fits and the token accepts. It accrues the gains of the
      distinct assets, claims the smaller of the amount and what there is, pays that and, if staked,
      the premium on it rounded down, and leaves the rest unclaimed and other users alone. */
  lemma {:induction false} ClaimIs(
      t: ControllerTerms, g: Log, user: Address, stakes: seq<UserStakeInput>, amount: nat, staked: bool,
      accepts: bool)
    requires Timely(t, g) && amount > 0
    ensures var l, d := Current(t, g), Distinct(stakes);
      var pending, total := Pendings(l.now, t.distributionEnd, l.assets, user, d), Claimable(t, l, user, d);
      var claimed := if amount < total then amount else total;
      var premium := if staked then claimed * t.extraPsmReward / 100 else 0;
      var r := EventStep(t, l, Claim(user, stakes, amount, staked, accepts));
      && 0 <= pending <= total
      && (r.Ok? <==>
           && StakesFit(l.now, t.distributionEnd, l.assets, user, d) && total < UINT256
           && (total > 0 ==>
                accepts && (staked ==> claimed * t.extraPsmReward < UINT256 && claimed + premium < UINT256)))
      && (r.Ok? ==>
           var k, receipt := r.value.0, r.value.1;
           && k.now == l.now
           && receipt.accrued == pending && receipt.claimed == claimed && receipt.paid == claimed + premium
           && ClaimLeaves(l.now, t.distributionEnd, l.assets, k.assets, user, stakes)
           && (forall v :: Get(k.unclaimed, v) == if v == user then total - claimed else Get(l.unclaimed, v)))
  {
    var l := Current(t, g);
    ClaimAllIs(t, g, user, stakes);
    UnclaimedFits(t, g, user);
    ClaimSucceedsIff(t, l, user, stakes, amount, staked, accepts);
    if ClaimAll(l.now, t.distributionEnd, l.assets, user, stakes).Ok? {
      PaymentIs(t, Min(amount, Claimable(t, l, user, Distinct(stakes))), staked);
    }
    if ClaimStep(t, l, user, stakes, amount, staked, accepts).Ok? {
      ClaimLedger(t, l, user, stakes, amount, staked, accepts);
      ClaimReceipt(t, l, user, stakes, amount, staked, accepts);
    }
    assert 0 * t.extraPsmReward / 100 == 0;
  }

  /** The view over any list: what is unclaimed and what was gained by each stake. */
  lemma {:induction false} RewardsBalanceIs(t: ControllerTerms, g: Log, user: Address, stakes: seq<UserStakeInput>)
    requires Timely(t, g)
    ensures var l := Current(t, g);
      var r := RewardsBalance(t, l, user, stakes);
      && (r.Ok? <==>
           StakesFit(l.now, t.distributionEnd, l.assets, user, stakes) && Claimable(t, l, user, stakes) < UINT256)
      && (r.Ok? ==> r.value == Claimable(t, l, user, stakes))
  {
    var l := Current(t, g);
    IndexesStayWellFormed(t, g);
    forall x
      ensures Get(Asset(l.assets, x).users, user) <= Asset(l.assets, x).index
      ensures Asset(l.assets, x).lastUpdateTimestamp <= l.now
    {
      assert AssetInv(Asset(l.assets, x), l.now);
    }
    UnclaimedIs(l.now, t.distributionEnd, l.assets, user, stakes);
  }

  /** A configuration goes through exactly when the emission manager makes it and the indexes fit, and
      changes only the assets it names. */
  lemma {:induction false} ConfiguredIs(t: ControllerTerms, g: Log, sender: Address, inputs: seq<AssetConfigInput>)
    requires Timely(t, g)
    ensures var l := Current(t, g);
      var r := EventStep(t, l, Configured(sender, inputs));
      && (sender != t.emissionManager ==> r == Revert(OnlyEmissionManager))
      && (r.Ok? <==> sender == t.emissionManager && InputsFit(l.now, t.distributionEnd, l.assets, inputs))
      && (r.Ok? ==>
           && r.value.0 == l.(assets := r.value.0.assets) && r.value.1 == NOTHING
           && forall x :: Asset(r.value.0.assets, x)
                == ConfiguredAsset(l.now, t.distributionEnd, Asset(l.assets, x), inputs, x))
  {
    IndexesStayWellFormed(t, g);
    ConfigureIs(Current(t, g).now, t.distributionEnd, Current(t, g).assets, inputs);
  }

  // ---------- the contract ----------

  class Controller {
    const manager: Manager
    const extraPsmReward: nat
    var now: nat
    var usersUnclaimedRewards: map<Address, nat>

    function Model(): Ledger
      reads this, manager
    {
      Ledger(now, manager.assets, usersUnclaimedRewards)
    }

    function TermsOf(): ControllerTerms
      reads manager
    {
      ControllerTerms(manager.distributionEnd, manager.emissionManager, extraPsmReward)
    }

    constructor (manager: Manager, extraPsmReward: nat, now: nat)
      ensures this.manager == manager && this.extraPsmReward == extraPsmReward
      ensures Model() == Ledger(now, manager.assets, map[])
    {
      this.manager, this.extraPsmReward, this.now := manager, extraPsmReward, now;
      usersUnclaimedRewards := map[];
    }

    method HandleAction(sender: Address, user: Address, userBalance: nat, totalSupply: nat) returns (r: Result<()>)
      modifies this`usersUnclaimedRewards, manager`assets
      ensures r.Ok? ==>
        var step := HandleStep(TermsOf(), old(Model()), sender, user, userBalance, totalSupply);
        step.Ok? && step.value.0 == Model()
      ensures r.Revert? ==>
        HandleStep(TermsOf(), old(Model()), sender, user, userBalance, totalSupply)
        == Revert(r.reason)
    {
      var accruedRewards :- manager.UpdateUserAssetInternal(now, user, sender, userBalance, totalSupply);
      if accruedRewards != 0 {
        var sum :- Add(Get(usersUnclaimedRewards, user), accruedRewards);
        usersUnclaimedRewards := usersUnclaimedRewards[user := sum];
      }
      return Ok(());
    }

    method GetRewardsBalance(user: Address, userState: seq<UserStakeInput>) returns (r: Result<nat>)
      ensures r == RewardsBalance(TermsOf(), Model(), user, userState)
    {
      var unclaimedRewards := Get(usersUnclaimedRewards, user);
      var pending :- manager.GetUnclaimedRewards(now, user, userState);
      return Add(unclaimedRewards, pending);
    }

    /** The result is the amount paid, premium included. */
    method ClaimRewards(
        user: Address, userState: seq<UserStakeInput>, amount: nat, stake: bool, accepts: bool) returns (r: Result<nat>)
      modifies this`usersUnclaimedRewards, manager`assets
      ensures r.Ok? ==>
        var step := ClaimStep(TermsOf(), old(Model()), user, userState, amount, stake, accepts);
        step.Ok? && step.value.0 == Model() && step.value.1.paid == r.value
      ensures r.Revert? ==>
        ClaimStep(TermsOf(), old(Model()), user, userState, amount, stake, accepts)
        == Revert(r.reason)
    {
      if amount == 0 {
        return Ok(0);
      }
      var unclaimedRewards := Get(usersUnclaimedRewards, user);
      var accruedRewards :- manager.ClaimRewards(now, user, userState);
      if accruedRewards != 0 {
        unclaimedRewards :- Add(unclaimedRewards, accruedRewards);
      }
      if unclaimedRewards == 0 {
        return Ok(0);
      }
      var amountToClaim := if amount > unclaimedRewards then unclaimedRewards else amount;
      usersUnclaimedRewards := usersUnclaimedRewards[user := unclaimedRewards - amountToClaim];
      if stake {
        var scaled :- Mul(amountToClaim, extraPsmReward);
        amountToClaim :- Add(amountToClaim, scaled / 100);
      }
      var _ :- Require(accepts, PaymentFailed);
      return Ok(amountToClaim);
    }
  }
}
