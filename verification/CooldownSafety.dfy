/** Withdrawal safety over whole runs: nobody redeems without having announced it, and what
    others do can only delay or cancel an announcement. */
module CooldownSafety {
  import opened Evm
  import opened Sums
  import opened Cooldown
  import opened Delegation
  import opened StakedToken
  import opened Bookkeeping
  import opened Governance

  datatype Call = Never | At(time: nat)

  /** When `u` last called `cooldown` with success. */
  function LastCooldown(cfg: Config, r: Run, u: Address): Call {
    match r
    case Deploy(_, _, _) => Never
    case After(prior, a) =>
      var s := Final(cfg, prior);
      if a == StartCooldown(u) && Step(cfg, s, a).Ok? then At(s.now) else LastCooldown(cfg, prior, u)
  }

  lemma StakeDelays(cfg: Config, s: State, w: Address, amount: nat, accepts: bool, u: Address)
    requires Books(cfg, s) && StakeStep(cfg, s, w, amount, accepts).Ok?
    ensures var c, d := Get(s.stakersCooldowns, u),
      Get(StakeStep(cfg, s, w, amount, accepts).value.stakersCooldowns, u);
      d == 0 || (c != 0 && c <= d <= s.now)
  {
    StakeParts(cfg, s, w, amount, accepts);
    var t := StakeStep(cfg, s, w, amount, accepts).value;
    if u == w {
      NextNeverEarlier(s.impl.terms, s.now, 0, amount, Get(s.stakersCooldowns, w), Get(s.balances, w));
      assert Get(t.stakersCooldowns, u) == t.stakersCooldowns[w];
    } else {
      assert Get(t.stakersCooldowns, u) == Get(s.stakersCooldowns, u);
    }
  }

  lemma MergedCooldownDelays(cfg: Config, s: State, from: Address, to: Address, amount: nat, u: Address)
    requires Books(cfg, s) && CooldownsAfterTransfer(s, from, to, amount).Ok?
    ensures var c, d := Get(s.stakersCooldowns, u), Get(CooldownsAfterTransfer(s, from, to, amount).value, u);
      d == 0 || (c != 0 && c <= d <= s.now)
  {
    if from != to {
      NextNeverEarlier(s.impl.terms, s.now, Get(s.stakersCooldowns, from), amount, Get(s.stakersCooldowns, to),
        Get(s.balances, to));
    }
  }

  lemma TransferDelays(cfg: Config, s: State, from: Address, to: Address, amount: nat, u: Address)
    requires Books(cfg, s) && TransferStep(cfg, s, from, to, amount).Ok?
    ensures var c, d := Get(s.stakersCooldowns, u),
      Get(TransferStep(cfg, s, from, to, amount).value.stakersCooldowns, u);
      d == 0 || (c != 0 && c <= d <= s.now)
  {
    TransferParts(cfg, s, from, to, amount);
    MergedCooldownDelays(cfg, s, from, to, amount, u);
  }

  lemma RedeemClears(cfg: Config, s: State, w: Address, to: Address, amount: nat, accepts: bool, u: Address)
    requires Books(cfg, s) && RedeemStep(cfg, s, w, to, amount, accepts).Ok?
    ensures var c, d := Get(s.stakersCooldowns, u),
      Get(RedeemStep(cfg, s, w, to, amount, accepts).value.stakersCooldowns, u);
      d == 0 || d == c
  {
    RedeemParts(cfg, s, w, to, amount, accepts);
  }

  /** No action but u's own `cooldown` starts u's cooldown or moves it back: each one leaves it
      zero, or, if it was running, between its old value and now. */
  lemma {:induction false} OthersOnlyDelay(cfg: Config, r: Run, a: Action, u: Address)
    requires Feasible(cfg, After(r, a)) && a != StartCooldown(u)
    ensures var c, d := Get(Final(cfg, r).stakersCooldowns, u), Get(Final(cfg, After(r, a)).stakersCooldowns, u);
      d == 0 || (c != 0 && c <= d <= Final(cfg, r).now)
  {
    BooksHold(cfg, r);
    var s := Final(cfg, r);
    if Step(cfg, s, a).Ok? {
      match a
      case Stake(w, amount, accepts) => StakeDelays(cfg, s, w, amount, accepts, u);
      case Redeem(w, to, amount, accepts) => RedeemClears(cfg, s, w, to, amount, accepts, u);
      case Transfer(from, to, amount) => TransferDelays(cfg, s, from, to, amount, u);
      case ClaimRewards(w, _, amount, accepts) => ClaimParts(cfg, s, w, amount, accepts);
      case StartCooldown(_) =>
      case _ => AdministrativeParts(cfg, s, a);
    }
  }

  /** A running cooldown was started by its owner, and does not lie before that call. */
  lemma {:induction false} CooldownWasCalled(cfg: Config, r: Run, u: Address)
    requires Feasible(cfg, r)
    ensures var c := Get(Final(cfg, r).stakersCooldowns, u);
      c != 0 ==> LastCooldown(cfg, r, u).At? && LastCooldown(cfg, r, u).time <= c
  {
    if r.Deploy? {
    } else {
      CooldownWasCalled(cfg, r.prior, u);
      if r.act != StartCooldown(u) {
        OthersOnlyDelay(cfg, r.prior, r.act, u);
      }
    }
  }

  /** `u` called `cooldown`, and more than the cooldown period has passed since its latest such call. */
  ghost predicate Announced(cfg: Config, r: Run, s: State, u: Address) {
    LastCooldown(cfg, r, u).At? && s.now > LastCooldown(cfg, r, u).time + s.impl.terms.cooldownSeconds
  }

  /** Where the clock refuses who has no cooldown: whenever u redeems, u called `cooldown` before,
      and more than the cooldown period has passed since its latest such call. */
  lemma {:induction false} RedeemWasAnnounced(cfg: Config, r: Run, u: Address, to: Address, amount: nat, accepts: bool)
    requires Feasible(cfg, r)
    ensures RefusesUnannounced(Final(cfg, r)) && RedeemStep(cfg, Final(cfg, r), u, to, amount, accepts).Ok?
        ==> Announced(cfg, r, Final(cfg, r), u)
  {
    if RefusesUnannounced(Final(cfg, r)) && RedeemStep(cfg, Final(cfg, r), u, to, amount, accepts).Ok? {
      BooksHold(cfg, r);
      RedeemParts(cfg, Final(cfg, r), u, to, amount, accepts);
      RedeemWindowIff(Final(cfg, r).impl.terms, Final(cfg, r).now, Get(Final(cfg, r).stakersCooldowns, u));
      CooldownWasCalled(cfg, r, u);
    }
  }

  // ---------- staking in pieces ----------

  /** The run with one stake for each amount, on behalf of `u`. */
  function StakedInPieces(r: Run, u: Address, amounts: seq<nat>): Run {
    if amounts == [] then r
    else After(StakedInPieces(r, u, amounts[..|amounts| - 1]), Stake(u, amounts[|amounts| - 1], true))
  }

  ghost predicate AllAccepted(cfg: Config, r: Run, u: Address, amounts: seq<nat>) {
    amounts == [] ||
      var prefix := amounts[..|amounts| - 1];
      && AllAccepted(cfg, r, u, prefix)
      && Step(cfg, Final(cfg, StakedInPieces(r, u, prefix)), Stake(u, amounts[|amounts| - 1], true)).Ok?
  }

  lemma StakeEffect(cfg: Config, s: State, u: Address, amount: nat)
    requires StakeStep(cfg, s, u, amount, true).Ok?
    ensures var t := StakeStep(cfg, s, u, amount, true).value;
      && SameEnvironment(s, t) && Get(t.balances, u) == Get(s.balances, u) + amount
      && GetNextCooldownTimestamp(s.impl.terms, s.now, 0, amount, Get(s.stakersCooldowns, u), Get(s.balances, u))
        == Ok(Get(t.stakersCooldowns, u))
  {
    StakeParts(cfg, s, u, amount, true);
    ShiftedBalance(s.balances, ZERO, u, amount, u);
  }

  lemma {:induction false} LastPiece(cfg: Config, r: Run, u: Address, amounts: seq<nat>)
    requires amounts != []
    ensures var prefix, a := amounts[..|amounts| - 1], amounts[|amounts| - 1];
      var mid := Final(cfg, StakedInPieces(r, u, prefix));
      AllAccepted(cfg, r, u, amounts) ==>
        && AllAccepted(cfg, r, u, prefix)
        && StakeStep(cfg, mid, u, a, true).Ok?
        && Final(cfg, StakedInPieces(r, u, amounts)) == StakeStep(cfg, mid, u, a, true).value
  {
  }

  /** The state `t` is `s` after the pieces, as far as the cooldown of `u` goes. */
  ghost predicate PiecesStaked(s: State, t: State, u: Address, amounts: seq<nat>) {
    && SameEnvironment(s, t)
    && Get(t.balances, u) == Get(s.balances, u) + SumOf(amounts)
    && InPieces(s.impl.terms, s.now, Get(s.stakersCooldowns, u), Get(s.balances, u), amounts)
      == Ok(Get(t.stakersCooldowns, u))
  }

  lemma {:induction false} PieceStaked(cfg: Config, s: State, mid: State, u: Address, amounts: seq<nat>)
    requires amounts != [] && PiecesStaked(s, mid, u, amounts[..|amounts| - 1])
    requires StakeStep(cfg, mid, u, amounts[|amounts| - 1], true).Ok?
    ensures PiecesStaked(s, StakeStep(cfg, mid, u, amounts[|amounts| - 1], true).value, u, amounts)
  {
    StakeEffect(cfg, mid, u, amounts[|amounts| - 1]);
  }

  lemma {:induction false} PiecesAreStakes(cfg: Config, r: Run, u: Address, amounts: seq<nat>)
    requires AllAccepted(cfg, r, u, amounts)
    ensures PiecesStaked(Final(cfg, r), Final(cfg, StakedInPieces(r, u, amounts)), u, amounts)
  {
    if amounts == [] {
    } else {
      var prefix := amounts[..|amounts| - 1];
      LastPiece(cfg, r, u, amounts);
      PiecesAreStakes(cfg, r, u, prefix);
      PieceStaked(cfg, Final(cfg, r), Final(cfg, StakedInPieces(r, u, prefix)), u, amounts);
    }
  }

  /** In every state of every run: stakes in k pieces leave a cooldown no later than one stake of
      the whole amount would, and less than k seconds earlier. */
  lemma {:induction false} StakingInPiecesBuysNoTime(cfg: Config, r: Run, u: Address, amounts: seq<nat>)
    requires Feasible(cfg, r) && amounts != []
    ensures AllAccepted(cfg, r, u, amounts) && StakeStep(cfg, Final(cfg, r), u, SumOf(amounts), true).Ok? ==>
      var pieces := Get(Final(cfg, StakedInPieces(r, u, amounts)).stakersCooldowns, u);
      var whole := Get(Final(cfg, After(r, Stake(u, SumOf(amounts), true))).stakersCooldowns, u);
      pieces <= whole <= pieces + (|amounts| - 1)
  {
    var s := Final(cfg, r);
    if AllAccepted(cfg, r, u, amounts) && StakeStep(cfg, s, u, SumOf(amounts), true).Ok? {
      BooksHold(cfg, r);
      PiecesAreStakes(cfg, r, u, amounts);
      StakeEffect(cfg, s, u, SumOf(amounts));
      SplittingBuysNoTime(s.impl.terms, s.now, Get(s.stakersCooldowns, u), Get(s.balances, u), amounts);
    }
  }

  // ---------- what an honest holder can count on ----------

  /** A hook on tokens that the sender owns, or that are new and exist, never fails. */
  lemma HookSucceeds(cfg: Config, s: State, from: Address, to: Address, amount: nat)
    requires Books(cfg, s) && GovInv(s)
    requires if from == ZERO then s.totalSupply + amount < UINT128 else amount <= Get(s.balances, from)
    ensures BeforeTokenTransfer(s, from, to, amount).Ok?
  {
    TotalShift(s.balances, from, to, amount);
    if s.impl.hasDelegation {
      MoveKeeps(s.balances, s.voting, s.block, from, to, amount);
      MoveKeeps(s.balances, s.proposition, s.block, from, to, amount);
    } else {
      RecordBalancesIsMove(s.balances, s.voting, s.block, from, to, amount);
      MoveKeeps(s.balances, s.voting, s.block, from, to, amount);
    }
  }

  lemma BurnSucceeds(cfg: Config, s: State, s1: State, u: Address, out: nat)
    requires Books(cfg, s) && GovInv(s) && u != ZERO && out <= Get(s.balances, u)
    requires SameEnvironment(s, s1) && SameTokens(s, s1) && SamePower(s, s1)
    ensures Burn(s1, u, out).Ok?
  {
    HookSucceeds(cfg, s, u, ZERO, out);
    TotalAtLeast(s.balances, u);
    assert BeforeTokenTransfer(s1, u, ZERO, out) == BeforeTokenTransfer(s, u, ZERO, out);
  }

  lemma RedeemSucceeds(cfg: Config, s: State, u: Address, to: Address, amount: nat)
    requires Books(cfg, s) && GovInv(s) && u != ZERO && amount != 0
    requires RedeemWindow(s.impl.terms, s.now, Get(s.stakersCooldowns, u)).Ok?
    requires UpdateCurrentUnclaimedRewards(cfg, s, u, true).Ok?
    ensures RedeemStep(cfg, s, u, to, amount, true).Ok?
  {
    var out, s1 := Min(amount, Get(s.balances, u)), UpdateCurrentUnclaimedRewards(cfg, s, u, true).value.0;
    UpdateIsAccrue(cfg, s, u);
    AccrueParts(cfg, s, u);
    BurnSucceeds(cfg, s, s1, u, out);
    BurnParts(s1, u, out);
    TotalAtLeast(s.balances, u);
  }

  /** Once the window is open, a redemption needs nothing but a nonzero amount, the token's
      consent and the update of the rewards: no record, cooldown, balance or backing stops it. */
  lemma {:induction false} RedeemNeedsUpdate(cfg: Config, r: Run, u: Address, to: Address, amount: nat, accepts: bool)
    requires Feasible(cfg, r) && u != ZERO
    ensures var s := Final(cfg, r);
      Step(cfg, s, Redeem(u, to, amount, accepts)).Ok?
      <==> && amount != 0
           && RedeemWindow(s.impl.terms, s.now, Get(s.stakersCooldowns, u)).Ok?
           && UpdateCurrentUnclaimedRewards(cfg, s, u, true).Ok?
           && accepts
  {
    PowersAlwaysExact(cfg, r);
    var s := Final(cfg, r);
    if && amount != 0 && accepts
       && RedeemWindow(s.impl.terms, s.now, Get(s.stakersCooldowns, u)).Ok?
       && UpdateCurrentUnclaimedRewards(cfg, s, u, true).Ok?
    {
      RedeemSucceeds(cfg, s, u, to, amount);
    }
  }

  lemma TwoBalances(b: Balances, from: Address, to: Address)
    requires from != to && from != ZERO && to != ZERO
    ensures Get(b, from) + Get(b, to) <= Total(b)
  {
    TotalShift(b, from, to, Get(b, from));
    ShiftedBalance(b, from, to, Get(b, from), to);
    TotalAtLeast(Shift(b, from, to, Get(b, from)), to);
  }

  lemma MoveSucceeds(cfg: Config, s: State, s1: State, from: Address, to: Address, amount: nat)
    requires Books(cfg, s) && GovInv(s) && from != ZERO && to != ZERO && amount <= Get(s.balances, from)
    requires SameEnvironment(s, s1) && SameTokens(s, s1) && SamePower(s, s1)
    ensures MoveTokens(s1, from, to, amount).Ok?
  {
    HookSucceeds(cfg, s, from, to, amount);
    assert BeforeTokenTransfer(s1, from, to, amount) == BeforeTokenTransfer(s, from, to, amount);
    TotalAtLeast(s.balances, from);
    if from != to {
      TwoBalances(s.balances, from, to);
    }
  }

  /** The two reward updates of a transfer. */
  ghost predicate RewardsUpdatable(cfg: Config, s: State, from: Address, to: Address) {
    var r := UpdateCurrentUnclaimedRewards(cfg, s, from, true);
    r.Ok? && (from != to ==> UpdateCurrentUnclaimedRewards(cfg, r.value.0, to, true).Ok?)
  }

  lemma TransferSucceeds(cfg: Config, s: State, from: Address, to: Address, amount: nat)
    requires Books(cfg, s) && GovInv(s) && from != ZERO && to != ZERO && from != to && amount <= Get(s.balances, from)
    requires ClockAllows(s, to) && RewardsUpdatable(cfg, s, from, to)
    ensures TransferStep(cfg, s, from, to, amount).Ok?
  {
    UpdateIsAccrue(cfg, s, from);
    AccrueParts(cfg, s, from);
    var s1 := Accrue(cfg, s, from).value;
    UpdateIsAccrue(cfg, s1, to);
    AccrueParts(cfg, s1, to);
    var s2 := Accrue(cfg, s1, to).value;
    TwoBalances(s.balances, from, to);
    AverageSucceedsIff(cfg, s, Get(s.stakersCooldowns, from), amount, to);
    MoveSucceeds(cfg, s, s2.(stakersCooldowns := CooldownsAfterTransfer(s, from, to, amount).value), from, to, amount);
  }

  lemma SelfTransferSucceeds(cfg: Config, s: State, u: Address, amount: nat)
    requires Books(cfg, s) && GovInv(s) && u != ZERO && amount <= Get(s.balances, u)
    requires RewardsUpdatable(cfg, s, u, u)
    ensures TransferStep(cfg, s, u, u, amount).Ok?
  {
    UpdateIsAccrue(cfg, s, u);
    AccrueParts(cfg, s, u);
    MoveSucceeds(cfg, s, Accrue(cfg, s, u).value, u, u, amount);
  }

  lemma TransferNeeds(cfg: Config, s: State, from: Address, to: Address, amount: nat)
    requires TransferStep(cfg, s, from, to, amount).Ok?
    ensures from != ZERO && to != ZERO && amount <= Get(s.balances, from) && RewardsUpdatable(cfg, s, from, to)
    ensures from == to || ClockAllows(s, to)
  {
    TransferParts(cfg, s, from, to, amount);
  }

  /** A transfer needs both ends, the balance, the update of the rewards and, into a running
      cooldown, a clock that allows it. */
  ghost predicate Transferable(cfg: Config, s: State, from: Address, to: Address, amount: nat) {
    && from != ZERO && to != ZERO && amount <= Get(s.balances, from)
    && (from == to || ClockAllows(s, to))
    && RewardsUpdatable(cfg, s, from, to)
  }

  /** And nothing else. */
  lemma {:induction false} TransferNeedsUpdates(cfg: Config, r: Run, from: Address, to: Address, amount: nat)
    requires Feasible(cfg, r)
    ensures TransferStep(cfg, Final(cfg, r), from, to, amount).Ok?
       <==> Transferable(cfg, Final(cfg, r), from, to, amount)
  {
    PowersAlwaysExact(cfg, r);
    var s := Final(cfg, r);
    if TransferStep(cfg, s, from, to, amount).Ok? {
      TransferNeeds(cfg, s, from, to, amount);
    } else if Transferable(cfg, s, from, to, amount) {
      if from == to {
        SelfTransferSucceeds(cfg, s, from, amount);
      } else {
        TransferSucceeds(cfg, s, from, to, amount);
      }
    }
  }
}
