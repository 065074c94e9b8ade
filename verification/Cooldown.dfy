/** When staked tokens may be withdrawn, and what happens to that when tokens arrive. */
module Cooldown {
  import opened Arithmetic
  import opened Evm

  datatype Terms = Terms(cooldownSeconds: nat, unstakeWindow: nat)

  /** The two conditions a redemption puts on the start of the cooldown. */
  function RedeemWindow(t: Terms, now: nat, start: nat): Result<()> {
    var ready :- Add(start, t.cooldownSeconds);
    var _ :- Require(now > ready, InsufficientCooldown);
    Require(now - ready <= t.unstakeWindow, UnstakeWindowFinished)
  }

  /** The recipient's cooldown after tokens arrive. */
  function GetNextCooldownTimestamp(
    t: Terms, now: nat, fromCooldownTimestamp: nat, amountToReceive: nat, toCooldownTimestamp: nat,
      toBalance: nat): Result<nat>
  {
    if toCooldownTimestamp == 0 then Ok(0)
    else
      var cooled :- Sub(now, t.cooldownSeconds);
      var minimalValidCooldownTimestamp :- Sub(cooled, t.unstakeWindow);
      if minimalValidCooldownTimestamp > toCooldownTimestamp then Ok(0)
      else
        var from := if minimalValidCooldownTimestamp > fromCooldownTimestamp then now else fromCooldownTimestamp;
        if from < toCooldownTimestamp then Ok(toCooldownTimestamp)
        else
          var received :- Mul(amountToReceive, from);
          var held :- Mul(toBalance, toCooldownTimestamp);
          var weighted :- Add(received, held);
          var total :- Add(amountToReceive, toBalance);
          Div(weighted, total)
  }

  ghost predicate Expired(t: Terms, now: nat, start: nat) {
    start + t.cooldownSeconds + t.unstakeWindow < now
  }

  /** The time a received token counts as having waited since. */
  ghost function Effective(t: Terms, now: nat, from: nat): nat {
    if Expired(t, now, from) then now else from
  }

  /** When a started cooldown lets its owner out: after the period, and not later than the window
      after it; and the reasons on either side. */
  lemma RedeemWindowIff(t: Terms, now: nat, start: nat)
    requires now < UINT256
    ensures RedeemWindow(t, now, start).Ok?
       <==> start + t.cooldownSeconds < now <= start + t.cooldownSeconds + t.unstakeWindow
    ensures RedeemWindow(t, now, start) == Revert(InsufficientCooldown)
       <==> now <= start + t.cooldownSeconds < UINT256
    ensures RedeemWindow(t, now, start) == Revert(UnstakeWindowFinished)
       <==> start + t.cooldownSeconds + t.unstakeWindow < now
    ensures RedeemWindow(t, now, start) == Revert(Overflow) <==> UINT256 <= start + t.cooldownSeconds
  {
  }

  /** The weighted average of two times, rounded down, lies between them and is less than
      one below the exact average. */
  lemma Average(a: nat, e: nat, b: nat, t: nat)
    requires t <= e && a + b > 0
    ensures var avg := (a * e + b * t) / (a + b);
      && t <= avg <= e
      && (a + b) * avg <= a * e + b * t < (a + b) * (avg + 1)
  {
    var w, n := a * e + b * t, a + b;
    var avg := w / n;
    DivBounds(w, n);
    Distribute(n, avg, 1);
    Mixed(a, e, b, t);
    Distribute(n, e, 1);
    Cancel(n, t, avg + 1);
    Cancel(n, avg, e + 1);
  }

  lemma Mixed(a: nat, e: nat, b: nat, t: nat)
    requires t <= e
    ensures (a + b) * t <= a * e + b * t <= (a + b) * e
  {
    MulLe(a, t, e);
    MulLe(b, t, e);
  }

  lemma KeptIsAboveAverage(a: nat, e: nat, b: nat, t: nat)
    requires e < t && a + b > 0
    ensures (a + b) * (t + 1) > a * e + b * t
  {
    assert (a + b) * (t + 1) == a * t + b * t + a + b;
    assert a * e <= a * t;
  }

  /** Merging creates no seniority. With a running cooldown `to` on `toBalance` tokens, tokens
      whose own time counts from `e` move the cooldown forward, never past now, and never
      below the average of the two times, up to rounding. */
  lemma MergeCreatesNoSeniority(t: Terms, now: nat, from: nat, amount: nat, to: nat, toBalance: nat)
    requires from <= now && 0 < to <= now && toBalance > 0
    requires !Expired(t, now, to)
    requires GetNextCooldownTimestamp(t, now, from, amount, to, toBalance).Ok?
    ensures var next := GetNextCooldownTimestamp(t, now, from, amount, to, toBalance).value;
      && to <= next <= now
      && (amount + toBalance) * (next + 1) > amount * Effective(t, now, from) + toBalance * to
  {
    var e := Effective(t, now, from);
    if e < to {
      KeptIsAboveAverage(amount, e, toBalance, to);
    } else {
      Average(amount, e, toBalance, to);
    }
  }

  /** What a merge of `amount` tokens counting from `from` makes of a cooldown `to` on `toBalance`
      tokens: nothing if there is none or it is too old; the cooldown itself if the tokens count from
      an earlier time; and otherwise the weighted average of both times, rounded down. */
  ghost predicate Merged(t: Terms, now: nat, from: nat, amount: nat, to: nat, toBalance: nat, next: nat) {
    if to == 0 || Expired(t, now, to) then next == 0
    else if Effective(t, now, from) < to then next == to
    else
      var weighted := amount * Effective(t, now, from) + toBalance * to;
      (amount + toBalance) * next <= weighted < (amount + toBalance) * (next + 1)
  }

  lemma MergeIsAverage(t: Terms, now: nat, from: nat, amount: nat, to: nat, toBalance: nat)
    requires from <= now && to <= now && (to != 0 ==> toBalance > 0)
    requires GetNextCooldownTimestamp(t, now, from, amount, to, toBalance).Ok?
    ensures var next := GetNextCooldownTimestamp(t, now, from, amount, to, toBalance).value;
      Merged(t, now, from, amount, to, toBalance, next)
  {
    if to != 0 && !Expired(t, now, to) && to <= Effective(t, now, from) {
      Average(amount, Effective(t, now, from), toBalance, to);
    }
  }

  /** Only one time is the merged one. */
  lemma MergedIsUnique(t: Terms, now: nat, from: nat, amount: nat, to: nat, toBalance: nat, x: nat, y: nat)
    requires to != 0 ==> toBalance > 0
    requires Merged(t, now, from, amount, to, toBalance, x) && Merged(t, now, from, amount, to, toBalance, y)
    ensures x == y
  {
    if to != 0 && !Expired(t, now, to) && to <= Effective(t, now, from) {
      Cancel(amount + toBalance, x, y + 1);
      Cancel(amount + toBalance, y, x + 1);
    }
  }

  /** The next cooldown is zero exactly when there was none or `redeem` would already refuse it
      as too old. */
  lemma ExpiredAgreesWithRedeem(t: Terms, now: nat, from: nat, amount: nat, to: nat, toBalance: nat)
    requires now < UINT256
    requires from <= now && to <= now && (to != 0 ==> toBalance > 0)
    ensures GetNextCooldownTimestamp(t, now, from, amount, to, toBalance) == Ok(0)
       <==> (to == 0 || RedeemWindow(t, now, to) == Revert(UnstakeWindowFinished))
    ensures RedeemWindow(t, now, 0) == Revert(UnstakeWindowFinished) <==> t.cooldownSeconds + t.unstakeWindow < now
    ensures RedeemWindow(t, now, 0).Ok? <==> t.cooldownSeconds < now <= t.cooldownSeconds + t.unstakeWindow
    ensures Expired(t, now, to) <==> RedeemWindow(t, now, to) == Revert(UnstakeWindowFinished)
  {
    if to != 0 && !Expired(t, now, to) && GetNextCooldownTimestamp(t, now, from, amount, to, toBalance).Ok? {
      MergeCreatesNoSeniority(t, now, from, amount, to, toBalance);
    }
  }

  /** Whatever arrives, a cooldown is cleared or kept or moved towards now; none is started. */
  lemma NextNeverEarlier(t: Terms, now: nat, from: nat, amount: nat, to: nat, toBalance: nat)
    requires from <= now && to <= now && (to != 0 ==> toBalance > 0)
    requires GetNextCooldownTimestamp(t, now, from, amount, to, toBalance).Ok?
    ensures var next := GetNextCooldownTimestamp(t, now, from, amount, to, toBalance).value;
      next == 0 || (to != 0 && to <= next <= now)
  {
    if to != 0 && !Expired(t, now, to) {
      MergeCreatesNoSeniority(t, now, from, amount, to, toBalance);
    }
  }

  // ---------- staking in pieces ----------

  function SumOf(amounts: seq<nat>): nat {
    if amounts == [] then 0 else SumOf(amounts[..|amounts| - 1]) + amounts[|amounts| - 1]
  }

  /** The cooldown after staking the amounts one after the other at the same time. */
  function InPieces(t: Terms, now: nat, to: nat, balance: nat, amounts: seq<nat>): Result<nat> {
    if amounts == [] then Ok(to)
    else
      var prefix := amounts[..|amounts| - 1];
      var before :- InPieces(t, now, to, balance, prefix);
      GetNextCooldownTimestamp(t, now, 0, amounts[|amounts| - 1], before, balance + SumOf(prefix))
  }

  /** The time still missing to now, weighted by the balance, after k merges: what it was,
      or up to one second less a token more for each merge. */
  ghost predicate Missing(b: nat, d: nat, k: nat, b': nat, d': nat) {
    b * d <= b' * d' <= b * d + k * (b' - 1)
  }

  lemma MissingOf(amount: nat, b: nat, now: nat, to: nat, next: nat)
    requires to <= now && next <= now
    requires (amount + b) * next <= amount * now + b * to < (amount + b) * (next + 1)
    ensures b * (now - to) <= (amount + b) * (now - next) < b * (now - to) + (amount + b)
  {
    var n := amount + b;
    Distribute(n, next, now - next);
    Distribute(n, next, 1);
    Distribute(b, to, now - to);
    Distribute(now, amount, b);
  }

  lemma StakeMissing(t: Terms, now: nat, amount: nat, to: nat, b: nat)
    requires t.cooldownSeconds + t.unstakeWindow < now
    requires 0 < to <= now && b > 0 && !Expired(t, now, to)
    requires GetNextCooldownTimestamp(t, now, 0, amount, to, b).Ok?
    ensures var next := GetNextCooldownTimestamp(t, now, 0, amount, to, b).value;
      to <= next <= now && Missing(b, now - to, 1, amount + b, now - next)
  {
    Average(amount, now, b, to);
    MissingOf(amount, b, now, to, GetNextCooldownTimestamp(t, now, 0, amount, to, b).value);
  }

  lemma MissingStep(b: nat, d: nat, k: nat, b1: nat, d1: nat, b2: nat, d2: nat)
    requires Missing(b, d, k, b1, d1) && Missing(b1, d1, 1, b2, d2) && 0 < b1 <= b2
    ensures Missing(b, d, k + 1, b2, d2)
  {
    assert k * (b1 - 1) <= k * (b2 - 1);
    assert (k + 1) * (b2 - 1) == k * (b2 - 1) + (b2 - 1);
  }

  lemma {:induction false} PiecesMissing(t: Terms, now: nat, to: nat, b: nat, amounts: seq<nat>)
    requires t.cooldownSeconds + t.unstakeWindow < now
    requires 0 < to <= now && b > 0 && !Expired(t, now, to)
    requires InPieces(t, now, to, b, amounts).Ok?
    ensures var next := InPieces(t, now, to, b, amounts).value;
      to <= next <= now && Missing(b, now - to, |amounts|, b + SumOf(amounts), now - next)
  {
    if amounts == [] {
    } else {
      var prefix, a := amounts[..|amounts| - 1], amounts[|amounts| - 1];
      PiecesMissing(t, now, to, b, prefix);
      var mid := InPieces(t, now, to, b, prefix).value;
      StakeMissing(t, now, a, mid, b + SumOf(prefix));
      MissingStep(b, now - to, |prefix|, b + SumOf(prefix), now - mid,
        b + SumOf(amounts), now - InPieces(t, now, to, b, amounts).value);
    }
  }

  lemma CompareMissing(b: nat, d: nat, k: nat, n: nat, dk: nat, d1: nat)
    requires n > 0 && k > 0
    requires Missing(b, d, k, n, dk) && Missing(b, d, 1, n, d1)
    ensures d1 <= dk <= d1 + k - 1
  {
    Distribute(n, dk, 1);
    Cancel(n, d1, dk + 1);
    Distribute(n, d1, k);
    Distribute(k, n, -1);
    Cancel(n, dk, d1 + k);
  }

  lemma {:induction false} PiecesOfNothing(t: Terms, now: nat, to: nat, b: nat, amounts: seq<nat>)
    requires t.cooldownSeconds + t.unstakeWindow < now
    requires to == 0 || Expired(t, now, to)
    requires amounts != []
    ensures InPieces(t, now, to, b, amounts) == Ok(0)
  {
    if |amounts| == 1 {
    } else {
      PiecesOfNothing(t, now, to, b, amounts[..|amounts| - 1]);
    }
  }

  lemma {:induction false} PiecesWhileYoung(t: Terms, now: nat, to: nat, b: nat, amounts: seq<nat>)
    requires now <= t.cooldownSeconds + t.unstakeWindow
    requires InPieces(t, now, to, b, amounts).Ok?
    ensures InPieces(t, now, to, b, amounts) == Ok(to)
  {
    if amounts == [] {
    } else {
      PiecesWhileYoung(t, now, to, b, amounts[..|amounts| - 1]);
    }
  }

  /** Staking an amount in k pieces gives a cooldown no later than staking it at once, and
      less than k seconds earlier. */
  lemma {:induction false} SplittingBuysNoTime(t: Terms, now: nat, to: nat, b: nat, amounts: seq<nat>)
    requires to <= now && (to != 0 ==> b > 0)
    requires amounts != []
    requires InPieces(t, now, to, b, amounts).Ok?
    requires GetNextCooldownTimestamp(t, now, 0, SumOf(amounts), to, b).Ok?
    ensures var pieces := InPieces(t, now, to, b, amounts).value;
      var whole := GetNextCooldownTimestamp(t, now, 0, SumOf(amounts), to, b).value;
      pieces <= whole <= pieces + (|amounts| - 1)
  {
    if now <= t.cooldownSeconds + t.unstakeWindow {
      PiecesWhileYoung(t, now, to, b, amounts);
    } else if to == 0 || Expired(t, now, to) {
      PiecesOfNothing(t, now, to, b, amounts);
    } else {
      PiecesMissing(t, now, to, b, amounts);
      StakeMissing(t, now, SumOf(amounts), to, b);
      CompareMissing(b, now - to, |amounts|, b + SumOf(amounts),
        now - InPieces(t, now, to, b, amounts).value,
        now - GetNextCooldownTimestamp(t, now, 0, SumOf(amounts), to, b).value);
    }
  }
}
