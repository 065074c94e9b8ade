/** The rewind of the distribution at the upgrade to the third revision: which seconds it makes
    payable, and exactly when no second is paid for twice, or emitted twice. */
module Rewind {
  import opened Evm
  import opened StakedToken
  import opened Bookkeeping
  import opened Rewards
  import opened Solvency
  import opened IndexUpdates

  // ---------- initializers run once ----------

  lemma RevisionStep(cfg: Config, s: State, a: Action)
    ensures s.lastInitializedRevision <= Apply(cfg, s, a).lastInitializedRevision
  {
    if Step(cfg, s, a).Ok? && !a.NextBlock? && !a.Upgrade? {
      EnvironmentStep(cfg, s, a);
    } else if Step(cfg, s, a).Ok? && a.Upgrade? {
      UpgradeParts(cfg, s, a.impl);
    }
  }

  /** Once an initializer has run, neither it nor one of an earlier revision runs again. */
  lemma {:induction false} InitializersRunOnce(
      cfg: Config, r: Run, later: Run, impl: Implementation, again: Implementation)
    requires Step(cfg, Final(cfg, r), Upgrade(impl)).Ok?
    requires Continues(After(r, Upgrade(impl)), later)
    requires again.revision <= impl.revision
    ensures impl.revision <= Final(cfg, later).lastInitializedRevision
    ensures Step(cfg, Final(cfg, later), Upgrade(again)) == Revert(AlreadyInitialized)
    decreases later
  {
    if later == After(r, Upgrade(impl)) {
      UpgradeParts(cfg, Final(cfg, r), impl);
    } else {
      InitializersRunOnce(cfg, r, later.prior, impl, again);
      RevisionStep(cfg, Final(cfg, later.prior), later.act);
    }
  }

  // ---------- at most once ----------

  /** The end of the latest second before `hi` that the run covers, or pays for; or 0. */
  ghost function LatestBelow(cfg: Config, c: Count, r: Run, hi: nat): nat {
    match r
    case Deploy(_, _, _) => 0
    case After(prior, a) =>
      var s, latest := Final(cfg, prior), LatestBelow(cfg, c, prior, hi);
      var end := Min(Min(s.now, s.impl.distributionEnd), hi);
      if Counts(cfg, c, s, a) && LastUpdate(cfg, s) < end && latest < end then end else latest
  }

  lemma {:induction false} CountedIsBelow(cfg: Config, c: Count, r: Run, hi: nat, x: nat)
    requires Times(cfg, c, r, x) > 0 && x < hi
    ensures x < LatestBelow(cfg, c, r, hi)
  {
    PayableIs(cfg, Final(cfg, r.prior), x);
    if Times(cfg, c, r.prior, x) > 0 {
      CountedIsBelow(cfg, c, r.prior, hi, x);
    }
  }

  lemma CountsLast(cfg: Config, c: Count, s: State, a: Action, hi: nat)
    requires Counts(cfg, c, s, a) && LastUpdate(cfg, s) < Min(Min(s.now, s.impl.distributionEnd), hi)
    ensures CountsSecond(cfg, c, s, a, Min(Min(s.now, s.impl.distributionEnd), hi) - 1)
  {
    PayableIs(cfg, s, Min(Min(s.now, s.impl.distributionEnd), hi) - 1);
  }

  lemma {:induction false} LatestIsCounted(cfg: Config, c: Count, r: Run, hi: nat, latest: nat)
    requires 0 < latest == LatestBelow(cfg, c, r, hi)
    ensures latest <= hi && Times(cfg, c, r, latest - 1) > 0
  {
    if LatestBelow(cfg, c, r.prior, hi) == latest {
      LatestIsCounted(cfg, c, r.prior, hi, latest);
    } else {
      CountsLast(cfg, c, Final(cfg, r.prior), r.act, hi);
    }
  }

  lemma {:induction false} TimesAfter(cfg: Config, c: Count, r: Run, a: Action, x: nat)
    ensures Times(cfg, c, After(r, a), x)
         == Times(cfg, c, r, x) + if CountsSecond(cfg, c, Final(cfg, r), a, x) then 1 else 0
  {
  }

  ghost predicate AtMostOnce(cfg: Config, c: Count, r: Run) {
    forall x: nat :: Times(cfg, c, r, x) <= 1
  }

  /** No update that counts starts before the end of the latest second, below its own end, that
      was counted before it. */
  ghost predicate InOrder(cfg: Config, c: Count, r: Run) {
    match r
    case Deploy(_, _, _) => true
    case After(prior, a) =>
      var s := Final(cfg, prior);
      && InOrder(cfg, c, prior)
      && (Counts(cfg, c, s, a) ==> LatestBelow(cfg, c, prior, Min(s.now, s.impl.distributionEnd)) <= LastUpdate(cfg, s))
  }

  lemma {:induction false} InOrderCountsOnce(cfg: Config, c: Count, r: Run, x: nat)
    requires InOrder(cfg, c, r)
    ensures Times(cfg, c, r, x) <= 1
  {
    if r.Deploy? {
    } else {
      var s := Final(cfg, r.prior);
      InOrderCountsOnce(cfg, c, r.prior, x);
      PayableIs(cfg, s, x);
      if CountsSecond(cfg, c, s, r.act, x) && Times(cfg, c, r.prior, x) > 0 {
        CountedIsBelow(cfg, c, r.prior, Min(s.now, s.impl.distributionEnd), x);
      }
    }
  }

  lemma {:induction false} PriorAtMostOnce(cfg: Config, c: Count, r: Run, a: Action)
    requires AtMostOnce(cfg, c, After(r, a))
    ensures AtMostOnce(cfg, c, r)
  {
    forall x: nat
      ensures Times(cfg, c, r, x) <= 1
    {
      TimesAfter(cfg, c, r, a, x);
    }
  }

  lemma {:induction false} CountedAgain(cfg: Config, c: Count, r: Run, a: Action, x: nat)
    requires Times(cfg, c, r, x) > 0 && CountsSecond(cfg, c, Final(cfg, r), a, x)
    ensures !AtMostOnce(cfg, c, After(r, a))
  {
    TimesAfter(cfg, c, r, a, x);
    assert Times(cfg, c, After(r, a), x) > 1;
  }

  lemma {:induction false} OnceIsInOrder(cfg: Config, c: Count, r: Run)
    requires AtMostOnce(cfg, c, r)
    ensures InOrder(cfg, c, r)
  {
    if r.Deploy? {
    } else {
      var s := Final(cfg, r.prior);
      var latest := LatestBelow(cfg, c, r.prior, Min(s.now, s.impl.distributionEnd));
      PriorAtMostOnce(cfg, c, r.prior, r.act);
      OnceIsInOrder(cfg, c, r.prior);
      if Counts(cfg, c, s, r.act) && LastUpdate(cfg, s) < latest {
        LatestIsCounted(cfg, c, r.prior, Min(s.now, s.impl.distributionEnd), latest);
        PayableIs(cfg, s, latest - 1);
        CountedAgain(cfg, c, r.prior, r.act, latest - 1);
      }
    }
  }

  /** In every run, whatever it configures and upgrades to: no second is paid for twice (or covered
      twice) exactly when no index update that pays (or covers) starts before the end of the latest
      second below its own end that was paid for (or covered) before. */
  lemma {:induction false} AtMostOnceIff(cfg: Config, c: Count, r: Run)
    ensures AtMostOnce(cfg, c, r) <==> InOrder(cfg, c, r)
  {
    if InOrder(cfg, c, r) {
      forall x: nat
        ensures Times(cfg, c, r, x) <= 1
      {
        InOrderCountsOnce(cfg, c, r, x);
      }
    } else if AtMostOnce(cfg, c, r) {
      OnceIsInOrder(cfg, c, r);
    }
  }

  /** What is paid for is covered. */
  lemma {:induction false} PaidIsCovered(cfg: Config, r: Run, x: nat)
    ensures Times(cfg, Paid, r, x) <= Times(cfg, Covered, r, x)
  {
    if r.Deploy? {
    } else {
      PaidIsCovered(cfg, r.prior, x);
    }
  }

  // ---------- clean rewinds ----------

  /** The end of the latest second counted so far. */
  ghost function LatestEnd(cfg: Config, c: Count, r: Run): nat {
    LatestBelow(cfg, c, r, Final(cfg, r).now)
  }

  /** No rewind goes back before the end of the latest second counted. */
  ghost predicate CleanRewinds(cfg: Config, c: Count, r: Run) {
    match r
    case Deploy(_, _, _) => true
    case After(prior, a) =>
      && CleanRewinds(cfg, c, prior)
      && (a.Upgrade? && a.impl.rewinds && Step(cfg, Final(cfg, prior), a).Ok?
          ==> LatestEnd(cfg, c, prior) <= REWIND_TIMESTAMP)
  }

  /** What is known of a second that was counted: it was once, and lies before the last update. */
  ghost predicate Once(n: nat, x: nat, last: nat) {
    n == 0 || (n == 1 && x < last)
  }

  lemma {:induction false} CountedBeforeEnd(cfg: Config, c: Count, r: Run, x: nat)
    requires Feasible(cfg, r) && Once(Times(cfg, c, r, x), x, LastUpdate(cfg, Final(cfg, r)))
    ensures Times(cfg, c, r, x) > 0 ==> x < LatestEnd(cfg, c, r)
  {
    var s := Final(cfg, r);
    IndexesWellFormed(cfg, r);
    assert AssetInv(SelfAsset(cfg, s), s.now);
    if Times(cfg, c, r, x) > 0 {
      CountedIsBelow(cfg, c, r, s.now, x);
    }
  }

  lemma OnceAfterOther(cfg: Config, c: Count, s: State, a: Action, x: nat, n: nat)
    requires Ready(cfg, s) && Step(cfg, s, a).Ok? && !a.Upgrade?
    requires Once(n, x, LastUpdate(cfg, s))
    ensures Once(n + if CountsSecond(cfg, c, s, a, x) then 1 else 0, x, LastUpdate(cfg, Step(cfg, s, a).value))
  {
    assert AssetInv(SelfAsset(cfg, s), s.now);
    UpdateTimes(cfg, s, a);
    PayableIs(cfg, s, x);
  }

  lemma RewindState(cfg: Config, s: State, impl: Implementation)
    requires UpgradeStep(cfg, s, impl).Ok?
    ensures var t := UpgradeStep(cfg, s, impl).value;
      && t.now == s.now && t.impl == impl && t.totalSupply == s.totalSupply
      && LastUpdate(cfg, t) == if impl.rewinds then REWIND_TIMESTAMP else LastUpdate(cfg, s)
  {
    UpgradeParts(cfg, s, impl);
  }

  lemma OnceAfterUpgrade(cfg: Config, s: State, impl: Implementation, end: nat, x: nat, n: nat)
    requires UpgradeStep(cfg, s, impl).Ok?
    requires Once(n, x, LastUpdate(cfg, s)) && (n > 0 ==> x < end)
    requires impl.rewinds ==> end <= REWIND_TIMESTAMP
    ensures Once(n, x, LastUpdate(cfg, UpgradeStep(cfg, s, impl).value))
  {
    RewindState(cfg, s, impl);
  }

  /** In every run whose rewinds are clean, whatever it upgrades to, each second is covered (or paid
      for) by at most one index update, and never payable again. */
  lemma {:induction false} NoSecondPaidTwice(cfg: Config, c: Count, r: Run, x: nat)
    requires Feasible(cfg, r) && CleanRewinds(cfg, c, r)
    ensures Once(Times(cfg, c, r, x), x, LastUpdate(cfg, Final(cfg, r)))
  {
    if r.Deploy? {
    } else {
      var s, n := Final(cfg, r.prior), Times(cfg, c, r.prior, x);
      NoSecondPaidTwice(cfg, c, r.prior, x);
      IndexesWellFormed(cfg, r.prior);
      if Step(cfg, s, r.act).Ok? {
        if r.act.Upgrade? {
          assert n > 0 ==> x < LatestEnd(cfg, c, r.prior) by {
            CountedBeforeEnd(cfg, c, r.prior, x);
          }
          OnceAfterUpgrade(cfg, s, r.act.impl, LatestEnd(cfg, c, r.prior), x, n);
        } else {
          OnceAfterOther(cfg, c, s, r.act, x, n);
        }
      }
    }
  }

  /** The latest end of distribution of the implementations used so far. */
  function Horizon(cfg: Config, r: Run): nat {
    match r
    case Deploy(impl, _, _) => impl.distributionEnd
    case After(prior, a) =>
      var h, end := Horizon(cfg, prior), Final(cfg, r).impl.distributionEnd;
      if h < end then end else h
  }

  /** No second counted lies past the ends of all distributions so far. */
  lemma {:induction false} WithinHorizon(cfg: Config, c: Count, r: Run, hi: nat)
    ensures LatestBelow(cfg, c, r, hi) <= Horizon(cfg, r)
    ensures Final(cfg, r).impl.distributionEnd <= Horizon(cfg, r)
  {
    if r.Deploy? {
    } else {
      WithinHorizon(cfg, c, r.prior, hi);
    }
  }

  /** At every rewind all distributions so far had ended by its timestamp. */
  ghost predicate RewindsAfterEnds(cfg: Config, r: Run) {
    match r
    case Deploy(_, _, _) => true
    case After(prior, a) =>
      && RewindsAfterEnds(cfg, prior)
      && (a.Upgrade? && a.impl.rewinds && Step(cfg, Final(cfg, prior), a).Ok?
          ==> Horizon(cfg, prior) <= REWIND_TIMESTAMP)
  }

  /** Then the rewinds are clean. */
  lemma {:induction false} EndedIsClean(cfg: Config, c: Count, r: Run)
    requires RewindsAfterEnds(cfg, r)
    ensures CleanRewinds(cfg, c, r)
  {
    if r.Deploy? {
    } else {
      EndedIsClean(cfg, c, r.prior);
      WithinHorizon(cfg, c, r.prior, Final(cfg, r.prior).now);
    }
  }

  // ---------- when a rewind repays ----------

  /** The second was counted before the run's last action, and is payable after it. */
  ghost predicate Repays(cfg: Config, c: Count, q: Run, x: nat)
    requires q.After?
  {
    Times(cfg, c, q.prior, x) > 0 && Payable(cfg, Final(cfg, q))(x)
  }

  lemma {:induction false} RewoundPayable(cfg: Config, r: Run, impl: Implementation, x: nat)
    requires UpgradeStep(cfg, Final(cfg, r), impl).Ok? && impl.rewinds
    ensures Payable(cfg, Final(cfg, After(r, Upgrade(impl))))(x)
       <==> REWIND_TIMESTAMP <= x < Min(Final(cfg, r).now, impl.distributionEnd)
  {
    UpgradedPayable(cfg, Final(cfg, r), impl, x);
  }

  lemma {:induction false} LastRepaid(cfg: Config, c: Count, r: Run, impl: Implementation, hi: nat)
    requires UpgradeStep(cfg, Final(cfg, r), impl).Ok? && impl.rewinds
    requires hi == Min(Final(cfg, r).now, impl.distributionEnd) && REWIND_TIMESTAMP < LatestBelow(cfg, c, r, hi)
    ensures Repays(cfg, c, After(r, Upgrade(impl)), LatestBelow(cfg, c, r, hi) - 1)
  {
    LatestIsCounted(cfg, c, r, hi, LatestBelow(cfg, c, r, hi));
    RewoundPayable(cfg, r, impl, LatestBelow(cfg, c, r, hi) - 1);
  }

  lemma {:induction false} NothingRepaid(cfg: Config, c: Count, r: Run, impl: Implementation, hi: nat, x: nat)
    requires UpgradeStep(cfg, Final(cfg, r), impl).Ok? && impl.rewinds
    requires hi == Min(Final(cfg, r).now, impl.distributionEnd) && LatestBelow(cfg, c, r, hi) <= REWIND_TIMESTAMP
    ensures !Repays(cfg, c, After(r, Upgrade(impl)), x)
  {
    RewoundPayable(cfg, r, impl, x);
    if Times(cfg, c, r, x) > 0 && x < hi {
      CountedIsBelow(cfg, c, r, hi, x);
    }
  }

  /** A rewind makes a second payable again that was covered (or paid for) before exactly when the
      latest such second before now and the new end does not lie before the rewind. */
  lemma {:induction false} RewindRepaysIff(cfg: Config, c: Count, r: Run, impl: Implementation)
    requires UpgradeStep(cfg, Final(cfg, r), impl).Ok? && impl.rewinds
    ensures (exists x: nat :: Repays(cfg, c, After(r, Upgrade(impl)), x))
       <==> REWIND_TIMESTAMP < LatestBelow(cfg, c, r, Min(Final(cfg, r).now, impl.distributionEnd))
  {
    var hi := Min(Final(cfg, r).now, impl.distributionEnd);
    if REWIND_TIMESTAMP < LatestBelow(cfg, c, r, hi) {
      LastRepaid(cfg, c, r, impl, hi);
    } else {
      forall x: nat
        ensures !Repays(cfg, c, After(r, Upgrade(impl)), x)
      {
        NothingRepaid(cfg, c, r, impl, hi, x);
      }
    }
  }

  /** `later` continues `q` with actions that neither update the index nor upgrade. */
  ghost predicate Idle(cfg: Config, q: Run, later: Run) {
    later == q || (
      && later.After?
      && Idle(cfg, q, later.prior)
      && !Updates(cfg, Final(cfg, later.prior), later.act)
      && !(later.act.Upgrade? && Step(cfg, Final(cfg, later.prior), later.act).Ok?))
  }

  lemma IdleStep(cfg: Config, s: State, a: Action)
    requires !Updates(cfg, s, a) && !(a.Upgrade? && Step(cfg, s, a).Ok?)
    ensures LastUpdate(cfg, Apply(cfg, s, a)) == LastUpdate(cfg, s) && Apply(cfg, s, a).impl == s.impl
  {
    if Step(cfg, s, a).Ok? && !a.NextBlock? {
      EnvironmentStep(cfg, s, a);
    }
  }

  lemma {:induction false} IdleKeeps(cfg: Config, c: Count, q: Run, later: Run, hi: nat)
    requires Idle(cfg, q, later)
    ensures LastUpdate(cfg, Final(cfg, later)) == LastUpdate(cfg, Final(cfg, q))
    ensures Final(cfg, later).impl == Final(cfg, q).impl
    ensures LatestBelow(cfg, c, later, hi) == LatestBelow(cfg, c, q, hi)
    ensures InOrder(cfg, c, later) == InOrder(cfg, c, q)
    decreases later
  {
    if later == q {
    } else {
      IdleKeeps(cfg, c, q, later.prior, hi);
      IdleStep(cfg, Final(cfg, later.prior), later.act);
    }
  }

  lemma {:induction false} UpgradeCountsNothing(cfg: Config, c: Count, r: Run, impl: Implementation, hi: nat)
    ensures LatestBelow(cfg, c, After(r, Upgrade(impl)), hi) == LatestBelow(cfg, c, r, hi)
    ensures InOrder(cfg, c, After(r, Upgrade(impl))) == InOrder(cfg, c, r)
  {
  }

  lemma {:induction false} InOrderAfter(cfg: Config, c: Count, r: Run, a: Action)
    requires Counts(cfg, c, Final(cfg, r), a)
    ensures var s := Final(cfg, r);
      InOrder(cfg, c, After(r, a))
      <==> InOrder(cfg, c, r) && LatestBelow(cfg, c, r, Min(s.now, s.impl.distributionEnd)) <= LastUpdate(cfg, s)
  {
  }

  /** One update more counts some second twice exactly when it starts before such an end. */
  lemma {:induction false} OneMoreIff(cfg: Config, c: Count, r: Run, a: Action)
    requires AtMostOnce(cfg, c, r) && Counts(cfg, c, Final(cfg, r), a)
    ensures var s := Final(cfg, r);
      !AtMostOnce(cfg, c, After(r, a))
      <==> LastUpdate(cfg, s) < LatestBelow(cfg, c, r, Min(s.now, s.impl.distributionEnd))
  {
    AtMostOnceIff(cfg, c, r);
    AtMostOnceIff(cfg, c, After(r, a));
    InOrderAfter(cfg, c, r, a);
  }

  lemma {:induction false} IdleAfterRewind(cfg: Config, c: Count, r: Run, impl: Implementation, later: Run, hi: nat)
    requires AtMostOnce(cfg, c, r)
    requires UpgradeStep(cfg, Final(cfg, r), impl).Ok? && impl.rewinds
    requires Idle(cfg, After(r, Upgrade(impl)), later)
    ensures AtMostOnce(cfg, c, later) && LatestBelow(cfg, c, later, hi) == LatestBelow(cfg, c, r, hi)
    ensures LastUpdate(cfg, Final(cfg, later)) == REWIND_TIMESTAMP && Final(cfg, later).impl == impl
  {
    AtMostOnceIff(cfg, c, r);
    AtMostOnceIff(cfg, c, later);
    RewindState(cfg, Final(cfg, r), impl);
    UpgradeCountsNothing(cfg, c, r, impl, hi);
    IdleKeeps(cfg, c, After(r, Upgrade(impl)), later, hi);
  }

  /** If no second was counted twice before a rewind, the first index update after it, whenever it
      comes, counts some second for the second time exactly when the latest second counted before
      the rewind, below the end of that update, does not lie before the rewind. */
  lemma {:induction false} RewindPaysTwiceIff(
      cfg: Config, c: Count, r: Run, impl: Implementation, later: Run, a: Action)
    requires AtMostOnce(cfg, c, r)
    requires UpgradeStep(cfg, Final(cfg, r), impl).Ok? && impl.rewinds
    requires Idle(cfg, After(r, Upgrade(impl)), later) && Counts(cfg, c, Final(cfg, later), a)
    ensures !AtMostOnce(cfg, c, After(later, a))
       <==> REWIND_TIMESTAMP < LatestBelow(cfg, c, r, Min(Final(cfg, later).now, impl.distributionEnd))
  {
    IdleAfterRewind(cfg, c, r, impl, later, Min(Final(cfg, later).now, impl.distributionEnd));
    OneMoreIff(cfg, c, later, a);
  }

  // ---------- each second of the clock enters the budget once ----------

  /** The action adds the rate for second `x` to the budget. */
  ghost predicate Enters(cfg: Config, s: State, a: Action, x: nat) {
    && s.totalSupply > 0 && Step(cfg, s, a).Ok?
    && match a
       case NextBlock(seconds) => s.now <= x < Min(s.now + seconds, s.impl.distributionEnd)
       case Upgrade(_) => x < s.now && NewlyPayable(cfg, s, Step(cfg, s, a).value)(x)
       case _ => false
  }

  ghost function TimesBudgeted(cfg: Config, r: Run, x: nat): nat {
    match r
    case Deploy(_, _, _) => 0
    case After(prior, a) => TimesBudgeted(cfg, prior, x) + if Enters(cfg, Final(cfg, prior), a, x) then 1 else 0
  }

  lemma TimeEmissionIs(cfg: Config, s: State, seconds: nat, p: nat -> bool)
    requires s.totalSupply > 0
    requires forall x: nat :: p(x) <==> Enters(cfg, s, NextBlock(seconds), x)
    ensures CountSeconds(s.now + seconds, p) == RunningSeconds(s.now, seconds, s.impl.distributionEnd)
  {
    var hi := Min(s.now + seconds, s.impl.distributionEnd);
    RunningIsWindow(s.now, seconds, s.impl.distributionEnd);
    forall x: nat
      ensures p(x) <==> s.now <= x < hi
    {
      assert Enters(cfg, s, NextBlock(seconds), x) <==> s.now <= x < hi;
    }
    CountInterval(s.now + seconds, p, s.now, hi);
  }

  lemma {:induction false} CountSame(n: nat, p: nat -> bool, q: nat -> bool)
    requires forall x: nat :: x < n ==> p(x) == q(x)
    ensures CountSeconds(n, p) == CountSeconds(n, q)
  {
    if n == 0 {
    } else {
      CountSame(n - 1, p, q);
    }
  }

  lemma {:induction false} CountNone(n: nat, p: nat -> bool)
    requires forall x: nat :: x < n ==> !p(x)
    ensures CountSeconds(n, p) == 0
  {
    if n == 0 {
    } else {
      CountNone(n - 1, p);
    }
  }

  /** What an action adds to the budget is the rate for each second that enters it. */
  lemma EmissionCountsEntries(cfg: Config, s: State, a: Action, p: nat -> bool)
    requires forall x: nat :: p(x) <==> Enters(cfg, s, a, x)
    ensures EmissionOf(cfg, s, a) == SelfAsset(cfg, s).emissionPerSecond * CountSeconds(Apply(cfg, s, a).now, p)
  {
    if s.totalSupply > 0 && Step(cfg, s, a).Ok? && a.NextBlock? {
      TimeEmissionIs(cfg, s, a.seconds, p);
    } else if s.totalSupply > 0 && Step(cfg, s, a).Ok? && a.Upgrade? {
      UpgradeParts(cfg, s, a.impl);
      CountSame(s.now, p, NewlyPayable(cfg, s, Step(cfg, s, a).value));
    } else {
      CountNone(Apply(cfg, s, a).now, p);
      assert SelfAsset(cfg, s).emissionPerSecond * 0 == 0;
    }
  }

  /** No upgrade takes a payable second back. */
  ghost predicate NothingTakenBack(cfg: Config, r: Run) {
    match r
    case Deploy(_, _, _) => true
    case After(prior, a) =>
      && NothingTakenBack(cfg, prior)
      && (a.Upgrade? && Step(cfg, Final(cfg, prior), a).Ok? ==> TakesNothingBack(cfg, Final(cfg, prior), a.impl))
  }

  /** A second that entered the budget did so once, has passed, and is payable or was covered. */
  ghost predicate Entered(cfg: Config, r: Run, x: nat) {
    var n, s := TimesBudgeted(cfg, r, x), Final(cfg, r);
    n == 0 || (n == 1 && x < s.now && (Payable(cfg, s)(x) || Times(cfg, Covered, r, x) > 0))
  }

  lemma {:induction false} EntersByUpgrade(cfg: Config, r: Run, impl: Implementation, x: nat)
    requires Feasible(cfg, After(r, Upgrade(impl))) && CleanRewinds(cfg, Covered, After(r, Upgrade(impl)))
    requires UpgradeStep(cfg, Final(cfg, r), impl).Ok? && TakesNothingBack(cfg, Final(cfg, r), impl)
    requires Entered(cfg, r, x)
    ensures Entered(cfg, After(r, Upgrade(impl)), x)
  {
    var q := After(r, Upgrade(impl));
    NoSecondPaidTwice(cfg, Covered, q, x);
    TimesAfter(cfg, Covered, r, Upgrade(impl), x);
    TakesNothingBackIff(cfg, Final(cfg, r), impl);
    RewindState(cfg, Final(cfg, r), impl);
    PayableIs(cfg, Final(cfg, q), x);
  }

  lemma {:induction false} EntersOtherwise(cfg: Config, r: Run, a: Action, x: nat)
    requires Feasible(cfg, r) && Step(cfg, Final(cfg, r), a).Ok? && !a.Upgrade?
    requires CleanRewinds(cfg, Covered, r) && Entered(cfg, r, x)
    ensures Entered(cfg, After(r, a), x)
  {
    var s, t := Final(cfg, r), Final(cfg, After(r, a));
    IndexesWellFormed(cfg, r);
    NoSecondPaidTwice(cfg, Covered, r, x);
    assert AssetInv(SelfAsset(cfg, s), s.now);
    UpdateTimes(cfg, s, a);
    TimesAfter(cfg, Covered, r, a, x);
    PayableIs(cfg, s, x);
    PayableIs(cfg, t, x);
    if !a.NextBlock? {
      EnvironmentStep(cfg, s, a);
    }
  }

  /** If no rewind goes back over covered seconds and no upgrade takes a payable one back, every
      second of the clock enters the budget at most once. */
  lemma {:induction false} BudgetedOnce(cfg: Config, r: Run, x: nat)
    requires Feasible(cfg, r) && CleanRewinds(cfg, Covered, r) && NothingTakenBack(cfg, r)
    ensures TimesBudgeted(cfg, r, x) <= 1
    ensures Entered(cfg, r, x)
  {
    if r.Deploy? {
    } else {
      BudgetedOnce(cfg, r.prior, x);
      if Step(cfg, Final(cfg, r.prior), r.act).Ok? {
        if r.act.Upgrade? {
          EntersByUpgrade(cfg, r.prior, r.act.impl, x);
        } else {
          EntersOtherwise(cfg, r.prior, r.act, x);
        }
      }
    }
  }

  // ---------- exactly when each second enters once ----------

  /** The end of the latest second before `n` with the property, or 0. */
  function LastSecond(n: nat, p: nat -> bool): nat {
    if n == 0 then 0 else if p(n - 1) then n else LastSecond(n - 1, p)
  }

  lemma {:induction false} LastSecondIs(lo: nat, n: nat, p: nat -> bool)
    ensures lo < LastSecond(n, p) <==> exists x: nat :: lo <= x < n && p(x)
    ensures LastSecond(n, p) <= n
  {
    if n == 0 {
    } else if p(n - 1) {
      assert lo < n ==> lo <= n - 1 < n && p(n - 1);
    } else {
      LastSecondIs(lo, n - 1, p);
    }
  }

  /** The seconds that have entered the budget. */
  ghost function Budgeted(cfg: Config, r: Run): nat -> bool {
    (x: nat) => TimesBudgeted(cfg, r, x) > 0
  }

  /** None of them lies where the upgrade makes seconds payable: before what was payable already
      and after it, or anywhere in the new range if nothing was. */
  ghost predicate AddsOnlyNew(cfg: Config, s: State, impl: Implementation, budgeted: nat -> bool) {
    var last, end := LastUpdate(cfg, s), Min(s.now, s.impl.distributionEnd);
    var newLast, newEnd := UpgradedUpdate(cfg, s, impl), Min(s.now, impl.distributionEnd);
    if end <= last then LastSecond(newEnd, budgeted) <= newLast
    else
      && LastSecond(Min(last, newEnd), budgeted) <= newLast
      && LastSecond(newEnd, budgeted) <= if newLast < end then end else newLast
  }

  lemma AddsOnlyNewIff(cfg: Config, s: State, impl: Implementation, budgeted: nat -> bool)
    requires UpgradeStep(cfg, s, impl).Ok?
    ensures AddsOnlyNew(cfg, s, impl, budgeted)
       <==> forall x: nat :: NewlyPayable(cfg, s, UpgradeStep(cfg, s, impl).value)(x) ==> !budgeted(x)
  {
    var t := UpgradeStep(cfg, s, impl).value;
    var last, end := LastUpdate(cfg, s), Min(s.now, s.impl.distributionEnd);
    var newLast, newEnd := UpgradedUpdate(cfg, s, impl), Min(s.now, impl.distributionEnd);
    forall x: nat
      ensures NewlyPayable(cfg, s, t)(x) <==> newLast <= x < newEnd && !(last <= x < end)
    {
      UpgradedPayable(cfg, s, impl, x);
    }
    LastSecondIs(newLast, newEnd, budgeted);
    LastSecondIs(newLast, Min(last, newEnd), budgeted);
    LastSecondIs(end, newEnd, budgeted);
  }

  /** Every upgrade, while there are stakers, adds only new seconds to the budget. */
  ghost predicate UpgradesAddOnlyNew(cfg: Config, r: Run) {
    match r
    case Deploy(_, _, _) => true
    case After(prior, a) =>
      var s := Final(cfg, prior);
      && UpgradesAddOnlyNew(cfg, prior)
      && (a.Upgrade? && Step(cfg, s, a).Ok? && s.totalSupply > 0 ==> AddsOnlyNew(cfg, s, a.impl, Budgeted(cfg, prior)))
  }

  ghost predicate AllBudgetedOnce(cfg: Config, r: Run) {
    forall x: nat :: TimesBudgeted(cfg, r, x) <= 1
  }

  lemma {:induction false} BudgetedAfter(cfg: Config, r: Run, a: Action, x: nat)
    ensures TimesBudgeted(cfg, After(r, a), x)
         == TimesBudgeted(cfg, r, x) + if Enters(cfg, Final(cfg, r), a, x) then 1 else 0
  {
  }

  lemma ClockGoesOn(cfg: Config, s: State, a: Action)
    ensures s.now <= Apply(cfg, s, a).now
  {
    if Step(cfg, s, a).Ok? && !a.NextBlock? && !a.Upgrade? {
      EnvironmentStep(cfg, s, a);
    } else if Step(cfg, s, a).Ok? && a.Upgrade? {
      UpgradeParts(cfg, s, a.impl);
    }
  }

  /** Only seconds that have passed enter. */
  lemma {:induction false} BudgetedHavePassed(cfg: Config, r: Run, x: nat)
    requires TimesBudgeted(cfg, r, x) > 0
    ensures x < Final(cfg, r).now
  {
    ClockGoesOn(cfg, Final(cfg, r.prior), r.act);
    if TimesBudgeted(cfg, r.prior, x) > 0 {
      BudgetedHavePassed(cfg, r.prior, x);
    }
  }

  lemma {:induction false} AddsOnce(cfg: Config, r: Run, a: Action, x: nat)
    requires AllBudgetedOnce(cfg, r)
    requires var s := Final(cfg, r);
      a.Upgrade? && Step(cfg, s, a).Ok? && s.totalSupply > 0 ==> AddsOnlyNew(cfg, s, a.impl, Budgeted(cfg, r))
    ensures TimesBudgeted(cfg, After(r, a), x) <= 1
  {
    var s := Final(cfg, r);
    BudgetedAfter(cfg, r, a, x);
    if TimesBudgeted(cfg, r, x) > 0 {
      BudgetedHavePassed(cfg, r, x);
      assert Budgeted(cfg, r)(x);
      if a.Upgrade? && Step(cfg, s, a).Ok? && s.totalSupply > 0 {
        AddsOnlyNewIff(cfg, s, a.impl, Budgeted(cfg, r));
      }
    }
  }

  lemma {:induction false} OnceAddsOnlyNew(cfg: Config, r: Run, impl: Implementation)
    requires AllBudgetedOnce(cfg, After(r, Upgrade(impl)))
    requires UpgradeStep(cfg, Final(cfg, r), impl).Ok? && Final(cfg, r).totalSupply > 0
    ensures AddsOnlyNew(cfg, Final(cfg, r), impl, Budgeted(cfg, r))
  {
    var s, t := Final(cfg, r), UpgradeStep(cfg, Final(cfg, r), impl).value;
    RewindState(cfg, s, impl);
    forall x: nat | NewlyPayable(cfg, s, t)(x)
      ensures !Budgeted(cfg, r)(x)
    {
      PayableIs(cfg, t, x);
      BudgetedAfter(cfg, r, Upgrade(impl), x);
      assert TimesBudgeted(cfg, After(r, Upgrade(impl)), x) <= 1;
    }
    AddsOnlyNewIff(cfg, s, impl, Budgeted(cfg, r));
  }

  /** In every run each second of the clock enters the budget at most once exactly when every upgrade
      adds only new ones. */
  lemma {:induction false} BudgetedOnceIff(cfg: Config, r: Run)
    ensures AllBudgetedOnce(cfg, r) <==> UpgradesAddOnlyNew(cfg, r)
  {
    if r.Deploy? {
    } else {
      var s := Final(cfg, r.prior);
      BudgetedOnceIff(cfg, r.prior);
      if AllBudgetedOnce(cfg, r) {
        forall x: nat
          ensures TimesBudgeted(cfg, r.prior, x) <= 1
        {
          BudgetedAfter(cfg, r.prior, r.act, x);
          assert TimesBudgeted(cfg, r, x) <= 1;
        }
        if r.act.Upgrade? && Step(cfg, s, r.act).Ok? && s.totalSupply > 0 {
          OnceAddsOnlyNew(cfg, r.prior, r.act.impl);
        }
      } else if UpgradesAddOnlyNew(cfg, r) {
        forall x: nat
          ensures TimesBudgeted(cfg, r, x) <= 1
        {
          AddsOnce(cfg, r.prior, r.act, x);
        }
      }
    }
  }

  // ---------- what a rewind adds ----------

  lemma NewlyPayableSeconds(cfg: Config, s: State, impl: Implementation)
    requires UpgradeStep(cfg, s, impl).Ok? && impl.rewinds
    requires s.impl.distributionEnd <= REWIND_TIMESTAMP
    ensures CountSeconds(s.now, NewlyPayable(cfg, s, UpgradeStep(cfg, s, impl).value))
         == if REWIND_TIMESTAMP < Min(s.now, impl.distributionEnd)
           then Min(s.now, impl.distributionEnd) - REWIND_TIMESTAMP else 0
  {
    var t := UpgradeStep(cfg, s, impl).value;
    var p := NewlyPayable(cfg, s, t);
    forall x: nat
      ensures p(x) <==> REWIND_TIMESTAMP <= x < Min(s.now, impl.distributionEnd)
    {
      UpgradedPayable(cfg, s, impl, x);
    }
    CountInterval(s.now, p, REWIND_TIMESTAMP, Min(s.now, impl.distributionEnd));
  }

  lemma UpgradeEmission(cfg: Config, s: State, impl: Implementation)
    requires UpgradeStep(cfg, s, impl).Ok?
    ensures EmissionOf(cfg, s, Upgrade(impl)) == if s.totalSupply == 0 then 0
      else
        SelfAsset(cfg, s).emissionPerSecond
        * CountSeconds(s.now, NewlyPayable(cfg, s, UpgradeStep(cfg, s, impl).value))
  {
  }

  /** The rate for every second from the rewind on that has passed and lies within the new
      distribution. */
  function RewoundEmission(cfg: Config, s: State, impl: Implementation): nat
    requires REWIND_TIMESTAMP <= Min(s.now, impl.distributionEnd)
  {
    if s.totalSupply == 0 then 0
    else SelfAsset(cfg, s).emissionPerSecond * (Min(s.now, impl.distributionEnd) - REWIND_TIMESTAMP)
  }

  lemma RewindEmission(cfg: Config, s: State, impl: Implementation)
    requires UpgradeStep(cfg, s, impl).Ok? && impl.rewinds
    requires s.impl.distributionEnd <= REWIND_TIMESTAMP <= Min(s.now, impl.distributionEnd)
    ensures EmissionOf(cfg, s, Upgrade(impl)) == RewoundEmission(cfg, s, impl)
  {
    NewlyPayableSeconds(cfg, s, impl);
    UpgradeEmission(cfg, s, impl);
  }

  /** A rewind to where the old distribution had ended and the new one not yet extends the budget by
      just that. */
  lemma {:induction false} RewindExtendsBudget(cfg: Config, r: Run, impl: Implementation)
    requires Feasible(cfg, After(r, Upgrade(impl))) && impl.rewinds
    requires UpgradeStep(cfg, Final(cfg, r), impl).Ok?
    requires Final(cfg, r).impl.distributionEnd <= REWIND_TIMESTAMP <= impl.distributionEnd
    ensures REWIND_TIMESTAMP <= Min(Final(cfg, r).now, impl.distributionEnd)
    ensures Budget(cfg, After(r, Upgrade(impl))) == Budget(cfg, r) + RewoundEmission(cfg, Final(cfg, r), impl)
  {
    RewindEmission(cfg, Final(cfg, r), impl);
  }
}
