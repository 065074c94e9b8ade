/** Governance power over whole runs, across upgrades: current powers are exact, past powers
    can be read back, and what is past stays as it was. */
module Governance {
  import opened Evm
  import opened Sums
  import opened Snapshots
  import opened Delegation
  import opened StakedToken
  import opened Bookkeeping

  function Data(s: State, kind: DelegationType): DelegationData {
    match kind
    case VotingPower => s.voting
    case PropositionPower => s.proposition
  }

  /** The power of `u` by definition, in state `s`. */
  ghost function TruePower(s: State, kind: DelegationType, u: Address): int {
    DelegatedPower(s.balances, Data(s, kind).delegates, u)
  }

  /** The reading the contract offers, current or past. */
  function GetPowerAtBlock(s: State, kind: DelegationType, u: Address, blockNumber: nat): Result<nat> {
    PowerAt(s.balances, Data(s, kind), s.block, u, blockNumber)
  }

  ghost predicate PowerInvs(s: State) {
    PowerInv(s.balances, s.voting, s.block) && PowerInv(s.balances, s.proposition, s.block)
  }

  ghost predicate GovInv(s: State) {
    && PowerInvs(s)
    && HoldersRecorded(s.balances, s.voting)
    && (!s.impl.hasDelegation ==> s.voting.delegates == map[] && s.proposition == NO_DELEGATION)
  }

  /** A record extends over a step from `s` to `t`. */
  ghost predicate RecordsExtend(s: State, t: State) {
    && Extends(s.voting.snapshots, t.voting.snapshots, t.block)
    && Extends(s.proposition.snapshots, t.proposition.snapshots, t.block)
  }

  lemma NoRecordsExact(b: Balances, block: nat)
    ensures PowerInv(b, NO_DELEGATION, block)
  {
    forall u
      ensures LatestPower(b, NO_DELEGATION, u) == DelegatedPower(b, NO_DELEGATION.delegates, u)
    {
      OwnPower(b, NO_DELEGATION.delegates, u);
    }
  }

  /** The voting record over a movement of tokens, under either hook. */
  lemma VotingMoved(s: State, t: State, from: Address, to: Address, amount: nat)
    requires GovInv(s) && s.block < UINT128
    requires TokensMoved(s, t, from, to, amount)
    requires Total(s.balances) < UINT128 && Total(t.balances) < UINT128
    ensures t.voting.delegates == s.voting.delegates
    ensures PowerInv(t.balances, t.voting, s.block)
    ensures HoldersRecorded(t.balances, t.voting)
    ensures Extends(s.voting.snapshots, t.voting.snapshots, s.block)
    ensures UnrecordedSame(s.balances, t.balances, t.voting.snapshots)
  {
    if !s.impl.hasDelegation {
      RecordBalancesIsMove(s.balances, s.voting, s.block, from, to, amount);
      assert Delegatee(s.voting.delegates, from) == from && Delegatee(s.voting.delegates, to) == to;
    }
    MoveKeeps(s.balances, s.voting, s.block, from, to, amount);
  }

  lemma PropositionMoved(s: State, t: State, from: Address, to: Address, amount: nat)
    requires GovInv(s) && s.block < UINT128
    requires TokensMoved(s, t, from, to, amount)
    requires Total(s.balances) < UINT128 && Total(t.balances) < UINT128
    ensures t.proposition.delegates == s.proposition.delegates
    ensures !s.impl.hasDelegation ==> t.proposition == s.proposition
    ensures PowerInv(t.balances, t.proposition, s.block)
    ensures s.impl.hasDelegation && HoldersRecorded(s.balances, s.proposition)
      ==> HoldersRecorded(t.balances, t.proposition)
    ensures Extends(s.proposition.snapshots, t.proposition.snapshots, s.block)
    ensures s.impl.hasDelegation ==> UnrecordedSame(s.balances, t.balances, t.proposition.snapshots)
  {
    if s.impl.hasDelegation {
      MoveKeeps(s.balances, s.proposition, s.block, from, to, amount);
    } else {
      NoRecordsExact(t.balances, s.block);
    }
  }

  /** What a step keeps of the powers. */
  ghost predicate GovKept(s: State, t: State) {
    && GovInv(t) && RecordsExtend(s, t)
    && (s.impl.hasDelegation && HoldersRecorded(s.balances, s.proposition)
      ==> HoldersRecorded(t.balances, t.proposition))
    && UnrecordedSame(s.balances, t.balances, t.voting.snapshots)
    && (s.impl.hasDelegation ==> UnrecordedSame(s.balances, t.balances, t.proposition.snapshots))
    && (s.impl.hasDelegation ==> t.impl.hasDelegation)
  }

  lemma MovedKeepsGov(cfg: Config, s: State, t: State, from: Address, to: Address, amount: nat)
    requires Books(cfg, s) && LedgerInv(cfg, t) && GovInv(s)
    requires TokensMoved(s, t, from, to, amount) && SameEnvironment(s, t)
    ensures GovKept(s, t)
  {
    VotingMoved(s, t, from, to, amount);
    PropositionMoved(s, t, from, to, amount);
  }

  lemma DelegateKeepsGov(cfg: Config, s: State, delegator: Address, delegatee: Address, kind: DelegationType)
    requires Books(cfg, s) && GovInv(s) && delegator != ZERO
    requires DelegateStep(s, delegator, delegatee, kind).Ok?
    ensures GovKept(s, DelegateStep(s, delegator, delegatee, kind).value)
  {
    DelegateParts(s, delegator, delegatee, kind);
    if kind.VotingPower? {
      DelegateKeeps(s.balances, s.voting, s.block, delegator, delegatee);
    } else {
      DelegateKeeps(s.balances, s.proposition, s.block, delegator, delegatee);
    }
  }

  lemma LaterBlock(b: Balances, p: DelegationData, block: nat, later: nat)
    requires PowerInv(b, p, block) && block <= later
    ensures PowerInv(b, p, later)
  {
    forall u
      ensures WrittenBy(History(p.snapshots, u), later)
    {
      assert WrittenBy(History(p.snapshots, u), block);
    }
  }

  lemma UntouchedKeepsGov(s: State, t: State)
    requires GovInv(s) && SamePower(s, t) && t.balances == s.balances && s.block <= t.block
    requires t.impl.hasDelegation || !s.impl.hasDelegation
    ensures GovKept(s, t)
  {
    LaterBlock(s.balances, s.voting, s.block, t.block);
    LaterBlock(s.balances, s.proposition, s.block, t.block);
  }

  lemma GovStep(cfg: Config, s: State, a: Action)
    requires Books(cfg, s) && GovInv(s) && Possible(s, a)
    ensures GovKept(s, Apply(cfg, s, a))
  {
    var t := Apply(cfg, s, a);
    if Step(cfg, s, a).Revert? {
      UntouchedKeepsGov(s, t);
    } else {
      LedgerStep(cfg, s, a);
      match a
      case Stake(u, amount, accepts) =>
        StakeParts(cfg, s, u, amount, accepts);
        MovedKeepsGov(cfg, s, t, ZERO, u, amount);
      case Redeem(u, to, amount, accepts) =>
        RedeemParts(cfg, s, u, to, amount, accepts);
        MovedKeepsGov(cfg, s, t, u, ZERO, Min(amount, Get(s.balances, u)));
      case Transfer(from, to, amount) =>
        TransferParts(cfg, s, from, to, amount);
        MovedKeepsGov(cfg, s, t, from, to, amount);
      case Delegate(delegator, delegatee, kind) => DelegateKeepsGov(cfg, s, delegator, delegatee, kind);
      case ClaimRewards(u, _, amount, accepts) =>
        ClaimParts(cfg, s, u, amount, accepts);
        UntouchedKeepsGov(s, t);
      case _ =>
        AdministrativeParts(cfg, s, a);
        UntouchedKeepsGov(s, t);
    }
  }

  /** In every state of every run, of any version: for both types, every account's recorded
      power (or its balance while it has no record) is the sum of the balances of the accounts
      whose delegatee it is. */
  lemma {:induction false} PowersAlwaysExact(cfg: Config, r: Run)
    requires Feasible(cfg, r)
    ensures var s := Final(cfg, r); Books(cfg, s) && GovInv(s)
  {
    BooksHold(cfg, r);
    match r
    case Deploy(impl, now, block) =>
      NoRecordsExact(map[], block);
    case After(prior, a) =>
      PowersAlwaysExact(cfg, prior);
      GovStep(cfg, Final(cfg, prior), a);
  }

  /** All powers of either type together are the supply. */
  lemma {:induction false} PowersAddUp(cfg: Config, r: Run, kind: DelegationType, us: set<Address>)
    requires Feasible(cfg, r)
    requires var s := Final(cfg, r);
      ZERO !in us && forall a :: a in s.balances ==> Delegatee(Data(s, kind).delegates, a) in us
    ensures var s := Final(cfg, r); Sum(us, Powers(s.balances, Data(s, kind))) == s.totalSupply
  {
    PowersAlwaysExact(cfg, r);
    var s := Final(cfg, r);
    PowersSumToSupply(s.balances, Data(s, kind), us);
  }

  // ---------- the upgrade from balance records to delegated power ----------

  /** Before the upgrade either power of every account is its balance, and an account without a
      balance record holds nothing; the upgrade to any
      delegating implementation changes no power of either type, and they are exact. */
  lemma {:induction false} UpgradeKeepsPowers(
      cfg: Config, r: Run, impl: Implementation, kind: DelegationType, u: Address)
    requires Feasible(cfg, After(r, Upgrade(impl))) && u != ZERO
    requires !Final(cfg, r).impl.hasDelegation
    ensures var s, t := Final(cfg, r), Final(cfg, After(r, Upgrade(impl)));
      && LatestPower(s.balances, Data(s, kind), u) == Get(s.balances, u)
      && (!Recorded(s.voting.snapshots, u) ==> Get(s.balances, u) == 0)
      && LatestPower(t.balances, Data(t, kind), u) == Get(t.balances, u) == Get(s.balances, u)
      && TruePower(t, kind, u) == Get(t.balances, u)
  {
    PowersAlwaysExact(cfg, r);
    PowersAlwaysExact(cfg, After(r, Upgrade(impl)));
    var s, t := Final(cfg, r), Final(cfg, After(r, Upgrade(impl)));
    if Step(cfg, s, Upgrade(impl)).Ok? {
      UpgradeParts(cfg, s, impl);
    }
    assert LatestPower(s.balances, Data(s, kind), u) == TruePower(s, kind, u);
    OwnPower(s.balances, Data(s, kind).delegates, u);
  }

  // ---------- reading the past ----------

  /** The state at the end of block `b`: the last one of the run not after it. */
  function StateAt(cfg: Config, r: Run, b: nat): State {
    if r.Deploy? || Final(cfg, r).block <= b then Final(cfg, r) else StateAt(cfg, r.prior, b)
  }

  function FirstImplementation(r: Run): Implementation {
    match r
    case Deploy(impl, _, _) => impl
    case After(prior, _) => FirstImplementation(prior)
  }

  /** From its first record on, an account's readings are its powers at the ends of the blocks. */
  ghost predicate ReadsBack(cfg: Config, r: Run, kind: DelegationType, u: Address, b: nat) {
    var h := History(Data(Final(cfg, r), kind).snapshots, u);
    h != [] && h[0].blockNumber <= b ==> ValueAt(h, b) == TruePower(StateAt(cfg, r, b), kind, u)
  }

  /** Before its first record an account had no power. */
  ghost predicate NothingBefore(cfg: Config, r: Run, kind: DelegationType, u: Address, b: nat) {
    var h := History(Data(Final(cfg, r), kind).snapshots, u);
    h == [] || b < h[0].blockNumber ==> TruePower(StateAt(cfg, r, b), kind, u) == 0
  }

  lemma {:induction false} BlockStep(cfg: Config, r: Run, a: Action)
    requires Feasible(cfg, After(r, a))
    ensures Final(cfg, r).block <= Final(cfg, After(r, a)).block <= Final(cfg, r).block + 1
  {
    var s := Final(cfg, r);
    if Step(cfg, s, a).Ok? && !a.NextBlock? && !a.Upgrade? {
      EnvironmentStep(cfg, s, a);
    } else if Step(cfg, s, a).Ok? && a.Upgrade? {
      UpgradeParts(cfg, s, a.impl);
    }
  }

  lemma PowerOnRecord(s: State, kind: DelegationType, u: Address)
    requires GovInv(s) && u != ZERO
    ensures var h := History(Data(s, kind).snapshots, u);
      if h == [] then TruePower(s, kind, u) == Get(s.balances, u)
      else h[0].blockNumber <= s.block && ValueAt(h, s.block) == TruePower(s, kind, u)
  {
    var p := Data(s, kind);
    var h := History(p.snapshots, u);
    assert WrittenBy(h, s.block);
    assert LatestPower(s.balances, p, u) == DelegatedPower(s.balances, p.delegates, u);
    if h != [] {
      assert h[0].blockNumber <= h[|h| - 1].blockNumber;
    }
  }

  lemma {:induction false} BlockEnd(cfg: Config, r: Run, b: nat)
    requires r.Deploy? || b == Final(cfg, r).block
    ensures StateAt(cfg, r, b) == Final(cfg, r)
  {
  }

  /** At the current block the reading is the current power. */
  lemma {:induction false} ReadsBackNow(cfg: Config, r: Run, kind: DelegationType, u: Address)
    requires Feasible(cfg, r) && u != ZERO
    ensures ReadsBack(cfg, r, kind, u, Final(cfg, r).block)
    ensures kind.VotingPower? || HoldersRecorded(Final(cfg, r).balances, Final(cfg, r).proposition)
        ==> NothingBefore(cfg, r, kind, u, Final(cfg, r).block)
  {
    PowersAlwaysExact(cfg, r);
    PowerOnRecord(Final(cfg, r), kind, u);
    BlockEnd(cfg, r, Final(cfg, r).block);
  }

  function RecordOf(cfg: Config, r: Run, kind: DelegationType, u: Address): seq<Snapshot> {
    History(Data(Final(cfg, r), kind).snapshots, u)
  }

  lemma {:induction false} RecordGrows(cfg: Config, r: Run, a: Action, kind: DelegationType, u: Address)
    requires Feasible(cfg, After(r, a))
    ensures Grown(RecordOf(cfg, r, kind, u), RecordOf(cfg, After(r, a), kind, u), Final(cfg, After(r, a)).block)
  {
    PowersAlwaysExact(cfg, r);
    GovStep(cfg, Final(cfg, r), a);
  }

  /** A step moves neither a past block's end nor any reading there. */
  lemma {:induction false} PastStep(cfg: Config, r: Run, a: Action, kind: DelegationType, u: Address, b: nat)
    requires Feasible(cfg, After(r, a)) && b < Final(cfg, After(r, a)).block
    ensures StateAt(cfg, After(r, a), b) == StateAt(cfg, r, b) && b <= Final(cfg, r).block
    ensures var h, k := RecordOf(cfg, r, kind, u), RecordOf(cfg, After(r, a), kind, u);
      && ValueAt(k, b) == ValueAt(h, b)
      && (h != [] ==> k != [] && k[0].blockNumber == h[0].blockNumber)
      && (h == [] && k != [] ==> b < k[0].blockNumber)
  {
    BlockStep(cfg, r, a);
    RecordGrows(cfg, r, a, kind, u);
  }

  lemma {:induction false} PastReadsBack(cfg: Config, r: Run, kind: DelegationType, u: Address, b: nat)
    requires Feasible(cfg, r) && u != ZERO && b <= Final(cfg, r).block
    ensures ReadsBack(cfg, r, kind, u, b)
  {
    if b == Final(cfg, r).block {
      ReadsBackNow(cfg, r, kind, u);
    } else if r.After? {
      PastStep(cfg, r.prior, r.act, kind, u, b);
      PastReadsBack(cfg, r.prior, kind, u, b);
    }
  }

  /** Proposition records reach back to the deployment if the first implementation delegates. */
  lemma {:induction false} PropositionHoldersRecorded(cfg: Config, r: Run)
    requires Feasible(cfg, r) && FirstImplementation(r).hasDelegation
    ensures Final(cfg, r).impl.hasDelegation && HoldersRecorded(Final(cfg, r).balances, Final(cfg, r).proposition)
  {
    if r.Deploy? {
    } else {
      PropositionHoldersRecorded(cfg, r.prior);
      PowersAlwaysExact(cfg, r.prior);
      var s, a := Final(cfg, r.prior), r.act;
      GovStep(cfg, s, a);
      if Step(cfg, s, a).Ok? {
        if a.Upgrade? {
          UpgradeParts(cfg, s, a.impl);
        } else if !a.NextBlock? {
          EnvironmentStep(cfg, s, a);
        }
      }
    }
  }

  lemma {:induction false} NothingBeforeFirst(cfg: Config, r: Run, kind: DelegationType, u: Address, b: nat)
    requires Feasible(cfg, r) && u != ZERO && b <= Final(cfg, r).block
    requires kind.VotingPower? || FirstImplementation(r).hasDelegation
    ensures NothingBefore(cfg, r, kind, u, b)
  {
    if kind.PropositionPower? {
      PropositionHoldersRecorded(cfg, r);
    }
    if b == Final(cfg, r).block {
      ReadsBackNow(cfg, r, kind, u);
    } else if r.After? {
      PastStep(cfg, r.prior, r.act, kind, u, b);
      NothingBeforeFirst(cfg, r.prior, kind, u, b);
    } else {
      OwnPower(map[], map[], u);
    }
  }

  /** Time travel. In every run from an empty deployment, for every block up to the current
      one, `getPowerAtBlock` returns the sum, at the end of that block, of the balances of the
      accounts whose delegatee was then the user: for voting power from any deployment, even
      across the upgrade from balance records, and for proposition power from a deployment
      that delegates. */
  lemma {:induction false} TimeTravel(cfg: Config, r: Run, kind: DelegationType, u: Address, b: nat)
    requires Feasible(cfg, r) && u != ZERO && b <= Final(cfg, r).block
    requires kind.VotingPower? || FirstImplementation(r).hasDelegation
    ensures GetPowerAtBlock(Final(cfg, r), kind, u, b).Ok?
    ensures GetPowerAtBlock(Final(cfg, r), kind, u, b).value == TruePower(StateAt(cfg, r, b), kind, u)
  {
    PastReadsBack(cfg, r, kind, u, b);
    NothingBeforeFirst(cfg, r, kind, u, b);
    PowersAlwaysExact(cfg, r);
    var s := Final(cfg, r);
    var h := History(Data(s, kind).snapshots, u);
    if h == [] {
      if kind.PropositionPower? {
        PropositionHoldersRecorded(cfg, r);
      }
      assert !Recorded(Data(s, kind).snapshots, u);
    } else if b < h[0].blockNumber {
      assert WrittenBy(h, s.block);
      ValueBeforeFirst(h, b);
    }
  }

  /** Up to its first record, if it has one, an account's power was its balance. */
  lemma {:induction false} OwnPowerBefore(cfg: Config, r: Run, kind: DelegationType, u: Address, b: nat)
    requires Feasible(cfg, r) && u != ZERO && b <= Final(cfg, r).block
    requires var h := RecordOf(cfg, r, kind, u); h == [] || b < h[0].blockNumber
    ensures TruePower(StateAt(cfg, r, b), kind, u) == Get(StateAt(cfg, r, b).balances, u)
  {
    if r.Deploy? || b == Final(cfg, r).block {
      PowersAlwaysExact(cfg, r);
      assert WrittenBy(RecordOf(cfg, r, kind, u), Final(cfg, r).block);
      BlockEnd(cfg, r, b);
      PowerOnRecord(Final(cfg, r), kind, u);
    } else {
      PastStep(cfg, r.prior, r.act, kind, u, b);
      OwnPowerBefore(cfg, r.prior, kind, u, b);
    }
  }

  /** What a reading before any record shows. */
  ghost function Fallback(cfg: Config, r: Run, kind: DelegationType, u: Address): int {
    if RecordOf(cfg, r, kind, u) == [] then Get(Final(cfg, r).balances, u) else 0
  }

  /** In every run, also one upgraded from balance records, a reading is the power at the end of
      its block exactly when the block is not before the user's first record, or the user's
      balance at the end of that block was what the reading falls back to: zero for a
      recorded user, the current balance for one without records. */
  lemma ReadingExactIff(cfg: Config, r: Run, kind: DelegationType, u: Address, b: nat)
    requires Feasible(cfg, r) && u != ZERO && b <= Final(cfg, r).block
    ensures var h, reading := RecordOf(cfg, r, kind, u), GetPowerAtBlock(Final(cfg, r), kind, u, b);
      && reading.Ok?
      && (reading.value == TruePower(StateAt(cfg, r, b), kind, u)
          <==> (h != [] && h[0].blockNumber <= b) || Get(StateAt(cfg, r, b).balances, u) == Fallback(cfg, r, kind, u))
      && (h == [] || b < h[0].blockNumber ==> reading.value == Fallback(cfg, r, kind, u))
  {
    PowersAlwaysExact(cfg, r);
    var h := RecordOf(cfg, r, kind, u);
    assert WrittenBy(h, Final(cfg, r).block);
    if h != [] && h[0].blockNumber <= b {
      PastReadsBack(cfg, r, kind, u, b);
    } else {
      OwnPowerBefore(cfg, r, kind, u, b);
      ValueBeforeFirst(h, b);
    }
  }

  /** Under an implementation that delegates, who has no record keeps the balance. */
  lemma {:induction false} UnrecordedKept(cfg: Config, r: Run, kind: DelegationType, u: Address, b: nat)
    requires Feasible(cfg, r) && u != ZERO && b <= Final(cfg, r).block
    requires kind.VotingPower? || StateAt(cfg, r, b).impl.hasDelegation
    requires RecordOf(cfg, r, kind, u) == []
    ensures Get(StateAt(cfg, r, b).balances, u) == Get(Final(cfg, r).balances, u)
    ensures StateAt(cfg, r, b).impl.hasDelegation ==> Final(cfg, r).impl.hasDelegation
  {
    if b == Final(cfg, r).block || r.Deploy? {
    } else {
      PastStep(cfg, r.prior, r.act, kind, u, b);
      UnrecordedKept(cfg, r.prior, kind, u, b);
      PowersAlwaysExact(cfg, r.prior);
      GovStep(cfg, Final(cfg, r.prior), r.act);
      assert !Recorded(Data(Final(cfg, r), kind).snapshots, u);
    }
  }

  /** So the readings of an account without records are right for every block from the upgrade
      on, and for voting power always. */
  lemma UnrecordedReadingExact(cfg: Config, r: Run, kind: DelegationType, u: Address, b: nat)
    requires Feasible(cfg, r) && u != ZERO && b <= Final(cfg, r).block
    requires kind.VotingPower? || StateAt(cfg, r, b).impl.hasDelegation
    ensures RecordOf(cfg, r, kind, u) == [] ==>
      GetPowerAtBlock(Final(cfg, r), kind, u, b).Ok?
      && GetPowerAtBlock(Final(cfg, r), kind, u, b).value == TruePower(StateAt(cfg, r, b), kind, u)
  {
    if RecordOf(cfg, r, kind, u) == [] {
      UnrecordedKept(cfg, r, kind, u, b);
      ReadingExactIff(cfg, r, kind, u, b);
    }
  }

  // ---------- the past stays ----------

  /** Whatever happens later, a recorded user's reading at a past block never changes. */
  lemma {:induction false} PastIsImmutable(cfg: Config, r: Run, later: Run, kind: DelegationType, u: Address, b: nat)
    requires Feasible(cfg, later) && Continues(r, later) && Feasible(cfg, r)
    requires b < Final(cfg, r).block
    requires Recorded(Data(Final(cfg, r), kind).snapshots, u)
    ensures Final(cfg, r).block <= Final(cfg, later).block
    ensures Recorded(Data(Final(cfg, later), kind).snapshots, u)
    ensures GetPowerAtBlock(Final(cfg, later), kind, u, b) == GetPowerAtBlock(Final(cfg, r), kind, u, b)
    decreases later
  {
    if later == r {
    } else {
      PastIsImmutable(cfg, r, later.prior, kind, u, b);
      BlockStep(cfg, later.prior, later.act);
      PastStep(cfg, later.prior, later.act, kind, u, b);
    }
  }
}
