/** Delegated governance power of one type: whose power counts for whom, and the
    recorded totals that stand for it. */
module Delegation {
  import opened Evm
  import opened Sums
  import opened Snapshots

  datatype DelegationData = DelegationData(
    snapshots: Histories,
    delegates: map<Address, Address>)

  const NO_DELEGATION := DelegationData(map[], map[])

  type Histories = map<Address, seq<Snapshot>>

  type Balances = map<Address, nat>

  function History(h: Histories, u: Address): seq<Snapshot> {
    if u in h then h[u] else []
  }

  /** An account that never delegated stands for itself. */
  function Delegatee(delegates: map<Address, Address>, a: Address): Address {
    var d := Get(delegates, a);
    if d == ZERO then a else d
  }

  /** The power on record, or the balance of an account without a record. */
  function LatestPower(b: Balances, p: DelegationData, u: Address): nat {
    var s := History(p.snapshots, u);
    if s != [] then s[|s| - 1].value else Get(b, u)
  }

  function Record(p: DelegationData, block: nat, owner: Address, newValue: nat): DelegationData {
    p.(snapshots := p.snapshots[owner := Write(History(p.snapshots, owner), block, newValue)])
  }

  function Debit(b: Balances, p: DelegationData, block: nat, from: Address, amount: nat): Result<DelegationData> {
    if from == ZERO then Ok(p)
    else
      var power :- Sub(LatestPower(b, p, from), amount);
      Ok(Record(p, block, from, Cast128(power)))
  }

  function Credit(b: Balances, p: DelegationData, block: nat, to: Address, amount: nat): Result<DelegationData> {
    if to == ZERO then Ok(p)
    else
      var power :- Add(LatestPower(b, p, to), amount);
      Ok(Record(p, block, to, Cast128(power)))
  }

  function Move(
      b: Balances, p: DelegationData, block: nat, from: Address, to: Address, amount: nat): Result<DelegationData>
  {
    if from == to then Ok(p)
    else
      var q :- Debit(b, p, block, from, amount);
      Credit(b, q, block, to, amount)
  }

  function DelegateTo(
      b: Balances, p: DelegationData, block: nat, delegator: Address, delegatee: Address): Result<DelegationData>
  {
    var _ :- Require(delegatee != ZERO, InvalidDelegatee);
    var previous := Delegatee(p.delegates, delegator);
    Move(b, p.(delegates := p.delegates[delegator := delegatee]), block, previous, delegatee, Get(b, delegator))
  }

  /** The hook of the first version, which records balances. */
  function RecordBalances(
      b: Balances, p: DelegationData, block: nat, from: Address, to: Address, amount: nat): Result<DelegationData>
  {
    if from == to then Ok(p)
    else
      var q :- if from == ZERO then Ok(p) else
        (var left :- Sub(Get(b, from), amount);
         Ok(Record(p, block, from, Cast128(left))));
      if to == ZERO then Ok(q) else
        (var sum :- Add(Get(b, to), amount);
         Ok(Record(q, block, to, Cast128(sum))))
  }

  /** Reading the power of `u` at `blockNumber` while the chain is at `block`. */
  function PowerAt(b: Balances, p: DelegationData, block: nat, u: Address, blockNumber: nat): Result<nat> {
    var _ :- Require(blockNumber <= block, InvalidBlockNumber);
    Ok(if History(p.snapshots, u) == [] then Get(b, u) else ValueAt(History(p.snapshots, u), blockNumber))
  }

  // ---------- what the records stand for ----------

  function Counted(b: Balances, delegates: map<Address, Address>, u: Address): Address -> int {
    (a: Address) => if Delegatee(delegates, a) == u then Get(b, a) else 0
  }

  /** The power of `u` by definition: the balances of all accounts whose delegatee is `u`. */
  ghost function DelegatedPower(b: Balances, delegates: map<Address, Address>, u: Address): int {
    Sum(b.Keys, Counted(b, delegates, u))
  }

  ghost predicate Recorded(h: Histories, u: Address) {
    History(h, u) != []
  }

  ghost predicate Ordered(h: Histories, block: nat) {
    forall u {:trigger WrittenBy(History(h, u), block)} :: WrittenBy(History(h, u), block)
  }

  /** A delegation always left a record on both sides. */
  ghost predicate DelegationsRecorded(p: DelegationData) {
    && Delegatee(p.delegates, ZERO) == ZERO
    && forall a ::
         Delegatee(p.delegates, a) != a ==> Recorded(p.snapshots, a) && Recorded(p.snapshots, Delegatee(p.delegates, a))
  }

  ghost predicate PowersExact(b: Balances, p: DelegationData) {
    forall u :: u != ZERO ==> LatestPower(b, p, u) == DelegatedPower(b, p.delegates, u)
  }

  /** Nobody without a record in `h` has another balance in `c` than in `b`. */
  ghost predicate UnrecordedSame(b: Balances, c: Balances, h: Histories) {
    forall u :: u != ZERO && !Recorded(h, u) ==> Get(c, u) == Get(b, u)
  }

  /** What every step keeps. */
  ghost predicate PowerInv(b: Balances, p: DelegationData, block: nat) {
    Ordered(p.snapshots, block) && DelegationsRecorded(p) && PowersExact(b, p)
  }

  /** What every step from an empty deployment keeps besides. */
  ghost predicate HoldersRecorded(b: Balances, p: DelegationData) {
    forall u :: u != ZERO && !Recorded(p.snapshots, u) ==> Get(b, u) == 0
  }

  // ---------- moving balances ----------

  function Lower(b: Balances, from: Address, amount: nat): Balances
    requires from != ZERO ==> amount <= Get(b, from)
  {
    if from == ZERO then b else b[from := Get(b, from) - amount]
  }

  function Raise(b: Balances, to: Address, amount: nat): Balances {
    if to == ZERO then b else b[to := Get(b, to) + amount]
  }

  /** The balances after `amount` went from `from` to `to`; the zero address stands for outside. */
  function Shift(b: Balances, from: Address, to: Address, amount: nat): Balances
    requires from != ZERO ==> amount <= Get(b, from)
  {
    Raise(Lower(b, from, amount), to, amount)
  }

  lemma DelegatedUpdate(b: Balances, ds: map<Address, Address>, u: Address, a: Address, v: nat)
    ensures DelegatedPower(b[a := v], ds, u)
         == DelegatedPower(b, ds, u) + if Delegatee(ds, a) == u then v - Get(b, a) else 0
  {
    SumPoint(b.Keys, Counted(b, ds, u), Counted(b[a := v], ds, u), a);
    assert b[a := v].Keys == b.Keys + {a};
  }

  lemma DelegatedRedirect(b: Balances, ds: map<Address, Address>, u: Address, a: Address, d: Address)
    requires d != ZERO
    ensures DelegatedPower(b, ds[a := d], u)
         == DelegatedPower(b, ds, u)
            - (if Delegatee(ds, a) == u then Get(b, a) else 0)
            + (if d == u then Get(b, a) else 0)
  {
    var f, g := Counted(b, ds, u), Counted(b, ds[a := d], u);
    if a in b {
      SumPoint(b.Keys, f, g, a);
      assert b.Keys + {a} == b.Keys;
    } else {
      SumSame(b.Keys, f, g);
    }
  }

  lemma DelegatedLower(b: Balances, ds: map<Address, Address>, u: Address, from: Address, amount: nat)
    requires Delegatee(ds, ZERO) == ZERO && u != ZERO
    requires from != ZERO ==> amount <= Get(b, from)
    ensures DelegatedPower(Lower(b, from, amount), ds, u)
         == DelegatedPower(b, ds, u) - if Delegatee(ds, from) == u then amount else 0
  {
    if from != ZERO {
      DelegatedUpdate(b, ds, u, from, Get(b, from) - amount);
    }
  }

  lemma DelegatedRaise(b: Balances, ds: map<Address, Address>, u: Address, to: Address, amount: nat)
    requires Delegatee(ds, ZERO) == ZERO && u != ZERO
    ensures DelegatedPower(Raise(b, to, amount), ds, u)
         == DelegatedPower(b, ds, u) + if Delegatee(ds, to) == u then amount else 0
  {
    if to != ZERO {
      DelegatedUpdate(b, ds, u, to, Get(b, to) + amount);
    }
  }

  lemma DelegatedShift(b: Balances, ds: map<Address, Address>, u: Address, from: Address, to: Address, amount: nat)
    requires Delegatee(ds, ZERO) == ZERO && u != ZERO
    requires from != ZERO ==> amount <= Get(b, from)
    ensures DelegatedPower(Shift(b, from, to, amount), ds, u)
         == DelegatedPower(b, ds, u)
            - (if Delegatee(ds, from) == u then amount else 0)
            + (if Delegatee(ds, to) == u then amount else 0)
  {
    DelegatedLower(b, ds, u, from, amount);
    DelegatedRaise(Lower(b, from, amount), ds, u, to, amount);
  }

  lemma TotalLower(b: Balances, from: Address, amount: nat)
    requires from != ZERO ==> amount <= Get(b, from)
    ensures Total(Lower(b, from, amount)) == Total(b) - if from == ZERO then 0 else amount
  {
    if from != ZERO {
      TotalUpdate(b, from, Get(b, from) - amount);
    }
  }

  lemma TotalRaise(b: Balances, to: Address, amount: nat)
    ensures Total(Raise(b, to, amount)) == Total(b) + if to == ZERO then 0 else amount
  {
    if to != ZERO {
      TotalUpdate(b, to, Get(b, to) + amount);
    }
  }

  lemma TotalShift(b: Balances, from: Address, to: Address, amount: nat)
    requires from != ZERO ==> amount <= Get(b, from)
    ensures Total(Shift(b, from, to, amount))
         == Total(b) - (if from == ZERO then 0 else amount) + (if to == ZERO then 0 else amount)
  {
    TotalLower(b, from, amount);
    TotalRaise(Lower(b, from, amount), to, amount);
  }

  /** No account has more power than there are tokens, nor less than any one delegator's balance. */
  lemma DelegatedBounds(b: Balances, ds: map<Address, Address>, a: Address)
    ensures Get(b, a) <= DelegatedPower(b, ds, Delegatee(ds, a)) <= Total(b)
    ensures forall u :: 0 <= DelegatedPower(b, ds, u) <= Total(b)
  {
    forall u ensures 0 <= DelegatedPower(b, ds, u) <= Total(b) {
      SumLe(b.Keys, Counted(b, ds, u), Amounts(b));
      var z := (x: Address) => 0;
      SumZero(b.Keys, z);
      SumLe(b.Keys, z, Counted(b, ds, u));
    }
    if a in b {
      var f := Counted(b, ds, Delegatee(ds, a));
      var z := (x: Address) => 0;
      SumSplit(b.Keys, f, a);
      SumZero(b.Keys - {a}, z);
      SumLe(b.Keys - {a}, z, f);
    }
  }

  // ---------- what a step does to the records ----------

  /** A record only grows, and only at the current block: no reading at an earlier block
      changes, and a first entry carries the current block. */
  ghost predicate Grown(s: seq<Snapshot>, t: seq<Snapshot>, block: nat) {
    && (forall b: nat :: b < block ==> ValueAt(t, b) == ValueAt(s, b))
    && (s != [] ==> t != [] && t[0].blockNumber == s[0].blockNumber)
    && (s == [] && t != [] ==> t[0].blockNumber == block)
  }

  ghost predicate Extends(h: Histories, k: Histories, block: nat) {
    forall u {:trigger Grown(History(h, u), History(k, u), block)} :: Grown(History(h, u), History(k, u), block)
  }

  lemma WriteGrows(s: seq<Snapshot>, block: nat, v: nat)
    requires WrittenBy(s, block) && block < UINT128
    ensures var w := Write(s, block, v);
      WrittenBy(w, block) && w != [] && w[|w| - 1].value == v && Grown(s, w, block)
  {
    forall b: nat | b < block
      ensures ValueAt(Write(s, block, v), b) == ValueAt(s, b)
    {
      WriteReadsBack(s, block, v, b);
    }
    WriteReadsBack(s, block, v, block);
  }

  lemma RecordEffect(p: DelegationData, block: nat, owner: Address, v: nat)
    requires Ordered(p.snapshots, block) && block < UINT128
    ensures var q := Record(p, block, owner, v);
      && q.delegates == p.delegates
      && Ordered(q.snapshots, block) && Extends(p.snapshots, q.snapshots, block)
      && Recorded(q.snapshots, owner) && History(q.snapshots, owner)[|History(q.snapshots, owner)| - 1].value == v
      && forall u :: u != owner ==> History(q.snapshots, u) == History(p.snapshots, u)
  {
    var q := Record(p, block, owner, v);
    forall u
      ensures WrittenBy(History(q.snapshots, u), block)
        && Grown(History(p.snapshots, u), History(q.snapshots, u), block)
    {
      assert WrittenBy(History(p.snapshots, u), block);
      if u == owner {
        WriteGrows(History(p.snapshots, u), block, v);
      }
    }
    assert WrittenBy(History(p.snapshots, owner), block);
    WriteGrows(History(p.snapshots, owner), block, v);
  }

  lemma ExtendsTransitive(h: Histories, k: Histories, l: Histories, block: nat)
    requires Extends(h, k, block) && Extends(k, l, block)
    ensures Extends(h, l, block)
  {
    forall u
      ensures Grown(History(h, u), History(l, u), block)
    {
      assert Grown(History(h, u), History(k, u), block) && Grown(History(k, u), History(l, u), block);
    }
  }

  /** `q` is `p` with the power of `x` (unless it is the outside) on record as `v`. */
  ghost predicate Sets(p: DelegationData, q: DelegationData, block: nat, x: Address, v: int) {
    && q.delegates == p.delegates
    && Ordered(q.snapshots, block) && Extends(p.snapshots, q.snapshots, block)
    && (x != ZERO ==> Recorded(q.snapshots, x) && History(q.snapshots, x)[|History(q.snapshots, x)| - 1].value == v)
    && forall u :: u != x || x == ZERO ==> History(q.snapshots, u) == History(p.snapshots, u)
  }

  /** While the recorded totals fit, the casts to 128 bits lose nothing. */
  lemma DebitIs(b: Balances, p: DelegationData, block: nat, x: Address, amount: nat)
    requires x != ZERO && amount <= LatestPower(b, p, x) < UINT128
    ensures Debit(b, p, block, x, amount) == Ok(Record(p, block, x, LatestPower(b, p, x) - amount))
  {
  }

  lemma CreditIs(b: Balances, p: DelegationData, block: nat, y: Address, amount: nat)
    requires y != ZERO && LatestPower(b, p, y) + amount < UINT128
    ensures Credit(b, p, block, y, amount) == Ok(Record(p, block, y, LatestPower(b, p, y) + amount))
  {
  }

  lemma DebitEffect(b: Balances, p: DelegationData, block: nat, x: Address, amount: nat)
    requires Ordered(p.snapshots, block) && block < UINT128
    requires x != ZERO ==> amount <= LatestPower(b, p, x) < UINT128
    ensures Debit(b, p, block, x, amount).Ok?
    ensures Sets(p, Debit(b, p, block, x, amount).value, block, x, LatestPower(b, p, x) - amount)
  {
    if x != ZERO {
      var v := LatestPower(b, p, x) - amount;
      DebitIs(b, p, block, x, amount);
      assert Sets(p, Record(p, block, x, v), block, x, v) by {
        RecordEffect(p, block, x, v);
      }
    }
  }

  lemma CreditEffect(b: Balances, p: DelegationData, block: nat, y: Address, amount: nat)
    requires Ordered(p.snapshots, block) && block < UINT128
    requires y != ZERO ==> LatestPower(b, p, y) + amount < UINT128
    ensures Credit(b, p, block, y, amount).Ok?
    ensures Sets(p, Credit(b, p, block, y, amount).value, block, y, LatestPower(b, p, y) + amount)
  {
    if y != ZERO {
      var v := LatestPower(b, p, y) + amount;
      CreditIs(b, p, block, y, amount);
      assert Sets(p, Record(p, block, y, v), block, y, v) by {
        RecordEffect(p, block, y, v);
      }
    }
  }

  /** Both ends of a move (outside excepted) get a record of their power less, or plus, the
      amount, and nobody else's record is touched. */
  ghost predicate Moved(
      b: Balances, p: DelegationData, q: DelegationData, block: nat, x: Address, y: Address, amount: nat)
  {
    && q.delegates == p.delegates
    && Ordered(q.snapshots, block) && Extends(p.snapshots, q.snapshots, block)
    && (x != ZERO ==> Recorded(q.snapshots, x) && LatestPower(b, q, x) == LatestPower(b, p, x) - amount)
    && (y != ZERO ==> Recorded(q.snapshots, y) && LatestPower(b, q, y) == LatestPower(b, p, y) + amount)
    && forall u :: (u != x || x == ZERO) && (u != y || y == ZERO) ==> History(q.snapshots, u) == History(p.snapshots, u)
  }

  lemma MoveEffect(b: Balances, p: DelegationData, block: nat, x: Address, y: Address, amount: nat)
    requires Ordered(p.snapshots, block) && block < UINT128
    requires x != y
    requires x != ZERO ==> amount <= LatestPower(b, p, x) < UINT128
    requires y != ZERO ==> LatestPower(b, p, y) + amount < UINT128
    ensures Move(b, p, block, x, y, amount).Ok?
    ensures Moved(b, p, Move(b, p, block, x, y, amount).value, block, x, y, amount)
  {
    DebitEffect(b, p, block, x, amount);
    var q := Debit(b, p, block, x, amount).value;
    assert y != ZERO ==> History(q.snapshots, y) == History(p.snapshots, y);
    CreditEffect(b, q, block, y, amount);
    ExtendsTransitive(p.snapshots, q.snapshots, Credit(b, q, block, y, amount).value.snapshots, block);
  }

  /** An account nobody recorded neither delegates nor has delegators, so moving tokens
      without recording it leaves its balance alone. */
  lemma UnrecordedKeepsBalance(
      b: Balances, p: DelegationData, q: DelegationData, from: Address, to: Address, amount: nat, u: Address)
    requires DelegationsRecorded(p)
    requires from != ZERO ==> amount <= Get(b, from)
    requires var x, y := Delegatee(p.delegates, from), Delegatee(p.delegates, to);
      x != y ==> (x != ZERO ==> Recorded(q.snapshots, x)) && (y != ZERO ==> Recorded(q.snapshots, y))
    requires forall a :: Recorded(p.snapshots, a) ==> Recorded(q.snapshots, a)
    requires u != ZERO && !Recorded(q.snapshots, u)
    ensures Get(Shift(b, from, to, amount), u) == Get(b, u)
  {
    if u == from || u == to {
      assert from == to;
    }
  }

  /** The amount fits under the sender's delegatee's power, and the receiver's delegatee's
      power stays below the number of tokens. */
  lemma MoveFits(b: Balances, p: DelegationData, from: Address, to: Address, amount: nat)
    requires PowersExact(b, p) && Delegatee(p.delegates, ZERO) == ZERO
    requires from != ZERO ==> amount <= Get(b, from)
    ensures var x, y := Delegatee(p.delegates, from), Delegatee(p.delegates, to);
      && (x != ZERO ==> amount <= LatestPower(b, p, x) <= Total(b))
      && (y != ZERO && x != y ==> LatestPower(b, p, y) + amount <= Total(Shift(b, from, to, amount)))
  {
    var ds := p.delegates;
    var x, y := Delegatee(ds, from), Delegatee(ds, to);
    DelegatedBounds(b, ds, from);
    if y != ZERO && x != y {
      assert LatestPower(b, p, y) == DelegatedPower(b, ds, y);
      DelegatedShift(b, ds, y, from, to, amount);
      DelegatedBounds(Shift(b, from, to, amount), ds, to);
    }
  }

  /** If one account's record follows the amount, its power stays exact. */
  lemma PowerAfter(
      b: Balances, p: DelegationData, q: DelegationData, from: Address, to: Address, amount: nat, u: Address)
    requires u != ZERO && Delegatee(p.delegates, ZERO) == ZERO
    requires from != ZERO ==> amount <= Get(b, from)
    requires LatestPower(b, p, u) == DelegatedPower(b, p.delegates, u)
    requires var x, y := Delegatee(p.delegates, from), Delegatee(p.delegates, to);
      if x == y || (u != x && u != y) then History(q.snapshots, u) == History(p.snapshots, u)
      else
        && Recorded(q.snapshots, u)
        && (u == y ==> LatestPower(b, q, u) == LatestPower(b, p, u) + amount)
        && (u != y ==> LatestPower(b, q, u) == LatestPower(b, p, u) - amount)
    requires !Recorded(q.snapshots, u) ==> Get(Shift(b, from, to, amount), u) == Get(b, u)
    ensures var c := Shift(b, from, to, amount);
      LatestPower(c, q, u) == DelegatedPower(c, p.delegates, u)
  {
    DelegatedShift(b, p.delegates, u, from, to, amount);
  }

  ghost predicate MovedOrSame(
      b: Balances, p: DelegationData, q: DelegationData, block: nat, x: Address, y: Address, amount: nat)
  {
    if x == y then q == p else Moved(b, p, q, block, x, y, amount)
  }

  lemma MoveRecords(b: Balances, p: DelegationData, block: nat, from: Address, to: Address, amount: nat)
    requires PowerInv(b, p, block) && block < UINT128
    requires from != ZERO ==> amount <= Get(b, from)
    requires Total(b) < UINT128 && Total(Shift(b, from, to, amount)) < UINT128
    ensures var x, y := Delegatee(p.delegates, from), Delegatee(p.delegates, to);
      var r := Move(b, p, block, x, y, amount);
      r.Ok? && MovedOrSame(b, p, r.value, block, x, y, amount)
  {
    MoveFits(b, p, from, to, amount);
    var x, y := Delegatee(p.delegates, from), Delegatee(p.delegates, to);
    if x != y {
      MoveEffect(b, p, block, x, y, amount);
    }
  }

  /** A move forgets no record. */
  lemma MovedKeepsRecords(
      p: DelegationData, q: DelegationData, b: Balances, block: nat, x: Address, y: Address, amount: nat)
    requires Ordered(p.snapshots, block) && DelegationsRecorded(p) && MovedOrSame(b, p, q, block, x, y, amount)
    ensures q.delegates == p.delegates && Ordered(q.snapshots, block) && Extends(p.snapshots, q.snapshots, block)
    ensures forall a :: Recorded(p.snapshots, a) ==> Recorded(q.snapshots, a)
    ensures DelegationsRecorded(q)
  {
    assert Extends(p.snapshots, q.snapshots, block);
    forall a | Recorded(p.snapshots, a)
      ensures Recorded(q.snapshots, a)
    {
      assert Grown(History(p.snapshots, a), History(q.snapshots, a), block);
    }
  }

  lemma MoveExact(
      b: Balances, p: DelegationData, q: DelegationData, block: nat, from: Address, to: Address, amount: nat)
    requires DelegationsRecorded(p) && PowersExact(b, p)
    requires from != ZERO ==> amount <= Get(b, from)
    requires MovedOrSame(b, p, q, block, Delegatee(p.delegates, from), Delegatee(p.delegates, to), amount)
    ensures var c := Shift(b, from, to, amount);
      forall u :: u != ZERO ==> LatestPower(c, q, u) == DelegatedPower(c, p.delegates, u)
    ensures forall u :: u != ZERO && !Recorded(q.snapshots, u) ==> Get(Shift(b, from, to, amount), u) == Get(b, u)
  {
    var x, y := Delegatee(p.delegates, from), Delegatee(p.delegates, to);
    forall u | u != ZERO && !Recorded(q.snapshots, u)
      ensures Get(Shift(b, from, to, amount), u) == Get(b, u)
    {
      UnrecordedKeepsBalance(b, p, q, from, to, amount, u);
    }
    forall u | u != ZERO
      ensures LatestPower(Shift(b, from, to, amount), q, u)
        == DelegatedPower(Shift(b, from, to, amount), p.delegates, u)
    {
      assert LatestPower(b, p, u) == DelegatedPower(b, p.delegates, u);
      PowerAfter(b, p, q, from, to, amount, u);
    }
  }

  /** Moving tokens and the power they carry keeps every power exact. */
  lemma MoveKeeps(b: Balances, p: DelegationData, block: nat, from: Address, to: Address, amount: nat)
    requires PowerInv(b, p, block) && block < UINT128
    requires from != ZERO ==> amount <= Get(b, from)
    requires Total(b) < UINT128 && Total(Shift(b, from, to, amount)) < UINT128
    ensures var r := Move(b, p, block, Delegatee(p.delegates, from), Delegatee(p.delegates, to), amount);
      && r.Ok? && r.value.delegates == p.delegates
      && PowerInv(Shift(b, from, to, amount), r.value, block)
      && Extends(p.snapshots, r.value.snapshots, block)
      && (HoldersRecorded(b, p) ==> HoldersRecorded(Shift(b, from, to, amount), r.value))
      && UnrecordedSame(b, Shift(b, from, to, amount), r.value.snapshots)
  {
    MoveRecords(b, p, block, from, to, amount);
    var x, y := Delegatee(p.delegates, from), Delegatee(p.delegates, to);
    var q := Move(b, p, block, x, y, amount).value;
    MovedKeepsRecords(p, q, b, block, x, y, amount);
    MoveExact(b, p, q, block, from, to, amount);
  }

  lemma RedirectExact(
      b: Balances, p: DelegationData, q: DelegationData, block: nat, delegator: Address, delegatee: Address)
    requires PowersExact(b, p) && delegatee != ZERO
    requires q.delegates == p.delegates[delegator := delegatee]
    requires var x := Delegatee(p.delegates, delegator);
      && (forall u ::
            x == delegatee || (u != x && u != delegatee) ==> History(q.snapshots, u) == History(p.snapshots, u))
      && (x != delegatee ==>
          && LatestPower(b, q, x) == LatestPower(b, p, x) - Get(b, delegator)
          && LatestPower(b, q, delegatee) == LatestPower(b, p, delegatee) + Get(b, delegator))
    ensures PowersExact(b, q)
  {
    forall u | u != ZERO
      ensures LatestPower(b, q, u) == DelegatedPower(b, q.delegates, u)
    {
      assert LatestPower(b, p, u) == DelegatedPower(b, p.delegates, u);
      DelegatedRedirect(b, p.delegates, u, delegator, delegatee);
    }
  }

  /** What delegating does to the records alone. */
  lemma DelegateRecords(b: Balances, p: DelegationData, block: nat, delegator: Address, delegatee: Address)
    requires PowerInv(b, p, block) && block < UINT128
    requires Total(b) < UINT128
    requires delegator != ZERO && delegatee != ZERO
    ensures var r := DelegateTo(b, p, block, delegator, delegatee);
      var p' := p.(delegates := p.delegates[delegator := delegatee]);
      r.Ok? && MovedOrSame(b, p', r.value, block, Delegatee(p.delegates, delegator), delegatee, Get(b, delegator))
  {
    var p' := p.(delegates := p.delegates[delegator := delegatee]);
    var x, amount := Delegatee(p.delegates, delegator), Get(b, delegator);
    if x != delegatee {
      DelegatedBounds(b, p.delegates, delegator);
      DelegatedBounds(b, p'.delegates, delegator);
      DelegatedRedirect(b, p.delegates, delegatee, delegator, delegatee);
      assert LatestPower(b, p, x) == LatestPower(b, p', x);
      assert LatestPower(b, p, delegatee) == LatestPower(b, p', delegatee);
      MoveEffect(b, p', block, x, delegatee, amount);
    }
  }

  lemma RedirectRecorded(p: DelegationData, q: DelegationData, block: nat, delegator: Address, delegatee: Address)
    requires DelegationsRecorded(p) && Extends(p.snapshots, q.snapshots, block)
    requires delegator != ZERO && delegatee != ZERO
    requires q.delegates == p.delegates[delegator := delegatee]
    requires var x := Delegatee(p.delegates, delegator);
      x != delegatee ==> Recorded(q.snapshots, x) && Recorded(q.snapshots, delegatee)
    ensures DelegationsRecorded(q)
  {
    forall a | Delegatee(q.delegates, a) != a
      ensures Recorded(q.snapshots, a) && Recorded(q.snapshots, Delegatee(q.delegates, a))
    {
      var d := Delegatee(p.delegates, a);
      assert Grown(History(p.snapshots, a), History(q.snapshots, a), block);
      assert Grown(History(p.snapshots, d), History(q.snapshots, d), block);
    }
  }

  /** An account without a record after delegating had none before. */
  lemma RedirectHolders(b: Balances, p: DelegationData, q: DelegationData, block: nat)
    requires HoldersRecorded(b, p) && Extends(p.snapshots, q.snapshots, block)
    ensures HoldersRecorded(b, q)
  {
    forall u | u != ZERO && !Recorded(q.snapshots, u)
      ensures Get(b, u) == 0
    {
      assert Grown(History(p.snapshots, u), History(q.snapshots, u), block);
    }
  }

  /** Delegating moves exactly the delegator's balance between the two delegatees' powers. */
  lemma DelegateKeeps(b: Balances, p: DelegationData, block: nat, delegator: Address, delegatee: Address)
    requires PowerInv(b, p, block) && block < UINT128
    requires Total(b) < UINT128
    requires delegator != ZERO && delegatee != ZERO
    ensures var r := DelegateTo(b, p, block, delegator, delegatee);
      && r.Ok? && r.value.delegates == p.delegates[delegator := delegatee]
      && PowerInv(b, r.value, block)
      && Extends(p.snapshots, r.value.snapshots, block)
      && (HoldersRecorded(b, p) ==> HoldersRecorded(b, r.value))
  {
    var p' := p.(delegates := p.delegates[delegator := delegatee]);
    DelegateRecords(b, p, block, delegator, delegatee);
    var q := DelegateTo(b, p, block, delegator, delegatee).value;
    assert forall u :: LatestPower(b, p', u) == LatestPower(b, p, u);
    RedirectExact(b, p, q, block, delegator, delegatee);
    RedirectRecorded(p, q, block, delegator, delegatee);
    if HoldersRecorded(b, p) {
      RedirectHolders(b, p, q, block);
    }
  }

  /** Without delegations everybody's power is the balance. */
  lemma OwnPower(b: Balances, ds: map<Address, Address>, u: Address)
    requires forall a :: Delegatee(ds, a) == a
    ensures DelegatedPower(b, ds, u) == Get(b, u)
  {
    SumSingle(b.Keys, Counted(b, ds, u), u);
  }

  /** On records without delegations the first version's hook does what the later one does. */
  lemma RecordBalancesIsMove(b: Balances, p: DelegationData, block: nat, from: Address, to: Address, amount: nat)
    requires PowersExact(b, p) && p.delegates == map[]
    ensures RecordBalances(b, p, block, from, to, amount) == Move(b, p, block, from, to, amount)
  {
    forall u | u != ZERO
      ensures LatestPower(b, p, u) == Get(b, u)
    {
      OwnPower(b, p.delegates, u);
    }
    if from != ZERO && amount <= Get(b, from) && from != to && to != ZERO {
      var q := Record(p, block, from, Cast128(Get(b, from) - amount));
      assert History(q.snapshots, to) == History(p.snapshots, to);
    }
  }

  // ---------- all powers together ----------

  ghost function Powers(b: Balances, p: DelegationData): Address -> int {
    (u: Address) => LatestPower(b, p, u)
  }

  ghost function PartialPowers(d: set<Address>, b: Balances, ds: map<Address, Address>): Address -> int {
    (u: Address) => Sum(d, Counted(b, ds, u))
  }

  lemma OneMoreHolder(d: set<Address>, b: Balances, ds: map<Address, Address>, a: Address, u: Address)
    requires a in d
    ensures PartialPowers(d, b, ds)(u)
         == PartialPowers(d - {a}, b, ds)(u) + if Delegatee(ds, a) == u then Get(b, a) else 0
  {
    SumSplit(d, Counted(b, ds, u), a);
  }

  /** Every token is counted once among the delegatees. */
  lemma {:induction false} EachCountedOnce(us: set<Address>, d: set<Address>, b: Balances, ds: map<Address, Address>)
    requires forall a :: a in d ==> Delegatee(ds, a) in us
    ensures Sum(us, PartialPowers(d, b, ds)) == Sum(d, Amounts(b))
    decreases d
  {
    var g := PartialPowers(d, b, ds);
    if d == {} {
      forall u
        ensures g(u) == 0
      {
        SumZero({}, Counted(b, ds, u));
      }
      SumZero(us, g);
    } else {
      var a :| a in d;
      var f, x := PartialPowers(d - {a}, b, ds), Delegatee(ds, a);
      EachCountedOnce(us, d - {a}, b, ds);
      SumSplit(d, Amounts(b), a);
      forall u
        ensures g(u) == f(u) + if u == x then Get(b, a) else 0
      {
        OneMoreHolder(d, b, ds, a, u);
      }
      assert Sum(us + {x}, g) == Sum(us, f) + Get(b, a) by {
        SumPoint(us, f, g, x);
      }
      assert us + {x} == us;
    }
  }

  /** The recorded powers of all delegatees of holders add up to the token supply. */
  lemma PowersSumToSupply(b: Balances, p: DelegationData, us: set<Address>)
    requires PowersExact(b, p) && ZERO !in us
    requires forall a :: a in b ==> Delegatee(p.delegates, a) in us
    ensures Sum(us, Powers(b, p)) == Total(b)
  {
    EachCountedOnce(us, b.Keys, b, p.delegates);
    forall u | u in us
      ensures Powers(b, p)(u) == PartialPowers(b.Keys, b, p.delegates)(u)
    {
      assert LatestPower(b, p, u) == DelegatedPower(b, p.delegates, u);
    }
    SumSame(us, Powers(b, p), PartialPowers(b.Keys, b, p.delegates));
  }

  /** A credit is recorded in full exactly when the new power fits in 128 bits. */
  lemma CreditInFullIff(b: Balances, p: DelegationData, block: nat, y: Address, amount: nat)
    requires Ordered(p.snapshots, block) && block < UINT128 && y != ZERO
    requires LatestPower(b, p, y) + amount < UINT256
    ensures Credit(b, p, block, y, amount).Ok?
    ensures LatestPower(b, Credit(b, p, block, y, amount).value, y) == LatestPower(b, p, y) + amount
       <==> LatestPower(b, p, y) + amount < UINT128
  {
    RecordEffect(p, block, y, Cast128(LatestPower(b, p, y) + amount));
  }
}
