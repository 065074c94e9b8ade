/** The records and delegates of one type of power as they run: updated in place, read back by
    binary search. */
module DelegationStore {
  import opened Evm
  import opened Snapshots
  import opened Delegation

  class Store {
    var snapshots: Histories
    var delegates: map<Address, Address>

    function Contents(): DelegationData
      reads this
    {
      DelegationData(snapshots, delegates)
    }

    constructor ()
      ensures Contents() == NO_DELEGATION
    {
      snapshots := map[];
      delegates := map[];
    }

    method WriteSnapshot(block: nat, owner: Address, newValue: nat)
      modifies this`snapshots
      ensures Contents() == Record(old(Contents()), block, owner, newValue)
    {
      var currentBlock := Cast128(block);
      var ownerSnapshots := History(snapshots, owner);
      var ownerSnapshotsCount := |ownerSnapshots|;
      if ownerSnapshotsCount != 0 && ownerSnapshots[ownerSnapshotsCount - 1].blockNumber == currentBlock {
        ownerSnapshots := ownerSnapshots[ownerSnapshotsCount - 1 :=
          ownerSnapshots[ownerSnapshotsCount - 1].(value := newValue)];
      } else {
        ownerSnapshots := ownerSnapshots + [Snapshot(currentBlock, newValue)];
      }
      snapshots := snapshots[owner := ownerSnapshots];
    }

    method MoveDelegates(
        balances: Balances, block: nat, from: Address, to: Address, amount: nat) returns (r: Result<()>)
      modifies this`snapshots
      ensures r.Ok? ==> Move(balances, old(Contents()), block, from, to, amount) == Ok(Contents())
      ensures r.Revert? ==> Move(balances, old(Contents()), block, from, to, amount) == Revert(r.reason)
    {
      if from == to {
        return Ok(());
      }
      if from != ZERO {
        var s := History(snapshots, from);
        var previous := if |s| != 0 then s[|s| - 1].value else Get(balances, from);
        var power :- Sub(previous, amount);
        WriteSnapshot(block, from, Cast128(power));
      }
      if to != ZERO {
        var s := History(snapshots, to);
        var previous := if |s| != 0 then s[|s| - 1].value else Get(balances, to);
        var power :- Add(previous, amount);
        WriteSnapshot(block, to, Cast128(power));
      }
      return Ok(());
    }

    method DelegateByType(
        balances: Balances, block: nat, delegator: Address, delegatee: Address) returns (r: Result<()>)
      modifies this
      ensures r.Ok? ==> DelegateTo(balances, old(Contents()), block, delegator, delegatee) == Ok(Contents())
      ensures r.Revert? ==> DelegateTo(balances, old(Contents()), block, delegator, delegatee) == Revert(r.reason)
    {
      var _ :- Require(delegatee != ZERO, InvalidDelegatee);
      var delegatorBalance := Get(balances, delegator);
      var previousDelegatee := Delegatee(delegates, delegator);
      delegates := delegates[delegator := delegatee];
      r := MoveDelegates(balances, block, previousDelegatee, delegatee, delegatorBalance);
    }

    /** The hook of the first version. */
    method SnapshotBalances(
        balances: Balances, block: nat, from: Address, to: Address, amount: nat) returns (r: Result<()>)
      modifies this`snapshots
      ensures r.Ok? ==> RecordBalances(balances, old(Contents()), block, from, to, amount) == Ok(Contents())
      ensures r.Revert? ==> RecordBalances(balances, old(Contents()), block, from, to, amount) == Revert(r.reason)
    {
      if from == to {
        return Ok(());
      }
      if from != ZERO {
        var left :- Sub(Get(balances, from), amount);
        WriteSnapshot(block, from, Cast128(left));
      }
      if to != ZERO {
        var sum :- Add(Get(balances, to), amount);
        WriteSnapshot(block, to, Cast128(sum));
      }
      return Ok(());
    }

    /** Binary search finds what scanning back from the newest entry finds. */
    method SearchByBlockNumber(balances: Balances, block: nat, user: Address, blockNumber: nat) returns (r: Result<nat>)
      requires Increasing(History(snapshots, user))
      ensures r == PowerAt(balances, Contents(), block, user, blockNumber)
    {
      var _ :- Require(blockNumber <= block, InvalidBlockNumber);
      var s := History(snapshots, user);
      var snapshotsCount := |s|;
      if snapshotsCount == 0 {
        return Ok(Get(balances, user));
      }
      if s[snapshotsCount - 1].blockNumber <= blockNumber {
        return Ok(s[snapshotsCount - 1].value);
      }
      if s[0].blockNumber > blockNumber {
        ValueBeforeFirst(s, blockNumber);
        return Ok(0);
      }
      var lower, upper := 0, snapshotsCount - 1;
      while upper > lower
        invariant 0 <= lower <= upper < snapshotsCount
        invariant s[lower].blockNumber <= blockNumber
        invariant upper + 1 < snapshotsCount ==> blockNumber < s[upper + 1].blockNumber
        decreases upper - lower
      {
        var center := upper - (upper - lower) / 2;
        var snapshot := s[center];
        if snapshot.blockNumber == blockNumber {
          ValueAtIs(s, blockNumber, center);
          return Ok(snapshot.value);
        } else if snapshot.blockNumber < blockNumber {
          lower := center;
        } else {
          upper := center - 1;
        }
      }
      ValueAtIs(s, blockNumber, lower);
      return Ok(s[lower].value);
    }
  }
}
