/** Values recorded per block, and what reading them back at a block means. */
module Snapshots {
  import opened Evm

  datatype Snapshot = Snapshot(blockNumber: nat, value: nat)

  /** Block numbers strictly increase: at most one entry per block. */
  ghost predicate Increasing(s: seq<Snapshot>) {
    forall i, j :: 0 <= i < j < |s| ==> s[i].blockNumber < s[j].blockNumber
  }

  /** A list written in blocks up to and including `block`. */
  ghost predicate WrittenBy(s: seq<Snapshot>, block: nat) {
    Increasing(s) && (s != [] ==> s[|s| - 1].blockNumber <= block)
  }

  /** The reference reading: scan back from the newest entry to the first one that is not
      after `b`; before the first entry the value is zero. */
  function ValueAt(s: seq<Snapshot>, b: nat): nat {
    if s == [] then 0
    else if s[|s| - 1].blockNumber <= b then s[|s| - 1].value
    else ValueAt(s[..|s| - 1], b)
  }

  /** One write: the entry of the current block is overwritten, otherwise one is appended. */
  function Write(s: seq<Snapshot>, block: nat, newValue: nat): seq<Snapshot> {
    var currentBlock := Cast128(block);
    if s != [] && s[|s| - 1].blockNumber == currentBlock then
      s[|s| - 1 := Snapshot(currentBlock, newValue)]
    else
      s + [Snapshot(currentBlock, newValue)]
  }

  /** A write keeps the order, decides the reading from its own block on, and changes no
      reading at an earlier block. */
  lemma {:induction false} WriteReadsBack(s: seq<Snapshot>, block: nat, v: nat, b: nat)
    requires WrittenBy(s, block) && block < UINT128
    ensures var w := Write(s, block, v);
      && WrittenBy(w, block)
      && w != [] && w[|w| - 1] == Snapshot(block, v)
      && w[0].blockNumber == (if s == [] then block else s[0].blockNumber)
      && ValueAt(w, b) == if block <= b then v else ValueAt(s, b)
  {
    var w := Write(s, block, v);
    var n := |w| - 1;
    if s != [] && s[|s| - 1].blockNumber == block {
      assert w[..n] == s[..n];
    } else {
      assert w[..n] == s;
    }
  }

  /** An entry with no later entry at or before `b` is the one the reference reading finds. */
  lemma {:induction false} ValueAtIs(s: seq<Snapshot>, b: nat, i: nat)
    requires Increasing(s)
    requires i < |s| && s[i].blockNumber <= b
    requires i + 1 < |s| ==> b < s[i + 1].blockNumber
    ensures ValueAt(s, b) == s[i].value
  {
    if i + 1 == |s| {
    } else {
      assert s[i + 1].blockNumber <= s[|s| - 1].blockNumber;
      ValueAtIs(s[..|s| - 1], b, i);
    }
  }

  lemma {:induction false} ValueBeforeFirst(s: seq<Snapshot>, b: nat)
    requires Increasing(s)
    requires s != [] ==> b < s[0].blockNumber
    ensures ValueAt(s, b) == 0
  {
    if s == [] {
    } else {
      assert s[0].blockNumber <= s[|s| - 1].blockNumber;
      ValueBeforeFirst(s[..|s| - 1], b);
    }
  }
}
