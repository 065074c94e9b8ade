/** The machine the contracts run on: unsigned words of fixed width, the checked
    arithmetic of SafeMath, mappings whose absent keys read as zero, and calls that revert. */
module Evm {

  const UINT128: nat := 0x1_0000_0000_0000_0000_0000_0000_0000_0000
  const UINT256: nat := 0x1_0000_0000_0000_0000_0000_0000_0000_0000_0000_0000_0000_0000_0000_0000_0000_0000

  type Address = nat

  const ZERO: Address := 0

  datatype Reason =
    | InvalidZeroAmount
    | InsufficientCooldown
    | UnstakeWindowFinished
    | InvalidBalanceOnCooldown
    | InvalidAmount
    | InvalidDelegatee
    | InvalidBlockNumber
    | OnlyEmissionManager
    | AlreadyInitialized
    | NoSuchFunction
    | ZeroAddress
    | PaymentFailed
    | Overflow
    | Underflow
    | DivisionByZero

  /** What a call does: it returns a value or it reverts. */
  datatype Result<+T> = Ok(value: T) | Revert(reason: Reason) {
    predicate IsFailure() {
      Revert?
    }

    function PropagateFailure<U>(): Result<U>
      requires Revert?
    {
      Revert(reason)
    }

    function Extract(): T
      requires Ok?
    {
      value
    }
  }

  function Require(condition: bool, reason: Reason): Result<()> {
    if condition then Ok(()) else Revert(reason)
  }

  function Add(a: nat, b: nat): Result<nat> {
    if a + b < UINT256 then Ok(a + b) else Revert(Overflow)
  }

  function Sub(a: nat, b: nat, reason: Reason := Underflow): Result<nat> {
    if b <= a then Ok(a - b) else Revert(reason)
  }

  function Mul(a: nat, b: nat): Result<nat> {
    if a * b < UINT256 then Ok(a * b) else Revert(Overflow)
  }

  function Div(a: nat, b: nat): Result<nat> {
    if b > 0 then Ok(a / b) else Revert(DivisionByZero)
  }

  /** The conversion `uint128(x)`, which drops the high bits. */
  function Cast128(x: nat): nat {
    if x < UINT128 then x else x % UINT128
  }

  function Get(m: map<Address, nat>, a: Address): nat {
    if a in m then m[a] else 0
  }

  function Min(a: nat, b: nat): nat {
    if a < b then a else b
  }
}
