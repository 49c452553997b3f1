/** The on-chain integer widths, the program's error codes, and the checked
    operations whose failure aborts an instruction. */
module Checked {

  const U64_LIMIT: int := 0x1_0000_0000_0000_0000
  const U128_LIMIT: int := 0x1_0000_0000_0000_0000_0000_0000_0000_0000
  const U256_LIMIT: int := U128_LIMIT * U128_LIMIT

  type u8 = x: int | 0 <= x < 0x100
  type u16 = x: int | 0 <= x < 0x1_0000
  type u64 = x: int | 0 <= x < 0x1_0000_0000_0000_0000
  type u128 = x: int | 0 <= x < 0x1_0000_0000_0000_0000_0000_0000_0000_0000

  /** Why an instruction did not complete.  The first group are returned error
      codes, the second are the aborts of `unwrap`, of a checked build's
      arithmetic, of indexing and of `unreachable!`. */
  datatype Error =
    | CalcPnlError
    | TakePnlError
    | InvalidInput
    | ExceededSlippage
    | InsufficientFunds
    | NotAllowZeroLP
    | InvalidStatus
    | InvalidSupply
    | InvalidMarket
    | InvalidFee
    | InitLpAmountTooLess
    | CheckedSubOverflow
    | ConversionFailure
    | CheckedEmptyFunds
    | MarketLotSizeIsTooLarge
    | InvalidParamsSet
    | InvalidInstructionData
    | Overflow
    | Underflow
    | DivisionByZero
    | IndexOutOfBounds
    | DexRejected
    | Unreachable

  datatype Result<+T> = Success(value: T) | Failure(error: Error) {
    predicate IsFailure() {
      Failure?
    }

    function PropagateFailure<U>(): Result<U>
      requires Failure?
    {
      Failure(error)
    }

    function Extract(): T
      requires Success?
    {
      value
    }
  }

  /** A check that carries no value. */
  datatype Outcome = Pass | Fail(error: Error) {
    predicate IsFailure() {
      Fail?
    }

    function PropagateFailure<U>(): Result<U>
      requires Fail?
    {
      Failure(error)
    }
  }

  function Need(condition: bool, error: Error): Outcome {
    if condition then Pass else Fail(error)
  }

  function ToU64(v: nat): Result<u64> {
    if v < U64_LIMIT then Success(v) else Failure(Overflow)
  }

  function ToU128(v: nat): Result<u128> {
    if v < U128_LIMIT then Success(v) else Failure(Overflow)
  }

  function ToU256(v: nat): Result<nat> {
    if v < U256_LIMIT then Success(v) else Failure(Overflow)
  }

  function Sub(a: nat, b: nat): Result<nat> {
    if b <= a then Success(a - b) else Failure(Underflow)
  }

  function Div(a: nat, b: nat): Result<nat> {
    if b == 0 then Failure(DivisionByZero) else Success(a / b)
  }
}
