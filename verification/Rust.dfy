/** The fixed-width integers, checked conversions and truncating division of Rust,
    and the program's error codes as a failure-compatible result. */
module Rust {

  type u16 = n: int | 0 <= n <= 0xFFFF
  type u32 = n: int | 0 <= n <= 0xFFFF_FFFF
  type u64 = n: int | 0 <= n <= U64_MAX
  type u128 = n: int | 0 <= n <= U128_MAX
  type i64 = n: int | -0x8000_0000_0000_0000 <= n <= 0x7FFF_FFFF_FFFF_FFFF

  const U64_MAX: int := 0xFFFF_FFFF_FFFF_FFFF
  const U128_MAX: int := 0xFFFF_FFFF_FFFF_FFFF_FFFF_FFFF_FFFF_FFFF
  const I128_MAX: int := 0x7FFF_FFFF_FFFF_FFFF_FFFF_FFFF_FFFF_FFFF

  datatype Option<+T> = None | Some(value: T)

  datatype ErrorCode =
    | InvalidAmount | InvalidConfig | MathOverflow | MarketCloseOnly | ActiveRisk
    | RiskLimitExceeded | InsufficientLiquidity | SlippageExceeded
    | WithdrawalAlreadyPending | NoPendingWithdrawal
    | OracleExponentMismatch | InvalidOraclePrice
    | UserPositionsCapacityExceeded | UserLiquidityCapacityExceeded | UserLiquidityMarketNotFound
    | ActiveUserLiquidity | InvalidNonce | InvalidSettlementTask | InvalidSettlementTrigger
    | SettlementTaskCreationFailed | InvalidSessionTokenDelegate | InsufficientSessionTokenAllowance
      // Raised by the runtime or the token program rather than by the program itself.
    | AccountNotInitialized | AccountAlreadyInUse | InsufficientFunds | TokenOverflow | TaskNotDue
      // Raised by the indexer.
    | MixedBatch | ValueOutOfRange

  datatype Result<+T> = Ok(value: T) | Err(error: ErrorCode) {
    predicate IsFailure() { Err? }

    function PropagateFailure<U>(): Result<U>
      requires Err?
    {
      Err(error)
    }

    function Extract(): T
      requires Ok?
    {
      value
    }
  }

  /** `require!(condition, error)`. */
  function Require(condition: bool, error: ErrorCode): Result<()> {
    if condition then Ok(()) else Err(error)
  }

  // Every checked operation of the program maps its `None` to MathOverflow, so a checked
  // operation is the exact result narrowed to the width of the operands.

  function ToU32(x: int): Result<u32> {
    if 0 <= x <= 0xFFFF_FFFF then Ok(x) else Err(MathOverflow)
  }

  function ToU64(x: int): Result<u64> {
    if 0 <= x <= U64_MAX then Ok(x) else Err(MathOverflow)
  }

  function ToU128(x: int): Result<u128> {
    if 0 <= x <= U128_MAX then Ok(x) else Err(MathOverflow)
  }

  function ToI64(x: int): Result<i64> {
    if -0x8000_0000_0000_0000 <= x <= 0x7FFF_FFFF_FFFF_FFFF then Ok(x) else Err(MathOverflow)
  }

  function ToI128(x: int): Result<int> {
    if -I128_MAX - 1 <= x <= I128_MAX then Ok(x) else Err(MathOverflow)
  }

  function Min(a: int, b: int): int {
    if a <= b then a else b
  }

  /** Signed division as Rust computes it: the quotient is rounded toward zero. */
  function TruncDiv(a: int, b: int): int
    requires b > 0
  {
    if a >= 0 then a / b else -((-a) / b)
  }
}
