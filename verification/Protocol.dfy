/** The program's constants, stored records and emitted events. */
module Protocol {
  import opened Rust

  const LEVERAGE: u16 := 1_000
  const MAX_GROSS_PROFIT_MULTIPLIER: u16 := 5
  const POSITION_DURATION_SECONDS: i64 := 10
  const SETTLEMENT_BUFFER_SECONDS: i64 := 10
  const MAX_ACTIVE_POSITIONS: u32 := 8
  const MIN_POSITION_COLLATERAL: u64 := 1_000_000
  const MAX_POSITION_COLLATERAL: u64 := 1_000_000_000
  const MIN_MARKET_EQUITY: u64 := 100_000_000_000
  const MAX_MARKET_EQUITY: u64 := 100_000_000_000_000
  const USER_OPEN_COLLATERAL_BPS: u16 := 100
  const SAFETY_BUFFER_BPS: u16 := 1_000
  const PROFIT_FEE_BPS: u16 := 1_000
  const PROTOCOL_FEE_SHARE_BPS: u16 := 2_000
  const ORACLE_EXPONENT: int := 8
  const ORACLE_MAX_AGE_SECONDS: u16 := 2
  const ORACLE_MAX_CONFIDENCE_BPS: u16 := 1
  const SETTLEMENT_TASK_ITERATIONS: nat := 25
  const USER_POSITIONS_CAPACITY: nat := 8
  const USER_LIQUIDITY_MARKET_CAPACITY: nat := 8
  const BPS: int := 10_000

  // Account addresses, oracle feeds and task salts are compared only for equality.
  type Pubkey = nat
  type MarketId = u16
  type Salt = nat

  datatype Direction = Up | Down
  datatype MarketMode = Open | CloseOnly
  datatype Outcome = Won | Lost | Breakeven | Refunded

  /** The fields of a Market account that its instructions read or write. */
  datatype Market = Market(
    marketId: MarketId,
    feedId: nat,
    totalShares: u128,
    openCollateral: u64,
    riskEpochEquity: u64,
    activePositions: u32,
    nextNonce: u32,
    mode: MarketMode)
  {
    predicate IsNoRisk() {
      activePositions == 0 && openCollateral == 0
    }
  }

  /** A position is named by its market and its nonce. */
  datatype PosId = PosId(marketId: MarketId, nonce: u32)

  datatype Position = Position(
    marketId: MarketId,
    nonce: u32,
    salt: Salt,
    collateral: u32,
    entryPrice: i64,
    expiresAt: u32,
    direction: Direction)
  {
    function Id(): PosId { PosId(marketId, nonce) }
  }

  datatype LiquidityEntry = LiquidityEntry(
    marketId: MarketId,
    shares: u128,
    pending: u128,
    minAssetsOut: u64)

  datatype Event =
    | PositionCreated(id: PosId, user: Pubkey, entryPrice: i64, collateral: u32, direction: Direction, expiresAt: u32)
    | PositionClosed(id: PosId, outcome: Outcome, payout: u64, lpFee: u64, platformFee: u64)
    | MarketModeChanged(marketId: MarketId, mode: MarketMode)
    | LiquidityDeposited(marketId: MarketId, user: Pubkey, assets: u64, shares: u128)
    | WithdrawalRequested(marketId: MarketId, user: Pubkey, shares: u128, minAssetsOut: u64)
    | WithdrawalCancelled(marketId: MarketId, user: Pubkey, shares: u128)
    | WithdrawalExecuted(marketId: MarketId, user: Pubkey, shares: u128, assets: u64)
    | ProtocolFeesWithdrawn(marketId: MarketId, assets: u64)
    | FallbackPayoutClaimed(user: Pubkey, assets: u64)
}
