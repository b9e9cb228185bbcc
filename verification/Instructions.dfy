/** The result of each instruction as a function of the accounts it loads. The checks come in the
    order of the source, so the error reported is the source's; an error means that the runtime
    rolls the instruction back. */
module Instructions {
  import opened Rust
  import opened Protocol
  import opened MarketMath
  import opened Lists

  /** A token transfer between two different accounts: it moves the exact amount or fails. */
  function TransferBalances(from: u64, to: u64, amount: u64): Result<(u64, u64)> {
    var _ :- Require(amount <= from, InsufficientFunds);
    var _ :- Require(to + amount <= U64_MAX, TokenOverflow);
    Ok((from - amount, to + amount))
  }

  // ----- open_position

  /** The arguments of the instruction, the delegate recorded on the user's token account, and
      whether the scheduler accepts the settlement task. */
  datatype OpenArgs = OpenArgs(
    user: Pubkey, nonce: u32, salt: Salt, direction: Direction, collateral: u64,
    minEntryPrice: i64, maxEntryPrice: i64,
    delegate: Option<Pubkey>, delegatedAmount: u64, sessionSigner: Pubkey, taskAccepted: bool)

  datatype OpenEffect = OpenEffect(
    market: Market, positions: seq<Position>, pool: u64, wallet: u64, event: Event)

  function RequireSessionTokenDelegate(
    delegate: Option<Pubkey>, delegatedAmount: u64, sessionSigner: Pubkey, collateral: u64): Result<()>
  {
    var _ :- Require(delegate == Some(sessionSigner), InvalidSessionTokenDelegate);
    Require(delegatedAmount >= collateral, InsufficientSessionTokenAllowance)
  }

  function UserOpenCollateral(ps: seq<Position>, m: MarketId): Result<u64> {
    ToU64(Total(ps, m, CollateralOf))
  }

  /** What the checks of an open establish before any account changes. */
  datatype Admission = Admission(price: i64, epochEquity: u64, openAfter: u64)

  function AdmitOpen(mk: Market, ps: seq<Position>, pool: u64, a: OpenArgs, oracle: OracleAccount, now: i64)
    : Result<Admission>
  {
    var _ :- Require(a.salt != 0, InvalidSettlementTask);
    var _ :- Require(mk.mode.Open?, MarketCloseOnly);
    var _ :- RequireCollateralBounds(a.collateral, MIN_POSITION_COLLATERAL, MAX_POSITION_COLLATERAL);
    var _ :- Require(a.nonce == mk.nextNonce, InvalidNonce);
    var _ :- RequireMarketFinancialCapacity(mk.activePositions);
    var _ :- Require(|ps| < USER_POSITIONS_CAPACITY, UserPositionsCapacityExceeded);
    var sample :- ReadOraclePrice(oracle, now, mk.feedId);
    var _ :- Require(sample.Some?, InvalidOraclePrice);
    var price := sample.value.price;
    var _ :- Require(a.minEntryPrice <= price <= a.maxEntryPrice, SlippageExceeded);
    var _ :- RequireSessionTokenDelegate(a.delegate, a.delegatedAmount, a.sessionSigner, a.collateral);
    var epochEquity := EpochEquity(mk, pool);
    var _ :- RequireOpenLiquidity(mk.totalShares, epochEquity, pool, MIN_MARKET_EQUITY);
    var userCollateral :- UserOpenCollateral(ps, mk.marketId);
    var _ :- RequireUserOpenCollateralCapacity(userCollateral, a.collateral, epochEquity, USER_OPEN_COLLATERAL_BPS);
    var openAfter :- ToU64(mk.openCollateral + a.collateral);
    var _ :- RequirePostOpenSolvency(pool, mk.openCollateral, openAfter, SAFETY_BUFFER_BPS);
    Ok(Admission(price, epochEquity, openAfter))
  }

  function OpenPosition(
    mk: Market, ps: seq<Position>, pool: u64, wallet: u64, a: OpenArgs, oracle: OracleAccount, now: i64)
    : Result<OpenEffect>
  {
    var admitted :- AdmitOpen(mk, ps, pool, a, oracle, now);
    var _ :- Require(a.taskAccepted, SettlementTaskCreationFailed);
    var moved :- TransferBalances(wallet, pool, a.collateral);
    var expires :- ToI64(now + POSITION_DURATION_SECONDS);
    var collateral :- ToU32(a.collateral);
    var expiresAt :- ToU32(expires);
    var active :- ToU32(mk.activePositions + 1);
    var next :- ToU32(a.nonce + 1);
    var position := Position(mk.marketId, a.nonce, a.salt, collateral, admitted.price, expiresAt, a.direction);
    Ok(OpenEffect(
      mk.(riskEpochEquity := admitted.epochEquity, openCollateral := admitted.openAfter, activePositions := active,
          nextNonce := next),
      ps + [position],
      moved.1,
      moved.0,
      PositionCreated(position.Id(), a.user, admitted.price, collateral, a.direction, expiresAt)))
  }

  /** The first open of an epoch fixes its equity, capped by governance. */
  function EpochEquity(mk: Market, pool: u64): u64 {
    if mk.activePositions == 0 then BoundedRiskEpochEquity(pool, MAX_MARKET_EQUITY) else mk.riskEpochEquity
  }

  // ----- settle_position

  datatype SettleEffect = SettleEffect(
    market: Market, positions: seq<Position>, pool: u64, fee: u64, destination: u64, event: Event)

  function PositionOutcome(refund: bool, grossProfit: u64, loss: u64): Outcome {
    if refund then Refunded
    else if grossProfit > 0 then Won
    else if loss > 0 then Lost
    else Breakeven
  }

  /** What a tick decides to pay: nothing yet, or a refund, or a priced settlement. */
  datatype Decision = NotYet | Pay(payout: u64, protocolFee: u64, lpFee: u64, outcome: Outcome)

  function Decide(p: Position, feedId: nat, oracle: OracleAccount, now: i64): Result<Decision> {
    var refundAt :- ToI64(p.expiresAt + SETTLEMENT_BUFFER_SECONDS);
    if now < p.expiresAt then Ok(NotYet)
    else if now >= refundAt then Ok(Pay(p.collateral, 0, 0, Refunded))
    else
      var sample :- ReadOraclePrice(oracle, now, feedId);
      if sample.None? then Ok(NotYet)
      else if sample.value.publishTime < p.expiresAt || sample.value.publishTime >= refundAt then Ok(NotYet)
      else
        var amounts :- CalculateSettlement(p.collateral, p.entryPrice, sample.value.price, p.direction,
                                           LEVERAGE, PROFIT_FEE_BPS, PROTOCOL_FEE_SHARE_BPS);
        Ok(Pay(amounts.userPayout, amounts.protocolFee, amounts.lpFee,
               PositionOutcome(false, amounts.grossProfit, amounts.loss)))
  }

  /** The fee and the payout leave the pool, in this order. */
  function PayBoth(pool: u64, fee: u64, destination: u64, protocolFee: u64, payout: u64): Result<(u64, u64, u64)> {
    var fees :- TransferBalances(pool, fee, protocolFee);
    var paid :- TransferBalances(fees.0, destination, payout);
    Ok((paid.0, fees.1, paid.1))
  }

  /** `None` is a tick that changes nothing. The destination is the user's token account or, when
      that account is unusable, the fallback escrow. */
  function SettlePosition(
    mk: Market, ps: seq<Position>, pool: u64, fee: u64, destination: u64,
    nonce: u32, salt: Salt, oracle: OracleAccount, now: i64): Result<Option<SettleEffect>>
  {
    match PositionIndex(ps, PosId(mk.marketId, nonce))
    case None => Ok(None)
    case Some(i) =>
      var p := ps[i];
      var _ :- Require(p.salt == salt, InvalidSettlementTrigger);
      var decision :- Decide(p, mk.feedId, oracle, now);
      match decision
      case NotYet => Ok(None)
      case Pay(payout, protocolFee, lpFee, outcome) =>
        var paid :- PayBoth(pool, fee, destination, protocolFee, payout);
        var open :- ToU64(mk.openCollateral - p.collateral);
        var active :- ToU32(mk.activePositions - 1);
        Ok(Some(SettleEffect(
          mk.(openCollateral := open, activePositions := active),
          SwapRemove(ps, i),
          paid.0,
          paid.1,
          paid.2,
          PositionClosed(p.Id(), outcome, payout, lpFee, protocolFee))))
  }

  // ----- liquidity

  datatype LiquidityEffect = LiquidityEffect(
    market: Market, entries: seq<LiquidityEntry>, pool: u64, wallet: u64, event: Event)

  function DepositLiquidity(
    mk: Market, ls: seq<LiquidityEntry>, pool: u64, wallet: u64, user: Pubkey, amount: u64, minSharesOut: u128)
    : Result<LiquidityEffect>
  {
    var _ :- Require(mk.mode.Open?, MarketCloseOnly);
    var _ :- Require(mk.IsNoRisk(), ActiveRisk);
    var firstLp := mk.totalShares == 0;
    var _ :- Require(firstLp ==> MIN_MARKET_EQUITY <= amount <= MAX_MARKET_EQUITY, InvalidAmount);
    var _ :- RequireDepositCapacity(pool, amount, MAX_MARKET_EQUITY, firstLp);
    var shares :- SharesForDeposit(amount, pool, mk.totalShares);
    var _ :- Require(shares >= minSharesOut, SlippageExceeded);
    var slot :- MarketOrInsert(ls, mk.marketId);
    var moved :- TransferBalances(wallet, pool, amount);
    var entry := slot.0[slot.1];
    var held :- ToU128(entry.shares + shares);
    var total :- ToU128(mk.totalShares + shares);
    Ok(LiquidityEffect(
      mk.(totalShares := total),
      slot.0[slot.1 := entry.(shares := held)],
      moved.1,
      moved.0,
      LiquidityDeposited(mk.marketId, user, amount, shares)))
  }

  function RequestWithdrawal(
    mk: Market, ls: seq<LiquidityEntry>, user: Pubkey, shares: u128, minAssetsOut: u64)
    : Result<(seq<LiquidityEntry>, Event)>
  {
    match EntryIndex(ls, mk.marketId)
    case None => Err(UserLiquidityMarketNotFound)
    case Some(i) =>
      var _ :- Require(0 < shares <= ls[i].shares, InvalidAmount);
      var _ :- Require(ls[i].pending == 0, WithdrawalAlreadyPending);
      Ok((ls[i := ls[i].(pending := shares, minAssetsOut := minAssetsOut)],
          WithdrawalRequested(mk.marketId, user, shares, minAssetsOut)))
  }

  function CancelWithdrawal(mk: Market, ls: seq<LiquidityEntry>, user: Pubkey)
    : Result<(seq<LiquidityEntry>, Event)>
  {
    match EntryIndex(ls, mk.marketId)
    case None => Err(UserLiquidityMarketNotFound)
    case Some(i) =>
      var shares := ls[i].pending;
      var _ :- Require(shares > 0, NoPendingWithdrawal);
      Ok((ls[i := ls[i].(pending := 0, minAssetsOut := 0)],
          WithdrawalCancelled(mk.marketId, user, shares)))
  }

  function ExecuteWithdrawal(mk: Market, ls: seq<LiquidityEntry>, pool: u64, wallet: u64, user: Pubkey)
    : Result<LiquidityEffect>
  {
    var _ :- Require(mk.IsNoRisk(), ActiveRisk);
    match EntryIndex(ls, mk.marketId)
    case None => Err(UserLiquidityMarketNotFound)
    case Some(i) =>
      var entry := ls[i];
      var shares := entry.pending;
      var _ :- Require(shares > 0, NoPendingWithdrawal);
      var assets :- AssetsForShares(shares, pool, mk.totalShares);
      var _ :- Require(assets > 0, InvalidAmount);
      var _ :- Require(assets >= entry.minAssetsOut, SlippageExceeded);
      var remainingEquity :- ToU64(pool - assets);
      var remainingShares :- ToU128(mk.totalShares - shares);
      var _ :- RequireValidWithdrawalRemainder(mk.mode, remainingEquity, remainingShares, MIN_MARKET_EQUITY);
      var moved :- TransferBalances(pool, wallet, assets);
      var held :- ToU128(entry.shares - shares);
      var updated := ls[i := entry.(shares := held, pending := 0, minAssetsOut := 0)];
      Ok(LiquidityEffect(
        mk.(totalShares := remainingShares),
        RemoveEmptyMarket(updated, mk.marketId),
        moved.0,
        moved.1,
        WithdrawalExecuted(mk.marketId, user, shares, assets)))
  }
}
