/** The checked arithmetic of math.rs and the oracle checks of instructions/mod.rs. */
module MarketMath {
  import opened Rust
  import opened Protocol

  datatype SettlementAmounts = SettlementAmounts(
    userPayout: u64, protocolFee: u64, lpFee: u64, grossProfit: u64, loss: u64)

  function SharesForDeposit(amount: u64, equityBefore: u64, totalShares: u128): Result<u128> {
    var _ :- Require(amount > 0, InvalidAmount);
    if totalShares == 0 then
      ToU64(equityBefore + amount)
    else
      var _ :- Require(equityBefore > 0, InvalidConfig);
      var product :- ToU128(amount * totalShares);
      var shares := product / equityBefore;
      var _ :- Require(shares > 0, InvalidAmount);
      ToU128(shares)
  }

  function RequireDepositCapacity(equityBefore: u64, amount: u64, maximum: u64, firstLp: bool): Result<u64> {
    var equityAfter :- ToU64(equityBefore + amount);
    var _ :- Require(firstLp || equityAfter <= maximum, RiskLimitExceeded);
    Ok(equityAfter)
  }

  function BoundedRiskEpochEquity(realized: u64, maximum: u64): u64 {
    Min(realized, maximum)
  }

  function RequireUserOpenCollateralCapacity(
    existing: u64, added: u64, riskEpochEquity: u64, maximumBps: u16): Result<u64>
  {
    var after :- ToU64(existing + added);
    var scaled :- ToU128(after * BPS);
    var limit :- ToU128(riskEpochEquity * maximumBps);
    var _ :- Require(scaled <= limit, RiskLimitExceeded);
    Ok(after)
  }

  function AssetsForShares(shares: u128, poolBalance: u64, totalShares: u128): Result<u64> {
    var _ :- Require(shares > 0 && totalShares >= shares, InvalidAmount);
    var product :- ToU128(shares * poolBalance);
    ToU64(product / totalShares)
  }

  function RequireCollateralBounds(collateral: u64, minimum: u64, maximum: u64): Result<()> {
    Require(minimum <= collateral <= maximum, InvalidAmount)
  }

  function RequireOpenLiquidity(
    totalShares: u128, riskEpochEquity: u64, poolBefore: u64, minimum: u64): Result<()>
  {
    var _ :- Require(totalShares > 0, InsufficientLiquidity);
    Require(riskEpochEquity >= minimum && poolBefore >= minimum, InsufficientLiquidity)
  }

  function RequirePostOpenSolvency(
    poolBefore: u64, openBefore: u64, openAfter: u64, safetyBufferBps: u16): Result<()>
  {
    var buffered :- ToU128(poolBefore * safetyBufferBps);
    var safety := buffered / BPS;
    var reserve :- ToU128(openAfter * MAX_GROSS_PROFIT_MULTIPLIER);
    var committed :- ToU128(openBefore + reserve);
    var required :- ToU128(committed + safety);
    Require(poolBefore >= required, InsufficientLiquidity)
  }

  function RequireValidWithdrawalRemainder(
    mode: MarketMode, remainingAssets: u64, remainingShares: u128, minimum: u64): Result<()>
  {
    if mode.Open? then
      Require(remainingShares > 0 && remainingAssets >= minimum, InsufficientLiquidity)
    else
      Ok(())
  }

  function RequireMarketFinancialCapacity(activePositions: u32): Result<()> {
    Require(activePositions < MAX_ACTIVE_POSITIONS, RiskLimitExceeded)
  }

  function CalculateSettlement(
    collateral: u64, entryPrice: i64, settlePrice: i64, direction: Direction,
    leverage: u16, profitFeeBps: u16, protocolFeeShareBps: u16): Result<SettlementAmounts>
  {
    var _ :- Require(collateral > 0 && entryPrice > 0 && settlePrice > 0, InvalidAmount);
    var delta :- ToI128(settlePrice - entryPrice);
    var directed :- ToI128(if direction.Up? then delta else -delta);
    var leveraged :- ToI128(collateral * leverage);
    var numerator :- ToI128(leveraged * directed);
    var raw :- ToI128(TruncDiv(numerator, entryPrice));
    SettleRawPnl(collateral, raw, profitFeeBps, protocolFeeShareBps)
  }

  /** The second half of `calculate_settlement`: cap the raw result and split the fee. */
  function SettleRawPnl(
    collateral: u64, raw: int, profitFeeBps: u16, protocolFeeShareBps: u16): Result<SettlementAmounts>
  {
    if raw >= 0 then
      var maximum :- ToU64(collateral * MAX_GROSS_PROFIT_MULTIPLIER);
      var grossProfit :- ToU64(Min(raw, maximum));
      var scaledFee :- ToU128(grossProfit * profitFeeBps);
      var fee := scaledFee / BPS;
      var scaledShare :- ToU128(fee * protocolFeeShareBps);
      var protocolShare := scaledShare / BPS;
      var feeU64 :- ToU64(fee);
      var protocolFee :- ToU64(protocolShare);
      var credited :- ToU64(collateral + grossProfit);
      var userPayout :- ToU64(credited - feeU64);
      var lpFee :- ToU64(feeU64 - protocolFee);
      Ok(SettlementAmounts(userPayout, protocolFee, lpFee, grossProfit, 0))
    else
      var loss :- ToU64(Min(-raw, collateral));
      var userPayout :- ToU64(collateral - loss);
      Ok(SettlementAmounts(userPayout, 0, 0, 0, loss))
  }

  datatype PriceUpdate = PriceUpdate(
    feedId: nat, price: i64, conf: u64, exponent: int, publishTime: i64, postedSlot: u64, fullyVerified: bool)

  /** The oracle account as an instruction finds it: owned by another program, holding bytes that
      do not parse, or holding an update. */
  datatype OracleAccount = ForeignOwner | Undecodable | Holding(update: PriceUpdate)

  datatype Price = Price(price: i64, publishTime: i64)

  function ReadOraclePrice(account: OracleAccount, now: i64, feedId: nat): Result<Option<Price>> {
    match account
    case ForeignOwner => Err(InvalidOraclePrice)
    case Undecodable => Err(InvalidOraclePrice)
    case Holding(update) => ValidateOraclePrice(update, now, feedId)
  }

  /** The update can be priced with now: it was posted and fully verified, its price is positive, it
      is at most two seconds old and not from the future, and its confidence interval is within one
      basis point of its price. */
  predicate Qualifies(update: PriceUpdate, now: i64) {
    && update.postedSlot > 0 && update.fullyVerified && update.price > 0
    && update.publishTime <= now <= update.publishTime + 2
    && update.publishTime + 2 <= 0x7FFF_FFFF_FFFF_FFFF
    && update.conf * 10_000 <= update.price
  }

  function ValidateOraclePrice(update: PriceUpdate, now: i64, feedId: nat): (r: Result<Option<Price>>)
    ensures r.Ok? && r.value.Some? ==>
      && r.value.value.price > 0
      && r.value.value.publishTime <= now <= r.value.value.publishTime + ORACLE_MAX_AGE_SECONDS
      && update.feedId == feedId
      && update.conf * BPS <= update.price
  {
    var _ :- Require(update.feedId == feedId, InvalidOraclePrice);
    var _ :- Require(update.exponent == ORACLE_EXPONENT, OracleExponentMismatch);
    var freshUntil := ToI64(update.publishTime + ORACLE_MAX_AGE_SECONDS);
    var stale := freshUntil.Err? || freshUntil.value < now;
    if update.postedSlot == 0 || !update.fullyVerified || stale
       || update.publishTime > now || update.price <= 0
    then
      Ok(None)
    else
      var confidence :- ToU128(update.conf * 10_000);
      var maximum :- ToU128(update.price * ORACLE_MAX_CONFIDENCE_BPS);
      if confidence > maximum then Ok(None) else Ok(Some(Price(update.price, update.publishTime)))
  }

  /** The wrong feed or exponent is an error; any other update gives its price exactly when it
      qualifies, and nothing otherwise. No checked multiplication can fail. */
  lemma OraclePriceExactly(update: PriceUpdate, now: i64, feedId: nat)
    ensures update.feedId != feedId ==> ValidateOraclePrice(update, now, feedId) == Err(InvalidOraclePrice)
    ensures update.feedId == feedId && update.exponent != ORACLE_EXPONENT ==>
              ValidateOraclePrice(update, now, feedId) == Err(OracleExponentMismatch)
    ensures update.feedId == feedId && update.exponent == ORACLE_EXPONENT ==>
              ValidateOraclePrice(update, now, feedId)
                == Ok(if Qualifies(update, now) then Some(Price(update.price, update.publishTime)) else None)
  {
  }

  /** The account cannot be read for this feed: it is not the oracle's, does not parse, or holds an
      update of another feed or exponent. */
  predicate Unreadable(account: OracleAccount, feedId: nat) {
    !account.Holding? || account.update.feedId != feedId || account.update.exponent != 8
  }

  /** The account holds a price of this feed that can be used now. */
  predicate GivesPrice(account: OracleAccount, now: i64, feedId: nat) {
    !Unreadable(account, feedId) && Qualifies(account.update, now)
  }

  /** What an instruction gets from the oracle account, on the account's own fields: the price and time
      of a qualifying update of the market's own feed, nothing from one that does not qualify, and an
      error exactly from an account that cannot be read. */
  lemma OracleReadExactly(account: OracleAccount, now: i64, feedId: nat)
    ensures var r := ReadOraclePrice(account, now, feedId);
            && (r.Err? <==> Unreadable(account, feedId))
            && (r.Err? ==>
                r.error == if account.Holding? && account.update.feedId == feedId then OracleExponentMismatch
                           else InvalidOraclePrice)
            && (r.Ok? && r.value.Some? <==> GivesPrice(account, now, feedId))
            && (r.Ok? && r.value.Some? ==> r.value.value == Price(account.update.price, account.update.publishTime))
  {
    if account.Holding? {
      OraclePriceExactly(account.update, now, feedId);
    }
  }
}
