/** The instruction handlers, updating their accounts step by step in the order of the source.
    Each is proved against the function of the same name in `Instructions`. When a handler
    returns an error the runtime rolls every account back, so nothing is promised about them. */
module Handlers {
  import opened Rust
  import opened Protocol
  import opened MarketMath
  import opened Lists
  import opened Accounts
  import Spec = Instructions

  /** The checks of an open, all made before any account changes. */
  method AdmitOpen(
    market: MarketAccount, user: UserPositions, pool: TokenAccount,
    a: Spec.OpenArgs, oracle: OracleAccount, now: i64) returns (r: Result<Spec.Admission>)
    ensures r == Spec.AdmitOpen(market.View(), user.positions, pool.amount, a, oracle, now)
  {
    hide RequirePostOpenSolvency, RequireUserOpenCollateralCapacity, RequireOpenLiquidity, ReadOraclePrice,
         BoundedRiskEpochEquity, RequireCollateralBounds, Spec.RequireSessionTokenDelegate, Spec.UserOpenCollateral;
    var _ :- Require(a.salt != 0, InvalidSettlementTask);
    var _ :- Require(market.mode == Open, MarketCloseOnly);
    var _ :- RequireCollateralBounds(a.collateral, MIN_POSITION_COLLATERAL, MAX_POSITION_COLLATERAL);
    var _ :- Require(a.nonce == market.nextNonce, InvalidNonce);
    var _ :- RequireMarketFinancialCapacity(market.activePositions);
    var _ :- user.RequireCapacity();
    var sample :- ReadOraclePrice(oracle, now, market.feedId);
    var _ :- Require(sample.Some?, InvalidOraclePrice);
    var price := sample.value.price;
    var _ :- Require(a.minEntryPrice <= price && price <= a.maxEntryPrice, SlippageExceeded);
    var _ :- Spec.RequireSessionTokenDelegate(a.delegate, a.delegatedAmount, a.sessionSigner, a.collateral);
    var poolBefore := pool.amount;
    var epochEquity: u64 := market.riskEpochEquity;
    if market.activePositions == 0 {
      epochEquity := BoundedRiskEpochEquity(poolBefore, MAX_MARKET_EQUITY);
    }
    var _ :- RequireOpenLiquidity(market.totalShares, epochEquity, poolBefore, MIN_MARKET_EQUITY);
    var userCollateral :- user.OpenCollateral(market.marketId);
    var _ :- RequireUserOpenCollateralCapacity(userCollateral, a.collateral, epochEquity, USER_OPEN_COLLATERAL_BPS);
    var openAfter :- ToU64(market.openCollateral + a.collateral);
    var _ :- RequirePostOpenSolvency(poolBefore, market.openCollateral, openAfter, SAFETY_BUFFER_BPS);
    return Ok(Spec.Admission(price, epochEquity, openAfter));
  }

  method OpenPosition(
    market: MarketAccount, user: UserPositions, pool: TokenAccount, wallet: TokenAccount, log: EventLog,
    a: Spec.OpenArgs, oracle: OracleAccount, now: i64) returns (r: Result<()>)
    requires pool != wallet
    modifies market, user, pool, wallet, log
    ensures match Spec.OpenPosition(old(market.View()), old(user.positions), old(pool.amount), old(wallet.amount), a,
                                    oracle, now)
            case Ok(e) =>
              && r == Ok(())
              && market.View() == e.market && user.positions == e.positions
              && pool.amount == e.pool && wallet.amount == e.wallet
              && log.events == old(log.events) + [e.event]
            case Err(e) => r == Err(e)
  {
    hide Spec.AdmitOpen;
    var admitted :- AdmitOpen(market, user, pool, a, oracle, now);
    var _ :- Require(a.taskAccepted, SettlementTaskCreationFailed);
    var _ :- TokenAccount.Transfer(wallet, pool, a.collateral);
    var expires :- ToI64(now + POSITION_DURATION_SECONDS);
    var collateral :- ToU32(a.collateral);
    var expiresAt :- ToU32(expires);
    user.positions := user.positions
      + [Position(market.marketId, a.nonce, a.salt, collateral, admitted.price, expiresAt, a.direction)];
    market.riskEpochEquity := admitted.epochEquity;
    market.openCollateral := admitted.openAfter;
    market.activePositions :- ToU32(market.activePositions as int + 1);
    market.nextNonce :- ToU32(a.nonce as int + 1);
    log.Emit(PositionCreated(PosId(market.marketId, a.nonce), a.user, admitted.price, collateral, a.direction,
                             expiresAt));
    return Ok(());
  }

  /** Whether this tick pays the position, and how much. */
  method DecidePayout(market: MarketAccount, p: Position, oracle: OracleAccount, now: i64)
    returns (r: Result<Spec.Decision>)
    ensures r == Spec.Decide(p, market.feedId, oracle, now)
  {
    hide ReadOraclePrice, CalculateSettlement;
    var refundAt: i64 := p.expiresAt + SETTLEMENT_BUFFER_SECONDS;  // cannot overflow
    if now < p.expiresAt {
      return Ok(Spec.NotYet);
    }
    if now >= refundAt {
      return Ok(Spec.Pay(p.collateral, 0, 0, Refunded));
    }
    var sample :- ReadOraclePrice(oracle, now, market.feedId);
    if sample.None? {
      return Ok(Spec.NotYet);
    }
    if sample.value.publishTime < p.expiresAt || sample.value.publishTime >= refundAt {
      return Ok(Spec.NotYet);
    }
    var amounts :- CalculateSettlement(p.collateral, p.entryPrice, sample.value.price, p.direction,
                                       LEVERAGE, PROFIT_FEE_BPS, PROTOCOL_FEE_SHARE_BPS);
    return Ok(Spec.Pay(amounts.userPayout, amounts.protocolFee, amounts.lpFee,
                       Spec.PositionOutcome(false, amounts.grossProfit, amounts.loss)));
  }

  /** The two transfers of a settlement; a zero amount is not transferred. */
  method PayOut(pool: TokenAccount, fee: TokenAccount, destination: TokenAccount, protocolFee: u64, payout: u64)
    returns (r: Result<()>)
    requires pool != fee && pool != destination && fee != destination
    modifies pool, fee, destination
    ensures match Spec.PayBoth(old(pool.amount), old(fee.amount), old(destination.amount), protocolFee, payout)
            case Ok(b) => r == Ok(()) && pool.amount == b.0 && fee.amount == b.1 && destination.amount == b.2
            case Err(e) => r == Err(e)
  {
    if protocolFee > 0 {
      var _ :- TokenAccount.Transfer(pool, fee, protocolFee);
    }
    if payout > 0 {
      var _ :- TokenAccount.Transfer(pool, destination, payout);
    }
    return Ok(());
  }

  /** `usable` is the verdict of `is_usable_payout_destination` on the user's token account. */
  method SettlePosition(
    market: MarketAccount, user: UserPositions, pool: TokenAccount, fee: TokenAccount,
    wallet: TokenAccount, escrow: TokenAccount, log: EventLog,
    nonce: u32, salt: Salt, oracle: OracleAccount, usable: bool, now: i64) returns (r: Result<()>)
    requires pool != fee && pool != wallet && pool != escrow && fee != wallet && fee != escrow && wallet != escrow
    modifies market, user, pool, fee, wallet, escrow, log
    ensures match Spec.SettlePosition(old(market.View()), old(user.positions), old(pool.amount), old(fee.amount),
                                      if usable then old(wallet.amount) else old(escrow.amount),
                                      nonce, salt, oracle, now)
            case Ok(None) =>
              && r == Ok(())
              && unchanged(market) && unchanged(user) && unchanged(pool) && unchanged(fee)
              && unchanged(wallet) && unchanged(escrow) && unchanged(log)
            case Ok(Some(e)) =>
              && r == Ok(())
              && market.View() == e.market && user.positions == e.positions
              && pool.amount == e.pool && fee.amount == e.fee
              && (if usable then wallet.amount == e.destination && unchanged(escrow)
                  else escrow.amount == e.destination && unchanged(wallet))
              && log.events == old(log.events) + [e.event]
            case Err(e) => r == Err(e)
  {
    hide Spec.Decide, Spec.PayBoth, SwapRemove, PositionIndex;
    var found := user.FindIndex(PosId(market.marketId, nonce));
    if found.None? {
      return Ok(());
    }
    var p := user.positions[found.value];
    var _ :- Require(p.salt == salt, InvalidSettlementTrigger);
    var decision :- DecidePayout(market, p, oracle, now);
    if decision.NotYet? {
      return Ok(());
    }
    var Pay(payout, protocolFee, lpFee, outcome) := decision;
    var destination := if usable then wallet else escrow;
    var _ :- PayOut(pool, fee, destination, protocolFee, payout);
    user.Remove(found.value);
    market.openCollateral :- ToU64(market.openCollateral as int - p.collateral);
    market.activePositions :- ToU32(market.activePositions as int - 1);
    log.Emit(PositionClosed(PosId(market.marketId, nonce), outcome, payout, lpFee, protocolFee));
    return Ok(());
  }

  method DepositLiquidity(
    market: MarketAccount, liquidity: UserLiquidity, pool: TokenAccount, wallet: TokenAccount, log: EventLog,
    user: Pubkey, amount: u64, minSharesOut: u128) returns (r: Result<()>)
    requires pool != wallet
    modifies market, liquidity, pool, wallet, log
    ensures match Spec.DepositLiquidity(old(market.View()), old(liquidity.entries), old(pool.amount),
                                        old(wallet.amount), user, amount, minSharesOut)
            case Ok(e) =>
              && r == Ok(())
              && market.View() == e.market && liquidity.entries == e.entries
              && pool.amount == e.pool && wallet.amount == e.wallet
              && log.events == old(log.events) + [e.event]
            case Err(e) => r == Err(e)
  {
    hide RequireDepositCapacity, SharesForDeposit, EntryIndex;
    var _ :- Require(market.mode == Open, MarketCloseOnly);
    var _ :- Require(market.activePositions == 0 && market.openCollateral == 0, ActiveRisk);
    var firstLp := market.totalShares == 0;
    if firstLp {
      var _ :- Require(amount >= MIN_MARKET_EQUITY && amount <= MAX_MARKET_EQUITY, InvalidAmount);
    }
    var equityBefore := pool.amount;
    var _ :- RequireDepositCapacity(equityBefore, amount, MAX_MARKET_EQUITY, firstLp);
    var shares :- SharesForDeposit(amount, equityBefore, market.totalShares);
    var _ :- Require(shares >= minSharesOut, SlippageExceeded);
    var _ :- liquidity.FindOrInsert(market.marketId);
    var _ :- TokenAccount.Transfer(wallet, pool, amount);
    var slot := liquidity.FindOrInsert(market.marketId);
    var index := slot.value;  // the entry exists by now, so it is found
    var entry := liquidity.entries[index];
    var held :- ToU128(entry.shares + shares);
    liquidity.entries := liquidity.entries[index := entry.(shares := held)];
    market.totalShares :- ToU128(market.totalShares + shares);
    log.Emit(LiquidityDeposited(market.marketId, user, amount, shares));
    return Ok(());
  }

  method RequestWithdrawal(
    market: MarketAccount, liquidity: UserLiquidity, log: EventLog,
    user: Pubkey, shares: u128, minAssetsOut: u64) returns (r: Result<()>)
    modifies liquidity, log
    ensures match Spec.RequestWithdrawal(market.View(), old(liquidity.entries), user, shares, minAssetsOut)
            case Ok(e) => r == Ok(()) && liquidity.entries == e.0 && log.events == old(log.events) + [e.1]
            case Err(e) => r == Err(e)
  {
    var found := liquidity.Find(market.marketId);
    var _ :- Require(found.Some?, UserLiquidityMarketNotFound);
    var entry := liquidity.entries[found.value];
    var _ :- Require(shares > 0 && shares <= entry.shares, InvalidAmount);
    var _ :- Require(entry.pending == 0, WithdrawalAlreadyPending);
    liquidity.entries := liquidity.entries[found.value := entry.(pending := shares, minAssetsOut := minAssetsOut)];
    log.Emit(WithdrawalRequested(market.marketId, user, shares, minAssetsOut));
    return Ok(());
  }

  method CancelWithdrawal(
    market: MarketAccount, liquidity: UserLiquidity, log: EventLog, user: Pubkey) returns (r: Result<()>)
    modifies liquidity, log
    ensures match Spec.CancelWithdrawal(market.View(), old(liquidity.entries), user)
            case Ok(e) => r == Ok(()) && liquidity.entries == e.0 && log.events == old(log.events) + [e.1]
            case Err(e) => r == Err(e)
  {
    var found := liquidity.Find(market.marketId);
    var _ :- Require(found.Some?, UserLiquidityMarketNotFound);
    var entry := liquidity.entries[found.value];
    var _ :- Require(entry.pending > 0, NoPendingWithdrawal);
    liquidity.entries := liquidity.entries[found.value := entry.(pending := 0, minAssetsOut := 0)];
    log.Emit(WithdrawalCancelled(market.marketId, user, entry.pending));
    return Ok(());
  }

  method ExecuteWithdrawal(
    market: MarketAccount, liquidity: UserLiquidity, pool: TokenAccount, wallet: TokenAccount, log: EventLog,
    user: Pubkey) returns (r: Result<()>)
    requires pool != wallet
    modifies market, liquidity, pool, wallet, log
    ensures match Spec.ExecuteWithdrawal(old(market.View()), old(liquidity.entries), old(pool.amount),
                                         old(wallet.amount), user)
            case Ok(e) =>
              && r == Ok(())
              && market.View() == e.market && liquidity.entries == e.entries
              && pool.amount == e.pool && wallet.amount == e.wallet
              && log.events == old(log.events) + [e.event]
            case Err(e) => r == Err(e)
  {
    hide AssetsForShares, RequireValidWithdrawalRemainder, RemoveEmptyMarket, EntryIndex;
    var _ :- Require(market.activePositions == 0 && market.openCollateral == 0, ActiveRisk);
    var found := liquidity.Find(market.marketId);
    var _ :- Require(found.Some?, UserLiquidityMarketNotFound);
    var shares := liquidity.entries[found.value].pending;
    var minAssetsOut := liquidity.entries[found.value].minAssetsOut;
    var _ :- Require(shares > 0, NoPendingWithdrawal);
    var equityBefore := pool.amount;
    var assets :- AssetsForShares(shares, equityBefore, market.totalShares);
    var _ :- Require(assets > 0, InvalidAmount);
    var _ :- Require(assets >= minAssetsOut, SlippageExceeded);
    var remainingEquity :- ToU64(equityBefore as int - assets);
    var remainingShares :- ToU128(market.totalShares - shares);
    var _ :- RequireValidWithdrawalRemainder(market.mode, remainingEquity, remainingShares, MIN_MARKET_EQUITY);
    var _ :- TokenAccount.Transfer(pool, wallet, assets);
    var entry := liquidity.entries[found.value];
    var held :- ToU128(entry.shares - shares);
    liquidity.entries := liquidity.entries[found.value := entry.(shares := held, pending := 0, minAssetsOut := 0)];
    liquidity.RemoveEmpty(market.marketId);
    market.totalShares := remainingShares;
    log.Emit(WithdrawalExecuted(market.marketId, user, shares, assets));
    return Ok(());
  }
}
