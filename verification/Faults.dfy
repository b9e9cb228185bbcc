/** Why an instruction fails: the first of its demands that is not met, in exact arithmetic. Together
    with the facts of a success this determines every instruction for every input. The protocol's
    limits are written out as numbers. */
module Faults {
  import opened Rust
  import opened Protocol
  import opened MarketMath
  import opened ShareMath
  import opened Lists
  import opened Instructions
  import opened InstructionFacts

  /** What cannot be read is the wrong exponent of the right feed, or not a price of the feed at all. */
  function OracleFault(oracle: OracleAccount, now: i64, feedId: nat): Option<ErrorCode> {
    if oracle.Holding? && oracle.update.feedId == feedId
        && oracle.update.exponent != 8 then Some(OracleExponentMismatch)
    else if !GivesPrice(oracle, now, feedId) then Some(InvalidOraclePrice)
    else None
  }

  /** The demands on the market, the user's positions and the arguments. */
  function AdmissionFault(mk: Market, ps: seq<Position>, pool: u64, a: OpenArgs, oracle: OracleAccount, now: i64)
    : Option<ErrorCode>
  {
    if a.salt == 0 then Some(InvalidSettlementTask)
    else if mk.mode == CloseOnly then Some(MarketCloseOnly)
    else if a.collateral < 1_000_000 || a.collateral > 1_000_000_000 then Some(InvalidAmount)
    else if a.nonce != mk.nextNonce then Some(InvalidNonce)
    else if mk.activePositions >= 8 then Some(RiskLimitExceeded)
    else if |ps| >= 8 then Some(UserPositionsCapacityExceeded)
    else if OracleFault(oracle, now, mk.feedId).Some? then OracleFault(oracle, now, mk.feedId)
    else if oracle.update.price < a.minEntryPrice || oracle.update.price > a.maxEntryPrice then Some(SlippageExceeded)
    else if a.delegate != Some(a.sessionSigner) then Some(InvalidSessionTokenDelegate)
    else if a.delegatedAmount < a.collateral then Some(InsufficientSessionTokenAllowance)
    else if mk.totalShares == 0 then Some(InsufficientLiquidity)
    else if EpochBase(mk, pool) < 100_000_000_000 || pool < 100_000_000_000 then Some(InsufficientLiquidity)
    else if (Total(ps, mk.marketId, CollateralOf) + a.collateral) * 100 > EpochBase(mk, pool)
        then Some(RiskLimitExceeded)
    else if mk.openCollateral + a.collateral > U64_MAX then Some(MathOverflow)
    else if pool < mk.openCollateral + 5 * (mk.openCollateral + a.collateral) + pool / 10
        then Some(InsufficientLiquidity)
    else None
  }

  lemma AdmissionFails(mk: Market, ps: seq<Position>, pool: u64, a: OpenArgs, oracle: OracleAccount, now: i64)
    ensures var r := AdmitOpen(mk, ps, pool, a, oracle, now);
            match AdmissionFault(mk, ps, pool, a, oracle, now) case Some(e) => r == Err(e) case None => r.Ok?
  {
    hide ReadOraclePrice, Qualifies, Total;
    OracleReadExactly(oracle, now, mk.feedId);
    TotalBounded(ps, mk.marketId);
  }

  /** Why an open fails. */
  function OpenFault(
    mk: Market, ps: seq<Position>, pool: u64, wallet: u64, a: OpenArgs, oracle: OracleAccount, now: i64)
    : Option<ErrorCode>
  {
    if AdmissionFault(mk, ps, pool, a, oracle, now).Some? then AdmissionFault(mk, ps, pool, a, oracle, now)
    else if !a.taskAccepted then Some(SettlementTaskCreationFailed)
    else if wallet < a.collateral then Some(InsufficientFunds)
    else if pool + a.collateral > U64_MAX then Some(TokenOverflow)
    else if now + 10 < 0 || now + 10 > 0xFFFF_FFFF then Some(MathOverflow)
    else if a.nonce == 0xFFFF_FFFF then Some(MathOverflow)
    else None
  }

  lemma OpenFails(
    mk: Market, ps: seq<Position>, pool: u64, wallet: u64, a: OpenArgs, oracle: OracleAccount, now: i64)
    ensures var r := OpenPosition(mk, ps, pool, wallet, a, oracle, now);
            match OpenFault(mk, ps, pool, wallet, a, oracle, now) case Some(e) => r == Err(e) case None => r.Ok?
  {
    hide AdmitOpen, Admissible, AdmissionFault;
    AdmissionFails(mk, ps, pool, a, oracle, now);
    AdmittedExactly(mk, ps, pool, a, oracle, now);
    AdmissibleFits(mk, ps, pool, a, oracle, now);
  }

  lemma AdmissibleFits(mk: Market, ps: seq<Position>, pool: u64, a: OpenArgs, oracle: OracleAccount, now: i64)
    ensures Admissible(mk, ps, pool, a, oracle, now) ==> a.collateral <= 0xFFFF_FFFF && mk.activePositions < 8
  {
  }

  /** Why a settlement fails: it belongs to another position, or its price cannot be read while only a
      price can decide; the pool, the destinations and the counters fail it only outside a reachable
      state. */
  lemma SettleFails(
    mk: Market, ps: seq<Position>, pool: u64, fee: u64, destination: u64,
    nonce: u32, salt: Salt, oracle: OracleAccount, now: i64)
    ensures var r := SettlePosition(mk, ps, pool, fee, destination, nonce, salt, oracle, now);
            match PositionIndex(ps, PosId(mk.marketId, nonce))
            case None => r == Ok(None)
            case Some(i) =>
              && (ps[i].salt != salt ==> r == Err(InvalidSettlementTrigger))
              && (ps[i].salt == salt && now < ps[i].expiresAt ==> r == Ok(None))
              && (ps[i].salt == salt && ps[i].expiresAt <= now < ps[i].expiresAt + 10
                  && OracleFault(oracle, now, mk.feedId).Some? ==>
                  r == if Unreadable(oracle, mk.feedId) then Err(OracleFault(oracle, now, mk.feedId).value)
                      else Ok(None))
  {
    hide ReadOraclePrice, Qualifies, PayBoth, SwapRemove, CalculateSettlement;
    OracleReadExactly(oracle, now, mk.feedId);
  }

  /** Why a deposit fails. */
  function DepositFault(mk: Market, ls: seq<LiquidityEntry>, pool: u64, wallet: u64, amount: u64, minSharesOut: u128)
    : Option<ErrorCode>
  {
    var total, minted := mk.totalShares, Minted(amount, pool, mk.totalShares);
    if mk.mode == CloseOnly then Some(MarketCloseOnly)
    else if mk.activePositions != 0 || mk.openCollateral != 0 then Some(ActiveRisk)
    else if total == 0 && (amount < 100_000_000_000 || amount > 100_000_000_000_000) then Some(InvalidAmount)
    else if pool + amount > U64_MAX then Some(MathOverflow)
    else if total > 0 && pool + amount > 100_000_000_000_000 then Some(RiskLimitExceeded)
    else if amount == 0 then Some(InvalidAmount)
    else if total > 0 && pool == 0 then Some(InvalidConfig)
    else if total > 0 && amount * total > U128_MAX then Some(MathOverflow)
    else if minted == 0 then Some(InvalidAmount)
    else if minted < minSharesOut then Some(SlippageExceeded)
    else if EntryIndex(ls, mk.marketId).None? && |ls| >= 8 then Some(UserLiquidityCapacityExceeded)
    else if wallet < amount then Some(InsufficientFunds)
    else if SharesIn(ls, mk.marketId) + minted > U128_MAX || total + minted > U128_MAX then Some(MathOverflow)
    else None
  }

  lemma SharesFault(amount: u64, pool: u64, total: u128)
    requires pool + amount <= U64_MAX
    ensures var r := SharesForDeposit(amount, pool, total);
            if amount == 0 then r == Err(InvalidAmount)
            else if total > 0 && pool == 0 then r == Err(InvalidConfig)
            else if total > 0 && amount * total > U128_MAX then r == Err(MathOverflow)
            else if Minted(amount, pool, total) == 0 then r == Err(InvalidAmount)
            else r == Ok(Minted(amount, pool, total))
  {
    MintedExactly(amount, pool, total);
  }

  lemma DepositFails(
    mk: Market, ls: seq<LiquidityEntry>, pool: u64, wallet: u64, user: Pubkey, amount: u64, minSharesOut: u128)
    ensures var r := DepositLiquidity(mk, ls, pool, wallet, user, amount, minSharesOut);
            match DepositFault(mk, ls, pool, wallet, amount, minSharesOut) case Some(e) => r
                == Err(e) case None => r.Ok?
  {
    hide SharesForDeposit, Minted, EntryIndex;
    if pool + amount <= U64_MAX {
      SharesFault(amount, pool, mk.totalShares);
    }
  }

  /** Why a request or a cancellation fails. */
  lemma PendingFails(
    mk: Market, ls: seq<LiquidityEntry>, user: Pubkey, shares: u128, minAssetsOut: u64)
    ensures var request := RequestWithdrawal(mk, ls, user, shares, minAssetsOut);
            var cancel := CancelWithdrawal(mk, ls, user);
            match EntryIndex(ls, mk.marketId)
            case None => request == Err(UserLiquidityMarketNotFound) && cancel == Err(UserLiquidityMarketNotFound)
            case Some(i) =>
              && (shares == 0 || shares > ls[i].shares ==> request == Err(InvalidAmount))
              && (0 < shares <= ls[i].shares && ls[i].pending > 0 ==> request == Err(WithdrawalAlreadyPending))
              && (0 < shares <= ls[i].shares && ls[i].pending == 0 ==> request.Ok?)
              && (if ls[i].pending == 0 then cancel == Err(NoPendingWithdrawal) else cancel.Ok?)
  {
    hide EntryIndex;
  }

  /** Why the execution of a withdrawal fails. */
  function WithdrawFault(mk: Market, ls: seq<LiquidityEntry>, pool: u64, wallet: u64): Option<ErrorCode> {
    if mk.activePositions != 0 || mk.openCollateral != 0 then Some(ActiveRisk)
    else
      match EntryIndex(ls, mk.marketId)
      case None => Some(UserLiquidityMarketNotFound)
      case Some(i) =>
        var e, assets := ls[i], Redeemed(ls[i].pending, pool, mk.totalShares);
        if e.pending == 0 then Some(NoPendingWithdrawal)
        else if e.pending > mk.totalShares then Some(InvalidAmount)
        else if e.pending * pool > U128_MAX then Some(MathOverflow)
        else if assets == 0 then Some(InvalidAmount)
        else if assets < e.minAssetsOut then Some(SlippageExceeded)
        else if mk.mode == Open && (e.pending == mk.totalShares || pool - assets < 100_000_000_000)
        then Some(InsufficientLiquidity)
        else if wallet + assets > U64_MAX then Some(TokenOverflow)
        else if e.pending > e.shares then Some(MathOverflow)
        else None
  }

  lemma AssetsFault(shares: u128, pool: u64, total: u128)
    ensures var r := AssetsForShares(shares, pool, total);
            if shares == 0 || shares > total then r == Err(InvalidAmount)
            else if shares * pool > U128_MAX then r == Err(MathOverflow)
            else r == Ok(Redeemed(shares, pool, total)) && Redeemed(shares, pool, total) <= pool
  {
    RedeemedExactly(shares, pool, total);
  }

  lemma WithdrawFails(mk: Market, ls: seq<LiquidityEntry>, pool: u64, wallet: u64, user: Pubkey)
    ensures var r := ExecuteWithdrawal(mk, ls, pool, wallet, user);
            match WithdrawFault(mk, ls, pool, wallet) case Some(e) => r == Err(e) case None => r.Ok?
  {
    hide AssetsForShares, Redeemed, EntryIndex, RemoveEmptyMarket;
    if EntryIndex(ls, mk.marketId).Some? {
      AssetsFault(ls[EntryIndex(ls, mk.marketId).value].pending, pool, mk.totalShares);
    }
  }
}
