/** What a successful instruction implies about the accounts it was given, stated without the
    checked arithmetic: the facts every invariant of the whole program rests on. */
module InstructionFacts {
  import opened Rust
  import opened Protocol
  import opened Arithmetic
  import opened MarketMath
  import opened ShareMath
  import opened Settlement
  import opened Lists
  import opened Instructions

  /** The position an open appends. */
  function Opened(e: OpenEffect): Position
    requires e.positions != []
  {
    e.positions[|e.positions| - 1]
  }

  lemma OpenAdmission(
    mk: Market, ps: seq<Position>, pool: u64, wallet: u64, a: OpenArgs, oracle: OracleAccount, now: i64)
    requires OpenPosition(mk, ps, pool, wallet, a, oracle, now).Ok?
    ensures mk.mode.Open? && mk.activePositions < MAX_ACTIVE_POSITIONS && |ps| < USER_POSITIONS_CAPACITY
    ensures a.nonce == mk.nextNonce && a.salt != 0 && mk.totalShares > 0
    ensures MIN_POSITION_COLLATERAL <= a.collateral <= MAX_POSITION_COLLATERAL && a.collateral <= wallet
    ensures MIN_MARKET_EQUITY <= EpochBase(mk, pool) && MIN_MARKET_EQUITY <= pool
    ensures (Total(ps, mk.marketId, CollateralOf) + a.collateral) * 100 <= EpochBase(mk, pool)
    ensures pool >= mk.openCollateral + 5 * (mk.openCollateral + a.collateral) + pool / 10
  {
    hide ReadOraclePrice, Total;
  }

  /** The equity a risk epoch is limited by: fixed by its first open at what the pool then holds, but
      never above the cap. */
  function EpochBase(mk: Market, pool: u64): u64 {
    if mk.activePositions > 0 then mk.riskEpochEquity
    else if pool <= MAX_MARKET_EQUITY then pool
    else MAX_MARKET_EQUITY
  }

  /** Everything an open demands, without the program's checked arithmetic. */
  predicate Admissible(mk: Market, ps: seq<Position>, pool: u64, a: OpenArgs, oracle: OracleAccount, now: i64) {
    && mk.mode.Open? && mk.activePositions < MAX_ACTIVE_POSITIONS && |ps| < USER_POSITIONS_CAPACITY
    && a.salt != 0 && a.nonce == mk.nextNonce && MIN_POSITION_COLLATERAL <= a.collateral <= MAX_POSITION_COLLATERAL
    && GivesPrice(oracle, now, mk.feedId) && a.minEntryPrice <= oracle.update.price <= a.maxEntryPrice
    && a.delegate == Some(a.sessionSigner) && a.collateral <= a.delegatedAmount
    && mk.totalShares > 0 && MIN_MARKET_EQUITY <= EpochBase(mk, pool) && MIN_MARKET_EQUITY <= pool
    && (Total(ps, mk.marketId, CollateralOf) + a.collateral) * 100 <= EpochBase(mk, pool)
    && pool >= mk.openCollateral + 5 * (mk.openCollateral + a.collateral) + pool / 10
  }

  lemma AdmittedExactly(mk: Market, ps: seq<Position>, pool: u64, a: OpenArgs, oracle: OracleAccount, now: i64)
    ensures AdmitOpen(mk, ps, pool, a, oracle, now).Ok? <==> Admissible(mk, ps, pool, a, oracle, now)
  {
    hide ReadOraclePrice, Total, GivesPrice;
    TotalBounded(ps, mk.marketId);
    OracleReadExactly(oracle, now, mk.feedId);
  }

  /** An open succeeds exactly when it is admissible, its task is scheduled, its tokens can move and
      its expiry and the next nonce fit 32 bits: no other overflow can stop it. */
  lemma OpenSucceedsExactly(
    mk: Market, ps: seq<Position>, pool: u64, wallet: u64, a: OpenArgs, oracle: OracleAccount, now: i64)
    ensures OpenPosition(mk, ps, pool, wallet, a, oracle, now).Ok? <==>
              && Admissible(mk, ps, pool, a, oracle, now) && a.taskAccepted
              && a.collateral <= wallet && pool + a.collateral <= U64_MAX
              && 0 <= now + POSITION_DURATION_SECONDS <= 0xFFFF_FFFF && a.nonce < 0xFFFF_FFFF
  {
    hide AdmitOpen, Total, EpochBase, GivesPrice;
    AdmittedExactly(mk, ps, pool, a, oracle, now);
  }

  /** What an open records and moves: the position is opened at the oracle's own price for the market's
      feed, and the epoch is the running one or starts at the bounded pool. */
  lemma OpenFacts(
    mk: Market, ps: seq<Position>, pool: u64, wallet: u64, a: OpenArgs, oracle: OracleAccount, now: i64)
    requires OpenPosition(mk, ps, pool, wallet, a, oracle, now).Ok?
    ensures var e := OpenPosition(mk, ps, pool, wallet, a, oracle, now).value;
            && |e.positions| == |ps| + 1 && e.positions == ps + [Opened(e)]
            && Opened(e).Id() == PosId(mk.marketId, a.nonce)
            && Opened(e).salt == a.salt && Opened(e).collateral == a.collateral && Opened(e).direction == a.direction
            && Opened(e).expiresAt == now + POSITION_DURATION_SECONDS
            && GivesPrice(oracle, now, mk.feedId) && Opened(e).entryPrice == oracle.update.price
            && a.minEntryPrice <= Opened(e).entryPrice <= a.maxEntryPrice
            && e.market == mk.(riskEpochEquity := EpochBase(mk, pool), openCollateral := e.market.openCollateral,
                               activePositions := e.market.activePositions, nextNonce := e.market.nextNonce)
            && e.market.openCollateral == mk.openCollateral + a.collateral
            && e.market.activePositions == mk.activePositions + 1
            && e.market.nextNonce == mk.nextNonce + 1
            && e.pool == pool + a.collateral && e.wallet == wallet - a.collateral
            && e.event == PositionCreated(Opened(e).Id(), a.user, Opened(e).entryPrice, Opened(e).collateral,
                                          Opened(e).direction, Opened(e).expiresAt)
  {
    hide RequirePostOpenSolvency, RequireUserOpenCollateralCapacity, RequireOpenLiquidity, UserOpenCollateral,
         RequireSessionTokenDelegate, RequireCollateralBounds, ReadOraclePrice, GivesPrice;
    OracleReadExactly(oracle, now, mk.feedId);
  }

  /** A time inside the position's settlement window. */
  predicate InWindow(p: Position, time: int) {
    p.expiresAt <= time < p.expiresAt + SETTLEMENT_BUFFER_SECONDS
  }

  /** What a position is paid at a price: its leveraged profit capped at five times the collateral less
      a tenth, of which the protocol keeps a fifth, or what its loss leaves of the collateral. It has
      won, lost or broken even by the sign of the leveraged result alone. */
  ghost predicate PaidAt(p: Position, price: i64, d: Decision)
    requires p.entryPrice > 0
  {
    var raw := RawPnl(p.collateral, p.entryPrice, price, p.direction);
    var profit := if raw <= 0 then 0 else if raw <= 5 * p.collateral then raw else 5 * p.collateral;
    && d.Pay?
    && d.payout == (if raw >= 0 then p.collateral + profit - profit / 10
                    else if -raw <= p.collateral then p.collateral + raw else 0)
    && d.protocolFee == profit / 10 / 5 && d.protocolFee + d.lpFee == profit / 10
    && d.outcome == (if raw > 0 then Won else if raw < 0 then Lost else Breakeven)
  }

  /** So the outcome tells whether the user got more, less or the same. */
  lemma OutcomeTellsPayout(p: Position, price: i64, d: Decision)
    requires p.collateral > 0 && p.entryPrice > 0 && PaidAt(p, price, d)
    ensures d.outcome == Won <==> d.payout > p.collateral
    ensures d.outcome == Lost <==> d.payout < p.collateral
    ensures d.outcome == Breakeven <==> d.payout == p.collateral
    ensures d.payout + d.protocolFee <= 6 * p.collateral
  {
    hide RawPnl;
  }

  lemma SettlementPays(p: Position, price: i64)
    requires p.collateral > 0 && p.entryPrice > 0 && price > 0
    ensures var s := Settle(p.collateral, p.entryPrice, price, p.direction);
            && s.Ok?
            && PaidAt(p, price, Pay(s.value.userPayout, s.value.protocolFee, s.value.lpFee,
                                    PositionOutcome(false, s.value.grossProfit, s.value.loss)))
  {
    hide RawPnl, Settle;
    SettlementTotal(p.collateral, p.entryPrice, price, p.direction);
  }

  /** When a tick pays, and what. Before expiry it does nothing; from the refund time on the
      collateral goes back untouched; in between only a qualifying price of the market's own feed,
      published inside the settlement window, decides, and the tick fails exactly when the oracle
      account cannot be read. */
  lemma DecideFacts(p: Position, feedId: nat, oracle: OracleAccount, now: i64)
    requires p.collateral > 0 && p.entryPrice > 0
    ensures var r := Decide(p, feedId, oracle, now);
            if now < p.expiresAt then r == Ok(NotYet)
            else if now >= p.expiresAt + SETTLEMENT_BUFFER_SECONDS then r == Ok(Pay(p.collateral, 0, 0, Refunded))
            else if Unreadable(oracle, feedId) then
              r == Err(if oracle.Holding? && oracle.update.feedId == feedId then OracleExponentMismatch
                       else InvalidOraclePrice)
            else if !GivesPrice(oracle, now, feedId) || !InWindow(p, oracle.update.publishTime) then r == Ok(NotYet)
            else r.Ok? && PaidAt(p, oracle.update.price, r.value)
  {
    hide ReadOraclePrice, PaidAt, CalculateSettlement;
    OracleReadExactly(oracle, now, feedId);
    if GivesPrice(oracle, now, feedId) {
      SettlementPays(p, oracle.update.price);
    }
  }

  lemma PayBounded(p: Position, feedId: nat, oracle: OracleAccount, now: i64)
    requires p.collateral > 0 && p.entryPrice > 0
    requires Decide(p, feedId, oracle, now).Ok? && Decide(p, feedId, oracle, now).value.Pay?
    ensures now >= p.expiresAt
    ensures Decide(p, feedId, oracle, now).value.payout + Decide(p, feedId, oracle, now).value.protocolFee
        <= 6 * p.collateral
  {
    hide Decide, PaidAt, Qualifies, InWindow;
    DecideFacts(p, feedId, oracle, now);
    var d := Decide(p, feedId, oracle, now).value;
    if now < p.expiresAt + SETTLEMENT_BUFFER_SECONDS {
      OutcomeTellsPayout(p, oracle.update.price, d);
    }
  }

  /** The bookkeeping of a successful settlement. */
  lemma SettleFacts(
    mk: Market, ps: seq<Position>, pool: u64, fee: u64, destination: u64,
    nonce: u32, salt: Salt, oracle: OracleAccount, now: i64)
    requires var r := SettlePosition(mk, ps, pool, fee, destination, nonce, salt, oracle, now); r.Ok? && r.value.Some?
    ensures PositionIndex(ps, PosId(mk.marketId, nonce)).Some?
    ensures var i := PositionIndex(ps, PosId(mk.marketId, nonce)).value;
            var p := ps[i];
            var e := SettlePosition(mk, ps, pool, fee, destination, nonce, salt, oracle, now).value.value;
            && p.salt == salt
            && Decide(p, mk.feedId, oracle, now).Ok? && Decide(p, mk.feedId, oracle, now).value.Pay?
            && var d := Decide(p, mk.feedId, oracle, now).value;
            && e.positions == SwapRemove(ps, i)
            && e.market == mk.(openCollateral := e.market.openCollateral, activePositions := e.market.activePositions)
            && e.market.openCollateral == mk.openCollateral - p.collateral
            && e.market.activePositions == mk.activePositions - 1
            && e.pool == pool - d.payout - d.protocolFee
            && e.fee == fee + d.protocolFee && e.destination == destination + d.payout
            && e.event == PositionClosed(PosId(mk.marketId, nonce), d.outcome, d.payout, d.lpFee, d.protocolFee)
  {
    hide Decide, SwapRemove, PositionIndex;
  }

  /** A settlement can only fail through the oracle: the pool, the counters and the destinations
      are always sufficient. */
  lemma SettleFailsOnlyByOracle(
    mk: Market, ps: seq<Position>, pool: u64, fee: u64, destination: u64,
    nonce: u32, salt: Salt, oracle: OracleAccount, now: i64)
    requires forall p :: p in ps && p.Id() == PosId(mk.marketId, nonce) ==>
               && p.salt == salt && p.collateral > 0 && p.entryPrice > 0
               && 6 * p.collateral <= pool && p.collateral <= mk.openCollateral && 0 < mk.activePositions
    requires pool + fee <= U64_MAX && pool + destination <= U64_MAX
    ensures var r := SettlePosition(mk, ps, pool, fee, destination, nonce, salt, oracle, now);
            r.Err? ==> && Unreadable(oracle, mk.feedId)
                       && exists p :: p in ps && p.Id() == PosId(mk.marketId, nonce)
                                      && p.expiresAt <= now < p.expiresAt + SETTLEMENT_BUFFER_SECONDS
  {
    var found := PositionIndex(ps, PosId(mk.marketId, nonce));
    if found.Some? {
      var p := ps[found.value];
      assert p in ps;
      DecideFacts(p, mk.feedId, oracle, now);
      hide Decide, SwapRemove, PositionIndex;
    }
  }

  lemma DepositFacts(
    mk: Market, ls: seq<LiquidityEntry>, pool: u64, wallet: u64, user: Pubkey, amount: u64, minSharesOut: u128)
    requires DepositLiquidity(mk, ls, pool, wallet, user, amount, minSharesOut).Ok?
    ensures mk.mode.Open? && mk.IsNoRisk()
    ensures MarketOrInsert(ls, mk.marketId).Ok? && SharesForDeposit(amount, pool, mk.totalShares).Ok?
    ensures if mk.totalShares == 0 then MIN_MARKET_EQUITY <= amount <= MAX_MARKET_EQUITY
            else pool + amount <= MAX_MARKET_EQUITY
    ensures var e := DepositLiquidity(mk, ls, pool, wallet, user, amount, minSharesOut).value;
            var (base, i) := MarketOrInsert(ls, mk.marketId).value;
            var shares := SharesForDeposit(amount, pool, mk.totalShares).value;
            && shares > 0 && amount > 0 && shares >= minSharesOut
            && e.entries == base[i := base[i].(shares := e.entries[i].shares)]
            && e.entries[i].shares == base[i].shares + shares
            && e.market == mk.(totalShares := e.market.totalShares) && e.market.totalShares == mk.totalShares + shares
            && amount <= wallet && e.pool == pool + amount && e.wallet == wallet - amount
            && e.event == LiquidityDeposited(mk.marketId, user, amount, shares)
  {
  }

  /** Everything a deposit demands: an open market without risk; for the first LP an amount within the
      equity bounds, for any other a pool that stays under the cap; at least one share and the
      minimum; room for the market in the user's list; and amounts that the widths can hold. */
  predicate Depositable(mk: Market, ls: seq<LiquidityEntry>, pool: u64, wallet: u64, amount: u64, minSharesOut: u128) {
    var minted := Minted(amount, pool, mk.totalShares);
    && mk.mode.Open? && mk.activePositions == 0 && mk.openCollateral == 0
    && (if mk.totalShares == 0 then MIN_MARKET_EQUITY <= amount <= MAX_MARKET_EQUITY
        else 0 < amount && pool + amount <= MAX_MARKET_EQUITY && amount * mk.totalShares <= U128_MAX)
    && 0 < minted && minSharesOut <= minted
    && (EntryIndex(ls, mk.marketId).Some? || |ls| < USER_LIQUIDITY_MARKET_CAPACITY)
    && amount <= wallet && pool + amount <= U64_MAX
    && SharesIn(ls, mk.marketId) + minted <= U128_MAX && mk.totalShares + minted <= U128_MAX
  }

  lemma MintedExactly(amount: u64, pool: u64, total: u128)
    requires pool + amount <= U64_MAX
    ensures SharesForDeposit(amount, pool, total).Ok?
       <==> 0 < amount && 0 < Minted(amount, pool, total) && (total > 0 ==> amount * total <= U128_MAX)
    ensures SharesForDeposit(amount, pool, total).Ok? ==>
              SharesForDeposit(amount, pool, total).value == Minted(amount, pool, total)
    ensures total == 0 ==> Minted(amount, pool, total) == pool + amount
  {
    if pool > 0 && total > 0 && amount * total <= U128_MAX {
      MulMono(0, amount, total);
      QuotientShrinks(amount * total, pool);
    }
  }

  /** A deposit succeeds exactly then. */
  lemma DepositSucceedsExactly(
    mk: Market, ls: seq<LiquidityEntry>, pool: u64, wallet: u64, user: Pubkey, amount: u64, minSharesOut: u128)
    ensures DepositLiquidity(mk, ls, pool, wallet, user, amount, minSharesOut).Ok?
       <==> Depositable(mk, ls, pool, wallet, amount, minSharesOut)
  {
    hide SharesForDeposit, Minted, EntryIndex;
    if pool + amount <= U64_MAX {
      MintedExactly(amount, pool, mk.totalShares);
    }
  }

  lemma WithdrawFacts(mk: Market, ls: seq<LiquidityEntry>, pool: u64, wallet: u64, user: Pubkey)
    requires ExecuteWithdrawal(mk, ls, pool, wallet, user).Ok?
    ensures mk.IsNoRisk() && EntryIndex(ls, mk.marketId).Some?
    ensures var i := EntryIndex(ls, mk.marketId).value;
            var shares := ls[i].pending;
            var e := ExecuteWithdrawal(mk, ls, pool, wallet, user).value;
            && AssetsForShares(shares, pool, mk.totalShares).Ok?
            && var assets := AssetsForShares(shares, pool, mk.totalShares).value;
            && 0 < shares <= mk.totalShares && shares <= ls[i].shares
            && 0 < assets <= pool && assets >= ls[i].minAssetsOut
            && e.entries == RemoveEmptyMarket(ls[i := LiquidityEntry(mk.marketId, ls[i].shares - shares, 0, 0)],
                                              mk.marketId)
            && e.market == mk.(totalShares := e.market.totalShares) && e.market.totalShares == mk.totalShares - shares
            && e.pool == pool - assets && e.wallet == wallet + assets
            && (mk.mode.Open? ==> e.market.totalShares > 0 && e.pool >= MIN_MARKET_EQUITY)
            && e.event == WithdrawalExecuted(mk.marketId, user, shares, assets)
  {
    hide RemoveEmptyMarket, EntryIndex;
  }

  /** Everything the execution of a withdrawal demands: a market without risk, a pending amount within
      the entry and the total, a payout that is not zero and not under the user's minimum, and in an
      open market a remainder of shares and of at least the minimum equity. */
  predicate Withdrawable(mk: Market, ls: seq<LiquidityEntry>, pool: u64, wallet: u64) {
    && mk.activePositions == 0 && mk.openCollateral == 0
    && EntryIndex(ls, mk.marketId).Some?
    && var e := ls[EntryIndex(ls, mk.marketId).value];
    && var assets := Redeemed(e.pending, pool, mk.totalShares);
    && 0 < e.pending <= mk.totalShares && e.pending <= e.shares && e.pending * pool <= U128_MAX
    && 0 < assets && e.minAssetsOut <= assets && wallet + assets <= U64_MAX
    && (mk.mode.Open? ==> e.pending < mk.totalShares && MIN_MARKET_EQUITY + assets <= pool)
  }

  lemma RedeemedExactly(shares: u128, pool: u64, total: u128)
    ensures AssetsForShares(shares, pool, total).Ok? <==> 0 < shares <= total && shares * pool <= U128_MAX
    ensures AssetsForShares(shares, pool, total).Ok? ==>
              AssetsForShares(shares, pool, total).value == Redeemed(shares, pool, total) <= pool
  {
    if 0 < shares <= total {
      MulMono(0, shares, pool);
      MulMono(shares, total, pool);
      assert (pool + 1) * total == total * pool + total;
      FloorIsGreatest(shares * pool, total, 0);
      FloorIsGreatest(shares * pool, total, pool + 1);
    }
  }

  /** A withdrawal executes exactly then. */
  lemma WithdrawSucceedsExactly(mk: Market, ls: seq<LiquidityEntry>, pool: u64, wallet: u64, user: Pubkey)
    ensures ExecuteWithdrawal(mk, ls, pool, wallet, user).Ok? <==> Withdrawable(mk, ls, pool, wallet)
  {
    hide AssetsForShares, Redeemed, EntryIndex, RemoveEmptyMarket;
    if EntryIndex(ls, mk.marketId).Some? {
      RedeemedExactly(ls[EntryIndex(ls, mk.marketId).value].pending, pool, mk.totalShares);
    }
  }

  /** The life of a pending withdrawal: it blocks a second request, cancelling it restores the list
      with its pending fields cleared, and executing it redeems the requested shares for at least
      the requested minimum. */
  lemma PendingLifecycle(
    mk: Market, ls: seq<LiquidityEntry>, user: Pubkey, shares: u128, minAssetsOut: u64,
    later: Market, pool: u64, wallet: u64, shares': u128, minAssetsOut': u64)
    requires RequestWithdrawal(mk, ls, user, shares, minAssetsOut).Ok? && later.marketId == mk.marketId
    ensures EntryIndex(ls, mk.marketId).Some?
    ensures var requested := RequestWithdrawal(mk, ls, user, shares, minAssetsOut).value.0;
            var i := EntryIndex(ls, mk.marketId).value;
            && ls[i].pending == 0 && shares <= ls[i].shares
            && RequestWithdrawal(later, requested, user, shares', minAssetsOut').Err?
            && CancelWithdrawal(later, requested, user)
                 == Ok((ls[i := ls[i].(minAssetsOut := 0)], WithdrawalCancelled(mk.marketId, user, shares)))
            && var executed := ExecuteWithdrawal(later, requested, pool, wallet, user);
               executed.Ok? ==>
                 && executed.value.event.shares == shares && executed.value.event.assets >= minAssetsOut
                 && executed.value.entries
                 == RemoveEmptyMarket(ls[i := LiquidityEntry(mk.marketId, ls[i].shares - shares, 0, 0)], mk.marketId)
  {
    hide RemoveEmptyMarket, AssetsForShares, EntryIndex;
    var requested := RequestWithdrawal(mk, ls, user, shares, minAssetsOut).value.0;
    var i := EntryIndex(ls, mk.marketId).value;
    FoundAfterUpdate(ls, mk.marketId, requested[i]);
    assert requested[i := ls[i].(minAssetsOut := 0)] == ls[i := ls[i].(minAssetsOut := 0)];
    if ExecuteWithdrawal(later, requested, pool, wallet, user).Ok? {
      WithdrawFacts(later, requested, pool, wallet, user);
      var left := LiquidityEntry(mk.marketId, ls[i].shares - shares, 0, 0);
      assert requested[i := left] == ls[i := left];
    }
  }

  lemma {:induction false} FoundAfterUpdate(ls: seq<LiquidityEntry>, m: MarketId, e: LiquidityEntry)
    requires EntryIndex(ls, m).Some? && e.marketId == m
    ensures EntryIndex(ls[EntryIndex(ls, m).value := e], m) == EntryIndex(ls, m)
  {
    var i := EntryIndex(ls, m).value;
    if i > 0 {
      FoundAfterUpdate(ls[1..], m, e);
      assert ls[i := e][1..] == ls[1..][i - 1 := e];
    }
  }
}
