/** The client's liquidity quotes, in unbounded integers, against the program's checked arithmetic. */
module Quotes {
  import opened Rust
  import opened Protocol
  import opened Arithmetic
  import opened MarketMath
  import opened Instructions

  const MINIMUM_OPEN_LIQUIDITY := 100_000_000_000

  function QuoteAssets(shares: int, pool: int, total: int): int {
    if shares <= 0 || pool < 0 || total < shares then 0 else (shares * pool) / total
  }

  function QuoteShares(amount: int, pool: int, total: int): int {
    if amount <= 0 || pool < 0 || total < 0 then 0
    else if total == 0 then pool + amount
    else if pool == 0 then 0
    else (amount * total) / pool
  }

  function QuoteSharesRoundUp(assets: int, pool: int, total: int): int {
    if assets <= 0 || pool <= 0 || total <= 0 then 0 else (assets * total + pool - 1) / pool
  }

  function MaximumRemovable(userShares: int, pool: int, total: int, mode: MarketMode): int {
    if userShares <= 0 || pool <= 0 || total <= 0 then 0
    else if mode.CloseOnly? then userShares
    else if pool <= MINIMUM_OPEN_LIQUIDITY then 0
    else Min(((pool - MINIMUM_OPEN_LIQUIDITY) * total) / pool, userShares)
  }

  /** Whenever the program answers, the client quotes the same number; where the program rejects
      the amount itself, the client quotes nothing. */
  lemma AssetQuoteAgrees(shares: u128, pool: u64, total: u128)
    ensures AssetsForShares(shares, pool, total).Ok? ==>
        QuoteAssets(shares, pool, total) == AssetsForShares(shares, pool, total).value
    ensures shares == 0 || total < shares ==>
              AssetsForShares(shares, pool, total) == Err(InvalidAmount) && QuoteAssets(shares, pool, total) == 0
  {
  }

  /** Of anything that is not an amount the client quotes nothing. */
  lemma NothingQuoted(amount: int, pool: int, total: int)
    ensures amount <= 0 || pool < 0 ==> QuoteAssets(amount, pool, total) == 0 && QuoteShares(amount, pool, total) == 0
    ensures total < amount ==> QuoteAssets(amount, pool, total) == 0
    ensures total < 0 || (total > 0 && pool == 0) ==> QuoteShares(amount, pool, total) == 0
  {
  }

  lemma ShareQuoteAgrees(amount: u64, pool: u64, total: u128)
    ensures SharesForDeposit(amount, pool, total).Ok? ==>
        QuoteShares(amount, pool, total) == SharesForDeposit(amount, pool, total).value
    ensures amount == 0 || (total > 0 && pool == 0) ==>
              SharesForDeposit(amount, pool, total).Err? && QuoteShares(amount, pool, total) == 0
  {
  }

  /** Rounding up, as the least multiple. */
  lemma CeilIsLeast(x: int, pool: int, n: int)
    requires pool > 0
    ensures (x + pool - 1) / pool <= n <==> x <= n * pool
  {
    FloorIsGreatest(x + pool - 1, pool, n + 1);
    assert (n + 1) * pool == n * pool + pool;
  }

  /** How many shares redeem at least the wanted assets. */
  lemma RedeemsAtLeast(shares: int, assets: int, pool: int, total: int)
    requires 0 < assets && 0 < pool && 0 < total && 0 <= shares <= total
    ensures QuoteAssets(shares, pool, total) >= assets <==> assets * total <= shares * pool
  {
    if shares > 0 {
      FloorIsGreatest(shares * pool, total, assets);
    } else {
      MulMono(1, assets, total);
    }
  }

  /** Rounding up gives the least number of shares whose part of the pool is the wanted assets: none
      without assets, pool or shares, and never more than there are for assets within the pool. */
  lemma RoundUpIsLeast(assets: int, pool: int, total: int, n: int)
    ensures assets <= 0 || pool <= 0 || total <= 0 ==> QuoteSharesRoundUp(assets, pool, total) == 0
    ensures assets > 0 && pool > 0 && total > 0 ==>
              && 0 < QuoteSharesRoundUp(assets, pool, total)
              && (QuoteSharesRoundUp(assets, pool, total) <= n <==> assets * total <= n * pool)
    ensures 0 < assets <= pool && total > 0 ==> QuoteSharesRoundUp(assets, pool, total) <= total
  {
    if assets > 0 && pool > 0 && total > 0 {
      var x := assets * total;
      MulMono(1, assets, total);
      CeilIsLeast(x, pool, n);
      CeilIsLeast(x, pool, 0);
      if assets <= pool {
        MulMono(assets, pool, total);
        CeilIsLeast(x, pool, total);
      }
    }
  }

  /** So it is the least number whose quote is at least the wanted assets. */
  lemma RoundUpRedeems(assets: int, pool: int, total: int, n: int)
    requires 0 < assets <= pool && 0 < total && 0 <= n <= total
    ensures QuoteAssets(n, pool, total) >= assets <==> QuoteSharesRoundUp(assets, pool, total) <= n
  {
    hide QuoteAssets, QuoteSharesRoundUp;
    RoundUpIsLeast(assets, pool, total, n);
    RedeemsAtLeast(n, assets, pool, total);
  }

  /** What the client offers, exactly: nothing without shares, pool or total; all of the user's shares
      in a close-only market; nothing from an open market at or below its minimum; and otherwise as
      many of the user's shares as leave the minimum in the pool. */
  lemma MaximumExactly(userShares: int, pool: int, total: int, mode: MarketMode, n: int)
    ensures var most := MaximumRemovable(userShares, pool, total, mode);
            if userShares <= 0 || pool <= 0 || total <= 0 then most == 0
            else if mode == CloseOnly then most == userShares
            else if pool <= MIN_MARKET_EQUITY then most == 0
            else n <= most <==> n <= userShares && n * pool <= (pool - MIN_MARKET_EQUITY) * total
  {
    if pool > 0 {
      FloorIsGreatest((pool - MIN_MARKET_EQUITY) * total, pool, n);
    }
  }

  /** An offered number is within the user's shares, so the program takes a request for it. */
  lemma OfferIsWithinShares(userShares: u128, pool: u64, total: u128, mode: MarketMode, n: u128, minAssetsOut: u64)
    requires 0 < n <= MaximumRemovable(userShares, pool, total, mode)
    ensures n <= userShares
    ensures forall mk: Market, ls: seq<LiquidityEntry>, u ::
              ls != [] && ls[0] == LiquidityEntry(mk.marketId, userShares, 0, 0) ==>
                RequestWithdrawal(mk, ls, u, n, minAssetsOut).Ok?
  {
    MaximumExactly(userShares, pool, total, mode, n);
  }

  lemma RemainderBound(shares: nat, pool: nat, total: nat, minimum: int)
    requires 0 < shares <= total && minimum <= pool
    ensures 0 <= (shares * pool) / total <= pool
    ensures pool - (shares * pool) / total >= minimum <==> shares * pool < (pool - minimum + 1) * total
  {
    var x := shares * pool;
    MulMono(shares, total, pool);
    MulMono(0, shares, pool);
    assert (pool + 1) * total == total * pool + total;
    FloorIsGreatest(x, total, 0);
    FloorIsGreatest(x, total, pool + 1);
    FloorIsGreatest(x, total, pool - minimum + 1);
  }

  /** What a redemption of this many shares leaves in the pool. */
  function LeftInPool(shares: nat, pool: nat, total: nat): int
    requires total > 0
  {
    pool - (shares * pool) / total
  }

  /** The program's remainder check, for a redemption out of an open market: which counts pass. */
  lemma RemainderExactly(shares: u128, pool: u64, total: u128)
    requires 0 < shares <= total && pool >= MIN_MARKET_EQUITY
    ensures 0 <= LeftInPool(shares, pool, total) <= U64_MAX
    ensures RequireValidWithdrawalRemainder(Open, LeftInPool(shares, pool, total), total - shares,
                                            MIN_MARKET_EQUITY).Ok?
        <==> shares < total && shares * pool < (pool - MIN_MARKET_EQUITY + 1) * total
  {
    RemainderBound(shares, pool, total, MIN_MARKET_EQUITY);
  }

  lemma MulPositive(a: int, b: int)
    requires b > 0 && a * b > 0
    ensures a > 0
  {
  }

  lemma RemovableBound(shares: nat, pool: nat, total: nat, minimum: nat)
    requires 0 < minimum < pool && 0 < shares <= ((pool - minimum) * total) / pool
    ensures shares < total && shares * pool < (pool - minimum + 1) * total
  {
    var spare := pool - minimum;
    FloorIsGreatest(spare * total, pool, shares);
    if total == 0 {
      MulMono(1, shares, pool);
    } else {
      MulMono(1, total, minimum);
      assert total * pool == spare * total + total * minimum;
      assert (spare + 1) * total == spare * total + total;
      assert (total - shares) * pool == total * pool - shares * pool;
      MulPositive(total - shares, pool);
    }
  }

  /** Every count the client offers in an open market passes that check. */
  lemma RemovableIsAccepted(userShares: u128, shares: u128, pool: u64, total: u128)
    requires 0 < shares <= MaximumRemovable(userShares, pool, total, Open)
    ensures shares < total && 0 <= LeftInPool(shares, pool, total) <= U64_MAX
    ensures RequireValidWithdrawalRemainder(Open, LeftInPool(shares, pool, total), total - shares,
                                            MIN_MARKET_EQUITY).Ok?
  {
    hide LeftInPool, RequireValidWithdrawalRemainder;
    RemovableBound(shares, pool, total, MIN_MARKET_EQUITY);
    RemainderExactly(shares, pool, total);
  }

  /** The client's maximum is safe but not tight: here it offers 10 shares where 19 would pass. */
  lemma MaximumIsNotTight()
    ensures MaximumRemovable(1_000, 100_000_000_001, 1_000_000_000_010, Open) == 10
    ensures RequireValidWithdrawalRemainder(
              Open, LeftInPool(19, 100_000_000_001, 1_000_000_000_010), 1_000_000_000_010 - 19, MIN_MARKET_EQUITY).Ok?
  {
  }
}
