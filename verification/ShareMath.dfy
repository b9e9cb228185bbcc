/** How deposits and redemptions move the value of a share. */
module ShareMath {
  import opened Rust
  import opened Arithmetic
  import opened MarketMath

  /** The shares a deposit mints, in exact arithmetic. */
  function Minted(amount: nat, pool: nat, total: nat): nat {
    if total == 0 then pool + amount
    else if pool == 0 then 0
    else
      MulMono(0, amount, total);
      QuotientShrinks(amount * total, pool);
      (amount * total) / pool
  }

  /** What a redemption pays, in exact arithmetic. */
  function Redeemed(shares: nat, pool: nat, total: nat): nat {
    if total == 0 then 0
    else
      MulMono(0, shares, pool);
      QuotientShrinks(shares * pool, total);
      (shares * pool) / total
  }

  /** A deposit into a funded market never lowers the value of a share. */
  lemma DepositKeepsShareValue(amount: u64, pool: u64, total: u128)
    requires total > 0 && SharesForDeposit(amount, pool, total).Ok?
    ensures pool > 0
    ensures (pool + amount) * total >= pool * (total + SharesForDeposit(amount, pool, total).value)
  {
    var shares := SharesForDeposit(amount, pool, total).value;
    FloorBounds(amount * total, pool);
    assert shares * pool <= amount * total;
    assert pool * (total + shares) == pool * total + shares * pool;
  }

  /** Nor does a redemption, which never asks for more than the pool holds. */
  lemma RedeemKeepsShareValue(shares: u128, pool: u64, total: u128)
    requires AssetsForShares(shares, pool, total).Ok?
    ensures AssetsForShares(shares, pool, total).value <= pool
    ensures (pool - AssetsForShares(shares, pool, total).value) * total >= pool * (total - shares)
  {
    var assets := AssetsForShares(shares, pool, total).value;
    FloorBounds(shares * pool, total);
    assert assets * total <= shares * pool;
    MulMono(shares, total, pool);
    MulCancel(assets, pool, total);
    assert (pool - assets) * total == pool * total - assets * total;
    assert pool * (total - shares) == pool * total - shares * pool;
  }

  /** When the value of a share has not fallen, neither has what a fixed holding redeems. */
  lemma RedeemableMono(shares: nat, pool: nat, total: nat, pool': nat, total': nat)
    requires total > 0 && total' > 0 && pool' * total >= pool * total'
    ensures (shares * pool) / total <= (shares * pool') / total'
  {
    var q := (shares * pool) / total;
    FloorBounds(shares * pool, total);
    MulMono(q * total, shares * pool, total');
    MulMono(pool * total', pool' * total, shares);
    Regroup(q, total, total');
    Regroup(shares, pool, total');
    Regroup(shares, pool', total);
    assert (q * total') * total <= (shares * pool') * total;
    MulCancel(q * total', shares * pool', total);
    FloorIsGreatest(shares * pool', total', q);
  }

  /** Depositing into a funded market and redeeming at once never returns more than went in, and
      loses to rounding less than one unit and the worth of one share. */
  lemma DepositThenRedeem(amount: u64, pool: u64, total: u128)
    requires total > 0 && SharesForDeposit(amount, pool, total).Ok? && pool + amount <= U64_MAX
    requires total + SharesForDeposit(amount, pool, total).value <= U128_MAX
    ensures var shares := SharesForDeposit(amount, pool, total).value;
            var back := AssetsForShares(shares, pool + amount, total + shares);
            back.Ok? ==> back.value <= amount && (amount - back.value - 1) * (total + shares) < pool
  {
    FloorBounds(amount * total, pool);
    RoundTrip(amount, pool, total, SharesForDeposit(amount, pool, total).value);
  }

  lemma RoundTrip(amount: nat, pool: nat, total: nat, shares: nat)
    requires total > 0 && shares * pool <= amount * total < shares * pool + pool
    ensures var back := shares * (pool + amount) / (total + shares);
            back <= amount && (amount - back - 1) * (total + shares) < pool
  {
    var after, x := total + shares, shares * (pool + amount);
    var back := x / after;
    assert x == shares * pool + shares * amount;
    assert amount * after == amount * total + shares * amount;
    FloorBounds(x, after);
    FloorIsGreatest(x, after, amount + 1);
    assert (amount + 1) * after == amount * after + after;
    assert (amount - back - 1) * after == amount * after - back * after - after;
  }

  /** Splitting one deposit in two never yields more shares, in a funded market or an empty one. */
  lemma SplittingNeverGains(first: u64, second: u64, pool: u64, total: u128)
    requires pool + first + second <= U64_MAX
    ensures var one := SharesForDeposit(first, pool, total);
            one.Ok? && total + one.value <= U128_MAX ==>
              var two := SharesForDeposit(second, pool + first, total + one.value);
              var whole := SharesForDeposit(first + second, pool, total);
              two.Ok? && whole.Ok? ==> one.value + two.value <= whole.value
  {
    if total == 0 {
      if pool + first > 0 {
        FloorIsGreatest(second * (pool + first), pool + first, second + 1);
        assert (second + 1) * (pool + first) == second * (pool + first) + pool + first;
      }
    } else if pool > 0 {
      SplitQuotients(first, second, pool, total);
    }
  }

  /** The second deposit meets a share worth no less, so it buys no more than at the old price. */
  lemma SplitQuotients(first: nat, second: nat, pool: nat, total: nat)
    requires pool > 0 && total > 0
    ensures first * total / pool + second * (total + first * total / pool) / (pool + first)
        <= (first + second) * total / pool
  {
    var one := first * total / pool;
    FloorBounds(first * total, pool);
    assert pool * (total + one) == pool * total + one * pool;
    assert (pool + first) * total == pool * total + first * total;
    RedeemableMono(second, total + one, pool + first, total, pool);
    FloorOfSum(first * total, second * total, pool);
    assert (first + second) * total == first * total + second * total;
  }

  /** Redeeming every share pays out the whole pool exactly when the product of the two fits in
      128 bits; otherwise the redemption fails. */
  lemma FullRedemption(pool: u64, total: u128)
    requires total > 0
    ensures AssetsForShares(total, pool, total) == (if total * pool <= U128_MAX then Ok(pool) else Err(MathOverflow))
  {
    FloorIsGreatest(total * pool, total, pool);
    FloorIsGreatest(total * pool, total, pool + 1);
    assert (pool + 1) * total == total * pool + total;
  }
}
