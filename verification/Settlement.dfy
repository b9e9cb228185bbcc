/** What `calculate_settlement` computes with the program's constants, for every position the
    program can hold and every positive price. */
module Settlement {
  import opened Rust
  import opened Protocol
  import opened Arithmetic
  import opened MarketMath

  /** The call made by the settlement handler. */
  function Settle(collateral: u64, entry: i64, price: i64, direction: Direction): Result<SettlementAmounts> {
    CalculateSettlement(collateral, entry, price, direction, LEVERAGE, PROFIT_FEE_BPS, PROTOCOL_FEE_SHARE_BPS)
  }

  /** The price move in the position's favour, scaled by its leveraged collateral. */
  function Exposure(collateral: int, entry: int, price: int, direction: Direction): int {
    (collateral * 1000) * (if direction.Up? then price - entry else entry - price)
  }

  /** Leveraged profit or loss before the caps. */
  function RawPnl(collateral: int, entry: int, price: int, direction: Direction): int
    requires entry > 0
  {
    TruncDiv(Exposure(collateral, entry, price, direction), entry)
  }

  /** Ten percent of the capped profit is the fee. */
  function Payout(collateral: int, raw: int): int {
    if raw >= 0 then
      var profit := Min(raw, 5 * collateral);
      collateral + profit - profit / 10
    else
      collateral - Min(-raw, collateral)
  }

  /** A fifth of the fee goes to the protocol, the rest stays in the pool. */
  ghost predicate Describes(a: SettlementAmounts, collateral: int, raw: int) {
    && a.userPayout == Payout(collateral, raw)
    && a.grossProfit == (if raw >= 0 then Min(raw, 5 * collateral) else 0)
    && a.loss == (if raw >= 0 then 0 else Min(-raw, collateral))
    && a.protocolFee == a.grossProfit / 10 / 5
    && a.protocolFee + a.lpFee == a.grossProfit / 10
  }

  lemma RawPnlFits(collateral: u32, entry: i64, price: i64, direction: Direction)
    requires entry > 0 && price > 0
    ensures ToI128(collateral * LEVERAGE).Ok?
    ensures ToI128(Exposure(collateral, entry, price, direction)).Ok?
    ensures ToI128(RawPnl(collateral, entry, price, direction)).Ok?
  {
    MulBound(collateral * LEVERAGE, if direction.Up? then price - entry else entry - price,
             0xFFFF_FFFF * 1000, 0x7FFF_FFFF_FFFF_FFFF);
    TruncDivShrinks(Exposure(collateral, entry, price, direction), entry);
  }

  lemma RawPnlSettles(collateral: u32, raw: int)
    requires ToI128(raw).Ok?
    ensures var r := SettleRawPnl(collateral, raw, PROFIT_FEE_BPS, PROTOCOL_FEE_SHARE_BPS);
            r.Ok? && Describes(r.value, collateral, raw)
  {
  }

  /** No overflow is reachable: the settlement of a stored position always succeeds, with
      these amounts. */
  lemma SettlementTotal(collateral: u32, entry: i64, price: i64, direction: Direction)
    requires collateral > 0 && entry > 0 && price > 0
    ensures Settle(collateral, entry, price, direction).Ok?
    ensures Describes(Settle(collateral, entry, price, direction).value,
                      collateral, RawPnl(collateral, entry, price, direction))
  {
    RawPnlFits(collateral, entry, price, direction);
    var raw := RawPnl(collateral, entry, price, direction);
    RawPnlSettles(collateral, raw);
    assert Settle(collateral, entry, price, direction)
        == SettleRawPnl(collateral, raw, PROFIT_FEE_BPS, PROTOCOL_FEE_SHARE_BPS);
  }

  /** Money in equals money out, and the pool never pays more than six times the collateral. */
  lemma SettlementConserves(collateral: u32, entry: i64, price: i64, direction: Direction)
    requires collateral > 0 && entry > 0 && price > 0
    ensures Settle(collateral, entry, price, direction).Ok?
    ensures var a := Settle(collateral, entry, price, direction).value;
            && a.userPayout + a.protocolFee + a.lpFee == collateral + a.grossProfit - a.loss
            && a.userPayout + a.protocolFee <= 6 * collateral
            && a.loss <= collateral && a.grossProfit <= 5 * collateral
            && (a.loss == 0 || a.grossProfit == 0)
  {
    SettlementTotal(collateral, entry, price, direction);
  }

  lemma PayoutMono(collateral: nat, low: int, high: int)
    requires low <= high
    ensures Payout(collateral, low) <= Payout(collateral, high)
  {
  }

  lemma RawPnlMono(collateral: nat, entry: int, low: int, high: int)
    requires entry > 0 && low <= high
    ensures RawPnl(collateral, entry, low, Up) <= RawPnl(collateral, entry, high, Up)
    ensures RawPnl(collateral, entry, high, Down) <= RawPnl(collateral, entry, low, Down)
  {
    var k := collateral * LEVERAGE;
    MulMono(low - entry, high - entry, k);
    MulMono(entry - high, entry - low, k);
    TruncDivMono(Exposure(collateral, entry, low, Up), Exposure(collateral, entry, high, Up), entry);
    TruncDivMono(Exposure(collateral, entry, high, Down), Exposure(collateral, entry, low, Down), entry);
  }

  /** A higher settlement price never pays an Up position less nor a Down position more. */
  lemma SettlementMonotone(collateral: u32, entry: i64, low: i64, high: i64)
    requires collateral > 0 && entry > 0 && 0 < low <= high
    ensures Settle(collateral, entry, low, Up).Ok? && Settle(collateral, entry, high, Up).Ok?
    ensures Settle(collateral, entry, low, Down).Ok? && Settle(collateral, entry, high, Down).Ok?
    ensures Settle(collateral, entry, low, Up).value.userPayout <= Settle(collateral, entry, high, Up).value.userPayout
    ensures Settle(collateral, entry, high, Down).value.userPayout
        <= Settle(collateral, entry, low, Down).value.userPayout
  {
    SettlementTotal(collateral, entry, low, Up);
    SettlementTotal(collateral, entry, high, Up);
    SettlementTotal(collateral, entry, low, Down);
    SettlementTotal(collateral, entry, high, Down);
    RawPnlMono(collateral, entry, low, high);
    PayoutMono(collateral, RawPnl(collateral, entry, low, Up), RawPnl(collateral, entry, high, Up));
    PayoutMono(collateral, RawPnl(collateral, entry, high, Down), RawPnl(collateral, entry, low, Down));
  }

  lemma OppositeRawPnl(collateral: int, entry: int, price: int)
    requires entry > 0
    ensures RawPnl(collateral, entry, price, Down) == -RawPnl(collateral, entry, price, Up)
  {
    var k := collateral * LEVERAGE;
    assert k * (entry - price) == -(k * (price - entry));
    TruncDivOdd(Exposure(collateral, entry, price, Up), entry);
  }

  /** Holding both directions at one price: truncation is symmetric, so the two raw results are
      opposite, and together they pay at most five and a half times one collateral, with half a
      unit of slack for an odd collateral. */
  lemma OppositePositionsBounded(collateral: u32, entry: i64, price: i64)
    requires collateral > 0 && entry > 0 && price > 0
    ensures Settle(collateral, entry, price, Up).Ok? && Settle(collateral, entry, price, Down).Ok?
    ensures 2 * (Settle(collateral, entry, price, Up).value.userPayout
                 + Settle(collateral, entry, price, Down).value.userPayout) <= 11 * collateral + 1
  {
    SettlementTotal(collateral, entry, price, Up);
    SettlementTotal(collateral, entry, price, Down);
    OppositeRawPnl(collateral, entry, price);
  }

  /** The half unit is reached, so 5.5 times the collateral alone is not a bound. */
  lemma OppositeBoundIsTight()
    ensures Settle(1_000_001, 100_000, 101_000, Up).Ok? && Settle(1_000_001, 100_000, 101_000, Down).Ok?
    ensures 2 * (Settle(1_000_001, 100_000, 101_000, Up).value.userPayout
                 + Settle(1_000_001, 100_000, 101_000, Down).value.userPayout) == 11 * 1_000_001 + 1
  {
    SettlementTotal(1_000_001, 100_000, 101_000, Up);
    SettlementTotal(1_000_001, 100_000, 101_000, Down);
  }
}
