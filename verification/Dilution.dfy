/** How far the shares of a market can outgrow its tokens. A round in which the LPs lose a trade and
    the loss is deposited back leaves the pool as it was and mints new shares, so rounds multiply the
    shares until the redemption of all of them overflows 128 bits. */
module Dilution {
  import opened Rust
  import opened Protocol
  import opened Arithmetic
  import opened MarketMath
  import opened Settlement
  import opened ShareMath
  import opened Lists
  import opened Instructions
  import opened InstructionFacts
  import opened Chain
  import Inv = Invariants
  import Runs

  const EQUITY := 100_000_000_000
  const STAKE := 1_000_000_000
  const PAYOUT := 5_500_000_000
  const FEE := 100_000_000
  /** What the pool has lost after a round's trade, and what is left in it. */
  const LOSS := 4_600_000_000
  const LEFT := 95_400_000_000
  const ENTRY: i64 := 100_000
  const EXIT: i64 := 101_000

  function Update(price: i64, time: i64): OracleAccount {
    Holding(PriceUpdate(0, price, 0, ORACLE_EXPONENT, time, 1, true))
  }

  function Args(nonce: u32): OpenArgs {
    OpenArgs(0, nonce, 1, Up, STAKE, ENTRY, ENTRY, Some(0), STAKE, 0, true)
  }

  function OpenCommand(k: u32): Command {
    OpenAt(0, 0, Args(k), Update(ENTRY, 0), 0)
  }

  function TickCommand(k: u32): Command {
    Tick(PosId(0, k), Update(EXIT, 10), true, 10)
  }

  const REFILL := Deposit(0, 0, 0, LOSS, 0)

  function Opened(k: u32): Position {
    Position(0, k, 1, STAKE, ENTRY, 10, Up)
  }

  /** The state between two rounds: the pool is whole again and one LP holds all the shares. */
  ghost predicate Between(s: State, k: nat, shares: nat) {
    && shares <= U128_MAX && k <= 0xFFFF_FFFF
    && 0 in s.markets && s.markets[0] == Market(0, 0, shares, 0, s.markets[0].riskEpochEquity, 0, k, Open)
    && 0 in s.positions && s.positions[0] == []
    && 0 in s.liquidity && s.liquidity[0] == [LiquidityEntry(0, shares, 0, 0)]
    && s.Balance(Pool(0)) == EQUITY
    && s.Balance(Wallet(0)) == U64_MAX - EQUITY - k * FEE && s.Balance(Fee(0)) == k * FEE
  }

  lemma OracleSays(price: i64, time: i64)
    requires 0 < price && 0 <= time <= 10
    ensures GivesPrice(Update(price, time), time, 0)
  {
  }

  // ----- one round

  ghost predicate Trading(s: State, k: u32, shares: nat) {
    && shares <= U128_MAX && k < 1000
    && 0 in s.markets && s.markets[0] == Market(0, 0, shares, STAKE, EQUITY, 1, k + 1, Open)
    && 0 in s.positions && s.positions[0] == [Opened(k)]
    && 0 in s.liquidity && s.liquidity[0] == [LiquidityEntry(0, shares, 0, 0)]
    && s.Balance(Pool(0)) == EQUITY + STAKE
    && s.Balance(Wallet(0)) == U64_MAX - EQUITY - k * FEE - STAKE && s.Balance(Fee(0)) == k * FEE
    && PosId(0, k) in s.tasks && s.tasks[PosId(0, k)] == Task(0, 1, 0, 0, 0, Opened(k))
  }

  lemma OpenRound(s: State, k: nat, shares: nat)
    requires Between(s, k, shares) && k < 1000 && shares > 0
    ensures Trading(Apply(s, OpenCommand(k)), k, shares)
  {
    hide OpenPosition, GivesPrice;
    var mk, wallet := s.markets[0], s.Balance(Wallet(0));
    OracleSays(ENTRY, 0);
    OpenSucceedsExactly(mk, [], EQUITY, wallet, Args(k), Update(ENTRY, 0), 0);
    OpenFacts(mk, [], EQUITY, wallet, Args(k), Update(ENTRY, 0), 0);
  }

  lemma TradePays(k: u32)
    ensures Decide(Opened(k), 0, Update(EXIT, 10), 10) == Ok(Pay(PAYOUT, FEE, 400_000_000, Won))
  {
    hide Decide, GivesPrice;
    OracleSays(EXIT, 10);
    DecideFacts(Opened(k), 0, Update(EXIT, 10), 10);
    assert RawPnl(STAKE, ENTRY, EXIT, Up) == 10_000_000_000;
  }

  ghost predicate Lost(s: State, k: u32, shares: nat) {
    && shares <= U128_MAX && k < 1000
    && 0 in s.markets && s.markets[0] == Market(0, 0, shares, 0, EQUITY, 0, k + 1, Open)
    && 0 in s.positions && s.positions[0] == []
    && 0 in s.liquidity && s.liquidity[0] == [LiquidityEntry(0, shares, 0, 0)]
    && s.Balance(Pool(0)) == LEFT
    && s.Balance(Wallet(0)) == U64_MAX - EQUITY - k * FEE - STAKE + PAYOUT && s.Balance(Fee(0)) == (k + 1) * FEE
  }

  lemma TickRound(s: State, k: u32, shares: nat)
    requires Trading(s, k, shares)
    ensures Lost(Apply(s, TickCommand(k)), k, shares)
  {
    hide Decide;
    TradePays(k);
    assert PositionIndex([Opened(k)], PosId(0, k)) == Some(0);
    assert SwapRemove([Opened(k)], 0) == [];
  }

  /** The shares after one more round. */
  function Grown(shares: nat): nat {
    shares + Minted(LOSS, LEFT, shares)
  }

  lemma RefillRound(s: State, k: u32, shares: nat)
    requires Lost(s, k, shares) && EQUITY <= shares <= 40_000_000_000_000_000_000
    ensures Between(Apply(s, REFILL), k + 1, Grown(shares))
  {
    hide DepositLiquidity, Minted, MarketOrInsert;
    var mk, ls, wallet := s.markets[0], s.liquidity[0], s.Balance(Wallet(0));
    GrowthBounds(shares);
    assert EntryIndex(ls, 0) == Some(0);
    DepositSucceedsExactly(mk, ls, LEFT, wallet, 0, LOSS, 0);
    DepositFacts(mk, ls, LEFT, wallet, 0, LOSS, 0);
    MintedExactly(LOSS, LEFT, shares);
    FoundFirst(ls, 0);
  }

  lemma FoundFirst(ls: seq<LiquidityEntry>, m: MarketId)
    requires EntryIndex(ls, m) == Some(0)
    ensures MarketOrInsert(ls, m) == Ok((ls, 0))
  {
  }

  // ----- how shares grow

  /** A round adds more than a twenty-first of the shares and never doubles them. */
  lemma GrowthBounds(shares: nat)
    requires shares >= EQUITY
    ensures 0 < Minted(LOSS, LEFT, shares) < shares
    ensures LOSS * shares <= LEFT * (Minted(LOSS, LEFT, shares) + 1)
  {
    FloorBounds(LOSS * shares, LEFT);
  }

  function SharesAfter(k: nat): nat {
    if k == 0 then EQUITY else Grown(SharesAfter(k - 1))
  }

  lemma {:induction false} SharesAtLeast(k: nat)
    ensures SharesAfter(k) >= EQUITY
  {
    hide Minted;
    if k > 0 {
      SharesAtLeast(k - 1);
    }
  }

  lemma {:induction false} SharesGrow(k: nat, more: nat)
    ensures SharesAfter(k + more) >= SharesAfter(k) + more * Minted(LOSS, LEFT, SharesAfter(k))
    ensures SharesAfter(k + more) >= SharesAfter(k)
  {
    hide Minted;
    if more > 0 {
      SharesGrow(k, more - 1);
      SharesAtLeast(k);
      MintedMono(SharesAfter(k), SharesAfter(k + more - 1));
      OneMore(more, Minted(LOSS, LEFT, SharesAfter(k)));
    }
  }

  lemma OneMore(n: nat, x: nat)
    requires n > 0
    ensures n * x == (n - 1) * x + x
  {
  }

  lemma MintedMono(a: nat, b: nat)
    requires 0 < a <= b
    ensures Minted(LOSS, LEFT, a) <= Minted(LOSS, LEFT, b)
  {
    FloorMono(LOSS * a, LOSS * b, LEFT);
  }

  /** Twenty-one rounds double the shares. */
  lemma Doubles(k: nat)
    ensures SharesAfter(k + 21) >= 2 * SharesAfter(k)
  {
    SharesGrow(k, 21);
    SharesAtLeast(k);
    GrowthBounds(SharesAfter(k));
  }

  function Power(n: nat): nat {
    if n == 0 then 1 else 2 * Power(n - 1)
  }

  lemma {:induction false} DoublesTimes(n: nat)
    ensures SharesAfter(21 * n) >= EQUITY * Power(n)
  {
    if n > 0 {
      DoublesTimes(n - 1);
      Doubles(21 * (n - 1));
    }
  }

  lemma {:induction false} PowerAt(n: nat)
    ensures Power(n + 7) == 128 * Power(n)
  {
    assert Power(n + 7) == 2 * Power(n + 6) == 4 * Power(n + 5) == 8 * Power(n + 4);
    assert Power(n + 4) == 2 * Power(n + 3) == 4 * Power(n + 2) == 8 * Power(n + 1) == 16 * Power(n);
  }

  const ENOUGH := 20_000_000_000_000_000_000

  /** After 588 rounds there are enough shares. */
  lemma EventuallyEnough()
    ensures SharesAfter(588) >= ENOUGH
  {
    DoublesTimes(28);
    PowerAt(0);
    PowerAt(7);
    PowerAt(14);
    PowerAt(21);
    assert Power(28) == 268_435_456;
  }

  /** The first round after which there are. */
  lemma FirstEnough(k: nat) returns (n: nat)
    requires SharesAfter(k) >= ENOUGH
    ensures 0 < n <= k && SharesAfter(n) >= ENOUGH && forall j :: 0 <= j < n ==> SharesAfter(j) < ENOUGH
  {
    n := 0;
    while SharesAfter(n) < ENOUGH
      invariant n <= k
      invariant forall j :: 0 <= j < n ==> SharesAfter(j) < ENOUGH
      decreases k - n
    {
      n := n + 1;
    }
  }

  // ----- the run

  const SETUP: seq<Command> :=
    [InitMarket(0, 0, true)] + [InitPositions(0)] + [InitLiquidity(0)] + [Deposit(0, 0, 0, EQUITY, 0)]

  const TOKENS: map<TokenKey, u64> := map[Wallet(0) := U64_MAX]

  function Rounds(n: nat): seq<Command>
    requires n <= 588
  {
    if n == 0 then SETUP
    else Rounds(n - 1) + [OpenCommand(n - 1)] + [TickCommand(n - 1)] + [REFILL]
  }

  lemma SetUp()
    ensures Between(Run(Initial(TOKENS), SETUP), 0, EQUITY)
  {
    hide Apply, DepositLiquidity, Run;
    var none: seq<Command> := [];
    var s := Initial(TOKENS);
    assert Run(s, none) == s by {
      RunNone(s);
    }
    assert none + [InitMarket(0, 0, true)] == [InitMarket(0, 0, true)];
    Runs.RunPush(s, none, InitMarket(0, 0, true));
    Runs.RunPush(s, [InitMarket(0, 0, true)], InitPositions(0));
    Runs.RunPush(s, [InitMarket(0, 0, true)] + [InitPositions(0)], InitLiquidity(0));
    Runs.RunPush(s, [InitMarket(0, 0, true)] + [InitPositions(0)] + [InitLiquidity(0)], Deposit(0, 0, 0, EQUITY, 0));
    InitAll(s);
  }

  lemma RunNone(s: State)
    ensures Run(s, []) == s
  {
  }

  lemma InitAll(s: State)
    requires s == Initial(TOKENS)
    ensures var s1 := Apply(Apply(Apply(s, InitMarket(0, 0, true)), InitPositions(0)), InitLiquidity(0));
            Between(Apply(s1, Deposit(0, 0, 0, EQUITY, 0)), 0, EQUITY)
  {
    hide DepositLiquidity;
    var s1 := Apply(Apply(Apply(s, InitMarket(0, 0, true)), InitPositions(0)), InitLiquidity(0));
    assert s1.markets[0] == Market(0, 0, 0, 0, 0, 0, 0, Open) && s1.liquidity[0] == [];
    DepositSucceedsExactly(s1.markets[0], [], 0, U64_MAX, 0, EQUITY, 0);
    DepositFacts(s1.markets[0], [], 0, U64_MAX, 0, EQUITY, 0);
    assert [] + [LiquidityEntry(0, 0, 0, 0)] == [LiquidityEntry(0, 0, 0, 0)];
    assert MarketOrInsert([], 0) == Ok(([LiquidityEntry(0, 0, 0, 0)], 0));
    assert [LiquidityEntry(0, 0, 0, 0)][0 := LiquidityEntry(0, EQUITY, 0, 0)] == [LiquidityEntry(0, EQUITY, 0, 0)];
  }

  lemma {:induction false} RoundsRun(n: nat)
    requires n <= 588 && forall j :: 0 <= j < n ==> SharesAfter(j) < ENOUGH
    ensures Between(Run(Initial(TOKENS), Rounds(n)), n, SharesAfter(n))
  {
    hide Apply, Run, Between, Trading, Lost, Grown;
    if n == 0 {
      SetUp();
    } else {
      var s, cs := Initial(TOKENS), Rounds(n - 1);
      RoundsRun(n - 1);
      SharesAtLeast(n - 1);
      OpenRound(Run(s, cs), n - 1, SharesAfter(n - 1));
      TickRound(Apply(Run(s, cs), OpenCommand(n - 1)), n - 1, SharesAfter(n - 1));
      Runs.RunPush(s, cs, OpenCommand(n - 1));
      Runs.RunPush(s, cs + [OpenCommand(n - 1)], TickCommand(n - 1));
      Runs.RunPush(s, cs + [OpenCommand(n - 1)] + [TickCommand(n - 1)], REFILL);
      RefillRound(Run(s, cs + [OpenCommand(n - 1)] + [TickCommand(n - 1)]), n - 1, SharesAfter(n - 1));
    }
  }

  /** A reachable market whose shares cannot all be redeemed: after at most 588 rounds and a donation of
      the rest of the tokens, the product of shares and pool is beyond 128 bits. */
  lemma FullRedemptionCanFail() returns (cs: seq<Command>)
    ensures var s := Run(Initial(TOKENS), cs);
            && 0 in s.markets
            && s.markets[0].totalShares * s.Balance(Pool(0)) > U128_MAX
            && AssetsForShares(s.markets[0].totalShares, s.Balance(Pool(0)), s.markets[0].totalShares)
                 == Err(MathOverflow)
    ensures Inv.Supply(TOKENS) <= U64_MAX
  {
    hide Apply, Run, AssetsForShares, Between, Inv.Supply;
    EventuallyEnough();
    var n := FirstEnough(588);
    RoundsRun(n);
    var s := Run(Initial(TOKENS), Rounds(n));
    var gift := Send(0, Pool(0), RestOf(n));
    cs := Rounds(n) + [gift];
    Runs.RunPush(Initial(TOKENS), Rounds(n), gift);
    Donated(s, n, SharesAfter(n));
    var after := Apply(s, gift);
    MulMono(ENOUGH, after.markets[0].totalShares, after.Balance(Pool(0)));
    FullRedemption(after.Balance(Pool(0)), after.markets[0].totalShares);
    Inv.SupplyOfOne(Wallet(0), U64_MAX);
  }

  function RestOf(n: nat): u64
    requires n <= 588
  {
    U64_MAX - EQUITY - n * FEE
  }

  lemma Donated(s: State, n: nat, shares: nat)
    requires n <= 588 && Between(s, n, shares)
    ensures var after := Apply(s, Send(0, Pool(0), RestOf(n)));
            && 0 in after.markets && after.markets[0].totalShares == shares
            && after.Balance(Pool(0)) == U64_MAX - n * FEE
  {
  }
}
